/** The INSERT statements the sources build from a table name and a column
    list before handing them, with rows of values, to `executemany`. */
module SqlStatements {
  import opened Text

  /** `', '.join(columns)`. */
  function ColumnList(columns: seq<string>): string
  {
    Join(", ", columns)
  }

  /** One entry of an update clause: `f"{col} = VALUES({col})"`. */
  function Assignment(col: string): string
  {
    col + " = VALUES(" + col + ")"
  }

  /** The assignments of an update clause, one per column, in column order. */
  function Assignments(columns: seq<string>): (r: seq<string>)
    ensures |r| == |columns|
    ensures forall i :: 0 <= i < |r| ==> r[i] == Assignment(columns[i])
  {
    seq(|columns|, i requires 0 <= i < |columns| => Assignment(columns[i]))
  }

  /** `', '.join([f"{col} = VALUES({col})" for col in columns])`. */
  function UpdateClause(columns: seq<string>): string
  {
    Join(", ", Assignments(columns))
  }

  /** The plain statement of `batch_insert` and `bulk_insert`:
      `INSERT INTO {table} ({columns}) VALUES ({placeholders})`. */
  function InsertStatement(table: string, columns: seq<string>): string
  {
    "INSERT INTO " + table + " (" + ColumnList(columns) + ") VALUES (" + Placeholders(|columns|) + ")"
  }

  /** `batch_insert`'s statement, with ` ON DUPLICATE KEY UPDATE ...` appended
      when `on_duplicate_update` is set. */
  function BatchInsertStatement(table: string, columns: seq<string>, onDuplicateUpdate: bool): string
  {
    var base := InsertStatement(table, columns);
    if onDuplicateUpdate then base + " ON DUPLICATE KEY UPDATE " + UpdateClause(columns) else base
  }

  /** The multi-line statement `_upsert_data` builds: the update clause is
      always present. */
  function UpsertStatement(table: string, columns: seq<string>): string
  {
    UpsertHead(table, columns) + Placeholders(|columns|) + UpsertTail(columns)
  }

  /** The upsert statement up to its `VALUES (`. */
  function UpsertHead(table: string, columns: seq<string>): string
  {
    "\n        INSERT INTO " + table + " (" + ColumnList(columns) + ")\n        VALUES ("
  }

  /** The upsert statement after its placeholders. */
  function UpsertTail(columns: seq<string>): string
  {
    ")\n        ON DUPLICATE KEY UPDATE " + UpdateClause(columns) + "\n        "
  }

  /** Names that cannot be mistaken for a placeholder or a list separator. */
  predicate PlainName(name: string)
  {
    '%' !in name && ',' !in name
  }

  predicate PlainNames(table: string, columns: seq<string>)
  {
    PlainName(table) && forall i :: 0 <= i < |columns| ==> PlainName(columns[i])
  }

  lemma {:induction false} PlainPieces(table: string, columns: seq<string>)
    requires PlainNames(table, columns)
    ensures '%' !in ColumnList(columns) && '%' !in UpdateClause(columns)
  {
    JoinAvoids('%', ", ", columns);
    var asg := Assignments(columns);
    forall i | 0 <= i < |asg|
      ensures '%' !in asg[i]
    {
      assert PlainName(columns[i]);
    }
    JoinAvoids('%', ", ", asg);
  }

  /** The column list of a statement splits back into the columns, in order. */
  lemma {:induction false} ColumnsRecoverable(columns: seq<string>)
    requires |columns| > 0
    requires forall i :: 0 <= i < |columns| ==> PlainName(columns[i])
    ensures Split(ColumnList(columns), ", ") == columns
  {
    SplitJoin(", ", columns);
  }

  /** The update clause splits back into one `col = VALUES(col)` per column,
      in column order. */
  lemma {:induction false} UpdateClauseRecoverable(columns: seq<string>)
    requires |columns| > 0
    requires forall i :: 0 <= i < |columns| ==> PlainName(columns[i])
    ensures Split(UpdateClause(columns), ", ") == Assignments(columns)
  {
    var asg := Assignments(columns);
    forall i | 0 <= i < |asg|
      ensures ',' !in asg[i]
    {
      assert PlainName(columns[i]);
    }
    SplitJoin(", ", asg);
  }

  /** The plain insert statement carries exactly one `%s` per column and
      ends in `)`, so nothing appended to it can pair with its last `%`. */
  lemma {:induction false} InsertPlaceholders(table: string, columns: seq<string>)
    requires PlainNames(table, columns)
    ensures CountPlaceholders(InsertStatement(table, columns)) == |columns|
    ensures NoDanglingPercent(InsertStatement(table, columns))
  {
    PlainPieces(table, columns);
    PlaceholderCount(|columns|);
    var a := "INSERT INTO " + table + " (" + ColumnList(columns) + ") VALUES (";
    var p := Placeholders(|columns|);
    assert InsertStatement(table, columns) == a + p + ")";
    CountSandwich(a, p, ")");
  }

  /** The statement `batch_insert` builds carries exactly one `%s` per
      column, with or without the update clause, whenever the table and
      column names hold no `%` of their own. */
  lemma {:induction false} BatchInsertPlaceholders(table: string, columns: seq<string>, onDuplicateUpdate: bool)
    requires PlainNames(table, columns)
    ensures CountPlaceholders(BatchInsertStatement(table, columns, onDuplicateUpdate)) == |columns|
  {
    InsertPlaceholders(table, columns);
    if onDuplicateUpdate {
      var base := InsertStatement(table, columns);
      PlainPieces(table, columns);
      var tail := " ON DUPLICATE KEY UPDATE " + UpdateClause(columns);
      assert '%' !in tail;
      CountWithoutPercent(tail);
      CountConcat(base, tail);
      assert BatchInsertStatement(table, columns, true) == base + tail;
    }
  }

  /** The statement `_upsert_data` builds carries exactly one `%s` per kept
      column whenever the names hold no `%` of their own. */
  lemma {:induction false} UpsertPlaceholders(table: string, columns: seq<string>)
    requires PlainNames(table, columns)
    ensures CountPlaceholders(UpsertStatement(table, columns)) == |columns|
  {
    UpsertPiecesPlain(table, columns);
    PlaceholderCount(|columns|);
    CountSandwich(UpsertHead(table, columns), Placeholders(|columns|), UpsertTail(columns));
  }

  lemma {:induction false} UpsertPiecesPlain(table: string, columns: seq<string>)
    requires PlainNames(table, columns)
    ensures '%' !in UpsertHead(table, columns) && '%' !in UpsertTail(columns)
  {
    PlainPieces(table, columns);
    assert '%' !in "\n        INSERT INTO " && '%' !in ")\n        VALUES (";
    assert '%' !in ")\n        ON DUPLICATE KEY UPDATE " && '%' !in "\n        ";
  }
}
