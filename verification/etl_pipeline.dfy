/** The row logic of scripts/etl/mysql_etl_pipeline.py: the customer
    segment rule of `transform_order_summary`, the cleaning done by
    `transform_customer_data`, and the column filter, statement and batching
    of `_upsert_data`.  DataFrames are sequences of records; the clock,
    `DESCRIBE` and `executemany` are parameters. */
module EtlPipeline {
  import opened Wrappers
  import opened Text
  import opened Chunking
  import opened SqlStatements

  // ---------------------------------------------------------------------
  // classify_segment

  datatype Segment = New | Churned | AtRisk | Vip | Regular

  /** The label written to `customer_segment`. */
  function Label(s: Segment): (r: string)
    ensures r in ["new", "churned", "at_risk", "vip", "regular"]
  {
    match s
    case New => "new"
    case Churned => "churned"
    case AtRisk => "at_risk"
    case Vip => "vip"
    case Regular => "regular"
  }

  /** Distinct segments get distinct labels. */
  lemma {:induction false} LabelInjective(a: Segment, b: Segment)
    ensures Label(a) == Label(b) <==> a == b
  {
    if a != b {
      assert Label(a)[0] != Label(b)[0] || |Label(a)| != |Label(b)|;
    }
  }

  /** `classify_segment(row)`: no orders is new; then recency decides
      churned (over 365 days) and at risk (over 180 days); then spend over
      5000 or more than 20 orders is VIP; more than one order is regular;
      a single order is new. */
  function ClassifySegment(totalOrders: int, daysSinceLastOrder: int, totalSpent: real): Segment
  {
    if totalOrders == 0 then New
    else if daysSinceLastOrder > 365 then Churned
    else if daysSinceLastOrder > 180 then AtRisk
    else if totalSpent > 5000.0 || totalOrders > 20 then Vip
    else if totalOrders > 1 then Regular
    else New
  }

  /** Each segment by its own condition, independent of the order in which
      the rules are tried; recency outranks spend, so a big spender who has
      not ordered for 200 days is at risk, not VIP. */
  lemma {:induction false} SegmentConditions(orders: int, days: int, spent: real)
    ensures ClassifySegment(orders, days, spent) == Churned <==> orders != 0 && days > 365
    ensures ClassifySegment(orders, days, spent) == AtRisk <==> orders != 0 && 180 < days <= 365
    ensures ClassifySegment(orders, days, spent) == Vip <==>
              orders != 0 && days <= 180 && (spent > 5000.0 || orders > 20)
    ensures ClassifySegment(orders, days, spent) == Regular <==>
              1 < orders <= 20 && days <= 180 && spent <= 5000.0
    ensures ClassifySegment(orders, days, spent) == New <==>
              orders == 0 || (orders <= 1 && days <= 180 && spent <= 5000.0)
  {
  }

  /** More days since the last order never makes a customer look more
      active: churned stays churned and at risk becomes at risk or churned. */
  lemma {:induction false} RecencyMonotone(orders: int, days: int, laterDays: int, spent: real)
    requires days <= laterDays
    ensures ClassifySegment(orders, days, spent) == Churned ==> ClassifySegment(orders, laterDays, spent) == Churned
    ensures ClassifySegment(orders, days, spent) == AtRisk ==>
              ClassifySegment(orders, laterDays, spent) in {AtRisk, Churned}
  {
  }

  /** Spending more never demotes a recent customer out of VIP. */
  lemma {:induction false} SpendMonotone(orders: int, days: int, spent: real, moreSpent: real)
    requires spent <= moreSpent
    ensures ClassifySegment(orders, days, spent) == Vip ==> ClassifySegment(orders, days, moreSpent) == Vip
  {
  }

  // ---------------------------------------------------------------------
  // transform_customer_data

  /** A customer row as extracted; `None` is a missing (NaN) value. */
  datatype RawCustomer = RawCustomer(
    customerId: int,
    firstName: Option<string>,
    lastName: Option<string>,
    email: Option<string>)

  /** A customer row after cleaning: `processed_at` and `etl_batch_id` are
      the pipeline's clock reading and session id. */
  datatype CleanCustomer = CleanCustomer(
    customerId: int,
    firstName: Option<string>,
    lastName: Option<string>,
    customerName: Option<string>,
    email: string,
    processedAt: int,
    etlBatchId: string)

  /** `first_name + ' ' + last_name`: missing when either part is missing. */
  function FullName(first: Option<string>, last: Option<string>): (r: Option<string>)
    ensures r.Some? <==> first.Some? && last.Some?
    ensures r.Some? ==> |r.value| == |first.value| + 1 + |last.value|
                        && r.value[..|first.value|] == first.value
                        && r.value[|first.value|] == ' '
                        && r.value[|first.value| + 1..] == last.value
  {
    if first.Some? && last.Some? then Some(first.value + " " + last.value) else None
  }

  /** `df.dropna(subset=['email'])`. */
  function DropMissingEmail(rows: seq<RawCustomer>): (r: seq<RawCustomer>)
    ensures |r| <= |rows|
    ensures forall i :: 0 <= i < |r| ==> r[i].email.Some?
    ensures forall x :: x in r <==> x in rows && x.email.Some?
    decreases |rows|
  {
    if |rows| == 0 then []
    else
      var rest := DropMissingEmail(rows[1..]);
      assert forall x :: x in rows <==> x == rows[0] || x in rows[1..];
      if rows[0].email.Some? then [rows[0]] + rest else rest
  }

  /** Dropping keeps the surviving rows in their order: it distributes over
      concatenation. */
  lemma {:induction false} DropKeepsOrder(a: seq<RawCustomer>, b: seq<RawCustomer>)
    ensures DropMissingEmail(a + b) == DropMissingEmail(a) + DropMissingEmail(b)
    decreases |a|
  {
    if |a| > 0 {
      assert (a + b)[1..] == a[1..] + b;
      DropKeepsOrder(a[1..], b);
    } else {
      assert a + b == b;
    }
  }

  /** The number of rows that have an e-mail address. */
  function CountWithEmail(rows: seq<RawCustomer>): nat
    decreases |rows|
  {
    if |rows| == 0 then 0
    else (if rows[0].email.Some? then 1 else 0) + CountWithEmail(rows[1..])
  }

  /** Exactly the rows with an e-mail survive. */
  lemma {:induction false} DropCount(rows: seq<RawCustomer>)
    ensures |DropMissingEmail(rows)| == CountWithEmail(rows)
    decreases |rows|
  {
    if |rows| > 0 {
      DropCount(rows[1..]);
    }
  }

  function Clean(row: RawCustomer, processedAt: int, batchId: string): CleanCustomer
    requires row.email.Some?
  {
    CleanCustomer(row.customerId, row.firstName, row.lastName, FullName(row.firstName, row.lastName),
                  Lower(row.email.value), processedAt, batchId)
  }

  /** `transform_customer_data(df)`: name each customer, stamp the batch,
      drop customers without e-mail and lower-case the rest's e-mail. */
  function TransformCustomers(rows: seq<RawCustomer>, processedAt: int, batchId: string): (r: seq<CleanCustomer>)
    ensures |r| == CountWithEmail(rows)
    ensures forall i :: 0 <= i < |r| ==> forall j :: 0 <= j < |r[i].email| ==> !IsUpper(r[i].email[j])
    ensures forall i :: 0 <= i < |r| ==> r[i].processedAt == processedAt && r[i].etlBatchId == batchId
  {
    var kept := DropMissingEmail(rows);
    DropCount(rows);
    seq(|kept|, i requires 0 <= i < |kept| => Clean(kept[i], processedAt, batchId))
  }

  /** Every cleaned customer comes from a row with an e-mail, in order:
      output row `i` is surviving row `i`, with its e-mail lower-cased (same
      length) and its name built from its first and last names. */
  lemma {:induction false} TransformMeaning(rows: seq<RawCustomer>, processedAt: int, batchId: string)
    ensures var kept := DropMissingEmail(rows);
      var r := TransformCustomers(rows, processedAt, batchId);
      && |r| == |kept|
      && forall i :: 0 <= i < |r| ==>
           && r[i].customerId == kept[i].customerId
           && |r[i].email| == |kept[i].email.value|
           && r[i].email == Lower(kept[i].email.value)
           && r[i].customerName == FullName(kept[i].firstName, kept[i].lastName)
  {
    DropCount(rows);
  }

  /** Cleaning is stable on already clean e-mail: lower-casing a second
      time changes nothing. */
  lemma {:induction false} CleanEmailStable(rows: seq<RawCustomer>, processedAt: int, batchId: string)
    ensures forall i :: 0 <= i < |TransformCustomers(rows, processedAt, batchId)| ==>
              Lower(TransformCustomers(rows, processedAt, batchId)[i].email)
              == TransformCustomers(rows, processedAt, batchId)[i].email
  {
    var r := TransformCustomers(rows, processedAt, batchId);
    TransformMeaning(rows, processedAt, batchId);
    forall i | 0 <= i < |r|
      ensures Lower(r[i].email) == r[i].email
    {
      LowerIdempotent(DropMissingEmail(rows)[i].email.value);
    }
  }

  // ---------------------------------------------------------------------
  // _upsert_data

  /** The batch size when the configuration does not set one. */
  const DefaultBatchSize: int := 1000

  /** `[col for col in df.columns if col in columns]`. */
  function FilterColumns(frameColumns: seq<string>, tableColumns: seq<string>): (r: seq<string>)
    ensures |r| <= |frameColumns|
    ensures forall c :: c in r <==> c in frameColumns && c in tableColumns
    decreases |frameColumns|
  {
    if |frameColumns| == 0 then []
    else
      var rest := FilterColumns(frameColumns[1..], tableColumns);
      assert forall c :: c in frameColumns <==> c == frameColumns[0] || c in frameColumns[1..];
      if frameColumns[0] in tableColumns then [frameColumns[0]] + rest else rest
  }

  /** One step of the filter: the first column is kept when the table has it. */
  lemma {:induction false} FilterColumnsCons(frameColumns: seq<string>, tableColumns: seq<string>)
    requires |frameColumns| > 0
    ensures FilterColumns(frameColumns, tableColumns)
            == (if frameColumns[0] in tableColumns then [frameColumns[0]] else []) + FilterColumns(frameColumns[1..], tableColumns)
  {
  }

  /** The filter keeps the frame's column order: it distributes over
      concatenation. */
  lemma {:induction false} FilterKeepsOrder(a: seq<string>, b: seq<string>, tableColumns: seq<string>)
    ensures FilterColumns(a + b, tableColumns) == FilterColumns(a, tableColumns) + FilterColumns(b, tableColumns)
    decreases |a|
  {
    if |a| > 0 {
      var ab := a + b;
      assert ab[0] == a[0] && ab[1..] == a[1..] + b;
      FilterKeepsOrder(a[1..], b, tableColumns);
      FilterColumnsCons(ab, tableColumns);
      FilterColumnsCons(a, tableColumns);
    } else {
      assert a + b == b;
    }
  }

  /** `df[df_columns]` on one row: the values of the kept columns, in order. */
  function ProjectRow<V>(frameColumns: seq<string>, tableColumns: seq<string>, row: seq<V>): (r: seq<V>)
    requires |row| == |frameColumns|
    ensures |r| == |FilterColumns(frameColumns, tableColumns)|
    decreases |frameColumns|
  {
    if |frameColumns| == 0 then []
    else
      var rest := ProjectRow(frameColumns[1..], tableColumns, row[1..]);
      if frameColumns[0] in tableColumns then [row[0]] + rest else rest
  }

  /** Column `name` of `row` holds `value`. */
  ghost predicate HasPair<V>(frameColumns: seq<string>, row: seq<V>, name: string, value: V)
    requires |row| == |frameColumns|
  {
    exists j :: 0 <= j < |frameColumns| && frameColumns[j] == name && row[j] == value
  }

  /** The projected row holds the value of each kept column: pairing the
      kept column names with the projected values gives name/value pairs of
      the original row. */
  lemma {:induction false} ProjectRowPairs<V>(frameColumns: seq<string>, tableColumns: seq<string>, row: seq<V>)
    requires |row| == |frameColumns|
    ensures forall k :: 0 <= k < |FilterColumns(frameColumns, tableColumns)| ==>
              HasPair(frameColumns, row, FilterColumns(frameColumns, tableColumns)[k],
                      ProjectRow(frameColumns, tableColumns, row)[k])
    decreases |frameColumns|
  {
    if |frameColumns| > 0 {
      var f', r' := frameColumns[1..], row[1..];
      ProjectRowPairs(f', tableColumns, r');
      var kept := FilterColumns(frameColumns, tableColumns);
      var values := ProjectRow(frameColumns, tableColumns, row);
      var kept' := FilterColumns(f', tableColumns);
      var values' := ProjectRow(f', tableColumns, r');
      var off := if frameColumns[0] in tableColumns then 1 else 0;
      assert forall k :: 0 <= k < |kept'| ==> HasPair(f', r', kept'[k], values'[k]);
      assert |kept| == |kept'| + off;
      forall k | 0 <= k < |kept|
        ensures HasPair(frameColumns, row, kept[k], values[k])
      {
        if off == 1 && k == 0 {
          assert frameColumns[0] == kept[0] && row[0] == values[0];
        } else {
          assert kept[k] == kept'[k - off] && values[k] == values'[k - off];
          assert HasPair(f', r', kept'[k - off], values'[k - off]);
          var j' :| 0 <= j' < |f'| && f'[j'] == kept[k] && r'[j'] == values[k];
          assert frameColumns[j' + 1] == kept[k] && row[j' + 1] == values[k];
        }
      }
    }
  }

  /** The statement `_upsert_data` sends and the batches it passed to
      `executemany`, in order. */
  datatype UpsertRun<V> = UpsertRun(columns: seq<string>, statement: string, batches: seq<seq<seq<V>>>)

  /** `df[df_columns]` row by row, as `executemany` receives it. */
  function ProjectRows<V>(frameColumns: seq<string>, tableColumns: seq<string>, rows: seq<seq<V>>): (r: seq<seq<V>>)
    requires forall i :: 0 <= i < |rows| ==> |rows[i]| == |frameColumns|
    ensures |r| == |rows|
    ensures forall i :: 0 <= i < |rows| ==> r[i] == ProjectRow(frameColumns, tableColumns, rows[i])
  {
    seq(|rows|, i requires 0 <= i < |rows| => ProjectRow(frameColumns, tableColumns, rows[i]))
  }

  /** `_upsert_data(df, table_name, connection)` with the table's columns as
      `DESCRIBE` listed them and the configured batch size, if any.  A
      batch size of 0 raises `ValueError`, a negative one sends nothing,
      and a database error from any batch propagates. */
  function UpsertData<V>(table: string, frameColumns: seq<string>, rows: seq<seq<V>>, tableColumns: seq<string>,
                         batchSizeSetting: Option<int>, executemany: BatchDatabase<seq<V>>)
    : (r: Result<UpsertRun<V>, string>)
    requires forall i :: 0 <= i < |rows| ==> |rows[i]| == |frameColumns|
    ensures r.Success? ==> r.value.columns == FilterColumns(frameColumns, tableColumns)
    ensures r.Success? ==> r.value.statement == UpsertStatement(table, r.value.columns)
    ensures batchSizeSetting.GetOr(DefaultBatchSize) == 0 ==> r.Failure?
    ensures batchSizeSetting.GetOr(DefaultBatchSize) < 0 ==> r.Success? && r.value.batches == []
    ensures r.Success? && batchSizeSetting.GetOr(DefaultBatchSize) > 0 ==>
              |Flatten(r.value.batches)| == |rows|
              && (forall i :: 0 <= i < |rows| ==> Flatten(r.value.batches)[i] == ProjectRow(frameColumns, tableColumns, rows[i]))
              && (forall b :: 0 <= b < |r.value.batches| ==> 0 < |r.value.batches[b]| <= batchSizeSetting.GetOr(DefaultBatchSize))
              && |r.value.batches| == CeilDiv(|rows|, batchSizeSetting.GetOr(DefaultBatchSize))
    ensures r.Success? && batchSizeSetting.GetOr(DefaultBatchSize) > 0 ==>
              r.value.batches == Chunks(ProjectRows(frameColumns, tableColumns, rows), batchSizeSetting.GetOr(DefaultBatchSize))
    ensures r.Success? ==> AllSucceed(r.value.batches, executemany)
    ensures batchSizeSetting.GetOr(DefaultBatchSize) > 0 ==>
              var batches := Chunks(ProjectRows(frameColumns, tableColumns, rows), batchSizeSetting.GetOr(DefaultBatchSize));
              (r.Success? <==> AllSucceed(batches, executemany))
  {
    var columns := FilterColumns(frameColumns, tableColumns);
    var statement := UpsertStatement(table, columns);
    var projected := ProjectRows(frameColumns, tableColumns, rows);
    match Batches(projected, batchSizeSetting.GetOr(DefaultBatchSize))
    case Failure(e) => Failure(e)
    case Success(batches) =>
      var outcome := ExecuteBatches(batches, executemany);
      assert batchSizeSetting.GetOr(DefaultBatchSize) > 0 ==> batches == Chunks(projected, batchSizeSetting.GetOr(DefaultBatchSize));
      if outcome.Failure? then Failure(outcome.error)
      else Success(UpsertRun(columns, statement, batches))
  }

  /** The upsert statement has one placeholder per kept column, and its
      column list and update clause name the kept columns one to one, in
      frame order. */
  lemma {:induction false} UpsertMatchesColumns(table: string, frameColumns: seq<string>, tableColumns: seq<string>)
    requires PlainName(table)
    requires forall i :: 0 <= i < |frameColumns| ==> PlainName(frameColumns[i])
    ensures var kept := FilterColumns(frameColumns, tableColumns);
      && CountPlaceholders(UpsertStatement(table, kept)) == |kept|
      && (|kept| > 0 ==> Split(ColumnList(kept), ", ") == kept)
      && (|kept| > 0 ==> Split(UpdateClause(kept), ", ") == Assignments(kept))
  {
    var kept := FilterColumns(frameColumns, tableColumns);
    forall i | 0 <= i < |kept|
      ensures PlainName(kept[i])
    {
      assert kept[i] in frameColumns;
    }
    UpsertPlaceholders(table, kept);
    if |kept| > 0 {
      ColumnsRecoverable(kept);
      UpdateClauseRecoverable(kept);
    }
  }
}
