/** The decision logic of config/connection/python_mysql_config.py:
    `DatabaseConfig.from_environment`, `execute_query`'s fetch-mode dispatch
    and log sanitising, `execute_transaction`'s threading of the last insert
    id into later parameters, `bulk_insert`, and the operations
    `create_user_with_profile` submits.  The database is an oracle: the
    answer of `cursor.execute` is a parameter (or, for a transaction, a
    function of the statements sent so far). */
module MysqlConfig {
  import opened Wrappers
  import opened Text
  import opened Environment
  import opened SqlStatements

  // ---------------------------------------------------------------------
  // Configuration

  datatype PoolConfig = PoolConfig(
    host: string,
    port: int,
    database: string,
    user: string,
    password: string,
    poolName: string,
    poolSize: int,
    poolResetSession: bool,
    autocommit: bool,
    charset: string,
    collation: string,
    useSsl: bool,
    sslVerifyCert: bool,
    connectionTimeout: int)

  /** `int(os.getenv(f'{prefix}{suffix}', default))`. */
  function IntSetting(env: Env, prefix: string, suffix: string, default: string): Option<int>
  {
    ParseInt(Getenv(env, prefix + suffix, default))
  }

  /** `DatabaseConfig.from_environment(env_prefix)`: every setting is read
      from `{prefix}_...`; the integer settings raise `ValueError` when
      `int()` rejects them; a boolean setting is true exactly when its
      lower-cased text is `true`. */
  function FromEnvironment(env: Env, prefix: string): (r: Result<PoolConfig, string>)
    ensures r.Success? <==>
              IntSetting(env, prefix, "_PORT", "3306").Some?
              && IntSetting(env, prefix, "_POOL_SIZE", "10").Some?
              && IntSetting(env, prefix, "_TIMEOUT", "30").Some?
    ensures r.Success? ==> r.value.poolResetSession == Flag(env, prefix + "_POOL_RESET", "true")
    ensures r.Success? ==> r.value.autocommit == Flag(env, prefix + "_AUTOCOMMIT", "false")
    ensures r.Success? ==> r.value.useSsl == Flag(env, prefix + "_USE_SSL", "true")
    ensures r.Success? ==> r.value.sslVerifyCert == Flag(env, prefix + "_SSL_VERIFY", "false")
    ensures r.Success? ==> r.value.port == IntSetting(env, prefix, "_PORT", "3306").value
    ensures r.Success? ==> r.value.poolSize == IntSetting(env, prefix, "_POOL_SIZE", "10").value
    ensures r.Success? ==> r.value.connectionTimeout == IntSetting(env, prefix, "_TIMEOUT", "30").value
    ensures r.Success? ==> r.value.host == Getenv(env, prefix + "_HOST", "localhost")
                           && r.value.database == Getenv(env, prefix + "_DATABASE", "myapp")
                           && r.value.user == Getenv(env, prefix + "_USER", "app_user")
                           && r.value.password == Getenv(env, prefix + "_PASSWORD", "")
  {
    var port := IntSetting(env, prefix, "_PORT", "3306");
    var poolSize := IntSetting(env, prefix, "_POOL_SIZE", "10");
    var timeout := IntSetting(env, prefix, "_TIMEOUT", "30");
    if port.None? || poolSize.None? || timeout.None? then Failure("invalid literal for int() with base 10")
    else
      Success(PoolConfig(
        host := Getenv(env, prefix + "_HOST", "localhost"),
        port := port.value,
        database := Getenv(env, prefix + "_DATABASE", "myapp"),
        user := Getenv(env, prefix + "_USER", "app_user"),
        password := Getenv(env, prefix + "_PASSWORD", ""),
        poolName := Getenv(env, prefix + "_POOL_NAME", "myapp_pool"),
        poolSize := poolSize.value,
        poolResetSession := Flag(env, prefix + "_POOL_RESET", "true"),
        autocommit := Flag(env, prefix + "_AUTOCOMMIT", "false"),
        charset := Getenv(env, prefix + "_CHARSET", "utf8mb4"),
        collation := Getenv(env, prefix + "_COLLATION", "utf8mb4_unicode_ci"),
        useSsl := Flag(env, prefix + "_USE_SSL", "true"),
        sslVerifyCert := Flag(env, prefix + "_SSL_VERIFY", "false"),
        connectionTimeout := timeout.value))
  }

  /** A variable outside the prefix's namespace does not shadow a setting. */
  lemma {:induction false} UnsetSetting(env: Env, prefix: string, suffix: string)
    requires forall k :: k in env ==> |k| < |prefix| || k[..|prefix|] != prefix
    ensures prefix + suffix !in env
  {
  }

  /** `int()` of a plain run of digits is its decimal value. */
  lemma {:induction false} ParseDigits(s: string)
    requires |s| > 0 && IsDigit(s[0])
    requires forall i :: 0 <= i < |s| ==> IsDigit(s[i])
    ensures ParseInt(s) == Some(DigitsValue(s))
  {
    assert s[0..] == s;
  }

  lemma {:induction false} DefaultLiterals()
    ensures ParseInt("3306") == Some(3306)
    ensures ParseInt("10") == Some(10)
    ensures ParseInt("30") == Some(30)
  {
    ParseDigits("3306");
    ParseDigits("10");
    ParseDigits("30");
    assert "3306"[..3] == "330" && "330"[..2] == "33" && "33"[..1] == "3" && "3"[..0] == "";
    assert "10"[..1] == "1" && "1"[..0] == "";
    assert "30"[..1] == "3";
  }

  /** With none of its variables set, the configuration is the documented
      default: port 3306, pool of 10, 30-second timeout, session reset and
      SSL on, autocommit and certificate verification off. */
  lemma {:induction false} DefaultsWhenUnset(env: Env, prefix: string)
    requires forall k :: k in env ==> |k| < |prefix| || k[..|prefix|] != prefix
    ensures FromEnvironment(env, prefix).Success?
    ensures FromEnvironment(env, prefix).value.port == 3306
    ensures FromEnvironment(env, prefix).value.poolSize == 10
    ensures FromEnvironment(env, prefix).value.connectionTimeout == 30
    ensures FromEnvironment(env, prefix).value.poolResetSession
    ensures !FromEnvironment(env, prefix).value.autocommit
    ensures FromEnvironment(env, prefix).value.useSsl
    ensures !FromEnvironment(env, prefix).value.sslVerifyCert
  {
    UnsetSetting(env, prefix, "_PORT");
    UnsetSetting(env, prefix, "_POOL_SIZE");
    UnsetSetting(env, prefix, "_TIMEOUT");
    UnsetSetting(env, prefix, "_POOL_RESET");
    UnsetSetting(env, prefix, "_AUTOCOMMIT");
    UnsetSetting(env, prefix, "_USE_SSL");
    UnsetSetting(env, prefix, "_SSL_VERIFY");
    DefaultLiterals();
    FlagMeaning(env, prefix + "_POOL_RESET", "true");
    FlagMeaning(env, prefix + "_AUTOCOMMIT", "false");
    FlagMeaning(env, prefix + "_USE_SSL", "true");
    FlagMeaning(env, prefix + "_SSL_VERIFY", "false");
  }

  // ---------------------------------------------------------------------
  // Parameters

  /** A Python value passed as a statement parameter. */
  datatype Value = IntValue(i: int) | TextValue(s: string) | BoolValue(b: bool)

  /** A parameter is `None` or a value. */
  datatype Param = Null | Given(value: Value)

  // ---------------------------------------------------------------------
  // execute_query

  /** What the cursor gave back after a successful `execute`. */
  datatype CursorAnswer<R> = CursorAnswer(rows: seq<R>, rowCount: int)

  datatype QueryResult<R> = AllRows(rows: seq<R>) | OneRow(row: Option<R>) | AffectedRows(count: int)

  datatype QueryError = InvalidFetchMode(mode: string) | DatabaseError(message: string)

  /** The observable effects of one `execute_query` call: the logged text,
      the result or raised error, whether the statement ran, and whether
      the connection committed or rolled back. */
  datatype QueryRun<R> = QueryRun(
    logged: string,
    outcome: Result<QueryResult<R>, QueryError>,
    executed: bool,
    committed: bool,
    rolledBack: bool)

  /** The text `execute_query` logs: placeholders shown as `?` when
      parameters are given, the statement unchanged otherwise. */
  function SanitizedQuery(query: string, params: seq<Param>): (r: string)
    ensures |params| == 0 ==> r == query
    ensures |params| > 0 ==> CountPlaceholders(r) == 0 && |r| + CountPlaceholders(query) == |query|
    ensures |params| > 0 ==> r == Join("?", Split(query, "%s"))
  {
    if |params| > 0 then
      ReplaceIsSplitJoin(query);
      ReplacePlaceholders(query)
    else query
  }

  predicate KnownFetchMode(fetch: string)
  {
    fetch == "all" || fetch == "one" || fetch == "none"
  }

  /** `execute_query(query, params, fetch)` given the database's answer to
      `cursor.execute`.  The fetch mode is checked only after the statement
      ran; an unknown mode raises `ValueError`, which is not a database
      error and so is not rolled back. */
  function ExecuteQuery<R>(query: string, params: seq<Param>, fetch: string,
                           answer: Result<CursorAnswer<R>, string>): (r: QueryRun<R>)
    ensures r.logged == SanitizedQuery(query, params)
    ensures r.executed <==> answer.Success?
    ensures answer.Failure? ==> r.outcome == Failure(DatabaseError(answer.error)) && r.rolledBack
    ensures answer.Success? ==> !r.rolledBack
    ensures r.committed <==> answer.Success? && fetch == "none"
    ensures answer.Success? ==> (r.outcome.Failure? <==> !KnownFetchMode(fetch))
    ensures answer.Success? && !KnownFetchMode(fetch) ==> r.outcome == Failure(InvalidFetchMode(fetch))
    ensures answer.Success? && fetch == "all" ==> r.outcome == Success(AllRows(answer.value.rows))
    ensures answer.Success? && fetch == "one" ==>
              r.outcome == Success(OneRow(if |answer.value.rows| > 0 then Some(answer.value.rows[0]) else None))
    ensures answer.Success? && fetch == "none" ==> r.outcome == Success(AffectedRows(answer.value.rowCount))
  {
    var logged := SanitizedQuery(query, params);
    match answer
    case Failure(e) => QueryRun(logged, Failure(DatabaseError(e)), false, false, true)
    case Success(c) =>
      if fetch == "all" then QueryRun(logged, Success(AllRows(c.rows)), true, false, false)
      else if fetch == "one" then
        QueryRun(logged, Success(OneRow(if |c.rows| > 0 then Some(c.rows[0]) else None)), true, false, false)
      else if fetch == "none" then QueryRun(logged, Success(AffectedRows(c.rowCount)), true, true, false)
      else QueryRun(logged, Failure(InvalidFetchMode(fetch)), true, false, false)
  }

  // ---------------------------------------------------------------------
  // execute_transaction

  /** One entry of the `operations` list: `{'query': ..., 'params': ...}`. */
  datatype Operation = Operation(query: string, params: seq<Param>)

  /** A statement as it was sent to `cursor.execute`. */
  datatype Executed = Executed(query: string, params: seq<Param>)

  /** The cursor's answer to a statement: its `lastrowid` or a database error. */
  datatype Response = Done(lastRowId: Option<int>) | DbError(message: string)

  /** The database inside one transaction: its answer to the last statement
      of the non-empty list of statements sent so far. */
  type Database = seq<Executed> -> Response

  /** Python truthiness of `cursor.lastrowid`: neither `None` nor 0. */
  predicate TruthyId(id: Option<int>)
  {
    id.Some? && id.value != 0
  }

  /** A statement that ran and produced a truthy `lastrowid`. */
  predicate ProducedId(answer: Response)
  {
    answer.Done? && TruthyId(answer.lastRowId)
  }

  /** Parameter threading: when there are parameters and an id was
      produced earlier, every `None` becomes that id. */
  function Thread(params: seq<Param>, lastId: Option<int>): (r: seq<Param>)
    ensures |r| == |params|
    ensures lastId.None? ==> r == params
    ensures forall i :: 0 <= i < |params| && params[i].Given? ==> r[i] == params[i]
    ensures lastId.Some? ==> forall i :: 0 <= i < |params| && params[i].Null? ==> r[i] == Given(IntValue(lastId.value))
  {
    if |params| > 0 && lastId.Some? then
      seq(|params|, i requires 0 <= i < |params| => if params[i].Null? then Given(IntValue(lastId.value)) else params[i])
    else params
  }

  /** The result of `execute_transaction`: whether it committed (the
      returned boolean; a database error rolls back and returns `False`),
      the statements sent in order, and the final `last_insert_id`. */
  datatype TxOutcome = TxOutcome(committed: bool, sent: seq<Executed>, lastInsertId: Option<int>)

  function RunOps(ops: seq<Operation>, db: Database, lastId: Option<int>, sent: seq<Executed>): TxOutcome
    decreases |ops|
  {
    if |ops| == 0 then TxOutcome(true, sent, lastId)
    else
      var stmt := Executed(ops[0].query, Thread(ops[0].params, lastId));
      var sent' := sent + [stmt];
      match db(sent')
      case DbError(_) => TxOutcome(false, sent', lastId)
      case Done(rowId) => RunOps(ops[1..], db, if TruthyId(rowId) then rowId else lastId, sent')
  }

  /** `execute_transaction(operations)`. */
  function ExecuteTransaction(ops: seq<Operation>, db: Database): TxOutcome
  {
    RunOps(ops, db, None, [])
  }

  /** The most recent truthy `lastrowid` among the answers to the statements
      of `sent`, each answered with the statements up to and including it. */
  function LastId(sent: seq<Executed>, db: Database): (r: Option<int>)
    ensures r.None? || TruthyId(r)
    decreases |sent|
  {
    if |sent| == 0 then None
    else
      var answer := db(sent);
      if ProducedId(answer) then answer.lastRowId
      else LastId(sent[..|sent| - 1], db)
  }

  /** The database's answer to statement `k` of `sent`, which saw the
      statements before it. */
  function AnswerTo(sent: seq<Executed>, db: Database, k: nat): Response
    requires k < |sent|
  {
    db(sent[..k + 1])
  }

  /** The statements a run sends extend the ones already sent, one per
      operation in order, each with its parameters threaded with the most
      recent truthy id produced before it. */
  lemma {:induction false} RunOpsSends(ops: seq<Operation>, db: Database, lastId: Option<int>, sent: seq<Executed>)
    requires lastId == LastId(sent, db)
    ensures var out := RunOps(ops, db, lastId, sent);
      && |sent| <= |out.sent| <= |sent| + |ops|
    ensures var out := RunOps(ops, db, lastId, sent);
      && out.sent[..|sent|] == sent
      && (forall k :: |sent| <= k < |out.sent| ==>
            out.sent[k] == Executed(ops[k - |sent|].query, Thread(ops[k - |sent|].params, LastId(out.sent[..k], db))))
    decreases |ops|
  {
    if |ops| > 0 {
      var stmt := Executed(ops[0].query, Thread(ops[0].params, lastId));
      var sent' := sent + [stmt];
      assert sent'[..|sent|] == sent;
      match db(sent')
      case DbError(_) =>
      case Done(rowId) =>
        var next := if TruthyId(rowId) then rowId else lastId;
        assert next == LastId(sent', db);
        RunOpsSends(ops[1..], db, next, sent');
        var out := RunOps(ops[1..], db, next, sent');
        assert out.sent[..|sent|] == sent'[..|sent|];
        forall k | |sent| <= k < |out.sent|
          ensures out.sent[k] == Executed(ops[k - |sent|].query, Thread(ops[k - |sent|].params, LastId(out.sent[..k], db)))
        {
          if k == |sent| {
            assert out.sent[k] == sent'[k];
            assert out.sent[..k] == sent;
          } else {
            assert ops[1..][k - |sent'|] == ops[k - |sent|];
          }
        }
    }
  }

  /** A run only appends to the statements already sent, at most one per
      operation. */
  lemma {:induction false} RunOpsExtends(ops: seq<Operation>, db: Database, lastId: Option<int>, sent: seq<Executed>)
    ensures var out := RunOps(ops, db, lastId, sent);
      && |sent| <= |out.sent| <= |sent| + |ops| && out.sent[..|sent|] == sent
    decreases |ops|
  {
    if |ops| > 0 {
      var sent' := sent + [Executed(ops[0].query, Thread(ops[0].params, lastId))];
      match db(sent')
      case DbError(_) =>
        assert sent'[..|sent|] == sent;
      case Done(rowId) =>
        var next := if TruthyId(rowId) then rowId else lastId;
        RunOpsExtends(ops[1..], db, next, sent');
        var out := RunOps(ops[1..], db, next, sent');
        assert out.sent[..|sent|] == out.sent[..|sent'|][..|sent|];
        assert sent'[..|sent|] == sent;
    }
  }

  /** Every statement of a run except the last was answered without error. */
  lemma {:induction false} RunOpsPrefixDone(ops: seq<Operation>, db: Database, lastId: Option<int>, sent: seq<Executed>)
    ensures var out := RunOps(ops, db, lastId, sent);
      forall k :: |sent| <= k < |out.sent| - 1 ==> AnswerTo(out.sent, db, k).Done?
    decreases |ops|
  {
    if |ops| > 0 {
      var sent' := sent + [Executed(ops[0].query, Thread(ops[0].params, lastId))];
      match db(sent')
      case DbError(_) =>
      case Done(rowId) =>
        var next := if TruthyId(rowId) then rowId else lastId;
        RunOpsExtends(ops[1..], db, next, sent');
        RunOpsPrefixDone(ops[1..], db, next, sent');
        var out := RunOps(ops[1..], db, next, sent');
        if |sent| < |out.sent| - 1 {
          assert out.sent[..|sent| + 1] == sent';
          assert AnswerTo(out.sent, db, |sent|).Done?;
        }
    }
  }

  /** A run that did not commit sent at least one statement, and the last
      one it sent is the one the database refused. */
  lemma {:induction false} RunOpsFails(ops: seq<Operation>, db: Database, lastId: Option<int>, sent: seq<Executed>)
    ensures var out := RunOps(ops, db, lastId, sent);
      !out.committed ==> |out.sent| > |sent| && AnswerTo(out.sent, db, |out.sent| - 1).DbError?
    decreases |ops|
  {
    if |ops| > 0 {
      var sent' := sent + [Executed(ops[0].query, Thread(ops[0].params, lastId))];
      match db(sent')
      case DbError(_) =>
        assert sent'[..|sent| + 1] == sent';
      case Done(rowId) =>
        var next := if TruthyId(rowId) then rowId else lastId;
        RunOpsExtends(ops[1..], db, next, sent');
        RunOpsFails(ops[1..], db, next, sent');
    }
  }

  /** A run that committed sent every operation and every statement was
      answered without error. */
  lemma {:induction false} RunOpsCommits(ops: seq<Operation>, db: Database, lastId: Option<int>, sent: seq<Executed>)
    ensures var out := RunOps(ops, db, lastId, sent);
      out.committed ==>
        |out.sent| == |sent| + |ops| && forall k :: |sent| <= k < |out.sent| ==> AnswerTo(out.sent, db, k).Done?
    decreases |ops|
  {
    if |ops| > 0 {
      var sent' := sent + [Executed(ops[0].query, Thread(ops[0].params, lastId))];
      match db(sent')
      case DbError(_) =>
      case Done(rowId) =>
        var next := if TruthyId(rowId) then rowId else lastId;
        RunOpsExtends(ops[1..], db, next, sent');
        RunOpsCommits(ops[1..], db, next, sent');
        var out := RunOps(ops[1..], db, next, sent');
        assert out.sent[..|sent| + 1] == sent';
        assert AnswerTo(out.sent, db, |sent|).Done?;
    }
  }

  /** A committed run reports the most recent truthy id of all the
      statements sent. */
  lemma {:induction false} RunOpsLastId(ops: seq<Operation>, db: Database, lastId: Option<int>, sent: seq<Executed>)
    requires lastId == LastId(sent, db)
    ensures var out := RunOps(ops, db, lastId, sent);
      out.committed ==> out.lastInsertId == LastId(out.sent, db)
    decreases |ops|
  {
    if |ops| > 0 {
      var sent' := sent + [Executed(ops[0].query, Thread(ops[0].params, lastId))];
      match db(sent')
      case DbError(_) =>
      case Done(rowId) =>
        var next := if TruthyId(rowId) then rowId else lastId;
        assert sent'[..|sent'| - 1] == sent;
        assert next == LastId(sent', db);
        RunOpsLastId(ops[1..], db, next, sent');
    }
  }

  /** A run stops at the first database error: it commits exactly when
      every operation was sent and answered without error, a run that did
      not commit ends with the statement that failed, and a commit reports
      the most recent truthy id as its `last_insert_id`. */
  lemma {:induction false} RunOpsMeaning(ops: seq<Operation>, db: Database, lastId: Option<int>, sent: seq<Executed>)
    requires lastId == LastId(sent, db)
    ensures var out := RunOps(ops, db, lastId, sent);
      && (forall k :: |sent| <= k < |out.sent| - 1 ==> AnswerTo(out.sent, db, k).Done?)
      && (out.committed <==>
            |out.sent| == |sent| + |ops| && forall k :: |sent| <= k < |out.sent| ==> AnswerTo(out.sent, db, k).Done?)
      && (!out.committed ==> |out.sent| > |sent| && AnswerTo(out.sent, db, |out.sent| - 1).DbError?)
      && (out.committed ==> out.lastInsertId == LastId(out.sent, db))
  {
    RunOpsPrefixDone(ops, db, lastId, sent);
    RunOpsFails(ops, db, lastId, sent);
    RunOpsCommits(ops, db, lastId, sent);
    RunOpsLastId(ops, db, lastId, sent);
  }

  /** `execute_transaction` from the caller's side: statement `k` is
      operation `k` with its `None` parameters replaced by the most recent
      truthy id produced before it; until some statement produced one,
      parameters pass through unchanged; parameter counts and every
      non-`None` parameter are kept. */
  lemma {:induction false} TransactionStatements(ops: seq<Operation>, db: Database)
    ensures var out := ExecuteTransaction(ops, db);
      && |out.sent| <= |ops|
      && (forall k :: 0 <= k < |out.sent| ==> out.sent[k].query == ops[k].query)
      && (forall k :: 0 <= k < |out.sent| ==> out.sent[k].params == Thread(ops[k].params, LastId(out.sent[..k], db)))
      && (forall k :: 0 <= k < |out.sent| && LastId(out.sent[..k], db).None? ==> out.sent[k].params == ops[k].params)
      && (forall k :: 0 <= k < |out.sent| ==> |out.sent[k].params| == |ops[k].params|)
  {
    RunOpsSends(ops, db, None, []);
    var out := ExecuteTransaction(ops, db);
    forall k | 0 <= k < |out.sent|
      ensures out.sent[k].query == ops[k].query
      ensures out.sent[k].params == Thread(ops[k].params, LastId(out.sent[..k], db))
    {
      assert out.sent[k] == Executed(ops[k - 0].query, Thread(ops[k - 0].params, LastId(out.sent[..k], db)));
    }
  }

  /** `execute_transaction` returns `True` exactly when every operation was
      sent and answered without a database error; otherwise it stopped at
      the first error.  A committed run's last insert id is the most recent
      truthy `lastrowid`. */
  lemma {:induction false} TransactionCommits(ops: seq<Operation>, db: Database)
    ensures var out := ExecuteTransaction(ops, db);
      && (out.committed <==> |out.sent| == |ops| && forall k :: 0 <= k < |out.sent| ==> AnswerTo(out.sent, db, k).Done?)
      && (!out.committed ==> 0 < |out.sent| <= |ops| && AnswerTo(out.sent, db, |out.sent| - 1).DbError?
                             && forall k :: 0 <= k < |out.sent| - 1 ==> AnswerTo(out.sent, db, k).Done?)
      && (out.committed ==> out.lastInsertId == LastId(out.sent, db))
  {
    RunOpsExtends(ops, db, None, []);
    RunOpsMeaning(ops, db, None, []);
  }

  // ---------------------------------------------------------------------
  // bulk_insert

  /** The observable effects of `bulk_insert`: the statement, if one was
      built, the returned row count or raised error, and commit/rollback. */
  datatype BulkInsertRun = BulkInsertRun(statement: Option<string>, outcome: Result<int, string>,
                                         committed: bool, rolledBack: bool)

  /** `bulk_insert(table, columns, data)`: empty data returns 0 before any
      statement is built; otherwise one `executemany` over all rows. */
  function BulkInsert<R>(table: string, columns: seq<string>, data: seq<R>,
                         executemany: seq<R> -> Result<int, string>): (r: BulkInsertRun)
    ensures |data| == 0 ==> r == BulkInsertRun(None, Success(0), false, false)
    ensures |data| > 0 ==> r.statement == Some(InsertStatement(table, columns))
    ensures |data| > 0 ==> r.outcome == executemany(data)
    ensures r.committed <==> |data| > 0 && executemany(data).Success?
    ensures r.rolledBack <==> |data| > 0 && executemany(data).Failure?
  {
    if |data| == 0 then BulkInsertRun(None, Success(0), false, false)
    else
      var stmt := InsertStatement(table, columns);
      match executemany(data)
      case Success(n) => BulkInsertRun(Some(stmt), Success(n), true, false)
      case Failure(e) => BulkInsertRun(Some(stmt), Failure(e), false, true)
  }

  /** The statement `bulk_insert` builds has one placeholder per column. */
  lemma {:induction false} BulkInsertPlaceholders(table: string, columns: seq<string>)
    requires PlainNames(table, columns)
    ensures CountPlaceholders(InsertStatement(table, columns)) == |columns|
  {
    BatchInsertPlaceholders(table, columns, false);
  }

  // ---------------------------------------------------------------------
  // create_user_with_profile

  function Spaces(n: nat): (r: string)
    ensures |r| == n && '%' !in r
  {
    seq(n, _ => ' ')
  }

  const PasswordHashPlaceholder: string := "$2y$10$default.hash"

  /** A four-column `INSERT` laid out as in the source's triple-quoted
      strings: the `INSERT INTO ... (...)` line, then the `VALUES` line. */
  function FourValueInsert(insertLine: string): string
  {
    "\n" + Spaces(20) + insertLine + "\n" + Spaces(20) + "VALUES (" + Placeholders(4) + ")\n" + Spaces(16)
  }

  /** Such a statement expects four parameters. */
  lemma {:induction false} FourValueInsertArity(insertLine: string)
    requires '%' !in insertLine
    ensures CountPlaceholders(FourValueInsert(insertLine)) == 4
  {
    PlaceholderCount(4);
    var a := "\n" + Spaces(20) + insertLine + "\n" + Spaces(20) + "VALUES (";
    var b := ")\n" + Spaces(16);
    assert '%' !in "VALUES (" && '%' !in ")\n" && '%' !in "\n";
    assert '%' !in a;
    assert FourValueInsert(insertLine) == a + Placeholders(4) + b;
    CountSandwich(a, Placeholders(4), b);
  }

  function InsertUserQuery(): string
  {
    FourValueInsert("INSERT INTO users (username, " + "email, password_hash, email_verified)")
  }

  function InsertProfileQuery(): string
  {
    FourValueInsert("INSERT INTO user_profiles (user_id, " + "first_name, last_name, display_name)")
  }

  /** The two operations `create_user_with_profile` submits: the user row,
      then the profile row whose `user_id` is left `None` for threading. */
  function UserWithProfileOps(username: string, email: string, firstName: string, lastName: string)
    : seq<Operation>
  {
    [ Operation(InsertUserQuery(),
                [Given(TextValue(username)), Given(TextValue(email)),
                 Given(TextValue(PasswordHashPlaceholder)), Given(BoolValue(false))]),
      Operation(InsertProfileQuery(),
                [Null, Given(TextValue(firstName)), Given(TextValue(lastName)),
                 Given(TextValue(firstName + " " + lastName))]) ]
  }

  /** Each statement of `create_user_with_profile` has as many placeholders
      as it has parameters. */
  lemma {:induction false} UserWithProfileArity(username: string, email: string, firstName: string, lastName: string)
    ensures forall k :: 0 <= k < 2 ==>
              CountPlaceholders(UserWithProfileOps(username, email, firstName, lastName)[k].query)
              == |UserWithProfileOps(username, email, firstName, lastName)[k].params|
  {
    UserQueryArity();
    ProfileQueryArity();
    var ops := UserWithProfileOps(username, email, firstName, lastName);
    assert ops[0].query == InsertUserQuery() && |ops[0].params| == 4;
    assert ops[1].query == InsertProfileQuery() && |ops[1].params| == 4;
  }

  lemma {:induction false} UserQueryArity()
    ensures CountPlaceholders(InsertUserQuery()) == 4
  {
    var head := "INSERT INTO users (username, ";
    var rest := "email, password_hash, email_verified)";
    assert '%' !in head && '%' !in rest;
    FourValueInsertArity(head + rest);
  }

  lemma {:induction false} ProfileQueryArity()
    ensures CountPlaceholders(InsertProfileQuery()) == 4
  {
    var head := "INSERT INTO user_profiles (user_id, ";
    var rest := "first_name, last_name, display_name)";
    assert '%' !in head && '%' !in rest;
    FourValueInsertArity(head + rest);
  }

  /** `create_user_with_profile`: runs the two operations in one
      transaction; on success it looks the user up by e-mail and returns
      the id found, otherwise `None`. */
  function CreateUserWithProfile(username: string, email: string, firstName: string, lastName: string,
                                 db: Database, lookupUserId: string -> Option<int>): (r: Option<int>)
    ensures !ExecuteTransaction(UserWithProfileOps(username, email, firstName, lastName), db).committed ==> r.None?
  {
    if ExecuteTransaction(UserWithProfileOps(username, email, firstName, lastName), db).committed
    then lookupUserId(email) else None
  }

  /** The profile insert receives the id the user insert produced, followed
      by the names and the display name `first + ' ' + last`; when the user
      insert produced no truthy id, `user_id` is sent as `None`. */
  lemma {:induction false} ProfileReceivesUserId(username: string, email: string, firstName: string, lastName: string, db: Database)
    ensures var ops := UserWithProfileOps(username, email, firstName, lastName);
      var out := ExecuteTransaction(ops, db);
      |out.sent| == 2 ==>
        && out.sent[0].params == ops[0].params
        && (ProducedId(AnswerTo(out.sent, db, 0)) ==>
              out.sent[1].params == [Given(IntValue(AnswerTo(out.sent, db, 0).lastRowId.value)), Given(TextValue(firstName)),
                                     Given(TextValue(lastName)), Given(TextValue(firstName + " " + lastName))])
        && (!ProducedId(AnswerTo(out.sent, db, 0)) ==> out.sent[1].params == ops[1].params)
  {
    var ops := UserWithProfileOps(username, email, firstName, lastName);
    TransactionStatements(ops, db);
    var out := ExecuteTransaction(ops, db);
    if |out.sent| == 2 {
      assert out.sent[..0] == [];
      var first := out.sent[..1];
      assert first[..0] == [];
      assert LastId(first, db) == (if ProducedId(db(first)) then db(first).lastRowId else None);
      if ProducedId(db(first)) {
        var id := db(first).lastRowId.value;
        assert out.sent[1].params == Thread(ops[1].params, Some(id));
        assert out.sent[1].params[0] == Given(IntValue(id));
      }
    }
  }
}
