/** The configuration and bulk-loading logic of
    config/connection/python_database_manager.py: `DatabaseConfig.from_environment`,
    the SSL options `initialize` hands to the pool, and `batch_insert`.  The
    pool, the connection and the cursor are foreign I/O: the cursor's
    `executemany` is an oracle returning a row count or a database error
    for each batch, given the batches sent before it. */
module DatabaseManager {
  import opened Wrappers
  import opened Text
  import opened Environment
  import opened Chunking
  import opened SqlStatements

  /** The password the development branch falls back on. */
  const DevelopmentPassword: string := "SecureAppPassword123!"

  /** The fields of `DatabaseConfig` that configuration derivation touches. */
  datatype ManagerConfig = ManagerConfig(
    host: string,
    port: int,
    database: string,
    user: string,
    password: string,
    poolSize: int,
    sslDisabled: bool,
    sslCa: Option<string>,
    sslCert: Option<string>,
    sslKey: Option<string>,
    environment: string)

  /** The dataclass defaults. */
  function Defaults(): ManagerConfig
  {
    ManagerConfig("localhost", 3306, "app_db", "app_user", "", 10, true, None, None, None, "development")
  }

  /** The environment names the source distinguishes; any other name takes
      the development branch. */
  predicate IsProduction(environment: string) { environment == "production" }
  predicate IsStaging(environment: string) { environment == "staging" }

  /** `int(os.getenv('DB_PORT', 3306))`: the default is already an integer. */
  function PortSetting(env: Env): Option<int>
  {
    if "DB_PORT" in env then ParseInt(env["DB_PORT"]) else Some(3306)
  }

  /** `DatabaseConfig.from_environment(environment)`.  A `DB_PORT` that
      `int()` rejects raises `ValueError`. */
  function FromEnvironment(environment: string, env: Env): (r: Result<ManagerConfig, string>)
    ensures r.Success? <==> PortSetting(env).Some?
    ensures r.Success? ==> r.value.environment == environment && r.value.port == PortSetting(env).value
    ensures r.Success? ==> r.value.host == Getenv(env, "DB_HOST", "localhost")
                           && r.value.database == Getenv(env, "DB_NAME", "app_db")
                           && r.value.user == Getenv(env, "DB_USER", "app_user")
    ensures r.Success? ==>
              r.value.poolSize == (if IsProduction(environment) then 20 else if IsStaging(environment) then 15 else 5)
    ensures r.Success? && IsProduction(environment) ==>
              !r.value.sslDisabled && r.value.sslCa == GetenvOpt(env, "DB_SSL_CA")
              && r.value.sslCert == GetenvOpt(env, "DB_SSL_CERT") && r.value.sslKey == GetenvOpt(env, "DB_SSL_KEY")
    ensures r.Success? && IsStaging(environment) ==>
              (r.value.sslDisabled <==> !Flag(env, "DB_SSL", "false"))
              && r.value.sslCa.None? && r.value.sslCert.None? && r.value.sslKey.None?
    ensures r.Success? && !IsProduction(environment) && !IsStaging(environment) ==>
              r.value.sslDisabled && r.value.sslCa.None? && r.value.sslCert.None? && r.value.sslKey.None?
    ensures r.Success? && (IsProduction(environment) || IsStaging(environment)) ==>
              r.value.password == Getenv(env, "DB_PASSWORD", "")
    ensures r.Success? && !IsProduction(environment) && !IsStaging(environment) ==>
              r.value.password != ""
              && (Getenv(env, "DB_PASSWORD", "") != "" ==> r.value.password == Getenv(env, "DB_PASSWORD", ""))
              && (Getenv(env, "DB_PASSWORD", "") == "" ==> r.value.password == DevelopmentPassword)
  {
    var d := Defaults();
    match PortSetting(env)
    case None => Failure("invalid literal for int() with base 10")
    case Some(port) =>
      var base := d.(
        host := Getenv(env, "DB_HOST", d.host),
        port := port,
        database := Getenv(env, "DB_NAME", d.database),
        user := Getenv(env, "DB_USER", d.user),
        password := Getenv(env, "DB_PASSWORD", d.password),
        environment := environment);
      if IsProduction(environment) then
        Success(base.(poolSize := 20, sslDisabled := false,
                      sslCa := GetenvOpt(env, "DB_SSL_CA"),
                      sslCert := GetenvOpt(env, "DB_SSL_CERT"),
                      sslKey := GetenvOpt(env, "DB_SSL_KEY")))
      else if IsStaging(environment) then
        Success(base.(poolSize := 15, sslDisabled := Lower(Getenv(env, "DB_SSL", "false")) != "true"))
      else
        Success(base.(poolSize := 5, password := if base.password != "" then base.password else DevelopmentPassword))
  }

  /** Python truthiness of an optional string: present and non-empty. */
  predicate Truthy(v: Option<string>)
  {
    v.Some? && v.value != ""
  }

  /** The `ssl` entry `initialize` adds to the pool configuration: only when
      SSL is not disabled, holding `ca`, `cert` and `key` for exactly the
      settings that are truthy, and left out altogether when none is. */
  function SslOptions(cfg: ManagerConfig): (r: Option<map<string, string>>)
    ensures r.Some? <==> !cfg.sslDisabled && (Truthy(cfg.sslCa) || Truthy(cfg.sslCert) || Truthy(cfg.sslKey))
    ensures r.Some? ==> r.value.Keys <= {"ca", "cert", "key"}
    ensures r.Some? ==> ("ca" in r.value <==> Truthy(cfg.sslCa))
                        && ("cert" in r.value <==> Truthy(cfg.sslCert))
                        && ("key" in r.value <==> Truthy(cfg.sslKey))
    ensures r.Some? && "ca" in r.value ==> r.value["ca"] == cfg.sslCa.value
    ensures r.Some? && "cert" in r.value ==> r.value["cert"] == cfg.sslCert.value
    ensures r.Some? && "key" in r.value ==> r.value["key"] == cfg.sslKey.value
  {
    if cfg.sslDisabled then None
    else
      var withCa: map<string, string> := if Truthy(cfg.sslCa) then map["ca" := cfg.sslCa.value] else map[];
      var withCert := if Truthy(cfg.sslCert) then withCa["cert" := cfg.sslCert.value] else withCa;
      var withKey := if Truthy(cfg.sslKey) then withCert["key" := cfg.sslKey.value] else withCert;
      if |withKey| == 0 then
        assert "ca" !in withKey && "cert" !in withKey && "key" !in withKey;
        None
      else Some(withKey)
  }

  /** What configuration derivation means for SSL: development never turns
      it on; staging never does either, because even with `DB_SSL=true` it
      sets no certificate paths and an empty option set is dropped;
      production turns it on exactly when one of `DB_SSL_CA`, `DB_SSL_CERT`,
      `DB_SSL_KEY` is set to a non-empty path. */
  lemma {:induction false} SslByEnvironment(environment: string, env: Env)
    requires FromEnvironment(environment, env).Success?
    ensures !IsProduction(environment) ==> SslOptions(FromEnvironment(environment, env).value).None?
    ensures IsProduction(environment) ==>
              (SslOptions(FromEnvironment(environment, env).value).Some? <==>
                 Truthy(GetenvOpt(env, "DB_SSL_CA")) || Truthy(GetenvOpt(env, "DB_SSL_CERT"))
                 || Truthy(GetenvOpt(env, "DB_SSL_KEY")))
  {
  }

  /** What `batch_insert` reports, with the statement it built and the
      batches it passed to `executemany`, in order. */
  datatype BatchInsertReport<R> = BatchInsertReport(
    table: string,
    totalRows: nat,
    insertedRows: int,
    batchesProcessed: nat,
    statement: string,
    batches: seq<seq<R>>)

  /** `batch_insert(table, columns, rows, batch_size, on_duplicate_update)`. */
  function BatchInsert<R>(table: string, columns: seq<string>, rows: seq<R>, batchSize: int,
                          onDuplicateUpdate: bool, executemany: BatchDatabase<R>)
    : (r: Result<BatchInsertReport<R>, string>)
    ensures |rows| == 0 ==> r == Failure("No data provided for batch insert")
    ensures batchSize == 0 ==> r.Failure?
    ensures r.Success? ==> |rows| > 0 && r.value.table == table && r.value.totalRows == |rows|
    ensures r.Success? ==> r.value.batchesProcessed == |r.value.batches|
    ensures r.Success? ==> r.value.statement == BatchInsertStatement(table, columns, onDuplicateUpdate)
    ensures r.Success? && batchSize > 0 ==>
              Flatten(r.value.batches) == rows && r.value.batchesProcessed == CeilDiv(|rows|, batchSize)
              && forall i :: 0 <= i < |r.value.batches| ==> 0 < |r.value.batches[i]| <= batchSize
    ensures r.Success? && batchSize > 0 ==> r.value.batches == Chunks(rows, batchSize)
    ensures r.Success? ==> AllSucceed(r.value.batches, executemany)
    ensures r.Success? ==> r.value.insertedRows == RowCountsFrom(r.value.batches, executemany, 0)
    ensures |rows| > 0 && batchSize < 0 ==> r.Success? && r.value.batchesProcessed == 0 && r.value.insertedRows == 0
    ensures |rows| > 0 && batchSize > 0 ==>
              (r.Success? <==> AllSucceed(Chunks(rows, batchSize), executemany))
  {
    if |rows| == 0 then Failure("No data provided for batch insert")
    else
      var statement := BatchInsertStatement(table, columns, onDuplicateUpdate);
      match Batches(rows, batchSize)
      case Failure(e) => Failure(e)
      case Success(batches) =>
        var outcome := ExecuteBatches(batches, executemany);
        assert batchSize > 0 ==> batches == Chunks(rows, batchSize);
        if outcome.Failure? then Failure(outcome.error)
        else Success(BatchInsertReport(table, |rows|, outcome.value, |batches|, statement, batches))
  }
}
