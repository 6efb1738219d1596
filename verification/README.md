# MySQL application toolkit: a verified model of its decision logic

The repository wraps a MySQL server in three layers:

- two connection managers (`config/connection/`), each with configuration read from the environment, query helpers and transaction helpers;
- an ETL script (`scripts/etl/`) that extracts customer and order data, cleans it, and upserts it in batches;
- a health checker (`monitoring/`) that grades the server and chooses an exit code.

Around the I/O, these files contain small deterministic rules. This project models those rules in Dafny and proves what they promise:

- **Configuration derivation.** Pool size by environment, the `*.lower() == 'true'` flag idiom, `int()` on port and size settings, the development password fallback, and the SSL option set handed to the pool.
- **Query metrics.** The per-call counters, the 100-entry history of truncated statements, and the rates that are guarded against an empty count.
- **SQL text builders.** `INSERT ... VALUES (%s, ...)` with an optional `ON DUPLICATE KEY UPDATE col = VALUES(col), ...` clause. The proofs show the placeholder counts and that the column lists can be recovered.
- **Batching.** The `for i in range(0, len(rows), size): rows[i:i + size]` idiom, together with Python's `range` rules for a zero or negative step. `executemany` is an oracle that answers each batch given the batches sent before it, so a batch can fail on a key an earlier batch inserted.
- **Transactions.** `execute_transaction` substitutes the most recent truthy `lastrowid` for `None` parameters. The database is an oracle that answers each statement given everything sent before it. `create_user_with_profile` is built on this.
- **Query dispatch.** `execute_query` chooses its fetch mode, sanitises what it logs, and decides between commit and rollback.
- **ETL logic.** The customer segment rule, the customer cleaning (name, dropping rows without e-mail, lower-cased e-mail), and the upsert column filter.
- **Health checks.** Each threshold rule, the overall-status fold, `run_all_checks`, the exit code, and the quiet filter.

Modules, leaves first:

- `Wrappers`: `Option` and `Result`.
- `Text`: join, split, placeholder counting and lower-casing.
- `Environment`: the environment as a `map<string, string>`, `int()` and flags.
- `Chunking`: batches and `executemany` over them.
- `SqlStatements`.
- `QueryMetrics`.
- `DatabaseManager`: `python_database_manager.py`.
- `MysqlConfig`: `python_mysql_config.py`.
- `EtlPipeline`.
- `HealthCheck`.

Python's `str.lower` is modelled as ASCII lower-casing. Its `int()` is modelled as an optional sign followed by ASCII digits. Clock readings, the result of each query, `lastrowid` and `rowcount`, and directory listings are parameters.

Three behaviours of the code are modelled as written:

- `check_connection_pool` (monitoring/health_check.py:54) calls `getPoolStatus()`. The `DatabaseManager` that `create_database_manager` returns has no such method, so at run time the call raises. The check is then marked failed, and the overall status of every connected run becomes critical. `HealthCheck.RunAllChecks` states exactly that. `HealthCheck.PoolCheck` still models the thresholds the check would apply to a report.
- `check_query_performance` (monitoring/health_check.py:86) reads the metrics of the manager that `connect` created just before. No query has gone through `execute_query` by then: the connection test uses a raw cursor and the pool check raises first. So both rates are 0 and the check is always healthy. `HealthCheck.RunAllChecks` states that too.
- In `check_query_performance` the slow-query thresholds are applied after the error-rate thresholds and overwrite them. For example, a 6% error rate with 20% slow queries is graded a warning.

## Model

| member | source | states |
|---|---|---|
| `Text.ReplacePlaceholders` | config/connection/python_mysql_config.py:217 | No placeholder is left after `?` substitution, and the text is one character shorter per placeholder. |
| `Text.ReplaceIsSplitJoin` | config/connection/python_mysql_config.py:217 | `s.replace('%s', '?')` equals `'?'.join(s.split('%s'))`. Each `%s` becomes `?`, and the text between placeholders is kept, in order. |
| `Text.PlaceholderCount` | config/connection/python_database_manager.py:403 | `', '.join(['%s'] * n)` holds exactly `n` placeholders and ends on none half-written. |
| `Text.Lower` | scripts/etl/mysql_etl_pipeline.py:216 | Lower-casing keeps the length. Each capital letter becomes the letter 32 code points above it, and every other character is kept. |
| `Text.LowerIdempotent` | scripts/etl/mysql_etl_pipeline.py:216 | Lower-casing twice gives the same text as lower-casing once. |
| `Environment.FlagMeaning` | config/connection/python_mysql_config.py:64-69 | A flag is set exactly when its lower-cased value is `true`. An unset flag takes its default. `TRUE` sets a flag and `yes` does not. |
| `Environment.ParseShow` | config/connection/python_mysql_config.py:58 | `int(str(n)) == n` for every integer, negatives included. |
| `Chunking.ChunksPartition` | config/connection/python_database_manager.py:414-415 | Concatenated, the batches give back the rows in order. There are ceil(n / size) batches, none empty or longer than `size`, and all but the last exactly `size` long. |
| `Chunking.RangeSlices` | config/connection/python_database_manager.py:414-415 | The slicing loop yields exactly the partition above, and its count is ceil(n / size). |
| `Chunking.Batches` | config/connection/python_database_manager.py:414 | A zero step fails as `range()` does. A negative step yields no batch. A positive step yields the ordered partition with ceil(n / step) batches. |
| `Chunking.ExecuteBatches` | config/connection/python_database_manager.py:414-418 | Each batch is answered given the batches sent before it. Batch execution succeeds exactly when every batch succeeds, and then returns the sum of their row counts. On a failure, the error is that of the first failing batch, and all earlier batches succeeded. |
| `Chunking.AllRowsCounted` | config/connection/python_database_manager.py:418 | When every batch reports all of its rows, the total is the number of rows in all the batches. |
| `SqlStatements.Assignments` | config/connection/python_database_manager.py:407 | There is one `col = VALUES(col)` per column, in column order. |
| `SqlStatements.ColumnsRecoverable` | config/connection/python_database_manager.py:404 | Splitting the column list at `, ` gives the columns back, in order. |
| `SqlStatements.UpdateClauseRecoverable` | config/connection/python_database_manager.py:407-408 | Splitting the update clause at `, ` gives one assignment per column, in order. |
| `SqlStatements.BatchInsertPlaceholders` | config/connection/python_database_manager.py:403-408 | With or without the update clause, the `batch_insert` statement holds exactly one placeholder per column. |
| `SqlStatements.UpsertPlaceholders` | scripts/etl/mysql_etl_pipeline.py:338-347 | The upsert statement holds exactly one placeholder per column. |
| `QueryMetrics.Prefix` | config/connection/python_database_manager.py:132 | `s[:n]` is the leading part of `s`: all of `s` when it is short enough, exactly `n` characters otherwise. |
| `QueryMetrics.RecordQuery` | config/connection/python_database_manager.py:117-139 | The call count goes up by one and the total time by the call's time. Errors go up exactly when the call failed. Slow queries go up exactly when the time exceeds 1.0. The new entry goes last, and the oldest entry is dropped at 100. The counter invariant is kept. |
| `QueryMetrics.ReplayCounters` | config/connection/python_database_manager.py:117-127 | After any calls, the counters equal the number of calls, of failed calls and of slow calls. The total time is the sum of the times, and the invariant `errors, slow <= total` holds. |
| `QueryMetrics.ReplayHistory` | config/connection/python_database_manager.py:131-139 | After any calls, the history is the entries of the last 100 calls, oldest first. |
| `QueryMetrics.AverageExecutionTime` | config/connection/python_database_manager.py:141-144 | The average is 0 with no queries. Otherwise, average times count equals the total time. |
| `QueryMetrics.ErrorRate` | config/connection/python_database_manager.py:146-149 | The error rate is 0 with no queries. Otherwise, rate times count equals 100 times errors. It lies in [0, 100] for reachable metrics. |
| `QueryMetrics.SlowQueryRate` | config/connection/python_database_manager.py:151-154 | The slow-query rate is 0 with no queries. Otherwise, rate times count equals 100 times slow queries. It lies in [0, 100] for reachable metrics. |
| `DatabaseManager.FromEnvironment` | config/connection/python_database_manager.py:65-90 | Fails exactly when `DB_PORT` is set but is not an integer. Host, database and user come from `DB_HOST`, `DB_NAME` and `DB_USER`, with their defaults. Pool size is 20, 15 or 5 by environment. Production reads the certificate paths. Staging enables SSL only on `DB_SSL=true`. Only the other environments substitute the development password for an empty one. |
| `DatabaseManager.SslOptions` | config/connection/python_database_manager.py:210-220 | The `ssl` entry exists exactly when SSL is enabled and some path is non-empty. It has `ca`, `cert` and `key` for exactly the non-empty paths, with their values. |
| `DatabaseManager.SslByEnvironment` | config/connection/python_database_manager.py:78-89 | Development and staging never pass SSL options, because staging sets no paths. Production passes them exactly when one of the three path variables is non-empty. |
| `DatabaseManager.BatchInsert` | config/connection/python_database_manager.py:379-440 | Empty rows raise. A zero batch size fails, and a negative one inserts nothing. The report's total is the row count. The batches are the slices `rows[i:i + batch_size]` in order: all but the last hold exactly `batch_size` rows, and there are ceil(n / size) of them. The call succeeds exactly when every batch succeeds, and the inserted count is the sum of the batches' row counts. |
| `MysqlConfig.FromEnvironment` | config/connection/python_mysql_config.py:54-71 | Succeeds exactly when port, pool size and timeout parse as integers, and carries those integers. Host, database, user and password come from their prefixed variables with the source's defaults. Each boolean setting is its flag with the source's default. |
| `MysqlConfig.DefaultsWhenUnset` | config/connection/python_mysql_config.py:54-71 | With no prefixed variable set, the result is port 3306, pool 10 and timeout 30, with session reset and SSL on and autocommit and certificate verification off. |
| `MysqlConfig.SanitizedQuery` | config/connection/python_mysql_config.py:217 | Without parameters, the statement is logged unchanged. With parameters, it is logged as `'?'.join(query.split('%s'))`, so no placeholder is left. |
| `MysqlConfig.ExecuteQuery` | config/connection/python_mysql_config.py:212-249 | A database error rolls back and is re-raised. Otherwise, `all` returns every row, `one` the first row or none, and `none` commits and returns the row count. Any other mode raises `ValueError` after the statement ran, with neither commit nor rollback. |
| `MysqlConfig.Thread` | config/connection/python_mysql_config.py:287-292 | Without an earlier id, the parameters are unchanged. With one, every `None` becomes that id, while the other parameters, their count and their order are kept. |
| `MysqlConfig.LastId` | config/connection/python_mysql_config.py:296-298 | The remembered id is absent or truthy, never 0. |
| `MysqlConfig.RunOpsSends` | config/connection/python_mysql_config.py:283-298 | Statements go out in operation order, after the ones already sent, each with its parameters threaded with the most recent truthy id produced before it. |
| `MysqlConfig.RunOpsExtends` | config/connection/python_mysql_config.py:282-293 | A run only appends to the statements already sent, at most one per operation. |
| `MysqlConfig.RunOpsPrefixDone` | config/connection/python_mysql_config.py:293-305 | Every statement of a run except the last was answered without error. |
| `MysqlConfig.RunOpsFails` | config/connection/python_mysql_config.py:293-309 | A run that did not commit sent at least one statement, and the database refused the last one sent. |
| `MysqlConfig.RunOpsCommits` | config/connection/python_mysql_config.py:282-302 | A run that committed sent every operation, and each was answered without error. |
| `MysqlConfig.RunOpsLastId` | config/connection/python_mysql_config.py:280-297 | A committed run reports the most recent truthy `lastrowid` over all the statements it sent. |
| `MysqlConfig.RunOpsMeaning` | config/connection/python_mysql_config.py:283-310 | The run stops at the first database error, which it ends with. It commits exactly when every operation was answered without error, and the final id is the most recent truthy one. |
| `MysqlConfig.TransactionStatements` | config/connection/python_mysql_config.py:281-298 | Statement `k` is operation `k` with its `None` parameters replaced by the most recent truthy id produced before it. Parameters pass through unchanged until some id is produced. |
| `MysqlConfig.TransactionCommits` | config/connection/python_mysql_config.py:296-310 | The call returns `True` exactly when every operation ran without a database error. Otherwise, the last statement sent is the one that failed. |
| `MysqlConfig.BulkInsert` | config/connection/python_mysql_config.py:349-384 | Empty data returns 0 with no statement. Otherwise one `executemany` runs over all rows: it commits and returns its count, or rolls back and re-raises. |
| `MysqlConfig.BulkInsertPlaceholders` | config/connection/python_mysql_config.py:364-366 | The bulk statement holds one placeholder per column. |
| `MysqlConfig.UserWithProfileArity` | config/connection/python_mysql_config.py:482-496 | Both statements of `create_user_with_profile` have as many placeholders as parameters. |
| `MysqlConfig.ProfileReceivesUserId` | config/connection/python_mysql_config.py:488-495 | The profile insert receives the id the user insert produced, followed by first name, last name and `first + ' ' + last`. If no truthy id was produced, `user_id` is sent as `None`. |
| `MysqlConfig.CreateUserWithProfile` | config/connection/python_mysql_config.py:479-503 | A transaction that does not commit yields no user id. |
| `EtlPipeline.Label` | scripts/etl/mysql_etl_pipeline.py:257-269 | The segment is always one of `new`, `churned`, `at_risk`, `vip` and `regular`. |
| `EtlPipeline.LabelInjective` | scripts/etl/mysql_etl_pipeline.py:257-269 | Different segments get different labels. |
| `EtlPipeline.SegmentConditions` | scripts/etl/mysql_etl_pipeline.py:257-269 | Each segment is fixed by its own condition. No orders means new. Otherwise, over 365 days is churned and 181-365 days is at risk, whatever the spend. Within 180 days, spend over 5000 or more than 20 orders is VIP, 2-20 orders is regular, and one order is new. |
| `EtlPipeline.RecencyMonotone` | scripts/etl/mysql_etl_pipeline.py:260-263 | More days since the last order never turns a churned or at-risk customer into a more active segment. |
| `EtlPipeline.SpendMonotone` | scripts/etl/mysql_etl_pipeline.py:264-265 | Spending more never demotes a VIP. |
| `EtlPipeline.FullName` | scripts/etl/mysql_etl_pipeline.py:202 | `customer_name` is first name, a space, then last name. It is missing when either part is missing. |
| `EtlPipeline.DropMissingEmail` | scripts/etl/mysql_etl_pipeline.py:215 | Exactly the rows with an e-mail survive. |
| `EtlPipeline.DropKeepsOrder` | scripts/etl/mysql_etl_pipeline.py:215 | Dropping distributes over concatenation, so the survivors keep their order. |
| `EtlPipeline.DropCount` | scripts/etl/mysql_etl_pipeline.py:215 | The number of survivors is the number of rows with an e-mail. |
| `EtlPipeline.TransformCustomers` | scripts/etl/mysql_etl_pipeline.py:200-219 | There is one output per row with an e-mail. Every e-mail is free of upper-case letters, and every row carries the batch's timestamp and id. |
| `EtlPipeline.TransformMeaning` | scripts/etl/mysql_etl_pipeline.py:202-216 | Output row `i` is surviving row `i`. Its e-mail is lower-cased at the same length, and its name is built from its own first and last names. |
| `EtlPipeline.CleanEmailStable` | scripts/etl/mysql_etl_pipeline.py:216 | Cleaned e-mail addresses are already lower-case. |
| `EtlPipeline.FilterColumns` | scripts/etl/mysql_etl_pipeline.py:334 | A column is kept exactly when it is both a frame column and a table column. |
| `EtlPipeline.FilterKeepsOrder` | scripts/etl/mysql_etl_pipeline.py:334 | The filter distributes over concatenation, so the frame order is kept. |
| `EtlPipeline.ProjectRow` | scripts/etl/mysql_etl_pipeline.py:335 | A projected row has one value per kept column. |
| `EtlPipeline.ProjectRowPairs` | scripts/etl/mysql_etl_pipeline.py:335 | Each projected value is the original row's value under the same column name. |
| `EtlPipeline.UpsertData` | scripts/etl/mysql_etl_pipeline.py:323-356 | The statement is built over the kept columns. A zero batch size fails, and a negative one sends nothing. For a positive size (default 1000), the call succeeds exactly when every batch of the projected rows succeeds. The batches are the slices of that size of the projected rows, in order: all but the last are full, and together they cover the projected rows. |
| `EtlPipeline.UpsertMatchesColumns` | scripts/etl/mysql_etl_pipeline.py:334-347 | Placeholders, column list and update clause match the kept columns one to one, in order. |
| `HealthCheck.Rank` | monitoring/health_check.py:295-298 | Critical and failed weigh 2 and warning weighs 1. Everything else weighs 0. |
| `HealthCheck.Utilisation` | monitoring/health_check.py:59 | Utilisation is 0 without a positive limit. Otherwise, utilisation times limit equals 100 times the connections. |
| `HealthCheck.PoolStatusInIntegers` | monitoring/health_check.py:59-65 | Critical exactly when `100 * total > 95 * limit`. Warning exactly when `80 * limit < 100 * total <= 95 * limit`. Healthy without a positive limit. |
| `HealthCheck.PoolCheck` | monitoring/health_check.py:51-81 | A report that raises marks the check failed. Absent figures default to 0 connections and a limit of 10. |
| `HealthCheck.QueryPerformanceOverwrite` | monitoring/health_check.py:89-98 | Slow queries over 25% are critical. Slow queries over 10% are a warning whatever the error rate. Only at or below 10% does the error rate (over 1%, over 5%) decide. |
| `HealthCheck.QueryPerformanceCheck` | monitoring/health_check.py:83-112 | Unreadable statistics mark the check failed. Readable ones grade it healthy, warning or critical. |
| `HealthCheck.QueryPerformanceOnCounts` | monitoring/health_check.py:89-98 | On the recorded counts, the grade is a whole-number comparison of errors and slow queries against the query count. With no queries it is healthy. |
| `HealthCheck.DatabaseSizeCheck` | monitoring/health_check.py:114-148 | A query that raises marks the check failed. Otherwise, a total over 50000 MB is critical, over 10000 MB up to 50000 MB is a warning, and anything else is healthy. |
| `HealthCheck.SizeMonotone` | monitoring/health_check.py:129-136 | Adding schemas never lowers the size grade. |
| `HealthCheck.ReplicationCheck` | monitoring/health_check.py:150-189 | A query that raises is unknown. No replica rows is not applicable. Otherwise the grade is healthy, warning or critical. |
| `HealthCheck.ReplicationMeaning` | monitoring/health_check.py:157-169 | Only the first row counts. A missing lag is critical, over 300 s is critical, and over 60 s is a warning. |
| `HealthCheck.AuditLogCheck` | monitoring/health_check.py:191-228 | A query that raises marks the check failed. Otherwise the check is healthy or a warning, never critical. |
| `HealthCheck.AuditLogMeaning` | monitoring/health_check.py:205-213 | The check warns exactly when the last hour shows no entries, and a missing row or column counts as none. |
| `HealthCheck.BackupFiles` | monitoring/health_check.py:239-247 | Exactly the entries ending in `.sql` or `.sql.gz` are backups. |
| `HealthCheck.BackupFilesKeepOrder` | monitoring/health_check.py:239-247 | The filter distributes over concatenation, so the backups keep their listing order. |
| `HealthCheck.LatestUnique` | monitoring/health_check.py:250-252 | At most one file is the first of the newest. |
| `HealthCheck.Latest` | monitoring/health_check.py:250-252 | The picked file is the newest, and the first of the newest in listing order, as the stable reverse sort puts it first. |
| `HealthCheck.LatestBackup` | monitoring/health_check.py:250-252 | The one-pass search picks the same file. |
| `HealthCheck.BackupAgeStatus` | monitoring/health_check.py:255-261 | Older than 48 h is critical, 25-48 h is a warning, and otherwise healthy. |
| `HealthCheck.BackupReportOf` | monitoring/health_check.py:230-285 | A missing directory is a warning, no backup files is critical, and a scan error marks the check failed. Otherwise the latest backup's age decides, and the total counts the backups. |
| `HealthCheck.BackupCheck` | monitoring/health_check.py:230-285 | The check computed with the one-pass search gives exactly that report. |
| `HealthCheck.OverallMeaning` | monitoring/health_check.py:287-305 | Critical exactly when some check is critical or failed. Otherwise a warning exactly when some check warns. Otherwise healthy. The overall rank is the largest rank among the checks. |
| `HealthCheck.ScanMeaning` | monitoring/health_check.py:292-298 | The two flags record exactly whether some check is critical or failed, and whether some check warns. |
| `HealthCheck.OverallIgnoresOrder` | monitoring/health_check.py:292-305 | Checks with the same multiset of statuses give the same overall status. |
| `HealthCheck.OverallMonotone` | monitoring/health_check.py:292-305 | Adding checks never lowers the overall severity. |
| `HealthCheck.DetermineOverallStatus` | monitoring/health_check.py:287-305 | The flag loop yields critical, warning or healthy under exactly the conditions above. |
| `HealthCheck.RunAllChecks` | monitoring/health_check.py:307-330 | A failed connection yields only a failed `connection` check and a critical verdict. Otherwise the six checks run in order on what they observe, and the verdict is determined from them. The pool check always fails and the query-performance check is always healthy, so every connected run is critical. |
| `HealthCheck.ExitCode` | monitoring/health_check.py:382-388 | The exit code is 2 for critical, 1 for warning, and 0 otherwise. |
| `HealthCheck.ExitCodeIsWorstCheck` | monitoring/health_check.py:382-388 | The exit code is the largest rank among the checks. |
| `HealthCheck.QuietFilter` | monitoring/health_check.py:361-366 | In text output, every check is printed without `--quiet`. With it, exactly the healthy ones are hidden. |
| `HealthCheck.QuietKeepsOrder` | monitoring/health_check.py:361-366 | The filter distributes over concatenation, so the printed checks keep their order. |

## Left out

- Connections, pools, cursors, commits, logging, `threading.Lock`, `time.time()` and `datetime.now()` are foreign I/O. Each query's answer, `lastrowid`, `rowcount`, clock readings and directory listings are parameters. `record_query` is modelled sequentially.
- Floating point is left out. Execution times, rates, sizes and ages are Dafny reals, and `round(...)` in reports is not modelled.
- `DatabaseConfig.from_yaml`, `call_procedure`, `get_connection_stats`, the `health_check` methods of both managers, the business query helpers (`get_customer_order_summary` and the like), `log_user_activity`, and `DatabaseManager.execute_query`/`execute_transaction` are not part of this model. They are thin wrappers around the same I/O.
- The ETL script's extraction, `load_data`'s `replace`/`append` branches (`TRUNCATE` and `to_sql`), `DESCRIBE`, the `groupby`/`agg` of `transform_order_summary`, `days_since_last_order`, and the age computation are left out. They are pandas and clock internals. Only the segment rule is modelled, on its inputs.
- The record-level staging and batch lifecycle (pending/processing/completed records, batch coordinator, retention sweep) appears in none of the modelled files and is not modelled.
- Configuration and pool settings other than those listed in the Model table are copied strings and carry no logic.
- `Environment.ParseInt`: Python's `int()` also accepts surrounding whitespace, underscores between digits and non-ASCII digits. The model rejects these.
- `Text.Lower`: Python lower-cases all of Unicode. The model lower-cases ASCII letters only.
- `MysqlConfig.ExecuteQuery`: `params=None` and `params=()` are both modelled as an empty parameter list. A database error raised while fetching or committing, rather than executing, is not separated from an error in `execute`.
- `MysqlConfig.TransactionCommits`: an error raised by `start_transaction` or by the final `commit` is not modelled. Only statement errors roll back in the model.
- `MysqlConfig.CreateUserWithProfile`: the `get_user_by_email` lookup after the commit is an oracle parameter. Its contract says nothing about which id a committed run returns.
- `HealthCheck.RunAllChecks`: the per-check `health_status` details (sizes, counts, messages), the timestamp, and the intermediate `overall = 'warning'` that a failed pool check writes before `determine_overall_status` overwrites it are not modelled.
- Command-line parsing and all text or JSON output in `main` are left out, apart from the quiet filter of the text output and the exit code. With `-o json` every check is printed whatever `--quiet` says (monitoring/health_check.py:351-352), and the model does not cover that path.
