/** The decision logic of monitoring/health_check.py: the threshold rule of
    each `check_*` method, `determine_overall_status`, `run_all_checks`, and
    the exit-code and quiet-mode rules of `main`.  What each check reads
    from the server, the pool or the file system is a parameter; clock
    readings are seconds as reals. */
module HealthCheck {
  import opened Wrappers
  import opened Text
  import opened QueryMetrics

  datatype Status = Healthy | Warning | Critical | Failed | NotApplicable | Unknown

  /** The `status` text of a check. */
  function Label(s: Status): string
  {
    match s
    case Healthy => "healthy"
    case Warning => "warning"
    case Critical => "critical"
    case Failed => "failed"
    case NotApplicable => "not_applicable"
    case Unknown => "unknown"
  }

  /** How much a status weighs in the overall verdict: a failed check is
      as bad as a critical one; not applicable and unknown weigh nothing. */
  function Rank(s: Status): (r: nat)
    ensures r <= 2
    ensures r == 2 <==> s == Critical || s == Failed
    ensures r == 1 <==> s == Warning
  {
    match s
    case Critical => 2
    case Failed => 2
    case Warning => 1
    case _ => 0
  }

  /** One entry of `health_status['checks']`. */
  datatype Check = Check(name: string, status: Status)

  // ---------------------------------------------------------------------
  // Real arithmetic helpers

  /** A real ratio against a threshold, as a cross-multiplication. */
  lemma {:induction false} RatioAbove(ratio: real, whole: real, part: real, threshold: real)
    requires whole > 0.0 && ratio * whole == part
    ensures ratio > threshold <==> part > threshold * whole
  {
    if ratio > threshold {
      assert (ratio - threshold) * whole > 0.0;
    } else {
      assert (threshold - ratio) * whole >= 0.0;
    }
  }

  // ---------------------------------------------------------------------
  // check_connection_pool

  /** `utilization = total / limit * 100 if limit > 0 else 0`. */
  function Utilisation(totalConnections: int, connectionLimit: int): (r: real)
    ensures connectionLimit <= 0 ==> r == 0.0
    ensures connectionLimit > 0 ==> r * (connectionLimit as real) == 100.0 * (totalConnections as real)
  {
    if connectionLimit > 0 then (totalConnections as real) / (connectionLimit as real) * 100.0 else 0.0
  }

  /** The pool rule: over 80% in use is a warning, over 95% is critical. */
  function PoolStatus(totalConnections: int, connectionLimit: int): Status
  {
    var u := Utilisation(totalConnections, connectionLimit);
    if u > 95.0 then Critical else if u > 80.0 then Warning else Healthy
  }

  /** The pool rule in whole numbers: no limit (0 or less) is healthy;
      otherwise critical exactly when `100 * total > 95 * limit` and a
      warning exactly when `80 * limit < 100 * total <= 95 * limit`. */
  lemma {:induction false} PoolStatusInIntegers(totalConnections: int, connectionLimit: int)
    ensures connectionLimit <= 0 ==> PoolStatus(totalConnections, connectionLimit) == Healthy
    ensures connectionLimit > 0 ==>
              (PoolStatus(totalConnections, connectionLimit) == Critical <==> 100 * totalConnections > 95 * connectionLimit)
    ensures connectionLimit > 0 ==>
              (PoolStatus(totalConnections, connectionLimit) == Warning <==>
                 80 * connectionLimit < 100 * totalConnections <= 95 * connectionLimit)
    ensures PoolStatus(totalConnections, connectionLimit) in {Healthy, Warning, Critical}
  {
    if connectionLimit > 0 {
      var u := Utilisation(totalConnections, connectionLimit);
      var l := connectionLimit as real;
      var t := 100.0 * (totalConnections as real);
      RatioAbove(u, l, t, 95.0);
      RatioAbove(u, l, t, 80.0);
    }
  }

  /** What `getPoolStatus()` reports: `totalConnections` and
      `config.connectionLimit`, each possibly absent. */
  datatype PoolReport = PoolReport(totalConnections: Option<int>, connectionLimit: Option<int>)

  /** `check_connection_pool`: absent figures default to 0 connections and
      a limit of 10; a call that raises marks the check failed. */
  function PoolCheck(report: Result<PoolReport, string>): (r: Status)
    ensures report.Failure? ==> r == Failed
    ensures report.Success? ==>
              r == PoolStatus(report.value.totalConnections.GetOr(0), report.value.connectionLimit.GetOr(10))
  {
    match report
    case Failure(_) => Failed
    case Success(p) => PoolStatus(p.totalConnections.GetOr(0), p.connectionLimit.GetOr(10))
  }

  // ---------------------------------------------------------------------
  // check_query_performance

  /** `check_query_performance` as written: the error-rate thresholds (1%,
      5%) are applied first and the slow-query thresholds (10%, 25%) are
      applied after them, overwriting whatever the error rate decided. */
  function QueryPerformanceStatus(errorRate: real, slowQueryRate: real): Status
  {
    var byErrors := if errorRate > 5.0 then Critical else if errorRate > 1.0 then Warning else Healthy;
    var afterSlowWarning := if slowQueryRate > 10.0 then Warning else byErrors;
    if slowQueryRate > 25.0 then Critical else afterSlowWarning
  }

  /** The overwrite in plain terms: a slow-query rate over 25% is critical,
      one over 10% is a warning whatever the error rate is, and only at or
      below 10% does the error rate decide.  So a 6% error rate with 20%
      slow queries ends as a warning, not critical. */
  lemma {:induction false} QueryPerformanceOverwrite(errorRate: real, slowQueryRate: real)
    ensures slowQueryRate > 25.0 ==> QueryPerformanceStatus(errorRate, slowQueryRate) == Critical
    ensures 10.0 < slowQueryRate <= 25.0 ==> QueryPerformanceStatus(errorRate, slowQueryRate) == Warning
    ensures slowQueryRate <= 10.0 ==>
              QueryPerformanceStatus(errorRate, slowQueryRate)
              == (if errorRate > 5.0 then Critical else if errorRate > 1.0 then Warning else Healthy)
    ensures QueryPerformanceStatus(6.0, 20.0) == Warning
  {
  }

  /** `check_query_performance` on the statistics of `QueryMetrics`;
      statistics that cannot be read mark the check failed. */
  function QueryPerformanceCheck(stats: Result<Metrics, string>): (r: Status)
    ensures stats.Failure? ==> r == Failed
    ensures stats.Success? ==> r in {Healthy, Warning, Critical}
  {
    match stats
    case Failure(_) => Failed
    case Success(m) => QueryPerformanceStatus(ErrorRate(m), SlowQueryRate(m))
  }

  /** The query-performance verdict on recorded counts, in whole numbers:
      with `n` queries of which `e` failed and `s` were slow, critical means
      `100 s > 25 n`, or `100 s <= 10 n` and `100 e > 5 n`; a warning means
      `10 n < 100 s <= 25 n`, or `100 s <= 10 n` and `n < 100 e <= 5 n`.
      With no queries recorded the check is healthy. */
  lemma {:induction false} QueryPerformanceOnCounts(m: Metrics)
    ensures m.totalQueries == 0 ==> QueryPerformanceCheck(Success(m)) == Healthy
    ensures var n, e, s := m.totalQueries, m.errors, m.slowQueries;
      n > 0 ==>
        && (QueryPerformanceCheck(Success(m)) == Critical <==>
              100 * s > 25 * n || (100 * s <= 10 * n && 100 * e > 5 * n))
        && (QueryPerformanceCheck(Success(m)) == Warning <==>
              (10 * n < 100 * s <= 25 * n) || (100 * s <= 10 * n && n < 100 * e <= 5 * n))
  {
    var n := m.totalQueries;
    if n > 0 {
      var total := n as real;
      RatioAbove(ErrorRate(m), total, 100.0 * (m.errors as real), 5.0);
      RatioAbove(ErrorRate(m), total, 100.0 * (m.errors as real), 1.0);
      RatioAbove(SlowQueryRate(m), total, 100.0 * (m.slowQueries as real), 25.0);
      RatioAbove(SlowQueryRate(m), total, 100.0 * (m.slowQueries as real), 10.0);
      var e, s := m.errors, m.slowQueries;
      assert 100.0 * (e as real) > 5.0 * total <==> 100 * e > 5 * n;
      assert 100.0 * (e as real) > 1.0 * total <==> 100 * e > n;
      assert 100.0 * (s as real) > 25.0 * total <==> 100 * s > 25 * n;
      assert 100.0 * (s as real) > 10.0 * total <==> 100 * s > 10 * n;
    }
  }

  // ---------------------------------------------------------------------
  // check_database_size

  function Sum(sizes: seq<real>): real
    decreases |sizes|
  {
    if |sizes| == 0 then 0.0 else Sum(sizes[..|sizes| - 1]) + sizes[|sizes| - 1]
  }

  lemma {:induction false} SumConcat(a: seq<real>, b: seq<real>)
    ensures Sum(a + b) == Sum(a) + Sum(b)
    decreases |b|
  {
    if |b| == 0 {
      assert a + b == a;
    } else {
      assert (a + b)[..|a + b| - 1] == a + b[..|b| - 1];
      SumConcat(a, b[..|b| - 1]);
    }
  }

  lemma {:induction false} SumNonNegative(sizes: seq<real>)
    requires forall i :: 0 <= i < |sizes| ==> sizes[i] >= 0.0
    ensures Sum(sizes) >= 0.0
    decreases |sizes|
  {
    if |sizes| > 0 {
      SumNonNegative(sizes[..|sizes| - 1]);
    }
  }

  /** The size rule on the total over all schemas, in megabytes: over
      10000 is a warning, over 50000 critical. */
  function SizeStatus(totalMb: real): Status
  {
    if totalMb > 50000.0 then Critical else if totalMb > 10000.0 then Warning else Healthy
  }

  /** `check_database_size` given the per-schema sizes the query returned;
      a query that raises marks the check failed. */
  function DatabaseSizeCheck(sizes: Result<seq<real>, string>): (r: Status)
    ensures sizes.Failure? ==> r == Failed
    ensures sizes.Success? ==> r in {Healthy, Warning, Critical}
    ensures sizes.Success? ==> (r == Critical <==> Sum(sizes.value) > 50000.0)
    ensures sizes.Success? ==> (r == Warning <==> 10000.0 < Sum(sizes.value) <= 50000.0)
    ensures sizes.Success? ==> (r == Healthy <==> Sum(sizes.value) <= 10000.0)
  {
    match sizes
    case Failure(_) => Failed
    case Success(s) => SizeStatus(Sum(s))
  }

  /** More data never improves the verdict: adding schemas of non-negative
      size never lowers the size status. */
  lemma {:induction false} SizeMonotone(sizes: seq<real>, more: seq<real>)
    requires forall i :: 0 <= i < |more| ==> more[i] >= 0.0
    ensures Rank(DatabaseSizeCheck(Success(sizes))) <= Rank(DatabaseSizeCheck(Success(sizes + more)))
  {
    SumConcat(sizes, more);
    SumNonNegative(more);
  }

  // ---------------------------------------------------------------------
  // check_replication_lag

  /** A row of `SHOW SLAVE STATUS`: `Seconds_Behind_Master` is `NULL` when
      replication is broken. */
  datatype ReplicaRow = ReplicaRow(secondsBehindMaster: Option<int>)

  /** `check_replication_lag` given the answer to `SHOW SLAVE STATUS`: a
      query that raises (no privilege, say) leaves the status unknown;
      no rows means the server is not a replica; otherwise the first row's
      lag decides: missing is critical, over 300 seconds critical, over 60
      seconds a warning. */
  function ReplicationCheck(answer: Result<seq<ReplicaRow>, string>): (r: Status)
    ensures answer.Failure? ==> r == Unknown
    ensures answer.Success? && |answer.value| == 0 ==> r == NotApplicable
    ensures answer.Success? && |answer.value| > 0 ==> r in {Healthy, Warning, Critical}
  {
    match answer
    case Failure(_) => Unknown
    case Success(rows) =>
      if |rows| == 0 then NotApplicable
      else
        match rows[0].secondsBehindMaster
        case None => Critical
        case Some(lag) => if lag > 300 then Critical else if lag > 60 then Warning else Healthy
  }

  /** Only the first replica row counts, the lag thresholds split the line
      at 60 and 300 seconds, and broken replication is critical. */
  lemma {:induction false} ReplicationMeaning(first: ReplicaRow, rest: seq<ReplicaRow>, lag: int)
    ensures ReplicationCheck(Success([first] + rest)) == ReplicationCheck(Success([first]))
    ensures ReplicationCheck(Success([ReplicaRow(None)] + rest)) == Critical
    ensures ReplicationCheck(Success([ReplicaRow(Some(lag))])) == Critical <==> lag > 300
    ensures ReplicationCheck(Success([ReplicaRow(Some(lag))])) == Warning <==> 60 < lag <= 300
    ensures ReplicationCheck(Success([ReplicaRow(Some(lag))])) == Healthy <==> lag <= 60
  {
    assert ([first] + rest)[0] == first;
  }

  // ---------------------------------------------------------------------
  // check_audit_log_health

  /** The audit-log summary row; `lastHour` is absent when the row lacks
      the column. */
  datatype AuditRow = AuditRow(lastHour: Option<int>)

  /** `check_audit_log_health`: no summary row or no entries in the last
      hour is a warning; a query that raises marks the check failed. */
  function AuditLogCheck(answer: Result<seq<AuditRow>, string>): (r: Status)
    ensures answer.Failure? ==> r == Failed
    ensures answer.Success? ==> r in {Healthy, Warning}
  {
    match answer
    case Failure(_) => Failed
    case Success(rows) =>
      var lastHour := if |rows| > 0 then rows[0].lastHour.GetOr(0) else 0;
      if lastHour == 0 then Warning else Healthy
  }

  /** The audit check warns exactly when nothing was logged in the last
      hour, and a missing summary row or column counts as nothing logged. */
  lemma {:induction false} AuditLogMeaning(rows: seq<AuditRow>)
    ensures AuditLogCheck(Success(rows)) == Warning <==> |rows| == 0 || rows[0].lastHour.GetOr(0) == 0
    ensures AuditLogCheck(Success([])) == Warning
    ensures AuditLogCheck(Success([AuditRow(None)])) == Warning
  {
  }

  // ---------------------------------------------------------------------
  // check_backup_status

  /** A directory entry with its modification time, in seconds since the
      epoch. */
  datatype BackupFile = BackupFile(name: string, modified: real, sizeBytes: int)

  /** The backup directory as the check finds it. */
  datatype BackupScan = MissingDirectory | Listing(files: seq<BackupFile>) | ScanError(message: string)

  predicate EndsWith(s: string, suffix: string)
  {
    |suffix| <= |s| && s[|s| - |suffix|..] == suffix
  }

  /** `file.endswith(('.sql', '.sql.gz'))`. */
  predicate IsBackupName(name: string)
  {
    EndsWith(name, ".sql") || EndsWith(name, ".sql.gz")
  }

  /** The backup files of a listing, in listing order. */
  function BackupFiles(files: seq<BackupFile>): (r: seq<BackupFile>)
    ensures |r| <= |files|
    ensures forall i :: 0 <= i < |r| ==> IsBackupName(r[i].name)
    ensures forall f :: f in r <==> f in files && IsBackupName(f.name)
    decreases |files|
  {
    if |files| == 0 then []
    else
      var rest := BackupFiles(files[1..]);
      assert forall f :: f in files <==> f == files[0] || f in files[1..];
      if IsBackupName(files[0].name) then [files[0]] + rest else rest
  }

  /** The filter keeps listing order: filtering a listing in two parts is
      filtering each part. */
  lemma {:induction false} BackupFilesKeepOrder(a: seq<BackupFile>, b: seq<BackupFile>)
    ensures BackupFiles(a + b) == BackupFiles(a) + BackupFiles(b)
    decreases |a|
  {
    if |a| > 0 {
      assert (a + b)[1..] == a[1..] + b;
      BackupFilesKeepOrder(a[1..], b);
    } else {
      assert a + b == b;
    }
  }

  /** Entry `i` is what `sort(key=modified, reverse=True)[0]` picks: the
      newest file, and the first of the newest in listing order, since the
      sort is stable. */
  predicate IsLatest(files: seq<BackupFile>, i: int)
  {
    && 0 <= i < |files|
    && (forall j :: 0 <= j < |files| ==> files[j].modified <= files[i].modified)
    && (forall j :: 0 <= j < i ==> files[j].modified < files[i].modified)
  }

  /** At most one entry is the latest. */
  lemma {:induction false} LatestUnique(files: seq<BackupFile>, i: int, k: int)
    requires IsLatest(files, i) && IsLatest(files, k)
    ensures i == k
  {
    assert files[i].modified == files[k].modified;
  }

  /** The latest entry, defined over ever longer prefixes of the listing:
      a later file replaces the current pick only when it is strictly
      newer. */
  function Latest(files: seq<BackupFile>): (r: nat)
    requires |files| > 0
    ensures IsLatest(files, r)
    decreases |files|
  {
    if |files| == 1 then 0
    else
      var prefix := files[..|files| - 1];
      var l := Latest(prefix);
      assert forall j :: 0 <= j < |prefix| ==> prefix[j] == files[j];
      if files[|files| - 1].modified > files[l].modified then |files| - 1 else l
  }

  /** Finds the latest backup with one pass over the files. */
  method LatestBackup(files: seq<BackupFile>) returns (latest: nat)
    requires |files| > 0
    ensures IsLatest(files, latest)
  {
    latest := 0;
    var i := 1;
    while i < |files|
      invariant 1 <= i <= |files|
      invariant latest < i
      invariant forall j :: 0 <= j < i ==> files[j].modified <= files[latest].modified
      invariant forall j :: 0 <= j < latest ==> files[j].modified < files[latest].modified
    {
      if files[i].modified > files[latest].modified {
        latest := i;
      }
      i := i + 1;
    }
  }

  /** The age rule on the latest backup: more than 48 hours old is
      critical, more than 25 hours a warning. */
  function BackupAgeStatus(now: real, modified: real): (r: Status)
    ensures r == Critical <==> now - modified > 48.0 * 3600.0
    ensures r == Warning <==> 25.0 * 3600.0 < now - modified <= 48.0 * 3600.0
    ensures r == Healthy <==> now - modified <= 25.0 * 3600.0
  {
    var hours := (now - modified) / 3600.0;
    if hours > 48.0 then Critical else if hours > 25.0 then Warning else Healthy
  }

  /** What `check_backup_status` records. */
  datatype BackupReport = BackupReport(status: Status, latest: Option<string>, totalBackups: nat)

  /** `check_backup_status` at clock reading `now`: a missing directory is
      a warning, a directory without backup files critical, an error while
      scanning marks the check failed; otherwise the age of the latest
      backup decides. */
  function BackupReportOf(scan: BackupScan, now: real): (r: BackupReport)
    ensures scan.MissingDirectory? ==> r.status == Warning && r.latest.None?
    ensures scan.ScanError? ==> r.status == Failed && r.latest.None?
    ensures scan.Listing? && |BackupFiles(scan.files)| == 0 ==> r.status == Critical && r.latest.None?
    ensures scan.Listing? && |BackupFiles(scan.files)| > 0 ==>
              r.totalBackups == |BackupFiles(scan.files)|
              && exists i :: IsLatest(BackupFiles(scan.files), i)
                             && r.latest == Some(BackupFiles(scan.files)[i].name)
                             && r.status == BackupAgeStatus(now, BackupFiles(scan.files)[i].modified)
  {
    match scan
    case MissingDirectory => BackupReport(Warning, None, 0)
    case ScanError(_) => BackupReport(Failed, None, 0)
    case Listing(files) =>
      var backups := BackupFiles(files);
      if |backups| == 0 then BackupReport(Critical, None, 0)
      else
        var i := Latest(backups);
        BackupReport(BackupAgeStatus(now, backups[i].modified), Some(backups[i].name), |backups|)
  }

  /** The check computed with the one-pass search agrees with the report
      defined through `Latest`. */
  method BackupCheck(scan: BackupScan, now: real) returns (report: BackupReport)
    ensures report == BackupReportOf(scan, now)
  {
    match scan
    case MissingDirectory => report := BackupReport(Warning, None, 0);
    case ScanError(_) => report := BackupReport(Failed, None, 0);
    case Listing(files) =>
      var backups := BackupFiles(files);
      if |backups| == 0 {
        report := BackupReport(Critical, None, 0);
      } else {
        var i := LatestBackup(backups);
        LatestUnique(backups, i, Latest(backups));
        report := BackupReport(BackupAgeStatus(now, backups[i].modified), Some(backups[i].name), |backups|);
      }
  }

  // ---------------------------------------------------------------------
  // determine_overall_status

  /** The two flags `determine_overall_status` collects. */
  datatype Flags = Flags(hasCritical: bool, hasWarning: bool)

  function Scan(checks: seq<Check>): Flags
    decreases |checks|
  {
    if |checks| == 0 then Flags(false, false)
    else
      var f := Scan(checks[..|checks| - 1]);
      var s := checks[|checks| - 1].status;
      if s == Critical || s == Failed then f.(hasCritical := true)
      else if s == Warning then f.(hasWarning := true)
      else f
  }

  /** `determine_overall_status`. */
  function OverallStatus(checks: seq<Check>): Status
  {
    var f := Scan(checks);
    if f.hasCritical then Critical else if f.hasWarning then Warning else Healthy
  }

  lemma {:induction false} ScanMeaning(checks: seq<Check>)
    ensures Scan(checks).hasCritical <==> exists i :: 0 <= i < |checks| && Rank(checks[i].status) == 2
    ensures Scan(checks).hasWarning <==> exists i :: 0 <= i < |checks| && checks[i].status == Warning
    decreases |checks|
  {
    if |checks| > 0 {
      var prefix := checks[..|checks| - 1];
      ScanMeaning(prefix);
      assert forall i :: 0 <= i < |prefix| ==> prefix[i] == checks[i];
    }
  }

  /** The overall status is critical exactly when some check is critical or
      failed, otherwise a warning exactly when some check warns, otherwise
      healthy: its rank is the largest rank among the checks, and unknown or
      not-applicable checks (or no checks at all) leave it healthy. */
  lemma {:induction false} OverallMeaning(checks: seq<Check>)
    ensures OverallStatus(checks) in {Healthy, Warning, Critical}
    ensures OverallStatus(checks) == Critical <==> exists i :: 0 <= i < |checks| && Rank(checks[i].status) == 2
    ensures OverallStatus(checks) == Warning <==>
              (forall i :: 0 <= i < |checks| ==> Rank(checks[i].status) < 2)
              && exists i :: 0 <= i < |checks| && checks[i].status == Warning
    ensures forall i :: 0 <= i < |checks| ==> Rank(checks[i].status) <= Rank(OverallStatus(checks))
    ensures Rank(OverallStatus(checks)) > 0 ==>
              exists i :: 0 <= i < |checks| && Rank(checks[i].status) == Rank(OverallStatus(checks))
  {
    ScanMeaning(checks);
  }

  /** The statuses of the checks, as a multiset. */
  function Statuses(checks: seq<Check>): multiset<Status>
    decreases |checks|
  {
    if |checks| == 0 then multiset{} else Statuses(checks[..|checks| - 1]) + multiset{checks[|checks| - 1].status}
  }

  lemma {:induction false} StatusesMembership(checks: seq<Check>, s: Status)
    ensures s in Statuses(checks) <==> exists i :: 0 <= i < |checks| && checks[i].status == s
    decreases |checks|
  {
    if |checks| > 0 {
      var prefix := checks[..|checks| - 1];
      StatusesMembership(prefix, s);
      assert forall i :: 0 <= i < |prefix| ==> prefix[i] == checks[i];
    }
  }

  /** The overall status does not depend on the order (or names) of the
      checks: checks with the same statuses give the same verdict. */
  lemma {:induction false} OverallIgnoresOrder(a: seq<Check>, b: seq<Check>)
    requires Statuses(a) == Statuses(b)
    ensures OverallStatus(a) == OverallStatus(b)
  {
    OverallMeaning(a);
    OverallMeaning(b);
    StatusesMembership(a, Critical);
    StatusesMembership(b, Critical);
    StatusesMembership(a, Failed);
    StatusesMembership(b, Failed);
    StatusesMembership(a, Warning);
    StatusesMembership(b, Warning);
    assert (exists i :: 0 <= i < |a| && Rank(a[i].status) == 2) <==>
           (exists i :: 0 <= i < |a| && a[i].status == Critical) || (exists i :: 0 <= i < |a| && a[i].status == Failed);
    assert (exists i :: 0 <= i < |b| && Rank(b[i].status) == 2) <==>
           (exists i :: 0 <= i < |b| && b[i].status == Critical) || (exists i :: 0 <= i < |b| && b[i].status == Failed);
  }

  /** Adding checks never lowers the overall severity. */
  lemma {:induction false} OverallMonotone(a: seq<Check>, more: seq<Check>)
    ensures Rank(OverallStatus(a)) <= Rank(OverallStatus(a + more))
  {
    OverallMeaning(a);
    OverallMeaning(a + more);
    if Rank(OverallStatus(a)) > 0 {
      var i :| 0 <= i < |a| && Rank(a[i].status) == Rank(OverallStatus(a));
      assert (a + more)[i] == a[i];
    }
  }

  /** The loop of `determine_overall_status`, flag by flag. */
  method DetermineOverallStatus(checks: seq<Check>) returns (overall: Status)
    ensures overall == Critical <==> exists i :: 0 <= i < |checks| && Rank(checks[i].status) == 2
    ensures overall == Warning <==>
              (forall i :: 0 <= i < |checks| ==> Rank(checks[i].status) < 2)
              && exists i :: 0 <= i < |checks| && checks[i].status == Warning
    ensures overall == Healthy <==> forall i :: 0 <= i < |checks| ==> Rank(checks[i].status) == 0
  {
    var hasCritical := false;
    var hasWarning := false;
    var k := 0;
    while k < |checks|
      invariant 0 <= k <= |checks|
      invariant hasCritical <==> exists i :: 0 <= i < k && Rank(checks[i].status) == 2
      invariant hasWarning <==> exists i :: 0 <= i < k && checks[i].status == Warning
    {
      var status := checks[k].status;
      if status == Critical || status == Failed {
        hasCritical := true;
      } else if status == Warning {
        hasWarning := true;
      }
      k := k + 1;
    }
    if hasCritical {
      overall := Critical;
    } else if hasWarning {
      overall := Warning;
    } else {
      overall := Healthy;
    }
  }

  // ---------------------------------------------------------------------
  // run_all_checks and main

  /** Everything the checks observe: whether the manager could be created,
      the server's answers to the size, replication and audit queries, the
      backup directory and the clock.  The pool and the metrics are not
      observations: `getPoolStatus()` does not exist on the manager, and
      the metrics are those of a manager that has run no query yet. */
  datatype Observations = Observations(
    connection: Result<(), string>,
    sizes: Result<seq<real>, string>,
    replication: Result<seq<ReplicaRow>, string>,
    audit: Result<seq<AuditRow>, string>,
    backups: BackupScan,
    now: real)

  datatype HealthStatus = HealthStatus(overall: Status, checks: seq<Check>)

  /** The error `self.db.getPoolStatus()` raises: the manager
      `create_database_manager` returns has no such method. */
  const MissingPoolStatus: string := "'DatabaseManager' object has no attribute 'getPoolStatus'"

  /** `run_all_checks`: a failed connection reports only that, as
      critical; otherwise the six checks run in order and the overall
      status is determined from them.  The pool check always fails and the
      query-performance check always reads fresh metrics, so every
      connected run is critical and its query-performance check healthy. */
  method RunAllChecks(obs: Observations) returns (health: HealthStatus)
    ensures obs.connection.Failure? ==> health == HealthStatus(Critical, [Check("connection", Failed)])
    ensures obs.connection.Success? ==>
              |health.checks| == 6
              && health.checks[0] == Check("connection_pool", PoolCheck(Failure(MissingPoolStatus)))
              && health.checks[1] == Check("query_performance", QueryPerformanceCheck(Success(Initial())))
              && health.checks[2] == Check("database_size", DatabaseSizeCheck(obs.sizes))
              && health.checks[3] == Check("replication", ReplicationCheck(obs.replication))
              && health.checks[4] == Check("audit_log", AuditLogCheck(obs.audit))
              && health.checks[5] == Check("backup", BackupReportOf(obs.backups, obs.now).status)
              && health.overall == OverallStatus(health.checks)
    ensures obs.connection.Success? ==>
              health.checks[0].status == Failed && health.checks[1].status == Healthy && health.overall == Critical
  {
    if obs.connection.Failure? {
      health := HealthStatus(Critical, [Check("connection", Failed)]);
    } else {
      var backup := BackupCheck(obs.backups, obs.now);
      QueryPerformanceOnCounts(Initial());
      var checks := [
        Check("connection_pool", PoolCheck(Failure(MissingPoolStatus))),
        Check("query_performance", QueryPerformanceCheck(Success(Initial()))),
        Check("database_size", DatabaseSizeCheck(obs.sizes)),
        Check("replication", ReplicationCheck(obs.replication)),
        Check("audit_log", AuditLogCheck(obs.audit)),
        Check("backup", backup.status)];
      var overall := DetermineOverallStatus(checks);
      OverallMeaning(checks);
      health := HealthStatus(overall, checks);
    }
  }

  /** `main`'s exit code: 2 for critical, 1 for warning, 0 otherwise. */
  function ExitCode(overall: Status): (r: nat)
    ensures r == 2 <==> overall == Critical
    ensures r == 1 <==> overall == Warning
    ensures r == 0 <==> overall != Critical && overall != Warning
  {
    if overall == Critical then 2 else if overall == Warning then 1 else 0
  }

  /** The exit code of a run is the largest rank among its checks. */
  lemma {:induction false} ExitCodeIsWorstCheck(checks: seq<Check>)
    ensures forall i :: 0 <= i < |checks| ==> Rank(checks[i].status) <= ExitCode(OverallStatus(checks))
    ensures ExitCode(OverallStatus(checks)) > 0 ==>
              exists i :: 0 <= i < |checks| && Rank(checks[i].status) == ExitCode(OverallStatus(checks))
  {
    OverallMeaning(checks);
  }

  /** The checks `main` prints: with `--quiet`, healthy ones are skipped. */
  function QuietFilter(checks: seq<Check>, quiet: bool): (r: seq<Check>)
    ensures !quiet ==> r == checks
    ensures forall c :: c in r <==> c in checks && !(quiet && c.status == Healthy)
    decreases |checks|
  {
    if |checks| == 0 then []
    else
      var rest := QuietFilter(checks[1..], quiet);
      assert forall c :: c in checks <==> c == checks[0] || c in checks[1..];
      if quiet && checks[0].status == Healthy then rest else [checks[0]] + rest
  }

  /** One step of the filter: the first check is kept unless it is hidden. */
  lemma {:induction false} QuietFilterCons(checks: seq<Check>, quiet: bool)
    requires |checks| > 0
    ensures QuietFilter(checks, quiet)
            == (if quiet && checks[0].status == Healthy then [] else [checks[0]]) + QuietFilter(checks[1..], quiet)
  {
  }

  /** Quiet mode keeps the printed checks in order and hides only healthy
      ones: failed, unknown and not-applicable checks still show. */
  lemma {:induction false} QuietKeepsOrder(a: seq<Check>, b: seq<Check>, quiet: bool)
    ensures QuietFilter(a + b, quiet) == QuietFilter(a, quiet) + QuietFilter(b, quiet)
    decreases |a|
  {
    if |a| > 0 {
      var ab := a + b;
      assert ab[0] == a[0] && ab[1..] == a[1..] + b;
      QuietKeepsOrder(a[1..], b, quiet);
      QuietFilterCons(ab, quiet);
      QuietFilterCons(a, quiet);
    } else {
      assert a + b == b;
    }
  }
}
