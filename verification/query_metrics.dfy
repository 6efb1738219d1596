/** `QueryMetrics` of config/connection/python_database_manager.py: per-call
    counters, a bounded history of recent queries, and rates guarded against
    an empty count.  Recording is sequential (the source's lock only
    serialises calls); execution times are reals and the wall-clock
    timestamp of each entry is a parameter. */
module QueryMetrics {

  /** Queries slower than this many seconds count as slow. */
  const SlowQueryThreshold: real := 1.0
  /** The history keeps this many most recent entries. */
  const HistoryLimit: nat := 100
  /** The history keeps this many leading characters of each statement. */
  const SqlKeep: nat := 200

  datatype HistoryEntry = HistoryEntry(sql: string, executionTime: real, success: bool, timestamp: int)

  datatype Metrics = Metrics(
    totalQueries: nat,
    slowQueries: nat,
    errors: nat,
    totalExecutionTime: real,
    history: seq<HistoryEntry>)

  /** One `record_query(sql, execution_time, success)` call made at `timestamp`. */
  datatype Call = Call(sql: string, executionTime: real, success: bool, timestamp: int)

  /** A freshly constructed `QueryMetrics`. */
  function Initial(): Metrics
  {
    Metrics(0, 0, 0, 0.0, [])
  }

  /** Python's `s[:n]`. */
  function Prefix(s: string, n: nat): (r: string)
    ensures |r| <= n && |r| <= |s| && r == s[..|r|]
    ensures |s| <= n ==> r == s
    ensures |s| > n ==> |r| == n
  {
    if |s| <= n then s else s[..n]
  }

  /** The history entry a call leaves behind. */
  function EntryOf(c: Call): HistoryEntry
  {
    HistoryEntry(Prefix(c.sql, SqlKeep), c.executionTime, c.success, c.timestamp)
  }

  predicate IsSlow(executionTime: real)
  {
    executionTime > SlowQueryThreshold
  }

  /** The invariant every reachable `QueryMetrics` keeps. */
  predicate Valid(m: Metrics)
  {
    && m.errors <= m.totalQueries
    && m.slowQueries <= m.totalQueries
    && |m.history| <= HistoryLimit
    && |m.history| <= m.totalQueries
    && forall i :: 0 <= i < |m.history| ==> |m.history[i].sql| <= SqlKeep
  }

  /** `record_query`: count the call, add its time, count it as an error when
      it failed and as slow when it took longer than the threshold, append
      its entry and drop the oldest entry when the history overflows. */
  function RecordQuery(m: Metrics, c: Call): (r: Metrics)
    ensures r.totalQueries == m.totalQueries + 1
    ensures r.totalExecutionTime == m.totalExecutionTime + c.executionTime
    ensures r.errors == m.errors + 1 <==> !c.success
    ensures r.errors == m.errors <==> c.success
    ensures r.slowQueries == m.slowQueries + 1 <==> IsSlow(c.executionTime)
    ensures r.slowQueries == m.slowQueries <==> !IsSlow(c.executionTime)
    ensures |r.history| > 0 && r.history[|r.history| - 1] == EntryOf(c)
    ensures |m.history| < HistoryLimit ==> r.history == m.history + [EntryOf(c)]
    ensures |m.history| == HistoryLimit ==> r.history == m.history[1..] + [EntryOf(c)]
    ensures Valid(m) ==> Valid(r)
  {
    var history := m.history + [EntryOf(c)];
    Metrics(
      m.totalQueries + 1,
      if IsSlow(c.executionTime) then m.slowQueries + 1 else m.slowQueries,
      if c.success then m.errors else m.errors + 1,
      m.totalExecutionTime + c.executionTime,
      if |history| > HistoryLimit then history[1..] else history)
  }

  /** The metrics after a sequence of calls on a fresh object. */
  function Replay(calls: seq<Call>): Metrics
    decreases |calls|
  {
    if |calls| == 0 then Initial()
    else RecordQuery(Replay(calls[..|calls| - 1]), calls[|calls| - 1])
  }

  function CountFailures(calls: seq<Call>): nat
    decreases |calls|
  {
    if |calls| == 0 then 0
    else CountFailures(calls[..|calls| - 1]) + (if calls[|calls| - 1].success then 0 else 1)
  }

  function CountSlow(calls: seq<Call>): nat
    decreases |calls|
  {
    if |calls| == 0 then 0
    else CountSlow(calls[..|calls| - 1]) + (if IsSlow(calls[|calls| - 1].executionTime) then 1 else 0)
  }

  function TotalTime(calls: seq<Call>): real
    decreases |calls|
  {
    if |calls| == 0 then 0.0 else TotalTime(calls[..|calls| - 1]) + calls[|calls| - 1].executionTime
  }

  /** The last `n` elements of `s` (all of them when there are fewer). */
  function LastN<T>(s: seq<T>, n: nat): (r: seq<T>)
    ensures |r| == if |s| <= n then |s| else n
  {
    if |s| <= n then s else s[|s| - n..]
  }

  function Entries(calls: seq<Call>): (r: seq<HistoryEntry>)
    ensures |r| == |calls|
    ensures forall i :: 0 <= i < |calls| ==> r[i] == EntryOf(calls[i])
  {
    seq(|calls|, i requires 0 <= i < |calls| => EntryOf(calls[i]))
  }

  /** After any sequence of calls the counters count exactly the calls, the
      failed calls and the slow calls, and the total time is the sum of the
      times. */
  lemma {:induction false} ReplayCounters(calls: seq<Call>)
    ensures Replay(calls).totalQueries == |calls|
    ensures Replay(calls).errors == CountFailures(calls)
    ensures Replay(calls).slowQueries == CountSlow(calls)
    ensures Replay(calls).totalExecutionTime == TotalTime(calls)
    ensures Valid(Replay(calls))
    decreases |calls|
  {
    if |calls| > 0 {
      ReplayCounters(calls[..|calls| - 1]);
    }
  }

  /** Appending one element to a window of the last `n` elements either
      grows it or slides it by one. */
  lemma {:induction false} LastNSnoc<T>(s: seq<T>, x: T, n: nat)
    requires n > 0
    ensures |s| < n ==> LastN(s + [x], n) == s + [x]
    ensures |s| >= n ==> LastN(s + [x], n) == LastN(s, n)[1..] + [x]
  {
    if |s| >= n {
      var t := s + [x];
      assert t[|t| - n..] == s[|s| - n..][1..] + [x];
    }
  }

  /** After any sequence of calls the history holds the entries of the last
      100 calls, oldest first. */
  lemma {:induction false} ReplayHistory(calls: seq<Call>)
    ensures Replay(calls).history == LastN(Entries(calls), HistoryLimit)
    decreases |calls|
  {
    if |calls| > 0 {
      var prev := calls[..|calls| - 1];
      var c := calls[|calls| - 1];
      ReplayHistory(prev);
      EntriesSnoc(calls);
      LastNSnoc(Entries(prev), EntryOf(c), HistoryLimit);
      assert Replay(calls) == RecordQuery(Replay(prev), c);
    }
  }

  /** The entries of a sequence of calls grow by one per call. */
  lemma {:induction false} EntriesSnoc(calls: seq<Call>)
    requires |calls| > 0
    ensures Entries(calls) == Entries(calls[..|calls| - 1]) + [EntryOf(calls[|calls| - 1])]
  {
  }

  /** `average_execution_time`: zero when nothing was recorded. */
  function AverageExecutionTime(m: Metrics): (r: real)
    ensures m.totalQueries == 0 ==> r == 0.0
    ensures m.totalQueries > 0 ==> r * (m.totalQueries as real) == m.totalExecutionTime
  {
    if m.totalQueries > 0 then m.totalExecutionTime / (m.totalQueries as real) else 0.0
  }

  /** `errors / total_queries * 100`, zero when nothing was recorded. */
  function ErrorRate(m: Metrics): (r: real)
    ensures m.totalQueries == 0 ==> r == 0.0
    ensures m.totalQueries > 0 ==> r * (m.totalQueries as real) == 100.0 * (m.errors as real)
    ensures Valid(m) ==> 0.0 <= r <= 100.0
  {
    Percentage(m.errors, m.totalQueries)
  }

  /** `slow_queries / total_queries * 100`, zero when nothing was recorded. */
  function SlowQueryRate(m: Metrics): (r: real)
    ensures m.totalQueries == 0 ==> r == 0.0
    ensures m.totalQueries > 0 ==> r * (m.totalQueries as real) == 100.0 * (m.slowQueries as real)
    ensures Valid(m) ==> 0.0 <= r <= 100.0
  {
    Percentage(m.slowQueries, m.totalQueries)
  }

  function Percentage(part: nat, whole: nat): (r: real)
    ensures whole == 0 ==> r == 0.0
    ensures whole > 0 ==> r * (whole as real) == 100.0 * (part as real)
    ensures part <= whole ==> 0.0 <= r <= 100.0
  {
    if whole > 0 then (part as real) / (whole as real) * 100.0 else 0.0
  }
}
