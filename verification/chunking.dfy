/** The batching idiom of the sources:
      for i in range(0, len(rows), batch_size):
          batch = rows[i:i + batch_size]
    Python's `range` refuses a zero step and yields nothing for a negative
    step over a non-negative length; slicing clamps at the end of the list. */
module Chunking {
  import opened Wrappers

  function Min(a: int, b: int): int
  {
    if a <= b then a else b
  }

  /** The number of batches `range(0, n, k)` yields for a positive step `k`. */
  function CeilDiv(n: nat, k: nat): nat
    requires k > 0
  {
    (n + k - 1) / k
  }

  /** The slices `rows[i:i + size]`, `i = 0, size, 2 * size, ...`, in order. */
  function Chunks<T>(rows: seq<T>, size: nat): seq<seq<T>>
    requires size > 0
    decreases |rows|
  {
    if |rows| == 0 then []
    else if |rows| <= size then [rows]
    else [rows[..size]] + Chunks(rows[size..], size)
  }

  /** Concatenation of the batches, in order. */
  function Flatten<T>(chunks: seq<seq<T>>): seq<T>
    decreases |chunks|
  {
    if |chunks| == 0 then [] else chunks[0] + Flatten(chunks[1..])
  }

  /** `m` batches of `k` rows cover `n` rows and `m - 1` batches do not:
      `m` is the ceiling of `n / k`, stated without division. */
  predicate IsCeiling(n: nat, k: nat, m: nat)
  {
    n <= m * k && (m == 0 || (m - 1) * k < n)
  }

  /** The division formula `(n + k - 1) / k` meets the ceiling's definition. */
  lemma {:induction false} CeilDivIsCeiling(n: nat, k: nat)
    requires k > 0
    ensures IsCeiling(n, k, CeilDiv(n, k))
  {
    var x := n + k - 1;
    var q := x / k;
    var r := x % k;
    assert x == q * k + r && 0 <= r < k;
    assert n <= q * k;
    if q > 0 {
      assert (q - 1) * k == q * k - k;
    }
  }

  lemma {:induction false} CeilingUnique(n: nat, k: nat, m1: nat, m2: nat)
    requires k > 0 && IsCeiling(n, k, m1) && IsCeiling(n, k, m2)
    ensures m1 == m2
  {
    if m1 < m2 {
      MulMono(m1, m2 - 1, k);
    } else if m2 < m1 {
      MulMono(m2, m1 - 1, k);
    }
  }

  lemma {:induction false} MulMono(a: nat, b: nat, k: nat)
    requires a <= b
    ensures a * k <= b * k
  {
  }

  /** The batches partition `rows` in order: concatenated they give `rows`
      back, there are ceil(|rows| / size) of them, none is empty, none is
      longer than `size`, and all but the last are exactly `size` long. */
  lemma {:induction false} ChunksPartition<T>(rows: seq<T>, size: nat)
    requires size > 0
    ensures Flatten(Chunks(rows, size)) == rows
    ensures IsCeiling(|rows|, size, |Chunks(rows, size)|)
    ensures |Chunks(rows, size)| == CeilDiv(|rows|, size)
    ensures forall j :: 0 <= j < |Chunks(rows, size)| ==> 0 < |Chunks(rows, size)[j]| <= size
    ensures forall j :: 0 <= j < |Chunks(rows, size)| - 1 ==> |Chunks(rows, size)[j]| == size
    decreases |rows|
  {
    var cs := Chunks(rows, size);
    if |rows| == 0 {
    } else if |rows| <= size {
      assert cs == [rows];
      assert Flatten(cs) == rows + Flatten([]);
    } else {
      var tail := Chunks(rows[size..], size);
      ChunksPartition(rows[size..], size);
      assert cs == [rows[..size]] + tail;
      assert cs[1..] == tail;
      assert Flatten(cs) == rows[..size] + rows[size..] == rows;
      CeilingStep(|rows|, size, |tail|);
      assert forall j :: 0 < j < |cs| ==> cs[j] == tail[j - 1];
    }
    CeilDivIsCeiling(|rows|, size);
    CeilingUnique(|rows|, size, |cs|, CeilDiv(|rows|, size));
  }

  /** Taking one more full batch off the front adds one to the ceiling. */
  lemma {:induction false} CeilingStep(n: nat, k: nat, m: nat)
    requires 0 < k < n && IsCeiling(n - k, k, m)
    ensures IsCeiling(n, k, m + 1)
  {
    assert (m + 1) * k == m * k + k;
    if m > 0 {
      assert m * k == (m - 1) * k + k;
    }
  }

  /** The loop of the sources, step by step: starting at offset 0, take the
      clamped slice and advance by `size` until the offset reaches the end
      (the offset is clamped at the end, where the loop stops either way). */
  method RangeSlices<T>(rows: seq<T>, size: nat) returns (batches: seq<seq<T>>)
    requires size > 0
    ensures batches == Chunks(rows, size)
    ensures Flatten(batches) == rows
    ensures |batches| == CeilDiv(|rows|, size)
  {
    batches := [];
    var i := 0;
    while i < |rows|
      invariant i <= |rows|
      invariant batches + Chunks(rows[i..], size) == Chunks(rows, size)
      decreases |rows| - i
    {
      var batch := rows[i..Min(i + size, |rows|)];
      if i + size < |rows| {
        assert rows[i..][size..] == rows[i + size..];
        assert rows[i..][..size] == batch;
      } else {
        assert rows[i..] == batch;
      }
      batches := batches + [batch];
      i := Min(i + size, |rows|);
    }
    assert batches + [] == batches;
    ChunksPartition(rows, size);
  }

  /** The batches `range(0, len(rows), step)` visits: a zero step raises
      `ValueError`, a negative step visits nothing. */
  function Batches<T>(rows: seq<T>, step: int): (r: Result<seq<seq<T>>, string>)
    ensures step == 0 <==> r.Failure?
    ensures step < 0 ==> r == Success([])
    ensures step > 0 ==> r.Success? && r.value == Chunks(rows, step)
    ensures step > 0 ==> Flatten(r.value) == rows && |r.value| == CeilDiv(|rows|, step)
    ensures step > 0 ==> forall i :: 0 <= i < |r.value| ==> 0 < |r.value[i]| <= step
  {
    if step == 0 then Failure("range() arg 3 must not be zero")
    else if step < 0 then Success([])
    else
      ChunksPartition(rows, step);
      Success(Chunks(rows, step))
  }

  /** The database behind `executemany`: it answers a batch with a row count
      or an error, given the batches executed before it on the same
      connection (a batch may fail on a key an earlier batch inserted). */
  type BatchDatabase<!R> = (seq<seq<R>>, seq<R>) -> Result<int, string>

  /** The answer to batch `i`, which saw batches `0 .. i - 1` before it. */
  function BatchAnswer<R>(batches: seq<seq<R>>, executemany: BatchDatabase<R>, i: nat): Result<int, string>
    requires i < |batches|
  {
    executemany(batches[..i], batches[i])
  }

  /** Every batch of the run was executed without a database error. */
  predicate AllSucceed<R>(batches: seq<seq<R>>, executemany: BatchDatabase<R>)
  {
    forall i :: 0 <= i < |batches| ==> BatchAnswer(batches, executemany, i).Success?
  }

  /** The row counts of batches `k ..` added up; a failed batch adds
      nothing (a failed run reports no total anyway). */
  function RowCountsFrom<R>(batches: seq<seq<R>>, executemany: BatchDatabase<R>, k: nat): int
    requires k <= |batches|
    decreases |batches| - k
  {
    if k == |batches| then 0
    else
      var n := match BatchAnswer(batches, executemany, k) case Success(n) => n case Failure(_) => 0;
      n + RowCountsFrom(batches, executemany, k + 1)
  }

  /** Runs `executemany` on batches `k ..` in turn, summing the row counts
      (`total_inserted += cursor.rowcount`); the first database error
      aborts the rest. */
  function ExecuteFrom<R>(batches: seq<seq<R>>, executemany: BatchDatabase<R>, k: nat): (r: Result<int, string>)
    requires k <= |batches|
    ensures r.Success? <==> forall i :: k <= i < |batches| ==> BatchAnswer(batches, executemany, i).Success?
    ensures r.Failure? ==> exists i :: k <= i < |batches| && BatchAnswer(batches, executemany, i) == Failure(r.error)
                                       && forall j :: k <= j < i ==> BatchAnswer(batches, executemany, j).Success?
    ensures r.Success? ==> r.value == RowCountsFrom(batches, executemany, k)
    decreases |batches| - k
  {
    if k == |batches| then Success(0)
    else
      match BatchAnswer(batches, executemany, k)
      case Failure(e) => Failure(e)
      case Success(n) =>
        var rest := ExecuteFrom(batches, executemany, k + 1);
        if rest.Failure? then Failure(rest.error)
        else Success(n + rest.value)
  }

  /** The batch loop of `batch_insert` and `_upsert_data`: it succeeds
      exactly when every batch succeeds, with the sum of the row counts; a
      failure carries the error of the first failing batch. */
  function ExecuteBatches<R>(batches: seq<seq<R>>, executemany: BatchDatabase<R>): (r: Result<int, string>)
    ensures r.Success? <==> AllSucceed(batches, executemany)
    ensures r.Failure? ==> exists i :: 0 <= i < |batches| && BatchAnswer(batches, executemany, i) == Failure(r.error)
                                       && forall j :: 0 <= j < i ==> BatchAnswer(batches, executemany, j).Success?
    ensures r.Success? ==> r.value == RowCountsFrom(batches, executemany, 0)
  {
    ExecuteFrom(batches, executemany, 0)
  }

  /** When every batch reports all of its rows as inserted, the total is
      the number of rows in all the batches. */
  lemma {:induction false} RowCountsCoverBatches<R>(batches: seq<seq<R>>, executemany: BatchDatabase<R>, k: nat)
    requires k <= |batches|
    requires forall i :: k <= i < |batches| ==> BatchAnswer(batches, executemany, i) == Success(|batches[i]|)
    ensures RowCountsFrom(batches, executemany, k) == |Flatten(batches[k..])|
    decreases |batches| - k
  {
    if k < |batches| {
      RowCountsCoverBatches(batches, executemany, k + 1);
      assert batches[k..][1..] == batches[k + 1..];
    }
  }

  /** The same for a whole run of `ExecuteBatches`. */
  lemma {:induction false} AllRowsCounted<R>(batches: seq<seq<R>>, executemany: BatchDatabase<R>)
    requires forall i :: 0 <= i < |batches| ==> BatchAnswer(batches, executemany, i) == Success(|batches[i]|)
    ensures ExecuteBatches(batches, executemany) == Success(|Flatten(batches)|)
  {
    RowCountsCoverBatches(batches, executemany, 0);
    assert batches[0..] == batches;
  }
}
