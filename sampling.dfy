/**
 * The minibatch sampler of `DataSet.next_batch` as pure functions over its
 * counters: where the next batch starts, which rows it takes, and how the
 * counters move. The `DataSet` class is specified by these functions, and
 * the lemmas here say what a run of calls returns.
 */
module Sampling {

  import opened Permutations

  /** The sampler's counters: `_index_in_epoch`, `_epochs_trained`,
      `_batch_number`. */
  datatype Cursor = Cursor(index: nat, epochs: nat, batchNumber: nat)

  /** The counters of a freshly constructed data set. */
  const Initial: Cursor := Cursor(0, 0, 0)

  /** The batch starting at `start` runs past the end of the epoch. */
  predicate Wraps(n: nat, start: nat, batchSize: nat)
  {
    start + batchSize > n
  }

  /** How many rows have been handed out since construction: every
      completed epoch contributed all n rows. */
  function Consumed(c: Cursor, n: nat): nat
  {
    c.epochs * n + c.index
  }

  /** Counters that a run of calls from `Initial` can produce: the index
      never leaves [0, n], and after a wrap at least one row of the new epoch
      has been taken, so the index is 0 only before the first epoch ends. */
  predicate Reachable(c: Cursor, n: nat)
  {
    c.index <= n && (c.epochs > 0 ==> c.index > 0)
  }

  /** The counters after one call of `next_batch(batchSize)`. */
  function Advance(c: Cursor, n: nat, batchSize: nat): (c': Cursor)
    requires c.index <= n && batchSize <= n
    ensures c'.index <= n
    ensures Consumed(c', n) == Consumed(c, n) + batchSize
    ensures Reachable(c, n) ==> Reachable(c', n)
  {
    if Wraps(n, c.index, batchSize) then
      Cursor(batchSize - (n - c.index), c.epochs + 1, 1)
    else
      Cursor(c.index + batchSize, c.epochs, c.batchNumber + 1)
  }

  /** The rows of one batch: rows [start, start + batchSize) of the current
      order `cur`, or, when that runs past the end, its tail [start, n)
      followed by the head of `next`, the order of the new epoch. */
  function TakeBatch<T>(cur: seq<T>, next: seq<T>, start: nat, batchSize: nat): (b: seq<T>)
    requires |next| == |cur| && start <= |cur| && batchSize <= |cur|
    ensures |b| == batchSize
    ensures forall i :: 0 <= i < batchSize ==>
              b[i] == if start + i < |cur| then cur[start + i] else next[start + i - |cur|]
  {
    if Wraps(|cur|, start, batchSize) then
      cur[start..] + next[..batchSize - (|cur| - start)]
    else
      cur[start..start + batchSize]
  }

  /** The data batch and the labels batch are cut at the same positions, so
      the i-th label returned belongs to the i-th row returned. */
  lemma TakeBatchPairs<A, B>(a: seq<A>, a': seq<A>, b: seq<B>, b': seq<B>, start: nat, batchSize: nat)
    requires |a| == |b| && |a'| == |a| && |b'| == |b|
    requires start <= |a| && batchSize <= |a|
    ensures Zip(TakeBatch(a, a', start, batchSize), TakeBatch(b, b', start, batchSize))
            == TakeBatch(Zip(a, b), Zip(a', b'), start, batchSize)
  {
  }

  /** Position `pos` of the endless stream rows[0], ..., rows[n - 1],
      rows[0], ... that a sampler without reshuffling walks along. */
  function At<T>(rows: seq<T>, pos: nat): T
    requires |rows| > 0
    decreases pos
  {
    if pos < |rows| then rows[pos] else At(rows, pos - |rows|)
  }

  /** The `len` stream positions starting at `from`. */
  function Cycle<T>(rows: seq<T>, from: nat, len: nat): seq<T>
    requires |rows| > 0
  {
    seq(len, i requires 0 <= i < len => At(rows, from + i))
  }

  function Sum(sizes: seq<nat>): nat
  {
    if sizes == [] then 0 else sizes[0] + Sum(sizes[1..])
  }

  function Repeat(batchSize: nat, k: nat): (sizes: seq<nat>)
    ensures |sizes| == k && forall i :: 0 <= i < k ==> sizes[i] == batchSize
  {
    seq(k, _ => batchSize)
  }

  /** The rows returned by consecutive calls with batch sizes `sizes` on a
      data set that does not shuffle (or between two reshuffles), and the
      counters afterwards. */
  function Run<T>(rows: seq<T>, c: Cursor, sizes: seq<nat>): (res: (seq<T>, Cursor))
    requires c.index <= |rows|
    requires forall k :: 0 <= k < |sizes| ==> sizes[k] <= |rows|
    ensures |res.0| == Sum(sizes)
    ensures res.1.index <= |rows|
    ensures Consumed(res.1, |rows|) == Consumed(c, |rows|) + Sum(sizes)
    ensures Reachable(c, |rows|) ==> Reachable(res.1, |rows|)
    decreases |sizes|
  {
    if sizes == [] then
      ([], c)
    else
      var batch := TakeBatch(rows, rows, c.index, sizes[0]);
      var rest := Run(rows, Advance(c, |rows|, sizes[0]), sizes[1..]);
      (batch + rest.0, rest.1)
  }

  /** Whole epochs do not move the position within the row order. */
  lemma {:induction false} AtShift<T>(rows: seq<T>, e: nat, x: nat)
    requires |rows| > 0
    ensures At(rows, e * |rows| + x) == At(rows, x)
  {
    if e > 0 {
      AtShift(rows, e - 1, x);
      assert e * |rows| + x == (e - 1) * |rows| + x + |rows|;
    }
  }

  lemma {:induction false} MulGap(a: nat, b: nat, n: nat)
    requires a < b
    ensures a * n + n <= b * n
    decreases b - a
  {
    if b > a + 1 {
      MulGap(a, b - 1, n);
    }
    assert b * n == (b - 1) * n + n;
  }

  /** Without a reshuffle, one batch is the window of the cyclic row stream
      that starts where the previous batch ended. */
  lemma BatchIsWindow<T>(rows: seq<T>, c: Cursor, batchSize: nat)
    requires |rows| > 0 && c.index <= |rows| && batchSize <= |rows|
    ensures TakeBatch(rows, rows, c.index, batchSize) == Cycle(rows, Consumed(c, |rows|), batchSize)
  {
    var n := |rows|;
    var b := TakeBatch(rows, rows, c.index, batchSize);
    forall i | 0 <= i < batchSize
      ensures b[i] == At(rows, Consumed(c, n) + i)
    {
      AtShift(rows, c.epochs, c.index + i);
    }
  }

  /** Without a reshuffle, any run of calls returns the cyclic row stream
      from where the sampler stands: every row once per epoch, in order,
      with batches running across epoch boundaries. */
  lemma {:induction false} RunIsCycle<T>(rows: seq<T>, c: Cursor, sizes: seq<nat>)
    requires |rows| > 0 && c.index <= |rows|
    requires forall k :: 0 <= k < |sizes| ==> sizes[k] <= |rows|
    ensures Run(rows, c, sizes).0 == Cycle(rows, Consumed(c, |rows|), Sum(sizes))
    decreases |sizes|
  {
    if sizes != [] {
      var n := |rows|;
      var c' := Advance(c, n, sizes[0]);
      var from := Consumed(c, n);
      BatchIsWindow(rows, c, sizes[0]);
      RunIsCycle(rows, c', sizes[1..]);
      CycleConcat(rows, from, sizes[0], Sum(sizes[1..]));
    }
  }

  lemma CycleConcat<T>(rows: seq<T>, from: nat, a: nat, b: nat)
    requires |rows| > 0
    ensures Cycle(rows, from, a) + Cycle(rows, from + a, b) == Cycle(rows, from, a + b)
  {
  }

  /** For counters reachable from `Initial`, the number of rows handed out
      determines the index and the epoch count. */
  lemma CursorFromConsumed(c: Cursor, c': Cursor, n: nat)
    requires Reachable(c, n) && Reachable(c', n)
    requires Consumed(c, n) == Consumed(c', n)
    ensures c.index == c'.index && c.epochs == c'.epochs
  {
    if c.epochs < c'.epochs {
      MulGap(c.epochs, c'.epochs, n);
    } else if c'.epochs < c.epochs {
      MulGap(c'.epochs, c.epochs, n);
    }
  }

  lemma {:induction false} SumRepeat(batchSize: nat, k: nat)
    ensures Sum(Repeat(batchSize, k)) == batchSize * k
  {
    if k > 0 {
      assert Repeat(batchSize, k)[1..] == Repeat(batchSize, k - 1);
      SumRepeat(batchSize, k - 1);
    }
  }

  /** Sampling an empty data set (only batch size 0 is accepted) never
      wraps. */
  lemma {:induction false} RunOnEmpty<T>(rows: seq<T>, c: Cursor, sizes: seq<nat>)
    requires |rows| == 0 && c.index == 0
    requires forall k :: 0 <= k < |sizes| ==> sizes[k] <= |rows|
    ensures Run(rows, c, sizes).1.index == 0 && Run(rows, c, sizes).1.epochs == c.epochs
    decreases |sizes|
  {
    if sizes != [] {
      RunOnEmpty(rows, Advance(c, 0, sizes[0]), sizes[1..]);
    }
  }

  /** k calls of size b with b * k == n, from a fresh data set that does not
      shuffle, return rows 0 .. n - 1 in order, each exactly once; the last
      of them leaves the index at n and the epoch count still at 0. */
  lemma OneEpochInOrder<T>(rows: seq<T>, batchSize: nat, k: nat)
    requires batchSize <= |rows| && batchSize * k == |rows|
    ensures Run(rows, Initial, Repeat(batchSize, k)).0 == rows
    ensures Run(rows, Initial, Repeat(batchSize, k)).1.index == |rows|
    ensures Run(rows, Initial, Repeat(batchSize, k)).1.epochs == 0
  {
    var n := |rows|;
    var sizes := Repeat(batchSize, k);
    SumRepeat(batchSize, k);
    if n == 0 {
      RunOnEmpty(rows, Initial, sizes);
    } else {
      RunIsCycle(rows, Initial, sizes);
      var res := Run(rows, Initial, sizes);
      CursorFromConsumed(res.1, Cursor(n, 0, 0), n);
      forall i | 0 <= i < n
        ensures res.0[i] == rows[i]
      {
        assert At(rows, 0 + i) == rows[i];
      }
    }
  }

  /** A batch that ends exactly at the end of the epoch does not wrap: the
      index is left at n and the epoch count is unchanged. */
  lemma ExactFitDoesNotWrap(c: Cursor, n: nat, batchSize: nat)
    requires c.index + batchSize == n
    ensures !Wraps(n, c.index, batchSize)
    ensures Advance(c, n, batchSize).index == n
    ensures Advance(c, n, batchSize).epochs == c.epochs
  {
  }

  /** The call after such a batch wraps with an empty tail: its rows are all
      taken from the new epoch's order, and only now does the epoch count
      go up. */
  lemma WrapAfterExactFit<T>(cur: seq<T>, next: seq<T>, c: Cursor, batchSize: nat)
    requires |next| == |cur| && c.index == |cur| && 0 < batchSize <= |cur|
    ensures Wraps(|cur|, c.index, batchSize)
    ensures TakeBatch(cur, next, c.index, batchSize) == next[..batchSize]
    ensures Advance(c, |cur|, batchSize) == Cursor(batchSize, c.epochs + 1, 1)
  {
    assert cur[|cur|..] == [];
  }

  /** One call followed by the rest of a run. */
  lemma RunCons<T>(rows: seq<T>, c: Cursor, batchSize: nat, sizes: seq<nat>)
    requires c.index <= |rows| && batchSize <= |rows|
    requires forall k :: 0 <= k < |sizes| ==> sizes[k] <= |rows|
    ensures Run(rows, c, [batchSize] + sizes)
            == (TakeBatch(rows, rows, c.index, batchSize) + Run(rows, Advance(c, |rows|, batchSize), sizes).0,
                Run(rows, Advance(c, |rows|, batchSize), sizes).1)
  {
    assert ([batchSize] + sizes)[1..] == sizes;
  }

  /** The single calls of the ten-row example below, from counters
      `c` at the start of an epoch. */
  lemma TenRowsFirstCall<T>(rows: seq<T>, c: Cursor, sizes: seq<nat>)
    requires |rows| == 10 && c.index == 0
    requires forall k :: 0 <= k < |sizes| ==> sizes[k] <= |rows|
    ensures Run(rows, c, [4] + sizes)
            == (rows[..4] + Run(rows, Cursor(4, c.epochs, c.batchNumber + 1), sizes).0,
                Run(rows, Cursor(4, c.epochs, c.batchNumber + 1), sizes).1)
  {
    RunCons(rows, c, 4, sizes);
    assert TakeBatch(rows, rows, 0, 4) == rows[..4];
  }

  lemma TenRowsSecondCall<T>(rows: seq<T>, c: Cursor)
    requires |rows| == 10 && c.index == 4
    ensures Run(rows, c, [4]) == (rows[4..8], Cursor(8, c.epochs, c.batchNumber + 1))
  {
    RunCons(rows, c, 4, []);
    assert [4] + [] == [4];
    assert TakeBatch(rows, rows, 4, 4) == rows[4..8];
    assert rows[4..8] + [] == rows[4..8];
  }

  lemma TenRowsThirdCall<T>(rows: seq<T>, c: Cursor)
    requires |rows| == 10 && c.index == 8
    ensures Run(rows, c, [4]) == (rows[8..] + rows[..2], Cursor(2, c.epochs + 1, 1))
  {
    RunCons(rows, c, 4, []);
    assert [4] + [] == [4];
    assert TakeBatch(rows, rows, 8, 4) == rows[8..] + rows[..2];
    assert rows[8..] + rows[..2] + [] == rows[8..] + rows[..2];
  }

  lemma TenRowsLastTwoCalls<T>(rows: seq<T>, c: Cursor)
    requires |rows| == 10 && c.index == 4
    ensures Run(rows, c, [4, 4]) == (rows[4..] + rows[..2], Cursor(2, c.epochs + 1, 1))
  {
    RunCons(rows, c, 4, [4]);
    assert [4] + [4] == [4, 4];
    TenRowsThirdCall(rows, Cursor(8, c.epochs, c.batchNumber + 1));
    assert rows[4..8] + (rows[8..] + rows[..2]) == rows[4..] + rows[..2];
  }

  /** Ten rows, batches of four, no shuffling, from the start of an epoch
      (a fresh data set is at `Initial`, the start of epoch 0): the first two
      calls return rows 0-3 and 4-7 and leave the index at 8; the third
      returns the tail rows 8, 9 of this epoch and the head rows 0, 1 of the
      next, and leaves the counters at (2, epochs + 1, 1). */
  lemma WraparoundExample<T>(rows: seq<T>, c: Cursor)
    requires |rows| == 10 && c.index == 0
    ensures Run(rows, c, [4, 4]) == (rows[..8], Cursor(8, c.epochs, c.batchNumber + 2))
    ensures Run(rows, c, [4, 4, 4]) == (rows + rows[..2], Cursor(2, c.epochs + 1, 1))
  {
    var c1 := Cursor(4, c.epochs, c.batchNumber + 1);
    TenRowsFirstCall(rows, c, [4]);
    TenRowsFirstCall(rows, c, [4, 4]);
    assert [4] + [4] == [4, 4] && [4] + [4, 4] == [4, 4, 4];
    TenRowsSecondCall(rows, c1);
    TenRowsLastTwoCalls(rows, c1);
    assert rows[..4] + rows[4..8] == rows[..8];
    assert rows[..4] + (rows[4..] + rows[..2]) == rows + rows[..2];
  }
}
