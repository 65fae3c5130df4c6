/**
 * Row permutations as `DataSet._shuffle_data` uses them: an index vector
 * `shuffled_idx` that rearranges `np.arange(n)`, applied to a matrix by
 * fancy indexing (`self._data[shuffled_idx]`).
 */
module Permutations {

  /** The index vector `np.arange(n)`: 0, 1, ..., n - 1. */
  function Range(n: nat): (r: seq<nat>)
    ensures |r| == n && forall i :: 0 <= i < n ==> r[i] == i
  {
    seq(n, i => i)
  }

  /** `p` is what `np.random.shuffle(np.arange(n))` can leave behind: a
      rearrangement of the indices 0 .. n - 1. */
  ghost predicate IsPermutation(p: seq<nat>, n: nat)
  {
    multiset(p) == multiset(Range(n))
  }

  /** A permutation of [0, n) has n entries, each a valid row index. */
  lemma PermutationBounds(p: seq<nat>, n: nat)
    requires IsPermutation(p, n)
    ensures |p| == n
    ensures forall i :: 0 <= i < |p| ==> p[i] < n
  {
    assert |multiset(p)| == |p|;
    assert |multiset(Range(n))| == n;
    forall i | 0 <= i < |p|
      ensures p[i] < n
    {
      assert p[i] in multiset(p);
      assert p[i] in Range(n);
    }
  }

  /** `s[p]`: row i of the result is row p[i] of `s`. */
  function Permute<T>(s: seq<T>, p: seq<nat>): (r: seq<T>)
    requires IsPermutation(p, |s|)
    ensures |r| == |s|
  {
    PermutationBounds(p, |s|);
    seq(|p|, i requires 0 <= i < |p| => s[p[i]])
  }

  /** Rows paired with their labels, position by position. */
  function Zip<A, B>(a: seq<A>, b: seq<B>): (r: seq<(A, B)>)
    requires |a| == |b|
  {
    seq(|a|, i requires 0 <= i < |a| => (a[i], b[i]))
  }

  lemma RangeSnoc(n: nat)
    requires n > 0
    ensures Range(n) == Range(n - 1) + [n - 1]
  {
  }

  /** Removing the entry that holds the last index m from a permutation of
      [0, m + 1) leaves a permutation of [0, m). */
  lemma DropLastIndex(p: seq<nat>, m: nat, j: nat)
    requires IsPermutation(p, m + 1)
    requires j < |p| && p[j] == m
    ensures IsPermutation(p[..j] + p[j + 1..], m)
  {
    var p': seq<nat> := p[..j] + p[j + 1..];
    assert p == p[..j] + [p[j]] + p[j + 1..];
    assert multiset(p) == multiset(p') + multiset{m};
    RangeSnoc(m + 1);
    assert multiset(Range(m + 1)) == multiset(Range(m)) + multiset{m};
    forall x: nat
      ensures multiset(p')[x] == multiset(Range(m))[x]
    {
      assert multiset(p)[x] == multiset(p')[x] + multiset{m}[x];
    }
    assert multiset(p') == multiset(Range(m));
  }

  /** Where the last row of `s` lands under `p`, and what the other rows
      form once it is taken out. */
  lemma PermuteSplit<T>(s: seq<T>, p: seq<nat>, j: nat)
    requires |s| > 0
    requires IsPermutation(p, |s|)
    requires j < |p| && p[j] == |s| - 1
    ensures IsPermutation(p[..j] + p[j + 1..], |s| - 1)
    ensures Permute(s, p) == Permute(s[..|s| - 1], p[..j] + p[j + 1..]) [..j] + [s[|s| - 1]]
                             + Permute(s[..|s| - 1], p[..j] + p[j + 1..])[j..]
  {
    var m := |s| - 1;
    var p': seq<nat> := p[..j] + p[j + 1..];
    DropLastIndex(p, m, j);
    PermutationBounds(p, |s|);
    PermutationBounds(p', m);
    var r, r' := Permute(s, p), Permute(s[..m], p');
    assert r == r'[..j] + [s[m]] + r'[j..];
  }

  /** Shuffling rearranges rows: it neither loses nor duplicates one. */
  lemma {:induction false} PermutePreservesMultiset<T>(s: seq<T>, p: seq<nat>)
    requires IsPermutation(p, |s|)
    ensures multiset(Permute(s, p)) == multiset(s)
  {
    PermutationBounds(p, |s|);
    if |s| == 0 {
      assert p == [];
    } else {
      var m: nat := |s| - 1;
      assert Range(|s|)[m] == m;
      assert m in multiset(p);
      var j :| 0 <= j < |p| && p[j] == m;
      var p': seq<nat> := p[..j] + p[j + 1..];
      PermuteSplit(s, p, j);
      PermutePreservesMultiset(s[..m], p');
      var r' := Permute(s[..m], p');
      assert r' == r'[..j] + r'[j..];
      assert s == s[..m] + [s[m]];
    }
  }

  /** Shuffling data and labels with one index vector keeps every row with
      its own label. */
  lemma PermuteZip<A, B>(a: seq<A>, b: seq<B>, p: seq<nat>)
    requires |a| == |b|
    requires IsPermutation(p, |a|)
    ensures Permute(Zip(a, b), p) == Zip(Permute(a, p), Permute(b, p))
  {
    PermutationBounds(p, |a|);
  }

  /** Consequently the (row, label) pairs after the shuffle are the pairs
      before it, each as often as before. */
  lemma PermutePreservesPairs<A, B>(a: seq<A>, b: seq<B>, p: seq<nat>)
    requires |a| == |b|
    requires IsPermutation(p, |a|)
    ensures multiset(Zip(Permute(a, p), Permute(b, p))) == multiset(Zip(a, b))
  {
    PermuteZip(a, b, p);
    PermutePreservesMultiset(Zip(a, b), p);
  }

  /** The identity index vector is a permutation, so a shuffle is always
      possible. */
  lemma RangeIsPermutation(n: nat)
    ensures IsPermutation(Range(n), n)
  {
  }
}
