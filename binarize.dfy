/**
 * `binarize` (saucie_utils.py): label every point by the on/off pattern of
 * its activations. Points whose patterns agree form one group; the groups
 * are enumerated in the order of `unique_rows`, the first keeps the default
 * label 0, group k (k >= 1) gets label k, and groups smaller than `bin_min`
 * are excluded with label -1.
 *
 * Activations are modelled as reals compared with the threshold, and the
 * rescaled `bin_min` is an exact real product (Python rounds it to a
 * double, which can move it just above an integer). The order
 * of `unique_rows` comes from iterating a Python set, so it is a parameter:
 * any duplicate-free enumeration of the patterns that occur.
 */
module Binarization {

  import opened Wrappers

  /** The `bin_min` argument: an integer count, or a float that, strictly
      between 0 and 1, is a fraction of the number of points. */
  datatype BinMin = IntMin(count: int) | FloatMin(fraction: real)

  /** What `binarize` returns, with the `excluded_pts` total it reports. */
  datatype Labelling = Labelling(labels: seq<int>, excluded: nat)

  /** `bin_min` after the rescaling at the top of `binarize`: a float
      strictly between 0 and 1 becomes that fraction of the n points, every
      other value is kept. The rescaling keeps `bin_min` falsy exactly when
      it was falsy, and a rescaled fraction lies in [0, n). */
  function MinGroupSize(binMin: BinMin, n: nat): (r: real)
    ensures binMin.IntMin? ==> r == binMin.count as real
    ensures binMin.FloatMin? && !(0.0 < binMin.fraction < 1.0) ==> r == binMin.fraction
    ensures binMin.FloatMin? && 0.0 < binMin.fraction < 1.0 ==> 0.0 <= r < n as real || n == 0
    ensures n > 0 ==> (r == 0.0 <==> binMin == IntMin(0) || binMin == FloatMin(0.0))
  {
    match binMin
    case IntMin(k) => k as real
    case FloatMin(f) => if 0.0 < f < 1.0 then n as real * f else f
  }

  /** `np.where(acts > thresh, 1, 0)`: one pattern per point, with one entry
      per activation, set exactly where the activation exceeds `thresh`. */
  function Binarized(acts: seq<seq<real>>, thresh: real): (pats: seq<seq<bool>>)
    ensures |pats| == |acts|
    ensures forall i :: 0 <= i < |acts| ==> |pats[i]| == |acts[i]|
    ensures forall i, j :: 0 <= i < |acts| && 0 <= j < |acts[i]| ==> (pats[i][j] <==> acts[i][j] > thresh)
  {
    seq(|acts|, i requires 0 <= i < |acts| =>
      seq(|acts[i]|, j requires 0 <= j < |acts[i]| => acts[i][j] > thresh))
  }

  ghost predicate Distinct(unique: seq<seq<bool>>)
  {
    forall i, j :: 0 <= i < j < |unique| ==> unique[i] != unique[j]
  }

  /** `unique` lists every pattern of `pats` exactly once. */
  ghost predicate Enumerates(unique: seq<seq<bool>>, pats: seq<seq<bool>>)
  {
    Distinct(unique) && forall p :: p in unique <==> p in pats
  }

  /** Where pattern `p` stands in the enumeration. */
  function IndexOf(unique: seq<seq<bool>>, p: seq<bool>): (k: nat)
    requires p in unique
    ensures k < |unique| && unique[k] == p
    ensures forall i :: 0 <= i < k ==> unique[i] != p
  {
    if unique[0] == p then 0 else 1 + IndexOf(unique[1..], p)
  }

  /** `np.where(np.all(binarized == row, axis=1))[0]`: the points whose
      pattern is `p`, in increasing order. */
  function Matches(pats: seq<seq<bool>>, p: seq<bool>): (subs: seq<nat>)
    ensures forall t :: 0 <= t < |subs| ==> subs[t] < |pats| && pats[subs[t]] == p
    ensures forall j :: 0 <= j < |pats| && pats[j] == p ==> j in subs
    ensures forall s, t :: 0 <= s < t < |subs| ==> subs[s] < subs[t]
  {
    if pats == [] then []
    else
      var last := |pats| - 1;
      Matches(pats[..last], p) + (if pats[last] == p then [last] else [])
  }

  /** The number of points whose pattern is `p`: `len(subs)`. */
  function GroupSize(pats: seq<seq<bool>>, p: seq<bool>): nat
  {
    |Matches(pats, p)|
  }

  /** The label `binarize` gives to the group of pattern `p`. */
  function GroupLabel(pats: seq<seq<bool>>, unique: seq<seq<bool>>, minSize: real, p: seq<bool>): int
    requires p in unique
  {
    var k := IndexOf(unique, p);
    if k == 0 then 0
    else if minSize != 0.0 && (GroupSize(pats, p) as real) < minSize then -1
    else k
  }

  /** The labelling `binarize` specifies: each point gets its group's label. */
  function Labels(pats: seq<seq<bool>>, unique: seq<seq<bool>>, minSize: real): (labels: seq<int>)
    requires forall j :: 0 <= j < |pats| ==> pats[j] in unique
  {
    seq(|pats|, j requires 0 <= j < |pats| => GroupLabel(pats, unique, minSize, pats[j]))
  }

  /** How many entries of `s` equal `v`. */
  function Count(s: seq<int>, v: int): nat
  {
    if s == [] then 0 else (if s[0] == v then 1 else 0) + Count(s[1..], v)
  }

  lemma {:induction false} CountAbsent(s: seq<int>, v: int)
    requires v !in s
    ensures Count(s, v) == 0
  {
    if s != [] {
      CountAbsent(s[1..], v);
    }
  }

  /** Changing entries that were not v into entries that are not v leaves
      the count of v alone. */
  lemma {:induction false} NoNewExclusions(s: seq<int>, s': seq<int>, v: int)
    requires |s'| == |s|
    requires forall j :: 0 <= j < |s| && s'[j] != s[j] ==> s[j] != v && s'[j] != v
    ensures Count(s', v) == Count(s, v)
  {
    if s != [] {
      NoNewExclusions(s[1..], s'[1..], v);
    }
  }

  lemma {:induction false} CountUpdate(s: seq<int>, i: nat, x: int, v: int)
    requires i < |s|
    ensures Count(s[i := x], v) == Count(s, v) - (if s[i] == v then 1 else 0) + (if x == v then 1 else 0)
  {
    if i > 0 {
      CountUpdate(s[1..], i - 1, x, v);
      assert s[i := x][1..] == s[1..][i - 1 := x];
    }
  }

  /** `subs = np.where(np.all(binarized == row, axis=1))[0]`. */
  method GroupMembers(pats: seq<seq<bool>>, row: seq<bool>) returns (subs: seq<nat>)
    ensures subs == Matches(pats, row)
  {
    subs := [];
    var j := 0;
    while j < |pats|
      invariant 0 <= j <= |pats|
      invariant subs == Matches(pats[..j], row)
    {
      assert pats[..j + 1] == pats[..j] + [pats[j]];
      if pats[j] == row {
        subs := subs + [j];
      }
      j := j + 1;
    }
    assert pats[..|pats|] == pats;
  }

  /** `new_labels[subs] = v` for positions still holding the default 0:
      exactly those positions change, and the count of v grows by one per
      position. */
  method Assign(a: array<int>, subs: seq<nat>, v: int)
    requires forall t :: 0 <= t < |subs| ==> subs[t] < a.Length && a[subs[t]] == 0
    requires forall s, t :: 0 <= s < t < |subs| ==> subs[s] < subs[t]
    requires v != 0
    modifies a
    ensures forall j :: 0 <= j < a.Length ==> a[j] == if j in subs then v else old(a[j])
    ensures Count(a[..], v) == Count(old(a[..]), v) + |subs|
  {
    var t := 0;
    while t < |subs|
      invariant 0 <= t <= |subs|
      invariant forall j :: 0 <= j < a.Length ==> a[j] == if j in subs[..t] then v else old(a[j])
      invariant Count(a[..], v) == Count(old(a[..]), v) + t
    {
      assert subs[t] !in subs[..t];
      CountUpdate(a[..], subs[t], v, v);
      a[subs[t]] := v;
      t := t + 1;
    }
    assert subs[..t] == subs;
  }

  /** In a duplicate-free enumeration, entry k stands at position k. */
  lemma IndexOfEntry(unique: seq<seq<bool>>, k: nat)
    requires Distinct(unique)
    requires k < |unique|
    ensures IndexOf(unique, unique[k]) == k
  {
  }

  /** The label array after the groups before position k are labelled:
      their points hold their labels, every other point still holds 0. */
  ghost predicate LabelledUpTo(a: seq<int>, pats: seq<seq<bool>>, unique: seq<seq<bool>>, minSize: real, k: nat)
    requires forall j :: 0 <= j < |pats| ==> pats[j] in unique
  {
    && |a| == |pats|
    && forall j :: 0 <= j < |pats| ==>
         a[j] == if IndexOf(unique, pats[j]) < k then GroupLabel(pats, unique, minSize, pats[j]) else 0
  }

  /** The points of group k still hold 0 before it is labelled. */
  lemma GroupStillZero(a: seq<int>, pats: seq<seq<bool>>, unique: seq<seq<bool>>, minSize: real, k: nat)
    requires Distinct(unique) && forall j :: 0 <= j < |pats| ==> pats[j] in unique
    requires k < |unique| && LabelledUpTo(a, pats, unique, minSize, k)
    ensures forall t :: 0 <= t < |Matches(pats, unique[k])| ==> a[Matches(pats, unique[k])[t]] == 0
  {
    IndexOfEntry(unique, k);
  }

  /** A point lies in the group of `p` exactly when its pattern is `p`. */
  lemma InMatches(pats: seq<seq<bool>>, p: seq<bool>, j: nat)
    requires j < |pats|
    ensures j in Matches(pats, p) <==> pats[j] == p
  {
    var subs := Matches(pats, p);
    if j in subs {
      var t :| 0 <= t < |subs| && subs[t] == j;
    }
  }

  /** Labelling the points of group k with its label extends the labelled
      prefix of the enumeration by one. */
  lemma LabelGroupStep(a: seq<int>, a': seq<int>, pats: seq<seq<bool>>, unique: seq<seq<bool>>, minSize: real, k: nat)
    requires Distinct(unique) && forall j :: 0 <= j < |pats| ==> pats[j] in unique
    requires k < |unique| && LabelledUpTo(a, pats, unique, minSize, k)
    requires |a'| == |a|
    requires forall j :: 0 <= j < |a| ==>
               a'[j] == if j in Matches(pats, unique[k]) then GroupLabel(pats, unique, minSize, unique[k]) else a[j]
    ensures LabelledUpTo(a', pats, unique, minSize, k + 1)
  {
    IndexOfEntry(unique, k);
    forall j | 0 <= j < |pats|
      ensures a'[j] == if IndexOf(unique, pats[j]) < k + 1 then GroupLabel(pats, unique, minSize, pats[j]) else 0
    {
      InMatches(pats, unique[k], j);
      var i := IndexOf(unique, pats[j]);
      assert a[j] == if i < k then GroupLabel(pats, unique, minSize, pats[j]) else 0;
      assert pats[j] == unique[k] <==> i == k;
    }
  }

  /** One pass of the `for` loop of `binarize`, for the group at
      `unique[k]`: its points get label k, or -1 when the group is smaller
      than a non-zero `minSize`; `excludedHere` is how many points that
      excluded. */
  method LabelGroup(a: array<int>, pats: seq<seq<bool>>, unique: seq<seq<bool>>, minSize: real, k: nat)
    returns (excludedHere: nat)
    requires Distinct(unique) && forall j :: 0 <= j < |pats| ==> pats[j] in unique
    requires 1 <= k < |unique| && LabelledUpTo(a[..], pats, unique, minSize, k)
    modifies a
    ensures LabelledUpTo(a[..], pats, unique, minSize, k + 1)
    ensures Count(a[..], -1) == Count(old(a[..]), -1) + excludedHere
  {
    var row := unique[k];
    var subs := GroupMembers(pats, row);
    ghost var before := a[..];
    GroupStillZero(before, pats, unique, minSize, k);
    IndexOfEntry(unique, k);
    if minSize != 0.0 && (|subs| as real) < minSize {
      Assign(a, subs, -1);
      excludedHere := |subs|;
    } else {
      Assign(a, subs, k);
      NoNewExclusions(before, a[..], -1);
      excludedHere := 0;
    }
    LabelGroupStep(before, a[..], pats, unique, minSize, k);
  }

  /** The body of `binarize` from `np.zeros` on: every group after the
      first is labelled in enumeration order, and the points of excluded
      groups are counted. */
  method LabelGroups(pats: seq<seq<bool>>, unique: seq<seq<bool>>, minSize: real)
    returns (labels: seq<int>, excluded: nat)
    requires Distinct(unique)
    requires forall j :: 0 <= j < |pats| ==> pats[j] in unique
    ensures labels == Labels(pats, unique, minSize)
    ensures excluded == Count(labels, -1)
  {
    var newLabels := new int[|pats|](_ => 0);
    excluded := 0;
    CountAbsent(newLabels[..], -1);
    if |unique| > 1 {
      var k := 1;
      while k < |unique|
        invariant 1 <= k <= |unique|
        invariant LabelledUpTo(newLabels[..], pats, unique, minSize, k)
        invariant excluded == Count(newLabels[..], -1)
      {
        var excludedHere := LabelGroup(newLabels, pats, unique, minSize, k);
        excluded := excluded + excludedHere;
        k := k + 1;
      }
    }
    labels := newLabels[..];
  }

  /** `binarize(acts, thresh, bin_min=binMin)`, with `unique` standing for
      `unique_rows`. An empty `acts` fails in `np.vstack` (None). */
  method Binarize(acts: seq<seq<real>>, thresh: real, binMin: BinMin, unique: seq<seq<bool>>)
    returns (r: Option<Labelling>)
    requires Enumerates(unique, Binarized(acts, thresh))
    ensures r.None? <==> |acts| == 0
    ensures r.Some? ==> |r.value.labels| == |acts|
    ensures r.Some? ==> r.value.labels == Labels(Binarized(acts, thresh), unique, MinGroupSize(binMin, |acts|))
    ensures r.Some? ==> r.value.excluded == Count(r.value.labels, -1)
  {
    if |acts| == 0 {
      return None;
    }
    var minSize := MinGroupSize(binMin, |acts|);
    var pats := Binarized(acts, thresh);
    assert forall j :: 0 <= j < |pats| ==> pats[j] in unique;
    var labels, excluded := LabelGroups(pats, unique, minSize);
    r := Some(Labelling(labels, excluded));
  }

  /** Every label is -1 or the position of a group in the enumeration. */
  lemma LabelsInRange(pats: seq<seq<bool>>, unique: seq<seq<bool>>, minSize: real)
    requires forall j :: 0 <= j < |pats| ==> pats[j] in unique
    ensures forall j :: 0 <= j < |pats| ==>
              Labels(pats, unique, minSize)[j] == -1 || 0 <= Labels(pats, unique, minSize)[j] < |unique|
  {
  }

  /** With at most one distinct pattern, every point keeps label 0. */
  lemma SingleGroupAllZero(pats: seq<seq<bool>>, unique: seq<seq<bool>>, minSize: real)
    requires forall j :: 0 <= j < |pats| ==> pats[j] in unique
    requires |unique| <= 1
    ensures forall j :: 0 <= j < |pats| ==> Labels(pats, unique, minSize)[j] == 0
  {
  }

  /** The points of the first enumerated pattern keep the default label 0,
      however few they are. */
  lemma FirstGroupKeepsZero(pats: seq<seq<bool>>, unique: seq<seq<bool>>, minSize: real, j: nat)
    requires forall j :: 0 <= j < |pats| ==> pats[j] in unique
    requires j < |pats| && |unique| > 0 && pats[j] == unique[0]
    ensures Labels(pats, unique, minSize)[j] == 0
  {
  }

  /** The points of the pattern at `unique[k]`, k >= 1, get label k, or -1
      when `bin_min` is non-zero and the group has fewer points. */
  lemma GroupLabelled(pats: seq<seq<bool>>, unique: seq<seq<bool>>, minSize: real, k: nat, j: nat)
    requires Distinct(unique) && forall j :: 0 <= j < |pats| ==> pats[j] in unique
    requires 1 <= k < |unique| && j < |pats| && pats[j] == unique[k]
    ensures Labels(pats, unique, minSize)[j]
            == if minSize != 0.0 && (GroupSize(pats, unique[k]) as real) < minSize then -1 else k
  {
    IndexOfEntry(unique, k);
  }

  /** Labels are constant on groups, and a label other than -1 names one
      group: two points share it exactly when their patterns agree. */
  lemma LabelsIdentifyGroups(pats: seq<seq<bool>>, unique: seq<seq<bool>>, minSize: real, i: nat, j: nat)
    requires forall j :: 0 <= j < |pats| ==> pats[j] in unique
    requires i < |pats| && j < |pats|
    ensures pats[i] == pats[j] ==> Labels(pats, unique, minSize)[i] == Labels(pats, unique, minSize)[j]
    ensures Labels(pats, unique, minSize)[i] != -1 ==>
              (Labels(pats, unique, minSize)[i] == Labels(pats, unique, minSize)[j] <==> pats[i] == pats[j])
  {
  }

  /** A zero `bin_min` (Python's falsy value) excludes nothing. */
  lemma ZeroMinExcludesNothing(pats: seq<seq<bool>>, unique: seq<seq<bool>>)
    requires forall j :: 0 <= j < |pats| ==> pats[j] in unique
    ensures forall j :: 0 <= j < |pats| ==> Labels(pats, unique, 0.0)[j] >= 0
  {
  }

  /** A float `bin_min` f strictly between 0 and 1 is a fraction of the
      points: a group after the first is excluded exactly when it holds less
      than that fraction of them. */
  lemma FractionalMin(pats: seq<seq<bool>>, unique: seq<seq<bool>>, f: real, k: nat, j: nat)
    requires Distinct(unique) && forall j :: 0 <= j < |pats| ==> pats[j] in unique
    requires 0.0 < f < 1.0
    requires 1 <= k < |unique| && j < |pats| && pats[j] == unique[k]
    ensures Labels(pats, unique, MinGroupSize(FloatMin(f), |pats|))[j] == -1
            <==> (GroupSize(pats, unique[k]) as real) / (|pats| as real) < f
  {
    GroupLabelled(pats, unique, MinGroupSize(FloatMin(f), |pats|), k, j);
    BelowFraction(GroupSize(pats, unique[k]) as real, |pats| as real, f);
  }

  lemma BelowFraction(size: real, n: real, f: real)
    requires n > 0.0
    ensures size / n < f <==> size < n * f
  {
    var q := size / n;
    assert q * n == size;
    if q < f {
      assert q * n < f * n;
    }
    if size < n * f {
      assert q * n < f * n;
    }
  }
}
