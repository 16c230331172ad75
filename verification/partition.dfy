/**
 * The circular partition shared by `Pie` (src/pie.ts), `Wheel` (src/wheel.ts)
 * and the functional version in src/index.ts. A slice stores only its start
 * angle; it ends where its cyclic successor starts. The sequence of start
 * angles is a partition of the circle when every angle is normalised and the
 * clockwise arc lengths add up to one full turn (the starts go round the
 * circle exactly once).
 *
 * The operations are specified here as functions on values; the classes
 * that mutate a slice list in place are proved against them.
 */
module Partition {
  import opened Util

  /** A slice (src/pie.ts), a wedge (src/wheel.ts) or a spoke (src/index.ts). */
  datatype Slice = Slice(id: string, name: string, color: seq<int>, angle: real)

  // ---------------------------------------------------------------------------
  // Cyclic indices
  // ---------------------------------------------------------------------------

  /**
   * The index `c` places after `i` in a cyclic list of length `n`, for an
   * index `i < n` and an offset `c <= n`; `CycIndexIsMod` shows it is the
   * sources' `(i + c) % n`.
   */
  function CycIndex(i: nat, c: nat, n: nat): (r: nat)
    requires i < n && c <= n
    ensures r < n
  {
    if i + c < n then i + c else i + c - n
  }

  lemma CycIndexIsMod(i: nat, c: nat, n: nat)
    requires i < n && c <= n
    ensures CycIndex(i, c, n) as int == (i + c) % n
  {
  }

  /**
   * How many places after `ix + 1` the index `p` lies, cyclically: the
   * position `p` takes in a list that starts just after `ix` and leaves
   * `ix` out.
   */
  function OffsetAfter(ix: nat, p: nat, n: nat): (m: nat)
    requires ix < n && p < n && p != ix
    ensures m < n - 1
    ensures CycIndex(ix, m + 1, n) == p
  {
    CycIndex(p, n - ix - 1, n)
  }

  /** The successor index `(i + 1) % n`. */
  function Succ(i: nat, n: nat): (r: nat)
    requires i < n
    ensures r < n
  {
    CycIndex(i, 1, n)
  }

  /** The predecessor index `(i - 1) mod n`. */
  function Pred(i: nat, n: nat): (r: nat)
    requires i < n
    ensures r < n && Succ(r, n) == i
  {
    if i == 0 then n - 1 else i - 1
  }

  /** Position of the first slice with the given id, or -1 (`findIndex`). */
  function FindIndex(s: seq<Slice>, id: string): (r: int)
    ensures -1 <= r < |s|
    ensures r >= 0 ==> s[r].id == id && forall k :: 0 <= k < r ==> s[k].id != id
    ensures r < 0 <==> forall k :: 0 <= k < |s| ==> s[k].id != id
  {
    if |s| == 0 then -1
    else if s[0].id == id then 0
    else
      var r := FindIndex(s[1..], id);
      if r < 0 then -1 else r + 1
  }

  /** The ids of the slices, in order. */
  function Ids(s: seq<Slice>): (ids: seq<string>)
    ensures |ids| == |s|
  {
    seq(|s|, i requires 0 <= i < |s| => s[i].id)
  }

  /** No two slices share an id. */
  predicate DistinctIds(s: seq<Slice>) {
    var ids := Ids(s);
    forall i, j :: 0 <= i < j < |ids| ==> ids[i] != ids[j]
  }

  /** With distinct ids, two slices with the same id are the same slice. */
  lemma SameIdSameIndex(s: seq<Slice>, i: nat, j: nat)
    requires DistinctIds(s) && i < |s| && j < |s|
    ensures s[i].id == s[j].id ==> i == j
  {
    if i < j {
      assert Ids(s)[i] != Ids(s)[j];
    } else if j < i {
      assert Ids(s)[j] != Ids(s)[i];
    }
  }

  /** Ids that differ pairwise are distinct. */
  lemma DistinctByPairs(s: seq<Slice>)
    requires forall i, j :: 0 <= i < j < |s| ==> s[i].id != s[j].id
    ensures DistinctIds(s)
  {
  }

  /** A list with the same ids as a list of distinct ids has distinct ids. */
  lemma SameIdsDistinct(s: seq<Slice>, r: seq<Slice>)
    requires DistinctIds(s) && Ids(r) == Ids(s)
    ensures DistinctIds(r)
  {
  }

  /** With distinct ids, `findIndex` of a slice's id finds that slice. */
  lemma FindDistinct(s: seq<Slice>, i: nat)
    requires DistinctIds(s) && i < |s|
    ensures FindIndex(s, s[i].id) == i
  {
    SameIdSameIndex(s, FindIndex(s, s[i].id), i);
  }

  // ---------------------------------------------------------------------------
  // Arc lengths and partitions
  // ---------------------------------------------------------------------------

  function Angles(s: seq<Slice>): (a: seq<real>)
    ensures |a| == |s|
    ensures forall i :: 0 <= i < |s| ==> a[i] == s[i].angle
  {
    seq(|s|, i requires 0 <= i < |s| => s[i].angle)
  }

  predicate AllAngles(a: seq<real>) {
    forall i :: 0 <= i < |a| ==> IsAngle(a[i])
  }

  /**
   * `sliceArcLengths` / `wedgeArcLengths`: entry `i` is the clockwise length
   * from start `i` to the start of its cyclic successor.
   */
  function ArcLengths(a: seq<real>): (lens: seq<real>)
    ensures |lens| == |a|
    ensures AllAngles(a) ==> forall i :: 0 <= i < |a| ==> 0.0 < lens[i] <= TWO_PI
  {
    seq(|a|, i requires 0 <= i < |a| => ArcLength(a[i], a[Succ(i, |a|)]))
  }

  /** The starts go round the circle exactly once. */
  predicate IsPartition(a: seq<real>) {
    |a| >= 1 && AllAngles(a) && Sum(ArcLengths(a)) == TWO_PI
  }

  /** Positive lengths of at most a full turn that add up to one full turn. */
  predicate FullTurn(lens: seq<real>) {
    |lens| >= 1 && (forall k :: 0 <= k < |lens| ==> 0.0 < lens[k] <= TWO_PI) && Sum(lens) == TWO_PI
  }

  /** With two or more slices in a partition no single slice spans the whole circle. */
  lemma ArcBelowFullTurn(lens: seq<real>, i: nat)
    requires FullTurn(lens) && |lens| >= 2 && i < |lens|
    ensures lens[i] < TWO_PI
  {
    var j := Succ(i, |lens|);
    SumUpdate(lens, i, 0.0);
    SumNonNeg(lens[i := 0.0]);
    SumPositiveElement(lens[i := 0.0], j);
  }

  // ---------------------------------------------------------------------------
  // Sums
  // ---------------------------------------------------------------------------

  lemma SumPrefixStep(xs: seq<real>, i: nat)
    requires i < |xs|
    ensures Sum(xs[..i + 1]) == Sum(xs[..i]) + xs[i]
  {
    assert xs[..i + 1][..i] == xs[..i];
  }

  lemma {:induction false} SumAppend(a: seq<real>, b: seq<real>)
    ensures Sum(a + b) == Sum(a) + Sum(b)
    decreases |b|
  {
    if |b| > 0 {
      assert (a + b)[..|a + b| - 1] == a + b[..|b| - 1];
      SumAppend(a, b[..|b| - 1]);
    } else {
      assert a + b == a;
    }
  }

  lemma SumSplit(xs: seq<real>, i: nat)
    requires i <= |xs|
    ensures Sum(xs) == Sum(xs[..i]) + Sum(xs[i..])
  {
    assert xs == xs[..i] + xs[i..];
    SumAppend(xs[..i], xs[i..]);
  }

  lemma {:induction false} SumNonNeg(xs: seq<real>)
    requires forall k :: 0 <= k < |xs| ==> xs[k] >= 0.0
    ensures Sum(xs) >= 0.0
    decreases |xs|
  {
    if |xs| > 0 {
      SumNonNeg(xs[..|xs| - 1]);
    }
  }

  /** A non-negative sum is at least each of its elements. */
  lemma SumPositiveElement(xs: seq<real>, i: nat)
    requires forall k :: 0 <= k < |xs| ==> xs[k] >= 0.0
    requires i < |xs|
    ensures Sum(xs) >= xs[i]
  {
    SumSplit(xs, i);
    SumNonNeg(xs[..i]);
    assert xs[i..] == [xs[i]] + xs[i + 1..];
    SumAppend([xs[i]], xs[i + 1..]);
    SumNonNeg(xs[i + 1..]);
    assert Sum([xs[i]]) == xs[i] by {
      assert [xs[i]][..0] == [];
    }
  }

  /** With positive terms every proper prefix sum is below the total by at least the next term. */
  lemma PrefixBelowTotal(xs: seq<real>, i: nat)
    requires forall k :: 0 <= k < |xs| ==> xs[k] > 0.0
    requires i < |xs|
    ensures 0.0 <= Sum(xs[..i]) && Sum(xs[..i]) + xs[i] <= Sum(xs)
  {
    SumNonNeg(xs[..i]);
    SumPrefixStep(xs, i);
    SumSplit(xs, i + 1);
    SumNonNeg(xs[i + 1..]);
  }

  lemma {:induction false} SumUpdate(xs: seq<real>, i: nat, v: real)
    requires i < |xs|
    ensures Sum(xs[i := v]) == Sum(xs) - xs[i] + v
  {
    SumSplit(xs, i);
    SumSplit(xs[i := v], i);
    assert xs[i := v][..i] == xs[..i];
    assert xs[i..] == [xs[i]] + xs[i + 1..];
    assert xs[i := v][i..] == [v] + xs[i + 1..];
    SumAppend([xs[i]], xs[i + 1..]);
    SumAppend([v], xs[i + 1..]);
    assert [v][..0] == [] && [xs[i]][..0] == [];
  }

  function Scaled(xs: seq<real>, c: real): (ys: seq<real>)
    ensures |ys| == |xs|
    ensures forall k :: 0 <= k < |xs| ==> ys[k] == xs[k] * c
  {
    seq(|xs|, k requires 0 <= k < |xs| => xs[k] * c)
  }

  lemma {:induction false} SumScaled(xs: seq<real>, c: real)
    ensures Sum(Scaled(xs, c)) == Sum(xs) * c
    decreases |xs|
  {
    if |xs| > 0 {
      var m := |xs| - 1;
      forall k | 0 <= k < m
        ensures Scaled(xs, c)[..m][k] == Scaled(xs[..m], c)[k]
      {
        assert xs[..m][k] == xs[k];
      }
      assert Scaled(xs, c)[..m] == Scaled(xs[..m], c);
      SumScaled(xs[..m], c);
      MulDistrib(Sum(xs[..m]), xs[m], c);
    }
  }

  lemma MulDistrib(x: real, y: real, c: real)
    ensures (x + y) * c == x * c + y * c
  {
  }

  // ---------------------------------------------------------------------------
  // Layout walks
  // ---------------------------------------------------------------------------

  /**
   * The starts obtained by walking clockwise from `a0` with the lengths
   * `lens`, each start normalised.
   */
  function Walk(a0: real, lens: seq<real>): (a: seq<real>)
    ensures |a| == |lens|
    ensures AllAngles(a)
  {
    seq(|lens|, i requires 0 <= i < |lens| => Mod(a0 + Sum(lens[..i]), TWO_PI))
  }

  lemma WalkNext(a0: real, lens: seq<real>, i: nat)
    requires i + 1 < |lens|
    ensures Walk(a0, lens)[i + 1] == Mod(Walk(a0, lens)[i] + lens[i], TWO_PI)
  {
    SumPrefixStep(lens, i);
    ModAddMod(a0 + Sum(lens[..i]), lens[i]);
  }

  lemma WalkWrap(a0: real, lens: seq<real>)
    requires FullTurn(lens)
    ensures Walk(a0, lens)[0] == Mod(Walk(a0, lens)[|lens| - 1] + lens[|lens| - 1], TWO_PI)
  {
    var m := |lens| - 1;
    SumPrefixStep(lens, m);
    assert lens[..m + 1] == lens;
    assert lens[..0] == [];
    ModAddMod(a0 + Sum(lens[..m]), lens[m]);
    ModShift(a0, 1);
  }

  lemma WalkStep(a0: real, lens: seq<real>, i: nat)
    requires FullTurn(lens) && i < |lens|
    ensures ArcLength(Walk(a0, lens)[i], Walk(a0, lens)[Succ(i, |lens|)]) == lens[i]
  {
    var w := Walk(a0, lens);
    if i + 1 == |lens| {
      WalkWrap(a0, lens);
    } else {
      WalkNext(a0, lens, i);
    }
    ArcLengthOfStep(w[i], lens[i]);
  }

  /** Walking with lengths that make one full turn yields a partition with exactly those lengths. */
  lemma WalkArcLengths(starts: seq<real>, a0: real, lens: seq<real>)
    requires FullTurn(lens) && starts == Walk(a0, lens)
    ensures ArcLengths(starts) == lens
    ensures IsPartition(starts)
  {
    var w := Walk(a0, lens);
    forall i | 0 <= i < |lens|
      ensures ArcLengths(w)[i] == lens[i]
    {
      WalkStep(a0, lens, i);
    }
    assert ArcLengths(w) == lens;
  }

  lemma {:induction false} StartsFollowArcLengths(a: seq<real>, i: nat)
    requires AllAngles(a) && i < |a|
    ensures a[i] == Mod(a[0] + Sum(ArcLengths(a)[..i]), TWO_PI)
    decreases i
  {
    var lens := ArcLengths(a);
    if i == 0 {
      assert lens[..0] == [];
      ModOfAngle(a[0]);
    } else {
      StartsFollowArcLengths(a, i - 1);
      SumPrefixStep(lens, i - 1);
      ModAddMod(a[0] + Sum(lens[..i - 1]), lens[i - 1]);
    }
  }

  /** Normalised starts are recovered by walking their own arc lengths from the first start. */
  lemma StartsAreWalk(a: seq<real>)
    requires AllAngles(a) && |a| >= 1
    ensures a == Walk(a[0], ArcLengths(a))
  {
    forall i | 0 <= i < |a|
      ensures a[i] == Walk(a[0], ArcLengths(a))[i]
    {
      StartsFollowArcLengths(a, i);
    }
  }

  lemma PartitionIsFullTurn(a: seq<real>)
    requires IsPartition(a)
    ensures FullTurn(ArcLengths(a))
  {
  }

  // ---------------------------------------------------------------------------
  // Rotations
  // ---------------------------------------------------------------------------

  /** The same cyclic sequence read from position `k`. */
  function Rotate<T>(xs: seq<T>, k: nat): (ys: seq<T>)
    requires k < |xs|
    ensures |ys| == |xs|
    ensures forall p :: 0 <= p < |xs| ==> ys[p] == xs[CycIndex(k, p, |xs|)]
  {
    xs[k..] + xs[..k]
  }

  lemma ArcLengthsRotate(a: seq<real>, k: nat)
    requires k < |a|
    ensures ArcLengths(Rotate(a, k)) == Rotate(ArcLengths(a), k)
  {
    var n := |a|;
    forall p | 0 <= p < n
      ensures ArcLengths(Rotate(a, k))[p] == Rotate(ArcLengths(a), k)[p]
    {
      assert CycIndex(k, Succ(p, n), n) == Succ(CycIndex(k, p, n), n);
    }
  }

  lemma SumRotate(xs: seq<real>, k: nat)
    requires k < |xs|
    ensures Sum(Rotate(xs, k)) == Sum(xs)
  {
    SumAppend(xs[k..], xs[..k]);
    SumSplit(xs, k);
  }

  /** A partition read from any slice is still a partition. */
  lemma RotatePartition(a: seq<real>, k: nat)
    requires IsPartition(a) && k < |a|
    ensures IsPartition(Rotate(a, k))
    ensures ArcLengths(Rotate(a, k)) == Rotate(ArcLengths(a), k)
  {
    ArcLengthsRotate(a, k);
    SumRotate(ArcLengths(a), k);
  }
}
