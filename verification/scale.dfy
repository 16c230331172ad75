/**
 * Resizing one slice (`scaleSlice` of src/pie.ts): the slice gets the new
 * length, centred on its old midpoint, and the other slices share what is
 * left in the proportions they had, laid out one after the other from the
 * slice's new end.
 *
 * The facts below are stated with small named functions (`Advance`,
 * `StartAround`, `ShareOf`) rather than with the arithmetic
 * they stand for, so that each lemma's conclusion can be used as it is.
 */
module Scale {
  import opened Util
  import opened Partition
  import opened Layout

  /** The angle reached from `a` after turning clockwise by `d`, reduced to [0, 2π). */
  function Advance(a: real, d: real): (r: real)
    ensures IsAngle(r)
  {
    Mod(a + d, TWO_PI)
  }

  /**
   * The midpoint of the arc of length `len` that starts at `start`:
   * `mod(start + len / 2)`. The same step from a midpoint gives the end of
   * the arc of length `len` centred on it.
   */
  function ArcMidpoint(start: real, len: real): (mid: real)
    ensures IsAngle(mid)
  {
    Advance(start, len * 0.5)
  }

  /** The start of the arc of length `size` centred on `mid`: `mod(mid - size / 2)`. */
  function StartAround(mid: real, size: real): (r: real)
    ensures IsAngle(r)
  {
    Advance(mid, -(size * 0.5))
  }

  /** The old midpoint of slice `i`. */
  function Midpoint(s: seq<Slice>, i: nat): (mid: real)
    requires i < |s|
    ensures IsAngle(mid)
  {
    ArcMidpoint(Angles(s)[i], ArcLengths(Angles(s))[i])
  }

  /** A length's share of what the new size leaves: `(len / og_rest_len) * rest_len`. */
  function ShareOf(len: real, oldLen: real, size: real): real
    requires oldLen != TWO_PI
  {
    (len / (TWO_PI - oldLen)) * (TWO_PI - size)
  }

  /** The first `k` entries of `xs` added up one after the other, as the source's `last` accumulates them. */
  function RunningSum(xs: seq<real>, k: nat): real
    requires k <= |xs|
  {
    if k == 0 then 0.0 else RunningSum(xs, k - 1) + xs[k - 1]
  }

  lemma {:induction false} RunningSumIsSum(xs: seq<real>, k: nat)
    requires k <= |xs|
    ensures RunningSum(xs, k) == Sum(xs[..k])
  {
    if k == 0 {
      assert xs[..0] == [];
    } else {
      RunningSumIsSum(xs, k - 1);
      SumPrefixStep(xs, k - 1);
    }
  }

  /**
   * Slice `i` starts at `first`; the slice `m + 1` places after it starts at
   * `last` plus the first `m` of `steps`, reduced. Only angles change.
   */
  function Placed(s: seq<Slice>, i: nat, first: real, last: real, steps: seq<real>): (r: seq<Slice>)
    requires i < |s| && |steps| == |s| - 1
    ensures |r| == |s|
    ensures forall p {:trigger r[p]} :: 0 <= p < |s| ==> r[p] == s[p].(angle := r[p].angle)
  {
    seq(|s|, p requires 0 <= p < |s| =>
      if p == i then s[p].(angle := first)
      else s[p].(angle := Advance(last, RunningSum(steps, OffsetAfter(i, p, |s|)))))
  }

  /** The other slices' new lengths, listed from the successor of `i`. */
  function Rescaled(lens: seq<real>, i: nat, size: real): (steps: seq<real>)
    requires i < |lens| && lens[i] != TWO_PI
    ensures |steps| == |lens| - 1
  {
    Ratios(Survivors(lens, i), TWO_PI - lens[i], TWO_PI - size)
  }

  /**
   * The list after `scaleSlice` of the slice at `i` to `size`: it starts half
   * the size before its old midpoint and ends half the size after it; the
   * others follow from that end with their rescaled lengths. With a single
   * slice there are no others.
   */
  function ScaleLayout(s: seq<Slice>, i: nat, size: real): (r: seq<Slice>)
    requires i < |s|
    requires |s| == 1 || ArcLengths(Angles(s))[i] != TWO_PI
    ensures |r| == |s|
    ensures forall p {:trigger r[p]} :: 0 <= p < |s| ==> r[p] == s[p].(angle := r[p].angle)
  {
    var mid := Midpoint(s, i);
    var steps := if |s| == 1 then [] else Rescaled(ArcLengths(Angles(s)), i, size);
    Placed(s, i, StartAround(mid, size), ArcMidpoint(mid, size), steps)
  }

  // ---------------------------------------------------------------------------
  // The scaled slice keeps its midpoint
  // ---------------------------------------------------------------------------

  /** The scaled slice starts half the new size before its old midpoint. */
  lemma ScaledStart(s: seq<Slice>, i: nat, size: real)
    requires i < |s|
    requires |s| == 1 || ArcLengths(Angles(s))[i] != TWO_PI
    ensures ScaleLayout(s, i, size)[i].angle == StartAround(Midpoint(s, i), size)
  {
  }

  /** The scaled slice, of its new length `size`, has the old midpoint as its midpoint. */
  lemma ScaleKeepsMidpoint(s: seq<Slice>, i: nat, size: real)
    requires i < |s|
    requires |s| == 1 || ArcLengths(Angles(s))[i] != TWO_PI
    ensures ArcMidpoint(ScaleLayout(s, i, size)[i].angle, size) == Midpoint(s, i)
  {
    ScaledStart(s, i, size);
    MidpointOfCentred(Midpoint(s, i), size);
  }

  /** Turning by `d` and then by `e` is turning by `d + e`. */
  lemma AdvanceTwice(a: real, d: real, e: real)
    ensures Advance(Advance(a, d), e) == Advance(a, d + e)
  {
    ModAddMod(a + d, e);
    assert a + d + e == a + (d + e);
  }

  /** An angle advanced by nothing is itself. */
  lemma AdvanceByZero(a: real)
    requires IsAngle(a)
    ensures Advance(a, 0.0) == a
  {
    ModOfAngle(a);
  }

  /** The arc of length `size` centred on an angle `mid` has `mid` as its midpoint. */
  lemma MidpointOfCentred(mid: real, size: real)
    requires IsAngle(mid)
    ensures ArcMidpoint(StartAround(mid, size), size) == mid
  {
    AdvanceTwice(mid, -(size * 0.5), size * 0.5);
    assert -(size * 0.5) + size * 0.5 == 0.0;
    AdvanceByZero(mid);
  }

  /** The end of an arc centred on `mid` is its start advanced by its length. */
  lemma EndAfterStart(mid: real, size: real)
    ensures ArcMidpoint(mid, size) == Advance(StartAround(mid, size), size)
  {
    AdvanceTwice(mid, -(size * 0.5), size);
    assert -(size * 0.5) + size == size * 0.5;
  }

  // ---------------------------------------------------------------------------
  // The new arc lengths
  // ---------------------------------------------------------------------------

  /**
   * In a partition of two or more slices, scaling slice `i` to a size
   * strictly between 0 and 2π keeps a partition, gives slice `i` exactly
   * `size`, and gives every other slice its `ShareOf` what is left:
   * its old length times (2π − size) / (2π − old length of `i`).
   */
  lemma ScaleArcLengths(s: seq<Slice>, i: nat, size: real)
    requires IsPartition(Angles(s)) && |s| >= 2 && i < |s|
    requires 0.0 < size < TWO_PI
    ensures ArcLengths(Angles(s))[i] < TWO_PI
    ensures IsPartition(Angles(ScaleLayout(s, i, size)))
    ensures ArcLengths(Angles(ScaleLayout(s, i, size)))[i] == size
    ensures forall p :: 0 <= p < |s| && p != i ==>
      ArcLengths(Angles(ScaleLayout(s, i, size)))[p] ==
        ShareOf(ArcLengths(Angles(s))[p], ArcLengths(Angles(s))[i], size)
  {
    var lens := ArcLengths(Angles(s));
    var mid := Midpoint(s, i);
    PartitionIsFullTurn(Angles(s));
    RescaledShares(lens, i, size);
    RescaledAt(lens, i, size);
    EndAfterStart(mid, size);
    PlacedShares(s, i, size, StartAround(mid, size), ArcMidpoint(mid, size), Rescaled(lens, i, size), lens);
    ScaleIsPlaced(s, i, size);
  }

  lemma ScaleIsPlaced(s: seq<Slice>, i: nat, size: real)
    requires |s| >= 2 && i < |s| && ArcLengths(Angles(s))[i] != TWO_PI
    ensures ScaleLayout(s, i, size) ==
      Placed(s, i, StartAround(Midpoint(s, i), size), ArcMidpoint(Midpoint(s, i), size), Rescaled(ArcLengths(Angles(s)), i, size))
  {
  }

  /** The rescaled lengths are positive, at most 2π, and fill what the new size leaves of the circle. */
  lemma RescaledShares(lens: seq<real>, i: nat, size: real)
    requires FullTurn(lens) && |lens| >= 2 && i < |lens|
    requires 0.0 < size < TWO_PI
    ensures lens[i] < TWO_PI
    ensures Sum(Rescaled(lens, i, size)) == TWO_PI - size
    ensures forall m :: 0 <= m < |Rescaled(lens, i, size)| ==> 0.0 < Rescaled(lens, i, size)[m] <= TWO_PI
  {
    SharesOfRest(lens, i, TWO_PI - size);
  }

  /** The rescaled length listed for slice `p` is its share. */
  lemma RescaledAt(lens: seq<real>, i: nat, size: real)
    requires i < |lens| && lens[i] != TWO_PI
    ensures forall p :: 0 <= p < |lens| && p != i ==>
      Rescaled(lens, i, size)[OffsetAfter(i, p, |lens|)] == ShareOf(lens[p], lens[i], size)
  {
    forall p | 0 <= p < |lens| && p != i
      ensures Rescaled(lens, i, size)[OffsetAfter(i, p, |lens|)] == ShareOf(lens[p], lens[i], size)
    {
      assert Survivors(lens, i)[OffsetAfter(i, p, |lens|)] == lens[p];
    }
  }

  /**
   * `PlacedArcLengths` for steps that are the shares of the other lengths:
   * every slice other than `i` gets its share.
   */
  lemma PlacedShares(s: seq<Slice>, i: nat, size: real, first: real, last: real, steps: seq<real>, lens: seq<real>)
    requires |s| >= 2 && i < |s| && |steps| == |s| - 1 && |lens| == |s| && lens[i] != TWO_PI
    requires IsAngle(first) && 0.0 < size <= TWO_PI && last == Advance(first, size)
    requires forall m :: 0 <= m < |steps| ==> 0.0 < steps[m] <= TWO_PI
    requires Sum(steps) == TWO_PI - size
    requires forall p :: 0 <= p < |lens| && p != i ==> steps[OffsetAfter(i, p, |lens|)] == ShareOf(lens[p], lens[i], size)
    ensures IsPartition(Angles(Placed(s, i, first, last, steps)))
    ensures ArcLengths(Angles(Placed(s, i, first, last, steps)))[i] == size
    ensures forall p :: 0 <= p < |s| && p != i ==>
      ArcLengths(Angles(Placed(s, i, first, last, steps)))[p] == ShareOf(lens[p], lens[i], size)
  {
    PlacedArcLengths(s, i, first, size, last, steps);
  }

  /**
   * Placing the others after an end `size` past `first`, with lengths that
   * make up the rest of the circle, yields a partition with `size` at `i`
   * and the `m`-th step at the slice `m + 1` places after `i`.
   */
  lemma PlacedArcLengths(s: seq<Slice>, i: nat, first: real, size: real, last: real, steps: seq<real>)
    requires |s| >= 2 && i < |s| && |steps| == |s| - 1
    requires IsAngle(first) && 0.0 < size <= TWO_PI && last == Advance(first, size)
    requires forall m :: 0 <= m < |steps| ==> 0.0 < steps[m] <= TWO_PI
    requires Sum(steps) == TWO_PI - size
    ensures IsPartition(Angles(Placed(s, i, first, last, steps)))
    ensures ArcLengths(Angles(Placed(s, i, first, last, steps)))[i] == size
    ensures forall p :: 0 <= p < |s| && p != i ==>
      ArcLengths(Angles(Placed(s, i, first, last, steps)))[p] == steps[OffsetAfter(i, p, |s|)]
  {
    var a := Angles(Placed(s, i, first, last, steps));
    PlacedAngles(s, i, first, last, steps);
    RunningSumIsSum(steps, |steps|);
    assert steps[..|steps|] == steps;
    PlacedEachArc(s, i, first, size, last, steps);
    LengthsAfter(ArcLengths(a), i, size, steps);
  }

  lemma PlacedEachArc(s: seq<Slice>, i: nat, first: real, size: real, last: real, steps: seq<real>)
    requires |s| >= 2 && i < |s| && |steps| == |s| - 1
    requires IsAngle(first) && 0.0 < size <= TWO_PI && last == Advance(first, size)
    requires forall m :: 0 <= m < |steps| ==> 0.0 < steps[m] <= TWO_PI
    requires RunningSum(steps, |steps|) == TWO_PI - size
    ensures ArcLengths(Angles(Placed(s, i, first, last, steps)))[i] == size
    ensures forall p :: 0 <= p < |s| && p != i ==>
      ArcLengths(Angles(Placed(s, i, first, last, steps)))[p] == steps[OffsetAfter(i, p, |s|)]
  {
    PlacedArcAtTarget(s, i, first, size, last, steps);
    forall p | 0 <= p < |s| && p != i
      ensures ArcLengths(Angles(Placed(s, i, first, last, steps)))[p] == steps[OffsetAfter(i, p, |s|)]
    {
      PlacedArcOf(s, i, first, size, last, steps, p);
    }
  }

  /** Lengths that hold `size` at `i` and the steps after it add up to `size` plus the steps. */
  lemma LengthsAfter(xs: seq<real>, i: nat, size: real, steps: seq<real>)
    requires i < |xs| && |steps| == |xs| - 1
    requires xs[i] == size
    requires forall p :: 0 <= p < |xs| && p != i ==> xs[p] == steps[OffsetAfter(i, p, |xs|)]
    ensures Sum(xs) == size + Sum(steps)
  {
    forall m | 0 <= m < |steps|
      ensures Survivors(xs, i)[m] == steps[m]
    {
      OffsetOfCycIndex(i, m, |xs|);
    }
    assert Survivors(xs, i) == steps;
    SurvivorsSum(xs, i);
  }

  /** Every placed start is an angle. */
  lemma PlacedAngles(s: seq<Slice>, i: nat, first: real, last: real, steps: seq<real>)
    requires i < |s| && |steps| == |s| - 1 && IsAngle(first)
    ensures AllAngles(Angles(Placed(s, i, first, last, steps)))
  {
  }

  /** The position `m + 1` places after `i` is at offset `m` in the list that starts after `i`. */
  lemma OffsetOfCycIndex(i: nat, m: nat, n: nat)
    requires i < n && m + 1 < n
    ensures CycIndex(i, m + 1, n) != i && OffsetAfter(i, CycIndex(i, m + 1, n), n) == m
  {
  }

  lemma PlacedArcAtTarget(s: seq<Slice>, i: nat, first: real, size: real, last: real, steps: seq<real>)
    requires |s| >= 2 && i < |s| && |steps| == |s| - 1
    requires IsAngle(first) && 0.0 < size <= TWO_PI && last == Advance(first, size)
    ensures ArcLengths(Angles(Placed(s, i, first, last, steps)))[i] == size
  {
    var n := |s|;
    OffsetOfCycIndex(i, 0, n);
    AdvanceByZero(last);
    ArcFromStarts(Angles(Placed(s, i, first, last, steps)), i, first, size);
  }

  /** The start of the slice `m + 1` places after `i`; with `m == n - 1` that is `i` itself. */
  lemma PlacedStart(s: seq<Slice>, i: nat, first: real, last: real, steps: seq<real>, m: nat)
    requires i < |s| && |steps| == |s| - 1 && m <= |steps|
    ensures Placed(s, i, first, last, steps)[CycIndex(i, m + 1, |s|)].angle ==
      if m == |steps| then first else Advance(last, RunningSum(steps, m))
  {
    if m < |steps| {
      OffsetOfCycIndex(i, m, |s|);
    }
  }

  /** A slice `p` other than `i` gets the step at its offset after `i` as its length. */
  lemma PlacedArcOf(s: seq<Slice>, i: nat, first: real, size: real, last: real, steps: seq<real>, p: nat)
    requires |s| >= 2 && i < |s| && |steps| == |s| - 1 && p < |s| && p != i
    requires IsAngle(first) && last == Advance(first, size)
    requires forall k :: 0 <= k < |steps| ==> 0.0 < steps[k] <= TWO_PI
    requires RunningSum(steps, |steps|) == TWO_PI - size
    ensures ArcLengths(Angles(Placed(s, i, first, last, steps)))[p] == steps[OffsetAfter(i, p, |s|)]
  {
    PlacedArcAt(s, i, first, size, last, steps, OffsetAfter(i, p, |s|));
  }

  /** The slice `m + 1` places after `i` (for `m < n - 1`) gets the `m`-th step as its length. */
  lemma PlacedArcAt(s: seq<Slice>, i: nat, first: real, size: real, last: real, steps: seq<real>, m: nat)
    requires |s| >= 2 && i < |s| && |steps| == |s| - 1 && m < |steps|
    requires IsAngle(first) && last == Advance(first, size)
    requires forall k :: 0 <= k < |steps| ==> 0.0 < steps[k] <= TWO_PI
    requires RunningSum(steps, |steps|) == TWO_PI - size
    ensures ArcLengths(Angles(Placed(s, i, first, last, steps)))[CycIndex(i, m + 1, |s|)] == steps[m]
  {
    var n := |s|;
    var q := CycIndex(i, m + 1, n);
    PlacedStart(s, i, first, last, steps, m);
    PlacedStart(s, i, first, last, steps, m + 1);
    assert Succ(q, n) == CycIndex(i, m + 1 + 1, n);
    NextStart(first, size, last, steps, m);
    ArcFromStarts(Angles(Placed(s, i, first, last, steps)), q, Advance(last, RunningSum(steps, m)), steps[m]);
  }

  /** A start followed by the start one step on has that step as its arc length. */
  lemma ArcFromStarts(a: seq<real>, q: nat, start: real, step: real)
    requires q < |a| && IsAngle(start) && 0.0 < step <= TWO_PI
    requires a[q] == start && a[Succ(q, |a|)] == Advance(start, step)
    ensures ArcLengths(a)[q] == step
  {
    ArcLengthOfStep(start, step);
  }

  /** One step on from the `m`-th start is the next start, or `first` after the last step. */
  lemma NextStart(first: real, size: real, last: real, steps: seq<real>, m: nat)
    requires m < |steps|
    requires IsAngle(first) && last == Advance(first, size)
    requires RunningSum(steps, |steps|) == TWO_PI - size
    ensures Advance(Advance(last, RunningSum(steps, m)), steps[m]) ==
      if m + 1 == |steps| then first else Advance(last, RunningSum(steps, m + 1))
  {
    AdvanceTwice(last, RunningSum(steps, m), steps[m]);
    if m + 1 == |steps| {
      WrapToStart(first, size, last);
    }
  }

  /** Going on by the rest of the circle from the end comes back to the start. */
  lemma WrapToStart(first: real, size: real, last: real)
    requires IsAngle(first) && last == Advance(first, size)
    ensures Advance(last, TWO_PI - size) == first
  {
    AdvanceTwice(first, size, TWO_PI - size);
    assert first + (size + (TWO_PI - size)) == first + 1 as real * TWO_PI;
    ModShift(first, 1);
    ModOfAngle(first);
  }

  // ---------------------------------------------------------------------------
  // Scaling to the current length
  // ---------------------------------------------------------------------------

  /** Scaling a slice of a partition to the length it already has changes nothing. */
  lemma ScaleToSameLength(s: seq<Slice>, i: nat)
    requires IsPartition(Angles(s)) && i < |s|
    requires |s| == 1 || ArcLengths(Angles(s))[i] != TWO_PI
    ensures ScaleLayout(s, i, ArcLengths(Angles(s))[i]) == s
  {
    if |s| >= 2 {
      ScaleManyToSameLength(s, i);
    } else {
      ScaleOneToSameLength(s);
    }
  }

  lemma ScaleOneToSameLength(s: seq<Slice>)
    requires IsPartition(Angles(s)) && |s| == 1
    ensures ScaleLayout(s, 0, ArcLengths(Angles(s))[0]) == s
  {
    CentredOnOwnMidpoint(s, 0);
    ScaledStart(s, 0, ArcLengths(Angles(s))[0]);
    SameAngles(ScaleLayout(s, 0, ArcLengths(Angles(s))[0]), s);
  }

  lemma ScaleManyToSameLength(s: seq<Slice>, i: nat)
    requires IsPartition(Angles(s)) && |s| >= 2 && i < |s|
    requires ArcLengths(Angles(s))[i] != TWO_PI
    ensures ScaleLayout(s, i, ArcLengths(Angles(s))[i]) == s
  {
    var lens := ArcLengths(Angles(s));
    CentredOnOwnMidpoint(s, i);
    ScaleIsPlaced(s, i, lens[i]);
    UnchangedShares(lens, i);
    PlacedOwnLengths(s, i);
  }

  /** The arc of slice `i`'s own length centred on its midpoint starts and ends where the slice does. */
  lemma CentredOnOwnMidpoint(s: seq<Slice>, i: nat)
    requires AllAngles(Angles(s)) && i < |s|
    ensures StartAround(Midpoint(s, i), ArcLengths(Angles(s))[i]) == Angles(s)[i]
    ensures ArcMidpoint(Midpoint(s, i), ArcLengths(Angles(s))[i]) == Advance(Angles(s)[i], ArcLengths(Angles(s))[i])
  {
    CentredOn(Angles(s)[i], ArcLengths(Angles(s))[i]);
  }

  /** An arc centred on its own midpoint starts where it started and ends where it ended. */
  lemma CentredOn(x: real, len: real)
    requires IsAngle(x)
    ensures StartAround(ArcMidpoint(x, len), len) == x
    ensures ArcMidpoint(ArcMidpoint(x, len), len) == Advance(x, len)
  {
    AdvanceTwice(x, len * 0.5, -(len * 0.5));
    assert len * 0.5 + -(len * 0.5) == 0.0;
    AdvanceByZero(x);
    AdvanceTwice(x, len * 0.5, len * 0.5);
    assert len * 0.5 + len * 0.5 == len;
  }

  /** Placing the others after slice `i`'s own end with their own lengths gives back the list. */
  lemma PlacedOwnLengths(s: seq<Slice>, i: nat)
    requires AllAngles(Angles(s)) && |s| >= 2 && i < |s|
    ensures Placed(s, i, Angles(s)[i], Advance(Angles(s)[i], ArcLengths(Angles(s))[i]), Survivors(ArcLengths(Angles(s)), i)) == s
  {
    var a := Angles(s);
    var lens := ArcLengths(a);
    var end := Advance(a[i], lens[i]);
    var r := Placed(s, i, a[i], end, Survivors(lens, i));
    forall p | 0 <= p < |s| && p != i
      ensures r[p].angle == s[p].angle
    {
      var m := OffsetAfter(i, p, |s|);
      PlacedStart(s, i, a[i], end, Survivors(lens, i), m);
      OwnStart(a, i, m);
    }
    SameAngles(r, s);
  }

  /** The start `m + 1` places after `i` is `i`'s end advanced by the next `m` lengths. */
  lemma {:induction false} OwnStart(a: seq<real>, i: nat, m: nat)
    requires AllAngles(a) && i < |a| && m + 1 < |a|
    ensures a[CycIndex(i, m + 1, |a|)] == Advance(Advance(a[i], ArcLengths(a)[i]), RunningSum(Survivors(ArcLengths(a), i), m))
    decreases m
  {
    var lens := ArcLengths(a);
    var others := Survivors(lens, i);
    var end := Advance(a[i], lens[i]);
    if m == 0 {
      AdvanceByZero(end);
    } else {
      OwnStart(a, i, m - 1);
      var q := CycIndex(i, m, |a|);
      assert Succ(q, |a|) == CycIndex(i, m + 1, |a|);
      assert others[m - 1] == lens[q];
      AdvanceTwice(end, RunningSum(others, m - 1), lens[q]);
    }
  }

  /** Rescaling to the old length keeps every other length. */
  lemma UnchangedShares(lens: seq<real>, i: nat)
    requires i < |lens| && lens[i] != TWO_PI
    ensures Rescaled(lens, i, lens[i]) == Survivors(lens, i)
  {
    var others := Survivors(lens, i);
    forall m | 0 <= m < |others|
      ensures Rescaled(lens, i, lens[i])[m] == others[m]
    {
      WholeFraction(others[m], TWO_PI - lens[i]);
    }
  }

  lemma WholeFraction(x: real, d: real)
    requires d != 0.0
    ensures (x / d) * d == x
  {
  }

  /** Two lists that differ at most in their angles and have the same angles are equal. */
  lemma SameAngles(r: seq<Slice>, s: seq<Slice>)
    requires |r| == |s|
    requires forall p :: 0 <= p < |s| ==> r[p] == s[p].(angle := r[p].angle)
    requires forall p :: 0 <= p < |s| ==> r[p].angle == s[p].angle
    ensures r == s
  {
  }
}
