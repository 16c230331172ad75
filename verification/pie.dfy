/**
 * The `Pie` class of src/pie.ts: a list of slices whose starts go round the
 * circle once. Every operation rebuilds or updates the list step by step as
 * the source does, and is proved to compute the layout function of
 * layout.dfy, move.dfy or scale.dfy for the old list; the facts proved there
 * (the lengths still add up to a full turn, each slice gets its intended
 * share) then hold for the class.
 */
module PieModel {
  import opened Util
  import opened Partition
  import opened Layout
  import opened Move
  import opened Scale
  import opened Rebuild

  /** `new_pct * TWO_PI` of `addSlice`: the average share p of the circle, turned into p / (1 + p) of it. */
  function PieNewLength(lens: seq<real>): real
    requires |lens| > 0 && 1.0 + Average(Percents(lens)) != 0.0
  {
    var avg := Average(Percents(lens));
    (avg / (1.0 + avg)) * TWO_PI
  }

  /**
   * When the `n` old lengths make a full turn, the new slice gets 2π / (n + 1):
   * the length every slice would have if all `n + 1` were equal.
   */
  lemma NewSliceShare(lens: seq<real>)
    requires FullTurn(lens)
    ensures 1.0 + Average(Percents(lens)) != 0.0
    ensures PieNewLength(lens) == TWO_PI / (|lens| + 1) as real
    ensures 0.0 < PieNewLength(lens) < TWO_PI
  {
    SumPercents(lens);
    var n := |lens| as real;
    var avg := Average(Percents(lens));
    assert avg == 1.0 / n;
    ShareOfOneMore(n);
  }

  /** `(1 / n) / (1 + 1 / n) == 1 / (n + 1)`. */
  lemma ShareOfOneMore(n: real)
    requires n >= 1.0
    ensures (1.0 / n) / (1.0 + 1.0 / n) == 1.0 / (n + 1.0)
    ensures ((1.0 / n) / (1.0 + 1.0 / n)) * TWO_PI == TWO_PI / (n + 1.0)
    ensures 0.0 < TWO_PI / (n + 1.0) < TWO_PI
  {
    assert 1.0 + 1.0 / n == (n + 1.0) / n;
  }

  /** The slice `addSlice` creates for a fresh id: named after the id and white. */
  function NewSlice(id: string): Slice {
    Slice(id, "Slice: " + id, [255, 255, 255], 0.0)
  }

  class Pie {
    var slices: seq<Slice>

    /** The slices have distinct ids and, unless there are none, go round the circle once. */
    predicate Valid()
      reads this
    {
      DistinctIds(slices) && (|slices| == 0 || IsPartition(Angles(slices)))
    }

    /**
     * The constructor takes any list; the object is valid exactly when the
     * list has distinct ids and its angles partition the circle.
     */
    constructor(data: seq<Slice>)
      ensures slices == data
      ensures Valid() <==> DistinctIds(data) && (|data| == 0 || IsPartition(Angles(data)))
    {
      slices := data;
    }

    /**
     * `sliceArcLengths`: the clockwise length from each start to the next;
     * on a valid pie they are positive and make one full turn.
     */
    function SliceArcLengths(): (lens: seq<real>)
      reads this
      ensures |lens| == |slices|
      ensures forall p :: 0 <= p < |slices| ==>
        lens[p] == ArcLength(slices[p].angle, slices[Succ(p, |slices|)].angle)
      ensures Valid() && |slices| >= 1 ==> FullTurn(lens)
    {
      var lens := ArcLengths(Angles(slices));
      if Valid() && |slices| >= 1 then
        PartitionIsFullTurn(Angles(slices));
        lens
      else
        lens
    }

    /**
     * `addSlice`, with the id `crypto.randomUUID` would draw as a parameter.
     * The new slice gets 2π / (n + 1) and is placed first, centred on angle 0;
     * the old slices follow in their order, squeezed into the rest. An empty
     * pie is left as it is (the source would compute the average of no
     * lengths).
     */
    method AddSlice(newId: string) returns (ok: bool)
      requires Valid()
      requires forall k :: 0 <= k < |slices| ==> slices[k].id != newId
      modifies this
      ensures ok <==> |old(slices)| >= 1
      ensures ok ==> slices == InsertLayout(old(slices), NewSlice(newId), TWO_PI / (|old(slices)| + 1) as real)
      ensures !ok ==> slices == old(slices)
      ensures Valid()
    {
      if |slices| == 0 {
        return false;
      }
      var s := slices;
      var arcLens := SliceArcLengths();
      var pcts := Percents(arcLens);
      NewSliceShare(arcLens);
      var avg := Average(pcts);
      var newPct := avg / (1.0 + avg);
      var newLen := newPct * TWO_PI;
      assert newLen == PieNewLength(arcLens);
      var first := NewSlice(newId).(angle := 0.0 - newLen * 0.5 + TWO_PI);
      var restLen := TWO_PI - newLen;
      var current := newLen * 0.5;
      var pushed := PushSqueezed(s, pcts, restLen, current);
      InsertedIs(s, NewSlice(newId), arcLens, newLen, pcts, restLen, first, pushed);
      InsertArcLengths(s, NewSlice(newId), newLen);
      InsertIds(s, NewSlice(newId), newLen);
      slices := [first] + pushed;
      ok := true;
    }

    /**
     * `removeSlice`: the survivors, listed from the removed slice's
     * successor, are laid out from the removed slice's start, each stretched
     * by 2π / (2π − removed length). A missing id leaves the pie as it is
     * (the source fails reading the angle of `slices[-1]`).
     */
    method RemoveSlice(id: string) returns (ok: bool)
      requires Valid()
      modifies this
      ensures ok <==> FindIndex(old(slices), id) >= 0
      ensures ok ==> Resizable(old(slices), FindIndex(old(slices), id)) &&
                     slices == RemoveLayout(old(slices), FindIndex(old(slices), id))
      ensures !ok ==> slices == old(slices)
      ensures Valid()
    {
      var ix := FindIndex(slices, id);
      if ix < 0 {
        return false;
      }
      var s := slices;
      var arcLens := SliceArcLengths();
      PartitionResizable(s, ix);
      var removedLen := arcLens[ix];
      var remainderTotal := TWO_PI - removedLen;
      var pushed := PushStretched(s, ix, arcLens, remainderTotal, s[ix].angle);
      RemovedIs(s, ix, arcLens, remainderTotal, pushed);
      RemoveDropsOnlyTarget(s, ix);
      if |s| >= 2 {
        RemoveArcLengths(s, ix);
      }
      slices := pushed;
      ok := true;
    }

    /**
     * `moveSliceFwd`: the slice and its successor swap places; the successor
     * takes over the slice's start and the slice starts where the
     * successor's arc used to end. A missing id leaves the pie as it is.
     */
    method MoveSliceFwd(id: string) returns (ok: bool)
      requires Valid()
      modifies this
      ensures ok <==> FindIndex(old(slices), id) >= 0
      ensures ok ==> slices == MoveFwdLayout(old(slices), FindIndex(old(slices), id))
      ensures !ok ==> slices == old(slices)
      ensures Valid()
    {
      var i := FindIndex(slices, id);
      if i < 0 {
        return false;
      }
      var n := |slices|;
      var j := Succ(i, n);  // (i + 1) % n
      var k := Succ(j, n);
      var nextLen := ArcLength(slices[j].angle, slices[k].angle);
      var nextAngle := slices[i].angle;
      var currAngle := Mod(slices[i].angle + nextLen, TWO_PI);
      // `structuredClone` of every slice: with slices as values the copy is the list itself.
      var newSlices := slices;
      newSlices := newSlices[i := newSlices[i].(angle := currAngle)];
      newSlices := newSlices[j := newSlices[j].(angle := nextAngle)];
      newSlices := newSlices[i := newSlices[j]][j := newSlices[i]];
      assert newSlices == MoveFwdLayout(slices, i);
      if n == 1 {
        MoveFwdSingle(slices);
      } else {
        MoveFwdArcLengths(slices, i);
        MovedIds(slices, i);
      }
      slices := newSlices;
      ok := true;
    }

    /**
     * `moveSliceBwd`: `moveSliceFwd` of the slice at `mod(i - 1, n)`, the
     * predecessor of the slice with the id (of the slice before last when
     * the id is missing). Only an empty pie is left as it is.
     */
    method MoveSliceBwd(id: string) returns (ok: bool)
      requires Valid()
      modifies this
      ensures ok <==> |old(slices)| >= 1
      ensures ok ==> MoveBwdLayout(old(slices), id) == Some(slices)
      ensures !ok ==> slices == old(slices)
      ensures Valid()
    {
      if |slices| == 0 {
        return false;
      }
      var i := FindIndex(slices, id);
      var h := (i - 1) % |slices|;
      assert BwdIndex(slices, id) == Some(h as nat) by {
        BwdIndexIsMod(slices, id);
      }
      ok := MoveSliceFwd(slices[h].id);
    }

    /**
     * `scaleSlice`: the slice gets `size`, centred on its old midpoint; the
     * others, taken in order from its successor, share what is left in their
     * old proportions, laid end to end from its new end. Updates the angles
     * in place. A missing id leaves the pie as it is.
     */
    method ScaleSlice(id: string, size: real) returns (ok: bool)
      requires Valid()
      modifies this
      ensures ok <==> FindIndex(old(slices), id) >= 0
      ensures ok ==> Resizable(old(slices), FindIndex(old(slices), id)) &&
                     slices == ScaleLayout(old(slices), FindIndex(old(slices), id), size)
      ensures !ok ==> slices == old(slices)
      ensures |old(slices)| <= 1 || 0.0 < size < TWO_PI ==> Valid()
    {
      var lens := SliceArcLengths();
      var i := FindIndex(slices, id);
      if i < 0 {
        return false;
      }
      PartitionResizable(slices, i);
      ghost var s0 := slices;
      ScaleAt(i, lens, size);
      if |s0| <= 1 || 0.0 < size < TWO_PI {
        ScaleKeepsValid(s0, i, size);
      }
      ok := true;
    }

    /** `scaleSlice` once the index `i` of the slice and the arc lengths are known. */
    method ScaleAt(i: nat, lens: seq<real>, size: real)
      requires i < |slices| && lens == ArcLengths(Angles(slices)) && Resizable(slices, i)
      modifies this
      ensures slices == ScaleLayout(old(slices), i, size)
    {
      ghost var s0 := slices;
      var arcLen := lens[i];
      var ogRestLen := TWO_PI - arcLen;
      var restLen := TWO_PI - size;
      var mid := Mod(slices[i].angle + arcLen * 0.5, TWO_PI);
      MidpointIs(s0, i, lens, mid);
      slices := slices[i := slices[i].(angle := Mod(mid - size * 0.5, TWO_PI))];
      ghost var s1 := slices;
      var last := Mod(mid + size * 0.5, TWO_PI);
      PlaceRest(i, lens, ogRestLen, restLen, last);
      ScaledIs(s0, i, size, lens, ogRestLen, restLen, mid, last, s1, slices);
    }

    /**
     * `scaleSlice`'s loop: the slices after `i`, taken cyclically, each moved
     * to `mod(last)`, where `last` starts at `last0` and grows after slice `j`
     * by `(lens[j] / ogRestLen) * restLen`. Slice `i` keeps its angle.
     */
    method PlaceRest(i: nat, lens: seq<real>, ogRestLen: real, restLen: real, last0: real)
      requires i < |slices| && |lens| == |slices|
      requires |slices| == 1 || ogRestLen != 0.0
      modifies this
      ensures slices == Placed(old(slices), i, old(slices)[i].angle, last0,
                               if |old(slices)| == 1 then [] else Ratios(Survivors(lens, i), ogRestLen, restLen))
    {
      var n := |slices|;
      ghost var s0 := slices;
      ghost var steps := if n == 1 then [] else Ratios(Survivors(lens, i), ogRestLen, restLen);
      var last := last0;
      // the source counts `c` from 1 to n - 1; here m == c - 1
      for m := 0 to n - 1
        invariant PlacedUpTo(slices, s0, i, last0, steps, m)
        invariant last == last0 + RunningSum(steps, m)
      {
        var j := CycIndex(i, m + 1, n);  // mod(i + c, n)
        var step := (lens[j] / ogRestLen) * restLen;
        assert step == steps[m];
        PlaceStep(slices, s0, i, last0, steps, m, last);
        slices := slices[j := slices[j].(angle := Mod(last, TWO_PI))];
        last := last + step;
      }
      PlacedPointwise(s0, i, last0, steps, slices);
    }
  }

  /**
   * `r` is `s` with the first `m` slices after `i` already placed from
   * `last` onwards and the others not yet moved.
   */
  ghost predicate PlacedUpTo(r: seq<Slice>, s: seq<Slice>, i: nat, last: real, steps: seq<real>, m: nat)
    requires i < |s| && |steps| == |s| - 1
  {
    |r| == |s| && r[i] == s[i] &&
    forall p :: 0 <= p < |s| && p != i ==>
      r[p] == if OffsetAfter(i, p, |s|) < m
              then s[p].(angle := Advance(last, RunningSum(steps, OffsetAfter(i, p, |s|))))
              else s[p]
  }

  /** One round of `scaleSlice`'s loop places the next slice. */
  lemma PlaceStep(r: seq<Slice>, s: seq<Slice>, i: nat, last0: real, steps: seq<real>, m: nat, last: real)
    requires i < |s| && |steps| == |s| - 1 && m < |steps|
    requires PlacedUpTo(r, s, i, last0, steps, m) && last == last0 + RunningSum(steps, m)
    ensures var j := CycIndex(i, m + 1, |s|);
      PlacedUpTo(r[j := r[j].(angle := Mod(last, TWO_PI))], s, i, last0, steps, m + 1)
  {
    var n := |s|;
    var j := CycIndex(i, m + 1, n);
    OffsetOfCycIndex(i, m, n);
    var r' := r[j := r[j].(angle := Mod(last, TWO_PI))];
    forall p | 0 <= p < n && p != i
      ensures r'[p] == if OffsetAfter(i, p, n) < m + 1
                       then s[p].(angle := Advance(last0, RunningSum(steps, OffsetAfter(i, p, n))))
                       else s[p]
    {
      if p != j {
        assert OffsetAfter(i, p, n) != m;
      }
    }
  }

  /** A list with every slice after `i` placed is `Placed`. */
  lemma PlacedPointwise(s: seq<Slice>, i: nat, last: real, steps: seq<real>, r: seq<Slice>)
    requires i < |s| && |steps| == |s| - 1
    requires PlacedUpTo(r, s, i, last, steps, |s| - 1)
    ensures r == Placed(s, i, s[i].angle, last, steps)
  {
  }

  /** The list `scaleSlice` leaves from its computed values is `ScaleLayout`. */
  lemma ScaledIs(s0: seq<Slice>, i: nat, size: real, lens: seq<real>, ogRestLen: real, restLen: real,
                 mid: real, last: real, s1: seq<Slice>, r: seq<Slice>)
    requires i < |s0| && lens == ArcLengths(Angles(s0)) && (|s0| == 1 || lens[i] != TWO_PI)
    requires ogRestLen == TWO_PI - lens[i] && restLen == TWO_PI - size
    requires mid == Midpoint(s0, i) && last == Mod(mid + size * 0.5, TWO_PI)
    requires s1 == s0[i := s0[i].(angle := Mod(mid - size * 0.5, TWO_PI))]
    requires r == Placed(s1, i, s1[i].angle, last,
                         if |s0| == 1 then [] else Ratios(Survivors(lens, i), ogRestLen, restLen))
    ensures r == ScaleLayout(s0, i, size)
  {
    var steps := if |s0| == 1 then [] else Ratios(Survivors(lens, i), ogRestLen, restLen);
    PlacedAround(s0, i, size, mid, last, steps, s1, r);
    if |s0| >= 2 {
      RescaledIs(lens, i, size, ogRestLen, restLen);
    }
    ScaleLayoutIs(s0, i, size, mid, steps);
  }

  /** `scaleSlice`'s step for each other slice is its `Rescaled` length. */
  lemma RescaledIs(lens: seq<real>, i: nat, size: real, ogRestLen: real, restLen: real)
    requires i < |lens| && lens[i] != TWO_PI
    requires ogRestLen == TWO_PI - lens[i] && restLen == TWO_PI - size
    ensures Ratios(Survivors(lens, i), ogRestLen, restLen) == Rescaled(lens, i, size)
  {
  }

  /** The angles `scaleSlice` computes around `mid` are `StartAround` and `ArcMidpoint`. */
  lemma PlacedAround(s0: seq<Slice>, i: nat, size: real, mid: real, last: real, steps: seq<real>,
                     s1: seq<Slice>, r: seq<Slice>)
    requires i < |s0| && |steps| == |s0| - 1 && last == Mod(mid + size * 0.5, TWO_PI)
    requires s1 == s0[i := s0[i].(angle := Mod(mid - size * 0.5, TWO_PI))]
    requires r == Placed(s1, i, s1[i].angle, last, steps)
    ensures r == Placed(s0, i, StartAround(mid, size), ArcMidpoint(mid, size), steps)
  {
    StartAroundIs(mid, size);
    PlacedIgnoresOwnAngle(s0, i, StartAround(mid, size), last, steps);
  }

  /** `ScaleLayout` is `Placed` around the old midpoint with the rescaled lengths. */
  lemma ScaleLayoutIs(s0: seq<Slice>, i: nat, size: real, mid: real, steps: seq<real>)
    requires i < |s0| && (|s0| == 1 || ArcLengths(Angles(s0))[i] != TWO_PI) && mid == Midpoint(s0, i)
    requires steps == if |s0| == 1 then [] else Rescaled(ArcLengths(Angles(s0)), i, size)
    ensures Placed(s0, i, StartAround(mid, size), ArcMidpoint(mid, size), steps) == ScaleLayout(s0, i, size)
  {
  }

  /** `mod(start + len * 0.5)` of slice `i` is its `Midpoint`. */
  lemma MidpointIs(s: seq<Slice>, i: nat, lens: seq<real>, mid: real)
    requires i < |s| && lens == ArcLengths(Angles(s))
    requires mid == Mod(s[i].angle + lens[i] * 0.5, TWO_PI)
    ensures mid == Midpoint(s, i)
  {
  }

  /** Scaling keeps the ids and, when the new size leaves room for the others, the partition. */
  lemma ScaleKeepsValid(s: seq<Slice>, i: nat, size: real)
    requires DistinctIds(s) && IsPartition(Angles(s)) && i < |s|
    requires |s| <= 1 || 0.0 < size < TWO_PI
    ensures Resizable(s, i)
    ensures DistinctIds(ScaleLayout(s, i, size)) && IsPartition(Angles(ScaleLayout(s, i, size)))
  {
    PartitionResizable(s, i);
    var r := ScaleLayout(s, i, size);
    assert Ids(r) == Ids(s);
    SameIdsDistinct(s, r);
    if |s| >= 2 {
      ScaleArcLengths(s, i, size);
    } else {
      SingleSliceIsPartition(r[0]);
      assert r == [r[0]];
    }
  }

  /** `Placed` does not read the old angle of the slice it places first. */
  lemma PlacedIgnoresOwnAngle(s: seq<Slice>, i: nat, first: real, last: real, steps: seq<real>)
    requires i < |s| && |steps| == |s| - 1
    ensures Placed(s[i := s[i].(angle := first)], i, first, last, steps) == Placed(s, i, first, last, steps)
  {
  }

  /** `mod(mid - size * 0.5)` is the start of the arc of length `size` centred on `mid`. */
  lemma StartAroundIs(mid: real, size: real)
    ensures Mod(mid - size * 0.5, TWO_PI) == StartAround(mid, size)
  {
    assert mid - size * 0.5 == mid + -(size * 0.5);
  }

  /** A single slice covers the whole circle from any start. */
  lemma SingleSliceIsPartition(x: Slice)
    requires IsAngle(x.angle)
    ensures IsPartition(Angles([x]))
  {
    assert Succ(0, 1) == 0;
    assert ArcLengths(Angles([x])) == [TWO_PI];
    SingletonSum(TWO_PI);
  }
}
