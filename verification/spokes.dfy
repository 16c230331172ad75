/**
 * The earlier, functional version of the wheel in src/index.ts: a wheel is
 * a list of spokes (the same records as slices), `addSpoke` and
 * `removeSpoke` return a new list instead of changing the old one, and its
 * own copies of the angle helpers differ from src/util.ts in one respect:
 * two equal starts are 0 apart, not a full turn apart.
 *
 * Each operation is specified by a function on the old list, and each
 * function is compared with its counterpart in `Layout`: on a partition of
 * two or more spokes they agree, and on a single spoke they differ in the
 * ways the lemmas `SingleSpokeLength` and `AddToSingleSpoke` show.
 */
module Spokes {
  import opened Util
  import opened Partition
  import opened Layout
  import opened Rebuild

  // ---------------------------------------------------------------------------
  // Arc lengths and midpoints
  // ---------------------------------------------------------------------------

  /**
   * The clockwise length of `spokeArcLengths`: the difference of the starts,
   * plus a full turn when it is negative. Between two normalised starts it
   * lies in [0, 2π); it is 0 for equal starts and otherwise the util
   * `ArcLength`.
   */
  function SpokeArcLength(alpha: real, beta: real): (len: real)
    ensures IsAngle(alpha) && IsAngle(beta) ==> 0.0 <= len < TWO_PI
    ensures alpha == beta ==> len == 0.0
    ensures IsAngle(alpha) && IsAngle(beta) && alpha != beta ==> len == ArcLength(alpha, beta)
  {
    var len := beta - alpha;
    if len < 0.0 then len + TWO_PI else len
  }

  /** `spokeArcLengths`: entry `i` runs from start `i` to the start at `(i + 1) % n`. */
  function SpokeArcLengths(a: seq<real>): (lens: seq<real>)
    ensures |lens| == |a|
    ensures forall i :: 0 <= i < |a| ==> lens[i] == SpokeArcLength(a[i], a[Succ(i, |a|)])
  {
    seq(|a|, i requires 0 <= i < |a| => SpokeArcLength(a[i], a[Succ(i, |a|)]))
  }

  /**
   * On a partition of two or more spokes no two neighbours share a start,
   * so the spoke lengths are the util lengths and the sum the source
   * asserts is one full turn.
   */
  lemma PartitionSpokeLengths(a: seq<real>)
    requires IsPartition(a) && |a| >= 2
    ensures SpokeArcLengths(a) == ArcLengths(a)
    ensures Sum(SpokeArcLengths(a)) == TWO_PI
  {
    var lens := ArcLengths(a);
    PartitionIsFullTurn(a);
    forall i | 0 <= i < |a|
      ensures SpokeArcLengths(a)[i] == lens[i]
    {
      ArcBelowFullTurn(lens, i);
      assert a[i] != a[Succ(i, |a|)];
    }
  }

  /**
   * A single spoke runs from its start to its own start: its length is 0,
   * so the sum the source asserts to be 2π is 0.
   */
  lemma SingleSpokeLength(a: seq<real>)
    requires |a| == 1
    ensures SpokeArcLengths(a) == [0.0]
    ensures Sum(SpokeArcLengths(a)) == 0.0
  {
    SingletonSum(0.0);
  }

  /**
   * `angleBetween` of src/index.ts: half the spoke length on from `alpha`,
   * normalised with `(x % 2π + 2π) % 2π`. It is an angle; for equal starts it
   * is `alpha` itself, and for distinct normalised starts it is the util
   * midpoint.
   */
  function SpokeAngleBetween(alpha: real, beta: real): (mid: real)
    ensures IsAngle(mid)
    ensures alpha == beta && IsAngle(alpha) ==> mid == alpha
    ensures IsAngle(alpha) && IsAngle(beta) && alpha != beta ==> mid == AngleBetween(alpha, beta)
  {
    var delta := if beta - alpha < 0.0 then beta - alpha + TWO_PI else beta - alpha;
    var m := alpha + (delta / 2.0);
    var norm := Rem(Rem(m, TWO_PI) + TWO_PI, TWO_PI);
    ModIsJsFormula(m, TWO_PI);
    if alpha == beta && IsAngle(alpha) then
      (ModOfAngle(alpha); norm)
    else
      norm
  }

  // ---------------------------------------------------------------------------
  // The placeholder wheel
  // ---------------------------------------------------------------------------

  /** `createWheel`: three spokes at 0.7, 0.25 and 0.45 of the circle. */
  function CreateWheel(): (w: seq<Slice>)
    ensures |w| == 3
    ensures Ids(w) == ["1", "2", "3"]
  {
    var w := [Slice("1", "spoke 1", [0, 0, 0], TWO_PI * 0.7),
              Slice("2", "spoke 2", [100, 100, 100], TWO_PI * 0.25),
              Slice("3", "spoke 3", [50, 50, 50], TWO_PI * 0.45)];
    assert Ids(w) == ["1", "2", "3"];
    w
  }

  /**
   * The placeholder spokes are 0.55, 0.2 and 0.25 of the circle long; they
   * make a partition, so the sum the source asserts holds.
   */
  lemma PlaceholderWheel()
    ensures SpokeArcLengths(Angles(CreateWheel())) == [TWO_PI * 0.55, TWO_PI * 0.2, TWO_PI * 0.25]
    ensures IsPartition(Angles(CreateWheel())) && DistinctIds(CreateWheel())
  {
    var a := Angles(CreateWheel());
    assert a == [TWO_PI * 0.7, TWO_PI * 0.25, TWO_PI * 0.45];
    assert Succ(0, 3) == 1 && Succ(1, 3) == 2 && Succ(2, 3) == 0;
    var lens := SpokeArcLengths(a);
    assert lens == [TWO_PI * 0.55, TWO_PI * 0.2, TWO_PI * 0.25];
    assert ArcLengths(a) == lens;
    assert lens[..1] == [TWO_PI * 0.55];
    assert lens[..2] == [TWO_PI * 0.55, TWO_PI * 0.2];
    SingletonSum(TWO_PI * 0.55);
    var ids := Ids(CreateWheel());
    assert ids == ["1", "2", "3"];
    assert ids[0] != ids[1] && ids[0] != ids[2] && ids[1] != ids[2];
  }

  // ---------------------------------------------------------------------------
  // Adding a spoke
  // ---------------------------------------------------------------------------

  /** The spoke `addSpoke` creates for a fresh id: named after the id and white. */
  function NewSpoke(id: string): Slice {
    Slice(id, "Spoke: " + id, [255, 255, 255], 0.0)
  }

  /**
   * The list `addSpoke` returns: the new spoke first, centred on angle 0 with
   * the average length, then the old spokes in order, laid out from its end
   * with their spoke lengths squeezed into the rest of the circle.
   */
  function SpokeInsertLayout(s: seq<Slice>, added: Slice): (r: seq<Slice>)
    requires |s| > 0
    ensures |r| == |s| + 1
    ensures r[0].id == added.id && r[0].name == added.name && r[0].color == added.color
    ensures forall i :: 0 <= i < |s| ==>
      r[i + 1].id == s[i].id && r[i + 1].name == s[i].name && r[i + 1].color == s[i].color
  {
    var lens := SpokeArcLengths(Angles(s));
    InsertWith(s, added, lens, AverageLength(lens))
  }

  /**
   * `addSpoke`, with the id `crypto.randomUUID` would draw as a parameter; it
   * builds a new list and leaves `spokes` as it is. An empty wheel gives
   * `None` (the source would average no lengths).
   */
  method AddSpoke(spokes: seq<Slice>, newId: string) returns (r: Option<seq<Slice>>)
    ensures r.Some? <==> |spokes| >= 1
    ensures r.Some? ==> r.value == SpokeInsertLayout(spokes, NewSpoke(newId))
  {
    if |spokes| == 0 {
      return None;
    }
    var arcLens := SpokeArcLengths(Angles(spokes));
    var pcts := Percents(arcLens);
    var avg := Average(pcts);
    var newLen := avg * TWO_PI;
    var first := NewSpoke(newId).(angle := 0.0 - newLen * 0.5 + TWO_PI);
    var restLen := TWO_PI - newLen;
    var current := newLen * 0.5;
    var pushed := PushSqueezed(spokes, pcts, restLen, current);
    assert newLen == AverageLength(arcLens);
    InsertedIs(spokes, NewSpoke(newId), arcLens, newLen, pcts, restLen, first, pushed);
    r := Some([first] + pushed);
  }

  /** On a partition of two or more spokes `addSpoke` is the wheel's insertion with length 2π / n. */
  lemma SpokeInsertIsInsertLayout(s: seq<Slice>, added: Slice)
    requires IsPartition(Angles(s)) && |s| >= 2
    ensures SpokeInsertLayout(s, added) == InsertLayout(s, added, TWO_PI / |s| as real)
  {
    PartitionSpokeLengths(Angles(s));
    PartitionIsFullTurn(Angles(s));
    AverageOfFullTurn(ArcLengths(Angles(s)));
  }

  /**
   * Adding a fresh spoke to a partition of two or more spokes gives a
   * partition with distinct ids: the new spoke spans 2π / n and each old
   * spoke its fraction of the rest.
   */
  lemma AddSpokeKeepsPartition(s: seq<Slice>, added: Slice)
    requires IsPartition(Angles(s)) && |s| >= 2 && DistinctIds(s)
    requires forall k :: 0 <= k < |s| ==> s[k].id != added.id
    ensures var r := SpokeInsertLayout(s, added);
      IsPartition(Angles(r)) && DistinctIds(r) &&
      SpokeArcLengths(Angles(r)) == [TWO_PI / |s| as real] + Squeezed(SpokeArcLengths(Angles(s)), TWO_PI / |s| as real)
  {
    var newLen := TWO_PI / |s| as real;
    var ir := InsertLayout(s, added, newLen);
    assert SpokeInsertLayout(s, added) == ir by {
      SpokeInsertIsInsertLayout(s, added);
    }
    assert 0.0 < newLen < TWO_PI by {
      PartitionIsFullTurn(Angles(s));
      AverageOfFullTurn(ArcLengths(Angles(s)));
    }
    assert IsPartition(Angles(ir)) && ArcLengths(Angles(ir)) == [newLen] + Squeezed(ArcLengths(Angles(s)), newLen) by {
      InsertArcLengths(s, added, newLen);
    }
    assert DistinctIds(ir) by {
      InsertIds(s, added, newLen);
    }
    assert SpokeArcLengths(Angles(ir)) == ArcLengths(Angles(ir)) by {
      PartitionSpokeLengths(Angles(ir));
    }
    assert SpokeArcLengths(Angles(s)) == ArcLengths(Angles(s)) by {
      PartitionSpokeLengths(Angles(s));
    }
  }

  /**
   * Adding to a single spoke: its length is 0, so the new spoke gets length
   * 0 and starts at 2π, outside [0, 2π), and the old spoke starts at 0.
   */
  lemma AddToSingleSpoke(s: seq<Slice>, added: Slice)
    requires |s| == 1
    ensures Angles(SpokeInsertLayout(s, added)) == [TWO_PI, 0.0]
    ensures !IsPartition(Angles(SpokeInsertLayout(s, added)))
  {
    SingleSpokeLength(Angles(s));
    SingletonSum(0.0);
    var r := SpokeInsertLayout(s, added);
    var steps := Squeezed([0.0], 0.0);
    assert steps[..0] == [];
    assert r[1].angle == 0.0 + Sum(steps[..0]);
  }

  // ---------------------------------------------------------------------------
  // Removing a spoke
  // ---------------------------------------------------------------------------

  /**
   * `current_t` after `m` steps of `removeSpoke`'s loop: it starts at `a0`
   * and each step adds the next length and takes JavaScript's `% 2π`.
   */
  function RemWalk(a0: real, steps: seq<real>, m: nat): real
    requires m <= |steps|
  {
    if m == 0 then a0 else Rem(RemWalk(a0, steps, m - 1) + steps[m - 1], TWO_PI)
  }

  /**
   * `removeSpoke` gives a list of real angles: the id is there, and either
   * its spoke is not a full turn (the source divides by what the other
   * spokes cover) or only one spoke survives (its angle is the removed
   * start, and the loop never uses the step it divided by zero).
   */
  predicate SpokeRemovable(s: seq<Slice>, id: string) {
    FindIndex(s, id) >= 0 && (SpokeArcLengths(Angles(s))[FindIndex(s, id)] != TWO_PI || |s| == 2)
  }

  /**
   * The list `removeSpoke` returns: the survivors listed cyclically from the
   * removed spoke's successor, the first at the removed spoke's start and
   * each next one on by its length stretched by 2π / (2π − removed length).
   */
  function SpokeRemoveLayout(s: seq<Slice>, ix: nat): (r: seq<Slice>)
    requires ix < |s| && (SpokeArcLengths(Angles(s))[ix] != TWO_PI || |s| == 2)
    ensures |r| == |s| - 1
    ensures forall m :: 0 <= m < |r| ==>
      var was := s[CycIndex(ix, m + 1, |s|)];
      r[m].id == was.id && r[m].name == was.name && r[m].color == was.color
    ensures |r| > 0 ==> r[0].angle == s[ix].angle
  {
    var lens := SpokeArcLengths(Angles(s));
    if lens[ix] == TWO_PI then
      // two spokes: the one survivor takes the removed start
      [s[Succ(ix, |s|)].(angle := s[ix].angle)]
    else
      RemCycled(s, ix, s[ix].angle, Ratios(Survivors(lens, ix), TWO_PI - lens[ix], TWO_PI))
  }

  /**
   * The slices after `ix`, taken cyclically and leaving `ix` out, at the
   * angles `RemWalk` reaches from `start`.
   */
  function RemCycled(s: seq<Slice>, ix: nat, start: real, steps: seq<real>): (r: seq<Slice>)
    requires ix < |s| && |steps| == |s| - 1
    ensures |r| == |s| - 1
  {
    seq(|s| - 1, m requires 0 <= m < |s| - 1 =>
      s[CycIndex(ix, m + 1, |s|)].(angle := RemWalk(start, steps, m)))
  }

  /**
   * `removeSpoke`: builds a new list and leaves `spokes` as it is. A missing
   * id gives `None` (the source fails reading `spokes[-1]`), and so does a
   * spoke spanning a full turn among three or more (the source divides by
   * zero and the second survivor onwards get `NaN` angles). A full-turn
   * spoke of two leaves the other spoke at the removed start.
   */
  method RemoveSpoke(spokes: seq<Slice>, id: string) returns (r: Option<seq<Slice>>)
    ensures r.Some? <==> SpokeRemovable(spokes, id)
    ensures r.Some? ==> r.value == SpokeRemoveLayout(spokes, FindIndex(spokes, id))
  {
    var ix := FindIndex(spokes, id);
    if ix < 0 {
      return None;
    }
    var n := |spokes|;
    var arcLens := SpokeArcLengths(Angles(spokes));
    var removedLen := arcLens[ix];
    var remainderTotal := TWO_PI - removedLen;
    if remainderTotal == 0.0 {
      if n == 2 {
        // the loop runs once and pushes the survivor at `current_t`
        var i := CycIndex(ix, 1, n);
        return Some([spokes[i].(angle := spokes[ix].angle)]);
      }
      return None;
    }
    var pcts := seq(n, k requires 0 <= k < n => arcLens[k] / remainderTotal);
    var pushed := PushWalked(spokes, ix, pcts, spokes[ix].angle);
    SharesOfRemainder(arcLens, ix, remainderTotal, pcts);
    r := Some(pushed);
  }

  /**
   * Removing the old spoke after adding to a single spoke: its spoke is the
   * full turn from 0 to 2π, and the new spoke is left alone at angle 0.
   */
  lemma RemoveAfterAddToSingle(s: seq<Slice>, added: Slice)
    requires |s| == 1 && added.id != s[0].id
    ensures var r := SpokeInsertLayout(s, added);
      FindIndex(r, s[0].id) == 1 && SpokeArcLengths(Angles(r))[1] == TWO_PI &&
      SpokeRemovable(r, s[0].id) && SpokeRemoveLayout(r, 1) == [added.(angle := 0.0)]
  {
    var r := SpokeInsertLayout(s, added);
    AddToSingleSpoke(s, added);
    assert r[1].angle == 0.0 && r[0].angle == TWO_PI;
    assert SpokeArcLengths(Angles(r))[1] == SpokeArcLength(0.0, TWO_PI);
    assert r[0].(angle := 0.0) == added.(angle := 0.0);
  }

  /** The steps of the loop are the survivors' lengths stretched by 2π / remainder. */
  lemma SharesOfRemainder(lens: seq<real>, ix: nat, d: real, pcts: seq<real>)
    requires ix < |lens| && d != 0.0 && |pcts| == |lens|
    requires forall k :: 0 <= k < |lens| ==> pcts[k] == lens[k] / d
    ensures Scaled(Survivors(pcts, ix), TWO_PI) == Ratios(Survivors(lens, ix), d, TWO_PI)
  {
  }

  /**
   * `removeSpoke`'s loop: the spokes after `ix`, taken cyclically, each at
   * `current_t`, which starts at `start` and after spoke `i` moves on by
   * `pcts[i] * 2π`, reduced with `%`.
   */
  method PushWalked(s: seq<Slice>, ix: nat, pcts: seq<real>, start: real) returns (pushed: seq<Slice>)
    requires ix < |s| && |pcts| == |s|
    ensures pushed == RemCycled(s, ix, start, Scaled(Survivors(pcts, ix), TWO_PI))
  {
    var n := |s|;
    ghost var steps := Scaled(Survivors(pcts, ix), TWO_PI);
    pushed := [];
    var current := start;
    // the source counts `a` from 1 to n - 1; here m == a - 1
    for m := 0 to n - 1
      invariant |pushed| == m
      invariant forall k :: 0 <= k < m ==>
        pushed[k] == s[CycIndex(ix, k + 1, n)].(angle := RemWalk(start, steps, k))
      invariant current == RemWalk(start, steps, m)
    {
      var i := CycIndex(ix, m + 1, n);  // (ix + a) % n
      var step := pcts[i] * TWO_PI;
      assert step == steps[m];
      PushWalkedStep(s, ix, start, steps, pushed, m, current, step);
      pushed := pushed + [s[i].(angle := current)];
      current := Rem(current + step, TWO_PI);
    }
    RemCycledPointwise(s, ix, start, steps, pushed);
  }

  /** One round of `PushWalked`'s loop keeps its invariant. */
  lemma PushWalkedStep(s: seq<Slice>, ix: nat, start: real, steps: seq<real>, pushed: seq<Slice>,
                       m: nat, current: real, step: real)
    requires ix < |s| && |steps| == |s| - 1 && m < |steps| && |pushed| == m
    requires forall k :: 0 <= k < m ==>
      pushed[k] == s[CycIndex(ix, k + 1, |s|)].(angle := RemWalk(start, steps, k))
    requires current == RemWalk(start, steps, m) && step == steps[m]
    ensures forall k :: 0 <= k < m + 1 ==>
      (pushed + [s[CycIndex(ix, m + 1, |s|)].(angle := current)])[k]
        == s[CycIndex(ix, k + 1, |s|)].(angle := RemWalk(start, steps, k))
    ensures Rem(current + step, TWO_PI) == RemWalk(start, steps, m + 1)
  {
  }

  lemma RemCycledPointwise(s: seq<Slice>, ix: nat, start: real, steps: seq<real>, r: seq<Slice>)
    requires ix < |s| && |steps| == |s| - 1 && |r| == |s| - 1
    requires forall k :: 0 <= k < |r| ==>
      r[k] == s[CycIndex(ix, k + 1, |s|)].(angle := RemWalk(start, steps, k))
    ensures r == RemCycled(s, ix, start, steps)
  {
  }

  /** On a normalised start and non-negative steps, `%` walks like `mod`. */
  lemma {:induction false} RemWalkIsMod(a0: real, steps: seq<real>, m: nat)
    requires IsAngle(a0) && m <= |steps|
    requires forall k :: 0 <= k < |steps| ==> steps[k] >= 0.0
    ensures RemWalk(a0, steps, m) == Mod(a0 + Sum(steps[..m]), TWO_PI)
  {
    if m == 0 {
      assert steps[..0] == [];
      ModOfAngle(a0);
    } else {
      RemWalkIsMod(a0, steps, m - 1);
      var x := RemWalk(a0, steps, m - 1);
      RemOfNonNeg(x + steps[m - 1], TWO_PI);
      ModAddMod(a0 + Sum(steps[..m - 1]), steps[m - 1]);
      SumPrefixStep(steps, m - 1);
    }
  }

  lemma StretchedNonNeg(lens: seq<real>, ix: nat)
    requires ix < |lens| && lens[ix] < TWO_PI
    requires forall k :: 0 <= k < |lens| ==> lens[k] >= 0.0
    ensures forall k :: 0 <= k < |lens| - 1 ==> Stretched(lens, ix)[k] >= 0.0
  {
    forall k | 0 <= k < |lens| - 1
      ensures Stretched(lens, ix)[k] >= 0.0
    {
      NonNegRatio(lens[CycIndex(ix, k + 1, |lens|)], TWO_PI - lens[ix], TWO_PI);
    }
  }

  lemma NonNegRatio(x: real, d: real, c: real)
    requires x >= 0.0 && d > 0.0 && c > 0.0
    ensures (x / d) * c >= 0.0
  {
    assert x / d >= 0.0;
  }

  lemma SpokeRemoveWalks(s: seq<Slice>, ix: nat)
    requires ix < |s| && SpokeArcLengths(Angles(s))[ix] != TWO_PI
    ensures var lens := SpokeArcLengths(Angles(s));
      SpokeRemoveLayout(s, ix) == RemCycled(s, ix, s[ix].angle, Ratios(Survivors(lens, ix), TWO_PI - lens[ix], TWO_PI))
  {
  }

  /**
   * On a partition `removeSpoke` is the wheel's removal: the same survivors
   * in the same order at the same angles.
   */
  lemma SpokeRemoveIsRemoveLayout(s: seq<Slice>, ix: nat)
    requires IsPartition(Angles(s)) && ix < |s|
    ensures SpokeArcLengths(Angles(s))[ix] != TWO_PI
    ensures |s| == 1 || ArcLengths(Angles(s))[ix] != TWO_PI
    ensures SpokeRemoveLayout(s, ix) == RemoveLayout(s, ix)
  {
    if |s| == 1 {
      SingleSpokeLength(Angles(s));
      assert |SpokeRemoveLayout(s, ix)| == 0 == |RemoveLayout(s, ix)|;
    } else {
      var lens := ArcLengths(Angles(s));
      assert SpokeArcLengths(Angles(s)) == lens by {
        PartitionSpokeLengths(Angles(s));
      }
      assert lens[ix] < TWO_PI by {
        PartitionResizable(s, ix);
      }
      assert forall k :: 0 <= k < |lens| ==> lens[k] >= 0.0;
      StretchedWalksAgree(s, ix, lens);
    }
  }

  /** With the spoke lengths equal to the util lengths, the `%` walk and the `mod` walk of the removal agree. */
  lemma StretchedWalksAgree(s: seq<Slice>, ix: nat, lens: seq<real>)
    requires ix < |s| && lens == ArcLengths(Angles(s)) && SpokeArcLengths(Angles(s)) == lens
    requires lens[ix] < TWO_PI && IsAngle(s[ix].angle)
    requires forall k :: 0 <= k < |lens| ==> lens[k] >= 0.0
    ensures SpokeRemoveLayout(s, ix) == RemoveLayout(s, ix)
  {
    var steps := Stretched(lens, ix);
    assert SpokeRemoveLayout(s, ix) == RemCycled(s, ix, s[ix].angle, steps) by {
      SpokeRemoveWalks(s, ix);
    }
    assert RemoveLayout(s, ix) == Cycled(s, ix, s[ix].angle, steps);
    assert forall k :: 0 <= k < |steps| ==> steps[k] >= 0.0 by {
      StretchedNonNeg(lens, ix);
    }
    RemCycledIsCycled(s, ix, s[ix].angle, steps);
  }

  /** On a normalised start and non-negative steps the `%` walk lands where `Cycled` puts the slices. */
  lemma RemCycledIsCycled(s: seq<Slice>, ix: nat, start: real, steps: seq<real>)
    requires ix < |s| && |steps| == |s| - 1 && IsAngle(start)
    requires forall k :: 0 <= k < |steps| ==> steps[k] >= 0.0
    ensures RemCycled(s, ix, start, steps) == Cycled(s, ix, start, steps)
  {
    forall m | 0 <= m < |s| - 1
      ensures RemCycled(s, ix, start, steps)[m] == Cycled(s, ix, start, steps)[m]
    {
      RemWalkIsMod(start, steps, m);
    }
  }

  /**
   * Removing a spoke from a partition of two or more spokes with distinct
   * ids gives a partition with distinct ids, without the removed id.
   */
  lemma RemoveSpokeKeepsPartition(s: seq<Slice>, ix: nat)
    requires IsPartition(Angles(s)) && |s| >= 2 && ix < |s| && DistinctIds(s)
    ensures SpokeArcLengths(Angles(s))[ix] != TWO_PI
    ensures var r := SpokeRemoveLayout(s, ix);
      IsPartition(Angles(r)) && DistinctIds(r) &&
      forall m :: 0 <= m < |r| ==> r[m].id != s[ix].id
  {
    SpokeRemoveIsRemoveLayout(s, ix);
    RemoveArcLengths(s, ix);
    RemoveDropsOnlyTarget(s, ix);
  }

  // ---------------------------------------------------------------------------
  // Selection on click
  // ---------------------------------------------------------------------------

  /** A `UISpoke`: the spoke's id, its sector and whether it is selected. */
  datatype SpokeView = SpokeView(id: string, arc: Shape, selected: bool)

  /** Whether the spoke's sector contains the pointer whose angle about the centre is `pAngle`. */
  predicate SpokeHit(v: SpokeView, p: Point, pAngle: real) {
    PointIntersects(p, pAngle, v.arc)
  }

  /** Some spoke contains the pointer. */
  predicate AnyHit(vs: seq<SpokeView>, p: Point, pAngle: real) {
    if |vs| == 0 then false else AnyHit(vs[..|vs| - 1], p, pAngle) || SpokeHit(vs[|vs| - 1], p, pAngle)
  }

  /** The id of the last spoke that contains the pointer, or `prev` when none does. */
  function LastHit(vs: seq<SpokeView>, p: Point, pAngle: real, prev: Option<string>): (sel: Option<string>)
    ensures !AnyHit(vs, p, pAngle) ==> sel == prev
  {
    if |vs| == 0 then prev
    else if SpokeHit(vs[|vs| - 1], p, pAngle) then Some(vs[|vs| - 1].id)
    else LastHit(vs[..|vs| - 1], p, pAngle, prev)
  }

  /** `AnyHit` holds exactly when some spoke contains the pointer. */
  lemma {:induction false} AnyHitIsSome(vs: seq<SpokeView>, p: Point, pAngle: real)
    ensures AnyHit(vs, p, pAngle) <==> exists k :: 0 <= k < |vs| && SpokeHit(vs[k], p, pAngle)
  {
    if |vs| > 0 {
      var front := vs[..|vs| - 1];
      AnyHitIsSome(front, p, pAngle);
      assert forall k :: 0 <= k < |front| ==> front[k] == vs[k];
    }
  }

  /**
   * When some spoke contains the pointer, the selection is the id of a spoke
   * that contains it and no later spoke contains it.
   */
  lemma {:induction false} LastHitIsLast(vs: seq<SpokeView>, p: Point, pAngle: real, prev: Option<string>)
    requires AnyHit(vs, p, pAngle)
    ensures exists k ::
      && 0 <= k < |vs| && SpokeHit(vs[k], p, pAngle)
      && LastHit(vs, p, pAngle, prev) == Some(vs[k].id)
      && (forall j :: k < j < |vs| ==> !SpokeHit(vs[j], p, pAngle))
  {
    var n := |vs|;
    if !SpokeHit(vs[n - 1], p, pAngle) {
      var front := vs[..n - 1];
      LastHitIsLast(front, p, pAngle, prev);
      var k :| 0 <= k < |front| && SpokeHit(front[k], p, pAngle) &&
        LastHit(front, p, pAngle, prev) == Some(front[k].id) &&
        (forall j :: k < j < |front| ==> !SpokeHit(front[j], p, pAngle));
      assert vs[k] == front[k];
      forall j | k < j < n
        ensures !SpokeHit(vs[j], p, pAngle)
      {
        if j < n - 1 {
          assert vs[j] == front[j];
        }
      }
    }
  }

  /** One more spoke: the selection and the hit flag as the selection loop updates them. */
  lemma HitsStep(vs: seq<SpokeView>, i: nat, p: Point, pAngle: real, prev: Option<string>)
    requires i < |vs|
    ensures LastHit(vs[..i + 1], p, pAngle, prev) ==
      if SpokeHit(vs[i], p, pAngle) then Some(vs[i].id) else LastHit(vs[..i], p, pAngle, prev)
    ensures AnyHit(vs[..i + 1], p, pAngle) <==> AnyHit(vs[..i], p, pAngle) || SpokeHit(vs[i], p, pAngle)
  {
    assert vs[..i + 1][..i] == vs[..i];
  }

  /**
   * The state `mouseClicked` changes: the spokes' views, whether the add and
   * remove buttons are active and the selected spoke's id.
   */
  class WheelSketch {
    var views: seq<SpokeView>
    var wheel: Shape
    var addActive: bool
    var removeActive: bool
    var selected: Option<string>

    /** `setupUI`: the add button is active, the remove button is not, nothing is selected. */
    constructor(views0: seq<SpokeView>, wheel0: Shape)
      ensures views == views0 && wheel == wheel0
      ensures addActive && !removeActive && selected == None
    {
      views := views0;
      wheel := wheel0;
      addActive := true;
      removeActive := false;
      selected := None;
    }

    /**
     * The selection part of `mouseClicked`: every spoke is selected exactly
     * when it contains the pointer, the selection is the last such spoke,
     * and a hit turns the add button off and the remove button on; a click
     * outside the wheel turns the add button on and the remove button off.
     */
    method SelectAt(p: Point, pAngle: real)
      modifies this
      ensures |views| == |old(views)| && wheel == old(wheel)
      ensures forall i :: 0 <= i < |views| ==>
        views[i] == old(views[i]).(selected := SpokeHit(old(views[i]), p, pAngle))
      ensures selected == LastHit(old(views), p, pAngle, old(selected))
      ensures !PointIntersects(p, pAngle, wheel) ==> addActive && !removeActive
      ensures PointIntersects(p, pAngle, wheel) && AnyHit(old(views), p, pAngle) ==> !addActive && removeActive
      ensures PointIntersects(p, pAngle, wheel) && !AnyHit(old(views), p, pAngle) ==>
        addActive == old(addActive) && removeActive == old(removeActive)
    {
      var vs := views;
      for i := 0 to |vs|
        invariant |views| == |vs| && wheel == old(wheel)
        invariant forall k :: 0 <= k < i ==> views[k] == vs[k].(selected := SpokeHit(vs[k], p, pAngle))
        invariant forall k :: i <= k < |vs| ==> views[k] == vs[k]
        invariant selected == LastHit(vs[..i], p, pAngle, old(selected))
        invariant AnyHit(vs[..i], p, pAngle) ==> !addActive && removeActive
        invariant !AnyHit(vs[..i], p, pAngle) ==> addActive == old(addActive) && removeActive == old(removeActive)
      {
        var hit := SpokeHit(vs[i], p, pAngle);  // spoke_ui.contains(pointer)
        views := views[i := vs[i].(selected := hit)];
        HitsStep(vs, i, p, pAngle, old(selected));
        if hit {
          addActive := false;
          removeActive := true;
          selected := Some(vs[i].id);
        }
      }
      assert vs[..|vs|] == vs;
      if !PointIntersects(p, pAngle, wheel) {
        addActive := true;
        removeActive := false;
      }
    }
  }
}
