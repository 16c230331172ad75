/**
 * The push loops that `addSlice`/`addWedge`/`addSpoke` and
 * `removeSlice`/`removeWedge` (src/pie.ts, src/wheel.ts, src/index.ts) run
 * to build the new slice list, each proved to build the list `LaidOut` or
 * `Cycled` of layout.dfy describes. They take
 * the arc lengths as plain values, so that their proofs do not unfold how
 * the lengths were computed.
 */
module Rebuild {
  import opened Util
  import opened Partition
  import opened Layout
  import opened Scale

  /**
   * The loop of `addSlice`, `addWedge` and `addSpoke`: each old slice in
   * order at `current_a`, which starts at `start` and grows by
   * `pcts[i] * restLen` after slice `i`.
   */
  method PushSqueezed(s: seq<Slice>, pcts: seq<real>, restLen: real, start: real)
    returns (pushed: seq<Slice>)
    requires |pcts| == |s|
    ensures pushed == LaidOut(s, start, Scaled(pcts, restLen))
  {
    ghost var steps := Scaled(pcts, restLen);
    pushed := [];
    var current := start;
    for i := 0 to |pcts|
      invariant |pushed| == i
      invariant forall k :: 0 <= k < i ==> pushed[k] == s[k].(angle := start + Sum(steps[..k]))
      invariant current == start + Sum(steps[..i])
    {
      pushed := pushed + [s[i].(angle := current)];
      SumPrefixStep(steps, i);
      current := current + pcts[i] * restLen;
    }
  }

  /**
   * The loop of `removeSlice` and `removeWedge`: the slices after `ix`,
   * taken cyclically, each at `current_t`, which starts at the normalised
   * angle `start` and after slice `i` moves on by `(lens[i] / remainder) * 2π`,
   * reduced with `mod`.
   */
  method PushStretched(s: seq<Slice>, ix: nat, lens: seq<real>, remainder: real, start: real)
    returns (pushed: seq<Slice>)
    requires ix < |s| && |lens| == |s|
    requires |s| == 1 || remainder != 0.0
    requires IsAngle(start)
    ensures pushed == Cycled(s, ix, start, if |s| == 1 then [] else Ratios(Survivors(lens, ix), remainder, TWO_PI))
  {
    var n := |s|;
    ghost var steps := if n == 1 then [] else Ratios(Survivors(lens, ix), remainder, TWO_PI);
    pushed := [];
    var current := start;
    assert current == Advance(start, Sum(steps[..0])) by {
      assert steps[..0] == [];
      ModOfAngle(start);
    }
    // the source counts `a` from 1 to n - 1; here m == a - 1
    for m := 0 to n - 1
      invariant |pushed| == m
      invariant forall k :: 0 <= k < m ==>
        pushed[k] == s[CycIndex(ix, k + 1, n)].(angle := Mod(start + Sum(steps[..k]), TWO_PI))
      invariant current == Advance(start, Sum(steps[..m]))
    {
      var i := CycIndex(ix, m + 1, n);  // mod(ix + a, n)
      var step := (lens[i] / remainder) * TWO_PI;
      assert step == steps[m];
      PushStretchedStep(s, ix, start, steps, pushed, m, current, step);
      pushed := pushed + [s[i].(angle := current)];
      current := Advance(current, step);  // mod(current_t + arc_pcts[i] * 2π)
    }
    CycledPointwise(s, ix, start, steps, pushed);
  }

  /** One round of `PushStretched`'s loop keeps its invariant. */
  lemma PushStretchedStep(s: seq<Slice>, ix: nat, start: real, steps: seq<real>, pushed: seq<Slice>,
                          m: nat, current: real, step: real)
    requires ix < |s| && |steps| == |s| - 1 && m < |steps| && |pushed| == m
    requires forall k :: 0 <= k < m ==>
      pushed[k] == s[CycIndex(ix, k + 1, |s|)].(angle := Mod(start + Sum(steps[..k]), TWO_PI))
    requires current == Advance(start, Sum(steps[..m])) && step == steps[m]
    ensures forall k :: 0 <= k < m + 1 ==>
      (pushed + [s[CycIndex(ix, m + 1, |s|)].(angle := current)])[k]
        == s[CycIndex(ix, k + 1, |s|)].(angle := Mod(start + Sum(steps[..k]), TWO_PI))
    ensures Advance(current, step) == Advance(start, Sum(steps[..m + 1]))
  {
    AdvanceTwice(start, Sum(steps[..m]), step);
    SumPrefixStep(steps, m);
  }

  lemma CycledPointwise(s: seq<Slice>, ix: nat, start: real, steps: seq<real>, r: seq<Slice>)
    requires ix < |s| && |steps| == |s| - 1 && |r| == |s| - 1
    requires forall k :: 0 <= k < |r| ==>
      r[k] == s[CycIndex(ix, k + 1, |s|)].(angle := Mod(start + Sum(steps[..k]), TWO_PI))
    ensures r == Cycled(s, ix, start, steps)
  {
  }

  /**
   * The list `addSlice`, `addWedge` and `addSpoke` build from their computed
   * values is the insertion with the old lengths `lens`.
   */
  lemma InsertedIs(s: seq<Slice>, added: Slice, lens: seq<real>, newLen: real, pcts: seq<real>, restLen: real,
                   first: Slice, pushed: seq<Slice>)
    requires |lens| == |s| && pcts == Percents(lens) && restLen == TWO_PI - newLen
    requires first == added.(angle := 0.0 - newLen * 0.5 + TWO_PI)
    requires pushed == LaidOut(s, newLen * 0.5, Scaled(pcts, restLen))
    ensures [first] + pushed == InsertWith(s, added, lens, newLen)
  {
    assert Scaled(pcts, restLen) == Squeezed(lens, newLen);
  }

  /** The list `removeSlice` and `removeWedge` build from their computed values is `RemoveLayout`. */
  lemma RemovedIs(s: seq<Slice>, ix: nat, lens: seq<real>, remainder: real, pushed: seq<Slice>)
    requires ix < |s| && lens == ArcLengths(Angles(s)) && remainder == TWO_PI - lens[ix]
    requires |s| == 1 || lens[ix] != TWO_PI
    requires pushed == Cycled(s, ix, s[ix].angle, if |s| == 1 then [] else Ratios(Survivors(lens, ix), remainder, TWO_PI))
    ensures pushed == RemoveLayout(s, ix)
  {
    if |s| >= 2 {
      assert Ratios(Survivors(lens, ix), remainder, TWO_PI) == Stretched(lens, ix);
    }
  }
}
