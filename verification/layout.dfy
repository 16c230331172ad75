/**
 * What `addSlice`/`addWedge`/`addSpoke`, `removeSlice`/`removeWedge`/
 * `removeSpoke`, `moveSliceFwd`/`moveWedgeFwd`, `moveSliceBwd`/`moveWedgeBwd`
 * and `scaleSlice` compute, written as functions of the old slice list, and
 * the facts about them: each keeps the slices a partition of the circle and
 * gives every slice the arc length that operation assigns it.
 */
module Layout {
  import opened Util
  import opened Partition

  // ---------------------------------------------------------------------------
  // Insertion (src/pie.ts addSlice, src/wheel.ts addWedge, src/index.ts addSpoke)
  // ---------------------------------------------------------------------------

  /** Each arc length as a fraction of the circle (`arc_pcts`). */
  function Percents(lens: seq<real>): (pcts: seq<real>)
    ensures |pcts| == |lens|
  {
    seq(|lens|, k requires 0 <= k < |lens| => lens[k] / TWO_PI)
  }

  /** The lengths the old slices get: their fraction of what the new slice leaves over. */
  function Squeezed(lens: seq<real>, newLen: real): (steps: seq<real>)
    ensures |steps| == |lens|
  {
    Scaled(Percents(lens), TWO_PI - newLen)
  }

  /**
   * The new slice list: the new slice first, centred on angle 0, then the old
   * slices in their order, laid out one after the other from the new slice's
   * end with the squeezed lengths.
   */
  function InsertLayout(s: seq<Slice>, added: Slice, newLen: real): (r: seq<Slice>)
    ensures |r| == |s| + 1
    ensures r[0].id == added.id && r[0].name == added.name && r[0].color == added.color
    ensures forall i :: 0 <= i < |s| ==>
      r[i + 1].id == s[i].id && r[i + 1].name == s[i].name && r[i + 1].color == s[i].color
  {
    InsertWith(s, added, ArcLengths(Angles(s)), newLen)
  }

  /** The insertion for given old lengths `lens`, one per slice. */
  function InsertWith(s: seq<Slice>, added: Slice, lens: seq<real>, newLen: real): (r: seq<Slice>)
    requires |lens| == |s|
    ensures |r| == |s| + 1
  {
    [added.(angle := 0.0 - newLen * 0.5 + TWO_PI)] + LaidOut(s, newLen * 0.5, Squeezed(lens, newLen))
  }

  /**
   * The slices of `s` in their order, the first starting at `start` and each
   * next one a step later, without reducing the angles.
   */
  function LaidOut(s: seq<Slice>, start: real, steps: seq<real>): (r: seq<Slice>)
    requires |steps| == |s|
    ensures |r| == |s|
  {
    seq(|s|, i requires 0 <= i < |s| => s[i].(angle := start + Sum(steps[..i])))
  }

  /** A new slice whose id no old slice has keeps the ids distinct. */
  lemma InsertIds(s: seq<Slice>, added: Slice, newLen: real)
    requires DistinctIds(s)
    requires forall k :: 0 <= k < |s| ==> s[k].id != added.id
    ensures DistinctIds(InsertLayout(s, added, newLen))
  {
    var r := InsertLayout(s, added, newLen);
    forall p, q | 0 <= p < q < |r|
      ensures r[p].id != r[q].id
    {
      assert r[q].id == s[q - 1].id;
      if p > 0 {
        assert r[p].id == s[p - 1].id;
        SameIdSameIndex(s, p - 1, q - 1);
      }
    }
    DistinctByPairs(r);
  }

  lemma SumPercents(lens: seq<real>)
    ensures Sum(Percents(lens)) == Sum(lens) / TWO_PI
  {
    assert Percents(lens) == Scaled(lens, 1.0 / TWO_PI);
    SumScaled(lens, 1.0 / TWO_PI);
  }

  /**
   * `new_len` of `addWedge` and `addSpoke`: the average fraction of the
   * circle the old arcs cover, of the whole circle.
   */
  function AverageLength(lens: seq<real>): real
    requires |lens| > 0
  {
    Average(Percents(lens)) * TWO_PI
  }

  /** When the `n` old lengths make a full turn, the average length is 2π / n. */
  lemma AverageOfFullTurn(lens: seq<real>)
    requires FullTurn(lens)
    ensures AverageLength(lens) == TWO_PI / |lens| as real
    ensures |lens| >= 2 ==> 0.0 < AverageLength(lens) < TWO_PI
    ensures |lens| == 1 ==> AverageLength(lens) == TWO_PI
  {
    SumPercents(lens);
    var n := |lens| as real;
    assert Average(Percents(lens)) == 1.0 / n;
    if n >= 2.0 {
      assert TWO_PI / n <= TWO_PI / 2.0;
    }
  }

  lemma FractionOfRest(pct: real, rest: real)
    requires 0.0 < pct <= 1.0 && rest > 0.0
    ensures 0.0 < pct * rest <= rest
  {
    assert rest - pct * rest == (1.0 - pct) * rest;
  }

  lemma SingletonSum(x: real)
    ensures Sum([x]) == x
  {
    assert [x][..0] == [];
  }

  /** The lengths of an insertion into a partition make one full turn. */
  lemma InsertFullTurn(lens: seq<real>, newLen: real)
    requires FullTurn(lens)
    requires 0.0 < newLen < TWO_PI
    ensures FullTurn([newLen] + Squeezed(lens, newLen))
    ensures Sum(Squeezed(lens, newLen)) == TWO_PI - newLen
    ensures forall k :: 0 <= k < |lens| ==> 0.0 < Squeezed(lens, newLen)[k] <= TWO_PI
  {
    SqueezedSum(lens, newLen);
    SqueezedBounds(lens, newLen);
    FullTurnCons(newLen, Squeezed(lens, newLen));
  }

  lemma SqueezedSum(lens: seq<real>, newLen: real)
    requires FullTurn(lens)
    ensures Sum(Squeezed(lens, newLen)) == TWO_PI - newLen
  {
    SumPercents(lens);
    SumScaled(Percents(lens), TWO_PI - newLen);
    OneTimes(Sum(Percents(lens)), TWO_PI - newLen);
  }

  lemma SqueezedBounds(lens: seq<real>, newLen: real)
    requires FullTurn(lens)
    requires 0.0 < newLen < TWO_PI
    ensures forall k :: 0 <= k < |lens| ==> 0.0 < Squeezed(lens, newLen)[k] <= TWO_PI
  {
    var pcts := Percents(lens);
    forall k | 0 <= k < |lens|
      ensures 0.0 < Squeezed(lens, newLen)[k] <= TWO_PI
    {
      FractionOfRest(pcts[k], TWO_PI - newLen);
    }
  }

  /** A first arc followed by arcs that make up the rest of the turn is a full turn. */
  lemma FullTurnCons(x: real, steps: seq<real>)
    requires 0.0 < x <= TWO_PI
    requires forall k :: 0 <= k < |steps| ==> 0.0 < steps[k] <= TWO_PI
    requires Sum(steps) == TWO_PI - x
    ensures FullTurn([x] + steps)
  {
    var all := [x] + steps;
    SumAppend([x], steps);
    SingletonSum(x);
    forall k | 0 <= k < |all|
      ensures 0.0 < all[k] <= TWO_PI
    {
      if k > 0 {
        assert all[k] == steps[k - 1];
      }
    }
  }

  lemma OneTimes(one: real, x: real)
    requires one == 1.0
    ensures one * x == x
  {
  }

  /**
   * Inserting into a partition with a new length strictly between 0 and a
   * full turn gives a partition whose first arc is the new length and whose
   * other arcs are the old ones, squeezed.
   */
  lemma InsertArcLengths(s: seq<Slice>, added: Slice, newLen: real)
    requires IsPartition(Angles(s))
    requires 0.0 < newLen < TWO_PI
    ensures IsPartition(Angles(InsertLayout(s, added, newLen)))
    ensures ArcLengths(Angles(InsertLayout(s, added, newLen))) == [newLen] + Squeezed(ArcLengths(Angles(s)), newLen)
  {
    var r := InsertLayout(s, added, newLen);
    var steps := Squeezed(ArcLengths(Angles(s)), newLen);
    assert FullTurn([newLen] + steps) && Sum(steps) == TWO_PI - newLen
      && forall k :: 0 <= k < |steps| ==> steps[k] > 0.0
    by {
      PartitionIsFullTurn(Angles(s));
      InsertFullTurn(ArcLengths(Angles(s)), newLen);
    }
    InsertStarts(s, added, newLen);
    InsertArcs(Angles(r), steps, newLen);
  }

  lemma InsertStarts(s: seq<Slice>, added: Slice, newLen: real)
    ensures Angles(InsertLayout(s, added, newLen))[0] == TWO_PI - newLen * 0.5
    ensures forall i :: 0 <= i < |s| ==>
      Angles(InsertLayout(s, added, newLen))[i + 1] ==
        newLen * 0.5 + Sum(Squeezed(ArcLengths(Angles(s)), newLen)[..i])
  {
  }

  /**
   * Starts laid out from the new slice's end with positive steps that fill
   * what it leaves have exactly the new length and the steps as arc lengths.
   */
  lemma InsertArcs(starts: seq<real>, steps: seq<real>, newLen: real)
    requires 0.0 < newLen < TWO_PI && |steps| >= 1
    requires forall k :: 0 <= k < |steps| ==> steps[k] > 0.0
    requires Sum(steps) == TWO_PI - newLen
    requires |starts| == |steps| + 1 && starts[0] == TWO_PI - newLen * 0.5
    requires forall i :: 0 <= i < |steps| ==> starts[i + 1] == newLen * 0.5 + Sum(steps[..i])
    ensures AllAngles(starts)
    ensures ArcLengths(starts) == [newLen] + steps
  {
    var n := |steps|;
    forall p | 0 <= p <= n
      ensures IsAngle(starts[p])
    {
      if p > 0 {
        PrefixBelowTotal(steps, p - 1);
      }
    }
    forall p | 0 <= p <= n
      ensures ArcLengths(starts)[p] == ([newLen] + steps)[p]
    {
      if p == 0 {
        assert Succ(0, n + 1) == 1;
        assert starts[1] == newLen * 0.5 by {
          assert steps[..0] == [];
        }
      } else if p < n {
        assert Succ(p, n + 1) == p + 1;
        SumPrefixStep(steps, p - 1);
      } else {
        assert Succ(p, n + 1) == 0;
        SumPrefixStep(steps, n - 1);
        assert steps[..n] == steps;
      }
    }
  }

  // ---------------------------------------------------------------------------
  // Removal (src/pie.ts removeSlice, src/wheel.ts removeWedge)
  // ---------------------------------------------------------------------------

  /** The arc lengths of the survivors, listed from the removed slice's successor. */
  function Survivors(lens: seq<real>, ix: nat): (others: seq<real>)
    requires ix < |lens|
    ensures |others| == |lens| - 1
  {
    seq(|lens| - 1, m requires 0 <= m < |lens| - 1 => lens[CycIndex(ix, m + 1, |lens|)])
  }

  /** The survivors' new lengths: each a fraction of the remainder, of the whole circle. */
  function Stretched(lens: seq<real>, ix: nat): (steps: seq<real>)
    requires ix < |lens| && lens[ix] != TWO_PI
    ensures |steps| == |lens| - 1
    ensures forall m :: 0 <= m < |steps| ==>
      steps[m] == (lens[CycIndex(ix, m + 1, |lens|)] / (TWO_PI - lens[ix])) * TWO_PI
  {
    Ratios(Survivors(lens, ix), TWO_PI - lens[ix], TWO_PI)
  }

  /**
   * Slice `i` exists and, unless it is the only one, does not span the whole
   * circle: removing or rescaling it divides by what the others cover.
   */
  predicate Resizable(s: seq<Slice>, i: nat) {
    i < |s| && (|s| == 1 || ArcLengths(Angles(s))[i] != TWO_PI)
  }

  lemma PartitionResizable(s: seq<Slice>, i: nat)
    requires IsPartition(Angles(s)) && i < |s|
    ensures Resizable(s, i)
    ensures |s| >= 2 ==> ArcLengths(Angles(s))[i] < TWO_PI
  {
    if |s| >= 2 {
      PartitionIsFullTurn(Angles(s));
      ArcBelowFullTurn(ArcLengths(Angles(s)), i);
    }
  }

  /**
   * The slice list after removing the slice at `ix`: the survivors listed
   * cyclically from its successor, which starts where the removed slice
   * started. A single slice leaves an empty list.
   */
  function RemoveLayout(s: seq<Slice>, ix: nat): (r: seq<Slice>)
    requires ix < |s|
    requires |s| == 1 || ArcLengths(Angles(s))[ix] != TWO_PI
    ensures |r| == |s| - 1
    ensures forall m :: 0 <= m < |r| ==>
      var was := s[CycIndex(ix, m + 1, |s|)];
      r[m].id == was.id && r[m].name == was.name && r[m].color == was.color
  {
    Cycled(s, ix, s[ix].angle, if |s| == 1 then [] else Stretched(ArcLengths(Angles(s)), ix))
  }

  /**
   * The slices after `ix`, taken cyclically and leaving `ix` out, the first
   * starting at `start` and each next one a step later, reduced to [0, 2π).
   */
  function Cycled(s: seq<Slice>, ix: nat, start: real, steps: seq<real>): (r: seq<Slice>)
    requires ix < |s| && |steps| == |s| - 1
    ensures |r| == |s| - 1
  {
    seq(|s| - 1, m requires 0 <= m < |s| - 1 =>
      s[CycIndex(ix, m + 1, |s|)].(angle := Mod(start + Sum(steps[..m]), TWO_PI)))
  }

  /**
   * The removed slice is the only one that is gone: every other slice `p`
   * is found at position `OffsetAfter(ix, p, |s|)`.
   */
  lemma RemoveDropsOnlyTarget(s: seq<Slice>, ix: nat)
    requires ix < |s| && DistinctIds(s)
    requires |s| == 1 || ArcLengths(Angles(s))[ix] != TWO_PI
    ensures forall m :: 0 <= m < |s| - 1 ==> RemoveLayout(s, ix)[m].id != s[ix].id
    ensures DistinctIds(RemoveLayout(s, ix))
    ensures forall p :: 0 <= p < |s| && p != ix ==> RemoveLayout(s, ix)[OffsetAfter(ix, p, |s|)] == s[p].(angle := RemoveLayout(s, ix)[OffsetAfter(ix, p, |s|)].angle)
  {
    SurvivorIds(s, RemoveLayout(s, ix), ix);
  }

  /** Any list whose `m`-th entry carries the id of the slice `m + 1` places after `ix` keeps every id but `ix`'s. */
  lemma SurvivorIds(s: seq<Slice>, r: seq<Slice>, ix: nat)
    requires ix < |s| && DistinctIds(s) && |r| == |s| - 1
    requires forall m :: 0 <= m < |r| ==> r[m].id == s[CycIndex(ix, m + 1, |s|)].id
    ensures forall m :: 0 <= m < |r| ==> r[m].id != s[ix].id
    ensures DistinctIds(r)
  {
    forall m | 0 <= m < |r|
      ensures r[m].id != s[ix].id
    {
      var q := CycIndex(ix, m + 1, |s|);
      SameIdSameIndex(s, q, ix);
    }
    forall m1, m2 | 0 <= m1 < m2 < |r|
      ensures r[m1].id != r[m2].id
    {
      var q1 := CycIndex(ix, m1 + 1, |s|);
      var q2 := CycIndex(ix, m2 + 1, |s|);
      SameIdSameIndex(s, q1, q2);
    }
    DistinctByPairs(r);
  }

  /** Each length as a fraction of `d`, of `c`: `(x / d) * c`. */
  function Ratios(xs: seq<real>, d: real, c: real): (ys: seq<real>)
    requires d != 0.0
    ensures |ys| == |xs|
    ensures forall k :: 0 <= k < |xs| ==> ys[k] == (xs[k] / d) * c
  {
    seq(|xs|, k requires 0 <= k < |xs| => (xs[k] / d) * c)
  }

  lemma {:induction false} SumOfRatios(xs: seq<real>, d: real, c: real)
    requires d != 0.0
    ensures Sum(Ratios(xs, d, c)) == (Sum(xs) / d) * c
    decreases |xs|
  {
    if |xs| > 0 {
      var m := |xs| - 1;
      forall k | 0 <= k < m
        ensures Ratios(xs, d, c)[..m][k] == Ratios(xs[..m], d, c)[k]
      {
        assert xs[..m][k] == xs[k];
      }
      assert Ratios(xs, d, c)[..m] == Ratios(xs[..m], d, c);
      SumOfRatios(xs[..m], d, c);
      RatioDistrib(Sum(xs[..m]), xs[m], d, c);
    }
  }

  lemma RatioDistrib(x: real, y: real, d: real, c: real)
    requires d != 0.0
    ensures (x / d) * c + (y / d) * c == ((x + y) / d) * c
  {
  }

  lemma RatioBounds(x: real, d: real, c: real)
    requires 0.0 < x <= d && c > 0.0
    ensures 0.0 < (x / d) * c <= c
  {
    FractionOfRest(x / d, c);
  }

  /** The survivors followed by the removed length are the lengths read from the successor. */
  lemma SurvivorsRotate(lens: seq<real>, ix: nat)
    requires ix < |lens|
    ensures Survivors(lens, ix) + [lens[ix]] == Rotate(lens, Succ(ix, |lens|))
  {
    var n := |lens|;
    var k := Succ(ix, n);
    forall p | 0 <= p < n
      ensures Rotate(lens, k)[p] == (Survivors(lens, ix) + [lens[ix]])[p]
    {
      if p < n - 1 {
        assert CycIndex(k, p, n) == CycIndex(ix, p + 1, n);
      } else {
        assert CycIndex(k, p, n) == ix;
      }
    }
  }

  /** The survivors' lengths make up what the removed slice leaves. */
  lemma SurvivorsSum(lens: seq<real>, ix: nat)
    requires ix < |lens|
    ensures Sum(Survivors(lens, ix)) == Sum(lens) - lens[ix]
  {
    var others := Survivors(lens, ix);
    SurvivorsRotate(lens, ix);
    calc {
      Sum(lens);
      { SumRotate(lens, Succ(ix, |lens|)); }
      Sum(others + [lens[ix]]);
      { SumAppend(others, [lens[ix]]); SingletonSum(lens[ix]); }
      Sum(others) + lens[ix];
    }
  }

  lemma StretchedFullTurn(lens: seq<real>, ix: nat)
    requires FullTurn(lens) && |lens| >= 2 && ix < |lens|
    ensures lens[ix] < TWO_PI
    ensures FullTurn(Stretched(lens, ix))
  {
    SharesOfRest(lens, ix, TWO_PI);
  }

  /**
   * Dividing the other lengths of a full turn by what they add up to and
   * multiplying by `c` gives positive lengths of at most `c` that add up to `c`.
   */
  lemma SharesOfRest(lens: seq<real>, ix: nat, c: real)
    requires FullTurn(lens) && |lens| >= 2 && ix < |lens| && c > 0.0
    ensures lens[ix] < TWO_PI
    ensures var steps := Ratios(Survivors(lens, ix), TWO_PI - lens[ix], c);
            Sum(steps) == c && forall m :: 0 <= m < |steps| ==> 0.0 < steps[m] <= c
  {
    ArcBelowFullTurn(lens, ix);
    SurvivorsSum(lens, ix);
    SharesSum(Survivors(lens, ix), TWO_PI - lens[ix], c);
    SharesBounds(Survivors(lens, ix), TWO_PI - lens[ix], c);
  }

  lemma SharesSum(others: seq<real>, rem: real, c: real)
    requires rem > 0.0 && Sum(others) == rem
    ensures Sum(Ratios(others, rem, c)) == c
  {
    SumOfRatios(others, rem, c);
    WholeShare(rem, c);
  }

  lemma WholeShare(d: real, c: real)
    requires d > 0.0
    ensures (d / d) * c == c
  {
  }

  lemma SharesBounds(others: seq<real>, rem: real, c: real)
    requires rem > 0.0 && Sum(others) == rem && c > 0.0
    requires forall m :: 0 <= m < |others| ==> others[m] > 0.0
    ensures forall m :: 0 <= m < |others| ==> 0.0 < Ratios(others, rem, c)[m] <= c
  {
    forall m | 0 <= m < |others|
      ensures 0.0 < Ratios(others, rem, c)[m] <= c
    {
      SumPositiveElement(others, m);
      RatioBounds(others[m], rem, c);
    }
  }

  /**
   * Removing a slice from a partition of two or more slices leaves a
   * partition in which every survivor's length is multiplied by
   * 2π / (2π − removed length).
   */
  lemma RemoveArcLengths(s: seq<Slice>, ix: nat)
    requires IsPartition(Angles(s)) && |s| >= 2 && ix < |s|
    ensures ArcLengths(Angles(s))[ix] < TWO_PI
    ensures IsPartition(Angles(RemoveLayout(s, ix)))
    ensures ArcLengths(Angles(RemoveLayout(s, ix))) == Stretched(ArcLengths(Angles(s)), ix)
  {
    var lens := ArcLengths(Angles(s));
    RemoveFullTurn(s, ix);
    var steps := Stretched(lens, ix);
    RemoveStartsWalk(s, ix);
    WalkArcLengths(Angles(RemoveLayout(s, ix)), s[ix].angle, steps);
  }

  lemma RemoveFullTurn(s: seq<Slice>, ix: nat)
    requires IsPartition(Angles(s)) && |s| >= 2 && ix < |s|
    ensures ArcLengths(Angles(s))[ix] < TWO_PI
    ensures FullTurn(Stretched(ArcLengths(Angles(s)), ix))
  {
    PartitionIsFullTurn(Angles(s));
    StretchedFullTurn(ArcLengths(Angles(s)), ix);
  }

  lemma RemoveStartsWalk(s: seq<Slice>, ix: nat)
    requires |s| >= 2 && ix < |s| && ArcLengths(Angles(s))[ix] != TWO_PI
    ensures Angles(RemoveLayout(s, ix)) == Walk(s[ix].angle, Stretched(ArcLengths(Angles(s)), ix))
  {
    CycledIsWalk(s, ix, s[ix].angle, Stretched(ArcLengths(Angles(s)), ix));
  }

  lemma CycledIsWalk(s: seq<Slice>, ix: nat, start: real, steps: seq<real>)
    requires ix < |s| && |steps| == |s| - 1
    ensures Angles(Cycled(s, ix, start, steps)) == Walk(start, steps)
  {
  }
}
