/**
 * The `Wheel` class of src/wheel.ts, the equal-weight variant of `Pie`: a
 * new wedge gets the average length 2π / n of the n old ones rather than
 * 2π / (n + 1), so the wheel keeps its starts going round the circle once
 * only from two wedges on. Removing and moving wedges are the pie's
 * operations, proved against the same layout functions.
 */
module WheelModel {
  import opened Util
  import opened Partition
  import opened Layout
  import opened Move
  import opened Rebuild

  /**
   * Adding to a single wedge: the new wedge gets the whole circle, so both
   * wedges start at π and each spans a full turn; the lengths add up to two
   * turns and the wedges no longer partition the circle.
   */
  lemma AddToSingleWedge(s: seq<Slice>, added: Slice)
    requires |s| == 1 && IsAngle(s[0].angle)
    ensures var r := InsertLayout(s, added, TWO_PI);
      Angles(r) == [TWO_PI / 2.0, TWO_PI / 2.0] &&
      ArcLengths(Angles(r)) == [TWO_PI, TWO_PI] && !IsPartition(Angles(r))
  {
    var r := InsertLayout(s, added, TWO_PI);
    var steps := Squeezed(ArcLengths(Angles(s)), TWO_PI);
    assert steps[..0] == [];
    assert r[1].angle == TWO_PI * 0.5 + Sum(steps[..0]);
    assert Angles(r) == [TWO_PI / 2.0, TWO_PI / 2.0];
    assert Succ(0, 2) == 1 && Succ(1, 2) == 0;
    var lens := ArcLengths(Angles(r));
    assert lens == [TWO_PI, TWO_PI];
    assert lens[..1] == [TWO_PI];
    SingletonSum(TWO_PI);
    assert Sum(lens) == 2.0 * TWO_PI;
  }

  /** The wedge `addWedge` creates for a fresh id: named after the id and white. */
  function NewWedge(id: string): Slice {
    Slice(id, "Wedge: " + id, [255, 255, 255], 0.0)
  }

  class Wheel {
    var wedges: seq<Slice>

    /** The wedges have distinct ids and, unless there are none, go round the circle once. */
    predicate Valid()
      reads this
    {
      DistinctIds(wedges) && (|wedges| == 0 || IsPartition(Angles(wedges)))
    }

    /**
     * The constructor takes any list; the object is valid exactly when the
     * list has distinct ids and its angles partition the circle.
     */
    constructor(data: seq<Slice>)
      ensures wedges == data
      ensures Valid() <==> DistinctIds(data) && (|data| == 0 || IsPartition(Angles(data)))
    {
      wedges := data;
    }

    /**
     * `wedgeArcLengths`: the clockwise length from each start to the next;
     * on a valid wheel they are positive and make one full turn.
     */
    function WedgeArcLengths(): (lens: seq<real>)
      reads this
      ensures |lens| == |wedges|
      ensures forall p :: 0 <= p < |wedges| ==>
        lens[p] == ArcLength(wedges[p].angle, wedges[Succ(p, |wedges|)].angle)
      ensures Valid() && |wedges| >= 1 ==> FullTurn(lens)
    {
      var lens := ArcLengths(Angles(wedges));
      if Valid() && |wedges| >= 1 then
        PartitionIsFullTurn(Angles(wedges));
        lens
      else
        lens
    }

    /**
     * `addWedge`, with the id `crypto.randomUUID` would draw as a parameter.
     * The new wedge gets 2π / n and is placed first, centred on angle 0; the
     * old wedges follow in their order, squeezed into the rest. A wheel of
     * one wedge ends up with two wedges on top of each other
     * (`AddToSingleWedge`); an empty wheel is left as it is (the source
     * would compute the average of no lengths).
     */
    method AddWedge(newId: string) returns (ok: bool)
      requires Valid()
      requires forall k :: 0 <= k < |wedges| ==> wedges[k].id != newId
      modifies this
      ensures ok <==> |old(wedges)| >= 1
      ensures ok ==> wedges == InsertLayout(old(wedges), NewWedge(newId), TWO_PI / |old(wedges)| as real)
      ensures !ok ==> wedges == old(wedges)
      ensures DistinctIds(wedges)
      ensures |old(wedges)| != 1 ==> Valid()
    {
      if |wedges| == 0 {
        return false;
      }
      var s := wedges;
      var arcLens := WedgeArcLengths();
      var pcts := Percents(arcLens);
      AverageOfFullTurn(arcLens);
      var avg := Average(pcts);
      var newLen := avg * TWO_PI;
      assert newLen == AverageLength(arcLens);
      var first := NewWedge(newId).(angle := 0.0 - newLen * 0.5 + TWO_PI);
      var restLen := TWO_PI - newLen;
      var current := newLen * 0.5;
      var pushed := PushSqueezed(s, pcts, restLen, current);
      InsertedIs(s, NewWedge(newId), arcLens, newLen, pcts, restLen, first, pushed);
      if |s| >= 2 {
        InsertArcLengths(s, NewWedge(newId), newLen);
      }
      InsertIds(s, NewWedge(newId), newLen);
      wedges := [first] + pushed;
      ok := true;
    }

    /**
     * `removeWedge`: the survivors, listed from the removed wedge's
     * successor, are laid out from the removed wedge's start, each stretched
     * by 2π / (2π − removed length). A missing id leaves the wheel as it is
     * (the source fails reading the angle of `wedges[-1]`).
     */
    method RemoveWedge(id: string) returns (ok: bool)
      requires Valid()
      modifies this
      ensures ok <==> FindIndex(old(wedges), id) >= 0
      ensures ok ==> Resizable(old(wedges), FindIndex(old(wedges), id)) &&
                     wedges == RemoveLayout(old(wedges), FindIndex(old(wedges), id))
      ensures !ok ==> wedges == old(wedges)
      ensures Valid()
    {
      var ix := FindIndex(wedges, id);
      if ix < 0 {
        return false;
      }
      var s := wedges;
      var arcLens := WedgeArcLengths();
      PartitionResizable(s, ix);
      var removedLen := arcLens[ix];
      var remainderTotal := TWO_PI - removedLen;
      var pushed := PushStretched(s, ix, arcLens, remainderTotal, s[ix].angle);
      RemovedIs(s, ix, arcLens, remainderTotal, pushed);
      RemoveDropsOnlyTarget(s, ix);
      if |s| >= 2 {
        RemoveArcLengths(s, ix);
      }
      wedges := pushed;
      ok := true;
    }

    /**
     * `moveWedgeFwd`: the wedge and its successor swap places; the successor
     * takes over the wedge's start and the wedge starts where the
     * successor's arc used to end. A missing id leaves the wheel as it is.
     */
    method MoveWedgeFwd(id: string) returns (ok: bool)
      requires Valid()
      modifies this
      ensures ok <==> FindIndex(old(wedges), id) >= 0
      ensures ok ==> wedges == MoveFwdLayout(old(wedges), FindIndex(old(wedges), id))
      ensures !ok ==> wedges == old(wedges)
      ensures Valid()
    {
      var i := FindIndex(wedges, id);
      if i < 0 {
        return false;
      }
      var n := |wedges|;
      var j := Succ(i, n);  // (i + 1) % n
      var k := Succ(j, n);
      var nextLen := ArcLength(wedges[j].angle, wedges[k].angle);
      var nextAngle := wedges[i].angle;
      var currAngle := Mod(wedges[i].angle + nextLen, TWO_PI);
      // `structuredClone` of every wedge: with wedges as values the copy is the list itself.
      var newWedges := wedges;
      newWedges := newWedges[i := newWedges[i].(angle := currAngle)];
      newWedges := newWedges[j := newWedges[j].(angle := nextAngle)];
      newWedges := newWedges[i := newWedges[j]][j := newWedges[i]];
      assert newWedges == MoveFwdLayout(wedges, i);
      if n == 1 {
        MoveFwdSingle(wedges);
      } else {
        MoveFwdArcLengths(wedges, i);
        MovedIds(wedges, i);
      }
      wedges := newWedges;
      ok := true;
    }

    /**
     * `moveWedgeBwd`: `moveWedgeFwd` of the wedge at `mod(i - 1, n)`, the
     * predecessor of the wedge with the id (of the wedge before last when
     * the id is missing). Only an empty wheel is left as it is.
     */
    method MoveWedgeBwd(id: string) returns (ok: bool)
      requires Valid()
      modifies this
      ensures ok <==> |old(wedges)| >= 1
      ensures ok ==> MoveBwdLayout(old(wedges), id) == Some(wedges)
      ensures !ok ==> wedges == old(wedges)
      ensures Valid()
    {
      if |wedges| == 0 {
        return false;
      }
      var i := FindIndex(wedges, id);
      var h := (i - 1) % |wedges|;
      assert BwdIndex(wedges, id) == Some(h as nat) by {
        BwdIndexIsMod(wedges, id);
      }
      ok := MoveWedgeFwd(wedges[h].id);
    }
  }
}
