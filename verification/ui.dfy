/**
 * What the drag handlers of `UIPie` (src/UI/uipie.ts) and `UIWheel`
 * (src/UI/wheel.ts) share: pointer readings, the sectors the slice views
 * are drawn with, the floating arc that follows the pointer during a drag
 * and the neighbour the drag heads for.
 */
module UiGeometry {
  import opened Util
  import opened Partition

  /**
   * A pointer position together with its angle and distance about the
   * chart's centre. The source computes those with `atan2` (shifted into
   * [0, 2π)) and `sqrt`; here the host supplies them.
   */
  datatype Reading = Reading(at: Point, angle: real, dist: real)

  /** The chart's circle: every slice view is a sector of it. */
  datatype Disc = Disc(o: Point, r: real)

  /** The two ends of a slice view's arc. */
  datatype Sector = Sector(t1: real, t2: real)

  /** Drag direction: `'cw'` or `'ccw'`. */
  datatype Dir = CW | CCW

  /** `contains` of the chart: the pointer lies in the closed disc. */
  predicate InDisc(c: Disc, r: Reading) {
    PointIntersects(r.at, r.angle, Circle(c.o, c.r))
  }

  /** `contains` of a slice view: the pointer lies in its sector of the disc. */
  predicate InSector(c: Disc, s: Sector, r: Reading) {
    PointIntersects(r.at, r.angle, Arc(c.o, c.r, s.t1, s.t2))
  }

  /** `Math.sign`. */
  function Sign(x: real): int {
    if x > 0.0 then 1 else if x < 0.0 then -1 else 0
  }

  /** `sign >= 0 ? 'cw' : 'ccw'`. */
  function DirOf(sign: int): Dir {
    if sign >= 0 then CW else CCW
  }

  function Abs(x: real): real {
    if x < 0.0 then -x else x
  }

  // ---------------------------------------------------------------------------
  // Building slice views
  // ---------------------------------------------------------------------------

  /**
   * The arc a slice view for the slice at `i` is built with (the
   * constructors of `UIPieSlice` and `UIWheelWedge`): from the start of the
   * first slice with that id to the start of its successor.
   */
  function ViewArc(data: seq<Slice>, i: nat): Sector
    requires i < |data|
  {
    var k := FindIndex(data, data[i].id);
    Sector(data[k].angle, data[Succ(k, |data|)].angle)
  }

  /** With distinct ids a view is built with its own slice's arc. */
  lemma ViewArcOfDistinct(data: seq<Slice>, i: nat)
    requires DistinctIds(data) && i < |data|
    ensures ViewArc(data, i) == Sector(data[i].angle, data[Succ(i, |data|)].angle)
  {
    FindDistinct(data, i);
  }

  /**
   * The views built from a partition with distinct ids tile the circle:
   * each spans its slice's arc length, and together they make one turn.
   */
  lemma ViewArcsTile(data: seq<Slice>)
    requires DistinctIds(data) && IsPartition(Angles(data))
    ensures forall i :: 0 <= i < |data| ==>
      ArcLength(ViewArc(data, i).t1, ViewArc(data, i).t2) == ArcLengths(Angles(data))[i]
    ensures Sum(seq(|data|, i requires 0 <= i < |data| => ArcLength(ViewArc(data, i).t1, ViewArc(data, i).t2))) == TWO_PI
  {
    forall i | 0 <= i < |data|
      ensures ArcLength(ViewArc(data, i).t1, ViewArc(data, i).t2) == ArcLengths(Angles(data))[i]
    {
      ViewArcOfDistinct(data, i);
    }
    var lens := seq(|data|, i requires 0 <= i < |data| => ArcLength(ViewArc(data, i).t1, ViewArc(data, i).t2));
    assert lens == ArcLengths(Angles(data));
  }

  /** Position of the last entry equal to `x`, or none. */
  function LastIndexOf(xs: seq<string>, x: string): (k: Option<nat>)
    ensures k.Some? ==> k.value < |xs| && xs[k.value] == x && forall j :: k.value < j < |xs| ==> xs[j] != x
    ensures k.None? ==> forall j :: 0 <= j < |xs| ==> xs[j] != x
  {
    if |xs| == 0 then None
    else if xs[|xs| - 1] == x then Some(|xs| - 1)
    else LastIndexOf(xs[..|xs| - 1], x)
  }

  lemma LastIndexOfStep(xs: seq<string>, i: nat, x: string)
    requires i < |xs|
    ensures LastIndexOf(xs[..i + 1], x) == if xs[i] == x then Some(i) else LastIndexOf(xs[..i], x)
  {
    assert xs[..i + 1][..i] == xs[..i];
  }

  /**
   * The position of the last sector that contains the pointer (the loops of
   * `UIPie.startDrag`, `UIWheel.select`, `highlight` and `startDrag` keep
   * overwriting their pick), or none when no sector contains it.
   */
  function LastContaining(c: Disc, arcs: seq<Sector>, r: Reading): (k: Option<nat>)
    ensures k.Some? ==> k.value < |arcs| && InSector(c, arcs[k.value], r)
    ensures k.Some? ==> forall j :: k.value < j < |arcs| ==> !InSector(c, arcs[j], r)
    ensures k.None? ==> forall j :: 0 <= j < |arcs| ==> !InSector(c, arcs[j], r)
  {
    if |arcs| == 0 then None
    else if InSector(c, arcs[|arcs| - 1], r) then Some(|arcs| - 1)
    else LastContaining(c, arcs[..|arcs| - 1], r)
  }

  lemma LastContainingStep(c: Disc, arcs: seq<Sector>, i: nat, r: Reading)
    requires i < |arcs|
    ensures LastContaining(c, arcs[..i + 1], r) ==
      if InSector(c, arcs[i], r) then Some(i) else LastContaining(c, arcs[..i], r)
  {
    assert arcs[..i + 1][..i] == arcs[..i];
  }

  /** A loop that keeps the last sector containing the pointer. */
  method PickLast(c: Disc, arcs: seq<Sector>, r: Reading) returns (k: Option<nat>)
    ensures k == LastContaining(c, arcs, r)
  {
    k := None;
    for i := 0 to |arcs|
      invariant k == LastContaining(c, arcs[..i], r)
    {
      LastContainingStep(c, arcs, i, r);
      if InSector(c, arcs[i], r) {
        k := Some(i);
      }
    }
    assert arcs[..|arcs|] == arcs;
  }

  // ---------------------------------------------------------------------------
  // The floating arc
  // ---------------------------------------------------------------------------

  /**
   * The floating copy of a dragged slice: an arc as long as the slice's,
   * centred on `theta`, with both ends reduced with `mod`, so normalised.
   */
  function Floating(s: Sector, theta: real): (f: Sector)
    ensures IsAngle(f.t1) && IsAngle(f.t2)
  {
    var len := ArcLength(s.t1, s.t2);
    Sector(Mod(theta - len * 0.5, TWO_PI), Mod(theta + len * 0.5, TWO_PI))
  }

  /**
   * The floating arc of a slice with normalised ends keeps the slice's arc
   * length and has its midpoint at `theta` mod 2π.
   */
  lemma FloatingShape(s: Sector, theta: real)
    requires IsAngle(s.t1) && IsAngle(s.t2)
    ensures var f := Floating(s, theta);
      ArcLength(f.t1, f.t2) == ArcLength(s.t1, s.t2) && AngleBetween(f.t1, f.t2) == Mod(theta, TWO_PI)
  {
    FloatingKeepsShape(theta, ArcLength(s.t1, s.t2));
  }

  lemma FloatingKeepsShape(theta: real, len: real)
    requires 0.0 < len <= TWO_PI
    ensures var a := Mod(theta - len * 0.5, TWO_PI);
            var b := Mod(theta + len * 0.5, TWO_PI);
            ArcLength(a, b) == len && AngleBetween(a, b) == Mod(theta, TWO_PI)
  {
    var h := len * 0.5;
    var a := Mod(theta - h, TWO_PI);
    var b := Mod(theta + h, TWO_PI);
    ModAddMod(theta - h, len);
    assert theta - h + len == theta + h;
    ArcLengthOfStep(a, len);
    assert ArcLength(a, b) == len;
    ModAddMod(theta - h, h);
    assert theta - h + h == theta;
    assert len / 2.0 == h;
  }

  /**
   * Grabbing a slice records `offset = midpoint - pointer angle`, so at the
   * pointer angle of the press the floating arc is centred on the midpoint,
   * and there it is the slice's own arc.
   */
  lemma FloatingAtGrab(s: Sector)
    requires IsAngle(s.t1) && IsAngle(s.t2)
    ensures Floating(s, AngleBetween(s.t1, s.t2)) == s
  {
    var len := ArcLength(s.t1, s.t2);
    var h := len * 0.5;
    var mid := AngleBetween(s.t1, s.t2);
    assert mid == Mod(s.t1 + h, TWO_PI) by { assert len / 2.0 == h; }
    assert Mod(mid - h, TWO_PI) == s.t1 by {
      ModAddMod(s.t1 + h, -h);
      assert s.t1 + h + -h == s.t1;
      ModOfAngle(s.t1);
    }
    assert Mod(mid + h, TWO_PI) == s.t2 by {
      ModAddMod(s.t1 + h, h);
      assert s.t1 + h + h == s.t1 + len;
    }
  }


  /**
   * The floating arc's leading edge: its end when the pointer turns
   * clockwise (sign >= 0, `'cw'`) and its start otherwise.
   */
  function LeadingEdge(f: Sector, sign: int): real {
    if DirOf(sign) == CW then f.t2 else f.t1
  }

  /**
   * The leading edge lies half the dragged arc's length from the pointer's
   * centre angle, ahead of it in the drag direction.
   */
  lemma LeadingEdgeAhead(s: Sector, theta: real, sign: int)
    requires IsAngle(s.t1) && IsAngle(s.t2)
    ensures var f := Floating(s, theta);
      var len := ArcLength(s.t1, s.t2);
      && (DirOf(sign) == CW ==> ArcLength(Mod(theta, TWO_PI), LeadingEdge(f, sign)) * 2.0 == len)
      && (DirOf(sign) == CCW ==> ArcLength(LeadingEdge(f, sign), Mod(theta, TWO_PI)) * 2.0 == len)
  {
    FloatingShape(s, theta);
  }


  // ---------------------------------------------------------------------------
  // The neighbour a drag heads for
  // ---------------------------------------------------------------------------

  /**
   * The neighbour a drag heads for: the successor when the pointer turns
   * clockwise (sign 1), the predecessor when it turns counter-clockwise
   * (sign -1). `NeighbourIsMod` shows it is the source's
   * `mod(curr_i + sign, l)`.
   */
  function Neighbour(i: nat, sign: int, n: nat): (j: nat)
    requires i < n && (sign == 1 || sign == -1)
    ensures j < n
  {
    if sign == 1 then Succ(i, n) else Pred(i, n)
  }

  /** On integers the source's `mod` is the floored modulo, Dafny's `%` for a positive divisor. */
  lemma NeighbourIsMod(i: nat, sign: int, n: nat)
    requires i < n && (sign == 1 || sign == -1)
    ensures Neighbour(i, sign, n) as int == (i + sign) % n
  {
    CycIndexIsMod(i, 1, n);
    if sign == -1 && i > 0 {
      assert (i - 1) % n == i - 1;
    }
  }

}
