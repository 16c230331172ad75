/**
 * The size-based chart of src/sketch.js, the earliest variant of the pie.
 * Each slice is an object with a size (its share of the circle), an angle
 * (its centre), a start and a stop, and the slices are linked into a
 * circular list through `next` and `prev`. The chart keeps the slices in an
 * array as well, in the order of the ring, and remembers the selected
 * slice; `calc_sizes` lays the slices out by walking the ring from it.
 */
module SizeChart {
  import opened Util
  import opened Partition

  /** A slice object (`Slice.new`) with the fields the chart logic uses. */
  class Piece {
    const uuid: string
    var size: real
    var angle: real
    var start: real
    var stop: real
    var next: Piece?
    var prev: Piece?
    /** Set once, by the initial chart, on the slice whose `prev` stays unset. */
    var last: Piece?
    var dragging: bool
    /** The distance of the press that started a size drag from the centre. */
    var dragStartDist: real
    var dragStartSize: real

    /** `Slice.new(angle, size)`, with the uuid `crypto.randomUUID` would draw. */
    constructor(id: string, a: real, s: real)
      ensures uuid == id && angle == a && size == s && start == 0.0 && stop == 0.0
      ensures next == null && prev == null && last == null && !dragging
    {
      uuid := id;
      size := s;
      angle := a;
      start := 0.0;
      stop := 0.0;
      next := null;
      prev := null;
      last := null;
      dragging := false;
      dragStartDist := 0.0;
      dragStartSize := 0.0;
    }

    /** `startDrag`: a size drag starts from a press at distance `d`, remembering the size. */
    method StartDrag(d: real)
      modifies this`dragging, this`dragStartDist, this`dragStartSize
      ensures dragging && dragStartDist == d && dragStartSize == size
    {
      dragging := true;
      dragStartDist := d;
      dragStartSize := size;
    }

    /** `stopDrag`. */
    method StopDrag()
      modifies this`dragging
      ensures !dragging
    {
      dragging := false;
    }

    /**
     * `drag`: with the pointer at distance `d`, the size becomes the size
     * at the start of the drag scaled by `d` over the start distance, so the
     * size grows and shrinks in proportion to the distance. A drag that
     * started on the centre leaves the size as it is (the source divides by
     * zero).
     */
    method Drag(d: real)
      modifies this`size
      ensures dragStartDist != 0.0 ==> size * dragStartDist == d * dragStartSize
      ensures dragStartDist == 0.0 ==> size == old(size)
    {
      if dragStartDist != 0.0 {
        size := (d / dragStartDist) * dragStartSize;
      }
    }
  }

  // ---------------------------------------------------------------------------
  // Views of the array of slices
  // ---------------------------------------------------------------------------

  function Sizes(ps: seq<Piece>): (r: seq<real>)
    reads ps`size
    ensures |r| == |ps| && forall i :: 0 <= i < |ps| ==> r[i] == ps[i].size
  {
    if |ps| == 0 then [] else Sizes(ps[..|ps| - 1]) + [ps[|ps| - 1].size]
  }

  /** The sum of the sizes, added up in array order as `reduce` does. */
  function Total(ps: seq<Piece>): real
    reads ps`size
  {
    if |ps| == 0 then 0.0 else Total(ps[..|ps| - 1]) + ps[|ps| - 1].size
  }

  /** `Total` is the sum of `Sizes`. */
  lemma {:induction false} TotalIsSum(ps: seq<Piece>)
    ensures Total(ps) == Sum(Sizes(ps))
  {
    if |ps| > 0 {
      TotalIsSum(ps[..|ps| - 1]);
      assert Sizes(ps)[..|ps| - 1] == Sizes(ps[..|ps| - 1]);
    }
  }

  /** Positive sizes have a positive total. */
  lemma {:induction false} TotalPositive(ps: seq<Piece>)
    requires |ps| >= 1 && forall i :: 0 <= i < |ps| ==> ps[i].size > 0.0
    ensures Total(ps) > 0.0
  {
    if |ps| > 1 {
      TotalPositive(ps[..|ps| - 1]);
    }
  }

  lemma TotalSign(ps: seq<Piece>)
    ensures (|ps| >= 1 && forall i :: 0 <= i < |ps| ==> ps[i].size > 0.0) ==> Total(ps) > 0.0
  {
    if |ps| >= 1 && forall i :: 0 <= i < |ps| ==> ps[i].size > 0.0 {
      TotalPositive(ps);
    }
  }

  function Uuids(ps: seq<Piece>): (u: seq<string>)
    ensures |u| == |ps| && forall i :: 0 <= i < |ps| ==> u[i] == ps[i].uuid
  {
    seq(|ps|, i requires 0 <= i < |ps| => ps[i].uuid)
  }

  /**
   * The uuids at `i` and `j` differ. Kept as a predicate of its own so that
   * `DistinctUuids` is only unfolded for the pairs a proof asks about.
   */
  predicate Differ(u: seq<string>, i: nat, j: nat)
    requires i < |u| && j < |u|
  {
    u[i] != u[j]
  }

  predicate DistinctUuids(ps: seq<Piece>) {
    var u := Uuids(ps);
    forall i, j :: 0 <= i < j < |u| ==> Differ(u, i, j)
  }

  /** With distinct uuids, two positions holding the same uuid (or object) are one. */
  lemma SamePiece(ps: seq<Piece>, i: nat, j: nat)
    requires DistinctUuids(ps) && i < |ps| && j < |ps|
    ensures ps[i].uuid == ps[j].uuid ==> i == j
  {
    if i < j {
      assert Differ(Uuids(ps), i, j);
    } else if j < i {
      assert Differ(Uuids(ps), j, i);
    }
  }

  /** Every slice's `next` is the following slice of the array, the last one's the first. */
  predicate Linked(ps: seq<Piece>)
    reads ps`next
  {
    forall i {:trigger ps[i].next} :: 0 <= i < |ps| ==> ps[i].next == ps[Succ(i, |ps|)]
  }

  /**
   * Every slice's `prev` is the preceding slice of the array, except that
   * a lone slice may have none (the initial chart's).
   */
  predicate BackLinked(ps: seq<Piece>)
    reads ps`prev
  {
    forall i {:trigger ps[i].prev} :: 0 <= i < |ps| ==> ps[i].prev == ps[Pred(i, |ps|)] || (|ps| == 1 && ps[i].prev == null)
  }

  // ---------------------------------------------------------------------------
  // Specification of the layout
  // ---------------------------------------------------------------------------

  /** The sizes of the slices after the one at `k`, in ring order. */
  function Followers(sz: seq<real>, k: nat): (f: seq<real>)
    requires k < |sz|
    ensures |f| == |sz| - 1 && forall m :: 0 <= m < |sz| - 1 ==> f[m] == sz[CycIndex(k, m + 1, |sz|)]
  {
    seq(|sz| - 1, m requires 0 <= m < |sz| - 1 => sz[CycIndex(k, m + 1, |sz|)])
  }

  /** Read from the slice after `k`, the ring is the followers and then `k` itself. */
  lemma FollowersRotate(sz: seq<real>, k: nat)
    requires k < |sz|
    ensures Rotate(sz, Succ(k, |sz|)) == Followers(sz, k) + [sz[k]]
  {
    var n := |sz|;
    assert Rotate(sz, Succ(k, n))[n - 1] == sz[k];
  }

  /** The slices after one of them hold the rest of the total. */
  lemma FollowersSum(sz: seq<real>, k: nat)
    requires k < |sz|
    ensures Sum(Followers(sz, k)) == Sum(sz) - sz[k]
  {
    FollowersRotate(sz, k);
    SumAppend(Followers(sz, k), [sz[k]]);
    SumRotate(sz, Succ(k, |sz|));
  }

  /** The arc lengths 2π·size of the slices after the one at `k`, in ring order. */
  function FollowLens(ps: seq<Piece>, k: nat): (lens: seq<real>)
    requires k < |ps|
    reads ps`size
    ensures |lens| == |ps| - 1
  {
    Scaled(Followers(Sizes(ps), k), TWO_PI)
  }

  /** Where each step starts when the steps are taken one after another from `from`. */
  function Offsets(from: real, steps: seq<real>): (offs: seq<real>)
    ensures |offs| == |steps| && forall j :: 0 <= j < |steps| ==> offs[j] == from + Sum(steps[..j])
  {
    seq(|steps|, j requires 0 <= j < |steps| => from + Sum(steps[..j]))
  }

  /** The `m`-th slice after the one at `k` in ring order, counting from 0. */
  function Follower(ps: seq<Piece>, k: nat, m: nat): Piece
    requires k < |ps| && m < |ps| - 1
  {
    ps[CycIndex(k, m + 1, |ps|)]
  }

  /**
   * A slice laid over the unreduced span from `s` to `s + len`: its start,
   * stop and centre are the span's, each reduced with JavaScript's `%`.
   */
  predicate Placed(p: Piece, s: real, len: real)
    reads p`angle, p`start, p`stop
  {
    && p.start == Rem(s, TWO_PI)
    && p.stop == Rem(s + len, TWO_PI)
    && p.angle == Rem((s + (s + len)) * 0.5, TWO_PI)
  }

  /** The selected slice centred on its angle, 2π·size long, its start normalised. */
  predicate Centred(og: Piece)
    reads og`size, og`angle, og`start, og`stop
  {
    var len := TWO_PI * og.size;
    og.start == Mod(og.angle - len * 0.5, TWO_PI) && og.stop == Rem(og.start + len, TWO_PI)
  }

  /**
   * The layout `calc_sizes` produces from the slice at `k`: that slice is
   * centred on its angle, and the others follow it round the ring, each
   * starting where the previous one stopped.
   */
  predicate LaidOut(ps: seq<Piece>, k: nat)
    requires k < |ps|
    reads ps`size, ps`angle, ps`start, ps`stop
  {
    Centred(ps[k]) && FollowersPlaced(ps, k, ps[k].stop, FollowLens(ps, k))
  }

  /** Each step starts where the one before it ends. */
  lemma OffsetsStep(from: real, steps: seq<real>, m: nat)
    requires 0 < m < |steps|
    ensures Offsets(from, steps)[m] == Offsets(from, steps)[m - 1] + steps[m - 1]
  {
    SumPrefixStep(steps, m - 1);
  }

  /**
   * In a layout the slices are contiguous: the first slice after the
   * selected one starts where the selected one stops, and each further
   * slice starts where the one before it stops.
   */
  lemma LaidOutContiguous(ps: seq<Piece>, k: nat, m: nat)
    requires k < |ps| && LaidOut(ps, k)
    requires ps[k].size >= 0.0
    requires m < |ps| - 1
    ensures m == 0 ==> Follower(ps, k, m).start == ps[k].stop
    ensures m > 0 ==> Follower(ps, k, m).start == Follower(ps, k, m - 1).stop
  {
    var lens := FollowLens(ps, k);
    var offs := Offsets(ps[k].stop, lens);
    assert Placed(Follower(ps, k, m), offs[m], lens[m]);
    if m == 0 {
      assert lens[..0] == [];
      StopIsAngle(ps[k]);
      RemOfNonNeg(ps[k].stop, TWO_PI);
      ModOfAngle(ps[k].stop);
    } else {
      assert Placed(Follower(ps, k, m - 1), offs[m - 1], lens[m - 1]);
      OffsetsStep(ps[k].stop, lens, m);
    }
  }

  /** A centred slice of non-negative size stops at an angle in [0, 2π). */
  lemma StopIsAngle(og: Piece)
    requires Centred(og) && og.size >= 0.0
    ensures IsAngle(og.stop)
  {
  }

  /**
   * Going round the rest of the circle from the end of an arc that starts at
   * an angle leads back to that angle.
   */
  lemma RingCloses(start: real, len: real)
    requires IsAngle(start) && 0.0 <= len <= TWO_PI
    ensures Rem(Rem(start + len, TWO_PI) + (TWO_PI - len), TWO_PI) == start
  {
    RemOfNonNeg(start + len, TWO_PI);
    RemOfNonNeg(Mod(start + len, TWO_PI) + (TWO_PI - len), TWO_PI);
    ModAddMod(start + len, TWO_PI - len);
    assert start + len + (TWO_PI - len) == start + 1 as real * TWO_PI;
    ModShift(start, 1);
    ModOfAngle(start);
  }

  /** The last slice of a layout stops after all the followers' lengths, reduced. */
  lemma LastStop(ps: seq<Piece>, k: nat)
    requires k < |ps| && |ps| >= 2 && LaidOut(ps, k)
    ensures Follower(ps, k, |ps| - 2).stop == Rem(ps[k].stop + Sum(FollowLens(ps, k)), TWO_PI)
  {
    var lens := FollowLens(ps, k);
    assert Placed(Follower(ps, k, |ps| - 2), Offsets(ps[k].stop, lens)[|ps| - 2], lens[|ps| - 2]);
  }

  /** The followers of a slice take up the rest of the circle when the sizes add up to one. */
  lemma FollowLensSum(ps: seq<Piece>, k: nat)
    requires k < |ps| && Total(ps) == 1.0
    ensures Sum(FollowLens(ps, k)) == TWO_PI - TWO_PI * ps[k].size
  {
    TotalIsSum(ps);
    RestLens(Sizes(ps), k);
  }

  lemma RestLens(sz: seq<real>, k: nat)
    requires k < |sz| && Sum(sz) == 1.0
    ensures Sum(Scaled(Followers(sz, k), TWO_PI)) == TWO_PI - TWO_PI * sz[k]
  {
    FollowersSum(sz, k);
    SumScaled(Followers(sz, k), TWO_PI);
    RestScaled(Sum(Followers(sz, k)), sz[k], TWO_PI);
  }

  lemma RestScaled(x: real, s: real, c: real)
    requires x == 1.0 - s
    ensures x * c == c - c * s
  {
  }

  /**
   * When the sizes are positive and add up to one the ring closes: the last
   * slice stops where the selected slice starts.
   */
  lemma LaidOutCloses(ps: seq<Piece>, k: nat)
    requires k < |ps| && |ps| >= 2 && LaidOut(ps, k)
    requires forall i :: 0 <= i < |ps| ==> ps[i].size > 0.0
    requires Total(ps) == 1.0
    ensures Follower(ps, k, |ps| - 2).stop == ps[k].start
  {
    SizeFacts(ps, k);
    LaidOutClosesGiven(ps, k);
  }

  /** The ring closes once the selected size and the followers' arcs are known to make one turn. */
  lemma LaidOutClosesGiven(ps: seq<Piece>, k: nat)
    requires k < |ps| && |ps| >= 2 && LaidOut(ps, k)
    requires 0.0 < ps[k].size <= 1.0
    requires Sum(FollowLens(ps, k)) == TWO_PI - TWO_PI * ps[k].size
    ensures Follower(ps, k, |ps| - 2).stop == ps[k].start
  {
    LayoutEnds(ps, k);
    CloseRing(ps, k);
  }

  /** The two ends a layout pins down: the selected slice's arc and the last follower's stop. */
  lemma LayoutEnds(ps: seq<Piece>, k: nat)
    requires k < |ps| && |ps| >= 2 && LaidOut(ps, k)
    ensures IsAngle(ps[k].start) && ps[k].stop == Rem(ps[k].start + TWO_PI * ps[k].size, TWO_PI)
    ensures Follower(ps, k, |ps| - 2).stop == Rem(ps[k].stop + Sum(FollowLens(ps, k)), TWO_PI)
  {
    LastStop(ps, k);
    LaidOutCentre(ps, k);
  }

  /** Shares that add up to one: the selected one is at most one, its followers take the rest of the turn. */
  lemma SizeFacts(ps: seq<Piece>, k: nat)
    requires k < |ps|
    requires forall i :: 0 <= i < |ps| ==> ps[i].size > 0.0
    requires Total(ps) == 1.0
    ensures 0.0 < ps[k].size <= 1.0
    ensures Sum(FollowLens(ps, k)) == TWO_PI - TWO_PI * ps[k].size
  {
    FollowLensSum(ps, k);
    SizeWithinOne(ps, k);
  }

  /** With positive sizes summing to 1 each size is at most 1. */
  lemma SizeWithinOne(ps: seq<Piece>, k: nat)
    requires k < |ps| && Total(ps) == 1.0
    requires forall i :: 0 <= i < |ps| ==> ps[i].size > 0.0
    ensures 0.0 < ps[k].size <= 1.0
  {
    TotalIsSum(ps);
    SizesPositive(ps);
    ShareWithinOne(Sizes(ps), k);
  }

  lemma PositiveSizes(ps: seq<Piece>, sz: seq<real>)
    requires Sizes(ps) == sz && forall i :: 0 <= i < |sz| ==> sz[i] > 0.0
    ensures forall i :: 0 <= i < |ps| ==> ps[i].size > 0.0
  {
    forall i | 0 <= i < |ps|
      ensures ps[i].size > 0.0
    {
      assert Sizes(ps)[i] == sz[i];
    }
  }

  lemma SizesPositive(ps: seq<Piece>)
    requires forall i :: 0 <= i < |ps| ==> ps[i].size > 0.0
    ensures forall i :: 0 <= i < |Sizes(ps)| ==> Sizes(ps)[i] > 0.0
  {
  }

  lemma ShareWithinOne(sz: seq<real>, k: nat)
    requires k < |sz| && Sum(sz) == 1.0
    requires forall i :: 0 <= i < |sz| ==> sz[i] > 0.0
    ensures 0.0 < sz[k] <= 1.0
  {
    SumPositiveElement(sz, k);
  }

  /** `CloseValues` read off the slices. */
  lemma CloseRing(ps: seq<Piece>, k: nat)
    requires k < |ps| && |ps| >= 2
    requires 0.0 < ps[k].size <= 1.0
    requires IsAngle(ps[k].start) && ps[k].stop == Rem(ps[k].start + TWO_PI * ps[k].size, TWO_PI)
    requires Sum(FollowLens(ps, k)) == TWO_PI - TWO_PI * ps[k].size
    requires Follower(ps, k, |ps| - 2).stop == Rem(ps[k].stop + Sum(FollowLens(ps, k)), TWO_PI)
    ensures Follower(ps, k, |ps| - 2).stop == ps[k].start
  {
    CloseValues(ps[k].start, ps[k].stop, ps[k].size, Sum(FollowLens(ps, k)), Follower(ps, k, |ps| - 2).stop);
  }

  /** The selected slice of a layout starts at an angle and stops 2π·size later, reduced. */
  lemma LaidOutCentre(ps: seq<Piece>, k: nat)
    requires k < |ps| && LaidOut(ps, k)
    ensures IsAngle(ps[k].start) && ps[k].stop == Rem(ps[k].start + TWO_PI * ps[k].size, TWO_PI)
  {
  }

  /**
   * Going round from the selected slice's start by its own arc and then by
   * the rest of the turn comes back to the start.
   */
  lemma CloseValues(start: real, stop: real, size: real, rest: real, last: real)
    requires IsAngle(start) && 0.0 <= size <= 1.0
    requires stop == Rem(start + TWO_PI * size, TWO_PI) && rest == TWO_PI - TWO_PI * size
    requires last == Rem(stop + rest, TWO_PI)
    ensures last == start
  {
    ArcWithin(size);
    RemCongruent(stop + rest, Rem(start + TWO_PI * size, TWO_PI) + (TWO_PI - TWO_PI * size));
    RingCloses(start, TWO_PI * size);
  }

  lemma RemCongruent(a: real, b: real)
    requires a == b
    ensures Rem(a, TWO_PI) == Rem(b, TWO_PI)
  {
  }

  /** A share between zero and one of the circle is an arc of at most one turn. */
  lemma ArcWithin(size: real)
    requires 0.0 <= size <= 1.0
    ensures 0.0 <= TWO_PI * size <= TWO_PI
  {
  }

  /** Every size divided by `t`. */
  function Divided(xs: seq<real>, t: real): (ys: seq<real>)
    requires t != 0.0
    ensures |ys| == |xs| && forall k :: 0 <= k < |xs| ==> ys[k] == xs[k] / t
  {
    seq(|xs|, k requires 0 <= k < |xs| => xs[k] / t)
  }

  lemma {:induction false} SumDivided(xs: seq<real>, t: real)
    requires t != 0.0
    ensures Sum(Divided(xs, t)) == Sum(xs) / t
  {
    if |xs| > 0 {
      var n := |xs|;
      SumDivided(xs[..n - 1], t);
      assert Divided(xs, t)[..n - 1] == Divided(xs[..n - 1], t);
      AddQuotients(Sum(xs[..n - 1]), xs[n - 1], t);
    }
  }

  lemma AddQuotients(a: real, b: real, t: real)
    requires t != 0.0
    ensures a / t + b / t == (a + b) / t
  {
  }

  lemma SelfQuotient(t: real)
    requires t != 0.0
    ensures t / t == 1.0
  {
  }

  /** Dividing every size by their total, when it is not zero, leaves sizes that add up to one. */
  lemma NormalizedSum(sz: seq<real>, r: seq<real>)
    requires Sum(sz) != 0.0 && r == Divided(sz, Sum(sz))
    ensures Sum(r) == 1.0
  {
    SumDivided(sz, Sum(sz));
    SelfQuotient(Sum(sz));
  }

  /** Positive sizes have a positive total. */
  lemma PositiveTotal(sz: seq<real>)
    requires |sz| >= 1 && forall i :: 0 <= i < |sz| ==> sz[i] > 0.0
    ensures Sum(sz) > 0.0
  {
    SumPositiveElement(sz, 0);
  }


  /** Positive sizes divided by a positive total stay positive. */
  lemma PositiveQuotient(x: real, t: real)
    requires x > 0.0 && t > 0.0
    ensures x / t > 0.0
  {
  }

  // ---------------------------------------------------------------------------
  // calc_sizes
  // ---------------------------------------------------------------------------

  /** With distinct uuids, followers at different offsets from `k` are different slices. */
  lemma FollowersDistinct(ps: seq<Piece>, k: nat, j: nat, m: nat)
    requires DistinctUuids(ps) && k < |ps| && j < m < |ps| - 1
    ensures Follower(ps, k, j) != Follower(ps, k, m)
  {
    SamePiece(ps, CycIndex(k, j + 1, |ps|), CycIndex(k, m + 1, |ps|));
  }

  /** No follower of the slice at `k` is that slice. */
  lemma FollowerNotSelected(ps: seq<Piece>, k: nat, m: nat)
    requires DistinctUuids(ps) && k < |ps| && m < |ps| - 1
    ensures Follower(ps, k, m) != ps[k]
  {
    SamePiece(ps, CycIndex(k, m + 1, |ps|), k);
  }

  /**
   * The first part of `calc_sizes`: the selected slice is centred on its
   * angle, 2π·size long, its start reduced with `%` and raised by 2π when
   * negative, its stop reduced.
   */
  method Centre(slice: Piece)
    modifies slice`start, slice`stop
    ensures Centred(slice)
  {
    var arcLen := TWO_PI * slice.size;
    slice.start := Rem(slice.angle - arcLen * 0.5, TWO_PI);
    if slice.start < 0.0 {
      slice.start := slice.start + TWO_PI;
    }
    RaisedRemIsMod(slice.angle - arcLen * 0.5, TWO_PI);
    slice.stop := Rem(slice.start + arcLen, TWO_PI);
  }

  /** One step along the ring from the `m`-th slice after `k` reaches the next follower, unless it is back at `k`. */
  lemma FollowStep(ps: seq<Piece>, k: nat, m: nat)
    requires k < |ps| && m < |ps| && Linked(ps) && DistinctUuids(ps)
    requires ps[CycIndex(k, m, |ps|)].next.uuid != ps[k].uuid
    ensures m + 1 < |ps|
    ensures ps[CycIndex(k, m, |ps|)].next == Follower(ps, k, m)
  {
    var n := |ps|;
    assert ps[CycIndex(k, m, n)].next == ps[Succ(CycIndex(k, m, n), n)];
    if m + 1 < n {
      assert Succ(CycIndex(k, m, n), n) == CycIndex(k, m + 1, n);
    }
  }

  /** When the ring leads back to `k` from the `m`-th slice after it, every slice was passed. */
  lemma FollowEnd(ps: seq<Piece>, k: nat, m: nat)
    requires k < |ps| && m < |ps| && Linked(ps) && DistinctUuids(ps)
    requires ps[CycIndex(k, m, |ps|)].next.uuid == ps[k].uuid
    ensures m == |ps| - 1
  {
    var n := |ps|;
    assert ps[CycIndex(k, m, n)].next == ps[Succ(CycIndex(k, m, n), n)];
    if m + 1 < n {
      assert Succ(CycIndex(k, m, n), n) == CycIndex(k, m + 1, n);
      SamePiece(ps, CycIndex(k, m + 1, n), k);
    }
  }

  /** The `m`-th arc length after `k` is 2π times the size of the `m`-th follower. */
  lemma FollowLensAt(ps: seq<Piece>, k: nat, m: nat)
    requires k < |ps| && m < |ps| - 1
    ensures FollowLens(ps, k)[m] == Follower(ps, k, m).size * TWO_PI
  {
  }

  /** The slices laid after the one at `k`, as in `LaidOut`. */
  predicate FollowersPlaced(ps: seq<Piece>, k: nat, from: real, lens: seq<real>)
    requires k < |ps| && |lens| == |ps| - 1
    reads ps`angle, ps`start, ps`stop
  {
    var offs := Offsets(from, lens);
    forall m {:trigger Follower(ps, k, m)} :: 0 <= m < |ps| - 1 ==> Placed(Follower(ps, k, m), offs[m], lens[m])
  }

  /**
   * The `while` loop of `calc_sizes`: from the selected slice `og` it
   * follows `next` until the ring leads back to `og`, laying each slice it
   * passes from where the previous one stopped, with length 2π·size.
   */
  method LayFollowers(ps: seq<Piece>, og: Piece, ghost k: nat)
    requires k < |ps| && ps[k] == og
    requires Linked(ps) && DistinctUuids(ps)
    modifies ps`angle, ps`start, ps`stop
    ensures og.angle == old(og.angle) && og.start == old(og.start) && og.stop == old(og.stop)
    ensures FollowersPlaced(ps, k, og.stop, FollowLens(ps, k))
  {
    var n := |ps|;
    ghost var lens := FollowLens(ps, k);
    ghost var offs := Offsets(og.stop, lens);
    var stop := og.stop;
    var slice := og;
    ghost var m: nat := 0;
    while slice.next.uuid != og.uuid
      invariant m < n && slice == ps[CycIndex(k, m, n)]
      invariant stop == og.stop + Sum(lens[..m])
      invariant og.angle == old(og.angle) && og.start == old(og.start) && og.stop == old(og.stop)
      invariant FollowLens(ps, k) == lens
      invariant forall j {:trigger Follower(ps, k, j)} :: 0 <= j < m ==> Placed(Follower(ps, k, j), offs[j], lens[j])
      decreases n - m
    {
      FollowStep(ps, k, m);
      FollowerNotSelected(ps, k, m);
      slice := slice.next;
      FollowLensAt(ps, k, m);
      SumPrefixStep(lens, m);
      stop := LayNext(ps, k, m, slice, stop, lens, offs);
      m := m + 1;
    }
    FollowEnd(ps, k, m);
  }

  /** One pass of that loop, laying the `m`-th follower after those already laid. */
  method LayNext(ps: seq<Piece>, ghost k: nat, ghost m: nat, slice: Piece, stop: real,
                 ghost lens: seq<real>, ghost offs: seq<real>) returns (newStop: real)
    requires k < |ps| && m < |ps| - 1 && slice == Follower(ps, k, m) && DistinctUuids(ps)
    requires |lens| == |offs| == |ps| - 1 && lens[m] == slice.size * TWO_PI && offs[m] == stop
    requires forall j {:trigger Follower(ps, k, j)} :: 0 <= j < m ==> Placed(Follower(ps, k, j), offs[j], lens[j])
    modifies slice`angle, slice`start, slice`stop
    ensures newStop == stop + lens[m]
    ensures forall j {:trigger Follower(ps, k, j)} :: 0 <= j <= m ==> Placed(Follower(ps, k, j), offs[j], lens[j])
  {
    forall j | 0 <= j < m
      ensures Follower(ps, k, j) != slice
    {
      FollowersDistinct(ps, k, j, m);
    }
    newStop := LayOne(slice, stop);
  }

  /**
   * One pass of that loop: the slice is laid from `stop` with length
   * 2π·size, and the next one will start where it stops.
   */
  method LayOne(slice: Piece, stop: real) returns (newStop: real)
    modifies slice`angle, slice`start, slice`stop
    ensures newStop == stop + slice.size * TWO_PI
    ensures Placed(slice, stop, slice.size * TWO_PI)
  {
    var len := slice.size * TWO_PI;
    var start := stop;
    newStop := start + len;
    var newA := (start + newStop) * 0.5;
    slice.angle := Rem(newA, TWO_PI);
    slice.start := Rem(start, TWO_PI);
    slice.stop := Rem(newStop, TWO_PI);
  }

  // ---------------------------------------------------------------------------
  // add_slice
  // ---------------------------------------------------------------------------

  /**
   * A slice laid over the unreduced span from `s` to `s + len` (the loop of
   * `add_slice` does not reduce).
   */
  predicate Spanned(p: Piece, s: real, len: real)
    reads p`angle, p`start, p`stop
  {
    p.start == s && p.stop == s + len && p.angle == (s + (s + len)) * 0.5
  }

  /**
   * Every slice `ps[j]` spans `steps[j]` from `offs[j]`; stated slice by
   * slice from the back, so that it is unfolded only as far as a proof needs.
   */
  ghost predicate SpannedAll(ps: seq<Piece>, offs: seq<real>, steps: seq<real>)
    requires |offs| == |ps| && |steps| == |ps|
    reads ps`angle, ps`start, ps`stop
  {
    |ps| == 0 ||
    var n := |ps| - 1;
    && SpannedAll(ps[..n], offs[..n], steps[..n])
    && Spanned(ps[n], offs[n], steps[n])
  }

  lemma {:induction false} SpannedEach(ps: seq<Piece>, offs: seq<real>, steps: seq<real>)
    requires |offs| == |ps| && |steps| == |ps|
    ensures SpannedAll(ps, offs, steps) <==>
      forall j :: 0 <= j < |ps| ==> Spanned(ps[j], offs[j], steps[j])
  {
    if |ps| > 0 {
      var n := |ps| - 1;
      SpannedEach(ps[..n], offs[..n], steps[..n]);
      assert forall j :: 0 <= j < n ==> ps[..n][j] == ps[j] && offs[..n][j] == offs[j] && steps[..n][j] == steps[j];
    }
  }

  /**
   * The old slices, whose sizes were `sz`, squeezed into `restArc`: laid in
   * array order from `from`, each spanning its old size times `restArc`,
   * with each size divided by `denom`.
   */
  ghost predicate Squeezed(ps: seq<Piece>, sz: seq<real>, restArc: real, from: real, denom: real)
    requires |sz| == |ps| && denom != 0.0
    reads ps`size, ps`angle, ps`start, ps`stop
  {
    && Sizes(ps) == Divided(sz, denom)
    && var steps := Scaled(sz, restArc);
      SpannedAll(ps, Offsets(from, steps), steps)
  }

  /**
   * The loop of `add_slice`: the old slices are squeezed into the rest of
   * the circle, laid in array order from `from`, each spanning its old size
   * times `restArc`, and each size is divided by `denom`.
   */
  method Squeeze(ps: seq<Piece>, restArc: real, from: real, denom: real)
    requires DistinctUuids(ps) && denom != 0.0
    modifies ps`angle, ps`start, ps`stop, ps`size
    ensures Squeezed(ps, old(Sizes(ps)), restArc, from, denom)
  {
    ghost var sz := Sizes(ps);
    ghost var steps := Scaled(sz, restArc);
    ghost var shares := Divided(sz, denom);
    ghost var offs := Offsets(from, steps);
    var restStop := from;
    for i := 0 to |ps|
      invariant restStop == from + Sum(steps[..i])
      invariant forall j :: 0 <= j < i ==> ps[j].size == shares[j]
      invariant forall j :: i <= j < |ps| ==> ps[j].size == sz[j]
      invariant forall j :: 0 <= j < i ==> Spanned(ps[j], offs[j], steps[j])
    {
      var s := ps[i];
      forall j | 0 <= j < |ps| && j != i
        ensures ps[j] != s
      {
        SamePiece(ps, i, j);
      }
      SumPrefixStep(steps, i);
      restStop := SqueezeOne(s, restStop, restArc, denom, sz, i);
    }
    assert Sizes(ps) == shares;
    SpannedEach(ps, offs, steps);
  }

  /**
   * One pass of that loop: the slice spans its size times `restArc` from
   * `restStop`, where the next one will start, and its size is divided by
   * `denom`.
   */
  method SqueezeOne(s: Piece, restStop: real, restArc: real, denom: real, ghost sz: seq<real>, ghost i: nat)
    returns (newStop: real)
    requires i < |sz| && s.size == sz[i] && denom != 0.0
    modifies s`angle, s`start, s`stop, s`size
    ensures newStop == restStop + Scaled(sz, restArc)[i]
    ensures Spanned(s, restStop, Scaled(sz, restArc)[i])
    ensures s.size == Divided(sz, denom)[i]
  {
    var newSize := s.size * restArc;
    var restStart := restStop;
    newStop := restStart + newSize;
    var newA := (restStart + newStop) * 0.5;
    s.angle := newA;
    s.start := restStart;
    s.stop := newStop;
    s.size := s.size / denom;
  }

  /**
   * On sizes adding up to one, the share `add_slice` gives the new slice,
   * the average over one plus the average, is 1 / (n + 1).
   */
  lemma NewShare(n: nat)
    requires n >= 1
    ensures var avg := 1.0 / n as real; avg / (1.0 + avg) == 1.0 / (n as real + 1.0)
  {
    var m := n as real;
    var avg := 1.0 / m;
    assert avg * m == 1.0;
    assert (1.0 + avg) * m == m + 1.0;
    QuotientScaled(avg, 1.0 + avg, m);
  }

  lemma QuotientScaled(x: real, y: real, m: real)
    requires y != 0.0 && m != 0.0
    ensures x / y == (x * m) / (y * m)
  {
  }

  /**
   * The squeeze of `add_slice` on sizes adding up to one fills the rest of
   * the circle: its steps add up to `restArc`.
   */
  lemma SqueezeFills(sz: seq<real>, restArc: real)
    requires |sz| >= 1 && Sum(sz) == 1.0
    ensures var steps := Scaled(sz, restArc);
      Sum(steps[..|sz| - 1]) + steps[|sz| - 1] == restArc
  {
    SumScaled(sz, restArc);
  }

  /**
   * Dividing by `total + avg`, as `add_slice` does, makes the old sizes and
   * the new share add up to one whatever the old total.
   */
  lemma AddedSizesSum(sz: seq<real>, total: real, avg: real)
    requires total == Sum(sz) && total + avg != 0.0
    ensures Sum(Divided(sz, total + avg) + [avg / (total + avg)]) == 1.0
  {
    var t := total + avg;
    SumAppend(Divided(sz, t), [avg / t]);
    assert Sum([avg / t]) == avg / t;
    SumDivided(sz, t);
    AddQuotients(total, avg, t);
    SelfQuotient(t);
  }

  /** Appending a fresh slice linked between the last and the first keeps a linked ring, with every `prev` set. */
  lemma AddedRing(ps: seq<Piece>, p: Piece)
    requires |ps| >= 1
    requires forall i :: 0 <= i < |ps| - 1 ==> ps[i].next == ps[i + 1]
    requires forall i :: 1 <= i < |ps| ==> ps[i].prev == ps[i - 1]
    requires ps[|ps| - 1].next == p && ps[0].prev == p && p.next == ps[0] && p.prev == ps[|ps| - 1]
    ensures Linked(ps + [p])
    ensures forall i :: 0 <= i < |ps| + 1 ==> (ps + [p])[i].prev == (ps + [p])[Pred(i, |ps| + 1)]
  {
  }

  /**
   * The squeezed slices, laid from `arcEnd` over steps that add up to
   * `restArc`, end at `arcEnd + restArc`; in `add_slice` that is where the
   * new slice starts, so together they close the circle.
   */
  lemma SqueezeCloses(sz: seq<real>, arcEnd: real, restArc: real)
    requires |sz| >= 1 && Sum(sz) == 1.0
    ensures var steps := Scaled(sz, restArc);
      Offsets(arcEnd, steps)[|sz| - 1] + steps[|sz| - 1] == arcEnd + restArc
  {
    SqueezeFills(sz, restArc);
  }

  /** A slice with a new uuid keeps the uuids distinct. */
  lemma AddedDistinct(ps: seq<Piece>, p: Piece)
    requires DistinctUuids(ps) && p.uuid !in Uuids(ps)
    ensures DistinctUuids(ps + [p])
  {
    var u := Uuids(ps + [p]);
    forall i, j | 0 <= i < j < |u|
      ensures Differ(u, i, j)
    {
      if j == |ps| {
        assert u[i] == Uuids(ps)[i];
      } else {
        assert u[i] == Uuids(ps)[i] && u[j] == Uuids(ps)[j];
        assert Differ(Uuids(ps), i, j);
      }
    }
  }

  /** The sizes of a list with one more slice. */
  lemma SizesAppend(ps: seq<Piece>, p: Piece)
    ensures Sizes(ps + [p]) == Sizes(ps) + [p.size]
    ensures Total(ps + [p]) == Total(ps) + p.size
  {
    assert (ps + [p])[..|ps|] == ps;
  }

  /**
   * After the squeeze the old sizes divided by `total + avg` and the new
   * share `avg / (total + avg)` add up to one.
   */
  lemma AddedTotal(ps: seq<Piece>, p: Piece, sz: seq<real>, total: real, avg: real, denom: real)
    requires total == Sum(sz) && denom == total + avg && denom != 0.0
    requires Sizes(ps) == Divided(sz, denom) && p.size == avg / denom
    ensures Total(ps + [p]) == 1.0
  {
    SizesAppend(ps, p);
    TotalIsSum(ps + [p]);
    AddedSizesSum(sz, total, avg);
  }

  /**
   * The end of `add_slice`: a new slice with uuid `id`, angle 0, size
   * `norm` and the arc from `arcStart` to `arcEnd` is linked between the
   * last slice and the first, so the list with it appended is a ring.
   */
  method Append(ps: seq<Piece>, id: string, norm: real, arcStart: real, arcEnd: real) returns (slice: Piece)
    requires Ring(ps) && id !in Uuids(ps)
    modifies ps`next, ps`prev
    ensures fresh(slice) && slice.uuid == id && slice.size == norm && slice.angle == 0.0
    ensures slice.start == arcStart && slice.stop == arcEnd
    ensures Ring(ps + [slice])
  {
    var first := ps[0];
    var last := ps[|ps| - 1];
    slice := new Piece(id, 0.0, norm);
    slice.angle := 0.0;
    slice.start := arcStart;
    slice.stop := arcEnd;
    slice.size := norm;
    forall i | 0 <= i < |ps| - 1
      ensures ps[i] != last
    {
      SamePiece(ps, i, |ps| - 1);
    }
    forall i | 1 <= i < |ps|
      ensures ps[i] != first
    {
      SamePiece(ps, i, 0);
    }
    last.next := slice;
    first.prev := slice;
    slice.next := first;
    slice.prev := last;
    AddedRing(ps, slice);
    AddedDistinct(ps, slice);
  }

  // ---------------------------------------------------------------------------
  // remove_slice
  // ---------------------------------------------------------------------------

  /**
   * The ring with the slice at `ix` taken out: its predecessor and its
   * successor point at each other, and every other link is the ring's own.
   */
  predicate Joined(ps: seq<Piece>, ix: nat)
    requires |ps| >= 2 && ix < |ps|
    reads ps`next, ps`prev
  {
    var p := Pred(ix, |ps|);
    var q := Succ(ix, |ps|);
    && ps[p].next == ps[q] && ps[q].prev == ps[p]
    && (forall j {:trigger ps[j].next} :: 0 <= j < |ps| && j != p ==> ps[j].next == ps[Succ(j, |ps|)])
    && (forall j {:trigger ps[j].prev} :: 0 <= j < |ps| && j != q ==> ps[j].prev == ps[Pred(j, |ps|)])
  }

  /** With distinct uuids, the slice at `i` has the uuid `id` exactly when `i` is the position `IndexOf` finds. */
  lemma IndexOfDistinct(ps: seq<Piece>, i: nat, id: string)
    requires DistinctUuids(ps) && i < |ps|
    ensures ps[i].uuid == id <==> IndexOf(Uuids(ps), id) == i
  {
    if ps[i].uuid == id {
      var ix := IndexOf(Uuids(ps), id);
      assert Uuids(ps)[i] == id;
      SamePiece(ps, i, ix);
    }
  }

  /** `filter` by uuid: the slices whose uuid is not `id`, in order. */
  function Without(ps: seq<Piece>, id: string): (r: seq<Piece>)
    ensures |r| <= |ps|
  {
    if |ps| == 0 then [] else
      var n := |ps| - 1;
      Without(ps[..n], id) + (if ps[n].uuid == id then [] else [ps[n]])
  }

  /** With distinct uuids, filtering a prefix is `Kept` with the index of `id`. */
  lemma {:induction false} WithoutKept(ps: seq<Piece>, id: string, i: nat)
    requires DistinctUuids(ps) && i <= |ps|
    ensures Without(ps[..i], id) == Kept(ps, IndexOf(Uuids(ps), id), i)
  {
    if i > 0 {
      WithoutKept(ps, id, i - 1);
      assert ps[..i][..i - 1] == ps[..i - 1];
      IndexOfDistinct(ps, i - 1, id);
    }
  }

  /**
   * With distinct uuids the filter cuts out the one slice with uuid `id`
   * and keeps the rest in order; an absent uuid keeps them all.
   */
  lemma WithoutIs(ps: seq<Piece>, id: string)
    requires DistinctUuids(ps)
    ensures var ix := IndexOf(Uuids(ps), id);
      Without(ps, id) == if ix >= 0 then ps[..ix] + ps[ix + 1..] else ps
  {
    WithoutKept(ps, id, |ps|);
    KeptIs(ps, IndexOf(Uuids(ps), id), |ps|);
    assert ps[..|ps|] == ps;
  }

  /** The filter keeps only slices of the list. */
  lemma {:induction false} WithoutWithin(ps: seq<Piece>, id: string)
    ensures forall i :: 0 <= i < |Without(ps, id)| ==> Without(ps, id)[i] in ps
  {
    if |ps| > 0 {
      var n := |ps| - 1;
      WithoutWithin(ps[..n], id);
      var w := Without(ps[..n], id);
      assert forall i :: 0 <= i < |w| ==> w[i] in ps[..n] ==> w[i] in ps;
    }
  }

  /**
   * The `filter` of `remove_slice`: the slices without the uuid, in order.
   * On the way the matching slice's predecessor is given its successor as
   * `next` and the successor its predecessor as `prev`; no other link
   * changes.
   */
  method Unlink(ps: seq<Piece>, id: string) returns (rest: seq<Piece>)
    requires |ps| >= 2 && DistinctUuids(ps) && Linked(ps) && BackLinked(ps)
    modifies ps`next, ps`prev
    ensures Filtered(ps, IndexOf(Uuids(ps), id), |ps|, rest)
  {
    ghost var ix := IndexOf(Uuids(ps), id);
    rest := [];
    for i := 0 to |ps|
      invariant Filtered(ps, ix, i, rest)
    {
      rest := FilterStep(ps, id, i, ix, rest);
    }
  }

  /** After the last slice, the filter has kept every slice but the one at `ix`. */
  lemma FilteredAll(ps: seq<Piece>, ix: int, rest: seq<Piece>)
    requires |ps| >= 2 && -1 <= ix < |ps| && Filtered(ps, ix, |ps|, rest)
    ensures rest == (if ix >= 0 then ps[..ix] + ps[ix + 1..] else ps)
    ensures ix >= 0 ==> Joined(ps, ix)
    ensures ix < 0 ==> Linked(ps) && BackLinked(ps)
  {
    KeptIs(ps, ix, |ps|);
    assert ps[..|ps|] == ps;
  }

  /** The slices before `i` other than the one at `ix`, in order. */
  function Kept(ps: seq<Piece>, ix: int, i: nat): (r: seq<Piece>)
    requires i <= |ps|
    ensures |r| <= i
  {
    if i == 0 then [] else Kept(ps, ix, i - 1) + (if i - 1 == ix then [] else [ps[i - 1]])
  }

  /** `Kept` is the prefix with the slice at `ix` cut out. */
  lemma {:induction false} KeptIs(ps: seq<Piece>, ix: int, i: nat)
    requires i <= |ps|
    ensures Kept(ps, ix, i) == if 0 <= ix < i then ps[..ix] + ps[ix + 1..i] else ps[..i]
  {
    if i > 0 {
      KeptIs(ps, ix, i - 1);
      KeptStep(ps, ix, i - 1, Kept(ps, ix, i - 1));
    }
  }

  lemma KeptStep(ps: seq<Piece>, ix: int, i: nat, r: seq<Piece>)
    requires i < |ps| && r == if 0 <= ix < i then ps[..ix] + ps[ix + 1..i] else ps[..i]
    ensures r + (if i == ix then [] else [ps[i]]) == if 0 <= ix < i + 1 then ps[..ix] + ps[ix + 1..i + 1] else ps[..i + 1]
  {
    if 0 <= ix < i {
      assert ps[ix + 1..i + 1] == ps[ix + 1..i] + [ps[i]];
    } else if ix == i {
      assert ps[ix + 1..i + 1] == [];
    } else {
      assert ps[..i + 1] == ps[..i] + [ps[i]];
    }
  }

  /**
   * The state of that `filter` after the slices before `i`: the kept ones
   * are collected in order, and the ring is intact until the matching slice
   * at `ix` has been passed, joined around it afterwards.
   */
  ghost predicate Filtered(ps: seq<Piece>, ix: int, i: nat, rest: seq<Piece>)
    requires |ps| >= 2 && i <= |ps| && ix < |ps|
    reads ps`next, ps`prev
  {
    && rest == Kept(ps, ix, i)
    && (!(0 <= ix < i) ==> Linked(ps) && BackLinked(ps))
    && (0 <= ix < i ==> Joined(ps, ix))
  }

  /** One call of the `filter` callback, on the slice at `i`. */
  method FilterStep(ps: seq<Piece>, id: string, i: nat, ghost ix: int, rest: seq<Piece>) returns (rest': seq<Piece>)
    requires |ps| >= 2 && DistinctUuids(ps) && i < |ps| && ix == IndexOf(Uuids(ps), id)
    requires Filtered(ps, ix, i, rest)
    modifies ps`next, ps`prev
    ensures Filtered(ps, ix, i + 1, rest')
  {
    var s := ps[i];
    IndexOfDistinct(ps, i, id);
    if s.uuid == id {
      Bridge(ps, i);
      rest' := rest;
    } else {
      rest' := rest + [s];
    }
  }

  /** `s.prev.next = s.next; s.next.prev = s.prev` for the slice at `i` of an intact ring. */
  method Bridge(ps: seq<Piece>, i: nat)
    requires |ps| >= 2 && i < |ps| && DistinctUuids(ps) && Linked(ps) && BackLinked(ps)
    modifies ps`next, ps`prev
    ensures Joined(ps, i)
  {
    var s := ps[i];
    var p := Pred(i, |ps|);
    var q := Succ(i, |ps|);
    forall j | 0 <= j < |ps|
      ensures j != p ==> ps[j] != ps[p]
      ensures j != q ==> ps[j] != ps[q]
    {
      SamePiece(ps, j, p);
      SamePiece(ps, j, q);
    }
    s.prev.next := s.next;
    s.next.prev := s.prev;
  }

  /** Taking a slice out of a joined ring leaves a ring of the others. */
  lemma JoinedRing(ps: seq<Piece>, ix: nat)
    requires |ps| >= 2 && ix < |ps| && Joined(ps, ix)
    ensures Linked(ps[..ix] + ps[ix + 1..]) && BackLinked(ps[..ix] + ps[ix + 1..])
  {
    var n := |ps|;
    var rest := ps[..ix] + ps[ix + 1..];
    assert forall i :: 0 <= i < n - 1 ==> rest[i] == ps[if i < ix then i else i + 1];
  }

  /** Leaving one slice out keeps the other uuids distinct. */
  lemma RemovedDistinct(ps: seq<Piece>, ix: nat)
    requires DistinctUuids(ps) && ix < |ps|
    ensures DistinctUuids(ps[..ix] + ps[ix + 1..])
  {
    var rest := ps[..ix] + ps[ix + 1..];
    forall i, j | 0 <= i < j < |rest|
      ensures Differ(Uuids(rest), i, j)
    {
      var a := if i < ix then i else i + 1;
      var b := if j < ix then j else j + 1;
      assert rest[i] == ps[a] && rest[j] == ps[b];
      assert Differ(Uuids(ps), a, b);
    }
  }

  /** Leaving one slice out keeps only slices of the list. */
  lemma RemovedWithin(ps: seq<Piece>, ix: nat)
    requires ix < |ps|
    ensures forall p :: p in ps[..ix] + ps[ix + 1..] ==> p in ps
  {
  }

  /** Leaving one slice out keeps the other sizes positive. */
  lemma RemovedPositive(ps: seq<Piece>, ix: nat)
    requires Positive(ps) && ix < |ps|
    ensures Positive(ps[..ix] + ps[ix + 1..])
  {
    var rest := ps[..ix] + ps[ix + 1..];
    assert forall i :: 0 <= i < |rest| ==> rest[i] == ps[if i < ix then i else i + 1];
  }

  /**
   * The list part of `remove_slice`: the slice with uuid `id`, if there is
   * one and it is not the only slice, is unlinked and left out, and
   * what remains is again a ring of slices with positive sizes, in the old
   * order. An absent uuid leaves the list as it is.
   */
  method RemoveFrom(ps: seq<Piece>, id: string) returns (rest: seq<Piece>)
    requires Ring(ps) && Positive(ps) && (|ps| >= 2 || id !in Uuids(ps))
    modifies ps`next, ps`prev
    ensures rest == Without(ps, id)
    ensures Ring(rest) && Positive(rest)
    ensures Sizes(rest) == old(Sizes(rest)) && Total(rest) == old(Total(rest))
  {
    WithoutIs(ps, id);
    if |ps| >= 2 {
      rest := RemoveFromRing(ps, id);
    } else {
      rest := ps;
    }
  }

  /** `RemoveFrom` on two or more slices, where the `filter` may unlink one. */
  method RemoveFromRing(ps: seq<Piece>, id: string) returns (rest: seq<Piece>)
    requires Ring(ps) && Positive(ps) && |ps| >= 2
    modifies ps`next, ps`prev
    ensures rest == Without(ps, id)
    ensures Ring(rest) && Positive(rest)
    ensures Sizes(rest) == old(Sizes(rest)) && Total(rest) == old(Total(rest))
  {
    ghost var kept := Without(ps, id);
    WithoutPositive(ps, id);
    WithoutWithin(ps, id);
    rest := Unlink(ps, id);
    RemovedRing(ps, id, rest);
    assert rest == kept && Positive(kept);
    assert Sizes(kept) == old(Sizes(kept)) && Total(kept) == old(Total(kept));
  }

  /** Dropping slices keeps every size positive. */
  lemma WithoutPositive(ps: seq<Piece>, id: string)
    requires Positive(ps)
    ensures Positive(Without(ps, id))
  {
    WithoutWithin(ps, id);
  }

  /** After the `filter`, the remaining slices form a ring again. */
  lemma RemovedRing(ps: seq<Piece>, id: string, rest: seq<Piece>)
    requires |ps| >= 2 && DistinctUuids(ps) && Filtered(ps, IndexOf(Uuids(ps), id), |ps|, rest)
    ensures rest == Without(ps, id) && Ring(rest)
  {
    WithoutIs(ps, id);
    var ix := IndexOf(Uuids(ps), id);
    FilteredAll(ps, ix, rest);
    if ix >= 0 {
      JoinedRing(ps, ix);
      RemovedDistinct(ps, ix);
    }
  }

  /** The loop of `normalize_sizes`: each size is divided by `sum`. */
  method DivideSizes(ps: seq<Piece>, sum: real)
    requires DistinctUuids(ps) && sum != 0.0
    modifies ps`size
    ensures Sizes(ps) == Divided(old(Sizes(ps)), sum)
  {
    ghost var sz := Sizes(ps);
    ghost var shares := Divided(sz, sum);
    for i := 0 to |ps|
      invariant forall j :: 0 <= j < i ==> ps[j].size == shares[j]
      invariant forall j :: i <= j < |ps| ==> ps[j].size == sz[j]
    {
      forall j | 0 <= j < |ps| && j != i
        ensures ps[j] != ps[i]
      {
        SamePiece(ps, i, j);
      }
      DivideOne(ps[i], sum, sz, i);
    }
    assert Sizes(ps) == shares;
  }

  /** One pass of that loop: `slice.size = slice.size / sum`. */
  method DivideOne(s: Piece, sum: real, ghost sz: seq<real>, ghost i: nat)
    requires i < |sz| && s.size == sz[i] && sum != 0.0
    modifies s`size
    ensures s.size == Divided(sz, sum)[i]
  {
    s.size := s.size / sum;
  }

  /** Positive sizes divided by a positive total stay positive. */
  lemma DividedPositive(sz: seq<real>, t: real)
    requires t > 0.0 && forall i :: 0 <= i < |sz| ==> sz[i] > 0.0
    ensures forall i :: 0 <= i < |sz| ==> Divided(sz, t)[i] > 0.0
  {
    forall i | 0 <= i < |sz|
      ensures Divided(sz, t)[i] > 0.0
    {
      PositiveQuotient(sz[i], t);
    }
  }

  // ---------------------------------------------------------------------------
  // The chart
  // ---------------------------------------------------------------------------

  /**
   * The layout step of `calc_sizes`: the selected slice is centred on its
   * angle and the others follow it around the ring.
   */
  method LayOut(ps: seq<Piece>, og: Piece, ghost k: nat)
    requires k < |ps| && ps[k] == og
    requires Linked(ps) && DistinctUuids(ps)
    modifies ps`angle, ps`start, ps`stop
    ensures LaidOut(ps, k) && og.angle == old(og.angle)
  {
    Centre(og);
    LayFollowers(ps, og, k);
  }

  /** At least one slice, distinct uuids, and one ring in array order both ways. */
  predicate Ring(ps: seq<Piece>)
    reads ps`next, ps`prev
  {
    |ps| >= 1 && DistinctUuids(ps) && Linked(ps) && BackLinked(ps)
  }

  /** Every slice has a positive size. */
  predicate Positive(ps: seq<Piece>)
    reads ps`size
  {
    forall i :: 0 <= i < |ps| ==> ps[i].size > 0.0
  }

  /** The quantities `add_slice` computes before it changes anything. */
  datatype AddArcs = AddArcs(avg: real, denom: real, norm: real, arcStart: real, arcEnd: real, restArc: real)

  /**
   * From the total size and the count: the average size `avg`, the divisor
   * `total + avg`, the new share `norm`, which is one share in `n + 1`
   * whatever the old total, the new slice's arc, centred on 0 and 2π·norm
   * long, and the rest of the circle, which starts where that arc ends and
   * ends where it starts.
   */
  function AddGeometry(total: real, n: nat): (g: AddArcs)
    requires total > 0.0 && n >= 1
    ensures g.denom == total + g.avg && g.avg > 0.0 && g.denom > total && 0.0 < g.norm < 1.0
    ensures g.arcStart == TWO_PI - g.arcEnd && g.arcEnd + g.restArc == g.arcStart
    ensures 0.0 < g.restArc < TWO_PI && g.arcEnd * 2.0 + g.restArc == TWO_PI
  {
    var avg := total / n as real;
    var norm := avg / (total + avg);
    var arcLen := TWO_PI * norm;
    ShareOfGrown(total, avg, n as real);
    ShareArc(norm);
    AddArcs(avg, total + avg, norm, -arcLen * 0.5 + TWO_PI, arcLen * 0.5, TWO_PI - arcLen)
  }

  /**
   * The shares behind `AddGeometry`: `avg` is the average of the `n` old
   * sizes and `norm` is the average's share of the grown total, one part in
   * `n + 1`. (Kept apart from `AddGeometry` so that the products stay out of
   * the contexts that only need its arcs.)
   */
  lemma AddShares(total: real, n: nat)
    requires total > 0.0 && n >= 1
    ensures var g := AddGeometry(total, n);
      g.avg * n as real == total && g.norm == g.avg / g.denom && g.norm * (n + 1) as real == 1.0
  {
    ShareOfGrown(total, total / n as real, n as real);
  }

  lemma ShareOfGrown(total: real, avg: real, m: real)
    requires m >= 1.0 && total > 0.0 && avg == total / m
    ensures avg * m == total && avg > 0.0
    ensures (avg / (total + avg)) * (m + 1.0) == 1.0 && 0.0 < avg / (total + avg) < 1.0
  {
    assert total == avg * m;
    assert total + avg == avg * (m + 1.0);
  }

  lemma ShareArc(norm: real)
    requires 0.0 < norm < 1.0
    ensures 0.0 < TWO_PI * norm < TWO_PI
  {
  }

  /**
   * What `add_slice` leaves: the new slice has size `g.norm`, angle 0 and
   * the arc `g.arcStart` to `g.arcEnd`; the old slices, whose sizes were
   * `sz`, are squeezed into the rest of the circle from `g.arcEnd`.
   */
  ghost predicate Added(ps: seq<Piece>, slice: Piece, sz: seq<real>, g: AddArcs)
    requires |sz| == |ps| && g.denom != 0.0
    reads ps`size, ps`angle, ps`start, ps`stop, slice`size, slice`angle, slice`start, slice`stop
  {
    && slice.size == g.norm && slice.angle == 0.0
    && slice.start == g.arcStart && slice.stop == g.arcEnd
    && Squeezed(ps, sz, g.restArc, g.arcEnd, g.denom)
  }

  /** Dividing positive sizes by a positive divisor and adding a positive slice keeps every size positive. */
  lemma AddedPositive(ps: seq<Piece>, slice: Piece, sz: seq<real>, denom: real)
    requires denom > 0.0 && forall i :: 0 <= i < |sz| ==> sz[i] > 0.0
    requires Sizes(ps) == Divided(sz, denom) && slice.size > 0.0
    ensures Positive(ps + [slice])
  {
    DividedPositive(sz, denom);
    PositiveSizes(ps, Divided(sz, denom));
  }

  /** `Total` of a list whose sizes are `sz` is the sum of `sz`. */
  lemma TotalOfSizes(ps: seq<Piece>, sz: seq<real>)
    requires Sizes(ps) == sz
    ensures Total(ps) == Sum(sz)
  {
    TotalIsSum(ps);
  }

  /**
   * The two updates of `add_slice` with the arithmetic already done: the
   * new slice is linked after the last one and the old slices are squeezed
   * into the rest of the circle. The links and the sizes are separate
   * fields, so the linking can come first.
   */
  method LinkAndSqueeze(ps: seq<Piece>, id: string, g: AddArcs) returns (slice: Piece)
    requires Ring(ps) && id !in Uuids(ps) && g.denom != 0.0
    modifies ps`angle, ps`start, ps`stop, ps`size, ps`next, ps`prev
    ensures fresh(slice) && slice.uuid == id && Ring(ps + [slice])
    ensures Added(ps, slice, old(Sizes(ps)), g)
  {
    ghost var sz := Sizes(ps);
    slice := Append(ps, id, g.norm, g.arcStart, g.arcEnd);
    assert Sizes(ps) == sz;
    assert slice !in ps;
    SqueezeBeside(ps, slice, g.restArc, g.arcEnd, g.denom);
  }

  /** `Squeeze`, seen from the ring that already holds the new slice. */
  method SqueezeBeside(ps: seq<Piece>, slice: Piece, restArc: real, from: real, denom: real)
    requires Ring(ps + [slice]) && DistinctUuids(ps) && slice !in ps && denom != 0.0
    modifies ps`angle, ps`start, ps`stop, ps`size
    ensures Ring(ps + [slice]) && Squeezed(ps, old(Sizes(ps)), restArc, from, denom)
    ensures slice.size == old(slice.size) && slice.angle == old(slice.angle)
    ensures slice.start == old(slice.start) && slice.stop == old(slice.stop)
  {
    Squeeze(ps, restArc, from, denom);
  }

  /**
   * The body of `add_slice` on the list `ps`: squeeze the old slices and
   * link a new one with uuid `id` after the last.
   */
  method AddTo(ps: seq<Piece>, id: string) returns (slice: Piece)
    requires Ring(ps) && Positive(ps) && id !in Uuids(ps)
    modifies ps`angle, ps`start, ps`stop, ps`size, ps`next, ps`prev
    ensures fresh(slice) && slice.uuid == id
    ensures Ring(ps + [slice]) && Positive(ps + [slice]) && Total(ps + [slice]) == 1.0
    ensures old(Total(ps)) > 0.0 && Added(ps, slice, old(Sizes(ps)), AddGeometry(old(Total(ps)), |ps|))
  {
    ghost var sz := Sizes(ps);
    SizesPositive(ps);
    TotalPositive(ps);
    TotalOfSizes(ps, sz);
    var total := Total(ps);
    var g := AddGeometry(total, |ps|);
    slice := LinkAndSqueeze(ps, id, g);
    AddShares(total, |ps|);
    AddedTotal(ps, slice, sz, total, g.avg, g.denom);
    AddedPositive(ps, slice, sz, g.denom);
  }

  class Chart {
    var slices: seq<Piece>
    var selectedSlice: Piece?

    /**
     * The slices form one ring in array order with distinct uuids and
     * positive sizes, and a selected slice is one of them.
     */
    predicate Valid()
      reads this, slices`next, slices`prev, slices`size
    {
      && Ring(slices)
      && Positive(slices)
      && (selectedSlice == null || selectedSlice in slices)
    }

    /**
     * `Chart.new`: one slice of size 1 spanning 0 to 2π whose `next` is
     * itself. Its `last`, not its `prev`, is set to itself, so it has no
     * `prev` until a second slice is added.
     */
    constructor(id0: string)
      ensures |slices| == 1 && fresh(slices[0]) && selectedSlice == null
      ensures var p := slices[0];
        && p.uuid == id0 && p.size == 1.0 && p.angle == 0.0 && p.start == 0.0 && p.stop == TWO_PI
        && p.next == p && p.last == p && p.prev == null
      ensures Valid()
    {
      var p := new Piece(id0, 0.0, 1.0);
      p.start := 0.0;
      p.stop := TWO_PI;
      p.next := p;
      p.last := p;
      slices := [p];
      selectedSlice := null;
    }

    /** `total_size`: the sum of the sizes, positive when every size is. */
    function TotalSize(): (t: real)
      reads this, slices`size
      ensures (|slices| >= 1 && forall i :: 0 <= i < |slices| ==> slices[i].size > 0.0) ==> t > 0.0
    {
      TotalSign(slices);
      Total(slices)
    }

    /**
     * `normalize_sizes`: every size is divided by the total, so the sizes
     * keep their ratios, stay positive and add up to one.
     */
    method NormalizeSizes()
      requires |slices| >= 1 && DistinctUuids(slices)
      requires forall i :: 0 <= i < |slices| ==> slices[i].size > 0.0
      modifies slices`size
      ensures Sizes(slices) == Divided(old(Sizes(slices)), old(TotalSize()))
      ensures TotalSize() == 1.0
      ensures forall i :: 0 <= i < |slices| ==> slices[i].size > 0.0
    {
      ghost var sz := Sizes(slices);
      var sum := TotalSize();
      TotalIsSum(slices);
      DivideSizes(slices, sum);
      NormalizedSum(sz, Sizes(slices));
      TotalIsSum(slices);
      DividedPositive(sz, sum);
      PositiveSizes(slices, Divided(sz, sum));
    }

    /**
     * `calc_sizes`: the sizes are normalised, the first slice is selected
     * when none is, and the layout is rebuilt around the selected slice,
     * which keeps its angle. Nothing else changes: the slices, their order
     * and their links stay as they are.
     */
    method CalcSizes() returns (ghost k: nat)
      requires Valid()
      modifies this`selectedSlice, slices`size, slices`angle, slices`start, slices`stop
      ensures Valid() && slices == old(slices)
      ensures selectedSlice == if old(selectedSlice) == null then slices[0] else old(selectedSlice)
      ensures old(TotalSize()) > 0.0 && Sizes(slices) == Divided(old(Sizes(slices)), old(TotalSize()))
      ensures TotalSize() == 1.0
      ensures k < |slices| && slices[k] == selectedSlice
      ensures LaidOut(slices, k) && slices[k].angle == old(slices[k].angle)
    {
      NormalizeSizes();
      assert Ring(slices);
      ghost var sizes, total := Sizes(slices), TotalSize();
      k := Relayout();
      assert Sizes(slices) == sizes && TotalSize() == total;
    }

    /**
     * The second half of `calc_sizes`: the first slice is selected when
     * none is, and the layout is rebuilt around the selected slice, whose
     * position is `k`.
     */
    method Relayout() returns (ghost k: nat)
      requires Valid()
      modifies this`selectedSlice, slices`angle, slices`start, slices`stop
      ensures Valid() && slices == old(slices)
      ensures selectedSlice == if old(selectedSlice) == null then slices[0] else old(selectedSlice)
      ensures k < |slices| && slices[k] == selectedSlice
      ensures LaidOut(slices, k) && slices[k].angle == old(slices[k].angle)
    {
      if selectedSlice == null {
        selectedSlice := slices[0];
      }
      k :| 0 <= k < |slices| && slices[k] == selectedSlice;
      LayOut(slices, selectedSlice, k);
    }

    /**
     * `add_slice`: see `AddTo`; the new slice is pushed onto the list and
     * the selection does not change.
     */
    method AddSlice(id: string) returns (slice: Piece)
      requires Valid() && id !in Uuids(slices)
      modifies this`slices, slices`angle, slices`start, slices`stop, slices`size, slices`next, slices`prev
      ensures fresh(slice) && slice.uuid == id
      ensures slices == old(slices) + [slice] && selectedSlice == old(selectedSlice)
      ensures Valid() && TotalSize() == 1.0
      ensures old(TotalSize()) > 0.0
      ensures Added(old(slices), slice, old(Sizes(slices)), AddGeometry(old(TotalSize()), old(|slices|)))
    {
      slice := AddTo(slices, id);
      slices := slices + [slice];
    }

    /**
     * The filtering half of `remove_slice`: the slice with uuid `id` is
     * unlinked and dropped, the others keep their order, and the selection
     * is cleared; no size or angle changes.
     */
    method Unhook(id: string)
      requires Valid() && (|slices| >= 2 || id !in Uuids(slices))
      modifies this`slices, this`selectedSlice, slices`next, slices`prev
      ensures slices == Without(old(slices), id) && selectedSlice == null
      ensures forall i :: 0 <= i < |slices| ==> slices[i] in old(slices)
      ensures Valid()
      ensures Sizes(slices) == old(Sizes(Without(slices, id))) && Total(slices) == old(Total(Without(slices, id)))
    {
      WithoutWithin(slices, id);
      var rest := RemoveFrom(slices, id);
      Adopt(rest);
    }

    /** The assignments that end the filtering half of `remove_slice`. */
    method Adopt(rest: seq<Piece>)
      requires Ring(rest) && Positive(rest)
      modifies this`slices, this`selectedSlice
      ensures slices == rest && selectedSlice == null && Valid()
      ensures Sizes(slices) == old(Sizes(rest)) && Total(slices) == old(Total(rest))
    {
      selectedSlice, slices := null, rest;
    }

    /**
     * `remove_slice`: the slice with uuid `id` is unlinked and dropped,
     * the others keep their order, the selection is cleared and
     * `calc_sizes` runs, so the first remaining slice is selected, keeps
     * its angle and the layout is rebuilt from it, with each remaining
     * size divided by their total. Removing the only slice is not
     * allowed: `calc_sizes` fails on an empty chart.
     */
    method RemoveSlice(id: string)
      requires Valid() && (|slices| >= 2 || id !in Uuids(slices))
      modifies this`slices, this`selectedSlice
      modifies slices`next, slices`prev, slices`size, slices`angle, slices`start, slices`stop
      ensures slices == Without(old(slices), id)
      ensures Valid() && selectedSlice == slices[0] && TotalSize() == 1.0
      ensures var rest := slices;
        old(Total(rest)) > 0.0 && Sizes(rest) == Divided(old(Sizes(rest)), old(Total(rest)))
      ensures var rest := slices;
        LaidOut(rest, 0) && rest[0].angle == old(rest[0].angle)
    {
      Unhook(id);
      ghost var k := CalcSizes();
      SamePiece(slices, k, 0);
    }
  }
}
