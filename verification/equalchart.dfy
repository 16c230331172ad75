/**
 * The chart of the top-level sketch.js, the first prototype of the pie.
 * Every slice is created with size 1, the chart keeps `total_size`, the
 * running sum of the sizes, and `calc_sizes` lays the slices out one after
 * the other from angle 0, each taking 2π·size/total_size. The pointer
 * listeners mark the slice under the pointer as hovered and, on a click,
 * select it when there is more than one slice.
 */
module EqualChart {
  import opened Util
  import opened Partition

  /** A slice object (`Slice.new`) with the fields the chart logic uses. */
  class Slice {
    const uuid: string
    var size: real
    var start: real
    var stop: real
    var hovering: bool
    var selected: bool

    /**
     * `Slice.new`, with the uuid `crypto.randomUUID` would draw. The start
     * and stop are only set by `calc_sizes`, which runs straight after.
     */
    constructor(id: string)
      ensures uuid == id && size == 1.0 && !hovering && !selected
    {
      uuid := id;
      size := 1.0;
      start := 0.0;
      stop := 0.0;
      hovering := false;
      selected := false;
    }
  }

  // ---------------------------------------------------------------------------
  // Views of the array of slices
  // ---------------------------------------------------------------------------

  /** The sizes of the slices, in array order. */
  function Sizes(ps: seq<Slice>): (r: seq<real>)
    reads ps`size
    ensures |r| == |ps| && forall i :: 0 <= i < |ps| ==> r[i] == ps[i].size
  {
    if |ps| == 0 then [] else Sizes(ps[..|ps| - 1]) + [ps[|ps| - 1].size]
  }

  /** No slice object occurs twice in the array. */
  predicate Distinct(ps: seq<Slice>) {
    forall i, j :: 0 <= i < j < |ps| ==> Apart(ps, i, j)
  }

  /** The slices at `i` and `j` are different objects. */
  predicate Apart(ps: seq<Slice>, i: nat, j: nat)
    requires i < |ps| && j < |ps|
  {
    ps[i] != ps[j]
  }

  /** In a distinct array, different indices hold different slices. */
  lemma DistinctAt(ps: seq<Slice>, i: nat, j: nat)
    requires Distinct(ps) && i < |ps| && j < |ps| && i != j
    ensures ps[i] != ps[j]
  {
    if i < j {
      assert Apart(ps, i, j);
    } else {
      assert Apart(ps, j, i);
    }
  }

  /** A distinct array with the last slice left off. */
  lemma DistinctPrefix(ps: seq<Slice>)
    requires Distinct(ps) && |ps| > 0
    ensures Distinct(ps[..|ps| - 1]) && ps[|ps| - 1] !in ps[..|ps| - 1]
  {
    var n := |ps| - 1;
    forall i, j | 0 <= i < j < n
      ensures Apart(ps[..n], i, j)
    {
      assert Apart(ps, i, j);
    }
    forall i | 0 <= i < n
      ensures ps[..n][i] != ps[n]
    {
      assert Apart(ps, i, n);
    }
  }

  /** A slice not in a distinct array can be pushed onto it. */
  lemma DistinctPush(ps: seq<Slice>, s: Slice)
    requires Distinct(ps) && s !in ps
    ensures Distinct(ps + [s])
  {
    var qs := ps + [s];
    forall i, j | 0 <= i < j < |qs|
      ensures Apart(qs, i, j)
    {
      if j < |ps| {
        assert Apart(ps, i, j);
      }
    }
  }

  /** A pointer at angle `a` is over slice `p` when start < a <= stop. */
  predicate Hit(p: Slice, a: real)
    reads p`start, p`stop
  {
    p.start < a <= p.stop
  }

  // ---------------------------------------------------------------------------
  // The layout of calc_sizes
  // ---------------------------------------------------------------------------

  /** The arc `calc_sizes` gives each size: 2π times its share of the total `t`. */
  function Arcs(sz: seq<real>, t: real): (r: seq<real>)
    requires |sz| == 0 || t != 0.0
    ensures |r| == |sz|
  {
    seq(|sz|, i requires 0 <= i < |sz| => TWO_PI * (sz[i] / t))
  }

  /**
   * The layout `calc_sizes` leaves: slice i starts where the arcs of the
   * slices before it add up to, and stops where those and its own arc do.
   */
  predicate LaidOut(ps: seq<Slice>, t: real)
    reads ps`size, ps`start, ps`stop
  {
    && (|ps| > 0 ==> t != 0.0)
    && forall i :: 0 <= i < |ps| ==> PlacedAt(ps, t, i)
  }

  /** Slice i starts at the sum of the arcs before it and stops one arc further. */
  predicate PlacedAt(ps: seq<Slice>, t: real, i: nat)
    requires i < |ps| && t != 0.0
    reads ps`size, ps`start, ps`stop
  {
    PlacedAs(ps, Arcs(Sizes(ps), t), i)
  }

  /** Slices placed at the prefix sums of the arcs of their sizes are laid out. */
  lemma LaidOutFrom(ps: seq<Slice>, t: real, sz: seq<real>)
    requires Sizes(ps) == sz && (|ps| == 0 || t != 0.0) && PlacedUpTo(ps, Arcs(sz, t), |ps|)
    ensures LaidOut(ps, t)
  {
    forall j | 0 <= j < |ps|
      ensures PlacedAt(ps, t, j)
    {
      assert PlacedAs(ps, Arcs(sz, t), j);
    }
  }

  /** The first `n` slices are placed at the prefix sums of `arcs`. */
  predicate PlacedUpTo(ps: seq<Slice>, arcs: seq<real>, n: nat)
    requires n <= |ps| && |arcs| == |ps|
    reads ps`start, ps`stop
  {
    forall j :: 0 <= j < n ==> PlacedAs(ps, arcs, j)
  }

  /** Slice j starts at the sum of the arcs before it and stops one arc further. */
  predicate PlacedAs(ps: seq<Slice>, arcs: seq<real>, j: nat)
    requires j < |ps| && |arcs| == |ps|
    reads ps`start, ps`stop
  {
    ps[j].start == Sum(arcs[..j]) && ps[j].stop == Sum(arcs[..j + 1])
  }

  /**
   * One pass of the `calc_sizes` loop: slice i starts at `from`, where
   * the slices before it end, and stops one arc further; no other slice
   * moves.
   */
  method PlaceNext(ps: seq<Slice>, s: Slice, i: nat, from: real, t: real, ghost sz: seq<real>, ghost arcs: seq<real>)
    returns (to: real)
    requires Distinct(ps) && i < |ps| && s == ps[i] && t != 0.0 && Sizes(ps) == sz && arcs == Arcs(sz, t)
    requires PlacedUpTo(ps, arcs, i) && from == Sum(arcs[..i])
    modifies s`start, s`stop
    ensures PlacedUpTo(ps, arcs, i + 1) && to == Sum(arcs[..i + 1]) && Sizes(ps) == sz
  {
    NextStop(sz, t, i);
    forall j | 0 <= j < i
      ensures ps[j] != s
    {
      DistinctAt(ps, i, j);
    }
    to := from + TWO_PI * (s.size / t);
    s.start := from;
    s.stop := to;
    forall j | 0 <= j < i + 1
      ensures PlacedAs(ps, arcs, j)
    {
      if j < i {
        assert old(PlacedAs(ps, arcs, j));
      }
    }
  }

  /** The next prefix sum of the arcs adds slice i's arc, 2π·size/total. */
  lemma NextStop(sz: seq<real>, t: real, i: nat)
    requires i < |sz| && t != 0.0
    ensures Sum(Arcs(sz, t)[..i + 1]) == Sum(Arcs(sz, t)[..i]) + TWO_PI * (sz[i] / t)
  {
    SumPrefixStep(Arcs(sz, t), i);
  }

  /** The arcs add up to 2π times the share of the total the sizes make up. */
  lemma {:induction false} ArcsShare(sz: seq<real>, t: real)
    requires t != 0.0
    ensures Sum(Arcs(sz, t)) == TWO_PI * (Sum(sz) / t)
  {
    if |sz| > 0 {
      var n := |sz| - 1;
      assert Arcs(sz, t)[..n] == Arcs(sz[..n], t);
      ArcsShare(sz[..n], t);
      SharesAdd(Sum(sz[..n]), sz[n], t);
    }
  }

  /** Two shares of the same total add up to the share of their sum. */
  lemma SharesAdd(x: real, y: real, t: real)
    requires t != 0.0
    ensures TWO_PI * (x / t) + TWO_PI * (y / t) == TWO_PI * ((x + y) / t)
  {
  }

  /** Sizes taken against their own sum have arcs adding up to 2π. */
  lemma ArcsWhole(sz: seq<real>, t: real)
    requires t == Sum(sz) && t != 0.0
    ensures Sum(Arcs(sz, t)) == TWO_PI
  {
    ArcsShare(sz, t);
    assert t / t == 1.0;
  }

  /** Positive sizes out of a positive total have positive arcs. */
  lemma ArcsPositive(sz: seq<real>, t: real)
    requires t > 0.0 && forall k :: 0 <= k < |sz| ==> sz[k] > 0.0
    ensures forall k :: 0 <= k < |sz| ==> Arcs(sz, t)[k] > 0.0
  {
    forall k | 0 <= k < |sz|
      ensures Arcs(sz, t)[k] > 0.0
    {
      SharePositive(sz[k], t);
    }
  }

  /** A positive part of a positive total is a positive share. */
  lemma SharePositive(x: real, t: real)
    requires x > 0.0 && t > 0.0
    ensures TWO_PI * (x / t) > 0.0
  {
  }

  /** A size of 1 out of `t` has an arc of 2π/t. */
  lemma UnitShare(t: real)
    requires t != 0.0
    ensures TWO_PI * (1.0 / t) == TWO_PI / t
  {
  }

  /** With positive terms, a longer prefix adds up to strictly more. */
  lemma {:induction false} PrefixGrows(xs: seq<real>, i: nat, j: nat)
    requires forall k :: 0 <= k < |xs| ==> xs[k] > 0.0
    requires i < j <= |xs|
    ensures Sum(xs[..i]) < Sum(xs[..j])
  {
    SumPrefixStep(xs, j - 1);
    if i < j - 1 {
      PrefixGrows(xs, i, j - 1);
    }
  }

  /** Every value in (0, sum] lies between two consecutive prefix sums. */
  lemma {:induction false} PrefixFind(xs: seq<real>, a: real) returns (i: nat)
    requires 0.0 < a <= Sum(xs)
    ensures i < |xs| && Sum(xs[..i]) < a <= Sum(xs[..i + 1])
  {
    var n := |xs| - 1;
    assert xs[..n + 1] == xs;
    if a <= Sum(xs[..n]) {
      i := PrefixFind(xs[..n], a);
      assert xs[..n][..i] == xs[..i] && xs[..n][..i + 1] == xs[..i + 1];
    } else {
      i := n;
    }
  }

  /**
   * The layout read slice by slice: the first slice starts at 0, each
   * slice starts where the one before it stops, and each spans 2π times
   * its size over the total.
   */
  lemma LaidOutContiguous(ps: seq<Slice>, t: real)
    requires LaidOut(ps, t)
    ensures |ps| > 0 ==> ps[0].start == 0.0
    ensures forall i :: 0 < i < |ps| ==> ps[i].start == ps[i - 1].stop
    ensures forall i :: 0 <= i < |ps| ==> ps[i].stop == ps[i].start + TWO_PI * (ps[i].size / t)
  {
    if |ps| > 0 {
      assert PlacedAt(ps, t, 0);
      assert Arcs(Sizes(ps), t)[..0] == [];
    }
    forall i | 0 < i < |ps|
      ensures ps[i].start == ps[i - 1].stop
    {
      assert PlacedAt(ps, t, i) && PlacedAt(ps, t, i - 1);
    }
    forall i | 0 <= i < |ps|
      ensures ps[i].stop == ps[i].start + TWO_PI * (ps[i].size / t)
    {
      assert PlacedAt(ps, t, i);
      SumPrefixStep(Arcs(Sizes(ps), t), i);
    }
  }

  /** When the total is the sum of the sizes, the last slice stops at 2π. */
  lemma LaidOutCloses(ps: seq<Slice>, t: real)
    requires LaidOut(ps, t) && |ps| > 0 && t == Sum(Sizes(ps))
    ensures ps[|ps| - 1].stop == TWO_PI
  {
    var arcs := Arcs(Sizes(ps), t);
    assert PlacedAt(ps, t, |ps| - 1);
    assert arcs[..|ps|] == arcs;
    ArcsWhole(Sizes(ps), t);
  }

  /** With positive sizes no angle is over two slices. */
  lemma HitUnique(ps: seq<Slice>, t: real, a: real, i: nat, j: nat)
    requires LaidOut(ps, t) && t > 0.0 && forall k :: 0 <= k < |ps| ==> ps[k].size > 0.0
    requires i < |ps| && j < |ps| && Hit(ps[i], a) && Hit(ps[j], a)
    ensures i == j
  {
    assert PlacedAt(ps, t, i) && PlacedAt(ps, t, j);
    ArcsPositive(Sizes(ps), t);
    if i + 1 < j {
      PrefixGrows(Arcs(Sizes(ps), t), i + 1, j);
    } else if j + 1 < i {
      PrefixGrows(Arcs(Sizes(ps), t), j + 1, i);
    }
  }

  /** When the total is the sum of the sizes, every angle in (0, 2π] is over some slice. */
  lemma HitSome(ps: seq<Slice>, t: real, a: real) returns (i: nat)
    requires LaidOut(ps, t) && |ps| > 0 && t == Sum(Sizes(ps))
    requires 0.0 < a <= TWO_PI
    ensures i < |ps| && Hit(ps[i], a)
  {
    var arcs := Arcs(Sizes(ps), t);
    ArcsWhole(Sizes(ps), t);
    i := PrefixFind(arcs, a);
    assert PlacedAt(ps, t, i);
  }

  /** The first slice starts at 0 and every other one after it, so the angle 0 is over none. */
  lemma HitNoneAtZero(ps: seq<Slice>, t: real, i: nat)
    requires LaidOut(ps, t) && t > 0.0 && forall k :: 0 <= k < |ps| ==> ps[k].size > 0.0
    requires i < |ps|
    ensures !Hit(ps[i], 0.0)
  {
    var arcs := Arcs(Sizes(ps), t);
    assert PlacedAt(ps, t, i);
    assert arcs[..0] == [];
    if i > 0 {
      ArcsPositive(Sizes(ps), t);
      PrefixGrows(arcs, 0, i);
    }
  }

  /** Sizes of 1 adding up to the total make every slice span 2π/n. */
  lemma EqualSpans(ps: seq<Slice>, t: real)
    requires LaidOut(ps, t) && t == Sum(Sizes(ps))
    requires forall k :: 0 <= k < |ps| ==> ps[k].size == 1.0
    ensures forall i :: 0 <= i < |ps| ==> ps[i].stop - ps[i].start == TWO_PI / |ps| as real
  {
    SumOfOnes(Sizes(ps));
    if |ps| > 0 {
      UnitShare(t);
    }
    forall i | 0 <= i < |ps|
      ensures ps[i].stop - ps[i].start == TWO_PI / |ps| as real
    {
      assert PlacedAt(ps, t, i);
      SumPrefixStep(Arcs(Sizes(ps), t), i);
    }
  }

  /** Slices of size 1 laid out against their sum each span 2π/n, the last stopping at 2π. */
  lemma EvenLayout(ps: seq<Slice>, t: real)
    requires LaidOut(ps, t) && t == Sum(Sizes(ps))
    requires forall k :: 0 <= k < |ps| ==> ps[k].size == 1.0
    ensures forall i :: 0 <= i < |ps| ==> ps[i].stop - ps[i].start == TWO_PI / |ps| as real
    ensures |ps| > 0 ==> ps[|ps| - 1].stop == TWO_PI
  {
    EqualSpans(ps, t);
    if |ps| > 0 {
      LaidOutCloses(ps, t);
    }
  }

  /** n sizes of 1 add up to n. */
  lemma {:induction false} SumOfOnes(sz: seq<real>)
    requires forall k :: 0 <= k < |sz| ==> sz[k] == 1.0
    ensures Sum(sz) == |sz| as real
  {
    if |sz| > 0 {
      SumOfOnes(sz[..|sz| - 1]);
    }
  }

  // ---------------------------------------------------------------------------
  // The filter of remove_slice
  // ---------------------------------------------------------------------------

  /** The slices whose uuid is not `id`, in their order. */
  function Keep(ps: seq<Slice>, id: string): (r: seq<Slice>)
    ensures |r| <= |ps|
  {
    if |ps| == 0 then []
    else
      var n := |ps| - 1;
      Keep(ps[..n], id) + (if ps[n].uuid == id then [] else [ps[n]])
  }

  /** The sum of the sizes `sz` of the slices whose uuid is `id`. */
  function DroppedSize(ps: seq<Slice>, sz: seq<real>, id: string): real
    requires |sz| == |ps|
  {
    if |ps| == 0 then 0.0
    else
      var n := |ps| - 1;
      DroppedSize(ps[..n], sz[..n], id) + (if ps[n].uuid == id then sz[n] else 0.0)
  }

  /** A slice survives the filter exactly when it was there and its uuid is not `id`. */
  lemma {:induction false} KeepMembers(ps: seq<Slice>, id: string)
    ensures forall p :: p in Keep(ps, id) <==> p in ps && p.uuid != id
  {
    if |ps| > 0 {
      var n := |ps| - 1;
      KeepMembers(ps[..n], id);
      assert ps == ps[..n] + [ps[n]];
    }
  }

  /** Every slice the filter keeps was in the array. */
  lemma KeepWithin(ps: seq<Slice>, id: string)
    ensures forall i :: 0 <= i < |Keep(ps, id)| ==> Keep(ps, id)[i] in ps
  {
    KeepMembers(ps, id);
  }

  /** Dropping slices keeps the others distinct. */
  lemma {:induction false} KeepDistinct(ps: seq<Slice>, id: string)
    requires Distinct(ps)
    ensures Distinct(Keep(ps, id))
  {
    if |ps| > 0 {
      var n := |ps| - 1;
      DistinctPrefix(ps);
      KeepDistinct(ps[..n], id);
      KeepMembers(ps[..n], id);
      if ps[n].uuid != id {
        DistinctPush(Keep(ps[..n], id), ps[n]);
      } else {
        assert Keep(ps, id) == Keep(ps[..n], id);
      }
    }
  }

  /** Dropping slices keeps the others of size 1. */
  lemma {:induction false} KeepUnits(ps: seq<Slice>, id: string)
    requires forall k :: 0 <= k < |ps| ==> ps[k].size == 1.0
    ensures forall k :: 0 <= k < |Keep(ps, id)| ==> Keep(ps, id)[k].size == 1.0
  {
    if |ps| > 0 {
      KeepUnits(ps[..|ps| - 1], id);
    }
  }

  /** The sizes kept and the sizes dropped add up to all the sizes. */
  lemma {:induction false} KeepSum(ps: seq<Slice>, id: string)
    ensures Sum(Sizes(Keep(ps, id))) + DroppedSize(ps, Sizes(ps), id) == Sum(Sizes(ps))
  {
    if |ps| > 0 {
      var n := |ps| - 1;
      KeepSum(ps[..n], id);
      assert Sizes(ps)[..n] == Sizes(ps[..n]);
      var rest := if ps[n].uuid == id then [] else [ps[n]];
      SizesAppend(Keep(ps[..n], id), rest);
      SumAppend(Sizes(Keep(ps[..n], id)), Sizes(rest));
    }
  }

  /** What `remove_slice` leaves in `total_size` is the sum of the sizes it keeps. */
  lemma KeepTotal(ps: seq<Slice>, id: string, t: real)
    requires t == Sum(Sizes(ps)) - DroppedSize(ps, Sizes(ps), id)
    ensures t == Sum(Sizes(Keep(ps, id)))
  {
    KeepSum(ps, id);
  }

  /** The sizes of two arrays put together. */
  lemma SizesAppend(a: seq<Slice>, b: seq<Slice>)
    ensures Sizes(a + b) == Sizes(a) + Sizes(b)
  {
  }

  /** The filter applied one slice further. */
  lemma KeepStep(ps: seq<Slice>, id: string, i: nat)
    requires i < |ps|
    ensures Keep(ps[..i + 1], id) == Keep(ps[..i], id) + (if ps[i].uuid == id then [] else [ps[i]])
  {
    assert ps[..i + 1][..i] == ps[..i];
  }

  /** The dropped sizes counted one slice further. */
  lemma DroppedStep(ps: seq<Slice>, sz: seq<real>, id: string, i: nat)
    requires |sz| == |ps| && i < |ps|
    ensures DroppedSize(ps[..i + 1], sz[..i + 1], id)
      == DroppedSize(ps[..i], sz[..i], id) + (if ps[i].uuid == id then sz[i] else 0.0)
  {
    assert ps[..i + 1][..i] == ps[..i] && sz[..i + 1][..i] == sz[..i];
  }

  // ---------------------------------------------------------------------------
  // The selection rule of the click listener
  // ---------------------------------------------------------------------------

  /** The index of the last hovered slice, or -1 when none is hovered. */
  function LastHovered(ps: seq<Slice>): (k: int)
    reads ps`hovering
    ensures -1 <= k < |ps|
    ensures k >= 0 ==> ps[k].hovering && forall j :: k < j < |ps| ==> !ps[j].hovering
    ensures k < 0 ==> forall j :: 0 <= j < |ps| ==> !ps[j].hovering
  {
    if |ps| == 0 then -1
    else if ps[|ps| - 1].hovering then |ps| - 1
    else LastHovered(ps[..|ps| - 1])
  }

  /** The selection a click leaves: the last hovered slice, when there is more than one slice. */
  function Selection(ps: seq<Slice>): (s: Slice?)
    reads ps`hovering
    ensures s != null ==> |ps| > 1 && s in ps && s.hovering
    ensures s == null ==> |ps| <= 1 || forall j :: 0 <= j < |ps| ==> !ps[j].hovering
  {
    var k := LastHovered(ps);
    if k >= 0 && |ps| > 1 then ps[k] else null
  }

  /** The selection after the loop has looked at the first `n` slices. */
  function Picked(ps: seq<Slice>, n: nat): (s: Slice?)
    requires n <= |ps|
    reads ps`hovering
    ensures s != null ==> s in ps[..n] && s.hovering
  {
    var k := LastHovered(ps[..n]);
    if k >= 0 && |ps| > 1 then ps[k] else null
  }

  /** `LastHovered` looks one slice further. */
  lemma LastHoveredStep(ps: seq<Slice>, i: nat)
    requires i < |ps|
    ensures LastHovered(ps[..i + 1]) == if ps[i].hovering then i else LastHovered(ps[..i])
  {
    assert ps[..i + 1][..i] == ps[..i];
  }

  // ---------------------------------------------------------------------------
  // The chart
  // ---------------------------------------------------------------------------

  /** `Chart.new`: the closure variables the chart logic updates. */
  class Chart {
    var slices: seq<Slice>
    var totalSize: real
    var selectedSlice: Slice?
    /** Whether the pointer was within the radius at the last `mousemove`. */
    var hovering: bool

    /**
     * Distinct slices, all of size 1, whose sizes add up to `total_size`,
     * laid out by `calc_sizes`.
     */
    predicate Valid()
      reads this`slices, this`totalSize, slices`size, slices`start, slices`stop
    {
      && Distinct(slices)
      && (forall k :: 0 <= k < |slices| ==> slices[k].size == 1.0)
      && totalSize == Sum(Sizes(slices))
      && LaidOut(slices, totalSize)
    }

    /** `Chart.new`: no slices, a total of 0 and no selection. */
    constructor()
      ensures slices == [] && totalSize == 0.0 && selectedSlice == null && !hovering
      ensures Valid()
    {
      slices := [];
      totalSize := 0.0;
      selectedSlice := null;
      hovering := false;
    }

    /**
     * `calc_sizes`: the slices are laid out in array order from angle 0,
     * each spanning 2π·size/total_size. An array with slices needs a
     * nonzero total, or the division leaves no angle.
     */
    method CalcSizes()
      requires Distinct(slices) && (|slices| == 0 || totalSize != 0.0)
      modifies slices`start, slices`stop
      ensures LaidOut(slices, totalSize) && Sizes(slices) == old(Sizes(slices))
    {
      ghost var sz := Sizes(slices);
      ghost var arcs := Arcs(sz, totalSize);
      var start := 0.0;
      var stop := 0.0;
      for i := 0 to |slices|
        invariant stop == Sum(arcs[..i])
        invariant PlacedUpTo(slices, arcs, i)
        invariant Sizes(slices) == sz
      {
        start := stop;
        stop := PlaceNext(slices, slices[i], i, start, totalSize, sz, arcs);
      }
      LaidOutFrom(slices, totalSize, sz);
    }

    /**
     * `add_slice`: `total_size` grows by 1, a new slice of size 1 is pushed
     * and the layout is rebuilt, so every slice spans 2π/n and the last
     * one stops at 2π.
     */
    method AddSlice(id: string) returns (s: Slice)
      requires Valid()
      modifies this`slices, this`totalSize, slices`start, slices`stop
      ensures fresh(s) && s.uuid == id && !s.hovering && !s.selected
      ensures slices == old(slices) + [s] && totalSize == old(totalSize) + 1.0
      ensures Valid()
      ensures forall i :: 0 <= i < |slices| ==> slices[i].stop - slices[i].start == TWO_PI / |slices| as real
      ensures slices[|slices| - 1].stop == TWO_PI
    {
      s := new Slice(id);
      Grow(s);
    }

    /** `add_slice` once the new slice exists: it is counted, pushed and laid out with the others. */
    method Grow(s: Slice)
      requires Valid() && s !in slices && s.size == 1.0
      modifies this`slices, this`totalSize, slices`start, slices`stop, s`start, s`stop
      ensures slices == old(slices) + [s] && totalSize == old(totalSize) + 1.0
      ensures Valid()
      ensures forall i :: 0 <= i < |slices| ==> slices[i].stop - slices[i].start == TWO_PI / |slices| as real
      ensures slices[|slices| - 1].stop == TWO_PI
    {
      Push(s);
      Relayout();
    }

    /**
     * The `calc_sizes` that ends `add_slice` and `remove_slice`, over
     * slices of size 1 whose sizes `total_size` adds up: each one spans
     * 2π/n and the last one stops at 2π.
     */
    method Relayout()
      requires Distinct(slices) && (forall k :: 0 <= k < |slices| ==> slices[k].size == 1.0)
      requires totalSize == Sum(Sizes(slices))
      modifies slices`start, slices`stop
      ensures Valid()
      ensures forall i :: 0 <= i < |slices| ==> slices[i].stop - slices[i].start == TWO_PI / |slices| as real
      ensures |slices| > 0 ==> slices[|slices| - 1].stop == TWO_PI
    {
      SumOfOnes(Sizes(slices));
      CalcSizes();
      Settled();
    }

    /** A laid-out chart of unit slices is valid and evenly divided. */
    lemma Settled()
      requires Distinct(slices) && (forall k :: 0 <= k < |slices| ==> slices[k].size == 1.0)
      requires totalSize == Sum(Sizes(slices)) && LaidOut(slices, totalSize)
      ensures Valid()
      ensures forall i :: 0 <= i < |slices| ==> slices[i].stop - slices[i].start == TWO_PI / |slices| as real
      ensures |slices| > 0 ==> slices[|slices| - 1].stop == TWO_PI
    {
      EvenLayout(slices, totalSize);
    }

    /** The bookkeeping of `add_slice`: `total_size += 1` and `slices.push`. */
    method Push(s: Slice)
      requires Valid() && s !in slices && s.size == 1.0
      modifies this`slices, this`totalSize
      ensures slices == old(slices) + [s] && totalSize == old(totalSize) + 1.0
      ensures Distinct(slices) && (forall k :: 0 <= k < |slices| ==> slices[k].size == 1.0)
      ensures totalSize == Sum(Sizes(slices)) && totalSize == |slices| as real
    {
      SumOfOnes(Sizes(slices));
      SizesAppend(slices, [s]);
      ghost var sz := Sizes(slices + [s]);
      SumOfOnes(sz);
      DistinctPush(slices, s);
      totalSize := totalSize + 1.0;
      slices := slices + [s];
      assert Sizes(slices) == sz;
    }

    /**
     * `remove_slice`: the slices with uuid `id` are filtered out, their
     * sizes taken off `total_size`, the others kept in order, and the
     * layout rebuilt. The selection is left as it was.
     */
    method RemoveSlice(id: string)
      requires Valid()
      modifies this`slices, this`totalSize, slices`start, slices`stop
      ensures slices == Keep(old(slices), id)
      ensures totalSize == old(totalSize) - DroppedSize(old(slices), old(Sizes(slices)), id)
      ensures Valid()
      ensures forall i :: 0 <= i < |slices| ==> slices[i].stop - slices[i].start == TWO_PI / |slices| as real
    {
      var remaining := Filter(id);
      Shrink(remaining, id);
    }

    /** `remove_slice` after the filter: what it kept becomes the slices, laid out again. */
    method Shrink(remaining: seq<Slice>, ghost id: string)
      requires Distinct(slices) && (forall k :: 0 <= k < |slices| ==> slices[k].size == 1.0)
      requires remaining == Keep(slices, id)
      requires totalSize == Sum(Sizes(slices)) - DroppedSize(slices, Sizes(slices), id)
      modifies this`slices, slices`start, slices`stop
      ensures slices == remaining && Valid()
      ensures forall i :: 0 <= i < |slices| ==> slices[i].stop - slices[i].start == TWO_PI / |slices| as real
    {
      Keeping(remaining, id);
      Relayout();
    }

    /**
     * The filter of `remove_slice`: the slices whose uuid is not `id`, in
     * order, with the size of each other one taken off `total_size`.
     */
    method Filter(id: string) returns (remaining: seq<Slice>)
      modifies this`totalSize
      ensures remaining == Keep(slices, id)
      ensures totalSize == old(totalSize) - DroppedSize(slices, Sizes(slices), id)
    {
      var ps := slices;
      ghost var sz := Sizes(ps);
      remaining := [];
      for i := 0 to |ps|
        invariant remaining == Keep(ps[..i], id)
        invariant totalSize == old(totalSize) - DroppedSize(ps[..i], sz[..i], id)
      {
        KeepStep(ps, id, i);
        DroppedStep(ps, sz, id, i);
        var s := ps[i];
        var isMatch := s.uuid == id;
        if isMatch {
          totalSize := totalSize - s.size;
        }
        if !isMatch {
          remaining := remaining + [s];
        }
      }
      assert ps[..|ps|] == ps && sz[..|sz|] == sz;
    }

    /** `slices = remaining`: what the filter keeps is distinct, of size 1 and adds up to `total_size`. */
    method Keeping(remaining: seq<Slice>, ghost id: string)
      requires Distinct(slices) && (forall k :: 0 <= k < |slices| ==> slices[k].size == 1.0)
      requires remaining == Keep(slices, id)
      requires totalSize == Sum(Sizes(slices)) - DroppedSize(slices, Sizes(slices), id)
      modifies this`slices
      ensures slices == remaining && forall i :: 0 <= i < |slices| ==> slices[i] in old(slices)
      ensures Distinct(slices) && (forall k :: 0 <= k < |slices| ==> slices[k].size == 1.0)
      ensures totalSize == Sum(Sizes(slices))
    {
      KeepTotal(slices, id, totalSize);
      KeepWithin(slices, id);
      KeepDistinct(slices, id);
      KeepUnits(slices, id);
      ghost var sz := Sizes(remaining);
      slices := remaining;
      assert Sizes(slices) == sz;
    }

    /**
     * The `mousemove` listener, given the pointer's distance `d` from the
     * centre and the angle `raw` that `atan2` gives for it: the pointer is
     * within the chart when `d` is at most the radius, the angle is moved
     * into [0, 2π), and exactly the slices the angle is over are hovered,
     * when the pointer is within the chart.
     */
    method MouseMoved(d: real, rad: real, raw: real)
      modifies this`hovering, slices`hovering
      ensures hovering == (d <= rad)
      ensures forall i :: 0 <= i < |slices| ==> slices[i].hovering == (hovering && Hit(slices[i], PointerAngle(raw)))
    {
      hovering := d <= rad;
      var a := raw;
      if a < 0.0 {
        a := a + TWO_PI;
      }
      assert a == PointerAngle(raw);
      for i := 0 to |slices|
        invariant hovering == (d <= rad)
        invariant forall j :: 0 <= j < i ==> slices[j].hovering == (hovering && Hit(slices[j], a))
      {
        slices[i].hovering := hovering && a > slices[i].start && a <= slices[i].stop;
      }
    }

    /**
     * The selection loop of the `click` listener: each slice is selected
     * when it is hovered and there is more than one slice, and the
     * selection is the last such slice, or none.
     */
    method Select()
      modifies this`selectedSlice, slices`selected
      ensures forall i :: 0 <= i < |slices| ==> slices[i].selected == (slices[i].hovering && |slices| > 1)
      ensures selectedSlice == Selection(slices)
    {
      selectedSlice := null;
      for i := 0 to |slices|
        invariant forall j :: 0 <= j < i ==> slices[j].selected == (slices[j].hovering && |slices| > 1)
        invariant selectedSlice == Picked(slices, i)
      {
        SelectNext(slices[i], i);
      }
      assert slices[..|slices|] == slices;
    }

    /** One turn of the selection loop, on the slice at index `i`. */
    method SelectNext(s: Slice, i: nat)
      requires i < |slices| && s == slices[i]
      requires forall j :: 0 <= j < i ==> slices[j].selected == (slices[j].hovering && |slices| > 1)
      requires selectedSlice == Picked(slices, i)
      modifies this`selectedSlice, s`selected
      ensures forall j :: 0 <= j < i + 1 ==> slices[j].selected == (slices[j].hovering && |slices| > 1)
      ensures selectedSlice == Picked(slices, i + 1)
    {
      LastHoveredStep(slices, i);
      s.selected := s.hovering && |slices| > 1;
      if s.selected {
        selectedSlice := s;
      }
    }

    /**
     * The `click` listener, given whether the add and the remove buttons
     * are under the pointer and showing, and the uuid a new slice would
     * draw: the add button adds a slice, the remove button removes the
     * selected one, and the selection is made again. The remove button
     * with no selection throws, as `selected_slice.uuid` is read on null,
     * and the rest of the listener does not run.
     */
    method Click(addClicking: bool, removeClicking: bool, newId: string) returns (thrown: bool)
      requires Valid()
      modifies this`slices, this`totalSize, this`selectedSlice, slices`start, slices`stop, slices`selected
      ensures thrown <==> removeClicking && old(selectedSlice) == null
      ensures Valid()
      ensures thrown ==> selectedSlice == old(selectedSlice)
      ensures !thrown ==> selectedSlice == Selection(slices)
      ensures !thrown ==> forall i :: 0 <= i < |slices| ==> slices[i].selected == (slices[i].hovering && |slices| > 1)
      ensures Edited(old(slices), slices, addClicking, removeClicking, old(selectedSlice), newId)
      ensures forall i :: 0 <= i < |slices| ==> slices[i] in old(slices) || fresh(slices[i])
      ensures thrown && !addClicking ==>
        slices == old(slices) && totalSize == old(totalSize) && unchanged(old(slices))
    {
      thrown := Edit(addClicking, removeClicking, newId);
      if thrown {
        return;
      }
      Reselect();
    }

    /** The selection loop run on a valid chart, which it leaves valid. */
    method Reselect()
      requires Valid()
      modifies this`selectedSlice, slices`selected
      ensures Valid()
      ensures forall i :: 0 <= i < |slices| ==> slices[i].selected == (slices[i].hovering && |slices| > 1)
      ensures selectedSlice == Selection(slices)
    {
      Select();
    }

    /**
     * The buttons' half of the `click` listener: the add button adds a
     * slice, then the remove button removes the selected one, or throws
     * when there is none. Every slice left was there before or is new.
     */
    method Edit(addClicking: bool, removeClicking: bool, newId: string) returns (thrown: bool)
      requires Valid()
      modifies this`slices, this`totalSize, slices`start, slices`stop
      ensures thrown <==> removeClicking && old(selectedSlice) == null
      ensures Valid()
      ensures forall i :: 0 <= i < |slices| ==> slices[i] in old(slices) || fresh(slices[i])
      ensures Edited(old(slices), slices, addClicking, removeClicking, old(selectedSlice), newId)
      ensures thrown && !addClicking ==> slices == old(slices) && totalSize == old(totalSize)
      ensures thrown && !addClicking ==> unchanged(old(slices))
    {
      AddStep(addClicking, newId);
      label added:
      thrown := RemoveStep(removeClicking);
      if thrown && !addClicking {
        assert unchanged@added(old(slices));
      }
    }

    /** The add button of the `click` listener: a click on it adds a slice with uuid `newId`. */
    method AddStep(addClicking: bool, newId: string)
      requires Valid()
      modifies this`slices, this`totalSize, slices`start, slices`stop
      ensures Valid()
      ensures forall i :: 0 <= i < |slices| ==> slices[i] in old(slices) || fresh(slices[i])
      ensures !addClicking ==> slices == old(slices) && totalSize == old(totalSize) && unchanged(old(slices))
      ensures addClicking ==>
        |slices| == |old(slices)| + 1 && slices[..|old(slices)|] == old(slices) && slices[|old(slices)|].uuid == newId
    {
      if addClicking {
        var s := AddSlice(newId);
        assert slices[..|old(slices)|] == old(slices);
      }
    }

    /**
     * The remove button of the `click` listener: a click on it removes
     * the selected slice, and throws when there is none, as
     * `selected_slice.uuid` is read on null.
     */
    method RemoveStep(removeClicking: bool) returns (thrown: bool)
      requires Valid()
      modifies this`slices, this`totalSize, slices`start, slices`stop
      ensures thrown <==> removeClicking && old(selectedSlice) == null
      ensures Valid()
      ensures forall i :: 0 <= i < |slices| ==> slices[i] in old(slices)
      ensures !removeClicking ==> slices == old(slices) && totalSize == old(totalSize)
      ensures removeClicking && !thrown ==> slices == Keep(old(slices), old(selectedSlice).uuid)
      ensures thrown ==> slices == old(slices) && totalSize == old(totalSize) && unchanged(old(slices))
    {
      thrown := false;
      if removeClicking {
        if selectedSlice == null {
          thrown := true;
          return;
        }
        KeepWithin(slices, selectedSlice.uuid);
        RemoveSlice(selectedSlice.uuid);
      }
    }
  }

  /**
   * What the buttons of a click do to the array `before`, with `sel` the
   * selection: nothing when neither is clicked; the add button alone
   * appends a slice with uuid `newId`; the remove button alone drops the
   * slices with the selection's uuid, and with no selection it throws
   * before the array changes.
   */
  predicate Edited(before: seq<Slice>, after: seq<Slice>, add: bool, remove: bool, sel: Slice?, newId: string) {
    && (!add && !remove ==> after == before)
    && (add && !remove ==> |after| == |before| + 1 && after[..|before|] == before && after[|before|].uuid == newId)
    && (!add && remove && sel != null ==> after == Keep(before, sel.uuid))
    && (!add && remove && sel == null ==> after == before)
  }

  /** The `atan2` angle moved into [0, 2π) by adding 2π to a negative one. */
  function PointerAngle(raw: real): (a: real)
    ensures a == raw || a == raw + TWO_PI
    ensures -TWO_PI / 2.0 < raw <= TWO_PI / 2.0 ==> 0.0 <= a < TWO_PI
  {
    if raw < 0.0 then raw + TWO_PI else raw
  }
}
