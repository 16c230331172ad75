/**
 * `UIPie` of src/UI/uipie.ts: the views of a pie's slices and the state of
 * the two pointer sessions it runs over them, a drag of a whole slice that
 * asks for it to be moved past a neighbour, and a drag of a slice's handle
 * that asks for it to be rescaled. The slice views are values in a list; the
 * view the source holds in `_dragUI` is an element of that list, so it is
 * kept as its position there. The callbacks `onSelect`, `onRelease`,
 * `onScale` and `onSliceDrag` become the signals a handler returns, in the
 * order the source calls them.
 */
module UIPieModel {
  import opened Util
  import opened Partition
  import opened UiGeometry

  datatype PieSignal =
    | Select(id: string)               // onSelect(slice)
    | Release                          // onRelease()
    | Rescale(id: string, size: real)  // onScale(id, size)
    | Reorder(id: string, dir: Dir)    // onSliceDrag(id, dir)

  /**
   * A `UIPieSlice`: its current arc, the arc it was built with, and its
   * selection, activity and scale-drag state.
   */
  datatype SliceView = SliceView(id: string, arc: Sector, ogArc: Sector, selected: bool, active: bool,
                                 scaling: bool, scaleStart: Option<Reading>)

  /** A fresh view of the slice at `i`: unselected, active, not scaling. */
  function NewView(data: seq<Slice>, i: nat): SliceView
    requires i < |data|
  {
    var a := ViewArc(data, i);
    SliceView(data[i].id, a, a, false, true, false, None)
  }

  function Arcs(vs: seq<SliceView>): (arcs: seq<Sector>)
    ensures |arcs| == |vs| && forall i :: 0 <= i < |vs| ==> arcs[i] == vs[i].arc
  {
    seq(|vs|, i requires 0 <= i < |vs| => vs[i].arc)
  }

  function ViewIds(vs: seq<SliceView>): (ids: seq<string>)
    ensures |ids| == |vs| && forall i :: 0 <= i < |vs| ==> ids[i] == vs[i].id
  {
    seq(|vs|, i requires 0 <= i < |vs| => vs[i].id)
  }

  /** The view's arc length, as the pie measures a scale drag's start length. */
  function ViewLength(v: SliceView): real {
    ArcLength(v.arc.t1, v.arc.t2)
  }

  // ---------------------------------------------------------------------------
  // Pressing
  // ---------------------------------------------------------------------------

  /**
   * `mousePressed` of one slice (`UISlice`, then `UIPieSlice`): an inactive
   * slice ignores the press; an active one becomes selected iff it contains
   * the pointer, and a press on its scale handle starts a scale drag there
   * (`UIPieSlice.startDrag`).
   */
  function Pressed(c: Disc, v: SliceView, r: Reading, onHandle: bool): SliceView {
    if !v.active then v
    else
      var w := v.(selected := InSector(c, v.arc, r));
      if onHandle then w.(scaleStart := Some(r), scaling := true) else w
  }

  function Presses(c: Disc, vs: seq<SliceView>, r: Reading, onHandle: seq<bool>): (ws: seq<SliceView>)
    requires |onHandle| == |vs|
    ensures |ws| == |vs| && forall i :: 0 <= i < |vs| ==> ws[i] == Pressed(c, vs[i], r, onHandle[i])
  {
    seq(|vs|, i requires 0 <= i < |vs| => Pressed(c, vs[i], r, onHandle[i]))
  }

  /** The position of the last view in a scale drag, or none. */
  function LastScaling(vs: seq<SliceView>): (k: Option<nat>)
    ensures k.Some? ==> k.value < |vs| && vs[k.value].scaling
    ensures k.Some? ==> forall j :: k.value < j < |vs| ==> !vs[j].scaling
    ensures k.None? ==> forall j :: 0 <= j < |vs| ==> !vs[j].scaling
  {
    if |vs| == 0 then None
    else if vs[|vs| - 1].scaling then Some(|vs| - 1)
    else LastScaling(vs[..|vs| - 1])
  }

  /**
   * The loop of `UIPie.mousePressed` over the slices: every slice takes the
   * press, and the last slice found in a scale drag is the one the pie
   * records the scale target of.
   */
  method PressAll(c: Disc, vs: seq<SliceView>, r: Reading, onHandle: seq<bool>)
    returns (ws: seq<SliceView>, last: Option<nat>)
    requires |onHandle| == |vs|
    ensures ws == Presses(c, vs, r, onHandle)
    ensures last == LastScaling(ws)
  {
    ws := [];
    last := None;
    for i := 0 to |vs|
      invariant ws == Presses(c, vs[..i], r, onHandle[..i])
      invariant last == LastScaling(ws)
    {
      var w := Pressed(c, vs[i], r, onHandle[i]);
      assert (ws + [w])[..i] == ws;
      ws := ws + [w];
      if w.scaling {
        last := Some(i);
      }
    }
    assert vs[..|vs|] == vs && onHandle[..|vs|] == onHandle;
  }

  // ---------------------------------------------------------------------------
  // Scale drags
  // ---------------------------------------------------------------------------

  /**
   * `UIPieSlice.mouseDragged`: the scale factor, the pointer's distance from
   * the centre over its distance at the start of the scale drag. There is
   * none unless the slice is in a scale drag with a start point; a start
   * point on the centre itself is left out (the source divides by zero).
   */
  function ScaleFactor(v: SliceView, r: Reading): (f: Option<real>)
    ensures f.Some? <==> v.scaling && v.scaleStart.Some? && v.scaleStart.value.dist != 0.0
    ensures f.Some? ==> f.value * v.scaleStart.value.dist == r.dist
  {
    if v.scaling && v.scaleStart.Some? && v.scaleStart.value.dist != 0.0 then
      Some(r.dist / v.scaleStart.value.dist)
    else
      None
  }

  /** A `_scalingStartLen` cleared to `null` multiplies as 0. */
  function LenOrZero(len: Option<real>): real {
    if len.Some? then len.value else 0.0
  }

  /** The size the pie reports: the start length times the factor. */
  function ScaledSize(startLen: Option<real>, factor: real): real {
    LenOrZero(startLen) * factor
  }

  /** `_scalingId` is truthy: set, and not the empty string. */
  predicate Truthy(id: Option<string>) {
    id.Some? && id.value != ""
  }

  /** The `onScale` reports of the views, one per view with a scale factor, in order. */
  function Reports(ws: seq<SliceView>, startLen: Option<real>, r: Reading): seq<PieSignal> {
    if |ws| == 0 then []
    else
      var w := ws[|ws| - 1];
      var f := ScaleFactor(w, r);
      Reports(ws[..|ws| - 1], startLen, r) + (if f.Some? then [Rescale(w.id, ScaledSize(startLen, f.value))] else [])
  }

  /** The views, `_scalingId` and the reports after the scale part of `UIPie.mouseDragged`. */
  datatype ScalePass = ScalePass(views: seq<SliceView>, scalingId: Option<string>, signals: seq<PieSignal>)

  /** One slice of the scale pass: the slice takes the target's flag once the target is known, then reports. */
  function ScaleStep(acc: ScalePass, v: SliceView, startLen: Option<real>, r: Reading): ScalePass {
    var w := if Truthy(acc.scalingId) then v.(scaling := v.id == acc.scalingId.value) else v;
    var f := ScaleFactor(w, r);
    if f.Some? then
      ScalePass(acc.views + [w], Some(w.id), acc.signals + [Rescale(w.id, ScaledSize(startLen, f.value))])
    else
      ScalePass(acc.views + [w], acc.scalingId, acc.signals)
  }

  /**
   * The scale part of `UIPie.mouseDragged` over the views in order: once the
   * pie knows its scale target, every slice's scale flag is whether it is
   * the target; a slice that reports a scale becomes the target.
   */
  function ScaleDrag(vs: seq<SliceView>, id0: Option<string>, startLen: Option<real>, r: Reading): (p: ScalePass)
    ensures |p.views| == |vs|
  {
    if |vs| == 0 then ScalePass([], id0, [])
    else ScaleStep(ScaleDrag(vs[..|vs| - 1], id0, startLen, r), vs[|vs| - 1], startLen, r)
  }

  /** The scale pass changes nothing in a view but its scale flag. */
  lemma {:induction false} ScaleDragOnlyFlags(vs: seq<SliceView>, id0: Option<string>, startLen: Option<real>, r: Reading)
    ensures var p := ScaleDrag(vs, id0, startLen, r);
      forall j :: 0 <= j < |vs| ==> p.views[j] == vs[j].(scaling := p.views[j].scaling)
  {
    if |vs| > 0 {
      var front := vs[..|vs| - 1];
      ScaleDragOnlyFlags(front, id0, startLen, r);
      var acc := ScaleDrag(front, id0, startLen, r);
      var p := ScaleDrag(vs, id0, startLen, r);
      assert forall j :: 0 <= j < |front| ==> p.views[j] == acc.views[j] && vs[j] == front[j];
    }
  }

  /** The reports of the scale pass are exactly those of the views as it leaves them. */
  lemma {:induction false} ScaleDragReports(vs: seq<SliceView>, id0: Option<string>, startLen: Option<real>, r: Reading)
    ensures var p := ScaleDrag(vs, id0, startLen, r);
      p.signals == Reports(p.views, startLen, r)
  {
    if |vs| > 0 {
      var front := vs[..|vs| - 1];
      ScaleDragReports(front, id0, startLen, r);
      var acc := ScaleDrag(front, id0, startLen, r);
      var p := ScaleDrag(vs, id0, startLen, r);
      assert p.views[..|vs| - 1] == acc.views;
    }
  }

  /**
   * Once the pie knows its scale target, it stays the target, and exactly
   * the slices with its id are left in a scale drag, so only they report.
   */
  lemma {:induction false} ScaleTargetSticks(vs: seq<SliceView>, id0: Option<string>, startLen: Option<real>, r: Reading)
    requires Truthy(id0)
    ensures var p := ScaleDrag(vs, id0, startLen, r);
      && p.scalingId == id0
      && forall j :: 0 <= j < |vs| ==> p.views[j].scaling == (vs[j].id == id0.value)
  {
    if |vs| > 0 {
      var front := vs[..|vs| - 1];
      ScaleTargetSticks(front, id0, startLen, r);
      var acc := ScaleDrag(front, id0, startLen, r);
      var p := ScaleDrag(vs, id0, startLen, r);
      assert forall j :: 0 <= j < |front| ==> p.views[j] == acc.views[j] && vs[j] == front[j];
    }
  }

  /** The scale part of `mouseDragged`, which only runs during a scale session. */
  function ScaleOutcome(scaling: bool, vs: seq<SliceView>, id0: Option<string>, startLen: Option<real>, r: Reading): (p: ScalePass)
    ensures |p.views| == |vs|
  {
    if scaling then ScaleDrag(vs, id0, startLen, r) else ScalePass(vs, id0, [])
  }

  lemma ScaleDragStep(vs: seq<SliceView>, i: nat, id0: Option<string>, startLen: Option<real>, r: Reading)
    requires i < |vs|
    ensures ScaleDrag(vs[..i + 1], id0, startLen, r) == ScaleStep(ScaleDrag(vs[..i], id0, startLen, r), vs[i], startLen, r)
  {
    assert vs[..i + 1][..i] == vs[..i];
  }

  /** The loop of the scale part of `UIPie.mouseDragged`. */
  method ScaleLoop(vs: seq<SliceView>, id0: Option<string>, startLen: Option<real>, r: Reading)
    returns (p: ScalePass)
    ensures p == ScaleDrag(vs, id0, startLen, r)
  {
    p := ScalePass([], id0, []);
    for i := 0 to |vs|
      invariant p == ScaleDrag(vs[..i], id0, startLen, r)
    {
      ScaleDragStep(vs, i, id0, startLen, r);
      ghost var before := p;
      var w := vs[i];
      if Truthy(p.scalingId) {
        w := w.(scaling := w.id == p.scalingId.value);
      }
      var f := ScaleFactor(w, r);  // UIPieSlice.mouseDragged
      assert w == (if Truthy(before.scalingId) then vs[i].(scaling := vs[i].id == before.scalingId.value) else vs[i]);
      if f.Some? {
        // the slice's onScale: the pie records the target and reports its new size
        p := ScalePass(p.views + [w], Some(w.id), p.signals + [Rescale(w.id, ScaledSize(startLen, f.value))]);
        assert p == ScaleStep(before, vs[i], startLen, r);
      } else {
        p := p.(views := p.views + [w]);
        assert p == ScaleStep(before, vs[i], startLen, r);
      }
    }
    assert vs[..|vs|] == vs;
  }

  /**
   * A reported size is the length at the start of the scale drag times the
   * distance ratio: a pointer twice as far from the centre doubles it.
   */
  lemma ReportedSize(v: SliceView, startLen: real, r: Reading)
    requires ScaleFactor(v, r).Some?
    ensures ScaledSize(Some(startLen), ScaleFactor(v, r).value) * v.scaleStart.value.dist == startLen * r.dist
  {
    var f := ScaleFactor(v, r).value;
    assert startLen * f * v.scaleStart.value.dist == startLen * (f * v.scaleStart.value.dist);
  }

  // ---------------------------------------------------------------------------
  // Slice drags
  // ---------------------------------------------------------------------------

  /**
   * The wraparound correction of `UIPie.mouseDragged`: the perpendicular
   * `perp` of the neighbour is moved by a full turn so that, for a
   * normalised edge and perpendicular, it lies at or past the floating edge
   * `fe` going clockwise (sign > 0) and at or before it going
   * counter-clockwise (sign < 0), within one turn; it still names the same
   * angle.
   */
  function CorrectedPerp(perp: real, fe: real, sign: int): (q: real)
    ensures q == perp || q == perp + TWO_PI || q == perp - TWO_PI
    ensures IsAngle(perp) && IsAngle(fe) && sign > 0 ==> fe <= q < fe + TWO_PI
    ensures IsAngle(perp) && IsAngle(fe) && sign < 0 ==> fe - TWO_PI < q <= fe
  {
    if sign > 0 && fe > perp then perp + TWO_PI
    else if sign < 0 && fe < perp then perp - TWO_PI
    else perp
  }

  /**
   * The angle a quarter turn from `mid`: the midpoint of the half circle
   * from `mid` to its opposite going clockwise (sign > 0) or from the
   * opposite to `mid` (sign < 0).
   */
  function Perpendicular(mid: real, sign: int): real {
    var opp := Mod(mid + TWO_PI / 2.0, TWO_PI);  // mod(next_mid + Math.PI, 2π)
    if sign > 0 then AngleBetween(mid, opp) else AngleBetween(opp, mid)
  }

  /**
   * The perpendicular lies a quarter turn clockwise after the neighbour's
   * midpoint when the pointer turns clockwise, and a quarter turn before it
   * otherwise.
   */
  lemma PerpendicularIsQuarterTurn(mid: real, sign: int)
    requires IsAngle(mid)
    ensures sign > 0 ==> ArcLength(mid, Perpendicular(mid, sign)) == TWO_PI / 4.0
    ensures sign <= 0 ==> ArcLength(Perpendicular(mid, sign), mid) == TWO_PI / 4.0
  {
    var half := TWO_PI / 2.0;
    var opp := Mod(mid + half, TWO_PI);
    ArcLengthOfStep(mid, half);
    assert ArcLength(mid, opp) == half;
    ModAddMod(mid + half, half);
    assert mid + half + half == mid + TWO_PI;
    ModOfShiftedAngle(mid + TWO_PI);
    ArcLengthUnique(opp, mid, half);
    assert ArcLength(opp, mid) == half;
  }

  /**
   * How far the floating edge is from the corrected perpendicular of the
   * neighbour's arc: the leading edge is the floating arc's end going
   * clockwise and its start going counter-clockwise. For a normalised
   * floating arc the distance is under a full turn.
   */
  function ReorderDiff(floatArc: Sector, nextArc: Sector, sign: int): (diff: real)
    ensures IsAngle(floatArc.t1) && IsAngle(floatArc.t2) ==> 0.0 <= diff < TWO_PI
  {
    var fe := LeadingEdge(floatArc, sign);
    var nextMid := AngleBetween(nextArc.t1, nextArc.t2);
    var perp := Perpendicular(nextMid, sign);
    Abs(CorrectedPerp(perp, fe, sign) - fe)
  }

  /**
   * What a pointer move with heading `sign` (±1) reports while the view at
   * `k` is held and floating: `onSliceDrag(id, dir)` when its leading edge
   * is within a quarter turn of the corrected perpendicular of the
   * neighbour `mod(curr_i + sign, n)`, where `curr_i` is the first view with
   * the held view's id.
   */
  function ReorderSignals(vs: seq<SliceView>, k: nat, sign: int): (out: seq<PieSignal>)
    requires k < |vs| && (sign == 1 || sign == -1)
    ensures |out| <= 1
    ensures |out| == 1 ==> out[0] == Reorder(vs[k].id, if sign > 0 then CW else CCW)
  {
    var curr := IndexOf(ViewIds(vs), vs[k].id);
    var next := Neighbour(curr, sign, |vs|);
    if ReorderDiff(vs[k].arc, vs[next].arc, sign) <= TWO_PI / 4.0 then [Reorder(vs[k].id, DirOf(sign))] else []
  }

  /**
   * With distinct ids the neighbour is the held view's successor going
   * clockwise and its predecessor going counter-clockwise, and the signal
   * fires exactly when the edge is within a quarter turn of it.
   */
  lemma ReorderNeighbour(vs: seq<SliceView>, k: nat, sign: int)
    requires k < |vs| && (sign == 1 || sign == -1)
    requires forall i, j :: 0 <= i < j < |vs| ==> vs[i].id != vs[j].id
    ensures var next := if sign == 1 then Succ(k, |vs|) else Pred(k, |vs|);
      ReorderSignals(vs, k, sign) != [] <==> ReorderDiff(vs[k].arc, vs[next].arc, sign) <= TWO_PI / 4.0
  {
    var curr := IndexOf(ViewIds(vs), vs[k].id);
    assert curr == k;
  }

  /**
   * The held view as `mouseDragged` leaves it: floating on `theta`, active
   * and selected.
   */
  function Held(v: SliceView, theta: real): SliceView {
    v.(arc := Floating(v.arc, theta), active := true, selected := true)
  }

  // ---------------------------------------------------------------------------
  // Clicking
  // ---------------------------------------------------------------------------

  /** The `onSelect` calls of the click loop: one per selected view, in order. */
  function Selections(vs: seq<SliceView>): (out: seq<PieSignal>)
    ensures |out| <= |vs|
    ensures forall s :: s in out ==> s.Select?
    ensures out == [] <==> forall j :: 0 <= j < |vs| ==> !vs[j].selected
  {
    if |vs| == 0 then []
    else
      var front := vs[..|vs| - 1];
      var v := vs[|vs| - 1];
      assert forall j :: 0 <= j < |front| ==> front[j] == vs[j];
      Selections(front) + (if v.selected then [Select(v.id)] else [])
  }

  /** `UIPieSlice.mouseClicked`: a click ends the slice's scale drag. */
  function Clicked(v: SliceView): SliceView {
    v.(scaling := false, scaleStart := None)
  }

  /** The loop of `UIPie.mouseClicked`: every slice takes the click; selected slices are reported. */
  method ClickAll(vs: seq<SliceView>) returns (ws: seq<SliceView>, selected: bool, out: seq<PieSignal>)
    ensures ws == ClickedAll(vs)
    ensures out == Selections(vs)
    ensures selected <==> out != []
  {
    ws := [];
    selected := false;
    out := [];
    for i := 0 to |vs|
      invariant |ws| == i && forall j :: 0 <= j < i ==> ws[j] == Clicked(vs[j])
      invariant out == Selections(vs[..i])
      invariant selected <==> out != []
    {
      assert vs[..i + 1][..i] == vs[..i];
      var w := Clicked(vs[i]);
      ws := ws + [w];
      selected := selected || w.selected;
      if w.selected {
        out := out + [Select(w.id)];
      }
    }
    assert vs[..|vs|] == vs;
  }

  /** Every view after the click loop. */
  function ClickedAll(vs: seq<SliceView>): (ws: seq<SliceView>)
    ensures |ws| == |vs| && forall i :: 0 <= i < |vs| ==> ws[i] == Clicked(vs[i])
  {
    seq(|vs|, i requires 0 <= i < |vs| => Clicked(vs[i]))
  }

  /**
   * The views after a drag of the view at `k` stops: the first view with
   * its id (`slices.find`) is reset to the arc it was built with.
   */
  function Stopped(vs: seq<SliceView>, k: nat): seq<SliceView>
    requires k < |vs|
  {
    var j := IndexOf(ViewIds(vs), vs[k].id);
    vs[j := vs[j].(arc := vs[j].ogArc)]
  }

  /**
   * Stopping a drag snaps exactly one view back, to its original arc: with
   * distinct ids it is the held view itself, and no other view changes.
   */
  lemma StoppedResetsHeld(vs: seq<SliceView>, k: nat)
    requires k < |vs|
    ensures var j := IndexOf(ViewIds(vs), vs[k].id);
      && 0 <= j <= k
      && |Stopped(vs, k)| == |vs|
      && Stopped(vs, k)[j] == vs[j].(arc := vs[j].ogArc)
      && (forall i :: 0 <= i < |vs| && i != j ==> Stopped(vs, k)[i] == vs[i])
    ensures (forall i, i' :: 0 <= i < i' < |vs| ==> vs[i].id != vs[i'].id) ==>
      Stopped(vs, k) == vs[k := vs[k].(arc := vs[k].ogArc)]
  {
    var j := IndexOf(ViewIds(vs), vs[k].id);
    assert ViewIds(vs)[k] == vs[k].id;
  }

  // ---------------------------------------------------------------------------
  // Refreshing
  // ---------------------------------------------------------------------------

  /**
   * The view `refresh` builds for the slice at `i`: a fresh view, which
   * takes over the floating arc and the selection of the view held during a
   * drag when it has that view's id, and resumes the pie's scale drag,
   * selected, when it is the scale target.
   */
  function Refreshed(data: seq<Slice>, i: nat, held: Option<SliceView>, scaling: bool,
                     scalingId: Option<string>, startPoint: Option<Reading>): SliceView
    requires i < |data|
  {
    var v := NewView(data, i);
    var w := if held.Some? && held.value.id == data[i].id then v.(arc := held.value.arc, selected := true) else v;
    if scaling && scalingId == Some(data[i].id) then w.(scaleStart := startPoint, scaling := true, selected := true)
    else w
  }

  /** The loop of `refresh`: the views of the slices in order, and the position of the last one with the held view's id. */
  method BuildViews(data: seq<Slice>, held: Option<SliceView>, scaling: bool,
                    scalingId: Option<string>, startPoint: Option<Reading>)
    returns (built: seq<SliceView>, picked: Option<nat>)
    ensures |built| == |data|
    ensures forall i :: 0 <= i < |data| ==> built[i] == Refreshed(data, i, held, scaling, scalingId, startPoint)
    ensures picked == if held.Some? then LastIndexOf(Ids(data), held.value.id) else None
  {
    var ids := Ids(data);
    built := [];
    picked := None;
    for i := 0 to |data|
      invariant |built| == i
      invariant forall j :: 0 <= j < i ==> built[j] == Refreshed(data, j, held, scaling, scalingId, startPoint)
      invariant picked == if held.Some? then LastIndexOf(ids[..i], held.value.id) else None
    {
      if held.Some? {
        LastIndexOfStep(ids, i, held.value.id);
      }
      built := built + [Refreshed(data, i, held, scaling, scalingId, startPoint)];
      if held.Some? && held.value.id == data[i].id {
        picked := Some(i);
      }
    }
    assert ids[..|data|] == ids;
  }

  // ---------------------------------------------------------------------------
  // The pie
  // ---------------------------------------------------------------------------

  class UIPie {
    const disc: Disc
    var active: bool
    var slices: seq<SliceView>
    var dragging: bool
    var dragLast: Option<Reading>
    var dragOffset: real
    var dragUI: Option<nat>
    var scaling: bool
    var scalingId: Option<string>
    var scalingStartPoint: Option<Reading>
    var scalingStartLen: Option<real>

    /** The held view is in the list, and a held view or a drag has a last pointer position. */
    predicate Valid()
      reads this
    {
      && (dragUI.Some? ==> dragUI.value < |slices| && dragLast.Some?)
      && (dragging ==> dragLast.Some?)
    }

    /** A pie over the disc `c`, with no slices until the first `refresh`. */
    constructor(c: Disc)
      ensures disc == c && active && slices == []
      ensures !dragging && dragLast.None? && dragUI.None?
      ensures !scaling && scalingId.None? && scalingStartPoint.None? && scalingStartLen.None?
      ensures Valid()
    {
      disc := c;
      active := true;
      slices := [];
      dragging := false;
      dragLast := None;
      dragOffset := 0.0;
      dragUI := None;
      scaling := false;
      scalingId := None;
      scalingStartPoint := None;
      scalingStartLen := None;
    }

    /**
     * `refresh(data)`: one fresh view per slice of the pie, in order. During
     * a drag the view with the held view's id (the last one, if several)
     * takes over its floating arc and becomes the held view; during a scale
     * drag the target's view resumes it. A drag whose held view was lost
     * by an earlier refresh throws at the first slice, reading the id of
     * the missing view, after the list and the held view were cleared.
     */
    method Refresh(data: seq<Slice>) returns (thrown: bool)
      requires Valid()
      modifies this
      ensures thrown <==> old(dragging) && old(dragUI).None? && |data| > 0
      ensures thrown ==> slices == [] && dragUI.None?
      ensures !thrown ==>
        var held := if old(dragging) && old(dragUI).Some? then Some(old(slices)[old(dragUI).value]) else None;
        && |slices| == |data|
        && (forall i :: 0 <= i < |data| ==>
              slices[i] == Refreshed(data, i, held, old(scaling), old(scalingId), old(scalingStartPoint)))
        && dragUI == (if held.Some? then LastIndexOf(Ids(data), held.value.id) else None)
      ensures dragging == old(dragging) && dragLast == old(dragLast) && dragOffset == old(dragOffset)
      ensures scaling == old(scaling) && scalingId == old(scalingId)
      ensures scalingStartPoint == old(scalingStartPoint) && scalingStartLen == old(scalingStartLen)
      ensures active == old(active)
      ensures Valid()
    {
      if dragging && dragUI.None? && |data| > 0 {
        slices := [];
        dragUI := None;
        return true;
      }
      thrown := false;
      var held := if dragging && dragUI.Some? then Some(slices[dragUI.value]) else None;
      var built, picked := BuildViews(data, held, scaling, scalingId, scalingStartPoint);
      slices := built;
      dragUI := picked;
    }

    /**
     * `startDrag(p)`: when a view contains the press, the last such view is
     * held, the press becomes the last pointer position, and the grab
     * offset is the view's midpoint less the pointer angle (so that
     * `FloatingAtGrab` puts the floating arc on the view's own arc). With
     * no view under the pointer nothing changes.
     */
    method StartDrag(r: Reading)
      requires Valid()
      modifies this
      ensures var k := LastContaining(disc, Arcs(old(slices)), r);
        && (k.Some? ==> dragUI == k && dragLast == Some(r) &&
                        dragOffset == AngleBetween(old(slices)[k.value].arc.t1, old(slices)[k.value].arc.t2) - r.angle)
        && (k.None? ==> dragUI == old(dragUI) && dragLast == old(dragLast) && dragOffset == old(dragOffset))
      ensures slices == old(slices) && dragging == old(dragging) && active == old(active)
      ensures scaling == old(scaling) && scalingId == old(scalingId)
      ensures scalingStartPoint == old(scalingStartPoint) && scalingStartLen == old(scalingStartLen)
      ensures Valid()
    {
      var k := PickLast(disc, Arcs(slices), r);
      if k.Some? {
        var s := slices[k.value].arc;
        dragLast := Some(r);
        dragUI := k;
        dragOffset := AngleBetween(s.t1, s.t2) - r.angle;
      }
    }

    /**
     * `mousePressed(p)`: every slice takes the press; once there are slices
     * the pie enters a scale session from the press point, taking the last
     * slice in a scale drag as the target and its arc length as the start
     * length. A press in the disc of an active pie then starts a drag.
     * `onHandle[i]` says whether the press is on slice `i`'s scale handle,
     * whose rectangle the source draws with `cos` and `sin`.
     */
    method MousePressed(r: Reading, onHandle: seq<bool>)
      requires Valid() && |onHandle| == |slices|
      modifies this
      ensures var ps := Presses(disc, old(slices), r, onHandle);
        var last := LastScaling(ps);
        var k := if InDisc(disc, r) && old(active) then LastContaining(disc, Arcs(ps), r) else None;
        && slices == ps
        && (last.Some? ==> scalingId == Some(ps[last.value].id) && scalingStartLen == Some(ViewLength(ps[last.value])))
        && (last.None? ==> scalingId == old(scalingId) && scalingStartLen == old(scalingStartLen))
        && (k.Some? ==> dragUI == k && dragLast == Some(r) &&
                        dragOffset == AngleBetween(ps[k.value].arc.t1, ps[k.value].arc.t2) - r.angle)
        && (k.None? ==> dragUI == old(dragUI) && dragLast == old(dragLast) && dragOffset == old(dragOffset))
      ensures scaling == (old(scaling) || |old(slices)| > 0)
      ensures scalingStartPoint == if |old(slices)| > 0 then Some(r) else old(scalingStartPoint)
      ensures dragging == old(dragging) && active == old(active)
      ensures Valid()
    {
      var ps, last := PressAll(disc, slices, r, onHandle);
      slices := ps;
      if |ps| > 0 {
        scaling := true;
        scalingStartPoint := Some(r);
      }
      if last.Some? {
        scalingStartLen := Some(ViewLength(ps[last.value]));
        scalingId := Some(ps[last.value].id);
      }
      if !InDisc(disc, r) || !active {
        return;
      }
      StartDrag(r);
    }

    /**
     * `mouseDragged(p)`. During a scale session the scale pass runs first
     * (`ScaleDrag`). Then, when a view is held, the pie is dragging and the
     * held view floats: active, selected, as long as before and centred on
     * the grab offset plus the pointer angle. When the pointer angle moved
     * since the last position, the move may signal a reorder
     * (`ReorderSignals`) and becomes the last position; an unmoved pointer
     * signals nothing and keeps it.
     */
    method MouseDragged(r: Reading) returns (signals: seq<PieSignal>)
      requires Valid()
      modifies this
      ensures var pass := ScaleOutcome(old(scaling), old(slices), old(scalingId), old(scalingStartLen), r);
        && scalingId == pass.scalingId
        && (old(dragUI).None? ==>
              slices == pass.views && signals == pass.signals &&
              dragging == old(dragging) && dragLast == old(dragLast))
        && (old(dragUI).Some? ==>
              var k := old(dragUI).value;
              var sign := Sign(r.angle - old(dragLast).value.angle);
              && dragging
              && slices == pass.views[k := Held(pass.views[k], old(dragOffset) + r.angle)]
              && (sign == 0 ==> dragLast == old(dragLast) && signals == pass.signals)
              && (sign != 0 ==> dragLast == Some(r) && signals == pass.signals + ReorderSignals(slices, k, sign)))
      ensures dragUI == old(dragUI) && dragOffset == old(dragOffset) && active == old(active)
      ensures scaling == old(scaling) && scalingStartPoint == old(scalingStartPoint)
      ensures scalingStartLen == old(scalingStartLen)
      ensures Valid()
    {
      var pass := ScalePass(slices, scalingId, []);
      if scaling {
        pass := ScaleLoop(slices, scalingId, scalingStartLen, r);
      }
      assert pass == ScaleOutcome(scaling, old(slices), old(scalingId), old(scalingStartLen), r);
      slices := pass.views;
      scalingId := pass.scalingId;
      signals := pass.signals;
      if dragUI.None? {
        return;
      }
      dragging := true;
      var k := dragUI.value;
      var theta := dragOffset + r.angle;
      slices := slices[k := Held(slices[k], theta)];
      var a := dragLast.value.angle;
      var b := r.angle;
      var sign := Sign(b - a);
      if sign == 0 {
        return;
      }
      signals := signals + ReorderSignals(slices, k, sign);
      dragLast := Some(r);
    }

    /**
     * `stopDrag()`: the scale session always ends. A drag with a held view
     * ends too: the first view with the held view's id snaps back to the
     * arc it was built with, and nothing is held or remembered any more.
     */
    method StopDrag()
      requires Valid()
      modifies this
      ensures !scaling
      ensures !(old(dragging) && old(dragUI).Some?) ==>
        slices == old(slices) && dragging == old(dragging) && dragLast == old(dragLast) && dragUI == old(dragUI)
      ensures old(dragging) && old(dragUI).Some? ==>
        slices == Stopped(old(slices), old(dragUI).value) && !dragging && dragLast.None? && dragUI.None?
      ensures dragOffset == old(dragOffset) && active == old(active) && scalingId == old(scalingId)
      ensures scalingStartPoint == old(scalingStartPoint) && scalingStartLen == old(scalingStartLen)
      ensures Valid()
    {
      scaling := false;
      if !dragging || dragUI.None? {
        return;
      }
      dragging := false;
      dragLast := None;
      var j := IndexOf(ViewIds(slices), slices[dragUI.value].id);  // slices.find by id
      assert ViewIds(slices)[dragUI.value] == slices[dragUI.value].id;
      slices := slices[j := slices[j].(arc := slices[j].ogArc)];  // og_slice.reset()
      dragUI := None;
    }

    /**
     * `mouseClicked(p)`: a scale session ends and forgets its target, start
     * point and start length; every slice leaves its scale drag; each
     * selected slice is reported with `onSelect`, and `onRelease` follows
     * exactly when none is selected; a drag in progress then stops.
     */
    method MouseClicked() returns (signals: seq<PieSignal>)
      requires Valid()
      modifies this
      ensures signals == Selections(old(slices)) + (if Selections(old(slices)) == [] then [Release] else [])
      ensures !scaling
      ensures old(scaling) ==> scalingId.None? && scalingStartPoint.None? && scalingStartLen.None?
      ensures !old(scaling) ==>
        scalingId == old(scalingId) && scalingStartPoint == old(scalingStartPoint) && scalingStartLen == old(scalingStartLen)
      ensures !(old(dragging) && old(dragUI).Some?) ==>
        slices == ClickedAll(old(slices)) && dragging == old(dragging) && dragLast == old(dragLast) && dragUI == old(dragUI)
      ensures old(dragging) && old(dragUI).Some? ==>
        slices == Stopped(ClickedAll(old(slices)), old(dragUI).value) && !dragging && dragLast.None? && dragUI.None?
      ensures dragOffset == old(dragOffset) && active == old(active)
      ensures Valid()
    {
      if scaling {
        scaling := false;
        scalingId := None;
        scalingStartPoint := None;
        scalingStartLen := None;
      }
      var ws, selected, out := ClickAll(slices);
      assert ws == ClickedAll(old(slices));
      slices := ws;
      signals := out;
      if !selected {
        signals := signals + [Release];
      }
      if dragging {
        StopDrag();
      }
    }
  }
}
