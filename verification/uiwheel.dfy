/**
 * `UIWheel` of src/UI/wheel.ts, the older drag handler of the wheel: the
 * wedge views with their selection, highlight and activity flags, and a
 * drag session that floats a copy of the grabbed wedge under the pointer
 * and asks, through the callback `cb(id, dir)`, for the wedge to be moved
 * past its neighbour once the floating copy's leading edge comes within
 * 0.1 radians of the neighbour's midpoint. The callback becomes the signal
 * `Drag` returns.
 */
module UIWheelModel {
  import opened Util
  import opened Partition
  import opened UiGeometry

  /** `cb(id, dir)`. */
  datatype WheelSignal = Reorder(id: string, dir: Dir)

  /** A `UIWheelWedge`: its arc and its selection, highlight and activity flags. */
  datatype WedgeView = WedgeView(id: string, arc: Sector, selected: bool, highlighted: bool, active: bool)

  /** A fresh view of the wedge at `i`: not selected, not highlighted, active. */
  function NewWedgeView(data: seq<Slice>, i: nat): WedgeView
    requires i < |data|
  {
    WedgeView(data[i].id, ViewArc(data, i), false, false, true)
  }

  function WedgeArcs(ws: seq<WedgeView>): (arcs: seq<Sector>)
    ensures |arcs| == |ws| && forall i :: 0 <= i < |ws| ==> arcs[i] == ws[i].arc
  {
    seq(|ws|, i requires 0 <= i < |ws| => ws[i].arc)
  }

  function WedgeIds(ws: seq<WedgeView>): (ids: seq<string>)
    ensures |ids| == |ws| && forall i :: 0 <= i < |ws| ==> ids[i] == ws[i].id
  {
    seq(|ws|, i requires 0 <= i < |ws| => ws[i].id)
  }

  /**
   * `findIndex` of the dragged id: the first wedge with it, or -1 when
   * there is none or no wedge was ever grabbed.
   */
  function DragIndex(ws: seq<WedgeView>, dragId: Option<string>): (i: int)
    ensures -1 <= i < |ws|
    ensures i >= 0 ==> dragId == Some(ws[i].id) && forall j :: 0 <= j < i ==> ws[j].id != ws[i].id
    ensures i < 0 ==> forall j :: 0 <= j < |ws| ==> dragId != Some(ws[j].id)
  {
    if dragId.Some? then IndexOf(WedgeIds(ws), dragId.value) else -1
  }

  /** The loop of `refresh`: one fresh view per wedge, in order. */
  method BuildWedges(data: seq<Slice>) returns (built: seq<WedgeView>)
    ensures |built| == |data| && forall i :: 0 <= i < |data| ==> built[i] == NewWedgeView(data, i)
  {
    built := [];
    for i := 0 to |data|
      invariant |built| == i && forall j :: 0 <= j < i ==> built[j] == NewWedgeView(data, j)
    {
      built := built + [NewWedgeView(data, i)];
    }
  }

  // ---------------------------------------------------------------------------
  // Selecting and highlighting
  // ---------------------------------------------------------------------------

  /** Which flag a pointer pass sets: `select` sets `selected`, `highlight` sets `highlighted`. */
  datatype Flag = SelectedFlag | HighlightedFlag

  function Marked(w: WedgeView, f: Flag, b: bool): WedgeView {
    if f == SelectedFlag then w.(selected := b) else w.(highlighted := b)
  }

  function IsMarked(w: WedgeView, f: Flag): bool {
    if f == SelectedFlag then w.selected else w.highlighted
  }

  /**
   * The loops of `select` and `highlight`: every wedge's flag becomes
   * whether it contains the pointer, nothing else about a wedge changes,
   * and the wedge returned is the last one that contains it.
   */
  method MarkAll(c: Disc, ws: seq<WedgeView>, r: Reading, f: Flag) returns (out: seq<WedgeView>, h: Option<nat>)
    ensures |out| == |ws|
    ensures forall i :: 0 <= i < |ws| ==> out[i] == Marked(ws[i], f, InSector(c, ws[i].arc, r))
    ensures forall i :: 0 <= i < |ws| ==> (IsMarked(out[i], f) <==> InSector(c, ws[i].arc, r))
    ensures h == LastContaining(c, WedgeArcs(ws), r)
    ensures h.Some? ==> IsMarked(out[h.value], f) && forall j :: h.value < j < |ws| ==> !IsMarked(out[j], f)
    ensures h.None? ==> forall j :: 0 <= j < |ws| ==> !IsMarked(out[j], f)
  {
    ghost var arcs := WedgeArcs(ws);
    out := [];
    h := None;
    for i := 0 to |ws|
      invariant |out| == i
      invariant forall j :: 0 <= j < i ==> out[j] == Marked(ws[j], f, InSector(c, ws[j].arc, r))
      invariant h == LastContaining(c, arcs[..i], r)
    {
      LastContainingStep(c, arcs, i, r);
      var hit := InSector(c, ws[i].arc, r);  // w.contains(pointer)
      out := out + [Marked(ws[i], f, hit)];
      if hit {
        h := Some(i);
      }
    }
    assert arcs[..|ws|] == arcs;
  }

  // ---------------------------------------------------------------------------
  // Grabbing
  // ---------------------------------------------------------------------------

  /** A wedge under the pointer at a grab is deactivated; the others stay as they are. */
  function Grabbed(c: Disc, w: WedgeView, r: Reading): WedgeView {
    if InSector(c, w.arc, r) then w.(active := false) else w
  }

  /**
   * The loop of `startDrag`: every wedge that contains the press is
   * deactivated, and the last of them is the one whose id, arc and midpoint
   * the session records.
   */
  method GrabAll(c: Disc, ws: seq<WedgeView>, r: Reading) returns (out: seq<WedgeView>, k: Option<nat>)
    ensures |out| == |ws| && forall i :: 0 <= i < |ws| ==> out[i] == Grabbed(c, ws[i], r)
    ensures k == LastContaining(c, WedgeArcs(ws), r)
  {
    ghost var arcs := WedgeArcs(ws);
    out := [];
    k := None;
    for i := 0 to |ws|
      invariant |out| == i && forall j :: 0 <= j < i ==> out[j] == Grabbed(c, ws[j], r)
      invariant k == LastContaining(c, arcs[..i], r)
    {
      LastContainingStep(c, arcs, i, r);
      out := out + [Grabbed(c, ws[i], r)];
      if InSector(c, ws[i].arc, r) {
        k := Some(i);
      }
    }
    assert arcs[..|ws|] == arcs;
  }

  /**
   * With distinct ids, the grab followed by `stopDrag` leaves the recorded
   * wedge active again; any other wedge that contained the press (one
   * sharing a boundary with it) stays deactivated.
   */
  lemma ReleaseAfterGrab(c: Disc, ws: seq<WedgeView>, r: Reading)
    requires forall i, j :: 0 <= i < j < |ws| ==> ws[i].id != ws[j].id
    requires LastContaining(c, WedgeArcs(ws), r).Some?
    ensures var k := LastContaining(c, WedgeArcs(ws), r).value;
      var gs := seq(|ws|, i requires 0 <= i < |ws| => Grabbed(c, ws[i], r));
      && !gs[k].active
      && DragIndex(gs, Some(ws[k].id)) == k
      && (forall i :: 0 <= i < |ws| && i != k ==> gs[i].active == (ws[i].active && !InSector(c, ws[i].arc, r)))
  {
    var k := LastContaining(c, WedgeArcs(ws), r).value;
    var gs := seq(|ws|, i requires 0 <= i < |ws| => Grabbed(c, ws[i], r));
    assert InSector(c, WedgeArcs(ws)[k], r);
    var d := DragIndex(gs, Some(ws[k].id));
    assert WedgeIds(gs)[k] == ws[k].id;
  }

  // ---------------------------------------------------------------------------
  // Dragging
  // ---------------------------------------------------------------------------

  /**
   * Whether a move heading `sign` (±1) with the pointer's centre angle
   * `theta` calls back for the wedge at `i`: the leading edge of its
   * floating copy is within 0.1 radians of the midpoint of the neighbour
   * `mod(curr_i + sign, n)`.
   */
  predicate Near(ws: seq<WedgeView>, i: nat, sign: int, theta: real)
    requires i < |ws| && (sign == 1 || sign == -1)
  {
    var f := Floating(ws[i].arc, theta);
    var next := ws[Neighbour(i, sign, |ws|)].arc;
    Abs(AngleBetween(next.t1, next.t2) - LeadingEdge(f, sign)) <= 0.1
  }

  /**
   * With distinct ids the neighbour is the dragged wedge's successor going
   * clockwise and its predecessor going counter-clockwise, and the callback
   * fires exactly when the leading edge is within 0.1 radians of its
   * midpoint on either side.
   */
  lemma NearNeighbour(ws: seq<WedgeView>, k: nat, sign: int, theta: real)
    requires k < |ws| && (sign == 1 || sign == -1)
    requires forall i, j :: 0 <= i < j < |ws| ==> ws[i].id != ws[j].id
    ensures DragIndex(ws, Some(ws[k].id)) == k
    ensures var next := ws[if sign == 1 then Succ(k, |ws|) else Pred(k, |ws|)].arc;
      var edge := LeadingEdge(Floating(ws[k].arc, theta), sign);
      Near(ws, k, sign, theta) <==>
        AngleBetween(next.t1, next.t2) - 0.1 <= edge <= AngleBetween(next.t1, next.t2) + 0.1
  {
    assert WedgeIds(ws)[k] == ws[k].id;
  }

  class UIWheel {
    const disc: Disc
    var wedges: seq<WedgeView>
    var dragging: bool
    var dragLast: Option<Reading>
    var dragId: Option<string>
    var dragOffset: real
    /** `_dragUI`: the floating copy of the grabbed wedge, always drawn selected. */
    var floating: Option<Sector>

    /** A drag has a last pointer position. */
    predicate Valid()
      reads this
    {
      dragging ==> dragLast.Some?
    }

    /** A wheel over the disc `c`, with no wedges until the first `refresh`. */
    constructor(c: Disc)
      ensures disc == c && wedges == []
      ensures !dragging && dragLast.None? && dragId.None? && floating.None?
      ensures Valid()
    {
      disc := c;
      wedges := [];
      dragging := false;
      dragLast := None;
      dragId := None;
      dragOffset := 0.0;
      floating := None;
    }

    /** `refresh(data)`: one fresh view per wedge; the drag session is kept. */
    method Refresh(data: seq<Slice>)
      modifies this
      ensures |wedges| == |data| && forall i :: 0 <= i < |data| ==> wedges[i] == NewWedgeView(data, i)
      ensures dragging == old(dragging) && dragLast == old(dragLast) && dragId == old(dragId)
      ensures dragOffset == old(dragOffset) && floating == old(floating)
    {
      wedges := BuildWedges(data);
    }

    /**
     * `select(pointer)`: every wedge is selected iff it contains the
     * pointer; the result is the last such wedge.
     */
    method Select(r: Reading) returns (h: Option<nat>)
      modifies this
      ensures |wedges| == |old(wedges)|
      ensures forall i :: 0 <= i < |wedges| ==>
        wedges[i] == old(wedges)[i].(selected := InSector(disc, old(wedges)[i].arc, r))
      ensures h == LastContaining(disc, WedgeArcs(old(wedges)), r)
      ensures dragging == old(dragging) && dragLast == old(dragLast) && dragId == old(dragId)
      ensures dragOffset == old(dragOffset) && floating == old(floating)
    {
      wedges, h := MarkAll(disc, wedges, r, SelectedFlag);
    }

    /**
     * `highlight(pointer)`: every wedge is highlighted iff it contains the
     * pointer; the result is the last such wedge.
     */
    method Highlight(r: Reading) returns (h: Option<nat>)
      modifies this
      ensures |wedges| == |old(wedges)|
      ensures forall i :: 0 <= i < |wedges| ==>
        wedges[i] == old(wedges)[i].(highlighted := InSector(disc, old(wedges)[i].arc, r))
      ensures h == LastContaining(disc, WedgeArcs(old(wedges)), r)
      ensures dragging == old(dragging) && dragLast == old(dragLast) && dragId == old(dragId)
      ensures dragOffset == old(dragOffset) && floating == old(floating)
    {
      wedges, h := MarkAll(disc, wedges, r, HighlightedFlag);
    }

    /**
     * `startDrag(p)`: the wheel is dragging from the press. Every wedge
     * under the press is deactivated; the last of them is grabbed: its id
     * is recorded, its arc is copied into the floating wedge, and the grab
     * offset is its midpoint less the pointer angle. With no wedge under
     * the press the earlier id, copy and offset are kept.
     */
    method StartDrag(r: Reading)
      modifies this
      ensures dragging && dragLast == Some(r)
      ensures |wedges| == |old(wedges)| && forall i :: 0 <= i < |wedges| ==> wedges[i] == Grabbed(disc, old(wedges)[i], r)
      ensures var k := LastContaining(disc, WedgeArcs(old(wedges)), r);
        && (k.Some? ==>
              var w := old(wedges)[k.value];
              dragId == Some(w.id) && floating == Some(w.arc) && dragOffset == AngleBetween(w.arc.t1, w.arc.t2) - r.angle)
        && (k.None? ==> dragId == old(dragId) && floating == old(floating) && dragOffset == old(dragOffset))
      ensures Valid()
    {
      dragging := true;
      dragLast := Some(r);
      var ws, k := GrabAll(disc, wedges, r);
      if k.Some? {
        var w := wedges[k.value];
        dragId := Some(w.id);
        floating := Some(w.arc);
        dragOffset := AngleBetween(w.arc.t1, w.arc.t2) - r.angle;
      }
      wedges := ws;
    }

    /**
     * `drag(current, cb)`. Nothing happens unless the wheel is dragging and
     * the pointer angle changed since the last position. The first wedge
     * with the dragged id then floats: its copy is centred on the grab
     * offset plus the pointer angle and is as long as the wedge
     * (`FloatingShape`); the wedge itself is deactivated and the pointer
     * becomes the last position. The callback fires when the copy's leading
     * edge is near the neighbour's midpoint (`Near`). With no wedge of that
     * id nothing changes (the source fails reading the arc of
     * `wedges[-1]`).
     */
    method Drag(r: Reading) returns (signal: Option<WheelSignal>)
      requires Valid()
      modifies this
      ensures var i := DragIndex(old(wedges), old(dragId));
        if !old(dragging) || r.angle == old(dragLast).value.angle || i < 0 then
          && signal.None? && wedges == old(wedges) && floating == old(floating) && dragLast == old(dragLast)
        else
          var sign := Sign(r.angle - old(dragLast).value.angle);
          var theta := old(dragOffset) + r.angle;
          && floating == Some(Floating(old(wedges)[i].arc, theta))
          && wedges == old(wedges)[i := old(wedges)[i].(active := false)]
          && dragLast == Some(r)
          && signal == if Near(old(wedges), i, sign, theta) then Some(Reorder(old(wedges)[i].id, DirOf(sign))) else None
      ensures dragging == old(dragging) && dragId == old(dragId) && dragOffset == old(dragOffset)
      ensures Valid()
    {
      signal := None;
      if !dragging {
        return;
      }
      var last := dragLast.value;
      var currI := DragIndex(wedges, dragId);
      var a := dragOffset + last.angle;
      var b := dragOffset + r.angle;
      var delta := b - a;
      if delta == 0.0 {
        return;
      }
      if currI < 0 {
        return;
      }
      var sign := Sign(delta);
      var dir := DirOf(sign);
      var og := wedges[currI];
      var dragArc := Floating(og.arc, b);
      floating := Some(dragArc);
      var next := wedges[Neighbour(currI, sign, |wedges|)].arc;
      var nextMid := AngleBetween(next.t1, next.t2);
      var comp := if dir == CW then dragArc.t2 else dragArc.t1;
      var near := Abs(nextMid - comp) <= 0.1;
      if near {
        signal := Some(Reorder(dragId.value, dir));
      }
      wedges := wedges[currI := og.(active := false)];
      dragLast := Some(r);
    }

    /**
     * `stopDrag()`: a drag ends and the first wedge with the dragged id is
     * active again (with no such wedge the source fails after ending the
     * drag). The last position, the id and the floating copy are kept.
     * Without a drag nothing changes.
     */
    method StopDrag()
      requires Valid()
      modifies this
      ensures !old(dragging) ==> dragging == old(dragging) && wedges == old(wedges)
      ensures old(dragging) ==>
        var j := DragIndex(old(wedges), old(dragId));
        && !dragging
        && (j >= 0 ==> wedges == old(wedges)[j := old(wedges)[j].(active := true)])
        && (j < 0 ==> wedges == old(wedges))
      ensures dragLast == old(dragLast) && dragId == old(dragId)
      ensures dragOffset == old(dragOffset) && floating == old(floating)
      ensures Valid()
    {
      if !dragging {
        return;
      }
      dragging := false;
      var j := DragIndex(wedges, dragId);  // wedges.find by id
      if j >= 0 {
        wedges := wedges[j := wedges[j].(active := true)];
      }
    }
  }
}
