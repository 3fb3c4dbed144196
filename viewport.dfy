/** The viewport of the canvas (`viewport.js`): zooming about an anchor,
    fitting the diagram to the container, panning with the middle button and
    selecting tables with a marquee dragged over empty canvas. Client points
    are page coordinates; `origin` is the top-left corner of the canvas
    container on the page and `width`/`height` its size, which the page
    measures and the model takes as inputs. */
module Viewport {
  import opened Wrappers
  import opened Schema
  import opened Geometry
  import opened Session

  const MinZoom: real := 0.25
  const MaxZoom: real := 2.0
  /** How far (in client pixels, on either axis) a press on empty canvas must
      move before it becomes a marquee. */
  const DragThreshold: real := 5.0
  const FitPadding: real := 70.0

  // ---------------------------------------------------------------------
  // Zoom
  // ---------------------------------------------------------------------

  /** `setZoom(zoom, anchor)`: the zoom is clamped to [0.25, 2]; with an
      anchor, the pan moves so that the world point under the anchor stays
      under it. */
  function Zoomed(s: State, zoom: real, anchor: Option<Point>, origin: Point): (r: State)
    requires anchor.Some? ==> s.zoom > 0.0
    ensures r.(zoom := s.zoom, panX := s.panX, panY := s.panY) == s
    ensures MinZoom <= r.zoom <= MaxZoom
    ensures MinZoom <= zoom <= MaxZoom ==> r.zoom == zoom
    ensures anchor.None? ==> r.panX == s.panX && r.panY == s.panY
  {
    var z := Clamp(zoom, MinZoom, MaxZoom);
    match anchor
    case None => s.(zoom := z)
    case Some(a) =>
      s.(zoom := z, panX := AnchoredPan(s.panX, s.zoom, a.x - origin.x, z),
                    panY := AnchoredPan(s.panY, s.zoom, a.y - origin.y, z))
  }

  /** The pan along one axis that keeps the world coordinate under the
      anchor `a` (relative to the container) when `zoom` becomes `z`. */
  function AnchoredPan(pan: real, zoom: real, a: real, z: real): real
    requires zoom > 0.0
  {
    var w := (a - pan) / zoom;
    a - w * z
  }

  /** Zooming about an anchor keeps the world point under it where it was. */
  lemma ZoomKeepsAnchor(s: State, zoom: real, a: Point, origin: Point)
    requires s.zoom > 0.0
    ensures var r := Zoomed(s, zoom, Some(a), origin);
            r.zoom > 0.0
            && (a.x - origin.x - r.panX) / r.zoom == (a.x - origin.x - s.panX) / s.zoom
            && (a.y - origin.y - r.panY) / r.zoom == (a.y - origin.y - s.panY) / s.zoom
  {
    var r := Zoomed(s, zoom, Some(a), origin);
    var z := r.zoom;
    var wx, wy := (a.x - origin.x - s.panX) / s.zoom, (a.y - origin.y - s.panY) / s.zoom;
    assert a.x - origin.x - r.panX == wx * z;
    assert a.y - origin.y - r.panY == wy * z;
    CancelFactor(wx, z);
    CancelFactor(wy, z);
  }

  lemma CancelFactor(w: real, z: real)
    requires z > 0.0
    ensures (w * z) / z == w
  {
  }

  method SetZoom(ctx: Context, zoom: real, anchor: Option<Point>, origin: Point)
    requires anchor.Some? ==> ctx.zoom > 0.0
    modifies ctx
    ensures ctx.Snapshot() == Zoomed(old(ctx.Snapshot()), zoom, anchor, origin)
  {
    var z := Clamp(zoom, MinZoom, MaxZoom);
    if anchor.Some? {
      var ax, ay := anchor.value.x - origin.x, anchor.value.y - origin.y;
      ctx.SetView(z, AnchoredPan(ctx.panX, ctx.zoom, ax, z), AnchoredPan(ctx.panY, ctx.zoom, ay, z));
    } else {
      ctx.zoom := z;
    }
  }

  /** The wheel handler: one notch zooms by 0.1, out when scrolling down,
      about the pointer. */
  function Wheeled(s: State, deltaY: real, client: Point, origin: Point): (r: State)
    requires s.zoom > 0.0
    ensures r == Zoomed(s, s.zoom + (if deltaY > 0.0 then -0.1 else 0.1), Some(client), origin)
    ensures MinZoom <= s.zoom <= MaxZoom ==>
              (deltaY > 0.0 ==> r.zoom <= s.zoom) && (deltaY <= 0.0 ==> r.zoom >= s.zoom)
  {
    Zoomed(s, s.zoom + (if deltaY > 0.0 then -0.1 else 0.1), Some(client), origin)
  }

  method OnWheel(ctx: Context, deltaY: real, client: Point, origin: Point)
    requires ctx.zoom > 0.0
    modifies ctx
    ensures ctx.Snapshot() == Wheeled(old(ctx.Snapshot()), deltaY, client, origin)
  {
    var delta := if deltaY > 0.0 then -0.1 else 0.1;
    SetZoom(ctx, ctx.zoom + delta, Some(client), origin);
  }

  // ---------------------------------------------------------------------
  // Fit to screen
  // ---------------------------------------------------------------------

  /** The extent of the drawn tables: the least and greatest x and y over all
      table boxes. */
  datatype Box = Box(left: real, top: real, right: real, bottom: real)

  function TableBox(t: Table): Box {
    Box(t.x, t.y, t.x + TableDims(t).width, t.y + TableDims(t).height)
  }

  function Hull(a: Box, b: Box): Box {
    Box(Min(a.left, b.left), Min(a.top, b.top), Max(a.right, b.right), Max(a.bottom, b.bottom))
  }

  /** The box that holds every table's box, each of its edges being some
      table's edge. */
  function ContentBox(ts: seq<Table>): Box
    requires |ts| > 0
  {
    if |ts| == 1 then TableBox(ts[0])
    else Hull(ContentBox(ts[..|ts| - 1]), TableBox(ts[|ts| - 1]))
  }

  /** The content box holds every table's box, and each of its edges is some
      table's edge. */
  lemma {:induction false} ContentBoxTight(ts: seq<Table>)
    requires |ts| > 0
    ensures var b := ContentBox(ts);
            (forall k :: 0 <= k < |ts| ==>
               b.left <= ts[k].x && b.top <= ts[k].y
               && TableBox(ts[k]).right <= b.right && TableBox(ts[k]).bottom <= b.bottom)
            && (exists k :: 0 <= k < |ts| && b.left == ts[k].x)
            && (exists k :: 0 <= k < |ts| && b.top == ts[k].y)
            && (exists k :: 0 <= k < |ts| && b.right == TableBox(ts[k]).right)
            && (exists k :: 0 <= k < |ts| && b.bottom == TableBox(ts[k]).bottom)
  {
    if |ts| > 1 {
      var front := ts[..|ts| - 1];
      ContentBoxTight(front);
      assert forall k :: 0 <= k < |front| ==> front[k] == ts[k];
    }
  }

  /** The min/max loop of `fitToScreen`. */
  method MeasureContent(ts: seq<Table>) returns (b: Box)
    requires |ts| > 0
    ensures b == ContentBox(ts)
  {
    b := TableBox(ts[0]);
    var i := 1;
    assert ts[..1] == [ts[0]];
    while i < |ts|
      invariant 1 <= i <= |ts|
      invariant b == ContentBox(ts[..i])
    {
      assert ts[..i + 1][..i] == ts[..i];
      b := Hull(b, TableBox(ts[i]));
      i := i + 1;
    }
    assert ts[..i] == ts;
  }

  /** The content size `fitToScreen` divides by, never below 1. */
  function ContentSize(b: Box): (d: Dims)
    ensures d.width >= 1.0 && d.height >= 1.0
    ensures b.right - b.left >= 1.0 ==> d.width == b.right - b.left
    ensures b.bottom - b.top >= 1.0 ==> d.height == b.bottom - b.top
  {
    Dims(Max(1.0, b.right - b.left), Max(1.0, b.bottom - b.top))
  }

  /** The zoom that fits content of size `d` into the container less the
      padding, never above 1. */
  function FitZoom(d: Dims, width: real, height: real): (z: real)
    requires d.width >= 1.0 && d.height >= 1.0
    ensures MinZoom <= z <= 1.0
  {
    var scaleX := (width - FitPadding * 2.0) / d.width;
    var scaleY := (height - FitPadding * 2.0) / d.height;
    Clamp(Min(Min(scaleX, scaleY), 1.0), MinZoom, MaxZoom)
  }

  /** Zoom and pan that show content `b` centred in the container. */
  datatype View = View(zoom: real, panX: real, panY: real)

  function FitView(b: Box, width: real, height: real): (v: View)
    ensures MinZoom <= v.zoom <= 1.0
  {
    var d := ContentSize(b);
    var z := FitZoom(d, width, height);
    View(z, (width - d.width * z) / 2.0 - b.left * z, (height - d.height * z) / 2.0 - b.top * z)
  }

  /** The centre of the content (as measured) is drawn at the centre of the
      container. */
  lemma FitViewCentres(b: Box, width: real, height: real)
    ensures var v := FitView(b, width, height);
            var d := ContentSize(b);
            v.panX + (b.left + d.width / 2.0) * v.zoom == width / 2.0
            && v.panY + (b.top + d.height / 2.0) * v.zoom == height / 2.0
  {
    var v := FitView(b, width, height);
    var d := ContentSize(b);
    CentredOnAxis(width, d.width, b.left, v.zoom);
    CentredOnAxis(height, d.height, b.top, v.zoom);
  }

  lemma CentredOnAxis(extent: real, size: real, low: real, z: real)
    ensures (extent - size * z) / 2.0 - low * z + (low + size / 2.0) * z == extent / 2.0
  {
    assert (low + size / 2.0) * z == low * z + (size * z) / 2.0;
  }

  /** `fitToScreen`: with tables on the canvas, the zoom fits them and the
      pan centres them in the container. */
  function Fitted(s: State, width: real, height: real): (r: State)
    ensures |s.tables| == 0 ==> r == s
    ensures r.(zoom := s.zoom, panX := s.panX, panY := s.panY) == s
    ensures |s.tables| > 0 ==> MinZoom <= r.zoom <= 1.0
  {
    if |s.tables| == 0 then s
    else
      var v := FitView(ContentBox(s.tables), width, height);
      s.(zoom := v.zoom, panX := v.panX, panY := v.panY)
  }

  method FitToScreen(ctx: Context, width: real, height: real)
    modifies ctx
    ensures ctx.Snapshot() == Fitted(old(ctx.Snapshot()), width, height)
  {
    if |ctx.tables| == 0 {
      return;
    }
    var b := MeasureContent(ctx.tables);
    var v := FitView(b, width, height);
    ctx.SetView(v.zoom, v.panX, v.panY);
  }

  // ---------------------------------------------------------------------
  // Mouse: pan and marquee
  // ---------------------------------------------------------------------

  /** `(buttons & 4) === 4`: the middle button is held. */
  predicate MiddleHeld(buttons: nat) {
    (buttons / 4) % 2 == 1
  }

  /** `mousedown` anywhere on the page. `inside` says whether the target is in
      the canvas container, `interactive` whether it is a card, a control or a
      panel. A table drag or a connection draft in progress takes precedence;
      the middle button starts a pan; the main button on empty canvas starts a
      possible marquee. */
  function MouseDown(s: State, button: int, buttons: nat, inside: bool, interactive: bool, client: Point): (r: State)
    ensures s.isDraggingTable.Some? || s.connectionDraft.Some? || !inside ==> r == s
    ensures s.isDraggingTable.None? && s.connectionDraft.None? && inside ==>
              if button == 1 || MiddleHeld(buttons) then r == s.(isPanning := true, panStart := client)
              else if button == 0 && !interactive then r == s.(marqueeStart := Some(client), isMarquee := false)
              else r == s
  {
    if s.isDraggingTable.Some? || s.connectionDraft.Some? then s
    else if !inside then s
    else if button == 1 || MiddleHeld(buttons) then s.(isPanning := true, panStart := client)
    else if !(button == 0 && !interactive) then s
    else s.(marqueeStart := Some(client), isMarquee := false)
  }

  method OnMouseDown(ctx: Context, button: int, buttons: nat, inside: bool, interactive: bool, client: Point)
    modifies ctx
    ensures ctx.Snapshot() == MouseDown(old(ctx.Snapshot()), button, buttons, inside, interactive, client)
  {
    if ctx.isDraggingTable.Some? || ctx.connectionDraft.Some? {
      return;
    }
    if !inside {
      return;
    }
    if button == 1 || MiddleHeld(buttons) {
      ctx.StartPan(client);
    } else if button == 0 && !interactive {
      ctx.StartMarquee(client);
    }
  }

  /** `mousemove`: a pan moves the view by the pointer's motion since the last
      event; a pending marquee becomes one once the pointer has moved more
      than the threshold from the press on either axis. */
  function MouseMove(s: State, client: Point): (r: State)
  {
    if s.isPanning then
      s.(panX := s.panX + (client.x - s.panStart.x), panY := s.panY + (client.y - s.panStart.y), panStart := client)
    else if s.marqueeStart.None? then s
    else
      var m := s.marqueeStart.value;
      if !s.isMarquee && (Abs(client.x - m.x) > DragThreshold || Abs(client.y - m.y) > DragThreshold) then
        s.(isMarquee := true)
      else s
  }

  /** A pan follows the pointer: after any two moves the view has moved by
      the pointer's total motion since the press. */
  lemma PanFollowsPointer(s: State, a: Point, b: Point)
    requires s.isPanning
    ensures var r := MouseMove(MouseMove(s, a), b);
            r.panX == s.panX + (b.x - s.panStart.x) && r.panY == s.panY + (b.y - s.panStart.y)
            && r.panStart == b && r.(panX := s.panX, panY := s.panY, panStart := s.panStart) == s
  {
  }

  /** A marquee starts exactly when a pending press moves past the threshold,
      and nothing else changes. */
  lemma MarqueeStartsPastThreshold(s: State, client: Point)
    requires !s.isPanning && s.marqueeStart.Some?
    ensures var r := MouseMove(s, client);
            var m := s.marqueeStart.value;
            r == s.(isMarquee := r.isMarquee)
            && (r.isMarquee <==>
                  s.isMarquee || Abs(client.x - m.x) > DragThreshold || Abs(client.y - m.y) > DragThreshold)
  {
  }

  method OnMouseMove(ctx: Context, client: Point)
    modifies ctx
    ensures ctx.Snapshot() == MouseMove(old(ctx.Snapshot()), client)
  {
    if ctx.isPanning {
      var dx := client.x - ctx.panStart.x;
      var dy := client.y - ctx.panStart.y;
      ctx.SetPan(ctx.panX + dx, ctx.panY + dy, client);
      return;
    }
    if ctx.marqueeStart.None? {
      return;
    }
    var m := ctx.marqueeStart.value;
    var dx := client.x - m.x;
    var dy := client.y - m.y;
    if !ctx.isMarquee && (Abs(dx) > DragThreshold || Abs(dy) > DragThreshold) {
      ctx.isMarquee := true;
    }
  }

  /** The marquee's rectangle in world coordinates, from the two client
      corners, whichever way it was dragged. */
  function WorldBox(s: State, a: Point, b: Point, origin: Point): (w: Box)
    requires s.zoom > 0.0
    ensures w.left <= w.right && w.top <= w.bottom
  {
    var sx, sy := a.x - origin.x, a.y - origin.y;
    var cx, cy := b.x - origin.x, b.y - origin.y;
    DivideKeepsOrder(Min(sx, cx) - s.panX, Max(sx, cx) - s.panX, s.zoom);
    DivideKeepsOrder(Min(sy, cy) - s.panY, Max(sy, cy) - s.panY, s.zoom);
    Box((Min(sx, cx) - s.panX) / s.zoom, (Min(sy, cy) - s.panY) / s.zoom,
        (Max(sx, cx) - s.panX) / s.zoom, (Max(sy, cy) - s.panY) / s.zoom)
  }

  lemma DivideKeepsOrder(u: real, v: real, z: real)
    requires u <= v && z > 0.0
    ensures u / z <= v / z
  {
    assert v / z - u / z == (v - u) / z;
  }

  /** The world rectangle does not depend on the drag's direction. */
  lemma WorldBoxSymmetric(s: State, a: Point, b: Point, origin: Point)
    requires s.zoom > 0.0
    ensures WorldBox(s, a, b, origin) == WorldBox(s, b, a, origin)
  {
    var sx, sy := a.x - origin.x, a.y - origin.y;
    var cx, cy := b.x - origin.x, b.y - origin.y;
    assert Min(sx, cx) == Min(cx, sx) && Max(sx, cx) == Max(cx, sx);
    assert Min(sy, cy) == Min(cy, sy) && Max(sy, cy) == Max(cy, sy);
  }

  /** A table is hit when its unpadded box overlaps the rectangle with
      positive area. */
  predicate Hit(t: Table, w: Box) {
    t.x < w.right && TableBox(t).right > w.left && t.y < w.bottom && TableBox(t).bottom > w.top
  }

  /** The names of the hit tables, in table order. */
  function Hits(ts: seq<Table>, w: Box): (r: seq<string>)
    ensures |r| <= |ts|
    ensures forall n :: n in r <==> exists k :: 0 <= k < |ts| && ts[k].name == n && Hit(ts[k], w)
  {
    if |ts| == 0 then []
    else
      var front := Hits(ts[..|ts| - 1], w);
      var last := ts[|ts| - 1];
      assert forall k :: 0 <= k < |ts| - 1 ==> ts[..|ts| - 1][k] == ts[k];
      if Hit(last, w) then front + [last.name] else front
  }

  /** The loop that collects the hit tables. */
  method CollectHits(ts: seq<Table>, w: Box) returns (selected: seq<string>)
    ensures selected == Hits(ts, w)
  {
    selected := [];
    var i := 0;
    while i < |ts|
      invariant 0 <= i <= |ts|
      invariant selected == Hits(ts[..i], w)
    {
      assert ts[..i + 1][..i] == ts[..i];
      if Hit(ts[i], w) {
        selected := selected + [ts[i].name];
      }
      i := i + 1;
    }
    assert ts[..i] == ts;
  }

  predicate NoDuplicates(xs: seq<string>) {
    forall i, j :: 0 <= i < j < |xs| ==> xs[i] != xs[j]
  }

  /** The modifier case: each hit not yet selected is appended, in order. */
  function AddMissing(sel: seq<string>, hits: seq<string>): (r: seq<string>)
    ensures |sel| <= |r| && r[..|sel|] == sel
    ensures forall n :: n in r <==> n in sel || n in hits
    ensures NoDuplicates(sel) ==> NoDuplicates(r)
  {
    if |hits| == 0 then sel
    else
      var a := AddMissing(sel, hits[..|hits| - 1]);
      var n := hits[|hits| - 1];
      assert forall m :: m in hits <==> m in hits[..|hits| - 1] || m == n;
      if n in a then a else a + [n]
  }

  method AddToSelection(sel: seq<string>, hits: seq<string>) returns (r: seq<string>)
    ensures r == AddMissing(sel, hits)
  {
    r := sel;
    var i := 0;
    while i < |hits|
      invariant 0 <= i <= |hits|
      invariant r == AddMissing(sel, hits[..i])
    {
      assert hits[..i + 1][..i] == hits[..i];
      if hits[i] !in r {
        r := r + [hits[i]];
      }
      i := i + 1;
    }
    assert hits[..i] == hits;
  }

  /** The selection a finished marquee leaves: unchanged when it hits
      nothing, otherwise the hits, or with the modifier the hits added. */
  function MarqueeSelection(sel: seq<string>, hits: seq<string>, modifier: bool): seq<string> {
    if |hits| == 0 then sel else if modifier then AddMissing(sel, hits) else hits
  }

  /** `mouseup` anywhere: a pan ends; a marquee selects what it covers; a
      press on empty canvas that never became a marquee clears the
      selection. */
  function MouseUp(s: State, client: Point, origin: Point, modifier: bool): (r: State)
    requires s.marqueeStart.Some? && s.isMarquee ==> s.zoom > 0.0
  {
    var s1 := s.(isPanning := false);
    match s1.marqueeStart
    case None => s1
    case Some(m) =>
      var sel :=
        if s1.isMarquee then MarqueeSelection(s1.selectedTables, Hits(s1.tables, WorldBox(s1, m, client, origin)), modifier)
        else [];
      s1.(selectedTables := sel, marqueeStart := None, isMarquee := false)
  }

  /** What a release does: the pan ends and so does any marquee, and only
      the selection may change besides. */
  lemma MouseUpEnds(s: State, client: Point, origin: Point, modifier: bool)
    requires s.marqueeStart.Some? && s.isMarquee ==> s.zoom > 0.0
    ensures var r := MouseUp(s, client, origin, modifier);
            r.(isPanning := s.isPanning, marqueeStart := s.marqueeStart, isMarquee := s.isMarquee,
               selectedTables := s.selectedTables) == s
            && !r.isPanning && r.marqueeStart.None?
            && (s.marqueeStart.None? ==> r == s.(isPanning := false))
            && (s.marqueeStart.Some? ==> !r.isMarquee)
  {
  }

  /** A short click (a press that never became a marquee) clears the
      selection. */
  lemma ShortClickClears(s: State, client: Point, origin: Point, modifier: bool)
    requires s.marqueeStart.Some? && !s.isMarquee
    ensures MouseUp(s, client, origin, modifier).selectedTables == []
  {
  }

  /** A marquee without hits keeps the selection; one with hits replaces it
      by them or, with the modifier, adds the missing ones after it without
      repeating a name. */
  lemma MarqueeSelects(s: State, client: Point, origin: Point, modifier: bool)
    requires s.marqueeStart.Some? && s.isMarquee && s.zoom > 0.0
    ensures var r := MouseUp(s, client, origin, modifier);
            var hits := Hits(s.tables, WorldBox(s, s.marqueeStart.value, client, origin));
            (|hits| == 0 ==> r.selectedTables == s.selectedTables)
            && (|hits| > 0 && !modifier ==> r.selectedTables == hits)
            && (|hits| > 0 && modifier ==>
                  r.selectedTables[..|s.selectedTables|] == s.selectedTables
                  && (forall n :: n in r.selectedTables <==> n in s.selectedTables || n in hits)
                  && (NoDuplicates(s.selectedTables) ==> NoDuplicates(r.selectedTables)))
  {
    var hits := Hits(s.tables, WorldBox(s, s.marqueeStart.value, client, origin));
    var s1 := s.(isPanning := false);
    assert WorldBox(s1, s.marqueeStart.value, client, origin) == WorldBox(s, s.marqueeStart.value, client, origin);
    assert MouseUp(s, client, origin, modifier).selectedTables == MarqueeSelection(s.selectedTables, hits, modifier);
  }

  method OnMouseUp(ctx: Context, client: Point, origin: Point, modifier: bool)
    requires ctx.marqueeStart.Some? && ctx.isMarquee ==> ctx.zoom > 0.0
    modifies ctx
    ensures ctx.Snapshot() == MouseUp(old(ctx.Snapshot()), client, origin, modifier)
  {
    if ctx.isPanning {
      ctx.isPanning := false;
    }
    if ctx.marqueeStart.None? {
      return;
    }
    var m := ctx.marqueeStart.value;
    var w := if ctx.isMarquee then Some(WorldBox(ctx.Snapshot(), m, client, origin)) else None;
    var sel := ReleasedSelection(ctx.tables, ctx.selectedTables, w, modifier);
    ctx.EndMarquee(sel);
  }

  /** The selection update of `mouseup`: with a marquee rectangle the hits
      are gathered and applied, without one (a short click) the selection is
      cleared. */
  method ReleasedSelection(ts: seq<Table>, sel: seq<string>, w: Option<Box>, modifier: bool) returns (r: seq<string>)
    ensures w.Some? ==> r == MarqueeSelection(sel, Hits(ts, w.value), modifier)
    ensures w.None? ==> r == []
  {
    r := sel;
    if w.Some? {
      var selected := CollectHits(ts, w.value);
      if |selected| > 0 {
        if modifier {
          r := AddToSelection(sel, selected);
        } else {
          r := selected;
        }
      }
    } else if |sel| > 0 {
      r := [];
    }
  }
}
