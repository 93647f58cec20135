/** The state of one diagram panel and the transitions its effect and event
    handlers perform, as values. `DiagramComponent.Diagram` holds the same state
    in fields and is specified by these functions.

    The scale is kept in tenths (10 is 1.0), so the zoom steps of 0.2 and the
    bounds 0.5 and 3 are exact. Pointer coordinates and the pan offset are
    whole pixels. */
module Viewport {
  import opened Wrappers
  import opened ChartCleaner

  /** Scale bounds and steps, in tenths. */
  const MinScale: int := 5
  const MaxScale: int := 30
  const DefaultScale: int := 10
  const ZoomStep: int := 2

  /** The message shown when the renderer rejects a definition. */
  const RenderFailureMessage: string := "Failed to render diagram. Syntax might be invalid."

  datatype Point = Point(x: int, y: int)
  {
    function Plus(other: Point): Point { Point(x + other.x, y + other.y) }
    function Minus(other: Point): Point { Point(x - other.x, y - other.y) }
  }

  const Origin: Point := Point(0, 0)

  /** What the external renderer does with a cleaned definition. */
  datatype RenderOutcome = Rendered(svg: string) | RenderFailed

  /** The component's state: the `chart` property it was last given, the error
      message, the markup in the container, `scale`, `isPanning`, `position`
      and the pan anchor kept in `startPosRef`. */
  datatype Panel = Panel(
    chart: string,
    error: Option<string>,
    markup: Option<string>,
    scale: int,
    panning: bool,
    position: Point,
    anchor: Point)

  /** What the component displays: the error view (message and the raw,
      uncleaned definition) or the canvas with its transform. */
  datatype Screen =
    | ErrorView(message: string, raw: string)
    | Canvas(markup: Option<string>, offset: Point, scale: int)

  /** The scale stays within [0.5, 3], and no markup is held while the error
      view is shown: the element that held it is not mounted then. */
  predicate Valid(p: Panel)
  {
    MinScale <= p.scale <= MaxScale && (p.error.Some? ==> p.markup.None?)
  }

  /** The state right after mounting, before the render effect has run. */
  function Mounted(chart: string): (p: Panel)
    ensures Valid(p) && !p.panning && p.error.None? && p.markup.None?
    ensures p.chart == chart && p.scale == DefaultScale && p.position == Origin && p.anchor == Origin
  {
    Panel(chart, None, None, DefaultScale, false, Origin, Origin)
  }

  /** The error view when an error is set, otherwise the canvas with the
      markup under the current pan and zoom. */
  function View(p: Panel): Screen
  {
    if p.error.Some? then ErrorView(p.error.value, p.chart)
    else Canvas(p.markup, p.position, p.scale)
  }

  // ---------------------------------------------------------------------------
  // Zoom buttons and reset.

  function Min(a: int, b: int): int { if a <= b then a else b }
  function Max(a: int, b: int): int { if a >= b then a else b }

  /** Zoom in: one step of 0.2 up, capped at 3. Never above 3, never below the old
      scale when that was at most 3, and keeps a scale of at least 0.5. */
  function ZoomIn(s: int): (r: int)
    ensures r <= MaxScale
    ensures s <= MaxScale ==> s <= r
    ensures MinScale <= s ==> MinScale <= r
  {
    Min(s + ZoomStep, MaxScale)
  }

  /** Zoom out: one step of 0.2 down, floored at 0.5. Never below 0.5, never above the old
      scale when that was at least 0.5, and keeps a scale of at most 3. */
  function ZoomOut(s: int): (r: int)
    ensures MinScale <= r
    ensures MinScale <= s ==> r <= s
    ensures s <= MaxScale ==> r <= MaxScale
  {
    Max(s - ZoomStep, MinScale)
  }

  function ZoomInTimes(s: int, n: nat): int
    decreases n
  {
    if n == 0 then s else ZoomInTimes(ZoomIn(s), n - 1)
  }

  function ZoomOutTimes(s: int, n: nat): int
    decreases n
  {
    if n == 0 then s else ZoomOutTimes(ZoomOut(s), n - 1)
  }

  /** `n` clicks of zoom-in add `n` steps, stopping exactly at 3. */
  lemma {:induction false} ZoomInTimesSaturates(s: int, n: nat)
    requires s <= MaxScale
    ensures ZoomInTimes(s, n) == Min(s + n * ZoomStep, MaxScale)
    decreases n
  {
    if n > 0 {
      ZoomInTimesSaturates(ZoomIn(s), n - 1);
    }
  }

  /** `n` clicks of zoom-out remove `n` steps, stopping exactly at 0.5. */
  lemma {:induction false} ZoomOutTimesSaturates(s: int, n: nat)
    requires MinScale <= s
    ensures ZoomOutTimes(s, n) == Max(s - n * ZoomStep, MinScale)
    decreases n
  {
    if n > 0 {
      ZoomOutTimesSaturates(ZoomOut(s), n - 1);
    }
  }

  /** From the default scale, ten or more clicks of zoom-in reach exactly 3 and
      three or more clicks of zoom-out reach exactly 0.5. */
  lemma ZoomFromDefault(n: nat)
    ensures n >= 10 ==> ZoomInTimes(DefaultScale, n) == MaxScale
    ensures n >= 3 ==> ZoomOutTimes(DefaultScale, n) == MinScale
    ensures MinScale <= ZoomOutTimes(DefaultScale, n) <= ZoomInTimes(DefaultScale, n) <= MaxScale
  {
    ZoomInTimesSaturates(DefaultScale, n);
    ZoomOutTimesSaturates(DefaultScale, n);
  }

  /** The zoom-in button: only the scale changes, and it stays in bounds. */
  function ZoomInPanel(p: Panel): (r: Panel)
    ensures Valid(p) ==> Valid(r)
    ensures r.(scale := p.scale) == p
  {
    p.(scale := ZoomIn(p.scale))
  }

  /** The zoom-out button: only the scale changes, and it stays in bounds. */
  function ZoomOutPanel(p: Panel): (r: Panel)
    ensures Valid(p) ==> Valid(r)
    ensures r.(scale := p.scale) == p
  {
    p.(scale := ZoomOut(p.scale))
  }

  /** The reset button: scale 1 and no offset. */
  function Reset(p: Panel): (r: Panel)
    ensures Valid(p) ==> Valid(r)
  {
    p.(scale := DefaultScale, position := Origin)
  }

  /** Reset gives scale 1 and no offset and changes nothing else. */
  lemma ResetRestoresDefaults(p: Panel)
    ensures Reset(p).scale == DefaultScale && Reset(p).position == Origin
    ensures Reset(p).(scale := p.scale, position := p.position) == p
    ensures MinScale <= Reset(p).scale <= MaxScale
  {
  }

  /** Reset undoes any zooming and any dragging. */
  lemma {:induction false} ResetUndoesZoomAndDrag(p: Panel, moves: seq<Point>)
    ensures Reset(ZoomInPanel(p)) == Reset(p) && Reset(ZoomOutPanel(p)) == Reset(p)
    ensures Reset(Drag(p, moves)) == Reset(p)
    decreases |moves|
  {
    if moves != [] {
      ResetUndoesZoomAndDrag(MouseMove(p, moves[0]), moves[1..]);
    }
  }

  // ---------------------------------------------------------------------------
  // Panning with the mouse.

  /** Mouse-down at `at`: start panning, anchored so that the current offset
      corresponds to the pointer being at `at`. */
  function MouseDown(p: Panel, at: Point): (r: Panel)
    ensures r.panning && r.position == p.position
    ensures MouseMove(r, at) == r
  {
    p.(panning := true, anchor := at.Minus(p.position))
  }

  /** Mouse-move to `at`: while panning the offset follows the pointer from the
      anchor; otherwise nothing happens. */
  function MouseMove(p: Panel, at: Point): Panel
  {
    if !p.panning then p else p.(position := at.Minus(p.anchor))
  }

  /** Mouse-up, and mouse-leave, which runs the same handler. */
  function MouseUp(p: Panel): (r: Panel)
    ensures !r.panning && r.position == p.position && r.scale == p.scale
    ensures forall at :: MouseMove(r, at) == r
  {
    p.(panning := false)
  }

  /** A sequence of mouse-move events. Only the offset can change. */
  function Drag(p: Panel, moves: seq<Point>): (r: Panel)
    ensures r == p.(position := r.position)
    decreases |moves|
  {
    if moves == [] then p else Drag(MouseMove(p, moves[0]), moves[1..])
  }

  /** While panning, a drag leaves the offset where the last pointer position
      puts it relative to the anchor, and changes nothing else. */
  lemma {:induction false} DragFollowsPointer(p: Panel, moves: seq<Point>)
    requires p.panning && moves != []
    ensures Drag(p, moves) == p.(position := moves[|moves| - 1].Minus(p.anchor))
    decreases |moves|
  {
    var next := MouseMove(p, moves[0]);
    if |moves| > 1 {
      DragFollowsPointer(next, moves[1..]);
      assert moves[1..][|moves[1..]| - 1] == moves[|moves| - 1];
    }
  }

  /** Without a preceding mouse-down, moving the mouse changes nothing. */
  lemma {:induction false} DragWithoutPanning(p: Panel, moves: seq<Point>)
    requires !p.panning
    ensures Drag(p, moves) == p
    decreases |moves|
  {
    if moves != [] {
      DragWithoutPanning(p, moves[1..]);
    }
  }

  /** Pressing at `from` and dragging to `to` moves the diagram by `to - from`. */
  lemma PanMovesByPointerDelta(p: Panel, from: Point, moves: seq<Point>)
    requires moves != []
    ensures var to := moves[|moves| - 1];
            Drag(MouseDown(p, from), moves).position == p.position.Plus(to.Minus(from))
  {
    DragFollowsPointer(MouseDown(p, from), moves);
  }

  /** Dragging back to where the button was pressed restores the offset. */
  lemma PanRoundTrip(p: Panel, from: Point, moves: seq<Point>)
    requires moves != [] && moves[|moves| - 1] == from
    ensures Drag(MouseDown(p, from), moves).position == p.position
  {
    PanMovesByPointerDelta(p, from, moves);
  }

  /** Mouse-up leaves the offset where the drag put it, and further moves are
      ignored until the next mouse-down. */
  lemma ReleaseFreezesOffset(p: Panel, moves: seq<Point>)
    ensures Drag(MouseUp(p), moves) == MouseUp(p)
    ensures MouseUp(p).position == p.position && MouseUp(p).scale == p.scale
  {
    DragWithoutPanning(MouseUp(p), moves);
  }

  // ---------------------------------------------------------------------------
  // The render effect.

  /** The render effect for a new `chart`, as intended: the error is cleared,
      an empty cleaned definition is not rendered, a rendered definition
      replaces the markup and resets the view, a rejected one shows the fixed
      message. The renderer receives the cleaned definition.

      Showing the error view unmounts the container, and a container mounted
      again is empty: a failure drops the markup, and leaving the error view
      starts with none. */
  function Render(p: Panel, chart: string, renderer: string -> RenderOutcome): (r: Panel)
    ensures Valid(p) ==> Valid(r)
    ensures r.chart == chart && r.panning == p.panning && r.anchor == p.anchor
    ensures r.error.None? <==> Clean(chart) == [] || renderer(Clean(chart)).Rendered?
    ensures r.error.Some? ==> r.error == Some(RenderFailureMessage) && r.markup.None?
    ensures p.error.Some? && r.markup.Some? ==> renderer(Clean(chart)).Rendered?
  {
    var cleared := p.(chart := chart, error := None, markup := if p.error.Some? then None else p.markup);
    var clean := Clean(chart);
    if clean == [] then cleared
    else match renderer(clean)
      case Rendered(svg) => cleared.(markup := Some(svg), scale := DefaultScale, position := Origin)
      case RenderFailed => cleared.(error := Some(RenderFailureMessage), markup := None)
  }

  /** The render effect as the component has it: while the error view is
      shown the container element is not mounted, the effect returns at once
      and the state keeps its error. */
  function RenderAsWritten(p: Panel, chart: string, renderer: string -> RenderOutcome): (r: Panel)
    ensures r.chart == chart
    ensures p.error.Some? ==> r.error == p.error && r.markup == p.markup
  {
    if p.error.Some? then p.(chart := chart) else Render(p, chart, renderer)
  }

  /** An empty cleaned definition is not rendered: the error is cleared, the
      canvas keeps its markup, zoom and pan, and a canvas coming back from the
      error view is empty. */
  lemma RenderEmptyChart(p: Panel, chart: string, renderer: string -> RenderOutcome)
    requires Clean(chart) == []
    ensures p.error.None? ==> Render(p, chart, renderer) == p.(chart := chart)
    ensures p.error.Some? ==> Render(p, chart, renderer) == p.(chart := chart, error := None, markup := None)
  {
  }

  /** A definition the renderer accepts replaces the markup and resets zoom
      and pan, whatever the state was before, and the canvas is shown. */
  lemma RenderSuccessResetsView(p: Panel, chart: string, renderer: string -> RenderOutcome, svg: string)
    requires Clean(chart) != [] && renderer(Clean(chart)) == Rendered(svg)
    ensures var q := Render(p, chart, renderer);
            q.markup == Some(svg) && q.scale == DefaultScale && q.position == Origin
            && View(q) == Canvas(Some(svg), Origin, DefaultScale)
  {
  }

  /** A definition the renderer rejects shows the fixed message next to the
      raw definition, not the cleaned one, and the earlier markup is gone. */
  lemma RenderFailureShowsRawChart(p: Panel, chart: string, renderer: string -> RenderOutcome)
    requires Clean(chart) != [] && renderer(Clean(chart)) == RenderFailed
    ensures View(Render(p, chart, renderer)) == ErrorView(RenderFailureMessage, chart)
    ensures Render(p, chart, renderer).markup.None?
  {
  }

  /** Every transition keeps the scale within its bounds. */
  lemma TransitionsKeepValid(p: Panel, at: Point, chart: string, renderer: string -> RenderOutcome)
    requires Valid(p)
    ensures Valid(ZoomInPanel(p)) && Valid(ZoomOutPanel(p)) && Valid(Reset(p))
    ensures Valid(MouseDown(p, at)) && Valid(MouseMove(p, at)) && Valid(MouseUp(p))
    ensures Valid(Render(p, chart, renderer)) && Valid(RenderAsWritten(p, chart, renderer))
  {
  }

  // ---------------------------------------------------------------------------
  // The stuck error view.

  /** As written, once the error view is shown, no later definition is
      rendered: the error stays, whatever the renderer would say. */
  lemma AsWrittenErrorIsPermanent(p: Panel, chart: string, renderer: string -> RenderOutcome)
    requires p.error.Some?
    ensures View(RenderAsWritten(p, chart, renderer)) == ErrorView(p.error.value, chart)
  {
  }

  /** A concrete run: a rejected definition followed by a valid one. As written
      the error view stays; with the guard removed the new diagram is shown. */
  lemma AsWrittenMissesValidChart(bad: string, good: string, svg: string, renderer: string -> RenderOutcome)
    requires Clean(bad) != [] && renderer(Clean(bad)) == RenderFailed
    requires Clean(good) != [] && renderer(Clean(good)) == Rendered(svg)
    ensures var failed := RenderAsWritten(Mounted(bad), bad, renderer);
            View(RenderAsWritten(failed, good, renderer)) == ErrorView(RenderFailureMessage, good)
            && View(Render(failed, good, renderer)) == Canvas(Some(svg), Origin, DefaultScale)
  {
  }

  /** The line-29 return is the only difference between the two effects: they
      agree whenever the canvas is shown. This holds by construction. */
  lemma RenderAgreesOnCanvas(p: Panel, chart: string, renderer: string -> RenderOutcome)
    requires p.error.None?
    ensures RenderAsWritten(p, chart, renderer) == Render(p, chart, renderer)
  {
  }

  /** With the guard removed, a definition that renders is always shown, from
      any state, the error view included. */
  lemma RenderRecovers(p: Panel, chart: string, renderer: string -> RenderOutcome)
    requires Clean(chart) != [] && renderer(Clean(chart)).Rendered?
    ensures View(Render(p, chart, renderer)).Canvas?
  {
  }
}
