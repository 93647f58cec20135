/** The diagram panel as an object: its fields are the component's state
    variables and the pan anchor, its methods the render effect and the event
    handlers. Each method is specified by the matching transition of `Viewport`,
    whose lemmas state what the transitions do. The render effect is the
    corrected one, `Viewport.Render`, which does not stop while the error view
    is shown; `Viewport.RenderAsWritten` keeps the component's early return. */
module DiagramComponent {
  import opened Wrappers
  import opened Viewport
  import opened ChartCleaner

  class Diagram {
    var chart: string
    var error: Option<string>
    var markup: Option<string>
    var scale: int
    var isPanning: bool
    var position: Point
    var startPos: Point

    function State(): Panel
      reads this
    {
      Panel(chart, error, markup, scale, isPanning, position, startPos)
    }

    predicate Valid()
      reads this
    {
      Viewport.Valid(State())
    }

    /** What the component currently displays. */
    function Screen(): Screen
      reads this
    {
      View(State())
    }

    /** Mounting with `chart`: the initial state, then the render effect. */
    constructor (chart: string, renderer: string -> RenderOutcome)
      ensures Valid()
      ensures State() == Render(Mounted(chart), chart, renderer)
    {
      this.chart := chart;
      error := None;
      markup := None;
      scale := DefaultScale;
      isPanning := false;
      position := Origin;
      startPos := Origin;
      new;
      RenderChart(chart, renderer);
    }

    /** The render effect, run when the `chart` property changes. */
    method RenderChart(chart: string, renderer: string -> RenderOutcome)
      requires Valid()
      modifies this
      ensures Valid()
      ensures State() == Render(old(State()), chart, renderer)
      ensures Clean(chart) != [] && renderer(Clean(chart)).Rendered? ==> Screen().Canvas?
      ensures Screen().ErrorView? ==> Screen() == ErrorView(RenderFailureMessage, chart)
    {
      this.chart := chart;
      if error.Some? {
        markup := None;
      }
      error := None;
      var clean := ChartCleaner.Clean(chart);
      if clean == [] {
        return;
      }
      var outcome := renderer(clean);
      match outcome
      case Rendered(svg) =>
        markup := Some(svg);
        scale := DefaultScale;
        position := Origin;
      case RenderFailed =>
        markup := None;
        error := Some(RenderFailureMessage);
    }

    method ZoomIn()
      requires Valid()
      modifies this
      ensures Valid()
      ensures State() == ZoomInPanel(old(State()))
    {
      scale := Viewport.ZoomIn(scale);
    }

    method ZoomOut()
      requires Valid()
      modifies this
      ensures Valid()
      ensures State() == ZoomOutPanel(old(State()))
    {
      scale := Viewport.ZoomOut(scale);
    }

    method ResetView()
      requires Valid()
      modifies this
      ensures Valid()
      ensures State() == Reset(old(State()))
    {
      scale := DefaultScale;
      position := Origin;
    }

    method MouseDown(at: Point)
      requires Valid()
      modifies this
      ensures Valid()
      ensures State() == Viewport.MouseDown(old(State()), at)
    {
      isPanning := true;
      startPos := at.Minus(position);
    }

    method MouseMove(at: Point)
      requires Valid()
      modifies this
      ensures Valid()
      ensures State() == Viewport.MouseMove(old(State()), at)
    {
      if !isPanning {
        return;
      }
      position := at.Minus(startPos);
    }

    method MouseUp()
      requires Valid()
      modifies this
      ensures Valid()
      ensures State() == Viewport.MouseUp(old(State()))
    {
      isPanning := false;
    }

    /** Leaving the canvas runs the mouse-up handler. */
    method MouseLeave()
      requires Valid()
      modifies this
      ensures Valid()
      ensures State() == Viewport.MouseUp(old(State()))
    {
      MouseUp();
    }
  }
}
