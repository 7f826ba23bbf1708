/** The part of a Plotly figure the charts build: an ordered list of bar
    traces, each with a name, its x labels, its y values (NaN as `None`), a
    marker colour and an offset group. Layout and rendering are not part of
    this model. */
module Figures {
  import opened Basics

  datatype Colour = LightBlue | Orange | Red | Green

  /** `marker_color`: none given, one colour for every bar, or one per bar. */
  datatype Marker = DefaultMarker | Uniform(colour: Colour) | PerBar(colours: seq<Colour>)

  datatype Bar = Bar(name: string, x: seq<string>, y: seq<Option<int>>, marker: Marker, group: Option<string>)

  /** What a chart helper returns: an HTML fragment (a placeholder or an
      error message), or the figure it plotted, as its traces. */
  datatype ChartOutput = Html(text: string) | Plot(traces: seq<Bar>)

  /** A `go.Figure()` being filled by successive `add_trace` calls. */
  class Figure {
    var traces: seq<Bar>

    constructor ()
      ensures traces == []
    {
      traces := [];
    }

    method AddTrace(b: Bar)
      modifies this
      ensures traces == old(traces) + [b]
    {
      traces := traces + [b];
    }
  }
}
