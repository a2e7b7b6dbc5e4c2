/** The numbers `graph` passes to the plotting library: windows converted
    to the display unit, the axis label, and the horizontal axis bounds. */
module Plot {
  import opened Harmonics

  /** Feet to the display unit: unchanged, or times `12.0 / 39.37` (inches
      per foot over inches per meter) for metric output. */
  function ToUnit(x: real, metric: bool): (y: real)
    ensures !metric ==> y == x
    ensures metric ==> y * 39.37 == x * 12.0
  {
    if metric then x * 12.0 / 39.37 else x
  }

  /** Conversion to the display unit keeps order. */
  lemma ToUnitMonotone(a: real, b: real, metric: bool)
    requires a <= b
    ensures ToUnit(a, metric) <= ToUnit(b, metric)
  {
  }

  /** A window with both ends converted to the display unit; a window that
      runs forward still does. */
  function SegmentToUnit(w: Segment, metric: bool): (v: Segment)
    ensures v.start == ToUnit(w.start, metric) && v.end == ToUnit(w.end, metric)
    ensures w.start <= w.end ==> v.start <= v.end
  {
    Segment(ToUnit(w.start, metric), ToUnit(w.end, metric))
  }

  /** `x_max.max(e1)` over the windows, starting from zero. */
  function RunningMax(ws: seq<Segment>): (m: real)
    ensures m >= 0.0
    ensures forall i | 0 <= i < |ws| :: ws[i].end <= m
    ensures m == 0.0 || exists i | 0 <= i < |ws| :: ws[i].end == m
  {
    if |ws| == 0 then 0.0
    else
      var m := RunningMax(ws[..|ws| - 1]);
      var e := ws[|ws| - 1].end;
      assert forall i | 0 <= i < |ws| - 1 :: ws[..|ws| - 1][i] == ws[i];
      if e > m then e else m
  }

  /** What the plotting calls receive: the title, the x-axis label, the
      windows to fill, and the x-axis limits. */
  datatype View = View(title: string, xLabel: string, windows: seq<Segment>, xMin: real, xMax: real)

  /** The pure part of `graph`: convert every window and the quarter-wave
      lower bound, and take the x-axis upper bound as the largest converted
      end (never below zero). */
  function Graph(title: string, edgesFt: seq<Segment>, metric: bool, lenQtrFt: real): (v: View)
    ensures v.title == title
    ensures v.xLabel == if metric then "Wire Length (m)" else "Wire Length (ft)"
    ensures |v.windows| == |edgesFt|
    ensures forall i | 0 <= i < |edgesFt| :: v.windows[i] == SegmentToUnit(edgesFt[i], metric)
    ensures v.xMin == ToUnit(lenQtrFt, metric)
    ensures v.xMax >= 0.0 && forall i | 0 <= i < |v.windows| :: v.windows[i].end <= v.xMax
    ensures v.xMax == 0.0 || exists i | 0 <= i < |v.windows| :: v.windows[i].end == v.xMax
  {
    var windows := seq(|edgesFt|, i requires 0 <= i < |edgesFt| => SegmentToUnit(edgesFt[i], metric));
    View(title, "Wire Length (" + (if metric then "m" else "ft") + ")", windows, ToUnit(lenQtrFt, metric), RunningMax(windows))
  }

  /** Converting to meters scales by a positive factor, so the running
      maximum of the converted ends is the converted running maximum. */
  lemma {:induction false} RunningMaxToMeters(ws: seq<Segment>)
    ensures RunningMax(seq(|ws|, i requires 0 <= i < |ws| => SegmentToUnit(ws[i], true)))
      == ToUnit(RunningMax(ws), true)
  {
    var ms := seq(|ws|, i requires 0 <= i < |ws| => SegmentToUnit(ws[i], true));
    if |ws| > 0 {
      var ws' := ws[..|ws| - 1];
      var ms' := seq(|ws'|, i requires 0 <= i < |ws'| => SegmentToUnit(ws'[i], true));
      assert ms[..|ms| - 1] == ms';
      RunningMaxToMeters(ws');
      var m, e := RunningMax(ws'), ws[|ws| - 1].end;
      assert e > m <==> e * 12.0 / 39.37 > m * 12.0 / 39.37;
    }
  }

  /** The metric view is the imperial view with every length, both axis
      bounds included, multiplied by `12.0 / 39.37`; nothing else differs
      but the unit in the label. */
  lemma MetricScalesView(title: string, edgesFt: seq<Segment>, lenQtrFt: real)
    ensures var ft, m := Graph(title, edgesFt, false, lenQtrFt), Graph(title, edgesFt, true, lenQtrFt);
      && m.title == ft.title
      && |m.windows| == |ft.windows|
      && (forall i | 0 <= i < |ft.windows| ::
           m.windows[i] == Segment(ft.windows[i].start * 12.0 / 39.37, ft.windows[i].end * 12.0 / 39.37))
      && m.xMin == ft.xMin * 12.0 / 39.37
      && m.xMax == ft.xMax * 12.0 / 39.37
  {
    var ft := Graph(title, edgesFt, false, lenQtrFt);
    assert ft.windows == edgesFt;
    RunningMaxToMeters(edgesFt);
  }
}
