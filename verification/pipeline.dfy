/** `main`: classify the arguments, look the bands up, aggregate the
    harmonic windows and prepare the figure. */
module Pipeline {
  import opened Outcomes
  import opened Decimal
  import opened Sorting
  import opened CommandLine
  import opened Bands
  import opened Harmonics
  import opened Overlay
  import opened Plot

  /** From the collected command-line arguments to what is drawn, or to the
      failure that sends the program down the usage path. */
  function Run(args: seq<string>): (r: Result<View>)
    ensures Cli(args).Err? ==> r == Err(Cli(args).failure)
    ensures r.Ok? <==> Cli(args).Ok? && forall i | 0 <= i < |Cli(args).value.bands| :: Cli(args).value.bands[i] in UsageBands
    ensures Cli(args).Ok? && r.Err? ==> var bands := Cli(args).value.bands;
      exists k | 0 <= k < |bands| ::
        && bands[k] !in UsageBands
        && (forall j | 0 <= j < k :: bands[j] in UsageBands)
        && r.failure == UnknownBand(bands[k])
  {
    match Cli(args)
    case Err(e) => Err(e)
    case Ok(opts) => Draw(opts)
  }

  /** Everything `main` does after `cli`: look the bands up, aggregate and
      prepare the figure. The band list is never empty here, since `cli`
      takes the usage path for an empty one. */
  function Draw(opts: Options): (r: Result<View>)
    requires |opts.bands| >= 1
    ensures r.Ok? <==> forall i | 0 <= i < |opts.bands| :: opts.bands[i] in UsageBands
    ensures r.Err? ==> exists k | 0 <= k < |opts.bands| ::
      && opts.bands[k] !in UsageBands
      && (forall j | 0 <= j < k :: opts.bands[j] in UsageBands)
      && r.failure == UnknownBand(opts.bands[k])
  {
    match EdgesMhz(opts.bands)
    case Err(e) => Err(e)
    case Ok(edges) =>
      RowsUsable(edges);
      var g := Aggregate(opts.bands, edges, opts.fullwave);
      Ok(Graph(g.title, g.segments, opts.metric, g.quarter))
  }

  /** Rows of the band table can be divided by and have designator below
      value. */
  lemma RowsUsable(edges: seq<BandRow>)
    requires forall i | 0 <= i < |edges| :: edges[i] in HamBandsMhz
    ensures Positive(edges)
    ensures forall i | 0 <= i < |edges| :: 0 < edges[i].designator <= edges[i].value
  {
    TableShape();
    forall i | 0 <= i < |edges|
      ensures 0 < edges[i].designator < edges[i].value
    {
      var j :| 0 <= j < |HamBandsMhz| && HamBandsMhz[j] == edges[i];
    }
  }

  /** The figure `v` for `bands`, measured from the reference band
      `reference`: the title lists the bands; the baseline marker comes
      first, from zero to the lower axis bound, which is the reference
      band's quarter wave; and every window runs forward and ends within
      the upper axis bound. */
  predicate Shows(v: View, bands: seq<nat>, reference: nat, metric: bool) {
    && reference > 0
    && v.title == Title(bands)
    && v.xMin == ToUnit(234.0 / reference as real, metric)
    && |v.windows| >= 1
    && v.windows[0] == Segment(0.0, v.xMin)
    && (forall i | 0 <= i < |v.windows| :: v.windows[i].start <= v.windows[i].end <= v.xMax)
  }

  /** After the baseline marker, the windows of `v` are the series `ss`
      converted to the display unit, one after another and in order. */
  predicate ShowsSeries(v: View, ss: seq<seq<Segment>>, metric: bool) {
    && |v.windows| == 1 + Total(ss)
    && forall k, j | 0 <= k < |ss| && 0 <= j < |ss[k]| ::
      1 + Total(ss[..k]) + j < |v.windows|
      && v.windows[1 + Total(ss[..k]) + j] == SegmentToUnit(ss[k][j], metric)
  }

  /** A successful run shows its figure measured from the first band of the
      sorted list, which is the largest band selected, and draws every
      band's harmonic series against that band's cutoff, doubled for `-f`. */
  lemma RunView(args: seq<string>)
    requires Run(args).Ok?
    ensures Cli(args).Ok? && |Cli(args).value.bands| >= 1
    ensures var opts := Cli(args).value;
      && (forall i | 0 <= i < |opts.bands| :: opts.bands[i] <= opts.bands[0])
      && Shows(Run(args).value, opts.bands, opts.bands[0], opts.metric)
    ensures var opts := Cli(args).value;
      && EdgesMhz(opts.bands).Ok?
      && var rows := EdgesMhz(opts.bands).value;
      && |rows| == |opts.bands| && Positive(rows)
      && ShowsSeries(Run(args).value, Series(rows, Cutoff(rows[0], opts.fullwave)), opts.metric)
  {
    var c := Cli(args);
    var opts := c.value;
    assert |opts.bands| >= 1 && SortedDesc(opts.bands);
    assert Run(args) == Draw(opts);
    DrawView(opts);
    DrawWindows(opts);
  }

  /** What `main` draws for known bands: the baseline marker, then the
      `high_v` series of every band in the order given, each against the
      cutoff of the first band, doubled for `-f`. */
  lemma DrawWindows(opts: Options)
    requires |opts.bands| >= 1
    requires forall i | 0 <= i < |opts.bands| :: opts.bands[i] in UsageBands
    ensures Draw(opts).Ok? && EdgesMhz(opts.bands).Ok?
    ensures var rows := EdgesMhz(opts.bands).value;
      && |rows| == |opts.bands| && Positive(rows)
      && ShowsSeries(Draw(opts).value, Series(rows, Cutoff(rows[0], opts.fullwave)), opts.metric)
  {
    var rows := EdgesMhz(opts.bands).value;
    RowsUsable(rows);
    var ss := Series(rows, Cutoff(rows[0], opts.fullwave));
    var g := Aggregate(opts.bands, rows, opts.fullwave);
    var v := Graph(g.title, g.segments, opts.metric, g.quarter);
    assert Draw(opts) == Ok(v);
    ConvertedSeries(g.segments, ss, v, opts.metric);
  }

  /** Converting a marked layout window by window shows its series. */
  lemma ConvertedSeries(all: seq<Segment>, ss: seq<seq<Segment>>, v: View, metric: bool)
    requires MarkedSeries(all, ss)
    requires |v.windows| == |all|
    requires forall i | 0 <= i < |all| :: v.windows[i] == SegmentToUnit(all[i], metric)
    ensures ShowsSeries(v, ss, metric)
  {
    forall k, j | 0 <= k < |ss| && 0 <= j < |ss[k]|
      ensures 1 + Total(ss[..k]) + j < |v.windows|
      ensures v.windows[1 + Total(ss[..k]) + j] == SegmentToUnit(ss[k][j], metric)
    {
      var o := 1 + Total(ss[..k]);
      assert all[o..o + |ss[k]|] == ss[k];
      assert all[o + j] == ss[k][j];
    }
  }

  /** `RunView` for the options `cli` produced. */
  lemma DrawView(opts: Options)
    requires |opts.bands| >= 1 && SortedDesc(opts.bands)
    requires forall i | 0 <= i < |opts.bands| :: opts.bands[i] in UsageBands
    ensures Draw(opts).Ok?
    ensures forall i | 0 <= i < |opts.bands| :: opts.bands[i] <= opts.bands[0]
    ensures Shows(Draw(opts).value, opts.bands, opts.bands[0], opts.metric)
  {
    var edges := EdgesMhz(opts.bands).value;
    RowsUsable(edges);
    var g := Aggregate(opts.bands, edges, opts.fullwave);
    var v := Graph(g.title, g.segments, opts.metric, g.quarter);
    assert Draw(opts) == Ok(v);
    FigureView(opts.bands, edges, opts.fullwave, opts.metric);
    assert edges[0].designator == opts.bands[0];
  }

  /** The figure drawn for rows taken from the band table. */
  lemma FigureView(bands: seq<nat>, edges: seq<BandRow>, fullwave: bool, metric: bool)
    requires |edges| >= 1
    requires forall i | 0 <= i < |edges| :: 0 < edges[i].designator <= edges[i].value
    ensures Positive(edges)
    ensures var g := Aggregate(bands, edges, fullwave);
      Shows(Graph(g.title, g.segments, metric, g.quarter), bands, edges[0].designator, metric)
  {
    var g := Aggregate(bands, edges, fullwave);
    var lenMax := Cutoff(edges[0], fullwave);
    MergeOrdered(edges, lenMax);
    assert g.segments == [Segment(0.0, g.quarter)] + Flatten(Series(edges, lenMax));
    forall i | 0 <= i < |g.segments|
      ensures g.segments[i].start <= g.segments[i].end
    {
      if i > 0 {
        assert Forward(Flatten(Series(edges, lenMax))[i - 1], lenMax);
      }
    }
    WindowsForward(g.segments, metric);
  }

  /** Converted windows run forward when the originals do. */
  lemma WindowsForward(ws: seq<Segment>, metric: bool)
    requires forall i | 0 <= i < |ws| :: ws[i].start <= ws[i].end
    ensures forall i | 0 <= i < |ws| :: SegmentToUnit(ws[i], metric).start <= SegmentToUnit(ws[i], metric).end
  {
  }

  /** `endfed 40 -m`: one band, metric output. The run succeeds, the title
      names the band, the label is in meters, and the axis starts at the
      40 m quarter wave (5.85 ft) converted to meters. */
  lemma FortyMetersMetric()
    ensures var args := ["endfed", "40", "-m"];
      && Run(args).Ok?
      && Run(args).value.title == "High Voltage Lengths for 40 m"
      && Run(args).value.xLabel == "Wire Length (m)"
      && Run(args).value.xMin == 5.85 * 12.0 / 39.37
  {
    var opts := Options([40], true, false);
    FortyMetricArgs();
    assert Run(["endfed", "40", "-m"]) == Draw(opts);
    assert 40 in UsageBands;
    assert Draw(opts).Ok?;
    DrawView(opts);
    FortyTitle();
    assert 234.0 / 40 as real == 5.85;
    MetricLabel(opts);
  }

  /** The title for the 40 m band alone. */
  lemma FortyTitle()
    ensures Title([40]) == "High Voltage Lengths for 40 m"
  {
    assert ToDecimal(4) == ['4'];
    assert ToDecimal(40) == ['4', '0'];
    var ds := Decimals([40]);
    assert |ds| == 1 && ds[0] == ToDecimal(40);
    assert Join(ds, Separator) == "40";
  }

  /** The axis label names the unit `-m` chose. */
  lemma MetricLabel(opts: Options)
    requires |opts.bands| >= 1
    requires forall i | 0 <= i < |opts.bands| :: opts.bands[i] in UsageBands
    ensures Draw(opts).Ok?
    ensures Draw(opts).value.xLabel == if opts.metric then "Wire Length (m)" else "Wire Length (ft)"
  {
    var edges := EdgesMhz(opts.bands).value;
    RowsUsable(edges);
  }
}
