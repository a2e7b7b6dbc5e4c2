/** The aggregation in `main`: the cutoff and quarter-wave baseline taken
    from the first (largest) band, every band's harmonic series appended
    after a baseline marker, and the figure title. */
module Overlay {
  import opened Outcomes
  import opened Decimal
  import opened Bands
  import opened Harmonics

  /** Rows the length formulas can divide by. */
  predicate Positive(edges: seq<BandRow>) {
    forall i | 0 <= i < |edges| :: edges[i].designator > 0 && edges[i].value > 0
  }

  /** The quarter-wave length `234 / b.0` of the reference row. */
  function QuarterWave(row: BandRow): (q: real)
    requires row.designator > 0
    ensures q > 0.0 && 2.0 * q == HalfWave(row.designator)
  {
    234.0 / row.designator as real
  }

  /** The harmonic cutoff: `468 / b.0`, or `2 * 468 / b.0` for full wave. */
  function Cutoff(row: BandRow, fullwave: bool): (c: real)
    requires row.designator > 0
    ensures c == (if fullwave then 2.0 else 1.0) * HalfWave(row.designator)
  {
    if fullwave then 2.0 * 468.0 / row.designator as real else 468.0 / row.designator as real
  }

  /** The full-wave cutoff is twice the half-wave one, and the half-wave
      cutoff twice the quarter-wave baseline. */
  lemma CutoffScales(row: BandRow)
    requires row.designator > 0
    ensures Cutoff(row, true) == 2.0 * Cutoff(row, false)
    ensures Cutoff(row, false) == 2.0 * QuarterWave(row)
  {
  }

  /** Every band's harmonic series against the shared cutoff, in the order
      of `edges`. */
  function Series(edges: seq<BandRow>, lenMax: real): (ss: seq<seq<Segment>>)
    requires Positive(edges)
    ensures |ss| == |edges|
  {
    seq(|edges|, i requires 0 <= i < |edges| => HighV(edges[i], lenMax))
  }

  /** The series appended one after another (`all_ft.extend`). */
  function Flatten(ss: seq<seq<Segment>>): (r: seq<Segment>)
    ensures |r| == Total(ss)
  {
    if |ss| == 0 then [] else ss[0] + Flatten(ss[1..])
  }

  /** The number of windows all the series hold together. */
  function Total(ss: seq<seq<Segment>>): nat {
    if |ss| == 0 then 0 else |ss[0]| + Total(ss[1..])
  }

  /** Series `k` sits, unchanged, right after the series before it. */
  lemma {:induction false} FlattenSlice(ss: seq<seq<Segment>>, k: nat)
    requires k < |ss|
    ensures |Flatten(ss)| == Total(ss)
    ensures Total(ss[..k]) + |ss[k]| <= |Flatten(ss)|
    ensures Flatten(ss)[Total(ss[..k])..Total(ss[..k]) + |ss[k]|] == ss[k]
  {
    var rest := Flatten(ss[1..]);
    assert Flatten(ss) == ss[0] + rest;
    if k == 0 {
      assert ss[..0] == [];
    } else {
      FlattenSlice(ss[1..], k - 1);
      TotalPrefix(ss, k);
      var o := Total(ss[1..][..k - 1]);
      assert ss[1..][k - 1] == ss[k];
      assert (ss[0] + rest)[|ss[0]| + o..|ss[0]| + o + |ss[k]|] == rest[o..o + |ss[k]|];
    }
  }

  /** The windows before series `k` are the first series' and those of the
      next `k - 1`. */
  lemma TotalPrefix(ss: seq<seq<Segment>>, k: nat)
    requires 0 < k <= |ss|
    ensures Total(ss[..k]) == |ss[0]| + Total(ss[1..][..k - 1])
  {
    assert ss[..k][0] == ss[0];
    assert ss[..k][1..] == ss[1..][..k - 1];
  }

  /** A window that runs forward and starts within the cutoff. */
  predicate Forward(w: Segment, lenMax: real) {
    w.start <= w.end && w.start <= lenMax
  }

  /** Flattening keeps a property every series has window by window. */
  lemma {:induction false} FlattenForward(ss: seq<seq<Segment>>, lenMax: real)
    requires forall i, j | 0 <= i < |ss| && 0 <= j < |ss[i]| :: Forward(ss[i][j], lenMax)
    ensures forall j | 0 <= j < |Flatten(ss)| :: Forward(Flatten(ss)[j], lenMax)
  {
    if |ss| > 0 {
      FlattenForward(ss[1..], lenMax);
      var h, rest := ss[0], Flatten(ss[1..]);
      assert forall j | |h| <= j < |h + rest| :: (h + rest)[j] == rest[j - |h|];
    }
  }

  /** For rows whose designator is at most their value, every merged window
      runs forward and starts within the cutoff. */
  lemma MergeOrdered(edges: seq<BandRow>, lenMax: real)
    requires forall i | 0 <= i < |edges| :: 0 < edges[i].designator <= edges[i].value
    ensures forall j | 0 <= j < |Flatten(Series(edges, lenMax))| ::
      Forward(Flatten(Series(edges, lenMax))[j], lenMax)
  {
    var ss := Series(edges, lenMax);
    forall i | 0 <= i < |ss|
      ensures forall j | 0 <= j < |ss[i]| :: Forward(ss[i][j], lenMax)
    {
      HighVOrdered(edges[i], lenMax);
    }
    FlattenForward(ss, lenMax);
  }

  /** Rust's `join`: the parts with `sep` between neighbours. */
  function Join(parts: seq<string>, sep: string): (r: string)
    ensures |parts| >= 1 ==> |parts[0]| <= |r| && r[..|parts[0]|] == parts[0]
  {
    if |parts| == 0 then ""
    else if |parts| == 1 then parts[0]
    else parts[0] + sep + Join(parts[1..], sep)
  }

  /** The separator the title puts between band numbers. */
  const Separator: string := ", "

  /** Cuts a string at every `", "`: the inverse of joining with it. */
  function SplitList(s: string): (parts: seq<string>)
    ensures |parts| >= 1
    ensures Join(parts, Separator) == s
  {
    if |s| == 0 then [""]
    else if |s| >= 2 && s[0] == ',' && s[1] == ' ' then
      var rest := SplitList(s[2..]);
      JoinFront("", rest, Separator);
      assert s == Separator + s[2..];
      [""] + rest
    else
      var rest := SplitList(s[1..]);
      JoinGrowFirst(s[0], rest, Separator);
      assert s == [s[0]] + s[1..];
      [[s[0]] + rest[0]] + rest[1..]
  }

  /** Joining a first part in front of at least one more. */
  lemma JoinFront(p: string, rest: seq<string>, sep: string)
    requires |rest| >= 1
    ensures Join([p] + rest, sep) == p + sep + Join(rest, sep)
  {
    assert ([p] + rest)[1..] == rest;
  }

  /** Growing the first part by one character grows the join the same way. */
  lemma JoinGrowFirst(c: char, parts: seq<string>, sep: string)
    requires |parts| >= 1
    ensures Join([[c] + parts[0]] + parts[1..], sep) == [c] + Join(parts, sep)
  {
    var grown := [[c] + parts[0]] + parts[1..];
    if |parts| > 1 {
      assert grown[1..] == parts[1..];
    }
  }

  /** A string without a comma is one piece. */
  lemma {:induction false} SplitWhole(p: string)
    requires ',' !in p
    ensures SplitList(p) == [p]
  {
    if |p| > 0 {
      assert p[1..][..] == p[1..];
      SplitWhole(p[1..]);
      assert [p[0]] + p[1..] == p;
    }
  }

  /** A comma-free first piece comes off the front whole. */
  lemma {:induction false} SplitFront(p: string, rest: string)
    requires ',' !in p
    ensures SplitList(p + Separator + rest) == [p] + SplitList(rest)
  {
    var s := p + Separator + rest;
    if |p| == 0 {
      assert s == Separator + rest;
      assert s[2..] == rest;
    } else {
      assert s[0] == p[0];
      assert s[1..] == p[1..] + Separator + rest;
      assert ',' !in p[1..] by {
        forall c | c in p[1..] ensures c != ',' {
          assert c in p;
        }
      }
      SplitFront(p[1..], rest);
      assert [p[0]] + p[1..] == p;
    }
  }

  /** Joining comma-free pieces and splitting the result gives them back. */
  lemma {:induction false} SplitJoin(parts: seq<string>)
    requires |parts| >= 1
    requires forall i | 0 <= i < |parts| :: ',' !in parts[i]
    ensures SplitList(Join(parts, Separator)) == parts
  {
    if |parts| == 1 {
      SplitWhole(parts[0]);
    } else {
      SplitJoin(parts[1..]);
      SplitFront(parts[0], Join(parts[1..], Separator));
      assert parts == [parts[0]] + parts[1..];
    }
  }

  /** Every band rendered by `to_string`. */
  function Decimals(bands: seq<nat>): seq<string> {
    seq(|bands|, i requires 0 <= i < |bands| => ToDecimal(bands[i]))
  }

  const TitlePrefix: string := "High Voltage Lengths for "
  const TitleSuffix: string := " m"

  /** The figure title: the bands in order, comma separated. */
  function Title(bands: seq<nat>): (t: string)
    ensures |t| >= |TitlePrefix| + |TitleSuffix|
    ensures t[..|TitlePrefix|] == TitlePrefix && t[|t| - |TitleSuffix|..] == TitleSuffix
  {
    TitlePrefix + Join(Decimals(bands), Separator) + TitleSuffix
  }

  /** The title names every band: between its fixed prefix and suffix, the
      pieces separated by `", "` parse back to the bands, in order. */
  lemma TitleNamesBands(bands: seq<nat>)
    requires |bands| >= 1
    requires forall i | 0 <= i < |bands| :: bands[i] <= MaxU32
    ensures var t := Title(bands);
      var pieces := SplitList(t[|TitlePrefix|..|t| - |TitleSuffix|]);
      |pieces| == |bands| && forall i | 0 <= i < |bands| :: ParseU32(pieces[i]) == Some(bands[i])
  {
    var parts := Decimals(bands);
    var body := Join(parts, Separator);
    var t := Title(bands);
    forall i | 0 <= i < |parts|
      ensures ',' !in parts[i]
    {
      assert parts[i] == ToDecimal(bands[i]);
      assert AllDigits(parts[i]);
    }
    SplitJoin(parts);
    assert t[|TitlePrefix|..|t| - |TitleSuffix|] == body;
    forall i | 0 <= i < |bands|
      ensures ParseU32(parts[i]) == Some(bands[i])
    {
      ParseToDecimal(bands[i]);
    }
  }

  /** What `main` hands to `graph`: the title, the merged windows (baseline
      marker first) and the quarter-wave lower bound, all in feet. */
  datatype Geometry = Geometry(title: string, segments: seq<Segment>, quarter: real)

  /** The aggregation of src/main.rs:126-143 over the looked-up rows. */
  function Aggregate(bands: seq<nat>, edges: seq<BandRow>, fullwave: bool): (g: Geometry)
    requires |edges| >= 1 && Positive(edges)
    ensures g.quarter == QuarterWave(edges[0])
    ensures |g.segments| >= 1 && g.segments[0] == Segment(0.0, g.quarter)
    ensures MarkedSeries(g.segments, Series(edges, Cutoff(edges[0], fullwave)))
    ensures g.title == Title(bands)
  {
    var quarter := QuarterWave(edges[0]);
    var ss := Series(edges, Cutoff(edges[0], fullwave));
    MarkedLayout(Segment(0.0, quarter), ss);
    Geometry(Title(bands), [Segment(0.0, quarter)] + Flatten(ss), quarter)
  }

  /** `all` is one leading marker followed by the series `ss`, each one
      unchanged and in order: series `k` starts right after the marker and
      the series before it. */
  predicate MarkedSeries(all: seq<Segment>, ss: seq<seq<Segment>>) {
    && |all| == 1 + Total(ss)
    && forall k | 0 <= k < |ss| ::
      1 + Total(ss[..k]) + |ss[k]| <= |all|
      && all[1 + Total(ss[..k])..1 + Total(ss[..k]) + |ss[k]|] == ss[k]
  }

  /** The marker followed by the flattened series has that layout. */
  lemma MarkedLayout(marker: Segment, ss: seq<seq<Segment>>)
    ensures MarkedSeries([marker] + Flatten(ss), ss)
  {
    var merged := Flatten(ss);
    var all := [marker] + merged;
    forall k | 0 <= k < |ss|
      ensures 1 + Total(ss[..k]) + |ss[k]| <= |all|
        && all[1 + Total(ss[..k])..1 + Total(ss[..k]) + |ss[k]|] == ss[k]
    {
      FlattenSlice(ss, k);
      var o := Total(ss[..k]);
      assert all[1 + o..1 + o + |ss[k]|] == merged[o..o + |ss[k]|];
    }
  }

  /** With the 40 m band alone and no flags, the cutoff is 11.7 ft and the
      band contributes 175 harmonics. */
  lemma FortyMetersHalfWave()
    ensures Cutoff(BandRow(40, 7000), false) == 11.7
    ensures QuarterWave(BandRow(40, 7000)) == 5.85
    ensures |HighV(BandRow(40, 7000), Cutoff(BandRow(40, 7000), false))| == 175
  {
    assert Cutoff(BandRow(40, 7000), false) == 11.7;
    assert 11.7 / HalfWave(7000) == 175.0;
    assert Truncate(175.0) == 175;
  }

  /** With the 10 m band alone in full wave, the cutoff is 93.6 ft and the
      band contributes 5600 harmonics. */
  lemma TenMetersFullWave()
    ensures Cutoff(BandRow(10, 28000), true) == 93.6
    ensures |HighV(BandRow(10, 28000), Cutoff(BandRow(10, 28000), true))| == 5600
  {
    assert Cutoff(BandRow(10, 28000), true) == 93.6;
    assert 93.6 / HalfWave(28000) == 5600.0;
    assert Truncate(5600.0) == 5600;
  }
}
