/** The band table `HAM_BANDS_MHZ` and its lookup `edges_mhz`. */
module Bands {
  import opened Outcomes

  /** One row of the table: the band designator (meters) and the value the
      program pairs with it. */
  datatype BandRow = BandRow(designator: nat, value: nat)

  /** `HAM_BANDS_MHZ`, row for row. */
  const HamBandsMhz: seq<BandRow> := [
    BandRow(160, 2000),
    BandRow(80, 4000),
    BandRow(60, 5335),
    BandRow(40, 7000),
    BandRow(30, 10150),
    BandRow(20, 14000),
    BandRow(17, 18068),
    BandRow(15, 21000),
    BandRow(12, 24890),
    BandRow(10, 28000),
    BandRow(6, 50000)
  ]

  /** The designators the usage text lists as valid bands. */
  const UsageBands: set<nat> := {160, 80, 60, 40, 30, 20, 17, 15, 12, 10, 6}

  /** `iter().find`: the first row of `table` whose designator is `band`. */
  function Find(table: seq<BandRow>, band: nat): (r: Option<BandRow>)
    ensures r.Some? <==> exists i | 0 <= i < |table| :: table[i].designator == band
    ensures r.Some? ==> exists i | 0 <= i < |table| ::
      && table[i] == r.value
      && r.value.designator == band
      && forall j | 0 <= j < i :: table[j].designator != band
  {
    if |table| == 0 then None
    else if table[0].designator == band then Some(table[0])
    else
      var r := Find(table[1..], band);
      assert forall i | 1 <= i < |table| :: table[i] == table[1..][i - 1];
      if r.Some? then
        ghost var i :| 0 <= i < |table[1..]| && table[1..][i] == r.value
          && r.value.designator == band && forall j | 0 <= j < i :: table[1..][j].designator != band;
        assert table[i + 1] == r.value;
        r
      else r
  }

  /** A band that has a row in `table`. */
  predicate Listed(table: seq<BandRow>, band: nat) {
    exists i | 0 <= i < |table| :: table[i].designator == band
  }

  /** The table has one row per band, from the longest band to the
      shortest, every designator positive and below its paired value. */
  lemma TableShape()
    ensures |HamBandsMhz| == 11
    ensures forall i | 0 <= i < |HamBandsMhz| ::
      0 < HamBandsMhz[i].designator < HamBandsMhz[i].value
    ensures forall i, j | 0 <= i < j < |HamBandsMhz| ::
      HamBandsMhz[i].designator > HamBandsMhz[j].designator
  {
    TableDescending();
    forall i | 0 <= i < |HamBandsMhz|
      ensures 0 < HamBandsMhz[i].designator < HamBandsMhz[i].value
    {
      RowShape(i);
    }
  }

  /** Row `i` is a usage-text band below its paired value. */
  lemma RowShape(i: nat)
    requires i < |HamBandsMhz|
    ensures HamBandsMhz[i].designator in UsageBands
    ensures 0 < HamBandsMhz[i].designator < HamBandsMhz[i].value
  {
  }

  /** The rows run from the longest band to the shortest. */
  lemma TableDescending()
    ensures forall i, j | 0 <= i < j < |HamBandsMhz| ::
      HamBandsMhz[i].designator > HamBandsMhz[j].designator
  {
  }

  /** Every band of the usage text has a row. */
  lemma UsageBandListed(b: nat)
    requires b in UsageBands
    ensures Listed(HamBandsMhz, b)
  {
    var t := HamBandsMhz;
    if b == 160 { assert t[0].designator == b; }
    else if b == 80 { assert t[1].designator == b; }
    else if b == 60 { assert t[2].designator == b; }
    else if b == 40 { assert t[3].designator == b; }
    else if b == 30 { assert t[4].designator == b; }
    else if b == 20 { assert t[5].designator == b; }
    else if b == 17 { assert t[6].designator == b; }
    else if b == 15 { assert t[7].designator == b; }
    else if b == 12 { assert t[8].designator == b; }
    else if b == 10 { assert t[9].designator == b; }
    else { assert t[10].designator == b; }
  }

  /** A table row is determined by its designator. */
  lemma RowByDesignator(a: BandRow, b: BandRow)
    requires a in HamBandsMhz && b in HamBandsMhz
    requires a.designator == b.designator
    ensures a == b
  {
    TableDescending();
  }

  /** The loop of `edges_mhz` over any table: the row `find` gives for
      every band, in the order given; the usage path at the first band that
      has no row. */
  function Edges(table: seq<BandRow>, bands: seq<nat>): (r: Result<seq<BandRow>>)
    ensures r.Ok? <==> forall i | 0 <= i < |bands| :: Listed(table, bands[i])
    ensures r.Ok? ==> |r.value| == |bands|
    ensures r.Ok? ==> forall i | 0 <= i < |bands| ::
      r.value[i] in table && r.value[i].designator == bands[i]
    ensures r.Ok? ==> forall i | 0 <= i < |bands| :: Find(table, bands[i]) == Some(r.value[i])
    ensures r.Err? ==> exists k | 0 <= k < |bands| ::
      && !Listed(table, bands[k])
      && (forall j | 0 <= j < k :: Listed(table, bands[j]))
      && r.failure == UnknownBand(bands[k])
  {
    LookupRows(table, bands);
    LookupVerdict(table, bands);
    var r := Lookup(table, bands);
    if r.Ok? then
      assert forall i | 0 <= i < |bands| :: r.value[i] in table && r.value[i].designator == bands[i] by {
        forall i | 0 <= i < |bands|
          ensures r.value[i] in table && r.value[i].designator == bands[i]
        {
          FoundRow(table, bands[i], r.value[i]);
        }
      }
      r
    else r
  }

  /** The row `find` returns is a row of the table with that designator. */
  lemma FoundRow(table: seq<BandRow>, band: nat, row: BandRow)
    requires Find(table, band) == Some(row)
    ensures row in table && row.designator == band
  {
  }

  /** The loop itself: `find` for each band in turn, stopping at the first
      miss. */
  function Lookup(table: seq<BandRow>, bands: seq<nat>): Result<seq<BandRow>> {
    if |bands| == 0 then Ok([])
    else
      match Find(table, bands[0])
      case None => Err(UnknownBand(bands[0]))
      case Some(row) =>
        match Lookup(table, bands[1..])
        case Err(e) => Err(e)
        case Ok(rows) => Ok([row] + rows)
  }

  /** A finished loop holds, band by band, the row `find` gives. */
  lemma {:induction false} LookupRows(table: seq<BandRow>, bands: seq<nat>)
    ensures Lookup(table, bands).Ok? ==>
      && |Lookup(table, bands).value| == |bands|
      && forall i | 0 <= i < |bands| :: Find(table, bands[i]) == Some(Lookup(table, bands).value[i])
  {
    if |bands| > 0 && Lookup(table, bands).Ok? {
      var rest := bands[1..];
      LookupRows(table, rest);
      var r, rows := Lookup(table, bands).value, Lookup(table, rest).value;
      assert r == [Find(table, bands[0]).value] + rows;
      assert forall i | 1 <= i < |bands| :: bands[i] == rest[i - 1] && r[i] == rows[i - 1];
    }
  }

  /** The loop finishes exactly when every band is listed, and otherwise
      stops at the first band that is not. */
  lemma {:induction false} LookupVerdict(table: seq<BandRow>, bands: seq<nat>)
    ensures Lookup(table, bands).Ok? <==> forall i | 0 <= i < |bands| :: Listed(table, bands[i])
    ensures Lookup(table, bands).Err? ==> exists k | 0 <= k < |bands| ::
      && !Listed(table, bands[k])
      && (forall j | 0 <= j < k :: Listed(table, bands[j]))
      && Lookup(table, bands).failure == UnknownBand(bands[k])
  {
    if |bands| > 0 && Find(table, bands[0]).Some? {
      var rest := bands[1..];
      LookupVerdict(table, rest);
      assert forall i | 1 <= i < |bands| :: bands[i] == rest[i - 1];
      if Lookup(table, rest).Err? {
        var k :| 0 <= k < |rest| && !Listed(table, rest[k])
          && (forall j | 0 <= j < k :: Listed(table, rest[j])) && Lookup(table, rest).failure == UnknownBand(rest[k]);
        assert bands[k + 1] == rest[k];
      }
    }
  }

  /** `edges_mhz`: every band's row of `HAM_BANDS_MHZ`, in the order given;
      the usage path at the first band the usage text does not list. */
  function EdgesMhz(bands: seq<nat>): (r: Result<seq<BandRow>>)
    ensures r.Ok? <==> forall i | 0 <= i < |bands| :: bands[i] in UsageBands
    ensures r.Ok? ==> |r.value| == |bands|
    ensures r.Ok? ==> forall i | 0 <= i < |bands| ::
      r.value[i] in HamBandsMhz && r.value[i].designator == bands[i]
    ensures r.Err? ==> exists k | 0 <= k < |bands| ::
      && bands[k] !in UsageBands
      && (forall j | 0 <= j < k :: bands[j] in UsageBands)
      && r.failure == UnknownBand(bands[k])
  {
    ListedIsUsage();
    Edges(HamBandsMhz, bands)
  }

  /** The table lists exactly the usage text's bands. */
  lemma ListedIsUsage()
    ensures forall b: nat :: Listed(HamBandsMhz, b) <==> b in UsageBands
  {
    forall b: nat
      ensures b in UsageBands <==> Listed(HamBandsMhz, b)
    {
      if b in UsageBands {
        UsageBandListed(b);
      }
      if Listed(HamBandsMhz, b) {
        var i :| 0 <= i < |HamBandsMhz| && HamBandsMhz[i].designator == b;
        RowShape(i);
      }
    }
  }
}
