/** Classification of the command line (`cli`): flags, band numbers, and
    the usage path for anything else. */
module CommandLine {
  import opened Outcomes
  import opened Decimal
  import opened Sorting

  /** What `cli` hands back, in the source's tuple order. */
  datatype Options = Options(bands: seq<nat>, metric: bool, fullwave: bool)

  /** `-f` (full-wave) and `-m` (metric) are matched as whole tokens. */
  predicate IsFlag(t: string) {
    t == "-f" || t == "-m"
  }

  /** A token the loop does not send to the usage path. */
  predicate Accepted(t: string) {
    IsFlag(t) || ParseU32(t).Some?
  }

  /** The tokens that are not flags, in command-line order. */
  function NumericTokens(toks: seq<string>): seq<string> {
    if |toks| == 0 then []
    else if IsFlag(toks[0]) then NumericTokens(toks[1..])
    else [toks[0]] + NumericTokens(toks[1..])
  }

  /** The `u32` value of a token (zero for one that does not parse). */
  function TokenValue(t: string): nat {
    match ParseU32(t)
    case Some(v) => v
    case None => 0
  }

  /** The value of each token, in order. */
  function TokenValues(ts: seq<string>): seq<nat> {
    if |ts| == 0 then [] else [TokenValue(ts[0])] + TokenValues(ts[1..])
  }

  /** The argument loop (src/main.rs:23-36) over the tokens after the program
      name: bands in the order met, flags set wherever they appear, and the
      usage path taken at the first token that is neither. */
  function ScanTokens(toks: seq<string>): (r: Result<Options>)
    ensures r.Err? ==> r.failure.BadToken?
    ensures r.Ok? ==> |r.value.bands| <= |toks|
  {
    if |toks| == 0 then Ok(Options([], false, false))
    else
      var t := toks[0];
      if !Accepted(t) then Err(BadToken(t))
      else
        match ScanTokens(toks[1..])
        case Err(e) => Err(e)
        case Ok(o) =>
          if t == "-f" then Ok(o.(fullwave := true))
          else if t == "-m" then Ok(o.(metric := true))
          else Ok(o.(bands := [ParseU32(t).value] + o.bands))
  }

  /** A successful scan keeps the value of every non-flag token, in order. */
  lemma {:induction false} ScanBands(toks: seq<string>)
    ensures ScanTokens(toks).Ok? ==> ScanTokens(toks).value.bands == TokenValues(NumericTokens(toks))
  {
    if |toks| > 0 && ScanTokens(toks).Ok? {
      var t, rest := toks[0], toks[1..];
      ScanBands(rest);
      if !IsFlag(t) {
        var nt := [t] + NumericTokens(rest);
        assert NumericTokens(toks) == nt;
        assert nt[0] == t && nt[1..] == NumericTokens(rest);
        assert TokenValue(t) == ParseU32(t).value;
      }
    }
  }

  /** A successful scan sets a flag exactly when its token appears. */
  lemma {:induction false} ScanFlags(toks: seq<string>)
    ensures ScanTokens(toks).Ok? ==>
      && (ScanTokens(toks).value.fullwave <==> "-f" in toks)
      && (ScanTokens(toks).value.metric <==> "-m" in toks)
  {
    if |toks| > 0 && ScanTokens(toks).Ok? {
      var t, rest := toks[0], toks[1..];
      assert toks == [t] + rest;
      assert ("-f" in toks <==> t == "-f" || "-f" in rest);
      assert ("-m" in toks <==> t == "-m" || "-m" in rest);
      ScanFlags(rest);
    }
  }

  /** The scan succeeds exactly when every token is accepted, and otherwise
      reports the first token that is not. */
  lemma ScanVerdict(toks: seq<string>)
    ensures ScanTokens(toks).Ok? <==> forall i | 0 <= i < |toks| :: Accepted(toks[i])
    ensures ScanTokens(toks).Err? ==> exists k | 0 <= k < |toks| ::
      && !Accepted(toks[k])
      && (forall j | 0 <= j < k :: Accepted(toks[j]))
      && ScanTokens(toks).failure == BadToken(toks[k])
  {
    ScanAccepts(toks);
    ScanFirstBad(toks);
  }

  /** The scan succeeds exactly when every token is accepted. */
  lemma {:induction false} ScanAccepts(toks: seq<string>)
    ensures ScanTokens(toks).Ok? <==> forall i | 0 <= i < |toks| :: Accepted(toks[i])
  {
    if |toks| > 0 && Accepted(toks[0]) {
      var rest := toks[1..];
      ScanAccepts(rest);
      assert forall i | 1 <= i < |toks| :: toks[i] == rest[i - 1];
    }
  }

  /** A failed scan names the first token that is not accepted. */
  lemma {:induction false} ScanFirstBad(toks: seq<string>)
    ensures ScanTokens(toks).Err? ==> exists k | 0 <= k < |toks| ::
      && !Accepted(toks[k])
      && (forall j | 0 <= j < k :: Accepted(toks[j]))
      && ScanTokens(toks).failure == BadToken(toks[k])
  {
    if |toks| > 0 && Accepted(toks[0]) && ScanTokens(toks).Err? {
      var rest := toks[1..];
      ScanFirstBad(rest);
      var k :| 0 <= k < |rest| && !Accepted(rest[k])
        && (forall j | 0 <= j < k :: Accepted(rest[j])) && ScanTokens(rest).failure == BadToken(rest[k]);
      assert toks[k + 1] == rest[k];
      assert forall j | 1 <= j < k + 1 :: toks[j] == rest[j - 1];
    }
  }

  /** `cli`: classify every argument after the program name, sort the bands
      into non-increasing order, and take the usage path when a token is
      bad or no band was given. */
  function Cli(args: seq<string>): (r: Result<Options>)
    ensures r == Err(MissingProgramName) <==> |args| == 0
    ensures |args| >= 1 && (exists i | 1 <= i < |args| :: !Accepted(args[i])) ==>
      r.Err? && r.failure.BadToken?
    ensures r.Ok? <==>
      && |args| >= 1
      && (forall i | 1 <= i < |args| :: Accepted(args[i]))
      && |NumericTokens(args[1..])| >= 1
    ensures r.Ok? ==> |r.value.bands| >= 1 && SortedDesc(r.value.bands)
    ensures r.Ok? ==> multiset(r.value.bands) == multiset(TokenValues(NumericTokens(args[1..])))
    ensures r.Ok? ==> (r.value.fullwave <==> "-f" in args[1..]) && (r.value.metric <==> "-m" in args[1..])
    ensures r == Err(NoBands) <==>
      && |args| >= 1
      && (forall i | 1 <= i < |args| :: Accepted(args[i]))
      && NumericTokens(args[1..]) == []
    ensures r.Err? && r.failure.BadToken? ==> exists k | 1 <= k < |args| ::
      && !Accepted(args[k])
      && (forall j | 1 <= j < k :: Accepted(args[j]))
      && r.failure == BadToken(args[k])
  {
    ClassifySuccess(args);
    ClassifyFailure(args);
    Classify(args)
  }

  /** The steps of `cli` in order: scan the tokens after the program name,
      sort the bands, and reject an empty band list. */
  function Classify(args: seq<string>): Result<Options> {
    if |args| == 0 then Err(MissingProgramName)
    else
      match ScanTokens(args[1..])
      case Err(e) => Err(e)
      case Ok(o) =>
        var bands := SortDesc(o.bands);
        if |bands| == 0 then Err(NoBands) else Ok(Options(bands, o.metric, o.fullwave))
  }

  /** When the classification succeeds, and when it stops for want of a band. */
  lemma ClassifySuccess(args: seq<string>)
    ensures var r := Classify(args);
      && (r.Ok? <==>
           && |args| >= 1
           && (forall i | 1 <= i < |args| :: Accepted(args[i]))
           && |NumericTokens(args[1..])| >= 1)
      && (r.Ok? ==> |r.value.bands| >= 1 && SortedDesc(r.value.bands))
      && (r.Ok? ==> multiset(r.value.bands) == multiset(TokenValues(NumericTokens(args[1..]))))
      && (r.Ok? ==> (r.value.fullwave <==> "-f" in args[1..]) && (r.value.metric <==> "-m" in args[1..]))
      && (r == Err(NoBands) <==>
           && |args| >= 1
           && (forall i | 1 <= i < |args| :: Accepted(args[i]))
           && NumericTokens(args[1..]) == [])
  {
    if |args| > 0 {
      var toks := args[1..];
      assert forall i | 1 <= i < |args| :: args[i] == toks[i - 1];
      ScanAccepts(toks);
      ScanBands(toks);
      ScanFlags(toks);
      if ScanTokens(toks).Ok? {
        var o := ScanTokens(toks).value;
        if |SortDesc(o.bands)| == 0 {
          assert |o.bands| == 0 by {
            assert |multiset(o.bands)| == 0;
          }
        }
      }
    }
  }

  /** Which failure the classification reports: a missing program name
      exactly for an empty argument list, and otherwise the first bad token
      whenever there is one. */
  lemma ClassifyFailure(args: seq<string>)
    ensures var r := Classify(args);
      && (r == Err(MissingProgramName) <==> |args| == 0)
      && (|args| >= 1 && (exists i | 1 <= i < |args| :: !Accepted(args[i])) ==>
           r.Err? && r.failure.BadToken?)
      && (r.Err? && r.failure.BadToken? ==> exists k | 1 <= k < |args| ::
           && !Accepted(args[k])
           && (forall j | 1 <= j < k :: Accepted(args[j]))
           && r.failure == BadToken(args[k]))
  {
    if |args| > 0 {
      var toks := args[1..];
      ScanAccepts(toks);
      ScanFirstBad(toks);
      if exists i | 1 <= i < |args| :: !Accepted(args[i]) {
        var i :| 1 <= i < |args| && !Accepted(args[i]);
        assert !Accepted(toks[i - 1]);
      }
      if ScanTokens(toks).Err? {
        var k :| 0 <= k < |toks| && !Accepted(toks[k])
          && (forall j | 0 <= j < k :: Accepted(toks[j])) && ScanTokens(toks).failure == BadToken(toks[k]);
        assert args[k + 1] == toks[k];
        assert forall j | 1 <= j < k + 1 :: args[j] == toks[j - 1];
      }
    }
  }

  /** Flags never enter the band list, and every band is a `u32`. */
  lemma {:induction false} BandsAreNumbers(toks: seq<string>)
    requires forall i | 0 <= i < |toks| :: Accepted(toks[i])
    ensures forall i | 0 <= i < |NumericTokens(toks)| ::
      !IsFlag(NumericTokens(toks)[i]) && ParseU32(NumericTokens(toks)[i]).Some?
    ensures forall b | b in TokenValues(NumericTokens(toks)) :: b <= MaxU32
  {
    if |toks| > 0 {
      BandsAreNumbers(toks[1..]);
    }
  }

  /** `endfed 40 -m` selects the 40 m band with metric output. */
  lemma FortyMetricArgs()
    ensures Cli(["endfed", "40", "-m"]) == Ok(Options([40], true, false))
  {
    var args := ["endfed", "40", "-m"];
    assert ParseU32("40") == Some(40) by {
      ParseToDecimal(40);
      assert ToDecimal(40) == "40";
    }
    assert args[1..] == ["40", "-m"];
    var toks := ["40", "-m"];
    assert toks[0] == "40" && toks[1..] == ["-m"];
    var o := Options([], true, false);
    assert ScanTokens(["-m"]) == Ok(o);
    assert "40" != "-f" && "40" != "-m" && Accepted("40");
    assert o.(bands := [40] + o.bands) == Options([40], true, false);
    assert ScanTokens(toks) == Ok(Options([40], true, false));
    assert SortDesc([40]) == [40];
  }
}
