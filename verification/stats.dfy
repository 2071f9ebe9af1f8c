/**
 * The table of boundary parameters `_calculate_stats` builds from the
 * selected series (hm0, tp, mainang, gammajsp and the JONSWAP spreading
 * coefficient s), in its spectral and its parametric variant, and
 * `dspr_to_s`, which derives s from the directional spread.
 */
module Stats {
  import opened Wrappers
  import opened Series
  import opened Errors

  // ---------------------------------------------------------------------------
  // `dspr_to_s`.

  /** The double nearest to pi, by which `np.radians` scales (with 1/180). */
  const Pi: real := 884279719003555.0 / 281474976710656.0

  function Radians(deg: real): real
  {
    deg * Pi / 180.0
  }

  /**
   * `dspr_to_s` on one element, `2 / radians(dspr)**2 - 1` in IEEE
   * arithmetic: a zero spread divides by zero and gives +inf, an infinite
   * spread gives -1, and NaN stays NaN.
   */
  function DsprToS(dspr: Value): (s: Value)
    ensures s.NaN? <==> dspr.NaN?
    ensures s.Inf? <==> dspr == Num(0.0)
    ensures s.Inf? ==> s.positive
  {
    match dspr
    case Num(d) => if d == 0.0 then Inf(true) else Num(2.0 / (Radians(d) * Radians(d)) - 1.0)
    case NaN => NaN
    case Inf(_) => Num(-1.0)
  }

  /**
   * For a nonzero spread, s is finite, above -1, and `s + 1` times the
   * squared spread in radians is exactly 2: s determines the spread up to sign.
   */
  lemma DsprToSInverse(d: real)
    requires d != 0.0
    ensures var s := DsprToS(Num(d));
      && s.Num? && s.x > -1.0
      && (s.x + 1.0) * (Radians(d) * Radians(d)) == 2.0
  {
    var r := Radians(d);
    assert r != 0.0;
    assert r * r > 0.0;
    var q := 2.0 / (r * r);
    assert q > 0.0;
    assert q * (r * r) == 2.0;
  }

  /** The spread's sign does not matter. */
  lemma DsprToSSymmetric(d: real)
    ensures DsprToS(Num(-d)) == DsprToS(Num(d))
  {
    assert Radians(-d) == -Radians(d);
    assert Radians(-d) * Radians(-d) == Radians(d) * Radians(d);
  }

  /** A wider spread gives a smaller s: the narrower the spread, the more peaked the spectrum. */
  lemma DsprToSDecreasing(d1: real, d2: real)
    requires 0.0 < d1 < d2
    ensures DsprToS(Num(d1)).Num? && DsprToS(Num(d2)).Num?
    ensures DsprToS(Num(d1)).x > DsprToS(Num(d2)).x
  {
    var r1, r2 := Radians(d1), Radians(d2);
    assert 0.0 < r1 < r2;
    SquareIncreasing(r1, r2);
    HalvingDecreasing(r1 * r1, r2 * r2);
  }

  lemma SquareIncreasing(r1: real, r2: real)
    requires 0.0 < r1 < r2
    ensures 0.0 < r1 * r1 < r2 * r2
  {
    assert r1 * r1 < r1 * r2;
    assert r1 * r2 < r2 * r2;
  }

  lemma HalvingDecreasing(a: real, b: real)
    requires 0.0 < a < b
    ensures 2.0 / a > 2.0 / b
  {
    assert (2.0 / a) * a == 2.0 && (2.0 / b) * b == 2.0;
    assert (2.0 / b) * a < (2.0 / b) * b;
  }

  /** Element-wise `dspr_to_s` of a column. */
  function SColumn(dspr: seq<Value>): (s: seq<Value>)
    ensures |s| == |dspr| && forall i :: 0 <= i < |dspr| ==> s[i] == DsprToS(dspr[i])
  {
    seq(|dspr|, i requires 0 <= i < |dspr| => DsprToS(dspr[i]))
  }

  // ---------------------------------------------------------------------------
  // The spectral variant.

  /** The statistics the spectral variant asks of the spectra. */
  const SpectralRequest: set<Name> := {"hs", "tp", "dpm", "gamma", "dspr"}

  /**
   * The spectral library's statistics routine, applied time by time: it
   * returns one column per requested statistic along the same times. Its
   * numerics lie outside this model.
   */
  type SpectralStatistics = f: Dataset -> Dataset
    | forall ds :: WellFormed(f(ds)) && f(ds).times == ds.times && f(ds).vars.Keys == SpectralRequest
    witness (ds: Dataset) => Dataset(ds.times, map n | n in SpectralRequest :: seq(|ds.times|, _ => NaN))

  /** The name the spectral variant gives a statistic. */
  function SpectralName(stat: Name): Name
  {
    if stat == "hs" then "hm0"
    else if stat == "dpm" then "mainang"
    else if stat == "gamma" then "gammajsp"
    else stat
  }

  /**
   * `BoundaryStationSpectraJons._calculate_stats` after the statistics are
   * computed: s is added from dspr, then hs, dpm and gamma are renamed.
   */
  function SpectralStats(stats: Dataset): (r: Dataset)
    requires WellFormed(stats) && stats.vars.Keys == SpectralRequest
    ensures WellFormed(r) && r.times == stats.times
  {
    var v := stats.vars;
    Dataset(stats.times, map[
      "hm0" := v["hs"], "tp" := v["tp"], "mainang" := v["dpm"],
      "gammajsp" := v["gamma"], "dspr" := v["dspr"], "s" := SColumn(v["dspr"])])
  }

  /**
   * Every statistic survives under its new name with its values unchanged,
   * nothing else appears but s, and s is `dspr_to_s` of the spread.
   */
  lemma SpectralStatsRenames(stats: Dataset)
    requires WellFormed(stats) && stats.vars.Keys == SpectralRequest
    ensures var r := SpectralStats(stats);
      && r.vars.Keys == (set k | k in stats.vars :: SpectralName(k)) + {"s"}
      && (forall k :: k in stats.vars ==> r.vars[SpectralName(k)] == stats.vars[k])
      && forall i :: 0 <= i < |r.times| ==> r.vars["s"][i] == DsprToS(stats.vars["dspr"][i])
  {
    var names := set k | k in stats.vars :: SpectralName(k);
    assert "hs" in stats.vars && "tp" in stats.vars && "dpm" in stats.vars;
    assert "gamma" in stats.vars && "dspr" in stats.vars;
    assert names == {"hm0", "tp", "mainang", "gammajsp", "dspr"};
  }

  // ---------------------------------------------------------------------------
  // The parametric variant.

  /** A parametric setting: the name of a source variable, or one value for every time. */
  datatype Setting = Variable(name: Name) | Constant(value: real)

  /** The parameters of `BoundaryStationParamJons`; gammajsp and dspr may be left unset. */
  datatype ParamConfig = ParamConfig(
    hm0: Setting, tp: Setting, mainang: Setting,
    gammajsp: Option<Setting>, dspr: Option<Setting>)

  /** The declared defaults: hm0, tp and mainang read `hs`, `tp` and `dpm`; gammajsp and dspr are unset. */
  const DefaultParams: ParamConfig := ParamConfig(Variable("hs"), Variable("tp"), Variable("dpm"), None, None)

  /** The parameters filled in turn, before s. */
  const ParamNames: seq<Name> := ["hm0", "tp", "mainang", "gammajsp"]

  function Settings(cfg: ParamConfig): (ss: seq<Option<Setting>>)
    ensures |ss| == |ParamNames|
  {
    [Some(cfg.hm0), Some(cfg.tp), Some(cfg.mainang), cfg.gammajsp]
  }

  /** A setting that names a variable the source does not have. */
  predicate Unknown(ds: Dataset, o: Option<Setting>)
  {
    o.Some? && o.value.Variable? && o.value.name !in ds.vars
  }

  /** The column a setting yields: the named variable, or the constant once per time. */
  function Column(ds: Dataset, s: Setting): (r: Result<seq<Value>, Error>)
    requires WellFormed(ds)
    ensures r.Err? <==> Unknown(ds, Some(s))
    ensures r.Err? ==> r.error == UnknownVariable(s.name)
    ensures r.Ok? ==> |r.value| == |ds.times|
  {
    match s
    case Variable(v) => if v in ds.vars then Ok(ds.vars[v]) else Err(UnknownVariable(v))
    case Constant(c) => Ok(seq(|ds.times|, _ => Num(c)))
  }

  /** The columns of the set parameters among `names`, filled in order, or the first failure. */
  function Fill(ds: Dataset, names: seq<Name>, settings: seq<Option<Setting>>): (r: Result<map<Name, seq<Value>>, Error>)
    requires WellFormed(ds) && |names| == |settings|
    ensures r.Ok? ==> forall k :: k in r.value ==> k in names && |r.value[k]| == |ds.times|
    decreases |names|
  {
    if names == [] then Ok(map[])
    else
      var k := |names| - 1;
      var m :- Fill(ds, names[..k], settings[..k]);
      match settings[k]
      case None => Ok(m)
      case Some(s) =>
        var col :- Column(ds, s);
        Ok(m[names[k] := col])
  }

  /**
   * The intended parametric `_calculate_stats`: a named setting copies that
   * source variable, a constant is repeated once per time along the time
   * index, an unset gammajsp is left out, and s is present exactly when
   * dspr is set.
   */
  function ParamStats(ds: Dataset, cfg: ParamConfig): (r: Result<Dataset, Error>)
    requires WellFormed(ds)
    ensures r.Ok? ==> WellFormed(r.value) && r.value.times == ds.times
  {
    var m :- Fill(ds, ParamNames, Settings(cfg));
    match cfg.dspr
    case None => Ok(Dataset(ds.times, m))
    case Some(s) =>
      var dspr :- Column(ds, s);
      Ok(Dataset(ds.times, m["s" := SColumn(dspr)]))
  }

  /** A failure among the first `k` parameters is the failure of the whole fill. */
  lemma {:induction false} FillFailurePersists(ds: Dataset, names: seq<Name>, settings: seq<Option<Setting>>, k: nat)
    requires WellFormed(ds) && |names| == |settings| && k <= |names|
    requires Fill(ds, names[..k], settings[..k]).Err?
    ensures Fill(ds, names, settings) == Fill(ds, names[..k], settings[..k])
    decreases |names|
  {
    if k < |names| {
      var last := |names| - 1;
      assert names[..last][..k] == names[..k] && settings[..last][..k] == settings[..k];
      FillFailurePersists(ds, names[..last], settings[..last], k);
    } else {
      assert names[..k] == names && settings[..k] == settings;
    }
  }

  /**
   * The fill fails exactly when a setting names an unknown variable, and
   * then with the first such name.
   */
  lemma {:induction false} FillOutcome(ds: Dataset, names: seq<Name>, settings: seq<Option<Setting>>)
    requires WellFormed(ds) && |names| == |settings|
    ensures var r := Fill(ds, names, settings);
      && (r.Ok? <==> forall j :: 0 <= j < |settings| ==> !Unknown(ds, settings[j]))
      && (r.Err? ==>
            exists j :: (0 <= j < |settings| && Unknown(ds, settings[j])
              && (forall i :: 0 <= i < j ==> !Unknown(ds, settings[i]))
              && r.error == UnknownVariable(settings[j].value.name)))
    decreases |names|
  {
    if names != [] {
      var k := |names| - 1;
      var pn, ps := names[..k], settings[..k];
      FillOutcome(ds, pn, ps);
      assert forall j :: 0 <= j < k ==> ps[j] == settings[j];
    }
  }

  /** A successful fill leaves out every unset parameter. */
  lemma {:induction false} FillAbsent(ds: Dataset, names: seq<Name>, settings: seq<Option<Setting>>, j: nat)
    requires WellFormed(ds) && |names| == |settings| && j < |names| && settings[j].None?
    requires forall i, k :: 0 <= i < k < |names| ==> names[i] != names[k]
    requires Fill(ds, names, settings).Ok?
    ensures names[j] !in Fill(ds, names, settings).value
    decreases |names|
  {
    var k := |names| - 1;
    FillLast(ds, names, settings);
    if j < k {
      assert names[..k][j] == names[j] && settings[..k][j] == settings[j];
      FillAbsent(ds, names[..k], settings[..k], j);
      assert names[j] != names[k];
    } else {
      assert forall i :: 0 <= i < k ==> names[..k][i] != names[k];
    }
  }

  /** A successful fill holds the column of every set parameter under its name. */
  lemma {:induction false} FillAt(ds: Dataset, names: seq<Name>, settings: seq<Option<Setting>>, j: nat)
    requires WellFormed(ds) && |names| == |settings| && j < |names| && settings[j].Some?
    requires forall i, k :: 0 <= i < k < |names| ==> names[i] != names[k]
    requires Fill(ds, names, settings).Ok?
    ensures names[j] in Fill(ds, names, settings).value
    ensures Column(ds, settings[j].value).Ok?
    ensures Fill(ds, names, settings).value[names[j]] == Column(ds, settings[j].value).value
    decreases |names|
  {
    var k := |names| - 1;
    FillLast(ds, names, settings);
    if j < k {
      assert names[..k][j] == names[j] && settings[..k][j] == settings[j];
      FillAt(ds, names[..k], settings[..k], j);
      assert names[j] != names[k];
    }
  }

  /** A successful fill is the fill of all but the last parameter, with the last one's column added when it is set. */
  lemma FillLast(ds: Dataset, names: seq<Name>, settings: seq<Option<Setting>>)
    requires WellFormed(ds) && |names| == |settings| && names != []
    requires Fill(ds, names, settings).Ok?
    ensures var k := |names| - 1;
      var prefix := Fill(ds, names[..k], settings[..k]);
      && prefix.Ok?
      && (settings[k].None? ==> Fill(ds, names, settings).value == prefix.value)
      && (settings[k].Some? ==>
            && Column(ds, settings[k].value).Ok?
            && Fill(ds, names, settings).value == prefix.value[names[k] := Column(ds, settings[k].value).value])
  {
  }

  /** The full list of settings in the order they are read: the four parameters, then dspr. */
  function AllSettings(cfg: ParamConfig): seq<Option<Setting>>
  {
    Settings(cfg) + [cfg.dspr]
  }

  /**
   * The parametric table fails exactly when a setting names a variable the
   * source lacks, and then reports the first such name in the order hm0, tp,
   * mainang, gammajsp, dspr.
   */
  lemma ParamStatsFailure(ds: Dataset, cfg: ParamConfig)
    requires WellFormed(ds)
    ensures var r := ParamStats(ds, cfg);
      var all := AllSettings(cfg);
      && (r.Ok? <==> forall j :: 0 <= j < |all| ==> !Unknown(ds, all[j]))
      && (r.Err? ==>
            exists j :: (0 <= j < |all| && Unknown(ds, all[j])
              && (forall i :: 0 <= i < j ==> !Unknown(ds, all[i]))
              && r.error == UnknownVariable(all[j].value.name)))
  {
    var all := AllSettings(cfg);
    FillOutcome(ds, ParamNames, Settings(cfg));
    assert forall j :: 0 <= j < 4 ==> all[j] == Settings(cfg)[j];
    assert all[4] == cfg.dspr;
  }

  /**
   * The parametric table on success runs along the source's times, holds
   * only the four parameters and s, and holds a parameter exactly when it is
   * set (so an unset gammajsp is absent).
   */
  lemma ParamStatsTable(ds: Dataset, cfg: ParamConfig)
    requires WellFormed(ds) && ParamStats(ds, cfg).Ok?
    ensures var t := ParamStats(ds, cfg).value;
      && t.times == ds.times
      && t.vars.Keys <= {"hm0", "tp", "mainang", "gammajsp", "s"}
      && forall j :: 0 <= j < |ParamNames| ==> (ParamNames[j] in t.vars <==> Settings(cfg)[j].Some?)
  {
    var ss := Settings(cfg);
    assert Fill(ds, ParamNames, ss).Ok?;
    var m := Fill(ds, ParamNames, ss).value;
    assert "s" !in m;
    var t := ParamStats(ds, cfg).value;
    forall j | 0 <= j < |ParamNames| ensures ParamNames[j] in t.vars <==> ss[j].Some? {
      if ss[j].Some? {
        FillAt(ds, ParamNames, ss, j);
      } else {
        FillAbsent(ds, ParamNames, ss, j);
      }
    }
  }

  /**
   * The column of the `j`th parameter when it is set: a named parameter
   * copies the source variable, a constant one holds the constant at every
   * time.
   */
  lemma ParamStatsColumn(ds: Dataset, cfg: ParamConfig, j: nat)
    requires WellFormed(ds) && ParamStats(ds, cfg).Ok? && j < |ParamNames| && Settings(cfg)[j].Some?
    ensures var t := ParamStats(ds, cfg).value;
      var s := Settings(cfg)[j].value;
      && ParamNames[j] in t.vars
      && (s.Variable? ==> s.name in ds.vars && t.vars[ParamNames[j]] == ds.vars[s.name])
      && (s.Constant? ==> forall i :: 0 <= i < |ds.times| ==> t.vars[ParamNames[j]][i] == Num(s.value))
  {
    var ss := Settings(cfg);
    var t := ParamStats(ds, cfg).value;
    assert t.vars[ParamNames[j]] == Column(ds, ss[j].value).value by {
      ParamStatsKeepsFill(ds, cfg);
      FillAt(ds, ParamNames, ss, j);
    }
    ColumnValues(ds, ss[j].value);
  }

  /** A built table holds every column of the fill of the four parameters unchanged. */
  lemma ParamStatsKeepsFill(ds: Dataset, cfg: ParamConfig)
    requires WellFormed(ds) && ParamStats(ds, cfg).Ok?
    ensures Fill(ds, ParamNames, Settings(cfg)).Ok?
    ensures var m := Fill(ds, ParamNames, Settings(cfg)).value;
      forall k :: k in m ==> k in ParamStats(ds, cfg).value.vars && ParamStats(ds, cfg).value.vars[k] == m[k]
  {
    assert "s" !in Fill(ds, ParamNames, Settings(cfg)).value;
  }

  /** A named column is the source variable; a constant column holds the constant at every time. */
  lemma ColumnValues(ds: Dataset, s: Setting)
    requires WellFormed(ds) && Column(ds, s).Ok?
    ensures s.Variable? ==> s.name in ds.vars && Column(ds, s).value == ds.vars[s.name]
    ensures s.Constant? ==> forall i :: 0 <= i < |ds.times| ==> Column(ds, s).value[i] == Num(s.value)
  {
  }

  /** s is present exactly when dspr is set, and is then `dspr_to_s` of the spread at every time. */
  lemma ParamStatsS(ds: Dataset, cfg: ParamConfig)
    requires WellFormed(ds) && ParamStats(ds, cfg).Ok?
    ensures var t := ParamStats(ds, cfg).value;
      && ("s" in t.vars <==> cfg.dspr.Some?)
      && (cfg.dspr.Some? && cfg.dspr.value.Variable? ==>
            && cfg.dspr.value.name in ds.vars
            && forall i :: 0 <= i < |ds.times| ==> t.vars["s"][i] == DsprToS(ds.vars[cfg.dspr.value.name][i]))
      && (cfg.dspr.Some? && cfg.dspr.value.Constant? ==>
            forall i :: 0 <= i < |ds.times| ==> t.vars["s"][i] == DsprToS(Num(cfg.dspr.value.value)))
  {
    var m := Fill(ds, ParamNames, Settings(cfg)).value;
    assert "s" !in m;
  }

  /** Filling one more parameter after a successful fill of the ones before it. */
  lemma FillPrefixStep(ds: Dataset, names: seq<Name>, settings: seq<Option<Setting>>, i: nat)
    requires WellFormed(ds) && |names| == |settings| && i < |names|
    requires Fill(ds, names[..i], settings[..i]).Ok?
    ensures var m := Fill(ds, names[..i], settings[..i]).value;
      var next := Fill(ds, names[..i + 1], settings[..i + 1]);
      && (settings[i].None? ==> next == Ok(m))
      && (settings[i].Some? && Column(ds, settings[i].value).Ok? ==>
            next == Ok(m[names[i] := Column(ds, settings[i].value).value]))
      && (settings[i].Some? && Column(ds, settings[i].value).Err? ==>
            next == Err(Column(ds, settings[i].value).error))
  {
    assert names[..i + 1][..i] == names[..i] && settings[..i + 1][..i] == settings[..i];
  }

  /** `BoundaryStationParamJons._calculate_stats`: the table is filled parameter by parameter. */
  method CalculateParamStats(ds: Dataset, cfg: ParamConfig) returns (r: Result<Dataset, Error>)
    requires WellFormed(ds)
    ensures r == ParamStats(ds, cfg)
  {
    var settings := Settings(cfg);
    var stats: map<Name, seq<Value>> := map[];
    for i := 0 to |ParamNames|
      invariant Fill(ds, ParamNames[..i], settings[..i]) == Ok(stats)
    {
      FillPrefixStep(ds, ParamNames, settings, i);
      match settings[i] {
        case None =>
        case Some(Variable(v)) =>
          if v !in ds.vars {
            FillFailurePersists(ds, ParamNames, settings, i + 1);
            return Err(UnknownVariable(v));
          }
          stats := stats[ParamNames[i] := ds.vars[v]];
        case Some(Constant(c)) =>
          stats := stats[ParamNames[i] := seq(|ds.times|, _ => Num(c))];
      }
    }
    assert ParamNames[..|ParamNames|] == ParamNames && settings[..|settings|] == settings;
    match cfg.dspr {
      case None =>
      case Some(Variable(v)) =>
        if v !in ds.vars {
          return Err(UnknownVariable(v));
        }
        stats := stats["s" := SColumn(ds.vars[v])];
      case Some(Constant(c)) =>
        stats := stats["s" := SColumn(seq(|ds.times|, _ => Num(c)))];
    }
    r := Ok(Dataset(ds.times, stats));
  }

  // ---------------------------------------------------------------------------
  // Either variant.

  /** Where a boundary takes its parameters from. */
  datatype Variant = Spectral(statistics: SpectralStatistics) | Parametric(cfg: ParamConfig)

  /** `_calculate_stats` of either variant: a parameter table along the input's times. */
  function StatsOf(v: Variant, ds: Dataset): (r: Result<Dataset, Error>)
    requires WellFormed(ds)
    ensures r.Ok? ==> WellFormed(r.value) && r.value.times == ds.times
  {
    match v
    case Spectral(f) => Ok(SpectralStats(f(ds)))
    case Parametric(cfg) => ParamStats(ds, cfg)
  }

  method CalculateStats(v: Variant, ds: Dataset) returns (r: Result<Dataset, Error>)
    requires WellFormed(ds)
    ensures r == StatsOf(v, ds)
  {
    match v {
      case Spectral(f) =>
        r := Ok(SpectralStats(f(ds)));
      case Parametric(cfg) =>
        r := CalculateParamStats(ds, cfg);
    }
  }
}
