/**
 * The parametric `_calculate_stats` and the record it feeds exactly as the
 * code builds them. Two things differ from the evidently intended table that
 * `Stats.ParamStats` models:
 *
 *  - the branch for a constant is taken for every parameter that is not a
 *    variable name, so an unset gammajsp becomes a column of `None`s, which
 *    the NaN test of `_instantiate_boundary` cannot inspect;
 *  - a constant is assigned to the table as a plain list, which xarray lays
 *    along a new dimension named after the parameter instead of along time,
 *    so selecting one time keeps every one of its copies and the NaN test
 *    meets several values at once.
 *
 * The lemmas below exhibit each failure on inputs the default configuration
 * produces, and prove that the intended table yields a record there.
 */
module Findings {
  import opened Wrappers
  import opened Series
  import opened Errors
  import opened Stats
  import opened Jons

  /**
   * A column of the table as the code builds it: a source variable along the
   * time index, or a list laid along its own dimension, one cell per copy
   * (`None` stands for Python's `None`).
   */
  datatype Column = AlongTime(values: seq<Value>) | OwnAxis(cells: seq<Option<Value>>)

  /** The table as built: the source times and the columns by name. */
  datatype Table = Table(times: seq<Instant>, cols: map<Name, Column>)

  /** Every column along time has one value per time. */
  predicate Fits(t: Table)
  {
    forall k :: k in t.cols && t.cols[k].AlongTime? ==> |t.cols[k].values| == |t.times|
  }

  /** The table has a time index only when some column came from the source along time. */
  predicate HasTimeIndex(t: Table)
  {
    exists k :: k in t.cols && t.cols[k].AlongTime?
  }

  /** The column one of the four parameters yields as written: a variable name, else `[value] * n`, whatever value is. */
  function ColumnAsWritten(ds: Dataset, o: Option<Setting>): (r: Result<Column, Error>)
    requires WellFormed(ds)
    ensures r.Err? <==> Unknown(ds, o)
    ensures r.Ok? && r.value.AlongTime? ==> |r.value.values| == |ds.times|
    ensures r.Ok? && r.value.OwnAxis? ==> |r.value.cells| == |ds.times|
  {
    match o
    case Some(Variable(v)) => if v in ds.vars then Ok(AlongTime(ds.vars[v])) else Err(UnknownVariable(v))
    case Some(Constant(c)) => Ok(OwnAxis(seq(|ds.times|, _ => Some(Num(c)))))
    case None => Ok(OwnAxis(seq(|ds.times|, _ => None)))
  }

  /**
   * `BoundaryStationParamJons._calculate_stats` as written: all four
   * parameters get a column, set or not; s is added when dspr is set, along
   * time for a variable name and along its own dimension for a constant.
   */
  function ParamStatsAsWritten(ds: Dataset, cfg: ParamConfig): (r: Result<Table, Error>)
    requires WellFormed(ds)
    ensures r.Ok? ==> Fits(r.value) && r.value.times == ds.times
    ensures r.Ok? ==> forall j :: 0 <= j < |ParamNames| ==> ParamNames[j] in r.value.cols
    ensures r.Ok? ==> ("s" in r.value.cols <==> cfg.dspr.Some?)
  {
    var hm0 :- ColumnAsWritten(ds, Some(cfg.hm0));
    var tp :- ColumnAsWritten(ds, Some(cfg.tp));
    var mainang :- ColumnAsWritten(ds, Some(cfg.mainang));
    var gammajsp :- ColumnAsWritten(ds, cfg.gammajsp);
    var m := map["hm0" := hm0, "tp" := tp, "mainang" := mainang, "gammajsp" := gammajsp];
    match cfg.dspr
    case None => Ok(Table(ds.times, m))
    case Some(Variable(v)) =>
      if v in ds.vars then Ok(Table(ds.times, m["s" := AlongTime(SColumn(ds.vars[v]))]))
      else Err(UnknownVariable(v))
    case Some(Constant(c)) => Ok(Table(ds.times, m["s" := OwnAxis(seq(|ds.times|, _ => Some(DsprToS(Num(c)))))]))
  }

  /**
   * The NaN test on one parameter of the selected row `i`: a column along
   * time gives its value there; a column on its own axis is seen whole,
   * which fails for `None` cells and for more than one cell.
   */
  function CellAsWritten(t: Table, i: nat, p: Name): (r: Result<Option<Value>, Error>)
    requires Fits(t) && i < |t.times|
    ensures r.Ok? && r.value.Some? ==> p in t.cols && !r.value.value.NaN?
    ensures p !in t.cols ==> r == Ok(None)
  {
    if p !in t.cols then Ok(None)
    else match t.cols[p]
      case AlongTime(vs) =>
        if vs[i].NaN? then Err(ParameterIsNaN(p, t.times[i])) else Ok(Some(vs[i]))
      case OwnAxis(cells) =>
        if None in cells then Err(ParameterNotNumeric(p))
        else if |cells| >= 2 then Err(AmbiguousTruth(p))
        else if cells == [] then Ok(None)
        else if cells[0].value.NaN? then Err(ParameterIsNaN(p, t.times[i]))
        else Ok(Some(cells[0].value))
  }

  /** The keyword arguments collected parameter by parameter, or the first failure. */
  function KwargsAsWritten(t: Table, i: nat, ps: seq<Name>): (r: Result<map<Name, Value>, Error>)
    requires Fits(t) && i < |t.times|
    ensures r.Ok? ==> forall p :: p in r.value ==> p in ps && p in t.cols && !r.value[p].NaN?
  {
    if ps == [] then Ok(map[])
    else
      var v :- CellAsWritten(t, i, ps[0]);
      var rest :- KwargsAsWritten(t, i, ps[1..]);
      Ok(if v.Some? then rest[ps[0] := v.value] else rest)
  }

  /**
   * `_instantiate_boundary(stats.sel(time=[times[i]]))` as written: the
   * selection needs a time index without repeated times and must leave one
   * time; then every present parameter passes the NaN test or the record is
   * refused.
   */
  function RecordAsWritten(cfg: JonsConfig, t: Table, i: nat): (r: Result<JonsRecord, Error>)
    requires Fits(t) && i < |t.times|
    ensures r.Ok? ==> HasTimeIndex(t) && Distinct(t.times) && r.value.bcfile == BcfileName(t.times[i])
    ensures r.Ok? ==> forall p :: p in r.value.params ==> p in JonsParams && !r.value.params[p].NaN?
    ensures HasTimeIndex(t) && !Distinct(t.times) ==> r == Err(NonUniqueIndex)
  {
    if !HasTimeIndex(t) then Err(NoTimeIndex)
    else if !Distinct(t.times) then Err(NonUniqueIndex)
    else
      var ps := Positions(t.times, t.times[i]);
      if |ps| != 1 then Err(NotSingleTime(|ps|))
      else
        var params :- KwargsAsWritten(t, ps[0], JonsParams);
        Ok(JonsRecord(BcfileName(t.times[i]), cfg.fnyq, cfg.dfj, params))
  }

  /** The collection stops at the first parameter that fails the NaN test, with that failure. */
  lemma {:induction false} KwargsFirstFailure(t: Table, i: nat, ps: seq<Name>, j: nat)
    requires Fits(t) && i < |t.times| && j < |ps|
    requires forall k :: 0 <= k < j ==> CellAsWritten(t, i, ps[k]).Ok?
    requires CellAsWritten(t, i, ps[j]).Err?
    ensures KwargsAsWritten(t, i, ps) == Err(CellAsWritten(t, i, ps[j]).error)
    decreases j
  {
    if j > 0 {
      KwargsFirstFailure(t, i, ps[1..], j - 1);
    }
  }

  /** When every parameter passes the NaN test, each one that yields a value is collected with it. */
  lemma {:induction false} KwargsAllPass(t: Table, i: nat, ps: seq<Name>)
    requires Fits(t) && i < |t.times|
    requires forall a, b :: 0 <= a < b < |ps| ==> ps[a] != ps[b]
    requires forall k :: 0 <= k < |ps| ==> CellAsWritten(t, i, ps[k]).Ok?
    ensures KwargsAsWritten(t, i, ps).Ok?
    ensures forall k :: 0 <= k < |ps| && CellAsWritten(t, i, ps[k]).value.Some? ==>
      && ps[k] in KwargsAsWritten(t, i, ps).value
      && KwargsAsWritten(t, i, ps).value[ps[k]] == CellAsWritten(t, i, ps[k]).value.value
  {
    if ps != [] {
      KwargsAllPass(t, i, ps[1..]);
      assert forall k :: 1 <= k < |ps| ==> ps[k] == ps[1..][k - 1] && ps[k] != ps[0];
    }
  }

  // ---------------------------------------------------------------------------
  // The inputs that show each difference.

  /** A parameter named after a source variable that is not NaN at row `i`. */
  predicate CleanAt(ds: Dataset, s: Setting, i: nat)
    requires WellFormed(ds) && i < |ds.times|
  {
    s.Variable? && s.name in ds.vars && !ds.vars[s.name][i].NaN?
  }

  /**
   * The shape of the default configuration at row `i`: hm0, tp and mainang
   * name source variables that hold numbers there, and dspr is unset, a
   * constant, or a source variable that holds a number there.
   */
  predicate CleanRow(ds: Dataset, cfg: ParamConfig, i: nat)
    requires WellFormed(ds) && i < |ds.times|
  {
    && CleanAt(ds, cfg.hm0, i) && CleanAt(ds, cfg.tp, i) && CleanAt(ds, cfg.mainang, i)
    && (cfg.dspr.None? || cfg.dspr.value.Constant? || CleanAt(ds, cfg.dspr.value, i))
  }

  /** The first three parameters of a clean row pass the NaN test at that row. */
  lemma CleanPrefix(ds: Dataset, cfg: ParamConfig, i: nat)
    requires WellFormed(ds) && i < |ds.times| && CleanRow(ds, cfg, i) && !Unknown(ds, cfg.gammajsp)
    ensures ParamStatsAsWritten(ds, cfg).Ok?
    ensures var t := ParamStatsAsWritten(ds, cfg).value;
      && HasTimeIndex(t)
      && CellAsWritten(t, i, "hm0") == Ok(Some(ds.vars[cfg.hm0.name][i]))
      && CellAsWritten(t, i, "tp") == Ok(Some(ds.vars[cfg.tp.name][i]))
      && CellAsWritten(t, i, "mainang") == Ok(Some(ds.vars[cfg.mainang.name][i]))
  {
    assert ParamStatsAsWritten(ds, cfg).Ok?;
    var t := ParamStatsAsWritten(ds, cfg).value;
    assert t.cols["hm0"].AlongTime?;
  }

  /**
   * As written, an unset gammajsp refuses every record of a clean row, on
   * one time as on many: the column of `None`s fails the NaN test.
   */
  lemma UnsetGammaRefused(cfg: JonsConfig, ds: Dataset, pc: ParamConfig, i: nat)
    requires WellFormed(ds) && Distinct(ds.times) && i < |ds.times|
    requires CleanRow(ds, pc, i) && pc.gammajsp.None?
    ensures ParamStatsAsWritten(ds, pc).Ok?
    ensures RecordAsWritten(cfg, ParamStatsAsWritten(ds, pc).value, i) == Err(ParameterNotNumeric("gammajsp"))
  {
    CleanPrefix(ds, pc, i);
    var t := ParamStatsAsWritten(ds, pc).value;
    PositionsOfDistinct(t.times, i);
    var cells := t.cols["gammajsp"].cells;
    assert cells[0] == None;
    assert CellAsWritten(t, i, "gammajsp") == Err(ParameterNotNumeric("gammajsp"));
    KwargsFirstFailure(t, i, JonsParams, 3);
  }

  /**
   * As written, the declared defaults refuse every record of a source whose
   * `hs`, `tp` and `dpm` hold numbers at the record's time.
   */
  lemma DefaultSettingsRefused(cfg: JonsConfig, ds: Dataset, i: nat)
    requires WellFormed(ds) && Distinct(ds.times) && i < |ds.times|
    requires forall v :: v in ["hs", "tp", "dpm"] ==> v in ds.vars && !ds.vars[v][i].NaN?
    ensures ParamStatsAsWritten(ds, DefaultParams).Ok?
    ensures RecordAsWritten(cfg, ParamStatsAsWritten(ds, DefaultParams).value, i) == Err(ParameterNotNumeric("gammajsp"))
  {
    assert "hs" in ["hs", "tp", "dpm"] && "tp" in ["hs", "tp", "dpm"] && "dpm" in ["hs", "tp", "dpm"];
    assert CleanRow(ds, DefaultParams, i);
    UnsetGammaRefused(cfg, ds, DefaultParams, i);
  }

  /**
   * As written, a constant gammajsp refuses every record of a clean row of
   * a sequence of two times or more: its column lies on its own axis, so the
   * selected row holds every copy of it.
   */
  lemma ConstantGammaAmbiguous(cfg: JonsConfig, ds: Dataset, pc: ParamConfig, i: nat, c: real)
    requires WellFormed(ds) && Distinct(ds.times) && i < |ds.times| && |ds.times| >= 2
    requires CleanRow(ds, pc, i) && pc.gammajsp == Some(Constant(c))
    ensures ParamStatsAsWritten(ds, pc).Ok?
    ensures RecordAsWritten(cfg, ParamStatsAsWritten(ds, pc).value, i) == Err(AmbiguousTruth("gammajsp"))
  {
    CleanPrefix(ds, pc, i);
    var t := ParamStatsAsWritten(ds, pc).value;
    PositionsOfDistinct(t.times, i);
    var cells := t.cols["gammajsp"].cells;
    assert None !in cells;
    assert CellAsWritten(t, i, "gammajsp") == Err(AmbiguousTruth("gammajsp"));
    KwargsFirstFailure(t, i, JonsParams, 3);
  }

  /**
   * As written, a constant gammajsp still reaches the record when the table
   * holds a single time, as in the single-record mode: its one copy passes
   * the NaN test.
   */
  lemma ConstantGammaSingleTime(cfg: JonsConfig, ds: Dataset, pc: ParamConfig, c: real)
    requires WellFormed(ds) && |ds.times| == 1
    requires CleanRow(ds, pc, 0) && pc.gammajsp == Some(Constant(c))
    ensures ParamStatsAsWritten(ds, pc).Ok?
    ensures var r := KwargsAsWritten(ParamStatsAsWritten(ds, pc).value, 0, JonsParams);
      r.Ok? && "gammajsp" in r.value && r.value["gammajsp"] == Num(c)
  {
    CleanPrefix(ds, pc, 0);
    var t := ParamStatsAsWritten(ds, pc).value;
    var cells := t.cols["gammajsp"].cells;
    assert cells == [Some(Num(c))];
    assert CellAsWritten(t, 0, "gammajsp") == Ok(Some(Num(c)));
    assert CellAsWritten(t, 0, "s").Ok? by {
      if pc.dspr.Some? && pc.dspr.value.Constant? {
        assert t.cols["s"].cells == [Some(DsprToS(Num(pc.dspr.value.value)))];
      }
    }
    var ps := JonsParams;
    assert ps == ["hm0", "tp", "mainang", "gammajsp", "s"];
    assert forall k :: 0 <= k < |ps| ==> CellAsWritten(t, 0, ps[k]).Ok?;
    KwargsAllPass(t, 0, ps);
    assert CellAsWritten(t, 0, ps[3]).value.Some?;
  }

  // ---------------------------------------------------------------------------
  // The intended table on the same inputs.

  /** On a clean row the intended table is built and keeps the source's times. */
  lemma CleanRowTable(ds: Dataset, pc: ParamConfig, i: nat)
    requires WellFormed(ds) && i < |ds.times| && CleanRow(ds, pc, i)
    requires pc.gammajsp.None? || pc.gammajsp.value.Constant?
    ensures ParamStats(ds, pc).Ok?
    ensures var t := ParamStats(ds, pc).value;
      && t.times == ds.times
      && "hm0" in t.vars && "tp" in t.vars && "mainang" in t.vars
      && t.vars["hm0"][i] == ds.vars[pc.hm0.name][i]
      && t.vars["tp"][i] == ds.vars[pc.tp.name][i]
      && t.vars["mainang"][i] == ds.vars[pc.mainang.name][i]
      && ("s" in t.vars ==> !t.vars["s"][i].NaN?)
  {
    var all := AllSettings(pc);
    assert forall j :: 0 <= j < |all| ==> !Unknown(ds, all[j]) by {
      assert all == [Some(pc.hm0), Some(pc.tp), Some(pc.mainang), pc.gammajsp, pc.dspr];
    }
    ParamStatsFailure(ds, pc);
    ParamStatsColumn(ds, pc, 0);
    ParamStatsColumn(ds, pc, 1);
    ParamStatsColumn(ds, pc, 2);
    ParamStatsS(ds, pc);
  }

  /**
   * Intended: an unset gammajsp is left out of the record, which is built
   * from the three named parameters (and s when dspr is set).
   */
  lemma UnsetGammaOmitted(cfg: JonsConfig, ds: Dataset, pc: ParamConfig, i: nat)
    requires WellFormed(ds) && Distinct(ds.times) && i < |ds.times|
    requires CleanRow(ds, pc, i) && pc.gammajsp.None?
    ensures ParamStats(ds, pc).Ok?
    ensures var r := RecordAt(cfg, ParamStats(ds, pc).value, i);
      && r.Ok? && "gammajsp" !in r.value.params
      && "hm0" in r.value.params && r.value.params["hm0"] == ds.vars[pc.hm0.name][i]
  {
    CleanRowTable(ds, pc, i);
    var t := ParamStats(ds, pc).value;
    assert "gammajsp" !in t.vars by {
      ParamStatsTable(ds, pc);
      assert ParamNames[3] == "gammajsp" && Settings(pc)[3].None?;
    }
    RecordAtRow(cfg, t, i);
    assert RecordAt(cfg, t, i).value.params == RowAt(t, i);
  }

  /**
   * Intended: a constant gammajsp is repeated along time, so the record of
   * every time holds it, however many times the sequence has.
   */
  lemma ConstantGammaBroadcast(cfg: JonsConfig, ds: Dataset, pc: ParamConfig, i: nat, c: real)
    requires WellFormed(ds) && Distinct(ds.times) && i < |ds.times|
    requires CleanRow(ds, pc, i) && pc.gammajsp == Some(Constant(c))
    ensures ParamStats(ds, pc).Ok?
    ensures var r := RecordAt(cfg, ParamStats(ds, pc).value, i);
      r.Ok? && r.value.params["gammajsp"] == Num(c)
  {
    CleanRowTable(ds, pc, i);
    var t := ParamStats(ds, pc).value;
    ParamStatsColumn(ds, pc, 3);
    RecordAtRow(cfg, t, i);
  }
}
