/**
 * The station JONSWAP boundary (`BoundaryStationJons`): one boundary record
 * per instant (`_instantiate_boundary`), the `FILELIST` index of a record
 * sequence (`_write_filelist`), and `get`, which emits either one record at
 * the start of the time range or one record per interval of the padded
 * series.
 */
module Jons {
  import opened Wrappers
  import opened Series
  import opened Errors
  import opened Timestamp
  import opened BCFiles
  import opened Text
  import opened Station
  import opened Stats

  /** The parameters a JONSWAP record takes, in the order they are read. */
  const JonsParams: seq<Name> := ["hm0", "tp", "mainang", "gammajsp", "s"]

  /** The settings of a station JONSWAP boundary that the emission reads. */
  datatype JonsConfig = JonsConfig(fnyq: Option<real>, dfj: Option<real>, filelist: Option<bool>, dbtc: Option<real>)

  /** A JONSWAP boundary record: its file name, frequency settings and wave parameters. */
  datatype JonsRecord = JonsRecord(bcfile: string, fnyq: Option<real>, dfj: Option<real>, params: map<Name, Value>)

  // ---------------------------------------------------------------------------
  // Record file names.

  /** `jons-<%Y%m%dT%H%M%S>.txt`. */
  function BcfileName(t: Instant): string
  {
    "jons-" + Stamp(t) + ".txt"
  }

  /** The file name depends on the instant alone and tells distinct instants apart. */
  lemma BcfileNameInjective(t1: Instant, t2: Instant)
    requires BcfileName(t1) == BcfileName(t2)
    ensures t1 == t2
  {
    var n := BcfileName(t1);
    assert Stamp(t1) == n[5..|n| - 4];
    assert Stamp(t2) == n[5..|n| - 4];
    StampInjective(t1, t2);
  }

  /** A file name holds neither a blank nor a line break, so a file list line keeps its three fields. */
  lemma BcfileNamePlain(t: Instant)
    ensures ' ' !in BcfileName(t) && '\n' !in BcfileName(t)
  {
    StampCharacters(t);
    var n := BcfileName(t);
    assert forall i :: 0 <= i < |n| ==> n[i] != ' ' && n[i] != '\n' by {
      forall i | 0 <= i < |n| ensures n[i] != ' ' && n[i] != '\n' {
        if 5 <= i < |n| - 4 {
          assert n[i] == Stamp(t)[i - 5];
        }
      }
    }
  }

  // ---------------------------------------------------------------------------
  // `_instantiate_boundary`.

  /** The parameter `p` is present and NaN at the first time of `data`. */
  predicate IsNaNAt(data: Dataset, p: Name)
  {
    p in data.vars && |data.vars[p]| > 0 && data.vars[p][0].NaN?
  }

  /** The first of `ps` that is present and NaN. */
  function FirstNaN(data: Dataset, ps: seq<Name>): (r: Option<Name>)
    ensures r.None? <==> forall k :: 0 <= k < |ps| ==> !IsNaNAt(data, ps[k])
    ensures r.Some? ==> exists j :: (0 <= j < |ps| && ps[j] == r.value && IsNaNAt(data, ps[j])
      && forall i :: 0 <= i < j ==> !IsNaNAt(data, ps[i]))
  {
    if ps == [] then None
    else if IsNaNAt(data, ps[0]) then Some(ps[0])
    else
      var r := FirstNaN(data, ps[1..]);
      assert r.Some? ==> exists j :: 0 <= j < |ps| - 1 && ps[1..][j] == r.value;
      r
  }

  /** The parameters at row `i`: every one of `JonsParams` the dataset holds, with its value there. */
  function RowAt(ds: Dataset, i: nat): map<Name, Value>
    requires WellFormed(ds) && i < |ds.times|
  {
    map p | p in JonsParams && p in ds.vars :: ds.vars[p][i]
  }

  /** The parameters of the record built from a one-row dataset. */
  function RowParams(data: Dataset): map<Name, Value>
    requires WellFormed(data) && |data.times| == 1
  {
    RowAt(data, 0)
  }

  /**
   * `_instantiate_boundary`: the data must hold exactly one time; a present
   * NaN parameter is refused with the first such name; otherwise the record
   * takes every present parameter and is named after the time.
   */
  function Instantiated(cfg: JonsConfig, data: Dataset): (r: Result<JonsRecord, Error>)
    requires WellFormed(data)
    ensures r.Ok? ==> |data.times| == 1 && r.value.bcfile == BcfileName(data.times[0])
  {
    if |data.times| != 1 then Err(NotSingleTime(|data.times|))
    else
      match FirstNaN(data, JonsParams)
      case Some(p) => Err(ParameterIsNaN(p, data.times[0]))
      case None => Ok(JonsRecord(BcfileName(data.times[0]), cfg.fnyq, cfg.dfj, RowParams(data)))
  }

  /**
   * The NaN policy: a record is built exactly when the data holds one time
   * and no present parameter is NaN there. The record then holds exactly the
   * present parameters with their values, none of them NaN, and the
   * frequency settings; a refusal names the first NaN parameter and the time.
   */
  lemma InstantiatedPolicy(cfg: JonsConfig, data: Dataset)
    requires WellFormed(data)
    ensures var r := Instantiated(cfg, data);
      && (r.Ok? <==> |data.times| == 1 && forall k :: 0 <= k < |JonsParams| ==> !IsNaNAt(data, JonsParams[k]))
      && (|data.times| != 1 ==> r == Err(NotSingleTime(|data.times|)))
      && (|data.times| == 1 && r.Err? ==>
            exists j :: (0 <= j < |JonsParams| && IsNaNAt(data, JonsParams[j])
              && (forall i :: 0 <= i < j ==> !IsNaNAt(data, JonsParams[i]))
              && r.error == ParameterIsNaN(JonsParams[j], data.times[0])))
      && (r.Ok? ==>
            && r.value.params.Keys == (set p | p in JonsParams && p in data.vars)
            && (forall p :: p in r.value.params ==> r.value.params[p] == data.vars[p][0] && !r.value.params[p].NaN?)
            && r.value.fnyq == cfg.fnyq && r.value.dfj == cfg.dfj)
  {
  }

  /** The parameters of a one-row dataset are the map holding each present parameter with its value. */
  lemma RowParamsAre(data: Dataset, kwargs: map<Name, Value>)
    requires WellFormed(data) && |data.times| == 1
    requires forall p :: p in kwargs <==> p in JonsParams && p in data.vars
    requires forall p :: p in kwargs ==> kwargs[p] == data.vars[p][0]
    ensures kwargs == RowParams(data)
  {
  }

  /** `_instantiate_boundary` as the code runs it: the keyword arguments are collected parameter by parameter. */
  method InstantiateBoundary(cfg: JonsConfig, data: Dataset) returns (r: Result<JonsRecord, Error>)
    requires WellFormed(data)
    ensures r == Instantiated(cfg, data)
  {
    if |data.times| != 1 {
      return Err(NotSingleTime(|data.times|));
    }
    var t := data.times[0];
    var kwargs: map<Name, Value> := map[];
    for i := 0 to |JonsParams|
      invariant FirstNaN(data, JonsParams) == FirstNaN(data, JonsParams[i..])
      invariant forall p :: p in kwargs <==> p in JonsParams[..i] && p in data.vars
      invariant forall p :: p in kwargs ==> kwargs[p] == data.vars[p][0]
    {
      var param := JonsParams[i];
      assert JonsParams[i..][1..] == JonsParams[i + 1..];
      assert JonsParams[..i + 1] == JonsParams[..i] + [param];
      if param in data.vars && !data.vars[param][0].NaN? {
        kwargs := kwargs[param := data.vars[param][0]];
      } else if param in data.vars && data.vars[param][0].NaN? {
        return Err(ParameterIsNaN(param, t));
      }
    }
    assert JonsParams[..|JonsParams|] == JonsParams;
    RowParamsAre(data, kwargs);
    r := Ok(JonsRecord(BcfileName(t), cfg.fnyq, cfg.dfj, kwargs));
  }

  // ---------------------------------------------------------------------------
  // `_write_filelist`.

  /** `%g` formatting of a float; its digits lie outside this model, but it writes no blank and no line break. */
  type Format = g: real -> string | forall x :: ' ' !in g(x) && '\n' !in g(x) witness (x: real) => "0"

  /** A text file: where it is written and its lines. */
  datatype TextFile = TextFile(path: FilePath, lines: seq<string>)

  function Min(a: nat, b: nat): nat
  {
    if a <= b then a else b
  }

  /** One line of the file list: duration, boundary timestep and file name, separated by blanks. */
  function FilelistLine(g: Format, duration: real, dbtc: real, name: string): string
  {
    g(duration) + " " + g(dbtc) + " " + name
  }

  /**
   * The file list `_write_filelist` writes: `FILELIST`, then one line per
   * (file, duration) pair, as many as the shorter list has. An unset
   * timestep cannot be formatted, so it fails as soon as there is a line.
   */
  function Filelist(g: Format, destdir: string, bcfiles: seq<FilePath>, durations: seq<real>, dbtc: Option<real>)
    : (r: Result<TextFile, Error>)
    ensures r.Ok? ==> r.value.path == FilePath(destdir, "filelist.txt")
  {
    var n := Min(|bcfiles|, |durations|);
    if n == 0 then Ok(TextFile(FilePath(destdir, "filelist.txt"), ["FILELIST"]))
    else if dbtc.None? then Err(TimestepUnset)
    else Ok(TextFile(FilePath(destdir, "filelist.txt"), ["FILELIST"] + FilelistEntries(g, bcfiles, durations, dbtc.value)))
  }

  /** The lines after the header: one per zipped (file, duration) pair. */
  function FilelistEntries(g: Format, bcfiles: seq<FilePath>, durations: seq<real>, dbtc: real): (lines: seq<string>)
    ensures |lines| == Min(|bcfiles|, |durations|)
  {
    var n := Min(|bcfiles|, |durations|);
    seq(n, i requires 0 <= i < n => FilelistLine(g, durations[i], dbtc, bcfiles[i].name))
  }

  /**
   * The file list layout: the header, then 1 + min(#files, #durations) lines
   * in all; splitting line i + 1 at its blanks gives back the formatted
   * duration, the formatted timestep and the name of file i. It fails
   * exactly when there is a line to write and the timestep is unset.
   */
  lemma FilelistLayout(g: Format, destdir: string, bcfiles: seq<FilePath>, durations: seq<real>, dbtc: Option<real>)
    requires forall k :: 0 <= k < |bcfiles| ==> ' ' !in bcfiles[k].name
    ensures var r := Filelist(g, destdir, bcfiles, durations, dbtc);
      var n := Min(|bcfiles|, |durations|);
      && (r.Err? <==> n > 0 && dbtc.None?)
      && (r.Err? ==> r.error == TimestepUnset)
      && (r.Ok? ==>
            && |r.value.lines| == 1 + n
            && r.value.lines[0] == "FILELIST"
            && forall i :: 0 <= i < n ==>
                 Split(r.value.lines[i + 1], ' ') == [g(durations[i]), g(dbtc.value), bcfiles[i].name])
  {
    var n := Min(|bcfiles|, |durations|);
    var r := Filelist(g, destdir, bcfiles, durations, dbtc);
    if r.Ok? {
      forall i | 0 <= i < n
        ensures Split(r.value.lines[i + 1], ' ') == [g(durations[i]), g(dbtc.value), bcfiles[i].name]
      {
        var parts := [g(durations[i]), g(dbtc.value), bcfiles[i].name];
        assert Join(parts, ' ') == r.value.lines[i + 1] by {
          assert Join(parts[2..], ' ') == bcfiles[i].name;
        }
        SplitJoin(parts, ' ');
      }
    }
  }

  /** Reading the written file list back line by line recovers its lines, when no file name holds a line break. */
  lemma FilelistReadsBack(g: Format, destdir: string, bcfiles: seq<FilePath>, durations: seq<real>, dbtc: Option<real>)
    requires forall k :: 0 <= k < |bcfiles| ==> '\n' !in bcfiles[k].name
    requires Filelist(g, destdir, bcfiles, durations, dbtc).Ok?
    ensures var f := Filelist(g, destdir, bcfiles, durations, dbtc).value;
      Split(FileText(f.lines), '\n') == f.lines + [""]
  {
    var f := Filelist(g, destdir, bcfiles, durations, dbtc).value;
    forall k | 0 <= k < |f.lines| ensures '\n' !in f.lines[k] {
      if k > 0 {
        var line := f.lines[k];
        var i := k - 1;
        assert line == g(durations[i]) + " " + g(dbtc.value) + " " + bcfiles[i].name;
      }
    }
    FileTextLines(f.lines);
  }

  /** `_write_filelist` as the code runs it: the header, then one line per zipped pair. */
  method WriteFilelist(g: Format, destdir: string, bcfiles: seq<FilePath>, durations: seq<real>, dbtc: Option<real>)
    returns (r: Result<TextFile, Error>)
    ensures r == Filelist(g, destdir, bcfiles, durations, dbtc)
  {
    var filename := FilePath(destdir, "filelist.txt");
    var lines := ["FILELIST"];
    var n := Min(|bcfiles|, |durations|);
    for i := 0 to n
      invariant |lines| == 1 + i && lines[0] == "FILELIST"
      invariant i > 0 ==> dbtc.Some?
      invariant forall k :: 0 <= k < i ==> lines[k + 1] == FilelistLine(g, durations[k], dbtc.value, bcfiles[k].name)
    {
      if dbtc.None? {
        return Err(TimestepUnset);
      }
      lines := lines + [FilelistLine(g, durations[i], dbtc.value, bcfiles[i].name)];
    }
    if n > 0 {
      var body := FilelistEntries(g, bcfiles, durations, dbtc.value);
      assert forall k :: 0 <= k < n ==> lines[k + 1] == body[k];
      assert lines == ["FILELIST"] + body;
    } else {
      assert lines == ["FILELIST"];
    }
    r := Ok(TextFile(filename, lines));
  }

  // ---------------------------------------------------------------------------
  // The record sequence.

  /** `(t1 - t0).total_seconds()`. */
  function Duration(t0: Instant, t1: Instant): real
  {
    (t1 - t0) as real
  }

  /** The duration between each pair of consecutive times. */
  function Durations(times: seq<Instant>): (d: seq<real>)
    ensures |d| == if times == [] then 0 else |times| - 1
  {
    if |times| <= 1 then []
    else seq(|times| - 1, i requires 0 <= i < |times| - 1 => Duration(times[i], times[i + 1]))
  }

  /** The durations up to the pair starting at `i` extend those before it by that pair's duration. */
  lemma DurationsStep(times: seq<Instant>, i: nat)
    requires i + 1 < |times|
    ensures Durations(times)[..i + 1] == Durations(times)[..i] + [Duration(times[i], times[i + 1])]
  {
  }

  function Sum(xs: seq<real>): real
  {
    if xs == [] then 0.0 else Sum(xs[..|xs| - 1]) + xs[|xs| - 1]
  }

  /** The durations telescope: together they span from the first time to the last. */
  lemma {:induction false} DurationsTelescope(times: seq<Instant>)
    requires |times| > 0
    ensures Sum(Durations(times)) == (times[|times| - 1] - times[0]) as real
  {
    if |times| > 1 {
      var k := |times| - 1;
      var prefix := times[..k];
      DurationsTelescope(prefix);
      var d := Durations(times);
      assert d[..|d| - 1] == Durations(prefix);
    }
  }

  /** Consecutive times of an increasing series are separated by positive durations. */
  lemma DurationsPositive(times: seq<Instant>)
    requires StrictlyIncreasing(times)
    ensures forall i :: 0 <= i < |Durations(times)| ==> Durations(times)[i] > 0.0
  {
  }

  /** The outcomes in order, or the first refusal among them: a loop that stops at its first error. */
  function Collect<T>(rs: seq<Result<T, Error>>): (r: Result<seq<T>, Error>)
    ensures r.Ok? ==> |r.value| == |rs|
  {
    if rs == [] then Ok([])
    else
      var prev :- Collect(rs[..|rs| - 1]);
      var x :- rs[|rs| - 1];
      Ok(prev + [x])
  }

  /** Collecting succeeds exactly when every outcome does, and then keeps them in order. */
  lemma {:induction false} CollectElements<T>(rs: seq<Result<T, Error>>)
    ensures Collect(rs).Ok? <==> forall i :: 0 <= i < |rs| ==> rs[i].Ok?
    ensures Collect(rs).Ok? ==> forall i :: 0 <= i < |rs| ==> Collect(rs).value[i] == rs[i].value
  {
    if rs != [] {
      var init := rs[..|rs| - 1];
      CollectElements(init);
      assert forall i :: 0 <= i < |init| ==> init[i] == rs[i];
    }
  }

  /** A refusal of collecting is the refusal of the first outcome that is one. */
  lemma {:induction false} CollectFirstRefusal<T>(rs: seq<Result<T, Error>>)
    requires Collect(rs).Err?
    ensures exists j :: (0 <= j < |rs| && rs[j].Err? && Collect(rs).error == rs[j].error
      && forall i :: 0 <= i < j ==> rs[i].Ok?)
  {
    var init := rs[..|rs| - 1];
    assert forall i :: 0 <= i < |init| ==> init[i] == rs[i];
    if Collect(init).Err? {
      CollectFirstRefusal(init);
    } else {
      CollectElements(init);
      assert rs[|rs| - 1].Err?;
    }
  }

  /** One more outcome: collecting extends the collected prefix or stops at its refusal. */
  lemma CollectStep<T>(rs: seq<Result<T, Error>>, i: nat)
    requires i < |rs|
    ensures Collect(rs[..i + 1]) ==
      if Collect(rs[..i]).Err? then Collect(rs[..i])
      else if rs[i].Err? then Err(rs[i].error)
      else Ok(Collect(rs[..i]).value + [rs[i].value])
  {
    assert rs[..i + 1][..i] == rs[..i];
  }

  /** A refusal among the first `k` outcomes is the refusal of the whole collection. */
  lemma {:induction false} CollectFailurePersists<T>(rs: seq<Result<T, Error>>, k: nat)
    requires k <= |rs| && Collect(rs[..k]).Err?
    ensures Collect(rs) == Collect(rs[..k])
    decreases |rs|
  {
    if k < |rs| {
      var init := rs[..|rs| - 1];
      assert init[..k] == rs[..k];
      CollectFailurePersists(init, k);
    } else {
      assert rs[..k] == rs;
    }
  }

  /**
   * The record for time `i`: `_instantiate_boundary` on the selection of
   * that time label, which an index with a repeated time refuses.
   */
  function RecordAt(cfg: JonsConfig, stats: Dataset, i: nat): (r: Result<JonsRecord, Error>)
    requires WellFormed(stats) && i < |stats.times|
    ensures r.Ok? ==> Distinct(stats.times) && r.value.bcfile == BcfileName(stats.times[i])
    ensures !Distinct(stats.times) ==> r == Err(NonUniqueIndex)
  {
    if !Distinct(stats.times) then Err(NonUniqueIndex)
    else Instantiated(cfg, SelectAt(stats, stats.times[i]))
  }

  /** The outcome for every time but the last: `zip(times[:-1], times[1:])` pairs each with the next. */
  function RecordOutcomes(cfg: JonsConfig, stats: Dataset): (rs: seq<Result<JonsRecord, Error>>)
    requires WellFormed(stats)
    ensures |rs| == if stats.times == [] then 0 else |stats.times| - 1
  {
    var n := if stats.times == [] then 0 else |stats.times| - 1;
    seq(n, i requires 0 <= i < n => RecordAt(cfg, stats, i))
  }

  /** The records of the sequence, or the first refusal. */
  function Records(cfg: JonsConfig, stats: Dataset): (r: Result<seq<JonsRecord>, Error>)
    requires WellFormed(stats)
    ensures r.Ok? ==> |r.value| == if stats.times == [] then 0 else |stats.times| - 1
  {
    Collect(RecordOutcomes(cfg, stats))
  }

  /** Outcome `i` of the sequence is the record for time `i`. */
  lemma RecordOutcomeAt(cfg: JonsConfig, stats: Dataset, i: nat)
    requires WellFormed(stats) && i < |RecordOutcomes(cfg, stats)|
    ensures RecordOutcomes(cfg, stats)[i] == RecordAt(cfg, stats, i)
  {
  }

  /**
   * The sequence is built exactly when each of its times gives a record,
   * and then keeps them in order; a refusal is that of the first time
   * refused.
   */
  lemma RecordsElements(cfg: JonsConfig, stats: Dataset)
    requires WellFormed(stats)
    ensures var rs := RecordOutcomes(cfg, stats);
      && (Records(cfg, stats).Ok? <==> forall i :: 0 <= i < |rs| ==> rs[i].Ok?)
      && (Records(cfg, stats).Ok? ==> forall i :: 0 <= i < |rs| ==> Records(cfg, stats).value[i] == rs[i].value)
      && (Records(cfg, stats).Err? ==> exists j :: (0 <= j < |rs| && rs[j].Err? && Records(cfg, stats).error == rs[j].error
            && forall i :: 0 <= i < j ==> rs[i].Ok?))
  {
    var rs := RecordOutcomes(cfg, stats);
    CollectElements(rs);
    if Records(cfg, stats).Err? {
      CollectFirstRefusal(rs);
    }
  }

  /** Record `i` of a built sequence is the record for time `i`, so it is named after that time. */
  lemma RecordOfSequence(cfg: JonsConfig, stats: Dataset, i: nat)
    requires WellFormed(stats) && Records(cfg, stats).Ok? && i < |Records(cfg, stats).value|
    ensures RecordAt(cfg, stats, i).Ok?
    ensures Records(cfg, stats).value[i] == RecordAt(cfg, stats, i).value
    ensures Records(cfg, stats).value[i].bcfile == BcfileName(stats.times[i])
  {
    RecordsElements(cfg, stats);
    RecordOutcomeAt(cfg, stats, i);
  }

  /** Selecting the label of row `i` of an index without repeated times gives row `i`'s parameters. */
  lemma RowOfSelection(stats: Dataset, i: nat)
    requires WellFormed(stats) && Distinct(stats.times) && i < |stats.times|
    ensures var data := SelectAt(stats, stats.times[i]);
      |data.times| == 1 && RowParams(data) == RowAt(stats, i)
  {
    SelectAtRow(stats, i);
  }

  /**
   * On an index without repeated times, the record for time `i` is refused
   * exactly when a present parameter is NaN at row `i`; otherwise it holds
   * exactly the parameters present at row `i`, none NaN, and the frequency
   * settings.
   */
  lemma RecordAtRow(cfg: JonsConfig, stats: Dataset, i: nat)
    requires WellFormed(stats) && Distinct(stats.times) && i < |stats.times|
    ensures var r := RecordAt(cfg, stats, i);
      && (r.Ok? <==> forall p :: p in JonsParams && p in stats.vars ==> !stats.vars[p][i].NaN?)
      && (r.Ok? ==>
            && r.value.params == RowAt(stats, i)
            && (forall p :: p in r.value.params ==> !r.value.params[p].NaN?)
            && r.value.fnyq == cfg.fnyq && r.value.dfj == cfg.dfj)
  {
    var data := SelectAt(stats, stats.times[i]);
    RowOfSelection(stats, i);
    SelectAtRow(stats, i);
    InstantiatedPolicy(cfg, data);
    forall k | 0 <= k < |JonsParams| ensures IsNaNAt(data, JonsParams[k]) <==> JonsParams[k] in stats.vars && stats.vars[JonsParams[k]][i].NaN? {
    }
  }

  /** On an index without repeated times, records of distinct times have distinct file names. */
  lemma RecordNamesDistinct(cfg: JonsConfig, stats: Dataset)
    requires WellFormed(stats) && Distinct(stats.times) && Records(cfg, stats).Ok?
    ensures var recs := Records(cfg, stats).value;
      forall i, j :: 0 <= i < j < |recs| ==> recs[i].bcfile != recs[j].bcfile
  {
    var recs := Records(cfg, stats).value;
    forall i, j | 0 <= i < j < |recs| ensures recs[i].bcfile != recs[j].bcfile {
      RecordOfSequence(cfg, stats, i);
      RecordOfSequence(cfg, stats, j);
      if recs[i].bcfile == recs[j].bcfile {
        BcfileNameInjective(stats.times[i], stats.times[j]);
      }
    }
  }

  // ---------------------------------------------------------------------------
  // `get`.

  /** A station JONSWAP boundary: coordinate names, whether to crop, JONSWAP settings and parameter source. */
  datatype Boundary = Boundary(coords: Coords, cropData: bool, jons: JonsConfig, variant: Variant)

  /** What `get` produces: the records it writes, the file list if it writes one, and the namelist it returns. */
  datatype Emission = Emission(records: seq<JonsRecord>, index: Option<TextFile>, namelist: map<string, string>)

  /** Where a record is written: `WaveBoundaryJons.write` puts it under its own name in the output directory. */
  function RecordPath(destdir: string, rec: JonsRecord): FilePath
  {
    FilePath(destdir, rec.bcfile)
  }

  /** Where each record of a sequence is written. */
  function RecordPaths(destdir: string, recs: seq<JonsRecord>): (paths: seq<FilePath>)
    ensures |paths| == |recs| && forall i :: 0 <= i < |recs| ==> paths[i] == RecordPath(destdir, recs[i])
  {
    seq(|recs|, i requires 0 <= i < |recs| => RecordPath(destdir, recs[i]))
  }

  /** One more record adds its path at the end. */
  lemma RecordPathsStep(destdir: string, recs: seq<JonsRecord>, rec: JonsRecord)
    ensures RecordPaths(destdir, recs + [rec]) == RecordPaths(destdir, recs) + [RecordPath(destdir, rec)]
  {
  }

  /** Single-file mode: one record from the series interpolated, without extrapolation, at the start. */
  function EmitSingle(b: Boundary, destdir: string, ds: Dataset, interp: Interpolant, tr: TimeRange): (r: Result<Emission, Error>)
    requires WellFormed(ds)
    ensures r.Ok? ==> && |r.value.records| == 1 && r.value.index.None?
                      && r.value.namelist == map["bcfile" := r.value.records[0].bcfile]
  {
    var stats :- StatsOf(b.variant, InterpAt(ds, WithinSpan(ds, interp), tr.start));
    var rec :- Instantiated(b.jons, stats);
    Ok(Emission([rec], None, Namelist(BCFile(Some(RecordPath(destdir, rec)), None))))
  }

  /**
   * Sequence mode: the padded series' parameter table, one record per time
   * but the last, and the file list pairing each record with the time to
   * the next.
   */
  function EmitSequence(b: Boundary, g: Format, destdir: string, ds: Dataset, interp: Interpolant, tr: TimeRange)
    : (r: Result<Emission, Error>)
    requires WellFormed(ds)
    ensures r.Ok? ==> && r.value.index.Some? && r.value.index.value.path == FilePath(destdir, "filelist.txt")
                      && r.value.namelist == map["filelist" := "filelist.txt"]
  {
    var stats :- StatsOf(b.variant, AdjustTime(ds, interp, tr));
    var recs :- Records(b.jons, stats);
    var index :- Filelist(g, destdir, RecordPaths(destdir, recs), Durations(stats.times), b.jons.dbtc);
    Ok(Emission(recs, Some(index), Namelist(BCFile(None, Some(index.path)))))
  }

  /**
   * `BoundaryStationJons.get` on the series selected at the boundary point:
   * the requested range is checked against the source when cropping, a
   * range is needed in either mode, and `filelist` unset or false means
   * single-file mode.
   */
  function Emit(b: Boundary, g: Format, destdir: string, src: Source, ds: Dataset, interp: Interpolant, time: Option<TimeRange>)
    : (r: Result<Emission, Error>)
    requires WellFormed(ds)
    ensures r.Ok? ==> time.Some? && (b.cropData ==> ValidateTime(src, b.coords, time.value).Ok?)
  {
    var _ :- if b.cropData && time.Some? then ValidateTime(src, b.coords, time.value) else Ok(());
    if time.None? then Err(NoTimeRange)
    else if b.jons.filelist != Some(true) then EmitSingle(b, destdir, ds, interp, time.value)
    else EmitSequence(b, g, destdir, ds, interp, time.value)
  }

  /** `_instantiate_boundary(ds.sel(time=[t0]))` for the `i`-th time `t0`. */
  method InstantiateAt(cfg: JonsConfig, stats: Dataset, i: nat) returns (r: Result<JonsRecord, Error>)
    requires WellFormed(stats) && i < |RecordOutcomes(cfg, stats)|
    ensures r == RecordOutcomes(cfg, stats)[i]
  {
    RecordOutcomeAt(cfg, stats, i);
    if !Distinct(stats.times) {
      return Err(NonUniqueIndex);
    }
    var data := SelectAt(stats, stats.times[i]);
    r := InstantiateBoundary(cfg, data);
  }

  /**
   * The refusals common to both modes: without a range `get` fails, and a
   * range outside the source's times is refused when cropping.
   */
  lemma EmitRefusals(b: Boundary, g: Format, destdir: string, src: Source, ds: Dataset, interp: Interpolant, time: Option<TimeRange>)
    requires WellFormed(ds)
    ensures var r := Emit(b, g, destdir, src, ds, interp, time);
      && (time.None? ==> r == Err(NoTimeRange))
      && (b.cropData && time.Some? && ValidateTime(src, b.coords, time.value).Err? ==>
            r == Err(ValidateTime(src, b.coords, time.value).error))
  {
  }

  /**
   * The two modes: an emission writes a file list and returns its name
   * exactly when `filelist` is set, and otherwise returns the name of its
   * one record.
   */
  lemma EmitModes(b: Boundary, g: Format, destdir: string, src: Source, ds: Dataset, interp: Interpolant, time: Option<TimeRange>)
    requires WellFormed(ds) && Emit(b, g, destdir, src, ds, interp, time).Ok?
    ensures var e := Emit(b, g, destdir, src, ds, interp, time).value;
      && (e.index.Some? <==> b.jons.filelist == Some(true))
      && (b.jons.filelist == Some(true) ==> e.namelist == map["filelist" := "filelist.txt"])
      && (b.jons.filelist != Some(true) ==> |e.records| == 1 && e.namelist == map["bcfile" := e.records[0].bcfile])
  {
    var tr := time.value;
    if b.jons.filelist != Some(true) {
      EmitSingleShape(b, destdir, ds, interp, tr);
    }
  }

  /** A sequence emission, taken apart: the parameter table, its records and the file list, each built. */
  lemma EmitSequenceSteps(b: Boundary, g: Format, destdir: string, ds: Dataset, interp: Interpolant, tr: TimeRange)
    requires WellFormed(ds) && EmitSequence(b, g, destdir, ds, interp, tr).Ok?
    ensures StatsOf(b.variant, AdjustTime(ds, interp, tr)).Ok?
    ensures var stats := StatsOf(b.variant, AdjustTime(ds, interp, tr)).value;
      && Records(b.jons, stats).Ok?
      && var recs := Records(b.jons, stats).value;
      && Filelist(g, destdir, RecordPaths(destdir, recs), Durations(stats.times), b.jons.dbtc).Ok?
      && var index := Filelist(g, destdir, RecordPaths(destdir, recs), Durations(stats.times), b.jons.dbtc).value;
      EmitSequence(b, g, destdir, ds, interp, tr).value == Emission(recs, Some(index), Namelist(BCFile(None, Some(index.path))))
  {
  }

  /** Single-file mode writes one record, named after the start of the range, and returns that name. */
  lemma EmitSingleShape(b: Boundary, destdir: string, ds: Dataset, interp: Interpolant, tr: TimeRange)
    requires WellFormed(ds) && EmitSingle(b, destdir, ds, interp, tr).Ok?
    ensures var e := EmitSingle(b, destdir, ds, interp, tr).value;
      && |e.records| == 1 && e.records[0].bcfile == BcfileName(tr.start)
      && e.index.None? && e.namelist == map["bcfile" := BcfileName(tr.start)]
  {
    var one := InterpAt(ds, WithinSpan(ds, interp), tr.start);
    var stats := StatsOf(b.variant, one).value;
    assert stats.times == [tr.start];
    var rec := Instantiated(b.jons, stats).value;
    assert rec.bcfile == BcfileName(tr.start);
    assert EmitSingle(b, destdir, ds, interp, tr).value
      == Emission([rec], None, Namelist(BCFile(Some(RecordPath(destdir, rec)), None)));
  }

  /**
   * Sequence mode writes one record per padded time but the last, record
   * `i` named after padded time `i`; the first is named after the start of
   * the range.
   */
  lemma EmitSequenceRecords(b: Boundary, g: Format, destdir: string, ds: Dataset, interp: Interpolant, tr: TimeRange)
    requires WellFormed(ds) && StrictlyIncreasing(ds.times) && tr.start <= tr.end
    requires EmitSequence(b, g, destdir, ds, interp, tr).Ok?
    ensures var e := EmitSequence(b, g, destdir, ds, interp, tr).value;
      var p := PaddedTimes(ds.times, tr);
      && |e.records| + 1 == |p|
      && (forall i :: 0 <= i < |e.records| ==> e.records[i].bcfile == BcfileName(p[i]))
      && (|e.records| > 0 ==> e.records[0].bcfile == BcfileName(tr.start))
  {
    EmitSequenceSteps(b, g, destdir, ds, interp, tr);
    var stats := StatsOf(b.variant, AdjustTime(ds, interp, tr)).value;
    AdjustTimeTimes(ds, interp, tr);
    PaddedEndpoints(ds.times, tr);
    var recs := Records(b.jons, stats).value;
    forall i | 0 <= i < |recs| ensures recs[i].bcfile == BcfileName(stats.times[i]) {
      RecordOfSequence(b.jons, stats, i);
    }
  }

  /**
   * For `start < end`, the records of a sequence have distinct names, and
   * none is named after the end of the range: the end only closes the last
   * interval.
   */
  lemma EmitSequenceNames(b: Boundary, g: Format, destdir: string, ds: Dataset, interp: Interpolant, tr: TimeRange)
    requires WellFormed(ds) && StrictlyIncreasing(ds.times) && tr.start < tr.end
    requires EmitSequence(b, g, destdir, ds, interp, tr).Ok?
    ensures var e := EmitSequence(b, g, destdir, ds, interp, tr).value;
      && (forall i, j :: 0 <= i < j < |e.records| ==> e.records[i].bcfile != e.records[j].bcfile)
      && (forall i :: 0 <= i < |e.records| ==> e.records[i].bcfile != BcfileName(tr.end))
  {
    var e := EmitSequence(b, g, destdir, ds, interp, tr).value;
    var p := PaddedTimes(ds.times, tr);
    EmitSequenceRecords(b, g, destdir, ds, interp, tr);
    PaddedIncreasing(ds.times, tr);
    PaddedEndpoints(ds.times, tr);
    NamesAlongIncreasing(e.records, p);
  }

  /** Records named after all but the last of an increasing series have distinct names, none the last time's. */
  lemma NamesAlongIncreasing(recs: seq<JonsRecord>, p: seq<Instant>)
    requires |recs| + 1 == |p| && StrictlyIncreasing(p)
    requires forall i :: 0 <= i < |recs| ==> recs[i].bcfile == BcfileName(p[i])
    ensures forall i, j :: 0 <= i < j < |recs| ==> recs[i].bcfile != recs[j].bcfile
    ensures forall i :: 0 <= i < |recs| ==> recs[i].bcfile != BcfileName(p[|p| - 1])
  {
    forall i, j | 0 <= i < j < |recs| ensures recs[i].bcfile != recs[j].bcfile {
      if recs[i].bcfile == recs[j].bcfile {
        BcfileNameInjective(p[i], p[j]);
      }
    }
    forall i | 0 <= i < |recs| ensures recs[i].bcfile != BcfileName(p[|p| - 1]) {
      if recs[i].bcfile == BcfileName(p[|p| - 1]) {
        BcfileNameInjective(p[i], p[|p| - 1]);
      }
    }
  }

  /** The file list of records named after all but the last of `p`, with the durations between the times of `p`. */
  lemma SequenceFilelist(g: Format, destdir: string, recs: seq<JonsRecord>, p: seq<Instant>, dbtc: Option<real>)
    requires |recs| + 1 == |p| && forall i :: 0 <= i < |recs| ==> recs[i].bcfile == BcfileName(p[i])
    requires Filelist(g, destdir, RecordPaths(destdir, recs), Durations(p), dbtc).Ok?
    ensures var f := Filelist(g, destdir, RecordPaths(destdir, recs), Durations(p), dbtc).value;
      var d := Durations(p);
      && |f.lines| == 1 + |recs| && f.lines[0] == "FILELIST" && |d| == |recs|
      && (recs != [] ==> dbtc.Some?)
      && (forall i :: 0 <= i < |recs| ==> Split(f.lines[i + 1], ' ') == [g(d[i]), g(dbtc.value), recs[i].bcfile])
  {
    var paths := RecordPaths(destdir, recs);
    forall k | 0 <= k < |paths| ensures ' ' !in paths[k].name {
      BcfileNamePlain(p[k]);
    }
    FilelistLayout(g, destdir, paths, Durations(p), dbtc);
  }

  /**
   * The file list of a sequence: the header and one line per record, with
   * one duration per record; writing one needs the boundary timestep.
   */
  lemma EmitSequenceIndex(b: Boundary, g: Format, destdir: string, ds: Dataset, interp: Interpolant, tr: TimeRange)
    requires WellFormed(ds) && StrictlyIncreasing(ds.times) && tr.start < tr.end
    requires EmitSequence(b, g, destdir, ds, interp, tr).Ok?
    ensures var e := EmitSequence(b, g, destdir, ds, interp, tr).value;
      && e.index.Some? && b.jons.dbtc.Some?
      && |e.index.value.lines| == 1 + |e.records| && e.index.value.lines[0] == "FILELIST"
      && |Durations(PaddedTimes(ds.times, tr))| == |e.records|
  {
    var e := EmitSequence(b, g, destdir, ds, interp, tr).value;
    var p := PaddedTimes(ds.times, tr);
    EmitSequenceParts(b, g, destdir, ds, interp, tr);
    EmitSequenceRecords(b, g, destdir, ds, interp, tr);
    PaddedEndpoints(ds.times, tr);
    assert |e.records| > 0 by {
      assert p[0] != p[|p| - 1];
    }
    SequenceFilelist(g, destdir, e.records, p, b.jons.dbtc);
  }

  /**
   * Line `i + 1` of the file list of a sequence reads back as the time from
   * padded time `i` to the next, the boundary timestep and the name of
   * record `i`.
   */
  lemma EmitSequenceLines(b: Boundary, g: Format, destdir: string, ds: Dataset, interp: Interpolant, tr: TimeRange)
    requires WellFormed(ds) && StrictlyIncreasing(ds.times) && tr.start < tr.end
    requires EmitSequence(b, g, destdir, ds, interp, tr).Ok?
    ensures var e := EmitSequence(b, g, destdir, ds, interp, tr).value;
      var d := Durations(PaddedTimes(ds.times, tr));
      && e.index.Some? && b.jons.dbtc.Some? && |e.index.value.lines| == 1 + |e.records| && |d| == |e.records|
      && (forall i :: 0 <= i < |e.records| ==>
            Split(e.index.value.lines[i + 1], ' ') == [g(d[i]), g(b.jons.dbtc.value), e.records[i].bcfile])
  {
    var e := EmitSequence(b, g, destdir, ds, interp, tr).value;
    var p := PaddedTimes(ds.times, tr);
    EmitSequenceIndex(b, g, destdir, ds, interp, tr);
    EmitSequenceParts(b, g, destdir, ds, interp, tr);
    EmitSequenceRecords(b, g, destdir, ds, interp, tr);
    SequenceFilelist(g, destdir, e.records, p, b.jons.dbtc);
  }

  /** A sequence emission is the records of the padded parameter table and the file list built from them. */
  lemma EmitSequenceParts(b: Boundary, g: Format, destdir: string, ds: Dataset, interp: Interpolant, tr: TimeRange)
    requires WellFormed(ds) && EmitSequence(b, g, destdir, ds, interp, tr).Ok?
    ensures var e := EmitSequence(b, g, destdir, ds, interp, tr).value;
      var p := PaddedTimes(ds.times, tr);
      && Filelist(g, destdir, RecordPaths(destdir, e.records), Durations(p), b.jons.dbtc).Ok?
      && e.index == Some(Filelist(g, destdir, RecordPaths(destdir, e.records), Durations(p), b.jons.dbtc).value)
  {
    EmitSequenceSteps(b, g, destdir, ds, interp, tr);
    AdjustTimeTimes(ds, interp, tr);
  }

  /** For `start < end` the durations of a sequence are positive and add up to the length of the range. */
  lemma EmitSequenceDurations(ds: Dataset, tr: TimeRange)
    requires StrictlyIncreasing(ds.times) && tr.start < tr.end
    ensures var d := Durations(PaddedTimes(ds.times, tr));
      && (forall i :: 0 <= i < |d| ==> d[i] > 0.0)
      && Sum(d) == (tr.end - tr.start) as real
  {
    var p := PaddedTimes(ds.times, tr);
    PaddedEndpoints(ds.times, tr);
    PaddedIncreasing(ds.times, tr);
    DurationsPositive(p);
    DurationsTelescope(p);
  }

  /**
   * A zero-length range at a time the series lacks pads it to the same time
   * twice, and selecting a time label on that index is refused.
   */
  lemma EmitSequenceDegenerate(b: Boundary, g: Format, destdir: string, ds: Dataset, interp: Interpolant, tr: TimeRange)
    requires WellFormed(ds) && StrictlyIncreasing(ds.times)
    requires tr.start == tr.end && tr.start !in ds.times
    requires StatsOf(b.variant, AdjustTime(ds, interp, tr)).Ok?
    ensures EmitSequence(b, g, destdir, ds, interp, tr) == Err(NonUniqueIndex)
  {
    var stats := StatsOf(b.variant, AdjustTime(ds, interp, tr)).value;
    AdjustTimeTimes(ds, interp, tr);
    PaddedDegenerate(ds.times, tr);
    assert stats.times[0] == stats.times[1];
    RecordsOfNonUniqueIndex(b.jons, stats);
    EmitSequenceRefused(b, g, destdir, ds, interp, tr);
  }

  /** A sequence whose records are refused is refused with the same error. */
  lemma EmitSequenceRefused(b: Boundary, g: Format, destdir: string, ds: Dataset, interp: Interpolant, tr: TimeRange)
    requires WellFormed(ds) && StatsOf(b.variant, AdjustTime(ds, interp, tr)).Ok?
    requires Records(b.jons, StatsOf(b.variant, AdjustTime(ds, interp, tr)).value).Err?
    ensures EmitSequence(b, g, destdir, ds, interp, tr)
      == Err(Records(b.jons, StatsOf(b.variant, AdjustTime(ds, interp, tr)).value).error)
  {
  }

  /** A table whose time index repeats a time is refused at its first selection. */
  lemma RecordsOfNonUniqueIndex(cfg: JonsConfig, stats: Dataset)
    requires WellFormed(stats) && !Distinct(stats.times)
    ensures Records(cfg, stats) == Err(NonUniqueIndex)
  {
    var a, b :| 0 <= a < b < |stats.times| && stats.times[a] == stats.times[b];
    var rs := RecordOutcomes(cfg, stats);
    RecordsElements(cfg, stats);
    RecordOutcomeAt(cfg, stats, 0);
    var j :| 0 <= j < |rs| && rs[j].Err? && Records(cfg, stats).error == rs[j].error;
    RecordOutcomeAt(cfg, stats, j);
  }

  /**
   * The loop of the sequence branch of `get`: one record per pair of
   * consecutive times, with the path it is written to and its duration.
   */
  method RecordLoop(cfg: JonsConfig, destdir: string, stats: Dataset)
    returns (r: Result<seq<JonsRecord>, Error>, bcfiles: seq<FilePath>, durations: seq<real>)
    requires WellFormed(stats)
    ensures r == Records(cfg, stats)
    ensures r.Ok? ==> bcfiles == RecordPaths(destdir, r.value)
    ensures r.Ok? ==> durations == Durations(stats.times)
  {
    var times := stats.times;
    var n := if times == [] then 0 else |times| - 1;
    ghost var rs := RecordOutcomes(cfg, stats);
    var records: seq<JonsRecord> := [];
    bcfiles, durations := [], [];
    for i := 0 to n
      invariant Collect(rs[..i]) == Ok(records)
      invariant bcfiles == RecordPaths(destdir, records)
      invariant durations == Durations(times)[..i]
    {
      var wb := InstantiateAt(cfg, stats, i);
      CollectStep(rs, i);
      if wb.Err? {
        CollectFailurePersists(rs, i + 1);
        return Err(wb.error), bcfiles, durations;
      }
      RecordPathsStep(destdir, records, wb.value);
      DurationsStep(times, i);
      records := records + [wb.value];
      bcfiles := bcfiles + [RecordPath(destdir, wb.value)];
      durations := durations + [Duration(times[i], times[i + 1])];
    }
    assert rs[..n] == rs;
    assert Durations(times)[..n] == Durations(times);
    r := Ok(records);
  }

  /** `get` as the code runs it. */
  method Get(b: Boundary, g: Format, destdir: string, src: Source, ds: Dataset, interp: Interpolant, time: Option<TimeRange>)
    returns (r: Result<Emission, Error>)
    requires WellFormed(ds)
    ensures r == Emit(b, g, destdir, src, ds, interp, time)
  {
    if b.cropData && time.Some? {
      var checked := ValidateTime(src, b.coords, time.value);
      if checked.Err? {
        return Err(checked.error);
      }
    }
    if time.None? {
      return Err(NoTimeRange);
    }
    var tr := time.value;
    if b.jons.filelist != Some(true) {
      var one := InterpAt(ds, WithinSpan(ds, interp), tr.start);
      var data := CalculateStats(b.variant, one);
      if data.Err? {
        return Err(data.error);
      }
      var wb := InstantiateBoundary(b.jons, data.value);
      if wb.Err? {
        return Err(wb.error);
      }
      var bcfile := BCFile(Some(RecordPath(destdir, wb.value)), None);
      return Ok(Emission([wb.value], None, Namelist(bcfile)));
    }
    var padded := AdjustTimeSteps(ds, interp, tr);
    var stats := CalculateStats(b.variant, padded);
    if stats.Err? {
      return Err(stats.error);
    }
    var records, bcfiles, durations := RecordLoop(b.jons, destdir, stats.value);
    if records.Err? {
      return Err(records.error);
    }
    var index := WriteFilelist(g, destdir, bcfiles, durations, b.jons.dbtc);
    if index.Err? {
      return Err(index.error);
    }
    r := Ok(Emission(records.value, Some(index.value), Namelist(BCFile(None, Some(index.value.path)))));
  }
}
