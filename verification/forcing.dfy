/**
 * The auxiliary time-series inputs of an XBeach run: a file of columns
 * sharing one time axis (`BaseFile`, specialised by `WindFile`) and the
 * constant wind given directly in the parameter file (`Wind`).
 */
module Forcing {
  import opened Wrappers
  import opened Errors
  import opened BCFiles

  // ---------------------------------------------------------------------------
  // `BaseFile`: a time column and one column per parameter.

  /**
   * A time-series file: its name, the times in seconds, the parameter
   * columns in the order the file kind lists them, and the number format
   * the file is written with.
   */
  datatype ForcingFile = ForcingFile(filename: string, tsec: seq<real>, columns: seq<seq<real>>, fmt: string)

  /** `len(file)`: the number of times. */
  function Len(f: ForcingFile): nat
  {
    |f.tsec|
  }

  /** Whether every one of `columns`, checked in order, has `n` entries. */
  function SizesMatch(n: nat, columns: seq<seq<real>>): (ok: bool)
    ensures ok <==> forall j :: 0 <= j < |columns| ==> |columns[j]| == n
  {
    if columns == [] then true
    else |columns[0]| == n && SizesMatch(n, columns[1..])
  }

  /** The validator `same_sizes`: a parameter column whose length differs from the number of times is refused. */
  function SameSizes(f: ForcingFile): (r: Result<ForcingFile, Error>)
    ensures r.Ok? <==> forall j :: 0 <= j < |f.columns| ==> |f.columns[j]| == Len(f)
    ensures r.Ok? ==> r.value == f
    ensures r.Err? ==> r.error == UnequalSizes
  {
    if SizesMatch(Len(f), f.columns) then Ok(f) else Err(UnequalSizes)
  }

  /** A file the validator accepts. */
  predicate Sized(f: ForcingFile)
  {
    SameSizes(f).Ok?
  }

  /** `np.column_stack`: row `i` holds entry `i` of every column, in column order. */
  function ColumnStack(cols: seq<seq<real>>): (rows: seq<seq<real>>)
    requires |cols| > 0 && forall k :: 0 <= k < |cols| ==> |cols[k]| == |cols[0]|
    ensures |rows| == |cols[0]| && forall i :: 0 <= i < |rows| ==> |rows[i]| == |cols|
  {
    seq(|cols[0]|, i requires 0 <= i < |cols[0]| => seq(|cols|, k requires 0 <= k < |cols| => cols[k][i]))
  }

  /** Column `k` of a table whose rows have more than `k` entries. */
  function Column(rows: seq<seq<real>>, k: nat): (col: seq<real>)
    requires forall i :: 0 <= i < |rows| ==> k < |rows[i]|
    ensures |col| == |rows|
  {
    seq(|rows|, i requires 0 <= i < |rows| => rows[i][k])
  }

  /** The columns `data` stacks: the times, then the parameter columns. */
  function Columns(f: ForcingFile): seq<seq<real>>
  {
    [f.tsec] + f.columns
  }

  /** The table `data` returns. */
  function Table(f: ForcingFile): (rows: seq<seq<real>>)
    requires Sized(f)
    ensures |rows| == Len(f) && forall i :: 0 <= i < |rows| ==> |rows[i]| == 1 + |f.columns|
  {
    ColumnStack(Columns(f))
  }

  /**
   * The table has one row per time and one column more than there are
   * parameters; each row starts with its time, followed by the parameters'
   * values at that time in their declared order.
   */
  lemma TableRows(f: ForcingFile)
    requires Sized(f)
    ensures var rows := Table(f);
      && |rows| == Len(f)
      && forall i :: 0 <= i < |rows| ==>
           && |rows[i]| == 1 + |f.columns|
           && rows[i][0] == f.tsec[i]
           && forall j :: 0 <= j < |f.columns| ==> rows[i][j + 1] == f.columns[j][i]
  {
  }

  /** Stacking loses nothing: column `k` of the table is the `k`-th column stacked. */
  lemma TableColumns(f: ForcingFile)
    requires Sized(f)
    ensures forall k :: 0 <= k < 1 + |f.columns| ==> Column(Table(f), k) == Columns(f)[k]
  {
    var rows := Table(f);
    var cols := Columns(f);
    forall k | 0 <= k < 1 + |f.columns| ensures Column(rows, k) == cols[k] {
      assert forall i :: 0 <= i < |rows| ==> rows[i][k] == cols[k][i];
    }
  }

  /** `data` as the code runs it: the column list grows parameter by parameter, then is stacked. */
  method Data(f: ForcingFile) returns (rows: seq<seq<real>>)
    requires Sized(f)
    ensures rows == Table(f)
  {
    var cols := [f.tsec];
    for j := 0 to |f.columns|
      invariant cols == [f.tsec] + f.columns[..j]
    {
      cols := cols + [f.columns[j]];
    }
    assert f.columns[..|f.columns|] == f.columns;
    rows := ColumnStack(cols);
  }

  /** What `np.savetxt` writes: the table, with its number format, at a path. */
  datatype NumericFile = NumericFile(path: FilePath, rows: seq<seq<real>>, fmt: string)

  /** `write`: the table goes to the file's own name inside the output directory, and that path is returned. */
  method Write(f: ForcingFile, destdir: string) returns (path: FilePath, written: NumericFile)
    requires Sized(f)
    ensures path == FilePath(destdir, f.filename) && path.name == f.filename
    ensures written == NumericFile(path, Table(f), f.fmt)
  {
    path := FilePath(destdir, f.filename);
    var rows := Data(f);
    written := NumericFile(path, rows, f.fmt);
  }

  // ---------------------------------------------------------------------------
  // `WindFile`.

  /** A wind file: wind speed and direction columns over the time column. */
  datatype WindFile = WindFile(filename: string, tsec: seq<real>, windv: seq<real>, windth: seq<real>, fmt: string)

  /** The parameters a wind file declares, in column order. */
  const WindParams: seq<string> := ["windv", "windth"]

  /** The generic file a wind file is: its parameter columns in `WindParams` order. */
  function WindColumns(w: WindFile): (f: ForcingFile)
    ensures |f.columns| == |WindParams|
  {
    ForcingFile(w.filename, w.tsec, [w.windv, w.windth], w.fmt)
  }

  /** Construction: a wind file is accepted exactly when both columns have one entry per time. */
  function NewWindFile(filename: string, tsec: seq<real>, windv: seq<real>, windth: seq<real>, fmt: string)
    : (r: Result<WindFile, Error>)
    ensures r.Ok? <==> |windv| == |tsec| && |windth| == |tsec|
    ensures r.Ok? ==> r.value == WindFile(filename, tsec, windv, windth, fmt) && Sized(WindColumns(r.value))
    ensures r.Err? ==> r.error == UnequalSizes
  {
    var w := WindFile(filename, tsec, windv, windth, fmt);
    var f := WindColumns(w);
    assert f.columns[0] == windv && f.columns[1] == windth;
    var _ :- SameSizes(f);
    Ok(w)
  }

  /** The wind file's namelist entry. */
  function WindFileNamelist(w: WindFile): (nl: map<string, string>)
    ensures nl.Keys == {"windfile"}
  {
    map["windfile" := w.filename]
  }

  /**
   * The namelist names the file that `write` produces, whatever the output
   * directory, and the file's rows are time, speed and direction.
   */
  lemma WindFileNamelistNamesOutput(w: WindFile, destdir: string)
    requires |w.windv| == |w.tsec| && |w.windth| == |w.tsec|
    ensures WindFileNamelist(w)["windfile"] == FilePath(destdir, WindColumns(w).filename).name
    ensures var rows := Table(WindColumns(w));
      forall i :: 0 <= i < |rows| ==> rows[i] == [w.tsec[i], w.windv[i], w.windth[i]]
  {
    var f := WindColumns(w);
    assert f.columns[0] == w.windv && f.columns[1] == w.windth;
    TableRows(f);
    var rows := Table(f);
    forall i | 0 <= i < |rows| ensures rows[i] == [w.tsec[i], w.windv[i], w.windth[i]] {
      assert rows[i][1] == f.columns[0][i] && rows[i][2] == f.columns[1][i];
    }
  }

  // ---------------------------------------------------------------------------
  // `Wind`.

  /** A constant wind: speed and direction. */
  datatype Wind = Wind(windv: real, windth: real)

  /**
   * Construction: the speed must be non-negative and the direction within
   * [-180, 360]; every field that breaks its bound is reported.
   */
  function NewWind(windv: real, windth: real): (r: Result<Wind, Error>)
    ensures r.Ok? <==> windv >= 0.0 && -180.0 <= windth <= 360.0
    ensures r.Ok? ==> r.value == Wind(windv, windth)
    ensures r.Err? ==>
      && r.error.FieldsOutOfRange?
      && ("windv" in r.error.fields <==> windv < 0.0)
      && ("windth" in r.error.fields <==> windth < -180.0 || windth > 360.0)
  {
    var bad := (if windv < 0.0 then ["windv"] else []) + (if windth < -180.0 || windth > 360.0 then ["windth"] else []);
    if bad == [] then Ok(Wind(windv, windth)) else Err(FieldsOutOfRange(bad))
  }

  /** The wind's namelist entries. */
  function WindNamelist(w: Wind): map<string, real>
  {
    map["windv" := w.windv, "windth" := w.windth]
  }

  /** `write`: no file is written; the namelist entries are returned, whatever the output directory. */
  function WindWrite(w: Wind, destdir: Option<string>): map<string, real>
  {
    WindNamelist(w)
  }

  /**
   * The namelist of an accepted wind holds exactly its speed and direction:
   * constructing a wind from those entries gives it back, and `write`
   * returns them for every output directory.
   */
  lemma WindNamelistRoundTrip(windv: real, windth: real, destdir: Option<string>)
    requires NewWind(windv, windth).Ok?
    ensures var w := NewWind(windv, windth).value;
      var nl := WindWrite(w, destdir);
      && nl.Keys == {"windv", "windth"}
      && NewWind(nl["windv"], nl["windth"]) == Ok(w)
  {
  }
}
