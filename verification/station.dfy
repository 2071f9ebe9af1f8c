/**
 * The checks a station boundary makes on its source and the time-range
 * adjustment of the selected series: `validate_coords`, `_validate_time` and
 * `_adjust_time` of the boundary classes.
 */
module Station {
  import opened Wrappers
  import opened Series
  import opened Errors

  /** Names of the x, y, time and site coordinates in the source dataset. */
  datatype Coords = Coords(x: Name, y: Name, t: Name, s: Name)

  /**
   * What the core reads of the source: the dataset's dimensions, data
   * variables and time index, and the coordinates the source reader lists.
   */
  datatype Source = Source(dims: set<Name>, dataVars: set<Name>, coordinates: set<Name>, times: seq<Instant>)

  datatype TimeRange = TimeRange(start: Instant, end: Instant)

  /**
   * `validate_coords`: a station source has time and site dimensions and
   * carries x and y as data variables, never as dimensions. The checks run in
   * the order t, s (dimension present), then x and y in turn (not a
   * dimension, then a variable); the first that fails is reported.
   */
  function ValidateCoords(src: Source, c: Coords): (r: Result<(), Error>)
    ensures r.Ok? <==>
      && c.t in src.dims && c.s in src.dims
      && c.x !in src.dims && c.y !in src.dims
      && c.x in src.dataVars && c.y in src.dataVars
    ensures c.t !in src.dims ==> r == Err(MissingDimension(c.t))
    ensures c.t in src.dims && c.s !in src.dims ==> r == Err(MissingDimension(c.s))
    ensures c.t in src.dims && c.s in src.dims && c.x in src.dims ==> r == Err(GriddedSource(c.x))
    ensures c.t in src.dims && c.s in src.dims && c.x !in src.dims && c.x !in src.dataVars ==>
      r == Err(MissingCoordinateVariable(c.x))
    ensures c.t in src.dims && c.s in src.dims && c.x !in src.dims && c.x in src.dataVars && c.y in src.dims ==>
      r == Err(GriddedSource(c.y))
    ensures c.t in src.dims && c.s in src.dims && c.x !in src.dims && c.x in src.dataVars
              && c.y !in src.dims && c.y !in src.dataVars ==>
      r == Err(MissingCoordinateVariable(c.y))
  {
    if c.t !in src.dims then Err(MissingDimension(c.t))
    else if c.s !in src.dims then Err(MissingDimension(c.s))
    else if c.x in src.dims then Err(GriddedSource(c.x))
    else if c.x !in src.dataVars then Err(MissingCoordinateVariable(c.x))
    else if c.y in src.dims then Err(GriddedSource(c.y))
    else if c.y !in src.dataVars then Err(MissingCoordinateVariable(c.y))
    else Ok(())
  }

  /**
   * `_validate_time`: the source must list the time coordinate and the
   * requested interval must not start before its first time nor end after its
   * last. An empty time index has no first time and fails too.
   */
  function ValidateTime(src: Source, c: Coords, tr: TimeRange): (r: Result<(), Error>)
    ensures r.Ok? <==>
      && c.t in src.coordinates && |src.times| > 0
      && src.times[0] <= tr.start && tr.end <= src.times[|src.times| - 1]
    ensures c.t !in src.coordinates ==> r == Err(MissingTimeCoordinate(c.t))
    ensures c.t in src.coordinates && |src.times| > 0 && r.Err? ==>
      r == Err(TimeOutOfRange(tr.start, tr.end, src.times[0], src.times[|src.times| - 1]))
  {
    if c.t !in src.coordinates then Err(MissingTimeCoordinate(c.t))
    else if |src.times| == 0 then Err(EmptyTimeIndex)
    else
      var first, last := src.times[0], src.times[|src.times| - 1];
      if tr.start < first || tr.end > last then Err(TimeOutOfRange(tr.start, tr.end, first, last))
      else Ok(())
  }

  /**
   * `_adjust_time`, in closed form: the series cropped to `[start, end]`, with
   * a sample interpolated from the whole series spliced onto the front when
   * `start` is not one of its times, and onto the back when `end` is not.
   */
  function AdjustTime(ds: Dataset, interp: Interpolant, tr: TimeRange): (r: Dataset)
    requires WellFormed(ds)
    ensures WellFormed(r) && r.vars.Keys == ds.vars.Keys
  {
    Dataset(PaddedTimes(ds.times, tr),
            map n | n in ds.vars :: PaddedColumn(ds.times, ds.vars[n], tr, interp(n, tr.start), interp(n, tr.end)))
  }

  /**
   * `_adjust_time` as the code runs it: crop, then rebind the output to its
   * concatenation with the interpolated start row and with the interpolated
   * end row, each only when the source lacks that time.
   */
  method AdjustTimeSteps(ds: Dataset, interp: Interpolant, tr: TimeRange) returns (dsout: Dataset)
    requires WellFormed(ds)
    ensures dsout == AdjustTime(ds, interp, tr)
  {
    dsout := Crop(ds, tr.start, tr.end);
    if tr.start !in ds.times {
      var dsStart := InterpAt(ds, interp, tr.start);
      dsout := Concat(dsStart, dsout);
    }
    StartSpliced(ds, interp, tr, dsout);
    var front := dsout;
    if tr.end !in ds.times {
      var dsEnd := InterpAt(ds, interp, tr.end);
      dsout := Concat(dsout, dsEnd);
    }
    EndSpliced(ds, interp, tr, front, dsout);
  }

  /** After the first concatenation every column is the spliced start followed by the cropped values. */
  lemma StartSpliced(ds: Dataset, interp: Interpolant, tr: TimeRange, w: Dataset)
    requires WellFormed(ds)
    requires w == if tr.start !in ds.times then Concat(InterpAt(ds, interp, tr.start), Crop(ds, tr.start, tr.end))
                  else Crop(ds, tr.start, tr.end)
    ensures WellFormed(w) && w.vars.Keys == ds.vars.Keys
    ensures w.times == Splice(tr.start !in ds.times, tr.start) + CropTimes(ds.times, tr.start, tr.end)
    ensures var (lo, hi) := CropBounds(ds.times, tr.start, tr.end);
      forall n :: n in w.vars ==> w.vars[n] == Splice(tr.start !in ds.times, interp(n, tr.start)) + ds.vars[n][lo..hi]
  {
  }

  /** The second concatenation completes the closed form. */
  lemma EndSpliced(ds: Dataset, interp: Interpolant, tr: TimeRange, w: Dataset, out: Dataset)
    requires WellFormed(ds) && WellFormed(w) && w.vars.Keys == ds.vars.Keys
    requires w.times == Splice(tr.start !in ds.times, tr.start) + CropTimes(ds.times, tr.start, tr.end)
    requires var (lo, hi) := CropBounds(ds.times, tr.start, tr.end);
      forall n :: n in w.vars ==> w.vars[n] == Splice(tr.start !in ds.times, interp(n, tr.start)) + ds.vars[n][lo..hi]
    requires out == if tr.end !in ds.times then Concat(w, InterpAt(ds, interp, tr.end)) else w
    ensures out == AdjustTime(ds, interp, tr)
  {
    var r := AdjustTime(ds, interp, tr);
    assert out.times == r.times;
    assert out.vars.Keys == r.vars.Keys;
    forall n | n in out.vars ensures out.vars[n] == r.vars[n] {
      assert out.vars[n] == w.vars[n] + Splice(tr.end !in ds.times, interp(n, tr.end));
    }
    assert out.vars == r.vars;
  }

  /** `[x]` when `missing`, nothing otherwise: what is spliced onto one end. */
  function Splice<T>(missing: bool, x: T): (s: seq<T>)
    ensures |s| == (if missing then 1 else 0)
  {
    if missing then [x] else []
  }

  /**
   * What `_adjust_time` makes of a column aligned with the time index `times`:
   * `a` spliced on when `start` is missing, the cropped values, then `b`
   * spliced on when `end` is missing.
   */
  function PaddedColumn<T>(times: seq<Instant>, v: seq<T>, tr: TimeRange, a: T, b: T): seq<T>
    requires |v| == |times|
  {
    var (lo, hi) := CropBounds(times, tr.start, tr.end);
    Splice(tr.start !in times, a) + v[lo..hi] + Splice(tr.end !in times, b)
  }

  /** The time index `_adjust_time` produces from a time index. */
  function PaddedTimes(times: seq<Instant>, tr: TimeRange): seq<Instant>
  {
    PaddedColumn(times, times, tr, tr.start, tr.end)
  }

  /** The adjusted series is the padded time index, and each variable its padded column. */
  lemma AdjustTimeLayout(ds: Dataset, interp: Interpolant, tr: TimeRange)
    requires WellFormed(ds)
    ensures var r := AdjustTime(ds, interp, tr);
      && r.times == PaddedTimes(ds.times, tr)
      && forall n :: n in r.vars ==>
           r.vars[n] == PaddedColumn(ds.times, ds.vars[n], tr, interp(n, tr.start), interp(n, tr.end))
  {
  }

  /** One column of the adjusted series: the spliced start, the cropped values, then the spliced end. */
  lemma AdjustTimeColumn(ds: Dataset, interp: Interpolant, tr: TimeRange, n: Name)
    requires WellFormed(ds) && n in ds.vars
    ensures AdjustTime(ds, interp, tr).vars[n]
      == PaddedColumn(ds.times, ds.vars[n], tr, interp(n, tr.start), interp(n, tr.end))
  {
    AdjustTimeLayout(ds, interp, tr);
  }

  /** The time index of the adjusted series is the padded time index. */
  lemma AdjustTimeTimes(ds: Dataset, interp: Interpolant, tr: TimeRange)
    requires WellFormed(ds)
    ensures AdjustTime(ds, interp, tr).times == PaddedTimes(ds.times, tr)
  {
    AdjustTimeLayout(ds, interp, tr);
  }

  // ---------------------------------------------------------------------------
  // The padded time index.

  /** Every padded time is a spliced endpoint or a source time inside `[start, end]`. */
  lemma PaddedMembers(times: seq<Instant>, tr: TimeRange)
    requires StrictlyIncreasing(times)
    ensures forall x :: x in PaddedTimes(times, tr) <==>
      (x == tr.start && x !in times) || (x == tr.end && x !in times) || (x in times && tr.start <= x <= tr.end)
  {
    CropMembers(times, tr.start, tr.end);
  }

  lemma PaddedLength(times: seq<Instant>, tr: TimeRange)
    requires StrictlyIncreasing(times)
    ensures |PaddedTimes(times, tr)|
      == |InRange(times, tr.start, tr.end)| + (if tr.start in times then 0 else 1) + (if tr.end in times then 0 else 1)
  {
    CropKeepsRange(times, tr.start, tr.end);
  }

  /** A zero-length range at a time the index lacks is padded to that time twice. */
  lemma PaddedDegenerate(times: seq<Instant>, tr: TimeRange)
    requires StrictlyIncreasing(times) && tr.start == tr.end && tr.start !in times
    ensures PaddedTimes(times, tr) == [tr.start, tr.start]
  {
    CropKeepsRange(times, tr.start, tr.end);
    assert InRange(times, tr.start, tr.end) == {};
  }

  lemma PaddedEndpoints(times: seq<Instant>, tr: TimeRange)
    requires StrictlyIncreasing(times) && tr.start <= tr.end
    ensures var p := PaddedTimes(times, tr);
      |p| > 0 && p[0] == tr.start && p[|p| - 1] == tr.end
  {
    var c := CropTimes(times, tr.start, tr.end);
    var head := Splice(tr.start !in times, tr.start);
    var tail := Splice(tr.end !in times, tr.end);
    var p := PaddedTimes(times, tr);
    assert p == head + c + tail;
    CropEnds(times, tr.start, tr.end);
    if tr.start in times {
      assert p[0] == c[0];
    }
    if tr.end in times {
      assert p[|p| - 1] == c[|c| - 1];
    }
  }

  lemma PaddedIncreasing(times: seq<Instant>, tr: TimeRange)
    requires StrictlyIncreasing(times) && tr.start < tr.end
    ensures StrictlyIncreasing(PaddedTimes(times, tr))
  {
    var c := CropTimes(times, tr.start, tr.end);
    var head := Splice(tr.start !in times, tr.start);
    var tail := Splice(tr.end !in times, tr.end);
    CropIncreasing(times, tr.start, tr.end);
    CropMembers(times, tr.start, tr.end);
    IncreasingAppend(head, c);
    IncreasingAppend(head + c, tail);
    assert PaddedTimes(times, tr) == head + c + tail;
  }

  // ---------------------------------------------------------------------------
  // Properties of `_adjust_time`.

  /**
   * The adjusted series holds every source time inside `[start, end]` plus
   * one synthetic row for each endpoint the source lacks.
   */
  lemma AdjustTimeLength(ds: Dataset, interp: Interpolant, tr: TimeRange)
    requires WellFormed(ds) && StrictlyIncreasing(ds.times)
    ensures |AdjustTime(ds, interp, tr).times|
      == |InRange(ds.times, tr.start, tr.end)|
         + (if tr.start in ds.times then 0 else 1)
         + (if tr.end in ds.times then 0 else 1)
  {
    AdjustTimeLayout(ds, interp, tr);
    PaddedLength(ds.times, tr);
  }

  /** Endpoint exactness: for `start <= end` the adjusted series begins at `start` and ends at `end`. */
  lemma AdjustTimeEndpoints(ds: Dataset, interp: Interpolant, tr: TimeRange)
    requires WellFormed(ds) && StrictlyIncreasing(ds.times) && tr.start <= tr.end
    ensures var r := AdjustTime(ds, interp, tr);
      |r.times| > 0 && r.times[0] == tr.start && r.times[|r.times| - 1] == tr.end
  {
    AdjustTimeLayout(ds, interp, tr);
    PaddedEndpoints(ds.times, tr);
  }

  /** For `start < end` the adjusted series is strictly increasing: no time appears twice. */
  lemma AdjustTimeIncreasing(ds: Dataset, interp: Interpolant, tr: TimeRange)
    requires WellFormed(ds) && StrictlyIncreasing(ds.times) && tr.start < tr.end
    ensures StrictlyIncreasing(AdjustTime(ds, interp, tr).times)
  {
    AdjustTimeLayout(ds, interp, tr);
    PaddedIncreasing(ds.times, tr);
  }

  /**
   * Every source sample inside `[start, end]` survives unchanged, in source
   * order, at its source position shifted by the rows cropped off the front
   * and the spliced start.
   */
  lemma AdjustTimeKeepsSamples(ds: Dataset, interp: Interpolant, tr: TimeRange, i: nat)
    requires WellFormed(ds) && StrictlyIncreasing(ds.times)
    requires i < |ds.times| && tr.start <= ds.times[i] <= tr.end
    ensures var r := AdjustTime(ds, interp, tr);
      var k := i - CountBelow(ds.times, tr.start) + (if tr.start in ds.times then 0 else 1);
      && 0 <= k < |r.times|
      && r.times[k] == ds.times[i]
      && forall n :: n in r.vars ==> r.vars[n][k] == ds.vars[n][i]
  {
    var k := i - CountBelow(ds.times, tr.start) + (if tr.start in ds.times then 0 else 1);
    AdjustTimeKeepsTime(ds, interp, tr, i);
    forall n | n in AdjustTime(ds, interp, tr).vars
      ensures AdjustTime(ds, interp, tr).vars[n][k] == ds.vars[n][i]
    {
      AdjustTimeKeepsValue(ds, interp, tr, i, n);
    }
  }

  /** The time part of the previous lemma. */
  lemma AdjustTimeKeepsTime(ds: Dataset, interp: Interpolant, tr: TimeRange, i: nat)
    requires WellFormed(ds) && StrictlyIncreasing(ds.times)
    requires i < |ds.times| && tr.start <= ds.times[i] <= tr.end
    ensures var r := AdjustTime(ds, interp, tr);
      var k := i - CountBelow(ds.times, tr.start) + (if tr.start in ds.times then 0 else 1);
      0 <= k < |r.times| && r.times[k] == ds.times[i]
  {
    AdjustTimeTimes(ds, interp, tr);
    PaddedKeeps(ds.times, ds.times, tr, tr.start, tr.end, i);
  }

  /** The value part of the previous lemma, for one variable. */
  lemma AdjustTimeKeepsValue(ds: Dataset, interp: Interpolant, tr: TimeRange, i: nat, n: Name)
    requires WellFormed(ds) && StrictlyIncreasing(ds.times) && n in ds.vars
    requires i < |ds.times| && tr.start <= ds.times[i] <= tr.end
    ensures var v := AdjustTime(ds, interp, tr).vars[n];
      var k := i - CountBelow(ds.times, tr.start) + (if tr.start in ds.times then 0 else 1);
      0 <= k < |v| && v[k] == ds.vars[n][i]
  {
    var col := AdjustTime(ds, interp, tr).vars[n];
    var p := PaddedColumn(ds.times, ds.vars[n], tr, interp(n, tr.start), interp(n, tr.end));
    var k := i - CountBelow(ds.times, tr.start) + (if tr.start in ds.times then 0 else 1);
    AdjustTimeColumn(ds, interp, tr, n);
    assert col == p;
    PaddedKeeps(ds.times, ds.vars[n], tr, interp(n, tr.start), interp(n, tr.end), i);
    assert 0 <= k < |p| && p[k] == ds.vars[n][i];
  }

  /** A row whose time the source lacks is a spliced endpoint holding the interpolated values. */
  lemma AdjustTimeSynthetic(ds: Dataset, interp: Interpolant, tr: TimeRange, k: nat)
    requires WellFormed(ds) && StrictlyIncreasing(ds.times)
    requires k < |AdjustTime(ds, interp, tr).times| && AdjustTime(ds, interp, tr).times[k] !in ds.times
    ensures var r := AdjustTime(ds, interp, tr);
      && (r.times[k] == tr.start || r.times[k] == tr.end)
      && forall n :: n in r.vars ==> r.vars[n][k] == interp(n, r.times[k])
  {
    var r := AdjustTime(ds, interp, tr);
    AdjustTimeTimes(ds, interp, tr);
    PaddedSpliced(ds.times, ds.times, tr, tr.start, tr.end, k);
    forall n | n in r.vars ensures r.vars[n][k] == interp(n, r.times[k]) {
      AdjustTimeColumn(ds, interp, tr, n);
      PaddedSpliced(ds.times, ds.vars[n], tr, interp(n, tr.start), interp(n, tr.end), k);
    }
  }

  // ---------------------------------------------------------------------------
  // Positions in a padded column, for any column aligned with the time index.

  /** A kept row sits at its source position less the rows cropped off the front, plus the spliced start. */
  lemma PaddedKeeps<T>(times: seq<Instant>, v: seq<T>, tr: TimeRange, a: T, b: T, i: nat)
    requires |v| == |times| && StrictlyIncreasing(times)
    requires i < |times| && tr.start <= times[i] <= tr.end
    ensures var p := PaddedColumn(times, v, tr, a, b);
      var k := i - CountBelow(times, tr.start) + (if tr.start in times then 0 else 1);
      0 <= k < |p| && p[k] == v[i]
  {
    var (lo, hi) := CropBounds(times, tr.start, tr.end);
    var p := PaddedColumn(times, v, tr, a, b);
    var m := if tr.start in times then 0 else 1;
    CropWindow(times, tr.start, tr.end);
    assert lo <= i < hi;
    assert p[i - lo + m] == v[lo..hi][i - lo];
  }

  /**
   * A padded row whose time is not a source time is a spliced one: the first
   * row, when `start` was spliced, and otherwise the last.
   */
  lemma PaddedSpliced<T>(times: seq<Instant>, v: seq<T>, tr: TimeRange, a: T, b: T, k: nat)
    requires |v| == |times| && StrictlyIncreasing(times)
    requires k < |PaddedTimes(times, tr)| && PaddedTimes(times, tr)[k] !in times
    ensures var p := PaddedColumn(times, v, tr, a, b);
      var pt := PaddedTimes(times, tr);
      && |p| == |pt|
      && (if k == 0 && tr.start !in times then pt[k] == tr.start && p[k] == a
          else pt[k] == tr.end && p[k] == b)
  {
    var (lo, hi) := CropBounds(times, tr.start, tr.end);
    var m := if tr.start in times then 0 else 1;
    assert forall j :: m <= j < m + (hi - lo) ==> PaddedTimes(times, tr)[j] == times[lo + j - m];
  }

  /**
   * After a successful `_validate_time`, padding never reaches outside the
   * source's span: every row of the adjusted series, spliced or kept, lies
   * between the first and the last source time, so the interpolation's
   * extrapolation setting is never exercised.
   */
  lemma AdjustTimeWithinSpan(src: Source, c: Coords, ds: Dataset, interp: Interpolant, tr: TimeRange)
    requires WellFormed(ds) && StrictlyIncreasing(ds.times) && src.times == ds.times
    requires ValidateTime(src, c, tr).Ok? && tr.start <= tr.end
    ensures var r := AdjustTime(ds, interp, tr);
      forall k :: 0 <= k < |r.times| ==> ds.times[0] <= r.times[k] <= ds.times[|ds.times| - 1]
  {
    var p := PaddedTimes(ds.times, tr);
    AdjustTimeLayout(ds, interp, tr);
    PaddedMembers(ds.times, tr);
    forall k | 0 <= k < |p| ensures ds.times[0] <= p[k] <= ds.times[|ds.times| - 1] {
      assert p[k] in p;
      if p[k] in ds.times {
        Extremes(ds.times, p[k]);
      }
    }
  }
}
