/**
 * The time-indexed dataset the boundary pipeline works on once the boundary
 * point has been selected: one time index and one column of values per data
 * variable, the shape of an xarray Dataset with a single `time` dimension.
 */
module Series {

  /** An instant, in whole seconds since 1970-01-01T00:00:00 (timezone-naive). */
  type Instant = int

  type Name = string

  /** One element of a floating-point data variable: a finite number or an IEEE special value. */
  datatype Value = Num(x: real) | NaN | Inf(positive: bool)

  /** A dataset: a time index and the data variables defined along it. */
  datatype Dataset = Dataset(times: seq<Instant>, vars: map<Name, seq<Value>>)

  /** Every data variable has one value per time. */
  predicate WellFormed(ds: Dataset)
  {
    forall n :: n in ds.vars ==> |ds.vars[n]| == |ds.times|
  }

  predicate StrictlyIncreasing(times: seq<Instant>)
  {
    forall i, j :: 0 <= i < j < |times| ==> times[i] < times[j]
  }

  /** The value variable `n` takes at time `t`, for an abstract interpolation scheme. */
  type Interpolant = (Name, Instant) -> Value

  /**
   * `interp` without extrapolation, as `ds.interp` does by default: NaN
   * outside the span of the time index.
   */
  function WithinSpan(ds: Dataset, interp: Interpolant): Interpolant
  {
    (n: Name, t: Instant) =>
      if |ds.times| > 0 && ds.times[0] <= t <= ds.times[|ds.times| - 1] then interp(n, t) else NaN
  }

  /** Number of times strictly before `t`: where a left-sided search puts `t`. */
  function CountBelow(times: seq<Instant>, t: Instant): (c: nat)
    ensures c <= |times|
  {
    if times == [] then 0
    else (if times[0] < t then 1 else 0) + CountBelow(times[1..], t)
  }

  /** Number of times at or before `t`: where a right-sided search puts `t`. */
  function CountAtMost(times: seq<Instant>, t: Instant): (c: nat)
    ensures c <= |times|
  {
    if times == [] then 0
    else (if times[0] <= t then 1 else 0) + CountAtMost(times[1..], t)
  }

  /** Positions `lo .. hi` of every variable, with their times. */
  function Slice(ds: Dataset, lo: nat, hi: nat): (r: Dataset)
    requires WellFormed(ds) && lo <= hi <= |ds.times|
    ensures WellFormed(r) && r.vars.Keys == ds.vars.Keys
    ensures r.times == ds.times[lo..hi]
    ensures forall n :: n in r.vars ==> r.vars[n] == ds.vars[n][lo..hi]
  {
    Dataset(ds.times[lo..hi], map n | n in ds.vars :: ds.vars[n][lo..hi])
  }

  /** Where a crop to `[start, end]` begins and ends: `lo <= hi`, nothing kept when `start` lies beyond `end`. */
  function CropBounds(times: seq<Instant>, start: Instant, end: Instant): (b: (nat, nat))
    ensures b.0 <= b.1 <= |times|
  {
    var lo := CountBelow(times, start);
    var hi := CountAtMost(times, end);
    (lo, if lo <= hi then hi else lo)
  }

  /** The times a crop to `[start, end]` keeps. */
  function CropTimes(times: seq<Instant>, start: Instant, end: Instant): seq<Instant>
  {
    var (lo, hi) := CropBounds(times, start, end);
    times[lo..hi]
  }

  /**
   * `ds.sel(time=slice(start, end))` on a sorted time index: the rows between
   * the left-sided position of `start` and the right-sided position of `end`,
   * nothing when the first lies beyond the second.
   */
  function Crop(ds: Dataset, start: Instant, end: Instant): (r: Dataset)
    requires WellFormed(ds)
    ensures WellFormed(r) && r.vars.Keys == ds.vars.Keys
    ensures r.times == CropTimes(ds.times, start, end)
  {
    var (lo, hi) := CropBounds(ds.times, start, end);
    Slice(ds, lo, hi)
  }

  /** `ds.interp({time: [t]})`: a one-row dataset holding every variable's interpolated value at `t`. */
  function InterpAt(ds: Dataset, interp: Interpolant, t: Instant): (r: Dataset)
    ensures WellFormed(r) && r.times == [t] && r.vars.Keys == ds.vars.Keys
    ensures forall n :: n in r.vars ==> r.vars[n] == [interp(n, t)]
  {
    Dataset([t], map n | n in ds.vars :: [interp(n, t)])
  }

  /** `xr.concat([a, b], dim=time)` of two datasets holding the same variables. */
  function Concat(a: Dataset, b: Dataset): (r: Dataset)
    requires WellFormed(a) && WellFormed(b) && a.vars.Keys == b.vars.Keys
    ensures WellFormed(r) && r.vars.Keys == a.vars.Keys
    ensures r.times == a.times + b.times
    ensures forall n :: n in r.vars ==> r.vars[n] == a.vars[n] + b.vars[n]
  {
    Dataset(a.times + b.times, map n | n in a.vars :: a.vars[n] + b.vars[n])
  }

  /** The positions, in order, at which `times` holds `t`. */
  function Positions(times: seq<Instant>, t: Instant): (ps: seq<nat>)
    ensures forall k :: 0 <= k < |ps| ==> ps[k] < |times| && times[ps[k]] == t
  {
    if times == [] then []
    else
      var last := |times| - 1;
      Positions(times[..last], t) + (if times[last] == t then [last] else [])
  }

  /** The rows at positions `ps`, in that order. */
  function Gather(ds: Dataset, ps: seq<nat>): (r: Dataset)
    requires WellFormed(ds) && forall k :: 0 <= k < |ps| ==> ps[k] < |ds.times|
    ensures WellFormed(r) && r.vars.Keys == ds.vars.Keys && |r.times| == |ps|
  {
    Dataset(seq(|ps|, k requires 0 <= k < |ps| => ds.times[ps[k]]),
            map n | n in ds.vars :: seq(|ps|, k requires 0 <= k < |ps| => ds.vars[n][ps[k]]))
  }

  /**
   * The rows whose time is `t`: `ds.sel(time=[t])` on an index without
   * repeated times, where it is the one row labelled `t`. Label selection
   * refuses an index with a repeated time; callers check that first.
   */
  function SelectAt(ds: Dataset, t: Instant): (r: Dataset)
    requires WellFormed(ds)
    ensures WellFormed(r) && r.vars.Keys == ds.vars.Keys
    ensures forall k :: 0 <= k < |r.times| ==> r.times[k] == t
  {
    Gather(ds, Positions(ds.times, t))
  }

  /** No time occurs twice. */
  predicate Distinct(times: seq<Instant>)
  {
    forall i, j :: 0 <= i < j < |times| ==> times[i] != times[j]
  }

  /** The times of `times` that fall inside `[start, end]`. */
  function InRange(times: seq<Instant>, start: Instant, end: Instant): set<Instant>
  {
    set t | t in times && start <= t <= end
  }

  // ---------------------------------------------------------------------------
  // Search positions on a sorted index.

  lemma {:induction false} CountBelowSplits(times: seq<Instant>, t: Instant)
    requires StrictlyIncreasing(times)
    ensures forall i :: 0 <= i < CountBelow(times, t) ==> times[i] < t
    ensures forall i :: CountBelow(times, t) <= i < |times| ==> t <= times[i]
  {
    if times != [] {
      var tail := times[1..];
      assert StrictlyIncreasing(tail);
      CountBelowSplits(tail, t);
      forall i | 1 <= i < |times| ensures times[i] == tail[i - 1] { }
    }
  }

  lemma {:induction false} CountAtMostSplits(times: seq<Instant>, t: Instant)
    requires StrictlyIncreasing(times)
    ensures forall i :: 0 <= i < CountAtMost(times, t) ==> times[i] <= t
    ensures forall i :: CountAtMost(times, t) <= i < |times| ==> t < times[i]
  {
    if times != [] {
      var tail := times[1..];
      assert StrictlyIncreasing(tail);
      CountAtMostSplits(tail, t);
      forall i | 1 <= i < |times| ensures times[i] == tail[i - 1] { }
    }
  }

  /** A strictly increasing sequence has as many distinct elements as positions. */
  lemma {:induction false} DistinctCount(s: seq<Instant>)
    requires StrictlyIncreasing(s)
    ensures |set t | t in s| == |s|
  {
    if s != [] {
      var tail := s[1..];
      assert StrictlyIncreasing(tail);
      DistinctCount(tail);
      assert s[0] !in tail by {
        forall i | 0 <= i < |tail| ensures tail[i] != s[0] { assert tail[i] == s[i + 1]; }
      }
      assert (set t | t in s) == (set t | t in tail) + {s[0]} by {
        assert s == [s[0]] + tail;
      }
    }
  }

  /** The rows a crop keeps are exactly the rows whose time lies in `[start, end]`. */
  lemma CropWindow(times: seq<Instant>, start: Instant, end: Instant)
    requires StrictlyIncreasing(times)
    ensures var lo := CountBelow(times, start);
      var hi := CountAtMost(times, end);
      var top := if lo <= hi then hi else lo;
      forall i :: 0 <= i < |times| ==> (lo <= i < top <==> start <= times[i] <= end)
  {
    CountBelowSplits(times, start);
    CountAtMostSplits(times, end);
  }

  /**
   * Cropping a dataset keeps a run of consecutive rows, unchanged and in
   * order, starting at the left-sided position of `start`.
   */
  lemma CropIsRun(ds: Dataset, start: Instant, end: Instant)
    requires WellFormed(ds)
    ensures var r := Crop(ds, start, end);
      var lo := CountBelow(ds.times, start);
      && lo + |r.times| <= |ds.times|
      && r.times == ds.times[lo..lo + |r.times|]
      && (forall n :: n in r.vars ==> r.vars[n] == ds.vars[n][lo..lo + |r.times|])
  {
  }

  /** Cropping a strictly increasing index leaves it strictly increasing. */
  lemma CropIncreasing(times: seq<Instant>, start: Instant, end: Instant)
    requires StrictlyIncreasing(times)
    ensures StrictlyIncreasing(CropTimes(times, start, end))
  {
    var c := CropTimes(times, start, end);
    var lo := CountBelow(times, start);
    forall i, j | 0 <= i < j < |c| ensures c[i] < c[j] {
      assert c[i] == times[lo + i] && c[j] == times[lo + j];
    }
  }

  /** Cropping keeps exactly the source times inside `[start, end]`. */
  lemma CropMembers(times: seq<Instant>, start: Instant, end: Instant)
    requires StrictlyIncreasing(times)
    ensures forall t :: t in CropTimes(times, start, end) <==> t in times && start <= t <= end
  {
    var c := CropTimes(times, start, end);
    var lo := CountBelow(times, start);
    CropWindow(times, start, end);
    assert forall k :: 0 <= k < |c| ==> c[k] == times[lo + k];
    forall t ensures t in c <==> t in times && start <= t <= end {
      if t in times && start <= t <= end {
        var i :| 0 <= i < |times| && times[i] == t;
        assert c[i - lo] == t;
      }
    }
  }

  /** Cropping a strictly increasing index keeps exactly the times in `[start, end]`, still increasing. */
  lemma CropKeepsRange(times: seq<Instant>, start: Instant, end: Instant)
    requires StrictlyIncreasing(times)
    ensures var c := CropTimes(times, start, end);
      && StrictlyIncreasing(c)
      && (forall t :: t in c <==> t in times && start <= t <= end)
      && |c| == |InRange(times, start, end)|
  {
    var c := CropTimes(times, start, end);
    CropIncreasing(times, start, end);
    CropMembers(times, start, end);
    assert InRange(times, start, end) == set t | t in c;
    DistinctCount(c);
  }

  /**
   * On a strictly increasing index and `start <= end`, a crop whose `start`
   * (or `end`) is a source time begins (or ends) at that time.
   */
  lemma CropEnds(times: seq<Instant>, start: Instant, end: Instant)
    requires StrictlyIncreasing(times) && start <= end
    ensures var c := CropTimes(times, start, end);
      && (start in times ==> |c| > 0 && c[0] == start)
      && (end in times ==> |c| > 0 && c[|c| - 1] == end)
  {
    var lo, hi := CountBelow(times, start), CountAtMost(times, end);
    CountBelowSplits(times, start);
    CountAtMostSplits(times, end);
    if start in times {
      var i :| 0 <= i < |times| && times[i] == start;
      assert lo <= i < hi;
      assert times[lo] >= start;
      assert CropTimes(times, start, end) == times[lo..hi];
    }
    if end in times {
      var j :| 0 <= j < |times| && times[j] == end;
      assert lo <= j < hi;
      assert times[hi - 1] <= end;
      assert CropTimes(times, start, end) == times[lo..hi];
    }
  }

  /** The first element of an increasing sequence is its least, the last its greatest. */
  lemma Extremes(s: seq<Instant>, x: Instant)
    requires StrictlyIncreasing(s) && x in s
    ensures s[0] <= x <= s[|s| - 1]
  {
    var k :| 0 <= k < |s| && s[k] == x;
    assert k == 0 || s[0] < s[k];
    assert k == |s| - 1 || s[k] < s[|s| - 1];
  }

  /** Two increasing runs, every element of the first below every element of the second, join into one. */
  lemma IncreasingAppend(a: seq<Instant>, b: seq<Instant>)
    requires StrictlyIncreasing(a) && StrictlyIncreasing(b)
    requires forall x, y :: x in a && y in b ==> x < y
    ensures StrictlyIncreasing(a + b)
  {
    var s := a + b;
    forall i, j | 0 <= i < j < |s| ensures s[i] < s[j] {
      if j < |a| {
        assert s[i] == a[i] && s[j] == a[j];
      } else if i >= |a| {
        assert s[i] == b[i - |a|] && s[j] == b[j - |a|];
      } else {
        assert s[i] == a[i] && s[j] == b[j - |a|];
        assert a[i] in a && b[j - |a|] in b;
      }
    }
  }

  lemma {:induction false} PositionsAbsent(times: seq<Instant>, t: Instant)
    requires t !in times
    ensures Positions(times, t) == []
  {
    if times != [] {
      assert times[..|times| - 1] <= times;
      PositionsAbsent(times[..|times| - 1], t);
    }
  }

  /** A time that occurs once is found at its one position. */
  lemma {:induction false} PositionsOfDistinct(times: seq<Instant>, i: nat)
    requires Distinct(times) && i < |times|
    ensures Positions(times, times[i]) == [i]
  {
    var last := |times| - 1;
    var prefix := times[..last];
    var t := times[i];
    if i == last {
      assert t !in prefix;
      PositionsAbsent(prefix, t);
    } else {
      assert prefix[i] == t;
      PositionsOfDistinct(prefix, i);
    }
  }

  /** On an index without repeated times, selecting the label of row `i` yields row `i` alone. */
  lemma SelectAtRow(ds: Dataset, i: nat)
    requires WellFormed(ds) && Distinct(ds.times) && i < |ds.times|
    ensures var r := SelectAt(ds, ds.times[i]);
      && r.times == [ds.times[i]]
      && forall n :: n in r.vars ==> r.vars[n] == [ds.vars[n][i]]
  {
    PositionsOfDistinct(ds.times, i);
  }
}
