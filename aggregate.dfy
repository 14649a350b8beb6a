/**
 * The body of `main`: for every configured period, every daily file of the
 * period's window is read cell by cell; raw values other than the fill value
 * are scaled by 0.0001 and summed into a `[time][lat][lon]` array that starts
 * at the sentinel -999.9, while a parallel array counts them. Finalisation
 * turns each sum into a mean and writes the counts as `nobs`.
 *
 * The grid is `nlat` by `nlon` (720 by 1440 in the program). A daily file is
 * abstracted as a function from its date token and a cell to the raw `sla`
 * value at time index 0 of that file.
 */
module Aggregate {
  import opened Wrappers
  import opened Rfc3339
  import opened TimeIndex

  /** The raw fill value of the daily `sla` variable. */
  const Fill: int := -2147483647
  /** What a cell holds before its first sample, and what a cell without samples reports. */
  const Sentinel: real := -999.9
  /** The `sla` scale factor. */
  const Scale: real := 0.0001
  /** Days on each side of a period's centre date. */
  const Radius: int := 3

  /** Raw `sla` of the daily file named by a date token, at a (lat, lon) cell. */
  type Source = (string, nat, nat) -> int

  /** The raw values of one cell across a list of daily files, in file order. */
  function Samples(source: Source, files: seq<string>, lat: nat, lon: nat): (xs: seq<int>)
    ensures |xs| == |files|
  {
    seq(|files|, k requires 0 <= k < |files| => source(files[k], lat, lon))
  }

  /** How many raw values are not the fill value. */
  function Count(xs: seq<int>): (n: nat)
    ensures n <= |xs|
  {
    if |xs| == 0 then 0
    else Count(xs[..|xs| - 1]) + (if xs[|xs| - 1] != Fill then 1 else 0)
  }

  /** The sum of the raw values that are not the fill value. */
  function Total(xs: seq<int>): int {
    if |xs| == 0 then 0
    else Total(xs[..|xs| - 1]) + (if xs[|xs| - 1] != Fill then xs[|xs| - 1] else 0)
  }

  /** What the sum array holds for a cell once these raw values are loaded. */
  function Accumulated(xs: seq<int>): real {
    if Count(xs) == 0 then Sentinel else Scale * Total(xs) as real
  }

  /** The mean the program is meant to report for a cell with these raw values. */
  function CellMean(xs: seq<int>): real {
    if Count(xs) == 0 then Sentinel else Scale * Total(xs) as real / Count(xs) as real
  }

  /** A cell has no valid sample exactly when every raw value is the fill value, and then sums to zero. */
  lemma {:induction false} NoValidSamples(xs: seq<int>)
    ensures Count(xs) == 0 <==> forall k :: 0 <= k < |xs| ==> xs[k] == Fill
    ensures Count(xs) == 0 ==> Total(xs) == 0
  {
    if |xs| > 0 {
      var init := xs[..|xs| - 1];
      NoValidSamples(init);
      assert forall k :: 0 <= k < |init| ==> init[k] == xs[k];
    }
  }

  /** Count and total split over concatenation: files may be read in any grouping. */
  lemma {:induction false} SplitSamples(xs: seq<int>, ys: seq<int>)
    ensures Count(xs + ys) == Count(xs) + Count(ys)
    ensures Total(xs + ys) == Total(xs) + Total(ys)
  {
    if |ys| == 0 {
      assert xs + ys == xs;
    } else {
      var init := ys[..|ys| - 1];
      assert (xs + ys)[..|xs + ys| - 1] == xs + init;
      assert (xs + ys)[|xs + ys| - 1] == ys[|ys| - 1];
      SplitSamples(xs, init);
    }
  }

  /** Reading one more raw value: the step each cell goes through in the load loop. */
  lemma LoadStep(xs: seq<int>, v: int)
    ensures Count(xs + [v]) == Count(xs) + (if v != Fill then 1 else 0)
    ensures Total(xs + [v]) == Total(xs) + (if v != Fill then v else 0)
    ensures Accumulated(xs + [v])
         == if v == Fill then Accumulated(xs) else (if Count(xs) == 0 then 0.0 else Accumulated(xs)) + v as real * Scale
  {
    SplitSamples(xs, [v]);
    assert [v][..0] == [];
    NoValidSamples(xs);
  }

  /** The files of one period grow by one file at a time. */
  lemma SamplesSnoc(source: Source, files: seq<string>, file: string, lat: nat, lon: nat)
    ensures Samples(source, files + [file], lat, lon) == Samples(source, files, lat, lon) + [source(file, lat, lon)]
  {
  }

  /** The two interim arrays have the same shape. */
  predicate SameShape(sums: array3<real>, counts: array3<int>) {
    sums.Length0 == counts.Length0 && sums.Length1 == counts.Length1 && sums.Length2 == counts.Length2
  }

  /** Cell `(t, lat, lon)` of the interim arrays holds what loading raw values `xs` produces. */
  predicate CellHolds(sums: array3<real>, counts: array3<int>, t: nat, lat: nat, lon: nat, xs: seq<int>)
    requires SameShape(sums, counts)
    requires t < sums.Length0 && lat < sums.Length1 && lon < sums.Length2
    reads sums, counts
  {
    sums[t, lat, lon] == Accumulated(xs) && counts[t, lat, lon] == Count(xs)
  }

  /** One daily file's pass over row `lat` of period `t`: each cell of the row takes one more raw value. */
  method AddRow(sums: array3<real>, counts: array3<int>, t: nat, lat: nat, source: Source, ghost done: seq<string>, file: string)
    requires SameShape(sums, counts) && t < sums.Length0 && lat < sums.Length1
    requires forall j :: 0 <= j < sums.Length2 ==> CellHolds(sums, counts, t, lat, j, Samples(source, done, lat, j))
    modifies sums, counts
    ensures forall j :: 0 <= j < sums.Length2 ==> CellHolds(sums, counts, t, lat, j, Samples(source, done + [file], lat, j))
    ensures forall u, i, j :: 0 <= u < sums.Length0 && 0 <= i < sums.Length1 && 0 <= j < sums.Length2 && (u != t || i != lat) ==>
      sums[u, i, j] == old(sums[u, i, j]) && counts[u, i, j] == old(counts[u, i, j])
  {
    for lon := 0 to sums.Length2
      invariant forall j :: 0 <= j < lon ==> CellHolds(sums, counts, t, lat, j, Samples(source, done + [file], lat, j))
      invariant forall j :: lon <= j < sums.Length2 ==> CellHolds(sums, counts, t, lat, j, Samples(source, done, lat, j))
      invariant forall u, i, j :: 0 <= u < sums.Length0 && 0 <= i < sums.Length1 && 0 <= j < sums.Length2 && (u != t || i != lat) ==>
        sums[u, i, j] == old(sums[u, i, j]) && counts[u, i, j] == old(counts[u, i, j])
    {
      var v := source(file, lat, lon);
      SamplesSnoc(source, done, file, lat, lon);
      LoadStep(Samples(source, done, lat, lon), v);
      if v != Fill {
        if counts[t, lat, lon] == 0 {
          sums[t, lat, lon] := 0.0;
        }
        sums[t, lat, lon] := sums[t, lat, lon] + v as real * Scale;
        counts[t, lat, lon] := counts[t, lat, lon] + 1;
      }
    }
  }

  /**
   * One daily file's pass over period `t`: every cell of slice `t` takes one
   * more raw value, skipping the fill value; slices of other periods are left
   * as they were.
   */
  method AddFile(sums: array3<real>, counts: array3<int>, t: nat, source: Source, ghost done: seq<string>, file: string)
    requires SameShape(sums, counts) && t < sums.Length0
    requires forall i, j :: 0 <= i < sums.Length1 && 0 <= j < sums.Length2 ==>
      CellHolds(sums, counts, t, i, j, Samples(source, done, i, j))
    modifies sums, counts
    ensures forall i, j :: 0 <= i < sums.Length1 && 0 <= j < sums.Length2 ==>
      CellHolds(sums, counts, t, i, j, Samples(source, done + [file], i, j))
    ensures forall u, i, j :: 0 <= u < sums.Length0 && u != t && 0 <= i < sums.Length1 && 0 <= j < sums.Length2 ==>
      sums[u, i, j] == old(sums[u, i, j]) && counts[u, i, j] == old(counts[u, i, j])
  {
    for lat := 0 to sums.Length1
      invariant forall i, j :: 0 <= i < lat && 0 <= j < sums.Length2 ==>
        CellHolds(sums, counts, t, i, j, Samples(source, done + [file], i, j))
      invariant forall i, j :: lat <= i < sums.Length1 && 0 <= j < sums.Length2 ==>
        CellHolds(sums, counts, t, i, j, Samples(source, done, i, j))
      invariant forall u, i, j :: 0 <= u < sums.Length0 && u != t && 0 <= i < sums.Length1 && 0 <= j < sums.Length2 ==>
        sums[u, i, j] == old(sums[u, i, j]) && counts[u, i, j] == old(counts[u, i, j])
    {
      AddRow(sums, counts, t, lat, source, done, file);
    }
  }

  /** Loading every file of a period into slice `t`, which starts untouched. */
  method LoadPeriod(sums: array3<real>, counts: array3<int>, t: nat, source: Source, files: seq<string>)
    requires SameShape(sums, counts) && t < sums.Length0
    requires forall i, j :: 0 <= i < sums.Length1 && 0 <= j < sums.Length2 ==>
      sums[t, i, j] == Sentinel && counts[t, i, j] == 0
    modifies sums, counts
    ensures forall i, j :: 0 <= i < sums.Length1 && 0 <= j < sums.Length2 ==>
      CellHolds(sums, counts, t, i, j, Samples(source, files, i, j))
    ensures forall u, i, j :: 0 <= u < sums.Length0 && u != t && 0 <= i < sums.Length1 && 0 <= j < sums.Length2 ==>
      sums[u, i, j] == old(sums[u, i, j]) && counts[u, i, j] == old(counts[u, i, j])
  {
    for f := 0 to |files|
      invariant forall i, j :: 0 <= i < sums.Length1 && 0 <= j < sums.Length2 ==>
        CellHolds(sums, counts, t, i, j, Samples(source, files[..f], i, j))
      invariant forall u, i, j :: 0 <= u < sums.Length0 && u != t && 0 <= i < sums.Length1 && 0 <= j < sums.Length2 ==>
        sums[u, i, j] == old(sums[u, i, j]) && counts[u, i, j] == old(counts[u, i, j])
    {
      AddFile(sums, counts, t, source, files[..f], files[f]);
      assert files[..f + 1] == files[..f] + [files[f]];
    }
    assert files[..|files|] == files;
  }

  /** The raw values a cell of a period collects: one per day of the period's window. */
  function PeriodSamples(source: Source, center: string, lat: nat, lon: nat): seq<int>
    requires Window(center, Radius).Some?
  {
    Samples(source, Window(center, Radius).value, lat, lon)
  }

  /** The interim per-period sums and counts. */
  datatype Interim = Interim(sums: array3<real>, counts: array3<int>)

  /**
   * The load loops of `main`: a fresh `[period][lat][lon]` pair of arrays at
   * the sentinel and zero, then every period's window loaded into its own
   * slice; `None` when a period centre does not parse (the `unwrap` in
   * `timewindow` panics).
   */
  method Load(dates: seq<string>, source: Source, nlat: nat, nlon: nat) returns (r: Option<Interim>)
    ensures r.Some? <==> forall t :: 0 <= t < |dates| ==> Window(dates[t], Radius).Some?
    ensures r.Some? ==> fresh(r.value.sums) && fresh(r.value.counts) && SameShape(r.value.sums, r.value.counts)
    ensures r.Some? ==> r.value.sums.Length0 == |dates| && r.value.sums.Length1 == nlat && r.value.sums.Length2 == nlon
    ensures r.Some? ==> forall t, i, j :: 0 <= t < |dates| && 0 <= i < nlat && 0 <= j < nlon ==>
      CellHolds(r.value.sums, r.value.counts, t, i, j, PeriodSamples(source, dates[t], i, j))
  {
    var sums := new real[|dates|, nlat, nlon]((_, _, _) => Sentinel);
    var counts := new int[|dates|, nlat, nlon]((_, _, _) => 0);
    for timeidx := 0 to |dates|
      invariant forall t :: 0 <= t < timeidx ==> Window(dates[t], Radius).Some?
      invariant forall t, i, j :: 0 <= t < timeidx && 0 <= i < nlat && 0 <= j < nlon ==>
        CellHolds(sums, counts, t, i, j, PeriodSamples(source, dates[t], i, j))
      invariant forall t, i, j :: timeidx <= t < |dates| && 0 <= i < nlat && 0 <= j < nlon ==>
        sums[t, i, j] == Sentinel && counts[t, i, j] == 0
    {
      var window := TimeWindow(dates[timeidx], Radius);
      if window.None? {
        return None;
      }
      LoadPeriod(sums, counts, timeidx, source, window.value);
    }
    return Some(Interim(sums, counts));
  }

  /** The finalisation of one cell: its sum over its count, or the sentinel when it has no samples. */
  function Finalised(sum: real, count: int): real {
    if count > 0 then sum / count as real else sum
  }

  /** Finalising a loaded cell gives the mean of its valid raw values, or the sentinel. */
  lemma FinalisedIsMean(xs: seq<int>)
    ensures Finalised(Accumulated(xs), Count(xs)) == CellMean(xs)
    ensures Count(xs) == 0 <==> forall k :: 0 <= k < |xs| ==> xs[k] == Fill
  {
    NoValidSamples(xs);
  }

  /** One `msla` row of the mean loop: the finalised cells of row `lat` of period `t`. */
  method MeanRow(sums: array3<real>, counts: array3<int>, t: nat, lat: nat) returns (msla: seq<real>)
    requires SameShape(sums, counts) && t < sums.Length0 && lat < sums.Length1
    ensures |msla| == sums.Length2
    ensures forall lon :: 0 <= lon < sums.Length2 ==> msla[lon] == Finalised(sums[t, lat, lon], counts[t, lat, lon])
  {
    msla := [];
    for lon := 0 to sums.Length2
      invariant |msla| == lon
      invariant forall j :: 0 <= j < lon ==> msla[j] == Finalised(sums[t, lat, j], counts[t, lat, j])
    {
      if counts[t, lat, lon] > 0 {
        msla := msla + [sums[t, lat, lon] / counts[t, lat, lon] as real];
      } else {
        msla := msla + [sums[t, lat, lon]];
      }
    }
  }

  /** One `nobsx` row of the count loop: the counts of row `lat` of period `t`, unchanged. */
  method NobsRow(counts: array3<int>, t: nat, lat: nat) returns (nobsx: seq<int>)
    requires t < counts.Length0 && lat < counts.Length1
    ensures |nobsx| == counts.Length2
    ensures forall lon :: 0 <= lon < counts.Length2 ==> nobsx[lon] == counts[t, lat, lon]
  {
    nobsx := [];
    for lon := 0 to counts.Length2
      invariant |nobsx| == lon
      invariant forall j :: 0 <= j < lon ==> nobsx[j] == counts[t, lat, j]
    {
      nobsx := nobsx + [counts[t, lat, lon]];
    }
  }

  /** The `sla` and `nobs` output variables. */
  datatype Output = Output(means: array3<real>, nobs: array3<int>, timestamps: seq<int>)

  /**
   * The finalise loops of `main`: every row of means and of counts, written
   * into the output variables.
   */
  method Finalise(interim: Interim) returns (means: array3<real>, nobs: array3<int>)
    requires SameShape(interim.sums, interim.counts)
    ensures fresh(means) && fresh(nobs) && SameShape(means, nobs)
    ensures means.Length0 == interim.sums.Length0 && means.Length1 == interim.sums.Length1
    ensures means.Length2 == interim.sums.Length2
    ensures forall t, i, j :: 0 <= t < means.Length0 && 0 <= i < means.Length1 && 0 <= j < means.Length2 ==>
      means[t, i, j] == Finalised(interim.sums[t, i, j], interim.counts[t, i, j])
      && nobs[t, i, j] == interim.counts[t, i, j]
  {
    var sums, counts := interim.sums, interim.counts;
    means := new real[sums.Length0, sums.Length1, sums.Length2];
    nobs := new int[sums.Length0, sums.Length1, sums.Length2];
    for time := 0 to sums.Length0
      invariant forall t, i, j :: 0 <= t < time && 0 <= i < sums.Length1 && 0 <= j < sums.Length2 ==>
        means[t, i, j] == Finalised(sums[t, i, j], counts[t, i, j]) && nobs[t, i, j] == counts[t, i, j]
    {
      for lat := 0 to sums.Length1
        invariant forall t, i, j :: (0 <= t < sums.Length0 && 0 <= i < sums.Length1 && 0 <= j < sums.Length2
          && (t < time || (t == time && i < lat))) ==>
          means[t, i, j] == Finalised(sums[t, i, j], counts[t, i, j]) && nobs[t, i, j] == counts[t, i, j]
      {
        var msla := MeanRow(sums, counts, time, lat);
        var nobsx := NobsRow(counts, time, lat);
        PutRow(means, time, lat, msla);
        PutRow(nobs, time, lat, nobsx);
      }
    }
  }

  /** `put_values(&row, (t, lat, ..))`: row `lat` of period `t` becomes `row`. */
  method PutRow<T>(a: array3<T>, t: nat, lat: nat, row: seq<T>)
    requires t < a.Length0 && lat < a.Length1 && |row| == a.Length2
    modifies a
    ensures forall j :: 0 <= j < a.Length2 ==> a[t, lat, j] == row[j]
    ensures forall u, i, j :: 0 <= u < a.Length0 && 0 <= i < a.Length1 && 0 <= j < a.Length2 && (u != t || i != lat) ==>
      a[u, i, j] == old(a[u, i, j])
  {
    for lon := 0 to a.Length2
      invariant forall j :: 0 <= j < lon ==> a[t, lat, j] == row[j]
      invariant forall u, i, j :: 0 <= u < a.Length0 && 0 <= i < a.Length1 && 0 <= j < a.Length2 && (u != t || i != lat) ==>
        a[u, i, j] == old(a[u, i, j])
    {
      a[t, lat, lon] := row[lon];
    }
  }

  /**
   * `main` without its file I/O: the `timesteps` loop, the load loops and the
   * finalise loops. Each output cell holds the mean of the valid raw values of
   * the period's seven daily files, or the sentinel when there are none, and
   * `nobs` holds how many there were.
   */
  method Run(dates: seq<string>, source: Source, nlat: nat, nlon: nat) returns (r: Option<Output>)
    ensures r.Some? <==> forall t :: 0 <= t < |dates| ==> Parse(dates[t]).Some?
    ensures r.Some? ==> fresh(r.value.means) && fresh(r.value.nobs)
    ensures r.Some? ==> r.value.means.Length0 == |dates| && r.value.means.Length1 == nlat && r.value.means.Length2 == nlon
    ensures r.Some? ==> SameShape(r.value.means, r.value.nobs)
    ensures r.Some? ==> forall t, i, j :: 0 <= t < |dates| && 0 <= i < nlat && 0 <= j < nlon ==>
      Window(dates[t], Radius).Some?
      && r.value.means[t, i, j] == CellMean(PeriodSamples(source, dates[t], i, j))
      && r.value.nobs[t, i, j] == Count(PeriodSamples(source, dates[t], i, j))
      && 0 <= r.value.nobs[t, i, j] <= 2 * Radius + 1
    ensures r.Some? ==> |r.value.timestamps| == |dates|
    ensures r.Some? ==> forall t :: 0 <= t < |dates| ==> r.value.timestamps[t] == DaysSince(EpochTime, Parse(dates[t]).value)
  {
    var steps := TimeSteps(dates);
    if steps.None? {
      return None;
    }
    var interim := Load(dates, source, nlat, nlon);
    if interim.None? {
      return None;
    }
    var means, nobs := Finalise(interim.value);
    forall t, i, j | 0 <= t < |dates| && 0 <= i < nlat && 0 <= j < nlon
      ensures means[t, i, j] == CellMean(PeriodSamples(source, dates[t], i, j))
    {
      FinalisedIsMean(PeriodSamples(source, dates[t], i, j));
    }
    return Some(Output(means, nobs, steps.value));
  }

  // The load and finalise loops as the program writes them: the sentinel
  // itself, not the count, tells whether a cell has started.

  /** A cell's `(sum, count)` after the program's own load loop over raw values `xs`. */
  function AsWrittenLoad(xs: seq<int>): (sc: (real, nat))
    ensures sc.1 == Count(xs)
    ensures sc.1 == 0 ==> sc.0 == Sentinel
  {
    if |xs| == 0 then (Sentinel, 0)
    else
      var prev := AsWrittenLoad(xs[..|xs| - 1]);
      var v := xs[|xs| - 1];
      if v == Fill then prev
      else ((if prev.0 == Sentinel then 0.0 else prev.0) + v as real * Scale, prev.1 + 1)
  }

  /** The program's own finalisation of a cell, which divides unless the sum equals the sentinel. */
  function AsWrittenFinalised(sum: real, count: nat): (m: real)
    requires count == 0 ==> sum == Sentinel
    ensures sum == Sentinel ==> m == Sentinel
    ensures sum != Sentinel ==> count > 0 && m * count as real == sum
  {
    if sum != Sentinel then sum / count as real else sum
  }

  /**
   * The sentinel test agrees with the intended count test as long as no
   * partial sum of a started cell lands exactly on -999.9.
   */
  lemma {:induction false} AsWrittenAgrees(xs: seq<int>)
    requires forall k :: 0 < k <= |xs| && Count(xs[..k]) > 0 ==> Scale * Total(xs[..k]) as real != Sentinel
    ensures AsWrittenLoad(xs) == (Accumulated(xs), Count(xs))
    ensures AsWrittenFinalised(Accumulated(xs), Count(xs)) == CellMean(xs)
  {
    if |xs| > 0 {
      var init := xs[..|xs| - 1];
      forall k | 0 < k <= |init| && Count(init[..k]) > 0
        ensures Scale * Total(init[..k]) as real != Sentinel
      {
        assert init[..k] == xs[..k];
      }
      AsWrittenAgrees(init);
      assert xs[..|xs|] == xs;
      LoadStep(init, xs[|xs| - 1]);
      assert init + [xs[|xs| - 1]] == xs;
    }
  }

  /**
   * A raw value of -9999000 brings the running sum to exactly -999.9, so the
   * next valid value restarts the sum: the cell reports 0.0005 where the mean
   * of its two valid values is -499.9495.
   */
  lemma SentinelCollision()
    ensures AsWrittenLoad([-9999000, 10]) == (0.001, 2)
    ensures AsWrittenFinalised(0.001, 2) == 0.0005
    ensures CellMean([-9999000, 10]) == -499.9495
  {
    var xs := [-9999000, 10];
    assert xs[..1] == [-9999000] && [-9999000][..0] == [];
    assert AsWrittenLoad([-9999000]) == (Sentinel, 1);
    assert Count([-9999000]) == 1 && Total([-9999000]) == -9999000;
  }
}
