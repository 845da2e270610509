/** The `SED` class of modelSED/sed.py: construction with its fittype check, reading the
    lightcurve, the binning loops of `get_mean_magnitudes`, and the per-bin and global
    fits of `fit_bins` and `fit_global`, whose numerical fitting is a function parameter. */
module Sed {
  import opened SedTypes
  import opened Stats
  import opened Edges
  import opened Binning
  import opened Qualification

  const DEFAULT_LIGHTCURVE_PATH: string := "data/lightcurves/full_lc_fp.csv"

  /** What a fit of one bin depends on besides the bin's rows. */
  datatype FitConfig = FitConfig(fittype: FitType, redshift: real, fitAlgorithm: string)

  // ---------------------------------------------------------------------------
  // `fit_bins` as a specification
  // ---------------------------------------------------------------------------

  /** The arguments `fit_bins` passes on to `get_mean_magnitudes`. Without `bands` the method
      reads the table it has not yet computed, and fails. */
  function FitBinsOptions(bands: Option<seq<string>>, minBandsPerBin: Option<int>,
                          necessaryBands: Option<seq<string>>, binsFromDf: bool): (r: Result<BinOptions>)
    ensures r.Err? <==> bands.None?
    ensures r.Err? ==> r.error == BinnedTableUsedBeforeAssignment
    ensures r.Ok? ==> r.value.bands == bands && r.value.binsFromDf == binsFromDf
    ensures r.Ok? && minBandsPerBin.None? ==> MinBands(r.value) == |bands.value|
    ensures r.Ok? && minBandsPerBin.Some? ==> MinBands(r.value) == minBandsPerBin.value
    ensures r.Ok? ==> forall b :: b in Necessary(r.value) <==> necessaryBands.Some? && b in necessaryBands.value
  {
    match bands
    case None => Err(BinnedTableUsedBeforeAssignment)
    case Some(bs) =>
      Ok(BinOptions(bands, Some(minBandsPerBin.GetOr(|bs|)), Some(necessaryBands.GetOr([])), binsFromDf))
  }

  /** `fitparams` after the first `n` groups: key `i` holds the fit of the group of time `ts[i]`. */
  function FitResultsUpTo<R>(binned: seq<AggRow>, ts: seq<real>, cfg: FitConfig,
                             fit: (FitConfig, seq<AggRow>) -> R, n: nat): map<nat, R>
  {
    map i: nat | i < n && i < |ts| :: fit(cfg, WithTime(binned, ts[i]))
  }

  /** `fitparams` once the group of every distinct time of the binned table has been fitted. */
  function FitResults<R>(binned: seq<AggRow>, cfg: FitConfig, fit: (FitConfig, seq<AggRow>) -> R): map<nat, R>
  {
    var ts := UniqueTimes(binned);
    FitResultsUpTo(binned, ts, cfg, fit, |ts|)
  }

  /** `fitparams.update({index: result})` extends the prefix by one key. */
  lemma FitResultsUpToStep<R>(binned: seq<AggRow>, ts: seq<real>, cfg: FitConfig,
                              fit: (FitConfig, seq<AggRow>) -> R, n: nat)
    requires n < |ts|
    ensures FitResultsUpTo(binned, ts, cfg, fit, n + 1) ==
      FitResultsUpTo(binned, ts, cfg, fit, n)[n := fit(cfg, WithTime(binned, ts[n]))]
  {
    var a := FitResultsUpTo(binned, ts, cfg, fit, n + 1);
    var b := FitResultsUpTo(binned, ts, cfg, fit, n)[n := fit(cfg, WithTime(binned, ts[n]))];
    assert a.Keys == b.Keys;
  }

  /** Every time of the binned table has exactly one key, and that key holds the fit of its group. */
  lemma FitResultsPerTime<R>(binned: seq<AggRow>, cfg: FitConfig, fit: (FitConfig, seq<AggRow>) -> R, t: real)
    returns (i: nat)
    requires WithTime(binned, t) != []
    ensures i in FitResults(binned, cfg, fit) && FitResults(binned, cfg, fit)[i] == fit(cfg, WithTime(binned, t))
    ensures i < |UniqueTimes(binned)| && UniqueTimes(binned)[i] == t
    ensures forall j :: 0 <= j < |UniqueTimes(binned)| && UniqueTimes(binned)[j] == t ==> j == i
  {
    var ts := UniqueTimes(binned);
    var k :| 0 <= k < |ts| && ts[k] == t;
    i := k;
  }

  /** The keys are exactly 0 .. k-1 for the k distinct times of the table, each holding the fit of
      the group of the time at that position. */
  lemma FitResultsKeySet<R>(binned: seq<AggRow>, cfg: FitConfig, fit: (FitConfig, seq<AggRow>) -> R)
    ensures forall n: nat :: n in FitResults(binned, cfg, fit) <==> n < |UniqueTimes(binned)|
    ensures forall n: nat :: n in FitResults(binned, cfg, fit) ==>
      FitResults(binned, cfg, fit)[n] == fit(cfg, WithTime(binned, UniqueTimes(binned)[n]))
  {
  }

  /** Keys follow the order in which the times first appear in the table, one time per key. */
  lemma FitResultsKeys<R>(binned: seq<AggRow>, cfg: FitConfig, fit: (FitConfig, seq<AggRow>) -> R, i: nat, j: nat)
    requires i < j < |UniqueTimes(binned)|
    ensures UniqueTimes(binned)[i] != UniqueTimes(binned)[j]
    ensures FirstIndex(AggTimes(binned), UniqueTimes(binned)[i]) < FirstIndex(AggTimes(binned), UniqueTimes(binned)[j])
  {
    UniqueFirstAppearanceOrder(AggTimes(binned), i, j);
  }

  /** `fit_bins` up to the JSON dump: the options, the binned table, then one fit per time group. */
  function FitBinsResult<R>(lc: seq<Measurement>, nbins: int, wl: map<string, real>, cfg: FitConfig,
                            fit: (FitConfig, seq<AggRow>) -> R, bands: Option<seq<string>>,
                            minBandsPerBin: Option<int>, necessaryBands: Option<seq<string>>,
                            binsFromDf: bool): Result<map<nat, R>>
  {
    match FitBinsOptions(bands, minBandsPerBin, necessaryBands, binsFromDf)
    case Err(e) => Err(e)
    case Ok(opts) =>
      match MeanMagnitudes(lc, nbins, wl, opts)
      case Err(e) => Err(e)
      case Ok(binned) =>
        if binned == [] then Err(MissingMeanObsmjdColumn)
        else Ok(FitResults(binned, cfg, fit))
  }

  /** Each fitted group is a whole group of the aggregate table that met the criteria. */
  lemma FitBinsGroup<R>(lc: seq<Measurement>, nbins: int, wl: map<string, real>, cfg: FitConfig,
                        fit: (FitConfig, seq<AggRow>) -> R, bands: Option<seq<string>>,
                        minBandsPerBin: Option<int>, necessaryBands: Option<seq<string>>,
                        binsFromDf: bool, i: nat) returns (t: real)
    requires FitBinsResult(lc, nbins, wl, cfg, fit, bands, minBandsPerBin, necessaryBands, binsFromDf).Ok?
    requires i in FitBinsResult(lc, nbins, wl, cfg, fit, bands, minBandsPerBin, necessaryBands, binsFromDf).value
    ensures bands.Some? && lc != [] && nbins + 1 >= 0
    ensures var opts := FitBinsOptions(bands, minBandsPerBin, necessaryBands, binsFromDf).value;
      && AggregateTable(lc, nbins, wl, opts).Ok?
      && var group := WithTime(AggregateTable(lc, nbins, wl, opts).value, t);
      && group != [] && Qualifies(group, MinBands(opts), Necessary(opts))
      && FitBinsResult(lc, nbins, wl, cfg, fit, bands, minBandsPerBin, necessaryBands, binsFromDf).value[i]
           == fit(cfg, group)
  {
    var opts := FitBinsOptions(bands, minBandsPerBin, necessaryBands, binsFromDf).value;
    var binned := MeanMagnitudes(lc, nbins, wl, opts).value;
    var ts := UniqueTimes(binned);
    t := ts[i];
    MeanMagnitudesGroups(lc, nbins, wl, opts, t, binned[0]);
  }

  /** Key `i` of `fitparams` holds the fit of the `i`-th qualifying group of the aggregate table, in
      the order the groups' times first appear there; in equal-width mode those times strictly increase. */
  lemma FitBinsKeyOrder<R>(lc: seq<Measurement>, nbins: int, wl: map<string, real>, cfg: FitConfig,
                           fit: (FitConfig, seq<AggRow>) -> R, bands: Option<seq<string>>,
                           minBandsPerBin: Option<int>, necessaryBands: Option<seq<string>>, binsFromDf: bool)
    requires FitBinsResult(lc, nbins, wl, cfg, fit, bands, minBandsPerBin, necessaryBands, binsFromDf).Ok?
    ensures bands.Some? && lc != [] && nbins + 1 >= 0
    ensures var opts := FitBinsOptions(bands, minBandsPerBin, necessaryBands, binsFromDf).value;
      && AggregateTable(lc, nbins, wl, opts).Ok?
      && var temp := AggregateTable(lc, nbins, wl, opts).value;
      && var qs := QualifyingTimes(temp, UniqueTimes(temp), MinBands(opts), Necessary(opts));
      && var fitparams := FitBinsResult(lc, nbins, wl, cfg, fit, bands, minBandsPerBin, necessaryBands, binsFromDf).value;
      && (forall i: nat :: i in fitparams <==> i < |qs|)
      && (forall i: nat :: i < |qs| ==> fitparams[i] == fit(cfg, WithTime(temp, qs[i])))
      && (!binsFromDf ==> StrictlySorted(qs))
  {
    var opts := FitBinsOptions(bands, minBandsPerBin, necessaryBands, binsFromDf).value;
    var binned := MeanMagnitudes(lc, nbins, wl, opts).value;
    var temp := AggregateTable(lc, nbins, wl, opts).value;
    var qs := QualifyingTimes(temp, UniqueTimes(temp), MinBands(opts), Necessary(opts));
    MeanMagnitudesOrder(lc, nbins, wl, opts);
    FitResultsKeySet(binned, cfg, fit);
    forall i: nat | i < |qs| ensures WithTime(binned, qs[i]) == WithTime(temp, qs[i]) {
      assert qs[i] in qs;
      MeanMagnitudesGroups(lc, nbins, wl, opts, qs[i], binned[0]);
    }
    if !binsFromDf {
      EqualWidthOrdered(lc, nbins, wl, opts);
    }
  }

  /** `fit_global` up to the JSON dump: the table is binned with the default criteria, and the
      minimum number of data points defaults to the number of bands, which fails without bands. */
  function FitGlobalResult<R>(lc: seq<Measurement>, nbins: int, wl: map<string, real>, cfg: FitConfig,
                              fitGlobal: (FitConfig, seq<AggRow>, int) -> R, bands: Option<seq<string>>,
                              minDatapoints: Option<int>, binsFromDf: bool): Result<R>
  {
    match MeanMagnitudes(lc, nbins, wl, BinOptions(bands, None, None, binsFromDf))
    case Err(e) => Err(e)
    case Ok(binned) =>
      match minDatapoints
      case Some(md) => Ok(fitGlobal(cfg, binned, md))
      case None =>
        match bands
        case None => Err(LengthOfNone)
        case Some(bs) => Ok(fitGlobal(cfg, binned, |bs|))
  }

  /** The global fit sees the table binned with at least two rows per time and no necessary band;
      `min_datapoints` defaults to the number of bands, and the call fails on `len(None)` exactly
      when neither bands nor a minimum number of data points was given. */
  lemma FitGlobalDefaults<R>(lc: seq<Measurement>, nbins: int, wl: map<string, real>, cfg: FitConfig,
                             fitGlobal: (FitConfig, seq<AggRow>, int) -> R, bands: Option<seq<string>>,
                             minDatapoints: Option<int>, binsFromDf: bool)
    requires MeanMagnitudes(lc, nbins, wl, BinOptions(bands, None, None, binsFromDf)).Ok?
    ensures var r := FitGlobalResult(lc, nbins, wl, cfg, fitGlobal, bands, minDatapoints, binsFromDf);
      var binned := MeanMagnitudes(lc, nbins, wl, BinOptions(bands, Some(2), Some([]), binsFromDf)).value;
      && (r.Err? <==> bands.None? && minDatapoints.None?)
      && (r.Err? ==> r.error == LengthOfNone)
      && (r.Ok? && minDatapoints.Some? ==> r.value == fitGlobal(cfg, binned, minDatapoints.value))
      && (r.Ok? && minDatapoints.None? ==> r.value == fitGlobal(cfg, binned, |bands.value|))
  {
    var binned := MeanMagnitudes(lc, nbins, wl, BinOptions(bands, Some(2), Some([]), binsFromDf)).value;
    assert MeanMagnitudes(lc, nbins, wl, BinOptions(bands, None, None, binsFromDf)).value == binned;
  }

  // ---------------------------------------------------------------------------
  // The SED object
  // ---------------------------------------------------------------------------

  class Sed {
    var pathToLightcurve: Option<string>
    var nbins: int
    var redshift: real
    var fittype: FitType
    var fitAlgorithm: string
    var filterWl: map<string, real>
    var lc: seq<Measurement>

    /** Field assignment and `read_lightcurve`, after the fittype has been validated; the
        wavelength table and the lightcurve file's contents are given. */
    constructor (redshift: real, nbins: int, fittype: FitType, fitAlgorithm: string,
                 pathToLightcurve: Option<string>, filterWl: map<string, real>, table: CsvTable)
      ensures this.redshift == redshift && this.nbins == nbins && this.fittype == fittype
      ensures this.fitAlgorithm == fitAlgorithm && this.filterWl == filterWl
      ensures this.pathToLightcurve == Some(pathToLightcurve.GetOr(DEFAULT_LIGHTCURVE_PATH))
      ensures this.lc == LoadLightcurve(table)
    {
      this.pathToLightcurve := pathToLightcurve;
      this.nbins := nbins;
      this.redshift := redshift;
      this.fittype := fittype;
      this.fitAlgorithm := fitAlgorithm;
      this.filterWl := filterWl;
      this.lc := [];
      new;
      ReadLightcurve(table);
    }

    /** `SED(...)`: rejects any fittype but the two models before an object exists. */
    static method Create(filterWl: map<string, real>, table: CsvTable, redshift: real,
                         nbins: int := 30, fittype: string := "powerlaw", fitAlgorithm: string := "leastsq",
                         pathToLightcurve: Option<string> := None)
      returns (r: Result<Sed>)
      ensures r.Err? <==> fittype != "powerlaw" && fittype != "blackbody"
      ensures r.Err? ==> r.error == InvalidFitType
      ensures r.Ok? ==> fresh(r.value)
      ensures r.Ok? ==> FitTypeName(r.value.fittype) == fittype && r.value.nbins == nbins
      ensures r.Ok? ==> r.value.redshift == redshift && r.value.fitAlgorithm == fitAlgorithm
      ensures r.Ok? ==> r.value.filterWl == filterWl && r.value.lc == LoadLightcurve(table)
      ensures r.Ok? ==> r.value.pathToLightcurve == Some(pathToLightcurve.GetOr(DEFAULT_LIGHTCURVE_PATH))
    {
      match ParseFitType(fittype)
      case Err(e) =>
        r := Err(e);
      case Ok(ft) =>
        var sed := new Sed(redshift, nbins, ft, fitAlgorithm, pathToLightcurve, filterWl, table);
        r := Ok(sed);
    }

    /** `read_lightcurve`: the default path, and the `telescope_band` column kept or derived. */
    method ReadLightcurve(table: CsvTable)
      modifies this`pathToLightcurve, this`lc
      ensures pathToLightcurve == Some(old(pathToLightcurve).GetOr(DEFAULT_LIGHTCURVE_PATH))
      ensures lc == LoadLightcurve(table)
    {
      if pathToLightcurve.None? {
        pathToLightcurve := Some(DEFAULT_LIGHTCURVE_PATH);
      }
      lc := LoadLightcurve(table);
    }

    function Config(): FitConfig
      reads this
    {
      FitConfig(fittype, redshift, fitAlgorithm)
    }

    /** The inner loop over the bands of one bin: one aggregate row per band, in first-appearance order. */
    method AggregateBin(df: seq<Measurement>, meanObsmjd: real) returns (r: Result<seq<AggRow>>)
      ensures r == BinRows(df, BandsOf(df), meanObsmjd, filterWl)
    {
      var bands := BandsOf(df);
      var rows: seq<AggRow> := [];
      var j := 0;
      while j < |bands|
        invariant 0 <= j <= |bands|
        invariant BinRows(df, bands[..j], meanObsmjd, filterWl) == Ok(rows)
      {
        var telescopeBand := bands[j];
        var group := WithBand(df, telescopeBand);
        var meanMag := Mean(Mags(group));
        var meanMagErr := Mean(MagErrs(group));
        var entries := |group|;
        BinRowsStep(df, bands, meanObsmjd, filterWl, j, rows);
        if telescopeBand !in filterWl {
          BinRowsError(df, bands[..j + 1], meanObsmjd, filterWl);
          BinRowsFirstError(df, bands, meanObsmjd, filterWl, j);
          return Err(UnknownBand(telescopeBand));
        }
        var wavelength := filterWl[telescopeBand];
        rows := rows + [AggRow(telescopeBand, wavelength, meanObsmjd, entries, meanMag, meanMagErr)];
        j := j + 1;
      }
      assert bands[..j] == bands;
      return Ok(rows);
    }

    /** `get_mean_magnitudes`: filter, bin, aggregate, then qualify. */
    method GetMeanMagnitudes(opts: BinOptions) returns (r: Result<seq<AggRow>>)
      ensures r == MeanMagnitudes(lc, nbins, filterWl, opts)
    {
      if lc == [] {
        return Err(EmptyLightcurve);
      }
      if nbins + 1 < 0 {
        return Err(NegativeSampleCount(nbins + 1));
      }
      var mjdIter := TimeGrid(lc, nbins);
      var bandsToFit := BandsToFit(opts.bands, filterWl);
      var rows := KeepBands(lc, bandsToFit);
      var temp: Result<seq<AggRow>>;
      if !opts.binsFromDf {
        temp := EqualWidthTable(rows, mjdIter);
      } else {
        temp := PredefinedTable(rows);
      }
      assert temp == AggregateTable(lc, nbins, filterWl, opts);
      if temp.Err? {
        return Err(temp.error);
      }
      if temp.value == [] {
        return Err(MissingMeanObsmjdColumn);
      }
      var result := QualifyTable(temp.value, MinBands(opts), Necessary(opts));
      return Ok(result);
    }

    /** The loop over `enumerate(mjd_iter)`: every edge but the last opens a bin up to the next edge. */
    method EqualWidthTable(rows: seq<Measurement>, mjdIter: seq<real>) returns (r: Result<seq<AggRow>>)
      ensures r == ScanBins(EqualWidthBins(rows, mjdIter), filterWl, NumBins(mjdIter))
    {
      ghost var timeBins := EqualWidthBins(rows, mjdIter);
      var temp: seq<AggRow> := [];
      var index := 0;
      while index < |mjdIter|
        invariant 0 <= index <= |mjdIter|
        invariant index < |mjdIter| ==> ScanBins(timeBins, filterWl, index) == Ok(temp)
        invariant index == |mjdIter| ==> ScanBins(timeBins, filterWl, |timeBins|) == Ok(temp)
      {
        if index != |mjdIter| - 1 {
          var next := EqualWidthBin(rows, mjdIter, index, temp);
          if next.Err? {
            ScanErrorPersists(timeBins, filterWl, index + 1, |timeBins|);
            return next;
          }
          temp := next.value;
        }
        index := index + 1;
      }
      return Ok(temp);
    }

    /** One pass of that loop: the rows of `[mjdIter[index], mjdIter[index + 1])`, stamped with
        the midpoint of the two edges, appended to `temp_df`. */
    method EqualWidthBin(rows: seq<Measurement>, mjdIter: seq<real>, index: int, temp: seq<AggRow>)
      returns (r: Result<seq<AggRow>>)
      requires 0 <= index < NumBins(mjdIter)
      requires ScanBins(EqualWidthBins(rows, mjdIter), filterWl, index) == Ok(temp)
      ensures r == ScanBins(EqualWidthBins(rows, mjdIter), filterWl, index + 1)
    {
      var df := InInterval(rows, mjdIter[index], mjdIter[index + 1]);
      var meanObsmjd := (mjdIter[index] + mjdIter[index + 1]) / 2.0;
      assert EqualWidthBins(rows, mjdIter)[index] == Bin(df, meanObsmjd);
      var binRows := AggregateBin(df, meanObsmjd);
      ScanStep(EqualWidthBins(rows, mjdIter), filterWl, index, temp);
      if binRows.Err? {
        return Err(binRows.error);
      }
      return Ok(temp + binRows.value);
    }

    /** The loop over `lc.bin.unique()`: each label's rows, stamped with their mean time. */
    method PredefinedTable(rows: seq<Measurement>) returns (r: Result<seq<AggRow>>)
      ensures r == ScanBins(LabelBins(rows, LabelsOf(rows)), filterWl, |LabelsOf(rows)|)
    {
      r := LabelScan(rows, LabelsOf(rows));
    }

    /** The body of that loop run over the labels `bins`, each of which labels at least one row. */
    method LabelScan(rows: seq<Measurement>, bins: seq<int>) returns (r: Result<seq<AggRow>>)
      requires forall i :: 0 <= i < |bins| ==> WithLabel(rows, bins[i]) != []
      ensures r == ScanBins(LabelBins(rows, bins), filterWl, |bins|)
    {
      ghost var labelBins := LabelBins(rows, bins);
      var temp: seq<AggRow> := [];
      var k := 0;
      while k < |bins|
        invariant 0 <= k <= |bins|
        invariant k < |bins| ==> ScanBins(labelBins, filterWl, k) == Ok(temp)
        invariant k == |bins| ==> ScanBins(labelBins, filterWl, |labelBins|) == Ok(temp)
      {
        var next := PredefinedBin(rows, bins, k, temp);
        if next.Err? {
          ScanErrorPersists(labelBins, filterWl, k + 1, |bins|);
          return next;
        }
        temp := next.value;
        k := k + 1;
      }
      return Ok(temp);
    }

    /** One pass of that loop: the rows labelled `bins[k]`, stamped with their mean time, appended to `temp_df`. */
    method PredefinedBin(rows: seq<Measurement>, bins: seq<int>, k: int, temp: seq<AggRow>)
      returns (r: Result<seq<AggRow>>)
      requires 0 <= k < |bins| && WithLabel(rows, bins[k]) != []
      requires ScanBins(LabelBins(rows, bins), filterWl, k) == Ok(temp)
      ensures r == ScanBins(LabelBins(rows, bins), filterWl, k + 1)
    {
      var df := WithLabel(rows, bins[k]);
      var meanObsmjd := Mean(Times(df));
      assert LabelBins(rows, bins)[k] == Bin(df, meanObsmjd);
      var binRows := AggregateBin(df, meanObsmjd);
      ScanStep(LabelBins(rows, bins), filterWl, k, temp);
      if binRows.Err? {
        return Err(binRows.error);
      }
      return Ok(temp + binRows.value);
    }

    /** The loop over `temp_df.mean_obsmjd.unique()` that appends each qualifying group to `result_df`. */
    method QualifyTable(temp: seq<AggRow>, minBandsPerBin: int, necessaryBands: seq<string>)
      returns (result: seq<AggRow>)
      ensures result == QualifyRows(temp, UniqueTimes(temp), minBandsPerBin, necessaryBands)
    {
      var times := UniqueTimes(temp);
      result := [];
      var n := 0;
      while n < |times|
        invariant 0 <= n <= |times|
        invariant result == QualifyRows(temp, times[..n], minBandsPerBin, necessaryBands)
      {
        var group := WithTime(temp, times[n]);
        assert times[..n + 1][..n] == times[..n] && times[..n + 1][n] == times[n];
        assert QualifyRows(temp, times[..n + 1], minBandsPerBin, necessaryBands) ==
          result + (if Qualifies(group, minBandsPerBin, necessaryBands) then group else []);
        if |group| >= minBandsPerBin && forall b :: b in necessaryBands ==> b in AggBands(group) {
          result := result + group;
        }
        n := n + 1;
      }
      assert times[..n] == times;
    }

    /** `fit_bins`: the defaults, the binned table, and `fitparams` filled key by key. */
    method FitBins<R>(fit: (FitConfig, seq<AggRow>) -> R, bands: Option<seq<string>>,
                      minBandsPerBin: Option<int>, necessaryBands: Option<seq<string>>, binsFromDf: bool)
      returns (r: Result<map<nat, R>>)
      ensures r == FitBinsResult(lc, nbins, filterWl, Config(), fit, bands, minBandsPerBin, necessaryBands, binsFromDf)
    {
      if bands.None? {
        return Err(BinnedTableUsedBeforeAssignment);
      }
      var minBands := minBandsPerBin.GetOr(|bands.value|);
      var necessary := necessaryBands.GetOr([]);
      var binned := GetMeanMagnitudes(BinOptions(bands, Some(minBands), Some(necessary), binsFromDf));
      if binned.Err? {
        return Err(binned.error);
      }
      var binnedLc := binned.value;
      if binnedLc == [] {
        return Err(MissingMeanObsmjdColumn);
      }
      var fitparams := FitEachGroup(fit, binnedLc);
      return Ok(fitparams);
    }

    /** The loop of `fit_bins` over `binned_lc_df.mean_obsmjd.unique()`: key `index` receives the
        fit of the group of the index-th distinct time. */
    method FitEachGroup<R>(fit: (FitConfig, seq<AggRow>) -> R, binnedLc: seq<AggRow>)
      returns (fitparams: map<nat, R>)
      ensures fitparams == FitResults(binnedLc, Config(), fit)
    {
      var cfg := Config();
      var times := UniqueTimes(binnedLc);
      fitparams := map[];
      var index := 0;
      while index < |times|
        invariant 0 <= index <= |times|
        invariant fitparams == FitResultsUpTo(binnedLc, times, cfg, fit, index)
      {
        var group := WithTime(binnedLc, times[index]);
        var result := fit(cfg, group);
        FitResultsUpToStep(binnedLc, times, cfg, fit, index);
        fitparams := fitparams[index := result];
        index := index + 1;
      }
    }

    /** `fit_global`: bin with the defaults, then fit once with the minimum number of data points. */
    method FitGlobal<R>(fitGlobal: (FitConfig, seq<AggRow>, int) -> R, bands: Option<seq<string>>,
                        minDatapoints: Option<int>, binsFromDf: bool)
      returns (r: Result<R>)
      ensures r == FitGlobalResult(lc, nbins, filterWl, Config(), fitGlobal, bands, minDatapoints, binsFromDf)
    {
      var binned := GetMeanMagnitudes(BinOptions(bands, None, None, binsFromDf));
      if binned.Err? {
        return Err(binned.error);
      }
      var md: int;
      if minDatapoints.Some? {
        md := minDatapoints.value;
      } else if bands.Some? {
        md := |bands.value|;
      } else {
        return Err(LengthOfNone);
      }
      r := Ok(fitGlobal(Config(), binned.value, md));
    }
  }
}
