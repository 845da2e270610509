# A Dafny model of the SED binning core of modelSED

modelSED fits a spectral model (a power law or a blackbody) to the spectral
energy distribution (SED) of a transient, epoch by epoch. The `SED` class reads
a photometric lightcurve and derives each measurement's `telescope_band` key.
It then bins the lightcurve in time and averages each band within each bin
(`get_mean_magnitudes`). Time groups with too few rows, or lacking a necessary band, are dropped. Finally it
fits every remaining time group (`fit_bins`), or the whole binned table at
once (`fit_global`).

This project models that core in Dafny. The numerical fitting itself is a
function parameter.

- `SedTypes` (sed_types.dfy) holds the records (`Measurement`, `AggRow`, the
  CSV table), the exceptions (`SedError`, one constructor per kind of failure), the
  fittype check and the `telescope + "+" + band` key with its inverse.
- `Stats` (stats.dfy) holds `np.mean` over reals and the order-preserving
  `unique` of pandas.
- `Edges` (edges.dfy) holds `np.linspace` over the reals and the half-open
  bins between consecutive edges.
- `Binning` (binning.dfy) holds the band filter and the row queries. It also
  holds the per-(bin, band) aggregate and the two tables built before
  qualification (`temp_df`): equal-width bins between `nbins + 1` edges, or
  the predefined integer `bin` labels. Both loops share one scan: a bin is a
  set of rows with a time stamp, and `ScanBins` appends each bin's band
  rows in order until a band lacks a wavelength. The two modes differ only
  in the sequence of bins they scan (`EqualWidthBins`, `LabelBins`).
- `Qualification` (qualify.dfy) holds the grouping by `mean_obsmjd`, the
  qualification filter, and `MeanMagnitudes`, the specification of the whole
  of `get_mean_magnitudes`, with the lemmas about it.
- `Sed` (sed.dfy) holds the `Sed` class with its fields. Its methods keep the
  source's loops, each proved equal to the specification function above.
  The module also holds `fit_bins` and `fit_global` as specifications.

Times, magnitudes and wavelengths are reals. `np.linspace` and `np.mean` are
therefore exact here.

Where the documentation of modelSED and its code differ, the model follows
the code:

- Every equal-width bin, the last one too, is half-open. Measurements
  taken at exactly the latest time fall in no bin and are dropped
  (`Qualification.MaxTimeInNoBin`).
- `min_bands_per_bin` is compared with the number of rows in a time group,
  not with the number of distinct bands. In equal-width mode the two agree
  (`Qualification.EqualWidthQualification`). In predefined mode two labels
  whose rows have the same mean time share one group.
- A band admitted by `bands` but missing from the wavelength table raises
  `KeyError`; it is not skipped (`Qualification.UnknownBandWitness`).
- The qualified table lists the kept groups in the order their times first
  appear in `temp_df` (`Qualification.MeanMagnitudesOrder`). Each group is
  the whole group of `temp_df` (`Qualification.MeanMagnitudesGroups`). In
  equal-width mode the bins' midpoints never decrease, so the output's times
  never decrease and the `fitparams` keys follow time order
  (`Qualification.EqualWidthOrdered`, `Sed.FitBinsKeyOrder`). In predefined
  mode, when labels share a mean time, the qualified table is not a
  subsequence of `temp_df`: their rows are gathered into one group.
- `fit_bins` without `bands` reads `binned_lc_df` before assigning it and
  fails (`BinnedTableUsedBeforeAssignment`).
- `fit_global` without `bands` and without `min_datapoints` fails on
  `len(None)` (`LengthOfNone`).
- An empty `temp_df` or an empty `result_df` is a bare `pd.DataFrame()`, so
  reading its `mean_obsmjd` column fails (`MissingMeanObsmjdColumn`).

## Model

| member | source | states |
|---|---|---|
| `SedTypes.ParseFitType` | modelSED/sed.py:34-39 | accepted exactly when the name is "powerlaw" or "blackbody"; any other name raises the one fittype error |
| `SedTypes.FitTypeRoundTrip` | modelSED/sed.py:34-39 | each of the two models is accepted under its own name |
| `Sed.Sed.Create` | modelSED/sed.py:24-61 | the constructor fails exactly for an unknown fittype, before any object exists; otherwise every field holds its argument or default, and the lightcurve has been read |
| `Sed.Sed.constructor` | modelSED/sed.py:41-61 | the fields hold the arguments; the path defaults to data/lightcurves/full_lc_fp.csv and the lightcurve is the file's rows |
| `Sed.Sed.ReadLightcurve` | modelSED/sed.py:303-313 | the path defaults only when absent; the lightcurve becomes the loaded table |
| `SedTypes.LoadLightcurve` | modelSED/sed.py:307-313 | one measurement per file row with its values kept; `telescope_band` is the file's own column when present, otherwise exactly `telescope + "+" + band`, which splits back into telescope and band when the telescope name has no "+" |
| `SedTypes.TelescopeBandKey` | modelSED/sed.py:311 | computes the key `telescope + "+" + band`; `KeyRoundTrip` and `KeyInjective` state what it preserves |
| `SedTypes.IndexOfChar` | modelSED/sed.py:311 | the position found is the first occurrence of the separator; none is found only when the string has no separator |
| `SedTypes.KeyRoundTrip` | modelSED/sed.py:311 | a derived `telescope+band` key splits back into its telescope and band when the telescope name has no "+" |
| `SedTypes.KeyInjective` | modelSED/sed.py:311 | hence different (telescope, band) pairs get different keys |
| `Stats.Unique` | modelSED/sed.py:117 | `unique()` holds exactly the elements of its input, each once |
| `Stats.UniqueDistinct` | modelSED/sed.py:117 | `unique()` lists no element twice |
| `Stats.FirstIndex` | modelSED/sed.py:163 | the index returned is the first occurrence of the element |
| `Stats.UniqueFirstAppearanceOrder` | modelSED/sed.py:163 | `unique()` lists its elements in strictly increasing order of first appearance |
| `Stats.UniqueAppendBlock` | modelSED/sed.py:163 | appending copies of a value not yet present adds it once, at the end of the distinct values |
| `Stats.MeanBounds` | modelSED/sed.py:119-120 | the mean of non-empty values lies between any lower and upper bound of them |
| `Stats.MeanOfConstant` | modelSED/sed.py:119-120 | values that are all equal have that value as their mean |
| `Stats.Mean` | modelSED/sed.py:119-120 | computes `np.mean` as the sum over the count; `MeanBounds` and `MeanOfConstant` state its properties |
| `Edges.Edge` | modelSED/sed.py:92 | computes edge `i` of the grid; `EdgeStep`, `EdgeMonotone` and `LastEdge` state its properties |
| `Edges.EdgeStep` | modelSED/sed.py:92 | consecutive edges are exactly one step apart |
| `Edges.Linspace` | modelSED/sed.py:92 | `num` values from the minimum to the maximum inclusive, consecutive values one step `(hi - lo) / (num - 1)` apart, non-decreasing, and strictly increasing when the range is non-degenerate |
| `Edges.EdgeMonotone` | modelSED/sed.py:92 | evenly spaced edges over a non-empty range never decrease |
| `Edges.InBin` | modelSED/sed.py:114-115 | the half-open test `edge[i] <= t < edge[i + 1]`; `BinsDisjoint` and the lemmas below state its properties |
| `Edges.Midpoint` | modelSED/sed.py:122 | computes a bin's time as the mean of its two edges; `MidpointsDistinct` states that it lies in its bin |
| `Edges.BinsDisjoint` | modelSED/sed.py:114-116 | over sorted edges a time lies in at most one half-open bin |
| `Edges.InteriorInSomeBin` | modelSED/sed.py:112-116 | every time from the first edge up to, but excluding, the last edge lies in some bin |
| `Edges.LastEdgeInNoBin` | modelSED/sed.py:113-116 | the last edge itself lies in no bin |
| `Edges.MidpointsDistinct` | modelSED/sed.py:122 | over strictly increasing edges each bin's midpoint lies in that bin, so different bins have different midpoints |
| `Binning.KeepBands` | modelSED/sed.py:105 | the band filter keeps exactly the measurements whose band is to be fitted |
| `Binning.InInterval` | modelSED/sed.py:114-116 | the time query keeps exactly the rows in [lo, hi) |
| `Binning.WithLabel` | modelSED/sed.py:139 | the label query keeps exactly the rows with that label |
| `Binning.WithBand` | modelSED/sed.py:118 | the band query keeps exactly the rows of that band |
| `Binning.KeepBandsAppend` | modelSED/sed.py:105 | the band filter keeps rows in order: filtering a concatenation concatenates the filtered parts |
| `Binning.KeepBandsCount` | modelSED/sed.py:105 | the band filter keeps each admitted row as often as it occurs, and no other row |
| `Binning.InIntervalAppend` | modelSED/sed.py:114-116 | the time query keeps rows in order: it distributes over concatenation |
| `Binning.InIntervalCount` | modelSED/sed.py:114-116 | the time query keeps each row in [lo, hi) as often as it occurs, and no other row |
| `Binning.WithLabelAppend` | modelSED/sed.py:139 | the label query keeps rows in order: it distributes over concatenation |
| `Binning.WithLabelCount` | modelSED/sed.py:139 | the label query keeps each row with that label as often as it occurs, and no other row |
| `Binning.WithBandAppend` | modelSED/sed.py:118 | the band query keeps rows in order: it distributes over concatenation |
| `Binning.WithBandCount` | modelSED/sed.py:118 | the band query keeps each row of that band as often as it occurs, and no other row |
| `Binning.BandsOf` | modelSED/sed.py:117 | each band present in a bin, once, and each with at least one row |
| `Binning.LabelsOf` | modelSED/sed.py:137 | each label present, once, and each with at least one row |
| `Binning.BandsOfDistinct` | modelSED/sed.py:117 | no band is listed twice in a bin |
| `Binning.LabelsOfDistinct` | modelSED/sed.py:137 | no label is listed twice |
| `Binning.MinTime` | modelSED/sed.py:89 | a time of the lightcurve no later than any other |
| `Binning.MaxTime` | modelSED/sed.py:90 | a time of the lightcurve no earlier than any other |
| `Binning.MinTimeAtMostMaxTime` | modelSED/sed.py:89-90 | the earliest time is not after the latest |
| `Binning.BinSlice` | modelSED/sed.py:113-116 | the rows of bin `i` are exactly the rows whose time lies in that bin |
| `Binning.BinSliceCount` | modelSED/sed.py:113-116 | bin `i` keeps each row whose time lies in it as often as it occurs, and no other row |
| `Binning.Aggregate` | modelSED/sed.py:119-122 | computes the appended record; `AggregateWithinRange`, `AggregateSingle` and the `Entries` lemmas state its properties |
| `Binning.AggregateWithinRange` | modelSED/sed.py:119-121 | an aggregate counts at least one row, and its mean magnitude and mean error lie within the range of its rows |
| `Binning.AggregateSingle` | modelSED/sed.py:119-121 | the aggregate of one row reproduces its magnitude and error with count 1 |
| `Binning.BinRows` | modelSED/sed.py:117-134 | one bin's band loop succeeds exactly when every band has a wavelength, and then yields one row per band |
| `Binning.BinRowsStep` | modelSED/sed.py:117-134 | each band appends its aggregate row, or raises `KeyError` for a band without wavelength |
| `Binning.BinRowsAt` | modelSED/sed.py:117-134 | row `i` of a bin is the aggregate of its i-th band, with that band's wavelength |
| `Binning.BinRowsAreRowsOfBin` | modelSED/sed.py:117-134 | every row of a bin aggregates one of its bands present there |
| `Binning.BinRowsFirstError` | modelSED/sed.py:123 | the error raised names the first band, in scan order, without a wavelength |
| `Binning.BinRowsError` | modelSED/sed.py:123 | a bin fails only with the `KeyError` of one of its own bands missing from the table |
| `Binning.ScanBins` | modelSED/sed.py:111-158 | computes `temp_df` over the first `k` bins, raising the first `KeyError`; the `Scan` lemmas below state its properties |
| `Binning.ScanSplit` | modelSED/sed.py:111-158 | a successful scan of `k` bins is the scan of `k - 1` bins followed by bin `k - 1`'s rows |
| `Binning.ScanStep` | modelSED/sed.py:111-158 | one more bin appends its rows or raises its error |
| `Binning.ScanErrorPersists` | modelSED/sed.py:111-158 | once a bin raises, the rest of the loop is skipped and the whole scan raises that error |
| `Binning.ScanOrigin` | modelSED/sed.py:111-158 | every row of the scan aggregates a band present in one earlier bin and carries that bin's time |
| `Binning.ScanPrefix` | modelSED/sed.py:111-158 | the rows of the first `j` bins are a prefix of the rows of the first `k` |
| `Binning.PrefixTransitive` | modelSED/sed.py:124-134 | proof step for `ScanPrefix`: a prefix of a prefix is a prefix, so rows appended earlier stay in place |
| `Binning.InPrefix` | modelSED/sed.py:124-134 | proof step for `ScanCover`: a row already appended stays in the whole table |
| `Binning.ScanCover` | modelSED/sed.py:111-158 | every band present in a scanned bin has its aggregate row, with that bin's time, in the scan |
| `Binning.LastBinCover` | modelSED/sed.py:117-134 | every band present in a successful bin has its row in that bin's output |
| `Binning.ScanFirstFailure` | modelSED/sed.py:111-158 | a failed scan has a first failing bin: the scan of the bins before it succeeds, and the whole scan raises that bin's error |
| `Binning.ScanLastBinError` | modelSED/sed.py:123 | when bin `i` is the first to fail, the error names the band of one of its rows, missing from the table |
| `Binning.ScanError` | modelSED/sed.py:123 | a scan fails only with the `KeyError` of a band present in some scanned bin and missing from the wavelength table |
| `Binning.BinErrorWitness` | modelSED/sed.py:123 | a failing bin names the band of one of its rows |
| `Binning.EqualWidthBins` | modelSED/sed.py:112-122 | computes one bin per pair of consecutive edges, holding the rows between them and stamped with their midpoint; `BinSlice`, `BinSliceCount`, `EqualWidthCover`, `EqualWidthEntries` and `EqualWidthGroupIsBin` state what those bins hold |
| `Binning.LabelBins` | modelSED/sed.py:137-140 | computes one bin per label, holding the rows with that label and stamped with their mean time; `WithLabel`, `WithLabelCount`, `PredefinedCover`, `PredefinedEntries` and `LabelTimeWithinLabel` state what those bins hold |
| `Binning.LabelTime` | modelSED/sed.py:140 | computes a label's time as the mean time of its rows; `LabelTimeWithinLabel` bounds it |
| `Binning.LabelTimeWithinLabel` | modelSED/sed.py:140 | a label's time lies between the earliest and latest time of its rows |
| `Qualification.WithTime` | modelSED/sed.py:164 | the time query keeps exactly the rows with that `mean_obsmjd` |
| `Qualification.WithTimeAppend` | modelSED/sed.py:163-168 | the time query distributes over appending rows |
| `Qualification.WithTimeCount` | modelSED/sed.py:164 | a row occurs in the group of its own time as often as in the table, and in no other group |
| `Qualification.UniqueTimes` | modelSED/sed.py:163 | each time that has a group, once |
| `Qualification.AggBands` | modelSED/sed.py:166 | the bands of a group, one entry per row |
| `Qualification.Qualifies` | modelSED/sed.py:165-167 | the criterion: at least `min_bands_per_bin` rows and every necessary band present; `QualifyGroup` and `MinBandsMonotone` state its use |
| `Qualification.QualifyRows` | modelSED/sed.py:160-170 | every kept row comes from the table and has one of the scanned times |
| `Qualification.QualifyCount` | modelSED/sed.py:160-170 | a row is kept as often as it occurs in the table when its group qualifies, and never otherwise |
| `Qualification.QualifyGroup` | modelSED/sed.py:160-170 | each group of the result is the whole group of the table if it qualifies, and empty otherwise |
| `Qualification.AppendGroup` | modelSED/sed.py:168 | appending a group of one time changes only that time's group |
| `Qualification.QualifyMonotone` | modelSED/sed.py:165-167 | stricter criteria keep a sub-multiset of the rows |
| `Qualification.QualifyingTimes` | modelSED/sed.py:163-167 | the scanned times, in their order, whose group has rows and qualifies; exactly those times |
| `Qualification.QualifyOrder` | modelSED/sed.py:163-168 | the groups come out in the order of the scanned times: the output's distinct times, in first-appearance order, are exactly the qualifying times, in order |
| `Qualification.UniqueTimesAppendGroup` | modelSED/sed.py:168 | appending the rows of a time not yet in the table adds that time once, at the end of the distinct times |
| `Qualification.QualifySorted` | modelSED/sed.py:163-168 | over strictly increasing times the output's rows come in non-decreasing time |
| `Qualification.UniqueOfSorted` | modelSED/sed.py:163 | the distinct values of a non-decreasing sequence strictly increase |
| `Qualification.BandsToFit` | modelSED/sed.py:94-97 | the given bands, or every band of the wavelength table |
| `Qualification.TimeGrid` | modelSED/sed.py:88-92 | `nbins + 1` sorted edges from the earliest to the latest time of the unfiltered lightcurve, one step `(max - min) / nbins` apart, strictly increasing over a non-degenerate range |
| `Qualification.RowOfBinFacts` | modelSED/sed.py:117-134 | an aggregate of filtered rows carries an admitted band, its looked-up wavelength and its bin's time, and counts at least one row |
| `Qualification.AggregateTable` | modelSED/sed.py:109-158 | computes `temp_df` by scanning the bins of the selected mode; `AggregateTableOrigin` and the cover lemmas state its contents |
| `Qualification.EqualWidthEntries` | modelSED/sed.py:112-121 | in equal-width mode `entries` counts every measurement of the row's band in the row's bin, duplicates included, and the group averaged holds exactly those |
| `Qualification.PredefinedEntries` | modelSED/sed.py:139-145 | in predefined mode `entries` counts every measurement of the row's band with the bin's label, duplicates included, and the group averaged holds exactly those |
| `Qualification.AggregateTableOrigin` | modelSED/sed.py:109-158 | every row of `temp_df` comes from one bin in the selected mode |
| `Qualification.FromBinFacts` | modelSED/sed.py:105-158 | a row from a bin has an admitted band that some measurement carries, and that band's wavelength |
| `Qualification.MeanMagnitudes` | modelSED/sed.py:78-170 | computes `get_mean_magnitudes`, with its errors; the `MeanMagnitudes` lemmas and `Sed.Sed.GetMeanMagnitudes` state its properties |
| `Qualification.MeanMagnitudesRows` | modelSED/sed.py:78-170 | every output row is a row of `temp_df` aggregating one admitted band of one bin, with its wavelength |
| `Qualification.MeanMagnitudesGroups` | modelSED/sed.py:160-170 | each time group of the output is the table's whole group if it qualifies, else empty; rows keep their multiplicity |
| `Qualification.MeanMagnitudesOrder` | modelSED/sed.py:160-170 | `result_df` lists the kept groups in the order of `temp_df.mean_obsmjd.unique()`: its distinct times are exactly the qualifying ones, in that order |
| `Qualification.MinBandsMonotone` | modelSED/sed.py:165-167 | raising `min_bands_per_bin` or adding necessary bands never adds an output row |
| `Qualification.DefaultOptions` | modelSED/sed.py:94-103 | omitted arguments mean every band of the wavelength table, at least two rows, no necessary band |
| `Qualification.MeanMagnitudesEarlyErrors` | modelSED/sed.py:88-92 | an empty lightcurve fails in `np.min`, and a negative sample count fails in `np.linspace`, exactly in those cases |
| `Qualification.UnknownBandWitness` | modelSED/sed.py:123 | a `KeyError` names the band of an admitted measurement that the wavelength table lacks |
| `Qualification.BinOfTime` | modelSED/sed.py:112-116 | a measurement before the latest time falls in exactly one equal-width bin |
| `Qualification.MaxTimeInNoBin` | modelSED/sed.py:113-116 | a measurement at exactly the latest time falls in no bin |
| `Qualification.EqualWidthCover` | modelSED/sed.py:111-134 | every admitted measurement before the latest time has its band's row, stamped with its bin's midpoint, in `temp_df` |
| `Qualification.PredefinedCover` | modelSED/sed.py:136-158 | every admitted measurement has its band's row, stamped with its label's mean time, in `temp_df` |
| `Qualification.EqualWidthEmptyTable` | modelSED/sed.py:111-134 | the equal-width table is empty exactly when there are no bins or every admitted measurement is at the latest time |
| `Qualification.EqualWidthTableWitness` | modelSED/sed.py:111-134 | a non-empty equal-width table has a contributing row before the last edge |
| `Qualification.PredefinedEmptyTable` | modelSED/sed.py:136-158 | the predefined table is empty exactly when no measurement was admitted |
| `Qualification.BinRowsTimes` | modelSED/sed.py:122 | all rows of a bin carry that bin's time |
| `Qualification.BinRowsBands` | modelSED/sed.py:117 | the rows of a bin list its bands in first-appearance order |
| `Qualification.ScanTimeAbsent` | modelSED/sed.py:163-164 | a time that no scanned bin carries has an empty group in the scan |
| `Qualification.ScanTimeLater` | modelSED/sed.py:163-164 | bins after bin `i` whose times differ from its time leave the group of that time as bin `i` left it |
| `Qualification.ScanGroupIsBin` | modelSED/sed.py:160-164 | when no other bin shares a bin's time, the group of that time is exactly that bin's rows |
| `Qualification.EqualWidthGroupIsBin` | modelSED/sed.py:111-134 | over strictly increasing edges the time group of a bin's midpoint is exactly that bin's rows |
| `Qualification.EqualWidthQualification` | modelSED/sed.py:160-170 | in equal-width mode the row count of a group is its number of distinct bands, so qualification is a per-bin band criterion |
| `Qualification.ScanSorted` | modelSED/sed.py:111-134 | bins stamped with non-decreasing times produce a `temp_df` whose times never decrease, none later than the last bin's |
| `Qualification.EqualWidthBinsSorted` | modelSED/sed.py:112-121 | over sorted edges the bins' midpoints never decrease |
| `Qualification.EqualWidthOrdered` | modelSED/sed.py:111-170 | in equal-width mode the output's times never decrease and its distinct times strictly increase, so the kept bins come out in time order |
| `Sed.FitBinsOptions` | modelSED/sed.py:183-198 | fails exactly without `bands`; otherwise `min_bands_per_bin` defaults to the number of bands and the necessary bands to none |
| `Sed.FitResultsUpToStep` | modelSED/sed.py:218-221 | each pass adds key `index` holding the fit of that time's group |
| `Sed.FitResults` | modelSED/sed.py:214-222 | computes `fitparams`: key `i` holds the fit of the i-th distinct time's group; `FitResultsKeySet`, `FitResultsPerTime` and `FitResultsKeys` state its properties |
| `Sed.FitResultsKeySet` | modelSED/sed.py:214-224 | the keys are exactly 0 .. k-1 for the k distinct times, and key `n` holds the fit of the n-th time's group |
| `Sed.FitResultsPerTime` | modelSED/sed.py:214-224 | each time of the binned table has exactly one key, holding the fit of its group |
| `Sed.FitResultsKeys` | modelSED/sed.py:214-224 | keys follow the order in which the times first appear in the table, and different keys have different times |
| `Sed.FitBinsResult` | modelSED/sed.py:172-227 | computes the `fitparams` dict that `fit_bins` writes to `<fittype>.json`, or the error it raises (the method itself returns None); `FitBinsGroup` and `Sed.Sed.FitBins` state its properties |
| `Sed.FitBinsGroup` | modelSED/sed.py:207-224 | each fitted group is a whole qualifying group of the aggregate table |
| `Sed.FitBinsKeyOrder` | modelSED/sed.py:207-222 | the keys are exactly 0 .. k-1 for the k qualifying groups; key `i` holds the fit of the i-th qualifying group of `temp_df`, in first-appearance order, and in equal-width mode those groups' times strictly increase |
| `Sed.FitGlobalResult` | modelSED/sed.py:229-265 | computes what `fit_global` returns, with its errors; `FitGlobalDefaults` and `Sed.Sed.FitGlobal` state its properties |
| `Sed.FitGlobalDefaults` | modelSED/sed.py:229-265 | the global fit bins with the default criteria; `min_datapoints` defaults to the number of bands, and the call fails on `len(None)` exactly without both |
| `Sed.Sed.AggregateBin` | modelSED/sed.py:117-134 | the band loop of one bin computes `Binning.BinRows` |
| `Sed.Sed.GetMeanMagnitudes` | modelSED/sed.py:78-170 | the method computes `Qualification.MeanMagnitudes` for the object's lightcurve, bin count and wavelength table |
| `Sed.Sed.EqualWidthTable` | modelSED/sed.py:111-134 | the loop over the edges computes the equal-width table of all bins, skipping the last edge |
| `Sed.Sed.EqualWidthBin` | modelSED/sed.py:113-134 | one pass appends the next bin's rows |
| `Sed.Sed.PredefinedTable` | modelSED/sed.py:136-158 | the predefined branch scans the bins of `lc.bin.unique()` in order |
| `Sed.Sed.LabelScan` | modelSED/sed.py:138-158 | the loop over labels that each have rows computes the scan of their bins, stopping at the first `KeyError` |
| `Sed.Sed.PredefinedBin` | modelSED/sed.py:139-158 | one pass appends the next label's rows |
| `Sed.Sed.QualifyTable` | modelSED/sed.py:160-170 | the qualification loop computes `Qualification.QualifyRows` over the distinct times |
| `Sed.Sed.FitBins` | modelSED/sed.py:172-227 | the method computes `Sed.FitBinsResult`: the defaults, the binned table, and the `fitparams` dict it dumps, one key per time group |
| `Sed.Sed.FitEachGroup` | modelSED/sed.py:214-222 | the loop over the distinct times computes `Sed.FitResults`: key `index` holds the fit of the index-th time's group |
| `Sed.Sed.FitGlobal` | modelSED/sed.py:229-271 | the method computes `Sed.FitGlobalResult` |

## Left out

- The numerical fit (`FitSpectrum`, `fit_one_bin`, `fit_global_parameters`) and the fit module are not part of this model. A fit is a function parameter, and the keyword arguments passed on to it are not modelled.
- The `plot` keyword of `fit_global` only changes how `FitSpectrum` is constructed, so it is not modelled.
- File I/O is left out: reading the CSV, `load_info_json`, and the JSON dumps of `fit_bins` and `fit_global`. The file's contents and the wavelength table are parameters instead. `fit_bins` returns None; the model's `FitBins` hands back the `fitparams` dict it would dump instead.
- Also left out: directory creation, the colour map, printing, the progress bar, and the plotting and `load_*fitparams` methods. None of them affects the computed values.
- `load_lightcurves` is a stub that returns `None`, and is left out.
- Dropping the `Unnamed: 0` column is left out, as are the pandas index and its reset. Column names are fields of the records.
- Floating point is left out. `np.linspace`, `np.mean` and the `obsmjd` comparisons are exact over reals, so rounding at a bin edge is not captured.
- `np.mean` of an empty group (NaN) is left out. Every group the code averages is non-empty. A predefined label without rows contributes no row, so its time of 0.0 is never used.
- Option values (`Option`) stand for arguments that were omitted or given as `None`. `fit_bins` called with `bands=None` given explicitly is treated as omitted. `fit_global` tests whether the `min_datapoints` key is present, so an explicit `min_datapoints=None` reaches the fit unchanged; the model treats it as omitted and uses `len(bands)` or raises `LengthOfNone` instead.
- Pandas dtype handling of the appended columns and non-integer `bin` labels is left out.
- `fit_bins` declares `min_bands_per_bin` as a float; the model takes an integer threshold, so a fractional threshold is not modelled. Compared with a whole row count, a fractional threshold acts like its ceiling.
- Predefined mode reads `lc.bin`, which raises `AttributeError` when the lightcurve file has no `bin` column. The model gives every measurement a `bin` label, so that error is not modelled.
- The fittype error is a plain `Exception` with a fixed message; the model records only that it was raised.
