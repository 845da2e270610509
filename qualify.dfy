/** The qualification step of `SED.get_mean_magnitudes` (modelSED/sed.py) and the
    whole method as a specification: the aggregate table `temp_df` is split into
    groups that share one `mean_obsmjd` value, and a group is kept whole when it
    has at least `min_bands_per_bin` rows and every necessary band, and dropped
    entirely otherwise. */
module Qualification {
  import opened SedTypes
  import opened Stats
  import opened Edges
  import opened Binning

  // ---------------------------------------------------------------------------
  // Groups of the aggregate table by representative time
  // ---------------------------------------------------------------------------

  /** `temp_df.query("mean_obsmjd == t")`: the rows stamped with time `t`, in table order. */
  function WithTime(aggs: seq<AggRow>, t: real): (r: seq<AggRow>)
    ensures forall x {:trigger x in r} {:trigger x in aggs} :: x in r <==> x in aggs && x.meanObsmjd == t
  {
    if aggs == [] then []
    else (if aggs[0].meanObsmjd == t then [aggs[0]] else []) + WithTime(aggs[1..], t)
  }

  /** Selecting a time distributes over concatenation, so appending rows never reorders a group. */
  lemma {:induction false} WithTimeAppend(a: seq<AggRow>, b: seq<AggRow>, t: real)
    ensures WithTime(a + b, t) == WithTime(a, t) + WithTime(b, t)
  {
    if a != [] {
      var head := if a[0].meanObsmjd == t then [a[0]] else [];
      assert (a + b)[0] == a[0] && (a + b)[1..] == a[1..] + b;
      WithTimeAppend(a[1..], b, t);
      assert WithTime(a + b, t) == head + (WithTime(a[1..], t) + WithTime(b, t));
      assert WithTime(a, t) == head + WithTime(a[1..], t);
    } else {
      assert a + b == b;
    }
  }

  /** A row occurs in the group of its own time as often as in the table, and in no other group. */
  lemma {:induction false} WithTimeCount(aggs: seq<AggRow>, t: real, x: AggRow)
    ensures multiset(WithTime(aggs, t))[x] == if x.meanObsmjd == t then multiset(aggs)[x] else 0
  {
    if aggs != [] {
      WithTimeCount(aggs[1..], t, x);
      assert aggs == [aggs[0]] + aggs[1..];
    }
  }

  lemma {:induction false} WithTimeAll(aggs: seq<AggRow>, t: real)
    requires forall x :: x in aggs ==> x.meanObsmjd == t
    ensures WithTime(aggs, t) == aggs
  {
    if aggs != [] {
      assert aggs[0] in aggs;
      WithTimeAll(aggs[1..], t);
    }
  }

  lemma WithTimeNone(aggs: seq<AggRow>, t: real)
    requires forall x :: x in aggs ==> x.meanObsmjd != t
    ensures WithTime(aggs, t) == []
  {
  }

  function AggTimes(aggs: seq<AggRow>): (r: seq<real>)
    ensures |r| == |aggs|
  {
    seq(|aggs|, i requires 0 <= i < |aggs| => aggs[i].meanObsmjd)
  }

  /** `temp_df.mean_obsmjd.unique()`: each time that has a group, once, in order of first appearance. */
  function UniqueTimes(aggs: seq<AggRow>): (ts: seq<real>)
    ensures Distinct(ts)
    ensures forall t :: t in ts <==> WithTime(aggs, t) != []
  {
    var ts := Unique(AggTimes(aggs));
    UniqueDistinct(AggTimes(aggs));
    forall t | t in ts ensures WithTime(aggs, t) != [] {
      var i :| 0 <= i < |aggs| && AggTimes(aggs)[i] == t;
      assert aggs[i] in WithTime(aggs, t);
    }
    forall t | WithTime(aggs, t) != [] ensures t in ts {
      var x := WithTime(aggs, t)[0];
      assert x in WithTime(aggs, t);
      var i :| 0 <= i < |aggs| && aggs[i] == x;
      assert AggTimes(aggs)[i] == t;
    }
    ts
  }

  /** `_df.telescope_band.unique()` as a collection: the bands a group carries. */
  function AggBands(group: seq<AggRow>): (r: seq<string>)
    ensures |r| == |group|
    ensures forall b :: b in r <==> exists x :: x in group && x.telescopeBand == b
  {
    var r := seq(|group|, i requires 0 <= i < |group| => group[i].telescopeBand);
    forall b | b in r ensures exists x :: x in group && x.telescopeBand == b {
      var i :| 0 <= i < |r| && r[i] == b;
      assert group[i] in group;
    }
    forall b | exists x :: x in group && x.telescopeBand == b ensures b in r {
      var x :| x in group && x.telescopeBand == b;
      var i :| 0 <= i < |group| && group[i] == x;
      assert r[i] == b;
    }
    r
  }

  /** The criterion of the qualification step: enough ROWS (not distinct bands) and every necessary band. */
  predicate Qualifies(group: seq<AggRow>, minBands: int, necessary: seq<string>)
  {
    |group| >= minBands && forall b :: b in necessary ==> b in AggBands(group)
  }

  /** `result_df`: the groups of `times`, in that order, each appended whole if it qualifies. */
  function QualifyRows(temp: seq<AggRow>, times: seq<real>, minBands: int, necessary: seq<string>)
    : (r: seq<AggRow>)
    ensures forall x {:trigger x in r} :: x in r ==> x in temp && x.meanObsmjd in times
    decreases |times|
  {
    if times == [] then []
    else
      var last := |times| - 1;
      var g := WithTime(temp, times[last]);
      QualifyRows(temp, times[..last], minBands, necessary) + (if Qualifies(g, minBands, necessary) then g else [])
  }

  /** Each output row occurs exactly as often as in the table when its group qualifies, and not at all otherwise. */
  lemma {:induction false} QualifyCount(temp: seq<AggRow>, times: seq<real>, minBands: int,
                                        necessary: seq<string>, x: AggRow)
    requires Distinct(times)
    ensures multiset(QualifyRows(temp, times, minBands, necessary))[x] ==
      if x.meanObsmjd in times && Qualifies(WithTime(temp, x.meanObsmjd), minBands, necessary)
      then multiset(temp)[x] else 0
    decreases |times|
  {
    if times != [] {
      var last := |times| - 1;
      var init := times[..last];
      assert Distinct(init);
      QualifyCount(temp, init, minBands, necessary, x);
      WithTimeCount(temp, times[last], x);
      assert times == init + [times[last]];
      if x.meanObsmjd == times[last] {
        assert x.meanObsmjd !in init;
      }
    }
  }

  /** The group of any time in the output is the table's whole group if it qualifies, and empty otherwise. */
  lemma {:induction false} QualifyGroup(temp: seq<AggRow>, times: seq<real>, minBands: int,
                                        necessary: seq<string>, t: real)
    requires Distinct(times)
    ensures WithTime(QualifyRows(temp, times, minBands, necessary), t) ==
      if t in times && Qualifies(WithTime(temp, t), minBands, necessary) then WithTime(temp, t) else []
    decreases |times|
  {
    if times != [] {
      var last := |times| - 1;
      var init := times[..last];
      var u := times[last];
      assert Distinct(init);
      assert times == init + [u];
      var g := WithTime(temp, u);
      var kept := if Qualifies(g, minBands, necessary) then g else [];
      QualifyGroup(temp, init, minBands, necessary, t);
      AppendGroup(QualifyRows(temp, init, minBands, necessary), kept, u, t);
      if t == u {
        assert t !in init;
      }
    }
  }

  /** Appending a block of rows that all carry time `u` changes the group of `u` only. */
  lemma AppendGroup(p: seq<AggRow>, g: seq<AggRow>, u: real, t: real)
    requires forall x :: x in g ==> x.meanObsmjd == u
    ensures WithTime(p + g, t) == WithTime(p, t) + (if t == u then g else [])
  {
    WithTimeAppend(p, g, t);
    if t == u {
      WithTimeAll(g, t);
    } else {
      WithTimeNone(g, t);
    }
  }

  /** Stricter criteria keep a sub-multiset of the rows, so raising `min_bands_per_bin` never adds output. */
  lemma {:induction false} QualifyMonotone(temp: seq<AggRow>, times: seq<real>, k1: int, k2: int,
                                           nec1: seq<string>, nec2: seq<string>)
    requires k1 <= k2
    requires forall b :: b in nec1 ==> b in nec2
    ensures multiset(QualifyRows(temp, times, k2, nec2)) <= multiset(QualifyRows(temp, times, k1, nec1))
    ensures |QualifyRows(temp, times, k2, nec2)| <= |QualifyRows(temp, times, k1, nec1)|
    decreases |times|
  {
    if times != [] {
      var last := |times| - 1;
      QualifyMonotone(temp, times[..last], k1, k2, nec1, nec2);
      var g := WithTime(temp, times[last]);
      assert Qualifies(g, k2, nec2) ==> Qualifies(g, k1, nec1);
    }
  }

  /** The times of `times` whose group in `temp` has rows and qualifies, in the order of `times`. */
  function QualifyingTimes(temp: seq<AggRow>, times: seq<real>, minBands: int, necessary: seq<string>)
    : (r: seq<real>)
    ensures forall t {:trigger t in r} :: t in r <==>
      t in times && WithTime(temp, t) != [] && Qualifies(WithTime(temp, t), minBands, necessary)
    decreases |times|
  {
    if times == [] then []
    else
      var last := |times| - 1;
      var g := WithTime(temp, times[last]);
      QualifyingTimes(temp, times[..last], minBands, necessary) +
        (if g != [] && Qualifies(g, minBands, necessary) then [times[last]] else [])
  }

  /** The groups come out in the order of `times`: the output's distinct times, in order of first
      appearance, are exactly the qualifying times of `times`, in their order. */
  lemma {:induction false} QualifyOrder(temp: seq<AggRow>, times: seq<real>, minBands: int, necessary: seq<string>)
    requires Distinct(times)
    ensures UniqueTimes(QualifyRows(temp, times, minBands, necessary)) == QualifyingTimes(temp, times, minBands, necessary)
    decreases |times|
  {
    if times != [] {
      var last := |times| - 1;
      var init := times[..last];
      var u := times[last];
      DistinctInit(times);
      var p := QualifyRows(temp, init, minBands, necessary);
      var g := WithTime(temp, u);
      QualifyOrder(temp, init, minBands, necessary);
      var q := QualifyRows(temp, times, minBands, necessary);
      if g != [] && Qualifies(g, minBands, necessary) {
        assert q == p + g;
        forall x | x in p ensures x.meanObsmjd != u {
          assert x.meanObsmjd in init;
        }
        UniqueTimesAppendGroup(p, g, u);
      } else {
        assert q == p;
      }
    }
  }

  /** Dropping the last of distinct values leaves distinct values that do not include it. */
  lemma DistinctInit(times: seq<real>)
    requires Distinct(times) && times != []
    ensures Distinct(times[..|times| - 1]) && times[|times| - 1] !in times[..|times| - 1]
  {
  }

  /** Appending the rows of a time not yet in the table adds that time once, at the end. */
  lemma UniqueTimesAppendGroup(p: seq<AggRow>, g: seq<AggRow>, u: real)
    requires g != [] && forall x :: x in g ==> x.meanObsmjd == u
    requires forall x :: x in p ==> x.meanObsmjd != u
    ensures UniqueTimes(p + g) == UniqueTimes(p) + [u]
  {
    assert AggTimes(p + g) == AggTimes(p) + AggTimes(g);
    forall i | 0 <= i < |g| ensures AggTimes(g)[i] == u {
      assert g[i] in g;
    }
    forall i | 0 <= i < |p| ensures AggTimes(p)[i] != u {
      assert p[i] in p;
    }
    UniqueAppendBlock(AggTimes(p), AggTimes(g), u);
  }

  /** Two ordered runs where nothing in the first exceeds anything in the second form an ordered run. */
  lemma SortedAppend(a: seq<real>, b: seq<real>)
    requires Sorted(a) && Sorted(b)
    requires forall i, j :: 0 <= i < |a| && 0 <= j < |b| ==> a[i] <= b[j]
    ensures Sorted(a + b)
  {
  }

  /** The distinct values of an ordered sequence strictly increase. */
  lemma {:induction false} UniqueOfSorted(s: seq<real>)
    requires Sorted(s)
    ensures StrictlySorted(Unique(s))
  {
    if s != [] {
      var n := |s| - 1;
      var init := s[..n];
      assert Sorted(init);
      UniqueOfSorted(init);
      var p := Unique(init);
      if s[n] !in p {
        forall i | 0 <= i < |p| ensures p[i] < s[n] {
          assert p[i] in init;
          var k :| 0 <= k < n && init[k] == p[i];
        }
      }
    }
  }

  /** Over strictly increasing times, the output lists its rows in non-decreasing time. */
  lemma {:induction false} QualifySorted(temp: seq<AggRow>, times: seq<real>, minBands: int, necessary: seq<string>)
    requires StrictlySorted(times)
    ensures Sorted(AggTimes(QualifyRows(temp, times, minBands, necessary)))
    decreases |times|
  {
    if times != [] {
      var last := |times| - 1;
      var init := times[..last];
      var u := times[last];
      assert StrictlySorted(init);
      QualifySorted(temp, init, minBands, necessary);
      var p := QualifyRows(temp, init, minBands, necessary);
      var g := WithTime(temp, u);
      var kept := if Qualifies(g, minBands, necessary) then g else [];
      assert QualifyRows(temp, times, minBands, necessary) == p + kept;
      assert AggTimes(p + kept) == AggTimes(p) + AggTimes(kept);
      forall j | 0 <= j < |kept| ensures AggTimes(kept)[j] == u {
        assert kept[j] in kept;
      }
      forall i | 0 <= i < |p| ensures AggTimes(p)[i] < u {
        assert p[i] in p;
        var k :| 0 <= k < last && init[k] == p[i].meanObsmjd;
      }
      SortedAppend(AggTimes(p), AggTimes(kept));
    }
  }

  // ---------------------------------------------------------------------------
  // `get_mean_magnitudes` as a whole
  // ---------------------------------------------------------------------------

  /** The keyword arguments of `get_mean_magnitudes`; `None` stands for an omitted argument. */
  datatype BinOptions = BinOptions(
    bands: Option<seq<string>>,
    minBandsPerBin: Option<int>,
    necessaryBands: Option<seq<string>>,
    binsFromDf: bool)

  const DEFAULT_MIN_BANDS_PER_BIN: int := 2

  /** `bands_to_fit`: the given bands, or every band of the wavelength table. */
  function BandsToFit(bands: Option<seq<string>>, wl: map<string, real>): (r: set<string>)
    ensures bands.None? ==> r == wl.Keys
    ensures bands.Some? ==> forall b :: b in r <==> b in bands.value
  {
    match bands
    case None => wl.Keys
    case Some(bs) => set b | b in bs
  }

  function MinBands(opts: BinOptions): int
  {
    opts.minBandsPerBin.GetOr(DEFAULT_MIN_BANDS_PER_BIN)
  }

  function Necessary(opts: BinOptions): seq<string>
  {
    opts.necessaryBands.GetOr([])
  }

  /** The band-filtered lightcurve (line 105). */
  function Filtered(lc: seq<Measurement>, wl: map<string, real>, opts: BinOptions): seq<Measurement>
  {
    KeepBands(lc, BandsToFit(opts.bands, wl))
  }

  /** `mjd_iter`: `nbins + 1` edges from the earliest to the latest time of the UNFILTERED lightcurve. */
  function TimeGrid(lc: seq<Measurement>, nbins: int): (e: seq<real>)
    requires lc != [] && nbins + 1 >= 0
    ensures |e| == nbins + 1 && Sorted(e)
    ensures MinTime(lc) < MaxTime(lc) ==> StrictlySorted(e)
    ensures nbins >= 0 ==> e[0] == MinTime(lc)
    ensures nbins >= 1 ==> e[nbins] == MaxTime(lc)
    ensures nbins >= 1 ==> EvenlySpaced(e, (MaxTime(lc) - MinTime(lc)) / (nbins as real))
  {
    MinTimeAtMostMaxTime(lc);
    Linspace(MinTime(lc), MaxTime(lc), nbins + 1)
  }

  /** `temp_df`: the aggregate table before qualification, or the first `KeyError`. */
  function AggregateTable(lc: seq<Measurement>, nbins: int, wl: map<string, real>, opts: BinOptions)
    : Result<seq<AggRow>>
    requires lc != [] && nbins + 1 >= 0
  {
    var rows := Filtered(lc, wl, opts);
    if opts.binsFromDf then
      var labels := LabelsOf(rows);
      ScanBins(LabelBins(rows, labels), wl, |labels|)
    else
      var e := TimeGrid(lc, nbins);
      ScanBins(EqualWidthBins(rows, e), wl, NumBins(e))
  }

  /** `get_mean_magnitudes`: the qualified table, or the exception the method raises. */
  function MeanMagnitudes(lc: seq<Measurement>, nbins: int, wl: map<string, real>, opts: BinOptions)
    : Result<seq<AggRow>>
  {
    if lc == [] then Err(EmptyLightcurve)
    else if nbins + 1 < 0 then Err(NegativeSampleCount(nbins + 1))
    else
      match AggregateTable(lc, nbins, wl, opts)
      case Err(e) => Err(e)
      case Ok(temp) =>
        if temp == [] then Err(MissingMeanObsmjdColumn)
        else Ok(QualifyRows(temp, UniqueTimes(temp), MinBands(opts), Necessary(opts)))
  }

  // ---------------------------------------------------------------------------
  // Where each row of the table comes from
  // ---------------------------------------------------------------------------

  /** `x` is the aggregate of one band of one bin of the filtered lightcurve, in the mode `opts` selects. */
  ghost predicate FromBin(x: AggRow, lc: seq<Measurement>, nbins: int, wl: map<string, real>, opts: BinOptions)
    requires lc != [] && nbins + 1 >= 0
  {
    var rows := Filtered(lc, wl, opts);
    if opts.binsFromDf then
      exists l :: WithLabel(rows, l) != [] && RowOfBin(x, WithLabel(rows, l), LabelTime(rows, l), wl)
    else
      var e := TimeGrid(lc, nbins);
      exists i :: 0 <= i < NumBins(e) && RowOfBin(x, BinSlice(rows, e, i), Midpoint(e, i), wl)
  }

  /** An aggregate of band-filtered rows carries an admitted band with its looked-up wavelength. */
  lemma RowOfBinFacts(x: AggRow, df: seq<Measurement>, t: real, wl: map<string, real>,
                      lc: seq<Measurement>, bands: set<string>)
    requires RowOfBin(x, df, t, wl)
    requires forall m :: m in df ==> m in KeepBands(lc, bands)
    ensures x.telescopeBand in bands && x.telescopeBand in wl && x.wavelength == wl[x.telescopeBand]
    ensures x.meanObsmjd == t && x.entries >= 1
    ensures exists m :: m in lc && m.telescopeBand == x.telescopeBand
  {
    var m := WithBand(df, x.telescopeBand)[0];
    assert m in WithBand(df, x.telescopeBand);
  }

  /** In equal-width mode `entries` counts, duplicates included, every measurement of the lightcurve
      with the row's band whose time lies in the row's bin: the group it averages holds each such
      measurement as often as the lightcurve does, and nothing else. */
  lemma EqualWidthEntries(lc: seq<Measurement>, nbins: int, wl: map<string, real>, opts: BinOptions,
                          i: int, x: AggRow, m: Measurement)
    requires lc != [] && nbins + 1 >= 0
    requires 0 <= i < NumBins(TimeGrid(lc, nbins))
    requires RowOfBin(x, BinSlice(Filtered(lc, wl, opts), TimeGrid(lc, nbins), i), Midpoint(TimeGrid(lc, nbins), i), wl)
    ensures var e := TimeGrid(lc, nbins);
      var group := WithBand(BinSlice(Filtered(lc, wl, opts), e, i), x.telescopeBand);
      && x.entries == |group|
      && multiset(group)[m] == if m.telescopeBand == x.telescopeBand && InBin(m.obsmjd, e, i) then multiset(lc)[m] else 0
  {
    var e := TimeGrid(lc, nbins);
    var rows := Filtered(lc, wl, opts);
    var df := BinSlice(rows, e, i);
    RowOfBinFacts(x, df, Midpoint(e, i), wl, lc, BandsToFit(opts.bands, wl));
    WithBandCount(df, x.telescopeBand, m);
    BinSliceCount(rows, e, i, m);
    KeepBandsCount(lc, BandsToFit(opts.bands, wl), m);
  }

  /** In predefined mode `entries` counts, duplicates included, every measurement of the lightcurve
      with the row's band and the label of the row's bin. */
  lemma PredefinedEntries(lc: seq<Measurement>, wl: map<string, real>, opts: BinOptions,
                          l: int, x: AggRow, m: Measurement)
    requires RowOfBin(x, WithLabel(Filtered(lc, wl, opts), l), LabelTime(Filtered(lc, wl, opts), l), wl)
    ensures var group := WithBand(WithLabel(Filtered(lc, wl, opts), l), x.telescopeBand);
      && x.entries == |group|
      && multiset(group)[m] == if m.telescopeBand == x.telescopeBand && m.bin == l then multiset(lc)[m] else 0
  {
    var rows := Filtered(lc, wl, opts);
    var df := WithLabel(rows, l);
    RowOfBinFacts(x, df, LabelTime(rows, l), wl, lc, BandsToFit(opts.bands, wl));
    WithBandCount(df, x.telescopeBand, m);
    WithLabelCount(rows, l, m);
    KeepBandsCount(lc, BandsToFit(opts.bands, wl), m);
  }

  lemma AggregateTableOrigin(lc: seq<Measurement>, nbins: int, wl: map<string, real>, opts: BinOptions)
    requires lc != [] && nbins + 1 >= 0
    requires AggregateTable(lc, nbins, wl, opts).Ok?
    ensures forall x :: x in AggregateTable(lc, nbins, wl, opts).value ==> FromBin(x, lc, nbins, wl, opts)
  {
    var rows := Filtered(lc, wl, opts);
    if opts.binsFromDf {
      var labels := LabelsOf(rows);
      var bins := LabelBins(rows, labels);
      ScanOrigin(bins, wl, |bins|);
      forall x | x in ScanBins(bins, wl, |bins|).value ensures FromBin(x, lc, nbins, wl, opts) {
        var j :| 0 <= j < |bins| && RowOfBin(x, bins[j].rows, bins[j].time, wl);
        assert labels[j] in labels;
      }
    } else {
      var e := TimeGrid(lc, nbins);
      var bins := EqualWidthBins(rows, e);
      ScanOrigin(bins, wl, |bins|);
      forall x | x in ScanBins(bins, wl, |bins|).value ensures FromBin(x, lc, nbins, wl, opts) {
        var i :| 0 <= i < |bins| && RowOfBin(x, bins[i].rows, bins[i].time, wl);
        assert RowOfBin(x, BinSlice(rows, e, i), Midpoint(e, i), wl);
      }
    }
  }

  lemma FromBinFacts(x: AggRow, lc: seq<Measurement>, nbins: int, wl: map<string, real>, opts: BinOptions)
    requires lc != [] && nbins + 1 >= 0
    requires FromBin(x, lc, nbins, wl, opts)
    ensures x.telescopeBand in BandsToFit(opts.bands, wl) && x.telescopeBand in wl
    ensures x.wavelength == wl[x.telescopeBand] && x.entries >= 1
    ensures exists m :: m in lc && m.telescopeBand == x.telescopeBand
  {
    var rows := Filtered(lc, wl, opts);
    var bands := BandsToFit(opts.bands, wl);
    if opts.binsFromDf {
      var l :| WithLabel(rows, l) != [] && RowOfBin(x, WithLabel(rows, l), LabelTime(rows, l), wl);
      RowOfBinFacts(x, WithLabel(rows, l), LabelTime(rows, l), wl, lc, bands);
    } else {
      var e := TimeGrid(lc, nbins);
      var i :| 0 <= i < NumBins(e) && RowOfBin(x, BinSlice(rows, e, i), Midpoint(e, i), wl);
      RowOfBinFacts(x, BinSlice(rows, e, i), Midpoint(e, i), wl, lc, bands);
    }
  }

  /** Every output row is the aggregate of one band of one bin of rows whose band was admitted, and
      carries that band's wavelength from the table; no other row of the lightcurve contributes. */
  lemma MeanMagnitudesRows(lc: seq<Measurement>, nbins: int, wl: map<string, real>, opts: BinOptions)
    requires MeanMagnitudes(lc, nbins, wl, opts).Ok?
    ensures lc != [] && nbins + 1 >= 0
    ensures forall x :: x in MeanMagnitudes(lc, nbins, wl, opts).value ==>
      && x in AggregateTable(lc, nbins, wl, opts).value
      && FromBin(x, lc, nbins, wl, opts)
      && x.telescopeBand in BandsToFit(opts.bands, wl) && x.telescopeBand in wl
      && x.wavelength == wl[x.telescopeBand] && x.entries >= 1
  {
    AggregateTableOrigin(lc, nbins, wl, opts);
    forall x | x in MeanMagnitudes(lc, nbins, wl, opts).value
      ensures x.telescopeBand in BandsToFit(opts.bands, wl) && x.telescopeBand in wl
      ensures x.wavelength == wl[x.telescopeBand] && x.entries >= 1
    {
      FromBinFacts(x, lc, nbins, wl, opts);
    }
  }

  /** Qualification keeps each group of the aggregate table whole or drops it entirely, and
      a row survives exactly as often as it occurs in the table when its group qualifies. */
  lemma MeanMagnitudesGroups(lc: seq<Measurement>, nbins: int, wl: map<string, real>, opts: BinOptions,
                             t: real, x: AggRow)
    requires MeanMagnitudes(lc, nbins, wl, opts).Ok?
    ensures lc != [] && nbins + 1 >= 0 && AggregateTable(lc, nbins, wl, opts).Ok?
    ensures var temp := AggregateTable(lc, nbins, wl, opts).value;
      WithTime(MeanMagnitudes(lc, nbins, wl, opts).value, t) ==
        if Qualifies(WithTime(temp, t), MinBands(opts), Necessary(opts)) then WithTime(temp, t) else []
    ensures var temp := AggregateTable(lc, nbins, wl, opts).value;
      multiset(MeanMagnitudes(lc, nbins, wl, opts).value)[x] ==
        if Qualifies(WithTime(temp, x.meanObsmjd), MinBands(opts), Necessary(opts)) then multiset(temp)[x] else 0
  {
    var temp := AggregateTable(lc, nbins, wl, opts).value;
    var times := UniqueTimes(temp);
    QualifyGroup(temp, times, MinBands(opts), Necessary(opts), t);
    QualifyCount(temp, times, MinBands(opts), Necessary(opts), x);
    if t !in times {
      assert WithTime(temp, t) == [];
    }
    if x.meanObsmjd !in times {
      assert x !in temp;
    }
  }

  /** Raising `min_bands_per_bin` or adding necessary bands never adds a row to the output. */
  lemma MinBandsMonotone(lc: seq<Measurement>, nbins: int, wl: map<string, real>,
                         opts1: BinOptions, opts2: BinOptions)
    requires opts1.bands == opts2.bands && opts1.binsFromDf == opts2.binsFromDf
    requires MinBands(opts1) <= MinBands(opts2)
    requires forall b :: b in Necessary(opts1) ==> b in Necessary(opts2)
    requires MeanMagnitudes(lc, nbins, wl, opts1).Ok? && MeanMagnitudes(lc, nbins, wl, opts2).Ok?
    ensures multiset(MeanMagnitudes(lc, nbins, wl, opts2).value) <= multiset(MeanMagnitudes(lc, nbins, wl, opts1).value)
    ensures |MeanMagnitudes(lc, nbins, wl, opts2).value| <= |MeanMagnitudes(lc, nbins, wl, opts1).value|
  {
    assert Filtered(lc, wl, opts1) == Filtered(lc, wl, opts2);
    assert AggregateTable(lc, nbins, wl, opts1) == AggregateTable(lc, nbins, wl, opts2);
    var temp := AggregateTable(lc, nbins, wl, opts1).value;
    QualifyMonotone(temp, UniqueTimes(temp), MinBands(opts1), MinBands(opts2), Necessary(opts1), Necessary(opts2));
  }

  /** Omitted arguments mean: every band of the wavelength table, at least two rows, no necessary band. */
  lemma DefaultOptions(lc: seq<Measurement>, nbins: int, wl: map<string, real>, allBands: seq<string>, fromDf: bool)
    requires forall b :: b in allBands <==> b in wl
    ensures MeanMagnitudes(lc, nbins, wl, BinOptions(None, None, None, fromDf)) ==
            MeanMagnitudes(lc, nbins, wl, BinOptions(Some(allBands), Some(2), Some([]), fromDf))
  {
    var o1 := BinOptions(None, None, None, fromDf);
    var o2 := BinOptions(Some(allBands), Some(2), Some([]), fromDf);
    assert BandsToFit(o1.bands, wl) == BandsToFit(o2.bands, wl);
    assert Filtered(lc, wl, o1) == Filtered(lc, wl, o2);
  }

  // ---------------------------------------------------------------------------
  // Error outcomes
  // ---------------------------------------------------------------------------

  /** The exceptions raised before any binning: no measurement at all, or a negative sample count. */
  lemma MeanMagnitudesEarlyErrors(lc: seq<Measurement>, nbins: int, wl: map<string, real>, opts: BinOptions)
    ensures MeanMagnitudes(lc, nbins, wl, opts) == Err(EmptyLightcurve) <==> lc == []
    ensures lc != [] ==> (MeanMagnitudes(lc, nbins, wl, opts) == Err(NegativeSampleCount(nbins + 1)) <==> nbins + 1 < 0)
  {
    if lc != [] && nbins + 1 >= 0 && AggregateTable(lc, nbins, wl, opts).Err? {
      var rows := Filtered(lc, wl, opts);
      if opts.binsFromDf {
        var labels := LabelsOf(rows);
        var j, m := ScanError(LabelBins(rows, labels), wl, |labels|);
      } else {
        var e := TimeGrid(lc, nbins);
        var i, m := ScanError(EqualWidthBins(rows, e), wl, NumBins(e));
      }
    }
  }

  /** A `KeyError` names the band of an admitted measurement that the wavelength table lacks. */
  lemma UnknownBandWitness(lc: seq<Measurement>, nbins: int, wl: map<string, real>, opts: BinOptions)
    returns (m: Measurement)
    requires MeanMagnitudes(lc, nbins, wl, opts).Err?
    requires MeanMagnitudes(lc, nbins, wl, opts).error.UnknownBand?
    ensures m in lc && m.telescopeBand in BandsToFit(opts.bands, wl) && m.telescopeBand !in wl
    ensures MeanMagnitudes(lc, nbins, wl, opts).error == UnknownBand(m.telescopeBand)
  {
    var rows := Filtered(lc, wl, opts);
    var bins := if opts.binsFromDf then LabelBins(rows, LabelsOf(rows)) else EqualWidthBins(rows, TimeGrid(lc, nbins));
    var i;
    i, m := ScanError(bins, wl, |bins|);
    assert m in bins[i].rows && m in rows;
  }

  // ---------------------------------------------------------------------------
  // Equal-width mode: which bin a measurement lands in
  // ---------------------------------------------------------------------------

  /** A measurement earlier than the latest time falls in exactly one equal-width bin (given `nbins >= 1`). */
  lemma BinOfTime(lc: seq<Measurement>, nbins: int, m: Measurement) returns (i: int)
    requires m in lc && nbins >= 1 && m.obsmjd < MaxTime(lc)
    ensures 0 <= i < NumBins(TimeGrid(lc, nbins)) && InBin(m.obsmjd, TimeGrid(lc, nbins), i)
    ensures forall j :: 0 <= j < NumBins(TimeGrid(lc, nbins)) && InBin(m.obsmjd, TimeGrid(lc, nbins), j) ==> j == i
  {
    var e := TimeGrid(lc, nbins);
    i := InteriorInSomeBin(e, m.obsmjd);
    forall j | 0 <= j < NumBins(e) && InBin(m.obsmjd, e, j) ensures j == i {
      BinsDisjoint(e, m.obsmjd, i, j);
    }
  }

  /** Measurements at exactly the latest time fall in no bin: the last interval is half-open too. */
  lemma MaxTimeInNoBin(lc: seq<Measurement>, nbins: int, i: int)
    requires lc != [] && nbins >= 0 && 0 <= i < NumBins(TimeGrid(lc, nbins))
    ensures !InBin(MaxTime(lc), TimeGrid(lc, nbins), i)
  {
    LastEdgeInNoBin(TimeGrid(lc, nbins), i);
  }

  /** Conversely to `MeanMagnitudesRows`: in equal-width mode every admitted measurement before the
      latest time has its band's aggregate row, stamped with its bin's midpoint, in `temp_df`. */
  lemma EqualWidthCover(lc: seq<Measurement>, nbins: int, wl: map<string, real>, opts: BinOptions,
                        m: Measurement) returns (x: AggRow, i: int)
    requires !opts.binsFromDf && nbins >= 1
    requires m in lc && m.telescopeBand in BandsToFit(opts.bands, wl) && m.obsmjd < MaxTime(lc)
    requires AggregateTable(lc, nbins, wl, opts).Ok?
    ensures x in AggregateTable(lc, nbins, wl, opts).value
    ensures 0 <= i < NumBins(TimeGrid(lc, nbins)) && InBin(m.obsmjd, TimeGrid(lc, nbins), i)
    ensures x.telescopeBand == m.telescopeBand && x.meanObsmjd == Midpoint(TimeGrid(lc, nbins), i)
    ensures RowOfBin(x, BinSlice(Filtered(lc, wl, opts), TimeGrid(lc, nbins), i), Midpoint(TimeGrid(lc, nbins), i), wl)
  {
    var rows := Filtered(lc, wl, opts);
    var e := TimeGrid(lc, nbins);
    i := BinOfTime(lc, nbins, m);
    var bins := EqualWidthBins(rows, e);
    assert m in bins[i].rows;
    x := ScanCover(bins, wl, |bins|, i, m);
  }

  /** In predefined mode every admitted measurement has its band's aggregate row, stamped with
      the mean time of its label, in `temp_df`. */
  lemma PredefinedCover(lc: seq<Measurement>, nbins: int, wl: map<string, real>, opts: BinOptions,
                        m: Measurement) returns (x: AggRow)
    requires opts.binsFromDf && nbins + 1 >= 0
    requires m in lc && m.telescopeBand in BandsToFit(opts.bands, wl)
    requires AggregateTable(lc, nbins, wl, opts).Ok?
    ensures x in AggregateTable(lc, nbins, wl, opts).value && x.telescopeBand == m.telescopeBand
    ensures WithLabel(Filtered(lc, wl, opts), m.bin) != []
    ensures x.meanObsmjd == LabelTime(Filtered(lc, wl, opts), m.bin)
    ensures RowOfBin(x, WithLabel(Filtered(lc, wl, opts), m.bin), LabelTime(Filtered(lc, wl, opts), m.bin), wl)
  {
    var rows := Filtered(lc, wl, opts);
    var labels := LabelsOf(rows);
    var j :| 0 <= j < |labels| && labels[j] == m.bin;
    var bins := LabelBins(rows, labels);
    assert m in bins[j].rows;
    x := ScanCover(bins, wl, |bins|, j, m);
  }

  /** In equal-width mode the aggregate table is empty (so the method fails on the missing
      column) exactly when every admitted measurement sits at the latest time, or there are no bins. */
  lemma EqualWidthEmptyTable(lc: seq<Measurement>, nbins: int, wl: map<string, real>, opts: BinOptions)
    requires !opts.binsFromDf && lc != [] && nbins >= 0
    requires AggregateTable(lc, nbins, wl, opts).Ok?
    ensures AggregateTable(lc, nbins, wl, opts).value == [] <==>
      forall m :: m in Filtered(lc, wl, opts) ==> nbins == 0 || m.obsmjd == MaxTime(lc)
  {
    var rows := Filtered(lc, wl, opts);
    var e := TimeGrid(lc, nbins);
    var temp := ScanBins(EqualWidthBins(rows, e), wl, NumBins(e)).value;
    assert AggregateTable(lc, nbins, wl, opts).value == temp;
    if temp != [] {
      var m := EqualWidthTableWitness(rows, e, wl);
      assert m in rows && nbins != 0 && m.obsmjd != MaxTime(lc);
    } else {
      forall m | m in rows ensures nbins == 0 || m.obsmjd == MaxTime(lc) {
        if nbins != 0 && m.obsmjd != MaxTime(lc) {
          var x, i := EqualWidthCover(lc, nbins, wl, opts, m);
        }
      }
    }
  }

  /** A non-empty equal-width table has a contributing row strictly before the last edge. */
  lemma EqualWidthTableWitness(rows: seq<Measurement>, e: seq<real>, wl: map<string, real>) returns (m: Measurement)
    requires Sorted(e)
    requires ScanBins(EqualWidthBins(rows, e), wl, NumBins(e)).Ok?
    requires ScanBins(EqualWidthBins(rows, e), wl, NumBins(e)).value != []
    ensures m in rows && NumBins(e) != 0 && m.obsmjd != e[|e| - 1]
  {
    var bins := EqualWidthBins(rows, e);
    var temp := ScanBins(bins, wl, |bins|).value;
    ScanOrigin(bins, wl, |bins|);
    assert temp[0] in temp;
    var i :| 0 <= i < |bins| && RowOfBin(temp[0], bins[i].rows, bins[i].time, wl);
    var df := BinSlice(rows, e, i);
    m := WithBand(df, temp[0].telescopeBand)[0];
    assert m in WithBand(df, temp[0].telescopeBand);
    LastEdgeInNoBin(e, i);
  }

  /** In predefined mode the aggregate table is empty exactly when no measurement was admitted. */
  lemma PredefinedEmptyTable(lc: seq<Measurement>, nbins: int, wl: map<string, real>, opts: BinOptions)
    requires opts.binsFromDf && lc != [] && nbins + 1 >= 0
    requires AggregateTable(lc, nbins, wl, opts).Ok?
    ensures AggregateTable(lc, nbins, wl, opts).value == [] <==> Filtered(lc, wl, opts) == []
  {
    var rows := Filtered(lc, wl, opts);
    if rows != [] {
      var x := PredefinedCover(lc, nbins, wl, opts, rows[0]);
    } else {
      assert LabelsOf(rows) == [];
    }
  }

  // ---------------------------------------------------------------------------
  // Equal-width mode: a time group is exactly one bin
  // ---------------------------------------------------------------------------

  lemma BinRowsTimes(df: seq<Measurement>, t: real, wl: map<string, real>)
    requires BinRows(df, BandsOf(df), t, wl).Ok?
    ensures forall x :: x in BinRows(df, BandsOf(df), t, wl).value ==> x.meanObsmjd == t
  {
    BinRowsAreRowsOfBin(df, BandsOf(df), t, wl);
  }

  /** The rows a bin contributes list its bands in first-appearance order, once each. */
  lemma BinRowsBands(df: seq<Measurement>, t: real, wl: map<string, real>)
    requires BinRows(df, BandsOf(df), t, wl).Ok?
    ensures AggBands(BinRows(df, BandsOf(df), t, wl).value) == BandsOf(df)
  {
    var bs := BandsOf(df);
    var r := BinRows(df, bs, t, wl).value;
    forall i | 0 <= i < |bs| ensures AggBands(r)[i] == bs[i] {
      BinRowsAt(df, bs, t, wl, i);
    }
  }

  /** No row of the first `k` bins carries a time that none of them is stamped with. */
  lemma {:induction false} ScanTimeAbsent(bins: seq<Bin>, wl: map<string, real>, k: int, t: real)
    requires 0 <= k <= |bins| && ScanBins(bins, wl, k).Ok?
    requires forall j :: 0 <= j < k ==> bins[j].time != t
    ensures WithTime(ScanBins(bins, wl, k).value, t) == []
    decreases k
  {
    if k > 0 {
      ScanSplit(bins, wl, k);
      ScanTimeAbsent(bins, wl, k - 1, t);
      var last := bins[k - 1];
      BinRowsTimes(last.rows, last.time, wl);
      WithTimeNone(BinOutput(last, wl).value, t);
      WithTimeAppend(ScanBins(bins, wl, k - 1).value, BinOutput(last, wl).value, t);
    }
  }

  /** Bins after `i` stamped with other times leave the group of bin `i`'s time unchanged. */
  lemma {:induction false} ScanTimeLater(bins: seq<Bin>, wl: map<string, real>, k: int, i: int)
    requires 0 <= i < k <= |bins| && ScanBins(bins, wl, k).Ok?
    requires forall j :: i < j < k ==> bins[j].time != bins[i].time
    ensures ScanBins(bins, wl, i + 1).Ok?
    ensures WithTime(ScanBins(bins, wl, k).value, bins[i].time) == WithTime(ScanBins(bins, wl, i + 1).value, bins[i].time)
    decreases k
  {
    if k > i + 1 {
      ScanSplit(bins, wl, k);
      ScanTimeLater(bins, wl, k - 1, i);
      var last := bins[k - 1];
      BinRowsTimes(last.rows, last.time, wl);
      WithTimeNone(BinOutput(last, wl).value, bins[i].time);
      WithTimeAppend(ScanBins(bins, wl, k - 1).value, BinOutput(last, wl).value, bins[i].time);
    }
  }

  /** When no other bin shares bin `i`'s time, the group at that time is exactly bin `i`'s rows. */
  lemma ScanGroupIsBin(bins: seq<Bin>, wl: map<string, real>, k: int, i: int)
    requires 0 <= i < k <= |bins| && ScanBins(bins, wl, k).Ok?
    requires forall j :: 0 <= j < k && j != i ==> bins[j].time != bins[i].time
    ensures BinOutput(bins[i], wl).Ok?
    ensures WithTime(ScanBins(bins, wl, k).value, bins[i].time) == BinOutput(bins[i], wl).value
  {
    var t := bins[i].time;
    ScanTimeLater(bins, wl, k, i);
    ScanSplit(bins, wl, i + 1);
    var b := BinOutput(bins[i], wl).value;
    BinRowsTimes(bins[i].rows, t, wl);
    WithTimeAll(b, t);
    ScanTimeAbsent(bins, wl, i, t);
    WithTimeAppend(ScanBins(bins, wl, i).value, b, t);
  }

  /** Over strictly increasing edges, the group at bin `i`'s midpoint is exactly the rows of bin `i`. */
  lemma EqualWidthGroupIsBin(rows: seq<Measurement>, e: seq<real>, wl: map<string, real>, i: int)
    requires StrictlySorted(e) && 0 <= i < NumBins(e)
    requires ScanBins(EqualWidthBins(rows, e), wl, NumBins(e)).Ok?
    ensures BinRows(BinSlice(rows, e, i), BandsOf(BinSlice(rows, e, i)), Midpoint(e, i), wl).Ok?
    ensures WithTime(ScanBins(EqualWidthBins(rows, e), wl, NumBins(e)).value, Midpoint(e, i)) ==
            BinRows(BinSlice(rows, e, i), BandsOf(BinSlice(rows, e, i)), Midpoint(e, i), wl).value
  {
    var bins := EqualWidthBins(rows, e);
    forall j | 0 <= j < |bins| && j != i ensures bins[j].time != bins[i].time {
      MidpointsDistinct(e, j, i);
    }
    ScanGroupIsBin(bins, wl, |bins|, i);
  }

  /** In equal-width mode with a non-degenerate time range, a time group holds one row per band of
      its bin, so counting rows counts distinct bands, and qualification reads as a band criterion. */
  lemma EqualWidthQualification(lc: seq<Measurement>, nbins: int, wl: map<string, real>, opts: BinOptions, i: int)
    requires !opts.binsFromDf && nbins >= 1 && lc != [] && MinTime(lc) < MaxTime(lc)
    requires AggregateTable(lc, nbins, wl, opts).Ok?
    requires 0 <= i < NumBins(TimeGrid(lc, nbins))
    ensures var e := TimeGrid(lc, nbins);
      var df := BinSlice(Filtered(lc, wl, opts), e, i);
      var group := WithTime(AggregateTable(lc, nbins, wl, opts).value, Midpoint(e, i));
      && AggBands(group) == BandsOf(df) && Distinct(AggBands(group))
      && (Qualifies(group, MinBands(opts), Necessary(opts)) <==>
            |BandsOf(df)| >= MinBands(opts) && forall b :: b in Necessary(opts) ==> b in BandsOf(df))
  {
    var rows := Filtered(lc, wl, opts);
    var e := TimeGrid(lc, nbins);
    assert StrictlySorted(e);
    EqualWidthGroupIsBin(rows, e, wl, i);
    var df := BinSlice(rows, e, i);
    BinRowsBands(df, Midpoint(e, i), wl);
    BandsOfDistinct(df);
  }
  // ---------------------------------------------------------------------------
  // Order of the output
  // ---------------------------------------------------------------------------

  /** The qualified table lists the kept groups in the order their times first appear in
      `temp_df`: its distinct times are the qualifying times of `temp_df.mean_obsmjd.unique()`. */
  lemma MeanMagnitudesOrder(lc: seq<Measurement>, nbins: int, wl: map<string, real>, opts: BinOptions)
    requires MeanMagnitudes(lc, nbins, wl, opts).Ok?
    ensures lc != [] && nbins + 1 >= 0 && AggregateTable(lc, nbins, wl, opts).Ok?
    ensures var temp := AggregateTable(lc, nbins, wl, opts).value;
      UniqueTimes(MeanMagnitudes(lc, nbins, wl, opts).value) ==
        QualifyingTimes(temp, UniqueTimes(temp), MinBands(opts), Necessary(opts))
  {
    var temp := AggregateTable(lc, nbins, wl, opts).value;
    QualifyOrder(temp, UniqueTimes(temp), MinBands(opts), Necessary(opts));
  }

  /** Bins whose times never decrease are aggregated into rows whose times never decrease. */
  lemma {:induction false} ScanSorted(bins: seq<Bin>, wl: map<string, real>, k: int)
    requires 0 <= k <= |bins| && ScanBins(bins, wl, k).Ok?
    requires forall i, j :: 0 <= i <= j < |bins| ==> bins[i].time <= bins[j].time
    ensures Sorted(AggTimes(ScanBins(bins, wl, k).value))
    ensures k > 0 ==> forall x :: x in ScanBins(bins, wl, k).value ==> x.meanObsmjd <= bins[k - 1].time
    decreases k
  {
    if k > 0 {
      ScanSplit(bins, wl, k);
      ScanSorted(bins, wl, k - 1);
      var p := ScanBins(bins, wl, k - 1).value;
      var last := bins[k - 1];
      var b := BinOutput(last, wl).value;
      BinRowsTimes(last.rows, last.time, wl);
      assert AggTimes(p + b) == AggTimes(p) + AggTimes(b);
      forall j | 0 <= j < |b| ensures AggTimes(b)[j] == last.time {
        assert b[j] in b;
      }
      forall i | 0 <= i < |p| ensures AggTimes(p)[i] <= last.time {
        assert p[i] in p;
      }
      SortedAppend(AggTimes(p), AggTimes(b));
    }
  }

  /** Over ordered edges the equal-width bins are stamped with non-decreasing midpoints. */
  lemma EqualWidthBinsSorted(rows: seq<Measurement>, e: seq<real>)
    requires Sorted(e)
    ensures var bins := EqualWidthBins(rows, e);
      forall i, j :: 0 <= i <= j < |bins| ==> bins[i].time <= bins[j].time
  {
    var bins := EqualWidthBins(rows, e);
    forall i, j | 0 <= i <= j < |bins| ensures bins[i].time <= bins[j].time {
      assert e[i] <= e[j] && e[i + 1] <= e[j + 1];
    }
  }

  /** In equal-width mode the kept bins come out in time order: the rows' times never decrease
      and the distinct times strictly increase. */
  lemma EqualWidthOrdered(lc: seq<Measurement>, nbins: int, wl: map<string, real>, opts: BinOptions)
    requires !opts.binsFromDf && MeanMagnitudes(lc, nbins, wl, opts).Ok?
    ensures Sorted(AggTimes(MeanMagnitudes(lc, nbins, wl, opts).value))
    ensures StrictlySorted(UniqueTimes(MeanMagnitudes(lc, nbins, wl, opts).value))
  {
    var rows := Filtered(lc, wl, opts);
    var e := TimeGrid(lc, nbins);
    var bins := EqualWidthBins(rows, e);
    EqualWidthBinsSorted(rows, e);
    ScanSorted(bins, wl, |bins|);
    var temp := AggregateTable(lc, nbins, wl, opts).value;
    UniqueOfSorted(AggTimes(temp));
    QualifySorted(temp, UniqueTimes(temp), MinBands(opts), Necessary(opts));
    UniqueOfSorted(AggTimes(MeanMagnitudes(lc, nbins, wl, opts).value));
  }
}
