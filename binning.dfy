/** Time binning and per-band aggregation of `SED.get_mean_magnitudes`
    (modelSED/sed.py): the band filter, the equal-width time bins between
    `nbins + 1` linearly spaced edges, the predefined integer `bin` labels,
    and one aggregate row per (bin, telescope_band) present. */
module Binning {
  import opened SedTypes
  import opened Stats
  import opened Edges

  // ---------------------------------------------------------------------------
  // Row filters (pandas boolean indexing and `query`)
  // ---------------------------------------------------------------------------

  /** `lc[lc.telescope_band.isin(bands_to_fit)]`. */
  function KeepBands(lc: seq<Measurement>, bands: set<string>): (r: seq<Measurement>)
    ensures forall m {:trigger m in r} {:trigger m in lc} :: m in r <==> m in lc && m.telescopeBand in bands
  {
    if lc == [] then []
    else (if lc[0].telescopeBand in bands then [lc[0]] else []) + KeepBands(lc[1..], bands)
  }

  /** `query("obsmjd >= lo and obsmjd < hi")`: the half-open interval [lo, hi). */
  function InInterval(rows: seq<Measurement>, lo: real, hi: real): (r: seq<Measurement>)
    ensures forall m {:trigger m in r} {:trigger m in rows} :: m in r <==> m in rows && lo <= m.obsmjd < hi
  {
    if rows == [] then []
    else (if lo <= rows[0].obsmjd < hi then [rows[0]] else []) + InInterval(rows[1..], lo, hi)
  }

  /** `query("bin == label")`. */
  function WithLabel(rows: seq<Measurement>, lbl: int): (r: seq<Measurement>)
    ensures forall m {:trigger m in r} {:trigger m in rows} :: m in r <==> m in rows && m.bin == lbl
  {
    if rows == [] then []
    else (if rows[0].bin == lbl then [rows[0]] else []) + WithLabel(rows[1..], lbl)
  }

  /** `query("telescope_band == @telescope_band")`. */
  function WithBand(rows: seq<Measurement>, tb: string): (r: seq<Measurement>)
    ensures forall m {:trigger m in r} {:trigger m in rows} :: m in r <==> m in rows && m.telescopeBand == tb
  {
    if rows == [] then []
    else (if rows[0].telescopeBand == tb then [rows[0]] else []) + WithBand(rows[1..], tb)
  }

  // Each filter keeps every matching row as often as it occurs, in order: it distributes over
  // concatenation, and counts each row of the input exactly when the row matches.

  lemma {:induction false} KeepBandsAppend(a: seq<Measurement>, b: seq<Measurement>, bands: set<string>)
    ensures KeepBands(a + b, bands) == KeepBands(a, bands) + KeepBands(b, bands)
  {
    if a == [] {
      assert a + b == b;
    } else {
      assert (a + b)[0] == a[0] && (a + b)[1..] == a[1..] + b;
      KeepBandsAppend(a[1..], b, bands);
      if a[0].telescopeBand in bands {
        assert KeepBands(a + b, bands) == [a[0]] + (KeepBands(a[1..], bands) + KeepBands(b, bands));
      } else {
        assert KeepBands(a + b, bands) == KeepBands(a[1..], bands) + KeepBands(b, bands);
      }
    }
  }


  lemma {:induction false} KeepBandsCount(lc: seq<Measurement>, bands: set<string>, x: Measurement)
    ensures multiset(KeepBands(lc, bands))[x] == if x.telescopeBand in bands then multiset(lc)[x] else 0
  {
    if lc != [] {
      KeepBandsCount(lc[1..], bands, x);
      assert lc == [lc[0]] + lc[1..];
    }
  }

  lemma {:induction false} InIntervalAppend(a: seq<Measurement>, b: seq<Measurement>, lo: real, hi: real)
    ensures InInterval(a + b, lo, hi) == InInterval(a, lo, hi) + InInterval(b, lo, hi)
  {
    if a == [] {
      assert a + b == b;
    } else {
      assert (a + b)[0] == a[0] && (a + b)[1..] == a[1..] + b;
      InIntervalAppend(a[1..], b, lo, hi);
      if lo <= a[0].obsmjd < hi {
        assert InInterval(a + b, lo, hi) == [a[0]] + (InInterval(a[1..], lo, hi) + InInterval(b, lo, hi));
      } else {
        assert InInterval(a + b, lo, hi) == InInterval(a[1..], lo, hi) + InInterval(b, lo, hi);
      }
    }
  }


  lemma {:induction false} InIntervalCount(rows: seq<Measurement>, lo: real, hi: real, x: Measurement)
    ensures multiset(InInterval(rows, lo, hi))[x] == if lo <= x.obsmjd < hi then multiset(rows)[x] else 0
  {
    if rows != [] {
      InIntervalCount(rows[1..], lo, hi, x);
      assert rows == [rows[0]] + rows[1..];
    }
  }

  lemma {:induction false} WithLabelAppend(a: seq<Measurement>, b: seq<Measurement>, lbl: int)
    ensures WithLabel(a + b, lbl) == WithLabel(a, lbl) + WithLabel(b, lbl)
  {
    if a == [] {
      assert a + b == b;
    } else {
      assert (a + b)[0] == a[0] && (a + b)[1..] == a[1..] + b;
      WithLabelAppend(a[1..], b, lbl);
      if a[0].bin == lbl {
        assert WithLabel(a + b, lbl) == [a[0]] + (WithLabel(a[1..], lbl) + WithLabel(b, lbl));
      } else {
        assert WithLabel(a + b, lbl) == WithLabel(a[1..], lbl) + WithLabel(b, lbl);
      }
    }
  }


  lemma {:induction false} WithLabelCount(rows: seq<Measurement>, lbl: int, x: Measurement)
    ensures multiset(WithLabel(rows, lbl))[x] == if x.bin == lbl then multiset(rows)[x] else 0
  {
    if rows != [] {
      WithLabelCount(rows[1..], lbl, x);
      assert rows == [rows[0]] + rows[1..];
    }
  }

  lemma {:induction false} WithBandAppend(a: seq<Measurement>, b: seq<Measurement>, tb: string)
    ensures WithBand(a + b, tb) == WithBand(a, tb) + WithBand(b, tb)
  {
    if a == [] {
      assert a + b == b;
    } else {
      assert (a + b)[0] == a[0] && (a + b)[1..] == a[1..] + b;
      WithBandAppend(a[1..], b, tb);
      if a[0].telescopeBand == tb {
        assert WithBand(a + b, tb) == [a[0]] + (WithBand(a[1..], tb) + WithBand(b, tb));
      } else {
        assert WithBand(a + b, tb) == WithBand(a[1..], tb) + WithBand(b, tb);
      }
    }
  }


  lemma {:induction false} WithBandCount(rows: seq<Measurement>, tb: string, x: Measurement)
    ensures multiset(WithBand(rows, tb))[x] == if x.telescopeBand == tb then multiset(rows)[x] else 0
  {
    if rows != [] {
      WithBandCount(rows[1..], tb, x);
      assert rows == [rows[0]] + rows[1..];
    }
  }

  function Times(rows: seq<Measurement>): (r: seq<real>)
    ensures |r| == |rows|
  {
    seq(|rows|, i requires 0 <= i < |rows| => rows[i].obsmjd)
  }

  function Mags(rows: seq<Measurement>): (r: seq<real>)
    ensures |r| == |rows|
  {
    seq(|rows|, i requires 0 <= i < |rows| => rows[i].mag)
  }

  function MagErrs(rows: seq<Measurement>): (r: seq<real>)
    ensures |r| == |rows|
  {
    seq(|rows|, i requires 0 <= i < |rows| => rows[i].magErr)
  }

  function TelescopeBands(rows: seq<Measurement>): (r: seq<string>)
    ensures |r| == |rows|
  {
    seq(|rows|, i requires 0 <= i < |rows| => rows[i].telescopeBand)
  }

  function Labels(rows: seq<Measurement>): (r: seq<int>)
    ensures |r| == |rows|
  {
    seq(|rows|, i requires 0 <= i < |rows| => rows[i].bin)
  }

  /** `df.telescope_band.unique()`: every band present, once, in order of first appearance. */
  function BandsOf(rows: seq<Measurement>): (bs: seq<string>)
    ensures forall b :: b in bs ==> WithBand(rows, b) != []
    ensures forall i :: 0 <= i < |bs| ==> WithBand(rows, bs[i]) != []
    ensures forall m {:trigger m in rows} :: m in rows ==> m.telescopeBand in bs
  {
    var bs := Unique(TelescopeBands(rows));
    forall b | b in bs ensures WithBand(rows, b) != [] {
      var i :| 0 <= i < |rows| && TelescopeBands(rows)[i] == b;
      assert rows[i] in WithBand(rows, b);
    }
    forall m | m in rows ensures m.telescopeBand in bs {
      var i :| 0 <= i < |rows| && rows[i] == m;
      assert TelescopeBands(rows)[i] == m.telescopeBand;
    }
    bs
  }

  /** `lc.bin.unique()`: every label present, once, in order of first appearance. */
  function LabelsOf(rows: seq<Measurement>): (ls: seq<int>)
    ensures forall l :: l in ls ==> WithLabel(rows, l) != []
    ensures forall i :: 0 <= i < |ls| ==> WithLabel(rows, ls[i]) != []
    ensures forall m {:trigger m in rows} :: m in rows ==> m.bin in ls
  {
    var ls := Unique(Labels(rows));
    forall l | l in ls ensures WithLabel(rows, l) != [] {
      var i :| 0 <= i < |rows| && Labels(rows)[i] == l;
      assert rows[i] in WithLabel(rows, l);
    }
    forall m | m in rows ensures m.bin in ls {
      var i :| 0 <= i < |rows| && rows[i] == m;
      assert Labels(rows)[i] == m.bin;
    }
    ls
  }

  lemma BandsOfDistinct(rows: seq<Measurement>)
    ensures Distinct(BandsOf(rows))
  {
    UniqueDistinct(TelescopeBands(rows));
  }

  lemma LabelsOfDistinct(rows: seq<Measurement>)
    ensures Distinct(LabelsOf(rows))
  {
    UniqueDistinct(Labels(rows));
  }

  // ---------------------------------------------------------------------------
  // Time range (`np.min`, `np.max`) and equal-width edges (`np.linspace`)
  // ---------------------------------------------------------------------------

  function MinTime(lc: seq<Measurement>): (t: real)
    requires lc != []
    ensures forall m {:trigger m in lc} :: m in lc ==> t <= m.obsmjd
    ensures exists m :: m in lc && m.obsmjd == t
  {
    if |lc| == 1 then lc[0].obsmjd
    else
      var rest := MinTime(lc[1..]);
      assert forall m {:trigger m in lc} :: m in lc ==> m == lc[0] || m in lc[1..];
      if lc[0].obsmjd <= rest then lc[0].obsmjd else rest
  }

  function MaxTime(lc: seq<Measurement>): (t: real)
    requires lc != []
    ensures forall m {:trigger m in lc} :: m in lc ==> m.obsmjd <= t
    ensures exists m :: m in lc && m.obsmjd == t
  {
    if |lc| == 1 then lc[0].obsmjd
    else
      var rest := MaxTime(lc[1..]);
      assert forall m {:trigger m in lc} :: m in lc ==> m == lc[0] || m in lc[1..];
      if lc[0].obsmjd >= rest then lc[0].obsmjd else rest
  }

  lemma MinTimeAtMostMaxTime(lc: seq<Measurement>)
    requires lc != []
    ensures MinTime(lc) <= MaxTime(lc)
  {
    assert lc[0] in lc;
  }

  /** The rows of equal-width bin `i`: `query("obsmjd >= e[i] and obsmjd < e[i + 1]")`. */
  function BinSlice(rows: seq<Measurement>, e: seq<real>, i: int): (r: seq<Measurement>)
    requires 0 <= i < NumBins(e)
    ensures forall m {:trigger m in r} {:trigger m in rows} :: m in r <==> m in rows && InBin(m.obsmjd, e, i)
  {
    InInterval(rows, e[i], e[i + 1])
  }

  /** Bin `i` counts each row whose time lies in it as often as the rows do. */
  lemma BinSliceCount(rows: seq<Measurement>, e: seq<real>, i: int, x: Measurement)
    requires 0 <= i < NumBins(e)
    ensures multiset(BinSlice(rows, e, i))[x] == if InBin(x.obsmjd, e, i) then multiset(rows)[x] else 0
  {
    InIntervalCount(rows, e[i], e[i + 1], x);
  }

  // ---------------------------------------------------------------------------
  // Aggregation of one (bin, telescope_band) group
  // ---------------------------------------------------------------------------

  /** The appended record: mean magnitude, mean magnitude error, count, time and wavelength. */
  function Aggregate(group: seq<Measurement>, tb: string, t: real, wavelength: real): AggRow
    requires group != []
  {
    AggRow(tb, wavelength, t, |group|, Mean(Mags(group)), Mean(MagErrs(group)))
  }

  /** The mean magnitude and error lie within the range of the contributing rows. */
  lemma AggregateWithinRange(group: seq<Measurement>, tb: string, t: real, wavelength: real,
                             lo: real, hi: real, errLo: real, errHi: real)
    requires group != []
    requires forall m :: m in group ==> lo <= m.mag <= hi && errLo <= m.magErr <= errHi
    ensures var x := Aggregate(group, tb, t, wavelength);
      x.entries >= 1 && lo <= x.meanMag <= hi && errLo <= x.meanMagErr <= errHi
  {
    assert forall i :: 0 <= i < |group| ==> group[i] in group;
    MeanBounds(Mags(group), lo, hi);
    MeanBounds(MagErrs(group), errLo, errHi);
  }

  /** With a single contributing row, the aggregate reproduces its magnitude and error exactly. */
  lemma AggregateSingle(m: Measurement, tb: string, t: real, wavelength: real)
    ensures var x := Aggregate([m], tb, t, wavelength);
      x.entries == 1 && x.meanMag == m.mag && x.meanMagErr == m.magErr
  {
    MeanOfConstant(Mags([m]), m.mag);
    MeanOfConstant(MagErrs([m]), m.magErr);
  }

  /** `x` is the aggregate row of band `x.telescopeBand` in the bin with rows `df` and time `t`. */
  ghost predicate RowOfBin(x: AggRow, df: seq<Measurement>, t: real, wl: map<string, real>)
  {
    && x.telescopeBand in wl
    && WithBand(df, x.telescopeBand) != []
    && x == Aggregate(WithBand(df, x.telescopeBand), x.telescopeBand, t, wl[x.telescopeBand])
  }

  /** The inner loop over `df.telescope_band.unique()`: one aggregate row per band in `bs`,
      or the `KeyError` of the first band missing from the wavelength table. */
  function BinRows(df: seq<Measurement>, bs: seq<string>, t: real, wl: map<string, real>)
    : (r: Result<seq<AggRow>>)
    requires forall i :: 0 <= i < |bs| ==> WithBand(df, bs[i]) != []
    ensures r.Ok? <==> forall b :: b in bs ==> b in wl
    ensures r.Ok? ==> |r.value| == |bs|
    decreases |bs|
  {
    if bs == [] then Ok([])
    else
      var last := |bs| - 1;
      match BinRows(df, bs[..last], t, wl)
      case Err(e) => Err(e)
      case Ok(p) =>
        if bs[last] !in wl then Err(UnknownBand(bs[last]))
        else Ok(p + [Aggregate(WithBand(df, bs[last]), bs[last], t, wl[bs[last]])])
  }

  /** One more band of the bin: its aggregate row is appended, or its `KeyError` is raised. */
  lemma BinRowsStep(df: seq<Measurement>, bs: seq<string>, t: real, wl: map<string, real>,
                    j: int, rows: seq<AggRow>)
    requires forall i :: 0 <= i < |bs| ==> WithBand(df, bs[i]) != []
    requires 0 <= j < |bs| && BinRows(df, bs[..j], t, wl) == Ok(rows)
    ensures BinRows(df, bs[..j + 1], t, wl) ==
      if bs[j] in wl then Ok(rows + [Aggregate(WithBand(df, bs[j]), bs[j], t, wl[bs[j]])])
      else Err(UnknownBand(bs[j]))
  {
    assert bs[..j + 1][..j] == bs[..j];
  }

  /** Row `i` of a bin is the aggregate of band `bs[i]`, with its wavelength looked up. */
  lemma {:induction false} BinRowsAt(df: seq<Measurement>, bs: seq<string>, t: real, wl: map<string, real>, i: int)
    requires forall i :: 0 <= i < |bs| ==> WithBand(df, bs[i]) != []
    requires BinRows(df, bs, t, wl).Ok? && 0 <= i < |bs|
    ensures bs[i] in wl
    ensures BinRows(df, bs, t, wl).value[i] == Aggregate(WithBand(df, bs[i]), bs[i], t, wl[bs[i]])
    decreases |bs|
  {
    var last := |bs| - 1;
    if i < last {
      BinRowsAt(df, bs[..last], t, wl, i);
    }
  }

  lemma BinRowsAreRowsOfBin(df: seq<Measurement>, bs: seq<string>, t: real, wl: map<string, real>)
    requires forall i :: 0 <= i < |bs| ==> WithBand(df, bs[i]) != []
    requires BinRows(df, bs, t, wl).Ok?
    ensures forall x :: x in BinRows(df, bs, t, wl).value ==> RowOfBin(x, df, t, wl) && x.telescopeBand in bs
  {
    var r := BinRows(df, bs, t, wl).value;
    forall x | x in r ensures RowOfBin(x, df, t, wl) && x.telescopeBand in bs {
      var i :| 0 <= i < |r| && r[i] == x;
      BinRowsAt(df, bs, t, wl, i);
    }
  }

  /** The error a bin raises is the `KeyError` of the first band, in scan order, missing from the table. */
  lemma {:induction false} BinRowsFirstError(df: seq<Measurement>, bs: seq<string>, t: real,
                                             wl: map<string, real>, k: int)
    requires forall i :: 0 <= i < |bs| ==> WithBand(df, bs[i]) != []
    requires 0 <= k < |bs| && bs[k] !in wl && forall j :: 0 <= j < k ==> bs[j] in wl
    ensures BinRows(df, bs, t, wl) == Err(UnknownBand(bs[k]))
    decreases |bs|
  {
    var last := |bs| - 1;
    if k < last {
      BinRowsFirstError(df, bs[..last], t, wl, k);
    } else {
      assert forall b :: b in bs[..last] ==> b in wl;
    }
  }

  /** A bin fails only with the `KeyError` of one of its own bands. */
  lemma {:induction false} BinRowsError(df: seq<Measurement>, bs: seq<string>, t: real, wl: map<string, real>)
    requires forall i :: 0 <= i < |bs| ==> WithBand(df, bs[i]) != []
    requires BinRows(df, bs, t, wl).Err?
    ensures BinRows(df, bs, t, wl).error.UnknownBand?
    ensures BinRows(df, bs, t, wl).error.telescopeBand in bs
    ensures BinRows(df, bs, t, wl).error.telescopeBand !in wl
    decreases |bs|
  {
    var last := |bs| - 1;
    if BinRows(df, bs[..last], t, wl).Err? {
      BinRowsError(df, bs[..last], t, wl);
    }
  }

  // ---------------------------------------------------------------------------
  // The aggregation loop shared by both binning modes (`temp_df`)
  // ---------------------------------------------------------------------------

  /** One bin as the aggregation loop sees it: its rows `df` and the time its aggregate rows carry. */
  datatype Bin = Bin(rows: seq<Measurement>, time: real)

  /** What bin `b` appends to `temp_df`: one aggregate row per band present, or a band's `KeyError`. */
  function BinOutput(b: Bin, wl: map<string, real>): Result<seq<AggRow>>
  {
    BinRows(b.rows, BandsOf(b.rows), b.time, wl)
  }

  /** Bins 0 .. k-1 scanned in order; the first bin that raises ends the scan with its error. */
  function ScanBins(bins: seq<Bin>, wl: map<string, real>, k: int): (r: Result<seq<AggRow>>)
    requires 0 <= k <= |bins|
    decreases k
  {
    if k == 0 then Ok([])
    else
      match ScanBins(bins, wl, k - 1)
      case Err(e) => Err(e)
      case Ok(p) =>
        match BinOutput(bins[k - 1], wl)
        case Err(e) => Err(e)
        case Ok(b) => Ok(p + b)
  }

  /** A successful scan of `k` bins is the scan of the first `k - 1` bins followed by bin `k - 1`'s rows. */
  lemma ScanSplit(bins: seq<Bin>, wl: map<string, real>, k: int)
    requires 0 < k <= |bins| && ScanBins(bins, wl, k).Ok?
    ensures ScanBins(bins, wl, k - 1).Ok? && BinOutput(bins[k - 1], wl).Ok?
    ensures ScanBins(bins, wl, k).value == ScanBins(bins, wl, k - 1).value + BinOutput(bins[k - 1], wl).value
  {
  }

  /** One more bin: its rows are appended, or its `KeyError` is raised. */
  lemma ScanStep(bins: seq<Bin>, wl: map<string, real>, k: int, temp: seq<AggRow>)
    requires 0 <= k < |bins| && ScanBins(bins, wl, k) == Ok(temp)
    ensures var b := BinOutput(bins[k], wl);
      ScanBins(bins, wl, k + 1) == if b.Err? then Err(b.error) else Ok(temp + b.value)
  {
  }

  /** Once a bin raises, every later bin is skipped and the scan raises that error. */
  lemma {:induction false} ScanErrorPersists(bins: seq<Bin>, wl: map<string, real>, k: int, m: int)
    requires 0 <= k <= m <= |bins|
    requires ScanBins(bins, wl, k).Err?
    ensures ScanBins(bins, wl, m) == ScanBins(bins, wl, k)
    decreases m
  {
    if k < m {
      ScanErrorPersists(bins, wl, k, m - 1);
    }
  }

  /** Every row of the scan is the aggregate of a band present in one bin j < k, stamped with its time. */
  lemma {:induction false} ScanOrigin(bins: seq<Bin>, wl: map<string, real>, k: int)
    requires 0 <= k <= |bins| && ScanBins(bins, wl, k).Ok?
    ensures forall x :: x in ScanBins(bins, wl, k).value ==>
      exists j :: 0 <= j < k && RowOfBin(x, bins[j].rows, bins[j].time, wl)
    decreases k
  {
    if k > 0 {
      ScanSplit(bins, wl, k);
      ScanOrigin(bins, wl, k - 1);
      var p := ScanBins(bins, wl, k - 1).value;
      var last := bins[k - 1];
      BinRowsAreRowsOfBin(last.rows, BandsOf(last.rows), last.time, wl);
      forall x | x in p + BinOutput(last, wl).value
        ensures exists j :: 0 <= j < k && RowOfBin(x, bins[j].rows, bins[j].time, wl)
      {
        if x in p {
          var j :| 0 <= j < k - 1 && RowOfBin(x, bins[j].rows, bins[j].time, wl);
        } else {
          assert RowOfBin(x, bins[k - 1].rows, bins[k - 1].time, wl);
        }
      }
    }
  }

  /** Bins are appended in order: the scan of the first `j` bins is a prefix of the scan of the first `k`. */
  lemma {:induction false} ScanPrefix(bins: seq<Bin>, wl: map<string, real>, j: int, k: int)
    requires 0 <= j <= k <= |bins| && ScanBins(bins, wl, k).Ok?
    ensures ScanBins(bins, wl, j).Ok?
    ensures ScanBins(bins, wl, j).value <= ScanBins(bins, wl, k).value
    decreases k
  {
    if j < k {
      ScanSplit(bins, wl, k);
      ScanPrefix(bins, wl, j, k - 1);
      PrefixTransitive(ScanBins(bins, wl, j).value, ScanBins(bins, wl, k - 1).value, ScanBins(bins, wl, k).value);
    }
  }

  lemma PrefixTransitive<T>(a: seq<T>, b: seq<T>, c: seq<T>)
    requires a <= b && b <= c
    ensures a <= c
  {
    assert c[..|a|] == b[..|a|];
  }

  lemma InPrefix<T>(a: seq<T>, b: seq<T>, x: T)
    requires a <= b && x in a
    ensures x in b
  {
    var i :| 0 <= i < |a| && a[i] == x;
    assert b[i] == x;
  }

  /** Conversely, every band present in a bin j < k has its aggregate row in the scan. */
  lemma ScanCover(bins: seq<Bin>, wl: map<string, real>, k: int, j: int, m: Measurement) returns (x: AggRow)
    requires 0 <= j < k <= |bins| && ScanBins(bins, wl, k).Ok?
    requires m in bins[j].rows
    ensures x in ScanBins(bins, wl, k).value && x.telescopeBand == m.telescopeBand
    ensures RowOfBin(x, bins[j].rows, bins[j].time, wl)
  {
    ScanPrefix(bins, wl, j + 1, k);
    ScanSplit(bins, wl, j + 1);
    x := LastBinCover(bins[j].rows, bins[j].time, wl, m);
    var upto := ScanBins(bins, wl, j + 1).value;
    assert x in upto;
    InPrefix(upto, ScanBins(bins, wl, k).value, x);
  }

  /** The band of a row of a bin that aggregated without error has its row in that bin's output. */
  lemma LastBinCover(df: seq<Measurement>, t: real, wl: map<string, real>, m: Measurement) returns (x: AggRow)
    requires m in df
    requires BinRows(df, BandsOf(df), t, wl).Ok?
    ensures x in BinRows(df, BandsOf(df), t, wl).value
    ensures x.telescopeBand == m.telescopeBand && RowOfBin(x, df, t, wl)
  {
    var bs := BandsOf(df);
    var j :| 0 <= j < |bs| && bs[j] == m.telescopeBand;
    BinRowsAt(df, bs, t, wl, j);
    x := BinRows(df, bs, t, wl).value[j];
  }

  /** A failing scan fails at its first failing bin `i`: the bins before it succeed. */
  lemma {:induction false} ScanFirstFailure(bins: seq<Bin>, wl: map<string, real>, k: int) returns (i: int)
    requires 0 <= k <= |bins| && ScanBins(bins, wl, k).Err?
    ensures 0 <= i < k && ScanBins(bins, wl, i).Ok?
    ensures ScanBins(bins, wl, k) == ScanBins(bins, wl, i + 1)
    decreases k
  {
    if ScanBins(bins, wl, k - 1).Err? {
      i := ScanFirstFailure(bins, wl, k - 1);
    } else {
      i := k - 1;
    }
  }

  /** When the first `i` bins succeed and bin `i` fails, the error names a band of bin `i`. */
  lemma ScanLastBinError(bins: seq<Bin>, wl: map<string, real>, i: int, temp: seq<AggRow>) returns (m: Measurement)
    requires 0 <= i < |bins| && ScanBins(bins, wl, i) == Ok(temp)
    requires ScanBins(bins, wl, i + 1).Err?
    ensures ScanBins(bins, wl, i + 1).error == UnknownBand(m.telescopeBand)
    ensures m.telescopeBand !in wl && m in bins[i].rows
  {
    ScanStep(bins, wl, i, temp);
    m := BinErrorWitness(bins[i].rows, bins[i].time, wl);
  }

  /** The scan fails only with the `KeyError` of a band present in some bin. */
  lemma ScanError(bins: seq<Bin>, wl: map<string, real>, k: int) returns (i: int, m: Measurement)
    requires 0 <= k <= |bins| && ScanBins(bins, wl, k).Err?
    ensures ScanBins(bins, wl, k).error == UnknownBand(m.telescopeBand)
    ensures m.telescopeBand !in wl
    ensures 0 <= i < k && m in bins[i].rows
  {
    i := ScanFirstFailure(bins, wl, k);
    m := ScanLastBinError(bins, wl, i, ScanBins(bins, wl, i).value);
  }

  /** A bin that fails names a band one of its rows carries. */
  lemma BinErrorWitness(df: seq<Measurement>, t: real, wl: map<string, real>) returns (m: Measurement)
    requires BinRows(df, BandsOf(df), t, wl).Err?
    ensures m in df && m.telescopeBand !in wl
    ensures BinRows(df, BandsOf(df), t, wl).error == UnknownBand(m.telescopeBand)
  {
    BinRowsError(df, BandsOf(df), t, wl);
    var b := BinRows(df, BandsOf(df), t, wl).error.telescopeBand;
    var g := WithBand(df, b);
    assert g[0] in g;
    m := g[0];
  }

  // ---------------------------------------------------------------------------
  // The bins of the two modes
  // ---------------------------------------------------------------------------

  /** Equal-width mode: bin `i` holds the rows in `[e[i], e[i + 1])`, stamped with the midpoint. */
  function EqualWidthBins(rows: seq<Measurement>, e: seq<real>): (bins: seq<Bin>)
    ensures |bins| == NumBins(e)
    ensures forall i :: 0 <= i < |bins| ==> bins[i] == Bin(BinSlice(rows, e, i), Midpoint(e, i))
  {
    seq(NumBins(e), i requires 0 <= i < NumBins(e) => Bin(BinSlice(rows, e, i), Midpoint(e, i)))
  }

  /** Predefined mode: the time of a label is the mean time of all its (band-filtered) rows,
      `np.mean(df.obsmjd.values)`. A label without rows has no
      bands, so no row is ever stamped with its time; 0.0 stands in for numpy's NaN there. */
  function LabelTime(rows: seq<Measurement>, lbl: int): real
  {
    var df := WithLabel(rows, lbl);
    if df == [] then 0.0 else Mean(Times(df))
  }

  /** Predefined mode: bin `j` holds the rows labelled `labels[j]`, stamped with their mean time. */
  function LabelBins(rows: seq<Measurement>, labels: seq<int>): (bins: seq<Bin>)
    ensures |bins| == |labels|
    ensures forall j {:trigger bins[j]} :: 0 <= j < |bins| ==> bins[j] == Bin(WithLabel(rows, labels[j]), LabelTime(rows, labels[j]))
  {
    seq(|labels|, j requires 0 <= j < |labels| => Bin(WithLabel(rows, labels[j]), LabelTime(rows, labels[j])))
  }

  /** In predefined mode a label's time lies between its earliest and latest row. */
  lemma LabelTimeWithinLabel(rows: seq<Measurement>, lbl: int, lo: real, hi: real)
    requires WithLabel(rows, lbl) != []
    requires forall m :: m in WithLabel(rows, lbl) ==> lo <= m.obsmjd <= hi
    ensures lo <= LabelTime(rows, lbl) <= hi
  {
    var df := WithLabel(rows, lbl);
    assert forall i :: 0 <= i < |df| ==> df[i] in df;
    MeanBounds(Times(df), lo, hi);
  }
}
