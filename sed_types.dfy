/** Records and error outcomes of the SED binning pipeline (modelSED/sed.py). */
module SedTypes {

  datatype Option<+T> = None | Some(value: T) {
    /** The value, or `default` when the argument was omitted (`x if x is not None else default`). */
    function GetOr(default: T): T
    {
      match this
      case Some(v) => v
      case None => default
    }
  }

  /** The exceptions the core raises, one constructor per kind of failure. */
  datatype SedError =
    | InvalidFitType                       // `SED.__init__`: fittype is neither model (a fixed message)
    | EmptyLightcurve                      // `np.min` of an empty `obsmjd` column
    | NegativeSampleCount(num: int)        // `np.linspace` with `num = nbins + 1 < 0`
    | UnknownBand(telescopeBand: string)   // `KeyError` from `self.filter_wl[telescope_band]`
    | MissingMeanObsmjdColumn              // an empty `pd.DataFrame()` has no `mean_obsmjd` column
    | BinnedTableUsedBeforeAssignment      // `fit_bins` reads `binned_lc_df` before assigning it
    | LengthOfNone                         // `fit_global` takes `len(None)` of absent bands

  datatype Result<+T> = Ok(value: T) | Err(error: SedError)

  /** The two spectral models a SED can be fitted with. */
  datatype FitType = PowerLaw | Blackbody

  function FitTypeName(f: FitType): string
  {
    match f
    case PowerLaw => "powerlaw"
    case Blackbody => "blackbody"
  }

  /** The constructor's fittype check: only "powerlaw" and "blackbody" are accepted. */
  function ParseFitType(name: string): (r: Result<FitType>)
    ensures r.Ok? <==> name == "powerlaw" || name == "blackbody"
    ensures r.Ok? ==> FitTypeName(r.value) == name
    ensures r.Err? ==> r.error == InvalidFitType
  {
    if name == "powerlaw" then Ok(PowerLaw)
    else if name == "blackbody" then Ok(Blackbody)
    else Err(InvalidFitType)
  }

  lemma FitTypeRoundTrip(f: FitType)
    ensures ParseFitType(FitTypeName(f)) == Ok(f)
  {
  }

  /** One photometric measurement of the lightcurve (one row of `self.lc`). */
  datatype Measurement = Measurement(
    obsmjd: real,
    mag: real,
    magErr: real,
    telescope: string,
    band: string,
    telescopeBand: string,
    bin: int)

  /** One row of the aggregated table: a (time bin, telescope_band) pair. */
  datatype AggRow = AggRow(
    telescopeBand: string,
    wavelength: real,
    meanObsmjd: real,
    entries: nat,
    meanMag: real,
    meanMagErr: real)

  /** The lightcurve file as read, one measurement per row; a row's `telescopeBand` is
      meaningful only when the file has that column. */
  datatype CsvTable = CsvTable(rows: seq<Measurement>, hasTelescopeBandColumn: bool)

  const TELESCOPE_BAND_SEPARATOR: char := '+'

  /** The composite key `telescope + "+" + band`. */
  function TelescopeBandKey(telescope: string, band: string): string
  {
    telescope + [TELESCOPE_BAND_SEPARATOR] + band
  }

  /** Position of the first occurrence of `c` in `s`. */
  function IndexOfChar(s: string, c: char): (r: Option<nat>)
    ensures r.Some? ==> r.value < |s| && s[r.value] == c && c !in s[..r.value]
    ensures r.None? ==> c !in s
  {
    if s == [] then None
    else if s[0] == c then Some(0)
    else match IndexOfChar(s[1..], c)
      case None => None
      case Some(i) => Some(i + 1)
  }

  /** Splits a key at its first separator into (telescope, band). */
  function SplitKey(key: string): Option<(string, string)>
  {
    match IndexOfChar(key, TELESCOPE_BAND_SEPARATOR)
    case None => None
    case Some(i) => Some((key[..i], key[i + 1..]))
  }

  /** A key built from a telescope name without a separator splits back into its parts. */
  lemma KeyRoundTrip(telescope: string, band: string)
    requires TELESCOPE_BAND_SEPARATOR !in telescope
    ensures SplitKey(TelescopeBandKey(telescope, band)) == Some((telescope, band))
  {
    var key := TelescopeBandKey(telescope, band);
    var i := IndexOfChar(key, TELESCOPE_BAND_SEPARATOR);
    assert key[|telescope|] == TELESCOPE_BAND_SEPARATOR;
    assert i.Some? && i.value == |telescope|;
    assert key[..|telescope|] == telescope;
    assert key[|telescope| + 1..] == band;
  }

  /** Hence the key tells measurements of different instruments or bands apart. */
  lemma KeyInjective(t1: string, b1: string, t2: string, b2: string)
    requires TELESCOPE_BAND_SEPARATOR !in t1 && TELESCOPE_BAND_SEPARATOR !in t2
    requires TelescopeBandKey(t1, b1) == TelescopeBandKey(t2, b2)
    ensures t1 == t2 && b1 == b2
  {
    KeyRoundTrip(t1, b1);
    KeyRoundTrip(t2, b2);
  }

  /** `read_lightcurve`: keep the file's `telescope_band` column, or derive it. */
  function ToMeasurement(row: Measurement, hasTelescopeBandColumn: bool): Measurement
  {
    if hasTelescopeBandColumn then row
    else row.(telescopeBand := TelescopeBandKey(row.telescope, row.band))
  }

  function LoadLightcurve(table: CsvTable): (lc: seq<Measurement>)
    ensures |lc| == |table.rows|
    ensures forall i :: 0 <= i < |lc| ==>
      && lc[i].obsmjd == table.rows[i].obsmjd && lc[i].mag == table.rows[i].mag
      && lc[i].magErr == table.rows[i].magErr && lc[i].bin == table.rows[i].bin
      && lc[i].telescope == table.rows[i].telescope && lc[i].band == table.rows[i].band
      && (table.hasTelescopeBandColumn ==> lc[i].telescopeBand == table.rows[i].telescopeBand)
      && (!table.hasTelescopeBandColumn ==>
            lc[i].telescopeBand == table.rows[i].telescope + [TELESCOPE_BAND_SEPARATOR] + table.rows[i].band)
      && (!table.hasTelescopeBandColumn && TELESCOPE_BAND_SEPARATOR !in lc[i].telescope ==>
            SplitKey(lc[i].telescopeBand) == Some((lc[i].telescope, lc[i].band)))
  {
    var lc := seq(|table.rows|, i requires 0 <= i < |table.rows| =>
                ToMeasurement(table.rows[i], table.hasTelescopeBandColumn));
    forall i | 0 <= i < |lc| && !table.hasTelescopeBandColumn && TELESCOPE_BAND_SEPARATOR !in lc[i].telescope
      ensures SplitKey(lc[i].telescopeBand) == Some((lc[i].telescope, lc[i].band))
    {
      KeyRoundTrip(lc[i].telescope, lc[i].band);
    }
    lc
  }
}
