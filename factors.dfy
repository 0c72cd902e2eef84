/**
 * The blowup-factor table and the extrapolation engine of the Records class
 * (taxcalc/records.py): normalisation of the raw factor table (lines 489-502), the
 * base-year factor row (lines 512-538) and the per-variable growth rules that
 * `_blowup` applies (lines 259-356).
 */
module Factors {
  import opened Wrappers
  import opened Schema
  import opened Columns
  import opened Inputs

  /** The factor-table columns the Records class reads or writes. */
  datatype Factor =
    | AGDPN | ATXPY | AWAGE | ASCHCI | ASCHCL | ASCHF | AINTS | ADIVS | ASCHEI | ASCHEL
    | ACGNS | ABOOK | ARETS | APOPN | ACPIU | APOPDEP | ASOCSEC | ACPIM | AUCOMP | APOPSNR
    | AIPD

  /** One year of factors; a factor that pandas would leave NaN has no entry. */
  type FactorRow = map<Factor, real>

  /**
   * The normalised factor table `BF`: the factor columns it has, and its rows by
   * calendar year. Columns of other names are carried along by pandas but never read.
   */
  datatype FactorTable = FactorTable(columns: set<Factor>, rows: map<int, FactorRow>) {
    /** `BF.empty`: a table with no rows (every table read from a file has columns). */
    predicate IsEmpty() {
      rows == map[]
    }
  }

  /**
   * A raw factor table as read (index column YEAR): its columns, and its rows in
   * order with their years.
   */
  datatype FactorFrame = FactorFrame(columns: set<Factor>, years: seq<int>, rows: seq<FactorRow>) {
    /** A DataFrame indexed by YEAR: one row per year, each row with every column. */
    ghost predicate WellFormed() {
      && |years| == |rows|
      && (forall i, j :: 0 <= i < j < |years| ==> years[i] != years[j])
      && (forall i :: 0 <= i < |rows| ==> rows[i].Keys == columns)
    }
  }

  /** The factors divided by the general population APOPN before taking growth rates. */
  const PER_CAPITA_FACTORS: set<Factor> :=
    {AGDPN, ATXPY, AWAGE, ASCHCI, ASCHCL, ASCHF, AINTS, ADIVS, ASCHEI, ASCHEL, ACGNS, ABOOK}

  /** The columns normalisation reads: without one of them pandas raises AttributeError. */
  const NORMALISATION_COLUMNS: set<Factor> := PER_CAPITA_FACTORS + {ASOCSEC, APOPN, APOPSNR}

  /**
   * A raw factor per head: per-capita factors over APOPN, ASOCSEC over the senior
   * population APOPSNR, every other column as it is. Undefined (NaN or infinite in
   * pandas) when the denominator is zero.
   */
  function Deflated(row: FactorRow, f: Factor): (r: Option<real>)
    requires NORMALISATION_COLUMNS <= row.Keys && f in row
    ensures f in PER_CAPITA_FACTORS && row[APOPN] != 0.0 ==> r == Some(row[f] / row[APOPN])
    ensures f == ASOCSEC && row[APOPSNR] != 0.0 ==> r == Some(row[f] / row[APOPSNR])
    ensures f !in PER_CAPITA_FACTORS && f != ASOCSEC ==> r == Some(row[f])
  {
    if f in PER_CAPITA_FACTORS then
      if row[APOPN] != 0.0 then Some(row[f] / row[APOPN]) else None
    else if f == ASOCSEC then
      if row[APOPSNR] != 0.0 then Some(row[f] / row[APOPSNR]) else None
    else Some(row[f])
  }

  /** `1.0 + pct_change()` of one factor, where pandas gives a finite value. */
  function FactorGrowth(prev: FactorRow, cur: FactorRow, f: Factor): Option<real>
    requires NORMALISATION_COLUMNS <= prev.Keys && NORMALISATION_COLUMNS <= cur.Keys
    requires f in prev && f in cur
  {
    match (Deflated(prev, f), Deflated(cur, f))
    case (Some(p), Some(c)) => if p != 0.0 then Some(1.0 + (c - p) / p) else None
    case _ => None
  }

  /** `1.0 + pct_change()` from the previous row to this one, where it is defined. */
  function Growth(prev: FactorRow, cur: FactorRow, columns: set<Factor>): FactorRow
    requires NORMALISATION_COLUMNS <= columns && prev.Keys == columns && cur.Keys == columns
  {
    map f | f in columns && FactorGrowth(prev, cur, f).Some? :: FactorGrowth(prev, cur, f).value
  }

  /** The position of the first row of year `y`. */
  function RowOf(years: seq<int>, y: int): (i: nat)
    requires y in years
    ensures i < |years| && years[i] == y
    ensures forall j :: 0 <= j < i ==> years[j] != y
  {
    if years[0] == y then 0 else 1 + RowOf(years[1..], y)
  }

  /** The growth row at position `i`: none for the first row, which has no predecessor. */
  function GrowthAt(ff: FactorFrame, i: nat): FactorRow
    requires ff.WellFormed() && NORMALISATION_COLUMNS <= ff.columns && i < |ff.rows|
  {
    if i == 0 then map[] else Growth(ff.rows[i - 1], ff.rows[i], ff.columns)
  }

  /** The normalised table: every year of the raw table, the first one with no factors. */
  function Normalised(ff: FactorFrame): (bf: FactorTable)
    requires ff.WellFormed() && NORMALISATION_COLUMNS <= ff.columns
    ensures bf.columns == ff.columns
    ensures forall y :: y in bf.rows <==> y in ff.years
    ensures |ff.years| > 0 ==> bf.rows[ff.years[0]] == map[]
    ensures forall i :: 0 <= i < |ff.years| ==> bf.rows[ff.years[i]] == GrowthAt(ff, i)
    ensures bf.IsEmpty() <==> |ff.years| == 0
  {
    var rows := map y | y in ff.years :: GrowthAt(ff, RowOf(ff.years, y));
    assert forall i :: 0 <= i < |ff.years| ==> RowOf(ff.years, ff.years[i]) == i;
    assert |ff.years| > 0 ==> ff.years[0] in rows;
    FactorTable(ff.columns, rows)
  }

  /** `1 + (c - p) / p`, the growth of one factor, is the ratio `c / p`. */
  lemma OnePlusChange(c: real, p: real)
    requires p != 0.0
    ensures 1.0 + (c - p) / p == c / p
  {
    assert (c - p) / p == c / p - p / p;
  }

  /** Where both deflated values are defined and the earlier is nonzero, growth is their ratio. */
  lemma GrowthEntry(prev: FactorRow, cur: FactorRow, columns: set<Factor>, f: Factor)
    requires NORMALISATION_COLUMNS <= columns && prev.Keys == columns && cur.Keys == columns && f in columns
    requires Deflated(prev, f).Some? && Deflated(prev, f).value != 0.0 && Deflated(cur, f).Some?
    ensures f in Growth(prev, cur, columns)
    ensures Growth(prev, cur, columns)[f] == Deflated(cur, f).value / Deflated(prev, f).value
  {
    var p, c := Deflated(prev, f).value, Deflated(cur, f).value;
    assert FactorGrowth(prev, cur, f) == Some(1.0 + (c - p) / p);
    OnePlusChange(c, p);
  }

  /**
   * A per-capita growth factor is `(cur[f] / cur[APOPN]) / (prev[f] / prev[APOPN])`:
   * the ratio of consecutive values per head of population.
   */
  lemma PerCapitaGrowth(prev: FactorRow, cur: FactorRow, columns: set<Factor>, f: Factor)
    requires NORMALISATION_COLUMNS <= columns && prev.Keys == columns && cur.Keys == columns
    requires f in PER_CAPITA_FACTORS && prev[f] != 0.0 && prev[APOPN] != 0.0 && cur[APOPN] != 0.0
    ensures f in Growth(prev, cur, columns)
    ensures Growth(prev, cur, columns)[f] == (cur[f] / cur[APOPN]) / (prev[f] / prev[APOPN])
  {
    NonZeroQuotient(prev[f], prev[APOPN]);
    GrowthEntry(prev, cur, columns, f);
  }

  /** The social-security growth factor is per head of the senior population APOPSNR. */
  lemma SocialSecurityGrowth(prev: FactorRow, cur: FactorRow, columns: set<Factor>)
    requires NORMALISATION_COLUMNS <= columns && prev.Keys == columns && cur.Keys == columns
    requires prev[ASOCSEC] != 0.0 && prev[APOPSNR] != 0.0 && cur[APOPSNR] != 0.0
    ensures ASOCSEC in Growth(prev, cur, columns)
    ensures Growth(prev, cur, columns)[ASOCSEC] == (cur[ASOCSEC] / cur[APOPSNR]) / (prev[ASOCSEC] / prev[APOPSNR])
  {
    NonZeroQuotient(prev[ASOCSEC], prev[APOPSNR]);
    GrowthEntry(prev, cur, columns, ASOCSEC);
  }

  /** Every other factor (APOPN itself, ACPIM, AUCOMP, AIPD, ...) grows by its raw ratio. */
  lemma UndeflatedGrowth(prev: FactorRow, cur: FactorRow, columns: set<Factor>, f: Factor)
    requires NORMALISATION_COLUMNS <= columns && prev.Keys == columns && cur.Keys == columns
    requires f in columns && f !in PER_CAPITA_FACTORS && f != ASOCSEC && prev[f] != 0.0
    ensures f in Growth(prev, cur, columns)
    ensures Growth(prev, cur, columns)[f] == cur[f] / prev[f]
  {
    GrowthEntry(prev, cur, columns, f);
  }

  lemma NonZeroQuotient(a: real, b: real)
    requires a != 0.0 && b != 0.0
    ensures a / b != 0.0
  {
  }

  /** `_read_blowup`: resolve the argument, then normalise (lines 466-503). */
  function ReadBlowup(arg: TableArg<FactorFrame>): (r: Result<FactorTable, LoadError>)
    requires arg.TableFrameArg? ==> arg.table.WellFormed()
    requires arg.TablePathArg? ==> forall ff :: Locate(arg.onDisk, arg.packaged) == Some(ff) ==> ff.WellFormed()
    ensures arg.NoTableArg? ==> r == Success(FactorTable({}, map[]))
    ensures arg.OtherTableArg? ==> r == Failure(BlowupFactorsNotTable)
    ensures arg.TablePathArg? && Locate(arg.onDisk, arg.packaged).None? ==> r == Failure(BlowupFactorsNotFound)
    ensures arg.TableFrameArg? ==> r == NormalisedChecked(arg.table)
    ensures arg.TablePathArg? && Locate(arg.onDisk, arg.packaged).Some? ==>
      r == NormalisedChecked(Locate(arg.onDisk, arg.packaged).value)
  {
    match arg
    case NoTableArg => Success(FactorTable({}, map[]))
    case TableFrameArg(ff) => NormalisedChecked(ff)
    case TablePathArg(_, onDisk, packaged) =>
      (match Locate(onDisk, packaged)
       case None => Failure(BlowupFactorsNotFound)
       case Some(ff) => NormalisedChecked(ff))
    case OtherTableArg => Failure(BlowupFactorsNotTable)
  }

  /** Normalisation of a table that may lack a column it divides. */
  function NormalisedChecked(ff: FactorFrame): (r: Result<FactorTable, LoadError>)
    requires ff.WellFormed()
    ensures r.Success? <==> NORMALISATION_COLUMNS <= ff.columns
    ensures r.Success? ==> r.value == Normalised(ff)
    ensures r.Failure? ==> r.error == FactorColumnsMissing
  {
    if NORMALISATION_COLUMNS <= ff.columns then Success(Normalised(ff)) else Failure(FactorColumnsMissing)
  }

  /** The base year whose factor row is written by hand (PUF_YEAR). */
  const BOOTSTRAP_YEAR: int := 2009

  /** The factor row written for 2009 by `_extrapolate_2009_puf`. */
  const FACTORS_2009: FactorRow := map[
    AGDPN := 1.0, ATXPY := 1.0, AWAGE := 1.0053, ASCHCI := 1.0041, ASCHCL := 1.1629,
    ASCHF := 1.0, AINTS := 1.0357, ADIVS := 1.0606, ASCHEI := 1.1089, ASCHEL := 1.2953,
    ACGNS := 1.1781, ABOOK := 1.0, ARETS := 1.0026, APOPN := 1.0, ACPIU := 1.0,
    APOPDEP := 1.0, ASOCSEC := 0.9941, ACPIM := 1.0, AUCOMP := 1.0034, APOPSNR := 1.0,
    AIPD := 1.0]

  /** Every factor column: the ones `_extrapolate_2009_puf` writes. */
  const ALL_FACTORS: set<Factor> := FACTORS_2009.Keys

  /**
   * `_extrapolate_2009_puf`'s writes into BF (lines 517-537): the 2009 row becomes the
   * hand-written factors. Writing a column the table lacks raises AttributeError.
   */
  function Bootstrapped(bf: FactorTable): (r: Option<FactorTable>)
    ensures r.Some? <==> bf.columns == ALL_FACTORS
    ensures r.Some? ==> r.value.columns == bf.columns && r.value.rows.Keys == bf.rows.Keys + {BOOTSTRAP_YEAR}
    ensures r.Some? ==> r.value.rows[BOOTSTRAP_YEAR] == FACTORS_2009
    ensures r.Some? ==> forall y :: y in bf.rows && y != BOOTSTRAP_YEAR ==> r.value.rows[y] == bf.rows[y]
  {
    if ALL_FACTORS <= bf.columns then
      AllFactorsListed(bf.columns);
      Some(FactorTable(bf.columns, bf.rows[BOOTSTRAP_YEAR := FACTORS_2009]))
    else None
  }

  /** The 2009 row names every factor column. */
  lemma AllFactorsListed(columns: set<Factor>)
    ensures ALL_FACTORS <= columns <==> columns == ALL_FACTORS
  {
    forall f: Factor
      ensures f in ALL_FACTORS
    {
      match f
      case AGDPN | ATXPY | AWAGE | ASCHCI | ASCHCL | ASCHF | AINTS | ADIVS | ASCHEI | ASCHEL
        | ACGNS | ABOOK | ARETS | APOPN | ACPIU | APOPDEP | ASOCSEC | ACPIM | AUCOMP | APOPSNR
        | AIPD =>
    }
  }
}
