/**
 * The sample-weight table WT of the Records class (taxcalc/records.py): reading it
 * (lines 443-464), fitting it to a data set of another size (lines 210-213) and
 * taking a year's weights into s006 (lines 225-227 and 245-247).
 */
module Weights {
  import opened Wrappers
  import opened Schema
  import opened Columns
  import opened Inputs

  /**
   * A weights DataFrame: its number of rows and its float columns by name
   * (WT2009, WT2010, ... in the default file).
   */
  datatype WeightTable = WeightTable(rows: nat, columns: map<string, seq<real>>) {
    ghost predicate WellFormed() {
      forall c :: c in columns ==> |columns[c]| == rows
    }

    /** `WT.empty`: no rows or no columns. */
    predicate IsEmpty() {
      rows == 0 || columns == map[]
    }
  }

  /** `pd.DataFrame({'nothing': []})`, the table used when `weights` is None. */
  const PLACEHOLDER: WeightTable := WeightTable(0, map["nothing" := []])

  /** `_read_weights`: None, a DataFrame, a file or the packaged file, or an error. */
  function ReadWeights(arg: TableArg<WeightTable>): (r: Result<WeightTable, LoadError>)
    ensures arg.NoTableArg? ==> r == Success(PLACEHOLDER) && r.value.IsEmpty()
    ensures arg.TableFrameArg? ==> r == Success(arg.table)
    ensures arg.TablePathArg? ==>
      r == (match Locate(arg.onDisk, arg.packaged)
            case Some(wt) => Success(wt)
            case None => Failure(WeightsNotFound))
    ensures arg.OtherTableArg? ==> r == Failure(WeightsNotTable)
  {
    match arg
    case NoTableArg => Success(PLACEHOLDER)
    case TableFrameArg(wt) => Success(wt)
    case TablePathArg(_, onDisk, packaged) =>
      (match Locate(onDisk, packaged)
       case Some(wt) => Success(wt)
       case None => Failure(WeightsNotFound))
    case OtherTableArg => Failure(WeightsNotTable)
  }

  /**
   * `iloc` with one key of the data's index: the row position it denotes in a
   * table of `rows` rows, counting from the end when negative; none when out of
   * bounds (IndexError).
   */
  function Position(key: int, rows: nat): (p: Option<nat>)
    ensures p.Some? <==> -(rows as int) <= key < rows
    ensures p.Some? ==> p.value < rows
  {
    if 0 <= key < rows then Some(key)
    else if -(rows as int) <= key < 0 then Some(rows + key)
    else None
  }

  /** A label in range denotes itself, and its negative counterpart counts back from the end. */
  lemma PositionOfLabel(p: nat, rows: nat)
    requires p < rows
    ensures Position(p, rows) == Some(p)
    ensures Position(p as int - rows as int, rows) == Some(p)
  {
  }

  /** `iloc` with the whole index: the row positions, or none if any is out of bounds. */
  function Positions(index: seq<int>, rows: nat): (r: Option<seq<nat>>)
    ensures r.Some? <==> forall i :: 0 <= i < |index| ==> Position(index[i], rows).Some?
    ensures r.Some? ==> |r.value| == |index|
    ensures r.Some? ==> forall i :: 0 <= i < |index| ==> r.value[i] == Position(index[i], rows).value
  {
    if index == [] then Some([])
    else
      match (Position(index[0], rows), Positions(index[1..], rows))
      case (Some(p), Some(ps)) => Some([p] + ps)
      case (None, _) => None
      case (_, None) =>
        assert forall i :: 1 <= i < |index| ==> index[i] == index[1..][i - 1];
        None
  }

  /** The rows of a column at the given positions. */
  function Selected(xs: seq<real>, ps: seq<nat>): (r: seq<real>)
    requires forall i :: 0 <= i < |ps| ==> ps[i] < |xs|
    ensures |r| == |ps| && forall i :: 0 <= i < |ps| ==> r[i] == xs[ps[i]]
  {
    seq(|ps|, i requires 0 <= i < |ps| => xs[ps[i]])
  }

  /** `x / d` on a float array. */
  function Divided(xs: seq<real>, d: real): (r: seq<real>)
    requires d != 0.0
    ensures |r| == |xs|
  {
    seq(|xs|, i requires 0 <= i < |xs| => xs[i] / d)
  }

  /** `float(dim) / len(WT)`, the share of the weight table's rows the data has. */
  function Frac(dim: nat, rows: nat): (r: real)
    requires rows > 0
    ensures dim > 0 ==> r > 0.0
  {
    dim as real / rows as real
  }

  /** A column fitted to the data: the rows at the positions, each divided by `frac`. */
  function RescaledColumn(xs: seq<real>, ps: seq<nat>, frac: real): (r: seq<real>)
    requires frac != 0.0 && forall i :: 0 <= i < |ps| ==> ps[i] < |xs|
    ensures |r| == |ps|
  {
    Divided(Selected(xs, ps), frac)
  }

  /** `WT.iloc[ps] / frac`: the table of the rows at positions `ps`, every entry divided by `frac`. */
  function Fitted(wt: WeightTable, ps: seq<nat>, frac: real): (r: WeightTable)
    requires wt.WellFormed() && frac != 0.0 && forall i :: 0 <= i < |ps| ==> ps[i] < wt.rows
    ensures r.rows == |ps| && r.columns.Keys == wt.columns.Keys && r.WellFormed()
  {
    var r := WeightTable(|ps|, map c | c in wt.columns :: RescaledColumn(wt.columns[c], ps, frac));
    assert forall c :: c in r.columns ==> |r.columns[c]| == |ps|;
    r
  }

  /**
   * Fitting the weights to `dim = |index|` records (lines 210-213): the rows the
   * data's index labels denote, each divided by `Frac(dim, rows)`; an index label
   * that is no row position raises IndexError.
   */
  function Rescaled(wt: WeightTable, index: seq<int>): (r: Result<WeightTable, LoadError>)
    requires wt.WellFormed() && wt.rows > 0
    ensures r.Failure? <==> Positions(index, wt.rows).None?
    ensures r.Failure? ==> r.error == WeightRowOutOfRange
    ensures r.Success? ==> r.value.rows == |index| && r.value.columns.Keys == wt.columns.Keys && r.value.WellFormed()
    ensures r.Success? && index != [] ==> r.value == Fitted(wt, Positions(index, wt.rows).value, Frac(|index|, wt.rows))
  {
    match Positions(index, wt.rows)
    case None => Failure(WeightRowOutOfRange)
    case Some(ps) =>
      if index == [] then
        var r := WeightTable(0, map c | c in wt.columns :: []);
        assert forall c :: c in r.columns ==> r.columns[c] == [];
        Success(r)
      else
        Success(Fitted(wt, ps, Frac(|index|, wt.rows)))
  }

  /**
   * The constructor's size check (lines 210-213): a non-empty table whose row count
   * differs from the number of records is fitted to the records; any other is kept.
   */
  function SizedToData(wt: WeightTable, index: seq<int>): (r: Result<WeightTable, LoadError>)
    requires wt.WellFormed()
    ensures r.Success? ==> r.value.WellFormed() && (!r.value.IsEmpty() ==> r.value.rows == |index|)
    ensures wt.IsEmpty() || wt.rows == |index| ==> r == Success(wt)
    ensures !wt.IsEmpty() && wt.rows != |index| ==> r == Rescaled(wt, index)
    ensures r.Failure? ==> r.error == WeightRowOutOfRange
  {
    if !wt.IsEmpty() && |index| != wt.rows then Rescaled(wt, index) else Success(wt)
  }

  /**
   * Each fitted weight times `frac` is the weight of the row at the record's
   * position: with `frac = Frac(dim, rows)`, the weights are scaled by `rows / dim`.
   */
  lemma FittedEntry(wt: WeightTable, ps: seq<nat>, frac: real, c: string, i: nat)
    requires wt.WellFormed() && frac != 0.0 && forall i :: 0 <= i < |ps| ==> ps[i] < wt.rows
    requires c in wt.columns && i < |ps|
    ensures Fitted(wt, ps, frac).columns[c][i] * frac == wt.columns[c][ps[i]]
  {
    assert Fitted(wt, ps, frac).columns[c] == Divided(Selected(wt.columns[c], ps), frac);
    assert Fitted(wt, ps, frac).columns[c][i] == wt.columns[c][ps[i]] / frac;
  }

  /** Dividing every entry by `d` divides the sum by `d`. */
  lemma {:induction false} SumDivided(xs: seq<real>, d: real)
    requires d != 0.0
    ensures Sum(Divided(xs, d)) * d == Sum(xs)
  {
    if xs != [] {
      var n := |xs| - 1;
      var ys := Divided(xs, d);
      assert ys[..n] == Divided(xs[..n], d);
      SumDivided(xs[..n], d);
      assert ys[n] * d == xs[n];
    }
  }

  /**
   * Fitting keeps the weight a year's column gives the selected records in
   * proportion: each fitted column times `frac` sums to the selected rows' total,
   * so with `frac = dim / rows` a sample of the table's records stands for all.
   */
  lemma FittedTotal(wt: WeightTable, ps: seq<nat>, frac: real, c: string)
    requires wt.WellFormed() && frac != 0.0 && forall i :: 0 <= i < |ps| ==> ps[i] < wt.rows
    requires c in wt.columns
    ensures Sum(Fitted(wt, ps, frac).columns[c]) * frac == Sum(Selected(wt.columns[c], ps))
  {
    assert Fitted(wt, ps, frac).columns[c] == Divided(Selected(wt.columns[c], ps), frac);
    SumDivided(Selected(wt.columns[c], ps), frac);
  }

  /** The decimal digits of a natural number, most significant first. */
  function Digits(n: nat): (s: string)
    ensures |s| > 0 && forall i :: 0 <= i < |s| ==> '0' <= s[i] <= '9'
  {
    if n < 10 then [DigitChar(n)] else Digits(n / 10) + [DigitChar(n % 10)]
  }

  function DigitChar(d: nat): (c: char)
    requires d < 10
    ensures '0' <= c <= '9' && DigitValue(c) == d
  {
    (48 + d) as char
  }

  function DigitValue(c: char): nat
    requires '0' <= c <= '9'
  {
    (c as int - 48) as nat
  }

  /** The number a string of decimal digits spells. */
  function DigitsValue(s: string): nat
    requires forall i :: 0 <= i < |s| ==> '0' <= s[i] <= '9'
  {
    if s == [] then 0 else DigitsValue(s[..|s| - 1]) * 10 + DigitValue(s[|s| - 1])
  }

  /** Reading back the digits of `n` gives `n`. */
  lemma {:induction false} DigitsRoundTrip(n: nat)
    ensures DigitsValue(Digits(n)) == n
  {
    if n >= 10 {
      var s := Digits(n);
      assert s[..|s| - 1] == Digits(n / 10);
      DigitsRoundTrip(n / 10);
    }
  }

  /** `'{}'.format(year)`: the decimal spelling of an integer. */
  function Decimal(year: int): string {
    if year < 0 then "-" + Digits(-year) else Digits(year)
  }

  /** `'WT{}'.format(year)`, the weight column of a calendar year. */
  function YearLabel(year: int): string {
    "WT" + Decimal(year)
  }

  predicate IsDigits(s: string) {
    forall i :: 0 <= i < |s| ==> '0' <= s[i] <= '9'
  }

  /** The integer a decimal spelling denotes, if it is one. */
  function ParseDecimal(d: string): (r: Option<int>) {
    if d == [] then None
    else if d[0] == '-' then
      if |d| > 1 && IsDigits(d[1..]) then Some(0 - DigitsValue(d[1..])) else None
    else if IsDigits(d) then Some(DigitsValue(d)) else None
  }

  /** The year a weight-column name denotes, if it is one. */
  function ParseYearLabel(s: string): (r: Option<int>) {
    if |s| < 2 || s[..2] != "WT" then None else ParseDecimal(s[2..])
  }

  lemma DecimalRoundTrip(year: int)
    ensures ParseDecimal(Decimal(year)) == Some(year)
  {
    var d := Decimal(year);
    if year < 0 {
      assert d[0] == '-' && d[1..] == Digits(-year);
      DigitsRoundTrip(-year);
    } else {
      assert d == Digits(year) && '0' <= d[0] <= '9';
      DigitsRoundTrip(year);
    }
  }

  /** Every year's weight column name reads back as that year. */
  lemma YearLabelRoundTrip(year: int)
    ensures ParseYearLabel(YearLabel(year)) == Some(year)
  {
    var s := YearLabel(year);
    assert s[..2] == "WT" && s[2..] == Decimal(year);
    DecimalRoundTrip(year);
  }

  /** Different years have different weight columns, so a year never takes another year's weights. */
  lemma YearLabelInjective(a: int, b: int)
    requires YearLabel(a) == YearLabel(b)
    ensures a == b
  {
    YearLabelRoundTrip(a);
    YearLabelRoundTrip(b);
  }

  /**
   * The reweighting step (lines 225-227 and 245-247): when WT has the year's column,
   * s006 becomes that column times 0.01; otherwise nothing changes.
   */
  function Reweighted(fs: Fields, wt: WeightTable, year: int): (r: Fields)
    requires Input(s006) in fs
    ensures r.Keys == fs.Keys
    ensures forall v :: v in fs && v != Input(s006) ==> r[v] == fs[v]
    ensures YearLabel(year) in wt.columns ==>
      r[Input(s006)].Reals? && |r[Input(s006)].reals| == |wt.columns[YearLabel(year)]|
      && forall i :: 0 <= i < |wt.columns[YearLabel(year)]| ==>
           r[Input(s006)].reals[i] == wt.columns[YearLabel(year)][i] * 0.01
    ensures YearLabel(year) !in wt.columns ==> r == fs
  {
    var key := YearLabel(year);
    if key in wt.columns then fs[Input(s006) := Reals(Scaled(wt.columns[key], 0.01))] else fs
  }

  /** Reweighting keeps the loader's typing: s006 stays a float column and nothing else changes. */
  lemma ReweightedWellFormed(fs: Fields, dim: nat, wt: WeightTable, year: int)
    requires WellFormed(fs, dim)
    ensures WellFormed(Reweighted(fs, wt, year), dim)
  {
  }
}
