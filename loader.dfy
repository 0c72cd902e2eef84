/**
 * What `_read_data` (taxcalc/records.py lines 358-416) makes of a records table:
 * which columns it reads and which it ignores, how a read column is typed, which
 * variables start as zeros, and the four variables derived at load time.
 */
module Loader {
  import opened Wrappers
  import opened Schema
  import opened Columns
  import opened Inputs

  /** The table the `data` argument denotes: a DataFrame itself, or the contents of the CSV file. */
  function DataTableOf(data: DataArg): (r: Result<DataTable, LoadError>)
    ensures data.DataFrameArg? ==> r == Success(data.table)
    ensures data.CsvPathArg? ==> r == Success(data.contents)
    ensures data.OtherDataArg? ==> r == Failure(DataNotTable)
  {
    match data
    case DataFrameArg(t) => Success(t)
    case CsvPathArg(_, t) => Success(t)
    case OtherDataArg => Failure(DataNotTable)
  }

  /** A read column as stored: int64 for INTEGER_READ_VARS (`IsIntegerRead`), float64 otherwise. */
  function Converted(c: Column, u: InputVar): (r: Column)
    ensures r.Length() == c.Length()
    ensures r.Ints? ==> r.ints == AsInts(c)
    ensures r.Reals? ==> r.reals == AsReals(c)
  {
    if IsIntegerRead(u) then Ints(AsInts(c)) else Reals(AsReals(c))
  }

  /** READ_VARS after the first `n` labels: the usable input variables among them. */
  function ReadVars(t: DataTable, n: nat): (r: set<InputVar>)
    requires n <= |t.labels|
  {
    if n == 0 then {}
    else
      var l := t.labels[n - 1];
      if IsUsableLabel(l) then ReadVars(t, n - 1) + {l.v.iv} else ReadVars(t, n - 1)
  }

  /** IGNORED_VARS after the first `n` labels: every label that is not a usable input variable. */
  function IgnoredLabels(t: DataTable, n: nat): (r: set<Label>)
    requires n <= |t.labels|
  {
    if n == 0 then {}
    else
      var l := t.labels[n - 1];
      if IsUsableLabel(l) then IgnoredLabels(t, n - 1) else IgnoredLabels(t, n - 1) + {l}
  }

  /** The attributes the first `n` labels create: each usable column, converted. */
  function ReadColumns(t: DataTable, n: nat): (fs: Fields)
    requires t.WellFormed() && n <= |t.labels|
  {
    if n == 0 then map[]
    else
      var l := t.labels[n - 1];
      if IsUsableLabel(l) then ReadColumns(t, n - 1)[l.v := Converted(t.data[l], l.v.iv)]
      else ReadColumns(t, n - 1)
  }

  /** READ_VARS holds exactly the input variables some label among the first `n` names. */
  lemma {:induction false} ReadVarsMembers(t: DataTable, n: nat)
    requires n <= |t.labels|
    ensures forall u :: u in ReadVars(t, n) <==> exists i :: 0 <= i < n && t.labels[i] == Schema(Input(u))
  {
    if n > 0 {
      ReadVarsMembers(t, n - 1);
    }
  }

  /** IGNORED_VARS holds exactly the labels among the first `n` that name no input variable. */
  lemma {:induction false} IgnoredLabelsMembers(t: DataTable, n: nat)
    requires n <= |t.labels|
    ensures forall l :: l in IgnoredLabels(t, n) <==> exists i :: 0 <= i < n && t.labels[i] == l && !IsUsableLabel(l)
  {
    if n > 0 {
      IgnoredLabelsMembers(t, n - 1);
    }
  }

  /** The read arrays: one per variable of READ_VARS, the table's column converted to the variable's type. */
  lemma {:induction false} ReadColumnsMembers(t: DataTable, n: nat)
    requires t.WellFormed() && n <= |t.labels|
    ensures forall v :: v in ReadColumns(t, n) <==> v.Input? && v.iv in ReadVars(t, n)
    ensures forall v :: v in ReadColumns(t, n) ==>
      Schema(v) in t.data && ReadColumns(t, n)[v] == Converted(t.data[Schema(v)], v.iv)
    ensures forall v :: v in ReadColumns(t, n) ==> ReadColumns(t, n)[v].Length() == t.Rows()
  {
    if n > 0 {
      ReadColumnsMembers(t, n - 1);
    }
  }

  /** An input variable is read exactly when one of the first `n` labels names it. */
  lemma {:induction false} ReadVarsIn(t: DataTable, n: nat, u: InputVar)
    requires n <= |t.labels|
    ensures u in ReadVars(t, n) <==> Schema(Input(u)) in t.labels[..n]
  {
    if n > 0 {
      ReadVarsIn(t, n - 1, u);
      assert t.labels[..n] == t.labels[..n - 1] + [t.labels[n - 1]];
    }
  }

  /** An input variable's array exists exactly when one of the first `n` labels names it, and is that column converted. */
  lemma {:induction false} ReadColumnsAt(t: DataTable, n: nat, u: InputVar)
    requires t.WellFormed() && n <= |t.labels|
    ensures Input(u) in ReadColumns(t, n) <==> Schema(Input(u)) in t.labels[..n]
    ensures Input(u) in ReadColumns(t, n) ==>
      Schema(Input(u)) in t.data && ReadColumns(t, n)[Input(u)] == Converted(t.data[Schema(Input(u))], u)
  {
    if n > 0 {
      ReadColumnsAt(t, n - 1, u);
      var l := t.labels[n - 1];
      assert t.labels[..n] == t.labels[..n - 1] + [l];
      assert Schema(Input(u)) in t.labels[..n] <==> Schema(Input(u)) in t.labels[..n - 1] || l == Schema(Input(u));
      if l == Schema(Input(u)) {
        assert ReadColumns(t, n) == ReadColumns(t, n - 1)[Input(u) := Converted(t.data[l], u)];
      } else if IsUsableLabel(l) {
        assert ReadColumns(t, n) == ReadColumns(t, n - 1)[l.v := Converted(t.data[l], l.v.iv)] && l.v != Input(u);
      }
    }
  }

  /** Only input variables are read. */
  lemma {:induction false} ReadColumnsInputs(t: DataTable, n: nat)
    requires t.WellFormed() && n <= |t.labels|
    ensures forall v :: v in ReadColumns(t, n) ==> v.Input?
  {
    if n > 0 {
      ReadColumnsInputs(t, n - 1);
    }
  }

  /** ZEROED_VARS: every calculated variable and every usable input variable that was not read. */
  function ZeroedVars(read: set<InputVar>): (r: set<Var>)
  {
    (set c | c in CALCULATED_VARS :: Calc(c)) + (set u | u in USABLE_READ_VARS && u !in read :: Input(u))
  }

  lemma ZeroedVarsMembers(read: set<InputVar>)
    ensures forall v :: v in ZeroedVars(read) <==> v.Calc? || v.iv !in read
  {
    var r := ZeroedVars(read);
    forall v: Var
      ensures v in r <==> v.Calc? || v.iv !in read
    {
      match v
      case Calc(c) =>
        CalculatedCoversCalcs(c);
      case Input(u) =>
        UsableCoversInputs(u);
    }
  }

  /** `np.where(MARS == 2, 2, 1)`: two for joint filers, one otherwise. */
  function NumColumn(mars: seq<int>): (r: seq<int>)
    ensures |r| == |mars| && forall i :: 0 <= i < |mars| ==> r[i] == (if mars[i] == 2 then 2 else 1)
  {
    seq(|mars|, i requires 0 <= i < |mars| => if mars[i] == 2 then 2 else 1)
  }

  /** `np.where(MARS == 3 or MARS == 6, 2, 1)`: two for separate filers, one otherwise. */
  function SepColumn(mars: seq<int>): (r: seq<int>)
    ensures |r| == |mars| && forall i :: 0 <= i < |mars| ==> r[i] == (if mars[i] == 3 || mars[i] == 6 then 2 else 1)
  {
    seq(|mars|, i requires 0 <= i < |mars| => if mars[i] == 3 || mars[i] == 6 then 2 else 1)
  }

  /** The reform year and value of ID_Casualty_frt written into `_read_data` (lines 413-414). */
  const RYEAR: int := 9999
  const RVALUE: real := 0.0

  /** The casualty-deduction fraction of the data's year: 0.10 before RYEAR, RVALUE from it. */
  function CasualtyFraction(): (r: real)
    ensures PUFCSV_YEAR < RYEAR ==> r == 0.10
  {
    if PUFCSV_YEAR < RYEAR then 0.10 else RVALUE
  }

  /** `np.where(exact_calcs is True, 1, 0)` broadcast to `dim` records. */
  function ExactColumn(exactCalcs: bool, dim: nat): (r: seq<int>)
    ensures |r| == dim && forall i :: 0 <= i < dim ==> r[i] == (if exactCalcs then 1 else 0)
  {
    seq(dim, _ => if exactCalcs then 1 else 0)
  }

  /** The data year's casualty-deduction fraction broadcast to `dim` records. */
  function CasualtyColumn(dim: nat): (r: seq<real>)
    ensures |r| == dim && forall i :: 0 <= i < dim ==> r[i] == 0.10
  {
    seq(dim, _ => CasualtyFraction())
  }

  /** A variable of READ_VARS has its own array, as long as the table and of the variable's type. */
  lemma ReadColumnsHas(t: DataTable, u: InputVar)
    requires t.WellFormed() && u in ReadVars(t, |t.labels|)
    ensures Input(u) in ReadColumns(t, |t.labels|)
    ensures ReadColumns(t, |t.labels|)[Input(u)].Length() == t.Rows()
    ensures ReadColumns(t, |t.labels|)[Input(u)].Ints? <==> IsIntegerRead(u)
  {
    ReadColumnsMembers(t, |t.labels|);
  }

  /** The MARS column `_read_data` reads; the loader fails before using it if it is absent. */
  function MarsColumn(t: DataTable): (mars: seq<int>)
    requires t.WellFormed() && MARS in ReadVars(t, |t.labels|)
    ensures |mars| == t.Rows()
  {
    ReadColumnsHas(t, MARS);
    ReadColumns(t, |t.labels|)[Input(MARS)].ints
  }

  /**
   * The arrays after the loop over ZEROED_VARS: each array the label loop read,
   * and zeros of its type for every calculated or unread variable.
   */
  function ZeroFilled(t: DataTable): (fs: Fields)
    requires t.WellFormed()
  {
    var read := ReadColumns(t, |t.labels|);
    map v: Var | v in ALL_VARS :: if v in read then read[v] else ZeroColumn(IsIntegerVar(v), t.Rows())
  }

  lemma ZeroFilledAt(t: DataTable, v: Var)
    requires t.WellFormed()
    ensures v in ZeroFilled(t)
    ensures var read := ReadColumns(t, |t.labels|);
      ZeroFilled(t)[v] == if v in read then read[v] else ZeroColumn(IsIntegerVar(v), t.Rows())
  {
    AllVarsComplete(v);
  }

  /** The four writes at the end of `_read_data`, from the MARS column `mars`. */
  function DerivedWritten(fs: Fields, mars: seq<int>, exactCalcs: bool, dim: nat): (r: Fields)
    ensures r.Keys == fs.Keys + {Calc(CalcVar.num), Calc(CalcVar.sep), Calc(CalcVar.exact), Calc(ID_Casualty_frt_in_pufcsv_year)}
  {
    fs[Calc(CalcVar.num) := Ints(NumColumn(mars))]
      [Calc(CalcVar.sep) := Ints(SepColumn(mars))]
      [Calc(CalcVar.exact) := Ints(ExactColumn(exactCalcs, dim))]
      [Calc(ID_Casualty_frt_in_pufcsv_year) := Reals(CasualtyColumn(dim))]
  }

  /** The four variables the end of `_read_data` writes. */
  predicate IsDerived(v: Var) {
    v == Calc(CalcVar.num) || v == Calc(CalcVar.sep) || v == Calc(CalcVar.exact) || v == Calc(ID_Casualty_frt_in_pufcsv_year)
  }

  /** The derived writes leave the four derived arrays and every other array as it was. */
  lemma DerivedWrittenAt(fs: Fields, mars: seq<int>, exactCalcs: bool, dim: nat, v: Var)
    ensures var r := DerivedWritten(fs, mars, exactCalcs, dim);
      && (v == Calc(CalcVar.num) ==> r[v] == Ints(NumColumn(mars)))
      && (v == Calc(CalcVar.sep) ==> r[v] == Ints(SepColumn(mars)))
      && (v == Calc(CalcVar.exact) ==> r[v] == Ints(ExactColumn(exactCalcs, dim)))
      && (v == Calc(ID_Casualty_frt_in_pufcsv_year) ==> r[v] == Reals(CasualtyColumn(dim)))
      && (v in fs && !IsDerived(v) ==> r[v] == fs[v])
  {
  }

  /** The attributes after `_read_data`, when RECID and MARS were read. */
  function LoadedFields(t: DataTable, exactCalcs: bool): (fs: Fields)
    requires t.WellFormed() && MUST_READ_VARS <= ReadVars(t, |t.labels|)
  {
    DerivedWritten(ZeroFilled(t), MarsColumn(t), exactCalcs, t.Rows())
  }

  /** Before the derived writes, MARS holds the table's MARS column. */
  lemma ZeroFilledMars(t: DataTable)
    requires t.WellFormed() && MUST_READ_VARS <= ReadVars(t, |t.labels|)
    ensures Input(MARS) in ZeroFilled(t) && ZeroFilled(t)[Input(MARS)] == Ints(MarsColumn(t))
  {
    ReadColumnsHas(t, MARS);
    ZeroFilledAt(t, Input(MARS));
  }

  /** After `_read_data` every variable exists, with the schema's type and the table's length. */
  lemma LoadedWellFormed(t: DataTable, exactCalcs: bool)
    requires t.WellFormed() && MUST_READ_VARS <= ReadVars(t, |t.labels|)
    ensures WellFormed(LoadedFields(t, exactCalcs), t.Rows())
  {
    var fs := LoadedFields(t, exactCalcs);
    forall v: Var
      ensures v in fs && (fs[v].Ints? <==> IsIntegerVar(v)) && fs[v].Length() == t.Rows()
    {
      LoadedTyped(t, exactCalcs, v);
    }
  }

  lemma LoadedTyped(t: DataTable, exactCalcs: bool, v: Var)
    requires t.WellFormed() && MUST_READ_VARS <= ReadVars(t, |t.labels|)
    ensures v in LoadedFields(t, exactCalcs)
    ensures LoadedFields(t, exactCalcs)[v].Ints? <==> IsIntegerVar(v)
    ensures LoadedFields(t, exactCalcs)[v].Length() == t.Rows()
  {
    ZeroFilledTyped(t, v);
    DerivedWrittenAt(ZeroFilled(t), MarsColumn(t), exactCalcs, t.Rows(), v);
  }

  lemma ZeroFilledTyped(t: DataTable, v: Var)
    requires t.WellFormed()
    ensures v in ZeroFilled(t)
    ensures ZeroFilled(t)[v].Ints? <==> IsIntegerVar(v)
    ensures ZeroFilled(t)[v].Length() == t.Rows()
  {
    ZeroFilledAt(t, v);
    var read := ReadColumns(t, |t.labels|);
    if v in read {
      ReadColumnsMembers(t, |t.labels|);
    }
  }

  /**
   * An input variable holds its column of the table, converted, when the table has
   * it, and zeros of its type when it does not.
   */
  lemma LoadedInput(t: DataTable, exactCalcs: bool, u: InputVar)
    requires t.WellFormed() && MUST_READ_VARS <= ReadVars(t, |t.labels|)
    ensures Input(u) in LoadedFields(t, exactCalcs)
    ensures Schema(Input(u)) in t.labels ==>
      Schema(Input(u)) in t.data && LoadedFields(t, exactCalcs)[Input(u)] == Converted(t.data[Schema(Input(u))], u)
    ensures Schema(Input(u)) !in t.labels ==>
      LoadedFields(t, exactCalcs)[Input(u)] == ZeroColumn(IsIntegerRead(u), t.Rows())
  {
    ZeroFilledAt(t, Input(u));
    ReadColumnsAt(t, |t.labels|, u);
    assert t.labels[..|t.labels|] == t.labels;
  }

  /**
   * The derived variables: `_num` is 2 exactly for joint filers (MARS 2) and 1
   * otherwise, `_sep` 2 exactly for separate filers (MARS 3 or 6) and 1 otherwise,
   * every `_exact` entry is 1 when exact calculations were requested and 0
   * otherwise, and every ID_Casualty_frt_in_pufcsv_year entry is 0.10.
   */
  lemma LoadedDerived(t: DataTable, exactCalcs: bool, i: nat)
    requires t.WellFormed() && MUST_READ_VARS <= ReadVars(t, |t.labels|) && i < t.Rows()
    ensures var fs := LoadedFields(t, exactCalcs);
      && Input(MARS) in fs && fs[Input(MARS)].Ints? && |fs[Input(MARS)].ints| == t.Rows()
      && Calc(CalcVar.num) in fs && fs[Calc(CalcVar.num)].Ints? && |fs[Calc(CalcVar.num)].ints| == t.Rows()
      && Calc(CalcVar.sep) in fs && fs[Calc(CalcVar.sep)].Ints? && |fs[Calc(CalcVar.sep)].ints| == t.Rows()
      && Calc(CalcVar.exact) in fs && fs[Calc(CalcVar.exact)].Ints? && |fs[Calc(CalcVar.exact)].ints| == t.Rows()
      && Calc(ID_Casualty_frt_in_pufcsv_year) in fs && fs[Calc(ID_Casualty_frt_in_pufcsv_year)].Reals?
      && |fs[Calc(ID_Casualty_frt_in_pufcsv_year)].reals| == t.Rows()
      && (fs[Calc(CalcVar.num)].ints[i] == if fs[Input(MARS)].ints[i] == 2 then 2 else 1)
      && (fs[Calc(CalcVar.sep)].ints[i] == if fs[Input(MARS)].ints[i] in {3, 6} then 2 else 1)
      && (fs[Calc(CalcVar.exact)].ints[i] == if exactCalcs then 1 else 0)
      && fs[Calc(ID_Casualty_frt_in_pufcsv_year)].reals[i] == 0.10
  {
    ZeroFilledMars(t);
    var fs0, mars := ZeroFilled(t), MarsColumn(t);
    DerivedWrittenAt(fs0, mars, exactCalcs, t.Rows(), Input(MARS));
    DerivedWrittenAt(fs0, mars, exactCalcs, t.Rows(), Calc(CalcVar.num));
    DerivedWrittenAt(fs0, mars, exactCalcs, t.Rows(), Calc(CalcVar.sep));
    DerivedWrittenAt(fs0, mars, exactCalcs, t.Rows(), Calc(CalcVar.exact));
    DerivedWrittenAt(fs0, mars, exactCalcs, t.Rows(), Calc(ID_Casualty_frt_in_pufcsv_year));
  }

  /** Every other calculated variable starts as float zeros. */
  lemma LoadedCalculated(t: DataTable, exactCalcs: bool, c: CalcVar)
    requires t.WellFormed() && MUST_READ_VARS <= ReadVars(t, |t.labels|)
    requires c !in INTEGER_CALCULATED_VARS && c != ID_Casualty_frt_in_pufcsv_year
    ensures Calc(c) in LoadedFields(t, exactCalcs)
    ensures LoadedFields(t, exactCalcs)[Calc(c)] == ZeroColumn(false, t.Rows())
  {
    ZeroFilledAt(t, Calc(c));
    ReadColumnsInputs(t, |t.labels|);
    DerivedWrittenAt(ZeroFilled(t), MarsColumn(t), exactCalcs, t.Rows(), Calc(c));
  }

  /** The arrays once the variables of `done` are zeroed: each of those zeros of its type, the others as read. */
  ghost predicate ZeroedSoFar(fs: Fields, read: Fields, done: set<Var>, dim: nat) {
    && (forall v :: v in fs <==> v in read || v in done)
    && (forall v :: v in fs ==> fs[v] == if v in done then ZeroColumn(IsIntegerVar(v), dim) else read[v])
  }

  /** One more iteration of the zeroing loop. */
  lemma ZeroStep(fs: Fields, read: Fields, done: set<Var>, dim: nat, v: Var)
    requires ZeroedSoFar(fs, read, done, dim)
    ensures ZeroedSoFar(fs[v := ZeroColumn(IsIntegerVar(v), dim)], read, done + {v}, dim)
  {
  }

  /** The loop over ZEROED_VARS: each variable of `zeroed`, in any order, set to zeros of its type. */
  method ZeroEach(read: Fields, zeroed: set<Var>, dim: nat) returns (fs: Fields)
    ensures ZeroedSoFar(fs, read, zeroed, dim)
  {
    fs := read;
    var todo := zeroed;
    ghost var done: set<Var> := {};
    while todo != {}
      invariant todo + done == zeroed
      invariant ZeroedSoFar(fs, read, done, dim)
      decreases |todo|
    {
      var v :| v in todo;
      ZeroStep(fs, read, done, dim, v);
      fs := fs[v := ZeroColumn(IsIntegerVar(v), dim)];
      todo := todo - {v};
      done := done + {v};
    }
    assert done == zeroed;
  }

  /** The zeroing loop over ZEROED_VARS leaves the zero-filled arrays, whatever its order. */
  lemma ReadThenZeroed(t: DataTable, zeroed: set<Var>, fs: Fields)
    requires t.WellFormed() && zeroed == ZeroedVars(ReadVars(t, |t.labels|))
    requires ZeroedSoFar(fs, ReadColumns(t, |t.labels|), zeroed, t.Rows())
    ensures fs == ZeroFilled(t)
  {
    ZeroedVarsMembers(ReadVars(t, |t.labels|));
    ReadColumnsMembers(t, |t.labels|);
    var read := ReadColumns(t, |t.labels|);
    var filled := ZeroFilled(t);
    forall v
      ensures v in fs && v in filled && fs[v] == filled[v]
    {
      ZeroFilledAt(t, v);
      assert v in read <==> v !in zeroed;
    }
    assert fs.Keys == filled.Keys;
  }
}
