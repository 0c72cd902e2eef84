/**
 * The Records class of taxcalc/records.py: the tax-unit data of one calendar year,
 * the blowup factors and weights that age it, and the operations that build it,
 * move it to the next year and reset its calculated variables.
 */
module RecordsModel {
  import opened Wrappers
  import opened Schema
  import opened Columns
  import opened Inputs
  import opened Validation
  import opened Factors
  import opened Blowup
  import opened Weights
  import opened Loader

  /** Records.PUF_YEAR: the year in which the bootstrap factors are applied. */
  const PUF_YEAR: int := PUFCSV_YEAR

  /** Every attribute of a Records object, as one value. */
  datatype RecordsState = RecordsState(
    dim: nat,                 // number of tax units
    index: seq<int>,          // the data table's row labels
    vars: Fields,             // the arrays named by the schema registry
    ignoredVars: set<Label>,  // IGNORED_VARS
    currentYear: int,         // _current_year
    bf: FactorTable,          // BF, the growth factors by year
    wt: WeightTable)          // WT, the weights by year

  /**
   * What every operation keeps: one array per variable, typed and sized as the
   * schema says; a non-empty weight table with a row per record; and weights s006
   * with a value per record or per weight-table row.
   */
  ghost predicate ValidState(s: RecordsState) {
    && |s.index| == s.dim
    && WellFormed(s.vars, s.dim)
    && s.wt.WellFormed()
    && (!s.wt.IsEmpty() ==> s.wt.rows == s.dim)
    && (s.vars[Input(s006)].Length() == s.dim || s.vars[Input(s006)].Length() == s.wt.rows)
  }

  /** `c.fill(year)`: the column of the same type and length with every entry `year`. */
  function Filled(c: Column, year: int): (r: Column)
    ensures r.Ints? == c.Ints? && r.Length() == c.Length()
    ensures r.Ints? ==> forall i :: 0 <= i < |r.ints| ==> r.ints[i] == year
    ensures r.Reals? ==> forall i :: 0 <= i < |r.reals| ==> r.reals[i] == year as real
  {
    match c
    case Ints(xs) => Ints(seq(|xs|, _ => year))
    case Reals(xs) => Reals(seq(|xs|, _ => year as real))
  }

  /** The state `set_current_year(year)` leaves: the year, and FLPDYR filled with it. */
  function WithYear(s: RecordsState, year: int): (r: RecordsState)
    requires Input(FLPDYR) in s.vars
    ensures r.currentYear == year && r.vars.Keys == s.vars.Keys
    ensures r == s.(currentYear := year, vars := r.vars)
    ensures forall v :: v in s.vars && v != Input(FLPDYR) ==> r.vars[v] == s.vars[v]
  {
    s.(currentYear := year, vars := s.vars[Input(FLPDYR) := Filled(s.vars[Input(FLPDYR)], year)])
  }

  /** The state the weight step leaves: s006 from the year's WT column, scaled by 0.01, if there is one. */
  function WithWeights(s: RecordsState): (r: RecordsState)
    requires Input(s006) in s.vars
    ensures r == s.(vars := r.vars) && r.vars.Keys == s.vars.Keys
  {
    s.(vars := Reweighted(s.vars, s.wt, s.currentYear))
  }

  /** A state together with the failure, if any, of the step that produced it. */
  datatype Outcome = Outcome(state: RecordsState, error: Option<BlowupError>)

  /** The outcome of `_blowup(year)`: every variable grown by the year's factors, or a failure that changed nothing. */
  function BlownUp(s: RecordsState, year: int): (o: Outcome)
    ensures o.error.None? <==> BlowupRow(s.bf, year).Success?
    ensures o.error.Some? ==> o.state == s && o.error.value == BlowupRow(s.bf, year).error
    ensures o.error.None? ==> o.state == s.(vars := o.state.vars)
  {
    match BlowupRow(s.bf, year)
    case Failure(e) => Outcome(s, Some(e))
    case Success(row) => Outcome(s.(vars := Extrapolated(s.vars, row)), None)
  }

  /**
   * The outcome of `increment_year`: the year moves on even when the blowup then
   * fails; otherwise the data is grown and reweighted for the new year.
   */
  function NextYear(s: RecordsState): (o: Outcome)
    requires Input(s006) in s.vars
  {
    var moved := s.(currentYear := s.currentYear + 1);
    var grown := BlownUp(moved, moved.currentYear);
    if grown.error.Some? then grown
    else
      assert grown.state.vars.Keys == s.vars.Keys by { BlownUpKeys(moved, moved.currentYear); }
      Outcome(WithWeights(grown.state), None)
  }

  lemma BlownUpKeys(s: RecordsState, year: int)
    ensures BlownUp(s, year).state.vars.Keys == s.vars.Keys
  {
  }

  /** The variables `zero_out_changing_calculated_vars` resets: CHANGING_CALCULATED_VARS. */
  predicate IsChanging(v: Var) {
    v.Calc? && v.cv in CHANGING_CALCULATED_VARS
  }

  /** The fields after `zero_out_changing_calculated_vars`: each changing calculated array filled with zeros. */
  function ChangingZeroed(fs: Fields): (r: Fields)
    ensures r.Keys == fs.Keys
  {
    map v | v in fs :: if IsChanging(v) then ZeroLike(fs[v]) else fs[v]
  }

  /** The fields once the calculated variables of `done` are zeroed. */
  ghost predicate ChangingZeroedSoFar(fs: Fields, orig: Fields, done: set<CalcVar>) {
    && fs.Keys == orig.Keys
    && forall v :: v in fs ==> fs[v] == if v.Calc? && v.cv in done then ZeroLike(orig[v]) else orig[v]
  }

  /** One more iteration of `zero_out_changing_calculated_vars`. */
  lemma ChangingZeroStep(fs: Fields, orig: Fields, done: set<CalcVar>, c: CalcVar)
    requires ChangingZeroedSoFar(fs, orig, done) && Calc(c) in fs && c !in done
    ensures ChangingZeroedSoFar(fs[Calc(c) := ZeroLike(fs[Calc(c)])], orig, done + {c})
  {
  }

  /** The loop of `zero_out_changing_calculated_vars`, over the set in any order. */
  method ZeroChanging(orig: Fields) returns (fs: Fields)
    requires forall c: CalcVar :: Calc(c) in orig
    ensures fs == ChangingZeroed(orig)
  {
    fs := orig;
    var todo := CHANGING_CALCULATED_VARS;
    ghost var done: set<CalcVar> := {};
    while todo != {}
      invariant todo !! done && todo + done == CHANGING_CALCULATED_VARS
      invariant ChangingZeroedSoFar(fs, orig, done)
      decreases |todo|
    {
      var c :| c in todo;
      ChangingZeroStep(fs, orig, done, c);
      MoveOne(todo, done, CHANGING_CALCULATED_VARS, c);
      fs := fs[Calc(c) := ZeroLike(fs[Calc(c)])];
      todo := todo - {c};
      done := done + {c};
    }
    assert done == CHANGING_CALCULATED_VARS;
    ChangingZeroedDone(fs, orig);
  }

  /** Moving one element from `todo` to `done` keeps the two a partition of `all`. */
  lemma MoveOne<T>(todo: set<T>, done: set<T>, all: set<T>, c: T)
    requires todo !! done && todo + done == all && c in todo
    ensures todo - {c} !! done + {c} && (todo - {c}) + (done + {c}) == all
  {
  }

  lemma ChangingZeroedDone(fs: Fields, orig: Fields)
    requires ChangingZeroedSoFar(fs, orig, CHANGING_CALCULATED_VARS)
    ensures fs == ChangingZeroed(orig)
  {
    assert fs.Keys == ChangingZeroed(orig).Keys;
  }

  /**
   * The state `_extrapolate_2009_puf` leaves: the 2009 row of BF overwritten with
   * the bootstrap factors, then every variable grown by them; it fails when BF
   * lacks one of the factor columns it writes.
   */
  function Bootstrap2009(s: RecordsState): (r: Result<RecordsState, LoadError>)
    ensures r.Success? <==> s.bf.columns == ALL_FACTORS
    ensures r.Failure? ==> r.error == BootstrapColumnsMissing
    ensures r.Success? ==> r.value.bf == Bootstrapped(s.bf).value
    ensures r.Success? ==> r.value == s.(bf := r.value.bf, vars := Extrapolated(s.vars, FACTORS_2009))
  {
    match Bootstrapped(s.bf)
    case None => Failure(BootstrapColumnsMissing)
    case Some(bf) =>
      BootstrapBlowupRow(s.bf);
      Success(s.(bf := bf, vars := Extrapolated(s.vars, FACTORS_2009)))
  }

  /** The state `_extrapolate_in_puf_year` leaves: the 2009 bootstrap in 2009, nothing otherwise. */
  function InPufYear(s: RecordsState): (r: Result<RecordsState, LoadError>)
    ensures s.currentYear != 2009 ==> r == Success(s)
    ensures s.currentYear == 2009 ==> r == Bootstrap2009(s)
  {
    if s.currentYear == 2009 then Bootstrap2009(s) else Success(s)
  }

  /** The tables the arguments denote are well formed (pandas guarantees this of a DataFrame). */
  ghost predicate ArgsWellFormed(data: DataArg, bfArg: TableArg<FactorFrame>, wtArg: TableArg<WeightTable>) {
    && (data.DataFrameArg? ==> data.table.WellFormed())
    && (data.CsvPathArg? ==> data.contents.WellFormed())
    && (bfArg.TableFrameArg? ==> bfArg.table.WellFormed())
    && (bfArg.TablePathArg? ==> forall ff :: Locate(bfArg.onDisk, bfArg.packaged) == Some(ff) ==> ff.WellFormed())
    && (wtArg.TableFrameArg? ==> wtArg.table.WellFormed())
    && (wtArg.TablePathArg? ==> forall wt :: Locate(wtArg.onDisk, wtArg.packaged) == Some(wt) ==> wt.WellFormed())
  }

  /** The table `_read_data` goes on with: a table at all, and one with columns RECID and MARS. */
  function ReadTable(data: DataArg): (r: Result<DataTable, LoadError>)
    ensures DataTableOf(data).Failure? ==> r == Failure(DataNotTable)
    ensures DataTableOf(data).Success? ==>
      var t := DataTableOf(data).value;
      if MUST_READ_VARS <= ReadVars(t, |t.labels|) then r == Success(t) else r == Failure(MissingMustReadVars)
  {
    match DataTableOf(data)
    case Failure(e) => Failure(e)
    case Success(t) =>
      if MUST_READ_VARS <= ReadVars(t, |t.labels|) then Success(t) else Failure(MissingMustReadVars)
  }

  /** The weight table `_read_weights` yields is well formed. */
  lemma ReadWeightsWellFormed(wtArg: TableArg<WeightTable>)
    requires wtArg.TableFrameArg? ==> wtArg.table.WellFormed()
    requires wtArg.TablePathArg? ==> forall wt :: Locate(wtArg.onDisk, wtArg.packaged) == Some(wt) ==> wt.WellFormed()
    ensures ReadWeights(wtArg).Success? ==> ReadWeights(wtArg).value.WellFormed()
  {
  }

  /**
   * `_read_blowup` and `_read_weights`, then WT fitted to the records (lines 205-213):
   * the factor table and the weight table, or the error raised first.
   */
  function TablesRead(index: seq<int>, bfArg: TableArg<FactorFrame>, wtArg: TableArg<WeightTable>)
    : (r: Result<(FactorTable, WeightTable), LoadError>)
    requires bfArg.TableFrameArg? ==> bfArg.table.WellFormed()
    requires bfArg.TablePathArg? ==> forall ff :: Locate(bfArg.onDisk, bfArg.packaged) == Some(ff) ==> ff.WellFormed()
    requires wtArg.TableFrameArg? ==> wtArg.table.WellFormed()
    requires wtArg.TablePathArg? ==> forall wt :: Locate(wtArg.onDisk, wtArg.packaged) == Some(wt) ==> wt.WellFormed()
    ensures r.Success? ==> r.value.1.WellFormed() && (!r.value.1.IsEmpty() ==> r.value.1.rows == |index|)
    ensures ReadBlowup(bfArg).Failure? ==> r == Failure(ReadBlowup(bfArg).error)
    ensures r.Success? ==> r.value.0 == ReadBlowup(bfArg).value
    ensures ReadBlowup(bfArg).Success? && ReadWeights(wtArg).Failure? ==> r == Failure(ReadWeights(wtArg).error)
    ensures ReadBlowup(bfArg).Success? && ReadWeights(wtArg).Success? ==>
      && ReadWeights(wtArg).value.WellFormed()
      && var sized := SizedToData(ReadWeights(wtArg).value, index);
      && (sized.Failure? ==> r == Failure(sized.error))
      && (sized.Success? ==> r == Success((ReadBlowup(bfArg).value, sized.value)))
  {
    match ReadBlowup(bfArg)
    case Failure(e) => Failure(e)
    case Success(bf) =>
      ReadWeightsWellFormed(wtArg);
      match ReadWeights(wtArg)
      case Failure(e) => Failure(e)
      case Success(wt0) =>
        match SizedToData(wt0, index)
        case Failure(e) => Failure(e)
        case Success(wt) => Success((bf, wt))
  }

  /**
   * The rest of the constructor (lines 215-227): the start year set, the bootstrap
   * when the data year is PUF_YEAR and BF is not empty, and the start year's weights.
   */
  function Started(s: RecordsState, startYear: YearArg): (r: Result<RecordsState, LoadError>)
    requires Input(FLPDYR) in s.vars && Input(s006) in s.vars
    ensures startYear.OtherYear? ==> r == Failure(StartYearNotInteger)
    ensures r.Success? ==> r.value.currentYear == startYear.year && r.value.vars.Keys == s.vars.Keys
    ensures r.Success? ==> r.value == s.(currentYear := r.value.currentYear, vars := r.value.vars, bf := r.value.bf)
  {
    match startYear
    case OtherYear => Failure(StartYearNotInteger)
    case IntYear(y) =>
      var s0 := WithYear(s, y);
      var e := if !s0.bf.IsEmpty() && s0.currentYear == PUF_YEAR then InPufYear(s0) else Success(s0);
      match e
      case Failure(err) => Failure(err)
      case Success(s1) =>
        assert s1.vars.Keys == s.vars.Keys by { ExtrapolatedKeys(s0); }
        Success(WithWeights(s1))
  }

  lemma ExtrapolatedKeys(s: RecordsState)
    requires Input(FLPDYR) in s.vars
    ensures InPufYear(s).Success? ==> InPufYear(s).value.vars.Keys == s.vars.Keys
  {
  }

  /**
   * `_read_data` and the consistency checks of `__init__` (lines 188-203): the state
   * built so far, with no factors, the placeholder weights and the default year.
   */
  function Loaded(data: DataArg, exactCalcs: bool): (r: Result<RecordsState, LoadError>)
    requires data.DataFrameArg? ==> data.table.WellFormed()
    requires data.CsvPathArg? ==> data.contents.WellFormed()
    ensures ReadTable(data).Failure? ==> r == Failure(ReadTable(data).error)
    ensures r.Success? ==> ValidState(r.value) && r.value.vars[Input(s006)].Length() == r.value.dim
    ensures r.Success? ==>
      && ReadTable(data).Success?
      && var t := ReadTable(data).value;
      && r.value == RecordsState(t.Rows(), t.index, LoadedFields(t, exactCalcs), IgnoredLabels(t, |t.labels|),
                                 PUFCSV_YEAR, FactorTable({}, map[]), PLACEHOLDER)
      && ConsistencyError(r.value.vars, r.value.dim).None?
    ensures ReadTable(data).Success? && r.Failure? ==>
      var t := ReadTable(data).value;
      ConsistencyError(LoadedFields(t, exactCalcs), t.Rows()) == Some(r.error)
  {
    match ReadTable(data)
    case Failure(e) => Failure(e)
    case Success(t) =>
      var fs := LoadedFields(t, exactCalcs);
      match ConsistencyError(fs, t.Rows())
      case Some(e) => Failure(e)
      case None =>
        var s := RecordsState(t.Rows(), t.index, fs, IgnoredLabels(t, |t.labels|), PUFCSV_YEAR, FactorTable({}, map[]), PLACEHOLDER);
        LoadedValid(t, exactCalcs, s);
        Success(s)
  }

  /**
   * `Records(data, exact_calculations, blowup_factors, weights, start_year)`: the
   * state the constructor builds, or the error it raises first.
   */
  function Construct(data: DataArg, exactCalcs: bool, bfArg: TableArg<FactorFrame>,
                     wtArg: TableArg<WeightTable>, startYear: YearArg): (r: Result<RecordsState, LoadError>)
    requires ArgsWellFormed(data, bfArg, wtArg)
  {
    match Loaded(data, exactCalcs)
    case Failure(e) => Failure(e)
    case Success(s) =>
      match TablesRead(s.index, bfArg, wtArg)
      case Failure(e) => Failure(e)
      case Success(tables) => Started(s.(bf := tables.0, wt := tables.1), startYear)
  }

  /** A Records object: the attributes of RecordsState as fields that its methods update. */
  class Records {
    var dim: nat
    var index: seq<int>
    var vars: Fields
    var ignoredVars: set<Label>
    var currentYear: int
    var BF: FactorTable
    var WT: WeightTable

    function State(): RecordsState
      reads this
    {
      RecordsState(dim, index, vars, ignoredVars, currentYear, BF, WT)
    }

    ghost predicate Valid()
      reads this
    {
      ValidState(State())
    }

    /** An object before `__init__` has given it any attribute. */
    constructor Empty()
      ensures dim == 0 && index == [] && vars == map[] && ignoredVars == {}
      ensures currentYear == PUFCSV_YEAR && BF == FactorTable({}, map[]) && WT == PLACEHOLDER
    {
      dim := 0;
      index := [];
      vars := map[];
      ignoredVars := {};
      currentYear := PUFCSV_YEAR;
      BF := FactorTable({}, map[]);
      WT := PLACEHOLDER;
    }

    /**
     * `_read_data`: the usable columns read in label order, the other labels
     * ignored; then every calculated and unread variable zeroed; then the four
     * derived variables written from MARS.
     */
    method ReadData(data: DataArg, exactCalcs: bool) returns (err: Option<LoadError>)
      requires data.DataFrameArg? ==> data.table.WellFormed()
      requires data.CsvPathArg? ==> data.contents.WellFormed()
      requires vars == map[]
      modifies this
      ensures ReadTable(data).Failure? <==> err.Some?
      ensures err.Some? ==> err.value == ReadTable(data).error
      ensures err.None? ==>
        var t := ReadTable(data).value;
        && dim == t.Rows() && index == t.index
        && vars == LoadedFields(t, exactCalcs) && ignoredVars == IgnoredLabels(t, |t.labels|)
      ensures currentYear == old(currentYear) && BF == old(BF) && WT == old(WT)
    {
      var table := DataTableOf(data);
      if table.Failure? {
        return Some(table.error);
      }
      var t := table.value;
      dim := |t.index|;
      index := t.index;
      var readVars := ReadLabels(t);
      if !(MUST_READ_VARS <= readVars) {
        return Some(MissingMustReadVars);
      }
      ZeroUnread(t, readVars);
      WriteDerived(t, exactCalcs);
      return None;
    }

    /** The loop over the table's labels in `_read_data`: READ_VARS, IGNORED_VARS and the read arrays. */
    method ReadLabels(t: DataTable) returns (readVars: set<InputVar>)
      requires t.WellFormed() && vars == map[]
      modifies this
      ensures readVars == ReadVars(t, |t.labels|) && ignoredVars == IgnoredLabels(t, |t.labels|)
      ensures vars == ReadColumns(t, |t.labels|)
      ensures dim == old(dim) && index == old(index) && currentYear == old(currentYear) && BF == old(BF) && WT == old(WT)
    {
      readVars := {};
      ignoredVars := {};
      var i := 0;
      while i < |t.labels|
        invariant 0 <= i <= |t.labels|
        invariant readVars == ReadVars(t, i) && ignoredVars == IgnoredLabels(t, i) && vars == ReadColumns(t, i)
        invariant dim == old(dim) && index == old(index) && currentYear == old(currentYear) && BF == old(BF) && WT == old(WT)
      {
        var key := t.labels[i];
        if IsUsableLabel(key) {
          readVars := readVars + {key.v.iv};
          vars := vars[key.v := Converted(t.data[key], key.v.iv)];
        } else {
          ignoredVars := ignoredVars + {key};
        }
        i := i + 1;
      }
    }

    /** The loop over ZEROED_VARS in `_read_data`: every calculated or unread variable set to zeros of its type. */
    method ZeroUnread(t: DataTable, readVars: set<InputVar>)
      requires t.WellFormed() && dim == t.Rows()
      requires readVars == ReadVars(t, |t.labels|) && vars == ReadColumns(t, |t.labels|)
      modifies this
      ensures State() == old(State()).(vars := ZeroFilled(t))
    {
      var zeroed := ZeroedVars(readVars);
      var fs := ZeroEach(vars, zeroed, dim);
      ReadThenZeroed(t, zeroed, fs);
      vars := fs;
    }

    /** The end of `_read_data`: `_num`, `_sep`, `_exact` and ID_Casualty_frt_in_pufcsv_year written. */
    method WriteDerived(t: DataTable, exactCalcs: bool)
      requires t.WellFormed() && dim == t.Rows() && MUST_READ_VARS <= ReadVars(t, |t.labels|)
      requires vars == ZeroFilled(t)
      modifies this
      ensures vars == LoadedFields(t, exactCalcs)
      ensures dim == old(dim) && index == old(index) && ignoredVars == old(ignoredVars)
      ensures currentYear == old(currentYear) && BF == old(BF) && WT == old(WT)
    {
      ZeroFilledMars(t);
      var mars := vars[Input(MARS)].ints;
      vars := vars[Calc(CalcVar.num) := Ints(NumColumn(mars))];
      vars := vars[Calc(CalcVar.sep) := Ints(SepColumn(mars))];
      vars := vars[Calc(CalcVar.exact) := Ints(ExactColumn(exactCalcs, dim))];
      vars := vars[Calc(ID_Casualty_frt_in_pufcsv_year) := Reals(CasualtyColumn(dim))];
    }

    /** `set_current_year`: the year changes and FLPDYR is filled with it; no blowup, no reweighting. */
    method SetCurrentYear(year: int)
      requires Valid()
      modifies this
      ensures State() == WithYear(old(State()), year)
      ensures Valid()
    {
      WithYearValid(State(), year);
      currentYear := year;
      vars := vars[Input(FLPDYR) := Filled(vars[Input(FLPDYR)], year)];
    }

    /** `_blowup(year)`: every variable with a growth rule grown by the year's factors. */
    method Blowup(year: int) returns (err: Option<BlowupError>)
      requires Valid()
      modifies this
      ensures State() == BlownUp(old(State()), year).state && err == BlownUp(old(State()), year).error
      ensures Valid()
    {
      var row := BlowupRow(BF, year);
      if row.Failure? {
        return Some(row.error);
      }
      BlownUpValid(State(), year);
      vars := Extrapolated(vars, row.value);
      return None;
    }

    /** The weight step of `__init__` and `increment_year`: s006 from WT's column for the current year. */
    method ApplyWeights()
      requires Valid()
      modifies this
      ensures State() == WithWeights(old(State()))
      ensures Valid()
    {
      WithWeightsValid(State());
      var key := YearLabel(currentYear);
      if key in WT.columns {
        vars := vars[Input(s006) := Reals(Scaled(WT.columns[key], 0.01))];
      }
    }

    /** `increment_year`: the next year, its blowup, then its weights. */
    method IncrementYear() returns (err: Option<BlowupError>)
      requires Valid()
      modifies this
      ensures State() == NextYear(old(State())).state && err == NextYear(old(State())).error
      ensures Valid()
    {
      currentYear := currentYear + 1;
      err := Blowup(currentYear);
      if err.Some? {
        return;
      }
      BlownUpKeys(old(State()).(currentYear := old(currentYear) + 1), old(currentYear) + 1);
      ApplyWeights();
    }

    /** `zero_out_changing_calculated_vars`: every CHANGING_CALCULATED_VARS array filled with zeros, one at a time. */
    method ZeroOutChangingCalculatedVars()
      requires Valid()
      modifies this
      ensures State() == old(State()).(vars := ChangingZeroed(old(vars)))
      ensures Valid()
    {
      assert forall c: CalcVar :: Calc(c) in vars by { assert WellFormed(vars, dim); }
      ChangingZeroedValid(State());
      vars := ZeroChanging(vars);
    }

    /** `_read_data` and the consistency checks of `__init__`, on an object `Empty` has just made. */
    method Load(data: DataArg, exactCalcs: bool) returns (err: Option<LoadError>)
      requires data.DataFrameArg? ==> data.table.WellFormed()
      requires data.CsvPathArg? ==> data.contents.WellFormed()
      requires State() == RecordsState(0, [], map[], {}, PUFCSV_YEAR, FactorTable({}, map[]), PLACEHOLDER)
      modifies this
      ensures err.Some? <==> Loaded(data, exactCalcs).Failure?
      ensures err.Some? ==> err.value == Loaded(data, exactCalcs).error
      ensures err.None? ==> State() == Loaded(data, exactCalcs).value && Valid() && vars[Input(s006)].Length() == dim
    {
      err := ReadData(data, exactCalcs);
      if err.Some? {
        return;
      }
      err := ConsistencyError(vars, dim);
    }

    /** `_read_blowup` and `_read_weights`, WT fitted to the records: BF and WT set. */
    method ReadTables(bfArg: TableArg<FactorFrame>, wtArg: TableArg<WeightTable>) returns (err: Option<LoadError>)
      requires Valid() && vars[Input(s006)].Length() == dim
      requires bfArg.TableFrameArg? ==> bfArg.table.WellFormed()
      requires bfArg.TablePathArg? ==> forall ff :: Locate(bfArg.onDisk, bfArg.packaged) == Some(ff) ==> ff.WellFormed()
      requires wtArg.TableFrameArg? ==> wtArg.table.WellFormed()
      requires wtArg.TablePathArg? ==> forall wt :: Locate(wtArg.onDisk, wtArg.packaged) == Some(wt) ==> wt.WellFormed()
      modifies this
      ensures err.Some? <==> TablesRead(old(index), bfArg, wtArg).Failure?
      ensures err.Some? ==> err.value == TablesRead(old(index), bfArg, wtArg).error && State() == old(State())
      ensures err.None? ==> State() == old(State()).(bf := TablesRead(old(index), bfArg, wtArg).value.0,
                                                     wt := TablesRead(old(index), bfArg, wtArg).value.1)
      ensures Valid()
    {
      var bf := ReadBlowup(bfArg);
      if bf.Failure? {
        return Some(bf.error);
      }
      ReadWeightsWellFormed(wtArg);
      var wt := ReadWeights(wtArg);
      if wt.Failure? {
        return Some(wt.error);
      }
      var sized := SizedToData(wt.value, index);
      if sized.Failure? {
        return Some(sized.error);
      }
      TablesValid(State(), bf.value, sized.value);
      BF := bf.value;
      WT := sized.value;
      return None;
    }

    /** The end of `__init__`: the start year, the bootstrap in PUF_YEAR, then the start year's weights. */
    method Start(startYear: YearArg) returns (err: Option<LoadError>)
      requires Valid()
      modifies this
      ensures err.Some? <==> Started(old(State()), startYear).Failure?
      ensures err.Some? ==> err.value == Started(old(State()), startYear).error
      ensures err.None? ==> State() == Started(old(State()), startYear).value && Valid()
    {
      if startYear.OtherYear? {
        return Some(StartYearNotInteger);
      }
      SetCurrentYear(startYear.year);
      if !BF.IsEmpty() && currentYear == PUF_YEAR {
        err := ExtrapolateInPufYear();
        if err.Some? {
          return;
        }
      }
      ApplyWeights();
      return None;
    }

    /** `_extrapolate_2009_puf`: the bootstrap factors written into BF's 2009 row, then `_blowup(2009)`. */
    method Extrapolate2009Puf() returns (err: Option<LoadError>)
      requires Valid()
      modifies this
      ensures Bootstrap2009(old(State())).Failure? ==> err == Some(BootstrapColumnsMissing) && State() == old(State())
      ensures Bootstrap2009(old(State())).Success? ==> err.None? && State() == Bootstrap2009(old(State())).value
      ensures Valid()
    {
      var bf := Bootstrapped(BF);
      if bf.None? {
        return Some(BootstrapColumnsMissing);
      }
      BootstrapBlowupRow(BF);
      BF := bf.value;
      var e := Blowup(BOOTSTRAP_YEAR);
      return None;
    }

    /** `_extrapolate_in_puf_year`: the 2009 bootstrap when the current year is 2009. */
    method ExtrapolateInPufYear() returns (err: Option<LoadError>)
      requires Valid()
      modifies this
      ensures InPufYear(old(State())).Failure? ==> err == Some(InPufYear(old(State())).error) && State() == old(State())
      ensures InPufYear(old(State())).Success? ==> err.None? && State() == InPufYear(old(State())).value
      ensures Valid()
    {
      err := None;
      if currentYear == 2009 {
        err := Extrapolate2009Puf();
      }
    }
  }

  /**
   * `Records(data, exact_calculations, blowup_factors, weights, start_year)`: a new
   * object built step by step as `__init__` builds it, or the error it raises first.
   */
  method NewRecords(data: DataArg, exactCalcs: bool, bfArg: TableArg<FactorFrame>,
                    wtArg: TableArg<WeightTable>, startYear: YearArg) returns (r: Result<Records, LoadError>)
    requires ArgsWellFormed(data, bfArg, wtArg)
    ensures r.Failure? <==> Construct(data, exactCalcs, bfArg, wtArg, startYear).Failure?
    ensures r.Failure? ==> r.error == Construct(data, exactCalcs, bfArg, wtArg, startYear).error
    ensures r.Success? ==>
      && fresh(r.value) && r.value.Valid()
      && r.value.State() == Construct(data, exactCalcs, bfArg, wtArg, startYear).value
  {
    var rec := new Records.Empty();
    var err := rec.Load(data, exactCalcs);
    if err.Some? {
      return Failure(err.value);
    }
    ConstructSteps(data, exactCalcs, bfArg, wtArg, startYear);
    err := rec.ReadTables(bfArg, wtArg);
    if err.Some? {
      return Failure(err.value);
    }
    err := rec.Start(startYear);
    if err.Some? {
      return Failure(err.value);
    }
    return Success(rec);
  }

  /** The state `_read_data` leaves, with weights fitted to its records, is valid. */
  lemma LoadedValid(t: DataTable, exactCalcs: bool, s: RecordsState)
    requires t.WellFormed() && MUST_READ_VARS <= ReadVars(t, |t.labels|)
    requires s.dim == t.Rows() && s.index == t.index && s.vars == LoadedFields(t, exactCalcs)
    requires s.wt.WellFormed() && (!s.wt.IsEmpty() ==> s.wt.rows == s.dim)
    ensures ValidState(s) && s.vars[Input(s006)].Length() == s.dim
  {
    LoadedWellFormed(t, exactCalcs);
    LoadedTyped(t, exactCalcs, Input(s006));
  }

  /** Construct as its three steps. */
  lemma ConstructSteps(data: DataArg, exactCalcs: bool, bfArg: TableArg<FactorFrame>,
                       wtArg: TableArg<WeightTable>, startYear: YearArg)
    requires ArgsWellFormed(data, bfArg, wtArg)
    ensures Loaded(data, exactCalcs).Failure? ==>
      Construct(data, exactCalcs, bfArg, wtArg, startYear) == Failure(Loaded(data, exactCalcs).error)
    ensures Loaded(data, exactCalcs).Success? ==>
      var s := Loaded(data, exactCalcs).value;
      var tables := TablesRead(s.index, bfArg, wtArg);
      && (tables.Failure? ==> Construct(data, exactCalcs, bfArg, wtArg, startYear) == Failure(tables.error))
      && (tables.Success? ==>
            Construct(data, exactCalcs, bfArg, wtArg, startYear) == Started(s.(bf := tables.value.0, wt := tables.value.1), startYear))
  {
  }

  /** Valid data with weights fitted to its records stays valid under new tables. */
  lemma TablesValid(s: RecordsState, bf: FactorTable, wt: WeightTable)
    requires ValidState(s) && s.vars[Input(s006)].Length() == s.dim
    requires wt.WellFormed() && (!wt.IsEmpty() ==> wt.rows == s.dim)
    ensures ValidState(s.(bf := bf, wt := wt))
  {
  }

  lemma WithYearValid(s: RecordsState, year: int)
    requires ValidState(s)
    ensures ValidState(WithYear(s, year))
  {
  }

  lemma BlownUpValid(s: RecordsState, year: int)
    requires ValidState(s)
    ensures ValidState(BlownUp(s, year).state)
  {
    var row := BlowupRow(s.bf, year);
    if row.Success? {
      ExtrapolatedValid(s, row.value);
    }
  }

  /** Growing the arrays by any full row of factors keeps the class invariant. */
  lemma ExtrapolatedValid(s: RecordsState, row: FactorRow)
    requires ValidState(s) && BLOWUP_FACTORS <= row.Keys
    ensures ValidState(s.(vars := Extrapolated(s.vars, row)))
  {
    ExtrapolatedWellFormed(s.vars, s.dim, row);
    ExtrapolatedFrame(s.vars, s.dim, row, Input(s006));
  }

  lemma WithWeightsValid(s: RecordsState)
    requires ValidState(s)
    ensures ValidState(WithWeights(s))
  {
    ReweightedWellFormed(s.vars, s.dim, s.wt, s.currentYear);
  }

  lemma ChangingZeroedValid(s: RecordsState)
    requires ValidState(s)
    ensures ValidState(s.(vars := ChangingZeroed(s.vars)))
  {
  }
}
