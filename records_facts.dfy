/**
 * What the operations of the Records class promise across calls: setting the year
 * twice, moving a year on, two years of growth, resetting the calculated
 * variables, and what a new object holds.
 */
module RecordsFacts {
  import opened Wrappers
  import opened Schema
  import opened Columns
  import opened Inputs
  import opened Validation
  import opened Factors
  import opened Blowup
  import opened Weights
  import opened Loader
  import opened RecordsModel

  /** `set_current_year` twice: only the last year counts, in the year and in FLPDYR. */
  lemma {:induction false} SetYearLastWins(s: RecordsState, y1: int, y2: int)
    requires Input(FLPDYR) in s.vars
    ensures WithYear(WithYear(s, y1), y2) == WithYear(s, y2)
  {
    var c := s.vars[Input(FLPDYR)];
    assert Filled(Filled(c, y1), y2) == Filled(c, y2);
    assert WithYear(WithYear(s, y1), y2).vars == WithYear(s, y2).vars;
  }

  /**
   * `increment_year` fails exactly when the new year's factors cannot be found,
   * and then only the year has moved on; otherwise only the arrays change.
   */
  lemma NextYearOutcome(s: RecordsState)
    requires Input(s006) in s.vars
    ensures NextYear(s).error.Some? <==> BlowupRow(s.bf, s.currentYear + 1).Failure?
    ensures NextYear(s).error.Some? ==>
      && NextYear(s).state == s.(currentYear := s.currentYear + 1)
      && NextYear(s).error.value == BlowupRow(s.bf, s.currentYear + 1).error
    ensures NextYear(s).state == s.(currentYear := s.currentYear + 1, vars := NextYear(s).state.vars)
  {
  }

  /**
   * A successful `increment_year`: every array other than s006 grown by the new
   * year's factors; s006 the new year's WT column times 0.01 when WT has one.
   */
  lemma NextYearGrowth(s: RecordsState, v: Var)
    requires Input(s006) in s.vars && v in s.vars
    requires NextYear(s).error.None?
    ensures BLOWUP_FACTORS <= s.bf.rows[s.currentYear + 1].Keys
    ensures v != Input(s006) ==> NextYear(s).state.vars[v] == GrownColumn(v, s.vars[v], s.bf.rows[s.currentYear + 1])
    ensures YearLabel(s.currentYear + 1) in s.wt.columns ==>
      NextYear(s).state.vars[Input(s006)] == Reals(Scaled(s.wt.columns[YearLabel(s.currentYear + 1)], 0.01))
  {
    var row := s.bf.rows[s.currentYear + 1];
    var grown := Extrapolated(s.vars, row);
    assert NextYear(s).state.vars == Reweighted(grown, s.wt, s.currentYear + 1);
  }

  /**
   * `increment_year` leaves alone every variable that has no growth rule: the
   * calculated ones, the integer ones (FLPDYR too, which keeps the year it was
   * filled with) and, when WT has no column for the new year, s006.
   */
  lemma NextYearFrame(s: RecordsState, v: Var)
    requires ValidState(s)
    requires v.Calc? || BlowupRule(v.iv).None?
    requires v != Input(s006) || YearLabel(s.currentYear + 1) !in s.wt.columns
    ensures NextYear(s).state.vars[v] == s.vars[v]
  {
    if NextYear(s).error.None? {
      var row := s.bf.rows[s.currentYear + 1];
      ExtrapolatedFrame(s.vars, s.dim, row, v);
    }
  }

  /** FLPDYR is not among the variables with a growth rule. */
  lemma FlpdyrHasNoRule()
    ensures BlowupRule(FLPDYR).None? && BlowupRule(s006).None?
  {
  }

  /**
   * Two successful calls of `increment_year` grow every array other than s006 as
   * one blowup by the product of the two years' factors, provided the first
   * year's sign-selected factors are positive.
   */
  lemma TwoYearsCompound(s: RecordsState, v: Var)
    requires ValidState(s) && v != Input(s006)
    requires NextYear(s).error.None? && NextYear(NextYear(s).state).error.None?
    requires SignFactorsPositive(s.bf.rows[s.currentYear + 1])
    ensures BLOWUP_FACTORS <= s.bf.rows[s.currentYear + 2].Keys
    ensures NextYear(NextYear(s).state).state.vars[v]
         == Extrapolated(s.vars, Product(s.bf.rows[s.currentYear + 1], s.bf.rows[s.currentYear + 2]))[v]
  {
    var r1 := s.bf.rows[s.currentYear + 1];
    var s1 := NextYear(s).state;
    var r2 := s.bf.rows[s.currentYear + 2];
    assert s1.bf == s.bf && s1.currentYear == s.currentYear + 1;
    NextYearGrowth(s, v);
    NextYearGrowth(s1, v);
    assert v in s1.vars;
    ExtrapolatedCompose(s.vars, r1, r2);
    assert Extrapolated(Extrapolated(s.vars, r1), r2)[v] == GrownColumn(v, Extrapolated(s.vars, r1)[v], r2);
  }

  /** `zero_out_changing_calculated_vars` twice does no more than once. */
  lemma ChangingZeroedIdempotent(fs: Fields)
    ensures ChangingZeroed(ChangingZeroed(fs)) == ChangingZeroed(fs)
  {
  }

  /**
   * `zero_out_changing_calculated_vars` resets exactly CHANGING_CALCULATED_VARS:
   * those arrays become zeros of the same type and length; the input variables,
   * `_num`, `_sep`, `_exact` and ID_Casualty_frt_in_pufcsv_year keep their values.
   */
  lemma ChangingZeroedEffect(fs: Fields, v: Var)
    requires v in fs
    ensures v.Calc? && v.cv in CHANGING_CALCULATED_VARS ==>
      ChangingZeroed(fs)[v] == ZeroColumn(fs[v].Ints?, fs[v].Length())
    ensures v.Input? || v.cv in INTEGER_CALCULATED_VARS || v == Calc(ID_Casualty_frt_in_pufcsv_year) ==>
      ChangingZeroed(fs)[v] == fs[v]
  {
  }

  /** The 2009 bootstrap keeps the class invariant. */
  lemma BootstrapValid(s: RecordsState)
    requires ValidState(s) && Bootstrap2009(s).Success?
    ensures ValidState(Bootstrap2009(s).value)
  {
    BlowupFactorsIn2009();
    ExtrapolatedValid(s.(bf := Bootstrap2009(s).value.bf), FACTORS_2009);
  }

  /** The end of the constructor keeps the class invariant. */
  lemma StartedValid(s: RecordsState, startYear: YearArg)
    requires ValidState(s)
    ensures Started(s, startYear).Success? ==> ValidState(Started(s, startYear).value)
  {
    if startYear.IntYear? {
      var s0 := WithYear(s, startYear.year);
      WithYearValid(s, startYear.year);
      var e := if !s0.bf.IsEmpty() && s0.currentYear == PUF_YEAR then InPufYear(s0) else Success(s0);
      if e.Success? {
        if !s0.bf.IsEmpty() && s0.currentYear == PUF_YEAR {
          BootstrapValid(s0);
        }
        WithWeightsValid(e.value);
      }
    }
  }

  /**
   * The end of the constructor: the start year is set and every FLPDYR entry holds
   * it, since neither the bootstrap nor the weights touch FLPDYR.
   */
  lemma StartedYear(s: RecordsState, startYear: YearArg)
    requires ValidState(s)
    ensures Started(s, startYear).Success? ==>
      && startYear.IntYear?
      && Started(s, startYear).value.currentYear == startYear.year
      && Started(s, startYear).value.vars[Input(FLPDYR)] == Filled(s.vars[Input(FLPDYR)], startYear.year)
  {
    if startYear.IntYear? {
      var s0 := WithYear(s, startYear.year);
      WithYearValid(s, startYear.year);
      if !s0.bf.IsEmpty() && s0.currentYear == PUF_YEAR && Bootstrap2009(s0).Success? {
        BlowupFactorsIn2009();
        ExtrapolatedFrame(s0.vars, s0.dim, FACTORS_2009, Input(FLPDYR));
      }
    }
  }

  /** A new Records object is valid; a start year that is not an integer is always refused. */
  lemma ConstructValid(data: DataArg, exactCalcs: bool, bfArg: TableArg<FactorFrame>,
                       wtArg: TableArg<WeightTable>, startYear: YearArg)
    requires ArgsWellFormed(data, bfArg, wtArg)
    ensures startYear.OtherYear? ==> Construct(data, exactCalcs, bfArg, wtArg, startYear).Failure?
    ensures Construct(data, exactCalcs, bfArg, wtArg, startYear).Success? ==>
      ValidState(Construct(data, exactCalcs, bfArg, wtArg, startYear).value)
  {
    ConstructSteps(data, exactCalcs, bfArg, wtArg, startYear);
    if Construct(data, exactCalcs, bfArg, wtArg, startYear).Success? {
      var s := Loaded(data, exactCalcs).value;
      var tables := TablesRead(s.index, bfArg, wtArg).value;
      var s1 := s.(bf := tables.0, wt := tables.1);
      TablesValid(s, tables.0, tables.1);
      StartedValid(s1, startYear);
    }
  }

  /** A new Records object is in the start year, with every FLPDYR entry equal to it. */
  lemma ConstructYear(data: DataArg, exactCalcs: bool, bfArg: TableArg<FactorFrame>,
                      wtArg: TableArg<WeightTable>, startYear: YearArg)
    requires ArgsWellFormed(data, bfArg, wtArg)
    ensures Construct(data, exactCalcs, bfArg, wtArg, startYear).Success? ==>
      var r := Construct(data, exactCalcs, bfArg, wtArg, startYear).value;
      && startYear.IntYear? && r.currentYear == startYear.year
      && Input(FLPDYR) in r.vars && r.vars[Input(FLPDYR)].Ints?
      && (forall i :: 0 <= i < |r.vars[Input(FLPDYR)].ints| ==> r.vars[Input(FLPDYR)].ints[i] == startYear.year)
  {
    ConstructSteps(data, exactCalcs, bfArg, wtArg, startYear);
    if Construct(data, exactCalcs, bfArg, wtArg, startYear).Success? {
      var s := Loaded(data, exactCalcs).value;
      var tables := TablesRead(s.index, bfArg, wtArg).value;
      var s1 := s.(bf := tables.0, wt := tables.1);
      TablesValid(s, tables.0, tables.1);
      StartedYear(s1, startYear);
      assert s1.vars[Input(FLPDYR)].Ints? by { assert IsIntegerVar(Input(FLPDYR)); }
    }
  }

  /**
   * `_read_data` and the consistency checks succeed exactly when the data is a
   * table with RECID and MARS and every record passes the checks.
   */
  lemma LoadedConsistent(data: DataArg, exactCalcs: bool)
    requires data.DataFrameArg? ==> data.table.WellFormed()
    requires data.CsvPathArg? ==> data.contents.WellFormed()
    ensures Loaded(data, exactCalcs).Success? <==>
      && ReadTable(data).Success?
      && var t := ReadTable(data).value;
         forall i :: 0 <= i < t.Rows() ==> RecordConsistent(LoadedFields(t, exactCalcs), t.Rows(), i)
  {
    if ReadTable(data).Success? {
      var t := ReadTable(data).value;
      ConsistencyErrorNoneIff(LoadedFields(t, exactCalcs), t.Rows());
    }
  }

  /**
   * A new Records object is sized and indexed as the data and ignores the labels
   * the schema does not know as inputs.
   */
  lemma ConstructLoaded(data: DataArg, exactCalcs: bool, bfArg: TableArg<FactorFrame>,
                        wtArg: TableArg<WeightTable>, startYear: YearArg)
    requires ArgsWellFormed(data, bfArg, wtArg)
    ensures Construct(data, exactCalcs, bfArg, wtArg, startYear).Success? ==>
      && Loaded(data, exactCalcs).Success?
      && var r := Construct(data, exactCalcs, bfArg, wtArg, startYear).value;
         var t := ReadTable(data).value;
         r.dim == t.Rows() && r.index == t.index && r.ignoredVars == IgnoredLabels(t, |t.labels|)
  {
  }

  /**
   * A Records object started in PUF_YEAR with a non-empty BF has had the bootstrap
   * applied: it fails unless BF has exactly the factor columns; otherwise BF's 2009
   * row is the bootstrap factors and every array but s006 and FLPDYR is grown by them.
   */
  lemma StartedBootstraps(s: RecordsState)
    requires ValidState(s) && !s.bf.IsEmpty()
    ensures Started(s, IntYear(PUF_YEAR)).Success? <==> s.bf.columns == ALL_FACTORS
    ensures s.bf.columns != ALL_FACTORS ==> Started(s, IntYear(PUF_YEAR)) == Failure(BootstrapColumnsMissing)
    ensures s.bf.columns == ALL_FACTORS ==>
      && Started(s, IntYear(PUF_YEAR)).value.bf.rows[BOOTSTRAP_YEAR] == FACTORS_2009
      && forall v :: v in s.vars && v != Input(s006) && v != Input(FLPDYR) ==>
           Started(s, IntYear(PUF_YEAR)).value.vars[v] == GrownColumn(v, s.vars[v], FACTORS_2009)
  {
    var s0 := WithYear(s, PUF_YEAR);
    BlowupFactorsIn2009();
    if s.bf.columns == ALL_FACTORS {
      var s1 := Bootstrap2009(s0).value;
      assert Started(s, IntYear(PUF_YEAR)).value == WithWeights(s1);
      assert s1.vars == Extrapolated(s0.vars, FACTORS_2009);
      forall v | v in s.vars && v != Input(s006) && v != Input(FLPDYR)
        ensures Started(s, IntYear(PUF_YEAR)).value.vars[v] == GrownColumn(v, s.vars[v], FACTORS_2009)
      {
        assert s0.vars[v] == s.vars[v];
      }
    }
  }

  /**
   * The constructor's last step (lines 225-227): the new object keeps the weight
   * table, and its s006 is the start year's WT column times 0.01 when WT has one;
   * otherwise s006 keeps the value read, which neither the bootstrap nor the year touches.
   */
  lemma StartedWeights(s: RecordsState, y: int)
    requires Input(FLPDYR) in s.vars && Input(s006) in s.vars
    ensures Started(s, IntYear(y)).Success? ==>
      var r := Started(s, IntYear(y)).value;
      && r.wt == s.wt
      && Input(s006) in r.vars
      && (YearLabel(y) in s.wt.columns ==> r.vars[Input(s006)] == Reals(Scaled(s.wt.columns[YearLabel(y)], 0.01)))
      && (YearLabel(y) !in s.wt.columns ==> r.vars[Input(s006)] == s.vars[Input(s006)])
  {
    if Started(s, IntYear(y)).Success? {
      var s1 := StartedBeforeWeights(s, y);
      WithWeightsS006(s1);
    }
  }

  /** The state `Started` reweights: in the start year, with s's weights and s's s006. */
  lemma StartedBeforeWeights(s: RecordsState, y: int) returns (s1: RecordsState)
    requires Input(FLPDYR) in s.vars && Input(s006) in s.vars && Started(s, IntYear(y)).Success?
    ensures Input(s006) in s1.vars && Started(s, IntYear(y)) == Success(WithWeights(s1))
    ensures s1.wt == s.wt && s1.currentYear == y && s1.vars[Input(s006)] == s.vars[Input(s006)]
  {
    var s0 := WithYear(s, y);
    if !s0.bf.IsEmpty() && s0.currentYear == PUF_YEAR {
      s1 := Bootstrap2009(s0).value;
      BlowupFactorsIn2009();
      WeightsNotGrown(s0.vars, FACTORS_2009);
    } else {
      s1 := s0;
    }
  }

  /** `_blowup` has no rule for s006, so it leaves the weights alone. */
  lemma WeightsNotGrown(fs: Fields, row: FactorRow)
    requires BLOWUP_FACTORS <= row.Keys && Input(s006) in fs
    ensures Extrapolated(fs, row)[Input(s006)] == fs[Input(s006)]
  {
    assert BlowupRule(s006).None?;
  }

  /** Reweighting sets s006 from the current year's WT column, when WT has one. */
  lemma WithWeightsS006(s: RecordsState)
    requires Input(s006) in s.vars
    ensures Input(s006) in WithWeights(s).vars && WithWeights(s).wt == s.wt
    ensures YearLabel(s.currentYear) in s.wt.columns ==>
      WithWeights(s).vars[Input(s006)] == Reals(Scaled(s.wt.columns[YearLabel(s.currentYear)], 0.01))
    ensures YearLabel(s.currentYear) !in s.wt.columns ==> WithWeights(s).vars[Input(s006)] == s.vars[Input(s006)]
  {
  }

  /**
   * Started outside PUF_YEAR, or with an empty BF, the constructor grows nothing:
   * every array but FLPDYR and s006 keeps the value read.
   */
  lemma StartedWithoutBootstrap(s: RecordsState, year: int, v: Var)
    requires Input(FLPDYR) in s.vars && Input(s006) in s.vars && v in s.vars
    requires s.bf.IsEmpty() || year != PUF_YEAR
    requires v != Input(FLPDYR) && v != Input(s006)
    ensures Started(s, IntYear(year)).Success?
    ensures Started(s, IntYear(year)).value.vars[v] == s.vars[v]
  {
    var s0 := WithYear(s, year);
    assert Started(s, IntYear(year)) == Success(WithWeights(s0));
  }
}
