/**
 * The schema registry of the Records class (taxcalc/records.py, lines 17 and 88-173):
 * which variables may be read from the input data, which of those are integer typed,
 * which are calculated by the tax logic and therefore initialised to zero.
 *
 * Variable names are Tax-Calculator's names. The registry's two big sets are disjoint
 * in the Records registry, so a name is either an input variable (`InputVar`, the members of
 * USABLE_READ_VARS) or a calculated one (`CalcVar`, the members of CALCULATED_VARS).
 * A Dafny identifier cannot begin with an underscore, so the calculated variables
 * `_exact`, `_num`, `_sep`, `_sey`, ... are written `exact`, `num`, `sep`, `sey`, ...
 */
module Schema {

  /** PUFCSV_YEAR: the calendar year of the default data set. */
  const PUFCSV_YEAR: int := 2009

  /** The variables that may be read from the input data (USABLE_READ_VARS). */
  datatype InputVar =
    | DSI | EIC | FLPDYR | f2441 | f6251 | n24 | XTOT | e00200 | e00300 | e00400
    | e00600 | e00650 | e00700 | e00800 | e00200p | e00200s | e00900 | e01100 | e01200
    | e01400 | e01500 | e01700 | e00900p | e00900s | e02000 | e02100 | e02300 | e02400
    | e03150 | e03210 | e02100p | e02100s | e03220 | e03230 | e03270 | e03240 | e03290
    | e03400 | e03500 | e07240 | e07260 | e07300 | e07400 | e07600 | p08000 | e09700
    | e09800 | e09900 | e11200 | e17500 | e18400 | e18500 | e19200 | e19800 | e20100
    | e20400 | e20500 | p22250 | p23250 | e24515 | e24518 | p25470 | e26270 | e27200
    | e32800 | e03300 | e58990 | e62900 | p87521 | e87530 | MARS | MIDR | RECID | filer
    | cmbtp | age_head | age_spouse | blind_head | blind_spouse | nu13
    | elderly_dependent | s006 | nu05

  /** The variables calculated by the tax logic (CALCULATED_VARS). */
  datatype CalcVar =
    | exact | c07200 | c00100 | pre_c04600 | c04600 | c04470 | c21060 | c21040 | c17000
    | c18300 | c20800 | c02900 | c02900_in_ei | c23650 | c01000 | c02500 | c19700
    | invinc_ec_base | invinc_agi_ec | sey | earned | earned_p | earned_s | ymod
    | ymod1 | c04800 | c19200 | c20500 | taxbc | standard | dwks10 | dwks13 | dwks14
    | dwks19 | c05700 | c05800 | c07180 | c07230 | prectc | c07220 | c59660 | c09200
    | c07100 | eitc | payrolltax | ptax_was | setax | c03260 | ptax_amc | ptax_oasdi
    | sep | num | c05200 | c62100 | c09600 | ID_Casualty_frt_in_pufcsv_year | c11070
    | c10960 | c87668 | NIIT | iitax | refund | ctc_new | lumpsum_tax | expanded_income
    | c07300 | c07400 | c07600 | c07240 | c07260 | c08000 | surtax | combined
    | personal_credit | fstax | care_deduction | dep_credit

  /** The name of a Records variable: an attribute of a loaded Records object. */
  datatype Var = Input(iv: InputVar) | Calc(cv: CalcVar)

  /**
   * A column label of an input table: a schema name, or a label that spells no
   * schema name (kept as text, since it is only ever recorded as ignored). A label
   * that spells a schema variable is always `Schema(v)`; `Unrecognised(text)` never
   * holds the text of a schema name, so no column the program would read is
   * classified as ignored.
   */
  datatype Label = Schema(v: Var) | Unrecognised(text: string)

  const USABLE_READ_VARS: set<InputVar> :=
    {DSI, EIC, FLPDYR, f2441, f6251, n24, XTOT, e00200, e00300, e00400, e00600, e00650}
    + {e00700, e00800, e00200p, e00200s, e00900, e01100, e01200, e01400, e01500, e01700, e00900p, e00900s}
    + {e02000, e02100, e02300, e02400, e03150, e03210, e02100p, e02100s, e03220, e03230, e03270, e03240}
    + {e03290, e03400, e03500, e07240, e07260, e07300, e07400, e07600, p08000, e09700, e09800, e09900}
    + {e11200, e17500, e18400, e18500, e19200, e19800, e20100, e20400, e20500, p22250, p23250, e24515}
    + {e24518, p25470, e26270, e27200, e32800, e03300, e58990, e62900, p87521, e87530, MARS, MIDR}
    + {RECID, filer, cmbtp, age_head, age_spouse, blind_head, blind_spouse, nu13, elderly_dependent, s006, nu05}

  /** The input variables loading cannot do without. */
  const MUST_READ_VARS: set<InputVar> := {RECID, MARS}

  /** INTEGER_READ_VARS: the input variables read as 64-bit integers rather than as floats. */
  predicate IsIntegerRead(u: InputVar) {
    || u.DSI? || u.EIC? || u.FLPDYR? || u.f2441? || u.f6251? || u.n24? || u.XTOT? || u.MARS? || u.MIDR?
    || u.RECID? || u.filer? || u.age_head? || u.age_spouse? || u.blind_head? || u.blind_spouse?
    || u.nu13? || u.elderly_dependent?
  }

  const CALCULATED_VARS: set<CalcVar> :=
    {CalcVar.exact, c07200, c00100, pre_c04600, c04600, c04470, c21060, c21040, c17000, c18300, c20800, c02900}
    + {c02900_in_ei, c23650, c01000, c02500, c19700, invinc_ec_base, invinc_agi_ec, sey, earned, earned_p, earned_s, ymod}
    + {ymod1, c04800, c19200, c20500, taxbc, standard, dwks10, dwks13, dwks14, dwks19, c05700, c05800}
    + {c07180, c07230, prectc, c07220, c59660, c09200, c07100, eitc, payrolltax, ptax_was, setax, c03260}
    + {ptax_amc, ptax_oasdi, CalcVar.sep, CalcVar.num, c05200, c62100, c09600, ID_Casualty_frt_in_pufcsv_year, c11070, c10960, c87668, NIIT}
    + {iitax, refund, ctc_new, lumpsum_tax, expanded_income, c07300, c07400, c07600, c07240, c07260, c08000, surtax}
    + {combined, personal_credit, fstax, care_deduction, dep_credit}

  /** The calculated variables stored as integers: the two multipliers and the exact flag. */
  const INTEGER_CALCULATED_VARS: set<CalcVar> := {CalcVar.num, CalcVar.sep, CalcVar.exact}

  /** The calculated variables that `zero_out_changing_calculated_vars` resets. */
  const CHANGING_CALCULATED_VARS: set<CalcVar> :=
    CALCULATED_VARS - INTEGER_CALCULATED_VARS - {ID_Casualty_frt_in_pufcsv_year}

  /** Every variable the schema registry names, as a Records attribute. */
  const ALL_VARS: set<Var> :=
    (set u | u in USABLE_READ_VARS :: Input(u)) + (set c | c in CALCULATED_VARS :: Calc(c))

  /** INT_VARS of `_read_data`: the variables whose arrays hold 64-bit integers. */
  predicate IsIntegerVar(v: Var) {
    match v
    case Input(u) => IsIntegerRead(u)
    case Calc(c) => c in INTEGER_CALCULATED_VARS
  }

  /**
   * A label is read exactly when it names a member of USABLE_READ_VARS, that is an
   * input variable (`UsableCoversInputs`).
   */
  predicate IsUsableLabel(l: Label) {
    l.Schema? && l.v.Input?
  }

  /** The registry covers every input variable. */
  lemma UsableCoversInputs(u: InputVar)
    ensures u in USABLE_READ_VARS
  {
  }

  /** The registry covers every calculated variable. */
  lemma CalculatedCoversCalcs(c: CalcVar)
    ensures c in CALCULATED_VARS
  {
  }

  /** Every variable is a Records attribute after loading. */
  lemma AllVarsComplete(v: Var)
    ensures v in ALL_VARS
  {
    match v
    case Input(u) => UsableCoversInputs(u);
    case Calc(c) => CalculatedCoversCalcs(c);
  }
}
