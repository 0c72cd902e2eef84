/**
 * Stage 1 extrapolation (`_blowup`, taxcalc/records.py lines 259-356): each of 64
 * float input variables is grown by one factor of the year's row of BF, or, for
 * the three business-income variables and e02000, by an income factor or a loss
 * factor chosen by each record's own sign.
 */
module Blowup {
  import opened Wrappers
  import opened Schema
  import opened Columns
  import opened Factors

  /** The sixteen factors `_blowup` reads from BF before it changes anything (lines 265-280). */
  const BLOWUP_FACTORS: set<Factor> :=
    {AWAGE, AINTS, ADIVS, ATXPY, ASCHCI, ASCHCL, ACGNS, ASCHEI, ASCHEL, ASCHF, AUCOMP, ASOCSEC,
     ACPIM, AGDPN, ABOOK, AIPD}

  /** How one variable grows: by one factor, or by a gain factor where `x >= 0` and a loss factor elsewhere. */
  datatype Rule = Uniform(factor: Factor) | BySign(gain: Factor, loss: Factor) {
    function Uses(): set<Factor> {
      match this
      case Uniform(f) => {f}
      case BySign(g, l) => {g, l}
    }
  }

  /** The rule `_blowup` applies to each input variable; None for those it leaves alone. */
  function BlowupRule(u: InputVar): (r: Option<Rule>)
    ensures r.Some? ==> r.value.Uses() <= BLOWUP_FACTORS
  {
    match u
    case e00200 | e00200p | e00200s => Some(Uniform(AWAGE))
    case e00300 | e00400 => Some(Uniform(AINTS))
    case e00600 | e00650 => Some(Uniform(ADIVS))
    case e00700 | e00800 | e01400 | e01500 | e01700 | e03150 | e03210 | e03220 | e03230
      | e03300 | e03400 | e03500 | e07240 | e07260 | p08000 | e09700 | e09800 | e09900
      | e11200 | e18400 | e18500 | e19800 | e20100 | e20400 | e20500 | e07600 | e32800
      | e58990 | e62900 | e87530 | p87521 | cmbtp => Some(Uniform(ATXPY))
    case e00900 | e00900s | e00900p => Some(BySign(ASCHCI, ASCHCL))
    case e01100 | e01200 | p22250 | p23250 | e24515 | e24518 => Some(Uniform(ACGNS))
    case e02000 => Some(BySign(ASCHEI, ASCHEL))
    case e02100 | e02100p | e02100s => Some(Uniform(ASCHF))
    case e02300 => Some(Uniform(AUCOMP))
    case e02400 => Some(Uniform(ASOCSEC))
    case e03270 | e03290 | e17500 => Some(Uniform(ACPIM))
    case e03240 => Some(Uniform(AGDPN))
    case e07300 | e07400 => Some(Uniform(ABOOK))
    case e19200 => Some(Uniform(AIPD))
    case p25470 | e26270 | e27200 => Some(Uniform(ASCHEI))
    case _ => None
  }

  /** Only business income (ASCHCI/ASCHCL) and e02000 (ASCHEI/ASCHEL) are grown by sign. */
  lemma SignRules(u: InputVar)
    requires BlowupRule(u).Some? && BlowupRule(u).value.BySign?
    ensures u in {e00900, e00900p, e00900s, e02000}
    ensures u == e02000 <==> BlowupRule(u) == Some(BySign(ASCHEI, ASCHEL))
    ensures u != e02000 <==> BlowupRule(u) == Some(BySign(ASCHCI, ASCHCL))
  {
  }

  /** Each of the sixteen factors read is used by some variable's rule. */
  lemma EveryFactorUsed(f: Factor)
    requires f in BLOWUP_FACTORS
    ensures exists u :: BlowupRule(u).Some? && f in BlowupRule(u).value.Uses()
  {
    var u :=
      match f
      case AWAGE => e00200
      case AINTS => e00300
      case ADIVS => e00600
      case ATXPY => e00700
      case ASCHCI | ASCHCL => e00900
      case ACGNS => e01100
      case ASCHEI | ASCHEL => e02000
      case ASCHF => e02100
      case AUCOMP => e02300
      case ASOCSEC => e02400
      case ACPIM => e03270
      case AGDPN => e03240
      case ABOOK => e07300
      case AIPD => e19200
      case _ => e00200;
    assert BlowupRule(u).Some? && f in BlowupRule(u).value.Uses();
  }

  /** One column under one rule. */
  function Grown(rule: Rule, row: FactorRow, xs: seq<real>): (r: seq<real>)
    requires rule.Uses() <= row.Keys
    ensures |r| == |xs|
  {
    match rule
    case Uniform(f) => Scaled(xs, row[f])
    case BySign(g, l) => SignScaled(xs, row[g], row[l])
  }

  /** A variable's column after `_blowup`: grown if it has a rule, as it was otherwise. */
  function GrownColumn(v: Var, c: Column, row: FactorRow): (r: Column)
    requires BLOWUP_FACTORS <= row.Keys
    ensures r.Ints? == c.Ints? && r.Length() == c.Length()
  {
    match c
    case Ints(_) => c
    case Reals(xs) =>
      if v.Input? && BlowupRule(v.iv).Some? then Reals(Grown(BlowupRule(v.iv).value, row, xs)) else c
  }

  /** The Records attributes after `_blowup` with the factor row `row`. */
  function Extrapolated(fs: Fields, row: FactorRow): (r: Fields)
    requires BLOWUP_FACTORS <= row.Keys
    ensures r.Keys == fs.Keys
    ensures forall v :: v in fs ==> r[v] == GrownColumn(v, fs[v], row)
  {
    map v | v in fs :: GrownColumn(v, fs[v], row)
  }

  /** `_blowup` keeps the typing and lengths the loader established. */
  lemma ExtrapolatedWellFormed(fs: Fields, dim: nat, row: FactorRow)
    requires BLOWUP_FACTORS <= row.Keys && WellFormed(fs, dim)
    ensures WellFormed(Extrapolated(fs, row), dim)
  {
  }

  /**
   * `_blowup` changes exactly the variables it has a rule for: every calculated
   * variable, every integer variable and the weights s006 keep their values.
   */
  lemma ExtrapolatedFrame(fs: Fields, dim: nat, row: FactorRow, v: Var)
    requires BLOWUP_FACTORS <= row.Keys && WellFormed(fs, dim)
    requires v.Calc? || BlowupRule(v.iv).None?
    ensures Extrapolated(fs, row)[v] == fs[v]
  {
  }

  /** Variable `u` has a float column with a value for record `i`. */
  predicate HasReals(fs: Fields, u: InputVar, i: nat) {
    Input(u) in fs && fs[Input(u)].Reals? && i < |fs[Input(u)].reals|
  }

  /** Record `i`'s value of the float variable `u`. */
  function At(fs: Fields, u: InputVar, i: nat): real
    requires HasReals(fs, u, i)
  {
    fs[Input(u)].reals[i]
  }

  /** Well-formed fields have a float value for every record of every float variable but s006. */
  lemma WellFormedHasReals(fs: Fields, dim: nat, u: InputVar, i: nat)
    requires WellFormed(fs, dim) && !IsIntegerRead(u) && u != s006 && i < dim
    ensures HasReals(fs, u, i)
  {
  }

  /** Record `i` of a grown float variable is record `i` of its column under the variable's rule. */
  lemma GrownAt(fs: Fields, row: FactorRow, u: InputVar, rule: Rule, i: nat)
    requires BLOWUP_FACTORS <= row.Keys && HasReals(fs, u, i) && BlowupRule(u) == Some(rule)
    ensures HasReals(Extrapolated(fs, row), u, i)
    ensures At(Extrapolated(fs, row), u, i) == Grown(rule, row, fs[Input(u)].reals)[i]
  {
    assert Extrapolated(fs, row)[Input(u)] == Reals(Grown(rule, row, fs[Input(u)].reals));
  }

  /** A uniformly grown variable: each record's value times the factor. */
  lemma UniformAt(fs: Fields, row: FactorRow, u: InputVar, f: Factor, i: nat)
    requires BLOWUP_FACTORS <= row.Keys && HasReals(fs, u, i) && BlowupRule(u) == Some(Uniform(f))
    ensures HasReals(Extrapolated(fs, row), u, i)
    ensures At(Extrapolated(fs, row), u, i) == Grow(At(fs, u, i), row[f])
  {
    var xs := fs[Input(u)].reals;
    GrownAt(fs, row, u, Uniform(f), i);
    assert Grown(Uniform(f), row, xs) == Scaled(xs, row[f]);
    ScaledAt(xs, row[f], i);
  }

  /** A sign-selected variable: a nonnegative value grows by the gain factor, a negative one by the loss factor. */
  lemma SignAt(fs: Fields, row: FactorRow, u: InputVar, g: Factor, l: Factor, i: nat)
    requires BLOWUP_FACTORS <= row.Keys && HasReals(fs, u, i) && BlowupRule(u) == Some(BySign(g, l))
    ensures HasReals(Extrapolated(fs, row), u, i)
    ensures At(fs, u, i) >= 0.0 ==> At(Extrapolated(fs, row), u, i) == Grow(At(fs, u, i), row[g])
    ensures At(fs, u, i) < 0.0 ==> At(Extrapolated(fs, row), u, i) == Grow(At(fs, u, i), row[l])
  {
    var xs := fs[Input(u)].reals;
    GrownAt(fs, row, u, BySign(g, l), i);
    assert Grown(BySign(g, l), row, xs) == SignScaled(xs, row[g], row[l]);
    SignScaledAt(xs, row[g], row[l], i);
  }

  /** How far record `i`'s total is from the sum of its two parts. */
  function Mismatch(fs: Fields, total: InputVar, primary: InputVar, secondary: InputVar, i: nat): real
    requires HasReals(fs, total, i) && HasReals(fs, primary, i) && HasReals(fs, secondary, i)
  {
    At(fs, total, i) - (At(fs, primary, i) + At(fs, secondary, i))
  }

  /**
   * Variables that grow by one common uniform factor keep a split: the mismatch
   * between a record's total and the sum of its two parts is scaled by the factor,
   * so an exact split stays exact and, by `ScaledBound`, one within `tol` stays
   * within `tol * |factor|`.
   */
  lemma SplitPreserved(fs: Fields, row: FactorRow, total: InputVar, primary: InputVar,
                       secondary: InputVar, f: Factor, i: nat)
    requires BLOWUP_FACTORS <= row.Keys
    requires BlowupRule(total) == Some(Uniform(f))
    requires BlowupRule(primary) == BlowupRule(total) && BlowupRule(secondary) == BlowupRule(total)
    requires HasReals(fs, total, i) && HasReals(fs, primary, i) && HasReals(fs, secondary, i)
    ensures var r := Extrapolated(fs, row);
      HasReals(r, total, i) && HasReals(r, primary, i) && HasReals(r, secondary, i)
    ensures Mismatch(Extrapolated(fs, row), total, primary, secondary, i)
         == Grow(Mismatch(fs, total, primary, secondary, i), row[f])
  {
    var r := Extrapolated(fs, row);
    var factor := row[f];
    UniformAt(fs, row, total, f, i);
    UniformAt(fs, row, primary, f, i);
    UniformAt(fs, row, secondary, f, i);
    MismatchScaled(fs, r, total, primary, secondary, factor, i);
  }

  /** Fields whose three values are those of `fs` times `f` have `fs`'s mismatch times `f`. */
  lemma MismatchScaled(fs: Fields, r: Fields, total: InputVar, primary: InputVar, secondary: InputVar,
                       f: real, i: nat)
    requires HasReals(fs, total, i) && HasReals(fs, primary, i) && HasReals(fs, secondary, i)
    requires HasReals(r, total, i) && HasReals(r, primary, i) && HasReals(r, secondary, i)
    requires At(r, total, i) == Grow(At(fs, total, i), f)
    requires At(r, primary, i) == Grow(At(fs, primary, i), f)
    requires At(r, secondary, i) == Grow(At(fs, secondary, i), f)
    ensures Mismatch(r, total, primary, secondary, i) == Grow(Mismatch(fs, total, primary, secondary, i), f)
  {
    Distribute(At(fs, total, i), At(fs, primary, i), At(fs, secondary, i), f,
               At(r, total, i), At(r, primary, i), At(r, secondary, i));
  }

  lemma Distribute(t: real, p: real, s: real, f: real, t': real, p': real, s': real)
    requires t' == Grow(t, f) && p' == Grow(p, f) && s' == Grow(s, f)
    ensures t' - (p' + s') == Grow(t - (p + s), f)
  {
  }

  /** The wage and the partnership/S-corporation splits are such families; business income is not. */
  lemma SplitFamilies()
    ensures BlowupRule(e00200) == Some(Uniform(AWAGE))
    ensures BlowupRule(e00200p) == BlowupRule(e00200) && BlowupRule(e00200s) == BlowupRule(e00200)
    ensures BlowupRule(e02100) == Some(Uniform(ASCHF))
    ensures BlowupRule(e02100p) == BlowupRule(e02100) && BlowupRule(e02100s) == BlowupRule(e02100)
    ensures BlowupRule(e00900).Some? && BlowupRule(e00900).value.BySign?
  {
    WageFamily();
    FarmFamily();
  }

  lemma WageFamily()
    ensures BlowupRule(e00200) == Some(Uniform(AWAGE))
    ensures BlowupRule(e00200p) == BlowupRule(e00200) && BlowupRule(e00200s) == BlowupRule(e00200)
  {
  }

  lemma FarmFamily()
    ensures BlowupRule(e02100) == Some(Uniform(ASCHF))
    ensures BlowupRule(e02100p) == BlowupRule(e02100) && BlowupRule(e02100s) == BlowupRule(e02100)
  {
  }

  function Abs(x: real): real {
    if x < 0.0 then -x else x
  }

  /** A mismatch within `tol` scaled by `f` is within `tol * |f|`. */
  lemma ScaledBound(d: real, f: real, tol: real)
    requires -tol <= d <= tol
    ensures -tol * Abs(f) <= d * f <= tol * Abs(f)
  {
    if f >= 0.0 {
      assert d * f <= tol * f;
      assert -tol * f <= d * f;
    } else {
      assert d * f <= -tol * f;
      assert tol * f <= d * f;
    }
  }

  /**
   * Business income does not keep its split: a filing unit whose 1.0 of profit in
   * one spouse's business and 1.0 of loss in the other's sum to a total 0.0 has,
   * whenever the gain and loss factors differ (as in the 2009 row), parts that no
   * longer sum to its total.
   */
  lemma BusinessSplitNotPreserved(gain: real, loss: real)
    requires gain != loss
    ensures var t, p, s := [0.0], [1.0], [-1.0];
      t[0] == p[0] + s[0]
      && SignScaled(t, gain, loss)[0] != SignScaled(p, gain, loss)[0] + SignScaled(s, gain, loss)[0]
  {
  }

  /** The 2009 factors are such a pair, so the split check would not survive their blowup. */
  lemma BusinessFactors2009Differ()
    ensures BlowupRule(e00900) == Some(BySign(ASCHCI, ASCHCL))
    ensures BlowupRule(e00900p) == BlowupRule(e00900) && BlowupRule(e00900s) == BlowupRule(e00900)
    ensures FACTORS_2009[ASCHCI] != FACTORS_2009[ASCHCL]
  {
  }

  /** Ordinary and qualified dividends grow by the same factor, so a positive factor keeps `e00650 <= e00600`. */
  lemma DividendOrderPreserved(fs: Fields, row: FactorRow, i: nat)
    requires BLOWUP_FACTORS <= row.Keys && row[ADIVS] > 0.0
    requires HasReals(fs, e00600, i) && HasReals(fs, e00650, i) && At(fs, e00650, i) <= At(fs, e00600, i)
    ensures HasReals(Extrapolated(fs, row), e00600, i) && HasReals(Extrapolated(fs, row), e00650, i)
    ensures At(Extrapolated(fs, row), e00650, i) <= At(Extrapolated(fs, row), e00600, i)
  {
    UniformAt(fs, row, e00600, ADIVS, i);
    UniformAt(fs, row, e00650, ADIVS, i);
  }

  /** The factor row whose every factor is the product of two rows' factors. */
  function Product(r1: FactorRow, r2: FactorRow): (r: FactorRow)
    ensures r.Keys == r1.Keys * r2.Keys
    ensures forall f :: f in r ==> r[f] == r1[f] * r2[f]
  {
    map f | f in r1 && f in r2 :: r1[f] * r2[f]
  }

  /** The four sign-selected factors. */
  predicate SignFactorsPositive(row: FactorRow)
    requires BLOWUP_FACTORS <= row.Keys
  {
    row[ASCHCI] > 0.0 && row[ASCHCL] > 0.0 && row[ASCHEI] > 0.0 && row[ASCHEL] > 0.0
  }

  /**
   * Two years of blowup compound: growing by one year's factors and then the next
   * is growing once by their products, provided the first year's sign-selected
   * factors are positive (so that no record changes sign in between).
   */
  lemma ExtrapolatedCompose(fs: Fields, r1: FactorRow, r2: FactorRow)
    requires BLOWUP_FACTORS <= r1.Keys && BLOWUP_FACTORS <= r2.Keys && SignFactorsPositive(r1)
    ensures BLOWUP_FACTORS <= Product(r1, r2).Keys
    ensures Extrapolated(Extrapolated(fs, r1), r2) == Extrapolated(fs, Product(r1, r2))
  {
    forall v | v in fs
      ensures Extrapolated(Extrapolated(fs, r1), r2)[v] == Extrapolated(fs, Product(r1, r2))[v]
    {
      GrownColumnCompose(v, fs[v], r1, r2);
    }
  }

  lemma GrownColumnCompose(v: Var, c: Column, r1: FactorRow, r2: FactorRow)
    requires BLOWUP_FACTORS <= r1.Keys && BLOWUP_FACTORS <= r2.Keys && SignFactorsPositive(r1)
    ensures BLOWUP_FACTORS <= Product(r1, r2).Keys
    ensures GrownColumn(v, GrownColumn(v, c, r1), r2) == GrownColumn(v, c, Product(r1, r2))
  {
    if c.Reals? && v.Input? && BlowupRule(v.iv).Some? {
      if BlowupRule(v.iv).value.BySign? {
        SignRules(v.iv);
      }
      GrownCompose(BlowupRule(v.iv).value, c.reals, r1, r2);
    }
  }

  lemma GrownCompose(rule: Rule, xs: seq<real>, r1: FactorRow, r2: FactorRow)
    requires rule.Uses() <= r1.Keys && rule.Uses() <= r2.Keys
    requires rule.BySign? ==> r1[rule.gain] > 0.0 && r1[rule.loss] > 0.0
    ensures rule.Uses() <= Product(r1, r2).Keys
    ensures Grown(rule, r2, Grown(rule, r1, xs)) == Grown(rule, Product(r1, r2), xs)
  {
    var p := Product(r1, r2);
    match rule
    case Uniform(f) =>
      var a1, a2 := r1[f], r2[f];
      ScaledCompose(xs, a1, a2);
      assert p[f] == a1 * a2;
    case BySign(g, l) =>
      var a1, b1, a2, b2 := r1[g], r1[l], r2[g], r2[l];
      SignScaledCompose(xs, a1, b1, a2, b2);
      assert p[g] == a1 * a2 && p[l] == b1 * b2;
  }

  lemma ScaledCompose(xs: seq<real>, a: real, b: real)
    ensures Scaled(Scaled(xs, a), b) == Scaled(xs, a * b)
  {
    forall i | 0 <= i < |xs|
      ensures Scaled(Scaled(xs, a), b)[i] == Scaled(xs, a * b)[i]
    {
      assert xs[i] * a * b == xs[i] * (a * b);
    }
  }

  /** Why `_blowup` fails before it changes anything. */
  datatype BlowupError =
    | FactorColumnAbsent   // BF has no such factor column (AttributeError)
    | FactorYearAbsent     // BF has no row for the year (KeyError)
    | FactorUndefined      // the row has no defined value of the factor; the program raises nothing here

  /**
   * The factor row `_blowup(year)` reads (lines 265-280): the first factor read,
   * AWAGE, decides between a missing column and a missing year.
   */
  function BlowupRow(bf: FactorTable, year: int): (r: Result<FactorRow, BlowupError>)
    ensures r.Success? <==> BLOWUP_FACTORS <= bf.columns && year in bf.rows && BLOWUP_FACTORS <= bf.rows[year].Keys
    ensures r.Success? ==> r.value == bf.rows[year]
    ensures AWAGE !in bf.columns ==> r == Failure(FactorColumnAbsent)
    ensures AWAGE in bf.columns && year !in bf.rows ==> r == Failure(FactorYearAbsent)
  {
    if AWAGE !in bf.columns then Failure(FactorColumnAbsent)
    else if year !in bf.rows then Failure(FactorYearAbsent)
    else if !(BLOWUP_FACTORS <= bf.columns) then Failure(FactorColumnAbsent)
    else if !(BLOWUP_FACTORS <= bf.rows[year].Keys) then Failure(FactorUndefined)
    else Success(bf.rows[year])
  }

  /**
   * After the 2009 bootstrap the blowup of 2009 cannot fail: it reads the
   * hand-written row, whose sign-selected factors are positive.
   */
  lemma BootstrapBlowupRow(bf: FactorTable)
    requires Bootstrapped(bf).Some?
    ensures BlowupRow(Bootstrapped(bf).value, BOOTSTRAP_YEAR) == Success(FACTORS_2009)
    ensures BLOWUP_FACTORS <= FACTORS_2009.Keys && SignFactorsPositive(FACTORS_2009)
  {
    BlowupFactorsIn2009();
    AllFactorsListed(bf.columns);
  }

  /** The 2009 row has every factor `_blowup` reads. */
  lemma BlowupFactorsIn2009()
    ensures BLOWUP_FACTORS <= FACTORS_2009.Keys
  {
  }
}
