/**
 * The consistency checks the Records constructor runs on freshly loaded data
 * (taxcalc/records.py, lines 187-203): three split-earnings identities and the
 * dividend identity, each compared with `np.allclose(..., rtol=0.0, atol=0.001)`.
 */
module Validation {
  import opened Wrappers
  import opened Schema
  import opened Columns
  import opened Inputs

  /** The absolute tolerance of the checks. */
  const ATOL: real := 0.001

  /** `np.isclose(a, b, rtol=0, atol=ATOL)`: |a - b| <= ATOL. */
  predicate Close(a: real, b: real) {
    a - b <= ATOL && b - a <= ATOL
  }

  /** `np.allclose` on two arrays of one length. */
  predicate AllClose(a: seq<real>, b: seq<real>)
    requires |a| == |b|
  {
    forall i :: 0 <= i < |a| ==> Close(a[i], b[i])
  }

  /** Element-wise `a + b`. */
  function Plus(a: seq<real>, b: seq<real>): (r: seq<real>)
    requires |a| == |b|
    ensures |r| == |a| && forall i :: 0 <= i < |a| ==> r[i] == a[i] + b[i]
  {
    seq(|a|, i requires 0 <= i < |a| => a[i] + b[i])
  }

  /** `np.maximum(0., ordinary - qualified)`: the dividends that are not qualified. */
  function OtherDividends(ordinary: seq<real>, qualified: seq<real>): (r: seq<real>)
    requires |ordinary| == |qualified|
    ensures |r| == |ordinary|
    ensures forall i :: 0 <= i < |r| ==>
      && r[i] >= 0.0 && r[i] >= ordinary[i] - qualified[i]
      && (r[i] == 0.0 || r[i] == ordinary[i] - qualified[i])
  {
    seq(|ordinary|, i requires 0 <= i < |ordinary| =>
      if ordinary[i] - qualified[i] > 0.0 then ordinary[i] - qualified[i] else 0.0)
  }

  /**
   * The float column of an input variable (every variable the checks read is a float
   * variable with one entry per record, so the zeros of the other branch are never
   * compared for a well-formed table).
   */
  function RealsOf(fs: Fields, dim: nat, u: InputVar): (xs: seq<real>)
    ensures |xs| == dim
    ensures Input(u) in fs && fs[Input(u)].Reals? && |fs[Input(u)].reals| == dim ==> xs == fs[Input(u)].reals
  {
    if Input(u) in fs && fs[Input(u)].Reals? && |fs[Input(u)].reals| == dim then fs[Input(u)].reals
    else ZeroColumn(false, dim).reals
  }

  /** The split check for one family: total == primary + secondary, within tolerance. */
  predicate SplitHolds(fs: Fields, dim: nat, total: InputVar, primary: InputVar, secondary: InputVar)
  {
    AllClose(RealsOf(fs, dim, total), Plus(RealsOf(fs, dim, primary), RealsOf(fs, dim, secondary)))
  }

  /** The dividend check, as written: e00600 == e00650 + max(0, e00600 - e00650), within tolerance. */
  predicate DividendsHold(fs: Fields, dim: nat)
  {
    var ordinary := RealsOf(fs, dim, e00600);
    var qualified := RealsOf(fs, dim, e00650);
    AllClose(ordinary, Plus(qualified, OtherDividends(ordinary, qualified)))
  }

  /** The first check that fails, in the order the constructor runs them. */
  function ConsistencyError(fs: Fields, dim: nat): (r: Option<LoadError>)
  {
    if !SplitHolds(fs, dim, e00200, e00200p, e00200s) then Some(SplitMismatch(e00200))
    else if !SplitHolds(fs, dim, e00900, e00900p, e00900s) then Some(SplitMismatch(e00900))
    else if !SplitHolds(fs, dim, e02100, e02100p, e02100s) then Some(SplitMismatch(e02100))
    else if !DividendsHold(fs, dim) then Some(DividendMismatch)
    else None
  }

  /**
   * For one record the dividend check passes exactly when qualified dividends exceed
   * ordinary dividends by at most the tolerance: it is `e00600 >= e00650` up to ATOL.
   */
  lemma DividendCloseIff(ordinary: real, qualified: real)
    ensures Close(ordinary, qualified + (if ordinary - qualified > 0.0 then ordinary - qualified else 0.0))
        <==> qualified - ordinary <= ATOL
  {
  }

  /** The dividend check over a whole sample, stated without the `maximum`. */
  lemma DividendsHoldIff(fs: Fields, dim: nat)
    ensures DividendsHold(fs, dim) <==>
      forall i :: 0 <= i < dim ==> RealsOf(fs, dim, e00650)[i] - RealsOf(fs, dim, e00600)[i] <= ATOL
  {
    var ordinary := RealsOf(fs, dim, e00600);
    var qualified := RealsOf(fs, dim, e00650);
    var rhs := Plus(qualified, OtherDividends(ordinary, qualified));
    forall i | 0 <= i < dim
      ensures Close(ordinary[i], rhs[i]) <==> qualified[i] - ordinary[i] <= ATOL
    {
      DividendCloseIff(ordinary[i], qualified[i]);
    }
  }

  /** Record `i`'s value of the float variable `u`, for stating the checks record by record. */
  function Col(fs: Fields, dim: nat, u: InputVar, i: nat): real
    requires i < dim
  {
    RealsOf(fs, dim, u)[i]
  }

  /** One record's split figures agree: the total is within ATOL of primary plus secondary. */
  predicate SplitClose(total: real, primary: real, secondary: real) {
    Close(total, primary + secondary)
  }

  /** Record `i` passes the dividend check: qualified exceeds ordinary dividends by at most ATOL. */
  predicate DividendAt(fs: Fields, dim: nat, i: nat)
    requires i < dim
  {
    Col(fs, dim, e00650, i) - Col(fs, dim, e00600, i) <= ATOL
  }

  /** `allclose(x, y + z)` is closeness entry by entry. */
  lemma AllCloseSumIff(xs: seq<real>, ys: seq<real>, zs: seq<real>)
    requires |xs| == |ys| == |zs|
    ensures AllClose(xs, Plus(ys, zs)) <==> forall i :: 0 <= i < |xs| ==> SplitClose(xs[i], ys[i], zs[i])
  {
  }

  /** The dividend check, record by record. */
  lemma DividendsHoldAt(fs: Fields, dim: nat)
    ensures DividendsHold(fs, dim) <==> forall i :: 0 <= i < dim ==> DividendAt(fs, dim, i)
  {
    DividendsHoldIff(fs, dim);
    forall i | 0 <= i < dim
      ensures DividendAt(fs, dim, i) <==> RealsOf(fs, dim, e00650)[i] - RealsOf(fs, dim, e00600)[i] <= ATOL
    {
    }
  }

  /**
   * Record `i` passes every check: each total is within ATOL of primary plus
   * secondary, and qualified dividends exceed ordinary dividends by at most ATOL.
   */
  predicate RecordConsistent(fs: Fields, dim: nat, i: nat)
    requires i < dim
  {
    && SplitClose(Col(fs, dim, e00200, i), Col(fs, dim, e00200p, i), Col(fs, dim, e00200s, i))
    && SplitClose(Col(fs, dim, e00900, i), Col(fs, dim, e00900p, i), Col(fs, dim, e00900s, i))
    && SplitClose(Col(fs, dim, e02100, i), Col(fs, dim, e02100p, i), Col(fs, dim, e02100s, i))
    && DividendAt(fs, dim, i)
  }

  /** Loading passes the consistency checks exactly when every record does. */
  lemma ConsistencyErrorNoneIff(fs: Fields, dim: nat)
    ensures ConsistencyError(fs, dim).None? <==> forall i :: 0 <= i < dim ==> RecordConsistent(fs, dim, i)
  {
    AllCloseSumIff(RealsOf(fs, dim, e00200), RealsOf(fs, dim, e00200p), RealsOf(fs, dim, e00200s));
    AllCloseSumIff(RealsOf(fs, dim, e00900), RealsOf(fs, dim, e00900p), RealsOf(fs, dim, e00900s));
    AllCloseSumIff(RealsOf(fs, dim, e02100), RealsOf(fs, dim, e02100p), RealsOf(fs, dim, e02100s));
    DividendsHoldAt(fs, dim);
    forall i | 0 <= i < dim
      ensures RecordConsistent(fs, dim, i) <==>
        && SplitClose(RealsOf(fs, dim, e00200)[i], RealsOf(fs, dim, e00200p)[i], RealsOf(fs, dim, e00200s)[i])
        && SplitClose(RealsOf(fs, dim, e00900)[i], RealsOf(fs, dim, e00900p)[i], RealsOf(fs, dim, e00900s)[i])
        && SplitClose(RealsOf(fs, dim, e02100)[i], RealsOf(fs, dim, e02100p)[i], RealsOf(fs, dim, e02100s)[i])
        && DividendAt(fs, dim, i)
    {
    }
  }

  /** Every record's wage total agrees with its parts: `e00200 == e00200p + e00200s` within ATOL. */
  predicate WagesAgree(fs: Fields, dim: nat) {
    forall i :: 0 <= i < dim ==> SplitClose(Col(fs, dim, e00200, i), Col(fs, dim, e00200p, i), Col(fs, dim, e00200s, i))
  }

  /** Every record's business total agrees with its parts: `e00900 == e00900p + e00900s` within ATOL. */
  predicate BusinessAgrees(fs: Fields, dim: nat) {
    forall i :: 0 <= i < dim ==> SplitClose(Col(fs, dim, e00900, i), Col(fs, dim, e00900p, i), Col(fs, dim, e00900s, i))
  }

  /** Every record's farm total agrees with its parts: `e02100 == e02100p + e02100s` within ATOL. */
  predicate FarmAgrees(fs: Fields, dim: nat) {
    forall i :: 0 <= i < dim ==> SplitClose(Col(fs, dim, e02100, i), Col(fs, dim, e02100p, i), Col(fs, dim, e02100s, i))
  }

  /**
   * The error the constructor raises names the first family of figures, in the
   * order wages, business, farm, dividends, that some record gets wrong, every
   * earlier family being right for every record.
   */
  lemma ConsistencyErrorNames(fs: Fields, dim: nat)
    ensures ConsistencyError(fs, dim) == Some(SplitMismatch(e00200)) <==> !WagesAgree(fs, dim)
    ensures ConsistencyError(fs, dim) == Some(SplitMismatch(e00900)) <==>
      WagesAgree(fs, dim) && !BusinessAgrees(fs, dim)
    ensures ConsistencyError(fs, dim) == Some(SplitMismatch(e02100)) <==>
      WagesAgree(fs, dim) && BusinessAgrees(fs, dim) && !FarmAgrees(fs, dim)
    ensures ConsistencyError(fs, dim) == Some(DividendMismatch) <==>
      && WagesAgree(fs, dim) && BusinessAgrees(fs, dim) && FarmAgrees(fs, dim)
      && !(forall i :: 0 <= i < dim ==> DividendAt(fs, dim, i))
  {
    AllCloseSumIff(RealsOf(fs, dim, e00200), RealsOf(fs, dim, e00200p), RealsOf(fs, dim, e00200s));
    AllCloseSumIff(RealsOf(fs, dim, e00900), RealsOf(fs, dim, e00900p), RealsOf(fs, dim, e00900s));
    AllCloseSumIff(RealsOf(fs, dim, e02100), RealsOf(fs, dim, e02100p), RealsOf(fs, dim, e02100s));
    DividendsHoldAt(fs, dim);
    forall i | 0 <= i < dim
      ensures Col(fs, dim, e00200, i) == RealsOf(fs, dim, e00200)[i]
      ensures Col(fs, dim, e00200p, i) == RealsOf(fs, dim, e00200p)[i]
      ensures Col(fs, dim, e00200s, i) == RealsOf(fs, dim, e00200s)[i]
      ensures Col(fs, dim, e00900, i) == RealsOf(fs, dim, e00900)[i]
      ensures Col(fs, dim, e00900p, i) == RealsOf(fs, dim, e00900p)[i]
      ensures Col(fs, dim, e00900s, i) == RealsOf(fs, dim, e00900s)[i]
      ensures Col(fs, dim, e02100, i) == RealsOf(fs, dim, e02100)[i]
      ensures Col(fs, dim, e02100p, i) == RealsOf(fs, dim, e02100p)[i]
      ensures Col(fs, dim, e02100s, i) == RealsOf(fs, dim, e02100s)[i]
    {
    }
  }
}
