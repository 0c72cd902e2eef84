/**
 * Record columns. A loaded Records object holds one numpy array of length `dim` per
 * schema variable; here a variable's array is a `Column`, either 64-bit integers or
 * float64 values, and the attribute bag is a map from variable to column. Values are
 * mathematical integers and reals: int64 overflow and floating-point rounding are
 * not modelled.
 */
module Columns {
  import opened Schema

  datatype Column = Ints(ints: seq<int>) | Reals(reals: seq<real>) {
    function Length(): nat {
      match this
      case Ints(xs) => |xs|
      case Reals(xs) => |xs|
    }
  }

  /** The Records attributes, keyed by variable. */
  type Fields = map<Var, Column>

  /**
   * The typing the loader establishes: every variable has a column, integer typed
   * exactly for INT_VARS, and every column except the sample weight `s006` has one
   * entry per record (`s006` is replaced wholesale by a weight-table column).
   */
  ghost predicate WellFormed(fs: Fields, dim: nat) {
    && (forall v: Var :: v in fs)
    && (forall v: Var :: v in fs ==> (fs[v].Ints? <==> IsIntegerVar(v)))
    && (forall v: Var :: v in fs && v != Input(s006) ==> fs[v].Length() == dim)
  }

  /** `numpy.ndarray.astype(np.int64)` on a float: truncation toward zero. */
  function TruncateTowardZero(x: real): (n: int)
    ensures 0.0 <= x ==> n as real <= x < n as real + 1.0
    ensures x < 0.0 ==> n as real - 1.0 < x <= n as real
  {
    if x >= 0.0 then x.Floor else -((-x).Floor)
  }

  /** A column converted to int64, as `astype(np.int64)` does. */
  function AsInts(c: Column): (r: seq<int>)
    ensures |r| == c.Length()
    ensures c.Ints? ==> r == c.ints
    ensures c.Reals? ==> forall i :: 0 <= i < |r| ==> r[i] == TruncateTowardZero(c.reals[i])
  {
    match c
    case Ints(xs) => xs
    case Reals(xs) => seq(|xs|, i requires 0 <= i < |xs| => TruncateTowardZero(xs[i]))
  }

  /** A column converted to float64, as `astype(np.float64)` does (exactly, here). */
  function AsReals(c: Column): (r: seq<real>)
    ensures |r| == c.Length()
    ensures c.Reals? ==> r == c.reals
    ensures c.Ints? ==> forall i :: 0 <= i < |r| ==> r[i] == c.ints[i] as real
  {
    match c
    case Ints(xs) => seq(|xs|, i requires 0 <= i < |xs| => xs[i] as real)
    case Reals(xs) => xs
  }

  /** `np.zeros(dim, dtype)`: the integer or float array of `dim` zeros. */
  function ZeroColumn(isInt: bool, dim: nat): (c: Column)
    ensures c.Ints? == isInt && c.Length() == dim
    ensures c.Ints? ==> forall i :: 0 <= i < dim ==> c.ints[i] == 0
    ensures c.Reals? ==> forall i :: 0 <= i < dim ==> c.reals[i] == 0.0
  {
    if isInt then Ints(seq(dim, _ => 0)) else Reals(seq(dim, _ => 0.0))
  }

  /** `var.fill(0.)`: the column of the same type and length with every entry zero. */
  function ZeroLike(c: Column): (r: Column)
    ensures r == ZeroColumn(c.Ints?, c.Length())
  {
    match c
    case Ints(xs) => Ints(seq(|xs|, _ => 0))
    case Reals(xs) => Reals(seq(|xs|, _ => 0.0))
  }

  /** One float grown by a factor: `x * f`. */
  function Grow(x: real, f: real): real {
    x * f
  }

  /** `x * f` on a float array. */
  function Scaled(xs: seq<real>, f: real): (r: seq<real>)
    ensures |r| == |xs|
    ensures forall i :: 0 <= i < |xs| ==> r[i] == Grow(xs[i], f)
  {
    seq(|xs|, i requires 0 <= i < |xs| => Grow(xs[i], f))
  }

  /** `np.where(x >= 0, x * gain, x * loss)`: each entry picks its factor by its own sign. */
  function SignScaled(xs: seq<real>, gain: real, loss: real): (r: seq<real>)
    ensures |r| == |xs|
    ensures forall i :: 0 <= i < |xs| ==> r[i] == if xs[i] >= 0.0 then Grow(xs[i], gain) else Grow(xs[i], loss)
  {
    seq(|xs|, i requires 0 <= i < |xs| => if xs[i] >= 0.0 then Grow(xs[i], gain) else Grow(xs[i], loss))
  }

  /** Record `i` of a scaled array, one entry at a time. */
  lemma ScaledAt(xs: seq<real>, f: real, i: nat)
    requires i < |xs|
    ensures Scaled(xs, f)[i] == Grow(xs[i], f)
  {
  }

  /** Record `i` of a sign-scaled array, one sign at a time. */
  lemma SignScaledAt(xs: seq<real>, gain: real, loss: real, i: nat)
    requires i < |xs|
    ensures xs[i] >= 0.0 ==> SignScaled(xs, gain, loss)[i] == Grow(xs[i], gain)
    ensures xs[i] < 0.0 ==> SignScaled(xs, gain, loss)[i] == Grow(xs[i], loss)
  {
  }

  /** The sum of a float array, from the last entry back. */
  function Sum(xs: seq<real>): real {
    if xs == [] then 0.0 else Sum(xs[..|xs| - 1]) + xs[|xs| - 1]
  }

  /** Scaling every entry by `f` scales the sum by `f`. */
  lemma {:induction false} SumScaled(xs: seq<real>, f: real)
    ensures Sum(Scaled(xs, f)) == Sum(xs) * f
  {
    if xs != [] {
      var n := |xs| - 1;
      var ys := Scaled(xs, f);
      forall i | 0 <= i < n
        ensures ys[..n][i] == Scaled(xs[..n], f)[i]
      {
      }
      assert ys[..n] == Scaled(xs[..n], f);
      SumScaled(xs[..n], f);
    }
  }

  /** Applying two sign-selected factor pairs in turn multiplies by the products, when all are positive. */
  lemma SignScaledCompose(xs: seq<real>, g1: real, l1: real, g2: real, l2: real)
    requires g1 > 0.0 && l1 > 0.0
    ensures SignScaled(SignScaled(xs, g1, l1), g2, l2) == SignScaled(xs, g1 * g2, l1 * l2)
  {
    var once := SignScaled(xs, g1, l1);
    forall i | 0 <= i < |xs|
      ensures SignScaled(once, g2, l2)[i] == SignScaled(xs, g1 * g2, l1 * l2)[i]
    {
      if xs[i] >= 0.0 {
        assert once[i] == xs[i] * g1 >= 0.0;
      } else {
        assert once[i] == xs[i] * l1 < 0.0;
      }
    }
  }
}
