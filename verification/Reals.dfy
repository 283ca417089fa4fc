/** Bounds of reals, and products kept out of the solver's sight: proofs hide `Mul` and use its laws. */
module Reals {
  function Max(a: real, b: real): real { if a < b then b else a }

  function Min(a: real, b: real): real { if a < b then a else b }

  function Abs(x: real): real { if x < 0.0 then -x else x }

  function Clamp(x: real, lo: real, hi: real): real {
    if x < lo then lo else if x > hi then hi else x
  }

  /** Clamping gives the number of the range nearest to x. */
  lemma ClampIsNearest(x: real, lo: real, hi: real, y: real)
    requires lo <= y <= hi
    ensures lo <= Clamp(x, lo, hi) <= hi && Abs(x - Clamp(x, lo, hi)) <= Abs(x - y)
  {
  }

  function Mul(x: real, y: real): real { x * y }

  lemma MulDistributes(x: real, y: real, z: real)
    ensures Mul(x + y, z) == Mul(x, z) + Mul(y, z)
    ensures Mul(x - y, z) == Mul(x, z) - Mul(y, z)
    ensures Mul(z, x + y) == Mul(z, x) + Mul(z, y)
    ensures Mul(z, x - y) == Mul(z, x) - Mul(z, y)
  {
  }

  lemma MulMonotone(k: real, x: real, y: real)
    requires k >= 0.0 && x <= y
    ensures Mul(k, x) <= Mul(k, y)
  {
    assert k * (y - x) >= 0.0;
    assert k * (y - x) == k * y - k * x;
  }

  lemma MulUnits(x: real)
    ensures Mul(x, 0.0) == 0.0 == Mul(0.0, x) && Mul(x, 1.0) == x == Mul(1.0, x)
  {
  }

  lemma MulCommutes(x: real, y: real)
    ensures Mul(x, y) == Mul(y, x)
  {
  }

  lemma MulPositive(x: real, y: real)
    requires x > 0.0 && y > 0.0
    ensures Mul(x, y) > 0.0
  {
    if Mul(x, y) <= 0.0 {
      assert false;
    }
  }
}
