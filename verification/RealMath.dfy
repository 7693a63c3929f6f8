/** The functions of the C mathematics library that the sampler uses, over the reals: what is required of them. */
module RealMath {

  /** std::sqrt. */
  ghost predicate IsSqrt(sqrt: real -> real) {
    forall x: real | x >= 0.0 :: sqrt(x) >= 0.0 && sqrt(x) * sqrt(x) == x
  }

  /** std::exp. */
  ghost predicate IsExp(exp: real -> real) {
    && exp(0.0) == 1.0
    && (forall x: real :: exp(x) > 0.0)
    && (forall x: real, y: real :: exp(x + y) == exp(x) * exp(y))
    && (forall x: real, y: real | x <= y :: exp(x) <= exp(y))
  }

  function Max(a: real, b: real): real { if a < b then b else a }

  function Min(a: real, b: real): real { if b < a then b else a }

  /** A product, named so that proofs can treat it as a whole. */
  function Multiple(a: real, b: real): real { a * b }

  lemma ExpZero(exp: real -> real)
    requires IsExp(exp)
    ensures exp(0.0) == 1.0
  {
  }

  lemma ExpPositive(exp: real -> real, a: real)
    requires IsExp(exp)
    ensures exp(a) > 0.0
  {
  }

  lemma ExpSum(exp: real -> real, a: real, b: real)
    requires IsExp(exp)
    ensures exp(a + b) == Multiple(exp(a), exp(b))
  {
  }

  lemma ExpGrows(exp: real -> real, a: real, b: real)
    requires IsExp(exp) && a <= b
    ensures exp(a) <= exp(b)
  {
  }

  function SquareOf(a: real): (r: real)
    ensures r >= 0.0
  {
    a * a
  }

  lemma SquarePositive(a: real)
    requires a != 0.0
    ensures SquareOf(a) > 0.0
  {
    if a > 0.0 {
      SameSigns(a, a, SquareOf(a));
    } else {
      SameSigns(a, a, SquareOf(a));
    }
  }

  lemma SameSigns(a: real, b: real, product: real)
    requires (a > 0.0 && b > 0.0) || (a < 0.0 && b < 0.0)
    requires product == a * b
    ensures product > 0.0
  {
  }
}
