/** Sign and order of products of reals, one rule at a time. */
module RealArithmetic {

  lemma DivideIsPositive(p: real, q: real)
    requires p > 0.0 && q > 0.0
    ensures p / q > 0.0
  {
  }

  lemma ProductNonNegative(p: real, q: real)
    requires p >= 0.0 && q >= 0.0
    ensures p * q >= 0.0
  {
  }

  lemma ProductMonotone(p: real, q: real, m: real)
    requires p <= q && m >= 0.0
    ensures p * m <= q * m
  {
    ProductNonNegative(q - p, m);
    assert (q - p) * m == q * m - p * m;
  }

  lemma ProductStrict(p: real, q: real, m: real)
    requires p < q && m > 0.0
    ensures p * m < q * m
  {
    assert (q - p) * m == q * m - p * m;
  }

  lemma CancelFactor(p: real, q: real, m: real)
    requires m != 0.0 && p * m == q * m
    ensures p == q
  {
    assert (p - q) * m == p * m - q * m;
  }
}
