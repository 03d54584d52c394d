/** Cosine similarity and normalisation over the hand-written Newton square root. */
module VectorMath {
  import opened RealArithmetic

  type Vector = seq<real>

  // ----- reference definitions -----

  /** Sum of the first `n` products. */
  function DotTo(a: Vector, b: Vector, n: nat): real
    requires n <= |a| && n <= |b|
  {
    if n == 0 then 0.0 else DotTo(a, b, n - 1) + a[n - 1] * b[n - 1]
  }

  function Dot(a: Vector, b: Vector): real
    requires |a| == |b|
  {
    DotTo(a, b, |a|)
  }

  function SquaredNorm(a: Vector): real {
    Dot(a, a)
  }

  function NewtonStep(x: real, z: real): real
    requires z > 0.0
  {
    z - (z * z - x) / (2.0 * z)
  }

  /** `n` Newton steps towards the square root of `x`, from `x / 2`. */
  function Newton(x: real, n: nat): (z: real)
    requires x > 0.0
    ensures z > 0.0
  {
    if n == 0 then x / 2.0
    else
      var z := Newton(x, n - 1);
      StepIsPositive(x, z);
      NewtonStep(x, z)
  }

  /** The value the code's ten-step loop delivers. */
  function Root(x: real): real {
    if x <= 0.0 then 0.0 else Newton(x, 10)
  }

  // ----- Newton's method -----

  lemma StepIsPositive(x: real, z: real)
    requires x > 0.0 && z > 0.0
    ensures NewtonStep(x, z) == (z * z + x) / (2.0 * z) > 0.0
  {
    var d := 2.0 * z;
    assert (z * z - x) / d * d == z * z - x;
    assert (NewtonStep(x, z) - (z * z + x) / d) * d == 0.0;
    assert z * z > 0.0;
    DivideIsPositive(z * z + x, d);
  }

  /** The residual after a step is the square of (old residual / 2z). */
  lemma StepResidual(x: real, z: real)
    requires z > 0.0
    ensures
      var h := (z * z - x) / (2.0 * z);
      NewtonStep(x, z) * NewtonStep(x, z) - x == h * h
  {
    var h := (z * z - x) / (2.0 * z);
    assert 2.0 * z * h == z * z - x;
    assert (z - h) * (z - h) == z * z - 2.0 * z * h + h * h;
  }

  /** Once above the root, each step keeps above it and cuts the residual at least fourfold. */
  lemma StepContracts(x: real, z: real)
    requires x > 0.0 && z > 0.0 && x <= z * z
    ensures 0.0 <= NewtonStep(x, z) * NewtonStep(x, z) - x <= (z * z - x) / 4.0
  {
    var h := (z * z - x) / (2.0 * z);
    StepResidual(x, z);
    assert 2.0 * z * h == z * z - x;
    // 4 z^2 h^2 = r^2 <= r z^2 with r = z^2 - x
    var r := z * z - x;
    assert 4.0 * (z * z) * (h * h) == r * r by {
      assert 4.0 * (z * z) * (h * h) == (2.0 * z * h) * (2.0 * z * h);
    }
    assert r * r <= r * (z * z);
    assert (z * z) * (4.0 * (h * h) - r) <= 0.0;
    if 4.0 * (h * h) - r > 0.0 {
      assert (z * z) * (4.0 * (h * h) - r) > 0.0;
    }
  }

  function Pow4(n: nat): (p: real)
    ensures p >= 1.0
  {
    if n == 0 then 1.0 else 4.0 * Pow4(n - 1)
  }

  lemma FirstResidual(x: real, z: real)
    requires x > 0.0 && z == x / 2.0
    ensures NewtonStep(x, z) * NewtonStep(x, z) - x == (x / 4.0 - 1.0) * (x / 4.0 - 1.0)
  {
    StepResidual(x, z);
    var h := (z * z - x) / (2.0 * z);
    var g := x / 4.0 - 1.0;
    assert 2.0 * z == x && x == 4.0 * g + 4.0;
    assert h * x == z * z - x;
    assert z * z == x * (z / 2.0);
    assert z / 2.0 == g + 1.0;
    assert x * (g + 1.0) == x * g + x;
    CancelFactor(h, g, x);
  }

  lemma Quartered(r: real, r': real, p: real, bound: real)
    requires p >= 1.0 && 0.0 <= r' <= r / 4.0 && r * p <= bound
    ensures r' * (4.0 * p) <= bound
  {
    ProductMonotone(4.0 * r', r, p);
  }

  /** The residual after `n + 1` steps, for every positive input. */
  lemma {:induction false} NewtonResidual(x: real, n: nat)
    requires x > 0.0
    ensures x <= Newton(x, n + 1) * Newton(x, n + 1)
    ensures (Newton(x, n + 1) * Newton(x, n + 1) - x) * Pow4(n) <= (x / 4.0 - 1.0) * (x / 4.0 - 1.0)
  {
    hide NewtonStep;
    if n == 0 {
      assert Newton(x, 1) == NewtonStep(x, x / 2.0);
      FirstResidual(x, x / 2.0);
    } else {
      NewtonResidual(x, n - 1);
      var z, z' := Newton(x, n), Newton(x, n + 1);
      assert z' == NewtonStep(x, z);
      StepContracts(x, z);
      Quartered(z * z - x, z' * z' - x, Pow4(n - 1), (x / 4.0 - 1.0) * (x / 4.0 - 1.0));
    }
  }

  lemma StepExact(x: real, z: real)
    requires z > 0.0
    ensures NewtonStep(x, z) * NewtonStep(x, z) == x <==> z * z == x
  {
    StepResidual(x, z);
    var h := (z * z - x) / (2.0 * z);
    assert h * (2.0 * z) == z * z - x;
    if h > 0.0 {
      ProductStrict(0.0, h, h);
    } else if h < 0.0 {
      ProductStrict(0.0, -h, -h);
    }
  }

  lemma StartExact(x: real, z: real)
    requires x > 0.0 && x == 2.0 * z
    ensures z * z == x <==> x == 4.0
  {
    assert z > 0.0;
    if z * z == x {
      assert z * z == 2.0 * z;
      CancelFactor(z, 2.0, z);
    }
  }

  /** A step lands exactly on the root only from the root, so ten steps are exact for one input alone. */
  lemma {:induction false} NewtonExact(x: real, n: nat)
    requires x > 0.0
    ensures Newton(x, n) * Newton(x, n) == x <==> x == 4.0
  {
    hide NewtonStep;
    if n == 0 {
      StartExact(x, x / 2.0);
    } else {
      NewtonExact(x, n - 1);
      StepExact(x, Newton(x, n - 1));
    }
  }

  /** Ten steps never undershoot, and overshoot the square by at most (x/4 - 1)^2 / 4^9. */
  lemma RootBounds(x: real)
    requires x > 0.0
    ensures Root(x) > 0.0
    ensures x <= Root(x) * Root(x) <= x + (x / 4.0 - 1.0) * (x / 4.0 - 1.0) / 262144.0
    ensures Root(x) * Root(x) == x <==> x == 4.0
  {
    NewtonResidual(x, 9);
    NewtonExact(x, 10);
    assert Pow4(9) == 262144.0 by {
      assert Pow4(3) == 64.0;
      assert Pow4(6) == 4096.0;
    }
  }

  // ----- Cauchy-Schwarz -----

  lemma {:induction false} SquaredNormNonNegative(a: Vector, n: nat)
    requires n <= |a|
    ensures DotTo(a, a, n) >= 0.0
  {
    if n > 0 {
      SquaredNormNonNegative(a, n - 1);
    }
  }

  lemma DotUnfolds(a: Vector, b: Vector, n: nat)
    requires 0 < n <= |a| && n <= |b|
    ensures DotTo(a, b, n) == DotTo(a, b, n - 1) + a[n - 1] * b[n - 1]
  {
  }

  /** The squared norm of s*a + t*b, expanded, from the squared norms and the dot product. */
  function Combination(s: real, t: real, p: real, q: real, r: real): real {
    s * s * p + 2.0 * (s * t) * q + t * t * r
  }

  lemma CombinationAdds(s: real, t: real, p: real, q: real, r: real, u: real, v: real, w: real)
    ensures Combination(s, t, p + u, q + v, r + w) == Combination(s, t, p, q, r) + Combination(s, t, u, v, w)
  {
    assert s * s * (p + u) == s * s * p + s * s * u;
    assert 2.0 * (s * t) * (q + v) == 2.0 * (s * t) * q + 2.0 * (s * t) * v;
    assert t * t * (r + w) == t * t * r + t * t * w;
  }

  lemma CombinationOfSquares(s: real, t: real, x: real, y: real)
    ensures Combination(s, t, x * x, x * y, y * y) >= 0.0
  {
    var c := s * x + t * y;
    assert c * c == s * s * (x * x) + 2.0 * (s * t) * (x * y) + t * t * (y * y);
    SquareNonNegative(c);
  }

  lemma SquareNonNegative(c: real)
    ensures c * c >= 0.0
  {
  }

  lemma CombinationStep(s: real, t: real, x: real, y: real, p: real, q: real, r: real, p': real, q': real, r': real)
    requires Combination(s, t, p, q, r) >= 0.0
    requires p' == p + x * x && q' == q + x * y && r' == r + y * y
    ensures Combination(s, t, p', q', r') >= 0.0
  {
    hide Combination;
    CombinationAdds(s, t, p, q, r, p' - p, q' - q, r' - r);
    CombinationOfSquares(s, t, x, y);
    SameCombination(s, t, p' - p, q' - q, r' - r, x * x, x * y, y * y);
    SameCombination(s, t, p + (p' - p), q + (q' - q), r + (r' - r), p', q', r');
  }

  lemma SameCombination(s: real, t: real, p: real, q: real, r: real, p': real, q': real, r': real)
    requires p == p' && q == q' && r == r'
    ensures Combination(s, t, p, q, r) == Combination(s, t, p', q', r')
  {
  }

  lemma NothingCombined(a: Vector, b: Vector, s: real, t: real)
    ensures Combination(s, t, DotTo(a, a, 0), DotTo(a, b, 0), DotTo(b, b, 0)) >= 0.0
  {
  }

  lemma {:induction false} CombinationNonNegative(a: Vector, b: Vector, n: nat, s: real, t: real)
    requires n <= |a| && n <= |b|
    ensures Combination(s, t, DotTo(a, a, n), DotTo(a, b, n), DotTo(b, b, n)) >= 0.0
  {
    hide Combination, DotTo;
    if n == 0 {
      NothingCombined(a, b, s, t);
    } else {
      CombinationNonNegative(a, b, n - 1, s, t);
      DotUnfolds(a, a, n);
      DotUnfolds(a, b, n);
      DotUnfolds(b, b, n);
      CombinationStep(s, t, a[n - 1], b[n - 1], DotTo(a, a, n - 1), DotTo(a, b, n - 1), DotTo(b, b, n - 1),
                      DotTo(a, a, n), DotTo(a, b, n), DotTo(b, b, n));
    }
  }

  lemma SchwarzStep(x: real, y: real, p: real, q: real, r: real)
    requires q * q <= p * r && Combination(y, -x, p, q, r) >= 0.0
    ensures (q + x * y) * (q + x * y) <= (p + x * x) * (r + y * y)
  {
    assert (q + x * y) * (q + x * y) == q * q + 2.0 * (x * y) * q + (x * y) * (x * y);
    assert (p + x * x) * (r + y * y) == p * r + y * y * p + x * x * r + (x * x) * (y * y);
    assert Combination(y, -x, p, q, r) == y * y * p - 2.0 * (x * y) * q + x * x * r;
  }

  lemma NothingToCompare(a: Vector, b: Vector)
    ensures DotTo(a, b, 0) * DotTo(a, b, 0) <= DotTo(a, a, 0) * DotTo(b, b, 0)
  {
  }

  lemma {:induction false} CauchySchwarz(a: Vector, b: Vector, n: nat)
    requires n <= |a| && n <= |b|
    ensures DotTo(a, b, n) * DotTo(a, b, n) <= DotTo(a, a, n) * DotTo(b, b, n)
  {
    hide *;
    if n == 0 {
      NothingToCompare(a, b);
    } else {
      CauchySchwarz(a, b, n - 1);
      CombinationNonNegative(a, b, n - 1, b[n - 1], -a[n - 1]);
      CauchySchwarzStep(a, b, n);
    }
  }

  lemma CauchySchwarzStep(a: Vector, b: Vector, n: nat)
    requires 0 < n <= |a| && n <= |b|
    requires DotTo(a, b, n - 1) * DotTo(a, b, n - 1) <= DotTo(a, a, n - 1) * DotTo(b, b, n - 1)
    requires Combination(b[n - 1], -a[n - 1], DotTo(a, a, n - 1), DotTo(a, b, n - 1), DotTo(b, b, n - 1)) >= 0.0
    ensures DotTo(a, b, n) * DotTo(a, b, n) <= DotTo(a, a, n) * DotTo(b, b, n)
  {
    hide *;
    var x, y := a[n - 1], b[n - 1];
    var p, q, r := DotTo(a, a, n - 1), DotTo(a, b, n - 1), DotTo(b, b, n - 1);
    SchwarzStep(x, y, p, q, r);
    DotUnfolds(a, a, n);
    DotUnfolds(a, b, n);
    DotUnfolds(b, b, n);
    var p', q', r' := DotTo(a, a, n), DotTo(a, b, n), DotTo(b, b, n);
    assert p' == p + x * x && q' == q + x * y && r' == r + y * y;
    SubstituteProducts(p', q', r', p + x * x, q + x * y, r + y * y);
  }

  lemma SubstituteProducts(p': real, q': real, r': real, p: real, q: real, r: real)
    requires p' == p && q' == q && r' == r && q * q <= p * r
    ensures q' * q' <= p' * r'
  {
  }

  lemma {:induction false} DotSymmetric(a: Vector, b: Vector, n: nat)
    requires n <= |a| && n <= |b|
    ensures DotTo(a, b, n) == DotTo(b, a, n)
  {
    if n > 0 {
      DotSymmetric(a, b, n - 1);
    }
  }

  lemma NewtonUnfolds(x: real, n: nat)
    requires x > 0.0
    ensures Newton(x, n + 1) == NewtonStep(x, Newton(x, n))
  {
  }

  // ----- the operations -----

  method Sqrt(x: real) returns (z: real)
    ensures z == Root(x)
  {
    if x <= 0.0 {
      return 0.0;
    }
    z := x / 2.0;
    for i := 0 to 10
      invariant z == Newton(x, i)
    {
      NewtonUnfolds(x, i);
      z := NewtonStep(x, z);
    }
  }

  lemma AbsBySquare(d: real, m: real)
    requires m >= 0.0 && d * d <= m * m
    ensures -m <= d <= m
  {
    assert d * d - m * m == (d - m) * (d + m);
    if d > m {
      ProductStrict(0.0, d - m, d + m);
    } else if d < -m {
      assert (m - d) * (-d - m) == (d - m) * (d + m);
      ProductStrict(0.0, m - d, -d - m);
    }
  }

  lemma QuotientInUnitInterval(d: real, m: real)
    requires m > 0.0 && -m <= d <= m
    ensures -1.0 <= d / m <= 1.0
  {
  }

  lemma RootsArePositive(p: real, r: real)
    requires p > 0.0 && r > 0.0
    ensures Root(p) * Root(r) > 0.0
  {
    RootBounds(p);
    RootBounds(r);
    ProductStrict(0.0, Root(p), Root(r));
  }

  function NormProductOf(a: Vector, b: Vector): (m: real)
    requires |a| == |b| && SquaredNorm(a) != 0.0 && SquaredNorm(b) != 0.0
    ensures m > 0.0
  {
    SquaredNormNonNegative(a, |a|);
    SquaredNormNonNegative(b, |b|);
    RootsArePositive(SquaredNorm(a), SquaredNorm(b));
    Root(SquaredNorm(a)) * Root(SquaredNorm(b))
  }

  function Cosine(a: Vector, b: Vector): real {
    if |a| != |b| || SquaredNorm(a) == 0.0 || SquaredNorm(b) == 0.0 then 0.0
    else Dot(a, b) / NormProductOf(a, b)
  }

  lemma SchwarzSquared(q: real, p: real, r: real, u: real, v: real)
    requires 0.0 <= p <= u * u && 0.0 <= r <= v * v && q * q <= p * r
    ensures q * q <= (u * v) * (u * v)
  {
    NormProduct(p, r, u * u, v * v);
    assert (u * u) * (v * v) == (u * v) * (u * v);
  }

  /** The product of the two computed norms dominates the dot product. */
  lemma NormsDominateDot(a: Vector, b: Vector)
    requires |a| == |b| && SquaredNorm(a) != 0.0 && SquaredNorm(b) != 0.0
    ensures -NormProductOf(a, b) <= Dot(a, b) <= NormProductOf(a, b)
  {
    hide Root, DotTo;
    SquaredNormNonNegative(a, |a|);
    SquaredNormNonNegative(b, |b|);
    CauchySchwarz(a, b, |a|);
    var p, r := SquaredNorm(a), SquaredNorm(b);
    RootBounds(p);
    RootBounds(r);
    SchwarzSquared(Dot(a, b), p, r, Root(p), Root(r));
    AbsBySquare(Dot(a, b), NormProductOf(a, b));
  }

  /** Vectors of any length: the similarity lies in [-1, 1]. */
  lemma CosineBounded(a: Vector, b: Vector)
    ensures -1.0 <= Cosine(a, b) <= 1.0
  {
    if |a| == |b| && SquaredNorm(a) != 0.0 && SquaredNorm(b) != 0.0 {
      NormsDominateDot(a, b);
      hide DotTo, NormProductOf;
      QuotientInUnitInterval(Dot(a, b), NormProductOf(a, b));
    }
  }

  lemma CosineSymmetric(a: Vector, b: Vector)
    ensures Cosine(a, b) == Cosine(b, a)
  {
    if |a| == |b| {
      DotSymmetric(a, b, |a|);
      hide Root, DotTo;
    }
  }

  /** A non-zero vector scores exactly 1 against itself only where Newton's start is already the root. */
  lemma CosineWithItself(a: Vector)
    requires SquaredNorm(a) != 0.0
    ensures 0.0 < Cosine(a, a) <= 1.0
    ensures Cosine(a, a) == 1.0 <==> SquaredNorm(a) == 4.0
    ensures
      var n := SquaredNorm(a);
      n <= Cosine(a, a) * (n + (n / 4.0 - 1.0) * (n / 4.0 - 1.0) / 262144.0)
  {
    SquaredNormNonNegative(a, |a|);
    var n := SquaredNorm(a);
    RootBounds(n);
    hide Root;
    QuotientByBounds(Cosine(a, a), n, Root(n) * Root(n), n + (n / 4.0 - 1.0) * (n / 4.0 - 1.0) / 262144.0);
  }

  lemma NormProduct(p: real, r: real, p': real, r': real)
    requires 0.0 <= p <= p' && 0.0 <= r <= r'
    ensures p * r <= p' * r'
  {
    ProductMonotone(p, p', r);
    ProductMonotone(r, r', p');
  }

  method CosineSimilarity(a: Vector, b: Vector) returns (c: real)
    ensures c == Cosine(a, b)
    ensures -1.0 <= c <= 1.0
  {
    CosineBounded(a, b);
    hide Root;
    if |a| != |b| {
      return 0.0;
    }
    var dotProduct, normA, normB := 0.0, 0.0, 0.0;
    for i := 0 to |a|
      invariant dotProduct == DotTo(a, b, i) && normA == DotTo(a, a, i) && normB == DotTo(b, b, i)
    {
      dotProduct := dotProduct + a[i] * b[i];
      normA := normA + a[i] * a[i];
      normB := normB + b[i] * b[i];
    }
    if normA == 0.0 || normB == 0.0 {
      return 0.0;
    }
    SquaredNormNonNegative(a, |a|);
    SquaredNormNonNegative(b, |b|);
    RootsArePositive(normA, normB);
    var rootA := Sqrt(normA);
    var rootB := Sqrt(normB);
    c := dotProduct / (rootA * rootB);
  }

  function Scaled(a: Vector, m: real): (r: Vector)
    requires m != 0.0
    ensures |r| == |a|
    ensures forall i :: 0 <= i < |a| ==> r[i] == a[i] / m
  {
    seq(|a|, i requires 0 <= i < |a| => a[i] / m)
  }

  lemma {:induction false} ScaledDot(a: Vector, m: real, n: nat)
    requires m != 0.0 && n <= |a|
    ensures DotTo(Scaled(a, m), Scaled(a, m), n) * (m * m) == DotTo(a, a, n)
  {
    if n > 0 {
      ScaledDot(a, m, n - 1);
      var y := a[n - 1] / m;
      assert y * m == a[n - 1];
      assert (y * y) * (m * m) == (y * m) * (y * m);
    }
  }

  /** The squared norm after dividing by the computed norm: at most 1, how far below at worst, and when exactly 1. */
  lemma NormalizedNorm(a: Vector)
    requires SquaredNorm(a) > 0.0
    ensures Root(SquaredNorm(a)) > 0.0
    ensures
      var n := SquaredNorm(a);
      var m := SquaredNorm(Scaled(a, Root(n)));
      && 0.0 < m <= 1.0
      && m * (n + (n / 4.0 - 1.0) * (n / 4.0 - 1.0) / 262144.0) >= n
      && (m == 1.0 <==> n == 4.0)
  {
    var n := SquaredNorm(a);
    hide Root, DotTo;
    RootBounds(n);
    var z := Root(n);
    ProductStrict(0.0, z, z);
    ScaledNorm(a, z);
    QuotientByBounds(SquaredNorm(Scaled(a, z)), n, z * z, n + (n / 4.0 - 1.0) * (n / 4.0 - 1.0) / 262144.0);
  }

  lemma ScaledNorm(a: Vector, z: real)
    requires z != 0.0
    ensures SquaredNorm(Scaled(a, z)) * (z * z) == SquaredNorm(a)
  {
    ScaledDot(a, z, |a|);
  }

  lemma QuotientByBounds(m: real, n: real, divisor: real, bound: real)
    requires 0.0 < n <= divisor <= bound && m * divisor == n
    ensures 0.0 < m <= 1.0 && n <= m * bound && (m == 1.0 <==> divisor == n)
  {
    if m <= 0.0 { ProductMonotone(m, 0.0, divisor); }
    if m > 1.0 { ProductStrict(1.0, m, divisor); }
    ProductMonotone(divisor, bound, m);
    if divisor == n { CancelFactor(m, 1.0, n); }
  }

  /** `r` is `a` divided by its computed norm, or `a` itself when it has none. */
  ghost predicate Normalized(a: Vector, r: Vector) {
    if SquaredNorm(a) == 0.0 then r == a
    else Root(SquaredNorm(a)) != 0.0 && r == Scaled(a, Root(SquaredNorm(a)))
  }

  lemma RootVanishes(a: Vector)
    ensures SquaredNorm(a) >= 0.0 && (Root(SquaredNorm(a)) == 0.0 <==> SquaredNorm(a) == 0.0)
  {
    SquaredNormNonNegative(a, |a|);
    hide DotTo;
    if SquaredNorm(a) > 0.0 {
      RootBounds(SquaredNorm(a));
    }
  }

  /** "Unit length" is met exactly in one case; elsewhere the shortfall is bounded. */
  lemma NormalizedLength(a: Vector, r: Vector)
    requires Normalized(a, r)
    ensures SquaredNorm(r) <= 1.0
    ensures SquaredNorm(r) == 1.0 <==> SquaredNorm(a) == 4.0
    ensures SquaredNorm(a) != 0.0 ==>
              var n := SquaredNorm(a);
              SquaredNorm(r) * (n + (n / 4.0 - 1.0) * (n / 4.0 - 1.0) / 262144.0) >= n
  {
    RootVanishes(a);
    hide DotTo, Root;
    if SquaredNorm(a) != 0.0 {
      NormalizedNorm(a);
    }
  }

  lemma NormalizedDirection(a: Vector, r: Vector)
    requires Normalized(a, r) && SquaredNorm(a) != 0.0
    ensures |r| == |a| && Root(SquaredNorm(a)) > 0.0
    ensures forall i :: 0 <= i < |a| ==> r[i] * Root(SquaredNorm(a)) == a[i]
  {
    RootVanishes(a);
    RootBounds(SquaredNorm(a));
    hide DotTo, Root;
    var m := Root(SquaredNorm(a));
    forall i | 0 <= i < |a|
      ensures r[i] * m == a[i]
    {
      assert a[i] / m * m == a[i];
    }
  }

  method NormalizeEmbedding(embedding: Vector) returns (result: Vector)
    ensures |result| == |embedding|
    ensures SquaredNorm(result) <= 1.0
    ensures SquaredNorm(embedding) == 0.0 ==> result == embedding
    ensures SquaredNorm(embedding) != 0.0 ==>
              Root(SquaredNorm(embedding)) > 0.0 &&
              forall i :: 0 <= i < |embedding| ==> result[i] * Root(SquaredNorm(embedding)) == embedding[i]
    ensures SquaredNorm(result) == 1.0 <==> SquaredNorm(embedding) == 4.0
    ensures SquaredNorm(embedding) != 0.0 ==>
              var n := SquaredNorm(embedding);
              SquaredNorm(result) * (n + (n / 4.0 - 1.0) * (n / 4.0 - 1.0) / 262144.0) >= n
  {
    hide SquaredNorm, Root, Scaled, Normalized;
    var norm := 0.0;
    for i := 0 to |embedding|
      invariant norm == DotTo(embedding, embedding, i)
    {
      norm := norm + embedding[i] * embedding[i];
    }
    WholeNorm(embedding);
    norm := Sqrt(norm);
    RootVanishes(embedding);
    if norm == 0.0 {
      NormalizedNothing(embedding);
      NormalizedLength(embedding, embedding);
      return embedding;
    }
    var buffer := new real[|embedding|];
    for i := 0 to |embedding|
      invariant forall j :: 0 <= j < i ==> buffer[j] == embedding[j] / norm
    {
      buffer[i] := embedding[i] / norm;
    }
    result := buffer[..];
    NormalizedSomething(embedding, result, norm);
    NormalizedLength(embedding, result);
    NormalizedDirection(embedding, result);
  }

  lemma WholeNorm(a: Vector)
    ensures DotTo(a, a, |a|) == SquaredNorm(a)
  {
    hide DotTo;
  }

  lemma NormalizedNothing(a: Vector)
    requires SquaredNorm(a) == 0.0
    ensures Normalized(a, a)
  {
    hide SquaredNorm;
  }

  lemma NormalizedSomething(a: Vector, r: Vector, m: real)
    requires SquaredNorm(a) != 0.0 && m == Root(SquaredNorm(a)) != 0.0
    requires |r| == |a| && forall i :: 0 <= i < |a| ==> r[i] == a[i] / m
    ensures Normalized(a, r)
  {
    hide SquaredNorm, Root;
    assert r == Scaled(a, m);
  }
}
