/** Ranking metrics over retrieved results, with binary relevance. */
module Metrics {
  import opened RealArithmetic

  datatype RetrievalResult = RetrievalResult(id: string, score: real)

  /** Base-2 logarithm, of which only sign and growth matter. */
  type Log = int -> real

  ghost predicate LogLike(log2: Log) {
    && (forall i :: i >= 2 ==> log2(i) > 0.0)
    && (forall i, j :: 2 <= i < j ==> log2(i) < log2(j))
  }

  ghost predicate DistinctIds(results: seq<RetrievalResult>) {
    forall i, j :: 0 <= i < j < |results| ==> results[i].id != results[j].id
  }

  /** How many of the first `n` results are relevant. */
  function Hits(results: seq<RetrievalResult>, relevant: set<string>, n: nat): (h: nat)
    requires n <= |results|
    ensures h <= n
  {
    if n == 0 then 0 else Hits(results, relevant, n - 1) + if results[n - 1].id in relevant then 1 else 0
  }

  /** The loop limit: `k`, but not more than there is, and nothing for a negative `k`. */
  function Limit(k: int, available: nat): (n: nat)
    ensures n <= available
  {
    if k <= 0 then 0 else if k > available then available else k
  }

  predicate AllRelevant(results: seq<RetrievalResult>, relevant: set<string>, n: nat) {
    n <= |results| && forall i :: 0 <= i < n ==> results[i].id in relevant
  }

  // ----- counting -----

  lemma {:induction false} HitsGrow(results: seq<RetrievalResult>, relevant: set<string>, m: nat, n: nat)
    requires m <= n <= |results|
    ensures Hits(results, relevant, m) <= Hits(results, relevant, n)
    decreases n - m
  {
    if m < n {
      HitsGrow(results, relevant, m, n - 1);
    }
  }

  lemma {:induction false} HitsOfAll(results: seq<RetrievalResult>, relevant: set<string>, n: nat)
    requires n <= |results|
    ensures Hits(results, relevant, n) == n <==> AllRelevant(results, relevant, n)
  {
    if n > 0 {
      HitsOfAll(results, relevant, n - 1);
    }
  }

  function FoundIds(results: seq<RetrievalResult>, relevant: set<string>, n: nat): set<string>
    requires n <= |results|
  {
    set i | 0 <= i < n && results[i].id in relevant :: results[i].id
  }

  lemma {:induction false} HitsAreFound(results: seq<RetrievalResult>, relevant: set<string>, n: nat)
    requires n <= |results| && DistinctIds(results)
    ensures Hits(results, relevant, n) == |FoundIds(results, relevant, n)|
  {
    if n > 0 {
      HitsAreFound(results, relevant, n - 1);
      var id := results[n - 1].id;
      var before := FoundIds(results, relevant, n - 1);
      assert FoundIds(results, relevant, n) == if id in relevant then before + {id} else before;
      assert id !in before;
    }
  }

  lemma SubsetSize(a: set<string>, b: set<string>)
    requires a <= b
    ensures |a| <= |b|
  {
    assert b == a + (b - a);
  }

  /** Distinct results cannot hit more often than there are relevant documents. */
  lemma HitsBounded(results: seq<RetrievalResult>, relevant: set<string>, n: nat)
    requires n <= |results| && DistinctIds(results)
    ensures Hits(results, relevant, n) <= |relevant|
  {
    HitsAreFound(results, relevant, n);
    SubsetSize(FoundIds(results, relevant, n), relevant);
  }

  // ----- precision, recall, hit rate, reciprocal rank -----

  function Fraction(count: nat, of: nat): real
    requires of > 0
  {
    count as real / of as real
  }

  lemma FractionBounds(count: nat, of: nat)
    requires 0 < of && count <= of
    ensures 0.0 <= Fraction(count, of) <= 1.0
    ensures Fraction(count, of) == 1.0 <==> count == of
  {
    QuotientAtMostOne(count as real, of as real);
  }

  function Precision(results: seq<RetrievalResult>, relevant: set<string>, k: int): real {
    if k == 0 then 0.0 else Hits(results, relevant, Limit(k, |results|)) as real / k as real
  }

  function Recall(results: seq<RetrievalResult>, relevant: set<string>, k: int, totalRelevant: nat): real {
    if totalRelevant == 0 then 0.0 else Fraction(Hits(results, relevant, Limit(k, |results|)), totalRelevant)
  }

  method CountHits(results: seq<RetrievalResult>, relevant: set<string>, k: int) returns (count: nat)
    ensures count == Hits(results, relevant, Limit(k, |results|))
  {
    count := 0;
    var limit := k;
    if limit > |results| {
      limit := |results|;
    }
    var i := 0;
    while i < limit
      invariant 0 <= i <= Limit(k, |results|)
      invariant count == Hits(results, relevant, i)
    {
      if results[i].id in relevant {
        count := count + 1;
      }
      i := i + 1;
    }
  }

  method PrecisionAtK(results: seq<RetrievalResult>, relevant: set<string>, k: int) returns (r: real)
    ensures r == Precision(results, relevant, k)
  {
    if k == 0 {
      return 0.0;
    }
    var count := CountHits(results, relevant, k);
    r := count as real / k as real;
  }

  method RecallAtK(results: seq<RetrievalResult>, relevant: set<string>, k: int, totalRelevant: nat) returns (r: real)
    ensures r == Recall(results, relevant, k, totalRelevant)
  {
    if totalRelevant == 0 {
      return 0.0;
    }
    var count := CountHits(results, relevant, k);
    r := count as real / totalRelevant as real;
  }

  function Hit(results: seq<RetrievalResult>, relevant: set<string>, k: int): real {
    if Hits(results, relevant, Limit(k, |results|)) > 0 then 1.0 else 0.0
  }

  method HitAtK(results: seq<RetrievalResult>, relevant: set<string>, k: int) returns (r: real)
    ensures r == Hit(results, relevant, k)
  {
    var limit := Limit(k, |results|);
    for i := 0 to limit
      invariant Hits(results, relevant, i) == 0
    {
      if results[i].id in relevant {
        HitsGrow(results, relevant, i + 1, limit);
        return 1.0;
      }
    }
    r := 0.0;
  }

  /** Position of the first relevant result, or the length when there is none. */
  function FirstRelevant(results: seq<RetrievalResult>, relevant: set<string>): (p: nat)
    ensures p <= |results|
    ensures p < |results| ==> results[p].id in relevant
    ensures forall i :: 0 <= i < p ==> results[i].id !in relevant
  {
    if results == [] then 0
    else if results[0].id in relevant then 0
    else
      var p := FirstRelevant(results[1..], relevant) + 1;
      assert forall i :: 1 <= i < p ==> results[i] == results[1..][i - 1];
      p
  }

  function Reciprocal(results: seq<RetrievalResult>, relevant: set<string>): real {
    var p := FirstRelevant(results, relevant);
    if p == |results| then 0.0 else 1.0 / (p + 1) as real
  }

  method ReciprocalRank(results: seq<RetrievalResult>, relevant: set<string>) returns (r: real)
    ensures r == Reciprocal(results, relevant)
  {
    for i := 0 to |results|
      invariant forall j :: 0 <= j < i ==> results[j].id !in relevant
    {
      if results[i].id in relevant {
        return 1.0 / (i + 1) as real;
      }
    }
    r := 0.0;
  }

  lemma {:induction false} NoHitsBefore(results: seq<RetrievalResult>, relevant: set<string>, n: nat)
    requires n <= |results|
    ensures Hits(results, relevant, n) == 0 <==> n <= FirstRelevant(results, relevant)
  {
    if n > 0 {
      NoHitsBefore(results, relevant, n - 1);
    }
  }

  lemma ReciprocalOrder(a: real, b: real)
    requires 0.0 < a <= b
    ensures 0.0 < 1.0 / b <= 1.0 / a
  {
  }

  /** Hit rate and reciprocal rank tell the same story: a hit in the top k is a reciprocal rank of at least 1/k. */
  lemma HitMeansRank(results: seq<RetrievalResult>, relevant: set<string>, k: int)
    requires k > 0
    ensures Hit(results, relevant, k) == 1.0 <==> Reciprocal(results, relevant) >= 1.0 / k as real
    ensures 0.0 <= Reciprocal(results, relevant) <= 1.0
  {
    var p := FirstRelevant(results, relevant);
    NoHitsBefore(results, relevant, Limit(k, |results|));
    ReciprocalOrder(1.0, (p + 1) as real);
    ReciprocalOrder(1.0, k as real);
    if p < |results| {
      if p + 1 <= k {
        ReciprocalOrder((p + 1) as real, k as real);
      } else {
        StrictReciprocal(k as real, (p + 1) as real);
      }
    }
  }

  lemma StrictReciprocal(a: real, b: real)
    requires 0.0 < a < b
    ensures 1.0 / b < 1.0 / a
  {
    assert 1.0 / a - 1.0 / b == (b - a) / (a * b) by {
      assert (1.0 / a - 1.0 / b) * (a * b) == b - a;
    }
  }

  // ----- discounted cumulative gain -----

  function Gain(log2: Log, i: nat): real {
    if log2(i + 2) == 0.0 then 0.0 else 1.0 / log2(i + 2)
  }

  lemma GainFalls(log2: Log, i: nat, j: nat)
    requires LogLike(log2) && i <= j
    ensures Gain(log2, j) > 0.0
    ensures i < j ==> Gain(log2, j) < Gain(log2, i)
  {
    if i < j {
      StrictReciprocal(log2(i + 2), log2(j + 2));
    }
  }

  function Dcg(log2: Log, results: seq<RetrievalResult>, relevant: set<string>, n: nat): real
    requires n <= |results|
  {
    if n == 0 then 0.0
    else Dcg(log2, results, relevant, n - 1) + if results[n - 1].id in relevant then Gain(log2, n - 1) else 0.0
  }

  function Ideal(log2: Log, n: nat): real {
    if n == 0 then 0.0 else Ideal(log2, n - 1) + Gain(log2, n - 1)
  }

  function Ndcg(log2: Log, results: seq<RetrievalResult>, relevant: set<string>, k: int): real {
    var ideal := Ideal(log2, Limit(k, |relevant|));
    if ideal == 0.0 then 0.0 else Dcg(log2, results, relevant, Limit(k, |results|)) / ideal
  }

  method DcgAtK(log2: Log, results: seq<RetrievalResult>, relevant: set<string>, k: int) returns (dcg: real)
    requires LogLike(log2)
    ensures dcg == Dcg(log2, results, relevant, Limit(k, |results|))
  {
    dcg := 0.0;
    var limit := k;
    if limit > |results| {
      limit := |results|;
    }
    var i := 0;
    while i < limit
      invariant 0 <= i <= Limit(k, |results|)
      invariant dcg == Dcg(log2, results, relevant, i)
    {
      if results[i].id in relevant {
        dcg := dcg + 1.0 / log2(i + 2);
      }
      i := i + 1;
    }
  }

  method IdealDcgAtK(log2: Log, numRelevant: nat, k: int) returns (idcg: real)
    requires LogLike(log2)
    ensures idcg == Ideal(log2, Limit(k, numRelevant))
  {
    idcg := 0.0;
    var limit := k;
    if limit > numRelevant {
      limit := numRelevant;
    }
    var i := 0;
    while i < limit
      invariant 0 <= i <= Limit(k, numRelevant)
      invariant idcg == Ideal(log2, i)
    {
      idcg := idcg + 1.0 / log2(i + 2);
      i := i + 1;
    }
  }

  method NdcgAtK(log2: Log, results: seq<RetrievalResult>, relevant: set<string>, k: int) returns (r: real)
    requires LogLike(log2)
    ensures r == Ndcg(log2, results, relevant, k)
  {
    var dcg := DcgAtK(log2, results, relevant, k);
    var idcg := IdealDcgAtK(log2, |relevant|, k);
    if idcg == 0.0 {
      return 0.0;
    }
    r := dcg / idcg;
  }

  lemma {:induction false} IdealGrows(log2: Log, m: nat, n: nat)
    requires LogLike(log2) && m <= n
    ensures Ideal(log2, m) <= Ideal(log2, n)
    ensures m < n ==> Ideal(log2, m) < Ideal(log2, n)
    ensures Ideal(log2, m) >= 0.0
    decreases m, n - m
  {
    if m < n {
      IdealGrows(log2, m, n - 1);
      GainFalls(log2, n - 1, n - 1);
    } else if m > 0 {
      IdealGrows(log2, m - 1, m - 1);
      GainFalls(log2, m - 1, m - 1);
    }
  }

  /** Gain is greatest when the hits come first: the sum is at most the ideal for as many hits, with equality only
      then. */
  lemma {:induction false} DcgAgainstIdeal(log2: Log, results: seq<RetrievalResult>, relevant: set<string>, n: nat)
    requires LogLike(log2) && n <= |results|
    ensures 0.0 <= Dcg(log2, results, relevant, n) <= Ideal(log2, Hits(results, relevant, n))
    ensures Dcg(log2, results, relevant, n) == Ideal(log2, Hits(results, relevant, n)) <==>
            AllRelevant(results, relevant, Hits(results, relevant, n))
  {
    hide Gain, LogLike;
    if n > 0 {
      DcgAgainstIdeal(log2, results, relevant, n - 1);
      if results[n - 1].id in relevant {
        var h := Hits(results, relevant, n - 1);
        GainFalls(log2, h, n - 1);
        GainFalls(log2, n - 1, n - 1);
        HitsOfAll(results, relevant, n - 1);
        if AllRelevant(results, relevant, h + 1) && h < n - 1 {
          HitsOfAll(results, relevant, h + 1);
          HitsGrow(results, relevant, h + 1, n - 1);
        }
      }
    }
  }

  lemma QuotientAtMostOne(d: real, ideal: real)
    requires 0.0 <= d <= ideal && ideal > 0.0
    ensures 0.0 <= d / ideal <= 1.0
    ensures d / ideal == 1.0 <==> d == ideal
  {
  }

  /** No more hits are counted than the ideal allows for. */
  predicate HitsFit(results: seq<RetrievalResult>, relevant: set<string>, k: int) {
    Hits(results, relevant, Limit(k, |results|)) <= Limit(k, |relevant|)
  }

  /** Without repeated ids the hits always fit. */
  lemma DistinctHitsFit(results: seq<RetrievalResult>, relevant: set<string>, k: int)
    requires DistinctIds(results)
    ensures HitsFit(results, relevant, k)
  {
    HitsBounded(results, relevant, Limit(k, |results|));
  }

  /** While the hits fit, NDCG lies in [0, 1], and is 1 exactly for a perfect head. */
  lemma NdcgBounds(log2: Log, results: seq<RetrievalResult>, relevant: set<string>, k: int)
    requires LogLike(log2) && HitsFit(results, relevant, k)
    ensures 0.0 <= Ndcg(log2, results, relevant, k) <= 1.0
    ensures k > 0 && relevant != {} ==>
              (Ndcg(log2, results, relevant, k) == 1.0 <==> AllRelevant(results, relevant, Limit(k, |relevant|)))
  {
    var n, m := Limit(k, |results|), Limit(k, |relevant|);
    var h := Hits(results, relevant, n);
    DcgAgainstIdeal(log2, results, relevant, n);
    IdealGrows(log2, h, m);
    IdealGrows(log2, 0, m);
    if m > 0 {
      QuotientAtMostOne(Dcg(log2, results, relevant, n), Ideal(log2, m));
      if AllRelevant(results, relevant, m) {
        HitsOfAll(results, relevant, m);
        HitsGrow(results, relevant, m, n);
      }
    } else {
      assert relevant == {} || k <= 0;
    }
  }

  // ----- when NDCG stays within 1 -----

  /** A logarithm-like function so flat that only the number of hits matters. */
  function Flat(big: nat): Log {
    i => (big + i) as real
  }

  lemma FlatIsLogLike(big: nat)
    ensures LogLike(Flat(big))
  {
  }

  lemma FlatGain(big: nat, i: nat)
    ensures Gain(Flat(big), i) == 1.0 / (big + i + 2) as real
  {
  }

  lemma {:induction false} FlatIdeal(big: nat, n: nat)
    ensures Ideal(Flat(big), n) <= n as real * (1.0 / (big + 2) as real)
  {
    hide Gain, Flat;
    if n > 0 {
      FlatIdeal(big, n - 1);
      FlatGain(big, n - 1);
      ReciprocalOrder((big + 2) as real, (big + n + 1) as real);
    }
  }

  lemma {:induction false} FlatDcg(big: nat, results: seq<RetrievalResult>, relevant: set<string>, n: nat, last: nat)
    requires n <= last && n <= |results|
    ensures Dcg(Flat(big), results, relevant, n) >=
            Hits(results, relevant, n) as real * (1.0 / (big + last + 1) as real)
  {
    hide Gain, Flat;
    if n > 0 {
      FlatDcg(big, results, relevant, n - 1, last);
      FlatGain(big, n - 1);
      ReciprocalOrder((big + n + 1) as real, (big + last + 1) as real);
    }
  }

  lemma FlatCrossProducts(m: nat, n: nat, big: nat)
    requires big == m * (n + 1)
    ensures m as real * (big + n + 1) as real < (m + 1) as real * (big + 2) as real
  {
    assert m * (big + n + 1) == m * big + m * (n + 1);
    assert (m + 1) * (big + 2) == m * big + big + 2 * m + 2;
    ProductOfCasts(m, big + n + 1);
    ProductOfCasts(m + 1, big + 2);
  }

  lemma ProductOfCasts(a: nat, b: nat)
    ensures a as real * b as real == (a * b) as real
  {
  }

  lemma QuotientsCompare(a: real, b: real, x: real, y: real)
    requires x > 0.0 && y > 0.0 && a * y < b * x
    ensures a * (1.0 / x) < b * (1.0 / y)
  {
    var u, v := 1.0 / x, 1.0 / y;
    assert u * x == 1.0 && v * y == 1.0;
    assert (a * u) * (x * y) == (a * y) * (u * x) == a * y;
    assert (b * v) * (x * y) == (b * x) * (v * y) == b * x;
    if b * v <= a * u {
      ProductMonotone(b * v, a * u, x * y);
    }
  }

  /** h/(big + n + 1) exceeds m/(big + 2) once h > m and `big` is large enough. */
  lemma FlatCompares(h: nat, m: nat, n: nat, big: nat)
    requires h > m && big == m * (n + 1)
    ensures m as real * (1.0 / (big + 2) as real) < h as real * (1.0 / (big + n + 1) as real)
  {
    var x, y := (big + 2) as real, (big + n + 1) as real;
    FlatCrossProducts(m, n, big);
    QuotientsCompare(m as real, (m + 1) as real, x, y);
    ReciprocalOrder(1.0, y);
    ProductMonotone((m + 1) as real, h as real, 1.0 / y);
  }

  lemma QuotientAboveOne(d: real, ideal: real)
    requires d > ideal > 0.0
    ensures d / ideal > 1.0
  {
  }

  /** When the hits do not fit, the flat discount takes NDCG above 1. */
  lemma FlatExceedsOne(results: seq<RetrievalResult>, relevant: set<string>, k: int)
    requires !HitsFit(results, relevant, k)
    ensures
      var log2 := Flat(Limit(k, |relevant|) * (Limit(k, |results|) + 1));
      LogLike(log2) && Ndcg(log2, results, relevant, k) > 1.0
  {
    var n, m := Limit(k, |results|), Limit(k, |relevant|);
    var big := m * (n + 1);
    SomethingRelevant(results, relevant, n);
    FlatIsLogLike(big);
    FlatDcgExceedsIdeal(results, relevant, n, m, big);
    hide Flat, Dcg, Ideal, LogLike;
    IdealGrows(Flat(big), 0, m);
    QuotientAboveOne(Dcg(Flat(big), results, relevant, n), Ideal(Flat(big), m));
  }

  lemma FlatDcgExceedsIdeal(results: seq<RetrievalResult>, relevant: set<string>, n: nat, m: nat, big: nat)
    requires n <= |results| && Hits(results, relevant, n) > m && big == m * (n + 1)
    ensures Dcg(Flat(big), results, relevant, n) > Ideal(Flat(big), m)
  {
    hide *;
    FlatIdeal(big, m);
    FlatDcg(big, results, relevant, n, n);
    FlatCompares(Hits(results, relevant, n), m, n, big);
  }

  lemma {:induction false} SomethingRelevant(results: seq<RetrievalResult>, relevant: set<string>, n: nat)
    requires n <= |results|
    ensures Hits(results, relevant, n) > 0 ==> |relevant| > 0
  {
    if n > 0 {
      SomethingRelevant(results, relevant, n - 1);
    }
  }

  /** NDCG stays within 1 whatever the discount exactly when the hits counted are no more than the ideal allows for. */
  lemma NdcgWithinOneExactlyWhen(results: seq<RetrievalResult>, relevant: set<string>, k: int)
    ensures (forall log2 :: LogLike(log2) ==> Ndcg(log2, results, relevant, k) <= 1.0) <==>
            HitsFit(results, relevant, k)
  {
    hide LogLike, Ndcg, HitsFit;
    if HitsFit(results, relevant, k) {
      forall log2 | LogLike(log2)
        ensures Ndcg(log2, results, relevant, k) <= 1.0
      {
        NdcgBounds(log2, results, relevant, k);
      }
    } else {
      FlatExceedsOne(results, relevant, k);
    }
  }

  /** A head of more relevant results than there are relevant documents exceeds 1 under every discount. */
  lemma RepeatedHeadExceedsOne(log2: Log, results: seq<RetrievalResult>, relevant: set<string>, k: int)
    requires LogLike(log2) && relevant != {} && |relevant| < k
    requires AllRelevant(results, relevant, |relevant| + 1)
    ensures Ndcg(log2, results, relevant, k) > 1.0
  {
    var n, m := Limit(k, |results|), |relevant|;
    HitsOfAll(results, relevant, m + 1);
    DcgAgainstIdeal(log2, results, relevant, m + 1);
    DcgGrows(log2, results, relevant, m + 1, n);
    IdealGrows(log2, m, m + 1);
    IdealGrows(log2, 0, m);
    hide Dcg, Ideal;
    QuotientAboveOne(Dcg(log2, results, relevant, n), Ideal(log2, m));
  }

  lemma {:induction false} DcgGrows(log2: Log, results: seq<RetrievalResult>, relevant: set<string>, m: nat, n: nat)
    requires LogLike(log2) && m <= n <= |results|
    ensures Dcg(log2, results, relevant, m) <= Dcg(log2, results, relevant, n)
    decreases n - m
  {
    hide Gain, LogLike;
    if m < n {
      DcgGrows(log2, results, relevant, m, n - 1);
      GainFalls(log2, n - 1, n - 1);
    }
  }

  // ----- average precision -----

  function PrecisionSum(results: seq<RetrievalResult>, relevant: set<string>, n: nat): real
    requires n <= |results|
  {
    if n == 0 then 0.0
    else PrecisionSum(results, relevant, n - 1) +
         if results[n - 1].id in relevant then Fraction(Hits(results, relevant, n), n) else 0.0
  }

  function Average(results: seq<RetrievalResult>, relevant: set<string>): real {
    if relevant == {} then 0.0 else PrecisionSum(results, relevant, |results|) / |relevant| as real
  }

  method AveragePrecision(results: seq<RetrievalResult>, relevant: set<string>) returns (r: real)
    ensures r == Average(results, relevant)
  {
    if |relevant| == 0 {
      return 0.0;
    }
    var sum := 0.0;
    var relevantCount := 0;
    for i := 0 to |results|
      invariant relevantCount == Hits(results, relevant, i)
      invariant sum == PrecisionSum(results, relevant, i)
    {
      if results[i].id in relevant {
        relevantCount := relevantCount + 1;
        sum := sum + relevantCount as real / (i + 1) as real;
      }
    }
    r := sum / |relevant| as real;
  }

  /** Each hit contributes at most 1; all contribute 1 exactly when the hits come first. */
  lemma {:induction false} PrecisionSumBounds(results: seq<RetrievalResult>, relevant: set<string>, n: nat)
    requires n <= |results|
    ensures 0.0 <= PrecisionSum(results, relevant, n) <= Hits(results, relevant, n) as real
    ensures PrecisionSum(results, relevant, n) == Hits(results, relevant, n) as real <==>
            AllRelevant(results, relevant, Hits(results, relevant, n))
  {
    if n > 0 {
      PrecisionSumBounds(results, relevant, n - 1);
      if results[n - 1].id in relevant {
        var h := Hits(results, relevant, n - 1);
        FractionBounds(h + 1, n);
        HitsOfAll(results, relevant, n - 1);
        if AllRelevant(results, relevant, h + 1) && h < n - 1 {
          HitsOfAll(results, relevant, h + 1);
          HitsGrow(results, relevant, h + 1, n - 1);
        }
      }
    }
  }

  /** With distinct results average precision lies in [0, 1], and is 1 exactly when every relevant document heads the
      list. */
  lemma AverageBounds(results: seq<RetrievalResult>, relevant: set<string>)
    requires DistinctIds(results)
    ensures 0.0 <= Average(results, relevant) <= 1.0
    ensures relevant != {} ==> (Average(results, relevant) == 1.0 <==> AllRelevant(results, relevant, |relevant|))
  {
    var n := |results|;
    HitsBounded(results, relevant, n);
    PrecisionSumBounds(results, relevant, n);
    if relevant != {} {
      assert |relevant| > 0;
      QuotientAtMostOne(PrecisionSum(results, relevant, n), |relevant| as real);
      if AllRelevant(results, relevant, |relevant|) {
        HitsOfAll(results, relevant, |relevant|);
        HitsGrow(results, relevant, |relevant|, n);
      }
    }
  }

  /** Precision, recall and hit rate are fractions, and recall and hit rate do not fall as k grows. */
  lemma TopKBounds(results: seq<RetrievalResult>, relevant: set<string>, k: int, k': int, total: nat)
    requires DistinctIds(results) && |relevant| <= total && k <= k'
    ensures 0.0 <= Precision(results, relevant, k) <= 1.0
    ensures 0.0 <= Recall(results, relevant, k, total) <= Recall(results, relevant, k', total) <= 1.0
    ensures Hit(results, relevant, k) <= Hit(results, relevant, k')
  {
    var n, n' := Limit(k, |results|), Limit(k', |results|);
    HitsBounded(results, relevant, n');
    HitsGrow(results, relevant, n, n');
    if k > 0 {
      FractionBounds(Hits(results, relevant, n), k);
    }
    if total > 0 {
      FractionBounds(Hits(results, relevant, n), total);
      FractionBounds(Hits(results, relevant, n'), total);
      FractionOrder(Hits(results, relevant, n), Hits(results, relevant, n'), total);
    }
  }

  lemma FractionOrder(a: nat, b: nat, of: nat)
    requires a <= b && 0 < of
    ensures Fraction(a, of) <= Fraction(b, of)
  {
  }
}
