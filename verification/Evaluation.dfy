/** The evaluation report: every metric averaged over a batch of queries, and latency percentiles. */
module Evaluation {
  import opened Metrics
  import opened Percentiles

  datatype QueryResult = QueryResult(results: seq<RetrievalResult>, relevantIds: seq<string>, latencyMs: int)

  datatype Metric =
    | PrecisionAt(k: int) | RecallAt(k: int) | HitAt(k: int) | ReciprocalRankOf | NdcgAt(k: int) | AveragePrecisionOf

  /** The averaged metrics, in the order they are reported. */
  const REPORTED := [
    PrecisionAt(1), PrecisionAt(3), PrecisionAt(5), PrecisionAt(10),
    RecallAt(1), RecallAt(3), RecallAt(5), RecallAt(10),
    HitAt(1), HitAt(3), HitAt(5), HitAt(10),
    ReciprocalRankOf, NdcgAt(5), NdcgAt(10), AveragePrecisionOf]

  datatype Report = Report(
    averages: seq<real>,
    meanLatency: real,
    medianLatency: real,
    p95Latency: real,
    p99Latency: real,
    totalQueries: nat,
    queriesWithHits: nat)

  function RelevantSet(ids: seq<string>): set<string> {
    set id | id in ids
  }

  lemma RelevantAreListed(ids: seq<string>, id: string)
    ensures id in RelevantSet(ids) <==> id in ids
  {
  }

  /** One query's score; recall is only counted when something is relevant. */
  function Score(log2: Log, m: Metric, q: QueryResult): real {
    var relevant := RelevantSet(q.relevantIds);
    match m
    case PrecisionAt(k) => Precision(q.results, relevant, k)
    case RecallAt(k) => Recall(q.results, relevant, k, |q.relevantIds|)
    case HitAt(k) => Hit(q.results, relevant, k)
    case ReciprocalRankOf => Reciprocal(q.results, relevant)
    case NdcgAt(k) => Ndcg(log2, q.results, relevant, k)
    case AveragePrecisionOf => Average(q.results, relevant)
  }

  function ScoreSum(log2: Log, m: Metric, qs: seq<QueryResult>): real {
    if qs == [] then 0.0 else ScoreSum(log2, m, qs[..|qs| - 1]) + Score(log2, m, qs[|qs| - 1])
  }

  function ScoreMean(log2: Log, m: Metric, qs: seq<QueryResult>): real
    requires qs != []
  {
    ScoreSum(log2, m, qs) / |qs| as real
  }

  function HitCount(qs: seq<QueryResult>): nat {
    if qs == [] then 0
    else
      var q := qs[|qs| - 1];
      HitCount(qs[..|qs| - 1]) + if Hit(q.results, RelevantSet(q.relevantIds), 10) > 0.0 then 1 else 0
  }

  function Latencies(qs: seq<QueryResult>): (r: seq<real>)
    ensures |r| == |qs|
  {
    seq(|qs|, i requires 0 <= i < |qs| => qs[i].latencyMs as real)
  }

  function Sum(values: seq<real>): real {
    if values == [] then 0.0 else Sum(values[..|values| - 1]) + values[|values| - 1]
  }

  method Mean(values: seq<real>) returns (r: real)
    ensures r == if values == [] then 0.0 else Sum(values) / |values| as real
  {
    if |values| == 0 {
      return 0.0;
    }
    var sum := 0.0;
    for i := 0 to |values|
      invariant sum == Sum(values[..i])
    {
      assert values[..i + 1][..i] == values[..i];
      sum := sum + values[i];
    }
    assert values[..|values|] == values;
    r := sum / |values| as real;
  }

  method ScoreQuery(log2: Log, m: Metric, q: QueryResult) returns (score: real)
    requires LogLike(log2)
    ensures score == Score(log2, m, q)
  {
    var relevant := RelevantSet(q.relevantIds);
    match m
    case PrecisionAt(k) => score := PrecisionAtK(q.results, relevant, k);
    case RecallAt(k) =>
      if |q.relevantIds| > 0 {
        score := RecallAtK(q.results, relevant, k, |q.relevantIds|);
      } else {
        score := 0.0;
      }
    case HitAt(k) => score := HitAtK(q.results, relevant, k);
    case ReciprocalRankOf => score := ReciprocalRank(q.results, relevant);
    case NdcgAt(k) => score := NdcgAtK(log2, q.results, relevant, k);
    case AveragePrecisionOf => score := AveragePrecision(q.results, relevant);
  }

  /** Adds one query's scores to the running sums. */
  method AddQuery(log2: Log, q: QueryResult, sums: seq<real>) returns (sums': seq<real>)
    requires LogLike(log2) && |sums| == |REPORTED|
    ensures |sums'| == |sums| && forall i :: 0 <= i < |sums| ==> sums'[i] == sums[i] + Score(log2, REPORTED[i], q)
  {
    hide Score;
    sums' := sums;
    for i := 0 to |REPORTED|
      invariant |sums'| == |sums|
      invariant forall j :: 0 <= j < i ==> sums'[j] == sums[j] + Score(log2, REPORTED[j], q)
      invariant forall j :: i <= j < |sums| ==> sums'[j] == sums[j]
    {
      var score := ScoreQuery(log2, REPORTED[i], q);
      sums' := sums'[i := sums'[i] + score];
    }
  }

  /** A hit at any reported cut-off is a hit in the top ten. */
  lemma HitsNest(q: QueryResult)
    ensures
      var relevant := RelevantSet(q.relevantIds);
      (Hit(q.results, relevant, 1) > 0.0 || Hit(q.results, relevant, 3) > 0.0 ||
       Hit(q.results, relevant, 5) > 0.0 || Hit(q.results, relevant, 10) > 0.0) <==> Hit(q.results, relevant, 10) > 0.0
  {
    var relevant, n := RelevantSet(q.relevantIds), |q.results|;
    HitsGrow(q.results, relevant, Limit(1, n), Limit(10, n));
    HitsGrow(q.results, relevant, Limit(3, n), Limit(10, n));
    HitsGrow(q.results, relevant, Limit(5, n), Limit(10, n));
  }

  method HasHit(q: QueryResult) returns (b: bool)
    ensures b <==> Hit(q.results, RelevantSet(q.relevantIds), 10) > 0.0
  {
    var relevant := RelevantSet(q.relevantIds);
    var hitAt1 := HitAtK(q.results, relevant, 1);
    var hitAt3 := HitAtK(q.results, relevant, 3);
    var hitAt5 := HitAtK(q.results, relevant, 5);
    var hitAt10 := HitAtK(q.results, relevant, 10);
    HitsNest(q);
    b := hitAt1 > 0.0 || hitAt3 > 0.0 || hitAt5 > 0.0 || hitAt10 > 0.0;
  }

  /** The averages in the order of the report: precision, recall and hit rate at 1, 3, 5 and 10, reciprocal rank,
      NDCG at 5 and 10, average precision. */
  ghost predicate ReportedInOrder(log2: Log, qs: seq<QueryResult>, averages: seq<real>)
    requires qs != []
  {
    averages == [
      ScoreMean(log2, PrecisionAt(1), qs), ScoreMean(log2, PrecisionAt(3), qs),
      ScoreMean(log2, PrecisionAt(5), qs), ScoreMean(log2, PrecisionAt(10), qs),
      ScoreMean(log2, RecallAt(1), qs), ScoreMean(log2, RecallAt(3), qs),
      ScoreMean(log2, RecallAt(5), qs), ScoreMean(log2, RecallAt(10), qs),
      ScoreMean(log2, HitAt(1), qs), ScoreMean(log2, HitAt(3), qs),
      ScoreMean(log2, HitAt(5), qs), ScoreMean(log2, HitAt(10), qs),
      ScoreMean(log2, ReciprocalRankOf, qs),
      ScoreMean(log2, NdcgAt(5), qs), ScoreMean(log2, NdcgAt(10), qs),
      ScoreMean(log2, AveragePrecisionOf, qs)]
  }

  lemma AveragesInOrder(log2: Log, qs: seq<QueryResult>, averages: seq<real>)
    requires qs != [] && |averages| == |REPORTED|
    requires forall i :: 0 <= i < |REPORTED| ==> averages[i] == ScoreMean(log2, REPORTED[i], qs)
    ensures ReportedInOrder(log2, qs, averages)
  {
    hide ScoreMean;
  }

  method Calculate(log2: Log, sort: Sorter, qs: seq<QueryResult>) returns (report: Report)
    requires LogLike(log2) && Sorts(sort)
    ensures qs == [] ==> report == Report([], 0.0, 0.0, 0.0, 0.0, 0, 0)
    ensures qs != [] ==>
              && |report.averages| == |REPORTED|
              && (forall i :: 0 <= i < |REPORTED| ==> report.averages[i] == ScoreMean(log2, REPORTED[i], qs))
              && ReportedInOrder(log2, qs, report.averages)
              && report.meanLatency == Sum(Latencies(qs)) / |qs| as real
              && report.medianLatency == PercentileOf(sort, Latencies(qs), 50.0)
              && report.p95Latency == PercentileOf(sort, Latencies(qs), 95.0)
              && report.p99Latency == PercentileOf(sort, Latencies(qs), 99.0)
              && report.totalQueries == |qs| && report.queriesWithHits == HitCount(qs)
  {
    if |qs| == 0 {
      return Report([], 0.0, 0.0, 0.0, 0.0, 0, 0);
    }
    hide Score, Hit, PercentileOf, ReportedInOrder;
    var sums := seq(|REPORTED|, _ => 0.0);
    var latencies: seq<real> := [];
    var hits := 0;
    for i := 0 to |qs|
      invariant |sums| == |REPORTED|
      invariant forall j :: 0 <= j < |sums| ==> sums[j] == ScoreSum(log2, REPORTED[j], qs[..i])
      invariant latencies == Latencies(qs[..i])
      invariant hits == HitCount(qs[..i])
    {
      assert qs[..i + 1][..i] == qs[..i];
      sums := AddQuery(log2, qs[i], sums);
      var hit := HasHit(qs[i]);
      if hit {
        hits := hits + 1;
      }
      latencies := latencies + [qs[i].latencyMs as real];
    }
    assert qs[..|qs|] == qs;
    var n := |qs| as real;
    var averages := seq(|REPORTED|, j requires 0 <= j < |sums| => sums[j] / n);
    AveragesInOrder(log2, qs, averages);
    var mean := Mean(latencies);
    var median := Percentile(sort, latencies, 50.0);
    var p95 := Percentile(sort, latencies, 95.0);
    var p99 := Percentile(sort, latencies, 99.0);
    report := Report(averages, mean, median, p95, p99, |qs|, hits);
  }

  // ----- what the report guarantees -----

  lemma IdsCount(ids: seq<string>)
    ensures |RelevantSet(ids)| <= |ids|
  {
    if ids != [] {
      IdsCount(ids[1..]);
      assert RelevantSet(ids) == {ids[0]} + RelevantSet(ids[1..]);
    }
  }

  lemma ScoreInUnit(log2: Log, m: Metric, q: QueryResult)
    requires LogLike(log2) && DistinctIds(q.results)
    ensures 0.0 <= Score(log2, m, q) <= 1.0
  {
    var relevant := RelevantSet(q.relevantIds);
    IdsCount(q.relevantIds);
    match m
    case PrecisionAt(k) => TopKBounds(q.results, relevant, k, k, |q.relevantIds|);
    case RecallAt(k) => TopKBounds(q.results, relevant, k, k, |q.relevantIds|);
    case HitAt(k) =>
    case ReciprocalRankOf => HitMeansRank(q.results, relevant, 1);
    case NdcgAt(k) =>
      DistinctHitsFit(q.results, relevant, k);
      NdcgBounds(log2, q.results, relevant, k);
    case AveragePrecisionOf => AverageBounds(q.results, relevant);
  }

  lemma {:induction false} SumInRange(log2: Log, m: Metric, qs: seq<QueryResult>)
    requires LogLike(log2) && forall i :: 0 <= i < |qs| ==> DistinctIds(qs[i].results)
    ensures 0.0 <= ScoreSum(log2, m, qs) <= |qs| as real
  {
    hide Score;
    if qs != [] {
      SumInRange(log2, m, qs[..|qs| - 1]);
      ScoreInUnit(log2, m, qs[|qs| - 1]);
    }
  }

  /** Every averaged metric lies in [0, 1] when each query's results are distinct. */
  lemma MeanInUnit(log2: Log, m: Metric, qs: seq<QueryResult>)
    requires LogLike(log2) && qs != [] && forall i :: 0 <= i < |qs| ==> DistinctIds(qs[i].results)
    ensures 0.0 <= ScoreMean(log2, m, qs) <= 1.0
  {
    SumInRange(log2, m, qs);
    QuotientAtMostOne(ScoreSum(log2, m, qs), |qs| as real);
  }

  /** Averaged recall and hit rate do not fall from one cut-off to a larger one. */
  lemma {:induction false} SumsNest(log2: Log, k: int, k': int, qs: seq<QueryResult>)
    requires k <= k' && forall i :: 0 <= i < |qs| ==> DistinctIds(qs[i].results)
    ensures ScoreSum(log2, RecallAt(k), qs) <= ScoreSum(log2, RecallAt(k'), qs)
    ensures ScoreSum(log2, HitAt(k), qs) <= ScoreSum(log2, HitAt(k'), qs)
  {
    if qs != [] {
      SumsNest(log2, k, k', qs[..|qs| - 1]);
      var q := qs[|qs| - 1];
      IdsCount(q.relevantIds);
      TopKBounds(q.results, RelevantSet(q.relevantIds), k, k', |q.relevantIds|);
    }
  }

  /** The reported latency percentiles are ordered. */
  lemma LatencyOrder(sort: Sorter, qs: seq<QueryResult>)
    requires Sorts(sort)
    ensures PercentileOf(sort, Latencies(qs), 50.0) <= PercentileOf(sort, Latencies(qs), 95.0)
    ensures PercentileOf(sort, Latencies(qs), 95.0) <= PercentileOf(sort, Latencies(qs), 99.0)
  {
    PercentileMonotone(sort, Latencies(qs), 50.0, 95.0);
    PercentileMonotone(sort, Latencies(qs), 95.0, 99.0);
  }
}
