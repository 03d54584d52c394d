/** Reciprocal rank fusion of a semantic and a keyword result list. */
module Fusion {
  import opened Common
  import opened RealArithmetic

  type ChunkId = string

  datatype Chunk = Chunk(id: ChunkId, content: string, similarity: real)

  datatype Weights = Weights(semantic: real, keyword: real, k: nat)

  datatype Item = Item(chunk: Chunk, score: real)

  // ----- the score of a chunk -----

  function RankScore(weight: real, k: nat, rank: nat): real {
    weight * (1.0 / (k + rank + 1) as real)
  }

  /** Weighted reciprocal ranks of all occurrences of `id` among the first `n` of a list. */
  function ListScore(weight: real, k: nat, list: seq<Chunk>, id: ChunkId, n: nat): real
    requires n <= |list|
  {
    if n == 0 then 0.0
    else ListScore(weight, k, list, id, n - 1) + if list[n - 1].id == id then RankScore(weight, k, n - 1) else 0.0
  }

  function FusedScore(w: Weights, semantic: seq<Chunk>, keyword: seq<Chunk>, id: ChunkId): real {
    ListScore(w.semantic, w.k, semantic, id, |semantic|) + ListScore(w.keyword, w.k, keyword, id, |keyword|)
  }

  /** The first chunk carrying an id, if any. */
  function Find(list: seq<Chunk>, id: ChunkId): (r: Option<Chunk>)
    ensures r.Some? ==> r.value.id == id
    ensures r.Some? <==> exists i :: 0 <= i < |list| && list[i].id == id
  {
    if list == [] then None
    else
      var last := list[|list| - 1];
      var earlier := Find(list[..|list| - 1], id);
      if earlier.Some? then
        (assert exists i :: 0 <= i < |list| - 1 && list[..|list| - 1][i].id == id && list[i].id == id; earlier)
      else if last.id == id then Some(last)
      else
        assert forall i :: 0 <= i < |list| - 1 ==> list[i] == list[..|list| - 1][i];
        None
  }

  function Union(semantic: seq<Chunk>, keyword: seq<Chunk>): set<ChunkId> {
    set c | c in semantic + keyword :: c.id
  }

  // ----- accumulation -----

  type Scores = map<ChunkId, Item>

  /** The table built from the chunks seen so far: one entry an id, with that id's first chunk and its total score. */
  ghost predicate Accumulated(scores: Scores, seen: seq<Chunk>, total: ChunkId -> real) {
    && (forall id :: id in scores <==> Find(seen, id).Some?)
    && forall id :: id in scores ==>
         && scores[id].chunk.id == id && scores[id].score == total(id)
         && scores[id].chunk.content == Find(seen, id).value.content
  }

  function Accumulate(scores: Scores, c: Chunk, score: real, keepHigher: bool): Scores {
    if c.id in scores then
      var item := scores[c.id];
      var higher := keepHigher && c.similarity > item.chunk.similarity;
      var similarity := if higher then c.similarity else item.chunk.similarity;
      scores[c.id := Item(item.chunk.(similarity := similarity), item.score + score)]
    else scores[c.id := Item(c, score)]
  }

  lemma FindAppend(seen: seq<Chunk>, c: Chunk, id: ChunkId)
    ensures Find(seen + [c], id) ==
            if Find(seen, id).Some? then Find(seen, id) else if c.id == id then Some(c) else None
  {
    assert (seen + [c])[..|seen|] == seen;
  }

  lemma AccumulateKeeps(scores: Scores, seen: seq<Chunk>, total: ChunkId -> real, c: Chunk, score: real,
                        keepHigher: bool, total': ChunkId -> real)
    requires Accumulated(scores, seen, total)
    requires forall id :: total'(id) == total(id) + if c.id == id then score else 0.0
    requires Find(seen, c.id).None? ==> total(c.id) == 0.0
    ensures Accumulated(Accumulate(scores, c, score, keepHigher), seen + [c], total')
  {
    forall id: ChunkId
      ensures Find(seen + [c], id) ==
            if Find(seen, id).Some? then Find(seen, id) else if c.id == id then Some(c) else None
    {
      FindAppend(seen, c, id);
    }
    hide Find;
  }

  lemma {:induction false} NoScoreUnseen(weight: real, k: nat, list: seq<Chunk>, id: ChunkId, n: nat)
    requires n <= |list| && forall i :: 0 <= i < n ==> list[i].id != id
    ensures ListScore(weight, k, list, id, n) == 0.0
  {
    if n > 0 {
      NoScoreUnseen(weight, k, list, id, n - 1);
    }
  }

  ghost function Total(w: Weights, semantic: seq<Chunk>, s: nat, keyword: seq<Chunk>, n: nat): ChunkId -> real
    requires s <= |semantic| && n <= |keyword|
  {
    id => ListScore(w.semantic, w.k, semantic, id, s) + ListScore(w.keyword, w.k, keyword, id, n)
  }

  lemma SeenPrefixes(w: Weights, semantic: seq<Chunk>, s: nat, keyword: seq<Chunk>, n: nat, id: ChunkId)
    requires s <= |semantic| && n <= |keyword| && Find(semantic[..s] + keyword[..n], id).None?
    ensures Total(w, semantic, s, keyword, n)(id) == 0.0
  {
    var seen := semantic[..s] + keyword[..n];
    forall i | 0 <= i < s ensures semantic[i].id != id { assert seen[i] == semantic[i]; }
    forall i | 0 <= i < n ensures keyword[i].id != id { assert seen[s + i] == keyword[i]; }
    NoScoreUnseen(w.semantic, w.k, semantic, id, s);
    NoScoreUnseen(w.keyword, w.k, keyword, id, n);
  }

  method Score(w: Weights, semantic: seq<Chunk>, keyword: seq<Chunk>) returns (scores: Scores)
    ensures Accumulated(scores, semantic + keyword, Total(w, semantic, |semantic|, keyword, |keyword|))
  {
    hide Find, Accumulated, ListScore;
    scores := map[];
    StartAccumulating(w, semantic, keyword);
    for rank := 0 to |semantic|
      invariant Accumulated(scores, semantic[..rank] + keyword[..0], Total(w, semantic, rank, keyword, 0))
    {
      NextSemantic(w, semantic, rank, keyword, scores);
      scores := Accumulate(scores, semantic[rank], RankScore(w.semantic, w.k, rank), false);
    }
    for rank := 0 to |keyword|
      invariant Accumulated(scores, semantic[..|semantic|] + keyword[..rank],
                            Total(w, semantic, |semantic|, keyword, rank))
    {
      NextKeyword(w, semantic, keyword, rank, scores);
      scores := Accumulate(scores, keyword[rank], RankScore(w.keyword, w.k, rank), true);
    }
    assert semantic[..|semantic|] == semantic && keyword[..|keyword|] == keyword;
  }

  lemma StartAccumulating(w: Weights, semantic: seq<Chunk>, keyword: seq<Chunk>)
    ensures Accumulated(map[], semantic[..0] + keyword[..0], Total(w, semantic, 0, keyword, 0))
  {
  }

  lemma NextSemantic(w: Weights, semantic: seq<Chunk>, s: nat, keyword: seq<Chunk>, scores: Scores)
    requires s < |semantic| && Accumulated(scores, semantic[..s] + keyword[..0], Total(w, semantic, s, keyword, 0))
    ensures Accumulated(Accumulate(scores, semantic[s], RankScore(w.semantic, w.k, s), false),
                        semantic[..s + 1] + keyword[..0], Total(w, semantic, s + 1, keyword, 0))
  {
    var c, seen := semantic[s], semantic[..s] + keyword[..0];
    hide Accumulated;
    assert seen + [c] == semantic[..s + 1] + keyword[..0];
    if Find(seen, c.id).None? {
      SeenPrefixes(w, semantic, s, keyword, 0, c.id);
    }
    hide Find;
    AccumulateKeeps(scores, seen, Total(w, semantic, s, keyword, 0), c, RankScore(w.semantic, w.k, s), false,
                    Total(w, semantic, s + 1, keyword, 0));
  }

  lemma NextKeyword(w: Weights, semantic: seq<Chunk>, keyword: seq<Chunk>, n: nat, scores: Scores)
    requires n < |keyword|
    requires Accumulated(scores, semantic[..|semantic|] + keyword[..n], Total(w, semantic, |semantic|, keyword, n))
    ensures Accumulated(Accumulate(scores, keyword[n], RankScore(w.keyword, w.k, n), true),
                        semantic[..|semantic|] + keyword[..n + 1], Total(w, semantic, |semantic|, keyword, n + 1))
  {
    var c, seen := keyword[n], semantic[..|semantic|] + keyword[..n];
    hide Accumulated;
    assert seen + [c] == semantic[..|semantic|] + keyword[..n + 1];
    if Find(seen, c.id).None? {
      SeenPrefixes(w, semantic, |semantic|, keyword, n, c.id);
    }
    hide Find;
    AccumulateKeeps(scores, seen, Total(w, semantic, |semantic|, keyword, n), c, RankScore(w.keyword, w.k, n), true,
                    Total(w, semantic, |semantic|, keyword, n + 1));
  }

  // ----- selection -----

  predicate Descending(items: seq<Item>) {
    forall i, j :: 0 <= i < j < |items| ==> items[i].score >= items[j].score
  }

  /** The library's sort by descending score; it may place equal scores in any order. */
  type Sorter = seq<Item> -> seq<Item>

  ghost predicate Sorts(sort: Sorter) {
    forall items :: Descending(sort(items)) && multiset(sort(items)) == multiset(items)
  }

  /** The table's items in whatever order the map is walked. */
  method Items(scores: Scores) returns (items: seq<Item>)
    requires forall id :: id in scores ==> scores[id].chunk.id == id
    ensures |items| == |scores|
    ensures forall i :: 0 <= i < |items| ==> items[i].chunk.id in scores && items[i] == scores[items[i].chunk.id]
    ensures forall i, j :: 0 <= i < j < |items| ==> items[i].chunk.id != items[j].chunk.id
    ensures forall id :: id in scores ==> scores[id] in items
  {
    items := [];
    var todo := scores.Keys;
    while todo != {}
      invariant todo <= scores.Keys && |items| + |todo| == |scores.Keys|
      invariant forall i :: 0 <= i < |items| ==>
                  items[i].chunk.id in scores && items[i].chunk.id !in todo && items[i] == scores[items[i].chunk.id]
      invariant forall i, j :: 0 <= i < j < |items| ==> items[i].chunk.id != items[j].chunk.id
      invariant forall id :: id in scores && id !in todo ==> scores[id] in items
      decreases todo
    {
      var id :| id in todo;
      items := items + [scores[id]];
      todo := todo - {id};
    }
  }

  predicate DistinctItems(items: seq<Item>) {
    forall i, j :: 0 <= i < j < |items| ==> items[i].chunk.id != items[j].chunk.id
  }

  lemma {:induction false} CountsOnce(items: seq<Item>, x: Item)
    requires DistinctItems(items)
    ensures multiset(items)[x] <= 1
  {
    if items != [] {
      var front, last := items[..|items| - 1], items[|items| - 1];
      CountsOnce(front, x);
      assert items == front + [last];
      forall i | 0 <= i < |front|
        ensures front[i] != last
      {
        assert items[i].chunk.id != items[|items| - 1].chunk.id;
      }
      assert last !in multiset(front);
    }
  }

  lemma CountsTwice(items: seq<Item>, i: nat, j: nat)
    requires i < j < |items| && items[i] == items[j]
    ensures multiset(items)[items[i]] >= 2
  {
    assert items == items[..j] + items[j..];
    assert items[i] == items[..j][i] && items[j] == items[j..][0];
    assert items[i] in multiset(items[..j]) && items[j] in multiset(items[j..]);
  }

  /** Rearranging keeps the ids distinct. */
  lemma SortedStaysDistinct(items: seq<Item>, sorted: seq<Item>)
    requires DistinctItems(items) && multiset(sorted) == multiset(items)
    ensures DistinctItems(sorted) && |sorted| == |items|
    ensures forall x :: x in sorted <==> x in items
  {
    assert |multiset(sorted)| == |sorted| && |multiset(items)| == |items|;
    forall x: Item
      ensures x in sorted <==> x in items
    {
      assert x in sorted <==> x in multiset(sorted);
      assert x in items <==> x in multiset(items);
    }
    forall i, j | 0 <= i < j < |sorted|
      ensures sorted[i].chunk.id != sorted[j].chunk.id
    {
      if sorted[i].chunk.id == sorted[j].chunk.id {
        assert sorted[i] in sorted && sorted[j] in sorted;
        var p :| 0 <= p < |items| && items[p] == sorted[i];
        var q :| 0 <= q < |items| && items[q] == sorted[j];
        assert p == q;
        CountsTwice(sorted, i, j);
        CountsOnce(items, sorted[i]);
      }
    }
  }

  /** What fusion promises about its result `r`. */
  ghost predicate IsTopFusion(w: Weights, semantic: seq<Chunk>, keyword: seq<Chunk>, topK: nat, r: seq<Chunk>) {
    var all := Union(semantic, keyword);
    // as many chunks as asked for, or all there are, each id once
    && |r| == (if topK < |all| then topK else |all|)
    && (forall i, j :: 0 <= i < j < |r| ==> r[i].id != r[j].id)
    // each carries its fused score and the content it first came with
    && (forall i :: 0 <= i < |r| ==>
          && r[i].id in all
          && r[i].similarity == FusedScore(w, semantic, keyword, r[i].id) * 100.0
          && Find(semantic + keyword, r[i].id).Some?
          && r[i].content == Find(semantic + keyword, r[i].id).value.content)
    // best first, and nothing left out scores more
    && (forall i, j :: 0 <= i < j < |r| ==> r[i].similarity >= r[j].similarity)
    && (forall id, i :: id in all && (forall j :: 0 <= j < |r| ==> r[j].id != id) && 0 <= i < |r| ==>
          FusedScore(w, semantic, keyword, id) * 100.0 <= r[i].similarity)
  }

  function Finished(x: Item): Chunk {
    x.chunk.(similarity := x.score * 100.0)
  }

  lemma KeysAreUnion(scores: Scores, semantic: seq<Chunk>, keyword: seq<Chunk>, total: ChunkId -> real)
    requires Accumulated(scores, semantic + keyword, total)
    ensures scores.Keys == Union(semantic, keyword)
  {
    var all := semantic + keyword;
    forall id: ChunkId
      ensures id in scores <==> id in Union(semantic, keyword)
    {
      if id in scores {
        var i :| 0 <= i < |all| && all[i].id == id;
        assert all[i] in all;
      }
    }
  }

  /** The table's entries in order of score, each id once. */
  ghost predicate Ranked(scores: Scores, sorted: seq<Item>) {
    && Descending(sorted) && DistinctItems(sorted) && |sorted| == |scores|
    && (forall x :: x in sorted ==> x.chunk.id in scores && x == scores[x.chunk.id])
    && forall id :: id in scores ==> scores[id] in sorted
  }

  lemma RankedAt(scores: Scores, sorted: seq<Item>, i: nat)
    requires Ranked(scores, sorted) && i < |sorted|
    ensures sorted[i].chunk.id in scores && sorted[i] == scores[sorted[i].chunk.id]
  {
    assert sorted[i] in sorted;
  }

  lemma LeftOutScoresLess(scores: Scores, sorted: seq<Item>, n: nat, id: ChunkId, i: nat)
    requires Ranked(scores, sorted) && i < n <= |sorted| && id in scores && scores[id].chunk.id == id
    requires forall j :: 0 <= j < n ==> sorted[j].chunk.id != id
    ensures scores[id].score <= sorted[i].score
  {
    assert scores[id] in sorted;
    var p :| 0 <= p < |sorted| && sorted[p] == scores[id];
    RankedAt(scores, sorted, p);
    EntryPosition(scores, sorted, id, p);
    assert i < p;
  }

  lemma EntryPosition(scores: Scores, sorted: seq<Item>, id: ChunkId, p: nat)
    requires Ranked(scores, sorted) && id in scores && scores[id].chunk.id == id
    requires p < |sorted| && sorted[p] == scores[id]
    ensures sorted[p].chunk.id == id
  {
  }

  lemma EntryScore(w: Weights, semantic: seq<Chunk>, keyword: seq<Chunk>, scores: Scores, id: ChunkId)
    requires Accumulated(scores, semantic + keyword, Total(w, semantic, |semantic|, keyword, |keyword|)) && id in scores
    ensures scores[id].score == FusedScore(w, semantic, keyword, id) && scores[id].chunk.id == id
    ensures Find(semantic + keyword, id).Some? && scores[id].chunk.content == Find(semantic + keyword, id).value.content
  {
    hide Find, ListScore;
  }

  lemma TopOfSorted(w: Weights, semantic: seq<Chunk>, keyword: seq<Chunk>, topK: nat, scores: Scores, sorted: seq<Item>,
                    r: seq<Chunk>)
    requires Accumulated(scores, semantic + keyword, Total(w, semantic, |semantic|, keyword, |keyword|))
    requires Ranked(scores, sorted) && |r| == (if topK < |sorted| then topK else |sorted|)
    requires forall i :: 0 <= i < |r| ==> r[i] == Finished(sorted[i])
    ensures IsTopFusion(w, semantic, keyword, topK, r)
  {
    hide *;
    KeysAreUnion(scores, semantic, keyword, Total(w, semantic, |semantic|, keyword, |keyword|));
    TopEntries(w, semantic, keyword, scores, sorted, r);
    TopCount(scores, sorted, Union(semantic, keyword));
    forall id, i | id in scores && (forall j :: 0 <= j < |r| ==> r[j].id != id) && 0 <= i < |r|
      ensures FusedScore(w, semantic, keyword, id) * 100.0 <= r[i].similarity
    {
      EntryScore(w, semantic, keyword, scores, id);
      LeftOutScoresLess(scores, sorted, |r|, id, i);
    }
    Promised(w, semantic, keyword, topK, r);
  }

  lemma TopCount(scores: Scores, sorted: seq<Item>, all: set<ChunkId>)
    requires Ranked(scores, sorted) && scores.Keys == all
    ensures |sorted| == |all|
  {
    assert |scores| == |scores.Keys|;
  }

  /** What the entries promise one by one. */
  lemma TopEntries(w: Weights, semantic: seq<Chunk>, keyword: seq<Chunk>, scores: Scores, sorted: seq<Item>,
                   r: seq<Chunk>)
    requires Accumulated(scores, semantic + keyword, Total(w, semantic, |semantic|, keyword, |keyword|))
    requires Ranked(scores, sorted) && |r| <= |sorted|
    requires forall i :: 0 <= i < |r| ==> r[i] == Finished(sorted[i])
    ensures forall i :: 0 <= i < |r| ==>
              && r[i].id == sorted[i].chunk.id && r[i].id in scores
              && r[i].similarity == sorted[i].score * 100.0 == FusedScore(w, semantic, keyword, r[i].id) * 100.0
              && Find(semantic + keyword, r[i].id).Some?
              && r[i].content == Find(semantic + keyword, r[i].id).value.content
    ensures forall i, j :: 0 <= i < j < |r| ==> r[i].id != r[j].id && r[i].similarity >= r[j].similarity
  {
    hide Find, ListScore, Accumulated, FusedScore;
    forall i | 0 <= i < |r|
      ensures r[i].id == sorted[i].chunk.id && r[i].id in scores
      ensures r[i].similarity == sorted[i].score * 100.0 == FusedScore(w, semantic, keyword, r[i].id) * 100.0
      ensures Find(semantic + keyword, r[i].id).Some? && r[i].content == Find(semantic + keyword, r[i].id).value.content
    {
      RankedAt(scores, sorted, i);
      EntryScore(w, semantic, keyword, scores, sorted[i].chunk.id);
    }
  }

  lemma Promised(w: Weights, semantic: seq<Chunk>, keyword: seq<Chunk>, topK: nat, r: seq<Chunk>)
    requires
      var all := Union(semantic, keyword);
      && |r| == (if topK < |all| then topK else |all|)
      && (forall i :: 0 <= i < |r| ==>
            && r[i].id in all
            && r[i].similarity == FusedScore(w, semantic, keyword, r[i].id) * 100.0
            && Find(semantic + keyword, r[i].id).Some?
            && r[i].content == Find(semantic + keyword, r[i].id).value.content)
      && (forall i, j :: 0 <= i < j < |r| ==> r[i].id != r[j].id && r[i].similarity >= r[j].similarity)
      && forall id, i :: id in all && (forall j :: 0 <= j < |r| ==> r[j].id != id) && 0 <= i < |r| ==>
           FusedScore(w, semantic, keyword, id) * 100.0 <= r[i].similarity
    ensures IsTopFusion(w, semantic, keyword, topK, r)
  {
    hide FusedScore, Find, Union;
  }

  /** The fused list: the top scores of the union of both lists. */
  method ReciprocalRankFusion(w: Weights, sort: Sorter, semantic: seq<Chunk>, keyword: seq<Chunk>, topK: nat)
    returns (r: seq<Chunk>)
    requires Sorts(sort)
    ensures IsTopFusion(w, semantic, keyword, topK, r)
  {
    hide Accumulated, Find, IsTopFusion, ListScore, Finished, Ranked, Descending;
    var scores := Score(w, semantic, keyword);
    IdsMatch(scores, semantic + keyword, Total(w, semantic, |semantic|, keyword, |keyword|));
    var items := Items(scores);
    var results := sort(items);
    SortedIsRanked(scores, sort, items);
    r := [];
    var i := 0;
    while i < |results| && i < topK
      invariant 0 <= i <= |results| && i <= topK && |r| == i
      invariant forall j :: 0 <= j < i ==> r[j] == Finished(results[j])
    {
      r := r + [Finished(results[i])];
      i := i + 1;
    }
    TopOfSorted(w, semantic, keyword, topK, scores, results, r);
  }

  lemma IdsMatch(scores: Scores, seen: seq<Chunk>, total: ChunkId -> real)
    requires Accumulated(scores, seen, total)
    ensures forall id :: id in scores ==> scores[id].chunk.id == id
  {
    hide Find;
  }

  lemma SortedIsRanked(scores: Scores, sort: Sorter, items: seq<Item>)
    requires Sorts(sort) && DistinctItems(items) && |items| == |scores|
    requires forall i :: 0 <= i < |items| ==> items[i].chunk.id in scores && items[i] == scores[items[i].chunk.id]
    requires forall id :: id in scores ==> scores[id] in items
    ensures Ranked(scores, sort(items))
  {
    hide Descending, DistinctItems;
    SortedStaysDistinct(items, sort(items));
  }

  // ----- ranking better never scores lower -----

  ghost predicate DistinctIds(list: seq<Chunk>) {
    forall i, j :: 0 <= i < j < |list| ==> list[i].id != list[j].id
  }

  lemma {:induction false} SingleScore(weight: real, k: nat, list: seq<Chunk>, rank: nat, n: nat)
    requires DistinctIds(list) && rank < n <= |list|
    ensures ListScore(weight, k, list, list[rank].id, n) == RankScore(weight, k, rank)
  {
    if rank == n - 1 {
      NoScoreUnseen(weight, k, list, list[rank].id, n - 1);
    } else {
      SingleScore(weight, k, list, rank, n - 1);
    }
  }

  /** In a duplicate-free list a chunk's score is the weight over the constant plus its rank, counted from 1. */
  lemma ScoreTimesRank(weight: real, k: nat, list: seq<Chunk>, rank: nat)
    requires DistinctIds(list) && rank < |list|
    ensures ListScore(weight, k, list, list[rank].id, |list|) * (k + rank + 1) as real == weight
  {
    SingleScore(weight, k, list, rank, |list|);
    var x := (k + rank + 1) as real;
    assert 1.0 / x * x == 1.0;
    assert weight * (1.0 / x) * x == weight * (1.0 / x * x);
  }

  lemma RankScoreFalls(weight: real, k: nat, i: nat, j: nat)
    requires weight >= 0.0 && i <= j
    ensures 0.0 <= RankScore(weight, k, j) <= RankScore(weight, k, i)
  {
    var x, y := (k + i + 1) as real, (k + j + 1) as real;
    ReciprocalOrder(x, y);
    ProductMonotone(1.0 / y, 1.0 / x, weight);
    ProductMonotone(0.0, 1.0 / y, weight);
  }

  lemma ReciprocalOrder(x: real, y: real)
    requires 0.0 < x <= y
    ensures 0.0 < 1.0 / y <= 1.0 / x
  {
  }

  /** `a` is ranked at least as well as `b`: wherever `b` stands, `a` stands no later. */
  ghost predicate RankedNoWorse(list: seq<Chunk>, a: ChunkId, b: ChunkId) {
    forall j :: 0 <= j < |list| && list[j].id == b ==> exists i :: 0 <= i <= j && list[i].id == a
  }

  lemma NoWorseInOneList(weight: real, k: nat, list: seq<Chunk>, a: ChunkId, b: ChunkId)
    requires weight >= 0.0 && DistinctIds(list) && RankedNoWorse(list, a, b)
    ensures ListScore(weight, k, list, a, |list|) >= ListScore(weight, k, list, b, |list|)
  {
    if j :| 0 <= j < |list| && list[j].id == b {
      var i :| 0 <= i <= j && list[i].id == a;
      SingleScore(weight, k, list, i, |list|);
      SingleScore(weight, k, list, j, |list|);
      RankScoreFalls(weight, k, i, j);
    } else {
      NoScoreUnseen(weight, k, list, b, |list|);
      if i :| 0 <= i < |list| && list[i].id == a {
        SingleScore(weight, k, list, i, |list|);
        RankScoreFalls(weight, k, i, i);
      } else {
        NoScoreUnseen(weight, k, list, a, |list|);
      }
    }
  }

  /** In duplicate-free lists, a chunk ranked at least as well as another in both never scores lower. */
  lemma FusionRespectsRanks(w: Weights, semantic: seq<Chunk>, keyword: seq<Chunk>, a: ChunkId, b: ChunkId)
    requires w.semantic >= 0.0 && w.keyword >= 0.0 && DistinctIds(semantic) && DistinctIds(keyword)
    requires RankedNoWorse(semantic, a, b) && RankedNoWorse(keyword, a, b)
    ensures FusedScore(w, semantic, keyword, a) >= FusedScore(w, semantic, keyword, b)
  {
    NoWorseInOneList(w.semantic, w.k, semantic, a, b);
    NoWorseInOneList(w.keyword, w.k, keyword, a, b);
  }

  /** `a` stands in the list, and strictly before any place of `b`. */
  ghost predicate RankedBetter(list: seq<Chunk>, a: ChunkId, b: ChunkId) {
    exists i :: 0 <= i < |list| && list[i].id == a && forall j :: 0 <= j <= i ==> list[j].id != b
  }

  lemma StrictReciprocal(x: real, y: real)
    requires 0.0 < x < y
    ensures 0.0 < 1.0 / y < 1.0 / x
  {
    assert (1.0 / x) * x == 1.0 && (1.0 / y) * y == 1.0;
    if 1.0 / y >= 1.0 / x {
      ProductMonotone(1.0 / x, 1.0 / y, x);
      ProductStrict(x, y, 1.0 / y);
    }
  }

  lemma RankScoreDrops(weight: real, k: nat, i: nat, j: nat)
    requires weight > 0.0 && i < j
    ensures 0.0 < RankScore(weight, k, j) < RankScore(weight, k, i)
  {
    var x, y := (k + i + 1) as real, (k + j + 1) as real;
    StrictReciprocal(x, y);
    ProductStrict(1.0 / y, 1.0 / x, weight);
    ProductStrict(0.0, 1.0 / y, weight);
  }

  lemma BetterInOneList(weight: real, k: nat, list: seq<Chunk>, a: ChunkId, b: ChunkId)
    requires weight > 0.0 && DistinctIds(list) && RankedBetter(list, a, b)
    ensures ListScore(weight, k, list, a, |list|) > ListScore(weight, k, list, b, |list|)
  {
    var i :| 0 <= i < |list| && list[i].id == a && forall j :: 0 <= j <= i ==> list[j].id != b;
    SingleScore(weight, k, list, i, |list|);
    if j :| 0 <= j < |list| && list[j].id == b {
      SingleScore(weight, k, list, j, |list|);
      RankScoreDrops(weight, k, i, j);
    } else {
      NoScoreUnseen(weight, k, list, b, |list|);
      RankScoreDrops(weight, k, i, i + 1);
    }
  }

  /** A chunk ranked no worse in both lists and better in one gets a strictly higher fused score. */
  lemma FusionPrefersBetterRanks(w: Weights, semantic: seq<Chunk>, keyword: seq<Chunk>, a: ChunkId, b: ChunkId)
    requires w.semantic > 0.0 && w.keyword > 0.0 && DistinctIds(semantic) && DistinctIds(keyword)
    requires RankedNoWorse(semantic, a, b) && RankedNoWorse(keyword, a, b)
    requires RankedBetter(semantic, a, b) || RankedBetter(keyword, a, b)
    ensures FusedScore(w, semantic, keyword, a) > FusedScore(w, semantic, keyword, b)
  {
    NoWorseInOneList(w.semantic, w.k, semantic, a, b);
    NoWorseInOneList(w.keyword, w.k, keyword, a, b);
    hide ListScore, RankedNoWorse, RankedBetter;
    if RankedBetter(semantic, a, b) {
      BetterInOneList(w.semantic, w.k, semantic, a, b);
    } else {
      BetterInOneList(w.keyword, w.k, keyword, a, b);
    }
  }
}
