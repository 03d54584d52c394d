/** Building a prompt context: order by similarity, drop near duplicates, pack within a token budget. */
module ContextBuilder {
  import opened RealArithmetic

  datatype Chunk = Chunk(id: string, documentId: string, title: string, content: string, similarity: real)

  datatype Citation = Citation(index: nat, chunkId: string, documentId: string, title: string, similarity: real)

  datatype BuiltContext = BuiltContext(
    text: string, tokenCount: nat, includedChunks: seq<Chunk>, truncatedCount: nat, citations: seq<Citation>)

  /** Configuration, and the text operations it runs on: lower-casing with single spaces, word splitting, chunk
      layout. */
  datatype Setup = Setup(
    maxTokens: int,
    separator: string,
    deduplicate: bool,
    threshold: real,
    normalize: string -> string,
    fields: string -> seq<string>,
    format: (Chunk, nat) -> string)

  datatype Options = Options(maxTokens: int, systemPromptTokens: int, queryTokens: int, responseBuffer: int)

  // ----- word overlap -----

  function WordSet(words: seq<string>): set<string> {
    set w | w in words
  }

  lemma WordsAreListed(words: seq<string>, w: string)
    ensures w in WordSet(words) <==> w in words
  {
  }

  function Jaccard(a: set<string>, b: set<string>): real {
    if |a + b| == 0 then 0.0 else |a * b| as real / |a + b| as real
  }

  lemma UnionSize(a: set<string>, b: set<string>)
    ensures |a + b| == |a| + |b| - |a * b|
  {
    assert a + b == a + (b - a) && b == (b - a) + a * b;
    assert |a + b| == |a| + |b - a|;
    assert |b| == |b - a| + |a * b|;
  }

  lemma JaccardSymmetric(a: set<string>, b: set<string>)
    ensures Jaccard(a, b) == Jaccard(b, a)
  {
    assert a + b == b + a && a * b == b * a;
  }

  lemma ProperSubsetSize(a: set<string>, b: set<string>)
    requires a <= b
    ensures |a| <= |b| && (|a| == |b| <==> a == b)
  {
    assert b == a + (b - a);
    assert |b| == |a| + |b - a|;
    if |a| == |b| {
      assert b - a == {};
    }
  }

  lemma FractionInUnit(part: nat, whole: nat)
    requires part <= whole && whole > 0
    ensures 0.0 <= part as real / whole as real <= 1.0
    ensures part as real / whole as real == 1.0 <==> part == whole
  {
  }

  lemma SharedIsAll(a: set<string>, b: set<string>)
    ensures a * b == a + b <==> a == b
    ensures |a + b| == 0 <==> a == {} && b == {}
  {
    if a * b == a + b {
      assert forall x :: x in a ==> x in a + b;
      assert forall x :: x in b ==> x in a + b;
    }
    if |a + b| == 0 {
      assert a + b == {} && a <= a + b && b <= a + b;
    }
  }

  /** Overlap is a fraction, and full only between equal, non-empty word sets. */
  lemma JaccardBounds(a: set<string>, b: set<string>)
    ensures 0.0 <= Jaccard(a, b) <= 1.0
    ensures Jaccard(a, b) == 1.0 <==> a == b && a != {}
  {
    ProperSubsetSize(a * b, a + b);
    SharedIsAll(a, b);
    if |a + b| > 0 {
      FractionInUnit(|a * b|, |a + b|);
    }
  }

  /** Counts the shared words, walking one set in any order. */
  method CountShared(setA: set<string>, setB: set<string>) returns (intersection: nat)
    ensures intersection == |setA * setB|
  {
    intersection := 0;
    var todo := setA;
    assert setA * setB == (setA - todo) * setB + todo * setB;
    while todo != {}
      invariant todo <= setA && intersection + |todo * setB| == |setA * setB|
      decreases todo
    {
      var w :| w in todo;
      if w in setB {
        assert (todo - {w}) * setB == todo * setB - {w};
        intersection := intersection + 1;
      } else {
        assert (todo - {w}) * setB == todo * setB;
      }
      todo := todo - {w};
    }
    assert todo * setB == {};
  }

  method JaccardSimilarity(c: Setup, a: string, b: string) returns (r: real)
    ensures r == Jaccard(WordSet(c.fields(a)), WordSet(c.fields(b)))
  {
    var setA, setB := WordSet(c.fields(a)), WordSet(c.fields(b));
    var intersection := CountShared(setA, setB);
    UnionSize(setA, setB);
    var union: int := |setA| + |setB| - intersection;
    if union == 0 {
      return 0.0;
    }
    r := intersection as real / union as real;
  }

  function Words(c: Setup, content: string): set<string> {
    WordSet(c.fields(c.normalize(content)))
  }

  predicate Similar(c: Setup, a: string, b: string) {
    Jaccard(Words(c, a), Words(c, b)) >= c.threshold
  }

  /** A repeated content counts as a duplicate exactly when it has words, for thresholds in (0, 1]. */
  lemma RepeatsAreSimilar(c: Setup, content: string)
    requires 0.0 < c.threshold <= 1.0
    ensures Similar(c, content, content) <==> Words(c, content) != {}
  {
    JaccardBounds(Words(c, content), Words(c, content));
  }

  // ----- deduplication -----

  /** `kept` are the chunks at the increasing positions `at`; nothing kept is similar to anything else kept,
      and everything else is similar to something kept earlier. */
  ghost predicate Deduplicates(c: Setup, chunks: seq<Chunk>, kept: seq<Chunk>, at: seq<nat>) {
    && |at| == |kept|
    && (forall i :: 0 <= i < |at| ==> at[i] < |chunks| && kept[i] == chunks[at[i]])
    && (forall i, j :: 0 <= i < j < |at| ==> at[i] < at[j])
    && (forall i, j :: 0 <= i < j < |kept| ==> !Similar(c, kept[j].content, kept[i].content))
    && (forall d :: 0 <= d < |chunks| && d !in at ==>
          exists i :: 0 <= i < |kept| && at[i] < d && Similar(c, chunks[d].content, kept[i].content))
  }

  ghost predicate IsDeduplicated(c: Setup, chunks: seq<Chunk>, kept: seq<Chunk>) {
    exists at :: Deduplicates(c, chunks, kept, at)
  }

  lemma KeptExactlyWhen(c: Setup, chunks: seq<Chunk>, kept: seq<Chunk>, at: seq<nat>, d: nat)
    requires Deduplicates(c, chunks, kept, at) && d < |chunks|
    ensures d in at <==> forall p :: p in at && p < d ==> !Similar(c, chunks[d].content, chunks[p].content)
  {
    hide Similar;
    if d in at {
      var j :| 0 <= j < |at| && at[j] == d;
      forall p | p in at && p < d
        ensures !Similar(c, chunks[d].content, chunks[p].content)
      {
        var i :| 0 <= i < |at| && at[i] == p;
        assert i < j;
      }
    } else {
      var i :| 0 <= i < |kept| && at[i] < d && Similar(c, chunks[d].content, kept[i].content);
      assert at[i] in at;
    }
  }

  lemma {:induction false} SamePositions(c: Setup, chunks: seq<Chunk>, kept: seq<Chunk>, at: seq<nat>,
                                         kept': seq<Chunk>, at': seq<nat>, n: nat)
    requires Deduplicates(c, chunks, kept, at) && Deduplicates(c, chunks, kept', at') && n <= |chunks|
    ensures forall d :: 0 <= d < n ==> (d in at <==> d in at')
  {
    hide Deduplicates, Similar;
    if n > 0 {
      SamePositions(c, chunks, kept, at, kept', at', n - 1);
      KeptExactlyWhen(c, chunks, kept, at, n - 1);
      KeptExactlyWhen(c, chunks, kept', at', n - 1);
    }
  }

  ghost predicate Increasing(s: seq<nat>) {
    forall i, j :: 0 <= i < j < |s| ==> s[i] < s[j]
  }

  lemma LeastFirst(s: seq<nat>, x: nat)
    requires Increasing(s) && x in s
    ensures s[0] <= x
  {
  }

  lemma SameFront(s: seq<nat>, t: seq<nat>)
    requires Increasing(s) && Increasing(t) && s != [] && forall x :: x in s <==> x in t
    ensures t != [] && s[0] == t[0]
  {
    assert s[0] in s;
    assert s[0] in t;
    assert t[0] in t;
    LeastFirst(s, t[0]);
    LeastFirst(t, s[0]);
  }

  lemma RestMembers(s: seq<nat>, x: nat)
    requires Increasing(s) && s != []
    ensures Increasing(s[1..])
    ensures x in s[1..] <==> x in s && x != s[0]
  {
    assert s == [s[0]] + s[1..];
  }

  lemma NoMembers(s: seq<nat>)
    requires forall x :: x !in s
    ensures s == []
  {
    if s != [] {
      HasFront(s);
    }
  }

  lemma HasFront(s: seq<nat>)
    requires s != []
    ensures s[0] in s
  {
  }

  lemma {:induction false} IncreasingIsUnique(s: seq<nat>, t: seq<nat>)
    requires Increasing(s) && Increasing(t) && forall x :: x in s <==> x in t
    ensures s == t
  {
    hide Increasing;
    if s == [] {
      NoMembers(t);
    } else {
      SameFront(s, t);
      RestMembers(s, s[0]);
      RestMembers(t, t[0]);
      forall x: nat
        ensures x in s[1..] <==> x in t[1..]
      {
        RestMembers(s, x);
        RestMembers(t, x);
      }
      IncreasingIsUnique(s[1..], t[1..]);
      assert s == [s[0]] + s[1..] && t == [t[0]] + t[1..];
    }
  }

  /** The outcome of deduplication does not depend on the order in which the contents seen are compared. */
  lemma DeduplicationIsUnique(c: Setup, chunks: seq<Chunk>, kept: seq<Chunk>, kept': seq<Chunk>)
    requires IsDeduplicated(c, chunks, kept) && IsDeduplicated(c, chunks, kept')
    ensures kept == kept'
  {
    hide Similar;
    var at :| Deduplicates(c, chunks, kept, at);
    var at' :| Deduplicates(c, chunks, kept', at');
    SamePositions(c, chunks, kept, at, kept', at', |chunks|);
    IncreasingIsUnique(at, at');
  }

  /** Compares one chunk with the normalised contents seen, in any order, stopping at the first match. */
  method HasDuplicate(c: Setup, content: string, seen: set<string>) returns (b: bool)
    ensures b <==> exists s :: s in seen && Jaccard(Words(c, content), WordSet(c.fields(s))) >= c.threshold
  {
    var todo := seen;
    var normalized := c.normalize(content);
    while todo != {}
      invariant todo <= seen
      invariant forall s :: s in seen && s !in todo ==>
                !(Jaccard(Words(c, content), WordSet(c.fields(s))) >= c.threshold)
      decreases todo
    {
      var s :| s in todo;
      var similarity := JaccardSimilarity(c, normalized, s);
      if similarity >= c.threshold {
        return true;
      }
      todo := todo - {s};
    }
    b := false;
  }

  method DeduplicateChunks(c: Setup, chunks: seq<Chunk>) returns (kept: seq<Chunk>)
    ensures IsDeduplicated(c, chunks, kept)
  {
    ghost var at: seq<nat> := if |chunks| == 0 then [] else [0];
    if |chunks| <= 1 {
      assert |chunks| == 1 ==> at[0] == 0;
      assert Deduplicates(c, chunks, chunks, at);
      return chunks;
    }
    kept, at := [], [];
    var seen: set<string> := {};
    NothingKept(c, chunks);
    hide Jaccard, Deduplicates;
    for n := 0 to |chunks|
      invariant Deduplicates(c, chunks[..n], kept, at)
      invariant seen == set x | x in kept :: c.normalize(x.content)
    {
      var chunk := chunks[n];
      var isDuplicate := HasDuplicate(c, chunk.content, seen);
      if !isDuplicate {
        KeepOne(c, chunks, n, kept, at);
        kept, at := kept + [chunk], at + [n];
        seen := seen + {c.normalize(chunk.content)};
      } else {
        ghost var s :| s in seen && Jaccard(Words(c, chunk.content), WordSet(c.fields(s))) >= c.threshold;
        ghost var k :| 0 <= k < |kept| && c.normalize(kept[k].content) == s;
        DropOne(c, chunks, n, kept, at, k);
      }
    }
    assert chunks[..|chunks|] == chunks;
  }

  lemma NothingKept(c: Setup, chunks: seq<Chunk>)
    ensures Deduplicates(c, chunks[..0], [], [])
  {
  }

  lemma KeepOne(c: Setup, chunks: seq<Chunk>, n: nat, kept: seq<Chunk>, at: seq<nat>)
    requires n < |chunks| && Deduplicates(c, chunks[..n], kept, at)
    requires forall x :: x in kept ==> !Similar(c, chunks[n].content, x.content)
    ensures Deduplicates(c, chunks[..n + 1], kept + [chunks[n]], at + [n])
  {
    var kept', at' := kept + [chunks[n]], at + [n];
    hide Similar;
    forall d | 0 <= d < n + 1 && d !in at'
      ensures exists i :: 0 <= i < |kept'| && at'[i] < d && Similar(c, chunks[..n + 1][d].content, kept'[i].content)
    {
      StillDropped(c, chunks, n, kept, at, d);
    }
    forall i, j | 0 <= i < j < |kept'|
      ensures !Similar(c, kept'[j].content, kept'[i].content)
    {
      assert kept'[i] == kept[i] && kept[i] in kept;
    }
  }

  lemma StillDropped(c: Setup, chunks: seq<Chunk>, n: nat, kept: seq<Chunk>, at: seq<nat>, d: nat)
    requires n < |chunks| && Deduplicates(c, chunks[..n], kept, at) && d < n + 1 && d !in at + [n]
    ensures exists i :: 0 <= i < |kept| + 1 && (at + [n])[i] < d &&
                        Similar(c, chunks[..n + 1][d].content, (kept + [chunks[n]])[i].content)
  {
    var kept', at' := kept + [chunks[n]], at + [n];
    hide Similar;
    assert at'[|at|] == n;
    assert d !in at;
    var i :| 0 <= i < |kept| && at[i] < d && Similar(c, chunks[..n][d].content, kept[i].content);
    assert at'[i] == at[i] && kept'[i] == kept[i] && chunks[..n + 1][d] == chunks[..n][d];
  }

  lemma DropOne(c: Setup, chunks: seq<Chunk>, n: nat, kept: seq<Chunk>, at: seq<nat>, k: nat)
    requires n < |chunks| && Deduplicates(c, chunks[..n], kept, at)
    requires k < |kept| && Similar(c, chunks[n].content, kept[k].content)
    ensures Deduplicates(c, chunks[..n + 1], kept, at)
  {
    hide Similar;
    forall d | 0 <= d < n + 1 && d !in at
      ensures exists i :: 0 <= i < |kept| && at[i] < d && Similar(c, chunks[..n + 1][d].content, kept[i].content)
    {
      if d < n {
        var i :| 0 <= i < |kept| && at[i] < d && Similar(c, chunks[..n][d].content, kept[i].content);
        assert at[i] < d && Similar(c, chunks[..n + 1][d].content, kept[i].content);
      } else {
        assert at[k] < n;
      }
    }
  }

  // ----- packing -----

  /** About four characters a token, rounded up. */
  function EstimateTokens(text: string): (n: nat)
    ensures 4 * n >= |text| && (n > 0 ==> 4 * (n - 1) < |text|)
  {
    (|text| + 3) / 4
  }

  function Formatted(c: Setup, kept: seq<Chunk>, i: nat): string
    requires i < |kept|
  {
    c.format(kept[i], i + 1)
  }

  /** The text of the first `n` chunks; a separator only goes after text. */
  function TextOf(c: Setup, kept: seq<Chunk>, n: nat): string
    requires n <= |kept|
  {
    if n == 0 then ""
    else
      var before := TextOf(c, kept, n - 1);
      before + (if |before| > 0 then c.separator else "") + Formatted(c, kept, n - 1)
  }

  /** The running token count of the first `n` chunks, separators included. */
  function TokensOf(c: Setup, kept: seq<Chunk>, n: nat): nat
    requires n <= |kept|
  {
    if n == 0 then 0
    else
      TokensOf(c, kept, n - 1) +
      (if |TextOf(c, kept, n - 1)| > 0 then EstimateTokens(c.separator) else 0) +
      EstimateTokens(Formatted(c, kept, n - 1))
  }

  /** The test made before chunk `n`; it does not count the separator. */
  predicate Fits(c: Setup, kept: seq<Chunk>, available: int, n: nat)
    requires n < |kept|
  {
    TokensOf(c, kept, n) + EstimateTokens(Formatted(c, kept, n)) <= available
  }

  /** How many chunks go in: those before the first that fails its test. */
  function Included(c: Setup, kept: seq<Chunk>, available: int, from: nat): (n: nat)
    requires from <= |kept|
    ensures from <= n <= |kept|
    decreases |kept| - from
  {
    if from < |kept| && Fits(c, kept, available, from) then Included(c, kept, available, from + 1) else from
  }

  function Cite(chunk: Chunk, index: nat): Citation {
    Citation(index, chunk.id, chunk.documentId, chunk.title, chunk.similarity)
  }

  /** The citation names the chunk, its document and its place. */
  predicate Cites(citation: Citation, chunk: Chunk, place: nat) {
    && citation.index == place && citation.chunkId == chunk.id && citation.documentId == chunk.documentId
    && citation.title == chunk.title && citation.similarity == chunk.similarity
  }

  lemma CiteCites(chunk: Chunk, place: nat)
    ensures Cites(Cite(chunk, place), chunk, place)
  {
  }

  method Pack(c: Setup, kept: seq<Chunk>, available: int) returns (r: BuiltContext)
    ensures
      var n := Included(c, kept, available, 0);
      && r.includedChunks == kept[..n]
      && r.text == TextOf(c, kept, n) && r.tokenCount == TokensOf(c, kept, n)
      && r.truncatedCount == |kept| - n
      && |r.citations| == n && forall i :: 0 <= i < n ==> r.citations[i] == Cite(kept[i], i + 1)
    ensures forall i :: 0 <= i < |r.citations| && i < |kept| ==> Cites(r.citations[i], kept[i], i + 1)
  {
    hide *;
    var text, tokenCount: nat := "", 0;
    var included: seq<Chunk>, citations: seq<Citation> := [], [];
    PackStart(c, kept);
    for i := 0 to |kept|
      invariant included == kept[..i]
      invariant text == TextOf(c, kept, i) && tokenCount == TokensOf(c, kept, i)
      invariant |citations| == i && forall j :: 0 <= j < i ==> citations[j] == Cite(kept[j], j + 1)
      invariant forall j :: 0 <= j < i ==> Cites(citations[j], kept[j], j + 1)
      invariant Included(c, kept, available, 0) == Included(c, kept, available, i)
    {
      PackStep(c, kept, available, i);
      CiteCites(kept[i], i + 1);
      var formatted := c.format(kept[i], i + 1);
      var chunkTokens := EstimateTokens(formatted);
      if tokenCount + chunkTokens > available {
        var truncatedCount := |kept| - |included|;
        return BuiltContext(text, tokenCount, included, truncatedCount, citations);
      }
      if |text| > 0 {
        text := text + c.separator;
        tokenCount := tokenCount + EstimateTokens(c.separator);
      }
      text := text + formatted;
      tokenCount := tokenCount + chunkTokens;
      included := included + [kept[i]];
      assert kept[..i + 1] == kept[..i] + [kept[i]];
      citations := citations + [Cite(kept[i], i + 1)];
    }
    PackEnd(c, kept, available);
    r := BuiltContext(text, tokenCount, included, 0, citations);
  }

  lemma PackStart(c: Setup, kept: seq<Chunk>)
    ensures TextOf(c, kept, 0) == "" && TokensOf(c, kept, 0) == 0
  {
  }

  lemma PackStep(c: Setup, kept: seq<Chunk>, available: int, i: nat)
    requires i < |kept|
    ensures
      var text, formatted := TextOf(c, kept, i), c.format(kept[i], i + 1);
      && TextOf(c, kept, i + 1) == (if |text| > 0 then text + c.separator else text) + formatted
      && TokensOf(c, kept, i + 1) ==
           TokensOf(c, kept, i) + (if |text| > 0 then EstimateTokens(c.separator) else 0) + EstimateTokens(formatted)
    ensures Included(c, kept, available, i) ==
            if TokensOf(c, kept, i) + EstimateTokens(c.format(kept[i], i + 1)) <= available
            then Included(c, kept, available, i + 1) else i
  {
    hide EstimateTokens;
    assert TextOf(c, kept, i) + "" == TextOf(c, kept, i);
  }

  lemma PackEnd(c: Setup, kept: seq<Chunk>, available: int)
    ensures Included(c, kept, available, |kept|) == |kept| && kept[..|kept|] == kept
  {
  }

  lemma TokensSplit(a: string, b: string)
    ensures EstimateTokens(a + b) <= EstimateTokens(a) + EstimateTokens(b)
  {
  }

  /** The count never understates the text. */
  lemma {:induction false} CountCoversText(c: Setup, kept: seq<Chunk>, n: nat)
    requires n <= |kept|
    ensures EstimateTokens(TextOf(c, kept, n)) <= TokensOf(c, kept, n)
  {
    if n > 0 {
      CountCoversText(c, kept, n - 1);
      var before := TextOf(c, kept, n - 1);
      var separator := if |before| > 0 then c.separator else "";
      TokensSplit(before + separator, Formatted(c, kept, n - 1));
      TokensSplit(before, separator);
    }
  }

  /** Every included chunk passed its test, and the first left out failed it. */
  lemma {:induction false} IncludedTests(c: Setup, kept: seq<Chunk>, available: int, from: nat)
    requires from <= |kept|
    ensures
      var n := Included(c, kept, available, from);
      && (forall i :: from <= i < n ==> Fits(c, kept, available, i))
      && (n < |kept| ==> !Fits(c, kept, available, n))
    decreases |kept| - from
  {
    if from < |kept| && Fits(c, kept, available, from) {
      IncludedTests(c, kept, available, from + 1);
    }
  }

  /** The count exceeds the budget by at most one separator. */
  lemma OvershootBounded(c: Setup, kept: seq<Chunk>, available: nat)
    ensures
      var n := Included(c, kept, available, 0);
      EstimateTokens(TextOf(c, kept, n)) <= TokensOf(c, kept, n) <= available + EstimateTokens(c.separator)
  {
    var n := Included(c, kept, available, 0);
    CountCoversText(c, kept, n);
    IncludedTests(c, kept, available, 0);
    if n > 0 {
      assert Fits(c, kept, available, n - 1);
    }
  }

  /** In one call the count exceeds the budget exactly when the last chunk included fits without the separator
      before it but not with it. */
  lemma OvershootExactlyWhen(c: Setup, kept: seq<Chunk>, available: nat)
    ensures
      var n := Included(c, kept, available, 0);
      TokensOf(c, kept, n) > available <==>
        && n > 0 && |TextOf(c, kept, n - 1)| > 0
        && TokensOf(c, kept, n - 1) + EstimateTokens(Formatted(c, kept, n - 1)) <= available
        && TokensOf(c, kept, n - 1) + EstimateTokens(c.separator)
          + EstimateTokens(Formatted(c, kept, n - 1)) > available
  {
    hide EstimateTokens, Formatted;
    var n := Included(c, kept, available, 0);
    IncludedTests(c, kept, available, 0);
    if n > 0 {
      assert Fits(c, kept, available, n - 1);
      PackStep(c, kept, available, n - 1);
    }
  }

  // ----- the whole build -----

  type Sorter = seq<Chunk> -> seq<Chunk>

  ghost predicate Sorts(sort: Sorter) {
    forall chunks :: multiset(sort(chunks)) == multiset(chunks) &&
      forall i, j :: 0 <= i < j < |sort(chunks)| ==> sort(chunks)[i].similarity >= sort(chunks)[j].similarity
  }

  /** The budget left for chunks; when the reservations eat it all, the whole budget is used instead. */
  function Available(c: Setup, opts: Options): (r: int)
    ensures
      var limit := if opts.maxTokens <= 0 then c.maxTokens else opts.maxTokens;
      var reserved := opts.systemPromptTokens + opts.queryTokens + opts.responseBuffer;
      && (limit > reserved ==> r + reserved == limit)
      && (limit <= reserved ==> r == limit)
  {
    var maxTokens := if opts.maxTokens <= 0 then c.maxTokens else opts.maxTokens;
    var left := maxTokens - opts.systemPromptTokens - opts.queryTokens - opts.responseBuffer;
    if left <= 0 then maxTokens else left
  }

  /** What a build packs: the sorted input, deduplicated where that is switched on. */
  ghost predicate Packs(c: Setup, sort: Sorter, chunks: seq<Chunk>, kept: seq<Chunk>) {
    if c.deduplicate then IsDeduplicated(c, sort(chunks), kept) else kept == sort(chunks)
  }

  /** No build, whatever its input and options, counts more than its budget. */
  ghost predicate BuildsWithinBudget(c: Setup, sort: Sorter) {
    forall chunks, kept, opts :: Packs(c, sort, chunks, kept) && Available(c, opts) >= 0 ==>
      TokensOf(c, kept, Included(c, kept, Available(c, opts), 0)) <= Available(c, opts)
  }

  /** Every layout shows the content, and blank content has no words. */
  ghost predicate LaysOutContent(c: Setup) {
    && (forall chunk: Chunk, index: nat :: chunk.content != "" ==> c.format(chunk, index) != "")
    && c.fields(c.normalize("")) == []
  }

  lemma NoWordsNoOverlap(a: set<string>, b: set<string>)
    requires a == {}
    ensures Jaccard(a, b) == 0.0
  {
    assert a * b == {};
  }

  /** A chunk with text and one without are kept side by side: they share no word. */
  lemma BlankIsDifferent(c: Setup, a: Chunk, b: Chunk)
    requires LaysOutContent(c) && c.threshold > 0.0 && b.content == ""
    ensures !Similar(c, b.content, a.content)
  {
    assert Words(c, b.content) == {};
    NoWordsNoOverlap(Words(c, b.content), Words(c, a.content));
  }

  lemma KeepsBoth(c: Setup, a: Chunk, b: Chunk)
    requires !Similar(c, b.content, a.content)
    ensures IsDeduplicated(c, [a, b], [a, b])
  {
    hide Similar;
    assert Deduplicates(c, [a, b], [a, b], [0, 1]);
  }

  lemma TwoInOrder(sort: Sorter, a: Chunk, b: Chunk)
    requires Sorts(sort) && a.similarity > b.similarity
    ensures sort([a, b]) == [a, b]
  {
    var s := sort([a, b]);
    assert multiset(s) == multiset{a, b};
    assert |multiset(s)| == |s|;
    assert s[0] in multiset(s) && s[1] in multiset(s);
    assert s == [s[0], s[1]];
    assert multiset(s) == multiset{s[0], s[1]};
  }

  /** A budget that just admits the second chunk is broken by the separator before it. */
  lemma TwoOvershoot(c: Setup, a: Chunk, b: Chunk)
    requires c.separator != "" && c.format(a, 1) != ""
    ensures
      var available := EstimateTokens(c.format(a, 1)) + EstimateTokens(c.format(b, 2));
      && available > 0
      && TokensOf(c, [a, b], Included(c, [a, b], available, 0)) == available + EstimateTokens(c.separator) > available
  {
    var kept := [a, b];
    var available := EstimateTokens(c.format(a, 1)) + EstimateTokens(c.format(b, 2));
    SomeTokens(c.separator);
    SomeTokens(c.format(a, 1));
    hide EstimateTokens, TextOf, TokensOf, Included;
    PackStart(c, kept);
    PackStep(c, kept, available, 0);
    PackStep(c, kept, available, 1);
    PackEnd(c, kept, available);
  }

  lemma SomeTokens(text: string)
    requires text != ""
    ensures EstimateTokens(text) > 0
  {
  }

  /** The failing family: a chunk with text, then a blank one less similar to the query. */
  lemma SomeBuildOvershoots(c: Setup, sort: Sorter)
    requires Sorts(sort) && LaysOutContent(c) && c.separator != "" && (c.deduplicate ==> c.threshold > 0.0)
    ensures !BuildsWithinBudget(c, sort)
  {
    var a, b := Chunk("a", "d", "t", "text", 1.0), Chunk("b", "d", "t", "", 0.0);
    hide EstimateTokens, TokensOf, TextOf, Included, Similar, IsDeduplicated, Sorts;
    TwoInOrder(sort, a, b);
    if c.deduplicate {
      BlankIsDifferent(c, a, b);
      KeepsBoth(c, a, b);
    }
    assert Packs(c, sort, [a, b], [a, b]);
    TwoOvershoot(c, a, b);
    var available := EstimateTokens(c.format(a, 1)) + EstimateTokens(c.format(b, 2));
    var opts := Options(available, 0, 0, 0);
    assert Available(c, opts) == available;
    assert TokensOf(c, [a, b], Included(c, [a, b], Available(c, opts), 0)) > Available(c, opts);
  }

  /** When everything counts as similar only one chunk is ever kept, and no separator is written. */
  lemma OneChunkFits(c: Setup, kept: seq<Chunk>, available: nat)
    requires |kept| <= 1
    ensures TokensOf(c, kept, Included(c, kept, available, 0)) <= available
  {
    OvershootExactlyWhen(c, kept, available);
    PackStart(c, kept);
  }

  lemma AllSimilar(c: Setup, chunks: seq<Chunk>, kept: seq<Chunk>)
    requires c.threshold <= 0.0 && IsDeduplicated(c, chunks, kept)
    ensures |kept| <= 1
  {
    if |kept| > 1 {
      JaccardBounds(Words(c, kept[1].content), Words(c, kept[0].content));
    }
  }

  lemma NoSeparatorFits(c: Setup, kept: seq<Chunk>, available: nat)
    requires c.separator == ""
    ensures TokensOf(c, kept, Included(c, kept, available, 0)) <= available
  {
    OvershootBounded(c, kept, available);
  }

  /** The budget is kept by every build exactly when there is no separator, or everything counts as a duplicate. */
  lemma BudgetKeptExactlyWhen(c: Setup, sort: Sorter)
    requires Sorts(sort) && LaysOutContent(c)
    ensures BuildsWithinBudget(c, sort) <==> c.separator == "" || (c.deduplicate && c.threshold <= 0.0)
  {
    hide Sorts, LaysOutContent, EstimateTokens, TokensOf, Included, IsDeduplicated, Available;
    if c.separator == "" || (c.deduplicate && c.threshold <= 0.0) {
      forall chunks, kept, opts | Packs(c, sort, chunks, kept) && Available(c, opts) >= 0
        ensures TokensOf(c, kept, Included(c, kept, Available(c, opts), 0)) <= Available(c, opts)
      {
        if c.separator == "" {
          NoSeparatorFits(c, kept, Available(c, opts));
        } else {
          AllSimilar(c, sort(chunks), kept);
          OneChunkFits(c, kept, Available(c, opts));
        }
      }
    } else {
      hide BuildsWithinBudget;
      SomeBuildOvershoots(c, sort);
    }
  }

  // ----- the constructor -----

  const DEFAULT_SEPARATOR := "\n\n---\n\n"

  /** The defaults a builder applies to a configuration. */
  function NewContextBuilder(config: Setup): (c: Setup)
    ensures c.separator != "" && c.threshold != 0.0 && c.maxTokens != 0
    ensures c.deduplicate == config.deduplicate && c.format == config.format
    ensures c.normalize == config.normalize && c.fields == config.fields
    ensures config.separator != "" ==> c.separator == config.separator
    ensures config.threshold != 0.0 ==> c.threshold == config.threshold
    ensures config.separator == "" ==> c.separator == "\n\n---\n\n"
    ensures config.threshold == 0.0 ==> c.threshold == 0.85
    ensures config.maxTokens == 0 ==> c.maxTokens == 3000
    ensures config.maxTokens != 0 ==> c.maxTokens == config.maxTokens
  {
    config.(
      maxTokens := if config.maxTokens == 0 then 3000 else config.maxTokens,
      separator := if config.separator == "" then DEFAULT_SEPARATOR else config.separator,
      threshold := if config.threshold == 0.0 then 0.85 else config.threshold)
  }

  /** So a builder keeps every budget exactly when it deduplicates below a negative threshold: with the documented
      thresholds, from 0 to 1, no builder does. */
  lemma NoBuilderKeepsEveryBudget(config: Setup, sort: Sorter)
    requires Sorts(sort) && LaysOutContent(config)
    ensures BuildsWithinBudget(NewContextBuilder(config), sort) <==> config.deduplicate && config.threshold < 0.0
  {
    hide BuildsWithinBudget, Sorts;
    BudgetKeptExactlyWhen(NewContextBuilder(config), sort);
  }

  method Build(c: Setup, sort: Sorter, chunks: seq<Chunk>, opts: Options)
    returns (r: BuiltContext, ghost kept: seq<Chunk>)
    requires Sorts(sort)
    ensures chunks == [] ==> r == BuiltContext("", 0, [], 0, [])
    // What remains after sorting and deduplication ...
    ensures chunks != [] ==> Packs(c, sort, chunks, kept)
    // ... is cut to a prefix: included and truncated chunks add up, citations are parallel and numbered from 1.
    ensures chunks != [] ==>
              && r.includedChunks <= kept
              && |r.includedChunks| == Included(c, kept, Available(c, opts), 0)
              && |r.includedChunks| + r.truncatedCount == |kept|
              && |r.citations| == |r.includedChunks|
              && (forall i :: 0 <= i < |r.citations| ==> Cites(r.citations[i], r.includedChunks[i], i + 1))
              && r.text == TextOf(c, kept, |r.includedChunks|)
              && r.tokenCount == TokensOf(c, kept, |r.includedChunks|)
    ensures chunks != [] && Available(c, opts) >= 0 ==>
              EstimateTokens(r.text) <= r.tokenCount <= Available(c, opts) + EstimateTokens(c.separator)
  {
    kept := [];
    if |chunks| == 0 {
      return BuiltContext("", 0, [], 0, []), [];
    }
    var sortedChunks := sort(chunks);
    if c.deduplicate {
      sortedChunks := DeduplicateChunks(c, sortedChunks);
    }
    kept := sortedChunks;
    var available := Available(c, opts);
    hide IsDeduplicated, EstimateTokens, TextOf, TokensOf, Included, Available;
    r := Pack(c, sortedChunks, available);
    if available >= 0 {
      OvershootBounded(c, kept, available);
    }
  }
}
