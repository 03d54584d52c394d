/** The embedding cache and the batched, retried computation that fills it. */
module Embedder {
  import opened Common

  type Embedding = seq<real>

  ghost predicate Injective(hash: string -> string) {
    forall s, t :: hash(s) == hash(t) ==> s == t
  }

  // ----- the cache -----

  /** Keys are hashes of texts; `inserted` remembers every insertion since the last clear. */
  class EmbeddingCache {
    const hash: string -> string
    const maxSize: nat
    var entries: map<string, Embedding>
    var order: seq<string>
    ghost var inserted: seq<string>

    ghost predicate Valid()
      reads this
    {
      && Distinct(order)
      && entries.Keys == Elements(order)
      && order == Window(inserted, maxSize)
    }

    /** Every entry holds the model's answer for each text hashing to its key. */
    ghost predicate Correct(model: string -> Embedding)
      reads this
    {
      forall text :: hash(text) in entries ==> entries[hash(text)] == model(text)
    }

    constructor (hash: string -> string, maxSize: nat)
      ensures Valid() && entries == map[] && inserted == []
      ensures this.hash == hash && this.maxSize == maxSize
    {
      this.hash, this.maxSize := hash, maxSize;
      entries, order, inserted := map[], [], [];
    }

    method Get(text: string) returns (r: Option<Embedding>)
      ensures r == if hash(text) in entries then Some(entries[hash(text)]) else None
    {
      var key := hash(text);
      if key !in entries {
        return None;
      }
      r := Some(entries[key]);
    }

    /** A present key is left alone, so neither reads nor repeated writes refresh an entry. */
    method Set(text: string, embedding: Embedding)
      requires Valid()
      modifies this
      ensures Valid()
      ensures hash(text) in old(entries) ==>
                entries == old(entries) && order == old(order) && inserted == old(inserted)
      ensures hash(text) !in old(entries) ==> inserted == old(inserted) + [hash(text)]
      ensures inserted == AfterWrite(old(inserted), hash(text), maxSize)
      ensures hash(text) !in old(entries) && 0 < maxSize == |old(order)| ==>
                entries == (old(entries) - {old(order)[0]})[hash(text) := embedding]
      ensures hash(text) !in old(entries) && !(0 < maxSize == |old(order)|) ==>
                entries == old(entries)[hash(text) := embedding]
    {
      var key := hash(text);
      if key in entries {
        return;
      }
      DistinctCount(order);
      ghost var before := order;
      WindowSlides(inserted, key, maxSize);
      if |entries| >= maxSize && maxSize > 0 {
        if |order| > 0 {
          var oldest := order[0];
          order := order[1..];
          DroppingFirst(before);
          entries := entries - {oldest};
        }
      }
      entries := entries[key := embedding];
      AddingLast(order, key);
      order := order + [key];
      inserted := inserted + [key];
    }

    method Clear()
      modifies this
      ensures Valid() && entries == map[] && order == [] && inserted == []
    {
      entries, order, inserted := map[], [], [];
    }
  }

  ghost function Elements(s: seq<string>): set<string> {
    set x | x in s
  }

  /** The keys kept by first-in-first-out eviction, given every effective insertion so far. */
  function Window(inserted: seq<string>, maxSize: nat): seq<string> {
    if maxSize == 0 then inserted else LastUpTo(inserted, maxSize)
  }

  /** The insertions after one more write: a stored key is left alone. */
  function AfterWrite(inserted: seq<string>, key: string, maxSize: nat): seq<string> {
    if key in Window(inserted, maxSize) then inserted else inserted + [key]
  }

  lemma WindowSlides(inserted: seq<string>, key: string, maxSize: nat)
    ensures
      var w := Window(inserted, maxSize);
      Window(inserted + [key], maxSize) == (if 0 < maxSize <= |w| then w[1..] else w) + [key]
  {
  }

  lemma DroppingFirst(s: seq<string>)
    requires s != [] && Distinct(s)
    ensures Distinct(s[1..]) && Elements(s[1..]) == Elements(s) - {s[0]}
  {
    assert s == [s[0]] + s[1..];
  }

  lemma AddingLast(s: seq<string>, key: string)
    requires Distinct(s) && key !in s
    ensures Distinct(s + [key]) && Elements(s + [key]) == Elements(s) + {key}
  {
  }

  lemma {:induction false} DistinctCount(s: seq<string>)
    requires Distinct(s)
    ensures |Elements(s)| == |s|
  {
    if s != [] {
      DistinctCount(s[1..]);
      assert Elements(s) == {s[0]} + Elements(s[1..]);
    }
  }

  /** First in, first out: a key leaves exactly when `maxSize` later insertions have happened. */
  lemma EvictedAfterMaxSize(earlier: seq<string>, key: string, later: seq<string>, maxSize: nat)
    requires key !in later
    ensures key in Window(earlier + [key] + later, maxSize) <==> maxSize == 0 || |later| < maxSize
  {
    var all := earlier + [key] + later;
    var w := Window(all, maxSize);
    assert all[|earlier|] == key;
    if maxSize == 0 || |all| <= maxSize {
      assert w[|earlier|] == key;
    } else if |later| < maxSize {
      assert w[maxSize - 1 - |later|] == all[|earlier|];
    } else {
      assert forall i :: 0 <= i < |w| ==> w[i] == later[|later| - maxSize + i];
    }
  }

  // ----- eviction against recency of use -----

  /** A use of the cache: a lookup, which changes nothing, or a write. */
  datatype Use = Lookup(key: string) | Insert(key: string)

  /** The effective insertions of a run. */
  function Inserted(maxSize: nat, uses: seq<Use>): seq<string> {
    if uses == [] then []
    else
      var before, last := Inserted(maxSize, uses[..|uses| - 1]), uses[|uses| - 1];
      if last.Insert? then AfterWrite(before, last.key, maxSize) else before
  }

  /** The keys stored after a run, oldest insertion first. */
  function Stored(maxSize: nat, uses: seq<Use>): seq<string> {
    Window(Inserted(maxSize, uses), maxSize)
  }

  /** When a key was last looked up or written, counted from 1; 0 for never. */
  function LastUse(uses: seq<Use>, key: string): nat {
    if uses == [] then 0
    else if uses[|uses| - 1].key == key then |uses|
    else LastUse(uses[..|uses| - 1], key)
  }

  /** When a key last went in. */
  function InsertedAt(maxSize: nat, uses: seq<Use>, key: string): nat {
    if uses == [] then 0
    else
      var front := uses[..|uses| - 1];
      if uses[|uses| - 1] == Insert(key) && key !in Stored(maxSize, front) then |uses|
      else InsertedAt(maxSize, front, key)
  }

  /** Writing `key` now makes the first stored key leave. */
  predicate Evicts(maxSize: nat, uses: seq<Use>, key: string) {
    key !in Stored(maxSize, uses) && 0 < maxSize <= |Stored(maxSize, uses)|
  }

  /** The key that leaves is the least recently used one: no other stored key's last use is older. */
  predicate EvictsLeastRecent(maxSize: nat, uses: seq<Use>, key: string) {
    Evicts(maxSize, uses, key) ==>
      var stored := Stored(maxSize, uses);
      forall k :: k in stored ==> LastUse(uses, stored[0]) <= LastUse(uses, k)
  }

  /** Every stored key went in, later ones later, and was used no earlier than that. */
  ghost predicate InOrderOfInsertion(maxSize: nat, uses: seq<Use>) {
    var stored := Stored(maxSize, uses);
    && (forall k :: k in stored ==> InsertedAt(maxSize, uses, k) <= LastUse(uses, k) <= |uses|)
    && (forall i :: 0 <= i < |stored| ==> InsertedAt(maxSize, uses, stored[i]) <= |uses|)
    && (forall i, j :: 0 <= i < j < |stored| ==>
          InsertedAt(maxSize, uses, stored[i]) < InsertedAt(maxSize, uses, stored[j]))
  }

  lemma StoredStep(maxSize: nat, before: seq<Use>, u: Use)
    ensures
      var s := Stored(maxSize, before);
      Stored(maxSize, before + [u]) ==
        if u.Insert? && u.key !in s then (if 0 < maxSize <= |s| then s[1..] else s) + [u.key] else s
  {
    assert (before + [u])[..|before|] == before;
    WindowSlides(Inserted(maxSize, before), u.key, maxSize);
  }

  lemma UseStep(maxSize: nat, before: seq<Use>, u: Use, key: string)
    ensures LastUse(before + [u], key) == if u.key == key then |before| + 1 else LastUse(before, key)
    ensures InsertedAt(maxSize, before + [u], key) ==
            if u == Insert(key) && key !in Stored(maxSize, before) then |before| + 1
            else InsertedAt(maxSize, before, key)
  {
    assert (before + [u])[..|before|] == before;
  }

  lemma {:induction false} StoredInOrder(maxSize: nat, uses: seq<Use>)
    ensures InOrderOfInsertion(maxSize, uses)
  {
    if uses != [] {
      var before, u := uses[..|uses| - 1], uses[|uses| - 1];
      StoredInOrder(maxSize, before);
      assert before + [u] == uses;
      OrderStep(maxSize, before, u);
    }
  }

  lemma OrderStep(maxSize: nat, before: seq<Use>, u: Use)
    requires InOrderOfInsertion(maxSize, before)
    ensures InOrderOfInsertion(maxSize, before + [u])
  {
    var s, s' := Stored(maxSize, before), Stored(maxSize, before + [u]);
    StoredStep(maxSize, before, u);
    hide Stored, LastUse, InsertedAt;
    forall k
      ensures LastUse(before + [u], k) == if u.key == k then |before| + 1 else LastUse(before, k)
      ensures InsertedAt(maxSize, before + [u], k) ==
              if u == Insert(k) && k !in s then |before| + 1 else InsertedAt(maxSize, before, k)
    {
      UseStep(maxSize, before, u, k);
    }
    forall k | k in s'
      ensures k in s || (u == Insert(k) && k !in s)
    {
    }
  }

  /** While the oldest key has not been used since it went in, it is also the least recently used one. */
  lemma UntouchedIsLeastRecent(maxSize: nat, uses: seq<Use>, key: string)
    requires Evicts(maxSize, uses, key)
    requires LastUse(uses, Stored(maxSize, uses)[0]) == InsertedAt(maxSize, uses, Stored(maxSize, uses)[0])
    ensures EvictsLeastRecent(maxSize, uses, key)
  {
    StoredInOrder(maxSize, uses);
    hide Stored, LastUse, InsertedAt;
    var s := Stored(maxSize, uses);
    forall k | k in s
      ensures LastUse(uses, s[0]) <= LastUse(uses, k)
    {
      var i :| 0 <= i < |s| && s[i] == k;
      assert i == 0 || InsertedAt(maxSize, uses, s[0]) < InsertedAt(maxSize, uses, s[i]);
    }
  }

  /** Different keys, one for each number. */
  function Key(i: nat): string {
    seq(i, _ => 'k')
  }

  function Keys(n: nat): (r: seq<string>)
    ensures |r| == n && forall i :: 0 <= i < n ==> r[i] == Key(i)
  {
    seq(n, i requires 0 <= i < n => Key(i))
  }

  function Fill(n: nat): seq<Use> {
    if n == 0 then [] else Fill(n - 1) + [Insert(Key(n - 1))]
  }

  lemma FillUnfolds(n: nat)
    requires n > 0
    ensures Fill(n) == Fill(n - 1) + [Insert(Key(n - 1))]
  {
  }

  lemma KeyIsNew(n: nat)
    ensures Key(n) !in Keys(n)
  {
    forall i | 0 <= i < n
      ensures Key(i) != Key(n)
    {
      assert |Key(i)| == i && |Key(n)| == n;
    }
  }

  lemma NothingStored(maxSize: nat)
    ensures Stored(maxSize, Fill(0)) == []
  {
  }

  lemma {:induction false} FillStores(maxSize: nat, n: nat)
    requires n <= maxSize
    ensures Stored(maxSize, Fill(n)) == Keys(n)
  {
    hide Stored, Key, Fill;
    if n == 0 {
      NothingStored(maxSize);
    } else {
      FillStores(maxSize, n - 1);
      KeyIsNew(n - 1);
      StoredStep(maxSize, Fill(n - 1), Insert(Key(n - 1)));
      assert Keys(n) == Keys(n - 1) + [Key(n - 1)];
      FillUnfolds(n);
    }
  }

  lemma {:induction false} FillLastUse(n: nat, i: nat)
    requires i < n
    ensures |Fill(n)| == n && LastUse(Fill(n), Key(i)) == i + 1
    decreases n
  {
    FillLength(n);
    FillLength(n - 1);
    assert |Key(i)| == i && |Key(n - 1)| == n - 1;
    UseStep(0, Fill(n - 1), Insert(Key(n - 1)), Key(i));
    if i < n - 1 {
      FillLastUse(n - 1, i);
    }
  }

  lemma {:induction false} FillLength(n: nat)
    ensures |Fill(n)| == n
  {
    if n > 0 {
      FillLength(n - 1);
    }
  }

  /** The failing family: fill the cache, look the first key up, write another. */
  lemma FirstKeyIsEvicted(maxSize: nat)
    requires maxSize >= 2
    ensures !EvictsLeastRecent(maxSize, Fill(maxSize) + [Lookup(Key(0))], Key(maxSize))
  {
    var uses := Fill(maxSize) + [Lookup(Key(0))];
    FillStores(maxSize, maxSize);
    StoredStep(maxSize, Fill(maxSize), Lookup(Key(0)));
    KeyIsNew(maxSize);
    UseStep(maxSize, Fill(maxSize), Lookup(Key(0)), Key(0));
    UseStep(maxSize, Fill(maxSize), Lookup(Key(0)), Key(1));
    FillLastUse(maxSize, 1);
    assert |Key(0)| == 0 && |Key(1)| == 1;
    hide Stored, LastUse, Key, Fill;
    var stored := Stored(maxSize, uses);
    assert stored[0] == Key(0) && stored[1] == Key(1) && Key(1) in stored;
    assert LastUse(uses, stored[0]) > LastUse(uses, Key(1));
  }

  /** Every eviction of every run takes the least recently used key. */
  ghost predicate IsLru(maxSize: nat) {
    forall uses, key :: EvictsLeastRecent(maxSize, uses, key)
  }

  /** The cache is the LRU cache it is called exactly when it can hold no more than one entry, or is unbounded. */
  lemma LruExactlyWhen(maxSize: nat)
    ensures IsLru(maxSize) <==> maxSize <= 1
  {
    if maxSize <= 1 {
      hide Inserted, LastUse;
    } else {
      FirstKeyIsEvicted(maxSize);
    }
  }

  // ----- the remote model -----

  /** What one attempt against the service meets: an answer with some number of embeddings,
      a refusal, or a context that ends before the request is made. */
  datatype Reply = Answer(count: nat) | Refusal | ContextDone

  datatype EmbedError = ApiFailure | CountMismatch | Cancelled | RetriesExhausted(last: Option<EmbedError>)

  function Pointwise(model: string -> Embedding, texts: seq<string>): (r: seq<Embedding>)
    ensures |r| == |texts|
    ensures forall i :: 0 <= i < |texts| ==> r[i] == model(texts[i])
  {
    seq(|texts|, i requires 0 <= i < |texts| => model(texts[i]))
  }

  /** The environment: `script` says how the n-th attempt of the run fares. */
  class EmbeddingApi {
    const model: string -> Embedding
    const script: nat -> Reply
    var attempts: nat

    predicate Answers(n: nat, texts: seq<string>) {
      script(n) == Answer(|texts|)
    }

    predicate Retriable(n: nat, texts: seq<string>) {
      !Answers(n, texts) && script(n) != ContextDone
    }

    constructor (model: string -> Embedding, script: nat -> Reply)
      ensures this.model == model && this.script == script && attempts == 0
    {
      this.model, this.script, attempts := model, script, 0;
    }

    /** One request; a reply of the wrong length is an error. */
    method DoEmbedBatch(texts: seq<string>) returns (r: Result<seq<Embedding>, EmbedError>)
      modifies this
      ensures attempts == old(attempts) + 1
      ensures r.Success? <==> Answers(old(attempts), texts)
      ensures r.Success? ==> r.value == Pointwise(model, texts)
      ensures r == Failure(Cancelled) <==> script(old(attempts)) == ContextDone
    {
      var reply := script(attempts);
      attempts := attempts + 1;
      match reply
      case ContextDone => r := Failure(Cancelled);
      case Refusal => r := Failure(ApiFailure);
      case Answer(count) =>
        var data := seq(count, i requires 0 <= i < count => if i < |texts| then model(texts[i]) else []);
        if |data| != |texts| {
          return Failure(CountMismatch);
        }
        assert data == Pointwise(model, texts);
        r := Success(data);
    }
  }

  /** How often one batch may be asked for. */
  function Tries(maxRetries: int): nat {
    if maxRetries < 0 then 0 else maxRetries + 1
  }

  /** The attempt that answers a batch of `size` texts, counting on from attempt `n`; none once the context ends. */
  function FirstAnswer(script: nat -> Reply, n: nat, size: nat, tries: nat): (m: Option<nat>)
    ensures m.Some? ==> n <= m.value < n + tries
    decreases tries
  {
    if tries == 0 then None
    else if script(n) == Answer(size) then Some(n)
    else if script(n) == ContextDone then None
    else FirstAnswer(script, n + 1, size, tries - 1)
  }

  /** It exists exactly when some attempt within the budget answers and all before it may be repeated. */
  lemma {:induction false} FirstAnswerExactlyWhen(script: nat -> Reply, n: nat, size: nat, tries: nat)
    ensures FirstAnswer(script, n, size, tries).Some? <==>
            exists m :: n <= m < n + tries && script(m) == Answer(size) &&
              forall i :: n <= i < m ==> script(i) != Answer(size) && script(i) != ContextDone
    decreases tries
  {
    if tries > 0 && script(n) != Answer(size) && script(n) != ContextDone {
      FirstAnswerExactlyWhen(script, n + 1, size, tries - 1);
    }
  }

  lemma {:induction false} AnswerAfter(script: nat -> Reply, n: nat, size: nat, tries: nat, k: nat)
    requires k <= tries && forall i :: n <= i < n + k ==> script(i) != Answer(size) && script(i) != ContextDone
    ensures FirstAnswer(script, n, size, tries) == FirstAnswer(script, n + k, size, tries - k)
    decreases k
  {
    if k > 0 {
      AnswerAfter(script, n + 1, size, tries - 1, k - 1);
    }
  }

  lemma AnswerNow(script: nat -> Reply, n: nat, size: nat, tries: nat)
    requires tries > 0
    ensures script(n) == Answer(size) ==> FirstAnswer(script, n, size, tries) == Some(n)
    ensures script(n) == ContextDone ==> FirstAnswer(script, n, size, tries).None?
  {
  }

  /** Every batch, in order, meets an answer within its own retry budget before the context ends. */
  predicate AllAnswered(script: nat -> Reply, n: nat, total: nat, batchSize: nat, tries: nat)
    requires batchSize >= 1
    decreases total
  {
    total == 0 ||
    var size := if total < batchSize then total else batchSize;
    var m := FirstAnswer(script, n, size, tries);
    m.Some? && AllAnswered(script, m.value + 1, total - size, batchSize, tries)
  }

  // ----- the embedder -----

  function MissCount(hash: string -> string, keys: set<string>, texts: seq<string>): nat {
    if texts == [] then 0
    else MissCount(hash, keys, texts[..|texts| - 1]) + if hash(texts[|texts| - 1]) in keys then 0 else 1
  }

  class OpenAIEmbedder {
    const api: EmbeddingApi
    const cache: EmbeddingCache?
    const maxBatchSize: int
    const maxRetries: int
    var cacheHits: int
    var cacheMisses: int
    var errors: int
    var totalRequests: int
    var totalTexts: int

    constructor (api: EmbeddingApi, cache: EmbeddingCache?, maxBatchSize: int, maxRetries: int)
      ensures this.api == api && this.cache == cache
      ensures this.maxBatchSize == maxBatchSize && this.maxRetries == maxRetries
      ensures cacheHits == cacheMisses == errors == totalRequests == totalTexts == 0
    {
      this.api, this.cache, this.maxBatchSize, this.maxRetries := api, cache, maxBatchSize, maxRetries;
      cacheHits, cacheMisses, errors, totalRequests, totalTexts := 0, 0, 0, 0, 0;
    }

    ghost predicate Ready()
      reads this, cache
    {
      cache != null ==> cache.Valid() && cache.Correct(api.model) && Injective(cache.hash)
    }

    /** Succeeds exactly when some attempt within the retry budget answers before the context ends. */
    method EmbedBatchWithRetry(texts: seq<string>) returns (r: Result<seq<Embedding>, EmbedError>)
      modifies api
      ensures r.Success? ==> r.value == Pointwise(api.model, texts)
      ensures
        var m := FirstAnswer(api.script, old(api.attempts), |texts|, Tries(maxRetries));
        && (r.Success? <==> m.Some?)
        && (r.Success? ==> api.attempts == m.value + 1)
      ensures old(api.attempts) <= api.attempts <= old(api.attempts) + if maxRetries < 0 then 0 else maxRetries + 1
    {
      hide FirstAnswer;
      var lastErr := None;
      var attempt: nat := 0;
      ghost var start := api.attempts;
      while attempt <= maxRetries
        invariant attempt <= Tries(maxRetries)
        invariant api.attempts == start + attempt
        invariant forall i :: start <= i < start + attempt ==>
                    api.script(i) != Answer(|texts|) && api.script(i) != ContextDone
      {
        AnswerAfter(api.script, start, |texts|, Tries(maxRetries), attempt);
        AnswerNow(api.script, start + attempt, |texts|, Tries(maxRetries) - attempt);
        r := api.DoEmbedBatch(texts);
        if r.Success? {
          return;
        }
        if r == Failure(Cancelled) {
          return;
        }
        lastErr := Some(r.error);
        attempt := attempt + 1;
      }
      AnswerAfter(api.script, start, |texts|, Tries(maxRetries), attempt);
      r := Failure(RetriesExhausted(lastErr));
    }

    method CacheEmbedding(text: string, embedding: Embedding)
      requires Ready() && embedding == api.model(text)
      modifies cache
      ensures Ready()
    {
      if cache != null {
        cache.Set(text, embedding);
      }
    }

    /** Every slot is filled with the model's answer, or waits its turn. */
    ghost predicate Filled(texts: seq<string>, pending: seq<nat>, results: array<Embedding>)
      requires results.Length == |texts|
      reads results
    {
      forall t :: 0 <= t < |texts| ==> t in pending || results[t] == api.model(texts[t])
    }

    /** The queued texts with the positions they came from. */
    ghost predicate Queued(texts: seq<string>, queue: seq<string>, positions: seq<nat>) {
      && |queue| == |positions|
      && forall m :: 0 <= m < |positions| ==> positions[m] < |texts| && texts[positions[m]] == queue[m]
    }

    /** One batch of answers goes to its slots and into the cache. */
    method StoreBatch(ghost texts: seq<string>, batchTexts: seq<string>, batchIndices: seq<nat>,
                      embeddings: seq<Embedding>, results: array<Embedding>)
      requires Ready() && embeddings == Pointwise(api.model, batchTexts)
      requires Queued(texts, batchTexts, batchIndices) && results.Length == |texts|
      modifies cache, results
      ensures Ready()
      ensures forall t :: 0 <= t < |texts| ==>
                results[t] == if t in batchIndices then api.model(texts[t]) else old(results[t])
    {
      for j := 0 to |embeddings|
        invariant Ready()
        invariant forall t :: 0 <= t < |texts| ==>
                    results[t] == if t in batchIndices[..j] then api.model(texts[t]) else old(results[t])
      {
        assert batchIndices[..j + 1] == batchIndices[..j] + [batchIndices[j]];
        var originalIdx := batchIndices[j];
        results[originalIdx] := embeddings[j];
        CacheEmbedding(batchTexts[j], embeddings[j]);
      }
      assert batchIndices[..|embeddings|] == batchIndices;
    }

    /** One round of the batch loop: asks for a batch and, when it is answered, stores it. */
    method EmbedOneBatch(ghost texts: seq<string>, batchTexts: seq<string>, batchIndices: seq<nat>,
                         ghost rest: seq<nat>, results: array<Embedding>) returns (failure: Option<EmbedError>)
      requires Ready() && Queued(texts, batchTexts, batchIndices) && results.Length == |texts|
      requires Filled(texts, batchIndices + rest, results)
      modifies api, cache, results
      ensures Ready()
      ensures
        var m := FirstAnswer(api.script, old(api.attempts), |batchTexts|, Tries(maxRetries));
        && (failure.None? <==> m.Some?)
        && (failure.None? ==> api.attempts == m.value + 1 && Filled(texts, rest, results))
    {
      hide FirstAnswer;
      var r := EmbedBatchWithRetry(batchTexts);
      if r.Failure? {
        return Some(r.error);
      }
      StoreBatch(texts, batchTexts, batchIndices, r.value, results);
      failure := None;
    }

    /** The batch loop: fills the slots the cache could not, storing each answer as it arrives. */
    method EmbedMissing(texts: seq<string>, textsToEmbed: seq<string>, textIndices: seq<nat>, results: array<Embedding>)
      returns (r: Result<seq<Embedding>, EmbedError>)
      requires Ready() && maxBatchSize >= 1
      requires |textIndices| == |textsToEmbed| > 0 && results.Length == |texts|
      requires Queued(texts, textsToEmbed, textIndices)
      requires Filled(texts, textIndices, results)
      modifies `errors, `totalRequests, `totalTexts, api, cache, results
      ensures Ready()
      ensures r.Success? <==>
                AllAnswered(api.script, old(api.attempts), |textsToEmbed|, maxBatchSize, Tries(maxRetries))
      ensures r.Success? ==> r.value == Pointwise(api.model, texts)
      ensures errors == old(errors) + if r.Success? then 0 else 1
      ensures r.Success? ==>
                && totalTexts == old(totalTexts) + |textsToEmbed|
                && |textsToEmbed| <= (totalRequests - old(totalRequests)) * maxBatchSize < |textsToEmbed| + maxBatchSize
    {
      hide FirstAnswer, AllAnswered, Queued, Filled;
      var i, end := 0, 0;
      while i < |textsToEmbed|
        invariant 0 <= i && end == Least(i, |textsToEmbed|)
        invariant i == (totalRequests - old(totalRequests)) * maxBatchSize
        invariant i < |textsToEmbed| + maxBatchSize
        invariant totalTexts == old(totalTexts) + end
        invariant errors == old(errors)
        invariant Ready()
        invariant Filled(texts, textIndices[end..], results)
        invariant AllAnswered(api.script, old(api.attempts), |textsToEmbed|, maxBatchSize, Tries(maxRetries)) <==>
                  AllAnswered(api.script, api.attempts, |textsToEmbed| - end, maxBatchSize, Tries(maxRetries))
      {
        end := i + maxBatchSize;
        if end > |textsToEmbed| {
          end := |textsToEmbed|;
        }
        var batchTexts := textsToEmbed[i..end];
        var batchIndices := textIndices[i..end];
        assert textIndices[i..] == batchIndices + textIndices[end..];
        QueuedSlice(texts, textsToEmbed, textIndices, i, end);
        NextBatch(api.script, api.attempts, |textsToEmbed| - i, maxBatchSize, Tries(maxRetries));
        var failure := EmbedOneBatch(texts, batchTexts, batchIndices, textIndices[end..], results);
        if failure.Some? {
          errors := errors + 1;
          return Failure(failure.value);
        }
        CountRequests(totalRequests - old(totalRequests), maxBatchSize);
        totalRequests, totalTexts := totalRequests + 1, totalTexts + |batchTexts|;
        i := i + maxBatchSize;
      }
      NothingLeft(api.script, api.attempts, maxBatchSize, Tries(maxRetries));
      assert textIndices[end..] == [];
      FilledAll(texts, results);
      r := Success(results[..]);
    }

    lemma FilledAll(texts: seq<string>, results: array<Embedding>)
      requires results.Length == |texts| && Filled(texts, [], results)
      ensures results[..] == Pointwise(api.model, texts)
    {
    }

    lemma QueuedSlice(texts: seq<string>, queue: seq<string>, positions: seq<nat>, i: nat, end: nat)
      requires Queued(texts, queue, positions) && i <= end <= |queue| == |positions|
      ensures Queued(texts, queue[i..end], positions[i..end])
    {
    }

    /** First pass: hits are placed, misses are queued with their positions. */
    method LookUp(texts: seq<string>, results: array<Embedding>)
      returns (textsToEmbed: seq<string>, textIndices: seq<nat>)
      requires Ready() && cache != null && results.Length == |texts|
      modifies `cacheHits, `cacheMisses, results
      ensures |textsToEmbed| == |textIndices| == MissCount(cache.hash, cache.entries.Keys, texts)
      ensures Queued(texts, textsToEmbed, textIndices) && Filled(texts, textIndices, results)
      ensures cacheMisses == old(cacheMisses) + |textIndices|
      ensures cacheHits == old(cacheHits) + |texts| - |textIndices|
    {
      hide MissCount;
      textsToEmbed, textIndices := [], [];
      NothingMissed(cache.hash, cache.entries.Keys);
      for i := 0 to |texts|
        invariant |textsToEmbed| == |textIndices| == MissCount(cache.hash, cache.entries.Keys, texts[..i])
        invariant Queued(texts, textsToEmbed, textIndices)
        invariant forall t :: 0 <= t < i ==> t in textIndices || results[t] == api.model(texts[t])
        invariant cacheMisses == old(cacheMisses) + |textIndices|
        invariant cacheHits == old(cacheHits) + i - |textIndices|
      {
        MissedNext(cache.hash, cache.entries.Keys, texts, i);
        var embedding := cache.Get(texts[i]);
        if embedding.Some? {
          results[i] := embedding.value;
          cacheHits := cacheHits + 1;
        } else {
          textsToEmbed := textsToEmbed + [texts[i]];
          textIndices := textIndices + [i];
          cacheMisses := cacheMisses + 1;
        }
      }
      assert texts[..|texts|] == texts;
    }

    /** Without a cache everything is queued. */
    method QueueAll(texts: seq<string>, results: array<Embedding>)
      returns (textsToEmbed: seq<string>, textIndices: seq<nat>)
      requires results.Length == |texts|
      ensures textsToEmbed == texts && |textIndices| == |texts|
      ensures Queued(texts, textsToEmbed, textIndices) && Filled(texts, textIndices, results)
    {
      textsToEmbed, textIndices := texts, [];
      for i := 0 to |texts|
        invariant |textIndices| == i && forall k :: 0 <= k < i ==> textIndices[k] == k
      {
        textIndices := textIndices + [i];
      }
      assert forall t :: 0 <= t < |texts| ==> textIndices[t] == t;
    }

    /** How many texts a call has to ask the model for. */
    ghost function Asked(texts: seq<string>): nat
      reads this, cache
    {
      if cache == null then |texts| else MissCount(cache.hash, cache.entries.Keys, texts)
    }

    /** The batched, cached computation refines the pointwise map, and a failure leaves the cache truthful. */
    method EmbedBatch(texts: seq<string>) returns (r: Result<seq<Embedding>, EmbedError>)
      requires Ready() && maxBatchSize >= 1
      modifies this, api, cache
      ensures Ready()
      ensures r.Success? <==>
                AllAnswered(api.script, old(api.attempts), old(Asked(texts)), maxBatchSize, Tries(maxRetries))
      ensures r.Success? ==> r.value == Pointwise(api.model, texts)
      ensures old(Asked(texts)) == 0 ==> api.attempts == old(api.attempts)
      ensures cache != null ==>
                && cacheMisses == old(cacheMisses) + old(Asked(texts))
                && cacheHits == old(cacheHits) + |texts| - old(Asked(texts))
      ensures cache == null ==> cacheHits == old(cacheHits) && cacheMisses == old(cacheMisses)
      ensures errors == old(errors) + if r.Success? then 0 else 1
      ensures r.Success? ==>
                && totalTexts == old(totalTexts) + old(Asked(texts))
                && old(Asked(texts)) <= (totalRequests - old(totalRequests)) * maxBatchSize
                && (totalRequests - old(totalRequests)) * maxBatchSize < old(Asked(texts)) + maxBatchSize
    {
      hide AllAnswered, MissCount, Queued, Filled;
      NothingLeft(api.script, api.attempts, maxBatchSize, Tries(maxRetries));
      if |texts| == 0 {
        if cache != null { NothingMissed(cache.hash, cache.entries.Keys); }
        return Success([]);
      }
      var results := new Embedding[|texts|](_ => []);
      var textsToEmbed: seq<string> := [];
      var textIndices: seq<nat> := [];
      if cache != null {
        textsToEmbed, textIndices := LookUp(texts, results);
      } else {
        textsToEmbed, textIndices := QueueAll(texts, results);
      }
      if |textsToEmbed| == 0 {
        NothingQueued(texts, textsToEmbed, textIndices);
        FilledAll(texts, results);
        return Success(results[..]);
      }
      r := EmbedMissing(texts, textsToEmbed, textIndices, results);
    }

    lemma NothingQueued(texts: seq<string>, queue: seq<string>, positions: seq<nat>)
      requires Queued(texts, queue, positions) && queue == []
      ensures positions == []
    {
    }
  }

  function Least(a: int, b: int): int {
    if a < b then a else b
  }

  lemma CountRequests(n: int, batchSize: int)
    ensures (n + 1) * batchSize == n * batchSize + batchSize
  {
  }

  lemma NothingLeft(script: nat -> Reply, n: nat, batchSize: nat, tries: nat)
    requires batchSize >= 1
    ensures AllAnswered(script, n, 0, batchSize, tries)
  {
  }

  lemma NextBatch(script: nat -> Reply, n: nat, total: nat, batchSize: nat, tries: nat)
    requires batchSize >= 1 && total > 0
    ensures
      var size := if total < batchSize then total else batchSize;
      var m := FirstAnswer(script, n, size, tries);
      AllAnswered(script, n, total, batchSize, tries) <==>
      m.Some? && AllAnswered(script, m.value + 1, total - size, batchSize, tries)
  {
    hide FirstAnswer;
  }

  lemma NothingMissed(hash: string -> string, keys: set<string>)
    ensures MissCount(hash, keys, []) == 0
  {
  }

  lemma MissedNext(hash: string -> string, keys: set<string>, texts: seq<string>, i: nat)
    requires i < |texts|
    ensures MissCount(hash, keys, texts[..i + 1]) ==
            MissCount(hash, keys, texts[..i]) + if hash(texts[i]) in keys then 0 else 1
  {
    assert texts[..i + 1][..i] == texts[..i];
  }
}
