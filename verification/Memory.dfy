/** Conversation memory: a message log behind an in-memory list and a Redis entry. */
module Memory {
  import opened Common

  type ConversationId = nat

  datatype Message = Message(id: nat, conversation: ConversationId, role: string, content: string)

  type Logs = map<ConversationId, seq<Message>>

  function LogOf(logs: Logs, c: ConversationId): seq<Message> {
    if c in logs then logs[c] else []
  }

  // ----- suffixes -----

  lemma SuffixGrows(s: seq<Message>, log: seq<Message>, m: Message)
    requires IsSuffix(s, log)
    ensures IsSuffix(s + [m], log + [m])
  {
  }

  lemma LastUpToIsSuffix(s: seq<Message>, log: seq<Message>, n: nat)
    requires IsSuffix(s, log)
    ensures IsSuffix(LastUpTo(s, n), log) && |LastUpTo(s, n)| <= n
  {
  }

  lemma WholeWindowExactlyWhen(s: seq<Message>, log: seq<Message>, n: nat)
    requires IsSuffix(s, log)
    ensures LastUpTo(s, n) == LastUpTo(log, n) <==> |s| >= n || |s| == |log|
  {
    var start := |log| - |s|;
    assert log[start..] == s;
    if |s| >= n {
      assert log[|log| - n..] == s[|s| - n..];
      assert log[|log| - n..] == LastUpTo(log, n) && s[|s| - n..] == LastUpTo(s, n);
    } else {
      assert |LastUpTo(s, n)| == |s|;
    }
  }

  // ----- the database query -----

  /** ORDER BY created_at DESC LIMIT n: the newest `n` messages, newest first. */
  function NewestFirst(log: seq<Message>, n: nat): (rows: seq<Message>)
    ensures |rows| == if n < |log| then n else |log|
    ensures forall i :: 0 <= i < |rows| ==> rows[i] == log[|log| - 1 - i]
  {
    seq(if n < |log| then n else |log|, i requires 0 <= i < |log| => log[|log| - 1 - i])
  }

  /** Turns the rows round in place. */
  method ReverseMessages(messages: array<Message>)
    modifies messages
    ensures forall k :: 0 <= k < messages.Length ==> messages[k] == old(messages[messages.Length - 1 - k])
  {
    var n := messages.Length;
    var i, j := 0, n - 1;
    while i < j
      invariant 0 <= i && j == n - 1 - i && i <= j + 2
      invariant forall k :: 0 <= k < i || j < k < n ==> messages[k] == old(messages[n - 1 - k])
      invariant forall k :: i <= k <= j ==> messages[k] == old(messages[k])
    {
      messages[i], messages[j] := messages[j], messages[i];
      i, j := i + 1, j - 1;
    }
  }

  // ----- token budget -----

  function EstimateTokens(text: string): (n: nat)
    ensures 4 * n <= |text| < 4 * n + 4
  {
    |text| / 4
  }

  function Tokens(ms: seq<Message>): nat {
    if ms == [] then 0 else EstimateTokens(ms[0].content) + Tokens(ms[1..])
  }

  lemma {:induction false} TokensOfSuffix(ms: seq<Message>, i: nat, j: nat)
    requires i <= j <= |ms|
    ensures Tokens(ms[j..]) <= Tokens(ms[i..])
    decreases j - i
  {
    if i < j {
      TokensOfSuffix(ms, i + 1, j);
      assert ms[i..][1..] == ms[i + 1..];
    }
  }

  /** `s` is the longest suffix of `ms` that fits, when anything can fit at all. */
  ghost predicate IsLongestFitting(s: seq<Message>, ms: seq<Message>, budget: int) {
    && IsSuffix(s, ms)
    && (budget >= 0 ==> Tokens(s) <= budget)
    && (budget < 0 ==> s == [])
    && forall t: seq<Message> :: IsSuffix(t, ms) && |t| > |s| ==> Tokens(t) > budget
  }

  method FitToBudget(messages: seq<Message>, budget: int) returns (contextMessages: seq<Message>)
    ensures IsLongestFitting(contextMessages, messages, budget)
  {
    var totalTokens: int := 0;
    contextMessages := [];
    var i := |messages|;
    while i > 0
      invariant 0 <= i <= |messages|
      invariant contextMessages == messages[i..] && totalTokens == Tokens(contextMessages)
      invariant totalTokens <= budget || contextMessages == []
    {
      var msgTokens := EstimateTokens(messages[i - 1].content);
      assert messages[i - 1..][1..] == messages[i..];
      if totalTokens + msgTokens > budget {
        break;
      }
      contextMessages := [messages[i - 1]] + contextMessages;
      assert contextMessages == messages[i - 1..];
      totalTokens := totalTokens + msgTokens;
      i := i - 1;
    }
    forall t: seq<Message> | IsSuffix(t, messages) && |t| > |contextMessages|
      ensures Tokens(t) > budget
    {
      var start := |messages| - |t|;
      TokensOfSuffix(messages, start, i - 1);
      assert t == messages[start..];
    }
  }

  // ----- caches against logs -----

  /** Each cached list is a suffix of its log: nothing missing at the end, nothing foreign, nothing out of order. */
  ghost predicate Mirrors(lists: Logs, log: Logs) {
    forall c :: c in lists ==> IsSuffix(lists[c], LogOf(log, c))
  }

  ghost predicate NoEmpty(lists: Logs) {
    forall c :: c in lists ==> lists[c] != []
  }

  ghost predicate SameLogs(a: Logs, b: Logs) {
    forall c :: LogOf(a, c) == LogOf(b, c)
  }

  lemma MirrorsAt(lists: Logs, log: Logs, c: ConversationId)
    requires Mirrors(lists, log)
    ensures IsSuffix(LogOf(lists, c), LogOf(log, c))
  {
  }

  lemma MirrorsSet(lists: Logs, log: Logs, c: ConversationId, s: seq<Message>)
    requires Mirrors(lists, log) && IsSuffix(s, LogOf(log, c))
    ensures Mirrors(lists[c := s], log)
  {
  }

  lemma MirrorsAppend(lists: Logs, log: Logs, c: ConversationId, m: Message)
    requires Mirrors(lists, log)
    ensures Mirrors(lists[c := LogOf(lists, c) + [m]], log[c := LogOf(log, c) + [m]])
  {
    MirrorsAt(lists, log, c);
    SuffixGrows(LogOf(lists, c), LogOf(log, c), m);
    hide IsSuffix;
  }

  /** A list of conversations without one of them. */
  function Forgotten(lists: Logs, c: ConversationId): Logs {
    lists - {c}
  }

  lemma ForgetNothing(c: ConversationId)
    ensures Forgotten(map[], c) == map[]
  {
  }

  lemma MirrorsDrop(lists: Logs, log: Logs, c: ConversationId, s: seq<Message>)
    requires Mirrors(lists, log)
    ensures Mirrors(Forgotten(lists, c), log) && Mirrors(Forgotten(lists, c), log[c := s])
    ensures NoEmpty(lists) ==> NoEmpty(Forgotten(lists, c))
  {
    hide IsSuffix;
  }

  lemma LastIsLatest(s: seq<Message>, log: seq<Message>, n: nat)
    requires IsSuffix(s, log) && s != [] && n > 0
    ensures LastUpTo(s, n) != [] && LastUpTo(s, n)[|LastUpTo(s, n)| - 1] == log[|log| - 1]
  {
    assert s[|s| - 1] == log[|log| - 1];
  }

  // ----- the memory -----

  class ConversationMemory {
    const enableCache: bool
    const hasDatabase: bool
    const maxHistoryMessages: nat
    const maxTokens: int
    var activeConversations: Logs
    // The two stores outside the process.
    var redis: Logs
    var database: Logs
    // Every message saved and not cleared since.
    ghost var log: Logs

    ghost predicate Valid()
      reads this
    {
      && Mirrors(activeConversations, log)
      && Mirrors(redis, log)
      && NoEmpty(redis)
      && (!enableCache ==> redis == map[])
      && (hasDatabase ==> SameLogs(database, log))
    }

    constructor (enableCache: bool, hasDatabase: bool, maxHistoryMessages: nat, maxTokens: int, stored: Logs)
      ensures Valid()
      ensures this.enableCache == enableCache && this.hasDatabase == hasDatabase
      ensures this.maxHistoryMessages == maxHistoryMessages && this.maxTokens == maxTokens
    {
      this.enableCache, this.hasDatabase := enableCache, hasDatabase;
      this.maxHistoryMessages, this.maxTokens := maxHistoryMessages, maxTokens;
      activeConversations, redis, database, log := map[], map[], stored, stored;
    }

    /** The list the lookup order finds first. */
    ghost function Source(c: ConversationId): seq<Message>
      reads this
    {
      if c in activeConversations && activeConversations[c] != [] then activeConversations[c]
      else if enableCache && c in redis then redis[c]
      else if hasDatabase then LogOf(database, c)
      else []
    }

    function EffectiveLimit(limit: int): nat {
      if limit <= 0 then maxHistoryMessages else limit
    }

    method FetchStored(c: ConversationId, n: nat) returns (messages: seq<Message>)
      ensures messages == LastUpTo(LogOf(database, c), n)
    {
      var stored := LogOf(database, c);
      var rows := NewestFirst(stored, n);
      var buffer := new Message[|rows|](i requires 0 <= i < |rows| => rows[i]);
      ReverseMessages(buffer);
      messages := buffer[..];
    }

    /** `queryOk` says whether the database answers, should it be asked. */
    method GetHistory(c: ConversationId, limit: int, queryOk: bool) returns (r: Option<seq<Message>>)
      requires Valid()
      modifies this
      ensures Valid() && log == old(log) && database == old(database)
      ensures r.Some? ==> r.value == LastUpTo(old(Source(c)), if limit <= 0 then maxHistoryMessages else limit)
      ensures queryOk ==> r.Some?
      ensures r.None? ==> activeConversations == old(activeConversations) && redis == old(redis)
    {
      hide Mirrors, SameLogs;
      var n := EffectiveLimit(limit);
      if c in activeConversations && |activeConversations[c]| > 0 {
        var msgs := activeConversations[c];
        if |msgs| <= n {
          return Some(msgs);
        }
        return Some(msgs[|msgs| - n..]);
      }
      if enableCache {
        if c in redis {
          var msgs := redis[c];
          if |msgs| <= n {
            return Some(msgs);
          }
          return Some(msgs[|msgs| - n..]);
        }
      }
      if !hasDatabase {
        return Some([]);
      }
      if !queryOk {
        return None;
      }
      StoredIsSuffix(c, n);
      var messages := FetchStored(c, n);
      MirrorsSet(redis, log, c, messages);
      MirrorsSet(activeConversations, log, c, messages);
      if enableCache && |messages| > 0 {
        redis := redis[c := messages];
      }
      activeConversations := activeConversations[c := messages];
      r := Some(messages);
    }

    lemma StoredIsSuffix(c: ConversationId, n: nat)
      requires Valid() && hasDatabase
      ensures IsSuffix(LastUpTo(LogOf(database, c), n), LogOf(log, c))
    {
      LastUpToIsSuffix(LogOf(log, c), LogOf(log, c), n);
    }

    /** Whatever layer answers, the history is a suffix of the log within the limit; and while a database backs the
        memory, a non-empty log always yields its latest message. */
    lemma HistoryIsSuffix(c: ConversationId, n: nat)
      requires Valid()
      ensures IsSuffix(LastUpTo(Source(c), n), LogOf(log, c)) && |LastUpTo(Source(c), n)| <= n
      ensures hasDatabase && n > 0 && LogOf(log, c) != [] ==>
                LastUpTo(Source(c), n) != [] &&
                LastUpTo(Source(c), n)[|LastUpTo(Source(c), n)| - 1] == LogOf(log, c)[|LogOf(log, c)| - 1]
      // It is the whole recent window exactly when that layer holds enough messages.
      ensures LastUpTo(Source(c), n) == LastUpTo(LogOf(log, c), n) <==>
                |Source(c)| >= n || |Source(c)| == |LogOf(log, c)|
    {
      SourceIsSuffix(c);
      hide Mirrors, SameLogs, IsSuffix, Source;
      var s, logged := Source(c), LogOf(log, c);
      LastUpToIsSuffix(s, logged, n);
      if s != [] && n > 0 {
        LastIsLatest(s, logged, n);
      }
      WholeWindowExactlyWhen(s, logged, n);
    }

    lemma SourceIsSuffix(c: ConversationId)
      requires Valid()
      ensures IsSuffix(Source(c), LogOf(log, c))
      ensures hasDatabase && LogOf(log, c) != [] ==> Source(c) != []
    {
      MirrorsAt(activeConversations, log, c);
      MirrorsAt(redis, log, c);
      hide Mirrors;
    }

    /** `insertOk` says whether the database accepts the message; the in-memory list is updated either way. */
    method SaveMessage(m: Message, insertOk: bool) returns (ok: bool)
      requires Valid()
      modifies this
      ensures ok <==> insertOk || !hasDatabase
      ensures activeConversations ==
              old(activeConversations)[m.conversation := LogOf(old(activeConversations), m.conversation) + [m]]
      ensures ok ==> log == old(log)[m.conversation := LogOf(old(log), m.conversation) + [m]]
      ensures ok ==> redis == Forgotten(old(redis), m.conversation)
      ensures !ok ==> log == old(log) && redis == old(redis) && database == old(database)
      ensures ok ==> Valid()
      // A rejected message stays in the list, which is then no suffix of the log.
      ensures !ok && m !in LogOf(log, m.conversation) ==> !Valid()
    {
      hide Mirrors, SameLogs, NoEmpty, Forgotten;
      var c := m.conversation;
      ghost var logged := LogOf(log, c);
      MirrorsAppend(activeConversations, log, c, m);
      MirrorsDrop(redis, log, c, logged + [m]);
      AppendSame(database, log, c, m);
      RejectedIsForeign(activeConversations, log, c, m);
      ForgetNothing(c);
      activeConversations := activeConversations[c := LogOf(activeConversations, c) + [m]];
      if hasDatabase {
        if !insertOk {
          return false;
        }
        database := database[c := LogOf(database, c) + [m]];
      }
      log := log[c := logged + [m]];
      if enableCache {
        redis := Forgotten(redis, c);
      }
      ok := true;
    }

    /** The environment may drop a Redis entry at any time. */
    method ExpireEntry(c: ConversationId)
      requires Valid()
      modifies this
      ensures Valid() && redis == Forgotten(old(redis), c)
      ensures activeConversations == old(activeConversations) && database == old(database) && log == old(log)
    {
      hide Mirrors, SameLogs, NoEmpty, Forgotten;
      MirrorsDrop(redis, log, c, []);
      ForgetNothing(c);
      redis := Forgotten(redis, c);
    }

    /** A new process starts with an empty in-memory list. */
    method Restart()
      requires Valid()
      modifies this
      ensures Valid() && activeConversations == map[]
      ensures redis == old(redis) && database == old(database) && log == old(log)
    {
      hide Mirrors, SameLogs;
      EmptyMirrors(log);
      activeConversations := map[];
    }

    method ForgetCaches(c: ConversationId)
      requires Valid()
      modifies `activeConversations, `redis
      ensures activeConversations == Forgotten(old(activeConversations), c) && redis == Forgotten(old(redis), c)
      ensures Valid()
      ensures Mirrors(activeConversations, log[c := []]) && Mirrors(redis, log[c := []])
    {
      hide Mirrors, SameLogs, NoEmpty, Forgotten;
      MirrorsDrop(activeConversations, log, c, []);
      MirrorsDrop(redis, log, c, []);
      ForgetNothing(c);
      activeConversations := Forgotten(activeConversations, c);
      if enableCache {
        redis := Forgotten(redis, c);
      }
    }

    /** Both caches are dropped even when the database then refuses to delete. */
    method Clear(c: ConversationId, deleteOk: bool) returns (ok: bool)
      requires Valid()
      modifies this
      ensures ok <==> deleteOk || !hasDatabase
      ensures activeConversations == Forgotten(old(activeConversations), c) && redis == Forgotten(old(redis), c)
      ensures log == if ok then old(log)[c := []] else old(log)
      ensures Valid()
    {
      hide Mirrors, SameLogs, NoEmpty, Forgotten;
      ForgetCaches(c);
      ResetSame(database, log, c);
      if hasDatabase {
        if !deleteOk {
          return false;
        }
        database := database[c := []];
      }
      log := log[c := []];
      ok := true;
    }

    /** Archiving only forgets the in-memory list. */
    method ArchiveConversation(c: ConversationId)
      requires Valid()
      modifies this
      ensures Valid() && activeConversations == Forgotten(old(activeConversations), c)
      ensures redis == old(redis) && database == old(database) && log == old(log)
    {
      hide Mirrors, SameLogs, NoEmpty, Forgotten;
      MirrorsDrop(activeConversations, log, c, []);
      activeConversations := Forgotten(activeConversations, c);
    }

    /** The longest suffix of the history that fits the token budget. */
    method GetContextMessages(c: ConversationId, budget: int, queryOk: bool) returns (r: Option<seq<Message>>)
      requires Valid()
      modifies this
      ensures Valid() && log == old(log)
      ensures queryOk ==> r.Some?
      ensures r.Some? ==>
                IsLongestFitting(r.value, LastUpTo(old(Source(c)), maxHistoryMessages),
                                 if budget <= 0 then maxTokens else budget)
    {
      hide Mirrors, SameLogs, IsLongestFitting;
      var limit := if budget <= 0 then maxTokens else budget;
      var history := GetHistory(c, maxHistoryMessages, queryOk);
      if history.None? {
        return None;
      }
      var fitting := FitToBudget(history.value, limit);
      r := Some(fitting);
    }
  }

  lemma EmptyMirrors(log: Logs)
    ensures Mirrors(map[], log)
  {
  }

  lemma AppendSame(a: Logs, b: Logs, c: ConversationId, m: Message)
    ensures SameLogs(a, b) ==> SameLogs(a[c := LogOf(a, c) + [m]], b[c := LogOf(b, c) + [m]])
  {
    if SameLogs(a, b) {
      var a', b' := a[c := LogOf(a, c) + [m]], b[c := LogOf(b, c) + [m]];
      assert LogOf(a, c) == LogOf(b, c);
      forall d: ConversationId
        ensures LogOf(a', d) == LogOf(b', d)
      {
        assert LogOf(a, d) == LogOf(b, d);
      }
    }
  }

  lemma ResetSame(a: Logs, b: Logs, c: ConversationId)
    ensures SameLogs(a, b) ==> SameLogs(a[c := []], b[c := []])
  {
    if SameLogs(a, b) {
      var a', b' := a[c := []], b[c := []];
      forall d: ConversationId
        ensures LogOf(a', d) == LogOf(b', d)
      {
        assert LogOf(a, d) == LogOf(b, d);
      }
    }
  }

  lemma RejectedIsForeign(lists: Logs, log: Logs, c: ConversationId, m: Message)
    ensures m !in LogOf(log, c) ==> !Mirrors(lists[c := LogOf(lists, c) + [m]], log)
  {
    var listed, logged := LogOf(lists, c) + [m], LogOf(log, c);
    if IsSuffix(listed, logged) {
      assert listed[|listed| - 1] == m && logged[|logged| - 1] == logged[|logged| - |listed|..][|listed| - 1];
    }
  }
}
