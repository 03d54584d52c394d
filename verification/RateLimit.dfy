/** The fixed-window request limiter, and the WebSocket reader's message limiter. */
module RateLimit {
  /** Times are integers of some unit. */
  type Time = int

  datatype Entry = Entry(count: nat, expiresAt: Time)

  type Entries = map<string, Entry>

  /** An entry still governs its key up to and including its expiry. */
  predicate Live(entries: Entries, key: string, now: Time) {
    key in entries && now <= entries[key].expiresAt
  }

  function CountAfter(entries: Entries, key: string, now: Time): nat {
    if Live(entries, key, now) then entries[key].count + 1 else 1
  }

  function Incremented(entries: Entries, key: string, window: nat, now: Time): Entries {
    if Live(entries, key, now) then entries[key := entries[key].(count := entries[key].count + 1)]
    else entries[key := Entry(1, now + window)]
  }

  function CurrentCount(entries: Entries, key: string, now: Time): nat {
    if key in entries && now < entries[key].expiresAt then entries[key].count else 0
  }

  function Purged(entries: Entries, now: Time): Entries {
    map key | key in entries && now <= entries[key].expiresAt :: entries[key]
  }

  class MemoryRateLimitStore {
    var entries: Entries

    constructor ()
      ensures entries == map[]
    {
      entries := map[];
    }

    method Increment(key: string, window: nat, now: Time) returns (count: nat)
      modifies this
      ensures count == CountAfter(old(entries), key, now)
      ensures entries == Incremented(old(entries), key, window, now)
    {
      if key !in entries || now > entries[key].expiresAt {
        entries := entries[key := Entry(1, now + window)];
        return 1;
      }
      entries := entries[key := entries[key].(count := entries[key].count + 1)];
      count := entries[key].count;
    }

    method GetCount(key: string, now: Time) returns (count: nat)
      ensures count == CurrentCount(entries, key, now)
    {
      if key in entries && now < entries[key].expiresAt {
        return entries[key].count;
      }
      count := 0;
    }

    /** Deletes expired entries, visiting the keys in any order. */
    method Cleanup(now: Time)
      modifies this
      ensures entries == Purged(old(entries), now)
    {
      var todo := entries.Keys;
      while todo != {}
        invariant todo <= old(entries).Keys && todo <= entries.Keys
        invariant forall key :: key in entries <==>
                    key in old(entries) && (key in todo || now <= old(entries)[key].expiresAt)
        invariant forall key :: key in entries ==> entries[key] == old(entries)[key]
        decreases todo
      {
        var key :| key in todo;
        todo := todo - {key};
        if now > entries[key].expiresAt {
          entries := entries - {key};
        }
      }
    }
  }

  /** Whether a request is let through, and what the remaining-requests header says. */
  method Admit(store: MemoryRateLimitStore, key: string, limit: int, window: nat, now: Time)
    returns (allowed: bool, remaining: int)
    modifies store
    ensures allowed <==> CountAfter(old(store.entries), key, now) <= limit
    ensures remaining == if allowed then limit - CountAfter(old(store.entries), key, now) else 0
    ensures store.entries == Incremented(old(store.entries), key, window, now)
  {
    var count := store.Increment(key, window, now);
    remaining := limit - count;
    if remaining < 0 {
      remaining := 0;
    }
    allowed := !(count > limit);
  }

  /** The two counters disagree at exactly one instant: the expiry itself. */
  lemma CountsAgree(entries: Entries, key: string, now: Time)
    requires forall k :: k in entries ==> entries[k].count > 0
    ensures CountAfter(entries, key, now) == CurrentCount(entries, key, now) + 1 <==>
            !(key in entries && now == entries[key].expiresAt)
  {
  }

  // ----- runs -----

  datatype Event = Request(key: string, at: Time) | Look(key: string, at: Time) | Clean(at: Time)

  predicate InOrder(events: seq<Event>, now: Time) {
    && (forall i :: 0 <= i < |events| ==> now <= events[i].at)
    && (forall i, j :: 0 <= i < j < |events| ==> events[i].at <= events[j].at)
  }

  function Step(entries: Entries, e: Event, window: string -> nat): Entries {
    match e
    case Request(key, at) => Incremented(entries, key, window(key), at)
    case Look(_, _) => entries
    case Clean(at) => Purged(entries, at)
  }

  function AnswerTo(entries: Entries, e: Event): seq<nat> {
    match e
    case Request(key, at) => [CountAfter(entries, key, at)]
    case Look(key, at) => [CurrentCount(entries, key, at)]
    case Clean(_) => []
  }

  /** The answers the store gives during a run. */
  function Answers(entries: Entries, events: seq<Event>, window: string -> nat): seq<nat>
    decreases |events|
  {
    if events == [] then []
    else AnswerTo(entries, events[0]) + Answers(Step(entries, events[0], window), events[1..], window)
  }

  function WithoutCleaning(events: seq<Event>): seq<Event> {
    if events == [] then []
    else (if events[0].Clean? then [] else [events[0]]) + WithoutCleaning(events[1..])
  }

  /** Two stores no observer can tell apart from `now` on. */
  ghost predicate Indistinguishable(a: Entries, b: Entries, now: Time) {
    forall key, at :: now <= at ==> (Live(a, key, at) <==> Live(b, key, at)) && (Live(a, key, at) ==> a[key] == b[key])
  }

  lemma StepKeepsIndistinguishable(a: Entries, b: Entries, now: Time, e: Event, window: string -> nat)
    requires Indistinguishable(a, b, now) && now <= e.at
    ensures Indistinguishable(Step(a, e, window), if e.Clean? then b else Step(b, e, window), e.at)
  {
    var a', b' := Step(a, e, window), if e.Clean? then b else Step(b, e, window);
    forall key, at | e.at <= at
      ensures (Live(a', key, at) <==> Live(b', key, at)) && (Live(a', key, at) ==> a'[key] == b'[key])
    {
      assert Live(a, key, at) <==> Live(b, key, at);
      assert Live(a, key, e.at) <==> Live(b, key, e.at);
    }
  }

  lemma AnswersStep(entries: Entries, events: seq<Event>, window: string -> nat)
    requires events != []
    ensures Answers(entries, events, window) ==
            AnswerTo(entries, events[0]) + Answers(Step(entries, events[0], window), events[1..], window)
  {
  }

  lemma SameAnswer(a: Entries, b: Entries, now: Time, e: Event)
    requires Indistinguishable(a, b, now) && now <= e.at
    ensures AnswerTo(a, e) == AnswerTo(b, e)
  {
    if !e.Clean? {
      assert Live(a, e.key, e.at) <==> Live(b, e.key, e.at);
    }
  }

  /** Cleaning at any times changes no answer. */
  lemma {:induction false} CleaningIsInvisible(a: Entries, b: Entries, now: Time, events: seq<Event>,
                                               window: string -> nat)
    requires Indistinguishable(a, b, now) && InOrder(events, now)
    ensures Answers(a, events, window) == Answers(b, WithoutCleaning(events), window)
    decreases |events|
  {
    if events != [] {
      hide Answers, Indistinguishable, Step;
      var e, rest := events[0], events[1..];
      StepKeepsIndistinguishable(a, b, now, e, window);
      var b' := if e.Clean? then b else Step(b, e, window);
      CleaningIsInvisible(Step(a, e, window), b', e.at, rest, window);
      AnswersStep(a, events, window);
      if e.Clean? {
        assert WithoutCleaning(events) == WithoutCleaning(rest);
      } else {
        var kept := WithoutCleaning(events);
        assert kept[0] == e && kept[1..] == WithoutCleaning(rest);
        AnswersStep(b, kept, window);
        SameAnswer(a, b, now, e);
      }
    }
  }

  // ----- how many requests a window's length can admit -----

  /** Requests for `key` admitted at times in [lo, hi]. */
  function Admitted(entries: Entries, events: seq<Event>, window: string -> nat, key: string, limit: nat, lo: Time,
                    hi: Time): nat
    decreases |events|
  {
    if events == [] then 0
    else
      var e := events[0];
      (if e.Request? && e.key == key && lo <= e.at <= hi && CountAfter(entries, key, e.at) <= limit then 1 else 0) +
      Admitted(Step(entries, e, window), events[1..], window, key, limit, lo, hi)
  }

  function Left(limit: nat, count: nat): nat {
    if count < limit then limit - count else 0
  }

  /** What can still be admitted in [lo, lo + window] from `now` on. */
  function Allowance(entries: Entries, key: string, window: nat, limit: nat, lo: Time, now: Time): nat {
    if now > lo + window then 0
    else if now < lo then (if limit == 0 then 0 else 2 * limit - 1)
    else if !Live(entries, key, now) then limit
    else if entries[key].expiresAt >= lo + window then Left(limit, entries[key].count)
    else Left(limit, entries[key].count) + limit
  }

  predicate Counted(entries: Entries) {
    forall key :: key in entries ==> entries[key].count > 0
  }

  lemma StepSpendsAllowance(entries: Entries, e: Event, window: string -> nat, key: string, limit: nat, lo: Time,
                            now: Time)
    requires Counted(entries) && now <= e.at
    ensures Counted(Step(entries, e, window))
    ensures
      var w := window(key);
      var admitted := e.Request? && e.key == key && lo <= e.at <= lo + w && CountAfter(entries, key, e.at) <= limit;
      var spent := if admitted then 1 else 0;
      spent + Allowance(Step(entries, e, window), key, w, limit, lo, e.at) <= Allowance(entries, key, w, limit, lo, now)
  {
  }

  /** In any closed interval as long as the window, a key is admitted at most 2 * limit - 1 times. */
  lemma {:induction false} AdmittedWithinAllowance(entries: Entries, events: seq<Event>, window: string -> nat,
                                                   key: string, limit: nat, lo: Time, now: Time)
    requires Counted(entries) && InOrder(events, now)
    ensures Admitted(entries, events, window, key, limit, lo, lo + window(key)) <=
            Allowance(entries, key, window(key), limit, lo, now)
    decreases |events|
  {
    if events != [] {
      StepSpendsAllowance(entries, events[0], window, key, limit, lo, now);
      AdmittedWithinAllowance(Step(entries, events[0], window), events[1..], window, key, limit, lo, events[0].at);
    }
  }

  /** What a run admits in the interval of window length from `lo`. */
  function AdmittedFrom(events: seq<Event>, window: string -> nat, key: string, limit: nat, lo: Time): nat {
    Admitted(map[], events, window, key, limit, lo, lo + window(key))
  }

  /** Sharp bound on what an interval of window length admits: two part-windows meet in it, unless it is an instant. */
  function Peak(limit: nat, window: nat): nat {
    if limit == 0 then 0 else if window == 0 then limit else 2 * limit - 1
  }

  /** With windows of length zero an instant admits what its one entry counts. */
  function InstantAllowance(entries: Entries, key: string, limit: nat, lo: Time, now: Time): nat {
    if now > lo then 0 else if now == lo && Live(entries, key, now) then Left(limit, entries[key].count) else limit
  }

  /** No entry of the key outlives `now`. */
  predicate Expiring(entries: Entries, key: string, now: Time) {
    key in entries ==> entries[key].expiresAt <= now
  }

  lemma {:induction false} AdmittedInInstant(entries: Entries, events: seq<Event>, window: string -> nat,
                                             key: string, limit: nat, lo: Time, now: Time)
    requires window(key) == 0 && Expiring(entries, key, now) && InOrder(events, now)
    ensures Admitted(entries, events, window, key, limit, lo, lo) <= InstantAllowance(entries, key, limit, lo, now)
    decreases |events|
  {
    if events != [] {
      AdmittedInInstant(Step(entries, events[0], window), events[1..], window, key, limit, lo, events[0].at);
    }
  }

  /** In any closed interval as long as the window, a key is admitted at most `Peak` times, in every run. */
  lemma AtMostThePeak(events: seq<Event>, window: string -> nat, key: string, limit: nat, lo: Time, start: Time)
    requires InOrder(events, start)
    ensures AdmittedFrom(events, window, key, limit, lo) <= Peak(limit, window(key))
  {
    if window(key) == 0 {
      AdmittedInInstant(map[], events, window, key, limit, lo, start);
    } else {
      AdmittedWithinAllowance(map[], events, window, key, limit, lo, start);
    }
  }

  // ----- the bound is reached -----

  function Repeated(key: string, at: Time, n: nat): seq<Event> {
    if n == 0 then [] else [Request(key, at)] + Repeated(key, at, n - 1)
  }

  lemma RepeatedStep(entries: Entries, window: string -> nat, key: string, limit: nat, lo: Time, at: Time, n: nat,
                     rest: seq<Event>)
    requires n > 0 && Live(entries, key, at) && lo <= at <= lo + window(key) && entries[key].count < limit
    ensures
      var next := entries[key := entries[key].(count := entries[key].count + 1)];
      Admitted(entries, Repeated(key, at, n) + rest, window, key, limit, lo, lo + window(key)) ==
      1 + Admitted(next, Repeated(key, at, n - 1) + rest, window, key, limit, lo, lo + window(key))
  {
    var events := Repeated(key, at, n) + rest;
    assert events[0] == Request(key, at) && events[1..] == Repeated(key, at, n - 1) + rest;
  }

  lemma {:induction false} RepeatsAdmit(entries: Entries, window: string -> nat, key: string, limit: nat,
                                        lo: Time, at: Time, n: nat, rest: seq<Event>)
    requires Live(entries, key, at) && lo <= at <= lo + window(key) && entries[key].count + n <= limit
    ensures
      var after := entries[key := entries[key].(count := entries[key].count + n)];
      Admitted(entries, Repeated(key, at, n) + rest, window, key, limit, lo, lo + window(key)) ==
      n + Admitted(after, rest, window, key, limit, lo, lo + window(key))
    decreases n
  {
    if n == 0 {
      assert entries[key := entries[key]] == entries;
      assert Repeated(key, at, 0) + rest == rest;
    } else {
      RepeatedStep(entries, window, key, limit, lo, at, n, rest);
      hide Admitted, Repeated;
      var next := entries[key := entries[key].(count := entries[key].count + 1)];
      RepeatsAdmit(next, window, key, limit, lo, at, n - 1, rest);
      assert next[key := next[key].(count := next[key].count + (n - 1))] ==
             entries[key := entries[key].(count := entries[key].count + n)];
    }
  }

  /** A first request, then the rest of the quota, in one live window. */
  lemma QuotaAdmits(entries: Entries, window: string -> nat, key: string, limit: nat, lo: Time, at: Time,
                    rest: seq<Event>)
    requires limit > 0 && !Live(entries, key, at) && lo <= at <= lo + window(key)
    ensures
      var full := entries[key := Entry(limit, at + window(key))];
      Admitted(entries, [Request(key, at)] + (Repeated(key, at, limit - 1) + rest), window, key, limit,
               lo, lo + window(key)) ==
      limit + Admitted(full, rest, window, key, limit, lo, lo + window(key))
  {
    hide Admitted, Repeated;
    var tail := Repeated(key, at, limit - 1) + rest;
    FirstAdmitted(entries, window, key, limit, lo, at, tail);
    var begun := entries[key := Entry(1, at + window(key))];
    RepeatsAdmit(begun, window, key, limit, lo, at, limit - 1, rest);
    assert begun[key := begun[key].(count := begun[key].count + (limit - 1))] ==
           entries[key := Entry(limit, at + window(key))];
  }

  lemma FirstAdmitted(entries: Entries, window: string -> nat, key: string, limit: nat, lo: Time, at: Time,
                      rest: seq<Event>)
    requires limit > 0 && !Live(entries, key, at) && lo <= at <= lo + window(key)
    ensures Admitted(entries, [Request(key, at)] + rest, window, key, limit, lo, lo + window(key)) ==
            1 + Admitted(entries[key := Entry(1, at + window(key))], rest, window, key, limit, lo, lo + window(key))
  {
    var events := [Request(key, at)] + rest;
    assert events[0] == Request(key, at) && events[1..] == rest;
  }

  /** A burst straddling two windows: one request at 0, the rest of the quota when the window is about to end,
      a whole new quota right after. */
  function Burst(key: string, window: nat, limit: nat): seq<Event>
    requires limit > 0
  {
    var quota := [Request(key, window + 1)] + (Repeated(key, window + 1, limit - 1) + []);
    [Request(key, 0)] + (Repeated(key, window, limit - 1) + quota)
  }

  lemma BurstAdmits(window: string -> nat, key: string, limit: nat)
    requires limit > 0 && window(key) > 0
    ensures Admitted(map[], Burst(key, window(key), limit), window, key, limit, 1, 1 + window(key)) == 2 * limit - 1
  {
    var w := window(key);
    var quota := [Request(key, w + 1)] + (Repeated(key, w + 1, limit - 1) + []);
    var rest := Repeated(key, w, limit - 1) + quota;
    var burst := [Request(key, 0)] + rest;
    var begun: Entries := map[key := Entry(1, w)];
    var full: Entries := map[key := Entry(limit, w)];
    assert burst[0] == Request(key, 0) && burst[1..] == rest;
    assert Incremented(map[], key, w, 0) == begun;
    assert Admitted(map[], burst, window, key, limit, 1, 1 + w) == Admitted(begun, rest, window, key, limit, 1, 1 + w);
    assert Admitted(full[key := Entry(limit, w + 1 + w)], [], window, key, limit, 1, 1 + w) == 0;
    hide Admitted, Repeated;
    RepeatsAdmit(begun, window, key, limit, 1, w, limit - 1, quota);
    assert begun[key := begun[key].(count := begun[key].count + (limit - 1))] == full;
    QuotaAdmits(full, window, key, limit, 1, w + 1, []);
  }

  lemma {:induction false} RepeatedAt(key: string, at: Time, n: nat)
    ensures |Repeated(key, at, n)| == n && forall i :: 0 <= i < n ==> Repeated(key, at, n)[i].at == at
  {
    if n > 0 {
      RepeatedAt(key, at, n - 1);
    }
  }

  lemma BurstIsInOrder(key: string, window: nat, limit: nat)
    requires limit > 0
    ensures InOrder(Burst(key, window, limit), 0)
  {
    RepeatedAt(key, window, limit - 1);
    RepeatedAt(key, window + 1, limit - 1);
    hide Repeated;
    var burst := Burst(key, window, limit);
    assert forall i :: 0 <= i < |burst| ==>
             burst[i].at == if i == 0 then 0 else if i < limit then window else window + 1;
  }

  /** For every limit and window some run reaches the bound. */
  lemma PeakIsReached(window: string -> nat, key: string, limit: nat) returns (events: seq<Event>, lo: Time)
    ensures InOrder(events, 0)
    ensures AdmittedFrom(events, window, key, limit, lo) == Peak(limit, window(key))
  {
    if limit == 0 {
      events, lo := [], 0;
    } else if window(key) == 0 {
      events, lo := [Request(key, 0)] + (Repeated(key, 0, limit - 1) + []), 0;
      RepeatedAt(key, 0, limit - 1);
      QuotaAdmits(map[], window, key, limit, 0, 0, []);
    } else {
      events, lo := Burst(key, window(key), limit), 1;
      BurstIsInOrder(key, window(key), limit);
      BurstAdmits(window, key, limit);
    }
  }

  /** In every run every interval as long as the window admits at most the limit. */
  ghost predicate KeepsEveryInterval(window: string -> nat, key: string, limit: nat) {
    forall events, lo, start :: InOrder(events, start) ==> AdmittedFrom(events, window, key, limit, lo) <= limit
  }

  /** The limit bounds every interval of window length exactly for limits of 0 and 1, or a window of no length. */
  lemma LimitKeptExactlyWhen(window: string -> nat, key: string, limit: nat)
    ensures KeepsEveryInterval(window, key, limit) <==> limit <= 1 || window(key) == 0
  {
    hide Admitted, InOrder;
    if limit <= 1 || window(key) == 0 {
      forall events, lo, start | InOrder(events, start)
        ensures AdmittedFrom(events, window, key, limit, lo) <= limit
      {
        AtMostThePeak(events, window, key, limit, lo, start);
      }
    } else {
      var events, lo := PeakIsReached(window, key, limit);
      assert AdmittedFrom(events, window, key, limit, lo) > limit;
    }
  }

  // ----- the WebSocket reader -----

  /** The reader's window: when it began and how many messages it has seen. */
  datatype Window = Window(lastMessage: Time, messageCount: nat)

  function AfterMessage(w: Window, second: nat, now: Time): Window {
    if now - w.lastMessage < second then w.(messageCount := w.messageCount + 1) else Window(now, 1)
  }

  predicate Handles(w: Window, second: nat, maxPerSecond: int, now: Time) {
    now - w.lastMessage >= second || w.messageCount + 1 <= maxPerSecond
  }

  class MessageLimiter {
    const second: nat
    const maxPerSecond: int
    var lastMessage: Time
    var messageCount: nat

    constructor (second: nat, maxPerSecond: int, connected: Time)
      ensures this.second == second && this.maxPerSecond == maxPerSecond
      ensures lastMessage == connected && messageCount == 0
    {
      this.second, this.maxPerSecond, lastMessage, messageCount := second, maxPerSecond, connected, 0;
    }

    /** Decides whether the message read at `now` is handled. */
    method OnMessage(now: Time) returns (handled: bool)
      modifies this
      ensures handled <==> Handles(old(Window(lastMessage, messageCount)), second, maxPerSecond, now)
      ensures Window(lastMessage, messageCount) == AfterMessage(old(Window(lastMessage, messageCount)), second, now)
    {
      if now - lastMessage < second {
        messageCount := messageCount + 1;
        if messageCount > maxPerSecond {
          return false;
        }
      } else {
        messageCount := 1;
        lastMessage := now;
      }
      handled := true;
    }
  }

  predicate Ascending(times: seq<Time>, now: Time) {
    && (forall i :: 0 <= i < |times| ==> now <= times[i])
    && (forall i, j :: 0 <= i < j < |times| ==> times[i] <= times[j])
  }

  /** Messages handled at times in [lo, lo + second). */
  function Handled(w: Window, times: seq<Time>, second: nat, maxPerSecond: int, lo: Time): nat
    decreases |times|
  {
    if times == [] then 0
    else
      (if lo <= times[0] < lo + second && Handles(w, second, maxPerSecond, times[0]) then 1 else 0) +
      Handled(AfterMessage(w, second, times[0]), times[1..], second, maxPerSecond, lo)
  }

  function ReaderAllowance(w: Window, second: nat, maxPerSecond: nat, lo: Time, now: Time): nat {
    if now >= lo + second then 0
    else if now < lo then 2 * maxPerSecond
    else if now - w.lastMessage >= second then maxPerSecond
    else if w.lastMessage >= lo then Left(maxPerSecond, w.messageCount)
    else Left(maxPerSecond, w.messageCount) + maxPerSecond
  }

  /** At most twice the limit is handled in any half-open second, provided the limit is at least one. */
  lemma {:induction false} ReaderBounded(w: Window, times: seq<Time>, second: nat, maxPerSecond: nat, lo: Time,
                                         now: Time)
    requires maxPerSecond >= 1 && Ascending(times, now)
    ensures Handled(w, times, second, maxPerSecond, lo) <= ReaderAllowance(w, second, maxPerSecond, lo, now)
    ensures Handled(w, times, second, maxPerSecond, lo) <= 2 * maxPerSecond
    decreases |times|
  {
    if times != [] {
      ReaderBounded(AfterMessage(w, second, times[0]), times[1..], second, maxPerSecond, lo, times[0]);
    }
  }

  /** With a limit of zero the first message of each window still gets through. */
  lemma ZeroLimitLeaks(w: Window, second: nat)
    requires second > 0
    ensures Handled(w, [w.lastMessage + second], second, 0, w.lastMessage + second) == 1
  {
    assert [w.lastMessage + second][1..] == [];
  }

  lemma {:induction false} NoInstantToHandle(w: Window, times: seq<Time>, maxPerSecond: int, lo: Time)
    ensures Handled(w, times, 0, maxPerSecond, lo) == 0
    decreases |times|
  {
    if times != [] {
      NoInstantToHandle(AfterMessage(w, 0, times[0]), times[1..], maxPerSecond, lo);
    }
  }

  /** What a reader that connected at `connected` handles in the second from `lo`. */
  function HandledFrom(second: nat, maxPerSecond: int, times: seq<Time>, connected: Time, lo: Time): nat {
    Handled(Window(connected, 0), times, second, maxPerSecond, lo)
  }

  /** In every run every half-open second handles at most twice the limit. */
  ghost predicate KeepsEverySecond(second: nat, maxPerSecond: nat) {
    forall times, connected, lo :: Ascending(times, connected) ==>
      HandledFrom(second, maxPerSecond, times, connected, lo) <= 2 * maxPerSecond
  }

  /** That is so exactly for limits of at least one, or seconds of no length. */
  lemma ReaderBoundExactlyWhen(second: nat, maxPerSecond: nat)
    ensures KeepsEverySecond(second, maxPerSecond) <==> maxPerSecond >= 1 || second == 0
  {
    hide Handled;
    if maxPerSecond >= 1 || second == 0 {
      forall times, connected, lo | Ascending(times, connected)
        ensures HandledFrom(second, maxPerSecond, times, connected, lo) <= 2 * maxPerSecond
      {
        if second == 0 {
          NoInstantToHandle(Window(connected, 0), times, maxPerSecond, lo);
        } else {
          ReaderBounded(Window(connected, 0), times, second, maxPerSecond, lo, connected);
        }
      }
    } else {
      ZeroLimitLeaks(Window(0, 0), second);
      assert Ascending([second], 0) && HandledFrom(second, 0, [second], 0, second) == 1;
    }
  }
}
