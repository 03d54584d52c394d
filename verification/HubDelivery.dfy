/** What the hub's steps add up to: who joins and leaves, who is sent what, and what is written. */
module HubDelivery {
  import opened Common
  import opened Hub

  // ----- runs from any state -----

  function ExecuteFrom(capacity: nat, s: State, events: seq<Event>): State {
    if events == [] then s
    else Next(capacity, ExecuteFrom(capacity, s, events[..|events| - 1]), events[|events| - 1])
  }

  lemma FromLast(capacity: nat, s: State, before: seq<Event>, e: Event)
    ensures ExecuteFrom(capacity, s, before + [e]) == Next(capacity, ExecuteFrom(capacity, s, before), e)
  {
    hide Next;
    assert (before + [e])[..|before|] == before;
  }

  lemma FromNothing(capacity: nat, s: State)
    ensures ExecuteFrom(capacity, s, []) == s
  {
  }

  lemma FromOne(capacity: nat, s: State, e: Event)
    ensures ExecuteFrom(capacity, s, [e]) == Next(capacity, s, e)
  {
    hide Next;
    FromLast(capacity, s, [], e);
    assert [] + [e] == [e];
  }

  lemma {:induction false} FromConcat(capacity: nat, s: State, before: seq<Event>, after: seq<Event>)
    ensures ExecuteFrom(capacity, s, before + after) ==
            ExecuteFrom(capacity, ExecuteFrom(capacity, s, before), after)
  {
    hide Next;
    if after == [] {
      NothingAppended(before);
    } else {
      var front, last := after[..|after| - 1], after[|after| - 1];
      FromConcat(capacity, s, before, front);
      FrontAndLast(after);
      Regroup(before, front, [last]);
      FromLast(capacity, s, before + front, last);
    }
  }

  /** A run is continued by whatever follows from the state it has reached. */
  lemma {:induction false} ExecuteContinues(capacity: nat, before: seq<Event>, after: seq<Event>)
    ensures Execute(capacity, before + after) == ExecuteFrom(capacity, Execute(capacity, before), after)
  {
    hide Next;
    if after == [] {
      NothingAppended(before);
    } else {
      var front, last := after[..|after| - 1], after[|after| - 1];
      ExecuteContinues(capacity, before, front);
      FrontAndLast(after);
      Regroup(before, front, [last]);
      ExecuteLast(capacity, before + front, last);
    }
  }

  lemma {:induction false} FromKeepsInv(capacity: nat, s: State, events: seq<Event>)
    requires Inv(capacity, s)
    ensures Inv(capacity, ExecuteFrom(capacity, s, events))
  {
    if events != [] {
      hide Next, Inv;
      FromKeepsInv(capacity, s, events[..|events| - 1]);
      NextKeepsInv(capacity, ExecuteFrom(capacity, s, events[..|events| - 1]), events[|events| - 1]);
    }
  }

  /** The goroutine steps of one client leave the hub's own state alone. */
  lemma LocalFootprint(s: State, c: ClientId, e: Event)
    ensures
      var t := LocalTo(s, c, e);
      t.clients == s.clients && t.senders == s.senders && t.broadcast == s.broadcast && t.run == s.run
  {
    hide Local;
  }

  lemma SendFootprint(capacity: nat, s: State, p: nat, c: ClientId)
    ensures
      var t := SendOne(capacity, s, p, c);
      t.clients == s.clients && t.broadcast == s.broadcast && t.run == s.run
  {
    hide Offer, Wants;
  }

  lemma PingFootprint(capacity: nat, s: State, c: ClientId, pong: Payload)
    ensures
      var t := AnswerPing(capacity, s, c, pong);
      t.clients == s.clients && t.senders == s.senders && t.broadcast == s.broadcast && t.run == s.run
  {
    hide Offer;
  }

  predicate MovesRun(e: Event) {
    e.RegisterReceive? || e.RegisterInsert? || e.RegisterCount? || e.UnregisterReceive? || e.UnregisterApply?
    || e.BroadcastBegin? || e.SenderEnd? || e.RunExits?
  }

  /** Which steps can move the client map, the locks, the waiting messages and the hub goroutine. */
  lemma Footprint(capacity: nat, s: State, e: Event)
    ensures
      var t := Next(capacity, s, e);
      && (e.RegisterInsert? || e.UnregisterApply? || e.StopClose? || t.clients == s.clients)
      && (e.Send? || e.SenderEnd? || e.TopicBegin? || e.BroadcastBegin? || t.senders == s.senders)
      && (e.Publish? || e.TopicBegin? || e.BroadcastBegin? || t.broadcast == s.broadcast)
      && (MovesRun(e) || t.run == s.run)
  {
    hide CloseAll, AllOpen, LocalTo, SendOne, AnswerPing;
    match e
    case Send(p, c) => SendFootprint(capacity, s, p, c);
    case Ping(c, pong) => PingFootprint(capacity, s, c, pong);
    case ReaderFails(c) => LocalFootprint(s, c, e);
    case Subscribe(c, _) => LocalFootprint(s, c, e);
    case Unsubscribe(c, _) => LocalFootprint(s, c, e);
    case WriterTake(c) => LocalFootprint(s, c, e);
    case WriterWrites(c) => LocalFootprint(s, c, e);
    case WriterDrains(c) => LocalFootprint(s, c, e);
    case WriterDone(c) => LocalFootprint(s, c, e);
    case WriterExits(c) => LocalFootprint(s, c, e);
    case _ =>
  }

  // ----- one sender's loop -----

  /** What a sender's whole loop does to a client: one offer if it is mapped and wants the topics. */
  function Received(capacity: nat, s: State, c: ClientId, m: Payload, topics: Option<seq<Topic>>): Client
    requires c in s.all
  {
    if c in s.clients && Wants(s.all[c], topics) then Offer(capacity, s.all[c], m) else s.all[c]
  }

  lemma SendOneEffect(capacity: nat, s: State, p: nat, c: ClientId)
    requires p in s.senders && c in s.senders[p].remaining && c in s.all && s.all[c].open
    ensures
      var sender, s' := s.senders[p], SendOne(capacity, s, p, c);
      && s' == s.(all := s'.all, senders := s.senders[p := sender.(remaining := sender.remaining - {c})])
      && s'.all.Keys == s.all.Keys
      && (forall d :: d in s.all && d != c ==> s'.all[d] == s.all[d])
      && s'.all[c] == if Wants(s.all[c], sender.topics) then Offer(capacity, s.all[c], sender.message) else s.all[c]
  {
    hide Offer, Wants;
  }

  /** Part-way through a sender's loop: visited clients have had their offer, the others are as they were, and
      nothing but the clients and the loop itself has moved. */
  ghost predicate Partway(capacity: nat, start: State, s: State, p: nat) {
    && p in start.senders && p in s.senders
    && s.senders[p].remaining <= start.clients
    && s == start.(all := s.all,
                   senders := start.senders[p := start.senders[p].(remaining := s.senders[p].remaining)])
    && s.all.Keys == start.all.Keys
    && forall c :: c in start.all ==>
         s.all[c] == if c in s.senders[p].remaining then start.all[c]
                     else Received(capacity, start, c, start.senders[p].message, start.senders[p].topics)
  }

  lemma PartwayOn(capacity: nat, start: State, s: State, p: nat, c: ClientId)
    requires Membership(start) && Partway(capacity, start, s, p) && c in s.senders[p].remaining
    ensures Partway(capacity, start, SendOne(capacity, s, p, c), p)
    ensures SendOne(capacity, s, p, c).senders[p].remaining == s.senders[p].remaining - {c}
  {
    assert c in start.all && start.all[c].open;
    hide Membership, Offer, Wants, SendOne;
    assert s.all[c] == start.all[c];
    SendOneEffect(capacity, s, p, c);
    var s' := SendOne(capacity, s, p, c);
    assert s'.senders == start.senders[p := start.senders[p].(remaining := s'.senders[p].remaining)];
  }

  lemma PartwayStarts(capacity: nat, start: State, p: nat)
    requires Membership(start) && p in start.senders && start.senders[p].remaining == start.clients
    ensures Partway(capacity, start, start, p)
  {
    hide Membership, Offer, Wants;
    assert start.senders == start.senders[p := start.senders[p].(remaining := start.clients)];
    assert forall c :: c in start.all && c !in start.clients ==>
      Received(capacity, start, c, start.senders[p].message, start.senders[p].topics) == start.all[c];
  }

  /** The state after a sender's whole loop: each client has received what it should, the lock is released, and
      the hub goroutine goes back to waiting if the loop was its own. */
  ghost predicate Delivered(capacity: nat, start: State, s: State, p: nat) {
    && p in start.senders
    && s == start.(all := s.all, senders := start.senders - {p}, run := if p == 0 then Idle else start.run)
    && s.all.Keys == start.all.Keys
    && forall c :: c in start.all ==>
         s.all[c] == Received(capacity, start, c, start.senders[p].message, start.senders[p].topics)
  }

  lemma PartwayEnds(capacity: nat, start: State, s: State, p: nat)
    requires Partway(capacity, start, s, p) && s.senders[p].remaining == {}
    ensures Delivered(capacity, start, EndSender(s, p), p)
  {
    hide Received;
    assert s.senders - {p} == start.senders - {p};
  }

  /** The sender's loop, visiting the client map in any order: the outcome does not depend on the order. */
  method SendToAll(capacity: nat, start: State, p: nat) returns (s: State)
    requires Membership(start) && p in start.senders && start.senders[p].remaining == start.clients
    ensures Delivered(capacity, start, s, p)
  {
    s := start;
    PartwayStarts(capacity, start, p);
    hide SendOne, Received, Membership;
    while s.senders[p].remaining != {}
      invariant Partway(capacity, start, s, p)
      decreases s.senders[p].remaining
    {
      var c :| c in s.senders[p].remaining;
      PartwayOn(capacity, start, s, p, c);
      s := SendOne(capacity, s, p, c);
    }
    PartwayEnds(capacity, start, s, p);
    s := EndSender(s, p);
  }

  /** A sender visiting these clients in this order. */
  function Sends(p: nat, order: seq<ClientId>): seq<Event> {
    if order == [] then [] else Sends(p, order[..|order| - 1]) + [Send(p, order[|order| - 1])]
  }

  lemma {:induction false} SendsOn(capacity: nat, start: State, p: nat, order: seq<ClientId>)
    requires Membership(start) && p in start.senders && start.senders[p].remaining == start.clients
    requires Distinct(order) && forall c :: c in order ==> c in start.clients
    ensures
      var s := ExecuteFrom(capacity, start, Sends(p, order));
      && Partway(capacity, start, s, p)
      && forall c :: c in s.senders[p].remaining <==> c in start.clients && c !in order
  {
    if order == [] {
      PartwayStarts(capacity, start, p);
      FromNothing(capacity, start);
    } else {
      hide *;
      var front, last := order[..|order| - 1], order[|order| - 1];
      LastIsNew(order);
      SendsOn(capacity, start, p, front);
      SendsLast(capacity, start, p, order);
      PartwayOn(capacity, start, ExecuteFrom(capacity, start, Sends(p, front)), p, last);
    }
  }

  lemma SendsLast(capacity: nat, start: State, p: nat, order: seq<ClientId>)
    requires order != []
    ensures ExecuteFrom(capacity, start, Sends(p, order)) ==
            SendOne(capacity, ExecuteFrom(capacity, start, Sends(p, order[..|order| - 1])), p, order[|order| - 1])
  {
    hide ExecuteFrom, SendOne;
    FromLast(capacity, start, Sends(p, order[..|order| - 1]), Send(p, order[|order| - 1]));
  }

  lemma LastIsNew(order: seq<ClientId>)
    requires Distinct(order) && order != []
    ensures Distinct(order[..|order| - 1]) && order[|order| - 1] !in order[..|order| - 1]
    ensures forall c :: c in order <==> c in order[..|order| - 1] || c == order[|order| - 1]
  {
  }

  /** `order` lists these clients, each once. */
  ghost predicate Lists(order: seq<ClientId>, cs: set<ClientId>) {
    Distinct(order) && forall c :: c in order <==> c in cs
  }

  /** Sending in any order and then letting go of the lock. */
  lemma SendsDeliver(capacity: nat, start: State, p: nat, order: seq<ClientId>)
    requires Membership(start) && p in start.senders && start.senders[p].remaining == start.clients
    requires Lists(order, start.clients)
    ensures Delivered(capacity, start, ExecuteFrom(capacity, start, Sends(p, order) + [SenderEnd(p)]), p)
  {
    SendsOn(capacity, start, p, order);
    hide Partway, Membership, ExecuteFrom, EndSender, Delivered;
    assert start.clients - (set c | c in order) == {};
    var s := ExecuteFrom(capacity, start, Sends(p, order));
    PartwayEnds(capacity, start, s, p);
    FromLast(capacity, start, Sends(p, order), SenderEnd(p));
  }

  /** A broadcast takes the oldest published message and offers it once to every client mapped when it begins and to
      no other, in whatever order they are visited; a full queue drops it. Nothing else changes. */
  lemma BroadcastReachesAll(capacity: nat, s: State, order: seq<ClientId>)
    requires Inv(capacity, s) && s.run == Idle && s.broadcast != [] && Lists(order, s.clients)
    ensures
      var t := ExecuteFrom(capacity, s, [BroadcastBegin] + (Sends(0, order) + [SenderEnd(0)]));
      var m := s.broadcast[0];
      && t == s.(all := t.all, broadcast := s.broadcast[1..])
      && t.all.Keys == s.all.Keys
      && forall c :: c in s.all ==>
           var x := s.all[c];
           t.all[c] == if c !in s.clients then x
                       else if |x.queue| < capacity then
                         x.(offered := x.offered + [m], queue := x.queue + [m], enqueued := x.enqueued + [m])
                       else x.(offered := x.offered + [m])
  {
    hide ExecuteFrom, Membership, QueuesOk, Gauge;
    FromOne(capacity, s, BroadcastBegin);
    FromConcat(capacity, s, [BroadcastBegin], Sends(0, order) + [SenderEnd(0)]);
    BroadcastStarts(s);
    var start := BeginBroadcast(s);
    BeginBroadcastStep(capacity, s);
    SendsDeliver(capacity, start, 0, order);
    assert start.senders - {0} == s.senders;
  }

  lemma BroadcastStarts(s: State)
    requires Membership(s) && s.run == Idle && s.broadcast != []
    ensures 0 !in s.senders
  {
  }

  /** A topic send offers its message once to exactly the mapped clients that have no topics or share one. */
  lemma TopicsReachSubscribers(capacity: nat, s: State, p: nat, m: Payload, topics: seq<Topic>, order: seq<ClientId>)
    requires Inv(capacity, s) && topics != [] && p != 0 && p !in s.senders && Lists(order, s.clients)
    ensures
      var t := ExecuteFrom(capacity, s, [TopicBegin(p, m, topics)] + (Sends(p, order) + [SenderEnd(p)]));
      && t == s.(all := t.all)
      && t.all.Keys == s.all.Keys
      && forall c :: c in s.all ==>
           var x := s.all[c];
           t.all[c] == if c !in s.clients || (x.topics != {} && forall u :: u in topics ==> u !in x.topics) then x
                       else if |x.queue| < capacity then
                         x.(offered := x.offered + [m], queue := x.queue + [m], enqueued := x.enqueued + [m])
                       else x.(offered := x.offered + [m])
  {
    hide ExecuteFrom, Membership, QueuesOk, Gauge;
    FromOne(capacity, s, TopicBegin(p, m, topics));
    FromConcat(capacity, s, [TopicBegin(p, m, topics)], Sends(p, order) + [SenderEnd(p)]);
    var start := BeginTopics(s, p, m, topics);
    BeginTopicsStep(capacity, s, p, m, topics);
    SendsDeliver(capacity, start, p, order);
    assert start.senders - {p} == s.senders;
  }

  // ----- one sender's loop among the steps of everybody else -----

  /** Whether this step is sender `p` reaching a client it has still to visit, and which. */
  function Visit(s: State, p: nat, e: Event): seq<ClientId> {
    if e.Send? && e.sender == p && p in s.senders && e.c in s.senders[p].remaining then [e.c] else []
  }

  /** The clients sender `p` visits in a run, in order. */
  function Visited(capacity: nat, s: State, p: nat, events: seq<Event>): seq<ClientId> {
    if events == [] then []
    else
      var front, e := events[..|events| - 1], events[|events| - 1];
      Visited(capacity, s, p, front) + Visit(ExecuteFrom(capacity, s, front), p, e)
  }

  /** While a sender holds the lock, whatever step is taken leaves the client map and the sender alone, except that
      it may be the sender's next visit. */
  lemma HeldStep(capacity: nat, s: State, p: nat, e: Event)
    requires Inv(capacity, s) && p in s.senders && e != SenderEnd(p)
    ensures
      var t := Next(capacity, s, e);
      && t.clients == s.clients && p in t.senders
      && t.senders[p] == s.senders[p].(remaining := t.senders[p].remaining)
      && forall c :: c in t.senders[p].remaining <==> c in s.senders[p].remaining && c !in Visit(s, p, e)
  {
    hide Next, QueuesOk, Gauge, SendOne;
    if e.Send? {
      hide Visit;
      SendHolds(capacity, s, p, e.sender, e.c);
      SendIs(capacity, s, e.sender, e.c);
    } else {
      hide Inv;
      OthersHold(capacity, s, p, e);
    }
  }

  lemma OthersHold(capacity: nat, s: State, p: nat, e: Event)
    requires p in s.senders && e != SenderEnd(p) && !e.Send?
    ensures
      var t := Next(capacity, s, e);
      t.clients == s.clients && p in t.senders && t.senders[p] == s.senders[p]
  {
    hide AcceptConnection, CloseAll, AllOpen, LocalTo, AnswerPing, SendOne;
    Footprint(capacity, s, e);
    var moves := e.RegisterInsert? || e.UnregisterApply? || e.StopClose?;
    if !moves && !e.SenderEnd? && !e.TopicBegin? && !e.BroadcastBegin? {
      hide Next;
    }
  }

  lemma SendIs(capacity: nat, s: State, p: nat, c: ClientId)
    ensures Next(capacity, s, Send(p, c)) == SendOne(capacity, s, p, c)
  {
  }

  lemma SendHolds(capacity: nat, s: State, p: nat, q: nat, c: ClientId)
    requires Membership(s) && p in s.senders
    ensures
      var t := SendOne(capacity, s, q, c);
      && t.clients == s.clients && p in t.senders
      && t.senders[p] == s.senders[p].(remaining := t.senders[p].remaining)
      && forall d :: d in t.senders[p].remaining <==> d in s.senders[p].remaining && d !in Visit(s, p, Send(q, c))
  {
    hide Offer, Wants;
    assert p == q && c in s.senders[p].remaining ==> c in s.all;
  }

  /** However the steps of other goroutines fall between its own, a sender visits nobody twice, and those it has yet
      to visit are the clients it began with less those visited. The client map stays as it was. */
  lemma {:induction false} VisitsOnce(capacity: nat, s: State, p: nat, events: seq<Event>)
    requires Inv(capacity, s) && p in s.senders && SenderEnd(p) !in events
    ensures
      var t, visited := ExecuteFrom(capacity, s, events), Visited(capacity, s, p, events);
      && t.clients == s.clients && p in t.senders
      && t.senders[p] == s.senders[p].(remaining := t.senders[p].remaining)
      && Distinct(visited) && (forall c :: c in visited ==> c in s.senders[p].remaining)
      && forall c :: c in t.senders[p].remaining <==> c in s.senders[p].remaining && c !in visited
  {
    if events != [] {
      hide Next, Inv, Visit, Distinct;
      var front, e := events[..|events| - 1], events[|events| - 1];
      VisitsOnce(capacity, s, p, front);
      FromKeepsInv(capacity, s, front);
      var t := ExecuteFrom(capacity, s, front);
      HeldStep(capacity, t, p, e);
      VisitIsNew(t, p, e, Visited(capacity, s, p, front));
    }
  }

  lemma VisitIsNew(t: State, p: nat, e: Event, visited: seq<ClientId>)
    requires p in t.senders && Distinct(visited) && forall c :: c in t.senders[p].remaining ==> c !in visited
    ensures Distinct(visited + Visit(t, p, e)) && forall c :: c in Visit(t, p, e) ==> c in t.senders[p].remaining
  {
  }

  /** A broadcast among any other steps: whoever takes part in it is mapped when it begins, no one twice, and it can
      only end once it has visited every one of them. */
  lemma BroadcastVisitsAll(capacity: nat, s: State, events: seq<Event>)
    requires Inv(capacity, s) && s.run == Idle && s.broadcast != [] && SenderEnd(0) !in events
    ensures
      var start := Next(capacity, s, BroadcastBegin);
      var t, visited := ExecuteFrom(capacity, start, events), Visited(capacity, start, 0, events);
      && 0 in t.senders && t.senders[0].message == s.broadcast[0] && t.senders[0].topics == None
      && Distinct(visited) && (forall c :: c in visited ==> c in s.clients)
      && (0 !in Next(capacity, t, SenderEnd(0)).senders <==> forall c :: c in s.clients ==> c in visited)
  {
    hide ExecuteFrom, Visited, QueuesOk, Gauge;
    BroadcastStarts(s);
    BeginBroadcastStep(capacity, s);
    hide Membership;
    VisitsOnce(capacity, BeginBroadcast(s), 0, events);
  }

  /** What a visit does, to its client and to everybody else. */
  lemma VisitOffers(capacity: nat, s: State, p: nat, c: ClientId)
    requires Inv(capacity, s) && p in s.senders && c in s.senders[p].remaining
    ensures
      var m, topics, t := s.senders[p].message, s.senders[p].topics, Next(capacity, s, Send(p, c));
      && c in s.all && c in t.all
      && var x := s.all[c];
      && t.all[c] == (if topics.Some? && x.topics != {} && (forall u :: u in topics.value ==> u !in x.topics) then x
                      else if |x.queue| < capacity then
                        x.(offered := x.offered + [m], queue := x.queue + [m], enqueued := x.enqueued + [m])
                      else x.(offered := x.offered + [m]))
      && forall d :: d in s.all && d != c ==> d in t.all && t.all[d] == s.all[d]
  {
    hide QueuesOk, Gauge;
    assert c in s.all && s.all[c].open;
    hide Membership;
    SendOneEffect(capacity, s, p, c);
  }

  // ----- what is broadcast, over whole runs -----

  /** What a step hands to the hub for broadcasting; a topic send without topics goes there too. */
  function Published(events: seq<Event>): seq<Payload> {
    if events == [] then [] else Published(events[..|events| - 1]) + PublishedBy(events[|events| - 1])
  }

  function PublishedBy(e: Event): seq<Payload> {
    if e.Publish? || (e.TopicBegin? && e.topics == []) then [e.message] else []
  }

  /** The messages whose broadcast begins in a run. */
  function Taken(capacity: nat, events: seq<Event>): seq<Payload> {
    if events == [] then []
    else
      Taken(capacity, events[..|events| - 1]) +
      TakenBy(Execute(capacity, events[..|events| - 1]), Execute(capacity, events))
  }

  function TakenBy(s: State, t: State): seq<Payload> {
    if 0 !in s.senders && 0 in t.senders then [t.senders[0].message] else []
  }

  /** What this step publishes joins the waiting messages, and what it takes leaves them. */
  ghost predicate TakesInOrder(s: State, published: seq<Payload>, t: State) {
    s.broadcast + published == TakenBy(s, t) + t.broadcast
  }

  lemma TakenStep(capacity: nat, s: State, e: Event)
    ensures TakesInOrder(s, PublishedBy(e), Next(capacity, s, e))
  {
    hide TakesInOrder, SendOne, BeginTopics, EndSender, BeginBroadcast;
    if e.Publish? || e.TopicBegin? || e.BroadcastBegin? || e.SenderEnd? || e.Send? {
      match e
      case Publish(m) => PublishTakesNothing(s, m);
      case TopicBegin(p, m, topics) => TopicsTakeNothing(s, p, m, topics);
      case BroadcastBegin => TakenByBroadcast(s);
      case SenderEnd(p) => LoopsTakeNothing(capacity, s, p, 0);
      case Send(p, c) => LoopsTakeNothing(capacity, s, p, c);
    } else {
      Footprint(capacity, s, e);
      hide Next;
      Untaken(s, Next(capacity, s, e));
    }
  }

  lemma Untaken(s: State, t: State)
    requires t.senders == s.senders && t.broadcast == s.broadcast
    ensures TakesInOrder(s, [], t)
  {
    NothingTaken(s.broadcast);
  }

  lemma PublishTakesNothing(s: State, m: Payload)
    ensures TakesInOrder(s, [m], s.(broadcast := s.broadcast + [m]))
  {
    NothingTaken(s.broadcast + [m]);
  }

  lemma LoopsTakeNothing(capacity: nat, s: State, p: nat, c: ClientId)
    ensures TakesInOrder(s, [], SendOne(capacity, s, p, c)) && TakesInOrder(s, [], EndSender(s, p))
  {
    hide Offer, Wants;
    NothingTaken(s.broadcast);
  }

  lemma TopicsTakeNothing(s: State, p: nat, m: Payload, topics: seq<Topic>)
    ensures TakesInOrder(s, PublishedBy(TopicBegin(p, m, topics)), BeginTopics(s, p, m, topics))
  {
    NothingTaken(s.broadcast);
    NothingTaken(s.broadcast + [m]);
  }

  lemma NothingTaken(broadcast: seq<Payload>)
    ensures [] + broadcast == broadcast + [] == broadcast
  {
  }

  lemma TakenByBroadcast(s: State)
    ensures TakesInOrder(s, [], BeginBroadcast(s))
  {
    NothingTaken(s.broadcast);
    if s.broadcast != [] {
      FirstAndRest(s.broadcast);
    }
  }

  /** In every run the published messages are those whose broadcast has begun, in the order they were published, and
      then those still waiting: none is lost, repeated or overtaken. */
  lemma {:induction false} BroadcastsInOrder(capacity: nat, events: seq<Event>)
    ensures Published(events) == Taken(capacity, events) + Execute(capacity, events).broadcast
  {
    if events != [] {
      hide Next, Inv, PublishedBy, TakenBy;
      var front, e := events[..|events| - 1], events[|events| - 1];
      var s := Execute(capacity, front);
      BroadcastsInOrder(capacity, front);
      TakenStep(capacity, s, e);
      Regroup(Taken(capacity, front), s.broadcast, PublishedBy(e));
      Regroup(Taken(capacity, front), TakenBy(s, Execute(capacity, events)), Execute(capacity, events).broadcast);
    }
  }

  // ----- joining, leaving and stopping -----

  lemma ThreeSteps(capacity: nat, s: State, d: Event, e: Event, f: Event)
    ensures ExecuteFrom(capacity, s, [d] + [e] + [f]) == Next(capacity, Next(capacity, Next(capacity, s, d), e), f)
  {
    hide Next, ExecuteFrom;
    FromOne(capacity, s, d);
    FromLast(capacity, s, [d], e);
    FromLast(capacity, s, [d] + [e], f);
  }

  /** A client that connects is mapped and counted once, with its initial topics and an empty open channel, and its
      two goroutines run; nobody else notices. */
  lemma JoinEffect(capacity: nat, s: State, c: ClientId, initial: set<Topic>)
    requires s.run == Idle && Unlocked(s) && c !in s.all
    ensures
      var t := Next(capacity, s, Connect(c, initial));
      var x := Client([], true, initial, Reading, Waiting, [], [], [], []);
      ExecuteFrom(capacity, t, [RegisterReceive(c)] + [RegisterInsert] + [RegisterCount]) ==
      s.(all := s.all[c := x], clients := s.clients + {c},
         connectionsTotal := s.connectionsTotal + 1, connectionsCurrent := s.connectionsCurrent + 1)
  {
    hide ExecuteFrom, Next;
    var t := Next(capacity, s, Connect(c, initial));
    Connects(capacity, s, c, initial);
    ThreeSteps(capacity, t, RegisterReceive(c), RegisterInsert, RegisterCount);
    Joins(capacity, t, c);
    MapTwice(s.all, c, NEW_CLIENT.(topics := initial),
             NEW_CLIENT.(topics := initial, reader := Reading, writer := Waiting));
  }

  lemma Connects(capacity: nat, s: State, c: ClientId, initial: set<Topic>)
    requires c !in s.all
    ensures Next(capacity, s, Connect(c, initial)) == s.(all := s.all[c := NEW_CLIENT.(topics := initial)])
  {
  }

  lemma MapTwice(all: map<ClientId, Client>, c: ClientId, x: Client, y: Client)
    ensures all[c := x][c := y] == all[c := y]
  {
  }

  lemma Joins(capacity: nat, s: State, c: ClientId)
    requires s.run == Idle && Unlocked(s) && c in s.all && s.all[c].reader == Connecting
    ensures Next(capacity, Next(capacity, Next(capacity, s, RegisterReceive(c)), RegisterInsert), RegisterCount) ==
            s.(all := s.all[c := s.all[c].(reader := Reading, writer := Waiting)], clients := s.clients + {c},
               connectionsTotal := s.connectionsTotal + 1, connectionsCurrent := s.connectionsCurrent + 1)
  {
    hide Next;
    var t := s.(run := Registering(c), all := s.all[c := s.all[c].(reader := Reading, writer := Waiting)]);
    RegisterSteps(capacity, s, c);
    RegisterSteps(capacity, t, c);
    RegisterSteps(capacity, t.(run := Counting(c), clients := t.clients + {c}), c);
  }

  lemma RegisterSteps(capacity: nat, s: State, c: ClientId)
    ensures Next(capacity, s, RegisterReceive(c)) == TakeRegistration(s, c)
    ensures Next(capacity, s, RegisterInsert) == InsertClient(s)
    ensures Next(capacity, s, RegisterCount) == CountClient(s)
  {
  }

  /** A client whose reader ends is unmapped, its channel closed and the gauge lowered, exactly when it was still
      mapped; its total stays, and nobody else notices. */
  lemma LeaveEffect(capacity: nat, s: State, c: ClientId)
    requires Inv(capacity, s) && s.run == Idle && Unlocked(s) && c in s.all && s.all[c].reader == Reading
    ensures
      var t := ExecuteFrom(capacity, s, [ReaderFails(c)] + [UnregisterReceive(c)] + [UnregisterApply]);
      && t == s.(all := t.all, clients := s.clients - {c},
                 connectionsCurrent := s.connectionsCurrent - if c in s.clients then 1 else 0)
      && t.all == s.all[c := s.all[c].(reader := Gone, open := s.all[c].open && c !in s.clients)]
  {
    hide ExecuteFrom, QueuesOk, Gauge, RemoveClient, TakeUnregistration;
    ThreeSteps(capacity, s, ReaderFails(c), UnregisterReceive(c), UnregisterApply);
    assert c in s.clients ==> s.all[c].open;
    hide Membership;
    LeavingTaken(s, c);
    Leaves(s, c);
  }

  lemma LeavingTaken(s: State, c: ClientId)
    requires s.run == Idle && c in s.all && s.all[c].reader == Reading
    ensures TakeUnregistration(LocalTo(s, c, ReaderFails(c)), c) ==
            s.(run := Unregistering(c), all := s.all[c := s.all[c].(reader := Gone)])
  {
    var x := s.all[c];
    assert s.all[c := x.(reader := Leaving)][c := x.(reader := Gone)] == s.all[c := x.(reader := Gone)];
  }

  lemma Leaves(s: State, c: ClientId)
    requires c in s.all && Unlocked(s) && (c in s.clients ==> s.all[c].open)
    ensures
      var x := s.all[c].(reader := Gone);
      RemoveClient(s.(run := Unregistering(c), all := s.all[c := x])) ==
      s.(run := Idle, clients := s.clients - {c}, all := s.all[c := x.(open := x.open && c !in s.clients)],
         connectionsCurrent := s.connectionsCurrent - if c in s.clients then 1 else 0)
  {
    var x := s.all[c].(reader := Gone);
    var all := s.all[c := x];
    if c in s.clients {
      assert CloseAll(all, {c}) == s.all[c := x.(open := false)];
    } else {
      assert s.clients - {c} == s.clients;
    }
  }

  /** Stop closes exactly the mapped clients and empties the map. */
  lemma StopEffect(capacity: nat, s: State)
    requires Inv(capacity, s) && s.cancelled && Unlocked(s)
    ensures
      var t := Next(capacity, s, StopClose);
      && t == s.(all := t.all, clients := {}, stopped := s.stopped + s.clients)
      && t.all.Keys == s.all.Keys
      && forall c :: c in s.all ==> t.all[c] == s.all[c].(open := s.all[c].open && c !in s.clients)
  {
    hide QueuesOk, Gauge;
    ClosesOnce(s);
  }

  /** The hub goroutine is gone: nobody joins the map and no broadcast is taken. */
  ghost predicate StillFinished(s: State, t: State) {
    t.run == Finished && t.clients <= s.clients && s.broadcast <= t.broadcast
  }

  ghost predicate FinishedIn(s: State) {
    Membership(s) && s.run == Finished
  }

  lemma FinishedStep(capacity: nat, s: State, e: Event)
    requires FinishedIn(s)
    ensures StillFinished(s, Next(capacity, s, e))
  {
    if MovesRun(e) || e.StopClose? {
      FinishedIgnores(capacity, s, e);
    } else {
      Footprint(capacity, s, e);
      hide AcceptConnection, TakeRegistration, TakeUnregistration, CloseClients, SendOne, AnswerPing, LocalTo,
           Membership;
    }
  }

  /** Nobody is at the other end of the hub's channels; only Stop still empties the map. */
  lemma FinishedIgnores(capacity: nat, s: State, e: Event)
    requires FinishedIn(s) && (MovesRun(e) || e.StopClose?)
    ensures StillFinished(s, Next(capacity, s, e))
  {
    assert 0 !in s.senders;
    hide Membership, CloseAll, AllOpen;
  }

  lemma HubFinishes(capacity: nat, s: State)
    requires s.run == Idle
    ensures ExecuteFrom(capacity, s, [Cancel] + [RunExits]) == s.(cancelled := true, run := Finished)
  {
    hide ExecuteFrom;
    FromOne(capacity, s, Cancel);
    FromLast(capacity, s, [Cancel], RunExits);
  }

  /** Cancelled, the hub goroutine ends, and then no client is ever mapped again and nothing published is ever taken
      for broadcasting. */
  lemma {:induction false} FinishedIsFinal(capacity: nat, s: State, events: seq<Event>)
    requires Inv(capacity, s) && s.run == Idle
    ensures
      var end := ExecuteFrom(capacity, s, [Cancel] + [RunExits]);
      var t := ExecuteFrom(capacity, end, events);
      t.run == Finished && t.clients <= s.clients && s.broadcast <= t.broadcast
  {
    hide Next, Inv;
    var end := ExecuteFrom(capacity, s, [Cancel] + [RunExits]);
    HubFinishes(capacity, s);
    if events != [] {
      FinishedIsFinal(capacity, s, events[..|events| - 1]);
      FromKeepsInv(capacity, s, [Cancel] + [RunExits]);
      FromKeepsInv(capacity, end, events[..|events| - 1]);
      var t := ExecuteFrom(capacity, end, events[..|events| - 1]);
      MembershipOf(capacity, t);
      FinishedStep(capacity, t, events[|events| - 1]);
    }
  }

  lemma MembershipOf(capacity: nat, s: State)
    requires Inv(capacity, s)
    ensures Membership(s)
  {
  }

  // ----- topics and writing -----

  /** After subscribing, a client takes what names the topic besides what its topics allowed before; after
      unsubscribing, what its other topics allow, which is everything once none is left. */
  lemma SubscriptionDecides(capacity: nat, s: State, c: ClientId, topic: Topic, topics: seq<Topic>)
    requires c in s.all && s.all[c].reader == Reading && topic != ""
    ensures
      var own := s.all[c].topics;
      var y, z := Next(capacity, s, Subscribe(c, topic)).all[c], Next(capacity, s, Unsubscribe(c, topic)).all[c];
      && y == s.all[c].(topics := y.topics) && z == s.all[c].(topics := z.topics)
      && (SubscribedToAny(y.topics, topics) <==> topic in topics || exists u :: u in topics && u in own)
      && (SubscribedToAny(z.topics, topics) <==>
          own <= {topic} || exists u :: u in topics && u in own && u != topic)
  {
    OneTopicMore(s.all[c].topics, topic, topics);
    OneTopicLess(s.all[c].topics, topic, topics);
    hide SubscribedToAny;
  }

  lemma OneTopicMore(own: set<Topic>, topic: Topic, topics: seq<Topic>)
    ensures SubscribedToAny(own + {topic}, topics) <==> topic in topics || exists u :: u in topics && u in own
  {
    assert topic in own + {topic};
  }

  lemma OneTopicLess(own: set<Topic>, topic: Topic, topics: seq<Topic>)
    ensures SubscribedToAny(own - {topic}, topics) <==>
            own <= {topic} || exists u :: u in topics && u in own && u != topic
  {
    assert own - {topic} == {} <==> own <= {topic};
  }

  /** A reader that answers a ping offers the pong to its own client, once, and to nobody else. */
  lemma PingEffect(capacity: nat, s: State, c: ClientId, pong: Payload)
    requires c in s.all && s.all[c].reader == Reading && s.all[c].open
    ensures
      var x := s.all[c];
      Next(capacity, s, Ping(c, pong)) ==
      s.(all := s.all[c := if |x.queue| < capacity then
                             x.(offered := x.offered + [pong], queue := x.queue + [pong],
                                enqueued := x.enqueued + [pong])
                           else x.(offered := x.offered + [pong])])
  {
  }

  /** So many receives of the drain loop. */
  function Drains(c: ClientId, n: nat): seq<Event> {
    if n == 0 then [] else Drains(c, n - 1) + [WriterDrains(c)]
  }

  /** The client after `n` receives of the drain loop. */
  function Drained(x: Client, n: nat): Client
    requires x.writer.Draining? && n <= x.writer.n <= |x.queue|
  {
    x.(writer := Draining(x.writer.n - n), queue := x.queue[n..], written := x.written + x.queue[..n])
  }

  lemma DrainedOn(x: Client, n: nat)
    requires x.writer.Draining? && n < x.writer.n <= |x.queue|
    ensures DrainOne(Drained(x, n)) == Drained(x, n + 1)
  {
    assert x.queue[n..][1..] == x.queue[n + 1..];
    assert x.queue[..n + 1] == x.queue[..n] + [x.queue[n]];
    Regroup(x.written, x.queue[..n], [x.queue[n]]);
  }

  lemma DrainedNothing(x: Client)
    requires x.writer.Draining? && x.writer.n <= |x.queue|
    ensures Drained(x, 0) == x
  {
    NothingAppended(x.written);
    assert x.queue[..0] == [] && x.queue[0..] == x.queue;
  }

  predicate Writes(e: Event) {
    e.WriterTake? || e.WriterWrites? || e.WriterDrains? || e.WriterDone?
  }

  /** A step of the writer changes its client only. */
  lemma WriterStep(capacity: nat, s: State, c: ClientId, x: Client, e: Event)
    requires c in s.all && Writes(e) && e.c == c
    ensures Next(capacity, s.(all := s.all[c := x]), e) == s.(all := s.all[c := Local(x, e)])
  {
    hide Local;
    var y := Local(x, e);
    assert s.all[c := x][c := y] == s.all[c := y];
  }

  lemma DrainStep(capacity: nat, s: State, c: ClientId, x: Client)
    requires c in s.all
    ensures Next(capacity, s.(all := s.all[c := x]), WriterDrains(c)) == s.(all := s.all[c := DrainOne(x)])
    ensures Next(capacity, s.(all := s.all[c := x]), WriterDone(c)) == s.(all := s.all[c := FinishDrain(x)])
  {
    hide DrainOne, FinishDrain, Next;
    WriterStep(capacity, s, c, x, WriterDrains(c));
    WriterStep(capacity, s, c, x, WriterDone(c));
  }

  lemma NoDrains(capacity: nat, s: State, c: ClientId)
    ensures ExecuteFrom(capacity, s, Drains(c, 0)) == s
  {
  }

  lemma MoreDrains(capacity: nat, s: State, c: ClientId, n: nat)
    ensures ExecuteFrom(capacity, s, Drains(c, n + 1)) ==
            Next(capacity, ExecuteFrom(capacity, s, Drains(c, n)), WriterDrains(c))
  {
    hide ExecuteFrom, Next;
    FromLast(capacity, s, Drains(c, n), WriterDrains(c));
  }

  lemma {:induction false} DrainsOn(capacity: nat, s: State, c: ClientId, x: Client, n: nat)
    requires c in s.all && x.writer.Draining? && n <= x.writer.n <= |x.queue|
    ensures ExecuteFrom(capacity, s.(all := s.all[c := x]), Drains(c, n)) == s.(all := s.all[c := Drained(x, n)])
  {
    hide *;
    var from := s.(all := s.all[c := x]);
    if n == 0 {
      NoDrains(capacity, from, c);
      DrainedNothing(x);
    } else {
      DrainsOn(capacity, s, c, x, n - 1);
      MoreDrains(capacity, from, c, n - 1);
      DrainStep(capacity, s, c, Drained(x, n - 1));
      DrainedOn(x, n - 1);
    }
  }

  /** The client once its writer has taken and written a message. */
  function Turning(x: Client): (y: Client)
    requires x.queue != []
    ensures y.writer == Draining(|y.queue|) && |y.queue| == |x.queue| - 1
  {
    x.(writer := Draining(|x.queue| - 1), queue := x.queue[1..], written := x.written + [x.queue[0]])
  }

  lemma TurnBegins(capacity: nat, s: State, c: ClientId)
    requires c in s.all && s.all[c].writer == Waiting && s.all[c].queue != []
    ensures ExecuteFrom(capacity, s, [WriterTake(c)] + [WriterWrites(c)]) == s.(all := s.all[c := Turning(s.all[c])])
  {
    hide ExecuteFrom;
    FromOne(capacity, s, WriterTake(c));
    FromLast(capacity, s, [WriterTake(c)], WriterWrites(c));
    WriterStep(capacity, s, c, Take(s.all[c]), WriterWrites(c));
  }

  lemma TurnEnds(x: Client)
    requires x.queue != []
    ensures FinishDrain(Drained(Turning(x), |x.queue| - 1)) ==
            x.(writer := Waiting, queue := [], written := x.written + x.queue)
  {
    var rest := x.queue[1..];
    assert rest[|rest|..] == [] && rest[..|rest|] == rest;
    FirstAndRest(x.queue);
    Regroup(x.written, [x.queue[0]], rest);
  }

  /** One turn of the writer puts the message in hand and the whole queue on the wire, in order, and leaves the queue
      empty. */
  lemma TurnWritesEverything(capacity: nat, s: State, c: ClientId)
    requires c in s.all && s.all[c].writer == Waiting && s.all[c].queue != []
    ensures
      var x := s.all[c];
      var turn := [WriterTake(c)] + [WriterWrites(c)] + Drains(c, |x.queue| - 1) + [WriterDone(c)];
      ExecuteFrom(capacity, s, turn) == s.(all := s.all[c := x.(queue := [], written := x.written + x.queue)])
  {
    hide *;
    var x := s.all[c];
    var rest := |x.queue| - 1;
    TurnBegins(capacity, s, c);
    DrainsOn(capacity, s, c, Turning(x), rest);
    FromConcat(capacity, s, [WriterTake(c)] + [WriterWrites(c)], Drains(c, rest));
    FromLast(capacity, s, [WriterTake(c)] + [WriterWrites(c)] + Drains(c, rest), WriterDone(c));
    DrainStep(capacity, s, c, Drained(Turning(x), rest));
    TurnEnds(x);
  }
}
