/** The WebSocket hub as interleaved atomic steps of its goroutines. */
module Hub {
  import opened Common

  type ClientId = nat
  type Payload = string
  type Topic = string

  /** The goroutine that reads a connection; it asks to be unregistered once, when it leaves. */
  datatype Reader = Connecting | Reading | Leaving | Gone

  /** The goroutine that writes a connection: `Draining(n)` has counted n queued messages and will receive that many. */
  datatype Writer = NotStarted | Waiting | Holding(message: Payload) | Draining(n: nat) | Exited

  /** A client with its send channel. `offered`, `enqueued` and `written` record the history of the channel. */
  datatype Client = Client(
    queue: seq<Payload>,
    open: bool,
    topics: set<Topic>,
    reader: Reader,
    writer: Writer,
    lost: seq<Payload>,
    offered: seq<Payload>,
    enqueued: seq<Payload>,
    written: seq<Payload>)

  /** The hub's own goroutine; between receiving a request and finishing it, other goroutines may run. */
  datatype Run = Idle | Registering(c: ClientId) | Counting(c: ClientId) | Unregistering(c: ClientId)
    | Broadcasting | Finished

  /** A holder of the read lock, part-way through the client map. `topics` is None for an unfiltered broadcast. */
  datatype Sender = Sender(message: Payload, topics: Option<seq<Topic>>, remaining: set<ClientId>)

  /** Sender 0 is the hub goroutine; the others are event handlers. */
  datatype State = State(
    all: map<ClientId, Client>,
    clients: set<ClientId>,
    run: Run,
    senders: map<nat, Sender>,
    broadcast: seq<Payload>,
    connectionsTotal: int,
    connectionsCurrent: int,
    cancelled: bool,
    stopped: set<ClientId>,
    panicked: bool)

  const INITIAL := State(map[], {}, Idle, map[], [], 0, 0, false, {}, false)

  const NEW_CLIENT := Client([], true, {}, Connecting, NotStarted, [], [], [], [])

  datatype Event =
    | Connect(c: ClientId, initial: set<Topic>)
    | RegisterReceive(c: ClientId)
    | RegisterInsert
    | RegisterCount
    | ReaderFails(c: ClientId)
    | UnregisterReceive(c: ClientId)
    | UnregisterApply
    | Publish(message: Payload)
    | BroadcastBegin
    | TopicBegin(sender: nat, message: Payload, topics: seq<Topic>)
    | Send(sender: nat, c: ClientId)
    | SenderEnd(sender: nat)
    | Ping(c: ClientId, pong: Payload)
    | Subscribe(c: ClientId, topic: Topic)
    | Unsubscribe(c: ClientId, topic: Topic)
    | WriterTake(c: ClientId)
    | WriterWrites(c: ClientId)
    | WriterDrains(c: ClientId)
    | WriterDone(c: ClientId)
    | WriterExits(c: ClientId)
    | Cancel
    | RunExits
    | StopClose

  /** No topics means everything; otherwise one shared topic is enough. */
  predicate SubscribedToAny(own: set<Topic>, topics: seq<Topic>) {
    own == {} || exists t :: t in topics && t in own
  }

  method IsSubscribedToAny(own: set<Topic>, topics: seq<Topic>) returns (b: bool)
    ensures b <==> SubscribedToAny(own, topics)
  {
    if own == {} {
      return true;
    }
    for i := 0 to |topics|
      invariant forall j :: 0 <= j < i ==> topics[j] !in own
    {
      if topics[i] in own {
        return true;
      }
    }
    b := false;
  }

  predicate Wants(x: Client, topics: Option<seq<Topic>>) {
    topics.None? || SubscribedToAny(x.topics, topics.value)
  }

  /** A non-blocking send; on a closed channel the caller panics. */
  function Offer(capacity: nat, x: Client, m: Payload): Client {
    var y := x.(offered := x.offered + [m]);
    if |x.queue| < capacity then y.(queue := x.queue + [m], enqueued := x.enqueued + [m]) else y
  }

  function Deliver(capacity: nat, s: State, c: ClientId, m: Payload): State
    requires c in s.all
  {
    if s.all[c].open then s.(all := s.all[c := Offer(capacity, s.all[c], m)]) else s.(panicked := true)
  }

  /** Closing a channel twice panics. */
  function CloseAll(all: map<ClientId, Client>, cs: set<ClientId>): (r: map<ClientId, Client>)
    ensures r.Keys == all.Keys
    ensures forall c :: c in all ==> r[c] == if c in cs then all[c].(open := false) else all[c]
  {
    map c | c in all :: if c in cs then all[c].(open := false) else all[c]
  }

  predicate AllOpen(all: map<ClientId, Client>, cs: set<ClientId>) {
    forall c :: c in cs && c in all ==> all[c].open
  }

  /** A write-locked section can run only when nobody holds the read lock. */
  predicate Unlocked(s: State) {
    s.senders == map[]
  }

  // ----- the writer goroutine -----

  /** Receives the first queued message. */
  function Take(x: Client): Client {
    if x.writer == Waiting && x.queue != [] then x.(writer := Holding(x.queue[0]), queue := x.queue[1..]) else x
  }

  /** Writes the message in hand, then counts what is queued. */
  function WriteHeld(x: Client): Client {
    if x.writer.Holding? then x.(writer := Draining(|x.queue|), written := x.written + [x.writer.message]) else x
  }

  /** One receive of the drain loop; with an empty queue it would block, or read nothing from a closed channel. */
  function DrainOne(x: Client): Client {
    if x.writer.Draining? && x.writer.n > 0 && x.queue != [] then
      x.(writer := Draining(x.writer.n - 1), queue := x.queue[1..], written := x.written + [x.queue[0]])
    else x
  }

  function FinishDrain(x: Client): Client {
    if x.writer == Draining(0) then x.(writer := Waiting) else x
  }

  /** A write error, a ping error, or the channel found closed and empty ends the goroutine; a message in hand is
      lost. */
  function Exit(x: Client): Client {
    match x.writer
    case NotStarted => x
    case Exited => x
    case Holding(m) => x.(writer := Exited, lost := x.lost + [m])
    case Waiting => x.(writer := Exited)
    case Draining(_) => x.(writer := Exited)
  }

  /** A step that sends nothing, closes nothing on Stop's behalf and does not panic. */
  ghost predicate Quiet(s: State, s': State) {
    && s'.panicked == s.panicked && s'.stopped == s.stopped
    && forall c :: c in s.all ==> c in s'.all && s'.all[c].offered == s.all[c].offered
  }

  // ----- connections -----

  function AcceptConnection(s: State, c: ClientId, initial: set<Topic>): (s': State)
    ensures Quiet(s, s')
  {
    if c in s.all then s else s.(all := s.all[c := NEW_CLIENT.(topics := initial)])
  }

  /** The hub goroutine takes the client from the register channel; its two pumps start. */
  function TakeRegistration(s: State, c: ClientId): (s': State)
    ensures Quiet(s, s')
  {
    if s.run == Idle && c in s.all && s.all[c].reader == Connecting then
      s.(run := Registering(c), all := s.all[c := s.all[c].(reader := Reading, writer := Waiting)])
    else s
  }

  function InsertClient(s: State): (s': State)
    ensures Quiet(s, s')
  {
    if s.run.Registering? && Unlocked(s) then s.(run := Counting(s.run.c), clients := s.clients + {s.run.c}) else s
  }

  /** The gauges move after the lock is released. */
  function CountClient(s: State): (s': State)
    ensures Quiet(s, s')
  {
    if s.run.Counting? then
      s.(run := Idle, connectionsTotal := s.connectionsTotal + 1, connectionsCurrent := s.connectionsCurrent + 1)
    else s
  }

  function TakeUnregistration(s: State, c: ClientId): (s': State)
    ensures Quiet(s, s')
  {
    if s.run == Idle && c in s.all && s.all[c].reader == Leaving then
      s.(run := Unregistering(c), all := s.all[c := s.all[c].(reader := Gone)])
    else s
  }

  function RemoveClient(s: State): State {
    if s.run.Unregistering? && Unlocked(s) then
      if s.run.c in s.clients then
        s.(run := Idle, clients := s.clients - {s.run.c}, all := CloseAll(s.all, {s.run.c}),
           connectionsCurrent := s.connectionsCurrent - 1, panicked := s.panicked || !AllOpen(s.all, {s.run.c}))
      else s.(run := Idle)
    else s
  }

  /** Stop's locked section: every mapped client is closed and the map replaced; the gauge is not touched. */
  function CloseClients(s: State): State {
    if s.cancelled && Unlocked(s) then
      s.(clients := {}, all := CloseAll(s.all, s.clients), stopped := s.stopped + s.clients,
         panicked := s.panicked || !AllOpen(s.all, s.clients))
    else s
  }

  // ----- messages -----

  function BeginBroadcast(s: State): (s': State)
    ensures Quiet(s, s')
  {
    if s.run == Idle && s.broadcast != [] && 0 !in s.senders then
      s.(run := Broadcasting, broadcast := s.broadcast[1..],
         senders := s.senders[0 := Sender(s.broadcast[0], None, s.clients)])
    else s
  }

  function BeginTopics(s: State, p: nat, m: Payload, topics: seq<Topic>): (s': State)
    ensures Quiet(s, s')
  {
    if topics == [] then s.(broadcast := s.broadcast + [m])
    else if p == 0 || p in s.senders then s
    else s.(senders := s.senders[p := Sender(m, Some(topics), s.clients)])
  }

  /** One iteration of a sender's loop over the client map. */
  function SendOne(capacity: nat, s: State, p: nat, c: ClientId): State {
    if p in s.senders && c in s.senders[p].remaining && c in s.all then
      var sender := s.senders[p];
      var s' := s.(senders := s.senders[p := sender.(remaining := sender.remaining - {c})]);
      if Wants(s.all[c], sender.topics) then Deliver(capacity, s', c, sender.message) else s'
    else s
  }

  function EndSender(s: State, p: nat): (s': State)
    ensures Quiet(s, s')
  {
    if p in s.senders && s.senders[p].remaining == {} then
      s.(senders := s.senders - {p}, run := if p == 0 then Idle else s.run)
    else s
  }

  /** The reader answers a ping itself, without the hub's lock. */
  function AnswerPing(capacity: nat, s: State, c: ClientId, pong: Payload): State {
    if c in s.all && s.all[c].reader == Reading then Deliver(capacity, s, c, pong) else s
  }

  // ----- steps of one client's goroutines -----

  function Local(x: Client, e: Event): (y: Client)
    ensures y.open == x.open && y.offered == x.offered
    ensures y.reader == x.reader || (x.reader == Reading && y.reader == Leaving)
    ensures x.writer == NotStarted ==> y.writer == NotStarted
  {
    match e
    case ReaderFails(_) => if x.reader == Reading then x.(reader := Leaving) else x
    case Subscribe(_, t) => if x.reader == Reading && t != "" then x.(topics := x.topics + {t}) else x
    case Unsubscribe(_, t) => if x.reader == Reading && t != "" then x.(topics := x.topics - {t}) else x
    case WriterTake(_) => Take(x)
    case WriterWrites(_) => WriteHeld(x)
    case WriterDrains(_) => DrainOne(x)
    case WriterDone(_) => FinishDrain(x)
    case WriterExits(_) => Exit(x)
    case _ => x
  }

  function LocalTo(s: State, c: ClientId, e: Event): (s': State)
    ensures Quiet(s, s')
  {
    if c in s.all then s.(all := s.all[c := Local(s.all[c], e)]) else s
  }

  /** One atomic step; an event that is not enabled leaves the state alone. */
  function Next(capacity: nat, s: State, e: Event): State {
    match e
    case Connect(c, initial) => AcceptConnection(s, c, initial)
    case RegisterReceive(c) => TakeRegistration(s, c)
    case RegisterInsert => InsertClient(s)
    case RegisterCount => CountClient(s)
    case UnregisterReceive(c) => TakeUnregistration(s, c)
    case UnregisterApply => RemoveClient(s)
    case Publish(m) => s.(broadcast := s.broadcast + [m])
    case BroadcastBegin => BeginBroadcast(s)
    case TopicBegin(p, m, topics) => BeginTopics(s, p, m, topics)
    case Send(p, c) => SendOne(capacity, s, p, c)
    case SenderEnd(p) => EndSender(s, p)
    case Ping(c, pong) => AnswerPing(capacity, s, c, pong)
    case ReaderFails(c) => LocalTo(s, c, e)
    case Subscribe(c, _) => LocalTo(s, c, e)
    case Unsubscribe(c, _) => LocalTo(s, c, e)
    case WriterTake(c) => LocalTo(s, c, e)
    case WriterWrites(c) => LocalTo(s, c, e)
    case WriterDrains(c) => LocalTo(s, c, e)
    case WriterDone(c) => LocalTo(s, c, e)
    case WriterExits(c) => LocalTo(s, c, e)
    case Cancel => s.(cancelled := true)
    case RunExits => if s.run == Idle && s.cancelled then s.(run := Finished) else s
    case StopClose => CloseClients(s)
  }

  // ----- per-client invariant -----

  function InHand(x: Client): seq<Payload> {
    if x.writer.Holding? then [x.writer.message] else []
  }

  /** First in, first out: what was enqueued is what was written, then what is in hand or lost, then what is queued. */
  ghost predicate ClientOk(capacity: nat, x: Client) {
    && |x.queue| <= capacity
    && (x.writer.Draining? ==> x.writer.n <= |x.queue|)
    && (x.writer != Exited ==> x.lost == [])
    && x.enqueued == x.written + x.lost + InHand(x) + x.queue
    && IsSubsequence(x.enqueued, x.offered)
  }

  lemma {:induction false} SubsequenceOfMore<T>(s: seq<T>, t: seq<T>, x: T)
    requires IsSubsequence(s, t)
    ensures IsSubsequence(s, t + [x])
    decreases |t|
  {
    assert (t + [x])[..|t|] == t;
    if s != [] && s[|s| - 1] == x {
      SubsequencePrefix(s, t);
    }
  }

  lemma {:induction false} SubsequencePrefix<T>(s: seq<T>, t: seq<T>)
    requires s != [] && IsSubsequence(s, t)
    ensures IsSubsequence(s[..|s| - 1], t)
    decreases |t|, 0
  {
    var front, last := t[..|t| - 1], t[|t| - 1];
    assert front + [last] == t;
    if s[|s| - 1] == last {
      SubsequenceOfMore(s[..|s| - 1], front, last);
    } else {
      SubsequencePrefix(s, front);
      SubsequenceOfMore(s[..|s| - 1], front, last);
    }
  }

  lemma OfferOk(capacity: nat, x: Client, m: Payload)
    requires ClientOk(capacity, x)
    ensures ClientOk(capacity, Offer(capacity, x, m))
  {
    var y := Offer(capacity, x, m);
    if |x.queue| < capacity {
      assert y.enqueued[..|x.enqueued|] == x.enqueued && y.offered[..|x.offered|] == x.offered;
      assert IsSubsequence(y.enqueued, y.offered);
      hide IsSubsequence;
      AppendAssociates(x.written + x.lost + InHand(x), x.queue, m);
    } else {
      SubsequenceOfMore(x.enqueued, x.offered, m);
      hide IsSubsequence;
    }
  }

  lemma AppendAssociates(before: seq<Payload>, queue: seq<Payload>, m: Payload)
    ensures before + queue + [m] == before + (queue + [m])
  {
  }

  lemma MoveFirst(before: seq<Payload>, queue: seq<Payload>)
    requires queue != []
    ensures before + queue == before + [queue[0]] + queue[1..]
  {
  }

  lemma AddNothing(s: seq<Payload>)
    ensures s + [] == s
  {
  }

  lemma TakeOk(capacity: nat, x: Client)
    requires ClientOk(capacity, x)
    ensures ClientOk(capacity, Take(x))
  {
    hide IsSubsequence;
    if x.writer == Waiting && x.queue != [] {
      AddNothing(x.written + x.lost);
      MoveFirst(x.written + x.lost, x.queue);
    }
  }

  lemma WriteHeldOk(capacity: nat, x: Client)
    requires ClientOk(capacity, x)
    ensures ClientOk(capacity, WriteHeld(x))
  {
    hide IsSubsequence;
    if x.writer.Holding? {
      AddNothing(x.written);
      AddNothing(x.written + [x.writer.message]);
    }
  }

  lemma DrainOneOk(capacity: nat, x: Client)
    requires ClientOk(capacity, x)
    ensures ClientOk(capacity, DrainOne(x)) && ClientOk(capacity, FinishDrain(x))
    // The receive it stands for never finds the channel empty.
    ensures x.writer.Draining? && x.writer.n > 0 ==> x.queue != []
  {
    hide IsSubsequence;
    if x.writer.Draining? && x.writer.n > 0 {
      AddNothing(x.written);
      AddNothing(x.written + [x.queue[0]]);
      MoveFirst(x.written, x.queue);
    }
  }

  lemma ExitOk(capacity: nat, x: Client)
    requires ClientOk(capacity, x)
    ensures ClientOk(capacity, Exit(x))
  {
    hide IsSubsequence;
    if x.writer.Holding? {
      AddNothing(x.written);
      AddNothing(x.written + [x.writer.message]);
    }
  }

  // ----- hub invariant -----

  ghost predicate QueuesOk(capacity: nat, all: map<ClientId, Client>) {
    forall c :: c in all ==> ClientOk(capacity, all[c])
  }

  ghost predicate Inv(capacity: nat, s: State) {
    QueuesOk(capacity, s.all) && Membership(s) && Gauge(s)
  }

  /** The gauge counts the mapped clients and those Stop closed, except for a registration not yet counted. */
  ghost predicate Gauge(s: State) {
    s.connectionsCurrent + (if s.run.Counting? then 1 else 0) == |s.clients| + |s.stopped|
  }

  lemma QueuesUpdate(capacity: nat, all: map<ClientId, Client>, c: ClientId, y: Client)
    requires QueuesOk(capacity, all) && ClientOk(capacity, y)
    ensures QueuesOk(capacity, all[c := y])
  {
    hide ClientOk;
  }

  /** Who is mapped, open, locked or closed. */
  ghost predicate Membership(s: State) {
    && (forall c :: c in s.clients ==> c in s.all && s.all[c].open)
    && (forall p :: p in s.senders ==> s.senders[p].remaining <= s.clients)
    && (0 in s.senders <==> s.run == Broadcasting)
    && (forall c :: c in s.stopped ==> c in s.all && !s.all[c].open)
    && (forall c :: c in s.all && !s.all[c].open ==> c in s.stopped || s.all[c].reader == Gone)
    && (forall c :: c in s.all && s.all[c].reader == Connecting ==>
          s.all[c].open && s.all[c].writer == NotStarted && c !in s.clients)
    && (forall c :: c in s.all && s.all[c].reader == Gone ==> c !in s.clients || s.run == Unregistering(c))
    && (s.run.Registering? ==> s.run.c in s.all && s.all[s.run.c].open && s.run.c !in s.clients &&
                               s.all[s.run.c].reader != Connecting && s.all[s.run.c].reader != Gone)
    && (s.run.Unregistering? ==> s.run.c in s.all && s.all[s.run.c].reader == Gone)
  }

  /** Events that touch one client only. */
  lemma LocalStep(capacity: nat, s: State, c: ClientId, y: Client)
    requires Inv(capacity, s) && c in s.all && ClientOk(capacity, y)
    requires y.open == s.all[c].open && (y.reader == Connecting ==> y.writer == NotStarted)
    requires y.reader == s.all[c].reader || (s.all[c].reader == Reading && y.reader == Leaving)
    ensures Inv(capacity, s.(all := s.all[c := y]))
  {
    hide ClientOk, QueuesOk;
    QueuesUpdate(capacity, s.all, c, y);
  }

  lemma ConnectStep(capacity: nat, s: State, c: ClientId, initial: set<Topic>)
    requires Inv(capacity, s)
    ensures Inv(capacity, AcceptConnection(s, c, initial))
  {
    NewClientOk(capacity, initial);
    hide ClientOk, QueuesOk;
    QueuesUpdate(capacity, s.all, c, NEW_CLIENT.(topics := initial));
  }

  lemma NewClientOk(capacity: nat, initial: set<Topic>)
    ensures ClientOk(capacity, NEW_CLIENT.(topics := initial))
  {
  }

  lemma PublishStep(capacity: nat, s: State, m: Payload)
    requires Inv(capacity, s)
    ensures Inv(capacity, s.(broadcast := s.broadcast + [m]))
  {
    hide QueuesOk;
  }

  lemma CancelStep(capacity: nat, s: State)
    requires Inv(capacity, s)
    ensures Inv(capacity, s.(cancelled := true))
  {
    hide QueuesOk;
  }

  lemma RunExitsStep(capacity: nat, s: State)
    requires Inv(capacity, s)
    ensures s.run == Idle ==> Inv(capacity, s.(run := Finished))
  {
    hide QueuesOk;
  }

  lemma PingStep(capacity: nat, s: State, c: ClientId, pong: Payload)
    requires Inv(capacity, s)
    ensures Inv(capacity, AnswerPing(capacity, s, c, pong))
  {
    hide ClientOk, Inv, Deliver;
    if c in s.all {
      DeliverStep(capacity, s, c, pong);
    }
  }

  lemma StatusOk(capacity: nat, x: Client)
    requires ClientOk(capacity, x)
    ensures ClientOk(capacity, x.(reader := Gone)) && ClientOk(capacity, x.(open := false))
    ensures x.writer == NotStarted ==> ClientOk(capacity, x.(reader := Reading, writer := Waiting))
  {
  }

  lemma TakeRegistrationMembership(s: State, c: ClientId)
    requires Membership(s)
    ensures Membership(TakeRegistration(s, c))
  {
  }

  lemma TakeRegistrationStep(capacity: nat, s: State, c: ClientId)
    requires Inv(capacity, s)
    ensures Inv(capacity, TakeRegistration(s, c))
  {
    hide ClientOk, Membership;
    TakeRegistrationMembership(s, c);
    if c in s.all {
      ReaderChanges(capacity, s, c, Reading);
      if s.all[c].reader == Connecting {
        ConnectingNotStarted(s, c);
        StatusOk(capacity, s.all[c]);
        QueuesUpdate(capacity, s.all, c, s.all[c].(reader := Reading, writer := Waiting));
      }
    }
  }

  lemma ConnectingNotStarted(s: State, c: ClientId)
    requires Membership(s) && c in s.all && s.all[c].reader == Connecting
    ensures s.all[c].writer == NotStarted
  {
  }

  /** Which state the reader is in has no bearing on the channel. */
  lemma ReaderChanges(capacity: nat, s: State, c: ClientId, reader: Reader)
    requires QueuesOk(capacity, s.all) && c in s.all
    ensures ClientOk(capacity, s.all[c]) && ClientOk(capacity, s.all[c].(reader := reader))
    ensures QueuesOk(capacity, s.all[c := s.all[c].(reader := reader)])
  {
    hide IsSubsequence;
  }

  lemma TakeUnregistrationMembership(s: State, c: ClientId)
    requires Membership(s)
    ensures Membership(TakeUnregistration(s, c))
  {
  }

  lemma TakeUnregistrationStep(capacity: nat, s: State, c: ClientId)
    requires Inv(capacity, s)
    ensures Inv(capacity, TakeUnregistration(s, c))
  {
    hide ClientOk, QueuesOk, Membership;
    TakeUnregistrationMembership(s, c);
    if c in s.all {
      ReaderChanges(capacity, s, c, Gone);
    }
  }

  lemma InsertMembership(s: State)
    requires Membership(s)
    ensures Membership(InsertClient(s))
  {
  }

  lemma InsertGauge(s: State)
    requires Membership(s) && Gauge(s)
    ensures Gauge(InsertClient(s))
  {
    if s.run.Registering? {
      assert s.run.c !in s.clients;
      hide Membership;
      assert |s.clients + {s.run.c}| == |s.clients| + 1;
    }
  }

  lemma InsertStep(capacity: nat, s: State)
    requires Inv(capacity, s)
    ensures Inv(capacity, InsertClient(s))
  {
    InsertMembership(s);
    InsertGauge(s);
    hide QueuesOk, Membership, Gauge;
  }

  lemma CountStep(capacity: nat, s: State)
    requires Inv(capacity, s)
    ensures Inv(capacity, CountClient(s))
  {
    hide QueuesOk;
  }

  lemma BeginBroadcastStep(capacity: nat, s: State)
    requires Inv(capacity, s)
    ensures Inv(capacity, BeginBroadcast(s))
  {
    hide QueuesOk;
  }

  lemma BeginTopicsMembership(s: State, p: nat, m: Payload, topics: seq<Topic>)
    requires Membership(s)
    ensures Membership(BeginTopics(s, p, m, topics))
  {
  }

  lemma BeginTopicsStep(capacity: nat, s: State, p: nat, m: Payload, topics: seq<Topic>)
    requires Inv(capacity, s)
    ensures Inv(capacity, BeginTopics(s, p, m, topics))
  {
    hide QueuesOk, Membership;
    BeginTopicsMembership(s, p, m, topics);
  }

  lemma EndSenderStep(capacity: nat, s: State, p: nat)
    requires Inv(capacity, s)
    ensures Inv(capacity, EndSender(s, p))
  {
    hide QueuesOk;
  }

  /** A send on a closed channel changes nothing but the panic. */
  lemma PanicStep(capacity: nat, s: State)
    requires Inv(capacity, s)
    ensures Inv(capacity, s.(panicked := true))
  {
    hide QueuesOk;
  }

  lemma OfferStatus(capacity: nat, x: Client, m: Payload)
    ensures
      var y := Offer(capacity, x, m);
      y.open == x.open && y.reader == x.reader && y.writer == x.writer
  {
  }

  lemma ConnectingClient(capacity: nat, s: State, c: ClientId)
    requires Inv(capacity, s) && c in s.all
    ensures ClientOk(capacity, s.all[c]) && (s.all[c].reader == Connecting ==> s.all[c].writer == NotStarted)
  {
    hide ClientOk;
  }

  lemma DeliverStep(capacity: nat, s: State, c: ClientId, m: Payload)
    requires Inv(capacity, s) && c in s.all
    ensures Inv(capacity, Deliver(capacity, s, c, m))
  {
    hide ClientOk, Offer, Inv;
    ConnectingClient(capacity, s, c);
    if s.all[c].open {
      OfferOk(capacity, s.all[c], m);
      OfferStatus(capacity, s.all[c], m);
      LocalStep(capacity, s, c, Offer(capacity, s.all[c], m));
    } else {
      PanicStep(capacity, s);
    }
  }

  lemma SendStep(capacity: nat, s: State, p: nat, c: ClientId)
    requires Inv(capacity, s)
    ensures Inv(capacity, SendOne(capacity, s, p, c))
  {
    hide ClientOk, Deliver;
    if p in s.senders && c in s.senders[p].remaining && c in s.all {
      var sender := s.senders[p];
      var s' := s.(senders := s.senders[p := sender.(remaining := sender.remaining - {c})]);
      assert Inv(capacity, s');
      hide Inv;
      DeliverStep(capacity, s', c, sender.message);
    }
  }

  lemma LocalOk(capacity: nat, x: Client, e: Event)
    requires ClientOk(capacity, x)
    ensures ClientOk(capacity, Local(x, e))
  {
    hide IsSubsequence;
    hide Take, WriteHeld, DrainOne, FinishDrain, Exit;
    TakeOk(capacity, x);
    WriteHeldOk(capacity, x);
    DrainOneOk(capacity, x);
    ExitOk(capacity, x);
  }

  lemma LocalToStep(capacity: nat, s: State, c: ClientId, e: Event)
    requires Inv(capacity, s)
    ensures Inv(capacity, LocalTo(s, c, e))
  {
    if c in s.all {
      hide ClientOk, Local;
      LocalOk(capacity, s.all[c], e);
      LocalStep(capacity, s, c, Local(s.all[c], e));
    }
  }

  lemma ClosedOk(capacity: nat, s: State, cs: set<ClientId>)
    requires Inv(capacity, s)
    ensures QueuesOk(capacity, CloseAll(s.all, cs))
  {
    hide ClientOk, CloseAll;
    forall c | c in s.all
      ensures ClientOk(capacity, CloseAll(s.all, cs)[c])
    {
      StatusOk(capacity, s.all[c]);
    }
  }

  lemma RemoveMembership(s: State)
    requires Membership(s)
    ensures Membership(RemoveClient(s))
  {
    hide CloseAll;
  }

  lemma RemoveQueues(capacity: nat, s: State)
    requires Inv(capacity, s)
    ensures QueuesOk(capacity, RemoveClient(s).all)
  {
    hide QueuesOk, CloseAll, Membership, Gauge;
    if s.run.Unregistering? {
      ClosedOk(capacity, s, {s.run.c});
    }
  }

  lemma RemoveGauge(s: State)
    requires Gauge(s)
    ensures Gauge(RemoveClient(s))
  {
    hide CloseAll, AllOpen;
    if s.run.Unregistering? && s.run.c in s.clients {
      assert |s.clients - {s.run.c}| == |s.clients| - 1;
    }
  }

  lemma RemoveClientStep(capacity: nat, s: State)
    requires Inv(capacity, s)
    ensures Inv(capacity, RemoveClient(s))
  {
    hide RemoveClient, QueuesOk, Membership, Gauge;
    RemoveMembership(s);
    RemoveQueues(capacity, s);
    RemoveGauge(s);
  }

  lemma StoppedApart(s: State)
    requires Membership(s)
    ensures |s.stopped + s.clients| == |s.stopped| + |s.clients|
  {
    assert s.stopped !! s.clients by {
      forall c | c in s.stopped
        ensures c !in s.clients
      {
        assert !s.all[c].open;
      }
    }
  }

  lemma CloseMembership(s: State)
    requires Membership(s) && Unlocked(s)
    ensures Membership(CloseClients(s))
  {
    hide CloseAll;
  }

  lemma CloseClientsStep(capacity: nat, s: State)
    requires Inv(capacity, s)
    ensures Inv(capacity, CloseClients(s))
  {
    if s.cancelled && Unlocked(s) {
      hide QueuesOk, CloseAll;
      CloseMembership(s);
      ClosedOk(capacity, s, s.clients);
      StoppedApart(s);
      hide Membership;
    }
  }

  /** Every step of every goroutine keeps the invariant. */
  lemma NextKeepsInv(capacity: nat, s: State, e: Event)
    requires Inv(capacity, s)
    ensures Inv(capacity, Next(capacity, s, e))
  {
    hide Inv, ClientOk, AcceptConnection, TakeRegistration, InsertClient, CountClient, TakeUnregistration, RemoveClient,
         CloseClients, BeginBroadcast, BeginTopics, SendOne, EndSender, AnswerPing, LocalTo;
    match e
    case Connect(c, initial) => ConnectStep(capacity, s, c, initial);
    case RegisterReceive(c) => TakeRegistrationStep(capacity, s, c);
    case RegisterInsert => InsertStep(capacity, s);
    case RegisterCount => CountStep(capacity, s);
    case UnregisterReceive(c) => TakeUnregistrationStep(capacity, s, c);
    case UnregisterApply => RemoveClientStep(capacity, s);
    case Publish(m) => PublishStep(capacity, s, m);
    case BroadcastBegin => BeginBroadcastStep(capacity, s);
    case TopicBegin(p, m, topics) => BeginTopicsStep(capacity, s, p, m, topics);
    case Send(p, c) => SendStep(capacity, s, p, c);
    case SenderEnd(p) => EndSenderStep(capacity, s, p);
    case Ping(c, pong) => PingStep(capacity, s, c, pong);
    case Cancel => CancelStep(capacity, s);
    case RunExits => RunExitsStep(capacity, s);
    case StopClose => CloseClientsStep(capacity, s);
    case ReaderFails(c) => LocalToStep(capacity, s, c, e);
    case Subscribe(c, _) => LocalToStep(capacity, s, c, e);
    case Unsubscribe(c, _) => LocalToStep(capacity, s, c, e);
    case WriterTake(c) => LocalToStep(capacity, s, c, e);
    case WriterWrites(c) => LocalToStep(capacity, s, c, e);
    case WriterDrains(c) => LocalToStep(capacity, s, c, e);
    case WriterDone(c) => LocalToStep(capacity, s, c, e);
    case WriterExits(c) => LocalToStep(capacity, s, c, e);
  }

  // ----- whole runs -----

  function Execute(capacity: nat, events: seq<Event>): State {
    if events == [] then INITIAL
    else Next(capacity, Execute(capacity, events[..|events| - 1]), events[|events| - 1])
  }

  /** Over every interleaving. */
  lemma {:induction false} RunsKeepInv(capacity: nat, events: seq<Event>)
    ensures Inv(capacity, Execute(capacity, events))
  {
    if events != [] {
      hide Next, Inv;
      RunsKeepInv(capacity, events[..|events| - 1]);
      NextKeepsInv(capacity, Execute(capacity, events[..|events| - 1]), events[|events| - 1]);
    }
  }

  /** Whether a step is one of the four that send or close. */
  predicate SendsOrCloses(e: Event) {
    e.Send? || e.Ping? || e.UnregisterApply? || e.StopClose?
  }

  lemma OthersAreQuiet(capacity: nat, s: State, e: Event)
    requires !SendsOrCloses(e)
    ensures Quiet(s, Next(capacity, s, e))
  {
    hide AcceptConnection, TakeRegistration, InsertClient, CountClient, TakeUnregistration, BeginBroadcast, BeginTopics,
         EndSender, LocalTo;
  }

  lemma SendNeverPanics(capacity: nat, s: State, p: nat, c: ClientId)
    requires Membership(s)
    ensures SendOne(capacity, s, p, c).panicked == s.panicked
  {
    hide Offer, Wants;
    if p in s.senders && c in s.senders[p].remaining {
      assert c in s.clients && s.all[c].open;
    }
  }

  lemma ClosesOnce(s: State)
    requires Membership(s)
    ensures RemoveClient(s).panicked == s.panicked && CloseClients(s).panicked == s.panicked
  {
  }

  lemma PingPanicsExactlyWhen(capacity: nat, s: State, c: ClientId, pong: Payload)
    requires Membership(s) && !s.panicked
    ensures AnswerPing(capacity, s, c, pong).panicked <==>
            c in s.stopped && c in s.all && s.all[c].reader == Reading
  {
    hide Offer;
    if c in s.all && !s.all[c].open {
      assert c in s.stopped || s.all[c].reader == Gone;
    }
  }

  /** No broadcast ever sends on a closed channel and no channel is closed twice: the one step that can panic
      is a ping answered for a client whose channel Stop has closed. */
  lemma OnlyPingAfterStopPanics(capacity: nat, s: State, e: Event)
    requires Inv(capacity, s) && !s.panicked
    ensures Next(capacity, s, e).panicked <==>
              e.Ping? && e.c in s.stopped && e.c in s.all && s.all[e.c].reader == Reading
  {
    hide QueuesOk, Membership, SendOne, AnswerPing, RemoveClient, CloseClients;
    match e
    case Send(p, c) => SendNeverPanics(capacity, s, p, c);
    case Ping(c, pong) => PingPanicsExactlyWhen(capacity, s, c, pong);
    case UnregisterApply => ClosesOnce(s);
    case StopClose => ClosesOnce(s);
    case _ => hide Next; OthersAreQuiet(capacity, s, e);
  }

  predicate NoStop(events: seq<Event>) {
    forall i :: 0 <= i < |events| ==> !events[i].StopClose?
  }

  lemma StoppedOnlyByStop(capacity: nat, s: State, e: Event)
    requires !e.StopClose?
    ensures Next(capacity, s, e).stopped == s.stopped
  {
    if !SendsOrCloses(e) {
      OthersAreQuiet(capacity, s, e);
      hide Next;
    }
  }

  /** Until Stop closes the clients nothing panics, and the gauge is the size of the client map,
      once the registration in progress has been counted. */
  lemma {:induction false} BeforeStop(capacity: nat, events: seq<Event>)
    requires NoStop(events)
    ensures
      var s := Execute(capacity, events);
      && s.stopped == {} && !s.panicked
      && s.connectionsCurrent == |s.clients| - if s.run.Counting? then 1 else 0
  {
    GaugeAfterStop(capacity, events);
    if events != [] {
      var front, e := events[..|events| - 1], events[|events| - 1];
      BeforeStop(capacity, front);
      RunsKeepInv(capacity, front);
      hide Next, Inv;
      OnlyPingAfterStopPanics(capacity, Execute(capacity, front), e);
      StoppedOnlyByStop(capacity, Execute(capacity, front), e);
    }
  }

  /** In every run the gauge is the map's size plus the clients Stop closed: Stop empties the map without lowering
      it. */
  lemma GaugeAfterStop(capacity: nat, events: seq<Event>)
    ensures
      var s := Execute(capacity, events);
      s.connectionsCurrent == |s.clients| + |s.stopped| - if s.run.Counting? then 1 else 0
  {
    RunsKeepInv(capacity, events);
    hide Execute, ClientOk;
  }

  /** One connected client, nothing sent yet. */
  function Connected(c: ClientId): State {
    INITIAL.(all := map[c := NEW_CLIENT.(reader := Reading, writer := Waiting)], clients := {c},
             connectionsTotal := 1, connectionsCurrent := 1)
  }

  lemma ConnectingSteps(c: ClientId)
    ensures CountClient(InsertClient(TakeRegistration(AcceptConnection(INITIAL, c, {}), c))) == Connected(c)
  {
    var x := NEW_CLIENT.(topics := {});
    var s1 := INITIAL.(all := map[c := x]);
    assert AcceptConnection(INITIAL, c, {}) == s1;
    var s2 := s1.(run := Registering(c), all := map[c := x.(reader := Reading, writer := Waiting)]);
    assert TakeRegistration(s1, c) == s2;
    assert InsertClient(s2) == s2.(run := Counting(c), clients := {c});
  }

  lemma StoppingSteps(c: ClientId)
    ensures
      var s := CloseClients(Connected(c).(cancelled := true));
      && !s.panicked && s.clients == {} && s.connectionsCurrent == 1
      && c in s.all && s.all[c].reader == Reading && !s.all[c].open
  {
    assert AllOpen(Connected(c).all, {c});
  }

  lemma {:induction false} ExecuteLast(capacity: nat, before: seq<Event>, e: Event)
    ensures Execute(capacity, before + [e]) == Next(capacity, Execute(capacity, before), e)
  {
    hide Next;
    assert (before + [e])[..|before|] == before;
  }

  /** The panic is real: once Stop has closed a connected client, its reader can still answer a ping. */
  lemma PingAfterStopPanics(capacity: nat, c: ClientId, pong: Payload)
    ensures
      var events := [Connect(c, {})] + [RegisterReceive(c)] + [RegisterInsert] + [RegisterCount] + [Cancel]
          + [StopClose];
      var s := Execute(capacity, events);
      && !s.panicked && s.clients == {} && s.connectionsCurrent == 1
      && Execute(capacity, events + [Ping(c, pong)]).panicked
  {
    hide *;
    var connected := [Connect(c, {})] + [RegisterReceive(c)] + [RegisterInsert] + [RegisterCount];
    ConnectedRun(capacity, c);
    ExecuteLast(capacity, connected, Cancel);
    ExecuteLast(capacity, connected + [Cancel], StopClose);
    ExecuteLast(capacity, connected + [Cancel] + [StopClose], Ping(c, pong));
    StopThenPing(capacity, c, pong);
  }

  lemma StopThenPing(capacity: nat, c: ClientId, pong: Payload)
    ensures
      var s := Next(capacity, Next(capacity, Connected(c), Cancel), StopClose);
      && !s.panicked && s.clients == {} && s.connectionsCurrent == 1
      && Next(capacity, s, Ping(c, pong)).panicked
  {
    StoppingSteps(c);
    hide CloseClients, Connected;
  }

  lemma ConnectedRun(capacity: nat, c: ClientId)
    ensures Execute(capacity, [Connect(c, {})] + [RegisterReceive(c)] + [RegisterInsert] + [RegisterCount]) ==
            Connected(c)
  {
    var none: seq<Event> := [];
    assert Execute(capacity, none) == INITIAL && none + [Connect(c, {})] == [Connect(c, {})];
    hide AcceptConnection, TakeRegistration, InsertClient, CountClient, Connected, Execute;
    ExecuteLast(capacity, none, Connect(c, {}));
    ExecuteLast(capacity, [Connect(c, {})], RegisterReceive(c));
    ExecuteLast(capacity, [Connect(c, {})] + [RegisterReceive(c)], RegisterInsert);
    ExecuteLast(capacity, [Connect(c, {})] + [RegisterReceive(c)] + [RegisterInsert], RegisterCount);
    ConnectingSteps(c);
  }

  /** Delivery is first in, first out for every client in every run. */
  lemma DeliveryIsFifo(capacity: nat, events: seq<Event>, c: ClientId)
    requires c in Execute(capacity, events).all
    ensures
      var x := Execute(capacity, events).all[c];
      && x.enqueued == x.written + x.lost + InHand(x) + x.queue
      && IsSubsequence(x.enqueued, x.offered)
      && |x.queue| <= capacity
      && (x.writer.Draining? && x.writer.n > 0 ==> x.queue != [])
  {
    RunsKeepInv(capacity, events);
    hide Execute, IsSubsequence;
    assert ClientOk(capacity, Execute(capacity, events).all[c]);
  }

  /** A message offered to an open channel is dropped only when the queue is full. */
  lemma DropsOnlyWhenFull(capacity: nat, s: State, e: Event, c: ClientId)
    requires Inv(capacity, s) && c in s.all && c in Next(capacity, s, e).all
    requires Next(capacity, s, e).all[c].offered != s.all[c].offered
    ensures
      var x, y := s.all[c], Next(capacity, s, e).all[c];
      exists m :: y.offered == x.offered + [m] &&
        (if |x.queue| < capacity then y.queue == x.queue + [m] && y.enqueued == x.enqueued + [m]
         else |x.queue| == capacity && y.queue == x.queue && y.enqueued == x.enqueued)
  {
    assert |s.all[c].queue| <= capacity by {
      assert ClientOk(capacity, s.all[c]);
    }
    hide ClientOk, Inv;
    hide Wants, IsSubsequence;
    if SendsOrCloses(e) {
      SendersOffer(capacity, s, e, c);
      hide Next;
    } else {
      OthersAreQuiet(capacity, s, e);
      hide Next;
    }
  }

  lemma SendersOffer(capacity: nat, s: State, e: Event, c: ClientId)
    requires c in s.all && c in Next(capacity, s, e).all && SendsOrCloses(e)
    requires Next(capacity, s, e).all[c].offered != s.all[c].offered
    ensures exists m :: Next(capacity, s, e).all[c] == Offer(capacity, s.all[c], m)
  {
    hide Wants;
    match e
    case Ping(_, pong) => assert Next(capacity, s, e).all[c] == Offer(capacity, s.all[c], pong);
    case Send(p, _) => assert Next(capacity, s, e).all[c] == Offer(capacity, s.all[c], s.senders[p].message);
    case _ =>
  }
}
