/** src/ws/GraphQLServerWebSocket.ts: the server's side of one connection, one step per segment between awaits. */
module ServerSockets {
  import opened GraphQLAst

  /** Payloads and execution results are only passed on, and subscription ids only compared. */
  type Payload = int
  type Data = int
  type Id = nat

  datatype ClientMessage =
    | ConnectionInit(payload: Payload)
    | Subscribe(id: Id)
    | ClientComplete(id: Id)
    | Invalid

  datatype Terminal = Complete | Error

  datatype ServerMessage =
    | ConnectionAck
    | Next(id: Id, data: Data)
    | End(id: Id, terminal: Terminal)

  /** DeferredPromise: the first settlement wins. */
  datatype Deferred = Unsettled | Resolved(payload: Payload) | Rejected(code: int)

  datatype Handler = HandleSubscribe(id: Id) | HandleComplete(id: Id)

  /**
    One accepted `subscribe`. `Answered`: the operation gave errors instead of a stream, so no linger timer runs;
    `Lingering`: the stream ended and its timer runs; `Forgotten`: the timer fired.
   */
  datatype Phase = Subscribing | Streaming | Answered | Lingering | Forgotten

  /** `consumed`: what the for-await loop took; `sent` and `terminal`: what went out for it. */
  datatype Stream = Stream(id: Id, phase: Phase, consumed: seq<Data>, sent: seq<Data>, terminal: Option<Terminal>)

  datatype Action =
    | AcknowledgeCalled(payload: Payload)
    | AcknowledgeSucceeded(payload: Payload)
    | AckSent
    | SubscribeCalled(stream: nat, payload: Payload)
    | NextSent(stream: nat, data: Data)
    | EndSent(stream: nat, terminal: Terminal)

  datatype Server = Server(
    legacy: bool,
    open: bool,
    initialized: bool,
    acknowledging: Option<Payload>,
    acknowledged: bool,
    initPayload: Deferred,
    waiting: seq<Handler>,
    subscriptions: map<Id, nat>,
    streams: seq<Stream>,
    returned: set<nat>,
    closedWith: Option<int>,
    log: seq<Action>)

  datatype Event =
    | Receives(message: ClientMessage)
    | AcknowledgeResolves
    | AcknowledgeRejects
    | HandlerContinues
    | SubscribeResolves(stream: nat, isIterator: bool)
    | Yields(stream: nat, data: Data)
    | Ends(stream: nat, terminal: Terminal)
    | LingerFires(stream: nat)
    | InitTimesOut
    | SocketEnds(code: int)

  function Initial(legacy: bool): Server {
    Server(legacy, true, false, None, false, Unsettled, [], map[], [], {}, None, [])
  }

  function CloseWith(s: Server, code: int): Server {
    if s.open then s.(open := false, closedWith := Some(code)) else s
  }

  function Settle(d: Deferred, outcome: Deferred): Deferred {
    if d == Unsettled then outcome else d
  }

  /** `send` is silent on a socket that is not open. */
  function SendAck(s: Server): Server {
    if s.open then s.(log := s.log + [AckSent]) else s
  }

  function SendNext(s: Server, i: nat, data: Data): Server
    requires i < |s.streams|
  {
    if s.open then
      s.(log := s.log + [NextSent(i, data)], streams := s.streams[i := s.streams[i].(sent := s.streams[i].sent + [data])])
    else s
  }

  function SendEnd(s: Server, i: nat, terminal: Terminal): Server
    requires i < |s.streams|
  {
    if s.open then
      s.(log := s.log + [EndSent(i, terminal)], streams := s.streams[i := s.streams[i].(terminal := Some(terminal))])
    else s
  }

  function SetPhase(s: Server, i: nat, phase: Phase): Server
    requires i < |s.streams|
  {
    s.(streams := s.streams[i := s.streams[i].(phase := phase)])
  }

  function Receive(s: Server, message: ClientMessage): Server {
    match message
    case ConnectionInit(payload) =>
      if s.initialized then CloseWith(s, 4429)
      else s.(initialized := true, acknowledging := Some(payload), log := s.log + [AcknowledgeCalled(payload)])
    case Subscribe(id) =>
      if !s.legacy && !s.acknowledged then CloseWith(s, 4401) else s.(waiting := s.waiting + [HandleSubscribe(id)])
    case ClientComplete(id) =>
      if !s.legacy && !s.acknowledged then CloseWith(s, 4401) else s.(waiting := s.waiting + [HandleComplete(id)])
    case Invalid => CloseWith(s, 4400)
  }

  /** The rest of a message handler, once `requireAck` has settled. */
  function Handle(s: Server, handler: Handler): Server {
    match s.initPayload
    case Unsettled => s
    case Rejected(code) => CloseWith(s, code)
    case Resolved(payload) =>
      match handler
      case HandleSubscribe(id) =>
        if id in s.subscriptions then CloseWith(s, 4409)
        else s.(subscriptions := s.subscriptions[id := |s.streams|],
                streams := s.streams + [Stream(id, Subscribing, [], [], None)],
                log := s.log + [SubscribeCalled(|s.streams|, payload)])
      case HandleComplete(id) =>
        if id !in s.subscriptions then CloseWith(s, 4409)
        else s.(returned := s.returned + {s.subscriptions[id]})
  }

  predicate Enabled(s: Server, e: Event) {
    match e
    case Receives(_) => true
    case AcknowledgeResolves => s.acknowledging.Some?
    case AcknowledgeRejects => s.acknowledging.Some?
    case HandlerContinues => s.waiting != [] && s.initPayload != Unsettled
    case SubscribeResolves(i, _) => i < |s.streams| && s.streams[i].phase == Subscribing
    case Yields(i, _) => i < |s.streams| && s.streams[i].phase == Streaming
    case Ends(i, _) => i < |s.streams| && s.streams[i].phase == Streaming
    case LingerFires(i) => i < |s.streams| && s.streams[i].phase == Lingering
    case InitTimesOut => !s.initialized
    case SocketEnds(_) => true
  }

  function Step(s: Server, e: Event): Server
    requires Enabled(s, e)
  {
    match e
    case Receives(message) => Receive(s, message)
    case AcknowledgeResolves =>
      var payload := s.acknowledging.value;
      SendAck(s.(log := s.log + [AcknowledgeSucceeded(payload)]))
      .(initPayload := Settle(s.initPayload, Resolved(payload)), acknowledged := true, acknowledging := None)
    case AcknowledgeRejects =>
      CloseWith(s, 4401).(initPayload := Settle(s.initPayload, Rejected(4401)), acknowledging := None)
    case HandlerContinues => Handle(s.(waiting := s.waiting[1..]), s.waiting[0])
    case SubscribeResolves(i, isIterator) =>
      if isIterator then SetPhase(s, i, Streaming) else SetPhase(SendEnd(s, i, Error), i, Answered)
    case Yields(i, data) =>
      SendNext(s.(streams := s.streams[i := s.streams[i].(consumed := s.streams[i].consumed + [data])]), i, data)
    case Ends(i, terminal) => SetPhase(SendEnd(s, i, terminal), i, Lingering)
    case LingerFires(i) => SetPhase(s.(subscriptions := s.subscriptions - {s.streams[i].id}), i, Forgotten)
    case InitTimesOut => CloseWith(s, 4408)
    case SocketEnds(code) =>
      s.(open := false, initPayload := Settle(s.initPayload, Rejected(code)),
         returned := s.returned + set id | id in s.subscriptions :: s.subscriptions[id])
  }

  function Run(legacy: bool, events: seq<Event>): Option<Server> {
    if events == [] then Some(Initial(legacy))
    else
      match Run(legacy, events[..|events| - 1])
      case None => None
      case Some(s) => if Enabled(s, events[|events| - 1]) then Some(Step(s, events[|events| - 1])) else None
  }

  // ----- what one step does to the streams -----

  /** The part of the state that the bookkeeping of streams is about. */
  datatype Book = Book(open: bool, subscriptions: map<Id, nat>, streams: seq<Stream>, log: seq<Action>)

  function BookOf(s: Server): Book {
    Book(s.open, s.subscriptions, s.streams, s.log)
  }

  /** Nothing but a close. */
  predicate Closes(b: Book, c: Book) {
    c.subscriptions == b.subscriptions && c.streams == b.streams && (c.open ==> b.open) && NoData(b.log, c.log)
  }

  /** The log only got actions that are not messages of a stream. */
  predicate NoData(before: seq<Action>, after: seq<Action>) {
    before <= after && forall k | |before| <= k < |after| :: !IsData(after[k])
  }

  predicate Opens(b: Book, c: Book, id: Id) {
    && id !in b.subscriptions && c.open == b.open && NoData(b.log, c.log)
    && c.subscriptions == b.subscriptions[id := |b.streams|]
    && c.streams == b.streams + [Stream(id, Subscribing, [], [], None)]
  }

  /** One stream that is not forgotten moves on, and sends `message` if it has one and the socket is open. */
  predicate Moves(b: Book, c: Book, i: nat, after: Stream, message: Option<Action>) {
    && i < |b.streams| && c.open == b.open && c.streams == b.streams[i := after]
    && after.id == b.streams[i].id && b.streams[i].phase != Forgotten
    && c.subscriptions == (if after.phase == Forgotten then b.subscriptions - {after.id} else b.subscriptions)
    && c.log == (if message.Some? then b.log + [message.value] else b.log)
    && (message.Some? ==> b.open && IsData(message.value) && message.value.stream == i)
    && Progresses(b.streams[i], after, i, message)
    && Block(i, after) == Block(i, b.streams[i]) + (if message.Some? then [message.value] else [])
    && (StreamFits(b.open, b.streams[i]) ==> StreamFits(b.open, after))
  }

  /** What a message adds to its stream; a stream that is over sends no more. */
  predicate Progresses(before: Stream, after: Stream, i: nat, message: Option<Action>) {
    && (Over(before.phase) ==> Over(after.phase) && message.None?)
    && match message
       case None => after.sent == before.sent && after.terminal == before.terminal
       case Some(NextSent(_, data)) => after.sent == before.sent + [data] && after.terminal == before.terminal == None
       case Some(EndSent(_, terminal)) => after.sent == before.sent && before.terminal == None && after.terminal == Some(terminal)
       case _ => false
  }

  ghost predicate Effect(b: Book, c: Book) {
    || Closes(b, c)
    || (exists id :: Opens(b, c, id))
    || (exists i: nat, after, message :: Moves(b, c, i, after, message))
  }

  predicate IsData(a: Action) {
    a.NextSent? || a.EndSent?
  }

  function Nexts(i: nat, data: seq<Data>): seq<Action> {
    if data == [] then [] else Nexts(i, data[..|data| - 1]) + [NextSent(i, data[|data| - 1])]
  }

  /** `next* (complete | error)?` */
  function Block(i: nat, stream: Stream): seq<Action> {
    Nexts(i, stream.sent) + (if stream.terminal.Some? then [EndSent(i, stream.terminal.value)] else [])
  }

  predicate Over(phase: Phase) {
    phase == Answered || phase == Lingering || phase == Forgotten
  }

  /** What is sent is what was consumed while the socket was open; a terminal message ends its stream. */
  predicate StreamFits(open: bool, stream: Stream) {
    && stream.sent <= stream.consumed
    && (open ==> stream.sent == stream.consumed)
    && (open && Over(stream.phase) ==> stream.terminal.Some?)
    && (stream.terminal.Some? ==> Over(stream.phase) && stream.sent == stream.consumed)
    && (stream.phase == Subscribing || stream.phase == Answered ==> stream.consumed == [])
  }

  lemma NextMoves(s: Server, i: nat, data: Data) returns (after: Stream, message: Option<Action>)
    requires Enabled(s, Yields(i, data)) && StreamFits(s.open, s.streams[i])
    ensures Moves(BookOf(s), BookOf(Step(s, Yields(i, data))), i, after, message) && after.phase == Streaming
  {
    var t, before := Step(s, Yields(i, data)), s.streams[i];
    after := t.streams[i];
    message := if s.open then Some(NextSent(i, data)) else None;
    if s.open {
      assert after.sent == before.sent + [data] && after.sent[..|after.sent| - 1] == before.sent;
    }
  }

  lemma EndMoves(s: Server, i: nat, terminal: Terminal, phase: Phase) returns (after: Stream, message: Option<Action>)
    requires i < |s.streams| && !Over(s.streams[i].phase) && StreamFits(s.open, s.streams[i])
    requires phase == Lingering || (phase == Answered && s.streams[i].phase == Subscribing)
    ensures Moves(BookOf(s), BookOf(SetPhase(SendEnd(s, i, terminal), i, phase)), i, after, message) && after.phase == phase
  {
    after := SetPhase(SendEnd(s, i, terminal), i, phase).streams[i];
    message := if s.open then Some(EndSent(i, terminal)) else None;
  }

  lemma PhaseMoves(s: Server, i: nat, phase: Phase) returns (after: Stream)
    requires i < |s.streams| && StreamFits(s.open, s.streams[i])
    requires (s.streams[i].phase == Subscribing && phase == Streaming) || (s.streams[i].phase == Lingering && phase == Forgotten)
    ensures var t := if phase == Forgotten then s.(subscriptions := s.subscriptions - {s.streams[i].id}) else s;
            Moves(BookOf(s), BookOf(SetPhase(t, i, phase)), i, after, None) && after.phase == phase
  {
    after := s.streams[i].(phase := phase);
  }

  predicate MovesStream(e: Event) {
    e.SubscribeResolves? || e.Yields? || e.Ends? || e.LingerFires?
  }

  lemma StepMoves(s: Server, e: Event) returns (after: Stream, message: Option<Action>)
    requires Enabled(s, e) && StreamsFit(s.open, s.streams) && MovesStream(e)
    ensures Moves(BookOf(s), BookOf(Step(s, e)), e.stream, after, message)
    ensures after.phase == Forgotten ==> e.LingerFires?
  {
    match e
    case SubscribeResolves(i, isIterator) =>
      if isIterator {
        after := PhaseMoves(s, i, Streaming);
        message := None;
      } else {
        after, message := EndMoves(s, i, Error, Answered);
      }
    case Yields(i, data) => after, message := NextMoves(s, i, data);
    case Ends(i, terminal) => after, message := EndMoves(s, i, terminal, Lingering);
    case LingerFires(i) =>
      after := PhaseMoves(s, i, Forgotten);
      message := None;
  }

  lemma StepCloses(s: Server, e: Event)
    requires Enabled(s, e) && !MovesStream(e) && !e.HandlerContinues?
    ensures Closes(BookOf(s), BookOf(Step(s, e)))
  {
  }

  lemma HandleEffect(s: Server, handler: Handler)
    ensures Effect(BookOf(s), BookOf(Handle(s, handler)))
  {
    if s.initPayload.Resolved? && handler.HandleSubscribe? && handler.id !in s.subscriptions {
      assert Opens(BookOf(s), BookOf(Handle(s, handler)), handler.id);
    } else {
      assert Closes(BookOf(s), BookOf(Handle(s, handler)));
    }
  }

  lemma StepEffect(s: Server, e: Event)
    requires Enabled(s, e) && StreamsFit(s.open, s.streams)
    ensures Effect(BookOf(s), BookOf(Step(s, e)))
  {
    if e.HandlerContinues? {
      HandleEffect(s.(waiting := s.waiting[1..]), s.waiting[0]);
    } else if MovesStream(e) {
      var after, message := StepMoves(s, e);
    } else {
      StepCloses(s, e);
    }
  }

  // ----- entries of the subscriptions map -----

  predicate IsEntry(subscriptions: map<Id, nat>, streams: seq<Stream>, i: nat)
    requires i < |streams|
  {
    streams[i].id in subscriptions && subscriptions[streams[i].id] == i
  }

  /** An entry names the one stream of its id that is not forgotten. */
  ghost predicate EntriesMatch(subscriptions: map<Id, nat>, streams: seq<Stream>) {
    && (forall id | id in subscriptions :: subscriptions[id] < |streams| && streams[subscriptions[id]].id == id)
    && forall i | 0 <= i < |streams| :: streams[i].phase != Forgotten <==> IsEntry(subscriptions, streams, i)
  }

  ghost predicate StreamsFit(open: bool, streams: seq<Stream>) {
    forall i | 0 <= i < |streams| :: StreamFits(open, streams[i])
  }

  /** A stream that shares its id with a later one is forgotten, and the later one only sends after its terminal. */
  ghost predicate InTurn(open: bool, streams: seq<Stream>) {
    forall i, j | 0 <= i < j < |streams| && streams[i].id == streams[j].id ::
      && streams[i].phase == Forgotten
      && (streams[i].terminal.None? ==> !open && Block(j, streams[j]) == [])
  }

  ghost predicate Ordered(b: Book) {
    EntriesMatch(b.subscriptions, b.streams) && StreamsFit(b.open, b.streams) && InTurn(b.open, b.streams)
  }

  lemma OpensOrdered(b: Book, c: Book, id: Id)
    requires Ordered(b) && Opens(b, c, id)
    ensures Ordered(c)
  {
    forall i | 0 <= i < |c.streams| ensures c.streams[i].phase != Forgotten <==> IsEntry(c.subscriptions, c.streams, i) {
      if i < |b.streams| {
        assert b.streams[i].phase != Forgotten <==> IsEntry(b.subscriptions, b.streams, i);
      }
    }
    forall i | 0 <= i < |b.streams| && b.streams[i].id == id
      ensures b.streams[i].phase == Forgotten && (b.streams[i].terminal.None? ==> !b.open)
    {
      assert b.streams[i].phase != Forgotten <==> IsEntry(b.subscriptions, b.streams, i);
      assert StreamFits(b.open, b.streams[i]);
    }
  }

  lemma MovesOrdered(b: Book, c: Book, i: nat, after: Stream, message: Option<Action>)
    requires Ordered(b) && Moves(b, c, i, after, message)
    ensures Ordered(c)
  {
    assert IsEntry(b.subscriptions, b.streams, i);
    forall k | 0 <= k < |c.streams| ensures c.streams[k].phase != Forgotten <==> IsEntry(c.subscriptions, c.streams, k) {
      assert b.streams[k].phase != Forgotten <==> IsEntry(b.subscriptions, b.streams, k);
    }
    forall k, j | 0 <= k < j < |c.streams| && c.streams[k].id == c.streams[j].id
      ensures c.streams[k].phase == Forgotten && (c.streams[k].terminal.None? ==> !c.open && Block(j, c.streams[j]) == [])
    {
      assert b.streams[k].phase == Forgotten;
    }
  }

  lemma EffectOrdered(b: Book, c: Book)
    requires Ordered(b) && Effect(b, c)
    ensures Ordered(c)
  {
    if exists id :: Opens(b, c, id) {
      var id :| Opens(b, c, id);
      OpensOrdered(b, c, id);
    } else if exists i: nat, after, message :: Moves(b, c, i, after, message) {
      var i: nat, after, message :| Moves(b, c, i, after, message);
      MovesOrdered(b, c, i, after, message);
    }
  }

  /** Two streams that are not forgotten never share an id. */
  lemma LiveIdsDistinct(b: Book, i: nat, j: nat)
    requires Ordered(b) && i < |b.streams| && j < |b.streams| && b.streams[i].id == b.streams[j].id
    requires b.streams[i].phase != Forgotten && b.streams[j].phase != Forgotten
    ensures i == j
  {
    assert IsEntry(b.subscriptions, b.streams, i) && IsEntry(b.subscriptions, b.streams, j);
  }

  /** A linger timer deletes the entry of its own stream and no other. */
  lemma LingerDeletesOwnEntry(s: Server, i: nat)
    requires Ordered(BookOf(s)) && Enabled(s, LingerFires(i))
    ensures IsEntry(s.subscriptions, s.streams, i)
    ensures forall id :: id in Step(s, LingerFires(i)).subscriptions <==> id in s.subscriptions && s.subscriptions[id] != i
  {
    assert IsEntry(s.subscriptions, s.streams, i);
  }

  // ----- the messages of one id -----

  /** The messages sent for one id, of whichever stream. */
  function MessagesFor(log: seq<Action>, streams: seq<Stream>, id: Id): seq<Action> {
    if log == [] then []
    else
      var last := log[|log| - 1];
      MessagesFor(log[..|log| - 1], streams, id)
      + (if IsData(last) && last.stream < |streams| && streams[last.stream].id == id then [last] else [])
  }

  /** The blocks of the first `n` streams, those of one id, one after the other. */
  function Blocks(streams: seq<Stream>, id: Id, n: nat): seq<Action>
    requires n <= |streams|
  {
    if n == 0 then []
    else Blocks(streams, id, n - 1) + (if streams[n - 1].id == id then Block(n - 1, streams[n - 1]) else [])
  }

  ghost predicate LogFits(b: Book) {
    && (forall k | 0 <= k < |b.log| && IsData(b.log[k]) :: b.log[k].stream < |b.streams|)
    && forall id :: MessagesFor(b.log, b.streams, id) == Blocks(b.streams, id, |b.streams|)
  }

  lemma MessagesForExtends(log: seq<Action>, more: seq<Action>, streams: seq<Stream>, id: Id)
    requires NoData(log, more)
    ensures MessagesFor(more, streams, id) == MessagesFor(log, streams, id)
    decreases |more|
  {
    if |more| > |log| {
      MessagesForExtends(log, more[..|more| - 1], streams, id);
    } else {
      assert more == log;
    }
  }

  /** Messages depend on the streams' ids only. */
  lemma MessagesForSameIds(log: seq<Action>, streams: seq<Stream>, others: seq<Stream>, id: Id)
    requires |streams| <= |others| && forall i | 0 <= i < |streams| :: streams[i].id == others[i].id
    requires forall k | 0 <= k < |log| && IsData(log[k]) :: log[k].stream < |streams|
    ensures MessagesFor(log, others, id) == MessagesFor(log, streams, id)
  {
  }

  lemma BlocksSame(streams: seq<Stream>, others: seq<Stream>, id: Id, n: nat)
    requires n <= |streams| && n <= |others| && forall i | 0 <= i < n :: streams[i] == others[i]
    ensures Blocks(streams, id, n) == Blocks(others, id, n)
  {
  }

  /** The message of a live stream goes to the end of its id's messages: nothing later shares the id. */
  lemma BlocksMove(streams: seq<Stream>, i: nat, after: Stream, message: seq<Action>, id: Id, n: nat)
    requires i < n <= |streams| && after.id == streams[i].id
    requires forall j | i < j < |streams| :: streams[j].id != streams[i].id
    requires Block(i, after) == Block(i, streams[i]) + message
    ensures Blocks(streams[i := after], id, n) == Blocks(streams, id, n) + (if streams[i].id == id then message else [])
  {
    if n == i + 1 {
      BlocksSame(streams, streams[i := after], id, i);
    } else {
      BlocksMove(streams, i, after, message, id, n - 1);
    }
  }

  lemma MovesLogFits(b: Book, c: Book, i: nat, after: Stream, message: Option<Action>)
    requires Ordered(b) && LogFits(b) && Moves(b, c, i, after, message)
    ensures LogFits(c)
  {
    forall id ensures MessagesFor(c.log, c.streams, id) == Blocks(c.streams, id, |c.streams|) {
      forall j | i < j < |b.streams| ensures b.streams[j].id != b.streams[i].id {
      }
      BlocksMove(b.streams, i, after, if message.Some? then [message.value] else [], id, |b.streams|);
      MessagesForSameIds(b.log, b.streams, c.streams, id);
      if message.Some? {
        assert c.log[..|c.log| - 1] == b.log;
      }
    }
  }

  lemma OpensLogFits(b: Book, c: Book, id: Id)
    requires LogFits(b) && Opens(b, c, id)
    ensures LogFits(c)
  {
    forall other ensures MessagesFor(c.log, c.streams, other) == Blocks(c.streams, other, |c.streams|) {
      BlocksSame(b.streams, c.streams, other, |b.streams|);
      MessagesForExtends(b.log, c.log, c.streams, other);
      MessagesForSameIds(b.log, b.streams, c.streams, other);
      assert Block(|b.streams|, c.streams[|b.streams|]) == [];
    }
  }

  lemma EffectLogFits(b: Book, c: Book)
    requires Ordered(b) && LogFits(b) && Effect(b, c)
    ensures LogFits(c)
  {
    if exists id :: Opens(b, c, id) {
      var id :| Opens(b, c, id);
      OpensLogFits(b, c, id);
    } else if exists i: nat, after, message :: Moves(b, c, i, after, message) {
      var i: nat, after, message :| Moves(b, c, i, after, message);
      MovesLogFits(b, c, i, after, message);
    } else {
      forall id ensures MessagesFor(c.log, c.streams, id) == Blocks(c.streams, id, |c.streams|) {
        MessagesForExtends(b.log, c.log, c.streams, id);
      }
    }
  }

  /**
    In every run, what the server sent for an id is the concatenation of its streams' blocks, each
    `next* (complete | error)?`, and a stream only sends after the terminal message of every earlier one of its id.
   */
  lemma {:induction false} MessageGrammar(legacy: bool, events: seq<Event>)
    requires Run(legacy, events).Some?
    ensures Ordered(BookOf(Run(legacy, events).value)) && LogFits(BookOf(Run(legacy, events).value))
  {
    if events != [] {
      var init := events[..|events| - 1];
      MessageGrammar(legacy, init);
      var s := Run(legacy, init).value;
      StepEffect(s, events[|events| - 1]);
      EffectOrdered(BookOf(s), BookOf(Run(legacy, events).value));
      EffectLogFits(BookOf(s), BookOf(Run(legacy, events).value));
    }
  }

  // ----- acknowledgement -----

  function Count(log: seq<Action>, ack: bool): nat {
    if log == [] then 0
    else
      var last := log[|log| - 1];
      Count(log[..|log| - 1], ack) + (if (if ack then last.AckSent? else last.AcknowledgeCalled?) then 1 else 0)
  }

  /** Subscribing only after a successful acknowledgement, with its payload; data only after the ack went out. */
  ghost predicate AckFirst(log: seq<Action>) {
    && (forall i | 0 <= i < |log| && log[i].SubscribeCalled? :: AcknowledgeSucceeded(log[i].payload) in log[..i])
    && (forall i | 0 <= i < |log| && log[i].AcknowledgeSucceeded? :: AcknowledgeCalled(log[i].payload) in log[..i])
    && (forall i | 0 <= i < |log| && IsData(log[i]) :: AckSent in log[..i])
  }

  /** The part of the state that acknowledgement is about. */
  datatype AckBook = AckBook(
    open: bool, initialized: bool, acknowledging: Option<Payload>, acknowledged: bool, initPayload: Deferred,
    subscribed: bool, log: seq<Action>)

  function AckBookOf(s: Server): AckBook {
    AckBook(s.open, s.initialized, s.acknowledging, s.acknowledged, s.initPayload, s.streams != [], s.log)
  }

  ghost predicate AckSafe(b: AckBook) {
    && AckFirst(b.log)
    && Count(b.log, false) == (if b.initialized then 1 else 0)
    && Count(b.log, true) <= (if b.acknowledged then 1 else 0)
    && (b.acknowledging.Some? ==> b.initialized && !b.acknowledged && AcknowledgeCalled(b.acknowledging.value) in b.log)
    && (b.acknowledged ==> b.initialized && (b.open ==> AckSent in b.log))
    && (b.initPayload.Resolved? ==> b.acknowledged && AcknowledgeSucceeded(b.initPayload.payload) in b.log)
    && (b.subscribed ==> b.acknowledged)
  }

  lemma AckFirstOneMore(log: seq<Action>, a: Action)
    requires AckFirst(log)
    requires a.SubscribeCalled? ==> AcknowledgeSucceeded(a.payload) in log
    requires a.AcknowledgeSucceeded? ==> AcknowledgeCalled(a.payload) in log
    requires IsData(a) ==> AckSent in log
    ensures AckFirst(log + [a])
    ensures Count(log + [a], false) == Count(log, false) + if a.AcknowledgeCalled? then 1 else 0
    ensures Count(log + [a], true) == Count(log, true) + if a.AckSent? then 1 else 0
  {
    var more := log + [a];
    assert more[..|log|] == log;
    forall i | 0 <= i < |log| ensures more[..i] == log[..i] {
    }
  }

  /** Steps that log nothing: the socket may close, the promise may be rejected. */
  lemma AckQuiet(b: AckBook, c: AckBook)
    requires AckSafe(b) && c.log == b.log && c.initialized == b.initialized && c.acknowledged == b.acknowledged
    requires (c.open ==> b.open) && (c.acknowledging == b.acknowledging || c.acknowledging.None?)
    requires (c.initPayload == b.initPayload || c.initPayload.Rejected?) && (c.subscribed ==> b.subscribed)
    ensures AckSafe(c)
  {
  }

  /** Steps that send a message of a stream, or subscribe. */
  lemma AckLogs(b: AckBook, c: AckBook, a: Action)
    requires AckSafe(b) && c == b.(log := b.log + [a], subscribed := c.subscribed)
    requires (IsData(a) && b.open && b.subscribed) || (a.SubscribeCalled? && b.initPayload == Resolved(a.payload))
    ensures AckSafe(c)
  {
    AckFirstOneMore(b.log, a);
  }

  lemma AckSendEnd(s: Server, i: nat, terminal: Terminal, phase: Phase)
    requires i < |s.streams| && AckSafe(AckBookOf(s))
    ensures AckSafe(AckBookOf(SetPhase(SendEnd(s, i, terminal), i, phase)))
  {
    var t := SetPhase(SendEnd(s, i, terminal), i, phase);
    if s.open {
      AckLogs(AckBookOf(s), AckBookOf(t), EndSent(i, terminal));
    } else {
      AckQuiet(AckBookOf(s), AckBookOf(t));
    }
  }

  lemma AckSendNext(s: Server, i: nat, data: Data)
    requires Enabled(s, Yields(i, data)) && AckSafe(AckBookOf(s))
    ensures AckSafe(AckBookOf(Step(s, Yields(i, data))))
  {
    if s.open {
      AckLogs(AckBookOf(s), AckBookOf(Step(s, Yields(i, data))), NextSent(i, data));
    } else {
      AckQuiet(AckBookOf(s), AckBookOf(Step(s, Yields(i, data))));
    }
  }

  lemma AckHandle(s: Server, handler: Handler)
    requires AckSafe(AckBookOf(s))
    ensures AckSafe(AckBookOf(Handle(s, handler)))
  {
    var t := Handle(s, handler);
    if s.initPayload.Resolved? && handler.HandleSubscribe? && handler.id !in s.subscriptions {
      AckLogs(AckBookOf(s), AckBookOf(t), SubscribeCalled(|s.streams|, s.initPayload.payload));
    } else {
      AckQuiet(AckBookOf(s), AckBookOf(t));
    }
  }

  lemma AckInit(b: AckBook, payload: Payload)
    requires AckSafe(b) && !b.initialized
    ensures AckSafe(b.(initialized := true, acknowledging := Some(payload), log := b.log + [AcknowledgeCalled(payload)]))
  {
    AckFirstOneMore(b.log, AcknowledgeCalled(payload));
  }

  lemma AckSuccess(b: AckBook)
    requires AckSafe(b) && b.acknowledging.Some?
    ensures var payload := b.acknowledging.value;
            var log := b.log + [AcknowledgeSucceeded(payload)];
            AckSafe(b.(log := if b.open then log + [AckSent] else log,
                       initPayload := Settle(b.initPayload, Resolved(payload)), acknowledged := true, acknowledging := None))
  {
    var log := b.log + [AcknowledgeSucceeded(b.acknowledging.value)];
    AckFirstOneMore(b.log, AcknowledgeSucceeded(b.acknowledging.value));
    AckFirstOneMore(log, AckSent);
  }

  lemma StepAckSafe(s: Server, e: Event)
    requires AckSafe(AckBookOf(s)) && Enabled(s, e)
    ensures AckSafe(AckBookOf(Step(s, e)))
  {
    var b, c := AckBookOf(s), AckBookOf(Step(s, e));
    match e
    case Receives(ConnectionInit(payload)) =>
      if s.initialized {
        AckQuiet(b, c);
      } else {
        AckInit(b, payload);
      }
    case AcknowledgeResolves => AckSuccess(b);
    case HandlerContinues => AckHandle(s.(waiting := s.waiting[1..]), s.waiting[0]);
    case SubscribeResolves(i, isIterator) =>
      if isIterator {
        AckQuiet(b, c);
      } else {
        AckSendEnd(s, i, Error, Answered);
      }
    case Yields(i, data) => AckSendNext(s, i, data);
    case Ends(i, terminal) => AckSendEnd(s, i, terminal, Lingering);
    case _ => AckQuiet(b, c);
  }

  /** Both sub-protocols, every run, whatever the client sends. */
  lemma {:induction false} AcknowledgementSafety(legacy: bool, events: seq<Event>)
    requires Run(legacy, events).Some?
    ensures AckSafe(AckBookOf(Run(legacy, events).value))
  {
    if events != [] {
      AcknowledgementSafety(legacy, events[..|events| - 1]);
      StepAckSafe(Run(legacy, events[..|events| - 1]).value, events[|events| - 1]);
    }
  }

  // ----- both invariants -----

  /** What every run keeps: the bookkeeping of streams, the messages sent for them, and acknowledgement. */
  ghost predicate Good(s: Server) {
    Ordered(BookOf(s)) && LogFits(BookOf(s)) && AckSafe(AckBookOf(s))
  }

  lemma InitialGood(legacy: bool)
    ensures Good(Initial(legacy))
  {
  }

  lemma StepGood(s: Server, e: Event)
    requires Good(s) && Enabled(s, e)
    ensures Good(Step(s, e))
  {
    StepEffect(s, e);
    EffectOrdered(BookOf(s), BookOf(Step(s, e)));
    EffectLogFits(BookOf(s), BookOf(Step(s, e)));
    StepAckSafe(s, e);
  }

  lemma HandleGood(s: Server, handler: Handler)
    requires Good(s)
    ensures Good(Handle(s, handler))
  {
    HandleEffect(s, handler);
    EffectOrdered(BookOf(s), BookOf(Handle(s, handler)));
    EffectLogFits(BookOf(s), BookOf(Handle(s, handler)));
    AckHandle(s, handler);
  }

  lemma CloseGood(s: Server, code: int)
    requires Good(s)
    ensures Good(CloseWith(s, code))
  {
    assert Closes(BookOf(s), BookOf(CloseWith(s, code)));
    EffectOrdered(BookOf(s), BookOf(CloseWith(s, code)));
    EffectLogFits(BookOf(s), BookOf(CloseWith(s, code)));
    AckQuiet(AckBookOf(s), AckBookOf(CloseWith(s, code)));
  }
}
