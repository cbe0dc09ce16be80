/** What a server socket's state says of the events so far: when a stream was returned, what it sent, why the socket was closed. */
module ServerHistories {
  import opened GraphQLAst
  import opened ServerSockets

  datatype Occasion =
    | Returning(stream: nat)
    | Ending(stream: nat, terminal: Terminal)
    | Acking
    | Closing(code: int)

  /** What happens at an event. */
  predicate Occurs(o: Occasion, s: Server, e: Event) {
    match o
    case Returning(i) =>
      && i < |s.streams| && IsEntry(s.subscriptions, s.streams, i)
      && (e.SocketEnds? ||
          (e.HandlerContinues? && s.initPayload.Resolved? && s.waiting != [] && s.waiting[0] == HandleComplete(s.streams[i].id)))
    case Ending(i, terminal) => s.open && (e == Ends(i, terminal) || (e == SubscribeResolves(i, false) && terminal == Error))
    case Acking => s.open && e.AcknowledgeResolves?
    case Closing(code) => s.open && Closes(s, e, code)
  }

  /** The close codes of the protocol. */
  predicate Closes(s: Server, e: Event, code: int) {
    match e
    case Receives(Invalid) => code == 4400
    case Receives(ConnectionInit(_)) => s.initialized && code == 4429
    case Receives(_) => !s.legacy && !s.acknowledged && code == 4401
    case AcknowledgeRejects => code == 4401
    case InitTimesOut => code == 4408
    case HandlerContinues =>
      s.waiting != [] &&
      if s.initPayload.Rejected? then code == s.initPayload.code
      else s.initPayload.Resolved? && code == 4409 && (s.waiting[0].HandleSubscribe? <==> s.waiting[0].id in s.subscriptions)
    case _ => false
  }

  ghost predicate Sometime(legacy: bool, events: seq<Event>, o: Occasion)
    requires Run(legacy, events).Some?
  {
    events != [] &&
    (Sometime(legacy, events[..|events| - 1], o) || Occurs(o, Run(legacy, events[..|events| - 1]).value, events[|events| - 1]))
  }

  lemma {:induction false} RunOrdered(legacy: bool, events: seq<Event>)
    requires Run(legacy, events).Some?
    ensures Ordered(BookOf(Run(legacy, events).value))
  {
    if events != [] {
      RunOrdered(legacy, events[..|events| - 1]);
      var s, e := Run(legacy, events[..|events| - 1]).value, events[|events| - 1];
      StepEffect(s, e);
      EffectOrdered(BookOf(s), BookOf(Step(s, e)));
    }
  }

  // ----- one stream at a time -----

  /** The stream that an event moves, after it. */
  function Moved(s: Server, e: Event): Stream
    requires Enabled(s, e) && MovesStream(e)
  {
    var stream := s.streams[e.stream];
    match e
    case SubscribeResolves(_, isIterator) =>
      if isIterator then stream.(phase := Streaming)
      else stream.(phase := Answered, terminal := if s.open then Some(Error) else stream.terminal)
    case Yields(_, data) => stream.(consumed := stream.consumed + [data], sent := if s.open then stream.sent + [data] else stream.sent)
    case Ends(_, terminal) => stream.(phase := Lingering, terminal := if s.open then Some(terminal) else stream.terminal)
    case LingerFires(_) => stream.(phase := Forgotten)
  }

  lemma OnlyMoved(s: Server, e: Event)
    requires Enabled(s, e) && MovesStream(e)
    ensures Step(s, e).streams == s.streams[e.stream := Moved(s, e)]
  {
    match e
    case Yields(i, data) =>
      var after := s.streams[i := s.streams[i].(consumed := s.streams[i].consumed + [data])];
      assert after[i := Moved(s, e)] == s.streams[i := Moved(s, e)];
    case _ =>
  }

  /** A step that moves no stream leaves all of them as they are; at most it adds one that has not begun. */
  lemma QuietStreams(s: Server, e: Event)
    requires Enabled(s, e) && !MovesStream(e)
    ensures var t := Step(s, e);
            t.streams == s.streams || (t.streams[..|s.streams|] == s.streams && |t.streams| == |s.streams| + 1 &&
                                       t.streams[|s.streams|].consumed == [] && t.streams[|s.streams|].terminal.None?)
    ensures !e.HandlerContinues? ==> Step(s, e).streams == s.streams
  {
    if !e.HandlerContinues? {
      StepCloses(s, e);
    }
  }

  // ----- returned streams -----

  lemma StepReturns(s: Server, e: Event, i: nat)
    requires Enabled(s, e) && EntriesMatch(s.subscriptions, s.streams)
    ensures i in Step(s, e).returned <==> i in s.returned || Occurs(Returning(i), s, e)
  {
    if e.SocketEnds? {
      assert i in Step(s, e).returned <==> i in s.returned || exists id :: id in s.subscriptions && s.subscriptions[id] == i;
      if i < |s.streams| && IsEntry(s.subscriptions, s.streams, i) {
        assert s.streams[i].id in s.subscriptions;
      }
    }
  }

  /** A stream has been returned exactly if its client's `complete` was handled, or its socket ended, while it was the entry of its id. */
  lemma {:induction false} ReturnedIff(legacy: bool, events: seq<Event>, i: nat)
    requires Run(legacy, events).Some?
    ensures i in Run(legacy, events).value.returned <==> Sometime(legacy, events, Returning(i))
  {
    if events != [] {
      var init := events[..|events| - 1];
      ReturnedIff(legacy, init, i);
      RunOrdered(legacy, init);
      StepReturns(Run(legacy, init).value, events[|events| - 1], i);
    }
  }

  // ----- what a stream consumed and how it ended -----

  /** The values that the loop over stream `i` took. */
  function Yielded(events: seq<Event>, i: nat): seq<Data> {
    if events == [] then []
    else
      var last := events[|events| - 1];
      Yielded(events[..|events| - 1], i) + (if last.Yields? && last.stream == i then [last.data] else [])
  }

  function ConsumedOf(s: Server, i: nat): seq<Data> {
    if i < |s.streams| then s.streams[i].consumed else []
  }

  lemma StepConsumes(s: Server, e: Event, i: nat)
    requires Enabled(s, e)
    ensures ConsumedOf(Step(s, e), i) == ConsumedOf(s, i) + (if e.Yields? && e.stream == i then [e.data] else [])
  {
    if MovesStream(e) {
      OnlyMoved(s, e);
    } else {
      QuietStreams(s, e);
    }
  }


  lemma {:induction false} ConsumedIsYielded(legacy: bool, events: seq<Event>, i: nat)
    requires Run(legacy, events).Some?
    ensures ConsumedOf(Run(legacy, events).value, i) == Yielded(events, i)
  {
    if events != [] {
      ConsumedIsYielded(legacy, events[..|events| - 1], i);
      StepConsumes(Run(legacy, events[..|events| - 1]).value, events[|events| - 1], i);
    }
  }

  predicate HasEnded(s: Server, i: nat, terminal: Terminal) {
    i < |s.streams| && s.streams[i].terminal == Some(terminal)
  }

  lemma StepTerminal(s: Server, e: Event, i: nat, terminal: Terminal)
    requires Enabled(s, e) && StreamsFit(s.open, s.streams)
    ensures HasEnded(Step(s, e), i, terminal) <==> HasEnded(s, i, terminal) || Occurs(Ending(i, terminal), s, e)
  {
    if MovesStream(e) {
      assert StreamFits(s.open, s.streams[e.stream]);
      OnlyMoved(s, e);
    } else {
      QuietStreams(s, e);
    }
  }

  /** The terminal message is the one the loop ended with; a result that is no stream ends with an error. */
  lemma {:induction false} TerminalIff(legacy: bool, events: seq<Event>, i: nat, terminal: Terminal)
    requires Run(legacy, events).Some?
    ensures HasEnded(Run(legacy, events).value, i, terminal) <==> Sometime(legacy, events, Ending(i, terminal))
  {
    if events != [] {
      var init := events[..|events| - 1];
      TerminalIff(legacy, init, i, terminal);
      RunOrdered(legacy, init);
      StepTerminal(Run(legacy, init).value, events[|events| - 1], i, terminal);
    }
  }

  // ----- acknowledgement and handlers -----

  lemma StepAcks(s: Server, e: Event)
    requires Enabled(s, e)
    ensures AckSent in Step(s, e).log <==> AckSent in s.log || Occurs(Acking, s, e)
  {
    if MovesStream(e) {
      MovedLogs(s, e);
    }
  }

  lemma MovedLogs(s: Server, e: Event)
    requires Enabled(s, e) && MovesStream(e)
    ensures Step(s, e).log == s.log || exists a :: Step(s, e).log == s.log + [a] && IsData(a)
  {
    match e
    case SubscribeResolves(i, _) => assert Step(s, e).log == s.log || Step(s, e).log == s.log + [EndSent(i, Error)];
    case Yields(i, data) => assert Step(s, e).log == s.log || Step(s, e).log == s.log + [NextSent(i, data)];
    case Ends(i, terminal) => assert Step(s, e).log == s.log || Step(s, e).log == s.log + [EndSent(i, terminal)];
    case LingerFires(_) =>
  }

  /** The acknowledgement is sent exactly if `acknowledge` succeeded while the socket was open. */
  lemma {:induction false} AckSentIff(legacy: bool, events: seq<Event>)
    requires Run(legacy, events).Some?
    ensures AckSent in Run(legacy, events).value.log <==> Sometime(legacy, events, Acking)
  {
    if events != [] {
      AckSentIff(legacy, events[..|events| - 1]);
      StepAcks(Run(legacy, events[..|events| - 1]).value, events[|events| - 1]);
    }
  }

  function FirstInit(events: seq<Event>): Option<Payload> {
    if events == [] then None
    else if FirstInit(events[..|events| - 1]).Some? then FirstInit(events[..|events| - 1])
    else match events[|events| - 1] case Receives(ConnectionInit(payload)) => Some(payload) case _ => None
  }

  /** The payload promise: the first of success, failure and the end of the socket settles it. */
  function PromiseOf(events: seq<Event>): Deferred {
    if events == [] then Unsettled
    else if PromiseOf(events[..|events| - 1]) != Unsettled then PromiseOf(events[..|events| - 1])
    else
      match events[|events| - 1]
      case AcknowledgeResolves => if FirstInit(events).Some? then Resolved(FirstInit(events).value) else Unsettled
      case AcknowledgeRejects => Rejected(4401)
      case SocketEnds(code) => Rejected(code)
      case _ => Unsettled
  }

  lemma StepPromise(s: Server, e: Event, first: Option<Payload>)
    requires Enabled(s, e) && (s.initialized <==> first.Some?) && (s.acknowledging.Some? ==> s.acknowledging == first)
    ensures var t := Step(s, e);
            && (t.initialized <==> s.initialized || (e.Receives? && e.message.ConnectionInit?))
            && (t.acknowledging.Some? ==>
                  t.acknowledging == if first.Some? then first else if e.Receives? && e.message.ConnectionInit? then Some(e.message.payload) else None)
            && t.initPayload ==
               (if s.initPayload != Unsettled then s.initPayload
                else match e
                     case AcknowledgeResolves => Resolved(first.value)
                     case AcknowledgeRejects => Rejected(4401)
                     case SocketEnds(code) => Rejected(code)
                     case _ => Unsettled)
            && (t.acknowledged <==> s.acknowledged || e.AcknowledgeResolves?)
  {
    if MovesStream(e) {
      MovedKeepsRest(s, e);
    }
  }

  lemma MovedKeepsRest(s: Server, e: Event)
    requires Enabled(s, e) && MovesStream(e)
    ensures var t := Step(s, e);
            && t.initialized == s.initialized && t.acknowledging == s.acknowledging && t.initPayload == s.initPayload
            && t.acknowledged == s.acknowledged
  {
  }

  lemma {:induction false} PromiseIs(legacy: bool, events: seq<Event>)
    requires Run(legacy, events).Some?
    ensures var s := Run(legacy, events).value;
            && s.initPayload == PromiseOf(events) && (s.initialized <==> FirstInit(events).Some?)
            && (s.acknowledging.Some? ==> s.acknowledging == FirstInit(events))
  {
    if events != [] {
      PromiseIs(legacy, events[..|events| - 1]);
      StepPromise(Run(legacy, events[..|events| - 1]).value, events[|events| - 1], FirstInit(events[..|events| - 1]));
    }
  }

  /** The messages that wait for the acknowledgement, or have it: all on the legacy protocol, and none before it on the new one. */
  ghost function LetIn(legacy: bool, events: seq<Event>): seq<Handler>
    requires Run(legacy, events).Some?
  {
    if events == [] then []
    else
      var s := Run(legacy, events[..|events| - 1]).value;
      LetIn(legacy, events[..|events| - 1]) +
      (match events[|events| - 1]
       case Receives(Subscribe(id)) => if legacy || s.acknowledged then [HandleSubscribe(id)] else []
       case Receives(ClientComplete(id)) => if legacy || s.acknowledged then [HandleComplete(id)] else []
       case _ => [])
  }

  function Handled(events: seq<Event>): nat {
    if events == [] then 0
    else Handled(events[..|events| - 1]) + (if events[|events| - 1].HandlerContinues? then 1 else 0)
  }

  /** They are handled in the order in which they came, and none is lost. */
  lemma {:induction false} HandledInOrder(legacy: bool, events: seq<Event>)
    requires Run(legacy, events).Some?
    ensures Run(legacy, events).value.legacy == legacy
    ensures Handled(events) <= |LetIn(legacy, events)| && Run(legacy, events).value.waiting == LetIn(legacy, events)[Handled(events)..]
  {
    if events != [] {
      var init := events[..|events| - 1];
      HandledInOrder(legacy, init);
      StepWaits(Run(legacy, init).value, events[|events| - 1]);
      Dequeues(LetIn(legacy, init), Handled(init), LetIn(legacy, events)[|LetIn(legacy, init)|..]);
    }
  }

  lemma Dequeues(all: seq<Handler>, n: nat, more: seq<Handler>)
    requires n <= |all|
    ensures (all + more)[n..] == all[n..] + more && all + [] == all
    ensures n < |all| ==> all[n..][1..] == all[n + 1..]
  {
  }

  lemma StepWaits(s: Server, e: Event)
    requires Enabled(s, e)
    ensures Step(s, e).legacy == s.legacy
    ensures Step(s, e).waiting ==
            (match e
             case Receives(Subscribe(id)) => if s.legacy || s.acknowledged then s.waiting + [HandleSubscribe(id)] else s.waiting
             case Receives(ClientComplete(id)) => if s.legacy || s.acknowledged then s.waiting + [HandleComplete(id)] else s.waiting
             case HandlerContinues => s.waiting[1..]
             case _ => s.waiting)
  {
  }

  // ----- why the socket was closed -----

  lemma StepCloseCode(s: Server, e: Event, code: int)
    requires Enabled(s, e) && (s.closedWith.Some? ==> !s.open)
    ensures Step(s, e).closedWith == Some(code) <==> s.closedWith == Some(code) || Occurs(Closing(code), s, e)
    ensures Step(s, e).closedWith.Some? ==> !Step(s, e).open
  {
    if e.HandlerContinues? {
      HandlerCloseCode(s, code);
    } else if MovesStream(e) {
      MovedKeepsOpen(s, e);
    }
  }

  lemma HandlerCloseCode(s: Server, code: int)
    requires Enabled(s, HandlerContinues) && (s.closedWith.Some? ==> !s.open)
    ensures var t := Step(s, HandlerContinues);
            && (t.closedWith == Some(code) <==> s.closedWith == Some(code) || Occurs(Closing(code), s, HandlerContinues))
            && (t.closedWith.Some? ==> !t.open)
  {
  }

  lemma MovedKeepsOpen(s: Server, e: Event)
    requires Enabled(s, e) && MovesStream(e)
    ensures Step(s, e).open == s.open && Step(s, e).closedWith == s.closedWith
  {
  }

  /** The server closes with a code exactly if the protocol asks for that code while the socket is open. */
  lemma {:induction false} ClosedWithIff(legacy: bool, events: seq<Event>, code: int)
    requires Run(legacy, events).Some?
    ensures Run(legacy, events).value.closedWith == Some(code) <==> Sometime(legacy, events, Closing(code))
    ensures Run(legacy, events).value.closedWith.Some? ==> !Run(legacy, events).value.open
  {
    if events != [] {
      ClosedWithIff(legacy, events[..|events| - 1], code);
      StepCloseCode(Run(legacy, events[..|events| - 1]).value, events[|events| - 1], code);
    }
  }

  // ----- the streams there are -----

  /** The ids of the `subscribe` messages that were accepted. */
  ghost function Accepted(legacy: bool, events: seq<Event>): seq<Id>
    requires Run(legacy, events).Some?
  {
    if events == [] then []
    else
      var s := Run(legacy, events[..|events| - 1]).value;
      Accepted(legacy, events[..|events| - 1]) +
      (if events[|events| - 1].HandlerContinues? && s.initPayload.Resolved? && s.waiting[0].HandleSubscribe? && s.waiting[0].id !in s.subscriptions
       then [s.waiting[0].id] else [])
  }

  function IdsOf(streams: seq<Stream>): seq<Id> {
    seq(|streams|, i requires 0 <= i < |streams| => streams[i].id)
  }

  lemma StepOpens(s: Server, e: Event)
    requires Enabled(s, e)
    ensures IdsOf(Step(s, e).streams) == IdsOf(s.streams) +
            (if e.HandlerContinues? && s.initPayload.Resolved? && s.waiting[0].HandleSubscribe? && s.waiting[0].id !in s.subscriptions
             then [s.waiting[0].id] else [])
  {
    if e.HandlerContinues? {
      HandlerOpens(s);
    } else if MovesStream(e) {
      OnlyMoved(s, e);
    } else {
      QuietStreams(s, e);
    }
  }

  lemma HandlerOpens(s: Server)
    requires Enabled(s, HandlerContinues)
    ensures IdsOf(Step(s, HandlerContinues).streams) == IdsOf(s.streams) +
            (if s.initPayload.Resolved? && s.waiting[0].HandleSubscribe? && s.waiting[0].id !in s.subscriptions then [s.waiting[0].id] else [])
  {
  }

  /** Every accepted `subscribe` has its stream, and there are no others. */
  lemma {:induction false} StreamsAreAccepted(legacy: bool, events: seq<Event>)
    requires Run(legacy, events).Some?
    ensures IdsOf(Run(legacy, events).value.streams) == Accepted(legacy, events)
  {
    if events != [] {
      StreamsAreAccepted(legacy, events[..|events| - 1]);
      StepOpens(Run(legacy, events[..|events| - 1]).value, events[|events| - 1]);
    }
  }
}
