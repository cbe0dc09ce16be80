/** What holds of every run of a client/server pair, and that it never closes with 4409 if linger timers are patient. */
module PairRuns {
  import opened GraphQLAst
  import opened ServerSockets
  import Iterators = PushIterators
  import opened ClientIterators
  import opened SocketPairs
  import opened SubscriptionViews
  import opened PairSafety

  lemma InitialFits(legacy: bool)
    ensures PairFits(InitialPair(legacy))
  {
  }

  lemma StepFits(p: Pair, e: PairEvent)
    requires PairFits(p) && PairEnabled(p, e)
    ensures PairFits(PairStep(p, e))
    ensures Patient(p, e) ==> AllKeep(p, PairStep(p, e))
  {
    match e
    case ClientInit(payload) => AfterInit(p, payload);
    case Subscribes(_) => AfterUnregistered(p, e);
    case DrivesUnregistered(_, _) => AfterUnregistered(p, e);
    case SetupFails(_) => AfterUnregistered(p, e);
    case Registers(h) => AfterRegisters(p, h);
    case Drives(id, event) => AfterDrives(p, id, event);
    case ClientReceives => AfterClientReceives(p);
    case ClientLingerFires(id) => AfterClientLinger(p, id);
    case ClientCloses(code) => AfterClientCloses(p, code);
    case ClientSocketEnds(code) => AfterClientEnds(p, code);
    case ServerReceives => AfterServerReceives(p);
    case ServerSteps(step) =>
      if step.HandlerContinues? {
        AfterHandler(p);
      } else if MovesStream(step) {
        AfterStreamMoves(p, step);
      } else {
        AfterServerSteps(p, step);
      }
  }

  lemma {:induction false} FromFits(p: Pair, events: seq<PairEvent>)
    requires PairFits(p) && FromPair(p, events).Some?
    ensures PairFits(FromPair(p, events).value)
  {
    if events != [] {
      FromFits(p, events[..|events| - 1]);
      StepFits(FromPair(p, events[..|events| - 1]).value, events[|events| - 1]);
    }
  }

  lemma RunFits(legacy: bool, events: seq<PairEvent>)
    requires RunPair(legacy, events).Some?
    ensures PairFits(RunPair(legacy, events).value)
  {
    InitialFits(legacy);
    FromFits(InitialPair(legacy), events);
  }

  // ----- patient linger timers -----

  predicate Closed4409(p: Pair) {
    p.client.closedWith == Some(4409) || p.server.closedWith == Some(4409)
  }

  ghost predicate AllInTime(p: Pair) {
    forall id :: InTime(ViewOf(p, id))
  }

  lemma ClientCloses4409(p: Pair)
    requires PairFits(p) && PairEnabled(p, ClientReceives) && PairStep(p, ClientReceives).client.closedWith != p.client.closedWith
    ensures !p.s2c[0].ConnectionAck? && p.s2c[0].id !in p.client.subscriptions && !InTime(ViewOf(p, p.s2c[0].id))
  {
    if !p.s2c[0].ConnectionAck? {
      var k := p.s2c[0].id;
      assert Fits(ViewOf(p, k), k);
      if k in p.client.subscriptions {
        ReceiveRest(p, k);
      }
      assert ViewOf(p, k).mail == [p.s2c[0]] + MailOf(p.s2c[1..], k);
    }
  }

  lemma ServerCloses4409(p: Pair)
    requires PairFits(p) && PairEnabled(p, ServerSteps(HandlerContinues))
    requires PairStep(p, ServerSteps(HandlerContinues)).server.closedWith != p.server.closedWith
    ensures !InTime(ViewOf(p, p.server.waiting[0].id))
  {
    assert Fits(ViewOf(p, p.server.waiting[0].id), p.server.waiting[0].id);
    HandlerEntry(p);
  }

  lemma OtherCodes(p: Pair, e: PairEvent)
    requires PairFits(p) && PairEnabled(p, e) && !e.ClientReceives? && e != ServerSteps(HandlerContinues)
    ensures Closed4409(PairStep(p, e)) ==> Closed4409(p)
  {
    match e
    case ServerReceives => assert p.c2s[0] in p.c2s;
    case ServerSteps(step) =>
      if MovesStream(step) {
        MovesKeepsQueue(p.server, step);
      }
    case _ =>
  }

  lemma InTimeStep(p: Pair, e: PairEvent)
    requires PairFits(p) && AllInTime(p) && PairEnabled(p, e) && Patient(p, e)
    ensures PairFits(PairStep(p, e)) && AllInTime(PairStep(p, e))
    ensures Closed4409(PairStep(p, e)) ==> Closed4409(p)
  {
    StepFits(p, e);
    forall id ensures InTime(ViewOf(PairStep(p, e), id)) {
      assert Keeps(ViewOf(p, id), ViewOf(PairStep(p, e), id), id);
      assert InTime(ViewOf(p, id));
    }
    if e.ClientReceives? {
      if PairStep(p, e).client.closedWith != p.client.closedWith {
        ClientCloses4409(p);
      }
    } else if e == ServerSteps(HandlerContinues) {
      if PairStep(p, e).server.closedWith != p.server.closedWith {
        ServerCloses4409(p);
      }
    } else {
      OtherCodes(p, e);
    }
  }

  lemma {:induction false} InTimeFrom(p: Pair, events: seq<PairEvent>)
    requires PairFits(p) && AllInTime(p) && FromPair(p, events).Some? && AllPatient(p, events)
    ensures PairFits(FromPair(p, events).value) && AllInTime(FromPair(p, events).value)
    ensures Closed4409(FromPair(p, events).value) ==> Closed4409(p)
  {
    if events != [] {
      InTimeFrom(p, events[..|events| - 1]);
      InTimeStep(FromPair(p, events[..|events| - 1]).value, events[|events| - 1]);
    }
  }

  /** Neither side ever closes with 4409: no id is subscribed twice, and no message names an id its receiver does not know. */
  lemma NeverCloses4409(legacy: bool, events: seq<PairEvent>)
    requires RunPair(legacy, events).Some? && AllPatient(InitialPair(legacy), events)
    ensures RunPair(legacy, events).value.client.closedWith != Some(4409)
    ensures RunPair(legacy, events).value.server.closedWith != Some(4409)
  {
    InitialFits(legacy);
    InTimeFrom(InitialPair(legacy), events);
  }

  // ----- the end of the client's socket -----

  /** The close event ends every iterator that is registered, and fails those that had not ended; the acknowledgement fails too. */
  lemma CloseEndsAll(legacy: bool, events: seq<PairEvent>, code: int, id: Id)
    requires RunPair(legacy, events).Some? && PairEnabled(RunPair(legacy, events).value, ClientSocketEnds(code))
    requires id in RunPair(legacy, events).value.client.subscriptions
    ensures var c, d := RunPair(legacy, events).value.client, PairStep(RunPair(legacy, events).value, ClientSocketEnds(code)).client;
            && id in c.subs && id in d.subs && d.subs[id].it.done && !d.open
            && (!c.subs[id].it.done ==> d.subs[id].it.cause == Iterators.Thrown(ClosingError()) && d.subs[id].it.error.Some?)
            && (c.ack == Unsettled ==> d.ack == Rejected(code))
  {
    RunFits(legacy, events);
    var p := RunPair(legacy, events).value;
    assert Fits(ViewOf(p, id), id);
    ThrowEnds(p.client.subs[id].it);
  }

  lemma ThrowEnds(it: Iterator)
    requires Sound(it)
    ensures var t := Drive(it, Iterators.Throw(ClosingError()));
            t.done && (!it.done ==> t.cause == Iterators.Thrown(ClosingError()) && t.error.Some?)
  {
    DriveSound(it, Iterators.Throw(ClosingError()));
    DriveThrow(it, ClosingError());
  }

  /** A client that has closed its socket sends nothing more: the socket is not open. */
  lemma {:induction false} ClosedIsShut(legacy: bool, events: seq<PairEvent>)
    requires RunPair(legacy, events).Some?
    ensures var c := RunPair(legacy, events).value.client; c.closedWith.Some? || c.gone ==> !c.open
  {
    if events != [] {
      ClosedIsShut(legacy, events[..|events| - 1]);
      StepShuts(RunPair(legacy, events[..|events| - 1]).value, events[|events| - 1]);
    }
  }

  lemma StepShuts(p: Pair, e: PairEvent)
    requires PairEnabled(p, e) && (p.client.closedWith.Some? || p.client.gone ==> !p.client.open)
    ensures var c, d := p.client, PairStep(p, e).client;
            && (d.closedWith.Some? || d.gone ==> !d.open) && (d.open ==> c.open)
            && (e.ClientCloses? && c.open ==> d.closedWith == Some(e.code))
            && (e.ClientReceives? && c.open && !p.s2c[0].ConnectionAck? && p.s2c[0].id !in c.subscriptions ==> d.closedWith == Some(4409))
  {
    match e
    case ClientReceives => ReceiveShuts(p);
    case ServerReceives => assert PairStep(p, e).client == p.client;
    case ServerSteps(_) => assert PairStep(p, e).client == p.client;
    case _ =>
  }

  lemma ReceiveShuts(p: Pair)
    requires p.s2c != []
    ensures var d := ClientReceive(p).client;
            && d.gone == p.client.gone
            && if p.s2c[0].ConnectionAck? || (p.s2c[0].id in p.client.subscriptions && p.s2c[0].id in p.client.subs)
               then d.open == p.client.open && d.closedWith == p.client.closedWith
               else !d.open && d.closedWith == if p.client.open then Some(4409) else p.client.closedWith
  {
  }

  /** A subscription whose acknowledgement fails is not registered: the call that set it up fails. */
  lemma SetupFailsCall(p: Pair, h: nat)
    requires PairEnabled(p, SetupFails(h))
    ensures var it, q := p.client.unregistered[h], PairStep(p, SetupFails(h));
            && h in q.client.unregistered && q.client.subs == p.client.subs
            && var after := q.client.unregistered[h];
               it.setup.caller in after.settled && after.settled[it.setup.caller] == Iterators.Outcome<int>.Rejected(ClosingError())
  {
  }

  /** The `connection_init` that the client has sent, if its socket was open then. */
  function InitSent(legacy: bool, events: seq<PairEvent>): Option<Payload>
    requires RunPair(legacy, events).Some?
  {
    if events == [] then None
    else
      var init, last := events[..|events| - 1], events[|events| - 1];
      if last.ClientInit? && RunPair(legacy, init).value.client.open then Some(last.payload) else InitSent(legacy, init)
  }

  /** It is on its way until the server is initialized with it, and nothing else initializes the server. */
  lemma {:induction false} InitArrives(legacy: bool, events: seq<PairEvent>)
    requires RunPair(legacy, events).Some?
    ensures var p, sent := RunPair(legacy, events).value, InitSent(legacy, events);
            && (sent.Some? ==> p.client.started && (p.server.initialized || ConnectionInit(sent.value) in p.c2s))
            && (sent.None? ==> !p.server.initialized)
            && forall m | m in p.c2s && m.ConnectionInit? :: sent == Some(m.payload)
  {
    if events != [] {
      var init := events[..|events| - 1];
      InitArrives(legacy, init);
      StepInit(RunPair(legacy, init).value, events[|events| - 1], InitSent(legacy, init));
    }
  }

  lemma StepInit(p: Pair, e: PairEvent, sent: Option<Payload>)
    requires PairEnabled(p, e)
    requires sent.Some? ==> p.client.started && (p.server.initialized || ConnectionInit(sent.value) in p.c2s)
    requires sent.None? ==> !p.server.initialized
    requires forall m | m in p.c2s && m.ConnectionInit? :: sent == Some(m.payload)
    ensures var q, now := PairStep(p, e), if e.ClientInit? && p.client.open then Some(e.payload) else sent;
            && (now.Some? ==> q.client.started && (q.server.initialized || ConnectionInit(now.value) in q.c2s))
            && (now.None? ==> !q.server.initialized)
            && forall m | m in q.c2s && m.ConnectionInit? :: now == Some(m.payload)
  {
    match e
    case ServerReceives => ServerGets(p);
    case ServerSteps(step) => assert Step(p.server, step).initialized == p.server.initialized;
    case _ => ClientSends(p, e);
  }

  lemma ServerGets(p: Pair)
    requires p.c2s != []
    ensures var q := PairStep(p, ServerReceives);
            && q.client == p.client && q.c2s == p.c2s[1..]
            && (q.server.initialized <==> p.server.initialized || p.c2s[0].ConnectionInit?)
  {
  }

  lemma ClientSends(p: Pair, e: PairEvent)
    requires PairEnabled(p, e) && !e.ServerReceives? && !e.ServerSteps?
    ensures var q := PairStep(p, e);
            && q.server == p.server && (q.client.started <==> p.client.started || e.ClientInit?)
            && if e.ClientInit? && p.client.open then q.c2s == p.c2s + [ConnectionInit(e.payload)]
               else q.c2s == p.c2s || (exists m :: q.c2s == p.c2s + [m] && !m.ConnectionInit?)
  {
    var q := PairStep(p, e);
    match e
    case Registers(_) => assert q.c2s == p.c2s || q.c2s == p.c2s + [Subscribe(p.client.nextId)];
    case Drives(id, _) => assert q.c2s == p.c2s || q.c2s == p.c2s + [ClientComplete(id)];
    case ClientReceives =>
      assert q.c2s == p.c2s || (!p.s2c[0].ConnectionAck? && q.c2s == p.c2s + [ClientComplete(p.s2c[0].id)]);
    case _ =>
  }

  /** What the client's acknowledgement promise was settled with first: by the server's message, or by the close event. */
  function ClientAck(legacy: bool, events: seq<PairEvent>): Deferred
    requires RunPair(legacy, events).Some?
  {
    if events == [] then Unsettled
    else
      var init, last := events[..|events| - 1], events[|events| - 1];
      if ClientAck(legacy, init) != Unsettled then ClientAck(legacy, init)
      else if last.ClientReceives? && RunPair(legacy, init).value.s2c[0] == ConnectionAck then Resolved(0)
      else if last.ClientSocketEnds? then Rejected(last.code)
      else Unsettled
  }

  lemma {:induction false} AckIsFirst(legacy: bool, events: seq<PairEvent>)
    requires RunPair(legacy, events).Some?
    ensures RunPair(legacy, events).value.client.ack == ClientAck(legacy, events)
  {
    if events != [] {
      AckIsFirst(legacy, events[..|events| - 1]);
      StepAck(RunPair(legacy, events[..|events| - 1]).value, events[|events| - 1]);
    }
  }

  lemma StepAck(p: Pair, e: PairEvent)
    requires PairEnabled(p, e)
    ensures PairStep(p, e).client.ack ==
            if p.client.ack != Unsettled then p.client.ack
            else if e.ClientReceives? && p.s2c[0] == ConnectionAck then Resolved(0)
            else if e.ClientSocketEnds? then Rejected(e.code)
            else Unsettled
  {
    match e
    case ClientReceives => ReceiveKeepsAck(p);
    case ServerReceives => assert PairStep(p, e).client == p.client;
    case ServerSteps(_) => assert PairStep(p, e).client == p.client;
    case Drives(id, event) => assert DriveSub(p, id, event).client.ack == p.client.ack;
    case _ =>
  }

  lemma ReceiveKeepsAck(p: Pair)
    requires p.s2c != []
    ensures ClientReceive(p).client.ack ==
            if p.s2c[0] == ConnectionAck then (if p.client.ack == Unsettled then Resolved(0) else p.client.ack) else p.client.ack
  {
  }

  // ----- delivery -----

  lemma OneStream(v: View, id: Id)
    requires Fits(v, id)
    ensures |v.streams| <= 1
  {
  }

  /** An id belongs to one server stream at most, and its view shows that stream. */
  lemma OnlyStream(p: Pair, id: Id, i: nat)
    requires PairFits(p) && i < |p.server.streams| && p.server.streams[i].id == id
    ensures ViewOf(p, id).streams == [p.server.streams[i]]
  {
    OneStream(ViewOf(p, id), id);
    StreamsForHolds(p.server.streams, id, i);
  }

  lemma ShownStream(streams: seq<Stream>, id: Id) returns (i: nat)
    requires StreamsFor(streams, id) != []
    ensures i < |streams| && streams[i].id == id
  {
    i := |streams| - 1;
    if streams[i].id != id {
      i := ShownStream(streams[..i], id);
    }
  }

  /** In order and nothing made up: what a subscription's iterator accepted is a prefix of what the server consumed for it. */
  lemma InOrderDelivery(legacy: bool, events: seq<PairEvent>, id: Id)
    requires RunPair(legacy, events).Some? && id in RunPair(legacy, events).value.client.subs
    ensures var p := RunPair(legacy, events).value;
            var it := p.client.subs[id].it;
            && it.handed <= it.accepted
            && (it.accepted != [] ==> exists i :: 0 <= i < |p.server.streams| && p.server.streams[i].id == id)
            && forall i | 0 <= i < |p.server.streams| && p.server.streams[i].id == id ::
                 it.accepted <= p.server.streams[i].sent <= p.server.streams[i].consumed
  {
    RunFits(legacy, events);
    var p := RunPair(legacy, events).value;
    assert Fits(ViewOf(p, id), id);
    if ViewOf(p, id).streams != [] {
      var i := ShownStream(p.server.streams, id);
    }
    forall i | 0 <= i < |p.server.streams| && p.server.streams[i].id == id
      ensures p.client.subs[id].it.accepted <= p.server.streams[i].sent <= p.server.streams[i].consumed
    {
      OnlyStream(p, id, i);
      assert StreamFits(p.server.open, ViewOf(p, id).streams[0]);
    }
  }

  /** A consumer that sees `done` without having called `return()` got everything the server consumed, which ended with `complete`. */
  lemma CompleteDelivery(legacy: bool, events: seq<PairEvent>, id: Id, call: Iterators.CallId) returns (i: nat)
    requires RunPair(legacy, events).Some? && id in RunPair(legacy, events).value.client.subs
    requires var it := RunPair(legacy, events).value.client.subs[id].it;
             call in it.settled && it.settled[call] == Iterators.Outcome.Done && it.cause != Iterators.Returned
    ensures var p := RunPair(legacy, events).value;
            && i < |p.server.streams| && p.server.streams[i].id == id
            && p.server.streams[i].terminal == Some(Complete)
            && p.client.subs[id].it.handed == p.server.streams[i].consumed
  {
    RunFits(legacy, events);
    var p := RunPair(legacy, events).value;
    assert Fits(ViewOf(p, id), id);
    DoneMeansDrained(p.client.subs[id].it, call);
    i := ShownStream(p.server.streams, id);
    OnlyStream(p, id, i);
    assert StreamFits(p.server.open, ViewOf(p, id).streams[0]);
  }

  /** The client never reuses an id, so the server never has two streams of one id. */
  lemma IdsNeverReused(legacy: bool, events: seq<PairEvent>, i: nat, j: nat)
    requires RunPair(legacy, events).Some?
    requires var streams := RunPair(legacy, events).value.server.streams;
             i < |streams| && j < |streams| && streams[i].id == streams[j].id
    ensures i == j
  {
    RunFits(legacy, events);
    var p := RunPair(legacy, events).value;
    OnlyStream(p, p.server.streams[i].id, i);
    if i != j {
      TwoStreams(p.server.streams, p.server.streams[i].id, Min(i, j), Max(i, j));
    }
  }

  function Min(i: nat, j: nat): nat {
    if i < j then i else j
  }

  lemma TwoStreams(streams: seq<Stream>, id: Id, i: nat, j: nat)
    requires i < j < |streams| && streams[i].id == id == streams[j].id
    ensures |StreamsFor(streams, id)| >= 2
  {
    var init := streams[..|streams| - 1];
    if j < |init| {
      TwoStreams(init, id, i, j);
    } else {
      StreamsForHolds(init, id, i);
    }
  }
}
