/** Linger timers that fire before the peer's last message: exactly when a pair can then close with 4409. */
module EarlyLingers {
  import opened GraphQLAst
  import opened ServerSockets
  import Iterators = PushIterators
  import opened ClientIterators
  import opened SocketPairs
  import opened SubscriptionViews
  import opened PairSafety
  import opened PairRuns

  // ----- the one `connection_init` -----

  /** The client sends it once, so the server never refuses another one. */
  ghost predicate InitFits(p: Pair) {
    && (p.server.initialized ==> p.client.started && NoInit(p.c2s))
    && (!p.client.started ==> NoInit(p.c2s))
    && (forall a, b | 0 <= a < b < |p.c2s| :: !(p.c2s[a].ConnectionInit? && p.c2s[b].ConnectionInit?))
    && (p.server.acknowledged || p.server.acknowledging.Some? ==> p.server.initialized)
  }

  ghost predicate NoInit(c2s: seq<ClientMessage>) {
    forall a | 0 <= a < |c2s| :: !c2s[a].ConnectionInit?
  }

  lemma InitStep(p: Pair, e: PairEvent)
    requires InitFits(p) && PairEnabled(p, e)
    ensures InitFits(PairStep(p, e))
  {
    match e
    case ServerReceives =>
      var q := PairStep(p, e);
      if p.c2s[0].ConnectionInit? {
        assert NoInit(q.c2s);
      }
    case ServerSteps(step) => ServerInit(p, step);
    case _ => ClientInits(p, e);
  }

  lemma ClientInits(p: Pair, e: PairEvent)
    requires InitFits(p) && PairEnabled(p, e) && !e.ServerReceives? && !e.ServerSteps?
    ensures InitFits(PairStep(p, e))
  {
    var q := PairStep(p, e);
    assert q.server == p.server;
    assert !e.ClientInit? ==> q.client.started == p.client.started;
    assert q.c2s == p.c2s || (|q.c2s| == |p.c2s| + 1 && q.c2s[..|p.c2s|] == p.c2s && (q.c2s[|p.c2s|].ConnectionInit? ==> e.ClientInit?));
  }

  lemma ServerInit(p: Pair, step: Event)
    requires InitFits(p) && Enabled(p.server, step) && !step.Receives?
    ensures InitFits(ServerStep(p, step))
  {
    var t := Step(p.server, step);
    assert t.initialized == p.server.initialized;
    assert t.acknowledged || t.acknowledging.Some? ==> p.server.acknowledged || p.server.acknowledging.Some?;
  }

  // ----- continuations -----

  /** Some continuation whose other timers are patient closes with 4409. */
  ghost predicate CanClose4409(p: Pair) {
    exists later :: FromPair(p, later).Some? && AllPatient(p, later) && Closed4409(FromPair(p, later).value)
  }

  lemma FromFirst(p: Pair, e: PairEvent, later: seq<PairEvent>)
    requires PairEnabled(p, e) && Patient(p, e) && FromPair(PairStep(p, e), later).Some? && AllPatient(PairStep(p, e), later)
    ensures FromPair(p, [e] + later) == FromPair(PairStep(p, e), later) && AllPatient(p, [e] + later)
    decreases |later|
  {
    var all := [e] + later;
    if later == [] {
      assert all == [e] && all[..0] == [];
      assert FromPair(p, all[..|all| - 1]) == Some(p);
    } else {
      assert all[..|all| - 1] == [e] + later[..|later| - 1] && all[|all| - 1] == later[|later| - 1];
      FromFirst(p, e, later[..|later| - 1]);
    }
  }

  lemma ClosesAfter(p: Pair, e: PairEvent)
    requires PairEnabled(p, e) && Patient(p, e) && CanClose4409(PairStep(p, e))
    ensures CanClose4409(p)
  {
    var later :| FromPair(PairStep(p, e), later).Some? && AllPatient(PairStep(p, e), later)
                 && Closed4409(FromPair(PairStep(p, e), later).value);
    FromFirst(p, e, later);
  }

  lemma ClosesNow(p: Pair)
    requires Closed4409(p)
    ensures CanClose4409(p)
  {
    assert FromPair(p, []) == Some(p) && AllPatient(p, []);
  }

  // ----- while one id's timer was early -----

  /** Every other id is still in time. */
  ghost predicate OthersFit(p: Pair, k: Id) {
    PairFits(p) && InitFits(p) && forall id | id != k :: InTime(ViewOf(p, id))
  }

  lemma OthersStep(p: Pair, e: PairEvent, k: Id)
    requires OthersFit(p, k) && PairEnabled(p, e) && Patient(p, e)
    ensures OthersFit(PairStep(p, e), k)
  {
    StepFits(p, e);
    InitStep(p, e);
    forall id | id != k ensures InTime(ViewOf(PairStep(p, e), id)) {
      assert Keeps(ViewOf(p, id), ViewOf(PairStep(p, e), id), id);
    }
  }

  /** The early timer itself. */
  lemma LingersEarly(p: Pair, e: PairEvent, k: Id)
    requires PairFits(p) && AllInTime(p) && InitFits(p) && PairEnabled(p, e)
    requires e == ClientLingerFires(k) || (e.ServerSteps? && e.step.LingerFires? && p.server.streams[e.step.stream].id == k)
    ensures OthersFit(PairStep(p, e), k)
  {
    StepFits(p, e);
    InitStep(p, e);
    if e.ClientLingerFires? {
      AfterClientLinger(p, k);
    } else {
      AfterStreamMoves(p, e.step);
    }
    forall id | id != k ensures InTime(ViewOf(PairStep(p, e), id)) {
      assert InTime(ViewOf(p, id));
      assert Keeps(ViewOf(p, id), ViewOf(PairStep(p, e), id), id);
    }
  }

  // ----- the server works off what the client has sent -----

  function Work(p: Pair): nat {
    2 * |p.c2s| + |p.server.waiting|
  }

  /** The next message or handler is of another id: it closes nothing, and changes nothing that `k` sees. */
  lemma AdvanceServer(p: Pair, k: Id) returns (e: PairEvent)
    requires OthersFit(p, k) && p.server.open && ViewOf(p, k).queue != []
    requires p.server.waiting == [] || p.server.waiting[0].id != k
    ensures PairEnabled(p, e) && Patient(p, e) && OthersFit(PairStep(p, e), k)
    ensures ViewOf(PairStep(p, e), k) == ViewOf(p, k) && Work(PairStep(p, e)) < Work(p)
    ensures PairStep(p, e).client == p.client
  {
    if p.server.waiting != [] {
      e := ServerSteps(HandlerContinues);
      HandlesOther(p, k);
    } else {
      e := ServerReceives;
      ReceivesAny(p, k);
    }
    OthersStep(p, e, k);
  }

  lemma HandlesOther(p: Pair, k: Id)
    requires OthersFit(p, k) && p.server.open && p.server.waiting != [] && p.server.waiting[0].id != k
    ensures Enabled(p.server, HandlerContinues)
    ensures var q := ServerStep(p, HandlerContinues);
            ViewOf(q, k) == ViewOf(p, k) && q.c2s == p.c2s && q.server.waiting == p.server.waiting[1..] && q.client == p.client
  {
    assert Fits(ViewOf(p, p.server.waiting[0].id), p.server.waiting[0].id);
    HandlerEntry(p);
    HandlerQueue(p, k);
    if p.server.waiting[0].HandleSubscribe? {
      SubscribeView(p, k);
    } else {
      CompleteView(p, k);
    }
  }

  lemma ReceivesAny(p: Pair, k: Id)
    requires OthersFit(p, k) && p.server.open && p.server.waiting == [] && ViewOf(p, k).queue != []
    ensures p.c2s != [] && Patient(p, ServerReceives)
    ensures var q := PairStep(p, ServerReceives);
            ViewOf(q, k) == ViewOf(p, k) && Work(q) < Work(p) && q.client == p.client
  {
    assert p.c2s != [];
    assert Fits(ViewOf(p, k), k);
    assert p.c2s[0] in p.c2s;
    assert !p.c2s[0].ConnectionInit?;
    ReceivedViewIs(p, k);
    Received(p.server, p.c2s[0]);
  }

  /** The server has forgotten the id, and its `complete` is on the way. */
  lemma CompleteRefused(p: Pair, k: Id)
    requires OthersFit(p, k) && p.server.open && k !in p.server.subscriptions
    requires ViewOf(p, k).streams != [] && ViewOf(p, k).queue != []
    ensures CanClose4409(p)
    decreases Work(p)
  {
    assert Fits(ViewOf(p, k), k);
    if p.server.waiting == [] || p.server.waiting[0].id != k {
      var e := AdvanceServer(p, k);
      assert ViewOf(PairStep(p, e), k).sOpen && !ViewOf(PairStep(p, e), k).entry;
      CompleteRefused(PairStep(p, e), k);
      ClosesAfter(p, e);
    } else {
      var e := ServerSteps(HandlerContinues);
      assert ViewOf(p, k).queue[0] == p.server.waiting[0];
      assert PairEnabled(p, e);
      ClosesNow(PairStep(p, e));
      ClosesAfter(p, e);
    }
  }

  /** The client can still tear down: setup ends if it is pending, and the consumer returns. */
  lemma TearsDown(p: Pair, k: Id)
    requires OthersFit(p, k) && p.server.open && k !in p.server.subscriptions && ViewOf(p, k).streams != []
    requires k in p.client.subs && p.client.open && !p.client.subs[k].it.done
    ensures CanClose4409(p)
    decreases if p.client.subs[k].it.setup.Pending? then 1 else 0
  {
    assert Fits(ViewOf(p, k), k);
    if ViewOf(p, k).queue != [] {
      CompleteRefused(p, k);
    } else {
      var it := p.client.subs[k].it;
      var event := if it.setup.Pending? then Iterators.SetupResolves(true) else Iterators.Return;
      var e := Drives(k, event);
      TeardownCounted(it, event);
      OthersStep(p, e, k);
      DriveSubViews(p, k, event, k);
      if Drive(it, event).done {
        CompleteRefused(PairStep(p, e), k);
      } else {
        TearsDown(PairStep(p, e), k);
      }
      ClosesAfter(p, e);
    }
  }

  lemma TeardownCounted(it: Iterator, e: Iterators.Event<int>)
    requires Sound(it) && !it.done && (it.setup.Pending? || (it.setup.Settled? && it.setup.withTeardown))
    requires e == if it.setup.Pending? then Iterators.SetupResolves(true) else Iterators.Return
    ensures Iterators.Enabled(it, e)
    ensures Drive(it, e).done ==> Drive(it, e).teardowns > it.teardowns
    ensures it.setup.Pending? ==> Drive(it, e).setup.Settled?
    ensures e.Return? ==> Drive(it, e).done
  {
  }

  // ----- the client works off what the server has sent -----

  /** The client has forgotten the id, and a message for it is on the way. */
  lemma MailRefused(p: Pair, k: Id)
    requires OthersFit(p, k) && p.client.open && k !in p.client.subscriptions && ViewOf(p, k).mail != []
    ensures CanClose4409(p)
    decreases |p.s2c|
  {
    var e := ClientReceives;
    assert PairEnabled(p, e);
    if MailFor(p.s2c[0], k) {
      ClosesNow(PairStep(p, e));
    } else {
      ReceivesOther(p, k);
      OthersStep(p, e, k);
      MailRefused(PairStep(p, e), k);
    }
    ClosesAfter(p, e);
  }

  lemma ReceivesOther(p: Pair, k: Id)
    requires OthersFit(p, k) && p.client.open && p.s2c != [] && !MailFor(p.s2c[0], k)
    ensures ViewOf(ClientReceive(p), k) == ViewOf(p, k) && |ClientReceive(p).s2c| < |p.s2c|
  {
    if p.s2c[0].ConnectionAck? {
      assert MailOf(p.s2c, k) == MailOf(p.s2c[1..], k);
    } else {
      var id := p.s2c[0].id;
      assert Fits(ViewOf(p, id), id) && InTime(ViewOf(p, id));
      MailHead(p, id);
      ReceiveViews(p, id, k);
    }
  }

  /** A stream that is not over still sends its end. */
  lemma StreamEnds(p: Pair, k: Id, j: nat)
    requires OthersFit(p, k) && p.client.open && p.server.open && k !in p.client.subscriptions
    requires j < |p.server.streams| && p.server.streams[j].id == k && !Over(p.server.streams[j].phase)
    ensures CanClose4409(p)
  {
    var step := if p.server.streams[j].phase == Subscribing then SubscribeResolves(j, false) else Ends(j, Complete);
    var e := ServerSteps(step);
    var after, message := StepMoves(p.server, step);
    MovesMail(p, step, after, message, k);
    OthersStep(p, e, k);
    MailRefused(PairStep(p, e), k);
    ClosesAfter(p, e);
  }

  /** The server has not seen the `subscribe` yet. */
  lemma SubscribeArrives(p: Pair, k: Id)
    requires OthersFit(p, k) && p.client.open && p.server.open && k !in p.client.subscriptions
    requires SubscribePending(ViewOf(p, k), k)
    ensures CanClose4409(p)
    decreases Work(p)
  {
    if p.server.waiting == [] || p.server.waiting[0].id != k {
      var e := AdvanceServer(p, k);
      assert ViewOf(PairStep(p, e), k).sOpen && ViewOf(PairStep(p, e), k).cOpen;
      SubscribeArrives(PairStep(p, e), k);
      ClosesAfter(p, e);
    } else {
      var e := ServerSteps(HandlerContinues);
      assert Fits(ViewOf(p, k), k);
      SubscribeTaken(p, k);
      OthersStep(p, e, k);
      StreamEnds(PairStep(p, e), k, |p.server.streams|);
      ClosesAfter(p, e);
    }
  }

  lemma SubscribeTaken(p: Pair, k: Id)
    requires AckFits(p) && Fits(ViewOf(p, k), k)
    requires SubscribePending(ViewOf(p, k), k) && p.server.waiting != [] && p.server.waiting[0].id == k
    ensures PairEnabled(p, ServerSteps(HandlerContinues))
    ensures var q, j := PairStep(p, ServerSteps(HandlerContinues)), |p.server.streams|;
            && q.client == p.client && q.server.open == p.server.open
            && j < |q.server.streams| && q.server.streams[j] == Stream(k, Subscribing, [], [], None)
  {
    assert ViewOf(p, k).queue[0] == p.server.waiting[0];
    HandlerEntry(p);
    Subscribes(p.server, k);
  }

  lemma Subscribes(s: Server, k: Id)
    requires s.initPayload.Resolved? && s.waiting != [] && s.waiting[0] == HandleSubscribe(k) && k !in s.subscriptions
    ensures var t, j := Step(s, HandlerContinues), |s.streams|;
            t.open == s.open && j < |t.streams| && t.streams[j] == Stream(k, Subscribing, [], [], None)
  {
  }

  // ----- the exact conditions -----

  lemma {:induction false} Reached(legacy: bool, events: seq<PairEvent>)
    requires RunPair(legacy, events).Some? && AllPatient(InitialPair(legacy), events)
    ensures var p := RunPair(legacy, events).value; PairFits(p) && AllInTime(p) && InitFits(p) && !Closed4409(p)
  {
    InitialFits(legacy);
    InTimeFrom(InitialPair(legacy), events);
    if events != [] {
      Reached(legacy, events[..|events| - 1]);
      InitStep(RunPair(legacy, events[..|events| - 1]).value, events[|events| - 1]);
    }
  }

  lemma InTimeNeverCloses(p: Pair)
    requires PairFits(p) && AllInTime(p) && !Closed4409(p)
    ensures !CanClose4409(p)
  {
    forall later | FromPair(p, later).Some? && AllPatient(p, later) ensures !Closed4409(FromPair(p, later).value) {
      InTimeFrom(p, later);
    }
  }

  lemma WaitingMentions(waiting: seq<Handler>, h: Handler)
    ensures h in WaitingFor(waiting, h.id) <==> h in waiting
  {
  }

  lemma SentMentions(c2s: seq<ClientMessage>, k: Id)
    ensures HandleComplete(k) in SentFor(c2s, k) <==> ClientComplete(k) in c2s
  {
  }

  lemma CompleteOnTheWay(p: Pair, k: Id)
    requires Fits(ViewOf(p, k), k) && ViewOf(p, k).streams != []
    ensures ViewOf(p, k).queue != [] <==> ClientComplete(k) in p.c2s || HandleComplete(k) in p.server.waiting
  {
    WaitingMentions(p.server.waiting, HandleComplete(k));
    SentMentions(p.c2s, k);
    assert ViewOf(p, k).queue == [] || ViewOf(p, k).queue == [HandleComplete(k)];
  }

  lemma NothingOnTheWay(p: Pair, k: Id)
    requires Fits(ViewOf(p, k), k) && k in p.client.subs && ClientSilent(p.client.open, p.client.subs[k]) && ViewOf(p, k).queue == []
    ensures ServerHasAll(p, k)
  {
    forall m | m in p.c2s ensures !Mentions(m, k) {
      if Mentions(m, k) {
        SentAll(p.c2s, m, k);
      }
    }
    forall h | h in p.server.waiting ensures h.id != k {
      if h.id == k {
        WaitingMentions(p.server.waiting, h);
      }
    }
  }

  lemma SentAll(c2s: seq<ClientMessage>, m: ClientMessage, k: Id)
    requires m in c2s && Mentions(m, k)
    ensures SentFor(c2s, k) != []
  {
  }

  /** The entry goes, and nothing else that the id sees. */
  lemma EntryGoes(p: Pair, i: nat)
    requires PairFits(p) && PairEnabled(p, ServerSteps(LingerFires(i)))
    ensures var k, q := p.server.streams[i].id, PairStep(p, ServerSteps(LingerFires(i)));
            && k in p.client.subs && ViewOf(p, k).streams != []
            && q.client == p.client && q.server.open == p.server.open && k !in q.server.subscriptions
            && ViewOf(q, k).streams != [] && ViewOf(q, k).queue == ViewOf(p, k).queue
  {
    var k := p.server.streams[i].id;
    assert Fits(ViewOf(p, k), k);
    OnlyStream(p, k, i);
    var after, message := StepMoves(p.server, LingerFires(i));
    MovesViewIs(p, LingerFires(i), after, message, k);
  }

  /** After a server's linger timer: exactly if a `complete` for its id is on the way, or can still be sent. */
  lemma ServerLingerIff(legacy: bool, events: seq<PairEvent>, i: nat)
    requires RunPair(legacy, events).Some? && AllPatient(InitialPair(legacy), events)
    requires var p := RunPair(legacy, events).value; p.server.open && PairEnabled(p, ServerSteps(LingerFires(i)))
    ensures var p := RunPair(legacy, events).value;
            var k := p.server.streams[i].id;
            && k in p.client.subs
            && (CanClose4409(PairStep(p, ServerSteps(LingerFires(i)))) <==>
                ClientComplete(k) in p.c2s || HandleComplete(k) in p.server.waiting || (p.client.open && !p.client.subs[k].it.done))
  {
    Reached(legacy, events);
    var p, e := RunPair(legacy, events).value, ServerSteps(LingerFires(i));
    var k, q := p.server.streams[i].id, PairStep(p, e);
    EntryGoes(p, i);
    assert Fits(ViewOf(p, k), k);
    CompleteOnTheWay(p, k);
    LingersEarly(p, e, k);
    if ViewOf(p, k).queue != [] {
      CompleteRefused(q, k);
    } else if p.client.open && !p.client.subs[k].it.done {
      TearsDown(q, k);
    } else {
      NothingOnTheWay(p, k);
      InTimeStep(p, e);
      InTimeNeverCloses(q);
    }
  }

  /** After a client's linger timer: exactly if a message for its id is on the way, or can still be sent. */
  lemma ClientLingerIff(legacy: bool, events: seq<PairEvent>, k: Id)
    requires RunPair(legacy, events).Some? && AllPatient(InitialPair(legacy), events)
    requires var p := RunPair(legacy, events).value; p.client.open && PairEnabled(p, ClientLingerFires(k))
    ensures var p := RunPair(legacy, events).value;
            CanClose4409(PairStep(p, ClientLingerFires(k))) <==>
              || (exists m :: m in p.s2c && MailFor(m, k))
              || (p.server.open && forall j | 0 <= j < |p.server.streams| && p.server.streams[j].id == k :: !Over(p.server.streams[j].phase))
  {
    Reached(legacy, events);
    var p, e := RunPair(legacy, events).value, ClientLingerFires(k);
    var q := PairStep(p, e);
    assert Fits(ViewOf(p, k), k);
    LingersEarly(p, e, k);
    if m :| m in p.s2c && MailFor(m, k) {
      MailHolds(p.s2c, m, k);
      MailRefused(q, k);
    } else if p.server.open && forall j | 0 <= j < |p.server.streams| && p.server.streams[j].id == k :: !Over(p.server.streams[j].phase) {
      if ViewOf(p, k).streams != [] {
        var j := ShownStream(p.server.streams, k);
        StreamEnds(q, k, j);
      } else {
        SubscribeArrives(q, k);
      }
    } else {
      InTimeStep(p, e);
      InTimeNeverCloses(q);
    }
  }

  lemma MailHolds(s2c: seq<ServerMessage>, m: ServerMessage, k: Id)
    requires m in s2c && MailFor(m, k)
    ensures MailOf(s2c, k) != []
  {
  }
}
