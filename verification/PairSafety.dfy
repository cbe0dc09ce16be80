/** What every step of a client/server pair keeps: the view of each id, and no 4409 while linger timers are in time. */
module PairSafety {
  import opened GraphQLAst
  import opened ServerSockets
  import Iterators = PushIterators
  import opened ClientIterators
  import opened SocketPairs
  import opened SubscriptionViews

  // ----- projections to one id -----

  function WaitingFor(waiting: seq<Handler>, id: Id): seq<Handler> {
    if waiting == [] then []
    else (if waiting[0].id == id then [waiting[0]] else []) + WaitingFor(waiting[1..], id)
  }

  function SentFor(c2s: seq<ClientMessage>, id: Id): seq<Handler> {
    if c2s == [] then []
    else
      AsHandlers(c2s[0], id) + SentFor(c2s[1..], id)
  }

  function StreamsFor(streams: seq<Stream>, id: Id): seq<Stream> {
    if streams == [] then []
    else StreamsFor(streams[..|streams| - 1], id) + (if streams[|streams| - 1].id == id then [streams[|streams| - 1]] else [])
  }

  function MailOf(s2c: seq<ServerMessage>, id: Id): seq<ServerMessage> {
    if s2c == [] then [] else OneMail(s2c[0], id) + MailOf(s2c[1..], id)
  }

  function OneMail(m: ServerMessage, id: Id): seq<ServerMessage> {
    if MailFor(m, id) then [m] else []
  }

  function QueueFor(waiting: seq<Handler>, c2s: seq<ClientMessage>, id: Id): seq<Handler> {
    WaitingFor(waiting, id) + SentFor(c2s, id)
  }

  function ViewOf(p: Pair, id: Id): View {
    View(p.client.open, p.server.open,
         QueueFor(p.server.waiting, p.c2s, id),
         StreamsFor(p.server.streams, id), id in p.server.subscriptions,
         MailOf(p.s2c, id),
         if id in p.client.subs then Some(p.client.subs[id]) else None, id in p.client.subscriptions)
  }

  lemma WaitingForAppend(waiting: seq<Handler>, h: Handler, id: Id)
    ensures WaitingFor(waiting + [h], id) == WaitingFor(waiting, id) + (if h.id == id then [h] else [])
  {
    if waiting != [] {
      assert (waiting + [h])[1..] == waiting[1..] + [h];
    }
  }

  lemma SentForAppend(c2s: seq<ClientMessage>, m: ClientMessage, id: Id)
    ensures SentFor(c2s + [m], id) == SentFor(c2s, id) + SentFor([m], id)
  {
    if c2s != [] {
      assert (c2s + [m])[1..] == c2s[1..] + [m];
    }
  }

  function AsHandlers(m: ClientMessage, id: Id): seq<Handler> {
    if m == Subscribe(id) then [HandleSubscribe(id)] else if m == ClientComplete(id) then [HandleComplete(id)] else []
  }

  lemma QueueSends(waiting: seq<Handler>, c2s: seq<ClientMessage>, m: ClientMessage, id: Id)
    ensures QueueFor(waiting, c2s + [m], id) == QueueFor(waiting, c2s, id) + AsHandlers(m, id)
  {
    SentForAppend(c2s, m, id);
    assert SentFor([m], id) == AsHandlers(m, id);
  }

  lemma Heads<T>(a: seq<T>, b: seq<T>)
    requires a != []
    ensures a + b != [] && (a + b)[0] == a[0] && (a + b)[1..] == a[1..] + b
  {
  }

  lemma Regroups<T>(a: seq<T>, b: seq<T>, c: seq<T>)
    ensures a + (b + c) == a + b + c
  {
  }

  lemma {:induction false} MailOfConcat(a: seq<ServerMessage>, b: seq<ServerMessage>, id: Id)
    ensures MailOf(a + b, id) == MailOf(a, id) + MailOf(b, id)
  {
    if a == [] {
      assert a + b == b;
    } else {
      MailOfConcat(a[1..], b, id);
      Heads(a, b);
      Regroups(OneMail(a[0], id), MailOf(a[1..], id), MailOf(b, id));
    }
  }

  lemma {:induction false} StreamsForHolds(streams: seq<Stream>, id: Id, i: nat)
    requires i < |streams| && streams[i].id == id
    ensures streams[i] in StreamsFor(streams, id)
  {
    if i < |streams| - 1 {
      StreamsForHolds(streams[..|streams| - 1], id, i);
    }
  }

  lemma {:induction false} StreamsForUpdate(streams: seq<Stream>, i: nat, after: Stream, id: Id)
    requires i < |streams| && after.id == streams[i].id
    requires |StreamsFor(streams, streams[i].id)| <= 1
    ensures StreamsFor(streams[i := after], id) == if streams[i].id == id then [after] else StreamsFor(streams, id)
    ensures StreamsFor(streams, streams[i].id) == [streams[i]]
  {
    var init := streams[..|streams| - 1];
    if i == |streams| - 1 {
      assert streams[i := after][..i] == init;
      assert |StreamsFor(init, streams[i].id)| == 0;
    } else {
      assert streams[i := after][..|streams| - 1] == init[i := after];
      assert streams[i := after][|streams| - 1] == streams[|streams| - 1] && init[i] == streams[i];
      StreamsForHolds(init, streams[i].id, i);
      assert |StreamsFor(init, streams[i].id)| >= 1;
      StreamsForUpdate(init, i, after, id);
    }
  }

  lemma NoMention(p: Pair, id: Id)
    requires (forall m | m in p.c2s :: !Mentions(m, id)) && forall h | h in p.server.waiting :: h.id != id
    ensures ViewOf(p, id).queue == []
  {
    NoWaiting(p.server.waiting, id);
    NoSent(p.c2s, id);
  }

  lemma NoWaiting(waiting: seq<Handler>, id: Id)
    requires forall h | h in waiting :: h.id != id
    ensures WaitingFor(waiting, id) == []
  {
  }

  lemma NoSent(c2s: seq<ClientMessage>, id: Id)
    requires forall m | m in c2s :: !Mentions(m, id)
    ensures SentFor(c2s, id) == []
  {
    if c2s != [] {
      assert !Mentions(c2s[0], id);
      NoSent(c2s[1..], id);
    }
  }

  lemma NoMail(s2c: seq<ServerMessage>, id: Id)
    requires forall m | m in s2c :: !MailFor(m, id)
    ensures MailOf(s2c, id) == []
  {
  }

  // ----- the invariant of a pair -----

  /** The client only subscribes once the server has resolved its payload promise. */
  ghost predicate AckFits(p: Pair) {
    && (p.client.ack.Resolved? || ConnectionAck in p.s2c ==> p.server.initPayload.Resolved? && p.server.acknowledged)
    && AckPending(p.server)
    && (p.client.subs != map[] ==> p.client.ack.Resolved?)
    && (p.server.waiting != [] ==> p.client.ack.Resolved?)
    && (forall m | m in p.c2s :: m.ConnectionInit? || (p.client.ack.Resolved? && (m.Subscribe? || m.ClientComplete?)))
  }

  /** Before `acknowledge` has settled, nothing but the end of the socket settles the promise. */
  predicate AckPending(s: Server) {
    && (s.acknowledging.Some? ==> s.initialized)
    && ((s.acknowledging.Some? || !s.initialized) && s.open ==> s.initPayload == Unsettled)
  }

  ghost predicate IdsFit(c: Client) {
    && c.nextId >= 1
    && (forall id :: id in c.subs <==> 1 <= id < c.nextId)
    && c.subscriptions <= c.subs.Keys && (c.gone ==> !c.open)
  }

  ghost predicate Unregistered(it: Iterator) {
    && Sound(it) && it.accepted == [] && !it.setup.Settled?
    && (it.finished ==> it.cause == Iterators.Returned) && (it.cause == Iterators.NotEnded || it.cause == Iterators.Returned)
  }

  ghost predicate PairFits(p: Pair) {
    && Ordered(BookOf(p.server)) && AckFits(p) && IdsFit(p.client)
    && (forall h | h in p.client.unregistered :: Unregistered(p.client.unregistered[h]))
    && (forall id :: Fits(ViewOf(p, id), id))
  }

  /** What a step keeps for each id; a linger timer that fires early does not. */
  ghost predicate AllKeep(p: Pair, q: Pair) {
    forall id :: Keeps(ViewOf(p, id), ViewOf(q, id), id)
  }

  lemma SameKeeps(p: Pair, q: Pair, id: Id)
    requires Fits(ViewOf(p, id), id) && ViewOf(q, id) == ViewOf(p, id)
    ensures Keeps(ViewOf(p, id), ViewOf(q, id), id)
  {
  }

  // ----- client steps -----

  lemma InitAck(p: Pair, payload: Payload)
    requires AckFits(p) && PairEnabled(p, ClientInit(payload))
    ensures AckFits(PairStep(p, ClientInit(payload)))
  {
  }

  lemma AfterInit(p: Pair, payload: Payload)
    requires PairFits(p) && PairEnabled(p, ClientInit(payload))
    ensures PairFits(PairStep(p, ClientInit(payload))) && AllKeep(p, PairStep(p, ClientInit(payload)))
  {
    var q := PairStep(p, ClientInit(payload));
    InitAck(p, payload);
    forall id ensures Keeps(ViewOf(p, id), ViewOf(q, id), id) {
      QueueSends(p.server.waiting, p.c2s, ConnectionInit(payload), id);
      assert ViewOf(q, id) == ViewOf(p, id);
    }
  }

  lemma UnregisteredStep(it: Iterator, e: Iterators.Event<int>)
    requires Unregistered(it) && Iterators.Enabled(it, e) && (e.Next? || e.Resumes? || e.Return? || e.SetupRejects?)
    ensures Unregistered(Drive(it, e))
  {
    DriveSound(it, e);
    DriveConsumer(it, e);
    SetupStays(it, e);
  }

  lemma SetupStays(it: Iterator, e: Iterators.Event<int>)
    requires Sound(it) && Iterators.Enabled(it, e) && (e.Next? || e.Resumes? || e.Return? || e.SetupRejects?)
    requires !it.setup.Settled?
    ensures !Drive(it, e).setup.Settled?
  {
  }

  lemma AfterUnregistered(p: Pair, e: PairEvent)
    requires PairFits(p) && PairEnabled(p, e) && (e.Subscribes? || e.DrivesUnregistered? || e.SetupFails?)
    ensures PairFits(PairStep(p, e)) && AllKeep(p, PairStep(p, e))
  {
    match e
    case Subscribes(h) =>
      InitialSound();
      OnlyUnregistered(p, h, Iterators.Initial());
    case DrivesUnregistered(h, event) =>
      UnregisteredStep(p.client.unregistered[h], event);
      OnlyUnregistered(p, h, Drive(p.client.unregistered[h], event));
    case SetupFails(h) =>
      UnregisteredStep(p.client.unregistered[h], Iterators.SetupRejects(ClosingError()));
      OnlyUnregistered(p, h, Drive(p.client.unregistered[h], Iterators.SetupRejects(ClosingError())));
  }

  lemma OnlyUnregistered(p: Pair, h: nat, it: Iterator)
    requires PairFits(p) && Unregistered(it)
    ensures var q := p.(client := p.client.(unregistered := p.client.unregistered[h := it])); PairFits(q) && AllKeep(p, q)
  {
    var q := p.(client := p.client.(unregistered := p.client.unregistered[h := it]));
    forall id ensures Keeps(ViewOf(p, id), ViewOf(q, id), id) {
      assert ViewOf(q, id) == ViewOf(p, id);
    }
  }

  lemma RegistersView(p: Pair, h: nat, id: Id)
    requires PairEnabled(p, Registers(h)) && IdsFit(p.client) && Fits(ViewOf(p, id), id)
    requires Unregistered(p.client.unregistered[h])
    ensures Keeps(ViewOf(p, id), ViewOf(PairStep(p, Registers(h)), id), id)
  {
    var k, v := p.client.nextId, ViewOf(p, id);
    RegisteredView(p, h, id);
    if id == k {
      assert v.sub.None? && v.queue == [];
      RegisterFits(v, k, p.client.unregistered[h]);
    }
  }

  lemma RegisteredView(p: Pair, h: nat, id: Id)
    requires PairEnabled(p, Registers(h)) && IdsFit(p.client)
    ensures var k, v := p.client.nextId, ViewOf(p, id);
            ViewOf(PairStep(p, Registers(h)), id) ==
            if id != k then v
            else v.(sub := Some(Sub(p.client.unregistered[h], [], None)), known := true,
                    queue := if p.client.open then v.queue + [HandleSubscribe(k)] else v.queue)
  {
    QueueSends(p.server.waiting, p.c2s, Subscribe(p.client.nextId), id);
  }

  lemma AfterRegisters(p: Pair, h: nat)
    requires PairFits(p) && PairEnabled(p, Registers(h))
    ensures PairFits(PairStep(p, Registers(h))) && AllKeep(p, PairStep(p, Registers(h)))
  {
    var q := PairStep(p, Registers(h));
    forall id ensures Keeps(ViewOf(p, id), ViewOf(q, id), id) {
      assert Fits(ViewOf(p, id), id);
      RegistersView(p, h, id);
    }
  }

  /** A driven subscription: its own view changes as `Driven`, no other one does. */
  lemma DriveSubViews(p: Pair, k: Id, e: Iterators.Event<int>, id: Id)
    requires k in p.client.subs && Iterators.Enabled(p.client.subs[k].it, e)
    ensures ViewOf(DriveSub(p, k, e), id) ==
            if id == k then Driven(ViewOf(p, k), k, p.client.subs[k].(it := Drive(p.client.subs[k].it, e))) else ViewOf(p, id)
  {
    WithIterator(p, k, Drive(p.client.subs[k].it, e), id);
  }

  function Replace(p: Pair, k: Id, it: Iterator): Pair
    requires k in p.client.subs
  {
    var sub := p.client.subs[k];
    p.(client := p.client.(subs := p.client.subs[k := sub.(it := it)]),
       c2s := if it.teardowns > sub.it.teardowns && p.client.open then p.c2s + [ClientComplete(k)] else p.c2s)
  }

  lemma WithIterator(p: Pair, k: Id, it: Iterator, id: Id)
    requires k in p.client.subs
    ensures ViewOf(Replace(p, k, it), id) == if id == k then Driven(ViewOf(p, k), k, p.client.subs[k].(it := it)) else ViewOf(p, id)
  {
    QueueSends(p.server.waiting, p.c2s, ClientComplete(k), id);
    var q, sub := Replace(p, k, it), p.client.subs[k].(it := it);
    assert q.client.subs == p.client.subs[k := sub];
    assert ViewOf(q, id) == ViewOf(p, id).(queue := QueueFor(p.server.waiting, q.c2s, id),
                                           sub := if id in q.client.subs then Some(q.client.subs[id]) else None);
  }

  lemma AfterDrives(p: Pair, k: Id, e: Iterators.Event<int>)
    requires PairFits(p) && PairEnabled(p, Drives(k, e))
    ensures PairFits(PairStep(p, Drives(k, e))) && AllKeep(p, PairStep(p, Drives(k, e)))
  {
    var q := PairStep(p, Drives(k, e));
    assert ViewOf(p, k).sub == Some(p.client.subs[k]);
    forall id ensures Keeps(ViewOf(p, id), ViewOf(q, id), id) {
      DriveSubViews(p, k, e, id);
      assert Fits(ViewOf(p, id), id);
      if id == k {
        ConsumerFits(ViewOf(p, k), k, e);
      }
    }
    DriveSubRest(p, k, e);
  }

  /** Driving a subscription leaves the rest of the invariant alone. */
  lemma DriveSubRest(p: Pair, k: Id, e: Iterators.Event<int>)
    requires k in p.client.subs && Iterators.Enabled(p.client.subs[k].it, e)
    requires Ordered(BookOf(p.server)) && AckFits(p) && IdsFit(p.client)
    ensures var q := DriveSub(p, k, e); Ordered(BookOf(q.server)) && AckFits(q) && IdsFit(q.client)
  {
    assert DriveSub(p, k, e).client.subs.Keys == p.client.subs.Keys;
  }

  lemma ReceivesAck(p: Pair)
    requires PairFits(p) && PairEnabled(p, ClientReceives) && p.s2c[0] == ConnectionAck
    ensures PairFits(ClientReceive(p)) && AllKeep(p, ClientReceive(p))
  {
    var q := ClientReceive(p);
    forall id ensures Keeps(ViewOf(p, id), ViewOf(q, id), id) {
      assert Fits(ViewOf(p, id), id);
      assert ViewOf(q, id) == ViewOf(p, id);
    }
  }

  lemma MailHead(p: Pair, k: Id)
    requires p.s2c != [] && MailFor(p.s2c[0], k) && Fits(ViewOf(p, k), k)
    ensures ViewOf(p, k).mail == [p.s2c[0]] + MailOf(p.s2c[1..], k)
    ensures k in p.client.subs
  {
  }

  /** The head of the mail is handed to the iterator. */
  lemma ReceivesView(p: Pair, k: Id, id: Id)
    requires p.s2c != [] && MailFor(p.s2c[0], k) && k in p.client.subs && k in p.client.subscriptions
    requires Fits(ViewOf(p, k), k) && Fits(ViewOf(p, id), id)
    ensures Keeps(ViewOf(p, id), ViewOf(ClientReceive(p), id), id)
  {
    MailHead(p, k);
    HeadKeeps(ViewOf(p, k), k, p.s2c[0]);
    ReceiveViews(p, k, id);
  }

  lemma HeadKeeps(v: View, k: Id, m: ServerMessage)
    requires Fits(v, k) && v.sub.Some? && v.known && v.mail != [] && v.mail[0] == m && MailFor(m, k)
    ensures Keeps(v, HeadReceived(v, k, v.sub.value, m), k)
  {
    match m
    case Next(_, data) => NextDelivered(v, k, data);
    case End(_, terminal) => EndDelivered(v, k, terminal);
  }

  lemma ReceiveViews(p: Pair, k: Id, id: Id)
    requires p.s2c != [] && MailFor(p.s2c[0], k) && k in p.client.subs && k in p.client.subscriptions
    ensures ViewOf(ClientReceive(p), id) == if id == k then HeadReceived(ViewOf(p, k), k, p.client.subs[k], p.s2c[0]) else ViewOf(p, id)
  {
    var sub, m := p.client.subs[k], p.s2c[0];
    var q := p.(s2c := p.s2c[1..], client := p.client.(subs := p.client.subs[k := Recorded(sub, m)]));
    DriveSubViews(q, k, EventOf(m), id);
    TailView(p, q, k, id);
  }

  function HeadReceived(v: View, k: Id, sub: Sub, m: ServerMessage): View
    requires v.sub.Some? && v.mail != [] && !m.ConnectionAck?
  {
    Driven(v.(mail := v.mail[1..]), k, Recorded(sub, m).(it := Drive(sub.it, EventOf(m))))
  }

  lemma TailView(p: Pair, q: Pair, k: Id, id: Id)
    requires p.s2c != [] && MailFor(p.s2c[0], k) && k in p.client.subs && k in q.client.subs
    requires q == p.(s2c := p.s2c[1..], client := p.client.(subs := p.client.subs[k := q.client.subs[k]]))
    ensures ViewOf(q, id) ==
            if id == k then ViewOf(p, k).(mail := ViewOf(p, k).mail[1..], sub := Some(q.client.subs[k])) else ViewOf(p, id)
  {
    if id == k {
      assert MailOf(p.s2c, k) == [p.s2c[0]] + MailOf(p.s2c[1..], k);
    }
  }

  /** A message for an id that the client does not know. */
  lemma RefusesView(p: Pair, k: Id, id: Id)
    requires p.s2c != [] && MailFor(p.s2c[0], k) && k !in p.client.subscriptions && Fits(ViewOf(p, id), id)
    ensures Keeps(ViewOf(p, id), ViewOf(ClientReceive(p), id), id)
  {
    var q, v := ClientReceive(p), ViewOf(p, id);
    assert q == p.(client := ClientClose(p.client, 4409), s2c := p.s2c[1..]);
    if id == k {
      assert v.mail == [p.s2c[0]] + MailOf(p.s2c[1..], k);
      assert ViewOf(q, id) == v.(cOpen := q.client.open, mail := v.mail[1..]);
      DropFits(v, ViewOf(q, id), id);
    } else {
      assert ViewOf(q, id) == v.(cOpen := q.client.open);
      CloseFits(v, ViewOf(q, id), id);
    }
  }

  lemma AfterClientReceives(p: Pair)
    requires PairFits(p) && PairEnabled(p, ClientReceives)
    ensures PairFits(PairStep(p, ClientReceives)) && AllKeep(p, PairStep(p, ClientReceives))
  {
    if p.s2c[0] == ConnectionAck {
      ReceivesAck(p);
    } else {
      var k, q := p.s2c[0].id, ClientReceive(p);
      assert Fits(ViewOf(p, k), k);
      forall id ensures Keeps(ViewOf(p, id), ViewOf(q, id), id) {
        assert Fits(ViewOf(p, id), id);
        if k in p.client.subscriptions {
          ReceivesView(p, k, id);
        } else {
          RefusesView(p, k, id);
        }
      }
      if k in p.client.subscriptions {
        ReceiveRest(p, k);
      }
    }
  }

  lemma ReceiveRest(p: Pair, k: Id)
    requires p.s2c != [] && MailFor(p.s2c[0], k) && k in p.client.subs && k in p.client.subscriptions
    requires Ordered(BookOf(p.server)) && AckFits(p) && IdsFit(p.client)
    ensures var q := ClientReceive(p);
            && Ordered(BookOf(q.server)) && AckFits(q) && IdsFit(q.client) && q.server == p.server
            && q.client.closedWith == p.client.closedWith && q.client.unregistered == p.client.unregistered
  {
    var sub := p.client.subs[k];
    match p.s2c[0]
    case Next(_, data) =>
      var q := p.(s2c := p.s2c[1..], client := p.client.(subs := p.client.subs[k := sub.(delivered := sub.delivered + [data])]));
      DriveSubRest(q, k, Iterators.Push(data));
    case End(_, terminal) =>
      var q := p.(s2c := p.s2c[1..], client := p.client.(subs := p.client.subs[k := sub.(ended := Some(terminal))]));
      DriveSubRest(q, k, if terminal == Error then Iterators.Throw(Iterators.Error(0, true)) else Iterators.Finish);
  }

  lemma SoleStream(streams: seq<Stream>, k: Id, i: nat)
    requires |StreamsFor(streams, k)| <= 1 && i < |streams| && streams[i].id == k
    ensures StreamsFor(streams, k) == [streams[i]]
  {
    StreamsForHolds(streams, k, i);
  }

  lemma SilentServer(p: Pair, k: Id)
    requires ClientHasAll(p, k) && |StreamsFor(p.server.streams, k)| <= 1
    ensures ViewOf(p, k).mail == [] && ServerSilent(ViewOf(p, k))
  {
    NoMail(p.s2c, k);
    if p.server.open {
      var i :| 0 <= i < |p.server.streams| && p.server.streams[i].id == k && Over(p.server.streams[i].phase);
      SoleStream(p.server.streams, k, i);
    }
  }

  lemma LingerView(p: Pair, k: Id, id: Id)
    requires PairEnabled(p, ClientLingerFires(k)) && Fits(ViewOf(p, id), id)
    ensures Fits(ViewOf(PairStep(p, ClientLingerFires(k)), id), id)
    ensures id != k || ClientHasAll(p, k) ==> Keeps(ViewOf(p, id), ViewOf(PairStep(p, ClientLingerFires(k)), id), id)
  {
    var q := PairStep(p, ClientLingerFires(k));
    if id == k {
      if ClientHasAll(p, k) {
        SilentServer(p, k);
      }
      ClientLingerFits(ViewOf(p, k), k);
      assert ViewOf(q, k) == ViewOf(p, k).(known := false);
    } else {
      assert ViewOf(q, id) == ViewOf(p, id);
    }
  }

  lemma AfterClientLinger(p: Pair, k: Id)
    requires PairFits(p) && PairEnabled(p, ClientLingerFires(k))
    ensures PairFits(PairStep(p, ClientLingerFires(k)))
    ensures ClientHasAll(p, k) ==> AllKeep(p, PairStep(p, ClientLingerFires(k)))
    ensures forall id | id != k :: Keeps(ViewOf(p, id), ViewOf(PairStep(p, ClientLingerFires(k)), id), id)
  {
    var q := PairStep(p, ClientLingerFires(k));
    forall id ensures Fits(ViewOf(q, id), id) && (ClientHasAll(p, k) || id != k ==> Keeps(ViewOf(p, id), ViewOf(q, id), id)) {
      assert Fits(ViewOf(p, id), id);
      LingerView(p, k, id);
    }
  }

  lemma AfterClientCloses(p: Pair, code: int)
    requires PairFits(p) && PairEnabled(p, ClientCloses(code))
    ensures PairFits(PairStep(p, ClientCloses(code))) && AllKeep(p, PairStep(p, ClientCloses(code)))
  {
    var q := PairStep(p, ClientCloses(code));
    forall id ensures Keeps(ViewOf(p, id), ViewOf(q, id), id) {
      assert Fits(ViewOf(p, id), id);
      assert ViewOf(q, id) == ViewOf(p, id).(cOpen := q.client.open);
      CloseFits(ViewOf(p, id), ViewOf(q, id), id);
    }
  }

  lemma ClientEndsView(p: Pair, code: int, id: Id)
    requires Fits(ViewOf(p, id), id)
    ensures Keeps(ViewOf(p, id), ViewOf(p.(client := ClientEnd(p.client, code)), id), id)
  {
    var q := p.(client := ClientEnd(p.client, code));
    var v, w := ViewOf(p, id), ViewOf(p, id).(cOpen := false);
    CloseFits(v, w, id);
    if id in p.client.subs && id in p.client.subscriptions {
      ThrowFits(w, id, ClosingError());
      assert ViewOf(q, id) == Driven(w, id, w.sub.value.(it := Drive(w.sub.value.it, Iterators.Throw(ClosingError()))));
    } else {
      assert ViewOf(q, id) == w;
    }
  }

  lemma AfterClientEnds(p: Pair, code: int)
    requires PairFits(p) && PairEnabled(p, ClientSocketEnds(code))
    ensures PairFits(PairStep(p, ClientSocketEnds(code))) && AllKeep(p, PairStep(p, ClientSocketEnds(code)))
  {
    forall id ensures Keeps(ViewOf(p, id), ViewOf(PairStep(p, ClientSocketEnds(code)), id), id) {
      assert Fits(ViewOf(p, id), id);
      ClientEndsView(p, code, id);
    }
    assert ClientEnd(p.client, code).subs.Keys == p.client.subs.Keys;
  }

  // ----- server steps -----

  lemma EmitQuiet(actions: seq<Action>, streams: seq<Stream>, id: Id)
    requires forall a | a in actions :: !IsData(a)
    ensures MailOf(Emit(actions, streams), id) == []
    ensures ConnectionAck in Emit(actions, streams) <==> AckSent in actions
  {
    if actions != [] {
      EmitQuiet(actions[1..], streams, id);
      assert !IsData(actions[0]);
      assert Emit(actions, streams) == (if actions[0] == AckSent then [ConnectionAck] else []) + Emit(actions[1..], streams);
      MailOfConcat(if actions[0] == AckSent then [ConnectionAck] else [], Emit(actions[1..], streams), id);
    }
  }

  function Suffix(before: seq<Action>, after: seq<Action>): seq<Action> {
    if |before| <= |after| then after[|before|..] else []
  }

  /** A step that only closes, and perhaps acknowledges. */
  lemma QuietMail(p: Pair, e: Event, id: Id)
    requires Enabled(p.server, e) && NoData(p.server.log, Step(p.server, e).log)
    ensures MailOf(ServerStep(p, e).s2c, id) == MailOf(p.s2c, id)
    ensures ConnectionAck in ServerStep(p, e).s2c <==>
            ConnectionAck in p.s2c || AckSent in Suffix(p.server.log, Step(p.server, e).log)
  {
    var t := Step(p.server, e);
    var actions := Suffix(p.server.log, t.log);
    forall a | a in actions ensures !IsData(a) {
      var k :| 0 <= k < |actions| && actions[k] == a;
      assert t.log[|p.server.log| + k] == a;
    }
    EmitQuiet(actions, t.streams, id);
    MailOfConcat(p.s2c, Emit(actions, t.streams), id);
  }

  lemma ClosesView(p: Pair, e: Event, id: Id)
    requires Enabled(p.server, e) && !MovesStream(e) && !e.HandlerContinues? && !e.Receives?
    requires Fits(ViewOf(p, id), id)
    ensures Keeps(ViewOf(p, id), ViewOf(ServerStep(p, e), id), id)
  {
    var q := ServerStep(p, e);
    StepCloses(p.server, e);
    QuietMail(p, e, id);
    assert q.server.waiting == p.server.waiting;
    assert ViewOf(q, id) == ViewOf(p, id).(sOpen := q.server.open);
    CloseFits(ViewOf(p, id), ViewOf(q, id), id);
  }

  lemma MovesEmits(b: Book, c: Book, i: nat, after: Stream, message: Option<Action>)
    requires Moves(b, c, i, after, message)
    ensures Emit(Suffix(b.log, c.log), c.streams) == Sent(after.id, message)
  {
    if message.Some? {
      assert Suffix(b.log, c.log) == [message.value];
      assert Emit([message.value], c.streams) == Sent(after.id, message) + Emit([], c.streams);
    } else {
      assert Suffix(b.log, c.log) == [];
    }
  }

  lemma MailOfSent(k: Id, message: Option<Action>, id: Id)
    ensures MailOf(Sent(k, message), id) == if k == id then Sent(id, message) else []
    ensures ConnectionAck !in Sent(k, message)
  {
  }

  lemma MovesMail(p: Pair, e: Event, after: Stream, message: Option<Action>, id: Id)
    requires Enabled(p.server, e) && MovesStream(e)
    requires Moves(BookOf(p.server), BookOf(Step(p.server, e)), e.stream, after, message)
    ensures MailOf(ServerStep(p, e).s2c, id) ==
            MailOf(p.s2c, id) + (if after.id == id then Sent(id, message) else [])
    ensures ConnectionAck in ServerStep(p, e).s2c <==> ConnectionAck in p.s2c
  {
    MovesEmits(BookOf(p.server), BookOf(Step(p.server, e)), e.stream, after, message);
    assert ServerStep(p, e).s2c == p.s2c + Sent(after.id, message);
    MailOfConcat(p.s2c, Sent(after.id, message), id);
    MailOfSent(after.id, message, id);
  }

  /** The entry of the id of a stream that moves. */
  lemma MovesEntry(b: Book, c: Book, i: nat, after: Stream, message: Option<Action>, id: Id)
    requires Moves(b, c, i, after, message)
    ensures after.id != id ==> (id in c.subscriptions <==> id in b.subscriptions)
    ensures after.id == id && id in b.subscriptions ==> (id in c.subscriptions <==> after.phase != Forgotten)
  {
  }

  lemma MovesViewIs(p: Pair, e: Event, after: Stream, message: Option<Action>, id: Id)
    requires Enabled(p.server, e) && MovesStream(e)
    requires Moves(BookOf(p.server), BookOf(Step(p.server, e)), e.stream, after, message)
    requires |StreamsFor(p.server.streams, after.id)| <= 1
    requires after.id == id ==> StreamFitsView(ViewOf(p, id), id)
    ensures after.id == id ==> ViewOf(p, id).streams == [p.server.streams[e.stream]]
    ensures var v := ViewOf(p, id);
            ViewOf(ServerStep(p, e), id) == if after.id == id then Moved(v, id, after, message) else v
  {
    var q, v := ServerStep(p, e), ViewOf(p, id);
    MovesMail(p, e, after, message, id);
    StreamsForUpdate(p.server.streams, e.stream, after, id);
    MovesKeepsQueue(p.server, e);
    MovesEntry(BookOf(p.server), BookOf(q.server), e.stream, after, message, id);
    assert q.server.streams == p.server.streams[e.stream := after];
    assert ViewOf(q, id) == v.(streams := StreamsFor(q.server.streams, id), entry := id in q.server.subscriptions,
                               mail := MailOf(q.s2c, id));
    if after.id == id {
      assert v.streams[0] == p.server.streams[e.stream] && v.entry;
    }
  }

  lemma MovesKeepsQueue(s: Server, e: Event)
    requires Enabled(s, e) && MovesStream(e)
    ensures var t := Step(s, e);
            && t.waiting == s.waiting && t.open == s.open && t.initPayload == s.initPayload && t.acknowledged == s.acknowledged
            && t.acknowledging == s.acknowledging && t.closedWith == s.closedWith
  {
  }

  lemma MovesView(p: Pair, e: Event, after: Stream, message: Option<Action>, id: Id)
    requires Enabled(p.server, e) && MovesStream(e)
    requires Moves(BookOf(p.server), BookOf(Step(p.server, e)), e.stream, after, message)
    requires Fits(ViewOf(p, id), id) && |StreamsFor(p.server.streams, after.id)| <= 1
    requires StreamFits(p.server.open, p.server.streams[e.stream])
    ensures Fits(ViewOf(ServerStep(p, e), id), id)
    ensures (after.id == id && after.phase == Forgotten ==>
               id in p.client.subs && ViewOf(p, id).queue == [] && ClientSilent(p.client.open, p.client.subs[id])) ==>
            Keeps(ViewOf(p, id), ViewOf(ServerStep(p, e), id), id)
  {
    if after.id == id {
      StreamsForUpdate(p.server.streams, e.stream, after, id);
      assert ViewOf(p, id).streams == [p.server.streams[e.stream]] && ViewOf(p, id).sub.Some?;
    }
    MovesViewIs(p, e, after, message, id);
    if after.id == id {
      StreamMoves(ViewOf(p, id), id, e.stream, after, message);
      if InTime(ViewOf(p, id)) && (after.phase == Forgotten ==> ViewOf(p, id).queue == [] && ClientSilent(p.client.open, p.client.subs[id])) {
        StreamInTime(ViewOf(p, id), id, e.stream, after, message);
      }
    }
  }

  lemma StreamsForAppend(streams: seq<Stream>, new': Stream, id: Id)
    ensures StreamsFor(streams + [new'], id) == StreamsFor(streams, id) + (if new'.id == id then [new'] else [])
  {
    assert (streams + [new'])[..|streams|] == streams;
  }

  lemma QueuePops(waiting: seq<Handler>, c2s: seq<ClientMessage>, id: Id)
    requires waiting != []
    ensures waiting[0].id == id ==> QueueFor(waiting, c2s, id) == [waiting[0]] + QueueFor(waiting[1..], c2s, id)
    ensures waiting[0].id != id ==> QueueFor(waiting, c2s, id) == QueueFor(waiting[1..], c2s, id)
  {
    var head := if waiting[0].id == id then [waiting[0]] else [];
    assert WaitingFor(waiting, id) == head + WaitingFor(waiting[1..], id);
    Regroups(head, WaitingFor(waiting[1..], id), SentFor(c2s, id));
  }

  lemma SubscribeView(p: Pair, id: Id)
    requires p.server.initPayload.Resolved? && p.server.waiting != [] && p.server.waiting[0].HandleSubscribe?
    requires p.server.waiting[0].id !in p.server.subscriptions
    ensures var k, v := p.server.waiting[0].id, ViewOf(p, id);
            ViewOf(ServerStep(p, HandlerContinues), id) ==
            if id == k then
              v.(queue := v.queue[1..], entry := true, streams := v.streams + [Stream(k, Subscribing, [], [], None)])
            else v
    ensures ServerStep(p, HandlerContinues).s2c == p.s2c
  {
    var t := Step(p.server, HandlerContinues);
    var k := p.server.waiting[0].id;
    StreamsForAppend(p.server.streams, Stream(k, Subscribing, [], [], None), id);
    assert Suffix(p.server.log, t.log) == [SubscribeCalled(|p.server.streams|, p.server.initPayload.payload)];
    assert Emit(Suffix(p.server.log, t.log), t.streams) == [] + Emit([], t.streams);
    assert p.s2c + [] == p.s2c;
    assert ServerStep(p, HandlerContinues).s2c == p.s2c;
    HandlerQueue(p, id);
    var v := ViewOf(p, id);
    assert t.open == p.server.open;
    assert t.subscriptions == p.server.subscriptions[k := |p.server.streams|];
    assert ViewOf(ServerStep(p, HandlerContinues), id) ==
           v.(queue := QueueFor(t.waiting, p.c2s, id), streams := StreamsFor(t.streams, id), entry := id in t.subscriptions);
  }

  /** The handler in front is the id's next message, if it is for that id at all. */
  lemma HandlerQueue(p: Pair, id: Id)
    requires p.server.initPayload.Resolved? && p.server.waiting != []
    ensures var t, queue := Step(p.server, HandlerContinues), ViewOf(p, id).queue;
            && t.waiting == p.server.waiting[1..]
            && QueueFor(t.waiting, p.c2s, id) == if p.server.waiting[0].id == id then queue[1..] else queue
  {
    QueuePops(p.server.waiting, p.c2s, id);
  }

  lemma CompleteView(p: Pair, id: Id)
    requires p.server.initPayload.Resolved? && p.server.waiting != [] && p.server.waiting[0].HandleComplete?
    ensures var k, v, t := p.server.waiting[0].id, ViewOf(p, id), Step(p.server, HandlerContinues);
            && (t.open ==> p.server.open) && (k in p.server.subscriptions ==> t.open == p.server.open)
            && ViewOf(ServerStep(p, HandlerContinues), id) == v.(sOpen := t.open, queue := if id == k then v.queue[1..] else v.queue)
    ensures ServerStep(p, HandlerContinues).s2c == p.s2c
  {
    var t := Step(p.server, HandlerContinues);
    HandlerQueue(p, id);
    assert Suffix(p.server.log, t.log) == [];
    assert p.s2c + [] == p.s2c;
    assert ServerStep(p, HandlerContinues).s2c == p.s2c;
    assert t.streams == p.server.streams && t.subscriptions == p.server.subscriptions;
    assert ViewOf(ServerStep(p, HandlerContinues), id) ==
           ViewOf(p, id).(sOpen := t.open, queue := QueueFor(t.waiting, p.c2s, id));
  }

  /** `subscribe` is never refused; `complete` is, once the server has forgotten the id. */
  lemma HandlerEntry(p: Pair)
    requires p.server.waiting != [] && Fits(ViewOf(p, p.server.waiting[0].id), p.server.waiting[0].id)
    ensures p.server.waiting[0].HandleSubscribe? ==> p.server.waiting[0].id !in p.server.subscriptions
    ensures p.server.waiting[0].HandleComplete? && InTime(ViewOf(p, p.server.waiting[0].id)) ==>
            p.server.waiting[0].id in p.server.subscriptions
  {
    var k := p.server.waiting[0].id;
    var v := ViewOf(p, k);
    assert v.queue[0] == p.server.waiting[0];
    if p.server.waiting[0].HandleSubscribe? {
      SubscribeHandled(v, k);
    } else {
      CompleteHandled(v, v.(queue := v.queue[1..]), k);
    }
  }

  lemma HandlerView(p: Pair, id: Id)
    requires p.server.initPayload.Resolved? && p.server.waiting != []
    requires p.server.waiting[0].HandleSubscribe? ==> p.server.waiting[0].id !in p.server.subscriptions
    requires Fits(ViewOf(p, id), id)
    ensures Keeps(ViewOf(p, id), ViewOf(ServerStep(p, HandlerContinues), id), id)
  {
    if p.server.waiting[0].HandleSubscribe? {
      SubscribeView(p, id);
      if id == p.server.waiting[0].id {
        SubscribeHandled(ViewOf(p, id), id);
      }
    } else {
      CompleteKeeps(p, id);
    }
  }

  lemma CompleteKeeps(p: Pair, id: Id)
    requires p.server.initPayload.Resolved? && p.server.waiting != [] && p.server.waiting[0].HandleComplete?
    requires Fits(ViewOf(p, id), id)
    ensures Keeps(ViewOf(p, id), ViewOf(ServerStep(p, HandlerContinues), id), id)
  {
    var v, w := ViewOf(p, id), ViewOf(ServerStep(p, HandlerContinues), id);
    CompleteView(p, id);
    if id == p.server.waiting[0].id {
      assert v.queue[0] == p.server.waiting[0];
      CompleteHandled(v, w, id);
    } else {
      CloseFits(v, w, id);
    }
  }

  lemma StepKeepsAck(s: Server, e: Event)
    requires Enabled(s, e) && !e.Receives?
    requires AckPending(s)
    ensures var t := Step(s, e);
            && (s.initPayload.Resolved? ==> t.initPayload == s.initPayload) && (s.acknowledged ==> t.acknowledged)
            && AckPending(t)
            && (t.waiting != [] ==> s.waiting != [])
  {
  }

  lemma AckOnlyOnSuccess(s: Server, e: Event)
    requires Enabled(s, e) && !MovesStream(e) && AckSent in Suffix(s.log, Step(s, e).log)
    requires AckPending(s)
    ensures Step(s, e).initPayload.Resolved? && Step(s, e).acknowledged
  {
    var log := Step(s, e).log;
    var k :| 0 <= k < |Suffix(s.log, log)| && Suffix(s.log, log)[k] == AckSent;
    assert log[|s.log| + k] == AckSent;
  }

  lemma ServerAck(p: Pair, e: Event)
    requires AckFits(p) && Enabled(p.server, e) && !e.Receives? && StreamsFit(p.server.open, p.server.streams)
    requires e.HandlerContinues? ==> ServerStep(p, e).s2c == p.s2c
    ensures AckFits(ServerStep(p, e))
  {
    StepKeepsAck(p.server, e);
    if MovesStream(e) {
      var after, message := StepMoves(p.server, e);
      MovesMail(p, e, after, message, 0);
    } else if !e.HandlerContinues? {
      StepCloses(p.server, e);
      QuietMail(p, e, 0);
      if AckSent in Suffix(p.server.log, Step(p.server, e).log) {
        AckOnlyOnSuccess(p.server, e);
      }
    }
  }

  lemma ServerOrdered(s: Server, e: Event)
    requires Enabled(s, e) && Ordered(BookOf(s))
    ensures Ordered(BookOf(Step(s, e)))
  {
    StepEffect(s, e);
    EffectOrdered(BookOf(s), BookOf(Step(s, e)));
  }

  lemma AfterHandler(p: Pair)
    requires PairFits(p) && PairEnabled(p, ServerSteps(HandlerContinues))
    ensures PairFits(PairStep(p, ServerSteps(HandlerContinues))) && AllKeep(p, PairStep(p, ServerSteps(HandlerContinues)))
  {
    assert Fits(ViewOf(p, p.server.waiting[0].id), p.server.waiting[0].id);
    HandlerEntry(p);
    forall id ensures Keeps(ViewOf(p, id), ViewOf(ServerStep(p, HandlerContinues), id), id) {
      assert Fits(ViewOf(p, id), id);
      HandlerView(p, id);
    }
    if p.server.waiting[0].HandleSubscribe? {
      SubscribeView(p, 0);
    } else {
      CompleteView(p, 0);
    }
    ServerAck(p, HandlerContinues);
    ServerOrdered(p.server, HandlerContinues);
  }

  lemma AfterServerSteps(p: Pair, e: Event)
    requires PairFits(p) && PairEnabled(p, ServerSteps(e)) && !e.HandlerContinues? && !MovesStream(e)
    ensures PairFits(PairStep(p, ServerSteps(e))) && AllKeep(p, PairStep(p, ServerSteps(e)))
  {
    forall id ensures Keeps(ViewOf(p, id), ViewOf(ServerStep(p, e), id), id) {
      assert Fits(ViewOf(p, id), id);
      ClosesView(p, e, id);
    }
    ServerAck(p, e);
    ServerOrdered(p.server, e);
  }

  lemma ForgetsSilently(p: Pair, k: Id)
    requires ServerHasAll(p, k)
    ensures k in p.client.subs && ViewOf(p, k).queue == [] && ClientSilent(p.client.open, p.client.subs[k])
  {
    NoMention(p, k);
  }

  lemma AfterStreamMoves(p: Pair, e: Event)
    requires PairFits(p) && PairEnabled(p, ServerSteps(e)) && MovesStream(e)
    ensures PairFits(PairStep(p, ServerSteps(e))) && (Patient(p, ServerSteps(e)) ==> AllKeep(p, PairStep(p, ServerSteps(e))))
    ensures forall id | id != p.server.streams[e.stream].id :: Keeps(ViewOf(p, id), ViewOf(PairStep(p, ServerSteps(e)), id), id)
  {
    var after, message := StepMoves(p.server, e);
    var k := p.server.streams[e.stream].id;
    assert Fits(ViewOf(p, k), k);
    StreamsForHolds(p.server.streams, k, e.stream);
    if e.LingerFires? && ServerHasAll(p, k) {
      ForgetsSilently(p, k);
    }
    var q := ServerStep(p, e);
    forall id ensures Fits(ViewOf(q, id), id) && (Patient(p, ServerSteps(e)) || id != k ==> Keeps(ViewOf(p, id), ViewOf(q, id), id)) {
      assert Fits(ViewOf(p, id), id);
      MovesView(p, e, after, message, id);
    }
    ServerAck(p, e);
    ServerOrdered(p.server, e);
  }

  // ----- the server receives -----

  /** A received message is queued for its handler, or acknowledged. */
  lemma Received(s: Server, m: ClientMessage)
    requires m.ConnectionInit? || (s.acknowledged && (m.Subscribe? || m.ClientComplete?))
    ensures var t := Receive(s, m);
            && t.streams == s.streams && t.subscriptions == s.subscriptions
            && NoData(s.log, t.log) && (t.open ==> s.open)
            && t.waiting == (match m
                             case ConnectionInit(_) => s.waiting
                             case Subscribe(id) => s.waiting + [HandleSubscribe(id)]
                             case ClientComplete(id) => s.waiting + [HandleComplete(id)]
                             case Invalid => [])
  {
  }

  /** The id's queue stays as it is. */
  lemma ReceivedQueue(waiting: seq<Handler>, c2s: seq<ClientMessage>, id: Id)
    requires c2s != [] && !c2s[0].Invalid?
    ensures QueueFor(match c2s[0]
                     case ConnectionInit(_) => waiting
                     case Subscribe(k) => waiting + [HandleSubscribe(k)]
                     case ClientComplete(k) => waiting + [HandleComplete(k)]
                     case Invalid => [], c2s[1..], id) == QueueFor(waiting, c2s, id)
  {
    if !c2s[0].ConnectionInit? {
      WaitingForAppend(waiting, if c2s[0].Subscribe? then HandleSubscribe(c2s[0].id) else HandleComplete(c2s[0].id), id);
    }
  }

  lemma ReceivedViewIs(p: Pair, id: Id)
    requires p.c2s != [] && AckFits(p)
    ensures var q := PairStep(p, ServerReceives);
            (q.server.open ==> p.server.open) && ViewOf(q, id) == ViewOf(p, id).(sOpen := q.server.open)
  {
    var q, m := PairStep(p, ServerReceives), p.c2s[0];
    assert m in p.c2s;
    ReceivedMail(p, id);
    Received(p.server, m);
    ReceivedQueue(p.server.waiting, p.c2s, id);
    assert q.server == Receive(p.server, m) && q.c2s == p.c2s[1..] && q.client == p.client;
  }

  lemma ReceivedMail(p: Pair, id: Id)
    requires p.c2s != [] && AckFits(p)
    ensures MailOf(PairStep(p, ServerReceives).s2c, id) == MailOf(p.s2c, id)
  {
    assert p.c2s[0] in p.c2s;
    Received(p.server, p.c2s[0]);
    QuietMail(p.(c2s := p.c2s[1..]), Receives(p.c2s[0]), id);
  }

  lemma ReceivedView(p: Pair, id: Id)
    requires p.c2s != [] && Fits(ViewOf(p, id), id) && AckFits(p)
    ensures Keeps(ViewOf(p, id), ViewOf(PairStep(p, ServerReceives), id), id)
  {
    ReceivedViewIs(p, id);
    CloseFits(ViewOf(p, id), ViewOf(PairStep(p, ServerReceives), id), id);
  }

  lemma ReceivedAck(p: Pair)
    requires p.c2s != [] && AckFits(p)
    ensures AckFits(PairStep(p, ServerReceives))
  {
    var tail := p.(c2s := p.c2s[1..]);
    var t := Step(p.server, Receives(p.c2s[0]));
    QuietMail(tail, Receives(p.c2s[0]), 0);
    assert AckSent !in Suffix(p.server.log, t.log);
  }

  lemma AfterServerReceives(p: Pair)
    requires PairFits(p) && PairEnabled(p, ServerReceives)
    ensures PairFits(PairStep(p, ServerReceives)) && AllKeep(p, PairStep(p, ServerReceives))
  {
    forall id ensures Keeps(ViewOf(p, id), ViewOf(PairStep(p, ServerReceives), id), id) {
      assert Fits(ViewOf(p, id), id);
      ReceivedView(p, id);
    }
    ReceivedAck(p);
    ServerOrdered(p.server, Receives(p.c2s[0]));
  }
}
