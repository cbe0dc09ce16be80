/** src/ws/GraphQLClientWebSocket.ts talking to a server socket over two reliable FIFO channels. */
module SocketPairs {
  import opened GraphQLAst
  import opened ServerSockets
  import Iterators = PushIterators
  import opened ClientIterators

  /** A registered subscription: its iterator, and what has been handled for it. */
  datatype Sub = Sub(it: Iterator, delivered: seq<Data>, ended: Option<Terminal>)

  /**
    `unregistered`: iterators that have no id yet, by handle. `subs`: the others, by id. `subscriptions`: the ids that
    are still in the client's map. `gone`: the close event has fired.
   */
  datatype Client = Client(
    open: bool,
    gone: bool,
    started: bool,
    ack: Deferred,
    nextId: Id,
    unregistered: map<nat, Iterator>,
    subs: map<Id, Sub>,
    subscriptions: set<Id>,
    closedWith: Option<int>)

  datatype Pair = Pair(server: Server, client: Client, c2s: seq<ClientMessage>, s2c: seq<ServerMessage>)

  datatype PairEvent =
    | ClientInit(payload: Payload)
    | Subscribes(handle: nat)
    | DrivesUnregistered(handle: nat, event: Iterators.Event<int>)
    | Registers(handle: nat)
    | SetupFails(handle: nat)
    | Drives(id: Id, event: Iterators.Event<int>)
    | ClientReceives
    | ClientLingerFires(id: Id)
    | ClientCloses(code: int)
    | ClientSocketEnds(code: int)
    | ServerReceives
    | ServerSteps(step: Event)

  function InitialPair(legacy: bool): Pair {
    Pair(Initial(legacy), Client(true, false, false, Unsettled, 1, map[], map[], {}, None), [], [])
  }

  // ----- the client -----

  function ClientClose(c: Client, code: int): Client {
    if c.open then c.(open := false, closedWith := Some(code)) else c
  }

  function ClosingError(): Iterators.Error {
    Iterators.Error(-1, true)
  }

  /** One segment of a registered iterator; a teardown in it sends `complete`. */
  function DriveSub(p: Pair, id: Id, e: Iterators.Event<int>): Pair
    requires id in p.client.subs && Iterators.Enabled(p.client.subs[id].it, e)
  {
    var sub := p.client.subs[id];
    var it := Drive(sub.it, e);
    p.(client := p.client.(subs := p.client.subs[id := sub.(it := it)]),
       c2s := if it.teardowns > sub.it.teardowns && p.client.open then p.c2s + [ClientComplete(id)] else p.c2s)
  }

  /** What is recorded of a message besides what it does to the iterator. */
  function Recorded(sub: Sub, m: ServerMessage): Sub {
    match m
    case Next(_, data) => sub.(delivered := sub.delivered + [data])
    case End(_, terminal) => sub.(ended := Some(terminal))
    case ConnectionAck => sub
  }

  /** What the handler of a message does to the iterator of its id. */
  function EventOf(m: ServerMessage): Iterators.Event<int>
    requires !m.ConnectionAck?
  {
    match m
    case Next(_, data) => Iterators.Push(data)
    case End(_, terminal) => if terminal == Error then Iterators.Throw(Iterators.Error(0, true)) else Iterators.Finish
  }

  function ClientReceive(p: Pair): Pair
    requires p.s2c != []
  {
    var q, m := p.(s2c := p.s2c[1..]), p.s2c[0];
    if m.ConnectionAck? then q.(client := p.client.(ack := Settle(p.client.ack, Resolved(0))))
    else if m.id in p.client.subscriptions && m.id in p.client.subs then
      DriveSub(q.(client := p.client.(subs := p.client.subs[m.id := Recorded(p.client.subs[m.id], m)])), m.id, EventOf(m))
    else q.(client := ClientClose(p.client, 4409))
  }

  /** The close event: every subscription still in the map is thrown. */
  function ClientEnd(c: Client, code: int): Client {
    c.(open := false, gone := true, ack := Settle(c.ack, Rejected(code)),
       subs := map id | id in c.subs ::
         if id in c.subscriptions then c.subs[id].(it := Drive(c.subs[id].it, Iterators.Throw(ClosingError()))) else c.subs[id])
  }

  // ----- the server's messages -----

  function Emit(actions: seq<Action>, streams: seq<Stream>): seq<ServerMessage> {
    if actions == [] then []
    else
      (match actions[0]
       case AckSent => [ConnectionAck]
       case NextSent(i, data) => if i < |streams| then [Next(streams[i].id, data)] else []
       case EndSent(i, terminal) => if i < |streams| then [End(streams[i].id, terminal)] else []
       case _ => []) + Emit(actions[1..], streams)
  }

  function ServerStep(p: Pair, e: Event): Pair
    requires Enabled(p.server, e)
  {
    var t := Step(p.server, e);
    p.(server := t, s2c := p.s2c + Emit(if |p.server.log| <= |t.log| then t.log[|p.server.log|..] else [], t.streams))
  }

  predicate Mentions(message: ClientMessage, id: Id) {
    message == Subscribe(id) || message == ClientComplete(id)
  }

  predicate MailFor(message: ServerMessage, id: Id) {
    !message.ConnectionAck? && message.id == id
  }

  predicate PairEnabled(p: Pair, e: PairEvent) {
    match e
    case ClientInit(_) => !p.client.started
    case Subscribes(h) => h !in p.client.unregistered
    case DrivesUnregistered(h, event) =>
      && h in p.client.unregistered && (event.Next? || event.Resumes? || event.Return?)
      && Iterators.Enabled(p.client.unregistered[h], event)
    case Registers(h) => h in p.client.unregistered && p.client.unregistered[h].setup.Pending? && p.client.ack.Resolved?
    case SetupFails(h) =>
      && h in p.client.unregistered && Iterators.Enabled(p.client.unregistered[h], Iterators.SetupRejects(ClosingError()))
      && p.client.ack.Rejected?
    case Drives(id, event) =>
      && id in p.client.subs && (event.Next? || event.Resumes? || event.Return? || event == Iterators.SetupResolves(true))
      && Iterators.Enabled(p.client.subs[id].it, event)
    case ClientReceives => p.s2c != [] && !p.client.gone
    case ClientLingerFires(id) => id in p.client.subs && p.client.subs[id].it.teardowns == 1
    case ClientCloses(code) => code != 4409
    case ClientSocketEnds(_) => !p.client.gone
    case ServerReceives => p.c2s != []
    case ServerSteps(step) => !step.Receives? && Enabled(p.server, step)
  }

  function PairStep(p: Pair, e: PairEvent): Pair
    requires PairEnabled(p, e)
  {
    var c := p.client;
    match e
    case ClientInit(payload) =>
      p.(client := c.(started := true), c2s := if c.open then p.c2s + [ConnectionInit(payload)] else p.c2s)
    case Subscribes(h) => p.(client := c.(unregistered := c.unregistered[h := Iterators.Initial()]))
    case DrivesUnregistered(h, event) =>
      p.(client := c.(unregistered := c.unregistered[h := Drive(c.unregistered[h], event)]))
    case Registers(h) =>
      p.(client := c.(nextId := c.nextId + 1, unregistered := c.unregistered - {h},
                      subs := c.subs[c.nextId := Sub(c.unregistered[h], [], None)],
                      subscriptions := c.subscriptions + {c.nextId}),
         c2s := if c.open then p.c2s + [Subscribe(c.nextId)] else p.c2s)
    case SetupFails(h) =>
      p.(client := c.(unregistered := c.unregistered[h := Drive(c.unregistered[h], Iterators.SetupRejects(ClosingError()))]))
    case Drives(id, event) => DriveSub(p, id, event)
    case ClientReceives => ClientReceive(p)
    case ClientLingerFires(id) => p.(client := c.(subscriptions := c.subscriptions - {id}))
    case ClientCloses(code) => p.(client := ClientClose(c, code))
    case ClientSocketEnds(code) => p.(client := ClientEnd(c, code))
    case ServerReceives => ServerStep(p.(c2s := p.c2s[1..]), Receives(p.c2s[0]))
    case ServerSteps(step) => ServerStep(p, step)
  }

  /** The state after further events, if each was enabled when it happened. */
  function FromPair(p: Pair, events: seq<PairEvent>): Option<Pair> {
    if events == [] then Some(p)
    else
      match FromPair(p, events[..|events| - 1])
      case None => None
      case Some(q) => if PairEnabled(q, events[|events| - 1]) then Some(PairStep(q, events[|events| - 1])) else None
  }

  function RunPair(legacy: bool, events: seq<PairEvent>): Option<Pair> {
    FromPair(InitialPair(legacy), events)
  }

  // ----- linger timers that wait for the peer's last message -----

  /** The client has sent its last message: an iterator that is done tears down no more, and a socket that is not open sends nothing. */
  predicate ClientSilent(open: bool, sub: Sub) {
    !open || sub.it.done
  }

  /** The server has processed the client's last message for `id`. */
  predicate ServerHasAll(p: Pair, id: Id) {
    && id in p.client.subs && ClientSilent(p.client.open, p.client.subs[id])
    && (forall m | m in p.c2s :: !Mentions(m, id))
    && forall h | h in p.server.waiting :: h.id != id
  }

  /** The client has processed the server's last message for `id`. */
  predicate ClientHasAll(p: Pair, id: Id) {
    && (forall m | m in p.s2c :: !MailFor(m, id))
    && (!p.server.open || exists i | 0 <= i < |p.server.streams| :: p.server.streams[i].id == id && Over(p.server.streams[i].phase))
  }

  /** Not a linger timer that fires too early. */
  predicate Patient(p: Pair, e: PairEvent)
    requires PairEnabled(p, e)
  {
    match e
    case ClientLingerFires(id) => ClientHasAll(p, id)
    case ServerSteps(LingerFires(i)) => ServerHasAll(p, p.server.streams[i].id)
    case _ => true
  }

  predicate AllPatient(p: Pair, events: seq<PairEvent>)
    requires FromPair(p, events).Some?
  {
    events == [] ||
    (AllPatient(p, events[..|events| - 1]) && Patient(FromPair(p, events[..|events| - 1]).value, events[|events| - 1]))
  }
}
