/** src/ws/GraphQLWebSocketClient.ts: the one socket that concurrent `requireConnection` calls share. */
module Connections {
  import opened GraphQLAst
  import opened ReconnectDelays

  type CallId = nat

  datatype ReadyState = Connecting | Open | Closing | Closed
  datatype Ack = Pending | Acked | Failed

  datatype Socket = Socket(state: ReadyState, ack: Ack)

  /** A delay: how long it was started for, and whether it is over. */
  datatype Timer = Timer(duration: int, fired: bool)

  /** A call between its awaits; `Passed`: past the delay, not yet resumed. */
  datatype Phase = Delaying(timer: nat) | Passed | AwaitingAck(socket: nat) | Returned(socket: nat) | Threw

  /**
    `current`: the socket that `graphqlSocket` names; `timer`: the delay promise; `timers`: the delays ever started;
    `draws`: the random draws of the failures since construction or since the last success (`succeeded`).
   */
  datatype Connection = Connection(
    settings: Settings,
    sockets: seq<Socket>,
    current: Option<nat>,
    delay: int,
    timer: Option<nat>,
    timers: seq<Timer>,
    calls: map<CallId, Phase>,
    succeeded: bool,
    draws: seq<real>)

  datatype Event =
    | Requires(call: CallId)
    | TimerFires(timer: nat)
    | DelayOver(call: CallId)
    | Proceeds(call: CallId)
    | AckSettles(socket: nat, ack: Ack)
    | AckSeen(call: CallId, draw: real)
    | Advances(socket: nat, state: ReadyState)
    | ClientCloses

  function InitialConnection(settings: Settings): Connection {
    Connection(settings, [], None, 0, None, [], map[], false, [])
  }

  predicate Live(socket: Socket) {
    socket.state.Connecting? || socket.state.Open?
  }

  /** `this.graphqlSocket?.isOpenOrConnecting()` */
  predicate Connected(sockets: seq<Socket>, current: Option<nat>) {
    current.Some? && current.value < |sockets| && Live(sockets[current.value])
  }

  function Rank(state: ReadyState): nat {
    match state case Connecting => 0 case Open => 1 case Closing => 2 case Closed => 3
  }

  /** The first segment of `requireConnection`, which is that of `awaitReconnectDelay`. */
  function Required(c: Connection, call: CallId): Connection {
    if Connected(c.sockets, c.current) || c.delay == 0 then c.(calls := c.calls[call := Passed])
    else if c.timer.None? then
      c.(timer := Some(|c.timers|), timers := c.timers + [Timer(c.delay, false)], calls := c.calls[call := Delaying(|c.timers|)])
    else c.(calls := c.calls[call := Delaying(c.timer.value)])
  }

  /** After the delay: a socket is created unless the current one is live, and its acknowledgement awaited. */
  function Proceed(c: Connection, call: CallId): Connection {
    if Connected(c.sockets, c.current) then c.(calls := c.calls[call := AwaitingAck(c.current.value)])
    else c.(sockets := c.sockets + [Socket(Connecting, Pending)], current := Some(|c.sockets|),
            calls := c.calls[call := AwaitingAck(|c.sockets|)])
  }

  /** The last segment: success resets the delay, failure increases it. */
  function Finish(c: Connection, call: CallId, acked: bool, draw: real): Connection {
    if acked then
      c.(delay := c.settings.min, succeeded := true, draws := [],
         calls := c.calls[call := if c.current.Some? then Returned(c.current.value) else Threw])
    else
      c.(delay := Increased(c.settings, c.delay, draw), draws := c.draws + [draw], calls := c.calls[call := Threw])
  }

  predicate Enabled(c: Connection, e: Event) {
    match e
    case Requires(call) => call !in c.calls
    case TimerFires(t) => t < |c.timers| && !c.timers[t].fired
    case DelayOver(call) =>
      call in c.calls && c.calls[call].Delaying? && c.calls[call].timer < |c.timers| && c.timers[c.calls[call].timer].fired
    case Proceeds(call) => call in c.calls && c.calls[call].Passed?
    case AckSettles(i, ack) => i < |c.sockets| && c.sockets[i].ack.Pending? && !ack.Pending?
    case AckSeen(call, draw) =>
      && call in c.calls && c.calls[call].AwaitingAck? && c.calls[call].socket < |c.sockets|
      && !c.sockets[c.calls[call].socket].ack.Pending? && 0.0 <= draw < 1.0
    case Advances(i, state) => i < |c.sockets| && Rank(state) > Rank(c.sockets[i].state)
    case ClientCloses => true
  }

  function Step(c: Connection, e: Event): Connection
    requires Enabled(c, e)
  {
    match e
    case Requires(call) => Required(c, call)
    case TimerFires(t) => c.(timers := c.timers[t := c.timers[t].(fired := true)])
    case DelayOver(call) => c.(timer := None, calls := c.calls[call := Passed])
    case Proceeds(call) => Proceed(c, call)
    case AckSettles(i, ack) => c.(sockets := c.sockets[i := c.sockets[i].(ack := ack)])
    case AckSeen(call, draw) => Finish(c, call, c.sockets[c.calls[call].socket].ack.Acked?, draw)
    case Advances(i, state) => c.(sockets := c.sockets[i := c.sockets[i].(state := state)])
    case ClientCloses => c.(sockets := Closes(c.sockets, c.current))
  }

  function Closes(sockets: seq<Socket>, current: Option<nat>): seq<Socket> {
    if Connected(sockets, current) then sockets[current.value := sockets[current.value].(state := Closing)] else sockets
  }

  function Run(settings: Settings, events: seq<Event>): Option<Connection> {
    if events == [] then Some(InitialConnection(settings))
    else
      match Run(settings, events[..|events| - 1])
      case None => None
      case Some(c) => if Enabled(c, events[|events| - 1]) then Some(Step(c, events[|events| - 1])) else None
  }

  // ----- every interleaving -----

  /** No socket but the current one is open or connecting. */
  ghost predicate OnlyCurrent(sockets: seq<Socket>, current: Option<nat>) {
    && (current.Some? ==> current.value < |sockets|) && (sockets != [] ==> current.Some?)
    && forall i | 0 <= i < |sockets| && Live(sockets[i]) :: current == Some(i)
  }

  /** The delay is that of the failures since the last success, whatever the calls they belong to. */
  predicate DelayFits(c: Connection) {
    && c.delay == DelayAfter(c.settings, if c.succeeded then c.settings.min else 0, c.draws)
    && Draws(c.draws)
  }

  predicate CallFits(c: Connection, phase: Phase) {
    match phase
    case Delaying(t) => t < |c.timers|
    case AwaitingAck(i) => i < |c.sockets|
    case Returned(i) => i < |c.sockets| && c.succeeded
    case _ => true
  }

  /** A call that waits for a delay or for an acknowledgement waits for one that exists, so none is lost. */
  ghost predicate CallsFit(c: Connection) {
    && (forall call | call in c.calls :: CallFits(c, c.calls[call]))
    && (c.timer.Some? ==> c.timer.value < |c.timers|)
  }

  ghost predicate Fits(c: Connection) {
    OnlyCurrent(c.sockets, c.current) && DelayFits(c) && CallsFit(c)
  }

  lemma StepFits(c: Connection, e: Event)
    requires Fits(c) && Enabled(c, e)
    ensures Fits(Step(c, e)) && Step(c, e).settings == c.settings
  {
    StepOnlyCurrent(c, e);
    StepDelayFits(c, e);
    StepCallsFit(c, e);
  }

  lemma StepOnlyCurrent(c: Connection, e: Event)
    requires OnlyCurrent(c.sockets, c.current) && Enabled(c, e)
    ensures OnlyCurrent(Step(c, e).sockets, Step(c, e).current)
  {
  }

  lemma StepDelayFits(c: Connection, e: Event)
    requires DelayFits(c) && Enabled(c, e)
    ensures DelayFits(Step(c, e)) && Step(c, e).settings == c.settings
  {
    if e.AckSeen? {
      FinishDelay(c, e.call, c.sockets[c.calls[e.call].socket].ack.Acked?, e.draw);
    }
  }

  lemma FinishDelay(c: Connection, call: CallId, acked: bool, draw: real)
    requires DelayFits(c) && 0.0 <= draw < 1.0
    ensures DelayFits(Finish(c, call, acked, draw))
  {
    assert (c.draws + [draw])[..|c.draws|] == c.draws;
  }

  lemma StepCallsFit(c: Connection, e: Event)
    requires CallsFit(c) && Enabled(c, e) && OnlyCurrent(c.sockets, c.current)
    ensures CallsFit(Step(c, e))
  {
  }

  lemma {:induction false} RunFits(settings: Settings, events: seq<Event>)
    requires Run(settings, events).Some?
    ensures Fits(Run(settings, events).value) && Run(settings, events).value.settings == settings
  {
    if events != [] {
      RunFits(settings, events[..|events| - 1]);
      StepFits(Run(settings, events[..|events| - 1]).value, events[|events| - 1]);
    }
  }

  /** Of all sockets ever created, at most one is open or connecting, and it is the current one. */
  lemma SingleConnection(settings: Settings, events: seq<Event>, i: nat, j: nat)
    requires Run(settings, events).Some?
    requires var sockets := Run(settings, events).value.sockets;
             i < |sockets| && j < |sockets| && Live(sockets[i]) && Live(sockets[j])
    ensures i == j && Run(settings, events).value.current == Some(i)
  {
    RunFits(settings, events);
  }

  /** The delay before the next connection, after at least one failure in a row. */
  lemma DelayBounds(settings: Settings, n: nat, events: seq<Event>)
    requires settings.min > 0 && n >= 1 && settings.multiplier == n as real
    requires Run(settings, events).Some? && Run(settings, events).value.draws != []
    ensures var c := Run(settings, events).value;
            Least(Pow(n, |c.draws|) * settings.min, settings.max) <= c.delay < settings.max + settings.min
  {
    RunFits(settings, events);
    var c := Run(settings, events).value;
    BackOffBound(settings, n, if c.succeeded then settings.min else 0, c.draws);
  }

  /** A call that goes on awaits the acknowledgement of a live socket: the one that is there, else a new one. */
  lemma AwaitsLive(settings: Settings, events: seq<Event>, call: CallId)
    requires Run(settings, events).Some? && Enabled(Run(settings, events).value, Proceeds(call))
    ensures var c, d := Run(settings, events).value, Step(Run(settings, events).value, Proceeds(call));
            && d.current.Some? && d.current.value < |d.sockets| && Live(d.sockets[d.current.value])
            && call in d.calls && d.calls[call] == AwaitingAck(d.current.value)
            && d.sockets == if exists i :: 0 <= i < |c.sockets| && Live(c.sockets[i]) then c.sockets else c.sockets + [Socket(Connecting, Pending)]
  {
    RunFits(settings, events);
  }

  /** It returns the current socket exactly if the one that it awaited was acknowledged; otherwise it throws. */
  lemma ReturnsIff(settings: Settings, events: seq<Event>, call: CallId, draw: real)
    requires Run(settings, events).Some? && Enabled(Run(settings, events).value, AckSeen(call, draw))
    ensures var c, d := Run(settings, events).value, Step(Run(settings, events).value, AckSeen(call, draw));
            && call in d.calls && c.current.Some?
            && d.calls[call] == if c.sockets[c.calls[call].socket].ack.Acked? then Returned(c.current.value) else Threw
  {
    RunFits(settings, events);
  }

  /** The client's `close` leaves no socket open or connecting. */
  lemma CloseLeavesNone(settings: Settings, events: seq<Event>, i: nat)
    requires Run(settings, events).Some? && i < |Step(Run(settings, events).value, ClientCloses).sockets|
    ensures !Live(Step(Run(settings, events).value, ClientCloses).sockets[i])
  {
    RunFits(settings, events);
  }

  // ----- the class -----

  class GraphQLWebSocketClient {
    const settings: Settings
    var graphqlSocket: Option<nat>
    var reconnectDelay: int
    var reconnectDelayPromise: Option<nat>
    var sockets: seq<Socket>
    ghost var rest: Connection

    /** The abstract state; sockets are named by their number, and what calls await lives in `rest`. */
    ghost function Abstract(): Connection
      reads this
    {
      rest.(settings := settings, sockets := sockets, current := graphqlSocket, delay := reconnectDelay,
            timer := reconnectDelayPromise)
    }

    /** What every interleaving keeps: no socket but the current one is live, and the delay is that of the failures so far. */
    ghost predicate Valid()
      reads this
    {
      Fits(Abstract())
    }

    constructor (min: Option<int>, max: Option<int>, multiplier: Option<real>)
      ensures Valid() && settings == SettingsOf(min, max, multiplier) && Abstract() == InitialConnection(settings)
    {
      settings := SettingsOf(min, max, multiplier);
      graphqlSocket, reconnectDelay, reconnectDelayPromise, sockets := None, 0, None, [];
      rest := InitialConnection(SettingsOf(min, max, multiplier));
    }

    method IsOpenOrConnecting() returns (live: bool)
      ensures live == Connected(sockets, graphqlSocket)
    {
      live := graphqlSocket.Some? && graphqlSocket.value < |sockets| &&
              (sockets[graphqlSocket.value].state == Connecting || sockets[graphqlSocket.value].state == Open);
    }

    /** `requireConnection` up to its first await; `timer` stands for the promise of a new delay. */
    method AwaitReconnectDelay(call: CallId, timer: nat)
      requires Valid() && Enabled(Abstract(), Requires(call)) && timer == |Abstract().timers|
      modifies this
      ensures Valid() && Abstract() == Step(old(Abstract()), Requires(call))
    {
      StepFits(Abstract(), Requires(call));
      var live := IsOpenOrConnecting();
      if live || reconnectDelay == 0 {
        rest := rest.(calls := rest.calls[call := Passed]);
        return;
      }
      if reconnectDelayPromise.None? {
        reconnectDelayPromise := Some(timer);
        rest := rest.(timers := rest.timers + [Timer(reconnectDelay, false)]);
      }
      rest := rest.(calls := rest.calls[call := Delaying(reconnectDelayPromise.value)]);
    }

    method DelayElapsed(call: CallId)
      requires Valid() && Enabled(Abstract(), DelayOver(call))
      modifies this
      ensures Valid() && Abstract() == Step(old(Abstract()), DelayOver(call))
    {
      StepFits(Abstract(), DelayOver(call));
      reconnectDelayPromise := None;
      rest := rest.(calls := rest.calls[call := Passed]);
    }

    method Connect(call: CallId)
      requires Valid() && Enabled(Abstract(), Proceeds(call))
      modifies this
      ensures Valid() && Abstract() == Step(old(Abstract()), Proceeds(call))
    {
      StepFits(Abstract(), Proceeds(call));
      var live := IsOpenOrConnecting();
      if !live {
        graphqlSocket := Some(|sockets|);
        sockets := sockets + [Socket(Connecting, Pending)];
      }
      rest := rest.(calls := rest.calls[call := AwaitingAck(graphqlSocket.value)]);
    }

    /** What follows the await of `requireAck`; `random` is the draw of `Math.random()`. */
    method AckArrived(call: CallId, acked: bool, random: real)
      requires Valid() && Enabled(Abstract(), AckSeen(call, random))
      requires acked <==> Abstract().sockets[Abstract().calls[call].socket].ack.Acked?
      modifies this
      ensures Valid() && Abstract() == Step(old(Abstract()), AckSeen(call, random))
    {
      StepFits(Abstract(), AckSeen(call, random));
      if acked {
        ResetReconnectDelay();
        rest := rest.(calls := rest.calls[call := Returned(graphqlSocket.value)]);
      } else {
        IncreaseReconnectDelay(random);
        rest := rest.(calls := rest.calls[call := Threw]);
      }
    }

    method ResetReconnectDelay()
      modifies this
      ensures Abstract() == old(Abstract()).(delay := settings.min, succeeded := true, draws := [])
    {
      reconnectDelay := settings.min;
      rest := rest.(succeeded := true, draws := []);
    }

    method IncreaseReconnectDelay(random: real)
      modifies this
      ensures Abstract() == old(Abstract()).(delay := Increased(settings, old(reconnectDelay), random),
                                             draws := old(Abstract()).draws + [random])
    {
      var base := Smaller(settings.multiplier * (Larger(reconnectDelay, settings.min) as real), settings.max as real);
      reconnectDelay := (base + Jitter(random, settings.min)).Floor;
      rest := rest.(draws := rest.draws + [random]);
    }

    /** The `readyState` of a socket moves on, its acknowledgement arrives or fails, a delay timer fires. */
    method SocketAdvances(i: nat, state: ReadyState)
      requires Valid() && Enabled(Abstract(), Advances(i, state))
      modifies this
      ensures Valid() && Abstract() == Step(old(Abstract()), Advances(i, state))
    {
      StepFits(Abstract(), Advances(i, state));
      sockets := sockets[i := sockets[i].(state := state)];
    }

    method AckSettled(i: nat, ack: Ack)
      requires Valid() && Enabled(Abstract(), AckSettles(i, ack))
      modifies this
      ensures Valid() && Abstract() == Step(old(Abstract()), AckSettles(i, ack))
    {
      StepFits(Abstract(), AckSettles(i, ack));
      sockets := sockets[i := sockets[i].(ack := ack)];
    }

    ghost method TimerFired(t: nat)
      requires Valid() && Enabled(Abstract(), TimerFires(t))
      modifies this
      ensures Valid() && Abstract() == Step(old(Abstract()), TimerFires(t))
    {
      StepFits(Abstract(), TimerFires(t));
      rest := rest.(timers := rest.timers[t := rest.timers[t].(fired := true)]);
    }

    method Close()
      requires Valid()
      modifies this
      ensures Valid() && Abstract() == Step(old(Abstract()), ClientCloses)
    {
      StepFits(Abstract(), ClientCloses);
      var live := IsOpenOrConnecting();
      if live {
        sockets := sockets[graphqlSocket.value := sockets[graphqlSocket.value].(state := Closing)];
      }
    }
  }
}
