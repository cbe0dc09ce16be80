/** src/ws/GraphQLWebSocketClient.ts: one outer subscription and the runs that feed it, one connection after another. */
module Reconnections {
  import opened GraphQLAst
  import Iterators = PushIterators
  import opened ClientIterators

  /** One `run()`: it awaits a connection, or the next value of the inner iterator of an epoch, or is over. */
  datatype Run = Connecting | Looping(epoch: nat) | Over

  /**
    An inner iterator, the values that the loop took from it, and whether its socket was acknowledged when the run got it:
    the current socket may be a newer one than the run has waited for. The pending call of the loop is number `|taken|`.
   */
  datatype Epoch = Epoch(it: Iterator, taken: seq<int>, acked: bool)

  /**
    `runs`: every `run()` so far; `timers`: the pending `setTimeout(run, 1)`; `inner`: the epoch that `innerIt` names;
    `finisher`: the epoch whose normal end finished the outer iterator; `closed`: the client's `close` finished it.
   */
  datatype Subscription = Subscription(
    outer: Iterator,
    registered: bool,
    runs: seq<Run>,
    timers: nat,
    inner: Option<nat>,
    epochs: seq<Epoch>,
    finisher: Option<nat>,
    closed: bool)

  datatype Event =
    | Consumes(event: Iterators.Event<int>)
    | Connected(run: nat, acked: bool)
    | ConnectionFails(run: nat, error: Iterators.Error)
    | Inner(epoch: nat, event: Iterators.Event<int>)
    | LoopResumes(run: nat)
    | RetryFires
    | ClientCloses

  function InitialSubscription(): Subscription {
    Subscription(Iterators.Initial(), false, [], 0, None, [], None, false)
  }

  predicate ShouldRetry(error: Iterators.Error) {
    error.truthy && error.code in {1000, 1005, 1006, 1012, 1013, 1014, -1}
  }

  /** `innerIt?.return()` */
  function ReturnInner(epochs: seq<Epoch>, inner: Option<nat>): seq<Epoch> {
    if inner.Some? && inner.value < |epochs| then
      epochs[inner.value := epochs[inner.value].(it := Drive(epochs[inner.value].it, Iterators.Return))]
    else epochs
  }

  /** A segment of the outer iterator; its teardown function returns the inner iterator and deletes the subscription. */
  function DriveOuter(s: Subscription, e: Iterators.Event<int>): Subscription
    requires Iterators.Enabled(s.outer, e)
  {
    var outer := Drive(s.outer, e);
    if outer.teardowns > s.outer.teardowns then
      s.(outer := outer, registered := false, epochs := ReturnInner(s.epochs, s.inner))
    else s.(outer := outer)
  }

  /** The `catch` clause of a run. */
  function Caught(s: Subscription, error: Iterators.Error): Subscription {
    if ShouldRetry(error) then s.(timers := s.timers + 1) else DriveOuter(s, Iterators.Throw(error))
  }

  /** The `finally` clause, with which a run is over. */
  function Finally(s: Subscription, r: nat): Subscription
    requires r < |s.runs|
  {
    s.(runs := s.runs[r := Over], epochs := ReturnInner(s.epochs, s.inner))
  }

  /** The settled call that the loop of an epoch awaits. */
  function Settled(epoch: Epoch): Option<Iterators.Outcome<int>> {
    if |epoch.taken| in epoch.it.settled then Some(epoch.it.settled[|epoch.taken|]) else None
  }

  predicate CanTake(epoch: Epoch) {
    Settled(epoch).Some? && (Settled(epoch).value.Value? ==> Iterators.Enabled(epoch.it, Iterators.Next(|epoch.taken| + 1)))
  }

  predicate OfConsumer(e: Iterators.Event<int>) {
    e.Next? || e.Resumes? || e.Return? || e == Iterators.SetupResolves(true)
  }

  predicate OfSocket(e: Iterators.Event<int>) {
    e.Push? || e.Finish? || e.Resumes? || (e.SetupRejects? && e.reason.truthy) || (e.Throw? && e.error.truthy) || e == Iterators.SetupResolves(true)
  }

  predicate Enabled(s: Subscription, e: Event) {
    match e
    case Consumes(event) => OfConsumer(event) && Iterators.Enabled(s.outer, event)
    case Connected(r, _) => r < |s.runs| && s.runs[r].Connecting?
    case ConnectionFails(r, error) => r < |s.runs| && s.runs[r].Connecting? && error.truthy
    case Inner(i, event) =>
      && i < |s.epochs| && OfSocket(event) && Iterators.Enabled(s.epochs[i].it, event)
      && (event.SetupRejects? ==> !s.epochs[i].acked)
    case LoopResumes(r) =>
      r < |s.runs| && s.runs[r].Looping? && s.runs[r].epoch < |s.epochs| && CanTake(s.epochs[s.runs[r].epoch])
    case RetryFires => s.timers > 0
    case ClientCloses => s.registered
  }

  /** The loop takes a value, and calls `next` again. */
  function Taken(epoch: Epoch, v: int): Epoch
    requires Iterators.Enabled(epoch.it, Iterators.Next(|epoch.taken| + 1))
  {
    epoch.(it := Drive(epoch.it, Iterators.Next(|epoch.taken| + 1)), taken := epoch.taken + [v])
  }

  function Take(s: Subscription, r: nat): Subscription
    requires Enabled(s, LoopResumes(r))
  {
    var i := s.runs[r].epoch;
    var epoch := s.epochs[i];
    match Settled(epoch).value
    case Value(v) =>
      DriveOuter(s.(epochs := s.epochs[i := Taken(epoch, v)]), Iterators.Push(v))
    case Done => Finally(DriveOuter(s.(finisher := if s.outer.finished then s.finisher else Some(i)), Iterators.Finish), r)
    case Rejected(error) => Finally(Caught(s, error), r)
  }

  function FirstEpoch(acked: bool): Epoch {
    Epoch(Drive(Iterators.Initial(), Iterators.Next(0)), [], acked)
  }

  function Step(s: Subscription, e: Event): Subscription
    requires Enabled(s, e)
  {
    match e
    case Consumes(event) =>
      var t := DriveOuter(s, event);
      if event.Next? && !s.outer.initialized then t.(registered := true, runs := s.runs + [Connecting]) else t
    case Connected(r, acked) =>
      s.(runs := s.runs[r := Looping(|s.epochs|)], inner := Some(|s.epochs|),
         epochs := s.epochs + [FirstEpoch(acked)])
    case ConnectionFails(r, error) => Finally(Caught(s, error), r)
    case Inner(i, event) => s.(epochs := s.epochs[i := s.epochs[i].(it := Drive(s.epochs[i].it, event))])
    case LoopResumes(r) => Take(s, r)
    case RetryFires => s.(timers := s.timers - 1, runs := s.runs + [Connecting])
    case ClientCloses => DriveOuter(s.(closed := true), Iterators.Finish)
  }

  /** The state after further events, if each was enabled when it happened. */
  function From(s: Subscription, events: seq<Event>): Option<Subscription> {
    if events == [] then Some(s)
    else
      match From(s, events[..|events| - 1])
      case None => None
      case Some(t) => if Enabled(t, events[|events| - 1]) then Some(Step(t, events[|events| - 1])) else None
  }

  function RunAll(events: seq<Event>): Option<Subscription> {
    From(InitialSubscription(), events)
  }
}
