/** The order of a JavaScript engine: whatever is queued to continue runs before the next event of a socket or a timer. */
module EventOrders {
  import opened GraphQLAst
  import Iterators = PushIterators
  import opened ClientIterators
  import opened Reconnections
  import opened InnerIterators
  import opened ReconnectionSafety
  import opened ReconnectionRuns

  /** The rest of an async function whose awaited promise has settled; a setup that awaits an acknowledged socket is one. */
  predicate Continuation(s: Subscription, e: Event) {
    match e
    case Consumes(event) => event.Resumes? || event.SetupResolves?
    case Inner(i, event) => event.Resumes? || (event.SetupResolves? && i < |s.epochs| && s.epochs[i].acked)
    case LoopResumes(_) => true
    case _ => false
  }

  /**
    What a socket or a timer starts. The application may call in from a continuation of its own, and the outcome of a
    connection attempt may be one: its socket may have been acknowledged before.
   */
  predicate OfTask(s: Subscription, e: Event) {
    e.RetryFires? || (e.Inner? && !Continuation(s, e))
  }

  /** Nothing is queued. */
  ghost predicate Idle(s: Subscription) {
    forall e | Continuation(s, e) :: !Enabled(s, e)
  }

  /** The setup function of `subscribe` awaits nothing: its continuation is queued before all others. */
  predicate SetupFirst(s: Subscription, e: Event) {
    s.outer.setup.Pending? ==> e.ClientCloses? || (e.Consumes? && !e.event.Resumes?)
  }

  ghost predicate InOrder(s: Subscription, e: Event) {
    Enabled(s, e) && (OfTask(s, e) ==> Idle(s)) && SetupFirst(s, e)
  }

  /** The state after further events, if each happened in order. */
  ghost function After(s: Subscription, events: seq<Event>): Option<Subscription> {
    if events == [] then Some(s)
    else
      match After(s, events[..|events| - 1])
      case None => None
      case Some(t) => if InOrder(t, events[|events| - 1]) then Some(Step(t, events[|events| - 1])) else None
  }

  /** Runs in order are runs. */
  lemma {:induction false} AfterFrom(s: Subscription, events: seq<Event>)
    requires After(s, events).Some?
    ensures From(s, events) == After(s, events)
  {
    if events != [] {
      AfterFrom(s, events[..|events| - 1]);
    }
  }

  lemma AfterFirst(s: Subscription, e: Event, later: seq<Event>)
    requires InOrder(s, e)
    ensures After(s, [e] + later) == After(Step(s, e), later)
    decreases |later|
  {
    var all := [e] + later;
    if later == [] {
      assert all == [e] && all[..0] == [];
      assert After(s, all[..|all| - 1]) == Some(s);
    } else {
      assert all[..|all| - 1] == [e] + later[..|later| - 1] && all[|all| - 1] == later[|later| - 1];
      AfterFirst(s, e, later[..|later| - 1]);
    }
  }

  // ----- what the order keeps -----

  /** While the setup function has not returned, its first run has gone no further than the connection. */
  predicate Started(s: Subscription) {
    && (s.runs == [] ==> s.epochs == [])
    && (s.outer.setup.Pending? ==> s.runs == [Connecting] && s.timers == 0 && s.epochs == [])
    && !s.outer.setup.Failed?
  }

  lemma BodyKeepsSetup(it: Iterator, call: nat)
    ensures Iterators.Body(it, call).setup == it.setup
  {
  }

  lemma SetupKept(outer: Iterator, e: Iterators.Event<int>)
    requires Iterators.Enabled(outer, e) && (e.Push? || e.Finish? || e.Throw? || e.Return? || e.Resumes?)
    ensures Drive(outer, e).setup == outer.setup
  {
    if e.Resumes? {
      BodyKeepsSetup(outer.(runnable := outer.runnable - {e.call}), e.call);
    }
  }

  lemma SetupMoves(outer: Iterator, e: Iterators.Event<int>)
    requires Iterators.Enabled(outer, e) && OfConsumer(e) && !outer.setup.Failed?
    ensures !Drive(outer, e).setup.Failed?
    ensures Drive(outer, e).setup.Pending? ==> outer.setup.Pending? || (e.Next? && !outer.initialized)
  {
    match e
    case Next(call) => BodyKeepsSetup(outer, call);
    case SetupResolves(withTeardown) =>
      BodyKeepsSetup(outer.(teardown := withTeardown, setup := Iterators.Setup.Settled(withTeardown, outer.done)), outer.setup.caller);
    case _ => SetupKept(outer, e);
  }

  /** An outer iterator whose setup function has returned already, or was not called yet, is not about to be set up. */
  lemma StartedAgain(s: Subscription, t: Subscription)
    requires Started(s) && s.runs != [] && t.runs != [] && t.outer.setup == s.outer.setup && !s.outer.setup.Pending?
    ensures Started(t)
  {
  }

  lemma ConsumesStarted(s: Subscription, e: Iterators.Event<int>)
    requires LoopFits(s.runs, s.timers, s.inner, s.epochs, s.outer.finished) && (s.runs != [] <==> s.outer.initialized)
    requires Started(s) && Enabled(s, Consumes(e))
    ensures Started(Step(s, Consumes(e)))
  {
    SetupMoves(s.outer, e);
    if s.runs == [] {
      assert s.runs + [Connecting] == [Connecting];
      assert DriveOuter(s, e).epochs == [];
    }
  }

  lemma DrivenStarted(s: Subscription, t: Subscription, e: Iterators.Event<int>)
    requires Started(s) && (e.Push? || e.Finish? || e.Throw?) && t.runs != [] && s.runs != []
    requires t.outer == s.outer || t.outer == Drive(s.outer, e)
    requires s.outer.setup.Pending? ==> t.runs == s.runs && t.timers == s.timers && t.epochs == s.epochs
    ensures Started(t)
  {
    SetupKept(s.outer, e);
  }

  lemma LoopStarted(s: Subscription, r: nat)
    requires Started(s) && InOrder(s, LoopResumes(r))
    ensures Started(Step(s, LoopResumes(r)))
  {
    var t := Step(s, LoopResumes(r));
    match Settled(s.epochs[s.runs[r].epoch]).value
    case Value(v) => DrivenStarted(s, t, Iterators.Push(v));
    case Done => DrivenStarted(s, t, Iterators.Finish);
    case Rejected(error) => DrivenStarted(s, t, Iterators.Throw(error));
  }

  lemma ClosesStarted(s: Subscription)
    requires Started(s) && Enabled(s, ClientCloses) && Sound(s.outer)
    ensures Started(Step(s, ClientCloses))
  {
    FinishQuiet(s.(closed := true));
    SetupKept(s.outer, Iterators.Finish);
  }

  lemma StartedStep(s: Subscription, e: Event)
    requires Fits(s) && Started(s) && InOrder(s, e)
    ensures Started(Step(s, e))
  {
    match e
    case Consumes(event) => ConsumesStarted(s, event);
    case LoopResumes(r) => LoopStarted(s, r);
    case ConnectionFails(_, error) => DrivenStarted(s, Step(s, e), Iterators.Throw(error));
    case ClientCloses => ClosesStarted(s);
    case RetryFires => StartedAgain(s, Step(s, e));
    case Connected(_, _) => StartedAgain(s, Step(s, e));
    case Inner(_, _) => StartedAgain(s, Step(s, e));
  }

  lemma {:induction false} AfterFits(s: Subscription, events: seq<Event>)
    requires Fits(s) && Started(s) && After(s, events).Some?
    ensures Fits(After(s, events).value) && Started(After(s, events).value)
  {
    if events != [] {
      AfterFits(s, events[..|events| - 1]);
      var t := After(s, events[..|events| - 1]).value;
      StepFits(t, events[|events| - 1]);
      StartedStep(t, events[|events| - 1]);
    }
  }

  lemma Reached(events: seq<Event>)
    requires After(InitialSubscription(), events).Some?
    ensures Fits(After(InitialSubscription(), events).value) && Started(After(InitialSubscription(), events).value)
  {
    InitialFits();
    AfterFits(InitialSubscription(), events);
  }
}
