/** What a push iterator's state says of the events so far: what it accepted, what ended it, and what its calls see. */
module PushHistories {
  import opened GraphQLAst
  import opened PushIterators

  datatype Occasion = Initializing | Finishing | Returning | Throwing(error: Error) | Draining

  /** A body of `next` runs at this event, on this state. */
  function Runs<T>(s: State<T>, e: Event<T>): Option<State<T>> {
    match e
    case Next(_) => if s.initialized then Some(s) else None
    case SetupResolves(_) => Some(s)
    case Resumes(_) => Some(s)
    case _ => None
  }

  predicate Occurs<T>(o: Occasion, s: State<T>, e: Event<T>) {
    match o
    case Initializing => e.Next?
    case Finishing => e.Finish? || (e.Return? && !s.done)
    case Returning => e.Return? && !s.done
    case Throwing(error) => e.Throw? && e.error == error && !s.done
    case Draining => Runs(s, e).Some? && !s.done && s.queue == [] && s.finished
  }

  ghost predicate Sometime<T(!new)>(events: seq<Event<T>>, o: Occasion)
    requires Run(events).Some?
  {
    events != [] &&
    (Sometime(events[..|events| - 1], o) || Occurs(o, Run(events[..|events| - 1]).value, events[|events| - 1]))
  }

  // ----- accepted values -----

  /** The values pushed before the iterator was finished. */
  ghost function Pushed<T(!new)>(events: seq<Event<T>>): seq<T>
    requires Run(events).Some?
  {
    if events == [] then []
    else
      var last := events[|events| - 1];
      Pushed(events[..|events| - 1]) + (if last.Push? && !Run(events[..|events| - 1]).value.finished then [last.value] else [])
  }

  lemma BodyKeeps<T>(s: State<T>, call: CallId)
    ensures var t := Body(s, call);
            && t.accepted == s.accepted && t.finished == s.finished && t.initialized == s.initialized
            && t.cause == (if !s.done && s.error.None? && s.queue == [] && s.finished then Drained else s.cause)
            && t.error == s.error
  {
    if s.error.None? && !s.done && s.queue == [] && s.finished {
      ReturnKeeps(s, Drained);
    }
  }

  lemma ReturnKeeps<T>(s: State<T>, cause: Cause)
    ensures var t := DoReturn(s, cause);
            && t.accepted == s.accepted && t.initialized == s.initialized && t.error == s.error && t.setup == s.setup
            && t.settled == s.settled && t.parked + t.runnable == s.parked + s.runnable
            && (if s.done then t.cause == s.cause && t.finished == s.finished else t.cause == cause && t.finished)
  {
    assert {} + (s.runnable + s.parked) == s.parked + s.runnable;
  }

  lemma StepAccepts<T>(s: State<T>, e: Event<T>)
    requires Enabled(s, e)
    ensures Step(s, e).accepted == s.accepted + (if e.Push? && !s.finished then [e.value] else [])
  {
    match e
    case Next(call) => BodyKeeps(s, call);
    case SetupResolves(withTeardown) =>
      BodyKeeps(s.(teardown := withTeardown, setup := Settled(withTeardown, s.done)), s.setup.caller);
    case Resumes(call) => BodyKeeps(s.(runnable := s.runnable - {call}), call);
    case _ =>
  }

  /** Exactly the values pushed before the end are accepted, in order. */
  lemma {:induction false} AcceptedIsPushed<T(!new)>(events: seq<Event<T>>)
    requires Run(events).Some?
    ensures Run(events).value.accepted == Pushed(events)
  {
    if events != [] {
      AcceptedIsPushed(events[..|events| - 1]);
      StepAccepts(Run(events[..|events| - 1]).value, events[|events| - 1]);
    }
  }

  // ----- what ends the iteration -----

  lemma StepFinishes<T>(s: State<T>, e: Event<T>)
    requires Enabled(s, e)
    ensures Step(s, e).finished <==> s.finished || Occurs(Finishing, s, e)
    ensures Step(s, e).initialized <==> s.initialized || Occurs(Initializing, s, e)
  {
    match e
    case Next(call) => BodyKeeps(s, call);
    case SetupResolves(withTeardown) =>
      BodyKeeps(s.(teardown := withTeardown, setup := Settled(withTeardown, s.done)), s.setup.caller);
    case Resumes(call) => BodyKeeps(s.(runnable := s.runnable - {call}), call);
    case _ =>
  }

  /** Finished by `finish` or `return` alone, and set up by the first `next`. */
  lemma {:induction false} FinishedIff<T(!new)>(events: seq<Event<T>>)
    requires Run(events).Some?
    ensures Run(events).value.finished <==> Sometime(events, Finishing)
    ensures Run(events).value.initialized <==> Sometime(events, Initializing)
  {
    if events != [] {
      FinishedIff(events[..|events| - 1]);
      StepFinishes(Run(events[..|events| - 1]).value, events[|events| - 1]);
    }
  }

  lemma StepCauses<T>(s: State<T>, e: Event<T>, error: Error)
    requires Enabled(s, e) && (s.done <==> s.cause != NotEnded) && (s.error.Some? ==> s.done)
    ensures Step(s, e).cause == Returned <==> s.cause == Returned || Occurs(Occasion.Returning, s, e)
    ensures Step(s, e).cause == Thrown(error) <==> s.cause == Thrown(error) || Occurs(Throwing(error), s, e)
    ensures Step(s, e).cause == Drained <==> s.cause == Drained || Occurs(Draining, s, e)
  {
    StepCause(s, e);
  }

  function CauseAfter<T>(s: State<T>, e: Event<T>): Cause {
    if s.done then s.cause
    else if e.Return? then Returned
    else if e.Throw? then Thrown(e.error)
    else if Runs(s, e).Some? && s.queue == [] && s.finished then Drained
    else s.cause
  }

  lemma StepCause<T>(s: State<T>, e: Event<T>)
    requires Enabled(s, e) && (s.error.Some? ==> s.done)
    ensures Step(s, e).cause == CauseAfter(s, e)
  {
    match e
    case Next(call) => BodyKeeps(s, call);
    case SetupResolves(withTeardown) =>
      BodyKeeps(s.(teardown := withTeardown, setup := Settled(withTeardown, s.done)), s.setup.caller);
    case Resumes(call) => BodyKeeps(s.(runnable := s.runnable - {call}), call);
    case _ =>
  }

  /** What comes first ends the iteration: `return`, `throw`, or a call that finds a finished iterator empty. */
  lemma {:induction false} CauseIff<T(!new)>(events: seq<Event<T>>, error: Error)
    requires Run(events).Some?
    ensures Run(events).value.cause == Returned <==> Sometime(events, Occasion.Returning)
    ensures Run(events).value.cause == Thrown(error) <==> Sometime(events, Throwing(error))
    ensures Run(events).value.cause == Drained <==> Sometime(events, Draining)
  {
    if events != [] {
      var init := events[..|events| - 1];
      CauseIff(init, error);
      RunGood(init);
      StepCauses(Run(init).value, events[|events| - 1], error);
    }
  }

  // ----- what the calls see -----

  /** The error thrown last, or that of a teardown function which failed after it; falsy ones count as none. */
  ghost function ErrorOf<T(!new)>(events: seq<Event<T>>): Option<Error>
    requires Run(events).Some?
  {
    if events == [] then None
    else
      match events[|events| - 1]
      case Throw(error) =>
        if Run(events[..|events| - 1]).value.done then ErrorOf(events[..|events| - 1]) else if error.truthy then Some(error) else None
      case TeardownEnds(Some(failure)) => if failure.truthy then Some(failure) else None
      case _ => ErrorOf(events[..|events| - 1])
  }

  lemma {:induction false} ErrorIs<T(!new)>(events: seq<Event<T>>)
    requires Run(events).Some?
    ensures Run(events).value.error == ErrorOf(events)
  {
    if events != [] {
      ErrorIs(events[..|events| - 1]);
      var s := Run(events[..|events| - 1]).value;
      match events[|events| - 1]
      case Next(call) => BodyKeeps(s, call);
      case SetupResolves(withTeardown) =>
        BodyKeeps(s.(teardown := withTeardown, setup := Settled(withTeardown, s.done)), s.setup.caller);
      case Resumes(call) => BodyKeeps(s.(runnable := s.runnable - {call}), call);
      case _ =>
    }
  }

  /** A call that runs on a failed iterator fails with its error, on one that ended otherwise it is done; else it takes the next value. */
  lemma CallSees<T>(s: State<T>, call: CallId)
    requires Enabled(s, Resumes(call))
    ensures var t := Step(s, Resumes(call));
            && (s.error.Some? ==> call in t.settled && t.settled[call] == Rejected(s.error.value))
            && (s.error.None? && s.done ==> call in t.settled && t.settled[call] == Outcome.Done)
            && (s.error.None? && !s.done && s.queue != [] ==>
                  call in t.settled && t.settled[call] == Value(s.queue[0]) && t.queue == s.queue[1..])
            && (s.error.None? && !s.done && s.queue == [] && s.finished ==>
                  call in t.settled && t.settled[call] == Outcome.Done && t.done)
            && (s.error.None? && !s.done && s.queue == [] && !s.finished ==> call in t.parked && t.settled == s.settled)
  {
  }

  /** The call that sets up a subscription fails with the setup function, and no other call notices. */
  lemma SetupFailure<T>(s: State<T>, reason: Error)
    requires Enabled(s, SetupRejects(reason))
    ensures Step(s, SetupRejects(reason)).settled == s.settled[s.setup.caller := Rejected(reason)]
    ensures Step(s, SetupRejects(reason)).error == s.error && Step(s, SetupRejects(reason)).done == s.done
  {
  }

  /** No call of `next` is lost. */
  lemma {:induction false} NoCallIsLost<T(!new)>(events: seq<Event<T>>, n: nat)
    requires Run(events).Some? && n < |events| && events[n].Next?
    ensures Known(Run(events).value, events[n].call)
  {
    var init, last := events[..|events| - 1], events[|events| - 1];
    if n < |init| {
      NoCallIsLost(init, n);
      assert init[n] == events[n];
    }
    RunGood(init);
    StaysKnown(Run(init).value, last, events[n].call);
  }

  lemma StaysKnown<T>(s: State<T>, e: Event<T>, call: CallId)
    requires Enabled(s, e) && (Known(s, call) || e == Next(call)) && (s.setup.NotStarted? <==> !s.initialized)
    ensures Known(Step(s, e), call)
  {
    match e
    case Next(c) =>
      if s.initialized {
        BodyKnows(s, c, call);
      }
    case SetupResolves(withTeardown) =>
      BodyKnows(s.(teardown := withTeardown, setup := Settled(withTeardown, s.done)), s.setup.caller, call);
    case Resumes(c) => BodyKnows(s.(runnable := s.runnable - {c}), c, call);
    case _ =>
  }

  lemma BodyKnows<T>(s: State<T>, c: CallId, call: CallId)
    requires call == c || call in s.parked || call in s.runnable || call in s.settled || s.setup == Pending(call)
    ensures Known(Body(s, c), call)
  {
    if s.error.None? && !s.done && s.queue == [] && s.finished {
      ReturnKeeps(s, Drained);
      assert call in s.parked + s.runnable ==> call in DoReturn(s, Drained).parked + DoReturn(s, Drained).runnable;
    }
  }
}
