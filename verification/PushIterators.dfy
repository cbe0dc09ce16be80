/** src/util/AsyncPushIterator.ts: an async iterator fed by pushes, one synchronous segment at a time. */
module PushIterators {
  import opened GraphQLAst

  type CallId = nat

  /** An error value; `error` is only consulted when it is truthy. */
  datatype Error = Error(code: int, truthy: bool)

  datatype Setup = NotStarted | Pending(caller: CallId) | Failed | Settled(withTeardown: bool, wasDone: bool)

  datatype Outcome<+T> = Value(value: T) | Done | Rejected(error: Error)

  /** What ended the iteration. */
  datatype Cause = NotEnded | Drained | Returned | Thrown(error: Error)

  /**
    The fields of the class, and what its callers can observe: the pending `next()` calls (`parked` on the current
    `waiting` promise, or `runnable` after it was resolved), the settled ones, the accepted pushes, the values handed
    out in order and their `receivers`, what ended the iteration, and how often the teardown function was called. `tearing` holds while that function runs.
   */
  datatype State<T> = State(
    initialized: bool,
    finished: bool,
    done: bool,
    error: Option<Error>,
    queue: seq<T>,
    waiting: bool,
    teardown: bool,
    tearing: bool,
    setup: Setup,
    parked: set<CallId>,
    runnable: set<CallId>,
    settled: map<CallId, Outcome<T>>,
    accepted: seq<T>,
    handed: seq<T>,
    receivers: seq<CallId>,
    cause: Cause,
    teardowns: nat)

  /** The synchronous segments. A teardown function runs between its start and `TeardownEnds`, and may call back. */
  datatype Event<T> =
    | Next(call: CallId)
    | SetupResolves(withTeardown: bool)
    | SetupRejects(reason: Error)
    | Resumes(call: CallId)
    | Push(value: T)
    | Finish
    | Return
    | Throw(error: Error)
    | TeardownEnds(failure: Option<Error>)

  function Initial<T>(): State<T> {
    State(false, false, false, None, [], false, false, false, NotStarted, {}, {}, map[], [], [], [], NotEnded, 0)
  }

  /** `continue`: resolves the promise that the parked calls await. */
  function Continued<T>(s: State<T>): State<T> {
    if s.waiting then s.(waiting := false, parked := {}, runnable := s.runnable + s.parked) else s
  }

  function Truthy(e: Error): Option<Error> {
    if e.truthy then Some(e) else None
  }

  /** `teardownOnce` up to the call of the teardown function, or to the end if there is none. */
  function TeardownOnce<T>(s: State<T>): State<T> {
    if s.teardown then s.(tearing := true, teardowns := s.teardowns + 1) else Continued(s)
  }

  function DoReturn<T>(s: State<T>, cause: Cause): State<T> {
    if s.done then s else TeardownOnce(s.(done := true, finished := true, cause := cause))
  }

  function DoThrow<T>(s: State<T>, e: Error): State<T> {
    if s.done then s else TeardownOnce(s.(done := true, error := Truthy(e), cause := Thrown(e)))
  }

  /** The body of `next` after setup. */
  function Body<T>(s: State<T>, call: CallId): State<T> {
    if s.error.Some? then s.(settled := s.settled[call := Rejected(s.error.value)])
    else if s.done then s.(settled := s.settled[call := Done])
    else if s.queue != [] then
      s.(queue := s.queue[1..], handed := s.handed + [s.queue[0]], receivers := s.receivers + [call],
         settled := s.settled[call := Value(s.queue[0])])
    else if s.finished then DoReturn(s, Drained).(settled := s.settled[call := Done])
    else s.(waiting := true, parked := s.parked + {call})
  }

  predicate Known<T>(s: State<T>, call: CallId) {
    call in s.parked || call in s.runnable || call in s.settled || s.setup == Pending(call)
  }

  predicate Enabled<T>(s: State<T>, e: Event<T>) {
    match e
    case Next(call) => !Known(s, call)
    case SetupResolves(_) => s.setup.Pending? && !s.tearing
    case SetupRejects(_) => s.setup.Pending? && !s.tearing
    case Resumes(call) => call in s.runnable && !s.tearing
    case TeardownEnds(_) => s.tearing
    case _ => true
  }

  function Step<T>(s: State<T>, e: Event<T>): State<T>
    requires Enabled(s, e)
  {
    match e
    case Next(call) => if s.initialized then Body(s, call) else s.(initialized := true, setup := Pending(call))
    case SetupResolves(withTeardown) =>
      Body(s.(teardown := withTeardown, setup := Settled(withTeardown, s.done)), s.setup.caller)
    case SetupRejects(reason) => s.(setup := Failed, settled := s.settled[s.setup.caller := Rejected(reason)])
    case Resumes(call) => Body(s.(runnable := s.runnable - {call}), call)
    case Push(value) => if s.finished then s else Continued(s.(queue := s.queue + [value], accepted := s.accepted + [value]))
    case Finish => if s.finished then s else Continued(s.(finished := true))
    case Return => DoReturn(s, Returned)
    case Throw(error) => DoThrow(s, error)
    case TeardownEnds(failure) =>
      Continued(s.(error := if failure.Some? then Truthy(failure.value) else s.error, teardown := false, tearing := false))
  }

  // ----- the class -----

  class AsyncPushIterator<T(0)> {
    var initialized: bool
    var finished: bool
    var done: bool
    var error: Option<Error>
    var queue: seq<T>
    var waiting: bool
    var teardown: bool
    ghost var rest: State<T>

    /** The abstract state; what the source keeps in promises and closures lives in `rest`. */
    ghost function Abstract(): State<T>
      reads this
    {
      rest.(initialized := initialized, finished := finished, done := done, error := error, queue := queue,
            waiting := waiting, teardown := teardown)
    }

    /** What every interleaving keeps. */
    ghost predicate Valid()
      reads this
    {
      Good(Abstract())
    }

    constructor ()
      ensures Valid() && Abstract() == Initial()
    {
      initialized, finished, done, teardown := false, false, false, false;
      error, queue, waiting := None, [], false;
      rest := Initial();
    }

    // `calls`: the teardown function is called now, and `TeardownEnds` follows it.

    /** From the call of `next` to its first `await`, or to its end. */
    method Next(call: CallId) returns (calls: bool)
      requires Valid() && Enabled(Abstract(), Event.Next(call))
      modifies this
      ensures Valid() && Abstract() == Step(old(Abstract()), Event.Next(call))
      ensures calls <==> Abstract().teardowns > old(Abstract()).teardowns
    {
      StepGood(Abstract(), Event.Next(call));
      calls := false;
      if !initialized {
        initialized := true;
        rest := rest.(setup := Pending(call));
      } else {
        calls := AfterSetup(call);
      }
    }

    /** `this.teardown = await this.setup(this)` and what follows it. */
    method SetupResolves(withTeardown: bool) returns (calls: bool)
      requires Valid() && Enabled(Abstract(), Event.SetupResolves(withTeardown))
      modifies this
      ensures Valid() && Abstract() == Step(old(Abstract()), Event.SetupResolves(withTeardown))
      ensures calls <==> Abstract().teardowns > old(Abstract()).teardowns
    {
      ghost var after := Step(Abstract(), Event.SetupResolves(withTeardown));
      StepGood(Abstract(), Event.SetupResolves(withTeardown));
      teardown := withTeardown;
      ghost var call := rest.setup.caller;
      rest := rest.(setup := Settled(withTeardown, done));
      calls := AfterSetup(call);
      assert Abstract() == after;
    }

    /** `next` from its checks to its end, or to `await this.wait()`. */
    method AfterSetup(ghost call: CallId) returns (calls: bool)
      modifies this
      ensures Abstract() == Body(old(Abstract()), call)
      ensures calls <==> Abstract().teardowns > old(Abstract()).teardowns
    {
      calls := false;
      if error.Some? {
        rest := rest.(settled := rest.settled[call := Rejected(error.value)]);
      } else if done {
        rest := rest.(settled := rest.settled[call := Outcome.Done]);
      } else if |queue| > 0 {
        rest := rest.(handed := rest.handed + [queue[0]], receivers := rest.receivers + [call],
                      settled := rest.settled[call := Value(queue[0])]);
        queue := queue[1..];
      } else if finished {
        calls := End(Drained);
        rest := rest.(settled := rest.settled[call := Outcome.Done]);
      } else {
        Wait(call);
      }
    }

    method Resumes(call: CallId) returns (calls: bool)
      requires Valid() && Enabled(Abstract(), Event.Resumes(call))
      modifies this
      ensures Valid() && Abstract() == Step(old(Abstract()), Event.Resumes(call))
      ensures calls <==> Abstract().teardowns > old(Abstract()).teardowns
    {
      ghost var after := Step(Abstract(), Event.Resumes(call));
      StepGood(Abstract(), Event.Resumes(call));
      rest := rest.(runnable := rest.runnable - {call});
      calls := AfterSetup(call);
      assert Abstract() == after;
    }

    method Return() returns (calls: bool)
      requires Valid()
      modifies this
      ensures Valid() && Abstract() == Step(old(Abstract()), Event.Return)
      ensures calls <==> Abstract().teardowns > old(Abstract()).teardowns
    {
      StepGood(Abstract(), Event.Return);
      calls := End(Returned);
    }

    method End(ghost cause: Cause) returns (calls: bool)
      modifies this
      ensures Abstract() == DoReturn(old(Abstract()), cause)
      ensures calls <==> Abstract().teardowns > old(Abstract()).teardowns
    {
      calls := false;
      if !done {
        done, finished := true, true;
        rest := rest.(cause := cause);
        calls := StartTeardown();
      }
    }

    method Throw(err: Error) returns (calls: bool)
      requires Valid()
      modifies this
      ensures Valid() && Abstract() == DoThrow(old(Abstract()), err)
      ensures calls <==> Abstract().teardowns > old(Abstract()).teardowns
    {
      StepGood(Abstract(), Event.Throw(err));
      calls := false;
      if !done {
        done, error := true, Truthy(err);
        rest := rest.(cause := Thrown(err));
        calls := StartTeardown();
      }
    }

    method SetupRejects(reason: Error)
      requires Valid() && Enabled(Abstract(), Event.SetupRejects(reason))
      modifies this
      ensures Valid() && Abstract() == Step(old(Abstract()), Event.SetupRejects(reason))
    {
      StepGood(Abstract(), Event.SetupRejects(reason));
      rest := rest.(setup := Failed, settled := rest.settled[rest.setup.caller := Rejected(reason)]);
    }

    method Push(value: T)
      requires Valid()
      modifies this
      ensures Valid() && Abstract() == Step(old(Abstract()), Event.Push(value))
    {
      StepGood(Abstract(), Event.Push(value));
      if !finished {
        queue := queue + [value];
        rest := rest.(accepted := rest.accepted + [value]);
        Continue();
      }
    }

    method Finish()
      requires Valid()
      modifies this
      ensures Valid() && Abstract() == Step(old(Abstract()), Event.Finish)
    {
      StepGood(Abstract(), Event.Finish);
      if !finished {
        finished := true;
        Continue();
      }
    }

    method Wait(ghost call: CallId)
      modifies this
      ensures Abstract() == old(Abstract()).(waiting := true, parked := old(Abstract()).parked + {call})
    {
      if !waiting {
        waiting := true;
      }
      rest := rest.(parked := rest.parked + {call});
    }

    method Continue()
      modifies this
      ensures Abstract() == Continued(old(Abstract()))
    {
      if waiting {
        rest := rest.(runnable := rest.runnable + rest.parked, parked := {});
        waiting := false;
      }
    }

    method StartTeardown() returns (calls: bool)
      modifies this
      ensures Abstract() == TeardownOnce(old(Abstract()))
      ensures calls <==> Abstract().teardowns > old(Abstract()).teardowns
    {
      calls := teardown;
      if teardown {
        rest := rest.(tearing := true, teardowns := rest.teardowns + 1);
      } else {
        Continue();
      }
    }

    method TeardownEnds(failure: Option<Error>)
      requires Valid() && Enabled(Abstract(), Event.TeardownEnds(failure))
      modifies this
      ensures Valid() && Abstract() == Step(old(Abstract()), Event.TeardownEnds(failure))
    {
      StepGood(Abstract(), Event.TeardownEnds(failure));
      if failure.Some? {
        error := Truthy(failure.value);
      }
      teardown := false;
      rest := rest.(tearing := false);
      Continue();
    }
  }

  // ----- every interleaving -----

  /** The state after a run, if each event was enabled when it happened. */
  function Run<T>(events: seq<Event<T>>): Option<State<T>> {
    if events == [] then Some(Initial())
    else
      match Run(events[..|events| - 1])
      case None => None
      case Some(s) => if Enabled(s, events[|events| - 1]) then Some(Step(s, events[|events| - 1])) else None
  }

  /** No lost value, no lost wakeup, no lost call. */
  ghost predicate Consistent<T>(s: State<T>) {
    && s.accepted == s.handed + s.queue
    && (s.waiting <==> s.parked != {})
    && (s.parked != {} && !s.tearing ==> s.queue == [] && !s.finished && !s.done)
    && (s.tearing ==> s.done && s.teardown)
    && (s.error.Some? ==> s.done)
    && (s.setup.NotStarted? <==> !s.initialized)
    && (s.parked !! s.runnable) && (s.parked + s.runnable) !! s.settled.Keys
    && (s.setup.Pending? ==> s.setup.caller !in s.parked + s.runnable && s.setup.caller !in s.settled)
    && (!s.initialized ==> s.parked + s.runnable == {} && s.settled == map[])
  }

  /** Every value handed out went to exactly one call. */
  ghost predicate HandedOnce<T>(s: State<T>) {
    Handed(s.settled, s.receivers, s.handed) && OnlyReceivers(s.settled, s.receivers)
  }

  ghost predicate EndsProperly<T>(s: State<T>) {
    && (s.done <==> s.cause != NotEnded)
    && (s.cause == Drained ==> s.finished && s.queue == [])
    && (s.cause == Returned ==> s.finished)
    && (forall call | call in s.settled && s.settled[call] == Outcome.Done :: s.done)
  }

  /** The teardown function: called at most once, and once exactly if the iterator ended after setup returned it. */
  ghost predicate TornDownProperly<T>(s: State<T>) {
    match s.setup
    case Settled(withTeardown, wasDone) =>
      && s.teardowns == (if withTeardown && !wasDone && s.done then 1 else 0)
      && s.teardown == (withTeardown && (wasDone || !s.done || s.tearing))
      && (wasDone ==> s.done && !s.tearing)
    case _ => s.teardowns == 0 && !s.teardown && !s.tearing
  }

  ghost predicate Good<T>(s: State<T>) {
    Consistent(s) && HandedOnce(s) && EndsProperly(s) && TornDownProperly(s)
  }

  /** What holds of a call while `next` runs its body: it is nowhere else. */
  ghost predicate Running<T>(s: State<T>, call: CallId) {
    s.initialized && !s.setup.Pending? && call !in s.parked + s.runnable && call !in s.settled
  }

  lemma BodyConsistent<T>(s: State<T>, call: CallId)
    requires Consistent(s) && TornDownProperly(s) && Running(s, call)
    ensures Consistent(Body(s, call)) && TornDownProperly(Body(s, call))
  {
  }

  lemma StepConsistent<T>(s: State<T>, e: Event<T>)
    requires Consistent(s) && TornDownProperly(s) && Enabled(s, e)
    ensures Consistent(Step(s, e)) && TornDownProperly(Step(s, e))
  {
    match e
    case Next(call) =>
      if s.initialized && !s.setup.Pending? {
        BodyConsistent(s, call);
      }
    case SetupResolves(withTeardown) =>
      BodyConsistent(s.(teardown := withTeardown, setup := Settled(withTeardown, s.done)), s.setup.caller);
    case Resumes(call) =>
      if !s.setup.Pending? {
        BodyConsistent(s.(runnable := s.runnable - {call}), call);
      }
    case _ =>
  }

  ghost predicate Handed<T>(settled: map<CallId, Outcome<T>>, receivers: seq<CallId>, handed: seq<T>) {
    && NoRepeat(receivers) && |receivers| == |handed|
    && (forall i | 0 <= i < |handed| :: receivers[i] in settled && settled[receivers[i]] == Value(handed[i]))
  }

  lemma HandedOneMore<T>(settled: map<CallId, Outcome<T>>, receivers: seq<CallId>, handed: seq<T>, call: CallId, v: T)
    requires Handed(settled, receivers, handed) && call !in settled
    ensures Handed(settled[call := Value(v)], receivers + [call], handed + [v])
  {
    forall i | 0 <= i < |receivers| ensures receivers[i] != call {
      assert receivers[i] in settled;
    }
  }

  lemma HandedOtherwise<T>(settled: map<CallId, Outcome<T>>, receivers: seq<CallId>, handed: seq<T>, call: CallId, o: Outcome<T>)
    requires Handed(settled, receivers, handed) && call !in settled
    ensures Handed(settled[call := o], receivers, handed)
  {
  }

  ghost predicate OnlyReceivers<T>(settled: map<CallId, Outcome<T>>, receivers: seq<CallId>) {
    forall call | call in settled && settled[call].Value? :: call in receivers
  }

  /** What the body of `next` settles its call with, if anything. */
  function Verdict<T>(s: State<T>): Option<Outcome<T>> {
    if s.error.Some? then Some(Rejected(s.error.value))
    else if s.done then Some(Outcome.Done)
    else if s.queue != [] then Some(Value(s.queue[0]))
    else if s.finished then Some(Outcome.Done)
    else None
  }

  /** `next` settles its own call and no other, and hands it the value it takes. */
  lemma BodySettles<T>(s: State<T>, call: CallId)
    ensures var t, verdict := Body(s, call), Verdict(s);
            && t.settled == (if verdict.Some? then s.settled[call := verdict.value] else s.settled)
            && (verdict.Some? && verdict.value.Value? ==>
                  t.receivers == s.receivers + [call] && t.handed == s.handed + [verdict.value.value])
            && (verdict.None? || !verdict.value.Value? ==> t.receivers == s.receivers && t.handed == s.handed)
  {
    if s.error.Some? {
    } else if s.done {
    } else if s.queue != [] {
    } else if s.finished {
      ReturnSettlesNothing(s, Drained);
    }
  }

  lemma ReturnSettlesNothing<T>(s: State<T>, cause: Cause)
    ensures var t := DoReturn(s, cause);
            t.settled == s.settled && t.receivers == s.receivers && t.handed == s.handed
  {
  }

  lemma BodyHandedOnce<T>(s: State<T>, call: CallId)
    requires HandedOnce(s) && call !in s.settled
    ensures HandedOnce(Body(s, call))
  {
    BodySettles(s, call);
    match Verdict(s)
    case Some(Value(v)) => HandedOneMore(s.settled, s.receivers, s.handed, call, v);
    case Some(o) => HandedOtherwise(s.settled, s.receivers, s.handed, call, o);
    case None =>
  }

  lemma StepHandedOnce<T>(s: State<T>, e: Event<T>)
    requires Consistent(s) && HandedOnce(s) && Enabled(s, e)
    ensures HandedOnce(Step(s, e))
  {
    match e
    case Next(call) =>
      if s.initialized {
        BodyHandedOnce(s, call);
      }
    case SetupResolves(withTeardown) =>
      BodyHandedOnce(s.(teardown := withTeardown, setup := Settled(withTeardown, s.done)), s.setup.caller);
    case SetupRejects(reason) =>
      HandedOtherwise(s.settled, s.receivers, s.handed, s.setup.caller, Outcome<T>.Rejected(reason));
    case Resumes(call) => BodyHandedOnce(s.(runnable := s.runnable - {call}), call);
    case _ =>
  }

  lemma StepEndsProperly<T>(s: State<T>, e: Event<T>)
    requires Consistent(s) && EndsProperly(s) && Enabled(s, e)
    ensures EndsProperly(Step(s, e))
  {
  }

  lemma StepGood<T>(s: State<T>, e: Event<T>)
    requires Good(s) && Enabled(s, e)
    ensures Good(Step(s, e))
  {
    StepConsistent(s, e);
    StepHandedOnce(s, e);
    StepEndsProperly(s, e);
  }

  /** Every run of every interleaving, re-entrant calls from the teardown function included. */
  lemma {:induction false} RunGood<T>(events: seq<Event<T>>)
    requires Run(events).Some?
    ensures Good(Run(events).value)
  {
    if events != [] {
      RunGood(events[..|events| - 1]);
      StepGood(Run(events[..|events| - 1]).value, events[|events| - 1]);
    }
  }

  /** Values only go out while the iterator is not done; ends and errors never change again once set by a caller. */
  lemma NothingHandedOnceDone<T>(s: State<T>, e: Event<T>)
    requires Enabled(s, e) && s.done
    ensures Step(s, e).handed == s.handed && Step(s, e).done && Step(s, e).cause == s.cause
  {
    match e
    case Next(call) => BodyOnceDone(s, call);
    case SetupResolves(withTeardown) =>
      BodyOnceDone(s.(teardown := withTeardown, setup := Settled(withTeardown, s.done)), s.setup.caller);
    case Resumes(call) => BodyOnceDone(s.(runnable := s.runnable - {call}), call);
    case _ =>
  }

  lemma BodyOnceDone<T>(s: State<T>, call: CallId)
    requires s.done
    ensures Body(s, call).handed == s.handed && Body(s, call).done && Body(s, call).cause == s.cause
  {
  }

  lemma {:induction false} RunFrozenOnceDone<T>(events: seq<Event<T>>, n: nat)
    requires n <= |events| && Run(events).Some? && Run(events[..n]).Some? && Run(events[..n]).value.done
    ensures Run(events).value.handed == Run(events[..n]).value.handed && Run(events).value.cause == Run(events[..n]).value.cause
    ensures Run(events).value.done
  {
    if n == |events| {
      assert events[..n] == events;
    } else {
      var init := events[..|events| - 1];
      assert init[..n] == events[..n];
      RunFrozenOnceDone(init, n);
      NothingHandedOnceDone(Run(init).value, events[|events| - 1]);
    }
  }
}
