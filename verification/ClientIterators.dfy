/** How a client socket drives the push iterator of one subscription: its teardown neither throws nor calls back. */
module ClientIterators {
  import opened GraphQLAst
  import opened PushIterators

  type Iterator = State<int>

  /** One segment, with the teardown function run to its end; whether it ran is told by `teardowns`. */
  function Drive(it: Iterator, e: Event<int>): Iterator
    requires Enabled(it, e)
  {
    var t := Step(it, e);
    if t.tearing then Step(t, TeardownEnds(None)) else t
  }

  /** What holds of an iterator between the steps of a client. */
  ghost predicate Sound(it: Iterator) {
    && Good(it) && !it.tearing
    && (it.cause.Thrown? ==> it.error.Some?)
    && forall call | call in it.settled && it.settled[call] == Outcome.Done :: it.cause == Drained || it.cause == Returned
  }

  /** What the events of a consumer, and the end of setup, can change. */
  ghost predicate ConsumerEffect(it: Iterator, after: Iterator) {
    && after.accepted == it.accepted
    && (it.finished ==> after.finished)
    && (after.finished && !it.finished ==> after.cause == Returned)
    && (it.done ==> after.cause == it.cause)
    && (after.cause != it.cause ==> after.cause == Returned || (after.cause == Drained && it.finished))
    && it.teardowns <= after.teardowns
  }

  predicate FromConsumer(e: Event<int>) {
    e.Next? || e.Resumes? || e.Return? || e.SetupResolves? || e.SetupRejects?
  }

  lemma InitialSound()
    ensures Sound(Initial())
  {
  }

  lemma StepSound(it: Iterator, e: Event<int>)
    requires Sound(it) && Enabled(it, e) && (e.Throw? ==> e.error.truthy)
    ensures Good(Step(it, e)) && (Step(it, e).cause.Thrown? ==> Step(it, e).error.Some?)
  {
    StepGood(it, e);
  }

  lemma StepSettles(it: Iterator, e: Event<int>, call: CallId)
    requires Sound(it) && Enabled(it, e) && (e.Throw? ==> e.error.truthy)
    requires call in Step(it, e).settled && Step(it, e).settled[call] == Outcome.Done
    ensures Step(it, e).cause == Drained || Step(it, e).cause == Returned
  {
    match e
    case Next(c) =>
      if it.initialized {
        BodyEndsProperly(it, c, call);
      }
    case SetupResolves(withTeardown) =>
      BodyEndsProperly(it.(teardown := withTeardown, setup := Settled(withTeardown, it.done)), it.setup.caller, call);
    case Resumes(c) => BodyEndsProperly(it.(runnable := it.runnable - {c}), c, call);
    case _ =>
  }

  lemma BodyEndsProperly(it: Iterator, c: CallId, call: CallId)
    requires (it.done <==> it.cause != NotEnded) && (it.cause.Thrown? ==> it.error.Some?)
    requires call in it.settled && it.settled[call] == Outcome.Done ==> it.cause == Drained || it.cause == Returned
    requires call in Body(it, c).settled && Body(it, c).settled[call] == Outcome.Done
    ensures Body(it, c).cause == Drained || Body(it, c).cause == Returned
  {
    BodySettles(it, c);
  }

  lemma DriveSound(it: Iterator, e: Event<int>)
    requires Sound(it) && Enabled(it, e) && (e.Throw? ==> e.error.truthy)
    ensures Sound(Drive(it, e))
  {
    var t := Step(it, e);
    StepSound(it, e);
    if t.tearing {
      StepGood(t, TeardownEnds(None));
    }
    forall call | call in t.settled && t.settled[call] == Outcome.Done ensures t.cause == Drained || t.cause == Returned {
      StepSettles(it, e, call);
    }
  }

  lemma StepConsumer(it: Iterator, e: Event<int>)
    requires Sound(it) && Enabled(it, e) && FromConsumer(e)
    ensures ConsumerEffect(it, Step(it, e))
  {
  }

  lemma DriveConsumer(it: Iterator, e: Event<int>)
    requires Sound(it) && Enabled(it, e) && FromConsumer(e)
    ensures ConsumerEffect(it, Drive(it, e))
  {
    StepConsumer(it, e);
  }

  lemma DrivePush(it: Iterator, data: int)
    requires Sound(it)
    ensures var t := Drive(it, Push(data));
            && t.accepted == (if it.finished then it.accepted else it.accepted + [data])
            && t.finished == it.finished && t.cause == it.cause && t.teardowns == it.teardowns && t.setup == it.setup
  {
  }

  lemma DriveFinish(it: Iterator)
    requires Sound(it)
    ensures var t := Drive(it, Finish);
            t.accepted == it.accepted && t.finished && t.cause == it.cause && t.teardowns == it.teardowns && t.setup == it.setup
  {
  }

  lemma DriveThrow(it: Iterator, error: Error)
    requires Sound(it)
    ensures var t := Drive(it, Throw(error));
            && t.accepted == it.accepted && t.finished == it.finished && t.setup == it.setup
            && t.cause == (if it.done then it.cause else Thrown(error))
            && it.teardowns <= t.teardowns
  {
  }

  /** An iterator that is done stays so, and calls no teardown function. */
  lemma DoneLasts(it: Iterator, e: Event<int>)
    requires Enabled(it, e) && it.done && !it.tearing
    ensures Drive(it, e).done && Drive(it, e).teardowns == it.teardowns
  {
  }

  /** The teardown function runs at most once, so a client sends `complete` at most once. */
  lemma TeardownOnlyOnce(it: Iterator)
    requires Sound(it)
    ensures it.teardowns <= 1
    ensures it.teardowns == 1 ==> it.setup.Settled? && !it.setup.wasDone
    ensures it.setup.Settled? && it.setup.wasDone ==> it.teardowns == 0
  {
  }

  /** When a consumer sees the end without asking for it, the producer had finished and all it pushed was handed out. */
  lemma DoneMeansDrained(it: Iterator, call: CallId)
    requires Sound(it) && call in it.settled && it.settled[call] == Outcome.Done && it.cause != Returned
    ensures it.cause == Drained && it.finished && it.handed == it.accepted
  {
    assert it.handed + [] == it.handed;
  }
}
