/** What holds of a reconnecting subscription in every run, whatever its connections and its consumer do. */
module ReconnectionRuns {
  import opened GraphQLAst
  import Iterators = PushIterators
  import opened ClientIterators
  import opened Reconnections
  import opened InnerIterators
  import opened ReconnectionSafety

  lemma InitialFits()
    ensures Fits(InitialSubscription())
  {
    InitialSound();
  }

  lemma {:induction false} RunFits(events: seq<Event>)
    requires RunAll(events).Some?
    ensures Fits(RunAll(events).value)
  {
    if events == [] {
      InitialFits();
    } else {
      RunFits(events[..|events| - 1]);
      StepFits(RunAll(events[..|events| - 1]).value, events[|events| - 1]);
    }
  }

  function ActiveRuns(runs: seq<Run>): nat {
    if runs == [] then 0 else ActiveRuns(runs[..|runs| - 1]) + (if runs[|runs| - 1].Over? then 0 else 1)
  }

  lemma NoneActive(runs: seq<Run>)
    requires forall k | 0 <= k < |runs| :: runs[k].Over?
    ensures ActiveRuns(runs) == 0
  {
  }

  lemma NoneActiveAtEnd(s: Subscription)
    requires OneRun(s.runs, s.timers) && !Active(s.runs, s.timers)
    ensures ActiveRuns(s.runs) + s.timers == 0
  {
    NoneActive(s.runs);
  }

  /** Never two runs at once, nor a run and a timer that would start another. */
  lemma AtMostOneRun(events: seq<Event>)
    requires RunAll(events).Some?
    ensures var s := RunAll(events).value; ActiveRuns(s.runs) + s.timers <= 1
  {
    RunFits(events);
    var runs := RunAll(events).value.runs;
    if runs != [] {
      NoneActive(runs[..|runs| - 1]);
    }
  }

  /**
    Until the outer iterator is finished it has accepted all that the loops took, epoch after epoch, and afterwards a
    prefix of it; and of each epoch, the loop took all that its inner iterator handed out, but for one value that it is about to take.
   */
  lemma Concatenation(events: seq<Event>)
    requires RunAll(events).Some?
    ensures var s := RunAll(events).value;
            && s.outer.accepted <= Concat(s.epochs)
            && (!s.outer.finished ==> s.outer.accepted == Concat(s.epochs))
            && forall i | 0 <= i < |s.epochs| ::
                 && s.epochs[i].taken <= s.epochs[i].it.handed
                 && (i + 1 < |s.epochs| ==> s.epochs[i].taken == s.epochs[i].it.handed)
                 && |s.epochs[i].it.handed| <= |s.epochs[i].taken| + 1
  {
    RunFits(events);
    var s := RunAll(events).value;
    forall i | 0 <= i < |s.epochs|
      ensures s.epochs[i].taken <= s.epochs[i].it.handed && |s.epochs[i].it.handed| <= |s.epochs[i].taken| + 1
      ensures i + 1 < |s.epochs| ==> s.epochs[i].taken == s.epochs[i].it.handed
    {
      assert InnerFits(s.epochs[i]);
      if i + 1 < |s.epochs| {
        assert LoopOver(s.epochs[i]);
      }
    }
  }

  /** Only an error that is not retried is ever thrown into the outer iterator, and then no run is left. */
  lemma FailsOnlyUnretryable(events: seq<Event>)
    requires RunAll(events).Some? && RunAll(events).value.outer.cause.Thrown?
    ensures var s := RunAll(events).value;
            && ActiveRuns(s.runs) + s.timers == 0
            && (s.outer.cause.error.truthy ==>
                  var code := s.outer.cause.error.code;
                  code != 1000 && code != 1005 && code != 1006 && code != 1012 && code != 1013 && code != 1014 && code != -1)
  {
    RunFits(events);
    NoneActiveAtEnd(RunAll(events).value);
  }

  /** The client knows a subscription from its first `next` until its teardown function was called. */
  lemma {:induction false} RegisteredIff(events: seq<Event>)
    requires RunAll(events).Some?
    ensures var s := RunAll(events).value; s.registered <==> s.outer.initialized && s.outer.teardowns == 0
  {
    if events != [] {
      var init := events[..|events| - 1];
      RegisteredIff(init);
      RunFits(init);
      RunFits(events);
      StepRegisters(RunAll(init).value, events[|events| - 1]);
    }
  }

  lemma StepRegisters(s: Subscription, e: Event)
    requires Enabled(s, e) && Sound(s.outer) && (s.registered <==> s.outer.initialized && s.outer.teardowns == 0)
    requires Sound(Step(s, e).outer)
    ensures var t := Step(s, e); t.registered <==> t.outer.initialized && t.outer.teardowns == 0
  {
    match e
    case Consumes(event) => DrivenRegisters(s, event);
    case ConnectionFails(_, error) => DrivenRegisters(s, Iterators.Throw(error));
    case LoopResumes(r) => LoopRegisters(s, r);
    case ClientCloses => DrivenRegisters(s, Iterators.Finish);
    case _ =>
  }

  lemma LoopRegisters(s: Subscription, r: nat)
    requires Enabled(s, LoopResumes(r)) && Sound(s.outer) && (s.registered <==> s.outer.initialized && s.outer.teardowns == 0)
    ensures var t := Step(s, LoopResumes(r)); t.registered <==> t.outer.initialized && t.outer.teardowns == 0
  {
    match Settled(s.epochs[s.runs[r].epoch]).value
    case Value(v) =>
      ValueStep(s, r, v);
      DrivenRegisters(s, Iterators.Push(v));
    case Done =>
      DoneStep(s, r);
      DriveFinish(s.outer);
      DrivenRegisters(s, Iterators.Finish);
    case Rejected(error) => DrivenRegisters(s, Iterators.Throw(error));
  }

  lemma DrivenRegisters(s: Subscription, e: Iterators.Event<int>)
    requires Iterators.Enabled(s.outer, e) && Sound(s.outer) && (s.registered <==> s.outer.initialized && s.outer.teardowns == 0)
    ensures var t := Drive(s.outer, e);
            && t.teardowns >= s.outer.teardowns && (t.initialized <==> s.outer.initialized || e.Next?)
            && (e.Next? && !s.outer.initialized ==> t.teardowns == 0)
  {
  }

  /** A failure that ends a run: that of its connection, or of its loop. */
  function FailureOf(s: Subscription, e: Event): Option<Iterators.Error>
    requires Enabled(s, e)
  {
    match e
    case ConnectionFails(_, error) => Some(error)
    case LoopResumes(r) => (match Settled(s.epochs[s.runs[r].epoch]).value case Rejected(error) => Some(error) case _ => None)
    case _ => None
  }

  /**
    After a normal closure, a missing status, an abnormal closure, a restart, an overload, a bad gateway (section 7.4.1 of
    RFC 6455 and its registry) or an error event, the run is retried and the consumer sees nothing; any other error is its own.
   */
  lemma RetriesOrFails(events: seq<Event>, e: Event, error: Iterators.Error)
    requires RunAll(events).Some? && Enabled(RunAll(events).value, e) && FailureOf(RunAll(events).value, e) == Some(error)
    ensures error.truthy
    ensures var s, t := RunAll(events).value, Step(RunAll(events).value, e);
            if error.code == 1000 || error.code == 1005 || error.code == 1006 || error.code == 1012 || error.code == 1013
               || error.code == 1014 || error.code == -1
            then t.timers == s.timers + 1 && t.outer == s.outer
            else t.timers == s.timers && t.outer.done && (!s.outer.done ==> t.outer.cause == Iterators.Thrown(error))
  {
    RunFits(events);
    var s := RunAll(events).value;
    if e.LoopResumes? {
      assert InnerFits(s.epochs[s.runs[e.run].epoch]);
    }
    DriveThrow(s.outer, error);
    ThrownIsDone(s.outer, error);
  }

  lemma ThrownIsDone(outer: Iterator, error: Iterators.Error)
    ensures Drive(outer, Iterators.Throw(error)).done
  {
  }

  /** A run finishes the outer iterator only after the last inner iterator was finished by its server and read to its end. */
  lemma FinishesOnlyAtNormalEnd(events: seq<Event>)
    requires RunAll(events).Some?
    requires var s := RunAll(events).value; s.outer.finished && s.outer.cause != Iterators.Returned && !s.closed
    ensures var s := RunAll(events).value;
            && s.epochs != [] && Drained(s.epochs[|s.epochs| - 1])
            && s.outer.accepted == Concat(s.epochs) && ActiveRuns(s.runs) + s.timers == 0
  {
    RunFits(events);
    var s := RunAll(events).value;
    FinishedByRun(s.outer, s.closed, s.finisher, s.epochs, s.runs, s.timers);
    NoneActiveAtEnd(s);
  }

  lemma FinishedByRun(outer: Iterator, closed: bool, finisher: Option<nat>, epochs: seq<Epoch>, runs: seq<Run>, timers: nat)
    requires EndFits(outer, closed, finisher, epochs, runs, timers)
    requires outer.finished && outer.cause != Iterators.Returned && !closed
    ensures epochs != [] && Drained(epochs[|epochs| - 1]) && !Active(runs, timers) && outer.accepted == Concat(epochs)
  {
  }

  /** A consumer that sees `done` without having asked for it got every value of every epoch. */
  lemma DoneMeansEverything(events: seq<Event>, call: Iterators.CallId)
    requires RunAll(events).Some?
    requires var s := RunAll(events).value;
             && call in s.outer.settled && s.outer.settled[call] == Iterators.Outcome.Done
             && s.outer.cause != Iterators.Returned && !s.closed
    ensures var s := RunAll(events).value;
            && s.outer.handed == Concat(s.epochs)
            && s.epochs != [] && Drained(s.epochs[|s.epochs| - 1])
  {
    RunFits(events);
    DoneMeansDrained(RunAll(events).value.outer, call);
    FinishesOnlyAtNormalEnd(events);
  }

  /** No subscription is abandoned: with no run and no timer left, its outer iterator is finished or failed. */
  lemma NeverAbandoned(events: seq<Event>)
    requires RunAll(events).Some?
    ensures var s := RunAll(events).value;
            s.runs != [] && s.timers == 0 && ActiveRuns(s.runs) == 0 ==> s.outer.finished || s.outer.done
  {
    RunFits(events);
    var s := RunAll(events).value;
    if s.runs != [] && s.timers == 0 && ActiveRuns(s.runs) == 0 {
      assert !Active(s.runs, s.timers);
    }
  }
}
