/** What `return()` and `close()` stop and what they do not: whenever something is ahead, another connection can come. */
module ReconnectionLeaks {
  import opened GraphQLAst
  import Iterators = PushIterators
  import opened ClientIterators
  import opened Reconnections
  import opened InnerIterators
  import opened ReconnectionSafety
  import opened ReconnectionRuns
  import opened EventOrders
  import opened ReconnectionEnds

  /** Some events, in the order of the engine, lead to one more epoch. */
  ghost predicate Continues(s: Subscription) {
    exists later :: After(s, later).Some? && |After(s, later).value.epochs| > |s.epochs|
  }

  ghost predicate Reachable(s: Subscription) {
    Fits(s) && Started(s)
  }

  lemma ReachableStep(s: Subscription, e: Event)
    requires Reachable(s) && InOrder(s, e)
    ensures Reachable(Step(s, e))
  {
    StepFits(s, e);
    StartedStep(s, e);
  }

  /** An event that takes no epoch away. */
  lemma ContinuesAfter(s: Subscription, e: Event)
    requires InOrder(s, e) && |Step(s, e).epochs| >= |s.epochs| && Continues(Step(s, e))
    ensures Continues(s)
  {
    var later :| After(Step(s, e), later).Some? && |After(Step(s, e), later).value.epochs| > |Step(s, e).epochs|;
    AfterFirst(s, e, later);
  }

  // ----- a connection is awaited, or a timer is pending -----

  lemma ConnectingNow(s: Subscription)
    requires LastConnects(s.runs) && !s.outer.setup.Pending?
    ensures Continues(s)
  {
    var e := Connected(|s.runs| - 1, true);
    AfterFirst(s, e, []);
    assert After(Step(s, e), []) == Some(Step(s, e));
    assert |After(s, [e] + []).value.epochs| > |s.epochs|;
  }

  lemma SetupEnds(outer: Iterator)
    requires Sound(outer) && outer.setup.Pending?
    ensures Iterators.Enabled(outer, Iterators.SetupResolves(true))
    ensures !Drive(outer, Iterators.SetupResolves(true)).setup.Pending?
  {
    BodyKeepsSetup(outer.(teardown := true, setup := Iterators.Setup.Settled(true, outer.done)), outer.setup.caller);
  }

  lemma ConnectingContinues(s: Subscription)
    requires Reachable(s) && LastConnects(s.runs)
    ensures Continues(s)
  {
    if s.outer.setup.Pending? {
      var e := Consumes(Iterators.SetupResolves(true));
      SetupEnds(s.outer);
      DrivenEnds(s, Iterators.SetupResolves(true));
      ConnectingNow(Step(s, e));
      ContinuesAfter(s, e);
    } else {
      ConnectingNow(s);
    }
  }

  /** A subscription that was never set up is, by the next `next`, even if it has been returned. */
  lemma NotSetUpContinues(s: Subscription)
    requires Reachable(s) && s.runs == []
    ensures Continues(s)
  {
    var e := Consumes(Iterators.Next(0));
    assert !Iterators.Known(s.outer, 0);
    ReachableStep(s, e);
    DrivenEnds(s, Iterators.Next(0));
    ConnectingContinues(Step(s, e));
    ContinuesAfter(s, e);
  }

  /** Nothing is queued once no call of the consumer is, and the loop waits for its socket. */
  lemma NothingQueued(s: Subscription)
    requires Reachable(s) && !s.outer.setup.Pending? && s.outer.runnable == {}
    requires LoopOf(s.runs).Some? ==> Waits(s.epochs[LoopOf(s.runs).value])
    ensures Idle(s)
  {
    forall e | Continuation(s, e) ensures !Enabled(s, e) {
      match e
      case Inner(i, event) =>
        if i < |s.epochs| {
          assert InnerFits(s.epochs[i]);
          assert LoopOf(s.runs) != Some(i) ==> LoopOver(s.epochs[i]);
        }
      case LoopResumes(r) =>
        if r < |s.runs| && s.runs[r].Looping? {
          assert LoopOf(s.runs) == Some(s.runs[r].epoch);
        }
      case _ =>
    }
  }

  /** The loop's call is parked, or its setup awaits a newer socket. */
  predicate Waits(epoch: Epoch) {
    Settled(epoch).None? && epoch.it.runnable == {} && (epoch.it.setup.Pending? ==> !epoch.acked)
  }

  lemma OuterResumes(s: Subscription, c: nat)
    requires Reachable(s) && !s.outer.setup.Pending? && c in s.outer.runnable
    ensures InOrder(s, Consumes(Iterators.Resumes(c)))
    ensures var t := Step(s, Consumes(Iterators.Resumes(c)));
            && Reachable(t) && !t.outer.setup.Pending? && t == DriveOuter(s, Iterators.Resumes(c))
            && t.runs == s.runs && t.timers == s.timers && |t.epochs| == |s.epochs| && |t.outer.runnable| < |s.outer.runnable|
  {
    ResumesOnly(s, c);
    ReachableStep(s, Consumes(Iterators.Resumes(c)));
    DrivenEnds(s, Iterators.Resumes(c));
  }

  lemma ResumesOnly(s: Subscription, c: nat)
    requires Sound(s.outer) && !s.outer.setup.Pending? && c in s.outer.runnable
    ensures InOrder(s, Consumes(Iterators.Resumes(c)))
    ensures var t := Step(s, Consumes(Iterators.Resumes(c)));
            && !t.outer.setup.Pending? && t == DriveOuter(s, Iterators.Resumes(c))
            && t.runs == s.runs && t.timers == s.timers && |t.outer.runnable| < |s.outer.runnable|
  {
    SetupKept(s.outer, Iterators.Resumes(c));
    FewerQueued(s.outer, c);
  }

  lemma FewerQueued(outer: Iterator, c: nat)
    requires c in outer.runnable && Sound(outer)
    ensures |Drive(outer, Iterators.Resumes(c)).runnable| < |outer.runnable|
  {
    var it := outer.(runnable := outer.runnable - {c});
    assert it.finished ==> it.parked == {};
    assert Drive(outer, Iterators.Resumes(c)).runnable == it.runnable;
  }

  lemma TimerContinues(s: Subscription)
    requires Reachable(s) && s.timers > 0
    ensures Continues(s)
    decreases |s.outer.runnable|
  {
    if s.outer.runnable == {} {
      NothingQueued(s);
      ReachableStep(s, RetryFires);
      ConnectingContinues(Step(s, RetryFires));
      ContinuesAfter(s, RetryFires);
    } else {
      var c :| c in s.outer.runnable;
      OuterResumes(s, c);
      TimerContinues(Step(s, Consumes(Iterators.Resumes(c))));
      ContinuesAfter(s, Consumes(Iterators.Resumes(c)));
    }
  }

  // ----- a retry is ahead of the loop -----

  lemma RetriedStep(s: Subscription, i: nat, error: Iterators.Error)
    requires Started(s) && LoopOf(s.runs) == Some(i) && i < |s.epochs|
    requires Settled(s.epochs[i]) == Some(Iterators.Outcome<int>.Rejected(error)) && ShouldRetry(error)
    ensures InOrder(s, LoopResumes(|s.runs| - 1))
    ensures var t := Step(s, LoopResumes(|s.runs| - 1)); t.timers > 0 && |t.epochs| == |s.epochs|
  {
  }

  /** An error that is retried has reached the loop. */
  lemma RetriedContinues(s: Subscription, i: nat, error: Iterators.Error)
    requires Reachable(s) && LoopOf(s.runs) == Some(i) && Settled(s.epochs[i]) == Some(Iterators.Outcome<int>.Rejected(error)) && ShouldRetry(error)
    ensures Continues(s)
  {
    var e := LoopResumes(|s.runs| - 1);
    RetriedStep(s, i, error);
    ReachableStep(s, e);
    TimerContinues(Step(s, e));
    ContinuesAfter(s, e);
  }

  /** The loop's call, on an iterator that failed: it fails as well. */
  lemma CallFails(epoch: Epoch, e: Iterators.Event<int>)
    requires InnerFits(epoch) && Iterators.Enabled(epoch.it, e) && (e.Resumes? || e == Iterators.SetupResolves(true)) && epoch.it.cause.Thrown?
    requires epoch.it.error.Some?
    ensures Settled(epoch.(it := Drive(epoch.it, e))) == Some(Iterators.Outcome<int>.Rejected(epoch.it.cause.error))
  {
    var it := epoch.it;
    if e.Resumes? {
      BodyWhenDone(it.(runnable := it.runnable - {e.call}), e.call);
    } else {
      BodyWhenDone(it.(teardown := true, setup := Iterators.Setup.Settled(true, it.done)), it.setup.caller);
    }
  }

  /** The continuation that settles the loop's call, unless it is parked. */
  function Awaited(epoch: Epoch): Iterators.Event<int> {
    if epoch.it.setup.Pending? then Iterators.SetupResolves(true) else Iterators.Resumes(|epoch.taken|)
  }

  lemma AwaitedInOrder(s: Subscription, i: nat)
    requires Reachable(s) && LoopOf(s.runs) == Some(i) && Settled(s.epochs[i]).None? && !Waits(s.epochs[i])
    ensures InOrder(s, Inner(i, Awaited(s.epochs[i])))
  {
    assert InnerFits(s.epochs[i]);
  }

  lemma LoopInOrder(s: Subscription, i: nat, v: int)
    requires Reachable(s) && LoopOf(s.runs) == Some(i) && Settled(s.epochs[i]) == Some(Iterators.Value(v))
    ensures InOrder(s, LoopResumes(|s.runs| - 1)) && s.runs[|s.runs| - 1].epoch == i
    ensures var t := Step(s, LoopResumes(|s.runs| - 1));
            && t.runs == s.runs && t.epochs == s.epochs[i := Taken(s.epochs[i], v)]
            && (s.outer.finished ==> t.outer == s.outer) && (!s.outer.finished ==> !t.outer.finished)
  {
    assert InnerFits(s.epochs[i]);
    Ready(s.epochs[i], v);
    ValueStep(s, |s.runs| - 1, v);
    PushQuiet(s.(epochs := s.epochs[i := Taken(s.epochs[i], v)]), v);
  }

  /** An error that is retried has failed the iterator: its loop is going to see it. */
  lemma FailedContinues(s: Subscription, i: nat)
    requires Reachable(s) && LoopOf(s.runs) == Some(i) && !LoopOver(s.epochs[i]) && !Waits(s.epochs[i])
    requires s.epochs[i].it.cause.Thrown? && ShouldRetry(s.epochs[i].it.cause.error) && s.epochs[i].it.error.Some?
    ensures Continues(s)
  {
    var epoch := s.epochs[i];
    assert InnerFits(epoch);
    if Settled(epoch).None? {
      var e := Inner(i, Awaited(epoch));
      AwaitedInOrder(s, i);
      ReachableStep(s, e);
      CallFails(epoch, Awaited(epoch));
      RetriedContinues(Step(s, e), i, epoch.it.cause.error);
      ContinuesAfter(s, e);
    } else {
      var v, e := Settled(epoch).value.value, LoopResumes(|s.runs| - 1);
      LoopInOrder(s, i, v);
      ReachableStep(s, e);
      Ready(epoch, v);
      BodyWhenDone(epoch.it, |epoch.taken| + 1);
      RetriedContinues(Step(s, e), i, epoch.it.cause.error);
      ContinuesAfter(s, e);
    }
  }

  /** The socket's close, as a loop may see it. */
  function SocketClosed(): Iterators.Error {
    Iterators.Error(1006, true)
  }

  /** The setup of a newer socket fails, once the consumer's calls have run. */
  lemma SettingUpContinues(s: Subscription, i: nat)
    requires Reachable(s) && LoopOf(s.runs) == Some(i) && s.epochs[i].it.setup.Pending? && !s.epochs[i].acked
    ensures Continues(s)
    decreases |s.outer.runnable|
  {
    var epoch := s.epochs[i];
    assert InnerFits(epoch) && s.inner == Some(i);
    if s.outer.runnable == {} {
      var e := Inner(i, Iterators.SetupRejects(SocketClosed()));
      NothingQueued(s);
      ReachableStep(s, e);
      RetriedContinues(Step(s, e), i, SocketClosed());
      ContinuesAfter(s, e);
    } else {
      var c :| c in s.outer.runnable;
      OuterResumes(s, c);
      Returned(epoch);
      SettingUpContinues(Step(s, Consumes(Iterators.Resumes(c))), i);
      ContinuesAfter(s, Consumes(Iterators.Resumes(c)));
    }
  }

  // ----- the loop goes on -----

  predicate Live(epoch: Epoch) {
    !LoopOver(epoch) && !epoch.it.done && !epoch.it.finished && !RetryAhead(epoch)
  }

  /** The consumer's calls see no end. */
  lemma OuterGoesOn(outer: Iterator, c: nat)
    requires Sound(outer) && outer.setup.Settled? && !OuterEnds(outer) && c in outer.runnable
    ensures var t := Drive(outer, Iterators.Resumes(c)); !OuterEnds(t) && t.teardowns == outer.teardowns
  {
    if outer.done {
      DoneLasts(outer, Iterators.Resumes(c));
    } else if outer.finished {
      assert |outer.queue| >= |outer.runnable|;
      assert outer.queue != [];
    }
  }

  /** The loop's call is parked: its socket closes, once the consumer's calls have run. */
  lemma ParkedContinues(s: Subscription, i: nat)
    requires Reachable(s) && LoopOf(s.runs) == Some(i) && Live(s.epochs[i]) && Waits(s.epochs[i]) && !OuterEnds(s.outer)
    ensures Continues(s)
    decreases |s.outer.runnable|
  {
    var epoch := s.epochs[i];
    assert InnerFits(epoch);
    if s.outer.runnable == {} {
      var e := Inner(i, Iterators.Throw(SocketClosed()));
      NothingQueued(s);
      ReachableStep(s, e);
      ThrownWakes(epoch);
      FailedContinues(Step(s, e), i);
      ContinuesAfter(s, e);
    } else {
      var c :| c in s.outer.runnable;
      OuterResumes(s, c);
      OuterGoesOn(s.outer, c);
      ParkedContinues(Step(s, Consumes(Iterators.Resumes(c))), i);
      ContinuesAfter(s, Consumes(Iterators.Resumes(c)));
    }
  }

  lemma ThrownWakes(epoch: Epoch)
    requires InnerFits(epoch) && Live(epoch) && Waits(epoch)
    ensures var after := epoch.(it := Drive(epoch.it, Iterators.Throw(SocketClosed())));
            && !LoopOver(after) && !Waits(after) && after.it.cause == Iterators.Thrown(SocketClosed()) && after.it.error.Some?
  {
    QuietStep(epoch.it, Iterators.Throw(SocketClosed()));
  }

  function Work(epoch: Epoch): nat {
    2 * |epoch.it.queue| + (if epoch.it.parked == {} then 1 else 0)
  }

  lemma BodyLive(it: Iterator, c: nat)
    requires !it.done && !it.finished && it.error.None? && it.parked == {} && it.runnable == {}
    ensures var t := Iterators.Body(it, c);
            && !t.done && !t.finished && t.setup == it.setup && t.cause == it.cause && !(c in t.settled && !t.settled[c].Value? && c !in it.settled)
            && 2 * |t.queue| + (if t.parked == {} then 1 else 0) < 2 * |it.queue| + 1 && t.tearing == it.tearing
  {
  }

  lemma AwaitedLive(epoch: Epoch)
    requires InnerFits(epoch) && Live(epoch) && Settled(epoch).None? && !Waits(epoch) && Iterators.Enabled(epoch.it, Awaited(epoch))
    ensures var after := epoch.(it := Drive(epoch.it, Awaited(epoch))); Live(after) && Work(after) < Work(epoch)
  {
    var it := epoch.it;
    if it.setup.Pending? {
      BodyLive(it.(teardown := true, setup := Iterators.Setup.Settled(true, it.done)), it.setup.caller);
    } else {
      BodyLive(it.(runnable := it.runnable - {|epoch.taken|}), |epoch.taken|);
    }
  }

  lemma TakenLive(epoch: Epoch, v: int)
    requires InnerFits(epoch) && Live(epoch) && Settled(epoch) == Some(Iterators.Value(v)) && CanTake(epoch)
    ensures Live(Taken(epoch, v)) && Work(Taken(epoch, v)) < Work(epoch)
  {
    Ready(epoch, v);
    BodyLive(epoch.it, |epoch.taken| + 1);
  }

  lemma LiveContinues(s: Subscription, i: nat)
    requires Reachable(s) && LoopOf(s.runs) == Some(i) && Live(s.epochs[i]) && !OuterEnds(s.outer)
    ensures Continues(s)
    decreases Work(s.epochs[i])
  {
    var epoch := s.epochs[i];
    assert InnerFits(epoch);
    if Waits(epoch) {
      ParkedContinues(s, i);
    } else if Settled(epoch).None? {
      var e := Inner(i, Awaited(epoch));
      AwaitedInOrder(s, i);
      AwaitedLive(epoch);
      ReachableStep(s, e);
      LiveContinues(Step(s, e), i);
      ContinuesAfter(s, e);
    } else {
      var v, e := Settled(epoch).value.value, LoopResumes(|s.runs| - 1);
      LoopInOrder(s, i, v);
      TakenLive(epoch, v);
      ReachableStep(s, e);
      LiveContinues(Step(s, e), i);
      ContinuesAfter(s, e);
    }
  }

  // ----- the exact conditions -----

  lemma ContinuesIff(s: Subscription)
    requires Reachable(s)
    ensures Continues(s) <==> !NothingAhead(s)
  {
    if NothingAhead(s) {
      forall later | After(s, later).Some? ensures |After(s, later).value.epochs| == |s.epochs| {
        StaysForEver(s, later);
      }
    } else if s.runs == [] {
      NotSetUpContinues(s);
    } else if LastConnects(s.runs) {
      ConnectingContinues(s);
    } else if s.timers > 0 {
      TimerContinues(s);
    } else {
      LoopContinues(s, LoopOf(s.runs).value);
    }
  }

  lemma LoopContinues(s: Subscription, i: nat)
    requires Reachable(s) && LoopOf(s.runs) == Some(i) && !LoopEnds(s.epochs[i], s.outer)
    ensures Continues(s)
  {
    var epoch := s.epochs[i];
    assert InnerFits(epoch);
    if epoch.it.setup.Pending? && !epoch.acked {
      SettingUpContinues(s, i);
    } else if LoopOver(epoch) {
      RetriedContinues(s, i, Settled(epoch).value.error);
    } else if RetryAhead(epoch) {
      FailedContinues(s, i);
    } else {
      LiveContinues(s, i);
    }
  }

  /** In every run, another connection can come exactly when something is ahead. */
  lemma EpochsEndIff(events: seq<Event>)
    requires After(InitialSubscription(), events).Some?
    ensures Continues(After(InitialSubscription(), events).value) <==> !NothingAhead(After(InitialSubscription(), events).value)
  {
    Reached(events);
    ContinuesIff(After(InitialSubscription(), events).value);
  }

  // ----- return() -----

  /** Stopped for good: whatever follows, no epoch is added, and every inner iterator is done. */
  ghost predicate Stopped(s: Subscription) {
    forall later | After(s, later).Some? ::
      |After(s, later).value.epochs| == |s.epochs| && AllDone(After(s, later).value.epochs)
  }

  /** What can be seen before the call: the run does not await its connection, no timer is pending, and no retry is ahead of the loop. */
  predicate ReturnStops(s: Subscription) {
    && NoneConnects(s)
    && match LoopOf(s.runs)
       case None => true
       case Some(i) => i < |s.epochs| && !RetryAhead(s.epochs[i])
  }

  lemma ReturnTearsDown(outer: Iterator)
    requires Sound(outer) && !outer.done && outer.setup.Settled? && outer.setup.withTeardown
    ensures Drive(outer, Iterators.Return).teardowns > outer.teardowns
  {
  }

  lemma LoopSetUp(s: Subscription)
    requires Reachable(s) && LoopOf(s.runs).Some?
    ensures s.outer.setup.Settled? && s.outer.setup.withTeardown && s.inner == LoopOf(s.runs) && LoopOf(s.runs).value < |s.epochs|
    ensures InnerFits(s.epochs[LoopOf(s.runs).value])
  {
  }

  lemma AfterReturn(s: Subscription)
    requires Reachable(s) && !s.outer.done
    ensures var t := DriveOuter(s, Iterators.Return);
            && t.runs == s.runs && t.timers == s.timers && |t.epochs| == |s.epochs|
            && (NothingAhead(t) && AllDone(t.epochs) <==> ReturnStops(s))
  {
    var t := DriveOuter(s, Iterators.Return);
    if LoopOf(s.runs).Some? {
      var i := LoopOf(s.runs).value;
      LoopSetUp(s);
      ReturnTearsDown(s.outer);
      Returned(s.epochs[i]);
      assert AllDone(t.epochs);
    } else {
      ReturnInnerEnds(s.epochs, s.inner);
      assert AllDone(s.epochs);
    }
  }

  lemma StoppedIff(s: Subscription)
    requires Reachable(s)
    ensures Stopped(s) <==> NothingAhead(s) && AllDone(s.epochs)
  {
    ContinuesIff(s);
    if NothingAhead(s) && AllDone(s.epochs) {
      forall later | After(s, later).Some?
        ensures |After(s, later).value.epochs| == |s.epochs| && AllDone(After(s, later).value.epochs)
      {
        StaysForEver(s, later);
      }
    }
    assert After(s, []) == Some(s);
  }

  /** In every run, `return()` stops the subscription for good exactly when that can be seen before the call. */
  lemma ReturnStopsIff(events: seq<Event>)
    requires After(InitialSubscription(), events).Some? && !After(InitialSubscription(), events).value.outer.done
    ensures var s := After(InitialSubscription(), events).value;
            Stopped(Step(s, Consumes(Iterators.Return))) <==> ReturnStops(s)
  {
    Reached(events);
    var s := After(InitialSubscription(), events).value;
    ReachableStep(s, Consumes(Iterators.Return));
    StoppedIff(Step(s, Consumes(Iterators.Return)));
    AfterReturn(s);
  }

  /** A run that awaits its connection, or a retry timer, goes on after `return()`: the source cancels neither. */
  lemma ReturnLeaks(events: seq<Event>)
    requires After(InitialSubscription(), events).Some? && !After(InitialSubscription(), events).value.outer.done
    requires var s := After(InitialSubscription(), events).value; LastConnects(s.runs) || s.timers > 0
    ensures Continues(Step(After(InitialSubscription(), events).value, Consumes(Iterators.Return)))
  {
    Reached(events);
    var s := After(InitialSubscription(), events).value;
    ReachableStep(s, Consumes(Iterators.Return));
    ContinuesIff(Step(s, Consumes(Iterators.Return)));
    AfterReturn(s);
  }

  // ----- close() -----

  /** The consumer's calls, parked or queued, outnumber the values that are left: after `close` one of them sees the end. */
  predicate SeesEnd(outer: Iterator) {
    !outer.done && |outer.queue| < |outer.parked + outer.runnable|
  }

  predicate CloseStops(s: Subscription) {
    NothingAhead(s) || (ReturnStops(s) && SeesEnd(s.outer))
  }

  lemma ClosedOuter(outer: Iterator)
    requires Sound(outer) && outer.setup.Settled?
    ensures OuterEnds(Drive(outer, Iterators.Finish)) <==> SeesEnd(outer)
  {
    assert outer.finished ==> outer.parked == {};
    assert outer.parked + outer.runnable == outer.runnable + outer.parked;
    assert {} + outer.runnable == outer.runnable;
  }

  lemma AfterClose(s: Subscription)
    requires Reachable(s) && Enabled(s, ClientCloses)
    ensures NothingAhead(Step(s, ClientCloses)) <==> CloseStops(s)
  {
    FinishQuiet(s.(closed := true));
    if LoopOf(s.runs).Some? {
      LoopSetUp(s);
      ClosedOuter(s.outer);
      assert OuterEnds(s.outer) ==> SeesEnd(s.outer);
    }
  }

  /**
    In every run, no connection follows the client's `close` exactly when none was ahead, or one of the consumer's calls
    sees the end and so returns a loop that has no retry ahead.
   */
  lemma CloseStopsIff(events: seq<Event>)
    requires After(InitialSubscription(), events).Some? && After(InitialSubscription(), events).value.registered
    ensures var s := After(InitialSubscription(), events).value;
            Continues(Step(s, ClientCloses)) <==> !CloseStops(s)
  {
    Reached(events);
    var s := After(InitialSubscription(), events).value;
    ReachableStep(s, ClientCloses);
    ContinuesIff(Step(s, ClientCloses));
    AfterClose(s);
  }

  /** For a consumer that awaits its next value, `close` stops what `return()` would stop. */
  lemma CloseStopsAwaited(events: seq<Event>)
    requires After(InitialSubscription(), events).Some? && After(InitialSubscription(), events).value.registered
    requires After(InitialSubscription(), events).value.outer.parked != {}
    ensures var s := After(InitialSubscription(), events).value;
            Continues(Step(s, ClientCloses)) <==> !ReturnStops(s)
  {
    Reached(events);
    CloseStopsIff(events);
    var s := After(InitialSubscription(), events).value;
    assert s.outer.queue == [] && s.outer.parked + s.outer.runnable != {};
    assert SeesEnd(s.outer);
  }
}
