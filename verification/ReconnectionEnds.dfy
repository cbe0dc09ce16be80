/** When a subscription gets no more connections: once nothing is ahead, it stays like that. */
module ReconnectionEnds {
  import opened GraphQLAst
  import Iterators = PushIterators
  import opened ClientIterators
  import opened Reconnections
  import opened InnerIterators
  import opened ReconnectionSafety
  import opened ReconnectionRuns
  import opened EventOrders

  /** An error that is retried has come to the loop, or is on its way; the setup of a newer socket may still bring one. */
  predicate RetryAhead(epoch: Epoch) {
    match Settled(epoch)
    case Some(Rejected(error)) => ShouldRetry(error)
    case Some(Done) => false
    case _ => (epoch.it.setup.Pending? && !epoch.acked) || (epoch.it.cause.Thrown? && ShouldRetry(epoch.it.cause.error))
  }

  /** The queued calls outnumber the values that are left: the last of them sees the end, and calls the teardown function. */
  predicate OuterEnds(outer: Iterator) {
    outer.finished && !outer.done && outer.setup.Settled? && |outer.queue| < |outer.runnable|
  }

  /** Whatever is queued ends the loop, and not with an error that is retried, before its socket is heard again. */
  predicate LoopEnds(epoch: Epoch, outer: Iterator) {
    !RetryAhead(epoch) && (LoopOver(epoch) || epoch.it.done || epoch.it.finished || OuterEnds(outer))
  }

  predicate LastConnects(runs: seq<Run>) {
    runs != [] && runs[|runs| - 1].Connecting?
  }

  /** No run waits for a connection, and no timer will start one. */
  predicate NoneConnects(s: Subscription) {
    s.runs != [] && s.timers == 0 && !LastConnects(s.runs)
  }

  /** Nor will the loop that may be left lead to one. */
  predicate NothingAhead(s: Subscription) {
    && NoneConnects(s)
    && match LoopOf(s.runs)
       case None => true
       case Some(i) => i < |s.epochs| && LoopEnds(s.epochs[i], s.outer)
  }

  predicate AllDone(epochs: seq<Epoch>) {
    forall i | 0 <= i < |epochs| :: epochs[i].it.done
  }

  // ----- one inner iterator -----

  /** What nothing takes back once no retry is ahead. */
  predicate Ends(before: Epoch, after: Epoch) {
    && !RetryAhead(after)
    && (LoopOver(before) ==> LoopOver(after)) && (before.it.done ==> after.it.done) && (before.it.finished ==> after.it.finished)
  }

  lemma Returned(epoch: Epoch)
    requires InnerFits(epoch)
    ensures var after := epoch.(it := Drive(epoch.it, Iterators.Return));
            && after.it.done && (RetryAhead(after) <==> RetryAhead(epoch)) && (LoopOver(epoch) ==> LoopOver(after))
            && after.it.setup == epoch.it.setup && Settled(after) == Settled(epoch)
  {
    QuietFits(epoch, Iterators.Return);
    QuietStep(epoch.it, Iterators.Return);
  }

  lemma DoneForGood(it: Iterator, e: Iterators.Event<int>)
    requires Sound(it) && it.done && Iterators.Enabled(it, e)
    ensures Drive(it, e).done && Drive(it, e).cause == it.cause
  {
    Iterators.NothingHandedOnceDone(it, e);
  }

  /** A task of the socket, on an iterator whose loop is over or that is done. */
  lemma TaskEnds(epoch: Epoch, e: Iterators.Event<int>)
    requires InnerFits(epoch) && Quiet(e) && OfSocket(e) && !RetryAhead(epoch) && (LoopOver(epoch) || epoch.it.done)
    ensures Ends(epoch, epoch.(it := Drive(epoch.it, e)))
  {
    QuietFits(epoch, e);
    QuietStep(epoch.it, e);
    QuietFinished(epoch.it, e);
    if epoch.it.done {
      DoneForGood(epoch.it, e);
    }
  }

  lemma QuietFinished(it: Iterator, e: Iterators.Event<int>)
    requires Quiet(e)
    ensures it.finished ==> Drive(it, e).finished
  {
  }

  lemma BodyWhenDone(it: Iterator, c: nat)
    requires it.done && (it.cause.Thrown? <==> it.error.Some?) && (it.error.Some? ==> it.cause == Iterators.Thrown(it.error.value))
    ensures Iterators.Body(it, c) ==
            it.(settled := it.settled[c := if it.cause.Thrown? then Iterators.Outcome<int>.Rejected(it.cause.error) else Iterators.Outcome.Done])
  {
  }

  /** A body of `next`: it fails with the error there is, and otherwise only ends what was finished. */
  lemma BodyEnds(it: Iterator, c: nat)
    requires (it.cause.Thrown? <==> it.error.Some?) && (it.error.Some? ==> it.done && it.cause == Iterators.Thrown(it.error.value))
    requires c !in it.settled
    ensures var t := Iterators.Body(it, c);
            && (it.done ==> t.done) && (it.finished ==> t.finished) && t.setup == it.setup
            && (c in t.settled && t.settled[c].Rejected? ==> it.cause == Iterators.Thrown(t.settled[c].error))
            && (t.cause.Thrown? ==> t.cause == it.cause)
  {
  }

  /** The loop's call resumes, or setup is over. */
  lemma ContinuationEnds(epoch: Epoch, e: Iterators.Event<int>)
    requires InnerFits(epoch) && Iterators.Enabled(epoch.it, e) && (e.Resumes? || e == Iterators.SetupResolves(true)) && !RetryAhead(epoch)
    ensures Ends(epoch, epoch.(it := Drive(epoch.it, e)))
  {
    ResumesFits(epoch, e);
    var it := epoch.it;
    if e.Resumes? {
      BodyEnds(it.(runnable := it.runnable - {e.call}), e.call);
    } else {
      BodyEnds(it.(teardown := true, setup := Iterators.Setup.Settled(true, it.done)), it.setup.caller);
    }
  }

  lemma TakingEnds(epoch: Epoch, v: int)
    requires InnerFits(epoch) && CanTake(epoch) && Settled(epoch) == Some(Iterators.Value(v)) && !RetryAhead(epoch)
    ensures Ends(epoch, Taken(epoch, v))
  {
    Ready(epoch, v);
    BodyEnds(epoch.it, |epoch.taken| + 1);
  }

  // ----- all of them, and the outer iterator -----

  ghost predicate AllEnd(epochs: seq<Epoch>, others: seq<Epoch>) {
    |epochs| == |others| && forall i | 0 <= i < |epochs| :: epochs[i].it.done ==> others[i].it.done
  }

  lemma ReturnInnerEnds(epochs: seq<Epoch>, inner: Option<nat>)
    requires EpochsFit(epochs)
    ensures AllEnd(epochs, ReturnInner(epochs, inner))
  {
    if inner.Some? && inner.value < |epochs| {
      Returned(epochs[inner.value]);
    }
  }

  lemma DrivenEnds(s: Subscription, e: Iterators.Event<int>)
    requires EpochsFit(s.epochs) && Iterators.Enabled(s.outer, e)
    ensures AllEnd(s.epochs, DriveOuter(s, e).epochs)
  {
    ReturnInnerEnds(s.epochs, s.inner);
  }

  /** What a step keeps once nothing is ahead. */
  ghost predicate StaysEnded(s: Subscription, t: Subscription) {
    NothingAhead(t) && |t.epochs| == |s.epochs| && (AllDone(s.epochs) ==> AllDone(t.epochs))
  }

  /** A run that is over leaves nothing ahead. */
  lemma OverEnds(s: Subscription, t: Subscription, r: nat)
    requires s.timers == 0 && OneRun(s.runs, 0) && r < |s.runs| && !s.runs[r].Over?
    requires t.runs == s.runs[r := Over] && t.timers == 0 && AllEnd(s.epochs, t.epochs)
    ensures StaysEnded(s, t)
  {
  }

  /** The queued calls still see the end, or one of them has. */
  lemma OuterStays(outer: Iterator, e: Iterators.Event<int>)
    requires Sound(outer) && OuterEnds(outer) && OfConsumer(e) && Iterators.Enabled(outer, e) && outer.setup.withTeardown
    ensures OuterEnds(Drive(outer, e)) || Drive(outer, e).teardowns > outer.teardowns
  {
    match e
    case Next(call) => BodyOuter(outer, call);
    case Resumes(call) => BodyOuter(outer.(runnable := outer.runnable - {call}), call);
    case _ =>
  }

  lemma BodyOuter(outer: Iterator, call: nat)
    requires outer.finished && !outer.done && outer.error.None? && outer.setup.Settled? && outer.teardown && !outer.tearing
    requires |outer.queue| <= |outer.runnable|
    ensures var t := Iterators.Body(outer, call);
            if outer.queue == [] then t.tearing && t.teardowns == outer.teardowns + 1
            else t.finished && !t.done && t.setup == outer.setup && !t.tearing && |t.queue| == |outer.queue| - 1 && t.runnable == outer.runnable
  {
  }

  /** The loop's iterator stays as it is, or is returned. */
  lemma DrivenLoop(s: Subscription, i: nat, e: Iterators.Event<int>)
    requires i < |s.epochs| && InnerFits(s.epochs[i]) && s.inner == Some(i) && !RetryAhead(s.epochs[i]) && Iterators.Enabled(s.outer, e)
    ensures var after := DriveOuter(s, e).epochs[i];
            && !RetryAhead(after)
            && if Drive(s.outer, e).teardowns > s.outer.teardowns then after.it.done else after == s.epochs[i]
  {
    Returned(s.epochs[i]);
  }

  lemma LoopStillEnds(epoch: Epoch, outer: Iterator, after: Epoch, driven: Iterator)
    requires LoopEnds(epoch, outer) && !RetryAhead(after) && (after.it.done || after == epoch)
    requires OuterEnds(outer) ==> OuterEnds(driven) || after.it.done
    ensures LoopEnds(after, driven)
  {
  }

  lemma ConsumedStays(s: Subscription, e: Iterators.Event<int>)
    requires Fits(s) && NothingAhead(s) && Enabled(s, Consumes(e))
    ensures StaysEnded(s, Step(s, Consumes(e)))
  {
    DrivenEnds(s, e);
    if LoopOf(s.runs).Some? {
      var i := LoopOf(s.runs).value;
      assert InnerFits(s.epochs[i]) && s.inner == Some(i);
      DrivenLoop(s, i, e);
      if OuterEnds(s.outer) {
        OuterStays(s.outer, e);
      }
      LoopStillEnds(s.epochs[i], s.outer, DriveOuter(s, e).epochs[i], Drive(s.outer, e));
    }
  }

  lemma ClosedStays(s: Subscription)
    requires Fits(s) && NothingAhead(s) && Enabled(s, ClientCloses)
    ensures StaysEnded(s, Step(s, ClientCloses))
  {
    FinishQuiet(s.(closed := true));
  }

  /** While something is queued, a loop that ends hears nothing else of its socket. */
  lemma NotIdle(s: Subscription, i: nat)
    requires Fits(s) && LoopOf(s.runs) == Some(i) && LoopEnds(s.epochs[i], s.outer) && Idle(s)
    ensures LoopOver(s.epochs[i]) || s.epochs[i].it.done
  {
    var epoch := s.epochs[i];
    assert InnerFits(epoch);
    if OuterEnds(s.outer) {
      var call :| call in s.outer.runnable;
      assert Enabled(s, Consumes(Iterators.Resumes(call)));
      assert false;
    } else if !LoopOver(epoch) && !epoch.it.done {
      var e := LoopQueued(s, i);
      assert false;
    }
  }

  lemma LoopQueued(s: Subscription, i: nat) returns (e: Event)
    requires i < |s.epochs| && InnerFits(s.epochs[i]) && s.runs != [] && s.runs[|s.runs| - 1] == Looping(i)
    requires var epoch := s.epochs[i]; epoch.it.finished && !LoopOver(epoch) && !epoch.it.done && !RetryAhead(epoch)
    ensures Continuation(s, e) && Enabled(s, e)
  {
    var epoch := s.epochs[i];
    if Settled(epoch).Some? {
      Ready(epoch, Settled(epoch).value.value);
      e := LoopResumes(|s.runs| - 1);
    } else if epoch.it.setup.Pending? {
      e := Inner(i, Iterators.SetupResolves(true));
    } else {
      assert |epoch.taken| in epoch.it.runnable;
      e := Inner(i, Iterators.Resumes(|epoch.taken|));
    }
  }

  lemma InnerEnds(s: Subscription, i: nat, e: Iterators.Event<int>)
    requires Fits(s) && NothingAhead(s) && InOrder(s, Inner(i, e)) && LoopOf(s.runs) == Some(i)
    ensures Ends(s.epochs[i], s.epochs[i].(it := Drive(s.epochs[i].it, e)))
  {
    var epoch := s.epochs[i];
    assert InnerFits(epoch);
    if e.Resumes? || e.SetupResolves? {
      ContinuationEnds(epoch, e);
    } else {
      NotIdle(s, i);
      if !e.SetupRejects? {
        TaskEnds(epoch, e);
      }
    }
  }

  lemma InnerStays(s: Subscription, i: nat, e: Iterators.Event<int>)
    requires Fits(s) && NothingAhead(s) && InOrder(s, Inner(i, e))
    ensures StaysEnded(s, Step(s, Inner(i, e)))
  {
    assert InnerFits(s.epochs[i]);
    if LoopOf(s.runs) == Some(i) {
      InnerEnds(s, i, e);
    } else if s.epochs[i].it.done {
      DoneForGood(s.epochs[i].it, e);
    }
    OneMoves(s, i, s.epochs[i].(it := Drive(s.epochs[i].it, e)));
  }

  lemma OneMoves(s: Subscription, i: nat, after: Epoch)
    requires NothingAhead(s) && i < |s.epochs| && (s.epochs[i].it.done ==> after.it.done)
    requires LoopOf(s.runs) == Some(i) ==> Ends(s.epochs[i], after)
    ensures StaysEnded(s, s.(epochs := s.epochs[i := after]))
  {
  }

  lemma PushQuiet(s: Subscription, v: int)
    requires Sound(s.outer)
    ensures DriveOuter(s, Iterators.Push(v)) == s.(outer := Drive(s.outer, Iterators.Push(v)))
    ensures s.outer.finished ==> Drive(s.outer, Iterators.Push(v)) == s.outer
    ensures !s.outer.finished ==> !Drive(s.outer, Iterators.Push(v)).finished
  {
    DrivePush(s.outer, v);
  }

  lemma ValueStays(s: Subscription, r: nat, v: int)
    requires Fits(s) && NothingAhead(s) && Enabled(s, LoopResumes(r)) && Settled(s.epochs[s.runs[r].epoch]) == Some(Iterators.Value(v))
    ensures StaysEnded(s, Step(s, LoopResumes(r)))
  {
    var i := s.runs[r].epoch;
    assert LoopOf(s.runs) == Some(i) && InnerFits(s.epochs[i]);
    TakingEnds(s.epochs[i], v);
    ValueStep(s, r, v);
    PushQuiet(s.(epochs := s.epochs[i := Taken(s.epochs[i], v)]), v);
  }

  lemma DoneStays(s: Subscription, r: nat)
    requires Fits(s) && NothingAhead(s) && Enabled(s, LoopResumes(r)) && Settled(s.epochs[s.runs[r].epoch]) == Some(Iterators.Outcome.Done)
    ensures StaysEnded(s, Step(s, LoopResumes(r)))
  {
    DoneStep(s, r);
    ReturnInnerEnds(s.epochs, s.inner);
    OverEnds(s, Step(s, LoopResumes(r)), r);
  }

  lemma RejectedStays(s: Subscription, r: nat, error: Iterators.Error)
    requires Fits(s) && NothingAhead(s) && Enabled(s, LoopResumes(r))
    requires Settled(s.epochs[s.runs[r].epoch]) == Some(Iterators.Outcome<int>.Rejected(error))
    ensures StaysEnded(s, Step(s, LoopResumes(r)))
  {
    var u := DriveOuter(s, Iterators.Throw(error));
    assert LoopOf(s.runs) == Some(s.runs[r].epoch) && !ShouldRetry(error);
    DrivenEnds(s, Iterators.Throw(error));
    ReturnInnerKeeps(s.epochs, s.inner);
    ReturnInnerEnds(u.epochs, u.inner);
    assert AllEnd(s.epochs, ReturnInner(u.epochs, u.inner));
    OverEnds(s, Step(s, LoopResumes(r)), r);
  }

  lemma NoneStarts(s: Subscription, e: Event)
    requires OneRun(s.runs, s.timers) && NoneConnects(s) && Enabled(s, e)
    ensures !e.Connected? && !e.ConnectionFails? && !e.RetryFires?
  {
  }

  lemma StepStays(s: Subscription, e: Event)
    requires Fits(s) && NothingAhead(s) && InOrder(s, e)
    ensures StaysEnded(s, Step(s, e))
  {
    match e
    case Consumes(event) => ConsumedStays(s, event);
    case Inner(i, event) => InnerStays(s, i, event);
    case ClientCloses => ClosedStays(s);
    case LoopResumes(r) =>
      match Settled(s.epochs[s.runs[r].epoch]).value {
        case Value(v) => ValueStays(s, r, v);
        case Done => DoneStays(s, r);
        case Rejected(error) => RejectedStays(s, r, error);
      }
    case _ => NoneStarts(s, e);
  }

  lemma {:induction false} StaysForEver(s: Subscription, later: seq<Event>)
    requires Fits(s) && NothingAhead(s) && After(s, later).Some?
    ensures Fits(After(s, later).value) && StaysEnded(s, After(s, later).value)
  {
    if later != [] {
      StaysForEver(s, later[..|later| - 1]);
      var t := After(s, later[..|later| - 1]).value;
      StepFits(t, later[|later| - 1]);
      StepStays(t, later[|later| - 1]);
    }
  }
}
