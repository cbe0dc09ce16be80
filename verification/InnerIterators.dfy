/** The inner iterator of one epoch, read by a `for await` loop that has one call pending at a time. */
module InnerIterators {
  import opened GraphQLAst
  import Iterators = PushIterators
  import opened ClientIterators
  import opened Reconnections

  /** Only call `c` can still be pending, and not once it has settled. */
  predicate CallsFit(it: Iterator, c: nat) {
    && it.initialized
    && (forall k | k in it.settled :: k <= c)
    && it.parked + it.runnable <= {c}
    && (it.setup.Pending? ==> it.setup.caller == c)
    && (c in it.settled ==> it.parked + it.runnable == {} && !it.setup.Pending?)
    && (c in it.settled || c in it.parked + it.runnable || it.setup.Pending?)
  }

  /** Values were handed out to the loop only; what it has not taken yet is in its settled call. */
  predicate ValuesFit(it: Iterator, taken: seq<int>) {
    it.handed == taken + (if |taken| in it.settled && it.settled[|taken|].Value? then [it.settled[|taken|].value] else [])
  }

  predicate ErrorsFit(it: Iterator, c: nat) {
    && (it.error.Some? ==> it.error.value.truthy && it.cause == Iterators.Thrown(it.error.value))
    && (c in it.settled && it.settled[c].Rejected? ==> it.settled[c].error.truthy)
  }

  ghost predicate InnerFits(epoch: Epoch) {
    && Sound(epoch.it) && CallsFit(epoch.it, |epoch.taken|)
    && ValuesFit(epoch.it, epoch.taken) && ErrorsFit(epoch.it, |epoch.taken|)
  }

  // ----- the events of the socket, and `return` -----

  predicate Quiet(e: Iterators.Event<int>) {
    e.Push? || e.Finish? || e.Throw? || e.Return?
  }

  /** Events that run no body of `next`. */
  lemma QuietStep(it: Iterator, e: Iterators.Event<int>)
    requires Quiet(e) && Sound(it)
    ensures var t := Drive(it, e);
            && t.settled == it.settled && t.handed == it.handed && t.setup == it.setup && t.initialized == it.initialized
            && t.parked + t.runnable == it.parked + it.runnable
            && (t.error == it.error || (e.Throw? && t.error == Iterators.Truthy(e.error)))
            && (it.done ==> t.cause == it.cause)
            && (t.cause == it.cause || (e.Return? && t.cause == Iterators.Returned) || (e.Throw? && t.cause == Iterators.Thrown(e.error)))
  {
  }

  lemma QuietFits(epoch: Epoch, e: Iterators.Event<int>)
    requires InnerFits(epoch) && Quiet(e) && (e.Throw? ==> e.error.truthy)
    ensures InnerFits(epoch.(it := Drive(epoch.it, e)))
    ensures Settled(epoch.(it := Drive(epoch.it, e))) == Settled(epoch)
  {
    DriveSound(epoch.it, e);
    QuietStep(epoch.it, e);
  }

  /** A body of `next` that runs for the loop's call, be it the first segment or a later one. */
  lemma BodyFits(it: Iterator, taken: seq<int>)
    requires it.parked + it.runnable == {} && !it.setup.Pending? && it.initialized && it.handed == taken
    requires |taken| !in it.settled && forall k | k in it.settled :: k <= |taken|
    requires it.error.Some? ==> it.error.value.truthy && it.done && it.cause == Iterators.Thrown(it.error.value)
    ensures var t := Iterators.Body(it, |taken|);
            CallsFit(t, |taken|) && ValuesFit(t, taken) && ErrorsFit(t, |taken|)
  {
    Iterators.BodySettles(it, |taken|);
    BodyParks(it, |taken|);
  }

  lemma BodyParks(it: Iterator, call: nat)
    requires it.parked + it.runnable == {} && !it.setup.Pending?
    ensures var t := Iterators.Body(it, call);
            && t.parked + t.runnable <= {call} && !t.setup.Pending? && t.initialized == it.initialized && t.error == it.error
            && (Iterators.Verdict(it).Some? ==> t.parked + t.runnable == {})
            && (Iterators.Verdict(it).None? ==> t.parked + t.runnable == {call})
            && (it.done ==> t.cause == it.cause)
  {
    if it.error.Some? {
    } else if it.done {
    } else if it.queue != [] {
    } else if it.finished {
      ReturnParks(it);
    } else {
      assert it.parked + {call} + it.runnable == {call};
    }
  }

  lemma ReturnParks(it: Iterator)
    requires it.parked + it.runnable == {}
    ensures var t := Iterators.DoReturn(it, Iterators.Drained);
            && t.parked + t.runnable == {} && t.setup == it.setup && t.initialized == it.initialized && t.error == it.error
  {
  }

  /** The end of a teardown, if one was started, changes nothing that the loop sees. */
  lemma EndsQuietly(t: Iterator, taken: seq<int>)
    requires CallsFit(t, |taken|) && ValuesFit(t, taken) && ErrorsFit(t, |taken|) && t.tearing
    ensures var u := Iterators.Step(t, Iterators.TeardownEnds(None));
            CallsFit(u, |taken|) && ValuesFit(u, taken) && ErrorsFit(u, |taken|)
  {
  }

  /** The pending call resumes, or setup is over. */
  lemma ResumesFits(epoch: Epoch, e: Iterators.Event<int>)
    requires InnerFits(epoch) && Iterators.Enabled(epoch.it, e) && (e.Resumes? || e == Iterators.SetupResolves(true))
    ensures InnerFits(epoch.(it := Drive(epoch.it, e)))
    ensures Settled(epoch).None?
  {
    var it := epoch.it;
    DriveSound(it, e);
    var t := Iterators.Step(it, e);
    if e.Resumes? {
      BodyFits(it.(runnable := it.runnable - {e.call}), epoch.taken);
    } else {
      BodyFits(it.(teardown := true, setup := Iterators.Setup.Settled(true, it.done)), epoch.taken);
    }
    if t.tearing {
      EndsQuietly(t, epoch.taken);
    }
  }

  lemma RejectsFits(epoch: Epoch, reason: Iterators.Error)
    requires InnerFits(epoch) && Iterators.Enabled(epoch.it, Iterators.SetupRejects(reason)) && reason.truthy
    ensures InnerFits(epoch.(it := Drive(epoch.it, Iterators.SetupRejects(reason))))
    ensures Settled(epoch).None?
  {
    DriveSound(epoch.it, Iterators.SetupRejects(reason));
  }

  /** No event of the socket returns the iterator. */
  lemma SocketFits(epoch: Epoch, e: Iterators.Event<int>)
    requires InnerFits(epoch) && OfSocket(e) && Iterators.Enabled(epoch.it, e)
    ensures InnerFits(epoch.(it := Drive(epoch.it, e)))
    ensures Settled(epoch).Some? ==> Settled(epoch.(it := Drive(epoch.it, e))) == Settled(epoch)
  {
    if Quiet(e) {
      QuietFits(epoch, e);
    } else if e.SetupRejects? {
      RejectsFits(epoch, e.reason);
    } else {
      ResumesFits(epoch, e);
    }
  }

  lemma SocketNeverReturns(it: Iterator, e: Iterators.Event<int>)
    requires OfSocket(e) && Iterators.Enabled(it, e) && Drive(it, e).cause == Iterators.Returned
    ensures it.cause == Iterators.Returned
  {
    match e
    case Resumes(call) => BodyNeverReturns(it.(runnable := it.runnable - {call}), call);
    case SetupResolves(withTeardown) =>
      BodyNeverReturns(it.(teardown := withTeardown, setup := Iterators.Setup.Settled(withTeardown, it.done)), it.setup.caller);
    case _ => QuietNeverReturns(it, e);
  }

  lemma BodyNeverReturns(it: Iterator, call: nat)
    ensures Iterators.Body(it, call).cause == Iterators.Returned ==> it.cause == Iterators.Returned
  {
  }

  lemma QuietNeverReturns(it: Iterator, e: Iterators.Event<int>)
    requires e.Push? || e.Finish? || e.Throw? || e.SetupRejects?
    requires Iterators.Enabled(it, e) && Drive(it, e).cause == Iterators.Returned
    ensures it.cause == Iterators.Returned
  {
  }

  /** The loop takes its value and calls `next` again. */
  lemma TakesFits(epoch: Epoch, v: int)
    requires InnerFits(epoch) && CanTake(epoch) && Settled(epoch) == Some(Iterators.Value(v))
    ensures var after := Taken(epoch, v);
            InnerFits(after) && (after.it.cause == Iterators.Returned ==> epoch.it.cause == Iterators.Returned)
  {
    DriveSound(epoch.it, Iterators.Next(|epoch.taken| + 1));
    Ready(epoch, v);
    NextFits(epoch.it, epoch.taken + [v]);
  }

  /** The loop's next call, while nothing is pending. */
  lemma NextFits(it: Iterator, taken: seq<int>)
    requires it.parked + it.runnable == {} && !it.setup.Pending? && it.initialized && it.handed == taken && !it.tearing
    requires |taken| !in it.settled && forall k | k in it.settled :: k <= |taken|
    requires it.error.Some? ==> it.error.value.truthy && it.done && it.cause == Iterators.Thrown(it.error.value)
    ensures Iterators.Enabled(it, Iterators.Next(|taken|))
    ensures var t := Drive(it, Iterators.Next(|taken|));
            && CallsFit(t, |taken|) && ValuesFit(t, taken) && ErrorsFit(t, |taken|)
            && (t.cause == Iterators.Returned ==> it.cause == Iterators.Returned)
  {
    BodyFits(it, taken);
    BodyNeverReturns(it, |taken|);
    if Iterators.Body(it, |taken|).tearing {
      EndsQuietly(Iterators.Body(it, |taken|), taken);
    }
  }

  /** With its value taken, nothing of the iterator is pending. */
  lemma Ready(epoch: Epoch, v: int)
    requires InnerFits(epoch) && Settled(epoch) == Some(Iterators.Value(v))
    ensures var it, taken := epoch.it, epoch.taken + [v];
            && it.parked + it.runnable == {} && !it.setup.Pending? && it.initialized && it.handed == taken
            && |taken| !in it.settled && (forall k | k in it.settled :: k <= |taken|)
            && (it.error.Some? ==> it.error.value.truthy && it.done && it.cause == Iterators.Thrown(it.error.value))
  {
  }

  lemma FirstFits(acked: bool)
    ensures InnerFits(FirstEpoch(acked))
    ensures Drive(Iterators.Initial(), Iterators.Next(0)).cause == Iterators.NotEnded
  {
    InitialSound();
    DriveSound(Iterators.Initial(), Iterators.Next(0));
  }

  /** The loop's call settled with the normal end. */
  lemma EndedNormally(epoch: Epoch)
    requires InnerFits(epoch) && Settled(epoch) == Some(Iterators.Outcome.Done)
    ensures epoch.it.handed == epoch.taken
    ensures epoch.it.cause == Iterators.Returned || (epoch.it.cause == Iterators.Drained && epoch.it.accepted == epoch.taken)
  {
    if epoch.it.cause != Iterators.Returned {
      DoneMeansDrained(epoch.it, |epoch.taken|);
    }
  }
}
