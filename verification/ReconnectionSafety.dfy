/** Every run of a reconnecting subscription: one run at a time, concatenated epochs, and how it ends. */
module ReconnectionSafety {
  import opened GraphQLAst
  import Iterators = PushIterators
  import opened ClientIterators
  import opened Reconnections
  import opened InnerIterators

  /** All values that the loops took, one epoch after the other. */
  function Concat(epochs: seq<Epoch>): seq<int> {
    if epochs == [] then [] else Concat(epochs[..|epochs| - 1]) + epochs[|epochs| - 1].taken
  }

  // ----- the invariant -----

  /** At most one run, or the timer that will start the next one. */
  predicate OneRun(runs: seq<Run>, timers: nat) {
    && (forall k | 0 <= k < |runs| - 1 :: runs[k].Over?)
    && timers <= 1 && (timers == 1 ==> runs != [] && runs[|runs| - 1].Over?)
  }

  function LoopOf(runs: seq<Run>): Option<nat> {
    if runs != [] && runs[|runs| - 1].Looping? then Some(runs[|runs| - 1].epoch) else None
  }

  predicate Active(runs: seq<Run>, timers: nat) {
    timers > 0 || (runs != [] && !runs[|runs| - 1].Over?)
  }

  ghost predicate EpochsFit(epochs: seq<Epoch>) {
    forall i | 0 <= i < |epochs| :: InnerFits(epochs[i])
  }

  /** The loop of an epoch that is over saw its end or its failure. */
  predicate LoopOver(epoch: Epoch) {
    Settled(epoch).Some? && !Settled(epoch).value.Value?
  }

  /** All loops are over; the inner iterator that is still to be returned may be one that only failed to set up. */
  predicate Ending(epochs: seq<Epoch>, inner: Option<nat>) {
    forall i | 0 <= i < |epochs| :: LoopOver(epochs[i]) && (inner != Some(i) ==> epochs[i].it.done)
  }

  ghost predicate LoopFits(runs: seq<Run>, timers: nat, inner: Option<nat>, epochs: seq<Epoch>, finished: bool) {
    && OneRun(runs, timers)
    && (inner.Some? ==> inner.value < |epochs|)
    && (forall i | 0 <= i < |epochs| && LoopOf(runs) != Some(i) :: LoopOver(epochs[i]) && epochs[i].it.done)
    && match LoopOf(runs)
       case None => true
       case Some(i) => inner == Some(i) && i + 1 == |epochs| && (epochs[i].it.cause == Iterators.Returned ==> finished)
  }

  ghost predicate OuterFits(outer: Iterator, total: seq<int>, runs: seq<Run>, timers: nat) {
    && Sound(outer) && (runs != [] <==> outer.initialized) && (outer.setup.Settled? ==> outer.setup.withTeardown)
    && outer.accepted <= total && (!outer.finished ==> outer.accepted == total)
    && (outer.cause.Thrown? ==> !ShouldRetry(outer.cause.error) && !Active(runs, timers) && runs != [])
  }

  /** The iterator of this epoch ended because its producer finished, and the loop took all it accepted. */
  predicate Drained(epoch: Epoch) {
    epoch.it.cause == Iterators.Drained && epoch.it.finished && epoch.it.accepted == epoch.taken
  }

  predicate EndFits(outer: Iterator, closed: bool, finisher: Option<nat>, epochs: seq<Epoch>, runs: seq<Run>, timers: nat) {
    && (outer.finished ==> outer.cause == Iterators.Returned || closed || finisher.Some?)
    && (runs != [] && !Active(runs, timers) ==> outer.finished || outer.done)
    && match finisher
       case None => true
       case Some(i) => outer.finished && !Active(runs, timers) && runs != [] && i + 1 == |epochs| && Drained(epochs[i]) && outer.accepted == Concat(epochs)
  }

  ghost predicate Fits(s: Subscription) {
    && EpochsFit(s.epochs)
    && LoopFits(s.runs, s.timers, s.inner, s.epochs, s.outer.finished)
    && OuterFits(s.outer, Concat(s.epochs), s.runs, s.timers)
    && EndFits(s.outer, s.closed, s.finisher, s.epochs, s.runs, s.timers)
  }

  // ----- changes of one epoch -----

  lemma ConcatSame(epochs: seq<Epoch>, others: seq<Epoch>)
    requires |epochs| == |others| && forall i | 0 <= i < |epochs| :: epochs[i].taken == others[i].taken
    ensures Concat(epochs) == Concat(others)
  {
  }

  lemma DoneStays(it: Iterator, e: Iterators.Event<int>)
    requires Sound(it) && it.done && it.finished && Iterators.Enabled(it, e)
    ensures var t := Drive(it, e); t.cause == it.cause && t.finished && t.accepted == it.accepted
  {
  }

  /** What an event of an inner iterator keeps: its loop's outcome, the values taken, and a normal end. */
  predicate Keeps(before: Epoch, after: Epoch) {
    && after.taken == before.taken
    && (LoopOver(before) ==> LoopOver(after))
    && (before.it.done ==> after.it.done)
    && (Drained(before) ==> Drained(after))
  }

  lemma SocketKeeps(epoch: Epoch, e: Iterators.Event<int>)
    requires InnerFits(epoch) && OfSocket(e) && Iterators.Enabled(epoch.it, e)
    ensures InnerFits(epoch.(it := Drive(epoch.it, e))) && Keeps(epoch, epoch.(it := Drive(epoch.it, e)))
  {
    SocketFits(epoch, e);
    if Drained(epoch) {
      DoneStays(epoch.it, e);
    }
  }

  lemma ReturnKeeps(epoch: Epoch)
    requires InnerFits(epoch)
    ensures InnerFits(epoch.(it := Drive(epoch.it, Iterators.Return)))
    ensures Keeps(epoch, epoch.(it := Drive(epoch.it, Iterators.Return))) && Drive(epoch.it, Iterators.Return).done
  {
    QuietFits(epoch, Iterators.Return);
    if Drained(epoch) {
      DoneStays(epoch.it, Iterators.Return);
    }
  }

  ghost predicate AllKeep(epochs: seq<Epoch>, others: seq<Epoch>) {
    && |epochs| == |others| && EpochsFit(others)
    && forall i | 0 <= i < |epochs| :: Keeps(epochs[i], others[i])
  }

  lemma ReturnInnerKeeps(epochs: seq<Epoch>, inner: Option<nat>)
    requires EpochsFit(epochs)
    ensures AllKeep(epochs, ReturnInner(epochs, inner)) && Concat(ReturnInner(epochs, inner)) == Concat(epochs)
    ensures inner.Some? && inner.value < |epochs| ==> ReturnInner(epochs, inner)[inner.value].it.done
  {
    if inner.Some? && inner.value < |epochs| {
      var i := inner.value;
      ReturnKeeps(epochs[i]);
      OneKeeps(epochs, i, epochs[i].(it := Drive(epochs[i].it, Iterators.Return)));
    } else {
      KeptItself(epochs);
    }
  }

  // ----- the outer iterator -----

  /** What an event keeps of the outer iterator's part, apart from what it accepts. */
  predicate Goes(outer: Iterator, after: Iterator) {
    && (outer.finished ==> after.finished)
    && (outer.initialized ==> after.initialized)
    && (after.cause == outer.cause || (outer.cause == Iterators.NotEnded && (after.cause == Iterators.Returned || after.cause == Iterators.Drained)))
    && (after.finished && !outer.finished ==> after.cause == Iterators.Returned)
    && after.accepted == outer.accepted
  }

  lemma ConsumerGoes(outer: Iterator, e: Iterators.Event<int>)
    requires Sound(outer) && OfConsumer(e) && Iterators.Enabled(outer, e)
    ensures Sound(Drive(outer, e)) && Goes(outer, Drive(outer, e))
    ensures e.Next? ==> Drive(outer, e).initialized
  {
    DriveSound(outer, e);
    DriveConsumer(outer, e);
    StaysInitialized(outer, e);
  }

  lemma StaysInitialized(outer: Iterator, e: Iterators.Event<int>)
    requires Iterators.Enabled(outer, e)
    ensures outer.initialized || e.Next? ==> Drive(outer, e).initialized
  {
    match e
    case Next(call) => BodyStaysInitialized(outer, call);
    case SetupResolves(withTeardown) =>
      BodyStaysInitialized(outer.(teardown := withTeardown, setup := Iterators.Setup.Settled(withTeardown, outer.done)), outer.setup.caller);
    case Resumes(call) => BodyStaysInitialized(outer.(runnable := outer.runnable - {call}), call);
    case _ =>
  }

  lemma BodyStaysInitialized(outer: Iterator, call: nat)
    ensures Iterators.Body(outer, call).initialized == outer.initialized
  {
  }

  lemma TornDownIsDone(outer: Iterator)
    requires Sound(outer) && outer.teardowns > 0
    ensures outer.done && (outer.cause.Thrown? || outer.finished)
  {
  }

  lemma LoopFitsKept(s: Subscription, others: seq<Epoch>, finished: bool)
    requires LoopFits(s.runs, s.timers, s.inner, s.epochs, s.outer.finished) && AllKeep(s.epochs, others)
    requires s.outer.finished ==> finished
    requires LoopOf(s.runs).Some? && others[LoopOf(s.runs).value].it.cause == Iterators.Returned ==> finished
    ensures LoopFits(s.runs, s.timers, s.inner, others, finished)
  {
    forall i | 0 <= i < |others| && LoopOf(s.runs) != Some(i) ensures LoopOver(others[i]) {
      assert LoopOver(s.epochs[i]) && Keeps(s.epochs[i], others[i]);
    }
  }

  lemma KeptItself(epochs: seq<Epoch>)
    requires EpochsFit(epochs)
    ensures AllKeep(epochs, epochs)
  {
  }

  /** A segment of the outer iterator, its teardown included, and the epochs. */
  lemma DrivenEpochs(s: Subscription, e: Iterators.Event<int>)
    requires EpochsFit(s.epochs) && LoopFits(s.runs, s.timers, s.inner, s.epochs, s.outer.finished)
    requires Iterators.Enabled(s.outer, e) && Sound(Drive(s.outer, e)) && (s.outer.finished ==> Drive(s.outer, e).finished)
    requires LoopOf(s.runs).Some? ==> !Drive(s.outer, e).cause.Thrown?
    ensures var t := DriveOuter(s, e);
            && t == s.(outer := Drive(s.outer, e), registered := t.registered, epochs := t.epochs)
            && AllKeep(s.epochs, t.epochs) && Concat(t.epochs) == Concat(s.epochs)
            && LoopFits(t.runs, t.timers, t.inner, t.epochs, t.outer.finished)
  {
    var outer, t := Drive(s.outer, e), DriveOuter(s, e);
    if outer.teardowns > s.outer.teardowns {
      TornDownIsDone(outer);
      ReturnInnerKeeps(s.epochs, s.inner);
    } else {
      KeptItself(s.epochs);
    }
    LoopFitsKept(s, t.epochs, outer.finished);
  }

  lemma EndKept(s: Subscription, outer: Iterator, others: seq<Epoch>)
    requires EndFits(s.outer, s.closed, s.finisher, s.epochs, s.runs, s.timers) && AllKeep(s.epochs, others)
    requires s.outer.finished ==> outer.finished && (s.outer.cause == Iterators.Returned ==> outer.cause == Iterators.Returned)
    requires (outer.finished && !s.outer.finished ==> outer.cause == Iterators.Returned) && outer.accepted == s.outer.accepted
    requires s.outer.done ==> outer.done
    ensures EndFits(outer, s.closed, s.finisher, others, s.runs, s.timers)
  {
    ConcatSame(s.epochs, others);
    if s.finisher.Some? {
      assert Keeps(s.epochs[s.finisher.value], others[s.finisher.value]);
    }
  }

  // ----- the events -----

  lemma ConsumedOuter(outer: Iterator, total: seq<int>, runs: seq<Run>, timers: nat, e: Iterators.Event<int>, others: seq<Run>)
    requires OuterFits(outer, total, runs, timers) && OfConsumer(e) && Iterators.Enabled(outer, e) && (runs == [] ==> timers == 0)
    requires others == if e.Next? && !outer.initialized then [Connecting] else runs
    ensures OuterFits(Drive(outer, e), total, others, timers)
  {
    ConsumerGoes(outer, e);
    OnlyNextInitializes(outer, e);
  }

  lemma OnlyNextInitializes(outer: Iterator, e: Iterators.Event<int>)
    requires Sound(outer) && OfConsumer(e) && Iterators.Enabled(outer, e) && (outer.setup.Settled? ==> outer.setup.withTeardown)
    ensures !outer.initialized && !e.Next? ==> !Drive(outer, e).initialized
    ensures Drive(outer, e).setup.Settled? ==> Drive(outer, e).setup.withTeardown
  {
  }

  /** The first run leaves no loop behind. */
  lemma ConsumedLoop(s: Subscription, e: Iterators.Event<int>, runs: seq<Run>)
    requires EpochsFit(s.epochs) && LoopFits(s.runs, s.timers, s.inner, s.epochs, s.outer.finished)
    requires OuterFits(s.outer, Concat(s.epochs), s.runs, s.timers)
    requires EndFits(s.outer, s.closed, s.finisher, s.epochs, s.runs, s.timers)
    requires Enabled(s, Consumes(e)) && runs == if e.Next? && !s.outer.initialized then [Connecting] else s.runs
    ensures var t := DriveOuter(s, e);
            && t == s.(outer := Drive(s.outer, e), registered := t.registered, epochs := t.epochs)
            && EpochsFit(t.epochs) && Concat(t.epochs) == Concat(s.epochs)
            && LoopFits(runs, t.timers, t.inner, t.epochs, t.outer.finished)
            && EndFits(t.outer, t.closed, t.finisher, t.epochs, runs, t.timers)
  {
    ConsumerGoes(s.outer, e);
    DrivenEpochs(s, e);
    EndKept(s, Drive(s.outer, e), DriveOuter(s, e).epochs);
  }

  lemma ConsumedFits(s: Subscription, e: Iterators.Event<int>, runs: seq<Run>, registered: bool)
    requires Fits(s) && Enabled(s, Consumes(e)) && runs == if e.Next? && !s.outer.initialized then [Connecting] else s.runs
    ensures Fits(DriveOuter(s, e).(runs := runs, registered := registered))
  {
    ConsumedLoop(s, e, runs);
    ConsumedOuter(s.outer, Concat(s.epochs), s.runs, s.timers, e, runs);
  }

  /** The first `next` starts the first run. */
  lemma AfterConsumes(s: Subscription, e: Iterators.Event<int>)
    requires Fits(s) && Enabled(s, Consumes(e))
    ensures Fits(Step(s, Consumes(e)))
  {
    var runs := if e.Next? && !s.outer.initialized then [Connecting] else s.runs;
    assert s.runs + [Connecting] == if s.runs == [] then [Connecting] else s.runs + [Connecting];
    var t := Step(s, Consumes(e));
    ConsumedFits(s, e, runs, t.registered);
    assert t == DriveOuter(s, e).(runs := runs, registered := t.registered);
  }

  lemma AfterConnected(s: Subscription, r: nat, acked: bool)
    requires Fits(s) && Enabled(s, Connected(r, acked))
    ensures Fits(Step(s, Connected(r, acked)))
  {
    FirstFits(acked);
    WithEpoch(s, r, FirstEpoch(acked));
  }

  lemma WithEpoch(s: Subscription, r: nat, first: Epoch)
    requires Fits(s) && r < |s.runs| && s.runs[r].Connecting?
    requires InnerFits(first) && first.taken == [] && first.it.cause == Iterators.NotEnded
    ensures Fits(s.(runs := s.runs[r := Looping(|s.epochs|)], inner := Some(|s.epochs|), epochs := s.epochs + [first]))
  {
    var runs := s.runs[r := Looping(|s.epochs|)];
    OneMoreEpoch(s.epochs, first);
    assert r == |s.runs| - 1 && LoopOf(runs) == Some(|s.epochs|);
    StillRunning(s.outer, s.outer, s.closed, s.finisher, s.epochs, s.runs, s.timers, s.epochs + [first]);
    ConnectedLoop(s, r, first);
  }

  lemma OneMoreEpoch(epochs: seq<Epoch>, first: Epoch)
    requires EpochsFit(epochs) && InnerFits(first) && first.taken == []
    ensures EpochsFit(epochs + [first]) && Concat(epochs + [first]) == Concat(epochs)
  {
    assert (epochs + [first])[..|epochs|] == epochs;
    assert Concat(epochs + [first]) == Concat(epochs) + [];
  }

  lemma ConnectedLoop(s: Subscription, r: nat, first: Epoch)
    requires LoopFits(s.runs, s.timers, s.inner, s.epochs, s.outer.finished) && r < |s.runs| && s.runs[r].Connecting?
    requires first.it.cause == Iterators.NotEnded
    ensures LoopFits(s.runs[r := Looping(|s.epochs|)], s.timers, Some(|s.epochs|), s.epochs + [first], s.outer.finished)
  {
    assert LoopOf(s.runs).None?;
  }

  lemma OneKeeps(epochs: seq<Epoch>, i: nat, after: Epoch)
    requires EpochsFit(epochs) && i < |epochs| && InnerFits(after) && Keeps(epochs[i], after)
    ensures AllKeep(epochs, epochs[i := after]) && Concat(epochs[i := after]) == Concat(epochs)
  {
    ConcatSame(epochs, epochs[i := after]);
  }

  lemma AfterInner(s: Subscription, i: nat, e: Iterators.Event<int>)
    requires Fits(s) && Enabled(s, Inner(i, e))
    ensures Fits(Step(s, Inner(i, e)))
  {
    var after := s.epochs[i].(it := Drive(s.epochs[i].it, e));
    var others := s.epochs[i := after];
    SocketKeeps(s.epochs[i], e);
    OneKeeps(s.epochs, i, after);
    if after.it.cause == Iterators.Returned {
      SocketNeverReturns(s.epochs[i].it, e);
    }
    LoopFitsKept(s, others, s.outer.finished);
    EndKept(s, s.outer, others);
  }

  lemma AfterRetry(s: Subscription)
    requires Fits(s) && Enabled(s, RetryFires)
    ensures Fits(Step(s, RetryFires))
  {
    assert LoopOf(s.runs + [Connecting]).None?;
  }

  lemma AfterClientCloses(s: Subscription)
    requires Fits(s) && Enabled(s, ClientCloses)
    ensures Fits(Step(s, ClientCloses))
  {
    var u := s.(closed := true);
    DriveSound(s.outer, Iterators.Finish);
    DriveFinish(s.outer);
    StaysInitialized(s.outer, Iterators.Finish);
    DrivenEpochs(u, Iterators.Finish);
  }

  // ----- the loop -----

  lemma OneTaken(epochs: seq<Epoch>, after: Epoch, v: int)
    requires epochs != [] && after.taken == epochs[|epochs| - 1].taken + [v]
    ensures Concat(epochs[|epochs| - 1 := after]) == Concat(epochs) + [v]
  {
    assert epochs[|epochs| - 1 := after][..|epochs| - 1] == epochs[..|epochs| - 1];
  }

  /** The loop takes a value: its epoch is the last one. */
  lemma TakenFits(s: Subscription, i: nat, after: Epoch)
    requires EpochsFit(s.epochs) && LoopFits(s.runs, s.timers, s.inner, s.epochs, s.outer.finished) && LoopOf(s.runs) == Some(i)
    requires InnerFits(after) && (after.it.cause == Iterators.Returned ==> s.epochs[i].it.cause == Iterators.Returned)
    ensures EpochsFit(s.epochs[i := after])
    ensures LoopFits(s.runs, s.timers, s.inner, s.epochs[i := after], s.outer.finished)
  {
  }

  lemma PushedOuter(outer: Iterator, total: seq<int>, runs: seq<Run>, timers: nat, v: int)
    requires OuterFits(outer, total, runs, timers)
    ensures OuterFits(Drive(outer, Iterators.Push(v)), total + [v], runs, timers)
    ensures Drive(outer, Iterators.Push(v)).finished == outer.finished && Drive(outer, Iterators.Push(v)).cause == outer.cause
  {
    DriveSound(outer, Iterators.Push(v));
    DrivePush(outer, v);
    StaysInitialized(outer, Iterators.Push(v));
  }

  lemma ValueStep(s: Subscription, r: nat, v: int)
    requires Enabled(s, LoopResumes(r)) && Settled(s.epochs[s.runs[r].epoch]) == Some(Iterators.Value(v))
    ensures var i := s.runs[r].epoch;
            var after := Taken(s.epochs[i], v);
            Step(s, LoopResumes(r)) == DriveOuter(s.(epochs := s.epochs[i := after]), Iterators.Push(v))
  {
  }

  lemma ValueFits(s: Subscription, i: nat, after: Epoch, v: int)
    requires Fits(s) && LoopOf(s.runs) == Some(i) && InnerFits(after) && after.taken == s.epochs[i].taken + [v]
    requires after.it.cause == Iterators.Returned ==> s.epochs[i].it.cause == Iterators.Returned
    ensures Fits(DriveOuter(s.(epochs := s.epochs[i := after]), Iterators.Push(v)))
  {
    var u := s.(epochs := s.epochs[i := after]);
    OneTaken(s.epochs, after, v);
    TakenFits(s, i, after);
    PushedOuter(s.outer, Concat(s.epochs), s.runs, s.timers, v);
    DrivenEpochs(u, Iterators.Push(v));
    StillRunning(s.outer, Drive(s.outer, Iterators.Push(v)), s.closed, s.finisher, s.epochs, s.runs, s.timers,
                 DriveOuter(u, Iterators.Push(v)).epochs);
  }

  lemma AfterValue(s: Subscription, r: nat, v: int)
    requires Fits(s) && Enabled(s, LoopResumes(r)) && Settled(s.epochs[s.runs[r].epoch]) == Some(Iterators.Value(v))
    ensures Fits(Step(s, LoopResumes(r)))
  {
    var i := s.runs[r].epoch;
    TakesFits(s.epochs[i], v);
    ValueFits(s, i, Taken(s.epochs[i], v), v);
    ValueStep(s, r, v);
  }

  /** While a run is active, no run has finished the outer iterator. */
  lemma StillRunning(outer: Iterator, after: Iterator, closed: bool, finisher: Option<nat>, epochs: seq<Epoch>,
                     runs: seq<Run>, timers: nat, others: seq<Epoch>)
    requires EndFits(outer, closed, finisher, epochs, runs, timers) && Active(runs, timers)
    requires after.finished == outer.finished && after.cause == outer.cause
    ensures EndFits(after, closed, finisher, others, runs, timers)
  {
  }

  lemma FinallyFits(s: Subscription, r: nat, runs: seq<Run>, timers: nat)
    requires OneRun(s.runs, 0) && r == |s.runs| - 1 && timers <= 1 && runs == s.runs[r := Over]
    requires EpochsFit(s.epochs) && Ending(s.epochs, s.inner)
    requires s.inner.Some? ==> s.inner.value < |s.epochs|
    ensures var epochs := ReturnInner(s.epochs, s.inner);
            LoopFits(runs, timers, s.inner, epochs, s.outer.finished) && AllKeep(s.epochs, epochs) && Concat(epochs) == Concat(s.epochs)
  {
    ReturnInnerKeeps(s.epochs, s.inner);
    var epochs := ReturnInner(s.epochs, s.inner);
    forall i | 0 <= i < |epochs| ensures LoopOver(epochs[i]) && epochs[i].it.done {
      assert LoopOver(s.epochs[i]) && Keeps(s.epochs[i], epochs[i]);
    }
  }

  /** `finish` after the normal end of the last epoch. */
  lemma FinishedEnd(s: Subscription, i: nat, epochs: seq<Epoch>, runs: seq<Run>)
    requires EndFits(s.outer, s.closed, s.finisher, s.epochs, s.runs, s.timers) && Active(s.runs, s.timers)
    requires i + 1 == |s.epochs| && Sound(s.outer)
    requires !s.outer.finished ==> s.outer.accepted == Concat(s.epochs) && Drained(s.epochs[i])
    requires AllKeep(s.epochs, epochs) && runs != [] && !Active(runs, s.timers)
    ensures EndFits(Drive(s.outer, Iterators.Finish), s.closed, if s.outer.finished then s.finisher else Some(i), epochs, runs, s.timers)
  {
    DriveFinish(s.outer);
    ConcatSame(s.epochs, epochs);
    assert Keeps(s.epochs[i], epochs[i]);
  }

  lemma DrainedEpoch(epoch: Epoch)
    requires InnerFits(epoch) && Settled(epoch) == Some(Iterators.Outcome.Done) && epoch.it.cause != Iterators.Returned
    ensures Drained(epoch)
  {
    EndedNormally(epoch);
  }

  lemma DoneStep(s: Subscription, r: nat)
    requires Enabled(s, LoopResumes(r)) && Settled(s.epochs[s.runs[r].epoch]) == Some(Iterators.Outcome.Done) && Sound(s.outer)
    ensures Step(s, LoopResumes(r)) ==
            s.(outer := Drive(s.outer, Iterators.Finish), runs := s.runs[r := Over], epochs := ReturnInner(s.epochs, s.inner),
               finisher := if s.outer.finished then s.finisher else Some(s.runs[r].epoch))
  {
    FinishQuiet(s.(finisher := if s.outer.finished then s.finisher else Some(s.runs[r].epoch)));
  }

  lemma AfterDone(s: Subscription, r: nat)
    requires Fits(s) && Enabled(s, LoopResumes(r)) && Settled(s.epochs[s.runs[r].epoch]) == Some(Iterators.Outcome.Done)
    ensures Fits(Step(s, LoopResumes(r)))
  {
    DoneStep(s, r);
    DoneFits(s, r);
  }

  lemma DoneFits(s: Subscription, r: nat)
    requires Fits(s) && Enabled(s, LoopResumes(r)) && Settled(s.epochs[s.runs[r].epoch]) == Some(Iterators.Outcome.Done)
    ensures Fits(s.(outer := Drive(s.outer, Iterators.Finish), runs := s.runs[r := Over], epochs := ReturnInner(s.epochs, s.inner),
                    finisher := if s.outer.finished then s.finisher else Some(s.runs[r].epoch)))
  {
    var i, runs, epochs := s.runs[r].epoch, s.runs[r := Over], ReturnInner(s.epochs, s.inner);
    assert LoopFits(runs, s.timers, s.inner, epochs, true) && AllKeep(s.epochs, epochs) && Concat(epochs) == Concat(s.epochs) by {
      FinallyFits(s, r, runs, s.timers);
      FinishedLoop(s, runs);
    }
    FinishedOuter(s.outer, Concat(s.epochs), s.runs, s.timers, runs);
    assert EndFits(Drive(s.outer, Iterators.Finish), s.closed, if s.outer.finished then s.finisher else Some(i), epochs, runs, s.timers) by {
      if s.epochs[i].it.cause != Iterators.Returned {
        DrainedEpoch(s.epochs[i]);
      }
      FinishedEnd(s, i, epochs, runs);
    }
  }

  lemma FinishedLoop(s: Subscription, runs: seq<Run>)
    requires LoopOf(runs).None? && LoopFits(runs, s.timers, s.inner, ReturnInner(s.epochs, s.inner), s.outer.finished)
    ensures LoopFits(runs, s.timers, s.inner, ReturnInner(s.epochs, s.inner), true)
  {
  }

  lemma FinishQuiet(s: Subscription)
    requires Sound(s.outer)
    ensures DriveOuter(s, Iterators.Finish) == s.(outer := Drive(s.outer, Iterators.Finish))
  {
    DriveFinish(s.outer);
  }

  lemma FinishedOuter(outer: Iterator, total: seq<int>, runs: seq<Run>, timers: nat, others: seq<Run>)
    requires OuterFits(outer, total, runs, timers) && Active(runs, timers) && runs != [] && others != []
    ensures OuterFits(Drive(outer, Iterators.Finish), total, others, timers)
    ensures Drive(outer, Iterators.Finish).finished && Drive(outer, Iterators.Finish).cause == outer.cause
  {
    DriveSound(outer, Iterators.Finish);
    DriveFinish(outer);
    StaysInitialized(outer, Iterators.Finish);
  }

  /** A run that fails leaves the timer of the next one, or throws into the outer iterator. */
  lemma AfterFailure(s: Subscription, r: nat, error: Iterators.Error)
    requires Fits(s) && r == |s.runs| - 1 && !s.runs[r].Over? && error.truthy
    requires Ending(s.epochs, s.inner)
    ensures Fits(Finally(Caught(s, error), r))
  {
    if ShouldRetry(error) {
      FinallyFits(s, r, s.runs[r := Over], 1);
      EndKept(s, s.outer, ReturnInner(s.epochs, s.inner));
    } else {
      ThrownFits(s, r, error);
    }
  }

  lemma ThrownOuter(outer: Iterator, total: seq<int>, runs: seq<Run>, timers: nat, others: seq<Run>, error: Iterators.Error)
    requires OuterFits(outer, total, runs, timers) && Active(runs, timers) && error.truthy && !ShouldRetry(error)
    requires others != [] && !Active(others, 0) && (runs == [] ==> outer.initialized)
    ensures OuterFits(Drive(outer, Iterators.Throw(error)), total, others, 0)
    ensures Drive(outer, Iterators.Throw(error)).finished == outer.finished
    ensures Drive(outer, Iterators.Throw(error)).cause == if outer.done then outer.cause else Iterators.Thrown(error)
  {
    DriveSound(outer, Iterators.Throw(error));
    DriveThrow(outer, error);
    StaysInitialized(outer, Iterators.Throw(error));
  }

  /** `throw` on the outer iterator, its teardown included: all loops are still over. */
  lemma ThrownEpochs(s: Subscription, error: Iterators.Error)
    requires EpochsFit(s.epochs) && Ending(s.epochs, s.inner)
    ensures var u := DriveOuter(s, Iterators.Throw(error));
            && AllKeep(s.epochs, u.epochs) && Concat(u.epochs) == Concat(s.epochs)
            && u == s.(outer := Drive(s.outer, Iterators.Throw(error)), registered := u.registered, epochs := u.epochs)
            && Ending(u.epochs, u.inner)
  {
    var u := DriveOuter(s, Iterators.Throw(error));
    if u.outer.teardowns > s.outer.teardowns {
      ReturnInnerKeeps(s.epochs, s.inner);
    } else {
      KeptItself(s.epochs);
    }
    forall i | 0 <= i < |u.epochs| ensures LoopOver(u.epochs[i]) && (s.inner != Some(i) ==> u.epochs[i].it.done) {
      assert Keeps(s.epochs[i], u.epochs[i]);
    }
  }

  /** The same, and the run that threw is over. */
  lemma ThrownLoop(s: Subscription, r: nat, error: Iterators.Error)
    requires EpochsFit(s.epochs) && Ending(s.epochs, s.inner)
    requires OneRun(s.runs, 0) && r == |s.runs| - 1 && (s.inner.Some? ==> s.inner.value < |s.epochs|)
    requires Drive(s.outer, Iterators.Throw(error)).finished == s.outer.finished
    ensures var t := Finally(DriveOuter(s, Iterators.Throw(error)), r);
            && t == s.(outer := Drive(s.outer, Iterators.Throw(error)), runs := s.runs[r := Over],
                       registered := t.registered, epochs := t.epochs)
            && EpochsFit(t.epochs) && Concat(t.epochs) == Concat(s.epochs)
            && LoopFits(s.runs[r := Over], 0, s.inner, t.epochs, s.outer.finished)
  {
    ThrownEpochs(s, error);
    FinallyFits(DriveOuter(s, Iterators.Throw(error)), r, s.runs[r := Over], 0);
  }

  lemma ThrownFits(s: Subscription, r: nat, error: Iterators.Error)
    requires Fits(s) && r == |s.runs| - 1 && !s.runs[r].Over? && error.truthy && !ShouldRetry(error)
    requires Ending(s.epochs, s.inner)
    ensures Fits(Finally(DriveOuter(s, Iterators.Throw(error)), r))
  {
    ThrownOuter(s.outer, Concat(s.epochs), s.runs, s.timers, s.runs[r := Over], error);
    ThrownLoop(s, r, error);
    ThrownEnd(s, s.runs[r := Over], error, Finally(DriveOuter(s, Iterators.Throw(error)), r).epochs);
  }

  lemma ThrownEnd(s: Subscription, runs: seq<Run>, error: Iterators.Error, others: seq<Epoch>)
    requires EndFits(s.outer, s.closed, s.finisher, s.epochs, s.runs, s.timers) && Active(s.runs, s.timers) && Sound(s.outer)
    requires error.truthy
    ensures EndFits(Drive(s.outer, Iterators.Throw(error)), s.closed, s.finisher, others, runs, 0)
  {
    DriveSound(s.outer, Iterators.Throw(error));
    DriveThrow(s.outer, error);
  }

  lemma AfterConnectionFails(s: Subscription, r: nat, error: Iterators.Error)
    requires Fits(s) && Enabled(s, ConnectionFails(r, error))
    ensures Fits(Step(s, ConnectionFails(r, error)))
  {
    AfterFailure(s, r, error);
  }

  lemma AfterRejection(s: Subscription, r: nat, error: Iterators.Error)
    requires Fits(s) && Enabled(s, LoopResumes(r)) && Settled(s.epochs[s.runs[r].epoch]) == Some(Iterators.Outcome<int>.Rejected(error))
    ensures Fits(Step(s, LoopResumes(r)))
  {
    AfterFailure(s, r, error);
  }

  lemma StepFits(s: Subscription, e: Event)
    requires Fits(s) && Enabled(s, e)
    ensures Fits(Step(s, e))
  {
    match e
    case Consumes(event) =>
      AfterConsumes(s, event);
    case Connected(r, acked) => AfterConnected(s, r, acked);
    case ConnectionFails(r, error) => AfterConnectionFails(s, r, error);
    case Inner(i, event) => AfterInner(s, i, event);
    case LoopResumes(r) => AfterLoop(s, r);
    case RetryFires => AfterRetry(s);
    case ClientCloses => AfterClientCloses(s);
  }

  lemma AfterLoop(s: Subscription, r: nat)
    requires Fits(s) && Enabled(s, LoopResumes(r))
    ensures Fits(Step(s, LoopResumes(r)))
  {
    match Settled(s.epochs[s.runs[r].epoch]).value
    case Value(v) => AfterValue(s, r, v);
    case Done => AfterDone(s, r);
    case Rejected(error) => AfterRejection(s, r, error);
  }
}
