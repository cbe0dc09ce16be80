/** src/ws/GraphQLWebSocketClient.ts: the setup function of `subscribe`, each segment between awaits as one method. */
module ReconnectionClass {
  import opened GraphQLAst
  import Iterators = PushIterators
  import opened ClientIterators
  import opened Reconnections
  import opened ReconnectionSafety
  import opened ReconnectionRuns

  /** What the closures of one call of `subscribe` share. */
  class SubscriptionRuns {
    var it: Iterator
    var registered: bool
    var innerIt: Option<nat>
    var epochs: seq<Epoch>
    ghost var rest: Subscription

    /** The abstract state; the runs themselves, their timer, and how the outer iterator ended live in `rest`. */
    ghost function Abstract(): Subscription
      reads this
    {
      rest.(outer := it, registered := registered, inner := innerIt, epochs := epochs)
    }

    /** What every run keeps: one run at a time, the concatenated epochs, and how the outer iterator ends. */
    ghost predicate Valid()
      reads this
    {
      Fits(Abstract())
    }

    constructor ()
      ensures Valid() && Abstract() == InitialSubscription()
    {
      InitialFits();
      it, registered, innerIt, epochs := Iterators.Initial(), false, None, [];
      rest := InitialSubscription();
    }

    /** A segment that the consumer starts; the first one sets the subscription up. */
    method Consume(event: Iterators.Event<int>)
      requires Valid() && Enabled(Abstract(), Consumes(event))
      modifies this
      ensures Valid() && Abstract() == Step(old(Abstract()), Consumes(event))
    {
      ghost var after := Step(Abstract(), Consumes(event));
      StepFits(Abstract(), Consumes(event));
      var first := event.Next? && !it.initialized;
      Drives(event);
      if first {
        registered := true;
        Run();
      }
      assert Abstract() == after;
    }

    /** `run()` up to the await of `requireConnection`. */
    method Run()
      modifies this
      ensures Abstract() == old(Abstract()).(runs := old(Abstract()).runs + [Connecting])
    {
      rest := rest.(runs := rest.runs + [Connecting]);
    }

    /** The connection is there: `innerIt` is a new iterator, and the loop calls its `next`. */
    method ConnectionArrives(r: nat, acked: bool)
      requires Valid() && Enabled(Abstract(), Connected(r, acked))
      modifies this
      ensures Valid() && Abstract() == Step(old(Abstract()), Connected(r, acked))
    {
      ghost var after := Step(Abstract(), Connected(r, acked));
      StepFits(Abstract(), Connected(r, acked));
      innerIt := Some(|epochs|);
      rest := rest.(runs := rest.runs[r := Looping(|epochs|)]);
      epochs := epochs + [FirstEpoch(acked)];
      assert Abstract() == after;
    }

    method ConnectionFailed(r: nat, err: Iterators.Error)
      requires Valid() && Enabled(Abstract(), ConnectionFails(r, err))
      modifies this
      ensures Valid() && Abstract() == Step(old(Abstract()), ConnectionFails(r, err))
    {
      StepFits(Abstract(), ConnectionFails(r, err));
      Fail(r, err);
    }

    /** The `catch` and `finally` clauses of a run. */
    method Fail(r: nat, err: Iterators.Error)
      requires r < |Abstract().runs|
      modifies this
      ensures Abstract() == Finally(Caught(old(Abstract()), err), r)
    {
      Catch(err);
      Finish(r);
    }

    /** The pending `next` of the loop has settled with `result`. */
    method Resume(r: nat, i: nat, result: Iterators.Outcome<int>)
      requires Valid() && Enabled(Abstract(), LoopResumes(r)) && Abstract().runs[r] == Looping(i)
      requires Settled(epochs[i]) == Some(result)
      modifies this
      ensures Valid() && Abstract() == Step(old(Abstract()), LoopResumes(r))
    {
      StepFits(Abstract(), LoopResumes(r));
      match result {
        case Value(v) => TakeValue(r, i, v);
        case Done => TakeEnd(r, i);
        case Rejected(err) => Fail(r, err);
      }
    }

    method TakeValue(r: nat, i: nat, v: int)
      requires Enabled(Abstract(), LoopResumes(r)) && Abstract().runs[r] == Looping(i)
      requires Settled(epochs[i]) == Some(Iterators.Value(v))
      modifies this
      ensures Abstract() == Take(old(Abstract()), r)
    {
      epochs := epochs[i := Taken(epochs[i], v)];
      Drives(Iterators.Push(v));
    }

    method TakeEnd(r: nat, i: nat)
      requires Enabled(Abstract(), LoopResumes(r)) && Abstract().runs[r] == Looping(i)
      requires Settled(epochs[i]) == Some(Iterators.Outcome.Done)
      modifies this
      ensures Abstract() == Take(old(Abstract()), r)
    {
      rest := rest.(finisher := if it.finished then rest.finisher else Some(i));
      Drives(Iterators.Finish);
      Finish(r);
    }

    /** A segment of an inner iterator that its socket starts. */
    method InnerMoves(i: nat, event: Iterators.Event<int>)
      requires Valid() && Enabled(Abstract(), Inner(i, event))
      modifies this
      ensures Valid() && Abstract() == Step(old(Abstract()), Inner(i, event))
    {
      ghost var after := Step(Abstract(), Inner(i, event));
      StepFits(Abstract(), Inner(i, event));
      epochs := epochs[i := epochs[i].(it := Drive(epochs[i].it, event))];
      assert Abstract() == after;
    }

    // The parts of a segment: the invariant holds again at its end.

    method Catch(err: Iterators.Error)
      modifies this
      ensures Abstract() == Caught(old(Abstract()), err)
    {
      if ShouldRetry(err) {
        rest := rest.(timers := rest.timers + 1);
      } else {
        Drives(Iterators.Throw(err));
      }
    }

    /** The `finally` clause. */
    method Finish(r: nat)
      requires r < |Abstract().runs|
      modifies this
      ensures Abstract() == Finally(old(Abstract()), r)
    {
      ReturnInnerIt();
      rest := rest.(runs := rest.runs[r := Over]);
    }

    method RetryTimerFires()
      requires Valid() && Enabled(Abstract(), RetryFires)
      modifies this
      ensures Valid() && Abstract() == Step(old(Abstract()), RetryFires)
    {
      ghost var after := Step(Abstract(), RetryFires);
      StepFits(Abstract(), RetryFires);
      rest := rest.(timers := rest.timers - 1);
      Run();
      assert Abstract() == after;
    }

    /** `close` of the client finishes every subscription it has. */
    method ClientClosed()
      requires Valid() && Enabled(Abstract(), ClientCloses)
      modifies this
      ensures Valid() && Abstract() == Step(old(Abstract()), ClientCloses)
    {
      ghost var after := Step(Abstract(), ClientCloses);
      StepFits(Abstract(), ClientCloses);
      rest := rest.(closed := true);
      Drives(Iterators.Finish);
      assert Abstract() == after;
    }

    /** A segment of the outer iterator, which may call its teardown function. */
    method Drives(event: Iterators.Event<int>)
      requires Iterators.Enabled(it, event)
      modifies this
      ensures Abstract() == DriveOuter(old(Abstract()), event)
    {
      var before := it.teardowns;
      it := Drive(it, event);
      if it.teardowns > before {
        ReturnInnerIt();
        registered := false;
      }
    }

    /** `innerIt?.return()` */
    method ReturnInnerIt()
      modifies this`epochs
      ensures epochs == ReturnInner(old(epochs), innerIt)
    {
      if innerIt.Some? && innerIt.value < |epochs| {
        epochs := epochs[innerIt.value := epochs[innerIt.value].(it := Drive(epochs[innerIt.value].it, Iterators.Return))];
      }
    }
  }
}
