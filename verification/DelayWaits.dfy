/** src/ws/GraphQLWebSocketClient.ts: who waits for a reconnect delay, and for which one. */
module DelayWaits {
  import opened GraphQLAst
  import opened ReconnectDelays
  import opened Connections

  /**
    The calls that await a delay continue as soon as it is over, before anything can call `requireConnection` again:
    their continuations are the only ones that the timer queues.
   */
  predicate InOrder(c: Connection, e: Event) {
    e.Requires? ==> forall call | call in c.calls && c.calls[call].Delaying? ::
                      c.calls[call].timer < |c.timers| ==> !c.timers[c.calls[call].timer].fired
  }

  ghost predicate RunsInOrder(settings: Settings, events: seq<Event>)
    requires Run(settings, events).Some?
  {
    events == [] ||
    (RunsInOrder(settings, events[..|events| - 1]) && InOrder(Run(settings, events[..|events| - 1]).value, events[|events| - 1]))
  }

  /** All calls that wait, wait for one delay: the current one, until the first of them has forgotten it. */
  ghost predicate OneDelay(c: Connection) {
    && (forall call | call in c.calls && c.calls[call].Delaying? ::
          var t := c.calls[call].timer;
          t < |c.timers| && (c.timer == Some(t) || (c.timer.None? && c.timers[t].fired)))
    && (forall a, b | a in c.calls && b in c.calls && c.calls[a].Delaying? && c.calls[b].Delaying? :: c.calls[a].timer == c.calls[b].timer)
    && (c.timer.Some? ==> c.timer.value < |c.timers| && exists call :: call in c.calls && c.calls[call] == Delaying(c.timer.value))
  }

  lemma OneDelayStep(c: Connection, e: Event)
    requires OneDelay(c) && Enabled(c, e) && InOrder(c, e)
    ensures OneDelay(Step(c, e))
  {
    match e
    case Requires(call) => RequiresOneDelay(c, call);
    case DelayOver(call) => ForgottenDelay(c, call);
    case TimerFires(t) => SameWaits(c, Step(c, e));
    case _ => SameWaits(c, Step(c, e));
  }

  /** No call begins to wait, and none that waits stops. */
  lemma SameWaits(c: Connection, d: Connection)
    requires OneDelay(c) && d.timer == c.timer && |d.timers| == |c.timers|
    requires forall t | 0 <= t < |c.timers| && c.timers[t].fired :: d.timers[t].fired
    requires forall call | call in d.calls && d.calls[call].Delaying? :: call in c.calls && c.calls[call] == d.calls[call]
    requires forall call | call in c.calls && c.calls[call].Delaying? :: call in d.calls && d.calls[call] == c.calls[call]
    ensures OneDelay(d)
  {
    if d.timer.Some? {
      var call :| call in c.calls && c.calls[call] == Delaying(c.timer.value);
      assert call in d.calls && d.calls[call] == Delaying(d.timer.value);
    }
  }

  /** The first of the calls that have waited forgets the delay; the others have waited for the same one. */
  lemma ForgottenDelay(c: Connection, call: CallId)
    requires OneDelay(c) && Enabled(c, DelayOver(call))
    ensures OneDelay(c.(timer := None, calls := c.calls[call := Passed]))
  {
    forall a | a in c.calls && c.calls[a].Delaying? ensures c.timers[c.calls[a].timer].fired {
      assert c.calls[a].timer == c.calls[call].timer;
    }
  }

  lemma RequiresOneDelay(c: Connection, call: CallId)
    requires OneDelay(c) && Enabled(c, Requires(call)) && InOrder(c, Requires(call))
    ensures OneDelay(Required(c, call))
  {
    var d := Required(c, call);
    if Connected(c.sockets, c.current) || c.delay == 0 {
      SameWaits(c, d);
    } else {
      forall a | a in d.calls && d.calls[a].Delaying? ensures d.calls[a] == Delaying(d.timer.value) {
        if a != call {
          assert c.calls[a].timer < |c.timers|;
        }
      }
      assert d.calls[call] == Delaying(d.timer.value);
    }
  }

  lemma {:induction false} RunOneDelay(settings: Settings, events: seq<Event>)
    requires Run(settings, events).Some? && RunsInOrder(settings, events)
    ensures OneDelay(Run(settings, events).value)
  {
    if events != [] {
      RunOneDelay(settings, events[..|events| - 1]);
      OneDelayStep(Run(settings, events[..|events| - 1]).value, events[|events| - 1]);
    }
  }

  /** All calls that wait at one time share one delay. */
  lemma SharedDelay(settings: Settings, events: seq<Event>, a: CallId, b: CallId)
    requires Run(settings, events).Some? && RunsInOrder(settings, events)
    requires var calls := Run(settings, events).value.calls; a in calls && b in calls && calls[a].Delaying? && calls[b].Delaying?
    ensures Run(settings, events).value.calls[a] == Run(settings, events).value.calls[b]
  {
    RunOneDelay(settings, events);
  }

  lemma {:induction false} PrefixRuns(settings: Settings, events: seq<Event>, n: nat)
    requires Run(settings, events).Some? && n <= |events|
    ensures Run(settings, events[..n]).Some?
    ensures RunsInOrder(settings, events) ==> RunsInOrder(settings, events[..n])
    ensures n < |events| ==> Enabled(Run(settings, events[..n]).value, events[n])
    ensures n < |events| && RunsInOrder(settings, events) ==> InOrder(Run(settings, events[..n]).value, events[n])
  {
    if n == |events| {
      assert events[..n] == events;
    } else {
      var init := events[..|events| - 1];
      assert init[..n] == events[..n];
      PrefixRuns(settings, init, n);
    }
  }

  /** The state before event `n`. */
  ghost function At(settings: Settings, events: seq<Event>, n: nat): Connection
    requires Run(settings, events).Some? && n <= |events|
  {
    PrefixRuns(settings, events, n);
    Run(settings, events[..n]).value
  }

  lemma NextAt(settings: Settings, events: seq<Event>, n: nat)
    requires Run(settings, events).Some? && n < |events|
    ensures Enabled(At(settings, events, n), events[n])
    ensures At(settings, events, n + 1) == Step(At(settings, events, n), events[n])
  {
    PrefixRuns(settings, events, n);
    PrefixRuns(settings, events, n + 1);
    assert events[..n + 1][..n] == events[..n];
  }

  /**
    A call made with a live socket, or before any failure, waits for no delay. Any other one waits: for the current delay,
    or for a new one of the length that the failures so far have led to.
   */
  lemma WaitsIff(settings: Settings, events: seq<Event>, i: nat)
    requires Run(settings, events).Some? && i < |events| && events[i].Requires?
    ensures var c, d, call := At(settings, events, i), At(settings, events, i + 1), events[i].call;
            && call in d.calls
            && if (c.current.Some? && c.current.value < |c.sockets| && Live(c.sockets[c.current.value])) || c.delay == 0
               then d.calls[call] == Passed && d.timers == c.timers
               else if c.timer.Some? then d.calls[call] == Delaying(c.timer.value) && d.timers == c.timers
               else d.calls[call] == Delaying(|c.timers|) && d.timers == c.timers + [Timer(c.delay, false)]
  {
    NextAt(settings, events, i);
  }

  /** The timer that a call waits for has fired since. */
  ghost predicate FiredSince(events: seq<Event>, i: nat, j: nat, t: nat) {
    exists k :: i < k < j <= |events| && events[k] == TimerFires(t)
  }

  lemma WaitStep(c: Connection, e: Event, call: CallId, t: nat)
    requires Enabled(c, e) && call in c.calls && t < |c.timers|
    ensures var d := Step(c, e);
            && call in d.calls && t < |d.timers|
            && (d.timers[t].fired ==> c.timers[t].fired || e == TimerFires(t))
            && (c.calls[call] == Delaying(t) ==> d.calls[call] == Delaying(t) || c.timers[t].fired)
  {
  }

  /** Until its delay is over, a call does not go on. */
  lemma {:induction false} WaitsUntilFired(settings: Settings, events: seq<Event>, i: nat, j: nat, t: nat)
    requires Run(settings, events).Some? && i < j <= |events| && events[i].Requires?
    requires events[i].call in At(settings, events, i + 1).calls
    requires At(settings, events, i + 1).calls[events[i].call] == Delaying(t) && t < |At(settings, events, i + 1).timers|
    requires !At(settings, events, i + 1).timers[t].fired
    ensures var c := At(settings, events, j);
            && events[i].call in c.calls && t < |c.timers|
            && (c.timers[t].fired ==> FiredSince(events, i, j, t))
            && (c.calls[events[i].call] == Delaying(t) || FiredSince(events, i, j, t))
    decreases j
  {
    if j > i + 1 {
      WaitsUntilFired(settings, events, i, j - 1, t);
      NextAt(settings, events, j - 1);
      WaitStep(At(settings, events, j - 1), events[j - 1], events[i].call, t);
      OneMoreEvent(events, i, j, t);
    }
  }

  lemma OneMoreEvent(events: seq<Event>, i: nat, j: nat, t: nat)
    requires i + 1 < j <= |events|
    ensures FiredSince(events, i, j, t) <==> FiredSince(events, i, j - 1, t) || events[j - 1] == TimerFires(t)
  {
    if FiredSince(events, i, j, t) {
      var k :| i < k < j && events[k] == TimerFires(t);
      assert k < j - 1 ==> FiredSince(events, i, j - 1, t);
    }
  }

  /**
    The back-off is waited for: a call of `requireConnection` that finds no live socket after a failure goes on only after
    the timer that it waits for has fired, and that happens after the call.
   */
  lemma DelayIsWaitedFor(settings: Settings, events: seq<Event>, i: nat, j: nat) returns (t: nat, k: nat)
    requires Run(settings, events).Some? && RunsInOrder(settings, events)
    requires i < j < |events| && events[i].Requires? && events[j] == Proceeds(events[i].call)
    requires var c := At(settings, events, i); !Connected(c.sockets, c.current) && c.delay != 0
    ensures var calls := At(settings, events, i + 1).calls; events[i].call in calls && calls[events[i].call] == Delaying(t)
    ensures i < k < j && events[k] == TimerFires(t)
  {
    var c := At(settings, events, i);
    PrefixRuns(settings, events, i);
    RunOneDelay(settings, events[..i]);
    NextAt(settings, events, i);
    t := if c.timer.Some? then c.timer.value else |c.timers|;
    if c.timer.Some? {
      var waiting :| waiting in c.calls && c.calls[waiting] == Delaying(t);
      assert !c.timers[t].fired;
    }
    WaitsUntilFired(settings, events, i, j, t);
    NextAt(settings, events, j);
    k :| i < k < j && events[k] == TimerFires(t);
  }
}
