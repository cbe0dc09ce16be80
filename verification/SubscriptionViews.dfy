/** A client/server pair seen through one subscription id, and what every step keeps of that view. */
module SubscriptionViews {
  import opened GraphQLAst
  import opened ServerSockets
  import Iterators = PushIterators
  import opened ClientIterators
  import opened SocketPairs

  /**
    `queue`: the id's client messages that the server has not handled; `mail`: its server messages that the client has
    not; `entry`, `known`: whether it is in the server's and in the client's map.
   */
  datatype View = View(
    cOpen: bool,
    sOpen: bool,
    queue: seq<Handler>,
    streams: seq<Stream>,
    entry: bool,
    mail: seq<ServerMessage>,
    sub: Option<Sub>,
    known: bool)

  // ----- what must hold of a view -----

  predicate Unused(v: View) {
    v.queue == [] && v.streams == [] && !v.entry && v.mail == [] && !v.known
  }

  predicate SubscribePending(v: View, id: Id) {
    v.queue != [] && v.queue[0] == HandleSubscribe(id)
  }

  function AfterSubscribe(v: View, id: Id): seq<Handler> {
    if SubscribePending(v, id) then v.queue[1..] else v.queue
  }

  /** `subscribe` comes first and once, `complete` after it and at most once. */
  predicate QueueFits(v: View, id: Id)
    requires v.sub.Some?
  {
    var it, rest := v.sub.value.it, AfterSubscribe(v, id);
    && (rest == [] || rest == [HandleComplete(id)])
    && (SubscribePending(v, id) ==> v.streams == [])
    && (rest != [] && !SubscribePending(v, id) ==> v.streams != [])
    && (rest != [] ==> it.teardowns == 1)
    && (v.cOpen ==> SubscribePending(v, id) || v.streams != [])
  }

  predicate StreamFitsView(v: View, id: Id) {
    && |v.streams| <= 1
    && (forall stream | stream in v.streams :: stream.id == id && StreamFits(v.sOpen, stream))
    && (v.entry <==> v.streams != [] && v.streams[0].phase != Forgotten)
  }

  function Nexts(id: Id, data: seq<Data>): seq<ServerMessage> {
    seq(|data|, i requires 0 <= i < |data| => Next(id, data[i]))
  }

  function Ending(id: Id, stream: Stream, sub: Sub): seq<ServerMessage> {
    if stream.terminal.Some? && sub.ended.None? then [End(id, stream.terminal.value)] else []
  }

  predicate ServerSilent(v: View) {
    !v.sOpen || (v.streams != [] && Over(v.streams[0].phase))
  }

  /** Delivered, plus on the way while it is known, is what was sent; the terminal message comes last. */
  predicate MailFits(v: View, id: Id)
    requires v.sub.Some?
  {
    var sub := v.sub.value;
    && (v.streams == [] ==> v.mail == [] && sub.delivered == [] && sub.ended.None?)
    && (v.streams != [] ==>
          var stream := v.streams[0];
          && sub.delivered <= stream.sent
          && (v.known ==> v.mail == Nexts(id, stream.sent[|sub.delivered|..]) + Ending(id, stream, sub))
          && (sub.ended.Some? ==> sub.ended == stream.terminal && sub.delivered == stream.sent))
  }

  /** The iterator has accepted what was delivered before it ended. */
  ghost predicate IteratorFits(sub: Sub) {
    var it := sub.it;
    && Sound(it)
    && it.accepted <= sub.delivered
    && (!it.finished ==> it.accepted == sub.delivered)
    && (it.finished && it.cause != Iterators.Returned ==> sub.ended == Some(Complete) && it.accepted == sub.delivered)
    && (it.setup.Pending? || (it.setup.Settled? && it.setup.withTeardown))
  }

  ghost predicate Fits(v: View, id: Id) {
    match v.sub
    case None => Unused(v)
    case Some(sub) => QueueFits(v, id) && StreamFitsView(v, id) && MailFits(v, id) && IteratorFits(sub)
  }

  /** No linger timer was early: a side that has forgotten the id has no message left for it, nor will one be sent. */
  predicate InTime(v: View) {
    v.sub.Some? ==>
      && (v.streams != [] && !v.entry ==> v.queue == [] && ClientSilent(v.cOpen, v.sub.value))
      && (!v.known ==> v.mail == [] && ServerSilent(v))
  }

  // ----- the steps of a view -----

  ghost predicate Keeps(v: View, w: View, id: Id) {
    Fits(w, id) && (InTime(v) ==> InTime(w))
  }

  predicate Fewer(v: View, w: View) {
    (w.cOpen ==> v.cOpen) && (w.sOpen ==> v.sOpen)
  }

  lemma CloseFits(v: View, w: View, id: Id)
    requires Fits(v, id) && Fewer(v, w) && w == v.(cOpen := w.cOpen, sOpen := w.sOpen)
    ensures Keeps(v, w, id)
  {
  }

  lemma RegisterFits(v: View, id: Id, it: Iterator)
    requires Fits(v, id) && v.sub.None?
    requires Sound(it) && it.setup.Pending? && it.accepted == [] && (it.finished ==> it.cause == Iterators.Returned)
    ensures Keeps(v, v.(sub := Some(Sub(it, [], None)), known := true, queue := if v.cOpen then [HandleSubscribe(id)] else []), id)
  {
  }

  lemma DriveKeepsSetup(it: Iterator, e: Iterators.Event<int>)
    requires Iterators.Enabled(it, e) && Sound(it) && (it.setup.Pending? || it.setup.Settled?)
    requires e.Next? || e.Resumes? || e.Return? || e.Throw? || e == Iterators.SetupResolves(true)
    ensures it.setup.Settled? ==> Drive(it, e).setup == it.setup
    ensures it.setup.Pending? ==> Drive(it, e).setup.Pending? || (Drive(it, e).setup.Settled? && Drive(it, e).setup.withTeardown)
  {
  }

  /** `complete` is sent only by the one teardown, and then the subscription is silent. */
  lemma TeardownQueues(v: View, w: View, id: Id, it: Iterator)
    requires v.sub.Some? && QueueFits(v, id) && Sound(v.sub.value.it) && Sound(it)
    requires v.sub.value.it.teardowns <= it.teardowns
    requires v.sub.value.it.setup.Settled? ==> it.setup == v.sub.value.it.setup
    requires w.cOpen == v.cOpen && w.streams == v.streams && w.entry == v.entry
    requires w.sub.Some? && w.sub.value.it == it
    requires w.queue == (if it.teardowns > v.sub.value.it.teardowns && v.cOpen then v.queue + [HandleComplete(id)] else v.queue)
    ensures QueueFits(w, id)
  {
    TeardownOnlyOnce(v.sub.value.it);
    TeardownOnlyOnce(it);
    if it.teardowns > v.sub.value.it.teardowns && v.cOpen {
      assert AfterSubscribe(v, id) == [];
      assert v.queue == [] || v.queue == [HandleSubscribe(id)];
      assert AfterSubscribe(w, id) == [HandleComplete(id)];
    }
  }

  function Driven(v: View, id: Id, sub: Sub): View
    requires v.sub.Some?
  {
    v.(sub := Some(sub),
       queue := if sub.it.teardowns > v.sub.value.it.teardowns && v.cOpen then v.queue + [HandleComplete(id)] else v.queue)
  }

  predicate Lasts(it: Iterator, after: Iterator) {
    it.done ==> after.done && after.teardowns == it.teardowns
  }

  lemma DriveLasts(it: Iterator, e: Iterators.Event<int>)
    requires Iterators.Enabled(it, e) && !it.tearing
    ensures Lasts(it, Drive(it, e))
  {
    if it.done {
      DoneLasts(it, e);
    }
  }

  lemma DrivenInTime(v: View, id: Id, sub: Sub)
    requires v.sub.Some? && InTime(v) && Lasts(v.sub.value.it, sub.it)
    ensures InTime(Driven(v, id, sub))
  {
  }

  lemma ConsumerIterator(sub: Sub, e: Iterators.Event<int>)
    requires IteratorFits(sub) && Iterators.Enabled(sub.it, e)
    requires e.Next? || e.Resumes? || e.Return? || e == Iterators.SetupResolves(true)
    ensures var it := Drive(sub.it, e);
            && IteratorFits(sub.(it := it)) && sub.it.teardowns <= it.teardowns
            && (sub.it.setup.Settled? ==> it.setup == sub.it.setup) && Lasts(sub.it, it)
  {
    DriveLasts(sub.it, e);
    DriveSound(sub.it, e);
    DriveConsumer(sub.it, e);
    DriveKeepsSetup(sub.it, e);
  }

  lemma PushedIterator(sub: Sub, data: Data)
    requires IteratorFits(sub) && sub.ended.None?
    ensures var it := Drive(sub.it, Iterators.Push(data));
            && IteratorFits(sub.(delivered := sub.delivered + [data], it := it))
            && it.teardowns == sub.it.teardowns && it.setup == sub.it.setup && Lasts(sub.it, it)
  {
    DriveLasts(sub.it, Iterators.Push(data));
    DriveSound(sub.it, Iterators.Push(data));
    DrivePush(sub.it, data);
  }

  /** A view whose iterator was driven, if nothing else but its queue changed. */
  lemma DrivenFits(v: View, id: Id, it: Iterator)
    requires Fits(v, id) && v.sub.Some? && IteratorFits(v.sub.value.(it := it))
    requires v.sub.value.it.teardowns <= it.teardowns
    requires v.sub.value.it.setup.Settled? ==> it.setup == v.sub.value.it.setup
    requires Lasts(v.sub.value.it, it)
    ensures Keeps(v, Driven(v, id, v.sub.value.(it := it)), id)
  {
    TeardownQueues(v, Driven(v, id, v.sub.value.(it := it)), id, it);
  }

  lemma ConsumerFits(v: View, id: Id, e: Iterators.Event<int>)
    requires Fits(v, id) && v.sub.Some? && Iterators.Enabled(v.sub.value.it, e)
    requires e.Next? || e.Resumes? || e.Return? || e == Iterators.SetupResolves(true)
    ensures Keeps(v, Driven(v, id, v.sub.value.(it := Drive(v.sub.value.it, e))), id)
  {
    ConsumerIterator(v.sub.value, e);
    DrivenFits(v, id, Drive(v.sub.value.it, e));
  }

  lemma ThrowFits(v: View, id: Id, error: Iterators.Error)
    requires Fits(v, id) && v.sub.Some? && error.truthy
    ensures Keeps(v, Driven(v, id, v.sub.value.(it := Drive(v.sub.value.it, Iterators.Throw(error)))), id)
  {
    var sub := v.sub.value;
    var it := Drive(sub.it, Iterators.Throw(error));
    DriveSound(sub.it, Iterators.Throw(error));
    DriveThrow(sub.it, error);
    DriveLasts(sub.it, Iterators.Throw(error));
    TeardownQueues(v, Driven(v, id, sub.(it := it)), id, it);
    assert IteratorFits(sub.(it := it));
  }

  lemma NextDelivered(v: View, id: Id, data: Data)
    requires Fits(v, id) && v.sub.Some? && v.known && v.mail != [] && v.mail[0] == Next(id, data)
    ensures var sub := v.sub.value;
            Keeps(v, Driven(v.(mail := v.mail[1..]), id,
                        sub.(delivered := sub.delivered + [data], it := Drive(sub.it, Iterators.Push(data)))), id)
  {
    var sub, stream := v.sub.value, v.streams[0];
    var it := Drive(sub.it, Iterators.Push(data));
    PushedIterator(sub, data);
    var after := sub.(delivered := sub.delivered + [data], it := it);
    OneDelivered(id, stream, sub, data, v.mail);
    var w := Driven(v.(mail := v.mail[1..]), id, after);
    assert MailFits(w, id);
    TeardownQueues(v, w, id, it);
  }

  /** The first value on the way is the next one sent. */
  lemma OneDelivered(id: Id, stream: Stream, sub: Sub, data: Data, mail: seq<ServerMessage>)
    requires sub.delivered <= stream.sent && mail == Nexts(id, stream.sent[|sub.delivered|..]) + Ending(id, stream, sub)
    requires mail != [] && mail[0] == Next(id, data)
    ensures var delivered := sub.delivered + [data];
            && delivered <= stream.sent
            && mail[1..] == Nexts(id, stream.sent[|delivered|..]) + Ending(id, stream, sub)
  {
    var on := stream.sent[|sub.delivered|..];
    assert on != [] && on[0] == data;
    assert stream.sent[|sub.delivered| + 1..] == on[1..];
    assert Nexts(id, on)[1..] == Nexts(id, on[1..]);
  }

  function EndEvent(terminal: Terminal): Iterators.Event<int> {
    if terminal == Error then Iterators.Throw(Iterators.Error(0, true)) else Iterators.Finish
  }

  lemma EndedIterator(sub: Sub, terminal: Terminal)
    requires IteratorFits(sub) && sub.ended.None?
    ensures var it := Drive(sub.it, EndEvent(terminal));
            && IteratorFits(sub.(ended := Some(terminal), it := it)) && sub.it.teardowns <= it.teardowns
            && it.setup == sub.it.setup && Lasts(sub.it, it)
  {
    DriveSound(sub.it, EndEvent(terminal));
    DriveLasts(sub.it, EndEvent(terminal));
    if terminal == Error {
      DriveThrow(sub.it, Iterators.Error(0, true));
    } else {
      DriveFinish(sub.it);
    }
  }

  lemma EndDelivered(v: View, id: Id, terminal: Terminal)
    requires Fits(v, id) && v.sub.Some? && v.known && v.mail != [] && v.mail[0] == End(id, terminal)
    ensures var sub := v.sub.value;
            Keeps(v, Driven(v.(mail := v.mail[1..]), id, sub.(ended := Some(terminal), it := Drive(sub.it, EndEvent(terminal)))), id)
  {
    var sub, stream := v.sub.value, v.streams[0];
    assert stream.sent[|sub.delivered|..] == [];
    assert v.mail == [End(id, terminal)];
    EndedIterator(sub, terminal);
    var after := sub.(ended := Some(terminal), it := Drive(sub.it, EndEvent(terminal)));
    var w := Driven(v.(mail := v.mail[1..]), id, after);
    assert MailFits(w, id);
    TeardownQueues(v, w, id, after.it);
  }

  lemma ClientLingerFits(v: View, id: Id)
    requires Fits(v, id) && v.sub.Some?
    ensures Fits(v.(known := false), id)
    ensures v.mail == [] && ServerSilent(v) ==> Keeps(v, v.(known := false), id)
  {
  }

  /** A message for an id that the client has forgotten closes its socket. */
  lemma DropFits(v: View, w: View, id: Id)
    requires Fits(v, id) && !v.known && v.mail != [] && Fewer(v, w) && w == v.(cOpen := w.cOpen, mail := v.mail[1..])
    ensures Keeps(v, w, id)
  {
  }

  /** The server handles `subscribe`: the id is new to it. */
  lemma SubscribeHandled(v: View, id: Id)
    requires Fits(v, id) && SubscribePending(v, id)
    ensures !v.entry && v.streams == []
    ensures Keeps(v, v.(queue := v.queue[1..], entry := true, streams := [Stream(id, Subscribing, [], [], None)]), id)
  {
    var w := v.(queue := v.queue[1..], entry := true, streams := [Stream(id, Subscribing, [], [], None)]);
    assert AfterSubscribe(v, id) == v.queue[1..] == AfterSubscribe(w, id);
    assert Nexts(id, []) == [];
  }

  /** The server handles `complete`, and closes its socket if it has forgotten the id. */
  lemma CompleteHandled(v: View, w: View, id: Id)
    requires Fits(v, id) && v.queue != [] && v.queue[0] == HandleComplete(id)
    requires Fewer(v, w) && w == v.(sOpen := w.sOpen, queue := v.queue[1..])
    ensures Keeps(v, w, id) && (InTime(v) ==> v.entry)
  {
  }

  function Sent(id: Id, message: Option<Action>): seq<ServerMessage> {
    match message
    case Some(NextSent(_, data)) => [Next(id, data)]
    case Some(EndSent(_, terminal)) => [End(id, terminal)]
    case _ => []
  }

  function Moved(v: View, id: Id, after: Stream, message: Option<Action>): View {
    v.(streams := [after], entry := after.phase != Forgotten, mail := v.mail + Sent(id, message))
  }

  lemma StreamMoves(v: View, id: Id, i: nat, after: Stream, message: Option<Action>)
    requires Fits(v, id) && |v.streams| == 1 && v.sub.Some? && v.streams[0].phase != Forgotten
    requires after.id == id && StreamFits(v.sOpen, after) && Progresses(v.streams[0], after, i, message)
    requires message.Some? ==> v.sOpen
    ensures Fits(Moved(v, id, after, message), id)
  {
    var w := Moved(v, id, after, message);
    MovedMail(v, id, i, after, message);
    assert AfterSubscribe(v, id) == AfterSubscribe(w, id);
  }

  lemma MovedMail(v: View, id: Id, i: nat, after: Stream, message: Option<Action>)
    requires v.sub.Some? && MailFits(v, id) && |v.streams| == 1 && StreamFits(v.sOpen, v.streams[0])
    requires StreamFits(v.sOpen, after) && Progresses(v.streams[0], after, i, message) && (message.Some? ==> v.sOpen)
    ensures MailFits(Moved(v, id, after, message), id)
  {
    var sub, before, w := v.sub.value, v.streams[0], Moved(v, id, after, message);
    var d := |sub.delivered|;
    if message.Some? {
      assert sub.ended.None? && before.terminal.None?;
      if message.value.NextSent? {
        assert after.sent[d..] == before.sent[d..] + [message.value.data];
        assert Nexts(id, after.sent[d..]) == Nexts(id, before.sent[d..]) + [Next(id, message.value.data)];
      }
    }
    assert v.known ==> w.mail == Nexts(id, after.sent[d..]) + Ending(id, after, sub);
  }

  /** Forgetting a stream in time takes a silent client. */
  lemma StreamInTime(v: View, id: Id, i: nat, after: Stream, message: Option<Action>)
    requires InTime(v) && |v.streams| == 1 && v.sub.Some? && v.entry
    requires Progresses(v.streams[0], after, i, message) && (message.Some? ==> v.sOpen)
    requires after.phase == Forgotten ==> v.queue == [] && ClientSilent(v.cOpen, v.sub.value)
    ensures InTime(Moved(v, id, after, message))
  {
  }
}
