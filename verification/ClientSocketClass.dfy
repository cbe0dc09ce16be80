/** src/ws/GraphQLClientWebSocket.ts: the class, its subscriptions being iterator objects. */
module ClientSocketClass {
  import opened GraphQLAst
  import opened ServerSockets
  import Iterators = PushIterators
  import opened ClientIterators
  import opened SocketPairs

  type PushIterator = Iterators.AsyncPushIterator<int>

  /** A message from the server, as the client and what it sends see it. */
  function Received(c: Client, sent: seq<ClientMessage>, m: ServerMessage): (Client, seq<ClientMessage>) {
    var q := ClientReceive(Pair(ServerSockets.Initial(false), c, sent, [m]));
    (q.client, q.c2s)
  }

  /** A message for a known id drives its iterator, whose teardown sends `complete`. */
  lemma ReceivedForKnown(c: Client, sent: seq<ClientMessage>, m: ServerMessage, it: Iterator)
    requires !m.ConnectionAck? && m.id in c.subscriptions && m.id in c.subs && it == Drive(c.subs[m.id].it, EventOf(m))
    ensures Received(c, sent, m) ==
            (c.(subs := c.subs[m.id := Recorded(c.subs[m.id], m).(it := it)]),
             if it.teardowns > c.subs[m.id].it.teardowns && c.open then sent + [ClientComplete(m.id)] else sent)
  {
    var sub := c.subs[m.id];
    assert c.subs[m.id := Recorded(sub, m)][m.id := Recorded(sub, m).(it := it)] == c.subs[m.id := Recorded(sub, m).(it := it)];
  }

  /** Neither a push nor a finish calls the teardown function. */
  lemma QuietDrive(it: Iterator, e: Iterators.Event<int>)
    requires (e.Push? || e.Finish?) && !it.tearing
    ensures Drive(it, e) == Iterators.Step(it, e) && Drive(it, e).teardowns == it.teardowns
  {
  }

  ghost predicate Registered(subscriptions: map<Id, PushIterator>, all: map<Id, PushIterator>) {
    && (forall id | id in subscriptions :: id in all && subscriptions[id] == all[id])
    && forall id, other | id in all && other in all && id != other :: all[id] != all[other]
  }

  lemma RegisteredMore(subscriptions: map<Id, PushIterator>, all: map<Id, PushIterator>, id: Id, it: PushIterator)
    requires Registered(subscriptions, all) && forall other | other in all :: all[other] != it
    ensures Registered(subscriptions[id := it], all[id := it])
  {
  }

  /** A subscription between the steps of the client: its teardown function is not running. */
  ghost predicate AtRest(it: PushIterator)
    reads it
  {
    it.Valid() && !it.Abstract().tearing
  }

  twostate predicate ThrownInto(it: PushIterator, error: Iterators.Error)
    reads it
  {
    !old(it.Abstract()).tearing && it.Abstract() == Drive(old(it.Abstract()), Iterators.Throw(error))
  }

  class GraphQLClientWebSocket {
    var open: bool
    var ack: Deferred
    var nextSubscriptionId: nat
    var subscriptions: map<Id, PushIterator>
    var sent: seq<ClientMessage>
    ghost var all: map<Id, PushIterator>
    ghost var records: map<Id, Sub>
    ghost var rest: Client

    /** `all`: the iterators ever registered, one object for each id. */
    ghost predicate Valid()
      reads this
    {
      all.Keys == records.Keys && Registered(subscriptions, all)
    }

    ghost predicate IdsBelow()
      reads this
    {
      forall id | id in all :: id < nextSubscriptionId
    }

    ghost function Subs(): map<Id, Sub>
      reads this, all.Values
    {
      map id | id in all && id in records :: records[id].(it := all[id].Abstract())
    }

    /** The abstract state; what was delivered, and the iterators without an id, live in `rest`. */
    ghost function Abstract(): Client
      reads this, all.Values
    {
      rest.(open := open, ack := ack, nextId := nextSubscriptionId, subs := Subs(), subscriptions := subscriptions.Keys)
    }

    constructor ()
      ensures Valid() && Abstract() == InitialPair(false).client && sent == [] && all == map[]
    {
      open, ack, nextSubscriptionId, subscriptions, sent := true, Unsettled, 1, map[], [];
      all, records, rest := map[], map[], InitialPair(false).client;
    }

    /** The setup function of a subscription, once the acknowledgement has arrived. */
    method Register(it: PushIterator) returns (id: Id)
      requires Valid() && IdsBelow() && forall other | other in all :: all[other] != it
      modifies this
      ensures Valid() && IdsBelow() && id == old(nextSubscriptionId) && all == old(all)[id := it] && nextSubscriptionId == id + 1
      ensures Subs() == old(Subs())[id := Sub(it.Abstract(), [], None)] && subscriptions == old(subscriptions)[id := it]
      ensures sent == if open then old(sent) + [Subscribe(id)] else old(sent)
      ensures open == old(open) && ack == old(ack) && rest == old(rest)
    {
      id := nextSubscriptionId;
      nextSubscriptionId := nextSubscriptionId + 1;
      RegisteredMore(subscriptions, all, id, it);
      subscriptions := subscriptions[id := it];
      all := all[id := it];
      records := records[id := Sub(it.Abstract(), [], None)];
      Send(Subscribe(id));
      OneAdded(id);
    }

    /** The teardown function of a subscription; its linger timer is `LingerFired`. */
    method Teardown(id: Id)
      modifies this`sent
      ensures sent == if open then old(sent) + [ClientComplete(id)] else old(sent)
    {
      Send(ClientComplete(id));
    }

    method LingerFired(id: Id)
      requires Valid()
      modifies this
      ensures Valid() && all == old(all) && sent == old(sent)
      ensures Abstract() == old(Abstract()).(subscriptions := old(Abstract()).subscriptions - {id})
    {
      subscriptions := subscriptions - {id};
      assert Subs() == old(Subs());
    }

    method HandleConnectionAckMessage()
      requires Valid()
      modifies this
      ensures Valid() && all == old(all) && (Abstract(), sent) == Received(old(Abstract()), old(sent), ConnectionAck)
    {
      ack := Settle(ack, Resolved(0));
      assert Subs() == old(Subs());
    }

    method HandleNextMessage(id: Id, data: Data)
      requires Valid() && (id in all ==> AtRest(all[id]))
      modifies this, if id in all then {all[id]} else {}
      ensures Valid() && all == old(all) && (id in all ==> AtRest(all[id]))
      ensures (Abstract(), sent) == Received(old(Abstract()), old(sent), Next(id, data))
    {
      if id !in subscriptions {
        Close(4409);
      } else {
        Deliver(id, Next(id, data));
      }
    }

    method HandleErrorMessage(id: Id)
      requires Valid() && (id in all ==> AtRest(all[id]))
      modifies this, if id in all then {all[id]} else {}
      ensures Valid() && all == old(all) && (id in all ==> AtRest(all[id]))
      ensures (Abstract(), sent) == Received(old(Abstract()), old(sent), End(id, Error))
    {
      if id !in subscriptions {
        Close(4409);
      } else {
        Deliver(id, End(id, Error));
      }
    }

    method HandleCompleteMessage(id: Id)
      requires Valid() && (id in all ==> AtRest(all[id]))
      modifies this, if id in all then {all[id]} else {}
      ensures Valid() && all == old(all) && (id in all ==> AtRest(all[id]))
      ensures (Abstract(), sent) == Received(old(Abstract()), old(sent), End(id, Complete))
    {
      if id !in subscriptions {
        Close(4409);
      } else {
        Deliver(id, End(id, Complete));
      }
    }

    /** The handling of a message for a known subscription. */
    method Deliver(id: Id, m: ServerMessage)
      requires Valid() && id in subscriptions && AtRest(all[id]) && !m.ConnectionAck? && m.id == id
      modifies this`sent, this`records, all[id]
      ensures Valid() && AtRest(all[id]) && (Abstract(), sent) == Received(old(Abstract()), old(sent), m)
    {
      ghost var before, it := Abstract(), Drive(all[id].Abstract(), EventOf(m));
      DriveKnown(id, m, it);
      assert Abstract() == before.(subs := before.subs[id := Recorded(before.subs[id], m).(it := it)]);
      ReceivedForKnown(before, old(sent), m, it);
    }

    method DriveKnown(id: Id, m: ServerMessage, ghost it: Iterator)
      requires Valid() && id in subscriptions && AtRest(all[id]) && !m.ConnectionAck? && m.id == id
      requires it == Drive(all[id].Abstract(), EventOf(m))
      modifies this`sent, this`records, all[id]
      ensures Valid() && Subs() == old(Subs())[id := Recorded(old(Subs())[id], m).(it := it)] && AtRest(all[id])
      ensures sent == if it.teardowns > old(Subs())[id].it.teardowns && open then old(sent) + [ClientComplete(id)] else old(sent)
    {
      Drives(id, m);
      OneChanged(id);
    }

    /** `push`, `throw` or `finish` on a known subscription. */
    method Drives(id: Id, m: ServerMessage)
      requires Valid() && id in subscriptions && AtRest(all[id]) && !m.ConnectionAck? && m.id == id
      modifies this`sent, this`records, all[id]
      ensures records == old(records)[id := Recorded(old(records)[id], m)] && AtRest(all[id])
      ensures all[id].Abstract() == Drive(old(all[id].Abstract()), EventOf(m))
      ensures sent == if all[id].Abstract().teardowns > old(all[id].Abstract()).teardowns && open
                      then old(sent) + [ClientComplete(id)] else old(sent)
    {
      var subscription := subscriptions[id];
      match m {
        case Next(_, data) =>
          QuietDrive(subscription.Abstract(), Iterators.Push(data));
          subscription.Push(data);
        case End(_, Error) =>
          ThrowInto(id, subscription, Iterators.Error(0, true));
        case End(_, Complete) =>
          QuietDrive(subscription.Abstract(), Iterators.Finish);
          subscription.Finish();
      }
      records := records[id := Recorded(records[id], m)];
    }

    /** Only one subscription was added. */
    twostate lemma OneAdded(id: Id)
      requires old(Valid()) && Valid() && id !in old(all) && id in all && all == old(all)[id := all[id]]
      requires id in records && records == old(records)[id := records[id]]
      requires forall other | other in old(all) :: old(all)[other].Abstract() == old(all[other].Abstract())
      ensures Subs() == old(Subs())[id := records[id].(it := all[id].Abstract())]
    {
    }

    /** Only one subscription changed. */
    twostate lemma OneChanged(id: Id)
      requires old(Valid()) && Valid() && all == old(all) && id in all
      requires forall other | other in all && other != id :: records[other] == old(records[other])
      requires forall other | other in all && other != id :: all[other].Abstract() == old(all[other].Abstract())
      ensures Subs() == old(Subs())[id := records[id].(it := all[id].Abstract())]
    {
    }

    /** `subscription.throw(error)`, which may call the teardown function. */
    method ThrowInto(id: Id, subscription: PushIterator, error: Iterators.Error)
      requires AtRest(subscription)
      modifies this`sent, subscription
      ensures AtRest(subscription)
      ensures subscription.Abstract() == Drive(old(subscription.Abstract()), Iterators.Throw(error))
      ensures sent == if subscription.Abstract().teardowns > old(subscription.Abstract()).teardowns && open
                      then old(sent) + [ClientComplete(id)] else old(sent)
    {
      var calls := subscription.Throw(error);
      if calls {
        Teardown(id);
        subscription.TeardownEnds(None);
      }
    }

    /** The close event throws into every subscription that is still registered; the others stay as they are. */
    method HandleCloseEvent(code: int)
      requires Valid() && IdsBelow() && forall id | id in subscriptions :: AtRest(subscriptions[id])
      modifies this, subscriptions.Values
      ensures Valid() && IdsBelow() && forall id | id in subscriptions :: AtRest(subscriptions[id])
      ensures Abstract() == ClientEnd(old(Abstract()), code) && sent == old(sent) && all == old(all)
    {
      open := false;
      ack := Settle(ack, Rejected(code));
      rest := rest.(gone := true);
      ThrowIntoAll(subscriptions, nextSubscriptionId, ClosingError());
      Thrown(code);
    }

    /** Every registered subscription was thrown into, and nothing happened to the others. */
    twostate lemma Thrown(code: int)
      requires old(Valid()) && Valid() && all == old(all) && records == old(records) && subscriptions == old(subscriptions)
      requires forall id | id in subscriptions :: ThrownInto(subscriptions[id], ClosingError())
      requires forall id | id in all && id !in subscriptions :: all[id].Abstract() == old(all[id].Abstract())
      ensures Subs() == ClientEnd(old(Abstract()), code).subs
    {
      forall id | id in subscriptions ensures Subs()[id] == ClientEnd(old(Abstract()), code).subs[id] {
        assert ThrownInto(subscriptions[id], ClosingError());
      }
    }

    /** In the order of registration, which is that of the ids. A teardown function sends nothing: the socket is not open. */
    static method ThrowIntoAll(entries: map<Id, PushIterator>, n: nat, error: Iterators.Error)
      requires forall id, other | id in entries && other in entries && id != other :: entries[id] != entries[other]
      requires forall id | id in entries :: id < n && AtRest(entries[id])
      modifies entries.Values
      ensures forall id | id in entries :: AtRest(entries[id]) && ThrownInto(entries[id], error)
    {
      for id := 0 to n
        invariant forall k | k in entries :: AtRest(entries[k])
        invariant forall k | k in entries && k < id :: ThrownInto(entries[k], error)
        invariant forall k | k in entries && k >= id :: unchanged(entries[k])
      {
        if id in entries {
          ThrowQuietly(entries[id], error);
        }
      }
    }

    static method ThrowQuietly(subscription: PushIterator, error: Iterators.Error)
      requires AtRest(subscription)
      modifies subscription
      ensures AtRest(subscription) && ThrownInto(subscription, error)
    {
      var calls := subscription.Throw(error);
      if calls {
        subscription.TeardownEnds(None);
      }
    }

    method Close(code: int)
      requires Valid()
      modifies this
      ensures Valid() && all == old(all) && sent == old(sent) && Abstract() == ClientClose(old(Abstract()), code)
    {
      if open {
        open := false;
        rest := rest.(closedWith := Some(code));
      }
      assert Subs() == old(Subs());
    }

    method Send(message: ClientMessage)
      modifies this`sent
      ensures sent == if open then old(sent) + [message] else old(sent)
    {
      if open {
        sent := sent + [message];
      }
    }
  }
}
