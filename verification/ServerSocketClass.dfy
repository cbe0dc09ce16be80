/** src/ws/GraphQLServerWebSocket.ts: the class, each segment between awaits as one method. */
module ServerSocketClass {
  import opened GraphQLAst
  import opened ServerSockets

  class GraphQLServerWebSocket {
    const legacy: bool
    var open: bool
    var initialized: bool
    var acknowledged: bool
    var initPayload: Deferred
    var subscriptions: map<Id, nat>
    ghost var rest: Server

    /** The abstract state; promises, running loops and what was sent live in `rest`. */
    ghost function Abstract(): Server
      reads this
    {
      rest.(legacy := legacy, open := open, initialized := initialized, acknowledged := acknowledged,
            initPayload := initPayload, subscriptions := subscriptions)
    }

    /** What every run keeps: the message grammar, the entries of live streams, and acknowledgement before all data. */
    ghost predicate Valid()
      reads this
    {
      Good(Abstract())
    }

    constructor (legacy: bool)
      ensures Valid() && Abstract() == Initial(legacy) && this.legacy == legacy
    {
      this.legacy := legacy;
      open, initialized, acknowledged := true, false, false;
      initPayload, subscriptions, rest := Unsettled, map[], Initial(legacy);
      InitialGood(legacy);
    }

    /** Up to the await of `acknowledge`. */
    method HandleConnectionInitMessage(payload: Payload)
      requires Valid()
      modifies this
      ensures Valid() && Abstract() == Step(old(Abstract()), Receives(ConnectionInit(payload)))
    {
      if initialized {
        Close(4429);
      } else {
        StepGood(Abstract(), Receives(ConnectionInit(payload)));
        initialized := true;
        rest := rest.(acknowledging := Some(payload), log := rest.log + [AcknowledgeCalled(payload)]);
      }
    }

    method AcknowledgeResolved(payload: Payload)
      requires Valid() && Abstract().acknowledging == Some(payload)
      modifies this
      ensures Valid() && Abstract() == Step(old(Abstract()), AcknowledgeResolves)
    {
      ghost var after := Step(Abstract(), AcknowledgeResolves);
      StepGood(Abstract(), AcknowledgeResolves);
      rest := rest.(log := rest.log + [AcknowledgeSucceeded(payload)]);
      if open {
        rest := rest.(log := rest.log + [AckSent]);
      }
      initPayload := Settle(initPayload, Resolved(payload));
      acknowledged := true;
      rest := rest.(acknowledging := None);
      assert Abstract() == after;
    }

    method AcknowledgeRejected()
      requires Valid() && Abstract().acknowledging.Some?
      modifies this
      ensures Valid() && Abstract() == Step(old(Abstract()), AcknowledgeRejects)
    {
      ghost var after := Step(Abstract(), AcknowledgeRejects);
      StepGood(Abstract(), AcknowledgeRejects);
      Close(4401);
      initPayload := Settle(initPayload, Rejected(4401));
      rest := rest.(acknowledging := None);
      assert Abstract() == after;
    }

    /** `requireAck`: throws at once on the new protocol, else awaits the payload promise. */
    method RequireAck(handler: Handler)
      requires Valid()
      modifies this
      ensures Valid() && Abstract() == Step(old(Abstract()), Receives(MessageOf(handler)))
    {
      ghost var after := Step(Abstract(), Receives(MessageOf(handler)));
      StepGood(Abstract(), Receives(MessageOf(handler)));
      if !legacy && !acknowledged {
        Close(4401);
      } else {
        rest := rest.(waiting := rest.waiting + [handler]);
      }
      assert Abstract() == after;
    }

    /** A message of an unknown type, or with fields of the wrong types. */
    method HandleInvalidMessage()
      requires Valid()
      modifies this
      ensures Valid() && Abstract() == Step(old(Abstract()), Receives(Invalid))
    {
      Close(4400);
    }

    /** The head of the handlers that await the payload promise, once it has settled. */
    method HandlerContinued(handler: Handler, promise: nat)
      requires Valid() && Enabled(Abstract(), HandlerContinues) && Abstract().waiting[0] == handler
      requires promise == |Abstract().streams|
      modifies this
      ensures Valid() && Abstract() == Step(old(Abstract()), HandlerContinues)
    {
      rest := rest.(waiting := rest.waiting[1..]);
      if initPayload.Rejected? {
        Close(initPayload.code);
      } else {
        match handler
        case HandleSubscribe(id) => HandleSubscribeMessage(id, promise);
        case HandleComplete(id) => HandleCompleteMessage(id);
      }
    }

    /** `promise` stands for the promise of the new stream that `subscribe` returns. */
    method HandleSubscribeMessage(id: Id, promise: nat)
      requires Valid() && initPayload.Resolved? && promise == |Abstract().streams|
      modifies this
      ensures Valid() && Abstract() == Handle(old(Abstract()), HandleSubscribe(id))
    {
      if id in subscriptions {
        Close(4409);
      } else {
        HandleGood(Abstract(), HandleSubscribe(id));
        rest := rest.(streams := rest.streams + [Stream(id, Subscribing, [], [], None)],
                      log := rest.log + [SubscribeCalled(promise, initPayload.payload)]);
        subscriptions := subscriptions[id := promise];
      }
    }

    method HandleCompleteMessage(id: Id)
      requires Valid() && initPayload.Resolved?
      modifies this
      ensures Valid() && Abstract() == Handle(old(Abstract()), HandleComplete(id))
    {
      ghost var after := Handle(Abstract(), HandleComplete(id));
      HandleGood(Abstract(), HandleComplete(id));
      if id !in subscriptions {
        Close(4409);
      } else {
        rest := rest.(returned := rest.returned + {subscriptions[id]});
      }
      assert Abstract() == after;
    }

    /** `subscribe` has resolved: the loop over the stream starts, or the errors go out at once. */
    method Subscribed(i: nat, isIterator: bool)
      requires Valid() && Enabled(Abstract(), SubscribeResolves(i, isIterator))
      modifies this
      ensures Valid() && Abstract() == Step(old(Abstract()), SubscribeResolves(i, isIterator))
    {
      ghost var after := Step(Abstract(), SubscribeResolves(i, isIterator));
      StepGood(Abstract(), SubscribeResolves(i, isIterator));
      if !isIterator {
        SendTerminal(i, Error);
      }
      rest := SetPhase(rest, i, if isIterator then Streaming else Answered);
      assert Abstract() == after;
    }

    /** One turn of the `for await` loop of a stream. */
    method StreamYielded(i: nat, data: Data)
      requires Valid() && Enabled(Abstract(), Yields(i, data))
      modifies this
      ensures Valid() && Abstract() == Step(old(Abstract()), Yields(i, data))
    {
      ghost var after := Step(Abstract(), Yields(i, data));
      StepGood(Abstract(), Yields(i, data));
      rest := rest.(streams := rest.streams[i := rest.streams[i].(consumed := rest.streams[i].consumed + [data])]);
      if open {
        rest := rest.(log := rest.log + [NextSent(i, data)],
                      streams := rest.streams[i := rest.streams[i].(sent := rest.streams[i].sent + [data])]);
      }
      assert Abstract() == after;
    }

    /** The end of that loop, normal or by an error; its linger timer is `LingerFired`. */
    method StreamEnded(i: nat, terminal: Terminal)
      requires Valid() && Enabled(Abstract(), Ends(i, terminal))
      modifies this
      ensures Valid() && Abstract() == Step(old(Abstract()), Ends(i, terminal))
    {
      ghost var after := Step(Abstract(), Ends(i, terminal));
      StepGood(Abstract(), Ends(i, terminal));
      SendTerminal(i, terminal);
      rest := SetPhase(rest, i, Lingering);
      assert Abstract() == after;
    }

    method SendTerminal(i: nat, terminal: Terminal)
      requires i < |Abstract().streams|
      modifies this
      ensures Abstract() == SendEnd(old(Abstract()), i, terminal)
    {
      if open {
        rest := rest.(log := rest.log + [EndSent(i, terminal)],
                      streams := rest.streams[i := rest.streams[i].(terminal := Some(terminal))]);
      }
    }

    /** The linger timer of a stream that has ended. */
    method LingerFired(i: nat, id: Id)
      requires Valid() && Enabled(Abstract(), LingerFires(i)) && Abstract().streams[i].id == id
      modifies this
      ensures Valid() && Abstract() == Step(old(Abstract()), LingerFires(i))
    {
      ghost var after := Step(Abstract(), LingerFires(i));
      StepGood(Abstract(), LingerFires(i));
      subscriptions := subscriptions - {id};
      rest := SetPhase(rest, i, Forgotten);
      assert Abstract() == after;
    }

    method InitTimedOut()
      requires Valid() && !initialized
      modifies this
      ensures Valid() && Abstract() == Step(old(Abstract()), InitTimesOut)
    {
      Close(4408);
    }

    method HandleCloseEvent(code: int)
      requires Valid()
      modifies this
      ensures Valid() && Abstract() == Step(old(Abstract()), SocketEnds(code))
    {
      ghost var after := Step(Abstract(), SocketEnds(code));
      StepGood(Abstract(), SocketEnds(code));
      open := false;
      initPayload := Settle(initPayload, Rejected(code));
      rest := rest.(returned := rest.returned + set id | id in subscriptions :: subscriptions[id]);
      assert Abstract() == after;
    }

    method Close(code: int)
      requires Valid()
      modifies this
      ensures Valid() && Abstract() == CloseWith(old(Abstract()), code)
    {
      ghost var after := CloseWith(Abstract(), code);
      CloseGood(Abstract(), code);
      if open {
        open := false;
        rest := rest.(closedWith := Some(code));
      }
      assert Abstract() == after;
    }
  }

  function MessageOf(handler: Handler): ClientMessage {
    match handler
    case HandleSubscribe(id) => Subscribe(id)
    case HandleComplete(id) => ClientComplete(id)
  }
}
