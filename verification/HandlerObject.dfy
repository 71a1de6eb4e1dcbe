/** The handler as the object the swarm drives: fields updated in place, substreams owned by reference. */
module HandlerObject {
  import opened Wrappers
  import opened Substream
  import opened HandlerModel

  type ObjState = State<InboundSubstream>
  type ObjProtocol = Protocol<InboundSubstream>

  /** The substream a state owns, if any. */
  function Owned(st: ObjState): set<InboundSubstream> {
    match st
    case StDesired(sub, _) => {sub}
    case StOpening(Some(sub), _) => {sub}
    case StOpen(_, Some(sub), _) => {sub}
    case _ => {}
  }

  ghost function StateValue(st: ObjState): State<Sub>
    reads Owned(st)
  {
    match st
    case StClosed(pending) => StClosed(pending)
    case StDesired(sub, pending) => StDesired(sub.Value(), pending)
    case StOpening(None, isInbound) => StOpening(None, isInbound)
    case StOpening(Some(sub), isInbound) => StOpening(Some(sub.Value()), isInbound)
    case StOpen(recv, None, outbound) => StOpen(recv, None, outbound)
    case StOpen(recv, Some(sub), outbound) => StOpen(recv, Some(sub.Value()), outbound)
  }

  class NotificationsHandler {
    var protocols: seq<ObjProtocol>
    var pendingEvents: seq<HandlerEvent>

    ghost predicate Valid()
      reads this
    {
      |protocols| == 2 && Owned(protocols[0].state) !! Owned(protocols[1].state)
    }

    ghost function Repr(): set<object>
      reads this
      requires Valid()
    {
      {this} + Owned(protocols[0].state) + Owned(protocols[1].state)
    }

    ghost function Value(): (h: Handler)
      reads this, Owned(protocols[0].state), Owned(protocols[1].state)
      requires Valid()
    {
      Handler([Protocol(protocols[0].handshake, StateValue(protocols[0].state)),
               Protocol(protocols[1].handshake, StateValue(protocols[1].state))],
              pendingEvents)
    }

    constructor (blockAnnounces: Bytes, role: Bytes)
      ensures Valid() && fresh(Repr())
      ensures Value() == NewHandler(blockAnnounces, role)
    {
      protocols := [Protocol(blockAnnounces, StClosed(false)), Protocol(role, StClosed(false))];
      pendingEvents := [];
    }

    method ConnectionKeepAlive() returns (alive: bool)
      requires Valid()
      ensures alive <==> KeepAlive(Value())
    {
      alive := false;
      for i := 0 to |protocols|
        invariant alive <==> exists j :: 0 <= j < i && !protocols[j].state.StClosed?
      {
        if !protocols[i].state.StClosed? {
          alive := true;
        }
      }
      assert forall j :: 0 <= j < 2 ==> (Value().protocols[j].state.StClosed? <==> protocols[j].state.StClosed?);
    }

    method Put(index: nat, st: ObjState)
      requires Valid() && index < 2
      requires Owned(st) !! Owned(protocols[1 - index].state)
      modifies this`protocols
      ensures Valid()
      ensures Owned(protocols[index].state) == Owned(st)
      ensures Owned(protocols[1 - index].state) == old(Owned(protocols[1 - index].state))
      ensures Value() == old(Value()).With(index, StateValue(st))
    {
      protocols := protocols[index := protocols[index].(state := st)];
    }

    /** Give a substream that no protocol owns the handshake of protocol `index`. */
    method AnswerWithHandshake(stream: InboundSubstream, index: nat)
      requires Valid() && index < 2
      requires stream !in Repr()
      modifies stream
      ensures Valid() && Value() == old(Value())
      ensures stream.Value() == WithHandshake(old(stream.Value()), protocols[index].handshake)
    {
      stream.SetHandshake(protocols[index].handshake);
    }

    method OnInbound(stream: InboundSubstream, index: nat)
      requires Valid() && index < 2
      requires stream !in Repr()
      modifies this, stream
      ensures Valid() && Repr() <= old(Repr()) + {stream}
      ensures Value() == HandlerModel.OnInbound(old(Value()), index, old(stream.Value()))
    {
      match protocols[index].state {
        case StClosed(pendingOpening) =>
          pendingEvents := pendingEvents + [NotifyBehaviour(DesiredByRemote(index))];
          Put(index, StDesired(stream, pendingOpening));
        case StDesired(_, _) =>
        case StOpening(inbound, isInbound) =>
          if inbound.None? {
            AnswerWithHandshake(stream, index);
            Put(index, StOpening(Some(stream), isInbound));
          }
        case StOpen(recv, inbound, outbound) =>
          if inbound.None? {
            AnswerWithHandshake(stream, index);
            Put(index, StOpen(recv, Some(stream), outbound));
          }
      }
    }

    /** A requested outbound substream was negotiated; `received` is the remote's handshake. */
    method OnOutbound(index: nat, received: Bytes)
      requires Valid() && index < 2
      modifies this
      ensures Valid() && Repr() <= old(Repr())
      ensures Value() == HandlerModel.OnOutbound(old(Value()), index, received)
    {
      match protocols[index].state {
        case StClosed(_) => Put(index, StClosed(false));
        case StDesired(sub, _) => Put(index, StDesired(sub, false));
        case StOpening(inbound, isInbound) =>
          Put(index, StOpen(NEW_CHANNEL, inbound, Some(Sink([]))));
          pendingEvents := pendingEvents + [NotifyBehaviour(HandshakeCompleted(index, received, isInbound))];
        case StOpen(_, _, _) =>
      }
    }

    method OnDialError(index: nat)
      requires Valid() && index < 2
      modifies this
      ensures Valid() && Repr() <= old(Repr())
      ensures Value() == HandlerModel.OnDialError(old(Value()), index)
    {
      match protocols[index].state {
        case StClosed(_) => Put(index, StClosed(false));
        case StDesired(sub, _) => Put(index, StDesired(sub, false));
        case StOpening(_, _) =>
          Put(index, StClosed(false));
          pendingEvents := pendingEvents + [NotifyBehaviour(HandshakeError(index))];
        case StOpen(_, _, _) =>
      }
    }

    method OnBehaviourEvent(message: FromBehaviour)
      requires Valid() && message.index < 2
      modifies Repr()
      ensures Valid() && Repr() <= old(Repr())
      ensures Value() == OnMessage(old(Value()), message)
    {
      match message {
        case Open(index) => OnOpen(index);
        case Close(index) => OnClose(index);
      }
    }

    method OnOpen(index: nat)
      requires Valid() && index < 2
      modifies Repr()
      ensures Valid() && Repr() <= old(Repr())
      ensures Value() == HandlerModel.OnOpen(old(Value()), index)
    {
      match protocols[index].state {
        case StClosed(pendingOpening) =>
          RequestSubstream(index, pendingOpening);
          Put(index, StOpening(None, false));
        case StDesired(sub, pendingOpening) =>
          RequestSubstream(index, pendingOpening);
          sub.SetHandshake(protocols[index].handshake);
          assert StateValue(protocols[1 - index].state) == old(StateValue(protocols[1 - index].state));
          // The substream is moved out of the old state before the new one is installed.
          Put(index, StOpening(None, false));
          Put(index, StOpening(Some(sub), true));
        case _ =>
      }
    }

    method RequestSubstream(index: nat, pendingOpening: bool)
      requires Valid() && index < 2
      modifies this`pendingEvents
      ensures Valid() && Value() == Request(old(Value()), index, pendingOpening)
    {
      if !pendingOpening {
        pendingEvents := pendingEvents + [OutboundSubstreamRequest(index, protocols[index].handshake)];
      }
    }

    method OnClose(index: nat)
      requires Valid() && index < 2
      modifies this
      ensures Valid() && Repr() <= old(Repr())
      ensures Value() == HandlerModel.OnClose(old(Value()), index)
    {
      match protocols[index].state {
        case StClosed(_) =>
        case StDesired(_, pendingOpening) => Put(index, StClosed(pendingOpening));
        case StOpening(_, _) =>
          Put(index, StClosed(true));
          pendingEvents := pendingEvents + [NotifyBehaviour(HandshakeError(index))];
        case StOpen(_, _, _) => Put(index, StClosed(false));
      }
      pendingEvents := pendingEvents + [NotifyBehaviour(Closed(index))];
    }

    /** Hand the user's messages to the outbound substream of one open protocol. */
    static method SendMessages(recv0: Receiver, sink0: Sink, ready: nat -> PollUnit)
      returns (recv: Receiver, sink: Sink)
      ensures (recv, sink) == Drain(recv0, sink0, ready, 0)
    {
      recv, sink := recv0, sink0;
      var k: nat := 0;
      while true
        invariant Drain(recv, sink, ready, k) == Drain(recv0, sink0, ready, 0)
        decreases |recv.Content()|
      {
        var (peeked, some) := recv.Peek();
        recv := peeked;
        if !some {
          return;
        }
        sink := Sink(sink.ops + [PolledReady(ready(k))]);
        if ready(k).Pending? {
          return;
        }
        var (rest, message) := recv.Take();
        recv := rest;
        match message {
          case Some(m) =>
            ghost var before := sink.ops[..|sink.ops| - 1];
            sink := Sink(sink.ops + [StartSend(m)]);
            assert sink.ops == before + [PolledReady(ready(k)), StartSend(m)];
          case None =>
            // Never reached: the peek above has put a message in the slot.
            assert false;
        }
        k := k + 1;
      }
    }

    method Poll(env: PollEnv) returns (event: Option<HandlerEvent>)
      requires Valid()
      modifies Repr()
      ensures Valid() && Repr() <= old(Repr())
      ensures (Value(), event) == HandlerModel.Poll(old(Value()), env)
    {
      if pendingEvents != [] {
        event := Some(pendingEvents[0]);
        pendingEvents := pendingEvents[1..];
        return;
      }
      SendAll(env);
      event := FlushAll(env);
      if event.Some? {
        return;
      }
      event := PollInbound(env);
    }

    method SendAll(env: PollEnv)
      requires Valid()
      modifies this`protocols
      ensures Valid() && Repr() == old(Repr())
      ensures Value() == DrainFrom(old(Value()), 0, env)
    {
      for index := 0 to 2
        invariant Valid() && Repr() == old(Repr())
        invariant DrainFrom(Value(), index, env) == DrainFrom(old(Value()), 0, env)
      {
        SendOne(index, env.ready(index));
      }
    }

    method SendOne(index: nat, ready: nat -> PollUnit)
      requires Valid() && index < 2
      modifies this`protocols
      ensures Valid() && Repr() == old(Repr())
      ensures Value() == old(Value()).With(index, DrainState(old(Value()).At(index), ready))
    {
      var st := SendState(protocols[index].state, ready);
      Put(index, st);
    }

    static method SendState(st: ObjState, ready: nat -> PollUnit) returns (st': ObjState)
      ensures st' == DrainState(st, ready)
    {
      match st {
        case StOpen(recv, inbound, Some(outbound)) =>
          var recv', outbound' := SendMessages(recv, outbound, ready);
          st' := StOpen(recv', inbound, Some(outbound'));
        case _ => st' := st;
      }
    }

    method FlushAll(env: PollEnv) returns (event: Option<HandlerEvent>)
      requires Valid()
      modifies this`protocols
      ensures Valid() && Repr() == old(Repr())
      ensures (Value(), event) == FlushFrom(old(Value()), 0, env)
    {
      for index := 0 to 2
        invariant Valid() && Repr() == old(Repr())
        invariant FlushFrom(Value(), index, env) == FlushFrom(old(Value()), 0, env)
      {
        var failed := FlushOne(index, env.flush(index));
        if failed {
          return Some(NotifyBehaviour(CloseDesired(index)));
        }
      }
      event := None;
    }

    method FlushOne(index: nat, answer: PollUnit) returns (failed: bool)
      requires Valid() && index < 2
      modifies this`protocols
      ensures Valid() && Repr() == old(Repr())
      ensures failed == FlushState(old(Value()).At(index), answer).1
      ensures Value() == old(Value()).With(index, FlushState(old(Value()).At(index), answer).0)
    {
      failed := false;
      match protocols[index].state {
        case StOpen(recv, inbound, Some(outbound)) =>
          if answer.ReadyErr? {
            Put(index, StOpen(recv, inbound, None));
            failed := true;
          } else {
            Put(index, StOpen(recv, inbound, Some(Sink(outbound.ops + [PolledFlush(answer)]))));
          }
        case _ =>
      }
    }

    method PollInbound(env: PollEnv) returns (event: Option<HandlerEvent>)
      requires Valid()
      modifies Repr()
      ensures Valid() && Repr() <= old(Repr())
      ensures (Value(), event) == InboundFrom(old(Value()), 0, env)
    {
      for index := 0 to 2
        invariant Valid() && Repr() <= old(Repr())
        invariant InboundFrom(Value(), index, env) == InboundFrom(old(Value()), 0, env)
      {
        var outcome := PollOne(index, env.inbound(index));
        match outcome {
          case Received(bytes) => return Some(NotifyBehaviour(Notification(index, bytes)));
          case Broken => return Some(NotifyBehaviour(CloseDesired(index)));
          case Quiet =>
        }
      }
      event := None;
    }

    method PollOne(index: nat, env: nat -> Answer) returns (outcome: InboundOutcome)
      requires Valid() && index < 2
      modifies Repr()
      ensures Valid() && Repr() <= old(Repr())
      ensures outcome == InboundState(old(Value()).At(index), env).1
      ensures Value() == old(Value()).With(index, InboundState(old(Value()).At(index), env).0)
    {
      match protocols[index].state {
        case StOpen(_, Some(_), _) => outcome := PollOpen(index, env);
        case StDesired(_, _) => outcome := PollHandshake(index, env);
        case StOpening(Some(_), _) => outcome := PollHandshake(index, env);
        case _ => outcome := Quiet;
      }
    }

    method PollOpen(index: nat, env: nat -> Answer) returns (outcome: InboundOutcome)
      requires Valid() && index < 2 && protocols[index].state.StOpen? && protocols[index].state.inbound.Some?
      modifies this`protocols, Owned(protocols[index].state)
      ensures Valid() && Repr() <= old(Repr())
      ensures outcome == InboundState(old(Value()).At(index), env).1
      ensures Value() == old(Value()).With(index, InboundState(old(Value()).At(index), env).0)
    {
      outcome := Quiet;
      var st := protocols[index].state;
      var r := st.inbound.value.PollNext(env);
      assert StateValue(protocols[1 - index].state) == old(StateValue(protocols[1 - index].state));
      match r {
        case StreamPending =>
        case StreamItem(bytes) => outcome := Received(bytes);
        case _ => Put(index, StOpen(st.recv, None, st.outbound));
      }
    }

    method PollHandshake(index: nat, env: nat -> Answer) returns (outcome: InboundOutcome)
      requires Valid() && index < 2
      requires var st := protocols[index].state; st.StDesired? || (st.StOpening? && st.inbound.Some?)
      modifies this`protocols, Owned(protocols[index].state)
      ensures Valid() && Repr() <= old(Repr())
      ensures outcome == InboundState(old(Value()).At(index), env).1
      ensures Value() == old(Value()).With(index, InboundState(old(Value()).At(index), env).0)
    {
      outcome := Quiet;
      var st := protocols[index].state;
      var sub := if st.StDesired? then st.substream else st.inbound.value;
      var r := sub.PollProcess(env);
      assert StateValue(protocols[1 - index].state) == old(StateValue(protocols[1 - index].state));
      if r.ProcessError? {
        if st.StDesired? {
          Put(index, StClosed(st.pendingOpening));
          outcome := Broken;
        } else {
          Put(index, StOpening(None, st.isInbound));
        }
      }
    }
  }
}
