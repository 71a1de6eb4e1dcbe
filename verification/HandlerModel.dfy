/**
 The connection handler: per protocol a four-state machine, and a queue of events that
 `poll` hands out first. Model of `NotificationsHandler` in notifications/handler.rs.
 */
module HandlerModel {
  import opened Wrappers
  import opened Substream

  datatype FromBehaviour = Open(index: nat) | Close(index: nat)

  datatype ToBehaviour =
    | HandshakeCompleted(index: nat, handshake: Bytes, isInbound: bool)
    | HandshakeError(index: nat)
    | DesiredByRemote(index: nat)
    | CloseDesired(index: nat)
    | Closed(index: nat)
    | Notification(index: nat, bytes: Bytes)

  datatype HandlerEvent =
    | OutboundSubstreamRequest(index: nat, handshake: Bytes)
    | NotifyBehaviour(event: ToBehaviour)

  /**
   The peekable receiving end of the user's message channel. `submitted` and `taken` are
   its history: the messages pushed by the user and those taken out by the handler.
   */
  datatype Receiver = Receiver(peeked: Option<Bytes>, queue: seq<Bytes>, submitted: seq<Bytes>, taken: seq<Bytes>) {
    function Content(): seq<Bytes> {
      if peeked.Some? then [peeked.value] + queue else queue
    }

    /** `poll_peek`: pull one message into the peek slot if there is none; true if a message is there. */
    function Peek(): (Receiver, bool) {
      if peeked.Some? then (this, true)
      else if queue != [] then (this.(peeked := Some(queue[0]), queue := queue[1..]), true)
      else (this, false)
    }

    /** `poll_next`: the peeked message first, then the channel. */
    function Take(): (Receiver, Option<Bytes>) {
      if peeked.Some? then (this.(peeked := None, taken := taken + [peeked.value]), peeked)
      else if queue != [] then (this.(queue := queue[1..], taken := taken + [queue[0]]), Some(queue[0]))
      else (this, None)
    }

    function Submit(message: Bytes): Receiver {
      this.(queue := queue + [message], submitted := submitted + [message])
    }
  }

  const NEW_CHANNEL: Receiver := Receiver(None, [], [], [])

  datatype SinkOp = PolledReady(answer: PollUnit) | StartSend(message: Bytes) | PolledFlush(answer: PollUnit)

  /** The outbound substream, as the history of the operations made on it. */
  datatype Sink = Sink(ops: seq<SinkOp>)

  datatype State<S> =
    | StClosed(pendingOpening: bool)
    | StDesired(substream: S, pendingOpening: bool)
    | StOpening(inbound: Option<S>, isInbound: bool)
    | StOpen(recv: Receiver, inbound: Option<S>, outbound: Option<Sink>)

  datatype Protocol<S> = Protocol(handshake: Bytes, state: State<S>)

  datatype Handler = Handler(protocols: seq<Protocol<Sub>>, pending: seq<HandlerEvent>) {
    predicate Has(i: nat) { i < |protocols| }

    function At(i: nat): State<Sub>
      requires Has(i)
    {
      protocols[i].state
    }

    function With(i: nat, st: State<Sub>): Handler
      requires Has(i)
    {
      this.(protocols := protocols[i := protocols[i].(state := st)])
    }

    function Push(e: HandlerEvent): Handler {
      this.(pending := pending + [e])
    }

    function Notify(e: ToBehaviour): Handler {
      Push(NotifyBehaviour(e))
    }
  }

  /** `NotificationsHandler::new`: block announces at 0, transactions at 1. */
  function NewHandler(blockAnnounces: Bytes, role: Bytes): Handler {
    Handler([Protocol(blockAnnounces, StClosed(false)), Protocol(role, StClosed(false))], [])
  }

  // ---------------------------------------------------------------------------
  // Connection events
  // ---------------------------------------------------------------------------

  function OnInbound(h: Handler, i: nat, sub: Sub): Handler
    requires h.Has(i)
  {
    match h.At(i)
    case StClosed(pending) => h.Notify(DesiredByRemote(i)).With(i, StDesired(sub, pending))
    case StDesired(_, _) => h
    case StOpening(inbound, isInbound) =>
      if inbound.Some? then h
      else h.With(i, StOpening(Some(WithHandshake(sub, h.protocols[i].handshake)), isInbound))
    case StOpen(recv, inbound, outbound) =>
      if inbound.Some? then h
      else h.With(i, StOpen(recv, Some(WithHandshake(sub, h.protocols[i].handshake)), outbound))
  }

  function OnOutbound(h: Handler, i: nat, received: Bytes): Handler
    requires h.Has(i)
  {
    match h.At(i)
    case StClosed(_) => h.With(i, StClosed(false))
    case StDesired(sub, _) => h.With(i, StDesired(sub, false))
    case StOpening(inbound, isInbound) =>
      h.With(i, StOpen(NEW_CHANNEL, inbound, Some(Sink([])))).Notify(HandshakeCompleted(i, received, isInbound))
    case StOpen(_, _, _) => h
  }

  function OnDialError(h: Handler, i: nat): Handler
    requires h.Has(i)
  {
    match h.At(i)
    case StClosed(_) => h.With(i, StClosed(false))
    case StDesired(sub, _) => h.With(i, StDesired(sub, false))
    case StOpening(_, _) => h.With(i, StClosed(false)).Notify(HandshakeError(i))
    case StOpen(_, _, _) => h
  }

  // ---------------------------------------------------------------------------
  // Messages from the behaviour
  // ---------------------------------------------------------------------------

  function Request(h: Handler, i: nat, pendingOpening: bool): Handler
    requires h.Has(i)
  {
    if pendingOpening then h else h.Push(OutboundSubstreamRequest(i, h.protocols[i].handshake))
  }

  function OnOpen(h: Handler, i: nat): Handler
    requires h.Has(i)
  {
    match h.At(i)
    case StClosed(pending) => Request(h, i, pending).With(i, StOpening(None, false))
    case StDesired(sub, pending) =>
      Request(h, i, pending).With(i, StOpening(Some(WithHandshake(sub, h.protocols[i].handshake)), true))
    case _ => h
  }

  function OnClose(h: Handler, i: nat): Handler
    requires h.Has(i)
  {
    var h' := match h.At(i)
      case StClosed(_) => h
      case StDesired(_, pending) => h.With(i, StClosed(pending))
      case StOpening(_, _) => h.With(i, StClosed(true)).Notify(HandshakeError(i))
      case StOpen(_, _, _) => h.With(i, StClosed(false));
    h'.Notify(Closed(i))
  }

  function OnMessage(h: Handler, m: FromBehaviour): Handler
    requires h.Has(m.index)
  {
    match m
    case Open(i) => OnOpen(h, i)
    case Close(i) => OnClose(h, i)
  }

  // ---------------------------------------------------------------------------
  // Polling
  // ---------------------------------------------------------------------------

  /** How the sockets of each protocol answer during one `poll`. */
  datatype PollEnv = PollEnv(ready: nat -> nat -> PollUnit, flush: nat -> PollUnit, inbound: nat -> nat -> Answer)

  /** The message loop from turn `k` on. */
  function Drain(recv: Receiver, sink: Sink, ready: nat -> PollUnit, k: nat): (Receiver, Sink)
    decreases |recv.Content()|
  {
    var (peeked, some) := recv.Peek();
    if !some then (peeked, sink)
    else if ready(k).Pending? then (peeked, Sink(sink.ops + [PolledReady(Pending)]))
    else
      var (rest, message) := peeked.Take();
      match message
      case Some(m) => Drain(rest, Sink(sink.ops + [PolledReady(ready(k)), StartSend(m)]), ready, k + 1)
      case None => (rest, Sink(sink.ops + [PolledReady(ready(k))]))
  }

  function DrainState<S>(st: State<S>, ready: nat -> PollUnit): State<S> {
    if st.StOpen? && st.outbound.Some? then
      var (recv, sink) := Drain(st.recv, st.outbound.value, ready, 0);
      st.(recv := recv, outbound := Some(sink))
    else st
  }

  /** Flush one outbound substream; true if it failed and was dropped. */
  function FlushState<S>(st: State<S>, answer: PollUnit): (State<S>, bool) {
    if st.StOpen? && st.outbound.Some? then
      if answer.ReadyErr? then (st.(outbound := None), true)
      else (st.(outbound := Some(Sink(st.outbound.value.ops + [PolledFlush(answer)]))), false)
    else (st, false)
  }

  datatype InboundOutcome = Quiet | Received(bytes: Bytes) | Broken

  /** Poll one inbound substream. */
  function InboundState(st: State<Sub>, env: nat -> Answer): (State<Sub>, InboundOutcome) {
    match st
    case StOpen(recv, Some(sub), outbound) =>
      var (s, r) := Next(sub, env, 0);
      (match r
       case StreamPending => (StOpen(recv, Some(s), outbound), Quiet)
       case StreamItem(bytes) => (StOpen(recv, Some(s), outbound), Received(bytes))
       case _ => (StOpen(recv, None, outbound), Quiet))
    case StDesired(sub, pending) =>
      var (s, r) := Process(sub, env, 0);
      (match r
       case ProcessPending => (StDesired(s, pending), Quiet)
       case ProcessError => (StClosed(pending), Broken))
    case StOpening(Some(sub), isInbound) =>
      var (s, r) := Process(sub, env, 0);
      (match r
       case ProcessPending => (StOpening(Some(s), isInbound), Quiet)
       case ProcessError => (StOpening(None, isInbound), Quiet))
    case _ => (st, Quiet)
  }

  function DrainFrom(h: Handler, i: nat, env: PollEnv): (r: Handler)
    requires i <= |h.protocols|
    ensures |r.protocols| == |h.protocols|
    decreases |h.protocols| - i
  {
    if i == |h.protocols| then h
    else DrainFrom(h.With(i, DrainState(h.At(i), env.ready(i))), i + 1, env)
  }

  function FlushFrom(h: Handler, i: nat, env: PollEnv): (r: (Handler, Option<HandlerEvent>))
    requires i <= |h.protocols|
    ensures |r.0.protocols| == |h.protocols|
    decreases |h.protocols| - i
  {
    if i == |h.protocols| then (h, None)
    else
      var (st, failed) := FlushState(h.At(i), env.flush(i));
      if failed then (h.With(i, st), Some(NotifyBehaviour(CloseDesired(i))))
      else FlushFrom(h.With(i, st), i + 1, env)
  }

  function InboundFrom(h: Handler, i: nat, env: PollEnv): (r: (Handler, Option<HandlerEvent>))
    requires i <= |h.protocols|
    ensures |r.0.protocols| == |h.protocols|
    decreases |h.protocols| - i
  {
    if i == |h.protocols| then (h, None)
    else
      var (st, outcome) := InboundState(h.At(i), env.inbound(i));
      match outcome
      case Received(bytes) => (h.With(i, st), Some(NotifyBehaviour(Notification(i, bytes))))
      case Broken => (h.With(i, st), Some(NotifyBehaviour(CloseDesired(i))))
      case Quiet => InboundFrom(h.With(i, st), i + 1, env)
  }

  function Poll(h: Handler, env: PollEnv): (r: (Handler, Option<HandlerEvent>))
    ensures |r.0.protocols| == |h.protocols|
  {
    if h.pending != [] then (h.(pending := h.pending[1..]), Some(h.pending[0]))
    else
      var (h', event) := FlushFrom(DrainFrom(h, 0, env), 0, env);
      if event.Some? then (h', event) else InboundFrom(h', 0, env)
  }

  /** `connection_keep_alive`: some protocol is not closed. */
  predicate KeepAlive(h: Handler) {
    exists i :: 0 <= i < |h.protocols| && !h.protocols[i].state.StClosed?
  }
}
