/**
 Whole runs of one connection handler: any interleaving of negotiation results, behaviour
 messages, user messages and polls.
 */
module HandlerRuns {
  import opened Wrappers
  import opened Substream
  import opened HandlerModel

  /**
   A handler with its surroundings: `inflight` are the outbound requests handed to the swarm and
   not answered yet, `emitted` are the events handed to the behaviour.
   */
  datatype World = World(handler: Handler, inflight: multiset<nat>, emitted: seq<ToBehaviour>)

  datatype Action =
    | Inbound(index: nat)
    | Negotiated(index: nat, received: Bytes)
    | DialFailed(index: nat)
    | Message(message: FromBehaviour)
    | UserMessage(index: nat, bytes: Bytes)
    | PollHandler(env: PollEnv)

  function Start(blockAnnounces: Bytes, role: Bytes): World {
    World(NewHandler(blockAnnounces, role), multiset{}, [])
  }

  /** The swarm answers an outbound request once, and only one it was given. */
  predicate Enabled(w: World, a: Action) {
    match a
    case Inbound(i) => w.handler.Has(i)
    case Negotiated(i, _) => w.handler.Has(i) && i in w.inflight
    case DialFailed(i) => w.handler.Has(i) && i in w.inflight
    case Message(m) => w.handler.Has(m.index)
    case UserMessage(i, _) => w.handler.Has(i) && w.handler.At(i).StOpen?
    case PollHandler(_) => true
  }

  /** The swarm takes an event out of the handler. */
  function Emit(w: World, event: Option<HandlerEvent>): World {
    match event
    case None => w
    case Some(OutboundSubstreamRequest(i, _)) => w.(inflight := w.inflight[i := w.inflight[i] + 1])
    case Some(NotifyBehaviour(e)) => w.(emitted := w.emitted + [e])
  }

  function Step(w: World, a: Action): World
    requires Enabled(w, a)
  {
    match a
    case Inbound(i) => w.(handler := OnInbound(w.handler, i, FRESH))
    case Negotiated(i, received) =>
      w.(handler := OnOutbound(w.handler, i, received), inflight := w.inflight[i := w.inflight[i] - 1])
    case DialFailed(i) => w.(handler := OnDialError(w.handler, i), inflight := w.inflight[i := w.inflight[i] - 1])
    case Message(m) => w.(handler := OnMessage(w.handler, m))
    case UserMessage(i, bytes) =>
      var st := w.handler.At(i);
      w.(handler := w.handler.With(i, StOpen(st.recv.Submit(bytes), st.inbound, st.outbound)))
    case PollHandler(env) =>
      var (h, event) := Poll(w.handler, env);
      Emit(w.(handler := h), event)
  }

  /** `ws` are the states of a run taking the actions `acts`. */
  ghost predicate Run(ws: seq<World>, acts: seq<Action>) {
    && |ws| == |acts| + 1
    && (exists b, r :: ws[0] == Start(b, r))
    && forall k {:trigger acts[k]} :: 0 <= k < |acts| ==> StepTo(ws[k], acts[k], ws[k + 1])
  }

  ghost predicate StepTo(w: World, a: Action, w': World) {
    Enabled(w, a) && w' == Step(w, a)
  }

  // ---------------------------------------------------------------------------
  // What the invariant says
  // ---------------------------------------------------------------------------

  /** Requests for protocol `i` in a queue of handler events. */
  function Requests(q: seq<HandlerEvent>, i: nat): (n: nat)
    ensures n <= |q|
  {
    if q == [] then 0
    else Requests(q[..|q| - 1], i)
         + (if q[|q| - 1].OutboundSubstreamRequest? && q[|q| - 1].index == i then 1 else 0)
  }

  /** Outbound requests for `i` that were issued and not answered. */
  function Outstanding(w: World, i: nat): nat {
    Requests(w.handler.pending, i) + w.inflight[i]
  }

  /** How many unanswered requests each state stands for. */
  function Expected<S>(st: State<S>): nat {
    match st
    case StClosed(pending) => if pending then 1 else 0
    case StDesired(_, pending) => if pending then 1 else 0
    case StOpening(_, _) => 1
    case StOpen(_, _, _) => 0
  }

  /** The phase of the substream each state may hold. */
  ghost predicate Phased(st: State<Sub>, handshake: Bytes) {
    match st
    case StClosed(_) => true
    case StDesired(sub, _) => sub == FRESH
    case StOpening(inbound, _) =>
      inbound.Some? ==> WellPhased(inbound.value, handshake) && 1 <= Rank(inbound.value.phase) <= 3
    case StOpen(_, inbound, _) =>
      inbound.Some? ==> WellPhased(inbound.value, handshake) && 1 <= Rank(inbound.value.phase) <= 4
  }

  /** Messages handed to the sink, in order. */
  function Handed(ops: seq<SinkOp>): seq<Bytes> {
    if ops == [] then []
    else if ops[|ops| - 1].StartSend? then Handed(ops[..|ops| - 1]) + [ops[|ops| - 1].message]
    else Handed(ops[..|ops| - 1])
  }

  /** Every send directly follows a readiness poll that was not pending. */
  ghost predicate SendsWhenReady(ops: seq<SinkOp>) {
    forall k :: 0 <= k < |ops| && ops[k].StartSend? ==>
      k > 0 && ops[k - 1].PolledReady? && !ops[k - 1].answer.Pending?
  }

  /** `a + b`, without a concatenation when one side is empty. */
  function Joined(a: seq<Bytes>, b: seq<Bytes>): seq<Bytes> {
    if a == [] then b else if b == [] then a else a + b
  }

  /** Nothing is lost, duplicated or reordered between the user, the channel and the sink. */
  ghost predicate Conserved(recv: Receiver) {
    Joined(recv.taken, recv.Content()) == recv.submitted
  }

  ghost predicate Linked(recv: Receiver, sink: Sink) {
    Conserved(recv) && Handed(sink.ops) == recv.taken && SendsWhenReady(sink.ops)
  }

  ghost predicate Carried<S>(st: State<S>) {
    st.StOpen? ==> Conserved(st.recv) && (st.outbound.Some? ==> Linked(st.recv, st.outbound.value))
  }

  /** `told` followed by the events of a queue that go to the behaviour. */
  function Extend(told: seq<ToBehaviour>, q: seq<HandlerEvent>): seq<ToBehaviour> {
    if q == [] then told
    else if q[|q| - 1].NotifyBehaviour? then Extend(told, q[..|q| - 1]) + [q[|q| - 1].event]
    else Extend(told, q[..|q| - 1])
  }

  /** Everything the behaviour was or will be told, in order. */
  function Told(w: World): seq<ToBehaviour> {
    Extend(w.emitted, w.handler.pending)
  }

  /** The last completion or close of `i` in `es` is a completion. */
  function OpenAfter(es: seq<ToBehaviour>, i: nat): bool {
    if es == [] then false
    else
      var e := es[|es| - 1];
      if e.HandshakeCompleted? && e.index == i then true
      else if e.Closed? && e.index == i then false
      else OpenAfter(es[..|es| - 1], i)
  }

  /** Every notification of `es` arrives while its protocol is open. */
  ghost predicate NotifiedWhileOpen(es: seq<ToBehaviour>) {
    forall k :: 0 <= k < |es| && es[k].Notification? ==> OpenAfter(es[..k], es[k].index)
  }

  /** Queued events are about one of the `n` protocols and never of the kind `poll` makes itself. */
  ghost predicate Queueable(q: seq<HandlerEvent>, n: nat) {
    forall k :: 0 <= k < |q| && q[k].NotifyBehaviour? ==>
      q[k].event.index < n && !q[k].event.Notification? && !q[k].event.CloseDesired?
  }

  /** What holds of a protocol with that many unanswered requests, and told to be open or not. */
  ghost predicate ProtocolOk(p: Protocol<Sub>, outstanding: int, open: bool) {
    outstanding == Expected(p.state) && StateOk(p.state, p.handshake) && (p.state.StOpen? <==> open)
  }

  ghost predicate ProtocolInv(w: World, i: nat)
    requires w.handler.Has(i)
  {
    ProtocolOk(w.handler.protocols[i], Outstanding(w, i), OpenAfter(Told(w), i))
  }

  ghost predicate Inv(w: World) {
    && Queueable(w.handler.pending, |w.handler.protocols|)
    && (forall k :: 0 <= k < |w.emitted| ==> w.handler.Has(w.emitted[k].index))
    && NotifiedWhileOpen(w.emitted)
    && forall i: nat :: w.handler.Has(i) ==> ProtocolInv(w, i)
  }

  // ---------------------------------------------------------------------------
  // Queue arithmetic
  // ---------------------------------------------------------------------------

  lemma RequestsPop(q: seq<HandlerEvent>, i: nat)
    requires q != []
    ensures Requests(q, i) == (if q[0].OutboundSubstreamRequest? && q[0].index == i then 1 else 0) + Requests(q[1..], i)
  {
    if |q| > 1 {
      assert q[..|q| - 1][1..] == q[1..][..|q| - 2];
      RequestsPop(q[..|q| - 1], i);
    }
  }

  lemma {:induction false} ExtendPop(told: seq<ToBehaviour>, q: seq<HandlerEvent>)
    requires q != []
    ensures Extend(told, q) == Extend(if q[0].NotifyBehaviour? then told + [q[0].event] else told, q[1..])
    decreases |q|
  {
    if |q| > 1 {
      assert q[1..][..|q| - 2] == q[..|q| - 1][1..];
      ExtendPop(told, q[..|q| - 1]);
    }
  }

  lemma PushCounts(q: seq<HandlerEvent>, e: HandlerEvent, i: nat)
    ensures Requests(q + [e], i) ==
            Requests(q, i) + (if e.OutboundSubstreamRequest? && e.index == i then 1 else 0)
  {
    assert (q + [e])[..|q|] == q;
  }

  lemma ExtendPush(told: seq<ToBehaviour>, q: seq<HandlerEvent>, e: HandlerEvent)
    ensures Extend(told, q + [e]) == if e.NotifyBehaviour? then Extend(told, q) + [e.event] else Extend(told, q)
  {
    assert (q + [e])[..|q|] == q;
  }

  lemma OpenAfterPush(es: seq<ToBehaviour>, e: ToBehaviour, i: nat)
    ensures OpenAfter(es + [e], i) ==
            if e.HandshakeCompleted? && e.index == i then true
            else if e.Closed? && e.index == i then false
            else OpenAfter(es, i)
  {
    assert (es + [e])[..|es|] == es;
  }

  // ---------------------------------------------------------------------------
  // One protocol under polling
  // ---------------------------------------------------------------------------

  /** The part of the invariant that one protocol state keeps on its own. */
  ghost predicate StateOk(st: State<Sub>, handshake: Bytes) {
    Phased(st, handshake) && Carried(st)
  }

  /** The substream a state holds, if any. */
  function HeldSub(st: State<Sub>): Option<Sub> {
    match st
    case StClosed(_) => None
    case StDesired(sub, _) => Some(sub)
    case StOpening(inbound, _) => inbound
    case StOpen(_, inbound, _) => inbound
  }

  /** A substream only moves forward: its phase in rank, its socket history by extension. */
  ghost predicate Forward(s: Sub, s': Sub) {
    Rank(s.phase) <= Rank(s'.phase) && s.log <= s'.log
  }

  /** Messages only move from the channel to the sink, and not at all once the sink was dropped. */
  ghost predicate Flows<S>(st: State<S>, st': State<S>)
    requires st.StOpen? && st'.StOpen?
  {
    && st'.recv.submitted == st.recv.submitted
    && st.recv.taken <= st'.recv.taken
    && (st.outbound.None? ==> st'.outbound.None? && st'.recv == st.recv)
  }

  /**
   What `poll` may do to a protocol: it stays in the same one of the four states, holds no new
   substream, moves a held one forward and passes messages on.
   */
  ghost predicate Polled(st: State<Sub>, st': State<Sub>) {
    && Expected(st) == Expected(st')
    && (st.StClosed? <==> st'.StClosed?)
    && (st.StDesired? <==> st'.StDesired?)
    && (st.StOpening? <==> st'.StOpening?)
    && (st.StOpen? <==> st'.StOpen?)
    && (HeldSub(st').Some? ==> HeldSub(st).Some? && Forward(HeldSub(st).value, HeldSub(st').value))
    && (st.StOpen? ==> Flows(st, st'))
  }

  lemma HandedPush(ops: seq<SinkOp>, op: SinkOp)
    ensures Handed(ops + [op]) == if op.StartSend? then Handed(ops) + [op.message] else Handed(ops)
  {
    assert (ops + [op])[..|ops|] == ops;
  }

  lemma TakeConserves(recv: Receiver)
    requires Conserved(recv) && recv.peeked.Some?
    ensures Conserved(recv.Take().0) && recv.Take().0.submitted == recv.submitted
    ensures recv.Take() == (Receiver(None, recv.queue, recv.submitted, recv.taken + [recv.peeked.value]), recv.peeked)
  {
    assert recv.taken + recv.Content() == (recv.taken + [recv.peeked.value]) + recv.queue;
  }

  lemma SendHands(ops: seq<SinkOp>, answer: PollUnit, m: Bytes)
    requires SendsWhenReady(ops) && !answer.Pending?
    ensures SendsWhenReady(ops + [PolledReady(answer), StartSend(m)])
    ensures Handed(ops + [PolledReady(answer), StartSend(m)]) == Handed(ops) + [m]
  {
    var polled := ops + [PolledReady(answer)];
    HandedPush(ops, PolledReady(answer));
    HandedPush(polled, StartSend(m));
    assert ops + [PolledReady(answer), StartSend(m)] == polled + [StartSend(m)];
  }

  lemma PeekKeeps(recv: Receiver)
    ensures recv.Peek().0.Content() == recv.Content()
    ensures recv.Peek().0.taken == recv.taken && recv.Peek().0.submitted == recv.submitted
    ensures recv.Peek().1 <==> recv.Peek().0.peeked.Some?
    ensures !recv.Peek().1 ==> recv.Peek().0 == recv
  {
  }

  /** The whole message loop: everything it takes from the channel it hands to the sink. */
  lemma {:induction false} DrainLinks(recv: Receiver, sink: Sink, ready: nat -> PollUnit, k: nat)
    requires Linked(recv, sink)
    ensures var (recv', sink') := Drain(recv, sink, ready, k);
            Linked(recv', sink') && recv'.submitted == recv.submitted && recv.taken <= recv'.taken
    decreases |recv.Content()|
  {
    PeekKeeps(recv);
    var (peeked, some) := recv.Peek();
    if some {
      if ready(k).Pending? {
        HandedPush(sink.ops, PolledReady(Pending));
      } else {
        TakeConserves(peeked);
        SendHands(sink.ops, ready(k), peeked.peeked.value);
        var (rest, message) := peeked.Take();
        DrainLinks(rest, Sink(sink.ops + [PolledReady(ready(k)), StartSend(message.value)]), ready, k + 1);
      }
    }
  }

  lemma DrainStateOk(st: State<Sub>, ready: nat -> PollUnit, handshake: Bytes)
    requires StateOk(st, handshake)
    ensures StateOk(DrainState(st, ready), handshake) && Polled(st, DrainState(st, ready))
    ensures st.StOpen? && st.outbound.None? ==> DrainState(st, ready) == st
  {
    if st.StOpen? && st.outbound.Some? {
      DrainLinks(st.recv, st.outbound.value, ready, 0);
    }
  }

  lemma FlushStateOk(st: State<Sub>, answer: PollUnit, handshake: Bytes)
    requires StateOk(st, handshake)
    ensures StateOk(FlushState(st, answer).0, handshake) && Polled(st, FlushState(st, answer).0)
    ensures FlushState(st, answer).1 ==> st.StOpen?
  {
    if st.StOpen? && st.outbound.Some? && !answer.ReadyErr? {
      var ops := st.outbound.value.ops;
      assert (ops + [PolledFlush(answer)])[..|ops|] == ops;
    }
  }

  /** In particular a protocol desired by the remote never breaks while it is polled. */
  lemma InboundStateOk(st: State<Sub>, env: nat -> Answer, handshake: Bytes)
    requires StateOk(st, handshake)
    ensures StateOk(InboundState(st, env).0, handshake) && Polled(st, InboundState(st, env).0)
    ensures !InboundState(st, env).1.Broken?
    ensures InboundState(st, env).1.Received? ==> st.StOpen?
  {
    match st {
      case StOpen(_, Some(sub), _) => NextKeepsPhase(sub, env, 0, handshake);
      case StDesired(sub, _) => ProcessKeepsPhase(sub, env, 0, handshake);
      case StOpening(Some(sub), _) => ProcessKeepsPhase(sub, env, 0, handshake);
      case _ =>
    }
  }

  // ---------------------------------------------------------------------------
  // All protocols under polling
  // ---------------------------------------------------------------------------

  ghost predicate AllOk(h: Handler) {
    forall i: nat :: h.Has(i) ==> StateOk(h.At(i), h.protocols[i].handshake)
  }

  /** Same queue, same handshakes, every protocol in the same kind of state. */
  ghost predicate SameShape(h: Handler, h': Handler) {
    && |h.protocols| == |h'.protocols| && h.pending == h'.pending
    && forall i: nat :: h.Has(i) ==>
         h.protocols[i].handshake == h'.protocols[i].handshake && Polled(h.At(i), h'.At(i))
  }

  lemma SameShapeTransitive(h: Handler, h1: Handler, h2: Handler)
    requires SameShape(h, h1) && SameShape(h1, h2)
    ensures SameShape(h, h2)
  {
    forall i: nat | h.Has(i)
      ensures h.protocols[i].handshake == h2.protocols[i].handshake && Polled(h.At(i), h2.At(i))
    {
      assert h1.Has(i);
    }
  }

  /** An event that `poll` makes itself: a notification or a wish to close, of an open protocol. */
  ghost predicate FromOpen(h: Handler, event: Option<HandlerEvent>) {
    event.Some? ==>
      && event.value.NotifyBehaviour?
      && var e := event.value.event;
         (e.Notification? || e.CloseDesired?) && h.Has(e.index) && h.At(e.index).StOpen?
  }

  /** Replacing the state of one protocol by one that polling may lead to. */
  lemma WithOk(h: Handler, i: nat, st: State<Sub>)
    requires AllOk(h) && h.Has(i) && StateOk(st, h.protocols[i].handshake) && Polled(h.At(i), st)
    ensures AllOk(h.With(i, st)) && SameShape(h, h.With(i, st))
  {
  }

  lemma {:induction false} DrainFromOk(h: Handler, i: nat, env: PollEnv)
    requires i <= |h.protocols| && AllOk(h)
    ensures AllOk(DrainFrom(h, i, env)) && SameShape(h, DrainFrom(h, i, env))
    decreases |h.protocols| - i
  {
    if i < |h.protocols| {
      DrainStateOk(h.At(i), env.ready(i), h.protocols[i].handshake);
      var h1 := h.With(i, DrainState(h.At(i), env.ready(i)));
      WithOk(h, i, DrainState(h.At(i), env.ready(i)));
      DrainFromOk(h1, i + 1, env);
      SameShapeTransitive(h, h1, DrainFrom(h1, i + 1, env));
    }
  }

  lemma {:induction false} FlushFromOk(h: Handler, i: nat, env: PollEnv)
    requires i <= |h.protocols| && AllOk(h)
    ensures var (h', event) := FlushFrom(h, i, env);
            && AllOk(h') && SameShape(h, h')
            && FromOpen(h, event) && (event.Some? ==> event.value.event.CloseDesired?)
    decreases |h.protocols| - i
  {
    if i < |h.protocols| {
      FlushStateOk(h.At(i), env.flush(i), h.protocols[i].handshake);
      var (st, failed) := FlushState(h.At(i), env.flush(i));
      WithOk(h, i, st);
      if !failed {
        var h1 := h.With(i, st);
        FlushFromOk(h1, i + 1, env);
        SameShapeTransitive(h, h1, FlushFrom(h1, i + 1, env).0);
      }
    }
  }

  lemma {:induction false} InboundFromOk(h: Handler, i: nat, env: PollEnv)
    requires i <= |h.protocols| && AllOk(h)
    ensures var (h', event) := InboundFrom(h, i, env);
            && AllOk(h') && SameShape(h, h')
            && FromOpen(h, event) && (event.Some? ==> event.value.event.Notification?)
    decreases |h.protocols| - i
  {
    if i < |h.protocols| {
      InboundStateOk(h.At(i), env.inbound(i), h.protocols[i].handshake);
      var (st, outcome) := InboundState(h.At(i), env.inbound(i));
      WithOk(h, i, st);
      if outcome.Quiet? {
        var h1 := h.With(i, st);
        InboundFromOk(h1, i + 1, env);
        SameShapeTransitive(h, h1, InboundFrom(h1, i + 1, env).0);
      }
    }
  }

  /** What a poll of a handler in good order can do. */
  lemma PollOk(h: Handler, env: PollEnv)
    requires AllOk(h) && h.pending == []
    ensures var (h', event) := Poll(h, env);
            && AllOk(h') && SameShape(h, h')
            && FromOpen(h, event)
  {
    DrainFromOk(h, 0, env);
    var h1 := DrainFrom(h, 0, env);
    FlushFromOk(h1, 0, env);
    var (h2, event) := FlushFrom(h1, 0, env);
    SameShapeTransitive(h, h1, h2);
    if event.None? {
      InboundFromOk(h2, 0, env);
      SameShapeTransitive(h, h2, Poll(h, env).0);
    }
  }

  // ---------------------------------------------------------------------------
  // The invariant holds along every run
  // ---------------------------------------------------------------------------

  lemma StartInv(b: Bytes, r: Bytes)
    ensures Inv(Start(b, r))
  {
  }

  lemma NotifyPushed(w: World, w': World, e: ToBehaviour, j: nat)
    requires w'.emitted == w.emitted && w'.inflight == w.inflight
    requires w'.handler.pending == w.handler.pending + [NotifyBehaviour(e)]
    ensures Told(w') == Told(w) + [e] && Outstanding(w', j) == Outstanding(w, j)
    ensures OpenAfter(Told(w'), j) == if e.HandshakeCompleted? && e.index == j then true
                                      else if e.Closed? && e.index == j then false
                                      else OpenAfter(Told(w), j)
  {
    PushCounts(w.handler.pending, NotifyBehaviour(e), j);
    ExtendPush(w.emitted, w.handler.pending, NotifyBehaviour(e));
    OpenAfterPush(Told(w), e, j);
  }

  lemma RequestPushed(w: World, w': World, i: nat, j: nat)
    requires w'.emitted == w.emitted && w'.inflight == w.inflight && w.handler.Has(i)
    requires w'.handler.pending == w.handler.pending + [OutboundSubstreamRequest(i, w.handler.protocols[i].handshake)]
    ensures Told(w') == Told(w) && Outstanding(w', j) == Outstanding(w, j) + (if i == j then 1 else 0)
  {
    var e := OutboundSubstreamRequest(i, w.handler.protocols[i].handshake);
    PushCounts(w.handler.pending, e, j);
    ExtendPush(w.emitted, w.handler.pending, e);
  }

  /** What a step queues about protocol `j`: the change in unanswered requests, and whether it is open. */
  ghost predicate Counts(w: World, w': World, j: nat, requests: int, open: bool) {
    Outstanding(w', j) == Outstanding(w, j) + requests && OpenAfter(Told(w'), j) == open
  }

  lemma InboundCounts(w: World, i: nat, j: nat)
    requires w.handler.Has(i)
    ensures Counts(w, Step(w, Inbound(i)), j, 0, OpenAfter(Told(w), j))
  {
    var w' := Step(w, Inbound(i));
    if w.handler.At(i).StClosed? {
      NotifyPushed(w, w', DesiredByRemote(i), j);
    }
  }

  lemma InboundProtocol(h: Handler, i: nat, j: nat, n: int, open: bool)
    requires h.Has(i) && h.Has(j) && ProtocolOk(h.protocols[j], n, open)
    ensures ProtocolOk(OnInbound(h, i, FRESH).protocols[j], n, open)
  {
  }

  lemma NegotiatedCounts(w: World, i: nat, received: Bytes, j: nat)
    requires Enabled(w, Negotiated(i, received))
    ensures Counts(w, Step(w, Negotiated(i, received)), j, if i == j then -1 else 0,
                   (i == j && w.handler.At(i).StOpening?) || OpenAfter(Told(w), j))
  {
    var w' := Step(w, Negotiated(i, received));
    var answered := w.(inflight := w.inflight[i := w.inflight[i] - 1]);
    if w.handler.At(i).StOpening? {
      NotifyPushed(answered, w', HandshakeCompleted(i, received, w.handler.At(i).isInbound), j);
    }
  }

  lemma NegotiatedProtocol(h: Handler, i: nat, received: Bytes, j: nat, n: int, open: bool)
    requires h.Has(i) && h.Has(j) && ProtocolOk(h.protocols[j], n, open) && (i == j ==> n > 0)
    ensures ProtocolOk(OnOutbound(h, i, received).protocols[j], n - (if i == j then 1 else 0),
                       (i == j && h.At(i).StOpening?) || open)
  {
  }

  lemma DialFailedCounts(w: World, i: nat, j: nat)
    requires Enabled(w, DialFailed(i))
    ensures Counts(w, Step(w, DialFailed(i)), j, if i == j then -1 else 0, OpenAfter(Told(w), j))
  {
    var w' := Step(w, DialFailed(i));
    var answered := w.(inflight := w.inflight[i := w.inflight[i] - 1]);
    if w.handler.At(i).StOpening? {
      NotifyPushed(answered, w', HandshakeError(i), j);
    }
  }

  lemma DialFailedProtocol(h: Handler, i: nat, j: nat, n: int, open: bool)
    requires h.Has(i) && h.Has(j) && ProtocolOk(h.protocols[j], n, open) && (i == j ==> n > 0)
    ensures ProtocolOk(OnDialError(h, i).protocols[j], n - (if i == j then 1 else 0), open)
  {
  }

  /** How many requests an `Open` message issues for `j`. */
  function Issued(h: Handler, i: nat, j: nat): int
    requires h.Has(i)
  {
    if i == j && (h.At(i).StClosed? || h.At(i).StDesired?) then 1 - Expected(h.At(i)) else 0
  }

  lemma OpenCounts(w: World, i: nat, j: nat)
    requires w.handler.Has(i)
    ensures Counts(w, Step(w, Message(Open(i))), j, Issued(w.handler, i, j), OpenAfter(Told(w), j))
  {
    var w' := Step(w, Message(Open(i)));
    var st := w.handler.At(i);
    if (st.StClosed? || st.StDesired?) && !st.pendingOpening {
      RequestPushed(w, w', i, j);
    }
  }

  lemma OpenProtocol(h: Handler, i: nat, j: nat, n: int, open: bool)
    requires h.Has(i) && h.Has(j) && ProtocolOk(h.protocols[j], n, open)
    ensures ProtocolOk(OnOpen(h, i).protocols[j], n + Issued(h, i, j), open)
  {
  }

  /** What closing tells the behaviour: a refusal if an opening was under way, then the close. */
  lemma CloseTells(w: World, i: nat)
    requires w.handler.Has(i)
    ensures Told(Step(w, Message(Close(i)))) ==
            if w.handler.At(i).StOpening? then Told(w) + [HandshakeError(i)] + [Closed(i)] else Told(w) + [Closed(i)]
  {
    var q := w.handler.pending;
    if w.handler.At(i).StOpening? {
      ExtendPush(w.emitted, q, NotifyBehaviour(HandshakeError(i)));
      q := q + [NotifyBehaviour(HandshakeError(i))];
    }
    ExtendPush(w.emitted, q, NotifyBehaviour(Closed(i)));
  }

  lemma CloseCounts(w: World, i: nat, j: nat)
    requires w.handler.Has(i)
    ensures Counts(w, Step(w, Message(Close(i))), j, 0, j != i && OpenAfter(Told(w), j))
  {
    var w' := Step(w, Message(Close(i)));
    if w.handler.At(i).StOpening? {
      var refused := w.(handler := w.handler.Notify(HandshakeError(i)));
      NotifyPushed(w, refused, HandshakeError(i), j);
      NotifyPushed(refused, w', Closed(i), j);
    } else {
      NotifyPushed(w, w', Closed(i), j);
    }
  }

  lemma CloseProtocol(h: Handler, i: nat, j: nat, n: int, open: bool)
    requires h.Has(i) && h.Has(j) && ProtocolOk(h.protocols[j], n, open)
    ensures ProtocolOk(OnClose(h, i).protocols[j], n, j != i && open)
  {
  }

  lemma SubmitConserves(recv: Receiver, bytes: Bytes)
    requires Conserved(recv)
    ensures Conserved(recv.Submit(bytes)) && recv.Submit(bytes).taken == recv.taken
  {
    assert recv.Submit(bytes).Content() == recv.Content() + [bytes];
  }

  lemma UserMessageInv(w: World, i: nat, bytes: Bytes, j: nat)
    requires Enabled(w, UserMessage(i, bytes)) && w.handler.Has(j) && ProtocolInv(w, j)
    ensures ProtocolInv(Step(w, UserMessage(i, bytes)), j)
  {
    if i == j { SubmitConserves(w.handler.At(i).recv, bytes); }
  }

  /** `poll` hands out the oldest queued event. */
  lemma PopInv(w: World, env: PollEnv)
    requires Inv(w) && w.handler.pending != []
    ensures Inv(Step(w, PollHandler(env)))
  {
    var w' := Step(w, PollHandler(env));
    forall i: nat | w'.handler.Has(i)
      ensures ProtocolInv(w', i)
    {
      assert ProtocolInv(w, i);
      PopProtocol(w, env, i);
    }
    forall k | 0 <= k < |w'.emitted| && w'.emitted[k].Notification?
      ensures OpenAfter(w'.emitted[..k], w'.emitted[k].index)
    {
      assert k < |w.emitted| && w'.emitted[..k] == w.emitted[..k];
    }
  }

  lemma PopTold(w: World, env: PollEnv)
    requires w.handler.pending != []
    ensures Told(Step(w, PollHandler(env))) == Told(w)
  {
    ExtendPop(w.emitted, w.handler.pending);
  }

  lemma PopProtocol(w: World, env: PollEnv, i: nat)
    requires w.handler.pending != [] && w.handler.Has(i) && ProtocolInv(w, i)
    ensures ProtocolInv(Step(w, PollHandler(env)), i)
  {
    var w' := Step(w, PollHandler(env));
    PopTold(w, env);
    RequestsPop(w.handler.pending, i);
    assert Outstanding(w', i) == Outstanding(w, i);
  }

  /** A handler in a state that keeps the invariant can be polled in good order. */
  lemma InvOk(w: World)
    requires Inv(w)
    ensures AllOk(w.handler)
  {
    forall i: nat | w.handler.Has(i)
      ensures StateOk(w.handler.At(i), w.handler.protocols[i].handshake)
    {
      assert ProtocolInv(w, i);
    }
  }

  /** What polling tells the behaviour when nothing was queued. */
  lemma QuietTells(w: World, env: PollEnv)
    requires AllOk(w.handler) && w.handler.pending == []
    ensures var w', event := Step(w, PollHandler(env)), Poll(w.handler, env).1;
            && w'.handler == Poll(w.handler, env).0 && w'.inflight == w.inflight
            && FromOpen(w.handler, event) && SameShape(w.handler, w'.handler) && AllOk(w'.handler)
            && w'.emitted == (if event.Some? then w.emitted + [event.value.event] else w.emitted)
            && Told(w) == w.emitted && Told(w') == w'.emitted
  {
    PollOk(w.handler, env);
  }

  lemma QuietProtocol(w: World, env: PollEnv, i: nat)
    requires AllOk(w.handler) && w.handler.pending == [] && w.handler.Has(i) && ProtocolInv(w, i)
    ensures Step(w, PollHandler(env)).handler.Has(i) && ProtocolInv(Step(w, PollHandler(env)), i)
  {
    QuietTells(w, env);
    var w', event := Step(w, PollHandler(env)), Poll(w.handler, env).1;
    assert Polled(w.handler.At(i), w'.handler.At(i));
    if event.Some? {
      OpenAfterPush(w.emitted, event.value.event, i);
    }
    assert OpenAfter(Told(w'), i) == OpenAfter(Told(w), i);
  }

  /** With nothing queued, `poll` may emit a notification or a wish to close of its own. */
  lemma QuietPollInv(w: World, env: PollEnv)
    requires Inv(w) && w.handler.pending == []
    ensures Inv(Step(w, PollHandler(env)))
  {
    InvOk(w);
    QuietTells(w, env);
    var w', event := Step(w, PollHandler(env)), Poll(w.handler, env).1;
    if event.Some? {
      var e := event.value.event;
      assert ProtocolInv(w, e.index);
      NotifiedPush(w.emitted, e);
    }
    forall i: nat | w'.handler.Has(i)
      ensures ProtocolInv(w', i)
    {
      assert ProtocolInv(w, i);
      QuietProtocol(w, env, i);
    }
  }

  lemma NotifiedPush(es: seq<ToBehaviour>, e: ToBehaviour)
    requires NotifiedWhileOpen(es) && (e.Notification? ==> OpenAfter(es, e.index))
    ensures NotifiedWhileOpen(es + [e])
  {
    var es' := es + [e];
    forall k | 0 <= k < |es'| && es'[k].Notification?
      ensures OpenAfter(es'[..k], es'[k].index)
    {
      assert es'[..k] == es[..k];
      assert k == |es| ==> es[..k] == es;
    }
  }

  /** Connection events. */
  lemma ConnectionProtocol(w: World, a: Action, j: nat)
    requires Enabled(w, a) && (a.Inbound? || a.Negotiated? || a.DialFailed?) && w.handler.Has(j) && ProtocolInv(w, j)
    ensures Step(w, a).handler.Has(j) && ProtocolInv(Step(w, a), j)
  {
    var h, n, open := w.handler, Outstanding(w, j), OpenAfter(Told(w), j);
    match a {
      case Inbound(i) =>
        InboundCounts(w, i, j);
        InboundProtocol(h, i, j, n, open);
      case Negotiated(i, received) =>
        NegotiatedCounts(w, i, received, j);
        NegotiatedProtocol(h, i, received, j, n, open);
      case DialFailed(i) =>
        DialFailedCounts(w, i, j);
        DialFailedProtocol(h, i, j, n, open);
    }
  }

  /** Messages from the behaviour. */
  lemma MessageProtocol(w: World, m: FromBehaviour, j: nat)
    requires w.handler.Has(m.index) && w.handler.Has(j) && ProtocolInv(w, j)
    ensures Step(w, Message(m)).handler.Has(j) && ProtocolInv(Step(w, Message(m)), j)
  {
    var h, n, open := w.handler, Outstanding(w, j), OpenAfter(Told(w), j);
    match m {
      case Open(i) =>
        OpenCounts(w, i, j);
        OpenProtocol(h, i, j, n, open);
      case Close(i) =>
        CloseCounts(w, i, j);
        CloseProtocol(h, i, j, n, open);
    }
  }

  lemma StepProtocol(w: World, a: Action, j: nat)
    requires Enabled(w, a) && !a.PollHandler? && w.handler.Has(j) && ProtocolInv(w, j)
    ensures Step(w, a).handler.Has(j) && ProtocolInv(Step(w, a), j)
  {
    match a {
      case Message(m) => MessageProtocol(w, m, j);
      case UserMessage(i, bytes) => UserMessageInv(w, i, bytes, j);
      case _ => ConnectionProtocol(w, a, j);
    }
  }

  /** The events a step other than a poll queues. */
  lemma StepQueues(w: World, a: Action)
    requires Enabled(w, a) && !a.PollHandler?
    ensures |Step(w, a).handler.protocols| == |w.handler.protocols| && Step(w, a).emitted == w.emitted
    ensures exists es: seq<HandlerEvent> :: Step(w, a).handler.pending == w.handler.pending + es
                                         && Queueable(es, |w.handler.protocols|)
  {
    var q, q' := w.handler.pending, Step(w, a).handler.pending;
    var es := q'[|q|..];
    assert q' == q + es;
  }

  lemma StepQueue(w: World, a: Action)
    requires Queueable(w.handler.pending, |w.handler.protocols|) && Enabled(w, a) && !a.PollHandler?
    ensures var h := Step(w, a).handler;
            |h.protocols| == |w.handler.protocols| && Queueable(h.pending, |h.protocols|)
    ensures Step(w, a).emitted == w.emitted
  {
    StepQueues(w, a);
  }

  /** Every step of every component keeps the invariant. */
  lemma StepInv(w: World, a: Action)
    requires Inv(w) && Enabled(w, a)
    ensures Inv(Step(w, a))
  {
    if a.PollHandler? {
      if w.handler.pending == [] { QuietPollInv(w, a.env); } else { PopInv(w, a.env); }
    } else {
      StepQueue(w, a);
      forall j: nat | w.handler.Has(j)
        ensures Step(w, a).handler.Has(j) && ProtocolInv(Step(w, a), j)
      {
        assert ProtocolInv(w, j);
        StepProtocol(w, a, j);
      }
    }
  }

  lemma {:induction false} RunInv(ws: seq<World>, acts: seq<Action>, k: nat)
    requires Run(ws, acts) && k < |ws|
    ensures Inv(ws[k])
  {
    if k == 0 {
      var b, r :| ws[0] == Start(b, r);
      StartInv(b, r);
    } else {
      RunInv(ws, acts, k - 1);
      assert StepTo(ws[k - 1], acts[k - 1], ws[k - 1 + 1]);
      StepInv(ws[k - 1], acts[k - 1]);
    }
  }

  // ---------------------------------------------------------------------------
  // Theorems about every run
  // ---------------------------------------------------------------------------

  /** No protocol ever has two unanswered outbound requests, and its state tells whether it has one. */
  lemma OutstandingRequests(ws: seq<World>, acts: seq<Action>, k: nat, i: nat)
    requires Run(ws, acts) && k < |ws| && ws[k].handler.Has(i)
    ensures Outstanding(ws[k], i) <= 1
    ensures ws[k].handler.At(i).StOpening? ==> Outstanding(ws[k], i) == 1
    ensures ws[k].handler.At(i).StOpen? ==> Outstanding(ws[k], i) == 0
    ensures ws[k].handler.At(i).StClosed? || ws[k].handler.At(i).StDesired? ==>
              (Outstanding(ws[k], i) == 1 <==> ws[k].handler.At(i).pendingOpening)
  {
    RunInv(ws, acts, k);
    assert ProtocolInv(ws[k], i);
  }

  /**
   A connection that is not kept alive has no substream, and of its protocols exactly those with
   `pendingOpening` still wait for the answer to an outbound request.
   */
  lemma NotKeptAlive(ws: seq<World>, acts: seq<Action>, k: nat, i: nat)
    requires Run(ws, acts) && k < |ws| && ws[k].handler.Has(i) && !KeepAlive(ws[k].handler)
    ensures ws[k].handler.At(i).StClosed? && HeldSub(ws[k].handler.At(i)).None?
    ensures Outstanding(ws[k], i) == if ws[k].handler.At(i).pendingOpening then 1 else 0
  {
    assert ws[k].handler.protocols[i].state.StClosed?;
    RunInv(ws, acts, k);
    assert ProtocolInv(ws[k], i);
  }

  /**
   Of the handler alone: a `Close` that meets an opening would leave a request unanswered on a
   connection that is not kept alive. Module `Closing` shows that the behaviour never sends one.
   */
  lemma AbandonedRequest(b: Bytes, r: Bytes) returns (ws: seq<World>, acts: seq<Action>)
    ensures Run(ws, acts) && |ws| == 3
    ensures !KeepAlive(ws[2].handler) && Outstanding(ws[2], 0) == 1
  {
    var w := Start(b, r);
    var w1 := Step(w, Message(Open(0)));
    var w2 := Step(w1, Message(Close(0)));
    ws, acts := [w, w1, w2], [Message(Open(0)), Message(Close(0))];
    assert w2.handler.protocols[0].state == StClosed(true) && w2.handler.protocols[1].state == StClosed(false);
    NotKeptAlive(ws, acts, 2, 0);
  }

  /** Neither a negotiated outbound substream nor a dial error ever meets an open protocol. */
  lemma AnswersNeverMeetOpen(ws: seq<World>, acts: seq<Action>, k: nat)
    requires Run(ws, acts) && k < |acts| && (acts[k].Negotiated? || acts[k].DialFailed?)
    ensures !ws[k].handler.At(acts[k].index).StOpen?
  {
    assert StepTo(ws[k], acts[k], ws[k + 1]);
    OutstandingRequests(ws, acts, k, acts[k].index);
  }

  /** Which phase a held substream can be in, state by state; and its handshake goes first, once. */
  lemma HeldPhases(ws: seq<World>, acts: seq<Action>, k: nat, i: nat)
    requires Run(ws, acts) && k < |ws| && ws[k].handler.Has(i) && HeldSub(ws[k].handler.At(i)).Some?
    ensures var st, s := ws[k].handler.At(i), HeldSub(ws[k].handler.At(i)).value;
            && (st.StDesired? ==> s.phase.Waiting?)
            && (st.StOpening? ==> s.phase.Sending? || s.phase.Flush? || s.phase.Done?)
            && (st.StOpen? ==> !s.phase.Waiting? && !s.phase.FullyClosed?)
            && (forall j :: 0 <= j < |s.log| && s.log[j].SendStarted? ==>
                  j == 0 && s.log[j].sent == ws[k].handler.protocols[i].handshake)
            && (forall j :: 0 <= j < |s.log| && s.log[j].FrameIn? ==>
                  j >= 2 && s.log[0].SendStarted? && s.log[1].FlushDone?)
  {
    RunInv(ws, acts, k);
    assert ProtocolInv(ws[k], i);
  }

  /** A wish to close only ever comes from an open protocol: polling one desired by the remote cannot fail. */
  lemma CloseDesiredOnlyWhenOpen(ws: seq<World>, acts: seq<Action>, k: nat, env: PollEnv, i: nat)
    requires Run(ws, acts) && k < |ws|
    requires Poll(ws[k].handler, env).1 == Some(NotifyBehaviour(CloseDesired(i)))
    ensures ws[k].handler.Has(i) && ws[k].handler.At(i).StOpen?
  {
    RunInv(ws, acts, k);
    var h := ws[k].handler;
    forall j: nat | h.Has(j)
      ensures StateOk(h.At(j), h.protocols[j].handshake)
    {
      assert ProtocolInv(ws[k], j);
    }
    if h.pending == [] {
      PollOk(h, env);
    }
  }

  /** Open is exactly "the last completion or close the behaviour was told of is a completion". */
  lemma OpenIffCompleted(ws: seq<World>, acts: seq<Action>, k: nat, i: nat)
    requires Run(ws, acts) && k < |ws| && ws[k].handler.Has(i)
    ensures ws[k].handler.At(i).StOpen? <==> OpenAfter(Told(ws[k]), i)
  {
    RunInv(ws, acts, k);
    assert ProtocolInv(ws[k], i);
  }

  /** `OpenAfter` spelled out: some completion, and no close after it. */
  lemma {:induction false} OpenAfterMeans(es: seq<ToBehaviour>, i: nat)
    ensures OpenAfter(es, i) <==>
            exists m :: 0 <= m < |es| && es[m].HandshakeCompleted? && es[m].index == i
                        && forall j :: m < j < |es| ==> !(es[j].Closed? && es[j].index == i)
  {
    if es != [] {
      var n := |es| - 1;
      var front := es[..n];
      OpenAfterMeans(front, i);
      if OpenAfter(es, i) {
        if es[n].HandshakeCompleted? && es[n].index == i {
        } else {
          var m :| 0 <= m < n && front[m].HandshakeCompleted? && front[m].index == i
                   && forall j :: m < j < n ==> !(front[j].Closed? && front[j].index == i);
          assert es[m] == front[m];
          assert forall j :: m < j < |es| ==> j < n ==> es[j] == front[j];
        }
      }
    }
  }

  /** Every notification handed to the behaviour follows a completion, with no close in between. */
  lemma NotificationsWithinOpen(ws: seq<World>, acts: seq<Action>, k: nat, p: nat)
    requires Run(ws, acts) && k < |ws| && p < |ws[k].emitted| && ws[k].emitted[p].Notification?
    ensures var es, i := ws[k].emitted, ws[k].emitted[p].index;
            exists m :: 0 <= m < p && es[m].HandshakeCompleted? && es[m].index == i
                        && forall j :: m < j < p ==> !(es[j].Closed? && es[j].index == i)
  {
    RunInv(ws, acts, k);
    var es, i := ws[k].emitted, ws[k].emitted[p].index;
    OpenAfterMeans(es[..p], i);
    var m :| 0 <= m < p && es[..p][m].HandshakeCompleted? && es[..p][m].index == i
             && forall j :: m < j < p ==> !(es[..p][j].Closed? && es[..p][j].index == i);
    assert es[m] == es[..p][m];
    assert forall j :: m < j < p ==> es[j] == es[..p][j];
  }

  /** The user's messages: handed to the sink in order, only when it was ready, the rest still in the channel. */
  lemma MessagesConserved(ws: seq<World>, acts: seq<Action>, k: nat, i: nat)
    requires Run(ws, acts) && k < |ws| && ws[k].handler.Has(i) && ws[k].handler.At(i).StOpen?
    ensures var st := ws[k].handler.At(i);
            && st.recv.taken + st.recv.Content() == st.recv.submitted
            && (st.outbound.Some? ==>
                  Handed(st.outbound.value.ops) == st.recv.taken && SendsWhenReady(st.outbound.value.ops))
  {
    RunInv(ws, acts, k);
    assert ProtocolInv(ws[k], i);
  }

  // ---------------------------------------------------------------------------
  // What a single step does to one protocol
  // ---------------------------------------------------------------------------

  /** A polled handler in any reachable state: every protocol moves as `Polled` says. */
  lemma PollMoves(w: World, env: PollEnv, i: nat)
    requires Inv(w) && w.handler.Has(i)
    ensures Polled(w.handler.At(i), Step(w, PollHandler(env)).handler.At(i))
  {
    if w.handler.pending == [] {
      InvOk(w);
      QuietTells(w, env);
    }
  }

  /** A substream held before and after a step moved forward, whatever the step. */
  lemma StepForward(w: World, a: Action, i: nat)
    requires Inv(w) && Enabled(w, a) && w.handler.Has(i)
    ensures var st, st' := w.handler.At(i), Step(w, a).handler.At(i);
            HeldSub(st).Some? && HeldSub(st').Some? ==> Forward(HeldSub(st).value, HeldSub(st').value)
  {
    if a.PollHandler? {
      PollMoves(w, a.env, i);
    }
  }

  lemma RunForward(ws: seq<World>, acts: seq<Action>, k: nat, i: nat)
    requires Run(ws, acts) && k < |acts| && ws[k].handler.Has(i) && ws[k + 1].handler.Has(i)
    ensures var st, st' := ws[k].handler.At(i), ws[k + 1].handler.At(i);
            HeldSub(st).Some? && HeldSub(st').Some? ==> Forward(HeldSub(st).value, HeldSub(st').value)
  {
    RunInv(ws, acts, k);
    assert StepTo(ws[k], acts[k], ws[k + 1]);
    StepForward(ws[k], acts[k], i);
  }

  /** As long as the handler holds it, a substream never goes back. */
  lemma {:induction false} HeldForward(ws: seq<World>, acts: seq<Action>, j: nat, k: nat, i: nat)
    requires Run(ws, acts) && j <= k < |ws|
    requires forall m :: j <= m <= k ==> ws[m].handler.Has(i) && HeldSub(ws[m].handler.At(i)).Some?
    ensures Forward(HeldSub(ws[j].handler.At(i)).value, HeldSub(ws[k].handler.At(i)).value)
    decreases k
  {
    if j < k {
      HeldForward(ws, acts, j, k - 1, i);
      RunForward(ws, acts, k - 1, i);
    }
  }

  lemma StepWithoutSink(w: World, a: Action, i: nat)
    requires Inv(w) && Enabled(w, a) && w.handler.Has(i) && w.handler.At(i).StOpen? && w.handler.At(i).outbound.None?
    ensures var st, st' := w.handler.At(i), Step(w, a).handler.At(i);
            st'.StOpen? ==> st'.outbound.None? && st'.recv.taken == st.recv.taken
  {
    if a.PollHandler? {
      PollMoves(w, a.env, i);
    }
  }

  lemma RunWithoutSink(ws: seq<World>, acts: seq<Action>, k: nat, i: nat)
    requires Run(ws, acts) && k < |acts| && ws[k].handler.Has(i) && ws[k + 1].handler.Has(i)
    requires ws[k].handler.At(i).StOpen? && ws[k].handler.At(i).outbound.None? && ws[k + 1].handler.At(i).StOpen?
    ensures ws[k + 1].handler.At(i).outbound.None?
    ensures ws[k + 1].handler.At(i).recv.taken == ws[k].handler.At(i).recv.taken
  {
    RunInv(ws, acts, k);
    assert StepTo(ws[k], acts[k], ws[k + 1]);
    StepWithoutSink(ws[k], acts[k], i);
  }

  /** Once the outbound substream of an open protocol was dropped, no message is taken as long as it stays open. */
  lemma {:induction false} NothingTakenWithoutSink(ws: seq<World>, acts: seq<Action>, j: nat, k: nat, i: nat)
    requires Run(ws, acts) && j <= k < |ws|
    requires forall m :: j <= m <= k ==> ws[m].handler.Has(i) && ws[m].handler.At(i).StOpen?
    requires ws[j].handler.At(i).outbound.None?
    ensures ws[k].handler.At(i).outbound.None?
    ensures ws[k].handler.At(i).recv.taken == ws[j].handler.At(i).recv.taken
    decreases k
  {
    if j < k {
      NothingTakenWithoutSink(ws, acts, j, k - 1, i);
      RunWithoutSink(ws, acts, k - 1, i);
    }
  }

  // ---------------------------------------------------------------------------
  // Every opening is answered once
  // ---------------------------------------------------------------------------

  /** Completions and refusals of `i` the behaviour is told of. */
  function Answers(es: seq<ToBehaviour>, i: nat): nat {
    if es == [] then 0
    else
      var e := es[|es| - 1];
      Answers(es[..|es| - 1], i) + (if (e.HandshakeCompleted? || e.HandshakeError?) && e.index == i then 1 else 0)
  }

  ghost predicate Opening(w: World, i: nat) {
    w.handler.Has(i) && w.handler.At(i).StOpening?
  }

  /** How often protocol `i` entered `Opening` along the states `ws`. */
  ghost function Entries(ws: seq<World>, i: nat): nat {
    if |ws| < 2 then 0
    else Entries(ws[..|ws| - 1], i) + (if !Opening(ws[|ws| - 2], i) && Opening(ws[|ws| - 1], i) then 1 else 0)
  }

  lemma AnswersPush(es: seq<ToBehaviour>, e: ToBehaviour, i: nat)
    ensures Answers(es + [e], i) ==
            Answers(es, i) + (if (e.HandshakeCompleted? || e.HandshakeError?) && e.index == i then 1 else 0)
  {
    assert (es + [e])[..|es|] == es;
  }

  /** The number of answers grows by one exactly when the step leaves `Opening`. */
  ghost predicate AnswersLeaving(w: World, w': World, i: nat) {
    Answers(Told(w'), i) == Answers(Told(w), i) + (if Opening(w, i) && !Opening(w', i) then 1 else 0)
  }

  lemma PollAnswers(w: World, env: PollEnv, i: nat)
    requires Inv(w) && w.handler.Has(i)
    ensures AnswersLeaving(w, Step(w, PollHandler(env)), i)
  {
    var w' := Step(w, PollHandler(env));
    PollMoves(w, env, i);
    if w.handler.pending != [] {
      PopTold(w, env);
    } else {
      InvOk(w);
      QuietTells(w, env);
      var event := Poll(w.handler, env).1;
      if event.Some? {
        AnswersPush(w.emitted, event.value.event, i);
      }
    }
  }

  lemma InboundAnswers(w: World, j: nat, i: nat)
    requires w.handler.Has(j) && w.handler.Has(i)
    ensures AnswersLeaving(w, Step(w, Inbound(j)), i)
  {
    if w.handler.At(j).StClosed? {
      NotifyPushed(w, Step(w, Inbound(j)), DesiredByRemote(j), j);
      AnswersPush(Told(w), DesiredByRemote(j), i);
    }
  }

  lemma NegotiatedAnswers(w: World, j: nat, received: Bytes, i: nat)
    requires Enabled(w, Negotiated(j, received)) && w.handler.Has(i)
    ensures AnswersLeaving(w, Step(w, Negotiated(j, received)), i)
  {
    if w.handler.At(j).StOpening? {
      var w' := Step(w, Negotiated(j, received));
      var e := HandshakeCompleted(j, received, w.handler.At(j).isInbound);
      NotifyPushed(w.(inflight := w'.inflight), w', e, j);
      AnswersPush(Told(w), e, i);
    }
  }

  lemma DialFailedAnswers(w: World, j: nat, i: nat)
    requires Enabled(w, DialFailed(j)) && w.handler.Has(i)
    ensures AnswersLeaving(w, Step(w, DialFailed(j)), i)
  {
    if w.handler.At(j).StOpening? {
      var w' := Step(w, DialFailed(j));
      NotifyPushed(w.(inflight := w'.inflight), w', HandshakeError(j), j);
      AnswersPush(Told(w), HandshakeError(j), i);
    }
  }

  lemma OpenAnswers(w: World, j: nat, i: nat)
    requires w.handler.Has(j) && w.handler.Has(i)
    ensures AnswersLeaving(w, Step(w, Message(Open(j))), i)
  {
    var st := w.handler.At(j);
    if (st.StClosed? || st.StDesired?) && !st.pendingOpening {
      RequestPushed(w, Step(w, Message(Open(j))), j, i);
    }
  }

  lemma CloseLeaves(h: Handler, j: nat, i: nat)
    requires h.Has(j) && h.Has(i)
    ensures OnClose(h, j).Has(i) && OnClose(h, j).At(i).StOpening? == (h.At(i).StOpening? && i != j)
  {
  }

  lemma CloseAnswers(w: World, j: nat, i: nat)
    requires w.handler.Has(j) && w.handler.Has(i)
    ensures AnswersLeaving(w, Step(w, Message(Close(j))), i)
  {
    var told, w' := Told(w), Step(w, Message(Close(j)));
    var told' := Told(w');
    CloseTells(w, j);
    ClosePushes(told, j, w.handler.At(j).StOpening?, i);
    CloseLeaves(w.handler, j, i);
    assert Answers(told', i) == Answers(told, i) + (if w.handler.At(j).StOpening? && i == j then 1 else 0);
  }

  lemma ClosePushes(es: seq<ToBehaviour>, j: nat, opening: bool, i: nat)
    ensures Answers(if opening then es + [HandshakeError(j)] + [Closed(j)] else es + [Closed(j)], i)
         == Answers(es, i) + (if opening && i == j then 1 else 0)
  {
    if opening {
      AnswersPush(es, HandshakeError(j), i);
      AnswersPush(es + [HandshakeError(j)], Closed(j), i);
    } else {
      AnswersPush(es, Closed(j), i);
    }
  }

  lemma StepAnswers(w: World, a: Action, i: nat)
    requires Inv(w) && Enabled(w, a) && w.handler.Has(i)
    ensures AnswersLeaving(w, Step(w, a), i)
  {
    match a {
      case PollHandler(env) => PollAnswers(w, env, i);
      case Inbound(j) => InboundAnswers(w, j, i);
      case Negotiated(j, received) => NegotiatedAnswers(w, j, received, i);
      case DialFailed(j) => DialFailedAnswers(w, j, i);
      case Message(Open(j)) => OpenAnswers(w, j, i);
      case Message(Close(j)) => CloseAnswers(w, j, i);
      case UserMessage(_, _) =>
    }
  }

  lemma {:induction false} RunAnswers(ws: seq<World>, acts: seq<Action>, k: nat, i: nat)
    requires Run(ws, acts) && k < |acts| && ws[k].handler.Has(i)
    ensures AnswersLeaving(ws[k], ws[k + 1], i) && ws[k + 1].handler.Has(i)
  {
    RunInv(ws, acts, k);
    assert StepTo(ws[k], acts[k], ws[k + 1]);
    StepAnswers(ws[k], acts[k], i);
  }

  /** Entries into `Opening` = completions + refusals + 1 while still opening. */
  lemma {:induction false} OpeningsAnsweredOnce(ws: seq<World>, acts: seq<Action>, k: nat, i: nat)
    requires Run(ws, acts) && k < |ws| && i < 2
    ensures ws[k].handler.Has(i)
    ensures Entries(ws[..k + 1], i) == Answers(Told(ws[k]), i) + (if Opening(ws[k], i) then 1 else 0)
  {
    if k > 0 {
      OpeningsAnsweredOnce(ws, acts, k - 1, i);
      RunAnswers(ws, acts, k - 1, i);
      assert ws[..k + 1][..k] == ws[..k];
    }
  }
}
