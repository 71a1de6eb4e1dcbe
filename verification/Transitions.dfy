/**
 The handler's life of a protocol as a table: which state an action leads to, what the behaviour
 is told, when a substream is taken and when it is lost, and that a poll gets on.
 */
module Transitions {
  import opened Wrappers
  import opened Substream
  import opened HandlerModel
  import opened HandlerRuns
  import opened HandlerFrames

  datatype Kind = IsClosed | IsDesired | IsOpening | IsOpen

  function KindOf<S>(st: State<S>): Kind {
    match st
    case StClosed(_) => IsClosed
    case StDesired(_, _) => IsDesired
    case StOpening(_, _) => IsOpening
    case StOpen(_, _, _) => IsOpen
  }

  /** The table: from a state, on an action, to a state. */
  function KindAfter(k: Kind, a: Action, i: nat): Kind {
    match a
    case Inbound(j) => if j == i && k.IsClosed? then IsDesired else k
    case Negotiated(j, _) => if j == i && k.IsOpening? then IsOpen else k
    case DialFailed(j) => if j == i && k.IsOpening? then IsClosed else k
    case Message(Open(j)) => if j == i && (k.IsClosed? || k.IsDesired?) then IsOpening else k
    case Message(Close(j)) => if j == i then IsClosed else k
    case _ => k
  }

  lemma {:induction false} StepKind(w: World, a: Action, i: nat)
    requires Inv(w) && Enabled(w, a) && w.handler.Has(i)
    ensures Step(w, a).handler.Has(i)
    ensures KindOf(Step(w, a).handler.At(i)) == KindAfter(KindOf(w.handler.At(i)), a, i)
  {
    if a.PollHandler? {
      PollMoves(w, a.env, i);
    }
  }

  /** What each action tells the behaviour, by the state it meets. */
  function TellsOf<S>(st: State<S>, a: Action): seq<ToBehaviour> {
    match a
    case Inbound(i) => if st.StClosed? then [DesiredByRemote(i)] else []
    case Negotiated(i, received) =>
      if st.StOpening? then [HandshakeCompleted(i, received, st.isInbound)] else []
    case DialFailed(i) => if st.StOpening? then [HandshakeError(i)] else []
    case Message(Close(i)) => if st.StOpening? then [HandshakeError(i), Closed(i)] else [Closed(i)]
    case _ => []
  }

  /** The protocol an action is about. */
  function Subject(a: Action): nat {
    match a
    case Inbound(i) => i
    case Negotiated(i, _) => i
    case DialFailed(i) => i
    case Message(m) => m.index
    case UserMessage(i, _) => i
    case PollHandler(_) => 0
  }

  lemma StepTells(w: World, a: Action)
    requires Enabled(w, a) && !a.PollHandler?
    ensures Told(Step(w, a)) == Told(w) + TellsOf(w.handler.At(Subject(a)), a)
  {
    var w', st := Step(w, a), w.handler.At(Subject(a));
    match a {
      case Inbound(i) =>
        if st.StClosed? { NotifyPushed(w, w', DesiredByRemote(i), i); }
      case Negotiated(i, received) =>
        if st.StOpening? {
          NotifyPushed(w.(inflight := w'.inflight), w', HandshakeCompleted(i, received, st.isInbound), i);
        }
      case DialFailed(i) =>
        if st.StOpening? { NotifyPushed(w.(inflight := w'.inflight), w', HandshakeError(i), i); }
      case Message(Open(i)) =>
        if (st.StClosed? || st.StDesired?) && !st.pendingOpening { RequestPushed(w, w', i, i); }
      case Message(Close(i)) => CloseTells(w, i);
      case UserMessage(_, _) =>
    }
  }

  /** What an opening remembers: the remote's substream if it began with one, and that it did. */
  lemma OpeningRemembers(w: World, i: nat)
    requires w.handler.Has(i)
    ensures var st, st' := w.handler.At(i), Step(w, Message(Open(i))).handler.At(i);
            && (st.StDesired? ==>
                  st' == StOpening(Some(WithHandshake(st.substream, w.handler.protocols[i].handshake)), true))
            && (st.StClosed? ==> st' == StOpening(None, false))
  {
  }

  /** As long as it stays an opening, that does not change. */
  lemma OpeningKeepsOrigin(w: World, a: Action, i: nat)
    requires Inv(w) && Enabled(w, a) && w.handler.Has(i) && w.handler.At(i).StOpening?
    ensures Step(w, a).handler.Has(i)
    ensures Step(w, a).handler.At(i).StOpening? ==>
              Step(w, a).handler.At(i).isInbound == w.handler.At(i).isInbound
  {
    if a.PollHandler? && w.handler.pending == [] {
      PollKeepsOrigin(w.handler, a.env, i);
    }
  }

  ghost predicate SameOrigin(st: State<Sub>, st': State<Sub>) {
    st.StOpening? && st'.StOpening? ==> st'.isInbound == st.isInbound
  }

  lemma {:induction false} FromKeepsOrigin(h: Handler, m: nat, env: PollEnv, i: nat)
    requires m <= |h.protocols| && h.Has(i)
    ensures SameOrigin(h.At(i), DrainFrom(h, m, env).At(i))
    ensures h.At(i).StOpening? ==> DrainFrom(h, m, env).At(i) == h.At(i)
    ensures h.At(i).StOpening? ==> FlushFrom(h, m, env).0.At(i) == h.At(i)
    ensures SameOrigin(h.At(i), InboundFrom(h, m, env).0.At(i))
    decreases |h.protocols| - m
  {
    if m < |h.protocols| {
      FromKeepsOrigin(h.With(m, DrainState(h.At(m), env.ready(m))), m + 1, env, i);
      FromKeepsOrigin(h.With(m, FlushState(h.At(m), env.flush(m)).0), m + 1, env, i);
      InboundStep(h, m, env, i);
    }
  }

  lemma {:induction false} InboundStep(h: Handler, m: nat, env: PollEnv, i: nat)
    requires m < |h.protocols| && h.Has(i)
    ensures SameOrigin(h.At(i), InboundFrom(h, m, env).0.At(i))
    decreases |h.protocols| - m, 0
  {
    var st := InboundState(h.At(m), env.inbound(m)).0;
    assert SameOrigin(h.At(i), h.With(m, st).At(i));
    if i == m {
      InboundBelow(h.With(m, st), m + 1, env, i);
    } else {
      FromKeepsOrigin(h.With(m, st), m + 1, env, i);
    }
  }

  lemma PollKeepsOrigin(h: Handler, env: PollEnv, i: nat)
    requires h.pending == [] && h.Has(i) && h.At(i).StOpening?
    ensures SameOrigin(h.At(i), Poll(h, env).0.At(i))
  {
    FromKeepsOrigin(h, 0, env, i);
    var h1 := DrainFrom(h, 0, env);
    FromKeepsOrigin(h1, 0, env, i);
    FromKeepsOrigin(FlushFrom(h1, 0, env).0, 0, env, i);
  }

  // ---------------------------------------------------------------------------
  // Handshakes
  // ---------------------------------------------------------------------------

  /** Requests carry the handshake of their protocol. */
  ghost predicate Dressed(h: Handler, handshakes: seq<Bytes>) {
    && |h.protocols| == |handshakes|
    && (forall i :: 0 <= i < |handshakes| ==> h.protocols[i].handshake == handshakes[i])
    && forall k :: 0 <= k < |h.pending| && h.pending[k].OutboundSubstreamRequest? ==>
         && h.pending[k].index < |handshakes|
         && h.pending[k].handshake == handshakes[h.pending[k].index]
  }

  lemma ConnectionDressed(w: World, a: Action, handshakes: seq<Bytes>)
    requires Enabled(w, a) && (a.Inbound? || a.Negotiated? || a.DialFailed? || a.UserMessage?)
    requires Dressed(w.handler, handshakes)
    ensures Dressed(Step(w, a).handler, handshakes)
  {
  }

  lemma MessageDressed(h: Handler, m: FromBehaviour, handshakes: seq<Bytes>)
    requires h.Has(m.index) && Dressed(h, handshakes)
    ensures Dressed(OnMessage(h, m), handshakes)
  {
  }

  lemma StepDressed(w: World, a: Action, handshakes: seq<Bytes>)
    requires Inv(w) && Enabled(w, a) && Dressed(w.handler, handshakes)
    ensures Dressed(Step(w, a).handler, handshakes)
  {
    match a {
      case PollHandler(env) =>
        if w.handler.pending == [] {
          InvOk(w);
          QuietTells(w, env);
        }
      case Message(m) => MessageDressed(w.handler, m, handshakes);
      case _ => ConnectionDressed(w, a, handshakes);
    }
  }

  /**
   In every run, the handshakes stay those the handler was made with, and each request for an outbound
   substream carries the one of its protocol.
   */
  lemma {:induction false} RequestsCarryHandshakes(ws: seq<World>, acts: seq<Action>, k: nat, b: Bytes, r: Bytes)
    requires Run(ws, acts) && k < |ws| && ws[0] == Start(b, r)
    ensures Dressed(ws[k].handler, [b, r])
    decreases k
  {
    if k > 0 {
      var j := k - 1;
      RequestsCarryHandshakes(ws, acts, j, b, r);
      RunInv(ws, acts, j);
      assert StepTo(ws[j], acts[j], ws[j + 1]);
      StepDressed(ws[j], acts[j], [b, r]);
    }
  }

  // ---------------------------------------------------------------------------
  // A poll gets on
  // ---------------------------------------------------------------------------

  /** The message loop goes on until the channel is empty or the sink says that it is not ready. */
  lemma {:induction false} DrainStops(recv: Receiver, sink: Sink, ready: nat -> PollUnit, k: nat)
    ensures var (recv', sink') := Drain(recv, sink, ready, k);
            recv'.Content() == [] || (sink'.ops != [] && sink'.ops[|sink'.ops| - 1] == PolledReady(Pending))
    decreases |recv.Content()|
  {
    PeekKeeps(recv);
    var (peeked, some) := recv.Peek();
    if some && !ready(k).Pending? {
      var (rest, message) := peeked.Take();
      DrainStops(rest, Sink(sink.ops + [PolledReady(ready(k)), StartSend(message.value)]), ready, k + 1);
    }
  }

  predicate HasSink<S>(st: State<S>) {
    st.StOpen? && st.outbound.Some?
  }

  /** A poll of this protocol would fail in the flush. */
  predicate FlushFails<S>(st: State<S>, answer: PollUnit) {
    HasSink(st) && answer.ReadyErr?
  }

  /** The sink was asked to flush, after everything that it would take was handed to it. */
  ghost predicate Flushed<S>(st: State<S>, answer: PollUnit) {
    && HasSink(st)
    && var ops := st.outbound.value.ops;
       && ops != [] && ops[|ops| - 1] == PolledFlush(answer)
       && (st.recv.Content() == [] || (|ops| > 1 && ops[|ops| - 2] == PolledReady(Pending)))
  }

  /** What the message loop leaves behind: an empty channel or a sink that is not ready. */
  ghost predicate Drained<S>(st: State<S>) {
    HasSink(st) ==>
      var ops := st.outbound.value.ops;
      st.recv.Content() == [] || (ops != [] && ops[|ops| - 1] == PolledReady(Pending))
  }

  lemma {:induction false} DrainFromDrains(h: Handler, m: nat, env: PollEnv, i: nat)
    requires m <= |h.protocols| && h.Has(i) && (i < m ==> Drained(h.At(i)))
    ensures Drained(DrainFrom(h, m, env).At(i))
    ensures HasSink(DrainFrom(h, m, env).At(i)) == HasSink(h.At(i))
    ensures HeldSub(DrainFrom(h, m, env).At(i)) == HeldSub(h.At(i))
    ensures DrainFrom(h, m, env).At(i).StOpen? == h.At(i).StOpen?
    decreases |h.protocols| - m
  {
    if m < |h.protocols| {
      if HasSink(h.At(m)) { DrainStops(h.At(m).recv, h.At(m).outbound.value, env.ready(m), 0); }
      DrainFromDrains(h.With(m, DrainState(h.At(m), env.ready(m))), m + 1, env, i);
    }
  }

  /** Without a failing flush, every sink from `m` on is flushed, and no event is made. */
  lemma {:induction false} FlushFromFlushes(h: Handler, m: nat, env: PollEnv, i: nat)
    requires m <= |h.protocols| && h.Has(i)
    requires forall j :: m <= j < |h.protocols| ==> !FlushFails(h.protocols[j].state, env.flush(j))
    requires i < m ==> HasSink(h.At(i)) ==> Flushed(h.At(i), env.flush(i))
    requires m <= i ==> Drained(h.At(i))
    ensures FlushFrom(h, m, env).1.None?
    ensures HasSink(h.At(i)) ==> Flushed(FlushFrom(h, m, env).0.At(i), env.flush(i))
    ensures HeldSub(FlushFrom(h, m, env).0.At(i)) == HeldSub(h.At(i))
    ensures FlushFrom(h, m, env).0.At(i).StOpen? == h.At(i).StOpen?
    decreases |h.protocols| - m
  {
    if m < |h.protocols| {
      assert !FlushFails(h.At(m), env.flush(m));
      var h1 := h.With(m, FlushState(h.At(m), env.flush(m)).0);
      FlushFromFlushes(h1, m + 1, env, i);
    }
  }

  /** The first failing flush severs its protocol and is reported as a wish to close. */
  lemma {:induction false} FlushFromFails(h: Handler, m: nat, env: PollEnv, i: nat)
    requires m <= i < |h.protocols| && FlushFails(h.At(i), env.flush(i))
    requires forall j :: m <= j < i ==> !FlushFails(h.protocols[j].state, env.flush(j))
    ensures FlushFrom(h, m, env).1 == Some(NotifyBehaviour(CloseDesired(i)))
    ensures FlushFrom(h, m, env).0.At(i).StOpen? && FlushFrom(h, m, env).0.At(i).outbound.None?
    decreases |h.protocols| - m
  {
    if m < i {
      assert !FlushFails(h.At(m), env.flush(m));
      FlushFromFails(h.With(m, FlushState(h.At(m), env.flush(m)).0), m + 1, env, i);
    }
  }

  lemma PollSevers(h: Handler, env: PollEnv, i: nat)
    requires h.pending == [] && h.Has(i) && FlushFails(h.At(i), env.flush(i))
    requires forall j :: 0 <= j < i ==> !FlushFails(h.protocols[j].state, env.flush(j))
    ensures Poll(h, env).1 == Some(NotifyBehaviour(CloseDesired(i)))
    ensures Poll(h, env).0.At(i).StOpen? && Poll(h, env).0.At(i).outbound.None?
  {
    var h1 := DrainFrom(h, 0, env);
    forall j: nat | j <= i
      ensures HasSink(h1.At(j)) == HasSink(h.At(j))
    {
      DrainFromDrains(h, 0, env, j);
    }
    forall j | 0 <= j < i
      ensures !FlushFails(h1.protocols[j].state, env.flush(j))
    {
      assert HasSink(h1.At(j)) == HasSink(h.At(j));
    }
    FlushFromFails(h1, 0, env, i);
  }

  /** Polling this protocol reads no frame. */
  predicate Silent(st: State<Sub>, env: nat -> Answer) {
    match st
    case StOpen(_, Some(sub), _) => !Next(sub, env, 0).1.StreamItem?
    case StDesired(sub, _) => !Process(sub, env, 0).1.ProcessError?
    case _ => true
  }

  lemma {:induction false} InboundFromReads(h: Handler, m: nat, env: PollEnv, i: nat, frame: Bytes)
    requires m <= i < |h.protocols|
    requires forall j :: m <= j < i ==> Silent(h.protocols[j].state, env.inbound(j))
    requires h.At(i).StOpen? && h.At(i).inbound.Some? && h.At(i).inbound.value.phase.Done?
    requires env.inbound(i)(0).next == NextFrame(frame)
    ensures InboundFrom(h, m, env).1 == Some(NotifyBehaviour(Notification(i, frame)))
    decreases |h.protocols| - m
  {
    if m < i {
      assert Silent(h.At(m), env.inbound(m));
      InboundFromReads(h.With(m, InboundState(h.At(m), env.inbound(m)).0), m + 1, env, i, frame);
    } else {
      ReadOutcomes(h.At(i).inbound.value, env.inbound(i));
    }
  }

  lemma SilentBySub(st: State<Sub>, st': State<Sub>, env: nat -> Answer)
    requires HeldSub(st') == HeldSub(st) && KindOf(st') == KindOf(st)
    ensures Silent(st', env) == Silent(st, env)
  {
  }

  /** Reading leaves the sinks as they are. */
  lemma {:induction false} InboundFromKeepsSink(h: Handler, m: nat, env: PollEnv, i: nat)
    requires m <= |h.protocols| && h.Has(i) && h.At(i).StOpen?
    ensures var st := InboundFrom(h, m, env).0.At(i);
            st.StOpen? && st.outbound == h.At(i).outbound && st.recv == h.At(i).recv
    decreases |h.protocols| - m
  {
    if m < |h.protocols| {
      InboundFromKeepsSink(h.With(m, InboundState(h.At(m), env.inbound(m)).0), m + 1, env, i);
    }
  }

  ghost predicate NoFlushFails(h: Handler, env: PollEnv) {
    forall j :: 0 <= j < |h.protocols| ==> !FlushFails(h.protocols[j].state, env.flush(j))
  }

  /** The state in which the substreams are read, when no flush fails. */
  lemma BeforeReading(w: World, env: PollEnv, i: nat)
    requires Inv(w) && w.handler.Has(i) && NoFlushFails(w.handler, env)
    ensures var (h, event) := FlushFrom(DrainFrom(w.handler, 0, env), 0, env);
            && event.None? && KindOf(h.At(i)) == KindOf(w.handler.At(i))
            && HeldSub(h.At(i)) == HeldSub(w.handler.At(i))
            && (HasSink(w.handler.At(i)) ==> Flushed(h.At(i), env.flush(i)))
  {
    var h := w.handler;
    InvOk(w);
    DrainFromOk(h, 0, env);
    var h1 := DrainFrom(h, 0, env);
    forall j | 0 <= j < |h1.protocols|
      ensures !FlushFails(h1.protocols[j].state, env.flush(j))
    {
      DrainFromDrains(h, 0, env, j);
      assert !FlushFails(h.protocols[j].state, env.flush(j));
    }
    DrainFromDrains(h, 0, env, i);
    FlushFromOk(h1, 0, env);
    FlushFromFlushes(h1, 0, env, i);
  }

  /** With nothing queued and no flush failing, a poll hands every sink all it would take and flushes it. */
  lemma PollFlushes(w: World, env: PollEnv, i: nat)
    requires Inv(w) && w.handler.pending == [] && w.handler.Has(i) && NoFlushFails(w.handler, env)
    ensures HasSink(w.handler.At(i)) ==> Flushed(Poll(w.handler, env).0.At(i), env.flush(i))
  {
    BeforeReading(w, env, i);
    if HasSink(w.handler.At(i)) {
      InboundFromKeepsSink(FlushFrom(DrainFrom(w.handler, 0, env), 0, env).0, 0, env, i);
    }
  }

  /** And the first protocol whose open substream has a frame to read gets it to the behaviour. */
  lemma PollReads(w: World, env: PollEnv, i: nat, frame: Bytes)
    requires Inv(w) && w.handler.pending == [] && w.handler.Has(i) && NoFlushFails(w.handler, env)
    requires w.handler.At(i).StOpen? && w.handler.At(i).inbound.Some? && w.handler.At(i).inbound.value.phase.Done?
    requires env.inbound(i)(0).next == NextFrame(frame)
    requires forall j :: 0 <= j < i ==> Silent(w.handler.protocols[j].state, env.inbound(j))
    ensures Poll(w.handler, env).1 == Some(NotifyBehaviour(Notification(i, frame)))
  {
    var h2 := FlushFrom(DrainFrom(w.handler, 0, env), 0, env).0;
    forall j | 0 <= j < i
      ensures Silent(h2.protocols[j].state, env.inbound(j))
    {
      BeforeReading(w, env, j);
      SilentBySub(w.handler.At(j), h2.At(j), env.inbound(j));
    }
    BeforeReading(w, env, i);
    InboundFromReads(h2, 0, env, i, frame);
  }
}
