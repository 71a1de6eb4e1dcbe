/**
 What the behaviour's messages can meet: over every run of behaviour and handlers together, a
 `Close` only ever reaches an open protocol whose outbound substream was dropped.
 */
module Closing {
  import opened Wrappers
  import opened Counting
  import opened Substream
  import opened HandlerModel
  import opened HandlerRuns
  import opened Behaviour
  import opened System

  // ---------------------------------------------------------------------------
  // One handler
  // ---------------------------------------------------------------------------

  /** Open, with the outbound substream dropped: the state in which a close is wanted. */
  predicate Severed(st: State<Sub>) {
    st.StOpen? && st.outbound.None?
  }

  /** A request of an abandoned opening is still unanswered. */
  predicate Pending(st: State<Sub>) {
    (st.StClosed? || st.StDesired?) && st.pendingOpening
  }

  lemma {:induction false} DrainKeepsSevered(h: Handler, i: nat, env: PollEnv, j: nat)
    requires i <= |h.protocols| && h.Has(j)
    ensures Severed(DrainFrom(h, i, env).At(j)) == Severed(h.At(j))
    decreases |h.protocols| - i
  {
    if i < |h.protocols| {
      DrainKeepsSevered(h.With(i, DrainState(h.At(i), env.ready(i))), i + 1, env, j);
    }
  }

  /** A flush severs a protocol exactly when it asks for the close of that protocol. */
  lemma {:induction false} FlushSevers(h: Handler, i: nat, env: PollEnv, j: nat)
    requires i <= |h.protocols| && h.Has(j)
    ensures var (h', event) := FlushFrom(h, i, env);
            && (event == Some(NotifyBehaviour(CloseDesired(j))) ==> Severed(h'.At(j)) && !Severed(h.At(j)))
            && (event != Some(NotifyBehaviour(CloseDesired(j))) ==> Severed(h'.At(j)) == Severed(h.At(j)))
    decreases |h.protocols| - i
  {
    if i < |h.protocols| {
      var (st, failed) := FlushState(h.At(i), env.flush(i));
      if !failed {
        FlushSevers(h.With(i, st), i + 1, env, j);
      }
    }
  }

  lemma {:induction false} InboundKeepsSevered(h: Handler, i: nat, env: PollEnv, j: nat)
    requires i <= |h.protocols| && h.Has(j)
    ensures Severed(InboundFrom(h, i, env).0.At(j)) == Severed(h.At(j))
    decreases |h.protocols| - i
  {
    if i < |h.protocols| {
      var (st, outcome) := InboundState(h.At(i), env.inbound(i));
      if outcome.Quiet? {
        InboundKeepsSevered(h.With(i, st), i + 1, env, j);
      }
    }
  }

  lemma PollSevers(h: Handler, env: PollEnv, j: nat)
    requires AllOk(h) && h.pending == [] && h.Has(j)
    ensures var (h', event) := Poll(h, env);
            && (event == Some(NotifyBehaviour(CloseDesired(j))) ==> Severed(h'.At(j)) && !Severed(h.At(j)))
            && (event != Some(NotifyBehaviour(CloseDesired(j))) ==> Severed(h'.At(j)) == Severed(h.At(j)))
  {
    DrainFromOk(h, 0, env);
    var h1 := DrainFrom(h, 0, env);
    DrainKeepsSevered(h, 0, env, j);
    FlushFromOk(h1, 0, env);
    FlushSevers(h1, 0, env, j);
    var (h2, event) := FlushFrom(h1, 0, env);
    if event.None? {
      InboundFromOk(h2, 0, env);
      InboundKeepsSevered(h2, 0, env, j);
    }
  }

  /** The step asks the behaviour to close protocol `j`. */
  ghost predicate Asks(w: World, w': World, j: nat) {
    |w'.emitted| == |w.emitted| + 1 && w'.emitted[|w.emitted|] == CloseDesired(j)
  }

  /** At most one event goes out, and it asks for a close exactly when the protocol is severed. */
  ghost predicate SeversAsAsked(w: World, w': World, j: nat)
    requires w.handler.Has(j)
  {
    && w'.handler.Has(j) && w.emitted <= w'.emitted && |w'.emitted| <= |w.emitted| + 1
    && One(Severed(w'.handler.At(j))) == One(Severed(w.handler.At(j))) + One(Asks(w, w', j))
  }

  lemma PollAsks(w: World, env: PollEnv, j: nat)
    requires Inv(w) && w.handler.Has(j)
    ensures SeversAsAsked(w, Step(w, PollHandler(env)), j)
  {
    if w.handler.pending == [] {
      InvOk(w);
      QuietTells(w, env);
      PollSevers(w.handler, env, j);
    }
  }

  /** Every step of the handler but the close itself. */
  lemma StepSevers(w: World, a: Action, j: nat)
    requires Inv(w) && Enabled(w, a) && w.handler.Has(j) && !(a.Message? && a.message.Close?)
    ensures SeversAsAsked(w, Step(w, a), j)
  {
    match a {
      case PollHandler(env) => PollAsks(w, env, j);
      case _ =>
    }
  }

  /** No step but a close of an opening leaves a request pending. */
  lemma StepNotPending(w: World, a: Action, j: nat)
    requires Inv(w) && Enabled(w, a) && w.handler.Has(j) && !Pending(w.handler.At(j))
    requires a.Message? && a.message.Close? ==> w.handler.At(a.message.index).StOpen?
    ensures Step(w, a).handler.Has(j) && !Pending(Step(w, a).handler.At(j))
  {
    match a {
      case PollHandler(env) =>
        PollMoves(w, env, j);
      case _ =>
    }
  }

  // ---------------------------------------------------------------------------
  // Behaviour and handlers
  // ---------------------------------------------------------------------------

  /** Closes of protocol `i` on their way: asked for and not delivered, queued by the behaviour, in the inbox. */
  ghost function OnTheWay(conn: Conn, c: ConnectionId, q: seq<ToSwarm>, i: nat): nat
    requires conn.delivered <= |conn.world.emitted|
  {
    Count(conn.world.emitted[conn.delivered..], CloseDesired(i))
    + Count(q, NotifyHandler(conn.peer, c, Close(i))) + Count(conn.inbox, Close(i))
  }

  /** A close of a live connection is on its way, once, exactly when the protocol is severed. */
  ghost predicate ClosesRight(conn: Conn, c: ConnectionId, q: seq<ToSwarm>, i: nat) {
    && conn.world.handler.Has(i) && conn.delivered <= |conn.world.emitted|
    && !Pending(conn.world.handler.At(i))
    && (conn.alive ==> OnTheWay(conn, c, q, i) == One(Severed(conn.world.handler.At(i))))
  }

  /** Queued messages name a connection that is known, and its peer. */
  ghost predicate Addressed(s: System) {
    forall k :: 0 <= k < |s.behaviour.events| && s.behaviour.events[k].NotifyHandler? ==>
      && s.behaviour.events[k].connection in s.conns
      && s.behaviour.events[k].peer == s.conns[s.behaviour.events[k].connection].peer
  }

  ghost predicate ClosingInv(s: System) {
    Addressed(s) && forall c, i: nat :: c in s.conns && i < 2 ==> ClosesRight(s.conns[c], c, s.behaviour.events, i)
  }

  /** One more emitted event is not delivered yet. */
  lemma UndeliveredGrow(w: World, w': World, d: nat, j: nat)
    requires d <= |w.emitted| && w.emitted <= w'.emitted && |w'.emitted| <= |w.emitted| + 1
    ensures Count(w'.emitted[d..], CloseDesired(j)) == Count(w.emitted[d..], CloseDesired(j)) + One(Asks(w, w', j))
  {
    if |w'.emitted| == |w.emitted| {
      assert w'.emitted == w.emitted;
    } else {
      var e := w'.emitted[|w.emitted|];
      assert w'.emitted[d..] == w.emitted[d..] + [e];
      CountPush(w.emitted[d..], e, CloseDesired(j));
    }
  }

  /** A handler step other than a close. */
  lemma HandlerCloses(conn: Conn, c: ConnectionId, q: seq<ToSwarm>, a: Action, i: nat)
    requires Inv(conn.world) && Enabled(conn.world, a) && !(a.Message? && a.message.Close?)
    requires ClosesRight(conn, c, q, i)
    ensures ClosesRight(conn.(world := Step(conn.world, a)), c, q, i)
  {
    StepSevers(conn.world, a, i);
    StepNotPending(conn.world, a, i);
    UndeliveredGrow(conn.world, Step(conn.world, a), conn.delivered, i);
  }

  /** What an inbox holds first is met as it should be: a close by a severed protocol. */
  lemma CloseMeetsSevered(conn: Conn, c: ConnectionId, q: seq<ToSwarm>)
    requires conn.alive && conn.inbox != [] && conn.inbox[0].Close? && ClosesRight(conn, c, q, conn.inbox[0].index)
    ensures Severed(conn.world.handler.At(conn.inbox[0].index))
  {
    CountPresent(conn.inbox, conn.inbox[0]);
  }

  lemma CloseStep(w: World, j: nat, i: nat)
    requires w.handler.Has(i) && w.handler.Has(j) && w.handler.At(j).StOpen?
    ensures Step(w, Message(Close(j))).emitted == w.emitted && Step(w, Message(Close(j))).handler.Has(i)
    ensures Step(w, Message(Close(j))).handler.At(i) == if i == j then StClosed(false) else w.handler.At(i)
  {
  }

  lemma ReceiveCloses(conn: Conn, c: ConnectionId, q: seq<ToSwarm>, i: nat)
    requires Inv(conn.world) && conn.alive && conn.inbox != [] && conn.world.handler.Has(conn.inbox[0].index)
    requires ClosesRight(conn, c, q, i) && ClosesRight(conn, c, q, conn.inbox[0].index)
    ensures var m := conn.inbox[0];
            ClosesRight(conn.(world := Step(conn.world, Message(m)), inbox := conn.inbox[1..]), c, q, i)
  {
    var m := conn.inbox[0];
    CountPop(conn.inbox, Close(i));
    if m.Close? {
      CloseMeetsSevered(conn, c, q);
      CloseStep(conn.world, m.index, i);
    } else {
      HandlerCloses(conn, c, q, Message(m), i);
    }
  }

  /** The behaviour turns a wish to close into a message. */
  lemma ReactionCloses(q: seq<ToSwarm>, peer: PeerId, c: ConnectionId, e: ToBehaviour, p: PeerId, d: ConnectionId,
                       i: nat)
    ensures Count(q + Reaction(peer, c, e), NotifyHandler(p, d, Close(i))) ==
            Count(q, NotifyHandler(p, d, Close(i))) + One(e == CloseDesired(i) && p == peer && d == c)
  {
    var r := Reaction(peer, c, e);
    if r != [] {
      assert r == [r[0]];
      CountPush(q, r[0], NotifyHandler(p, d, Close(i)));
    } else {
      assert q + r == q;
    }
  }

  lemma DeliverCloses(conn: Conn, c: ConnectionId, q: seq<ToSwarm>, i: nat)
    requires ClosesRight(conn, c, q, i) && conn.delivered < |conn.world.emitted|
    ensures ClosesRight(conn.(delivered := conn.delivered + 1), c,
                        q + Reaction(conn.peer, c, conn.world.emitted[conn.delivered]), i)
  {
    var rest := conn.world.emitted[conn.delivered..];
    CountPop(rest, CloseDesired(i));
    assert rest[1..] == conn.world.emitted[conn.delivered + 1..];
    ReactionCloses(q, conn.peer, c, rest[0], conn.peer, c, i);
  }

  /** A connection whose own closes in the queue are as many as before. */
  lemma SameQueue(conn: Conn, c: ConnectionId, q: seq<ToSwarm>, q': seq<ToSwarm>, i: nat)
    requires ClosesRight(conn, c, q, i)
    requires Count(q', NotifyHandler(conn.peer, c, Close(i))) == Count(q, NotifyHandler(conn.peer, c, Close(i)))
    ensures ClosesRight(conn, c, q', i)
  {
  }

  lemma CountTwo(q: seq<ToSwarm>, m: ToSwarm, n: ToSwarm, x: ToSwarm)
    ensures Count(q + [m, n], x) == Count(q, x) + One(m == x) + One(n == x)
  {
    assert q + [m, n] == q + [m] + [n];
    CountPush(q, m, x);
    CountPush(q + [m], n, x);
  }

  lemma EstablishedCloses(s: System, e: Event, c: ConnectionId, i: nat)
    requires Deliverable(s) && e.Established? && Can(s, e) && ClosingInv(s) && c in Do(s, e).conns && i < 2
    ensures ClosesRight(Do(s, e).conns[c], c, Do(s, e).behaviour.events, i)
  {
    var q, n := s.behaviour.events, e.connection;
    var x := NotifyHandler(Do(s, e).conns[c].peer, c, Close(i));
    CountTwo(q, NotifyHandler(e.peer, n, Open(0)), NotifyHandler(e.peer, n, Open(1)), x);
    if c == n {
      assert x !in q;
      CountAbsent(q, x);
    } else {
      SameQueue(s.conns[c], c, q, Do(s, e).behaviour.events, i);
    }
  }

  lemma LostCloses(s: System, e: Event, c: ConnectionId, i: nat)
    requires Deliverable(s) && e.Lost? && Can(s, e) && ClosingInv(s) && c in Do(s, e).conns && i < 2
    ensures ClosesRight(Do(s, e).conns[c], c, Do(s, e).behaviour.events, i)
  {
    var q, n := s.behaviour.events, e.connection;
    assert ClosesRight(s.conns[c], c, q, i);
    if c != n {
      var x := NotifyHandler(s.conns[c].peer, c, Close(i));
      CountTwo(q, NotifyHandler(s.conns[n].peer, n, Close(0)), NotifyHandler(s.conns[n].peer, n, Close(1)), x);
      SameQueue(s.conns[c], c, q, Do(s, e).behaviour.events, i);
    }
  }

  lemma StepCloses(s: System, e: Event, c: ConnectionId, i: nat)
    requires SystemInv(s) && (e.HandlerStep? || e.Receive?) && Can(s, e) && ClosingInv(s) && c in s.conns && i < 2
    ensures ClosesRight(Do(s, e).conns[c], c, Do(s, e).behaviour.events, i)
  {
    var q, conn := s.behaviour.events, s.conns[c];
    assert ConnInv(s, c) && ClosesRight(conn, c, q, i);
    if c == e.connection {
      if e.Receive? {
        assert conn.inbox[0] in conn.inbox;
        assert ClosesRight(conn, c, q, conn.inbox[0].index);
        ReceiveCloses(conn, c, q, i);
      } else {
        HandlerCloses(conn, c, q, e.action, i);
      }
    }
  }

  lemma DeliveredCloses(s: System, e: Event, c: ConnectionId, i: nat)
    requires Deliverable(s) && e.Deliver? && Can(s, e) && ClosingInv(s) && c in s.conns && i < 2
    ensures ClosesRight(Do(s, e).conns[c], c, Do(s, e).behaviour.events, i)
  {
    var q, n := s.behaviour.events, e.connection;
    assert ClosesRight(s.conns[c], c, q, i);
    if c == n {
      DeliverCloses(s.conns[c], c, q, i);
    } else {
      ReactionCloses(q, s.conns[n].peer, n, s.conns[n].world.emitted[s.conns[n].delivered], s.conns[c].peer, c, i);
      SameQueue(s.conns[c], c, q, Do(s, e).behaviour.events, i);
    }
  }

  /** The swarm puts a message for `c` into its inbox. */
  lemma InboxCloses(conn: Conn, c: ConnectionId, q: seq<ToSwarm>, m: FromBehaviour, i: nat)
    requires ClosesRight(conn, c, q, i) && q != [] && q[0] == NotifyHandler(conn.peer, c, m)
    ensures ClosesRight(conn.(inbox := conn.inbox + [m]), c, q[1..], i)
  {
    CountPop(q, NotifyHandler(conn.peer, c, Close(i)));
    CountPush(conn.inbox, m, Close(i));
  }

  lemma PolledCloses(s: System, c: ConnectionId, i: nat)
    requires Deliverable(s) && ClosingInv(s) && c in s.conns && i < 2
    ensures c in Do(s, SwarmPoll).conns
    ensures ClosesRight(Do(s, SwarmPoll).conns[c], c, Do(s, SwarmPoll).behaviour.events, i)
  {
    var q, conn := s.behaviour.events, s.conns[c];
    assert ClosesRight(conn, c, q, i);
    if q != [] {
      if q[0].NotifyHandler? && q[0].connection == c && conn.alive {
        InboxCloses(conn, c, q, q[0].message, i);
      } else {
        CountPop(q, NotifyHandler(conn.peer, c, Close(i)));
      }
    }
  }

  lemma DoCloses(s: System, e: Event, c: ConnectionId, i: nat)
    requires SystemInv(s) && Can(s, e) && ClosingInv(s) && c in Do(s, e).conns && i < 2
    ensures ClosesRight(Do(s, e).conns[c], c, Do(s, e).behaviour.events, i)
  {
    match e {
      case Established(_, _, _, _) => EstablishedCloses(s, e, c, i);
      case Lost(_) => LostCloses(s, e, c, i);
      case Deliver(_) => DeliveredCloses(s, e, c, i);
      case SwarmPoll => PolledCloses(s, c, i);
      case _ => StepCloses(s, e, c, i);
    }
  }

  lemma DoAddresses(s: System, e: Event)
    requires Deliverable(s) && Can(s, e) && Addressed(s)
    ensures Addressed(Do(s, e))
  {
  }

  lemma DoClosingInv(s: System, e: Event)
    requires SystemInv(s) && Can(s, e) && ClosingInv(s)
    ensures ClosingInv(Do(s, e))
  {
    DoAddresses(s, e);
    forall c, i: nat | c in Do(s, e).conns && i < 2
      ensures ClosesRight(Do(s, e).conns[c], c, Do(s, e).behaviour.events, i)
    {
      DoCloses(s, e, c, i);
    }
  }

  /** In every reachable state, a close is on its way to a live connection exactly for its severed protocols. */
  lemma {:induction false} ClosingRunInv(ss: seq<System>, es: seq<Event>, k: nat)
    requires SystemRun(ss, es) && k < |ss|
    ensures ClosingInv(ss[k])
  {
    if k > 0 {
      var j := k - 1;
      ClosingRunInv(ss, es, j);
      SystemRunInv(ss, es, j);
      assert Performs(ss[j], es[j], ss[j + 1]);
      DoClosingInv(ss[j], es[j]);
    }
  }

  // ---------------------------------------------------------------------------
  // Theorems about every run
  // ---------------------------------------------------------------------------

  /**
   A received close always meets an open protocol whose outbound substream was dropped, so the
   other three arms of the close are never taken.
   */
  lemma CloseMeetsOpen(ss: seq<System>, es: seq<Event>, k: nat)
    requires SystemRun(ss, es) && k < |es| && es[k].Receive?
    ensures var conn := ss[k].conns[es[k].connection];
            conn.inbox[0].Close? ==> Severed(conn.world.handler.At(conn.inbox[0].index))
  {
    assert Performs(ss[k], es[k], ss[k + 1]);
    ClosingRunInv(ss, es, k);
    var c := es[k].connection;
    var conn := ss[k].conns[c];
    if conn.inbox[0].Close? {
      assert conn.inbox[0] in conn.inbox;
      assert ClosesRight(conn, c, ss[k].behaviour.events, conn.inbox[0].index);
      CloseMeetsSevered(conn, c, ss[k].behaviour.events);
    }
  }

  /** No request is ever left over from an abandoned opening: outside of `Opening` nothing is unanswered. */
  lemma NothingPending(ss: seq<System>, es: seq<Event>, k: nat, c: ConnectionId, i: nat)
    requires SystemRun(ss, es) && k < |ss| && c in ss[k].conns && i < 2
    ensures var w := ss[k].conns[c].world;
            && w.handler.Has(i) && !Pending(w.handler.At(i))
            && Outstanding(w, i) == One(w.handler.At(i).StOpening?)
  {
    SystemRunInv(ss, es, k);
    ClosingRunInv(ss, es, k);
    assert ConnInv(ss[k], c) && ClosesRight(ss[k].conns[c], c, ss[k].behaviour.events, i);
    assert ProtocolInv(ss[k].conns[c].world, i);
  }

  /** Hence a connection that is not kept alive waits for nothing. */
  lemma NotKeptAliveWaitsForNothing(ss: seq<System>, es: seq<Event>, k: nat, c: ConnectionId, i: nat)
    requires SystemRun(ss, es) && k < |ss| && c in ss[k].conns && i < 2
    requires !KeepAlive(ss[k].conns[c].world.handler)
    ensures Outstanding(ss[k].conns[c].world, i) == 0
  {
    NothingPending(ss, es, k, c, i);
    assert ss[k].conns[c].world.handler.protocols[i].state.StClosed?;
  }

  /** And the answer to an outbound request always meets the opening that asked for it. */
  lemma AnswersMeetOpening(ss: seq<System>, es: seq<Event>, k: nat)
    requires SystemRun(ss, es) && k < |es| && es[k].HandlerStep?
    requires es[k].action.Negotiated? || es[k].action.DialFailed?
    ensures ss[k].conns[es[k].connection].world.handler.At(es[k].action.index).StOpening?
  {
    assert Performs(ss[k], es[k], ss[k + 1]);
    NothingPending(ss, es, k, es[k].connection, es[k].action.index);
  }
}
