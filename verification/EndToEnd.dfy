/**
 From the remote's socket to the swarm: handler and session joined. What the swarm receives from a
 peer is the beginning of what that peer sent.
 */
module EndToEnd {
  import opened Wrappers
  import opened Substream
  import opened HandlerModel
  import opened HandlerRuns
  import opened HandlerFrames
  import Behaviour
  import Wire
  import Session
  import System

  // ---------------------------------------------------------------------------
  // The substream a protocol holds is the listener's end of a session
  // ---------------------------------------------------------------------------

  ghost predicate Wired(st: State<Sub>, handshake: Bytes, dialer: Bytes, s: Session.Session) {
    && HeldSub(st) == Some(s.sub)
    && Wire.Reading(s.pair.listenerRead).Received?
    && Session.Reached(dialer, handshake, s)
  }

  ghost predicate WiredAt(w: World, i: nat, dialer: Bytes, s: Session.Session) {
    && w.handler.Has(i) && |w.handler.protocols[i].handshake| < Wire.USIZE && |dialer| < Wire.USIZE
    && Wired(w.handler.At(i), w.handler.protocols[i].handshake, dialer, s)
  }

  lemma Accepted(st: State<Sub>, handshake: Bytes, dialer: Bytes, s: Session.Session)
    requires HeldSub(st) == Some(WithHandshake(s.sub, handshake)) && Wire.Reading(s.pair.listenerRead).Received?
    requires Session.Reached(dialer, handshake, s)
    ensures Wired(st, handshake, dialer, s.(sub := WithHandshake(s.sub, handshake)))
  {
    Session.ReachedOn(dialer, handshake, s, Session.Accept, s.(sub := WithHandshake(s.sub, handshake)));
  }

  /** A substream the handler takes is wired, if its upgrade was: the dialer's handshake has been read. */
  lemma TakenWired(w: World, i: nat, dialer: Bytes, s: Session.Session) returns (s': Session.Session)
    requires w.handler.Has(i) && !HoldsAt(w, i) && |w.handler.protocols[i].handshake| < Wire.USIZE
    requires |dialer| < Wire.USIZE && s.sub == FRESH && Wire.Reading(s.pair.listenerRead).Received?
    requires Session.Reached(dialer, w.handler.protocols[i].handshake, s)
    ensures WiredAt(Step(w, Inbound(i)), i, dialer, s')
  {
    var w' := Step(w, Inbound(i));
    s' := s;
    if !w.handler.At(i).StClosed? {
      Accepted(w'.handler.At(i), w.handler.protocols[i].handshake, dialer, s);
      s' := s.(sub := WithHandshake(s.sub, w.handler.protocols[i].handshake));
    }
  }

  /** The network moves on its own. */
  lemma NetworkWired(w: World, i: nat, dialer: Bytes, s: Session.Session, m: Wire.Move)
    requires WiredAt(w, i, dialer, s) && Session.Can(s, Session.Network(m))
    requires Wire.Reading(Wire.Apply(s.pair, m, []).listenerRead).Received?
    ensures WiredAt(w, i, dialer, s.(pair := Wire.Apply(s.pair, m, [])))
  {
    Session.ReachedOn(dialer, w.handler.protocols[i].handshake, s, Session.Network(m),
                      s.(pair := Wire.Apply(s.pair, m, [])));
  }

  /** What a poll of protocol `i` may do to its substream: nothing, or one whole poll of it. */
  ghost predicate PolledOnce(st: State<Sub>, st': State<Sub>, env: nat -> Answer) {
    || HeldSub(st') == HeldSub(st)
    || HeldSub(st').None?
    || (HeldSub(st).Some? && st.StOpen? && HeldSub(st') == Some(Next(HeldSub(st).value, env, 0).0))
    || (HeldSub(st).Some? && !st.StOpen? && HeldSub(st') == Some(Process(HeldSub(st).value, env, 0).0))
  }

  lemma {:induction false} InboundPolledOnce(h: Handler, m: nat, env: PollEnv, i: nat)
    requires m <= i < |h.protocols|
    ensures PolledOnce(h.At(i), InboundFrom(h, m, env).0.At(i), env.inbound(i))
    decreases |h.protocols| - m
  {
    var st := InboundState(h.At(m), env.inbound(m)).0;
    if m == i {
      InboundBelow(h.With(m, st), m + 1, env, i);
    } else {
      InboundPolledOnce(h.With(m, st), m + 1, env, i);
    }
  }

  lemma PollPolledOnce(h: Handler, env: PollEnv, i: nat)
    requires AllOk(h) && h.pending == [] && h.Has(i)
    ensures PolledOnce(h.At(i), Poll(h, env).0.At(i), env.inbound(i))
  {
    var h1 := DrainFrom(h, 0, env);
    DrainFromOk(h, 0, env);
    DrainHolds(h, 0, env, i);
    FlushFromOk(h1, 0, env);
    FlushHolds(h1, 0, env, i);
    var (h2, event) := FlushFrom(h1, 0, env);
    assert Polled(h.At(i), h1.At(i)) && Polled(h1.At(i), h2.At(i));
    if event.None? {
      InboundPolledOnce(h2, 0, env, i);
    }
  }

  /**
   Every step of the handler is a stretch of the session: as long as it is held, the substream stays
   the listener's end of one. Asked of the sockets is only that they answer as the bytes have it.
   */
  lemma StaysWired(w: World, a: Action, i: nat, dialer: Bytes, s: Session.Session) returns (s': Session.Session)
    requires Inv(w) && Enabled(w, a) && WiredAt(w, i, dialer, s) && HoldsAt(Step(w, a), i)
    requires a.PollHandler? ==> Session.Honest(s, a.env.inbound(i), 0, w.handler.At(i).StOpen?)
    ensures WiredAt(Step(w, a), i, dialer, s')
  {
    var w', h := Step(w, a), w.handler.protocols[i].handshake;
    s' := s;
    if a.PollHandler? {
      if w.handler.pending == [] {
        InvOk(w);
        QuietTells(w, a.env);
        PollPolledOnce(w.handler, a.env, i);
        if HeldSub(w'.handler.At(i)) != HeldSub(w.handler.At(i)) {
          Session.PollReached(dialer, h, s, a.env.inbound(i), 0, w.handler.At(i).StOpen?);
          s' := Session.Polled(s, a.env.inbound(i), 0, w.handler.At(i).StOpen?);
        }
      }
    } else if a == Message(Open(i)) && w.handler.At(i).StDesired? {
      Accepted(w'.handler.At(i), h, dialer, s);
      s' := s.(sub := WithHandshake(s.sub, h));
    } else {
      SameSub(w, a, i);
    }
  }

  lemma SameSub(w: World, a: Action, i: nat)
    requires Enabled(w, a) && !a.PollHandler? && HoldsAt(w, i) && HoldsAt(Step(w, a), i)
    requires !(a == Message(Open(i)) && w.handler.At(i).StDesired?)
    ensures HeldSub(Step(w, a).handler.At(i)) == HeldSub(w.handler.At(i))
    ensures Step(w, a).handler.protocols[i].handshake == w.handler.protocols[i].handshake
  {
  }

  /**
   Since its substream was taken, a protocol has told the behaviour the first of the messages that
   the remote sent.
   */
  lemma BehaviourHearsRemote(ws: seq<World>, acts: seq<Action>, j: nat, k: nat, i: nat, dialer: Bytes,
                             s: Session.Session)
    requires Run(ws, acts) && j < k < |ws| && i < 2 && !HoldsAt(ws[j], i)
    requires forall m :: j < m <= k ==> HoldsAt(ws[m], i)
    requires WiredAt(ws[k], i, dialer, s)
    ensures exists heard: seq<Bytes> ::
              heard <= s.pair.notifications && Notes(ws[k].emitted, i) == Notes(ws[j].emitted, i) + heard
  {
    NotesSinceTaken(ws, acts, j, k, i);
    SessionSent(ws[k], i, dialer, s);
  }

  lemma SessionSent(w: World, i: nat, dialer: Bytes, s: Session.Session)
    requires WiredAt(w, i, dialer, s)
    ensures FramesAt(w, i) == FramesIn(s.sub.log) <= s.pair.notifications
  {
    var handshake := w.handler.protocols[i].handshake;
    var acts :| Session.Runs(dialer, handshake, acts, s);
    Session.HistoryIsTheWire(dialer, handshake, acts, s);
  }

  // ---------------------------------------------------------------------------
  // The swarm
  // ---------------------------------------------------------------------------

  /** The messages of the notifications in `out` from peer `p` on protocol `i`. */
  function Heard(out: seq<Behaviour.SwarmEvent>, p: PeerId, i: nat): seq<Bytes> {
    if out == [] then []
    else
      var e := out[|out| - 1];
      if e.NotificationReceived? && e.peer == p && e.index == i then Heard(out[..|out| - 1], p, i) + [e.message]
      else Heard(out[..|out| - 1], p, i)
  }

  lemma HeardPush(out: seq<Behaviour.SwarmEvent>, e: Behaviour.SwarmEvent, p: PeerId, i: nat)
    ensures Heard(out + [e], p, i) ==
            if e.NotificationReceived? && e.peer == p && e.index == i then Heard(out, p, i) + [e.message]
            else Heard(out, p, i)
  {
    assert (out + [e])[..|out|] == out;
  }

  lemma {:induction false} HeardPrefix(out: seq<Behaviour.SwarmEvent>, all: seq<Behaviour.SwarmEvent>, p: PeerId,
                                       i: nat)
    requires out <= all
    ensures Heard(out, p, i) <= Heard(all, p, i)
    decreases |all|
  {
    if |out| < |all| {
      HeardPrefix(out, all[..|all| - 1], p, i);
    } else {
      assert out == all;
    }
  }

  lemma {:induction false} NotesPrefix(es: seq<ToBehaviour>, all: seq<ToBehaviour>, i: nat)
    requires es <= all
    ensures Notes(es, i) <= Notes(all, i)
    decreases |all|
  {
    if |es| < |all| {
      NotesPrefix(es, all[..|all| - 1], i);
    } else {
      assert es == all;
    }
  }

  /** If all deliveries of peer `p` come from connection `c`, the swarm hears of `p` what that connection says. */
  lemma {:induction false} HeardIsSaid(ds: seq<System.Delivery>, c: Behaviour.ConnectionId, p: PeerId, i: nat)
    requires forall k :: 0 <= k < |ds| ==> (ds[k].peer == p <==> ds[k].connection == c)
    ensures Heard(System.Translate(ds), p, i) == Notes(System.From(ds, c), i)
  {
    if ds != [] {
      var n := |ds| - 1;
      HeardIsSaid(ds[..n], c, p, i);
      System.GeneratedReaction(ds[n]);
      assert ds[n].peer == p <==> ds[n].connection == c;
      var front, e := System.Translate(ds[..n]), ds[n].event;
      match e {
        case HandshakeCompleted(x, handshake, inbound) =>
          HeardPush(front, Behaviour.CustomProtocolOpen(ds[n].peer, x, handshake, inbound), p, i);
        case Notification(x, bytes) => HeardPush(front, Behaviour.NotificationReceived(ds[n].peer, x, bytes), p, i);
        case _ => assert System.Translate(ds) == front;
      }
      NotesPush(System.From(ds[..n], c), e, i);
    }
  }

  /** The handler of a connection goes through a run of its own. */
  lemma {:induction false} ConnectionRun(ss: seq<System.System>, es: seq<System.Event>, k: nat,
                                         c: Behaviour.ConnectionId)
    returns (ws: seq<World>, acts: seq<Action>)
    requires System.SystemRun(ss, es) && k < |ss| && c in ss[k].conns
    ensures Run(ws, acts) && ws[|ws| - 1] == ss[k].conns[c].world
    decreases k
  {
    var j := k - 1;
    assert System.Performs(ss[j], es[j], ss[j + 1]);
    if c !in ss[j].conns {
      ws, acts := [ss[k].conns[c].world], [];
      assert ws[0] == Start(es[j].blockAnnounces, es[j].role);
    } else {
      ws, acts := ConnectionRun(ss, es, j, c);
      var w, w' := ss[j].conns[c].world, ss[k].conns[c].world;
      if w != w' {
        var a := WorldMoves(ss[j], es[j], c);
        RunExtends(ws, acts, a, w');
        ws, acts := ws + [w'], acts + [a];
      }
    }
  }

  lemma WorldMoves(s: System.System, e: System.Event, c: Behaviour.ConnectionId) returns (a: Action)
    requires System.Can(s, e) && System.Deliverable(s) && c in s.conns
    requires System.Do(s, e).conns[c].world != s.conns[c].world
    ensures StepTo(s.conns[c].world, a, System.Do(s, e).conns[c].world)
  {
    a := if e.Receive? then Message(s.conns[c].inbox[0]) else e.action;
  }

  lemma RunExtends(ws: seq<World>, acts: seq<Action>, a: Action, w: World)
    requires Run(ws, acts) && StepTo(ws[|ws| - 1], a, w)
    ensures Run(ws + [w], acts + [a])
  {
    var ws', acts' := ws + [w], acts + [a];
    forall k | 0 <= k < |acts'|
      ensures StepTo(ws'[k], acts'[k], ws'[k + 1])
    {
      if k < |acts| {
        assert StepTo(ws[k], acts[k], ws[k + 1]);
      }
    }
    assert ws'[0] == ws[0];
  }

  /**
   In every run of the whole system, for a peer with one connection: what the swarm received from it
   on a protocol is the beginning of what the substreams of that protocol read, one after the other.
   `ws` is any run of the connection's handler that ends where the handler is.
   */
  lemma SwarmHearsFrames(
    ss: seq<System.System>, es: seq<System.Event>, k: nat, c: Behaviour.ConnectionId, ws: seq<World>, acts: seq<Action>,
    i: nat)
    requires System.SystemRun(ss, es) && k < |ss| && c in ss[k].conns && i < 2
    requires forall d :: d in ss[k].conns && ss[k].conns[d].peer == ss[k].conns[c].peer ==> d == c
    requires Run(ws, acts) && ws[|ws| - 1] == ss[k].conns[c].world
    ensures Heard(ss[k].output, ss[k].conns[c].peer, i) <=
            Past(ws, |ws| - 1, i) + FramesAt(ss[k].conns[c].world, i)
  {
    var s := ss[k];
    var conn := s.conns[c];
    System.SwarmSeesHandlers(ss, es, k);
    var said := conn.world.emitted[..conn.delivered];
    System.SystemRunInv(ss, es, k);
    HeardIsSaid(s.delivered, c, conn.peer, i);
    HeardPrefix(s.output, System.Translate(s.delivered), conn.peer, i);
    NotesPrefix(said, conn.world.emitted, i);
    NotesAreFrames(ws, acts, |ws| - 1, i);
  }

  /** And while the first substream is held: it is the beginning of what the peer sent, in order. */
  lemma SwarmHearsPeer(
    ss: seq<System.System>, es: seq<System.Event>, k: nat, c: Behaviour.ConnectionId, ws: seq<World>, acts: seq<Action>,
    i: nat, dialer: Bytes, s: Session.Session)
    requires System.SystemRun(ss, es) && k < |ss| && c in ss[k].conns && i < 2
    requires forall d :: d in ss[k].conns && ss[k].conns[d].peer == ss[k].conns[c].peer ==> d == c
    requires Run(ws, acts) && ws[|ws| - 1] == ss[k].conns[c].world
    requires forall m :: 0 < m < |ws| && HoldsAt(ws[m - 1], i) ==> HoldsAt(ws[m], i)
    requires WiredAt(ss[k].conns[c].world, i, dialer, s)
    ensures Heard(ss[k].output, ss[k].conns[c].peer, i) <= s.pair.notifications
  {
    SwarmHearsFrames(ss, es, k, c, ws, acts, i);
    NoPast(ws, |ws| - 1, i);
    SessionSent(ss[k].conns[c].world, i, dialer, s);
  }

  lemma {:induction false} NoPast(ws: seq<World>, k: nat, i: nat)
    requires k < |ws| && forall m :: 0 < m < |ws| && HoldsAt(ws[m - 1], i) ==> HoldsAt(ws[m], i)
    ensures Past(ws, k, i) == []
    decreases k
  {
    if k > 0 {
      NoPast(ws, k - 1, i);
    }
  }

  // ---------------------------------------------------------------------------
  // Peers with several connections
  // ---------------------------------------------------------------------------

  /** The delivered notifications of peer `p` on protocol `i`, each with the connection it came over. */
  function Said(ds: seq<System.Delivery>, p: PeerId, i: nat): seq<(Behaviour.ConnectionId, Bytes)> {
    if ds == [] then []
    else
      var d := ds[|ds| - 1];
      if d.peer == p && d.event.Notification? && d.event.index == i
      then Said(ds[..|ds| - 1], p, i) + [(d.connection, d.event.bytes)]
      else Said(ds[..|ds| - 1], p, i)
  }

  function Messages(said: seq<(Behaviour.ConnectionId, Bytes)>): seq<Bytes> {
    if said == [] then [] else Messages(said[..|said| - 1]) + [said[|said| - 1].1]
  }

  /** The messages that came over connection `c`. */
  function Over(said: seq<(Behaviour.ConnectionId, Bytes)>, c: Behaviour.ConnectionId): seq<Bytes> {
    if said == [] then []
    else if said[|said| - 1].0 == c then Over(said[..|said| - 1], c) + [said[|said| - 1].1]
    else Over(said[..|said| - 1], c)
  }

  lemma SaidPush(said: seq<(Behaviour.ConnectionId, Bytes)>, x: (Behaviour.ConnectionId, Bytes),
                 c: Behaviour.ConnectionId)
    ensures Messages(said + [x]) == Messages(said) + [x.1]
    ensures Over(said + [x], c) == if x.0 == c then Over(said, c) + [x.1] else Over(said, c)
  {
    assert (said + [x])[..|said|] == said;
  }

  lemma {:induction false} HeardIsMessages(ds: seq<System.Delivery>, p: PeerId, i: nat)
    ensures Heard(System.Translate(ds), p, i) == Messages(Said(ds, p, i))
  {
    if ds != [] {
      var n := |ds| - 1;
      HeardIsMessages(ds[..n], p, i);
      System.GeneratedReaction(ds[n]);
      var front, e := System.Translate(ds[..n]), ds[n].event;
      match e {
        case HandshakeCompleted(x, handshake, inbound) =>
          HeardPush(front, Behaviour.CustomProtocolOpen(ds[n].peer, x, handshake, inbound), p, i);
        case Notification(x, bytes) =>
          HeardPush(front, Behaviour.NotificationReceived(ds[n].peer, x, bytes), p, i);
          SaidPush(Said(ds[..n], p, i), (ds[n].connection, bytes), 0);
        case _ => assert System.Translate(ds) == front;
      }
    }
  }

  lemma {:induction false} SaidOver(ds: seq<System.Delivery>, p: PeerId, i: nat, c: Behaviour.ConnectionId)
    requires forall k :: 0 <= k < |ds| && ds[k].connection == c ==> ds[k].peer == p
    ensures Over(Said(ds, p, i), c) == Notes(System.From(ds, c), i)
  {
    if ds != [] {
      var n := |ds| - 1;
      SaidOver(ds[..n], p, i, c);
      var e := ds[n].event;
      NotesPush(System.From(ds[..n], c), e, i);
      if e.Notification? {
        SaidPush(Said(ds[..n], p, i), (ds[n].connection, e.bytes), c);
      }
    }
  }

  /**
   In every run, for any peer: what the swarm received from it on a protocol is the beginning of a
   merge of what its connections told, in which each connection's own part is in order and complete
   up to what was delivered.
   */
  lemma SwarmHearsAll(ss: seq<System.System>, es: seq<System.Event>, k: nat, p: PeerId, i: nat)
    requires System.SystemRun(ss, es) && k < |ss|
    ensures Heard(ss[k].output, p, i) <= Messages(Said(ss[k].delivered, p, i))
    ensures forall c :: c in ss[k].conns && ss[k].conns[c].peer == p ==>
              && Over(Said(ss[k].delivered, p, i), c) == Notes(System.From(ss[k].delivered, c), i)
              && Over(Said(ss[k].delivered, p, i), c) <= Notes(ss[k].conns[c].world.emitted, i)
  {
    var s := ss[k];
    System.SwarmSeesHandlers(ss, es, k);
    System.SystemRunInv(ss, es, k);
    HeardIsMessages(s.delivered, p, i);
    HeardPrefix(s.output, System.Translate(s.delivered), p, i);
    forall c | c in s.conns && s.conns[c].peer == p
      ensures Over(Said(s.delivered, p, i), c) == Notes(System.From(s.delivered, c), i)
      ensures Over(Said(s.delivered, p, i), c) <= Notes(s.conns[c].world.emitted, i)
    {
      SaidOver(s.delivered, p, i, c);
      NotesPrefix(System.From(s.delivered, c), s.conns[c].world.emitted, i);
    }
  }
}
