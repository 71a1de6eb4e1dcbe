/**
 The behaviour together with the handlers of all its connections: what the swarm sees.
 Handler events reach the behaviour in order per connection; messages to a handler wait in
 its inbox. Both queues may be delayed arbitrarily.
 */
module System {
  import opened Wrappers
  import opened HandlerModel
  import opened HandlerRuns
  import opened Behaviour

  /** A connection; the first `delivered` of the events its handler emitted have reached the behaviour. */
  datatype Conn = Conn(peer: PeerId, alive: bool, world: World, delivered: nat, inbox: seq<FromBehaviour>)

  datatype Delivery = Delivery(connection: ConnectionId, peer: PeerId, event: ToBehaviour)

  /** `delivered` is the history of the behaviour's input, `output` what it gave to the swarm. */
  datatype System = System(
    conns: map<ConnectionId, Conn>,
    behaviour: Behaviour,
    delivered: seq<Delivery>,
    output: seq<SwarmEvent>)

  datatype Event =
    | Established(connection: ConnectionId, peer: PeerId, blockAnnounces: Bytes, role: Bytes)
    | Lost(connection: ConnectionId)
    | HandlerStep(connection: ConnectionId, action: Action)
    | Receive(connection: ConnectionId)
    | Deliver(connection: ConnectionId)
    | SwarmPoll

  const EMPTY: System := System(map[], IDLE, [], [])

  predicate Can(s: System, e: Event) {
    match e
    case Established(c, _, _, _) => c !in s.conns
    case Lost(c) => c in s.conns && s.conns[c].alive
    case HandlerStep(c, a) => c in s.conns && s.conns[c].alive && !a.Message? && Enabled(s.conns[c].world, a)
    case Receive(c) => c in s.conns && s.conns[c].alive && s.conns[c].inbox != []
    case Deliver(c) => c in s.conns && s.conns[c].delivered < |s.conns[c].world.emitted|
    case SwarmPoll => true
  }

  /** Handlers only get messages about the protocols they have. */
  ghost predicate Deliverable(s: System) {
    forall c :: c in s.conns ==>
      && |s.conns[c].world.handler.protocols| == 2
      && forall m :: m in s.conns[c].inbox ==> m.index < 2
  }

  function Do(s: System, e: Event): System
    requires Can(s, e) && Deliverable(s)
  {
    match e
    case Established(c, peer, b, r) =>
      s.(conns := s.conns[c := Conn(peer, true, Start(b, r), 0, [])], behaviour := OnEstablished(s.behaviour, peer, c))
    case Lost(c) =>
      s.(conns := s.conns[c := s.conns[c].(alive := false)], behaviour := OnClosed(s.behaviour, s.conns[c].peer, c))
    case HandlerStep(c, a) =>
      s.(conns := s.conns[c := s.conns[c].(world := Step(s.conns[c].world, a))])
    case Receive(c) =>
      var conn := s.conns[c];
      assert conn.inbox[0] in conn.inbox;
      s.(conns := s.conns[c := conn.(world := Step(conn.world, Message(conn.inbox[0])), inbox := conn.inbox[1..])])
    case Deliver(c) =>
      var conn := s.conns[c];
      var event := conn.world.emitted[conn.delivered];
      s.(conns := s.conns[c := conn.(delivered := conn.delivered + 1)],
         behaviour := OnHandlerEvent(s.behaviour, conn.peer, c, event),
         delivered := s.delivered + [Delivery(c, conn.peer, event)])
    case SwarmPoll =>
      var (b, out) := PollBehaviour(s.behaviour);
      match out
      case None => s
      case Some(GenerateEvent(event)) => s.(behaviour := b, output := s.output + [event])
      case Some(NotifyHandler(_, c, m)) =>
        // The swarm drops messages to a connection that is gone.
        if c in s.conns && s.conns[c].alive
        then s.(behaviour := b, conns := s.conns[c := s.conns[c].(inbox := s.conns[c].inbox + [m])])
        else s.(behaviour := b)
  }

  // ---------------------------------------------------------------------------
  // The invariant
  // ---------------------------------------------------------------------------

  /** The swarm events in a queue of the behaviour. */
  function Generated(q: seq<ToSwarm>): seq<SwarmEvent> {
    if q == [] then []
    else if q[0].GenerateEvent? then [q[0].event] + Generated(q[1..])
    else Generated(q[1..])
  }

  /** The swarm events the deliveries stand for. */
  function Translate(ds: seq<Delivery>): seq<SwarmEvent> {
    if ds == [] then []
    else
      var d := ds[|ds| - 1];
      Translate(ds[..|ds| - 1]) + Generated(Reaction(d.peer, d.connection, d.event))
  }

  /** The events delivered from one connection. */
  function From(ds: seq<Delivery>, c: ConnectionId): seq<ToBehaviour> {
    if ds == [] then []
    else if ds[|ds| - 1].connection == c then From(ds[..|ds| - 1], c) + [ds[|ds| - 1].event]
    else From(ds[..|ds| - 1], c)
  }

  /** One connection: its handler is in good order and its deliveries are a prefix of what it emitted. */
  ghost predicate ConnInv(s: System, c: ConnectionId)
    requires c in s.conns
  {
    var conn := s.conns[c];
    && Inv(conn.world)
    && conn.delivered <= |conn.world.emitted|
    && From(s.delivered, c) == conn.world.emitted[..conn.delivered]
  }

  /** The behaviour's peer table holds exactly the live connections. */
  ghost predicate PeersExact(s: System) {
    forall p, c :: c in SetAt(s.behaviour.peers, p) <==> c in s.conns && s.conns[c].alive && s.conns[c].peer == p
  }

  ghost predicate MessagesOk(q: seq<ToSwarm>) {
    forall k :: 0 <= k < |q| && q[k].NotifyHandler? ==> q[k].message.index < 2
  }

  ghost predicate DeliveriesOk(s: System) {
    forall k :: 0 <= k < |s.delivered| ==>
      s.delivered[k].connection in s.conns && s.conns[s.delivered[k].connection].peer == s.delivered[k].peer
  }

  ghost predicate ConnsInv(s: System) {
    Deliverable(s) && DeliveriesOk(s) && forall c :: c in s.conns ==> ConnInv(s, c)
  }

  /** Nothing is lost, duplicated or reordered between the deliveries and the swarm. */
  ghost predicate QueueInv(s: System) {
    MessagesOk(s.behaviour.events) && s.output + Generated(s.behaviour.events) == Translate(s.delivered)
  }

  ghost predicate SystemInv(s: System) {
    ConnsInv(s) && QueueInv(s) && PeersExact(s)
  }

  lemma {:induction false} GeneratedAppend(p: seq<ToSwarm>, q: seq<ToSwarm>)
    ensures Generated(p + q) == Generated(p) + Generated(q)
  {
    if p == [] {
      assert p + q == q;
    } else {
      assert (p + q)[1..] == p[1..] + q;
      GeneratedAppend(p[1..], q);
    }
  }

  lemma GeneratedOne(t: ToSwarm)
    ensures Generated([t]) == if t.GenerateEvent? then [t.event] else []
  {
    assert [t][1..] == [];
  }

  /** A delivery becomes at most one swarm event: an open, a notification, never a close. */
  lemma GeneratedReaction(d: Delivery)
    ensures Generated(Reaction(d.peer, d.connection, d.event)) ==
            match d.event
            case HandshakeCompleted(i, handshake, inbound) => [CustomProtocolOpen(d.peer, i, handshake, inbound)]
            case Notification(i, bytes) => [NotificationReceived(d.peer, i, bytes)]
            case _ => []
  {
    var q := Reaction(d.peer, d.connection, d.event);
    if q != [] {
      GeneratedOne(q[0]);
      assert q == [q[0]];
    }
  }

  lemma NoDeliveries(ds: seq<Delivery>, c: ConnectionId)
    requires forall k :: 0 <= k < |ds| ==> ds[k].connection != c
    ensures From(ds, c) == []
  {
  }

  /** When only connection `c` moved and nothing was delivered, only `c` is to be looked at. */
  lemma OthersKeep(s: System, s': System, c: ConnectionId)
    requires ConnsInv(s) && s'.delivered == s.delivered
    requires c in s'.conns && s'.conns == s.conns[c := s'.conns[c]]
    requires c in s.conns ==> s'.conns[c].peer == s.conns[c].peer
    requires |s'.conns[c].world.handler.protocols| == 2 && forall m :: m in s'.conns[c].inbox ==> m.index < 2
    requires ConnInv(s', c)
    ensures ConnsInv(s')
  {
    forall d | d in s'.conns
      ensures ConnInv(s', d)
    {
      if d != c {
        assert ConnInv(s, d);
      }
    }
  }

  lemma EstablishedConns(s: System, e: Event)
    requires ConnsInv(s) && e.Established? && Can(s, e)
    ensures ConnsInv(Do(s, e))
  {
    StartInv(e.blockAnnounces, e.role);
    NoDeliveries(s.delivered, e.connection);
    OthersKeep(s, Do(s, e), e.connection);
  }

  lemma LostConns(s: System, e: Event)
    requires ConnsInv(s) && e.Lost? && Can(s, e)
    ensures ConnsInv(Do(s, e))
  {
    assert ConnInv(s, e.connection);
    OthersKeep(s, Do(s, e), e.connection);
  }

  lemma TwoMessages(q: seq<ToSwarm>, m: ToSwarm, n: ToSwarm)
    requires m.NotifyHandler? && n.NotifyHandler?
    ensures Generated(q + [m, n]) == Generated(q)
  {
    GeneratedOne(m);
    GeneratedOne(n);
    GeneratedAppend([m], [n]);
    GeneratedAppend(q, [m, n]);
    assert [m, n] == [m] + [n];
  }

  /** Opening or losing a connection queues two messages and updates the peer table. */
  lemma ConnectionChangeQueue(s: System, e: Event)
    requires Deliverable(s) && QueueInv(s) && (e.Established? || e.Lost?) && Can(s, e)
    ensures QueueInv(Do(s, e))
  {
    var q, c := s.behaviour.events, e.connection;
    if e.Established? {
      TwoMessages(q, NotifyHandler(e.peer, c, Open(0)), NotifyHandler(e.peer, c, Open(1)));
    } else {
      TwoMessages(q, NotifyHandler(s.conns[c].peer, c, Close(0)), NotifyHandler(s.conns[c].peer, c, Close(1)));
    }
  }

  lemma ConnectionChangePeers(s: System, e: Event)
    requires ConnsInv(s) && PeersExact(s) && (e.Established? || e.Lost?) && Can(s, e)
    ensures PeersExact(Do(s, e))
  {
    var s' := Do(s, e);
    forall p, c
      ensures c in SetAt(s'.behaviour.peers, p) <==> c in s'.conns && s'.conns[c].alive && s'.conns[c].peer == p
    {
      assert c in SetAt(s.behaviour.peers, p) <==> c in s.conns && s.conns[c].alive && s.conns[c].peer == p;
    }
  }

  /** Any handler step only adds to what the handler emitted. */
  lemma StepEmits(w: World, a: Action)
    requires Inv(w) && Enabled(w, a)
    ensures Inv(Step(w, a)) && w.emitted <= Step(w, a).emitted
    ensures |Step(w, a).handler.protocols| == |w.handler.protocols|
  {
    StepInv(w, a);
  }

  lemma HandlerConns(s: System, e: Event)
    requires ConnsInv(s) && (e.HandlerStep? || e.Receive?) && Can(s, e)
    ensures ConnsInv(Do(s, e))
  {
    var s', c := Do(s, e), e.connection;
    var conn := s.conns[c];
    assert ConnInv(s, c);
    if e.Receive? {
      assert conn.inbox[0] in conn.inbox;
    }
    StepEmits(conn.world, if e.Receive? then Message(conn.inbox[0]) else e.action);
    assert s'.conns[c].world.emitted[..conn.delivered] == conn.world.emitted[..conn.delivered];
    OthersKeep(s, s', c);
  }

  lemma FromPush(ds: seq<Delivery>, d: Delivery, c: ConnectionId)
    ensures From(ds + [d], c) == if d.connection == c then From(ds, c) + [d.event] else From(ds, c)
  {
    assert (ds + [d])[..|ds|] == ds;
  }

  /** One more of the emitted events is delivered. */
  lemma DeliverConn(s: System, e: Event, k: ConnectionId)
    requires Deliverable(s) && e.Deliver? && Can(s, e) && k in s.conns && ConnInv(s, k)
    ensures k in Do(s, e).conns && ConnInv(Do(s, e), k)
  {
    var c := e.connection;
    var conn := s.conns[c];
    var event := conn.world.emitted[conn.delivered];
    FromPush(s.delivered, Delivery(c, conn.peer, event), k);
    assert conn.world.emitted[..conn.delivered + 1] == conn.world.emitted[..conn.delivered] + [event];
  }

  lemma DeliverConns(s: System, e: Event)
    requires ConnsInv(s) && e.Deliver? && Can(s, e)
    ensures ConnsInv(Do(s, e))
  {
    forall k | k in s.conns
      ensures ConnInv(Do(s, e), k)
    {
      assert ConnInv(s, k);
      DeliverConn(s, e, k);
    }
  }

  /** The reaction to a delivery goes behind what is queued. */
  lemma {:induction false} ReactionQueued(out: seq<SwarmEvent>, q: seq<ToSwarm>, ds: seq<Delivery>, d: Delivery)
    requires MessagesOk(q) && out + Generated(q) == Translate(ds) && d.event.index < 2
    ensures MessagesOk(q + Reaction(d.peer, d.connection, d.event))
    ensures out + Generated(q + Reaction(d.peer, d.connection, d.event)) == Translate(ds + [d])
  {
    var r, all := Reaction(d.peer, d.connection, d.event), ds + [d];
    assert all[..|ds|] == ds;
    assert Translate(all) == Translate(ds) + Generated(r);
    GeneratedAppend(q, r);
    JoinEvents(out, Generated(q), Generated(r));
  }

  lemma JoinEvents(a: seq<SwarmEvent>, b: seq<SwarmEvent>, c: seq<SwarmEvent>)
    ensures a + (b + c) == a + b + c
  {
  }

  lemma DeliverQueue(s: System, e: Event)
    requires Deliverable(s) && QueueInv(s) && e.Deliver? && Can(s, e)
    requires s.conns[e.connection].world.emitted[s.conns[e.connection].delivered].index < 2
    ensures QueueInv(Do(s, e))
  {
    var conn := s.conns[e.connection];
    var d := Delivery(e.connection, conn.peer, conn.world.emitted[conn.delivered]);
    ReactionQueued(s.output, s.behaviour.events, s.delivered, d);
  }

  lemma SwarmPollConns(s: System)
    requires ConnsInv(s) && MessagesOk(s.behaviour.events)
    ensures ConnsInv(Do(s, SwarmPoll))
  {
    var s', q := Do(s, SwarmPoll), s.behaviour.events;
    if q != [] && q[0].NotifyHandler? && q[0].connection in s.conns && s.conns[q[0].connection].alive {
      assert ConnInv(s, q[0].connection);
      OthersKeep(s, s', q[0].connection);
    } else {
      assert s'.conns == s.conns && s'.delivered == s.delivered;
      forall k | k in s'.conns
        ensures ConnInv(s', k)
      {
        assert ConnInv(s, k);
      }
    }
  }

  lemma SwarmPollQueue(s: System)
    requires Deliverable(s) && QueueInv(s)
    ensures QueueInv(Do(s, SwarmPoll))
  {
    var q := s.behaviour.events;
    if q != [] {
      PopGenerated(s.output, q);
    }
  }

  /** Handing out the head of the queue moves at most one event from the queue to the output. */
  lemma {:induction false} PopGenerated(out: seq<SwarmEvent>, q: seq<ToSwarm>)
    requires q != []
    ensures (if q[0].GenerateEvent? then out + [q[0].event] else out) + Generated(q[1..]) == out + Generated(q)
  {
  }

  lemma SwarmPollPeers(s: System)
    requires Deliverable(s) && PeersExact(s)
    ensures PeersExact(Do(s, SwarmPoll))
  {
    var s' := Do(s, SwarmPoll);
    assert s'.behaviour.peers == s.behaviour.peers && s'.conns.Keys == s.conns.Keys;
    assert forall c :: c in s.conns ==> s'.conns[c].alive == s.conns[c].alive && s'.conns[c].peer == s.conns[c].peer;
  }

  lemma DeliverPeers(s: System, e: Event)
    requires Deliverable(s) && PeersExact(s) && e.Deliver? && Can(s, e)
    ensures PeersExact(Do(s, e))
  {
  }

  lemma DoConns(s: System, e: Event)
    requires SystemInv(s) && Can(s, e)
    ensures ConnsInv(Do(s, e))
  {
    match e {
      case Established(_, _, _, _) => EstablishedConns(s, e);
      case Lost(_) => LostConns(s, e);
      case Deliver(_) => DeliverConns(s, e);
      case SwarmPoll => SwarmPollConns(s);
      case _ => HandlerConns(s, e);
    }
  }

  lemma DoQueue(s: System, e: Event)
    requires SystemInv(s) && Can(s, e)
    ensures QueueInv(Do(s, e))
  {
    match e {
      case Established(_, _, _, _) => ConnectionChangeQueue(s, e);
      case Lost(_) => ConnectionChangeQueue(s, e);
      case Deliver(c) =>
        assert ConnInv(s, c);
        DeliverQueue(s, e);
      case SwarmPoll => SwarmPollQueue(s);
      case _ =>
    }
  }

  lemma DoPeers(s: System, e: Event)
    requires SystemInv(s) && Can(s, e)
    ensures PeersExact(Do(s, e))
  {
    match e {
      case Established(_, _, _, _) => ConnectionChangePeers(s, e);
      case Lost(_) => ConnectionChangePeers(s, e);
      case Deliver(_) => DeliverPeers(s, e);
      case SwarmPoll => SwarmPollPeers(s);
      case _ =>
    }
  }

  /** Every step of behaviour, handlers and deliveries keeps the invariant. */
  lemma DoInv(s: System, e: Event)
    requires SystemInv(s) && Can(s, e)
    ensures SystemInv(Do(s, e))
  {
    DoConns(s, e);
    DoQueue(s, e);
    DoPeers(s, e);
  }

  // ---------------------------------------------------------------------------
  // What the swarm sees, in every run
  // ---------------------------------------------------------------------------

  ghost predicate Performs(s: System, e: Event, s': System) {
    Can(s, e) && Deliverable(s) && s' == Do(s, e)
  }

  ghost predicate SystemRun(ss: seq<System>, es: seq<Event>) {
    && |ss| == |es| + 1
    && ss[0] == EMPTY
    && forall k {:trigger es[k]} :: 0 <= k < |es| ==> Performs(ss[k], es[k], ss[k + 1])
  }

  /**
   Every reachable state of behaviour and handlers. `Deliverable` is part of it, so no handler
   is ever indexed out of range by a message.
   */
  lemma {:induction false} SystemRunInv(ss: seq<System>, es: seq<Event>, k: nat)
    requires SystemRun(ss, es) && k < |ss|
    ensures SystemInv(ss[k])
  {
    if k > 0 {
      var j := k - 1;
      SystemRunInv(ss, es, j);
      assert Performs(ss[j], es[j], ss[j + 1]);
      DoInv(ss[j], es[j]);
    }
  }

  /** A delivery of connection `c` is one of the events its handler emitted, at the position `From` gives. */
  lemma {:induction false} FromPosition(ds: seq<Delivery>, k: nat)
    requires k < |ds|
    ensures var c := ds[k].connection;
            && |From(ds[..k], c)| < |From(ds, c)|
            && From(ds, c)[|From(ds[..k], c)|] == ds[k].event
            && From(ds, c)[..|From(ds[..k], c)|] == From(ds[..k], c)
  {
    var n := |ds| - 1;
    if k == n {
      assert ds[..k] == ds[..n];
    } else {
      assert ds[..n][..k] == ds[..k] && ds[..n][k] == ds[k];
      FromPosition(ds[..n], k);
    }
  }

  /** Conversely, each event in `From(ds, c)` is one of the deliveries. */
  lemma {:induction false} FromWitness(ds: seq<Delivery>, c: ConnectionId, m: nat) returns (k: nat)
    requires m < |From(ds, c)|
    ensures k < |ds| && ds[k].connection == c && ds[k].event == From(ds, c)[m]
  {
    var n := |ds| - 1;
    if m < |From(ds[..n], c)| {
      k := FromWitness(ds[..n], c, m);
    } else {
      k := n;
    }
  }

  /** Before each delivered notification, the same connection delivered a completion of the same protocol. */
  lemma CompletionDelivered(s: System, k: nat) returns (j: nat)
    requires SystemInv(s) && k < |s.delivered| && s.delivered[k].event.Notification?
    ensures j < k && s.delivered[j].connection == s.delivered[k].connection
    ensures s.delivered[j].peer == s.delivered[k].peer
    ensures s.delivered[j].event.HandshakeCompleted? && s.delivered[j].event.index == s.delivered[k].event.index
  {
    var ds, c := s.delivered, s.delivered[k].connection;
    assert ConnInv(s, c);
    var es := s.conns[c].world.emitted;
    FromPosition(ds, k);
    var p := |From(ds[..k], c)|;
    assert es[p] == From(ds, c)[p] && es[..p] == From(ds[..k], c);
    assert NotifiedWhileOpen(es);
    OpenAfterMeans(es[..p], es[p].index);
    var m :| 0 <= m < p && es[..p][m].HandshakeCompleted? && es[..p][m].index == es[p].index;
    j := FromWitness(ds[..k], c, m);
  }

  /** A delivered completion shows up as an open event. */
  lemma {:induction false} OpenTranslated(ds: seq<Delivery>, j: nat)
    requires j < |ds| && ds[j].event.HandshakeCompleted?
    ensures exists q :: 0 <= q < |Translate(ds)| && Translate(ds)[q].CustomProtocolOpen?
                        && Translate(ds)[q].peer == ds[j].peer && Translate(ds)[q].index == ds[j].event.index
  {
    var n := |ds| - 1;
    var front := Translate(ds[..n]);
    if j < n {
      OpenTranslated(ds[..n], j);
      var q :| 0 <= q < |front| && front[q].CustomProtocolOpen?
               && front[q].peer == ds[j].peer && front[q].index == ds[j].event.index;
      assert Translate(ds)[q] == front[q];
    } else {
      assert Translate(ds)[|front|].CustomProtocolOpen?;
    }
  }

  ghost predicate OpenedBefore(out: seq<SwarmEvent>, p: nat)
    requires p < |out| && !out[p].CustomProtocolClosed?
  {
    exists q :: 0 <= q < p && out[q].CustomProtocolOpen? && out[q].peer == out[p].peer && out[q].index == out[p].index
  }

  /** Completions before notifications among the deliveries mean opens before notifications in the translation. */
  lemma {:induction false} TranslatedOrder(ds: seq<Delivery>, p: nat)
    requires p < |Translate(ds)| && Translate(ds)[p].NotificationReceived?
    requires forall k :: 0 <= k < |ds| && ds[k].event.Notification? ==>
               exists j :: 0 <= j < k && ds[j].event.HandshakeCompleted?
                           && ds[j].peer == ds[k].peer && ds[j].event.index == ds[k].event.index
    ensures OpenedBefore(Translate(ds), p)
  {
    var n := |ds| - 1;
    var front := Translate(ds[..n]);
    if p < |front| {
      TranslatedOrder(ds[..n], p);
      var q :| 0 <= q < p && front[q].CustomProtocolOpen? && front[q].peer == front[p].peer
               && front[q].index == front[p].index;
      assert Translate(ds)[q] == front[q] && Translate(ds)[p] == front[p];
    } else {
      GeneratedReaction(ds[n]);
      var j :| 0 <= j < n && ds[j].event.HandshakeCompleted?
               && ds[j].peer == ds[n].peer && ds[j].event.index == ds[n].event.index;
      OpenTranslated(ds[..n], j);
      var q :| 0 <= q < |front| && front[q].CustomProtocolOpen?
               && front[q].peer == ds[n].peer && front[q].index == ds[n].event.index;
      assert Translate(ds)[q] == front[q];
    }
  }

  /** In every run, each notification given to the swarm follows an open event of the same peer and protocol. */
  lemma SwarmNotificationAfterOpen(ss: seq<System>, es: seq<Event>, k: nat, p: nat)
    requires SystemRun(ss, es) && k < |ss| && p < |ss[k].output| && ss[k].output[p].NotificationReceived?
    ensures OpenedBefore(ss[k].output, p)
  {
    SystemRunInv(ss, es, k);
    var s := ss[k];
    var ds := s.delivered;
    forall n | 0 <= n < |ds| && ds[n].event.Notification?
      ensures exists j :: 0 <= j < n && ds[j].event.HandshakeCompleted?
                          && ds[j].peer == ds[n].peer && ds[j].event.index == ds[n].event.index
    {
      var j := CompletionDelivered(s, n);
    }
    var out := Translate(ds);
    assert s.output <= out;
    TranslatedOrder(ds, p);
    var q :| 0 <= q < p && out[q].CustomProtocolOpen? && out[q].peer == out[p].peer && out[q].index == out[p].index;
    assert s.output[q] == out[q];
  }

  /**
   Through both queues nothing is lost, invented or reordered: what the swarm has received followed
   by what is queued for it is the translation of all deliveries, each connection's deliveries are
   exactly the events counted as delivered of those its handler emitted, in order, and the peer
   table holds exactly the live connections.
   */
  lemma SwarmSeesHandlers(ss: seq<System>, es: seq<Event>, k: nat)
    requires SystemRun(ss, es) && k < |ss|
    ensures ss[k].output + Generated(ss[k].behaviour.events) == Translate(ss[k].delivered)
    ensures forall c :: c in ss[k].conns ==>
              && ss[k].conns[c].delivered <= |ss[k].conns[c].world.emitted|
              && From(ss[k].delivered, c) == ss[k].conns[c].world.emitted[..ss[k].conns[c].delivered]
    ensures forall p, c :: c in SetAt(ss[k].behaviour.peers, p) <==>
              c in ss[k].conns && ss[k].conns[c].alive && ss[k].conns[c].peer == p
  {
    SystemRunInv(ss, es, k);
    forall c | c in ss[k].conns
      ensures ss[k].conns[c].delivered <= |ss[k].conns[c].world.emitted|
      ensures From(ss[k].delivered, c) == ss[k].conns[c].world.emitted[..ss[k].conns[c].delivered]
    {
      assert ConnInv(ss[k], c);
    }
  }

  lemma {:induction false} NoClosedTranslated(ds: seq<Delivery>, p: nat)
    requires p < |Translate(ds)|
    ensures !Translate(ds)[p].CustomProtocolClosed?
  {
    var n := |ds| - 1;
    if p < |Translate(ds[..n])| {
      NoClosedTranslated(ds[..n], p);
    } else {
      GeneratedReaction(ds[n]);
    }
  }

  /** In no run is the swarm ever told that a protocol closed. */
  lemma NeverReportsClosed(ss: seq<System>, es: seq<Event>, k: nat, p: nat)
    requires SystemRun(ss, es) && k < |ss| && p < |ss[k].output|
    ensures !ss[k].output[p].CustomProtocolClosed?
  {
    SwarmSeesHandlers(ss, es, k);
    var s := ss[k];
    assert Translate(s.delivered)[p] == s.output[p];
    NoClosedTranslated(s.delivered, p);
  }
}
