/**
 What a handler is told: over every run, a live connection gets one `Open` for each of the two
 protocols and then exactly the answers to what its own handler reported, in order.
 */
module Talk {
  import opened Wrappers
  import opened HandlerModel
  import opened HandlerRuns
  import opened Behaviour
  import opened System
  import opened Closing

  /** `got` followed by the messages of a queue that are for connection `c`. */
  function Queued(got: seq<FromBehaviour>, q: seq<ToSwarm>, c: ConnectionId): seq<FromBehaviour> {
    if q == [] then got
    else
      var t := q[|q| - 1];
      if t.NotifyHandler? && t.connection == c then Queued(got, q[..|q| - 1], c) + [t.message]
      else Queued(got, q[..|q| - 1], c)
  }

  /** What a connection is owed: both protocols opened, then an answer to each wish its handler delivered. */
  function Owed(es: seq<ToBehaviour>): seq<FromBehaviour> {
    if es == [] then [Open(0), Open(1)]
    else
      var e := es[|es| - 1];
      if e.DesiredByRemote? then Owed(es[..|es| - 1]) + [Open(e.index)]
      else if e.CloseDesired? then Owed(es[..|es| - 1]) + [Close(e.index)]
      else Owed(es[..|es| - 1])
  }

  /** The messages the handler of `c` has taken out of its inbox. */
  ghost function Taken(ss: seq<System>, es: seq<Event>, k: nat, c: ConnectionId): seq<FromBehaviour>
    requires |ss| == |es| + 1 && k < |ss|
  {
    if k == 0 then []
    else if es[k - 1] == Receive(c) && c in ss[k - 1].conns && ss[k - 1].conns[c].inbox != [] then
      Taken(ss, es, k - 1, c) + [ss[k - 1].conns[c].inbox[0]]
    else Taken(ss, es, k - 1, c)
  }

  ghost predicate Told(taken: seq<FromBehaviour>, s: System, c: ConnectionId) {
    c in s.conns && s.conns[c].alive ==>
      Queued(taken + s.conns[c].inbox, s.behaviour.events, c) == Owed(From(s.delivered, c))
  }

  lemma QueuedPush(got: seq<FromBehaviour>, q: seq<ToSwarm>, t: ToSwarm, c: ConnectionId)
    ensures Queued(got, q + [t], c) ==
            if t.NotifyHandler? && t.connection == c then Queued(got, q, c) + [t.message] else Queued(got, q, c)
  {
    assert (q + [t])[..|q|] == q;
  }

  lemma {:induction false} QueuedPop(got: seq<FromBehaviour>, q: seq<ToSwarm>, c: ConnectionId)
    requires q != []
    ensures Queued(got, q, c) ==
            Queued(if q[0].NotifyHandler? && q[0].connection == c then got + [q[0].message] else got, q[1..], c)
    decreases |q|
  {
    if |q| > 1 {
      assert q[1..][..|q| - 2] == q[..|q| - 1][1..];
      QueuedPop(got, q[..|q| - 1], c);
    }
  }

  lemma QueuedOther(got: seq<FromBehaviour>, q: seq<ToSwarm>, c: ConnectionId)
    requires forall k :: 0 <= k < |q| && q[k].NotifyHandler? ==> q[k].connection != c
    ensures Queued(got, q, c) == got
  {
  }

  lemma OwedPush(es: seq<ToBehaviour>, e: ToBehaviour)
    ensures Owed(es + [e]) ==
            if e.DesiredByRemote? then Owed(es) + [Open(e.index)]
            else if e.CloseDesired? then Owed(es) + [Close(e.index)]
            else Owed(es)
  {
    assert (es + [e])[..|es|] == es;
  }

  lemma ReactionQueued(got: seq<FromBehaviour>, q: seq<ToSwarm>, d: Delivery, c: ConnectionId)
    ensures Queued(got, q + Reaction(d.peer, d.connection, d.event), c) ==
            if d.connection != c then Queued(got, q, c)
            else if d.event.DesiredByRemote? then Queued(got, q, c) + [Open(d.event.index)]
            else if d.event.CloseDesired? then Queued(got, q, c) + [Close(d.event.index)]
            else Queued(got, q, c)
  {
    var r := Reaction(d.peer, d.connection, d.event);
    if r != [] {
      assert r == [r[0]];
      QueuedPush(got, q, r[0], c);
    } else {
      assert q + r == q;
    }
  }

  lemma TwoQueued(got: seq<FromBehaviour>, q: seq<ToSwarm>, m: ToSwarm, n: ToSwarm, c: ConnectionId)
    requires m.NotifyHandler? && n.NotifyHandler? && m.connection == n.connection
    ensures Queued(got, q + [m, n], c) ==
            if m.connection == c then Queued(got, q, c) + [m.message] + [n.message] else Queued(got, q, c)
  {
    assert q + [m, n] == q + [m] + [n];
    QueuedPush(got, q, m, c);
    QueuedPush(got, q + [m], n, c);
  }

  lemma EstablishedTold(taken: seq<FromBehaviour>, s: System, e: Event, c: ConnectionId)
    requires ConnsInv(s) && Addressed(s) && e.Established? && Can(s, e) && Told(taken, s, c)
    requires c !in s.conns ==> taken == []
    ensures Told(taken, Do(s, e), c)
  {
    var q, n := s.behaviour.events, e.connection;
    var got := if c == n then [] else if c in s.conns then taken + s.conns[c].inbox else taken;
    TwoQueued(got, q, NotifyHandler(e.peer, n, Open(0)), NotifyHandler(e.peer, n, Open(1)), c);
    if c == n {
      QueuedOther([], q, c);
      NoDeliveries(s.delivered, c);
      assert taken + Do(s, e).conns[c].inbox == [];
    }
  }

  lemma LostTold(taken: seq<FromBehaviour>, s: System, e: Event, c: ConnectionId)
    requires Deliverable(s) && e.Lost? && Can(s, e) && Told(taken, s, c)
    ensures Told(taken, Do(s, e), c)
  {
    var q, n := s.behaviour.events, e.connection;
    if c != n && c in s.conns {
      TwoQueued(taken + s.conns[c].inbox, q, NotifyHandler(s.conns[n].peer, n, Close(0)),
                NotifyHandler(s.conns[n].peer, n, Close(1)), c);
    }
  }

  lemma ReceiveTold(taken: seq<FromBehaviour>, s: System, c: ConnectionId)
    requires Deliverable(s) && Can(s, Receive(c)) && Told(taken, s, c)
    ensures Told(taken + [s.conns[c].inbox[0]], Do(s, Receive(c)), c)
  {
    var inbox := s.conns[c].inbox;
    assert taken + inbox == taken + [inbox[0]] + inbox[1..];
  }

  lemma DeliverTold(taken: seq<FromBehaviour>, s: System, e: Event, c: ConnectionId)
    requires Deliverable(s) && e.Deliver? && Can(s, e) && Told(taken, s, c)
    ensures Told(taken, Do(s, e), c)
  {
    if c in s.conns && s.conns[c].alive {
      var n := e.connection;
      var d := Delivery(n, s.conns[n].peer, s.conns[n].world.emitted[s.conns[n].delivered]);
      ReactionQueued(taken + s.conns[c].inbox, s.behaviour.events, d, c);
      FromPush(s.delivered, d, c);
      OwedPush(From(s.delivered, c), d.event);
    }
  }

  lemma SwarmPollTold(taken: seq<FromBehaviour>, s: System, c: ConnectionId)
    requires Deliverable(s) && Told(taken, s, c)
    ensures Told(taken, Do(s, SwarmPoll), c)
  {
    var q := s.behaviour.events;
    if q != [] && c in s.conns && s.conns[c].alive {
      var inbox := s.conns[c].inbox;
      QueuedPop(taken + inbox, q, c);
      if q[0].NotifyHandler? && q[0].connection == c {
        assert taken + inbox + [q[0].message] == taken + (inbox + [q[0].message]);
      }
    }
  }

  lemma DoTold(taken: seq<FromBehaviour>, s: System, e: Event, c: ConnectionId)
    requires ConnsInv(s) && Addressed(s) && Can(s, e) && e != Receive(c) && Told(taken, s, c)
    requires c !in s.conns ==> taken == []
    ensures Told(taken, Do(s, e), c)
  {
    match e {
      case Established(_, _, _, _) => EstablishedTold(taken, s, e, c);
      case Lost(_) => LostTold(taken, s, e, c);
      case Deliver(_) => DeliverTold(taken, s, e, c);
      case SwarmPoll => SwarmPollTold(taken, s, c);
      case _ =>
    }
  }

  lemma ConnectionsStay(s: System, e: Event, c: ConnectionId)
    requires Can(s, e) && Deliverable(s) && c in s.conns
    ensures c in Do(s, e).conns
  {
  }

  lemma {:induction false} NothingTakenBefore(ss: seq<System>, es: seq<Event>, k: nat, c: ConnectionId)
    requires SystemRun(ss, es) && k < |ss| && c !in ss[k].conns
    ensures Taken(ss, es, k, c) == []
    decreases k
  {
    if k > 0 {
      var j := k - 1;
      assert Performs(ss[j], es[j], ss[j + 1]);
      if c in ss[j].conns { ConnectionsStay(ss[j], es[j], c); }
      NothingTakenBefore(ss, es, j, c);
    }
  }

  /**
   In every run: what the handler of a live connection has taken, what waits in its inbox and what
   the behaviour has queued for it are together what it is owed, in order.
   */
  lemma {:induction false} HandlersGetWhatTheyAreOwed(ss: seq<System>, es: seq<Event>, k: nat, c: ConnectionId)
    requires SystemRun(ss, es) && k < |ss| && c in ss[k].conns && ss[k].conns[c].alive
    ensures Queued(Taken(ss, es, k, c) + ss[k].conns[c].inbox, ss[k].behaviour.events, c) ==
            Owed(From(ss[k].delivered, c))
  {
    RunTold(ss, es, k, c);
  }

  lemma {:induction false} RunTold(ss: seq<System>, es: seq<Event>, k: nat, c: ConnectionId)
    requires SystemRun(ss, es) && k < |ss|
    ensures Told(Taken(ss, es, k, c), ss[k], c)
    decreases k
  {
    if k > 0 {
      var j := k - 1;
      RunTold(ss, es, j, c);
      SystemRunInv(ss, es, j);
      ClosingRunInv(ss, es, j);
      assert Performs(ss[j], es[j], ss[j + 1]);
      if es[j] == Receive(c) {
        ReceiveTold(Taken(ss, es, j, c), ss[j], c);
      } else {
        if c !in ss[j].conns { NothingTakenBefore(ss, es, j, c); }
        DoTold(Taken(ss, es, j, c), ss[j], es[j], c);
      }
    }
  }

  // ---------------------------------------------------------------------------
  // Connections alive or lost
  // ---------------------------------------------------------------------------

  /** The messages for `c` that the swarm has taken from the behaviour. */
  ghost function Polled(ss: seq<System>, es: seq<Event>, k: nat, c: ConnectionId): seq<FromBehaviour>
    requires |ss| == |es| + 1 && k < |ss|
  {
    if k == 0 then []
    else
      var q := ss[k - 1].behaviour.events;
      if es[k - 1].SwarmPoll? && q != [] && q[0].NotifyHandler? && q[0].connection == c
      then Polled(ss, es, k - 1, c) + [q[0].message]
      else Polled(ss, es, k - 1, c)
  }

  /** What the first `k` events of the run call for on connection `c`. */
  ghost function CalledFor(ss: seq<System>, es: seq<Event>, k: nat, c: ConnectionId): seq<FromBehaviour>
    requires |ss| == |es| + 1 && k < |ss|
  {
    if k == 0 then []
    else
      var before := CalledFor(ss, es, k - 1, c);
      match es[k - 1]
      case Established(d, _, _, _) => if d == c then before + [Open(0)] + [Open(1)] else before
      case Lost(d) => if d == c then before + [Close(0)] + [Close(1)] else before
      case Deliver(d) =>
        if d == c && d in ss[k - 1].conns && ss[k - 1].conns[d].delivered < |ss[k - 1].conns[d].world.emitted| then
          match ss[k - 1].conns[d].world.emitted[ss[k - 1].conns[d].delivered]
          case DesiredByRemote(i) => before + [Open(i)]
          case CloseDesired(i) => before + [Close(i)]
          case _ => before
        else before
      case _ => before
  }

  lemma SayStep(polled: seq<FromBehaviour>, ss: seq<System>, es: seq<Event>, j: nat, c: ConnectionId)
    requires |ss| == |es| + 1 && j < |es| && Performs(ss[j], es[j], ss[j + 1]) && !es[j].SwarmPoll?
    requires Queued(polled, ss[j].behaviour.events, c) == CalledFor(ss, es, j, c)
    ensures Queued(polled, ss[j + 1].behaviour.events, c) == CalledFor(ss, es, j + 1, c)
  {
    var s, e, q := ss[j], es[j], ss[j].behaviour.events;
    match e {
      case Established(n, peer, _, _) =>
        TwoQueued(polled, q, NotifyHandler(peer, n, Open(0)), NotifyHandler(peer, n, Open(1)), c);
      case Lost(n) =>
        var peer := s.conns[n].peer;
        TwoQueued(polled, q, NotifyHandler(peer, n, Close(0)), NotifyHandler(peer, n, Close(1)), c);
      case Deliver(n) =>
        ReactionQueued(polled, q, Delivery(n, s.conns[n].peer, s.conns[n].world.emitted[s.conns[n].delivered]), c);
      case _ =>
    }
  }

  /**
   In every run and for every connection, lost ones included: what the behaviour has said and will say
   to its handler is `Open` twice when it is established, `Close` twice when it is lost, and the
   answers to its handler's wishes, in the order of those events.
   */
  lemma {:induction false} BehaviourSays(ss: seq<System>, es: seq<Event>, k: nat, c: ConnectionId)
    requires SystemRun(ss, es) && k < |ss|
    ensures Queued(Polled(ss, es, k, c), ss[k].behaviour.events, c) == CalledFor(ss, es, k, c)
    decreases k
  {
    if k > 0 {
      var j := k - 1;
      BehaviourSays(ss, es, j, c);
      assert Performs(ss[j], es[j], ss[j + 1]);
      if es[j].SwarmPoll? {
        if ss[j].behaviour.events != [] {
          QueuedPop(Polled(ss, es, j, c), ss[j].behaviour.events, c);
        }
      } else {
        SayStep(Polled(ss, es, j, c), ss, es, j, c);
      }
    }
  }
}
