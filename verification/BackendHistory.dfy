/**
 What the driver learns, read off what the swarm reported: over every interleaving, the events the
 driver sees are the swarm's own, in order and with their peers, and it stops when those suffice.
 */
module BackendHistory {
  import opened Wrappers
  import opened Counting
  import opened Backend
  import opened BackendRuns

  /** What the swarm has reported in the first `k` steps. */
  function Given(acts: seq<Action>, k: nat): seq<SwarmEvent>
    requires k <= |acts|
  {
    if k == 0 then []
    else if acts[k - 1].TaskEvent? then Given(acts, k - 1) + [acts[k - 1].event]
    else Given(acts, k - 1)
  }

  /** How many of them the driver has polled for. */
  function Polls(acts: seq<Action>, k: nat): nat
    requires k <= |acts|
  {
    if k == 0 then 0 else Polls(acts, k - 1) + (if acts[k - 1].DriverPolls? then 1 else 0)
  }

  /** The peers an event makes known. */
  function PeersOf(e: SwarmEvent): set<PeerId> {
    match e
    case ClosestPeers(_, _, peers) => set p | p in peers
    case Identified(peer) => {peer}
    case _ => {}
  }

  /** The peers that the first `n` events make known. */
  ghost function Known(events: seq<SwarmEvent>, n: nat): set<PeerId>
    requires n <= |events|
  {
    set k, p | 0 <= k < n && p in PeersOf(events[k]) :: p
  }

  /** `find_node` returned `q` for the swarm's lookup `id`, before step `k`. */
  ghost predicate StandsFor(ws: seq<World>, acts: seq<Action>, k: nat, q: QueryId, id: KadId)
    requires k <= |acts| < |ws|
  {
    exists g :: 0 <= g < k && ReturnsAt(ws, acts, g, q, id)
  }

  ghost predicate ReturnsAt(ws: seq<World>, acts: seq<Action>, g: nat, q: QueryId, id: KadId)
    requires g < |acts| < |ws|
  {
    acts[g].DriverGets? && ws[g].backend.reply == Some(id) && ws[g].backend.nextQuery == q
  }

  // ---------------------------------------------------------------------------
  // The event channel
  // ---------------------------------------------------------------------------

  ghost predicate Channel(events: seq<SwarmEvent>, given: seq<SwarmEvent>, polls: nat) {
    polls <= |given| && events == given[polls..]
  }

  lemma ChannelStep(w: World, a: Action, given: seq<SwarmEvent>, polls: nat)
    requires Enabled(w, a) && Channel(w.backend.events, given, polls)
    ensures Channel(Step(w, a).backend.events,
                    if a.TaskEvent? then given + [a.event] else given,
                    if a.DriverPolls? then polls + 1 else polls)
  {
  }

  /** The channel holds what was reported and not yet polled for. */
  lemma {:induction false} ChannelHolds(ws: seq<World>, acts: seq<Action>, k: nat)
    requires Run(ws, acts) && k < |ws|
    ensures Channel(ws[k].backend.events, Given(acts, k), Polls(acts, k))
    decreases k
  {
    if k > 0 {
      var j := k - 1;
      ChannelHolds(ws, acts, j);
      assert StepTo(ws[j], acts[j], ws[j + 1]);
      ChannelStep(ws[j], acts[j], Given(acts, j), Polls(acts, j));
    }
  }

  /** A translation came from a call of `find_node`. */
  lemma {:induction false} TranslationsStand(ws: seq<World>, acts: seq<Action>, k: nat, id: KadId)
    requires Run(ws, acts) && k < |ws| && id in ws[k].backend.translate
    ensures StandsFor(ws, acts, k, ws[k].backend.translate[id], id)
    decreases k
  {
    if k > 0 {
      var j := k - 1;
      assert StepTo(ws[j], acts[j], ws[j + 1]);
      var b, b' := ws[j].backend, ws[k].backend;
      if id in b.translate && b'.translate[id] == b.translate[id] {
        TranslationsStand(ws, acts, j, id);
        var g :| 0 <= g < j && ReturnsAt(ws, acts, g, b.translate[id], id);
      } else {
        TranslationAdded(ws[j], acts[j], id);
        assert ReturnsAt(ws, acts, j, b'.translate[id], id);
      }
    }
  }

  lemma TranslationAdded(w: World, a: Action, id: KadId)
    requires Enabled(w, a) && id in Step(w, a).backend.translate
    requires id !in w.backend.translate || w.backend.translate[id] != Step(w, a).backend.translate[id]
    ensures a.DriverGets? && w.backend.reply == Some(id) && w.backend.nextQuery == Step(w, a).backend.translate[id]
  {
  }

  /** A poll takes the first reported event not yet polled for, and can translate it. */
  lemma HeadIsNext(ws: seq<World>, acts: seq<Action>, k: nat)
    requires Run(ws, acts) && k < |acts| && acts[k].DriverPolls?
    ensures Polls(acts, k) < |Given(acts, k)| && Translatable(ws[k].backend)
    ensures ws[k].backend.events != [] && ws[k].backend.events[0] == Given(acts, k)[Polls(acts, k)]
  {
    assert StepTo(ws[k], acts[k], ws[k + 1]);
    ChannelHolds(ws, acts, k);
    RunInv(ws, acts, k);
    HeadTranslates(ws[k].backend);
  }

  /** What a poll must make of an event of the swarm. */
  ghost predicate Reports(ws: seq<World>, acts: seq<Action>, k: nat, e: SwarmEvent, outcome: PollOutcome)
    requires k <= |acts| < |ws|
  {
    match e
    case ClosestPeers(id, target, peers) =>
      && outcome.Seen? && outcome.event.NodeFound?
      && outcome.event.target == target && outcome.event.peers == peers
      && StandsFor(ws, acts, k, outcome.event.query, id)
    case Identified(peer) => outcome == Seen(PeerIdentified(peer))
    case Routable(_, _) => outcome == Waiting
    case OtherEvent => outcome == Waiting
  }

  /**
   In every run the n-th poll reports the n-th event of the swarm: an answer with the target and all
   the peers the swarm gave, under the id that `find_node` returned for that very lookup.
   */
  lemma PollReports(ws: seq<World>, acts: seq<Action>, k: nat)
    requires Run(ws, acts) && k < |acts| && acts[k].DriverPolls?
    ensures Polls(acts, k) < |Given(acts, k)|
    ensures Reports(ws, acts, k, Given(acts, k)[Polls(acts, k)], PollNext(ws[k].backend).1)
  {
    HeadIsNext(ws, acts, k);
    var b := ws[k].backend;
    if b.events[0].ClosestPeers? {
      TranslationsStand(ws, acts, k, b.events[0].id);
    }
  }

  // ---------------------------------------------------------------------------
  // The driver
  // ---------------------------------------------------------------------------

  lemma KnownNext(events: seq<SwarmEvent>, n: nat)
    requires n < |events|
    ensures Known(events, n + 1) == Known(events, n) + PeersOf(events[n])
  {
    forall p | p in Known(events, n) + PeersOf(events[n])
      ensures p in Known(events, n + 1)
    {
      if p in Known(events, n) {
        var k :| 0 <= k < n && p in PeersOf(events[k]);
        assert p in PeersOf(events[k]);
      }
    }
  }

  lemma KnownPrefix(events: seq<SwarmEvent>, more: seq<SwarmEvent>, n: nat)
    requires n <= |events| && events <= more
    ensures Known(events, n) == Known(more, n)
  {
    assert forall k :: 0 <= k < n ==> events[k] == more[k];
  }

  /** A poll adds to the driver's peers those of the event it took. */
  lemma PollLearns(w: World)
    requires Enabled(w, DriverPolls) && Translatable(w.backend)
    ensures Step(w, DriverPolls).driver.peers == w.driver.peers + PeersOf(w.backend.events[0])
  {
  }

  /** The driver knows exactly the peers of the events it polled for: identified ones and those of all answers. */
  lemma {:induction false} DriverKnows(ws: seq<World>, acts: seq<Action>, k: nat)
    requires Run(ws, acts) && k < |ws|
    ensures Polls(acts, k) <= |Given(acts, k)|
    ensures ws[k].driver.peers == Known(Given(acts, k), Polls(acts, k))
    decreases k
  {
    if k > 0 {
      var j := k - 1;
      DriverKnows(ws, acts, j);
      assert StepTo(ws[j], acts[j], ws[j + 1]);
      ChannelHolds(ws, acts, j);
      if acts[j].DriverPolls? {
        HeadIsNext(ws, acts, j);
        PollLearns(ws[j]);
        KnownNext(Given(acts, j), Polls(acts, j));
      } else {
        KnownPrefix(Given(acts, j), Given(acts, k), Polls(acts, j));
      }
    } else {
      var n :| ws[0] == Begin(n);
    }
  }

  lemma KnownAfterPoll(ws: seq<World>, acts: seq<Action>, k: nat)
    requires Run(ws, acts) && k < |acts| && acts[k].DriverPolls? && Polls(acts, k) < |Given(acts, k)|
    ensures ws[k + 1].driver.peers == Known(Given(acts, k), Polls(acts, k) + 1)
  {
    DriverKnows(ws, acts, k);
    HeadIsNext(ws, acts, k);
    PollLearns(ws[k]);
    KnownNext(Given(acts, k), Polls(acts, k));
    assert StepTo(ws[k], acts[k], ws[k + 1]);
  }

  /** The event tells the driver something. */
  predicate Telling(e: SwarmEvent) {
    e.ClosestPeers? || e.Identified?
  }

  /** Where the driver is after an event, by what it then knows and has in flight. */
  lemma SawDecides(d: Driver, event: NetworkEvent, numPeers: nat)
    ensures var d' := Saw(d, event, numPeers);
            && (d'.phase.Finished? <==> |d'.peers| >= numPeers)
            && (d'.phase.Listening? <==> |d'.peers| < numPeers && |d'.queries| >= MAX_IN_FLIGHT)
            && (d'.phase.Filling? <==> |d'.peers| < numPeers && |d'.queries| < MAX_IN_FLIGHT)
  {
  }

  lemma PollDecides(w: World)
    requires Enabled(w, DriverPolls) && Translatable(w.backend)
    ensures var d := Step(w, DriverPolls).driver;
            if Telling(w.backend.events[0])
            then (d.phase.Finished? <==> |d.peers| >= w.numPeers)
                 && (d.phase.Listening? <==> |d.peers| < w.numPeers && |d.queries| >= MAX_IN_FLIGHT)
                 && (d.phase.Filling? <==> |d.peers| < w.numPeers && |d.queries| < MAX_IN_FLIGHT)
            else d == w.driver
  {
    if PollNext(w.backend).1.Seen? {
      SawDecides(w.driver, PollNext(w.backend).1.event, w.numPeers);
    }
  }

  lemma {:induction false} GoalStays(ws: seq<World>, acts: seq<Action>, k: nat)
    requires Run(ws, acts) && k < |ws|
    ensures ws[k].numPeers == ws[0].numPeers
    decreases k
  {
    if k > 0 {
      GoalStays(ws, acts, k - 1);
      assert StepTo(ws[k - 1], acts[k - 1], ws[k - 1 + 1]);
    }
  }

  /**
   The exit test, in every run: a poll that tells the driver something ends the discovery exactly if
   the events polled for so far make known as many peers as were asked for.
   */
  lemma DriverStopsInTime(ws: seq<World>, acts: seq<Action>, k: nat)
    requires Run(ws, acts) && k < |acts| && acts[k].DriverPolls?
    ensures Polls(acts, k) < |Given(acts, k)|
    ensures if Telling(Given(acts, k)[Polls(acts, k)])
            then ws[k + 1].driver.phase.Finished? <==>
                 |Known(Given(acts, k), Polls(acts, k) + 1)| >= ws[0].numPeers
            else ws[k + 1].driver == ws[k].driver
  {
    assert StepTo(ws[k], acts[k], ws[k + 1]);
    HeadIsNext(ws, acts, k);
    PollDecides(ws[k]);
    KnownAfterPoll(ws, acts, k);
    GoalStays(ws, acts, k);
  }

  /** The driver has been told something in the first `k` steps. */
  ghost predicate ToldSomething(acts: seq<Action>, k: nat)
    requires k <= |acts|
  {
    exists n :: 0 <= n < Polls(acts, k) && n < |Given(acts, k)| && Telling(Given(acts, k)[n])
  }

  /** Where the driver is, by how much it has started and whether it was told something. */
  ghost predicate Pacing(d: Driver, told: bool) {
    match d.phase
    case Seeding(left) => !told && d.started + left == SEED_QUERIES && left > 0
    case Listening => d.started >= SEED_QUERIES && (told ==> |d.queries| >= MAX_IN_FLIGHT)
    case Filling => told && d.started >= SEED_QUERIES && |d.queries| < MAX_IN_FLIGHT
    case Finished => d.started >= SEED_QUERIES
    case Crashed => true
  }

  lemma StepPaces(w: World, a: Action, told: bool)
    requires Inv(w) && Enabled(w, a) && Pacing(w.driver, told) && (a.DriverPolls? ==> Translatable(w.backend))
    ensures Pacing(Step(w, a).driver, told || (a.DriverPolls? && Telling(w.backend.events[0])))
  {
    match a {
      case DriverGets => StartedPaces(w.driver, w.backend.nextQuery, told);
      case DriverPolls => PollDecides(w);
      case _ =>
    }
  }

  lemma StartedPaces(d: Driver, id: QueryId, told: bool)
    requires Pacing(d, told) && Wants(d)
    ensures Pacing(Started(d, id), told)
  {
  }

  lemma ToldNext(acts: seq<Action>, k: nat)
    requires k < |acts| && Polls(acts, k) <= |Given(acts, k)|
    requires acts[k].DriverPolls? ==> Polls(acts, k) < |Given(acts, k)|
    ensures ToldSomething(acts, k + 1) <==>
            ToldSomething(acts, k) || (acts[k].DriverPolls? && Telling(Given(acts, k)[Polls(acts, k)]))
  {
    var given, given' := Given(acts, k), Given(acts, k + 1);
    assert forall n :: 0 <= n < |given| ==> given'[n] == given[n];
    if ToldSomething(acts, k) {
      var n :| 0 <= n < Polls(acts, k) && n < |given| && Telling(given[n]);
      assert Telling(given'[n]);
    }
    if ToldSomething(acts, k + 1) {
      var n :| 0 <= n < Polls(acts, k + 1) && n < |given'| && Telling(given'[n]);
      assert n < |given| && Telling(given[n]);
    }
  }

  /**
   In every run, the driver starts ten lookups before it listens, and once it was told something it
   listens only with fifty in flight: a lookup that ends is replaced before the next event.
   */
  lemma {:induction false} DriverKeepsPace(ws: seq<World>, acts: seq<Action>, k: nat)
    requires Run(ws, acts) && k < |ws|
    ensures Pacing(ws[k].driver, ToldSomething(acts, k))
    decreases k
  {
    if k > 0 {
      var j := k - 1;
      DriverKeepsPace(ws, acts, j);
      RunInv(ws, acts, j);
      DriverKnows(ws, acts, j);
      assert StepTo(ws[j], acts[j], ws[j + 1]);
      if acts[j].DriverPolls? { HeadIsNext(ws, acts, j); }
      ToldNext(acts, j);
      StepPaces(ws[j], acts[j], ToldSomething(acts, j));
    } else {
      var n :| ws[0] == Begin(n);
    }
  }

  // ---------------------------------------------------------------------------
  // Addresses for the swarm
  // ---------------------------------------------------------------------------

  /** How often the first `k` steps asked for an address to be added: by the driver or by a routable peer polled for. */
  ghost function Asked(ws: seq<World>, acts: seq<Action>, k: nat, peer: PeerId, address: Multiaddr): nat
    requires k <= |acts| < |ws|
  {
    if k == 0 then 0
    else
      var a, events := acts[k - 1], ws[k - 1].backend.events;
      Asked(ws, acts, k - 1, peer, address)
      + One(a == DriverAdds(peer, address) || (a.DriverPolls? && events != [] && events[0] == Routable(peer, address)))
  }

  /** How often the swarm was told. */
  ghost function Added(ws: seq<World>, acts: seq<Action>, k: nat, peer: PeerId, address: Multiaddr): nat
    requires k <= |acts| < |ws|
  {
    if k == 0 then 0
    else
      var commands := ws[k - 1].backend.commands;
      Added(ws, acts, k - 1, peer, address)
      + One(acts[k - 1].TaskCommand? && commands != [] && commands[0] == AddKnownAddress(peer, address))
  }

  /** Commands for this address that are under way. */
  ghost function Underway(b: Backend, c: Command): nat {
    Count(b.commands, c) + Count(b.pendingActions, c)
  }

  lemma CommandUnderway(b: Backend, c: Command)
    requires b.commands != []
    ensures Underway(HandleCommand(b), c) + One(b.commands[0] == c) == Underway(b, c)
  {
    CountPop(b.commands, c);
  }

  lemma ActionUnderway(b: Backend, k: nat, c: Command)
    requires k < |b.pendingActions|
    ensures Underway(RunAction(b, k), c) == Underway(b, c)
  {
    CountPush(b.commands, b.pendingActions[k], c);
    CountRemove(b.pendingActions, k, c);
  }

  lemma PollUnderway(b: Backend, peer: PeerId, address: Multiaddr)
    requires b.events != []
    ensures var c := AddKnownAddress(peer, address);
            Underway(PollNext(b).0, c) == Underway(b, c) + One(b.events[0] == Routable(peer, address))
  {
    if b.events[0].Routable? {
      var added := AddKnownAddress(b.events[0].peer, b.events[0].address);
      CountPush(b.pendingActions, added, AddKnownAddress(peer, address));
    }
  }

  /** What a step does to the commands for one address: tell the swarm of one, or ask for one more. */
  lemma StepUnderway(w: World, a: Action, peer: PeerId, address: Multiaddr)
    requires Enabled(w, a)
    ensures var c := AddKnownAddress(peer, address);
            Underway(Step(w, a).backend, c)
            + One(a.TaskCommand? && w.backend.commands[0] == c)
            == Underway(w.backend, c)
               + One(|| a == DriverAdds(peer, address)
                     || (a.DriverPolls? && w.backend.events[0] == Routable(peer, address)))
  {
    var b, c := w.backend, AddKnownAddress(peer, address);
    match a {
      case TaskCommand => CommandUnderway(b, c);
      case ActionRuns(k) => ActionUnderway(b, k, c);
      case DriverAsks(target) => CountPush(b.commands, FindNode(target), c);
      case DriverAdds(p, x) => CountPush(b.commands, AddKnownAddress(p, x), c);
      case DriverPolls => PollUnderway(b, peer, address);
      case _ =>
    }
  }

  /** No address is lost or made up on its way to the swarm: asked for = told to the swarm + under way. */
  lemma {:induction false} AddressesReachTheSwarm(
    ws: seq<World>, acts: seq<Action>, k: nat, peer: PeerId, address: Multiaddr)
    requires Run(ws, acts) && k < |ws|
    ensures Asked(ws, acts, k, peer, address) ==
            Added(ws, acts, k, peer, address) + Underway(ws[k].backend, AddKnownAddress(peer, address))
    decreases k
  {
    if k > 0 {
      var j := k - 1;
      AddressesReachTheSwarm(ws, acts, j, peer, address);
      assert StepTo(ws[j], acts[j], ws[j + 1]);
      StepUnderway(ws[j], acts[j], peer, address);
    } else {
      var n :| ws[0] == Begin(n);
    }
  }
}
