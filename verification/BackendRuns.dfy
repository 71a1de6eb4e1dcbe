/**
 Whole runs of the backend under the benchmark driver: every interleaving of the background task,
 the swarm and the caller. Model of `discovery` in bench-cli/src/discovery_backends.rs.
 */
module BackendRuns {
  import opened Wrappers
  import opened Backend

  const SEED_QUERIES: nat := 10
  const MAX_IN_FLIGHT: nat := 50

  /** Where the driver is: issuing the first queries, waiting for an event, topping up, done, or gone in a panic. */
  datatype Phase = Seeding(left: nat) | Listening | Filling | Finished | Crashed

  datatype Driver = Driver(phase: Phase, queries: set<QueryId>, completed: nat, started: nat, peers: set<PeerId>)

  datatype World = World(backend: Backend, driver: Driver, numPeers: nat)

  function Begin(numPeers: nat): World {
    World(LAUNCHED, Driver(Seeding(SEED_QUERIES), {}, 0, 0, {}), numPeers)
  }

  datatype Action =
    | TaskCommand
    | TaskEvent(event: SwarmEvent)
    | ActionRuns(k: nat)
    | DriverAsks(target: PeerId)
    | DriverGets
    | DriverAdds(peer: PeerId, address: Multiaddr)
    | DriverPolls
    | DriverStops

  /** The driver wants to start another query. */
  predicate Wants(d: Driver) {
    (d.phase.Seeding? && d.phase.left > 0) || (d.phase.Filling? && |d.queries| < MAX_IN_FLIGHT)
  }

  /** The swarm reports the end of a lookup once, with the lookup's own target. */
  predicate Enabled(w: World, a: Action) {
    var b := w.backend;
    match a
    case TaskCommand => b.commands != []
    case TaskEvent(e) => e.ClosestPeers? ==> e.id in b.running && b.running[e.id] == e.target
    case ActionRuns(k) => k < |b.pendingActions| && b.caller.Idle?
    case DriverAsks(_) => b.caller.Idle? && Wants(w.driver)
    case DriverGets => b.caller.Awaiting? && b.reply.Some?
    case DriverAdds(_, _) => b.caller.Idle?
    case DriverPolls => b.caller.Idle? && w.driver.phase.Listening? && b.events != []
    case DriverStops => b.caller.Idle? && w.driver.phase.Listening?
  }

  /** The next thing to do once nothing more is wanted. */
  function Settle(d: Driver): Driver {
    match d.phase
    case Seeding(left) => if left == 0 then d.(phase := Listening) else d
    case Filling => if |d.queries| < MAX_IN_FLIGHT then d else d.(phase := Listening)
    case _ => d
  }

  function Started(d: Driver, id: QueryId): Driver {
    Settle(d.(queries := d.queries + {id}, started := d.started + 1,
              phase := if d.phase.Seeding? && d.phase.left > 0 then Seeding(d.phase.left - 1) else d.phase))
  }

  function Saw(d: Driver, event: NetworkEvent, numPeers: nat): Driver {
    var d' := match event
      case PeerIdentified(peer) => d.(peers := d.peers + {peer})
      case NodeFound(id, _, peers) =>
        d.(queries := d.queries - {id}, completed := d.completed + (if id in d.queries then 1 else 0),
           peers := d.peers + set p | p in peers);
    if |d'.peers| >= numPeers then d'.(phase := Finished) else Settle(d'.(phase := Filling))
  }

  function Step(w: World, a: Action): World
    requires Enabled(w, a)
  {
    match a
    case TaskCommand => w.(backend := HandleCommand(w.backend))
    case TaskEvent(e) => w.(backend := ForwardEvent(w.backend, e))
    case ActionRuns(k) => w.(backend := RunAction(w.backend, k))
    case DriverAsks(target) => w.(backend := SendFindNode(w.backend, target))
    case DriverGets =>
      var (b, id) := ReceiveQueryId(w.backend);
      w.(backend := b, driver := Started(w.driver, id))
    case DriverAdds(peer, address) => w.(backend := AddKnown(w.backend, peer, address))
    case DriverPolls =>
      var (b, outcome) := PollNext(w.backend);
      w.(backend := b,
         driver := match outcome
                   case Waiting => w.driver
                   case Seen(event) => Saw(w.driver, event, w.numPeers)
                   case Panicked => w.driver.(phase := Crashed))
    case DriverStops => w.(driver := w.driver.(phase := Finished))
  }

  // ---------------------------------------------------------------------------
  // The invariant
  // ---------------------------------------------------------------------------

  /** Lookups whose end has not reached the caller: running, or reported in the event channel. */
  ghost predicate Unseen(running: map<KadId, PeerId>, events: seq<SwarmEvent>, id: KadId, target: PeerId) {
    (id in running && running[id] == target)
    || exists k :: 0 <= k < |events| && events[k].ClosestPeers? && events[k].id == id && events[k].target == target
  }

  /** A lookup is in one place only, and in the event channel once. */
  ghost predicate Once(b: Backend) {
    && (forall id :: id in b.running ==> id < b.nextKad)
    && (forall k :: 0 <= k < |b.events| && b.events[k].ClosestPeers? ==>
          b.events[k].id < b.nextKad && b.events[k].id !in b.running)
    && (forall j, k :: 0 <= j < k < |b.events| && b.events[j].ClosestPeers? && b.events[k].ClosestPeers? ==>
          b.events[j].id != b.events[k].id)
  }

  /** Lookup commands in the channel. */
  function Lookups(q: seq<Command>): seq<PeerId> {
    if q == [] then []
    else if q[0].FindNode? then [q[0].target] + Lookups(q[1..])
    else Lookups(q[1..])
  }

  /** The one call under way is either still a command or already answered. */
  ghost predicate OneCall(b: Backend) {
    match b.caller
    case Idle => b.reply.None? && Lookups(b.commands) == []
    case Awaiting(target) =>
      if b.reply.Some? then Lookups(b.commands) == [] else Lookups(b.commands) == [target]
  }

  /** Each unseen lookup can be translated, or is the one whose id is on its way to the caller. */
  ghost predicate Translated(b: Backend) {
    && (forall id, target :: Unseen(b.running, b.events, id, target) ==>
          if b.reply == Some(id) then b.caller == Awaiting(target) && id !in b.translate
          else id in b.translate && b.translate[id] in b.returned && b.returned[b.translate[id]] == target)
    && (forall id :: id in b.translate ==> id < b.nextKad)
    && (b.reply.Some? ==> b.reply.value < b.nextKad && b.reply.value !in b.translate)
  }

  ghost predicate Injective(m: map<KadId, QueryId>) {
    forall i, j :: i in m && j in m && i != j ==> m[i] != m[j]
  }

  /** The ids given out: each is awaited or was reported, once, and never both. */
  ghost predicate IdsOk(b: Backend) {
    && (forall q: QueryId :: q in b.returned <==> q < b.nextQuery)
    && (forall id :: id in b.translate ==> b.translate[id] < b.nextQuery)
    && Injective(b.translate)
    && (forall k :: 0 <= k < |b.reported| ==>
          b.reported[k].0 in b.returned && b.returned[b.reported[k].0] == b.reported[k].1
          && b.reported[k].0 !in b.translate.Values)
    && (forall j, k :: 0 <= j < k < |b.reported| ==> b.reported[j].0 != b.reported[k].0)
  }

  ghost predicate ActionsOk(b: Backend) {
    forall k :: 0 <= k < |b.pendingActions| ==> b.pendingActions[k].AddKnownAddress?
  }

  ghost predicate BackendInv(b: Backend) {
    Once(b) && OneCall(b) && Translated(b) && IdsOk(b) && ActionsOk(b)
  }

  /** The driver's books: it tracks exactly the ids it was given and has not seen reported. */
  ghost predicate DriverInv(w: World) {
    && w.driver.queries == w.backend.translate.Values
    && w.driver.started == w.driver.completed + |w.driver.queries|
    && w.driver.completed == |w.backend.reported|
    && |w.driver.queries| <= MAX_IN_FLIGHT
    && (w.driver.phase.Seeding? ==> |w.driver.queries| + w.driver.phase.left <= SEED_QUERIES)
    && (w.backend.caller.Awaiting? ==> Wants(w.driver))
    && !w.driver.phase.Crashed?
  }

  // ---------------------------------------------------------------------------
  // The backend, step by step
  // ---------------------------------------------------------------------------

  lemma {:induction false} LookupsAppend(p: seq<Command>, q: seq<Command>)
    ensures Lookups(p + q) == Lookups(p) + Lookups(q)
  {
    if p == [] {
      assert p + q == q;
    } else {
      LookupsAppend(p[1..], q);
      assert (p + q)[1..] == p[1..] + q;
    }
  }

  lemma LookupsOne(c: Command)
    ensures Lookups([c]) == if c.FindNode? then [c.target] else []
  {
    assert [c][1..] == [];
  }

  lemma CommandInv(b: Backend)
    requires BackendInv(b) && b.commands != []
    ensures BackendInv(HandleCommand(b))
  {
    var b' := HandleCommand(b);
    if b.commands[0].FindNode? {
      assert Lookups(b.commands)[0] == b.commands[0].target;
      forall id, target | Unseen(b'.running, b'.events, id, target)
        ensures if b'.reply == Some(id) then b'.caller == Awaiting(target) && id !in b'.translate
                else id in b'.translate && b'.translate[id] in b'.returned && b'.returned[b'.translate[id]] == target
      {
        if id != b.nextKad {
          assert Unseen(b.running, b.events, id, target);
        }
      }
    } else {
      forall id, target | Unseen(b'.running, b'.events, id, target)
        ensures Unseen(b.running, b.events, id, target)
      {
      }
    }
  }

  lemma EventInv(b: Backend, e: SwarmEvent)
    requires BackendInv(b) && (e.ClosestPeers? ==> e.id in b.running && b.running[e.id] == e.target)
    ensures BackendInv(ForwardEvent(b, e))
  {
    var b' := ForwardEvent(b, e);
    forall id, target | Unseen(b'.running, b'.events, id, target)
      ensures Unseen(b.running, b.events, id, target)
    {
      if !(id in b'.running && b'.running[id] == target) {
        var k :| 0 <= k < |b'.events| && b'.events[k].ClosestPeers? && b'.events[k].id == id
                 && b'.events[k].target == target;
        assert k < |b.events| ==> b'.events[k] == b.events[k];
      }
    }
  }

  lemma CommandsGrow(b: Backend, c: Command, target: PeerId)
    requires BackendInv(b) && b.caller.Idle?
    ensures c.AddKnownAddress? ==> BackendInv(b.(commands := b.commands + [c]))
    ensures c == FindNode(target) ==> BackendInv(b.(commands := b.commands + [c], caller := Awaiting(target)))
  {
    LookupsAppend(b.commands, [c]);
    LookupsOne(c);
  }

  lemma ReceiveInv(b: Backend)
    requires BackendInv(b) && b.caller.Awaiting? && b.reply.Some?
    ensures BackendInv(ReceiveQueryId(b).0)
  {
  }

  predicate Translatable(b: Backend) {
    b.events != [] && b.events[0].ClosestPeers? ==> b.events[0].id in b.translate
  }

  /** An event at the head of the channel can always be translated: `poll_next` never panics on it. */
  lemma HeadTranslates(b: Backend)
    requires Translated(b) && b.reply.None?
    ensures Translatable(b) && !PollNext(b).1.Panicked?
    ensures b.events != [] && b.events[0].ClosestPeers? ==>
              var id := b.events[0].id;
              b.translate[id] in b.returned && b.returned[b.translate[id]] == b.events[0].target
  {
    if b.events != [] && b.events[0].ClosestPeers? {
      assert Unseen(b.running, b.events, b.events[0].id, b.events[0].target);
    }
  }

  lemma PollOnce(b: Backend)
    requires Once(b) && Translatable(b)
    ensures Once(PollNext(b).0)
  {
  }

  /** What is unseen after a poll was unseen before, and is not what the poll reported. */
  lemma PollUnseen(b: Backend, id: KadId, target: PeerId)
    requires Once(b) && Translatable(b) && b.events != []
    requires Unseen(PollNext(b).0.running, PollNext(b).0.events, id, target)
    ensures Unseen(b.running, b.events, id, target) && (b.events[0].ClosestPeers? ==> id != b.events[0].id)
  {
    var rest := b.events[1..];
    if !(id in b.running && b.running[id] == target) {
      var k :| 0 <= k < |rest| && rest[k].ClosestPeers? && rest[k].id == id && rest[k].target == target;
      assert rest[k] == b.events[k + 1];
    }
  }

  lemma PollTranslated(b: Backend)
    requires Once(b) && Translated(b) && b.reply.None? && Translatable(b)
    ensures Translated(PollNext(b).0)
  {
    var b' := PollNext(b).0;
    if b.events != [] {
      forall id, target | Unseen(b'.running, b'.events, id, target)
        ensures id in b'.translate && b'.translate[id] in b'.returned && b'.returned[b'.translate[id]] == target
      {
        PollUnseen(b, id, target);
      }
    }
  }

  lemma PollIds(b: Backend)
    requires IdsOk(b) && Translated(b) && b.reply.None? && Translatable(b)
    ensures IdsOk(PollNext(b).0)
  {
    HeadTranslates(b);
    if b.events != [] && b.events[0].ClosestPeers? {
      ReportIds(b, b.events[0].id, b.events[0].target);
    }
  }

  lemma ReportIds(b: Backend, id: KadId, target: PeerId)
    requires IdsOk(b) && id in b.translate
    requires b.translate[id] in b.returned && b.returned[b.translate[id]] == target
    ensures IdsOk(b.(translate := b.translate - {id}, reported := b.reported + [(b.translate[id], target)]))
  {
    ValuesWithout(b.translate, id);
    assert b.translate[id] in b.translate.Values;
  }

  /** Taking one entry out of an injective map takes its value out of the range. */
  lemma ValuesWithout(m: map<KadId, QueryId>, id: KadId)
    requires id in m && Injective(m)
    ensures (m - {id}).Values == m.Values - {m[id]}
    ensures |m.Values| == |(m - {id}).Values| + 1
  {
    var m' := m - {id};
    forall q | q in m.Values - {m[id]}
      ensures q in m'.Values
    {
      var i :| i in m && m[i] == q;
      assert m'[i] == q;
    }
    assert m[id] in m.Values;
  }

  lemma ValuesWith(m: map<KadId, QueryId>, id: KadId, q: QueryId)
    requires id !in m
    ensures m[id := q].Values == m.Values + {q}
  {
    var m' := m[id := q];
    forall x | x in m.Values
      ensures x in m'.Values
    {
      var i :| i in m && m[i] == x;
      assert m'[i] == x;
    }
    assert m'[id] == q;
  }

  lemma PollInv(b: Backend)
    requires BackendInv(b) && b.caller.Idle?
    ensures BackendInv(PollNext(b).0)
  {
    HeadTranslates(b);
    PollOnce(b);
    PollTranslated(b);
    PollIds(b);
  }

  lemma ActionInv(b: Backend, k: nat)
    requires BackendInv(b) && b.caller.Idle? && k < |b.pendingActions|
    ensures BackendInv(RunAction(b, k))
  {
    CommandsGrow(b, b.pendingActions[k], 0);
  }

  // ---------------------------------------------------------------------------
  // Backend and driver together
  // ---------------------------------------------------------------------------

  ghost predicate Inv(w: World) {
    BackendInv(w.backend) && DriverInv(w)
  }

  lemma StepBackend(w: World, a: Action)
    requires Inv(w) && Enabled(w, a)
    ensures BackendInv(Step(w, a).backend)
  {
    var b := w.backend;
    match a {
      case TaskCommand => CommandInv(b);
      case TaskEvent(e) => EventInv(b, e);
      case ActionRuns(k) => ActionInv(b, k);
      case DriverAsks(target) => CommandsGrow(b, FindNode(target), target);
      case DriverGets => ReceiveInv(b);
      case DriverAdds(peer, address) => CommandsGrow(b, AddKnownAddress(peer, address), 0);
      case DriverPolls => PollInv(b);
      case DriverStops =>
    }
  }

  lemma GetsDriver(w: World)
    requires Inv(w) && Enabled(w, DriverGets)
    ensures DriverInv(Step(w, DriverGets))
  {
    var b := w.backend;
    ValuesWith(b.translate, b.reply.value, b.nextQuery);
    assert b.nextQuery !in b.translate.Values;
  }

  /** A poll that reports an answer forgets its id. */
  lemma PollForgets(b: Backend, id: KadId)
    requires b.events != [] && b.events[0].ClosestPeers? && id == b.events[0].id && id in b.translate
    requires Injective(b.translate)
    ensures PollNext(b).1.Seen? && PollNext(b).1.event.NodeFound? && PollNext(b).1.event.query == b.translate[id]
    ensures b.translate[id] in b.translate.Values
    ensures PollNext(b).0.translate.Values == b.translate.Values - {b.translate[id]}
    ensures |PollNext(b).0.reported| == |b.reported| + 1 && PollNext(b).0.caller == b.caller
  {
    ValuesWithout(b.translate, id);
    assert PollNext(b).0.translate == b.translate - {id};
  }

  /** The driver's books after an answer it waited for. */
  lemma SawAnswer(d: Driver, event: NetworkEvent, numPeers: nat)
    requires event.NodeFound? && event.query in d.queries && |d.queries| <= MAX_IN_FLIGHT
    ensures var d' := Saw(d, event, numPeers);
            && d'.queries == d.queries - {event.query} && |d'.queries| == |d.queries| - 1
            && d'.completed == d.completed + 1 && d'.started == d.started
            && !d'.phase.Crashed? && !d'.phase.Seeding?
  {
  }

  lemma {:induction false} PollsDriver(w: World)
    requires IdsOk(w.backend) && DriverInv(w) && Enabled(w, DriverPolls) && Translatable(w.backend)
    ensures DriverInv(Step(w, DriverPolls))
  {
    var b := w.backend;
    if b.events[0].ClosestPeers? {
      PollForgets(b, b.events[0].id);
      SawAnswer(w.driver, PollNext(b).1.event, w.numPeers);
    }
  }

  lemma StepInv(w: World, a: Action)
    requires Inv(w) && Enabled(w, a)
    ensures Inv(Step(w, a))
  {
    StepBackend(w, a);
    match a {
      case DriverGets => GetsDriver(w);
      case DriverPolls =>
        HeadTranslates(w.backend);
        PollsDriver(w);
      case _ =>
    }
  }

  ghost predicate StepTo(w: World, a: Action, w': World) {
    Enabled(w, a) && w' == Step(w, a)
  }

  ghost predicate Run(ws: seq<World>, acts: seq<Action>) {
    && |ws| == |acts| + 1
    && (exists n :: ws[0] == Begin(n))
    && forall k {:trigger acts[k]} :: 0 <= k < |acts| ==> StepTo(ws[k], acts[k], ws[k + 1])
  }

  lemma {:induction false} RunInv(ws: seq<World>, acts: seq<Action>, k: nat)
    requires Run(ws, acts) && k < |ws|
    ensures Inv(ws[k])
  {
    if k > 0 {
      RunInv(ws, acts, k - 1);
      assert StepTo(ws[k - 1], acts[k - 1], ws[k - 1 + 1]);
      StepInv(ws[k - 1], acts[k - 1]);
    } else {
      var n :| ws[0] == Begin(n);
      assert LAUNCHED.translate.Values == {};
    }
  }

  // ---------------------------------------------------------------------------
  // Theorems about every interleaving
  // ---------------------------------------------------------------------------

  /**
   No run crashes: whenever the caller may poll, the poll does not panic, and an answer it reports
   carries the id `find_node` returned for its target, not reported before.
   */
  lemma PollNeverMeetsUnknownId(ws: seq<World>, acts: seq<Action>, k: nat)
    requires Run(ws, acts) && k < |ws|
    ensures !ws[k].driver.phase.Crashed?
    ensures ws[k].backend.caller.Idle? ==>
              var b, outcome := ws[k].backend, PollNext(ws[k].backend).1;
              && !outcome.Panicked?
              && (outcome.Seen? && outcome.event.NodeFound? ==>
                    && outcome.event.query in b.returned
                    && b.returned[outcome.event.query] == outcome.event.target
                    && forall j :: 0 <= j < |b.reported| ==> b.reported[j].0 != outcome.event.query)
  {
    RunInv(ws, acts, k);
    var b := ws[k].backend;
    if b.caller.Idle? {
      HeadTranslates(b);
      if b.events != [] && b.events[0].ClosestPeers? {
        assert b.translate[b.events[0].id] in b.translate.Values;
      }
    }
  }

  /** Each reported id was returned by `find_node` for that target, and no id is reported twice. */
  lemma ReportedOnce(ws: seq<World>, acts: seq<Action>, k: nat, i: nat, j: nat)
    requires Run(ws, acts) && k < |ws| && i < |ws[k].backend.reported| && j < |ws[k].backend.reported|
    ensures var (q, target) := ws[k].backend.reported[i];
            q in ws[k].backend.returned && ws[k].backend.returned[q] == target
    ensures ws[k].backend.reported[i].0 == ws[k].backend.reported[j].0 ==> i == j
  {
    RunInv(ws, acts, k);
    var r := ws[k].backend.reported;
    assert i < j ==> r[i].0 != r[j].0;
    assert j < i ==> r[j].0 != r[i].0;
  }

  /** The driver's accounting: started = completed + in flight, and at most 50 in flight. */
  lemma DriverAccounting(ws: seq<World>, acts: seq<Action>, k: nat)
    requires Run(ws, acts) && k < |ws|
    ensures ws[k].driver.started == ws[k].driver.completed + |ws[k].driver.queries|
    ensures |ws[k].driver.queries| <= 50
    ensures ws[k].driver.completed == |ws[k].backend.reported|
    ensures forall q :: q in ws[k].driver.queries ==> q in ws[k].backend.returned
  {
    RunInv(ws, acts, k);
  }
}
