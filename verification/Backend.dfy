/**
 The libp2p backend: a background task that owns the swarm, and the caller's side that talks to it
 through a command channel, a oneshot reply and an event channel, translating query ids.
 Every function is the code between two suspension points. Model of `Libp2pBackend` in
 subp2p-explorer-core/src/libp2p.rs.
 */
module Backend {
  import opened Wrappers

  type KadId = nat
  type QueryId = nat

  datatype Command = AddKnownAddress(peer: PeerId, address: Multiaddr) | FindNode(target: PeerId)

  datatype SwarmEvent =
    | ClosestPeers(id: KadId, target: PeerId, peers: seq<PeerId>)
    | Identified(peer: PeerId)
    | Routable(peer: PeerId, address: Multiaddr)
    | OtherEvent

  datatype NetworkEvent =
    | PeerIdentified(peer: PeerId)
    | NodeFound(query: QueryId, target: PeerId, peers: seq<PeerId>)

  /** How a poll ends; it panics when it unwraps a translation that is not there. */
  datatype PollOutcome = Waiting | Seen(event: NetworkEvent) | Panicked

  /** `find_node` is suspended on the oneshot, or no call is under way. */
  datatype Caller = Idle | Awaiting(target: PeerId)

  /**
   `running` are the swarm's lookups and their targets, `nextKad` its supply of ids. History:
   `returned` the target each id was returned for, `reported` the ids and targets reported.
   */
  datatype Backend = Backend(
    commands: seq<Command>,
    running: map<KadId, PeerId>,
    nextKad: KadId,
    events: seq<SwarmEvent>,
    translate: map<KadId, QueryId>,
    nextQuery: QueryId,
    caller: Caller,
    reply: Option<KadId>,
    pendingActions: seq<Command>,
    returned: map<QueryId, PeerId>,
    reported: seq<(QueryId, PeerId)>)

  const LAUNCHED: Backend := Backend([], map[], 0, [], map[], 0, Idle, None, [], map[], [])

  // Background task

  function HandleCommand(b: Backend): Backend
    requires b.commands != []
  {
    var rest := b.(commands := b.commands[1..]);
    match b.commands[0]
    case AddKnownAddress(_, _) => rest
    case FindNode(target) =>
      rest.(running := b.running[b.nextKad := target], nextKad := b.nextKad + 1, reply := Some(b.nextKad))
  }

  function ForwardEvent(b: Backend, e: SwarmEvent): Backend {
    b.(events := b.events + [e], running := if e.ClosestPeers? then b.running - {e.id} else b.running)
  }

  // Caller

  function SendFindNode(b: Backend, target: PeerId): Backend {
    b.(commands := b.commands + [FindNode(target)], caller := Awaiting(target))
  }

  function ReceiveQueryId(b: Backend): (Backend, QueryId)
    requires b.caller.Awaiting? && b.reply.Some?
  {
    (b.(translate := b.translate[b.reply.value := b.nextQuery],
        returned := b.returned[b.nextQuery := b.caller.target],
        nextQuery := b.nextQuery + 1, caller := Idle, reply := None),
     b.nextQuery)
  }

  function AddKnown(b: Backend, peer: PeerId, address: Multiaddr): Backend {
    b.(commands := b.commands + [AddKnownAddress(peer, address)])
  }

  /** A queued action of the caller gets into the command channel. */
  function RunAction(b: Backend, k: nat): Backend
    requires k < |b.pendingActions|
  {
    b.(commands := b.commands + [b.pendingActions[k]],
       pendingActions := b.pendingActions[..k] + b.pendingActions[k + 1..])
  }

  function PollNext(b: Backend): (Backend, PollOutcome) {
    if b.events == [] then (b, Waiting)
    else
      var rest := b.(events := b.events[1..]);
      match b.events[0]
      case ClosestPeers(id, target, peers) =>
        if id !in b.translate then (rest, Panicked)
        else
          (rest.(translate := b.translate - {id}, reported := b.reported + [(b.translate[id], target)]),
           Seen(NodeFound(b.translate[id], target, peers)))
      case Identified(peer) => (rest, Seen(PeerIdentified(peer)))
      case Routable(peer, address) =>
        (rest.(pendingActions := b.pendingActions + [AddKnownAddress(peer, address)]), Waiting)
      case OtherEvent => (rest, Waiting)
  }

  /** The object the caller holds, with the channels and the task at its other end. */
  class Libp2pBackend {
    var commands: seq<Command>
    var running: map<KadId, PeerId>
    var nextKad: KadId
    var rx: seq<SwarmEvent>
    var queryTranslate: map<KadId, QueryId>
    var nextQueryId: QueryId
    var caller: Caller
    var oneshot: Option<KadId>
    var pendingActions: seq<Command>
    ghost var returned: map<QueryId, PeerId>
    ghost var reported: seq<(QueryId, PeerId)>

    ghost function Value(): Backend
      reads this
    {
      Backend(commands, running, nextKad, rx, queryTranslate, nextQueryId, caller, oneshot, pendingActions,
              returned, reported)
    }

    constructor ()
      ensures Value() == LAUNCHED
    {
      commands, running, nextKad, rx := [], map[], 0, [];
      queryTranslate, nextQueryId, caller, oneshot, pendingActions := map[], 0, Idle, None, [];
      returned, reported := map[], [];
    }

    /** The background task takes one command. */
    method BackgroundCommand()
      requires commands != []
      modifies this
      ensures Value() == HandleCommand(old(Value()))
    {
      var command := commands[0];
      commands := commands[1..];
      match command {
        case AddKnownAddress(_, _) =>
        case FindNode(target) =>
          var id := nextKad;
          nextKad := nextKad + 1;
          running := running[id := target];
          oneshot := Some(id);
      }
    }

    /** The background task forwards one swarm event. */
    method BackgroundEvent(event: SwarmEvent)
      modifies this
      ensures Value() == ForwardEvent(old(Value()), event)
    {
      if event.ClosestPeers? {
        running := running - {event.id};
      }
      rx := rx + [event];
    }

    /** `find_node` up to the wait for the oneshot. */
    method FindNodeSend(target: PeerId)
      modifies this
      ensures Value() == SendFindNode(old(Value()), target)
    {
      commands := commands + [FindNode(target)];
      caller := Awaiting(target);
    }

    /** `find_node` after the oneshot has answered. */
    method FindNodeReturn() returns (id: QueryId)
      requires caller.Awaiting? && oneshot.Some?
      modifies this
      ensures (Value(), id) == ReceiveQueryId(old(Value()))
    {
      id := nextQueryId;
      nextQueryId := nextQueryId + 1;
      queryTranslate := queryTranslate[oneshot.value := id];
      returned := returned[id := caller.target];
      oneshot, caller := None, Idle;
    }

    /** `poll_next` on a received event; the translation of a finished lookup is unwrapped. */
    method PollEvent() returns (outcome: PollOutcome)
      modifies this
      ensures (Value(), outcome) == PollNext(old(Value()))
    {
      if rx == [] {
        return Waiting;
      }
      var received := rx[0];
      rx := rx[1..];
      match received {
        case ClosestPeers(id, target, peers) =>
          if id !in queryTranslate {
            return Panicked;
          }
          var query := queryTranslate[id];
          queryTranslate := queryTranslate - {id};
          reported := reported + [(query, target)];
          outcome := Seen(NodeFound(query, target, peers));
        case Identified(peer) => outcome := Seen(PeerIdentified(peer));
        case Routable(peer, address) =>
          pendingActions := pendingActions + [AddKnownAddress(peer, address)];
          outcome := Waiting;
        case OtherEvent => outcome := Waiting;
      }
    }
  }
}
