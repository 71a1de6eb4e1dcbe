/**
 The network behaviour: it turns what the handlers report into swarm events and into messages
 for the handlers, through one queue. Model of `Notifications` in notifications/behavior.rs.
 */
module Behaviour {
  import opened Wrappers
  import opened HandlerModel

  type ConnectionId = nat

  datatype SwarmEvent =
    | CustomProtocolOpen(peer: PeerId, index: nat, handshake: Bytes, inbound: bool)
    | CustomProtocolClosed(peer: PeerId, index: nat)
    | NotificationReceived(peer: PeerId, index: nat, message: Bytes)

  datatype ToSwarm =
    | NotifyHandler(peer: PeerId, connection: ConnectionId, message: FromBehaviour)
    | GenerateEvent(event: SwarmEvent)

  datatype Behaviour = Behaviour(events: seq<ToSwarm>, peers: map<PeerId, set<ConnectionId>>)

  const IDLE: Behaviour := Behaviour([], map[])

  function OnEstablished(b: Behaviour, peer: PeerId, c: ConnectionId): Behaviour {
    Behaviour(b.events + [NotifyHandler(peer, c, Open(0)), NotifyHandler(peer, c, Open(1))],
              b.peers[peer := SetAt(b.peers, peer) + {c}])
  }

  function OnClosed(b: Behaviour, peer: PeerId, c: ConnectionId): Behaviour {
    Behaviour(b.events + [NotifyHandler(peer, c, Close(0)), NotifyHandler(peer, c, Close(1))],
              if peer in b.peers then b.peers[peer := b.peers[peer] - {c}] else b.peers)
  }

  /** What the behaviour queues for one handler event. */
  function Reaction(peer: PeerId, c: ConnectionId, e: ToBehaviour): seq<ToSwarm> {
    match e
    case HandshakeCompleted(i, handshake, inbound) => [GenerateEvent(CustomProtocolOpen(peer, i, handshake, inbound))]
    case HandshakeError(_) => []
    case DesiredByRemote(i) => [NotifyHandler(peer, c, Open(i))]
    case CloseDesired(i) => [NotifyHandler(peer, c, Close(i))]
    case Closed(_) => []
    case Notification(i, bytes) => [GenerateEvent(NotificationReceived(peer, i, bytes))]
  }

  function OnHandlerEvent(b: Behaviour, peer: PeerId, c: ConnectionId, e: ToBehaviour): Behaviour {
    b.(events := b.events + Reaction(peer, c, e))
  }

  function PollBehaviour(b: Behaviour): (Behaviour, Option<ToSwarm>) {
    if b.events == [] then (b, None) else (b.(events := b.events[1..]), Some(b.events[0]))
  }

  class Notifications {
    var events: seq<ToSwarm>
    var peersDetails: map<PeerId, set<ConnectionId>>

    ghost function Value(): Behaviour
      reads this
    {
      Behaviour(events, peersDetails)
    }

    constructor ()
      ensures Value() == IDLE
    {
      events := [];
      peersDetails := map[];
    }

    method PropagateEvent(event: ToSwarm)
      modifies this`events
      ensures events == old(events) + [event]
    {
      events := events + [event];
    }

    method ConnectionEstablished(peer: PeerId, connection: ConnectionId)
      modifies this
      ensures Value() == OnEstablished(old(Value()), peer, connection)
    {
      if peer in peersDetails {
        peersDetails := peersDetails[peer := peersDetails[peer] + {connection}];
      } else {
        peersDetails := peersDetails[peer := {connection}];
        assert SetAt(old(peersDetails), peer) + {connection} == {connection};
      }
      for index := 0 to 2
        invariant peersDetails == OnEstablished(old(Value()), peer, connection).peers
        invariant events == old(events) +
                  [NotifyHandler(peer, connection, Open(0)), NotifyHandler(peer, connection, Open(1))][..index]
      {
        PropagateEvent(NotifyHandler(peer, connection, Open(index)));
      }
    }

    method ConnectionClosed(peer: PeerId, connection: ConnectionId)
      modifies this
      ensures Value() == OnClosed(old(Value()), peer, connection)
    {
      if peer in peersDetails {
        peersDetails := peersDetails[peer := peersDetails[peer] - {connection}];
      }
      for index := 0 to 2
        invariant peersDetails == OnClosed(old(Value()), peer, connection).peers
        invariant events == old(events) +
                  [NotifyHandler(peer, connection, Close(0)), NotifyHandler(peer, connection, Close(1))][..index]
      {
        PropagateEvent(NotifyHandler(peer, connection, Close(index)));
      }
    }

    method OnConnectionHandlerEvent(peer: PeerId, connection: ConnectionId, event: ToBehaviour)
      modifies this
      ensures Value() == OnHandlerEvent(old(Value()), peer, connection, event)
    {
      match event {
        case HandshakeCompleted(index, handshake, isInbound) =>
          PropagateEvent(GenerateEvent(CustomProtocolOpen(peer, index, handshake, isInbound)));
        case HandshakeError(_) =>
        case DesiredByRemote(index) => PropagateEvent(NotifyHandler(peer, connection, Open(index)));
        case CloseDesired(index) => PropagateEvent(NotifyHandler(peer, connection, Close(index)));
        case Closed(_) =>
        case Notification(index, bytes) =>
          PropagateEvent(GenerateEvent(NotificationReceived(peer, index, bytes)));
      }
    }

    method Poll() returns (event: Option<ToSwarm>)
      modifies this
      ensures (Value(), event) == PollBehaviour(old(Value()))
    {
      if events == [] {
        return None;
      }
      event := Some(events[0]);
      events := events[1..];
    }
  }
}
