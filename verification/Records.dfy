/**
 Acceptance of an authority record found in the DHT. Signatures and parsing are functions the
 record is judged by; the decision is the program's. Model of `decode_dht_record` in
 util/authorities.rs.
 */
module Records {
  import opened Wrappers

  type RecordKey = nat
  type PeerKey = nat

  datatype PeerSignature = PeerSignature(publicKey: Bytes, signature: Bytes)

  datatype Payload = Payload(record: Bytes, authSignature: Bytes, peerSignature: Option<PeerSignature>)

  /** The cryptographic and parsing functions the program calls. */
  datatype Oracles = Oracles(
    hash: PublicKey -> RecordKey,
    payload: Bytes -> Option<Payload>,
    signature: Bytes -> Option<Bytes>,
    authorityVerifies: (Bytes, Bytes, PublicKey) -> bool,
    addresses: Bytes -> Option<seq<Bytes>>,
    address: Bytes -> Option<Multiaddr>,
    peerOf: Multiaddr -> Option<PeerId>,
    peerKey: Bytes -> Option<PeerKey>,
    peerOfKey: PeerKey -> PeerId,
    peerVerifies: (PeerKey, Bytes, Bytes) -> bool)

  datatype RecordError =
    | Malformed
    | BadAuthoritySignature
    | NoAddresses
    | SeveralPeers
    | Unsigned
    | PeerMismatch
    | BadPeerSignature

  /** Convert all addresses, or none. */
  function Addresses(o: Oracles, raw: seq<Bytes>): (r: Option<seq<Multiaddr>>)
    ensures r.Some? ==> |r.value| == |raw| && forall k :: 0 <= k < |raw| ==> o.address(raw[k]) == Some(r.value[k])
    ensures r.None? ==> exists k :: 0 <= k < |raw| && o.address(raw[k]).None?
  {
    if raw == [] then Some([])
    else
      var front := Addresses(o, raw[..|raw| - 1]);
      var last := o.address(raw[|raw| - 1]);
      if front.Some? && last.Some? then Some(front.value + [last.value]) else None
  }

  /** The peers the addresses name; addresses may name none. */
  function PeersOf(o: Oracles, addresses: seq<Multiaddr>): set<PeerId> {
    set a | a in addresses && o.peerOf(a).Some? :: o.peerOf(a).value
  }

  function Decode(o: Oracles, value: Bytes, authority: PublicKey): Result<(PeerId, seq<Multiaddr>), RecordError> {
    var payload := o.payload(value);
    if payload.None? then Err(Malformed)
    else
      var record := payload.value.record;
      var signature := o.signature(payload.value.authSignature);
      if signature.None? then Err(Malformed)
      else if !o.authorityVerifies(signature.value, record, authority) then Err(BadAuthoritySignature)
      else
        var raw := o.addresses(record);
        if raw.None? then Err(Malformed)
        else
          var addresses := Addresses(o, raw.value);
          if addresses.None? then Err(Malformed)
          else if addresses.value == [] then Err(NoAddresses)
          else
            var peers := PeersOf(o, addresses.value);
            if |peers| != 1 then Err(SeveralPeers)
            else CheckPeer(o, payload.value, peers, addresses.value)
  }

  /** The last checks, once the addresses name a single peer. */
  function CheckPeer(o: Oracles, payload: Payload, peers: set<PeerId>, addresses: seq<Multiaddr>)
    : Result<(PeerId, seq<Multiaddr>), RecordError>
  {
    if payload.peerSignature.None? then Err(Unsigned)
    else
      var key := o.peerKey(payload.peerSignature.value.publicKey);
      if key.None? then Err(Malformed)
      else if o.peerOfKey(key.value) !in peers then Err(PeerMismatch)
      else if !o.peerVerifies(key.value, payload.record, payload.peerSignature.value.signature)
      then Err(BadPeerSignature)
      else Ok((o.peerOfKey(key.value), addresses))
  }

  /**
   A record the authority and the peer both signed, whose addresses name that peer and no other.
   The documentation wants all addresses to point to the peer; the program lets pass those that
   name no peer at all.
   */
  ghost predicate Genuine(o: Oracles, value: Bytes, authority: PublicKey, peer: PeerId, addresses: seq<Multiaddr>) {
    exists p: Payload, s: Bytes, raw: seq<Bytes>, ps: PeerSignature, key: PeerKey ::
      && o.payload(value) == Some(p)
      && o.signature(p.authSignature) == Some(s) && o.authorityVerifies(s, p.record, authority)
      && o.addresses(p.record) == Some(raw) && |raw| == |addresses| >= 1
      && (forall k :: 0 <= k < |raw| ==> o.address(raw[k]) == Some(addresses[k]))
      && (exists a :: a in addresses && o.peerOf(a) == Some(peer))
      && (forall a :: a in addresses && o.peerOf(a).Some? ==> o.peerOf(a).value == peer)
      && p.peerSignature == Some(ps)
      && o.peerKey(ps.publicKey) == Some(key) && o.peerOfKey(key) == peer
      && o.peerVerifies(key, p.record, ps.signature)
  }

  lemma SinglePeer(o: Oracles, addresses: seq<Multiaddr>, peer: PeerId)
    ensures PeersOf(o, addresses) == {peer} <==>
            && (exists a :: a in addresses && o.peerOf(a) == Some(peer))
            && (forall a :: a in addresses && o.peerOf(a).Some? ==> o.peerOf(a).value == peer)
  {
    var s := PeersOf(o, addresses);
    if s == {peer} {
      assert peer in s;
      forall a | a in addresses && o.peerOf(a).Some?
        ensures o.peerOf(a).value == peer
      {
        assert o.peerOf(a).value in s;
      }
    }
  }

  lemma Singleton(s: set<PeerId>, peer: PeerId)
    requires |s| == 1 && peer in s
    ensures s == {peer}
  {
    assert |s - {peer}| == 0;
  }

  /** A record is accepted exactly when it is genuine, and then yields its peer and all its addresses. */
  lemma AcceptedIffGenuine(o: Oracles, value: Bytes, authority: PublicKey, peer: PeerId, addresses: seq<Multiaddr>)
    ensures Decode(o, value, authority) == Ok((peer, addresses)) <==> Genuine(o, value, authority, peer, addresses)
  {
    SinglePeer(o, addresses, peer);
    if Decode(o, value, authority) == Ok((peer, addresses)) {
      Singleton(PeersOf(o, addresses), peer);
      var p := o.payload(value).value;
      var ps := p.peerSignature.value;
      assert o.peerKey(ps.publicKey).Some?;
      assert o.signature(p.authSignature).Some?;
    }
    if Genuine(o, value, authority, peer, addresses) {
      var p := o.payload(value).value;
      var raw := o.addresses(p.record).value;
      assert Addresses(o, raw).Some?;
      assert Addresses(o, raw).value == addresses;
    }
  }

  /** What the documentation asks of an accepted record holds exactly when each of its addresses names some peer. */
  lemma AllPointToPeerIff(o: Oracles, value: Bytes, authority: PublicKey, peer: PeerId, addresses: seq<Multiaddr>)
    requires Decode(o, value, authority) == Ok((peer, addresses))
    ensures (forall a :: a in addresses ==> o.peerOf(a) == Some(peer)) <==>
            (forall a :: a in addresses ==> o.peerOf(a).Some?)
  {
    AcceptedIffGenuine(o, value, authority, peer, addresses);
  }

  /** Parsers and keys that accept everything; each record lists the addresses `listed`. */
  function Trusting(listed: seq<Multiaddr>, peerOf: Multiaddr -> Option<PeerId>): Oracles {
    Oracles(
      a => a,
      _ => Some(Payload([], [], Some(PeerSignature([], [])))),
      s => Some(s),
      (_, _, _) => true,
      _ => Some(seq(|listed|, i requires i >= 0 => seq(i, _ => 0))),
      raw => if |raw| < |listed| then Some(listed[|raw|]) else None,
      peerOf,
      _ => Some(0),
      _ => 0,
      (_, _, _) => true)
  }

  lemma TrustingAccepts(listed: seq<Multiaddr>, peerOf: Multiaddr -> Option<PeerId>, value: Bytes, authority: PublicKey)
    requires exists a :: a in listed && peerOf(a) == Some(0)
    requires forall a :: a in listed && peerOf(a).Some? ==> peerOf(a).value == 0
    ensures Decode(Trusting(listed, peerOf), value, authority) == Ok((0, listed))
  {
    var o := Trusting(listed, peerOf);
    TrustingAddresses(listed, peerOf);
    SinglePeer(o, listed, 0);
    assert |{0}| == 1;
  }

  lemma TrustingAddresses(listed: seq<Multiaddr>, peerOf: Multiaddr -> Option<PeerId>)
    ensures var o := Trusting(listed, peerOf);
            o.addresses([]).Some? && Addresses(o, o.addresses([]).value) == Some(listed)
  {
    var o := Trusting(listed, peerOf);
    var raw := o.addresses([]).value;
    assert |raw| == |listed|;
    assert forall k :: 0 <= k < |raw| ==> o.address(raw[k]) == Some(listed[k]);
    var r := Addresses(o, raw);
    assert r.Some? && r.value == listed;
  }

  /** A record accepted although its second address names no peer. */
  lemma UnnamedAddressAccepted()
    ensures var o := Trusting([0, 1], a => if a == 0 then Some(0) else None);
            Decode(o, [], 0) == Ok((0, [0, 1])) && o.peerOf(1) == None
  {
    assert 0 in [0, 1];
    TrustingAccepts([0, 1], a => if a == 0 then Some(0) else None, [], 0);
  }
}
