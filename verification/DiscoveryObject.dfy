/** The scheduler as the object whose methods update its maps, sets and indices in place. */
module DiscoveryObject {
  import opened Wrappers
  import opened Records
  import opened Discovery

  /** The first pass from `d` ends in `result`. */
  ghost predicate LeadsTo(d: Discovery, o: Oracles, result: Discovery) {
    FirstPass(d, o) == result
  }

  lemma {:induction false} LeadsOn(d: Discovery, o: Oracles, result: Discovery)
    requires LeadsTo(d, o, result) && |d.queries| < MAX_QUERIES && d.queryIndex < |d.authorities|
    ensures LeadsTo(QueryRecords(d, o, [d.authorities[d.queryIndex]]).(queryIndex := d.queryIndex + 1), o, result)
  {
    var a := d.authorities[d.queryIndex];
    assert [a][1..] == [];
    assert QueryRecords(d, o, [a]) == QueryOne(d, o, a);
  }

  lemma {:induction false} LedTo(d: Discovery, o: Oracles, result: Discovery)
    requires LeadsTo(d, o, result) && (|d.queries| >= MAX_QUERIES || d.queryIndex >= |d.authorities|)
    ensures d == result
  {
  }

  class AuthorityDiscovery {
    const oracles: Oracles
    const authorities: seq<PublicKey>
    var queryIndex: nat
    var queries: map<QueryId, PublicKey>
    var queriesDiscovery: set<QueryId>
    var recordsKeys: map<RecordKey, PublicKey>
    var authorityToDetails: map<PublicKey, set<Multiaddr>>
    var remainingAuthorities: set<PublicKey>
    var dialedAddresses: set<Multiaddr>
    var dialOutcomes: map<Multiaddr, DialOutcome>
    var dhtErrors: nat
    var nextId: QueryId
    ghost var dials: seq<Multiaddr>
    ghost var accepted: set<(PublicKey, Bytes)>

    ghost function Value(): Discovery
      reads this
    {
      Discovery(authorities, queryIndex, queries, queriesDiscovery, recordsKeys, authorityToDetails,
                remainingAuthorities, dialedAddresses, dialOutcomes, nextId, dials, accepted)
    }

    constructor (oracles: Oracles, authorities: seq<PublicKey>, firstId: QueryId)
      ensures this.oracles == oracles
      ensures Value() == New(authorities, firstId)
    {
      this.oracles := oracles;
      this.authorities := authorities;
      queryIndex := 0;
      queries, queriesDiscovery, recordsKeys := map[], {}, map[];
      authorityToDetails := map[];
      remainingAuthorities := set a | a in authorities;
      dialedAddresses, dialOutcomes := {}, map[];
      dhtErrors := 0;
      nextId := firstId;
      dials, accepted := [], {};
    }

    /** The swarm starts a query and names it. */
    method FreshId() returns (id: QueryId)
      modifies this`nextId
      ensures id == old(nextId) && nextId == old(nextId) + 1
    {
      id := nextId;
      nextId := nextId + 1;
    }

    method QueryDhtRecords(batch: seq<PublicKey>)
      modifies this
      ensures Value() == QueryRecords(old(Value()), oracles, batch) && dhtErrors == old(dhtErrors)
    {
      var i := 0;
      while i < |batch|
        invariant i <= |batch| && dhtErrors == old(dhtErrors)
        invariant QueryRecords(Value(), oracles, batch[i..]) == QueryRecords(old(Value()), oracles, batch)
      {
        var authority := batch[i];
        assert batch[i..][0] == authority && batch[i..][1..] == batch[i + 1..];
        recordsKeys := recordsKeys[oracles.hash(authority) := authority];
        var id := FreshId();
        queries := queries[id := authority];
        i := i + 1;
      }
    }

    method QueryPeerInfo()
      modifies this
      ensures Value() == TopUpClosest(old(Value())) && dhtErrors == old(dhtErrors)
    {
      if |queriesDiscovery| < MAX_DISCOVERY_QUERIES {
        var n := MAX_DISCOVERY_QUERIES - |queriesDiscovery|;
        for i := 0 to n
          invariant dhtErrors == old(dhtErrors)
          invariant QueryClosest(Value(), n - i) == QueryClosest(old(Value()), n)
        {
          var id := FreshId();
          queriesDiscovery := queriesDiscovery + {id};
        }
      }
    }

    /** `order` is how the remaining authorities are walked. */
    method AdvanceDhtQueries(order: seq<PublicKey>)
      requires Listing(order, remainingAuthorities)
      modifies this
      ensures Value() == Advance(old(Value()), oracles, order) && dhtErrors == old(dhtErrors)
    {
      QueryNewAuthorities();
      BackfillSlots(order);
      QueryPeerInfo();
    }

    method QueryNewAuthorities()
      modifies this
      ensures Value() == FirstPass(old(Value()), oracles) && dhtErrors == old(dhtErrors)
    {
      ghost var result := FirstPass(Value(), oracles);
      while |queries| < MAX_QUERIES
        invariant dhtErrors == old(dhtErrors)
        invariant LeadsTo(Value(), oracles, result)
        decreases |authorities| - queryIndex
      {
        if queryIndex >= |authorities| {
          break;
        }
        QueryNext(result);
      }
      LedTo(Value(), oracles, result);
    }

    /** The next authority of the list is asked for. */
    method QueryNext(ghost result: Discovery)
      requires |queries| < MAX_QUERIES && queryIndex < |authorities| && LeadsTo(Value(), oracles, result)
      modifies this
      ensures LeadsTo(Value(), oracles, result)
      ensures queryIndex == old(queryIndex) + 1 && dhtErrors == old(dhtErrors)
    {
      LeadsOn(Value(), oracles, result);
      QueryDhtRecords([authorities[queryIndex]]);
      queryIndex := queryIndex + 1;
    }

    method BackfillSlots(order: seq<PublicKey>)
      modifies this
      ensures Value() == Backfill(old(Value()), oracles, order) && dhtErrors == old(dhtErrors)
    {
      if queryIndex >= |authorities| && |queries| < MAX_QUERIES {
        var backfill := CollectFree(order, queries.Values, MAX_QUERIES - |queries|);
        if backfill != [] {
          QueryDhtRecords(backfill);
        }
      }
    }

    static method CollectFree(order: seq<PublicKey>, inFlight: set<PublicKey>, limit: nat)
      returns (free: seq<PublicKey>)
      ensures free == TakeFree(order, inFlight, limit)
    {
      free := [];
      var i := 0;
      while i < |order| && |free| < limit
        invariant i <= |order| && |free| <= limit
        invariant free + TakeFree(order[i..], inFlight, limit - |free|) == TakeFree(order, inFlight, limit)
      {
        assert order[i..][0] == order[i] && order[i..][1..] == order[i + 1..];
        if order[i] !in inFlight {
          free := free + [order[i]];
        }
        i := i + 1;
      }
    }

    /** `order` is a shuffle of the remaining authorities. */
    method ResubmitRemaining(order: seq<PublicKey>)
      requires Listing(order, remainingAuthorities)
      modifies this
      ensures Value() == Resubmit(old(Value()), oracles, order) && dhtErrors == old(dhtErrors)
    {
      queries := map[];
      QueryDhtRecords(order[..if |order| < MAX_QUERIES then |order| else MAX_QUERIES]);
      if |order| < MAX_QUERIES {
        QueryPeerInfo();
      }
    }

    /** A progress event of a record query; `ok` tells which dials the swarm accepts. */
    method OnRecordAnswer(id: QueryId, found: Option<Found>, ok: Multiaddr -> bool, order: seq<PublicKey>)
      requires Listing(order, Answered(Value(), oracles, id, found, ok).remaining)
      modifies this
      ensures Value() == Handle(old(Value()), oracles, RecordAnswer(id, found, ok, order))
      ensures dhtErrors == old(dhtErrors) + (if Rejected(old(Value()), oracles, found) then 1 else 0)
    {
      NoteAnswer(id, found, ok);
      // Every path tops the window up, so that a failed query is replaced at once.
      AdvanceDhtQueries(order);
    }

    method NoteAnswer(id: QueryId, found: Option<Found>, ok: Multiaddr -> bool)
      modifies this
      ensures Value() == Answered(old(Value()), oracles, id, found, ok)
      ensures dhtErrors == old(dhtErrors) + (if Rejected(old(Value()), oracles, found) then 1 else 0)
    {
      queries := queries - {id};
      if found.None? {
        return;
      }
      var Found(key, value) := found.value;
      if key !in recordsKeys {
        return;
      }
      JudgeRecord(recordsKeys[key], value, ok);
    }

    method JudgeRecord(authority: PublicKey, value: Bytes, ok: Multiaddr -> bool)
      modifies this
      ensures Value() == Judge(old(Value()), oracles, authority, value, ok)
      ensures dhtErrors == old(dhtErrors) + (if Decode(oracles, value, authority).Err? then 1 else 0)
    {
      match Decode(oracles, value, authority) {
        case Err(_) => dhtErrors := dhtErrors + 1;
        case Ok((_, addresses)) => RecordAddresses(authority, value, addresses, ok);
      }
    }

    method RecordAddresses(authority: PublicKey, value: Bytes, addresses: seq<Multiaddr>, ok: Multiaddr -> bool)
      modifies this
      ensures Value() == Record(old(Value()), authority, value, addresses, ok) && dhtErrors == old(dhtErrors)
    {
      if authority in authorityToDetails {
        authorityToDetails := authorityToDetails[authority := authorityToDetails[authority] + set x | x in addresses];
      } else {
        authorityToDetails := authorityToDetails[authority := set x | x in addresses];
        assert SetAt(old(authorityToDetails), authority) + Elements(addresses) == Elements(addresses);
      }
      accepted := accepted + {(authority, value)};
      DialAddresses(addresses, ok);
      remainingAuthorities := remainingAuthorities - {authority};
    }

    method DialAddresses(addresses: seq<Multiaddr>, ok: Multiaddr -> bool)
      modifies this
      ensures Value() == DialAll(old(Value()), addresses, ok) && dhtErrors == old(dhtErrors)
    {
      var i := 0;
      while i < |addresses|
        invariant i <= |addresses| && dhtErrors == old(dhtErrors)
        invariant DialAll(Value(), addresses[i..], ok) == DialAll(old(Value()), addresses, ok)
      {
        var addr := addresses[i];
        assert addresses[i..][0] == addr && addresses[i..][1..] == addresses[i + 1..];
        if addr !in dialedAddresses {
          dialedAddresses := dialedAddresses + {addr};
          dials := dials + [addr];
          if !ok(addr) {
            dialOutcomes := dialOutcomes[addr := Failed];
          }
        }
        i := i + 1;
      }
    }

    method OnClosestPeers(id: QueryId)
      modifies this
      ensures Value() == Handle(old(Value()), oracles, ClosestAnswer(id))
    {
      queriesDiscovery := queriesDiscovery - {id};
      QueryPeerInfo();
    }

    /** A connection was established; `address` is set when we dialled it. */
    method OnConnected(address: Option<Multiaddr>)
      modifies this
      ensures Value() == Handle(old(Value()), oracles, Connected(address))
    {
      if address.Some? && address.value in dialedAddresses {
        dialOutcomes := dialOutcomes[address.value := Success];
      }
    }

    /** A dial failed for these addresses: several attempts, a wrong peer or the local peer. */
    method OnDialErrors(addresses: seq<Multiaddr>)
      modifies this
      ensures Value() == Handle(old(Value()), oracles, DialErrors(addresses))
    {
      var i := 0;
      while i < |addresses|
        invariant i <= |addresses|
        invariant SetOutcomes(Value(), addresses[i..], Failed) == SetOutcomes(old(Value()), addresses, Failed)
      {
        var addr := addresses[i];
        assert addresses[i..][0] == addr && addresses[i..][1..] == addresses[i + 1..];
        if addr in dialedAddresses {
          dialOutcomes := dialOutcomes[addr := Failed];
        }
        i := i + 1;
      }
    }
  }
}
