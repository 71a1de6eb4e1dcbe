/**
 The authority discovery scheduler: a window of record queries with first pass, backfill and
 periodic resubmission, and the books of found authorities and dialled addresses.
 Model of `AuthorityDiscovery` in cli/src/commands/authorities.rs.
 */
module Discovery {
  import opened Wrappers
  import opened Records

  type QueryId = nat

  const MAX_QUERIES: nat := 128
  const MAX_DISCOVERY_QUERIES: nat := 32

  /**
   The fields the scheduler works on. `nextId` is the swarm's supply of query ids. History:
   `dials` are the addresses dialled, in order; `accepted` the records accepted per authority.
   */
  datatype Discovery = Discovery(
    authorities: seq<PublicKey>,
    queryIndex: nat,
    queries: map<QueryId, PublicKey>,
    closest: set<QueryId>,
    recordsKeys: map<RecordKey, PublicKey>,
    details: map<PublicKey, set<Multiaddr>>,
    remaining: set<PublicKey>,
    dialed: set<Multiaddr>,
    outcomes: map<Multiaddr, DialOutcome>,
    nextId: QueryId,
    dials: seq<Multiaddr>,
    accepted: set<(PublicKey, Bytes)>)

  function Elements<T>(s: seq<T>): set<T> {
    set x | x in s
  }

  function New(authorities: seq<PublicKey>, nextId: QueryId): Discovery {
    Discovery(authorities, 0, map[], {}, map[], map[], Elements(authorities), {}, map[], nextId, [], {})
  }

  // ---------------------------------------------------------------------------
  // Queries
  // ---------------------------------------------------------------------------

  function QueryOne(d: Discovery, o: Oracles, a: PublicKey): Discovery {
    d.(recordsKeys := d.recordsKeys[o.hash(a) := a], queries := d.queries[d.nextId := a], nextId := d.nextId + 1)
  }

  function QueryRecords(d: Discovery, o: Oracles, batch: seq<PublicKey>): Discovery
    decreases |batch|
  {
    if batch == [] then d else QueryRecords(QueryOne(d, o, batch[0]), o, batch[1..])
  }

  function QueryClosest(d: Discovery, n: nat): Discovery
    decreases n
  {
    if n == 0 then d
    else QueryClosest(d.(closest := d.closest + {d.nextId}, nextId := d.nextId + 1), n - 1)
  }

  /** Random lookups top up to their own limit. */
  function TopUpClosest(d: Discovery): Discovery {
    if |d.closest| < MAX_DISCOVERY_QUERIES then QueryClosest(d, MAX_DISCOVERY_QUERIES - |d.closest|) else d
  }

  function FirstPass(d: Discovery, o: Oracles): Discovery
    decreases |d.authorities| - d.queryIndex
  {
    if |d.queries| < MAX_QUERIES && d.queryIndex < |d.authorities| then
      FirstPass(QueryOne(d, o, d.authorities[d.queryIndex]).(queryIndex := d.queryIndex + 1), o)
    else d
  }

  /** The first `n` of `order` that are not in `busy`. */
  function TakeFree(order: seq<PublicKey>, busy: set<PublicKey>, n: nat): seq<PublicKey> {
    if order == [] || n == 0 then []
    else if order[0] in busy then TakeFree(order[1..], busy, n)
    else [order[0]] + TakeFree(order[1..], busy, n - 1)
  }

  /** `order` lists the set once each: the order a hash set is walked in, or a shuffle of it. */
  ghost predicate Listing(order: seq<PublicKey>, s: set<PublicKey>) {
    Elements(order) == s && forall i, j :: 0 <= i < j < |order| ==> order[i] != order[j]
  }

  function Backfill(d: Discovery, o: Oracles, order: seq<PublicKey>): Discovery {
    if d.queryIndex >= |d.authorities| && |d.queries| < MAX_QUERIES
    then QueryRecords(d, o, TakeFree(order, d.queries.Values, MAX_QUERIES - |d.queries|))
    else d
  }

  function Advance(d: Discovery, o: Oracles, order: seq<PublicKey>): Discovery {
    TopUpClosest(Backfill(FirstPass(d, o), o, order))
  }

  function Resubmit(d: Discovery, o: Oracles, order: seq<PublicKey>): Discovery {
    var batch := order[..if |order| < MAX_QUERIES then |order| else MAX_QUERIES];
    var d' := QueryRecords(d.(queries := map[]), o, batch);
    if |order| < MAX_QUERIES then TopUpClosest(d') else d'
  }

  // ---------------------------------------------------------------------------
  // Events
  // ---------------------------------------------------------------------------

  /** Dial an address unless it was dialled before; `ok` says whether the swarm accepts the dial. */
  function Dial(d: Discovery, addr: Multiaddr, ok: bool): Discovery {
    if addr in d.dialed then d
    else d.(dialed := d.dialed + {addr}, dials := d.dials + [addr],
            outcomes := if ok then d.outcomes else d.outcomes[addr := Failed])
  }

  function DialAll(d: Discovery, addrs: seq<Multiaddr>, ok: Multiaddr -> bool): Discovery
    decreases |addrs|
  {
    if addrs == [] then d else DialAll(Dial(d, addrs[0], ok(addrs[0])), addrs[1..], ok)
  }

  /** An accepted record: its addresses are noted and dialled, its authority is no longer remaining. */
  function Record(d: Discovery, a: PublicKey, value: Bytes, addrs: seq<Multiaddr>, ok: Multiaddr -> bool): Discovery {
    var noted := d.(details := d.details[a := SetAt(d.details, a) + Elements(addrs)],
                    accepted := d.accepted + {(a, value)});
    var dialled := DialAll(noted, addrs, ok);
    dialled.(remaining := dialled.remaining - {a})
  }

  /** Record what a value says about `a`, if it is accepted. */
  function Judge(d: Discovery, o: Oracles, a: PublicKey, value: Bytes, ok: Multiaddr -> bool): Discovery {
    match Decode(o, value, a)
    case Err(_) => d
    case Ok((_, addrs)) => Record(d, a, value, addrs, ok)
  }

  datatype Found = Found(key: RecordKey, value: Bytes)

  /** The books after a record answer, before the window is topped up. */
  function Answered(d: Discovery, o: Oracles, id: QueryId, found: Option<Found>, ok: Multiaddr -> bool): Discovery {
    var d' := d.(queries := d.queries - {id});
    match found
    case None => d'
    case Some(Found(key, value)) =>
      if key in d'.recordsKeys then Judge(d', o, d'.recordsKeys[key], value, ok) else d'
  }

  /** The answer carries a record that was asked for and is not acceptable. */
  predicate Rejected(d: Discovery, o: Oracles, found: Option<Found>) {
    && found.Some? && found.value.key in d.recordsKeys
    && Decode(o, found.value.value, d.recordsKeys[found.value.key]).Err?
  }

  function SetOutcome(d: Discovery, addr: Multiaddr, outcome: DialOutcome): Discovery {
    if addr in d.dialed then d.(outcomes := d.outcomes[addr := outcome]) else d
  }

  function SetOutcomes(d: Discovery, addrs: seq<Multiaddr>, outcome: DialOutcome): Discovery
    decreases |addrs|
  {
    if addrs == [] then d else SetOutcomes(SetOutcome(d, addrs[0], outcome), addrs[1..], outcome)
  }

  /** What the `discover` loop waits for, with the choices the surroundings make. */
  datatype Event =
    | RecordAnswer(id: QueryId, found: Option<Found>, ok: Multiaddr -> bool, order: seq<PublicKey>)
    | ClosestAnswer(id: QueryId)
    | Connected(address: Option<Multiaddr>)
    | DialErrors(addresses: seq<Multiaddr>)
    | ResubmitTick(order: seq<PublicKey>)
    | OtherEvent

  ghost predicate Possible(d: Discovery, o: Oracles, e: Event) {
    match e
    case RecordAnswer(id, found, ok, order) => Listing(order, Answered(d, o, id, found, ok).remaining)
    case ResubmitTick(order) => Listing(order, d.remaining)
    case _ => true
  }

  function Handle(d: Discovery, o: Oracles, e: Event): Discovery {
    match e
    case RecordAnswer(id, found, ok, order) => Advance(Answered(d, o, id, found, ok), o, order)
    case ClosestAnswer(id) => TopUpClosest(d.(closest := d.closest - {id}))
    case Connected(address) => if address.Some? then SetOutcome(d, address.value, Success) else d
    case DialErrors(addresses) => SetOutcomes(d, addresses, Failed)
    case ResubmitTick(order) => Resubmit(d, o, order)
    case OtherEvent => d
  }
}
