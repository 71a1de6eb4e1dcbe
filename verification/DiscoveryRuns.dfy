/** Whole runs of the authority discovery: work conservation and the books. */
module DiscoveryRuns {
  import opened Wrappers
  import opened Records
  import opened Discovery

  /** All addresses recorded for some authority. */
  ghost function AllAddresses(details: map<PublicKey, set<Multiaddr>>): set<Multiaddr> {
    set a, x | a in details && x in details[a] :: x
  }

  /** The window is full, or every authority still wanted has a query in flight. */
  ghost predicate WorkConserving(d: Discovery) {
    |d.queries| <= MAX_QUERIES && (|d.queries| == MAX_QUERIES || d.remaining <= d.queries.Values)
  }

  /** The queries: ids are handed out once, and only listed authorities are asked for. */
  ghost predicate QueriesOk(d: Discovery) {
    && d.queryIndex <= |d.authorities|
    && |d.closest| <= MAX_DISCOVERY_QUERIES
    && (forall id :: id in d.queries ==> id < d.nextId)
    && (forall id :: id in d.closest ==> id < d.nextId)
    && (forall k :: k in d.recordsKeys ==> d.recordsKeys[k] in Elements(d.authorities))
  }

  /** Found and wanted authorities partition the list. */
  ghost predicate Partitioned(d: Discovery) {
    && d.remaining == Elements(d.authorities) - d.details.Keys
    && d.details.Keys <= Elements(d.authorities)
  }

  /** Every recorded address stands in a record accepted for that very authority. */
  ghost predicate Sourced(d: Discovery, o: Oracles) {
    forall a, x :: a in d.details && x in d.details[a] ==>
      exists v :: (a, v) in d.accepted && Decode(o, v, a).Ok? && x in Decode(o, v, a).value.1
  }

  /** Dialled once each, exactly the recorded addresses; outcomes only for those. */
  ghost predicate Dialled(d: Discovery) {
    && d.dialed == AllAddresses(d.details)
    && Elements(d.dials) == d.dialed
    && (forall i, j :: 0 <= i < j < |d.dials| ==> d.dials[i] != d.dials[j])
    && d.outcomes.Keys <= d.dialed
  }

  ghost predicate Books(d: Discovery, o: Oracles) {
    Partitioned(d) && Sourced(d, o) && Dialled(d)
  }

  /** What holds between any two events of the `discover` loop. */
  ghost predicate DiscoveryInv(d: Discovery, o: Oracles) {
    WorkConserving(d) && QueriesOk(d) && |d.closest| == MAX_DISCOVERY_QUERIES && Books(d, o)
  }

  // ---------------------------------------------------------------------------
  // The window
  // ---------------------------------------------------------------------------

  /** The fields that submitting queries leaves alone. */
  ghost predicate SameBooks(d: Discovery, d': Discovery) {
    && d'.authorities == d.authorities && d'.details == d.details && d'.remaining == d.remaining
    && d'.dialed == d.dialed && d'.outcomes == d.outcomes && d'.dials == d.dials && d'.accepted == d.accepted
  }

  lemma FreshEntry(m: map<QueryId, PublicKey>, id: QueryId, a: PublicKey)
    requires id !in m
    ensures |m[id := a]| == |m| + 1 && m[id := a].Values == m.Values + {a}
  {
    var m' := m[id := a];
    assert m'.Keys == m.Keys + {id};
    forall x | x in m.Values
      ensures x in m'.Values
    {
      var k :| k in m && m[k] == x;
      assert m'[k] == x;
    }
    assert m'[id] == a;
  }

  lemma QueryOneOk(d: Discovery, o: Oracles, a: PublicKey)
    requires QueriesOk(d) && a in Elements(d.authorities)
    ensures QueriesOk(QueryOne(d, o, a))
    ensures |QueryOne(d, o, a).queries| == |d.queries| + 1
    ensures QueryOne(d, o, a).queries.Values == d.queries.Values + {a}
  {
    FreshEntry(d.queries, d.nextId, a);
  }

  lemma ElementsSplit(batch: seq<PublicKey>)
    requires batch != []
    ensures Elements(batch) == {batch[0]} + Elements(batch[1..])
  {
  }

  lemma {:induction false} QueryRecordsOk(d: Discovery, o: Oracles, batch: seq<PublicKey>)
    requires QueriesOk(d) && Elements(batch) <= Elements(d.authorities)
    ensures QueriesOk(QueryRecords(d, o, batch)) && SameBooks(d, QueryRecords(d, o, batch))
    ensures QueryRecords(d, o, batch).queryIndex == d.queryIndex && QueryRecords(d, o, batch).closest == d.closest
    ensures |QueryRecords(d, o, batch).queries| == |d.queries| + |batch|
    decreases |batch|
  {
    if batch != [] {
      ElementsSplit(batch);
      QueryOneOk(d, o, batch[0]);
      QueryRecordsOk(QueryOne(d, o, batch[0]), o, batch[1..]);
    }
  }

  lemma {:induction false} QueryRecordsValues(d: Discovery, o: Oracles, batch: seq<PublicKey>)
    requires QueriesOk(d) && Elements(batch) <= Elements(d.authorities)
    ensures QueryRecords(d, o, batch).queries.Values == d.queries.Values + Elements(batch)
    decreases |batch|
  {
    if batch == [] {
      assert Elements(batch) == {};
    } else {
      ElementsSplit(batch);
      QueryOneOk(d, o, batch[0]);
      QueryRecordsValues(QueryOne(d, o, batch[0]), o, batch[1..]);
    }
  }

  lemma {:induction false} QueryClosestOk(d: Discovery, n: nat)
    requires QueriesOk(d) && |d.closest| + n <= MAX_DISCOVERY_QUERIES
    ensures var d' := QueryClosest(d, n);
            && QueriesOk(d') && SameBooks(d, d') && d'.queries == d.queries
            && |d'.closest| == |d.closest| + n
    decreases n
  {
    if n > 0 {
      ClosestOneOk(d);
      QueryClosestOk(d.(closest := d.closest + {d.nextId}, nextId := d.nextId + 1), n - 1);
    }
  }

  lemma ClosestOneOk(d: Discovery)
    requires QueriesOk(d) && |d.closest| < MAX_DISCOVERY_QUERIES
    ensures var d' := d.(closest := d.closest + {d.nextId}, nextId := d.nextId + 1);
            QueriesOk(d') && |d'.closest| == |d.closest| + 1
  {
    assert d.nextId !in d.closest;
  }

  lemma TopUpClosestOk(d: Discovery)
    requires QueriesOk(d)
    ensures var d' := TopUpClosest(d);
            && QueriesOk(d') && SameBooks(d, d') && d'.queries == d.queries
            && |d'.closest| == MAX_DISCOVERY_QUERIES
  {
    if |d.closest| < MAX_DISCOVERY_QUERIES {
      QueryClosestOk(d, MAX_DISCOVERY_QUERIES - |d.closest|);
    }
  }

  /** The first pass stops when the window is full or the list is exhausted. */
  lemma {:induction false} FirstPassOk(d: Discovery, o: Oracles)
    requires QueriesOk(d) && |d.queries| <= MAX_QUERIES
    ensures var d' := FirstPass(d, o);
            && QueriesOk(d') && SameBooks(d, d')
            && |d'.queries| <= MAX_QUERIES
            && (|d'.queries| == MAX_QUERIES || d'.queryIndex == |d'.authorities|)
    decreases |d.authorities| - d.queryIndex
  {
    if |d.queries| < MAX_QUERIES && d.queryIndex < |d.authorities| {
      QueryOneOk(d, o, d.authorities[d.queryIndex]);
      FirstPassOk(QueryOne(d, o, d.authorities[d.queryIndex]).(queryIndex := d.queryIndex + 1), o);
    }
  }

  /** Either the slots are used up or every listed authority is busy or taken. */
  lemma {:induction false} TakeFreeOk(order: seq<PublicKey>, busy: set<PublicKey>, n: nat)
    ensures |TakeFree(order, busy, n)| <= n
    ensures Elements(TakeFree(order, busy, n)) <= Elements(order)
    ensures |TakeFree(order, busy, n)| == n || Elements(order) <= busy + Elements(TakeFree(order, busy, n))
  {
    if order != [] && n > 0 {
      ElementsSplit(order);
      if order[0] in busy {
        TakeFreeOk(order[1..], busy, n);
      } else {
        TakeFreeOk(order[1..], busy, n - 1);
        var t := TakeFree(order, busy, n);
        ElementsSplit(t);
        assert t[1..] == TakeFree(order[1..], busy, n - 1);
      }
    } else {
      assert n == 0 || Elements(order) == {};
      assert Elements(TakeFree(order, busy, n)) == {};
    }
  }

  lemma {:induction false} BackfillOk(d: Discovery, o: Oracles, order: seq<PublicKey>)
    requires QueriesOk(d) && |d.queries| <= MAX_QUERIES && Listing(order, d.remaining)
    requires |d.queries| == MAX_QUERIES || d.queryIndex == |d.authorities|
    requires d.remaining <= Elements(d.authorities)
    ensures WorkConserving(Backfill(d, o, order))
    ensures QueriesOk(Backfill(d, o, order)) && SameBooks(d, Backfill(d, o, order))
  {
    if |d.queries| < MAX_QUERIES {
      var n := MAX_QUERIES - |d.queries|;
      var batch := TakeFree(order, d.queries.Values, n);
      TakeFreeOk(order, d.queries.Values, n);
      QueryRecordsOk(d, o, batch);
      QueryRecordsValues(d, o, batch);
      WindowFilled(d, QueryRecords(d, o, batch), batch);
    }
  }

  lemma WindowFilled(d: Discovery, d': Discovery, batch: seq<PublicKey>)
    requires d'.remaining == d.remaining && d'.queries.Values == d.queries.Values + Elements(batch)
    requires |d'.queries| == |d.queries| + |batch| <= MAX_QUERIES
    requires |d'.queries| == MAX_QUERIES || d.remaining <= d.queries.Values + Elements(batch)
    ensures WorkConserving(d')
  {
  }

  /** After topping up, the window is full or every wanted authority has a query in flight. */
  lemma AdvanceOk(d: Discovery, o: Oracles, order: seq<PublicKey>)
    requires QueriesOk(d) && |d.queries| <= MAX_QUERIES && Listing(order, d.remaining)
    requires d.remaining <= Elements(d.authorities)
    ensures WorkConserving(Advance(d, o, order)) && |Advance(d, o, order).closest| == MAX_DISCOVERY_QUERIES
    ensures QueriesOk(Advance(d, o, order)) && SameBooks(d, Advance(d, o, order))
  {
    FirstPassOk(d, o);
    BackfillOk(FirstPass(d, o), o, order);
    TopUpClosestOk(Backfill(FirstPass(d, o), o, order));
  }

  /** Resubmission forgets the old queries and fills the window afresh. */
  lemma ResubmitOk(d: Discovery, o: Oracles, order: seq<PublicKey>)
    requires QueriesOk(d) && Listing(order, d.remaining) && d.remaining <= Elements(d.authorities)
    ensures var d' := Resubmit(d, o, order); WorkConserving(d') && QueriesOk(d') && SameBooks(d, d')
    ensures |d.closest| == MAX_DISCOVERY_QUERIES ==> |Resubmit(d, o, order).closest| == MAX_DISCOVERY_QUERIES
  {
    var cleared := d.(queries := map[]);
    var batch := order[..if |order| < MAX_QUERIES then |order| else MAX_QUERIES];
    assert Elements(batch) <= Elements(order);
    QueryRecordsOk(cleared, o, batch);
    QueryRecordsValues(cleared, o, batch);
    if |order| < MAX_QUERIES {
      assert batch == order;
      TopUpClosestOk(QueryRecords(cleared, o, batch));
    }
  }

  // ---------------------------------------------------------------------------
  // The books
  // ---------------------------------------------------------------------------

  /** Dialling a list: each new address once, all of them dialled in the end. */
  lemma {:induction false} DialAllOk(d: Discovery, addrs: seq<Multiaddr>, ok: Multiaddr -> bool)
    requires Elements(d.dials) == d.dialed && d.outcomes.Keys <= d.dialed
    requires forall i, j :: 0 <= i < j < |d.dials| ==> d.dials[i] != d.dials[j]
    ensures var d' := DialAll(d, addrs, ok);
            && d'.dialed == d.dialed + Elements(addrs)
            && Elements(d'.dials) == d'.dialed
            && d'.outcomes.Keys <= d'.dialed
            && (forall i, j :: 0 <= i < j < |d'.dials| ==> d'.dials[i] != d'.dials[j])
            && d' == d.(dialed := d'.dialed, dials := d'.dials, outcomes := d'.outcomes)
    decreases |addrs|
  {
    if addrs == [] {
      assert Elements(addrs) == {};
    } else {
      var d1 := Dial(d, addrs[0], ok(addrs[0]));
      assert addrs[0] !in d.dialed ==> addrs[0] !in d.dials;
      assert Elements(d1.dials) == d1.dialed;
      DialAllOk(d1, addrs[1..], ok);
      ElementsSplit(addrs);
    }
  }

  lemma RecordDialled(d: Discovery, a: PublicKey, value: Bytes, addrs: seq<Multiaddr>, ok: Multiaddr -> bool)
    requires Dialled(d)
    ensures Dialled(Record(d, a, value, addrs, ok))
  {
    var details := d.details[a := SetAt(d.details, a) + Elements(addrs)];
    var noted := d.(details := details, accepted := d.accepted + {(a, value)});
    DialAllOk(noted, addrs, ok);
    assert AllAddresses(details) == AllAddresses(d.details) + Elements(addrs) by {
      forall x | x in AllAddresses(d.details)
        ensures x in AllAddresses(details)
      {
        var b :| b in d.details && x in d.details[b];
        assert b in details && x in details[b];
      }
      forall x | x in Elements(addrs)
        ensures x in AllAddresses(details)
      {
        assert a in details && x in details[a];
      }
    }
  }

  lemma RecordSourced(d: Discovery, o: Oracles, a: PublicKey, value: Bytes, addrs: seq<Multiaddr>,
                      ok: Multiaddr -> bool)
    requires Dialled(d) && Sourced(d, o)
    requires Decode(o, value, a).Ok? && Decode(o, value, a).value.1 == addrs
    ensures Sourced(Record(d, a, value, addrs, ok), o)
  {
    var details := d.details[a := SetAt(d.details, a) + Elements(addrs)];
    var noted := d.(details := details, accepted := d.accepted + {(a, value)});
    DialAllOk(noted, addrs, ok);
    var d' := Record(d, a, value, addrs, ok);
    assert d'.details == details && d'.accepted == noted.accepted;
    forall b, x | b in d'.details && x in d'.details[b]
      ensures exists v :: (b, v) in d'.accepted && Decode(o, v, b).Ok? && x in Decode(o, v, b).value.1
    {
      if b in d.details && x in d.details[b] {
        var v :| (b, v) in d.accepted && Decode(o, v, b).Ok? && x in Decode(o, v, b).value.1;
        assert (b, v) in d'.accepted;
      } else {
        assert (a, value) in d'.accepted && x in addrs;
      }
    }
  }

  lemma RecordPartitioned(d: Discovery, a: PublicKey, value: Bytes, addrs: seq<Multiaddr>, ok: Multiaddr -> bool)
    requires Dialled(d) && Partitioned(d) && a in Elements(d.authorities)
    ensures Partitioned(Record(d, a, value, addrs, ok))
    ensures var d' := Record(d, a, value, addrs, ok);
            d'.queries == d.queries && d'.authorities == d.authorities && (QueriesOk(d) ==> QueriesOk(d'))
  {
    var noted := d.(details := d.details[a := SetAt(d.details, a) + Elements(addrs)],
                    accepted := d.accepted + {(a, value)});
    DialAllOk(noted, addrs, ok);
  }

  lemma RecordOk(d: Discovery, o: Oracles, a: PublicKey, value: Bytes, addrs: seq<Multiaddr>, ok: Multiaddr -> bool)
    requires QueriesOk(d) && Books(d, o) && a in Elements(d.authorities)
    requires Decode(o, value, a).Ok? && Decode(o, value, a).value.1 == addrs
    ensures QueriesOk(Record(d, a, value, addrs, ok)) && Books(Record(d, a, value, addrs, ok), o)
    ensures Record(d, a, value, addrs, ok).queries == d.queries
    ensures Record(d, a, value, addrs, ok).authorities == d.authorities
  {
    RecordDialled(d, a, value, addrs, ok);
    RecordSourced(d, o, a, value, addrs, ok);
    RecordPartitioned(d, a, value, addrs, ok);
  }

  lemma JudgeOk(d: Discovery, o: Oracles, a: PublicKey, value: Bytes, ok: Multiaddr -> bool)
    requires QueriesOk(d) && Books(d, o) && a in Elements(d.authorities)
    ensures QueriesOk(Judge(d, o, a, value, ok)) && Books(Judge(d, o, a, value, ok), o)
    ensures Judge(d, o, a, value, ok).queries == d.queries
    ensures Judge(d, o, a, value, ok).authorities == d.authorities
  {
    var r := Decode(o, value, a);
    if r.Ok? {
      RecordOk(d, o, a, value, r.value.1, ok);
    }
  }

  lemma ForgetOk(d: Discovery, o: Oracles, id: QueryId)
    requires QueriesOk(d) && Books(d, o)
    ensures var d' := d.(queries := d.queries - {id}); QueriesOk(d') && Books(d', o) && |d'.queries| <= |d.queries|
  {
    var d' := d.(queries := d.queries - {id});
    FewerKeys(d'.queries, d.queries);
  }

  /** Whatever answer arrives, the books stay right and the window does not grow. */
  lemma AnsweredOk(d: Discovery, o: Oracles, id: QueryId, found: Option<Found>, ok: Multiaddr -> bool)
    requires QueriesOk(d) && Books(d, o)
    ensures QueriesOk(Answered(d, o, id, found, ok)) && Books(Answered(d, o, id, found, ok), o)
    ensures |Answered(d, o, id, found, ok).queries| <= |d.queries|
    ensures Answered(d, o, id, found, ok).authorities == d.authorities
  {
    var d1 := d.(queries := d.queries - {id});
    ForgetOk(d, o, id);
    if found.Some? && found.value.key in d.recordsKeys {
      var a, v := d.recordsKeys[found.value.key], found.value.value;
      JudgeOk(d1, o, a, v, ok);
      assert Answered(d, o, id, found, ok) == Judge(d1, o, a, v, ok);
    } else {
      assert Answered(d, o, id, found, ok) == d1;
    }
  }

  lemma FewerKeys(m: map<QueryId, PublicKey>, n: map<QueryId, PublicKey>)
    requires m.Keys <= n.Keys
    ensures |m| <= |n|
  {
    Subset(m.Keys, n.Keys);
  }

  lemma Subset<T>(s: set<T>, t: set<T>)
    requires s <= t
    ensures |s| <= |t|
  {
    assert t == s + (t - s);
  }

  lemma {:induction false} SetOutcomesOk(d: Discovery, o: Oracles, addrs: seq<Multiaddr>, outcome: DialOutcome)
    requires DiscoveryInv(d, o)
    ensures DiscoveryInv(SetOutcomes(d, addrs, outcome), o)
    decreases |addrs|
  {
    if addrs != [] {
      SetOutcomeOk(d, o, addrs[0], outcome);
      SetOutcomesOk(SetOutcome(d, addrs[0], outcome), o, addrs[1..], outcome);
    }
  }

  lemma SetOutcomeOk(d: Discovery, o: Oracles, addr: Multiaddr, outcome: DialOutcome)
    requires DiscoveryInv(d, o)
    ensures DiscoveryInv(SetOutcome(d, addr, outcome), o)
  {
    assert Sourced(SetOutcome(d, addr, outcome), o);
  }

  /** Every event of the loop keeps the invariant, on every path. */
  lemma HandleInv(d: Discovery, o: Oracles, e: Event)
    requires DiscoveryInv(d, o) && Possible(d, o, e)
    ensures DiscoveryInv(Handle(d, o, e), o)
  {
    match e {
      case RecordAnswer(id, found, ok, order) =>
        AnsweredOk(d, o, id, found, ok);
        var d1 := Answered(d, o, id, found, ok);
        AdvanceOk(d1, o, order);
      case ClosestAnswer(id) =>
        var d1 := d.(closest := d.closest - {id});
        Subset(d1.closest, d.closest);
        TopUpClosestOk(d1);
      case Connected(address) =>
        if address.Some? {
          SetOutcomeOk(d, o, address.value, Success);
        }
      case DialErrors(addresses) => SetOutcomesOk(d, o, addresses, Failed);
      case ResubmitTick(order) =>
        ResubmitOk(d, o, order);
      case OtherEvent =>
    }
  }

  /** `discover`: the first top-up, then one event after another. */
  ghost predicate Run(ds: seq<Discovery>, es: seq<Event>, o: Oracles, authorities: seq<PublicKey>) {
    && |ds| == |es| + 1
    && Begun(ds[0], o, authorities)
    && forall k :: 0 <= k < |es| ==> StepAt(ds, es, o, k)
  }

  ghost predicate StepAt(ds: seq<Discovery>, es: seq<Event>, o: Oracles, k: nat)
    requires k < |es| < |ds|
  {
    StepTo(ds[k], o, es[k], ds[k + 1])
  }

  ghost predicate Begun(d: Discovery, o: Oracles, authorities: seq<PublicKey>) {
    exists id, order :: Listing(order, Elements(authorities)) && d == Advance(New(authorities, id), o, order)
  }

  ghost predicate StepTo(d: Discovery, o: Oracles, e: Event, d': Discovery) {
    Possible(d, o, e) && d' == Handle(d, o, e)
  }

  lemma StartInv(authorities: seq<PublicKey>, id: QueryId, o: Oracles, order: seq<PublicKey>)
    requires Listing(order, Elements(authorities))
    ensures DiscoveryInv(Advance(New(authorities, id), o, order), o)
  {
    var d := New(authorities, id);
    assert AllAddresses(d.details) == {} && Elements(d.dials) == {};
    AdvanceOk(d, o, order);
  }

  lemma BegunInv(d: Discovery, o: Oracles, authorities: seq<PublicKey>)
    requires Begun(d, o, authorities)
    ensures DiscoveryInv(d, o) && d.authorities == authorities
  {
    var id, order :| Listing(order, Elements(authorities)) && d == Advance(New(authorities, id), o, order);
    StartInv(authorities, id, o, order);
    AdvanceOk(New(authorities, id), o, order);
  }

  lemma StepInv(d: Discovery, o: Oracles, e: Event, d': Discovery)
    requires DiscoveryInv(d, o) && StepTo(d, o, e, d')
    ensures DiscoveryInv(d', o) && d'.authorities == d.authorities
  {
    HandleInv(d, o, e);
    HandleKeepsList(d, o, e);
  }

  lemma {:induction false} RunInv(ds: seq<Discovery>, es: seq<Event>, o: Oracles, authorities: seq<PublicKey>, k: nat)
    requires Run(ds, es, o, authorities) && k < |ds|
    ensures DiscoveryInv(ds[k], o) && ds[k].authorities == authorities
  {
    if k == 0 {
      BegunInv(ds[0], o, authorities);
    } else {
      var j := k - 1;
      RunInv(ds, es, o, authorities, j);
      assert StepAt(ds, es, o, j);
      StepInv(ds[j], o, es[j], ds[j + 1]);
    }
  }

  lemma HandleKeepsList(d: Discovery, o: Oracles, e: Event)
    requires DiscoveryInv(d, o) && Possible(d, o, e)
    ensures Handle(d, o, e).authorities == d.authorities
  {
    match e {
      case RecordAnswer(id, found, ok, order) =>
        AnsweredOk(d, o, id, found, ok);
        AdvanceOk(Answered(d, o, id, found, ok), o, order);
      case ClosestAnswer(id) =>
        Subset(d.closest - {id}, d.closest);
        TopUpClosestOk(d.(closest := d.closest - {id}));
      case DialErrors(addresses) => OutcomesKeepList(d, addresses, Failed);
      case ResubmitTick(order) => ResubmitOk(d, o, order);
      case _ =>
    }
  }

  lemma {:induction false} OutcomesKeepList(d: Discovery, addrs: seq<Multiaddr>, outcome: DialOutcome)
    ensures SetOutcomes(d, addrs, outcome).authorities == d.authorities
    decreases |addrs|
  {
    if addrs != [] {
      OutcomesKeepList(SetOutcome(d, addrs[0], outcome), addrs[1..], outcome);
    }
  }

  // ---------------------------------------------------------------------------
  // Theorems about every run
  // ---------------------------------------------------------------------------

  /**
   Between any two events at most 128 record queries are tracked, and either all 128 slots are in
   use or each authority without a record has a query in flight.
   */
  lemma WorkConservation(ds: seq<Discovery>, es: seq<Event>, o: Oracles, authorities: seq<PublicKey>, k: nat,
                         a: PublicKey)
    requires Run(ds, es, o, authorities) && k < |ds|
    ensures |ds[k].queries| <= 128 && |ds[k].closest| == 32
    ensures |ds[k].queries| == 128 || a !in authorities || a in ds[k].details
            || exists id :: id in ds[k].queries && ds[k].queries[id] == a
  {
    RunInv(ds, es, o, authorities, k);
    if a in authorities && a !in ds[k].details && |ds[k].queries| != 128 {
      assert a in Elements(authorities);
      assert a in ds[k].queries.Values;
    }
  }

  ghost predicate Distinct<T>(s: seq<T>) {
    forall i, j :: 0 <= i < j < |s| ==> s[i] != s[j]
  }

  lemma AddToElements<T>(front: seq<T>, x: T)
    ensures Elements(front + [x]) == Elements(front) + {x}
    ensures Distinct(front + [x]) <==> Distinct(front) && x !in Elements(front)
  {
    var s := front + [x];
    assert forall i :: 0 <= i < |front| ==> s[i] == front[i];
    if x in Elements(front) {
      var i :| 0 <= i < |front| && front[i] == x;
      assert s[i] == s[|front|];
    }
  }

  lemma {:induction false} DistinctSize<T>(s: seq<T>)
    ensures |Elements(s)| <= |s| && (|Elements(s)| == |s| <==> Distinct(s))
    decreases |s|
  {
    if s == [] {
      assert Elements(s) == {};
    } else {
      var front, x := s[..|s| - 1], s[|s| - 1];
      DistinctSize(front);
      assert s == front + [x];
      AddToElements(front, x);
      assert x in Elements(front) ==> Elements(front) + {x} == Elements(front);
    }
  }

  /** The exit test by lengths says "all found" exactly when none remain and the list had no duplicates. */
  lemma CompletionTest(ds: seq<Discovery>, es: seq<Event>, o: Oracles, authorities: seq<PublicKey>, k: nat)
    requires Run(ds, es, o, authorities) && k < |ds|
    ensures |ds[k].details| == |authorities| <==> Distinct(authorities) && ds[k].remaining == {}
  {
    RunInv(ds, es, o, authorities, k);
    DistinctSize(authorities);
    SplitSize(ds[k].details.Keys, ds[k].remaining, Elements(authorities));
  }

  lemma SplitSize<T>(s: set<T>, t: set<T>, u: set<T>)
    requires s <= u && t == u - s
    ensures |u| == |s| + |t| && (|t| == 0 <==> t == {})
  {
    assert u == s + t;
  }

  /** A found address came with a record accepted for that authority; a wanted authority has none. */
  lemma FoundAndWanted(ds: seq<Discovery>, es: seq<Event>, o: Oracles, authorities: seq<PublicKey>, k: nat,
                       a: PublicKey, x: Multiaddr)
    requires Run(ds, es, o, authorities) && k < |ds|
    ensures a in ds[k].remaining <==> a in authorities && a !in ds[k].details
    ensures a in ds[k].details ==> a in authorities
    ensures a in ds[k].details && x in ds[k].details[a] ==>
              exists v, p, addrs :: Genuine(o, v, a, p, addrs) && x in addrs
  {
    RunInv(ds, es, o, authorities, k);
    var d := ds[k];
    assert a in authorities <==> a in Elements(authorities);
    if a in d.details && x in d.details[a] {
      var v :| (a, v) in d.accepted && Decode(o, v, a).Ok? && x in Decode(o, v, a).value.1;
      var (p, addrs) := Decode(o, v, a).value;
      AcceptedIffGenuine(o, v, a, p, addrs);
    }
  }

  // ---------------------------------------------------------------------------
  // Dial accounting
  // ---------------------------------------------------------------------------

  /** Sum over all authorities of their address counts. */
  ghost function TotalAddresses(details: map<PublicKey, set<Multiaddr>>): nat
    decreases |details|
  {
    if details == map[] then 0
    else
      var a :| a in details;
      assert |(details - {a}).Keys| < |details.Keys|;
      |details[a]| + TotalAddresses(details - {a})
  }

  /** No address is recorded for two authorities. */
  ghost predicate Unshared(details: map<PublicKey, set<Multiaddr>>) {
    forall a, b :: a in details && b in details && a != b ==> details[a] !! details[b]
  }

  lemma {:induction false} TotalRemove(details: map<PublicKey, set<Multiaddr>>, a: PublicKey)
    requires a in details
    ensures TotalAddresses(details) == |details[a]| + TotalAddresses(details - {a})
    decreases |details|
  {
    var c :| c in details && TotalAddresses(details) == |details[c]| + TotalAddresses(details - {c});
    if c != a {
      assert |(details - {c}).Keys| < |details.Keys| && |(details - {a}).Keys| < |details.Keys|;
      TotalRemove(details - {c}, a);
      TotalRemove(details - {a}, c);
      assert details - {c} - {a} == details - {a} - {c};
    }
  }

  lemma AddressesSplit(details: map<PublicKey, set<Multiaddr>>, a: PublicKey)
    requires a in details
    ensures AllAddresses(details) == details[a] + AllAddresses(details - {a})
    ensures Unshared(details) <==> Unshared(details - {a}) && details[a] !! AllAddresses(details - {a})
  {
    var rest := details - {a};
    forall x | x in AllAddresses(details)
      ensures x in details[a] + AllAddresses(rest)
    {
      var b :| b in details && x in details[b];
      assert b == a || (b in rest && x in rest[b]);
    }
    if Unshared(rest) && details[a] !! AllAddresses(rest) {
      forall b | b in rest
        ensures details[a] !! details[b]
      {
        assert rest[b] <= AllAddresses(rest);
      }
      forall b, c | b in details && c in details && b != c
        ensures details[b] !! details[c]
      {
        assert b != a && c != a ==> rest[b] !! rest[c];
      }
    }
    if Unshared(details) {
      forall x | x in details[a]
        ensures x !in AllAddresses(rest)
      {
        assert forall b :: b in rest ==> details[a] !! details[b];
      }
      assert Unshared(rest);
    }
  }

  /** Counting addresses per authority counts shared ones several times. */
  lemma {:induction false} TotalVersusUnion(details: map<PublicKey, set<Multiaddr>>)
    ensures |AllAddresses(details)| <= TotalAddresses(details)
    ensures |AllAddresses(details)| == TotalAddresses(details) <==> Unshared(details)
    decreases |details|
  {
    if details == map[] {
      assert AllAddresses(details) == {};
    } else {
      var a :| a in details;
      var rest := details - {a};
      assert |rest.Keys| < |details.Keys|;
      TotalRemove(details, a);
      AddressesSplit(details, a);
      TotalVersusUnion(rest);
      UnionSize(details[a], AllAddresses(rest));
    }
  }

  lemma UnionSize<T>(s: set<T>, t: set<T>)
    ensures |s + t| <= |s| + |t| && (|s + t| == |s| + |t| <==> s !! t)
  {
    assert |s + t| == |s| + |t| - |s * t|;
    if s * t == {} {
      forall x | x in s
        ensures x !in t
      {
        assert x in t ==> x in s * t;
      }
    }
  }

  /** The addresses whose dial ended in `r`. */
  ghost function DialsWith(outcomes: map<Multiaddr, DialOutcome>, r: DialOutcome): set<Multiaddr> {
    set x | x in outcomes && outcomes[x] == r
  }

  lemma OutcomesSplit(outcomes: map<Multiaddr, DialOutcome>)
    ensures |DialsWith(outcomes, Success)| + |DialsWith(outcomes, Failed)| == |outcomes|
  {
    var connected, failed := DialsWith(outcomes, Success), DialsWith(outcomes, Failed);
    assert connected + failed == outcomes.Keys && connected !! failed;
  }

  /** The subtraction the report makes, which stops at zero. */
  function SaturatingSub(n: nat, m: nat): nat {
    if n >= m then n - m else 0
  }

  /**
   In every reachable state the report's subtraction does not saturate, so connected, failed and
   pending add up to the total; and pending is the number of dialled addresses without an outcome
   exactly when no address is recorded for two authorities.
   */
  lemma DialAccounting(ds: seq<Discovery>, es: seq<Event>, o: Oracles, authorities: seq<PublicKey>, k: nat)
    requires Run(ds, es, o, authorities) && k < |ds|
    ensures var d := ds[k]; var total := TotalAddresses(d.details);
            && |d.outcomes| <= total
            && |DialsWith(d.outcomes, Success)| + |DialsWith(d.outcomes, Failed)|
               + SaturatingSub(total, |d.outcomes|) == total
            && (SaturatingSub(total, |d.outcomes|) == |d.dialed - d.outcomes.Keys| <==> Unshared(d.details))
  {
    RunInv(ds, es, o, authorities, k);
    var d := ds[k];
    TotalVersusUnion(d.details);
    OutcomesSplit(d.outcomes);
    Subset(d.outcomes.Keys, d.dialed);
    assert |d.dialed - d.outcomes.Keys| == |d.dialed| - |d.outcomes.Keys|;
  }

  /** Each recorded address is dialled exactly once, and nothing else is dialled. */
  lemma DialledOnce(ds: seq<Discovery>, es: seq<Event>, o: Oracles, authorities: seq<PublicKey>, k: nat, x: Multiaddr)
    requires Run(ds, es, o, authorities) && k < |ds|
    ensures (exists a :: a in ds[k].details && x in ds[k].details[a]) <==> multiset(ds[k].dials)[x] == 1
    ensures x !in AllAddresses(ds[k].details) ==> multiset(ds[k].dials)[x] == 0 && x !in ds[k].outcomes
  {
    RunInv(ds, es, o, authorities, k);
    DistinctCount(ds[k].dials, x);
    assert x in AllAddresses(ds[k].details) <==> exists a :: a in ds[k].details && x in ds[k].details[a];
  }

  lemma {:induction false} DistinctCount(s: seq<Multiaddr>, x: Multiaddr)
    requires Distinct(s)
    ensures multiset(s)[x] == if x in Elements(s) then 1 else 0
  {
    if s != [] {
      var n := |s| - 1;
      DistinctCount(s[..n], x);
      assert s == s[..n] + [s[n]];
      assert Elements(s) == Elements(s[..n]) + {s[n]};
    }
  }

  /** The dial summary as the report computes it from the final maps. */
  method SummariseDials(details: map<PublicKey, set<Multiaddr>>, outcomes: map<Multiaddr, DialOutcome>)
    returns (connected: nat, failed: nat, total: nat, pending: nat)
    ensures connected == |DialsWith(outcomes, Success)| && failed == |DialsWith(outcomes, Failed)|
    ensures total == TotalAddresses(details)
    ensures pending == SaturatingSub(total, |outcomes|)
  {
    connected := CountOutcomes(outcomes, Success);
    failed := CountOutcomes(outcomes, Failed);
    total := CountAddresses(details);
    pending := if total >= |outcomes| then total - |outcomes| else 0;
  }

  method CountOutcomes(outcomes: map<Multiaddr, DialOutcome>, r: DialOutcome) returns (n: nat)
    ensures n == |DialsWith(outcomes, r)|
  {
    n := 0;
    var left := outcomes.Keys;
    ghost var seen: set<Multiaddr> := {};
    while left != {}
      invariant left <= outcomes.Keys
      invariant n == |seen| && forall x :: x in seen <==> x in outcomes && x !in left && outcomes[x] == r
    {
      var x :| x in left;
      left := left - {x};
      if outcomes[x] == r {
        n := n + 1;
        seen := seen + {x};
      }
    }
    assert seen == DialsWith(outcomes, r);
  }

  method CountAddresses(details: map<PublicKey, set<Multiaddr>>) returns (total: nat)
    ensures total == TotalAddresses(details)
  {
    total := 0;
    var rest := details;
    while rest != map[]
      invariant total + TotalAddresses(rest) == TotalAddresses(details)
      decreases |rest|
    {
      var a :| a in rest;
      TotalRemove(rest, a);
      total := total + |rest[a]|;
      assert |(rest - {a}).Keys| < |rest.Keys|;
      rest := rest - {a};
    }
  }
}
