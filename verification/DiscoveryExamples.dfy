/** Runs of the authority discovery that show where the length test and the dial summary fall short. */
module DiscoveryExamples {
  import opened Wrappers
  import opened Records
  import opened Discovery
  import opened DiscoveryRuns

  /** Every record is accepted and lists the one address `x`. */
  ghost predicate OneAddress(o: Oracles, x: Multiaddr) {
    forall value, a :: Decode(o, value, a) == Ok((0, [x]))
  }

  /** Keys are the authorities themselves. */
  ghost predicate OwnHash(o: Oracles) {
    forall a :: o.hash(a) == a
  }

  lemma OneAddressExists(x: Multiaddr) returns (o: Oracles)
    ensures OneAddress(o, x) && OwnHash(o)
  {
    var peerOf := (_: Multiaddr) => Some(0);
    o := Trusting([x], peerOf);
    forall value, a
      ensures Decode(o, value, a) == Ok((0, [x]))
    {
      assert x in [x];
      TrustingAccepts([x], peerOf, value, a);
    }
  }

  ghost predicate OwnKeys(keys: map<RecordKey, PublicKey>) {
    forall k :: k in keys ==> keys[k] == k
  }

  /** Each key stands for the authority it was made from, and no key is forgotten. */
  ghost predicate Asks(d: Discovery, d': Discovery) {
    d.recordsKeys.Keys <= d'.recordsKeys.Keys && OwnKeys(d'.recordsKeys)
  }

  lemma {:induction false} QueryRecordsAsks(d: Discovery, o: Oracles, batch: seq<PublicKey>)
    requires OwnHash(o) && OwnKeys(d.recordsKeys)
    ensures Asks(d, QueryRecords(d, o, batch))
    decreases |batch|
  {
    if batch != [] {
      QueryRecordsAsks(QueryOne(d, o, batch[0]), o, batch[1..]);
    }
  }

  lemma {:induction false} QueryClosestAsks(d: Discovery, n: nat)
    ensures QueryClosest(d, n).recordsKeys == d.recordsKeys
    decreases n
  {
    if n > 0 {
      QueryClosestAsks(d.(closest := d.closest + {d.nextId}, nextId := d.nextId + 1), n - 1);
    }
  }

  lemma TopUpAsks(d: Discovery)
    ensures TopUpClosest(d).recordsKeys == d.recordsKeys
  {
    if |d.closest| < MAX_DISCOVERY_QUERIES {
      QueryClosestAsks(d, MAX_DISCOVERY_QUERIES - |d.closest|);
    }
  }

  lemma MapGrows(m: map<QueryId, PublicKey>, id: QueryId, a: PublicKey)
    ensures |m[id := a]| <= |m| + 1
  {
    assert m[id := a].Keys == m.Keys + {id};
  }

  /** The first pass forgets no key. */
  lemma {:induction false} FirstPassAsks(d: Discovery, o: Oracles)
    requires OwnHash(o) && OwnKeys(d.recordsKeys)
    ensures Asks(d, FirstPass(d, o))
    decreases |d.authorities| - d.queryIndex
  {
    if |d.queries| < MAX_QUERIES && d.queryIndex < |d.authorities| {
      FirstPassAsks(QueryOne(d, o, d.authorities[d.queryIndex]).(queryIndex := d.queryIndex + 1), o);
    }
  }

  /** It asks for the whole list if the window has room for it. */
  lemma {:induction false} FirstPassAsksAll(d: Discovery, o: Oracles, k: nat)
    requires OwnHash(o) && OwnKeys(d.recordsKeys)
    requires d.queryIndex <= k < |d.authorities| && |d.queries| + |d.authorities| - d.queryIndex <= MAX_QUERIES
    ensures d.authorities[k] in FirstPass(d, o).recordsKeys
    decreases k - d.queryIndex
  {
    var a := d.authorities[d.queryIndex];
    var next := QueryOne(d, o, a).(queryIndex := d.queryIndex + 1);
    if k == d.queryIndex {
      FirstPassAsks(next, o);
    } else {
      MapGrows(d.queries, d.nextId, a);
      FirstPassAsksAll(next, o, k);
    }
  }

  lemma BackfillAsks(d: Discovery, o: Oracles, order: seq<PublicKey>)
    requires OwnHash(o) && OwnKeys(d.recordsKeys)
    ensures Asks(d, Backfill(d, o, order))
  {
    if |d.queries| < MAX_QUERIES {
      QueryRecordsAsks(d, o, TakeFree(order, d.queries.Values, MAX_QUERIES - |d.queries|));
    }
  }

  lemma AdvanceAsks(d: Discovery, o: Oracles, order: seq<PublicKey>)
    requires OwnHash(o) && OwnKeys(d.recordsKeys)
    ensures Asks(d, Advance(d, o, order)) && Asks(FirstPass(d, o), Advance(d, o, order))
  {
    FirstPassAsks(d, o);
    BackfillAsks(FirstPass(d, o), o, order);
    TopUpAsks(Backfill(FirstPass(d, o), o, order));
  }

  /** How `discover` begins: every authority of a short list is asked for. */
  lemma Begins(o: Oracles, authorities: seq<PublicKey>, order: seq<PublicKey>) returns (d: Discovery)
    requires OwnHash(o) && |authorities| <= MAX_QUERIES && Listing(order, Elements(authorities))
    ensures Run([d], [], o, authorities) && OwnKeys(d.recordsKeys)
    ensures d.details == map[] && d.remaining == Elements(authorities)
    ensures forall a :: a in authorities ==> a in d.recordsKeys
  {
    var start := New(authorities, 0);
    AdvanceOk(start, o, order);
    AdvanceAsks(start, o, order);
    forall a | a in authorities
      ensures a in Advance(start, o, order).recordsKeys
    {
      var k :| 0 <= k < |authorities| && authorities[k] == a;
      FirstPassAsksAll(start, o, k);
    }
    d := Advance(start, o, order);
  }

  /** A record for `a`; the swarm refuses to dial its addresses. */
  function Answer(a: PublicKey, order: seq<PublicKey>): Event {
    RecordAnswer(0, Some(Found(a, [])), _ => false, order)
  }

  lemma RecordOne(d: Discovery, a: PublicKey, value: Bytes, x: Multiaddr, ok: Multiaddr -> bool)
    ensures var d' := Record(d, a, value, [x], ok);
            && d'.details == d.details[a := SetAt(d.details, a) + {x}] && d'.remaining == d.remaining - {a}
            && d'.recordsKeys == d.recordsKeys && d.outcomes.Keys <= d'.outcomes.Keys
            && (x !in d.dialed && !ok(x) ==> x in d'.outcomes)
  {
    var noted := d.(details := d.details[a := SetAt(d.details, a) + Elements([x])],
                    accepted := d.accepted + {(a, value)});
    var addrs := [x];
    assert addrs[1..] == [] && Elements(addrs) == {x};
    assert DialAll(noted, addrs, ok) == Dial(noted, x, ok(x));
  }

  /** A record for `a` comes in. */
  lemma Notes(d: Discovery, o: Oracles, x: Multiaddr, a: PublicKey, ok: Multiaddr -> bool)
    requires OneAddress(o, x) && OwnKeys(d.recordsKeys) && a in d.recordsKeys
    ensures var d' := Answered(d, o, 0, Some(Found(a, [])), ok);
            && d'.details == d.details[a := SetAt(d.details, a) + {x}] && d'.remaining == d.remaining - {a}
            && d'.recordsKeys == d.recordsKeys && d.outcomes.Keys <= d'.outcomes.Keys
            && (x !in d.dialed && !ok(x) ==> x in d'.outcomes)
  {
    var d0 := d.(queries := d.queries - {0});
    assert d0.recordsKeys[a] == a && Decode(o, [], a) == Ok((0, [x]));
    assert Judge(d0, o, a, [], ok) == Record(d0, a, [], [x], ok);
    RecordOne(d0, a, [], x, ok);
  }

  lemma Finds(d: Discovery, o: Oracles, x: Multiaddr, a: PublicKey, order: seq<PublicKey>) returns (d': Discovery)
    requires OneAddress(o, x) && OwnHash(o)
    requires DiscoveryInv(d, o) && OwnKeys(d.recordsKeys) && a in d.recordsKeys && Listing(order, d.remaining - {a})
    ensures StepTo(d, o, Answer(a, order), d') && DiscoveryInv(d', o) && Asks(d, d')
    ensures d'.details == d.details[a := SetAt(d.details, a) + {x}] && d'.remaining == d.remaining - {a}
    ensures d.outcomes.Keys <= d'.outcomes.Keys && (d.details == map[] ==> x in d'.outcomes)
  {
    assert d.dialed == AllAddresses(d.details);
    var e := Answer(a, order);
    Notes(d, o, x, a, e.ok);
    var answered := Answered(d, o, 0, e.found, e.ok);
    HandleInv(d, o, e);
    AnsweredOk(d, o, 0, e.found, e.ok);
    AdvanceOk(answered, o, order);
    AdvanceAsks(answered, o, order);
    d' := Handle(d, o, e);
  }

  lemma RunOfOne(authorities: seq<PublicKey>, o: Oracles, d: Discovery, e: Event, d1: Discovery)
    requires Run([d], [], o, authorities) && StepTo(d, o, e, d1)
    ensures Run([d, d1], [e], o, authorities)
  {
    assert [d][0] == d;
  }

  lemma RunOfTwo(authorities: seq<PublicKey>, o: Oracles, d: Discovery, e: Event, d1: Discovery, e1: Event,
                 d2: Discovery)
    requires Run([d, d1], [e], o, authorities) && StepTo(d1, o, e1, d2)
    ensures Run([d, d1, d2], [e, e1], o, authorities)
  {
    assert StepAt([d, d1], [e], o, 0);
  }

  lemma RunFinds(authorities: seq<PublicKey>, o: Oracles, x: Multiaddr, d: Discovery, a: PublicKey,
                 order: seq<PublicKey>)
    returns (e: Event, d1: Discovery)
    requires OneAddress(o, x) && OwnHash(o) && Run([d], [], o, authorities)
    requires OwnKeys(d.recordsKeys) && a in d.recordsKeys && Listing(order, d.remaining - {a})
    ensures Run([d, d1], [e], o, authorities) && Asks(d, d1)
    ensures d1.details == d.details[a := SetAt(d.details, a) + {x}] && d1.remaining == d.remaining - {a}
    ensures d.details == map[] ==> x in d1.outcomes
  {
    RunInv([d], [], o, authorities, 0);
    e := Answer(a, order);
    d1 := Finds(d, o, x, a, order);
    RunOfOne(authorities, o, d, e, d1);
  }

  lemma RunFindsNext(authorities: seq<PublicKey>, o: Oracles, x: Multiaddr, d: Discovery, e: Event, d1: Discovery,
                     b: PublicKey, order: seq<PublicKey>)
    returns (e1: Event, d2: Discovery)
    requires OneAddress(o, x) && OwnHash(o) && Run([d, d1], [e], o, authorities)
    requires OwnKeys(d1.recordsKeys) && b in d1.recordsKeys && Listing(order, d1.remaining - {b})
    ensures Run([d, d1, d2], [e, e1], o, authorities)
    ensures d2.details == d1.details[b := SetAt(d1.details, b) + {x}] && d1.outcomes.Keys <= d2.outcomes.Keys
  {
    RunInv([d, d1], [e], o, authorities, 1);
    e1 := Answer(b, order);
    d2 := Finds(d1, o, x, b, order);
    RunOfTwo(authorities, o, d, e, d1, e1, d2);
  }

  /** A run that begins by finding `a`. */
  lemma FindsFirst(list: seq<PublicKey>, a: PublicKey, x: Multiaddr, order: seq<PublicKey>, rest: seq<PublicKey>)
    returns (d: Discovery, e: Event, d1: Discovery, o: Oracles)
    requires |list| <= MAX_QUERIES && Listing(order, Elements(list)) && a in list && Listing(rest, Elements(list) - {a})
    ensures OneAddress(o, x) && OwnHash(o) && Run([d, d1], [e], o, list)
    ensures OwnKeys(d1.recordsKeys) && forall b :: b in list ==> b in d1.recordsKeys
    ensures d1.details == map[a := {x}] && d1.remaining == Elements(list) - {a} && x in d1.outcomes
  {
    o := OneAddressExists(x);
    d := Begins(o, list, order);
    e, d1 := RunFinds(list, o, x, d, a, rest);
  }

  /** A list with a duplicate: nothing remains to be found, and the length test still says no. */
  lemma DuplicateNeverCompletes(a: PublicKey) returns (ds: seq<Discovery>, es: seq<Event>, o: Oracles)
    ensures Run(ds, es, o, [a, a]) && |ds| == 2
    ensures ds[1].remaining == {} && |ds[1].details| != |[a, a]|
  {
    assert Elements([a, a]) == {a} && Elements([a]) == {a} && Elements<PublicKey>([]) == {};
    var d, e, d1;
    d, e, d1, o := FindsFirst([a, a], a, 0, [a], []);
    ds, es := [d, d1], [e];
    assert d1.details.Keys == {a};
  }

  /** A run that finds two authorities, whose records list the same address. */
  lemma FindsTwo(list: seq<PublicKey>, a: PublicKey, b: PublicKey, x: Multiaddr, second: seq<PublicKey>)
    returns (ds: seq<Discovery>, es: seq<Event>, o: Oracles)
    requires a != b && |list| <= MAX_QUERIES && Listing(list, {a, b}) && Listing(second, {b}) && a in list && b in list
    ensures Run(ds, es, o, list) && |ds| == 3
    ensures ds[2].details == map[a := {x}, b := {x}] && x in ds[2].outcomes
  {
    assert {a, b} - {a} == {b};
    var d, e, d1;
    d, e, d1, o := FindsFirst(list, a, x, list, second);
    assert SetAt(d1.details, b) + {x} == {x};
    assert Listing([], {b} - {b});
    var e1, d2 := RunFindsNext(list, o, x, d, e, d1, b, []);
    ds, es := [d, d1, d2], [e, e1];
  }

  /**
   Two authorities with records that list the same address: the summary counts it twice, so
   pending is not the number of dialled addresses without an outcome.
   */
  lemma SharedAddress(a: PublicKey, b: PublicKey, x: Multiaddr) returns (ds: seq<Discovery>, es: seq<Event>, o: Oracles)
    requires a != b
    ensures Run(ds, es, o, [a, b]) && |ds| == 3
    ensures ds[2].details == map[a := {x}, b := {x}] && x in ds[2].outcomes && !Unshared(ds[2].details)
    ensures SaturatingSub(TotalAddresses(ds[2].details), |ds[2].outcomes|) != |ds[2].dialed - ds[2].outcomes.Keys|
  {
    assert Elements([a, b]) == {a, b} && Elements([b]) == {b};
    ds, es, o := FindsTwo([a, b], a, b, x, [b]);
    assert x in ds[2].details[a] && x in ds[2].details[b];
    DialAccounting(ds, es, o, [a, b], 2);
  }
}
