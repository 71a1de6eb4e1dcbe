/**
 The books read off the events: which addresses are recorded, how each dial ended and which queries
 are tracked, as the events of the run tell it.
 */
module DiscoveryHistory {
  import opened Wrappers
  import opened Records
  import opened Discovery
  import opened DiscoveryRuns

  // ---------------------------------------------------------------------------
  // What an event says
  // ---------------------------------------------------------------------------

  /** The event brings, under a key that was asked for, a genuine record of `a` that lists `x`. */
  ghost predicate Brings(d: Discovery, o: Oracles, e: Event, a: PublicKey, x: Multiaddr) {
    && e.RecordAnswer? && e.found.Some? && e.found.value.key in d.recordsKeys && d.recordsKeys[e.found.value.key] == a
    && exists p, addrs :: Genuine(o, e.found.value.value, a, p, addrs) && x in addrs
  }

  /** The same, for the authority whose key the record was found under. */
  ghost predicate BringsAny(d: Discovery, o: Oracles, e: Event, x: Multiaddr) {
    && e.RecordAnswer? && e.found.Some? && e.found.value.key in d.recordsKeys
    && Brings(d, o, e, d.recordsKeys[e.found.value.key], x)
  }

  /** Event `m` of the run does so, for `a` or for whichever authority. */
  ghost predicate BringsAt(ds: seq<Discovery>, es: seq<Event>, o: Oracles, m: nat, a: Option<PublicKey>, x: Multiaddr)
    requires m < |es| < |ds|
  {
    match a
    case Some(b) => Brings(ds[m], o, es[m], b, x)
    case None => BringsAny(ds[m], o, es[m], x)
  }

  /** One of the first `k` events brought `x`. */
  ghost predicate Brought(ds: seq<Discovery>, es: seq<Event>, o: Oracles, k: nat, a: Option<PublicKey>, x: Multiaddr)
    requires k <= |es| < |ds|
  {
    k > 0 && (Brought(ds, es, o, k - 1, a, x) || BringsAt(ds, es, o, k - 1, a, x))
  }

  lemma {:induction false} BroughtBy(
    ds: seq<Discovery>, es: seq<Event>, o: Oracles, k: nat, a: Option<PublicKey>, x: Multiaddr) returns (m: nat)
    requires k <= |es| < |ds| && Brought(ds, es, o, k, a, x)
    ensures m < k && BringsAt(ds, es, o, m, a, x)
    decreases k
  {
    if Brought(ds, es, o, k - 1, a, x) {
      m := BroughtBy(ds, es, o, k - 1, a, x);
    } else {
      m := k - 1;
    }
  }

  lemma {:induction false} BroughtSince(
    ds: seq<Discovery>, es: seq<Event>, o: Oracles, k: nat, a: Option<PublicKey>, x: Multiaddr, m: nat)
    requires m < k <= |es| < |ds| && BringsAt(ds, es, o, m, a, x)
    ensures Brought(ds, es, o, k, a, x)
    decreases k
  {
    if m < k - 1 {
      BroughtSince(ds, es, o, k - 1, a, x, m);
    }
  }

  /** How a dial of `x` ended, if the event tells; `dialled` says whether it was dialled before. */
  ghost function EndOf(d: Discovery, o: Oracles, e: Event, x: Multiaddr, dialled: bool): Option<DialOutcome> {
    match e
    case Connected(address) => if address == Some(x) && dialled then Some(Success) else None
    case DialErrors(addresses) => if x in addresses && dialled then Some(Failed) else None
    case RecordAnswer(_, _, ok, _) => if BringsAny(d, o, e, x) && !dialled && !ok(x) then Some(Failed) else None
    case _ => None
  }

  /** What event `m` of the run tells about the dial of `x`. */
  ghost function Told(ds: seq<Discovery>, es: seq<Event>, o: Oracles, m: nat, x: Multiaddr): Option<DialOutcome>
    requires m < |es| < |ds|
  {
    EndOf(ds[m], o, es[m], x, Brought(ds, es, o, m, None, x))
  }

  // ---------------------------------------------------------------------------
  // One event
  // ---------------------------------------------------------------------------

  lemma {:induction false} DialAllOutcome(d: Discovery, addrs: seq<Multiaddr>, ok: Multiaddr -> bool, x: Multiaddr)
    ensures Get(DialAll(d, addrs, ok).outcomes, x) ==
            if x in addrs && x !in d.dialed && !ok(x) then Some(Failed) else Get(d.outcomes, x)
    decreases |addrs|
  {
    if addrs != [] {
      DialAllOutcome(Dial(d, addrs[0], ok(addrs[0])), addrs[1..], ok, x);
      assert x in addrs <==> x == addrs[0] || x in addrs[1..];
    }
  }

  lemma {:induction false} SetOutcomesOutcome(d: Discovery, addrs: seq<Multiaddr>, r: DialOutcome, x: Multiaddr)
    ensures Get(SetOutcomes(d, addrs, r).outcomes, x) ==
            if x in addrs && x in d.dialed then Some(r) else Get(d.outcomes, x)
    ensures SetOutcomes(d, addrs, r) == d.(outcomes := SetOutcomes(d, addrs, r).outcomes)
    decreases |addrs|
  {
    if addrs != [] {
      SetOutcomesOutcome(SetOutcome(d, addrs[0], r), addrs[1..], r, x);
      assert x in addrs <==> x == addrs[0] || x in addrs[1..];
    }
  }

  /** The last word counts. */
  function Later<T>(before: Option<T>, told: Option<T>): Option<T> {
    if told.Some? then told else before
  }

  /** The books change as the event says. */
  ghost predicate BooksFollow(d: Discovery, o: Oracles, e: Event, d': Discovery, a: PublicKey, x: Multiaddr) {
    && (x in SetAt(d'.details, a) <==> x in SetAt(d.details, a) || Brings(d, o, e, a, x))
    && Get(d'.outcomes, x) == Later(Get(d.outcomes, x), EndOf(d, o, e, x, x in d.dialed))
  }

  lemma RecordBooks(d: Discovery, a: PublicKey, value: Bytes, addrs: seq<Multiaddr>, ok: Multiaddr -> bool,
                    x: Multiaddr)
    requires Dialled(d)
    ensures var d' := Record(d, a, value, addrs, ok);
            && d'.details == d.details[a := SetAt(d.details, a) + Elements(addrs)]
            && Get(d'.outcomes, x) ==
               (if x in addrs && x !in d.dialed && !ok(x) then Some(Failed) else Get(d.outcomes, x))
  {
    var noted := d.(details := d.details[a := SetAt(d.details, a) + Elements(addrs)],
                    accepted := d.accepted + {(a, value)});
    DialAllOk(noted, addrs, ok);
    DialAllOutcome(noted, addrs, ok, x);
  }

  lemma AnsweredBooks(d: Discovery, o: Oracles, e: Event, a: PublicKey, x: Multiaddr)
    requires Dialled(d) && e.RecordAnswer?
    ensures BooksFollow(d, o, e, Answered(d, o, e.id, e.found, e.ok), a, x)
  {
    if e.found.Some? && e.found.value.key in d.recordsKeys {
      var b, v := d.recordsKeys[e.found.value.key], e.found.value.value;
      var decoded := Decode(o, v, b);
      BringsDecoded(d, o, e, x);
      if decoded.Ok? {
        RecordBooks(d.(queries := d.queries - {e.id}), b, v, decoded.value.1, e.ok, x);
        assert x in Elements(decoded.value.1) <==> x in decoded.value.1;
      }
    }
  }

  lemma BringsDecoded(d: Discovery, o: Oracles, e: Event, x: Multiaddr)
    requires e.RecordAnswer? && e.found.Some? && e.found.value.key in d.recordsKeys
    ensures var b, v := d.recordsKeys[e.found.value.key], e.found.value.value;
            Brings(d, o, e, b, x) <==> Decode(o, v, b).Ok? && x in Decode(o, v, b).value.1
  {
    var b, v := d.recordsKeys[e.found.value.key], e.found.value.value;
    if Decode(o, v, b).Ok? {
      AcceptedIffGenuine(o, v, b, Decode(o, v, b).value.0, Decode(o, v, b).value.1);
    }
    if Brings(d, o, e, b, x) {
      var p, addrs :| Genuine(o, v, b, p, addrs) && x in addrs;
      AcceptedIffGenuine(o, v, b, p, addrs);
    }
  }

  lemma SameBooksFollow(
    d: Discovery, o: Oracles, e: Event, d1: Discovery, d2: Discovery, a: PublicKey, x: Multiaddr)
    requires BooksFollow(d, o, e, d1, a, x) && SameBooks(d1, d2)
    ensures BooksFollow(d, o, e, d2, a, x)
  {
  }

  lemma RecordAnswerFollows(d: Discovery, o: Oracles, e: Event, a: PublicKey, x: Multiaddr)
    requires DiscoveryInv(d, o) && e.RecordAnswer? && Possible(d, o, e)
    ensures BooksFollow(d, o, e, Handle(d, o, e), a, x)
  {
    var d1 := Answered(d, o, e.id, e.found, e.ok);
    AnsweredOk(d, o, e.id, e.found, e.ok);
    AnsweredBooks(d, o, e, a, x);
    AdvanceOk(d1, o, e.order);
    SameBooksFollow(d, o, e, d1, Advance(d1, o, e.order), a, x);
  }

  /** Events that leave the books alone say nothing about them. */
  lemma QuietFollows(d: Discovery, o: Oracles, e: Event, d': Discovery, a: PublicKey, x: Multiaddr)
    requires (e.ClosestAnswer? || e.ResubmitTick? || e.OtherEvent?) && SameBooks(d, d')
    ensures BooksFollow(d, o, e, d', a, x)
  {
  }

  lemma ConnectedFollows(d: Discovery, o: Oracles, address: Option<Multiaddr>, a: PublicKey, x: Multiaddr)
    ensures BooksFollow(d, o, Connected(address), Handle(d, o, Connected(address)), a, x)
  {
  }

  lemma DialErrorsFollow(d: Discovery, o: Oracles, addresses: seq<Multiaddr>, a: PublicKey, x: Multiaddr)
    ensures BooksFollow(d, o, DialErrors(addresses), Handle(d, o, DialErrors(addresses)), a, x)
  {
    SetOutcomesOutcome(d, addresses, Failed, x);
  }

  lemma ClosestKeeps(d: Discovery, o: Oracles, id: QueryId)
    requires QueriesOk(d)
    ensures SameBooks(d, Handle(d, o, ClosestAnswer(id)))
  {
    Subset(d.closest - {id}, d.closest);
    TopUpClosestOk(d.(closest := d.closest - {id}));
  }

  lemma HandleFollows(d: Discovery, o: Oracles, e: Event, a: PublicKey, x: Multiaddr)
    requires DiscoveryInv(d, o) && Possible(d, o, e)
    ensures BooksFollow(d, o, e, Handle(d, o, e), a, x)
  {
    match e {
      case RecordAnswer(_, _, _, _) => RecordAnswerFollows(d, o, e, a, x);
      case Connected(address) => ConnectedFollows(d, o, address, a, x);
      case DialErrors(addresses) => DialErrorsFollow(d, o, addresses, a, x);
      case ClosestAnswer(id) =>
        ClosestKeeps(d, o, id);
        QuietFollows(d, o, e, Handle(d, o, e), a, x);
      case ResubmitTick(order) =>
        ResubmitOk(d, o, order);
        QuietFollows(d, o, e, Handle(d, o, e), a, x);
      case OtherEvent => QuietFollows(d, o, e, d, a, x);
    }
  }

  // ---------------------------------------------------------------------------
  // Every run
  // ---------------------------------------------------------------------------

  lemma StepRecords(
    ds: seq<Discovery>, es: seq<Event>, o: Oracles, authorities: seq<PublicKey>, k: nat, a: PublicKey, x: Multiaddr)
    requires Run(ds, es, o, authorities) && k < |es|
    ensures RecordsAt(ds, es, o, k, a, x)
  {
    RunInv(ds, es, o, authorities, k);
    assert StepAt(ds, es, o, k);
    HandleFollows(ds[k], o, es[k], a, x);
  }

  lemma StepTells(ds: seq<Discovery>, es: seq<Event>, o: Oracles, authorities: seq<PublicKey>, k: nat, x: Multiaddr)
    requires Run(ds, es, o, authorities) && k < |es|
    ensures TellsAt(ds, es, o, k, x)
  {
    RunInv(ds, es, o, authorities, k);
    assert StepAt(ds, es, o, k);
    HandleFollows(ds[k], o, es[k], 0, x);
    DialledIffBrought(ds, es, o, authorities, k, x);
  }

  lemma BegunEmpty(d: Discovery, o: Oracles, authorities: seq<PublicKey>)
    requires Begun(d, o, authorities)
    ensures d.details == map[] && d.outcomes == map[] && d.dialed == {}
  {
    var id, order :| Listing(order, Elements(authorities)) && d == Advance(New(authorities, id), o, order);
    AdvanceOk(New(authorities, id), o, order);
  }

  ghost predicate RecordsAt(ds: seq<Discovery>, es: seq<Event>, o: Oracles, k: nat, a: PublicKey, x: Multiaddr)
    requires k < |es| < |ds|
  {
    x in SetAt(ds[k + 1].details, a) <==> x in SetAt(ds[k].details, a) || BringsAt(ds, es, o, k, Some(a), x)
  }

  lemma {:induction false} RecordsAdd(ds: seq<Discovery>, es: seq<Event>, o: Oracles, k: nat, a: PublicKey,
                                      x: Multiaddr)
    requires k <= |es| < |ds| && x !in SetAt(ds[0].details, a)
    requires forall m :: 0 <= m < k ==> RecordsAt(ds, es, o, m, a, x)
    ensures x in SetAt(ds[k].details, a) <==> Brought(ds, es, o, k, Some(a), x)
    decreases k
  {
    if k > 0 {
      var j := k - 1;
      RecordsAdd(ds, es, o, j, a, x);
      assert RecordsAt(ds, es, o, j, a, x);
    }
  }

  lemma AllRecord(
    ds: seq<Discovery>, es: seq<Event>, o: Oracles, authorities: seq<PublicKey>, a: PublicKey, x: Multiaddr)
    requires Run(ds, es, o, authorities)
    ensures x !in SetAt(ds[0].details, a)
    ensures forall m :: 0 <= m < |es| ==> RecordsAt(ds, es, o, m, a, x)
  {
    BegunEmpty(ds[0], o, authorities);
    forall m | 0 <= m < |es|
      ensures RecordsAt(ds, es, o, m, a, x)
    {
      StepRecords(ds, es, o, authorities, m, a, x);
    }
  }

  /** An address is recorded for an authority exactly if some event brought it in a genuine record of that authority. */
  lemma RecordedIffBrought(
    ds: seq<Discovery>, es: seq<Event>, o: Oracles, authorities: seq<PublicKey>, k: nat, a: PublicKey, x: Multiaddr)
    requires Run(ds, es, o, authorities) && k < |ds|
    ensures x in SetAt(ds[k].details, a) <==> Brought(ds, es, o, k, Some(a), x)
  {
    AllRecord(ds, es, o, authorities, a, x);
    RecordsAdd(ds, es, o, k, a, x);
  }

  lemma BringsForOne(ds: seq<Discovery>, es: seq<Event>, o: Oracles, m: nat, x: Multiaddr) returns (a: PublicKey)
    requires m < |es| < |ds|
    ensures BringsAt(ds, es, o, m, None, x) ==> BringsAt(ds, es, o, m, Some(a), x)
    ensures forall b :: BringsAt(ds, es, o, m, Some(b), x) ==> BringsAt(ds, es, o, m, None, x)
  {
    a := if BringsAt(ds, es, o, m, None, x) then ds[m].recordsKeys[es[m].found.value.key] else 0;
  }

  lemma {:induction false} BroughtForOne(ds: seq<Discovery>, es: seq<Event>, o: Oracles, k: nat, x: Multiaddr)
    returns (a: PublicKey)
    requires k <= |es| < |ds| && Brought(ds, es, o, k, None, x)
    ensures Brought(ds, es, o, k, Some(a), x)
  {
    var m := BroughtBy(ds, es, o, k, None, x);
    a := BringsForOne(ds, es, o, m, x);
    BroughtSince(ds, es, o, k, Some(a), x, m);
  }

  lemma BroughtForAny(ds: seq<Discovery>, es: seq<Event>, o: Oracles, k: nat, a: PublicKey, x: Multiaddr)
    requires k <= |es| < |ds| && Brought(ds, es, o, k, Some(a), x)
    ensures Brought(ds, es, o, k, None, x)
  {
    var m := BroughtBy(ds, es, o, k, Some(a), x);
    var _ := BringsForOne(ds, es, o, m, x);
    BroughtSince(ds, es, o, k, None, x, m);
  }

  /** The addresses dialled are those that some event brought. */
  lemma DialledIffBrought(
    ds: seq<Discovery>, es: seq<Event>, o: Oracles, authorities: seq<PublicKey>, k: nat, x: Multiaddr)
    requires Run(ds, es, o, authorities) && k < |ds|
    ensures x in ds[k].dialed <==> Brought(ds, es, o, k, None, x)
  {
    RunInv(ds, es, o, authorities, k);
    if x in ds[k].dialed {
      var a :| a in ds[k].details && x in ds[k].details[a];
      RecordedIffBrought(ds, es, o, authorities, k, a, x);
      BroughtForAny(ds, es, o, k, a, x);
    }
    if Brought(ds, es, o, k, None, x) {
      var a := BroughtForOne(ds, es, o, k, x);
      RecordedIffBrought(ds, es, o, authorities, k, a, x);
      assert x in AllAddresses(ds[k].details);
    }
  }

  /** The last word of `told` is `r`. */
  ghost predicate LastWord(told: seq<Option<DialOutcome>>, r: DialOutcome) {
    exists m :: 0 <= m < |told| && told[m] == Some(r) && forall n :: m < n < |told| ==> told[n].None?
  }

  lemma LastWordNext(told: seq<Option<DialOutcome>>, next: Option<DialOutcome>, r: DialOutcome)
    ensures LastWord(told + [next], r) <==> (if next.Some? then next == Some(r) else LastWord(told, r))
  {
    var all := told + [next];
    assert all[|told|] == next;
    if LastWord(told, r) {
      var m :| 0 <= m < |told| && told[m] == Some(r) && forall n :: m < n < |told| ==> told[n].None?;
      assert all[m] == Some(r);
    }
    if LastWord(all, r) && next.None? {
      var m :| 0 <= m < |all| && all[m] == Some(r) && forall n :: m < n < |all| ==> all[n].None?;
      assert told[m] == Some(r) && forall n :: m < n < |told| ==> told[n] == all[n];
    }
  }

  /** Outcomes that follow what is told: at each point, the last word so far. */
  lemma {:induction false} LastWordCounts(
    outs: seq<Option<DialOutcome>>, told: seq<Option<DialOutcome>>, k: nat, r: DialOutcome)
    requires |outs| == |told| + 1 && k <= |told| && outs[0].None?
    requires forall m :: 0 <= m < |told| ==> outs[m + 1] == Later(outs[m], told[m])
    ensures outs[k] == Some(r) <==> LastWord(told[..k], r)
    decreases k
  {
    if k > 0 {
      var j := k - 1;
      LastWordCounts(outs, told, j, r);
      assert outs[j + 1] == Later(outs[j], told[j]);
      assert told[..k] == told[..j] + [told[j]];
      LastWordNext(told[..j], told[j], r);
    }
  }

  ghost predicate TellsAt(ds: seq<Discovery>, es: seq<Event>, o: Oracles, k: nat, x: Multiaddr)
    requires k < |es| < |ds|
  {
    Get(ds[k + 1].outcomes, x) == Later(Get(ds[k].outcomes, x), Told(ds, es, o, k, x))
  }

  lemma AllTell(ds: seq<Discovery>, es: seq<Event>, o: Oracles, authorities: seq<PublicKey>, x: Multiaddr)
    requires Run(ds, es, o, authorities)
    ensures Get(ds[0].outcomes, x).None? && forall m :: 0 <= m < |es| ==> TellsAt(ds, es, o, m, x)
  {
    BegunEmpty(ds[0], o, authorities);
    forall m | 0 <= m < |es|
      ensures TellsAt(ds, es, o, m, x)
    {
      StepTells(ds, es, o, authorities, m, x);
    }
  }

  /** The outcome kept for `x`, beside what each event tells. */
  lemma Chronicle(ds: seq<Discovery>, es: seq<Event>, o: Oracles, x: Multiaddr)
    returns (outs: seq<Option<DialOutcome>>, told: seq<Option<DialOutcome>>)
    requires |ds| == |es| + 1 && Get(ds[0].outcomes, x).None? && forall m :: 0 <= m < |es| ==> TellsAt(ds, es, o, m, x)
    ensures |outs| == |ds| && forall k :: 0 <= k < |ds| ==> outs[k] == Get(ds[k].outcomes, x)
    ensures |told| == |es| && forall m :: 0 <= m < |es| ==> told[m] == Told(ds, es, o, m, x)
    ensures outs[0].None? && forall m :: 0 <= m < |told| ==> outs[m + 1] == Later(outs[m], told[m])
  {
    outs := seq(|ds|, k requires 0 <= k < |ds| => Get(ds[k].outcomes, x));
    told := seq(|es|, m requires 0 <= m < |es| < |ds| => Told(ds, es, o, m, x));
    forall m | 0 <= m < |told|
      ensures outs[m + 1] == Later(outs[m], told[m])
    {
      assert TellsAt(ds, es, o, m, x);
    }
  }

  /**
   In every run, the outcome kept for an address is the one told by the last event about it since it
   was first dialled: a connection means success, an error that names it or a dial the swarm refused
   means failure. Without such an event there is none.
   */
  lemma OutcomeIsLastTold(
    ds: seq<Discovery>, es: seq<Event>, o: Oracles, authorities: seq<PublicKey>, k: nat, x: Multiaddr, r: DialOutcome)
    returns (told: seq<Option<DialOutcome>>)
    requires Run(ds, es, o, authorities) && k < |ds|
    ensures |told| == |es| && forall m :: 0 <= m < |es| ==> told[m] == Told(ds, es, o, m, x)
    ensures Get(ds[k].outcomes, x) == Some(r) <==> LastWord(told[..k], r)
  {
    var outs;
    AllTell(ds, es, o, authorities, x);
    outs, told := Chronicle(ds, es, o, x);
    LastWordCounts(outs, told, k, r);
  }

  // ---------------------------------------------------------------------------
  // Queries and their keys
  // ---------------------------------------------------------------------------

  /** Keys are kept under the hash of their authority, and every tracked query has its key. */
  ghost predicate KeysOk(d: Discovery, o: Oracles) {
    && (forall key :: key in d.recordsKeys ==> o.hash(d.recordsKeys[key]) == key)
    && (forall id :: id in d.queries ==> o.hash(d.queries[id]) in d.recordsKeys)
  }

  /** Tracked queries are old ones or new ones under fresh ids, with their keys; keys are never forgotten. */
  ghost predicate Grows(d: Discovery, d': Discovery, o: Oracles) {
    && d.nextId <= d'.nextId
    && d.recordsKeys.Keys <= d'.recordsKeys.Keys
    && (forall id :: id in d'.queries ==> (id in d.queries && d'.queries[id] == d.queries[id]) || id >= d.nextId)
    && (forall id :: id in d'.closest ==> id in d.closest || id >= d.nextId)
    && (KeysOk(d, o) ==> KeysOk(d', o))
  }

  lemma GrowsTransitive(d: Discovery, d1: Discovery, d2: Discovery, o: Oracles)
    requires Grows(d, d1, o) && Grows(d1, d2, o)
    ensures Grows(d, d2, o)
  {
  }

  lemma QueryOneGrows(d: Discovery, o: Oracles, a: PublicKey)
    ensures Grows(d, QueryOne(d, o, a), o)
  {
  }

  lemma {:induction false} QueryRecordsGrows(d: Discovery, o: Oracles, batch: seq<PublicKey>)
    ensures Grows(d, QueryRecords(d, o, batch), o)
    decreases |batch|
  {
    if batch != [] {
      var d1 := QueryOne(d, o, batch[0]);
      QueryOneGrows(d, o, batch[0]);
      QueryRecordsGrows(d1, o, batch[1..]);
      GrowsTransitive(d, d1, QueryRecords(d1, o, batch[1..]), o);
    }
  }

  lemma {:induction false} QueryClosestGrows(d: Discovery, n: nat, o: Oracles)
    ensures Grows(d, QueryClosest(d, n), o)
    decreases n
  {
    if n > 0 {
      var d1 := d.(closest := d.closest + {d.nextId}, nextId := d.nextId + 1);
      QueryClosestGrows(d1, n - 1, o);
      GrowsTransitive(d, d1, QueryClosest(d1, n - 1), o);
    }
  }

  lemma {:induction false} NextGrows(d: Discovery, o: Oracles) returns (d1: Discovery)
    requires |d.queries| < MAX_QUERIES && d.queryIndex < |d.authorities|
    ensures Grows(d, d1, o) && FirstPass(d, o) == FirstPass(d1, o)
    ensures |d1.authorities| == |d.authorities| && d1.queryIndex == d.queryIndex + 1
  {
    var asked := QueryOne(d, o, d.authorities[d.queryIndex]);
    QueryOneGrows(d, o, d.authorities[d.queryIndex]);
    IndexGrows(d, asked, o, d.queryIndex + 1);
    d1 := asked.(queryIndex := d.queryIndex + 1);
  }

  lemma IndexGrows(d: Discovery, d1: Discovery, o: Oracles, i: nat)
    requires Grows(d, d1, o)
    ensures Grows(d, d1.(queryIndex := i), o)
  {
  }

  lemma {:induction false} FirstPassGrows(d: Discovery, o: Oracles)
    ensures Grows(d, FirstPass(d, o), o)
    decreases |d.authorities| - d.queryIndex
  {
    if |d.queries| < MAX_QUERIES && d.queryIndex < |d.authorities| {
      var d1 := NextGrows(d, o);
      FirstPassGrows(d1, o);
      GrowsTransitive(d, d1, FirstPass(d1, o), o);
    }
  }

  lemma TopUpGrows(d: Discovery, o: Oracles)
    ensures Grows(d, TopUpClosest(d), o)
  {
    if |d.closest| < MAX_DISCOVERY_QUERIES {
      QueryClosestGrows(d, MAX_DISCOVERY_QUERIES - |d.closest|, o);
    }
  }

  lemma BackfillGrows(d: Discovery, o: Oracles, order: seq<PublicKey>)
    ensures Grows(d, Backfill(d, o, order), o)
  {
    if d.queryIndex >= |d.authorities| && |d.queries| < MAX_QUERIES {
      QueryRecordsGrows(d, o, TakeFree(order, d.queries.Values, MAX_QUERIES - |d.queries|));
    }
  }

  lemma AdvanceGrows(d: Discovery, o: Oracles, order: seq<PublicKey>)
    ensures Grows(d, Advance(d, o, order), o)
  {
    var d1 := FirstPass(d, o);
    var d2 := Backfill(d1, o, order);
    FirstPassGrows(d, o);
    BackfillGrows(d1, o, order);
    GrowsTransitive(d, d1, d2, o);
    TopUpGrows(d2, o);
    GrowsTransitive(d, d2, TopUpClosest(d2), o);
  }

  lemma ResubmitGrows(d: Discovery, o: Oracles, order: seq<PublicKey>)
    ensures Grows(d, Resubmit(d, o, order), o)
  {
    var d1 := d.(queries := map[]);
    var batch := order[..if |order| < MAX_QUERIES then |order| else MAX_QUERIES];
    var d2 := QueryRecords(d1, o, batch);
    QueryRecordsGrows(d1, o, batch);
    GrowsTransitive(d, d1, d2, o);
    if |order| < MAX_QUERIES {
      TopUpGrows(d2, o);
      GrowsTransitive(d, d2, TopUpClosest(d2), o);
    }
  }

  /** Taking down an answer touches neither keys nor other queries. */
  lemma AnsweredGrows(d: Discovery, o: Oracles, id: QueryId, found: Option<Found>, ok: Multiaddr -> bool)
    requires Dialled(d)
    ensures var d' := Answered(d, o, id, found, ok);
            && d'.queries == d.queries - {id} && d'.closest == d.closest
            && d'.recordsKeys == d.recordsKeys && d'.nextId == d.nextId
  {
    if found.Some? && found.value.key in d.recordsKeys {
      var a, v := d.recordsKeys[found.value.key], found.value.value;
      var decoded := Decode(o, v, a);
      if decoded.Ok? {
        var d1 := d.(queries := d.queries - {id});
        DialAllOk(d1.(details := d1.details[a := SetAt(d1.details, a) + Elements(decoded.value.1)],
                      accepted := d1.accepted + {(a, v)}), decoded.value.1, ok);
      }
    }
  }

  lemma {:induction false} OutcomesGrow(d: Discovery, addrs: seq<Multiaddr>, r: DialOutcome, o: Oracles)
    ensures Grows(d, SetOutcomes(d, addrs, r), o)
    decreases |addrs|
  {
    if addrs != [] {
      OutcomesGrow(SetOutcome(d, addrs[0], r), addrs[1..], r, o);
    }
  }

  /** Query `id`, of a record or of closest peers, was issued and is no longer tracked. */
  ghost predicate Gone(d: Discovery, id: QueryId, closest: bool) {
    id < d.nextId && if closest then id !in d.closest else id !in d.queries
  }

  lemma GoneStays(d: Discovery, d': Discovery, o: Oracles, id: QueryId, closest: bool)
    requires Grows(d, d', o) && Gone(d, id, closest)
    ensures Gone(d', id, closest)
  {
  }

  lemma RecordAnswerGrows(d: Discovery, d1: Discovery, o: Oracles, id: QueryId, order: seq<PublicKey>)
    requires d1.queries == d.queries - {id} && d1.closest == d.closest
    requires d1.recordsKeys == d.recordsKeys && d1.nextId == d.nextId
    ensures Grows(d, Advance(d1, o, order), o)
    ensures id < d.nextId ==> Gone(Advance(d1, o, order), id, false)
  {
    assert Grows(d, d1, o);
    AdvanceGrows(d1, o, order);
    var d2 := Advance(d1, o, order);
    GrowsTransitive(d, d1, d2, o);
    if id < d.nextId {
      GoneStays(d1, d2, o, id, false);
    }
  }

  lemma ClosestAnswerGrows(d: Discovery, o: Oracles, id: QueryId)
    ensures Grows(d, Handle(d, o, ClosestAnswer(id)), o)
    ensures id < d.nextId ==> id !in Handle(d, o, ClosestAnswer(id)).closest
  {
    var d1 := d.(closest := d.closest - {id});
    TopUpGrows(d1, o);
    GrowsTransitive(d, d1, TopUpClosest(d1), o);
  }

  /** Whatever the event, ids are fresh and keys stay; and the query an answer is for is forgotten. */
  lemma HandleGrows(d: Discovery, o: Oracles, e: Event)
    requires Dialled(d)
    ensures Grows(d, Handle(d, o, e), o)
    ensures (e.RecordAnswer? || e.ClosestAnswer?) && e.id < d.nextId ==> Gone(Handle(d, o, e), e.id, e.ClosestAnswer?)
  {
    match e {
      case RecordAnswer(id, found, ok, order) =>
        AnsweredGrows(d, o, id, found, ok);
        RecordAnswerGrows(d, Answered(d, o, id, found, ok), o, id, order);
      case ClosestAnswer(id) => ClosestAnswerGrows(d, o, id);
      case DialErrors(addresses) => OutcomesGrow(d, addresses, Failed, o);
      case ResubmitTick(order) => ResubmitGrows(d, o, order);
      case Connected(_) =>
      case OtherEvent =>
    }
  }

  /** In every run: the answer to any tracked query is recognised, and is taken for an authority with that very key. */
  lemma {:induction false} AnswersAreRecognised(
    ds: seq<Discovery>, es: seq<Event>, o: Oracles, authorities: seq<PublicKey>, k: nat)
    requires Run(ds, es, o, authorities) && k < |ds|
    ensures KeysOk(ds[k], o)
    decreases k
  {
    if k == 0 {
      var id, order :| Listing(order, Elements(authorities)) && ds[0] == Advance(New(authorities, id), o, order);
      AdvanceGrows(New(authorities, id), o, order);
    } else {
      var j := k - 1;
      AnswersAreRecognised(ds, es, o, authorities, j);
      RunInv(ds, es, o, authorities, j);
      assert StepAt(ds, es, o, j);
      HandleGrows(ds[j], o, es[j]);
    }
  }

  lemma StepGrows(ds: seq<Discovery>, es: seq<Event>, o: Oracles, authorities: seq<PublicKey>, j: nat)
    requires Run(ds, es, o, authorities) && j < |es|
    ensures Grows(ds[j], ds[j + 1], o)
  {
    RunInv(ds, es, o, authorities, j);
    assert StepAt(ds, es, o, j);
    HandleGrows(ds[j], o, es[j]);
  }

  lemma StepForgets(ds: seq<Discovery>, es: seq<Event>, o: Oracles, authorities: seq<PublicKey>, j: nat)
    requires Run(ds, es, o, authorities) && j < |es|
    requires (es[j].RecordAnswer? || es[j].ClosestAnswer?) && es[j].id < ds[j].nextId
    ensures Gone(ds[j + 1], es[j].id, es[j].ClosestAnswer?)
  {
    RunInv(ds, es, o, authorities, j);
    assert StepAt(ds, es, o, j);
    HandleGrows(ds[j], o, es[j]);
  }

  ghost predicate GrowsAt(ds: seq<Discovery>, j: nat, o: Oracles)
    requires j + 1 < |ds|
  {
    Grows(ds[j], ds[j + 1], o)
  }

  lemma {:induction false} StaysGone(ds: seq<Discovery>, o: Oracles, m: nat, k: nat, id: QueryId, closest: bool)
    requires m <= k < |ds| && Gone(ds[m], id, closest)
    requires forall j :: m <= j < k ==> GrowsAt(ds, j, o)
    ensures Gone(ds[k], id, closest)
    decreases k
  {
    if m < k {
      var j := k - 1;
      StaysGone(ds, o, m, j, id, closest);
      assert GrowsAt(ds, j, o);
      GoneStays(ds[j], ds[j + 1], o, id, closest);
    }
  }

  lemma RunGrows(ds: seq<Discovery>, es: seq<Event>, o: Oracles, authorities: seq<PublicKey>)
    requires Run(ds, es, o, authorities)
    ensures forall j :: 0 <= j < |es| ==> GrowsAt(ds, j, o)
  {
    forall j | 0 <= j < |es|
      ensures GrowsAt(ds, j, o)
    {
      StepGrows(ds, es, o, authorities, j);
    }
  }

  lemma GoneForGood(
    ds: seq<Discovery>, es: seq<Event>, o: Oracles, authorities: seq<PublicKey>, m: nat, k: nat, id: QueryId,
    closest: bool)
    requires Run(ds, es, o, authorities) && m <= k < |ds| && Gone(ds[m], id, closest)
    ensures Gone(ds[k], id, closest)
  {
    RunGrows(ds, es, o, authorities);
    StaysGone(ds, o, m, k, id, closest);
  }

  /** An answered query is never tracked again, so an answer that comes twice frees no second slot. */
  lemma AnsweredIsForgotten(
    ds: seq<Discovery>, es: seq<Event>, o: Oracles, authorities: seq<PublicKey>, m: nat, k: nat)
    requires Run(ds, es, o, authorities) && m < k < |ds|
    requires (es[m].RecordAnswer? || es[m].ClosestAnswer?) && es[m].id < ds[m].nextId
    ensures Gone(ds[k], es[m].id, es[m].ClosestAnswer?)
  {
    StepForgets(ds, es, o, authorities, m);
    GoneForGood(ds, es, o, authorities, m + 1, k, es[m].id, es[m].ClosestAnswer?);
  }

  // ---------------------------------------------------------------------------
  // Backfill asks for nothing twice
  // ---------------------------------------------------------------------------

  /** Only free authorities of the list are taken, none twice. */
  lemma {:induction false} TakeFreeFresh(order: seq<PublicKey>, busy: set<PublicKey>, n: nat)
    requires Distinct(order)
    ensures Distinct(TakeFree(order, busy, n))
    ensures forall a :: a in TakeFree(order, busy, n) ==> a in order && a !in busy
  {
    if order != [] && n > 0 {
      var rest := order[1..];
      assert Distinct(rest);
      assert order[0] !in rest;
      TakeFreeFresh(rest, busy, if order[0] in busy then n else n - 1);
    }
  }

  /** A batch is asked for under the next ids, in order, beside the queries there are. */
  lemma {:induction false} QueryRecordsIds(d: Discovery, o: Oracles, batch: seq<PublicKey>, id: QueryId)
    requires forall i :: i in d.queries ==> i < d.nextId
    ensures Get(QueryRecords(d, o, batch).queries, id) ==
            if d.nextId <= id < d.nextId + |batch| then Some(batch[id - d.nextId]) else Get(d.queries, id)
    decreases |batch|
  {
    if batch != [] {
      QueryRecordsIds(QueryOne(d, o, batch[0]), o, batch[1..], id);
    }
  }

  /** Queries `q'` add to `q` only ones for authorities of `wanted` that `q` has no query for, each once. */
  ghost predicate AsksNew(q: map<QueryId, PublicKey>, q': map<QueryId, PublicKey>, wanted: set<PublicKey>) {
    forall id :: id in q' && id !in q ==>
      && q'[id] in wanted && q'[id] !in q.Values
      && forall other :: other in q' && q'[other] == q'[id] ==> other == id
  }

  lemma BatchAsksNew(d: Discovery, o: Oracles, batch: seq<PublicKey>, wanted: set<PublicKey>)
    requires (forall i :: i in d.queries ==> i < d.nextId) && Distinct(batch)
    requires forall a :: a in batch ==> a in wanted && a !in d.queries.Values
    ensures AsksNew(d.queries, QueryRecords(d, o, batch).queries, wanted)
  {
    var q, q' := d.queries, QueryRecords(d, o, batch).queries;
    forall id | id in q' && id !in q
      ensures q'[id] in wanted && q'[id] !in q.Values
      ensures forall other :: other in q' && q'[other] == q'[id] ==> other == id
    {
      QueryRecordsIds(d, o, batch, id);
      assert q'[id] in batch;
      forall other | other in q' && q'[other] == q'[id]
        ensures other == id
      {
        QueryRecordsIds(d, o, batch, other);
      }
    }
  }

  /**
   Once the first pass is over, a backfill asks only for authorities that are still wanted and that no
   query in flight is for, and for each of them once.
   */
  lemma BackfillAsksNew(d: Discovery, o: Oracles, order: seq<PublicKey>)
    requires QueriesOk(d) && Listing(order, d.remaining)
    ensures AsksNew(d.queries, Backfill(d, o, order).queries, d.remaining)
  {
    if d.queryIndex >= |d.authorities| && |d.queries| < MAX_QUERIES {
      var batch := TakeFree(order, d.queries.Values, MAX_QUERIES - |d.queries|);
      TakeFreeFresh(order, d.queries.Values, MAX_QUERIES - |d.queries|);
      forall a | a in batch
        ensures a in d.remaining
      {
        assert a in Elements(order);
      }
      BatchAsksNew(d, o, batch, d.remaining);
    }
  }

  // ---------------------------------------------------------------------------
  // Which authorities are asked for
  // ---------------------------------------------------------------------------

  /** What one turn of the first pass does. */
  lemma {:induction false} FirstPassTurn(d: Discovery, o: Oracles) returns (d1: Discovery)
    requires |d.queries| < MAX_QUERIES && d.queryIndex < |d.authorities|
    ensures FirstPass(d, o) == FirstPass(d1, o)
    ensures d1.queries == d.queries[d.nextId := d.authorities[d.queryIndex]] && d1.nextId == d.nextId + 1
    ensures d1.authorities == d.authorities && d1.queryIndex == d.queryIndex + 1
  {
    d1 := QueryOne(d, o, d.authorities[d.queryIndex]).(queryIndex := d.queryIndex + 1);
  }

  lemma {:induction false} FirstPassStops(d: Discovery, o: Oracles)
    requires d.queryIndex <= |d.authorities|
    ensures var d' := FirstPass(d, o);
            && d'.authorities == d.authorities && d.queryIndex <= d'.queryIndex <= |d.authorities|
            && (|d'.queries| >= MAX_QUERIES || d'.queryIndex == |d.authorities|)
    decreases |d.authorities| - d.queryIndex
  {
    if |d.queries| < MAX_QUERIES && d.queryIndex < |d.authorities| {
      var d1 := FirstPassTurn(d, o);
      FirstPassStops(d1, o);
    }
  }

  /**
   The first pass asks for the next authorities of the list, in order and each position once, under
   the next ids, until the window is full or the list is at its end (`FirstPassStops`).
   */
  lemma {:induction false} FirstPassInOrder(d: Discovery, o: Oracles, id: QueryId)
    requires d.queryIndex <= |d.authorities|
    ensures AddsFrom(d.queries, FirstPass(d, o).queries, d.authorities, d.nextId, d.queryIndex,
                     FirstPass(d, o).queryIndex, id)
    decreases |d.authorities| - d.queryIndex
  {
    if |d.queries| < MAX_QUERIES && d.queryIndex < |d.authorities| {
      var d1 := FirstPassTurn(d, o);
      FirstPassInOrder(d1, o, id);
      PassedInOrder(d, d1, FirstPass(d1, o), id);
    } else {
      assert FirstPass(d, o) == d;
    }
  }

  lemma PassedInOrder(d: Discovery, d1: Discovery, d': Discovery, id: QueryId)
    requires d.queryIndex < |d.authorities|
    requires d1.queries == d.queries[d.nextId := d.authorities[d.queryIndex]] && d1.nextId == d.nextId + 1
    requires d1.authorities == d.authorities && d1.queryIndex == d.queryIndex + 1
    requires AddsFrom(d1.queries, d'.queries, d1.authorities, d1.nextId, d1.queryIndex, d'.queryIndex, id)
    ensures AddsFrom(d.queries, d'.queries, d.authorities, d.nextId, d.queryIndex, d'.queryIndex, id)
  {
    OneEarlier(d.queries, d'.queries, d.authorities, d.nextId, d.queryIndex, d'.queryIndex, id);
  }

  /** `q'` adds to `q` the authorities of `list` from `i` up to `end`, in order, under the ids from `n` on. */
  ghost predicate AddsFrom(q: map<QueryId, PublicKey>, q': map<QueryId, PublicKey>, list: seq<PublicKey>,
                           n: QueryId, i: nat, end: nat, id: QueryId) {
    && i <= end <= |list|
    && Get(q', id) == if n <= id < n + (end - i) then Some(list[i + (id - n)]) else Get(q, id)
  }

  lemma OneEarlier(q: map<QueryId, PublicKey>, q': map<QueryId, PublicKey>, list: seq<PublicKey>,
                   n: QueryId, i: nat, end: nat, id: QueryId)
    requires i < |list| && AddsFrom(q[n := list[i]], q', list, n + 1, i + 1, end, id)
    ensures AddsFrom(q, q', list, n, i, end, id)
  {
  }

  lemma {:induction false} ClosestKeepsQueries(d: Discovery, n: nat)
    ensures QueryClosest(d, n).queries == d.queries
    decreases n
  {
    if n > 0 {
      ClosestKeepsQueries(d.(closest := d.closest + {d.nextId}, nextId := d.nextId + 1), n - 1);
    }
  }

  /** A resubmission tracks exactly the first 128 of the remaining authorities, in the order given, under fresh ids. */
  lemma ResubmitAsksFirst(d: Discovery, o: Oracles, order: seq<PublicKey>, id: QueryId)
    ensures Get(Resubmit(d, o, order).queries, id) ==
            if d.nextId <= id < d.nextId + (if |order| < 128 then |order| else 128)
            then Some(order[id - d.nextId])
            else None
  {
    var cleared := d.(queries := map[]);
    var batch := order[..if |order| < 128 then |order| else 128];
    QueryRecordsIds(cleared, o, batch, id);
    var d' := QueryRecords(cleared, o, batch);
    if |order| < 128 && |d'.closest| < MAX_DISCOVERY_QUERIES {
      ClosestKeepsQueries(d', MAX_DISCOVERY_QUERIES - |d'.closest|);
    }
  }
}
