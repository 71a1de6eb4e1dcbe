/**
 The two places of the report that count dials: the summary over the discovery's maps and the
 statistics over the entries.
 */
module DialReport {
  import opened Wrappers
  import opened Discovery
  import opened DiscoveryRuns
  import opened DiscoveryExamples
  import opened Connectivity
  import opened Report
  import opened Counting
  import Records

  /** How many of the addresses are in `k`. */
  function CountIn(xs: seq<Multiaddr>, k: set<Multiaddr>): nat {
    if xs == [] then 0 else CountIn(xs[..|xs| - 1], k) + One(xs[|xs| - 1] in k)
  }

  lemma SetWithout(front: seq<Multiaddr>, x: Multiaddr, s: set<Multiaddr>)
    requires multiset(front + [x]) == multiset(s)
    ensures x in s && multiset(front) == multiset(s - {x})
  {
    assert x in multiset(front + [x]);
    assert multiset(front) == multiset(front + [x]) - multiset{x} == multiset(s - {x});
  }

  lemma {:induction false} CountSet(xs: seq<Multiaddr>, s: set<Multiaddr>, k: set<Multiaddr>)
    requires multiset(xs) == multiset(s)
    ensures |xs| == |s| && CountIn(xs, k) == |s * k|
    decreases |xs|
  {
    if xs == [] {
      assert |multiset(s)| == 0;
      assert s == {} && s * k == {};
    } else {
      var front, x := xs[..|xs| - 1], xs[|xs| - 1];
      assert xs == front + [x];
      SetWithout(front, x, s);
      CountSet(front, s - {x}, k);
      if x in k {
        assert s * k == (s - {x}) * k + {x};
      } else {
        assert s * k == (s - {x}) * k;
      }
    }
  }

  /** Dials of an entry with an outcome. */
  function CountDialled(checks: seq<AddressCheck>): nat {
    if checks == [] then 0 else CountDialled(checks[..|checks| - 1]) + One(checks[|checks| - 1].dial.Some?)
  }

  lemma {:induction false} DialledAddresses(checks: seq<AddressCheck>, outcomes: map<Multiaddr, DialOutcome>)
    requires forall k :: 0 <= k < |checks| ==> checks[k].dial == Get(outcomes, checks[k].address)
    ensures CountDialled(checks) == CountIn(AddressesIn(checks), outcomes.Keys)
    decreases |checks|
  {
    if checks != [] {
      var front := checks[..|checks| - 1];
      DialledAddresses(front, outcomes);
      assert AddressesIn(checks)[..|checks| - 1] == AddressesIn(front);
    }
  }

  lemma EntryCounts(r: AuthorityResult, addrs: set<Multiaddr>, outcomes: map<Multiaddr, DialOutcome>)
    requires EntryOf(r, addrs, outcomes)
    ensures |r.addresses| == |addrs| && CountDialled(r.addresses) == |addrs * outcomes.Keys|
  {
    CountSet(AddressesIn(r.addresses), addrs, outcomes.Keys);
    DialledAddresses(r.addresses, outcomes);
  }

  // ---------------------------------------------------------------------------
  // Sums over the authorities
  // ---------------------------------------------------------------------------

  /** Sum of the address counts along a list of authorities. */
  ghost function SumSizes(authorities: seq<PublicKey>, details: map<PublicKey, set<Multiaddr>>): nat {
    if authorities == [] then 0
    else SumSizes(authorities[..|authorities| - 1], details) + |SetAt(details, authorities[|authorities| - 1])|
  }

  lemma {:induction false} SumWithout(authorities: seq<PublicKey>, details: map<PublicKey, set<Multiaddr>>,
                                      a: PublicKey)
    requires a !in authorities
    ensures SumSizes(authorities, details - {a}) == SumSizes(authorities, details)
    decreases |authorities|
  {
    if authorities != [] {
      assert authorities[|authorities| - 1] != a;
      SumWithout(authorities[..|authorities| - 1], details, a);
    }
  }

  /** No authority with addresses is listed twice. */
  ghost predicate ListedOnce(authorities: seq<PublicKey>, details: map<PublicKey, set<Multiaddr>>) {
    forall i, j :: 0 <= i < j < |authorities| && authorities[i] == authorities[j] ==>
      SetAt(details, authorities[i]) == {}
  }

  lemma ListedOncePush(front: seq<PublicKey>, a: PublicKey, details: map<PublicKey, set<Multiaddr>>)
    ensures ListedOnce(front + [a], details) <==>
            ListedOnce(front, details) && (a in front ==> SetAt(details, a) == {})
  {
    var all := front + [a];
    if ListedOnce(all, details) {
      forall i, j | 0 <= i < j < |front| && front[i] == front[j]
        ensures SetAt(details, front[i]) == {}
      {
        assert all[i] == all[j];
      }
      if a in front {
        var i :| 0 <= i < |front| && front[i] == a;
        assert all[i] == all[|front|];
      }
    }
  }

  lemma ListedOnceWithout(authorities: seq<PublicKey>, details: map<PublicKey, set<Multiaddr>>, a: PublicKey)
    requires a !in authorities
    ensures ListedOnce(authorities, details - {a}) <==> ListedOnce(authorities, details)
  {
    forall i | 0 <= i < |authorities|
      ensures SetAt(details - {a}, authorities[i]) == SetAt(details, authorities[i])
    {
      assert authorities[i] != a;
    }
  }

  /**
   Along a list that has all authorities with a record the sum is at least the total, and the
   same exactly when no authority with addresses is listed twice.
   */
  lemma {:induction false} SumVersusTotal(authorities: seq<PublicKey>, details: map<PublicKey, set<Multiaddr>>)
    requires details.Keys <= Elements(authorities)
    ensures SumSizes(authorities, details) >= TotalAddresses(details)
    ensures SumSizes(authorities, details) == TotalAddresses(details) <==> ListedOnce(authorities, details)
    decreases |authorities|
  {
    if authorities == [] {
      assert details == map[];
    } else {
      var front, a := authorities[..|authorities| - 1], authorities[|authorities| - 1];
      assert authorities == front + [a];
      AddToElements(front, a);
      ListedOncePush(front, a, details);
      if a in front {
        SumVersusTotal(front, details);
      } else {
        SumWithoutLast(front, a, details);
      }
    }
  }

  lemma {:induction false} SumWithoutLast(front: seq<PublicKey>, a: PublicKey, details: map<PublicKey, set<Multiaddr>>)
    requires a !in front && details.Keys <= Elements(front) + {a}
    ensures SumSizes(front, details) + |SetAt(details, a)| >= TotalAddresses(details)
    ensures SumSizes(front, details) + |SetAt(details, a)| == TotalAddresses(details) <==> ListedOnce(front, details)
    decreases |front| + 1, 0
  {
    var rest := details - {a};
    SumWithout(front, details, a);
    ListedOnceWithout(front, details, a);
    assert rest.Keys <= Elements(front);
    SumVersusTotal(front, rest);
    if a in details {
      TotalRemove(details, a);
    } else {
      assert rest == details;
    }
  }

  /** What is left of the records when only addresses with an outcome are kept. */
  function Restrict(details: map<PublicKey, set<Multiaddr>>, k: set<Multiaddr>): map<PublicKey, set<Multiaddr>> {
    map a | a in details :: details[a] * k
  }

  lemma ReportsFront(results: seq<AuthorityResult>, authorities: seq<PublicKey>,
                     details: map<PublicKey, set<Multiaddr>>, outcomes: map<Multiaddr, DialOutcome>, n: nat)
    requires Reports(results, authorities, details, outcomes) && |results| == n + 1
    ensures Reports(results[..n], authorities[..n], details, outcomes)
    ensures |results[n].addresses| == |SetAt(details, authorities[n])|
    ensures CountDialled(results[n].addresses) == |SetAt(Restrict(details, outcomes.Keys), authorities[n])|
  {
    assert EntryOf(results[n], SetAt(details, authorities[n]), outcomes);
    EntryCounts(results[n], SetAt(details, authorities[n]), outcomes);
    RestrictedSize(details, authorities[n], outcomes.Keys);
  }

  lemma {:induction false} StatsSums(results: seq<AuthorityResult>, normalize: string -> string,
                                     authorities: seq<PublicKey>, details: map<PublicKey, set<Multiaddr>>,
                                     outcomes: map<Multiaddr, DialOutcome>)
    requires Reports(results, authorities, details, outcomes)
    ensures StatsOf(results, normalize).addresses == SumSizes(authorities, details)
    ensures StatsOf(results, normalize).dialSuccess + StatsOf(results, normalize).dialFailed
         == SumSizes(authorities, Restrict(details, outcomes.Keys))
    decreases |results|
  {
    if results != [] {
      var n := |results| - 1;
      ReportsFront(results, authorities, details, outcomes, n);
      StatsSums(results[..n], normalize, authorities[..n], details, outcomes);
      AuthorityAdds(StatsOf(results[..n], normalize), results[n], normalize);
    }
  }

  lemma RestrictedSize(details: map<PublicKey, set<Multiaddr>>, a: PublicKey, k: set<Multiaddr>)
    ensures |SetAt(Restrict(details, k), a)| == |SetAt(details, a) * k|
  {
    if a !in details {
      assert {} * k == {};
    }
  }

  lemma AuthorityAdds(s: Stats, r: AuthorityResult, normalize: string -> string)
    ensures AddAuthority(s, r, normalize).addresses == s.addresses + |r.addresses|
    ensures AddAuthority(s, r, normalize).dialSuccess + AddAuthority(s, r, normalize).dialFailed
         == s.dialSuccess + s.dialFailed + CountDialled(r.addresses)
  {
    AddressesAdd(AddFlags(s, r, normalize), r.addresses);
  }

  lemma {:induction false} AddressesAdd(s: Stats, addrs: seq<AddressCheck>)
    ensures AddAddresses(s, addrs).addresses == s.addresses + |addrs|
    ensures AddAddresses(s, addrs).dialSuccess + AddAddresses(s, addrs).dialFailed
         == s.dialSuccess + s.dialFailed + CountDialled(addrs)
    decreases |addrs|
  {
    if addrs != [] {
      AddressesAdd(s, addrs[..|addrs| - 1]);
      match addrs[|addrs| - 1].dial {
        case None =>
        case Some(Success) =>
        case Some(Failed) =>
      }
    }
  }

  // ---------------------------------------------------------------------------
  // Summary and statistics
  // ---------------------------------------------------------------------------

  /** With every outcome for a recorded address, the restricted records have exactly the outcomes' addresses. */
  lemma RestrictedUnion(details: map<PublicKey, set<Multiaddr>>, k: set<Multiaddr>)
    requires k <= AllAddresses(details)
    ensures AllAddresses(Restrict(details, k)) == k
  {
    forall x | x in k
      ensures x in AllAddresses(Restrict(details, k))
    {
      var a :| a in details && x in details[a];
      assert x in Restrict(details, k)[a];
    }
  }

  /**
   For every state a discovery can end in, and every report made of it: the statistics count at
   least the addresses the summary counts, and the same exactly when no authority with addresses
   is listed twice. Then their pending dials are at most the summary's, and the same exactly when
   no address with an outcome is recorded for two authorities.
   */
  lemma SummaryVersusStatistics(ds: seq<Discovery>, es: seq<Event>, o: Records.Oracles, authorities: seq<PublicKey>,
                                k: nat, results: seq<AuthorityResult>, normalize: string -> string)
    requires Run(ds, es, o, authorities) && k < |ds|
    requires Reports(results, authorities, ds[k].details, ds[k].outcomes)
    requires forall j :: 0 <= j < |results| ==> Built(results[j])
    ensures StatsOf(results, normalize).addresses >= TotalAddresses(ds[k].details)
    ensures StatsOf(results, normalize).addresses == TotalAddresses(ds[k].details) <==>
            ListedOnce(authorities, ds[k].details)
    ensures ListedOnce(authorities, ds[k].details) ==>
              var pending := SaturatingSub(TotalAddresses(ds[k].details), |ds[k].outcomes|);
              && StatsOf(results, normalize).dialPending <= pending
              && (StatsOf(results, normalize).dialPending == pending <==>
                    Unshared(Restrict(ds[k].details, ds[k].outcomes.Keys)))
  {
    var details, outcomes := ds[k].details, ds[k].outcomes;
    RunInv(ds, es, o, authorities, k);
    StatsSums(results, normalize, authorities, details, outcomes);
    SumVersusTotal(authorities, details);
    if ListedOnce(authorities, details) {
      DialAccounting(ds, es, o, authorities, k);
      StatsLaws(results, normalize);
      RestrictListedOnce(authorities, details, outcomes.Keys);
      SumVersusTotal(authorities, Restrict(details, outcomes.Keys));
      RestrictedUnion(details, outcomes.Keys);
      TotalVersusUnion(Restrict(details, outcomes.Keys));
    }
  }

  lemma RestrictListedOnce(authorities: seq<PublicKey>, details: map<PublicKey, set<Multiaddr>>, k: set<Multiaddr>)
    requires ListedOnce(authorities, details)
    ensures ListedOnce(authorities, Restrict(details, k))
  {
  }

  /** A run such that the two pending counts differ in every report made of it. */
  lemma {:induction false} PendingDiffer(a: PublicKey, b: PublicKey, x: Multiaddr, normalize: string -> string)
    returns (ds: seq<Discovery>, es: seq<Event>, o: Records.Oracles)
    requires a != b
    ensures Run(ds, es, o, [a, b]) && |ds| == 3
    ensures forall results ::
              Reports(results, [a, b], ds[2].details, ds[2].outcomes)
              && (forall j :: 0 <= j < |results| ==> Built(results[j])) ==>
                StatsOf(results, normalize).dialPending
                < SaturatingSub(TotalAddresses(ds[2].details), |ds[2].outcomes|)
  {
    ds, es, o := SharedAddress(a, b, x);
    var restricted := Restrict(ds[2].details, ds[2].outcomes.Keys);
    assert x in restricted[a] && x in restricted[b];
    assert ListedOnce([a, b], ds[2].details);
    forall results | Reports(results, [a, b], ds[2].details, ds[2].outcomes)
                     && (forall j :: 0 <= j < |results| ==> Built(results[j]))
      ensures StatsOf(results, normalize).dialPending
              < SaturatingSub(TotalAddresses(ds[2].details), |ds[2].outcomes|)
    {
      SummaryVersusStatistics(ds, es, o, [a, b], 2, results, normalize);
    }
  }
}
