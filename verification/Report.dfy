/**
 The authority report: the per-authority results and the global statistics. Model of
 cli/src/commands/authority_check.rs.
 */
module Report {
  import opened Wrappers
  import opened Connectivity
  import opened Counting

  // ---------------------------------------------------------------------------
  // Per-authority results and global statistics
  // ---------------------------------------------------------------------------

  datatype AuthorityResult = AuthorityResult(
    hasName: bool, peer: Option<PeerId>, agent: Option<string>, hasRecord: bool, addresses: seq<AddressCheck>)

  datatype Stats = Stats(
    total: nat, withIdentity: nat, withRecord: nat, withPeer: nat, identified: nat,
    addresses: nat, publics: nat, privates: nat, reachablePublic: nat, unreachablePublic: nat,
    reachable: nat, fullyReachable: nat, versions: map<string, nat>,
    dialSuccess: nat, dialFailed: nat, dialPending: nat)

  /** Public addresses that were really tried. */
  predicate Tested(a: AddressCheck) {
    a.isPublic && (a.result.Reachable? || a.result.Unreachable?)
  }

  predicate IsFailing(r: AuthorityResult) {
    || !r.hasRecord
    || !(exists a :: a in r.addresses && Tested(a))
    || (exists a :: a in r.addresses && Tested(a) && a.result.Unreachable?)
  }

  predicate FullyReachable(r: AuthorityResult) {
    (exists a :: a in r.addresses && Tested(a)) && (forall a :: a in r.addresses && Tested(a) ==> a.result.Reachable?)
  }

  function AddAddress(s: Stats, a: AddressCheck): Stats {
    s.(addresses := s.addresses + 1,
       publics := s.publics + One(a.isPublic),
       privates := s.privates + One(!a.isPublic),
       reachablePublic := s.reachablePublic + One(a.isPublic && a.result.Reachable?),
       unreachablePublic := s.unreachablePublic + One(a.isPublic && a.result.Unreachable?),
       dialSuccess := s.dialSuccess + One(a.dial == Some(Success)),
       dialFailed := s.dialFailed + One(a.dial == Some(Failed)),
       dialPending := s.dialPending + One(a.dial.None?))
  }

  function AddAddresses(s: Stats, addrs: seq<AddressCheck>): Stats
    decreases |addrs|
  {
    if addrs == [] then s else AddAddress(AddAddresses(s, addrs[..|addrs| - 1]), addrs[|addrs| - 1])
  }

  function Tally(versions: map<string, nat>, v: string): map<string, nat> {
    versions[v := (if v in versions then versions[v] else 0) + 1]
  }

  function AddFlags(s: Stats, r: AuthorityResult, normalize: string -> string): Stats {
    s.(total := s.total + 1,
       withIdentity := s.withIdentity + One(r.hasName),
       withRecord := s.withRecord + One(r.hasRecord),
       withPeer := s.withPeer + One(r.peer.Some?),
       identified := s.identified + One(r.agent.Some?),
       versions := if r.agent.Some? then Tally(s.versions, normalize(r.agent.value)) else s.versions,
       reachable := s.reachable + One(exists a :: a in r.addresses && a.result.Reachable?),
       fullyReachable := s.fullyReachable + One(FullyReachable(r)))
  }

  function AddAuthority(s: Stats, r: AuthorityResult, normalize: string -> string): Stats {
    AddAddresses(AddFlags(s, r, normalize), r.addresses)
  }

  const NO_STATS: Stats := Stats(0, 0, 0, 0, 0, 0, 0, 0, 0, 0, 0, 0, map[], 0, 0, 0)

  function StatsOf(results: seq<AuthorityResult>, normalize: string -> string): Stats {
    if results == [] then NO_STATS
    else AddAuthority(StatsOf(results[..|results| - 1], normalize), results[|results| - 1], normalize)
  }

  /** The counters as the program keeps them. */
  method ComputeGlobalStats(results: seq<AuthorityResult>, normalize: string -> string) returns (stats: Stats)
    ensures stats == StatsOf(results, normalize)
  {
    stats := NO_STATS;
    for i := 0 to |results|
      invariant stats == StatsOf(results[..i], normalize)
    {
      stats := CountFlags(stats, results[i], normalize);
      stats := CountAddresses(stats, results[i].addresses);
      assert results[..i + 1][..i] == results[..i];
    }
    assert results[..|results|] == results;
  }

  method CountFlags(before: Stats, r: AuthorityResult, normalize: string -> string) returns (stats: Stats)
    ensures stats == AddFlags(before, r, normalize)
  {
    var anyReachable := exists a :: a in r.addresses && a.result.Reachable?;
    var allReachable := FullyReachable(r);
    stats := before.(total := before.total + 1);
    if r.hasName { stats := stats.(withIdentity := stats.withIdentity + 1); }
    if r.hasRecord { stats := stats.(withRecord := stats.withRecord + 1); }
    if r.peer.Some? { stats := stats.(withPeer := stats.withPeer + 1); }
    if r.agent.Some? {
      stats := stats.(identified := stats.identified + 1, versions := Tally(stats.versions, normalize(r.agent.value)));
    }
    if anyReachable { stats := stats.(reachable := stats.reachable + 1); }
    if allReachable { stats := stats.(fullyReachable := stats.fullyReachable + 1); }
  }

  method CountAddresses(before: Stats, addrs: seq<AddressCheck>) returns (stats: Stats)
    ensures stats == AddAddresses(before, addrs)
  {
    stats := before;
    for j := 0 to |addrs|
      invariant stats == AddAddresses(before, addrs[..j])
    {
      stats := CountAddress(stats, addrs[j]);
      assert addrs[..j + 1][..j] == addrs[..j];
    }
    assert addrs[..|addrs|] == addrs;
  }

  method CountAddress(before: Stats, a: AddressCheck) returns (stats: Stats)
    ensures stats == AddAddress(before, a)
  {
    stats := before.(addresses := before.addresses + 1);
    if a.isPublic {
      stats := stats.(publics := stats.publics + 1);
      match a.result {
        case Reachable => stats := stats.(reachablePublic := stats.reachablePublic + 1);
        case Unreachable => stats := stats.(unreachablePublic := stats.unreachablePublic + 1);
        case _ =>
      }
    } else {
      stats := stats.(privates := stats.privates + 1);
    }
    match a.dial {
      case Some(Success) => stats := stats.(dialSuccess := stats.dialSuccess + 1);
      case Some(Failed) => stats := stats.(dialFailed := stats.dialFailed + 1);
      case None => stats := stats.(dialPending := stats.dialPending + 1);
    }
  }

  // ---------------------------------------------------------------------------
  // What each counter counts
  // ---------------------------------------------------------------------------

  /** The counters over addresses. */
  datatype AddressCounter =
    | EveryAddress | PublicOnes | PrivateOnes | ReachableOnes | UnreachableOnes | DialSucceeded | DialRefused | DialOpen

  function AddressCount(s: Stats, c: AddressCounter): nat {
    match c
    case EveryAddress => s.addresses
    case PublicOnes => s.publics
    case PrivateOnes => s.privates
    case ReachableOnes => s.reachablePublic
    case UnreachableOnes => s.unreachablePublic
    case DialSucceeded => s.dialSuccess
    case DialRefused => s.dialFailed
    case DialOpen => s.dialPending
  }

  predicate CountsAddress(c: AddressCounter, a: AddressCheck) {
    match c
    case EveryAddress => true
    case PublicOnes => a.isPublic
    case PrivateOnes => !a.isPublic
    case ReachableOnes => a.isPublic && a.result == Reachable
    case UnreachableOnes => a.isPublic && a.result == Unreachable
    case DialSucceeded => a.dial == Some(Success)
    case DialRefused => a.dial == Some(Failed)
    case DialOpen => a.dial == None
  }

  /** The counters over authorities. */
  datatype AuthorityCounter = AllOnes | NamedOnes | FoundOnes | PeeredOnes | IdentifiedOnes | ReachedOnes | PassingOnes

  function AuthorityCount(s: Stats, c: AuthorityCounter): nat {
    match c
    case AllOnes => s.total
    case NamedOnes => s.withIdentity
    case FoundOnes => s.withRecord
    case PeeredOnes => s.withPeer
    case IdentifiedOnes => s.identified
    case ReachedOnes => s.reachable
    case PassingOnes => s.fullyReachable
  }

  predicate CountsAuthority(c: AuthorityCounter, r: AuthorityResult) {
    match c
    case AllOnes => true
    case NamedOnes => r.hasName
    case FoundOnes => r.hasRecord
    case PeeredOnes => r.peer.Some?
    case IdentifiedOnes => r.agent.Some?
    case ReachedOnes => exists j :: 0 <= j < |r.addresses| && r.addresses[j].result == Reachable
    case PassingOnes =>
      && (exists j :: 0 <= j < |r.addresses| && Tested(r.addresses[j]))
      && forall j :: 0 <= j < |r.addresses| && Tested(r.addresses[j]) ==> r.addresses[j].result == Reachable
  }

  /** The checks of all authorities, one after the other. */
  function AllChecks(results: seq<AuthorityResult>): seq<AddressCheck> {
    if results == [] then [] else AllChecks(results[..|results| - 1]) + results[|results| - 1].addresses
  }

  lemma {:induction false} AddressesCounted(s: Stats, before: seq<AddressCheck>, addrs: seq<AddressCheck>,
                                            c: AddressCounter)
    requires AddressCount(s, c) == |Where(before, a => CountsAddress(c, a))|
    ensures AddressCount(AddAddresses(s, addrs), c) == |Where(before + addrs, a => CountsAddress(c, a))|
    decreases |addrs|
  {
    if addrs == [] {
      assert before + addrs == before;
    } else {
      var n := |addrs| - 1;
      AddressesCounted(s, before, addrs[..n], c);
      assert before + addrs == before + addrs[..n] + [addrs[n]];
      WherePush(before + addrs[..n], addrs[n], a => CountsAddress(c, a));
      AddressCounted(AddAddresses(s, addrs[..n]), addrs[n], c);
    }
  }

  lemma AddressCounted(s: Stats, a: AddressCheck, c: AddressCounter)
    ensures AddressCount(AddAddress(s, a), c) == AddressCount(s, c) + One(CountsAddress(c, a))
  {
  }

  lemma {:induction false} AddressesLeave(s: Stats, addrs: seq<AddressCheck>, c: AuthorityCounter)
    ensures AuthorityCount(AddAddresses(s, addrs), c) == AuthorityCount(s, c)
    ensures AddAddresses(s, addrs).versions == s.versions
    decreases |addrs|
  {
    if addrs != [] {
      AddressesLeave(s, addrs[..|addrs| - 1], c);
    }
  }

  /** Every address counter is the number of checks, over all authorities, that it is about. */
  lemma {:induction false} AddressCountersRight(results: seq<AuthorityResult>, normalize: string -> string,
                                                c: AddressCounter)
    ensures AddressCount(StatsOf(results, normalize), c) == |Where(AllChecks(results), a => CountsAddress(c, a))|
    decreases |results|
  {
    if results == [] {
      WhereNone<AddressCheck>(a => CountsAddress(c, a));
    } else {
      var n := |results| - 1;
      var s := StatsOf(results[..n], normalize);
      AddressCountersRight(results[..n], normalize, c);
      AddressesCounted(AddFlags(s, results[n], normalize), AllChecks(results[..n]), results[n].addresses, c);
    }
  }

  lemma FlagsCounted(s: Stats, r: AuthorityResult, normalize: string -> string, c: AuthorityCounter)
    ensures AuthorityCount(AddFlags(s, r, normalize), c) == AuthorityCount(s, c) + One(CountsAuthority(c, r))
  {
    match c {
      case ReachedOnes =>
        assert (exists a :: a in r.addresses && a.result.Reachable?) <==> CountsAuthority(c, r);
      case PassingOnes =>
        assert FullyReachable(r) <==> CountsAuthority(c, r);
      case _ =>
    }
  }

  /** Every authority counter is the number of authorities that it is about. */
  lemma {:induction false} AuthorityCountersRight(
    results: seq<AuthorityResult>, normalize: string -> string, c: AuthorityCounter)
    ensures AuthorityCount(StatsOf(results, normalize), c) == |Where(results, r => CountsAuthority(c, r))|
    decreases |results|
  {
    if results == [] {
      WhereNone<AuthorityResult>(r => CountsAuthority(c, r));
    } else {
      var n := |results| - 1;
      var s := StatsOf(results[..n], normalize);
      AuthorityCountersRight(results[..n], normalize, c);
      FlagsCounted(s, results[n], normalize, c);
      AddressesLeave(AddFlags(s, results[n], normalize), results[n].addresses, c);
      assert results == results[..n] + [results[n]];
      WherePush(results[..n], results[n], r => CountsAuthority(c, r));
    }
  }

  /** The number kept for a version, zero if none is. */
  function VersionCount(versions: map<string, nat>, v: string): nat {
    if v in versions then versions[v] else 0
  }

  predicate HasVersion(r: AuthorityResult, normalize: string -> string, v: string) {
    r.agent.Some? && normalize(r.agent.value) == v
  }

  /** The number kept for a version is that of the authorities whose agent is of that version. */
  lemma {:induction false} VersionsRight(results: seq<AuthorityResult>, normalize: string -> string, v: string)
    ensures VersionCount(StatsOf(results, normalize).versions, v) ==
            |Where(results, r => HasVersion(r, normalize, v))|
    decreases |results|
  {
    if results == [] {
      WhereNone<AuthorityResult>(r => HasVersion(r, normalize, v));
    } else {
      var n := |results| - 1;
      var s := StatsOf(results[..n], normalize);
      VersionsRight(results[..n], normalize, v);
      AddressesLeave(AddFlags(s, results[n], normalize), results[n].addresses, AllOnes);
      assert results == results[..n] + [results[n]];
      WherePush(results[..n], results[n], r => HasVersion(r, normalize, v));
    }
  }

  /** Sum of the counts of a map. */
  ghost function SumCounts(m: map<string, nat>): nat
    decreases |m|
  {
    if m == map[] then 0
    else
      var v :| v in m;
      assert |(m - {v}).Keys| < |m.Keys|;
      m[v] + SumCounts(m - {v})
  }

  lemma {:induction false} SumRemove(m: map<string, nat>, v: string)
    requires v in m
    ensures SumCounts(m) == m[v] + SumCounts(m - {v})
    decreases |m|
  {
    var w :| w in m && SumCounts(m) == m[w] + SumCounts(m - {w});
    if w != v {
      assert |(m - {w}).Keys| < |m.Keys| && |(m - {v}).Keys| < |m.Keys|;
      SumRemove(m - {w}, v);
      SumRemove(m - {v}, w);
      assert m - {w} - {v} == m - {v} - {w};
    }
  }

  lemma TallySum(m: map<string, nat>, v: string)
    ensures SumCounts(Tally(m, v)) == SumCounts(m) + 1
  {
    var m' := Tally(m, v);
    SumRemove(m', v);
    if v in m {
      SumRemove(m, v);
      assert m' - {v} == m - {v};
    } else {
      assert m' - {v} == m;
    }
  }

  /** What the report builder guarantees of each result. */
  ghost predicate Built(r: AuthorityResult) {
    && (!r.hasRecord ==> r.addresses == [] && r.peer.None?)
    && (r.agent.Some? ==> r.peer.Some?)
  }

  function CountPassing(results: seq<AuthorityResult>): nat {
    if results == [] then 0 else CountPassing(results[..|results| - 1]) + One(!IsFailing(results[|results| - 1]))
  }

  /** For a result the builder made, fully reachable and not failing are the same thing. */
  lemma FullyReachableVersusFailing(r: AuthorityResult)
    requires Built(r)
    ensures FullyReachable(r) <==> !IsFailing(r)
  {
  }

  ghost predicate AddressesBalance(s: Stats) {
    && s.publics + s.privates == s.addresses
    && s.dialSuccess + s.dialFailed + s.dialPending == s.addresses
    && s.reachablePublic + s.unreachablePublic <= s.publics
  }

  /** Counting addresses keeps the balance and leaves the other counters alone. */
  lemma {:induction false} AddressesKeep(s: Stats, addrs: seq<AddressCheck>)
    requires AddressesBalance(s)
    ensures AddressesBalance(AddAddresses(s, addrs))
    ensures AddAddresses(s, addrs).addresses == s.addresses + |addrs|
    ensures AddAddresses(s, addrs).total == s.total && AddAddresses(s, addrs).withRecord == s.withRecord
    ensures AddAddresses(s, addrs).withPeer == s.withPeer && AddAddresses(s, addrs).identified == s.identified
    ensures AddAddresses(s, addrs).versions == s.versions && AddAddresses(s, addrs).fullyReachable == s.fullyReachable
    decreases |addrs|
  {
    if addrs != [] {
      AddressesKeep(s, addrs[..|addrs| - 1]);
      AddressKeeps(AddAddresses(s, addrs[..|addrs| - 1]), addrs[|addrs| - 1]);
    }
  }

  lemma AddressKeeps(s: Stats, a: AddressCheck)
    requires AddressesBalance(s)
    ensures AddressesBalance(AddAddress(s, a))
  {
    match a.dial {
      case None =>
      case Some(Success) =>
      case Some(Failed) =>
    }
  }

  /** The laws of the statistics, for every list of results the builder can make. */
  lemma {:induction false} StatsLaws(results: seq<AuthorityResult>, normalize: string -> string)
    requires forall k :: 0 <= k < |results| ==> Built(results[k])
    ensures AddressesBalance(StatsOf(results, normalize))
    ensures SumCounts(StatsOf(results, normalize).versions) == StatsOf(results, normalize).identified
    ensures StatsOf(results, normalize).identified <= StatsOf(results, normalize).withPeer
    ensures StatsOf(results, normalize).withPeer <= StatsOf(results, normalize).withRecord
    ensures StatsOf(results, normalize).withRecord <= StatsOf(results, normalize).total == |results|
    ensures StatsOf(results, normalize).fullyReachable == CountPassing(results)
  {
    if results != [] {
      var n := |results| - 1;
      StatsLaws(results[..n], normalize);
      AuthorityKeeps(StatsOf(results[..n], normalize), results[n], normalize);
    }
  }

  lemma AuthorityKeeps(s: Stats, r: AuthorityResult, normalize: string -> string)
    requires Built(r) && AddressesBalance(s)
    requires SumCounts(s.versions) == s.identified <= s.withPeer <= s.withRecord <= s.total
    ensures AddressesBalance(AddAuthority(s, r, normalize))
    ensures SumCounts(AddAuthority(s, r, normalize).versions) == AddAuthority(s, r, normalize).identified
    ensures AddAuthority(s, r, normalize).identified <= AddAuthority(s, r, normalize).withPeer
    ensures AddAuthority(s, r, normalize).withPeer <= AddAuthority(s, r, normalize).withRecord
    ensures AddAuthority(s, r, normalize).withRecord <= AddAuthority(s, r, normalize).total == s.total + 1
    ensures AddAuthority(s, r, normalize).fullyReachable == s.fullyReachable + One(!IsFailing(r))
  {
    AddressesKeep(AddFlags(s, r, normalize), r.addresses);
    if r.agent.Some? {
      TallySum(s.versions, normalize(r.agent.value));
    }
    FullyReachableVersusFailing(r);
  }

  /** Each check gets the dial outcome of its address. */
  function Enrich(checks: seq<AddressCheck>, outcomes: map<Multiaddr, DialOutcome>): (r: seq<AddressCheck>)
    ensures |r| == |checks|
    ensures forall k :: 0 <= k < |r| ==> r[k] == checks[k].(dial := Get(outcomes, checks[k].address))
  {
    if checks == [] then []
    else [checks[0].(dial := Get(outcomes, checks[0].address))] + Enrich(checks[1..], outcomes)
  }

  /** `peer` is the one that the first address to name a peer names, if any does. */
  ghost predicate FirstNamed(addrs: seq<Multiaddr>, peerOf: Multiaddr -> Option<PeerId>, peer: Option<PeerId>) {
    match peer
    case None => forall i :: 0 <= i < |addrs| ==> peerOf(addrs[i]).None?
    case Some(_) =>
      exists i :: 0 <= i < |addrs| && peerOf(addrs[i]) == peer && forall j :: 0 <= j < i ==> peerOf(addrs[j]).None?
  }

  method FindPeer(addrs: seq<Multiaddr>, peerOf: Multiaddr -> Option<PeerId>) returns (peer: Option<PeerId>)
    ensures FirstNamed(addrs, peerOf, peer)
  {
    for i := 0 to |addrs|
      invariant forall j :: 0 <= j < i ==> peerOf(addrs[j]).None?
    {
      if peerOf(addrs[i]).Some? {
        return peerOf(addrs[i]);
      }
    }
    return None;
  }

  /**
   The entry of one authority: whether it has a name and a record, the peer its addresses name, the
   agent known of that peer, and the results of its own group with their dial outcomes.
   */
  ghost predicate EntryRight(r: AuthorityResult, found: bool, named: bool, addrs: seq<Multiaddr>,
                             peerOf: Multiaddr -> Option<PeerId>, info: map<PeerId, string>,
                             group: seq<AddressCheck>, outcomes: map<Multiaddr, DialOutcome>) {
    && r.hasRecord == found && r.hasName == named
    && (if found then FirstNamed(addrs, peerOf, r.peer) && r.addresses == Enrich(group, outcomes)
        else r.peer.None? && r.addresses == [])
    && r.agent == (if r.peer.Some? then Get(info, r.peer.value) else None)
  }

  /** The results of all authorities, in order; `lists` are the address sets in the order they are walked in. */
  method BuildResults(authorities: seq<PublicKey>, details: map<PublicKey, set<Multiaddr>>, lists: seq<seq<Multiaddr>>,
                      names: set<PublicKey>, peerOf: Multiaddr -> Option<PeerId>, info: map<PeerId, string>,
                      grouped: map<nat, seq<AddressCheck>>, outcomes: map<Multiaddr, DialOutcome>)
    returns (results: seq<AuthorityResult>)
    requires |lists| == |authorities|
    ensures |results| == |authorities|
    ensures forall k :: 0 <= k < |results| ==>
              EntryRight(results[k], authorities[k] in details, authorities[k] in names, lists[k], peerOf, info,
                         Group(grouped, k), outcomes)
    ensures forall k :: 0 <= k < |results| ==> Built(results[k])
    ensures forall k :: 0 <= k < |results| ==> (FullyReachable(results[k]) <==> !IsFailing(results[k]))
  {
    results := [];
    for i := 0 to |authorities|
      invariant |results| == i
      invariant forall k :: 0 <= k < i ==>
                  EntryRight(results[k], authorities[k] in details, authorities[k] in names, lists[k], peerOf, info,
                             Group(grouped, k), outcomes)
    {
      var a := authorities[i];
      if a !in details {
        results := results + [AuthorityResult(a in names, None, None, false, [])];
      } else {
        var peer := FindPeer(lists[i], peerOf);
        var agent := if peer.Some? && peer.value in info then Some(info[peer.value]) else None;
        results := results + [AuthorityResult(a in names, peer, agent, true, Enrich(Group(grouped, i), outcomes))];
      }
    }
    forall k | 0 <= k < |results|
      ensures Built(results[k]) && (FullyReachable(results[k]) <==> !IsFailing(results[k]))
    {
      FullyReachableVersusFailing(results[k]);
    }
  }

  // ---------------------------------------------------------------------------
  // The whole report
  // ---------------------------------------------------------------------------

  lemma EnrichedEntry(r: AuthorityResult, checks: seq<AddressCheck>, outcomes: map<Multiaddr, DialOutcome>)
    requires r.addresses == Enrich(checks, outcomes)
    ensures AddressesIn(r.addresses) == AddressesIn(checks)
    ensures forall k :: 0 <= k < |r.addresses| ==> r.addresses[k].dial == Get(outcomes, r.addresses[k].address)
  {
  }

  /** An entry is about exactly the addresses `addrs`, each once and with its dial outcome. */
  ghost predicate EntryOf(r: AuthorityResult, addrs: set<Multiaddr>, outcomes: map<Multiaddr, DialOutcome>) {
    && multiset(AddressesIn(r.addresses)) == multiset(addrs)
    && forall k :: 0 <= k < |r.addresses| ==> r.addresses[k].dial == Get(outcomes, r.addresses[k].address)
  }

  ghost predicate Reports(results: seq<AuthorityResult>, authorities: seq<PublicKey>,
                          details: map<PublicKey, set<Multiaddr>>, outcomes: map<Multiaddr, DialOutcome>) {
    && |results| == |authorities|
    && forall k :: 0 <= k < |results| ==> EntryOf(results[k], SetAt(details, authorities[k]), outcomes)
  }

  /** Check `n` was under index `k` and really tried: its address is public and has an endpoint. */
  ghost predicate Tried(checks: seq<Check>, net: Network, k: nat, n: int) {
    0 <= n < |checks| && checks[n].index == k && checks[n].isPublic && net.hasEndpoint(checks[n].address)
  }

  /** Some address of authority `k` was tried, and every one that was tried connected. */
  ghost predicate AllConnected(checks: seq<Check>, net: Network, k: nat) {
    (exists n :: Tried(checks, net, k, n)) && forall n :: Tried(checks, net, k, n) ==> net.connects(n)
  }

  /** What stands in an entry about a check: tested if it was tried, unreachable if it did not connect. */
  lemma EntryTells(r: AuthorityResult, group: seq<AddressCheck>, outcomes: map<Multiaddr, DialOutcome>, j: nat)
    requires r.addresses == Enrich(group, outcomes) && j < |group|
    ensures j < |r.addresses| && r.addresses[j] in r.addresses
    ensures Tested(r.addresses[j]) == Tested(group[j])
    ensures r.addresses[j].result == group[j].result && r.addresses[j].isPublic == group[j].isPublic
  {
  }

  /** A right result is tested exactly if its check was tried. */
  lemma RightTells(checks: seq<Check>, net: Network, all: seq<(nat, AddressCheck)>, k: nat, n: nat)
    requires AllRight(checks, net, all) && n < |all| && all[n].0 == k
    ensures Tested(all[n].1) <==> Tried(checks, net, k, n)
    ensures Tried(checks, net, k, n) ==> (all[n].1.result.Unreachable? <==> !net.connects(n))
  {
  }

  lemma EntryOfCheck(
    r: AuthorityResult, grouped: map<nat, seq<AddressCheck>>, outcomes: map<Multiaddr, DialOutcome>,
    checks: seq<Check>, net: Network, all: seq<(nat, AddressCheck)>, k: nat, n: nat)
    requires r.addresses == Enrich(Group(grouped, k), outcomes)
    requires AllRight(checks, net, all) && Grouped(grouped, multiset(all)) && Tried(checks, net, k, n)
    ensures exists a :: a in r.addresses && Tested(a) && (a.result.Unreachable? <==> !net.connects(n))
  {
    RightTells(checks, net, all, k, n);
    var c := all[n].1;
    GroupHolds(grouped, all, k, c);
    var j :| 0 <= j < |Group(grouped, k)| && Group(grouped, k)[j] == c;
    EntryTells(r, Group(grouped, k), outcomes, j);
  }

  lemma CheckOfEntry(
    r: AuthorityResult, grouped: map<nat, seq<AddressCheck>>, outcomes: map<Multiaddr, DialOutcome>,
    checks: seq<Check>, net: Network, all: seq<(nat, AddressCheck)>, k: nat, a: AddressCheck)
    requires r.addresses == Enrich(Group(grouped, k), outcomes)
    requires AllRight(checks, net, all) && Grouped(grouped, multiset(all)) && a in r.addresses && Tested(a)
    ensures exists n: nat :: Tried(checks, net, k, n) && (a.result.Unreachable? <==> !net.connects(n))
  {
    var group := Group(grouped, k);
    var j :| 0 <= j < |r.addresses| && r.addresses[j] == a;
    EntryTells(r, group, outcomes, j);
    GroupHolds(grouped, all, k, group[j]);
    var n :| 0 <= n < |all| && all[n] == (k, group[j]);
    RightTells(checks, net, all, k, n);
  }

  /** The verdict on an authority with a record, in terms of its checks. */
  lemma VerdictRight(
    r: AuthorityResult, grouped: map<nat, seq<AddressCheck>>, outcomes: map<Multiaddr, DialOutcome>,
    checks: seq<Check>, net: Network, all: seq<(nat, AddressCheck)>, k: nat)
    requires r.hasRecord && r.addresses == Enrich(Group(grouped, k), outcomes)
    requires AllRight(checks, net, all) && Grouped(grouped, multiset(all))
    ensures !IsFailing(r) <==> AllConnected(checks, net, k)
  {
    if !IsFailing(r) {
      var a :| a in r.addresses && Tested(a);
      CheckOfEntry(r, grouped, outcomes, checks, net, all, k, a);
      forall n | Tried(checks, net, k, n)
        ensures net.connects(n)
      {
        EntryOfCheck(r, grouped, outcomes, checks, net, all, k, n);
      }
    }
    if AllConnected(checks, net, k) {
      var n :| Tried(checks, net, k, n);
      EntryOfCheck(r, grouped, outcomes, checks, net, all, k, n);
      forall a | a in r.addresses && Tested(a)
        ensures !a.result.Unreachable?
      {
        CheckOfEntry(r, grouped, outcomes, checks, net, all, k, a);
      }
    }
  }

  /** The checks of a run: under index `k` one on each address of authority `k`, in order. */
  ghost predicate ChecksOf(checks: seq<Check>, lists: seq<seq<Multiaddr>>, isPublic: Multiaddr -> bool) {
    && (forall i :: 0 <= i < |lists| ==> AddressesOf(checks, i) == lists[i])
    && (forall n :: 0 <= n < |checks| ==>
          checks[n].index < |lists| && checks[n].isPublic == isPublic(checks[n].address))
  }

  lemma ChecksBuilt(checks: seq<Check>, lists: seq<seq<Multiaddr>>, n: nat)
    requires n < |checks| && forall i :: i >= |lists| ==> AddressesOf(checks, i) == []
    ensures checks[n].index < |lists|
  {
    AddressesOfMeans(checks, checks[n].index, checks[n].address);
  }

  /** An authority without a record has no checks. */
  lemma NoRecordNoChecks(checks: seq<Check>, net: Network, lists: seq<seq<Multiaddr>>, isPublic: Multiaddr -> bool,
                         k: nat)
    requires k < |lists| && lists[k] == [] && ChecksOf(checks, lists, isPublic)
    ensures !AllConnected(checks, net, k)
  {
    if n :| Tried(checks, net, k, n) {
      AddressesOfMeans(checks, k, checks[n].address);
      assert false;
    }
  }

  /**
   From the discovered addresses to the statistics: each authority's entry is about exactly its
   discovered addresses; it passes exactly if some public address of it has an endpoint and every such
   address connected; and the statistics obey their laws.
   */
  method CheckAuthorities(authorities: seq<PublicKey>, details: map<PublicKey, set<Multiaddr>>,
                          lists: seq<seq<Multiaddr>>,
                          isPublic: Multiaddr -> bool, net: Network, names: set<PublicKey>,
                          peerOf: Multiaddr -> Option<PeerId>, info: map<PeerId, string>,
                          outcomes: map<Multiaddr, DialOutcome>, normalize: string -> string)
    returns (results: seq<AuthorityResult>, stats: Stats, ghost checks: seq<Check>)
    requires |lists| == |authorities|
    requires forall k :: 0 <= k < |lists| ==> multiset(lists[k]) == multiset(SetAt(details, authorities[k]))
    ensures Reports(results, authorities, details, outcomes) && stats == StatsOf(results, normalize)
    ensures forall k :: 0 <= k < |results| ==> (results[k].hasRecord <==> authorities[k] in details)
    ensures ChecksOf(checks, lists, isPublic)
    ensures forall k :: 0 <= k < |results| ==> (!IsFailing(results[k]) <==> AllConnected(checks, net, k))
    ensures forall k :: 0 <= k < |results| ==> (FullyReachable(results[k]) <==> AllConnected(checks, net, k))
    ensures forall k :: 0 <= k < |results| ==>
              if authorities[k] in details then FirstNamed(lists[k], peerOf, results[k].peer) else results[k].peer.None?
    ensures stats.publics + stats.privates == stats.addresses
    ensures stats.dialSuccess + stats.dialFailed + stats.dialPending == stats.addresses
    ensures SumCounts(stats.versions) == stats.identified <= stats.withPeer <= stats.withRecord <= stats.total
    ensures stats.fullyReachable == CountPassing(results)
  {
    var toDo := BuildChecks(lists, isPublic);
    checks := toDo;
    forall n | 0 <= n < |checks| ensures checks[n].index < |lists| { ChecksBuilt(checks, lists, n); }
    var grouped;
    ghost var made, peak, all;
    grouped, made, peak, all := RunConnectivityChecks(toDo, net);
    results := BuildResults(authorities, details, lists, names, peerOf, info, grouped, outcomes);
    forall k | 0 <= k < |results|
      ensures EntryOf(results[k], SetAt(details, authorities[k]), outcomes)
      ensures !IsFailing(results[k]) <==> AllConnected(checks, net, k)
    {
      ReportOne(results[k], authorities[k], details, lists, isPublic, outcomes, grouped, checks, net, all, k, names,
                peerOf, info);
    }
    stats := ComputeGlobalStats(results, normalize);
    StatsLaws(results, normalize);
  }

  lemma ReportOne(
    r: AuthorityResult, authority: PublicKey, details: map<PublicKey, set<Multiaddr>>, lists: seq<seq<Multiaddr>>,
    isPublic: Multiaddr -> bool, outcomes: map<Multiaddr, DialOutcome>, grouped: map<nat, seq<AddressCheck>>,
    checks: seq<Check>, net: Network, all: seq<(nat, AddressCheck)>, k: nat, names: set<PublicKey>,
    peerOf: Multiaddr -> Option<PeerId>, info: map<PeerId, string>)
    requires k < |lists| && multiset(lists[k]) == multiset(SetAt(details, authority))
    requires EntryRight(r, authority in details, authority in names, lists[k], peerOf, info, Group(grouped, k),
                        outcomes)
    requires ChecksOf(checks, lists, isPublic) && AllRight(checks, net, all) && Grouped(grouped, multiset(all))
    ensures EntryOf(r, SetAt(details, authority), outcomes)
    ensures !IsFailing(r) <==> AllConnected(checks, net, k)
  {
    if authority in details {
      GroupIsComplete(grouped, checks, net, all, k);
      EnrichedEntry(r, Group(grouped, k), outcomes);
      VerdictRight(r, grouped, outcomes, checks, net, all, k);
    } else {
      assert AddressesIn(r.addresses) == [];
      NothingListed(lists[k]);
      NoRecordNoChecks(checks, net, lists, isPublic, k);
    }
  }

  lemma NothingListed(list: seq<Multiaddr>)
    requires multiset(list) == multiset{}
    ensures list == []
  {
    assert |list| == |multiset(list)|;
  }
}
