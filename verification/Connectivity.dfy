/**
 Connectivity checks: one per discovered address, run in batches with at most 64 in progress, and
 grouped by authority. Model of the checks in cli/src/commands/authority_check.rs.
 */
module Connectivity {
  import opened Wrappers

  const MAX_PARALLEL_CHECKS: nat := 64

  datatype AddressResult = Reachable | Unreachable | SkippedPrivate | SkippedTransport

  datatype AddressCheck = AddressCheck(address: Multiaddr, isPublic: bool, result: AddressResult,
                                       dial: Option<DialOutcome>)

  /** A pending check: authority index, address, whether the address is public. */
  datatype Check = Check(index: nat, address: Multiaddr, isPublic: bool)

  /** What the network says: which addresses have a TCP endpoint, and the outcome of the n-th check. */
  datatype Network = Network(hasEndpoint: Multiaddr -> bool, connects: nat -> bool)

  /** The result of the `n`-th check of the run. */
  function Perform(c: Check, net: Network, n: nat): (nat, AddressCheck) {
    (c.index,
     AddressCheck(c.address, c.isPublic,
                  if !c.isPublic then SkippedPrivate
                  else if !net.hasEndpoint(c.address) then SkippedTransport
                  else if net.connects(n) then Reachable else Unreachable,
                  None))
  }

  /**
   What `r` must be as the result of check `c`, the `n`-th of the run: reachable exactly if the address
   is public, has an endpoint and its own connection attempt succeeded, and so on.
   */
  ghost predicate Right(c: Check, net: Network, n: nat, r: AddressCheck) {
    && r.address == c.address && r.isPublic == c.isPublic && r.dial.None?
    && (r.result.Reachable? <==> c.isPublic && net.hasEndpoint(c.address) && net.connects(n))
    && (r.result.Unreachable? <==> c.isPublic && net.hasEndpoint(c.address) && !net.connects(n))
    && (r.result.SkippedTransport? <==> c.isPublic && !net.hasEndpoint(c.address))
    && (r.result.SkippedPrivate? <==> !c.isPublic)
  }

  /** `all` are right results of all the checks, each with the index of its authority. */
  ghost predicate AllRight(checks: seq<Check>, net: Network, all: seq<(nat, AddressCheck)>) {
    && |all| == |checks|
    && forall k :: 0 <= k < |checks| ==> all[k].0 == checks[k].index && Right(checks[k], net, k, all[k].1)
  }

  /** The result is right for one of the checks, the first of which is number `n`. */
  ghost predicate RightForSome(checks: seq<Check>, net: Network, n: nat, r: (nat, AddressCheck)) {
    exists k :: 0 <= k < |checks| && checks[k].index == r.0 && Right(checks[k], net, n + k, r.1)
  }

  /** The results of all checks in the order of the input, the first being check `n`. */
  function PerformAll(checks: seq<Check>, net: Network, n: nat): (r: seq<(nat, AddressCheck)>)
    ensures |r| == |checks| && forall k :: 0 <= k < |checks| ==> r[k] == Perform(checks[k], net, n + k)
  {
    seq(|checks|, k requires 0 <= k < |checks| => Perform(checks[k], net, n + k))
  }

  lemma PerformAllSplit(checks: seq<Check>, net: Network, n: nat, k: nat)
    requires k <= |checks|
    ensures PerformAll(checks, net, n) == PerformAll(checks[..k], net, n) + PerformAll(checks[k..], net, n + k)
  {
  }

  function Group(grouped: map<nat, seq<AddressCheck>>, i: nat): seq<AddressCheck> {
    if i in grouped then grouped[i] else []
  }

  /** How often the group of index `i` holds the check `c`. */
  ghost function Filed(grouped: map<nat, seq<AddressCheck>>, i: nat, c: AddressCheck): nat {
    multiset(Group(grouped, i))[c]
  }

  /** A right result of check `c`, the `n`-th of the run, is in its group. */
  ghost predicate OnFile(grouped: map<nat, seq<AddressCheck>>, c: Check, net: Network, n: nat) {
    exists r :: r in Group(grouped, c.index) && Right(c, net, n, r)
  }

  /** The groups hold exactly the results `all`, each under its own index. */
  ghost predicate Grouped(grouped: map<nat, seq<AddressCheck>>, all: multiset<(nat, AddressCheck)>) {
    forall i: nat, c: AddressCheck {:trigger Filed(grouped, i, c)} :: Filed(grouped, i, c) == all[(i, c)]
  }

  /** `made` lists the numbers from `lo` up to `hi`, each once. */
  ghost predicate Lists(made: seq<nat>, lo: nat, hi: nat) {
    && |made| == hi - lo
    && (forall i :: 0 <= i < |made| ==> lo <= made[i] < hi)
    && (forall i, j :: 0 <= i < j < |made| ==> made[i] != made[j])
    && (forall k :: lo <= k < hi ==> k in made)
  }

  lemma ListsJoin(made: seq<nat>, more: seq<nat>, lo: nat, mid: nat, hi: nat)
    requires lo <= mid <= hi && Lists(made, lo, mid) && Lists(more, mid, hi)
    ensures Lists(made + more, lo, hi)
  {
    forall k | lo <= k < hi
      ensures k in made + more
    {
      assert if k < mid then k in made else k in more;
    }
  }

  /** The results of the checks with the numbers `made`, where the batch begins at number `n`. */
  ghost function ResultsOf(batch: seq<Check>, net: Network, n: nat, made: seq<nat>): (r: seq<(nat, AddressCheck)>)
    requires forall i :: 0 <= i < |made| ==> n <= made[i] < n + |batch|
    ensures |r| == |made| && forall i :: 0 <= i < |made| ==> r[i] == Perform(batch[made[i] - n], net, made[i])
  {
    seq(|made|, i requires 0 <= i < |made| => Perform(batch[made[i] - n], net, made[i]))
  }

  /** All but the element at `p`. */
  ghost function Without<T>(s: seq<T>, p: nat): (r: seq<T>)
    requires p < |s|
    ensures |r| == |s| - 1 && forall i :: 0 <= i < |r| ==> r[i] == s[if i < p then i else i + 1]
  {
    seq(|s| - 1, i requires 0 <= i < |s| - 1 => s[if i < p then i else i + 1])
  }

  lemma RemoveAt<T>(s: seq<T>, p: nat)
    requires p < |s|
    ensures multiset(s) == multiset(Without(s, p)) + multiset{s[p]}
  {
    assert s == s[..p] + [s[p]] + s[p + 1..];
    assert Without(s, p) == s[..p] + s[p + 1..];
  }

  /** Without its largest number, a list of `n` to `n + m` is one of `n` to `n + m - 1`. */
  lemma ListsWithout(made: seq<nat>, n: nat, m: nat, p: nat)
    requires m > 0 && Lists(made, n, n + m) && p < |made| && made[p] == n + m - 1
    ensures Lists(Without(made, p), n, n + m - 1)
  {
    var rest := Without(made, p);
    forall k | n <= k < n + m - 1
      ensures k in rest
    {
      var i := PositionOf(made, n, n + m, k);
      assert rest[if i < p then i else i - 1] == k;
    }
  }

  lemma ResultsRest(batch: seq<Check>, front: seq<Check>, net: Network, n: nat, made: seq<nat>, rest: seq<nat>, p: nat)
    requires batch != [] && front == batch[..|batch| - 1] && p < |made| && rest == Without(made, p)
    requires forall i :: 0 <= i < |made| ==> n <= made[i] < n + |batch|
    requires forall i :: 0 <= i < |rest| ==> n <= rest[i] < n + |front|
    ensures Without(ResultsOf(batch, net, n, made), p) == ResultsOf(front, net, n, rest)
  {
  }

  lemma {:induction false} ResultsWithout(batch: seq<Check>, net: Network, n: nat, made: seq<nat>, p: nat)
    requires batch != [] && Lists(made, n, n + |batch|) && p < |made| && made[p] == n + |batch| - 1
    ensures Lists(Without(made, p), n, n + |batch| - 1)
    ensures multiset(ResultsOf(batch, net, n, made)) ==
            multiset(ResultsOf(batch[..|batch| - 1], net, n, Without(made, p)))
            + multiset{Perform(batch[|batch| - 1], net, n + (|batch| - 1))}
  {
    ListsWithout(made, n, |batch|, p);
    var front, all := batch[..|batch| - 1], ResultsOf(batch, net, n, made);
    ResultsRest(batch, front, net, n, made, Without(made, p), p);
    assert all[p] == Perform(batch[|batch| - 1], net, n + (|batch| - 1));
    RemoveAt(all, p);
  }

  /** In whatever order the checks were made, the results are those of the batch. */
  lemma {:induction false} ResultsPermute(batch: seq<Check>, net: Network, n: nat, made: seq<nat>)
    requires Lists(made, n, n + |batch|)
    ensures multiset(ResultsOf(batch, net, n, made)) == multiset(PerformAll(batch, net, n))
    decreases |batch|
  {
    if batch == [] {
      assert ResultsOf(batch, net, n, made) == [];
    } else {
      var p := PositionOf(made, n, n + |batch|, n + |batch| - 1);
      ResultsWithout(batch, net, n, made, p);
      ResultsPermute(batch[..|batch| - 1], net, n, Without(made, p));
      LastResult(batch, net, n);
    }
  }

  lemma PositionOf(made: seq<nat>, lo: nat, hi: nat, k: nat) returns (p: nat)
    requires Lists(made, lo, hi) && lo <= k < hi
    ensures p < |made| && made[p] == k
  {
    assert k in made;
    p :| 0 <= p < |made| && made[p] == k;
  }

  lemma LastResult(batch: seq<Check>, net: Network, n: nat)
    requires batch != []
    ensures var m := |batch| - 1;
            multiset(PerformAll(batch, net, n)) ==
            multiset(PerformAll(batch[..m], net, n)) + multiset{Perform(batch[m], net, n + m)}
  {
    var m := |batch| - 1;
    PerformAllSplit(batch, net, n, m);
    var last := batch[m..];
    assert last == [batch[m]];
    assert PerformAll(last, net, n + m) == [Perform(batch[m], net, n + m)];
  }

  /**
   A batch under way, the first check of which is number `n`: of the `started` first checks those
   numbered `inProgress` are not finished, and those numbered `made` are.
   */
  ghost predicate UnderWay(n: nat, started: nat, inProgress: set<nat>, made: seq<nat>) {
    && |made| + |inProgress| == started
    && (forall k :: k in inProgress ==> n <= k < n + started && k !in made)
    && (forall i :: 0 <= i < |made| ==> n <= made[i] < n + started)
    && (forall i, j :: 0 <= i < j < |made| ==> made[i] != made[j])
    && (forall k :: n <= k < n + started ==> k in inProgress || k in made)
  }

  lemma ResultsOfPush(batch: seq<Check>, net: Network, n: nat, made: seq<nat>, number: nat)
    requires forall i :: 0 <= i < |made| ==> n <= made[i] < n + |batch|
    requires n <= number < n + |batch|
    ensures ResultsOf(batch, net, n, made + [number]) ==
            ResultsOf(batch, net, n, made) + [Perform(batch[number - n], net, number)]
  {
  }

  lemma CheckFinishes(n: nat, started: nat, inProgress: set<nat>, made: seq<nat>, number: nat)
    requires UnderWay(n, started, inProgress, made) && number in inProgress
    ensures n <= number < n + started
    ensures UnderWay(n, started, inProgress - {number}, made + [number])
  {
  }

  lemma CheckStarts(n: nat, started: nat, inProgress: set<nat>, made: seq<nat>)
    requires UnderWay(n, started, inProgress, made)
    ensures UnderWay(n, started + 1, inProgress + {n + started}, made)
    ensures |inProgress + {n + started}| == |inProgress| + 1
  {
    assert n + started !in inProgress;
  }

  /** A batch under way, with the results of the checks that are finished. */
  ghost predicate Going(batch: seq<Check>, net: Network, n: nat, started: nat, inProgress: set<nat>, made: seq<nat>,
                        results: seq<(nat, AddressCheck)>) {
    started <= |batch| && UnderWay(n, started, inProgress, made) && results == ResultsOf(batch, net, n, made)
  }

  /** Some check in progress finishes. */
  method Finish(batch: seq<Check>, net: Network, n: nat, ghost started: nat, inProgress: set<nat>,
                results: seq<(nat, AddressCheck)>, ghost made: seq<nat>)
    returns (left: set<nat>, more: seq<(nat, AddressCheck)>, ghost done: seq<nat>)
    requires Going(batch, net, n, started, inProgress, made, results) && inProgress != {}
    ensures Going(batch, net, n, started, left, done, more) && |left| < |inProgress|
  {
    var number :| number in inProgress;
    CheckFinishes(n, started, inProgress, made, number);
    ResultsOfPush(batch, net, n, made, number);
    more := results + [Perform(batch[number - n], net, number)];
    done := made + [number];
    left := inProgress - {number};
  }

  /**
   One batch: checks are started in order as long as fewer than 64 are in progress, and finish in
   any order. Each is made once, and `peak`, the most in progress at a time, is at most 64.
   */
  method RunBatch(batch: seq<Check>, net: Network, n: nat)
    returns (results: seq<(nat, AddressCheck)>, ghost made: seq<nat>, ghost peak: nat)
    ensures Lists(made, n, n + |batch|) && results == ResultsOf(batch, net, n, made)
    ensures forall i :: 0 <= i < |made| ==>
              results[i].0 == batch[made[i] - n].index && Right(batch[made[i] - n], net, made[i], results[i].1)
    ensures |results| == |batch| && forall i :: 0 <= i < |results| ==> RightForSome(batch, net, n, results[i])
    ensures peak <= MAX_PARALLEL_CHECKS
  {
    results, made, peak := [], [], 0;
    var started, inProgress: set<nat> := 0, {};
    while started < |batch| || inProgress != {}
      invariant |inProgress| <= peak <= MAX_PARALLEL_CHECKS
      invariant Going(batch, net, n, started, inProgress, made, results)
      decreases |batch| - started, |inProgress|
    {
      var start: bool := *;
      if started < |batch| && |inProgress| < MAX_PARALLEL_CHECKS && (start || inProgress == {}) {
        CheckStarts(n, started, inProgress, made);
        inProgress := inProgress + {n + started};
        started := started + 1;
        peak := if |inProgress| > peak then |inProgress| else peak;
      } else {
        inProgress, results, made := Finish(batch, net, n, started, inProgress, results, made);
      }
    }
    AllFinished(batch, net, n, started, made, results);
    ResultsRight(batch, net, n, made);
    ResultsForSome(batch, net, n, made, results);
  }

  lemma ResultsForSome(batch: seq<Check>, net: Network, n: nat, made: seq<nat>, results: seq<(nat, AddressCheck)>)
    requires |results| == |made| && forall i :: 0 <= i < |made| ==> n <= made[i] < n + |batch|
    requires forall i :: 0 <= i < |made| ==>
               results[i].0 == batch[made[i] - n].index && Right(batch[made[i] - n], net, made[i], results[i].1)
    ensures forall i :: 0 <= i < |results| ==> RightForSome(batch, net, n, results[i])
  {
    forall i | 0 <= i < |results|
      ensures RightForSome(batch, net, n, results[i])
    {
      var k := made[i] - n;
      assert batch[k].index == results[i].0 && Right(batch[k], net, n + k, results[i].1);
    }
  }

  lemma AllFinished(batch: seq<Check>, net: Network, n: nat, started: nat, made: seq<nat>,
                    results: seq<(nat, AddressCheck)>)
    requires Going(batch, net, n, started, {}, made, results) && started >= |batch|
    ensures Lists(made, n, n + |batch|)
  {
  }

  lemma ResultsRight(batch: seq<Check>, net: Network, n: nat, made: seq<nat>)
    requires forall i :: 0 <= i < |made| ==> n <= made[i] < n + |batch|
    ensures var results := ResultsOf(batch, net, n, made);
            forall i :: 0 <= i < |made| ==>
              results[i].0 == batch[made[i] - n].index && Right(batch[made[i] - n], net, made[i], results[i].1)
  {
  }

  /** Put results under their index. */
  method GroupResults(before: map<nat, seq<AddressCheck>>, results: seq<(nat, AddressCheck)>,
                      ghost all: multiset<(nat, AddressCheck)>)
    returns (grouped: map<nat, seq<AddressCheck>>)
    requires Grouped(before, all)
    ensures Grouped(grouped, all + multiset(results))
  {
    grouped := before;
    for j := 0 to |results|
      invariant Grouped(grouped, all + multiset(results[..j]))
    {
      var (i, c) := results[j];
      ghost var was, done := grouped, all + multiset(results[..j]);
      grouped := grouped[i := Group(grouped, i) + [c]];
      assert results[..j + 1] == results[..j] + [results[j]];
      GroupOne(was, grouped, done, i, c);
      assert all + multiset(results[..j + 1]) == done + multiset{(i, c)};
    }
    assert results[..|results|] == results;
  }

  lemma GroupOne(was: map<nat, seq<AddressCheck>>, grouped: map<nat, seq<AddressCheck>>,
                 done: multiset<(nat, AddressCheck)>,
                 i: nat, c: AddressCheck)
    requires Grouped(was, done) && grouped == was[i := Group(was, i) + [c]]
    ensures Grouped(grouped, done + multiset{(i, c)})
  {
    forall k: nat, d: AddressCheck
      ensures Filed(grouped, k, d) == (done + multiset{(i, c)})[(k, d)]
    {
      assert Filed(was, k, d) == done[(k, d)];
    }
  }

  /**
   All checks in batches: for every order in which checks finish, each is made once, and the groups
   hold exactly the right results of the checks, each under its own authority.
   */
  method RunConnectivityChecks(checks: seq<Check>, net: Network)
    returns (grouped: map<nat, seq<AddressCheck>>, ghost made: seq<nat>, ghost peak: nat,
             ghost all: seq<(nat, AddressCheck)>)
    ensures Lists(made, 0, |checks|) && peak <= MAX_PARALLEL_CHECKS
    ensures AllRight(checks, net, all) && Grouped(grouped, multiset(all))
    ensures forall i, c :: i in grouped && c in grouped[i] ==> RightForSome(checks, net, 0, (i, c))
    ensures forall n :: 0 <= n < |checks| ==> OnFile(grouped, checks[n], net, n)
  {
    grouped, made, peak := map[], [], 0;
    var left := checks;
    var checked := 0;
    assert checks[..0] == [];
    while left != []
      invariant checked <= |checks| && left == checks[checked..] && peak <= MAX_PARALLEL_CHECKS
      invariant Reached(checks, net, checked, grouped, made)
      decreases |left|
    {
      var end := if |left| < MAX_PARALLEL_CHECKS then |left| else MAX_PARALLEL_CHECKS;
      var batch := left[..end];
      left := left[end..];
      ghost var most;
      grouped, made, most := RunNext(checks, batch, net, checked, grouped, made);
      peak := if most > peak then most else peak;
      checked := checked + end;
    }
    assert checks[..checked] == checks;
    all := PerformAll(checks, net, 0);
    FiledForSome(checks, net, grouped, all);
  }

  /** The first `checked` checks were made, once each, and their results are grouped. */
  ghost predicate Reached(checks: seq<Check>, net: Network, checked: nat, grouped: map<nat, seq<AddressCheck>>,
                          made: seq<nat>)
    requires checked <= |checks|
  {
    Grouped(grouped, multiset(PerformAll(checks[..checked], net, 0))) && Lists(made, 0, checked)
  }

  /** Run one batch and put its results under their index. */
  method RunNext(ghost checks: seq<Check>, batch: seq<Check>, net: Network, checked: nat,
                 before: map<nat, seq<AddressCheck>>, ghost was: seq<nat>)
    returns (grouped: map<nat, seq<AddressCheck>>, ghost made: seq<nat>, ghost peak: nat)
    requires checked + |batch| <= |checks| && batch == checks[checked..][..|batch|]
    requires Reached(checks, net, checked, before, was)
    ensures Reached(checks, net, checked + |batch|, grouped, made) && peak <= MAX_PARALLEL_CHECKS
  {
    var results;
    ghost var more;
    results, more, peak := RunBatch(batch, net, checked);
    ResultsPermute(batch, net, checked, more);
    grouped := GroupResults(before, results, multiset(PerformAll(checks[..checked], net, 0)));
    ReachesNext(checks, net, checked, |batch|, grouped, was, results, more);
    made := was + more;
  }

  lemma ReachesNext(checks: seq<Check>, net: Network, k: nat, end: nat, grouped: map<nat, seq<AddressCheck>>,
                    made: seq<nat>, results: seq<(nat, AddressCheck)>, more: seq<nat>)
    requires k + end <= |checks|
    requires Lists(made, 0, k) && Lists(more, k, k + end)
    requires multiset(results) == multiset(PerformAll(checks[k..][..end], net, k))
    requires Grouped(grouped, multiset(PerformAll(checks[..k], net, 0)) + multiset(results))
    ensures Reached(checks, net, k + end, grouped, made + more)
  {
    NextBatch(checks, net, k, end);
    ListsJoin(made, more, 0, k, k + end);
  }

  lemma NextBatch(checks: seq<Check>, net: Network, k: nat, end: nat)
    requires k + end <= |checks|
    ensures PerformAll(checks[..k + end], net, 0) ==
            PerformAll(checks[..k], net, 0) + PerformAll(checks[k..][..end], net, k)
  {
    var all, front, rest := checks[..k + end], checks[..k], checks[k..][..end];
    assert |front| == k && |rest| == end;
    forall i | 0 <= i < k + end
      ensures PerformAll(all, net, 0)[i] == (PerformAll(front, net, 0) + PerformAll(rest, net, k))[i]
    {
      assert all[i] == if i < k then front[i] else rest[i - k];
    }
  }

  // ---------------------------------------------------------------------------
  // From addresses to groups
  // ---------------------------------------------------------------------------

  /** The addresses of the checks for index `i`, in order. */
  function AddressesOf(checks: seq<Check>, i: nat): seq<Multiaddr> {
    if checks == [] then []
    else
      var front, last := checks[..|checks| - 1], checks[|checks| - 1];
      if last.index == i then AddressesOf(front, i) + [last.address] else AddressesOf(front, i)
  }

  lemma AddressesOfPush(checks: seq<Check>, c: Check, i: nat)
    ensures AddressesOf(checks + [c], i) ==
            if c.index == i then AddressesOf(checks, i) + [c.address] else AddressesOf(checks, i)
  {
    assert (checks + [c])[..|checks|] == checks;
  }

  /** The checks are those of the first `n` authorities and of the first `m` addresses of the next. */
  ghost predicate Covers(checks: seq<Check>, lists: seq<seq<Multiaddr>>, isPublic: Multiaddr -> bool, n: nat, m: nat) {
    && (forall k :: 0 <= k < |checks| ==> checks[k].isPublic == isPublic(checks[k].address))
    && forall i: nat :: AddressesOf(checks, i) == AddressesUpTo(lists, n, m, i)
  }

  function AddressesUpTo(lists: seq<seq<Multiaddr>>, n: nat, m: nat, i: nat): seq<Multiaddr> {
    if i < n && i < |lists| then lists[i]
    else if i == n && i < |lists| && m <= |lists[i]| then lists[i][..m]
    else []
  }

  lemma CoversNext(checks: seq<Check>, lists: seq<seq<Multiaddr>>, isPublic: Multiaddr -> bool, n: nat, m: nat)
    requires n < |lists| && m < |lists[n]| && Covers(checks, lists, isPublic, n, m)
    ensures Covers(checks + [Check(n, lists[n][m], isPublic(lists[n][m]))], lists, isPublic, n, m + 1)
  {
    var c := Check(n, lists[n][m], isPublic(lists[n][m]));
    forall i: nat
      ensures AddressesOf(checks + [c], i) == AddressesUpTo(lists, n, m + 1, i)
    {
      AddressesOfPush(checks, c, i);
      assert AddressesOf(checks, i) == AddressesUpTo(lists, n, m, i);
      if i == n {
        assert lists[n][..m + 1] == lists[n][..m] + [lists[n][m]];
      }
    }
  }

  /** Done with one authority, ready for the next. */
  lemma CoversAll(checks: seq<Check>, lists: seq<seq<Multiaddr>>, isPublic: Multiaddr -> bool, n: nat)
    requires n < |lists| && Covers(checks, lists, isPublic, n, |lists[n]|)
    ensures Covers(checks, lists, isPublic, n + 1, 0)
  {
    forall i: nat
      ensures AddressesOf(checks, i) == AddressesUpTo(lists, n + 1, 0, i)
    {
      assert AddressesOf(checks, i) == AddressesUpTo(lists, n, |lists[n]|, i);
      assert lists[n][..|lists[n]|] == lists[n];
      if i == n + 1 && i < |lists| {
        assert lists[i][..0] == [];
      }
    }
  }

  /** One check per address of every authority, in order, under the authority's own index. */
  method BuildChecks(lists: seq<seq<Multiaddr>>, isPublic: Multiaddr -> bool) returns (checks: seq<Check>)
    ensures forall i :: 0 <= i < |lists| ==> AddressesOf(checks, i) == lists[i]
    ensures forall i :: i >= |lists| ==> AddressesOf(checks, i) == []
    ensures forall k :: 0 <= k < |checks| ==> checks[k].isPublic == isPublic(checks[k].address)
  {
    checks := [];
    for n := 0 to |lists|
      invariant Covers(checks, lists, isPublic, n, 0)
    {
      for m := 0 to |lists[n]|
        invariant Covers(checks, lists, isPublic, n, m)
      {
        CoversNext(checks, lists, isPublic, n, m);
        checks := checks + [Check(n, lists[n][m], isPublic(lists[n][m]))];
      }
      CoversAll(checks, lists, isPublic, n);
    }
  }

  /** The results for index `i`, in order. */
  function ResultsAt(all: seq<(nat, AddressCheck)>, i: nat): seq<AddressCheck> {
    if all == [] then []
    else
      var front, last := all[..|all| - 1], all[|all| - 1];
      if last.0 == i then ResultsAt(front, i) + [last.1] else ResultsAt(front, i)
  }

  function AddressesIn(checks: seq<AddressCheck>): (r: seq<Multiaddr>)
    ensures |r| == |checks| && forall k :: 0 <= k < |checks| ==> r[k] == checks[k].address
  {
    seq(|checks|, k requires 0 <= k < |checks| => checks[k].address)
  }

  lemma {:induction false} ResultsCount(all: seq<(nat, AddressCheck)>, i: nat, c: AddressCheck)
    ensures multiset(ResultsAt(all, i))[c] == multiset(all)[(i, c)]
    decreases |all|
  {
    if all != [] {
      var front := all[..|all| - 1];
      ResultsCount(front, i, c);
      assert all == front + [all[|all| - 1]];
    }
  }

  /** The results under index `i` are on exactly the addresses checked under it. */
  lemma {:induction false} ResultsAddresses(checks: seq<Check>, net: Network, all: seq<(nat, AddressCheck)>, i: nat)
    requires AllRight(checks, net, all)
    ensures AddressesIn(ResultsAt(all, i)) == AddressesOf(checks, i)
    decreases |checks|
  {
    if checks != [] {
      var n := |checks| - 1;
      ResultsAddresses(checks[..n], net, all[..n], i);
    }
  }

  /** A last element counts for one, in the checks and in their addresses. */
  lemma LastCheck(t: seq<AddressCheck>, c: AddressCheck)
    ensures multiset(t + [c]) == multiset(t) + multiset{c}
    ensures multiset(AddressesIn(t + [c])) == multiset(AddressesIn(t)) + multiset{c.address}
  {
    assert AddressesIn(t + [c]) == AddressesIn(t) + [c.address];
  }

  /** Take one check out of a sequence. */
  lemma {:induction false} TakeOut(t: seq<AddressCheck>, c: AddressCheck) returns (u: seq<AddressCheck>)
    requires c in t
    ensures multiset(t) == multiset(u) + multiset{c}
    ensures multiset(AddressesIn(t)) == multiset(AddressesIn(u)) + multiset{c.address}
    decreases |t|
  {
    var front, last := t[..|t| - 1], t[|t| - 1];
    assert t == front + [last];
    LastCheck(front, last);
    if last == c {
      u := front;
    } else {
      var v := TakeOut(front, c);
      u := v + [last];
      LastCheck(v, last);
    }
  }

  lemma {:induction false} SameAddresses(s: seq<AddressCheck>, t: seq<AddressCheck>)
    requires multiset(s) == multiset(t)
    ensures multiset(AddressesIn(s)) == multiset(AddressesIn(t))
    decreases |s|
  {
    if s == [] {
      assert |t| == |multiset(t)| == 0;
    } else {
      var front, last := s[..|s| - 1], s[|s| - 1];
      assert s == front + [last];
      assert last in multiset(s);
      LastCheck(front, last);
      var u := TakeOut(t, last);
      assert multiset(front) == multiset(s) - multiset{last} == multiset(u);
      SameAddresses(front, u);
    }
  }

  lemma {:induction false} GroupPermutes(grouped: map<nat, seq<AddressCheck>>, all: seq<(nat, AddressCheck)>, i: nat)
    requires Grouped(grouped, multiset(all))
    ensures multiset(AddressesIn(Group(grouped, i))) == multiset(AddressesIn(ResultsAt(all, i)))
  {
    var mine := ResultsAt(all, i);
    forall c: AddressCheck
      ensures multiset(mine)[c] == multiset(Group(grouped, i))[c]
    {
      ResultsCount(all, i, c);
      assert Filed(grouped, i, c) == multiset(all)[(i, c)];
    }
    assert multiset(mine) == multiset(Group(grouped, i));
    SameAddresses(Group(grouped, i), mine);
  }

  /** However the checks finished, group `i` is about exactly the addresses checked under `i`, each once. */
  lemma {:induction false} GroupIsComplete(
    grouped: map<nat, seq<AddressCheck>>, checks: seq<Check>, net: Network, all: seq<(nat, AddressCheck)>, i: nat)
    requires AllRight(checks, net, all) && Grouped(grouped, multiset(all))
    ensures multiset(AddressesIn(Group(grouped, i))) == multiset(AddressesOf(checks, i))
  {
    GroupPermutes(grouped, all, i);
    ResultsAddresses(checks, net, all, i);
  }

  /** A group holds a result exactly if one of the checks under its index gave it. */
  lemma GroupHolds(grouped: map<nat, seq<AddressCheck>>, all: seq<(nat, AddressCheck)>, i: nat, c: AddressCheck)
    requires Grouped(grouped, multiset(all))
    ensures c in Group(grouped, i) <==> exists k :: 0 <= k < |all| && all[k] == (i, c)
  {
    assert Filed(grouped, i, c) == multiset(all)[(i, c)];
    assert c in Group(grouped, i) <==> c in multiset(Group(grouped, i));
    assert (i, c) in all <==> (i, c) in multiset(all);
  }

  /** An address is among those checked under `i` exactly if a check under `i` is on it. */
  lemma {:induction false} AddressesOfMeans(checks: seq<Check>, i: nat, x: Multiaddr)
    ensures x in AddressesOf(checks, i) <==>
            exists n :: 0 <= n < |checks| && checks[n].index == i && checks[n].address == x
    decreases |checks|
  {
    if checks != [] {
      var m := |checks| - 1;
      var front := checks[..m];
      AddressesOfMeans(front, i, x);
      if x in AddressesOf(front, i) {
        var n :| 0 <= n < m && front[n].index == i && front[n].address == x;
        assert checks[n] == front[n];
      }
      if n :| 0 <= n < |checks| && checks[n].index == i && checks[n].address == x {
        assert n < m ==> front[n] == checks[n];
      }
    }
  }

  /** Every result on file comes from one of the checks, and every check has its result on file. */
  lemma FiledForSome(checks: seq<Check>, net: Network, grouped: map<nat, seq<AddressCheck>>,
                     all: seq<(nat, AddressCheck)>)
    requires AllRight(checks, net, all) && Grouped(grouped, multiset(all))
    ensures forall i, c :: i in grouped && c in grouped[i] ==> RightForSome(checks, net, 0, (i, c))
    ensures forall n :: 0 <= n < |checks| ==> OnFile(grouped, checks[n], net, n)
  {
    forall i, c | i in grouped && c in grouped[i]
      ensures RightForSome(checks, net, 0, (i, c))
    {
      GroupHolds(grouped, all, i, c);
      var k :| 0 <= k < |all| && all[k] == (i, c);
      assert checks[k].index == i && Right(checks[k], net, 0 + k, c);
    }
    forall n | 0 <= n < |checks|
      ensures OnFile(grouped, checks[n], net, n)
    {
      GroupHolds(grouped, all, checks[n].index, all[n].1);
      assert all[n] == (checks[n].index, all[n].1);
    }
  }
}
