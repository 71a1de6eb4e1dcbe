/**
 Display names for a set of authorities in three batched phases: session key to stash account,
 stash to its own identity, and parent identities for the rest. Model of the lookups in
 cli/src/commands/identity.rs, against a resolver that looks at one authority at a time.
 */
module IdentityLookup {
  import opened Wrappers

  type Account = Bytes
  type Key = Bytes
  type Storage = map<Key, Bytes>

  const CHUNK_SIZE: nat := 500

  /**
   Storage keys, and what reads the display out of a stored registration. The lookup is right for
   any of them.
   */
  datatype Keys = Keys(owner: PublicKey -> Key, identityOf: Account -> Key, superOf: Account -> Key,
                       display: Bytes -> Option<Bytes>)

  /** A node: it answers a list of keys with change sets, or fails. */
  type Changes = seq<(Key, Option<Bytes>)>
  type Rpc = seq<Key> -> Result<seq<Changes>, bool>

  /** Answers are about the keys asked for, tell the stored values, and leave none out. */
  ghost predicate Honest(rpc: Rpc, storage: Storage) {
    forall keys: seq<Key> :: rpc(keys).Ok? ==>
      && (forall i, j :: 0 <= i < |rpc(keys).value| && 0 <= j < |rpc(keys).value[i]| ==>
            rpc(keys).value[i][j].0 in keys
            && rpc(keys).value[i][j].1 == Get(storage, rpc(keys).value[i][j].0))
      && (forall k :: k in keys && k in storage ==>
            exists i, j :: 0 <= i < |rpc(keys).value| && 0 <= j < |rpc(keys).value[i]| && rpc(keys).value[i][j].0 == k)
  }

  ghost predicate NeverFails(rpc: Rpc) {
    forall keys: seq<Key> :: rpc(keys).Ok?
  }

  // ---------------------------------------------------------------------------
  // The simple resolver
  // ---------------------------------------------------------------------------

  /** The two chains; they may be one and the same. */
  datatype Chains = Chains(keys: Keys, relay: Storage, people: Storage)

  /** The first 32 bytes of a stored value. */
  function AccountIn(value: Option<Bytes>): Option<Account> {
    if value.Some? && |value.value| >= 32 then Some(value.value[..32]) else None
  }

  function NameIn(keys: Keys, value: Option<Bytes>): Option<Bytes> {
    if value.Some? then keys.display(value.value) else None
  }

  function StashOf(c: Chains, a: PublicKey): Option<Account> {
    AccountIn(Get(c.relay, c.keys.owner(a)))
  }

  function OwnName(c: Chains, s: Account): Option<Bytes> {
    NameIn(c.keys, Get(c.people, c.keys.identityOf(s)))
  }

  function ParentOf(c: Chains, s: Account): Option<Account> {
    AccountIn(Get(c.people, c.keys.superOf(s)))
  }

  /** The account's own display or, failing that, its parent's. */
  function AccountName(c: Chains, s: Account): Option<Bytes> {
    var own := OwnName(c, s);
    if own.Some? then own
    else
      var parent := ParentOf(c, s);
      if parent.Some? then OwnName(c, parent.value) else None
  }

  function Resolve(c: Chains, a: PublicKey): Option<Bytes> {
    var stash := StashOf(c, a);
    if stash.Some? then AccountName(c, stash.value) else None
  }

  // ---------------------------------------------------------------------------
  // Batched storage reads
  // ---------------------------------------------------------------------------

  /** What `values` holds is what the chain holds, for each key of interest. */
  ghost predicate Agrees(values: map<Key, Bytes>, storage: Storage, keys: seq<Key>) {
    forall k :: k in keys ==> Get(values, k) == Get(storage, k)
  }

  /** Read all keys in chunks; one failed chunk fails the batch. */
  method BatchGetStorage(rpc: Rpc, keys: seq<Key>, ghost storage: Storage) returns (r: Result<map<Key, Bytes>, bool>)
    requires Honest(rpc, storage)
    ensures r.Ok? ==> Agrees(r.value, storage, keys)
    ensures r.Err? ==> exists from, to :: 0 <= from <= to <= |keys| && rpc(keys[from..to]).Err?
  {
    var result: map<Key, Bytes> := map[];
    var from := 0;
    while from < |keys|
      invariant from <= |keys|
      invariant Agrees(result, storage, keys[..from])
      invariant forall k :: k in result ==> k in storage && result[k] == storage[k]
    {
      var to := if from + CHUNK_SIZE < |keys| then from + CHUNK_SIZE else |keys|;
      var chunk := keys[from..to];
      var response := rpc(chunk);
      if response.Err? {
        return Err(true);
      }
      result := Collect(rpc, chunk, result, storage);
      assert keys[..to] == keys[..from] + chunk;
      from := to;
    }
    assert keys[..from] == keys;
    r := Ok(result);
  }

  /** Add the values of one answered chunk. */
  method Collect(rpc: Rpc, chunk: seq<Key>, before: map<Key, Bytes>, ghost storage: Storage)
    returns (result: map<Key, Bytes>)
    requires Honest(rpc, storage) && rpc(chunk).Ok?
    requires forall k :: k in before ==> k in storage && before[k] == storage[k]
    ensures forall k :: k in result ==> k in storage && result[k] == storage[k]
    ensures forall k :: k in before ==> k in result
    ensures forall k :: k in chunk && k in storage ==> k in result
  {
    result := before;
    var sets: seq<Changes> := rpc(chunk).value;
    for i := 0 to |sets|
      invariant forall k :: k in result ==> k in storage && result[k] == storage[k]
      invariant forall k :: k in before ==> k in result
      invariant forall m, n :: 0 <= m < i && 0 <= n < |sets[m]| && sets[m][n].0 in storage ==> sets[m][n].0 in result
    {
      var changes: Changes := sets[i];
      for j := 0 to |changes|
        invariant forall k :: k in result ==> k in storage && result[k] == storage[k]
        invariant forall k :: k in before ==> k in result
        invariant forall m, n :: 0 <= m < i && 0 <= n < |sets[m]| && sets[m][n].0 in storage ==> sets[m][n].0 in result
        invariant forall n :: 0 <= n < j && changes[n].0 in storage ==> changes[n].0 in result
      {
        var (key, value) := changes[j];
        assert sets[i][j].1 == Get(storage, key);
        if value.Some? {
          result := result[key := value.value];
        }
      }
    }
    forall k | k in chunk && k in storage
      ensures k in result
    {
      var i, j :| 0 <= i < |sets| && 0 <= j < |sets[i]| && sets[i][j].0 == k;
    }
  }

  // ---------------------------------------------------------------------------
  // The three phases
  // ---------------------------------------------------------------------------

  /** `m` maps exactly the authorities that have a stash to it. */
  ghost predicate Stashes(c: Chains, authorities: seq<PublicKey>, m: map<PublicKey, Account>) {
    && (forall a :: a in m ==> a in authorities && StashOf(c, a) == Some(m[a]))
    && (forall a :: a in authorities && StashOf(c, a).Some? ==> a in m)
  }

  /** One authority is picked for each stash. */
  ghost predicate Inverse(m: map<PublicKey, Account>, inv: map<Account, PublicKey>) {
    && (forall s :: s in inv ==> inv[s] in m && m[inv[s]] == s)
    && (forall a :: a in m ==> m[a] in inv)
  }

  /** Names only for picked authorities, and the right ones. */
  ghost predicate Right(c: Chains, m: map<PublicKey, Account>, inv: map<Account, PublicKey>,
                        names: map<PublicKey, Bytes>) {
    forall a :: a in names ==> a in m && m[a] in inv && inv[m[a]] == a && AccountName(c, m[a]) == Some(names[a])
  }

  function OwnerKeys(keys: Keys, authorities: seq<PublicKey>): (r: seq<Key>)
    ensures forall a :: a in authorities ==> keys.owner(a) in r
  {
    if authorities == [] then [] else [keys.owner(authorities[0])] + OwnerKeys(keys, authorities[1..])
  }

  function AccountKeys(key: Account -> Key, accounts: seq<Account>): (r: seq<Key>)
    ensures forall s :: s in accounts ==> key(s) in r
  {
    if accounts == [] then [] else [key(accounts[0])] + AccountKeys(key, accounts[1..])
  }

  method MapStashes(keys: Keys, ghost c: Chains, authorities: seq<PublicKey>, values: map<Key, Bytes>)
    returns (m: map<PublicKey, Account>)
    requires c.keys == keys && Agrees(values, c.relay, OwnerKeys(keys, authorities))
    ensures Stashes(c, authorities, m)
  {
    m := map[];
    for i := 0 to |authorities|
      invariant Stashes(c, authorities[..i], m)
    {
      var a := authorities[i];
      assert a in authorities && keys.owner(a) in OwnerKeys(keys, authorities);
      assert Get(values, keys.owner(a)) == Get(c.relay, keys.owner(a));
      var stash := AccountIn(Get(values, keys.owner(a)));
      assert stash == StashOf(c, a);
      if stash.Some? {
        m := m[a := stash.value];
      }
      assert authorities[..i + 1] == authorities[..i] + [a];
    }
    assert authorities[..|authorities|] == authorities;
  }

  /** The map is walked in any order, so any authority of a shared stash may be picked. */
  method Invert(m: map<PublicKey, Account>) returns (inv: map<Account, PublicKey>)
    ensures Inverse(m, inv)
  {
    inv := map[];
    var left := m.Keys;
    while left != {}
      invariant left <= m.Keys
      invariant forall s :: s in inv ==> inv[s] in m && m[inv[s]] == s
      invariant forall a :: a in m && a !in left ==> m[a] in inv
    {
      var a :| a in left;
      inv := inv[m[a] := a];
      left := left - {a};
    }
  }

  method ListOf(accounts: set<Account>) returns (l: seq<Account>)
    ensures forall s :: s in l <==> s in accounts
  {
    l := [];
    var left := accounts;
    while left != {}
      invariant left <= accounts
      invariant forall s :: s in l <==> s in accounts && s !in left
    {
      var s :| s in left;
      l := l + [s];
      left := left - {s};
    }
  }

  /** The fetched values hold what the chain holds for these accounts. */
  ghost predicate Known(values: map<Key, Bytes>, storage: Storage, key: Account -> Key, accounts: seq<Account>) {
    forall i :: 0 <= i < |accounts| ==> Get(values, key(accounts[i])) == Get(storage, key(accounts[i]))
  }

  lemma AgreesKnown(values: map<Key, Bytes>, storage: Storage, key: Account -> Key, accounts: seq<Account>)
    requires Agrees(values, storage, AccountKeys(key, accounts))
    ensures Known(values, storage, key, accounts)
  {
    forall i | 0 <= i < |accounts|
      ensures Get(values, key(accounts[i])) == Get(storage, key(accounts[i]))
    {
      assert key(accounts[i]) in AccountKeys(key, accounts);
    }
  }

  /** Phase two: own displays; the stashes without one are left over. */
  method OwnNames(keys: Keys, ghost c: Chains, ghost m: map<PublicKey, Account>, inv: map<Account, PublicKey>,
                  stashes: seq<Account>, values: map<Key, Bytes>)
    returns (names: map<PublicKey, Bytes>, missing: seq<Account>)
    requires Inverse(m, inv) && (forall s :: s in stashes <==> s in inv)
    requires c.keys == keys && Known(values, c.people, keys.identityOf, stashes)
    ensures Right(c, m, inv, names)
    ensures forall s :: s in missing <==> s in inv && OwnName(c, s).None?
    ensures forall s :: s in inv && OwnName(c, s).Some? ==> inv[s] in names
  {
    names, missing := map[], [];
    for i := 0 to |stashes|
      invariant Right(c, m, inv, names)
      invariant forall s :: s in missing ==> s in inv && OwnName(c, s).None?
      invariant forall k :: 0 <= k < i && OwnName(c, stashes[k]).None? ==> stashes[k] in missing
      invariant forall k :: 0 <= k < i && OwnName(c, stashes[k]).Some? ==> inv[stashes[k]] in names
    {
      var s := stashes[i];
      assert s in stashes;
      var display := NameIn(keys, Get(values, keys.identityOf(s)));
      assert display == OwnName(c, s);
      if display.Some? {
        names := names[inv[s] := display.value];
      } else {
        missing := missing + [s];
      }
    }
  }

  /** The children of each parent, among the stashes without an own display. */
  ghost predicate Families(c: Chains, missing: seq<Account>, children: map<Account, seq<Account>>) {
    && (forall p, s :: p in children && s in children[p] ==> s in missing && ParentOf(c, s) == Some(p))
    && (forall s :: s in missing && ParentOf(c, s).Some? ==>
          ParentOf(c, s).value in children && s in children[ParentOf(c, s).value])
  }

  method GroupByParent(keys: Keys, ghost c: Chains, missing: seq<Account>, values: map<Key, Bytes>)
    returns (children: map<Account, seq<Account>>)
    requires c.keys == keys && Known(values, c.people, keys.superOf, missing)
    ensures Families(c, missing, children)
  {
    children := map[];
    for i := 0 to |missing|
      invariant Families(c, missing[..i], children)
    {
      var s := missing[i];
      var parent := AccountIn(Get(values, keys.superOf(s)));
      assert parent == ParentOf(c, s);
      if parent.Some? {
        var siblings := if parent.value in children then children[parent.value] else [];
        children := children[parent.value := siblings + [s]];
      }
      assert missing[..i + 1] == missing[..i] + [s];
    }
    assert missing[..|missing|] == missing;
  }

  /** Phase three, one parent: its display goes to all its children. */
  method NameChildren(ghost c: Chains, ghost m: map<PublicKey, Account>, inv: map<Account, PublicKey>,
                      before: map<PublicKey, Bytes>,
                      children: seq<Account>, display: Bytes)
    returns (names: map<PublicKey, Bytes>)
    requires Inverse(m, inv) && Right(c, m, inv, before)
    requires forall s :: s in children ==> s in inv && AccountName(c, s) == Some(display)
    ensures Right(c, m, inv, names)
    ensures forall a :: a in before ==> a in names
    ensures forall s :: s in children ==> inv[s] in names
  {
    names := before;
    for i := 0 to |children|
      invariant Right(c, m, inv, names)
      invariant forall a :: a in before ==> a in names
      invariant forall s :: s in children[..i] ==> inv[s] in names
    {
      names := names[inv[children[i]] := display];
      assert children[..i + 1] == children[..i] + [children[i]];
    }
    assert children[..|children|] == children;
  }

  method ParentNames(keys: Keys, ghost c: Chains, ghost m: map<PublicKey, Account>, inv: map<Account, PublicKey>,
                     before: map<PublicKey, Bytes>,
                     ghost missing: seq<Account>, children: map<Account, seq<Account>>, parents: seq<Account>,
                     values: map<Key, Bytes>)
    returns (names: map<PublicKey, Bytes>)
    requires Inverse(m, inv) && Right(c, m, inv, before) && Families(c, missing, children)
    requires forall s :: s in missing ==> s in inv && OwnName(c, s).None?
    requires forall p :: p in parents <==> p in children
    requires c.keys == keys && Known(values, c.people, keys.identityOf, parents)
    ensures Right(c, m, inv, names)
    ensures forall a :: a in before ==> a in names
    ensures forall s :: s in missing && AccountName(c, s).Some? ==> inv[s] in names
  {
    names := before;
    for i := 0 to |parents|
      invariant Right(c, m, inv, names)
      invariant forall a :: a in before ==> a in names
      invariant forall k :: 0 <= k < i ==> Named(c, inv, children, names, parents[k])
    {
      ghost var was := names;
      assert parents[i] in parents;
      names := NameFamily(keys, c, m, inv, names, missing, children, parents[i], values);
      forall k | 0 <= k < i ensures Named(c, inv, children, names, parents[k]) {
      }
    }
    AllNamed(c, inv, missing, children, names, parents);
  }

  method NameFamily(keys: Keys, ghost c: Chains, ghost m: map<PublicKey, Account>, inv: map<Account, PublicKey>,
                    before: map<PublicKey, Bytes>,
                    ghost missing: seq<Account>, children: map<Account, seq<Account>>, parent: Account,
                    values: map<Key, Bytes>)
    returns (names: map<PublicKey, Bytes>)
    requires c.keys == keys && Get(values, keys.identityOf(parent)) == Get(c.people, keys.identityOf(parent))
    requires Inverse(m, inv) && Right(c, m, inv, before) && Families(c, missing, children) && parent in children
    requires forall s :: s in missing ==> s in inv && OwnName(c, s).None?
    ensures Right(c, m, inv, names)
    ensures forall a :: a in before ==> a in names
    ensures Named(c, inv, children, names, parent)
  {
    names := before;
    var display := NameIn(keys, Get(values, keys.identityOf(parent)));
    if display.Some? {
      names := NameChildren(c, m, inv, names, children[parent], display.value);
    }
  }

  lemma AllNamed(c: Chains, inv: map<Account, PublicKey>, missing: seq<Account>, children: map<Account, seq<Account>>,
                 names: map<PublicKey, Bytes>, parents: seq<Account>)
    requires Families(c, missing, children) && (forall p :: p in parents <==> p in children)
    requires forall s :: s in missing ==> s in inv && OwnName(c, s).None?
    requires forall k :: 0 <= k < |parents| ==> Named(c, inv, children, names, parents[k])
    ensures forall s :: s in missing && AccountName(c, s).Some? ==> inv[s] in names
  {
    NamedByParent(c, missing, children);
    forall s | s in missing && AccountName(c, s).Some?
      ensures inv[s] in names
    {
      var p :| p in children && s in children[p] && OwnName(c, p).Some?;
      assert p in parents;
      var k :| 0 <= k < |parents| && parents[k] == p;
      assert Named(c, inv, children, names, parents[k]);
    }
  }

  /** The children of `p` are named if `p` has a display. */
  ghost predicate Named(c: Chains, inv: map<Account, PublicKey>, children: map<Account, seq<Account>>,
                        names: map<PublicKey, Bytes>, p: Account) {
    p in children && OwnName(c, p).Some? ==> forall s :: s in children[p] ==> s in inv && inv[s] in names
  }

  /** A stash without an own display that resolves has a parent with one. */
  lemma NamedByParent(c: Chains, missing: seq<Account>, children: map<Account, seq<Account>>)
    requires Families(c, missing, children)
    requires forall s :: s in missing ==> OwnName(c, s).None?
    ensures forall s :: s in missing && AccountName(c, s).Some? ==>
              exists p :: p in children && s in children[p] && OwnName(c, p).Some?
  {
    forall s | s in missing && AccountName(c, s).Some?
      ensures exists p :: p in children && s in children[p] && OwnName(c, p).Some?
    {
      var p := ParentOf(c, s).value;
      assert p in children && s in children[p];
    }
  }

  /** Phases two and three; `inv` is the authority picked for each stash. */
  method NamesFor(keys: Keys, ghost c: Chains, rpc: Rpc, m: map<PublicKey, Account>)
    returns (names: map<PublicKey, Bytes>, ghost inv: map<Account, PublicKey>)
    requires c.keys == keys && Honest(rpc, c.people)
    ensures Inverse(m, inv) && Right(c, m, inv, names)
    ensures NeverFails(rpc) ==> forall s :: s in inv && AccountName(c, s).Some? ==> inv[s] in names
  {
    var stashToAuth := Invert(m);
    inv := stashToAuth;
    var stashes := ListOf(stashToAuth.Keys);
    var identityValues := BatchGetStorage(rpc, AccountKeys(keys.identityOf, stashes), c.people);
    if identityValues.Err? {
      return map[], inv;
    }
    AgreesKnown(identityValues.value, c.people, keys.identityOf, stashes);
    var own, missing := OwnNames(keys, c, m, stashToAuth, stashes, identityValues.value);
    names := ResolveMissing(keys, c, rpc, m, stashToAuth, own, missing);
  }

  /** Phase three: super accounts of the stashes without a display, then the parents' displays. */
  method ResolveMissing(keys: Keys, ghost c: Chains, rpc: Rpc, ghost m: map<PublicKey, Account>,
                        inv: map<Account, PublicKey>,
                        own: map<PublicKey, Bytes>, missing: seq<Account>)
    returns (names: map<PublicKey, Bytes>)
    requires c.keys == keys && Honest(rpc, c.people) && Inverse(m, inv) && Right(c, m, inv, own)
    requires forall s :: s in missing <==> s in inv && OwnName(c, s).None?
    requires forall s :: s in inv && OwnName(c, s).Some? ==> inv[s] in own
    ensures Right(c, m, inv, names)
    ensures NeverFails(rpc) ==> forall s :: s in inv && AccountName(c, s).Some? ==> inv[s] in names
  {
    names := own;
    if missing == [] {
      return;
    }
    var superValues := BatchGetStorage(rpc, AccountKeys(keys.superOf, missing), c.people);
    if superValues.Err? {
      return;
    }
    AgreesKnown(superValues.value, c.people, keys.superOf, missing);
    var children := GroupByParent(keys, c, missing, superValues.value);
    if children == map[] {
      NamedByParent(c, missing, children);
      return;
    }
    names := FromParents(keys, c, rpc, m, inv, own, missing, children);
  }

  method FromParents(keys: Keys, ghost c: Chains, rpc: Rpc, ghost m: map<PublicKey, Account>,
                     inv: map<Account, PublicKey>,
                     own: map<PublicKey, Bytes>, ghost missing: seq<Account>, children: map<Account, seq<Account>>)
    returns (names: map<PublicKey, Bytes>)
    requires c.keys == keys && Honest(rpc, c.people) && Inverse(m, inv) && Right(c, m, inv, own)
    requires Families(c, missing, children)
    requires forall s :: s in missing ==> s in inv && OwnName(c, s).None?
    ensures Right(c, m, inv, names)
    ensures forall a :: a in own ==> a in names
    ensures NeverFails(rpc) ==> forall s :: s in missing && AccountName(c, s).Some? ==> inv[s] in names
  {
    names := own;
    var parents := ListOf(children.Keys);
    var parentValues := BatchGetStorage(rpc, AccountKeys(keys.identityOf, parents), c.people);
    if parentValues.Ok? {
      AgreesKnown(parentValues.value, c.people, keys.identityOf, parents);
      names := ParentNames(keys, c, m, inv, own, missing, children, parents, parentValues.value);
    }
  }

  /** No two authorities of the list that resolve share a stash. */
  ghost predicate DistinctStashes(c: Chains, authorities: seq<PublicKey>) {
    forall a, b ::
      a in authorities && b in authorities && Resolve(c, a).Some? && StashOf(c, a) == StashOf(c, b) ==> a == b
  }

  /**
   The whole lookup; a client is missing when its connection failed. Every name is the one the
   resolver gives, at most one authority per stash gets one, and when nothing fails each stash
   that resolves has one; so the names are exactly the resolver's if and only if no two
   authorities that resolve share a stash.
   */
  method FetchIdentityNames(keys: Keys, ghost c: Chains, relay: Option<Rpc>, people: Option<Rpc>,
                            authorities: seq<PublicKey>)
    returns (names: map<PublicKey, Bytes>, stashes: map<PublicKey, Account>)
    requires c.keys == keys
    requires relay.Some? ==> Honest(relay.value, c.relay)
    requires people.Some? ==> Honest(people.value, c.people)
    ensures forall a :: a in names ==> a in authorities && Resolve(c, a) == Some(names[a])
    ensures forall a :: a in stashes ==> a in authorities && StashOf(c, a) == Some(stashes[a])
    ensures forall a, b :: a in names && b in names && StashOf(c, a) == StashOf(c, b) ==> a == b
    ensures relay.Some? && people.Some? && NeverFails(relay.value) && NeverFails(people.value) ==>
              && (forall a :: a in authorities && Resolve(c, a).Some? ==>
                    exists b :: b in names && StashOf(c, b) == StashOf(c, a) && Some(names[b]) == Resolve(c, a))
              && (DistinctStashes(c, authorities) <==>
                    forall a :: a in names <==> a in authorities && Resolve(c, a).Some?)
  {
    names, stashes := map[], map[];
    if relay.None? {
      return;
    }
    var ownerValues := BatchGetStorage(relay.value, OwnerKeys(keys, authorities), c.relay);
    if ownerValues.Err? {
      return;
    }
    var m := MapStashes(keys, c, authorities, ownerValues.value);
    if m == map[] {
      return;
    }
    stashes := m;
    if people.None? {
      return;
    }
    ghost var inv;
    names, inv := NamesFor(keys, c, people.value, m);
    if NeverFails(people.value) {
      PickedNames(c, authorities, m, inv, names);
    }
  }

  /** When every stash that resolves has a name, so does the picked authority of each such authority. */
  lemma PickedNames(c: Chains, authorities: seq<PublicKey>, m: map<PublicKey, Account>, inv: map<Account, PublicKey>,
                    names: map<PublicKey, Bytes>)
    requires Stashes(c, authorities, m) && Inverse(m, inv) && Right(c, m, inv, names)
    requires forall s :: s in inv && AccountName(c, s).Some? ==> inv[s] in names
    ensures forall a :: a in authorities && Resolve(c, a).Some? ==>
              exists b :: b in names && StashOf(c, b) == StashOf(c, a) && Some(names[b]) == Resolve(c, a)
    ensures DistinctStashes(c, authorities) ==> forall a :: a in authorities && Resolve(c, a).Some? ==> a in names
  {
    forall a | a in authorities && Resolve(c, a).Some?
      ensures exists b :: b in names && StashOf(c, b) == StashOf(c, a) && Some(names[b]) == Resolve(c, a)
      ensures DistinctStashes(c, authorities) ==> a in names
    {
      assert a in m && m[a] in inv;
      var b := inv[m[a]];
      assert b in names && b in authorities && StashOf(c, b) == StashOf(c, a);
    }
  }
}
