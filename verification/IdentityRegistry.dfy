/**
 The lookup stated on what is registered: session keys and their owners, sub-identities and their
 parents, registrations and their displays, stored on the chains as bytes.
 */
module IdentityRegistry {
  import opened Wrappers
  import opened Identity
  import opened IdentityLookup

  /** A registration in the simple layout; `tail` are the fields after the display. */
  datatype Registration = Registration(judgements: seq<(nat, Judgement)>, deposit: nat, display: Data, tail: Bytes) {
    /**
     Well formed; and one without a text to display is not read as one with a text. Which ones are is
     the subject of `Identity.MissingDisplay`.
     */
    ghost predicate Valid() {
      && HeadOk(judgements, deposit) && DataOk(display)
      && (Textless(display) ==> Fallback(display, tail).None?)
    }

    ghost function Text(): Option<Bytes> {
      if Textless(display) then None else Some(display.bytes)
    }

    ghost function Encoded(): Bytes
      requires Valid()
    {
      EncodeHead(judgements, deposit) + (EncodeData(display) + tail)
    }
  }

  /** Who owns a session key, what is registered for an account, and of which account it is a sub-identity. */
  datatype Registry = Registry(
    owners: map<PublicKey, Account>,
    registrations: map<Account, Registration>,
    supers: map<Account, (Account, Data)>)

  predicate AccountOk(a: Account) {
    |a| == 32
  }

  ghost predicate RegistryOk(g: Registry) {
    && (forall a :: a in g.owners ==> AccountOk(g.owners[a]))
    && (forall s :: s in g.registrations ==> g.registrations[s].Valid())
    && (forall s :: s in g.supers ==> AccountOk(g.supers[s].0) && DataOk(g.supers[s].1))
  }

  /** The chains hold the registry: an owner as its account, a super as the parent followed by the sub's own name. */
  ghost predicate Stores(c: Chains, g: Registry)
    requires RegistryOk(g)
  {
    && (forall a :: Get(c.relay, c.keys.owner(a)) == Get(g.owners, a))
    && (forall s :: AccountOk(s) ==>
          Get(c.people, c.keys.identityOf(s)) ==
          if s in g.registrations then Some(g.registrations[s].Encoded()) else None)
    && (forall s :: AccountOk(s) ==>
          Get(c.people, c.keys.superOf(s)) ==
          if s in g.supers then Some(g.supers[s].0 + EncodeData(g.supers[s].1)) else None)
    && (forall raw :: c.keys.display(raw) == DisplayName(raw))
  }

  /** What is registered as the display of an account. */
  ghost function Shown(g: Registry, s: Account): Option<Bytes> {
    if s in g.registrations then g.registrations[s].Text() else None
  }

  /** The name of an authority: the display of the owner of its key or else of the owner's parent. */
  ghost function NameOf(g: Registry, a: PublicKey): Option<Bytes> {
    if a !in g.owners then None
    else
      var s := g.owners[a];
      if Shown(g, s).Some? then Shown(g, s)
      else if s in g.supers then Shown(g, g.supers[s].0)
      else None
  }

  // ---------------------------------------------------------------------------
  // Every registry can be stored
  // ---------------------------------------------------------------------------

  function OwnerKey(a: PublicKey): (k: Key)
    ensures |k| == a
  {
    seq(a, _ => 0)
  }

  function TaggedKey(tag: byte, s: Account): (k: Key)
    ensures k != [] && k[0] == tag && k[1..] == s
  {
    [tag] + s
  }

  ghost function OwnersStored(owners: map<PublicKey, Account>): Storage {
    map k | k in (set a | a in owners :: OwnerKey(a)) :: owners[|k|]
  }

  /** Values stored under tagged accounts. */
  ghost function Tagged(tag: byte, values: map<Account, Bytes>): Storage {
    map k | k in (set s | s in values :: TaggedKey(tag, s)) :: values[k[1..]]
  }

  lemma OwnersGet(owners: map<PublicKey, Account>, a: PublicKey)
    ensures Get(OwnersStored(owners), OwnerKey(a)) == Get(owners, a)
  {
  }

  lemma TaggedGet(tag: byte, values: map<Account, Bytes>, other: byte, s: Account)
    ensures Get(Tagged(tag, values), TaggedKey(other, s)) == if other == tag then Get(values, s) else None
  {
  }

  lemma TwoTags(identities: map<Account, Bytes>, supers: map<Account, Bytes>, s: Account)
    ensures Get(Tagged(1, identities) + Tagged(2, supers), TaggedKey(1, s)) == Get(identities, s)
    ensures Get(Tagged(1, identities) + Tagged(2, supers), TaggedKey(2, s)) == Get(supers, s)
  {
    TaggedGet(1, identities, 1, s);
    TaggedGet(1, identities, 2, s);
    TaggedGet(2, supers, 1, s);
    TaggedGet(2, supers, 2, s);
  }

  ghost function IdentityValues(g: Registry): (m: map<Account, Bytes>)
    requires RegistryOk(g)
    ensures forall s :: Get(m, s) == if s in g.registrations then Some(g.registrations[s].Encoded()) else None
  {
    map s | s in g.registrations :: g.registrations[s].Encoded()
  }

  ghost function SuperValues(g: Registry): (m: map<Account, Bytes>)
    requires RegistryOk(g)
    ensures forall s :: Get(m, s) == if s in g.supers then Some(g.supers[s].0 + EncodeData(g.supers[s].1)) else None
  {
    map s | s in g.supers :: g.supers[s].0 + EncodeData(g.supers[s].1)
  }

  lemma EveryRegistryIsStored(g: Registry, keys: Keys) returns (c: Chains)
    requires RegistryOk(g) && forall raw :: keys.display(raw) == DisplayName(raw)
    requires forall a :: keys.owner(a) == OwnerKey(a)
    requires forall s :: keys.identityOf(s) == TaggedKey(1, s)
    requires forall s :: keys.superOf(s) == TaggedKey(2, s)
    ensures c.keys == keys && Stores(c, g)
  {
    var identities, supers := IdentityValues(g), SuperValues(g);
    c := Chains(keys, OwnersStored(g.owners), Tagged(1, identities) + Tagged(2, supers));
    forall a
      ensures Get(c.relay, c.keys.owner(a)) == Get(g.owners, a)
    {
      OwnersGet(g.owners, a);
    }
    forall s: Account
      ensures Get(c.people, c.keys.identityOf(s)) == Get(identities, s)
      ensures Get(c.people, c.keys.superOf(s)) == Get(supers, s)
    {
      TwoTags(identities, supers, s);
    }
  }

  // ---------------------------------------------------------------------------
  // Bytes
  // ---------------------------------------------------------------------------

  /** A stored account is read back, whatever follows it; from fewer than 32 bytes none is read. */
  lemma AccountRead(value: Bytes, account: Account, rest: Bytes)
    requires AccountOk(account)
    ensures AccountIn(Some(account + rest)) == Some(account)
    ensures |value| < 32 ==> AccountIn(Some(value)) == None
    ensures AccountIn(None) == None
  {
    assert (account + rest)[..32] == account;
  }

  /** On the chains: a key owner is found under the key, a parent at the head of the super value. */
  lemma StoredAccounts(c: Chains, a: PublicKey, s: Account, account: Account, rest: Bytes)
    requires AccountOk(account)
    ensures Get(c.relay, c.keys.owner(a)) == Some(account + rest) ==> StashOf(c, a) == Some(account)
    ensures Get(c.people, c.keys.superOf(s)) == Some(account + rest) ==> ParentOf(c, s) == Some(account)
  {
    AccountRead([], account, rest);
  }

  lemma StashStored(c: Chains, g: Registry, a: PublicKey)
    requires RegistryOk(g) && Stores(c, g)
    ensures StashOf(c, a) == Get(g.owners, a)
  {
    if a in g.owners {
      assert g.owners[a] + [] == g.owners[a];
      StoredAccounts(c, a, [], g.owners[a], []);
    }
    assert Get(c.relay, c.keys.owner(a)) == Get(g.owners, a);
  }

  lemma ParentStored(c: Chains, g: Registry, s: Account)
    requires RegistryOk(g) && Stores(c, g) && AccountOk(s)
    ensures ParentOf(c, s) == if s in g.supers then Some(g.supers[s].0) else None
  {
    if s in g.supers {
      StoredAccounts(c, 0, s, g.supers[s].0, EncodeData(g.supers[s].1));
    }
  }

  lemma TextStored(r: Registration)
    requires r.Valid()
    ensures DisplayName(r.Encoded()) == r.Text()
  {
    if Textless(r.display) {
      MissingDisplay(r.judgements, r.deposit, r.display, r.tail);
    } else {
      SimpleRoundTrip(r.judgements, r.deposit, r.display.bytes, r.tail);
    }
  }

  lemma DisplayStored(c: Chains, g: Registry, s: Account)
    requires RegistryOk(g) && Stores(c, g) && AccountOk(s)
    ensures OwnName(c, s) == Shown(g, s)
  {
    assert Get(c.people, c.keys.identityOf(s)) ==
           if s in g.registrations then Some(g.registrations[s].Encoded()) else None;
    if s in g.registrations {
      TextStored(g.registrations[s]);
    }
  }

  /** The resolver reads from the bytes exactly the registered name. */
  lemma ResolvesToRegistered(c: Chains, g: Registry, a: PublicKey)
    requires RegistryOk(g) && Stores(c, g)
    ensures StashOf(c, a) == Get(g.owners, a)
    ensures Resolve(c, a) == NameOf(g, a)
  {
    StashStored(c, g, a);
    if a in g.owners {
      var s := g.owners[a];
      DisplayStored(c, g, s);
      ParentStored(c, g, s);
      if s in g.supers {
        DisplayStored(c, g, g.supers[s].0);
      }
    }
  }

  // ---------------------------------------------------------------------------
  // The lookup
  // ---------------------------------------------------------------------------

  /** No two authorities of the list with a name have the same owner. */
  ghost predicate DistinctOwners(g: Registry, authorities: seq<PublicKey>) {
    forall a, b ::
      a in authorities && b in authorities && NameOf(g, a).Some? && Get(g.owners, a) == Get(g.owners, b) ==> a == b
  }

  lemma SameDistinct(c: Chains, g: Registry, authorities: seq<PublicKey>)
    requires RegistryOk(g) && Stores(c, g)
    ensures DistinctStashes(c, authorities) <==> DistinctOwners(g, authorities)
  {
    forall a
      ensures StashOf(c, a) == Get(g.owners, a) && Resolve(c, a) == NameOf(g, a)
    {
      ResolvesToRegistered(c, g, a);
    }
  }

  /**
   The whole batched lookup on chains that hold a registry: every name it gives is the registered
   display of the owner or of the owner's parent, and when no request fails it names exactly the
   authorities that have such a display if and only if no two of them have the same owner.
   */
  method RegisteredNames(keys: Keys, ghost c: Chains, ghost g: Registry, relay: Option<Rpc>, people: Option<Rpc>,
                         authorities: seq<PublicKey>)
    returns (names: map<PublicKey, Bytes>, stashes: map<PublicKey, Account>)
    requires c.keys == keys && RegistryOk(g) && Stores(c, g)
    requires relay.Some? ==> Honest(relay.value, c.relay)
    requires people.Some? ==> Honest(people.value, c.people)
    ensures forall a :: a in names ==> a in authorities && NameOf(g, a) == Some(names[a])
    ensures forall a :: a in stashes ==> a in authorities && Get(g.owners, a) == Some(stashes[a])
    ensures relay.Some? && people.Some? && NeverFails(relay.value) && NeverFails(people.value) ==>
              (DistinctOwners(g, authorities) <==>
                 forall a :: a in names <==> a in authorities && NameOf(g, a).Some?)
  {
    forall a ensures StashOf(c, a) == Get(g.owners, a) && Resolve(c, a) == NameOf(g, a) {
      ResolvesToRegistered(c, g, a);
    }
    SameDistinct(c, g, authorities);
    names, stashes := FetchIdentityNames(keys, c, relay, people, authorities);
  }
}
