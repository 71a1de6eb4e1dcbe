/**
 The lookup with the real decoder, and chains on which it differs from the resolver: two
 authorities with one stash.
 */
module IdentityExamples {
  import opened Wrappers
  import opened Identity
  import opened IdentityLookup

  /** With the real decoder, an account with a registered display in the simple layout resolves to it. */
  lemma RegisteredName(c: Chains, s: Account, js: seq<(nat, Judgement)>, deposit: nat, display: Bytes, tail: Bytes)
    requires forall raw :: c.keys.display(raw) == DisplayName(raw)
    requires HeadOk(js, deposit) && 1 <= |display| <= 32
    requires Get(c.people, c.keys.identityOf(s)) == Some(EncodeHead(js, deposit) + (EncodeData(Raw(display)) + tail))
    ensures AccountName(c, s) == Some(display)
  {
    SimpleRoundTrip(js, deposit, display, tail);
  }

  /** A node that always answers with what the chain holds. */
  function Answering(storage: Storage): Rpc {
    keys => Ok([seq(|keys|, i requires 0 <= i < |keys| => (keys[i], Get(storage, keys[i])))])
  }

  lemma AnsweringIsHonest(storage: Storage)
    ensures Honest(Answering(storage), storage) && NeverFails(Answering(storage))
  {
    forall keys: seq<Key>, k | k in keys
      ensures exists i, j :: 0 <= i < 1 && 0 <= j < |keys| && Answering(storage)(keys).value[i][j].0 == k
    {
      var j :| 0 <= j < |keys| && keys[j] == k;
      assert Answering(storage)(keys).value[0][j].0 == k;
    }
  }

  /** Chains on which the session keys of all authorities belong to one account, with a name. */
  function OneAccount(): Chains {
    var account := seq(32, _ => 0);
    Chains(Keys(_ => [1], _ => [2], _ => [3], raw => Some(raw)), map[[1] := account], map[[2] := [65]])
  }

  lemma OneAccountResolves(a: PublicKey)
    ensures StashOf(OneAccount(), a) == Some(seq(32, _ => 0)) && Resolve(OneAccount(), a) == Some([65])
  {
    var account: Bytes := seq(32, _ => 0);
    assert account[..32] == account;
  }

  /** Any two authorities resolve on these chains, and share a stash. */
  lemma StashesShared(a: PublicKey, b: PublicKey)
    requires a != b
    ensures Resolve(OneAccount(), a) == Some([65]) && Resolve(OneAccount(), b) == Some([65])
    ensures !DistinctStashes(OneAccount(), [a, b])
  {
    OneAccountResolves(a);
    OneAccountResolves(b);
    assert a in [a, b] && b in [a, b];
  }

  /** Of two authorities that resolve and share a stash, the batched lookup names exactly one. */
  method SharedStash(a: PublicKey, b: PublicKey) returns (names: map<PublicKey, Bytes>)
    requires a != b
    ensures (a in names) != (b in names)
  {
    var c := OneAccount();
    AnsweringIsHonest(c.relay);
    AnsweringIsHonest(c.people);
    OneAccountResolves(a);
    OneAccountResolves(b);
    var stashes;
    names, stashes := FetchIdentityNames(c.keys, c, Some(Answering(c.relay)), Some(Answering(c.people)), [a, b]);
    assert a in [a, b] && b in [a, b];
  }
}
