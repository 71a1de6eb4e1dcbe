/** How often a value occurs in a sequence. */
module Counting {

  ghost function Count<T>(s: seq<T>, x: T): nat {
    multiset(s)[x]
  }

  /** One when the condition holds. */
  function One(b: bool): nat {
    if b then 1 else 0
  }

  lemma CountPush<T>(s: seq<T>, y: T, x: T)
    ensures Count(s + [y], x) == Count(s, x) + One(y == x)
  {
  }

  lemma CountPop<T>(s: seq<T>, x: T)
    requires s != []
    ensures Count(s, x) == Count(s[1..], x) + One(s[0] == x)
  {
    assert s == [s[0]] + s[1..];
  }

  lemma CountAbsent<T>(s: seq<T>, x: T)
    requires x !in s
    ensures Count(s, x) == 0
  {
  }

  lemma CountPresent<T>(s: seq<T>, x: T)
    requires s != [] && s[0] == x
    ensures Count(s, x) > 0
  {
    CountPop(s, x);
  }

  lemma CountRemove<T>(s: seq<T>, k: nat, x: T)
    requires k < |s|
    ensures Count(s, x) == Count(s[..k] + s[k + 1..], x) + One(s[k] == x)
  {
    assert s == s[..k] + [s[k]] + s[k + 1..];
  }

  /** The positions at which a sequence has a value that meets the test. */
  ghost function Where<T(!new)>(s: seq<T>, p: T -> bool): set<int> {
    set k | 0 <= k < |s| && p(s[k])
  }

  lemma WherePush<T(!new)>(s: seq<T>, x: T, p: T -> bool)
    ensures |Where(s + [x], p)| == |Where(s, p)| + One(p(x))
  {
    var all := s + [x];
    assert forall k :: 0 <= k < |s| ==> all[k] == s[k];
    if p(x) {
      assert Where(all, p) == Where(s, p) + {|s|};
    } else {
      assert Where(all, p) == Where(s, p);
    }
  }

  lemma WhereNone<T(!new)>(p: T -> bool)
    ensures |Where([], p)| == 0
  {
    assert Where([], p) == {};
  }
}
