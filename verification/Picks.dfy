/** What it means to pick elements from a sequence, without saying how. */
module Picks {

  /** How many elements before offset k the test accepts. */
  ghost function Rank<T(!new)>(p: T -> bool, s: seq<T>, k: nat): nat
    requires k <= |s|
  {
    |set l: nat | l < k && p(s[l])|
  }

  /** `r` holds exactly the accepted elements, each as often as it occurs, in their order. */
  ghost predicate Picked<T(!new)>(p: T -> bool, s: seq<T>, r: seq<T>) {
    && |r| == Rank(p, s, |s|)
    && forall k: nat | k < |s| && p(s[k]) :: Rank(p, s, k) < |r| && r[Rank(p, s, k)] == s[k]
  }

  lemma RankGrows<T(!new)>(p: T -> bool, s: seq<T>, x: T, k: nat)
    requires k <= |s|
    ensures Rank(p, s + [x], k) == Rank(p, s, k)
    ensures Rank(p, s + [x], |s| + 1) == Rank(p, s, |s|) + if p(x) then 1 else 0
  {
    var more := s + [x];
    assert (set l: nat | l < k && p(more[l])) == (set l: nat | l < k && p(s[l]));
    var all, before := set l: nat | l < |s| + 1 && p(more[l]), set l: nat | l < |s| && p(s[l]);
    assert all == if p(x) then before + {|s|} else before;
  }

  lemma PickOneMore<T(!new)>(p: T -> bool, s: seq<T>, r: seq<T>, x: T)
    requires Picked(p, s, r)
    ensures Picked(p, s + [x], r + if p(x) then [x] else [])
  {
    var more := s + [x];
    RankGrows(p, s, x, |s|);
    forall k: nat | k < |more| && p(more[k])
      ensures var n, all := Rank(p, more, k), r + if p(x) then [x] else []; n < |all| && all[n] == more[k]
    {
      RankGrows(p, s, x, if k < |s| then k else |s|);
      assert k < |s| ==> more[k] == s[k];
    }
  }

  lemma NonePicked<T(!new)>(p: T -> bool, s: seq<T>)
    requires forall k: nat | k < |s| :: !p(s[k])
    ensures Rank(p, s, |s|) == 0
  {
    assert (set l: nat | l < |s| && p(s[l])) == {};
  }
}
