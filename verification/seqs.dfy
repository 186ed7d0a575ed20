/** Counting the elements of a sequence that satisfy a predicate, as the
    pages do when they promise one active button or link. */
module Seqs {

  function Count<T>(s: seq<T>, p: T -> bool): nat {
    if s == [] then 0 else (if p(s[0]) then 1 else 0) + Count(s[1..], p)
  }

  /** Exactly one element satisfying `p`, the one at index `k`, counts 1. */
  lemma {:induction false} CountOne<T>(s: seq<T>, p: T -> bool, k: nat)
    requires k < |s| && forall j :: 0 <= j < |s| ==> (p(s[j]) <==> j == k)
    ensures Count(s, p) == 1
  {
    if k == 0 {
      CountNone(s[1..], p);
    } else {
      CountOne(s[1..], p, k - 1);
    }
  }

  /** No element satisfying `p` counts 0. */
  lemma {:induction false} CountNone<T>(s: seq<T>, p: T -> bool)
    requires forall j :: 0 <= j < |s| ==> !p(s[j])
    ensures Count(s, p) == 0
  {
    if s != [] {
      CountNone(s[1..], p);
    }
  }
}
