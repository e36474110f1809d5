/** Sequences without repetition, filtering that keeps the order, and clipping. */
module Sequences {

  predicate Unique<T(==)>(s: seq<T>) {
    forall i, j :: 0 <= i < j < |s| ==> s[i] != s[j]
  }

  /** s without the elements outside keep, in their old order. */
  function Retain<T(==)>(s: seq<T>, keep: set<T>): seq<T> {
    if |s| == 0 then []
    else Retain(s[..|s| - 1], keep) + if s[|s| - 1] in keep then [s[|s| - 1]] else []
  }

  lemma {:induction false} RetainMembers<T>(s: seq<T>, keep: set<T>)
    ensures forall x :: x in Retain(s, keep) <==> x in s && x in keep
  {
    if |s| == 0 {
    } else {
      RetainMembers(s[..|s| - 1], keep);
      assert s == s[..|s| - 1] + [s[|s| - 1]];
    }
  }

  lemma {:induction false} RetainKeepsUnique<T>(s: seq<T>, keep: set<T>)
    requires Unique(s)
    ensures Unique(Retain(s, keep))
  {
    if |s| == 0 {
    } else {
      RetainKeepsUnique(s[..|s| - 1], keep);
      RetainMembers(s[..|s| - 1], keep);
    }
  }

  lemma {:induction false} RetainTwice<T>(s: seq<T>, a: set<T>, b: set<T>)
    ensures Retain(Retain(s, a), b) == Retain(s, a * b)
  {
    if |s| == 0 {
    } else {
      var x, r := s[|s| - 1], Retain(s[..|s| - 1], a);
      RetainTwice(s[..|s| - 1], a, b);
      assert Retain(s, a) == if x in a then r + [x] else r;
      assert (r + [x])[..|r|] == r;
    }
  }

  lemma {:induction false} RetainAll<T>(s: seq<T>, keep: set<T>)
    requires forall x :: x in s ==> x in keep
    ensures Retain(s, keep) == s
  {
    if |s| == 0 {
    } else {
      RetainAll(s[..|s| - 1], keep);
    }
  }

  /** The first n elements, or all of them when there are fewer. */
  function Clipped<T>(s: seq<T>, n: nat): (r: seq<T>)
    ensures |r| == (if n < |s| then n else |s|) && r <= s
    ensures r == s <==> n >= |s|
  {
    if n < |s| then s[..n] else s
  }
}
