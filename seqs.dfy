/**
  The list operations the game code relies on: Python's `list.remove`
  (first occurrence only), `list.count`, and the "no duplicates" property
  of the quest-id lists.
 */
module Seqs {

  predicate NoDuplicates<T(==)>(s: seq<T>) {
    forall i, j :: 0 <= i < j < |s| ==> s[i] != s[j]
  }

  /** Position of the first occurrence of `x` in `s`. */
  function IndexOf<T(==)>(s: seq<T>, x: T): (i: nat)
    requires x in s
    ensures i < |s| && s[i] == x && x !in s[..i]
  {
    if s[0] == x then 0 else 1 + IndexOf(s[1..], x)
  }

  /** Python's `s.remove(x)` on a list that holds `x`, and `s` itself otherwise. */
  function RemoveFirst<T(==)>(s: seq<T>, x: T): (r: seq<T>)
    ensures x in s ==> |r| == |s| - 1
    ensures x !in s ==> r == s
  {
    if s == [] then []
    else if s[0] == x then s[1..]
    else [s[0]] + RemoveFirst(s[1..], x)
  }

  /** `list.remove` takes away exactly one copy of `x` and nothing else. */
  lemma {:induction false} RemoveFirstMultiset<T>(s: seq<T>, x: T)
    ensures multiset(RemoveFirst(s, x)) == multiset(s) - multiset{x}
  {
    if s != [] {
      assert s == [s[0]] + s[1..];
      if s[0] != x {
        RemoveFirstMultiset(s[1..], x);
      }
    }
  }

  /** Python's `s.count(x)`. */
  function Count<T(==)>(s: seq<T>, x: T): (n: nat)
    ensures n == multiset(s)[x]
    ensures n > 0 <==> x in s
  {
    if s == [] then 0
    else
      assert s == [s[0]] + s[1..];
      (if s[0] == x then 1 else 0) + Count(s[1..], x)
  }

  /** Removing the first occurrence keeps every other element in its order. */
  lemma {:induction false} RemoveFirstAt<T>(s: seq<T>, x: T)
    requires x in s
    ensures RemoveFirst(s, x) == s[..IndexOf(s, x)] + s[IndexOf(s, x) + 1..]
  {
    if s[0] != x {
      var t := s[1..];
      var j := IndexOf(t, x);
      RemoveFirstAt(t, x);
      assert IndexOf(s, x) == j + 1;
      assert s[..j + 1] == [s[0]] + t[..j];
      assert s[j + 2..] == t[j + 1..];
    }
  }

  lemma {:induction false} RemoveFirstKeepsNoDuplicates<T>(s: seq<T>, x: T)
    requires NoDuplicates(s)
    ensures NoDuplicates(RemoveFirst(s, x))
    ensures x !in RemoveFirst(s, x)
  {
    if x in s {
      var i := IndexOf(s, x);
      RemoveFirstAt(s, x);
      var r := RemoveFirst(s, x);
      assert forall k :: 0 <= k < |r| ==> r[k] == s[if k < i then k else k + 1];
      forall k | 0 <= k < |r|
        ensures r[k] != x
      {
        assert r[k] == s[if k < i then k else k + 1];
      }
    }
  }

  /** A duplicate-free list drawn from `universe` is no longer than it. */
  lemma {:induction false} NoDuplicatesBounded<T>(s: seq<T>, universe: set<T>)
    requires NoDuplicates(s)
    requires forall x :: x in s ==> x in universe
    ensures |s| <= |universe|
  {
    if s != [] {
      assert forall x :: x in s[1..] ==> x in universe - {s[0]} by {
        forall x | x in s[1..] ensures x in universe - {s[0]} {
          var k :| 0 <= k < |s[1..]| && s[1..][k] == x;
          assert s[k + 1] == x;
        }
      }
      NoDuplicatesBounded(s[1..], universe - {s[0]});
    }
  }

  /** Python's `s[::-1]`. */
  function Reverse<T>(s: seq<T>): (r: seq<T>)
    ensures |r| == |s|
    ensures forall i :: 0 <= i < |s| ==> r[i] == s[|s| - 1 - i]
  {
    if s == [] then [] else Reverse(s[1..]) + [s[0]]
  }
}
