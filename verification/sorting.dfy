/** Sorting of numbers, standing in for the standard library's sort. */
module Sorting {

  predicate Ascending(s: seq<nat>)
  {
    forall p, q :: 0 <= p < q < |s| ==> s[p] <= s[q]
  }

  function Insert(s: seq<nat>, x: nat): (r: seq<nat>)
    ensures multiset(r) == multiset(s) + multiset{x}
  {
    if s == [] || x <= s[0] then [x] + s
    else
      assert s == [s[0]] + s[1..];
      [s[0]] + Insert(s[1..], x)
  }

  lemma {:induction false} InsertAscending(s: seq<nat>, x: nat)
    requires Ascending(s)
    ensures Ascending(Insert(s, x))
  {
    if s != [] && s[0] < x {
      var t := Insert(s[1..], x);
      InsertAscending(s[1..], x);
      forall p | 0 <= p < |t|
        ensures s[0] <= t[p]
      {
        assert t[p] in multiset(t);
        assert t[p] in s[1..] || t[p] == x;
      }
    }
  }

  function Sort(s: seq<nat>): (r: seq<nat>)
    ensures Ascending(r) && multiset(r) == multiset(s)
  {
    if s == [] then []
    else
      assert s == [s[0]] + s[1..];
      InsertAscending(Sort(s[1..]), s[0]);
      Insert(Sort(s[1..]), s[0])
  }

  /** A sequence without repetitions is sorted into a strictly ascending one with the same members. */
  lemma {:induction false} SameMembers(r: seq<nat>, s: seq<nat>)
    requires multiset(r) == multiset(s)
    ensures forall x :: x in r <==> x in s
  {
    assert forall x :: x in r <==> x in multiset(r);
    assert forall x :: x in s <==> x in multiset(s);
  }

  lemma {:induction false} SortDistinct(s: seq<nat>)
    requires forall p, q :: 0 <= p < q < |s| ==> s[p] != s[q]
    ensures forall p, q :: 0 <= p < q < |Sort(s)| ==> Sort(s)[p] < Sort(s)[q]
    ensures forall x :: x in Sort(s) <==> x in s
  {
    var r := Sort(s);
    SameMembers(r, s);
    forall p, q | 0 <= p < q < |r|
      ensures r[p] < r[q]
    {
      if r[p] == r[q] {
        Twice(r, p, q);
        AtMostOnce(s, r[p]);
      }
    }
  }

  lemma {:induction false} Twice(r: seq<nat>, p: nat, q: nat)
    requires p < q < |r| && r[p] == r[q]
    ensures multiset(r)[r[p]] >= 2
  {
    assert r == r[..p] + [r[p]] + r[p + 1..q] + [r[q]] + r[q + 1..];
  }

  lemma {:induction false} AtMostOnce(s: seq<nat>, x: nat)
    requires forall p, q :: 0 <= p < q < |s| ==> s[p] != s[q]
    ensures multiset(s)[x] <= 1
  {
    if s != [] {
      AtMostOnce(s[1..], x);
      assert s == [s[0]] + s[1..];
      assert s[0] !in s[1..];
    }
  }
}
