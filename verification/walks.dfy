/**
 Walks along a relation: joined, cut, and turned to start elsewhere.
 */
module Walks {

  predicate Follows<T>(step: (T, T) -> bool, w: seq<T>, k: int)
  {
    0 < k < |w| ==> step(w[k - 1], w[k])
  }

  ghost predicate IsWalk<T>(step: (T, T) -> bool, w: seq<T>)
  {
    w != [] && forall k {:trigger Follows(step, w, k)} :: 0 < k < |w| ==> Follows(step, w, k)
  }

  /** A walk of at least one step that ends where it began. */
  ghost predicate IsCycle<T>(step: (T, T) -> bool, w: seq<T>)
  {
    IsWalk(step, w) && |w| > 1 && w[0] == w[|w| - 1]
  }

  function Final<T>(w: seq<T>): T
    requires w != []
  {
    w[|w| - 1]
  }

  lemma {:induction false} WalkOne<T>(step: (T, T) -> bool, x: T)
    ensures IsWalk(step, [x])
  {
  }

  lemma {:induction false} WalkFrom<T>(step: (T, T) -> bool, w: seq<T>, from: nat)
    requires IsWalk(step, w) && from < |w|
    ensures IsWalk(step, w[from..])
  {
    forall k | 0 < k < |w[from..]|
      ensures Follows(step, w[from..], k)
    {
      assert Follows(step, w, from + k);
    }
  }

  lemma {:induction false} WalkUpTo<T>(step: (T, T) -> bool, w: seq<T>, upto: nat)
    requires IsWalk(step, w) && upto < |w|
    ensures IsWalk(step, w[..upto + 1])
  {
    var cut := w[..upto + 1];
    forall k | 0 < k < |cut|
      ensures Follows(step, cut, k)
    {
      assert Follows(step, w, k);
    }
  }

  lemma {:induction false} WalkAppend<T>(step: (T, T) -> bool, a: seq<T>, b: seq<T>)
    requires IsWalk(step, a) && IsWalk(step, b) && step(Final(a), b[0])
    ensures IsWalk(step, a + b)
  {
    forall k | 0 < k < |a + b|
      ensures Follows(step, a + b, k)
    {
      if k < |a| {
        assert Follows(step, a, k);
      } else if k > |a| {
        assert Follows(step, b, k - |a|);
      }
    }
  }

  lemma {:induction false} WalkCons<T>(step: (T, T) -> bool, x: T, w: seq<T>)
    requires IsWalk(step, w) && step(x, w[0])
    ensures IsWalk(step, [x] + w) && ([x] + w)[0] == x && Final([x] + w) == Final(w) && |[x] + w| == 1 + |w|
  {
    WalkOne(step, x);
    WalkAppend(step, [x], w);
  }

  /** Two walks, the second from where the first ends. */
  lemma {:induction false} WalkJoin<T>(step: (T, T) -> bool, a: seq<T>, b: seq<T>) returns (r: seq<T>)
    requires IsWalk(step, a) && IsWalk(step, b) && Final(a) == b[0]
    ensures IsWalk(step, r) && r[0] == a[0] && Final(r) == Final(b) && |r| == |a| + |b| - 1
  {
    r := a;
    if |b| > 1 {
      WalkFrom(step, b, 1);
      WalkStep(step, b, 0);
      WalkAppend(step, a, b[1..]);
      r := a + b[1..];
    }
  }

  lemma {:induction false} WalkStep<T>(step: (T, T) -> bool, w: seq<T>, k: nat)
    requires IsWalk(step, w) && k + 1 < |w|
    ensures step(w[k], w[k + 1])
  {
    assert Follows(step, w, k + 1);
  }

  /** A cycle can be started at any of its members. */
  lemma {:induction false} Turn<T>(step: (T, T) -> bool, w: seq<T>, from: nat) returns (r: seq<T>)
    requires IsCycle(step, w) && from + 1 < |w|
    ensures IsCycle(step, r) && r[0] == w[from] && r[1] == w[from + 1]
    ensures forall x :: x in r <==> x in w
  {
    if from == 0 {
      r := w;
    } else {
      var a, b := w[from..], w[..from + 1][1..];
      WalkFrom(step, w, from);
      WalkUpTo(step, w, from);
      WalkFrom(step, w[..from + 1], 1);
      WalkStep(step, w, 0);
      r := a + b;
      assert Final(a) == w[0] && b[0] == w[1];
      WalkAppend(step, a, b);
      assert Final(r) == w[from];
      assert w == [w[0]] + b + w[from + 1..];
      assert a == [w[from]] + w[from + 1..];
      assert w[0] == Final(a) && w[0] in a;
      assert w[from] == Final(b) && w[from] in b;
    }
  }

  /** What every step makes larger is larger by as many at the end of a walk. */
  lemma {:induction false} RankAlong<T(!new)>(step: (T, T) -> bool, rank: T -> nat, w: seq<T>, k: nat)
    requires IsWalk(step, w) && k < |w| && forall x, y {:trigger step(x, y)} :: step(x, y) ==> rank(x) < rank(y)
    ensures rank(w[k]) >= rank(w[0]) + k
  {
    if k > 0 {
      RankAlong(step, rank, w, k - 1);
      WalkStep(step, w, k - 1);
    }
  }
}
