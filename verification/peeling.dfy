/**
 Peeling a graph: removing nodes that no remaining node precedes. What cannot be removed is exactly
 what lies on a cycle or downstream of one.
 */
module Peeling {

  /** The successors of every node, one entry for every edge. */
  type Successors = seq<seq<nat>>

  predicate Fits(s: Successors)
  {
    forall u, k :: 0 <= u < |s| && 0 <= k < |s[u]| ==> s[u][k] < |s|
  }

  predicate Arc(s: Successors, u: nat, v: nat)
  {
    u < |s| && v in s[u]
  }

  // ---------- counting ----------

  /** How often a value occurs. */
  function Times(l: seq<nat>, v: nat): nat
  {
    if l == [] then 0 else (if l[0] == v then 1 else 0) + Times(l[1..], v)
  }

  lemma {:induction false} TimesZero(l: seq<nat>, v: nat)
    ensures Times(l, v) == 0 <==> v !in l
  {
    if l != [] {
      TimesZero(l[1..], v);
    }
  }

  lemma {:induction false} TimesJoin(a: seq<nat>, b: seq<nat>, v: nat)
    ensures Times(a + b, v) == Times(a, v) + Times(b, v)
  {
    if a == [] {
      assert a + b == b;
    } else {
      assert (a + b)[1..] == a[1..] + b;
      TimesJoin(a[1..], b, v);
    }
  }

  /** The edges into v from the first k nodes, without those from nodes that are done. */
  function PendingFrom(s: Successors, done: set<nat>, v: nat, k: nat): nat
    requires k <= |s|
  {
    if k == 0 then 0 else PendingFrom(s, done, v, k - 1) + if k - 1 in done then 0 else Times(s[k - 1], v)
  }

  function Pending(s: Successors, done: set<nat>, v: nat): nat
  {
    PendingFrom(s, done, v, |s|)
  }

  lemma {:induction false} PendingZeroFrom(s: Successors, done: set<nat>, v: nat, k: nat)
    requires k <= |s|
    ensures PendingFrom(s, done, v, k) == 0 <==> forall u: nat :: u < k && Arc(s, u, v) ==> u in done
  {
    if k > 0 {
      PendingZeroFrom(s, done, v, k - 1);
      TimesZero(s[k - 1], v);
    }
  }

  lemma {:induction false} PendingZero(s: Successors, done: set<nat>, v: nat)
    ensures Pending(s, done, v) == 0 <==> forall u: nat :: Arc(s, u, v) ==> u in done
  {
    PendingZeroFrom(s, done, v, |s|);
  }

  lemma {:induction false} PendingDropsFrom(s: Successors, done: set<nat>, u: nat, v: nat, k: nat)
    requires k <= |s| && u < |s| && u !in done
    ensures PendingFrom(s, done, v, k) == PendingFrom(s, done + {u}, v, k) + if u < k then Times(s[u], v) else 0
  {
    if k > 0 {
      PendingDropsFrom(s, done, u, v, k - 1);
    }
  }

  lemma {:induction false} PendingDrops(s: Successors, done: set<nat>, u: nat, v: nat)
    requires u < |s| && u !in done
    ensures Pending(s, done, v) == Pending(s, done + {u}, v) + Times(s[u], v)
  {
    PendingDropsFrom(s, done, u, v, |s|);
  }

  // ---------- orders ----------

  predicate Distinct(l: seq<nat>)
  {
    forall j, k :: 0 <= j < k < |l| ==> l[j] != l[k]
  }

  /** Every node comes after all its predecessors. */
  ghost predicate Topological(s: Successors, order: seq<nat>)
  {
    Distinct(order)
    && forall k, u: nat :: 0 <= k < |order| && Arc(s, u, order[k]) ==> exists j :: 0 <= j < k && order[j] == u
  }

  function Members(order: seq<nat>): set<nat>
  {
    set x | x in order
  }

  lemma {:induction false} TopologicalSnoc(s: Successors, order: seq<nat>, v: nat)
    requires Topological(s, order) && v !in order
    requires forall u: nat :: Arc(s, u, v) ==> u in order
    ensures Topological(s, order + [v]) && Members(order + [v]) == Members(order) + {v}
  {
    var more := order + [v];
    forall k, u: nat | 0 <= k < |more| && Arc(s, u, more[k])
      ensures exists j :: 0 <= j < k && more[j] == u
    {
      if k < |order| {
        assert Arc(s, u, order[k]);
        var j :| 0 <= j < k && order[j] == u;
        assert more[j] == u;
      } else {
        var j :| 0 <= j < |order| && order[j] == u;
        assert more[j] == u;
      }
    }
  }

  // ---------- cycles ----------

  ghost predicate Walk(s: Successors, w: seq<nat>)
  {
    w != [] && forall j, k :: 0 <= j < |w| && k == j + 1 && k < |w| ==> Arc(s, w[j], w[k])
  }

  /** A walk that returns to a node and goes on to v. */
  ghost predicate Witness(s: Successors, w: seq<nat>, i: nat, v: nat)
  {
    Walk(s, w) && 0 < i < |w| && w[0] == w[i] && w[|w| - 1] == v
  }

  /** v lies on a cycle or downstream of one. */
  ghost predicate Cyclic(s: Successors, v: nat)
  {
    exists w, i :: Witness(s, w, i, v)
  }

  /** Backwards along a walk into an order, every node stands earlier. */
  lemma {:induction false} WalkDescends(s: Successors, order: seq<nat>, w: seq<nat>, from: nat, at: nat) returns (start: nat)
    requires Topological(s, order) && Walk(s, w) && from < |w| && at < |order| && order[at] == w[|w| - 1]
    ensures start < |order| && order[start] == w[from] && start + (|w| - 1 - from) <= at
    decreases |w| - from
  {
    if from == |w| - 1 {
      start := at;
    } else {
      var next := WalkDescends(s, order, w, from + 1, at);
      assert Arc(s, w[from], order[next]);
      start :| 0 <= start < next && order[start] == w[from];
    }
  }

  /** What has a place in a topological order lies on no cycle and downstream of none. */
  lemma {:induction false} OrderedIsAcyclic(s: Successors, order: seq<nat>, v: nat)
    requires Topological(s, order) && v in order
    ensures !Cyclic(s, v)
  {
    if w, i :| Witness(s, w, i, v) {
      var at :| 0 <= at < |order| && order[at] == v;
      var later := WalkDescends(s, order, w, i, at);
      var front := w[..i + 1];
      assert Walk(s, front);
      var earlier := WalkDescends(s, order, front, 0, later);
      assert false;
    }
  }

  lemma {:induction false} WalkCons(s: Successors, u: nat, w: seq<nat>)
    requires Walk(s, w) && Arc(s, u, w[0])
    ensures Walk(s, [u] + w)
  {
    var more := [u] + w;
    forall j, k | 0 <= j < |more| && k == j + 1 && k < |more|
      ensures Arc(s, more[j], more[k])
    {
      if j > 0 {
        assert more[j] == w[j - 1] && more[k] == w[k - 1];
      }
    }
  }

  /** Some node of the set precedes v. */
  ghost predicate Preceded(s: Successors, rest: set<nat>, v: nat)
  {
    exists u :: u in rest && Arc(s, u, v)
  }

  ghost function PredecessorOf(s: Successors, rest: set<nat>, v: nat): (u: nat)
    ensures Preceded(s, rest, v) ==> u in rest && Arc(s, u, v)
  {
    if Preceded(s, rest, v) then var u :| u in rest && Arc(s, u, v); u else 0
  }

  /** Going back among nodes that all have a predecessor among themselves ends in a repetition. */
  lemma {:induction false} GoBack(s: Successors, rest: set<nat>, w: seq<nat>, v: nat)
    requires forall x {:trigger Preceded(s, rest, x)} :: x in rest ==> Preceded(s, rest, x)
    requires Walk(s, w) && Distinct(w) && Members(w) <= rest && w[|w| - 1] == v
    ensures Cyclic(s, v)
    decreases |rest - Members(w)|
  {
    assert w[0] in Members(w);
    assert Preceded(s, rest, w[0]);
    var u := PredecessorOf(s, rest, w[0]);
    WalkCons(s, u, w);
    if u in w {
      Returns(s, u, w, v);
    } else {
      FreshStep(rest, u, w);
      GoBack(s, rest, [u] + w, v);
    }
  }

  lemma {:induction false} Returns(s: Successors, u: nat, w: seq<nat>, v: nat)
    requires w != [] && Walk(s, [u] + w) && u in w && w[|w| - 1] == v
    ensures Cyclic(s, v)
  {
    var i :| 0 <= i < |w| && w[i] == u;
    var more := [u] + w;
    assert more[i + 1] == more[0] && more[|more| - 1] == v;
    assert Witness(s, more, i + 1, v);
  }

  lemma {:induction false} FreshStep(rest: set<nat>, u: nat, w: seq<nat>)
    requires u in rest && u !in w && Distinct(w) && Members(w) <= rest
    ensures Distinct([u] + w) && Members([u] + w) <= rest && |rest - Members([u] + w)| < |rest - Members(w)|
  {
    MembersCons(u, w);
    SmallerSet(rest - Members([u] + w), rest - Members(w), u);
  }

  lemma {:induction false} MembersCons(u: nat, w: seq<nat>)
    ensures Members([u] + w) == Members(w) + {u}
  {
  }

  lemma {:induction false} SmallerSet(a: set<nat>, b: set<nat>, u: nat)
    requires a <= b && u in b && u !in a
    ensures |a| < |b|
  {
    assert b == a + (b - a);
  }

  lemma {:induction false} StuckIsCyclic(s: Successors, rest: set<nat>, v: nat)
    requires v in rest && forall x {:trigger Preceded(s, rest, x)} :: x in rest ==> Preceded(s, rest, x)
    ensures Cyclic(s, v)
  {
    assert Walk(s, [v]) && Members([v]) == {v};
    GoBack(s, rest, [v], v);
  }

  /** An order that cannot be continued has left out exactly the cyclic nodes. */
  lemma {:induction false} LeftIsCyclic(s: Successors, nodes: set<nat>, order: seq<nat>)
    requires Topological(s, order) && Members(order) <= nodes
    requires forall u, v: nat :: Arc(s, u, v) ==> u in nodes
    requires forall v :: v in nodes && v !in order ==> Pending(s, Members(order), v) > 0
    ensures forall v :: v in nodes ==> (v !in order <==> Cyclic(s, v))
  {
    var rest := nodes - Members(order);
    forall v | v in rest
      ensures Preceded(s, rest, v)
    {
      PendingZero(s, Members(order), v);
      var u: nat :| Arc(s, u, v) && u !in Members(order);
      assert u in rest;
    }
    forall v | v in nodes
      ensures v !in order <==> Cyclic(s, v)
    {
      if v in order {
        OrderedIsAcyclic(s, order, v);
      } else {
        StuckIsCyclic(s, rest, v);
      }
    }
  }

  // ---------- ascending lists ----------

  /** The numbers from..upto that are kept, ascending. */
  function Filtered(from: nat, upto: nat, keep: nat -> bool): (r: seq<nat>)
    requires from <= upto
    decreases upto - from
  {
    if from == upto then [] else (if keep(from) then [from] else []) + Filtered(from + 1, upto, keep)
  }

  lemma {:induction false} TimesFirst(x: nat, kept: bool, rest: seq<nat>, v: nat)
    ensures Times((if kept then [x] else []) + rest, v) == Times(rest, v) + if kept && x == v then 1 else 0
  {
    if kept {
      assert ([x] + rest)[1..] == rest;
    } else {
      assert [] + rest == rest;
    }
  }

  lemma {:induction false} FilteredTimes(from: nat, upto: nat, keep: nat -> bool, v: nat)
    requires from <= upto
    ensures Times(Filtered(from, upto, keep), v) == if from <= v < upto && keep(v) then 1 else 0
    decreases upto - from
  {
    if from < upto {
      var rest := Filtered(from + 1, upto, keep);
      FilteredTimes(from + 1, upto, keep, v);
      TimesFirst(from, keep(from), rest, v);
    }
  }

  lemma {:induction false} FilteredHas(from: nat, upto: nat, keep: nat -> bool, v: nat)
    requires from <= upto
    ensures v in Filtered(from, upto, keep) <==> from <= v < upto && keep(v)
  {
    FilteredTimes(from, upto, keep, v);
    TimesZero(Filtered(from, upto, keep), v);
  }

  lemma {:induction false} FilteredSnoc(from: nat, upto: nat, keep: nat -> bool)
    requires from <= upto
    ensures Filtered(from, upto + 1, keep) == Filtered(from, upto, keep) + if keep(upto) then [upto] else []
    decreases upto - from
  {
    if from < upto {
      FilteredSnoc(from + 1, upto, keep);
    }
  }

  lemma {:induction false} DistinctTimes(l: seq<nat>, v: nat)
    requires Distinct(l)
    ensures Times(l, v) == if v in l then 1 else 0
  {
    if l != [] {
      DistinctTimes(l[1..], v);
    }
  }

  function Below(n: nat): set<nat>
  {
    if n == 0 then {} else Below(n - 1) + {n - 1}
  }

  lemma {:induction false} BelowHas(n: nat)
    ensures |Below(n)| == n && forall x: nat :: x in Below(n) <==> x < n
  {
    if n > 0 {
      BelowHas(n - 1);
    }
  }

  lemma {:induction false} DistinctBounded(l: seq<nat>, n: nat)
    requires Distinct(l) && forall k :: 0 <= k < |l| ==> l[k] < n
    ensures |l| <= n
  {
    BelowHas(n);
    MembersSize(l);
    assert Members(l) <= Below(n);
    assert Below(n) == Members(l) + (Below(n) - Members(l));
  }

  lemma {:induction false} MembersSize(l: seq<nat>)
    requires Distinct(l)
    ensures |Members(l)| == |l|
  {
    if l != [] {
      var front := l[..|l| - 1];
      MembersSize(front);
      assert l == front + [l[|l| - 1]];
      assert Members(l) == Members(front) + {l[|l| - 1]};
    }
  }
}
