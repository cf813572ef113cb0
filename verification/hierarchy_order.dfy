/**
 Ordering all occurrences of a hierarchy: where no body has a cycle of stored edges, carries left out, the
 order respects every edge between occurrences, and nothing is left for its tail.
 */
module HierarchyOrder {
  import opened OccurrenceLibrary
  import opened OccurrenceEdges
  import opened OccurrenceChains
  import opened Options
  import opened Walks
  import OccurrenceTraversal
  import OccurrenceConverse
  import OccurrenceCycles
  import OccurrenceOrder
  import Peeling

  type Occurrence = OccurrenceTraversal.Occurrence

  /** Bodies list nodes other than the two that are reserved. */
  ghost predicate NodesNamed(v: View)
  {
    forall g :: g in v.bodies ==> INPUT !in v.bodies[g].nodes && OUTPUT !in v.bodies[g].nodes
  }

  predicate IsPinOf(p: Pin, o: Occurrence)
  {
    p.graph == o.graph && p.end.node == o.node && p.identity == o.identity && p.container == o.container
  }

  function PlaceOf(o: Occurrence): OccurrenceCycles.Place
  {
    OccurrenceCycles.Place(o.container, o.node, o.identity)
  }

  // ---------- what the visit lists ----------

  /** The pins of what the visit lists are listed. */
  lemma {:induction false} VisitedIsListed(v: View, o: Occurrence, p: Pin)
    requires WellFormed(v) && NodesNamed(v) && o in OccurrenceTraversal.Occurrences(v, v.root, [], {}) && IsPinOf(p, o)
    ensures Listed(v, p)
  {
    OccurrenceTraversal.VisitIsExact(v, v.root, [], {}, o);
    var steps: seq<Step> :| OccurrenceTraversal.Reached(v, v.root, [], steps, {}, o);
    ReachedIsListed(v, v.root, [], steps, {}, o, p);
  }

  lemma {:induction false} ReachedIsListed(v: View, g: nat, path: Path, steps: seq<Step>, active: set<nat>, o: Occurrence, p: Pin)
    requires WellFormed(v) && NodesNamed(v) && Open(v, path) && Anchored(v, path) && BodyAt(v, path) == g
    requires OccurrenceTraversal.Reached(v, g, path, steps, active, o) && IsPinOf(p, o)
    ensures Listed(v, p)
    decreases |steps|
  {
    if steps != [] {
      var s := steps[0];
      if steps == [s] && o == OccurrenceTraversal.Occurrence(g, s.site, path + [s], path) {
        CallIsListed(v, g, path, s, p);
      } else {
        StepIsOpen(v, g, path, s);
        ReachedIsListed(v, v.bodies[g].subs[s.site].target, path + [s], steps[1..], active + {g}, o, p);
      }
    }
  }

  lemma {:induction false} CallIsListed(v: View, g: nat, path: Path, s: Step, p: Pin)
    requires WellFormed(v) && Open(v, path) && Anchored(v, path) && BodyAt(v, path) == g && OccurrenceTraversal.IsCall(v, g, path, s)
    requires p.graph == g && p.end.node == s.site && p.identity == path + [s] && p.container == path
    ensures Listed(v, p)
  {
    var ordinal: nat :| ordinal < Ordinals(v, v.bodies[g].subs[s.site]) && s == Call(v, g, s.site, v.bodies[g].subs[s.site], ordinal);
    assert p.identity == p.container + [CallAt(v, p, ordinal)];
  }

  lemma {:induction false} StepIsOpen(v: View, g: nat, path: Path, s: Step)
    requires WellFormed(v) && Open(v, path) && Anchored(v, path) && BodyAt(v, path) == g && OccurrenceTraversal.IsCall(v, g, path, s)
    requires v.verdict(path, g, s.site) == Descend && v.bodies[g].subs[s.site].target in v.bodies
    ensures Open(v, path + [s]) && Anchored(v, path + [s]) && BodyAt(v, path + [s]) == v.bodies[g].subs[s.site].target
  {
    var ordinal: nat :| ordinal < Ordinals(v, v.bodies[g].subs[s.site]) && s == Call(v, g, s.site, v.bodies[g].subs[s.site], ordinal);
    InnerIsWithin(v, path, s.site, ordinal);
    WithinIsOpen(v, path, s.site, path + [s]);
  }

  // ---------- edges between occurrences ----------

  /** In-edges lead from one occurrence to another, or out-edges do. */
  ghost predicate Joined(v: View, forward: bool, x: Occurrence, y: Occurrence)
  {
    exists a, b :: IsPinOf(a, x) && IsPinOf(b, y) && !b.driver && JoinedBy(v, forward, a, b)
  }

  ghost predicate JoinedBy(v: View, forward: bool, a: Pin, b: Pin)
  {
    PinFits(v, a) && PinFits(v, b) && if forward then a in Ins(v, b) else b in Outs(v, a)
  }

  /** An edge between them has `x` come before `y`: forward the drivers first, in reverse the sinks. */
  ghost predicate ComesFirst(v: View, forward: bool, x: Occurrence, y: Occurrence)
  {
    if forward then Joined(v, true, x, y) else Joined(v, false, y, x)
  }

  /** The listing of these occurrences: where their in-edges (forward) or out-edges (reverse) lead. */
  ghost predicate Lists(v: View, o: seq<Occurrence>, l: OccurrenceOrder.Listing, forward: bool)
  {
    OccurrenceOrder.ListingFits(l) && |o| == |l.cut|
    && forall i: nat, u: nat :: i < |o| && u < |o| ==> (Some(u) in l.near[i] <==> ComesFirst(v, forward, o[u], o[i]))
  }

  ghost predicate Visited(v: View, o: seq<Occurrence>)
  {
    forall x :: x in o ==> x in OccurrenceTraversal.Occurrences(v, v.root, [], {})
  }

  lemma {:induction false} JoinedPrecedes(v: View, forward: bool, x: Occurrence, y: Occurrence)
    requires WellFormed(v) && NodesNamed(v) && Joined(v, forward, x, y)
    requires x in OccurrenceTraversal.Occurrences(v, v.root, [], {}) && y in OccurrenceTraversal.Occurrences(v, v.root, [], {})
    ensures OccurrenceCycles.Precedes(v, true, PlaceOf(x), PlaceOf(y))
  {
    var a, b :| IsPinOf(a, x) && IsPinOf(b, y) && !b.driver && JoinedBy(v, forward, a, b);
    VisitedIsListed(v, x, a);
    VisitedIsListed(v, y, b);
    assert OccurrenceCycles.Feeding(v, true, a, b);
  }

  // ---------- no cycle ----------

  /** What an occurrence waits for comes before it (forward) or after it (reverse) along the edges. */
  ghost function Along(v: View, forward: bool): (OccurrenceCycles.Place, OccurrenceCycles.Place) -> bool
  {
    (x, y) => if forward then OccurrenceCycles.Precedes(v, true, x, y) else OccurrenceCycles.Precedes(v, true, y, x)
  }

  lemma {:induction false} ArcAlong(v: View, o: seq<Occurrence>, l: OccurrenceOrder.Listing, forward: bool, u: nat, i: nat)
    requires WellFormed(v) && NodesNamed(v) && Visited(v, o) && Lists(v, o, l, forward) && OccurrenceOrder.WaitsFor(l, forward, i, u)
    ensures u < |o| && i < |o| && Along(v, forward)(PlaceOf(o[u]), PlaceOf(o[i]))
  {
    assert o[u] in o && o[i] in o;
    if forward {
      JoinedPrecedes(v, true, o[u], o[i]);
    } else {
      JoinedPrecedes(v, false, o[i], o[u]);
    }
  }

  function Places(o: seq<Occurrence>, w: seq<nat>): (r: seq<OccurrenceCycles.Place>)
    requires forall k :: 0 <= k < |w| ==> w[k] < |o|
    ensures |r| == |w| && forall k :: 0 <= k < |r| ==> r[k] == PlaceOf(o[w[k]])
  {
    seq(|w|, k requires 0 <= k < |w| => PlaceOf(o[w[k]]))
  }

  /** The successor lists hold the dependencies of the listing. */
  ghost predicate Depends(l: OccurrenceOrder.Listing, forward: bool, s: Peeling.Successors)
    requires OccurrenceOrder.ListingFits(l)
  {
    |s| == |l.cut| && forall u: nat, i: nat :: Peeling.Arc(s, u, i) <==> OccurrenceOrder.WaitsFor(l, forward, i, u)
  }

  lemma {:induction false} WalkAlong(v: View, o: seq<Occurrence>, l: OccurrenceOrder.Listing, forward: bool, s: Peeling.Successors, w: seq<nat>)
    requires WellFormed(v) && NodesNamed(v) && Visited(v, o) && Lists(v, o, l, forward) && Depends(l, forward, s)
    requires Peeling.Walk(s, w) && |w| > 1
    ensures forall k :: 0 <= k < |w| ==> w[k] < |o|
    ensures IsWalk(Along(v, forward), Places(o, w))
  {
    forall k | 0 <= k < |w|
      ensures w[k] < |o|
    {
      WalkArc(s, w, if k == 0 then 0 else k - 1);
    }
    var places := Places(o, w);
    forall k | 0 < k < |places|
      ensures Follows(Along(v, forward), places, k)
    {
      WalkArc(s, w, k - 1);
      ArcAlong(v, o, l, forward, w[k - 1], w[k]);
    }
  }

  lemma {:induction false} WalkArc(s: Peeling.Successors, w: seq<nat>, k: nat)
    requires Peeling.Walk(s, w) && k + 1 < |w|
    ensures Peeling.Arc(s, w[k], w[k + 1])
  {
  }

  /** Turned around, a walk is one along the turned relation. */
  lemma {:induction false} TurnedAround(v: View, w: seq<OccurrenceCycles.Place>) returns (r: seq<OccurrenceCycles.Place>)
    requires IsWalk(Along(v, false), w)
    ensures IsWalk(OccurrenceCycles.Preceding(v, true), r) && r[0] == Final(w) && Final(r) == w[0] && |r| == |w|
    decreases |w|
  {
    var step := OccurrenceCycles.Preceding(v, true);
    WalkOne(step, w[0]);
    r := [w[0]];
    if |w| > 1 {
      WalkFrom(Along(v, false), w, 1);
      WalkStep(Along(v, false), w, 0);
      r := TurnedAround(v, w[1..]);
      WalkAppend(step, r, [w[0]]);
      r := r + [w[0]];
    }
  }

  lemma {:induction false} StraightOn(v: View, w: seq<OccurrenceCycles.Place>)
    requires IsWalk(Along(v, true), w)
    ensures IsWalk(OccurrenceCycles.Preceding(v, true), w)
  {
    forall k | 0 < k < |w|
      ensures Follows(OccurrenceCycles.Preceding(v, true), w, k)
    {
      WalkStep(Along(v, true), w, k - 1);
    }
  }

  /** An occurrence on a cycle of dependencies, or downstream of one, shows a cycle of occurrences. */
  lemma {:induction false} CyclicShows(v: View, o: seq<Occurrence>, l: OccurrenceOrder.Listing, forward: bool, s: Peeling.Successors, x: nat)
    returns (cycle: seq<OccurrenceCycles.Place>)
    requires WellFormed(v) && NodesNamed(v) && Visited(v, o) && Lists(v, o, l, forward) && Depends(l, forward, s)
    requires Peeling.Cyclic(s, x)
    ensures IsCycle(OccurrenceCycles.Preceding(v, true), cycle)
  {
    var w, i :| Peeling.Witness(s, w, i, x);
    var walk := w[..i + 1];
    assert Peeling.Walk(s, walk);
    WalkAlong(v, o, l, forward, s, walk);
    cycle := Places(o, walk);
    if forward {
      StraightOn(v, cycle);
    } else {
      cycle := TurnedAround(v, cycle);
    }
  }

  /** Where bodies are acyclic, no occurrence lies on a cycle or downstream of one. */
  lemma {:induction false} NoneCyclic(v: View, o: seq<Occurrence>, l: OccurrenceOrder.Listing, forward: bool, s: Peeling.Successors, x: nat)
    requires WellFormed(v) && NodesNamed(v) && OccurrenceCycles.FlatAcyclic(v)
    requires Visited(v, o) && Lists(v, o, l, forward) && Depends(l, forward, s)
    ensures !Peeling.Cyclic(s, x)
  {
    if Peeling.Cyclic(s, x) {
      var cycle := CyclicShows(v, o, l, forward, s, x);
      OccurrenceCycles.FlatStaysAcyclic(v);
    }
  }

  // ---------- the order of a hierarchy ----------

  /** Nothing is left to show after the main phase. */
  lemma {:induction false} NothingLeft(n: nat, from: nat, keep: nat -> bool)
    requires from <= n && forall x :: from <= x < n ==> !keep(x)
    ensures Peeling.Filtered(from, n, keep) == []
    decreases n - from
  {
    if from < n {
      NothingLeft(n, from + 1, keep);
    }
  }

  /** One stands before the other. */
  predicate Before(s: seq<nat>, u: nat, i: nat)
  {
    exists j, k :: 0 <= j < k < |s| && s[j] == u && s[k] == i
  }

  lemma {:induction false} BeforeIn(s: seq<nat>, more: seq<nat>, u: nat, i: nat)
    requires exists j, k :: 0 <= j < k < |s| && s[j] == u && s[k] == i
    ensures Before(s + more, u, i)
  {
    var j, k :| 0 <= j < k < |s| && s[j] == u && s[k] == i;
    assert (s + more)[j] == u && (s + more)[k] == i;
  }

  /** Orders the occurrences of a hierarchy. Where its bodies are acyclic, nothing is left for the tail: every edge between two occurrences
      is respected, except those that a cut drops, and every occurrence is shown as often as its cut says. */
  method OrderHierarchy(v: View, l: OccurrenceOrder.Listing, forward: bool, first: bool, last: bool)
    returns (o: seq<Occurrence>, ordered: seq<nat>, ghost main: seq<nat>)
    requires WellFormed(v) && NodesNamed(v) && OccurrenceCycles.FlatAcyclic(v)
    requires Lists(v, OccurrenceTraversal.Occurrences(v, v.root, [], {}), l, forward)
    ensures o == OccurrenceTraversal.Occurrences(v, v.root, [], {})
    ensures forall x: nat :: x in main <==> x < |o|
    ensures forall x: nat :: x < |o| ==>
              Peeling.Times(ordered, x) == if l.cut[x] then (if first then 1 else 0) + (if last then 1 else 0) else 1
    ensures ordered == OccurrenceOrder.Shown(main, OccurrenceOrder.Shows(l.cut, first))
                       + if last then Peeling.Filtered(0, |o|, OccurrenceOrder.Cuts(l.cut)) else []
    ensures forall u: nat, i: nat :: u < |o| && i < |o| && u != i && ComesFirst(v, forward, o[u], o[i])
                                     && !(if forward then l.cut[i] else l.cut[u]) && (first || (!l.cut[u] && !l.cut[i])) ==>
              Before(ordered, u, i)
  {
    o := OccurrenceTraversal.Traverse(v);
    var order, s, taken := OccurrenceOrder.OrderNodes(l, forward, first, last);
    ordered, main := order, taken;
    ghost var show := OccurrenceOrder.Shows(l.cut, first);
    forall x: nat | x < |o|
      ensures x in main
    {
      NoneCyclic(v, o, l, forward, s, x);
    }
    NothingLeft(|o|, 0, OccurrenceOrder.Tail(main, show));
    ghost var shown := OccurrenceOrder.Shown(main, show);
    assert shown + [] == shown;
    forall u: nat, i: nat | u < |o| && i < |o| && u != i && ComesFirst(v, forward, o[u], o[i])
                            && !(if forward then l.cut[i] else l.cut[u]) && (first || (!l.cut[u] && !l.cut[i]))
      ensures Before(ordered, u, i)
    {
      assert OccurrenceOrder.WaitsFor(l, forward, i, u);
      OccurrenceOrder.DependencyFirst(s, main, show, u, i);
      BeforeIn(shown, if last then Peeling.Filtered(0, |o|, OccurrenceOrder.Cuts(l.cut)) else [], u, i);
    }
  }
}
