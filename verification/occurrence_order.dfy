/**
 Ordering the occurrences of a hierarchy by their dependencies, cut nodes first, last, twice or not at all.
 */
module OccurrenceOrder {
  import opened Peeling
  import opened Options

  /** Occurrences in storage order. `near` holds, for every in-edge (forward) or out-edge (reverse) of an
      occurrence, the position of the occurrence at its other end, if it is listed. */
  datatype Listing = Listing(cut: seq<bool>, near: seq<seq<Option<nat>>>)

  predicate ListingFits(l: Listing)
  {
    |l.near| == |l.cut|
    && forall i, k :: 0 <= i < |l.near| && 0 <= k < |l.near[i]| && l.near[i][k].Some? ==> l.near[i][k].value < |l.cut|
  }

  /** Occurrence i has to wait for u. A cut node waits for nothing when it is a source (forward), and
      nothing waits for it when it is a sink (reverse). */
  predicate WaitsFor(l: Listing, forward: bool, i: nat, u: nat)
    requires ListingFits(l)
  {
    i < |l.cut| && u < |l.cut| && u != i && Some(u) in l.near[i] && if forward then !l.cut[i] else !l.cut[u]
  }

  // ---------- the dependency graph ----------

  lemma {:induction false} PendingAppendFrom(s: Successors, u: nat, i: nat, v: nat, k: nat)
    requires k <= |s| && u < |s|
    ensures PendingFrom(s[u := s[u] + [i]], {}, v, k) == PendingFrom(s, {}, v, k) + if u < k && v == i then 1 else 0
  {
    if k > 0 {
      PendingAppendFrom(s, u, i, v, k - 1);
      TimesJoin(s[u], [i], v);
      assert Times([i], v) == if v == i then 1 else 0;
    }
  }

  lemma {:induction false} PendingNoneFrom(s: Successors, v: nat, k: nat)
    requires k <= |s| && forall u :: 0 <= u < |s| ==> s[u] == []
    ensures PendingFrom(s, {}, v, k) == 0
  {
    if k > 0 {
      PendingNoneFrom(s, v, k - 1);
    }
  }

  /** The successor lists and the number of dependencies of every occurrence. */
  method Dependencies(l: Listing, forward: bool) returns (s: Successors, indegree: seq<nat>)
    requires ListingFits(l)
    ensures |s| == |l.cut| && |indegree| == |l.cut| && Fits(s)
    ensures forall u: nat, i: nat :: Arc(s, u, i) <==> WaitsFor(l, forward, i, u)
    ensures forall i: nat :: i < |l.cut| ==> indegree[i] == Pending(s, {}, i)
  {
    var n := |l.cut|;
    s, indegree := seq(n, _ => []), seq(n, _ => 0);
    forall v: nat
      ensures Pending(s, {}, v) == 0
    {
      PendingNoneFrom(s, v, |s|);
    }
    for i := 0 to n
      invariant Built(l, forward, s, indegree, i)
    {
      if !(forward && l.cut[i]) {
        s, indegree := DependenciesOf(l, forward, i, s, indegree);
      }
    }
  }

  ghost predicate Counted(s: Successors, indegree: seq<nat>)
  {
    |indegree| == |s| && Fits(s) && forall i: nat :: i < |s| ==> indegree[i] == Pending(s, {}, i)
  }

  /** The dependencies of the first `upto` occurrences are in place. */
  ghost predicate Built(l: Listing, forward: bool, s: Successors, indegree: seq<nat>, upto: nat)
    requires ListingFits(l)
  {
    |s| == |l.cut| && Counted(s, indegree)
    && forall u: nat, i: nat :: Arc(s, u, i) <==> i < upto && WaitsFor(l, forward, i, u)
  }

  method DependenciesOf(l: Listing, forward: bool, i: nat, s0: Successors, indegree0: seq<nat>) returns (s: Successors, indegree: seq<nat>)
    requires ListingFits(l) && i < |l.cut| && Built(l, forward, s0, indegree0, i) && !(forward && l.cut[i])
    ensures Built(l, forward, s, indegree, i + 1)
  {
    s, indegree := s0, indegree0;
    for k := 0 to |l.near[i]|
      invariant |s| == |l.cut| && Counted(s, indegree)
      invariant forall u: nat, j: nat :: j != i ==> (Arc(s, u, j) <==> Arc(s0, u, j))
      invariant forall u: nat :: Arc(s, u, i) <==> exists j :: 0 <= j < k && l.near[i][j] == Some(u) && WaitsFor(l, forward, i, u)
    {
      var dependency := l.near[i][k];
      ghost var before := s;
      if dependency.Some? && dependency.value != i && (forward || !l.cut[dependency.value]) {
        var u := dependency.value;
        assert WaitsFor(l, forward, i, u);
        s, indegree := AddArc(s, indegree, u, i);
      }
      forall u: nat
        ensures Arc(s, u, i) <==> Arc(before, u, i) || (l.near[i][k] == Some(u) && WaitsFor(l, forward, i, u))
      {
      }
    }
  }

  method AddArc(s0: Successors, indegree0: seq<nat>, u: nat, i: nat) returns (s: Successors, indegree: seq<nat>)
    requires Counted(s0, indegree0) && u < |s0| && i < |s0|
    ensures Counted(s, indegree) && |s| == |s0|
    ensures forall x: nat, y: nat :: Arc(s, x, y) <==> Arc(s0, x, y) || (x == u && y == i)
  {
    s := s0[u := s0[u] + [i]];
    indegree := indegree0[i := indegree0[i] + 1];
    forall v: nat | v < |s|
      ensures indegree[v] == Pending(s, {}, v)
    {
      PendingAppendFrom(s0, u, i, v, |s0|);
    }
  }

  // ---------- the main phase ----------

  /** v is the least node that nothing holds back any more. */
  ghost predicate LeastChoice(s: Successors, done: set<nat>, v: nat)
  {
    Free(s, done, v) && forall x: nat :: Free(s, done, x) ==> v <= x
  }

  ghost predicate Free(s: Successors, done: set<nat>, v: nat)
  {
    v < |s| && v !in done && Pending(s, done, v) == 0
  }

  /** Every node was the least choice when it was taken. */
  ghost predicate LeastOrder(s: Successors, order: seq<nat>)
  {
    order != [] ==>
      LeastOrder(s, order[..|order| - 1]) && LeastChoice(s, Members(order[..|order| - 1]), order[|order| - 1])
  }

  /** The state of the queue: who is done, what the others wait for, and who is ready. */
  ghost predicate Peeled(s: Successors, order: seq<nat>, indegree: seq<nat>, ready: set<nat>)
  {
    Fits(s) && |indegree| == |s| && Topological(s, order) && LeastOrder(s, order)
    && (forall v :: v in order ==> v < |s| && indegree[v] == 0)
    && (forall v: nat :: v < |s| && v !in order ==> indegree[v] == Pending(s, Members(order), v))
    && forall v: nat :: v in ready <==> Free(s, Members(order), v)
  }

  /** Removes the least element of a queue. */
  method TakeLeast(ready: set<nat>) returns (least: nat, rest: set<nat>)
    requires ready != {}
    ensures least in ready && rest == ready - {least} && forall x :: x in ready ==> least <= x
  {
    var x :| x in ready;
    least := x;
    var left := ready - {x};
    while left != {}
      invariant left <= ready && least in ready && forall y :: y in ready && y !in left ==> least <= y
      decreases |left|
    {
      var y :| y in left;
      if y < least {
        least := y;
      }
      left := left - {y};
    }
    rest := ready - {least};
  }

  /** Takes the edges out of a node that is done; whoever waits for nothing more becomes ready. */
  method Relax(s: Successors, i: nat, indegree0: seq<nat>, ready0: set<nat>, ghost order: seq<nat>) returns (indegree: seq<nat>, ready: set<nat>)
    requires Peeled(s, order, indegree0, ready0 + {i}) && i !in ready0 && Free(s, Members(order), i)
    requires LeastChoice(s, Members(order), i)
    ensures Peeled(s, order + [i], indegree, ready)
  {
    FreeNext(s, order, i);
    RelaxStarts(s, i, indegree0, ready0, order);
    indegree, ready := indegree0, ready0;
    ghost var done := Members(order) + {i};
    ghost var left := s[i];
    for k := 0 to |s[i]|
      invariant left == s[i][k..] && Relaxing(s, done, indegree, ready, left)
    {
      var v := s[i][k];
      RelaxStep(s, done, indegree, ready, left);
      left := left[1..];
      if indegree[v] != 0 {
        indegree := indegree[v := indegree[v] - 1];
        if indegree[v] == 0 {
          ready := ready + {v};
        }
      }
    }
  }

  /** The nodes in `left` have still to be told that their dependency is done. */
  ghost predicate Relaxing(s: Successors, done: set<nat>, indegree: seq<nat>, ready: set<nat>, left: seq<nat>)
  {
    Fits(s) && |indegree| == |s| && (forall v :: v in done ==> v < |s| && indegree[v] == 0)
    && (forall v: nat :: v < |s| && v !in done ==> indegree[v] == Pending(s, done, v) + Times(left, v))
    && forall v: nat :: v in ready <==> v < |s| && v !in done && indegree[v] == 0
  }

  lemma {:induction false} RelaxStep(s: Successors, done: set<nat>, indegree: seq<nat>, ready: set<nat>, left: seq<nat>)
    requires Relaxing(s, done, indegree, ready, left) && left != [] && left[0] < |s|
    ensures
      var n := indegree[left[0]];
      Relaxing(s, done, if n != 0 then indegree[left[0] := n - 1] else indegree, if n == 1 then ready + {left[0]} else ready, left[1..])
  {
  }

  lemma {:induction false} RelaxStarts(s: Successors, i: nat, indegree: seq<nat>, ready: set<nat>, order: seq<nat>)
    requires Peeled(s, order, indegree, ready + {i}) && i !in ready && Free(s, Members(order), i)
    ensures Relaxing(s, Members(order) + {i}, indegree, ready, s[i])
  {
    var done := Members(order) + {i};
    forall v: nat
      ensures Pending(s, Members(order), v) == Pending(s, done, v) + Times(s[i], v)
    {
      PendingDrops(s, Members(order), i, v);
    }
  }

  lemma {:induction false} FreeNext(s: Successors, order: seq<nat>, i: nat)
    requires Topological(s, order) && LeastOrder(s, order) && LeastChoice(s, Members(order), i)
    ensures Topological(s, order + [i]) && LeastOrder(s, order + [i]) && Members(order + [i]) == Members(order) + {i}
  {
    PendingZero(s, Members(order), i);
    TopologicalSnoc(s, order, i);
    assert (order + [i])[..|order|] == order;
  }

  /** Takes the least ready node until none is left. */
  method MainPhase(s: Successors, indegree0: seq<nat>) returns (order: seq<nat>)
    requires Counted(s, indegree0) && forall u: nat, v: nat :: Arc(s, u, v) ==> v < |s|
    ensures Topological(s, order) && LeastOrder(s, order)
    ensures forall v: nat :: v < |s| ==> (v !in order <==> Cyclic(s, v))
    ensures forall v :: v in order ==> v < |s|
  {
    order := [];
    var indegree := indegree0;
    var ready := set i: nat | i < |s| && indegree[i] == 0;
    assert Members([]) == {};
    while ready != {}
      invariant Peeled(s, order, indegree, ready)
      decreases |s| - |order|
    {
      var i, rest := TakeLeast(ready);
      assert rest + {i} == ready;
      indegree, ready := Relax(s, i, indegree, rest, order);
      order := order + [i];
      assert forall k :: 0 <= k < |order| ==> order[k] in order;
      DistinctBounded(order, |s|);
    }
    BelowHas(|s|);
    forall v: nat | v < |s| && v !in order
      ensures Pending(s, Members(order), v) > 0
    {
      assert v !in ready;
    }
    LeftIsCyclic(s, Below(|s|), order);
  }

  // ---------- the whole order ----------

  /** Whether the main phase and the tail show an occurrence. */
  function Shows(cut: seq<bool>, first: bool): nat -> bool
  {
    (i: nat) => i < |cut| && (!cut[i] || first)
  }

  function Shown(order: seq<nat>, show: nat -> bool): seq<nat>
  {
    if order == [] then [] else Shown(order[..|order| - 1], show) + if show(order[|order| - 1]) then [order[|order| - 1]] else []
  }

  /** What the main phase has not taken, shown under the same rule. */
  function Tail(order: seq<nat>, show: nat -> bool): nat -> bool
  {
    (i: nat) => i !in order && show(i)
  }

  function Cuts(cut: seq<bool>): nat -> bool
  {
    (i: nat) => i < |cut| && cut[i]
  }

  method Collect(n: nat, keep: nat -> bool) returns (r: seq<nat>)
    ensures r == Filtered(0, n, keep)
  {
    r := [];
    for i := 0 to n
      invariant r == Filtered(0, i, keep)
    {
      FilteredSnoc(0, i, keep);
      if keep(i) {
        r := r + [i];
      }
    }
  }

  method ShowAll(order: seq<nat>, show: nat -> bool) returns (r: seq<nat>)
    ensures r == Shown(order, show)
  {
    r := [];
    for k := 0 to |order|
      invariant r == Shown(order[..k], show)
    {
      assert order[..k + 1][..k] == order[..k];
      if show(order[k]) {
        r := r + [order[k]];
      }
    }
    assert order[..|order|] == order;
  }

  /** The occurrences in order: the acyclic part, each time the least free node; then in storage order
      what lies on a cycle or downstream of one; then the cut nodes, if they come last. */
  method OrderNodes(l: Listing, forward: bool, first: bool, last: bool)
    returns (ordered: seq<nat>, ghost s: Successors, ghost main: seq<nat>)
    requires ListingFits(l)
    ensures |s| == |l.cut| && forall u: nat, i: nat :: Arc(s, u, i) <==> WaitsFor(l, forward, i, u)
    ensures Topological(s, main) && LeastOrder(s, main)
    ensures forall v: nat :: v < |s| ==> (v !in main <==> Cyclic(s, v))
    ensures forall v :: v in main ==> v < |s|
    ensures ordered == Shown(main, Shows(l.cut, first)) + Filtered(0, |s|, Tail(main, Shows(l.cut, first)))
                       + if last then Filtered(0, |s|, Cuts(l.cut)) else []
    ensures forall v: nat :: v < |s| ==>
              Times(ordered, v) == if l.cut[v] then (if first then 1 else 0) + (if last then 1 else 0) else 1
  {
    var arcs, indegree := Dependencies(l, forward);
    s := arcs;
    var order := MainPhase(arcs, indegree);
    main := order;
    var show := Shows(l.cut, first);
    var shown := ShowAll(order, show);
    var tail := Collect(|l.cut|, Tail(order, show));
    ordered := shown + tail;
    forall v: nat | v < |s|
      ensures Times(ordered, v) == if l.cut[v] && !first then 0 else 1
    {
      OnceInAll(order, show, |s|, v);
    }
    if last {
      var cuts := Collect(|l.cut|, Cuts(l.cut));
      forall v: nat | v < |s|
        ensures Times(ordered + cuts, v) == Times(ordered, v) + if l.cut[v] then 1 else 0
      {
        TimesJoin(ordered, cuts, v);
        FilteredTimes(0, |s|, Cuts(l.cut), v);
      }
      ordered := ordered + cuts;
    } else {
      assert ordered + [] == ordered;
    }
  }

  lemma {:induction false} ShownTimes(order: seq<nat>, show: nat -> bool, v: nat)
    requires Distinct(order)
    ensures Times(Shown(order, show), v) == if v in order && show(v) then 1 else 0
    decreases |order|
  {
    if order != [] {
      var front, x := order[..|order| - 1], order[|order| - 1];
      ShownTimes(front, show, v);
      TimesJoin(Shown(front, show), if show(x) then [x] else [], v);
      assert order == front + [x];
      assert v in order <==> v in front || v == x;
      assert x !in front;
    }
  }

  lemma {:induction false} OnceInAll(order: seq<nat>, show: nat -> bool, n: nat, v: nat)
    requires Distinct(order) && v < n
    ensures Times(Shown(order, show) + Filtered(0, n, Tail(order, show)), v) == if show(v) then 1 else 0
  {
    ShownTimes(order, show, v);
    FilteredTimes(0, n, Tail(order, show), v);
    TimesJoin(Shown(order, show), Filtered(0, n, Tail(order, show)), v);
  }

  // ---------- what the order means ----------

  /** A dependency that both ends of the main phase respect: the dependency is shown first. */
  lemma {:induction false} DependencyFirst(s: Successors, order: seq<nat>, show: nat -> bool, u: nat, v: nat)
    requires Topological(s, order) && v in order && Arc(s, u, v) && show(u) && show(v)
    ensures exists j, k :: 0 <= j < k < |Shown(order, show)| && Shown(order, show)[j] == u && Shown(order, show)[k] == v
    decreases |order|
  {
    var front, x := order[..|order| - 1], order[|order| - 1];
    TopologicalFront(s, order);
    if v in front {
      DependencyFirst(s, front, show, u, v);
      var j, k :| 0 <= j < k < |Shown(front, show)| && Shown(front, show)[j] == u && Shown(front, show)[k] == v;
      assert Shown(order, show)[j] == u && Shown(order, show)[k] == v;
    } else {
      assert order == front + [x] && v == x;
      assert Arc(s, u, order[|order| - 1]);
      var i :| 0 <= i < |order| - 1 && order[i] == u;
      assert front[i] == u;
      ShownTimes(front, show, u);
      TimesZero(Shown(front, show), u);
      var j :| 0 <= j < |Shown(front, show)| && Shown(front, show)[j] == u;
      assert Shown(order, show)[j] == u && Shown(order, show)[|Shown(front, show)|] == v;
    }
  }

  lemma {:induction false} TopologicalFront(s: Successors, order: seq<nat>)
    requires Topological(s, order) && order != []
    ensures Topological(s, order[..|order| - 1])
  {
    var front := order[..|order| - 1];
    forall k, u: nat | 0 <= k < |front| && Arc(s, u, front[k])
      ensures exists j :: 0 <= j < k && front[j] == u
    {
      var j :| 0 <= j < k && order[j] == u;
      assert front[j] == u;
    }
  }

  /** The first place where two sequences differ has the smaller element in the first. */
  ghost predicate Precedes(a: seq<nat>, b: seq<nat>)
  {
    a == b || exists k :: 0 <= k < |a| && k < |b| && a[..k] == b[..k] && a[k] < b[k]
  }

  /** Among all orders of the same nodes that respect the dependencies, the main phase takes the
      lexicographically least. */
  lemma {:induction false} LeastIsFirst(s: Successors, order: seq<nat>, other: seq<nat>)
    requires Topological(s, order) && LeastOrder(s, order) && forall v :: v in order ==> v < |s|
    requires Topological(s, other) && Members(other) == Members(order)
    ensures Precedes(order, other)
  {
    MembersSize(order);
    MembersSize(other);
    var k := 0;
    while k < |order| && order[k] == other[k]
      invariant 0 <= k <= |order| && order[..k] == other[..k]
    {
      k := k + 1;
    }
    if k == |order| {
      assert order[..k] == order && other[..k] == other;
    } else {
      assert other[k] in Members(other);
      ChosenLeast(s, order, k);
      OtherIsFree(s, other, k);
      assert order[k] <= other[k];
    }
  }

  lemma {:induction false} ChosenLeast(s: Successors, order: seq<nat>, k: nat)
    requires LeastOrder(s, order) && k < |order|
    ensures LeastChoice(s, Members(order[..k]), order[k])
    decreases |order|
  {
    if k < |order| - 1 {
      var front := order[..|order| - 1];
      ChosenLeast(s, front, k);
      assert front[..k] == order[..k];
    }
  }

  lemma {:induction false} OtherIsFree(s: Successors, other: seq<nat>, k: nat)
    requires Topological(s, other) && k < |other| && other[k] < |s|
    ensures Free(s, Members(other[..k]), other[k])
  {
    var done := Members(other[..k]);
    forall u: nat | Arc(s, u, other[k])
      ensures u in done
    {
      var j :| 0 <= j < k && other[j] == u;
      assert other[..k][j] == u;
    }
    PendingZero(s, done, other[k]);
  }
}
