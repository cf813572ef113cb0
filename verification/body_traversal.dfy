/**
 Walking the nodes of one graph body in dependency order: the caches, and the iterator that replays them.
 Forward and backward walks are one scan, read in opposite directions.
 */
module BodyTraversal {
  import opened Peeling
  import opened Options

  /** The nodes in the order of the scan. `near` holds the ends of a node's edges that the walk leads to:
      its sinks (forward) or its drivers (backward). A cut node takes part in no dependency. */
  datatype Scan = Scan(alive: seq<bool>, cut: seq<bool>, near: seq<seq<nat>>)

  /** Edges join live nodes only. */
  predicate ScanFits(c: Scan)
  {
    |c.cut| == |c.alive| && |c.near| == |c.alive|
    && forall u, k :: 0 <= u < |c.near| && 0 <= k < |c.near[u]| ==> c.near[u][k] < |c.alive| && c.alive[u] && c.alive[c.near[u][k]]
  }

  /** The edges that order the walk. */
  function Uncut(c: Scan, l: seq<nat>): seq<nat>
  {
    if l == [] then [] else (if l[0] < |c.cut| && c.cut[l[0]] then [] else [l[0]]) + Uncut(c, l[1..])
  }

  lemma {:induction false} UncutHas(c: Scan, l: seq<nat>, v: nat)
    ensures v in Uncut(c, l) <==> v in l && !(v < |c.cut| && c.cut[v])
  {
    if l != [] {
      UncutHas(c, l[1..], v);
      assert l == [l[0]] + l[1..];
    }
  }

  function ArcsOf(c: Scan, u: nat): seq<nat>
  {
    if u >= |c.near| || (u < |c.cut| && c.cut[u]) then [] else Uncut(c, c.near[u])
  }

  function Arcs(c: Scan): (s: Successors)
    ensures |s| == |c.alive|
  {
    seq(|c.alive|, (u: nat) => ArcsOf(c, u))
  }

  lemma {:induction false} ArcIs(c: Scan, u: nat, v: nat)
    requires ScanFits(c)
    ensures Arc(Arcs(c), u, v) <==> u < |c.alive| && v in c.near[u] && !c.cut[u] && v < |c.alive| && !c.cut[v]
    ensures Arc(Arcs(c), u, v) ==> c.alive[u] && c.alive[v]
  {
    if u < |c.alive| {
      UncutHas(c, c.near[u], v);
    }
    if u < |c.alive| && v in c.near[u] {
      var k :| 0 <= k < |c.near[u]| && c.near[u][k] == v;
      assert v < |c.alive|;
    }
  }

  /** The condition on a node of the first pass: everything it waits for lies before it in the scan, and is
      in the first pass too. */
  ghost predicate EarlyAt(c: Scan, early: set<nat>, p: nat)
    requires ScanFits(c)
  {
    p < |c.alive| && c.alive[p] && forall u: nat :: Arc(Arcs(c), u, p) ==> u < p && u in early
  }

  ghost predicate IsEarly(c: Scan, early: set<nat>)
    requires ScanFits(c)
  {
    forall p: nat {:trigger EarlyAt(c, early, p)} :: p in early <==> EarlyAt(c, early, p)
  }

  /** There is only one such set. */
  lemma {:induction false} EarlyIsUnique(c: Scan, a: set<nat>, b: set<nat>, p: nat)
    requires ScanFits(c) && IsEarly(c, a) && IsEarly(c, b)
    ensures p in a <==> p in b
  {
    forall u: nat | u < p
      ensures u in a <==> u in b
    {
      EarlyIsUnique(c, a, b, u);
    }
    assert p in a <==> EarlyAt(c, a, p);
    assert p in b <==> EarlyAt(c, b, p);
  }

  function Within(l: set<nat>): nat -> bool
  {
    (p: nat) => p in l
  }

  /** The first pass, ascending, and then the second. */
  function OrderOf(c: Scan, early: set<nat>, deferred: seq<nat>): seq<nat>
  {
    Filtered(0, |c.alive|, Within(early)) + deferred
  }

  /** The nodes that the second pass adds: they complete the first pass to an order of all acyclic nodes. */
  ghost predicate Completes(c: Scan, early: set<nat>, deferred: seq<nat>)
    requires ScanFits(c)
  {
    IsEarly(c, early) && Topological(Arcs(c), OrderOf(c, early, deferred))
    && (forall v :: v in OrderOf(c, early, deferred) ==> v < |c.alive| && c.alive[v])
    && forall v: nat :: v < |c.alive| && c.alive[v] ==> (v !in OrderOf(c, early, deferred) <==> Cyclic(Arcs(c), v))
  }

  // ---------- counting what each node waits for ----------

  ghost predicate Counts(s: Successors, work: seq<nat>, done: set<nat>)
  {
    |work| == |s| && forall v: nat :: v < |s| && v !in done ==> work[v] == Pending(s, done, v)
  }

  /** The sum over the first u nodes. */
  ghost predicate CountedTo(c: Scan, work: seq<nat>, u: nat)
    requires u <= |c.alive|
  {
    |work| == |c.alive| && forall v: nat :: v < |c.alive| ==> work[v] == PendingFrom(Arcs(c), {}, v, u)
  }

  /** The sum over the first u nodes and the first edges of node u. */
  ghost predicate CountedUpTo(c: Scan, work: seq<nat>, u: nat, part: seq<nat>)
    requires u <= |c.alive|
  {
    |work| == |c.alive|
    && forall v: nat :: v < |c.alive| ==> work[v] == PendingFrom(Arcs(c), {}, v, u) + Times(part, v)
  }

  method CountNode(c: Scan, u: nat, work0: seq<nat>) returns (work: seq<nat>)
    requires ScanFits(c) && u < |c.alive| && CountedTo(c, work0, u)
    ensures CountedTo(c, work, u + 1)
  {
    work := work0;
    ghost var part: seq<nat> := [];
    if !c.alive[u] || c.cut[u] {
      assert !c.alive[u] ==> c.near[u] == [];
      assert Arcs(c)[u] == [];
    } else {
      ghost var left := c.near[u];
      for k := 0 to |c.near[u]|
        invariant left == c.near[u][k..] && part + Uncut(c, left) == Arcs(c)[u]
        invariant CountedUpTo(c, work, u, part)
      {
        var v := c.near[u][k];
        assert left[0] == v;
        if !c.cut[v] {
          work := CountOne(c, u, work, part, v);
          assert part + ([v] + Uncut(c, left[1..])) == part + [v] + Uncut(c, left[1..]);
          part := part + [v];
        } else {
          assert [] + Uncut(c, left[1..]) == Uncut(c, left[1..]);
        }
        left := left[1..];
      }
      assert part + [] == part;
    }
    assert CountedUpTo(c, work, u, Arcs(c)[u]);
  }

  method CountOne(c: Scan, u: nat, work0: seq<nat>, ghost part: seq<nat>, v: nat) returns (work: seq<nat>)
    requires ScanFits(c) && u < |c.alive| && CountedUpTo(c, work0, u, part) && v < |c.alive|
    ensures CountedUpTo(c, work, u, part + [v])
  {
    work := work0[v := work0[v] + 1];
    forall x: nat | x < |c.alive|
      ensures work[x] == PendingFrom(Arcs(c), {}, x, u) + Times(part + [v], x)
    {
      TimesJoin(part, [v], x);
      assert Times([v], x) == if x == v then 1 else 0;
    }
  }

  /** How many edges each node waits for at the start. */
  method CountAll(c: Scan) returns (work: seq<nat>)
    requires ScanFits(c)
    ensures Counts(Arcs(c), work, {})
  {
    work := seq(|c.alive|, _ => 0);
    for u := 0 to |c.alive|
      invariant CountedTo(c, work, u)
    {
      work := CountNode(c, u, work);
    }
  }

  // ---------- the dry run ----------

  /** The state of the dry run: what was emitted, and the queue of nodes that became free behind the scan. */
  ghost predicate Running(c: Scan, order: seq<nat>, work: seq<nat>, emitted: seq<bool>)
    requires ScanFits(c)
  {
    Topological(Arcs(c), order) && (forall v :: v in order ==> v < |c.alive| && c.alive[v])
    && |emitted| == |c.alive| && (forall v: nat :: v < |c.alive| ==> (emitted[v] <==> v in order))
    && Counts(Arcs(c), work, Members(order))
  }

  ghost predicate Queued(pass2: seq<nat>, head: nat, v: nat)
  {
    exists k :: head <= k < |pass2| && pass2[k] == v
  }

  /** The queue holds, once each, the live nodes before the bound that wait for nothing more. */
  ghost predicate Waiting(c: Scan, order: seq<nat>, work: seq<nat>, pass2: seq<nat>, head: nat, bound: nat)
    requires ScanFits(c) && |work| == |c.alive| && bound <= |c.alive|
  {
    head <= |pass2| && Distinct(pass2) && (forall k :: 0 <= k < |pass2| ==> pass2[k] < |c.alive|)
    && (forall k :: 0 <= k < head ==> pass2[k] in order)
    && forall v: nat :: Queued(pass2, head, v) <==> v < bound && c.alive[v] && v !in order && work[v] == 0
  }

  /** Takes the edges of an emitted node out of the counts, and queues who becomes free up to the cursor. */
  method Propagate(c: Scan, u: nat, cursor: nat, work0: seq<nat>, emitted: seq<bool>, pass20: seq<nat>, ghost order: seq<nat>, ghost head: nat)
    returns (work: seq<nat>, pass2: seq<nat>)
    requires ScanFits(c) && u < |c.alive| && c.alive[u] && u !in order && cursor < |c.alive|
    requires Topological(Arcs(c), order) && (forall x :: x in order ==> x < |c.alive| && c.alive[x])
    requires Counts(Arcs(c), work0, Members(order)) && work0[u] == 0
    requires |emitted| == |c.alive| && forall v: nat :: v < |c.alive| ==> (emitted[v] <==> v in order + [u])
    requires Waiting(c, order + [u], work0, pass20, head, cursor + 1)
    ensures Running(c, order + [u], work, emitted)
    ensures Waiting(c, order + [u], work, pass2, head, cursor + 1) && pass20 <= pass2
  {
    PendingZero(Arcs(c), Members(order), u);
    TopologicalSnoc(Arcs(c), order, u);
    work, pass2 := work0, pass20;
    ghost var done := Members(order) + {u};
    forall v: nat
      ensures Pending(Arcs(c), Members(order), v) == Pending(Arcs(c), done, v) + Times(Arcs(c)[u], v)
    {
      PendingDrops(Arcs(c), Members(order), u, v);
    }
    if c.cut[u] {
      return;
    }
    ghost var left := c.near[u];
    for k := 0 to |c.near[u]|
      invariant left == c.near[u][k..] && pass20 <= pass2
      invariant Settling(c, order + [u], work, left)
      invariant Waiting(c, order + [u], work, pass2, head, cursor + 1)
    {
      assert left[0] == c.near[u][k];
      work, pass2 := PropagateOne(c, c.near[u][k], cursor, work, emitted, pass2, order + [u], head, left);
      left := left[1..];
    }
    forall v: nat
      ensures Times(Uncut(c, left), v) == 0
    {
      assert Uncut(c, left) == [];
    }
  }

  /** The edges still to be taken out of the counts. */
  ghost predicate Settling(c: Scan, order: seq<nat>, work: seq<nat>, left: seq<nat>)
    requires ScanFits(c)
  {
    |work| == |c.alive|
    && forall v: nat :: v < |c.alive| && v !in order ==> work[v] == Pending(Arcs(c), Members(order), v) + Times(Uncut(c, left), v)
  }

  method PropagateOne(c: Scan, v: nat, cursor: nat, work0: seq<nat>, emitted: seq<bool>, pass20: seq<nat>, ghost order: seq<nat>, ghost head: nat,
                      ghost left: seq<nat>)
    returns (work: seq<nat>, pass2: seq<nat>)
    requires ScanFits(c) && v < |c.alive| && c.alive[v] && cursor < |c.alive| && left != [] && left[0] == v
    requires |emitted| == |c.alive| && (emitted[v] <==> v in order)
    requires Settling(c, order, work0, left)
    requires Waiting(c, order, work0, pass20, head, cursor + 1)
    ensures Settling(c, order, work, left[1..])
    ensures Waiting(c, order, work, pass2, head, cursor + 1) && pass20 <= pass2
  {
    work, pass2 := work0, pass20;
    forall x: nat
      ensures Times(Uncut(c, left), x) == Times(Uncut(c, left[1..]), x) + if x == v && !c.cut[v] then 1 else 0
    {
      UncutStep(c, left, x);
    }
    if emitted[v] || c.cut[v] {
      return;
    }
    if work[v] == 0 {
      return;
    }
    work := work[v := work[v] - 1];
    if work[v] == 0 && v <= cursor {
      pass2 := pass2 + [v];
    }
    QueueStep(c, order, work0, work, pass20, pass2, head, cursor, v);
  }

  lemma {:induction false} UncutStep(c: Scan, l: seq<nat>, v: nat)
    requires l != []
    ensures Times(Uncut(c, l), v) == Times(Uncut(c, l[1..]), v) + if v == l[0] && !(v < |c.cut| && c.cut[v]) then 1 else 0
  {
    TimesFirst(l[0], !(l[0] < |c.cut| && c.cut[l[0]]), Uncut(c, l[1..]), v);
  }

  lemma {:induction false} QueueStep(c: Scan, order: seq<nat>, was: seq<nat>, work: seq<nat>, queue: seq<nat>, pass2: seq<nat>, head: nat, cursor: nat, v: nat)
    requires ScanFits(c) && |was| == |c.alive| && cursor < |c.alive| && v < |c.alive| && c.alive[v] && v !in order
    requires Waiting(c, order, was, queue, head, cursor + 1) && was[v] != 0 && work == was[v := was[v] - 1]
    requires pass2 == if work[v] == 0 && v <= cursor then queue + [v] else queue
    ensures Waiting(c, order, work, pass2, head, cursor + 1)
  {
    if work[v] == 0 && v <= cursor {
      forall k | 0 <= k < |queue|
        ensures queue[k] != v
      {
        assert k >= head ==> Queued(queue, head, queue[k]);
      }
      forall x: nat
        ensures Queued(pass2, head, x) <==> Queued(queue, head, x) || x == v
      {
        if Queued(queue, head, x) {
          var k :| head <= k < |queue| && queue[k] == x;
          assert pass2[k] == x;
        }
        assert pass2[|queue|] == v;
      }
    }
  }

  predicate Ascending(l: seq<nat>, upto: nat)
  {
    (forall j, k :: 0 <= j < k < |l| ==> l[j] < l[k]) && forall k :: 0 <= k < |l| ==> l[k] < upto
  }

  lemma {:induction false} AscendingIsFiltered(l: seq<nat>, n: nat, keep: nat -> bool)
    requires Ascending(l, n) && forall v: nat :: v < n ==> (keep(v) <==> v in l)
    ensures l == Filtered(0, n, keep)
  {
    if n > 0 {
      FilteredSnoc(0, n - 1, keep);
      if n - 1 in l {
        var front := l[..|l| - 1];
        assert l[|l| - 1] == n - 1;
        assert l == front + [n - 1];
        AscendingIsFiltered(front, n - 1, keep);
      } else {
        forall k | 0 <= k < |l|
          ensures l[k] < n - 1
        {
          assert l[k] in l;
        }
        AscendingIsFiltered(l, n - 1, keep);
        assert l + [] == l;
      }
    }
  }

  /** The first pass of the dry run, up to a position of the scan. */
  ghost predicate Scanned(c: Scan, order: seq<nat>, work: seq<nat>, emitted: seq<bool>, pass2: seq<nat>, p: nat)
    requires ScanFits(c)
  {
    p <= |c.alive| && Running(c, order, work, emitted) && Waiting(c, order, work, pass2, 0, p) && Ascending(order, p)
    && forall v: nat {:trigger EarlyAt(c, Members(order), v)} :: v < p ==> (v in order <==> EarlyAt(c, Members(order), v))
  }

  lemma {:induction false} FreeOfAll(c: Scan, work: seq<nat>, done: set<nat>, p: nat)
    requires ScanFits(c) && p < |c.alive| && p !in done && Counts(Arcs(c), work, done)
    ensures c.cut[p] || work[p] == 0 <==> forall u: nat :: Arc(Arcs(c), u, p) ==> u in done
  {
    PendingZero(Arcs(c), done, p);
    if c.cut[p] {
      CutsAreFree(c, done, p);
    }
  }

  /** A larger set of later nodes changes nothing for the earlier ones. */
  lemma {:induction false} EarlyKeeps(c: Scan, early: set<nat>, p: nat, v: nat)
    requires ScanFits(c) && v <= p
    ensures EarlyAt(c, early + {p}, v) <==> EarlyAt(c, early, v)
  {
  }

  lemma {:induction false} CutsAreFree(c: Scan, done: set<nat>, p: nat)
    requires ScanFits(c) && p < |c.alive| && c.cut[p]
    ensures Pending(Arcs(c), done, p) == 0
  {
    PendingZero(Arcs(c), done, p);
    forall u: nat
      ensures !Arc(Arcs(c), u, p)
    {
      ArcIs(c, u, p);
    }
  }

  method ScanOne(c: Scan, p: nat, work0: seq<nat>, emitted0: seq<bool>, pass20: seq<nat>, ghost order0: seq<nat>)
    returns (work: seq<nat>, emitted: seq<bool>, pass2: seq<nat>, ghost order: seq<nat>)
    requires ScanFits(c) && p < |c.alive| && Scanned(c, order0, work0, emitted0, pass20, p)
    ensures Scanned(c, order, work, emitted, pass2, p + 1)
  {
    work, emitted, pass2, order := work0, emitted0, pass20, order0;
    assert p !in order;
    if !c.alive[p] || emitted[p] {
      SkipNode(c, order, work, emitted, pass2, p);
      return;
    }
    FreeOfAll(c, work, Members(order), p);
    if c.cut[p] || work[p] == 0 {
      FreeNode(c, order, work, p);
      emitted := emitted[p := true];
      BoundMoves(c, order, work, pass2, p);
      work, pass2 := Propagate(c, p, p, work, emitted, pass2, order, 0);
      EmitEarly(c, order, p);
      order := order + [p];
    } else {
      SkipNode(c, order, work, emitted, pass2, p);
    }
  }

  lemma {:induction false} FreeNode(c: Scan, order: seq<nat>, work: seq<nat>, p: nat)
    requires ScanFits(c) && p < |c.alive| && p !in order && Counts(Arcs(c), work, Members(order)) && (c.cut[p] || work[p] == 0)
    ensures work[p] == 0
  {
    if c.cut[p] {
      CutsAreFree(c, Members(order), p);
    }
  }

  lemma {:induction false} BoundMoves(c: Scan, order: seq<nat>, work: seq<nat>, pass2: seq<nat>, p: nat)
    requires ScanFits(c) && |work| == |c.alive| && p < |c.alive| && Waiting(c, order, work, pass2, 0, p)
    ensures Waiting(c, order + [p], work, pass2, 0, p + 1)
  {
  }

  lemma {:induction false} SkipNode(c: Scan, order: seq<nat>, work: seq<nat>, emitted: seq<bool>, pass2: seq<nat>, p: nat)
    requires ScanFits(c) && p < |c.alive| && Scanned(c, order, work, emitted, pass2, p)
    requires c.alive[p] ==> work[p] != 0 && exists u: nat :: Arc(Arcs(c), u, p) && u !in Members(order)
    ensures Scanned(c, order, work, emitted, pass2, p + 1)
  {
    assert !EarlyAt(c, Members(order), p);
    assert p !in order;
  }

  lemma {:induction false} EmitEarly(c: Scan, order: seq<nat>, p: nat)
    requires ScanFits(c) && p < |c.alive| && c.alive[p] && Ascending(order, p)
    requires forall v: nat {:trigger EarlyAt(c, Members(order), v)} :: v < p ==> (v in order <==> EarlyAt(c, Members(order), v))
    requires forall u: nat :: Arc(Arcs(c), u, p) ==> u in Members(order)
    ensures Ascending(order + [p], p + 1)
    ensures forall v: nat {:trigger EarlyAt(c, Members(order + [p]), v)} :: v < p + 1 ==> (v in order + [p] <==> EarlyAt(c, Members(order + [p]), v))
  {
    assert Members(order + [p]) == Members(order) + {p};
    forall v: nat | v < p + 1
      ensures v in order + [p] <==> EarlyAt(c, Members(order) + {p}, v)
    {
      EarlyKeeps(c, Members(order), p, v);
      assert v < p ==> (v in order <==> EarlyAt(c, Members(order), v));
      assert forall u: nat :: u in Members(order) ==> u < p;
    }
  }

  method FirstPass(c: Scan, work0: seq<nat>) returns (work: seq<nat>, emitted: seq<bool>, pass2: seq<nat>, ghost order: seq<nat>)
    requires ScanFits(c) && Counts(Arcs(c), work0, {})
    ensures Scanned(c, order, work, emitted, pass2, |c.alive|)
  {
    work, emitted, pass2, order := work0, seq(|c.alive|, _ => false), [], [];
    assert Members([]) == {};
    for p := 0 to |c.alive|
      invariant Scanned(c, order, work, emitted, pass2, p)
    {
      work, emitted, pass2, order := ScanOne(c, p, work, emitted, pass2, order);
    }
  }

  /** Builds the list of the second pass. */
  method DryRun(c: Scan, remaining: seq<nat>) returns (pass2: seq<nat>, ghost early: set<nat>)
    requires ScanFits(c) && Counts(Arcs(c), remaining, {})
    ensures Completes(c, early, pass2)
  {
    var work, emitted, list;
    ghost var order;
    work, emitted, list, order := FirstPass(c, remaining);
    pass2 := list;
    ghost var first := order;
    early := Members(order);
    FirstPassIsEarly(c, order);
    var head := 0;
    while head < |pass2|
      invariant head <= |pass2| && Running(c, order, work, emitted) && Waiting(c, order, work, pass2, head, |c.alive|)
      invariant order == first + pass2[..head]
      decreases |c.alive| - head
    {
      ghost var queue := pass2;
      work, emitted, pass2, order := EmitQueued(c, work, emitted, pass2, head, order);
      head := head + 1;
      PrefixGrows(queue, pass2, head - 1);
    }
    assert pass2[..head] == pass2;
    QueueDrained(c, order, work, emitted, pass2, early);
  }

  /** Emits the node at the head of the queue. */
  method EmitQueued(c: Scan, work0: seq<nat>, emitted0: seq<bool>, pass20: seq<nat>, head: nat, ghost order0: seq<nat>)
    returns (work: seq<nat>, emitted: seq<bool>, pass2: seq<nat>, ghost order: seq<nat>)
    requires ScanFits(c) && head < |pass20| && Running(c, order0, work0, emitted0) && Waiting(c, order0, work0, pass20, head, |c.alive|)
    ensures Running(c, order, work, emitted) && Waiting(c, order, work, pass2, head + 1, |c.alive|)
    ensures order == order0 + [pass20[head]] && pass20 <= pass2 && head < |c.alive|
  {
    var u := pass20[head];
    assert Queued(pass20, head, u);
    emitted := emitted0[u := true];
    NextInQueue(c, order0, work0, pass20, head);
    work, pass2 := Propagate(c, u, |c.alive| - 1, work0, emitted, pass20, order0, head + 1);
    order := order0 + [u];
    DistinctBounded(pass2, |c.alive|);
  }

  lemma {:induction false} PrefixGrows(a: seq<nat>, b: seq<nat>, i: nat)
    requires a <= b && i < |a|
    ensures b[..i + 1] == a[..i] + [a[i]]
  {
  }

  lemma {:induction false} FirstPassIsEarly(c: Scan, order: seq<nat>)
    requires ScanFits(c) && Ascending(order, |c.alive|)
    requires forall v: nat {:trigger EarlyAt(c, Members(order), v)} :: v < |c.alive| ==> (v in order <==> EarlyAt(c, Members(order), v))
    ensures IsEarly(c, Members(order)) && order == Filtered(0, |c.alive|, Within(Members(order)))
  {
    AscendingIsFiltered(order, |c.alive|, Within(Members(order)));
    forall v: nat
      ensures v in Members(order) <==> EarlyAt(c, Members(order), v)
    {
      assert v < |c.alive| ==> (v in order <==> EarlyAt(c, Members(order), v));
    }
  }

  /** Moving the head of the queue into the order. */
  lemma {:induction false} NextInQueue(c: Scan, order: seq<nat>, work: seq<nat>, pass2: seq<nat>, head: nat)
    requires ScanFits(c) && |work| == |c.alive| && Waiting(c, order, work, pass2, head, |c.alive|) && head < |pass2|
    ensures Waiting(c, order + [pass2[head]], work, pass2, head + 1, |c.alive|)
  {
    forall v: nat
      ensures Queued(pass2, head + 1, v) <==> Queued(pass2, head, v) && v != pass2[head]
    {
      if Queued(pass2, head, v) && v != pass2[head] {
        var k :| head <= k < |pass2| && pass2[k] == v;
        assert head + 1 <= k;
      }
    }
  }

  lemma {:induction false} QueueDrained(c: Scan, order: seq<nat>, work: seq<nat>, emitted: seq<bool>, pass2: seq<nat>, early: set<nat>)
    requires ScanFits(c) && Running(c, order, work, emitted) && Waiting(c, order, work, pass2, |pass2|, |c.alive|)
    requires order == OrderOf(c, early, pass2) && IsEarly(c, early)
    ensures Completes(c, early, pass2)
  {
    BelowHas(|c.alive|);
    var nodes := set v: nat | v in Below(|c.alive|) && c.alive[v];
    forall v: nat | v in nodes && v !in order
      ensures Pending(Arcs(c), Members(order), v) > 0
    {
      assert !Queued(pass2, |pass2|, v);
    }
    forall u: nat, v: nat | Arc(Arcs(c), u, v)
      ensures u in nodes
    {
      ArcIs(c, u, v);
    }
    LeftIsCyclic(Arcs(c), nodes, order);
  }

  // ---------- the caches ----------

  /** What a graph keeps between walks of an unchanged body. */
  class TraversalCache {
    var valid: bool
    var remaining: seq<nat>
    var pass2: seq<nat>
    ghost var early: set<nat>

    ghost predicate Built(c: Scan)
      reads this
      requires ScanFits(c)
    {
      valid && Counts(Arcs(c), remaining, {}) && Completes(c, early, pass2)
    }

    constructor ()
      ensures !valid && fresh(this)
    {
      valid, remaining, pass2, early := false, [], [], {};
    }

    method Ensure(c: Scan)
      requires ScanFits(c) && (valid ==> Built(c))
      modifies this
      ensures Built(c)
    {
      if !valid {
        remaining := CountAll(c);
        pass2, early := DryRun(c, remaining);
        valid := true;
      }
    }
  }

  // ---------- the iterator ----------

  datatype Phase = Pass1 | Pass2 | Tail | LoopLast | End

  function Rank(phase: Phase): nat
  {
    match phase
    case Pass1 => 4
    case Pass2 => 3
    case Tail => 2
    case LoopLast => 1
    case End => 0
  }

  /** Shown by the first pass. */
  ghost function ShownEarly(c: Scan, early: set<nat>, first: bool): nat -> bool
  {
    (p: nat) => p in early && (!(p < |c.cut| && c.cut[p]) || first)
  }

  /** Left over by both passes. */
  ghost function Late(c: Scan, early: set<nat>, deferred: seq<nat>): nat -> bool
  {
    (p: nat) => p < |c.alive| && c.alive[p] && p !in early && p !in deferred
  }

  function LiveCuts(c: Scan): nat -> bool
  {
    (p: nat) => p < |c.alive| && p < |c.cut| && c.alive[p] && c.cut[p]
  }

  ghost function CutsFrom(c: Scan, p: nat, last: bool): seq<nat>
    requires p <= |c.alive|
  {
    if last then Filtered(p, |c.alive|, LiveCuts(c)) else []
  }

  ghost function TailFrom(c: Scan, early: set<nat>, deferred: seq<nat>, p: nat, last: bool): seq<nat>
    requires p <= |c.alive|
  {
    Filtered(p, |c.alive|, Late(c, early, deferred)) + CutsFrom(c, 0, last)
  }

  ghost function DeferredFrom(c: Scan, early: set<nat>, deferred: seq<nat>, head: nat, last: bool): seq<nat>
    requires head <= |deferred|
  {
    deferred[head..] + TailFrom(c, early, deferred, 0, last)
  }

  /** The whole walk: the first pass, the second, what is left over, and the cut nodes if they come last. */
  ghost function WalkFrom(c: Scan, early: set<nat>, deferred: seq<nat>, p: nat, first: bool, last: bool): seq<nat>
    requires p <= |c.alive|
  {
    Filtered(p, |c.alive|, ShownEarly(c, early, first)) + DeferredFrom(c, early, deferred, 0, last)
  }

  ghost function EarlyBefore(early: set<nat>, p: nat): set<nat>
  {
    set x | x in early && x < p
  }

  ghost predicate InPass1(c: Scan, early: set<nat>, work: seq<nat>, emitted: seq<bool>, p: nat)
    requires ScanFits(c)
  {
    p <= |c.alive| && |emitted| == |c.alive|
    && (forall v: nat :: v < |c.alive| ==> (emitted[v] <==> v < p && v in early))
    && Counts(Arcs(c), work, EarlyBefore(early, p))
  }

  ghost predicate InPass2(c: Scan, early: set<nat>, deferred: seq<nat>, emitted: seq<bool>, head: nat)
  {
    head <= |deferred| && |emitted| == |c.alive|
    && forall v: nat :: v < |c.alive| ==> (emitted[v] <==> v in early || exists k :: 0 <= k < head && deferred[k] == v)
  }

  ghost predicate InTail(c: Scan, early: set<nat>, deferred: seq<nat>, emitted: seq<bool>, p: nat)
  {
    p <= |c.alive| && |emitted| == |c.alive|
    && forall v: nat :: v < |c.alive| ==> (emitted[v] <==> v in early || v in deferred || (v < p && c.alive[v]))
  }

  /** Takes the edges of an emitted node out of the counts. */
  method DropEdges(c: Scan, u: nat, work0: seq<nat>, emitted: seq<bool>, ghost early: set<nat>) returns (work: seq<nat>)
    requires ScanFits(c) && u < |c.alive| && u in early
    requires |emitted| == |c.alive| && forall v: nat :: v < |c.alive| ==> (emitted[v] <==> v <= u && v in early)
    requires Counts(Arcs(c), work0, EarlyBefore(early, u))
    ensures Counts(Arcs(c), work, EarlyBefore(early, u + 1))
  {
    work := work0;
    ghost var before, done := EarlyBefore(early, u), EarlyBefore(early, u + 1);
    assert done == before + {u};
    forall v: nat
      ensures Pending(Arcs(c), before, v) == Pending(Arcs(c), done, v) + Times(Arcs(c)[u], v)
    {
      PendingDrops(Arcs(c), before, u, v);
    }
    if c.cut[u] {
      return;
    }
    ghost var left := c.near[u];
    for k := 0 to |c.near[u]|
      invariant left == c.near[u][k..] && |work| == |c.alive|
      invariant forall v: nat :: v < |c.alive| && v !in done ==> work[v] == Pending(Arcs(c), done, v) + Times(Uncut(c, left), v)
    {
      var v := c.near[u][k];
      assert left[0] == v;
      forall x: nat
        ensures Times(Uncut(c, left), x) == Times(Uncut(c, left[1..]), x) + if x == v && !c.cut[v] then 1 else 0
      {
        UncutStep(c, left, x);
      }
      left := left[1..];
      if !emitted[v] && !c.cut[v] && work[v] != 0 {
        work := work[v := work[v] - 1];
      }
    }
    assert Uncut(c, left) == [];
  }

  /** The entries of the second pass are live, and neither early nor repeated. */
  ghost predicate DeferredOnce(c: Scan, early: set<nat>, deferred: seq<nat>)
  {
    Distinct(deferred)
    && forall k :: 0 <= k < |deferred| ==> deferred[k] < |c.alive| && c.alive[deferred[k]] && deferred[k] !in early
  }

  class BodyIterator {
    const scan: Scan
    const deferred: seq<nat>
    const first: bool
    const last: bool
    ghost const early: set<nat>
    var phase: Phase
    var work: seq<nat>
    var emitted: seq<bool>
    var idx: nat
    var head: nat
    var current: Option<nat>

    ghost predicate Valid()
      reads this
    {
      ScanFits(scan) && IsEarly(scan, early) && DeferredOnce(scan, early, deferred)
      && match phase
         case Pass1 => InPass1(scan, early, work, emitted, idx)
         case Pass2 => InPass2(scan, early, deferred, emitted, head)
         case Tail => InTail(scan, early, deferred, emitted, idx)
         case LoopLast => idx <= |scan.alive| && last
         case End => true
    }

    /** What is still to come after the current node. */
    ghost function Remaining(): seq<nat>
      reads this
      requires Valid()
    {
      match phase
      case Pass1 => WalkFrom(scan, early, deferred, idx, first, last)
      case Pass2 => DeferredFrom(scan, early, deferred, head, last)
      case Tail => TailFrom(scan, early, deferred, idx, last)
      case LoopLast => CutsFrom(scan, idx, last)
      case End => []
    }

    /** The state after a step when `todo` was to come. */
    ghost predicate Yields(todo: seq<nat>)
      reads this
      requires Valid()
    {
      if todo == [] then phase == End && current == None
      else current == Some(todo[0]) && Remaining() == todo[1..]
    }

    constructor (c: Scan, cache: TraversalCache, loopFirst: bool, loopLast: bool)
      requires ScanFits(c) && (cache.valid ==> cache.Built(c))
      modifies cache
      ensures Valid() && fresh(this) && scan == c && first == loopFirst && last == loopLast
      ensures cache.Built(c) && deferred == cache.pass2 && early == cache.early
      ensures Yields(WalkFrom(c, cache.early, cache.pass2, 0, loopFirst, loopLast))
    {
      cache.Ensure(c);
      scan, deferred, first, last, early := c, cache.pass2, loopFirst, loopLast, cache.early;
      phase, work, emitted, idx, head, current := Pass1, cache.remaining, seq(|c.alive|, _ => false), 0, 0, None;
      new;
      CompletesOnce(c, early, deferred);
      assert EarlyBefore(early, 0) == {};
      Advance();
    }

    method Advance()
      requires Valid()
      modifies this
      ensures Valid() && Yields(old(Remaining()))
    {
      current := None;
      ghost var todo := Remaining();
      while phase != End && current == None
        invariant Valid()
        invariant current == None ==> Remaining() == todo
        invariant current != None ==> todo != [] && current == Some(todo[0]) && Remaining() == todo[1..]
        decreases current == None, Rank(phase), Left()
      {
        match phase {
          case Pass1 => StepPass1();
          case Pass2 => StepPass2();
          case Tail => StepTail();
          case LoopLast => StepCuts();
        }
      }
    }

    /** How many rounds the phase can still take. */
    ghost function Left(): nat
      reads this
      requires Valid()
    {
      match phase
      case Pass2 => |deferred| - head
      case End => 0
      case _ => |scan.alive| - idx
    }

    /** What a round does: it yields the next node, or brings the walk nearer to its end. */
    twostate predicate Rounds()
      reads this
      requires old(Valid()) && Valid()
    {
      if current == None then
        Remaining() == old(Remaining())
        && (Rank(phase) < Rank(old(phase)) || (Rank(phase) == Rank(old(phase)) && Left() < old(Left())))
      else old(Remaining()) != [] && current == Some(old(Remaining())[0]) && Remaining() == old(Remaining())[1..]
    }

    method StepPass1()
      requires Valid() && phase == Pass1 && current == None
      modifies this
      ensures Valid() && Rounds()
    {
      if idx == |scan.alive| {
        phase, head := Pass2, 0;
        NoneShown(idx, ShownEarly(scan, early, first), DeferredFrom(scan, early, deferred, 0, last));
        return;
      }
      var i := idx;
      NextShown(i, |scan.alive|, ShownEarly(scan, early, first), DeferredFrom(scan, early, deferred, 0, last));
      var emits := TakeEarly();
      if emits && (!scan.cut[i] || first) {
        current := Some(i);
      }
    }

    /** Emits the node at the scan if it is free. */
    method TakeEarly() returns (emits: bool)
      requires Valid() && phase == Pass1 && idx < |scan.alive|
      modifies this`idx, this`emitted, this`work
      ensures Valid() && idx == old(idx) + 1 && (emits <==> old(idx) in early)
    {
      var i := idx;
      idx := idx + 1;
      if !scan.alive[i] || emitted[i] {
        DeadIsLate(scan, early, i);
        return false;
      }
      FreeIsEarly(scan, early, work, i);
      emits := scan.cut[i] || work[i] == 0;
      if emits {
        emitted := emitted[i := true];
        work := DropEdges(scan, i, work, emitted, early);
      }
    }

    method StepPass2()
      requires Valid() && phase == Pass2 && current == None
      modifies this
      ensures Valid() && Rounds()
    {
      if head == |deferred| {
        phase, idx := Tail, 0;
        NoneDeferred(deferred, TailFrom(scan, early, deferred, 0, last));
        return;
      }
      var i := deferred[head];
      head := head + 1;
      if i >= |scan.alive| || emitted[i] || !scan.alive[i] {
        assert false;
      }
      emitted := emitted[i := true];
      current := Some(i);
      NextDeferred(deferred, head - 1, TailFrom(scan, early, deferred, 0, last));
    }

    method StepTail()
      requires Valid() && phase == Tail && current == None
      modifies this
      ensures Valid() && Rounds()
    {
      if idx == |scan.alive| {
        phase, idx := if last then LoopLast else End, 0;
        NoneShown(idx, Late(scan, early, deferred), CutsFrom(scan, 0, last));
        return;
      }
      var i := idx;
      idx := idx + 1;
      NextShown(i, |scan.alive|, Late(scan, early, deferred), CutsFrom(scan, 0, last));
      if !scan.alive[i] || emitted[i] {
        return;
      }
      emitted := emitted[i := true];
      current := Some(i);
    }

    method StepCuts()
      requires Valid() && phase == LoopLast && current == None
      modifies this
      ensures Valid() && Rounds()
    {
      if idx == |scan.alive| {
        phase := End;
        return;
      }
      var i := idx;
      idx := idx + 1;
      NextShown(i, |scan.alive|, LiveCuts(scan), []);
      if !scan.alive[i] || !scan.cut[i] {
        return;
      }
      current := Some(i);
    }
  }

  lemma {:induction false} NoneShown(n: nat, keep: nat -> bool, after: seq<nat>)
    ensures Filtered(n, n, keep) == [] && Filtered(n, n, keep) + after == after
  {
  }

  lemma {:induction false} NoneDeferred(deferred: seq<nat>, after: seq<nat>)
    ensures deferred[|deferred|..] + after == after
  {
  }

  lemma {:induction false} NextDeferred(deferred: seq<nat>, head: nat, after: seq<nat>)
    requires head < |deferred|
    ensures deferred[head..] + after == [deferred[head]] + (deferred[head + 1..] + after)
  {
  }

  lemma {:induction false} NextShown(i: nat, n: nat, keep: nat -> bool, after: seq<nat>)
    requires i < n
    ensures keep(i) ==> Filtered(i, n, keep) + after == [i] + (Filtered(i + 1, n, keep) + after)
    ensures !keep(i) ==> Filtered(i, n, keep) == Filtered(i + 1, n, keep)
    ensures keep(i) ==> Filtered(i, n, keep) == [i] + Filtered(i + 1, n, keep)
  {
  }

  lemma {:induction false} FreeIsEarly(c: Scan, early: set<nat>, work: seq<nat>, p: nat)
    requires ScanFits(c) && IsEarly(c, early) && p < |c.alive| && c.alive[p] && Counts(Arcs(c), work, EarlyBefore(early, p))
    ensures c.cut[p] || work[p] == 0 <==> p in early
    ensures p !in early ==> EarlyBefore(early, p + 1) == EarlyBefore(early, p)
  {
    FreeOfAll(c, work, EarlyBefore(early, p), p);
    WaitsForEarly(c, early, p);
  }

  lemma {:induction false} WaitsForEarly(c: Scan, early: set<nat>, p: nat)
    requires ScanFits(c) && IsEarly(c, early) && p < |c.alive| && c.alive[p]
    ensures p in early <==> forall u: nat :: Arc(Arcs(c), u, p) ==> u in EarlyBefore(early, p)
  {
    assert p in early <==> EarlyAt(c, early, p);
  }

  lemma {:induction false} DeadIsLate(c: Scan, early: set<nat>, p: nat)
    requires ScanFits(c) && IsEarly(c, early) && p < |c.alive| && !c.alive[p]
    ensures p !in early && EarlyBefore(early, p + 1) == EarlyBefore(early, p)
  {
    assert p in early <==> EarlyAt(c, early, p);
  }

  lemma {:induction false} InOrder(c: Scan, early: set<nat>, deferred: seq<nat>, v: nat)
    requires ScanFits(c) && Completes(c, early, deferred)
    ensures v in OrderOf(c, early, deferred) <==> v in early || v in deferred
    ensures v in early ==> v < |c.alive| && c.alive[v]
  {
    assert v in early <==> EarlyAt(c, early, v);
    FilteredHas(0, |c.alive|, Within(early), v);
  }

  lemma {:induction false} CompletesOnce(c: Scan, early: set<nat>, deferred: seq<nat>)
    requires ScanFits(c) && Completes(c, early, deferred)
    ensures DeferredOnce(c, early, deferred)
  {
    var head, order := Filtered(0, |c.alive|, Within(early)), OrderOf(c, early, deferred);
    assert Distinct(order);
    forall k | 0 <= k < |deferred|
      ensures deferred[k] < |c.alive| && c.alive[deferred[k]] && deferred[k] !in early
    {
      assert order[|head| + k] == deferred[k] && deferred[k] in order;
      FilteredHas(0, |c.alive|, Within(early), deferred[k]);
      assert forall i :: 0 <= i < |head| ==> order[i] == head[i] && order[i] != order[|head| + k];
    }
    forall j, k | 0 <= j < k < |deferred|
      ensures deferred[j] != deferred[k]
    {
      assert order[|head| + j] == deferred[j] && order[|head| + k] == deferred[k];
    }
  }

  // ---------- what the walk is ----------

  /** Walks the body from the caches, building them when they are missing. */
  method Walk(c: Scan, cache: TraversalCache, first: bool, last: bool) returns (all: seq<nat>)
    requires ScanFits(c) && (cache.valid ==> cache.Built(c))
    modifies cache
    ensures cache.Built(c)
    ensures all == WalkFrom(c, cache.early, cache.pass2, 0, first, last)
  {
    var it := new BodyIterator(c, cache, first, last);
    ghost var whole := WalkFrom(c, cache.early, cache.pass2, 0, first, last);
    label Ready:
    all := Drain(it, whole);
    assert unchanged@Ready(cache);
  }

  method Drain(it: BodyIterator, ghost whole: seq<nat>) returns (all: seq<nat>)
    requires it.Valid() && it.Yields(whole)
    modifies it
    ensures all == whole
  {
    all := [];
    ghost var todo := whole;
    while it.current.Some?
      invariant it.Valid() && it.Yields(todo) && whole == all + todo
      decreases |todo|
    {
      ghost var first, rest := todo[0], it.Remaining();
      all := all + [it.current.value];
      it.Advance();
      FirstAndRest(all[..|all| - 1], todo);
      todo := rest;
    }
    assert all + [] == all;
  }

  lemma {:induction false} FirstAndRest(all: seq<nat>, todo: seq<nat>)
    requires todo != []
    ensures all + todo == all + [todo[0]] + todo[1..]
  {
  }

  lemma {:induction false} CutsAreEarly(c: Scan, early: set<nat>, p: nat)
    requires ScanFits(c) && IsEarly(c, early) && p < |c.alive| && c.alive[p] && c.cut[p]
    ensures p in early
  {
    CutsAreFree(c, {}, p);
    PendingZero(Arcs(c), {}, p);
    assert EarlyAt(c, early, p);
  }

  /** A walk shows every live node once; a cut node as often as its placement says. */
  lemma {:induction false} WalkShowsOnce(c: Scan, early: set<nat>, deferred: seq<nat>, first: bool, last: bool, v: nat)
    requires ScanFits(c) && Completes(c, early, deferred) && v < |c.alive|
    ensures Times(WalkFrom(c, early, deferred, 0, first, last), v) ==
            if !c.alive[v] then 0
            else if c.cut[v] then (if first then 1 else 0) + (if last then 1 else 0) else 1
  {
    var n := |c.alive|;
    CompletesOnce(c, early, deferred);
    InOrder(c, early, deferred, v);
    var a, b, t := Filtered(0, n, ShownEarly(c, early, first)), deferred[0..], Filtered(0, n, Late(c, early, deferred));
    assert b == deferred;
    TimesJoin(a, b + (t + CutsFrom(c, 0, last)), v);
    TimesJoin(b, t + CutsFrom(c, 0, last), v);
    TimesJoin(t, CutsFrom(c, 0, last), v);
    FilteredTimes(0, n, ShownEarly(c, early, first), v);
    FilteredTimes(0, n, Late(c, early, deferred), v);
    FilteredTimes(0, n, LiveCuts(c), v);
    DistinctTimes(deferred, v);
    assert v in deferred ==> c.alive[v] && v !in early;
    if c.alive[v] && c.cut[v] {
      CutsAreEarly(c, early, v);
    }
  }

  /** What is left for the tail is what lies on a cycle of uncut nodes or downstream of one. */
  lemma {:induction false} TailIsCyclic(c: Scan, early: set<nat>, deferred: seq<nat>, v: nat)
    requires ScanFits(c) && Completes(c, early, deferred)
    ensures v in Filtered(0, |c.alive|, Late(c, early, deferred)) <==> v < |c.alive| && c.alive[v] && Cyclic(Arcs(c), v)
  {
    FilteredHas(0, |c.alive|, Late(c, early, deferred), v);
    InOrder(c, early, deferred, v);
  }

  /** u stands before v. */
  ghost predicate Precedes(all: seq<nat>, u: nat, v: nat)
  {
    exists j, k :: 0 <= j < k < |all| && all[j] == u && all[k] == v
  }

  lemma {:induction false} PrecedesAcross(a: seq<nat>, b: seq<nat>, u: nat, v: nat)
    requires (u in a && v in b) || Precedes(a, u, v) || Precedes(b, u, v)
    ensures Precedes(a + b, u, v)
  {
    var all := a + b;
    if u in a && v in b {
      var j :| 0 <= j < |a| && a[j] == u;
      var k :| 0 <= k < |b| && b[k] == v;
      assert all[j] == u && all[|a| + k] == v;
    } else if Precedes(a, u, v) {
      var j, k :| 0 <= j < k < |a| && a[j] == u && a[k] == v;
      assert all[j] == u && all[k] == v;
    } else {
      var j, k :| 0 <= j < k < |b| && b[j] == u && b[k] == v;
      assert all[|a| + j] == u && all[|a| + k] == v;
    }
  }

  lemma {:induction false} FilteredPrecedes(from: nat, upto: nat, keep: nat -> bool, u: nat, v: nat)
    requires from <= u < v < upto && keep(u) && keep(v)
    ensures Precedes(Filtered(from, upto, keep), u, v)
    decreases upto - from
  {
    var rest := Filtered(from + 1, upto, keep);
    if from < u {
      FilteredPrecedes(from + 1, upto, keep, u, v);
      PrecedesAcross(if keep(from) then [from] else [], rest, u, v);
    } else {
      FilteredHas(from + 1, upto, keep, v);
      assert u in [from];
      PrecedesAcross([from], rest, u, v);
    }
  }

  /** Both ends of an edge, unless it leads to the tail, stand in the order of the edge. */
  lemma {:induction false} WalkRespectsEdges(c: Scan, early: set<nat>, deferred: seq<nat>, first: bool, last: bool, u: nat, v: nat)
    requires ScanFits(c) && Completes(c, early, deferred) && Arc(Arcs(c), u, v) && !Cyclic(Arcs(c), v)
    ensures Precedes(WalkFrom(c, early, deferred, 0, first, last), u, v)
  {
    var n, shown := |c.alive|, ShownEarly(c, early, first);
    ArcIs(c, u, v);
    var head, rest := Filtered(0, n, shown), TailFrom(c, early, deferred, 0, last);
    EdgeWithin(c, early, deferred, u, v);
    assert deferred[0..] == deferred;
    if v in early {
      FilteredPrecedes(0, n, shown, u, v);
    } else if u in early {
      FilteredHas(0, n, shown, u);
    } else {
      PrecedesAcross(deferred, rest, u, v);
    }
    PrecedesAcross(head, DeferredFrom(c, early, deferred, 0, last), u, v);
  }

  /** Where the ends of an edge between acyclic nodes are found. */
  lemma {:induction false} EdgeWithin(c: Scan, early: set<nat>, deferred: seq<nat>, u: nat, v: nat)
    requires ScanFits(c) && Completes(c, early, deferred) && Arc(Arcs(c), u, v) && !Cyclic(Arcs(c), v)
    ensures v in early ==> u in early && u < v
    ensures v !in early ==> v in deferred && (u in early || Precedes(deferred, u, v))
  {
    ArcIs(c, u, v);
    InOrder(c, early, deferred, v);
    assert v in early <==> EarlyAt(c, early, v);
    if v !in early {
      var head := Filtered(0, |c.alive|, Within(early));
      FilteredHas(0, |c.alive|, Within(early), u);
      BehindInSecond(Arcs(c), head, deferred, u, v);
    }
  }

  /** A predecessor of a node of the second part is in the first, or before it in the second. */
  lemma {:induction false} BehindInSecond(s: Successors, head: seq<nat>, deferred: seq<nat>, u: nat, v: nat)
    requires Topological(s, head + deferred) && Arc(s, u, v) && v in deferred
    ensures u in head || Precedes(deferred, u, v)
  {
    var order := head + deferred;
    var k :| 0 <= k < |deferred| && deferred[k] == v;
    assert order[|head| + k] == v;
    var j :| 0 <= j < |head| + k && order[j] == u;
    if j < |head| {
      assert head[j] == u;
    } else {
      assert deferred[j - |head|] == u;
    }
  }

  // ---------- forward and backward ----------

  /** The first user node; those before it are built in. */
  const USER: nat := 4

  /** The node table of a body: for every node the nodes its out-edges and its in-edges lead to. */
  datatype Body = Body(alive: seq<bool>, cut: seq<bool>, loop: seq<bool>, out: seq<seq<nat>>, inn: seq<seq<nat>>)

  ghost predicate BodyFits(b: Body)
  {
    |b.cut| == |b.alive| && |b.loop| == |b.alive| && |b.out| == |b.alive| && |b.inn| == |b.alive|
    && (forall u, k :: 0 <= u < |b.out| && 0 <= k < |b.out[u]| ==> b.out[u][k] < |b.alive| && b.alive[u] && b.alive[b.out[u][k]])
    && (forall u, k :: 0 <= u < |b.inn| && 0 <= k < |b.inn[u]| ==> b.inn[u][k] < |b.alive| && b.alive[u] && b.alive[b.inn[u][k]])
    && forall u, v: nat :: 0 <= u < |b.out| && v < |b.inn| ==> (v in b.out[u] <==> u in b.inn[v])
  }

  /** An edge that orders a walk: between user nodes, that is from node 4 on, and not the carry of a compact loop. */
  predicate Orders(b: Body, u: nat, v: nat)
  {
    4 <= u < |b.out| && v in b.out[u] && 4 <= v && !(u == v && u < |b.loop| && b.loop[u])
  }

  /** The ends that a walk counts, as places of the scan. */
  function Places(l: seq<nat>, idx: nat, looped: bool, place: nat -> nat): seq<nat>
  {
    if l == [] then []
    else (if USER <= l[0] && !(l[0] == idx && looped) then [place(l[0])] else []) + Places(l[1..], idx, looped, place)
  }

  lemma {:induction false} PlacesHas(l: seq<nat>, idx: nat, looped: bool, place: nat -> nat, p: nat)
    ensures p in Places(l, idx, looped, place) <==> exists t :: t in l && USER <= t && !(t == idx && looped) && p == place(t)
  {
    if l != [] {
      var rest := l[1..];
      PlacesHas(rest, idx, looped, place, p);
      assert l == [l[0]] + rest;
      if t :| t in l && USER <= t && !(t == idx && looped) && p == place(t) {
        assert t == l[0] || t in rest;
      }
    }
  }

  function Users(b: Body): nat
  {
    if |b.alive| < USER then 0 else |b.alive| - USER
  }

  /** Ascending from the first user node. */
  function Upward(b: Body): nat -> nat
  {
    (t: nat) => if t < USER then 0 else t - USER
  }

  /** Descending from the last node. */
  function Downward(b: Body): nat -> nat
  {
    (t: nat) => if t < |b.alive| then |b.alive| - 1 - t else 0
  }

  /** The node at a place of the scan. */
  function NodeAt(b: Body, forward: bool, p: nat): nat
    requires p < Users(b)
  {
    if forward then USER + p else |b.alive| - 1 - p
  }

  function PlaceOf(b: Body, forward: bool): nat -> nat
  {
    if forward then Upward(b) else Downward(b)
  }

  /** A walk counts the out-edges of a node forward, and its in-edges backward. */
  function NearOf(b: Body, forward: bool, idx: nat): seq<nat>
    requires |b.loop| == |b.alive| && |b.out| == |b.alive| && |b.inn| == |b.alive| && idx < |b.alive|
  {
    Places(if forward then b.out[idx] else b.inn[idx], idx, b.loop[idx], PlaceOf(b, forward))
  }

  predicate Sized(b: Body)
  {
    |b.cut| == |b.alive| && |b.loop| == |b.alive| && |b.out| == |b.alive| && |b.inn| == |b.alive|
  }

  function ScanOf(b: Body, forward: bool): Scan
    requires Sized(b)
  {
    Scan(seq(Users(b), p requires 0 <= p < Users(b) => b.alive[NodeAt(b, forward, p)]),
         seq(Users(b), p requires 0 <= p < Users(b) && Sized(b) => b.cut[NodeAt(b, forward, p)]),
         seq(Users(b), p requires 0 <= p < Users(b) && Sized(b) => NearOf(b, forward, NodeAt(b, forward, p))))
  }

  lemma {:induction false} NearIs(b: Body, forward: bool, p: nat, q: nat)
    requires BodyFits(b) && p < Users(b)
    ensures q in ScanOf(b, forward).near[p] <==>
            q < Users(b)
            && if forward then Orders(b, NodeAt(b, forward, p), NodeAt(b, forward, q)) else Orders(b, NodeAt(b, forward, q), NodeAt(b, forward, p))
  {
    var idx := NodeAt(b, forward, p);
    var l := if forward then b.out[idx] else b.inn[idx];
    PlacesHas(l, idx, b.loop[idx], PlaceOf(b, forward), q);
    if t :| t in l && USER <= t && !(t == idx && b.loop[idx]) && q == PlaceOf(b, forward)(t) {
      var k :| 0 <= k < |l| && l[k] == t;
      assert t < |b.alive|;
      assert NodeAt(b, forward, q) == t;
    }
    if q < Users(b) {
      var t := NodeAt(b, forward, q);
      assert PlaceOf(b, forward)(t) == q;
    }
  }

  lemma {:induction false} ScanOfFits(b: Body, forward: bool)
    requires BodyFits(b)
    ensures ScanFits(ScanOf(b, forward))
  {
    var c := ScanOf(b, forward);
    forall u, k | 0 <= u < |c.near| && 0 <= k < |c.near[u]|
      ensures c.near[u][k] < |c.alive| && c.alive[u] && c.alive[c.near[u][k]]
    {
      var q := c.near[u][k];
      assert q in c.near[u];
      NearIs(b, forward, u, q);
      OrdersLive(b, NodeAt(b, forward, u), NodeAt(b, forward, q));
      OrdersLive(b, NodeAt(b, forward, q), NodeAt(b, forward, u));
    }
  }

  lemma {:induction false} OrdersLive(b: Body, u: nat, v: nat)
    requires BodyFits(b)
    ensures Orders(b, u, v) ==> v < |b.alive| && b.alive[u] && b.alive[v]
  {
    if Orders(b, u, v) {
      var k :| 0 <= k < |b.out[u]| && b.out[u][k] == v;
    }
  }

  /** An edge between uncut nodes that orders the walk. */
  predicate Binds(b: Body, u: nat, v: nat)
    requires Sized(b)
  {
    Orders(b, u, v) && v < |b.alive| && !b.cut[u] && !b.cut[v]
  }

  lemma {:induction false} BindsIsArc(b: Body, forward: bool, p: nat, q: nat)
    requires BodyFits(b) && p < Users(b) && q < Users(b) && ScanFits(ScanOf(b, forward))
    ensures Arc(Arcs(ScanOf(b, forward)), p, q) <==>
            if forward then Binds(b, NodeAt(b, forward, p), NodeAt(b, forward, q)) else Binds(b, NodeAt(b, forward, q), NodeAt(b, forward, p))
  {
    ArcIs(ScanOf(b, forward), p, q);
    NearIs(b, forward, p, q);
  }

  /** The walk as nodes. */
  function NodesAt(b: Body, forward: bool, places: seq<nat>): (r: seq<nat>)
    requires forall k :: 0 <= k < |places| ==> places[k] < Users(b)
    ensures |r| == |places| && forall k :: 0 <= k < |r| ==> r[k] == NodeAt(b, forward, places[k])
  {
    seq(|places|, k requires 0 <= k < |places| && places[k] < Users(b) => NodeAt(b, forward, places[k]))
  }

  lemma {:induction false} WalkPlaces(c: Scan, early: set<nat>, deferred: seq<nat>, first: bool, last: bool, k: nat)
    requires ScanFits(c) && Completes(c, early, deferred) && k < |WalkFrom(c, early, deferred, 0, first, last)|
    ensures WalkFrom(c, early, deferred, 0, first, last)[k] < |c.alive|
  {
    var n, v := |c.alive|, WalkFrom(c, early, deferred, 0, first, last)[k];
    CompletesOnce(c, early, deferred);
    var a, b, t := Filtered(0, n, ShownEarly(c, early, first)), deferred[0..], Filtered(0, n, Late(c, early, deferred));
    FilteredHas(0, n, ShownEarly(c, early, first), v);
    FilteredHas(0, n, Late(c, early, deferred), v);
    FilteredHas(0, n, LiveCuts(c), v);
    assert v in a || v in b || v in t || v in CutsFrom(c, 0, last);
  }

  lemma {:induction false} NodesAtTimes(b: Body, forward: bool, places: seq<nat>, p: nat)
    requires (forall k :: 0 <= k < |places| ==> places[k] < Users(b)) && p < Users(b)
    ensures Times(NodesAt(b, forward, places), NodeAt(b, forward, p)) == Times(places, p)
  {
    if places != [] {
      NodesAtTimes(b, forward, places[1..], p);
      assert NodesAt(b, forward, places)[1..] == NodesAt(b, forward, places[1..]);
    }
  }

  /** A binding edge, in the direction of the walk. */
  predicate Leads(b: Body, forward: bool, u: nat, v: nat)
    requires Sized(b)
  {
    if forward then Binds(b, u, v) else Binds(b, v, u)
  }

  /** Nodes from one to the next along binding edges, that come back to the first and go on to v. */
  ghost predicate Returns(b: Body, forward: bool, w: seq<nat>, i: nat, v: nat)
    requires Sized(b)
  {
    0 < i < |w| && w[0] == w[i] && w[|w| - 1] == v
    && forall j, k :: 0 <= j < |w| && k == j + 1 && k < |w| ==> Leads(b, forward, w[j], w[k])
  }

  /** The node lies on a cycle of binding edges, or behind one in the direction of the walk. */
  ghost predicate Tangled(b: Body, forward: bool, v: nat)
    requires Sized(b)
  {
    exists w, i :: Returns(b, forward, w, i, v)
  }

  lemma {:induction false} TangledIs(b: Body, forward: bool, p: nat)
    requires BodyFits(b) && p < Users(b)
    ensures Tangled(b, forward, NodeAt(b, forward, p)) <==> Cyclic(Arcs(ScanOf(b, forward)), p)
  {
    ScanOfFits(b, forward);
    if Cyclic(Arcs(ScanOf(b, forward)), p) {
      CyclicIsTangled(b, forward, p);
    }
    if Tangled(b, forward, NodeAt(b, forward, p)) {
      TangledIsCyclic(b, forward, p);
    }
  }

  lemma {:induction false} CyclicIsTangled(b: Body, forward: bool, p: nat)
    requires BodyFits(b) && p < Users(b) && ScanFits(ScanOf(b, forward)) && Cyclic(Arcs(ScanOf(b, forward)), p)
    ensures Tangled(b, forward, NodeAt(b, forward, p))
  {
    var w, i :| Witness(Arcs(ScanOf(b, forward)), w, i, p);
    WalkInside(b, forward, w, p);
    var nodes := NodesAt(b, forward, w);
    forall j, k | 0 <= j < |nodes| && k == j + 1 && k < |nodes|
      ensures Leads(b, forward, nodes[j], nodes[k])
    {
      BindsIsArc(b, forward, w[j], w[k]);
    }
    assert Returns(b, forward, nodes, i, NodeAt(b, forward, p));
  }

  lemma {:induction false} TangledIsCyclic(b: Body, forward: bool, p: nat)
    requires BodyFits(b) && p < Users(b) && ScanFits(ScanOf(b, forward)) && Tangled(b, forward, NodeAt(b, forward, p))
    ensures Cyclic(Arcs(ScanOf(b, forward)), p)
  {
    var s := Arcs(ScanOf(b, forward));
    var w, i :| Returns(b, forward, w, i, NodeAt(b, forward, p));
    ReturnsInside(b, forward, w, i, NodeAt(b, forward, p));
    var places := seq(|w|, k requires 0 <= k < |w| => PlaceOf(b, forward)(w[k]));
    forall j, k | 0 <= j < |places| && k == j + 1 && k < |places|
      ensures Arc(s, places[j], places[k])
    {
      BindsIsArc(b, forward, places[j], places[k]);
    }
    assert Witness(s, places, i, p);
  }

  lemma {:induction false} WalkInside(b: Body, forward: bool, w: seq<nat>, p: nat)
    requires BodyFits(b) && ScanFits(ScanOf(b, forward)) && Peeling.Walk(Arcs(ScanOf(b, forward)), w) && w[|w| - 1] == p < Users(b)
    ensures forall k :: 0 <= k < |w| ==> w[k] < Users(b)
  {
    forall j | 0 <= j < |w|
      ensures w[j] < Users(b)
    {
      var k := j + 1;
      if k < |w| {
        assert Arc(Arcs(ScanOf(b, forward)), w[j], w[k]);
      }
    }
  }

  lemma {:induction false} ReturnsInside(b: Body, forward: bool, w: seq<nat>, i: nat, v: nat)
    requires BodyFits(b) && Returns(b, forward, w, i, v)
    ensures forall k :: 0 <= k < |w| ==> PlaceOf(b, forward)(w[k]) < Users(b) && NodeAt(b, forward, PlaceOf(b, forward)(w[k])) == w[k]
  {
    forall j | 0 <= j < |w|
      ensures USER <= w[j] < |b.alive|
    {
      var k := j + 1;
      if k < |w| {
        assert Leads(b, forward, w[j], w[k]);
      } else {
        assert Leads(b, forward, w[j - 1], w[j]);
      }
    }
  }

  /** The cache belongs to the walk of this body in this direction. */
  ghost predicate BuiltFor(cache: TraversalCache, b: Body, forward: bool)
    reads cache
    requires BodyFits(b)
  {
    ScanOfFits(b, forward);
    cache.Built(ScanOf(b, forward))
  }

  // ---------- where the nodes are shown ----------

  /** The scan comes to u before v. */
  predicate ScannedBefore(forward: bool, u: nat, v: nat)
  {
    if forward then u < v else v < u
  }

  /** Exactly these nodes, in the order of the scan. */
  ghost predicate InScan(forward: bool, l: seq<nat>, keep: nat -> bool)
  {
    (forall v: nat :: v in l <==> keep(v)) && forall j, k :: 0 <= j < k < |l| ==> ScannedBefore(forward, l[j], l[k])
  }

  predicate LiveUser(b: Body, v: nat)
  {
    4 <= v < |b.alive| && b.alive[v]
  }

  /** All that leads to the node was scanned before it, and in the first pass. */
  ghost predicate EarlyNode(b: Body, forward: bool, early: set<nat>, v: nat)
    requires Sized(b)
  {
    LiveUser(b, v) && forall u: nat :: Leads(b, forward, u, v) ==> ScannedBefore(forward, u, v) && u in early
  }

  /** The nodes of the first pass. */
  ghost predicate EarlyNodes(b: Body, forward: bool, early: set<nat>)
    requires Sized(b)
  {
    forall v: nat {:trigger EarlyNode(b, forward, early, v)} :: v in early <==> EarlyNode(b, forward, early, v)
  }

  /** What the first pass shows: its nodes, cut ones if they come first. */
  ghost function ShownFirst(b: Body, early: set<nat>, first: bool): nat -> bool
  {
    (v: nat) => v in early && (v < |b.cut| && b.cut[v] ==> first)
  }

  /** What is left over by both passes. */
  ghost function LeftOver(b: Body, forward: bool): nat -> bool
    requires Sized(b)
  {
    (v: nat) => LiveUser(b, v) && Tangled(b, forward, v)
  }

  /** The cut nodes, if they come last. */
  function CutLast(b: Body, last: bool): nat -> bool
  {
    (v: nat) => last && LiveUser(b, v) && v < |b.cut| && b.cut[v]
  }

  lemma {:induction false} NodesAtJoin(b: Body, forward: bool, p: seq<nat>, q: seq<nat>)
    requires forall k :: 0 <= k < |p + q| ==> (p + q)[k] < Users(b)
    ensures (forall k :: 0 <= k < |p| ==> p[k] < Users(b)) && forall k :: 0 <= k < |q| ==> q[k] < Users(b)
    ensures NodesAt(b, forward, p + q) == NodesAt(b, forward, p) + NodesAt(b, forward, q)
  {
    assert forall k :: 0 <= k < |p| ==> (p + q)[k] == p[k];
    assert forall k :: 0 <= k < |q| ==> (p + q)[|p| + k] == q[k];
  }

  /** Places in ascending order are nodes in the order of the scan. */
  lemma {:induction false} PlacesInScan(b: Body, forward: bool, n: nat, at: nat -> bool, keep: nat -> bool)
    requires n == Users(b) && forall p: nat :: p < n ==> (at(p) <==> keep(NodeAt(b, forward, p)))
    requires forall v: nat :: keep(v) ==> USER <= v < |b.alive|
    ensures forall k :: 0 <= k < |Filtered(0, n, at)| ==> Filtered(0, n, at)[k] < n
    ensures InScan(forward, NodesAt(b, forward, Filtered(0, n, at)), keep)
  {
    var places := Filtered(0, n, at);
    FilteredAscends(0, n, at);
    var nodes := NodesAt(b, forward, places);
    forall v: nat
      ensures v in nodes <==> keep(v)
    {
      InNodes(b, forward, places, v);
      if USER <= v < |b.alive| {
        FilteredHas(0, n, at, PlaceOf(b, forward)(v));
      }
    }
  }

  lemma {:induction false} InNodes(b: Body, forward: bool, places: seq<nat>, v: nat)
    requires forall k :: 0 <= k < |places| ==> places[k] < Users(b)
    ensures v in NodesAt(b, forward, places) <==> USER <= v < |b.alive| && PlaceOf(b, forward)(v) in places
    ensures USER <= v < |b.alive| ==> NodeAt(b, forward, PlaceOf(b, forward)(v)) == v
  {
    var nodes := NodesAt(b, forward, places);
    if v in nodes {
      var k :| 0 <= k < |nodes| && nodes[k] == v;
      assert PlaceOf(b, forward)(v) == places[k];
    }
    if USER <= v < |b.alive| && PlaceOf(b, forward)(v) in places {
      var k :| 0 <= k < |places| && places[k] == PlaceOf(b, forward)(v);
      assert nodes[k] == v;
    }
  }

  predicate Between(l: seq<nat>, from: nat, upto: nat)
  {
    forall k :: 0 <= k < |l| ==> from <= l[k] < upto
  }

  predicate Ascends(l: seq<nat>)
  {
    forall j, k :: 0 <= j < k < |l| ==> l[j] < l[k]
  }

  lemma {:induction false} AscendsCons(from: nat, upto: nat, rest: seq<nat>)
    requires from < upto && Between(rest, from + 1, upto) && Ascends(rest)
    ensures Between([from] + rest, from, upto) && Ascends([from] + rest)
    ensures Between([] + rest, from, upto) && Ascends([] + rest)
  {
    assert [] + rest == rest;
  }

  lemma {:induction false} FilteredAscends(from: nat, upto: nat, keep: nat -> bool)
    requires from <= upto
    ensures Between(Filtered(from, upto, keep), from, upto) && Ascends(Filtered(from, upto, keep))
    decreases upto - from
  {
    if from < upto {
      FilteredAscends(from + 1, upto, keep);
      AscendsCons(from, upto, Filtered(from + 1, upto, keep));
    }
  }

  ghost function NodesOf(b: Body, forward: bool, places: set<nat>): set<nat>
  {
    set p | p in places && p < Users(b) :: NodeAt(b, forward, p)
  }

  lemma {:induction false} NodesOfHas(b: Body, forward: bool, places: set<nat>, p: nat)
    requires p < Users(b)
    ensures NodeAt(b, forward, p) in NodesOf(b, forward, places) <==> p in places
  {
  }

  /** The first pass over places is the first pass over nodes. */
  lemma {:induction false} EarlyIsNodes(b: Body, forward: bool, early: set<nat>)
    requires BodyFits(b) && ScanFits(ScanOf(b, forward)) && IsEarly(ScanOf(b, forward), early)
    ensures EarlyNodes(b, forward, NodesOf(b, forward, early))
  {
    forall v: nat
      ensures v in NodesOf(b, forward, early) <==> EarlyNode(b, forward, NodesOf(b, forward, early), v)
    {
      if USER <= v < |b.alive| {
        var p := PlaceOf(b, forward)(v);
        assert NodeAt(b, forward, p) == v;
        NodesOfHas(b, forward, early, p);
        EarlyAtNode(b, forward, early, p);
      }
    }
  }

  lemma {:induction false} EarlyAtNode(b: Body, forward: bool, early: set<nat>, p: nat)
    requires BodyFits(b) && p < Users(b) && ScanFits(ScanOf(b, forward)) && IsEarly(ScanOf(b, forward), early)
    ensures p in early <==> EarlyNode(b, forward, NodesOf(b, forward, early), NodeAt(b, forward, p))
  {
    var c, v := ScanOf(b, forward), NodeAt(b, forward, p);
    assert p in early <==> EarlyAt(c, early, p);
    forall q: nat | q < Users(b)
      ensures Arc(Arcs(c), q, p) <==> Leads(b, forward, NodeAt(b, forward, q), v)
      ensures q in early <==> NodeAt(b, forward, q) in NodesOf(b, forward, early)
    {
      BindsIsArc(b, forward, q, p);
      NodesOfHas(b, forward, early, q);
    }
    if p in early {
      forall u: nat | Leads(b, forward, u, v)
        ensures ScannedBefore(forward, u, v) && u in NodesOf(b, forward, early)
      {
        var q := PlaceOf(b, forward)(u);
        assert NodeAt(b, forward, q) == u;
        assert Arc(Arcs(c), q, p);
      }
    }
    if EarlyNode(b, forward, NodesOf(b, forward, early), v) {
      forall q: nat | Arc(Arcs(c), q, p)
        ensures q < p && q in early
      {
        ArcIs(c, q, p);
        assert Leads(b, forward, NodeAt(b, forward, q), v);
      }
    }
  }

  /** The three parts of a walk that are in the order of the scan. */
  lemma {:induction false} PartsInScan(b: Body, forward: bool, early: set<nat>, deferred: seq<nat>, first: bool, last: bool)
    returns (pass1: seq<nat>, pass2: seq<nat>, tail: seq<nat>, cuts: seq<nat>)
    requires BodyFits(b) && ScanFits(ScanOf(b, forward)) && Completes(ScanOf(b, forward), early, deferred)
    requires forall k :: 0 <= k < |WalkFrom(ScanOf(b, forward), early, deferred, 0, first, last)| ==>
                           WalkFrom(ScanOf(b, forward), early, deferred, 0, first, last)[k] < Users(b)
    ensures NodesAt(b, forward, WalkFrom(ScanOf(b, forward), early, deferred, 0, first, last)) == pass1 + pass2 + tail + cuts
    ensures InScan(forward, pass1, ShownFirst(b, NodesOf(b, forward, early), first))
    ensures InScan(forward, tail, LeftOver(b, forward)) && InScan(forward, cuts, CutLast(b, last))
  {
    var c, n := ScanOf(b, forward), Users(b);
    var one, two, three, four := Filtered(0, n, ShownEarly(c, early, first)), deferred[0..], Filtered(0, n, Late(c, early, deferred)), CutsFrom(c, 0, last);
    assert WalkFrom(c, early, deferred, 0, first, last) == one + (two + (three + four));
    FourParts(b, forward, one, two, three, four);
    pass1, pass2 := NodesAt(b, forward, one), NodesAt(b, forward, two);
    tail, cuts := NodesAt(b, forward, three), NodesAt(b, forward, four);
    FirstInScan(b, forward, early, first);
    TailInScan(b, forward, early, deferred);
    CutsInScan(b, forward, last);
  }

  lemma {:induction false} FourParts(b: Body, forward: bool, one: seq<nat>, two: seq<nat>, three: seq<nat>, four: seq<nat>)
    requires forall k :: 0 <= k < |one + (two + (three + four))| ==> (one + (two + (three + four)))[k] < Users(b)
    ensures (forall k :: 0 <= k < |one| ==> one[k] < Users(b)) && (forall k :: 0 <= k < |two| ==> two[k] < Users(b))
            && (forall k :: 0 <= k < |three| ==> three[k] < Users(b)) && forall k :: 0 <= k < |four| ==> four[k] < Users(b)
    ensures NodesAt(b, forward, one + (two + (three + four))) ==
            NodesAt(b, forward, one) + NodesAt(b, forward, two) + NodesAt(b, forward, three) + NodesAt(b, forward, four)
  {
    NodesAtJoin(b, forward, one, two + (three + four));
    NodesAtJoin(b, forward, two, three + four);
    NodesAtJoin(b, forward, three, four);
  }

  lemma {:induction false} FirstInScan(b: Body, forward: bool, early: set<nat>, first: bool)
    requires BodyFits(b) && ScanFits(ScanOf(b, forward)) && IsEarly(ScanOf(b, forward), early)
    ensures forall k :: 0 <= k < |Filtered(0, Users(b), ShownEarly(ScanOf(b, forward), early, first))| ==>
                          Filtered(0, Users(b), ShownEarly(ScanOf(b, forward), early, first))[k] < Users(b)
    ensures InScan(forward, NodesAt(b, forward, Filtered(0, Users(b), ShownEarly(ScanOf(b, forward), early, first))),
                   ShownFirst(b, NodesOf(b, forward, early), first))
  {
    forall p: nat | p < Users(b)
      ensures ShownEarly(ScanOf(b, forward), early, first)(p) <==> ShownFirst(b, NodesOf(b, forward, early), first)(NodeAt(b, forward, p))
    {
      NodesOfHas(b, forward, early, p);
    }
    PlacesInScan(b, forward, Users(b), ShownEarly(ScanOf(b, forward), early, first), ShownFirst(b, NodesOf(b, forward, early), first));
  }

  lemma {:induction false} TailInScan(b: Body, forward: bool, early: set<nat>, deferred: seq<nat>)
    requires BodyFits(b) && ScanFits(ScanOf(b, forward)) && Completes(ScanOf(b, forward), early, deferred)
    ensures forall k :: 0 <= k < |Filtered(0, Users(b), Late(ScanOf(b, forward), early, deferred))| ==>
                          Filtered(0, Users(b), Late(ScanOf(b, forward), early, deferred))[k] < Users(b)
    ensures InScan(forward, NodesAt(b, forward, Filtered(0, Users(b), Late(ScanOf(b, forward), early, deferred))), LeftOver(b, forward))
  {
    var c := ScanOf(b, forward);
    forall p: nat | p < Users(b)
      ensures Late(c, early, deferred)(p) <==> LeftOver(b, forward)(NodeAt(b, forward, p))
    {
      TailIsCyclic(c, early, deferred, p);
      FilteredHas(0, |c.alive|, Late(c, early, deferred), p);
      TangledIs(b, forward, p);
    }
    PlacesInScan(b, forward, Users(b), Late(c, early, deferred), LeftOver(b, forward));
  }

  lemma {:induction false} CutsInScan(b: Body, forward: bool, last: bool)
    requires BodyFits(b)
    ensures forall k :: 0 <= k < |CutsFrom(ScanOf(b, forward), 0, last)| ==> CutsFrom(ScanOf(b, forward), 0, last)[k] < Users(b)
    ensures InScan(forward, NodesAt(b, forward, CutsFrom(ScanOf(b, forward), 0, last)), CutLast(b, last))
  {
    if last {
      PlacesInScan(b, forward, Users(b), LiveCuts(ScanOf(b, forward)), CutLast(b, last));
    }
  }

  /** The nodes of a body, drivers first (forward) or last (backward): every live user node once, a cut
      node as its placement says, and the ends of a binding edge in order unless the later one is tangled.
      The nodes of the first pass come in the order of the scan, with cut nodes at their places if they come
      first; then those of the second, the tangled ones in the order of the scan, and all cut nodes if they come last. */
  method Nodes(b: Body, forward: bool, cache: TraversalCache, first: bool, last: bool)
    returns (nodes: seq<nat>, ghost early: set<nat>, ghost pass1: seq<nat>, ghost pass2: seq<nat>, ghost tail: seq<nat>, ghost cuts: seq<nat>)
    requires BodyFits(b) && (cache.valid ==> BuiltFor(cache, b, forward))
    modifies cache
    ensures BuiltFor(cache, b, forward)
    ensures forall v: nat :: 4 <= v < |b.alive| ==>
              Times(nodes, v) == if !b.alive[v] then 0
                                 else if b.cut[v] then (if first then 1 else 0) + (if last then 1 else 0) else 1
    ensures forall u: nat, v: nat :: Binds(b, u, v) ==>
              if forward then Tangled(b, true, v) || Precedes(nodes, u, v) else Tangled(b, false, u) || Precedes(nodes, v, u)
    ensures nodes == pass1 + pass2 + tail + cuts && EarlyNodes(b, forward, early)
    ensures InScan(forward, pass1, ShownFirst(b, early, first))
    ensures InScan(forward, tail, LeftOver(b, forward)) && InScan(forward, cuts, CutLast(b, last))
  {
    var c := ScanOf(b, forward);
    ScanOfFits(b, forward);
    var places := Walk(c, cache, first, last);
    forall k | 0 <= k < |places|
      ensures places[k] < Users(b)
    {
      WalkPlaces(c, cache.early, cache.pass2, first, last, k);
    }
    nodes, early := NodesAt(b, forward, places), NodesOf(b, forward, cache.early);
    EarlyIsNodes(b, forward, cache.early);
    pass1, pass2, tail, cuts := PartsInScan(b, forward, cache.early, cache.pass2, first, last);
    forall v: nat | 4 <= v < |b.alive|
      ensures Times(nodes, v) == if !b.alive[v] then 0
                                 else if b.cut[v] then (if first then 1 else 0) + (if last then 1 else 0) else 1
    {
      ShownAsPlaced(b, forward, cache.early, cache.pass2, first, last, places, v);
    }
    forall u: nat, v: nat | Binds(b, u, v)
      ensures if forward then Tangled(b, true, v) || Precedes(nodes, u, v) else Tangled(b, false, u) || Precedes(nodes, v, u)
    {
      EdgeShown(b, forward, cache.early, cache.pass2, first, last, places, u, v);
    }
  }

  lemma {:induction false} ShownAsPlaced(b: Body, forward: bool, early: set<nat>, deferred: seq<nat>, first: bool, last: bool, places: seq<nat>, v: nat)
    requires BodyFits(b) && ScanFits(ScanOf(b, forward)) && Completes(ScanOf(b, forward), early, deferred)
    requires places == WalkFrom(ScanOf(b, forward), early, deferred, 0, first, last) && forall k :: 0 <= k < |places| ==> places[k] < Users(b)
    requires USER <= v < |b.alive|
    ensures Times(NodesAt(b, forward, places), v) == if !b.alive[v] then 0
                                                     else if b.cut[v] then (if first then 1 else 0) + (if last then 1 else 0) else 1
  {
    var p := PlaceOf(b, forward)(v);
    assert NodeAt(b, forward, p) == v;
    NodesAtTimes(b, forward, places, p);
    WalkShowsOnce(ScanOf(b, forward), early, deferred, first, last, p);
  }

  lemma {:induction false} EdgeShown(b: Body, forward: bool, early: set<nat>, deferred: seq<nat>, first: bool, last: bool, places: seq<nat>, u: nat, v: nat)
    requires BodyFits(b) && ScanFits(ScanOf(b, forward)) && Completes(ScanOf(b, forward), early, deferred) && Binds(b, u, v)
    requires places == WalkFrom(ScanOf(b, forward), early, deferred, 0, first, last) && forall k :: 0 <= k < |places| ==> places[k] < Users(b)
    ensures
      var nodes := NodesAt(b, forward, places);
      if forward then Tangled(b, true, v) || Precedes(nodes, u, v) else Tangled(b, false, u) || Precedes(nodes, v, u)
  {
    var c, nodes := ScanOf(b, forward), NodesAt(b, forward, places);
    var p, q := PlaceOf(b, forward)(if forward then u else v), PlaceOf(b, forward)(if forward then v else u);
    assert NodeAt(b, forward, p) == if forward then u else v;
    assert NodeAt(b, forward, q) == if forward then v else u;
    BindsIsArc(b, forward, p, q);
    TangledIs(b, forward, q);
    if !Cyclic(Arcs(c), q) {
      WalkRespectsEdges(c, early, deferred, first, last, p, q);
      var j, k :| 0 <= j < k < |places| && places[j] == p && places[k] == q;
      assert nodes[j] == NodeAt(b, forward, p) && nodes[k] == NodeAt(b, forward, q);
    }
  }
}
