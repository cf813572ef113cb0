/**
 Unrolling loops adds no cycle: a cycle of occurrences is also one of stored edges without carries. Either
 every call is one node of it, with all of its ordinals and whatever is inside them, or only the loops are
 and other calls are looked through.
 */
module OccurrenceCycles {
  import opened OccurrenceLibrary
  import opened OccurrenceEdges
  import opened OccurrenceChains
  import opened OccurrenceConverse
  import opened Options
  import opened Walks

  // ---------- cycles of occurrences ----------

  /** A node as it occurs: the pins of one node at one path, and of one ordinal of a loop. */
  datatype Place = Place(container: Path, node: nat, identity: Path)

  function PlaceOf(p: Pin): Place
  {
    Place(p.container, p.end.node, p.identity)
  }

  /** The pin of one drives a pin of the other, found in either direction. Counted are the pins of all occurrences, calls that
      are entered with what is inside them, or only those at which resolutions end. */
  ghost predicate Feeding(v: View, all: bool, a: Pin, b: Pin)
  {
    (if all then Listed(v, a) && Listed(v, b) && !b.driver else Drives(v, a) && Reads(v, b))
    && PinFits(v, a) && PinFits(v, b) && (a in Ins(v, b) || b in Outs(v, a))
  }

  ghost predicate Precedes(v: View, all: bool, x: Place, y: Place)
  {
    exists a, b :: Feeding(v, all, a, b) && PlaceOf(a) == x && PlaceOf(b) == y
  }

  ghost function Preceding(v: View, all: bool): (Place, Place) -> bool
  {
    (x, y) => Precedes(v, all, x, y)
  }

  // ---------- cycles of stored edges, with calls as nodes ----------

  /** A call that is one node: each, or each ordinal of an unrolled loop. */
  predicate Solid(all: bool, s: Step)
  {
    all || s.ordinal.Some?
  }

  /** The path goes on from a body through calls that are looked through. */
  ghost predicate Inside(all: bool, body: Path, path: Path)
  {
    body <= path && FirstSolid(all, path, |body|) == |path|
  }

  /** Where a path first enters a call that is one node. */
  function FirstSolid(all: bool, path: Path, from: nat): (e: nat)
    requires from <= |path|
    ensures from <= e <= |path|
    decreases |path| - from
  {
    if from == |path| || Solid(all, path[from]) then from else FirstSolid(all, path, from + 1)
  }

  /** An edge that counts: with calls looked through, those from one to itself do not. */
  ghost predicate Followed(v: View, all: bool, h: Hop)
  {
    Placed(v, h) && (all || !Through(v, h))
  }

  /** Two edges meet at a node: any, or one that is not looked through. */
  ghost predicate Meets(v: View, all: bool, b: Hop, a: Hop)
    requires Placed(v, b)
  {
    b.path == a.path && b.edge.sink.node == a.edge.driver.node
    && (all || (Entered(v, b.path, b.edge.sink.node) ==> Expanded(v, Sub(v, BodyAt(v, b.path), b.edge.sink.node))))
  }

  /** One edge leads to another across the boundary of a call, into it or out of it. */
  ghost predicate Crosses(v: View, drivers: bool, b: Hop, a: Hop)
    requires Placed(v, b) && Placed(v, a)
  {
    Enters(v, drivers, b.path, b.edge.sink.node, b, a) || Leaves(v, drivers, a.path, a.edge.driver.node, b, a)
  }

  /** Within one body and the calls below it that are looked through, one stored edge leads to the next without a carry. */
  ghost predicate LeadsTo(v: View, all: bool, body: Path, b: Hop, a: Hop)
  {
    Followed(v, all, b) && Followed(v, all, a) && Inside(all, body, b.path) && Inside(all, body, a.path)
    && (Crosses(v, true, b, a) || Crosses(v, false, b, a) || Meets(v, all, b, a))
  }

  ghost function Leading(v: View, all: bool, body: Path): (Hop, Hop) -> bool
  {
    (b, a) => LeadsTo(v, all, body, b, a)
  }

  // ---------- from occurrences to edges ----------

  /** Inside two ordinals of one call, the second the later one. */
  ghost predicate Later(v: View, p: Path, q: Path)
  {
    q != [] && Anchored(v, Front(q)) && Within(v, Front(q), Last(q).site, p) && Within(v, Front(q), Last(q).site, q) && Ord(p) < Ord(q)
  }

  /** Two edges at one node, or at a call and inside it, or inside two ordinals of it. */
  ghost predicate Hangs(v: View, b: Hop, a: Hop)
    requires Placed(v, b) && Placed(v, a)
  {
    (b.path == a.path && b.edge.sink.node == a.edge.driver.node)
    || Within(v, b.path, b.edge.sink.node, a.path) || Within(v, a.path, a.edge.driver.node, b.path) || Later(v, b.path, a.path)
  }

  /** One stored edge leads to the next in the unrolled view. */
  ghost predicate Reaches(v: View, all: bool, b: Hop, a: Hop)
  {
    Followed(v, all, b) && Followed(v, all, a)
    && (Feeds(v, true, b, a) || Feeds(v, false, b, a)
        || if all then Hangs(v, b, a) else Meets(v, all, b, a) && !Entered(v, b.path, b.edge.sink.node))
  }

  ghost function Reaching(v: View, all: bool): (Hop, Hop) -> bool
  {
    (b, a) => Reaches(v, all, b, a)
  }

  /** An edge starts at an occurrence, or inside a later ordinal of it. */
  ghost predicate Departs(v: View, all: bool, h: Hop, x: Place)
  {
    Followed(v, all, h)
    && ((h.path == x.container && h.edge.driver.node == x.node && (all || !Entered(v, h.path, x.node)))
        || (all && Anchored(v, x.container) && Within(v, x.container, x.node, h.path) && Ord(x.identity) < Ord(h.path)))
  }

  /** An edge ends at an occurrence, or inside it or an earlier ordinal. */
  ghost predicate Arrives(v: View, all: bool, h: Hop, y: Place)
  {
    Followed(v, all, h)
    && ((h.path == y.container && h.edge.sink.node == y.node)
        || (all && Anchored(v, y.container) && Within(v, y.container, y.node, h.path) && Ord(h.path) <= Ord(y.identity)))
  }

  ghost predicate Joins(v: View, all: bool, w: seq<Hop>, x: Place, y: Place)
  {
    IsWalk(Reaching(v, all), w) && Departs(v, all, w[0], x) && Arrives(v, all, Final(w), y)
  }

  ghost predicate Flows(v: View, all: bool, x: Place, y: Place)
  {
    exists w :: Joins(v, all, w, x, y)
  }

  /** From one ordinal of a node to the next. */
  predicate Advances(x: Place, y: Place)
  {
    x.container == y.container && x.node == y.node && Ord(y.identity) == Ord(x.identity) + 1
  }

  /** From the inputs of a body to the call. */
  ghost predicate Surfaces(v: View, x: Place, y: Place)
  {
    x.container == y.identity && x.node == INPUT && Anchored(v, y.container) && Within(v, y.container, y.node, y.identity)
  }

  lemma {:induction false} FeedsReaches(v: View, all: bool, drivers: bool, c: seq<Hop>, j: nat, k: nat)
    requires Chain(v, drivers, c) && (all || Clean(v, c)) && k == j + 1 && k < |c|
    ensures Reaching(v, all)(c[k], c[j])
  {
    FeedsInChain(v, drivers, c, j, k);
  }

  lemma {:induction false} ChainReversed(v: View, all: bool, drivers: bool, c: seq<Hop>) returns (w: seq<Hop>)
    requires Chain(v, drivers, c) && (all || Clean(v, c))
    ensures IsWalk(Reaching(v, all), w) && w[0] == c[|c| - 1] && Final(w) == c[0]
    decreases |c|
  {
    WalkOne(Reaching(v, all), c[0]);
    w := [c[0]];
    if |c| > 1 {
      var rest := c[1..|c|];
      ChainPart(v, drivers, c, 1, |c|);
      w := ChainReversed(v, all, drivers, rest);
      FeedsReaches(v, all, drivers, c, 0, 1);
      WalkAppend(Reaching(v, all), w, [c[0]]);
      w := w + [c[0]];
    }
  }

  // ----- occurrences at which resolutions end

  lemma {:induction false} LinkFlows(v: View, drivers: bool, a: Pin, b: Pin, depth: nat)
    requires WellFormed(v) && Drives(v, a) && Reads(v, b) && Linked(v, drivers, a, b, depth)
    ensures Flows(v, false, PlaceOf(a), PlaceOf(b))
  {
    var c :| LinkedBy(v, drivers, c, a, b, depth);
    ChainClean(v, drivers, c, if drivers then b else a);
    var w := ChainReversed(v, false, drivers, c);
    assert Joins(v, false, w, PlaceOf(a), PlaceOf(b));
  }

  lemma {:induction false} VisibleKinds(v: View, a: Pin, b: Pin)
    requires WellFormed(v) && Feeding(v, false, a, b)
    ensures Flows(v, false, PlaceOf(a), PlaceOf(b)) || Advances(PlaceOf(a), PlaceOf(b))
  {
    InsOfVisible(v, a, b);
    OutsOfVisible(v, a, b);
    if Recurs(v, a, b) {
      RecursForward(v, a, b);
    } else if Linked(v, false, a, b, 0) {
      LinkFlows(v, false, a, b, 0);
    } else {
      AnsweredLinks(v, a, b, Spent(ThroughBody(v, b)));
      LinkFlows(v, true, a, b, Spent(ThroughBody(v, b)));
    }
  }

  lemma {:induction false} AnsweredLinks(v: View, a: Pin, b: Pin, depth: nat)
    requires WellFormed(v) && Visible(v, a) && Reads(v, b) && PinFits(v, b) && depth == Spent(ThroughBody(v, b))
    requires Supplied(v, a, b) || exists c :: AnsweredBy(v, c, a, b, depth)
    ensures Linked(v, true, a, b, depth)
  {
    NotSuppliedVisible(v, a, b);
    var c :| AnsweredBy(v, c, a, b, depth);
    if StopsAt(v, c[|c| - 1], a) {
      StopsApart(v, c[|c| - 1], a);
    }
    assert LinkedBy(v, true, c, a, b, depth);
  }

  /** The boundary of a body that is not entered is not listed. */
  lemma {:induction false} NotSuppliedVisible(v: View, a: Pin, b: Pin)
    requires WellFormed(v) && Visible(v, a) && Reads(v, b) && PinFits(v, b)
    ensures !Supplied(v, a, b)
  {
    if Supplied(v, a, b) {
      ReadsIsNotEntered(v, b);
      BoundaryIs(v, b);
      SuppliedWithin(v, a, b);
    }
  }

  lemma {:induction false} SuppliedWithin(v: View, a: Pin, b: Pin)
    requires WellFormed(v) && Listed(v, a) && Listed(v, b) && PinFits(v, b) && Supplied(v, a, b)
    ensures Surfaces(v, PlaceOf(a), PlaceOf(b))
  {
    BoundaryIs(v, b);
    OpenStep(v, b.identity);
  }

  // ----- all occurrences

  lemma {:induction false} ListedKinds(v: View, a: Pin, b: Pin)
    requires WellFormed(v) && Feeding(v, true, a, b)
    ensures Flows(v, true, PlaceOf(a), PlaceOf(b)) || Advances(PlaceOf(a), PlaceOf(b)) || Surfaces(v, PlaceOf(a), PlaceOf(b))
  {
    if b in Outs(v, a) {
      OutsAreExact(v, a, b);
      if Recurs(v, a, b) {
        RecursForward(v, a, b);
      } else {
        var h :| FirstOut(v, a, h) && Read(v, h, 0, b);
        OutFlows(v, a, b, h);
      }
    } else {
      InsAreExact(v, a, b);
      if Directly(v, a, b) {
        DirectKinds(v, a, b);
      } else {
        var h :| FirstIn(v, b, h) && Fed(v, h, Spent(ThroughBody(v, b)), a);
        InFlows(v, a, b, h, Spent(ThroughBody(v, b)));
      }
    }
  }

  lemma {:induction false} DirectKinds(v: View, a: Pin, b: Pin)
    requires WellFormed(v) && Listed(v, a) && Listed(v, b) && PinFits(v, b) && Directly(v, a, b)
    ensures Advances(PlaceOf(a), PlaceOf(b)) || Surfaces(v, PlaceOf(a), PlaceOf(b))
  {
    if Supplied(v, a, b) {
      SuppliedWithin(v, a, b);
    } else if EnteredOrdinal(v, b) {
      BypassAdvances(v, a, b);
    } else {
      RecursForward(v, a, b);
    }
  }

  lemma {:induction false} BypassAdvances(v: View, a: Pin, b: Pin)
    requires WellFormed(v) && Listed(v, b) && PinFits(v, b) && EnteredOrdinal(v, b) && Bypassed(v, b.identity, b.end.port, a)
    ensures Advances(PlaceOf(a), PlaceOf(b))
  {
    BoundaryIs(v, b);
    assert Last(a.identity) == Previous(b.identity);
  }

  lemma {:induction false} OutFlows(v: View, a: Pin, b: Pin, h: Hop)
    requires WellFormed(v) && FirstOut(v, a, h) && Read(v, h, 0, b)
    ensures Flows(v, true, PlaceOf(a), PlaceOf(b))
  {
    var c :| ChainTo(v, h, c, 0, b);
    var w := ChainReversed(v, true, false, c);
    assert Joins(v, true, w, PlaceOf(a), PlaceOf(b));
  }

  /** Where a chain starts that ends in the in-edges of a pin. */
  lemma {:induction false} FirstArrives(v: View, b: Pin, h: Hop)
    requires WellFormed(v) && Listed(v, b) && PinFits(v, b) && FirstIn(v, b, h)
    ensures Arrives(v, true, h, PlaceOf(b))
  {
    if EnteredOrdinal(v, b) {
      BoundaryIs(v, b);
      BoundaryIsOpen(v, b);
      if ReadsBefore(v, b.identity, b.end.port) {
        BeforeIsWithin(v, b.container, b.end.node, b.identity);
      }
    }
  }

  lemma {:induction false} InFlows(v: View, a: Pin, b: Pin, h: Hop, depth: nat)
    requires WellFormed(v) && Listed(v, b) && PinFits(v, b) && FirstIn(v, b, h) && Fed(v, h, depth, a)
    ensures Flows(v, true, PlaceOf(a), PlaceOf(b))
  {
    FirstArrives(v, b, h);
    var c :| ChainFrom(v, h, c, depth, a);
    var w := ChainReversed(v, true, true, c);
    var w' := FromAnswer(v, a, w);
    assert Joins(v, true, w', PlaceOf(a), PlaceOf(b));
  }

  /** Where a chain towards the drivers stops, an edge departs from the pin: the last one, or one from a call to itself. */
  lemma {:induction false} AnswerDeparts(v: View, a: Pin, h: Hop) returns (first: Hop)
    requires WellFormed(v) && Placed(v, h) && AnswersDriver(v, h, a)
    ensures Departs(v, true, first, PlaceOf(a)) && (first == h || Reaching(v, true)(first, h))
  {
    first := h;
    if !StartsAt(v, h, a) {
      if Bypassed(v, h.path, h.edge.driver.port, a) {
        BypassDeparts(v, a, h);
      } else {
        first := Hop(a.container, Edge(a.end, End(a.end.node, h.edge.driver.port)));
        ItselfDeparts(v, a, h, first);
      }
    }
  }

  lemma {:induction false} BypassDeparts(v: View, a: Pin, h: Hop)
    requires WellFormed(v) && Placed(v, h) && Bypassed(v, h.path, h.edge.driver.port, a)
    ensures Departs(v, true, h, PlaceOf(a))
  {
    OpenStep(v, h.path);
    LastOfInner(v, Front(h.path), Last(h.path).site, h.path);
    assert Last(a.identity) == Previous(h.path);
  }

  lemma {:induction false} ItselfDeparts(v: View, a: Pin, h: Hop, first: Hop)
    requires WellFormed(v) && Placed(v, h) && FromItself(v, h.path, h.edge.driver.port, a)
    requires first == Hop(a.container, Edge(a.end, End(a.end.node, h.edge.driver.port)))
    ensures Departs(v, true, first, PlaceOf(a)) && Reaching(v, true)(first, h)
  {
    OpenStep(v, h.path);
    assert Placed(v, first) && Hangs(v, first, h);
  }

  lemma {:induction false} FromAnswer(v: View, a: Pin, w: seq<Hop>) returns (r: seq<Hop>)
    requires WellFormed(v) && IsWalk(Reaching(v, true), w) && Placed(v, w[0]) && AnswersDriver(v, w[0], a)
    ensures IsWalk(Reaching(v, true), r) && Departs(v, true, r[0], PlaceOf(a)) && Final(r) == Final(w)
  {
    var first := AnswerDeparts(v, a, w[0]);
    r := w;
    if first != w[0] {
      WalkCons(Reaching(v, true), first, w);
      r := [first] + w;
    }
  }

  // ----- both

  lemma {:induction false} EdgeKinds(v: View, all: bool, x: Place, y: Place)
    requires WellFormed(v) && Precedes(v, all, x, y)
    ensures Flows(v, all, x, y) || Advances(x, y) || (all && Surfaces(v, x, y))
  {
    var a, b :| Feeding(v, all, a, b) && PlaceOf(a) == x && PlaceOf(b) == y;
    if all {
      ListedKinds(v, a, b);
    } else {
      VisibleKinds(v, a, b);
    }
  }

  lemma {:induction false} MeetsHere(v: View, all: bool, b: Hop, a: Hop, x: Place)
    requires Arrives(v, all, b, x) && Departs(v, all, a, x)
    ensures Reaches(v, all, b, a)
  {
    if all && Anchored(v, x.container) && Within(v, x.container, x.node, a.path) && Within(v, x.container, x.node, b.path) {
      LastOfInner(v, x.container, x.node, a.path);
    }
  }

  /** An edge that ends at an occurrence ends at the next ordinal of it, and at the call that it is an input of. */
  lemma {:induction false} ArrivesOn(v: View, all: bool, h: Hop, x: Place, y: Place)
    requires WellFormed(v) && Arrives(v, all, h, x) && (Advances(x, y) || (all && Surfaces(v, x, y)))
    ensures Arrives(v, all, h, y)
  {
  }

  /** A walk of occurrences from where an edge arrives is one of edges. */
  lemma {:induction false} Expand(v: View, all: bool, h: Hop, o: seq<Place>) returns (w: seq<Hop>)
    requires WellFormed(v) && IsWalk(Preceding(v, all), o) && Arrives(v, all, h, o[0])
    ensures IsWalk(Reaching(v, all), w) && w[0] == h && Arrives(v, all, Final(w), Final(o))
    decreases |o|
  {
    if |o| == 1 {
      w := [h];
      WalkOne(Reaching(v, all), h);
    } else {
      WalkFrom(Preceding(v, all), o, 1);
      WalkStep(Preceding(v, all), o, 0);
      var f := NextEdges(v, all, h, o[0], o[1]);
      var more := Expand(v, all, Final(f), o[1..]);
      w := WalkJoin(Reaching(v, all), f, more);
      ArrivesAlike(v, all, Final(more), Final(o[1..]), Final(w), Final(o));
    }
  }

  lemma {:induction false} ArrivesAlike(v: View, all: bool, h: Hop, y: Place, h2: Hop, y2: Place)
    requires Arrives(v, all, h, y) && h2 == h && y2 == y
    ensures Arrives(v, all, h2, y2)
  {
  }

  /** The edges from where one occurrence is reached to where the next one is. */
  lemma {:induction false} NextEdges(v: View, all: bool, h: Hop, x: Place, y: Place) returns (w: seq<Hop>)
    requires WellFormed(v) && Precedes(v, all, x, y) && Arrives(v, all, h, x)
    ensures IsWalk(Reaching(v, all), w) && w[0] == h && Arrives(v, all, Final(w), y)
  {
    EdgeKinds(v, all, x, y);
    WalkOne(Reaching(v, all), h);
    if Flows(v, all, x, y) {
      var f :| Joins(v, all, f, x, y);
      MeetsHere(v, all, h, f[0], x);
      WalkCons(Reaching(v, all), h, f);
      w := [h] + f;
    } else {
      w := [h];
      ArrivesOn(v, all, h, x, y);
    }
  }

  /** The steps that follow no edge do not come back. */
  lemma {:induction false} AdvancesOn(v: View, all: bool, o: seq<Place>, k: nat)
    requires WellFormed(v) && IsWalk(Preceding(v, all), o) && k < |o| && forall j :: 0 <= j < k ==> !FlowsAt(v, all, o, j)
    ensures |o[k].container| <= |o[0].container|
    ensures |o[k].container| == |o[0].container| ==> Ord(o[k].identity) == Ord(o[0].identity) + k
  {
    if k > 0 {
      AdvancesOn(v, all, o, k - 1);
      WalkStep(Preceding(v, all), o, k - 1);
      EdgeKinds(v, all, o[k - 1], o[k]);
      assert !FlowsAt(v, all, o, k - 1);
      if Surfaces(v, o[k - 1], o[k]) {
        LastOfInner(v, o[k].container, o[k].node, o[k].identity);
      }
    }
  }

  ghost predicate FlowsAt(v: View, all: bool, o: seq<Place>, j: int)
  {
    0 <= j && j + 1 < |o| && Flows(v, all, o[j], o[j + 1])
  }

  /** A cycle of occurrences is one of stored edges in the unrolled view. */
  lemma {:induction false} CycleOfEdges(v: View, all: bool, o: seq<Place>) returns (h: seq<Hop>)
    requires WellFormed(v) && IsCycle(Preceding(v, all), o)
    ensures IsCycle(Reaching(v, all), h)
  {
    if !exists j :: FlowsAt(v, all, o, j) {
      AdvancesOn(v, all, o, |o| - 1);
    }
    var j :| FlowsAt(v, all, o, j);
    var r := Turn(Preceding(v, all), o, j);
    var f :| Joins(v, all, f, r[0], r[1]);
    WalkFrom(Preceding(v, all), r, 1);
    var more := Expand(v, all, Final(f), r[1..]);
    assert Final(r[1..]) == r[0];
    MeetsHere(v, all, Final(more), f[0], r[0]);
    WalkCons(Reaching(v, all), Final(more), f);
    h := WalkJoin(Reaching(v, all), [Final(more)] + f, more);
  }

  // ---------- from the unrolled view to bodies ----------

  lemma {:induction false} FirstOfLonger(all: bool, path: Path, s: Step, from: nat)
    requires from <= |path|
    ensures FirstSolid(all, path + [s], from) ==
            if FirstSolid(all, path, from) < |path| then FirstSolid(all, path, from) else if Solid(all, s) then |path| else |path| + 1
    decreases |path| - from
  {
    if from < |path| && !Solid(all, path[from]) {
      FirstOfLonger(all, path, s, from + 1);
    }
  }

  lemma {:induction false} FirstIsSolid(all: bool, path: Path, from: nat)
    requires from <= |path|
    ensures FirstSolid(all, path, from) < |path| ==> Solid(all, path[FirstSolid(all, path, from)])
    decreases |path| - from
  {
    if from < |path| && !Solid(all, path[from]) {
      FirstIsSolid(all, path, from + 1);
    }
  }

  /** The path goes through this call first. */
  ghost predicate Under(all: bool, body: Path, path: Path, outer: Path, graph: nat, site: nat)
  {
    body <= path && FirstSolid(all, path, |body|) < |path|
    && path[..FirstSolid(all, path, |body|)] == outer
    && path[FirstSolid(all, path, |body|)].graph == graph && path[FirstSolid(all, path, |body|)].site == site
  }

  /** The same call, or a later ordinal of it. */
  predicate NoEarlier(s: Step, t: Step)
  {
    s.graph == t.graph && s.site == t.site && (s.ordinal.Some? <==> t.ordinal.Some?)
    && (s.ordinal.Some? && t.ordinal.Some? ==> s.ordinal.value <= t.ordinal.value)
  }

  /** Both go through the same call first, the second through the same ordinal or a later one. */
  ghost predicate NotBefore(all: bool, body: Path, p: Path, q: Path)
  {
    body <= p && body <= q && FirstSolid(all, p, |body|) == FirstSolid(all, q, |body|) < |p| && FirstSolid(all, q, |body|) < |q|
    && var e := FirstSolid(all, p, |body|);
       p[..e] == q[..e] && NoEarlier(p[e], q[e])
  }

  /** The site is one node. */
  ghost predicate OneNode(v: View, all: bool, path: Path, site: nat)
    requires Anchored(v, path)
  {
    all || (IsSub(v, BodyAt(v, path), site) && Expanded(v, Sub(v, BodyAt(v, path), site)))
  }

  /** What a step between edges means for the calls they are in. */
  ghost predicate StepKept(v: View, all: bool, body: Path, b: Hop, a: Hop)
    requires Placed(v, b) && Placed(v, a)
  {
    if Inside(all, body, b.path) then
      if Inside(all, body, a.path) then LeadsTo(v, all, body, b, a)
      else Under(all, body, a.path, b.path, BodyAt(v, b.path), b.edge.sink.node) && OneNode(v, all, b.path, b.edge.sink.node)
    else
      if Inside(all, body, a.path) then Under(all, body, b.path, a.path, BodyAt(v, a.path), a.edge.driver.node)
      else NotBefore(all, body, b.path, a.path)
  }

  /** One more step of a path. */
  lemma {:induction false} Longer(all: bool, body: Path, p: Path, s: Step)
    requires body <= p
    ensures body <= p + [s]
    ensures Inside(all, body, p) && !Solid(all, s) ==> Inside(all, body, p + [s])
    ensures Inside(all, body, p) && Solid(all, s) ==> !Inside(all, body, p + [s]) && Under(all, body, p + [s], p, s.graph, s.site)
    ensures !Inside(all, body, p) ==> !Inside(all, body, p + [s]) && NotBefore(all, body, p, p + [s]) && NotBefore(all, body, p + [s], p)
  {
    FirstOfLonger(all, p, s, |body|);
    FirstIsSolid(all, p, |body|);
    var e, q := FirstSolid(all, p, |body|), p + [s];
    assert q[..e] == p[..e];
    assert e < |p| ==> q[e] == p[e];
  }

  lemma {:induction false} StepIsKept(v: View, all: bool, body: Path, b: Hop, a: Hop)
    requires WellFormed(v) && Reaches(v, all, b, a) && body <= b.path && body <= a.path
    ensures StepKept(v, all, body, b, a)
  {
    if b.path == a.path {
      SameBody(v, all, body, b, a);
    } else if GoesDown(v, all, b, a) {
      Downward(v, all, body, b, a);
    } else if GoesUp(v, all, b, a) {
      Upward(v, all, body, b, a);
    } else {
      Onward(v, all, body, b, a);
    }
  }

  /** An edge leads to one inside the call it ends at. */
  ghost predicate GoesDown(v: View, all: bool, b: Hop, a: Hop)
    requires Placed(v, b) && Placed(v, a)
  {
    Within(v, b.path, b.edge.sink.node, a.path)
    && (all || Enters(v, true, b.path, b.edge.sink.node, b, a) || Enters(v, false, b.path, b.edge.sink.node, b, a))
  }

  ghost predicate GoesUp(v: View, all: bool, b: Hop, a: Hop)
    requires Placed(v, b) && Placed(v, a)
  {
    Within(v, a.path, a.edge.driver.node, b.path)
    && (all || Leaves(v, true, a.path, a.edge.driver.node, b, a) || Leaves(v, false, a.path, a.edge.driver.node, b, a))
  }

  lemma {:induction false} SameBody(v: View, all: bool, body: Path, b: Hop, a: Hop)
    requires WellFormed(v) && Reaches(v, all, b, a) && body <= b.path && b.path == a.path
    ensures StepKept(v, all, body, b, a)
  {
    FirstIsSolid(all, b.path, |body|);
    NotWithinItself(v, b.path, b.edge.sink.node);
    NotWithinItself(v, a.path, a.edge.driver.node);
    assert Meets(v, all, b, a);
  }

  lemma {:induction false} CallIsSolid(v: View, all: bool, path: Path, site: nat, inner: Path)
    requires Anchored(v, path) && Within(v, path, site, inner)
    ensures inner != [] && inner == path + [Last(inner)] && Last(inner).graph == BodyAt(v, path) && Last(inner).site == site
    ensures Solid(all, Last(inner)) <==> OneNode(v, all, path, site)
    ensures Last(inner).ordinal.Some? <==> Expanded(v, Sub(v, BodyAt(v, path), site))
    ensures Last(inner).ordinal.Some? ==> Last(inner).ordinal.value == Ord(inner)
    ensures Last(inner).ordinal == None ==> Ord(inner) == 0
  {
    LastOfInner(v, path, site, inner);
  }

  lemma {:induction false} Downward(v: View, all: bool, body: Path, b: Hop, a: Hop)
    requires WellFormed(v) && Followed(v, all, b) && Followed(v, all, a) && body <= b.path && GoesDown(v, all, b, a)
    ensures StepKept(v, all, body, b, a)
  {
    CallIsSolid(v, all, b.path, b.edge.sink.node, a.path);
    Longer(all, body, b.path, Last(a.path));
  }

  lemma {:induction false} Upward(v: View, all: bool, body: Path, b: Hop, a: Hop)
    requires WellFormed(v) && Followed(v, all, b) && Followed(v, all, a) && body <= a.path && GoesUp(v, all, b, a)
    ensures StepKept(v, all, body, b, a)
  {
    CallIsSolid(v, all, a.path, a.edge.driver.node, b.path);
    Longer(all, body, a.path, Last(b.path));
  }

  lemma {:induction false} Onward(v: View, all: bool, body: Path, b: Hop, a: Hop)
    requires WellFormed(v) && Placed(v, b) && Placed(v, a) && body <= b.path && body <= a.path
    requires a.path != [] && Anchored(v, Front(a.path))
    requires Continues(v, Front(a.path), Last(a.path).site, b, a) || Later(v, b.path, a.path)
    ensures StepKept(v, all, body, b, a)
  {
    var outer, site := Front(a.path), Last(a.path).site;
    CallIsSolid(v, all, outer, site, a.path);
    CallIsSolid(v, all, outer, site, b.path);
    BothLonger(all, body, outer, Last(b.path), Last(a.path));
  }

  lemma {:induction false} PrefixOfLonger(body: Path, p: Path, s: Step)
    requires body <= p + [s]
    ensures body <= p || body == p + [s]
  {
    if |body| <= |p| {
      assert body == (p + [s])[..|body|] == p[..|body|];
    }
  }

  lemma {:induction false} BothLonger(all: bool, body: Path, p: Path, s: Step, t: Step)
    requires body <= p + [s] && body <= p + [t] && s != t && NoEarlier(s, t) && s.ordinal.Some?
    ensures !Inside(all, body, p + [s]) && !Inside(all, body, p + [t]) && NotBefore(all, body, p + [s], p + [t])
  {
    PrefixOfLonger(body, p, s);
    PrefixOfLonger(body, p, t);
    assert (p + [s])[|p|] == s && (p + [t])[|p|] == t;
    Longer(all, body, p, s);
    Longer(all, body, p, t);
    FirstOfLonger(all, p, s, |body|);
    FirstOfLonger(all, p, t, |body|);
  }

  // ---------- a cycle of edges, seen in one body ----------

  /** What is still open between the last edge that was kept and the rest of a walk: nothing, or the call it went into. */
  ghost predicate Awaits(v: View, all: bool, body: Path, last: Hop, next: Hop)
  {
    Followed(v, all, last) && Followed(v, all, next) && Inside(all, body, last.path) && body <= next.path
    && if Inside(all, body, next.path) then LeadsTo(v, all, body, last, next)
       else Under(all, body, next.path, last.path, BodyAt(v, last.path), last.edge.sink.node) && OneNode(v, all, last.path, last.edge.sink.node)
  }

  /** A call that was entered, passed through, or left. */
  lemma {:induction false} OneMoreStep(v: View, all: bool, body: Path, last: Hop, b: Hop, a: Hop)
    requires WellFormed(v) && Awaits(v, all, body, last, b) && Reaches(v, all, b, a) && body <= a.path
    ensures Awaits(v, all, body, if Inside(all, body, b.path) then b else last, a)
  {
    StepIsKept(v, all, body, b, a);
  }

  ghost predicate Below(body: Path, w: seq<Hop>)
  {
    forall h :: h in w ==> body <= h.path
  }

  lemma {:induction false} BelowRest(body: Path, w: seq<Hop>)
    requires Below(body, w) && |w| > 1
    ensures Below(body, w[1..]) && body <= w[0].path && body <= w[1].path
  {
    assert w[0] in w && w[1] in w;
  }

  lemma {:induction false} AwaitedNow(v: View, all: bool, body: Path, last: Hop, next: Hop)
    requires Awaits(v, all, body, last, next) && Inside(all, body, next.path)
    ensures Leading(v, all, body)(last, next)
  {
  }

  /** The edges of a walk that lie in the body, with calls passed through as nodes. */
  lemma {:induction false} Kept(v: View, all: bool, body: Path, last: Hop, w: seq<Hop>) returns (c: seq<Hop>)
    requires WellFormed(v) && IsWalk(Reaching(v, all), w) && Below(body, w) && Inside(all, body, Final(w).path)
    requires Awaits(v, all, body, last, w[0])
    ensures IsWalk(Leading(v, all, body), c) && c[0] == last && Final(c) == Final(w) && |c| > 1
    ensures forall h :: h in c ==> h == last || h in w
    decreases |w|
  {
    var more := w;
    if |w| > 1 {
      WalkFrom(Reaching(v, all), w, 1);
      WalkStep(Reaching(v, all), w, 0);
      BelowRest(body, w);
      OneMoreStep(v, all, body, last, w[0], w[1]);
      more := Kept(v, all, body, if Inside(all, body, w[0].path) then w[0] else last, w[1..]);
      assert Final(more) == Final(w);
    } else {
      WalkOne(Leading(v, all, body), w[0]);
    }
    c := more;
    if Inside(all, body, w[0].path) {
      AwaitedNow(v, all, body, last, w[0]);
      WalkCons(Leading(v, all, body), last, more);
      c := [last] + more;
      assert Final(c) == Final(more);
    }
  }

  /** The same call first, in the same ordinal or a later one. */
  ghost function InOrder(all: bool, body: Path): (Hop, Hop) -> bool
  {
    (b: Hop, a: Hop) => NotBefore(all, body, b.path, a.path)
  }

  /** A cycle that stays inside the calls of a body stays inside one ordinal of one of them. */
  lemma {:induction false} OneOrdinal(v: View, all: bool, body: Path, w: seq<Hop>) returns (deeper: Path)
    requires WellFormed(v) && IsCycle(Reaching(v, all), w) && Below(body, w) && forall k :: 0 <= k < |w| ==> !Inside(all, body, w[k].path)
    ensures |body| < |deeper| <= |w[0].path| && body <= w[0].path && deeper <= w[0].path && Below(deeper, w)
  {
    var e := FirstSolid(all, w[0].path, |body|);
    assert w[0] in w;
    deeper := w[0].path[..e + 1];
    InOrderWalk(v, all, body, w);
    forall h | h in w
      ensures deeper <= h.path
    {
      var k :| 0 <= k < |w| && w[k] == h;
      OrderedBoth(all, body, w, k);
      SameOrdinal(all, body, w[0].path, h.path);
    }
  }

  lemma {:induction false} InOrderWalk(v: View, all: bool, body: Path, w: seq<Hop>)
    requires WellFormed(v) && IsWalk(Reaching(v, all), w) && Below(body, w) && forall k :: 0 <= k < |w| ==> !Inside(all, body, w[k].path)
    ensures IsWalk(InOrder(all, body), w)
  {
    forall k | 0 < k < |w|
      ensures Follows(InOrder(all, body), w, k)
    {
      WalkStep(Reaching(v, all), w, k - 1);
      assert w[k - 1] in w && w[k] in w;
      StepIsKept(v, all, body, w[k - 1], w[k]);
    }
  }

  lemma {:induction false} OrderedBoth(all: bool, body: Path, w: seq<Hop>, k: nat)
    requires IsWalk(InOrder(all, body), w) && |w| > 1 && w[0] == Final(w) && k < |w|
    ensures NotBefore(all, body, w[0].path, w[k].path) && NotBefore(all, body, w[k].path, w[0].path)
  {
    OrderedFrom(all, body, w, 0, k);
    OrderedFrom(all, body, w, k, |w| - 1);
  }

  lemma {:induction false} OrderedFrom(all: bool, body: Path, w: seq<Hop>, j: nat, k: nat)
    requires IsWalk(InOrder(all, body), w) && |w| > 1 && w[0] == Final(w) && j <= k < |w|
    ensures NotBefore(all, body, w[j].path, w[k].path)
    decreases k - j
  {
    if j < k {
      OrderedFrom(all, body, w, j, k - 1);
      WalkStep(InOrder(all, body), w, k - 1);
    } else if j + 1 < |w| {
      WalkStep(InOrder(all, body), w, j);
    } else {
      WalkStep(InOrder(all, body), w, j - 1);
    }
  }

  lemma {:induction false} SameOrdinal(all: bool, body: Path, p: Path, q: Path)
    requires NotBefore(all, body, p, q) && NotBefore(all, body, q, p)
    ensures p[..FirstSolid(all, p, |body|) + 1] <= q
  {
    var e := FirstSolid(all, p, |body|);
    assert p[e] == q[e];
    assert p[..e + 1] == p[..e] + [p[e]];
    assert q[..e + 1] == q[..e] + [q[e]];
  }

  lemma {:induction false} CycleAt(v: View, all: bool, body: Path, w: seq<Hop>, k: nat) returns (c: seq<Hop>)
    requires WellFormed(v) && IsCycle(Reaching(v, all), w) && Below(body, w) && k + 1 < |w| && Inside(all, body, w[k].path)
    ensures IsCycle(Leading(v, all, body), c) && forall h :: h in c ==> h in w
  {
    var r := Turn(Reaching(v, all), w, k);
    BelowRest(body, r);
    WalkFrom(Reaching(v, all), r, 1);
    WalkStep(Reaching(v, all), r, 0);
    StepIsKept(v, all, body, r[0], r[1]);
    c := Kept(v, all, body, r[0], r[1..]);
  }

  /** Every cycle of edges in the unrolled view is, in some body, one of stored edges without carries. */
  lemma {:induction false} CycleInBody(v: View, all: bool, body: Path, w: seq<Hop>) returns (at: Path, c: seq<Hop>)
    requires WellFormed(v) && IsCycle(Reaching(v, all), w) && Below(body, w)
    ensures IsCycle(Leading(v, all, at), c) && body <= at && forall h :: h in c ==> h in w
    decreases |w[0].path| - |body|
  {
    if k :| 0 <= k < |w| && Inside(all, body, w[k].path) {
      at := body;
      c := CycleAt(v, all, body, w, if k + 1 < |w| then k else 0);
    } else {
      var deeper := OneOrdinal(v, all, body, w);
      at, c := CycleInBody(v, all, deeper, w);
      BothPrefixes(body, deeper, w[0].path);
    }
  }

  lemma {:induction false} BothPrefixes(p: Path, q: Path, r: Path)
    requires p <= r && q <= r && |p| <= |q|
    ensures p <= q
  {
    assert p == r[..|p|] && q == r[..|q|];
  }

  // ---------- the main results ----------

  /** Every cycle of occurrences, by in-edges and out-edges of the unrolled view, runs through a cycle in one body that uses stored
      edges alone, with carries left out. For all occurrences that are listed, calls that are entered with what is inside them, every
      call is one node of it; for those at which resolutions end, only loops are, and other calls are looked through. */
  lemma {:induction false} UnrollingAddsNoCycle(v: View, all: bool, o: seq<Place>) returns (body: Path, c: seq<Hop>)
    requires WellFormed(v) && IsCycle(Preceding(v, all), o)
    ensures IsCycle(Leading(v, all, body), c)
  {
    var w := CycleOfEdges(v, all, o);
    body, c := CycleInBody(v, all, [], w);
  }

  /** Bodies without such cycles have none when unrolled. */
  lemma {:induction false} AcyclicStays(v: View, all: bool)
    requires WellFormed(v) && forall body, c {:trigger IsCycle(Leading(v, all, body), c)} :: !IsCycle(Leading(v, all, body), c)
    ensures forall o {:trigger IsCycle(Preceding(v, all), o)} :: !IsCycle(Preceding(v, all), o)
  {
    forall o
      ensures !IsCycle(Preceding(v, all), o)
    {
      if IsCycle(Preceding(v, all), o) {
        var body, c := UnrollingAddsNoCycle(v, all, o);
      }
    }
  }

  // ----- by the edges that bodies store

  /** One stored edge of a body meets the next. The self-edges of an unrolled loop are left out. */
  predicate Adjoins(v: View, g: nat, e: Edge, f: Edge)
  {
    g in v.bodies && e in v.bodies[g].edges && f in v.bodies[g].edges && e.sink.node == f.driver.node
    && Unrolled(v, g, e.sink.node) != Some(e.driver.node) && Unrolled(v, g, f.sink.node) != Some(f.driver.node)
  }

  ghost function Adjoining(v: View, g: nat): (Edge, Edge) -> bool
  {
    (e, f) => Adjoins(v, g, e, f)
  }

  /** No body has a cycle of stored edges, the carries of unrolled loops left out. */
  ghost predicate FlatAcyclic(v: View)
  {
    forall g, c {:trigger IsCycle(Adjoining(v, g), c)} :: !IsCycle(Adjoining(v, g), c)
  }

  lemma {:induction false} OnlyBody(body: Path, path: Path)
    requires Inside(true, body, path)
    ensures path == body
  {
  }

  lemma {:induction false} LeadingAdjoins(v: View, body: Path, b: Hop, a: Hop)
    requires WellFormed(v) && LeadsTo(v, true, body, b, a)
    ensures Anchored(v, body) && Adjoins(v, BodyAt(v, body), b.edge, a.edge)
  {
    OnlyBody(body, b.path);
    OnlyBody(body, a.path);
    NotWithinItself(v, body, b.edge.sink.node);
    NotWithinItself(v, body, a.edge.driver.node);
  }

  function EdgesOf(c: seq<Hop>): (r: seq<Edge>)
    ensures |r| == |c| && forall k :: 0 <= k < |r| ==> r[k] == c[k].edge
  {
    seq(|c|, k requires 0 <= k < |c| => c[k].edge)
  }

  lemma {:induction false} LeadingIsFlat(v: View, body: Path, c: seq<Hop>)
    requires WellFormed(v) && IsCycle(Leading(v, true, body), c)
    ensures Anchored(v, body) && IsCycle(Adjoining(v, BodyAt(v, body)), EdgesOf(c))
  {
    WalkStep(Leading(v, true, body), c, 0);
    assert Leading(v, true, body)(c[0], c[1]);
    LeadingAdjoins(v, body, c[0], c[1]);
    FlatWalk(v, body, c);
    SameEnds(c, EdgesOf(c));
  }

  lemma {:induction false} SameEnds(c: seq<Hop>, e: seq<Edge>)
    requires |c| > 1 && c[0] == c[|c| - 1] && e == EdgesOf(c)
    ensures |e| > 1 && e[0] == e[|e| - 1]
  {
  }

  lemma {:induction false} FlatWalk(v: View, body: Path, c: seq<Hop>)
    requires WellFormed(v) && IsWalk(Leading(v, true, body), c) && Anchored(v, body)
    ensures IsWalk(Adjoining(v, BodyAt(v, body)), EdgesOf(c))
  {
    forall k | 0 < k < |EdgesOf(c)|
      ensures Follows(Adjoining(v, BodyAt(v, body)), EdgesOf(c), k)
    {
      FlatStep(v, body, c, k);
    }
  }

  lemma {:induction false} FlatStep(v: View, body: Path, c: seq<Hop>, k: nat)
    requires WellFormed(v) && IsWalk(Leading(v, true, body), c) && 0 < k < |c| && Anchored(v, body)
    ensures Follows(Adjoining(v, BodyAt(v, body)), EdgesOf(c), k)
  {
    WalkStep(Leading(v, true, body), c, k - 1);
    LeadingAdjoins(v, body, c[k - 1], c[k]);
  }

  /** When no body has a cycle of stored edges, carries left out, no cycle runs through the occurrences that are listed. */
  lemma {:induction false} FlatStaysAcyclic(v: View)
    requires WellFormed(v) && FlatAcyclic(v)
    ensures forall o {:trigger IsCycle(Preceding(v, true), o)} :: !IsCycle(Preceding(v, true), o)
  {
    forall o
      ensures !IsCycle(Preceding(v, true), o)
    {
      if IsCycle(Preceding(v, true), o) {
        var body, c := UnrollingAddsNoCycle(v, true, o);
        LeadingIsFlat(v, body, c);
      }
    }
  }

  // ---------- why a loop is one node ----------

  /** One stored edge leads to the next without a carry when the bodies of unrolled loops are looked through as well. */
  ghost predicate LooksThrough(v: View, b: Hop, a: Hop)
  {
    Placed(v, b) && Placed(v, a)
    && (Crosses(v, true, b, a) || Crosses(v, false, b, a) || (Meets(v, false, b, a) && !Entered(v, b.path, b.edge.sink.node)))
  }

  ghost function LookingThrough(v: View): (Hop, Hop) -> bool
  {
    (b, a) => LooksThrough(v, b, a)
  }

  // A loop of two ordinals. In its body node 16 reads the input from outside and drives the carry, and node 20 reads the
  // carry and drives the output. Outside, node 24 starts the carry, and node 20 reads the output and drives the input.
  const START := Edge(End(24, 0), End(16, 2))
  const INTO := Edge(End(20, 0), End(16, 3))
  const OUTOF := Edge(End(16, 0), End(20, 1))
  const NEXT := Edge(End(16, 1), End(16, 2))
  const GIVEN := Edge(End(INPUT, 3), End(16, 0))
  const PASSED := Edge(End(16, 1), End(OUTPUT, 1))
  const TAKEN := Edge(End(INPUT, 2), End(20, 0))
  const SHOWN := Edge(End(20, 1), End(OUTPUT, 0))

  function Crossed(): View
  {
    View(1, map[1 := Body([16, 20, 24], map[16 := Instance(2, Some(Loop(2, None, None, None)))], [START, INTO, OUTOF, NEXT]),
                2 := Body([16, 20], map[], [GIVEN, PASSED, TAKEN, SHOWN])],
         true, (p: Path, g: nat, n: nat) => Descend)
  }

  /** Along edges that need no carry, this number grows. */
  function Stage(e: Edge): nat
  {
    if e == START then 0 else if e == TAKEN then 1 else if e == SHOWN then 2 else if e == OUTOF then 3 else if e == INTO then 4
    else if e == GIVEN then 5 else 6
  }

  /** The facts about this view that matter. */
  lemma {:induction false} CrossedIs(v: View)
    requires v == Crossed()
    ensures v.root == 1 && v.expand && v.bodies.Keys == {1, 2}
    ensures v.bodies[1].edges == [START, INTO, OUTOF, NEXT] && v.bodies[2].edges == [GIVEN, PASSED, TAKEN, SHOWN]
    ensures forall g, site :: IsSub(v, g, site) <==> g == 1 && site == 16
    ensures IsSub(v, 1, 16) && Sub(v, 1, 16) == Instance(2, Some(Loop(2, None, None, None))) && forall p, g, n :: v.verdict(p, g, n) == Descend
  {
  }

  lemma {:induction false} CrossedFits(v: View)
    requires v == Crossed()
    ensures WellFormed(v)
  {
    CrossedIs(v);
    CrossedLoopFits(v, v.bodies[1].edges);
  }

  lemma {:induction false} CrossedLoopFits(v: View, edges: seq<Edge>)
    requires IsSub(v, 1, 16) && Sub(v, 1, 16) == Instance(2, Some(Loop(2, None, None, None))) && v.bodies[1].edges == edges
    requires edges == [START, INTO, OUTOF, NEXT]
    ensures LoopFits(v, 1, 16)
  {
  }

  /** Every edge that is followed, and where it is. */
  lemma {:induction false} CrossedHops(v: View, h: Hop)
    requires v == Crossed() && Placed(v, h)
    ensures if BodyAt(v, h.path) == 1 then h.edge == START || h.edge == INTO || h.edge == OUTOF
            else BodyAt(v, h.path) == 2 && (h.edge == GIVEN || h.edge == PASSED || h.edge == TAKEN || h.edge == SHOWN)
  {
    CrossedIs(v);
  }

  lemma {:induction false} StageGrows(v: View, b: Hop, a: Hop)
    requires v == Crossed() && LooksThrough(v, b, a)
    ensures Stage(b.edge) < Stage(a.edge)
  {
    CrossedIs(v);
    CrossedHops(v, b);
    CrossedHops(v, a);
    if Meets(v, false, b, a) && !Entered(v, b.path, b.edge.sink.node) {
      assert b.path == a.path;
    } else if Enters(v, true, b.path, b.edge.sink.node, b, a) || Enters(v, false, b.path, b.edge.sink.node, b, a) {
      assert IsSub(v, BodyAt(v, b.path), b.edge.sink.node);
    } else {
      assert IsSub(v, BodyAt(v, a.path), a.edge.driver.node);
    }
  }

  /** No cycle of stored edges without carries, even when the body of the loop is looked through. */
  lemma {:induction false} NoneLookingThrough(v: View, w: seq<Hop>)
    requires v == Crossed()
    ensures !IsCycle(LookingThrough(v), w)
  {
    forall b, a | LookingThrough(v)(b, a)
      ensures Stage(b.edge) < Stage(a.edge)
    {
      StageGrows(v, b, a);
    }
    if IsCycle(LookingThrough(v), w) {
      RankAlong(LookingThrough(v), (h: Hop) => Stage(h.edge), w, |w| - 1);
    }
  }

  /** The path into one ordinal. */
  function InLoop(ordinal: nat): Path
  {
    [Step(1, 16, Some(ordinal))]
  }

  lemma {:induction false} CrossedPaths(v: View, ordinal: nat)
    requires v == Crossed() && ordinal < 2
    ensures Open(v, []) && Anchored(v, []) && BodyAt(v, []) == 1 && Entered(v, [], 16)
    ensures Open(v, InLoop(ordinal)) && Anchored(v, InLoop(ordinal)) && BodyAt(v, InLoop(ordinal)) == 2
    ensures Within(v, [], 16, InLoop(ordinal)) && Ord(InLoop(ordinal)) == ordinal
  {
    CrossedIs(v);
    assert Front(InLoop(ordinal)) == [];
    assert [] + [Step(1, 16, Some(ordinal))] == InLoop(ordinal);
  }

  /** A pin of an ordinary node at a path. */
  function PinAt(v: View, path: Path, end: End, driver: bool): Pin
    requires Anchored(v, path)
  {
    Pin(BodyAt(v, path), end, driver, path, path)
  }

  lemma {:induction false} OrdinaryPin(v: View, path: Path, end: End, driver: bool)
    requires WellFormed(v) && Open(v, path) && Anchored(v, path) && !IsSub(v, BodyAt(v, path), end.node) && end.node != INPUT && end.node != OUTPUT
    ensures Visible(v, PinAt(v, path, end, driver))
  {
  }

  /** Two edges one of which feeds the other connect the ordinary nodes at their ends. */
  lemma {:induction false} TwoHops(v: View, b: Hop, a: Hop)
    requires WellFormed(v) && Placed(v, b) && Placed(v, a) && Feeds(v, true, b, a)
    requires !IsSub(v, BodyAt(v, b.path), b.edge.driver.node) && b.edge.driver.node != INPUT && b.edge.driver.node != OUTPUT
    requires !IsSub(v, BodyAt(v, a.path), a.edge.sink.node) && a.edge.sink.node != INPUT && a.edge.sink.node != OUTPUT
    ensures Precedes(v, false, Place(b.path, b.edge.driver.node, b.path), Place(a.path, a.edge.sink.node, a.path))
  {
    var x, y := PinAt(v, b.path, b.edge.driver, true), PinAt(v, a.path, a.edge.sink, false);
    OrdinaryPin(v, b.path, b.edge.driver, true);
    OrdinaryPin(v, a.path, a.edge.sink, false);
    ListedFits(v, x);
    ListedFits(v, y);
    TwoHopChain(v, b, a, x, y);
    assert !ThroughBody(v, y);
    TwoPins(v, x, y);
  }

  lemma {:induction false} TwoPins(v: View, x: Pin, y: Pin)
    requires WellFormed(v) && Visible(v, x) && Visible(v, y) && x.driver && !y.driver && PinFits(v, x) && PinFits(v, y)
    requires !ThroughBody(v, y) && exists c :: AnsweredBy(v, c, x, y, 0)
    ensures Precedes(v, false, PlaceOf(x), PlaceOf(y))
  {
    var c :| AnsweredBy(v, c, x, y, 0);
    assert Spent(ThroughBody(v, y)) == 0;
    InsOfVisible(v, x, y);
    assert Feeding(v, false, x, y);
  }

  lemma {:induction false} TwoHopChain(v: View, b: Hop, a: Hop, x: Pin, y: Pin)
    requires Placed(v, b) && Placed(v, a) && Feeds(v, true, b, a) && EndsAt(v, a, y) && StartsAt(v, b, x)
    ensures exists c :: AnsweredBy(v, c, x, y, 0)
  {
    var c := [a, b];
    assert Chain(v, true, c) && |c| + 0 <= LONGEST && c[|c| - 1] == b;
    assert AnsweredBy(v, c, x, y, 0);
  }

  lemma {:induction false} CrossedPlaced(v: View, path: Path, e: Edge)
    requires v == Crossed() && (path == [] || path == InLoop(0) || path == InLoop(1))
    requires if path == [] then e == INTO || e == OUTOF else e == GIVEN || e == PASSED || e == TAKEN || e == SHOWN
    ensures Placed(v, Hop(path, e))
  {
    CrossedIs(v);
    CrossedPaths(v, if path == [] then 0 else Ord(path));
  }

  /** Yet unrolled there is one: from the outer node into the first ordinal, by the carry into the second, and back. If the body of the
      loop were looked through, rather than taken for one node, unrolling would add a cycle. */
  lemma {:induction false} LookingThroughFails()
    ensures
      var v := Crossed();
      WellFormed(v) && (forall w {:trigger IsCycle(LookingThrough(v), w)} :: !IsCycle(LookingThrough(v), w))
      && IsCycle(Preceding(v, false), [Place([], 20, []), Place(InLoop(0), 16, InLoop(0)), Place(InLoop(1), 20, InLoop(1)), Place([], 20, [])])
  {
    var v := Crossed();
    CrossedFits(v);
    forall w
      ensures !IsCycle(LookingThrough(v), w)
    {
      NoneLookingThrough(v, w);
    }
    IntoFirst(v);
    IntoSecond(v);
    OutOfSecond(v);
    FourPlaces(Preceding(v, false), Place([], 20, []), Place(InLoop(0), 16, InLoop(0)), Place(InLoop(1), 20, InLoop(1)));
  }

  lemma {:induction false} FourPlaces(step: (Place, Place) -> bool, x: Place, y: Place, z: Place)
    requires step(x, y) && step(y, z) && step(z, x)
    ensures IsCycle(step, [x, y, z, x])
  {
    WalkOne(step, x);
    WalkCons(step, z, [x]);
    WalkCons(step, y, [z] + [x]);
    WalkCons(step, x, [y] + ([z] + [x]));
    assert [x] + ([y] + ([z] + [x])) == [x, y, z, x];
  }

  lemma {:induction false} IntoFirst(v: View)
    requires v == Crossed()
    ensures Precedes(v, false, Place([], 20, []), Place(InLoop(0), 16, InLoop(0)))
  {
    CrossedIs(v);
    CrossedFits(v);
    CrossedPaths(v, 0);
    CrossedPlaced(v, [], INTO);
    CrossedPlaced(v, InLoop(0), GIVEN);
    TwoHops(v, Hop([], INTO), Hop(InLoop(0), GIVEN));
  }

  lemma {:induction false} IntoSecond(v: View)
    requires v == Crossed()
    ensures Precedes(v, false, Place(InLoop(0), 16, InLoop(0)), Place(InLoop(1), 20, InLoop(1)))
  {
    CrossedIs(v);
    CrossedFits(v);
    CrossedPaths(v, 0);
    CrossedPaths(v, 1);
    CrossedPlaced(v, InLoop(0), PASSED);
    CrossedPlaced(v, InLoop(1), TAKEN);
    assert NEXT in Carries(v, 1, 16);
    assert Continues(v, [], 16, Hop(InLoop(0), PASSED), Hop(InLoop(1), TAKEN));
    FeedsSomewhere(v, true, [], 16, Hop(InLoop(0), PASSED), Hop(InLoop(1), TAKEN));
    TwoHops(v, Hop(InLoop(0), PASSED), Hop(InLoop(1), TAKEN));
  }

  lemma {:induction false} OutOfSecond(v: View)
    requires v == Crossed()
    ensures Precedes(v, false, Place(InLoop(1), 20, InLoop(1)), Place([], 20, []))
  {
    CrossedIs(v);
    CrossedFits(v);
    CrossedPaths(v, 1);
    CrossedPlaced(v, InLoop(1), SHOWN);
    CrossedPlaced(v, [], OUTOF);
    TwoHops(v, Hop(InLoop(1), SHOWN), Hop([], OUTOF));
  }

  // ---------- why a call is one node ----------

  // A call with two ports that are not connected inside. Outside, node 24 drives the one and reads the other.
  const FEED := Edge(End(24, 0), End(16, 0))
  const BACK := Edge(End(16, 1), End(24, 1))

  function Called(): View
  {
    View(1, map[1 := Body([16, 24], map[16 := Instance(2, None)], [FEED, BACK]), 2 := Body([], map[], [])], true,
         (p: Path, g: nat, n: nat) => Descend)
  }

  lemma {:induction false} CalledIs(v: View)
    requires v == Called()
    ensures v.root == 1 && v.bodies.Keys == {1, 2} && v.bodies[1].edges == [FEED, BACK] && v.bodies[2].edges == []
    ensures forall g, site :: IsSub(v, g, site) <==> g == 1 && site == 16
    ensures IsSub(v, 1, 16) && Sub(v, 1, 16) == Instance(2, None) && forall p, g, n :: v.verdict(p, g, n) == Descend
  {
  }

  /** The call, as it occurs. */
  function CallPath(): Path
  {
    [Step(1, 16, None)]
  }

  lemma {:induction false} CalledFits(v: View)
    requires v == Called()
    ensures WellFormed(v) && Open(v, []) && Anchored(v, []) && BodyAt(v, []) == 1
    ensures Placed(v, Hop([], FEED)) && Placed(v, Hop([], BACK))
    ensures Listed(v, PinAt(v, [], End(24, 0), true)) && Listed(v, PinAt(v, [], End(24, 1), false))
    ensures Listed(v, CallPin(Step(1, 16, None), 0, false, [])) && Listed(v, CallPin(Step(1, 16, None), 1, true, []))
  {
    CalledIs(v);
    OrdinaryPin(v, [], End(24, 0), true);
    OrdinaryPin(v, [], End(24, 1), false);
    var k, d := CallPin(Step(1, 16, None), 0, false, []), CallPin(Step(1, 16, None), 1, true, []);
    assert k.identity == k.container + [CallAt(v, k, 0)] && d.identity == d.container + [CallAt(v, d, 0)];
  }

  /** Along edges that meet, this number grows. */
  function CallStage(e: Edge): nat
  {
    if e == BACK then 0 else 1
  }

  lemma {:induction false} CallStageGrows(v: View, body: Path, b: Hop, a: Hop)
    requires v == Called() && LeadsTo(v, false, body, b, a)
    ensures CallStage(b.edge) < CallStage(a.edge)
  {
    CalledIs(v);
    assert BodyAt(v, b.path) == 1 && BodyAt(v, a.path) == 1;
    LastCalled(v, b.path);
    LastCalled(v, a.path);
    assert Entered(v, b.path, 16) && !Expanded(v, Sub(v, 1, 16));
  }

  lemma {:induction false} LastCalled(v: View, path: Path)
    requires v == Called() && Open(v, path) && Anchored(v, path) && BodyAt(v, path) == 1
    ensures path == []
  {
    CalledIs(v);
    if path != [] {
      OpenStep(v, path);
    }
  }

  /** If calls that are entered were looked through, rather than taken for nodes, bodies without cycles could have one through the
      occurrences that are listed: those of the call itself are driven, and drive, without a connection inside. */
  lemma {:induction false} CallsLookedThroughFail(v: View)
    requires v == Called()
    ensures WellFormed(v) && forall body, c {:trigger IsCycle(Leading(v, false, body), c)} :: !IsCycle(Leading(v, false, body), c)
    ensures IsCycle(Preceding(v, true), [Place([], 24, []), Place([], 16, CallPath()), Place([], 24, [])])
  {
    CalledFits(v);
    forall body, c
      ensures !IsCycle(Leading(v, false, body), c)
    {
      NoneLeading(v, body, c);
    }
    IntoCall(v);
    OutOfCall(v);
    TwoPlaces(Preceding(v, true), Place([], 24, []), Place([], 16, CallPath()));
  }

  lemma {:induction false} NoneLeading(v: View, body: Path, w: seq<Hop>)
    requires v == Called()
    ensures !IsCycle(Leading(v, false, body), w)
  {
    forall b, a | Leading(v, false, body)(b, a)
      ensures CallStage(b.edge) < CallStage(a.edge)
    {
      CallStageGrows(v, body, b, a);
    }
    if IsCycle(Leading(v, false, body), w) {
      RankAlong(Leading(v, false, body), (h: Hop) => CallStage(h.edge), w, |w| - 1);
    }
  }

  lemma {:induction false} TwoPlaces(step: (Place, Place) -> bool, x: Place, y: Place)
    requires step(x, y) && step(y, x)
    ensures IsCycle(step, [x, y, x])
  {
    WalkOne(step, x);
    WalkCons(step, y, [x]);
    WalkCons(step, x, [y] + [x]);
    assert [x] + ([y] + [x]) == [x, y, x];
  }

  lemma {:induction false} IntoCall(v: View)
    requires v == Called()
    ensures Precedes(v, true, Place([], 24, []), Place([], 16, CallPath()))
  {
    CalledIs(v);
    CalledFits(v);
    var a, b, h := PinAt(v, [], End(24, 0), true), CallPin(Step(1, 16, None), 0, false, []), Hop([], FEED);
    ListedFits(v, a);
    InsAreExact(v, a, b);
    assert !OfOrdinal(v, b) && StoredIn(v, b, h) && FirstIn(v, b, h);
    assert StartsAt(v, h, a);
    FedHere(v, h, 0, a);
    assert Spent(ThroughBody(v, b)) == 0;
    assert Feeding(v, true, a, b);
  }

  lemma {:induction false} OutOfCall(v: View)
    requires v == Called()
    ensures Precedes(v, true, Place([], 16, CallPath()), Place([], 24, []))
  {
    CalledIs(v);
    CalledFits(v);
    var a, b, h := CallPin(Step(1, 16, None), 1, true, []), PinAt(v, [], End(24, 1), false), Hop([], BACK);
    ListedFits(v, b);
    OutsAreExact(v, a, b);
    assert !OfOrdinal(v, a) && StoredOut(v, a, h) && FirstOut(v, a, h);
    assert EndsAt(v, h, b);
    ReadHere(v, h, 0, b);
    assert Feeding(v, true, a, b);
  }
}
