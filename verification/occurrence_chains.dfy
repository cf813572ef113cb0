/**
 What the two resolvers of a hierarchy find, as relations. Each follows chains of stored edges that cross
 the boundaries of calls, by rules of its own, and beside them the step from one ordinal of a loop to the next.
 */
module OccurrenceChains {
  import opened OccurrenceLibrary
  import opened OccurrenceEdges
  import opened Options

  // ---------- well-formed libraries ----------

  ghost predicate WellFormed(v: View)
  {
    v.root in v.bodies
    && (forall g :: g in v.bodies ==> INPUT !in v.bodies[g].subs && OUTPUT !in v.bodies[g].subs)
    && forall g, site :: IsSub(v, g, site) && Expanded(v, Sub(v, g, site)) ==> LoopFits(v, g, site)
  }

  /** An unrolled loop as validation demands it: at most one carry for an input, roles that do not overlap, and
      ports that are either inputs or outputs. */
  ghost predicate LoopFits(v: View, g: nat, site: nat)
    requires IsSub(v, g, site) && Sub(v, g, site).loop.Some?
  {
    var loop := Sub(v, g, site).loop.value;
    var carries := Carries(v, g, site);
    (forall e, f :: e in carries && f in carries && e.sink == f.sink ==> e == f)
    && (forall e :: e in carries ==> Some(e.sink.port) != loop.index && Some(e.sink.port) != loop.activation)
    && (loop.index.Some? ==> loop.index != loop.activation)
    && (loop.nextActive.Some? ==> loop.activation.Some?)
    && forall e, f :: e in v.bodies[g].edges && f in v.bodies[g].edges && e.driver.node == site ==> e.driver != f.sink && Some(e.driver.port) != loop.activation
  }

  /** The graph whose body is at a path. */
  function BodyAt(v: View, path: Path): nat
    requires Anchored(v, path)
  {
    if path == [] then v.root else Sub(v, Last(path).graph, Last(path).site).target
  }

  /** The ordinal at the end of a path. */
  function Ord(path: Path): nat
  {
    if path != [] && Last(path).ordinal.Some? then Last(path).ordinal.value else 0
  }

  /** The site is descended into. */
  ghost predicate Entered(v: View, path: Path, site: nat)
    requires Anchored(v, path)
  {
    var g := BodyAt(v, path);
    IsSub(v, g, site) && v.verdict(path, g, site) == Descend && HasBody(v, g, site) && Ordinals(v, Sub(v, g, site)) > 0
  }

  function Inner(v: View, path: Path, site: nat, ordinal: nat): Path
    requires Anchored(v, path) && IsSub(v, BodyAt(v, path), site)
  {
    path + [Call(v, BodyAt(v, path), site, Sub(v, BodyAt(v, path), site), ordinal)]
  }

  /** The inner path leads into one of the ordinals of a site. */
  ghost predicate Within(v: View, path: Path, site: nat, inner: Path)
    requires Anchored(v, path)
  {
    Entered(v, path, site) && Ord(inner) < Ordinals(v, Sub(v, BodyAt(v, path), site)) && inner == Inner(v, path, site, Ord(inner))
  }

  /** Every call on the path is descended into. */
  ghost predicate Open(v: View, path: Path)
    decreases |path|
  {
    v.root in v.bodies
    && (path != [] ==> Open(v, Front(path)) && Anchored(v, Front(path)) && Within(v, Front(path), Last(path).site, path))
  }

  lemma {:induction false} OpenIsAnchored(v: View, path: Path)
    requires Open(v, path)
    ensures Anchored(v, path) && BodyAt(v, path) in v.bodies
    decreases |path|
  {
    if path != [] {
      OpenIsAnchored(v, Front(path));
      LastOfInner(v, Front(path), Last(path).site, path);
      forall k | 0 <= k < |path|
        ensures IsSub(v, path[k].graph, path[k].site)
      {
        if k < |path| - 1 {
          assert Front(path)[k] == path[k];
        }
      }
    }
  }

  lemma {:induction false} LastOfInner(v: View, path: Path, site: nat, inner: Path)
    requires Anchored(v, path) && Within(v, path, site, inner)
    ensures inner != [] && Front(inner) == path && Last(inner).site == site && Last(inner).graph == BodyAt(v, path)
    ensures Last(inner) == Call(v, BodyAt(v, path), site, Sub(v, BodyAt(v, path), site), Ord(inner))
  {
  }

  lemma {:induction false} InnerIsWithin(v: View, path: Path, site: nat, ordinal: nat)
    requires Anchored(v, path) && Entered(v, path, site) && ordinal < Ordinals(v, Sub(v, BodyAt(v, path), site))
    ensures Ord(Inner(v, path, site, ordinal)) == ordinal && Within(v, path, site, Inner(v, path, site, ordinal))
  {
    var inner := Inner(v, path, site, ordinal);
    assert Last(inner) == Call(v, BodyAt(v, path), site, Sub(v, BodyAt(v, path), site), ordinal);
  }

  lemma {:induction false} WithinIsOpen(v: View, path: Path, site: nat, inner: Path)
    requires Open(v, path) && Anchored(v, path) && Within(v, path, site, inner)
    ensures Open(v, inner) && Anchored(v, inner) && BodyAt(v, inner) == Sub(v, BodyAt(v, path), site).target
  {
    LastOfInner(v, path, site, inner);
    OpenIsAnchored(v, inner);
  }

  lemma {:induction false} OpenStep(v: View, path: Path)
    requires Open(v, path) && path != []
    ensures Anchored(v, path) && Anchored(v, Front(path)) && Open(v, Front(path)) && Within(v, Front(path), Last(path).site, path)
    ensures BodyAt(v, Front(path)) in v.bodies && Last(path).graph == BodyAt(v, Front(path))
    ensures BodyAt(v, path) == Sub(v, Last(path).graph, Last(path).site).target
  {
    OpenIsAnchored(v, path);
    OpenIsAnchored(v, Front(path));
    LastOfInner(v, Front(path), Last(path).site, path);
  }

  // ---------- listed pins ----------

  /** A loop that is descended into without being unrolled. */
  ghost predicate Grouped(v: View, path: Path, site: nat)
    requires Anchored(v, path)
  {
    Entered(v, path, site) && Sub(v, BodyAt(v, path), site).loop.Some? && !v.expand
  }

  /** The port of the body of an ordinal at which its index is supplied. */
  ghost predicate TakesIndex(v: View, path: Path, port: nat)
    requires Anchored(v, path)
  {
    path != [] && var i := Sub(v, Last(path).graph, Last(path).site); Expanded(v, i) && i.loop.value.index == Some(port)
  }

  /** A pin of a node that occurs: of an ordinary node, of every call that is not pruned, and of the boundaries that stay. */
  ghost predicate Listed(v: View, p: Pin)
  {
    Open(v, p.container) && Anchored(v, p.container) && Anchored(v, p.identity) && p.graph == BodyAt(v, p.container)
    && if IsSub(v, p.graph, p.end.node) then CallListed(v, p)
       else p.identity == p.container
            && (p.end.node == INPUT && p.driver ==> p.container == [] || TakesIndex(v, p.container, p.end.port))
            && (p.end.node == OUTPUT && !p.driver ==> p.container == [])
  }

  ghost predicate CallListed(v: View, p: Pin)
    requires IsSub(v, p.graph, p.end.node)
  {
    v.verdict(p.container, p.graph, p.end.node) != Prune
    && exists ordinal :: 0 <= ordinal < Ordinals(v, Sub(v, p.graph, p.end.node)) && p.identity == p.container + [CallAt(v, p, ordinal)]
  }

  /** A listed pin at which resolutions end: not one of a call that is entered, unless as an input of a grouped loop. */
  ghost predicate Visible(v: View, p: Pin)
  {
    Listed(v, p) && (Entered(v, p.container, p.end.node) ==> !p.driver && Grouped(v, p.container, p.end.node))
  }

  function CallAt(v: View, p: Pin, ordinal: nat): Step
    requires IsSub(v, p.graph, p.end.node)
  {
    Call(v, p.graph, p.end.node, Sub(v, p.graph, p.end.node), ordinal)
  }

  // ---------- chains of stored edges ----------

  /** A stored edge in the body at a path. */
  datatype Hop = Hop(path: Path, edge: Edge)

  /** An edge that is followed. The self-edges of an unrolled loop are not. */
  ghost predicate Placed(v: View, h: Hop)
  {
    Open(v, h.path) && Anchored(v, h.path) && BodyAt(v, h.path) in v.bodies
    && h.edge in v.bodies[BodyAt(v, h.path)].edges && Unrolled(v, BodyAt(v, h.path), h.edge.sink.node) != Some(h.edge.driver.node)
  }

  /** An edge from an ordinary call that is entered to itself. */
  ghost predicate Through(v: View, h: Hop)
    requires Anchored(v, h.path)
  {
    h.edge.driver.node == h.edge.sink.node && Entered(v, h.path, h.edge.sink.node) && !Grouped(v, h.path, h.edge.sink.node)
  }

  /** Edge `b` outside leads to edge `a` inside. Towards the drivers, an edge inside is fed from outside unless the port takes the
      index, or is fed by the ordinal before. Towards the sinks, a grouped loop is not entered. */
  ghost predicate Enters(v: View, drivers: bool, path: Path, site: nat, b: Hop, a: Hop)
    requires Anchored(v, path)
  {
    b.path == path && b.edge.sink.node == site && Within(v, path, site, a.path) && a.edge.driver == End(INPUT, b.edge.sink.port)
    && var g := BodyAt(v, path);
       var i := Sub(v, g, site);
       if drivers then
         b.edge.driver.node != site
         && (Expanded(v, i) ==> i.loop.value.index != Some(b.edge.sink.port) && (Ord(a.path) == 0 || !Recurrent(v, g, b.edge.sink)))
       else (v.expand || i.loop == None) && Ord(a.path) < Reading(v, g, b.edge.sink)
  }

  /** Edge `b` inside leads to edge `a` outside: towards the drivers, from the last ordinal; towards the sinks, from every one. */
  ghost predicate Leaves(v: View, drivers: bool, path: Path, site: nat, b: Hop, a: Hop)
    requires Anchored(v, path)
  {
    a.path == path && a.edge.driver.node == site && Within(v, path, site, b.path) && b.edge.sink == End(OUTPUT, a.edge.driver.port)
    && if drivers then Ord(b.path) + 1 == Ordinals(v, Sub(v, BodyAt(v, path), site)) else a.edge.sink.node != site
  }

  /** What an input of one ordinal reads: a carry, or the activation. */
  ghost predicate NextReads(v: View, g: nat, site: nat, output: nat, input: nat)
    requires IsSub(v, g, site) && Sub(v, g, site).loop.Some?
  {
    var loop := Sub(v, g, site).loop.value;
    Edge(End(site, output), End(site, input)) in Carries(v, g, site) || (loop.nextActive == Some(output) && loop.activation == Some(input))
  }

  /** Edge `b` inside one ordinal leads to edge `a` inside the next. */
  ghost predicate Continues(v: View, path: Path, site: nat, b: Hop, a: Hop)
    requires Anchored(v, path)
  {
    Within(v, path, site, a.path) && Within(v, path, site, b.path) && Expanded(v, Sub(v, BodyAt(v, path), site)) && Ord(a.path) == Ord(b.path) + 1
    && a.edge.driver.node == INPUT && b.edge.sink.node == OUTPUT && NextReads(v, BodyAt(v, path), site, b.edge.sink.port, a.edge.driver.port)
  }

  /** Edge `b` leads to edge `a` past a loop without ordinals, by a carry. */
  ghost predicate Bypasses(v: View, path: Path, site: nat, b: Hop, a: Hop)
    requires Anchored(v, path)
  {
    var g := BodyAt(v, path);
    b.path == path && a.path == path && a.edge.driver.node == site && b.edge.sink.node == site && b.edge.driver.node != site
    && IsSub(v, g, site) && v.verdict(path, g, site) != Prune && Ordinals(v, Sub(v, g, site)) == 0
    && CarryOutOf(Carries(v, g, site), a.edge.driver.port) == Some(b.edge.sink.port)
  }

  /** Edge `b` feeds edge `a` across the boundary of a site. */
  ghost predicate FeedsAt(v: View, drivers: bool, path: Path, site: nat, b: Hop, a: Hop)
    requires Anchored(v, path)
  {
    Enters(v, drivers, path, site, b, a) || Leaves(v, drivers, path, site, b, a)
    || (drivers && (Continues(v, path, site, b, a) || Bypasses(v, path, site, b, a)))
  }

  /** Edge `b` feeds edge `a` across some boundary. */
  ghost predicate Feeds(v: View, drivers: bool, b: Hop, a: Hop)
    requires Placed(v, a) && Placed(v, b)
  {
    Enters(v, drivers, b.path, b.edge.sink.node, b, a) || Leaves(v, drivers, a.path, a.edge.driver.node, b, a)
    || (drivers && (Bypasses(v, a.path, a.edge.driver.node, b, a) || (a.path != [] && Continues(v, Front(a.path), Last(a.path).site, b, a))))
  }

  lemma {:induction false} FeedsSomewhere(v: View, drivers: bool, path: Path, site: nat, b: Hop, a: Hop)
    requires Anchored(v, path) && Placed(v, a) && Placed(v, b) && FeedsAt(v, drivers, path, site, b, a)
    ensures Feeds(v, drivers, b, a)
  {
    if drivers && Continues(v, path, site, b, a) {
      LastOfInner(v, path, site, a.path);
    }
  }

  /** The site whose boundary is crossed. */
  lemma {:induction false} FeedsWhere(v: View, drivers: bool, b: Hop, a: Hop) returns (path: Path, site: nat)
    requires Placed(v, a) && Placed(v, b) && Feeds(v, drivers, b, a)
    ensures Anchored(v, path) && Open(v, path) && IsSub(v, BodyAt(v, path), site) && FeedsAt(v, drivers, path, site, b, a)
  {
    if Enters(v, drivers, b.path, b.edge.sink.node, b, a) {
      path, site := b.path, b.edge.sink.node;
    } else if Leaves(v, drivers, a.path, a.edge.driver.node, b, a) || Bypasses(v, a.path, a.edge.driver.node, b, a) {
      path, site := a.path, a.edge.driver.node;
    } else {
      path, site := Front(a.path), Last(a.path).site;
    }
  }

  /** The driver end of an edge is this pin; of a loop, the last ordinal drives. */
  ghost predicate StartsAt(v: View, h: Hop, p: Pin)
    requires Placed(v, h)
  {
    Visible(v, p) && p.driver && p.container == h.path && p.end == h.edge.driver
    && (IsSub(v, p.graph, p.end.node) ==>
          Ordinals(v, Sub(v, p.graph, p.end.node)) > 0
          && p.identity == p.container + [CallAt(v, p, Ordinals(v, Sub(v, p.graph, p.end.node)) - 1)])
  }

  /** The sink end of an edge is this pin; of a loop, some ordinals read it. */
  ghost predicate EndsAt(v: View, h: Hop, p: Pin)
    requires Placed(v, h)
  {
    Visible(v, p) && !p.driver && p.container == h.path && p.end == h.edge.sink
    && (IsSub(v, p.graph, p.end.node) ==>
          exists ordinal :: 0 <= ordinal < Reading(v, p.graph, p.end) && p.identity == p.container + [CallAt(v, p, ordinal)])
  }

  /** An input of a body is fed past the call, when the loop can be inactive, from the same input of the ordinal before. */
  ghost predicate Bypassed(v: View, path: Path, port: nat, p: Pin)
    requires Anchored(v, path)
  {
    ReadsBefore(v, path, port) && Sub(v, Last(path).graph, Last(path).site).loop.value.activation.Some?
    && p == CallPin(Previous(path), port, false, Front(path))
  }

  /** An input of a body is fed by a stored edge from the call to itself. */
  ghost predicate FromItself(v: View, path: Path, port: nat, p: Pin)
    requires Anchored(v, path)
  {
    path != [] && var s := Last(path);
    !Expanded(v, Sub(v, s.graph, s.site)) && p == Pin(s.graph, p.end, true, path, Front(path)) && p.end.node == s.site
    && Edge(p.end, End(s.site, port)) in v.bodies[s.graph].edges
  }

  /** Where resolving the driver end of an edge stops: at a visible pin, or at a pin of the call whose body the edge is in. */
  ghost predicate AnswersDriver(v: View, h: Hop, p: Pin)
    requires Placed(v, h)
  {
    StartsAt(v, h, p)
    || (h.edge.driver.node == INPUT && (Bypassed(v, h.path, h.edge.driver.port, p) || FromItself(v, h.path, h.edge.driver.port, p)))
  }

  /** A chain from the sink side to the driver side. */
  ghost predicate Chain(v: View, drivers: bool, c: seq<Hop>)
  {
    c != [] && (forall k :: 0 <= k < |c| ==> Placed(v, c[k]))
    && forall j, k :: 0 <= j < |c| && k == j + 1 && k < |c| ==> Feeds(v, drivers, c[k], c[j])
  }

  /** From one ordinal of a loop to the next: a carry, the activation, or the bypass of an inactive carry. */
  ghost predicate Recurs(v: View, a: Pin, b: Pin)
  {
    OfOrdinal(v, a) && a == AtOrdinal(a, OrdinalOf(v, a), a.end.port, a.driver)
    && b == AtOrdinal(a, OrdinalOf(v, a) + 1, b.end.port, false)
    && OrdinalOf(v, a) + 1 < GroupSize(Sub(v, a.graph, a.end.node))
    && var loop := Sub(v, a.graph, a.end.node).loop.value;
       if a.driver then NextReads(v, a.graph, a.end.node, a.end.port, b.end.port)
       else
         a.end == b.end && loop.activation.Some?
         && (loop.activation == Some(b.end.port) || exists e :: e in Carries(v, a.graph, a.end.node) && e.sink == b.end)
  }

  // ---------- one step of a resolution ----------

  lemma {:induction false} EachHas(edges: seq<Edge>, f: Edge -> Item, item: Item)
    ensures item in Each(edges, f) <==> exists e :: e in edges && item == f(e)
  {
    if item in Each(edges, f) {
      var k :| 0 <= k < |edges| && Each(edges, f)[k] == item;
      assert edges[k] in edges;
    }
    if e :| e in edges && item == f(e) {
      var k :| 0 <= k < |edges| && edges[k] == e;
      assert Each(edges, f)[k] == item;
    }
  }

  /** Where the driver end of an edge leads. */
  ghost predicate LeadsToDriver(v: View, a: Hop, item: Item)
    requires Placed(v, a)
  {
    match item
    case Answer(p) => AnswersDriver(v, a, p)
    case Follow(g, end, path) => exists e :: FeedsDriver(v, a, Hop(path, e), g, end)
  }

  ghost predicate FeedsDriver(v: View, a: Hop, h: Hop, g: nat, end: End)
    requires Placed(v, a)
  {
    Placed(v, h) && Feeds(v, true, h, a) && end == h.edge.driver && g == BodyAt(v, h.path)
  }

  ghost predicate LeadsToSink(v: View, b: Hop, item: Item)
    requires Placed(v, b)
  {
    match item
    case Answer(p) => EndsAt(v, b, p)
    case Follow(g, end, path) => exists e :: FeedsSink(v, b, Hop(path, e), g, end)
  }

  ghost predicate FeedsSink(v: View, b: Hop, h: Hop, g: nat, end: End)
    requires Placed(v, b)
  {
    Placed(v, h) && Feeds(v, false, b, h) && end == h.edge.sink && g == BodyAt(v, h.path)
  }

  lemma {:induction false} DriverStep(v: View, a: Hop, item: Item)
    requires WellFormed(v) && Placed(v, a)
    ensures item in DriverItems(v, BodyAt(v, a.path), a.edge.driver, a.path) <==> LeadsToDriver(v, a, item)
  {
    if a.edge.driver.node == INPUT && a.path != [] {
      DriverUp(v, a, item);
    } else if !IsSub(v, BodyAt(v, a.path), a.edge.driver.node) {
      DriverPlain(v, a, item);
    } else if Entered(v, a.path, a.edge.driver.node) {
      DriverDown(v, a, item);
    } else if Ordinals(v, Sub(v, BodyAt(v, a.path), a.edge.driver.node)) == 0 {
      DriverPast(v, a, item);
    } else {
      DriverClosed(v, a, item);
    }
  }

  lemma {:induction false} DriverPlain(v: View, a: Hop, item: Item)
    requires WellFormed(v) && Placed(v, a)
    requires !IsSub(v, BodyAt(v, a.path), a.edge.driver.node) && (a.edge.driver.node == INPUT ==> a.path == [])
    ensures item in DriverItems(v, BodyAt(v, a.path), a.edge.driver, a.path) <==> LeadsToDriver(v, a, item)
  {
    var p := Pin(BodyAt(v, a.path), a.edge.driver, true, a.path, a.path);
    assert DriverItems(v, BodyAt(v, a.path), a.edge.driver, a.path) == [Answer(p)];
    if item.Follow? {
      forall e | Placed(v, Hop(item.path, e))
        ensures !Feeds(v, true, Hop(item.path, e), a)
      {
      }
    }
  }

  /** What an input that recurs reads: the carry into it, or the activation. */
  function Source(v: View, g: nat, site: nat, input: nat): Option<nat>
    requires IsSub(v, g, site) && Sub(v, g, site).loop.Some?
  {
    var carry := CarryInto(Carries(v, g, site), input);
    if carry.Some? then carry else Sub(v, g, site).loop.value.nextActive
  }

  lemma {:induction false} SourceIs(v: View, g: nat, site: nat, output: nat, input: nat)
    requires IsSub(v, g, site) && Sub(v, g, site).loop.Some? && LoopFits(v, g, site) && Recurrent(v, g, End(site, input))
    ensures NextReads(v, g, site, output, input) <==> Source(v, g, site, input) == Some(output)
  {
    var carries := Carries(v, g, site);
    var carry := CarryInto(carries, input);
    if carry.Some? {
      var e :| e in carries && e.sink.port == input && e.driver.port == carry.value;
      assert e == Edge(End(site, carry.value), End(site, input));
    }
  }

  /** An input of an ordinal that reads from the one before. */
  ghost predicate ReadsBefore(v: View, path: Path, port: nat)
    requires Anchored(v, path)
  {
    path != [] && !TakesIndex(v, path, port) && Ord(path) > 0
    && Expanded(v, Sub(v, Last(path).graph, Last(path).site)) && Recurrent(v, Last(path).graph, End(Last(path).site, port))
  }

  /** The path into the ordinal before. */
  function Before(path: Path): Path
    requires path != []
  {
    Front(path) + [Previous(path)]
  }

  lemma {:induction false} BeforeIsWithin(v: View, path: Path, site: nat, inner: Path)
    requires Anchored(v, path) && Open(v, path) && Within(v, path, site, inner) && Ord(inner) > 0
    ensures Before(inner) == Inner(v, path, site, Ord(inner) - 1) && Within(v, path, site, Before(inner)) && Ord(Before(inner)) == Ord(inner) - 1
    ensures Open(v, Before(inner)) && Anchored(v, Before(inner)) && BodyAt(v, Before(inner)) == BodyAt(v, inner)
  {
    LastOfInner(v, path, site, inner);
    InnerIsWithin(v, path, site, Ord(inner) - 1);
    WithinIsOpen(v, path, site, Before(inner));
    WithinIsOpen(v, path, site, inner);
  }

  /** An edge that feeds an input of a body: from outside into the call, or inside the ordinal before. */
  ghost predicate FeedsInput(v: View, path: Path, port: nat, h: Hop)
    requires Anchored(v, path) && path != []
  {
    Placed(v, h) && !TakesIndex(v, path, port)
    && if ReadsBefore(v, path, port) then
         h.path == Before(path) && h.edge.sink.node == OUTPUT && NextReads(v, Last(path).graph, Last(path).site, h.edge.sink.port, port)
       else h.path == Front(path) && h.edge.sink == End(Last(path).site, port) && h.edge.driver.node != Last(path).site
  }

  /** Where an input of a body leads. */
  ghost predicate InputLeads(v: View, path: Path, port: nat, item: Item)
    requires Anchored(v, path) && path != []
  {
    match item
    case Answer(p) =>
      (TakesIndex(v, path, port) && p == Pin(BodyAt(v, path), End(INPUT, port), true, path, path))
      || Bypassed(v, path, port, p) || FromItself(v, path, port, p)
    case Follow(g, end, at) => exists e :: FeedsInput(v, path, port, Hop(at, e)) && end == e.driver && g == BodyAt(v, at)
  }

  lemma {:induction false} InputStep(v: View, path: Path, port: nat, item: Item)
    requires WellFormed(v) && Open(v, path) && Anchored(v, path) && path != [] && BodyAt(v, path) in v.bodies
    ensures item in InputItems(v, BodyAt(v, path), End(INPUT, port), path) <==> InputLeads(v, path, port, item)
  {
    OpenStep(v, path);
    LastOfInner(v, Front(path), Last(path).site, path);
    if TakesIndex(v, path, port) {
      assert InputItems(v, BodyAt(v, path), End(INPUT, port), path) == [Answer(Pin(BodyAt(v, path), End(INPUT, port), true, path, path))];
    } else if ReadsBefore(v, path, port) {
      InputRecurrent(v, path, port, item);
    } else {
      InputExternal(v, path, port, item);
    }
  }

  lemma {:induction false} RecurrentItems(v: View, path: Path, port: nat, item: Item)
    requires WellFormed(v) && Open(v, path) && Anchored(v, path) && path != [] && BodyAt(v, path) in v.bodies && ReadsBefore(v, path, port)
    ensures
      var target, source := BodyAt(v, path), Source(v, Last(path).graph, Last(path).site, port);
      item in InputItems(v, target, End(INPUT, port), path) <==>
      (source.Some? && item in Each(Into(v, target, End(OUTPUT, source.value), None), ToDriver(target, Before(path))))
      || (item.Answer? && Bypassed(v, path, port, item.pin))
  {
    OpenStep(v, path);
    var s := Last(path);
    LastOfInner(v, Front(path), s.site, path);
    assert LoopFits(v, s.graph, s.site);
    var target, source := BodyAt(v, path), Source(v, s.graph, s.site, port);
    if source.Some? {
      assert OutputItems(v, path, source.value) == Each(Into(v, target, End(OUTPUT, source.value), None), ToDriver(target, Before(path)));
    }
  }

  lemma {:induction false} InputRecurrent(v: View, path: Path, port: nat, item: Item)
    requires WellFormed(v) && Open(v, path) && Anchored(v, path) && path != [] && BodyAt(v, path) in v.bodies && ReadsBefore(v, path, port)
    ensures item in InputItems(v, BodyAt(v, path), End(INPUT, port), path) <==> InputLeads(v, path, port, item)
  {
    RecurrentItems(v, path, port, item);
    var target, source := BodyAt(v, path), Source(v, Last(path).graph, Last(path).site, port);
    if source.Some? {
      EachHas(Into(v, target, End(OUTPUT, source.value), None), ToDriver(target, Before(path)), item);
    }
    if item.Answer? {
      assert ReadsBefore(v, path, port);
    } else {
      FollowsBefore(v, path, port, item);
    }
  }

  lemma {:induction false} FollowsBefore(v: View, path: Path, port: nat, item: Item)
    requires WellFormed(v) && Open(v, path) && Anchored(v, path) && path != [] && BodyAt(v, path) in v.bodies && ReadsBefore(v, path, port)
    requires item.Follow?
    ensures
      var target, source := BodyAt(v, path), Source(v, Last(path).graph, Last(path).site, port);
      InputLeads(v, path, port, item) <==>
      source.Some? && exists e :: e in Into(v, target, End(OUTPUT, source.value), None) && item == ToDriver(target, Before(path))(e)
  {
    var target, source := BodyAt(v, path), Source(v, Last(path).graph, Last(path).site, port);
    forall e
      ensures FeedsInput(v, path, port, Hop(Before(path), e)) <==> source.Some? && e in Into(v, target, End(OUTPUT, source.value), None)
      ensures FeedsInput(v, path, port, Hop(item.path, e)) ==> item.path == Before(path) && BodyAt(v, item.path) == target
      ensures FeedsInput(v, path, port, Hop(Before(path), e)) ==> Anchored(v, Before(path)) && BodyAt(v, Before(path)) == target
    {
      FeedsBefore(v, path, port, item.path, e);
    }
  }

  lemma {:induction false} FeedsBefore(v: View, path: Path, port: nat, at: Path, e: Edge)
    requires WellFormed(v) && Open(v, path) && Anchored(v, path) && path != [] && BodyAt(v, path) in v.bodies && ReadsBefore(v, path, port)
    ensures
      var target, source := BodyAt(v, path), Source(v, Last(path).graph, Last(path).site, port);
      FeedsInput(v, path, port, Hop(Before(path), e)) <==> source.Some? && e in Into(v, target, End(OUTPUT, source.value), None)
    ensures FeedsInput(v, path, port, Hop(at, e)) ==> at == Before(path) && BodyAt(v, at) == BodyAt(v, path)
    ensures Anchored(v, Before(path)) && BodyAt(v, Before(path)) == BodyAt(v, path)
  {
    OpenStep(v, path);
    BeforeIsWithin(v, Front(path), Last(path).site, path);
    if FeedsInput(v, path, port, Hop(at, e)) {
      ContinuedFrom(v, path, port, Hop(at, e));
    }
    if FeedsInput(v, path, port, Hop(Before(path), e)) {
      ContinuedFrom(v, path, port, Hop(Before(path), e));
    }
    var source := Source(v, Last(path).graph, Last(path).site, port);
    if source.Some? && e in Into(v, BodyAt(v, path), End(OUTPUT, source.value), None) {
      ContinuesHere(v, path, port, Hop(Before(path), e));
    }
  }

  lemma {:induction false} ContinuedFrom(v: View, path: Path, port: nat, h: Hop)
    requires WellFormed(v) && Open(v, path) && Anchored(v, path) && path != [] && ReadsBefore(v, path, port) && FeedsInput(v, path, port, h)
    ensures h.path == Before(path) && BodyAt(v, h.path) == BodyAt(v, path)
    ensures Source(v, Last(path).graph, Last(path).site, port) == Some(h.edge.sink.port) && h.edge.sink.node == OUTPUT
  {
    OpenStep(v, path);
    BeforeIsWithin(v, Front(path), Last(path).site, path);
    assert LoopFits(v, Last(path).graph, Last(path).site);
    SourceIs(v, Last(path).graph, Last(path).site, h.edge.sink.port, port);
  }

  lemma {:induction false} ContinuesHere(v: View, path: Path, port: nat, h: Hop)
    requires WellFormed(v) && Open(v, path) && Anchored(v, path) && path != [] && ReadsBefore(v, path, port)
    requires h.path == Before(path) && BodyAt(v, path) in v.bodies && h.edge in v.bodies[BodyAt(v, path)].edges
    requires h.edge.sink.node == OUTPUT && Source(v, Last(path).graph, Last(path).site, port) == Some(h.edge.sink.port)
    ensures FeedsInput(v, path, port, h) && BodyAt(v, h.path) == BodyAt(v, path)
  {
    OpenStep(v, path);
    BeforeIsWithin(v, Front(path), Last(path).site, path);
    assert LoopFits(v, Last(path).graph, Last(path).site);
    SourceIs(v, Last(path).graph, Last(path).site, h.edge.sink.port, port);
    assert Placed(v, h);
  }

  lemma {:induction false} InputExternal(v: View, path: Path, port: nat, item: Item)
    requires WellFormed(v) && Open(v, path) && Anchored(v, path) && path != [] && BodyAt(v, path) in v.bodies
    requires !TakesIndex(v, path, port) && !ReadsBefore(v, path, port)
    ensures item in InputItems(v, BodyAt(v, path), End(INPUT, port), path) <==> InputLeads(v, path, port, item)
  {
    OpenStep(v, path);
    var s, outer := Last(path), Front(path);
    LastOfInner(v, outer, s.site, path);
    var edges := Into(v, s.graph, End(s.site, port), Unrolled(v, s.graph, s.site));
    assert InputItems(v, BodyAt(v, path), End(INPUT, port), path) == Each(edges, FromOutside(path));
    EachHas(edges, FromOutside(path), item);
    if e: Edge :| e in edges && item == FromOutside(path)(e) {
      ExternalLeads(v, path, port, e);
    }
    if InputLeads(v, path, port, item) {
      LeadsExternal(v, path, port, item);
    }
  }

  lemma {:induction false} ExternalLeads(v: View, path: Path, port: nat, e: Edge)
    requires WellFormed(v) && Open(v, path) && Anchored(v, path) && path != [] && Last(path).graph in v.bodies
    requires !TakesIndex(v, path, port) && !ReadsBefore(v, path, port)
    requires e in Into(v, Last(path).graph, End(Last(path).site, port), Unrolled(v, Last(path).graph, Last(path).site))
    ensures InputLeads(v, path, port, FromOutside(path)(e))
  {
    OpenStep(v, path);
    if e.driver.node != Last(path).site {
      assert FeedsInput(v, path, port, Hop(Front(path), e));
    } else {
      assert e == Edge(e.driver, End(Last(path).site, port));
    }
  }

  lemma {:induction false} LeadsExternal(v: View, path: Path, port: nat, item: Item)
    requires WellFormed(v) && Open(v, path) && Anchored(v, path) && path != [] && Last(path).graph in v.bodies
    requires !TakesIndex(v, path, port) && !ReadsBefore(v, path, port) && InputLeads(v, path, port, item)
    ensures exists e :: e in Into(v, Last(path).graph, End(Last(path).site, port), Unrolled(v, Last(path).graph, Last(path).site))
                        && item == FromOutside(path)(e)
  {
    OpenStep(v, path);
    var s := Last(path);
    match item {
      case Answer(p) =>
        var e := Edge(p.end, End(s.site, port));
        assert e in Into(v, s.graph, End(s.site, port), Unrolled(v, s.graph, s.site)) && item == FromOutside(path)(e);
      case Follow(g, end, at) =>
        var e :| FeedsInput(v, path, port, Hop(at, e)) && end == e.driver && g == BodyAt(v, at);
        assert e in Into(v, s.graph, End(s.site, port), Unrolled(v, s.graph, s.site)) && item == FromOutside(path)(e);
    }
  }

  /** What feeds an edge from the input of a body. */
  lemma {:induction false} FedFromAbove(v: View, b: Hop, a: Hop)
    requires WellFormed(v) && Placed(v, a) && Placed(v, b) && a.edge.driver.node == INPUT && a.path != []
    ensures Anchored(v, Front(a.path))
    ensures Feeds(v, true, b, a) <==>
            Enters(v, true, Front(a.path), Last(a.path).site, b, a) || Continues(v, Front(a.path), Last(a.path).site, b, a)
  {
    OpenStep(v, a.path);
    if Enters(v, true, b.path, b.edge.sink.node, b, a) {
      LastOfInner(v, b.path, b.edge.sink.node, a.path);
    }
  }

  /** That is what feeds the input. */
  lemma {:induction false} FeedsAsInput(v: View, b: Hop, a: Hop)
    requires WellFormed(v) && Placed(v, a) && Placed(v, b) && a.edge.driver.node == INPUT && a.path != []
    ensures Feeds(v, true, b, a) <==> FeedsInput(v, a.path, a.edge.driver.port, b)
  {
    OpenStep(v, a.path);
    var outer, s, port := Front(a.path), Last(a.path), a.edge.driver.port;
    LastOfInner(v, outer, s.site, a.path);
    FedFromAbove(v, b, a);
    if Continues(v, outer, s.site, b, a) {
      ContinuesAsInput(v, b, a);
    }
    if FeedsInput(v, a.path, port, b) && ReadsBefore(v, a.path, port) {
      BeforeIsWithin(v, outer, s.site, a.path);
    }
  }

  lemma {:induction false} ContinuesAsInput(v: View, b: Hop, a: Hop)
    requires WellFormed(v) && Placed(v, a) && Placed(v, b) && a.edge.driver.node == INPUT && a.path != []
    requires Anchored(v, Front(a.path)) && Continues(v, Front(a.path), Last(a.path).site, b, a)
    ensures FeedsInput(v, a.path, a.edge.driver.port, b)
  {
    OpenStep(v, a.path);
    var outer, s, port := Front(a.path), Last(a.path), a.edge.driver.port;
    assert LoopFits(v, s.graph, s.site);
    NextInput(v, s.graph, s.site, b.edge.sink.port, port);
    BeforeIs(v, outer, s.site, b.path, a.path);
  }

  lemma {:induction false} BeforeIs(v: View, path: Path, site: nat, before: Path, inner: Path)
    requires Open(v, path) && Anchored(v, path) && Within(v, path, site, inner) && Within(v, path, site, before) && Ord(inner) == Ord(before) + 1
    ensures inner != [] && before == Before(inner)
  {
    LastOfInner(v, path, site, inner);
    BeforeIsWithin(v, path, site, inner);
  }

  /** An input that reads from the ordinal before recurs, and does not take the index. */
  lemma {:induction false} NextInput(v: View, g: nat, site: nat, output: nat, input: nat)
    requires IsSub(v, g, site) && Sub(v, g, site).loop.Some? && LoopFits(v, g, site) && NextReads(v, g, site, output, input)
    ensures Recurrent(v, g, End(site, input)) && Sub(v, g, site).loop.value.index != Some(input)
  {
  }

  lemma {:induction false} DriverUp(v: View, a: Hop, item: Item)
    requires WellFormed(v) && Placed(v, a) && a.path != [] && a.edge.driver.node == INPUT
    ensures item in DriverItems(v, BodyAt(v, a.path), a.edge.driver, a.path) <==> LeadsToDriver(v, a, item)
  {
    OpenStep(v, a.path);
    var port := a.edge.driver.port;
    assert a.edge.driver == End(INPUT, port);
    assert DriverItems(v, BodyAt(v, a.path), a.edge.driver, a.path) == InputItems(v, BodyAt(v, a.path), End(INPUT, port), a.path);
    InputStep(v, a.path, port, item);
    if item.Follow? {
      FollowsInput(v, a, item);
    } else {
      StartsAtIndex(v, a, item.pin);
    }
  }

  lemma {:induction false} FollowsInput(v: View, a: Hop, item: Item)
    requires WellFormed(v) && Placed(v, a) && a.path != [] && a.edge.driver.node == INPUT && item.Follow?
    ensures InputLeads(v, a.path, a.edge.driver.port, item) <==> LeadsToDriver(v, a, item)
  {
    forall e
      ensures FeedsInput(v, a.path, a.edge.driver.port, Hop(item.path, e)) && item.end == e.driver && item.graph == BodyAt(v, item.path) <==>
              FeedsDriver(v, a, Hop(item.path, e), item.graph, item.end)
    {
      if Placed(v, Hop(item.path, e)) {
        FeedsAsInput(v, Hop(item.path, e), a);
      }
    }
  }

  lemma {:induction false} StartsAtIndex(v: View, a: Hop, p: Pin)
    requires WellFormed(v) && Placed(v, a) && a.path != [] && a.edge.driver.node == INPUT
    ensures StartsAt(v, a, p) <==> TakesIndex(v, a.path, a.edge.driver.port) && p == Pin(BodyAt(v, a.path), a.edge.driver, true, a.path, a.path)
  {
    assert !IsSub(v, BodyAt(v, a.path), INPUT);
  }

  /** What feeds an edge from a call site. */
  lemma {:induction false} FedFromCall(v: View, b: Hop, a: Hop)
    requires WellFormed(v) && Placed(v, a) && Placed(v, b) && IsSub(v, BodyAt(v, a.path), a.edge.driver.node)
    ensures Feeds(v, true, b, a) <==>
            Leaves(v, true, a.path, a.edge.driver.node, b, a) || Bypasses(v, a.path, a.edge.driver.node, b, a)
  {
    assert a.edge.driver.node != INPUT;
  }

  lemma {:induction false} DriverDown(v: View, a: Hop, item: Item)
    requires WellFormed(v) && Placed(v, a) && Entered(v, a.path, a.edge.driver.node)
    ensures item in DriverItems(v, BodyAt(v, a.path), a.edge.driver, a.path) <==> LeadsToDriver(v, a, item)
  {
    var g, d := BodyAt(v, a.path), a.edge.driver;
    var i := Sub(v, g, d.node);
    var inner := Inner(v, a.path, d.node, Ordinals(v, i) - 1);
    var edges := Into(v, i.target, End(OUTPUT, d.port), None);
    assert d.node != INPUT;
    assert DriverItems(v, g, d, a.path) == Each(edges, ToDriver(i.target, inner));
    EachHas(edges, ToDriver(i.target, inner), item);
    forall e
      ensures FeedsDriver(v, a, Hop(inner, e), i.target, e.driver) <==> e in edges
      ensures item.Follow? && FeedsDriver(v, a, Hop(item.path, e), item.graph, item.end) ==>
                item.path == inner && item.graph == i.target && item.end == e.driver
    {
      LastDrives(v, a, Hop(inner, e));
      if item.Follow? {
        LastDrives(v, a, Hop(item.path, e));
      }
    }
  }

  /** A call that is entered is driven inside its last ordinal. */
  lemma {:induction false} LastDrives(v: View, a: Hop, h: Hop)
    requires WellFormed(v) && Placed(v, a) && Entered(v, a.path, a.edge.driver.node)
    ensures
      var i := Sub(v, BodyAt(v, a.path), a.edge.driver.node);
      var inner := Inner(v, a.path, a.edge.driver.node, Ordinals(v, i) - 1);
      Anchored(v, inner) && BodyAt(v, inner) == i.target
      && (Placed(v, h) && Feeds(v, true, h, a) <==>
          h.path == inner && h.edge in v.bodies[i.target].edges && h.edge.sink == End(OUTPUT, a.edge.driver.port))
  {
    var i := Sub(v, BodyAt(v, a.path), a.edge.driver.node);
    var inner := Inner(v, a.path, a.edge.driver.node, Ordinals(v, i) - 1);
    InnerIsWithin(v, a.path, a.edge.driver.node, Ordinals(v, i) - 1);
    WithinIsOpen(v, a.path, a.edge.driver.node, inner);
    if h.path == inner && h.edge in v.bodies[i.target].edges && h.edge.sink == End(OUTPUT, a.edge.driver.port) {
      PlacedIntoOutput(v, h);
    }
    if Placed(v, h) {
      FedFromCall(v, h, a);
      LeavesLast(v, h, a);
    }
  }

  lemma {:induction false} LeavesLast(v: View, b: Hop, a: Hop)
    requires Anchored(v, a.path) && Entered(v, a.path, a.edge.driver.node)
    ensures !Bypasses(v, a.path, a.edge.driver.node, b, a)
    ensures Leaves(v, true, a.path, a.edge.driver.node, b, a) <==>
            b.path == Inner(v, a.path, a.edge.driver.node, Ordinals(v, Sub(v, BodyAt(v, a.path), a.edge.driver.node)) - 1)
            && b.edge.sink == End(OUTPUT, a.edge.driver.port)
  {
    LastWithin(v, a.path, a.edge.driver.node, b.path);
  }

  lemma {:induction false} LastWithin(v: View, path: Path, site: nat, inner: Path)
    requires Anchored(v, path) && Entered(v, path, site)
    ensures
      var last := Ordinals(v, Sub(v, BodyAt(v, path), site)) - 1;
      Within(v, path, site, inner) && Ord(inner) == last <==> inner == Inner(v, path, site, last)
  {
    InnerIsWithin(v, path, site, Ordinals(v, Sub(v, BodyAt(v, path), site)) - 1);
  }

  lemma {:induction false} PlacedIntoOutput(v: View, h: Hop)
    requires WellFormed(v) && Open(v, h.path) && Anchored(v, h.path) && BodyAt(v, h.path) in v.bodies
    requires h.edge in v.bodies[BodyAt(v, h.path)].edges && h.edge.sink.node == OUTPUT
    ensures Placed(v, h)
  {
  }

  lemma {:induction false} DriverPast(v: View, a: Hop, item: Item)
    requires WellFormed(v) && Placed(v, a)
    requires IsSub(v, BodyAt(v, a.path), a.edge.driver.node) && Ordinals(v, Sub(v, BodyAt(v, a.path), a.edge.driver.node)) == 0
    ensures item in DriverItems(v, BodyAt(v, a.path), a.edge.driver, a.path) <==> LeadsToDriver(v, a, item)
  {
    var g, d := BodyAt(v, a.path), a.edge.driver;
    var carry := CarryOutOf(Carries(v, g, d.node), d.port);
    assert d.node != INPUT;
    if v.verdict(a.path, g, d.node) != Prune && carry.Some? {
      var edges := Into(v, g, End(d.node, carry.value), Some(d.node));
      assert DriverItems(v, g, d, a.path) == Each(edges, ToDriver(g, a.path));
      EachHas(edges, ToDriver(g, a.path), item);
    } else {
      assert DriverItems(v, g, d, a.path) == [];
    }
    forall e
      ensures FeedsDriver(v, a, Hop(a.path, e), g, e.driver) <==>
              v.verdict(a.path, g, d.node) != Prune && carry.Some? && e in Into(v, g, End(d.node, carry.value), Some(d.node))
      ensures item.Follow? && FeedsDriver(v, a, Hop(item.path, e), item.graph, item.end) ==>
                item.path == a.path && item.graph == g && item.end == e.driver
    {
      PastDrives(v, a, Hop(a.path, e));
      if item.Follow? {
        PastDrives(v, a, Hop(item.path, e));
      }
    }
  }

  /** A loop without ordinals is driven by what a carry takes past it. */
  lemma {:induction false} PastDrives(v: View, a: Hop, h: Hop)
    requires WellFormed(v) && Placed(v, a)
    requires IsSub(v, BodyAt(v, a.path), a.edge.driver.node) && Ordinals(v, Sub(v, BodyAt(v, a.path), a.edge.driver.node)) == 0
    ensures
      var g, d := BodyAt(v, a.path), a.edge.driver;
      var carry := CarryOutOf(Carries(v, g, d.node), d.port);
      Placed(v, h) && Feeds(v, true, h, a) <==>
      h.path == a.path && v.verdict(a.path, g, d.node) != Prune && carry.Some? && h.edge in Into(v, g, End(d.node, carry.value), Some(d.node))
  {
    if Placed(v, h) {
      FedFromCall(v, h, a);
    }
  }

  function LastCallPin(v: View, g: nat, d: End, path: Path): Pin
    requires IsSub(v, g, d.node) && Ordinals(v, Sub(v, g, d.node)) > 0
  {
    CallPin(Call(v, g, d.node, Sub(v, g, d.node), Ordinals(v, Sub(v, g, d.node)) - 1), d.port, true, path)
  }

  lemma {:induction false} DriverClosed(v: View, a: Hop, item: Item)
    requires WellFormed(v) && Placed(v, a)
    requires IsSub(v, BodyAt(v, a.path), a.edge.driver.node) && !Entered(v, a.path, a.edge.driver.node)
    requires Ordinals(v, Sub(v, BodyAt(v, a.path), a.edge.driver.node)) > 0
    ensures item in DriverItems(v, BodyAt(v, a.path), a.edge.driver, a.path) <==> LeadsToDriver(v, a, item)
  {
    var g, d := BodyAt(v, a.path), a.edge.driver;
    assert d.node != INPUT;
    assert DriverItems(v, g, d, a.path) == if v.verdict(a.path, g, d.node) == Prune then [] else [Answer(LastCallPin(v, g, d, a.path))];
    match item {
      case Answer(p) =>
        ClosedStarts(v, a, p);
      case Follow(_, _, path) =>
        forall e | Placed(v, Hop(path, e))
          ensures !Feeds(v, true, Hop(path, e), a)
        {
          FedFromCall(v, Hop(path, e), a);
        }
    }
  }

  lemma {:induction false} ClosedStarts(v: View, a: Hop, p: Pin)
    requires WellFormed(v) && Placed(v, a)
    requires IsSub(v, BodyAt(v, a.path), a.edge.driver.node) && !Entered(v, a.path, a.edge.driver.node)
    requires Ordinals(v, Sub(v, BodyAt(v, a.path), a.edge.driver.node)) > 0
    ensures StartsAt(v, a, p) <==>
            v.verdict(a.path, BodyAt(v, a.path), a.edge.driver.node) != Prune && p == LastCallPin(v, BodyAt(v, a.path), a.edge.driver, a.path)
  {
    if StartsAt(v, a, p) {
      StartIsLast(v, a, p);
    }
    if v.verdict(a.path, BodyAt(v, a.path), a.edge.driver.node) != Prune && p == LastCallPin(v, BodyAt(v, a.path), a.edge.driver, a.path) {
      LastStarts(v, a, p);
    }
  }

  lemma {:induction false} StartIsLast(v: View, a: Hop, p: Pin)
    requires WellFormed(v) && Placed(v, a) && StartsAt(v, a, p) && IsSub(v, BodyAt(v, a.path), a.edge.driver.node)
    ensures Ordinals(v, Sub(v, p.graph, p.end.node)) > 0 && v.verdict(a.path, p.graph, p.end.node) != Prune
    ensures p == LastCallPin(v, p.graph, p.end, a.path) && p.graph == BodyAt(v, a.path) && p.end == a.edge.driver
  {
  }

  lemma {:induction false} LastStarts(v: View, a: Hop, p: Pin)
    requires WellFormed(v) && Placed(v, a)
    requires IsSub(v, BodyAt(v, a.path), a.edge.driver.node) && !Entered(v, a.path, a.edge.driver.node)
    requires v.verdict(a.path, BodyAt(v, a.path), a.edge.driver.node) != Prune && Ordinals(v, Sub(v, BodyAt(v, a.path), a.edge.driver.node)) > 0
    requires p == LastCallPin(v, BodyAt(v, a.path), a.edge.driver, a.path)
    ensures StartsAt(v, a, p)
  {
    assert p.identity == p.container + [CallAt(v, p, Ordinals(v, Sub(v, p.graph, p.end.node)) - 1)];
  }

  lemma {:induction false} SinkStep(v: View, b: Hop, item: Item)
    requires WellFormed(v) && Placed(v, b)
    ensures item in SinkItems(v, BodyAt(v, b.path), b.edge.sink, b.path) <==> LeadsToSink(v, b, item)
  {
    if b.edge.sink.node == OUTPUT && b.path != [] {
      SinkUp(v, b, item);
    } else if !IsSub(v, BodyAt(v, b.path), b.edge.sink.node) {
      SinkPlain(v, b, item);
    } else if Entered(v, b.path, b.edge.sink.node) && !Grouped(v, b.path, b.edge.sink.node) {
      SinkDown(v, b, item);
    } else {
      SinkClosed(v, b, item);
    }
  }

  lemma {:induction false} SinkPlain(v: View, b: Hop, item: Item)
    requires WellFormed(v) && Placed(v, b)
    requires !IsSub(v, BodyAt(v, b.path), b.edge.sink.node) && (b.edge.sink.node == OUTPUT ==> b.path == [])
    ensures item in SinkItems(v, BodyAt(v, b.path), b.edge.sink, b.path) <==> LeadsToSink(v, b, item)
  {
    var p := Pin(BodyAt(v, b.path), b.edge.sink, false, b.path, b.path);
    assert SinkItems(v, BodyAt(v, b.path), b.edge.sink, b.path) == [Answer(p)];
    if item.Follow? {
      forall e | Placed(v, Hop(item.path, e))
        ensures !Feeds(v, false, b, Hop(item.path, e))
      {
      }
    }
  }

  lemma {:induction false} SinkUp(v: View, b: Hop, item: Item)
    requires WellFormed(v) && Placed(v, b) && b.path != [] && b.edge.sink.node == OUTPUT
    ensures item in SinkItems(v, BodyAt(v, b.path), b.edge.sink, b.path) <==> LeadsToSink(v, b, item)
  {
    OpenStep(v, b.path);
    var s, outer := Last(b.path), Front(b.path);
    var edges := OutOf(v, s.graph, End(s.site, b.edge.sink.port), Some(s.site));
    assert SinkItems(v, BodyAt(v, b.path), b.edge.sink, b.path) == Each(edges, ToSink(s.graph, outer));
    EachHas(edges, ToSink(s.graph, outer), item);
    if e: Edge :| e in edges && item == ToSink(s.graph, outer)(e) {
      assert Placed(v, Hop(outer, e)) && Leaves(v, false, outer, s.site, b, Hop(outer, e));
      assert FeedsSink(v, b, Hop(outer, e), item.graph, item.end);
    }
    if item.Follow? && LeadsToSink(v, b, item) {
      var e :| FeedsSink(v, b, Hop(item.path, e), item.graph, item.end);
      ReadFromBelow(v, b, Hop(item.path, e));
      assert e in edges && item == ToSink(s.graph, outer)(e);
    }
  }

  /** What an edge into the output of a body feeds. */
  lemma {:induction false} ReadFromBelow(v: View, b: Hop, a: Hop)
    requires WellFormed(v) && Placed(v, a) && Placed(v, b) && b.edge.sink.node == OUTPUT && Feeds(v, false, b, a)
    ensures b.path != [] && a.path == Front(b.path) && a.edge.driver == End(Last(b.path).site, b.edge.sink.port)
    ensures a.edge.sink.node != a.edge.driver.node
  {
    assert Leaves(v, false, a.path, a.edge.driver.node, b, a);
    LastOfInner(v, a.path, a.edge.driver.node, b.path);
  }

  /** One of the edges that read an input inside some ordinal. */
  ghost predicate ReadsInput(v: View, g: nat, k: End, path: Path, item: Item, ordinal: nat, e: Edge)
    requires IsSub(v, g, k.node) && HasBody(v, g, k.node)
  {
    var i := Sub(v, g, k.node);
    e in v.bodies[i.target].edges && e.driver == End(INPUT, k.port)
    && item == Follow(i.target, e.sink, path + [Call(v, g, k.node, i, ordinal)])
  }

  ghost predicate OfCall(v: View, g: nat, k: End, path: Path, ordinal: nat, item: Item)
    requires IsSub(v, g, k.node) && Anchored(v, path)
  {
    item in CallInputItems(v, g, k, path, ordinal)
  }

  lemma {:induction false} OfSomeOrdinal(v: View, g: nat, k: End, path: Path, from: nat, upto: nat, item: Item)
    requires IsSub(v, g, k.node) && Anchored(v, path)
    ensures item in AllCallItems(v, g, k, path, from, upto) <==>
            exists ordinal: nat :: from <= ordinal < upto && OfCall(v, g, k, path, ordinal, item)
    decreases upto - from
  {
    if from < upto {
      var head, rest := CallInputItems(v, g, k, path, from), AllCallItems(v, g, k, path, from + 1, upto);
      assert AllCallItems(v, g, k, path, from, upto) == head + rest;
      OfSomeOrdinal(v, g, k, path, from + 1, upto, item);
      if item in head {
        assert OfCall(v, g, k, path, from, item);
      }
      if ordinal: nat :| from <= ordinal < upto && OfCall(v, g, k, path, ordinal, item) {
        assert ordinal == from ==> item in head;
      }
    }
  }

  lemma {:induction false} OneEnteredInput(v: View, g: nat, k: End, path: Path, ordinal: nat, item: Item)
    requires IsSub(v, g, k.node) && Anchored(v, path) && HasBody(v, g, k.node)
    requires v.verdict(path, g, k.node) == Descend && (v.expand || Sub(v, g, k.node).loop == None)
    ensures item in CallInputItems(v, g, k, path, ordinal) <==> exists e :: ReadsInput(v, g, k, path, item, ordinal, e)
  {
    var i := Sub(v, g, k.node);
    var at := path + [Call(v, g, k.node, i, ordinal)];
    var edges := OutOf(v, i.target, End(INPUT, k.port), None);
    EachHas(edges, ToSink(i.target, at), item);
    if e :| e in edges && item == ToSink(i.target, at)(e) {
      assert ReadsInput(v, g, k, path, item, ordinal, e);
    }
    if e :| ReadsInput(v, g, k, path, item, ordinal, e) {
      assert e in edges && item == ToSink(i.target, at)(e);
    }
  }

  lemma {:induction false} ReadingFits(v: View, g: nat, k: End)
    requires IsSub(v, g, k.node)
    ensures Reading(v, g, k) <= Ordinals(v, Sub(v, g, k.node))
  {
  }

  lemma {:induction false} SinkDown(v: View, b: Hop, item: Item)
    requires WellFormed(v) && Placed(v, b)
    requires Entered(v, b.path, b.edge.sink.node) && !Grouped(v, b.path, b.edge.sink.node)
    ensures item in SinkItems(v, BodyAt(v, b.path), b.edge.sink, b.path) <==> LeadsToSink(v, b, item)
  {
    var g, k := BodyAt(v, b.path), b.edge.sink;
    var upto := Reading(v, g, k);
    assert k.node != OUTPUT;
    assert SinkItems(v, g, k, b.path) == AllCallItems(v, g, k, b.path, 0, upto);
    OfSomeOrdinal(v, g, k, b.path, 0, upto, item);
    if ordinal: nat :| 0 <= ordinal < upto && OfCall(v, g, k, b.path, ordinal, item) {
      OneEnteredInput(v, g, k, b.path, ordinal, item);
      var e :| ReadsInput(v, g, k, b.path, item, ordinal, e);
      ReadBelow(v, b, item, ordinal, e);
    }
    if LeadsToSink(v, b, item) {
      BelowIsRead(v, b, item);
    }
  }

  lemma {:induction false} BelowIsRead(v: View, b: Hop, item: Item)
    requires WellFormed(v) && Placed(v, b) && LeadsToSink(v, b, item)
    requires Entered(v, b.path, b.edge.sink.node) && !Grouped(v, b.path, b.edge.sink.node)
    ensures item.Follow? && Ord(item.path) < Reading(v, BodyAt(v, b.path), b.edge.sink)
    ensures OfCall(v, BodyAt(v, b.path), b.edge.sink, b.path, Ord(item.path), item)
  {
    var g, k := BodyAt(v, b.path), b.edge.sink;
    var e :| FeedsSink(v, b, Hop(item.path, e), item.graph, item.end);
    EnteredBy(v, b, Hop(item.path, e));
    WithinIsOpen(v, b.path, k.node, item.path);
    assert ReadsInput(v, g, k, b.path, item, Ord(item.path), e);
    OneEnteredInput(v, g, k, b.path, Ord(item.path), item);
  }

  lemma {:induction false} EnteredBy(v: View, b: Hop, a: Hop)
    requires WellFormed(v) && Placed(v, b) && Placed(v, a) && Feeds(v, false, b, a) && Entered(v, b.path, b.edge.sink.node)
    ensures Enters(v, false, b.path, b.edge.sink.node, b, a)
  {
    assert b.edge.sink.node != OUTPUT;
  }

  lemma {:induction false} ReadBelow(v: View, b: Hop, item: Item, ordinal: nat, e: Edge)
    requires WellFormed(v) && Placed(v, b) && Entered(v, b.path, b.edge.sink.node) && !Grouped(v, b.path, b.edge.sink.node)
    requires ordinal < Reading(v, BodyAt(v, b.path), b.edge.sink)
    requires ReadsInput(v, BodyAt(v, b.path), b.edge.sink, b.path, item, ordinal, e)
    ensures LeadsToSink(v, b, item)
  {
    var g, k := BodyAt(v, b.path), b.edge.sink;
    ReadingFits(v, g, k);
    InnerIsWithin(v, b.path, k.node, ordinal);
    WithinIsOpen(v, b.path, k.node, item.path);
    assert Placed(v, Hop(item.path, e)) && Enters(v, false, b.path, k.node, b, Hop(item.path, e));
    assert FeedsSink(v, b, Hop(item.path, e), item.graph, item.end);
  }

  lemma {:induction false} ClosedInputs(v: View, g: nat, k: End, path: Path, from: nat, upto: nat, item: Item)
    requires IsSub(v, g, k.node) && Anchored(v, path)
    requires !(v.verdict(path, g, k.node) == Descend && (v.expand || Sub(v, g, k.node).loop == None) && HasBody(v, g, k.node))
    ensures item in AllCallItems(v, g, k, path, from, upto) <==>
            exists ordinal :: from <= ordinal < upto && item == Answer(CallPin(Call(v, g, k.node, Sub(v, g, k.node), ordinal), k.port, false, path))
    decreases upto - from
  {
    if from < upto {
      ClosedInputs(v, g, k, path, from + 1, upto, item);
      assert CallInputItems(v, g, k, path, from) == [Answer(CallPin(Call(v, g, k.node, Sub(v, g, k.node), from), k.port, false, path))];
    }
  }

  lemma {:induction false} SinkClosed(v: View, b: Hop, item: Item)
    requires WellFormed(v) && Placed(v, b)
    requires IsSub(v, BodyAt(v, b.path), b.edge.sink.node)
    requires !Entered(v, b.path, b.edge.sink.node) || Grouped(v, b.path, b.edge.sink.node)
    ensures item in SinkItems(v, BodyAt(v, b.path), b.edge.sink, b.path) <==> LeadsToSink(v, b, item)
  {
    var g, k := BodyAt(v, b.path), b.edge.sink;
    var i := Sub(v, g, k.node);
    assert k.node != OUTPUT;
    ReadingFits(v, g, k);
    NothingBelow(v, b, item);
    if v.verdict(b.path, g, k.node) == Prune || Reading(v, g, k) == 0 {
      assert SinkItems(v, g, k, b.path) == [];
    } else {
      ClosedInputs(v, g, k, b.path, 0, Reading(v, g, k), item);
      if item.Answer? && EndsAt(v, b, item.pin) {
        var p := item.pin;
        var ordinal :| 0 <= ordinal < Reading(v, p.graph, p.end) && p.identity == p.container + [CallAt(v, p, ordinal)];
        assert item == Answer(CallPin(Call(v, g, k.node, i, ordinal), k.port, false, b.path));
      }
      if ordinal :| 0 <= ordinal < Reading(v, g, k) && item == Answer(CallPin(Call(v, g, k.node, i, ordinal), k.port, false, b.path)) {
        assert item.pin.identity == item.pin.container + [CallAt(v, item.pin, ordinal)];
      }
    }
  }

  /** A call that is closed, or grouped, is not entered from outside. */
  lemma {:induction false} NothingBelow(v: View, b: Hop, item: Item)
    requires WellFormed(v) && Placed(v, b) && IsSub(v, BodyAt(v, b.path), b.edge.sink.node)
    requires !Entered(v, b.path, b.edge.sink.node) || Grouped(v, b.path, b.edge.sink.node)
    ensures item.Follow? ==> !LeadsToSink(v, b, item)
  {
    if item.Follow? {
      forall e | Placed(v, Hop(item.path, e))
        ensures !Feeds(v, false, b, Hop(item.path, e))
      {
      }
    }
  }

  // ---------- whole resolutions ----------

  /** A chain of at most so many stored edges is followed to its far end. */
  const LONGEST: nat := 257

  ghost predicate ChainFrom(v: View, a: Hop, c: seq<Hop>, depth: nat, x: Pin)
  {
    Chain(v, true, c) && c[0] == a && |c| + depth <= LONGEST && AnswersDriver(v, c[|c| - 1], x)
  }

  ghost predicate ChainTo(v: View, b: Hop, c: seq<Hop>, depth: nat, x: Pin)
  {
    Chain(v, false, c) && c[|c| - 1] == b && |c| + depth <= LONGEST && EndsAt(v, c[0], x)
  }

  /** The pin starts a chain that leads to the driver end of this edge. */
  ghost predicate Fed(v: View, a: Hop, depth: nat, x: Pin)
  {
    exists c :: ChainFrom(v, a, c, depth, x)
  }

  /** The pin ends a chain that leads from the sink end of this edge. */
  ghost predicate Read(v: View, b: Hop, depth: nat, x: Pin)
  {
    exists c :: ChainTo(v, b, c, depth, x)
  }

  lemma {:induction false} FedHere(v: View, a: Hop, depth: nat, x: Pin)
    requires Placed(v, a) && AnswersDriver(v, a, x) && depth <= DEPTH
    ensures Fed(v, a, depth, x)
  {
    assert ChainFrom(v, a, [a], depth, x);
  }

  lemma {:induction false} ChainJoin(v: View, drivers: bool, c: seq<Hop>, d: seq<Hop>)
    requires Chain(v, drivers, c) && Chain(v, drivers, d) && Feeds(v, drivers, d[0], c[|c| - 1])
    ensures Chain(v, drivers, c + d)
  {
    var e := c + d;
    assert forall k :: 0 <= k < |e| ==> Placed(v, e[k]);
    forall j, k | 0 <= j < |e| && k == j + 1 && k < |e|
      ensures Feeds(v, drivers, e[k], e[j])
    {
      if j >= |c| {
        assert e[j] == d[j - |c|] && e[k] == d[k - |c|];
      } else if k == |c| {
        assert e[j] == c[|c| - 1] && e[k] == d[0];
      }
    }
  }

  lemma {:induction false} ChainCons(v: View, a: Hop, c: seq<Hop>)
    requires Placed(v, a) && Chain(v, true, c) && Feeds(v, true, c[0], a)
    ensures Chain(v, true, [a] + c)
  {
    assert Chain(v, true, [a]);
    ChainJoin(v, true, [a], c);
  }

  lemma {:induction false} FedWitness(v: View, a: Hop, c: seq<Hop>, depth: nat, x: Pin)
    requires ChainFrom(v, a, c, depth, x)
    ensures Fed(v, a, depth, x)
  {
  }

  lemma {:induction false} FedThrough(v: View, a: Hop, h: Hop, depth: nat, x: Pin)
    requires Placed(v, a) && Placed(v, h) && Feeds(v, true, h, a) && Fed(v, h, depth + 1, x)
    ensures Fed(v, a, depth, x) && depth <= DEPTH
  {
    var c :| ChainFrom(v, h, c, depth + 1, x);
    ChainCons(v, a, c);
    LastOfCons(a, c);
    FedWitness(v, a, [a] + c, depth, x);
  }

  lemma {:induction false} LastOfCons(a: Hop, c: seq<Hop>)
    requires c != []
    ensures ([a] + c)[0] == a && ([a] + c)[|[a] + c| - 1] == c[|c| - 1] && |[a] + c| == |c| + 1
  {
  }

  lemma {:induction false} FeedsInChain(v: View, drivers: bool, c: seq<Hop>, j: nat, k: nat)
    requires Chain(v, drivers, c) && k == j + 1 && k < |c|
    ensures Placed(v, c[j]) && Placed(v, c[k]) && Feeds(v, drivers, c[k], c[j])
  {
  }

  /** Part of a chain. */
  lemma {:induction false} ChainPart(v: View, drivers: bool, c: seq<Hop>, from: nat, upto: nat)
    requires Chain(v, drivers, c) && from < upto <= |c|
    ensures Chain(v, drivers, c[from..upto])
  {
    var d := c[from..upto];
    forall k | 0 <= k < |d|
      ensures Placed(v, d[k])
    {
      assert d[k] == c[from + k];
    }
    forall j, k | 0 <= j < |d| && k == j + 1 && k < |d|
      ensures Feeds(v, drivers, d[k], d[j])
    {
      assert d[j] == c[from + j] && d[k] == c[from + k];
      FeedsInChain(v, drivers, c, from + j, from + k);
    }
  }

  lemma {:induction false} FedBy(v: View, a: Hop, depth: nat, x: Pin) returns (h: Hop)
    requires Placed(v, a) && Fed(v, a, depth, x) && !AnswersDriver(v, a, x)
    ensures Placed(v, h) && Feeds(v, true, h, a) && Fed(v, h, depth + 1, x) && depth <= DEPTH
  {
    var c :| ChainFrom(v, a, c, depth, x);
    h := c[1];
    FeedsInChain(v, true, c, 0, 1);
    ChainPart(v, true, c, 1, |c|);
    assert ChainFrom(v, h, c[1..|c|], depth + 1, x);
  }

  lemma {:induction false} ReadHere(v: View, b: Hop, depth: nat, x: Pin)
    requires Placed(v, b) && EndsAt(v, b, x) && depth <= DEPTH
    ensures Read(v, b, depth, x)
  {
    assert ChainTo(v, b, [b], depth, x);
  }

  lemma {:induction false} ReadThrough(v: View, b: Hop, h: Hop, depth: nat, x: Pin)
    requires Placed(v, b) && Placed(v, h) && Feeds(v, false, b, h) && Read(v, h, depth + 1, x)
    ensures Read(v, b, depth, x) && depth <= DEPTH
  {
    var c :| ChainTo(v, h, c, depth + 1, x);
    var d := c + [b];
    ChainJoin(v, false, c, [b]);
    assert d[0] == c[0] && d[|d| - 1] == b;
    assert ChainTo(v, b, d, depth, x);
  }

  lemma {:induction false} ReadBy(v: View, b: Hop, depth: nat, x: Pin) returns (h: Hop)
    requires Placed(v, b) && Read(v, b, depth, x) && !EndsAt(v, b, x)
    ensures Placed(v, h) && Feeds(v, false, b, h) && Read(v, h, depth + 1, x) && depth <= DEPTH
  {
    var c :| ChainTo(v, b, c, depth, x);
    h := c[|c| - 2];
    FeedsInChain(v, false, c, |c| - 2, |c| - 1);
    ChainPart(v, false, c, 0, |c| - 1);
    assert ChainTo(v, h, c[0..|c| - 1], depth + 1, x);
  }

  function DriversOf(v: View, a: Hop, depth: nat): seq<Pin>
    requires Anchored(v, a.path) && BodyAt(v, a.path) in v.bodies
  {
    Resolved(v, true, BodyAt(v, a.path), a.edge.driver, a.path, depth)
  }

  function SinksOf(v: View, b: Hop, depth: nat): seq<Pin>
    requires Anchored(v, b.path) && BodyAt(v, b.path) in v.bodies
  {
    Resolved(v, false, BodyAt(v, b.path), b.edge.sink, b.path, depth)
  }

  ghost predicate DrivesNext(v: View, a: Hop, h: Hop, depth: nat, x: Pin)
    requires Placed(v, a)
  {
    Placed(v, h) && Feeds(v, true, h, a) && x in DriversOf(v, h, depth + 1)
  }

  ghost predicate ReadsNext(v: View, b: Hop, h: Hop, depth: nat, x: Pin)
    requires Placed(v, b)
  {
    Placed(v, h) && Feeds(v, false, b, h) && x in SinksOf(v, h, depth + 1)
  }

  /** One level of a resolution, in terms of edges. */
  lemma {:induction false} DriversOneLevel(v: View, a: Hop, depth: nat, x: Pin)
    requires WellFormed(v) && Placed(v, a) && depth <= DEPTH
    ensures x in DriversOf(v, a, depth) <==> AnswersDriver(v, a, x) || exists h :: DrivesNext(v, a, h, depth, x)
  {
    var items := DriverItems(v, BodyAt(v, a.path), a.edge.driver, a.path);
    InAllResolved(v, true, items, depth + 1, x);
    if x in DriversOf(v, a, depth) {
      var item: Item :| item in items && ItemFits(v, item) && x in OneResolved(v, true, item, depth + 1);
      DriverFound(v, a, item, depth, x);
    }
    if AnswersDriver(v, a, x) {
      DriverStep(v, a, Answer(x));
      assert x in OneResolved(v, true, Answer(x), depth + 1);
    }
    if h :| DrivesNext(v, a, h, depth, x) {
      var item := DriverFollows(v, a, h, depth, x);
    }
  }

  lemma {:induction false} DriverFound(v: View, a: Hop, item: Item, depth: nat, x: Pin)
    requires WellFormed(v) && Placed(v, a) && item in DriverItems(v, BodyAt(v, a.path), a.edge.driver, a.path)
    requires ItemFits(v, item) && x in OneResolved(v, true, item, depth + 1)
    ensures AnswersDriver(v, a, x) || exists h :: DrivesNext(v, a, h, depth, x)
  {
    DriverStep(v, a, item);
    if item.Follow? {
      var e :| FeedsDriver(v, a, Hop(item.path, e), item.graph, item.end);
      assert DrivesNext(v, a, Hop(item.path, e), depth, x);
    }
  }

  lemma {:induction false} DriverFollows(v: View, a: Hop, h: Hop, depth: nat, x: Pin) returns (item: Item)
    requires WellFormed(v) && Placed(v, a) && DrivesNext(v, a, h, depth, x)
    ensures item in DriverItems(v, BodyAt(v, a.path), a.edge.driver, a.path) && ItemFits(v, item) && x in OneResolved(v, true, item, depth + 1)
  {
    item := Follow(BodyAt(v, h.path), h.edge.driver, h.path);
    assert Hop(item.path, h.edge) == h && FeedsDriver(v, a, h, item.graph, item.end);
    DriverStep(v, a, item);
  }

  lemma {:induction false} SinksOneLevel(v: View, b: Hop, depth: nat, x: Pin)
    requires WellFormed(v) && Placed(v, b) && depth <= DEPTH
    ensures x in SinksOf(v, b, depth) <==> EndsAt(v, b, x) || exists h :: ReadsNext(v, b, h, depth, x)
  {
    var items := SinkItems(v, BodyAt(v, b.path), b.edge.sink, b.path);
    InAllResolved(v, false, items, depth + 1, x);
    if x in SinksOf(v, b, depth) {
      var item: Item :| item in items && ItemFits(v, item) && x in OneResolved(v, false, item, depth + 1);
      SinkFound(v, b, item, depth, x);
    }
    if EndsAt(v, b, x) {
      SinkStep(v, b, Answer(x));
      assert x in OneResolved(v, false, Answer(x), depth + 1);
    }
    if h :| ReadsNext(v, b, h, depth, x) {
      var item := SinkFollows(v, b, h, depth, x);
    }
  }

  lemma {:induction false} SinkFound(v: View, b: Hop, item: Item, depth: nat, x: Pin)
    requires WellFormed(v) && Placed(v, b) && item in SinkItems(v, BodyAt(v, b.path), b.edge.sink, b.path)
    requires ItemFits(v, item) && x in OneResolved(v, false, item, depth + 1)
    ensures EndsAt(v, b, x) || exists h :: ReadsNext(v, b, h, depth, x)
  {
    SinkStep(v, b, item);
    if item.Follow? {
      var e :| FeedsSink(v, b, Hop(item.path, e), item.graph, item.end);
      assert ReadsNext(v, b, Hop(item.path, e), depth, x);
    }
  }

  lemma {:induction false} SinkFollows(v: View, b: Hop, h: Hop, depth: nat, x: Pin) returns (item: Item)
    requires WellFormed(v) && Placed(v, b) && ReadsNext(v, b, h, depth, x)
    ensures item in SinkItems(v, BodyAt(v, b.path), b.edge.sink, b.path) && ItemFits(v, item) && x in OneResolved(v, false, item, depth + 1)
  {
    item := Follow(BodyAt(v, h.path), h.edge.sink, h.path);
    assert Hop(item.path, h.edge) == h && FeedsSink(v, b, h, item.graph, item.end);
    SinkStep(v, b, item);
  }

  /** Resolving a driver finds exactly what the chains that start with an edge lead to at their far ends. */
  lemma {:induction false} DriverChains(v: View, a: Hop, depth: nat, x: Pin)
    requires WellFormed(v) && Placed(v, a)
    ensures x in DriversOf(v, a, depth) <==> Fed(v, a, depth, x)
    decreases DEPTH + 1 - depth
  {
    if depth <= DEPTH {
      DriversOneLevel(v, a, depth, x);
      if AnswersDriver(v, a, x) {
        FedHere(v, a, depth, x);
      } else {
        if h :| DrivesNext(v, a, h, depth, x) {
          DriverChains(v, h, depth + 1, x);
          FedThrough(v, a, h, depth, x);
        }
        if Fed(v, a, depth, x) {
          var h := FedBy(v, a, depth, x);
          DriverChains(v, h, depth + 1, x);
          assert DrivesNext(v, a, h, depth, x);
        }
      }
    }
  }

  /** Resolving a sink finds exactly the visible pins at the far ends of the chains that end with an edge. */
  lemma {:induction false} SinkChains(v: View, b: Hop, depth: nat, x: Pin)
    requires WellFormed(v) && Placed(v, b)
    ensures x in SinksOf(v, b, depth) <==> Read(v, b, depth, x)
    decreases DEPTH + 1 - depth
  {
    if depth <= DEPTH {
      SinksOneLevel(v, b, depth, x);
      if EndsAt(v, b, x) {
        ReadHere(v, b, depth, x);
      } else {
        if h :| ReadsNext(v, b, h, depth, x) {
          SinkChains(v, h, depth + 1, x);
          ReadThrough(v, b, h, depth, x);
        }
        if Read(v, b, depth, x) {
          var h := ReadBy(v, b, depth, x);
          SinkChains(v, h, depth + 1, x);
          assert ReadsNext(v, b, h, depth, x);
        }
      }
    }
  }
}
