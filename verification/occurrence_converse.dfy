/**
 In-edges and out-edges of a hierarchy: each is characterised by chains of stored edges and recurrences, and
 the two are converses of each other where every call site treats both directions alike.
 */
module OccurrenceConverse {
  import opened OccurrenceLibrary
  import opened OccurrenceEdges
  import opened OccurrenceChains
  import opened Options

  // ---------- the edges of a listed pin ----------

  lemma {:induction false} ListedFits(v: View, p: Pin)
    requires WellFormed(v) && Listed(v, p)
    ensures PinFits(v, p) && BodyAt(v, p.container) in v.bodies
    ensures IsSub(v, p.graph, p.end.node) ==>
              v.verdict(p.container, p.graph, p.end.node) != Prune && Ordinals(v, Sub(v, p.graph, p.end.node)) > 0
    ensures OfOrdinal(v, p) <==> IsSub(v, p.graph, p.end.node) && Expanded(v, Sub(v, p.graph, p.end.node))
    ensures OfOrdinal(v, p) ==> OrdinalOf(v, p) < GroupSize(Sub(v, p.graph, p.end.node)) && p == AtOrdinal(p, OrdinalOf(v, p), p.end.port, p.driver)
  {
    OpenIsAnchored(v, p.container);
    if IsSub(v, p.graph, p.end.node) {
      var i := Sub(v, p.graph, p.end.node);
      var ordinal :| 0 <= ordinal < Ordinals(v, i) && p.identity == p.container + [CallAt(v, p, ordinal)];
      assert Last(p.identity) == CallAt(v, p, ordinal);
    }
  }

  /** Another ordinal of a call that is listed is listed as well. */
  lemma {:induction false} OtherOrdinal(v: View, p: Pin, ordinal: nat, port: nat, driver: bool)
    requires WellFormed(v) && Listed(v, p) && OfOrdinal(v, p) && ordinal < GroupSize(Sub(v, p.graph, p.end.node))
    ensures Listed(v, AtOrdinal(p, ordinal, port, driver)) && OfOrdinal(v, AtOrdinal(p, ordinal, port, driver))
    ensures OrdinalOf(v, AtOrdinal(p, ordinal, port, driver)) == ordinal
  {
    ListedFits(v, p);
    var q := AtOrdinal(p, ordinal, port, driver);
    assert Last(q.identity) == Step(p.graph, p.end.node, Some(ordinal));
    assert q.identity == q.container + [CallAt(v, q, ordinal)];
    assert Anchored(v, q.identity);
  }

  /** What a step across a boundary has cost before the stored edges of a pin are followed: the input of an ordinal with a body is
      looked up through that body. */
  ghost predicate ThroughBody(v: View, b: Pin)
  {
    OfOrdinal(v, b) && HasBody(v, b.graph, b.end.node)
  }

  function Spent(through: bool): nat
  {
    if through then 1 else 0
  }

  lemma {:induction false} StoredInItems(v: View, b: Pin, item: Item)
    requires WellFormed(v) && Listed(v, b) && PinFits(v, b)
    ensures item in StoredInto(v, b) <==>
            exists h :: StoredIn(v, b, h) && item == Follow(b.graph, h.edge.driver, h.path)
  {
    ListedFits(v, b);
    var edges := Into(v, b.graph, b.end, Unrolled(v, b.graph, b.end.node));
    EachHas(edges, ToDriver(b.graph, b.container), item);
    if e :| e in edges && item == ToDriver(b.graph, b.container)(e) {
      assert StoredIn(v, b, Hop(b.container, e));
    }
    if h :| StoredIn(v, b, h) && item == Follow(b.graph, h.edge.driver, h.path) {
      assert h.edge in edges;
    }
  }

  /** A stored edge into the port of a pin. */
  ghost predicate StoredIn(v: View, b: Pin, h: Hop)
  {
    Placed(v, h) && h.path == b.container && h.edge.sink == b.end
  }

  /** A stored edge out of the port of a pin. */
  ghost predicate StoredOut(v: View, a: Pin, h: Hop)
  {
    Placed(v, h) && h.path == a.container && h.edge.driver == a.end
  }

  lemma {:induction false} StoredIns(v: View, a: Pin, b: Pin, depth: nat)
    requires WellFormed(v) && Listed(v, b) && PinFits(v, b)
    ensures a in AllResolved(v, true, StoredInto(v, b), depth) <==> exists h :: StoredIn(v, b, h) && Fed(v, h, depth, a)
  {
    var items := StoredInto(v, b);
    InAllResolved(v, true, items, depth, a);
    if item: Item :| item in items && ItemFits(v, item) && a in OneResolved(v, true, item, depth) {
      StoredInItems(v, b, item);
      var h :| StoredIn(v, b, h) && item == Follow(b.graph, h.edge.driver, h.path);
      DriverChains(v, h, depth, a);
    }
    if h :| StoredIn(v, b, h) && Fed(v, h, depth, a) {
      StoredInFound(v, a, b, h, depth);
    }
  }

  lemma {:induction false} StoredInFound(v: View, a: Pin, b: Pin, h: Hop, depth: nat)
    requires WellFormed(v) && Listed(v, b) && PinFits(v, b) && StoredIn(v, b, h) && Fed(v, h, depth, a)
    ensures exists item: Item :: item in StoredInto(v, b) && ItemFits(v, item) && a in OneResolved(v, true, item, depth)
  {
    var item := Follow(b.graph, h.edge.driver, h.path);
    StoredInItems(v, b, item);
    DriverChains(v, h, depth, a);
    assert a in OneResolved(v, true, item, depth);
  }

  lemma {:induction false} StoredOutItems(v: View, a: Pin, item: Item)
    requires WellFormed(v) && Listed(v, a) && PinFits(v, a)
    ensures item in StoredOutOf(v, a) <==>
            exists h :: StoredOut(v, a, h) && item == Follow(a.graph, h.edge.sink, h.path)
  {
    ListedFits(v, a);
    var edges := OutOf(v, a.graph, a.end, Unrolled(v, a.graph, a.end.node));
    EachHas(edges, ToSink(a.graph, a.container), item);
    if e :| e in edges && item == ToSink(a.graph, a.container)(e) {
      assert StoredOut(v, a, Hop(a.container, e));
    }
    if h :| StoredOut(v, a, h) && item == Follow(a.graph, h.edge.sink, h.path) {
      assert h.edge in edges;
    }
  }

  lemma {:induction false} StoredOuts(v: View, a: Pin, b: Pin)
    requires WellFormed(v) && Listed(v, a) && PinFits(v, a)
    ensures b in AllResolved(v, false, StoredOutOf(v, a), 0) <==> exists h :: StoredOut(v, a, h) && Read(v, h, 0, b)
  {
    var items := StoredOutOf(v, a);
    InAllResolved(v, false, items, 0, b);
    if item: Item :| item in items && ItemFits(v, item) && b in OneResolved(v, false, item, 0) {
      StoredOutItems(v, a, item);
      var h :| StoredOut(v, a, h) && item == Follow(a.graph, h.edge.sink, h.path);
      SinkChains(v, h, 0, b);
    }
    if h :| StoredOut(v, a, h) && Read(v, h, 0, b) {
      StoredOutFound(v, a, b, h);
    }
  }

  lemma {:induction false} StoredOutFound(v: View, a: Pin, b: Pin, h: Hop)
    requires WellFormed(v) && Listed(v, a) && PinFits(v, a) && StoredOut(v, a, h) && Read(v, h, 0, b)
    ensures exists item: Item :: item in StoredOutOf(v, a) && ItemFits(v, item) && b in OneResolved(v, false, item, 0)
  {
    var item := Follow(a.graph, h.edge.sink, h.path);
    StoredOutItems(v, a, item);
    SinkChains(v, h, 0, b);
    assert b in OneResolved(v, false, item, 0);
  }

  /** The ordinals that stored edges reach. */
  ghost predicate ReadsStored(v: View, b: Pin)
  {
    OfOrdinal(v, b) ==> OrdinalOf(v, b) < Reading(v, b.graph, b.end)
  }

  // ---------- recurrences ----------

  /** A recurrence leads to the next ordinal of the same call. */
  lemma {:induction false} RecursForward(v: View, a: Pin, b: Pin)
    requires Recurs(v, a, b)
    ensures OfOrdinal(v, b) && OrdinalOf(v, b) == OrdinalOf(v, a) + 1 && !b.driver
    ensures a.graph == b.graph && a.container == b.container && a.end.node == b.end.node
    ensures a == AtOrdinal(b, OrdinalOf(v, b) - 1, a.end.port, a.driver)
  {
    assert Last(b.identity) == Step(a.graph, a.end.node, Some(OrdinalOf(v, a) + 1));
  }

  lemma {:induction false} RecursIntoReader(v: View, a: Pin, b: Pin)
    requires WellFormed(v) && Recurs(v, a, b)
    ensures OfOrdinal(v, b) && OrdinalOf(v, b) == OrdinalOf(v, a) + 1 && Recurrent(v, b.graph, b.end) && !ReadsStored(v, b)
    ensures Sub(v, b.graph, b.end.node).loop.value.index != Some(b.end.port)
  {
    RecursForward(v, a, b);
    assert LoopFits(v, a.graph, a.end.node);
    if a.driver {
      NextInput(v, a.graph, a.end.node, a.end.port, b.end.port);
    }
  }

  /** What an ordinal reads from the one before is what recurs into it. */
  lemma {:induction false} PreviousRecurs(v: View, a: Pin, b: Pin)
    requires WellFormed(v) && Listed(v, b) && !b.driver
    requires OfOrdinal(v, b) && OrdinalOf(v, b) != 0 && Recurrent(v, b.graph, b.end)
    ensures a in FromPrevious(v, b) <==> Recurs(v, a, b)
  {
    assert LoopFits(v, b.graph, b.end.node);
    FromPreviousHas(v, a, b);
    if Recurs(v, a, b) {
      RecurrenceIsPrevious(v, a, b);
    }
    if IsPrevious(v, a, b) {
      PreviousIsRecurrence(v, a, b);
    }
  }

  /** A pin of the ordinal before, the carry into an input, or the input itself. */
  ghost predicate IsPrevious(v: View, a: Pin, b: Pin)
    requires OfOrdinal(v, b) && OrdinalOf(v, b) != 0
  {
    a == AtOrdinal(b, OrdinalOf(v, b) - 1, a.end.port, a.driver)
    && if a.driver then Source(v, b.graph, b.end.node, b.end.port) == Some(a.end.port)
       else a.end.port == b.end.port && Sub(v, b.graph, b.end.node).loop.value.activation.Some?
  }

  lemma {:induction false} RecurrenceIsPrevious(v: View, a: Pin, b: Pin)
    requires WellFormed(v) && Recurs(v, a, b) && OfOrdinal(v, b) && OrdinalOf(v, b) != 0
    ensures IsPrevious(v, a, b)
  {
    RecursForward(v, a, b);
    RecursIntoReader(v, a, b);
    SourceIs(v, b.graph, b.end.node, a.end.port, b.end.port);
  }

  lemma {:induction false} PreviousIsRecurrence(v: View, a: Pin, b: Pin)
    requires WellFormed(v) && Listed(v, b) && !b.driver
    requires OfOrdinal(v, b) && OrdinalOf(v, b) != 0 && Recurrent(v, b.graph, b.end) && LoopFits(v, b.graph, b.end.node) && IsPrevious(v, a, b)
    ensures Recurs(v, a, b)
  {
    SourceIs(v, b.graph, b.end.node, a.end.port, b.end.port);
    RecurrentBy(v, b);
    NextOf(v, a, b);
  }

  lemma {:induction false} FromPreviousHas(v: View, a: Pin, b: Pin)
    requires OfOrdinal(v, b) && LoopFits(v, b.graph, b.end.node) && OrdinalOf(v, b) != 0 && Recurrent(v, b.graph, b.end)
    ensures a in FromPrevious(v, b) <==> IsPrevious(v, a, b)
  {
  }

  lemma {:induction false} RecurrentBy(v: View, b: Pin)
    requires OfOrdinal(v, b) && Recurrent(v, b.graph, b.end)
    ensures Sub(v, b.graph, b.end.node).loop.value.activation == Some(b.end.port)
            || exists e :: e in Carries(v, b.graph, b.end.node) && e.sink == b.end
  {
    var carries := Carries(v, b.graph, b.end.node);
    if CarryInto(carries, b.end.port).Some? {
      var e :| e in carries && e.sink.port == b.end.port;
      assert e.sink == b.end;
    }
  }

  lemma {:induction false} NextOf(v: View, a: Pin, b: Pin)
    requires WellFormed(v) && Listed(v, b) && OfOrdinal(v, b) && OrdinalOf(v, b) != 0
    requires a == AtOrdinal(b, OrdinalOf(v, b) - 1, a.end.port, a.driver)
    ensures OfOrdinal(v, a) && OrdinalOf(v, a) + 1 == OrdinalOf(v, b)
    ensures a == AtOrdinal(a, OrdinalOf(v, a), a.end.port, a.driver) && b == AtOrdinal(a, OrdinalOf(v, a) + 1, b.end.port, b.driver)
    ensures OrdinalOf(v, b) < GroupSize(Sub(v, b.graph, b.end.node))
  {
    ListedFits(v, b);
    assert Last(a.identity) == Step(b.graph, b.end.node, Some(OrdinalOf(v, b) - 1));
  }

  lemma {:induction false} NextRecurs(v: View, a: Pin, b: Pin)
    requires WellFormed(v) && Listed(v, a) && OfOrdinal(v, a)
    ensures b in ToNext(v, a) <==> Recurs(v, a, b)
  {
    assert LoopFits(v, a.graph, a.end.node);
    if b in ToNext(v, a) {
      ListedFits(v, a);
      NextIsRecurrence(v, a, b);
    }
    if Recurs(v, a, b) {
      RecurrenceIsNext(v, a, b);
    }
  }

  lemma {:induction false} CarriedHas(p: Pin, carries: seq<Edge>, ordinal: nat, b: Pin)
    ensures b in CarriedTo(p, carries, ordinal) <==> exists e :: e in carries && b == AtOrdinal(p, ordinal, e.sink.port, false)
  {
    var pins := CarriedTo(p, carries, ordinal);
    if b in pins {
      var k :| 0 <= k < |pins| && pins[k] == b;
      assert carries[k] in carries;
    }
    if e :| e in carries && b == AtOrdinal(p, ordinal, e.sink.port, false) {
      var k :| 0 <= k < |carries| && carries[k] == e;
      assert pins[k] == b;
    }
  }

  lemma {:induction false} NextIsRecurrence(v: View, a: Pin, b: Pin)
    requires OfOrdinal(v, a) && LoopFits(v, a.graph, a.end.node) && b in ToNext(v, a)
    requires a == AtOrdinal(a, OrdinalOf(v, a), a.end.port, a.driver)
    ensures Recurs(v, a, b)
  {
    if a.driver {
      OutputIsNext(v, a, b);
    } else {
      InputIsNext(v, a, b);
    }
  }

  lemma {:induction false} OutputIsNext(v: View, a: Pin, b: Pin)
    requires OfOrdinal(v, a) && a.driver && b in ToNext(v, a)
    requires a == AtOrdinal(a, OrdinalOf(v, a), a.end.port, a.driver)
    ensures Recurs(v, a, b)
  {
    var carries, r := Carries(v, a.graph, a.end.node), OrdinalOf(v, a) + 1;
    var loop := Sub(v, a.graph, a.end.node).loop.value;
    var carried := CarriedTo(a, CarriesOutOf(carries, a.end.port), r);
    assert b in carried || (loop.activation.Some? && loop.nextActive == Some(a.end.port) && b == AtOrdinal(a, r, loop.activation.value, false));
    if b in carried {
      CarriedOutput(a, carries, r, b);
    }
  }

  lemma {:induction false} CarriedOutput(p: Pin, carries: seq<Edge>, ordinal: nat, b: Pin)
    requires b in CarriedTo(p, CarriesOutOf(carries, p.end.port), ordinal)
    requires forall e :: e in carries ==> e.driver.node == p.end.node && e.sink.node == p.end.node
    ensures b == AtOrdinal(p, ordinal, b.end.port, false) && Edge(p.end, b.end) in carries
  {
    CarriedHas(p, CarriesOutOf(carries, p.end.port), ordinal, b);
    var e :| e in CarriesOutOf(carries, p.end.port) && b == AtOrdinal(p, ordinal, e.sink.port, false);
    assert e == Edge(p.end, b.end);
  }

  lemma {:induction false} InputIsNext(v: View, a: Pin, b: Pin)
    requires OfOrdinal(v, a) && !a.driver && b in ToNext(v, a)
    requires a == AtOrdinal(a, OrdinalOf(v, a), a.end.port, a.driver)
    ensures Recurs(v, a, b)
  {
    var carries, r := Carries(v, a.graph, a.end.node), OrdinalOf(v, a) + 1;
    var loop := Sub(v, a.graph, a.end.node).loop.value;
    var carried := CarriedTo(a, CarriesInto(carries, a.end.port), r);
    assert b in carried || (loop.activation == Some(a.end.port) && b == AtOrdinal(a, r, a.end.port, false));
    if b in carried {
      CarriedInput(a, carries, r, b);
    }
  }

  lemma {:induction false} CarriedInput(p: Pin, carries: seq<Edge>, ordinal: nat, b: Pin)
    requires b in CarriedTo(p, CarriesInto(carries, p.end.port), ordinal) && forall e :: e in carries ==> e.sink.node == p.end.node
    ensures b == AtOrdinal(p, ordinal, p.end.port, false) && b.end == p.end && exists e :: e in carries && e.sink == b.end
  {
    CarriedHas(p, CarriesInto(carries, p.end.port), ordinal, b);
    var e :| e in CarriesInto(carries, p.end.port) && b == AtOrdinal(p, ordinal, e.sink.port, false);
    assert e.sink == p.end;
  }

  lemma {:induction false} RecurrenceIsNext(v: View, a: Pin, b: Pin)
    requires OfOrdinal(v, a) && LoopFits(v, a.graph, a.end.node) && Recurs(v, a, b)
    ensures b in ToNext(v, a)
  {
    var carries, r := Carries(v, a.graph, a.end.node), OrdinalOf(v, a) + 1;
    CarriedHas(a, CarriesOutOf(carries, a.end.port), r, b);
    CarriedHas(a, CarriesInto(carries, a.end.port), r, b);
    if a.driver && Edge(a.end, b.end) in carries {
      assert Edge(a.end, b.end) in CarriesOutOf(carries, a.end.port);
    }
  }

  // ---------- the inputs of an ordinal with a body ----------

  /** The index of an ordinal with a body is supplied at the boundary of that body. */
  ghost predicate Supplied(v: View, a: Pin, b: Pin)
  {
    ThroughBody(v, b) && Sub(v, b.graph, b.end.node).loop.value.index == Some(b.end.port)
    && a == Pin(Sub(v, b.graph, b.end.node).target, End(INPUT, b.end.port), true, b.identity, b.identity)
  }

  /** The ordinal is descended into. */
  ghost predicate EnteredOrdinal(v: View, b: Pin)
    requires Anchored(v, b.container)
  {
    OfOrdinal(v, b) && Entered(v, b.container, b.end.node)
  }

  /** An edge that in-edges are found by: into the port, or, for an ordinal that is entered, what feeds the input inside. */
  ghost predicate FirstIn(v: View, b: Pin, h: Hop)
    requires PinFits(v, b)
  {
    if EnteredOrdinal(v, b) then b.identity != [] && FeedsInput(v, b.identity, b.end.port, h) else ReadsStored(v, b) && StoredIn(v, b, h)
  }

  /** A pin of the ordinal before that is listed without following an edge. */
  ghost predicate ReadsPrevious(v: View, a: Pin, b: Pin)
    requires PinFits(v, b)
  {
    if EnteredOrdinal(v, b) then Bypassed(v, b.identity, b.end.port, a) else Recurs(v, a, b)
  }

  /** What is listed without following an edge. */
  ghost predicate Directly(v: View, a: Pin, b: Pin)
    requires PinFits(v, b)
  {
    Supplied(v, a, b) || ReadsPrevious(v, a, b)
  }

  lemma {:induction false} OneAnswer(v: View, p: Pin, depth: nat)
    ensures AllResolved(v, true, [Answer(p)], depth) == [p]
  {
    assert [Answer(p)][1..] == [];
    assert AllResolved(v, true, [], depth) == [];
  }

  lemma {:induction false} TwoAnswers(v: View, p: Pin, q: Pin, depth: nat)
    ensures AllResolved(v, true, [Answer(p)] + [Answer(q)], depth) == [p] + [q]
  {
    OneAnswer(v, q, depth);
    assert ([Answer(p)] + [Answer(q)])[1..] == [Answer(q)];
  }

  lemma {:induction false} BoundaryIs(v: View, b: Pin)
    requires WellFormed(v) && Listed(v, b) && PinFits(v, b) && ThroughBody(v, b)
    ensures b.identity != [] && Front(b.identity) == b.container && Last(b.identity) == Step(b.graph, b.end.node, Some(OrdinalOf(v, b)))
    ensures OrdinalOf(v, b) < Ordinals(v, Sub(v, b.graph, b.end.node)) && Ord(b.identity) == OrdinalOf(v, b)
    ensures Ins(v, b) == AllResolved(v, true, InputItems(v, Sub(v, b.graph, b.end.node).target, End(INPUT, b.end.port), b.identity), 1)
  {
    ListedFits(v, b);
    var ordinal :| 0 <= ordinal < Ordinals(v, Sub(v, b.graph, b.end.node)) && b.identity == b.container + [CallAt(v, b, ordinal)];
    assert Last(b.identity) == CallAt(v, b, ordinal);
    assert Front(b.identity) == b.container;
  }

  lemma {:induction false} IndexIsSupplied(v: View, a: Pin, b: Pin)
    requires WellFormed(v) && Listed(v, b) && PinFits(v, b) && ThroughBody(v, b)
    requires Sub(v, b.graph, b.end.node).loop.value.index == Some(b.end.port)
    ensures a in Ins(v, b) <==> Supplied(v, a, b)
  {
    BoundaryIs(v, b);
    var p := Pin(Sub(v, b.graph, b.end.node).target, End(INPUT, b.end.port), true, b.identity, b.identity);
    assert InputItems(v, Sub(v, b.graph, b.end.node).target, End(INPUT, b.end.port), b.identity) == [Answer(p)];
    OneAnswer(v, p, 1);
  }

  lemma {:induction false} PreviousThroughBody(v: View, b: Pin)
    requires WellFormed(v) && Listed(v, b) && PinFits(v, b) && ThroughBody(v, b) && !EnteredOrdinal(v, b)
    requires Sub(v, b.graph, b.end.node).loop.value.index != Some(b.end.port) && OrdinalOf(v, b) != 0 && Recurrent(v, b.graph, b.end)
    ensures Ins(v, b) == FromPrevious(v, b)
  {
    BoundaryIs(v, b);
    ListedFits(v, b);
    assert LoopFits(v, b.graph, b.end.node);
    var loop, r := Sub(v, b.graph, b.end.node).loop.value, OrdinalOf(v, b) - 1;
    var carry := CarryInto(Carries(v, b.graph, b.end.node), b.end.port);
    assert Previous(b.identity) == Step(b.graph, b.end.node, Some(r));
    assert v.verdict(b.container, b.graph, b.end.node) != Descend;
    var input := AtOrdinal(b, r, b.end.port, false);
    OneAnswer(v, input, 1);
    if carry.Some? {
      var output := AtOrdinal(b, r, carry.value, true);
      assert OutputItems(v, b.identity, carry.value) == [Answer(output)];
      assert [Answer(output)] + [] == [Answer(output)] && [output] + [] == [output];
      OneAnswer(v, output, 1);
      TwoAnswers(v, output, input, 1);
    } else if loop.nextActive.Some? {
      var output := AtOrdinal(b, r, loop.nextActive.value, true);
      assert OutputItems(v, b.identity, loop.nextActive.value) == [Answer(output)];
      TwoAnswers(v, input, output, 1);
    } else {
      assert [Answer(input)] + [] == [Answer(input)] && [input] + [] == [input];
    }
  }

  lemma {:induction false} StoredThroughBody(v: View, b: Pin)
    requires WellFormed(v) && Listed(v, b) && PinFits(v, b) && ThroughBody(v, b)
    requires Sub(v, b.graph, b.end.node).loop.value.index != Some(b.end.port) && (OrdinalOf(v, b) == 0 || !Recurrent(v, b.graph, b.end))
    ensures Ins(v, b) == AllResolved(v, true, StoredInto(v, b), 1)
  {
    BoundaryIs(v, b);
    var edges := Into(v, b.graph, b.end, Some(b.end.node));
    var items := Each(edges, FromOutside(b.identity));
    assert Unrolled(v, b.graph, b.end.node) == Some(b.end.node) && End(b.end.node, b.end.port) == b.end;
    assert InputItems(v, Sub(v, b.graph, b.end.node).target, End(INPUT, b.end.port), b.identity) == items;
    forall k | 0 <= k < |edges|
      ensures items[k] == StoredInto(v, b)[k]
    {
      assert edges[k] in edges;
    }
    assert items == StoredInto(v, b);
  }

  /** Which ordinals stored edges reach, by the roles of the port. */
  lemma {:induction false} StoredByRole(v: View, b: Pin)
    requires WellFormed(v) && Listed(v, b) && OfOrdinal(v, b)
    ensures ReadsStored(v, b) <==>
            Sub(v, b.graph, b.end.node).loop.value.index != Some(b.end.port) && (OrdinalOf(v, b) == 0 || !Recurrent(v, b.graph, b.end))
  {
    ListedFits(v, b);
  }

  /** The in-edges of a pin that is not of an entered ordinal. */
  lemma {:induction false} InsAtCall(v: View, a: Pin, b: Pin)
    requires WellFormed(v) && Listed(v, b) && !b.driver && PinFits(v, b) && !EnteredOrdinal(v, b)
    ensures a in Ins(v, b) <==>
            Supplied(v, a, b) || Recurs(v, a, b) || (ReadsStored(v, b) && a in AllResolved(v, true, StoredInto(v, b), Spent(ThroughBody(v, b))))
  {
    if Recurs(v, a, b) {
      RecursIntoReader(v, a, b);
    }
    if OfOrdinal(v, b) {
      StoredByRole(v, b);
      InsOfOrdinal(v, a, b);
    }
  }

  lemma {:induction false} InsOfOrdinal(v: View, a: Pin, b: Pin)
    requires WellFormed(v) && Listed(v, b) && !b.driver && PinFits(v, b) && !EnteredOrdinal(v, b) && OfOrdinal(v, b)
    ensures a in Ins(v, b) <==>
            if Sub(v, b.graph, b.end.node).loop.value.index == Some(b.end.port) then Supplied(v, a, b)
            else if OrdinalOf(v, b) != 0 && Recurrent(v, b.graph, b.end) then Recurs(v, a, b)
            else a in AllResolved(v, true, StoredInto(v, b), Spent(ThroughBody(v, b)))
  {
    if Sub(v, b.graph, b.end.node).loop.value.index == Some(b.end.port) {
      if ThroughBody(v, b) {
        IndexIsSupplied(v, a, b);
      }
    } else if OrdinalOf(v, b) != 0 && Recurrent(v, b.graph, b.end) {
      PreviousRecurs(v, a, b);
      if ThroughBody(v, b) {
        PreviousThroughBody(v, b);
      }
    } else if ThroughBody(v, b) {
      StoredThroughBody(v, b);
    }
  }

  /** The in-edges of an ordinal that is entered are those of the input inside. */
  lemma {:induction false} InsOfEntered(v: View, a: Pin, b: Pin)
    requires WellFormed(v) && Listed(v, b) && PinFits(v, b) && EnteredOrdinal(v, b)
    ensures a in Ins(v, b) <==>
            Supplied(v, a, b) || Bypassed(v, b.identity, b.end.port, a) || exists h :: FirstIn(v, b, h) && Fed(v, h, 1, a)
  {
    BoundaryIs(v, b);
    BoundaryIsOpen(v, b);
    var items := InputItems(v, BodyAt(v, b.identity), End(INPUT, b.end.port), b.identity);
    InAllResolved(v, true, items, 1, a);
    if item: Item :| item in items && ItemFits(v, item) && a in OneResolved(v, true, item, 1) {
      InputStep(v, b.identity, b.end.port, item);
      EnteredLeads(v, a, b, item);
    }
    if Supplied(v, a, b) || Bypassed(v, b.identity, b.end.port, a) {
      InputStep(v, b.identity, b.end.port, Answer(a));
      assert a in OneResolved(v, true, Answer(a), 1);
    }
    if h :| FirstIn(v, b, h) && Fed(v, h, 1, a) {
      EnteredFound(v, a, b, h);
    }
  }

  lemma {:induction false} BoundaryIsOpen(v: View, b: Pin)
    requires WellFormed(v) && Listed(v, b) && PinFits(v, b) && EnteredOrdinal(v, b)
    ensures Open(v, b.identity) && BodyAt(v, b.identity) == Sub(v, b.graph, b.end.node).target && BodyAt(v, b.identity) in v.bodies
    ensures Within(v, b.container, b.end.node, b.identity) && Expanded(v, Sub(v, Last(b.identity).graph, Last(b.identity).site))
    ensures forall port: nat :: TakesIndex(v, b.identity, port) <==> Sub(v, b.graph, b.end.node).loop.value.index == Some(port)
  {
    BoundaryIs(v, b);
    InnerIsWithin(v, b.container, b.end.node, OrdinalOf(v, b));
    WithinIsOpen(v, b.container, b.end.node, b.identity);
  }

  lemma {:induction false} EnteredLeads(v: View, a: Pin, b: Pin, item: Item)
    requires WellFormed(v) && Listed(v, b) && PinFits(v, b) && EnteredOrdinal(v, b) && b.identity != []
    requires InputLeads(v, b.identity, b.end.port, item) && ItemFits(v, item) && a in OneResolved(v, true, item, 1)
    ensures Supplied(v, a, b) || Bypassed(v, b.identity, b.end.port, a) || exists h :: FirstIn(v, b, h) && Fed(v, h, 1, a)
  {
    BoundaryIsOpen(v, b);
    if item.Follow? {
      var e :| FeedsInput(v, b.identity, b.end.port, Hop(item.path, e)) && item.end == e.driver && item.graph == BodyAt(v, item.path);
      DriverChains(v, Hop(item.path, e), 1, a);
      assert FirstIn(v, b, Hop(item.path, e));
    }
  }

  lemma {:induction false} EnteredFound(v: View, a: Pin, b: Pin, h: Hop)
    requires WellFormed(v) && Listed(v, b) && PinFits(v, b) && EnteredOrdinal(v, b) && FirstIn(v, b, h) && Fed(v, h, 1, a)
    ensures BodyAt(v, b.identity) in v.bodies
    ensures exists item: Item :: item in InputItems(v, BodyAt(v, b.identity), End(INPUT, b.end.port), b.identity)
                                 && ItemFits(v, item) && a in OneResolved(v, true, item, 1)
  {
    BoundaryIsOpen(v, b);
    var item := Follow(BodyAt(v, h.path), h.edge.driver, h.path);
    assert Hop(item.path, h.edge) == h;
    InputStep(v, b.identity, b.end.port, item);
    DriverChains(v, h, 1, a);
    assert a in OneResolved(v, true, item, 1);
  }

  // ---------- exactness ----------

  /** The in-edges of a listed sink, for every pin: what chains towards the drivers lead to, the recurrences into it, and the
      index at the boundary of a body. */
  lemma {:induction false} InsAreExact(v: View, a: Pin, b: Pin)
    requires WellFormed(v) && Listed(v, b) && !b.driver
    ensures PinFits(v, b)
    ensures a in Ins(v, b) <==>
            Directly(v, a, b) || exists h :: FirstIn(v, b, h) && Fed(v, h, Spent(ThroughBody(v, b)), a)
  {
    ListedFits(v, b);
    if EnteredOrdinal(v, b) {
      InsOfEntered(v, a, b);
    } else {
      InsAtCall(v, a, b);
      StoredIns(v, a, b, Spent(ThroughBody(v, b)));
    }
  }

  /** Of a loop, only the last ordinal drives stored edges. */
  ghost predicate DrivesStored(v: View, a: Pin)
  {
    a.driver && OfOrdinal(v, a) ==> OrdinalOf(v, a) + 1 == GroupSize(Sub(v, a.graph, a.end.node))
  }

  /** An edge that out-edges are found by. */
  ghost predicate FirstOut(v: View, a: Pin, h: Hop)
  {
    StoredOut(v, a, h) && DrivesStored(v, a)
  }

  /** The out-edges of a listed pin, for every pin: what chains towards the sinks lead to, and the recurrences out of it. */
  lemma {:induction false} OutsAreExact(v: View, a: Pin, b: Pin)
    requires WellFormed(v) && Listed(v, a)
    ensures PinFits(v, a)
    ensures b in Outs(v, a) <==> Recurs(v, a, b) || exists h :: FirstOut(v, a, h) && Read(v, h, 0, b)
  {
    ListedFits(v, a);
    OutsByKind(v, a, b);
    StoredOuts(v, a, b);
    if OfOrdinal(v, a) {
      NextRecurs(v, a, b);
    }
  }

  lemma {:induction false} OutsByKind(v: View, a: Pin, b: Pin)
    requires PinFits(v, a)
    ensures b in Outs(v, a) <==>
            (OfOrdinal(v, a) && b in ToNext(v, a)) || (DrivesStored(v, a) && b in AllResolved(v, false, StoredOutOf(v, a), 0))
  {
  }

  /** How far in-edges reach: to the ends of all chains of up to 257 stored edges; for an input that is looked up through a body, of up to
      256. */
  lemma {:induction false} InsReach(v: View, c: seq<Hop>, a: Pin, b: Pin)
    requires WellFormed(v) && Listed(v, b) && !b.driver && PinFits(v, b)
    requires Chain(v, true, c) && FirstIn(v, b, c[0]) && AnswersDriver(v, c[|c| - 1], a) && |c| <= if ThroughBody(v, b) then 256 else 257
    ensures a in Ins(v, b)
  {
    InsAreExact(v, a, b);
    assert ChainFrom(v, c[0], c, Spent(ThroughBody(v, b)), a);
    assert Fed(v, c[0], Spent(ThroughBody(v, b)), a);
  }

  /** How far out-edges reach. */
  lemma {:induction false} OutsReach(v: View, c: seq<Hop>, a: Pin, b: Pin)
    requires WellFormed(v) && Listed(v, a) && PinFits(v, a)
    requires Chain(v, false, c) && FirstOut(v, a, c[|c| - 1]) && EndsAt(v, c[0], b) && |c| <= 257
    ensures b in Outs(v, a)
  {
    OutsAreExact(v, a, b);
    assert ChainTo(v, c[|c| - 1], c, 0, b);
    assert Read(v, c[|c| - 1], 0, b);
  }

  /** Beyond that they find nothing: every pin listed is at the end of such a chain, recurs, or supplies an index. */
  lemma {:induction false} InsReachNoFurther(v: View, a: Pin, b: Pin)
    requires WellFormed(v) && Listed(v, b) && !b.driver && PinFits(v, b) && a in Ins(v, b) && !Directly(v, a, b)
    ensures exists c: seq<Hop> :: Chain(v, true, c) && FirstIn(v, b, c[0]) && AnswersDriver(v, c[|c| - 1], a)
                                  && |c| <= if ThroughBody(v, b) then 256 else 257
  {
    InsAreExact(v, a, b);
    var h :| FirstIn(v, b, h) && Fed(v, h, Spent(ThroughBody(v, b)), a);
    var c :| ChainFrom(v, h, c, Spent(ThroughBody(v, b)), a);
  }

  // ---------- when the two directions agree ----------

  /** Edges around a loop without ordinals: one into it, which a carry takes past it, and one out of it. */
  ghost predicate CarriedPast(v: View, g: nat, site: nat, e: Edge, f: Edge)
    requires IsSub(v, g, site)
  {
    e in v.bodies[g].edges && e.sink.node == site && e.driver.node != site
    && f in v.bodies[g].edges && f.driver.node == site && f.sink.node != site
    && CarryOutOf(Carries(v, g, site), f.driver.port) == Some(e.sink.port)
  }

  /** An edge into a call, from itself or not, and an edge inside from the same input. */
  ghost predicate ReachesInside(v: View, g: nat, site: nat, e: Edge, f: Edge)
    requires IsSub(v, g, site) && HasBody(v, g, site)
  {
    e in v.bodies[g].edges && e.sink.node == site
    && f in v.bodies[Sub(v, g, site).target].edges && f.driver == End(INPUT, e.sink.port)
  }

  /** An edge out of a call, to itself or not, and an edge inside into the same output. */
  ghost predicate DrivenInside(v: View, g: nat, site: nat, itself: bool, e: Edge, f: Edge)
    requires IsSub(v, g, site) && HasBody(v, g, site)
  {
    e in v.bodies[g].edges && e.driver.node == site && (e.sink.node == site <==> itself)
    && f in v.bodies[Sub(v, g, site).target].edges && f.sink == End(OUTPUT, e.driver.port)
  }

  /** An edge inside into an output that the next ordinal reads, and an edge inside from the input it reads it at. */
  ghost predicate CarriedInside(v: View, g: nat, site: nat, e: Edge, f: Edge)
    requires IsSub(v, g, site) && HasBody(v, g, site) && Sub(v, g, site).loop.Some?
  {
    e in v.bodies[Sub(v, g, site).target].edges && e.sink.node == OUTPUT
    && f in v.bodies[Sub(v, g, site).target].edges && f.driver.node == INPUT
    && NextReads(v, g, site, e.sink.port, f.driver.port)
  }

  /** An edge inside from an input that a loop which can be inactive passes on from one ordinal to the next. */
  ghost predicate PassedInside(v: View, g: nat, site: nat, f: Edge)
    requires IsSub(v, g, site) && HasBody(v, g, site) && Sub(v, g, site).loop.Some?
  {
    Sub(v, g, site).loop.value.activation.Some?
    && f in v.bodies[Sub(v, g, site).target].edges && f.driver.node == INPUT && Recurrent(v, g, End(site, f.driver.port))
  }

  /** Whether a call site treats both directions alike, by its loop, its verdict and the stored edges at its ports. */
  ghost predicate SiteFits(v: View, path: Path, site: nat)
    requires Anchored(v, path) && IsSub(v, BodyAt(v, path), site)
  {
    var g := BodyAt(v, path);
    var i := Sub(v, g, site);
    if i.loop == None || v.verdict(path, g, site) == Prune then true
    else if Ordinals(v, i) == 0 then !exists e, f :: CarriedPast(v, g, site, e, f)
    else if !Entered(v, path, site) then v.expand && HasBody(v, g, site) ==> i.loop.value.index == None
    else if !v.expand then (!exists e, f :: ReachesInside(v, g, site, e, f)) && !exists e, f :: DrivenInside(v, g, site, true, e, f)
    else Ordinals(v, i) == 1
         || ((!exists e, f :: DrivenInside(v, g, site, false, e, f)) && (!exists e, f :: CarriedInside(v, g, site, e, f))
             && !exists f :: PassedInside(v, g, site, f))
  }

  /** The two directions lead from the one edge to the other alike. */
  ghost predicate Alike(v: View, path: Path, site: nat, b: Hop, a: Hop)
    requires Anchored(v, path)
  {
    Placed(v, b) && Placed(v, a) && !Through(v, b) && !Through(v, a)
    ==> (FeedsAt(v, true, path, site, b, a) <==> FeedsAt(v, false, path, site, b, a))
  }

  /** Towards the drivers, an edge from an input inside a call stops at a pin of the call. */
  ghost predicate StopsAt(v: View, h: Hop, x: Pin)
    requires Placed(v, h)
  {
    h.edge.driver.node == INPUT && (Bypassed(v, h.path, h.edge.driver.port, x) || FromItself(v, h.path, h.edge.driver.port, x))
  }

  /** Towards the sinks, an edge from a pin of a call to the call itself leads to an edge inside. */
  ghost predicate Resumes(v: View, path: Path, site: nat, x: Pin, h: Hop)
    requires Anchored(v, path)
  {
    var e := Edge(x.end, End(site, h.edge.driver.port));
    x == Pin(BodyAt(v, path), x.end, true, h.path, path) && x.end.node == site
    && Placed(v, Hop(path, e)) && Enters(v, false, path, site, Hop(path, e), h)
  }

  /** The two directions lead from a pin of a call to an edge inside alike. */
  ghost predicate AlikeInside(v: View, path: Path, site: nat, x: Pin, h: Hop)
    requires Anchored(v, path)
  {
    Placed(v, h) && Within(v, path, site, h.path) ==> (StopsAt(v, h, x) <==> Resumes(v, path, site, x, h))
  }

  /** Without following an edge, a visible sink of a call lists a pin exactly when the pin lists the sink. */
  ghost predicate AlikeAtCall(v: View, path: Path, site: nat, x: Pin, b: Pin)
  {
    Reads(v, b) && PinFits(v, b) && b.container == path && b.end.node == site ==> (Directly(v, x, b) <==> Recurs(v, x, b))
  }

  ghost predicate Reads(v: View, b: Pin)
  {
    Visible(v, b) && !b.driver
  }

  ghost predicate SiteAgrees(v: View, path: Path, site: nat)
    requires Anchored(v, path)
  {
    (forall b, a {:trigger Alike(v, path, site, b, a)} :: Alike(v, path, site, b, a))
    && (forall x, h {:trigger AlikeInside(v, path, site, x, h)} :: AlikeInside(v, path, site, x, h))
    && forall x, b {:trigger AlikeAtCall(v, path, site, x, b)} :: AlikeAtCall(v, path, site, x, b)
  }

  /** Both directions take the same steps across the boundary of a site, from edge to edge, between its pins and the edges inside, and
      between its pins, exactly when the site fits. */
  lemma {:induction false} SiteAgreesIff(v: View, path: Path, site: nat)
    requires WellFormed(v) && Open(v, path) && Anchored(v, path) && IsSub(v, BodyAt(v, path), site)
    ensures SiteAgrees(v, path, site) <==> SiteFits(v, path, site)
  {
    OpenIsAnchored(v, path);
    if SiteFits(v, path, site) {
      FitsAgrees(v, path, site);
    } else {
      MisfitDiffers(v, path, site);
    }
  }

  lemma {:induction false} FitsAgrees(v: View, path: Path, site: nat)
    requires WellFormed(v) && Open(v, path) && Anchored(v, path) && IsSub(v, BodyAt(v, path), site) && SiteFits(v, path, site)
    ensures SiteAgrees(v, path, site)
  {
    forall b, a
      ensures Alike(v, path, site, b, a)
    {
      if Placed(v, b) && Placed(v, a) && !Through(v, b) && !Through(v, a) {
        FitsAlike(v, path, site, b, a);
      }
    }
    forall x, h
      ensures AlikeInside(v, path, site, x, h)
    {
      if Placed(v, h) && Within(v, path, site, h.path) {
        FitsInside(v, path, site, x, h);
      }
    }
    forall x, b
      ensures AlikeAtCall(v, path, site, x, b)
    {
      if Reads(v, b) && b.container == path && b.end.node == site {
        ReadsIsNotEntered(v, b);
      }
    }
  }

  /** An ordinal that resolutions end at is not entered. */
  lemma {:induction false} ReadsIsNotEntered(v: View, b: Pin)
    requires WellFormed(v) && Visible(v, b)
    ensures PinFits(v, b) && !EnteredOrdinal(v, b)
    ensures OfOrdinal(v, b) ==> !Entered(v, b.container, b.end.node) && Ordinals(v, Sub(v, b.graph, b.end.node)) > 0
                                && v.verdict(b.container, b.graph, b.end.node) != Prune
  {
    ListedFits(v, b);
  }

  lemma {:induction false} FitsAlike(v: View, path: Path, site: nat, b: Hop, a: Hop)
    requires WellFormed(v) && Anchored(v, path) && IsSub(v, BodyAt(v, path), site) && SiteFits(v, path, site)
    requires Placed(v, b) && Placed(v, a) && !Through(v, b) && !Through(v, a)
    ensures FeedsAt(v, true, path, site, b, a) <==> FeedsAt(v, false, path, site, b, a)
  {
    if Entered(v, path, site) {
      EnteredEnters(v, path, site, b, a);
      EnteredLeaves(v, path, site, b, a);
      CarriesInside(v, path, site, b, a);
    } else {
      CarriesPast(v, path, site, b, a);
    }
  }

  lemma {:induction false} CarriesPast(v: View, path: Path, site: nat, b: Hop, a: Hop)
    requires WellFormed(v) && Anchored(v, path) && IsSub(v, BodyAt(v, path), site) && Placed(v, b) && Placed(v, a)
    ensures Bypasses(v, path, site, b, a) ==> CarriedPast(v, BodyAt(v, path), site, b.edge, a.edge)
  {
  }

  lemma {:induction false} CarriesInside(v: View, path: Path, site: nat, b: Hop, a: Hop)
    requires WellFormed(v) && Anchored(v, path) && Placed(v, b) && Placed(v, a) && Entered(v, path, site)
    ensures Continues(v, path, site, b, a) ==> CarriedInside(v, BodyAt(v, path), site, b.edge, a.edge)
  {
    if Continues(v, path, site, b, a) {
      LastOfInner(v, path, site, a.path);
      LastOfInner(v, path, site, b.path);
    }
  }

  lemma {:induction false} Reaches(v: View, drivers: bool, path: Path, site: nat, b: Hop, a: Hop)
    requires WellFormed(v) && Anchored(v, path) && Placed(v, b) && Placed(v, a) && Entered(v, path, site)
    ensures Enters(v, drivers, path, site, b, a) ==> ReachesInside(v, BodyAt(v, path), site, b.edge, a.edge)
  {
    if Enters(v, drivers, path, site, b, a) {
      LastOfInner(v, path, site, a.path);
    }
  }

  lemma {:induction false} EnteredEnters(v: View, path: Path, site: nat, b: Hop, a: Hop)
    requires WellFormed(v) && Anchored(v, path) && Placed(v, b) && Placed(v, a) && Entered(v, path, site) && SiteFits(v, path, site)
    requires !Through(v, b)
    ensures Enters(v, true, path, site, b, a) <==> Enters(v, false, path, site, b, a)
  {
    Reaches(v, true, path, site, b, a);
    Reaches(v, false, path, site, b, a);
  }

  lemma {:induction false} DrivesInside(v: View, drivers: bool, path: Path, site: nat, b: Hop, a: Hop)
    requires WellFormed(v) && Anchored(v, path) && Placed(v, b) && Placed(v, a) && Entered(v, path, site)
    ensures Leaves(v, drivers, path, site, b, a) ==> DrivenInside(v, BodyAt(v, path), site, a.edge.sink.node == site, a.edge, b.edge)
    ensures Leaves(v, drivers, path, site, b, a) && a.edge.sink.node == site ==> Grouped(v, path, site) || Through(v, a)
  {
    if Leaves(v, drivers, path, site, b, a) {
      LastOfInner(v, path, site, b.path);
    }
  }

  lemma {:induction false} EnteredLeaves(v: View, path: Path, site: nat, b: Hop, a: Hop)
    requires WellFormed(v) && Anchored(v, path) && Placed(v, b) && Placed(v, a) && Entered(v, path, site) && SiteFits(v, path, site)
    requires !Through(v, a)
    ensures Leaves(v, true, path, site, b, a) <==> Leaves(v, false, path, site, b, a)
  {
    DrivesInside(v, true, path, site, b, a);
    DrivesInside(v, false, path, site, b, a);
  }

  lemma {:induction false} FitsInside(v: View, path: Path, site: nat, x: Pin, h: Hop)
    requires WellFormed(v) && Open(v, path) && Anchored(v, path) && IsSub(v, BodyAt(v, path), site) && SiteFits(v, path, site)
    requires Placed(v, h) && Within(v, path, site, h.path)
    ensures StopsAt(v, h, x) <==> Resumes(v, path, site, x, h)
  {
    LastOfInner(v, path, site, h.path);
    WithinIsOpen(v, path, site, h.path);
    var port := h.edge.driver.port;
    if StopsAt(v, h, x) {
      if Bypassed(v, h.path, port, x) {
        assert PassedInside(v, BodyAt(v, path), site, h.edge);
        assert false;
      }
      FromItselfResumes(v, path, site, x, h);
    }
    if Resumes(v, path, site, x, h) {
      assert FromItself(v, h.path, port, x);
    }
  }

  lemma {:induction false} FromItselfResumes(v: View, path: Path, site: nat, x: Pin, h: Hop)
    requires WellFormed(v) && Open(v, path) && Anchored(v, path) && IsSub(v, BodyAt(v, path), site) && SiteFits(v, path, site)
    requires Placed(v, h) && Within(v, path, site, h.path) && h.edge.driver.node == INPUT && FromItself(v, h.path, h.edge.driver.port, x)
    requires h.path != [] && Front(h.path) == path && Last(h.path).site == site && Last(h.path).graph == BodyAt(v, path)
    requires BodyAt(v, h.path) == Sub(v, BodyAt(v, path), site).target
    ensures Resumes(v, path, site, x, h)
  {
    var e := Edge(x.end, End(site, h.edge.driver.port));
    assert ReachesInside(v, BodyAt(v, path), site, e, h.edge);
    OpenIsAnchored(v, path);
    assert Placed(v, Hop(path, e));
    assert Reading(v, BodyAt(v, path), e.sink) == 1;
  }

  lemma {:induction false} MisfitDiffers(v: View, path: Path, site: nat)
    requires WellFormed(v) && Open(v, path) && Anchored(v, path) && BodyAt(v, path) in v.bodies && IsSub(v, BodyAt(v, path), site)
    requires !SiteFits(v, path, site)
    ensures !SiteAgrees(v, path, site)
  {
    var g := BodyAt(v, path);
    if Ordinals(v, Sub(v, g, site)) == 0 {
      var e, f :| CarriedPast(v, g, site, e, f);
      PastOneWay(v, path, site, e, f);
    } else if !Entered(v, path, site) {
      IndexOneWay(v, path, site);
    } else if !v.expand {
      if e, f :| ReachesInside(v, g, site, e, f) {
        EntersOneWay(v, path, site, e, f);
      } else {
        var e, f :| DrivenInside(v, g, site, true, e, f);
        LeavesOneWay(v, path, site, true, e, f);
      }
    } else {
      UnrolledDiffers(v, path, site);
    }
  }

  lemma {:induction false} UnrolledDiffers(v: View, path: Path, site: nat)
    requires WellFormed(v) && Open(v, path) && Anchored(v, path) && BodyAt(v, path) in v.bodies && Entered(v, path, site)
    requires !SiteFits(v, path, site) && v.expand
    ensures !SiteAgrees(v, path, site)
  {
    var g := BodyAt(v, path);
    if e, f :| DrivenInside(v, g, site, false, e, f) {
      LeavesOneWay(v, path, site, false, e, f);
    } else if e, f :| CarriedInside(v, g, site, e, f) {
      ContinuesOneWay(v, path, site, e, f);
    } else {
      var f :| PassedInside(v, g, site, f);
      PassedOneWay(v, path, site, f);
    }
  }

  lemma {:induction false} PastOneWay(v: View, path: Path, site: nat, e: Edge, f: Edge)
    requires WellFormed(v) && Open(v, path) && Anchored(v, path) && BodyAt(v, path) in v.bodies && IsSub(v, BodyAt(v, path), site)
    requires v.verdict(path, BodyAt(v, path), site) != Prune && Ordinals(v, Sub(v, BodyAt(v, path), site)) == 0
    requires CarriedPast(v, BodyAt(v, path), site, e, f)
    ensures exists b, a :: !Alike(v, path, site, b, a)
  {
    var b, a := Hop(path, e), Hop(path, f);
    NotWithinItself(v, path, site);
    assert Placed(v, b) && Placed(v, a) && Bypasses(v, path, site, b, a);
    assert !Alike(v, path, site, b, a);
  }

  /** The index of a loop that is not entered, but has a body, is listed at the boundary of that body. */
  lemma {:induction false} IndexOneWay(v: View, path: Path, site: nat)
    requires WellFormed(v) && Open(v, path) && Anchored(v, path) && IsSub(v, BodyAt(v, path), site)
    requires Expanded(v, Sub(v, BodyAt(v, path), site)) && Ordinals(v, Sub(v, BodyAt(v, path), site)) > 0 && HasBody(v, BodyAt(v, path), site)
    requires v.verdict(path, BodyAt(v, path), site) != Prune && !Entered(v, path, site)
    requires Sub(v, BodyAt(v, path), site).loop.value.index.Some?
    ensures exists x, b :: !AlikeAtCall(v, path, site, x, b)
  {
    var g := BodyAt(v, path);
    var i := Sub(v, g, site);
    var b := CallPin(Call(v, g, site, i, 0), i.loop.value.index.value, false, path);
    assert b.identity == b.container + [CallAt(v, b, 0)];
    assert Anchored(v, b.identity) && Last(b.identity) == Call(v, g, site, i, 0);
    var x := Pin(i.target, End(INPUT, b.end.port), true, b.identity, b.identity);
    assert Reads(v, b) && PinFits(v, b) && Directly(v, x, b);
    if Recurs(v, x, b) {
      RecursIntoReader(v, x, b);
    }
    assert !AlikeAtCall(v, path, site, x, b);
  }

  lemma {:induction false} NotWithinItself(v: View, path: Path, site: nat)
    requires Anchored(v, path)
    ensures !Within(v, path, site, path)
  {
    if Within(v, path, site, path) {
      LastOfInner(v, path, site, path);
    }
  }

  lemma {:induction false} InnerPlaced(v: View, path: Path, site: nat, ordinal: nat, e: Edge) returns (h: Hop)
    requires WellFormed(v) && Open(v, path) && Anchored(v, path) && Entered(v, path, site)
    requires ordinal < Ordinals(v, Sub(v, BodyAt(v, path), site))
    requires e in v.bodies[Sub(v, BodyAt(v, path), site).target].edges && (e.driver.node == INPUT || e.sink.node == OUTPUT)
    ensures h == Hop(Inner(v, path, site, ordinal), e) && Placed(v, h) && Within(v, path, site, h.path) && Ord(h.path) == ordinal && h.path != path
    ensures !Through(v, h)
  {
    h := Hop(Inner(v, path, site, ordinal), e);
    InnerIsWithin(v, path, site, ordinal);
    WithinIsOpen(v, path, site, h.path);
  }

  lemma {:induction false} EntersOneWay(v: View, path: Path, site: nat, e: Edge, f: Edge)
    requires WellFormed(v) && Open(v, path) && Anchored(v, path) && BodyAt(v, path) in v.bodies && Grouped(v, path, site)
    requires ReachesInside(v, BodyAt(v, path), site, e, f)
    ensures !SiteAgrees(v, path, site)
  {
    var h := InnerPlaced(v, path, site, 0, f);
    if e.driver.node == site {
      var x := ItselfOneWay(v, path, site, e, h);
      assert !AlikeInside(v, path, site, x, h);
    } else {
      OutsideOneWay(v, path, site, e, h);
      assert !Alike(v, path, site, Hop(path, e), h);
    }
  }

  lemma {:induction false} ItselfOneWay(v: View, path: Path, site: nat, e: Edge, h: Hop) returns (x: Pin)
    requires Anchored(v, path) && BodyAt(v, path) in v.bodies && Grouped(v, path, site) && Placed(v, h) && Within(v, path, site, h.path)
    requires e in v.bodies[BodyAt(v, path)].edges && e.sink == End(site, h.edge.driver.port) && e.driver.node == site && h.edge.driver.node == INPUT
    ensures StopsAt(v, h, x) && !Resumes(v, path, site, x, h)
  {
    LastOfInner(v, path, site, h.path);
    x := Pin(BodyAt(v, path), e.driver, true, h.path, path);
    assert e == Edge(x.end, End(site, h.edge.driver.port));
    assert FromItself(v, h.path, h.edge.driver.port, x);
  }

  lemma {:induction false} OutsideOneWay(v: View, path: Path, site: nat, e: Edge, h: Hop)
    requires Open(v, path) && Anchored(v, path) && BodyAt(v, path) in v.bodies && Grouped(v, path, site)
    requires Placed(v, h) && Within(v, path, site, h.path)
    requires e in v.bodies[BodyAt(v, path)].edges && h.edge.driver == End(INPUT, e.sink.port) && e.sink.node == site && e.driver.node != site
    ensures Placed(v, Hop(path, e)) && !Through(v, Hop(path, e))
    ensures FeedsAt(v, true, path, site, Hop(path, e), h) && !FeedsAt(v, false, path, site, Hop(path, e), h)
  {
    LastOfInner(v, path, site, h.path);
    assert Enters(v, true, path, site, Hop(path, e), h);
  }

  lemma {:induction false} LeavesOneWay(v: View, path: Path, site: nat, itself: bool, e: Edge, f: Edge)
    requires WellFormed(v) && Open(v, path) && Anchored(v, path) && BodyAt(v, path) in v.bodies && Entered(v, path, site)
    requires if itself then Grouped(v, path, site) else Ordinals(v, Sub(v, BodyAt(v, path), site)) > 1
    requires DrivenInside(v, BodyAt(v, path), site, itself, e, f)
    ensures exists b, a :: !Alike(v, path, site, b, a)
  {
    var b := InnerPlaced(v, path, site, 0, f);
    var a := Hop(path, e);
    NotWithinItself(v, path, site);
    LeavesOnly(v, path, site, itself, b, a);
    OuterPlaced(v, path, site, e);
    assert !Alike(v, path, site, b, a);
  }

  lemma {:induction false} OuterPlaced(v: View, path: Path, site: nat, e: Edge)
    requires Open(v, path) && Anchored(v, path) && BodyAt(v, path) in v.bodies && e in v.bodies[BodyAt(v, path)].edges
    requires e.driver.node == site && Entered(v, path, site) && (e.sink.node == site ==> Grouped(v, path, site))
    ensures Placed(v, Hop(path, e)) && !Through(v, Hop(path, e))
  {
  }

  lemma {:induction false} LeavesOnly(v: View, path: Path, site: nat, itself: bool, b: Hop, a: Hop)
    requires Anchored(v, path) && Within(v, path, site, b.path) && Ord(b.path) == 0 && a.path == path && !Within(v, path, site, path) && b.path != path
    requires a.edge.driver.node == site && b.edge.sink == End(OUTPUT, a.edge.driver.port) && (a.edge.sink.node == site <==> itself)
    requires if itself then Grouped(v, path, site) else Ordinals(v, Sub(v, BodyAt(v, path), site)) > 1
    ensures FeedsAt(v, itself, path, site, b, a) && !FeedsAt(v, !itself, path, site, b, a)
  {
  }

  lemma {:induction false} ContinuesOneWay(v: View, path: Path, site: nat, e: Edge, f: Edge)
    requires WellFormed(v) && Open(v, path) && Anchored(v, path) && Entered(v, path, site)
    requires Expanded(v, Sub(v, BodyAt(v, path), site)) && Ordinals(v, Sub(v, BodyAt(v, path), site)) > 1
    requires CarriedInside(v, BodyAt(v, path), site, e, f)
    ensures exists b, a :: !Alike(v, path, site, b, a)
  {
    var b := InnerPlaced(v, path, site, 0, e);
    var a := InnerPlaced(v, path, site, 1, f);
    assert Continues(v, path, site, b, a) && !Enters(v, false, path, site, b, a) && !Leaves(v, false, path, site, b, a);
    assert !Alike(v, path, site, b, a);
  }

  lemma {:induction false} PassedOneWay(v: View, path: Path, site: nat, f: Edge)
    requires WellFormed(v) && Open(v, path) && Anchored(v, path) && Entered(v, path, site)
    requires Expanded(v, Sub(v, BodyAt(v, path), site)) && Ordinals(v, Sub(v, BodyAt(v, path), site)) > 1
    requires PassedInside(v, BodyAt(v, path), site, f)
    ensures exists x, h :: !AlikeInside(v, path, site, x, h)
  {
    var h := InnerPlaced(v, path, site, 1, f);
    LastOfInner(v, path, site, h.path);
    assert LoopFits(v, BodyAt(v, path), site);
    var x := CallPin(Previous(h.path), f.driver.port, false, path);
    assert Bypassed(v, h.path, f.driver.port, x) && !Resumes(v, path, site, x, h);
    assert !AlikeInside(v, path, site, x, h);
  }

  // ---------- the converse ----------

  ghost predicate SitesFit(v: View)
  {
    forall path, site {:trigger SiteFits(v, path, site)} :: Open(v, path) && Anchored(v, path) && IsSub(v, BodyAt(v, path), site) ==> SiteFits(v, path, site)
  }

  /** A visible pin that can drive: a driver, or a sink at whose port no stored edge starts. */
  ghost predicate Drives(v: View, a: Pin)
  {
    Visible(v, a) && (a.driver || forall h :: !StoredOut(v, a, h))
  }

  /** A chain from one pin to another that starts at this depth and is not cut off. */
  ghost predicate Linked(v: View, drivers: bool, a: Pin, b: Pin, depth: nat)
  {
    exists c :: LinkedBy(v, drivers, c, a, b, depth)
  }

  ghost predicate LinkedBy(v: View, drivers: bool, c: seq<Hop>, a: Pin, b: Pin, depth: nat)
  {
    Chain(v, drivers, c) && |c| + depth <= LONGEST && EndsAt(v, c[0], b) && StartsAt(v, c[|c| - 1], a)
  }

  /** A chain from a pin of a call, by an edge to the call itself, to the inside. */
  ghost predicate Returns(v: View, a: Pin, b: Pin, depth: nat)
  {
    exists c: seq<Hop> :: ReturnsBy(v, c, a, b, depth)
  }

  ghost predicate ReturnsBy(v: View, c: seq<Hop>, a: Pin, b: Pin, depth: nat)
  {
    Chain(v, false, c) && |c| + depth <= LONGEST && EndsAt(v, c[0], b)
    && Anchored(v, a.container) && Resumes(v, a.container, a.end.node, a, c[|c| - 1])
  }

  // ----- what a visible sink lists

  lemma {:induction false} EndsWhere(v: View, h: Hop, b: Pin)
    requires WellFormed(v) && Reads(v, b) && PinFits(v, b)
    ensures Placed(v, h) && EndsAt(v, h, b) <==> FirstIn(v, b, h)
  {
    ReadsIsNotEntered(v, b);
    ListedFits(v, b);
    if IsSub(v, b.graph, b.end.node) {
      var i := Sub(v, b.graph, b.end.node);
      var ordinal :| 0 <= ordinal < Ordinals(v, i) && b.identity == b.container + [CallAt(v, b, ordinal)];
      assert Last(b.identity) == CallAt(v, b, ordinal);
      if Placed(v, h) && EndsAt(v, h, b) {
        var other :| 0 <= other < Reading(v, b.graph, b.end) && b.identity == b.container + [CallAt(v, b, other)];
        assert Last(b.identity) == CallAt(v, b, other);
      }
    }
  }

  /** The in-edges of a visible sink: what recurs into it, the index, and what chains towards the drivers end at. */
  lemma {:induction false} InsOfVisible(v: View, a: Pin, b: Pin)
    requires WellFormed(v) && Reads(v, b) && PinFits(v, b)
    ensures a in Ins(v, b) <==>
            Supplied(v, a, b) || Recurs(v, a, b) || exists c :: AnsweredBy(v, c, a, b, Spent(ThroughBody(v, b)))
  {
    var depth := Spent(ThroughBody(v, b));
    ReadsIsNotEntered(v, b);
    InsAreExact(v, a, b);
    if h :| FirstIn(v, b, h) && Fed(v, h, depth, a) {
      EndsWhere(v, h, b);
      var c :| ChainFrom(v, h, c, depth, a);
      assert AnsweredBy(v, c, a, b, depth);
    }
    if c :| AnsweredBy(v, c, a, b, depth) {
      EndsWhere(v, c[0], b);
      assert ChainFrom(v, c[0], c, depth, a);
    }
  }

  /** A chain towards the drivers, from a sink to where it stops. */
  ghost predicate AnsweredBy(v: View, c: seq<Hop>, a: Pin, b: Pin, depth: nat)
  {
    Chain(v, true, c) && |c| + depth <= LONGEST && EndsAt(v, c[0], b) && AnswersDriver(v, c[|c| - 1], a)
  }

  /** It stops at a visible driver or at a pin of a call that is entered, never at both. */
  lemma {:induction false} StopsApart(v: View, h: Hop, a: Pin)
    requires WellFormed(v) && Placed(v, h) && StopsAt(v, h, a)
    ensures !Visible(v, a)
  {
    OpenStep(v, h.path);
  }

  // ----- chains without edges from a call to itself

  ghost predicate Clean(v: View, c: seq<Hop>)
  {
    forall k :: 0 <= k < |c| ==> Placed(v, c[k]) && !Through(v, c[k])
  }

  lemma {:induction false} FeedsClean(v: View, drivers: bool, b: Hop, a: Hop)
    requires WellFormed(v) && Placed(v, b) && Placed(v, a) && Feeds(v, drivers, b, a)
    ensures if drivers then !Through(v, b) else !Through(v, a)
  {
  }

  lemma {:induction false} EndsClean(v: View, h: Hop, p: Pin)
    requires WellFormed(v) && Placed(v, h) && (EndsAt(v, h, p) || StartsAt(v, h, p) || h.edge.driver.node == INPUT)
    ensures !Through(v, h)
  {
  }

  /** Only the first edge towards the drivers, and only the last one that leads to a sink, can be one. */
  lemma {:induction false} ChainClean(v: View, drivers: bool, c: seq<Hop>, p: Pin)
    requires WellFormed(v) && Chain(v, drivers, c)
    requires var h := if drivers then c[0] else c[|c| - 1]; EndsAt(v, h, p) || StartsAt(v, h, p) || h.edge.driver.node == INPUT
    ensures Clean(v, c)
  {
    forall k | 0 <= k < |c|
      ensures !Through(v, c[k])
    {
      if k == if drivers then 0 else |c| - 1 {
        EndsClean(v, c[k], p);
      } else if drivers {
        FeedsInChain(v, drivers, c, k - 1, k);
        FeedsClean(v, drivers, c[k], c[k - 1]);
      } else {
        FeedsInChain(v, drivers, c, k, k + 1);
        FeedsClean(v, drivers, c[k + 1], c[k]);
      }
    }
  }

  lemma {:induction false} FeedsAlike(v: View, b: Hop, a: Hop)
    requires WellFormed(v) && SitesFit(v) && Placed(v, b) && Placed(v, a) && !Through(v, b) && !Through(v, a)
    ensures Feeds(v, true, b, a) <==> Feeds(v, false, b, a)
  {
    if Feeds(v, true, b, a) {
      FeedsOtherwise(v, true, b, a);
    }
    if Feeds(v, false, b, a) {
      FeedsOtherwise(v, false, b, a);
    }
  }

  lemma {:induction false} FeedsOtherwise(v: View, drivers: bool, b: Hop, a: Hop)
    requires WellFormed(v) && SitesFit(v) && Placed(v, b) && Placed(v, a) && !Through(v, b) && !Through(v, a) && Feeds(v, drivers, b, a)
    ensures Feeds(v, !drivers, b, a)
  {
    var path, site := FeedsWhere(v, drivers, b, a);
    SiteAgreesIff(v, path, site);
    assert SiteFits(v, path, site) && Alike(v, path, site, b, a);
    FeedsSomewhere(v, !drivers, path, site, b, a);
  }

  lemma {:induction false} ChainAlike(v: View, drivers: bool, c: seq<Hop>)
    requires WellFormed(v) && SitesFit(v) && Chain(v, drivers, c) && Clean(v, c)
    ensures Chain(v, !drivers, c)
  {
    forall j, k | 0 <= j < |c| && k == j + 1 && k < |c|
      ensures Feeds(v, !drivers, c[k], c[j])
    {
      FeedsAlike(v, c[k], c[j]);
    }
  }

  lemma {:induction false} LinkedAlike(v: View, drivers: bool, a: Pin, b: Pin, depth: nat)
    requires WellFormed(v) && SitesFit(v) && Linked(v, drivers, a, b, depth)
    ensures Linked(v, !drivers, a, b, depth)
  {
    var c :| LinkedBy(v, drivers, c, a, b, depth);
    ChainClean(v, drivers, c, if drivers then b else a);
    ChainAlike(v, drivers, c);
    assert LinkedBy(v, !drivers, c, a, b, depth);
  }

  lemma {:induction false} LinkedNearer(v: View, drivers: bool, a: Pin, b: Pin)
    requires Linked(v, drivers, a, b, 1)
    ensures Linked(v, drivers, a, b, 0)
  {
    var c :| LinkedBy(v, drivers, c, a, b, 1);
    assert LinkedBy(v, drivers, c, a, b, 0);
  }

  // ----- the inside of a call that leads to itself

  /** A chain towards the drivers that stops at a pin of an entered call is one from that pin to the inside. */
  lemma {:induction false} ReturnsAlike(v: View, c: seq<Hop>, a: Pin, b: Pin, depth: nat)
    requires WellFormed(v) && SitesFit(v) && AnsweredBy(v, c, a, b, depth) && StopsAt(v, c[|c| - 1], a)
    ensures Returns(v, a, b, depth)
  {
    var h := c[|c| - 1];
    ChainClean(v, true, c, b);
    ChainAlike(v, true, c);
    OpenStep(v, h.path);
    var path, site := Front(h.path), Last(h.path).site;
    SiteAgreesIff(v, path, site);
    assert SiteFits(v, path, site) && AlikeInside(v, path, site, a, h);
    assert ReturnsBy(v, c, a, b, depth);
  }

  lemma {:induction false} AnsweredAlike(v: View, a: Pin, b: Pin, depth: nat)
    requires WellFormed(v) && SitesFit(v) && Returns(v, a, b, depth)
    ensures exists c: seq<Hop> :: AnsweredBy(v, c, a, b, depth) && StopsAt(v, c[|c| - 1], a)
  {
    var c: seq<Hop> :| ReturnsBy(v, c, a, b, depth);
    var path, site, last := a.container, a.end.node, c[|c| - 1];
    LastOfInner(v, path, site, last.path);
    ChainClean(v, false, c, b);
    ChainAlike(v, false, c);
    SiteAgreesIff(v, path, site);
    assert SiteFits(v, path, site) && AlikeInside(v, path, site, a, last);
    assert AnsweredBy(v, c, a, b, depth);
  }

  /** A pin of a call that leads inside by an edge to the call itself is found to do so, one boundary further. */
  lemma {:induction false} ReturnsFound(v: View, a: Pin, b: Pin)
    requires WellFormed(v) && Listed(v, a) && Returns(v, a, b, 1)
    ensures PinFits(v, a) && b in Outs(v, a)
  {
    OutsAreExact(v, a, b);
    var c: seq<Hop> :| ReturnsBy(v, c, a, b, 1);
    var last := c[|c| - 1];
    assert ChainTo(v, last, c, 1, b);
    assert Read(v, last, 1, b);
    ResumesByEdge(v, a.container, a.end.node, a, last, b);
  }

  lemma {:induction false} ResumesByEdge(v: View, path: Path, site: nat, a: Pin, h: Hop, b: Pin)
    requires WellFormed(v) && Listed(v, a) && Anchored(v, path) && IsSub(v, BodyAt(v, path), site) && Placed(v, h)
    requires Resumes(v, path, site, a, h) && Read(v, h, 1, b)
    ensures exists first :: FirstOut(v, a, first) && Read(v, first, 0, b)
  {
    var first := Hop(path, Edge(a.end, End(site, h.edge.driver.port)));
    FeedsSomewhere(v, false, path, site, first, h);
    ReadThrough(v, first, h, 0, b);
    assert !OfOrdinal(v, a);
    assert FirstOut(v, a, first);
  }

  // ----- both directions

  /** Where every site fits, a visible sink lists a visible driver exactly when the driver lists the sink. An input that is looked up
      through a body is one boundary nearer to the limit, and so may miss what the other direction just reaches. Any other pin that
      it lists is one of an entered call with an edge to itself, and leads to the sink through that edge. */
  lemma {:induction false} Converse(v: View, a: Pin, b: Pin)
    requires WellFormed(v) && SitesFit(v) && Reads(v, b)
    ensures PinFits(v, b)
    ensures Drives(v, a) ==>
              PinFits(v, a)
              && (a in Ins(v, b) <==> b in Outs(v, a) && (ThroughBody(v, b) ==> Recurs(v, a, b) || Linked(v, false, a, b, 1)))
    ensures !Drives(v, a) ==> (a in Ins(v, b) <==> Returns(v, a, b, Spent(ThroughBody(v, b))))
  {
    ListedFits(v, b);
    InsWhereSitesFit(v, a, b);
    if Drives(v, a) {
      ListedFits(v, a);
      OutsOfVisible(v, a, b);
      if Linked(v, false, a, b, 1) {
        LinkedNearer(v, false, a, b);
      }
      if Returns(v, a, b, Spent(ThroughBody(v, b))) {
        ReturnsApart(v, a, b, Spent(ThroughBody(v, b)));
      }
    } else {
      if Recurs(v, a, b) {
        RecursDrives(v, a, b);
      }
    }
  }

  lemma {:induction false} InsWhereSitesFit(v: View, a: Pin, b: Pin)
    requires WellFormed(v) && SitesFit(v) && Reads(v, b) && PinFits(v, b)
    ensures a in Ins(v, b) <==>
            Recurs(v, a, b) || Linked(v, false, a, b, Spent(ThroughBody(v, b))) || Returns(v, a, b, Spent(ThroughBody(v, b)))
  {
    var depth := Spent(ThroughBody(v, b));
    InsOfVisible(v, a, b);
    NotSupplied(v, a, b);
    if c :| AnsweredBy(v, c, a, b, depth) {
      if StartsAt(v, c[|c| - 1], a) {
        assert LinkedBy(v, true, c, a, b, depth);
        LinkedAlike(v, true, a, b, depth);
      } else {
        ReturnsAlike(v, c, a, b, depth);
      }
    }
    if Linked(v, false, a, b, depth) {
      LinkedAlike(v, false, a, b, depth);
      var c :| LinkedBy(v, true, c, a, b, depth);
      assert AnsweredBy(v, c, a, b, depth);
    }
    if Returns(v, a, b, depth) {
      AnsweredAlike(v, a, b, depth);
    }
  }

  lemma {:induction false} NotSupplied(v: View, a: Pin, b: Pin)
    requires WellFormed(v) && SitesFit(v) && Reads(v, b) && PinFits(v, b)
    ensures !Supplied(v, a, b)
  {
    SuppliedMisfits(v, a, b);
  }

  lemma {:induction false} SuppliedMisfits(v: View, a: Pin, b: Pin)
    requires WellFormed(v) && Reads(v, b) && PinFits(v, b)
    ensures Supplied(v, a, b) ==> !SiteFits(v, b.container, b.end.node)
  {
    ReadsIsNotEntered(v, b);
  }

  lemma {:induction false} ReturnsApart(v: View, a: Pin, b: Pin, depth: nat)
    requires WellFormed(v) && SitesFit(v) && Returns(v, a, b, depth)
    ensures !Visible(v, a)
  {
    AnsweredAlike(v, a, b, depth);
    var c: seq<Hop> :| AnsweredBy(v, c, a, b, depth) && StopsAt(v, c[|c| - 1], a);
    StopsApart(v, c[|c| - 1], a);
  }

  /** What recurs into a visible sink is a visible pin, and no stored edge starts at it if it is a sink. */
  lemma {:induction false} RecursDrives(v: View, a: Pin, b: Pin)
    requires WellFormed(v) && Reads(v, b) && Recurs(v, a, b)
    ensures Drives(v, a)
  {
    ReadsIsNotEntered(v, b);
    RecursForward(v, a, b);
    ListedFits(v, b);
    OtherOrdinal(v, b, OrdinalOf(v, a), a.end.port, a.driver);
    assert Visible(v, a);
    assert LoopFits(v, a.graph, a.end.node);
  }

  /** The out-edges of a visible driver. */
  lemma {:induction false} OutsOfVisible(v: View, a: Pin, b: Pin)
    requires WellFormed(v) && Drives(v, a) && PinFits(v, a)
    ensures b in Outs(v, a) <==> Recurs(v, a, b) || Linked(v, false, a, b, 0)
  {
    OutsAreExact(v, a, b);
    if h :| FirstOut(v, a, h) && Read(v, h, 0, b) {
      StartsWhere(v, h, a);
      var c :| ChainTo(v, h, c, 0, b);
      assert LinkedBy(v, false, c, a, b, 0);
    }
    if c :| LinkedBy(v, false, c, a, b, 0) {
      StartsWhere(v, c[|c| - 1], a);
      assert ChainTo(v, c[|c| - 1], c, 0, b);
    }
  }

  lemma {:induction false} StartsWhere(v: View, h: Hop, a: Pin)
    requires WellFormed(v) && Drives(v, a)
    ensures Placed(v, h) && StartsAt(v, h, a) <==> a.driver && FirstOut(v, a, h)
  {
    ListedFits(v, a);
    if IsSub(v, a.graph, a.end.node) {
      LastOrdinalDrives(v, a);
    }
  }

  lemma {:induction false} LastOrdinalDrives(v: View, a: Pin)
    requires WellFormed(v) && Visible(v, a) && IsSub(v, a.graph, a.end.node)
    ensures Ordinals(v, Sub(v, a.graph, a.end.node)) > 0
    ensures a.identity == a.container + [CallAt(v, a, Ordinals(v, Sub(v, a.graph, a.end.node)) - 1)] <==>
            (OfOrdinal(v, a) ==> OrdinalOf(v, a) + 1 == GroupSize(Sub(v, a.graph, a.end.node)))
  {
    var i := Sub(v, a.graph, a.end.node);
    var ordinal :| 0 <= ordinal < Ordinals(v, i) && a.identity == a.container + [CallAt(v, a, ordinal)];
    assert Last(a.identity) == CallAt(v, a, ordinal);
    var other := a.container + [CallAt(v, a, Ordinals(v, i) - 1)];
    assert Last(other) == CallAt(v, a, Ordinals(v, i) - 1);
  }

  /** What a visible driver lists are visible sinks. */
  lemma {:induction false} OutsAreVisible(v: View, a: Pin, b: Pin)
    requires WellFormed(v) && Drives(v, a) && PinFits(v, a) && b in Outs(v, a)
    ensures Reads(v, b)
  {
    OutsOfVisible(v, a, b);
    if Recurs(v, a, b) {
      RecursForward(v, a, b);
      ListedFits(v, a);
      OtherOrdinal(v, a, OrdinalOf(v, b), b.end.port, false);
    }
  }

  // ---------- where the converse ends ----------

  /** A library of one caller with a loop and one reader of it. */
  function Demo(callee: map<nat, Body>, loop: Loop, edges: seq<Edge>, expand: bool): View
  {
    View(1, callee[1 := Body([16, 20, 24], map[16 := Instance(2, Some(loop))], edges)], expand, (p: Path, g: nat, n: nat) => Descend)
  }

  lemma {:induction false} PickOne(edges: seq<Edge>, e: Edge, keep: Edge -> bool)
    requires edges == [e]
    ensures Pick(edges, keep) == if keep(e) then [e] else []
  {
    assert Pick(edges[1..], keep) == [];
  }

  const INSIDE := Edge(End(16, 0), End(OUTPUT, 1))
  const READER := Edge(End(16, 1), End(20, 0))

  function LoopBody(): View
  {
    Demo(map[2 := Body([16], map[], [INSIDE])], Loop(2, None, None, None), [READER], true)
  }

  /** Inside the body of an unrolled loop, the first ordinal of two is found to drive the reader of the loop, which itself finds
      only the last one. */
  lemma {:induction false} LoopBodyBreaksConverse(v: View)
    requires v == LoopBody()
    ensures
      var first := [Step(1, 16, Some(0))];
      var a, b := Pin(2, End(16, 0), true, first, first), Pin(1, End(20, 0), false, [], []);
      PinFits(v, a) && PinFits(v, b) && b in Outs(v, a) && a !in Ins(v, b)
  {
    LoopBodySinks(v);
    LoopBodyDrivers(v);
  }

  /** Out of the body, through the call site, to the reader. */
  lemma {:induction false} LoopBodySinks(v: View)
    requires v == LoopBody()
    ensures
      var first := [Step(1, 16, Some(0))];
      var a, b := Pin(2, End(16, 0), true, first, first), Pin(1, End(20, 0), false, [], []);
      PinFits(v, a) && Outs(v, a) == [b]
  {
    var first := [Step(1, 16, Some(0))];
    var a, b := Pin(2, End(16, 0), true, first, first), Pin(1, End(20, 0), false, [], []);
    assert v.bodies[1].edges == [READER] && v.bodies[2].edges == [INSIDE];
    OneOutOf(v, 2, INSIDE);
    assert StoredOutOf(v, a) == [Follow(2, INSIDE.sink, first)];
    OneOutOf(v, 1, READER);
    assert Front(first) == [];
    assert SinkItems(v, 2, INSIDE.sink, first) == [Follow(1, READER.sink, [])];
    assert SinkItems(v, 1, READER.sink, []) == [Answer(b)];
    FollowOne(v, false, 1, READER.sink, [], 1, Answer(b));
    FollowOne(v, false, 2, INSIDE.sink, first, 0, Follow(1, READER.sink, []));
    ResolveOne(v, false, Follow(2, INSIDE.sink, first), 0);
  }

  /** From the reader, through the call site, to the last ordinal. */
  lemma {:induction false} LoopBodyDrivers(v: View)
    requires v == LoopBody()
    ensures
      var last, b := [Step(1, 16, Some(1))], Pin(1, End(20, 0), false, [], []);
      PinFits(v, b) && Ins(v, b) == [Pin(2, End(16, 0), true, last, last)]
  {
    var last, b := [Step(1, 16, Some(1))], Pin(1, End(20, 0), false, [], []);
    assert v.bodies[1].edges == [READER] && v.bodies[2].edges == [INSIDE];
    OneInto(v, 1, READER);
    assert StoredInto(v, b) == [Follow(1, READER.driver, [])];
    OneInto(v, 2, INSIDE);
    assert [] + [Step(1, 16, Some(1))] == last;
    assert DriverItems(v, 1, READER.driver, []) == [Follow(2, INSIDE.driver, last)];
    var c := Pin(2, End(16, 0), true, last, last);
    assert DriverItems(v, 2, INSIDE.driver, last) == [Answer(c)];
    FollowOne(v, true, 2, INSIDE.driver, last, 1, Answer(c));
    FollowOne(v, true, 1, READER.driver, [], 0, Follow(2, INSIDE.driver, last));
    ResolveOne(v, true, Follow(1, READER.driver, []), 0);
  }

  lemma {:induction false} OneInto(v: View, g: nat, e: Edge)
    requires g in v.bodies && v.bodies[g].edges == [e]
    ensures forall except :: Into(v, g, e.sink, except) == if except == Some(e.driver.node) then [] else [e]
  {
    forall except
      ensures Into(v, g, e.sink, except) == if except == Some(e.driver.node) then [] else [e]
    {
      PickOne(v.bodies[g].edges, e, (x: Edge) => x.sink == e.sink && except != Some(x.driver.node));
    }
  }

  lemma {:induction false} OneOutOf(v: View, g: nat, e: Edge)
    requires g in v.bodies && v.bodies[g].edges == [e]
    ensures forall except :: OutOf(v, g, e.driver, except) == if except == Some(e.sink.node) then [] else [e]
  {
    forall except
      ensures OutOf(v, g, e.driver, except) == if except == Some(e.sink.node) then [] else [e]
    {
      PickOne(v.bodies[g].edges, e, (x: Edge) => x.driver == e.driver && except != Some(x.sink.node));
    }
  }

  lemma {:induction false} ResolveOne(v: View, drivers: bool, item: Item, depth: nat)
    requires ItemFits(v, item)
    ensures AllResolved(v, drivers, [item], depth) == OneResolved(v, drivers, item, depth)
  {
    assert [item][1..] == [];
    assert AllResolved(v, drivers, [], depth) == [];
  }

  lemma {:induction false} FollowOne(v: View, drivers: bool, g: nat, end: End, path: Path, depth: nat, item: Item)
    requires g in v.bodies && Anchored(v, path) && Items(v, drivers, g, end, path) == [item] && depth < DEPTH && ItemFits(v, item)
    ensures Resolved(v, drivers, g, end, path, depth) == OneResolved(v, drivers, item, depth + 1)
  {
    ResolveOne(v, drivers, item, depth + 1);
  }

  /** A driver outside a grouped loop, and a sink inside. */
  const AROUND := Edge(End(24, 0), End(16, 2))
  const WITHIN := Edge(End(INPUT, 2), End(16, 0))

  function GroupedLoop(): View
  {
    Demo(map[2 := Body([16], map[], [WITHIN])], Loop(2, None, None, None), [AROUND], false)
  }

  /** Inside the body of a grouped loop, an input is found to read the driver outside, which itself finds only the call. */
  lemma {:induction false} GroupedBodyBreaksConverse()
    ensures
      var v, call := GroupedLoop(), [Step(1, 16, None)];
      var a, b := Pin(1, End(24, 0), true, [], []), Pin(2, End(16, 0), false, call, call);
      PinFits(v, a) && PinFits(v, b) && a in Ins(v, b) && b !in Outs(v, a)
  {
    GroupedLoopDrivers();
    GroupedLoopSinks();
  }

  lemma {:induction false} GroupedLoopDrivers()
    ensures
      var v, call := GroupedLoop(), [Step(1, 16, None)];
      PinFits(v, Pin(2, End(16, 0), false, call, call))
      && Ins(v, Pin(2, End(16, 0), false, call, call)) == [Pin(1, End(24, 0), true, [], [])]
  {
    var v, call := GroupedLoop(), [Step(1, 16, None)];
    var a, b := Pin(1, End(24, 0), true, [], []), Pin(2, End(16, 0), false, call, call);
    assert v.bodies[1].edges == [AROUND] && v.bodies[2].edges == [WITHIN];
    OneInto(v, 2, WITHIN);
    assert StoredInto(v, b) == [Follow(2, WITHIN.driver, call)];
    OneInto(v, 1, AROUND);
    assert Front(call) == [];
    assert DriverItems(v, 2, WITHIN.driver, call) == [Follow(1, AROUND.driver, [])];
    assert DriverItems(v, 1, AROUND.driver, []) == [Answer(a)];
    FollowOne(v, true, 1, AROUND.driver, [], 1, Answer(a));
    FollowOne(v, true, 2, WITHIN.driver, call, 0, Follow(1, AROUND.driver, []));
    ResolveOne(v, true, Follow(2, WITHIN.driver, call), 0);
  }

  lemma {:induction false} GroupedLoopSinks()
    ensures Outs(GroupedLoop(), Pin(1, End(24, 0), true, [], [])) == [CallPin(Step(1, 16, None), 2, false, [])]
  {
    var v, a, c := GroupedLoop(), Pin(1, End(24, 0), true, [], []), CallPin(Step(1, 16, None), 2, false, []);
    assert v.bodies[1].edges == [AROUND];
    OneOutOf(v, 1, AROUND);
    assert StoredOutOf(v, a) == [Follow(1, AROUND.sink, [])];
    assert AllCallItems(v, 1, AROUND.sink, [], 1, 1) == [];
    assert [Answer(c)] + [] == [Answer(c)];
    assert SinkItems(v, 1, AROUND.sink, []) == [Answer(c)];
    FollowOne(v, false, 1, AROUND.sink, [], 0, Answer(c));
    ResolveOne(v, false, Follow(1, AROUND.sink, []), 0);
  }

  lemma {:induction false} PickThree(a: Edge, b: Edge, c: Edge, keep: Edge -> bool)
    ensures Pick([a, b, c], keep) == (if keep(a) then [a] else []) + (if keep(b) then [b] else []) + (if keep(c) then [c] else [])
  {
    var s := [a, b, c];
    assert s[1..] == [b, c] && [b, c][1..] == [c];
    PickOne([c], c, keep);
    assert Pick([b, c], keep) == (if keep(b) then [b] else []) + Pick([c], keep);
  }

  /** A loop of no ordinals, its initial driver, its carry, and its reader. */
  const INIT := Edge(End(24, 0), End(16, 2))
  const CARRY := Edge(End(16, 1), End(16, 2))
  const OUTSIDE := Edge(End(16, 1), End(20, 0))

  function EmptyLoop(): View
  {
    Demo(map[], Loop(0, None, None, None), [INIT, CARRY, OUTSIDE], true)
  }

  /** An unrolled loop of no ordinals is bypassed on the way to its driver, but not on the way to its reader. */
  lemma {:induction false} EmptyLoopBreaksConverse(v: View)
    requires v == EmptyLoop()
    ensures
      var a, b := Pin(1, End(24, 0), true, [], []), Pin(1, End(20, 0), false, [], []);
      PinFits(v, a) && PinFits(v, b) && a in Ins(v, b) && b !in Outs(v, a)
  {
    EmptyLoopDrivers(v);
    EmptyLoopSinks(v);
  }

  lemma {:induction false} EmptyLoopDrivers(v: View)
    requires v == EmptyLoop()
    ensures PinFits(v, Pin(1, End(20, 0), false, [], [])) && Ins(v, Pin(1, End(20, 0), false, [], [])) == [Pin(1, End(24, 0), true, [], [])]
  {
    var a, b := Pin(1, End(24, 0), true, [], []), Pin(1, End(20, 0), false, [], []);
    EmptyLoopReader(v, b);
    EmptyLoopIsBypassed(v);
    assert DriverItems(v, 1, INIT.driver, []) == [Answer(a)];
    FollowOne(v, true, 1, INIT.driver, [], 1, Answer(a));
    FollowOne(v, true, 1, OUTSIDE.driver, [], 0, Follow(1, INIT.driver, []));
    ResolveOne(v, true, Follow(1, OUTSIDE.driver, []), 0);
  }

  lemma {:induction false} EmptyLoopReader(v: View, b: Pin)
    requires v == EmptyLoop() && b == Pin(1, End(20, 0), false, [], [])
    ensures PinFits(v, b) && !IsSub(v, 1, 20) && StoredInto(v, b) == [Follow(1, OUTSIDE.driver, [])]
  {
    assert v.bodies[1].edges == [INIT, CARRY, OUTSIDE];
    PickThree(INIT, CARRY, OUTSIDE, (e: Edge) => e.sink == End(20, 0) && None != Some(e.driver.node));
  }

  lemma {:induction false} EmptyLoopIsBypassed(v: View)
    requires v == EmptyLoop()
    ensures v.bodies.Keys == {1} && DriverItems(v, 1, OUTSIDE.driver, []) == [Follow(1, INIT.driver, [])]
  {
    assert v.bodies[1].edges == [INIT, CARRY, OUTSIDE];
    PickThree(INIT, CARRY, OUTSIDE, (e: Edge) => e.driver.node == 16 && e.sink.node == 16);
    PickThree(INIT, CARRY, OUTSIDE, (e: Edge) => e.sink == End(16, 2) && Some(16) != Some(e.driver.node));
    assert Carries(v, 1, 16) == [CARRY] && CarryOutOf([CARRY], 1) == Some(2);
    assert Each([INIT], ToDriver(1, [])) == [Follow(1, INIT.driver, [])];
  }

  lemma {:induction false} EmptyLoopSinks(v: View)
    requires v == EmptyLoop()
    ensures PinFits(v, Pin(1, End(24, 0), true, [], [])) && Outs(v, Pin(1, End(24, 0), true, [], [])) == []
  {
    var a := Pin(1, End(24, 0), true, [], []);
    assert v.bodies[1].edges == [INIT, CARRY, OUTSIDE];
    PickThree(INIT, CARRY, OUTSIDE, (e: Edge) => e.driver == End(24, 0) && None != Some(e.sink.node));
    assert StoredOutOf(v, a) == [Follow(1, INIT.sink, [])];
    assert SinkItems(v, 1, INIT.sink, []) == [];
    assert Resolved(v, false, 1, INIT.sink, [], 0) == [];
    ResolveOne(v, false, Follow(1, INIT.sink, []), 0);
  }

  /** A loop of two ordinals that can be inactive: input 2 is carried, and input 3 activates it. */
  const ACTIVE := Edge(End(24, 1), End(16, 3))

  function PassedOn(): View
  {
    Demo(map[2 := Body([16], map[], [WITHIN])], Loop(2, None, Some(3), None), [INIT, ACTIVE, CARRY], true)
  }

  /** Inside the second ordinal of an unrolled loop that can be inactive, an input is found to read the same input of the first, which
      itself finds only that of the second. */
  lemma {:induction false} InactiveLoopBreaksConverse(v: View)
    requires v == PassedOn()
    ensures
      var second := [Step(1, 16, Some(1))];
      var a, b := CallPin(Step(1, 16, Some(0)), 2, false, []), Pin(2, End(16, 0), false, second, second);
      PinFits(v, a) && PinFits(v, b) && a in Ins(v, b) && b !in Outs(v, a)
  {
    PassedOnDrivers(v);
    PassedOnSinks(v);
  }

  lemma {:induction false} PassedOnIs(v: View)
    requires v == PassedOn()
    ensures v.bodies.Keys == {1, 2} && v.bodies[1].edges == [INIT, ACTIVE, CARRY] && v.bodies[2].edges == [WITHIN]
    ensures v.expand && IsSub(v, 1, 16) && Sub(v, 1, 16) == Instance(2, Some(Loop(2, None, Some(3), None)))
    ensures forall p, g, n :: v.verdict(p, g, n) == Descend
  {
  }

  lemma {:induction false} PassedOnEdges(v: View)
    requires v == PassedOn()
    ensures IsSub(v, 1, 16) && Carries(v, 1, 16) == [CARRY] && OutOf(v, 1, End(16, 2), Some(16)) == []
    ensures Into(v, 2, End(OUTPUT, 1), None) == []
  {
    PassedOnIs(v);
    PickThree(INIT, ACTIVE, CARRY, (e: Edge) => e.driver.node == 16 && e.sink.node == 16);
    PickThree(INIT, ACTIVE, CARRY, (e: Edge) => e.driver == End(16, 2) && Some(16) != Some(e.sink.node));
    PickOne([WITHIN], WITHIN, (e: Edge) => e.sink == End(OUTPUT, 1) && None != Some(e.driver.node));
  }

  lemma {:induction false} PassedOnDrivers(v: View)
    requires v == PassedOn()
    ensures
      var second := [Step(1, 16, Some(1))];
      PinFits(v, Pin(2, End(16, 0), false, second, second))
      && Ins(v, Pin(2, End(16, 0), false, second, second)) == [CallPin(Step(1, 16, Some(0)), 2, false, [])]
  {
    PassedOnIs(v);
    PassedOnEdges(v);
    var second := [Step(1, 16, Some(1))];
    var a, b := CallPin(Step(1, 16, Some(0)), 2, false, []), Pin(2, End(16, 0), false, second, second);
    OneInto(v, 2, WITHIN);
    assert StoredInto(v, b) == [Follow(2, WITHIN.driver, second)];
    PassedOnInput(v, second);
    FollowOne(v, true, 2, WITHIN.driver, second, 0, Answer(a));
    ResolveOne(v, true, Follow(2, WITHIN.driver, second), 0);
  }

  lemma {:induction false} PassedOnInput(v: View, second: Path)
    requires v == PassedOn() && second == [Step(1, 16, Some(1))]
    ensures Anchored(v, second) && DriverItems(v, 2, WITHIN.driver, second) == [Answer(CallPin(Step(1, 16, Some(0)), 2, false, []))]
  {
    PassedOnIs(v);
    PassedOnEdges(v);
    assert Front(second) == [] && Previous(second) == Step(1, 16, Some(0));
    assert CarryInto([CARRY], 2) == Some(1);
    assert OutputItems(v, second, 1) == [];
    assert InputItems(v, 2, WITHIN.driver, second) == [] + [Answer(CallPin(Step(1, 16, Some(0)), 2, false, []))];
  }

  lemma {:induction false} PassedOnSinks(v: View)
    requires v == PassedOn()
    ensures
      var a := CallPin(Step(1, 16, Some(0)), 2, false, []);
      PinFits(v, a) && Outs(v, a) == [AtOrdinal(a, 1, 2, false)]
  {
    PassedOnIs(v);
    PassedOnEdges(v);
    var a := CallPin(Step(1, 16, Some(0)), 2, false, []);
    assert Last(a.identity) == Step(1, 16, Some(0)) && OfOrdinal(v, a);
    PassedOnNext(v, a);
    assert StoredOutOf(v, a) == [];
  }

  lemma {:induction false} PassedOnNext(v: View, a: Pin)
    requires v == PassedOn() && a == CallPin(Step(1, 16, Some(0)), 2, false, []) && OfOrdinal(v, a)
    ensures ToNext(v, a) == [AtOrdinal(a, 1, 2, false)]
  {
    PassedOnIs(v);
    PassedOnEdges(v);
    OneCarried(a);
    assert ToNext(v, a) == [AtOrdinal(a, 1, 2, false)] + [];
  }

  lemma {:induction false} OneCarried(a: Pin)
    ensures CarriedTo(a, CarriesInto([CARRY], 2), 1) == [AtOrdinal(a, 1, 2, false)]
  {
    PickOne([CARRY], CARRY, (e: Edge) => e.sink.port == 2);
  }
}
