/**
 Resolving edges across the boundaries of a hierarchy: from a sink to the drivers that feed it, and
 from a driver to the sinks that it feeds.
 */
module OccurrenceEdges {
  import opened OccurrenceLibrary
  import opened Options
  import opened Sequences

  /** A pin as it occurs in the hierarchy: `identity` includes the call when the pin belongs to a call site. */
  datatype Pin = Pin(graph: nat, end: End, driver: bool, identity: Path, container: Path)

  /** One step of a resolution: a pin that is an answer, or one to be resolved in turn. */
  datatype Item = Answer(pin: Pin) | Follow(graph: nat, end: End, path: Path)

  /** Resolution stops after this many boundaries. */
  const DEPTH: nat := 256

  predicate IsSub(v: View, g: nat, node: nat)
  {
    g in v.bodies && node in v.bodies[g].subs
  }

  function Sub(v: View, g: nat, node: nat): Instance
    requires IsSub(v, g, node)
  {
    v.bodies[g].subs[node]
  }

  predicate HasBody(v: View, g: nat, site: nat)
    requires IsSub(v, g, site)
  {
    Sub(v, g, site).target in v.bodies
  }

  /** Every step of a path is a call of some site. */
  predicate Anchored(v: View, path: Path)
  {
    forall k :: 0 <= k < |path| ==> IsSub(v, path[k].graph, path[k].site)
  }

  predicate ItemFits(v: View, item: Item)
  {
    item.Follow? ==> item.graph in v.bodies && Anchored(v, item.path)
  }

  /** Some of the edges, in order. */
  function Pick(edges: seq<Edge>, keep: Edge -> bool): (r: seq<Edge>)
    ensures forall e :: e in r <==> e in edges && keep(e)
  {
    if edges == [] then [] else (if keep(edges[0]) then [edges[0]] else []) + Pick(edges[1..], keep)
  }

  /** The stored edges into a sink, except those from one node. */
  function Into(v: View, g: nat, sink: End, except: Option<nat>): (r: seq<Edge>)
    requires g in v.bodies
    ensures forall e :: e in r <==> e in v.bodies[g].edges && e.sink == sink && except != Some(e.driver.node)
  {
    Pick(v.bodies[g].edges, (e: Edge) => e.sink == sink && except != Some(e.driver.node))
  }

  /** The stored edges out of a driver, except those to one node. */
  function OutOf(v: View, g: nat, driver: End, except: Option<nat>): (r: seq<Edge>)
    requires g in v.bodies
    ensures forall e :: e in r <==> e in v.bodies[g].edges && e.driver == driver && except != Some(e.sink.node)
  {
    Pick(v.bodies[g].edges, (e: Edge) => e.driver == driver && except != Some(e.sink.node))
  }

  /** The stored self-edges of a compact loop; each carries an output of one ordinal to an input of the next. */
  function Carries(v: View, g: nat, site: nat): (r: seq<Edge>)
    requires IsSub(v, g, site)
    ensures forall e :: e in r <==> Sub(v, g, site).loop.Some? && e in v.bodies[g].edges && e.driver.node == site && e.sink.node == site
  {
    if Sub(v, g, site).loop == None then [] else Pick(v.bodies[g].edges, (e: Edge) => e.driver.node == site && e.sink.node == site)
  }

  /** The first carry into an input. */
  function CarryInto(carries: seq<Edge>, port: nat): (r: Option<nat>)
    ensures r.Some? ==> exists e :: e in carries && e.sink.port == port && e.driver.port == r.value
    ensures r == None ==> forall e :: e in carries ==> e.sink.port != port
  {
    if carries == [] then None
    else if carries[0].sink.port == port then Some(carries[0].driver.port)
    else CarryInto(carries[1..], port)
  }

  function CarryOutOf(carries: seq<Edge>, port: nat): Option<nat>
  {
    if carries == [] then None
    else if carries[0].driver.port == port then Some(carries[0].sink.port)
    else CarryOutOf(carries[1..], port)
  }

  /** A node whose stored self-edges unrolling replaces. */
  function Unrolled(v: View, g: nat, node: nat): Option<nat>
  {
    if IsSub(v, g, node) && Expanded(v, Sub(v, g, node)) then Some(node) else None
  }

  function ToDriver(g: nat, path: Path): Edge -> Item
  {
    (e: Edge) => Follow(g, e.driver, path)
  }

  function ToSink(g: nat, path: Path): Edge -> Item
  {
    (e: Edge) => Follow(g, e.sink, path)
  }

  function Each(edges: seq<Edge>, f: Edge -> Item): (r: seq<Item>)
    ensures |r| == |edges| && forall k :: 0 <= k < |r| ==> r[k] == f(edges[k])
  {
    seq(|edges|, k requires 0 <= k < |edges| => f(edges[k]))
  }

  // ---------- resolving a driver ----------

  function Front(path: Path): Path
    requires path != []
  {
    path[..|path| - 1]
  }

  function Last(path: Path): Step
    requires path != []
  {
    path[|path| - 1]
  }

  function DriverItems(v: View, g: nat, d: End, path: Path): (r: seq<Item>)
    requires g in v.bodies && Anchored(v, path)
    ensures forall item :: item in r ==> ItemFits(v, item)
  {
    if d.node == INPUT then
      if path == [] then [Answer(Pin(g, d, true, path, path))] else InputItems(v, g, d, path)
    else if IsSub(v, g, d.node) then CallItems(v, g, d, path)
    else [Answer(Pin(g, d, true, path, path))]
  }

  /** A call site as a pin of one of its calls. */
  function CallPin(s: Step, port: nat, driver: bool, parent: Path): Pin
  {
    Pin(s.graph, End(s.site, port), driver, parent + [s], parent)
  }

  /** An input of a callee leads to what feeds the call: the previous ordinal, or the caller. */
  function InputItems(v: View, g: nat, d: End, path: Path): (r: seq<Item>)
    requires g in v.bodies && Anchored(v, path) && path != []
    ensures forall item :: item in r ==> ItemFits(v, item)
  {
    var s := Last(path);
    var i := Sub(v, s.graph, s.site);
    var carry := CarryInto(Carries(v, s.graph, s.site), d.port);
    if Expanded(v, i) && s.ordinal.Some? && i.loop.value.index == Some(d.port) then
      [Answer(Pin(g, d, true, path, path))]
    else if Expanded(v, i) && s.ordinal.Some? && s.ordinal.value != 0 && carry.Some? then
      OutputItems(v, path, carry.value)
      + if i.loop.value.activation.Some? then [Answer(CallPin(Previous(path), d.port, false, Front(path)))] else []
    else if Expanded(v, i) && s.ordinal.Some? && s.ordinal.value != 0 && i.loop.value.activation == Some(d.port) then
      [Answer(CallPin(Previous(path), d.port, false, Front(path)))]
      + if i.loop.value.nextActive.Some? then OutputItems(v, path, i.loop.value.nextActive.value) else []
    else ExternalItems(v, d.port, path)
  }

  function Previous(path: Path): Step
    requires path != []
  {
    Last(path).(ordinal := if Last(path).ordinal.Some? && Last(path).ordinal.value > 0 then Some(Last(path).ordinal.value - 1) else None)
  }

  /** An output of the previous ordinal, or what drives it inside. */
  function OutputItems(v: View, path: Path, port: nat): (r: seq<Item>)
    requires Anchored(v, path) && path != []
    ensures forall item :: item in r ==> ItemFits(v, item)
  {
    var s := Previous(path);
    if v.verdict(Front(path), s.graph, s.site) == Descend && HasBody(v, s.graph, s.site) then
      var target := Sub(v, s.graph, s.site).target;
      Each(Into(v, target, End(OUTPUT, port), None), ToDriver(target, Front(path) + [s]))
    else [Answer(CallPin(s, port, true, Front(path)))]
  }

  function ExternalItems(v: View, port: nat, path: Path): (r: seq<Item>)
    requires Anchored(v, path) && path != []
    ensures forall item :: item in r ==> ItemFits(v, item)
  {
    var s := Last(path);
    Each(Into(v, s.graph, End(s.site, port), Unrolled(v, s.graph, s.site)), FromOutside(path))
  }

  /** A self-edge ends at the call; any other edge is followed in the caller. */
  function FromOutside(path: Path): Edge -> Item
    requires path != []
  {
    (e: Edge) => if e.driver.node == Last(path).site then Answer(Pin(Last(path).graph, e.driver, true, path, Front(path)))
                 else Follow(Last(path).graph, e.driver, Front(path))
  }

  /** An output of a call leads to what drives it inside the callee, in its last ordinal. */
  function CallItems(v: View, g: nat, d: End, path: Path): (r: seq<Item>)
    requires IsSub(v, g, d.node) && Anchored(v, path)
    ensures forall item :: item in r ==> ItemFits(v, item)
  {
    var i := Sub(v, g, d.node);
    var verdict := v.verdict(path, g, d.node);
    if verdict == Prune then []
    else if Ordinals(v, i) == 0 then
      match CarryOutOf(Carries(v, g, d.node), d.port)
      case None => []
      case Some(input) =>
        Each(Into(v, g, End(d.node, input), Some(d.node)), ToDriver(g, path))
    else
      var s := Call(v, g, d.node, i, Ordinals(v, i) - 1);
      if verdict == Descend && i.target in v.bodies then Each(Into(v, i.target, End(OUTPUT, d.port), None), ToDriver(i.target, path + [s]))
      else [Answer(CallPin(s, d.port, true, path))]
  }

  // ---------- resolving a sink ----------

  function SinkItems(v: View, g: nat, k: End, path: Path): (r: seq<Item>)
    requires g in v.bodies && Anchored(v, path)
    ensures forall item :: item in r ==> ItemFits(v, item)
  {
    if k.node == OUTPUT then
      if path == [] then [Answer(Pin(g, k, false, path, path))]
      else
        var s := Last(path);
        Each(OutOf(v, s.graph, End(s.site, k.port), Some(s.site)), ToSink(s.graph, Front(path)))
    else if IsSub(v, g, k.node) then
      if v.verdict(path, g, k.node) == Prune then [] else AllCallItems(v, g, k, path, 0, Reading(v, g, k))
    else [Answer(Pin(g, k, false, path, path))]
  }

  /** How many ordinals an edge from outside into this input reaches: none for the index, the first for
      a recurrence, and all for any other input. */
  function Reading(v: View, g: nat, k: End): nat
    requires IsSub(v, g, k.node)
  {
    var i := Sub(v, g, k.node);
    if Expanded(v, i) && i.loop.value.index == Some(k.port) then 0
    else if Expanded(v, i) && Recurrent(v, g, k) && Ordinals(v, i) > 1 then 1
    else Ordinals(v, i)
  }

  predicate Recurrent(v: View, g: nat, k: End)
    requires IsSub(v, g, k.node)
  {
    var i := Sub(v, g, k.node);
    i.loop.Some? && (i.loop.value.activation == Some(k.port) || CarryInto(Carries(v, g, k.node), k.port).Some?)
  }

  function AllCallItems(v: View, g: nat, k: End, path: Path, from: nat, upto: nat): (r: seq<Item>)
    requires IsSub(v, g, k.node) && Anchored(v, path)
    ensures forall item :: item in r ==> ItemFits(v, item)
    decreases upto - from
  {
    if from >= upto then [] else CallInputItems(v, g, k, path, from) + AllCallItems(v, g, k, path, from + 1, upto)
  }

  /** An input of one call leads to what reads it inside. A grouped loop is not entered. */
  function CallInputItems(v: View, g: nat, k: End, path: Path, ordinal: nat): (r: seq<Item>)
    requires IsSub(v, g, k.node) && Anchored(v, path)
    ensures forall item :: item in r ==> ItemFits(v, item)
  {
    var i := Sub(v, g, k.node);
    var s := Call(v, g, k.node, i, ordinal);
    if v.verdict(path, g, k.node) == Descend && (v.expand || i.loop == None) && i.target in v.bodies then
      Each(OutOf(v, i.target, End(INPUT, k.port), None), ToSink(i.target, path + [s]))
    else [Answer(CallPin(s, k.port, false, path))]
  }

  // ---------- following to the end ----------

  function Items(v: View, drivers: bool, g: nat, end: End, path: Path): (r: seq<Item>)
    requires g in v.bodies && Anchored(v, path)
    ensures forall item :: item in r ==> ItemFits(v, item)
  {
    if drivers then DriverItems(v, g, end, path) else SinkItems(v, g, end, path)
  }

  /** Everything a pin resolves to, in the order of the edges. */
  function Resolved(v: View, drivers: bool, g: nat, end: End, path: Path, depth: nat): seq<Pin>
    requires g in v.bodies && Anchored(v, path)
    decreases DEPTH + 1 - depth, 0
  {
    if depth > DEPTH then [] else AllResolved(v, drivers, Items(v, drivers, g, end, path), depth + 1)
  }

  function AllResolved(v: View, drivers: bool, items: seq<Item>, depth: nat): seq<Pin>
    requires forall item :: item in items ==> ItemFits(v, item)
    decreases DEPTH + 1 - depth, 1, |items|
  {
    if items == [] then []
    else
      assert items[0] in items;
      OneResolved(v, drivers, items[0], depth) + AllResolved(v, drivers, items[1..], depth)
  }

  function OneResolved(v: View, drivers: bool, item: Item, depth: nat): seq<Pin>
    requires ItemFits(v, item)
    decreases DEPTH + 1 - depth, 1, 0
  {
    match item
    case Answer(pin) => [pin]
    case Follow(g, end, path) => Resolved(v, drivers, g, end, path, depth)
  }

  lemma {:induction false} InAllResolved(v: View, drivers: bool, items: seq<Item>, depth: nat, p: Pin)
    requires forall item :: item in items ==> ItemFits(v, item)
    ensures p in AllResolved(v, drivers, items, depth) <==>
            exists item :: item in items && ItemFits(v, item) && p in OneResolved(v, drivers, item, depth)
    decreases |items|
  {
    if items != [] {
      var rest := items[1..];
      InAllResolved(v, drivers, rest, depth, p);
      assert items == [items[0]] + rest;
      if item: Item :| item in items && ItemFits(v, item) && p in OneResolved(v, drivers, item, depth) {
        assert item == items[0] || item in rest;
      }
    }
  }

  /** The edges that are kept stand in the order in which they are stored. */
  lemma {:induction false} PickInOrder(edges: seq<Edge>, more: seq<Edge>, keep: Edge -> bool)
    ensures Pick(edges + more, keep) == Pick(edges, keep) + Pick(more, keep)
  {
    if edges == [] {
      assert edges + more == more;
    } else {
      assert (edges + more)[1..] == edges[1..] + more;
      PickInOrder(edges[1..], more, keep);
      Regroup(if keep(edges[0]) then [edges[0]] else [], Pick(edges[1..], keep), Pick(more, keep));
    }
  }

  /** What earlier items lead to is listed before what later ones lead to. */
  lemma {:induction false} AnswersInOrder(v: View, drivers: bool, items: seq<Item>, more: seq<Item>, depth: nat)
    requires forall item :: item in items + more ==> ItemFits(v, item)
    ensures (forall item :: item in items ==> ItemFits(v, item)) && forall item :: item in more ==> ItemFits(v, item)
    ensures AllResolved(v, drivers, items + more, depth) == AllResolved(v, drivers, items, depth) + AllResolved(v, drivers, more, depth)
  {
    assert forall item :: item in items || item in more ==> item in items + more;
    if items == [] {
      assert items + more == more;
    } else {
      var all := items + more;
      assert all[0] == items[0] && all[1..] == items[1..] + more;
      assert forall item :: item in items[1..] + more ==> item in all;
      AnswersInOrder(v, drivers, items[1..], more, depth);
      Regroup(OneResolved(v, drivers, items[0], depth), AllResolved(v, drivers, items[1..], depth), AllResolved(v, drivers, more, depth));
    }
  }

  /** The recursive resolver: a list that grows as the edges are followed. */
  method Resolve(v: View, drivers: bool, g: nat, end: End, path: Path, depth: nat) returns (result: seq<Pin>)
    requires g in v.bodies && Anchored(v, path)
    ensures result == Resolved(v, drivers, g, end, path, depth)
    decreases DEPTH + 1 - depth, 0
  {
    if depth > DEPTH {
      return [];
    }
    result := ResolveAll(v, drivers, Items(v, drivers, g, end, path), depth + 1);
  }

  method ResolveAll(v: View, drivers: bool, items: seq<Item>, depth: nat) returns (result: seq<Pin>)
    requires forall item :: item in items ==> ItemFits(v, item)
    ensures result == AllResolved(v, drivers, items, depth)
    decreases DEPTH + 1 - depth, 1
  {
    result := [];
    ghost var left := items;
    for k := 0 to |items|
      invariant left == items[k..]
      invariant result + AllResolved(v, drivers, left, depth) == AllResolved(v, drivers, items, depth)
    {
      var item := items[k];
      assert item in items;
      ghost var rest := AllResolved(v, drivers, left[1..], depth);
      match item {
        case Answer(pin) =>
          Regroup(result, [pin], rest);
          result := result + [pin];
        case Follow(graph, next, at) =>
          var more := Resolve(v, drivers, graph, next, at, depth);
          Regroup(result, more, rest);
          result := result + more;
      }
      left := left[1..];
    }
  }

  // ---------- the edges of a pin ----------

  predicate PinFits(v: View, p: Pin)
  {
    p.graph in v.bodies && Anchored(v, p.container) && Anchored(v, p.identity)
  }

  /** The pin belongs to one ordinal of an unrolled loop. */
  predicate OfOrdinal(v: View, p: Pin)
  {
    IsSub(v, p.graph, p.end.node) && Expanded(v, Sub(v, p.graph, p.end.node)) && p.identity != [] && Last(p.identity).ordinal.Some?
  }

  function OrdinalOf(v: View, p: Pin): nat
    requires OfOrdinal(v, p)
  {
    Last(p.identity).ordinal.value
  }

  /** A pin of another ordinal of the same call. */
  function AtOrdinal(p: Pin, ordinal: nat, port: nat, driver: bool): Pin
  {
    CallPin(Step(p.graph, p.end.node, Some(ordinal)), port, driver, p.container)
  }

  function StoredInto(v: View, p: Pin): (r: seq<Item>)
    requires PinFits(v, p)
    ensures forall item :: item in r ==> ItemFits(v, item)
  {
    Each(Into(v, p.graph, p.end, Unrolled(v, p.graph, p.end.node)), ToDriver(p.graph, p.container))
  }

  function StoredOutOf(v: View, p: Pin): (r: seq<Item>)
    requires PinFits(v, p)
    ensures forall item :: item in r ==> ItemFits(v, item)
  {
    Each(OutOf(v, p.graph, p.end, Unrolled(v, p.graph, p.end.node)), ToSink(p.graph, p.container))
  }

  /** The drivers of a pin. */
  method InPins(v: View, p: Pin) returns (result: seq<Pin>)
    requires PinFits(v, p)
    ensures result == Ins(v, p)
  {
    if OfOrdinal(v, p) {
      var i := Sub(v, p.graph, p.end.node);
      if i.target in v.bodies {
        result := Resolve(v, true, i.target, End(INPUT, p.end.port), p.identity, 0);
        return;
      }
      if i.loop.value.index == Some(p.end.port) {
        return [];
      }
      if OrdinalOf(v, p) != 0 && Recurrent(v, p.graph, p.end) {
        return FromPrevious(v, p);
      }
    }
    result := ResolveAll(v, true, StoredInto(v, p), 0);
  }

  function Ins(v: View, p: Pin): seq<Pin>
    requires PinFits(v, p)
  {
    if OfOrdinal(v, p) && HasBody(v, p.graph, p.end.node) then
      Resolved(v, true, Sub(v, p.graph, p.end.node).target, End(INPUT, p.end.port), p.identity, 0)
    else if OfOrdinal(v, p) && Sub(v, p.graph, p.end.node).loop.value.index == Some(p.end.port) then []
    else if OfOrdinal(v, p) && OrdinalOf(v, p) != 0 && Recurrent(v, p.graph, p.end) then FromPrevious(v, p)
    else AllResolved(v, true, StoredInto(v, p), 0)
  }

  /** What a carry or the activation of an ordinal reads from the one before. */
  function FromPrevious(v: View, p: Pin): seq<Pin>
    requires OfOrdinal(v, p) && OrdinalOf(v, p) != 0 && Recurrent(v, p.graph, p.end)
  {
    var loop := Sub(v, p.graph, p.end.node).loop.value;
    var carry := CarryInto(Carries(v, p.graph, p.end.node), p.end.port);
    var r := OrdinalOf(v, p) - 1;
    if carry.Some? then
      [AtOrdinal(p, r, carry.value, true)] + if loop.activation.Some? then [AtOrdinal(p, r, p.end.port, false)] else []
    else
      [AtOrdinal(p, r, p.end.port, false)] + if loop.nextActive.Some? then [AtOrdinal(p, r, loop.nextActive.value, true)] else []
  }

  function Outs(v: View, p: Pin): seq<Pin>
    requires PinFits(v, p)
  {
    if !OfOrdinal(v, p) then AllResolved(v, false, StoredOutOf(v, p), 0)
    else ToNext(v, p) + if p.driver && OrdinalOf(v, p) + 1 != GroupSize(Sub(v, p.graph, p.end.node)) then []
                        else AllResolved(v, false, StoredOutOf(v, p), 0)
  }

  /** What the next ordinal reads from this pin. */
  function ToNext(v: View, p: Pin): seq<Pin>
    requires OfOrdinal(v, p)
  {
    var i := Sub(v, p.graph, p.end.node);
    var loop := i.loop.value;
    var carries := Carries(v, p.graph, p.end.node);
    var r := OrdinalOf(v, p) + 1;
    if r >= loop.count then []
    else if p.driver then
      CarriedTo(p, CarriesOutOf(carries, p.end.port), r)
      + if loop.nextActive.Some? && loop.activation.Some? && p.end.port == loop.nextActive.value
        then [AtOrdinal(p, r, loop.activation.value, false)] else []
    else if loop.activation.Some? then
      CarriedTo(p, CarriesInto(carries, p.end.port), r)
      + if p.end.port == loop.activation.value then [AtOrdinal(p, r, loop.activation.value, false)] else []
    else []
  }

  function CarriesOutOf(carries: seq<Edge>, port: nat): (r: seq<Edge>)
    ensures forall e :: e in r <==> e in carries && e.driver.port == port
  {
    Pick(carries, (e: Edge) => e.driver.port == port)
  }

  function CarriesInto(carries: seq<Edge>, port: nat): (r: seq<Edge>)
    ensures forall e :: e in r <==> e in carries && e.sink.port == port
  {
    Pick(carries, (e: Edge) => e.sink.port == port)
  }

  function CarriedTo(p: Pin, carries: seq<Edge>, ordinal: nat): (r: seq<Pin>)
    ensures |r| == |carries| && forall k :: 0 <= k < |r| ==> r[k] == AtOrdinal(p, ordinal, carries[k].sink.port, false)
  {
    seq(|carries|, k requires 0 <= k < |carries| => AtOrdinal(p, ordinal, carries[k].sink.port, false))
  }

  /** The sinks of a pin. */
  method OutPins(v: View, p: Pin) returns (result: seq<Pin>)
    requires PinFits(v, p)
    ensures result == Outs(v, p)
  {
    result := [];
    if OfOrdinal(v, p) {
      result := ToNext(v, p);
      if p.driver && OrdinalOf(v, p) + 1 != GroupSize(Sub(v, p.graph, p.end.node)) {
        return;
      }
    }
    var more := ResolveAll(v, false, StoredOutOf(v, p), 0);
    result := result + more;
  }
}
