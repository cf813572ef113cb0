/**
 Walking a hierarchy: the recursive visit, the cursor with its explicit stack, and the count.
 */
module OccurrenceTraversal {
  import opened OccurrenceLibrary
  import opened Options
  import opened Sequences

  /** A node as it occurs in the hierarchy. A call site is identified by the path that includes the call;
      its container is the path of the body that holds it. */
  datatype Occurrence = Occurrence(graph: nat, node: nat, identity: Path, container: Path)

  /** How many more bodies can be entered. */
  ghost function Room(v: View, active: set<nat>): nat
  {
    |v.bodies.Keys - active|
  }

  lemma {:induction false} RoomShrinks(v: View, g: nat, active: set<nat>)
    requires g in v.bodies && g !in active
    ensures Room(v, active + {g}) < Room(v, active)
  {
    assert v.bodies.Keys - active == (v.bodies.Keys - (active + {g})) + {g};
  }

  // ---------- the sequence of occurrences ----------

  /** The occurrences below a body. A graph that is being visited already is not entered again. */
  ghost function Occurrences(v: View, g: nat, path: Path, active: set<nat>): seq<Occurrence>
    decreases Room(v, active), 0, 0
  {
    if g !in v.bodies || g in active then []
    else
      RoomShrinks(v, g, active);
      OfNodes(v, g, v.bodies[g].nodes, path, active + {g})
  }

  ghost function OfNodes(v: View, g: nat, nodes: seq<nat>, path: Path, active: set<nat>): seq<Occurrence>
    requires g in v.bodies
    decreases Room(v, active), 2, |nodes|
  {
    if nodes == [] then []
    else OfNode(v, g, nodes[0], path, active) + OfNodes(v, g, nodes[1..], path, active)
  }

  ghost function OfNode(v: View, g: nat, node: nat, path: Path, active: set<nat>): seq<Occurrence>
    requires g in v.bodies
    decreases Room(v, active), 2, 0
  {
    if node !in v.bodies[g].subs then [Occurrence(g, node, path, path)]
    else if v.verdict(path, g, node) == Prune then []
    else OfCalls(v, g, node, path, active, 0)
  }

  /** The calls of a site from one ordinal on. */
  ghost function OfCalls(v: View, g: nat, site: nat, path: Path, active: set<nat>, from: nat): seq<Occurrence>
    requires g in v.bodies && site in v.bodies[g].subs
    decreases Room(v, active), 1, Ordinals(v, v.bodies[g].subs[site]) - from
  {
    var i := v.bodies[g].subs[site];
    if from >= Ordinals(v, i) then []
    else
      var call := path + [Call(v, g, site, i, from)];
      [Occurrence(g, site, call, path)] + OfCallee(v, g, site, call, path, active) + OfCalls(v, g, site, path, active, from + 1)
  }

  /** What one call descends to. */
  ghost function OfCallee(v: View, g: nat, site: nat, call: Path, path: Path, active: set<nat>): seq<Occurrence>
    requires g in v.bodies && site in v.bodies[g].subs
    decreases Room(v, active), 0, 1
  {
    if v.verdict(path, g, site) == Descend then Occurrences(v, v.bodies[g].subs[site].target, call, active) else []
  }

  // ---------- the recursive visit ----------

  class RecursiveVisit {
    var active: set<nat>
    var out: seq<Occurrence>

    constructor ()
      ensures active == {} && out == [] && fresh(this)
    {
      active, out := {}, [];
    }

    method VisitBody(v: View, g: nat, path: Path)
      modifies this
      ensures active == old(active)
      ensures out == old(out) + Occurrences(v, g, path, old(active))
      decreases Room(v, active), 0, 0
    {
      ghost var was := active;
      if g !in v.bodies || g in active {
        return;
      }
      RoomShrinks(v, g, active);
      active := active + {g};
      var nodes := v.bodies[g].nodes;
      ghost var left := nodes;
      ghost var all := OfNodes(v, g, nodes, path, active);
      for k := 0 to |nodes|
        invariant active == was + {g} && left == nodes[k..]
        invariant out + OfNodes(v, g, left, path, active) == old(out) + all
      {
        Regroup(out, OfNode(v, g, left[0], path, active), OfNodes(v, g, left[1..], path, active));
        VisitOne(v, g, nodes[k], path);
        left := left[1..];
      }
      active := active - {g};
    }

    method VisitOne(v: View, g: nat, node: nat, path: Path)
      requires g in v.bodies
      modifies this
      ensures active == old(active)
      ensures out == old(out) + OfNode(v, g, node, path, old(active))
      decreases Room(v, active), 1, 0
    {
      if node !in v.bodies[g].subs {
        out := out + [Occurrence(g, node, path, path)];
        return;
      }
      if v.verdict(path, g, node) == Prune {
        return;
      }
      var i := v.bodies[g].subs[node];
      ghost var was := active;
      ghost var all := OfCalls(v, g, node, path, active, 0);
      for ordinal := 0 to Ordinals(v, i)
        invariant active == was
        invariant out + OfCalls(v, g, node, path, active, ordinal) == old(out) + all
      {
        var call := path + [Call(v, g, node, i, ordinal)];
        ghost var head, below := [Occurrence(g, node, call, path)], OfCallee(v, g, node, call, path, active);
        ghost var rest := OfCalls(v, g, node, path, active, ordinal + 1);
        assert OfCalls(v, g, node, path, active, ordinal) == head + below + rest;
        Regroup3(out, head, below, rest);
        VisitCall(v, g, node, call, path);
      }
      assert out + [] == out;
    }

    method VisitCall(v: View, g: nat, site: nat, call: Path, path: Path)
      requires g in v.bodies && site in v.bodies[g].subs
      modifies this
      ensures active == old(active)
      ensures out == old(out) + [Occurrence(g, site, call, path)] + OfCallee(v, g, site, call, path, old(active))
      decreases Room(v, active), 0, 1
    {
      out := out + [Occurrence(g, site, call, path)];
      if v.verdict(path, g, site) == Descend {
        VisitBody(v, v.bodies[g].subs[site].target, call);
      } else {
        assert out + [] == out;
      }
    }
  }

  lemma {:induction false} Regroup3(a: seq<Occurrence>, b: seq<Occurrence>, c: seq<Occurrence>, d: seq<Occurrence>)
    ensures a + (b + c + d) == a + b + c + d
  {
  }

  // ---------- the cursor ----------

  /** A call site under way: the verdict on it and the ordinals still to come. */
  datatype Site = Site(node: nat, verdict: Action, next: nat, count: nat)

  datatype Frame = Frame(graph: nat, path: Path, rest: seq<nat>, site: Option<Site>)

  /** A call that was yielded, and is entered when the cursor moves on. */
  datatype Pending = Pending(target: nat, call: Path)

  ghost function Gids(stack: seq<Frame>): set<nat>
  {
    set k | 0 <= k < |stack| :: stack[k].graph
  }

  ghost predicate FrameFits(v: View, f: Frame)
  {
    f.graph in v.bodies && (f.site.Some? ==> SiteFits(v, f, f.site.value))
  }

  ghost predicate SiteFits(v: View, f: Frame, s: Site)
  {
    f.graph in v.bodies && s.node in v.bodies[f.graph].subs
    && s.verdict == v.verdict(f.path, f.graph, s.node)
    && s.count == Ordinals(v, v.bodies[f.graph].subs[s.node])
  }

  ghost predicate StackFits(v: View, stack: seq<Frame>)
  {
    (forall k :: 0 <= k < |stack| ==> FrameFits(v, stack[k]))
    && forall j, k :: 0 <= j < k < |stack| ==> stack[j].graph != stack[k].graph
  }

  /** What a frame has still to yield. */
  ghost function OfFrame(v: View, f: Frame, active: set<nat>): seq<Occurrence>
    requires FrameFits(v, f)
  {
    OfSite(v, f, active) + OfNodes(v, f.graph, f.rest, f.path, active)
  }

  ghost function OfSite(v: View, f: Frame, active: set<nat>): seq<Occurrence>
    requires FrameFits(v, f)
  {
    if f.site.Some? then OfCalls(v, f.graph, f.site.value.node, f.path, active, f.site.value.next) else []
  }

  ghost function OfStack(v: View, stack: seq<Frame>): seq<Occurrence>
    requires StackFits(v, stack)
  {
    if stack == [] then []
    else OfFrame(v, stack[|stack| - 1], Gids(stack)) + OfStack(v, stack[..|stack| - 1])
  }

  ghost function OfPending(v: View, pending: Option<Pending>, active: set<nat>): seq<Occurrence>
  {
    match pending
    case None => []
    case Some(p) => Occurrences(v, p.target, p.call, active)
  }

  /** How many more steps the cursor can take without yielding. */
  ghost function Work(stack: seq<Frame>): nat
  {
    if stack == [] then 0 else 1 + |stack[|stack| - 1].rest| + Work(stack[..|stack| - 1])
  }

  lemma {:induction false} PushedStack(v: View, stack: seq<Frame>, f: Frame)
    requires StackFits(v, stack) && FrameFits(v, f) && f.graph !in Gids(stack)
    ensures StackFits(v, stack + [f]) && Gids(stack + [f]) == Gids(stack) + {f.graph}
    ensures OfStack(v, stack + [f]) == OfFrame(v, f, Gids(stack) + {f.graph}) + OfStack(v, stack)
    ensures Work(stack + [f]) == 1 + |f.rest| + Work(stack)
  {
    var more := stack + [f];
    forall g
      ensures g in Gids(more) <==> g in Gids(stack) || g == f.graph
    {
      if g in Gids(stack) {
        var k :| 0 <= k < |stack| && stack[k].graph == g;
        assert more[k].graph == g;
      }
      if g == f.graph {
        assert more[|stack|].graph == g;
      }
    }
    assert more[..|stack|] == stack;
    forall j, k | 0 <= j < k < |more|
      ensures more[j].graph != more[k].graph
    {
      if k == |stack| {
        assert stack[j].graph in Gids(stack);
      }
    }
  }

  /** A stack is its lower part with the top frame pushed on it. */
  lemma {:induction false} TopOfStack(v: View, stack: seq<Frame>)
    requires stack != [] && StackFits(v, stack)
    ensures StackFits(v, stack[..|stack| - 1]) && FrameFits(v, stack[|stack| - 1])
    ensures stack[|stack| - 1].graph !in Gids(stack[..|stack| - 1])
    ensures stack == stack[..|stack| - 1] + [stack[|stack| - 1]]
  {
    var low := stack[..|stack| - 1];
    forall k | 0 <= k < |low|
      ensures FrameFits(v, low[k]) && low[k].graph != stack[|stack| - 1].graph
    {
      assert low[k] == stack[k];
    }
  }

  class OccurrenceCursor {
    const view: View
    var stack: seq<Frame>
    var active: set<nat>
    var pending: Option<Pending>
    var current: Option<Occurrence>
    var position: nat
    var done: bool

    ghost predicate Valid()
      reads this
    {
      StackFits(view, stack) && active == Gids(stack) && (done ==> stack == [] && pending == None)
    }

    /** What is still to be yielded after the current occurrence. */
    ghost function Remaining(): seq<Occurrence>
      reads this
      requires Valid()
    {
      OfPending(view, pending, active) + OfStack(view, stack)
    }

    constructor (v: View)
      ensures Valid() && fresh(this) && view == v
      ensures Yields(Occurrences(v, v.root, [], {}), 0)
    {
      view := v;
      stack, active, pending, current, position, done := [], {}, None, None, 0, false;
      new;
      PushBody(v.root, []);
      assert [] + OfStack(view, stack) == OfStack(view, stack);
      Advance();
    }

    /** The state after moving on when `todo` was to be yielded and `before` yields had been made. */
    ghost predicate Yields(todo: seq<Occurrence>, before: nat)
      reads this
      requires Valid()
    {
      if todo == [] then done && current == None && Remaining() == [] && position == before
      else !done && current == Some(todo[0]) && Remaining() == todo[1..] && position == before + 1
    }

    /** Enters a body unless it is being visited. */
    method PushBody(g: nat, path: Path)
      requires Valid() && pending == None && !done
      modifies this`stack, this`active
      ensures Valid()
      ensures OfStack(view, stack) == Occurrences(view, g, path, old(active)) + OfStack(view, old(stack))
    {
      if g !in view.bodies || g in active {
        assert [] + OfStack(view, stack) == OfStack(view, stack);
        return;
      }
      var f := Frame(g, path, view.bodies[g].nodes, None);
      PushedStack(view, stack, f);
      assert OfFrame(view, f, Gids(stack) + {g}) == OfNodes(view, g, f.rest, path, Gids(stack) + {g});
      stack, active := stack + [f], active + {g};
    }

    method Advance()
      requires Valid()
      modifies this
      ensures Valid() && Yields(old(Remaining()), old(position))
    {
      EnterPending();
      var found := SkipToNext();
      if !found {
        done := true;
      }
    }

    /** Takes steps until one yields, or the stack is empty. */
    method SkipToNext() returns (found: bool)
      requires Valid() && pending == None && current == None
      modifies this
      ensures Valid()
      ensures found ==> !done && position == old(position) + 1
      ensures found ==> old(Remaining()) != [] && current == Some(old(Remaining())[0]) && Remaining() == old(Remaining())[1..]
      ensures !found ==> stack == [] && pending == None && current == None && position == old(position)
      ensures !found ==> Remaining() == [] && old(Remaining()) == []
    {
      while stack != []
        invariant Valid() && pending == None && current == None && position == old(position)
        invariant Remaining() == old(Remaining())
        decreases Work(stack)
      {
        StepTop();
        if current != None {
          return true;
        }
      }
      found := false;
    }

    /** Enters the call yielded last. */
    method EnterPending()
      requires Valid()
      modifies this`stack, this`active, this`pending, this`current
      ensures Valid() && pending == None && current == None && Remaining() == old(Remaining())
    {
      current := None;
      if pending.Some? {
        var descent := pending.value;
        pending := None;
        PushBody(descent.target, descent.call);
        assert [] + OfStack(view, stack) == OfStack(view, stack);
      }
    }

    /** One round with the top frame. */
    method StepTop()
      requires Valid() && stack != [] && pending == None && current == None && !done
      modifies this
      ensures Valid() && !done
      ensures current == None ==> pending == None && position == old(position)
      ensures current == None ==> Work(stack) < Work(old(stack)) && Remaining() == old(Remaining())
      ensures current != None ==> position == old(position) + 1
      ensures current != None ==> old(Remaining()) != [] && current == Some(old(Remaining())[0]) && Remaining() == old(Remaining())[1..]
    {
      var top := |stack| - 1;
      var f := stack[top];
      if f.site.Some? && f.site.value.next < f.site.value.count {
        YieldCall();
      } else {
        NextNode();
      }
    }

    /** Yields the next ordinal of the site under way. */
    method YieldCall()
      requires Valid() && stack != [] && pending == None && current == None && !done
      requires var f := stack[|stack| - 1]; f.site.Some? && f.site.value.next < f.site.value.count
      modifies this
      ensures Valid() && !done && position == old(position) + 1
      ensures old(Remaining()) != [] && current == Some(old(Remaining())[0]) && Remaining() == old(Remaining())[1..]
    {
      var f := stack[|stack| - 1];
      var s := f.site.value;
      var i := view.bodies[f.graph].subs[s.node];
      var call := f.path + [Call(view, f.graph, s.node, i, s.next)];
      var after := f.(site := Some(s.(next := s.next + 1)));
      ghost var was := Remaining();
      ghost var more := CallIsNext(view, stack, f, after, call);
      SetTop(after);
      current := Some(Occurrence(f.graph, s.node, call, f.path));
      pending := if s.verdict == Descend then Some(Pending(i.target, call)) else None;
      position := position + 1;
      assert OfPending(view, pending, active) == OfCallee(view, f.graph, s.node, call, f.path, active);
      assert Remaining() == more == was[1..];
    }

    /** Takes the next node of the top frame, or leaves the frame. */
    method NextNode()
      requires Valid() && stack != [] && pending == None && current == None && !done
      requires var f := stack[|stack| - 1]; f.site.Some? ==> f.site.value.next >= f.site.value.count
      modifies this
      ensures Valid() && !done
      ensures current == None ==> pending == None && position == old(position)
      ensures current == None ==> Work(stack) < Work(old(stack)) && Remaining() == old(Remaining())
      ensures current != None ==> position == old(position) + 1
      ensures current != None ==> old(Remaining()) != [] && current == Some(old(Remaining())[0]) && Remaining() == old(Remaining())[1..]
    {
      var top := |stack| - 1;
      var f := stack[top];
      if f.rest == [] {
        LeaveFrame();
        return;
      }
      var node := f.rest[0];
      if node !in view.bodies[f.graph].subs {
        YieldLeaf();
        return;
      }
      var verdict := view.verdict(f.path, f.graph, node);
      var count := Ordinals(view, view.bodies[f.graph].subs[node]);
      SiteOpens(view, f, Gids(stack), OfStack(view, stack[..top]));
      SetTop(Frame(f.graph, f.path, f.rest[1..], if verdict == Prune then None else Some(Site(node, verdict, 0, count))));
    }

    /** Replaces the top frame. */
    method SetTop(f: Frame)
      requires Valid() && stack != [] && FrameFits(view, f) && f.graph == stack[|stack| - 1].graph
      modifies this`stack
      ensures StackFits(view, stack) && Gids(stack) == old(Gids(stack))
      ensures old(StackFits(view, stack[..|stack| - 1]))
      ensures OfStack(view, stack) == OfFrame(view, f, active) + old(OfStack(view, stack[..|stack| - 1]))
      ensures Work(stack) == 1 + |f.rest| + old(Work(stack[..|stack| - 1])) && stack != []
    {
      TopOfStack(view, stack);
      var low := stack[..|stack| - 1];
      PushedStack(view, low, stack[|stack| - 1]);
      PushedStack(view, low, f);
      stack := low + [f];
    }

    method YieldLeaf()
      requires Valid() && stack != [] && pending == None && current == None && !done
      requires
        var f := stack[|stack| - 1];
        (f.site.Some? ==> f.site.value.next >= f.site.value.count) && f.rest != [] && f.rest[0] !in view.bodies[f.graph].subs
      modifies this
      ensures Valid() && !done && position == old(position) + 1
      ensures old(Remaining()) != [] && current == Some(old(Remaining())[0]) && Remaining() == old(Remaining())[1..]
    {
      var top := |stack| - 1;
      var f := stack[top];
      LeafYields(view, f, Gids(stack), OfStack(view, stack[..top]));
      current := Some(Occurrence(f.graph, f.rest[0], f.path, f.path));
      position := position + 1;
      SetTop(Frame(f.graph, f.path, f.rest[1..], None));
    }

    method LeaveFrame()
      requires Valid() && stack != [] && pending == None && !done
      requires var f := stack[|stack| - 1]; (f.site.Some? ==> f.site.value.next >= f.site.value.count) && f.rest == []
      modifies this`stack, this`active
      ensures Valid() && Work(stack) < Work(old(stack)) && Remaining() == old(Remaining())
    {
      var top := |stack| - 1;
      var f := stack[top];
      TopOfStack(view, stack);
      PushedStack(view, stack[..top], f);
      FrameEnds(view, f, active, OfStack(view, stack[..top]));
      active := active - {f.graph};
      stack := stack[..top];
    }
  }

  /** A call of the top frame is next, and then come its callee, the rest of the frame, and the frames below. */
  lemma {:induction false} CallIsNext(v: View, stack: seq<Frame>, f: Frame, after: Frame, call: Path) returns (more: seq<Occurrence>)
    requires StackFits(v, stack) && stack != [] && f == stack[|stack| - 1] && f.site.Some? && f.site.value.next < f.site.value.count
    requires after == f.(site := Some(f.site.value.(next := f.site.value.next + 1)))
    requires FrameFits(v, f) && call == f.path + [Call(v, f.graph, f.site.value.node, v.bodies[f.graph].subs[f.site.value.node], f.site.value.next)]
    ensures FrameFits(v, after) && StackFits(v, stack[..|stack| - 1])
    ensures more == OfCallee(v, f.graph, f.site.value.node, call, f.path, Gids(stack))
                    + (OfFrame(v, after, Gids(stack)) + OfStack(v, stack[..|stack| - 1]))
    ensures
      var all := [] + OfStack(v, stack);
      all != [] && all[0] == Occurrence(f.graph, f.site.value.node, call, f.path) && all[1..] == more
  {
    var s, below := f.site.value, OfStack(v, stack[..|stack| - 1]);
    more := OfCallee(v, f.graph, s.node, call, f.path, Gids(stack)) + (OfFrame(v, after, Gids(stack)) + below);
    TopOfStack(v, stack);
    CallYields(v, f, after, call, Gids(stack), below);
    FirstOf([] + OfStack(v, stack), Occurrence(f.graph, s.node, call, f.path), more);
  }

  lemma {:induction false} FirstOf(all: seq<Occurrence>, o: Occurrence, more: seq<Occurrence>)
    requires all == [] + ([o] + more)
    ensures all != [] && all[0] == o && all[1..] == more
  {
  }

  lemma {:induction false} FrameEnds(v: View, f: Frame, active: set<nat>, below: seq<Occurrence>)
    requires FrameFits(v, f) && f.rest == [] && OfSite(v, f, active) == []
    ensures [] + (OfFrame(v, f, active) + below) == [] + below
  {
  }

  lemma {:induction false} CallYields(v: View, f: Frame, after: Frame, call: Path, active: set<nat>, below: seq<Occurrence>)
    requires FrameFits(v, f) && f.site.Some? && f.site.value.next < f.site.value.count
    requires after == f.(site := Some(f.site.value.(next := f.site.value.next + 1)))
    requires call == f.path + [Call(v, f.graph, f.site.value.node, v.bodies[f.graph].subs[f.site.value.node], f.site.value.next)]
    ensures OfFrame(v, f, active) + below ==
            [Occurrence(f.graph, f.site.value.node, call, f.path)]
            + (OfCallee(v, f.graph, f.site.value.node, call, f.path, active) + (OfFrame(v, after, active) + below))
  {
    var s := f.site.value;
    RegroupCall([Occurrence(f.graph, s.node, call, f.path)], OfCallee(v, f.graph, s.node, call, f.path, active),
                OfCalls(v, f.graph, s.node, f.path, active, s.next + 1), OfNodes(v, f.graph, f.rest, f.path, active), below);
  }

  lemma {:induction false} RegroupCall(a: seq<Occurrence>, b: seq<Occurrence>, c: seq<Occurrence>, d: seq<Occurrence>, e: seq<Occurrence>)
    ensures ((a + b + c) + d) + e == a + (b + ((c + d) + e))
  {
  }

  lemma {:induction false} LeafYields(v: View, f: Frame, active: set<nat>, below: seq<Occurrence>)
    requires FrameFits(v, f) && f.rest != [] && f.rest[0] !in v.bodies[f.graph].subs && OfSite(v, f, active) == []
    ensures
      var after := Frame(f.graph, f.path, f.rest[1..], None);
      OfFrame(v, f, active) + below == [Occurrence(f.graph, f.rest[0], f.path, f.path)] + (OfFrame(v, after, active) + below)
  {
    var o, nodes := [Occurrence(f.graph, f.rest[0], f.path, f.path)], OfNodes(v, f.graph, f.rest[1..], f.path, active);
    assert OfNodes(v, f.graph, f.rest, f.path, active) == o + nodes;
    assert [] + (o + nodes) == o + nodes;
    assert [] + nodes == nodes;
    Regroup(o, nodes, below);
  }

  lemma {:induction false} SiteOpens(v: View, f: Frame, active: set<nat>, below: seq<Occurrence>)
    requires FrameFits(v, f) && f.rest != [] && OfSite(v, f, active) == [] && f.rest[0] in v.bodies[f.graph].subs
    ensures
      var verdict := v.verdict(f.path, f.graph, f.rest[0]);
      var site := if verdict == Prune then None else Some(Site(f.rest[0], verdict, 0, Ordinals(v, v.bodies[f.graph].subs[f.rest[0]])));
      OfFrame(v, f, active) + below == OfFrame(v, Frame(f.graph, f.path, f.rest[1..], site), active) + below
  {
    var here, more := OfNode(v, f.graph, f.rest[0], f.path, active), OfNodes(v, f.graph, f.rest[1..], f.path, active);
    Regroup([], here, more);
    assert [] + here == here;
  }

  /** A cursor yields, one by one and in order, exactly what the recursive visit lists. */
  method Traverse(v: View) returns (all: seq<Occurrence>)
    ensures all == Occurrences(v, v.root, [], {})
  {
    var cursor := new OccurrenceCursor(v);
    all := Drain(cursor, Occurrences(v, v.root, [], {}), 0);
  }

  method Drain(cursor: OccurrenceCursor, ghost whole: seq<Occurrence>, ghost before: nat) returns (all: seq<Occurrence>)
    requires cursor.Valid() && cursor.Yields(whole, before)
    modifies cursor
    ensures all == whole
  {
    all := [];
    ghost var todo, n := whole, before;
    while !cursor.done
      invariant cursor.Valid() && cursor.Yields(todo, n) && whole == all + todo
      decreases |todo|
    {
      ghost var rest := cursor.Remaining();
      all := all + [cursor.current.value];
      cursor.Advance();
      FirstAndRest(all[..|all| - 1], todo);
      todo, n := rest, n + 1;
    }
    assert all + [] == all;
  }

  lemma {:induction false} FirstAndRest(all: seq<Occurrence>, todo: seq<Occurrence>)
    requires todo != []
    ensures all + todo == all + [todo[0]] + todo[1..]
  {
  }

  // ---------- which occurrences there are ----------

  /** From the body of `g` at `path`, taking exactly the given calls leads to this node. Each call is of
      a site that is not pruned and has the ordinal, every call but the last is descended into, and no
      graph is entered while it is being visited. */
  ghost predicate Reached(v: View, g: nat, path: Path, steps: seq<Step>, active: set<nat>, o: Occurrence)
    decreases |steps|
  {
    g in v.bodies && g !in active
    && if steps == [] then
         o.graph == g && o.node in v.bodies[g].nodes && o.node !in v.bodies[g].subs && o.identity == path && o.container == path
       else
         var s := steps[0];
         IsCall(v, g, path, s)
         && ((steps == [s] && o == Occurrence(g, s.site, path + [s], path))
             || (v.verdict(path, g, s.site) == Descend
                 && Reached(v, v.bodies[g].subs[s.site].target, path + [s], steps[1..], active + {g}, o)))
  }

  /** A step that some site of the body takes. */
  ghost predicate IsCall(v: View, g: nat, path: Path, s: Step)
  {
    g in v.bodies && s.site in v.bodies[g].nodes && s.site in v.bodies[g].subs && v.verdict(path, g, s.site) != Prune
    && exists ordinal: nat :: ordinal < Ordinals(v, v.bodies[g].subs[s.site]) && s == Call(v, g, s.site, v.bodies[g].subs[s.site], ordinal)
  }

  /** The steps that lead to an occurrence are those of its identity after the path of the body. */
  lemma {:induction false} ReachedBySteps(v: View, g: nat, path: Path, steps: seq<Step>, active: set<nat>, o: Occurrence)
    requires Reached(v, g, path, steps, active, o)
    ensures o.identity == path + steps
    decreases |steps|
  {
    if steps == [] {
      assert path + [] == path;
    } else {
      assert path + steps == path + [steps[0]] + steps[1..];
      if steps != [steps[0]] || o != Occurrence(g, steps[0].site, path + [steps[0]], path) {
        ReachedBySteps(v, v.bodies[g].subs[steps[0].site].target, path + [steps[0]], steps[1..], active + {g}, o);
      }
    }
  }

  /** The visit lists exactly the occurrences that can be reached. */
  lemma {:induction false} VisitIsExact(v: View, g: nat, path: Path, active: set<nat>, o: Occurrence)
    ensures o in Occurrences(v, g, path, active) <==> exists steps: seq<Step> :: Reached(v, g, path, steps, active, o)
    decreases Room(v, active), 0, 0
  {
    if g in v.bodies && g !in active {
      RoomShrinks(v, g, active);
      NodesAreExact(v, g, v.bodies[g].nodes, path, active, o);
      if o in Occurrences(v, g, path, active) {
        var node :| node in v.bodies[g].nodes && FromNode(v, g, node, path, active, o);
        NodeIsReached(v, g, node, path, active, o);
      } else if steps: seq<Step> :| Reached(v, g, path, steps, active, o) {
        ReachedFromNode(v, g, path, steps, active, o);
        assert false;
      }
    }
  }

  lemma {:induction false} NodeIsReached(v: View, g: nat, node: nat, path: Path, active: set<nat>, o: Occurrence)
    requires g in v.bodies && g !in active && node in v.bodies[g].nodes && FromNode(v, g, node, path, active, o)
    ensures exists steps: seq<Step> :: Reached(v, g, path, steps, active, o)
  {
    if node !in v.bodies[g].subs {
      assert Reached(v, g, path, [], active, o);
    } else {
      var s: Step, steps: seq<Step> :| s.site == node && IsCall(v, g, path, s) && FromCall(v, g, s, steps, path, active, o);
      assert ([s] + steps)[1..] == steps;
      assert Reached(v, g, path, [s] + steps, active, o);
    }
  }

  lemma {:induction false} ReachedFromNode(v: View, g: nat, path: Path, steps: seq<Step>, active: set<nat>, o: Occurrence)
    requires Reached(v, g, path, steps, active, o)
    ensures exists node :: node in v.bodies[g].nodes && FromNode(v, g, node, path, active, o)
  {
    if steps == [] {
      assert FromNode(v, g, o.node, path, active, o);
    } else {
      var s := steps[0];
      var rest := steps[1..];
      assert steps == [s] ==> rest == [];
      assert FromCall(v, g, s, rest, path, active, o);
      assert FromNode(v, g, s.site, path, active, o);
    }
  }

  ghost predicate FromNode(v: View, g: nat, node: nat, path: Path, active: set<nat>, o: Occurrence)
    requires g in v.bodies
  {
    if node !in v.bodies[g].subs then o == Occurrence(g, node, path, path)
    else exists s: Step, steps: seq<Step> :: s.site == node && IsCall(v, g, path, s) && FromCall(v, g, s, steps, path, active, o)
  }

  ghost predicate FromCall(v: View, g: nat, s: Step, steps: seq<Step>, path: Path, active: set<nat>, o: Occurrence)
    requires g in v.bodies
  {
    s.site in v.bodies[g].subs
    && ((steps == [] && o == Occurrence(g, s.site, path + [s], path))
        || (v.verdict(path, g, s.site) == Descend
            && Reached(v, v.bodies[g].subs[s.site].target, path + [s], steps, active + {g}, o)))
  }

  lemma {:induction false} NodesAreExact(v: View, g: nat, nodes: seq<nat>, path: Path, active: set<nat>, o: Occurrence)
    requires g in v.bodies && g !in active && forall n :: n in nodes ==> n in v.bodies[g].nodes
    ensures o in OfNodes(v, g, nodes, path, active + {g}) <==> exists node :: node in nodes && FromNode(v, g, node, path, active, o)
    decreases Room(v, active + {g}), 2, |nodes|
  {
    if nodes != [] {
      NodesAreExact(v, g, nodes[1..], path, active, o);
      NodeIsExact(v, g, nodes[0], path, active, o);
      assert nodes == [nodes[0]] + nodes[1..];
    }
  }

  lemma {:induction false} NodeIsExact(v: View, g: nat, node: nat, path: Path, active: set<nat>, o: Occurrence)
    requires g in v.bodies && g !in active && node in v.bodies[g].nodes
    ensures o in OfNode(v, g, node, path, active + {g}) <==> FromNode(v, g, node, path, active, o)
    decreases Room(v, active + {g}), 2, 0
  {
    if node in v.bodies[g].subs && v.verdict(path, g, node) != Prune {
      CallsAreExact(v, g, node, path, active, 0, o);
      var i := v.bodies[g].subs[node];
      if ordinal: nat :| ordinal < Ordinals(v, i) && FromOrdinal(v, g, node, ordinal, path, active, o) {
        var s := Call(v, g, node, i, ordinal);
        var steps: seq<Step> :| FromCall(v, g, s, steps, path, active, o);
        assert IsCall(v, g, path, s);
      }
      if FromNode(v, g, node, path, active, o) {
        var s: Step, steps: seq<Step> :| s.site == node && IsCall(v, g, path, s) && FromCall(v, g, s, steps, path, active, o);
        var ordinal: nat :| ordinal < Ordinals(v, i) && s == Call(v, g, node, i, ordinal);
        assert FromOrdinal(v, g, node, ordinal, path, active, o);
      }
    }
  }

  ghost predicate FromOrdinal(v: View, g: nat, site: nat, ordinal: nat, path: Path, active: set<nat>, o: Occurrence)
    requires g in v.bodies && site in v.bodies[g].subs
  {
    exists steps: seq<Step> :: FromCall(v, g, Call(v, g, site, v.bodies[g].subs[site], ordinal), steps, path, active, o)
  }

  lemma {:induction false} CallsAreExact(v: View, g: nat, site: nat, path: Path, active: set<nat>, from: nat, o: Occurrence)
    requires g in v.bodies && g !in active && site in v.bodies[g].subs
    ensures
      o in OfCalls(v, g, site, path, active + {g}, from) <==>
      exists ordinal: nat :: from <= ordinal < Ordinals(v, v.bodies[g].subs[site]) && FromOrdinal(v, g, site, ordinal, path, active, o)
    decreases Room(v, active + {g}), 1, Ordinals(v, v.bodies[g].subs[site]) - from
  {
    var i := v.bodies[g].subs[site];
    if from < Ordinals(v, i) {
      CallsAreExact(v, g, site, path, active, from + 1, o);
      OrdinalIsExact(v, g, site, path, active, from, o);
    }
  }

  lemma {:induction false} OrdinalIsExact(v: View, g: nat, site: nat, path: Path, active: set<nat>, ordinal: nat, o: Occurrence)
    requires g in v.bodies && g !in active && site in v.bodies[g].subs
    ensures
      var s := Call(v, g, site, v.bodies[g].subs[site], ordinal);
      (o == Occurrence(g, site, path + [s], path) || o in OfCallee(v, g, site, path + [s], path, active + {g}))
      <==> FromOrdinal(v, g, site, ordinal, path, active, o)
    decreases Room(v, active + {g}), 0, 1
  {
    var s := Call(v, g, site, v.bodies[g].subs[site], ordinal);
    var target := v.bodies[g].subs[site].target;
    if v.verdict(path, g, site) == Descend {
      VisitIsExact(v, target, path + [s], active + {g}, o);
    }
    if o == Occurrence(g, site, path + [s], path) {
      assert FromCall(v, g, s, [], path, active, o);
    }
    if o in OfCallee(v, g, site, path + [s], path, active + {g}) {
      var steps: seq<Step> :| Reached(v, target, path + [s], steps, active + {g}, o);
      assert FromCall(v, g, s, steps, path, active, o);
    }
    if FromOrdinal(v, g, site, ordinal, path, active, o) {
      var steps: seq<Step> :| FromCall(v, g, s, steps, path, active, o);
      if o != Occurrence(g, site, path + [s], path) {
        assert Reached(v, target, path + [s], steps, active + {g}, o);
        assert exists more: seq<Step> :: Reached(v, target, path + [s], more, active + {g}, o);
        assert o in Occurrences(v, target, path + [s], active + {g});
        assert o in OfCallee(v, g, site, path + [s], path, active + {g});
      }
    }
  }

  // ---------- nothing is listed twice ----------

  ghost predicate Distinct<T(!new)>(s: seq<T>)
  {
    forall i, j :: 0 <= i < j < |s| ==> s[i] != s[j]
  }

  ghost predicate NodesDistinct(v: View)
  {
    forall g :: g in v.bodies ==> Distinct(v.bodies[g].nodes)
  }

  lemma {:induction false} DistinctJoin(a: seq<Occurrence>, b: seq<Occurrence>)
    requires Distinct(a) && Distinct(b) && forall o :: o in a ==> o !in b
    ensures Distinct(a + b)
  {
    forall i, j | 0 <= i < j < |a + b|
      ensures (a + b)[i] != (a + b)[j]
    {
      if i < |a| <= j {
        assert a[i] in a;
        assert b[j - |a|] in b;
      }
    }
  }

  /** The node of the body that an occurrence below it comes from. */
  ghost predicate ComesFrom(o: Occurrence, path: Path, node: nat)
  {
    if |o.identity| <= |path| then o.node == node && o.container == path
    else o.identity[|path|].site == node
  }

  lemma {:induction false} CallOrigin(v: View, g: nat, s: Step, steps: seq<Step>, path: Path, active: set<nat>, o: Occurrence)
    requires g in v.bodies && FromCall(v, g, s, steps, path, active, o)
    ensures |o.identity| > |path| && o.identity[|path|] == s
  {
    if steps != [] || o != Occurrence(g, s.site, path + [s], path) {
      ReachedBySteps(v, v.bodies[g].subs[s.site].target, path + [s], steps, active + {g}, o);
      assert o.identity == path + [s] + steps;
    }
  }

  lemma {:induction false} NodeOrigin(v: View, g: nat, node: nat, path: Path, active: set<nat>, o: Occurrence)
    requires g in v.bodies && FromNode(v, g, node, path, active, o)
    ensures ComesFrom(o, path, node)
  {
    if node in v.bodies[g].subs {
      var s: Step, steps: seq<Step> :| s.site == node && IsCall(v, g, path, s) && FromCall(v, g, s, steps, path, active, o);
      CallOrigin(v, g, s, steps, path, active, o);
    }
  }

  lemma {:induction false} OrdinalOrigin(v: View, g: nat, site: nat, ordinal: nat, path: Path, active: set<nat>, o: Occurrence)
    requires g in v.bodies && site in v.bodies[g].subs && FromOrdinal(v, g, site, ordinal, path, active, o)
    ensures |o.identity| > |path| && o.identity[|path|] == Call(v, g, site, v.bodies[g].subs[site], ordinal)
  {
    var s := Call(v, g, site, v.bodies[g].subs[site], ordinal);
    var steps: seq<Step> :| FromCall(v, g, s, steps, path, active, o);
    CallOrigin(v, g, s, steps, path, active, o);
  }

  /** Everything below a call lies in a body whose path includes the call. */
  lemma {:induction false} ContainerBelow(v: View, g: nat, path: Path, steps: seq<Step>, active: set<nat>, o: Occurrence)
    requires Reached(v, g, path, steps, active, o)
    ensures |o.container| >= |path|
    decreases |steps|
  {
    if steps != [] && (steps != [steps[0]] || o != Occurrence(g, steps[0].site, path + [steps[0]], path)) {
      ContainerBelow(v, v.bodies[g].subs[steps[0].site].target, path + [steps[0]], steps[1..], active + {g}, o);
    }
  }

  lemma {:induction false} VisitIsDistinct(v: View, g: nat, path: Path, active: set<nat>)
    requires NodesDistinct(v)
    ensures Distinct(Occurrences(v, g, path, active))
    decreases Room(v, active), 0, 0
  {
    if g in v.bodies && g !in active {
      RoomShrinks(v, g, active);
      NodesAreDistinct(v, g, v.bodies[g].nodes, path, active);
    }
  }

  lemma {:induction false} NodesAreDistinct(v: View, g: nat, nodes: seq<nat>, path: Path, active: set<nat>)
    requires NodesDistinct(v) && g in v.bodies && g !in active && Distinct(nodes)
    requires forall n :: n in nodes ==> n in v.bodies[g].nodes
    ensures Distinct(OfNodes(v, g, nodes, path, active + {g}))
    decreases Room(v, active + {g}), 2, |nodes|
  {
    if nodes != [] {
      var here, more := OfNode(v, g, nodes[0], path, active + {g}), OfNodes(v, g, nodes[1..], path, active + {g});
      NodesAreDistinct(v, g, nodes[1..], path, active);
      if nodes[0] in v.bodies[g].subs {
        CallsAreDistinct(v, g, nodes[0], path, active, 0);
      }
      forall o | o in here
        ensures o !in more
      {
        NodeIsExact(v, g, nodes[0], path, active, o);
        NodeOrigin(v, g, nodes[0], path, active, o);
        if o in more {
          NodesAreExact(v, g, nodes[1..], path, active, o);
          var node :| node in nodes[1..] && FromNode(v, g, node, path, active, o);
          NodeOrigin(v, g, node, path, active, o);
        }
      }
      DistinctJoin(here, more);
    }
  }

  lemma {:induction false} CallsAreDistinct(v: View, g: nat, site: nat, path: Path, active: set<nat>, from: nat)
    requires NodesDistinct(v) && g in v.bodies && g !in active && site in v.bodies[g].subs
    ensures Distinct(OfCalls(v, g, site, path, active + {g}, from))
    decreases Room(v, active + {g}), 1, Ordinals(v, v.bodies[g].subs[site]) - from
  {
    var i := v.bodies[g].subs[site];
    if from < Ordinals(v, i) {
      var s := Call(v, g, site, i, from);
      var o0 := Occurrence(g, site, path + [s], path);
      var callee, more := OfCallee(v, g, site, path + [s], path, active + {g}), OfCalls(v, g, site, path, active + {g}, from + 1);
      CallsAreDistinct(v, g, site, path, active, from + 1);
      if v.verdict(path, g, site) == Descend {
        VisitIsDistinct(v, i.target, path + [s], active + {g});
      }
      forall o | o == o0
        ensures o !in callee
      {
        if o in callee {
          VisitIsExact(v, i.target, path + [s], active + {g}, o);
          var steps: seq<Step> :| Reached(v, i.target, path + [s], steps, active + {g}, o);
          ContainerBelow(v, i.target, path + [s], steps, active + {g}, o);
        }
      }
      DistinctJoin([o0], callee);
      forall o | o in [o0] + callee
        ensures o !in more
      {
        OrdinalIsExact(v, g, site, path, active, from, o);
        OrdinalOrigin(v, g, site, from, path, active, o);
        if o in more {
          CallsAreExact(v, g, site, path, active, from + 1, o);
          var ordinal: nat :| from + 1 <= ordinal < Ordinals(v, i) && FromOrdinal(v, g, site, ordinal, path, active, o);
          OrdinalOrigin(v, g, site, ordinal, path, active, o);
        }
      }
      DistinctJoin([o0] + callee, more);
    }
  }

  // ---------- the order of the listing ----------

  /** The calls on the way to an occurrence, and the node itself. */
  function Trail(o: Occurrence): Path
  {
    if o.identity == o.container then o.container + [Step(o.graph, o.node, None)] else o.identity
  }

  /** Of two steps out of one body, the first takes a node that is stored earlier, or an earlier ordinal of the same call. */
  ghost predicate StepBefore(v: View, s: Step, t: Step)
  {
    s.graph == t.graph && s.graph in v.bodies
    && if s.site == t.site then s.ordinal.Some? && t.ordinal.Some? && s.ordinal.value < t.ordinal.value
       else StoredBefore(v.bodies[s.graph].nodes, s.site, t.site)
  }

  ghost predicate StoredBefore(nodes: seq<nat>, a: nat, b: nat)
  {
    exists i, j :: 0 <= i < j < |nodes| && nodes[i] == a && nodes[j] == b
  }

  /** A call comes before what is below it; otherwise the trails part at two steps, the first of which comes before the second. */
  ghost predicate TrailBefore(v: View, p: Path, q: Path)
  {
    p < q || exists k :: PartsAt(v, p, q, k)
  }

  ghost predicate PartsAt(v: View, p: Path, q: Path, k: nat)
  {
    k < |p| && k < |q| && p[..k] == q[..k] && StepBefore(v, p[k], q[k])
  }

  ghost predicate AllBefore(v: View, a: seq<Occurrence>, b: seq<Occurrence>)
  {
    forall x, y :: x in a && y in b ==> TrailBefore(v, Trail(x), Trail(y))
  }

  ghost predicate InOrder(v: View, l: seq<Occurrence>)
  {
    forall i, j :: 0 <= i < j < |l| ==> TrailBefore(v, Trail(l[i]), Trail(l[j]))
  }

  lemma {:induction false} OrderJoin(v: View, a: seq<Occurrence>, b: seq<Occurrence>)
    requires InOrder(v, a) && InOrder(v, b) && AllBefore(v, a, b)
    ensures InOrder(v, a + b)
  {
    forall i, j | 0 <= i < j < |a + b|
      ensures TrailBefore(v, Trail((a + b)[i]), Trail((a + b)[j]))
    {
      if i < |a| <= j {
        assert a[i] in a && b[j - |a|] in b;
      } else if i >= |a| {
        assert (a + b)[i] == b[i - |a|] && (a + b)[j] == b[j - |a|];
      }
    }
  }

  /** What is reached below a body goes on from its path. */
  lemma {:induction false} TrailGoesOn(v: View, g: nat, path: Path, steps: seq<Step>, active: set<nat>, o: Occurrence)
    requires Reached(v, g, path, steps, active, o)
    ensures path < Trail(o)
  {
    ReachedBySteps(v, g, path, steps, active, o);
    IdentityIs(v, g, path, steps, active, o);
  }

  lemma {:induction false} IdentityIs(v: View, g: nat, path: Path, steps: seq<Step>, active: set<nat>, o: Occurrence)
    requires Reached(v, g, path, steps, active, o)
    ensures o.identity <= Trail(o) && (steps == [] ==> o.identity < Trail(o))
  {
  }

  lemma {:induction false} CallTrail(v: View, g: nat, s: Step, steps: seq<Step>, path: Path, active: set<nat>, o: Occurrence)
    requires g in v.bodies && FromCall(v, g, s, steps, path, active, o)
    ensures path + [s] <= Trail(o)
  {
    if steps == [] && o == Occurrence(g, s.site, path + [s], path) {
      assert o.identity != o.container;
    } else {
      TrailGoesOn(v, v.bodies[g].subs[s.site].target, path + [s], steps, active + {g}, o);
    }
  }

  /** The step with which the trail of an occurrence leaves a body. */
  ghost predicate LeavesBy(path: Path, g: nat, site: nat, o: Occurrence)
  {
    path < Trail(o) && Trail(o)[..|path|] == path && Trail(o)[|path|].graph == g && Trail(o)[|path|].site == site
  }

  lemma {:induction false} NodeTrail(v: View, g: nat, node: nat, path: Path, active: set<nat>, o: Occurrence)
    requires g in v.bodies && FromNode(v, g, node, path, active, o)
    ensures LeavesBy(path, g, node, o)
  {
    if node in v.bodies[g].subs {
      var s: Step, steps: seq<Step> :| s.site == node && IsCall(v, g, path, s) && FromCall(v, g, s, steps, path, active, o);
      CallTrail(v, g, s, steps, path, active, o);
      assert (path + [s])[|path|] == s && Trail(o)[..|path| + 1] == path + [s];
    }
  }

  /** The visit lists occurrences in storage order: by node, by ordinal, and a call before what is below it. */
  lemma {:induction false} VisitIsInOrder(v: View, g: nat, path: Path, active: set<nat>)
    requires NodesDistinct(v)
    ensures InOrder(v, Occurrences(v, g, path, active))
    decreases Room(v, active), 0, 0
  {
    if g in v.bodies && g !in active {
      RoomShrinks(v, g, active);
      assert v.bodies[g].nodes[0..] == v.bodies[g].nodes;
      NodesInOrder(v, g, 0, v.bodies[g].nodes, path, active);
    }
  }

  lemma {:induction false} NodesInOrder(v: View, g: nat, m: nat, nodes: seq<nat>, path: Path, active: set<nat>)
    requires NodesDistinct(v) && g in v.bodies && g !in active && m <= |v.bodies[g].nodes| && nodes == v.bodies[g].nodes[m..]
    ensures InOrder(v, OfNodes(v, g, nodes, path, active + {g}))
    decreases Room(v, active + {g}), 2, |nodes|
  {
    if nodes != [] {
      var here, more := OfNode(v, g, nodes[0], path, active + {g}), OfNodes(v, g, nodes[1..], path, active + {g});
      NodesInOrder(v, g, m + 1, nodes[1..], path, active);
      if nodes[0] in v.bodies[g].subs {
        CallsInOrder(v, g, nodes[0], path, active, 0);
      }
      forall x, y | x in here && y in more
        ensures TrailBefore(v, Trail(x), Trail(y))
      {
        NodeBeforeNodes(v, g, m, nodes, path, active, x, y);
      }
      OrderJoin(v, here, more);
    }
  }

  lemma {:induction false} NodeBeforeNodes(v: View, g: nat, m: nat, nodes: seq<nat>, path: Path, active: set<nat>, x: Occurrence, y: Occurrence)
    requires NodesDistinct(v) && g in v.bodies && g !in active && m <= |v.bodies[g].nodes| && nodes == v.bodies[g].nodes[m..] && nodes != []
    requires x in OfNode(v, g, nodes[0], path, active + {g}) && y in OfNodes(v, g, nodes[1..], path, active + {g})
    ensures TrailBefore(v, Trail(x), Trail(y))
  {
    NodeIsExact(v, g, nodes[0], path, active, x);
    NodeTrail(v, g, nodes[0], path, active, x);
    NodesAreExact(v, g, nodes[1..], path, active, y);
    var node :| node in nodes[1..] && FromNode(v, g, node, path, active, y);
    NodeTrail(v, g, node, path, active, y);
    var j :| 1 <= j < |nodes| && nodes[j] == node;
    assert v.bodies[g].nodes[m] == nodes[0] && v.bodies[g].nodes[m + j] == node;
    assert StoredBefore(v.bodies[g].nodes, nodes[0], node);
    assert PartsAt(v, Trail(x), Trail(y), |path|);
  }

  lemma {:induction false} CallsInOrder(v: View, g: nat, site: nat, path: Path, active: set<nat>, from: nat)
    requires NodesDistinct(v) && g in v.bodies && g !in active && site in v.bodies[g].subs
    ensures InOrder(v, OfCalls(v, g, site, path, active + {g}, from))
    decreases Room(v, active + {g}), 1, Ordinals(v, v.bodies[g].subs[site]) - from
  {
    var i := v.bodies[g].subs[site];
    if from < Ordinals(v, i) {
      var s := Call(v, g, site, i, from);
      var o0 := Occurrence(g, site, path + [s], path);
      var callee, more := OfCallee(v, g, site, path + [s], path, active + {g}), OfCalls(v, g, site, path, active + {g}, from + 1);
      CallsInOrder(v, g, site, path, active, from + 1);
      if v.verdict(path, g, site) == Descend {
        VisitIsInOrder(v, i.target, path + [s], active + {g});
      }
      forall x, y | x in [o0] && y in callee
        ensures TrailBefore(v, Trail(x), Trail(y))
      {
        VisitIsExact(v, i.target, path + [s], active + {g}, y);
        var steps: seq<Step> :| Reached(v, i.target, path + [s], steps, active + {g}, y);
        TrailGoesOn(v, i.target, path + [s], steps, active + {g}, y);
        assert Trail(o0) == path + [s];
      }
      OrderJoin(v, [o0], callee);
      forall x, y | x in [o0] + callee && y in more
        ensures TrailBefore(v, Trail(x), Trail(y))
      {
        OrdinalBefore(v, g, site, path, active, from, x, y);
      }
      OrderJoin(v, [o0] + callee, more);
    }
  }

  lemma {:induction false} OrdinalBefore(v: View, g: nat, site: nat, path: Path, active: set<nat>, from: nat, x: Occurrence, y: Occurrence)
    requires g in v.bodies && g !in active && site in v.bodies[g].subs && from < Ordinals(v, v.bodies[g].subs[site])
    requires
      var s := Call(v, g, site, v.bodies[g].subs[site], from);
      x == Occurrence(g, site, path + [s], path) || x in OfCallee(v, g, site, path + [s], path, active + {g})
    requires y in OfCalls(v, g, site, path, active + {g}, from + 1)
    ensures TrailBefore(v, Trail(x), Trail(y))
  {
    OrdinalIsExact(v, g, site, path, active, from, x);
    OrdinalTrail(v, g, site, from, path, active, x);
    CallsAreExact(v, g, site, path, active, from + 1, y);
    var ordinal: nat :| from + 1 <= ordinal < Ordinals(v, v.bodies[g].subs[site]) && FromOrdinal(v, g, site, ordinal, path, active, y);
    OrdinalTrail(v, g, site, ordinal, path, active, y);
    assert PartsAt(v, Trail(x), Trail(y), |path|);
  }

  lemma {:induction false} OrdinalTrail(v: View, g: nat, site: nat, ordinal: nat, path: Path, active: set<nat>, o: Occurrence)
    requires g in v.bodies && site in v.bodies[g].subs && FromOrdinal(v, g, site, ordinal, path, active, o)
    ensures path < Trail(o) && Trail(o)[..|path|] == path && Trail(o)[|path|] == Call(v, g, site, v.bodies[g].subs[site], ordinal)
  {
    var s := Call(v, g, site, v.bodies[g].subs[site], ordinal);
    var steps: seq<Step> :| FromCall(v, g, s, steps, path, active, o);
    CallTrail(v, g, s, steps, path, active, o);
    assert (path + [s])[|path|] == s && Trail(o)[..|path| + 1] == path + [s];
  }

  /** Of two trails only one comes before the other, so that the order is the only one. */
  lemma {:induction false} TrailAsymmetric(v: View, p: Path, q: Path)
    requires NodesDistinct(v) && TrailBefore(v, p, q)
    ensures !TrailBefore(v, q, p)
  {
    forall m: nat
      ensures !PartsAt(v, q, p, m)
    {
      if !(p < q) {
        var k :| PartsAt(v, p, q, k);
        PartsOneWay(v, p, q, k, m);
      }
    }
  }

  lemma {:induction false} PartsOneWay(v: View, p: Path, q: Path, k: nat, m: nat)
    requires NodesDistinct(v) && PartsAt(v, p, q, k)
    ensures !PartsAt(v, q, p, m)
  {
    assert k < m && m < |p| && m < |q| ==> p[..m][k] == p[k] && q[..m][k] == q[k];
    assert m < k ==> p[..k][m] == q[..k][m];
  }

  // ---------- counting without visiting ----------

  const MAX: nat := 0xffff_ffff_ffff_ffff

  /** How many calls of a site are counted: all ordinals of a loop in a physical count. */
  function Factor(i: Instance, physical: bool): nat
  {
    if physical then GroupSize(i) else 1
  }

  /** The exact number of occurrences below a body. */
  ghost function Size(v: View, g: nat, path: Path, active: set<nat>, physical: bool): nat
    decreases Room(v, active), 0
  {
    if g !in v.bodies || g in active then 0
    else
      RoomShrinks(v, g, active);
      SizeOfNodes(v, g, v.bodies[g].nodes, path, active + {g}, physical)
  }

  ghost function SizeOfNodes(v: View, g: nat, nodes: seq<nat>, path: Path, active: set<nat>, physical: bool): nat
    requires g in v.bodies
    decreases Room(v, active), 2, |nodes|
  {
    if nodes == [] then 0 else SizeOfNode(v, g, nodes[0], path, active, physical) + SizeOfNodes(v, g, nodes[1..], path, active, physical)
  }

  ghost function SizeOfNode(v: View, g: nat, node: nat, path: Path, active: set<nat>, physical: bool): nat
    requires g in v.bodies
    decreases Room(v, active), 2, 0
  {
    if node !in v.bodies[g].subs then 1
    else if v.verdict(path, g, node) == Prune then 0
    else SizeOfCall(v, g, node, path, active, physical) * Factor(v.bodies[g].subs[node], physical)
  }

  /** One call with what it descends to; a count names a site without its ordinal. */
  ghost function SizeOfCall(v: View, g: nat, site: nat, path: Path, active: set<nat>, physical: bool): nat
    requires g in v.bodies && site in v.bodies[g].subs
    decreases Room(v, active), 1
  {
    1 + if v.verdict(path, g, site) == Descend
        then Size(v, v.bodies[g].subs[site].target, path + [Step(g, site, None)], active, physical) else 0
  }

  /** Counting gives up: the body itself, or one call below it whatever its multiplicity, exceeds 64 bits. */
  ghost predicate TooBig(v: View, g: nat, path: Path, active: set<nat>, physical: bool)
    decreases Room(v, active), 0
  {
    g in v.bodies && g !in active
    && (RoomShrinks(v, g, active);
        Size(v, g, path, active, physical) > MAX
        || exists node :: node in v.bodies[g].nodes && CallTooBig(v, g, node, path, active + {g}, physical))
  }

  ghost predicate CallTooBig(v: View, g: nat, node: nat, path: Path, active: set<nat>, physical: bool)
    requires g in v.bodies
    decreases Room(v, active), 1
  {
    node in v.bodies[g].subs && v.verdict(path, g, node) != Prune
    && (SizeOfCall(v, g, node, path, active, physical) > MAX
        || (v.verdict(path, g, node) == Descend
            && TooBig(v, v.bodies[g].subs[node].target, path + [Step(g, node, None)], active, physical)))
  }

  class NodeCount {
    var active: set<nat>

    constructor ()
      ensures active == {} && fresh(this)
    {
      active := {};
    }

    /** The count in 64-bit arithmetic: the exact size, or nothing when it does not fit. */
    method CountBody(v: View, g: nat, path: Path, physical: bool) returns (count: Option<nat>)
      modifies this
      ensures active == old(active)
      ensures count == None <==> TooBig(v, g, path, old(active), physical)
      ensures count.Some? ==> count.value == Size(v, g, path, old(active), physical) && count.value <= MAX
      decreases Room(v, active), 0
    {
      if g !in v.bodies || g in active {
        return Some(0);
      }
      RoomShrinks(v, g, active);
      ghost var was := active;
      active := active + {g};
      var nodes := v.bodies[g].nodes;
      var total: nat := 0;
      ghost var left := nodes;
      for k := 0 to |nodes|
        invariant active == was + {g} && left == nodes[k..] && total <= MAX
        invariant total + SizeOfNodes(v, g, left, path, active, physical) == Size(v, g, path, was, physical)
        invariant forall j :: 0 <= j < k ==> !CallTooBig(v, g, nodes[j], path, active, physical)
      {
        var contribution := CountNode(v, g, nodes[k], path, physical);
        left := left[1..];
        if contribution == None || total > MAX - contribution.value {
          active := active - {g};
          return None;
        }
        total := total + contribution.value;
      }
      active := active - {g};
      count := Some(total);
    }

    method CountNode(v: View, g: nat, node: nat, path: Path, physical: bool) returns (count: Option<nat>)
      requires g in v.bodies
      modifies this
      ensures active == old(active)
      ensures count == None <==> CallTooBig(v, g, node, path, active, physical) || SizeOfNode(v, g, node, path, active, physical) > MAX
      ensures count.Some? ==> count.value == SizeOfNode(v, g, node, path, active, physical) && count.value <= MAX
      decreases Room(v, active), 1
    {
      if node !in v.bodies[g].subs {
        return Some(1);
      }
      var verdict := v.verdict(path, g, node);
      if verdict == Prune {
        return Some(0);
      }
      var i := v.bodies[g].subs[node];
      var perCall: nat := 1;
      if verdict == Descend {
        var child := CountBody(v, i.target, path + [Step(g, node, None)], physical);
        if child == None || perCall > MAX - child.value {
          return None;
        }
        perCall := perCall + child.value;
      }
      var factor := Factor(i, physical);
      if factor != 0 && perCall > MAX / factor {
        QuotientTooSmall(perCall, factor);
        return None;
      }
      if factor != 0 {
        QuotientFits(perCall, factor);
      }
      count := Some(perCall * factor);
    }
  }

  lemma {:induction false} QuotientTooSmall(a: nat, b: nat)
    requires b != 0 && a > MAX / b
    ensures a * b > MAX
  {
    assert a * b >= (MAX / b + 1) * b;
    assert (MAX / b + 1) * b == MAX / b * b + b;
  }

  lemma {:induction false} QuotientFits(a: nat, b: nat)
    requires b != 0 && a <= MAX / b
    ensures a * b <= MAX
  {
    assert a * b <= MAX / b * b;
  }

  /** Every loop runs at least once. */
  ghost predicate LoopsRun(v: View)
  {
    forall g, site :: g in v.bodies && site in v.bodies[g].subs ==> GroupSize(v.bodies[g].subs[site]) > 0
  }

  lemma {:induction false} SizeAtLeast(v: View, g: nat, nodes: seq<nat>, node: nat, path: Path, active: set<nat>, physical: bool)
    requires g in v.bodies && node in nodes
    ensures SizeOfNodes(v, g, nodes, path, active, physical) >= SizeOfNode(v, g, node, path, active, physical)
    decreases |nodes|
  {
    if node != nodes[0] {
      SizeAtLeast(v, g, nodes[1..], node, path, active, physical);
    }
  }

  lemma {:induction false} TimesAtLeast(a: nat, b: nat)
    requires b > 0
    ensures a * b >= a
  {
  }

  /** Somewhere below, behind descended calls, stands a loop of no ordinals whose callee is too large to count. */
  ghost predicate HidesTooMuch(v: View, g: nat, path: Path, active: set<nat>, physical: bool)
    decreases Room(v, active), 0
  {
    g in v.bodies && g !in active
    && (RoomShrinks(v, g, active);
        exists node :: node in v.bodies[g].nodes && EmptyOrHides(v, g, node, path, active + {g}, physical))
  }

  ghost predicate EmptyOrHides(v: View, g: nat, node: nat, path: Path, active: set<nat>, physical: bool)
    requires g in v.bodies
    decreases Room(v, active), 1
  {
    node in v.bodies[g].subs && v.verdict(path, g, node) == Descend
    && var i := v.bodies[g].subs[node];
       var down := path + [Step(g, node, None)];
       (Factor(i, physical) == 0 && Size(v, i.target, down, active, physical) >= MAX)
       || HidesTooMuch(v, i.target, down, active, physical)
  }

  /** A count gives up exactly when the number itself exceeds 64 bits, or some loop without ordinals, which
      contributes nothing to it, has a callee that with its call does. */
  lemma {:induction false} GivesUpExactly(v: View, g: nat, path: Path, active: set<nat>, physical: bool)
    ensures TooBig(v, g, path, active, physical) <==> Size(v, g, path, active, physical) > MAX || HidesTooMuch(v, g, path, active, physical)
    decreases Room(v, active), 0
  {
    if g in v.bodies && g !in active {
      RoomShrinks(v, g, active);
      forall node | node in v.bodies[g].nodes
        ensures CallTooBig(v, g, node, path, active + {g}, physical) ==>
                  Size(v, g, path, active, physical) > MAX || EmptyOrHides(v, g, node, path, active + {g}, physical)
        ensures EmptyOrHides(v, g, node, path, active + {g}, physical) ==> CallTooBig(v, g, node, path, active + {g}, physical)
      {
        if node in v.bodies[g].subs && v.verdict(path, g, node) == Descend {
          CallGivesUp(v, g, node, path, active, physical);
        }
      }
    }
  }

  lemma {:induction false} CallGivesUp(v: View, g: nat, node: nat, path: Path, active: set<nat>, physical: bool)
    requires g in v.bodies && g !in active && node in v.bodies[g].nodes && node in v.bodies[g].subs && v.verdict(path, g, node) == Descend
    ensures CallTooBig(v, g, node, path, active + {g}, physical) ==>
              Size(v, g, path, active, physical) > MAX || EmptyOrHides(v, g, node, path, active + {g}, physical)
    ensures EmptyOrHides(v, g, node, path, active + {g}, physical) ==> CallTooBig(v, g, node, path, active + {g}, physical)
    decreases Room(v, active + {g}), 1
  {
    var i := v.bodies[g].subs[node];
    GivesUpExactly(v, i.target, path + [Step(g, node, None)], active + {g}, physical);
    if Factor(i, physical) > 0 {
      SizeAtLeast(v, g, v.bodies[g].nodes, node, path, active + {g}, physical);
      TimesAtLeast(SizeOfCall(v, g, node, path, active + {g}, physical), Factor(i, physical));
    }
  }

  lemma {:induction false} NothingHidden(v: View, g: nat, path: Path, active: set<nat>, physical: bool)
    requires LoopsRun(v) || !physical
    ensures !HidesTooMuch(v, g, path, active, physical)
    decreases Room(v, active), 0
  {
    if g in v.bodies && g !in active {
      RoomShrinks(v, g, active);
      forall node | node in v.bodies[g].nodes
        ensures !EmptyOrHides(v, g, node, path, active + {g}, physical)
      {
        if node in v.bodies[g].subs && v.verdict(path, g, node) == Descend {
          NothingHidden(v, v.bodies[g].subs[node].target, path + [Step(g, node, None)], active + {g}, physical);
        }
      }
    }
  }

  /** Without empty loops a count gives up exactly when the number itself exceeds 64 bits. */
  lemma {:induction false} GivesUpOnlyWhenTooBig(v: View, g: nat, path: Path, active: set<nat>, physical: bool)
    requires LoopsRun(v) || !physical
    ensures TooBig(v, g, path, active, physical) <==> Size(v, g, path, active, physical) > MAX
  {
    GivesUpExactly(v, g, path, active, physical);
    NothingHidden(v, g, path, active, physical);
  }

  /** Whether the verdict of one view at a path is that of another at a corresponding one. */
  ghost predicate SameVerdicts(v: View, w: View, physical: bool)
  {
    v.bodies == w.bodies && w.expand == physical
    && if physical then forall p, q, g, site :: v.verdict(p, g, site) == w.verdict(q, g, site)
       else forall p, g, site :: v.verdict(p, g, site) == w.verdict(p, g, site)
  }

  /** A count is the length of the listing. The grouped count agrees with the grouped listing for every
      policy, the physical count with the unrolled listing when verdicts do not depend on the path. */
  lemma {:induction false} CountIsLength(v: View, w: View, g: nat, path: Path, other: Path, active: set<nat>, physical: bool)
    requires SameVerdicts(v, w, physical) && (physical || path == other)
    ensures Size(v, g, path, active, physical) == |Occurrences(w, g, other, active)|
    decreases Room(v, active), 0, 0
  {
    if g in v.bodies && g !in active {
      RoomShrinks(v, g, active);
      CountOfNodes(v, w, g, v.bodies[g].nodes, path, other, active + {g}, physical);
    }
  }

  lemma {:induction false} CountOfNodes(v: View, w: View, g: nat, nodes: seq<nat>, path: Path, other: Path, active: set<nat>, physical: bool)
    requires SameVerdicts(v, w, physical) && (physical || path == other) && g in v.bodies
    ensures SizeOfNodes(v, g, nodes, path, active, physical) == |OfNodes(w, g, nodes, other, active)|
    decreases Room(v, active), 2, |nodes|
  {
    if nodes != [] {
      CountOfNodes(v, w, g, nodes[1..], path, other, active, physical);
      if nodes[0] in v.bodies[g].subs {
        CountOfCalls(v, w, g, nodes[0], path, other, active, physical, 0);
      }
    }
  }

  lemma {:induction false} CountOfCalls(v: View, w: View, g: nat, site: nat, path: Path, other: Path, active: set<nat>, physical: bool, from: nat)
    requires SameVerdicts(v, w, physical) && (physical || path == other) && g in v.bodies && site in v.bodies[g].subs
    requires from <= Factor(v.bodies[g].subs[site], physical)
    ensures Factor(v.bodies[g].subs[site], physical) == Ordinals(w, v.bodies[g].subs[site])
    ensures |OfCalls(w, g, site, other, active, from)| ==
            SizeOfCall(v, g, site, path, active, physical) * (Factor(v.bodies[g].subs[site], physical) - from)
    decreases Room(v, active), 1, Factor(v.bodies[g].subs[site], physical) - from
  {
    var i := v.bodies[g].subs[site];
    assert v.verdict(path, g, site) == w.verdict(other, g, site);
    var each, count := SizeOfCall(v, g, site, path, active, physical), Factor(i, physical);
    if from < count {
      var call := other + [Call(w, g, site, i, from)];
      CountIsLength(v, w, i.target, path + [Step(g, site, None)], call, active, physical);
      CountOfCalls(v, w, g, site, path, other, active, physical, from + 1);
      assert |OfCallee(w, g, site, call, other, active)| + 1 == each;
      OneMore(each, count - from);
    }
  }

  lemma {:induction false} OneMore(a: nat, b: nat)
    requires b > 0
    ensures a + a * (b - 1) == a * b
  {
  }

  const INT64MAX: nat := 0x7fff_ffff_ffff_ffff

  predicate Int64(x: int)
  {
    x + INT64MAX + 1 >= 0 && x <= INT64MAX
  }

  /** What is asked of the domain of a loop before a call site accepts it. */
  predicate DomainValid(first: int, step: int, count: nat)
  {
    step != 0 && (count == 0 || (count - 1 <= INT64MAX && Int64((count - 1) * step) && Int64(first + (count - 1) * step)))
  }

  const LONG: nat := 0x8000_0000_0000_0000

  /** An empty loop over a long loop: both domains are valid, there is nothing below to list, and yet the
      count gives up. */
  lemma {:induction false} EmptyLoopGivesUp(verdict: (Path, nat, nat) -> Action)
    requires forall p, g, site :: verdict(p, g, site) == Descend
    ensures DomainValid(0, 1, 0) && DomainValid(0, 1, LONG)
    ensures
      var none, many := Loop(0, None, None, None), Loop(LONG, None, None, None);
      var top := Body([16], map[16 := Instance(2, Some(none))], []);
      var middle := Body([16], map[16 := Instance(3, Some(many))], []);
      var v := View(1, map[1 := top, 2 := middle, 3 := Body([16], map[], [])], true, verdict);
      Size(v, 1, [], {}, true) == 0 && TooBig(v, 1, [], {}, true) && HidesTooMuch(v, 1, [], {}, true)
  {
    var none, many := Loop(0, None, None, None), Loop(LONG, None, None, None);
    var top := Body([16], map[16 := Instance(2, Some(none))], []);
    var middle := Body([16], map[16 := Instance(3, Some(many))], []);
    var bottom := Body([16], map[], []);
    var v := View(1, map[1 := top, 2 := middle, 3 := bottom], true, verdict);
    var down1, down2 := [Step(1, 16, None)], [Step(1, 16, None)] + [Step(2, 16, None)];
    assert [] + [Step(1, 16, None)] == down1;
    assert Size(v, 3, down2, {1} + {2}, true) == SizeOfNodes(v, 3, [16], down2, {1} + {2} + {3}, true) == 1;
    assert SizeOfCall(v, 2, 16, down1, {1} + {2}, true) == 2;
    assert Size(v, 2, down1, {1}, true) == SizeOfNodes(v, 2, [16], down1, {1} + {2}, true) == 2 * LONG;
    assert {} + {1} == {1};
    assert Size(v, 1, [], {}, true) == SizeOfNodes(v, 1, [16], [], {1}, true) == 0;
    assert 16 in top.nodes && EmptyOrHides(v, 1, 16, [], {1}, true);
    GivesUpExactly(v, 1, [], {}, true);
  }

  /** The three ways of looking at one view: what the recursion lists, the cursor yields, and the count,
      unless it gives up, is their number. */
  method Compare(v: View, physical: bool) returns (listed: seq<Occurrence>, yielded: seq<Occurrence>, count: Option<nat>)
    requires physical == v.expand
    requires physical ==> forall p, q, g, site :: v.verdict(p, g, site) == v.verdict(q, g, site)
    ensures listed == yielded && (count.Some? ==> count.value == |listed|)
    ensures count == None <==> |listed| > MAX || HidesTooMuch(v, v.root, [], {}, physical)
  {
    var visit := new RecursiveVisit();
    visit.VisitBody(v, v.root, []);
    listed := visit.out;
    yielded := Traverse(v);
    var counter := new NodeCount();
    count := counter.CountBody(v, v.root, [], physical);
    CountIsLength(v, v, v.root, [], [], {}, physical);
    GivesUpExactly(v, v.root, [], {}, physical);
    assert [] + Occurrences(v, v.root, [], {}) == Occurrences(v, v.root, [], {});
  }
}
