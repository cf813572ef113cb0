/**
 A library of graph bodies that instantiate each other, a view of its hierarchy, and the table that
 interns the paths of a view.
 */
module OccurrenceLibrary {
  import opened Options

  // Reserved nodes of a body.
  const INPUT: nat := 4
  const OUTPUT: nat := 8

  /** One end of a stored edge. The driver and the sink of a port share one entry. */
  datatype End = End(node: nat, port: nat)

  datatype Edge = Edge(driver: End, sink: End)

  /** A compact loop: `count` ordinals of one stored call. */
  datatype Loop = Loop(count: nat, index: Option<nat>, activation: Option<nat>, nextActive: Option<nat>)

  /** A call of the graph `target`, which may have no body. */
  datatype Instance = Instance(target: nat, loop: Option<Loop>)

  datatype Body = Body(nodes: seq<nat>, subs: map<nat, Instance>, edges: seq<Edge>)

  datatype Action = Descend | Opaque | Prune

  /** One call on the way down: the calling graph, the call site in it, and its ordinal when loops are unrolled. */
  datatype Step = Step(graph: nat, site: nat, ordinal: Option<nat>)

  type Path = seq<Step>

  datatype View = View(root: nat, bodies: map<nat, Body>, expand: bool, verdict: (Path, nat, nat) -> Action)

  /** How many calls a site stands for. */
  function GroupSize(i: Instance): nat
  {
    match i.loop
    case None => 1
    case Some(loop) => loop.count
  }

  predicate Expanded(v: View, i: Instance)
  {
    v.expand && i.loop.Some?
  }

  function Ordinals(v: View, i: Instance): nat
  {
    if Expanded(v, i) then GroupSize(i) else 1
  }

  /** The step into one ordinal of a site. */
  function Call(v: View, graph: nat, site: nat, i: Instance, ordinal: nat): Step
  {
    Step(graph, site, if Expanded(v, i) then Some(ordinal) else None)
  }

  // ---------- interned paths ----------

  datatype Entry = Entry(parent: nat, step: Step)

  /** Entry 0 is the root; every other entry extends an earlier one. */
  predicate Grounded(entries: seq<Entry>)
  {
    forall h :: 0 < h < |entries| ==> entries[h].parent < h
  }

  function StepsOf(entries: seq<Entry>, h: nat): Path
    requires Grounded(entries) && h < |entries|
    decreases h
  {
    if h == 0 then [] else StepsOf(entries, entries[h].parent) + [entries[h].step]
  }

  /** No two entries extend the same parent with the same step. */
  predicate Interned(entries: seq<Entry>)
  {
    forall h, k :: 0 < h < k < |entries| ==> entries[h] != entries[k]
  }

  lemma {:induction false} StepsDecide(a: seq<Entry>, h: nat, b: seq<Entry>, k: nat)
    requires Grounded(a) && Grounded(b) && 0 < h < |a| && 0 < k < |b|
    ensures StepsOf(a, h) == StepsOf(b, k) <==>
            a[h].step == b[k].step && StepsOf(a, a[h].parent) == StepsOf(b, b[k].parent)
  {
    var p, q := StepsOf(a, a[h].parent), StepsOf(b, b[k].parent);
    if p + [a[h].step] == q + [b[k].step] {
      assert (p + [a[h].step])[..|p|] == (q + [b[k].step])[..|q|];
      assert (p + [a[h].step])[|p|] == (q + [b[k].step])[|q|];
    }
  }

  /** In an interned table a handle is as good as its path. */
  lemma {:induction false} HandlesAreUnique(entries: seq<Entry>, h: nat, k: nat)
    requires Grounded(entries) && Interned(entries) && h < |entries| && k < |entries|
    ensures StepsOf(entries, h) == StepsOf(entries, k) <==> h == k
    decreases h + k
  {
    if h != 0 && k != 0 {
      StepsDecide(entries, h, entries, k);
      HandlesAreUnique(entries, entries[h].parent, entries[k].parent);
      assert entries[h] == entries[k] <==> h == k;
    }
  }

  lemma {:induction false} StepsKeep(entries: seq<Entry>, more: seq<Entry>, h: nat)
    requires Grounded(entries) && Grounded(entries + more) && h < |entries|
    ensures StepsOf(entries + more, h) == StepsOf(entries, h)
    decreases h
  {
    if h != 0 {
      StepsKeep(entries, more, entries[h].parent);
    }
  }

  class PathTable {
    var entries: seq<Entry>
    var interned: map<Entry, nat>

    ghost predicate Valid()
      reads this
    {
      entries != [] && Grounded(entries) && Interned(entries)
      && (forall h :: 0 < h < |entries| ==> entries[h] in interned && interned[entries[h]] == h)
      && forall e :: e in interned ==> 0 < interned[e] < |entries| && entries[interned[e]] == e
    }

    constructor (root: Step)
      ensures Valid() && entries == [Entry(0, root)] && fresh(this)
    {
      entries, interned := [Entry(0, root)], map[];
    }

    /** The handle of a path with one more step. Known handles keep their paths. */
    method AppendPath(parent: nat, step: Step) returns (h: nat)
      requires Valid() && parent < |entries|
      modifies this
      ensures Valid() && h < |entries| && parent < |entries|
      ensures StepsOf(entries, h) == StepsOf(entries, parent) + [step]
      ensures old(entries) <= entries
      ensures forall k :: 0 <= k < |old(entries)| ==> StepsOf(entries, k) == StepsOf(old(entries), k)
    {
      var key := Entry(parent, step);
      if key in interned {
        return interned[key];
      }
      h := |entries|;
      ghost var was := entries;
      entries := entries + [key];
      interned := interned[key := h];
      forall k | 0 <= k < |was|
        ensures StepsOf(entries, k) == StepsOf(was, k)
      {
        StepsKeep(was, [key], k);
      }
    }
  }

  /** Compares two paths of different tables, last step first. */
  method SamePath(a: seq<Entry>, h0: nat, b: seq<Entry>, k0: nat) returns (same: bool)
    requires Grounded(a) && Grounded(b) && h0 < |a| && k0 < |b|
    ensures same <==> StepsOf(a, h0) == StepsOf(b, k0)
  {
    var h: nat, k: nat := h0, k0;
    while h != 0 && k != 0
      invariant h < |a| && k < |b|
      invariant StepsOf(a, h) == StepsOf(b, k) <==> StepsOf(a, h0) == StepsOf(b, k0)
      decreases h
    {
      StepsDecide(a, h, b, k);
      if a[h].step != b[k].step {
        return false;
      }
      h, k := a[h].parent, b[k].parent;
    }
    same := h == k;
  }
}
