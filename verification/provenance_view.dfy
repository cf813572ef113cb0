/**
 What a provenance table means: ids name anchors or ordered lists of other ids, and an id
 resolves to the anchors below it, first parent first.
 */
module ProvenanceView {

  type Id = nat

  /** What an id stands for. The line of a span is not part of its identity. */
  datatype Payload =
    | Span(path: string, start: nat, end: nat)
    | LineOnly(path: string, start: nat, end: nat, line: nat)
    | Combine(parents: seq<Id>)

  type View = map<Id, Payload>

  // ---------- resolving everything below an id ----------

  /** Ids visited so far, and the concrete ones among them in visiting order. */
  datatype Walk = Walk(visited: set<Id>, found: seq<Id>)

  ghost predicate Ranked(view: View, rank: map<Id, nat>)
  {
    && view.Keys <= rank.Keys
    && forall id, k :: id in view && view[id].Combine? && 0 <= k < |view[id].parents| ==>
         view[id].parents[k] in view && rank[view[id].parents[k]] < rank[id]
  }

  /** Depth-first, first parent first, every id at most once. */
  ghost function Visit(view: View, rank: map<Id, nat>, id: Id, w: Walk): Walk
    requires Ranked(view, rank) && id in view
    decreases rank[id], 0
  {
    if id in w.visited then w
    else
      match view[id]
      case Combine(parents) => VisitAll(view, rank, id, |parents|, Walk(w.visited + {id}, w.found))
      case _ => Walk(w.visited + {id}, w.found + [id])
  }

  /** The first n parents of a combine, in order. */
  ghost function VisitAll(view: View, rank: map<Id, nat>, id: Id, n: nat, w: Walk): Walk
    requires Ranked(view, rank) && id in view && view[id].Combine? && n <= |view[id].parents|
    decreases rank[id], 0, n
  {
    if n == 0 then w
    else Visit(view, rank, view[id].parents[n - 1], VisitAll(view, rank, id, n - 1, w))
  }

  /** The concrete ids an id resolves to. */
  ghost function ResolveAll(view: View, rank: map<Id, nat>, id: Id): seq<Id>
    requires Ranked(view, rank) && id in view
  {
    Visit(view, rank, id, Walk({}, [])).found
  }

  /** The primary anchor: first parents all the way down. */
  ghost function Primary(view: View, rank: map<Id, nat>, id: Id): Id
    requires Ranked(view, rank) && id in view
    requires forall c :: c in view && view[c].Combine? ==> view[c].parents != []
    decreases rank[id]
  {
    match view[id]
    case Combine(parents) => Primary(view, rank, parents[0])
    case _ => id
  }

  // ---------- what a walk visits ----------

  /** p leads from `from` down to `to` through parents. */
  ghost predicate Path(view: View, from: Id, p: seq<Id>, to: Id)
    decreases |p|
  {
    if p == [] then from == to
    else from in view && view[from].Combine? && p[0] in view[from].parents && Path(view, p[0], p[1..], to)
  }

  ghost predicate Reaches(view: View, from: Id, to: Id)
  {
    exists p :: Path(view, from, p, to)
  }

  lemma {:induction false} ReachesSelf(view: View, id: Id)
    ensures Reaches(view, id, id)
  {
    assert Path(view, id, [], id);
  }

  lemma {:induction false} ReachesParent(view: View, from: Id, k: nat, to: Id)
    requires from in view && view[from].Combine? && k < |view[from].parents| && Reaches(view, view[from].parents[k], to)
    ensures Reaches(view, from, to)
  {
    var q := view[from].parents[k];
    var p :| Path(view, q, p, to);
    assert ([q] + p)[1..] == p;
    assert Path(view, from, [q] + p, to);
  }

  /** Visited ids are closed downwards, except for the combines still being expanded (`open`). */
  ghost predicate Saturated(view: View, visited: set<Id>, open: set<Id>)
  {
    forall id, k :: id in visited && id !in open && id in view && view[id].Combine? && 0 <= k < |view[id].parents| ==>
      view[id].parents[k] in visited
  }

  /** The concrete visited ids have been found, each once. */
  ghost predicate Recorded(view: View, w: Walk)
  {
    && (forall i, j :: 0 <= i < j < |w.found| ==> w.found[i] != w.found[j])
    && (forall id :: id in w.found <==> id in w.visited && id in view && !view[id].Combine?)
  }

  ghost predicate Sound(view: View, root: Id, visited: set<Id>)
  {
    forall id :: id in visited ==> id in view && Reaches(view, root, id)
  }

  /** What every walk keeps. */
  ghost predicate Good(view: View, root: Id, w: Walk, open: set<Id>)
  {
    Saturated(view, w.visited, open) && Recorded(view, w) && Sound(view, root, w.visited)
  }

  ghost predicate Grows(w: Walk, r: Walk)
  {
    w.visited <= r.visited && w.found <= r.found
  }

  ghost predicate Covers(view: View, id: Id, n: nat, visited: set<Id>)
    requires id in view && view[id].Combine? && n <= |view[id].parents|
  {
    forall k :: 0 <= k < n ==> view[id].parents[k] in visited
  }

  lemma {:induction false} VisitInvariant(view: View, rank: map<Id, nat>, root: Id, id: Id, w: Walk, open: set<Id>)
    requires Ranked(view, rank) && id in view && Reaches(view, root, id)
    requires Good(view, root, w, open) && open <= w.visited
    requires forall o :: o in open ==> o in rank && rank[id] < rank[o]
    ensures var r := Visit(view, rank, id, w); id in r.visited && Grows(w, r) && Good(view, root, r, open)
    decreases rank[id], 0
  {
    if id !in w.visited {
      var w1 := Walk(w.visited + {id}, w.found);
      if view[id].Combine? {
        assert Good(view, root, w1, open + {id});
        VisitAllInvariant(view, rank, root, id, |view[id].parents|, w1, open);
        var r := VisitAll(view, rank, id, |view[id].parents|, w1);
        assert Saturated(view, r.visited, open);
      } else {
        var r := Walk(w.visited + {id}, w.found + [id]);
        assert Visit(view, rank, id, w) == r;
        assert Recorded(view, r);
      }
    }
  }

  lemma {:induction false} VisitAllInvariant(view: View, rank: map<Id, nat>, root: Id, id: Id, n: nat, w: Walk, open: set<Id>)
    requires Ranked(view, rank) && id in view && view[id].Combine? && n <= |view[id].parents| && Reaches(view, root, id)
    requires Good(view, root, w, open + {id}) && id in w.visited && open <= w.visited
    requires forall o :: o in open ==> o in rank && rank[id] < rank[o]
    ensures var r := VisitAll(view, rank, id, n, w);
            Grows(w, r) && Good(view, root, r, open + {id}) && Covers(view, id, n, r.visited)
    decreases rank[id], 0, n
  {
    if n > 0 {
      VisitAllInvariant(view, rank, root, id, n - 1, w, open);
      var w1 := VisitAll(view, rank, id, n - 1, w);
      ReachesChild(view, root, id, n - 1);
      VisitInvariant(view, rank, root, view[id].parents[n - 1], w1, open + {id});
      CoversOneMore(view, id, n, w, w1, Visit(view, rank, view[id].parents[n - 1], w1));
    }
  }

  lemma {:induction false} CoversOneMore(view: View, id: Id, n: nat, w: Walk, w1: Walk, r: Walk)
    requires id in view && view[id].Combine? && 0 < n <= |view[id].parents|
    requires Covers(view, id, n - 1, w1.visited) && Grows(w, w1) && Grows(w1, r) && view[id].parents[n - 1] in r.visited
    ensures Covers(view, id, n, r.visited) && Grows(w, r)
  {
  }

  lemma {:induction false} PathExtends(view: View, from: Id, p: seq<Id>, mid: Id, k: nat)
    requires Path(view, from, p, mid) && mid in view && view[mid].Combine? && k < |view[mid].parents|
    ensures Path(view, from, p + [view[mid].parents[k]], view[mid].parents[k])
    decreases |p|
  {
    var q := view[mid].parents[k];
    if p == [] {
      assert Path(view, q, [], q);
      assert ([q])[1..] == [];
    } else {
      PathExtends(view, p[0], p[1..], mid, k);
      assert (p + [q])[1..] == p[1..] + [q];
    }
  }

  lemma {:induction false} ReachesChild(view: View, root: Id, id: Id, k: nat)
    requires Reaches(view, root, id) && id in view && view[id].Combine? && k < |view[id].parents|
    ensures Reaches(view, root, view[id].parents[k])
  {
    var p :| Path(view, root, p, id);
    PathExtends(view, root, p, id, k);
  }

  lemma {:induction false} SaturatedReaches(view: View, visited: set<Id>, from: Id, p: seq<Id>, to: Id)
    requires Saturated(view, visited, {}) && from in visited && Path(view, from, p, to)
    ensures to in visited
    decreases |p|
  {
    if p != [] {
      var k :| 0 <= k < |view[from].parents| && view[from].parents[k] == p[0];
      SaturatedReaches(view, visited, p[0], p[1..], to);
    }
  }

  /** An id resolves to exactly the concrete ids reachable from it, each once. */
  lemma {:induction false} ResolveAllExact(view: View, rank: map<Id, nat>, id: Id)
    requires Ranked(view, rank) && id in view
    ensures var r := ResolveAll(view, rank, id);
            && (forall i, j :: 0 <= i < j < |r| ==> r[i] != r[j])
            && (forall c :: c in r <==> c in view && !view[c].Combine? && Reaches(view, id, c))
  {
    var w := Visit(view, rank, id, Walk({}, []));
    ReachesSelf(view, id);
    VisitInvariant(view, rank, id, id, Walk({}, []), {});
    forall c | c in view && Reaches(view, id, c)
      ensures c in w.visited
    {
      var p :| Path(view, id, p, c);
      SaturatedReaches(view, w.visited, id, p, c);
    }
  }

  lemma {:induction false} VisitExtends(view: View, rank: map<Id, nat>, id: Id, w: Walk)
    requires Ranked(view, rank) && id in view
    ensures w.found <= Visit(view, rank, id, w).found
    decreases rank[id], 0
  {
    if id !in w.visited && view[id].Combine? {
      VisitAllExtends(view, rank, id, |view[id].parents|, Walk(w.visited + {id}, w.found));
    }
  }

  lemma {:induction false} VisitAllExtends(view: View, rank: map<Id, nat>, id: Id, n: nat, w: Walk)
    requires Ranked(view, rank) && id in view && view[id].Combine? && n <= |view[id].parents|
    ensures w.found <= VisitAll(view, rank, id, n, w).found
    ensures n > 0 ==> Visit(view, rank, view[id].parents[0], w).found <= VisitAll(view, rank, id, n, w).found
    decreases rank[id], 0, n
  {
    if n > 0 {
      VisitAllExtends(view, rank, id, n - 1, w);
      VisitExtends(view, rank, view[id].parents[n - 1], VisitAll(view, rank, id, n - 1, w));
    }
  }

  lemma {:induction false} PrimaryVisitedFirst(view: View, rank: map<Id, nat>, id: Id, w: Walk)
    requires Ranked(view, rank) && id in view
    requires forall c :: c in view && view[c].Combine? ==> view[c].parents != []
    requires w.found == [] && forall v :: v in w.visited ==> v in rank && rank[id] < rank[v]
    ensures var r := Visit(view, rank, id, w).found; r != [] && r[0] == Primary(view, rank, id)
    decreases rank[id]
  {
    if view[id].Combine? {
      var w1 := Walk(w.visited + {id}, w.found);
      VisitAllExtends(view, rank, id, |view[id].parents|, w1);
      PrimaryVisitedFirst(view, rank, view[id].parents[0], w1);
    }
  }

  /** The first anchor of an id is its primary anchor. */
  lemma {:induction false} PrimaryIsFirst(view: View, rank: map<Id, nat>, id: Id)
    requires Ranked(view, rank) && id in view
    requires forall c :: c in view && view[c].Combine? ==> view[c].parents != []
    ensures ResolveAll(view, rank, id) != [] && ResolveAll(view, rank, id)[0] == Primary(view, rank, id)
  {
    PrimaryVisitedFirst(view, rank, id, Walk({}, []));
  }

  // ---------- renaming ids ----------

  function Renamed(remap: map<Id, Id>, id: Id): Id
  {
    if id in remap then remap[id] else id
  }

  function RenamedAll(remap: map<Id, Id>, ids: seq<Id>): (r: seq<Id>)
    ensures |r| == |ids|
    ensures forall k :: 0 <= k < |ids| ==> r[k] == Renamed(remap, ids[k])
  {
    seq(|ids|, k requires 0 <= k < |ids| => Renamed(remap, ids[k]))
  }

  function RenamedPayload(remap: map<Id, Id>, p: Payload): Payload
  {
    match p
    case Combine(parents) => Combine(RenamedAll(remap, parents))
    case _ => p
  }

  /** Every id of one view, renamed, stands in the other view for its renamed payload. */
  ghost predicate Carries(from: View, remap: map<Id, Id>, to: View)
  {
    forall id :: id in from ==> Renamed(remap, id) in to && to[Renamed(remap, id)] == RenamedPayload(remap, from[id])
  }

  ghost predicate PayloadUnique(view: View)
  {
    forall a, b :: a in view && b in view && view[a] == view[b] ==> a == b
  }

  /** Distinct payloads stay distinct: the renaming merges no two ids. */
  lemma {:induction false} RenamingInjective(from: View, rank: map<Id, nat>, remap: map<Id, Id>, to: View, a: Id, b: Id)
    requires Ranked(from, rank) && PayloadUnique(from) && Carries(from, remap, to)
    requires a in from && b in from && Renamed(remap, a) == Renamed(remap, b)
    ensures a == b
    decreases rank[a]
  {
    assert RenamedPayload(remap, from[a]) == RenamedPayload(remap, from[b]);
    if from[a].Combine? {
      var p, q := from[a].parents, from[b].parents;
      assert |RenamedAll(remap, p)| == |RenamedAll(remap, q)|;
      forall k | 0 <= k < |p|
        ensures p[k] == q[k]
      {
        assert RenamedAll(remap, p)[k] == RenamedAll(remap, q)[k];
        RenamingInjective(from, rank, remap, to, p[k], q[k]);
      }
      assert p == q;
    }
    assert from[a] == from[b];
  }

  ghost function RenamedSet(remap: map<Id, Id>, ids: set<Id>): set<Id>
  {
    set id | id in ids :: Renamed(remap, id)
  }

  ghost function RenamedWalk(remap: map<Id, Id>, w: Walk): Walk
  {
    Walk(RenamedSet(remap, w.visited), RenamedAll(remap, w.found))
  }

  lemma {:induction false} RenamedSetMember(from: View, rank: map<Id, nat>, remap: map<Id, Id>, to: View, ids: set<Id>, id: Id)
    requires Ranked(from, rank) && PayloadUnique(from) && Carries(from, remap, to)
    requires ids <= from.Keys && id in from
    ensures id in ids <==> Renamed(remap, id) in RenamedSet(remap, ids)
    ensures RenamedSet(remap, ids + {id}) == RenamedSet(remap, ids) + {Renamed(remap, id)}
  {
    if Renamed(remap, id) in RenamedSet(remap, ids) {
      var other :| other in ids && Renamed(remap, other) == Renamed(remap, id);
      RenamingInjective(from, rank, remap, to, id, other);
    }
  }

  lemma {:induction false} VisitedWithin(view: View, rank: map<Id, nat>, id: Id, w: Walk)
    requires Ranked(view, rank) && id in view && w.visited <= view.Keys
    ensures Visit(view, rank, id, w).visited <= view.Keys
    decreases rank[id], 0
  {
    if id !in w.visited && view[id].Combine? {
      VisitedAllWithin(view, rank, id, |view[id].parents|, Walk(w.visited + {id}, w.found));
    }
  }

  lemma {:induction false} VisitedAllWithin(view: View, rank: map<Id, nat>, id: Id, n: nat, w: Walk)
    requires Ranked(view, rank) && id in view && view[id].Combine? && n <= |view[id].parents| && w.visited <= view.Keys
    ensures VisitAll(view, rank, id, n, w).visited <= view.Keys
    decreases rank[id], 0, n
  {
    if n > 0 {
      VisitedAllWithin(view, rank, id, n - 1, w);
      VisitedWithin(view, rank, view[id].parents[n - 1], VisitAll(view, rank, id, n - 1, w));
    }
  }

  /** Walking the renamed id in the other view is renaming the walk. */
  lemma {:induction false} VisitRenamed(from: View, rank: map<Id, nat>, remap: map<Id, Id>, to: View, rank2: map<Id, nat>, id: Id, w: Walk)
    requires Ranked(from, rank) && PayloadUnique(from) && Carries(from, remap, to) && Ranked(to, rank2)
    requires id in from && w.visited <= from.Keys
    ensures Visit(to, rank2, Renamed(remap, id), RenamedWalk(remap, w)) == RenamedWalk(remap, Visit(from, rank, id, w))
    decreases rank[id], 0
  {
    RenamedSetMember(from, rank, remap, to, w.visited, id);
    if id !in w.visited {
      var w1 := Walk(w.visited + {id}, w.found);
      if from[id].Combine? {
        VisitAllRenamed(from, rank, remap, to, rank2, id, |from[id].parents|, w1);
      } else {
        assert RenamedAll(remap, w.found + [id]) == RenamedAll(remap, w.found) + [Renamed(remap, id)];
      }
    }
  }

  lemma {:induction false} VisitAllRenamed(from: View, rank: map<Id, nat>, remap: map<Id, Id>, to: View, rank2: map<Id, nat>,
                                           id: Id, n: nat, w: Walk)
    requires Ranked(from, rank) && PayloadUnique(from) && Carries(from, remap, to) && Ranked(to, rank2)
    requires id in from && from[id].Combine? && n <= |from[id].parents| && w.visited <= from.Keys
    ensures VisitAll(to, rank2, Renamed(remap, id), n, RenamedWalk(remap, w)) ==
            RenamedWalk(remap, VisitAll(from, rank, id, n, w))
    decreases rank[id], 0, n
  {
    if n > 0 {
      VisitAllRenamed(from, rank, remap, to, rank2, id, n - 1, w);
      VisitedAllWithin(from, rank, id, n - 1, w);
      VisitRenamed(from, rank, remap, to, rank2, from[id].parents[n - 1], VisitAll(from, rank, id, n - 1, w));
    }
  }

  /** Renaming preserves what every id resolves to, in order: the same anchors, under their new names. */
  lemma {:induction false} RenamingKeepsMeaning(from: View, rank: map<Id, nat>, remap: map<Id, Id>, to: View, rank2: map<Id, nat>, id: Id)
    requires Ranked(from, rank) && PayloadUnique(from) && Carries(from, remap, to) && Ranked(to, rank2) && id in from
    ensures var r, r2 := ResolveAll(from, rank, id), ResolveAll(to, rank2, Renamed(remap, id));
            && r2 == RenamedAll(remap, r)
            && (forall k :: 0 <= k < |r| ==> r[k] in from && r2[k] in to && to[r2[k]] == from[r[k]])
  {
    VisitRenamed(from, rank, remap, to, rank2, id, Walk({}, []));
    assert RenamedWalk(remap, Walk({}, [])) == Walk({}, []);
    ResolveAllExact(from, rank, id);
  }

  /** The outcome of a walk does not depend on the ranking that shows it terminates. */
  lemma {:induction false} RankIrrelevant(view: View, rank: map<Id, nat>, rank2: map<Id, nat>, id: Id, w: Walk)
    requires Ranked(view, rank) && Ranked(view, rank2) && id in view
    ensures Visit(view, rank, id, w) == Visit(view, rank2, id, w)
    decreases rank[id], 0
  {
    if id !in w.visited && view[id].Combine? {
      RankIrrelevantAll(view, rank, rank2, id, |view[id].parents|, Walk(w.visited + {id}, w.found));
    }
  }

  lemma {:induction false} RankIrrelevantAll(view: View, rank: map<Id, nat>, rank2: map<Id, nat>, id: Id, n: nat, w: Walk)
    requires Ranked(view, rank) && Ranked(view, rank2) && id in view && view[id].Combine? && n <= |view[id].parents|
    ensures VisitAll(view, rank, id, n, w) == VisitAll(view, rank2, id, n, w)
    decreases rank[id], 0, n
  {
    if n > 0 {
      RankIrrelevantAll(view, rank, rank2, id, n - 1, w);
      RankIrrelevant(view, rank, rank2, view[id].parents[n - 1], VisitAll(view, rank, id, n - 1, w));
    }
  }

  // ---------- growing a view ----------

  ghost predicate Acyclic(view: View)
  {
    exists rank :: Ranked(view, rank)
  }

  ghost predicate Extends(was: View, now: View)
  {
    forall id :: id in was ==> id in now && now[id] == was[id]
  }

  /** A rank above all of the given ids. */
  ghost function Above(ids: seq<Id>, rank: map<Id, nat>): (n: nat)
    requires forall k :: 0 <= k < |ids| ==> ids[k] in rank
    ensures forall k :: 0 <= k < |ids| ==> rank[ids[k]] < n
  {
    if ids == [] then 0
    else
      var n := Above(ids[..|ids| - 1], rank);
      var last := rank[ids[|ids| - 1]];
      if last < n then n else last + 1
  }

  ghost predicate ParentsIn(p: Payload, view: View)
  {
    p.Combine? ==> forall k :: 0 <= k < |p.parents| ==> p.parents[k] in view
  }

  lemma {:induction false} GrowAcyclic(view: View, id: Id, p: Payload)
    requires Acyclic(view) && id !in view && ParentsIn(p, view)
    ensures Acyclic(view[id := p])
  {
    var rank :| Ranked(view, rank);
    var rank2 := rank[id := if p.Combine? then Above(p.parents, rank) else 0];
    assert Ranked(view[id := p], rank2);
  }

  /** An id that keeps its payload, in a view that keeps all payloads, keeps its meaning. */
  lemma {:induction false} VisitExtended(was: View, rank: map<Id, nat>, now: View, rank2: map<Id, nat>, id: Id, w: Walk)
    requires Ranked(was, rank) && Ranked(now, rank2) && Extends(was, now) && id in was
    ensures Visit(now, rank2, id, w) == Visit(was, rank, id, w)
    decreases rank[id], 0
  {
    if id !in w.visited && was[id].Combine? {
      VisitAllExtended(was, rank, now, rank2, id, |was[id].parents|, Walk(w.visited + {id}, w.found));
    }
  }

  lemma {:induction false} VisitAllExtended(was: View, rank: map<Id, nat>, now: View, rank2: map<Id, nat>, id: Id, n: nat, w: Walk)
    requires Ranked(was, rank) && Ranked(now, rank2) && Extends(was, now)
    requires id in was && was[id].Combine? && n <= |was[id].parents|
    ensures VisitAll(now, rank2, id, n, w) == VisitAll(was, rank, id, n, w)
    decreases rank[id], 0, n
  {
    if n > 0 {
      VisitAllExtended(was, rank, now, rank2, id, n - 1, w);
      VisitExtended(was, rank, now, rank2, was[id].parents[n - 1], VisitAll(was, rank, id, n - 1, w));
    }
  }

  lemma {:induction false} ExtendingKeepsMeaning(was: View, rank: map<Id, nat>, now: View, rank2: map<Id, nat>, id: Id)
    requires Ranked(was, rank) && Ranked(now, rank2) && Extends(was, now) && id in was
    ensures ResolveAll(now, rank2, id) == ResolveAll(was, rank, id)
  {
    VisitExtended(was, rank, now, rank2, id, Walk({}, []));
  }

  // ---------- merging entry by entry ----------

  /** An entry may arrive once everything it names has arrived, under an id not seen before. */
  ghost predicate Arrives(done: View, id: Id, p: Payload)
  {
    id !in done && ParentsIn(p, done)
  }

  /** Parents precede the combines that name them, and no id appears twice. */
  ghost predicate InOrder(done: View, s: seq<(Id, Payload)>)
    decreases |s|
  {
    s != [] ==> Arrives(done, s[0].0, s[0].1) && InOrder(done[s[0].0 := s[0].1], s[1..])
  }

  function After(done: View, s: seq<(Id, Payload)>): View
    decreases |s|
  {
    if s == [] then done else After(done[s[0].0 := s[0].1], s[1..])
  }

  lemma {:induction false} FirstArrives(done: View, s: seq<(Id, Payload)>, id: Id, p: Payload, rest: seq<(Id, Payload)>)
    requires InOrder(done, s) && s == [(id, p)] + rest
    ensures Arrives(done, id, p) && InOrder(done[id := p], rest)
  {
    assert s[1..] == rest;
  }

  lemma {:induction false} AfterFirst(done: View, s: seq<(Id, Payload)>, id: Id, p: Payload, rest: seq<(Id, Payload)>)
    requires s == [(id, p)] + rest
    ensures After(done, s) == After(done[id := p], rest)
  {
    assert s[1..] == rest;
  }

  lemma {:induction false} AfterConcat(done: View, a: seq<(Id, Payload)>, b: seq<(Id, Payload)>)
    ensures After(done, a + b) == After(After(done, a), b)
    ensures InOrder(done, a + b) <==> InOrder(done, a) && InOrder(After(done, a), b)
    decreases |a|
  {
    if a == [] {
      assert a + b == b;
    } else {
      assert (a + b)[1..] == a[1..] + b;
      AfterConcat(done[a[0].0 := a[0].1], a[1..], b);
    }
  }

  /** What a merge keeps while entries arrive: everything that arrived is carried, under its new name,
      and nothing that was there changed. */
  ghost predicate Merging(done: View, remap: map<Id, Id>, was: View, now: View)
  {
    && Carries(done, remap, now) && remap.Keys <= done.Keys
    && (forall id :: id in done ==> ParentsIn(done[id], done))
    && Extends(was, now) && Acyclic(now) && Acyclic(done)
  }

  lemma {:induction false} MergeStep(done: View, remap: map<Id, Id>, was: View, now: View, oid: Id, p: Payload, nid: Id)
    requires Merging(done, remap, was, now) && Arrives(done, oid, p)
    requires nid in now ==> now[nid] == RenamedPayload(remap, p)
    ensures Merging(done[oid := p], if nid != oid && oid !in remap then remap[oid := nid] else remap, was,
                    now[nid := RenamedPayload(remap, p)])
  {
    var remap2 := if nid != oid && oid !in remap then remap[oid := nid] else remap;
    var done2, now2 := done[oid := p], now[nid := RenamedPayload(remap, p)];
    assert Extends(now, now2);
    forall id | id in done2
      ensures Renamed(remap2, id) in now2 && now2[Renamed(remap2, id)] == RenamedPayload(remap2, done2[id])
      ensures ParentsIn(done2[id], done2)
    {
      RenamedUnaffected(remap, oid, nid, done2[id]);
      if id != oid {
        assert ParentsIn(done[id], done);
      }
    }
    if nid !in now {
      RenamedParentsIn(done, remap, now, p);
      GrowAcyclic(now, nid, RenamedPayload(remap, p));
    } else {
      assert now2 == now;
    }
    GrowAcyclic(done, oid, p);
  }

  lemma {:induction false} RenamedUnaffected(remap: map<Id, Id>, oid: Id, nid: Id, p: Payload)
    requires p.Combine? ==> forall k :: 0 <= k < |p.parents| ==> p.parents[k] != oid
    ensures RenamedPayload(remap[oid := nid], p) == RenamedPayload(remap, p)
  {
    if p.Combine? {
      assert RenamedAll(remap[oid := nid], p.parents) == RenamedAll(remap, p.parents);
    }
  }

  lemma {:induction false} RenamedParentsIn(done: View, remap: map<Id, Id>, now: View, p: Payload)
    requires Carries(done, remap, now) && ParentsIn(p, done)
    ensures ParentsIn(RenamedPayload(remap, p), now)
  {
  }

  lemma {:induction false} MergingStarts(shared: View, now: View)
    requires Extends(shared, now) && Acyclic(now) && forall id :: id in shared ==> ParentsIn(shared[id], shared)
    ensures Merging(shared, map[], now, now)
  {
    var rank :| Ranked(now, rank);
    assert Ranked(shared, rank);
    forall id | id in shared
      ensures RenamedPayload(map[], shared[id]) == shared[id]
    {
      if shared[id].Combine? {
        assert RenamedAll(map[], shared[id].parents) == shared[id].parents;
      }
    }
  }
}
