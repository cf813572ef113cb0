/**
 The provenance table itself: content-addressed ids over an arbitrary hash, cyclic probing on
 collisions, a chain of read-only tables behind it, union merge, and the eviction fixpoints.
 */
module SourceLocatorProgram {
  import opened ProvenanceView
  import opened Options

  /** Ids are 64-bit and 0 is the invalid one. */
  const ID_SPACE: nat := 0x1_0000_0000_0000_0000

  datatype Kind = SpanKind | LineOnlyKind | CombineKind

  datatype Entry = Entry(kind: Kind, fileId: nat, start: nat, end: nat, line: nat, parents: seq<Id>)

  datatype File = File(path: string, contentHash: nat)

  /** A finished table: entries in insertion order, their index, and the files they name. */
  datatype Table = Table(entries: seq<(Id, Entry)>, index: map<Id, nat>, files: seq<File>)

  /** The id hashes, any functions at all. */
  datatype Hash = Hash(span: (string, nat, nat) -> nat, lineOnly: (string, nat) -> nat, combine: seq<Id> -> nat)

  datatype Anchor = Anchor(path: string, start: nat, end: nat, line: nat, kind: Kind)

  predicate IsId(id: Id)
  {
    1 <= id < ID_SPACE
  }

  /** The low 64 bits of a hash, or the first id in place of the invalid one. */
  function FinishHash(h: nat): (id: Id)
    ensures IsId(id) && id < 0x1_0000_0000_0000_0000 && (0 < h < 0x1_0000_0000_0000_0000 ==> id == h) && (h == 0 ==> forall other :: IsId(other) ==> id <= other)
  {
    var m := h % ID_SPACE;
    if m == 0 then 1 else m
  }

  function NextId(id: Id): (next: Id)
    requires IsId(id)
    ensures IsId(next)
  {
    if id + 1 == ID_SPACE then 1 else id + 1
  }

  // ---------- what a table stands for ----------

  predicate KnownFile(files: seq<File>, e: Entry)
  {
    e.kind.CombineKind? || e.fileId < |files|
  }

  function PayloadOf(files: seq<File>, e: Entry): Payload
    requires KnownFile(files, e)
  {
    match e.kind
    case SpanKind => Span(files[e.fileId].path, e.start, e.end)
    case LineOnlyKind => LineOnly(files[e.fileId].path, e.start, e.end, e.line)
    case CombineKind => Combine(e.parents)
  }

  predicate KnownFiles(entries: seq<(Id, Entry)>, files: seq<File>)
  {
    forall i :: 0 <= i < |entries| ==> KnownFile(files, entries[i].1)
  }

  /** Distinct ids, indexed by position. */
  predicate Indexed(entries: seq<(Id, Entry)>, index: map<Id, nat>)
  {
    && (forall i :: 0 <= i < |entries| ==> entries[i].0 in index && index[entries[i].0] == i)
    && (forall id :: id in index ==> index[id] < |entries| && entries[index[id]].0 == id)
  }

  predicate WellFormed(t: Table)
  {
    && KnownFiles(t.entries, t.files) && Indexed(t.entries, t.index)
    && forall id :: id in t.index ==> IsId(id)
  }

  function TableView(entries: seq<(Id, Entry)>, index: map<Id, nat>, files: seq<File>): (v: View)
    requires KnownFiles(entries, files) && Indexed(entries, index)
    ensures v.Keys == index.Keys
  {
    map id | id in index :: PayloadOf(files, entries[index[id]].1)
  }

  predicate AllWellFormed(chain: seq<Table>)
  {
    chain == [] || (WellFormed(chain[0]) && AllWellFormed(chain[1..]))
  }

  /** The tables behind, nearest first; a nearer table hides a farther one. */
  function ChainView(chain: seq<Table>): View
    requires AllWellFormed(chain)
  {
    if chain == [] then map[]
    else ChainView(chain[1..]) + TableView(chain[0].entries, chain[0].index, chain[0].files)
  }

  /** The entries record an id. */
  ghost predicate Holds(entries: seq<(Id, Entry)>, id: Id)
  {
    exists k :: 0 <= k < |entries| && entries[k].0 == id
  }

  /** They record it with this line. */
  ghost predicate LineIn(entries: seq<(Id, Entry)>, id: Id, line: nat)
  {
    exists k :: 0 <= k < |entries| && entries[k].0 == id && entries[k].1.line == line
  }

  /** The nearest table that records the id does so with this line. */
  ghost predicate LineBehind(chain: seq<Table>, id: Id, line: nat)
  {
    chain != [] && if Holds(chain[0].entries, id) then LineIn(chain[0].entries, id, line) else LineBehind(chain[1..], id, line)
  }

  /** An anchor spells what an id stands for. */
  predicate Spells(a: Anchor, p: Payload)
  {
    match p
    case Span(path, start, end) => a.kind == SpanKind && a.path == path && a.start == start && a.end == end
    case LineOnly(path, start, end, line) =>
      a.kind == LineOnlyKind && a.path == path && a.start == start && a.end == end && a.line == line
    case Combine(_) => false
  }

  function FindInChain(chain: seq<Table>, id: Id): (r: Option<(Entry, seq<File>)>)
    requires AllWellFormed(chain)
    ensures r.Some? <==> id in ChainView(chain)
    ensures r.Some? ==> KnownFile(r.value.1, r.value.0) && ChainView(chain)[id] == PayloadOf(r.value.1, r.value.0)
    ensures r.Some? ==> LineBehind(chain, id, r.value.0.line)
  {
    if chain == [] then None
    else if id in chain[0].index then Some((chain[0].entries[chain[0].index[id]].1, chain[0].files))
    else FindInChain(chain[1..], id)
  }

  // ---------- probing ----------

  /** The id n probes after `want`. */
  ghost function Probe(want: Id, n: nat): (id: Id)
    requires IsId(want)
    ensures IsId(id)
  {
    if n == 0 then want else NextId(Probe(want, n - 1))
  }

  /** The first id from `want` on that is free or already stands for the payload. */
  ghost predicate Placed(view: View, want: Id, p: Payload, id: Id)
    requires IsId(want)
  {
    && (id in view ==> view[id] == p)
    && exists n: nat :: id == Probe(want, n) && forall m: nat :: m < n ==> Probe(want, m) in view && view[Probe(want, m)] != p
  }

  /** The content hash that is known for a path after the first n files of a list; 0 is none. */
  function HashBefore(was: nat, incoming: seq<File>, n: nat, path: string): nat
    requires n <= |incoming|
  {
    if n == 0 then was
    else if incoming[n - 1].path == path && incoming[n - 1].contentHash != 0 then incoming[n - 1].contentHash
    else HashBefore(was, incoming, n - 1, path)
  }

  /** A file of the list is another version than the one known by then. */
  predicate Newer(incoming: seq<File>, i: nat, was: nat)
    requires i < |incoming|
  {
    var known := HashBefore(was, incoming, i, incoming[i].path);
    incoming[i].contentHash != 0 && known != 0 && known != incoming[i].contentHash
  }

  ghost predicate NewerAmong(incoming: seq<File>, n: nat, was: imap<string, nat>)
    requires n <= |incoming| && forall p: string :: p in was
  {
    exists j :: 0 <= j < n && Newer(incoming, j, was[incoming[j].path])
  }

  lemma {:induction false} NewerNext(incoming: seq<File>, n: nat, was: imap<string, nat>)
    requires n < |incoming| && forall p: string :: p in was
    ensures NewerAmong(incoming, n + 1, was) <==> NewerAmong(incoming, n, was) || Newer(incoming, n, was[incoming[n].path])
  {
  }

  /** The id at which the probe for a payload begins. */
  function Home(hash: Hash, p: Payload): Id
  {
    match p
    case Span(path, start, end) => FinishHash(hash.span(path, start, end))
    case LineOnly(path, _, _, line) => FinishHash(hash.lineOnly(path, line))
    case Combine(parents) => FinishHash(hash.combine(parents))
  }

  /** What is minted once more, whatever was added in between, gets the id that it has. */
  lemma {:induction false} PlacedAgain(view: View, want: Id, p: Payload, id: Id, later: View, again: Id)
    requires IsId(want) && Placed(view, want, p, id) && Placed(later, want, p, again)
    requires id in later && later[id] == p && forall k :: k in view ==> k in later && later[k] == view[k]
    ensures again == id
  {
    var n: nat :| id == Probe(want, n) && forall m: nat :: m < n ==> Probe(want, m) in view && view[Probe(want, m)] != p;
    var k: nat :| again == Probe(want, k) && forall m: nat :: m < k ==> Probe(want, m) in later && later[Probe(want, m)] != p;
    assert forall m: nat :: m < n ==> Probe(want, m) in view && later[Probe(want, m)] != p;
  }

  /** Without a collision the id is the hash itself. */
  lemma {:induction false} PlacedAtHome(view: View, want: Id, p: Payload, id: Id)
    requires IsId(want) && Placed(view, want, p, id)
    ensures id == want <==> want !in view || view[want] == p
  {
    var n: nat :| id == Probe(want, n) && forall m: nat :: m < n ==> Probe(want, m) in view && view[Probe(want, m)] != p;
    assert Probe(want, 0) == want;
  }

  /** The ids before the n-th stand for other payloads. */
  ghost predicate PassedBy(view: View, want: Id, p: Payload, n: nat)
    requires IsId(want)
  {
    forall m: nat :: m < n ==> Probe(want, m) in view && view[Probe(want, m)] != p
  }

  lemma {:induction false} PassBy(view: View, want: Id, p: Payload, n: nat)
    requires IsId(want) && PassedBy(view, want, p, n) && Probe(want, n) in view && view[Probe(want, n)] != p
    ensures PassedBy(view, want, p, n + 1) && Probe(want, n + 1) == NextId(Probe(want, n))
  {
  }

  lemma {:induction false} StopAt(view: View, want: Id, p: Payload, n: nat)
    requires IsId(want) && PassedBy(view, want, p, n) && (Probe(want, n) in view ==> view[Probe(want, n)] == p)
    ensures Placed(view, want, p, Probe(want, n))
  {
  }

  ghost predicate HasRoom(view: View)
  {
    exists id :: IsId(id) && id !in view
  }

  /** Steps of the cyclic probe from one id to another. */
  function Gap(from: Id, to: Id): nat
    requires IsId(from) && IsId(to)
  {
    if from <= to then to - from else to + (ID_SPACE - 1) - from
  }

  /** Fewer entries than ids leave a free id. */
  lemma {:induction false} RoomBySize(view: View)
    requires |view| < ID_SPACE - 1
    ensures HasRoom(view)
  {
    if !HasRoom(view) {
      IdsBelowSize(ID_SPACE);
      forall id | id in IdsBelow(ID_SPACE)
        ensures id in view.Keys
      {
        assert IsId(id);
      }
      SubsetSize(IdsBelow(ID_SPACE), view.Keys);
    }
  }

  ghost function IdsBelow(n: nat): set<nat>
  {
    if n <= 1 then {} else IdsBelow(n - 1) + {n - 1}
  }

  lemma {:induction false} IdsBelowSize(n: nat)
    requires n >= 1
    ensures |IdsBelow(n)| == n - 1 && forall id :: id in IdsBelow(n) ==> 1 <= id < n
  {
    if n > 1 {
      IdsBelowSize(n - 1);
    }
  }

  lemma {:induction false} SubsetSize(a: set<nat>, b: set<nat>)
    requires a <= b
    ensures |a| <= |b|
  {
    if a != {} {
      var x :| x in a;
      SubsetSize(a - {x}, b - {x});
    }
  }

  // ---------- the fixpoints of eviction ----------

  /** The ids from which some target can be reached through combines of this view. */
  ghost predicate Tainted(view: View, targets: iset<Id>, id: Id)
  {
    id in view && exists t :: t in targets && Reaches(view, id, t)
  }

  lemma {:induction false} TaintedParent(view: View, targets: iset<Id>, id: Id, k: nat)
    requires id in view && view[id].Combine? && k < |view[id].parents|
    requires view[id].parents[k] in targets || Tainted(view, targets, view[id].parents[k])
    ensures Tainted(view, targets, id)
  {
    var q := view[id].parents[k];
    if q in targets {
      ReachesSelf(view, q);
      ReachesParent(view, id, k, q);
    } else {
      var t :| t in targets && Reaches(view, q, t);
      ReachesParent(view, id, k, t);
    }
  }

  /** Every combine with a parent in d or among the targets is itself in d. */
  ghost predicate ClosedUpwards(view: View, targets: iset<Id>, d: set<Id>)
  {
    forall c, k :: c in view && view[c].Combine? && 0 <= k < |view[c].parents| ==>
      (view[c].parents[k] in d || view[c].parents[k] in targets ==> c in d)
  }

  /** A set closed upwards contains everything tainted. */
  lemma {:induction false} ClosedHoldsTainted(view: View, targets: iset<Id>, d: set<Id>, id: Id, p: seq<Id>, t: Id)
    requires ClosedUpwards(view, targets, d)
    requires forall c :: c in targets && c in view ==> c in d
    requires id in view && t in targets && Path(view, id, p, t)
    ensures id in d
    decreases |p|
  {
    if p != [] {
      var k :| 0 <= k < |view[id].parents| && view[id].parents[k] == p[0];
      if p[0] in view {
        ClosedHoldsTainted(view, targets, d, p[0], p[1..], t);
      } else {
        assert p[1..] == [];
      }
    }
  }

  ghost function Unresolved(own: View, behind: View): iset<Id>
  {
    iset id: Id | id !in own && id !in behind
  }

  /** Every parent named in this part of the own table resolves, in it or behind it. */
  ghost predicate Resolves(own: View, behind: View, part: set<Id>)
  {
    && part <= own.Keys
    && forall c, k :: c in part && own[c].Combine? && 0 <= k < |own[c].parents| ==>
         var q := own[c].parents[k]; if q in own then q in part else q in behind
  }

  lemma {:induction false} LargestResolves(own: View, behind: View, left: View)
    requires left == own - set id | id in own && Tainted(own, Unresolved(own, behind), id)
    ensures Resolves(left, behind, left.Keys)
  {
    PurgeIsLargest(own, behind, left.Keys);
  }

  /** Dropping the combines that lead to an unresolved id leaves a table that resolves completely,
      and the largest such table. */
  lemma {:induction false} PurgeIsLargest(own: View, behind: View, kept: set<Id>)
    requires kept == set id | id in own && !Tainted(own, Unresolved(own, behind), id)
    ensures Resolves(own, behind, kept)
    ensures forall part :: Resolves(own, behind, part) ==> part <= kept
  {
    var bad := Unresolved(own, behind);
    forall c, k | c in kept && own[c].Combine? && 0 <= k < |own[c].parents|
      ensures var q := own[c].parents[k]; if q in own then q in kept else q in behind
    {
      var q := own[c].parents[k];
      if q in bad || Tainted(own, bad, q) {
        TaintedParent(own, bad, c, k);
      }
    }
    forall part, id | Resolves(own, behind, part) && id in part
      ensures id in kept
    {
      if Tainted(own, bad, id) {
        var t :| t in bad && Reaches(own, id, t);
        var p :| Path(own, id, p, t);
        ResolvingAvoids(own, behind, part, id, p, t);
      }
    }
  }

  lemma {:induction false} ResolvingAvoids(own: View, behind: View, part: set<Id>, id: Id, p: seq<Id>, t: Id)
    requires Resolves(own, behind, part) && id in part && Path(own, id, p, t)
    ensures t in own || t in behind
    decreases |p|
  {
    if p != [] {
      var k :| 0 <= k < |own[id].parents| && own[id].parents[k] == p[0];
      if p[0] in own {
        ResolvingAvoids(own, behind, part, p[0], p[1..], t);
      } else {
        assert p[1..] == [];
      }
    }
  }

  // ---------- growing a table ----------

  /** Files are only ever added at the end; their paths never change. */
  ghost predicate FilesExtend(files: seq<File>, files2: seq<File>)
  {
    |files| <= |files2| && forall i :: 0 <= i < |files| ==> files2[i].path == files[i].path
  }

  lemma {:induction false} ViewUnderFiles(entries: seq<(Id, Entry)>, index: map<Id, nat>, files: seq<File>, files2: seq<File>)
    requires KnownFiles(entries, files) && Indexed(entries, index) && FilesExtend(files, files2)
    ensures KnownFiles(entries, files2) && TableView(entries, index, files2) == TableView(entries, index, files)
  {
    forall i | 0 <= i < |entries|
      ensures KnownFile(files2, entries[i].1)
    {
      assert KnownFile(files, entries[i].1);
    }
  }

  lemma {:induction false} ViewAppended(entries: seq<(Id, Entry)>, index: map<Id, nat>, files: seq<File>, id: Id, e: Entry)
    requires KnownFiles(entries, files) && Indexed(entries, index) && id !in index && KnownFile(files, e)
    ensures KnownFiles(entries + [(id, e)], files) && Indexed(entries + [(id, e)], index[id := |entries|])
    ensures TableView(entries + [(id, e)], index[id := |entries|], files) ==
            TableView(entries, index, files)[id := PayloadOf(files, e)]
  {
  }

  lemma {:induction false} UpdateBehind(behind: View, own: View, id: Id, p: Payload)
    ensures behind + own[id := p] == (behind + own)[id := p]
  {
  }

  /** A combine with a tainted parent is tainted. */
  ghost predicate EntryClosed(x: (Id, Entry), targets: iset<Id>, grown: set<Id>)
  {
    x.1.kind.CombineKind? ==>
      forall k :: 0 <= k < |x.1.parents| && (x.1.parents[k] in grown || x.1.parents[k] in targets) ==> x.0 in grown
  }

  lemma {:induction false} EntriesClosed(entries: seq<(Id, Entry)>, index: map<Id, nat>, files: seq<File>, targets: iset<Id>, grown: set<Id>)
    requires KnownFiles(entries, files) && Indexed(entries, index) && forall j :: 0 <= j < |entries| ==> EntryClosed(entries[j], targets, grown)
    ensures ClosedUpwards(TableView(entries, index, files), targets, grown)
  {
    var own := TableView(entries, index, files);
    forall c, k | c in own && own[c].Combine? && 0 <= k < |own[c].parents| && (own[c].parents[k] in grown || own[c].parents[k] in targets)
      ensures c in grown
    {
      assert entries[index[c]].0 == c && EntryClosed(entries[index[c]], targets, grown);
    }
  }

  /** The first parent of a combine leads to an id. */
  ghost predicate LeadsOn(view: View, v: Id, id: Id)
  {
    v in view && view[v].Combine? && view[v].parents != [] && Reaches(view, view[v].parents[0], id)
  }

  lemma {:induction false} AllLeadOn(view: View, visited: set<Id>, was: Id, id: Id)
    requires was in view && view[was].Combine? && view[was].parents != [] && id == view[was].parents[0]
    requires forall v {:trigger LeadsOn(view, v, was)} :: v in visited && v != was ==> LeadsOn(view, v, was)
    ensures forall v {:trigger LeadsOn(view, v, id)} :: v in visited ==> LeadsOn(view, v, id)
  {
    ReachesSelf(view, id);
    forall v | v in visited && v != was
      ensures LeadsOn(view, v, id)
    {
      assert LeadsOn(view, v, was);
      ReachesChild(view, view[v].parents[0], was, 0);
    }
  }

  // ---------- a merge, on what ids stand for ----------

  /** The content hash on record for each path. */
  type Hashes = imap<string, nat>

  ghost function AnchorsOn(own: View, path: string): iset<Id>
  {
    iset id | id in own && !own[id].Combine? && own[id].path == path
  }

  /** What is left without the anchors of a file and all that leads to them. */
  ghost function EvictedFrom(own: View, path: string): View
  {
    own - set id | id in own && Tainted(own, AnchorsOn(own, path), id)
  }

  /** What is left after the first n files of a list have come in. */
  ghost function FoldedOwn(own: View, was: Hashes, incoming: seq<File>, n: nat): View
    requires n <= |incoming| && forall p: string :: p in was
  {
    if n == 0 then own
    else
      var front := FoldedOwn(own, was, incoming, n - 1);
      var path := incoming[n - 1].path;
      if Newer(incoming, n - 1, was[path]) then EvictedFrom(front, path) else front
  }

  ghost function HashesAfter(was: Hashes, incoming: seq<File>): (h: Hashes)
    requires forall p: string :: p in was
    ensures forall p: string :: p in h
  {
    imap p: string :: HashBefore(was[p], incoming, |incoming|, p)
  }

  /** Where the probe for a payload ends. */
  ghost function PlaceOf(view: View, want: Id, p: Payload): Id
    requires IsId(want)
  {
    if exists id: Id :: Placed(view, want, p, id) then (var id: Id :| Placed(view, want, p, id); id) else 0
  }

  lemma {:induction false} PlacedThere(view: View, want: Id, p: Payload, id: Id)
    requires IsId(want) && Placed(view, want, p, id)
    ensures PlaceOf(view, want, p) == id
  {
    var other := PlaceOf(view, want, p);
    var n: nat :| id == Probe(want, n) && forall m: nat :: m < n ==> Probe(want, m) in view && view[Probe(want, m)] != p;
    var k: nat :| other == Probe(want, k) && forall m: nat :: m < k ==> Probe(want, m) in view && view[Probe(want, m)] != p;
    assert forall m: nat :: m < n ==> Probe(want, m) != other;
    assert forall m: nat :: m < k ==> Probe(want, m) != id;
  }

  /** One entry that comes in: its parents are renamed, and it takes the id at which its probe ends. */
  ghost function Reminted(hash: Hash, behind: View, own: View, remap: map<Id, Id>, oid: Id, payload: Payload): (View, map<Id, Id>)
  {
    var p := RenamedPayload(remap, payload);
    var nid := PlaceOf(behind + own, Home(hash, p), p);
    (if nid in behind + own then own else own[nid := p], if nid != oid && oid !in remap then remap[oid := nid] else remap)
  }

  ghost function AllReminted(hash: Hash, behind: View, own: View, remap: map<Id, Id>, order: seq<(Id, Payload)>): (View, map<Id, Id>)
    decreases |order|
  {
    if order == [] then (own, remap)
    else
      var (now, renamed) := Reminted(hash, behind, own, remap, order[0].0, order[0].1);
      AllReminted(hash, behind, now, renamed, order[1..])
  }

  lemma {:induction false} RemintedNext(hash: Hash, behind: View, own: View, remap: map<Id, Id>, order: seq<(Id, Payload)>, i: nat)
    requires i < |order|
    ensures
      var next := Reminted(hash, behind, own, remap, order[i].0, order[i].1);
      AllReminted(hash, behind, own, remap, order[i..]) == AllReminted(hash, behind, next.0, next.1, order[i + 1..])
  {
    assert order[i..][0] == order[i] && order[i..][1..] == order[i + 1..];
  }

  /** What is left without the combinations that lead nowhere. */
  ghost function PurgedFrom(own: View, behind: View): View
  {
    own - set id | id in own && Tainted(own, Unresolved(own, behind), id)
  }

  /** One table that comes in: its files, its entries, and a purge when a file was superseded. */
  ghost function LevelMerged(hash: Hash, behind: View, own: View, was: Hashes, remap: map<Id, Id>, incoming: seq<File>, order: seq<(Id, Payload)>)
    : (View, map<Id, Id>)
    requires forall p: string :: p in was
  {
    var (now, renamed) := AllReminted(hash, behind, FoldedOwn(own, was, incoming, |incoming|), remap, order);
    (if NewerAmong(incoming, |incoming|, was) then PurgedFrom(now, behind) else now, renamed)
  }

  /** A chain of tables that comes in, the farthest first. */
  ghost function ChainMerged(hash: Hash, behind: View, own: View, was: Hashes, remap: map<Id, Id>, theirs: seq<Table>)
    : (r: (View, map<Id, Id>, Hashes))
    requires AllWellFormed(theirs) && forall p: string :: p in was
    ensures forall p: string :: p in r.2
  {
    if theirs == [] then (own, remap, was)
    else
      var (own1, remap1, was1) := ChainMerged(hash, behind, own, was, remap, theirs[1..]);
      var (own2, remap2) := LevelMerged(hash, behind, own1, was1, remap1, theirs[0].files, Payloads(theirs[0]));
      (own2, remap2, HashesAfter(was1, theirs[0].files))
  }

  class SourceLocator {
    var entries: seq<(Id, Entry)>
    var index: map<Id, nat>
    var files: seq<File>
    var pathToFid: map<string, nat>
    const base: seq<Table>
    const hash: Hash

    constructor (base: seq<Table>, hash: Hash)
      requires AllWellFormed(base)
      ensures Valid() && this.base == base && this.hash == hash && entries == [] && files == []
    {
      this.base, this.hash := base, hash;
      entries, index, files, pathToFid := [], map[], [], map[];
    }

    ghost predicate FilesIndexed()
      reads this
    {
      && (forall i :: 0 <= i < |files| ==> files[i].path in pathToFid && pathToFid[files[i].path] == i)
      && (forall p :: p in pathToFid ==> pathToFid[p] < |files| && files[pathToFid[p]].path == p)
    }

    ghost predicate Valid()
      reads this
    {
      && AllWellFormed(base)
      && WellFormed(Table(entries, index, files))
      && FilesIndexed()
    }

    ghost function Own(): View
      requires Valid()
      reads this
    {
      TableView(entries, index, files)
    }

    /** Everything an id can resolve to here: own entries first, then the tables behind. */
    ghost function Visible(): View
      requires Valid()
      reads this
    {
      ChainView(base) + Own()
    }

    /** The own entry, or else the nearest one behind, records this line. */
    ghost predicate RecordsLine(id: Id, line: nat)
      reads this
    {
      if Holds(entries, id) then LineIn(entries, id, line) else LineBehind(base, id, line)
    }

    function FindEntry(id: Id): (r: Option<(Entry, seq<File>)>)
      requires Valid()
      reads this
      ensures r.Some? <==> id in Visible()
      ensures r.Some? ==> KnownFile(r.value.1, r.value.0) && Visible()[id] == PayloadOf(r.value.1, r.value.0)
      ensures r.Some? ==> RecordsLine(id, r.value.0.line)
    {
      if id in index then Some((entries[index[id]].1, files)) else FindInChain(base, id)
    }

    method InternFile(path: string) returns (fid: nat)
      requires Valid()
      modifies this`files, this`pathToFid
      ensures Valid() && Visible() == old(Visible()) && Own() == old(Own()) && FilesExtend(old(files), files)
      ensures fid < |files| && files[fid].path == path
      ensures files == old(files) || (files == old(files) + [File(path, 0)] && path !in old(pathToFid))
      ensures forall p :: HashAt(p) == old(HashAt(p))
    {
      if path in pathToFid {
        return pathToFid[path];
      }
      fid := |files|;
      ViewUnderFiles(entries, index, files, files + [File(path, 0)]);
      files := files + [File(path, 0)];
      pathToFid := pathToFid[path := fid];
    }

    /** The content hash on record for a path; 0 is none. */
    function HashAt(path: string): (h: nat)
      requires Valid()
      reads this
      ensures forall k :: 0 <= k < |files| && files[k].path == path ==> h == files[k].contentHash
      ensures (forall k :: 0 <= k < |files| ==> files[k].path != path) ==> h == 0
    {
      if path in pathToFid then files[pathToFid[path]].contentHash else 0
    }

    ghost function Known(): (h: Hashes)
      requires Valid()
      reads this
      ensures forall p: string :: p in h && h[p] == HashAt(p)
    {
      imap p: string :: HashAt(p)
    }

    predicate AnchorPayloadEqual(e: Entry, owner: seq<File>, kind: Kind, path: string, start: nat, end: nat, line: nat)
      requires KnownFile(owner, e)
    {
      && e.kind == kind && e.start == start && e.end == end
      && (kind.LineOnlyKind? ==> e.line == line)
      && (e.kind.CombineKind? || owner[e.fileId].path == path)
    }

    static function AnchorPayload(kind: Kind, path: string, start: nat, end: nat, line: nat): Payload
      requires !kind.CombineKind?
    {
      if kind.SpanKind? then Span(path, start, end) else LineOnly(path, start, end, line)
    }

    lemma {:induction false} SamePayload(e: Entry, owner: seq<File>, kind: Kind, path: string, start: nat, end: nat, line: nat)
      requires KnownFile(owner, e) && !kind.CombineKind?
      ensures AnchorPayloadEqual(e, owner, kind, path, start, end, line) <==> PayloadOf(owner, e) == AnchorPayload(kind, path, start, end, line)
    {
    }

    /** Probes from `want` for an entry with this payload or a free id. */
    method ProbeAnchor(want: Id, kind: Kind, path: string, start: nat, end: nat, line: nat) returns (id: Id, shared: bool)
      requires Valid() && IsId(want) && !kind.CombineKind? && HasRoom(Visible())
      ensures IsId(id) && Placed(Visible(), want, AnchorPayload(kind, path, start, end, line), id)
      ensures shared <==> id in Visible()
    {
      ghost var view, p := Visible(), AnchorPayload(kind, path, start, end, line);
      ghost var free :| IsId(free) && free !in view;
      id := want;
      ghost var n: nat := 0;
      while true
        invariant IsId(id) && id == Probe(want, n) && PassedBy(view, want, p, n)
        decreases Gap(id, free)
      {
        var found := FindEntry(id);
        if found.None? {
          StopAt(view, want, p, n);
          return id, false;
        }
        SamePayload(found.value.0, found.value.1, kind, path, start, end, line);
        if AnchorPayloadEqual(found.value.0, found.value.1, kind, path, start, end, line) {
          StopAt(view, want, p, n);
          return id, true;
        }
        PassBy(view, want, p, n);
        id := NextId(id);
        n := n + 1;
      }
    }

    /** An identical payload is shared; on a true collision the id moves on. */
    method InsertAnchor(want: Id, kind: Kind, path: string, start: nat, end: nat, line: nat) returns (id: Id)
      requires Valid() && IsId(want) && !kind.CombineKind? && HasRoom(Visible())
      modifies this
      ensures Valid() && FilesExtend(old(files), files)
      ensures Placed(old(Visible()), want, AnchorPayload(kind, path, start, end, line), id)
      ensures Visible() == old(Visible())[id := AnchorPayload(kind, path, start, end, line)]
      ensures Own() == if id in old(Visible()) then old(Own()) else old(Own())[id := AnchorPayload(kind, path, start, end, line)]
      ensures Known() == old(Known())
      ensures if id in old(Visible()) then entries == old(entries)
              else exists e :: entries == old(entries) + [(id, e)] && e.kind == kind && e.line == line
      ensures files == old(files) || (files == old(files) + [File(path, 0)] && path !in old(pathToFid))
    {
      var shared;
      id, shared := ProbeAnchor(want, kind, path, start, end, line);
      if shared {
        assert Visible() == Visible()[id := AnchorPayload(kind, path, start, end, line)];
        return;
      }
      var e := AddAnchor(id, kind, path, start, end, line);
    }

    method AddAnchor(id: Id, kind: Kind, path: string, start: nat, end: nat, line: nat) returns (e: Entry)
      requires Valid() && IsId(id) && id !in Visible() && !kind.CombineKind?
      modifies this
      ensures Valid() && FilesExtend(old(files), files)
      ensures Visible() == old(Visible())[id := AnchorPayload(kind, path, start, end, line)]
      ensures Own() == old(Own())[id := AnchorPayload(kind, path, start, end, line)] && Known() == old(Known())
      ensures entries == old(entries) + [(id, e)] && e.kind == kind && e.line == line
      ensures files == old(files) || (files == old(files) + [File(path, 0)] && path !in old(pathToFid))
    {
      var fid := InternFile(path);
      e := Entry(kind, fid, start, end, line, []);
      assert KnownFile(files, e) && PayloadOf(files, e) == AnchorPayload(kind, path, start, end, line);
      Append(id, e);
    }

    method ProbeCombine(want: Id, parents: seq<Id>) returns (id: Id, shared: bool)
      requires Valid() && IsId(want) && HasRoom(Visible())
      ensures IsId(id) && Placed(Visible(), want, Combine(parents), id)
      ensures shared <==> id in Visible()
    {
      ghost var view := Visible();
      ghost var free :| IsId(free) && free !in view;
      id := want;
      ghost var n: nat := 0;
      while true
        invariant IsId(id) && id == Probe(want, n) && PassedBy(view, want, Combine(parents), n)
        decreases Gap(id, free)
      {
        var found := FindEntry(id);
        if found.None? {
          StopAt(view, want, Combine(parents), n);
          return id, false;
        }
        if found.value.0.kind.CombineKind? && found.value.0.parents == parents {
          StopAt(view, want, Combine(parents), n);
          return id, true;
        }
        assert view[id] != Combine(parents);
        PassBy(view, want, Combine(parents), n);
        id := NextId(id);
        n := n + 1;
      }
    }

    method InsertCombine(want: Id, parents: seq<Id>) returns (id: Id)
      requires Valid() && IsId(want) && HasRoom(Visible())
      modifies this`entries, this`index
      ensures Valid() && Placed(old(Visible()), want, Combine(parents), id)
      ensures Visible() == old(Visible())[id := Combine(parents)]
      ensures Own() == if id in old(Visible()) then old(Own()) else old(Own())[id := Combine(parents)]
      ensures Known() == old(Known())
      ensures if id in old(Visible()) then entries == old(entries)
              else exists e :: entries == old(entries) + [(id, e)] && e.kind.CombineKind?
    {
      var shared;
      id, shared := ProbeCombine(want, parents);
      if shared {
        assert Visible() == Visible()[id := Combine(parents)];
        return;
      }
      Append(id, Entry(CombineKind, 0, 0, 0, 0, parents));
    }

    method Append(id: Id, e: Entry)
      requires Valid() && IsId(id) && id !in Visible() && KnownFile(files, e)
      modifies this`entries, this`index
      ensures Valid() && entries == old(entries) + [(id, e)]
      ensures Visible() == old(Visible())[id := PayloadOf(files, e)]
      ensures Own() == old(Own())[id := PayloadOf(files, e)] && Known() == old(Known())
    {
      ghost var own := Own();
      ViewAppended(entries, index, files, id, e);
      index := index[id := |entries|];
      entries := entries + [(id, e)];
      assert Own() == own[id := PayloadOf(files, e)];
      UpdateBehind(ChainView(base), own, id, PayloadOf(files, e));
    }

    method Mint(path: string, start: nat, end: nat, line: nat) returns (id: Id)
      requires Valid() && HasRoom(Visible())
      modifies this
      ensures Valid() && id in Visible() && Visible()[id] == Span(path, start, end)
      ensures Placed(old(Visible()), Home(hash, Span(path, start, end)), Span(path, start, end), id)
      ensures if id in old(Visible()) then entries == old(entries)
              else exists e :: entries == old(entries) + [(id, e)] && e.kind == SpanKind && e.line == line
      ensures id !in old(Visible()) ==> RecordsLine(id, line)
      ensures forall k :: k in old(Visible()) ==> k in Visible() && Visible()[k] == old(Visible())[k]
    {
      ghost var was := entries;
      id := InsertAnchor(FinishHash(hash.span(path, start, end)), SpanKind, path, start, end, line);
      assert id !in old(Visible()) ==> entries[|was|].0 == id && entries[|was|].1.line == line;
    }

    method MintLine(path: string, line: nat) returns (id: Id)
      requires Valid() && HasRoom(Visible())
      modifies this
      ensures Valid() && id in Visible() && Visible()[id] == LineOnly(path, 0, 0, line)
      ensures Placed(old(Visible()), Home(hash, LineOnly(path, 0, 0, line)), LineOnly(path, 0, 0, line), id)
      ensures if id in old(Visible()) then entries == old(entries)
              else exists e :: entries == old(entries) + [(id, e)] && e.kind == LineOnlyKind && e.line == line
      ensures forall k :: k in old(Visible()) ==> k in Visible() && Visible()[k] == old(Visible())[k]
    {
      id := InsertAnchor(FinishHash(hash.lineOnly(path, line)), LineOnlyKind, path, 0, 0, line);
    }

    /** One parent stands for itself; several, in order, share one id. */
    method CombineIds(parents: seq<Id>) returns (id: Id)
      requires Valid() && HasRoom(Visible()) && forall k :: 0 <= k < |parents| ==> parents[k] in Visible()
      modifies this`entries, this`index
      ensures Valid()
      ensures |parents| == 0 ==> id == 0
      ensures |parents| == 1 ==> id == parents[0]
      ensures |parents| >= 2 ==> id in Visible() && Visible()[id] == Combine(parents)
      ensures |parents| >= 2 ==> Placed(old(Visible()), Home(hash, Combine(parents)), Combine(parents), id)
      ensures forall k :: k in old(Visible()) ==> k in Visible() && Visible()[k] == old(Visible())[k]
    {
      if |parents| == 0 {
        return 0;
      }
      if |parents| == 1 {
        return parents[0];
      }
      id := InsertCombine(FinishHash(hash.combine(parents)), parents);
    }

    // ---------- resolution ----------

    /** The anchor is that of an id: it spells what the id stands for, with the line that was recorded. */
    ghost predicate IsAnchorOf(a: Anchor, id: Id)
      requires Valid()
      reads this
    {
      id in Visible() && Spells(a, Visible()[id]) && RecordsLine(id, a.line)
    }

    /** The anchor of a concrete entry. */
    function AnchorAt(id: Id): (a: Anchor)
      requires Valid() && id in Visible() && !Visible()[id].Combine?
      reads this
      ensures IsAnchorOf(a, id)
    {
      var (e, owner) := FindEntry(id).value;
      Anchor(owner[e.fileId].path, e.start, e.end, e.line, e.kind)
    }

    ghost predicate NoEmptyCombine()
      requires Valid()
      reads this
    {
      forall c :: c in Visible() && Visible()[c].Combine? ==> Visible()[c].parents != []
    }

    /** Follows first parents down to a concrete anchor. It gives up only at an id that resolves nowhere, is an empty combine, or
        leads back to itself. On a table without such ids it always arrives, at the primary anchor. */
    method Resolve(id0: Id, ghost rank: map<Id, nat>) returns (a: Option<Anchor>, ghost at: Id)
      requires Valid()
      ensures Reaches(Visible(), id0, at)
      ensures if a.Some? then IsAnchorOf(a.value, at)
              else at !in Visible() || (Visible()[at].Combine? && (Visible()[at].parents == [] || LeadsOn(Visible(), at, at)))
      ensures Ranked(Visible(), rank) && id0 in Visible() && NoEmptyCombine() ==>
                a.Some? && at == Primary(Visible(), rank, id0)
    {
      var visited: set<Id> := {};
      var id := id0;
      at := id0;
      ReachesSelf(Visible(), id0);
      ghost var fine := Ranked(Visible(), rank) && id0 in Visible() && NoEmptyCombine();
      while true
        invariant visited <= Visible().Keys && Reaches(Visible(), id0, id)
        invariant forall v {:trigger LeadsOn(Visible(), v, id)} :: v in visited ==> LeadsOn(Visible(), v, id)
        invariant fine ==> id in Visible() && Primary(Visible(), rank, id) == Primary(Visible(), rank, id0)
        invariant fine ==> forall v :: v in visited ==> rank[id] < rank[v]
        decreases Visible().Keys - visited
      {
        if id in visited {
          assert LeadsOn(Visible(), id, id);
          return None, id;
        }
        visited := visited + {id};
        var found := FindEntry(id);
        if found.None? || (found.value.0.kind.CombineKind? && found.value.0.parents == []) {
          return None, id;
        }
        if !found.value.0.kind.CombineKind? {
          return Some(AnchorAt(id)), id;
        }
        ghost var was := id;
        ReachesChild(Visible(), id0, id, 0);
        id := found.value.0.parents[0];
        AllLeadOn(Visible(), visited, was, id);
      }
    }

    /** The anchors of these ids, with the recorded lines. */
    ghost predicate AnchorsOfIds(anchors: seq<Anchor>, ids: seq<Id>)
      requires Valid()
      reads this
    {
      |anchors| == |ids| && forall k :: 0 <= k < |ids| ==> IsAnchorOf(anchors[k], ids[k])
    }

    /** Everything below an id, with an explicit stack, on any table, with dangling ids and cycles too. The anchors are
        those of different concrete ids below the given one; when nothing was cut off, of all of them. On a sound table the
        order is that of the recursive walk, and nothing is cut off within the depth limit. */
    method ResolveAllAnchors(id: Id, maxDepth: nat, ghost rank: map<Id, nat>)
      returns (anchors: seq<Anchor>, truncated: bool, ghost found: seq<Id>)
      requires Valid()
      ensures AnchorsOfIds(anchors, found) && forall k :: 0 <= k < |found| ==> Reaches(Visible(), id, found[k])
      ensures forall j, k :: 0 <= j < k < |found| ==> found[j] != found[k]
      ensures !truncated ==> forall c :: c in Visible() && !Visible()[c].Combine? && Reaches(Visible(), id, c) ==> c in found
      ensures !truncated && Ranked(Visible(), rank) && id in Visible() ==> found == ResolveAll(Visible(), rank, id)
      ensures Ranked(Visible(), rank) && id in Visible() && NoEmptyCombine() && rank[id] <= maxDepth ==> !truncated
    {
      anchors, truncated, found := [], false, [];
      var visited: set<Id> := {};
      var stack: seq<(Id, nat)> := [(id, 0)];
      ghost var view := Visible();
      SearchStarts(view, rank, id);
      while stack != []
        invariant AnchorsOfIds(anchors, found) && InSearch(view, rank, id, maxDepth, visited, found, stack, truncated)
        decreases view.Keys - visited, |stack|
      {
        visited, anchors, stack, truncated, found := Round(id, rank, maxDepth, visited, anchors, stack, truncated, found);
      }
      SearchEnds(view, rank, id, visited, found, truncated);
    }

    /** One round of the search: the top of the stack is taken off, and dealt with unless it was met before. */
    method Round(ghost id: Id, ghost rank: map<Id, nat>, maxDepth: nat, visited0: set<Id>, anchors0: seq<Anchor>, stack0: seq<(Id, nat)>,
                 truncated0: bool, ghost found0: seq<Id>)
      returns (visited: set<Id>, anchors: seq<Anchor>, stack: seq<(Id, nat)>, truncated: bool, ghost found: seq<Id>)
      requires Valid() && stack0 != [] && AnchorsOfIds(anchors0, found0)
      requires InSearch(Visible(), rank, id, maxDepth, visited0, found0, stack0, truncated0)
      ensures AnchorsOfIds(anchors, found) && InSearch(Visible(), rank, id, maxDepth, visited, found, stack, truncated)
      ensures Visible().Keys - visited < Visible().Keys - visited0
              || (Visible().Keys - visited == Visible().Keys - visited0 && |stack| < |stack0|)
    {
      var (cur, depth) := stack0[|stack0| - 1];
      ghost var view := Visible();
      visited, anchors, stack, truncated, found := visited0, anchors0, stack0[..|stack0| - 1], truncated0, found0;
      if cur in visited {
        SeenAgain(view, rank, id, maxDepth, visited, found, stack0, truncated);
        return;
      }
      var shown, pushed, cutOff, named := Expand(cur, depth, maxDepth);
      AnchorsJoin(anchors0, found0, shown, named);
      visited, anchors, stack, truncated, found := visited + {cur}, anchors + shown, stack + pushed, truncated || cutOff, found + named;
      NextInSearch(view, rank, id, maxDepth, visited0, found0, stack0, truncated0, visited, found, stack, truncated);
      assert cur in view || (pushed == [] && view.Keys - visited == view.Keys - visited0);
    }

    /** What the search does with an id that it meets for the first time: its anchor, or what is to be pushed, or that it is cut off. */
    method Expand(cur: Id, depth: nat, maxDepth: nat)
      returns (shown: seq<Anchor>, pushed: seq<(Id, nat)>, cutOff: bool, ghost named: seq<Id>)
      requires Valid()
      ensures cutOff <==> CutsOff(Visible(), cur, depth, maxDepth)
      ensures named == Concrete(Visible(), cur) && AnchorsOfIds(shown, named)
      ensures pushed == if cutOff then [] else Below(Visible(), cur, depth)
    {
      shown, pushed, cutOff, named := [], [], false, Concrete(Visible(), cur);
      var entry := FindEntry(cur);
      if entry.None? {
        cutOff := true;
      } else if !entry.value.0.kind.CombineKind? {
        shown := [AnchorAt(cur)];
      } else if depth >= maxDepth {
        cutOff := true;
      } else {
        pushed := PushParents([], entry.value.0.parents, depth);
      }
    }

    lemma {:induction false} AnchorsJoin(anchors: seq<Anchor>, ids: seq<Id>, more: seq<Anchor>, others: seq<Id>)
      requires Valid() && AnchorsOfIds(anchors, ids) && AnchorsOfIds(more, others)
      ensures AnchorsOfIds(anchors + more, ids + others)
    {
    }

    /** Pushes the parents so that the first one is on top. */
    method PushParents(stack0: seq<(Id, nat)>, parents: seq<Id>, depth: nat) returns (stack: seq<(Id, nat)>)
      ensures stack == stack0 + Pushed(parents, 0, depth + 1)
    {
      stack := stack0;
      var n: nat := |parents|;
      assert stack0 + [] == stack0;
      while n > 0
        invariant n <= |parents| && stack == stack0 + Pushed(parents, n, depth + 1)
      {
        n := n - 1;
        stack := stack + [(parents[n], depth + 1)];
      }
    }

    // ---------- eviction ----------

    /** Rebuilds the table without the given ids, keeping the order of the others. */
    method RemoveEntriesById(drop: set<Id>)
      requires Valid()
      modifies this`entries, this`index
      ensures Valid() && Own() == old(Own()) - drop && entries == Without(old(entries), drop)
    {
      if drop == {} {
        WithoutNothing(entries);
        return;
      }
      var kept := Kept(entries, drop);
      WithoutIndexed(entries, index, files, drop);
      var reindexed := Reindex(kept);
      WithoutView(entries, index, files, drop, kept, reindexed);
      entries, index := kept, reindexed;
    }

    static method Kept(entries: seq<(Id, Entry)>, drop: set<Id>) returns (kept: seq<(Id, Entry)>)
      ensures kept == Without(entries, drop)
    {
      kept := [];
      for i := 0 to |entries|
        invariant kept == Without(entries[..i], drop)
      {
        assert entries[..i + 1][..i] == entries[..i];
        if entries[i].0 !in drop {
          kept := kept + [entries[i]];
        }
      }
      assert entries[..|entries|] == entries;
    }

    static method Reindex(entries: seq<(Id, Entry)>) returns (index: map<Id, nat>)
      requires DistinctIds(entries)
      ensures Indexed(entries, index)
    {
      index := map[];
      for i := 0 to |entries|
        invariant forall id :: id in index ==> index[id] < i && entries[index[id]].0 == id
        invariant forall k :: 0 <= k < i ==> entries[k].0 in index && index[entries[k].0] == k
      {
        index := index[entries[i].0 := i];
      }
    }

    ghost function AnchorsOf(path: string): iset<Id>
      requires Valid()
      reads this
    {
      AnchorsOn(Own(), path)
    }

    /** Drops the anchors of one file and every combine that leads to one of them, and nothing else. */
    method EvictFileEntries(fid: nat)
      requires Valid() && fid < |files|
      modifies this`entries, this`index
      ensures Valid()
      ensures Own() == old(Own()) - set id | id in old(Own()) && Tainted(old(Own()), old(AnchorsOf(files[fid].path)), id)
    {
      ghost var own, targets := Own(), AnchorsOf(files[fid].path);
      var evicted: set<Id> := {};
      for i := 0 to |entries|
        invariant forall id :: id in evicted <==> exists k :: 0 <= k < i && entries[k].0 == id && id in targets
      {
        var (id, e) := entries[i];
        assert own[id] == PayloadOf(files, e);
        if !e.kind.CombineKind? && e.fileId == fid {
          evicted := evicted + {id};
        }
      }
      assert forall id :: id in evicted <==> id in targets by {
        forall id | id in targets
          ensures id in evicted
        {
          assert entries[index[id]].0 == id;
        }
      }
      if evicted == {} {
        NothingTainted(own, targets);
        RemoveEntriesById(evicted);
        return;
      }
      forall id | id in evicted
        ensures Tainted(own, targets, id)
      {
        ReachesSelf(own, id);
      }
      evicted := Cascade(evicted, targets, true);
      RemoveEntriesById(evicted);
    }

    /** Adds the combines that lead into the set until none is left; with `ownOnly` unset, a parent
        that resolves nowhere counts as being in the set. */
    method Cascade(seed: set<Id>, ghost targets: iset<Id>, ownOnly: bool) returns (grown: set<Id>)
      requires Valid() && (ownOnly ==> forall id :: id in targets ==> id in seed)
      requires !ownOnly ==> targets == (iset id: Id | id !in Visible())
      requires forall id :: id in seed ==> Tainted(Own(), targets, id)
      requires forall id :: id in targets && id in Own() ==> id in seed
      ensures grown == set id | id in Own() && Tainted(Own(), targets, id)
    {
      grown := seed;
      var grew := true;
      while grew
        invariant forall id :: id in grown ==> Tainted(Own(), targets, id)
        invariant seed <= grown
        invariant !grew ==> ClosedUpwards(Own(), targets, grown)
        decreases Own().Keys - grown, grew
      {
        grown, grew := CascadeOnce(seed, grown, targets, ownOnly);
      }
      forall id | id in Own() && Tainted(Own(), targets, id)
        ensures id in grown
      {
        var t :| t in targets && Reaches(Own(), id, t);
        var p :| Path(Own(), id, p, t);
        ClosedHoldsTainted(Own(), targets, grown, id, p, t);
      }
    }

    /** One pass over the entries. */
    method CascadeOnce(ghost seed: set<Id>, grown0: set<Id>, ghost targets: iset<Id>, ownOnly: bool)
      returns (grown: set<Id>, grew: bool)
      requires Valid() && (ownOnly ==> forall id :: id in targets ==> id in seed)
      requires !ownOnly ==> targets == (iset id: Id | id !in Visible())
      requires seed <= grown0 && forall id :: id in grown0 ==> Tainted(Own(), targets, id)
      ensures grown0 <= grown && forall id :: id in grown ==> Tainted(Own(), targets, id)
      ensures if grew then grown0 < grown else grown == grown0 && ClosedUpwards(Own(), targets, grown)
    {
      grown, grew := grown0, false;
      for i := 0 to |entries|
        invariant grown0 <= grown && forall id :: id in grown ==> Tainted(Own(), targets, id)
        invariant if grew then grown0 < grown else grown == grown0
        invariant !grew ==> forall j :: 0 <= j < i ==> EntryClosed(entries[j], targets, grown)
      {
        var more;
        grown, more := CascadeEntry(seed, i, grown, targets, ownOnly);
        grew := grew || more;
      }
      if !grew {
        EntriesClosed(entries, index, files, targets, grown);
      }
    }

    /** One entry: a combination with a tainted parent is tainted. */
    method CascadeEntry(ghost seed: set<Id>, i: nat, grown0: set<Id>, ghost targets: iset<Id>, ownOnly: bool)
      returns (grown: set<Id>, grew: bool)
      requires Valid() && i < |entries| && (ownOnly ==> forall id :: id in targets ==> id in seed)
      requires !ownOnly ==> targets == (iset id: Id | id !in Visible())
      requires seed <= grown0 && forall id :: id in grown0 ==> Tainted(Own(), targets, id)
      ensures grown0 <= grown && forall id :: id in grown ==> Tainted(Own(), targets, id)
      ensures if grew then grown0 < grown else grown == grown0 && EntryClosed(entries[i], targets, grown)
    {
      grown, grew := grown0, false;
      var (id, e) := entries[i];
      assert Own()[id] == PayloadOf(files, e);
      if !e.kind.CombineKind? || id in grown {
        return;
      }
      var k := TaintedAmong(e.parents, grown, targets, ownOnly);
      if k < |e.parents| {
        TaintedParent(Own(), targets, id, k);
        grown, grew := grown + {id}, true;
      }
    }

    /** The first parent that is tainted, if any. */
    method TaintedAmong(parents: seq<Id>, grown: set<Id>, ghost targets: iset<Id>, ownOnly: bool) returns (k: nat)
      requires Valid()
      requires if ownOnly then forall id :: id in targets ==> id in grown else targets == (iset id: Id | id !in Visible())
      ensures k <= |parents| && forall m :: 0 <= m < k ==> parents[m] !in grown && parents[m] !in targets
      ensures k < |parents| ==> parents[k] in grown || parents[k] in targets
    {
      k := 0;
      while k < |parents|
        invariant k <= |parents|
        invariant forall m :: 0 <= m < k ==> parents[m] !in grown && parents[m] !in targets
      {
        if parents[k] in grown || (!ownOnly && FindEntry(parents[k]).None?) {
          return;
        }
        k := k + 1;
      }
    }

    /** Drops every combine that leads to an id that resolves nowhere. */
    method PurgeUnresolvedCombines()
      requires Valid()
      modifies this`entries, this`index
      ensures Valid()
      ensures Own() == PurgedFrom(old(Own()), ChainView(base)) && Known() == old(Known())
      ensures AllResolve()
    {
      ghost var targets := Unresolved(Own(), ChainView(base));
      assert targets == iset id: Id | id !in Visible();
      ghost var own := Own();
      var dead := Cascade({}, targets, false);
      RemoveEntriesById(dead);
      LargestResolves(own, ChainView(base), Own());
    }

    // ---------- union merge ----------

    /** No combination of this table names an id that is nowhere. */
    ghost predicate AllResolve()
      requires Valid()
      reads this
    {
      Resolves(Own(), ChainView(base), Own().Keys)
    }

    /** Brings in the file list of a table. A newer version of a file drops what was minted on the old
        one; as long as all hashes speak of one version of each file nothing is dropped. */
    method FoldFiles(incoming: seq<File>, ghost versions: map<string, nat>) returns (evictedAny: bool)
      requires Valid()
      modifies this
      ensures Valid() && Visible().Keys <= old(Visible()).Keys
      ensures evictedAny <==> NewerAmong(incoming, |incoming|, old(Known()))
      ensures Known() == HashesAfter(old(Known()), incoming) && Own() == FoldedOwn(old(Own()), old(Known()), incoming, |incoming|)
      ensures OneVersion(old(files), versions) && OneVersion(incoming, versions) ==>
                !evictedAny && OneVersion(files, versions) && entries == old(entries) && Visible() == old(Visible())
    {
      evictedAny := false;
      ghost var was, own := Known(), Own();
      for i := 0 to |incoming|
        invariant Valid() && Visible().Keys <= old(Visible()).Keys && KnowsHashes(was, incoming, i)
        invariant (evictedAny <==> NewerAmong(incoming, i, was)) && Own() == FoldedOwn(own, was, incoming, i)
        invariant OneVersion(old(files), versions) && OneVersion(incoming, versions) ==>
                    !evictedAny && OneVersion(files, versions) && entries == old(entries) && Visible() == old(Visible())
      {
        var evicted := FoldNext(incoming, i, versions, was);
        NewerNext(incoming, i, was);
        evictedAny := evictedAny || evicted;
      }
    }

    /** The hashes on record are those known after the first n files. */
    ghost predicate KnowsHashes(was: imap<string, nat>, incoming: seq<File>, n: nat)
      requires Valid() && n <= |incoming|
      reads this
    {
      (forall p: string :: p in was) && forall p {:trigger HashAt(p)} :: HashAt(p) == HashBefore(was[p], incoming, n, p)
    }

    method FoldNext(incoming: seq<File>, i: nat, ghost versions: map<string, nat>, ghost was: imap<string, nat>) returns (evicted: bool)
      requires Valid() && i < |incoming| && KnowsHashes(was, incoming, i)
      modifies this
      ensures Valid() && Visible().Keys <= old(Visible()).Keys && KnowsHashes(was, incoming, i + 1)
      ensures incoming[i].path in was && (evicted <==> Newer(incoming, i, was[incoming[i].path]))
      ensures Own() == if evicted then EvictedFrom(old(Own()), incoming[i].path) else old(Own())
      ensures OneVersion(old(files), versions) && OneVersion(incoming, versions) ==>
                !evicted && OneVersion(files, versions) && entries == old(entries) && Visible() == old(Visible())
    {
      ghost var fine := OneVersion(files, versions) && OneVersion(incoming, versions);
      if fine {
        OneVersionAt(versions);
      }
      assert HashAt(incoming[i].path) == HashBefore(was[incoming[i].path], incoming, i, incoming[i].path);
      evicted := FoldFile(incoming[i]);
      if fine {
        VersionedFiles(versions);
      }
    }

    lemma {:induction false} OneVersionAt(versions: map<string, nat>)
      requires Valid() && OneVersion(files, versions)
      ensures forall p :: HashAt(p) != 0 ==> p in versions && versions[p] == HashAt(p)
    {
    }

    lemma {:induction false} VersionedFiles(versions: map<string, nat>)
      requires Valid() && forall p :: HashAt(p) != 0 ==> p in versions && versions[p] == HashAt(p)
      ensures OneVersion(files, versions)
    {
      forall k | 0 <= k < |files| && files[k].contentHash != 0
        ensures files[k].path in versions && versions[files[k].path] == files[k].contentHash
      {
        assert HashAt(files[k].path) == files[k].contentHash;
      }
    }

    /** Brings in one file. Two different content hashes for it drop what was minted on it, with every combine that leads there; the
        hash that comes in is on record afterwards. */
    method FoldFile(f: File) returns (evicted: bool)
      requires Valid()
      modifies this
      ensures Valid() && Visible().Keys <= old(Visible()).Keys
      ensures forall path :: HashAt(path) == if path == f.path && f.contentHash != 0 then f.contentHash else old(HashAt(path))
      ensures evicted <==> f.contentHash != 0 && old(HashAt(f.path)) != 0 && old(HashAt(f.path)) != f.contentHash
      ensures if evicted then Own() == old(Own()) - set id | id in old(Own()) && Tainted(old(Own()), old(AnchorsOf(f.path)), id)
              else Own() == old(Own()) && entries == old(entries)
    {
      var fid := InternFile(f.path);
      var mine := files[fid];
      assert mine.contentHash == HashAt(f.path);
      evicted := mine.contentHash != 0 && f.contentHash != 0 && mine.contentHash != f.contentHash;
      if evicted {
        EvictFileEntries(fid);
        SetHash(fid, f.contentHash);
      } else if mine.contentHash == 0 && f.contentHash != 0 {
        SetHash(fid, f.contentHash);
      }
    }

    method SetHash(fid: nat, contentHash: nat)
      requires Valid() && fid < |files|
      modifies this`files
      ensures Valid() && files == old(files)[fid := old(files)[fid].(contentHash := contentHash)]
      ensures Visible() == old(Visible()) && Own() == old(Own())
      ensures forall p :: HashAt(p) == if p == files[fid].path then contentHash else old(HashAt(p))
    {
      ViewUnderFiles(entries, index, files, files[fid := files[fid].(contentHash := contentHash)]);
      files := files[fid := files[fid].(contentHash := contentHash)];
    }

    /** Re-mints one entry of another table: parents are translated through the remap so far. */
    method MergeEntry(theirs: seq<File>, oid: Id, oe: Entry, remap0: map<Id, Id>) returns (nid: Id, remap: map<Id, Id>)
      requires Valid() && HasRoom(Visible()) && KnownFile(theirs, oe)
      modifies this
      ensures Valid() && FilesExtend(old(files), files)
      ensures nid in old(Visible()) ==> old(Visible())[nid] == RenamedPayload(remap0, PayloadOf(theirs, oe))
      ensures Visible() == old(Visible())[nid := RenamedPayload(remap0, PayloadOf(theirs, oe))]
      ensures remap == if nid != oid && oid !in remap0 then remap0[oid := nid] else remap0
      ensures if nid in old(Visible()) then entries == old(entries)
              else exists e :: entries == old(entries) + [(nid, e)] && e.kind == oe.kind && (oe.kind.CombineKind? || e.line == oe.line)
      ensures files == old(files) || exists path :: files == old(files) + [File(path, 0)]
      ensures Reminted(hash, ChainView(base), old(Own()), remap0, oid, PayloadOf(theirs, oe)) == (Own(), remap) && Known() == old(Known())
    {
      ghost var view, p := Visible(), RenamedPayload(remap0, PayloadOf(theirs, oe));
      nid := MergePayload(theirs, oe, remap0);
      PlacedThere(view, Home(hash, p), p, nid);
      remap := if nid != oid && oid !in remap0 then remap0[oid := nid] else remap0;
    }

    method MergePayload(theirs: seq<File>, oe: Entry, remap: map<Id, Id>) returns (nid: Id)
      requires Valid() && HasRoom(Visible()) && KnownFile(theirs, oe)
      modifies this
      ensures Valid() && FilesExtend(old(files), files) && Known() == old(Known())
      ensures nid in old(Visible()) ==> old(Visible())[nid] == RenamedPayload(remap, PayloadOf(theirs, oe))
      ensures var p := RenamedPayload(remap, PayloadOf(theirs, oe)); Placed(old(Visible()), Home(hash, p), p, nid)
      ensures Visible() == old(Visible())[nid := RenamedPayload(remap, PayloadOf(theirs, oe))]
      ensures Own() == if nid in old(Visible()) then old(Own()) else old(Own())[nid := RenamedPayload(remap, PayloadOf(theirs, oe))]
      ensures if nid in old(Visible()) then entries == old(entries)
              else exists e :: entries == old(entries) + [(nid, e)] && e.kind == oe.kind && (oe.kind.CombineKind? || e.line == oe.line)
      ensures files == old(files) || exists path :: files == old(files) + [File(path, 0)]
    {
      if oe.kind.CombineKind? {
        var parents := RenameParents(oe.parents, remap);
        nid := InsertCombine(FinishHash(hash.combine(parents)), parents);
      } else {
        nid := MergeAnchor(theirs, oe);
      }
    }

    method MergeAnchor(theirs: seq<File>, oe: Entry) returns (nid: Id)
      requires Valid() && HasRoom(Visible()) && KnownFile(theirs, oe) && !oe.kind.CombineKind?
      modifies this
      ensures Valid() && FilesExtend(old(files), files) && Known() == old(Known())
      ensures nid in old(Visible()) ==> old(Visible())[nid] == PayloadOf(theirs, oe)
      ensures Placed(old(Visible()), Home(hash, PayloadOf(theirs, oe)), PayloadOf(theirs, oe), nid)
      ensures Visible() == old(Visible())[nid := PayloadOf(theirs, oe)]
      ensures Own() == if nid in old(Visible()) then old(Own()) else old(Own())[nid := PayloadOf(theirs, oe)]
      ensures if nid in old(Visible()) then entries == old(entries)
              else exists e :: entries == old(entries) + [(nid, e)] && e.kind == oe.kind && e.line == oe.line
      ensures files == old(files) || exists path :: files == old(files) + [File(path, 0)]
    {
      var path := theirs[oe.fileId].path;
      var want := if oe.kind.SpanKind? then FinishHash(hash.span(path, oe.start, oe.end))
                  else FinishHash(hash.lineOnly(path, oe.line));
      nid := InsertAnchor(want, oe.kind, path, oe.start, oe.end, oe.line);
    }

    static method RenameParents(parents: seq<Id>, remap: map<Id, Id>) returns (renamed: seq<Id>)
      ensures renamed == RenamedAll(remap, parents)
    {
      renamed := [];
      for k := 0 to |parents|
        invariant renamed == RenamedAll(remap, parents)[..k]
      {
        renamed := renamed + [Renamed(remap, parents[k])];
      }
    }

    /** A merge in which nothing is superseded: every hash speaks of one version of each file. */
    ghost predicate Sound(theirs: seq<Table>, order: seq<(Id, Payload)>, versions: map<string, nat>,
                          done: View, remap: map<Id, Id>, was: View)
      requires Valid()
      reads this
    {
      && OneVersion(files, versions) && (forall k :: 0 <= k < |theirs| ==> OneVersion(theirs[k].files, versions))
      && InOrder(done, order) && Merging(done, remap, was, Visible())
    }

    /** Every anchor that was added has the line of an entry that came in under this name. */
    ghost predicate LinesCarried(from: nat, seen: seq<(Id, Entry)>, remap: map<Id, Id>)
      reads this`entries
    {
      AllLinesKnown(from, entries, seen, remap)
    }

    /** A sound merge, with what has arrived. */
    ghost predicate Arriving(order: seq<(Id, Payload)>, versions: map<string, nat>, done: View, remap: map<Id, Id>, was: View,
                             from: nat, seen: seq<(Id, Entry)>)
      requires Valid()
      reads this
    {
      Sound([], order, versions, done, remap, was) && LinesCarried(from, seen, remap) && Seen(seen, done)
    }

    /** What the table and the renaming become when the entries from the i-th on come in. */
    ghost function ToCome(theirs: Table, i: nat, remap: map<Id, Id>): (View, map<Id, Id>)
      requires Valid() && WellFormed(theirs) && i <= |theirs.entries|
      reads this
    {
      AllReminted(hash, ChainView(base), Own(), remap, Payloads(theirs)[i..])
    }

    lemma {:induction false} ToComeEnds(theirs: Table, own: View, remap0: map<Id, Id>, remap: map<Id, Id>)
      requires Valid() && WellFormed(theirs)
      requires AllReminted(hash, ChainView(base), own, remap0, Payloads(theirs)[0..]) == ToCome(theirs, |theirs.entries|, remap)
      ensures AllReminted(hash, ChainView(base), own, remap0, Payloads(theirs)) == (Own(), remap)
    {
      assert Payloads(theirs)[0..] == Payloads(theirs) && Payloads(theirs)[|theirs.entries|..] == [];
    }

    /** Re-mints the entries of one table in insertion order. */
    method MergeEntries(theirs: Table, remap0: map<Id, Id>, ghost versions: map<string, nat>, ghost done0: View, ghost was: View,
                        ghost from: nat, ghost seen: seq<(Id, Entry)>, ghost sound: bool)
      returns (remap: map<Id, Id>)
      requires Valid() && WellFormed(theirs) && |Visible()| + |theirs.entries| < ID_SPACE - 1
      requires sound ==> Arriving(Payloads(theirs), versions, done0, remap0, was, from, seen)
      modifies this
      ensures Valid() && |Visible()| <= |old(Visible())| + |theirs.entries|
      ensures old(ToCome(theirs, 0, remap0)) == ToCome(theirs, |theirs.entries|, remap) && Known() == old(Known())
      ensures sound ==>
                Arriving([], versions, After(done0, Payloads(theirs)), remap, was, from, seen + theirs.entries) && old(entries) <= entries
    {
      remap := remap0;
      ghost var done, all := done0, ToCome(theirs, 0, remap0);
      PayloadsBegin(theirs, seen);
      ghost var now := seen;
      for i := 0 to |theirs.entries|
        invariant Valid() && |Visible()| <= |old(Visible())| + i
        invariant ToCome(theirs, i, remap) == all && Known() == old(Known())
        invariant now == seen + theirs.entries[..i]
        invariant sound ==> Arriving(Payloads(theirs)[i..], versions, done, remap, was, from, now)
                            && After(done, Payloads(theirs)[i..]) == After(done0, Payloads(theirs)) && old(entries) <= entries
      {
        done, remap := MergeNext(theirs, i, remap, versions, done, was, from, now, sound);
        PrefixGrows(seen, theirs.entries, i);
        now := now + [theirs.entries[i]];
      }
      PayloadsEnd(theirs, done, seen);
    }

    method MergeNext(theirs: Table, i: nat, remap0: map<Id, Id>, ghost versions: map<string, nat>, ghost done0: View, ghost was: View,
                     ghost from: nat, ghost seen: seq<(Id, Entry)>, ghost sound: bool)
      returns (ghost done: View, remap: map<Id, Id>)
      requires Valid() && WellFormed(theirs) && i < |theirs.entries| && |Visible()| < ID_SPACE - 1
      requires sound ==> Arriving(Payloads(theirs)[i..], versions, done0, remap0, was, from, seen)
      modifies this
      ensures Valid() && |Visible()| <= |old(Visible())| + 1 && Known() == old(Known())
      ensures ToCome(theirs, i + 1, remap) == old(ToCome(theirs, i, remap0))
      ensures sound ==> Arriving(Payloads(theirs)[i + 1..], versions, done, remap, was, from, seen + [theirs.entries[i]])
                        && old(entries) <= entries && After(done, Payloads(theirs)[i + 1..]) == After(done0, Payloads(theirs)[i..])
    {
      var (oid, oe) := theirs.entries[i];
      ghost var p := PayloadOf(theirs.files, oe);
      HeadAndRest(Payloads(theirs), i);
      AfterFirst(done0, Payloads(theirs)[i..], oid, p, Payloads(theirs)[i + 1..]);
      RoomBySize(Visible());
      RemintedNext(hash, ChainView(base), Own(), remap0, Payloads(theirs), i);
      var nid;
      nid, remap := MergeEntry(theirs.files, oid, oe, remap0);
      done := done0[oid := p];
      if sound {
        FirstArrives(done0, Payloads(theirs)[i..], oid, p, Payloads(theirs)[i + 1..]);
        MergeStep(done0, remap0, was, old(Visible()), oid, p, nid);
        LinesStep(from, seen, remap0, remap, old(entries), entries, oid, oe, nid, done0, p);
        if files != old(files) {
          var path :| files == old(files) + [File(path, 0)];
          OneVersionAdded(old(files), path, versions);
        }
      }
    }

    /** One table: its files, its entries, and after an eviction the combines left dangling. */
    method MergeLevel(theirs: Table, remap0: map<Id, Id>, ghost versions: map<string, nat>, ghost done0: View, ghost was: View,
                      ghost from: nat, ghost seen: seq<(Id, Entry)>, ghost sound: bool)
      returns (remap: map<Id, Id>)
      requires Valid() && WellFormed(theirs) && |Visible()| + |theirs.entries| < ID_SPACE - 1
      requires sound ==> OneVersion(theirs.files, versions) && Arriving(Payloads(theirs), versions, done0, remap0, was, from, seen)
      modifies this
      ensures Valid() && |Visible()| <= |old(Visible())| + |theirs.entries|
      ensures LevelMerged(hash, ChainView(base), old(Own()), old(Known()), remap0, theirs.files, Payloads(theirs)) == (Own(), remap)
      ensures Known() == HashesAfter(old(Known()), theirs.files)
      ensures sound ==>
                Arriving([], versions, After(done0, Payloads(theirs)), remap, was, from, seen + theirs.entries) && old(entries) <= entries
    {
      var evictedAny := FoldFiles(theirs.files, versions);
      SubsetSize(Visible().Keys, old(Visible()).Keys);
      ghost var folded := Own();
      assert ToCome(theirs, 0, remap0) == AllReminted(hash, ChainView(base), folded, remap0, Payloads(theirs)[0..]);
      remap := MergeEntries(theirs, remap0, versions, done0, was, from, seen, sound);
      ToComeEnds(theirs, folded, remap0, remap);
      if evictedAny {
        Purge();
      }
    }

    method Purge()
      requires Valid()
      modifies this`entries, this`index
      ensures Valid() && Own() == PurgedFrom(old(Own()), ChainView(base)) && Known() == old(Known()) && |Visible()| <= old(|Visible()|)
    {
      ghost var before := Visible();
      PurgeUnresolvedCombines();
      SubsetSize(Visible().Keys, before.Keys);
    }

    /** The tables behind first, then the table itself. */
    method MergeInto(theirs: seq<Table>, remap0: map<Id, Id>, ghost versions: map<string, nat>, ghost done0: View, ghost was: View,
                     ghost from: nat, ghost sound: bool)
      returns (remap: map<Id, Id>)
      requires Valid() && AllWellFormed(theirs) && |Visible()| + TotalEntries(theirs) < ID_SPACE - 1
      requires sound ==> Sound(theirs, MergeOrder(theirs), versions, done0, remap0, was) && LinesCarried(from, [], remap0)
      modifies this
      ensures Valid() && |Visible()| <= |old(Visible())| + TotalEntries(theirs)
      ensures ChainMerged(hash, ChainView(base), old(Own()), old(Known()), remap0, theirs) == (Own(), remap, Known())
      ensures sound ==>
                Arriving([], versions, After(done0, MergeOrder(theirs)), remap, was, from, EntriesOf(theirs)) && old(entries) <= entries
      decreases |theirs|
    {
      if theirs == [] {
        return remap0;
      }
      var front, behind := theirs[0], theirs[1..];
      AfterConcat(done0, MergeOrder(behind), Payloads(front));
      assert sound ==> OneVersion(theirs[0].files, versions);
      remap := MergeInto(behind, remap0, versions, done0, was, from, sound);
      remap := MergeLevel(front, remap, versions, After(done0, MergeOrder(behind)), was, from, EntriesOf(behind), sound);
    }

    /** Union of another locator, given with the tables behind it, into this one. `shared` are the
        entries both see because the other is chained on this one. When the other is closed (parents
        arrive before the combines that name them, under fresh ids) and all content hashes speak of
        one version of each file, every id the other sees is carried over under its new name, and
        every id seen before keeps its payload and its recorded line. A new anchor records the line of the entry it came from. */
    method Merge(theirs: seq<Table>, ghost shared: View, ghost versions: map<string, nat>) returns (remap: map<Id, Id>)
      requires Valid() && AllWellFormed(theirs) && |Visible()| + TotalEntries(theirs) < ID_SPACE - 1
      modifies this
      ensures Valid()
      ensures ChainMerged(hash, ChainView(base), old(Own()), old(Known()), map[], theirs) == (Own(), remap, Known())
      ensures old(Mergeable(theirs, shared, versions)) ==>
                Merging(After(shared, MergeOrder(theirs)), remap, old(Visible()), Visible()) && old(entries) <= entries
                && LinesCarried(|old(entries)|, EntriesOf(theirs), remap) && Seen(EntriesOf(theirs), After(shared, MergeOrder(theirs)))
    {
      ghost var fine := Mergeable(theirs, shared, versions);
      if fine {
        MergingStarts(shared, Visible());
      }
      remap := MergeInto(theirs, map[], versions, shared, Visible(), |entries|, fine);
    }

    ghost predicate Mergeable(theirs: seq<Table>, shared: View, versions: map<string, nat>)
      requires Valid() && AllWellFormed(theirs)
      reads this
    {
      && Acyclic(Visible())
      && Extends(shared, Visible()) && (forall id :: id in shared ==> ParentsIn(shared[id], shared))
      && InOrder(shared, MergeOrder(theirs))
      && OneVersion(files, versions) && (forall k :: 0 <= k < |theirs| ==> OneVersion(theirs[k].files, versions))
    }
  }

  lemma {:induction false} PayloadsBegin(theirs: Table, seen: seq<(Id, Entry)>)
    requires WellFormed(theirs)
    ensures Payloads(theirs)[0..] == Payloads(theirs) && seen + theirs.entries[..0] == seen
  {
  }

  lemma {:induction false} PayloadsEnd(theirs: Table, done: View, seen: seq<(Id, Entry)>)
    requires WellFormed(theirs)
    ensures Payloads(theirs)[|theirs.entries|..] == [] && After(done, Payloads(theirs)[|theirs.entries|..]) == done
    ensures seen + theirs.entries[..|theirs.entries|] == seen + theirs.entries
  {
    assert theirs.entries[..|theirs.entries|] == theirs.entries;
  }

  function TotalEntries(chain: seq<Table>): nat
  {
    if chain == [] then 0 else TotalEntries(chain[1..]) + |chain[0].entries|
  }

  /** An entry of the source that arrived as this entry of the destination. */
  predicate CameFrom(x: (Id, Entry), y: (Id, Entry), remap: map<Id, Id>)
  {
    Renamed(remap, x.0) == y.0 && x.1.kind == y.1.kind && x.1.line == y.1.line
  }

  ghost predicate LineKnown(y: (Id, Entry), seen: seq<(Id, Entry)>, remap: map<Id, Id>)
  {
    !y.1.kind.CombineKind? ==> exists i :: 0 <= i < |seen| && CameFrom(seen[i], y, remap)
  }

  ghost predicate AllLinesKnown(from: nat, entries: seq<(Id, Entry)>, seen: seq<(Id, Entry)>, remap: map<Id, Id>)
  {
    from <= |entries| && forall k {:trigger LineKnown(entries[k], seen, remap)} :: from <= k < |entries| ==> LineKnown(entries[k], seen, remap)
  }

  /** Entries with different ids, all of which have arrived. */
  ghost predicate Seen(seen: seq<(Id, Entry)>, done: View)
  {
    (forall i :: 0 <= i < |seen| ==> seen[i].0 in done) && DistinctIds(seen)
  }

  /** The entries of a chain, in the order in which they are merged. */
  function EntriesOf(chain: seq<Table>): seq<(Id, Entry)>
  {
    if chain == [] then [] else EntriesOf(chain[1..]) + chain[0].entries
  }

  /** One more entry arrives, under a new name or one that is there. */
  lemma {:induction false} LinesStep(from: nat, seen: seq<(Id, Entry)>, remap0: map<Id, Id>, remap: map<Id, Id>,
                                     was: seq<(Id, Entry)>, now: seq<(Id, Entry)>, oid: Id, oe: Entry, nid: Id, done: View, p: Payload)
    requires AllLinesKnown(from, was, seen, remap0) && Seen(seen, done) && oid !in done && oid !in remap0
    requires now == was || exists e :: now == was + [(nid, e)] && e.kind == oe.kind && (oe.kind.CombineKind? || e.line == oe.line)
    requires remap == if nid != oid then remap0[oid := nid] else remap0
    ensures AllLinesKnown(from, now, seen + [(oid, oe)], remap)
    ensures Seen(seen + [(oid, oe)], done[oid := p])
  {
    var more := seen + [(oid, oe)];
    forall k | from <= k < |now|
      ensures LineKnown(now[k], more, remap)
    {
      if k < |was| {
        assert LineKnown(was[k], seen, remap0);
        if !was[k].1.kind.CombineKind? {
          var i :| 0 <= i < |seen| && CameFrom(seen[i], was[k], remap0);
          assert CameFrom(more[i], now[k], remap);
        }
      } else if !oe.kind.CombineKind? {
        assert CameFrom(more[|seen|], now[k], remap);
      }
    }
  }

  /** When the source names nothing twice, the anchor that an id becomes has the line that the destination recorded before, or else
      the line that the source recorded. */
  lemma {:induction false} MergeKeepsLines(source: View, rank: map<Id, nat>, remap: map<Id, Id>, now: View, seen: seq<(Id, Entry)>,
                                           from: nat, entries: seq<(Id, Entry)>, i: nat, k: nat)
    requires Ranked(source, rank) && PayloadUnique(source) && Carries(source, remap, now) && Seen(seen, source)
    requires AllLinesKnown(from, entries, seen, remap)
    requires i < |seen| && from <= k < |entries| && entries[k].0 == Renamed(remap, seen[i].0) && !entries[k].1.kind.CombineKind?
    ensures entries[k].1.line == seen[i].1.line && entries[k].1.kind == seen[i].1.kind
  {
    assert LineKnown(entries[k], seen, remap);
    var j :| 0 <= j < |seen| && CameFrom(seen[j], entries[k], remap);
    RenamingInjective(source, rank, remap, now, seen[i].0, seen[j].0);
    assert i == j;
  }

  /** The order in which a chain of tables is merged: the farthest first. */
  function MergeOrder(chain: seq<Table>): seq<(Id, Payload)>
    requires AllWellFormed(chain)
  {
    if chain == [] then [] else MergeOrder(chain[1..]) + Payloads(chain[0])
  }

  /** What a successful merge means: every id of the source, renamed, resolves to the same anchors in
      the same order, and every id of the destination resolves as before. */
  lemma {:induction false} MergeKeepsMeaning(source: View, remap: map<Id, Id>, was: View, now: View,
                                             rankS: map<Id, nat>, rankW: map<Id, nat>, rankN: map<Id, nat>)
    requires Merging(source, remap, was, now) && PayloadUnique(source)
    requires Ranked(source, rankS) && Ranked(was, rankW) && Ranked(now, rankN)
    ensures forall id :: id in source ==>
              var r, r2 := ResolveAll(source, rankS, id), ResolveAll(now, rankN, Renamed(remap, id));
              |r2| == |r| && forall k :: 0 <= k < |r| ==> r[k] in source && r2[k] in now && now[r2[k]] == source[r[k]]
    ensures forall id :: id in was ==> ResolveAll(now, rankN, id) == ResolveAll(was, rankW, id)
  {
    forall id | id in source
      ensures var r, r2 := ResolveAll(source, rankS, id), ResolveAll(now, rankN, Renamed(remap, id));
              |r2| == |r| && forall k :: 0 <= k < |r| ==> r[k] in source && r2[k] in now && now[r2[k]] == source[r[k]]
    {
      RenamingKeepsMeaning(source, rankS, remap, now, rankN, id);
    }
    forall id | id in was
      ensures ResolveAll(now, rankN, id) == ResolveAll(was, rankW, id)
    {
      ExtendingKeepsMeaning(was, rankW, now, rankN, id);
    }
  }

  /** A table's entries by meaning, in insertion order. */
  function Payloads(t: Table): (r: seq<(Id, Payload)>)
    requires WellFormed(t)
    ensures |r| == |t.entries|
    ensures forall k :: 0 <= k < |r| ==> r[k] == (t.entries[k].0, PayloadOf(t.files, t.entries[k].1))
  {
    seq(|t.entries|, k requires 0 <= k < |t.entries| => (t.entries[k].0, PayloadOf(t.files, t.entries[k].1)))
  }

  lemma {:induction false} PrefixGrows<T>(a: seq<T>, b: seq<T>, i: nat)
    requires i < |b|
    ensures a + b[..i] + [b[i]] == a + b[..i + 1]
  {
  }

  lemma {:induction false} HeadAndRest<T>(s: seq<T>, i: nat)
    requires i < |s|
    ensures s[i..] == [s[i]] + s[i + 1..]
  {
  }

  lemma {:induction false} OneVersionAdded(files: seq<File>, path: string, versions: map<string, nat>)
    requires OneVersion(files, versions)
    ensures OneVersion(files + [File(path, 0)], versions)
  {
  }

  /** All nonzero content hashes speak of one version of each file. */
  ghost predicate OneVersion(files: seq<File>, versions: map<string, nat>)
  {
    forall i :: 0 <= i < |files| && files[i].contentHash != 0 ==>
      files[i].path in versions && versions[files[i].path] == files[i].contentHash
  }

  /** The entries whose id is not dropped, in order. */
  function Without(entries: seq<(Id, Entry)>, drop: set<Id>): seq<(Id, Entry)>
  {
    if entries == [] then []
    else
      var init := Without(entries[..|entries| - 1], drop);
      if entries[|entries| - 1].0 in drop then init else init + [entries[|entries| - 1]]
  }

  lemma {:induction false} WithoutNothing(entries: seq<(Id, Entry)>)
    ensures Without(entries, {}) == entries
  {
    if entries != [] {
      WithoutNothing(entries[..|entries| - 1]);
    }
  }

  lemma {:induction false} WithoutMembers(entries: seq<(Id, Entry)>, drop: set<Id>)
    ensures forall x :: x in Without(entries, drop) <==> x in entries && x.0 !in drop
  {
    if entries != [] {
      WithoutMembers(entries[..|entries| - 1], drop);
      assert entries == entries[..|entries| - 1] + [entries[|entries| - 1]];
    }
  }

  predicate DistinctIds(entries: seq<(Id, Entry)>)
  {
    forall i, j :: 0 <= i < j < |entries| ==> entries[i].0 != entries[j].0
  }

  lemma {:induction false} DistinctExtended(init: seq<(Id, Entry)>, x: (Id, Entry))
    requires DistinctIds(init) && forall y :: y in init ==> y.0 != x.0
    ensures DistinctIds(init + [x])
  {
    var r := init + [x];
    forall i, j | 0 <= i < j < |r|
      ensures r[i].0 != r[j].0
    {
      assert r[i] == init[i] && r[i] in init;
    }
  }

  lemma {:induction false} WithoutDistinct(entries: seq<(Id, Entry)>, drop: set<Id>)
    requires DistinctIds(entries)
    ensures DistinctIds(Without(entries, drop))
  {
    if entries != [] {
      var n := |entries| - 1;
      WithoutDistinct(entries[..n], drop);
      WithoutMembers(entries[..n], drop);
      var init := Without(entries[..n], drop);
      forall y | y in init
        ensures y.0 != entries[n].0
      {
        var j :| 0 <= j < n && entries[..n][j] == y;
        assert entries[j].0 != entries[n].0;
      }
      DistinctExtended(init, entries[n]);
    }
  }

  lemma {:induction false} WithoutIndexed(entries: seq<(Id, Entry)>, index: map<Id, nat>, files: seq<File>, drop: set<Id>)
    requires Indexed(entries, index) && KnownFiles(entries, files)
    ensures var r := Without(entries, drop);
            && KnownFiles(r, files)
            && DistinctIds(r)
            && (forall i :: 0 <= i < |r| ==> r[i].0 in index)
  {
    WithoutMembers(entries, drop);
    WithoutDistinct(entries, drop);
    var r := Without(entries, drop);
    forall i | 0 <= i < |r|
      ensures KnownFile(files, r[i].1) && r[i].0 in index
    {
      assert r[i] in r;
      assert r[i] in entries;
    }
  }

  lemma {:induction false} WithoutView(entries: seq<(Id, Entry)>, index: map<Id, nat>, files: seq<File>, drop: set<Id>,
                                       entries2: seq<(Id, Entry)>, index2: map<Id, nat>)
    requires Indexed(entries, index) && KnownFiles(entries, files)
    requires entries2 == Without(entries, drop) && Indexed(entries2, index2) && KnownFiles(entries2, files)
    ensures TableView(entries2, index2, files) == TableView(entries, index, files) - drop
  {
    WithoutMembers(entries, drop);
    forall id
      ensures id in index2 <==> id in index && id !in drop
      ensures id in index2 ==> entries2[index2[id]] == entries[index[id]]
    {
      if id in index2 {
        assert entries2[index2[id]] in entries2;
      }
      if id in index && id !in drop {
        assert entries[index[id]] in entries;
        assert entries[index[id]] in entries2;
      }
    }
  }

  lemma {:induction false} NothingTainted(view: View, targets: iset<Id>)
    requires forall id :: id !in targets
    ensures forall id :: !Tainted(view, targets, id)
  {
  }

  // ---------- a search with a stack ----------

  /** The parents from the n-th on, the last one lowest. */
  function Pushed(parents: seq<Id>, n: nat, depth: nat): seq<(Id, nat)>
    requires n <= |parents|
    decreases |parents| - n
  {
    if n == |parents| then [] else Pushed(parents, n + 1, depth) + [(parents[n], depth)]
  }

  lemma {:induction false} PushedHas(parents: seq<Id>, n: nat, depth: nat)
    requires n <= |parents|
    ensures |Pushed(parents, n, depth)| == |parents| - n
    ensures forall k :: 0 <= k < |parents| - n ==> Pushed(parents, n, depth)[k] == (parents[|parents| - 1 - k], depth)
    decreases |parents| - n
  {
    if n < |parents| {
      PushedHas(parents, n + 1, depth);
    }
  }

  ghost predicate OnStack(stack: seq<(Id, nat)>, id: Id)
  {
    exists k :: 0 <= k < |stack| && stack[k].0 == id
  }

  /** What was found, and what is still to be looked at, all lies below the root, and the root is not forgotten. */
  ghost predicate Searched(view: View, root: Id, visited: set<Id>, found: seq<Id>, stack: seq<(Id, nat)>)
  {
    Recorded(view, Walk(visited, found)) && (forall v :: v in visited ==> Reaches(view, root, v))
    && (forall k :: 0 <= k < |stack| ==> Reaches(view, root, stack[k].0))
    && (root in visited || OnStack(stack, root))
  }

  /** The parents of what was visited are visited, or on the stack. */
  ghost predicate Closing(view: View, visited: set<Id>, stack: seq<(Id, nat)>)
  {
    forall v, k :: v in visited && v in view && view[v].Combine? && 0 <= k < |view[v].parents| ==>
      view[v].parents[k] in visited || OnStack(stack, view[v].parents[k])
  }

  /** What holds between two rounds of the search. */
  ghost predicate Searching(view: View, root: Id, visited: set<Id>, found: seq<Id>, stack: seq<(Id, nat)>, truncated: bool)
  {
    Searched(view, root, visited, found, stack) && (!truncated ==> Closing(view, visited, stack))
  }

  /** What holds beside it on a sound table: what was found and what is on the stack add up to the recursive walk. */
  ghost predicate Walking(view: View, rank: map<Id, nat>, root: Id, visited: set<Id>, found: seq<Id>, stack: seq<(Id, nat)>, truncated: bool)
  {
    Ranked(view, rank) && root in view ==>
      Affordable(view, rank, rank[root], stack) && (!truncated ==> Ordered(view, rank, root, visited, found, stack))
  }

  lemma {:induction false} SearchStarts(view: View, rank: map<Id, nat>, root: Id)
    ensures Searching(view, root, {}, [], [(root, 0)], false) && Walking(view, rank, root, {}, [], [(root, 0)], false)
  {
    ReachesSelf(view, root);
    assert [(root, 0)][0].0 == root;
    if Ranked(view, rank) && root in view {
      OrderedStarts(view, rank, root);
    }
  }

  lemma {:induction false} BelowTop(stack: seq<(Id, nat)>)
    requires stack != []
    ensures forall id :: OnStack(stack, id) ==> id == stack[|stack| - 1].0 || OnStack(stack[..|stack| - 1], id)
  {
    var rest := stack[..|stack| - 1];
    forall id | OnStack(stack, id)
      ensures id == stack[|stack| - 1].0 || OnStack(rest, id)
    {
      var k :| 0 <= k < |stack| && stack[k].0 == id;
      if k < |rest| {
        assert rest[k].0 == id;
      }
    }
  }

  /** The top of the stack was visited before. */
  lemma {:induction false} TopSeen(view: View, root: Id, visited: set<Id>, found: seq<Id>, stack: seq<(Id, nat)>, truncated: bool)
    requires stack != [] && Searching(view, root, visited, found, stack, truncated) && stack[|stack| - 1].0 in visited
    ensures Searching(view, root, visited, found, stack[..|stack| - 1], truncated)
  {
    BelowTop(stack);
  }

  lemma {:induction false} WalkSeen(view: View, rank: map<Id, nat>, root: Id, visited: set<Id>, found: seq<Id>, stack: seq<(Id, nat)>, truncated: bool)
    requires stack != [] && Walking(view, rank, root, visited, found, stack, truncated) && stack[|stack| - 1].0 in visited
    ensures Walking(view, rank, root, visited, found, stack[..|stack| - 1], truncated)
  {
  }

  /** The top of the stack resolves nowhere, or is not expanded. */
  lemma {:induction false} TopDangles(view: View, root: Id, visited: set<Id>, found: seq<Id>, stack: seq<(Id, nat)>, truncated: bool)
    requires stack != [] && Searching(view, root, visited, found, stack, truncated)
    requires stack[|stack| - 1].0 !in visited && (stack[|stack| - 1].0 !in view || view[stack[|stack| - 1].0].Combine?)
    ensures Searching(view, root, visited + {stack[|stack| - 1].0}, found, stack[..|stack| - 1], true)
  {
    BelowTop(stack);
  }

  /** On a sound table, the top of the stack resolves and was affordable. */
  lemma {:induction false} WalkStops(view: View, rank: map<Id, nat>, root: Id, visited: set<Id>, found: seq<Id>, stack: seq<(Id, nat)>, truncated: bool)
    requires stack != [] && Walking(view, rank, root, visited, found, stack, truncated)
    ensures Walking(view, rank, root, visited + {stack[|stack| - 1].0}, found, stack[..|stack| - 1], true)
    ensures Ranked(view, rank) && root in view ==>
              var (cur, depth) := stack[|stack| - 1];
              cur in view && depth + rank[cur] <= rank[root] && (view[cur].Combine? && view[cur].parents != [] ==> rank[cur] > 0)
  {
    var cur := stack[|stack| - 1].0;
    if Ranked(view, rank) && root in view && view[cur].Combine? && view[cur].parents != [] {
      assert rank[view[cur].parents[0]] < rank[cur];
    }
  }

  /** The top of the stack is an anchor. */
  lemma {:induction false} TopFound(view: View, root: Id, visited: set<Id>, found: seq<Id>, stack: seq<(Id, nat)>, truncated: bool)
    requires stack != [] && Searching(view, root, visited, found, stack, truncated)
    requires stack[|stack| - 1].0 !in visited && stack[|stack| - 1].0 in view && !view[stack[|stack| - 1].0].Combine?
    ensures Searching(view, root, visited + {stack[|stack| - 1].0}, found + [stack[|stack| - 1].0], stack[..|stack| - 1], truncated)
  {
    BelowTop(stack);
  }

  lemma {:induction false} WalkFound(view: View, rank: map<Id, nat>, root: Id, visited: set<Id>, found: seq<Id>, stack: seq<(Id, nat)>, truncated: bool)
    requires stack != [] && Walking(view, rank, root, visited, found, stack, truncated)
    requires stack[|stack| - 1].0 !in visited && stack[|stack| - 1].0 in view && !view[stack[|stack| - 1].0].Combine?
    ensures Walking(view, rank, root, visited + {stack[|stack| - 1].0}, found + [stack[|stack| - 1].0], stack[..|stack| - 1], truncated)
  {
  }

  /** The top of the stack is a combine: its parents take its place. */
  lemma {:induction false} TopExpands(view: View, root: Id, visited: set<Id>, found: seq<Id>, stack: seq<(Id, nat)>, truncated: bool)
    requires stack != [] && Searching(view, root, visited, found, stack, truncated)
    requires stack[|stack| - 1].0 !in visited && stack[|stack| - 1].0 in view && view[stack[|stack| - 1].0].Combine?
    ensures
      var (cur, depth) := stack[|stack| - 1];
      Searching(view, root, visited + {cur}, found, stack[..|stack| - 1] + Pushed(view[cur].parents, 0, depth + 1), truncated)
  {
    var (cur, depth) := stack[|stack| - 1];
    TopDangles(view, root, visited, found, stack, truncated);
    SearchedMore(view, root, visited + {cur}, found, stack[..|stack| - 1], cur, depth + 1);
    if !truncated {
      ClosingExpands(view, visited, stack, depth + 1);
    }
  }

  lemma {:induction false} WalkExpands(view: View, rank: map<Id, nat>, root: Id, visited: set<Id>, found: seq<Id>, stack: seq<(Id, nat)>, truncated: bool)
    requires stack != [] && Walking(view, rank, root, visited, found, stack, truncated)
    requires stack[|stack| - 1].0 !in visited && stack[|stack| - 1].0 in view && view[stack[|stack| - 1].0].Combine?
    ensures
      var (cur, depth) := stack[|stack| - 1];
      Walking(view, rank, root, visited + {cur}, found, stack[..|stack| - 1] + Pushed(view[cur].parents, 0, depth + 1), truncated)
  {
    if Ranked(view, rank) && root in view {
      var (cur, depth) := stack[|stack| - 1];
      PushedAffordable(view, rank, rank[root], stack[..|stack| - 1], cur, depth);
      if !truncated {
        OrderedExpands(view, rank, root, visited, found, stack, depth + 1);
      }
    }
  }

  lemma {:induction false} SearchedMore(view: View, root: Id, visited: set<Id>, found: seq<Id>, stack: seq<(Id, nat)>, cur: Id, depth: nat)
    requires Searched(view, root, visited, found, stack) && cur in visited && cur in view && view[cur].Combine?
    ensures Searched(view, root, visited, found, stack + Pushed(view[cur].parents, 0, depth))
  {
    AboveKept(stack, view[cur].parents, depth);
    ParentsReached(view, root, stack, cur, depth);
  }

  lemma {:induction false} ClosingExpands(view: View, visited: set<Id>, stack: seq<(Id, nat)>, depth: nat)
    requires stack != [] && Closing(view, visited, stack) && stack[|stack| - 1].0 in view && view[stack[|stack| - 1].0].Combine?
    ensures
      var cur := stack[|stack| - 1].0;
      Closing(view, visited + {cur}, stack[..|stack| - 1] + Pushed(view[cur].parents, 0, depth))
  {
    BelowTop(stack);
    AboveKept(stack[..|stack| - 1], view[stack[|stack| - 1].0].parents, depth);
  }

  lemma {:induction false} AboveKept(stack: seq<(Id, nat)>, parents: seq<Id>, depth: nat)
    ensures forall id :: OnStack(stack, id) ==> OnStack(stack + Pushed(parents, 0, depth), id)
    ensures forall k :: 0 <= k < |parents| ==> OnStack(stack + Pushed(parents, 0, depth), parents[k])
  {
    var more := stack + Pushed(parents, 0, depth);
    PushedHas(parents, 0, depth);
    forall id | OnStack(stack, id)
      ensures OnStack(more, id)
    {
      var k :| 0 <= k < |stack| && stack[k].0 == id;
      assert more[k].0 == id;
    }
    forall k | 0 <= k < |parents|
      ensures OnStack(more, parents[k])
    {
      assert more[|stack| + (|parents| - 1 - k)].0 == parents[k];
    }
  }

  lemma {:induction false} ParentsReached(view: View, root: Id, stack: seq<(Id, nat)>, cur: Id, depth: nat)
    requires cur in view && view[cur].Combine? && Reaches(view, root, cur) && forall k :: 0 <= k < |stack| ==> Reaches(view, root, stack[k].0)
    ensures var more := stack + Pushed(view[cur].parents, 0, depth); forall k :: 0 <= k < |more| ==> Reaches(view, root, more[k].0)
  {
    var parents := view[cur].parents;
    var more := stack + Pushed(parents, 0, depth);
    PushedHas(parents, 0, depth);
    forall k | 0 <= k < |more|
      ensures Reaches(view, root, more[k].0)
    {
      if k >= |stack| {
        ReachesChild(view, root, cur, |parents| - 1 - (k - |stack|));
      }
    }
  }

  /** A sound table whose ids are all within the limit. */
  ghost predicate WithinLimit(view: View, rank: map<Id, nat>, root: Id, maxDepth: nat)
  {
    Ranked(view, rank) && root in view && rank[root] <= maxDepth && forall c :: c in view && view[c].Combine? ==> view[c].parents != []
  }

  predicate CutsOff(view: View, cur: Id, depth: nat, maxDepth: nat)
  {
    cur !in view || (view[cur].Combine? && depth >= maxDepth)
  }

  function Concrete(view: View, cur: Id): seq<Id>
  {
    if cur in view && !view[cur].Combine? then [cur] else []
  }

  /** What is pushed for a combine. */
  function Below(view: View, cur: Id, depth: nat): seq<(Id, nat)>
    requires cur in view
  {
    if view[cur].Combine? then Pushed(view[cur].parents, 0, depth + 1) else []
  }

  /** Both, and within the limit nothing was cut off. */
  ghost predicate InSearch(view: View, rank: map<Id, nat>, root: Id, maxDepth: nat, visited: set<Id>, found: seq<Id>, stack: seq<(Id, nat)>, truncated: bool)
  {
    Searching(view, root, visited, found, stack, truncated) && Walking(view, rank, root, visited, found, stack, truncated)
    && (WithinLimit(view, rank, root, maxDepth) ==> !truncated)
  }

  lemma {:induction false} SeenAgain(view: View, rank: map<Id, nat>, root: Id, maxDepth: nat, visited: set<Id>, found: seq<Id>, stack: seq<(Id, nat)>, truncated: bool)
    requires stack != [] && InSearch(view, rank, root, maxDepth, visited, found, stack, truncated) && stack[|stack| - 1].0 in visited
    ensures InSearch(view, rank, root, maxDepth, visited, found, stack[..|stack| - 1], truncated)
  {
    TopSeen(view, root, visited, found, stack, truncated);
    WalkSeen(view, rank, root, visited, found, stack, truncated);
  }

  /** A round of the search with an id that was not met before. */
  lemma {:induction false} NextInSearch(view: View, rank: map<Id, nat>, root: Id, maxDepth: nat, visited: set<Id>, found: seq<Id>, stack: seq<(Id, nat)>,
                                        truncated: bool, visited2: set<Id>, found2: seq<Id>, stack2: seq<(Id, nat)>, truncated2: bool)
    requires stack != [] && InSearch(view, rank, root, maxDepth, visited, found, stack, truncated) && stack[|stack| - 1].0 !in visited
    requires
      var (cur, depth) := stack[|stack| - 1];
      var cutOff := CutsOff(view, cur, depth, maxDepth);
      visited2 == visited + {cur} && truncated2 == (truncated || cutOff) && found2 == found + Concrete(view, cur)
      && stack2 == stack[..|stack| - 1] + if cutOff then [] else Below(view, cur, depth)
    ensures InSearch(view, rank, root, maxDepth, visited2, found2, stack2, truncated2)
  {
    var (cur, depth) := stack[|stack| - 1];
    NothingMore(found, stack);
    if CutsOff(view, cur, depth, maxDepth) {
      SearchStops(view, rank, root, maxDepth, visited, found, stack, truncated);
    } else if view[cur].Combine? {
      SearchExpands(view, rank, root, maxDepth, visited, found, stack, truncated);
    } else {
      SearchFinds(view, rank, root, maxDepth, visited, found, stack, truncated);
    }
  }

  lemma {:induction false} SearchExpands(view: View, rank: map<Id, nat>, root: Id, maxDepth: nat, visited: set<Id>, found: seq<Id>, stack: seq<(Id, nat)>,
                                         truncated: bool)
    requires stack != [] && InSearch(view, rank, root, maxDepth, visited, found, stack, truncated) && stack[|stack| - 1].0 !in visited
    requires stack[|stack| - 1].0 in view && view[stack[|stack| - 1].0].Combine?
    ensures
      var (cur, depth) := stack[|stack| - 1];
      InSearch(view, rank, root, maxDepth, visited + {cur}, found, stack[..|stack| - 1] + Pushed(view[cur].parents, 0, depth + 1), truncated)
  {
    TopExpands(view, root, visited, found, stack, truncated);
    WalkExpands(view, rank, root, visited, found, stack, truncated);
  }

  lemma {:induction false} SearchFinds(view: View, rank: map<Id, nat>, root: Id, maxDepth: nat, visited: set<Id>, found: seq<Id>, stack: seq<(Id, nat)>,
                                       truncated: bool)
    requires stack != [] && InSearch(view, rank, root, maxDepth, visited, found, stack, truncated) && stack[|stack| - 1].0 !in visited
    requires stack[|stack| - 1].0 in view && !view[stack[|stack| - 1].0].Combine?
    ensures InSearch(view, rank, root, maxDepth, visited + {stack[|stack| - 1].0}, found + [stack[|stack| - 1].0], stack[..|stack| - 1], truncated)
  {
    TopFound(view, root, visited, found, stack, truncated);
    WalkFound(view, rank, root, visited, found, stack, truncated);
  }

  lemma {:induction false} SearchStops(view: View, rank: map<Id, nat>, root: Id, maxDepth: nat, visited: set<Id>, found: seq<Id>, stack: seq<(Id, nat)>,
                                       truncated: bool)
    requires stack != [] && InSearch(view, rank, root, maxDepth, visited, found, stack, truncated) && stack[|stack| - 1].0 !in visited
    requires CutsOff(view, stack[|stack| - 1].0, stack[|stack| - 1].1, maxDepth)
    ensures InSearch(view, rank, root, maxDepth, visited + {stack[|stack| - 1].0}, found, stack[..|stack| - 1], true)
  {
    TopDangles(view, root, visited, found, stack, truncated);
    WalkStops(view, rank, root, visited, found, stack, truncated);
  }

  lemma {:induction false} NothingMore(found: seq<Id>, stack: seq<(Id, nat)>)
    requires stack != []
    ensures found + [] == found && stack[..|stack| - 1] + [] == stack[..|stack| - 1]
  {
  }

  /** With nothing left on the stack, everything below the root was visited. */
  lemma {:induction false} SearchEnds(view: View, rank: map<Id, nat>, root: Id, visited: set<Id>, found: seq<Id>, truncated: bool)
    requires Searching(view, root, visited, found, [], truncated) && Walking(view, rank, root, visited, found, [], truncated)
    ensures !truncated ==> forall c :: c in view && !view[c].Combine? && Reaches(view, root, c) ==> c in found
    ensures !truncated && Ranked(view, rank) && root in view ==> found == ResolveAll(view, rank, root)
  {
    if !truncated {
      forall c | c in view && !view[c].Combine? && Reaches(view, root, c)
        ensures c in found
      {
        var p :| Path(view, root, p, c);
        SaturatedReaches(view, visited, root, p, c);
      }
    }
  }

  /** Every id on the stack can be expanded within the limit. */
  ghost predicate Affordable(view: View, rank: map<Id, nat>, limit: nat, stack: seq<(Id, nat)>)
    requires Ranked(view, rank)
  {
    forall k :: 0 <= k < |stack| ==> stack[k].0 in view && stack[k].1 + rank[stack[k].0] <= limit
  }

  lemma {:induction false} PushedAffordable(view: View, rank: map<Id, nat>, limit: nat, stack: seq<(Id, nat)>, cur: Id, depth: nat)
    requires Ranked(view, rank) && Affordable(view, rank, limit, stack) && cur in view && view[cur].Combine? && depth + rank[cur] <= limit
    ensures Affordable(view, rank, limit, stack + Pushed(view[cur].parents, 0, depth + 1))
  {
    PushedHas(view[cur].parents, 0, depth + 1);
  }

  /** What was found and what is on the stack add up to the recursive walk. */
  ghost predicate Ordered(view: View, rank: map<Id, nat>, root: Id, visited: set<Id>, found: seq<Id>, stack: seq<(Id, nat)>)
  {
    Ranked(view, rank) && root in view && (forall k :: 0 <= k < |stack| ==> stack[k].0 in view)
    && Pending(view, rank, stack, Walk(visited, found)) == Visit(view, rank, root, Walk({}, []))
  }

  lemma {:induction false} OrderedStarts(view: View, rank: map<Id, nat>, root: Id)
    requires Ranked(view, rank) && root in view
    ensures Ordered(view, rank, root, {}, [], [(root, 0)]) && Affordable(view, rank, rank[root], [(root, 0)])
  {
    assert [(root, 0)][..0] == [];
  }

  lemma {:induction false} OrderedExpands(view: View, rank: map<Id, nat>, root: Id, visited: set<Id>, found: seq<Id>, stack: seq<(Id, nat)>, depth: nat)
    requires stack != [] && Ordered(view, rank, root, visited, found, stack)
    requires stack[|stack| - 1].0 !in visited && stack[|stack| - 1].0 in view && view[stack[|stack| - 1].0].Combine?
    ensures
      var cur := stack[|stack| - 1].0;
      Ordered(view, rank, root, visited + {cur}, found, stack[..|stack| - 1] + Pushed(view[cur].parents, 0, depth))
  {
    PendingPushed(view, rank, stack[..|stack| - 1], stack[|stack| - 1].0, depth);
  }

  /** Pushing the parents of a combine leaves just their visits to do, the first one first. */
  lemma {:induction false} PendingPushed(view: View, rank: map<Id, nat>, stack: seq<(Id, nat)>, cur: Id, depth: nat)
    requires Ranked(view, rank) && cur in view && view[cur].Combine? && forall k :: 0 <= k < |stack| ==> stack[k].0 in view
    ensures forall k :: 0 <= k < |stack + Pushed(view[cur].parents, 0, depth)| ==> (stack + Pushed(view[cur].parents, 0, depth))[k].0 in view
    ensures forall w :: Pending(view, rank, stack + Pushed(view[cur].parents, 0, depth), w) ==
                        Pending(view, rank, stack, VisitAll(view, rank, cur, |view[cur].parents|, w))
  {
    PushedHas(view[cur].parents, 0, depth);
    forall w
      ensures Pending(view, rank, stack + Pushed(view[cur].parents, 0, depth), w) ==
              Pending(view, rank, stack, VisitAll(view, rank, cur, |view[cur].parents|, w))
    {
      PendingFrom(view, rank, stack, cur, depth, 0, w);
    }
  }

  lemma {:induction false} PendingFrom(view: View, rank: map<Id, nat>, stack: seq<(Id, nat)>, cur: Id, depth: nat, n: nat, w: Walk)
    requires Ranked(view, rank) && cur in view && view[cur].Combine? && n <= |view[cur].parents|
    requires forall k :: 0 <= k < |stack| ==> stack[k].0 in view
    ensures forall k :: 0 <= k < |stack + Pushed(view[cur].parents, n, depth)| ==> (stack + Pushed(view[cur].parents, n, depth))[k].0 in view
    ensures Pending(view, rank, stack + Pushed(view[cur].parents, n, depth), VisitAll(view, rank, cur, n, w)) ==
            Pending(view, rank, stack, VisitAll(view, rank, cur, |view[cur].parents|, w))
    decreases |view[cur].parents| - n
  {
    var parents := view[cur].parents;
    PushedHas(parents, n, depth);
    if n == |parents| {
      assert stack + [] == stack;
    } else {
      PendingFrom(view, rank, stack, cur, depth, n + 1, w);
      var all := stack + Pushed(parents, n, depth);
      assert all[..|all| - 1] == stack + Pushed(parents, n + 1, depth);
      assert all[|all| - 1] == (parents[n], depth);
    }
  }

  /** What is left to do for a stack, its top being last. */
  ghost function Pending(view: View, rank: map<Id, nat>, stack: seq<(Id, nat)>, w: Walk): Walk
    requires Ranked(view, rank) && forall k :: 0 <= k < |stack| ==> stack[k].0 in view
  {
    if stack == [] then w
    else Pending(view, rank, stack[..|stack| - 1], Visit(view, rank, stack[|stack| - 1].0, w))
  }
}
