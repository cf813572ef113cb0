/**
 What a merge of locators leaves resolvable, by what ids stand for.
 */
module MergeResults {
  import opened ProvenanceView
  import opened SourceLocatorProgram

  /** Every parent that an own combination names is there. */
  ghost predicate Complete(own: View, behind: View)
  {
    Resolves(own, behind, own.Keys)
  }

  /** The content hashes on record after a chain of tables has come in, the farthest first. */
  ghost function ChainHashes(was: Hashes, theirs: seq<Table>): (h: Hashes)
    requires forall p: string :: p in was
    ensures forall p: string :: p in h
  {
    if theirs == [] then was else HashesAfter(ChainHashes(was, theirs[1..]), theirs[0].files)
  }

  /** The table in front brings another version of a file than the one known when its turn comes. */
  ghost predicate FrontSupersedes(was: Hashes, theirs: seq<Table>)
    requires theirs != [] && forall p: string :: p in was
  {
    NewerAmong(theirs[0].files, |theirs[0].files|, ChainHashes(was, theirs[1..]))
  }

  /** No table of the chain does. */
  ghost predicate Quiet(was: Hashes, theirs: seq<Table>)
    requires forall p: string :: p in was
  {
    theirs != [] ==> !FrontSupersedes(was, theirs) && Quiet(was, theirs[1..])
  }

  lemma {:induction false} MergedHashes(hash: Hash, behind: View, own: View, was: Hashes, remap: map<Id, Id>, theirs: seq<Table>)
    requires AllWellFormed(theirs) && forall p: string :: p in was
    ensures ChainMerged(hash, behind, own, was, remap, theirs).2 == ChainHashes(was, theirs)
  {
    if theirs != [] {
      MergedHashes(hash, behind, own, was, remap, theirs[1..]);
    }
  }

  /** Whatever came in before, a table in front that supersedes a file leaves no combination that names an id that is nowhere. */
  lemma {:induction false} FrontPurges(hash: Hash, behind: View, own: View, was: Hashes, remap: map<Id, Id>, theirs: seq<Table>)
    requires AllWellFormed(theirs) && theirs != [] && (forall p: string :: p in was) && FrontSupersedes(was, theirs)
    ensures Complete(ChainMerged(hash, behind, own, was, remap, theirs).0, behind)
  {
    var (own1, remap1, was1) := ChainMerged(hash, behind, own, was, remap, theirs[1..]);
    MergedHashes(hash, behind, own, was, remap, theirs[1..]);
    var files := theirs[0].files;
    var now := AllReminted(hash, behind, FoldedOwn(own1, was1, files, |files|), remap1, Payloads(theirs[0])).0;
    LargestResolves(now, behind, PurgedFrom(now, behind));
  }

  /** What came in is there under its new name. */
  ghost predicate Arrived(done: View, remap: map<Id, Id>, view: View)
  {
    remap.Keys <= done.Keys && forall id :: id in done ==> Renamed(remap, id) in view
  }

  lemma {:induction false} OneArrives(hash: Hash, behind: View, own: View, remap: map<Id, Id>, oid: Id, payload: Payload, done: View)
    requires Complete(own, behind) && Arrived(done, remap, behind + own) && Arrives(done, oid, payload)
    ensures
      var (now, renamed) := Reminted(hash, behind, own, remap, oid, payload);
      Complete(now, behind) && Arrived(done[oid := payload], renamed, behind + now)
  {
    var p := RenamedPayload(remap, payload);
    var nid := PlaceOf(behind + own, Home(hash, p), p);
    var (now, renamed) := Reminted(hash, behind, own, remap, oid, payload);
    forall c, k | c in now && now[c].Combine? && 0 <= k < |now[c].parents|
      ensures now[c].parents[k] in now || now[c].parents[k] in behind
    {
      if c !in own || (nid !in behind + own && c == nid) {
        assert payload.parents[k] in done && now[c].parents[k] == Renamed(remap, payload.parents[k]);
      } else {
        assert own[c].parents[k] in own || own[c].parents[k] in behind;
      }
    }
    forall id | id in done[oid := payload]
      ensures Renamed(renamed, id) in behind + now
    {
      if id != oid {
        assert Renamed(renamed, id) == Renamed(remap, id);
      }
    }
  }

  lemma {:induction false} AllArrive(hash: Hash, behind: View, own: View, remap: map<Id, Id>, order: seq<(Id, Payload)>, done: View)
    requires Complete(own, behind) && Arrived(done, remap, behind + own) && InOrder(done, order)
    ensures
      var (now, renamed) := AllReminted(hash, behind, own, remap, order);
      Complete(now, behind) && Arrived(After(done, order), renamed, behind + now)
    decreases |order|
  {
    if order != [] {
      OneArrives(hash, behind, own, remap, order[0].0, order[0].1, done);
      var (now, renamed) := Reminted(hash, behind, own, remap, order[0].0, order[0].1);
      AllArrive(hash, behind, now, renamed, order[1..], done[order[0].0 := order[0].1]);
    }
  }

  lemma {:induction false} NothingFolded(own: View, was: Hashes, incoming: seq<File>, n: nat)
    requires n <= |incoming| && (forall p: string :: p in was) && !NewerAmong(incoming, |incoming|, was)
    ensures FoldedOwn(own, was, incoming, n) == own
  {
    if n > 0 {
      NothingFolded(own, was, incoming, n - 1);
      assert !Newer(incoming, n - 1, was[incoming[n - 1].path]);
    }
  }

  lemma {:induction false} ChainArrives(hash: Hash, behind: View, own: View, was: Hashes, remap: map<Id, Id>, theirs: seq<Table>, done: View)
    requires AllWellFormed(theirs) && (forall p: string :: p in was) && Quiet(was, theirs)
    requires Complete(own, behind) && Arrived(done, remap, behind + own) && InOrder(done, MergeOrder(theirs))
    ensures
      var r := ChainMerged(hash, behind, own, was, remap, theirs);
      Complete(r.0, behind) && Arrived(After(done, MergeOrder(theirs)), r.1, behind + r.0)
  {
    if theirs != [] {
      var inner, front := MergeOrder(theirs[1..]), Payloads(theirs[0]);
      AfterConcat(done, inner, front);
      ChainArrives(hash, behind, own, was, remap, theirs[1..], done);
      MergedHashes(hash, behind, own, was, remap, theirs[1..]);
      var (own1, remap1, was1) := ChainMerged(hash, behind, own, was, remap, theirs[1..]);
      NothingFolded(own1, was1, theirs[0].files, |theirs[0].files|);
      AllArrive(hash, behind, own1, remap1, front, After(done, inner));
    }
  }

  /** After a merge every combination names ids that are there, when that held before, parents come in before the combinations that name
      them, and no table but the one in front supersedes a file. */
  lemma {:induction false} MergeResolves(hash: Hash, behind: View, own: View, was: Hashes, theirs: seq<Table>, shared: View)
    requires AllWellFormed(theirs) && theirs != [] && (forall p: string :: p in was) && Quiet(was, theirs[1..])
    requires Complete(own, behind) && shared.Keys <= (behind + own).Keys && InOrder(shared, MergeOrder(theirs))
    ensures Complete(ChainMerged(hash, behind, own, was, map[], theirs).0, behind)
  {
    if FrontSupersedes(was, theirs) {
      FrontPurges(hash, behind, own, was, map[], theirs);
    } else {
      ChainArrives(hash, behind, own, was, map[], theirs, shared);
    }
  }

  // ---------- a chain that leaves a combination without its parent ----------

  const HASH := Hash((path: string, start: nat, end: nat) => if path == "f" then 10 else 20, (path: string, line: nat) => 40, (parents: seq<Id>) => 30)

  /** One span of file f, in a version with hash 1. */
  const OWN: View := map[10 := Span("f", 0, 1)]
  ghost const KNOWN: Hashes := imap p: string :: if p == "f" then 1 else 0

  /** A table that knows another version of f, and one chained in front of it with a combination that names the span of the old. */
  const NEWER := Table([], map[], [File("f", 2)])
  const FRONT := Table([(20, Entry(SpanKind, 0, 5, 6, 1, [])), (30, Entry(CombineKind, 0, 0, 0, 0, [10, 20]))], map[20 := 0, 30 := 1], [File("g", 0)])

  /** A table behind the one in front supersedes a file, and a combination of the one in front comes in without its parent: only the purge
      after that table would have dropped it. */
  lemma {:induction false} DanglingStays()
    ensures AllWellFormed([FRONT, NEWER]) && Complete(OWN, map[]) && InOrder(OWN, MergeOrder([FRONT, NEWER]))
    ensures !Quiet(KNOWN, [NEWER])
    ensures
      var now := ChainMerged(HASH, map[], OWN, KNOWN, map[], [FRONT, NEWER]).0;
      now == map[20 := Span("g", 5, 6), 30 := Combine([10, 20])] && !Complete(now, map[])
  {
    assert [FRONT, NEWER][1..] == [NEWER] && [NEWER][1..] == [];
    FrontInOrder();
    NewerComesIn();
    FrontComesIn(HashesAfter(KNOWN, NEWER.files));
    var now: View := map[20 := Span("g", 5, 6), 30 := Combine([10, 20])];
    assert 30 in now && now[30].Combine? && now[30].parents[0] == 10 && 10 !in now;
  }

  lemma {:induction false} FrontInOrder()
    ensures AllWellFormed([FRONT, NEWER]) && InOrder(OWN, MergeOrder([FRONT, NEWER]))
    ensures Payloads(FRONT) == [(20, Span("g", 5, 6)), (30, Combine([10, 20]))] && Payloads(NEWER) == []
  {
    assert [FRONT, NEWER][1..] == [NEWER] && [NEWER][1..] == [];
    assert AllWellFormed([NEWER]);
    var order: seq<(Id, Payload)> := [(20, Span("g", 5, 6)), (30, Combine([10, 20]))];
    assert MergeOrder([NEWER]) == [] && MergeOrder([FRONT, NEWER]) == order;
    var rest: seq<(Id, Payload)> := order[1..];
    assert rest == [order[1]] && |rest[1..]| == 0;
    assert InOrder(OWN[20 := order[0].1][30 := order[1].1], []);
    assert InOrder(OWN[20 := order[0].1], order[1..]);
  }

  lemma {:induction false} NewerComesIn()
    ensures AllWellFormed([NEWER]) && NewerAmong(NEWER.files, 1, KNOWN)
    ensures ChainMerged(HASH, map[], OWN, KNOWN, map[], [NEWER]) == (map[], map[], HashesAfter(KNOWN, NEWER.files))
  {
    assert [NEWER][1..] == [] && NEWER.files[0] == File("f", 2);
    assert HashBefore(1, NEWER.files, 0, "f") == 1;
    assert Newer(NEWER.files, 0, KNOWN["f"]);
    ReachesSelf(OWN, 10);
    assert Tainted(OWN, AnchorsOn(OWN, "f"), 10);
    assert FoldedOwn(OWN, KNOWN, NEWER.files, 0) == OWN;
    assert FoldedOwn(OWN, KNOWN, NEWER.files, 1) == EvictedFrom(OWN, "f") == map[];
    assert Payloads(NEWER) == [];
    assert PurgedFrom(map[], map[]) == map[];
  }

  lemma {:induction false} FrontComesIn(was: Hashes)
    requires was == HashesAfter(KNOWN, NEWER.files)
    ensures LevelMerged(HASH, map[], map[], was, map[], FRONT.files, Payloads(FRONT)).0 == map[20 := Span("g", 5, 6), 30 := Combine([10, 20])]
  {
    FrontInOrder();
    var order: seq<(Id, Payload)> := Payloads(FRONT);
    assert !Newer(FRONT.files, 0, was["g"]);
    NothingFolded(map[], was, FRONT.files, 1);
    var one: View := map[20 := Span("g", 5, 6)];
    ComesInAt(map[], 20, order[0].1);
    ComesInAt(one, 30, order[1].1);
    var rest: seq<(Id, Payload)> := order[1..];
    assert rest == [order[1]] && |rest[1..]| == 0;
    assert AllReminted(HASH, map[], one, map[], order[1..]).0 == one[30 := order[1].1];
  }

  /** An entry whose hash is its id and that names nothing renamed keeps its id. */
  lemma {:induction false} ComesInAt(own: View, id: Id, p: Payload)
    requires IsId(id) && id !in own && Home(HASH, p) == id
    ensures Reminted(HASH, map[], own, map[], id, p) == (own[id := p], map[])
  {
    assert RenamedPayload(map[], p) == p;
    assert map[] + own == own;
    assert Probe(id, 0) == id;
    assert Placed(own, id, p, id);
    PlacedThere(own, id, p, id);
  }
}
