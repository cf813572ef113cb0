/**
 An ordered tree in chunks of eight siblings: the append-only store, and its two iterators.
 */
module ChunkTree {
  import opened Sequences

  const SIZE: nat := 8
  const MASK: nat := 7

  /** A position: a chunk and an offset in it. It is stored as eight times the chunk plus the offset. */
  datatype Pos = Pos(chunk: nat, off: nat)

  const NONE := Pos(0, 0)
  const ROOT := Pos(1, 0)

  function Stored(p: Pos): nat
  {
    p.chunk * SIZE + p.off
  }

  lemma {:induction false} StoredIsUnique(p: Pos, q: Pos)
    requires p.off <= MASK && q.off <= MASK
    ensures Stored(p) == Stored(q) <==> p == q
    ensures Pos(Stored(p) / SIZE, Stored(p) % SIZE) == p
  {
  }

  /** Up to eight adjacent siblings. `occ` is the offset of the last one; chunk zero stands for none. */
  datatype Chunk = Chunk(parent: Pos, next: nat, prev: nat, first: seq<Pos>, last: seq<Pos>, occ: nat, leaf: bool)

  const NOBODY: seq<Pos> := [NONE, NONE, NONE, NONE, NONE, NONE, NONE, NONE]

  const EMPTY := Chunk(NONE, 0, 0, NOBODY, NOBODY, 0, true)

  // ---------- the tree that the chunks stand for ----------

  /** For every node its children, its parent, and its place among the children of its parent. */
  datatype Shape = Shape(kids: map<Pos, seq<Pos>>, par: map<Pos, Pos>, idx: map<Pos, nat>)

  /** A tree whose nodes are in later chunks than their parents. */
  ghost predicate ShapeFits(s: Shape)
  {
    (forall q {:trigger NodeFits(s, q)} :: q in s.kids && q != ROOT ==> NodeFits(s, q))
    && forall p, i {:trigger KidFits(s, p, i)} :: p in s.kids && 0 <= i < |s.kids[p]| ==> KidFits(s, p, i)
  }

  ghost predicate NodeFits(s: Shape, q: Pos)
  {
    q in s.par && q in s.idx && s.par[q] in s.kids && s.par[q].chunk < q.chunk
    && s.idx[q] < |s.kids[s.par[q]]| && s.kids[s.par[q]][s.idx[q]] == q
  }

  ghost predicate KidFits(s: Shape, p: Pos, i: nat)
    requires p in s.kids && i < |s.kids[p]|
  {
    var q := s.kids[p][i];
    q in s.kids && q != ROOT && q != NONE && q.chunk > p.chunk && q in s.par && q in s.idx && s.par[q] == p && s.idx[q] == i
  }

  function FirstOf(l: seq<Pos>): Pos
  {
    if l == [] then NONE else l[0]
  }

  function LastOf(l: seq<Pos>): Pos
  {
    if l == [] then NONE else l[|l| - 1]
  }

  /** The siblings next to a child. */
  function After(l: seq<Pos>, i: nat): Pos
  {
    if i + 1 < |l| then l[i + 1] else NONE
  }

  function Before(l: seq<Pos>, i: nat): Pos
  {
    if 0 < i <= |l| then l[i - 1] else NONE
  }

  // ---------- the chunks ----------

  predicate ChunkFits(c: Chunk)
  {
    |c.first| == SIZE && |c.last| == SIZE && c.occ <= MASK
    && (forall o :: c.occ < o < SIZE ==> c.first[o] == NONE && c.last[o] == NONE)
    && (c.leaf <==> forall o :: 0 <= o < SIZE ==> c.first[o] == NONE)
  }

  /** A position that holds a node. */
  predicate Live(ch: seq<Chunk>, p: Pos)
  {
    0 < p.chunk < |ch| && p.off <= ch[p.chunk].occ
  }

  function NextOf(ch: seq<Chunk>, p: Pos): Pos
    requires p.chunk < |ch|
  {
    if p.off < ch[p.chunk].occ then Pos(p.chunk, p.off + 1) else Pos(ch[p.chunk].next, 0)
  }

  function PrevOf(ch: seq<Chunk>, p: Pos): Pos
    requires p.chunk < |ch|
  {
    if p.off > 0 then Pos(p.chunk, p.off - 1)
    else if 0 < ch[p.chunk].prev < |ch| then Pos(ch[p.chunk].prev, ch[ch[p.chunk].prev].occ)
    else NONE
  }

  /** The chunks tell the siblings and the parent of a node as the shape does. */
  ghost predicate Linked(ch: seq<Chunk>, s: Shape, q: Pos)
    requires q.chunk < |ch| && q in s.kids
  {
    if q == ROOT then ch[1].parent == NONE && ch[1].next == 0 && ch[1].prev == 0 && ch[1].occ == 0
    else NodeFits(s, q) && ch[q.chunk].parent == s.par[q]
         && NextOf(ch, q) == After(s.kids[s.par[q]], s.idx[q]) && PrevOf(ch, q) == Before(s.kids[s.par[q]], s.idx[q])
  }

  /** The chunks tell the first and the last child of a node as the shape does. */
  ghost predicate Headed(ch: seq<Chunk>, s: Shape, p: Pos)
    requires p.chunk < |ch| && p in s.kids
  {
    var c := ch[p.chunk];
    p.off < |c.first| && p.off < |c.last|
    && c.first[p.off] == FirstOf(s.kids[p]) && c.last[p.off] == LastOf(s.kids[p]) && (c.leaf ==> s.kids[p] == [])
  }

  ghost predicate Stands(ch: seq<Chunk>, s: Shape)
  {
    (forall c :: 0 <= c < |ch| ==> ChunkFits(ch[c]) && ch[c].next < |ch| && ch[c].prev < |ch|)
    && (forall p :: p in s.kids <==> Live(ch, p))
    && ShapeFits(s)
    && (forall q {:trigger Linked(ch, s, q)} :: q in s.kids ==> Linked(ch, s, q))
    && (forall p {:trigger Headed(ch, s, p)} :: p in s.kids ==> Headed(ch, s, p))
  }

  // ---------- growing ----------

  /** The shape with one more last child. */
  function Grown(s: Shape, p: Pos, q: Pos): Shape
    requires p in s.kids
  {
    Shape(s.kids[q := []][p := s.kids[p] + [q]], s.par[q := p], s.idx[q := |s.kids[p]|])
  }

  lemma {:induction false} GrownFits(s: Shape, p: Pos, q: Pos)
    requires ShapeFits(s) && p in s.kids && q !in s.kids && q.chunk > p.chunk && q != ROOT
    ensures ShapeFits(Grown(s, p, q))
  {
    var t := Grown(s, p, q);
    forall x | x in t.kids && x != ROOT
      ensures NodeFits(t, x)
    {
      if x != q {
        assert NodeFits(s, x);
      }
    }
    forall x, i | x in t.kids && 0 <= i < |t.kids[x]|
      ensures KidFits(t, x, i)
    {
      if x == p && i == |s.kids[p]| {
      } else if x == p {
        assert KidFits(s, p, i);
      } else if x != q {
        assert KidFits(s, x, i);
      }
    }
  }

  /** The chunks when the parent gets a new last child. */
  function WithLast(ch: seq<Chunk>, p: Pos, q: Pos): seq<Chunk>
    requires p.chunk < |ch| && |ch[p.chunk].last| == SIZE && p.off < SIZE
  {
    ch[p.chunk := ch[p.chunk].(leaf := false, last := ch[p.chunk].last[p.off := q])]
  }

  function WithFirst(ch: seq<Chunk>, p: Pos, q: Pos): seq<Chunk>
    requires p.chunk < |ch| && |ch[p.chunk].first| == SIZE && p.off < SIZE
  {
    ch[p.chunk := ch[p.chunk].(leaf := false, first := ch[p.chunk].first[p.off := q])]
  }

  /** The last child ends its chunk, and no chunk follows. */
  lemma {:induction false} LastChild(ch: seq<Chunk>, s: Shape, p: Pos)
    requires Stands(ch, s) && p in s.kids && s.kids[p] != []
    ensures
      var last := LastOf(s.kids[p]);
      Live(ch, p) && ch[p.chunk].last[p.off] == last && last != NONE && last != ROOT && last in s.kids && Live(ch, last)
      && last.off == ch[last.chunk].occ && ch[last.chunk].next == 0 && ch[last.chunk].parent == p
      && p.chunk < last.chunk && last in s.par && last in s.idx && s.par[last] == p && s.idx[last] == |s.kids[p]| - 1
  {
    assert KidFits(s, p, |s.kids[p]| - 1);
    assert Headed(ch, s, p);
    assert Linked(ch, s, LastOf(s.kids[p]));
  }

  lemma {:induction false} NoLaterSibling(s: Shape, p: Pos, q: Pos)
    requires ShapeFits(s) && p in s.kids && s.kids[p] != [] && q in s.kids && q != ROOT && NodeFits(s, q)
    ensures Before(s.kids[s.par[q]], s.idx[q]) != LastOf(s.kids[p])
    ensures q != LastOf(s.kids[p]) && s.par[q] == p ==> s.idx[q] + 1 < |s.kids[p]|
  {
    assert KidFits(s, p, |s.kids[p]| - 1);
    if s.idx[q] > 0 {
      assert KidFits(s, s.par[q], s.idx[q] - 1);
    }
  }

  /** What a change of the chunks has to leave as it was for a node that is not at the growing end. */
  ghost predicate SameLinks(ch: seq<Chunk>, ch2: seq<Chunk>, q: Pos)
    requires q.chunk < |ch| <= |ch2|
  {
    ch2[q.chunk].parent == ch[q.chunk].parent && NextOf(ch2, q) == NextOf(ch, q) && PrevOf(ch2, q) == PrevOf(ch, q)
    && (q == ROOT ==> ch2[1] == ch[1].(first := ch2[1].first, last := ch2[1].last, leaf := ch2[1].leaf))
  }

  lemma {:induction false} LinkedStays(ch: seq<Chunk>, s: Shape, ch2: seq<Chunk>, p: Pos, q: Pos, x: Pos)
    requires x in s.kids && p in s.kids && q !in s.kids && x.chunk < |ch| <= |ch2| && Linked(ch, s, x) && SameLinks(ch, ch2, x)
    requires ShapeFits(s) && (x != LastOf(s.kids[p]) || s.kids[p] == [])
    ensures Linked(ch2, Grown(s, p, q), x)
  {
    if x != ROOT {
      assert NodeFits(s, x);
      if s.par[x] == p {
        NoLaterSibling(s, p, x);
      }
    }
  }

  lemma {:induction false} LastKeepsLinks(ch: seq<Chunk>, p: Pos, q: Pos, x: Pos)
    requires p.chunk < |ch| && |ch[p.chunk].last| == SIZE && p.off < SIZE && x.chunk < |ch|
    ensures SameLinks(ch, WithLast(ch, p, q), x)
  {
  }

  /** What a change of the chunks has to leave as it was for the children of a node. */
  ghost predicate SameHead(ch: seq<Chunk>, ch2: seq<Chunk>, x: Pos)
    requires x.chunk < |ch| <= |ch2|
  {
    var c, d := ch[x.chunk], ch2[x.chunk];
    x.off < |c.first| == |d.first| && x.off < |c.last| == |d.last|
    && d.first[x.off] == c.first[x.off] && d.last[x.off] == c.last[x.off] && (d.leaf ==> c.leaf)
  }

  lemma {:induction false} HeadedStays(ch: seq<Chunk>, s: Shape, ch2: seq<Chunk>, p: Pos, q: Pos, x: Pos)
    requires x in s.kids && p in s.kids && q !in s.kids && x.chunk < |ch| <= |ch2| && Headed(ch, s, x) && SameHead(ch, ch2, x) && x != p
    ensures Headed(ch2, Grown(s, p, q), x)
  {
  }

  // A further child in the chunk of the last one.

  function Within(ch: seq<Chunk>, p: Pos, last: Pos): seq<Chunk>
    requires last.chunk < |ch| && p.chunk < |ch| && |ch[p.chunk].last| == SIZE && p.off < SIZE
  {
    WithLast(ch[last.chunk := ch[last.chunk].(occ := last.off + 1)], p, Pos(last.chunk, last.off + 1))
  }

  lemma {:induction false} WithinLinked(ch: seq<Chunk>, s: Shape, p: Pos, x: Pos)
    requires Stands(ch, s) && p in s.kids && s.kids[p] != [] && LastOf(s.kids[p]).off < MASK && Live(ch, p) && LastOf(s.kids[p]).chunk < |ch|
    requires var q := Pos(LastOf(s.kids[p]).chunk, LastOf(s.kids[p]).off + 1); q !in s.kids && (x in s.kids || x == q)
    ensures
      var last := LastOf(s.kids[p]);
      x.chunk < |ch| && Linked(Within(ch, p, last), Grown(s, p, Pos(last.chunk, last.off + 1)), x)
  {
    var last := LastOf(s.kids[p]);
    LastChild(ch, s, p);
    if x !in s.kids {
      WithinNew(ch, s, p);
    } else if x == last {
      WithinOld(ch, s, p);
    } else {
      assert Live(ch, x) && Linked(ch, s, x);
      WithinSame(ch, s, p, x);
      LinkedStays(ch, s, Within(ch, p, last), p, Pos(last.chunk, last.off + 1), x);
    }
  }

  lemma {:induction false} WithinNew(ch: seq<Chunk>, s: Shape, p: Pos)
    requires Stands(ch, s) && p in s.kids && s.kids[p] != [] && LastOf(s.kids[p]).off < MASK && Live(ch, p) && LastOf(s.kids[p]).chunk < |ch|
    ensures
      var last := LastOf(s.kids[p]);
      var q := Pos(last.chunk, last.off + 1);
      Linked(Within(ch, p, last), Grown(s, p, q), q)
  {
    LastChild(ch, s, p);
  }

  lemma {:induction false} WithinOld(ch: seq<Chunk>, s: Shape, p: Pos)
    requires Stands(ch, s) && p in s.kids && s.kids[p] != [] && LastOf(s.kids[p]).off < MASK && Live(ch, p) && LastOf(s.kids[p]).chunk < |ch|
    requires Pos(LastOf(s.kids[p]).chunk, LastOf(s.kids[p]).off + 1) !in s.kids
    ensures
      var last := LastOf(s.kids[p]);
      last in s.kids && Linked(Within(ch, p, last), Grown(s, p, Pos(last.chunk, last.off + 1)), last)
  {
    var last := LastOf(s.kids[p]);
    LastChild(ch, s, p);
    assert Linked(ch, s, last);
    NoLaterSibling(s, p, last);
    var q := Pos(last.chunk, last.off + 1);
    var ch2, t := Within(ch, p, last), Grown(s, p, q);
    assert t.kids[p][t.idx[last]] == last && t.kids[p][t.idx[last] + 1] == q;
    assert PrevOf(ch2, last) == PrevOf(ch, last);
    assert Before(t.kids[p], t.idx[last]) == Before(s.kids[p], s.idx[last]);
  }

  lemma {:induction false} OccKeepsLinks(ch: seq<Chunk>, c: nat, occ: nat, x: Pos)
    requires c < |ch| && x.chunk < |ch| && 1 < |ch| && c != 1 && occ == ch[c].occ + 1
    requires x.chunk == c ==> x.off < ch[c].occ
    requires x.off == 0 && 0 < ch[x.chunk].prev < |ch| ==> ch[x.chunk].prev != c
    ensures SameLinks(ch, ch[c := ch[c].(occ := occ)], x)
  {
  }

  lemma {:induction false} WithinSame(ch: seq<Chunk>, s: Shape, p: Pos, x: Pos)
    requires Stands(ch, s) && p in s.kids && s.kids[p] != [] && LastOf(s.kids[p]).off < MASK && Live(ch, p) && LastOf(s.kids[p]).chunk < |ch|
    requires x in s.kids && x != LastOf(s.kids[p]) && Live(ch, x) && Linked(ch, s, x)
    ensures SameLinks(ch, Within(ch, p, LastOf(s.kids[p])), x)
  {
    var last := LastOf(s.kids[p]);
    LastChild(ch, s, p);
    if x != ROOT {
      assert NodeFits(s, x);
      NoLaterSibling(s, p, x);
    }
    OccKeepsLinks(ch, last.chunk, last.off + 1, x);
    LastKeepsLinks(ch[last.chunk := ch[last.chunk].(occ := last.off + 1)], p, Pos(last.chunk, last.off + 1), x);
  }

  lemma {:induction false} WithinHeaded(ch: seq<Chunk>, s: Shape, p: Pos, x: Pos)
    requires Stands(ch, s) && p in s.kids && s.kids[p] != [] && LastOf(s.kids[p]).off < MASK && Live(ch, p) && LastOf(s.kids[p]).chunk < |ch|
    requires var q := Pos(LastOf(s.kids[p]).chunk, LastOf(s.kids[p]).off + 1); q !in s.kids && (x in s.kids || x == q)
    ensures
      var last := LastOf(s.kids[p]);
      x.chunk < |ch| && Headed(Within(ch, p, last), Grown(s, p, Pos(last.chunk, last.off + 1)), x)
  {
    var last := LastOf(s.kids[p]);
    var q := Pos(last.chunk, last.off + 1);
    LastChild(ch, s, p);
    var ch2 := Within(ch, p, last);
    if x == p {
      assert Headed(ch, s, p);
      assert ch2[p.chunk].first == ch[p.chunk].first;
      assert ch2[p.chunk].last == ch[p.chunk].last[p.off := q];
    } else if x in s.kids {
      assert Live(ch, x) && Headed(ch, s, x);
      assert SameHead(ch, ch2, x);
      HeadedStays(ch, s, ch2, p, q, x);
    }
  }

  lemma {:induction false} AppendWithin(ch: seq<Chunk>, s: Shape, p: Pos)
    requires Stands(ch, s) && p in s.kids && s.kids[p] != [] && LastOf(s.kids[p]).off < MASK
    ensures
      var last := LastOf(s.kids[p]);
      var q := Pos(last.chunk, last.off + 1);
      last.chunk < |ch| && Live(ch, p) && p.off < SIZE && q !in s.kids && Stands(Within(ch, p, last), Grown(s, p, q))
  {
    var last := LastOf(s.kids[p]);
    LastChild(ch, s, p);
    var q := Pos(last.chunk, last.off + 1);
    assert !Live(ch, q);
    GrownFits(s, p, q);
    WithinLive(ch, s, p);
    forall x | x in Grown(s, p, q).kids
      ensures x.chunk < |ch| && Linked(Within(ch, p, last), Grown(s, p, q), x) && Headed(Within(ch, p, last), Grown(s, p, q), x)
    {
      WithinLinked(ch, s, p, x);
      WithinHeaded(ch, s, p, x);
    }
  }

  /** A chunk in which some node has a child is not marked as a leaf. */
  lemma {:induction false} ParentIsNoLeaf(ch: seq<Chunk>, s: Shape, p: Pos)
    requires Stands(ch, s) && p in s.kids && s.kids[p] != [] && Live(ch, p)
    ensures p.off < |ch[p.chunk].first| && ch[p.chunk].first[p.off] != NONE && !ch[p.chunk].leaf
  {
    assert Headed(ch, s, p) && KidFits(s, p, 0);
    assert ChunkFits(ch[p.chunk]);
  }

  lemma {:induction false} WithinLive(ch: seq<Chunk>, s: Shape, p: Pos)
    requires Stands(ch, s) && p in s.kids && s.kids[p] != [] && LastOf(s.kids[p]).off < MASK && Live(ch, p) && LastOf(s.kids[p]).chunk < |ch|
    requires Pos(LastOf(s.kids[p]).chunk, LastOf(s.kids[p]).off + 1) !in s.kids
    ensures
      var last := LastOf(s.kids[p]);
      var ch2 := Within(ch, p, last);
      (forall c :: 0 <= c < |ch2| ==> ChunkFits(ch2[c]) && ch2[c].next < |ch2| && ch2[c].prev < |ch2|)
      && forall x :: x in Grown(s, p, Pos(last.chunk, last.off + 1)).kids <==> Live(ch2, x)
  {
    LastChild(ch, s, p);
    ParentIsNoLeaf(ch, s, p);
  }

  // A further child in a chunk of its own.

  /** Links a new chunk behind another. */
  function ChunkAfter(ch: seq<Chunk>, c: nat): seq<Chunk>
    requires c < |ch|
  {
    ch[c := ch[c].(next := |ch|)] + [EMPTY.(prev := c, parent := ch[c].parent)]
  }

  function Beyond(ch: seq<Chunk>, p: Pos, last: Pos): seq<Chunk>
    requires last.chunk < |ch| && p.chunk < |ch| && |ch[p.chunk].last| == SIZE && p.off < SIZE
  {
    WithLast(ChunkAfter(ch, last.chunk), p, Pos(|ch|, 0))
  }

  lemma {:induction false} BeyondLinked(ch: seq<Chunk>, s: Shape, p: Pos, x: Pos)
    requires Stands(ch, s) && p in s.kids && s.kids[p] != [] && Live(ch, p) && LastOf(s.kids[p]).chunk < |ch|
    requires Pos(|ch|, 0) !in s.kids && (x in s.kids || x == Pos(|ch|, 0))
    ensures x.chunk <= |ch| && Linked(Beyond(ch, p, LastOf(s.kids[p])), Grown(s, p, Pos(|ch|, 0)), x)
  {
    var last, q := LastOf(s.kids[p]), Pos(|ch|, 0);
    LastChild(ch, s, p);
    if x == last {
      assert Linked(ch, s, last);
      NoLaterSibling(s, p, last);
      BeyondOld(ch, s, p);
    } else if x in s.kids {
      assert Live(ch, x) && Linked(ch, s, x);
      BeyondSame(ch, s, p, x);
      LinkedStays(ch, s, Beyond(ch, p, last), p, q, x);
    } else {
      BeyondNew(ch, s, p);
    }
  }

  lemma {:induction false} BeyondNew(ch: seq<Chunk>, s: Shape, p: Pos)
    requires Stands(ch, s) && p in s.kids && s.kids[p] != [] && Live(ch, p) && LastOf(s.kids[p]).chunk < |ch|
    ensures Linked(Beyond(ch, p, LastOf(s.kids[p])), Grown(s, p, Pos(|ch|, 0)), Pos(|ch|, 0))
  {
    LastChild(ch, s, p);
  }

  lemma {:induction false} BeyondOld(ch: seq<Chunk>, s: Shape, p: Pos)
    requires Stands(ch, s) && p in s.kids && s.kids[p] != [] && Live(ch, p) && LastOf(s.kids[p]).chunk < |ch|
    requires Pos(|ch|, 0) !in s.kids
    ensures LastOf(s.kids[p]) in s.kids && Linked(Beyond(ch, p, LastOf(s.kids[p])), Grown(s, p, Pos(|ch|, 0)), LastOf(s.kids[p]))
  {
    var last, q := LastOf(s.kids[p]), Pos(|ch|, 0);
    LastChild(ch, s, p);
    assert Linked(ch, s, last);
    var ch2, t := Beyond(ch, p, last), Grown(s, p, q);
    assert t.kids[p][t.idx[last]] == last && t.kids[p][t.idx[last] + 1] == q;
    assert PrevOf(ch2, last) == PrevOf(ch, last);
    assert Before(t.kids[p], t.idx[last]) == Before(s.kids[p], s.idx[last]);
  }

  lemma {:induction false} ChunkAfterKeepsLinks(ch: seq<Chunk>, c: nat, x: Pos)
    requires c < |ch| && x.chunk < |ch| && 1 < |ch| && ch[x.chunk].prev < |ch| && (x.chunk == c ==> x.off < ch[c].occ) && c != 1
    ensures SameLinks(ch, ChunkAfter(ch, c), x)
  {
  }

  lemma {:induction false} BeyondSame(ch: seq<Chunk>, s: Shape, p: Pos, x: Pos)
    requires Stands(ch, s) && p in s.kids && s.kids[p] != [] && Live(ch, p) && LastOf(s.kids[p]).chunk < |ch|
    requires x in s.kids && x != LastOf(s.kids[p]) && Live(ch, x) && Linked(ch, s, x)
    ensures SameLinks(ch, Beyond(ch, p, LastOf(s.kids[p])), x)
  {
    var last := LastOf(s.kids[p]);
    LastChild(ch, s, p);
    assert p.chunk < last.chunk;
    ChunkAfterKeepsLinks(ch, last.chunk, x);
    LastKeepsLinks(ChunkAfter(ch, last.chunk), p, Pos(|ch|, 0), x);
  }

  lemma {:induction false} BeyondHeaded(ch: seq<Chunk>, s: Shape, p: Pos, x: Pos)
    requires Stands(ch, s) && p in s.kids && s.kids[p] != [] && Live(ch, p) && LastOf(s.kids[p]).chunk < |ch|
    requires Pos(|ch|, 0) !in s.kids && (x in s.kids || x == Pos(|ch|, 0))
    ensures x.chunk <= |ch| && Headed(Beyond(ch, p, LastOf(s.kids[p])), Grown(s, p, Pos(|ch|, 0)), x)
  {
    var last, q := LastOf(s.kids[p]), Pos(|ch|, 0);
    LastChild(ch, s, p);
    var ch2 := Beyond(ch, p, last);
    if x == p {
      assert Headed(ch, s, p);
      assert ch2[p.chunk].first == ch[p.chunk].first;
      assert ch2[p.chunk].last == ch[p.chunk].last[p.off := q];
    } else if x in s.kids {
      assert Live(ch, x) && Headed(ch, s, x);
      assert SameHead(ch, ch2, x);
      HeadedStays(ch, s, ch2, p, q, x);
    }
  }

  lemma {:induction false} BeyondLive(ch: seq<Chunk>, s: Shape, p: Pos)
    requires Stands(ch, s) && p in s.kids && s.kids[p] != [] && Live(ch, p) && LastOf(s.kids[p]).chunk < |ch|
    ensures
      var ch2 := Beyond(ch, p, LastOf(s.kids[p]));
      (forall c :: 0 <= c < |ch2| ==> ChunkFits(ch2[c]) && ch2[c].next < |ch2| && ch2[c].prev < |ch2|)
      && forall x :: x in Grown(s, p, Pos(|ch|, 0)).kids <==> Live(ch2, x)
  {
    LastChild(ch, s, p);
    ParentIsNoLeaf(ch, s, p);
  }

  lemma {:induction false} AppendBeyond(ch: seq<Chunk>, s: Shape, p: Pos)
    requires Stands(ch, s) && p in s.kids && s.kids[p] != []
    ensures
      var last := LastOf(s.kids[p]);
      last.chunk < |ch| && Live(ch, p) && p.off < SIZE && Pos(|ch|, 0) !in s.kids
      && Stands(Beyond(ch, p, last), Grown(s, p, Pos(|ch|, 0)))
  {
    var last, q := LastOf(s.kids[p]), Pos(|ch|, 0);
    LastChild(ch, s, p);
    assert !Live(ch, q);
    GrownFits(s, p, q);
    BeyondLive(ch, s, p);
    forall x | x in Grown(s, p, q).kids
      ensures x.chunk <= |ch| && Linked(Beyond(ch, p, last), Grown(s, p, q), x) && Headed(Beyond(ch, p, last), Grown(s, p, q), x)
    {
      BeyondLinked(ch, s, p, x);
      BeyondHeaded(ch, s, p, x);
    }
  }

  // The first child.

  function Below(ch: seq<Chunk>, p: Pos): seq<Chunk>
    requires p.chunk < |ch| && |ch[p.chunk].first| == SIZE && |ch[p.chunk].last| == SIZE && p.off < SIZE
  {
    WithLast(WithFirst(ch + [EMPTY.(parent := p)], p, Pos(|ch|, 0)), p, Pos(|ch|, 0))
  }

  lemma {:induction false} BelowNode(ch: seq<Chunk>, s: Shape, p: Pos, x: Pos)
    requires Stands(ch, s) && p in s.kids && s.kids[p] == [] && Live(ch, p)
    requires Pos(|ch|, 0) !in s.kids && (x in s.kids || x == Pos(|ch|, 0))
    ensures p.off < SIZE && x.chunk <= |ch| && Linked(Below(ch, p), Grown(s, p, Pos(|ch|, 0)), x)
    ensures Headed(Below(ch, p), Grown(s, p, Pos(|ch|, 0)), x)
  {
    if x in s.kids {
      BelowOld(ch, s, p, x);
    } else {
      BelowNew(ch, s, p);
    }
  }

  lemma {:induction false} BelowNew(ch: seq<Chunk>, s: Shape, p: Pos)
    requires Stands(ch, s) && p in s.kids && s.kids[p] == [] && Live(ch, p) && Pos(|ch|, 0) !in s.kids
    ensures p.off < SIZE && Linked(Below(ch, p), Grown(s, p, Pos(|ch|, 0)), Pos(|ch|, 0))
    ensures Headed(Below(ch, p), Grown(s, p, Pos(|ch|, 0)), Pos(|ch|, 0))
  {
    var q := Pos(|ch|, 0);
    var ch2 := Below(ch, p);
    assert ch2[|ch|] == EMPTY.(parent := p);
    assert Grown(s, p, q).kids[p] == [q];
  }

  lemma {:induction false} BelowOld(ch: seq<Chunk>, s: Shape, p: Pos, x: Pos)
    requires Stands(ch, s) && p in s.kids && s.kids[p] == [] && Live(ch, p) && Pos(|ch|, 0) !in s.kids && x in s.kids
    ensures p.off < SIZE && x.chunk < |ch| && Linked(Below(ch, p), Grown(s, p, Pos(|ch|, 0)), x)
    ensures Headed(Below(ch, p), Grown(s, p, Pos(|ch|, 0)), x)
  {
    var q := Pos(|ch|, 0);
    assert Live(ch, x) && Headed(ch, s, x) && Linked(ch, s, x);
    BelowKeepsLinks(ch, p, x);
    LinkedStays(ch, s, Below(ch, p), p, q, x);
    BelowHeads(ch, p, x);
    if x == p {
      assert Grown(s, p, q).kids[p] == [q];
    } else {
      HeadedStays(ch, s, Below(ch, p), p, q, x);
    }
  }

  lemma {:induction false} BelowHeads(ch: seq<Chunk>, p: Pos, x: Pos)
    requires p.chunk < |ch| && x.chunk < |ch| && ChunkFits(ch[p.chunk]) && ChunkFits(ch[x.chunk]) && p.off < SIZE && x.off < SIZE
    ensures x != p ==> SameHead(ch, Below(ch, p), x)
    ensures
      var c := Below(ch, p)[p.chunk];
      |c.first| == SIZE && |c.last| == SIZE && c.first[p.off] == Pos(|ch|, 0) && c.last[p.off] == Pos(|ch|, 0) && !c.leaf
  {
  }

  lemma {:induction false} BelowKeepsLinks(ch: seq<Chunk>, p: Pos, x: Pos)
    requires p.chunk < |ch| && |ch[p.chunk].first| == SIZE && |ch[p.chunk].last| == SIZE && p.off < SIZE && 1 < |ch|
    requires x.chunk < |ch| && ch[x.chunk].prev < |ch|
    ensures SameLinks(ch, Below(ch, p), x)
  {
  }

  lemma {:induction false} AppendBelow(ch: seq<Chunk>, s: Shape, p: Pos)
    requires Stands(ch, s) && p in s.kids && s.kids[p] == []
    ensures Live(ch, p) && p.off < SIZE && Pos(|ch|, 0) !in s.kids && Stands(Below(ch, p), Grown(s, p, Pos(|ch|, 0)))
  {
    var q := Pos(|ch|, 0);
    assert !Live(ch, q) && Live(ch, p);
    GrownFits(s, p, q);
    forall x | x in Grown(s, p, q).kids
      ensures x.chunk <= |ch| && Linked(Below(ch, p), Grown(s, p, q), x) && Headed(Below(ch, p), Grown(s, p, q), x)
    {
      BelowNode(ch, s, p, x);
    }
    BelowLive(ch, s, p);
  }

  lemma {:induction false} BelowLive(ch: seq<Chunk>, s: Shape, p: Pos)
    requires Stands(ch, s) && p in s.kids && Live(ch, p) && p.off < SIZE
    ensures
      var ch2 := Below(ch, p);
      (forall c :: 0 <= c < |ch2| ==> ChunkFits(ch2[c]) && ch2[c].next < |ch2| && ch2[c].prev < |ch2|)
      && forall x :: x in Grown(s, p, Pos(|ch|, 0)).kids <==> Live(ch2, x)
  {
    var ch2 := Below(ch, p);
    forall c | 0 <= c < |ch2|
      ensures ChunkFits(ch2[c]) && ch2[c].next < |ch2| && ch2[c].prev < |ch2| && ch2[c].occ == if c == |ch| then 0 else ch[c].occ
    {
      if c < |ch| {
        assert ChunkFits(ch[c]);
        if c == p.chunk {
          assert ch2[c].first[p.off] != NONE;
        }
      } else {
        assert ch2[c] == EMPTY.(parent := p);
      }
    }
    forall x
      ensures x in Grown(s, p, Pos(|ch|, 0)).kids <==> Live(ch2, x)
    {
      assert x in s.kids <==> Live(ch, x);
    }
  }

  // ---------- the store ----------

  class Store {
    var chunks: seq<Chunk>
    ghost var shape: Shape

    ghost predicate Valid()
      reads this
    {
      Stands(chunks, shape)
    }

    constructor ()
      ensures Valid() && chunks == [] && shape.kids == map[]
    {
      chunks, shape := [], Shape(map[], map[], map[]);
    }

    method AddRoot() returns (r: Pos)
      requires Valid() && chunks == []
      modifies this
      ensures Valid() && r == ROOT && |chunks| == 2 && shape == Shape(map[ROOT := []], map[], map[])
    {
      chunks := [EMPTY, EMPTY];
      shape := Shape(map[ROOT := []], map[], map[]);
      r := ROOT;
    }

    /** A new last child. */
    method AddChild(p: Pos) returns (q: Pos)
      requires Valid() && p in shape.kids
      modifies this
      ensures |chunks| <= |old(chunks)| + 1
      ensures Valid() && q !in old(shape).kids && shape == Grown(old(shape), p, q)
    {
      assert Live(chunks, p) && Headed(chunks, shape, p);
      var last := chunks[p.chunk].last[p.off];
      if last != NONE {
        q := AppendAfter(last, p);
        return;
      }
      NoLastNoKids(chunks, shape, p);
      AppendBelow(chunks, shape, p);
      q := Pos(|chunks|, 0);
      chunks := chunks + [EMPTY.(parent := p)];
      chunks := WithFirst(chunks, p, q);
      chunks := WithLast(chunks, p, q);
      shape := Grown(shape, p, q);
    }

    /** A new last sibling of any child. */
    method AppendSibling(x: Pos) returns (q: Pos)
      requires Valid() && x in shape.kids && x != ROOT
      modifies this
      ensures Valid() && x in old(shape).par && old(shape).par[x] in old(shape).kids
      ensures q !in old(shape).kids && shape == Grown(old(shape), old(shape).par[x], q)
    {
      assert Live(chunks, x) && Linked(chunks, shape, x);
      var p := chunks[x.chunk].parent;
      assert Live(chunks, p) && Headed(chunks, shape, p);
      q := AppendAfter(chunks[p.chunk].last[p.off], p);
    }

    /** A new sibling behind the last one: in its chunk, or in a new one when that is full. */
    method AppendAfter(last: Pos, p: Pos) returns (q: Pos)
      requires Valid() && p in shape.kids && shape.kids[p] != [] && last == LastOf(shape.kids[p])
      modifies this
      ensures |chunks| <= |old(chunks)| + 1
      ensures Valid() && q !in old(shape).kids && shape == Grown(old(shape), p, q)
    {
      LastChild(chunks, shape, p);
      if chunks[last.chunk].occ == MASK {
        q := AppendChunk(last, p);
      } else {
        q := AppendSlot(last, p);
      }
    }

    /** In a chunk of its own, behind a full one. */
    method AppendChunk(last: Pos, p: Pos) returns (q: Pos)
      requires Valid() && p in shape.kids && shape.kids[p] != [] && last == LastOf(shape.kids[p])
      modifies this
      ensures |chunks| <= |old(chunks)| + 1
      ensures Valid() && q !in old(shape).kids && shape == Grown(old(shape), p, q)
    {
      AppendBeyond(chunks, shape, p);
      q := Pos(|chunks|, 0);
      ghost var next := Beyond(chunks, p, last);
      chunks := ChunkAfter(chunks, last.chunk);
      chunks := WithLast(chunks, p, q);
      shape := Grown(shape, p, q);
      assert chunks == next;
    }

    /** In the next slot of the chunk of the last child. */
    method AppendSlot(last: Pos, p: Pos) returns (q: Pos)
      requires Valid() && p in shape.kids && shape.kids[p] != [] && last == LastOf(shape.kids[p])
      requires last.chunk < |chunks| && chunks[last.chunk].occ != MASK
      modifies this
      ensures |chunks| <= |old(chunks)| + 1
      ensures Valid() && q !in old(shape).kids && shape == Grown(old(shape), p, q)
    {
      LastChild(chunks, shape, p);
      AppendWithin(chunks, shape, p);
      var c, occ := last.chunk, chunks[last.chunk].occ;
      q := Pos(c, occ + 1);
      ghost var next := Within(chunks, p, last);
      chunks := chunks[c := chunks[c].(occ := occ + 1)];
      chunks := WithLast(chunks, p, q);
      shape := Grown(shape, p, q);
      assert chunks == next;
    }
  }

  lemma {:induction false} LastIsNode(s: Shape, p: Pos)
    requires ShapeFits(s) && p in s.kids
    ensures LastOf(s.kids[p]) == NONE <==> s.kids[p] == []
  {
    if s.kids[p] != [] {
      assert KidFits(s, p, |s.kids[p]| - 1);
    }
  }

  lemma {:induction false} NoLastNoKids(ch: seq<Chunk>, s: Shape, p: Pos)
    requires Stands(ch, s) && p in s.kids && p.chunk < |ch| && Headed(ch, s, p) && ch[p.chunk].last[p.off] == NONE
    ensures s.kids[p] == []
  {
    LastIsNode(s, p);
  }

  // ---------- orders of a tree ----------

  /** All nodes are in chunks below the bound. */
  ghost predicate Bounded(s: Shape, n: nat)
  {
    ShapeFits(s) && forall p :: p in s.kids ==> p.chunk < n
  }

  /** The subtree of a node, parents first. */
  ghost function Pre(s: Shape, n: nat, p: Pos): seq<Pos>
    requires Bounded(s, n) && p in s.kids
    decreases n - p.chunk, 1, 0
  {
    [p] + PreFrom(s, n, p, 0)
  }

  /** The subtrees of its children, from one on. */
  ghost function PreFrom(s: Shape, n: nat, p: Pos, i: nat): seq<Pos>
    requires Bounded(s, n) && p in s.kids
    decreases n - p.chunk, 0, |s.kids[p]| - i
  {
    if i >= |s.kids[p]| then []
    else
      assert KidFits(s, p, i);
      Pre(s, n, s.kids[p][i]) + PreFrom(s, n, p, i + 1)
  }

  /** The subtree of a node, children first. */
  ghost function Post(s: Shape, n: nat, p: Pos): seq<Pos>
    requires Bounded(s, n) && p in s.kids
    decreases n - p.chunk, 1, 0
  {
    PostFrom(s, n, p, 0) + [p]
  }

  ghost function PostFrom(s: Shape, n: nat, p: Pos, i: nat): seq<Pos>
    requires Bounded(s, n) && p in s.kids
    decreases n - p.chunk, 0, |s.kids[p]| - i
  {
    if i >= |s.kids[p]| then []
    else
      assert KidFits(s, p, i);
      Post(s, n, s.kids[p][i]) + PostFrom(s, n, p, i + 1)
  }

  /** q is in the subtree of a node. */
  ghost predicate Under(s: Shape, start: Pos, q: Pos)
    requires ShapeFits(s)
    decreases q.chunk
  {
    q in s.kids && (q == start || (q != ROOT && NodeFits(s, q) && Under(s, start, s.par[q])))
  }

  lemma {:induction false} UnderIsLater(s: Shape, start: Pos, q: Pos)
    requires ShapeFits(s) && Under(s, start, q) && q != start
    ensures q.chunk > start.chunk && q != ROOT && NodeFits(s, q) && Under(s, start, s.par[q])
    decreases q.chunk
  {
    if s.par[q] != start {
      UnderIsLater(s, start, s.par[q]);
    }
  }

  lemma {:induction false} KidIsUnder(s: Shape, start: Pos, p: Pos, i: nat)
    requires ShapeFits(s) && Under(s, start, p) && i < |s.kids[p]|
    ensures KidFits(s, p, i) && Under(s, start, s.kids[p][i]) && s.kids[p][i] != start
  {
    assert KidFits(s, p, i);
    assert NodeFits(s, s.kids[p][i]);
    if p != start {
      UnderIsLater(s, start, p);
    }
  }

  // ---------- parents first ----------

  /** What follows the subtree of q, up to the end of the subtree of `start`, which is only noticed from
      below. */
  ghost function Rest(s: Shape, n: nat, start: Pos, q: Pos): seq<Pos>
    requires Bounded(s, n) && q in s.kids
    decreases q.chunk
  {
    if q == ROOT then []
    else
      assert NodeFits(s, q);
      PreFrom(s, n, s.par[q], s.idx[q] + 1) + if s.par[q] == start then [] else Rest(s, n, start, s.par[q])
  }

  /** What is still to come after q. */
  ghost function PreTodo(s: Shape, n: nat, start: Pos, q: Pos): seq<Pos>
    requires Bounded(s, n) && q in s.kids
  {
    if q == start && s.kids[q] != [] then PreFrom(s, n, q, 0) else PreFrom(s, n, q, 0) + Rest(s, n, start, q)
  }

  lemma {:induction false} IntoKid(s: Shape, n: nat, start: Pos, q: Pos)
    requires Bounded(s, n) && q in s.kids && s.kids[q] != [] && (s.kids[q][0] != start || (start in s.kids && s.kids[start] == []))
    ensures s.kids[q][0] in s.kids
    ensures PreTodo(s, n, start, q) == [s.kids[q][0]] + PreTodo(s, n, start, s.kids[q][0])
  {
    var c := s.kids[q][0];
    RestOfKid(s, n, start, q, 0);
    var f, g := PreFrom(s, n, c, 0), PreFrom(s, n, q, 1);
    var r := if q == start then [] else Rest(s, n, start, q);
    assert PreFrom(s, n, q, 0) == ([c] + f) + g;
    KidTodo(s, n, start, q);
    Regroup4([c], f, g, r);
    assert q == start ==> (([c] + f) + g) + r == ([c] + f) + g;
  }

  lemma {:induction false} KidTodo(s: Shape, n: nat, start: Pos, q: Pos)
    requires Bounded(s, n) && q in s.kids && s.kids[q] != [] && (s.kids[q][0] != start || (start in s.kids && s.kids[start] == []))
    ensures
      var c := s.kids[q][0];
      c in s.kids && PreTodo(s, n, start, c) == PreFrom(s, n, c, 0) + (PreFrom(s, n, q, 1) + if q == start then [] else Rest(s, n, start, q))
  {
    RestOfKid(s, n, start, q, 0);
  }

  lemma {:induction false} RestOfKid(s: Shape, n: nat, start: Pos, p: Pos, i: nat)
    requires Bounded(s, n) && p in s.kids && i < |s.kids[p]|
    ensures
      var c := s.kids[p][i];
      c in s.kids && Rest(s, n, start, c) == PreFrom(s, n, p, i + 1) + if p == start then [] else Rest(s, n, start, p)
  {
    assert KidFits(s, p, i);
    assert NodeFits(s, s.kids[p][i]);
  }

  lemma {:induction false} Regroup4(a: seq<Pos>, b: seq<Pos>, c: seq<Pos>, d: seq<Pos>)
    ensures ((a + b) + c) + d == a + (b + (c + d))
  {
  }

  /** Going on to the next sibling. */
  lemma {:induction false} IntoSibling(s: Shape, n: nat, start: Pos, q: Pos)
    requires Bounded(s, n) && q in s.kids && q != ROOT && NodeFits(s, q) && s.idx[q] + 1 < |s.kids[s.par[q]]|
    ensures
      var x := s.kids[s.par[q]][s.idx[q] + 1];
      x in s.kids && (x != start || s.kids[x] == [] ==> Rest(s, n, start, q) == [x] + PreTodo(s, n, start, x))
  {
    var p, i := s.par[q], s.idx[q] + 1;
    RestOfKid(s, n, start, p, i);
    var x := s.kids[p][i];
    var r := if p == start then [] else Rest(s, n, start, p);
    var f, g := PreFrom(s, n, x, 0), PreFrom(s, n, p, i + 1);
    assert PreFrom(s, n, p, i) == ([x] + f) + g;
    assert Rest(s, n, start, q) == (([x] + f) + g) + r;
    Regroup4([x], f, g, r);
    if s.kids[x] == [] || x != start {
      assert PreTodo(s, n, start, x) == f + (g + r);
    }
  }

  lemma {:induction false} NoSibling(s: Shape, n: nat, start: Pos, q: Pos)
    requires Bounded(s, n) && q in s.kids && q != ROOT && NodeFits(s, q) && s.idx[q] + 1 == |s.kids[s.par[q]]|
    ensures Rest(s, n, start, q) == if s.par[q] == start then [] else Rest(s, n, start, s.par[q])
  {
    assert PreFrom(s, n, s.par[q], s.idx[q] + 1) == [];
    var r := if s.par[q] == start then [] else Rest(s, n, start, s.par[q]);
    assert [] + r == r;
  }

  lemma {:induction false} StandsIsBounded(ch: seq<Chunk>, s: Shape)
    requires Stands(ch, s)
    ensures Bounded(s, |ch|)
  {
    forall p | p in s.kids
      ensures p.chunk < |ch|
    {
      assert Live(ch, p);
    }
  }

  /** Reads the links of one node. */
  lemma {:induction false} LinksOf(ch: seq<Chunk>, s: Shape, q: Pos)
    requires Stands(ch, s) && q in s.kids
    ensures Live(ch, q) && q.off < SIZE && |ch[q.chunk].first| == SIZE
    ensures ch[q.chunk].first[q.off] == FirstOf(s.kids[q]) && (ch[q.chunk].leaf ==> s.kids[q] == [])
    ensures FirstOf(s.kids[q]) == NONE <==> s.kids[q] == []
    ensures q != ROOT ==> NodeFits(s, q) && ch[q.chunk].parent == s.par[q] && NextOf(ch, q) == After(s.kids[s.par[q]], s.idx[q])
    ensures q != ROOT ==> (After(s.kids[s.par[q]], s.idx[q]) == NONE <==> s.idx[q] + 1 == |s.kids[s.par[q]]|)
    ensures q == ROOT ==> ch[1].parent == NONE && NextOf(ch, q) == NONE
    ensures q != NONE
  {
    assert Live(ch, q) && Headed(ch, s, q) && Linked(ch, s, q);
    if s.kids[q] != [] {
      assert KidFits(s, q, 0);
    }
    if q != ROOT {
      if s.idx[q] + 1 < |s.kids[s.par[q]]| {
        assert KidFits(s, s.par[q], s.idx[q] + 1);
      }
    }
  }

  lemma {:induction false} LeafTodo(s: Shape, n: nat, start: Pos, q: Pos)
    requires Bounded(s, n) && q in s.kids && s.kids[q] == []
    ensures PreTodo(s, n, start, q) == Rest(s, n, start, q)
  {
    assert PreFrom(s, n, q, 0) == [];
    assert [] + Rest(s, n, start, q) == Rest(s, n, start, q);
  }

  class PreOrderIterator {
    const chunks: seq<Chunk>
    ghost const shape: Shape
    const start: Pos
    var current: Pos

    ghost predicate Valid()
      reads this
    {
      Stands(chunks, shape) && Bounded(shape, |chunks|) && start in shape.kids
      && (current != NONE ==> current in shape.kids && (shape.kids[start] != [] ==> Under(shape, start, current)))
    }

    /** What is still to come after the current node. */
    ghost function Todo(): seq<Pos>
      reads this
      requires Valid() && current != NONE
    {
      PreTodo(shape, |chunks|, start, current)
    }

    constructor (store: Store, p: Pos)
      requires store.Valid() && p in store.shape.kids
      ensures Valid() && chunks == store.chunks && shape == store.shape && start == p && current == p && p != NONE
    {
      chunks, shape, start, current := store.chunks, store.shape, p, p;
      StandsIsBounded(store.chunks, store.shape);
      LinksOf(store.chunks, store.shape, p);
    }

    method Advance()
      requires Valid() && current != NONE
      modifies this
      ensures Valid()
      ensures if old(Todo()) == [] then current == NONE
              else current != NONE && current == old(Todo())[0] && Todo() == old(Todo())[1..]
    {
      var q := current;
      LinksOf(chunks, shape, q);
      if !chunks[q.chunk].leaf {
        var child := chunks[q.chunk].first[q.off];
        if child != NONE {
          Descend(child);
          return;
        }
      }
      LeafTodo(shape, |chunks|, start, q);
      Climb(q);
    }

    method Descend(child: Pos)
      requires Valid() && current != NONE && shape.kids[current] != [] && child == shape.kids[current][0]
      modifies this
      ensures Valid() && old(Todo()) != [] && current != NONE && current == old(Todo())[0] && Todo() == old(Todo())[1..]
    {
      ghost var q := current;
      if shape.kids[start] != [] {
        KidIsUnder(shape, start, q, 0);
      } else {
        assert KidFits(shape, q, 0);
      }
      IntoKid(shape, |chunks|, start, q);
      LinksOf(chunks, shape, child);
      current := child;
    }

    /** From a node without children to the next sibling of it or of an ancestor. */
    method Climb(q: Pos)
      requires Valid() && current == q && q in shape.kids && (shape.kids[start] != [] ==> q != start)
      modifies this
      ensures Valid()
      ensures
        var todo := Rest(shape, |chunks|, start, q);
        if todo == [] then current == NONE else current != NONE && current == todo[0] && Todo() == todo[1..]
    {
      ghost var n := |chunks|;
      var at := q;
      while true
        invariant Valid() && current == q && at in shape.kids && (shape.kids[start] != [] ==> at != start && Under(shape, start, at))
        invariant Rest(shape, n, start, at) == Rest(shape, n, start, q)
        decreases at.chunk
      {
        LinksOf(chunks, shape, at);
        var sibling := NextOf(chunks, at);
        if sibling != NONE {
          ToSibling(at);
          return;
        }
        var parent := chunks[at.chunk].parent;
        if at != ROOT {
          NoSibling(shape, n, start, at);
          if shape.kids[start] != [] {
            UnderIsLater(shape, start, at);
          }
        }
        if parent == start || parent == NONE {
          LinksOf(chunks, shape, start);
          ParentEnds(at);
          current := NONE;
          return;
        }
        at := parent;
      }
    }

    lemma {:induction false} ParentEnds(at: Pos)
      requires Valid() && at in shape.kids
      requires at == ROOT || (NodeFits(shape, at) && shape.idx[at] + 1 == |shape.kids[shape.par[at]]| && (shape.par[at] == start || shape.par[at] == NONE))
      ensures Rest(shape, |chunks|, start, at) == []
    {
      if at != ROOT {
        LinksOf(chunks, shape, shape.par[at]);
        NoSibling(shape, |chunks|, start, at);
      }
    }

    method ToSibling(at: Pos)
      requires Valid() && at in shape.kids && at != ROOT && NodeFits(shape, at) && at.chunk < |chunks|
      requires shape.kids[start] != [] ==> at != start && Under(shape, start, at)
      requires NextOf(chunks, at) != NONE && NextOf(chunks, at) == After(shape.kids[shape.par[at]], shape.idx[at])
      modifies this
      ensures Valid()
      ensures
        var todo := Rest(shape, |chunks|, start, at);
        todo != [] && current != NONE && current == todo[0] && Todo() == todo[1..]
    {
      if shape.kids[start] != [] {
        UnderIsLater(shape, start, at);
        KidIsUnder(shape, start, shape.par[at], shape.idx[at] + 1);
      }
      IntoSibling(shape, |chunks|, start, at);
      current := NextOf(chunks, at);
    }
  }

  /** The walk of an iterator from a node: the node, and what then comes. */
  ghost function WalkFrom(s: Shape, n: nat, start: Pos): seq<Pos>
    requires Bounded(s, n) && start in s.kids
  {
    [start] + PreTodo(s, n, start, start)
  }

  /** Runs the iterator to its end. */
  method PreOrder(store: Store, start: Pos) returns (all: seq<Pos>)
    requires store.Valid() && start in store.shape.kids
    ensures Bounded(store.shape, |store.chunks|)
    ensures all == WalkFrom(store.shape, |store.chunks|, start)
  {
    StandsIsBounded(store.chunks, store.shape);
    var it := new PreOrderIterator(store, start);
    var rest := DrainPre(it);
    all := [start] + rest;
  }

  method DrainPre(it: PreOrderIterator) returns (all: seq<Pos>)
    requires it.Valid() && it.current != NONE
    modifies it
    ensures all == old(it.Todo())
  {
    all := [];
    ghost var left := it.Todo();
    while true
      invariant it.Valid() && it.current != NONE && left == it.Todo() && old(it.Todo()) == all + left
      decreases |left|
    {
      it.Advance();
      if it.current == NONE {
        return;
      }
      OneMore(all, left);
      all := all + [it.current];
      left := left[1..];
    }
  }

  lemma {:induction false} OneMore(all: seq<Pos>, left: seq<Pos>)
    requires left != []
    ensures all + left == all + [left[0]] + left[1..]
  {
  }

  /** Neither the node nor an ancestor of it has a next sibling. */
  ghost predicate LastAbove(s: Shape, q: Pos)
    requires ShapeFits(s) && q in s.kids
    decreases q.chunk
  {
    q == ROOT || (assert NodeFits(s, q); s.idx[q] + 1 == |s.kids[s.par[q]]| && LastAbove(s, s.par[q]))
  }

  lemma {:induction false} NothingRests(s: Shape, n: nat, start: Pos, q: Pos)
    requires Bounded(s, n) && start in s.kids && s.kids[start] == [] && q in s.kids
    ensures Rest(s, n, start, q) == [] <==> LastAbove(s, q)
    decreases q.chunk
  {
    if q != ROOT {
      assert NodeFits(s, q);
      NothingRests(s, n, start, s.par[q]);
      var after := PreFrom(s, n, s.par[q], s.idx[q] + 1);
      if s.idx[q] + 1 < |s.kids[s.par[q]]| {
        assert KidFits(s, s.par[q], s.idx[q] + 1);
        assert |after| == |Pre(s, n, s.kids[s.par[q]][s.idx[q] + 1])| + |PreFrom(s, n, s.par[q], s.idx[q] + 2)|;
      }
      assert |after + Rest(s, n, start, s.par[q])| == |after| + |Rest(s, n, start, s.par[q])|;
    }
  }

  /** From a node with children the iterator lists the subtree. From another node it goes on to what follows the
      node, and so lists the subtree only if neither the node nor an ancestor has a next sibling. */
  lemma {:induction false} WalkIsSubtree(s: Shape, n: nat, start: Pos)
    requires Bounded(s, n) && start in s.kids
    ensures WalkFrom(s, n, start) == Pre(s, n, start) <==> s.kids[start] != [] || LastAbove(s, start)
  {
    var from, rest := PreFrom(s, n, start, 0), Rest(s, n, start, start);
    if s.kids[start] == [] {
      NothingRests(s, n, start, start);
      assert from == [];
      assert from + rest == rest;
      assert |[start] + rest| == 1 + |rest|;
      assert [start] + from == [start];
      if rest == [] {
        assert [start] + rest == [start];
      }
    }
  }

  // ---------- children first ----------

  /** What follows q, up to the end of the subtree of `start`. */
  ghost function PostTodo(s: Shape, n: nat, start: Pos, q: Pos): seq<Pos>
    requires Bounded(s, n) && Under(s, start, q)
    decreases q.chunk
  {
    if q == start then []
    else PostFrom(s, n, s.par[q], s.idx[q] + 1) + ([s.par[q]] + PostTodo(s, n, start, s.par[q]))
  }

  lemma {:induction false} PostIntoKid(s: Shape, n: nat, start: Pos, p: Pos, i: nat)
    requires Bounded(s, n) && Under(s, start, p) && i < |s.kids[p]|
    ensures Under(s, start, s.kids[p][i])
    ensures
      PostFrom(s, n, p, i) + ([p] + PostTodo(s, n, start, p)) ==
      Post(s, n, s.kids[p][i]) + PostTodo(s, n, start, s.kids[p][i])
  {
    KidIsUnder(s, start, p, i);
    assert KidFits(s, p, i);
    var c := s.kids[p][i];
    Regroup(Post(s, n, c), PostFrom(s, n, p, i + 1), [p] + PostTodo(s, n, start, p));
  }

  class PostOrderIterator {
    const chunks: seq<Chunk>
    ghost const shape: Shape
    const start: Pos
    var current: Pos

    ghost predicate Valid()
      reads this
    {
      Stands(chunks, shape) && Bounded(shape, |chunks|) && start in shape.kids && (current != NONE ==> Under(shape, start, current))
    }

    ghost function Todo(): seq<Pos>
      reads this
      requires Valid() && current != NONE
    {
      PostTodo(shape, |chunks|, start, current)
    }

    constructor (store: Store, p: Pos)
      requires store.Valid() && p in store.shape.kids
      ensures Valid() && chunks == store.chunks && shape == store.shape && start == p && current != NONE
      ensures [current] + Todo() == Post(shape, |chunks|, p)
    {
      chunks, shape, start, current := store.chunks, store.shape, p, p;
      new;
      StandsIsBounded(chunks, shape);
      LinksOf(chunks, shape, p);
      DescendToFirst(p);
      assert Post(shape, |chunks|, p) + [] == Post(shape, |chunks|, p);
    }

    /** Goes to the first node of a subtree. */
    method DescendToFirst(p: Pos)
      requires Stands(chunks, shape) && Bounded(shape, |chunks|) && start in shape.kids && Under(shape, start, p)
      modifies this
      ensures Valid() && current != NONE
      ensures [current] + Todo() == Post(shape, |chunks|, p) + PostTodo(shape, |chunks|, start, p)
    {
      ghost var n := |chunks|;
      current := p;
      LinksOf(chunks, shape, current);
      while chunks[current.chunk].first[current.off] != NONE
        invariant Valid() && current != NONE && Live(chunks, current) && current.off < SIZE && |chunks[current.chunk].first| == SIZE
        invariant chunks[current.chunk].first[current.off] == FirstOf(shape.kids[current])
        invariant Post(shape, n, current) + Todo() == Post(shape, n, p) + PostTodo(shape, n, start, p)
        decreases n - current.chunk
      {
        ghost var q := current;
        LinksOf(chunks, shape, q);
        PostIntoKid(shape, n, start, q, 0);
        KidIsUnder(shape, start, q, 0);
        Regroup(PostFrom(shape, n, q, 0), [q], PostTodo(shape, n, start, q));
        current := chunks[current.chunk].first[current.off];
        LinksOf(chunks, shape, current);
      }
      LinksOf(chunks, shape, current);
      assert PostFrom(shape, n, current, 0) == [];
      assert Post(shape, n, current) == [current];
    }

    method Advance()
      requires Valid() && current != NONE
      modifies this
      ensures Valid()
      ensures if old(Todo()) == [] then current == NONE
              else current != NONE && current == old(Todo())[0] && Todo() == old(Todo())[1..]
    {
      ghost var n, q := |chunks|, current;
      if current == start {
        current := NONE;
        return;
      }
      UnderIsLater(shape, start, q);
      LinksOf(chunks, shape, q);
      var next := NextOf(chunks, current);
      if next != NONE {
        PostIntoKid(shape, n, start, shape.par[q], shape.idx[q] + 1);
        DescendToFirst(next);
        FirstOfTodo(current, Todo(), PostTodo(shape, n, start, q));
      } else {
        assert PostFrom(shape, n, shape.par[q], shape.idx[q] + 1) == [];
        assert [] + ([shape.par[q]] + PostTodo(shape, n, start, shape.par[q])) == [shape.par[q]] + PostTodo(shape, n, start, shape.par[q]);
        LinksOf(chunks, shape, shape.par[q]);
        current := chunks[current.chunk].parent;
      }
    }
  }

  lemma {:induction false} FirstOfTodo(x: Pos, rest: seq<Pos>, todo: seq<Pos>)
    requires [x] + rest == todo
    ensures todo != [] && todo[0] == x && todo[1..] == rest
  {
  }

  /** From any node, the iterator lists the subtree, children first. */
  method PostOrder(store: Store, start: Pos) returns (all: seq<Pos>)
    requires store.Valid() && start in store.shape.kids
    ensures Bounded(store.shape, |store.chunks|)
    ensures all == Post(store.shape, |store.chunks|, start)
  {
    StandsIsBounded(store.chunks, store.shape);
    var it := new PostOrderIterator(store, start);
    var first := it.current;
    var rest := DrainPost(it);
    all := [first] + rest;
  }

  method DrainPost(it: PostOrderIterator) returns (all: seq<Pos>)
    requires it.Valid() && it.current != NONE
    modifies it
    ensures all == old(it.Todo())
  {
    all := [];
    ghost var left := it.Todo();
    while true
      invariant it.Valid() && it.current != NONE && left == it.Todo() && old(it.Todo()) == all + left
      decreases |left|
    {
      it.Advance();
      if it.current == NONE {
        return;
      }
      OneMore(all, left);
      all := all + [it.current];
      left := left[1..];
    }
  }
}
