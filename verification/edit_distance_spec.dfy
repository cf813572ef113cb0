/**
 The recursive edit distance between two ordered labelled forests, and its laws.

 `Dist` is the reference definition that the dynamic programme of TreeEditDistance is
 proved to compute: delete the rightmost root, insert the rightmost root, or match the two.
 No law below assumes anything about the signs of the costs unless it says so.
 */
module EditDistanceSpec {

  /** A node handle: its tree position identifies it, its type is what the default relabel cost compares. */
  datatype Node = Node(pos: nat, typ: int)

  datatype Tree = Tree(root: Node, kids: Forest)

  /** An ordered forest, read from its rightmost tree. */
  datatype Forest = Nil | Snoc(left: Forest, last: Tree)

  function One(t: Tree): Forest
  {
    Snoc(Nil, t)
  }

  function Concat(f: Forest, g: Forest): Forest
  {
    match g
    case Nil => f
    case Snoc(left, last) => Snoc(Concat(f, left), last)
  }

  /** The costs of one run. */
  datatype CostModel = CostModel(insert: real, del: real, relabel: (Node, Node) -> real)

  function Min3(a: real, b: real, c: real): real
  {
    var ab := if b < a then b else a;
    if c < ab then c else ab
  }

  function Size(f: Forest): nat
  {
    match f
    case Nil => 0
    case Snoc(left, last) => Size(left) + 1 + Size(last.kids)
  }

  lemma {:induction false} SizeConcat(f: Forest, g: Forest)
    ensures Size(Concat(f, g)) == Size(f) + Size(g)
  {
    if g.Snoc? {
      SizeConcat(f, g.left);
    }
  }

  lemma {:induction false} ConcatAssoc(f: Forest, g: Forest, h: Forest)
    ensures Concat(Concat(f, g), h) == Concat(f, Concat(g, h))
  {
    if h.Snoc? {
      ConcatAssoc(f, g, h.left);
    }
  }

  lemma {:induction false} ConcatNil(g: Forest)
    ensures Concat(Nil, g) == g
  {
    if g.Snoc? {
      ConcatNil(g.left);
    }
  }

  /** Removing the rightmost root leaves its children in its place. */
  function Pruned(f: Forest): (r: Forest)
    requires f.Snoc?
    ensures Size(r) == Size(f) - 1
  {
    SizeConcat(f.left, f.last.kids);
    Concat(f.left, f.last.kids)
  }

  ghost function Dist(c: CostModel, f: Forest, g: Forest): real
    decreases Size(f) + Size(g)
  {
    if f.Nil? && g.Nil? then 0.0
    else if g.Nil? then Dist(c, Pruned(f), g) + c.del
    else if f.Nil? then Dist(c, f, Pruned(g)) + c.insert
    else
      Min3(Dist(c, Pruned(f), g) + c.del,
           Dist(c, f, Pruned(g)) + c.insert,
           Dist(c, f.left, g.left) + Dist(c, f.last.kids, g.last.kids) + c.relabel(f.last.root, g.last.root))
  }

  // ---------- distances to the empty forest ----------

  /** `n` equal costs added up. */
  ghost function Scaled(n: nat, x: real): real
  {
    if n == 0 then 0.0 else Scaled(n - 1, x) + x
  }

  lemma {:induction false} ScaledIsProduct(n: nat, x: real)
    ensures Scaled(n, x) == n as real * x
  {
    if n != 0 {
      ScaledIsProduct(n - 1, x);
      assert n as real == (n - 1) as real + 1.0;
    }
  }

  lemma {:induction false} DistFromEmpty(c: CostModel, g: Forest)
    ensures Dist(c, Nil, g) == Scaled(Size(g), c.insert)
    decreases Size(g)
  {
    if g.Snoc? {
      DistFromEmpty(c, Pruned(g));
    }
  }

  lemma {:induction false} DistToEmpty(c: CostModel, f: Forest)
    ensures Dist(c, f, Nil) == Scaled(Size(f), c.del)
    decreases Size(f)
  {
    if f.Snoc? {
      DistToEmpty(c, Pruned(f));
    }
  }

  // ---------- subadditivity, and the recurrence the tables use ----------

  lemma {:induction false} PrunedConcat(f: Forest, g: Forest)
    requires g.Snoc?
    ensures Pruned(Concat(f, g)) == Concat(f, Pruned(g))
    ensures Size(Concat(f, g)) == Size(f) + Size(g)
  {
    ConcatAssoc(f, g.left, g.last.kids);
    SizeConcat(f, g);
  }

  /** Deleting a rightmost root is always one of the choices. */
  lemma {:induction false} DistDelete(c: CostModel, f: Forest, g: Forest)
    requires f.Snoc?
    ensures Dist(c, f, g) <= Dist(c, Pruned(f), g) + c.del
  {
  }

  lemma {:induction false} DistInsert(c: CostModel, f: Forest, g: Forest)
    requires g.Snoc?
    ensures Dist(c, f, g) <= Dist(c, f, Pruned(g)) + c.insert
  {
  }

  lemma {:induction false} DistMatch(c: CostModel, f: Forest, g: Forest)
    requires f.Snoc? && g.Snoc?
    ensures Dist(c, f, g) <=
            Dist(c, f.left, g.left) + Dist(c, f.last.kids, g.last.kids) + c.relabel(f.last.root, g.last.root)
  {
  }

  /** Editing two neighbouring pieces apart never beats editing them together. */
  lemma {:induction false} Subadditive(c: CostModel, f: Forest, g: Forest, f2: Forest, g2: Forest)
    ensures Dist(c, Concat(f, f2), Concat(g, g2)) <= Dist(c, f, g) + Dist(c, f2, g2)
    decreases Size(f2) + Size(g2)
  {
    if f2.Nil? && g2.Nil? {
    } else if f2.Snoc? && Dist(c, f2, g2) == Dist(c, Pruned(f2), g2) + c.del {
      PrunedConcat(f, f2);
      Subadditive(c, f, g, Pruned(f2), g2);
      DistDelete(c, Concat(f, f2), Concat(g, g2));
    } else if g2.Snoc? && Dist(c, f2, g2) == Dist(c, f2, Pruned(g2)) + c.insert {
      PrunedConcat(g, g2);
      Subadditive(c, f, g, f2, Pruned(g2));
      DistInsert(c, Concat(f, f2), Concat(g, g2));
    } else {
      PrunedConcat(f, f2);
      PrunedConcat(g, g2);
      Subadditive(c, f, g, f2.left, g2.left);
      DistMatch(c, Concat(f, f2), Concat(g, g2));
    }
  }

  lemma {:induction false} DistTrees(c: CostModel, t: Tree, u: Tree)
    ensures Dist(c, One(t), One(u)) ==
            Min3(Dist(c, t.kids, One(u)) + c.del, Dist(c, One(t), u.kids) + c.insert,
                 Dist(c, t.kids, u.kids) + c.relabel(t.root, u.root))
  {
    ConcatNil(t.kids);
    ConcatNil(u.kids);
  }

  lemma {:induction false} Min3Sandwich(d: real, a: real, b: real, m: real, x: real)
    requires d == Min3(a, b, m) && d <= x <= m
    ensures d == Min3(a, b, x)
  {
  }

  lemma {:induction false} MatchBound(c: CostModel, t: Tree, u: Tree)
    ensures Dist(c, One(t), One(u)) <= Dist(c, t.kids, u.kids) + c.relabel(t.root, u.root)
  {
    DistTrees(c, t, u);
  }

  lemma {:induction false} DistChoices(c: CostModel, f: Forest, g: Forest)
    requires f.Snoc? && g.Snoc?
    ensures Dist(c, f, g) ==
            Min3(Dist(c, Pruned(f), g) + c.del, Dist(c, f, Pruned(g)) + c.insert,
                 Dist(c, f.left, g.left) + Dist(c, f.last.kids, g.last.kids) + c.relabel(f.last.root, g.last.root))
  {
  }

  /** The third choice may be read as "the two rightmost trees against each other" instead of
      "the two rightmost roots against each other": this is the form the forest branch of the
      dynamic programme evaluates. It needs no assumption on the costs. */
  lemma {:induction false} DistByTrees(c: CostModel, f: Forest, g: Forest)
    requires f.Snoc? && g.Snoc?
    ensures Dist(c, f, g) ==
            Min3(Dist(c, Pruned(f), g) + c.del, Dist(c, f, Pruned(g)) + c.insert,
                 Dist(c, f.left, g.left) + Dist(c, One(f.last), One(g.last)))
  {
    var t, u := f.last, g.last;
    DistChoices(c, f, g);
    MatchBound(c, t, u);
    Subadditive(c, f.left, g.left, One(t), One(u));
  }

  // ---------- metric laws ----------

  /** The same costs seen from the other side. */
  function Mirror(c: CostModel): CostModel
  {
    CostModel(c.del, c.insert, (a, b) => c.relabel(b, a))
  }

  /** Exchanging the two forests is exchanging insertion and deletion. */
  lemma {:induction false} DistMirror(c: CostModel, f: Forest, g: Forest)
    ensures Dist(c, f, g) == Dist(Mirror(c), g, f)
    decreases Size(f) + Size(g)
  {
    if f.Snoc? {
      DistMirror(c, Pruned(f), g);
    }
    if g.Snoc? {
      DistMirror(c, f, Pruned(g));
    }
    if f.Snoc? && g.Snoc? {
      DistMirror(c, f.left, g.left);
      DistMirror(c, f.last.kids, g.last.kids);
    }
  }

  /** Only the values of the relabel function matter. */
  lemma {:induction false} DistExtensional(c: CostModel, d: CostModel, f: Forest, g: Forest)
    requires c.insert == d.insert && c.del == d.del
    requires forall a, b :: c.relabel(a, b) == d.relabel(a, b)
    ensures Dist(c, f, g) == Dist(d, f, g)
    decreases Size(f) + Size(g)
  {
    if f.Snoc? {
      DistExtensional(c, d, Pruned(f), g);
    }
    if g.Snoc? {
      DistExtensional(c, d, f, Pruned(g));
    }
    if f.Snoc? && g.Snoc? {
      DistExtensional(c, d, f.left, g.left);
      DistExtensional(c, d, f.last.kids, g.last.kids);
    }
  }

  lemma {:induction false} DistSymmetric(c: CostModel, f: Forest, g: Forest)
    requires c.insert == c.del
    requires forall a, b :: c.relabel(a, b) == c.relabel(b, a)
    ensures Dist(c, f, g) == Dist(c, g, f)
  {
    DistMirror(c, f, g);
    DistExtensional(Mirror(c), c, g, f);
  }

  ghost predicate NonNegative(c: CostModel)
  {
    0.0 <= c.insert && 0.0 <= c.del && forall a, b :: 0.0 <= c.relabel(a, b)
  }

  lemma {:induction false} DistNonNegative(c: CostModel, f: Forest, g: Forest)
    requires NonNegative(c)
    ensures 0.0 <= Dist(c, f, g)
    decreases Size(f) + Size(g)
  {
    if f.Snoc? {
      DistNonNegative(c, Pruned(f), g);
    }
    if g.Snoc? {
      DistNonNegative(c, f, Pruned(g));
    }
    if f.Snoc? && g.Snoc? {
      DistNonNegative(c, f.left, g.left);
      DistNonNegative(c, f.last.kids, g.last.kids);
    }
  }

  /** Same shape, and every pair of corresponding nodes relabels for free. */
  ghost predicate Alike(c: CostModel, f: Forest, g: Forest)
    decreases Size(f)
  {
    if f.Nil? || g.Nil? then f == g
    else
      Alike(c, f.left, g.left) && Alike(c, f.last.kids, g.last.kids)
      && c.relabel(f.last.root, g.last.root) == 0.0
  }

  /** With positive insert and delete costs the distance vanishes exactly on forests of the same
      shape whose nodes relabel for free. */
  lemma {:induction false} DistZeroIff(c: CostModel, f: Forest, g: Forest)
    requires NonNegative(c) && 0.0 < c.insert && 0.0 < c.del
    ensures Dist(c, f, g) == 0.0 <==> Alike(c, f, g)
    decreases Size(f) + Size(g)
  {
    if f.Snoc? {
      DistNonNegative(c, Pruned(f), g);
    }
    if g.Snoc? {
      DistNonNegative(c, f, Pruned(g));
    }
    if f.Snoc? && g.Snoc? {
      DistZeroIff(c, f.left, g.left);
      DistZeroIff(c, f.last.kids, g.last.kids);
      DistNonNegative(c, f.left, g.left);
      DistNonNegative(c, f.last.kids, g.last.kids);
    }
  }

  /** Equal trees are at distance zero as soon as no cost is negative and a node relabels to itself for free. */
  lemma {:induction false} DistReflexive(c: CostModel, f: Forest)
    requires NonNegative(c) && forall a :: c.relabel(a, a) == 0.0
    ensures Dist(c, f, f) == 0.0
    decreases Size(f)
  {
    DistNonNegative(c, f, f);
    if f.Snoc? {
      DistReflexive(c, f.left);
      DistReflexive(c, f.last.kids);
      DistMatch(c, f, f);
    }
  }

  ghost predicate RelabelTriangle(c: CostModel)
  {
    forall x, y, z :: c.relabel(x, z) <= c.relabel(x, y) + c.relabel(y, z)
  }

  lemma {:induction false} DistTriangle(c: CostModel, f: Forest, g: Forest, h: Forest)
    requires NonNegative(c) && RelabelTriangle(c)
    ensures Dist(c, f, h) <= Dist(c, f, g) + Dist(c, g, h)
    decreases Size(f) + Size(g) + Size(h)
  {
    if f.Snoc? && Dist(c, f, g) == Dist(c, Pruned(f), g) + c.del {
      DistTriangle(c, Pruned(f), g, h);
      DistDelete(c, f, h);
    } else if h.Snoc? && Dist(c, g, h) == Dist(c, g, Pruned(h)) + c.insert {
      DistTriangle(c, f, g, Pruned(h));
      DistInsert(c, f, h);
    } else if g.Snoc? {
      TriangleThroughRoot(c, f, g, h);
    } else {
      assert f.Nil? && h.Nil?;
    }
  }

  /** The cases in which the rightmost root of the middle forest is inserted, deleted or matched. */
  lemma {:induction false} TriangleThroughRoot(c: CostModel, f: Forest, g: Forest, h: Forest)
    requires NonNegative(c) && RelabelTriangle(c)
    requires g.Snoc?
    requires f.Snoc? ==> Dist(c, f, g) != Dist(c, Pruned(f), g) + c.del
    requires h.Snoc? ==> Dist(c, g, h) != Dist(c, g, Pruned(h)) + c.insert
    ensures Dist(c, f, h) <= Dist(c, f, g) + Dist(c, g, h)
    decreases Size(f) + Size(g) + Size(h), 0
  {
    var inserted := Dist(c, f, g) == Dist(c, f, Pruned(g)) + c.insert;
    var deleted := Dist(c, g, h) == Dist(c, Pruned(g), h) + c.del;
    if inserted && deleted {
      DistTriangle(c, f, Pruned(g), h);
    } else if inserted {
      DistTriangle(c, f, Pruned(g), h);
      Subadditive(c, g.left, h.left, g.last.kids, h.last.kids);
      DistInsert(c, Pruned(g), h);
    } else if deleted {
      DistTriangle(c, f, Pruned(g), h);
      Subadditive(c, f.left, g.left, f.last.kids, g.last.kids);
      DistDelete(c, f, Pruned(g));
    } else {
      DistTriangle(c, f.left, g.left, h.left);
      DistTriangle(c, f.last.kids, g.last.kids, h.last.kids);
      DistMatch(c, f, h);
    }
  }
}
