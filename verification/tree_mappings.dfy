/**
 Node mappings between two numbered forests. The recursive edit distance is the least cost of
 a mapping that keeps ancestors and the left-to-right order: an account of the distance that
 mentions neither recursion nor tables.
 */
module TreeMappings {
  import opened EditDistanceSpec
  import opened TreeNumbering

  type Pair = (nat, nat)

  /** Node i lies in the subtree of node k. */
  ghost predicate Below(d: TreeData, i: nat, k: nat)
    requires k < |d.l|
  {
    d.l[k] <= i <= k
  }

  /** Node i lies entirely to the left of the subtree of node k. */
  ghost predicate LeftOf(d: TreeData, i: nat, k: nat)
    requires k < |d.l|
  {
    i < d.l[k]
  }

  /** Two pairs agree: one-to-one, ancestors to ancestors, left to left. */
  ghost predicate Agree(d1: TreeData, d2: TreeData, p: Pair, q: Pair)
    requires p.0 < |d1.l| && q.0 < |d1.l| && p.1 < |d2.l| && q.1 < |d2.l|
  {
    && p.0 != q.0 && p.1 != q.1
    && (Below(d1, p.0, q.0) <==> Below(d2, p.1, q.1))
    && (Below(d1, q.0, p.0) <==> Below(d2, q.1, p.1))
    && (LeftOf(d1, p.0, q.0) <==> LeftOf(d2, p.1, q.1))
    && (LeftOf(d1, q.0, p.0) <==> LeftOf(d2, q.1, p.1))
  }

  ghost predicate InRange(a: nat, x: nat, b: nat, y: nat, m: seq<Pair>)
  {
    forall i :: 0 <= i < |m| ==> a <= m[i].0 <= x && b <= m[i].1 <= y
  }

  /** A mapping between the nodes a..x and the nodes b..y, listed in the post-order of the first forest. */
  ghost predicate Mapping(d1: TreeData, d2: TreeData, a: nat, x: nat, b: nat, y: nat, m: seq<Pair>)
    requires x < |d1.l| && y < |d2.l|
  {
    && InRange(a, x, b, y, m)
    && (forall i, j :: 0 <= i < j < |m| ==> m[i].0 < m[j].0)
    && (forall i, j :: 0 <= i < j < |m| ==> Agree(d1, d2, m[i], m[j]))
  }

  ghost function RelabelSum(c: CostModel, d1: TreeData, d2: TreeData, m: seq<Pair>): real
    requires forall i :: 0 <= i < |m| ==> m[i].0 < |d1.nodes| && m[i].1 < |d2.nodes|
  {
    if m == [] then 0.0
    else
      var p := m[|m| - 1];
      RelabelSum(c, d1, d2, m[..|m| - 1]) + c.relabel(d1.nodes[p.0], d2.nodes[p.1])
  }

  /** Of the nodes a..x and b..y, those not mapped are deleted or inserted; mapped pairs are relabelled. */
  ghost function MappingCost(c: CostModel, d1: TreeData, d2: TreeData, a: nat, x: nat, b: nat, y: nat, m: seq<Pair>): real
    requires forall i :: 0 <= i < |m| ==> m[i].0 < |d1.nodes| && m[i].1 < |d2.nodes|
    requires |m| <= x + 1 - a && |m| <= y + 1 - b
  {
    Scaled(x + 1 - a - |m|, c.del) + Scaled(y + 1 - b - |m|, c.insert) + RelabelSum(c, d1, d2, m)
  }

  lemma {:induction false} ScaledSum(m: nat, n: nat, x: real)
    ensures Scaled(m + n, x) == Scaled(m, x) + Scaled(n, x)
  {
    if n != 0 {
      ScaledSum(m, n - 1, x);
    }
  }

  lemma {:induction false} RelabelSumConcat(c: CostModel, d1: TreeData, d2: TreeData, m1: seq<Pair>, m2: seq<Pair>)
    requires forall i :: 0 <= i < |m1| ==> m1[i].0 < |d1.nodes| && m1[i].1 < |d2.nodes|
    requires forall i :: 0 <= i < |m2| ==> m2[i].0 < |d1.nodes| && m2[i].1 < |d2.nodes|
    ensures RelabelSum(c, d1, d2, m1 + m2) == RelabelSum(c, d1, d2, m1) + RelabelSum(c, d1, d2, m2)
  {
    if m2 == [] {
      assert m1 + m2 == m1;
    } else {
      assert (m1 + m2)[..|m1 + m2| - 1] == m1 + m2[..|m2| - 1];
      RelabelSumConcat(c, d1, d2, m1, m2[..|m2| - 1]);
    }
  }

  /** In a mapping both coordinates ascend. */
  lemma {:induction false} MappingAscends(d1: TreeData, d2: TreeData, a: nat, x: nat, b: nat, y: nat, m: seq<Pair>, i: nat, j: nat)
    requires WellNumbered(d1) && WellNumbered(d2) && 1 <= a && 1 <= b && x < |d1.l| && y < |d2.l|
    requires Mapping(d1, d2, a, x, b, y, m) && i < j < |m|
    ensures m[i].0 < m[j].0 && m[i].1 < m[j].1
  {
    assert Agree(d1, d2, m[i], m[j]);
    assert Below(d1, m[i].0, m[j].0) || LeftOf(d1, m[i].0, m[j].0);
  }

  lemma {:induction false} MappingFits(d1: TreeData, d2: TreeData, a: nat, x: nat, b: nat, y: nat, m: seq<Pair>)
    requires WellNumbered(d1) && WellNumbered(d2) && 1 <= a <= x + 1 && 1 <= b <= y + 1 && x < |d1.l| && y < |d2.l|
    requires Mapping(d1, d2, a, x, b, y, m)
    ensures |m| <= x + 1 - a && |m| <= y + 1 - b
    decreases |m|
  {
    if m != [] {
      var n := |m| - 1;
      var p := m[n];
      forall i | 0 <= i < n
        ensures m[i].0 <= p.0 - 1 && m[i].1 <= p.1 - 1
      {
        MappingAscends(d1, d2, a, x, b, y, m, i, n);
      }
      MappingFits(d1, d2, a, p.0 - 1, b, p.1 - 1, m[..n]);
    }
  }

  /** Nodes a..x form a forest of their own. */
  ghost predicate Closed(d: TreeData, a: nat, x: nat)
  {
    && 1 <= a <= x + 1 <= |d.l|
    && forall k :: a <= k <= x ==> a <= d.l[k]
  }

  /** A table of forest distances, indexed by the two node ranges. */
  type Table = (nat, nat, nat, nat) -> real

  /** The recursive choice at one cell of a table. */
  ghost predicate Chosen(c: CostModel, d1: TreeData, d2: TreeData, D: Table, a: nat, x: nat, b: nat, y: nat)
    requires WellNumbered(d1) && WellNumbered(d2) && Closed(d1, a, x) && Closed(d2, b, y)
  {
    D(a, x, b, y) ==
    if x < a && y < b then 0.0
    else if y < b then D(a, x - 1, b, y) + c.del
    else if x < a then D(a, x, b, y - 1) + c.insert
    else
      Min3(D(a, x - 1, b, y) + c.del, D(a, x, b, y - 1) + c.insert,
           D(a, d1.l[x] - 1, b, d2.l[y] - 1) + D(d1.l[x], x - 1, d2.l[y], y - 1) + c.relabel(d1.nodes[x], d2.nodes[y]))
  }

  ghost predicate Recurrent(c: CostModel, d1: TreeData, d2: TreeData, D: Table)
    requires WellNumbered(d1) && WellNumbered(d2)
  {
    forall a, x, b, y {:trigger Chosen(c, d1, d2, D, a, x, b, y)} ::
      Closed(d1, a, x) && Closed(d2, b, y) ==> Chosen(c, d1, d2, D, a, x, b, y)
  }

  /** The recursive distances of all node ranges. */
  ghost function DistTable(c: CostModel, d1: TreeData, d2: TreeData): Table
    requires WellNumbered(d1) && WellNumbered(d2)
  {
    (a: nat, x: nat, b: nat, y: nat) =>
      if 1 <= a && x < |d1.l| && 1 <= b && y < |d2.l| then Dist(c, ForestAt(d1, a, x), ForestAt(d2, b, y)) else 0.0
  }

  lemma {:induction false} TableAt(c: CostModel, d1: TreeData, d2: TreeData, a: nat, x: nat, b: nat, y: nat)
    requires WellNumbered(d1) && WellNumbered(d2) && 1 <= a && x < |d1.l| && 1 <= b && y < |d2.l|
    ensures DistTable(c, d1, d2)(a, x, b, y) == Dist(c, ForestAt(d1, a, x), ForestAt(d2, b, y))
  {
  }

  lemma {:induction false} DistTableChosen(c: CostModel, d1: TreeData, d2: TreeData, a: nat, x: nat, b: nat, y: nat)
    requires WellNumbered(d1) && WellNumbered(d2) && Closed(d1, a, x) && Closed(d2, b, y)
    ensures Chosen(c, d1, d2, DistTable(c, d1, d2), a, x, b, y)
  {
    if a <= x && b <= y {
      TableMatched(c, d1, d2, a, x, b, y);
    } else if a <= x {
      ForestAtParts(d1, a, x, ForestAt(d1, a, x));
    } else if b <= y {
      ForestAtParts(d2, b, y, ForestAt(d2, b, y));
    }
  }

  lemma {:induction false} TableMatched(c: CostModel, d1: TreeData, d2: TreeData, a: nat, x: nat, b: nat, y: nat)
    requires WellNumbered(d1) && WellNumbered(d2) && Closed(d1, a, x) && Closed(d2, b, y) && a <= x && b <= y
    ensures Chosen(c, d1, d2, DistTable(c, d1, d2), a, x, b, y)
  {
    var f, g, t, u := ForestAt(d1, a, x), ForestAt(d2, b, y), TreeAt(d1, x), TreeAt(d2, y);
    TableBeside(c, d1, d2, a, x, b, y, f, g);
    TableCorner(c, d1, d2, a, x, b, y, f, g);
    TableBelow(c, d1, d2, x, y, t, u);
    CellChosen(c, d1, d2, DistTable(c, d1, d2), a, x, b, y, f, g);
  }

  /** The cells beside a cell, and the one at its corner. */
  lemma {:induction false} TableBeside(c: CostModel, d1: TreeData, d2: TreeData, a: nat, x: nat, b: nat, y: nat, f: Forest, g: Forest)
    requires WellNumbered(d1) && WellNumbered(d2) && Closed(d1, a, x) && Closed(d2, b, y) && a <= x && b <= y
    requires f == ForestAt(d1, a, x) && g == ForestAt(d2, b, y)
    ensures f.Snoc? && g.Snoc? && f.last == TreeAt(d1, x) && g.last == TreeAt(d2, y)
    ensures
      var D := DistTable(c, d1, d2);
      D(a, x, b, y) == Dist(c, f, g) && D(a, x - 1, b, y) == Dist(c, Pruned(f), g) && D(a, x, b, y - 1) == Dist(c, f, Pruned(g))
  {
    ForestAtParts(d1, a, x, f);
    ForestAtParts(d2, b, y, g);
    TableAt(c, d1, d2, a, x, b, y);
    TableAt(c, d1, d2, a, x - 1, b, y);
    TableAt(c, d1, d2, a, x, b, y - 1);
  }

  lemma {:induction false} TableCorner(c: CostModel, d1: TreeData, d2: TreeData, a: nat, x: nat, b: nat, y: nat, f: Forest, g: Forest)
    requires WellNumbered(d1) && WellNumbered(d2) && Closed(d1, a, x) && Closed(d2, b, y) && a <= x && b <= y
    requires f == ForestAt(d1, a, x) && g == ForestAt(d2, b, y)
    ensures f.Snoc? && g.Snoc? && DistTable(c, d1, d2)(a, d1.l[x] - 1, b, d2.l[y] - 1) == Dist(c, f.left, g.left)
  {
    ForestAtParts(d1, a, x, f);
    ForestAtParts(d2, b, y, g);
    TableAt(c, d1, d2, a, d1.l[x] - 1, b, d2.l[y] - 1);
  }

  lemma {:induction false} TableBelow(c: CostModel, d1: TreeData, d2: TreeData, x: nat, y: nat, t: Tree, u: Tree)
    requires WellNumbered(d1) && WellNumbered(d2) && 1 <= x < |d1.l| && 1 <= y < |d2.l| && t == TreeAt(d1, x) && u == TreeAt(d2, y)
    ensures DistTable(c, d1, d2)(d1.l[x], x - 1, d2.l[y], y - 1) == Dist(c, t.kids, u.kids)
    ensures t.root == d1.nodes[x] && u.root == d2.nodes[y]
  {
    TableAt(c, d1, d2, d1.l[x], x - 1, d2.l[y], y - 1);
  }

  lemma {:induction false} CellChosen(c: CostModel, d1: TreeData, d2: TreeData, D: Table, a: nat, x: nat, b: nat, y: nat, f: Forest, g: Forest)
    requires WellNumbered(d1) && WellNumbered(d2) && Closed(d1, a, x) && Closed(d2, b, y) && a <= x && b <= y && f.Snoc? && g.Snoc?
    requires D(a, x, b, y) == Dist(c, f, g) && D(a, x - 1, b, y) == Dist(c, Pruned(f), g) && D(a, x, b, y - 1) == Dist(c, f, Pruned(g))
    requires D(a, d1.l[x] - 1, b, d2.l[y] - 1) == Dist(c, f.left, g.left)
    requires D(d1.l[x], x - 1, d2.l[y], y - 1) == Dist(c, f.last.kids, g.last.kids)
    requires f.last.root == d1.nodes[x] && g.last.root == d2.nodes[y]
    ensures Chosen(c, d1, d2, D, a, x, b, y)
  {
    DistChoices(c, f, g);
  }

  lemma {:induction false} CostOfUnmapped(c: CostModel, d1: TreeData, d2: TreeData,
                                          a: nat, x: nat, b: nat, y: nat, m: seq<Pair>)
    requires forall i :: 0 <= i < |m| ==> m[i].0 < |d1.nodes| && m[i].1 < |d2.nodes|
    requires |m| <= x + 1 - a && |m| <= y + 1 - b
    ensures x > 0 && |m| <= x - a ==> MappingCost(c, d1, d2, a, x, b, y, m) == MappingCost(c, d1, d2, a, x - 1, b, y, m) + c.del
    ensures y > 0 && |m| <= y - b ==> MappingCost(c, d1, d2, a, x, b, y, m) == MappingCost(c, d1, d2, a, x, b, y - 1, m) + c.insert
    ensures x + 1 == a && y + 1 == b ==> MappingCost(c, d1, d2, a, x, b, y, m) == 0.0
  {
  }

  // ---------- the distance bounds every mapping from below ----------

  lemma {:induction false} SideOfLast(d1: TreeData, d2: TreeData, a: nat, x: nat, b: nat, y: nat, m: seq<Pair>, i: nat)
    requires WellNumbered(d1) && WellNumbered(d2) && Closed(d1, a, x) && Closed(d2, b, y) && a <= x && b <= y
    requires Mapping(d1, d2, a, x, b, y, m) && i < |m| - 1 && m[|m| - 1] == (x, y)
    ensures a <= m[i].0 < x && b <= m[i].1 < y
    ensures m[i].0 < d1.l[x] <==> m[i].1 < d2.l[y]
  {
    MappingAscends(d1, d2, a, x, b, y, m, i, |m| - 1);
    assert Agree(d1, d2, m[i], m[|m| - 1]);
  }

  /** Of the first n pairs of a list, the trailing ones from value v on start here. */
  ghost function Start(m: seq<Pair>, n: nat, v: nat): (k: nat)
    requires n <= |m|
    ensures k <= n && (k > 0 ==> m[k - 1].0 < v) && forall i :: k <= i < n ==> v <= m[i].0
  {
    if n == 0 || m[n - 1].0 < v then n else Start(m, n - 1, v)
  }

  /** A mapping that pairs the two last nodes splits into one left of them and one below them. */
  lemma {:induction false} SplitMapping(d1: TreeData, d2: TreeData, a: nat, x: nat, b: nat, y: nat, m: seq<Pair>)
    returns (m1: seq<Pair>, m2: seq<Pair>)
    requires WellNumbered(d1) && WellNumbered(d2) && Closed(d1, a, x) && Closed(d2, b, y) && a <= x && b <= y
    requires Mapping(d1, d2, a, x, b, y, m) && m != [] && m[|m| - 1] == (x, y)
    ensures m == m1 + m2 + [(x, y)]
    ensures Mapping(d1, d2, a, d1.l[x] - 1, b, d2.l[y] - 1, m1)
    ensures Mapping(d1, d2, d1.l[x], x - 1, d2.l[y], y - 1, m2)
  {
    var n := |m| - 1;
    var k := Start(m, n, d1.l[x]);
    m1, m2 := m[..k], m[k..n];
    Cut(m, k);
    LeftPiece(d1, d2, a, x, b, y, m, k);
    RightPiece(d1, d2, a, x, b, y, m, k);
  }

  lemma {:induction false} LeftPiece(d1: TreeData, d2: TreeData, a: nat, x: nat, b: nat, y: nat, m: seq<Pair>, k: nat)
    requires WellNumbered(d1) && WellNumbered(d2) && Closed(d1, a, x) && Closed(d2, b, y) && a <= x && b <= y
    requires Mapping(d1, d2, a, x, b, y, m) && k < |m| && m[|m| - 1] == (x, y)
    requires k > 0 ==> m[k - 1].0 < d1.l[x]
    ensures Mapping(d1, d2, a, d1.l[x] - 1, b, d2.l[y] - 1, m[..k])
  {
    forall i | 0 <= i < k
      ensures m[i].0 < d1.l[x] && m[i].1 < d2.l[y]
    {
      assert m[i].0 <= m[k - 1].0;
      SideOfLast(d1, d2, a, x, b, y, m, i);
    }
    SliceMaps(d1, d2, a, x, b, y, m, 0, k, a, d1.l[x] - 1, b, d2.l[y] - 1);
    assert m[0..k] == m[..k];
  }

  lemma {:induction false} RightPiece(d1: TreeData, d2: TreeData, a: nat, x: nat, b: nat, y: nat, m: seq<Pair>, k: nat)
    requires WellNumbered(d1) && WellNumbered(d2) && Closed(d1, a, x) && Closed(d2, b, y) && a <= x && b <= y
    requires Mapping(d1, d2, a, x, b, y, m) && k < |m| && m[|m| - 1] == (x, y)
    requires forall i :: k <= i < |m| - 1 ==> d1.l[x] <= m[i].0
    ensures Mapping(d1, d2, d1.l[x], x - 1, d2.l[y], y - 1, m[k..|m| - 1])
  {
    forall i | k <= i < |m| - 1
      ensures d1.l[x] <= m[i].0 < x && d2.l[y] <= m[i].1 < y
    {
      SideOfLast(d1, d2, a, x, b, y, m, i);
    }
    SliceMaps(d1, d2, a, x, b, y, m, k, |m| - 1, d1.l[x], x - 1, d2.l[y], y - 1);
  }

  lemma {:induction false} Cut<T>(m: seq<T>, k: nat)
    requires k < |m|
    ensures m == m[..k] + m[k..|m| - 1] + [m[|m| - 1]]
  {
  }

  lemma {:induction false} SliceMaps(d1: TreeData, d2: TreeData, a: nat, x: nat, b: nat, y: nat, m: seq<Pair>,
                                     lo: nat, hi: nat, a': nat, x': nat, b': nat, y': nat)
    requires x < |d1.l| && y < |d2.l| && x' < |d1.l| && y' < |d2.l|
    requires Mapping(d1, d2, a, x, b, y, m) && lo <= hi <= |m|
    requires forall i :: lo <= i < hi ==> a' <= m[i].0 <= x' && b' <= m[i].1 <= y'
    ensures Mapping(d1, d2, a', x', b', y', m[lo..hi])
  {
  }

  lemma {:induction false} LowerBound(c: CostModel, d1: TreeData, d2: TreeData, D: Table,
        a: nat, x: nat, b: nat, y: nat, m: seq<Pair>)
    requires WellNumbered(d1) && WellNumbered(d2) && Closed(d1, a, x) && Closed(d2, b, y)
    requires Recurrent(c, d1, d2, D) && Mapping(d1, d2, a, x, b, y, m)
    ensures |m| <= x + 1 - a && |m| <= y + 1 - b
    ensures D(a, x, b, y) <= MappingCost(c, d1, d2, a, x, b, y, m)
    decreases x + y
  {
    MappingFits(d1, d2, a, x, b, y, m);
    CostOfUnmapped(c, d1, d2, a, x, b, y, m);
    assert Chosen(c, d1, d2, D, a, x, b, y);
    var n := |m| - 1;
    if x < a && y < b {
    } else if a <= x && (m == [] || m[n].0 != x) {
      assert forall i :: 0 <= i < |m| ==> m[i].0 <= m[n].0;
      assert InRange(a, x - 1, b, y, m);
      LowerBound(c, d1, d2, D, a, x - 1, b, y, m);
    } else if b <= y && (m == [] || m[n].1 != y) {
      forall i | 0 <= i < n
        ensures m[i].1 <= m[n].1
      {
        MappingAscends(d1, d2, a, x, b, y, m, i, n);
      }
      assert InRange(a, x, b, y - 1, m);
      LowerBound(c, d1, d2, D, a, x, b, y - 1, m);
    } else {
      LowerBoundMatched(c, d1, d2, D, a, x, b, y, m);
    }
  }

  lemma {:induction false} LowerBoundMatched(c: CostModel, d1: TreeData, d2: TreeData, D: Table,
        a: nat, x: nat, b: nat, y: nat, m: seq<Pair>)
    requires WellNumbered(d1) && WellNumbered(d2) && Closed(d1, a, x) && Closed(d2, b, y)
    requires Recurrent(c, d1, d2, D)
    requires a <= x && b <= y && Mapping(d1, d2, a, x, b, y, m) && m != [] && m[|m| - 1] == (x, y)
    ensures |m| <= x + 1 - a && |m| <= y + 1 - b
    ensures D(a, x, b, y) <= MappingCost(c, d1, d2, a, x, b, y, m)
    decreases x + y, 0
  {
    MappingFits(d1, d2, a, x, b, y, m);
    var l1, l2 := d1.l[x], d2.l[y];
    var m1, m2 := SplitMapping(d1, d2, a, x, b, y, m);
    LowerBound(c, d1, d2, D, a, l1 - 1, b, l2 - 1, m1);
    LowerBound(c, d1, d2, D, l1, x - 1, l2, y - 1, m2);
    CostOfMatched(c, d1, d2, a, x, b, y, m1, m2);
    assert Chosen(c, d1, d2, D, a, x, b, y);
  }

  /** The cost of a mapping made of a piece to the left, a piece below, and the two last nodes. */
  lemma {:induction false} CostOfMatched(c: CostModel, d1: TreeData, d2: TreeData,
                                         a: nat, x: nat, b: nat, y: nat, m1: seq<Pair>, m2: seq<Pair>)
    requires |d1.nodes| == |d1.l| && |d2.nodes| == |d2.l| && x < |d1.l| && y < |d2.l|
    requires 1 <= a <= d1.l[x] <= x && 1 <= b <= d2.l[y] <= y
    requires InRange(a, d1.l[x] - 1, b, d2.l[y] - 1, m1) && InRange(d1.l[x], x - 1, d2.l[y], y - 1, m2)
    requires |m1| <= d1.l[x] - a && |m1| <= d2.l[y] - b && |m2| <= x - d1.l[x] && |m2| <= y - d2.l[y]
    ensures MappingCost(c, d1, d2, a, x, b, y, m1 + m2 + [(x, y)]) ==
            MappingCost(c, d1, d2, a, d1.l[x] - 1, b, d2.l[y] - 1, m1)
            + MappingCost(c, d1, d2, d1.l[x], x - 1, d2.l[y], y - 1, m2) + c.relabel(d1.nodes[x], d2.nodes[y])
  {
    var m: seq<Pair> := m1 + m2 + [(x, y)];
    assert m[..|m| - 1] == m1 + m2;
    RelabelSumConcat(c, d1, d2, m1, m2);
    ScaledSum(d1.l[x] - a - |m1|, x - d1.l[x] - |m2|, c.del);
    ScaledSum(d2.l[y] - b - |m1|, y - d2.l[y] - |m2|, c.insert);
  }

  // ---------- and is the cost of one of them ----------

  lemma {:induction false} JoinMappings(d1: TreeData, d2: TreeData, a: nat, x: nat, b: nat, y: nat, m1: seq<Pair>, m2: seq<Pair>)
    requires WellNumbered(d1) && WellNumbered(d2) && Closed(d1, a, x) && Closed(d2, b, y) && a <= x && b <= y
    requires Mapping(d1, d2, a, d1.l[x] - 1, b, d2.l[y] - 1, m1)
    requires Mapping(d1, d2, d1.l[x], x - 1, d2.l[y], y - 1, m2)
    ensures Mapping(d1, d2, a, x, b, y, m1 + m2 + [(x, y)])
  {
    var m: seq<Pair> := m1 + m2 + [(x, y)];
    var k, n := |m1|, |m1| + |m2|;
    assert forall i :: 0 <= i < k ==> m[i] == m1[i];
    assert forall i :: k <= i < n ==> m[i] == m2[i - k];
    forall i, j | 0 <= i < j < |m|
      ensures m[i].0 < m[j].0 && Agree(d1, d2, m[i], m[j])
    {
      if j < k {
        assert Agree(d1, d2, m1[i], m1[j]);
      } else if k <= i && j < n {
        assert Agree(d1, d2, m2[i - k], m2[j - k]);
      } else if i < k && j < n {
        assert d1.l[x] <= d1.l[m[j].0] && d2.l[y] <= d2.l[m[j].1];
      }
    }
  }

  lemma {:induction false} Attained(c: CostModel, d1: TreeData, d2: TreeData, D: Table,
        a: nat, x: nat, b: nat, y: nat)
    returns (m: seq<Pair>)
    requires WellNumbered(d1) && WellNumbered(d2) && Closed(d1, a, x) && Closed(d2, b, y)
    requires Recurrent(c, d1, d2, D)
    ensures Mapping(d1, d2, a, x, b, y, m) && |m| <= x + 1 - a && |m| <= y + 1 - b
    ensures D(a, x, b, y) == MappingCost(c, d1, d2, a, x, b, y, m)
    decreases x + y
  {
    assert Chosen(c, d1, d2, D, a, x, b, y);
    if x < a && y < b {
      m := [];
      CostOfUnmapped(c, d1, d2, a, x, b, y, m);
    } else if a <= x && D(a, x, b, y) == D(a, x - 1, b, y) + c.del {
      m := Attained(c, d1, d2, D, a, x - 1, b, y);
      CostOfUnmapped(c, d1, d2, a, x, b, y, m);
    } else if b <= y && D(a, x, b, y) == D(a, x, b, y - 1) + c.insert {
      m := Attained(c, d1, d2, D, a, x, b, y - 1);
      CostOfUnmapped(c, d1, d2, a, x, b, y, m);
    } else {
      var l1, l2 := d1.l[x], d2.l[y];
      var m1 := Attained(c, d1, d2, D, a, l1 - 1, b, l2 - 1);
      var m2 := Attained(c, d1, d2, D, l1, x - 1, l2, y - 1);
      m := m1 + m2 + [(x, y)];
      JoinMappings(d1, d2, a, x, b, y, m1, m2);
      CostOfMatched(c, d1, d2, a, x, b, y, m1, m2);
    }
  }

  /** The edit distance of two numbered forests is the minimum cost over all mappings between them. */
  lemma {:induction false} DistIsLeastMapping(c: CostModel, d1: TreeData, f: Forest, d2: TreeData, g: Forest)
    requires Numbers(d1, f) && Numbers(d2, g)
    ensures forall m :: Mapping(d1, d2, 1, d1.Count(), 1, d2.Count(), m) ==>
              |m| <= Size(f) && |m| <= Size(g) && Dist(c, f, g) <= MappingCost(c, d1, d2, 1, d1.Count(), 1, d2.Count(), m)
    ensures exists m :: Mapping(d1, d2, 1, d1.Count(), 1, d2.Count(), m) && |m| <= Size(f) && |m| <= Size(g)
              && Dist(c, f, g) == MappingCost(c, d1, d2, 1, d1.Count(), 1, d2.Count(), m)
  {
    NumbersRebuild(d1, f);
    NumbersRebuild(d2, g);
    var D := DistTable(c, d1, d2);
    forall a, x, b, y | Closed(d1, a, x) && Closed(d2, b, y)
      ensures Chosen(c, d1, d2, D, a, x, b, y)
    {
      DistTableChosen(c, d1, d2, a, x, b, y);
    }
    forall m | Mapping(d1, d2, 1, d1.Count(), 1, d2.Count(), m)
      ensures |m| <= Size(f) && |m| <= Size(g) && Dist(c, f, g) <= MappingCost(c, d1, d2, 1, d1.Count(), 1, d2.Count(), m)
    {
      LowerBound(c, d1, d2, D, 1, d1.Count(), 1, d2.Count(), m);
    }
    var m := Attained(c, d1, d2, D, 1, d1.Count(), 1, d2.Count());
  }
}
