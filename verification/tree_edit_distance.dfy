/** The keyroot dynamic programme of the tree edit distance. */
module TreeEditDistanceProgram {
  import opened EditDistanceSpec
  import opened TreeNumbering
  import Sorting
  import opened Options

  datatype EditCosts = EditCosts(insert: real, del: real, relabel: real)

  /** No two nodes of a tree share a position. */
  ghost predicate DistinctPositions(t: Tree)
  {
    var s := PostOrder(One(t));
    forall i, j :: 0 <= i < j < |s| ==> s[i].root.pos != s[j].root.pos
  }

  ghost predicate DistinctIfPresent(t: Option<Tree>)
  {
    t.Some? ==> DistinctPositions(t.value)
  }

  function AsForest(t: Option<Tree>): Forest
  {
    match t
    case None => Nil
    case Some(root) => One(root)
  }

  /** A caller's cost function replaces the comparison of types. */
  function RelabelCost(costs: EditCosts, costFn: Option<(Node, Node) -> real>, a: Node, b: Node): real
  {
    match costFn
    case Some(f) => f(a, b)
    case None => if a.typ == b.typ then 0.0 else costs.relabel
  }

  ghost function CostModelOf(costs: EditCosts, costFn: Option<(Node, Node) -> real>): CostModel
  {
    CostModel(costs.insert, costs.del, (a, b) => RelabelCost(costs, costFn, a, b))
  }

  /** Without a caller's function, two forests are at distance zero exactly when they have the same shape and the same types at
      the same places. */
  lemma {:induction false} DefaultZeroIff(costs: EditCosts, f: Forest, g: Forest)
    requires 0.0 < costs.insert && 0.0 < costs.del && 0.0 < costs.relabel
    ensures Dist(CostModelOf(costs, None), f, g) == 0.0 <==> SameTypes(f, g)
  {
    var c := CostModelOf(costs, None);
    DistZeroIff(c, f, g);
    AlikeIffSameTypes(costs, f, g);
  }

  predicate SameTypes(f: Forest, g: Forest)
  {
    match (f, g)
    case (Nil, Nil) => true
    case (Snoc(a, t), Snoc(b, u)) => SameTypes(a, b) && t.root.typ == u.root.typ && SameTypes(t.kids, u.kids)
    case _ => false
  }

  lemma {:induction false} AlikeIffSameTypes(costs: EditCosts, f: Forest, g: Forest)
    requires 0.0 < costs.relabel
    ensures Alike(CostModelOf(costs, None), f, g) <==> SameTypes(f, g)
  {
    if f.Snoc? && g.Snoc? {
      AlikeIffSameTypes(costs, f.left, g.left);
      AlikeIffSameTypes(costs, f.last.kids, g.last.kids);
    }
  }

  /** Two trees of one node each: what a caller's function says of the first and the second, or a deletion and an insertion. */
  lemma {:induction false} SingleNodes(costs: EditCosts, f: (Node, Node) -> real, a: Node, b: Node)
    ensures
      Dist(CostModelOf(costs, Some(f)), One(Tree(a, Nil)), One(Tree(b, Nil))) ==
      if f(a, b) <= costs.del + costs.insert then f(a, b) else costs.del + costs.insert
  {
    var c, x, y := CostModelOf(costs, Some(f)), One(Tree(a, Nil)), One(Tree(b, Nil));
    assert Pruned(x) == Nil && Pruned(y) == Nil;
    assert Dist(c, Nil, y) == Dist(c, Nil, Nil) + costs.insert;
    assert Dist(c, x, Nil) == Dist(c, Nil, Nil) + costs.del;
    assert c.relabel(a, b) == f(a, b);
  }

  class TreeEditDistance {
    const costs: EditCosts
    const costFn: Option<(Node, Node) -> real>

    constructor (costs: EditCosts, costFn: Option<(Node, Node) -> real>)
      ensures this.costs == costs && this.costFn == costFn
    {
      this.costs := costs;
      this.costFn := costFn;
    }

    function NodeCost(a: Node, b: Node): real
    {
      RelabelCost(costs, costFn, a, b)
    }

    ghost function Costs(): CostModel
    {
      CostModelOf(costs, costFn)
    }

    /** Numbers the nodes in post-order; a node's leftmost leaf is its first child's. */
    static method Build(root: Tree) returns (data: TreeData)
      requires DistinctPositions(root)
      ensures Numbers(data, One(root)) && KeyrootsListed(data)
    {
      var order := PostOrder(One(root));
      var nodes := [Node(0, 0)];
      var l: seq<nat> := [0];
      var posToIdx: map<nat, nat> := map[];
      for k := 0 to |order|
        invariant |nodes| == |l| == k + 1
        invariant forall i :: 0 <= i < k ==> nodes[1 + i] == order[i].root && l[1 + i] == i + 2 - TreeSize(order[i])
        invariant forall i :: 0 <= i < k ==> order[i].root.pos in posToIdx && posToIdx[order[i].root.pos] == i + 1
      {
        var node := order[k];
        var idx := |nodes|;
        posToIdx := posToIdx[node.root.pos := idx];
        var lval := idx;
        if node.kids.Snoc? {
          FirstChildNumber(One(root), k);
          ghost var c := k - TreeSize(node) + TreeSize(First(node.kids));
          assert l[1 + c] == c + 2 - TreeSize(order[c]);
          lval := l[posToIdx[First(node.kids).root.pos]];
        }
        nodes := nodes + [node.root];
        l := l + [lval];
      }
      var keyroots := Keyroots(l);
      data := TreeData(nodes, l, keyroots);
    }

    static method Keyroots(l: seq<nat>) returns (keyroots: seq<nat>)
      requires |l| > 0
      ensures KeyrootsListed(TreeData([], l, keyroots))
    {
      var lvalToMax: map<nat, nat> := map[];
      for i := 1 to |l|
        invariant forall v :: v in lvalToMax ==>
                    1 <= lvalToMax[v] < i && l[lvalToMax[v]] == v && forall k :: lvalToMax[v] < k < i ==> l[k] != v
        invariant forall k :: 1 <= k < i ==> l[k] in lvalToMax
      {
        lvalToMax := lvalToMax[l[i] := i];
      }
      var found: seq<nat> := [];
      var rest := lvalToMax.Keys;
      while rest != {}
        invariant rest <= lvalToMax.Keys
        invariant forall p :: 0 <= p < |found| ==> 1 <= found[p] < |l|
        invariant forall p :: 0 <= p < |found| ==> l[found[p]] in lvalToMax.Keys - rest && lvalToMax[l[found[p]]] == found[p]
        invariant forall v :: v in lvalToMax.Keys - rest ==> lvalToMax[v] in found
        invariant forall p, q :: 0 <= p < q < |found| ==> found[p] != found[q]
        decreases |rest|
      {
        var lval :| lval in rest;
        rest := rest - {lval};
        found := found + [lvalToMax[lval]];
      }
      Sorting.SortDistinct(found);
      keyroots := Sorting.Sort(found);
      forall i: nat
        ensures i in keyroots <==> IsKeyroot(TreeData([], l, keyroots), i)
      {
        LastOccurrence(l, lvalToMax, keyroots, i);
        if 1 <= i < |l| {
          assert l[i] in lvalToMax.Keys - rest;
        }
      }
    }

    /** The map of last occurrences holds exactly the keyroots. */
    static lemma {:induction false} LastOccurrence(l: seq<nat>, lvalToMax: map<nat, nat>, keyroots: seq<nat>, i: nat)
      requires forall v :: v in lvalToMax ==>
                 1 <= lvalToMax[v] < |l| && l[lvalToMax[v]] == v && forall k :: lvalToMax[v] < k < |l| ==> l[k] != v
      requires forall k :: 1 <= k < |l| ==> l[k] in lvalToMax
      ensures IsKeyroot(TreeData([], l, keyroots), i) <==> 1 <= i < |l| && lvalToMax[l[i]] == i
    {
    }

    // ---------- the two tables ----------

    ghost function ForestDistAt(d1: TreeData, d2: TreeData, a: nat, x: nat, b: nat, y: nat): real
      requires WellNumbered(d1) && WellNumbered(d2)
      requires 1 <= a && x < |d1.l| && 1 <= b && y < |d2.l|
    {
      Dist(Costs(), ForestAt(d1, a, x), ForestAt(d2, b, y))
    }

    ghost function TreeDistAt(d1: TreeData, d2: TreeData, x: nat, y: nat): real
      requires WellNumbered(d1) && WellNumbered(d2) && 1 <= x < |d1.l| && 1 <= y < |d2.l|
    {
      Dist(Costs(), One(TreeAt(d1, x)), One(TreeAt(d2, y)))
    }

    /** One cell of the forest table from its three neighbours and the tree distance of its corner. */
    lemma {:induction false} ForestCell(d1: TreeData, d2: TreeData, a: nat, x: nat, b: nat, y: nat)
      requires WellNumbered(d1) && WellNumbered(d2)
      requires 1 <= a <= x < |d1.l| && 1 <= b <= y < |d2.l| && a <= d1.l[x] && b <= d2.l[y]
      ensures ForestDistAt(d1, d2, a, x, b, y) ==
              Min3(ForestDistAt(d1, d2, a, x - 1, b, y) + costs.del, ForestDistAt(d1, d2, a, x, b, y - 1) + costs.insert,
                   ForestDistAt(d1, d2, a, d1.l[x] - 1, b, d2.l[y] - 1) + TreeDistAt(d1, d2, x, y))
    {
      var f, g := ForestAt(d1, a, x), ForestAt(d2, b, y);
      ForestAtParts(d1, a, x, f);
      ForestAtParts(d2, b, y, g);
      DistByTrees(Costs(), f, g);
    }

    /** On the leftmost paths the forest cell is a tree distance, and the match costs a relabel. */
    lemma {:induction false} PathCell(d1: TreeData, d2: TreeData, x: nat, y: nat)
      requires WellNumbered(d1) && WellNumbered(d2) && 1 <= x < |d1.l| && 1 <= y < |d2.l|
      ensures var a, b := d1.l[x], d2.l[y];
              ForestDistAt(d1, d2, a, x, b, y) == TreeDistAt(d1, d2, x, y) ==
              Min3(ForestDistAt(d1, d2, a, x - 1, b, y) + costs.del, ForestDistAt(d1, d2, a, x, b, y - 1) + costs.insert,
                   ForestDistAt(d1, d2, a, x - 1, b, y - 1) + NodeCost(d1.nodes[x], d2.nodes[y]))
    {
      var t, u := TreeAt(d1, x), TreeAt(d2, y);
      ForestAtLeftmost(d1, x);
      ForestAtLeftmost(d2, y);
      DistTrees(Costs(), t, u);
    }

    lemma {:induction false} BorderStep(d1: TreeData, d2: TreeData, a: nat, x: nat, b: nat, y: nat)
      requires WellNumbered(d1) && WellNumbered(d2)
      requires 1 <= a <= |d1.l| && 1 <= b <= |d2.l| && x < |d1.l| && y < |d2.l|
      ensures ForestDistAt(d1, d2, a, a - 1, b, b - 1) == 0.0
      ensures a <= x && a <= d1.l[x] ==>
                ForestDistAt(d1, d2, a, x, b, b - 1) == ForestDistAt(d1, d2, a, x - 1, b, b - 1) + costs.del
      ensures b <= y && b <= d2.l[y] ==>
                ForestDistAt(d1, d2, a, a - 1, b, y) == ForestDistAt(d1, d2, a, a - 1, b, y - 1) + costs.insert
    {
      if a <= x && a <= d1.l[x] {
        ForestAtPruned(d1, a, x);
      }
      if b <= y && b <= d2.l[y] {
        ForestAtPruned(d2, b, y);
      }
    }

    ghost predicate Shaped(d1: TreeData, d2: TreeData, i: nat, j: nat, td: array2<real>, fd: array2<real>)
    {
      && WellNumbered(d1) && WellNumbered(d2) && 1 <= i < |d1.l| && 1 <= j < |d2.l|
      && td.Length0 == fd.Length0 == |d1.l| && td.Length1 == fd.Length1 == |d2.l| && td != fd
    }

    /** The nodes x, y lie on the leftmost paths of the keyroots i, j: this is when the pair's tree
        distance is written. */
    ghost predicate OnPaths(d1: TreeData, d2: TreeData, i: nat, j: nat, x: int, y: int)
      requires WellNumbered(d1) && WellNumbered(d2) && 1 <= i < |d1.l| && 1 <= j < |d2.l|
    {
      d1.l[i] <= x <= i && d2.l[j] <= y <= j && d1.l[x] == d1.l[i] && d2.l[y] == d2.l[j]
    }

    /** The left and top borders of the forest table, the rows before i2, and the first cells of
        row i2 up to j2 hold their forest distances. */
    ghost predicate Filled(d1: TreeData, d2: TreeData, i: nat, j: nat, fd: array2<real>, i2: int, j2: int)
      requires WellNumbered(d1) && WellNumbered(d2) && 1 <= i < |d1.l| && 1 <= j < |d2.l|
      requires fd.Length0 == |d1.l| && fd.Length1 == |d2.l|
      reads fd
    {
      forall x, y :: d1.l[i] - 1 <= x <= i && d2.l[j] - 1 <= y <= j
                     && (x < i2 || y == d2.l[j] - 1 || (x == i2 && y < j2)) ==>
                       fd[x, y] == ForestDistAt(d1, d2, d1.l[i], x, d2.l[j], y)
    }

    method FillBorders(d1: TreeData, d2: TreeData, i: nat, j: nat, fd: array2<real>)
      requires WellNumbered(d1) && WellNumbered(d2) && 1 <= i < |d1.l| && 1 <= j < |d2.l|
      requires fd.Length0 == |d1.l| && fd.Length1 == |d2.l|
      modifies fd
      ensures Filled(d1, d2, i, j, fd, d1.l[i], d2.l[j])
    {
      var l1, l2 := d1.l[i], d2.l[j];
      fd[l1 - 1, l2 - 1] := 0.0;
      BorderStep(d1, d2, l1, 0, l2, 0);
      for i2 := l1 to i + 1
        invariant forall x, y :: l1 - 1 <= x < i2 && y == l2 - 1 ==> fd[x, y] == ForestDistAt(d1, d2, l1, x, l2, y)
      {
        BorderStep(d1, d2, l1, i2, l2, 0);
        fd[i2, l2 - 1] := fd[i2 - 1, l2 - 1] + costs.del;
      }
      for j2 := l2 to j + 1
        invariant forall x, y :: l1 - 1 <= x <= i && y == l2 - 1 ==> fd[x, y] == ForestDistAt(d1, d2, l1, x, l2, y)
        invariant forall x, y :: x == l1 - 1 && l2 - 1 <= y < j2 ==> fd[x, y] == ForestDistAt(d1, d2, l1, x, l2, y)
      {
        BorderStep(d1, d2, l1, 0, l2, j2);
        fd[l1 - 1, j2] := fd[l1 - 1, j2 - 1] + costs.insert;
      }
    }

    /** Row i2 of both tables. */
    method FillRow(d1: TreeData, d2: TreeData, i: nat, j: nat, i2: nat, td: array2<real>, fd: array2<real>)
      requires Shaped(d1, d2, i, j, td, fd) && d1.l[i] <= i2 <= i
      requires Filled(d1, d2, i, j, fd, i2, d2.l[j])
      requires forall y :: d2.l[j] <= y <= j && !OnPaths(d1, d2, i, j, i2, y) ==>
                             td[i2, y] == TreeDistAt(d1, d2, i2, y)
      modifies td, fd
      ensures Filled(d1, d2, i, j, fd, i2 + 1, d2.l[j])
      ensures forall y :: OnPaths(d1, d2, i, j, i2, y) ==> td[i2, y] == TreeDistAt(d1, d2, i2, y)
      ensures forall x, y :: 0 <= x < |d1.l| && 0 <= y < |d2.l| && !(x == i2 && OnPaths(d1, d2, i, j, x, y)) ==>
                               td[x, y] == old(td[x, y])
    {
      for j2 := d2.l[j] to j + 1
        invariant Filled(d1, d2, i, j, fd, i2, j2)
        invariant forall y :: OnPaths(d1, d2, i, j, i2, y) && y < j2 ==> td[i2, y] == TreeDistAt(d1, d2, i2, y)
        invariant forall x, y :: 0 <= x < |d1.l| && 0 <= y < |d2.l| &&
                                 !(x == i2 && y < j2 && OnPaths(d1, d2, i, j, x, y)) ==>
                                   td[x, y] == old(td[x, y])
      {
        FillCell(d1, d2, i, j, i2, j2, td, fd);
      }
    }

    /** One cell: on both leftmost paths it is a tree distance, elsewhere it reads one. */
    method FillCell(d1: TreeData, d2: TreeData, i: nat, j: nat, i2: nat, j2: nat, td: array2<real>, fd: array2<real>)
      requires Shaped(d1, d2, i, j, td, fd) && d1.l[i] <= i2 <= i && d2.l[j] <= j2 <= j
      requires Filled(d1, d2, i, j, fd, i2, j2)
      requires !OnPaths(d1, d2, i, j, i2, j2) ==> td[i2, j2] == TreeDistAt(d1, d2, i2, j2)
      modifies td, fd
      ensures Filled(d1, d2, i, j, fd, i2, j2 + 1)
      ensures td[i2, j2] == if OnPaths(d1, d2, i, j, i2, j2) then TreeDistAt(d1, d2, i2, j2) else old(td[i2, j2])
      ensures forall x, y :: 0 <= x < |d1.l| && 0 <= y < |d2.l| && !(x == i2 && y == j2) ==> td[x, y] == old(td[x, y])
    {
      var l1, l2 := d1.l[i], d2.l[j];
      ForestCell(d1, d2, l1, i2, l2, j2);
      var costDel := fd[i2 - 1, j2] + costs.del;
      var costIns := fd[i2, j2 - 1] + costs.insert;
      if d1.l[i2] == l1 && d2.l[j2] == l2 {
        var costMatch := fd[i2 - 1, j2 - 1] + NodeCost(d1.nodes[i2], d2.nodes[j2]);
        PathCell(d1, d2, i2, j2);
        fd[i2, j2] := Min3(costDel, costIns, costMatch);
        td[i2, j2] := fd[i2, j2];
      } else {
        var costMatch := fd[d1.l[i2] - 1, d2.l[j2] - 1] + td[i2, j2];
        fd[i2, j2] := Min3(costDel, costIns, costMatch);
      }
    }

    /** Fills the forest table for one pair of keyroots, and the tree distances of the nodes on
        their leftmost paths. The only tree distances it needs are those of pairs off the paths. */
    method ForestDist(d1: TreeData, d2: TreeData, i: nat, j: nat, td: array2<real>, fd: array2<real>)
      requires Shaped(d1, d2, i, j, td, fd)
      requires forall x, y :: d1.l[i] <= x <= i && d2.l[j] <= y <= j && !OnPaths(d1, d2, i, j, x, y) ==>
                                td[x, y] == TreeDistAt(d1, d2, x, y)
      modifies td, fd
      ensures forall x, y :: OnPaths(d1, d2, i, j, x, y) ==> td[x, y] == TreeDistAt(d1, d2, x, y)
      ensures forall x, y :: 0 <= x < |d1.l| && 0 <= y < |d2.l| && !OnPaths(d1, d2, i, j, x, y) ==>
                               td[x, y] == old(td[x, y])
    {
      FillBorders(d1, d2, i, j, fd);
      for i2 := d1.l[i] to i + 1
        invariant Filled(d1, d2, i, j, fd, i2, d2.l[j])
        invariant forall x, y :: OnPaths(d1, d2, i, j, x, y) && x < i2 ==> td[x, y] == TreeDistAt(d1, d2, x, y)
        invariant forall x, y :: 0 <= x < |d1.l| && 0 <= y < |d2.l| && !(OnPaths(d1, d2, i, j, x, y) && x < i2) ==>
                                   td[x, y] == old(td[x, y])
      {
        FillRow(d1, d2, i, j, i2, td, fd);
      }
    }

    // ---------- the whole run ----------

    method FillTables(d1: TreeData, d2: TreeData, td: array2<real>, fd: array2<real>)
      requires WellNumbered(d1) && WellNumbered(d2) && KeyrootsListed(d1) && KeyrootsListed(d2)
      requires td.Length0 == fd.Length0 == |d1.l| && td.Length1 == fd.Length1 == |d2.l| && td != fd
      modifies td, fd
      ensures forall x, y :: 1 <= x < |d1.l| && 1 <= y < |d2.l| ==> td[x, y] == TreeDistAt(d1, d2, x, y)
    {
      for p := 0 to |d1.keyroots|
        invariant forall x, y :: Settled(d1, d2, p, 0, x, y) ==> td[x, y] == TreeDistAt(d1, d2, x, y)
      {
        for q := 0 to |d2.keyroots|
          invariant forall x, y :: Settled(d1, d2, p, q, x, y) ==> td[x, y] == TreeDistAt(d1, d2, x, y)
        {
          var i, j := d1.keyroots[p], d2.keyroots[q];
          assert i in d1.keyroots && j in d2.keyroots;
          forall x, y | d1.l[i] <= x <= i && d2.l[j] <= y <= j && !OnPaths(d1, d2, i, j, x, y)
            ensures td[x, y] == TreeDistAt(d1, d2, x, y)
          {
            SettledBefore(d1, d2, p, q, x, y);
          }
          ForestDist(d1, d2, i, j, td, fd);
          forall x, y | Settled(d1, d2, p, q + 1, x, y)
            ensures td[x, y] == TreeDistAt(d1, d2, x, y)
          {
            if !Settled(d1, d2, p, q, x, y) {
              SettledNext(d1, d2, p, q, x, y);
            }
          }
        }
        forall x, y | Settled(d1, d2, p + 1, 0, x, y)
          ensures td[x, y] == TreeDistAt(d1, d2, x, y)
        {
          SettledNextRow(d1, d2, p, x, y);
        }
      }
      forall x, y | 1 <= x < |d1.l| && 1 <= y < |d2.l|
        ensures td[x, y] == TreeDistAt(d1, d2, x, y)
      {
        KeyBoundStep(d1, 0, x);
        assert Settled(d1, d2, |d1.keyroots|, 0, x, y);
      }
    }

    method Run(root1: Option<Tree>, root2: Option<Tree>) returns (distance: real)
      requires DistinctIfPresent(root1) && DistinctIfPresent(root2)
      ensures distance == Dist(Costs(), AsForest(root1), AsForest(root2))
    {
      if root1.None? && root2.None? {
        return 0.0;
      }
      if root1.None? {
        var cnt := CountNodes(root2.value);
        DistFromEmpty(Costs(), One(root2.value));
        ScaledIsProduct(cnt, costs.insert);
        return cnt as real * costs.insert;
      }
      if root2.None? {
        var cnt := CountNodes(root1.value);
        DistToEmpty(Costs(), One(root1.value));
        ScaledIsProduct(cnt, costs.del);
        return cnt as real * costs.del;
      }
      var d1 := Build(root1.value);
      var d2 := Build(root2.value);
      NumbersRebuild(d1, One(root1.value));
      NumbersRebuild(d2, One(root2.value));
      var n, m := d1.Count(), d2.Count();
      var td := new real[n + 1, m + 1]((_, _) => 0.0);
      var fd := new real[n + 1, m + 1]((_, _) => 0.0);
      FillTables(d1, d2, td, fd);
      assert One(TreeAt(d1, n)) == One(root1.value) && One(TreeAt(d2, m)) == One(root2.value);
      distance := td[n, m];
    }

    static method CountNodes(root: Tree) returns (cnt: nat)
      ensures cnt == Size(One(root))
    {
      cnt := 0;
      for k := 0 to |PostOrder(One(root))|
        invariant cnt == k
      {
        cnt := cnt + 1;
      }
    }

    static method Compute(root1: Option<Tree>, root2: Option<Tree>, costs: EditCosts, costFn: Option<(Node, Node) -> real>)
      returns (distance: real)
      requires DistinctIfPresent(root1) && DistinctIfPresent(root2)
      ensures distance == Dist(CostModelOf(costs, costFn), AsForest(root1), AsForest(root2))
    {
      var ted := new TreeEditDistance(costs, costFn);
      distance := ted.Run(root1, root2);
    }
  }
}
