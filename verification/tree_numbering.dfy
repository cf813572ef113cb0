/**
 The post-order numbering that the edit distance works on: node i (1-based, 0 is a sentinel)
 together with l[i], the number of the leftmost leaf below it, determines the whole tree.
 */
module TreeNumbering {
  import opened EditDistanceSpec

  /** What the post-order pass collects; `keyroots` lists, in ascending order, the largest
      number among the nodes that share a leftmost leaf. */
  datatype TreeData = TreeData(nodes: seq<Node>, l: seq<nat>, keyroots: seq<nat>)
  {
    function Count(): int { |l| - 1 }
  }

  /** The trees of a forest in the order in which the post-order iterator visits their roots. */
  function PostOrder(f: Forest): (s: seq<Tree>)
    ensures |s| == Size(f)
  {
    match f
    case Nil => []
    case Snoc(left, last) => PostOrder(left) + PostOrder(last.kids) + [last]
  }

  function TreeSize(t: Tree): nat
  {
    1 + Size(t.kids)
  }

  /** The first tree of a forest: what `first_child` returns on the children of a node. */
  function First(f: Forest): Tree
    requires f.Snoc?
  {
    if f.left.Nil? then f.last else First(f.left)
  }

  lemma {:induction false} PostOrderOne(t: Tree)
    ensures PostOrder(One(t)) == PostOrder(t.kids) + [t]
  {
    assert PostOrder(Nil) == [];
  }

  /** `own` is the part of s that ends at index p. */
  ghost predicate EndsAt<T>(s: seq<T>, p: nat, own: seq<T>)
    requires p < |s|
  {
    |own| <= p + 1 && forall j :: p + 1 - |own| <= j <= p ==> s[j] == own[j + |own| - p - 1]
  }

  ghost predicate Nested<T(!new)>(s: seq<T>, own: T -> seq<T>)
  {
    forall p :: 0 <= p < |s| ==> EndsAt(s, p, own(s[p]))
  }

  lemma {:induction false} NestedConcat<T(!new)>(l: seq<T>, k: seq<T>, t: T, own: T -> seq<T>)
    requires Nested(l, own) && Nested(k, own) && own(t) == k + [t]
    ensures Nested(l + k + [t], own)
  {
    var s := l + k + [t];
    forall p | 0 <= p < |s|
      ensures EndsAt(s, p, own(s[p]))
    {
      if p < |l| {
        assert EndsAt(l, p, own(l[p]));
      } else if p < |l| + |k| {
        assert EndsAt(k, p - |l|, own(k[p - |l|]));
      }
    }
  }

  /** The nodes below a tree's root, in post-order, and the root. */
  ghost function Own(): Tree -> seq<Tree>
  {
    (t: Tree) => PostOrder(One(t))
  }

  lemma {:induction false} PostOrderNested(f: Forest)
    ensures Nested(PostOrder(f), Own())
  {
    if f.Snoc? {
      PostOrderNested(f.left);
      PostOrderNested(f.last.kids);
      PostOrderOne(f.last);
      NestedConcat(PostOrder(f.left), PostOrder(f.last.kids), f.last, Own());
    }
  }

  /** The subtree of the node at index p fills the places that end at p. */
  lemma {:induction false} SubtreeSlice(f: Forest, p: nat)
    requires p < Size(f)
    ensures EndsAt(PostOrder(f), p, PostOrder(One(PostOrder(f)[p])))
  {
    PostOrderNested(f);
    assert EndsAt(PostOrder(f), p, Own()(PostOrder(f)[p]));
  }

  /** Subtrees nest: a node inside another's subtree has its own subtree inside it. */
  lemma {:induction false} SubtreesNest(f: Forest, p: nat, q: nat)
    requires p < Size(f) && p + 1 - TreeSize(PostOrder(f)[p]) <= q <= p
    ensures p + 1 - TreeSize(PostOrder(f)[p]) <= q + 1 - TreeSize(PostOrder(f)[q])
  {
    var s := PostOrder(f);
    var own := PostOrder(One(s[p]));
    var j := q + |own| - p - 1;
    SubtreeSlice(f, p);
    assert s[q] == own[j];
    SubtreeSlice(One(s[p]), j);
  }

  lemma {:induction false} FirstPosition(f: Forest)
    requires f.Snoc?
    ensures TreeSize(First(f)) <= Size(f)
    ensures PostOrder(f)[TreeSize(First(f)) - 1] == First(f)
  {
    if f.left.Snoc? {
      FirstPosition(f.left);
    }
  }

  /** The first child of an inner node was numbered when the first child's subtree was complete. */
  lemma {:induction false} FirstChildNumber(f: Forest, p: nat)
    requires p < Size(f) && PostOrder(f)[p].kids.Snoc?
    ensures var t := PostOrder(f)[p]; var u := First(t.kids);
            0 <= p - TreeSize(t) + TreeSize(u) < p && PostOrder(f)[p - TreeSize(t) + TreeSize(u)] == u
  {
    var t := PostOrder(f)[p];
    var u := First(t.kids);
    SubtreeSlice(f, p);
    FirstPosition(t.kids);
    PostOrderOne(t);
    assert PostOrder(One(t))[TreeSize(u) - 1] == u;
  }

  // ---------- reading a forest back from the numbers ----------

  /** Numbers stay within bounds and subtrees nest. */
  ghost predicate WellNumbered(d: TreeData)
  {
    && |d.nodes| == |d.l| > 0
    && (forall i :: 1 <= i < |d.l| ==> 1 <= d.l[i] <= i)
    && (forall i, k :: 1 <= i < |d.l| && d.l[i] <= k <= i ==> d.l[i] <= d.l[k])
  }

  ghost function TreeAt(d: TreeData, i: nat): Tree
    requires WellNumbered(d) && 1 <= i < |d.l|
    decreases i, 0
  {
    Tree(d.nodes[i], ForestAt(d, d.l[i], i - 1))
  }

  /** The forest formed by the nodes a..i. */
  ghost function ForestAt(d: TreeData, a: nat, i: nat): Forest
    requires WellNumbered(d) && 1 <= a && i < |d.l|
    decreases i, 1
  {
    if i < a then Nil else Snoc(ForestAt(d, a, d.l[i] - 1), TreeAt(d, i))
  }

  lemma {:induction false} ForestAtSplit(d: TreeData, a: nat, b: nat, i: nat)
    requires WellNumbered(d) && 1 <= a <= b <= i + 1 <= |d.l|
    requires forall k :: b <= k <= i ==> b <= d.l[k]
    ensures ForestAt(d, a, i) == Concat(ForestAt(d, a, b - 1), ForestAt(d, b, i))
    decreases i
  {
    if b <= i {
      ForestAtSplit(d, a, b, d.l[i] - 1);
    }
  }

  lemma {:induction false} ForestAtLeftmost(d: TreeData, i: nat)
    requires WellNumbered(d) && 1 <= i < |d.l|
    ensures ForestAt(d, d.l[i], i) == One(TreeAt(d, i))
  {
    assert ForestAt(d, d.l[i], d.l[i] - 1) == Nil;
  }

  /** Dropping the last number is removing the rightmost root. */
  lemma {:induction false} ForestAtPruned(d: TreeData, a: nat, i: nat)
    requires WellNumbered(d) && 1 <= a <= i < |d.l| && a <= d.l[i]
    ensures ForestAt(d, a, i).Snoc? && Pruned(ForestAt(d, a, i)) == ForestAt(d, a, i - 1)
  {
    ForestAtSplit(d, a, d.l[i], i - 1);
  }

  /** The forest of a range, by its last tree. */
  lemma {:induction false} ForestAtParts(d: TreeData, a: nat, i: nat, f: Forest)
    requires WellNumbered(d) && 1 <= a <= i < |d.l| && a <= d.l[i] && f == ForestAt(d, a, i)
    ensures f.Snoc? && f.left == ForestAt(d, a, d.l[i] - 1) && f.last == TreeAt(d, i) && Pruned(f) == ForestAt(d, a, i - 1)
  {
    ForestAtPruned(d, a, i);
  }

  ghost predicate Occupies(d: TreeData, f: Forest, b: nat)
    requires |d.nodes| == |d.l|
  {
    && b + Size(f) < |d.l|
    && (forall k :: 0 <= k < Size(f) ==> d.nodes[b + 1 + k] == PostOrder(f)[k].root)
    && (forall k :: 0 <= k < Size(f) ==> d.l[b + 1 + k] == b + 2 + k - TreeSize(PostOrder(f)[k]))
  }

  /** `d` numbers the forest `f`. */
  ghost predicate Numbers(d: TreeData, f: Forest)
  {
    |d.nodes| == |d.l| == Size(f) + 1 && Occupies(d, f, 0)
  }

  lemma {:induction false} NumbersWell(d: TreeData, f: Forest)
    requires Numbers(d, f)
    ensures WellNumbered(d)
  {
    forall i | 1 <= i < |d.l|
      ensures 1 <= d.l[i] <= i
    {
      SubtreeSlice(f, i - 1);
      assert d.l[0 + 1 + (i - 1)] == i + 1 - TreeSize(PostOrder(f)[i - 1]);
    }
    forall i, k | 1 <= i < |d.l| && d.l[i] <= k <= i
      ensures d.l[i] <= d.l[k]
    {
      NumbersNest(d, f, i, k);
    }
  }

  lemma {:induction false} NumbersNest(d: TreeData, f: Forest, i: nat, k: nat)
    requires Numbers(d, f)
    requires 1 <= i < |d.l| && d.l[i] <= k <= i
    ensures d.l[i] <= d.l[k]
  {
    SubtreeSlice(f, i - 1);
    assert d.l[0 + 1 + (i - 1)] == i + 1 - TreeSize(PostOrder(f)[i - 1]);
    SubtreesNest(f, i - 1, k - 1);
    assert d.l[0 + 1 + (k - 1)] == k + 1 - TreeSize(PostOrder(f)[k - 1]);
  }

  lemma {:induction false} OccupiesParts(d: TreeData, f: Forest, b: nat)
    requires |d.nodes| == |d.l| && f.Snoc? && Occupies(d, f, b)
    ensures Occupies(d, f.left, b) && Occupies(d, f.last.kids, b + Size(f.left))
    ensures d.nodes[b + Size(f)] == f.last.root && d.l[b + Size(f)] == b + Size(f.left) + 1
  {
    var l, n := PostOrder(f.left), Size(f.last.kids);
    assert PostOrder(f)[|l| + n] == f.last;
    forall k | 0 <= k < |l|
      ensures d.nodes[b + 1 + k] == l[k].root && d.l[b + 1 + k] == b + 2 + k - TreeSize(l[k])
    {
      assert PostOrder(f)[k] == l[k];
    }
    forall k | 0 <= k < n
      ensures d.nodes[b + |l| + 1 + k] == PostOrder(f.last.kids)[k].root
      ensures d.l[b + |l| + 1 + k] == b + |l| + 2 + k - TreeSize(PostOrder(f.last.kids)[k])
    {
      assert PostOrder(f)[|l| + k] == PostOrder(f.last.kids)[k];
      assert d.nodes[b + 1 + (|l| + k)] == PostOrder(f)[|l| + k].root;
    }
    assert d.nodes[b + 1 + (|l| + n)] == f.last.root;
  }

  lemma {:induction false} ForestAtSnoc(d: TreeData, b: nat, m: nat, i: nat)
    requires WellNumbered(d) && 1 <= b <= m <= i < |d.l| && d.l[i] == m
    ensures ForestAt(d, b, i) == Snoc(ForestAt(d, b, m - 1), Tree(d.nodes[i], ForestAt(d, m, i - 1)))
  {
  }

  /** The numbers a..i spell out f, tree by tree. */
  ghost predicate Laid(d: TreeData, f: Forest, a: nat, i: nat)
    requires |d.nodes| == |d.l| && 1 <= a && i == a - 1 + Size(f) && i < |d.l|
    decreases f
  {
    f.Snoc? ==>
      var m := a + Size(f.left);
      && Laid(d, f.left, a, m - 1) && Laid(d, f.last.kids, m, i - 1)
      && d.nodes[i] == f.last.root && d.l[i] == m
  }

  lemma {:induction false} OccupiesLaid(d: TreeData, f: Forest, b: nat)
    requires |d.nodes| == |d.l| && Occupies(d, f, b)
    ensures Laid(d, f, b + 1, b + Size(f))
    decreases f
  {
    if f.Snoc? {
      OccupiesParts(d, f, b);
      OccupiesLaid(d, f.left, b);
      OccupiesLaid(d, f.last.kids, b + Size(f.left));
    }
  }

  lemma {:induction false} LaidRebuilds(d: TreeData, f: Forest, a: nat, i: nat)
    requires WellNumbered(d) && 1 <= a && i == a - 1 + Size(f) && i < |d.l| && Laid(d, f, a, i)
    ensures ForestAt(d, a, i) == f
    decreases f
  {
    if f.Snoc? {
      var m := a + Size(f.left);
      LaidRebuilds(d, f.left, a, m - 1);
      LaidRebuilds(d, f.last.kids, m, i - 1);
      ForestAtSnoc(d, a, m, i);
    }
  }

  /** The numbers alone rebuild the forest they were taken from. */
  lemma {:induction false} NumbersRebuild(d: TreeData, f: Forest)
    requires Numbers(d, f)
    ensures WellNumbered(d) && ForestAt(d, 1, d.Count()) == f
  {
    NumbersWell(d, f);
    OccupiesLaid(d, f, 0);
    LaidRebuilds(d, f, 1, Size(f));
  }

  // ---------- keyroots ----------

  ghost predicate IsKeyroot(d: TreeData, i: nat)
  {
    1 <= i < |d.l| && forall k :: i < k < |d.l| ==> d.l[k] != d.l[i]
  }

  ghost predicate KeyrootsListed(d: TreeData)
  {
    && (forall p, q :: 0 <= p < q < |d.keyroots| ==> d.keyroots[p] < d.keyroots[q])
    && (forall i :: i in d.keyroots <==> IsKeyroot(d, i))
  }

  /** The keyroot that stands for node i: the largest number with i's leftmost leaf. */
  ghost function KeyrootOf(d: TreeData, i: nat): (k: nat)
    requires 1 <= i < |d.l|
    ensures i <= k && IsKeyroot(d, k) && d.l[k] == d.l[i]
    decreases |d.l| - i
  {
    if k :| i < k < |d.l| && d.l[k] == d.l[i] then KeyrootOf(d, k) else i
  }

  /** Inside the subtree of a keyroot only that subtree's leftmost path shares its leftmost leaf;
      every other node answers to a smaller keyroot. */
  lemma {:induction false} KeyrootOrder(d: TreeData, i: nat, x: nat)
    requires WellNumbered(d) && IsKeyroot(d, i) && d.l[i] <= x <= i
    ensures KeyrootOf(d, x) <= i
    ensures KeyrootOf(d, x) == i <==> d.l[x] == d.l[i]
  {
    var k := KeyrootOf(d, x);
  }

  /** The p-th keyroot, or a bound above all of them. */
  ghost function KeyBound(d: TreeData, p: nat): nat
  {
    if p < |d.keyroots| then d.keyroots[p] else |d.l|
  }

  /** Advancing the loop over the keyroots by one passes exactly the nodes of keyroot p. */
  lemma {:induction false} KeyBoundStep(d: TreeData, p: nat, x: nat)
    requires KeyrootsListed(d) && 1 <= x < |d.l|
    ensures p < |d.keyroots| ==> (KeyrootOf(d, x) < KeyBound(d, p + 1) <==> KeyrootOf(d, x) <= d.keyroots[p])
    ensures KeyBound(d, 0) <= KeyrootOf(d, x) < KeyBound(d, |d.keyroots|)
  {
    assert KeyrootOf(d, x) in d.keyroots;
  }

  /** The pairs of nodes that the two keyroot loops have dealt with before reaching the p-th and
      q-th keyroot: those whose own keyroots precede them in the order of the loops. */
  ghost predicate Settled(d1: TreeData, d2: TreeData, p: nat, q: nat, x: int, y: int)
  {
    && 1 <= x < |d1.l| && 1 <= y < |d2.l|
    && (KeyrootOf(d1, x) < KeyBound(d1, p) || (KeyrootOf(d1, x) == KeyBound(d1, p) && KeyrootOf(d2, y) < KeyBound(d2, q)))
  }

  /** Inside the two keyroot subtrees, every pair that this pair of keyroots does not itself settle
      was settled by an earlier one. */
  lemma {:induction false} SettledBefore(d1: TreeData, d2: TreeData, p: nat, q: nat, x: nat, y: nat)
    requires WellNumbered(d1) && WellNumbered(d2) && KeyrootsListed(d1) && KeyrootsListed(d2)
    requires p < |d1.keyroots| && q < |d2.keyroots|
    requires var i, j := d1.keyroots[p], d2.keyroots[q];
             i < |d1.l| && j < |d2.l| && d1.l[i] <= x <= i && d2.l[j] <= y <= j
             && !(d1.l[x] == d1.l[i] && d2.l[y] == d2.l[j])
    ensures Settled(d1, d2, p, q, x, y)
  {
    KeyrootOrder(d1, d1.keyroots[p], x);
    KeyrootOrder(d2, d2.keyroots[q], y);
  }

  lemma {:induction false} SettledNext(d1: TreeData, d2: TreeData, p: nat, q: nat, x: nat, y: nat)
    requires WellNumbered(d1) && WellNumbered(d2) && KeyrootsListed(d1) && KeyrootsListed(d2)
    requires p < |d1.keyroots| && q < |d2.keyroots|
    requires Settled(d1, d2, p, q + 1, x, y) && !Settled(d1, d2, p, q, x, y)
    ensures var i, j := d1.keyroots[p], d2.keyroots[q];
            i < |d1.l| && j < |d2.l| && d1.l[i] <= x <= i && d2.l[j] <= y <= j
            && d1.l[x] == d1.l[i] && d2.l[y] == d2.l[j]
  {
    KeyBoundStep(d2, q, y);
  }

  lemma {:induction false} SettledNextRow(d1: TreeData, d2: TreeData, p: nat, x: nat, y: nat)
    requires KeyrootsListed(d1) && KeyrootsListed(d2)
    requires p < |d1.keyroots| && Settled(d1, d2, p + 1, 0, x, y)
    ensures Settled(d1, d2, p, |d2.keyroots|, x, y)
  {
    KeyBoundStep(d1, p, x);
    KeyBoundStep(d2, 0, y);
  }
}
