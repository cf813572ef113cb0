/**
 The order in which the semantic diff writes independent statements, as a function of the
 statement list: always the least-named statement that depends on nothing still waiting.
 The order is a normal form of the statement list up to swaps of independent neighbours.
 */
module StatementOrder {

  /** What the canonicalizer reads off one dump line: nesting depth, type name, the quoted name of
      a `ref` line (empty when there is none), and the text itself. */
  datatype Line = Line(depth: nat, typ: string, ref: string, text: string)

  datatype Stmt = Stmt(lines: seq<Line>, written: string, uses: set<string>, key: string)

  // ---------- string order ----------

  predicate Less(s: string, t: string)
  {
    if t == "" then false
    else if s == "" then true
    else if s[0] != t[0] then s[0] < t[0]
    else Less(s[1..], t[1..])
  }

  /** One string is a proper prefix of the other, or has the smaller character at the first place where they differ. */
  ghost predicate Earlier(s: string, t: string)
  {
    s < t || exists k: nat :: Differ(s, t, k) && s[k] < t[k]
  }

  /** The first place where two strings differ. */
  predicate Differ(s: string, t: string, k: nat)
  {
    k < |s| && k < |t| && s[..k] == t[..k] && s[k] != t[k]
  }

  lemma {:induction false} LessIff(s: string, t: string)
    ensures Less(s, t) <==> Earlier(s, t)
  {
    if s != "" && t != "" {
      if s[0] != t[0] {
        assert Differ(s, t, 0);
        assert !(s <= t);
      } else {
        LessIff(s[1..], t[1..]);
        assert s == [s[0]] + s[1..] && t == [t[0]] + t[1..];
        if Earlier(s[1..], t[1..]) && !(s[1..] < t[1..]) {
          var k: nat :| Differ(s[1..], t[1..], k) && s[1..][k] < t[1..][k];
          assert s[..k + 1] == [s[0]] + s[1..][..k] && t[..k + 1] == [t[0]] + t[1..][..k];
          assert Differ(s, t, k + 1);
        }
        if Earlier(s, t) && !(s < t) {
          var k: nat :| Differ(s, t, k) && s[k] < t[k];
          assert s[1..][..k - 1] == s[..k][1..] && t[1..][..k - 1] == t[..k][1..];
          assert Differ(s[1..], t[1..], k - 1);
        }
      }
    }
  }

  lemma {:induction false} LessTotal(s: string, t: string)
    ensures Less(s, t) || Less(t, s) || s == t
    ensures !(Less(s, t) && Less(t, s)) && !(s == t && Less(s, t))
  {
    if s != "" && t != "" {
      LessTotal(s[1..], t[1..]);
      assert s == [s[0]] + s[1..] && t == [t[0]] + t[1..];
    }
  }

  lemma {:induction false} LessTransitive(s: string, t: string, u: string)
    requires Less(s, t) && Less(t, u)
    ensures Less(s, u)
  {
    if s != "" && t != "" && u != "" && s[0] == t[0] == u[0] {
      LessTransitive(s[1..], t[1..], u[1..]);
    }
  }

  // ---------- dependence ----------

  /** Read after write, write after read, or write after write. */
  predicate Depends(a: Stmt, b: Stmt)
  {
    || (a.written != "" && a.written in b.uses)
    || (b.written != "" && b.written in a.uses)
    || (a.written != "" && a.written == b.written)
  }

  /** The shape the grouping pass guarantees: a statement sorts under the variable it writes, and
      one that writes nothing reads nothing. */
  predicate Proper(s: Stmt)
  {
    s.key == s.written && (s.written == "" ==> s.uses == {})
  }

  predicate AllProper(l: seq<Stmt>)
  {
    forall i :: 0 <= i < |l| ==> Proper(l[i])
  }

  predicate Ready(l: seq<Stmt>, i: nat)
    requires i < |l|
  {
    forall j :: 0 <= j < i ==> !Depends(l[j], l[i])
  }

  /** Sort key first, position second. */
  predicate Before(l: seq<Stmt>, i: nat, j: nat)
    requires i < |l| && j < |l|
  {
    Less(l[i].key, l[j].key) || (l[i].key == l[j].key && i < j)
  }

  ghost predicate IsPick(l: seq<Stmt>, i: nat)
  {
    i < |l| && Ready(l, i) && forall j :: 0 <= j < |l| && j != i && Ready(l, j) ==> Before(l, i, j)
  }

  /** The least ready position among the first n. */
  ghost function PickUpTo(l: seq<Stmt>, n: nat): (i: nat)
    requires 0 < n <= |l|
    ensures i < n && Ready(l, i) && forall j :: 0 <= j < n && j != i && Ready(l, j) ==> Before(l, i, j)
  {
    if n == 1 then 0
    else
      var i := PickUpTo(l, n - 1);
      LessTotal(l[n - 1].key, l[i].key);
      if Ready(l, n - 1) && Less(l[n - 1].key, l[i].key) then
        PickBeatsAll(l, n, i);
        n - 1
      else i
  }

  lemma {:induction false} PickBeatsAll(l: seq<Stmt>, n: nat, i: nat)
    requires 1 < n <= |l| && i < n - 1 && Less(l[n - 1].key, l[i].key)
    requires forall j :: 0 <= j < n - 1 && j != i && Ready(l, j) ==> Before(l, i, j)
    ensures forall j :: 0 <= j < n - 1 && Ready(l, j) ==> Before(l, n - 1, j)
  {
    forall j | 0 <= j < n - 1 && Ready(l, j)
      ensures Before(l, n - 1, j)
    {
      if j != i && Less(l[i].key, l[j].key) {
        LessTransitive(l[n - 1].key, l[i].key, l[j].key);
      }
    }
  }

  ghost function Pick(l: seq<Stmt>): (i: nat)
    requires l != []
    ensures IsPick(l, i)
  {
    PickUpTo(l, |l|)
  }

  lemma {:induction false} PickUnique(l: seq<Stmt>, i: nat, j: nat)
    requires IsPick(l, i) && IsPick(l, j)
    ensures i == j
  {
    if i != j {
      LessTotal(l[i].key, l[j].key);
    }
  }

  function Without<T>(l: seq<T>, i: nat): (r: seq<T>)
    requires i < |l|
    ensures |r| == |l| - 1
    ensures forall j :: 0 <= j < |r| ==> r[j] == if j < i then l[j] else l[j + 1]
  {
    l[..i] + l[i + 1..]
  }

  ghost function Canon(l: seq<Stmt>): (r: seq<Stmt>)
    ensures |r| == |l|
  {
    if l == [] then [] else [l[Pick(l)]] + Canon(Without(l, Pick(l)))
  }

  // ---------- the canonical order, by positions ----------

  /** An earlier statement that it depends on has not been taken. */
  ghost predicate Waits(l: seq<Stmt>, taken: seq<nat>, v: nat)
    requires v < |l|
  {
    exists u: nat :: u < v && u !in taken && Depends(l[u], l[v])
  }

  /** Of those that wait for nothing, this one has the first key, and among equal keys the first position. */
  ghost predicate TakenNext(l: seq<Stmt>, taken: seq<nat>, u: nat)
  {
    u < |l| && u !in taken && !Waits(l, taken, u)
    && forall v: nat :: v < |l| && v !in taken && v != u && !Waits(l, taken, v) ==>
                          Earlier(l[u].key, l[v].key) || (l[u].key == l[v].key && u < v)
  }

  ghost predicate NextAt(l: seq<Stmt>, order: seq<nat>, k: int)
  {
    0 <= k < |order| && TakenNext(l, order[..k], order[k])
  }

  /** All positions, each taken in its turn. */
  ghost predicate Canonical(l: seq<Stmt>, order: seq<nat>)
  {
    |order| == |l| && forall k {:trigger NextAt(l, order, k)} :: 0 <= k < |order| ==> NextAt(l, order, k)
  }

  /** There is only one such order. */
  lemma {:induction false} CanonicalUnique(l: seq<Stmt>, p: seq<nat>, q: seq<nat>, k: nat)
    requires Canonical(l, p) && Canonical(l, q) && k <= |l|
    ensures p[..k] == q[..k]
  {
    if k > 0 {
      CanonicalUnique(l, p, q, k - 1);
      assert NextAt(l, p, k - 1) && NextAt(l, q, k - 1);
      NextUnique(l, p[..k - 1], p[k - 1], q[k - 1]);
      assert p[..k] == p[..k - 1] + [p[k - 1]] && q[..k] == q[..k - 1] + [q[k - 1]];
    }
  }

  lemma {:induction false} NextUnique(l: seq<Stmt>, taken: seq<nat>, u: nat, w: nat)
    requires TakenNext(l, taken, u) && TakenNext(l, taken, w)
    ensures u == w
  {
    LessIff(l[u].key, l[w].key);
    LessIff(l[w].key, l[u].key);
    LessTotal(l[u].key, l[w].key);
  }

  lemma {:induction false} WithoutMultiset<T>(l: seq<T>, i: nat)
    requires i < |l|
    ensures multiset(l) == multiset{l[i]} + multiset(Without(l, i))
  {
    assert l == l[..i] + [l[i]] + l[i + 1..];
  }

  lemma {:induction false} CanonPermutes(l: seq<Stmt>)
    ensures multiset(Canon(l)) == multiset(l)
  {
    if l != [] {
      var i := Pick(l);
      CanonPermutes(Without(l, i));
      WithoutMultiset(l, i);
    }
  }

  // ---------- swapping independent neighbours ----------

  /** l with the statements at k and k + 1 exchanged. */
  function Swapped(l: seq<Stmt>, k: nat): (r: seq<Stmt>)
    requires k + 1 < |l|
    ensures |r| == |l|
  {
    l[k := l[k + 1]][k + 1 := l[k]]
  }

  predicate CanSwap(l: seq<Stmt>, k: nat)
  {
    k + 1 < |l| && !Depends(l[k], l[k + 1])
  }

  /** A series of exchanges of independent neighbours, by position. */
  datatype Swaps = Done | Then(k: nat, rest: Swaps)

  ghost predicate Leads(c: Swaps, l: seq<Stmt>, r: seq<Stmt>)
  {
    match c
    case Done => l == r
    case Then(k, rest) => CanSwap(l, k) && Leads(rest, Swapped(l, k), r)
  }

  ghost predicate Equivalent(l: seq<Stmt>, r: seq<Stmt>)
  {
    exists c :: Leads(c, l, r)
  }

  lemma {:induction false} EquivalentRefl(l: seq<Stmt>)
    ensures Equivalent(l, l)
  {
    assert Leads(Done, l, l);
  }

  lemma {:induction false} EquivalentStep(l: seq<Stmt>, k: nat, r: seq<Stmt>)
    requires CanSwap(l, k) && Equivalent(Swapped(l, k), r)
    ensures Equivalent(l, r)
  {
    var c :| Leads(c, Swapped(l, k), r);
    assert Leads(Then(k, c), l, r);
  }

  lemma {:induction false} LeadsTrans(c: Swaps, l: seq<Stmt>, m: seq<Stmt>, r: seq<Stmt>)
    requires Leads(c, l, m) && Equivalent(m, r)
    ensures Equivalent(l, r)
  {
    if c.Then? {
      LeadsTrans(c.rest, Swapped(l, c.k), m, r);
      EquivalentStep(l, c.k, r);
    }
  }

  lemma {:induction false} EquivalentTrans(l: seq<Stmt>, m: seq<Stmt>, r: seq<Stmt>)
    requires Equivalent(l, m) && Equivalent(m, r)
    ensures Equivalent(l, r)
  {
    var c :| Leads(c, l, m);
    LeadsTrans(c, l, m, r);
  }

  lemma {:induction false} LeadsBack(c: Swaps, l: seq<Stmt>, r: seq<Stmt>)
    requires Leads(c, l, r)
    ensures Equivalent(r, l)
  {
    if c.Done? {
      EquivalentRefl(l);
    } else {
      var m := Swapped(l, c.k);
      LeadsBack(c.rest, m, r);
      assert Swapped(m, c.k) == l;
      EquivalentRefl(l);
      EquivalentStep(m, c.k, l);
      EquivalentTrans(r, m, l);
    }
  }

  lemma {:induction false} EquivalentSymm(l: seq<Stmt>, r: seq<Stmt>)
    requires Equivalent(l, r)
    ensures Equivalent(r, l)
  {
    var c :| Leads(c, l, r);
    LeadsBack(c, l, r);
  }

  lemma {:induction false} LeadsPrefix(a: Stmt, c: Swaps, l: seq<Stmt>, r: seq<Stmt>)
    requires Leads(c, l, r)
    ensures Equivalent([a] + l, [a] + r)
  {
    if c.Done? {
      EquivalentRefl([a] + l);
    } else {
      LeadsPrefix(a, c.rest, Swapped(l, c.k), r);
      assert Swapped([a] + l, c.k + 1) == [a] + Swapped(l, c.k);
      EquivalentStep([a] + l, c.k + 1, [a] + r);
    }
  }

  /** A ready statement can be moved to the front by such swaps. */
  lemma {:induction false} BringForward(l: seq<Stmt>, i: nat)
    requires i < |l| && Ready(l, i)
    ensures Equivalent(l, [l[i]] + Without(l, i))
    decreases i
  {
    if i == 0 {
      assert [l[0]] + Without(l, 0) == l;
      EquivalentRefl(l);
    } else {
      var m := Swapped(l, i - 1);
      BringForward(m, i - 1);
      assert Without(m, i - 1) == Without(l, i);
      EquivalentStep(l, i - 1, [l[i]] + Without(l, i));
    }
  }

  /** The canonical order is reached by swapping independent neighbours only. */
  lemma {:induction false} CanonEquivalent(l: seq<Stmt>)
    ensures Equivalent(l, Canon(l))
  {
    if l == [] {
      EquivalentRefl(l);
    } else {
      var i := Pick(l);
      BringForward(l, i);
      CanonEquivalent(Without(l, i));
      var c :| Leads(c, Without(l, i), Canon(Without(l, i)));
      LeadsPrefix(l[i], c, Without(l, i), Canon(Without(l, i)));
      EquivalentTrans(l, [l[i]] + Without(l, i), Canon(l));
    }
  }

  // ---------- normal form ----------

  /** Statements that write nothing are all the same statement. */
  predicate UnwrittenAlike(l: seq<Stmt>)
  {
    forall i, j :: 0 <= i < j < |l| && l[i].written == "" && l[j].written == "" ==> l[i] == l[j]
  }

  /** Where position i of l went when the neighbours at k were exchanged. */
  function Moved(k: nat, i: nat): nat
  {
    if i == k then k + 1 else if i == k + 1 then k else i
  }

  lemma {:induction false} ReadyMoved(l: seq<Stmt>, k: nat, i: nat)
    requires CanSwap(l, k) && i < |l|
    ensures Ready(l, i) <==> Ready(Swapped(l, k), Moved(k, i))
  {
    var r := Swapped(l, k);
    forall j | 0 <= j < |l|
      ensures r[Moved(k, j)] == l[j]
    {
    }
    if Ready(l, i) {
      forall j | 0 <= j < Moved(k, i)
        ensures !Depends(r[j], r[Moved(k, i)])
      {
        assert r[j] == l[Moved(k, j)];
      }
    }
    if Ready(r, Moved(k, i)) {
      forall j | 0 <= j < i
        ensures !Depends(l[j], l[i])
      {
        assert l[j] == r[Moved(k, j)];
      }
    }
  }

  /** Two ready statements never share a sort key unless neither writes anything. */
  lemma {:induction false} ReadyKeysDiffer(l: seq<Stmt>, i: nat, j: nat)
    requires AllProper(l) && i < |l| && j < |l| && i != j && Ready(l, i) && Ready(l, j)
    requires l[i].key == l[j].key
    ensures l[i].written == "" && l[j].written == ""
  {
    assert Proper(l[i]) && Proper(l[j]);
  }

  /** Neighbours that write nothing, and differ. */
  predicate SilentDiffer(l: seq<Stmt>, k: nat)
    requires k + 1 < |l|
  {
    l[k].written == "" && l[k + 1].written == "" && l[k] != l[k + 1]
  }

  /** Swapping independent neighbours moves the pick along, unless it exchanges equal statements. */
  lemma {:induction false} PickMoved(l: seq<Stmt>, k: nat)
    requires CanSwap(l, k) && AllProper(l) && !SilentDiffer(l, k)
    ensures Pick(Swapped(l, k)) == Moved(k, Pick(l)) || Swapped(l, k) == l
  {
    var r := Swapped(l, k);
    var i, i2 := Pick(l), Pick(r);
    var j := Moved(k, i2);
    assert r[i2] == l[j] && r[Moved(k, i)] == l[i] && Moved(k, j) == i2;
    ReadyMoved(l, k, i);
    ReadyMoved(l, k, j);
    if j != i {
      assert Before(l, i, j) && Before(r, i2, Moved(k, i));
      LessTotal(l[i].key, l[j].key);
      ReadyKeysDiffer(l, i, j);
      assert i < j && i2 < Moved(k, i);
      assert i == k && j == k + 1;
      assert l[k] == l[k + 1];
    }
  }

  lemma {:induction false} WithoutSwapped(l: seq<Stmt>, k: nat, i: nat)
    requires CanSwap(l, k) && i < |l|
    ensures var r := Without(Swapped(l, k), Moved(k, i));
            if i == k || i == k + 1 then r == Without(l, i)
            else var k' := if i < k then k - 1 else k;
                 CanSwap(Without(l, i), k') && r == Swapped(Without(l, i), k') && (SilentDiffer(Without(l, i), k') <==> SilentDiffer(l, k))
  {
    var r := Without(Swapped(l, k), Moved(k, i));
    var w := Without(l, i);
    if i == k || i == k + 1 {
      assert r == w;
    } else {
      var k' := if i < k then k - 1 else k;
      assert w[k'] == l[k] && w[k' + 1] == l[k + 1];
      assert r == Swapped(w, k');
    }
  }

  lemma {:induction false} WithoutProper(l: seq<Stmt>, i: nat)
    requires i < |l| && AllProper(l)
    ensures AllProper(Without(l, i))
  {
  }

  /** An exchange of independent neighbours keeps the canonical order, unless the two write nothing and differ. */
  lemma {:induction false} SwapKeepsCanon(l: seq<Stmt>, k: nat)
    requires CanSwap(l, k) && AllProper(l) && !SilentDiffer(l, k)
    ensures Canon(Swapped(l, k)) == Canon(l)
    decreases |l|
  {
    var r := Swapped(l, k);
    if r != l {
      PickMoved(l, k);
      var i := Pick(l);
      assert r[Pick(r)] == l[i];
      WithoutSwapped(l, k, i);
      WithoutProper(l, i);
      if i != k && i != k + 1 {
        SwapKeepsCanon(Without(l, i), if i < k then k - 1 else k);
      }
    }
  }

  lemma {:induction false} SwapKeepsShape(l: seq<Stmt>, k: nat)
    requires k + 1 < |l| && AllProper(l) && UnwrittenAlike(l)
    ensures AllProper(Swapped(l, k)) && UnwrittenAlike(Swapped(l, k))
  {
    var r := Swapped(l, k);
    forall i, j | 0 <= i < j < |r| && r[i].written == "" && r[j].written == ""
      ensures r[i] == r[j]
    {
      assert r[i] == l[Moved(k, i)] && r[j] == l[Moved(k, j)];
    }
  }

  lemma {:induction false} LeadsKeepsCanon(c: Swaps, l: seq<Stmt>, r: seq<Stmt>)
    requires Leads(c, l, r) && AllProper(l) && UnwrittenAlike(l)
    ensures Canon(r) == Canon(l)
  {
    if c.Then? {
      SwapKeepsCanon(l, c.k);
      SwapKeepsShape(l, c.k);
      LeadsKeepsCanon(c.rest, Swapped(l, c.k), r);
    }
  }

  /** Two statement lists have the same canonical order exactly when one can be turned into the
      other by swapping independent neighbours. */
  lemma {:induction false} NormalForm(l: seq<Stmt>, r: seq<Stmt>)
    requires AllProper(l) && UnwrittenAlike(l)
    ensures Equivalent(l, r) <==> Canon(l) == Canon(r)
  {
    if Equivalent(l, r) {
      var c :| Leads(c, l, r);
      LeadsKeepsCanon(c, l, r);
    }
    if Canon(l) == Canon(r) {
      CanonEquivalent(l);
      CanonEquivalent(r);
      EquivalentSymm(r, Canon(r));
      EquivalentTrans(l, Canon(l), r);
    }
  }

  // ---------- when it is not a normal form ----------

  /** A statement that writes nothing is picked first, and the earliest such statement wins. */
  lemma {:induction false} PickUnwritten(l: seq<Stmt>, i: nat)
    requires AllProper(l) && i < |l| && l[i].written == "" && forall j :: 0 <= j < i ==> l[j].written != ""
    ensures Pick(l) == i
  {
    assert Proper(l[i]);
    forall j | 0 <= j < i
      ensures !Depends(l[j], l[i])
    {
      assert Proper(l[j]);
    }
    forall j | 0 <= j < |l| && j != i
      ensures Before(l, i, j)
    {
      assert Proper(l[j]);
    }
    PickUnique(l, i, Pick(l));
  }

  lemma {:induction false} FirstUnwritten(l: seq<Stmt>, q: nat) returns (p: nat)
    requires q < |l| && l[q].written == ""
    ensures p <= q && l[p].written == "" && forall j :: 0 <= j < p ==> l[j].written != ""
  {
    p := 0;
    while l[p].written != ""
      invariant p <= q && forall j :: 0 <= j < p ==> l[j].written != ""
      decreases q - p
    {
      p := p + 1;
    }
  }

  lemma {:induction false} ReadyUnwritten(l: seq<Stmt>, q: nat)
    requires AllProper(l) && q < |l| && l[q].written == ""
    ensures Ready(l, q)
  {
    assert Proper(l[q]);
    forall j | 0 <= j < q
      ensures !Depends(l[j], l[q])
    {
      assert Proper(l[j]);
    }
  }

  /** Bringing a different silent statement to the front changes the canonical order. */
  lemma {:induction false} OrderShows(l: seq<Stmt>, p: nat, q: nat) returns (r: seq<Stmt>)
    requires AllProper(l) && p < |l| && q < |l| && l[p].written == "" && l[q].written == "" && l[p] != l[q]
    requires forall j :: 0 <= j < p ==> l[j].written != ""
    ensures Equivalent(l, r) && Canon(r) != Canon(l)
  {
    ReadyUnwritten(l, q);
    BringForward(l, q);
    r := [l[q]] + Without(l, q);
    PickUnwritten(l, p);
    PickUnwritten(r, 0);
    assert Canon(r)[0] == l[q] && Canon(l)[0] == l[p];
  }

  /** The canonical order survives every swap of independent neighbours exactly when the statements
      that write nothing are all equal: the order among those is the original order. */
  lemma {:induction false} NormalFormIff(l: seq<Stmt>)
    requires AllProper(l)
    ensures (forall r :: Equivalent(l, r) ==> Canon(r) == Canon(l)) <==> UnwrittenAlike(l)
  {
    if UnwrittenAlike(l) {
      forall r | Equivalent(l, r)
        ensures Canon(r) == Canon(l)
      {
        NormalForm(l, r);
      }
    } else {
      var i, j :| 0 <= i < j < |l| && l[i].written == "" && l[j].written == "" && l[i] != l[j];
      var p := FirstUnwritten(l, i);
      var r := OrderShows(l, p, if l[i] != l[p] then i else j);
    }
  }

  // ---------- meaning ----------

  ghost predicate SameAt<V>(s: map<string, V>, t: map<string, V>, x: string)
  {
    (x in s <==> x in t) && (x in s ==> s[x] == t[x])
  }

  /** The effect of a statement touches only the variable it writes, and what it writes there
      depends only on the variables it names. */
  ghost predicate Faithful<V(!new)>(effect: (Stmt, map<string, V>) -> map<string, V>)
  {
    && (forall a: Stmt, s: map<string, V>, x: string :: x != a.written || a.written == "" ==> SameAt(effect(a, s), s, x))
    && (forall a: Stmt, s: map<string, V>, t: map<string, V> :: SameInputs(a, s, t) ==>
          SameAt(effect(a, s), effect(a, t), a.written))
  }

  ghost predicate SameInputs<V>(a: Stmt, s: map<string, V>, t: map<string, V>)
  {
    forall x :: x in a.uses || x == a.written ==> SameAt(s, t, x)
  }

  ghost function Run<V>(effect: (Stmt, map<string, V>) -> map<string, V>, l: seq<Stmt>, s: map<string, V>): map<string, V>
  {
    if l == [] then s else Run(effect, l[1..], effect(l[0], s))
  }

  lemma {:induction false} MapsEqual<V>(s: map<string, V>, t: map<string, V>)
    requires forall x :: SameAt(s, t, x)
    ensures s == t
  {
    forall x
      ensures x in s <==> x in t
      ensures x in s ==> s[x] == t[x]
    {
      assert SameAt(s, t, x);
    }
  }

  /** After b and after a-then-b, b's variable holds the same when the two are independent. */
  lemma {:induction false} EffectAtOwn<V(!new)>(effect: (Stmt, map<string, V>) -> map<string, V>, a: Stmt, b: Stmt, s: map<string, V>)
    requires Faithful(effect) && !Depends(a, b) && b.written != ""
    ensures SameAt(effect(b, effect(a, s)), effect(b, s), b.written)
  {
    forall x | x in b.uses || x == b.written
      ensures SameAt(effect(a, s), s, x)
    {
      assert x != a.written || a.written == "";
    }
    assert SameInputs(b, effect(a, s), s);
  }

  lemma {:induction false} EffectsCommute<V(!new)>(effect: (Stmt, map<string, V>) -> map<string, V>, a: Stmt, b: Stmt, s: map<string, V>)
    requires Faithful(effect) && !Depends(a, b)
    ensures effect(b, effect(a, s)) == effect(a, effect(b, s))
  {
    var ab, ba := effect(b, effect(a, s)), effect(a, effect(b, s));
    forall x
      ensures SameAt(ab, ba, x)
    {
      if b.written != "" && x == b.written {
        EffectAtOwn(effect, a, b, s);
        assert SameAt(ba, effect(b, s), x);
      } else if a.written != "" && x == a.written {
        EffectAtOwn(effect, b, a, s);
        assert SameAt(ab, effect(a, s), x);
      } else {
        assert SameAt(ab, effect(a, s), x) && SameAt(effect(a, s), s, x);
        assert SameAt(ba, effect(b, s), x) && SameAt(effect(b, s), s, x);
      }
    }
    MapsEqual(ab, ba);
  }

  /** The order of two statements shows in some store. */
  ghost predicate OrderMatters<V(!new)>(effect: (Stmt, map<string, V>) -> map<string, V>, a: Stmt, b: Stmt, s: map<string, V>)
  {
    effect(b, effect(a, s)) != effect(a, effect(b, s))
  }

  /** A statement writes 1, and another one more than what it reads from that. */
  function Written(first: Stmt, reader: Stmt, a: Stmt, s: map<string, int>): int
  {
    if a == first then 1
    else if a == reader && first.written in reader.uses && first.written in s then s[first.written] + 2
    else 2
  }

  function Sample(first: Stmt, reader: Stmt): (Stmt, map<string, int>) -> map<string, int>
  {
    (a: Stmt, s: map<string, int>) => if a.written == "" then s else s[a.written := Written(first, reader, a, s)]
  }

  lemma {:induction false} SampleIsFaithful(first: Stmt, reader: Stmt)
    ensures Faithful(Sample(first, reader))
  {
    var effect := Sample(first, reader);
    forall a: Stmt, s: map<string, int>, t: map<string, int> | SameInputs(a, s, t)
      ensures SameAt(effect(a, s), effect(a, t), a.written)
    {
      if a == reader && first.written in reader.uses {
        assert SameAt(s, t, first.written);
      }
      assert SameAt(s, t, a.written);
    }
  }

  lemma {:induction false} SampleShows(first: Stmt, reader: Stmt)
    requires first != reader && first.written != "" && reader.written != "" && first.written !in first.uses && reader.written !in reader.uses
    requires first.written in reader.uses || first.written == reader.written
    ensures OrderMatters(Sample(first, reader), first, reader, map[])
  {
    var effect := Sample(first, reader);
    var ab, ba := effect(reader, effect(first, map[])), effect(first, effect(reader, map[]));
    assert effect(first, map[]) == map[first.written := 1];
    assert effect(reader, map[]) == map[reader.written := 2];
    assert ab[reader.written] != ba[reader.written];
  }

  /** Two statements depend on each other exactly when some effects that are faithful to what they read and write end in different
      stores for the two orders. */
  lemma {:induction false} DependsIff(a: Stmt, b: Stmt)
    requires a != b && Proper(a) && Proper(b) && a.written !in a.uses && b.written !in b.uses
    ensures Depends(a, b) <==> exists effect: (Stmt, map<string, int>) -> map<string, int>, s :: Faithful(effect) && OrderMatters(effect, a, b, s)
  {
    forall effect: (Stmt, map<string, int>) -> map<string, int>, s | Faithful(effect) && !Depends(a, b)
      ensures !OrderMatters(effect, a, b, s)
    {
      EffectsCommute(effect, a, b, s);
    }
    if a.written != "" && (a.written in b.uses || a.written == b.written) {
      SampleIsFaithful(a, b);
      SampleShows(a, b);
    } else if Depends(a, b) {
      SampleIsFaithful(b, a);
      SampleShows(b, a);
      assert OrderMatters(Sample(b, a), a, b, map[]);
    }
  }

  lemma {:induction false} SwapKeepsRun<V(!new)>(effect: (Stmt, map<string, V>) -> map<string, V>, l: seq<Stmt>, k: nat, s: map<string, V>)
    requires Faithful(effect) && CanSwap(l, k)
    ensures Run(effect, Swapped(l, k), s) == Run(effect, l, s)
    decreases k
  {
    var r := Swapped(l, k);
    if k == 0 {
      EffectsCommute(effect, l[0], l[1], s);
      assert r[1..][1..] == l[1..][1..];
    } else {
      assert r[1..] == Swapped(l[1..], k - 1);
      SwapKeepsRun(effect, l[1..], k - 1, effect(l[0], s));
    }
  }

  lemma {:induction false} LeadsKeepsRun<V(!new)>(effect: (Stmt, map<string, V>) -> map<string, V>,
                                                  c: Swaps, l: seq<Stmt>, r: seq<Stmt>, s: map<string, V>)
    requires Faithful(effect) && Leads(c, l, r)
    ensures Run(effect, r, s) == Run(effect, l, s)
    decreases c
  {
    if c.Then? {
      SwapKeepsRun(effect, l, c.k, s);
      LeadsKeepsRun(effect, c.rest, Swapped(l, c.k), r, s);
    }
  }

  /** Running the statements in canonical order ends in the same store, from every store. */
  lemma {:induction false} CanonKeepsMeaning<V(!new)>(effect: (Stmt, map<string, V>) -> map<string, V>, l: seq<Stmt>, s: map<string, V>)
    requires Faithful(effect)
    ensures Run(effect, Canon(l), s) == Run(effect, l, s)
  {
    CanonEquivalent(l);
    var c :| Leads(c, l, Canon(l));
    LeadsKeepsRun(effect, c, l, Canon(l), s);
  }
}
