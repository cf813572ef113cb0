/**
 Statements of which some are taken two at a time: when the canonical order of the parts spells the same lines
 as that of the statements.
 */
module StatementParts {
  import opened StatementOrder
  import opened StatementCanonicalizer

  // ---------- statements, some of them taken together ----------

  datatype Part = One(s: Stmt) | Two(a: Stmt, b: Stmt)

  function Units(p: Part): seq<Stmt>
  {
    match p
    case One(s) => [s]
    case Two(a, b) => [a, b]
  }

  function Head(p: Part): Stmt
  {
    Units(p)[0]
  }

  /** Two statements that write the same variable, or both none, as one. */
  function Whole(p: Part): Stmt
  {
    match p
    case One(s) => s
    case Two(a, b) => Stmt(a.lines + b.lines, a.written, a.uses + b.uses, a.key)
  }

  function Singles(ps: seq<Part>): seq<Stmt>
  {
    if ps == [] then [] else Units(ps[0]) + Singles(ps[1..])
  }

  function Wholes(ps: seq<Part>): (r: seq<Stmt>)
    ensures |r| == |ps| && forall i :: 0 <= i < |ps| ==> r[i] == Whole(ps[i])
  {
    seq(|ps|, i requires 0 <= i < |ps| => Whole(ps[i]))
  }

  /** Where the i-th part begins among the statements. */
  function Offset(ps: seq<Part>, i: nat): (o: nat)
    requires i <= |ps|
    ensures i <= o
  {
    if i == 0 then 0 else |Units(ps[0])| + Offset(ps[1..], i - 1)
  }

  ghost predicate PartFits(p: Part)
  {
    match p
    case One(s) => Proper(s)
    case Two(a, b) => Proper(a) && Proper(b) && a.written == b.written
  }

  ghost predicate PartsFit(ps: seq<Part>)
  {
    forall i :: 0 <= i < |ps| ==> PartFits(ps[i])
  }

  lemma {:induction false} SinglesJoin(a: seq<Part>, b: seq<Part>)
    ensures Singles(a + b) == Singles(a) + Singles(b)
  {
    if a == [] {
      assert a + b == b;
    } else {
      assert (a + b)[1..] == a[1..] + b;
      SinglesJoin(a[1..], b);
    }
  }

  lemma {:induction false} OffsetIs(ps: seq<Part>, i: nat)
    requires i <= |ps|
    ensures Offset(ps, i) == |Singles(ps[..i])|
  {
    if i > 0 {
      OffsetIs(ps[1..], i - 1);
      assert ps[..i][1..] == ps[1..][..i - 1];
    }
  }

  /** The statements before a part, of it, and after it. */
  lemma {:induction false} AroundPart(ps: seq<Part>, i: nat) returns (before: seq<Stmt>, after: seq<Stmt>)
    requires i < |ps|
    ensures Singles(ps) == before + Units(ps[i]) + after && |before| == Offset(ps, i)
    ensures Singles(Without(ps, i)) == before + after
  {
    before, after := Singles(ps[..i]), Singles(ps[i + 1..]);
    OffsetIs(ps, i);
    assert ps == ps[..i] + ([ps[i]] + ps[i + 1..]);
    SinglesJoin(ps[..i], [ps[i]] + ps[i + 1..]);
    assert ([ps[i]] + ps[i + 1..])[1..] == ps[i + 1..];
    SinglesJoin(ps[..i], ps[i + 1..]);
  }

  lemma {:induction false} UnitsAt(ps: seq<Part>, i: nat)
    requires i < |ps|
    ensures Offset(ps, i) + |Units(ps[i])| <= |Singles(ps)|
    ensures Singles(ps)[Offset(ps, i)] == Head(ps[i])
    ensures ps[i].Two? ==> Singles(ps)[Offset(ps, i) + 1] == ps[i].b
  {
    var before, after := AroundPart(ps, i);
  }

  lemma {:induction false} OffsetsAscend(ps: seq<Part>, i: nat, j: nat)
    requires i < j <= |ps|
    ensures Offset(ps, i) + |Units(ps[i])| <= Offset(ps, j)
  {
    if i > 0 {
      OffsetsAscend(ps[1..], i - 1, j - 1);
    }
  }

  /** The part that a statement belongs to, as its first or its second. */
  lemma {:induction false} PartOf(ps: seq<Part>, t: nat) returns (i: nat, second: bool)
    requires t < |Singles(ps)|
    ensures i < |ps| && (second ==> ps[i].Two?) && t == Offset(ps, i) + if second then 1 else 0
  {
    if t < |Units(ps[0])| {
      i, second := 0, t == 1;
    } else {
      i, second := PartOf(ps[1..], t - |Units(ps[0])|);
      i := i + 1;
    }
  }

  lemma {:induction false} OffsetWithout(ps: seq<Part>, i: nat, j: nat)
    requires i < |ps| && j < |ps| && i != j
    ensures Offset(Without(ps, i), if j < i then j else j - 1) == Offset(ps, j) - if i < j then |Units(ps[i])| else 0
    ensures Without(ps, i)[if j < i then j else j - 1] == ps[j]
  {
    WithoutRest(ps, i);
    if 0 < i && 0 < j {
      OffsetWithout(ps[1..], i - 1, j - 1);
    }
  }

  lemma {:induction false} WithoutRest<T>(s: seq<T>, i: nat)
    requires i < |s|
    ensures |Without(s, i)| == |s| - 1
    ensures if i == 0 then Without(s, i) == s[1..] else Without(s, i)[0] == s[0] && Without(s, i)[1..] == Without(s[1..], i - 1)
  {
  }

  // ---------- readiness ----------

  lemma {:induction false} WholeDepends(p: Part, q: Part)
    requires PartFits(p) && PartFits(q)
    ensures Depends(Whole(p), Whole(q)) <==> exists a, b :: a in Units(p) && b in Units(q) && Depends(a, b)
  {
    match p {
      case One(s) =>
        assert Whole(p) in Units(p);
      case Two(a, b) =>
        assert a in Units(p) && b in Units(p);
    }
    match q {
      case One(s) =>
        assert Whole(q) in Units(q);
      case Two(a, b) =>
        assert a in Units(q) && b in Units(q);
    }
  }

  /** A part is ready when none of its statements depends on what comes before the part. */
  ghost predicate FreeOf(l: seq<Stmt>, upto: nat, s: Stmt)
    requires upto <= |l|
  {
    forall t :: 0 <= t < upto ==> !Depends(l[t], s)
  }

  lemma {:induction false} WholeReady(ps: seq<Part>, j: nat)
    requires PartsFit(ps) && j < |ps|
    ensures Offset(ps, j) + |Units(ps[j])| <= |Singles(ps)|
    ensures Ready(Wholes(ps), j) <==> forall u :: u in Units(ps[j]) ==> FreeOf(Singles(ps), Offset(ps, j), u)
  {
    var l, m, o := Singles(ps), Wholes(ps), Offset(ps, j);
    UnitsAt(ps, j);
    if Ready(m, j) {
      forall u, t | u in Units(ps[j]) && 0 <= t < o
        ensures !Depends(l[t], u)
      {
        BeforeIsFree(ps, j, u, t);
      }
    }
    if forall u :: u in Units(ps[j]) ==> FreeOf(l, o, u) {
      forall i | 0 <= i < j
        ensures !Depends(m[i], m[j])
      {
        FreeIsReady(ps, i, j);
      }
    }
  }

  lemma {:induction false} BeforeIsFree(ps: seq<Part>, j: nat, u: Stmt, t: nat)
    requires PartsFit(ps) && j < |ps| && Ready(Wholes(ps), j) && u in Units(ps[j]) && t < Offset(ps, j) <= |Singles(ps)|
    ensures !Depends(Singles(ps)[t], u)
  {
    var i, second := PartOf(ps, t);
    UnitsAt(ps, i);
    if i > j {
      OffsetsAscend(ps, j, i);
    }
    WholeDepends(ps[i], ps[j]);
    assert Singles(ps)[t] in Units(ps[i]);
    assert !Depends(Wholes(ps)[i], Wholes(ps)[j]);
  }

  lemma {:induction false} FreeIsReady(ps: seq<Part>, i: nat, j: nat)
    requires PartsFit(ps) && i < j < |ps| && Offset(ps, j) <= |Singles(ps)|
    requires forall u :: u in Units(ps[j]) ==> FreeOf(Singles(ps), Offset(ps, j), u)
    ensures !Depends(Whole(ps[i]), Whole(ps[j]))
  {
    var o := Offset(ps, i);
    UnitsAt(ps, i);
    OffsetsAscend(ps, i, j);
    WholeDepends(ps[i], ps[j]);
    forall a, b | a in Units(ps[i]) && b in Units(ps[j])
      ensures !Depends(a, b)
    {
      assert a == Singles(ps)[o] || (ps[i].Two? && a == Singles(ps)[o + 1]);
      assert FreeOf(Singles(ps), Offset(ps, j), b);
    }
  }

  lemma {:induction false} WholeReadyHead(ps: seq<Part>, j: nat)
    requires PartsFit(ps) && j < |ps| && Ready(Wholes(ps), j)
    ensures Offset(ps, j) < |Singles(ps)| && Ready(Singles(ps), Offset(ps, j))
  {
    WholeReady(ps, j);
    UnitsAt(ps, j);
    assert Head(ps[j]) in Units(ps[j]);
  }

  lemma {:induction false} KeyOfHead(p: Part)
    requires PartFits(p)
    ensures Whole(p).key == Head(p).key && Proper(Whole(p)) && Whole(p).written == Head(p).written
  {
  }

  /** When the pick begins a part that is ready as a whole, the part is the pick. */
  lemma {:induction false} WholePicked(ps: seq<Part>, i: nat)
    requires PartsFit(ps) && i < |ps| && Singles(ps) != [] && Pick(Singles(ps)) == Offset(ps, i) && Ready(Wholes(ps), i)
    ensures Pick(Wholes(ps)) == i
  {
    var l, m := Singles(ps), Wholes(ps);
    forall j | 0 <= j < |m| && j != i && Ready(m, j)
      ensures Before(m, i, j)
    {
      WholeReadyHead(ps, j);
      UnitsAt(ps, i);
      UnitsAt(ps, j);
      KeyOfHead(ps[i]);
      KeyOfHead(ps[j]);
      if i < j {
        OffsetsAscend(ps, i, j);
      } else {
        OffsetsAscend(ps, j, i);
      }
      assert Before(l, Offset(ps, i), Offset(ps, j));
    }
    PickUnique(m, i, Pick(m));
  }

  /** The pick never is the second statement of a part. */
  lemma {:induction false} PickIsHead(ps: seq<Part>) returns (i: nat)
    requires PartsFit(ps) && Singles(ps) != []
    ensures i < |ps| && Pick(Singles(ps)) == Offset(ps, i)
  {
    var l, second := Singles(ps), false;
    i, second := PartOf(ps, Pick(l));
    UnitsAt(ps, i);
    if ps[i].Two? {
      SinglesProper(ps);
      NotSecond(l, Offset(ps, i));
    }
  }

  /** Of two neighbours that write the same variable, or both none, the first is picked before the second. */
  lemma {:induction false} NotSecond(l: seq<Stmt>, o: nat)
    requires AllProper(l) && o + 1 < |l| && l[o].written == l[o + 1].written
    ensures Pick(l) != o + 1
  {
    assert Proper(l[o]) && Proper(l[o + 1]);
    if l[o].written == "" {
      ReadyUnwritten(l, o);
      assert !Before(l, o + 1, o) by {
        LessTotal(l[o].key, l[o + 1].key);
      }
    } else {
      assert Depends(l[o], l[o + 1]);
    }
  }

  // ---------- two statements picked one right after the other ----------

  /** Taking the picked member of a list again and again takes member i, and member i + 1 right after it. */
  ghost predicate Consecutive<T>(pick: seq<T> -> nat, l: seq<T>, i: nat)
    decreases |l|
  {
    i + 1 < |l| && pick(l) < |l|
    && if pick(l) == i then pick(Without(l, i)) == i
       else pick(l) != i + 1 && Consecutive(pick, Without(l, pick(l)), if pick(l) < i then i - 1 else i)
  }

  ghost function Picked(l: seq<Stmt>): nat
  {
    if l == [] then 0 else Pick(l)
  }

  ghost function Picker(): seq<Stmt> -> nat
  {
    l => Picked(l)
  }

  /** The canonical order takes statement i, and statement i + 1 right after it. */
  ghost predicate Together(l: seq<Stmt>, i: nat)
  {
    Consecutive(Picker(), l, i)
  }

  lemma {:induction false} ConsecutiveNow<T>(pick: seq<T> -> nat, l: seq<T>, i: nat)
    requires i + 1 < |l| && pick(l) == i
    ensures Consecutive(pick, l, i) <==> pick(Without(l, i)) == i
  {
  }

  lemma {:induction false} ConsecutiveNext<T>(pick: seq<T> -> nat, l: seq<T>, o: nat, p: nat)
    requires o < |l| && p + 1 < |l| && pick(l) == o && (p + 1 < o || o < p)
    ensures Consecutive(pick, l, p) <==> Consecutive(pick, Without(l, o), if p < o then p else p - 1)
  {
  }

  lemma {:induction false} ConsecutiveLeft<T>(pick: seq<T> -> nat, l: seq<T>, o: nat, two: bool, p: nat, left: seq<T>, q: nat)
    requires o + (if two then 1 else 0) < |l| && pick(l) == o && (two ==> pick(Without(l, o)) == o)
    requires p + 1 < |l| && (p + 1 < o || o + (if two then 1 else 0) < p)
    requires left == (if two then Without(Without(l, o), o) else Without(l, o)) && q == (if p < o then p else if two then p - 2 else p - 1)
    ensures Consecutive(pick, l, p) <==> Consecutive(pick, left, q)
  {
    ConsecutiveNext(pick, l, o, p);
    if two {
      ConsecutiveNext(pick, Without(l, o), o, if p < o then p else p - 1);
    }
  }

  /** If the part has two statements, the one is taken right after the other. */
  ghost predicate Kept(ps: seq<Part>, i: nat)
    requires i < |ps|
  {
    ps[i].Two? ==> Together(Singles(ps), Offset(ps, i))
  }

  ghost predicate AllTogether(ps: seq<Part>)
  {
    forall i {:trigger Kept(ps, i)} :: 0 <= i < |ps| ==> Kept(ps, i)
  }

  lemma {:induction false} WithoutMiddle<T>(a: seq<T>, x: T, b: seq<T>)
    ensures Without(a + [x] + b, |a|) == a + b
  {
  }

  lemma {:induction false} WithoutTwo<T>(a: seq<T>, x: T, y: T, b: seq<T>)
    ensures Without(a + [x, y] + b, |a|)[|a|] == y
    ensures Without(Without(a + [x, y] + b, |a|), |a|) == a + b
  {
    assert a + [x, y] + b == a + [x] + ([y] + b);
    WithoutMiddle(a, x, [y] + b);
    assert a + ([y] + b) == a + [y] + b;
    WithoutMiddle(a, y, b);
  }

  /** What is left of a list when the picked statement is taken, and the next one with it. */
  function Left(l: seq<Stmt>, o: nat, two: bool): seq<Stmt>
    requires o + (if two then 1 else 0) < |l|
  {
    if two then Without(Without(l, o), o) else Without(l, o)
  }

  lemma {:induction false} LeftIs(ps: seq<Part>, i: nat)
    requires i < |ps|
    ensures Offset(ps, i) + |Units(ps[i])| <= |Singles(ps)| && Singles(Without(ps, i)) == Left(Singles(ps), Offset(ps, i), ps[i].Two?)
    ensures ps[i].Two? ==> Without(Singles(ps), Offset(ps, i))[Offset(ps, i)] == ps[i].b
    ensures Wholes(Without(ps, i)) == Without(Wholes(ps), i)
  {
    var before, after := AroundPart(ps, i);
    if ps[i].One? {
      WithoutMiddle(before, ps[i].s, after);
    } else {
      WithoutTwo(before, ps[i].a, ps[i].b, after);
    }
  }

  lemma {:induction false} PartsFitWithout(ps: seq<Part>, i: nat)
    requires i < |ps| && PartsFit(ps)
    ensures PartsFit(Without(ps, i))
  {
  }

  lemma {:induction false} KeptPick(ps: seq<Part>, i: nat)
    requires i < |ps| && ps[i].Two? && Singles(ps) != [] && Pick(Singles(ps)) == Offset(ps, i) && Kept(ps, i)
    ensures Offset(ps, i) + 1 < |Singles(ps)| && Pick(Without(Singles(ps), Offset(ps, i))) == Offset(ps, i)
  {
    UnitsAt(ps, i);
    ConsecutiveNow(Picker(), Singles(ps), Offset(ps, i));
  }

  lemma {:induction false} KeptLater(ps: seq<Part>, i: nat, j: nat)
    requires i < |ps| && j < |ps| && i != j && Singles(ps) != [] && Pick(Singles(ps)) == Offset(ps, i) && Kept(ps, i)
    ensures Kept(ps, j) <==> Kept(Without(ps, i), if j < i then j else j - 1)
  {
    OffsetWithout(ps, i, j);
    if ps[j].Two? {
      TogetherLater(ps, i, j);
    }
  }

  lemma {:induction false} TogetherLater(ps: seq<Part>, i: nat, j: nat)
    requires i < |ps| && j < |ps| && i != j && ps[j].Two? && Singles(ps) != [] && Pick(Singles(ps)) == Offset(ps, i) && Kept(ps, i)
    ensures Together(Singles(ps), Offset(ps, j)) <==>
            Together(Singles(Without(ps, i)), Offset(Without(ps, i), if j < i then j else j - 1))
  {
    var l, o, p, two := Singles(ps), Offset(ps, i), Offset(ps, j), ps[i].Two?;
    var left, q := Singles(Without(ps, i)), Offset(Without(ps, i), if j < i then j else j - 1);
    LeftIs(ps, i);
    OffsetWithout(ps, i, j);
    Apart(ps, i, j);
    if two {
      KeptPick(ps, i);
    }
    LeftTogether(l, o, two, p, left, q);
  }

  lemma {:induction false} LeftTogether(l: seq<Stmt>, o: nat, two: bool, p: nat, left: seq<Stmt>, q: nat)
    requires o + (if two then 1 else 0) < |l| && Pick(l) == o && (two ==> Pick(Without(l, o)) == o)
    requires p + 1 < |l| && (p + 1 < o || o + (if two then 1 else 0) < p)
    requires left == Left(l, o, two) && q == (if p < o then p else if two then p - 2 else p - 1)
    ensures Together(l, p) <==> Together(left, q)
  {
    ConsecutiveLeft(Picker(), l, o, two, p, left, q);
  }

  lemma {:induction false} Apart(ps: seq<Part>, i: nat, j: nat)
    requires i < |ps| && j < |ps| && i != j && ps[j].Two?
    ensures Offset(ps, j) + 1 < |Singles(ps)|
    ensures if i < j then Offset(ps, i) + |Units(ps[i])| <= Offset(ps, j) else Offset(ps, j) + 1 < Offset(ps, i)
  {
    UnitsAt(ps, j);
    if i < j {
      OffsetsAscend(ps, i, j);
    } else {
      OffsetsAscend(ps, j, i);
    }
  }

  /** Taking the picked part leaves the others as they are. */
  lemma {:induction false} AllTogetherLater(ps: seq<Part>, i: nat)
    requires i < |ps| && Singles(ps) != [] && Pick(Singles(ps)) == Offset(ps, i) && Kept(ps, i)
    ensures AllTogether(ps) <==> AllTogether(Without(ps, i))
  {
    if AllTogether(Without(ps, i)) {
      TogetherBefore(ps, i);
    }
    if AllTogether(ps) {
      TogetherAfter(ps, i);
    }
  }

  lemma {:induction false} TogetherBefore(ps: seq<Part>, i: nat)
    requires i < |ps| && Singles(ps) != [] && Pick(Singles(ps)) == Offset(ps, i) && Kept(ps, i) && AllTogether(Without(ps, i))
    ensures AllTogether(ps)
  {
    forall j | 0 <= j < |ps|
      ensures Kept(ps, j)
    {
      if j != i {
        KeptLater(ps, i, j);
        assert Kept(Without(ps, i), if j < i then j else j - 1);
      }
    }
  }

  lemma {:induction false} TogetherAfter(ps: seq<Part>, i: nat)
    requires i < |ps| && Singles(ps) != [] && Pick(Singles(ps)) == Offset(ps, i) && Kept(ps, i) && AllTogether(ps)
    ensures AllTogether(Without(ps, i))
  {
    forall k | 0 <= k < |Without(ps, i)|
      ensures Kept(Without(ps, i), k)
    {
      var j := if k < i then k else k + 1;
      KeptLater(ps, i, j);
      assert Kept(ps, j);
    }
  }

  // ---------- lines ----------

  /** The lines begin a subtree at this depth. */
  predicate Begins(lines: seq<Line>, d: nat)
  {
    lines == [] || lines[0].depth == d
  }

  predicate LinesFit(s: Stmt, d: nat)
  {
    s.lines != [] && s.lines[0].depth == d && s.written == WriteOf(s.lines)
  }

  /** The lines of one subtree. */
  predicate OneSubtree(lines: seq<Line>, d: nat)
  {
    lines != [] && lines[0].depth == d && forall k :: 0 < k < |lines| ==> lines[k].depth > d
  }

  ghost predicate PartLines(p: Part, d: nat)
  {
    match p
    case One(s) => LinesFit(s, d)
    case Two(a, b) => LinesFit(a, d) && LinesFit(b, d) && OneSubtree(a.lines, d) && OneSubtree(b.lines, d)
  }

  ghost predicate PartsLines(ps: seq<Part>, d: nat)
  {
    forall i :: 0 <= i < |ps| ==> PartLines(ps[i], d)
  }

  ghost predicate AllLines(l: seq<Stmt>, d: nat)
  {
    forall i :: 0 <= i < |l| ==> LinesFit(l[i], d)
  }

  lemma {:induction false} FlattenBegins(l: seq<Stmt>, d: nat)
    requires AllLines(l, d)
    ensures Begins(Flatten(l), d)
  {
  }

  lemma {:induction false} SinglesLines(ps: seq<Part>, d: nat)
    requires PartsLines(ps, d)
    ensures AllLines(Singles(ps), d)
  {
    forall t | 0 <= t < |Singles(ps)|
      ensures LinesFit(Singles(ps)[t], d)
    {
      var i, second := PartOf(ps, t);
      UnitsAt(ps, i);
    }
  }

  lemma {:induction false} WholesLines(ps: seq<Part>, d: nat)
    requires PartsLines(ps, d) && PartsFit(ps)
    ensures AllLines(Wholes(ps), d)
  {
    forall i | 0 <= i < |ps|
      ensures LinesFit(Whole(ps[i]), d)
    {
      if ps[i].Two? {
        WriteOfConcat(ps[i].a.lines, ps[i].b.lines);
      }
    }
  }

  lemma {:induction false} CanonLines(l: seq<Stmt>, d: nat)
    requires AllLines(l, d)
    ensures AllLines(Canon(l), d)
    decreases |l|
  {
    if l != [] {
      CanonLines(Without(l, Pick(l)), d);
    }
  }

  lemma {:induction false} CutPoint(x: seq<Line>, more: seq<Line>, d: nat)
    requires Begins(more, d)
    ensures |x| == |x + more| || (x + more)[|x|].depth == d
  {
  }

  /** Lines that go on as one subtree did belong to a statement that writes what the subtree writes. */
  lemma {:induction false} SameStart(a: seq<Line>, rest: seq<Line>, x: seq<Line>, more: seq<Line>, d: nat)
    requires OneSubtree(a, d) && Begins(rest, d) && Begins(more, d) && x != [] && x[0].depth == d && a + rest == x + more
    requires WriteOf(a) != ""
    ensures WriteOf(x) == WriteOf(a)
  {
    var all := a + rest;
    assert forall k :: 0 < k < |a| ==> all[k].depth > d;
    CutPoint(x, more, d);
    assert x[..|a|] == all[..|a|] == a;
    assert x == a + x[|a|..];
    WriteOfConcat(a, x[|a|..]);
  }

  // ---------- when taking statements together shows ----------

  lemma {:induction false} FlattenStep(l: seq<Stmt>) returns (rest: seq<Line>)
    requires l != []
    ensures rest == Flatten(Canon(Without(l, Pick(l)))) && Flatten(Canon(l)) == l[Pick(l)].lines + rest
  {
    rest := Flatten(Canon(Without(l, Pick(l))));
    FlattenCons(l[Pick(l)], Canon(Without(l, Pick(l))));
  }

  lemma {:induction false} RestBegins(l: seq<Stmt>, i: nat, d: nat)
    requires i < |l| && AllLines(l, d)
    ensures Begins(Flatten(Canon(Without(l, i))), d) && AllLines(Without(l, i), d)
  {
    CanonLines(Without(l, i), d);
    FlattenBegins(Canon(Without(l, i)), d);
  }

  /** Two statements that write nothing are always taken one right after the other. */
  lemma {:induction false} SilentKept(ps: seq<Part>, i: nat)
    requires PartsFit(ps) && i < |ps| && Singles(ps) != [] && Pick(Singles(ps)) == Offset(ps, i)
    requires ps[i].Two? && ps[i].a.written == ""
    ensures Kept(ps, i)
  {
    var l, o := Singles(ps), Offset(ps, i);
    UnitsAt(ps, i);
    LeftIs(ps, i);
    SinglesProper(ps);
    WithoutProper(l, o);
    FirstIsSilent(l, o);
    PickUnwritten(Without(l, o), o);
    ConsecutiveNow(Picker(), l, o);
  }

  lemma {:induction false} FirstIsSilent(l: seq<Stmt>, o: nat)
    requires AllProper(l) && l != [] && Pick(l) == o && l[o].written == ""
    ensures forall j :: 0 <= j < o ==> l[j].written != ""
  {
    forall j | 0 <= j < o
      ensures l[j].written != ""
    {
      assert Proper(l[o]) && Proper(l[j]);
      if l[j].written == "" {
        ReadyUnwritten(l, j);
        LessTotal(l[o].key, l[j].key);
      }
    }
  }

  /** The second statement of the picked part does not follow: the lines differ. */
  lemma {:induction false} ApartShows(ps: seq<Part>, i: nat, d: nat)
    requires PartsFit(ps) && PartsLines(ps, d) && i < |ps| && ps[i].Two? && Singles(ps) != [] && Pick(Singles(ps)) == Offset(ps, i)
    requires !Kept(ps, i)
    ensures Flatten(Canon(Wholes(ps))) != Flatten(Canon(Singles(ps)))
  {
    if ps[i].a.written == "" {
      SilentKept(ps, i);
    }
    SinglesLines(ps, d);
    WholesLines(ps, d);
    if Ready(Wholes(ps), i) {
      WholePicked(ps, i);
      LaterDiffers(ps, i, d);
    } else {
      OtherDiffers(ps, i, d);
    }
  }

  /** Another part is picked instead. */
  lemma {:induction false} OtherDiffers(ps: seq<Part>, i: nat, d: nat)
    requires PartsFit(ps) && PartsLines(ps, d) && i < |ps| && ps[i].Two? && Singles(ps) != [] && Pick(Singles(ps)) == Offset(ps, i)
    requires AllLines(Singles(ps), d) && AllLines(Wholes(ps), d) && !Ready(Wholes(ps), i) && ps[i].a.written != ""
    ensures Flatten(Canon(Wholes(ps))) != Flatten(Canon(Singles(ps)))
  {
    var l, m, o := Singles(ps), Wholes(ps), Offset(ps, i);
    var j := Pick(m);
    var rest := FlattenStep(l);
    var more := FlattenStep(m);
    RestBegins(l, o, d);
    RestBegins(m, j, d);
    UnitsAt(ps, i);
    OtherWrites(ps, i, j);
    if Flatten(Canon(m)) == Flatten(Canon(l)) {
      SameStart(ps[i].a.lines, rest, m[j].lines, more, d);
    }
  }

  /** Two parts that are both ready do not write the same variable. */
  lemma {:induction false} OtherWrites(ps: seq<Part>, i: nat, j: nat)
    requires PartsFit(ps) && i < |ps| && j < |ps| && i != j && ps[i].Two? && ps[i].a.written != ""
    requires Offset(ps, i) < |Singles(ps)| && Ready(Singles(ps), Offset(ps, i)) && Ready(Wholes(ps), j)
    ensures Whole(ps[j]).written != ps[i].a.written
  {
    UnitsAt(ps, i);
    UnitsAt(ps, j);
    WholeReadyHead(ps, j);
    KeyOfHead(ps[j]);
    SinglesProper(ps);
    OffsetsDiffer(ps, i, j);
    if Whole(ps[j]).written == ps[i].a.written {
      ReadyKeysDiffer(Singles(ps), Offset(ps, i), Offset(ps, j));
    }
  }

  lemma {:induction false} OffsetsDiffer(ps: seq<Part>, i: nat, j: nat)
    requires i < |ps| && j < |ps| && i != j
    ensures Offset(ps, i) != Offset(ps, j)
  {
    if i < j {
      OffsetsAscend(ps, i, j);
    } else {
      OffsetsAscend(ps, j, i);
    }
  }

  lemma {:induction false} SinglesProper(ps: seq<Part>)
    requires PartsFit(ps)
    ensures AllProper(Singles(ps))
  {
    forall t | 0 <= t < |Singles(ps)|
      ensures Proper(Singles(ps)[t])
    {
      var i, second := PartOf(ps, t);
      UnitsAt(ps, i);
    }
  }

  /** The part is picked as a whole, but its statements are not taken one right after the other. */
  lemma {:induction false} LaterDiffers(ps: seq<Part>, i: nat, d: nat)
    requires PartsFit(ps) && PartsLines(ps, d) && i < |ps| && ps[i].Two? && Singles(ps) != [] && Pick(Singles(ps)) == Offset(ps, i)
    requires AllLines(Singles(ps), d) && AllLines(Wholes(ps), d) && Pick(Wholes(ps)) == i && !Kept(ps, i) && ps[i].a.written != ""
    ensures Flatten(Canon(Wholes(ps))) != Flatten(Canon(Singles(ps)))
  {
    var l, m, o := Singles(ps), Wholes(ps), Offset(ps, i);
    var a, b := ps[i].a, ps[i].b;
    UnitsAt(ps, i);
    LeftIs(ps, i);
    var l1 := Without(l, o);
    var y := Pick(l1);
    var tail := FlattenStep(l);
    var rest := FlattenStep(m);
    var more := FlattenStep(l1);
    RestBegins(l, o, d);
    RestBegins(m, i, d);
    RestBegins(l1, y, d);
    ConsecutiveNow(Picker(), l, o);
    NotBetween(l, o, y);
    if Flatten(Canon(m)) == Flatten(Canon(l)) {
      SamePrefix(a.lines, b.lines, rest, l1[y].lines + more);
      SameStart(b.lines, rest, l1[y].lines, more, d);
    }
  }

  lemma {:induction false} SamePrefix(a: seq<Line>, b: seq<Line>, rest: seq<Line>, other: seq<Line>)
    requires (a + b) + rest == a + other
    ensures b + rest == other
  {
    assert ((a + b) + rest)[|a|..] == b + rest;
    assert (a + other)[|a|..] == other;
  }

  /** After a statement that writes a variable, no other than the next one that writes it can be ready. */
  lemma {:induction false} NotBetween(l: seq<Stmt>, o: nat, y: nat)
    requires o + 1 < |l| && Ready(l, o) && y < |l| - 1 && Ready(Without(l, o), y) && y != o
    requires l[o].written != "" && l[o + 1].written == l[o].written
    ensures Without(l, o)[y].written != l[o].written
  {
    if y < o {
      assert !Depends(l[y], l[o]);
    } else {
      assert Without(l, o)[o] == l[o + 1];
      assert !Depends(Without(l, o)[o], Without(l, o)[y]);
    }
  }

  /** Statements taken together leave no trace exactly when the canonical order takes them one right after the other. */
  lemma {:induction false} TogetherIff(ps: seq<Part>, d: nat)
    requires PartsFit(ps) && PartsLines(ps, d)
    ensures Flatten(Canon(Wholes(ps))) == Flatten(Canon(Singles(ps))) <==> AllTogether(ps)
    decreases |ps|
  {
    NoParts(ps);
    if ps != [] {
      var i := PickIsHead(ps);
      var rest := Without(ps, i);
      if !Kept(ps, i) {
        ApartShows(ps, i, d);
      } else {
        TakenTogether(ps, i);
        PartsFitWithout(ps, i);
        TogetherIff(rest, d);
        AllTogetherLater(ps, i);
        SameAfter(Whole(ps[i]).lines, Flatten(Canon(Wholes(rest))), Flatten(Canon(Singles(rest))));
      }
    }
  }

  lemma {:induction false} NoParts(ps: seq<Part>)
    ensures Singles(ps) == [] <==> ps == []
  {
    if ps != [] {
      UnitsAt(ps, 0);
    }
  }

  lemma {:induction false} SameAfter(a: seq<Line>, b: seq<Line>, c: seq<Line>)
    ensures a + b == a + c <==> b == c
  {
    assert (a + b)[|a|..] == b && (a + c)[|a|..] == c;
  }

  lemma {:induction false} TakenTogether(ps: seq<Part>, i: nat)
    requires PartsFit(ps) && i < |ps| && Singles(ps) != [] && Pick(Singles(ps)) == Offset(ps, i) && Kept(ps, i)
    ensures Flatten(Canon(Wholes(ps))) == Whole(ps[i]).lines + Flatten(Canon(Wholes(Without(ps, i))))
    ensures Flatten(Canon(Singles(ps))) == Whole(ps[i]).lines + Flatten(Canon(Singles(Without(ps, i))))
  {
    LeftIs(ps, i);
    KeptReady(ps, i);
    WholePicked(ps, i);
    var all := FlattenStep(Wholes(ps));
    SinglesTaken(ps, i);
  }

  lemma {:induction false} SinglesTaken(ps: seq<Part>, i: nat)
    requires i < |ps| && Singles(ps) != [] && Pick(Singles(ps)) == Offset(ps, i) && Kept(ps, i)
    ensures Flatten(Canon(Singles(ps))) == Whole(ps[i]).lines + Flatten(Canon(Singles(Without(ps, i))))
  {
    UnitsAt(ps, i);
    LeftIs(ps, i);
    if ps[i].Two? {
      KeptPick(ps, i);
      FlattenTwo(Singles(ps), Offset(ps, i));
    } else {
      var rest := FlattenStep(Singles(ps));
    }
  }

  lemma {:induction false} FlattenTwo(l: seq<Stmt>, o: nat)
    requires o + 1 < |l| && Pick(l) == o && Pick(Without(l, o)) == o
    ensures Flatten(Canon(l)) == l[o].lines + l[o + 1].lines + Flatten(Canon(Left(l, o, true)))
  {
    var rest := FlattenStep(l);
    var more := FlattenStep(Without(l, o));
    assert l[o].lines + (l[o + 1].lines + more) == l[o].lines + l[o + 1].lines + more;
  }

  /** A part whose statements are taken one right after the other is ready as a whole. */
  lemma {:induction false} KeptReady(ps: seq<Part>, i: nat)
    requires PartsFit(ps) && i < |ps| && Singles(ps) != [] && Pick(Singles(ps)) == Offset(ps, i) && Kept(ps, i)
    ensures Ready(Wholes(ps), i)
  {
    var l, o := Singles(ps), Offset(ps, i);
    UnitsAt(ps, i);
    if ps[i].Two? {
      LeftIs(ps, i);
      KeptPick(ps, i);
      var l1 := Without(l, o);
      forall t | 0 <= t < o
        ensures !Depends(l[t], ps[i].b)
      {
        assert l1[t] == l[t];
      }
    }
    WholeReady(ps, i);
  }
}
