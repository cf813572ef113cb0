/**
 What an exchange of two independent statements in a dump does to the rewritten dump: the pass groups the
 lines anew, and may take two neighbours for one statement that were two before.
 */
module StatementExchange {
  import opened StatementOrder
  import opened StatementCanonicalizer
  import opened StatementParts

  // ---------- grouping anew ----------

  /** One subtree as a statement. */
  function OfSubtree(b: seq<Line>): Stmt
    requires b != []
  {
    StmtOf(b, FirstRef(b[1..]))
  }

  /** Two neighbouring subtrees that the pass takes for one statement. */
  predicate Matching(b: seq<Line>, c: seq<Line>)
  {
    b != [] && c != [] && b[0].typ == "attr_set" && c[0].typ == "assign" && FirstRef(b[1..]) == FirstRef(c[1..])
  }

  /** The statements of a list of subtrees. */
  function Grouped(bs: seq<seq<Line>>): seq<Stmt>
    requires forall i :: 0 <= i < |bs| ==> bs[i] != []
  {
    if bs == [] then []
    else if |bs| > 1 && Matching(bs[0], bs[1]) then [StmtOf(bs[0] + bs[1], FirstRef(bs[0][1..]))] + Grouped(bs[2..])
    else [OfSubtree(bs[0])] + Grouped(bs[1..])
  }

  /** The subtrees of a scope from the j-th on. */
  function Subtrees(s: seq<Line>, starts: seq<nat>, hi: nat, j: nat): (r: seq<seq<Line>>)
    requires Boundaries(s, starts, hi)
    ensures |r| == if j < |starts| then |starts| - j else 0
    ensures forall i :: 0 <= i < |r| ==> r[i] != [] && r[i] == Block(s, starts, hi, j + i)
    decreases |starts| - j
  {
    if j >= |starts| then [] else [Block(s, starts, hi, j)] + Subtrees(s, starts, hi, j + 1)
  }

  lemma {:induction false} GroupsAreGrouped(s: seq<Line>, starts: seq<nat>, hi: nat, j: nat)
    requires Boundaries(s, starts, hi)
    ensures GroupsFrom(s, starts, hi, j) == Grouped(Subtrees(s, starts, hi, j))
    decreases |starts| - j
  {
    if j < |starts| {
      var bs := Subtrees(s, starts, hi, j);
      assert bs[1..] == Subtrees(s, starts, hi, j + 1);
      GroupsAreGrouped(s, starts, hi, j + 1);
      if j + 1 < |starts| {
        assert bs[2..] == Subtrees(s, starts, hi, j + 2);
        GroupsAreGrouped(s, starts, hi, j + 2);
        assert Matching(bs[0], bs[1]) <==> Paired(s, starts, hi, j);
      }
    }
  }

  function Spelled(bs: seq<seq<Line>>): seq<Line>
  {
    if bs == [] then [] else bs[0] + Spelled(bs[1..])
  }

  ghost predicate AllSubtrees(bs: seq<seq<Line>>, d: nat)
  {
    forall i :: 0 <= i < |bs| ==> OneSubtree(bs[i], d)
  }

  /** The starts of a scope: all positions at this depth, ascending. */
  ghost predicate AllStarts(s: seq<Line>, starts: seq<nat>, lo: nat, hi: nat, d: nat)
  {
    Boundaries(s, starts, hi) && (forall j :: 0 <= j < |starts| ==> lo <= starts[j] && s[starts[j]].depth == d)
    && forall k :: lo <= k < hi && s[k].depth == d ==> k in starts
  }

  lemma {:induction false} EndsAt(s: seq<Line>, starts: seq<nat>, lo: nat, hi: nat, d: nat, j: nat, e: nat)
    requires AllStarts(s, starts, lo, hi, d) && j < |starts| && starts[j] < e <= hi
    requires forall k :: starts[j] < k < e ==> s[k].depth != d
    requires e < hi ==> s[e].depth == d
    ensures BlockEnd(starts, hi, j) == e && (e < hi ==> j + 1 < |starts| && starts[j + 1] == e)
  {
    if e < hi {
      var m :| 0 <= m < |starts| && starts[m] == e;
      assert j < m;
      assert starts[j + 1] <= e;
    }
  }

  /** Lines that are spelled by subtrees are cut into just these. */
  lemma {:induction false} SubtreesUnique(s: seq<Line>, starts: seq<nat>, lo: nat, hi: nat, d: nat, j: nat, bs: seq<seq<Line>>)
    requires AllStarts(s, starts, lo, hi, d) && AllSubtrees(bs, d) && bs != [] && j < |starts| && s[starts[j]..hi] == Spelled(bs)
    ensures Subtrees(s, starts, hi, j) == bs
    decreases |bs|
  {
    var b, rest := bs[0], bs[1..];
    var e := starts[j] + |b|;
    SpelledStarts(rest, d);
    assert b == Spelled(bs)[..|b|] && Spelled(rest) == Spelled(bs)[|b|..];
    assert s[starts[j]..e] == b && s[e..hi] == Spelled(rest);
    assert forall k :: 0 < k < |b| ==> b[k] == s[starts[j] + k];
    EndsAt(s, starts, lo, hi, d, j, e);
    if rest != [] {
      SubtreesUnique(s, starts, lo, hi, d, j + 1, rest);
    }
    assert bs == [b] + rest;
  }

  lemma {:induction false} SpelledStarts(bs: seq<seq<Line>>, d: nat)
    requires AllSubtrees(bs, d)
    ensures Spelled(bs) == [] <==> bs == []
    ensures Spelled(bs) != [] ==> Spelled(bs)[0].depth == d
    ensures forall k :: 0 <= k < |Spelled(bs)| ==> Spelled(bs)[k].depth >= d
  {
    if bs != [] {
      SpelledStarts(bs[1..], d);
    }
  }

  // ---------- statements as subtrees ----------

  /** A statement of the pass: one subtree, or two that match. */
  predicate GroupFits(g: Stmt, d: nat)
  {
    g.lines != [] && g.lines[0].depth == d
    && var n := ScopeEnd(g.lines, 1, d);
       var b, c := g.lines[..n], g.lines[n..];
       g == StmtOf(g.lines, FirstRef(b[1..])) && (c != [] ==> OneSubtree(c, d) && Matching(b, c))
  }

  predicate AllGroups(l: seq<Stmt>, d: nat)
  {
    forall i :: 0 <= i < |l| ==> GroupFits(l[i], d)
  }

  /** The one or two subtrees of a statement. */
  function SubtreesOf(g: Stmt, d: nat): (r: seq<seq<Line>>)
    requires g.lines != []
    ensures forall i :: 0 <= i < |r| ==> r[i] != []
  {
    var n := ScopeEnd(g.lines, 1, d);
    if n == |g.lines| then [g.lines] else [g.lines[..n], g.lines[n..]]
  }

  function AllSubtreesOf(l: seq<Stmt>, d: nat): (r: seq<seq<Line>>)
    requires forall i :: 0 <= i < |l| ==> l[i].lines != []
    ensures forall i :: 0 <= i < |r| ==> r[i] != []
  {
    if l == [] then [] else SubtreesOf(l[0], d) + AllSubtreesOf(l[1..], d)
  }

  lemma {:induction false} OfGroup(g: Stmt, d: nat)
    requires GroupFits(g, d)
    ensures AllSubtrees(SubtreesOf(g, d), d) && Spelled(SubtreesOf(g, d)) == g.lines
  {
    var n := ScopeEnd(g.lines, 1, d);
    var bs := SubtreesOf(g, d);
    if n == |g.lines| {
      assert bs[1..] == [];
    } else {
      var b, c := g.lines[..n], g.lines[n..];
      assert bs[1..] == [c] && [c][1..] == [];
      assert Spelled([c]) == c + [] == c;
      assert g.lines == b + c;
    }
  }

  lemma {:induction false} SpelledJoin(a: seq<seq<Line>>, b: seq<seq<Line>>)
    ensures Spelled(a + b) == Spelled(a) + Spelled(b)
  {
    if a == [] {
      assert a + b == b;
    } else {
      assert (a + b)[1..] == a[1..] + b;
      SpelledJoin(a[1..], b);
    }
  }

  lemma {:induction false} OfGroups(l: seq<Stmt>, d: nat)
    requires AllGroups(l, d)
    ensures AllSubtrees(AllSubtreesOf(l, d), d) && Spelled(AllSubtreesOf(l, d)) == Flatten(l)
    ensures AllSubtreesOf(l, d) == [] <==> l == []
  {
    if l != [] {
      OfGroup(l[0], d);
      OfGroups(l[1..], d);
      SpelledJoin(SubtreesOf(l[0], d), AllSubtreesOf(l[1..], d));
    }
  }

  /** Two neighbouring statements of which the pass, finding them so, makes one. */
  predicate Match(x: Stmt, y: Stmt)
  {
    x.lines != [] && OneSubtree(x.lines, x.lines[0].depth) && Matching(x.lines, y.lines)
  }

  /** Their first references have a name. */
  predicate Named(x: Stmt)
    requires x.lines != []
  {
    FirstRef(x.lines[1..]) != ""
  }

  function Pairing(l: seq<Stmt>): (r: seq<Part>)
    ensures Singles(r) == l
    ensures forall i :: 0 <= i < |r| && r[i].Two? ==> Match(r[i].a, r[i].b)
  {
    if l == [] then []
    else if |l| > 1 && Match(l[0], l[1]) then
      PairFirst(l);
      [Two(l[0], l[1])] + Pairing(l[2..])
    else [One(l[0])] + Pairing(l[1..])
  }

  lemma {:induction false} PairFirst(l: seq<Stmt>)
    requires |l| > 1
    ensures l == [l[0], l[1]] + l[2..]
  {
  }

  /** What the pass makes of two statements that it finds side by side. */
  function Merged(p: Part): Stmt
    requires p.Two? ==> p.a.lines != []
  {
    match p
    case One(s) => s
    case Two(a, b) => StmtOf(a.lines + b.lines, FirstRef(a.lines[1..]))
  }

  function AllMerged(ps: seq<Part>): (r: seq<Stmt>)
    requires forall i :: 0 <= i < |ps| && ps[i].Two? ==> ps[i].a.lines != []
    ensures |r| == |ps|
  {
    if ps == [] then [] else [Merged(ps[0])] + AllMerged(ps[1..])
  }

  lemma {:induction false} GroupedOne(b: seq<Line>, rest: seq<seq<Line>>)
    requires b != [] && (forall i :: 0 <= i < |rest| ==> rest[i] != []) && (rest == [] || !Matching(b, rest[0]))
    ensures Grouped([b] + rest) == [OfSubtree(b)] + Grouped(rest)
  {
    var bs := [b] + rest;
    assert bs[1..] == rest;
    assert |bs| > 1 ==> bs[1] == rest[0];
  }

  lemma {:induction false} GroupedTwo(b: seq<Line>, c: seq<Line>, rest: seq<seq<Line>>)
    requires Matching(b, c) && forall i :: 0 <= i < |rest| ==> rest[i] != []
    ensures Grouped([b, c] + rest) == [StmtOf(b + c, FirstRef(b[1..]))] + Grouped(rest)
  {
    var bs := [b, c] + rest;
    assert bs[2..] == rest;
  }

  lemma {:induction false} StartOf(g: Stmt, d: nat)
    requires GroupFits(g, d)
    ensures SubtreesOf(g, d)[0][0] == g.lines[0]
    ensures OneSubtree(g.lines, g.lines[0].depth) <==> SubtreesOf(g, d) == [g.lines]
    ensures SubtreesOf(g, d) != [g.lines] ==> |SubtreesOf(g, d)| == 2 && Matching(SubtreesOf(g, d)[0], SubtreesOf(g, d)[1])
    ensures SubtreesOf(g, d) == [g.lines] ==> g == OfSubtree(g.lines)
    ensures SubtreesOf(g, d) != [g.lines] ==> g == StmtOf(SubtreesOf(g, d)[0] + SubtreesOf(g, d)[1], FirstRef(SubtreesOf(g, d)[0][1..]))
  {
    var n := ScopeEnd(g.lines, 1, d);
    assert g.lines == g.lines[..n] + g.lines[n..];
    if n == |g.lines| {
      assert g.lines[..n] == g.lines;
    }
  }

  lemma {:induction false} MergedCons(p: Part, ps: seq<Part>)
    requires p.Two? ==> p.a.lines != []
    requires forall i :: 0 <= i < |ps| && ps[i].Two? ==> ps[i].a.lines != []
    ensures AllMerged([p] + ps) == [Merged(p)] + AllMerged(ps)
  {
    var all := [p] + ps;
    assert all[1..] == ps;
    assert forall i :: 0 < i < |all| ==> all[i] == ps[i - 1];
  }

  /** Statements side by side are grouped anew: neighbours that match become one. */
  lemma {:induction false} GroupedAnew(l: seq<Stmt>, d: nat)
    requires AllGroups(l, d)
    ensures Grouped(AllSubtreesOf(l, d)) == AllMerged(Pairing(l))
    decreases |l|
  {
    if l != [] {
      if |l| > 1 && Match(l[0], l[1]) {
        GroupedAnew(l[2..], d);
        MatchedAnew(l, d);
      } else {
        GroupedAnew(l[1..], d);
        UnmatchedAnew(l, d);
      }
    }
  }

  lemma {:induction false} FirstTwo(l: seq<Stmt>, d: nat)
    requires AllGroups(l, d) && |l| > 1 && Match(l[0], l[1])
    ensures AllSubtreesOf(l, d) == [l[0].lines, l[1].lines] + AllSubtreesOf(l[2..], d)
  {
    StartOf(l[0], d);
    StartOf(l[1], d);
    var rest := AllSubtreesOf(l[2..], d);
    assert l[1..][1..] == l[2..];
    assert AllSubtreesOf(l[1..], d) == [l[1].lines] + rest;
    assert [l[0].lines] + ([l[1].lines] + rest) == [l[0].lines, l[1].lines] + rest;
  }

  lemma {:induction false} MatchedAnew(l: seq<Stmt>, d: nat)
    requires AllGroups(l, d) && |l| > 1 && Match(l[0], l[1])
    requires Grouped(AllSubtreesOf(l[2..], d)) == AllMerged(Pairing(l[2..]))
    ensures Grouped(AllSubtreesOf(l, d)) == AllMerged(Pairing(l))
  {
    FirstTwo(l, d);
    GroupedTwo(l[0].lines, l[1].lines, AllSubtreesOf(l[2..], d));
    MergedCons(Two(l[0], l[1]), Pairing(l[2..]));
  }

  lemma {:induction false} UnmatchedAnew(l: seq<Stmt>, d: nat)
    requires AllGroups(l, d) && l != [] && !(|l| > 1 && Match(l[0], l[1]))
    requires Grouped(AllSubtreesOf(l[1..], d)) == AllMerged(Pairing(l[1..]))
    ensures Grouped(AllSubtreesOf(l, d)) == AllMerged(Pairing(l))
  {
    var g, rest := l[0], AllSubtreesOf(l[1..], d);
    StartOf(g, d);
    MergedCons(One(g), Pairing(l[1..]));
    if SubtreesOf(g, d) == [g.lines] {
      if |l| > 1 {
        NextStart(l[1..], d);
      }
      GroupedOne(g.lines, rest);
    } else {
      var b, c := SubtreesOf(g, d)[0], SubtreesOf(g, d)[1];
      assert SubtreesOf(g, d) == [b, c];
      GroupedTwo(b, c, rest);
    }
  }

  /** The first subtree of a list of statements matches what comes before as the first statement does. */
  lemma {:induction false} NextStart(l: seq<Stmt>, d: nat)
    requires AllGroups(l, d) && l != []
    ensures AllSubtreesOf(l, d) != []
    ensures forall b :: Matching(b, AllSubtreesOf(l, d)[0]) ==> Matching(b, l[0].lines)
  {
    StartOf(l[0], d);
    assert AllSubtreesOf(l, d)[0] == SubtreesOf(l[0], d)[0];
  }

  // ---------- the statements of a scope ----------

  lemma {:induction false} ScopeEndIs(s: seq<Line>, i: nat, d: nat, e: nat)
    requires i <= e <= |s| && (forall k :: i <= k < e ==> s[k].depth > d) && (e < |s| ==> s[e].depth <= d)
    ensures ScopeEnd(s, i, d) == e
    decreases e - i
  {
    if i < e {
      ScopeEndIs(s, i + 1, d, e);
    }
  }

  lemma {:induction false} SingleFits(b: seq<Line>, d: nat)
    requires OneSubtree(b, d)
    ensures GroupFits(OfSubtree(b), d)
  {
    ScopeEndIs(b, 1, d, |b|);
    assert b[..|b|] == b;
  }

  lemma {:induction false} PairFits(b: seq<Line>, c: seq<Line>, d: nat)
    requires OneSubtree(b, d) && OneSubtree(c, d) && Matching(b, c)
    ensures GroupFits(StmtOf(b + c, FirstRef(b[1..])), d)
  {
    ScopeEndIs(b + c, 1, d, |b|);
    assert (b + c)[..|b|] == b && (b + c)[|b|..] == c;
  }

  lemma {:induction false} GroupedFits(bs: seq<seq<Line>>, d: nat)
    requires AllSubtrees(bs, d)
    ensures AllGroups(Grouped(bs), d)
    decreases |bs|
  {
    if bs != [] {
      if |bs| > 1 && Matching(bs[0], bs[1]) {
        PairFits(bs[0], bs[1], d);
        GroupedFits(bs[2..], d);
      } else {
        SingleFits(bs[0], d);
        GroupedFits(bs[1..], d);
      }
    }
  }

  /** What is known of a scope. */
  lemma {:induction false} ScopeFits(s: seq<Line>, idx: nat) returns (hi: nat, starts: seq<nat>)
    requires idx < |s|
    ensures hi == ScopeEnd(s, idx + 1, s[idx].depth) && starts == Starts(s, idx + 1, hi, s[idx].depth + 1)
    ensures AllStarts(s, starts, idx + 1, hi, s[idx].depth + 1) && idx < hi
    ensures FirstChild(s, idx) == (if starts == [] then hi else starts[0])
    ensures Statements(s, idx) == Grouped(Subtrees(s, starts, hi, 0))
    ensures forall k :: idx < k < hi ==> s[k].depth > s[idx].depth
  {
    hi := ScopeEnd(s, idx + 1, s[idx].depth);
    starts := Starts(s, idx + 1, hi, s[idx].depth + 1);
    GroupsAreGrouped(s, starts, hi, 0);
  }

  lemma {:induction false} AreSubtrees(s: seq<Line>, starts: seq<nat>, lo: nat, hi: nat, d: nat)
    requires AllStarts(s, starts, lo, hi, d) && forall k :: lo <= k < hi ==> s[k].depth >= d
    ensures AllSubtrees(Subtrees(s, starts, hi, 0), d)
  {
    forall j | 0 <= j < |Subtrees(s, starts, hi, 0)|
      ensures OneSubtree(Subtrees(s, starts, hi, 0)[j], d)
    {
      BlockIsSubtree(s, starts, lo, hi, d, j);
    }
  }

  lemma {:induction false} BlockIsSubtree(s: seq<Line>, starts: seq<nat>, lo: nat, hi: nat, d: nat, j: nat)
    requires AllStarts(s, starts, lo, hi, d) && j < |starts| && forall k :: lo <= k < hi ==> s[k].depth >= d
    ensures OneSubtree(Block(s, starts, hi, j), d)
  {
    var b := Block(s, starts, hi, j);
    forall k | 0 < k < |b|
      ensures b[k].depth > d
    {
      var p := starts[j] + k;
      NoStartWithin(starts, hi, j, p);
    }
  }

  lemma {:induction false} NoStartWithin(starts: seq<nat>, hi: nat, j: nat, p: nat)
    requires (forall i, k :: 0 <= i < k < |starts| ==> starts[i] < starts[k]) && j < |starts| && starts[j] < p < BlockEnd(starts, hi, j)
    ensures p !in starts
  {
    forall m | 0 <= m < |starts|
      ensures starts[m] != p
    {
      if m > j + 1 {
        assert starts[j + 1] < starts[m];
      }
    }
  }

  lemma {:induction false} StatementsFit(s: seq<Line>, idx: nat)
    requires idx < |s|
    ensures AllGroups(Statements(s, idx), s[idx].depth + 1)
  {
    var hi, starts := ScopeFits(s, idx);
    AreSubtrees(s, starts, idx + 1, hi, s[idx].depth + 1);
    GroupedFits(Subtrees(s, starts, hi, 0), s[idx].depth + 1);
  }

  /** The dump with other statements in the scope. */
  function Replaced(s: seq<Line>, idx: nat, l: seq<Stmt>): seq<Line>
    requires idx < |s|
  {
    StatementsCover(s, idx);
    s[..FirstChild(s, idx)] + Flatten(l) + s[ScopeEnd(s, idx + 1, s[idx].depth)..]
  }

  lemma {:induction false} ReplacedParts(s: seq<Line>, lo: nat, hi: nat, m: seq<Line>, r: seq<Line>)
    requires lo <= hi <= |s| && |m| == hi - lo && r == s[..lo] + m + s[hi..]
    ensures |r| == |s| && r[..lo] == s[..lo] && r[lo..hi] == m && r[hi..] == s[hi..]
    ensures forall k :: 0 <= k < |s| && (k < lo || hi <= k) ==> r[k] == s[k]
    ensures forall k :: lo <= k < hi ==> r[k] == m[k - lo]
  {
  }

  /** The statements that the pass finds where others were put. */
  lemma {:induction false} ReplacedStatements(s: seq<Line>, idx: nat, l: seq<Stmt>, lo: nat, hi: nat, r: seq<Line>)
    requires idx < |s| && AllGroups(l, s[idx].depth + 1) && l != []
    requires lo == FirstChild(s, idx) && hi == ScopeEnd(s, idx + 1, s[idx].depth) && idx < lo <= hi && |Flatten(l)| == hi - lo
    requires r == s[..lo] + Flatten(l) + s[hi..]
    ensures |r| == |s| && r[idx] == s[idx] && r[..lo] == s[..lo] && r[hi..] == s[hi..]
    ensures ScopeEnd(r, idx + 1, r[idx].depth) == hi && FirstChild(r, idx) == lo && Statements(r, idx) == AllMerged(Pairing(l))
  {
    var d := s[idx].depth + 1;
    ReplacedParts(s, lo, hi, Flatten(l), r);
    OfGroups(l, d);
    GroupedAnew(l, d);
    var hi2, starts := ScopeFits(s, idx);
    FoundAnew(s, r, idx, lo, hi, starts, AllSubtreesOf(l, d));
  }

  /** The pass finds the subtrees that were put into the scope. */
  lemma {:induction false} FoundAnew(s: seq<Line>, r: seq<Line>, idx: nat, lo: nat, hi: nat, starts: seq<nat>, bs: seq<seq<Line>>)
    requires idx < |s| == |r| && hi == ScopeEnd(s, idx + 1, s[idx].depth) && idx < lo <= hi
    requires AllStarts(s, starts, idx + 1, hi, s[idx].depth + 1) && lo == (if starts == [] then hi else starts[0])
    requires forall k :: 0 <= k < |s| && (k < lo || hi <= k) ==> r[k] == s[k]
    requires bs != [] && AllSubtrees(bs, s[idx].depth + 1) && r[lo..hi] == Spelled(bs)
    ensures ScopeEnd(r, idx + 1, r[idx].depth) == hi && FirstChild(r, idx) == lo && Statements(r, idx) == Grouped(bs)
  {
    var d := s[idx].depth;
    EndStays(s, r, idx, lo, hi, bs);
    var hi2, starts2 := ScopeFits(r, idx);
    FirstStays(s, r, idx, lo, hi, d + 1, starts, starts2);
    SubtreesUnique(r, starts2, idx + 1, hi, d + 1, 0, bs);
  }

  lemma {:induction false} EndStays(s: seq<Line>, r: seq<Line>, idx: nat, lo: nat, hi: nat, bs: seq<seq<Line>>)
    requires idx < |s| == |r| && hi == ScopeEnd(s, idx + 1, s[idx].depth) && idx < lo <= hi
    requires forall k :: 0 <= k < |s| && (k < lo || hi <= k) ==> r[k] == s[k]
    requires bs != [] && AllSubtrees(bs, s[idx].depth + 1) && r[lo..hi] == Spelled(bs)
    ensures ScopeEnd(r, idx + 1, r[idx].depth) == hi && r[idx] == s[idx] && lo < hi && r[lo].depth == s[idx].depth + 1
  {
    var d := s[idx].depth;
    SpelledStarts(bs, d + 1);
    assert forall k :: lo <= k < hi ==> r[k] == r[lo..hi][k - lo];
    ScopeEndIs(r, idx + 1, d, hi);
  }

  lemma {:induction false} FirstStays(s: seq<Line>, r: seq<Line>, idx: nat, lo: nat, hi: nat, d: nat, starts: seq<nat>, starts2: seq<nat>)
    requires AllStarts(s, starts, idx + 1, hi, d) && lo == (if starts == [] then hi else starts[0]) && idx < lo < hi
    requires AllStarts(r, starts2, idx + 1, hi, d) && |r| == |s| && (forall k :: 0 <= k < lo ==> r[k] == s[k]) && r[lo].depth == d
    ensures starts2 != [] && starts2[0] == lo
  {
    assert lo in starts2;
    assert starts2[0] <= lo;
    forall k | idx < k < lo
      ensures s[k].depth != d
    {
      NotBeforeFirst(starts, k);
    }
  }

  lemma {:induction false} NotBeforeFirst(starts: seq<nat>, k: nat)
    requires (forall i, j :: 0 <= i < j < |starts| ==> starts[i] < starts[j]) && (starts != [] ==> k < starts[0])
    ensures k !in starts
  {
  }

  // ---------- the exchange ----------

  lemma {:induction false} FirstRefNamed(lines: seq<Line>)
    requires FirstRef(lines) != ""
    ensures WriteOf(lines) == FirstRef(lines)
  {
    if lines[0].typ != "ref" {
      FirstRefNamed(lines[1..]);
    }
  }

  /** Two statements that match by name write the variable of that name, and as one they read what both read. Two that match and write
      nothing write nothing as one. */
  lemma {:induction false} FittingMatch(a: Stmt, b: Stmt, d: nat)
    requires GroupFits(a, d) && GroupFits(b, d) && Match(a, b) && Proper(a) && Proper(b) && (Named(a) || (a.written == "" && b.written == ""))
    ensures PartFits(Two(a, b)) && PartLines(Two(a, b), d) && Merged(Two(a, b)) == Whole(Two(a, b))
  {
    StartOf(a, d);
    StartOf(b, d);
    OfGroup(a, d);
    OfGroup(b, d);
    assert SubtreesOf(b, d) == [b.lines];
    if Named(a) {
      FirstRefNamed(a.lines[1..]);
      FirstRefNamed(b.lines[1..]);
      assert WriteOf(a.lines) == WriteOf(b.lines) == FirstRef(a.lines[1..]);
    } else {
      assert WriteOf(a.lines) == WriteOf(a.lines[1..]);
      FirstRefUnnamed(a.lines[1..]);
    }
    WriteOfConcat(a.lines, b.lines);
    assert UsesOf(a.lines + b.lines) == UsesOf(a.lines) + UsesOf(b.lines);
  }

  /** The pass would take statement i and the next one for one. */
  predicate MatchAt(l: seq<Stmt>, i: int)
  {
    0 <= i && i + 1 < |l| && Match(l[i], l[i + 1])
  }

  /** Where neighbours match, their first references have a name, or neither writes anything. */
  ghost predicate NamedOnly(l: seq<Stmt>)
  {
    forall i {:trigger MatchAt(l, i)} :: MatchAt(l, i) ==> Named(l[i]) || (l[i].written == "" && l[i + 1].written == "")
  }

  /** No statement matches both the one before and the one after, so that every match is found. */
  lemma {:induction false} MatchFound(l: seq<Stmt>, i: nat) returns (j: nat)
    requires MatchAt(l, i)
    ensures j < |Pairing(l)| && Pairing(l)[j].Two? && Offset(Pairing(l), j) == i
  {
    if i == 0 {
      j := 0;
    } else if Match(l[0], l[1]) {
      assert MatchAt(l[2..], i - 2);
      j := MatchFound(l[2..], i - 2);
      OffsetCons(Two(l[0], l[1]), Pairing(l[2..]), j);
      j := j + 1;
    } else {
      assert MatchAt(l[1..], i - 1);
      j := MatchFound(l[1..], i - 1);
      OffsetCons(One(l[0]), Pairing(l[1..]), j);
      j := j + 1;
    }
  }

  lemma {:induction false} OffsetCons(p: Part, ps: seq<Part>, j: nat)
    requires j < |ps|
    ensures ([p] + ps)[j + 1] == ps[j] && Offset([p] + ps, j + 1) == |Units(p)| + Offset(ps, j)
  {
    assert ([p] + ps)[1..] == ps;
  }

  /** The statements that the pass takes for one, as positions of the list. */
  lemma {:induction false} AllTogetherIs(l: seq<Stmt>)
    ensures AllTogether(Pairing(l)) <==> forall i: nat {:trigger MatchAt(l, i)} :: MatchAt(l, i) ==> Together(l, i)
  {
    var ps := Pairing(l);
    if AllTogether(ps) {
      forall i: nat | MatchAt(l, i)
        ensures Together(l, i)
      {
        var j := MatchFound(l, i);
        assert Kept(ps, j);
      }
    }
    if forall i: nat {:trigger MatchAt(l, i)} :: MatchAt(l, i) ==> Together(l, i) {
      forall j | 0 <= j < |ps|
        ensures Kept(ps, j)
      {
        UnitsAt(ps, j);
        assert ps[j].Two? ==> MatchAt(l, Offset(ps, j));
      }
    }
  }

  /** Where neighbours match by name, or write nothing, grouping anew joins statements that write alike. */
  lemma {:induction false} NamedPairing(l: seq<Stmt>, d: nat)
    requires AllGroups(l, d) && AllProper(l) && NamedOnly(l)
    ensures PartsFit(Pairing(l)) && PartsLines(Pairing(l), d) && AllMerged(Pairing(l)) == Wholes(Pairing(l))
  {
    var ps := Pairing(l);
    forall j | 0 <= j < |ps|
      ensures PartFits(ps[j]) && PartLines(ps[j], d) && Merged(ps[j]) == Whole(ps[j])
    {
      NamedPart(l, ps, j, d);
    }
    MergedAre(ps);
  }

  lemma {:induction false} NamedPart(l: seq<Stmt>, ps: seq<Part>, j: nat, d: nat)
    requires AllGroups(l, d) && AllProper(l) && NamedOnly(l) && ps == Pairing(l) && j < |ps|
    ensures PartFits(ps[j]) && PartLines(ps[j], d) && Merged(ps[j]) == Whole(ps[j])
  {
    var o := Offset(ps, j);
    UnitsAt(ps, j);
    assert GroupFits(l[o], d) && Proper(l[o]);
    if ps[j].Two? {
      assert GroupFits(l[o + 1], d) && Proper(l[o + 1]);
      assert MatchAt(l, o);
      FittingMatch(l[o], l[o + 1], d);
    }
  }

  lemma {:induction false} MergedAre(ps: seq<Part>)
    requires forall j :: 0 <= j < |ps| ==> (ps[j].Two? ==> ps[j].a.lines != []) && Merged(ps[j]) == Whole(ps[j])
    ensures AllMerged(ps) == Wholes(ps)
  {
    if ps != [] {
      MergedAre(ps[1..]);
      assert Wholes(ps) == [Whole(ps[0])] + Wholes(ps[1..]);
    }
  }

  // ---------- statements that write nothing ----------

  function Silents(l: seq<Stmt>): seq<Stmt>
  {
    if l == [] then [] else (if l[0].written == "" then [l[0]] else []) + Silents(l[1..])
  }

  lemma {:induction false} SilentsJoin(a: seq<Stmt>, b: seq<Stmt>)
    ensures Silents(a + b) == Silents(a) + Silents(b)
  {
    if a == [] {
      assert a + b == b;
    } else {
      assert (a + b)[1..] == a[1..] + b;
      SilentsJoin(a[1..], b);
    }
  }

  lemma {:induction false} NoSilents(l: seq<Stmt>)
    requires forall i :: 0 <= i < |l| ==> l[i].written != ""
    ensures Silents(l) == []
  {
    if l != [] {
      NoSilents(l[1..]);
    }
  }

  lemma {:induction false} SomeSilent(l: seq<Stmt>) returns (q: nat)
    requires Silents(l) != []
    ensures q < |l| && l[q].written == ""
  {
    if l[0].written == "" {
      q := 0;
    } else {
      q := SomeSilent(l[1..]);
      q := q + 1;
    }
  }

  /** The statements that write nothing come first, in their order. */
  lemma {:induction false} SilentsFirst(l: seq<Stmt>) returns (tail: seq<Line>)
    requires AllProper(l)
    ensures Flatten(Canon(l)) == Flatten(Silents(l)) + tail
    decreases |l|
  {
    if Silents(l) == [] {
      tail := Flatten(Canon(l));
      assert [] + tail == tail;
    } else {
      var q := SomeSilent(l);
      var p := FirstUnwritten(l, q);
      PickUnwritten(l, p);
      var rest := FlattenStep(l);
      WithoutProper(l, p);
      tail := SilentsFirst(Without(l, p));
      SilentsFrom(l, p);
      FlattenCons(l[p], Silents(Without(l, p)));
      assert l[p].lines + (Flatten(Silents(Without(l, p))) + tail) == (l[p].lines + Flatten(Silents(Without(l, p)))) + tail;
    }
  }

  lemma {:induction false} SilentsFrom(l: seq<Stmt>, p: nat)
    requires p < |l| && l[p].written == "" && forall j :: 0 <= j < p ==> l[j].written != ""
    ensures Silents(l) == [l[p]] + Silents(Without(l, p))
  {
    assert l == l[..p] + ([l[p]] + l[p + 1..]);
    SilentsJoin(l[..p], [l[p]] + l[p + 1..]);
    SilentsJoin(l[..p], l[p + 1..]);
    NoSilents(l[..p]);
    assert ([l[p]] + l[p + 1..])[1..] == l[p + 1..];
  }

  lemma {:induction false} SilentsOfWholes(ps: seq<Part>)
    requires PartsFit(ps)
    ensures Flatten(Silents(Wholes(ps))) == Flatten(Silents(Singles(ps)))
  {
    if ps != [] {
      assert Wholes(ps) == [Whole(ps[0])] + Wholes(ps[1..]);
      SilentsJoin([Whole(ps[0])], Wholes(ps[1..]));
      SilentsJoin(Units(ps[0]), Singles(ps[1..]));
      FlattenConcat(Silents([Whole(ps[0])]), Silents(Wholes(ps[1..])));
      FlattenConcat(Silents(Units(ps[0])), Silents(Singles(ps[1..])));
      SilentsOfWholes(ps[1..]);
      SilentsOfOne(ps[0]);
    }
  }

  lemma {:induction false} SilentsOfOne(p: Part)
    requires PartFits(p)
    ensures Flatten(Silents([Whole(p)])) == Flatten(Silents(Units(p)))
  {
    if p.Two? {
      if p.a.written == "" {
        assert [p.a, p.b][1..] == [p.b] && [p.b][1..] == [] && [Whole(p)][1..] == [];
        assert Silents([p.b]) == [p.b] && Silents([p.a, p.b]) == [p.a] + [p.b] && Silents([Whole(p)]) == [Whole(p)];
        FlattenCons(p.a, [p.b]);
        assert Flatten([p.b]) == p.b.lines + [] == p.b.lines;
        assert Flatten([Whole(p)]) == Whole(p).lines + [] == Whole(p).lines;
      } else {
        NoSilents(Units(p));
        NoSilents([Whole(p)]);
      }
    }
  }

  /** The cut of lines into subtrees is unique. */
  lemma {:induction false} CutUnique(bs: seq<seq<Line>>, cs: seq<seq<Line>>, d: nat)
    requires AllSubtrees(bs, d) && AllSubtrees(cs, d) && Spelled(bs) == Spelled(cs)
    ensures bs == cs
  {
    SpelledStarts(bs, d);
    SpelledStarts(cs, d);
    if bs != [] {
      FirstCut(bs[0], Spelled(bs[1..]), cs[0], Spelled(cs[1..]), d, bs, cs);
      CutUnique(bs[1..], cs[1..], d);
      assert bs == [bs[0]] + bs[1..] && cs == [cs[0]] + cs[1..];
    }
  }

  lemma {:induction false} FirstCut(b: seq<Line>, rest: seq<Line>, c: seq<Line>, more: seq<Line>, d: nat, bs: seq<seq<Line>>, cs: seq<seq<Line>>)
    requires AllSubtrees(bs, d) && AllSubtrees(cs, d) && bs != [] && cs != [] && b == bs[0] && c == cs[0]
    requires rest == Spelled(bs[1..]) && more == Spelled(cs[1..]) && b + rest == c + more
    ensures b == c && rest == more
  {
    SpelledStarts(bs[1..], d);
    SpelledStarts(cs[1..], d);
    var all := b + rest;
    assert forall k :: 0 < k < |b| ==> all[k] == b[k];
    assert forall k :: 0 < k < |c| ==> all[k] == c[k];
    CutPoint(b, rest, d);
    CutPoint(c, more, d);
    assert |b| == |c|;
    assert b == all[..|b|] && rest == all[|b|..];
  }

  /** Two statements spell the same lines in either order only if they are the same. */
  lemma {:induction false} OrderShowsInLines(a: Stmt, b: Stmt, d: nat)
    requires GroupFits(a, d) && GroupFits(b, d) && a.lines + b.lines == b.lines + a.lines
    ensures a == b
  {
    var x, y := SubtreesOf(a, d), SubtreesOf(b, d);
    OfGroup(a, d);
    OfGroup(b, d);
    StartOf(a, d);
    StartOf(b, d);
    SpelledJoin(x, y);
    SpelledJoin(y, x);
    CutUnique(x + y, y + x, d);
    SameBothWays(x, y);
  }

  lemma {:induction false} SameBothWays(x: seq<seq<Line>>, y: seq<seq<Line>>)
    requires 1 <= |x| <= 2 && 1 <= |y| <= 2 && x + y == y + x
    requires |x| == 2 ==> Matching(x[0], x[1])
    requires |y| == 2 ==> Matching(y[0], y[1])
    ensures x == y
  {
    var all := x + y;
    assert all[0] == x[0] == y[0];
    assert all[|x|] == y[0] && (y + x)[|y|] == x[0];
    if |x| == |y| == 2 {
      assert all[1] == x[1] == y[1];
    }
  }

  /** Exchanging two different statements that write nothing shows. */
  lemma {:induction false} SilentsShow(l: seq<Stmt>, k: nat, ps: seq<Part>, d: nat)
    requires AllProper(l) && AllGroups(l, d) && CanSwap(l, k) && SilentDiffer(l, k)
    requires Singles(ps) == Swapped(l, k) && PartsFit(ps)
    ensures Flatten(Canon(Wholes(ps))) != Flatten(Canon(l))
  {
    SilentsOfWholes(ps);
    WholesProper(ps);
    var tail := SilentsFirst(l);
    var tail2 := SilentsFirst(Wholes(ps));
    var p, q := SilentsSwapped(l, k);
    if Flatten(Canon(Wholes(ps))) == Flatten(Canon(l)) {
      SameInside(p, l[k].lines, l[k + 1].lines, q, tail, tail2);
      OrderShowsInLines(l[k], l[k + 1], d);
    }
  }

  lemma {:induction false} WholesProper(ps: seq<Part>)
    requires PartsFit(ps)
    ensures AllProper(Wholes(ps))
  {
    forall i | 0 <= i < |ps|
      ensures Proper(Wholes(ps)[i])
    {
      KeyOfHead(ps[i]);
    }
  }

  lemma {:induction false} SilentsSwapped(l: seq<Stmt>, k: nat) returns (p: seq<Line>, q: seq<Line>)
    requires k + 1 < |l| && l[k].written == "" && l[k + 1].written == ""
    ensures Flatten(Silents(l)) == p + ((l[k].lines + l[k + 1].lines) + q)
    ensures Flatten(Silents(Swapped(l, k))) == p + ((l[k + 1].lines + l[k].lines) + q)
  {
    p, q := Flatten(Silents(l[..k])), Flatten(Silents(l[k + 2..]));
    assert l == l[..k] + ([l[k], l[k + 1]] + l[k + 2..]);
    assert Swapped(l, k) == l[..k] + ([l[k + 1], l[k]] + l[k + 2..]);
    SilentsAround(l[..k], l[k], l[k + 1], l[k + 2..]);
    SilentsAround(l[..k], l[k + 1], l[k], l[k + 2..]);
  }

  lemma {:induction false} SilentsAround(p: seq<Stmt>, a: Stmt, b: Stmt, q: seq<Stmt>)
    requires a.written == "" && b.written == ""
    ensures Flatten(Silents(p + ([a, b] + q))) == Flatten(Silents(p)) + ((a.lines + b.lines) + Flatten(Silents(q)))
  {
    SilentsJoin(p, [a, b] + q);
    SilentsJoin([a, b], q);
    assert [a, b][1..] == [b] && [b][1..] == [];
    assert Silents([b]) == [b] && Silents([a, b]) == [a] + [b];
    FlattenConcat(Silents(p), ([a] + [b]) + Silents(q));
    FlattenConcat([a] + [b], Silents(q));
    FlattenCons(a, [b]);
    FlattenCons(b, []);
    assert [b] + [] == [b] && b.lines + [] == b.lines;
  }

  lemma {:induction false} SameInside(p: seq<Line>, a: seq<Line>, b: seq<Line>, q: seq<Line>, tail: seq<Line>, tail2: seq<Line>)
    requires (p + ((a + b) + q)) + tail == (p + ((b + a) + q)) + tail2
    ensures a + b == b + a
  {
    var all := (p + ((a + b) + q)) + tail;
    assert a + b == all[|p|..|p| + |a| + |b|];
    assert b + a == ((p + ((b + a) + q)) + tail2)[|p|..|p| + |a| + |b|];
  }

  // ---------- the main result ----------

  /** The dump after an exchange of two neighbouring statements of a scope. */
  function Exchanged(s: seq<Line>, idx: nat, k: nat): seq<Line>
    requires idx < |s| && k + 1 < |Statements(s, idx)|
  {
    Replaced(s, idx, Swapped(Statements(s, idx), k))
  }

  lemma {:induction false} SwappedLines(l: seq<Stmt>, k: nat)
    requires k + 1 < |l|
    ensures |Flatten(Swapped(l, k))| == |Flatten(l)|
  {
    var p, q, a, b := l[..k], l[k + 2..], l[k], l[k + 1];
    assert l == p + ([a] + ([b] + q)) && Swapped(l, k) == p + ([b] + ([a] + q));
    FlattenConcat(p, [a] + ([b] + q));
    FlattenConcat(p, [b] + ([a] + q));
    FlattenCons(a, [b] + q);
    FlattenCons(b, q);
    FlattenCons(b, [a] + q);
    FlattenCons(a, q);
  }

  lemma {:induction false} SwappedFits(l: seq<Stmt>, k: nat, d: nat)
    requires k + 1 < |l| && AllGroups(l, d) && AllProper(l)
    ensures AllGroups(Swapped(l, k), d) && AllProper(Swapped(l, k))
  {
    var r := Swapped(l, k);
    forall i | 0 <= i < |r|
      ensures GroupFits(r[i], d) && Proper(r[i])
    {
      assert r[i] == l[Moved(k, i)];
    }
  }

  /** In every dump, the exchange of two independent neighbouring statements leaves the rewritten dump as it was if and only if
      they are not different statements that write nothing, and any two that the pass now takes for one, as an attribute setting and an
      assignment of the same name that were brought side by side, are ones that the canonical order takes one right after the other. */
  lemma {:induction false} ExchangeIff(s: seq<Line>, idx: nat, k: nat)
    requires idx < |s| && CanSwap(Statements(s, idx), k) && NamedOnly(Swapped(Statements(s, idx), k))
    ensures idx < |Exchanged(s, idx, k)|
    ensures
      var l := Statements(s, idx);
      Rewritten(Exchanged(s, idx, k), idx) == Rewritten(s, idx) <==>
      !SilentDiffer(l, k)
      && forall i: nat {:trigger MatchAt(Swapped(l, k), i)} :: MatchAt(Swapped(l, k), i) ==> Together(Swapped(l, k), i)
  {
    var l, d := Statements(s, idx), s[idx].depth + 1;
    var r := Swapped(l, k);
    StatementsCover(s, idx);
    StatementsFit(s, idx);
    SwappedLines(l, k);
    SwappedFits(l, k, d);
    ReplacedStatements(s, idx, r, FirstChild(s, idx), ScopeEnd(s, idx + 1, s[idx].depth), Exchanged(s, idx, k));
    NamedPairing(r, d);
    RewrittenSame(s, Exchanged(s, idx, k), idx, Wholes(Pairing(r)));
    AllTogetherIs(r);
    if SilentDiffer(l, k) {
      SilentsShow(l, k, Pairing(r), d);
    } else {
      SwapKeepsCanon(l, k);
      TogetherIff(Pairing(r), d);
    }
  }

  lemma {:induction false} RewrittenSame(s: seq<Line>, t: seq<Line>, idx: nat, m: seq<Stmt>)
    requires idx < |s| && |t| == |s| && t[idx] == s[idx] && ScopeEnd(t, idx + 1, s[idx].depth) == ScopeEnd(s, idx + 1, s[idx].depth)
    requires FirstChild(t, idx) == FirstChild(s, idx) && Statements(t, idx) == m
    requires FirstChild(s, idx) <= ScopeEnd(s, idx + 1, s[idx].depth)
    requires t[..FirstChild(s, idx)] == s[..FirstChild(s, idx)]
    requires t[ScopeEnd(s, idx + 1, s[idx].depth)..] == s[ScopeEnd(s, idx + 1, s[idx].depth)..]
    ensures Rewritten(t, idx) == Rewritten(s, idx) <==> Flatten(Canon(m)) == Flatten(Canon(Statements(s, idx)))
  {
    SameMiddle(s[..FirstChild(s, idx)], Flatten(Canon(m)), Flatten(Canon(Statements(s, idx))), s[ScopeEnd(s, idx + 1, s[idx].depth)..]);
  }

  lemma {:induction false} SameMiddle(a: seq<Line>, b: seq<Line>, c: seq<Line>, d: seq<Line>)
    ensures a + b + d == a + c + d <==> b == c
  {
    if a + b + d == a + c + d {
      assert |b| == |c|;
      assert b == (a + b + d)[|a|..|a| + |b|];
      assert c == (a + c + d)[|a|..|a| + |c|];
    }
  }

  // ---------- an exchange that shows ----------

  const ATTR := Line(1, "attr_set", "", "")
  const ASSIGN := Line(1, "assign", "", "")
  const REFX := Line(2, "ref", "x", "")
  const REFZ := Line(2, "ref", "z", "")

  /** A scope that sets an attribute of x, assigns z, and assigns z to x. */
  function Scope(): seq<Line>
  {
    [Line(0, "stmts", "", "")] + ([ATTR, REFX] + ([ASSIGN, REFZ] + [ASSIGN, REFX, REFZ]))
  }

  function SetAttr(): Stmt { Stmt([ATTR, REFX], "x", {}, "x") }

  function AssignZ(): Stmt { Stmt([ASSIGN, REFZ], "z", {}, "z") }

  function AssignX(): Stmt { Stmt([ASSIGN, REFX, REFZ], "x", {"z"}, "x") }

  lemma {:induction false} ReadsOne(c: Line, y: string)
    requires c.typ != "ref" && y != ""
    ensures var b := [c, Line(2, "ref", y, "")]; WriteOf(b) == y && UsesOf(b) == {} && FirstRef(b[1..]) == y
  {
    var b := [c, Line(2, "ref", y, "")];
    assert b[1..] == [Line(2, "ref", y, "")];
  }

  lemma {:induction false} ReadsTwo()
    ensures var b := [ASSIGN, REFX, REFZ]; WriteOf(b) == "x" && UsesOf(b) == {"z"} && FirstRef(b[1..]) == "x"
  {
    var b := [ASSIGN, REFX, REFZ];
    assert b[1..] == [REFX, REFZ];
    assert WriteOf([REFX, REFZ]) == "x";
    assert WriteOf(b) == "x";
    assert REFZ in b;
    assert forall line :: line in b && NamedRef(line) ==> line == REFX || line == REFZ;
  }

  lemma {:induction false} StatementsAre(s: seq<Line>, idx: nat, lo: nat, hi: nat, bs: seq<seq<Line>>)
    requires idx < |s| && hi == ScopeEnd(s, idx + 1, s[idx].depth) && lo == FirstChild(s, idx) && lo < hi
    requires bs != [] && AllSubtrees(bs, s[idx].depth + 1) && s[lo..hi] == Spelled(bs)
    ensures Statements(s, idx) == Grouped(bs)
  {
    var hi2, starts := ScopeFits(s, idx);
    SubtreesUnique(s, starts, idx + 1, hi, s[idx].depth + 1, 0, bs);
  }

  lemma {:induction false} ScopeStatements(s: seq<Line>)
    requires s == Scope()
    ensures Statements(s, 0) == [SetAttr(), AssignZ(), AssignX()]
  {
    ScopeShape(s);
    SpelledThree([ATTR, REFX], [ASSIGN, REFZ], [ASSIGN, REFX, REFZ]);
    ScopeGrouped();
    WholeStatements(s, ScopeSubtrees());
  }

  lemma {:induction false} WholeStatements(s: seq<Line>, bs: seq<seq<Line>>)
    requires |s| == 8 && s[0].depth == 0 && ScopeEnd(s, 1, 0) == 8 && FirstChild(s, 0) == 1
    requires bs != [] && AllSubtrees(bs, 1) && s[1..8] == Spelled(bs)
    ensures Statements(s, 0) == Grouped(bs)
  {
    StatementsAre(s, 0, 1, 8, bs);
  }

  function ScopeSubtrees(): seq<seq<Line>>
  {
    [[ATTR, REFX], [ASSIGN, REFZ], [ASSIGN, REFX, REFZ]]
  }

  lemma {:induction false} ScopeShape(s: seq<Line>)
    requires s == Scope()
    ensures |s| == 8 && s[0].depth == 0 && ScopeEnd(s, 1, 0) == 8 && FirstChild(s, 0) == 1
    ensures s[1..8] == [ATTR, REFX] + ([ASSIGN, REFZ] + [ASSIGN, REFX, REFZ])
  {
    ScopeLines();
    WholeScope(s);
  }

  lemma {:induction false} ScopeLines()
    ensures |Scope()| == 8 && Scope()[0].depth == 0 && Scope()[1].depth == 1 && forall k :: 0 < k < 8 ==> Scope()[k].depth > 0
    ensures Scope()[1..8] == [ATTR, REFX] + ([ASSIGN, REFZ] + [ASSIGN, REFX, REFZ])
  {
  }

  lemma {:induction false} WholeScope(s: seq<Line>)
    requires |s| > 1 && s[0].depth == 0 && s[1].depth == 1 && forall k :: 0 < k < |s| ==> s[k].depth > 0
    ensures ScopeEnd(s, 1, 0) == |s| && FirstChild(s, 0) == 1
  {
    ScopeEndIs(s, 1, 0, |s|);
    var hi, starts := ScopeFits(s, 0);
    assert 1 in starts;
  }

  lemma {:induction false} ScopeGrouped()
    ensures AllSubtrees(ScopeSubtrees(), 1) && Grouped(ScopeSubtrees()) == [SetAttr(), AssignZ(), AssignX()]
  {
    var a, b, c := [ATTR, REFX], [ASSIGN, REFZ], [ASSIGN, REFX, REFZ];
    ReadsOne(ATTR, "x");
    ReadsOne(ASSIGN, "z");
    ReadsTwo();
    assert "x" != "z";
    GroupedOne(c, []);
    GroupedOne(b, [c]);
    GroupedOne(a, [b, c]);
    assert [b] + [c] == [b, c] && [a] + [b, c] == ScopeSubtrees() && [c] + [] == [c];
    assert Grouped([]) == [];
  }

  lemma {:induction false} SpelledThree(a: seq<Line>, b: seq<Line>, c: seq<Line>)
    ensures Spelled([a, b, c]) == a + (b + c)
  {
    var bs := [a, b, c];
    assert bs[1..] == [b, c] && [b, c][1..] == [c] && [c][1..] == [];
    assert Spelled([c]) == c + [] == c;
  }

  /** The first two statements exchanged, the attribute and the assignment to x stand side by side and are taken for one statement,
      although the assignment to z belongs between them. */
  lemma {:induction false} BroughtTogetherShows()
    ensures Statements(Scope(), 0) == [SetAttr(), AssignZ(), AssignX()] && CanSwap(Statements(Scope(), 0), 0)
    ensures 0 < |Exchanged(Scope(), 0, 0)| && Rewritten(Exchanged(Scope(), 0, 0), 0) != Rewritten(Scope(), 0)
  {
    ScopeStatements(Scope());
    MatchesAfter();
    ExchangeIff(Scope(), 0, 0);
    NotTogether();
  }

  lemma {:induction false} MatchesAfter()
    ensures CanSwap([SetAttr(), AssignZ(), AssignX()], 0)
    ensures Swapped([SetAttr(), AssignZ(), AssignX()], 0) == [AssignZ(), SetAttr(), AssignX()]
    ensures NamedOnly([AssignZ(), SetAttr(), AssignX()]) && MatchAt([AssignZ(), SetAttr(), AssignX()], 1)
  {
    var r := [AssignZ(), SetAttr(), AssignX()];
    assert "x" != "z";
    ReadsOne(ATTR, "x");
    ReadsTwo();
    assert r[0].lines[0].typ == "assign" && "assign" != "attr_set";
    assert !MatchAt(r, 0);
    assert MatchAt(r, 1);
  }

  lemma {:induction false} NotTogether()
    ensures !Together([AssignZ(), SetAttr(), AssignX()], 1)
  {
    var r := [AssignZ(), SetAttr(), AssignX()];
    assert "x"[0] < "z"[0] && Less("x", "z");
    assert IsPick(r, 1);
    PickUnique(r, 1, Pick(r));
    var rest := Without(r, 1);
    assert rest == [AssignZ(), AssignX()];
    assert Depends(rest[0], rest[1]);
    assert !Ready(rest, 1);
    ConsecutiveNow(Picker(), r, 1);
  }
}
