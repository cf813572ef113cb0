/**
 The in-place pass that reorders the statements of one `stmts` scope: find the scope, group its
 child subtrees into statements, order the statements by a topological sort with an ordered
 ready set, and write the lines back.
 */
module StatementCanonicalizer {
  import opened StatementOrder
  import opened Options

  // ---------- what a statement is read as ----------

  predicate NamedRef(line: Line)
  {
    line.typ == "ref" && line.ref != ""
  }

  /** The first named reference: the variable the statement writes. */
  function WriteOf(lines: seq<Line>): string
  {
    if lines == [] then "" else if NamedRef(lines[0]) then lines[0].ref else WriteOf(lines[1..])
  }

  function UsesOf(lines: seq<Line>): set<string>
  {
    set line | line in lines && NamedRef(line) && line.ref != WriteOf(lines) :: line.ref
  }

  /** The name on the first `ref` line, which may be empty. */
  function FirstRef(lines: seq<Line>): string
  {
    if lines == [] then "" else if lines[0].typ == "ref" then lines[0].ref else FirstRef(lines[1..])
  }

  function StmtOf(lines: seq<Line>, refSi: string): Stmt
  {
    Stmt(lines, WriteOf(lines), UsesOf(lines), if WriteOf(lines) == "" then refSi else WriteOf(lines))
  }

  lemma {:induction false} WriteOfConcat(a: seq<Line>, b: seq<Line>)
    ensures WriteOf(a + b) == if WriteOf(a) != "" then WriteOf(a) else WriteOf(b)
  {
    if a == [] {
      assert a + b == b;
    } else {
      assert (a + b)[1..] == a[1..] + b;
      WriteOfConcat(a[1..], b);
    }
  }

  lemma {:induction false} WriteOfEmpty(lines: seq<Line>)
    ensures WriteOf(lines) == "" <==> forall k :: 0 <= k < |lines| ==> !NamedRef(lines[k])
  {
    if lines != [] {
      WriteOfEmpty(lines[1..]);
      assert forall k :: 1 <= k < |lines| ==> lines[k] == lines[1..][k - 1];
    }
  }

  /** The first line that names a reference. */
  predicate NamedFirst(lines: seq<Line>, k: nat)
  {
    k < |lines| && NamedRef(lines[k]) && forall j :: 0 <= j < k ==> !NamedRef(lines[j])
  }

  lemma {:induction false} WriteOfIs(lines: seq<Line>, k: nat)
    requires NamedFirst(lines, k)
    ensures WriteOf(lines) == lines[k].ref
  {
    if k > 0 {
      assert !NamedRef(lines[0]);
      assert NamedFirst(lines[1..], k - 1);
      WriteOfIs(lines[1..], k - 1);
    }
  }

  /** A line of type `ref` that has none before it. */
  predicate RefFirst(lines: seq<Line>, k: nat)
  {
    k < |lines| && lines[k].typ == "ref" && forall j :: 0 <= j < k ==> lines[j].typ != "ref"
  }

  lemma {:induction false} FirstRefIs(lines: seq<Line>, k: nat)
    requires RefFirst(lines, k)
    ensures FirstRef(lines) == lines[k].ref
  {
    if k > 0 {
      assert lines[0].typ != "ref";
      assert RefFirst(lines[1..], k - 1);
      FirstRefIs(lines[1..], k - 1);
    }
  }

  lemma {:induction false} FirstRefUnnamed(lines: seq<Line>)
    requires WriteOf(lines) == ""
    ensures FirstRef(lines) == ""
  {
    if lines != [] {
      FirstRefUnnamed(lines[1..]);
    }
  }

  /** The fallback sort key is taken only when it is empty: a statement always sorts under the
      variable it writes, and one that writes nothing uses nothing. */
  lemma {:induction false} StmtOfProper(lines: seq<Line>, block: seq<Line>)
    requires block != [] && block <= lines
    ensures Proper(StmtOf(lines, FirstRef(block[1..]))) && WriteOf(lines) !in UsesOf(lines)
  {
    WriteOfEmpty(lines);
    WriteOfEmpty(block[1..]);
    if WriteOf(lines) == "" {
      forall k | 0 <= k < |block[1..]|
        ensures !NamedRef(block[1..][k])
      {
        assert block[1..][k] == lines[k + 1];
      }
      FirstRefUnnamed(block[1..]);
    }
  }

  // ---------- the scope and its subtrees ----------

  /** The first line after `i` at depth `d` or less, or the end of the dump. */
  function ScopeEnd(s: seq<Line>, i: nat, d: nat): (e: nat)
    requires i <= |s|
    ensures i <= e <= |s| && (e < |s| ==> s[e].depth <= d)
    ensures forall k :: i <= k < e ==> s[k].depth > d
    decreases |s| - i
  {
    if i == |s| || s[i].depth <= d then i else ScopeEnd(s, i + 1, d)
  }

  /** Positions of the lines at depth d among lo..hi. */
  function Starts(s: seq<Line>, lo: nat, hi: nat, d: nat): (r: seq<nat>)
    requires lo <= hi <= |s|
    ensures forall j :: 0 <= j < |r| ==> lo <= r[j] < hi && s[r[j]].depth == d
    ensures forall i, j :: 0 <= i < j < |r| ==> r[i] < r[j]
    ensures forall k :: lo <= k < hi && s[k].depth == d ==> k in r
    decreases hi
  {
    if lo == hi then []
    else if s[hi - 1].depth == d then Starts(s, lo, hi - 1, d) + [hi - 1]
    else Starts(s, lo, hi - 1, d)
  }

  /** The subtree that begins at the j-th start. */
  function Block(s: seq<Line>, starts: seq<nat>, hi: nat, j: nat): seq<Line>
    requires Boundaries(s, starts, hi) && j < |starts|
  {
    s[starts[j]..BlockEnd(starts, hi, j)]
  }

  function BlockEnd(starts: seq<nat>, hi: nat, j: nat): nat
    requires j < |starts|
  {
    if j + 1 < |starts| then starts[j + 1] else hi
  }

  predicate Boundaries(s: seq<Line>, starts: seq<nat>, hi: nat)
  {
    && hi <= |s|
    && (forall j :: 0 <= j < |starts| ==> starts[j] < hi)
    && (forall i, j :: 0 <= i < j < |starts| ==> starts[i] < starts[j])
  }

  /** An attribute setting directly followed by an assignment to the same name is one statement. */
  predicate Paired(s: seq<Line>, starts: seq<nat>, hi: nat, j: nat)
    requires Boundaries(s, starts, hi) && j < |starts|
  {
    && j + 1 < |starts|
    && s[starts[j]].typ == "attr_set" && s[starts[j + 1]].typ == "assign"
    && FirstRef(Block(s, starts, hi, j)[1..]) == FirstRef(Block(s, starts, hi, j + 1)[1..])
  }

  function GroupsFrom(s: seq<Line>, starts: seq<nat>, hi: nat, j: nat): seq<Stmt>
    requires Boundaries(s, starts, hi)
    decreases |starts| - j
  {
    if j >= |starts| then []
    else
      var refSi := FirstRef(Block(s, starts, hi, j)[1..]);
      if Paired(s, starts, hi, j) then
        [StmtOf(Block(s, starts, hi, j) + Block(s, starts, hi, j + 1), refSi)] + GroupsFrom(s, starts, hi, j + 2)
      else
        [StmtOf(Block(s, starts, hi, j), refSi)] + GroupsFrom(s, starts, hi, j + 1)
  }

  function Flatten(l: seq<Stmt>): seq<Line>
  {
    if l == [] then [] else l[0].lines + Flatten(l[1..])
  }

  /** Grouping loses and repeats nothing: the statements spell out the scope from its first child on. */
  lemma {:induction false} GroupsCover(s: seq<Line>, starts: seq<nat>, hi: nat, j: nat)
    requires Boundaries(s, starts, hi) && j < |starts|
    ensures Flatten(GroupsFrom(s, starts, hi, j)) == s[starts[j]..hi]
    decreases |starts| - j
  {
    var paired := Paired(s, starts, hi, j);
    var next := if paired then j + 2 else j + 1;
    var lines := if paired then Block(s, starts, hi, j) + Block(s, starts, hi, j + 1) else Block(s, starts, hi, j);
    var later := GroupsFrom(s, starts, hi, next);
    var e := BlockEnd(starts, hi, next - 1);
    if paired {
      Joined(s, starts[j], starts[j + 1], e);
    }
    assert lines == s[starts[j]..e];
    if next < |starts| {
      GroupsCover(s, starts, hi, next);
    }
    assert Flatten(later) == s[e..hi];
    Joined(s, starts[j], e, hi);
    FlattenCons(StmtOf(lines, FirstRef(Block(s, starts, hi, j)[1..])), later);
  }

  lemma {:induction false} FlattenCons(g: Stmt, l: seq<Stmt>)
    ensures Flatten([g] + l) == g.lines + Flatten(l)
  {
    assert ([g] + l)[1..] == l;
  }

  lemma {:induction false} Joined<T>(s: seq<T>, a: nat, b: nat, c: nat)
    requires a <= b <= c <= |s|
    ensures s[a..b] + s[b..c] == s[a..c]
  {
  }

  lemma {:induction false} GroupsProper(s: seq<Line>, starts: seq<nat>, hi: nat, j: nat)
    requires Boundaries(s, starts, hi)
    ensures AllProper(GroupsFrom(s, starts, hi, j))
    decreases |starts| - j
  {
    if j < |starts| {
      var b := Block(s, starts, hi, j);
      if Paired(s, starts, hi, j) {
        var both := b + Block(s, starts, hi, j + 1);
        assert b <= both;
        StmtOfProper(both, b);
        GroupsProper(s, starts, hi, j + 2);
      } else {
        StmtOfProper(b, b);
        GroupsProper(s, starts, hi, j + 1);
      }
    }
  }

  // ---------- the pass as a function ----------

  /** The statements of the scope opened by line idx. */
  function Statements(s: seq<Line>, idx: nat): seq<Stmt>
    requires idx < |s|
  {
    var d := s[idx].depth;
    var hi := ScopeEnd(s, idx + 1, d);
    GroupsFrom(s, Starts(s, idx + 1, hi, d + 1), hi, 0)
  }

  /** Where the statements of the scope begin and end. */
  function FirstChild(s: seq<Line>, idx: nat): nat
    requires idx < |s|
  {
    var d := s[idx].depth;
    var hi := ScopeEnd(s, idx + 1, d);
    var starts := Starts(s, idx + 1, hi, d + 1);
    if starts == [] then hi else starts[0]
  }

  lemma {:induction false} StatementsCover(s: seq<Line>, idx: nat)
    requires idx < |s|
    ensures var hi := ScopeEnd(s, idx + 1, s[idx].depth);
            idx < FirstChild(s, idx) <= hi && Flatten(Statements(s, idx)) == s[FirstChild(s, idx)..hi]
    ensures AllProper(Statements(s, idx))
  {
    var hi := ScopeEnd(s, idx + 1, s[idx].depth);
    var starts := Starts(s, idx + 1, hi, s[idx].depth + 1);
    GroupsProper(s, starts, hi, 0);
    if starts != [] {
      GroupsCover(s, starts, hi, 0);
    }
  }

  /** The dump with the statements of one scope in canonical order. */
  ghost function Rewritten(s: seq<Line>, idx: nat): seq<Line>
    requires idx < |s|
  {
    var hi := ScopeEnd(s, idx + 1, s[idx].depth);
    StatementsCover(s, idx);
    s[..FirstChild(s, idx)] + Flatten(Canon(Statements(s, idx))) + s[hi..]
  }

  lemma {:induction false} FlattenConcat(a: seq<Stmt>, b: seq<Stmt>)
    ensures Flatten(a + b) == Flatten(a) + Flatten(b)
  {
    if a == [] {
      assert a + b == b;
    } else {
      assert (a + b)[1..] == a[1..] + b;
      FlattenConcat(a[1..], b);
    }
  }

  lemma {:induction false} FlattenWithout(l: seq<Stmt>, i: nat)
    requires i < |l|
    ensures multiset(Flatten(l)) == multiset(l[i].lines) + multiset(Flatten(Without(l, i)))
  {
    assert l == l[..i] + ([l[i]] + l[i + 1..]);
    FlattenConcat(l[..i], [l[i]] + l[i + 1..]);
    FlattenConcat(l[..i], l[i + 1..]);
    assert ([l[i]] + l[i + 1..])[1..] == l[i + 1..];
  }

  lemma {:induction false} FlattenCanon(l: seq<Stmt>)
    ensures multiset(Flatten(Canon(l))) == multiset(Flatten(l))
    ensures |Flatten(Canon(l))| == |Flatten(l)|
  {
    if l != [] {
      var i := Pick(l);
      var rest := Without(l, i);
      FlattenWithout(l, i);
      FlattenCanon(rest);
      assert Canon(l)[1..] == Canon(rest);
    }
    assert |multiset(Flatten(Canon(l)))| == |Flatten(Canon(l))|;
  }

  lemma {:induction false} Spliced<T>(s: seq<T>, lo: nat, hi: nat, m: seq<T>, r: seq<T>)
    requires lo <= hi <= |s| && r == s[..lo] + m + s[hi..]
    requires |m| == hi - lo && multiset(m) == multiset(s[lo..hi])
    ensures |r| == |s| && multiset(r) == multiset(s)
    ensures r[..lo] == s[..lo] && r[hi..] == s[hi..] && r[lo..hi] == m
  {
    assert s == s[..lo] + s[lo..hi] + s[hi..];
  }

  /** The rewritten dump holds the same lines, and everything outside the scope's statements stays put. */
  lemma {:induction false} RewrittenPermutes(s: seq<Line>, idx: nat)
    requires idx < |s|
    ensures var r := Rewritten(s, idx);
            var lo, hi := FirstChild(s, idx), ScopeEnd(s, idx + 1, s[idx].depth);
            && |r| == |s| && multiset(r) == multiset(s)
            && lo <= hi && r[..lo] == s[..lo] && r[hi..] == s[hi..]
            && multiset(r[lo..hi]) == multiset(s[lo..hi])
  {
    var lo, hi := FirstChild(s, idx), ScopeEnd(s, idx + 1, s[idx].depth);
    StatementsCover(s, idx);
    FlattenCanon(Statements(s, idx));
    Spliced(s, lo, hi, Flatten(Canon(Statements(s, idx))), Rewritten(s, idx));
  }

  // ---------- the topological sort ----------

  /** The statements at the given positions. */
  function At(l: seq<Stmt>, rem: seq<nat>): (r: seq<Stmt>)
    requires forall p :: 0 <= p < |rem| ==> rem[p] < |l|
    ensures |r| == |rem| && forall p :: 0 <= p < |rem| ==> r[p] == l[rem[p]]
  {
    seq(|rem|, p requires 0 <= p < |rem| => l[rem[p]])
  }

  /** How many waiting statements before v it depends on. */
  function Blockers(l: seq<Stmt>, rem: seq<nat>, v: nat): nat
    requires v < |l| && forall p :: 0 <= p < |rem| ==> rem[p] < |l|
  {
    if rem == [] then 0
    else
      var u := rem[|rem| - 1];
      Blockers(l, rem[..|rem| - 1], v) + if u < v && Depends(l[u], l[v]) then 1 else 0
  }

  ghost predicate Waiting(l: seq<Stmt>, rem: seq<nat>)
  {
    && (forall p :: 0 <= p < |rem| ==> rem[p] < |l|)
    && (forall p, q :: 0 <= p < q < |rem| ==> rem[p] < rem[q])
  }

  lemma {:induction false} BlockersZero(l: seq<Stmt>, rem: seq<nat>, v: nat)
    requires v < |l| && forall p :: 0 <= p < |rem| ==> rem[p] < |l|
    ensures Blockers(l, rem, v) == 0 <==> forall p :: 0 <= p < |rem| && rem[p] < v ==> !Depends(l[rem[p]], l[v])
  {
    if rem != [] {
      BlockersZero(l, rem[..|rem| - 1], v);
    }
  }

  lemma {:induction false} BlockersConcat(l: seq<Stmt>, a: seq<nat>, b: seq<nat>, v: nat)
    requires v < |l|
    requires forall p :: 0 <= p < |a| ==> a[p] < |l|
    requires forall p :: 0 <= p < |b| ==> b[p] < |l|
    ensures Blockers(l, a + b, v) == Blockers(l, a, v) + Blockers(l, b, v)
  {
    if b == [] {
      assert a + b == a;
    } else {
      assert (a + b)[..|a + b| - 1] == a + b[..|b| - 1];
      BlockersConcat(l, a, b[..|b| - 1], v);
    }
  }

  /** Emitting a statement unblocks the statements that depended on it by one. */
  lemma {:induction false} BlockersWithout(l: seq<Stmt>, rem: seq<nat>, p: nat, v: nat)
    requires v < |l| && p < |rem| && forall p :: 0 <= p < |rem| ==> rem[p] < |l|
    ensures Blockers(l, rem, v) == Blockers(l, Without(rem, p), v) + if rem[p] < v && Depends(l[rem[p]], l[v]) then 1 else 0
  {
    assert rem == rem[..p] + ([rem[p]] + rem[p + 1..]);
    BlockersConcat(l, rem[..p], [rem[p]] + rem[p + 1..], v);
    BlockersConcat(l, [rem[p]], rem[p + 1..], v);
    BlockersConcat(l, rem[..p], rem[p + 1..], v);
    assert [rem[p]][..0] == [];
  }

  /** A waiting statement is ready in the list of waiting statements exactly when nothing blocks it. */
  lemma {:induction false} ReadyIffUnblocked(l: seq<Stmt>, rem: seq<nat>, p: nat)
    requires Waiting(l, rem) && p < |rem|
    ensures Ready(At(l, rem), p) <==> Blockers(l, rem, rem[p]) == 0
  {
    BlockersZero(l, rem, rem[p]);
    assert forall q :: 0 <= q < |rem| && rem[q] < rem[p] ==> q < p;
  }

  /** The comparison of the ordered ready set. */
  predicate First(l: seq<Stmt>, u: nat, v: nat)
    requires u < |l| && v < |l|
  {
    Less(l[u].key, l[v].key) || (l[u].key == l[v].key && u < v)
  }

  /** u is at the front of the ready set. */
  predicate Least(l: seq<Stmt>, ready: set<nat>, u: nat)
  {
    u in ready && u < |l| && forall v :: v in ready && v != u ==> v < |l| && First(l, u, v)
  }

  lemma {:induction false} LeastUnique(l: seq<Stmt>, ready: set<nat>, u: nat, w: nat)
    requires Least(l, ready, u) && Least(l, ready, w)
    ensures u == w
  {
    LessTotal(l[u].key, l[w].key);
  }

  ghost predicate ReadySet(l: seq<Stmt>, rem: seq<nat>, ready: set<nat>)
    requires Waiting(l, rem)
  {
    forall v :: v in ready <==> v in rem && Blockers(l, rem, v) == 0
  }

  /** The least member of the ready set is the pick of the waiting statements. */
  lemma {:induction false} LeastIsPick(l: seq<Stmt>, rem: seq<nat>, ready: set<nat>) returns (p: nat)
    requires Waiting(l, rem) && rem != [] && ReadySet(l, rem, ready)
    ensures p < |rem| && p == Pick(At(l, rem)) && Least(l, ready, rem[p])
  {
    p := Pick(At(l, rem));
    ReadyIffUnblocked(l, rem, p);
    forall v | v in ready && v != rem[p]
      ensures v < |l| && First(l, rem[p], v)
    {
      var q :| 0 <= q < |rem| && rem[q] == v;
      ReadyIffUnblocked(l, rem, q);
      assert Before(At(l, rem), p, q);
    }
  }

  /** Later statements that depend on u. */
  ghost predicate IsRow(l: seq<Stmt>, u: nat, row: seq<nat>, hi: nat)
    requires u < |l| && hi <= |l|
  {
    && (forall t :: 0 <= t < |row| ==> u < row[t] < hi && Depends(l[u], l[row[t]]))
    && (forall t, t' :: 0 <= t < t' < |row| ==> row[t] < row[t'])
    && (forall v :: u < v < hi && Depends(l[u], l[v]) ==> v in row)
  }

  function UpTo(n: nat): (r: seq<nat>)
    ensures |r| == n && forall p :: 0 <= p < n ==> r[p] == p
  {
    seq(n, p => p)
  }

  lemma {:induction false} UpToMembers(n: nat)
    ensures forall v :: v in UpTo(n) <==> 0 <= v < n
  {
    forall v | 0 <= v < n
      ensures v in UpTo(n)
    {
      assert UpTo(n)[v] == v;
    }
  }

  lemma {:induction false} BlockersUpTo(l: seq<Stmt>, n: nat, v: nat)
    requires v < |l| && n < |l|
    ensures Blockers(l, UpTo(n + 1), v) == Blockers(l, UpTo(n), v) + if n < v && Depends(l[n], l[v]) then 1 else 0
  {
    assert UpTo(n + 1)[..n] == UpTo(n);
  }

  lemma {:induction false} RowGrows(l: seq<Stmt>, u: nat, row: seq<nat>, b: nat)
    requires u < b < |l| && IsRow(l, u, row, b)
    ensures if Depends(l[u], l[b]) then IsRow(l, u, row + [b], b + 1) else IsRow(l, u, row, b + 1)
  {
    var longer := row + [b];
    assert forall v :: v in longer <==> v in row || v == b;
  }

  /** The later statements that depend on statement a, each of which gains one in-degree. */
  method BuildRow(groups: seq<Stmt>, a: nat, inDegree: array<nat>) returns (row: seq<nat>)
    requires a < |groups| && inDegree.Length == |groups|
    modifies inDegree
    ensures IsRow(groups, a, row, |groups|)
    ensures forall v :: 0 <= v < |groups| ==>
              inDegree[v] == old(inDegree[v]) + if a < v && Depends(groups[a], groups[v]) then 1 else 0
  {
    row := [];
    for b := a + 1 to |groups|
      invariant IsRow(groups, a, row, b)
      invariant forall v :: 0 <= v < |groups| ==>
                  inDegree[v] == old(inDegree[v]) + if a < v < b && Depends(groups[a], groups[v]) then 1 else 0
    {
      var dep := false;
      if groups[a].written != "" && groups[a].written in groups[b].uses {
        dep := true;
      }
      if groups[b].written != "" && groups[b].written in groups[a].uses {
        dep := true;
      }
      if groups[a].written != "" && groups[a].written == groups[b].written {
        dep := true;
      }
      RowGrows(groups, a, row, b);
      if dep {
        row := row + [b];
        inDegree[b] := inDegree[b] + 1;
      }
    }
  }

  /** The dependence graph: successors and in-degrees. */
  method BuildGraph(groups: seq<Stmt>) returns (adj: seq<seq<nat>>, inDegree: array<nat>)
    ensures |adj| == |groups| && forall a :: 0 <= a < |groups| ==> IsRow(groups, a, adj[a], |groups|)
    ensures inDegree.Length == |groups| && fresh(inDegree)
    ensures forall v :: 0 <= v < |groups| ==> inDegree[v] == Blockers(groups, UpTo(|groups|), v)
  {
    adj := [];
    inDegree := new nat[|groups|](_ => 0);
    for a := 0 to |groups|
      invariant |adj| == a && forall u :: 0 <= u < a ==> IsRow(groups, u, adj[u], |groups|)
      invariant forall v :: 0 <= v < |groups| ==> inDegree[v] == Blockers(groups, UpTo(a), v)
    {
      var row := BuildRow(groups, a, inDegree);
      forall v | 0 <= v < |groups| {
        BlockersUpTo(groups, a, v);
      }
      adj := adj + [row];
    }
  }

  /** Everything that depends on a waiting statement is waiting. */
  ghost predicate Closed(l: seq<Stmt>, rem: seq<nat>)
    requires Waiting(l, rem)
  {
    forall p, v :: 0 <= p < |rem| && rem[p] < v < |l| && Depends(l[rem[p]], l[v]) ==> v in rem
  }

  /** Of the statements after u, those that depend on it and have not been released yet. */
  ghost function Pending(row: seq<nat>, t: nat, v: nat): nat
    requires t <= |row|
  {
    if v in row[t..] then 1 else 0
  }

  lemma {:induction false} PendingStep(l: seq<Stmt>, u: nat, row: seq<nat>, t: nat, v: nat)
    requires u < |l| && IsRow(l, u, row, |l|) && t < |row|
    ensures Pending(row, t, v) == if v == row[t] then 1 else Pending(row, t + 1, v)
    ensures v == row[t] ==> Pending(row, t + 1, v) == 0
  {
    assert row[t..] == [row[t]] + row[t + 1..];
  }

  lemma {:induction false} WithoutMembers(rem: seq<nat>, p: nat)
    requires p < |rem| && forall p, q :: 0 <= p < q < |rem| ==> rem[p] < rem[q]
    ensures forall v :: v in Without(rem, p) <==> v in rem && v != rem[p]
  {
    forall v | v in rem && v != rem[p]
      ensures v in Without(rem, p)
    {
      var q :| 0 <= q < |rem| && rem[q] == v;
      assert Without(rem, p)[if q < p then q else q - 1] == v;
    }
  }

  /** Before the emitted statement's row is processed, each in-degree still counts it. */
  lemma {:induction false} ReleaseStart(l: seq<Stmt>, rem: seq<nat>, p: nat, row: seq<nat>)
    requires Waiting(l, rem) && Closed(l, rem) && p < |rem| && IsRow(l, rem[p], row, |l|)
    ensures Waiting(l, Without(rem, p))
    ensures forall v :: v in Without(rem, p) ==> Blockers(l, rem, v) == Blockers(l, Without(rem, p), v) + Pending(row, 0, v)
    ensures forall t :: 0 <= t < |row| ==> row[t] in Without(rem, p)
  {
    WithoutMembers(rem, p);
    assert row[0..] == row;
    forall v | v in Without(rem, p)
      ensures Blockers(l, rem, v) == Blockers(l, Without(rem, p), v) + Pending(row, 0, v)
    {
      BlockersWithout(l, rem, p, v);
    }
  }

  /** Lowers the in-degrees of the statements that depended on the emitted one, and readies those
      that drop to zero. */
  method Release(groups: seq<Stmt>, ghost u: nat, row: seq<nat>, inDegree: array<nat>, ghost left: seq<nat>, ready0: set<nat>)
    returns (ready: set<nat>)
    requires u < |groups| && IsRow(groups, u, row, |groups|) && Waiting(groups, left)
    requires forall t :: 0 <= t < |row| ==> row[t] in left
    requires inDegree.Length == |groups|
    requires forall v :: v in left ==> inDegree[v] == Blockers(groups, left, v) + Pending(row, 0, v)
    requires forall v :: v in ready0 <==> v in left && inDegree[v] == 0
    modifies inDegree
    ensures forall v :: v in left ==> inDegree[v] == Blockers(groups, left, v)
    ensures ReadySet(groups, left, ready)
  {
    ready := ready0;
    for t := 0 to |row|
      invariant forall v :: v in left ==> inDegree[v] == Blockers(groups, left, v) + Pending(row, t, v)
      invariant forall v :: v in ready <==> v in left && inDegree[v] == 0
    {
      var v := row[t];
      forall w {
        PendingStep(groups, u, row, t, w);
      }
      inDegree[v] := inDegree[v] - 1;
      if inDegree[v] == 0 {
        ready := ready + {v};
      }
    }
  }

  lemma {:induction false} ClosedWithout(l: seq<Stmt>, rem: seq<nat>, p: nat)
    requires Waiting(l, rem) && Closed(l, rem) && p < |rem| && Blockers(l, rem, rem[p]) == 0
    ensures Waiting(l, Without(rem, p)) && Closed(l, Without(rem, p))
  {
    var left := Without(rem, p);
    WithoutMembers(rem, p);
    BlockersZero(l, rem, rem[p]);
    forall q, v | 0 <= q < |left| && left[q] < v < |l| && Depends(l[left[q]], l[v])
      ensures v in left
    {
      assert left[q] == rem[if q < p then q else q + 1];
    }
  }

  lemma {:induction false} EmittedOrder(l: seq<Stmt>, order: seq<nat>, u: nat, rem: seq<nat>, p: nat)
    requires forall q :: 0 <= q < |rem| ==> rem[q] < |l|
    requires forall q :: 0 <= q < |order| ==> order[q] < |l|
    requires p < |rem| && u == rem[p] && p == Pick(At(l, rem))
    ensures At(l, order + [u]) + Canon(At(l, Without(rem, p))) == At(l, order) + Canon(At(l, rem))
  {
    var canon := Canon(At(l, Without(rem, p)));
    assert At(l, Without(rem, p)) == Without(At(l, rem), p);
    assert Canon(At(l, rem)) == [l[u]] + canon;
    assert At(l, order + [u]) == At(l, order) + [l[u]];
    Moving(At(l, order), l[u], canon, Canon(At(l, rem)));
  }

  /** What holds between two rounds: `rem` still waits, in-degrees count its blockers, and the ready
      set holds its unblocked members. */
  ghost predicate Round(groups: seq<Stmt>, rem: seq<nat>, inDegree: array<nat>, ready: set<nat>)
    reads inDegree
  {
    && inDegree.Length == |groups|
    && Waiting(groups, rem) && Closed(groups, rem) && ReadySet(groups, rem, ready)
    && forall v :: v in rem ==> inDegree[v] == Blockers(groups, rem, v)
  }

  method FirstReady(groups: seq<Stmt>, inDegree: array<nat>) returns (ready: set<nat>)
    requires inDegree.Length == |groups|
    requires forall v :: 0 <= v < |groups| ==> inDegree[v] == Blockers(groups, UpTo(|groups|), v)
    ensures Round(groups, UpTo(|groups|), inDegree, ready)
  {
    ready := {};
    for i := 0 to |groups|
      invariant forall v :: v in ready <==> 0 <= v < i && inDegree[v] == 0
    {
      if inDegree[i] == 0 {
        ready := ready + {i};
      }
    }
    UpToMembers(|groups|);
  }

  /** Takes the front of the ready set and releases what depended on it. */
  method TakeLeast(groups: seq<Stmt>, adj: seq<seq<nat>>, inDegree: array<nat>, ghost rem: seq<nat>, ready0: set<nat>)
    returns (u: nat, ready: set<nat>)
    requires Round(groups, rem, inDegree, ready0) && ready0 != {}
    requires |adj| == |groups| && forall a :: 0 <= a < |groups| ==> IsRow(groups, a, adj[a], |groups|)
    modifies inDegree
    ensures rem != [] && u == rem[Pick(At(groups, rem))]
    ensures Round(groups, Without(rem, Pick(At(groups, rem))), inDegree, ready)
  {
    ghost var p := LeastIsPick(groups, rem, ready0);
    u :| Least(groups, ready0, u);
    LeastUnique(groups, ready0, u, rem[p]);
    ReleaseStart(groups, rem, p, adj[u]);
    WithoutMembers(rem, p);
    ClosedWithout(groups, rem, p);
    ready := Release(groups, u, adj[u], inDegree, Without(rem, p), ready0 - {u});
  }

  /** What was taken was taken in its turn, and the others are left. */
  ghost predicate InTurn(l: seq<Stmt>, order: seq<nat>, rem: seq<nat>)
  {
    (forall k {:trigger NextAt(l, order, k)} :: 0 <= k < |order| ==> NextAt(l, order, k))
    && forall v: nat :: v in rem <==> v < |l| && v !in order
  }

  lemma {:induction false} OneMoreTurn(l: seq<Stmt>, order: seq<nat>, rem: seq<nat>, p: nat)
    requires InTurn(l, order, rem) && Waiting(l, rem) && rem != [] && p == Pick(At(l, rem))
    ensures InTurn(l, order + [rem[p]], Without(rem, p))
  {
    var more := order + [rem[p]];
    PickIsNext(l, order, rem, p);
    WithoutMembers(rem, p);
    forall k | 0 <= k < |more|
      ensures NextAt(l, more, k)
    {
      if k < |order| {
        assert NextAt(l, order, k);
        assert more[..k] == order[..k];
      } else {
        assert more[..k] == order;
      }
    }
  }

  lemma {:induction false} PickIsNext(l: seq<Stmt>, order: seq<nat>, rem: seq<nat>, p: nat)
    requires Waiting(l, rem) && rem != [] && p == Pick(At(l, rem))
    requires forall v: nat :: v in rem <==> v < |l| && v !in order
    ensures TakenNext(l, order, rem[p])
  {
    WaitsIffNotReady(l, order, rem, p);
    forall v: nat | v < |l| && v !in order && v != rem[p] && !Waits(l, order, v)
      ensures Earlier(l[rem[p]].key, l[v].key) || (l[rem[p]].key == l[v].key && rem[p] < v)
    {
      assert v in rem;
      var q :| 0 <= q < |rem| && rem[q] == v;
      WaitsIffNotReady(l, order, rem, q);
      assert Before(At(l, rem), p, q);
      LessIff(l[rem[p]].key, l[v].key);
    }
  }

  lemma {:induction false} WaitsIffNotReady(l: seq<Stmt>, order: seq<nat>, rem: seq<nat>, p: nat)
    requires Waiting(l, rem) && p < |rem| && forall v: nat :: v in rem <==> v < |l| && v !in order
    ensures Waits(l, order, rem[p]) <==> !Ready(At(l, rem), p)
  {
    if Waits(l, order, rem[p]) {
      var u: nat :| u < rem[p] && u !in order && Depends(l[u], l[rem[p]]);
      assert u in rem;
      var q :| 0 <= q < |rem| && rem[q] == u;
      assert q < p && At(l, rem)[q] == l[u];
    }
    if !Ready(At(l, rem), p) {
      var q :| 0 <= q < p && Depends(At(l, rem)[q], At(l, rem)[p]);
      assert rem[q] in rem && rem[q] < rem[p];
    }
  }

  method KahnOrder(groups: seq<Stmt>) returns (sortedOrder: seq<nat>)
    ensures forall p :: 0 <= p < |sortedOrder| ==> sortedOrder[p] < |groups|
    ensures At(groups, sortedOrder) == Canon(groups) && Canonical(groups, sortedOrder)
  {
    var adj, inDegree := BuildGraph(groups);
    var ready := FirstReady(groups, inDegree);
    sortedOrder := [];
    ghost var rem := UpTo(|groups|);
    assert At(groups, rem) == groups;
    UpToMembers(|groups|);
    while ready != {}
      invariant fresh(inDegree) && Round(groups, rem, inDegree, ready)
      invariant forall p :: 0 <= p < |sortedOrder| ==> sortedOrder[p] < |groups|
      invariant At(groups, sortedOrder) + Canon(At(groups, rem)) == Canon(groups)
      invariant InTurn(groups, sortedOrder, rem)
      decreases |rem|
    {
      var u;
      u, ready := TakeLeast(groups, adj, inDegree, rem, ready);
      EmittedOrder(groups, sortedOrder, u, rem, Pick(At(groups, rem)));
      OneMoreTurn(groups, sortedOrder, rem, Pick(At(groups, rem)));
      sortedOrder := sortedOrder + [u];
      rem := Without(rem, Pick(At(groups, rem)));
    }
    if rem != [] {
      var p := LeastIsPick(groups, rem, ready);
    }
  }

  // ---------- the pass in place ----------

  method ExtractRefs(lines: seq<Line>) returns (writeVar: string, readVars: set<string>)
    ensures writeVar == WriteOf(lines) && readVars == UsesOf(lines)
    ensures writeVar == "" <==> forall k :: 0 <= k < |lines| ==> !NamedRef(lines[k])
    ensures forall k: nat :: NamedFirst(lines, k) ==> writeVar == lines[k].ref
    ensures forall x :: x in readVars <==> x != writeVar && exists line :: line in lines && NamedRef(line) && line.ref == x
  {
    var firstRef := true;
    writeVar, readVars := "", {};
    for i := 0 to |lines|
      invariant writeVar == WriteOf(lines[..i]) && (firstRef <==> writeVar == "")
      invariant readVars == UsesOf(lines[..i])
    {
      assert lines[..i + 1] == lines[..i] + [lines[i]];
      WriteOfConcat(lines[..i], [lines[i]]);
      WriteOfEmpty(lines[..i]);
      if lines[i].typ == "ref" {
        var name := lines[i].ref;
        if name == "" {
          continue;
        }
        if firstRef {
          writeVar := name;
          firstRef := false;
        } else if name != writeVar {
          readVars := readVars + {name};
        }
      }
    }
    assert lines[..|lines|] == lines;
    WriteOfEmpty(lines);
    forall k: nat | NamedFirst(lines, k)
      ensures writeVar == lines[k].ref
    {
      WriteOfIs(lines, k);
    }
  }

  /** The name on the first `ref` line of a block after its first line. */
  method FirstRefOf(block: seq<Line>) returns (name: string)
    requires block != []
    ensures name == FirstRef(block[1..])
    ensures forall k: nat :: RefFirst(block[1..], k) ==> name == block[k + 1].ref
    ensures name != "" ==> exists k: nat :: RefFirst(block[1..], k)
  {
    forall k: nat | RefFirst(block[1..], k)
      ensures FirstRef(block[1..]) == block[k + 1].ref
    {
      FirstRefIs(block[1..], k);
    }
    for li := 1 to |block|
      invariant FirstRef(block[1..]) == FirstRef(block[li..])
      invariant forall j :: 1 <= j < li ==> block[j].typ != "ref"
    {
      if block[li].typ == "ref" {
        assert RefFirst(block[1..], li - 1);
        return block[li].ref;
      }
    }
    return "";
  }

  /** Scans for the end of the scope and for the child subtrees. */
  method FindSubtrees(s: seq<Line>, stmtsIdx: nat) returns (scopeEnd: nat, starts: seq<nat>)
    requires stmtsIdx < |s|
    ensures scopeEnd == ScopeEnd(s, stmtsIdx + 1, s[stmtsIdx].depth)
    ensures starts == Starts(s, stmtsIdx + 1, scopeEnd, s[stmtsIdx].depth + 1)
  {
    scopeEnd := |s|;
    var i := stmtsIdx + 1;
    while i < |s|
      invariant stmtsIdx < i <= |s| && scopeEnd == |s|
      invariant ScopeEnd(s, i, s[stmtsIdx].depth) == ScopeEnd(s, stmtsIdx + 1, s[stmtsIdx].depth)
    {
      if s[i].depth <= s[stmtsIdx].depth {
        scopeEnd := i;
        break;
      }
      i := i + 1;
    }
    starts := [];
    for k := stmtsIdx + 1 to scopeEnd
      invariant starts == Starts(s, stmtsIdx + 1, k, s[stmtsIdx].depth + 1)
    {
      if s[k].depth == s[stmtsIdx].depth + 1 {
        starts := starts + [k];
      }
    }
  }

  method BuildGroups(s: seq<Line>, starts: seq<nat>, hi: nat) returns (groups: seq<Stmt>)
    requires Boundaries(s, starts, hi)
    ensures groups == GroupsFrom(s, starts, hi, 0)
  {
    groups := [];
    var si := 0;
    while si < |starts|
      invariant si <= |starts|
      invariant groups + GroupsFrom(s, starts, hi, si) == GroupsFrom(s, starts, hi, 0)
    {
      var g, next := NextGroup(s, starts, hi, si);
      Moving(groups, g, GroupsFrom(s, starts, hi, next), GroupsFrom(s, starts, hi, si));
      groups := groups + [g];
      si := next;
    }
  }

  /** One subtree, or two that match. */
  method NextGroup(s: seq<Line>, starts: seq<nat>, hi: nat, si: nat) returns (g: Stmt, after: nat)
    requires Boundaries(s, starts, hi) && si < |starts|
    ensures si < after <= |starts| && GroupsFrom(s, starts, hi, si) == [g] + GroupsFrom(s, starts, hi, after)
  {
    var block := s[starts[si]..BlockEnd(starts, hi, si)];
    var refSi := FirstRefOf(block);
    var lines;
    after, lines := si + 1, block;
    if s[starts[si]].typ == "attr_set" && si + 1 < |starts| {
      var next := s[starts[si + 1]..BlockEnd(starts, hi, si + 1)];
      var refNext := FirstRefOf(next);
      if s[starts[si + 1]].typ == "assign" && refSi == refNext {
        after, lines := si + 2, block + next;
      }
    }
    var writeVar, readVars := ExtractRefs(lines);
    g := Stmt(lines, writeVar, readVars, if writeVar == "" then refSi else writeVar);
  }

  lemma {:induction false} Moving<T>(done: seq<T>, g: T, later: seq<T>, rest: seq<T>)
    requires rest == [g] + later
    ensures done + rest == done + [g] + later
  {
  }

  method CollectLines(groups: seq<Stmt>, sortedOrder: seq<nat>) returns (sortedLines: seq<Line>)
    requires forall p :: 0 <= p < |sortedOrder| ==> sortedOrder[p] < |groups|
    ensures sortedLines == Flatten(At(groups, sortedOrder))
  {
    sortedLines := [];
    ghost var picked := At(groups, sortedOrder);
    for k := 0 to |sortedOrder|
      invariant sortedLines == Flatten(picked[..k])
    {
      assert picked[..k + 1] == picked[..k] + [picked[k]];
      FlattenConcat(picked[..k], [picked[k]]);
      sortedLines := sortedLines + groups[sortedOrder[k]].lines;
    }
    assert picked[..|sortedOrder|] == picked;
  }

  method WriteBack(lines: array<Line>, start: nat, sortedLines: seq<Line>)
    requires start + |sortedLines| <= lines.Length
    modifies lines
    ensures lines[..] == old(lines[..])[..start] + sortedLines + old(lines[..])[start + |sortedLines|..]
  {
    for i := 0 to |sortedLines|
      invariant forall k :: 0 <= k < lines.Length ==>
                  lines[k] == if start <= k < start + i then sortedLines[k - start] else old(lines[k])
    {
      lines[start + i] := sortedLines[i];
    }
  }

  lemma {:induction false} CanonOfFew(l: seq<Stmt>)
    requires |l| < 2
    ensures Canon(l) == l
  {
  }

  /** With fewer than two statements there is nothing to reorder. */
  lemma {:induction false} FewUnchanged(s: seq<Line>, idx: nat)
    requires idx < |s| && |Statements(s, idx)| < 2
    ensures Rewritten(s, idx) == s
  {
    StatementsCover(s, idx);
    CanonOfFew(Statements(s, idx));
    ThreeParts(s, FirstChild(s, idx), ScopeEnd(s, idx + 1, s[idx].depth));
  }

  lemma {:induction false} ThreeParts<T>(s: seq<T>, lo: nat, hi: nat)
    requires lo <= hi <= |s|
    ensures s == s[..lo] + s[lo..hi] + s[hi..]
  {
  }

  lemma {:induction false} GroupsAtMost(s: seq<Line>, starts: seq<nat>, hi: nat, j: nat)
    requires Boundaries(s, starts, hi)
    ensures |GroupsFrom(s, starts, hi, j)| <= if j < |starts| then |starts| - j else 0
    decreases |starts| - j
  {
    if j < |starts| {
      GroupsAtMost(s, starts, hi, j + 1);
      GroupsAtMost(s, starts, hi, j + 2);
    }
  }

  lemma {:induction false} RewrittenFrom(s: seq<Line>, idx: nat, hi: nat, starts: seq<nat>)
    requires idx < |s| && hi == ScopeEnd(s, idx + 1, s[idx].depth)
    requires starts == Starts(s, idx + 1, hi, s[idx].depth + 1)
    ensures Boundaries(s, starts, hi) && Statements(s, idx) == GroupsFrom(s, starts, hi, 0)
    ensures |Statements(s, idx)| <= |starts|
    ensures starts != [] ==>
              var m := Flatten(Canon(Statements(s, idx)));
              starts[0] + |m| == hi && Rewritten(s, idx) == s[..starts[0]] + m + s[hi..]
  {
    GroupsAtMost(s, starts, hi, 0);
    StatementsCover(s, idx);
    FlattenCanon(Statements(s, idx));
  }

  /** Reorders the statements of the scope opened by line stmtsIdx, in place. */
  method CanonicalizeOneStmts(lines: array<Line>, stmtsIdx: nat)
    requires stmtsIdx < lines.Length
    modifies lines
    ensures lines[..] == Rewritten(old(lines[..]), stmtsIdx)
  {
    var dump := lines[..];
    var start, sortedLines := SortScope(dump, stmtsIdx);
    if sortedLines.Some? {
      WriteBack(lines, start, sortedLines.value);
      assert lines[..] == dump[..start] + sortedLines.value + dump[start + |sortedLines.value|..];
    }
  }

  /** The lines of the scope in canonical order, unless there is nothing to reorder. */
  method SortScope(dump: seq<Line>, stmtsIdx: nat) returns (start: nat, sortedLines: Option<seq<Line>>)
    requires stmtsIdx < |dump|
    ensures if sortedLines == None then Rewritten(dump, stmtsIdx) == dump
            else var m := sortedLines.value;
                 start + |m| <= |dump| && Rewritten(dump, stmtsIdx) == dump[..start] + m + dump[start + |m|..]
  {
    var scopeEnd, starts := FindSubtrees(dump, stmtsIdx);
    RewrittenFrom(dump, stmtsIdx, scopeEnd, starts);
    if |starts| < 2 {
      FewUnchanged(dump, stmtsIdx);
      return 0, None;
    }
    var groups := BuildGroups(dump, starts, scopeEnd);
    if |groups| < 2 {
      FewUnchanged(dump, stmtsIdx);
      return 0, None;
    }
    var m := SortedLines(groups);
    start, sortedLines := starts[0], Some(m);
  }

  method SortedLines(groups: seq<Stmt>) returns (sortedLines: seq<Line>)
    ensures sortedLines == Flatten(Canon(groups))
  {
    var sortedOrder := KahnOrder(groups);
    sortedLines := CollectLines(groups, sortedOrder);
  }
}
