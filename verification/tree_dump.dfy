/**
 Writing a tree as text, one line a node, and reading it back. A character stands for a byte.
 */
module TreeDump {
  import opened ChunkTree
  import opened Options
  import opened Sequences

  // ---------- the drawing ----------

  const BAR: string := "\U{e2}\U{94}\U{82}   "
  const BLANK: string := "    "
  const TEE: string := "\U{e2}\U{94}\U{9c}\U{e2}\U{94}\U{80}\U{e2}\U{94}\U{80} "
  const CORNER: string := "\U{e2}\U{94}\U{94}\U{e2}\U{94}\U{80}\U{e2}\U{94}\U{80} "

  /** The three bytes of a code point in UTF-8, section 3 of RFC 3629. */
  function Utf8(c: nat): string
    requires 0x800 <= c < 0xd800
  {
    [(0xe0 + c / 0x1000) as char, (0x80 + c / 0x40 % 0x40) as char, (0x80 + c % 0x40) as char]
  }

  /** The light box-drawing characters: vertical, vertical and right, up and right, each branch with two horizontal ones. */
  lemma {:induction false} PiecesAreBoxes()
    ensures BAR == Utf8(0x2502) + "   " && |BLANK| == 4 && forall k :: 0 <= k < 4 ==> BLANK[k] == ' '
    ensures TEE == Utf8(0x251c) + Utf8(0x2500) + Utf8(0x2500) + " " && CORNER == Utf8(0x2514) + Utf8(0x2500) + Utf8(0x2500) + " "
  {
  }

  /** What the children of a node are indented by. */
  function Piece(last: bool): string
  {
    if last then BLANK else BAR
  }

  function Connector(last: bool): string
  {
    if last then CORNER else TEE
  }

  /** The indentation below ancestors that are, or are not, the last of their siblings. */
  function Prefix(lasts: seq<bool>): string
  {
    if lasts == [] then "" else Piece(lasts[0]) + Prefix(lasts[1..])
  }

  lemma {:induction false} PrefixSnoc(lasts: seq<bool>, last: bool)
    ensures Prefix(lasts + [last]) == Prefix(lasts) + Piece(last)
  {
    if lasts == [] {
      assert ([] + [last])[1..] == [];
      assert Piece(last) + "" == Piece(last);
      assert "" + Piece(last) == Piece(last);
    } else {
      assert (lasts + [last])[1..] == lasts[1..] + [last];
      PrefixSnoc(lasts[1..], last);
      Regroup(Piece(lasts[0]), Prefix(lasts[1..]), Piece(last));
    }
  }

  /** The text goes in quotes when it is not the name of the type. */
  function Content(name: string, text: string): string
  {
    if text == name then name else name + (" '" + text + "'")
  }

  function Line(lasts: seq<bool>, last: bool, name: string, text: string): string
  {
    Prefix(lasts) + (Connector(last) + Content(name, text))
  }

  // ---------- reading a line ----------

  predicate BranchAt(line: string, pos: nat)
  {
    pos + 9 < |line| && line[pos] == '\U{e2}' && line[pos + 1] == '\U{94}' && (line[pos + 2] == '\U{9c}' || line[pos + 2] == '\U{94}')
  }

  predicate BarAt(line: string, pos: nat)
  {
    pos + 5 < |line| && line[pos] == '\U{e2}' && line[pos + 1] == '\U{94}' && line[pos + 2] == '\U{82}'
  }

  predicate BlankAt(line: string, pos: nat)
  {
    pos + 3 < |line| && line[pos] == ' ' && line[pos + 1] == ' ' && line[pos + 2] == ' ' && line[pos + 3] == ' '
  }

  /** The pieces are told apart by their first characters, and need the room of a whole piece. */
  lemma {:induction false} PiecesTold(line: string, pos: nat)
    ensures BlankAt(line, pos) <==> pos + 4 <= |line| && line[pos..pos + 4] == "    "
    ensures BarAt(line, pos) <==> pos + 6 <= |line| && line[pos..pos + 3] == Utf8(0x2502)
    ensures BranchAt(line, pos) <==> pos + 10 <= |line| && (line[pos..pos + 3] == Utf8(0x251c) || line[pos..pos + 3] == Utf8(0x2514))
  {
    if pos + 4 <= |line| {
      FourChars(line[pos..pos + 4], ' ', ' ', ' ', ' ');
    }
    if pos + 6 <= |line| {
      ThreeChars(line[pos..pos + 3], Utf8(0x2502));
      ThreeChars(line[pos..pos + 3], Utf8(0x251c));
      ThreeChars(line[pos..pos + 3], Utf8(0x2514));
    }
  }

  lemma {:induction false} ThreeChars(s: string, t: string)
    requires |s| == 3 && |t| == 3
    ensures s == t <==> s[0] == t[0] && s[1] == t[1] && s[2] == t[2]
  {
  }

  lemma {:induction false} FourChars(s: string, a: char, b: char, c: char, d: char)
    requires |s| == 4
    ensures s == [a, b, c, d] <==> s[0] == a && s[1] == b && s[2] == c && s[3] == d
  {
  }

  /** The depth of a line and where its content starts. */
  function PrefixFrom(line: string, pos: nat, depth: nat): (nat, nat)
    decreases |line| - pos
  {
    if pos >= |line| then (depth, pos)
    else if BranchAt(line, pos) then (depth, pos + 10)
    else if BarAt(line, pos) then PrefixFrom(line, pos + 6, depth + 1)
    else if BlankAt(line, pos) then PrefixFrom(line, pos + 4, depth + 1)
    else (depth, pos)
  }

  method ParsePrefix(line: string) returns (depth: nat, pos: nat)
    ensures (depth, pos) == PrefixFrom(line, 0, 0)
  {
    depth, pos := 0, 0;
    while pos < |line|
      invariant PrefixFrom(line, pos, depth) == PrefixFrom(line, 0, 0)
      decreases |line| - pos
    {
      if BranchAt(line, pos) {
        pos := pos + 10;
        return;
      }
      if BarAt(line, pos) {
        depth, pos := depth + 1, pos + 6;
      } else if BlankAt(line, pos) {
        depth, pos := depth + 1, pos + 4;
      } else {
        break;
      }
    }
  }

  /** The drawing of a line is read off in full, whatever follows it. */
  lemma {:induction false} PrefixParses(line: string, before: string, lasts: seq<bool>, last: bool, content: string, depth: nat)
    requires line == before + (Prefix(lasts) + (Connector(last) + content))
    ensures PrefixFrom(line, |before|, depth) == (depth + |lasts|, |before| + |Prefix(lasts)| + 10)
    decreases |lasts|
  {
    var rest := Connector(last) + content;
    if lasts == [] {
      assert Prefix(lasts) + rest == rest;
      ConnectorAt(before, last, content);
    } else {
      var piece, more := Piece(lasts[0]), Prefix(lasts[1..]);
      JoinFour(before, piece, more, rest);
      PrefixParses(line, before + piece, lasts[1..], last, content, depth + 1);
      PieceRead(line, before, lasts[0], more + rest, depth);
      assert |before + piece| == |before| + |piece| && |Prefix(lasts)| == |piece| + |more|;
    }
  }

  lemma {:induction false} PieceRead(line: string, before: string, last: bool, rest: string, depth: nat)
    requires line == before + Piece(last) + rest && |rest| > 0
    ensures PrefixFrom(line, |before|, depth) == PrefixFrom(line, |before| + |Piece(last)|, depth + 1)
  {
    PieceAt(before, last, rest);
  }

  lemma {:induction false} ConnectorAt(before: string, last: bool, content: string)
    ensures BranchAt(before + (Connector(last) + content), |before|)
  {
    var line := before + (Connector(last) + content);
    assert line[|before|] == Connector(last)[0] && line[|before| + 1] == Connector(last)[1] && line[|before| + 2] == Connector(last)[2];
  }

  lemma {:induction false} JoinFour(a: string, b: string, c: string, d: string)
    ensures a + ((b + c) + d) == (a + b) + (c + d)
  {
  }

  lemma {:induction false} PieceAt(before: string, last: bool, rest: string)
    ensures
      var line := (before + Piece(last)) + rest;
      !BranchAt(line, |before|)
      && if last then !BarAt(line, |before|) && BlankAt(line, |before|) else BarAt(line, |before|)
  {
    var line := (before + Piece(last)) + rest;
    assert line[|before|] == Piece(last)[0] && line[|before| + 1] == Piece(last)[1];
    assert line[|before| + 2] == Piece(last)[2] && line[|before| + 3] == Piece(last)[3];
  }

  predicate Blank(c: char)
  {
    c == '\n' || c == '\r' || c == ' '
  }

  function TrimEnd(s: string): string
  {
    if s != "" && Blank(s[|s| - 1]) then TrimEnd(s[..|s| - 1]) else s
  }

  /** Only blanks and line ends go, and all of those at the end. */
  lemma {:induction false} TrimEndIs(s: string)
    ensures TrimEnd(s) <= s && forall k :: |TrimEnd(s)| <= k < |s| ==> s[k] == ' ' || s[k] == '\n' || s[k] == '\r'
    ensures TrimEnd(s) != "" ==> var c := TrimEnd(s)[|TrimEnd(s)| - 1]; c != ' ' && c != '\n' && c != '\r'
  {
    if s != "" && Blank(s[|s| - 1]) {
      TrimEndIs(s[..|s| - 1]);
    }
  }

  /** The part before the first such character, or all. */
  function UpTo(s: string, c: char): (r: string)
    ensures r <= s
  {
    if s == "" || s[0] == c then "" else [s[0]] + UpTo(s[1..], c)
  }

  function SkipSpaces(s: string): string
  {
    if s != "" && s[0] == ' ' then SkipSpaces(s[1..]) else s
  }

  /** The name of the type, and the text in quotes, if there is one. */
  datatype Parsed = Parsed(depth: nat, name: string, text: string)

  function ParseContent(content: string): (string, string)
  {
    var s := TrimEnd(content);
    var name := UpTo(s, ' ');
    var rest := SkipSpaces(s[|name|..]);
    (name, Quoted(rest))
  }

  method ParseLine(line: string) returns (p: Parsed)
    ensures p == LineParsed(line)
  {
    var depth, start := ParsePrefix(line);
    PrefixInside(line, 0, 0);
    var content := Trim(line[start..]);
    var pos := ScanTo(content, 0, ' ');
    var name := content[..pos];
    UpToScan(content, ' ', pos);
    pos := ScanSpaces(content, pos);
    var text := ParseQuoted(content, pos);
    p := Parsed(depth, name, text);
  }

  method Trim(content: string) returns (s: string)
    ensures s == TrimEnd(content)
  {
    var len: nat := |content|;
    assert content[..len] == content;
    while len > 0 && Blank(content[len - 1])
      invariant len <= |content| && TrimEnd(content[..len]) == TrimEnd(content)
      decreases len
    {
      assert content[..len][..len - 1] == content[..len - 1];
      len := len - 1;
    }
    s := content[..len];
  }

  method ParseQuoted(content: string, pos: nat) returns (text: string)
    requires pos <= |content|
    ensures text == Quoted(content[pos..])
  {
    if pos == |content| || content[pos] != '\'' {
      return "";
    }
    var end := ScanTo(content, pos + 1, '\'');
    text := content[pos + 1..end];
    var rest := content[pos + 1..];
    assert content[pos..][1..] == rest;
    assert rest[..end - (pos + 1)] == text;
    UpToScan(rest, '\'', end - (pos + 1));
  }

  function Quoted(rest: string): string
  {
    if rest != "" && rest[0] == '\'' then UpTo(rest[1..], '\'') else ""
  }

  function LineParsed(line: string): Parsed
  {
    var (depth, start) := PrefixFrom(line, 0, 0);
    var (name, text) := ParseContent(if start <= |line| then line[start..] else "");
    Parsed(depth, name, text)
  }

  lemma {:induction false} PrefixInside(line: string, pos: nat, depth: nat)
    requires pos <= |line|
    ensures PrefixFrom(line, pos, depth).1 <= |line|
    decreases |line| - pos
  {
    if pos < |line| && !BranchAt(line, pos) {
      if BarAt(line, pos) {
        PrefixInside(line, pos + 6, depth + 1);
      } else if BlankAt(line, pos) {
        PrefixInside(line, pos + 4, depth + 1);
      }
    }
  }

  method ScanTo(s: string, from: nat, c: char) returns (pos: nat)
    requires from <= |s|
    ensures from <= pos <= |s| && (pos < |s| ==> s[pos] == c) && forall k :: from <= k < pos ==> s[k] != c
  {
    pos := from;
    while pos < |s| && s[pos] != c
      invariant from <= pos <= |s| && forall k :: from <= k < pos ==> s[k] != c
    {
      pos := pos + 1;
    }
  }

  method ScanSpaces(s: string, from: nat) returns (pos: nat)
    requires from <= |s|
    ensures from <= pos <= |s| && s[pos..] == SkipSpaces(s[from..])
  {
    pos := from;
    while pos < |s| && s[pos] == ' '
      invariant from <= pos <= |s| && SkipSpaces(s[pos..]) == SkipSpaces(s[from..])
    {
      assert s[pos..][1..] == s[pos + 1..];
      pos := pos + 1;
    }
  }

  lemma {:induction false} UpToScan(s: string, c: char, pos: nat)
    requires pos <= |s| && (pos < |s| ==> s[pos] == c) && forall k :: 0 <= k < pos ==> s[k] != c
    ensures UpTo(s, c) == s[..pos]
  {
    if pos > 0 {
      UpToScan(s[1..], c, pos - 1);
      assert s[..pos] == [s[0]] + s[1..][..pos - 1];
    }
  }

  // ---------- one line, written and read ----------

  predicate Without(s: string, c: char)
  {
    forall k :: 0 <= k < |s| ==> s[k] != c
  }

  /** A type name that a line can carry. */
  predicate Name(name: string)
  {
    Without(name, ' ') && Without(name, '\n') && (name == "" || !Blank(name[|name| - 1]))
  }

  lemma {:induction false} UpToIs(a: string, c: char, rest: string)
    requires Without(a, c) && (rest == "" || rest[0] == c)
    ensures UpTo(a + rest, c) == a
  {
    UpToScan(a + rest, c, |a|);
    assert (a + rest)[..|a|] == a;
  }

  lemma {:induction false} ContentParses(name: string, text: string)
    requires Name(name)
    ensures ParseContent(Content(name, text)) == (name, if text == name then "" else UpTo(text + "'", '\''))
  {
    if text == name {
      BareParses(name);
    } else {
      QuotedParses(name, text);
    }
  }

  lemma {:induction false} BareParses(name: string)
    requires Name(name)
    ensures ParseContent(name) == (name, "")
  {
    assert TrimEnd(name) == name;
    assert name + "" == name;
    UpToIs(name, ' ', "");
    assert name[|name|..] == "";
  }

  lemma {:induction false} QuotedParses(name: string, text: string)
    requires Name(name)
    ensures ParseContent(name + (" '" + text + "'")) == (name, UpTo(text + "'", '\''))
  {
    var quoted := " '" + text + "'";
    var s := name + quoted;
    assert s[|s| - 1] == quoted[|quoted| - 1] == '\'';
    assert TrimEnd(s) == s;
    UpToIs(name, ' ', quoted);
    assert s[|name|..] == quoted;
    QuotedText(text);
  }

  lemma {:induction false} QuotedText(text: string)
    ensures Quoted(SkipSpaces(" '" + text + "'")) == UpTo(text + "'", '\'')
  {
    var quoted := " '" + text + "'";
    assert quoted[1..] == "'" + text + "'";
    assert SkipSpaces(quoted) == "'" + text + "'";
    assert ("'" + text + "'")[1..] == text + "'";
  }

  /** Within its line, a text comes back exactly when it is the name of the type, or is neither empty nor holds a quote. */
  lemma {:induction false} TextOfLine(name: string, text: string)
    requires Name(name)
    ensures
      var read := ParseContent(Content(name, text)).1;
      (if read == "" then name else read) == text <==> text == name || (text != "" && Without(text, '\''))
  {
    ContentParses(name, text);
    var t := UpTo(text + "'", '\'');
    if text != name {
      if Without(text, '\'') {
        UpToIs(text, '\'', "'");
      } else {
        var k :| 0 <= k < |text| && text[k] == '\'';
        UpToHasNone(text + "'", '\'');
        assert t != text;
      }
    }
  }

  lemma {:induction false} UpToHasNone(s: string, c: char)
    ensures Without(UpTo(s, c), c)
  {
    if s != "" && s[0] != c {
      UpToHasNone(s[1..], c);
    }
  }

  /** A line gives back its depth, its name, and its text. */
  lemma {:induction false} LineParses(lasts: seq<bool>, last: bool, name: string, text: string)
    requires Name(name)
    ensures LineParsed(Line(lasts, last, name, text)) ==
            Parsed(|lasts|, name, ParseContent(Content(name, text)).1)
  {
    ContentParses(name, text);
    ContentOfLine(lasts, last, Content(name, text));
  }

  lemma {:induction false} ContentOfLine(lasts: seq<bool>, last: bool, content: string)
    ensures
      var p := ParseContent(content);
      LineParsed(Prefix(lasts) + (Connector(last) + content)) == Parsed(|lasts|, p.0, p.1)
  {
    DrawingOfLine(lasts, last, content);
    ContentAt(lasts, last, content);
  }

  lemma {:induction false} DrawingOfLine(lasts: seq<bool>, last: bool, content: string)
    ensures PrefixFrom(Prefix(lasts) + (Connector(last) + content), 0, 0) == (|lasts|, |Prefix(lasts)| + 10)
  {
    var line := Prefix(lasts) + (Connector(last) + content);
    NothingBefore(line);
    PrefixParses(line, "", lasts, last, content, 0);
  }

  lemma {:induction false} ContentAt(lasts: seq<bool>, last: bool, content: string)
    ensures
      var line := Prefix(lasts) + (Connector(last) + content);
      |line| == |Prefix(lasts)| + 10 + |content| && line[|Prefix(lasts)| + 10..] == content
  {
    ConnectorSize(last);
    AfterTwo(Prefix(lasts), Connector(last), content);
  }

  lemma {:induction false} ConnectorSize(last: bool)
    ensures |Connector(last)| == 10
  {
  }

  lemma {:induction false} NothingBefore(s: string)
    ensures "" + s == s
  {
  }

  lemma {:induction false} AfterTwo(a: string, b: string, c: string)
    ensures |a + (b + c)| == |a| + |b| + |c| && (a + (b + c))[|a| + |b|..] == c
  {
  }

  // ---------- a tree as rows ----------

  datatype Label = Label(typ: nat, text: string)

  datatype Row = Row(depth: nat, what: Label)

  ghost predicate Labelled(s: Shape, n: nat, lab: map<Pos, Label>)
  {
    Bounded(s, n) && s.kids.Keys <= lab.Keys
  }

  /** The labels of a subtree, parents first, with their depths. */
  ghost function Listing(s: Shape, n: nat, lab: map<Pos, Label>, p: Pos, depth: nat): seq<Row>
    requires Labelled(s, n, lab) && p in s.kids
    decreases n - p.chunk, 1, 0
  {
    [Row(depth, lab[p])] + ListingFrom(s, n, lab, p, 0, depth + 1)
  }

  ghost function ListingFrom(s: Shape, n: nat, lab: map<Pos, Label>, p: Pos, i: nat, depth: nat): seq<Row>
    requires Labelled(s, n, lab) && p in s.kids
    decreases n - p.chunk, 0, |s.kids[p]| - i
  {
    if i >= |s.kids[p]| then []
    else
      assert KidFits(s, p, i);
      Listing(s, n, lab, s.kids[p][i], depth) + ListingFrom(s, n, lab, p, i + 1, depth)
  }

  /** Equal labels, and equally many children, in order. */
  ghost predicate SameTree(s: Shape, n: nat, lab: map<Pos, Label>, p: Pos, t: Shape, m: nat, lab2: map<Pos, Label>, q: Pos)
    requires Labelled(s, n, lab) && p in s.kids && Labelled(t, m, lab2) && q in t.kids
    decreases n - p.chunk
  {
    lab[p] == lab2[q] && |s.kids[p]| == |t.kids[q]|
    && forall i :: 0 <= i < |s.kids[p]| ==>
         (assert KidFits(s, p, i) && KidFits(t, q, i);
          SameTree(s, n, lab, s.kids[p][i], t, m, lab2, t.kids[q][i]))
  }

  /** Rows that do not go on below a depth. */
  predicate Leaves(rest: seq<Row>, depth: nat)
  {
    rest == [] || rest[0].depth < depth
  }

  lemma {:induction false} FirstRow(r: Row, a: seq<Row>, rest: seq<Row>)
    ensures ([r] + a) + rest == [r] + (a + rest) && (([r] + a) + rest)[0] == r && (([r] + a) + rest)[1..] == a + rest
  {
  }

  /** Rows determine the tree. */
  lemma {:induction false} ListingDetermines(s: Shape, n: nat, lab: map<Pos, Label>, p: Pos, t: Shape, m: nat, lab2: map<Pos, Label>, q: Pos,
                                             depth: nat, rest: seq<Row>, rest2: seq<Row>)
    requires Labelled(s, n, lab) && p in s.kids && Labelled(t, m, lab2) && q in t.kids
    requires Leaves(rest, depth + 1) && Leaves(rest2, depth + 1)
    requires Listing(s, n, lab, p, depth) + rest == Listing(t, m, lab2, q, depth) + rest2
    ensures SameTree(s, n, lab, p, t, m, lab2, q) && rest == rest2
    decreases n - p.chunk, 1, 0
  {
    var a, b := ListingFrom(s, n, lab, p, 0, depth + 1), ListingFrom(t, m, lab2, q, 0, depth + 1);
    FirstRow(Row(depth, lab[p]), a, rest);
    FirstRow(Row(depth, lab2[q]), b, rest2);
    KidsDetermine(s, n, lab, p, 0, t, m, lab2, q, depth + 1, rest, rest2);
  }

  lemma {:induction false} KidsDetermine(s: Shape, n: nat, lab: map<Pos, Label>, p: Pos, i: nat, t: Shape, m: nat, lab2: map<Pos, Label>, q: Pos,
                                         depth: nat, rest: seq<Row>, rest2: seq<Row>)
    requires Labelled(s, n, lab) && p in s.kids && Labelled(t, m, lab2) && q in t.kids && i <= |s.kids[p]| && i <= |t.kids[q]|
    requires Leaves(rest, depth) && Leaves(rest2, depth)
    requires ListingFrom(s, n, lab, p, i, depth) + rest == ListingFrom(t, m, lab2, q, i, depth) + rest2
    ensures |s.kids[p]| == |t.kids[q]| && rest == rest2
    ensures forall j :: i <= j < |s.kids[p]| ==>
              s.kids[p][j] in s.kids && t.kids[q][j] in t.kids && SameTree(s, n, lab, s.kids[p][j], t, m, lab2, t.kids[q][j])
    decreases n - p.chunk, 0, |s.kids[p]| - i
  {
    KidsShow(s, n, lab, p, i, depth, rest);
    KidsShow(t, m, lab2, q, i, depth, rest2);
    if i < |s.kids[p]| {
      var a, b := ListingFrom(s, n, lab, p, i + 1, depth), ListingFrom(t, m, lab2, q, i + 1, depth);
      assert KidFits(s, p, i) && KidFits(t, q, i);
      Regroup(Listing(s, n, lab, s.kids[p][i], depth), a, rest);
      Regroup(Listing(t, m, lab2, t.kids[q][i], depth), b, rest2);
      KidsLeave(s, n, lab, p, i + 1, depth, rest);
      KidsLeave(t, m, lab2, q, i + 1, depth, rest2);
      ListingDetermines(s, n, lab, s.kids[p][i], t, m, lab2, t.kids[q][i], depth, a + rest, b + rest2);
      KidsDetermine(s, n, lab, p, i + 1, t, m, lab2, q, depth, rest, rest2);
    }
  }

  /** The rows show whether there are further children. */
  lemma {:induction false} KidsShow(s: Shape, n: nat, lab: map<Pos, Label>, p: Pos, i: nat, depth: nat, rest: seq<Row>)
    requires Labelled(s, n, lab) && p in s.kids && i <= |s.kids[p]| && Leaves(rest, depth)
    ensures var all := ListingFrom(s, n, lab, p, i, depth) + rest; i < |s.kids[p]| <==> !Leaves(all, depth)
    ensures i == |s.kids[p]| ==> ListingFrom(s, n, lab, p, i, depth) + rest == rest
  {
    if i < |s.kids[p]| {
      KidRow(s, n, lab, p, i, depth, rest);
    } else {
      assert [] + rest == rest;
    }
  }

  /** A further child starts with a row of its depth. */
  lemma {:induction false} KidRow(s: Shape, n: nat, lab: map<Pos, Label>, p: Pos, i: nat, depth: nat, rest: seq<Row>)
    requires Labelled(s, n, lab) && p in s.kids && i < |s.kids[p]|
    ensures var all := ListingFrom(s, n, lab, p, i, depth) + rest; all != [] && all[0].depth == depth
  {
    assert KidFits(s, p, i);
  }

  lemma {:induction false} KidsLeave(s: Shape, n: nat, lab: map<Pos, Label>, p: Pos, i: nat, depth: nat, rest: seq<Row>)
    requires Labelled(s, n, lab) && p in s.kids && Leaves(rest, depth)
    ensures Leaves(ListingFrom(s, n, lab, p, i, depth) + rest, depth + 1)
  {
    if i < |s.kids[p]| {
      KidRow(s, n, lab, p, i, depth, rest);
    } else {
      assert [] + rest == rest;
    }
  }

  // ---------- a stream of lines ----------

  /** Every line ends with a newline. */
  function Stream(lines: seq<string>): string
  {
    if lines == [] then "" else lines[0] + "\n" + Stream(lines[1..])
  }

  /** The lines that are read from a stream one after the other. What follows the last newline is one more line
      unless it is empty. */
  function Split(s: string): seq<string>
    decreases |s|
  {
    if s == "" then []
    else
      var line := UpTo(s, '\n');
      if line == s then [line] else [line] + Split(s[|line| + 1..])
  }

  method GetLine(s: string, pos: nat) returns (line: string, next: nat)
    requires pos < |s|
    ensures pos < next <= |s| && Split(s[pos..]) == [line] + Split(s[next..])
  {
    var end := ScanTo(s, pos, '\n');
    line := s[pos..end];
    next := if end < |s| then end + 1 else end;
    ghost var rest := s[pos..];
    assert rest[..end - pos] == line;
    UpToScan(rest, '\n', end - pos);
    if end < |s| {
      assert rest[|line|] == '\n';
      assert rest[|line| + 1..] == s[next..];
    } else {
      assert rest == line && s[next..] == "";
    }
  }

  lemma {:induction false} StreamOne(line: string)
    ensures Stream([line]) == line + "\n"
  {
    assert [line][1..] == [];
  }

  lemma {:induction false} StreamJoin(a: seq<string>, b: seq<string>)
    ensures Stream(a + b) == Stream(a) + Stream(b)
  {
    if a == [] {
      assert a + b == b;
    } else {
      assert (a + b)[1..] == a[1..] + b;
      StreamJoin(a[1..], b);
      Regroup(a[0] + "\n", Stream(a[1..]), Stream(b));
    }
  }

  lemma {:induction false} SplitFirst(line: string, rest: string)
    requires Without(line, '\n')
    ensures Split(line + "\n" + rest) == [line] + Split(rest)
  {
    var s := line + "\n" + rest;
    assert s == line + ("\n" + rest);
    UpToIs(line, '\n', "\n" + rest);
    assert s[|line| + 1..] == rest;
    assert |s| > |line|;
  }

  /** The first line of a stream that holds a newline. */
  lemma {:induction false} CutFirst(s: string, k: nat) returns (line: string, rest: string)
    requires k < |s| && s[k] == '\n'
    ensures s == line + "\n" + rest && Without(line, '\n') && |line| <= k
  {
    line := UpTo(s, '\n');
    UpToHasNone(s, '\n');
    UpToShort(s, '\n', k);
    rest := s[|line| + 1..];
    assert s == s[..|line|] + [s[|line|]] + s[|line| + 1..];
  }

  lemma {:induction false} UpToShort(s: string, c: char, k: nat)
    requires k < |s| && s[k] == c
    ensures |UpTo(s, c)| <= k && s[|UpTo(s, c)|] == c
  {
    if s[0] != c {
      assert s[1..][k - 1] == c;
      UpToShort(s[1..], c, k - 1);
    }
  }

  /** A stream is cut at the end of any of its lines. */
  lemma {:induction false} SplitJoin(s: string, rest: string)
    requires s == "" || s[|s| - 1] == '\n'
    ensures Split(s + rest) == Split(s) + Split(rest)
    decreases |s|
  {
    if s == "" {
      assert s + rest == rest;
    } else {
      var line, more := CutFirst(s, |s| - 1);
      assert more != "" ==> more[|more| - 1] == s[|s| - 1];
      SplitJoin(more, rest);
      SplitFirst(line, more);
      SplitFirst(line, more + rest);
      Regroup(line + "\n", more, rest);
      Regroup([line], Split(more), Split(rest));
    }
  }

  lemma {:induction false} StreamEnds(lines: seq<string>)
    ensures Stream(lines) == "" || Stream(lines)[|Stream(lines)| - 1] == '\n'
  {
    if lines != [] {
      StreamEnds(lines[1..]);
      assert Stream(lines[1..]) == "" ==> Stream(lines) == lines[0] + "\n";
    }
  }

  lemma {:induction false} SplitHasNone(s: string, k: nat)
    requires k < |Split(s)|
    ensures Without(Split(s)[k], '\n')
    decreases |s|
  {
    UpToHasNone(s, '\n');
    if k > 0 {
      SplitHasNone(s[|UpTo(s, '\n')| + 1..], k - 1);
    }
  }

  /** Reading undoes writing exactly when no line holds a newline itself. */
  lemma {:induction false} SplitUndoesStream(lines: seq<string>)
    ensures Split(Stream(lines)) == lines <==> forall k :: 0 <= k < |lines| ==> Without(lines[k], '\n')
  {
    if forall k :: 0 <= k < |lines| ==> Without(lines[k], '\n') {
      if lines != [] {
        SplitUndoesStream(lines[1..]);
        SplitFirst(lines[0], Stream(lines[1..]));
      }
    } else if Split(Stream(lines)) == lines {
      var k :| 0 <= k < |lines| && !Without(lines[k], '\n');
      SplitHasNone(Stream(lines), k);
    }
  }

  // ---------- writing ----------

  /** The name of a type. */
  /** A type that the table does not list is shown as a question mark. */
  function NameOf(names: seq<string>, typ: nat): (name: string)
    ensures typ >= |names| ==> name == "?"
  {
    if typ < |names| then names[typ] else "?"
  }

  ghost function LinesOf(s: Shape, n: nat, lab: map<Pos, Label>, names: seq<string>, p: Pos, lasts: seq<bool>, last: bool): seq<string>
    requires Labelled(s, n, lab) && p in s.kids
    decreases n - p.chunk, 1, 0
  {
    [Line(lasts, last, NameOf(names, lab[p].typ), lab[p].text)] + LinesFrom(s, n, lab, names, p, 0, lasts + [last])
  }

  ghost function LinesFrom(s: Shape, n: nat, lab: map<Pos, Label>, names: seq<string>, p: Pos, i: nat, lasts: seq<bool>): seq<string>
    requires Labelled(s, n, lab) && p in s.kids
    decreases n - p.chunk, 0, |s.kids[p]| - i
  {
    if i >= |s.kids[p]| then []
    else
      assert KidFits(s, p, i);
      LinesOf(s, n, lab, names, s.kids[p][i], lasts, i == |s.kids[p]| - 1) + LinesFrom(s, n, lab, names, p, i + 1, lasts)
  }

  /** The children of a node, by their links. */
  method Children(store: Store, p: Pos) returns (l: seq<Pos>)
    requires store.Valid() && p in store.shape.kids
    ensures l == store.shape.kids[p]
  {
    LinksOf(store.chunks, store.shape, p);
    l := [];
    var c := store.chunks[p.chunk].first[p.off];
    ghost var kids := store.shape.kids[p];
    while c != NONE
      invariant |l| <= |kids| && l == kids[..|l|] && c == (if |l| < |kids| then kids[|l|] else NONE) && (c == NONE <==> |l| == |kids|)
      decreases |kids| - |l|
    {
      assert KidFits(store.shape, p, |l|);
      LinksOf(store.chunks, store.shape, c);
      l := l + [c];
      c := NextOf(store.chunks, c);
    }
  }

  /** What is written below a node: every line ends with a newline. */
  method WriteNode(store: Store, lab: map<Pos, Label>, names: seq<string>, p: Pos, prefix: string, last: bool, ghost lasts: seq<bool>, ghost n: nat)
    returns (out: string)
    requires store.Valid() && Labelled(store.shape, n, lab) && p in store.shape.kids && prefix == Prefix(lasts)
    ensures out == Stream(LinesOf(store.shape, n, lab, names, p, lasts, last))
    decreases n - p.chunk
  {
    var name := NameOf(names, lab[p].typ);
    ghost var line := Line(lasts, last, name, lab[p].text);
    out := prefix + (Connector(last) + Content(name, lab[p].text)) + "\n";
    var children := Children(store, p);
    PrefixSnoc(lasts, last);
    StreamOne(line);
    StreamJoin([line], LinesFrom(store.shape, n, lab, names, p, 0, lasts + [last]));
    for i := 0 to |children|
      invariant out + Stream(LinesFrom(store.shape, n, lab, names, p, i, lasts + [last])) == Stream(LinesOf(store.shape, n, lab, names, p, lasts, last))
    {
      assert KidFits(store.shape, p, i);
      var more := WriteNode(store, lab, names, children[i], prefix + Piece(last), i == |children| - 1, lasts + [last], n);
      ghost var below := LinesOf(store.shape, n, lab, names, children[i], lasts + [last], i == |children| - 1);
      StreamJoin(below, LinesFrom(store.shape, n, lab, names, p, i + 1, lasts + [last]));
      Regroup(out, more, Stream(LinesFrom(store.shape, n, lab, names, p, i + 1, lasts + [last])));
      out := out + more;
    }
    assert out + "" == out;
  }

  /** The name of the tree, and the nodes. */
  method WriteDump(store: Store, lab: map<Pos, Label>, names: seq<string>, title: string, ghost n: nat) returns (out: string)
    requires store.Valid() && Labelled(store.shape, n, lab) && ROOT in store.shape.kids
    ensures out == Stream([title] + LinesOf(store.shape, n, lab, names, ROOT, [], true))
  {
    var nodes := WriteNode(store, lab, names, ROOT, "", true, [], n);
    StreamOne(title);
    StreamJoin([title], LinesOf(store.shape, n, lab, names, ROOT, [], true));
    out := title + "\n" + nodes;
  }

  // ---------- what the drawing shows ----------

  /** A cell from which the drawing goes on below. */
  predicate GoesOn(cell: string)
  {
    cell == BAR || cell == TEE
  }

  /** A cell to which the drawing comes from above. */
  predicate ComesDown(cell: string)
  {
    cell == BAR || cell == TEE || cell == CORNER
  }

  function Joined(cells: seq<string>): string
  {
    if cells == [] then "" else cells[0] + Joined(cells[1..])
  }

  /** The line begins with these cells: bars or blanks, and a branch. */
  ghost predicate Drawn(line: string, cells: seq<string>)
  {
    cells != [] && Joined(cells) <= line && (cells[|cells| - 1] == TEE || cells[|cells| - 1] == CORNER)
    && forall c :: 0 <= c < |cells| - 1 ==> cells[c] == BAR || cells[c] == BLANK
  }

  /** Where the drawing of one line goes on below, that of the next comes from above, and nowhere else. */
  predicate Joint(a: seq<string>, b: seq<string>)
  {
    b != [] && |b| <= |a| + 1 && forall c :: 0 <= c < |a| ==> (GoesOn(a[c]) <==> c < |b| && ComesDown(b[c]))
  }

  ghost predicate Connected(rows: seq<seq<string>>)
  {
    forall j, k :: 0 <= j < |rows| && k == j + 1 && k < |rows| ==> Joint(rows[j], rows[k])
  }

  predicate Ended(row: seq<string>, from: nat)
  {
    forall c :: from <= c < |row| ==> !GoesOn(row[c])
  }

  function Pieces(lasts: seq<bool>): (r: seq<string>)
    ensures |r| == |lasts| && forall c :: 0 <= c < |r| ==> r[c] == Piece(lasts[c])
  {
    seq(|lasts|, c requires 0 <= c < |lasts| => Piece(lasts[c]))
  }

  function Cells(lasts: seq<bool>, last: bool): seq<string>
  {
    Pieces(lasts) + [Connector(last)]
  }

  /** The cells of the lines of a subtree. */
  ghost function CellsOf(s: Shape, n: nat, p: Pos, lasts: seq<bool>, last: bool): seq<seq<string>>
    requires Bounded(s, n) && p in s.kids
    decreases n - p.chunk, 1, 0
  {
    [Cells(lasts, last)] + CellsFrom(s, n, p, 0, lasts + [last])
  }

  ghost function CellsFrom(s: Shape, n: nat, p: Pos, i: nat, lasts: seq<bool>): seq<seq<string>>
    requires Bounded(s, n) && p in s.kids
    decreases n - p.chunk, 0, |s.kids[p]| - i
  {
    if i >= |s.kids[p]| then []
    else
      assert KidFits(s, p, i);
      CellsOf(s, n, s.kids[p][i], lasts, i == |s.kids[p]| - 1) + CellsFrom(s, n, p, i + 1, lasts)
  }

  lemma {:induction false} PrefixJoined(lasts: seq<bool>)
    ensures Joined(Pieces(lasts)) == Prefix(lasts)
  {
    if lasts != [] {
      assert Pieces(lasts)[1..] == Pieces(lasts[1..]);
      PrefixJoined(lasts[1..]);
    }
  }

  lemma {:induction false} JoinedSnoc(cells: seq<string>, cell: string)
    ensures Joined(cells + [cell]) == Joined(cells) + cell
  {
    if cells == [] {
      assert [cell][1..] == [];
      assert cell + "" == cell && "" + cell == cell;
    } else {
      assert (cells + [cell])[1..] == cells[1..] + [cell];
      JoinedSnoc(cells[1..], cell);
      Regroup(cells[0], Joined(cells[1..]), cell);
    }
  }

  lemma {:induction false} LineDrawn(lasts: seq<bool>, last: bool, name: string, text: string)
    ensures Drawn(Line(lasts, last, name, text), Cells(lasts, last))
  {
    PrefixJoined(lasts);
    JoinedSnoc(Pieces(lasts), Connector(last));
    Regroup(Prefix(lasts), Connector(last), Content(name, text));
  }

  ghost predicate AllDrawn(lines: seq<string>, rows: seq<seq<string>>)
  {
    |lines| == |rows| && forall k {:trigger Drawn(lines[k], rows[k])} :: 0 <= k < |lines| ==> Drawn(lines[k], rows[k])
  }

  lemma {:induction false} DrawnJoin(a: seq<string>, x: seq<seq<string>>, b: seq<string>, y: seq<seq<string>>)
    requires AllDrawn(a, x) && AllDrawn(b, y)
    ensures AllDrawn(a + b, x + y)
  {
    forall k | 0 <= k < |a + b|
      ensures Drawn((a + b)[k], (x + y)[k])
    {
      if k < |a| {
        assert Drawn(a[k], x[k]);
      } else {
        assert Drawn(b[k - |a|], y[k - |a|]);
      }
    }
  }

  lemma {:induction false} LinesDrawn(s: Shape, n: nat, lab: map<Pos, Label>, names: seq<string>, p: Pos, lasts: seq<bool>, last: bool)
    requires Labelled(s, n, lab) && p in s.kids
    ensures AllDrawn(LinesOf(s, n, lab, names, p, lasts, last), CellsOf(s, n, p, lasts, last))
    decreases n - p.chunk, 1, 0
  {
    var line := Line(lasts, last, NameOf(names, lab[p].typ), lab[p].text);
    LineDrawn(lasts, last, NameOf(names, lab[p].typ), lab[p].text);
    assert AllDrawn([line], [Cells(lasts, last)]);
    LinesFromDrawn(s, n, lab, names, p, 0, lasts + [last]);
    DrawnJoin([line], [Cells(lasts, last)], LinesFrom(s, n, lab, names, p, 0, lasts + [last]), CellsFrom(s, n, p, 0, lasts + [last]));
  }

  lemma {:induction false} LinesFromDrawn(s: Shape, n: nat, lab: map<Pos, Label>, names: seq<string>, p: Pos, i: nat, lasts: seq<bool>)
    requires Labelled(s, n, lab) && p in s.kids
    ensures AllDrawn(LinesFrom(s, n, lab, names, p, i, lasts), CellsFrom(s, n, p, i, lasts))
    decreases n - p.chunk, 0, |s.kids[p]| - i
  {
    if i < |s.kids[p]| {
      assert KidFits(s, p, i);
      var kid, last := s.kids[p][i], i == |s.kids[p]| - 1;
      LinesDrawn(s, n, lab, names, kid, lasts, last);
      LinesFromDrawn(s, n, lab, names, p, i + 1, lasts);
      DrawnJoin(LinesOf(s, n, lab, names, kid, lasts, last), CellsOf(s, n, kid, lasts, last),
                LinesFrom(s, n, lab, names, p, i + 1, lasts), CellsFrom(s, n, p, i + 1, lasts));
    }
  }

  /** The rows of one subtree: connected, and ended but for the branch to a next sibling. */
  ghost predicate Block(rows: seq<seq<string>>, lasts: seq<bool>, last: bool)
  {
    rows != [] && Connected(rows) && rows[0] == Cells(lasts, last) && BlockEnds(rows[|rows| - 1], lasts, last)
  }

  ghost predicate BlockEnds(row: seq<string>, lasts: seq<bool>, last: bool)
  {
    |row| > |lasts| && row[..|lasts|] == Pieces(lasts) && (GoesOn(row[|lasts|]) <==> !last) && Ended(row, |lasts| + 1)
  }

  /** The rows of the last of several siblings, or none. */
  ghost predicate Blocks(rows: seq<seq<string>>, lasts: seq<bool>)
  {
    rows != [] ==>
      Connected(rows) && (rows[0] == Cells(lasts, true) || rows[0] == Cells(lasts, false)) && BlockEnds(rows[|rows| - 1], lasts, true)
  }

  lemma {:induction false} ConnectedJoin(a: seq<seq<string>>, b: seq<seq<string>>)
    requires Connected(a) && Connected(b) && (a != [] && b != [] ==> Joint(a[|a| - 1], b[0]))
    ensures Connected(a + b)
  {
    var rows := a + b;
    forall j, k | 0 <= j < |rows| && k == j + 1 && k < |rows|
      ensures Joint(rows[j], rows[k])
    {
      if j >= |a| {
        assert rows[j] == b[j - |a|] && rows[k] == b[k - |a|];
      } else if k == |a| {
        assert rows[j] == a[|a| - 1] && rows[k] == b[0];
      }
    }
  }

  lemma {:induction false} PiecesJoint(last: bool)
    ensures GoesOn(Piece(last)) <==> ComesDown(Piece(last))
    ensures GoesOn(Piece(last)) <==> !last
    ensures GoesOn(Connector(last)) <==> !last
    ensures ComesDown(Connector(last))
  {
    assert BAR[0] != BLANK[0] && TEE[0] != BLANK[0] && CORNER[0] != BLANK[0];
    assert TEE[2] != CORNER[2] && BAR[2] != CORNER[2];
  }

  /** The last row of a sibling that is not the last, and the first row of the next. */
  lemma {:induction false} SiblingJoint(row: seq<string>, lasts: seq<bool>, last: bool)
    requires BlockEnds(row, lasts, false)
    ensures Joint(row, Cells(lasts, last))
  {
    var next := Cells(lasts, last);
    forall c | 0 <= c < |row|
      ensures GoesOn(row[c]) <==> c < |next| && ComesDown(next[c])
    {
      if c < |lasts| {
        assert row[c] == row[..|lasts|][c] == Piece(lasts[c]);
        PiecesJoint(lasts[c]);
      } else if c == |lasts| {
        PiecesJoint(last);
      }
    }
  }

  /** The row of a node, and that of its first child. */
  lemma {:induction false} ChildJoint(lasts: seq<bool>, last: bool, kid: bool)
    ensures Joint(Cells(lasts, last), Cells(lasts + [last], kid))
  {
    var row, next := Cells(lasts, last), Cells(lasts + [last], kid);
    forall c | 0 <= c < |row|
      ensures GoesOn(row[c]) <==> c < |next| && ComesDown(next[c])
    {
      PiecesJoint(if c < |lasts| then lasts[c] else last);
    }
  }

  lemma {:induction false} CellsConnect(s: Shape, n: nat, p: Pos, lasts: seq<bool>, last: bool)
    requires Bounded(s, n) && p in s.kids
    ensures Block(CellsOf(s, n, p, lasts, last), lasts, last)
    decreases n - p.chunk, 1, 0
  {
    SiblingsConnect(s, n, p, 0, lasts + [last]);
    NodeBlock(lasts, last, CellsFrom(s, n, p, 0, lasts + [last]));
  }

  lemma {:induction false} NodeBlock(lasts: seq<bool>, last: bool, below: seq<seq<string>>)
    requires Blocks(below, lasts + [last])
    ensures Block([Cells(lasts, last)] + below, lasts, last)
  {
    PiecesJoint(last);
    if below == [] {
      assert [Cells(lasts, last)] + below == [Cells(lasts, last)];
      assert Cells(lasts, last)[..|lasts|] == Pieces(lasts);
    } else {
      ChildJoint(lasts, last, true);
      ChildJoint(lasts, last, false);
      ConnectedJoin([Cells(lasts, last)], below);
      var end := below[|below| - 1];
      assert end[..|lasts| + 1] == Pieces(lasts + [last]);
      assert end[|lasts|] == end[..|lasts| + 1][|lasts|] == Piece(last);
      assert end[..|lasts|] == end[..|lasts| + 1][..|lasts|] == Pieces(lasts);
    }
  }

  lemma {:induction false} SiblingsConnect(s: Shape, n: nat, p: Pos, i: nat, lasts: seq<bool>)
    requires Bounded(s, n) && p in s.kids
    ensures Blocks(CellsFrom(s, n, p, i, lasts), lasts)
    ensures i < |s.kids[p]| ==> CellsFrom(s, n, p, i, lasts) != []
    decreases n - p.chunk, 0, |s.kids[p]| - i
  {
    if i < |s.kids[p]| {
      assert KidFits(s, p, i);
      var kid, last := s.kids[p][i], i == |s.kids[p]| - 1;
      CellsConnect(s, n, kid, lasts, last);
      SiblingsConnect(s, n, p, i + 1, lasts);
      SiblingBlocks(CellsOf(s, n, kid, lasts, last), CellsFrom(s, n, p, i + 1, lasts), lasts, last);
    }
  }

  lemma {:induction false} SiblingBlocks(first: seq<seq<string>>, rest: seq<seq<string>>, lasts: seq<bool>, last: bool)
    requires Block(first, lasts, last) && Blocks(rest, lasts) && (rest == [] <==> last)
    ensures Blocks(first + rest, lasts) && first + rest != []
  {
    if rest == [] {
      assert first + rest == first;
    } else {
      SiblingJoint(first[|first| - 1], lasts, true);
      SiblingJoint(first[|first| - 1], lasts, false);
      ConnectedJoin(first, rest);
    }
  }

  /** The lines of a tree are drawn connected: a branch or a bar goes on in the line below exactly where the drawing there comes from
      above, and nothing goes on below the last line. */
  lemma {:induction false} DrawingConnects(s: Shape, n: nat, lab: map<Pos, Label>, names: seq<string>)
    requires Labelled(s, n, lab) && ROOT in s.kids
    ensures
      var lines, rows := LinesOf(s, n, lab, names, ROOT, [], true), CellsOf(s, n, ROOT, [], true);
      rows != [] && AllDrawn(lines, rows) && Connected(rows) && Ended(rows[|rows| - 1], 0)
  {
    LinesDrawn(s, n, lab, names, ROOT, [], true);
    CellsConnect(s, n, ROOT, [], true);
  }

  // ---------- reading rows ----------

  function FindType(names: seq<string>, name: string, from: nat): nat
    decreases |names| - from
  {
    if from >= |names| then 0 else if names[from] == name then from else FindType(names, name, from + 1)
  }

  /** A type comes back exactly when no earlier one has its name. */
  lemma {:induction false} TypeComesBack(names: seq<string>, typ: nat, from: nat)
    requires from <= typ < |names|
    ensures FindType(names, names[typ], from) == typ <==> forall j :: from <= j < typ ==> names[j] != names[typ]
    decreases typ - from
  {
    if from < typ && names[from] != names[typ] {
      TypeComesBack(names, typ, from + 1);
    }
  }

  /** What the reader makes of a line. */
  function RowRead(names: seq<string>, line: string): Row
  {
    var p := LineParsed(line);
    Row(p.depth, Label(FindType(names, p.name, 0), if p.text == "" then p.name else p.text))
  }

  function RowsRead(names: seq<string>, lines: seq<string>): seq<Row>
  {
    if lines == [] then [] else (if lines[0] == "" then [] else [RowRead(names, lines[0])]) + RowsRead(names, lines[1..])
  }

  /** The rows that are read from the nodes of a stream. */
  function RowsIn(names: seq<string>, stream: string): seq<Row>
  {
    RowsRead(names, Split(stream))
  }

  /** A label whose type has a name that a line can carry. */
  predicate Typed(names: seq<string>, l: Label)
  {
    l.typ < |names| && Name(names[l.typ])
  }

  /** A text that a line can carry beside the name of its type. */
  predicate Carries(name: string, text: string)
  {
    text == name || (text != "" && Without(text, '\'') && Without(text, '\n'))
  }

  /** A label that survives a dump. */
  predicate Carried(names: seq<string>, l: Label)
  {
    Typed(names, l) && (forall j :: 0 <= j < l.typ ==> names[j] != names[l.typ]) && Carries(names[l.typ], l.text)
  }

  predicate RowsCarried(names: seq<string>, rows: seq<Row>)
  {
    forall k :: 0 <= k < |rows| ==> Carried(names, rows[k].what)
  }

  predicate AllTyped(s: Shape, lab: map<Pos, Label>, names: seq<string>)
  {
    forall x {:trigger lab[x]} :: x in s.kids && x in lab ==> Typed(names, lab[x])
  }

  lemma {:induction false} RowsJoin(names: seq<string>, a: seq<string>, b: seq<string>)
    ensures RowsRead(names, a + b) == RowsRead(names, a) + RowsRead(names, b)
  {
    if a == [] {
      assert a + b == b;
    } else {
      assert (a + b)[1..] == a[1..] + b;
      RowsJoin(names, a[1..], b);
      var h: seq<Row> := if a[0] == "" then [] else [RowRead(names, a[0])];
      Regroup(h, RowsRead(names, a[1..]), RowsRead(names, b));
    }
  }

  lemma {:induction false} RowsInJoin(names: seq<string>, a: seq<string>, b: seq<string>)
    ensures RowsIn(names, Stream(a + b)) == RowsIn(names, Stream(a)) + RowsIn(names, Stream(b))
  {
    StreamJoin(a, b);
    StreamEnds(a);
    SplitJoin(Stream(a), Stream(b));
    RowsJoin(names, Split(Stream(a)), Split(Stream(b)));
  }

  lemma {:induction false} RowsFirst(names: seq<string>, line: string, rest: string)
    requires Without(line, '\n')
    ensures RowsIn(names, line + "\n" + rest) == (if line == "" then [] else [RowRead(names, line)]) + RowsIn(names, rest)
  {
    SplitFirst(line, rest);
    assert ([line] + Split(rest))[1..] == Split(rest);
  }

  /** Anything but newlines is read as some row. */
  lemma {:induction false} SomeRow(names: seq<string>, s: string, k: nat)
    requires k < |s| && s[k] != '\n'
    ensures RowsIn(names, s) != []
    decreases |s|
  {
    if j :| 0 <= j < |s| && s[j] == '\n' {
      var line, rest := CutFirst(s, j);
      RowsFirst(names, line, rest);
      if line == "" {
        assert k > 0 && rest[k - 1] == s[k];
        SomeRow(names, rest, k - 1);
      }
    } else {
      UpToScan(s, '\n', |s|);
    }
  }

  lemma {:induction false} WithoutJoin(a: string, b: string, c: char)
    ensures Without(a + b, c) <==> Without(a, c) && Without(b, c)
  {
    if Without(a + b, c) {
      assert forall k :: 0 <= k < |a| ==> a[k] == (a + b)[k];
      assert forall k :: 0 <= k < |b| ==> b[k] == (a + b)[|a| + k];
    }
  }

  lemma {:induction false} LineWithout(lasts: seq<bool>, last: bool, name: string, text: string)
    requires Without(name, '\n')
    ensures Without(Line(lasts, last, name, text), '\n') <==> text == name || Without(text, '\n')
  {
    PrefixWithout(lasts);
    WithoutJoin(Prefix(lasts), Connector(last) + Content(name, text), '\n');
    WithoutJoin(Connector(last), Content(name, text), '\n');
    if text != name {
      WithoutJoin(name, " '" + text + "'", '\n');
      WithoutJoin(" '" + text, "'", '\n');
      WithoutJoin(" '", text, '\n');
    }
  }

  lemma {:induction false} LineEnds(lasts: seq<bool>, last: bool, name: string, text: string)
    ensures var line := Line(lasts, last, name, text); line != "" && line[0] != '\n' && (text != name ==> line[|line| - 1] == '\'')
  {
    PrefixWithout(lasts);
    ConnectorSize(last);
    var content := Content(name, text);
    FirstAndLast(Prefix(lasts), Connector(last), content);
    if text != name {
      FirstAndLast(name, " '" + text, "'");
      Regroup(name, " '" + text, "'");
    }
  }

  lemma {:induction false} FirstAndLast(a: string, b: string, c: string)
    requires b != ""
    ensures var s := a + (b + c); s != "" && s[0] == (if a != "" then a[0] else b[0]) && (c != "" ==> s[|s| - 1] == c[|c| - 1])
  {
  }

  lemma {:induction false} PrefixWithout(lasts: seq<bool>)
    ensures Without(Prefix(lasts), '\n')
  {
    if lasts != [] {
      PrefixWithout(lasts[1..]);
    }
  }

  /** Every label is read back from its line, as its row and nothing else, exactly when it is one that survives. */
  lemma {:induction false} LabelComesBack(names: seq<string>, lasts: seq<bool>, last: bool, l: Label)
    requires Typed(names, l)
    ensures
      var rows := RowsIn(names, Stream([Line(lasts, last, NameOf(names, l.typ), l.text)]));
      |rows| >= 1 && (rows == [Row(|lasts|, l)] <==> Carried(names, l))
  {
    StreamOne(Line(lasts, last, names[l.typ], l.text));
    TextComesBack(names, lasts, last, names[l.typ], l.text);
    TypeComesBack(names, l.typ, 0);
  }

  /** A text is read back from the stream, beside no other row, exactly when it is the name of the type, or is not empty and
      holds neither a quote nor a newline. */
  lemma {:induction false} TextComesBack(names: seq<string>, lasts: seq<bool>, last: bool, name: string, text: string)
    requires Name(name)
    ensures
      var rows := RowsIn(names, Line(lasts, last, name, text) + "\n");
      |rows| >= 1 && (|rows| == 1 ==> rows[0].what.typ == FindType(names, name, 0))
      && (rows == [Row(|lasts|, Label(FindType(names, name, 0), text))] <==> Carries(name, text))
  {
    var line := Line(lasts, last, name, text);
    LineWithout(lasts, last, name, text);
    LineEnds(lasts, last, name, text);
    if Without(line, '\n') {
      WholeLine(names, line);
      LineParses(lasts, last, name, text);
      TextOfLine(name, text);
    } else {
      BrokenLine(names, line);
    }
  }

  lemma {:induction false} WholeLine(names: seq<string>, line: string)
    requires Without(line, '\n') && line != ""
    ensures RowsIn(names, line + "\n") == [RowRead(names, line)]
  {
    assert line + "\n" + "" == line + "\n";
    RowsFirst(names, line, "");
  }

  /** A line with a newline inside is read as several rows. */
  lemma {:induction false} BrokenLine(names: seq<string>, line: string)
    requires !Without(line, '\n') && line[0] != '\n' && line[|line| - 1] != '\n'
    ensures |RowsIn(names, line + "\n")| >= 2
  {
    var j :| 0 <= j < |line| && line[j] == '\n';
    var first, rest := CutFirst(line, j);
    assert line + "\n" == first + "\n" + (rest + "\n");
    RowsFirst(names, first, rest + "\n");
    assert first == "" ==> line == "\n" + rest;
    assert rest == "" ==> line == first + "\n";
    assert (rest + "\n")[|rest| - 1] == rest[|rest| - 1] == line[|line| - 1];
    SomeRow(names, rest + "\n", |rest| - 1);
  }

  /** A text with a newline: its first part stays, and the second becomes a node at the top. */
  lemma {:induction false} NewlineSplitsNode()
    ensures RowsIn(["n"], Line([], true, "n", "a\nb") + "\n") == [Row(0, Label(0, "a")), Row(0, Label(0, "b'"))]
  {
    var first := Prefix([]) + (Connector(true) + "n 'a");
    assert Content("n", "a\nb") == "n 'a" + "\n" + "b'";
    BrokenInTwo(Prefix([]), Connector(true), "n 'a", "b'");
    ConnectorWithout();
    RowsFirst(["n"], first, "b'" + "\n");
    WholeLine(["n"], "b'");
    OpenQuote();
    SpuriousRow();
  }

  lemma {:induction false} BrokenInTwo(a: string, b: string, c: string, d: string)
    ensures (a + (b + (c + "\n" + d))) + "\n" == (a + (b + c)) + "\n" + (d + "\n")
  {
  }

  lemma {:induction false} ConnectorWithout()
    ensures var first := Prefix([]) + (Connector(true) + "n 'a"); first != "" && Without(first, '\n')
  {
  }

  lemma {:induction false} OpenQuote()
    ensures RowRead(["n"], Prefix([]) + (Connector(true) + "n 'a")) == Row(0, Label(0, "a"))
  {
    ContentOfLine([], true, "n 'a");
    UpToScan("n 'a", ' ', 1);
    UpToScan("a", '\'', 1);
    assert "n 'a"[..1] == "n" && "a"[..1] == "a";
    assert "n 'a"[1..] == " 'a" && " 'a"[1..] == "'a" && "'a"[1..] == "a";
    assert SkipSpaces(" 'a") == SkipSpaces("'a") == "'a";
    assert ParseContent("n 'a") == ("n", "a");
  }

  lemma {:induction false} SpuriousRow()
    ensures RowRead(["n"], "b'") == Row(0, Label(0, "b'"))
  {
    UpToScan("b'", ' ', 2);
    assert "b'"[0..] == "b'" && "b'"[..2] == "b'" && "b'"[2..] == "";
    assert ParseContent("b'") == ("b'", "");
    assert PrefixFrom("b'", 0, 0) == (0, 0);
    assert FindType(["n"], "b'", 0) == FindType(["n"], "b'", 1) == 0;
  }

  /** A way of reading lines that takes them one by one. */
  ghost predicate LineByLine(read: seq<string> -> seq<Row>, names: seq<string>)
  {
    read([]) == [] && (forall a, b {:trigger Joins(read, a, b)} :: Joins(read, a, b))
    && forall lasts, last, l {:trigger ReadsLabel(read, names, lasts, last, l)} :: Typed(names, l) ==> ReadsLabel(read, names, lasts, last, l)
  }

  predicate Joins(read: seq<string> -> seq<Row>, a: seq<string>, b: seq<string>)
  {
    read(a + b) == read(a) + read(b)
  }

  predicate ReadsLabel(read: seq<string> -> seq<Row>, names: seq<string>, lasts: seq<bool>, last: bool, l: Label)
  {
    var rows := read([Line(lasts, last, NameOf(names, l.typ), l.text)]);
    |rows| >= 1 && (rows == [Row(|lasts|, l)] <==> Carried(names, l))
  }

  lemma {:induction false} ReadsLineByLine(names: seq<string>)
    ensures LineByLine((l: seq<string>) => RowsIn(names, Stream(l)), names)
  {
    var read := (l: seq<string>) => RowsIn(names, Stream(l));
    forall a, b
      ensures Joins(read, a, b)
    {
      RowsInJoin(names, a, b);
    }
    forall lasts, last, l | Typed(names, l)
      ensures ReadsLabel(read, names, lasts, last, l)
    {
      LabelComesBack(names, lasts, last, l);
    }
  }

  lemma {:induction false} JoinedAlike(a: seq<Row>, a2: seq<Row>, b: seq<Row>, b2: seq<Row>)
    requires |a| >= |a2| && |b| >= |b2|
    ensures a + b == a2 + b2 <==> a == a2 && b == b2
  {
    if a + b == a2 + b2 {
      assert |a| == |a2|;
      assert a == (a + b)[..|a|] && a2 == (a2 + b2)[..|a|];
      assert b == (a + b)[|a|..] && b2 == (a2 + b2)[|a|..];
    }
  }

  lemma {:induction false} CarriedJoin(names: seq<string>, a: seq<Row>, b: seq<Row>)
    ensures RowsCarried(names, a + b) <==> RowsCarried(names, a) && RowsCarried(names, b)
  {
    if RowsCarried(names, a + b) {
      assert forall k :: 0 <= k < |a| ==> a[k] == (a + b)[k];
      assert forall k :: 0 <= k < |b| ==> b[k] == (a + b)[|a| + k];
    }
  }

  /** The lines are read as these rows, or as more, exactly when the rows survive. */
  ghost predicate ReadAs(read: seq<string> -> seq<Row>, names: seq<string>, lines: seq<string>, rows: seq<Row>)
  {
    |read(lines)| >= |rows| && (read(lines) == rows <==> RowsCarried(names, rows))
  }

  lemma {:induction false} ReadTogether(read: seq<string> -> seq<Row>, names: seq<string>, a: seq<string>, rows: seq<Row>, b: seq<string>, more: seq<Row>)
    requires Joins(read, a, b) && ReadAs(read, names, a, rows) && ReadAs(read, names, b, more)
    ensures ReadAs(read, names, a + b, rows + more)
  {
    JoinedAlike(read(a), rows, read(b), more);
    CarriedJoin(names, rows, more);
  }

  /** A line before others. */
  lemma {:induction false} ReadsFirst(read: seq<string> -> seq<Row>, names: seq<string>, lasts: seq<bool>, last: bool, l: Label, more: seq<string>, rows: seq<Row>)
    requires LineByLine(read, names) && Typed(names, l) && ReadAs(read, names, more, rows)
    ensures ReadAs(read, names, [Line(lasts, last, NameOf(names, l.typ), l.text)] + more, [Row(|lasts|, l)] + rows)
  {
    var line, row := [Line(lasts, last, NameOf(names, l.typ), l.text)], [Row(|lasts|, l)];
    assert ReadsLabel(read, names, lasts, last, l) && Joins(read, line, more);
    assert RowsCarried(names, row) <==> Carried(names, row[0].what);
    ReadTogether(read, names, line, row, more, rows);
  }

  lemma {:induction false} ReadsAll(read: seq<string> -> seq<Row>, names: seq<string>, a: seq<string>, rows: seq<Row>, b: seq<string>, more: seq<Row>)
    requires LineByLine(read, names) && ReadAs(read, names, a, rows) && ReadAs(read, names, b, more)
    ensures ReadAs(read, names, a + b, rows + more)
  {
    assert Joins(read, a, b);
    ReadTogether(read, names, a, rows, b, more);
  }

  /** What is read from the lines of a subtree is its listing exactly when every label of it survives. */
  lemma {:induction false} DumpIsListing(s: Shape, n: nat, lab: map<Pos, Label>, names: seq<string>, p: Pos, lasts: seq<bool>, last: bool,
                                         read: seq<string> -> seq<Row>)
    requires Labelled(s, n, lab) && p in s.kids && AllTyped(s, lab, names) && LineByLine(read, names)
    ensures
      var rows, listing := read(LinesOf(s, n, lab, names, p, lasts, last)), Listing(s, n, lab, p, |lasts|);
      |rows| >= |listing| && (rows == listing <==> RowsCarried(names, listing))
    decreases n - p.chunk, 1, 0
  {
    DumpsAreListings(s, n, lab, names, p, 0, lasts + [last], read);
    assert Typed(names, lab[p]);
    ReadsFirst(read, names, lasts, last, lab[p], LinesFrom(s, n, lab, names, p, 0, lasts + [last]), ListingFrom(s, n, lab, p, 0, |lasts| + 1));
  }

  lemma {:induction false} DumpsAreListings(s: Shape, n: nat, lab: map<Pos, Label>, names: seq<string>, p: Pos, i: nat, lasts: seq<bool>,
                                            read: seq<string> -> seq<Row>)
    requires Labelled(s, n, lab) && p in s.kids && AllTyped(s, lab, names) && LineByLine(read, names)
    ensures ReadAs(read, names, LinesFrom(s, n, lab, names, p, i, lasts), ListingFrom(s, n, lab, p, i, |lasts|))
    decreases n - p.chunk, 0, |s.kids[p]| - i
  {
    if i < |s.kids[p]| {
      assert KidFits(s, p, i);
      var kid, last := s.kids[p][i], i == |s.kids[p]| - 1;
      var lines, more := LinesOf(s, n, lab, names, kid, lasts, last), LinesFrom(s, n, lab, names, p, i + 1, lasts);
      DumpIsListing(s, n, lab, names, kid, lasts, last, read);
      DumpsAreListings(s, n, lab, names, p, i + 1, lasts, read);
      ReadsAll(read, names, lines, Listing(s, n, lab, kid, |lasts|), more, ListingFrom(s, n, lab, p, i + 1, |lasts|));
    }
  }

  // ---------- growing at the right edge ----------

  /** The nodes from the root to the one that came last. */
  ghost predicate RightEdge(s: Shape, stack: seq<Pos>)
  {
    stack != [] && stack[0] == ROOT && (forall i :: 0 <= i < |stack| ==> stack[i] in s.kids)
    && forall i {:trigger EdgeLink(s, stack, i)} :: 0 <= i < |stack| ==> EdgeLink(s, stack, i)
  }

  predicate EdgeLink(s: Shape, stack: seq<Pos>, i: int)
    requires 0 <= i < |stack|
  {
    i + 1 < |stack| ==> stack[i] in s.kids && s.kids[stack[i]] != [] && stack[i + 1] == LastOf(s.kids[stack[i]])
  }

  lemma {:induction false} EdgeStep(s: Shape, stack: seq<Pos>, i: nat)
    requires ShapeFits(s) && RightEdge(s, stack) && i + 1 < |stack|
    ensures
      var l := s.kids[stack[i]];
      l != [] && stack[i + 1] == l[|l| - 1] && KidFits(s, stack[i], |l| - 1) && NodeFits(s, stack[i + 1])
  {
    assert EdgeLink(s, stack, i);
    assert KidFits(s, stack[i], |s.kids[stack[i]]| - 1);
    assert NodeFits(s, stack[i + 1]);
  }

  lemma {:induction false} EdgeIsUnder(s: Shape, stack: seq<Pos>, i: nat, k: nat)
    requires ShapeFits(s) && RightEdge(s, stack) && i <= k < |stack|
    ensures Under(s, stack[i], stack[k])
    decreases k
  {
    if i < k {
      EdgeStep(s, stack, k - 1);
      EdgeIsUnder(s, stack, i, k - 1);
    }
  }

  /** Two siblings have no common descendant. */
  lemma {:induction false} SiblingsApart(s: Shape, p: Pos, i: nat, j: nat, q: Pos)
    requires ShapeFits(s) && p in s.kids && i < |s.kids[p]| && j < |s.kids[p]| && i != j
    requires Under(s, s.kids[p][i], q) && Under(s, s.kids[p][j], q)
    ensures false
    decreases q.chunk
  {
    assert KidFits(s, p, i) && KidFits(s, p, j);
    var a, b := s.kids[p][i], s.kids[p][j];
    if q == a {
      UnderIsLater(s, b, q);
      NotUnderKid(s, p, j);
    } else if q == b {
      UnderIsLater(s, a, q);
      NotUnderKid(s, p, i);
    } else {
      SiblingsApart(s, p, i, j, s.par[q]);
    }
  }

  lemma {:induction false} NotUnderKid(s: Shape, p: Pos, i: nat)
    requires ShapeFits(s) && p in s.kids && i < |s.kids[p]|
    ensures !Under(s, s.kids[p][i], p)
  {
    assert KidFits(s, p, i);
    if Under(s, s.kids[p][i], p) {
      UnderIsLater(s, s.kids[p][i], p);
    }
  }

  /** A subtree that the parent is not part of does not change. */
  lemma {:induction false} ElsewhereSame(s: Shape, n: nat, lab: map<Pos, Label>, p: Pos, q: Pos, l: Label, x: Pos, depth: nat)
    requires Labelled(s, n, lab) && p in s.kids && q !in s.kids && p.chunk < q.chunk < n && q != ROOT && x in s.kids && !Under(s, x, p)
    ensures Labelled(Grown(s, p, q), n, lab[q := l])
    ensures Listing(Grown(s, p, q), n, lab[q := l], x, depth) == Listing(s, n, lab, x, depth)
    decreases n - x.chunk, 1, 0
  {
    GrownFits(s, p, q);
    assert x != p;
    ElsewhereKids(s, n, lab, p, q, l, x, 0, depth + 1);
  }

  lemma {:induction false} ElsewhereKids(s: Shape, n: nat, lab: map<Pos, Label>, p: Pos, q: Pos, l: Label, x: Pos, i: nat, depth: nat)
    requires Labelled(s, n, lab) && p in s.kids && q !in s.kids && p.chunk < q.chunk < n && q != ROOT && x in s.kids && !Under(s, x, p) && x != p
    ensures Labelled(Grown(s, p, q), n, lab[q := l])
    ensures ListingFrom(Grown(s, p, q), n, lab[q := l], x, i, depth) == ListingFrom(s, n, lab, x, i, depth)
    decreases n - x.chunk, 0, |s.kids[x]| - i
  {
    GrownFits(s, p, q);
    if i < |s.kids[x]| {
      KidNotAbove(s, x, i, p);
      ElsewhereSame(s, n, lab, p, q, l, s.kids[x][i], depth);
      ElsewhereKids(s, n, lab, p, q, l, x, i + 1, depth);
    }
  }

  lemma {:induction false} KidNotAbove(s: Shape, x: Pos, i: nat, p: Pos)
    requires ShapeFits(s) && x in s.kids && i < |s.kids[x]| && !Under(s, x, p)
    ensures KidFits(s, x, i) && !Under(s, s.kids[x][i], p)
  {
    assert KidFits(s, x, i);
    if Under(s, s.kids[x][i], p) {
      UnderUp(s, x, i, p);
    }
  }

  lemma {:induction false} UnderUp(s: Shape, x: Pos, i: nat, p: Pos)
    requires ShapeFits(s) && x in s.kids && i < |s.kids[x]| && s.kids[x][i] in s.kids && Under(s, s.kids[x][i], p)
    ensures Under(s, x, p)
    decreases p.chunk
  {
    assert KidFits(s, x, i);
    if p == s.kids[x][i] {
      assert NodeFits(s, p);
    } else {
      UnderIsLater(s, s.kids[x][i], p);
      UnderUp(s, x, i, s.par[p]);
    }
  }

  /** The children of the parent itself: the new one comes last. */
  lemma {:induction false} GrownKids(s: Shape, n: nat, lab: map<Pos, Label>, p: Pos, q: Pos, l: Label, i: nat, depth: nat)
    requires Labelled(s, n, lab) && p in s.kids && q !in s.kids && p.chunk < q.chunk < n && q != ROOT && i <= |s.kids[p]|
    ensures Labelled(Grown(s, p, q), n, lab[q := l])
    ensures ListingFrom(Grown(s, p, q), n, lab[q := l], p, i, depth) == ListingFrom(s, n, lab, p, i, depth) + [Row(depth, l)]
    decreases |s.kids[p]| - i
  {
    GrownFits(s, p, q);
    var t, lab2 := Grown(s, p, q), lab[q := l];
    assert KidFits(t, p, i);
    if i < |s.kids[p]| {
      assert KidFits(s, p, i);
      NotUnderKid(s, p, i);
      ElsewhereSame(s, n, lab, p, q, l, s.kids[p][i], depth);
      GrownKids(s, n, lab, p, q, l, i + 1, depth);
      Regroup(Listing(s, n, lab, s.kids[p][i], depth), ListingFrom(s, n, lab, p, i + 1, depth), [Row(depth, l)]);
    } else {
      assert t.kids[p][i] == q && t.kids[q] == [];
      assert ListingFrom(t, n, lab2, q, 0, depth + 1) == [];
      assert ListingFrom(t, n, lab2, p, i + 1, depth) == [];
      assert [Row(depth, l)] + [] + [] == [Row(depth, l)];
      assert [] + [Row(depth, l)] == [Row(depth, l)];
    }
  }

  /** A last child of a node on the right edge adds one row at the end. */
  lemma {:induction false} EdgeGrows(s: Shape, n: nat, lab: map<Pos, Label>, stack: seq<Pos>, i: nat, k: nat, q: Pos, l: Label)
    requires Labelled(s, n, lab) && RightEdge(s, stack) && i <= k < |stack|
    requires q !in s.kids && stack[k].chunk < q.chunk < n && q != ROOT
    ensures Labelled(Grown(s, stack[k], q), n, lab[q := l])
    ensures Listing(Grown(s, stack[k], q), n, lab[q := l], stack[i], i) == Listing(s, n, lab, stack[i], i) + [Row(k + 1, l)]
    decreases k - i, 1, 0
  {
    var p, x := stack[k], stack[i];
    GrownFits(s, p, q);
    if i == k {
      GrownKids(s, n, lab, p, q, l, 0, k + 1);
    } else {
      EdgeStep(s, stack, i);
      EdgeKids(s, n, lab, stack, i, k, q, l, 0);
    }
    Regroup([Row(i, lab[x])], ListingFrom(s, n, lab, x, 0, i + 1), [Row(k + 1, l)]);
  }

  lemma {:induction false} EdgeKids(s: Shape, n: nat, lab: map<Pos, Label>, stack: seq<Pos>, i: nat, k: nat, q: Pos, l: Label, j: nat)
    requires Labelled(s, n, lab) && RightEdge(s, stack) && i < k < |stack| && j < |s.kids[stack[i]]|
    requires q !in s.kids && stack[k].chunk < q.chunk < n && q != ROOT
    ensures Labelled(Grown(s, stack[k], q), n, lab[q := l])
    ensures ListingFrom(Grown(s, stack[k], q), n, lab[q := l], stack[i], j, i + 1) == ListingFrom(s, n, lab, stack[i], j, i + 1) + [Row(k + 1, l)]
    decreases k - i, 0, |s.kids[stack[i]]| - j
  {
    var p, x := stack[k], stack[i];
    GrownFits(s, p, q);
    EdgeApart(s, stack, i, k);
    var t, lab2 := Grown(s, p, q), lab[q := l];
    assert KidFits(s, x, j) && KidFits(t, x, j);
    if j == |s.kids[x]| - 1 {
      EdgeStep(s, stack, i);
      EdgeGrows(s, n, lab, stack, i + 1, k, q, l);
      NoMoreKids(t, n, lab2, x, j + 1, i + 1);
      NoMoreKids(s, n, lab, x, j + 1, i + 1);
    } else {
      NotAboveEdge(s, stack, i, k, j);
      ElsewhereSame(s, n, lab, p, q, l, s.kids[x][j], i + 1);
      EdgeKids(s, n, lab, stack, i, k, q, l, j + 1);
      Regroup(Listing(s, n, lab, s.kids[x][j], i + 1), ListingFrom(s, n, lab, x, j + 1, i + 1), [Row(k + 1, l)]);
    }
  }

  /** Of the children of a node on the edge, only the last is above what comes later on the edge. */
  lemma {:induction false} NotAboveEdge(s: Shape, stack: seq<Pos>, i: nat, k: nat, j: nat)
    requires ShapeFits(s) && RightEdge(s, stack) && i < k < |stack| && j + 1 < |s.kids[stack[i]]|
    ensures KidFits(s, stack[i], j) && !Under(s, s.kids[stack[i]][j], stack[k])
  {
    var x := stack[i];
    EdgeStep(s, stack, i);
    EdgeIsUnder(s, stack, i + 1, k);
    assert KidFits(s, x, j);
    if Under(s, s.kids[x][j], stack[k]) {
      SiblingsApart(s, x, j, |s.kids[x]| - 1, stack[k]);
    }
  }

  lemma {:induction false} NoMoreKids(s: Shape, n: nat, lab: map<Pos, Label>, x: Pos, j: nat, depth: nat)
    requires Labelled(s, n, lab) && x in s.kids && j == |s.kids[x]| && j > 0
    ensures s.kids[x][j - 1] in s.kids
    ensures ListingFrom(s, n, lab, x, j - 1, depth) == Listing(s, n, lab, s.kids[x][j - 1], depth)
  {
    assert KidFits(s, x, j - 1);
    var a := Listing(s, n, lab, s.kids[x][j - 1], depth);
    assert ListingFrom(s, n, lab, x, j, depth) == [];
    assert a + [] == a;
  }

  lemma {:induction false} EdgeApart(s: Shape, stack: seq<Pos>, i: nat, k: nat)
    requires ShapeFits(s) && RightEdge(s, stack) && i < k < |stack|
    ensures stack[k] != stack[i]
  {
    EdgeStep(s, stack, i);
    EdgeIsUnder(s, stack, i + 1, k);
    if stack[k] != stack[i + 1] {
      UnderIsLater(s, stack[i + 1], stack[k]);
    }
  }

  // ---------- reading a dump ----------

  /** The rows of one tree: every row but the first is at most one deeper than the row before it. */
  ghost predicate Nested(rows: seq<Row>)
  {
    rows != [] && rows[0].depth == 0 && forall j {:trigger NextRow(rows, j)} :: 0 <= j < |rows| ==> NextRow(rows, j)
  }

  predicate NextRow(rows: seq<Row>, j: int)
    requires 0 <= j < |rows|
  {
    j + 1 < |rows| ==> 1 <= rows[j + 1].depth <= rows[j].depth + 1
  }

  /** The stack holds the last node of every depth. */
  ghost predicate StackFits(s: Shape, stack: seq<Pos>)
  {
    (stack == [] <==> s.kids == map[]) && forall i :: 0 <= i < |stack| ==> stack[i] == NONE || stack[i] in s.kids
  }

  /** The tree read so far. */
  ghost predicate ReadSoFar(s: Shape, chunks: nat, n: nat, lab: map<Pos, Label>, stack: seq<Pos>, done: seq<Row>)
  {
    if done == [] then stack == []
    else RightEdge(s, stack) && Labelled(s, n, lab) && chunks <= |done| + 1 && |stack| == done[|done| - 1].depth + 1
         && Listing(s, n, lab, ROOT, 0) == done
  }

  /** Shortens or lengthens a stack. */
  function Resized(stack: seq<Pos>, size: nat): seq<Pos>
  {
    if size <= |stack| then stack[..size] else stack + seq(size - |stack|, _ => NONE)
  }

  class DumpReader {
    const store: Store
    var labels: map<Pos, Label>
    var stack: seq<Pos>

    ghost predicate Valid()
      reads this, store
    {
      store.Valid() && StackFits(store.shape, stack) && (store.chunks == [] <==> store.shape.kids == map[])
      && forall p :: p in store.shape.kids ==> p in labels
    }

    ghost predicate Reads(n: nat, done: seq<Row>)
      reads this, store
    {
      ReadSoFar(store.shape, |store.chunks|, n, labels, stack, done)
    }

    constructor ()
      ensures Valid() && fresh(this) && fresh(store) && stack == [] && labels == map[] && store.shape.kids == map[]
    {
      store := new Store();
      labels, stack := map[], [];
    }

    /** Adds the node of a row: the root, or a child of the last node one level up. */
    method AddRow(r: Row, ghost n: nat, ghost done: seq<Row>) returns (ok: bool)
      requires Valid()
      modifies this, store
      ensures ok ==> Valid()
      ensures old(Reads(n, done)) && Nested(done + [r]) && |done| + 2 <= n ==> ok && Reads(n, done + [r])
      ensures old(Reads(n, done)) && done != [] && ok ==> Nested(done + [r])
    {
      if stack == [] {
        ok := AddFirst(r, n, done);
        return;
      }
      FitsBelow(store.shape, |store.chunks|, n, labels, stack, done, r);
      NotFirst(store.shape, |store.chunks|, n, labels, stack, done, r);
      if r.depth == 0 || |stack| <= r.depth - 1 || stack[r.depth - 1] == NONE {
        return false;
      }
      AddBelow(r, n, done);
      ok := true;
    }

    method AddBelow(r: Row, ghost n: nat, ghost done: seq<Row>)
      requires Valid() && stack != [] && 0 < r.depth <= |stack| && stack[r.depth - 1] != NONE
      modifies this, store
      ensures Valid()
      ensures old(ReadSoFar(store.shape, |store.chunks|, n, labels, stack, done)) && Nested(done + [r]) && |done| + 2 <= n ==>
                ReadSoFar(store.shape, |store.chunks|, n, labels, stack, done + [r])
    {
      var p := stack[r.depth - 1];
      ghost var s, chunks0, lab0, stack0 := store.shape, |store.chunks|, labels, stack;
      var q := store.AddChild(p);
      LiveAfter(store.chunks, store.shape, q);
      labels := labels[q := r.what];
      stack := Resized(stack, r.depth) + [q];
      if ReadSoFar(s, chunks0, n, lab0, stack0, done) && Nested(done + [r]) && |done| + 2 <= n {
        RowGrows(s, chunks0, n, lab0, stack0, done, r, q, |store.chunks|);
      }
    }

    method AddFirst(r: Row, ghost n: nat, ghost done: seq<Row>) returns (ok: bool)
      requires Valid() && stack == []
      modifies this, store
      ensures ok && Valid()
      ensures done == [] && Nested(done + [r]) && 2 <= n ==>
                ReadSoFar(store.shape, |store.chunks|, n, labels, stack, done + [r])
      ensures stack != []
    {
      var q := store.AddRoot();
      labels := labels[q := r.what];
      stack := Resized([], r.depth) + [q];
      ok := true;
      assert ROOT in store.shape.kids && stack[r.depth] == q;
      assert forall i :: 0 <= i < r.depth ==> stack[i] == NONE;
      if done == [] && Nested(done + [r]) && 2 <= n {
        StandsIsBounded(store.chunks, store.shape);
        assert ListingFrom(store.shape, n, labels, ROOT, 0, 1) == [];
        assert done + [r] == [r] && stack == [q];
      }
    }
  }

  lemma {:induction false} NotFirst(s: Shape, chunks: nat, n: nat, lab: map<Pos, Label>, stack: seq<Pos>, done: seq<Row>, r: Row)
    requires stack != []
    ensures ReadSoFar(s, chunks, n, lab, stack, done) && Nested(done + [r]) ==>
              done != [] && 1 <= r.depth <= |stack| && stack[r.depth - 1] in s.kids && stack[r.depth - 1] == (if r.depth - 1 == 0 then ROOT else stack[r.depth - 1])
    ensures ReadSoFar(s, chunks, n, lab, stack, done) && Nested(done + [r]) && ShapeFits(s) ==> stack[r.depth - 1] != NONE
  {
    if ReadSoFar(s, chunks, n, lab, stack, done) && Nested(done + [r]) {
      var rows := done + [r];
      assert rows[|done| - 1] == done[|done| - 1] && rows[|done|] == r;
      assert NextRow(rows, |done| - 1);
      if ShapeFits(s) && r.depth >= 2 {
        EdgeStep(s, stack, r.depth - 2);
      }
    }
  }

  /** A row that is at most one deeper than the one before, and not at the top, nests. */
  lemma {:induction false} FitsBelow(s: Shape, chunks: nat, n: nat, lab: map<Pos, Label>, stack: seq<Pos>, done: seq<Row>, r: Row)
    ensures ReadSoFar(s, chunks, n, lab, stack, done) && done != [] && 1 <= r.depth <= |stack| ==> Nested(done + [r])
  {
    if ReadSoFar(s, chunks, n, lab, stack, done) && done != [] && 1 <= r.depth <= |stack| {
      ListingRows(s, n, lab);
      NestedMore(done, r);
    }
  }

  lemma {:induction false} NestedMore(done: seq<Row>, r: Row)
    requires Nested(done) && 1 <= r.depth <= done[|done| - 1].depth + 1
    ensures Nested(done + [r])
  {
    var rows := done + [r];
    forall j | 0 <= j < |rows|
      ensures NextRow(rows, j)
    {
      if j + 1 < |done| {
        assert NextRow(done, j);
      }
    }
  }

  lemma {:induction false} LiveAfter(ch: seq<Chunk>, s: Shape, q: Pos)
    requires Stands(ch, s) && q in s.kids
    ensures q != NONE && q.chunk < |ch| && (q != ROOT ==> NodeFits(s, q))
  {
    LinksOf(ch, s, q);
  }

  lemma {:induction false} RowGrows(s: Shape, chunks: nat, n: nat, lab: map<Pos, Label>, stack: seq<Pos>, done: seq<Row>, r: Row, q: Pos, chunks2: nat)
    requires ReadSoFar(s, chunks, n, lab, stack, done) && done != [] && Nested(done + [r]) && |done| + 2 <= n
    requires 1 <= r.depth <= |stack| && q !in s.kids && stack[r.depth - 1].chunk < q.chunk < chunks2 && chunks2 <= chunks + 1 && q != ROOT
    ensures ReadSoFar(Grown(s, stack[r.depth - 1], q), chunks2, n, lab[q := r.what], Resized(stack, r.depth) + [q], done + [r])
  {
    var k := r.depth - 1;
    var t, edge := Grown(s, stack[k], q), Resized(stack, r.depth) + [q];
    EdgeGrows(s, n, lab, stack, 0, k, q, r.what);
    assert done + [r] == done + [Row(k + 1, r.what)];
    GrownEdge(s, stack, k, q);
  }

  lemma {:induction false} GrownEdge(s: Shape, stack: seq<Pos>, k: nat, q: Pos)
    requires ShapeFits(s) && RightEdge(s, stack) && k < |stack| && q !in s.kids
    ensures RightEdge(Grown(s, stack[k], q), stack[..k + 1] + [q])
  {
    var t, edge := Grown(s, stack[k], q), stack[..k + 1] + [q];
    forall i | 0 <= i < |edge|
      ensures edge[i] in t.kids && edge[i] == (if i <= k then stack[i] else q)
    {
    }
    assert t.kids[stack[k]] == s.kids[stack[k]] + [q];
    forall i | 0 <= i < |edge|
      ensures EdgeLink(t, edge, i)
    {
      if i < k {
        EdgeStep(s, stack, i);
        EdgeApart(s, stack, i, k);
        assert t.kids[edge[i]] == s.kids[stack[i]];
      }
    }
    assert edge[0] == ROOT && RightEdge(t, edge);
  }

  /** Without its first line. */
  function Tail(lines: seq<string>): seq<string>
  {
    if lines == [] then [] else lines[1..]
  }

  /** Reads a dump: the name of the tree, and the nodes. */
  method ReadDump(stream: string, names: seq<string>) returns (ok: bool, title: string, reader: DumpReader)
    ensures fresh(reader) && fresh(reader.store)
    ensures ok ==> reader.Valid()
    ensures title == if stream == "" then "" else TrimEnd(Split(stream)[0])
    ensures
      var rows := RowsRead(names, Tail(Split(stream)));
      Begun(rows) ==> if ok then reader.Reads(|rows| + 2, rows) && NestedSoFar(rows) else !NestedSoFar(rows)
  {
    reader := new DumpReader();
    title := "";
    ghost var rows := RowsRead(names, Tail(Split(stream)));
    ghost var done: seq<Row> := [];
    if stream == "" {
      return true, title, reader;
    }
    var line, pos := GetLine(stream, 0);
    assert stream[0..] == stream;
    assert ([line] + Split(stream[pos..]))[1..] == Split(stream[pos..]);
    title := Trim(line);
    assert done + rows == rows;
    while pos < |stream|
      invariant pos <= |stream|
      invariant fresh(reader) && fresh(reader.store) && reader.Valid()
      invariant rows == done + RowsRead(names, Split(stream[pos..]))
      invariant Begun(rows) ==> reader.Reads(|rows| + 2, done) && NestedSoFar(done)
      decreases |stream| - pos
    {
      var next;
      line, next := GetLine(stream, pos);
      var row := ParseLineAsRow(line, names);
      RowsNext(names, line, Split(stream[next..]));
      if row.Some? {
        RowFits(rows, done, row.value, RowsRead(names, Split(stream[next..])));
        var added := ReadRow(reader, row.value, |rows| + 2, done, Begun(rows), Nested(rows));
        done := done + [row.value];
        if !added {
          return false, title, reader;
        }
      }
      pos := next;
    }
    assert done + [] == done;
    ok := true;
  }

  function RowOf(names: seq<string>, line: string): Option<Row>
  {
    if line == "" then None else Some(RowRead(names, line))
  }

  lemma {:induction false} RowsNext(names: seq<string>, line: string, more: seq<string>)
    ensures RowsRead(names, [line] + more) == Ahead(RowOf(names, line), RowsRead(names, more))
  {
    assert ([line] + more)[1..] == more;
    assert [] + RowsRead(names, more) == RowsRead(names, more);
  }

  /** Empty lines are skipped. */
  method ParseLineAsRow(line: string, names: seq<string>) returns (row: Option<Row>)
    ensures row == RowOf(names, line)
  {
    if line == "" {
      return None;
    }
    var r := ParseRow(line, names);
    row := Some(r);
  }

  function Ahead(row: Option<Row>, rest: seq<Row>): seq<Row>
  {
    match row
    case None => rest
    case Some(r) => [r] + rest
  }

  method ParseRow(line: string, names: seq<string>) returns (r: Row)
    ensures r == RowRead(names, line)
  {
    var p := ParseLine(line);
    r := Row(p.depth, Label(FindType(names, p.name, 0), if p.text == "" then p.name else p.text));
  }

  method ReadRow(reader: DumpReader, r: Row, ghost n: nat, ghost done: seq<Row>, ghost begun: bool, ghost nested: bool) returns (added: bool)
    requires reader.Valid() && |done| + 2 <= n && (begun ==> reader.Reads(n, done))
    requires (nested ==> Nested(done + [r])) && (done == [] && begun ==> Nested(done + [r]))
    modifies reader, reader.store
    ensures added ==> reader.Valid()
    ensures begun ==> if added then reader.Reads(n, done + [r]) && Nested(done + [r]) else !nested
  {
    added := reader.AddRow(r, n, done);
  }

  lemma {:induction false} RowFits(rows: seq<Row>, done: seq<Row>, r: Row, rest: seq<Row>)
    requires rows == done + Ahead(Some(r), rest)
    ensures rows == done + [r] + rest && rows != [] && |done| + 2 <= |rows| + 2
    ensures Nested(rows) ==> Nested(done + [r])
    ensures done == [] && Begun(rows) ==> Nested(done + [r])
  {
    Regroup(done, [r], rest);
    NestedFront(rows, done, r, rest);
    FirstNests(rows, done, r, rest);
  }

  /** The first row, if any, is at the top. */
  predicate Begun(rows: seq<Row>)
  {
    rows != [] ==> rows[0].depth == 0
  }

  ghost predicate NestedSoFar(done: seq<Row>)
  {
    done == [] || Nested(done)
  }

  lemma {:induction false} FirstNests(rows: seq<Row>, done: seq<Row>, r: Row, rest: seq<Row>)
    requires rows == done + [r] + rest
    ensures done == [] && Begun(rows) ==> Nested(done + [r])
  {
    if done == [] && Begun(rows) {
      assert rows[0] == r && done + [r] == [r];
      assert NextRow([r], 0);
    }
  }

  lemma {:induction false} NestedPrefix(rows: seq<Row>, n: nat)
    requires Nested(rows) && 0 < n <= |rows|
    ensures Nested(rows[..n])
  {
    var front := rows[..n];
    forall j | 0 <= j < |front|
      ensures NextRow(front, j)
    {
      assert NextRow(rows, j);
    }
  }

  lemma {:induction false} NestedFront(rows: seq<Row>, done: seq<Row>, r: Row, rest: seq<Row>)
    requires rows == done + [r] + rest
    ensures Nested(rows) ==> Nested(done + [r])
    ensures |done| + 2 <= |rows| + 2
  {
    if Nested(rows) {
      NestedPrefix(rows, |done| + 1);
      assert rows[..|done| + 1] == done + [r];
    }
  }

  // ---------- there and back ----------

  lemma {:induction false} ListingNested(s: Shape, n: nat, lab: map<Pos, Label>, p: Pos, depth: nat)
    requires Labelled(s, n, lab) && p in s.kids
    ensures Steps(Listing(s, n, lab, p, depth), depth)
    decreases n - p.chunk, 1, 0
  {
    ListingFromNested(s, n, lab, p, 0, depth + 1);
    var rows, kids := Listing(s, n, lab, p, depth), ListingFrom(s, n, lab, p, 0, depth + 1);
    StepsCons(Row(depth, lab[p]), kids, depth);
  }

  /** Rows of one subtree: the first is at its depth, the others are deeper, each by at most one. */
  ghost predicate Steps(rows: seq<Row>, depth: nat)
  {
    rows != [] && rows[0].depth == depth && (forall k :: 0 < k < |rows| ==> rows[k].depth > depth)
    && forall j, k :: 0 <= j < |rows| && k == j + 1 && k < |rows| ==> rows[k].depth <= rows[j].depth + 1
  }

  /** Rows of several subtrees. */
  ghost predicate Forest(rows: seq<Row>, depth: nat)
  {
    (rows != [] ==> rows[0].depth == depth) && (forall k :: 0 <= k < |rows| ==> rows[k].depth >= depth)
    && forall j, k :: 0 <= j < |rows| && k == j + 1 && k < |rows| ==> rows[k].depth <= rows[j].depth + 1
  }

  lemma {:induction false} StepsCons(r: Row, kids: seq<Row>, depth: nat)
    requires r.depth == depth && Forest(kids, depth + 1)
    ensures Steps([r] + kids, depth)
  {
    var rows := [r] + kids;
    forall j, k | 0 <= j < |rows| && k == j + 1 && k < |rows|
      ensures rows[k].depth <= rows[j].depth + 1
    {
      if j > 0 {
        assert rows[j] == kids[j - 1] && rows[k] == kids[k - 1];
      }
    }
  }

  lemma {:induction false} ForestJoin(a: seq<Row>, b: seq<Row>, depth: nat)
    requires Steps(a, depth) && Forest(b, depth)
    ensures Forest(a + b, depth)
  {
    var rows := a + b;
    forall j, k | 0 <= j < |rows| && k == j + 1 && k < |rows|
      ensures rows[k].depth <= rows[j].depth + 1
    {
      if j >= |a| {
        assert rows[j] == b[j - |a|] && rows[k] == b[k - |a|];
      } else if k == |a| {
        assert rows[k] == b[0];
      }
    }
  }

  lemma {:induction false} ListingFromNested(s: Shape, n: nat, lab: map<Pos, Label>, p: Pos, i: nat, depth: nat)
    requires Labelled(s, n, lab) && p in s.kids
    ensures Forest(ListingFrom(s, n, lab, p, i, depth), depth)
    decreases n - p.chunk, 0, |s.kids[p]| - i
  {
    if i < |s.kids[p]| {
      assert KidFits(s, p, i);
      ListingNested(s, n, lab, s.kids[p][i], depth);
      ListingFromNested(s, n, lab, p, i + 1, depth);
      ForestJoin(Listing(s, n, lab, s.kids[p][i], depth), ListingFrom(s, n, lab, p, i + 1, depth), depth);
    }
  }

  /** Equal trees have equal listings. */
  lemma {:induction false} SameRows(s: Shape, n: nat, lab: map<Pos, Label>, p: Pos, t: Shape, m: nat, lab2: map<Pos, Label>, q: Pos, depth: nat)
    requires Labelled(s, n, lab) && p in s.kids && Labelled(t, m, lab2) && q in t.kids && SameTree(s, n, lab, p, t, m, lab2, q)
    ensures Listing(s, n, lab, p, depth) == Listing(t, m, lab2, q, depth)
    decreases n - p.chunk, 1, 0
  {
    SameKids(s, n, lab, p, 0, t, m, lab2, q, depth + 1);
  }

  lemma {:induction false} SameKids(s: Shape, n: nat, lab: map<Pos, Label>, p: Pos, i: nat, t: Shape, m: nat, lab2: map<Pos, Label>, q: Pos, depth: nat)
    requires Labelled(s, n, lab) && p in s.kids && Labelled(t, m, lab2) && q in t.kids && SameTree(s, n, lab, p, t, m, lab2, q)
    ensures ListingFrom(s, n, lab, p, i, depth) == ListingFrom(t, m, lab2, q, i, depth)
    decreases n - p.chunk, 0, |s.kids[p]| - i
  {
    if i < |s.kids[p]| {
      assert KidFits(s, p, i) && KidFits(t, q, i);
      SameRows(s, n, lab, s.kids[p][i], t, m, lab2, t.kids[q][i], depth);
      SameKids(s, n, lab, p, i + 1, t, m, lab2, q, depth);
    }
  }

  /** The reader's tree is the one that was written. */
  ghost predicate CameBack(s: Shape, n: nat, lab: map<Pos, Label>, t: Shape, m: nat, lab2: map<Pos, Label>)
    requires Labelled(s, n, lab) && ROOT in s.kids
  {
    ROOT in t.kids && Labelled(t, m, lab2) && SameTree(s, n, lab, ROOT, t, m, lab2, ROOT)
  }

  /** Writes a tree and reads it back. The reader accepts the dump and has the same tree exactly when every label survives, and then it
      has its name without what it trims. */
  method ThereAndBack(store: Store, lab: map<Pos, Label>, names: seq<string>, title: string) returns (ok: bool, back: string, reader: DumpReader, ghost m: nat)
    requires store.Valid() && ROOT in store.shape.kids && Labelled(store.shape, |store.chunks|, lab)
    ensures fresh(reader) && fresh(reader.store) && (ok ==> reader.Valid())
    ensures Without(title, '\n') ==> back == TrimEnd(title)
    ensures Without(title, '\n') && AllTyped(store.shape, lab, names) ==>
              (ok && CameBack(store.shape, |store.chunks|, lab, reader.store.shape, m, reader.labels)
               <==> RowsCarried(names, Listing(store.shape, |store.chunks|, lab, ROOT, 0)))
  {
    ghost var s, n := store.shape, |store.chunks|;
    var stream := WriteDump(store, lab, names, title, n);
    ok, back, reader := ReadDump(stream, names);
    m := |RowsRead(names, Tail(Split(stream)))| + 2;
    WrittenBegins(s, n, lab, names, title, stream);
    if Without(title, '\n') {
      ReadDecides(s, n, lab, names, title, stream, ok, reader.store.shape, m, reader.labels, reader.stack, |reader.store.chunks|);
    }
  }

  /** The dump of a tree: its name in a line, and the lines of the nodes. */
  ghost predicate Dumps(s: Shape, n: nat, lab: map<Pos, Label>, names: seq<string>, title: string, stream: string)
    requires Labelled(s, n, lab) && ROOT in s.kids
  {
    stream == Stream([title] + LinesOf(s, n, lab, names, ROOT, [], true))
  }

  lemma {:induction false} WrittenBegins(s: Shape, n: nat, lab: map<Pos, Label>, names: seq<string>, title: string, stream: string)
    requires Labelled(s, n, lab) && ROOT in s.kids && Dumps(s, n, lab, names, title, stream)
    ensures
      var rows := RowsRead(names, Tail(Split(stream)));
      Without(title, '\n') ==> stream != "" && Split(stream)[0] == title && rows != [] && Begun(rows)
  {
    if Without(title, '\n') {
      DumpBegins(s, n, lab, names, title);
    }
  }

  lemma {:induction false} ReadDecides(s: Shape, n: nat, lab: map<Pos, Label>, names: seq<string>, title: string, stream: string, ok: bool,
                                       t: Shape, m: nat, lab2: map<Pos, Label>, stack: seq<Pos>, chunks: nat)
    requires Labelled(s, n, lab) && ROOT in s.kids && Dumps(s, n, lab, names, title, stream) && Without(title, '\n')
    requires
      var rows := RowsRead(names, Tail(Split(stream)));
      rows != [] && if ok then ReadSoFar(t, chunks, m, lab2, stack, rows) else !Nested(rows)
    ensures AllTyped(s, lab, names) ==> (ok && CameBack(s, n, lab, t, m, lab2) <==> RowsCarried(names, Listing(s, n, lab, ROOT, 0)))
  {
    if AllTyped(s, lab, names) {
      DumpComesBack(s, n, lab, names, title);
      ListingRows(s, n, lab);
      if ok {
        RowsDecide(s, n, lab, t, m, lab2, stack, chunks, RowsRead(names, Tail(Split(stream))));
      }
    }
  }

  /** What was read is the tree exactly when its rows are the listing. */
  lemma {:induction false} RowsDecide(s: Shape, n: nat, lab: map<Pos, Label>, t: Shape, m: nat, lab2: map<Pos, Label>, stack: seq<Pos>,
                                      chunks: nat, rows: seq<Row>)
    requires Labelled(s, n, lab) && ROOT in s.kids && ReadSoFar(t, chunks, m, lab2, stack, rows) && rows != []
    ensures CameBack(s, n, lab, t, m, lab2) <==> rows == Listing(s, n, lab, ROOT, 0)
  {
    if rows == Listing(s, n, lab, ROOT, 0) {
      SameListing(s, n, lab, t, m, lab2, rows);
    }
    if CameBack(s, n, lab, t, m, lab2) {
      SameRows(s, n, lab, ROOT, t, m, lab2, ROOT, 0);
    }
  }

  /** The first row of a dump is at the top. */
  lemma {:induction false} DumpBegins(s: Shape, n: nat, lab: map<Pos, Label>, names: seq<string>, title: string)
    requires Labelled(s, n, lab) && ROOT in s.kids && Without(title, '\n')
    ensures
      var stream := Stream([title] + LinesOf(s, n, lab, names, ROOT, [], true));
      var rows := RowsRead(names, Tail(Split(stream)));
      stream != "" && Split(stream)[0] == title && rows != [] && Begun(rows)
  {
    var nodes := LinesOf(s, n, lab, names, ROOT, [], true);
    TitleFirst(title, nodes);
    var content, more := Content(NameOf(names, lab[ROOT].typ), lab[ROOT].text), LinesFrom(s, n, lab, names, ROOT, 0, [] + [true]);
    var line := Line([], true, NameOf(names, lab[ROOT].typ), lab[ROOT].text);
    StreamOne(line);
    StreamJoin([line], more);
    NothingBefore(Connector(true) + content);
    RootFirst(names, content, Stream(more));
  }

  lemma {:induction false} TitleFirst(title: string, nodes: seq<string>)
    requires Without(title, '\n')
    ensures
      var stream := Stream([title] + nodes);
      stream != "" && Split(stream) == [title] + Split(Stream(nodes)) && Tail(Split(stream)) == Split(Stream(nodes))
  {
    StreamOne(title);
    StreamJoin([title], nodes);
    SplitFirst(title, Stream(nodes));
    assert ([title] + Split(Stream(nodes)))[1..] == Split(Stream(nodes));
  }

  lemma {:induction false} RootFirst(names: seq<string>, content: string, more: string)
    ensures
      var rows := RowsIn(names, (Connector(true) + content) + "\n" + more);
      rows != [] && rows[0].depth == 0
  {
    var line := Connector(true) + content;
    ConnectorSize(true);
    if Without(line, '\n') {
      RowsFirst(names, line, more);
      AtTheTop(line);
    } else {
      var j :| 0 <= j < |line| && line[j] == '\n';
      var first, rest := CutFirst(line, j);
      InConnector(content, first, rest);
      assert line + "\n" + more == first + "\n" + (rest + "\n" + more);
      RowsFirst(names, first, rest + "\n" + more);
      AtTheTop(first);
    }
  }

  /** A newline is not inside the connector. */
  lemma {:induction false} InConnector(content: string, first: string, rest: string)
    requires Connector(true) + content == first + "\n" + rest
    ensures |first| >= 10 && first[..10] == Connector(true)
  {
    ConnectorSize(true);
    var line := Connector(true) + content;
    forall k | 0 <= k < 10
      ensures line[k] != '\n'
    {
      assert line[k] == Connector(true)[k];
    }
    assert line[|first|] == '\n';
    assert first == line[..|first|] && line[..10] == Connector(true);
  }

  lemma {:induction false} AtTheTop(line: string)
    requires |line| >= 10 && line[..10] == Connector(true)
    ensures line != "" && LineParsed(line).depth == 0
  {
    assert line[0] == line[..10][0] && line[1] == line[..10][1] && line[2] == line[..10][2];
    assert BranchAt(line, 0);
  }

  /** After the first line, what is read from a dump is the listing of the tree exactly when every label survives. */
  lemma {:induction false} DumpComesBack(s: Shape, n: nat, lab: map<Pos, Label>, names: seq<string>, title: string)
    requires Labelled(s, n, lab) && ROOT in s.kids && AllTyped(s, lab, names) && Without(title, '\n')
    ensures
      var lines := Split(Stream([title] + LinesOf(s, n, lab, names, ROOT, [], true)));
      lines != [] && lines[0] == title
      && (RowsRead(names, Tail(lines)) == Listing(s, n, lab, ROOT, 0) <==> RowsCarried(names, Listing(s, n, lab, ROOT, 0)))
  {
    var nodes := LinesOf(s, n, lab, names, ROOT, [], true);
    TitleFirst(title, nodes);
    ReadsLineByLine(names);
    DumpIsListing(s, n, lab, names, ROOT, [], true, (l: seq<string>) => RowsIn(names, Stream(l)));
  }

  lemma {:induction false} ListingRows(s: Shape, n: nat, lab: map<Pos, Label>)
    requires Labelled(s, n, lab) && ROOT in s.kids
    ensures Nested(Listing(s, n, lab, ROOT, 0))
  {
    ListingNested(s, n, lab, ROOT, 0);
    var rows := Listing(s, n, lab, ROOT, 0);
    forall j | 0 <= j < |rows|
      ensures NextRow(rows, j)
    {
      var k := j + 1;
      assert k < |rows| ==> rows[k].depth <= rows[j].depth + 1;
    }
  }

  lemma {:induction false} SameListing(s: Shape, n: nat, lab: map<Pos, Label>, t: Shape, m: nat, lab2: map<Pos, Label>, rows: seq<Row>)
    requires Labelled(s, n, lab) && ROOT in s.kids && Labelled(t, m, lab2) && ROOT in t.kids
    requires Listing(s, n, lab, ROOT, 0) == rows == Listing(t, m, lab2, ROOT, 0)
    ensures SameTree(s, n, lab, ROOT, t, m, lab2, ROOT)
  {
    assert rows + [] == rows;
    ListingDetermines(s, n, lab, ROOT, t, m, lab2, ROOT, 0, [], []);
  }
}
