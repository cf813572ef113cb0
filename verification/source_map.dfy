/**
 The `mappings` string of a source map: Base64 VLQ deltas, one group of segments per generated
 line. The decoder follows ECMA-426, sections 6 (Base64 VLQ) and 9 (source map format).
 */
module SourceMap {
  import opened Options

  // ---------- Base64 VLQ ----------

  function Digit(d: nat): char
    requires d < 64
  {
    if d < 26 then 'A' + d as char
    else if d < 52 then 'a' + (d - 26) as char
    else if d < 62 then '0' + (d - 52) as char
    else if d == 62 then '+' else '/'
  }

  function DigitValue(c: char): (r: Option<nat>)
    ensures r.Some? ==> r.value < 64
  {
    if 'A' <= c <= 'Z' then Some((c - 'A') as nat)
    else if 'a' <= c <= 'z' then Some(26 + (c - 'a') as nat)
    else if '0' <= c <= '9' then Some(52 + (c - '0') as nat)
    else if c == '+' then Some(62)
    else if c == '/' then Some(63)
    else None
  }

  lemma {:induction false} DigitRoundTrip(d: nat)
    requires d < 64
    ensures DigitValue(Digit(d)) == Some(d) && Digit(d) != ',' && Digit(d) != ';'
  {
  }

  /** The unsigned carrier of a signed value: the sign in the lowest bit. */
  function Zigzag(value: int): nat
  {
    if value < 0 then 2 * -value + 1 else 2 * value
  }

  /** Five bits a digit, lowest first; bit 5 says that more follow. */
  function Digits(v: nat): (s: string)
    ensures s != ""
  {
    if v < 32 then [Digit(v)] else [Digit(v % 32 + 32)] + Digits(v / 32)
  }

  function Vlq(value: int): string
  {
    Digits(Zigzag(value))
  }

  /** The 64-bit encoder loop. The shifted carrier fits 64 bits for every value of which int64 holds
      the negation. */
  method AppendVlq(out0: string, value: int) returns (out: string)
    requires -0x8000_0000_0000_0000 < value < 0x8000_0000_0000_0000
    ensures out == out0 + Vlq(value)
  {
    var v: nat := if value < 0 then (-value * 2) % 0x1_0000_0000_0000_0000 + 1 else (value * 2) % 0x1_0000_0000_0000_0000;
    assert v == Zigzag(value);
    out := out0;
    var more := true;
    ghost var rest := Digits(v);
    while more
      invariant more ==> out + Digits(v) == out0 + rest
      invariant !more ==> out == out0 + rest
      decreases more, v
    {
      var digit := v % 32;
      ghost var was := v;
      v := v / 32;
      more := v != 0;
      if more {
        digit := digit + 32;
      }
      assert Digits(was) == if more then [Digit(digit)] + Digits(v) else [Digit(digit)];
      assert out + ([Digit(digit)] + Digits(v)) == out + [Digit(digit)] + Digits(v);
      out := out + [Digit(digit)];
    }
  }

  /** Reads the digits of one number. */
  function ReadDigits(s: string): (r: Option<(nat, string)>)
    ensures r.Some? ==> |r.value.1| < |s|
  {
    if s == "" then None
    else
      match DigitValue(s[0])
      case None => None
      case Some(d) =>
        if d < 32 then Some((d, s[1..]))
        else
          match ReadDigits(s[1..])
          case None => None
          case Some((high, rest)) => Some((d - 32 + 32 * high, rest))
  }

  /** Reads one signed number. A magnitude of 2^31 or more is an error, and a negative zero stands for -2^31. */
  function ReadVlq(s: string): (r: Option<(int, string)>)
    ensures r.Some? ==> |r.value.1| < |s|
  {
    match ReadDigits(s)
    case None => None
    case Some((v, rest)) =>
      if v / 2 >= 0x8000_0000 then None
      else if v == 1 then Some((-0x8000_0000, rest))
      else Some((if v % 2 == 1 then -(v / 2) else v / 2, rest))
  }

  predicate Fits(value: int)
  {
    -0x8000_0000 < value < 0x8000_0000
  }

  lemma {:induction false} DigitsRoundTrip(v: nat, rest: string)
    ensures ReadDigits(Digits(v) + rest) == Some((v, rest))
  {
    if v < 32 {
      DigitRoundTrip(v);
      assert (Digits(v) + rest)[1..] == rest;
    } else {
      DigitRoundTrip(v % 32 + 32);
      DigitsRoundTrip(v / 32, rest);
      assert (Digits(v) + rest)[1..] == Digits(v / 32) + rest;
    }
  }

  /** What was written is read back, exactly when its magnitude is below 2^31. */
  lemma {:induction false} VlqRoundTrip(value: int, rest: string)
    ensures ReadVlq(Vlq(value) + rest) == if Fits(value) then Some((value, rest)) else None
  {
    DigitsRoundTrip(Zigzag(value), rest);
  }

  /** The digits are those of the Base64 alphabet: capital letters, small ones, decimal digits, and the two signs. */
  lemma {:induction false} DigitsAreBase64(d: nat)
    requires d < 64
    ensures Digit(0) == 'A' && Digit(25) == 'Z' && Digit(26) == 'a' && Digit(51) == 'z' && Digit(52) == '0' && Digit(61) == '9'
    ensures Digit(62) == '+' && Digit(63) == '/'
    ensures d != 25 && d != 51 && d < 61 ==> Digit(d + 1) as int == Digit(d) as int + 1
  {
  }

  /** Some numbers, written. */
  lemma {:induction false} KnownNumbers()
    ensures Vlq(0) == "A" && Vlq(1) == "C" && Vlq(-1) == "D" && Vlq(15) == "e" && Vlq(16) == "gB" && Vlq(-16) == "hB" && Vlq(511) == "+f"
  {
    assert Digit(30) == 'e' && Digit(62) == '+' && Digit(31) == 'f' && Digit(32) == 'g' && Digit(33) == 'h' && Digit(1) == 'B';
    assert Digits(0) == "A" && Digits(2) == "C" && Digits(3) == "D" && Digits(30) == "e" && Digits(1) == "B" && Digits(31) == "f";
    assert Digits(32) == [Digit(32)] + Digits(1);
    assert Digits(33) == [Digit(33)] + Digits(1);
    assert Digits(1022) == [Digit(62)] + Digits(31);
  }

  predicate Plain(s: string)
  {
    forall k :: 0 <= k < |s| ==> s[k] != ',' && s[k] != ';'
  }

  lemma {:induction false} DigitsPlain(v: nat)
    ensures Plain(Digits(v))
  {
    if v < 32 {
      DigitRoundTrip(v);
    } else {
      DigitRoundTrip(v % 32 + 32);
      DigitsPlain(v / 32);
    }
  }

  // ---------- the encoder ----------

  datatype Mapped = Mapped(genLine: nat, genCol: nat, srcIdx: nat, srcLine: nat, srcCol: nat)

  /** What the deltas are taken against. */
  datatype Position = Position(col: int, src: int, sline: int, scol: int)

  function At(m: Mapped): Position
  {
    Position(m.genCol, m.srcIdx, m.srcLine, m.srcCol)
  }

  function Fields(m: Mapped, p: Position): string
  {
    Vlq(m.genCol - p.col) + Vlq(m.srcIdx - p.src) + Vlq(m.srcLine - p.sline) + Vlq(m.srcCol - p.scol)
  }

  function Semicolons(n: nat): string
  {
    if n == 0 then "" else ";" + Semicolons(n - 1)
  }

  predicate LinesAscend(line: nat, l: seq<Mapped>)
    decreases |l|
  {
    l != [] ==> line <= l[0].genLine && LinesAscend(l[0].genLine, l[1..])
  }

  /** The rest of the string after `line`, given whether the line has a segment already. */
  function Encode(l: seq<Mapped>, line: nat, first: bool, p: Position): string
    requires LinesAscend(line, l)
  {
    if l == [] then ""
    else
      var m := l[0];
      if line < m.genLine then
        Semicolons(m.genLine - line) + Fields(m, p.(col := 0)) + Encode(l[1..], m.genLine, false, At(m))
      else
        (if first then "" else ",") + Fields(m, p) + Encode(l[1..], m.genLine, false, At(m))
  }

  const ORIGIN := Position(0, 0, 0, 0)

  /** A 32-bit field. */
  predicate Word(n: nat)
  {
    n < 0x1_0000_0000
  }

  predicate Words(m: Mapped)
  {
    Word(m.genLine) && Word(m.genCol) && Word(m.srcIdx) && Word(m.srcLine) && Word(m.srcCol)
  }

  predicate Words4(p: Position)
  {
    0 <= p.col < 0x1_0000_0000 && 0 <= p.src < 0x1_0000_0000 && 0 <= p.sline < 0x1_0000_0000 && 0 <= p.scol < 0x1_0000_0000
  }

  method AppendFields(out0: string, m: Mapped, p: Position) returns (out: string)
    requires Words(m) && Words4(p)
    ensures out == out0 + Fields(m, p)
  {
    out := AppendVlq(out0, m.genCol - p.col);
    out := AppendVlq(out, m.srcIdx - p.src);
    out := AppendVlq(out, m.srcLine - p.sline);
    out := AppendVlq(out, m.srcCol - p.scol);
    Regroup4(out0, Vlq(m.genCol - p.col), Vlq(m.srcIdx - p.src), Vlq(m.srcLine - p.sline), Vlq(m.srcCol - p.scol));
  }

  lemma {:induction false} Regroup4(o: string, a: string, b: string, c: string, d: string)
    ensures o + (a + b + c + d) == o + a + b + c + d
  {
  }

  lemma {:induction false} Regroup3(o: string, a: string, b: string, c: string)
    ensures o + (a + b + c) == o + a + b + c
  {
  }

  /** Moves on to a later line. */
  method NewLines(mappings0: string, line: nat, target: nat) returns (mappings: string)
    requires line <= target
    ensures mappings == mappings0 + Semicolons(target - line)
  {
    mappings := mappings0;
    var at := line;
    while at < target
      invariant line <= at <= target
      invariant mappings + Semicolons(target - at) == mappings0 + Semicolons(target - line)
    {
      assert mappings + Semicolons(target - at) == mappings + ";" + Semicolons(target - at - 1);
      mappings := mappings + ";";
      at := at + 1;
    }
  }

  /** One round of the mappings loop: a new line resets the generated column only. */
  method AppendSegment(mappings0: string, m: Mapped, line: nat, first: bool, p: Position) returns (mappings: string)
    requires Words(m) && Words4(p) && line <= m.genLine
    ensures mappings == mappings0 + Separator(m, line, first) + Fields(m, Base(m, line, p))
  {
    mappings := mappings0;
    var q, firstInLine := p, first;
    if line < m.genLine {
      mappings := NewLines(mappings, line, m.genLine);
      q, firstInLine := p.(col := 0), true;
    }
    if !firstInLine {
      mappings := mappings + ",";
    }
    mappings := AppendFields(mappings, m, q);
  }

  method Mappings(mapped: seq<Mapped>) returns (mappings: string)
    requires LinesAscend(0, mapped) && forall k :: 0 <= k < |mapped| ==> Words(mapped[k])
    ensures mappings == Encode(mapped, 0, true, ORIGIN)
  {
    mappings := "";
    var line: nat, p, firstInLine := 0, ORIGIN, true;
    ghost var left, all := mapped, Encode(mapped, 0, true, ORIGIN);
    for i := 0 to |mapped|
      invariant left == mapped[i..] && Words4(p)
      invariant LinesAscend(line, left) && mappings + Encode(left, line, firstInLine, p) == all
    {
      var m := mapped[i];
      assert left[0] == m;
      EncodeStep(left, line, firstInLine, p, mappings, all);
      mappings := AppendSegment(mappings, m, line, firstInLine, p);
      line, p, firstInLine := m.genLine, At(m), false;
      left := left[1..];
    }
  }

  /** What stands before a segment. */
  function Separator(m: Mapped, line: nat, first: bool): string
  {
    if line < m.genLine then Semicolons(m.genLine - line) else if first then "" else ","
  }

  /** What a segment's deltas are taken against. */
  function Base(m: Mapped, line: nat, p: Position): Position
  {
    if line < m.genLine then p.(col := 0) else p
  }

  lemma {:induction false} EncodeStep(l: seq<Mapped>, line: nat, first: bool, p: Position, before: string, all: string)
    requires l != [] && LinesAscend(line, l) && before + Encode(l, line, first, p) == all
    ensures line <= l[0].genLine && LinesAscend(l[0].genLine, l[1..])
    ensures before + Separator(l[0], line, first) + Fields(l[0], Base(l[0], line, p)) + Encode(l[1..], l[0].genLine, false, At(l[0])) == all
  {
    Regroup3(before, Separator(l[0], line, first), Fields(l[0], Base(l[0], line, p)), Encode(l[1..], l[0].genLine, false, At(l[0])));
  }

  lemma {:induction false} OneDigitEach(m: Mapped, p: Position, a: char, b: char, c: char, d: char)
    requires Vlq(m.genCol - p.col) == [a] && Vlq(m.srcIdx - p.src) == [b]
    requires Vlq(m.srcLine - p.sline) == [c] && Vlq(m.srcCol - p.scol) == [d]
    ensures Fields(m, p) == [a, b, c, d]
  {
    assert [a] + [b] + [c] + [d] == [a, b, c, d];
  }

  /** Three segments, written: two on the first line and one on the third, of another source. */
  lemma {:induction false} KnownMappings(l: seq<Mapped>)
    requires l == [Mapped(0, 0, 0, 0, 0), Mapped(0, 4, 0, 1, 0), Mapped(2, 1, 1, 0, 3)]
    ensures LinesAscend(0, l) && Encode(l, 0, true, ORIGIN) == "AAAA,IACA;;CCDG"
  {
    KnownFields();
    assert l[1..] == [l[1], l[2]];
    ThirdWritten(l[2], At(l[1]));
    SecondWritten(l[1], l[2], At(l[0]));
    FirstWritten(l, [l[1], l[2]]);
  }

  lemma {:induction false} FirstWritten(l: seq<Mapped>, more: seq<Mapped>)
    requires l != [] && l[1..] == more && l[0].genLine == 0 && Fields(l[0], ORIGIN) == "AAAA"
    requires LinesAscend(0, more) && Encode(more, 0, false, At(l[0])) == ",IACA;;CCDG"
    ensures LinesAscend(0, l) && Encode(l, 0, true, ORIGIN) == "AAAA,IACA;;CCDG"
  {
    NextWritten(l, 0, true, ORIGIN, "AAAA", ",IACA;;CCDG");
    assert "" + "AAAA" + ",IACA;;CCDG" == "AAAA,IACA;;CCDG";
  }

  lemma {:induction false} ThirdWritten(c: Mapped, p: Position)
    requires c.genLine == 2 && Fields(c, p.(col := 0)) == "CCDG"
    ensures LinesAscend(0, [c]) && Encode([c], 0, false, p) == ";;CCDG"
  {
    assert [c][1..] == [];
    assert Semicolons(2) == ";" + Semicolons(1) && Semicolons(1) == ";" + Semicolons(0);
    NextWritten([c], 0, false, p, "CCDG", "");
  }

  lemma {:induction false} SecondWritten(b: Mapped, c: Mapped, p: Position)
    requires b.genLine == 0 && Fields(b, p) == "IACA" && LinesAscend(0, [c]) && Encode([c], 0, false, At(b)) == ";;CCDG"
    ensures LinesAscend(0, [b, c]) && Encode([b, c], 0, false, p) == ",IACA;;CCDG"
  {
    assert [b, c][1..] == [c];
    NextWritten([b, c], 0, false, p, "IACA", ";;CCDG");
    assert "," + "IACA" + ";;CCDG" == ",IACA;;CCDG";
  }

  lemma {:induction false} NextWritten(l: seq<Mapped>, line: nat, first: bool, p: Position, text: string, rest: string)
    requires l != [] && LinesAscend(line, l) && Fields(l[0], Base(l[0], line, p)) == text
    requires Encode(l[1..], l[0].genLine, false, At(l[0])) == rest
    ensures Encode(l, line, first, p) == Separator(l[0], line, first) + text + rest
  {
  }

  lemma {:induction false} KnownFields()
    ensures Fields(Mapped(0, 0, 0, 0, 0), ORIGIN) == "AAAA"
    ensures Fields(Mapped(0, 4, 0, 1, 0), At(Mapped(0, 0, 0, 0, 0))) == "IACA"
    ensures Fields(Mapped(2, 1, 1, 0, 3), At(Mapped(0, 4, 0, 1, 0)).(col := 0)) == "CCDG"
  {
    var a, b, c := Mapped(0, 0, 0, 0, 0), Mapped(0, 4, 0, 1, 0), Mapped(2, 1, 1, 0, 3);
    KnownNumbers();
    assert Vlq(4) == "I" && Vlq(3) == "G" by { assert Digits(8) == [Digit(8)] && Digits(6) == [Digit(6)]; }
    OneDigitEach(a, ORIGIN, 'A', 'A', 'A', 'A');
    OneDigitEach(b, At(a), 'I', 'A', 'C', 'A');
    OneDigitEach(c, At(b).(col := 0), 'C', 'C', 'D', 'G');
  }

  // ---------- the decoder ----------

  /** The pieces of s between the separators. */
  function Split(s: string, sep: char): (r: seq<string>)
    ensures r != []
  {
    if s == "" then [""]
    else
      var rest := Split(s[1..], sep);
      if s[0] == sep then [""] + rest else [[s[0]] + rest[0]] + rest[1..]
  }

  /** All numbers of a segment. */
  function ReadAll(s: string): Option<seq<int>>
    decreases |s|
  {
    if s == "" then Some([])
    else
      match ReadVlq(s)
      case None => None
      case Some((v, rest)) =>
        match ReadAll(rest)
        case None => None
        case Some(more) => Some([v] + more)
  }

  /** A decoded segment, with or without an original position. */
  datatype Decoded =
    | Original(genLine: nat, genCol: int, srcIdx: int, srcLine: int, srcCol: int)
    | Generated(genLine: nat, genCol: int)

  /** The segments of one line, and the position they leave behind. A segment has one field (generated
      position only), four, or five (the fifth names a symbol); empty ones are skipped. */
  function DecodeLine(segments: seq<string>, line: nat, p: Position): Option<(seq<Decoded>, Position)>
  {
    if segments == [] then Some(([], p))
    else if segments[0] == "" then DecodeLine(segments[1..], line, p)
    else
      match ReadAll(segments[0])
      case None => None
      case Some(v) =>
        if |v| != 1 && |v| != 4 && |v| != 5 then None
        else
          var q := if |v| == 1 then p.(col := p.col + v[0])
                   else Position(p.col + v[0], p.src + v[1], p.sline + v[2], p.scol + v[3]);
          match DecodeLine(segments[1..], line, q)
          case None => None
          case Some((more, last)) =>
            Some(([if |v| == 1 then Generated(line, q.col) else Original(line, q.col, q.src, q.sline, q.scol)] + more, last))
  }

  /** The groups from one line on: the generated column starts each line at zero, the rest carries over. */
  function DecodeLines(groups: seq<string>, line: nat, p: Position): Option<seq<Decoded>>
  {
    if groups == [] then Some([])
    else
      match DecodeLine(Split(groups[0], ','), line, p.(col := 0))
      case None => None
      case Some((segments, last)) =>
        match DecodeLines(groups[1..], line + 1, last)
        case None => None
        case Some(more) => Some(segments + more)
  }

  function Decode(mappings: string): Option<seq<Decoded>>
  {
    DecodeLines(Split(mappings, ';'), 0, ORIGIN)
  }

  // ---------- the round trip ----------

  /** The deltas of a segment stay within what a decoder accepts. */
  predicate FieldsFit(m: Mapped, p: Position)
  {
    Fits(m.genCol - p.col) && Fits(m.srcIdx - p.src) && Fits(m.srcLine - p.sline) && Fits(m.srcCol - p.scol)
  }

  predicate AllFit(l: seq<Mapped>, line: nat, p: Position)
  {
    l != [] ==> FieldsFit(l[0], Base(l[0], line, p)) && AllFit(l[1..], l[0].genLine, At(l[0]))
  }

  function Shown(m: Mapped): Decoded
  {
    Original(m.genLine, m.genCol, m.srcIdx, m.srcLine, m.srcCol)
  }

  function AllShown(l: seq<Mapped>): seq<Decoded>
  {
    if l == [] then [] else [Shown(l[0])] + AllShown(l[1..])
  }

  /** A number read in front of what is read from the rest. */
  function Prepended(value: int, rest: Option<seq<int>>): Option<seq<int>>
  {
    if Fits(value) && rest.Some? then Some([value] + rest.value) else None
  }

  lemma {:induction false} ReadAllVlq(value: int, rest: string)
    ensures ReadAll(Vlq(value) + rest) == Prepended(value, ReadAll(rest))
  {
    VlqRoundTrip(value, rest);
    assert Vlq(value) + rest != "";
  }

  lemma {:induction false} ReadFour(a: int, b: int, c: int, d: int)
    ensures ReadAll(Vlq(a) + (Vlq(b) + (Vlq(c) + Vlq(d)))) == Prepended(a, Prepended(b, Prepended(c, Prepended(d, Some([])))))
  {
    assert Vlq(d) + "" == Vlq(d);
    ReadAllVlq(d, "");
    ReadAllVlq(c, Vlq(d));
    ReadAllVlq(b, Vlq(c) + Vlq(d));
    ReadAllVlq(a, Vlq(b) + (Vlq(c) + Vlq(d)));
  }

  lemma {:induction false} PrependFour(a: int, b: int, c: int, d: int)
    ensures Prepended(a, Prepended(b, Prepended(c, Prepended(d, Some([]))))) ==
            if Fits(a) && Fits(b) && Fits(c) && Fits(d) then Some([a, b, c, d]) else None
  {
    assert [a] + ([b] + ([c] + ([d] + []))) == [a, b, c, d];
  }

  lemma {:induction false} ReadFields(m: Mapped, p: Position)
    ensures ReadAll(Fields(m, p)) ==
            if FieldsFit(m, p) then Some([m.genCol - p.col, m.srcIdx - p.src, m.srcLine - p.sline, m.srcCol - p.scol]) else None
  {
    var a, b, c, d := m.genCol - p.col, m.srcIdx - p.src, m.srcLine - p.sline, m.srcCol - p.scol;
    ReadFour(a, b, c, d);
    PrependFour(a, b, c, d);
    Joined(Vlq(a), Vlq(b), Vlq(c), Vlq(d));
  }

  lemma {:induction false} Joined(a: string, b: string, c: string, d: string)
    ensures a + b + c + d == a + (b + (c + d))
  {
  }

  lemma {:induction false} FieldsPlain(m: Mapped, p: Position)
    ensures Plain(Fields(m, p)) && Fields(m, p) != ""
  {
    DigitsPlain(Zigzag(m.genCol - p.col));
    DigitsPlain(Zigzag(m.srcIdx - p.src));
    DigitsPlain(Zigzag(m.srcLine - p.sline));
    DigitsPlain(Zigzag(m.srcCol - p.scol));
  }

  /** Splitting a string whose beginning holds no separator. */
  lemma {:induction false} SplitPrefix(a: string, s: string, sep: char)
    requires forall k :: 0 <= k < |a| ==> a[k] != sep
    ensures Split(a + s, sep) == [a + Split(s, sep)[0]] + Split(s, sep)[1..]
  {
    if a == "" {
      assert a + s == s;
      assert a + Split(s, sep)[0] == Split(s, sep)[0];
      assert [a + Split(s, sep)[0]] + Split(s, sep)[1..] == Split(s, sep);
    } else {
      assert (a + s)[1..] == a[1..] + s;
      SplitPrefix(a[1..], s, sep);
      assert [a[0]] + (a[1..] + Split(s, sep)[0]) == a + Split(s, sep)[0];
    }
  }

  /** Decoding a string that begins at the end of some segment of line `line`. */
  function DecodeFrom(s: string, line: nat, p: Position): Option<seq<Decoded>>
  {
    var groups := Split(s, ';');
    Continue(DecodeLine(Split(groups[0], ','), line, p), groups[1..], line)
  }

  /** The rest of the lines after part of one. */
  function Continue(here: Option<(seq<Decoded>, Position)>, groups: seq<string>, line: nat): Option<seq<Decoded>>
  {
    match here
    case None => None
    case Some((segments, last)) =>
      match DecodeLines(groups, line + 1, last)
      case None => None
      case Some(more) => Some(segments + more)
  }

  lemma {:induction false} ContinueCons(d: Decoded, more: seq<Decoded>, last: Position, groups: seq<string>, line: nat)
    ensures Continue(Some(([d] + more, last)), groups, line) ==
            match Continue(Some((more, last)), groups, line) case None => None case Some(all) => Some([d] + all)
  {
    if DecodeLines(groups, line + 1, last).Some? {
      var after := DecodeLines(groups, line + 1, last).value;
      assert [d] + more + after == [d] + (more + after);
    }
  }

  lemma {:induction false} SkipLine(s: string, line: nat, p: Position)
    ensures DecodeFrom(";" + s, line, p) == DecodeFrom(s, line + 1, p.(col := 0))
  {
    assert (";" + s)[1..] == s;
    assert ([""] + Split(s, ';'))[1..] == Split(s, ';');
    assert Split("", ',') == [""];
    assert DecodeLine([""], line, p) == Some(([], p));
    var groups := Split(s, ';');
    assert DecodeLines(groups, line + 1, p) == DecodeFrom(s, line + 1, p.(col := 0));
    if DecodeLines(groups, line + 1, p).Some? {
      assert [] + DecodeLines(groups, line + 1, p).value == DecodeLines(groups, line + 1, p).value;
    }
  }

  lemma {:induction false} SkipLines(n: nat, s: string, line: nat, p: Position)
    requires n > 0
    ensures DecodeFrom(Semicolons(n) + s, line, p) == DecodeFrom(s, line + n, p.(col := 0))
    decreases n
  {
    var rest := Semicolons(n - 1) + s;
    assert Semicolons(n) + s == ";" + rest;
    SkipLine(rest, line, p);
    if n > 1 {
      SkipLines(n - 1, s, line + 1, p.(col := 0));
    } else {
      assert rest == s;
    }
  }

  /** What follows a segment is nothing, a comma or a semicolon. */
  predicate AtBoundary(s: string)
  {
    s == "" || s[0] == ',' || s[0] == ';'
  }

  lemma {:induction false} EncodeBoundary(l: seq<Mapped>, line: nat, p: Position)
    requires LinesAscend(line, l)
    ensures AtBoundary(Encode(l, line, false, p))
  {
  }

  /** Reading one segment off the front. */
  lemma {:induction false} ReadSegment(m: Mapped, p: Position, rest: string, line: nat)
    requires AtBoundary(rest) && line == m.genLine
    ensures DecodeFrom(Fields(m, p) + rest, line, p) ==
            if !FieldsFit(m, p) then None
            else match DecodeFrom(rest, line, At(m)) case None => None case Some(more) => Some([Shown(m)] + more)
  {
    var f := Fields(m, p);
    FieldsPlain(m, p);
    ReadFields(m, p);
    var groups := Split(rest, ';');
    SplitPrefix(f, rest, ';');
    SplitBoundary(rest, ';');
    var segments := Split(groups[0], ',');
    SplitPrefix(f, groups[0], ',');
    assert groups[0] == "" || groups[0][0] == ',';
    assert segments[0] == "";
    assert f + "" == f;
    DecodeCons(f, segments[1..], line, p, m);
    assert segments == [""] + segments[1..];
    assert DecodeLine(segments, line, At(m)) == DecodeLine(segments[1..], line, At(m));
    assert Split(f + rest, ';') == [f + groups[0]] + groups[1..];
    assert Split(f + groups[0], ',') == [f] + segments[1..];
    if DecodeLine(segments, line, At(m)).Some? {
      var (more, last) := DecodeLine(segments, line, At(m)).value;
      ContinueCons(Shown(m), more, last, groups[1..], line);
    }
  }

  lemma {:induction false} SplitBoundary(s: string, sep: char)
    ensures Split(s, sep)[0] == "" || (s != "" && Split(s, sep)[0][0] == s[0] && s[0] != sep)
  {
  }

  lemma {:induction false} DecodeCons(f: string, segments: seq<string>, line: nat, p: Position, m: Mapped)
    requires f == Fields(m, p) && f != "" && line == m.genLine
    ensures DecodeLine([f] + segments, line, p) ==
            if !FieldsFit(m, p) then None
            else match DecodeLine(segments, line, At(m)) case None => None
                 case Some((more, last)) => Some(([Shown(m)] + more, last))
  {
    ReadFields(m, p);
    assert ([f] + segments)[1..] == segments;
  }

  /** A leading comma only opens an empty segment. */
  lemma {:induction false} SkipComma(s: string, line: nat, p: Position)
    ensures DecodeFrom("," + s, line, p) == DecodeFrom(s, line, p)
  {
    var groups := Split(s, ';');
    assert ("," + s)[1..] == s;
    assert Split("," + s, ';') == ["," + groups[0]] + groups[1..];
    assert ("," + groups[0])[1..] == groups[0];
    assert Split("," + groups[0], ',') == [""] + Split(groups[0], ',');
    assert ([""] + Split(groups[0], ','))[1..] == Split(groups[0], ',');
  }

  lemma {:induction false} DecodeNothing(line: nat, p: Position)
    ensures DecodeFrom("", line, p) == Some([])
  {
    assert Split("", ';') == [""] && Split("", ',') == [""];
    var none: seq<string> := [];
    assert [""][1..] == none;
    assert DecodeLine(none, line, p) == Some(([], p));
    assert DecodeLine([""], line, p) == Some(([], p));
    assert DecodeLines(none, line + 1, p) == Some([]);
    var empty: seq<Decoded> := [];
    assert empty + empty == empty;
  }

  lemma {:induction false} DecodeEncoded(l: seq<Mapped>, line: nat, first: bool, p: Position)
    requires LinesAscend(line, l)
    ensures DecodeFrom(Encode(l, line, first, p), line, p) == if AllFit(l, line, p) then Some(AllShown(l)) else None
    decreases |l|
  {
    if l == [] {
      DecodeNothing(line, p);
    } else {
      var m := l[0];
      var base := Base(m, line, p);
      var rest := Encode(l[1..], m.genLine, false, At(m));
      DecodeEncoded(l[1..], m.genLine, false, At(m));
      EncodeBoundary(l[1..], m.genLine, At(m));
      ReadSegment(m, base, rest, m.genLine);
      SkipSeparator(m, line, first, p, Fields(m, base) + rest);
      EncodeIs(l, line, first, p);
      FitStep(l, line, p);
    }
  }

  lemma {:induction false} EncodeIs(l: seq<Mapped>, line: nat, first: bool, p: Position)
    requires l != [] && LinesAscend(line, l)
    ensures Encode(l, line, first, p) ==
            Separator(l[0], line, first) + (Fields(l[0], Base(l[0], line, p)) + Encode(l[1..], l[0].genLine, false, At(l[0])))
  {
    var a, b, c := Separator(l[0], line, first), Fields(l[0], Base(l[0], line, p)), Encode(l[1..], l[0].genLine, false, At(l[0]));
    assert a + b + c == a + (b + c);
  }

  lemma {:induction false} FitStep(l: seq<Mapped>, line: nat, p: Position)
    requires l != []
    ensures AllFit(l, line, p) <==> FieldsFit(l[0], Base(l[0], line, p)) && AllFit(l[1..], l[0].genLine, At(l[0]))
    ensures AllShown(l) == [Shown(l[0])] + AllShown(l[1..])
  {
  }

  lemma {:induction false} SkipSeparator(m: Mapped, line: nat, first: bool, p: Position, body: string)
    requires line <= m.genLine
    ensures DecodeFrom(Separator(m, line, first) + body, line, p) == DecodeFrom(body, m.genLine, Base(m, line, p))
  {
    if line < m.genLine {
      SkipLines(m.genLine - line, body, line, p);
    } else if first {
      assert "" + body == body;
    } else {
      SkipComma(body, line, p);
    }
  }

  /** Decoding the mappings yields exactly the segments that were written, in order, if and only if no
      delta reaches the magnitude that decoders reject. */
  lemma {:induction false} MappingsRoundTrip(l: seq<Mapped>)
    requires LinesAscend(0, l)
    ensures Decode(Encode(l, 0, true, ORIGIN)) == if AllFit(l, 0, ORIGIN) then Some(AllShown(l)) else None
  {
    DecodeEncoded(l, 0, true, ORIGIN);
  }

  // ---------- resolving segments ----------

  /** A generated position and the provenance id it came from. */
  datatype Segment = Segment(genLine: nat, genCol: nat, id: nat)

  /** Where an id resolves to, zero-based. */
  datatype Place = Place(path: string, line: nat, col: nat)

  /** A resolved segment that names its source. */
  datatype Origin = Origin(genLine: nat, genCol: int, path: string, srcLine: int, srcCol: int)

  predicate Before(a: Segment, b: Segment)
  {
    a.genLine < b.genLine || (a.genLine == b.genLine && a.genCol <= b.genCol)
  }

  /** Earlier lines come first, on one line earlier columns, and segments at one place in either order. */
  lemma {:induction false} BeforeIs(a: Segment, b: Segment)
    ensures a.genLine < b.genLine ==> Before(a, b) && !Before(b, a)
    ensures a.genLine == b.genLine && a.genCol < b.genCol ==> Before(a, b) && !Before(b, a)
    ensures a.genLine == b.genLine && a.genCol == b.genCol ==> Before(a, b) && Before(b, a)
  {
  }

  /** Any segments can be put in such an order. */
  lemma {:induction false} CanBeOrdered(s: seq<Segment>) returns (t: seq<Segment>)
    ensures Ordered(t) && multiset(t) == multiset(s)
  {
    t := [];
    if s != [] {
      var last := s[|s| - 1];
      assert s == s[..|s| - 1] + [last];
      var front := CanBeOrdered(s[..|s| - 1]);
      var k := |front|;
      while k > 0 && !Before(front[k - 1], last)
        invariant 0 <= k <= |front| && forall j :: k <= j < |front| ==> Before(last, front[j])
      {
        k := k - 1;
      }
      t := front[..k] + [last] + front[k..];
      assert front == front[..k] + front[k..];
      InsertedOrdered(front, k, last);
    }
  }

  lemma {:induction false} InsertedOrdered(s: seq<Segment>, k: nat, x: Segment)
    requires Ordered(s) && k <= |s| && (k > 0 ==> Before(s[k - 1], x)) && forall j :: k <= j < |s| ==> Before(x, s[j])
    ensures Ordered(s[..k] + [x] + s[k..])
  {
    var t := s[..k] + [x] + s[k..];
    forall i, j | 0 <= i < j < |t|
      ensures Before(t[i], t[j])
    {
      if i < k && j == k {
        assert i == k - 1 || Before(s[i], s[k - 1]);
        assert Before(s[k - 1], x);
      } else if i != k && j != k {
        assert t[i] == s[if i < k then i else i - 1] && t[j] == s[if j < k then j else j - 1];
      }
    }
  }

  predicate Ordered(s: seq<Segment>)
  {
    forall i, j :: 0 <= i < j < |s| ==> Before(s[i], s[j])
  }

  /** The segments whose ids resolve, in order, each with the place its id stands for. */
  function Resolved(s: seq<Segment>, places: map<nat, Place>): seq<Origin>
  {
    if s == [] then []
    else (if s[0].id in places then [OriginOf(s[0], places[s[0].id])] else []) + Resolved(s[1..], places)
  }

  function OriginOf(s: Segment, place: Place): Origin
  {
    Origin(s.genLine, s.genCol, place.path, place.line, place.col)
  }

  /** The origin is that of a segment: it keeps the generated position, and has path, line and column of the place of its id. */
  predicate ComesFrom(o: Origin, s: Segment, places: map<nat, Place>)
  {
    s.id in places && o.genLine == s.genLine && o.genCol == s.genCol
    && o.path == places[s.id].path && o.srcLine == places[s.id].line && o.srcCol == places[s.id].col
  }

  /** The origins are those of the segments at these positions, which ascend and are all whose ids resolve. */
  ghost predicate Originates(l: seq<Origin>, s: seq<Segment>, places: map<nat, Place>, at: seq<nat>)
  {
    |at| == |l| && (forall k :: 0 <= k < |at| ==> at[k] < |s| && ComesFrom(l[k], s[at[k]], places))
    && (forall j, k :: 0 <= j < k < |at| ==> at[j] < at[k])
    && forall i: nat :: i < |s| && s[i].id in places ==> i in at
  }

  lemma {:induction false} ResolvedOriginates(s: seq<Segment>, places: map<nat, Place>) returns (at: seq<nat>)
    ensures Originates(Resolved(s, places), s, places, at)
  {
    at := [];
    if s != [] {
      var front, x := s[..|s| - 1], s[|s| - 1];
      var was := ResolvedOriginates(front, places);
      assert s == front + [x];
      ResolvedSnoc(front, x, places);
      at := OneOriginMore(Resolved(front, places), front, x, places, was);
    }
  }

  lemma {:induction false} OneOriginMore(l: seq<Origin>, s: seq<Segment>, x: Segment, places: map<nat, Place>, at: seq<nat>) returns (r: seq<nat>)
    requires Originates(l, s, places, at)
    ensures Originates(l + (if x.id in places then [OriginOf(x, places[x.id])] else []), s + [x], places, r)
  {
    r := at;
    assert l + [] == l;
    if x.id in places {
      r := at + [|s|];
      assert r[|at|] == |s|;
    }
    forall i: nat | i < |s + [x]| && (s + [x])[i].id in places
      ensures i in r
    {
      if i < |s| {
        assert i in at;
      }
    }
  }

  /** The paths of the resolved segments without repetition, in the order of their first use. */
  function FirstUses(l: seq<Origin>): (r: seq<string>)
  {
    if l == [] then []
    else
      var before := FirstUses(l[..|l| - 1]);
      if l[|l| - 1].path in before then before else before + [l[|l| - 1].path]
  }

  /** The origins at these positions, in ascending order, are the first that name the sources. */
  ghost predicate FirstNamed(l: seq<Origin>, sources: seq<string>, at: seq<nat>)
  {
    |at| == |sources| && (forall k :: 0 <= k < |at| ==> at[k] < |l| && l[at[k]].path == sources[k])
    && (forall j, k :: 0 <= j < k < |at| ==> at[j] < at[k])
    && forall i {:trigger NamedBy(l[i].path, sources, at, i)} :: 0 <= i < |l| ==> NamedBy(l[i].path, sources, at, i)
  }

  ghost predicate NamedBy(path: string, sources: seq<string>, at: seq<nat>, i: int)
    requires |at| == |sources|
  {
    exists k :: 0 <= k < |at| && sources[k] == path && at[k] <= i
  }

  lemma {:induction false} FirstUsesNamed(l: seq<Origin>) returns (at: seq<nat>)
    ensures FirstNamed(l, FirstUses(l), at)
    decreases |l|
  {
    at := [];
    if l != [] {
      var front, o := l[..|l| - 1], l[|l| - 1];
      var was := FirstUsesNamed(front);
      assert l == front + [o];
      at := OneMoreNamed(front, FirstUses(front), was, o);
    }
  }

  lemma {:induction false} OneMoreNamed(l: seq<Origin>, sources: seq<string>, at: seq<nat>, o: Origin) returns (r: seq<nat>)
    requires FirstNamed(l, sources, at)
    ensures FirstNamed(l + [o], if o.path in sources then sources else sources + [o.path], r)
  {
    if o.path in sources {
      r := at;
      KnownAgain(l, sources, at, o);
    } else {
      r := at + [|l|];
      NewlyNamed(l, sources, at, o);
    }
  }

  lemma {:induction false} KnownAgain(l: seq<Origin>, sources: seq<string>, at: seq<nat>, o: Origin)
    requires FirstNamed(l, sources, at) && o.path in sources
    ensures FirstNamed(l + [o], sources, at)
  {
    forall i | 0 <= i < |l + [o]|
      ensures NamedBy((l + [o])[i].path, sources, at, i)
    {
      if i < |l| {
        assert NamedBy(l[i].path, sources, at, i);
      } else {
        var k :| 0 <= k < |sources| && sources[k] == o.path;
        assert at[k] <= i;
      }
    }
  }

  lemma {:induction false} NewlyNamed(l: seq<Origin>, sources: seq<string>, at: seq<nat>, o: Origin)
    requires FirstNamed(l, sources, at)
    ensures FirstNamed(l + [o], sources + [o.path], at + [|l|])
  {
    var more, r := sources + [o.path], at + [|l|];
    forall i | 0 <= i < |l + [o]|
      ensures NamedBy((l + [o])[i].path, more, r, i)
    {
      if i < |l| {
        NamedStill(l[i].path, sources, at, more, r, i);
      } else {
        assert more[|sources|] == o.path && r[|at|] == i;
      }
    }
  }

  lemma {:induction false} NamedStill(path: string, sources: seq<string>, at: seq<nat>, more: seq<string>, r: seq<nat>, i: int)
    requires |at| == |sources| && |r| == |more| && sources <= more && at <= r && NamedBy(path, sources, at, i)
    ensures NamedBy(path, more, r, i)
  {
    var k :| 0 <= k < |at| && sources[k] == path && at[k] <= i;
    assert more[k] == path && r[k] == at[k];
  }

  predicate Distinct(sources: seq<string>)
  {
    forall i, j :: 0 <= i < j < |sources| ==> sources[i] != sources[j]
  }

  /** A decoded segment read against the list of sources. */
  predicate Names(d: Decoded, sources: seq<string>, o: Origin)
  {
    d.Original? && 0 <= d.srcIdx < |sources|
    && o == Origin(d.genLine, d.genCol, sources[d.srcIdx], d.srcLine, d.srcCol)
  }

  predicate AllName(l: seq<Mapped>, sources: seq<string>, origins: seq<Origin>)
  {
    |l| == |origins| && forall k :: 0 <= k < |l| ==> Names(Shown(l[k]), sources, origins[k])
  }

  /** Looks a path up among the sources, and adds it when it is new. */
  method InternSource(sources0: seq<string>, path: string) returns (sources: seq<string>, idx: nat)
    requires Distinct(sources0)
    ensures sources == if path in sources0 then sources0 else sources0 + [path]
    ensures Distinct(sources) && idx < |sources| && sources[idx] == path
  {
    sources := sources0;
    if idx: nat :| idx < |sources0| && sources0[idx] == path {
      return sources, idx;
    }
    idx := |sources0|;
    sources := sources0 + [path];
  }

  lemma {:induction false} AllNameMore(l: seq<Mapped>, sources: seq<string>, more: seq<string>, origins: seq<Origin>, m: Mapped, o: Origin)
    requires AllName(l, sources, origins) && Names(Shown(m), more, o)
    requires more == sources || (more != [] && more[..|more| - 1] == sources)
    ensures AllName(l + [m], more, origins + [o])
  {
    forall k | 0 <= k < |l|
      ensures Names(Shown(l[k]), more, origins[k])
    {
      assert Names(Shown(l[k]), sources, origins[k]);
      if more != sources {
        assert more[..|more| - 1][l[k].srcIdx] == more[l[k].srcIdx];
      }
    }
  }

  lemma {:induction false} ResolvedSnoc(s: seq<Segment>, x: Segment, places: map<nat, Place>)
    ensures Resolved(s + [x], places) ==
            Resolved(s, places) + (if x.id in places then [OriginOf(x, places[x.id])] else [])
  {
    var tail: seq<Origin> := if x.id in places then [OriginOf(x, places[x.id])] else [];
    if s == [] {
      assert ([] + [x])[1..] == [];
      assert tail + [] == tail;
    } else {
      assert (s + [x])[1..] == s[1..] + [x];
      ResolvedSnoc(s[1..], x, places);
      var head: seq<Origin> := if s[0].id in places then [OriginOf(s[0], places[s[0].id])] else [];
      assert head + (Resolved(s[1..], places) + tail) == head + Resolved(s[1..], places) + tail;
    }
  }

  /** What every 32-bit field of a segment and of its place keeps. */
  predicate WordPlaces(s: seq<Segment>, places: map<nat, Place>)
  {
    (forall k :: 0 <= k < |s| ==> Word(s[k].genLine) && Word(s[k].genCol))
    && forall id :: id in places ==> Word(places[id].line) && Word(places[id].col)
  }

  /** The resolution loop: segments that do not resolve are dropped, and sources are interned in the
      order of their first use. */
  method ResolveSegments(segments: seq<Segment>, places: map<nat, Place>) returns (mapped: seq<Mapped>, sources: seq<string>)
    requires |segments| < 0x1_0000_0000 && WordPlaces(segments, places)
    ensures AllName(mapped, sources, Resolved(segments, places))
    ensures sources == FirstUses(Resolved(segments, places)) && Distinct(sources)
    ensures forall k :: 0 <= k < |mapped| ==> Words(mapped[k])
  {
    mapped, sources := [], [];
    ghost var done: seq<Segment> := [];
    for i := 0 to |segments|
      invariant done == segments[..i] && |sources| <= i
      invariant Resolving(mapped, sources, Resolved(done, places))
    {
      var s := segments[i];
      ResolvedSnoc(done, s, places);
      done := done + [s];
      if s.id in places {
        mapped, sources := MapOne(mapped, sources, s, places[s.id], Resolved(segments[..i], places));
      } else {
        assert Resolved(segments[..i], places) + [] == Resolved(segments[..i], places);
      }
    }
    assert segments[..|segments|] == segments;
  }

  /** The state of the resolution loop after these origins. */
  ghost predicate Resolving(mapped: seq<Mapped>, sources: seq<string>, origins: seq<Origin>)
  {
    AllName(mapped, sources, origins) && sources == FirstUses(origins) && Distinct(sources)
    && forall k :: 0 <= k < |mapped| ==> Words(mapped[k])
  }

  method MapOne(mapped0: seq<Mapped>, sources0: seq<string>, s: Segment, place: Place, ghost origins: seq<Origin>)
    returns (mapped: seq<Mapped>, sources: seq<string>)
    requires Resolving(mapped0, sources0, origins) && |sources0| < 0xffff_ffff
    requires Word(s.genLine) && Word(s.genCol) && Word(place.line) && Word(place.col)
    ensures Resolving(mapped, sources, origins + [OriginOf(s, place)]) && |sources| <= |sources0| + 1
  {
    var idx;
    sources, idx := InternSource(sources0, place.path);
    var m := Mapped(s.genLine, s.genCol, idx, place.line, place.col);
    AllNameMore(mapped0, sources0, sources, origins, m, OriginOf(s, place));
    FirstUsesSnoc(origins, OriginOf(s, place));
    mapped := mapped0 + [m];
  }

  lemma {:induction false} FirstUsesSnoc(l: seq<Origin>, o: Origin)
    ensures FirstUses(l + [o]) == if o.path in FirstUses(l) then FirstUses(l) else FirstUses(l) + [o.path]
  {
    assert (l + [o])[..|l|] == l;
  }

  /** Line and column order survives the dropping of segments. */
  lemma {:induction false} ResolvedAscend(s: seq<Segment>, places: map<nat, Place>, line: nat)
    requires Ordered(s) && (s != [] ==> line <= s[0].genLine)
    ensures OriginsAscend(line, Resolved(s, places))
  {
    if s != [] {
      var rest := s[1..];
      assert rest != [] ==> s[0].genLine <= rest[0].genLine;
      if s[0].id in places {
        ResolvedAscend(rest, places, s[0].genLine);
        var o := OriginOf(s[0], places[s[0].id]);
        assert ([o] + Resolved(rest, places))[1..] == Resolved(rest, places);
      } else {
        ResolvedAscend(rest, places, line);
        assert [] + Resolved(rest, places) == Resolved(rest, places);
      }
    }
  }

  predicate OriginsAscend(line: nat, l: seq<Origin>)
    decreases |l|
  {
    l != [] ==> line <= l[0].genLine && OriginsAscend(l[0].genLine, l[1..])
  }

  lemma {:induction false} MappedAscend(l: seq<Mapped>, sources: seq<string>, origins: seq<Origin>, line: nat)
    requires AllName(l, sources, origins) && OriginsAscend(line, origins)
    ensures LinesAscend(line, l)
    decreases |l|
  {
    if l != [] {
      assert Names(Shown(l[0]), sources, origins[0]);
      forall k | 0 <= k < |l[1..]|
        ensures Names(Shown(l[1..][k]), sources, origins[1..][k])
      {
        assert Names(Shown(l[k + 1]), sources, origins[k + 1]);
      }
      MappedAscend(l[1..], sources, origins[1..], l[0].genLine);
    }
  }

  lemma {:induction false} ShownAt(l: seq<Mapped>)
    ensures |AllShown(l)| == |l| && forall k :: 0 <= k < |l| ==> AllShown(l)[k] == Shown(l[k])
  {
    if l != [] {
      ShownAt(l[1..]);
    }
  }

  /** What a consumer reads: each decoded segment against the list of sources. */
  predicate ReadsAs(mappings: string, sources: seq<string>, origins: seq<Origin>)
  {
    match Decode(mappings)
    case None => false
    case Some(d) => |d| == |origins| && forall k :: 0 <= k < |d| ==> Names(d[k], sources, origins[k])
  }

  /** Renders the sources and the mappings of the segments, in any order that the sort may leave them.
      A consumer reads back exactly the segments that resolve, unless some delta is too large to decode. */
  method Render(segments: seq<Segment>, sorted: seq<Segment>, places: map<nat, Place>)
    returns (sources: seq<string>, mappings: string, ghost mapped: seq<Mapped>)
    requires |segments| < 0x1_0000_0000 && WordPlaces(segments, places)
    requires Ordered(sorted) && multiset(sorted) == multiset(segments)
    ensures sources == FirstUses(Resolved(sorted, places)) && Distinct(sources)
    ensures AllName(mapped, sources, Resolved(sorted, places))
    ensures ReadsAs(mappings, sources, Resolved(sorted, places)) <==> AllFit(mapped, 0, ORIGIN)
  {
    SameWords(segments, sorted, places);
    var rows;
    rows, sources := ResolveSegments(sorted, places);
    mapped := rows;
    ResolvedAscend(sorted, places, 0);
    MappedAscend(mapped, sources, Resolved(sorted, places), 0);
    mappings := Mappings(rows);
    MappingsRoundTrip(mapped);
    ShownAt(mapped);
  }

  lemma {:induction false} SameWords(segments: seq<Segment>, sorted: seq<Segment>, places: map<nat, Place>)
    requires WordPlaces(segments, places) && multiset(sorted) == multiset(segments)
    ensures WordPlaces(sorted, places) && |sorted| == |segments|
  {
    assert |multiset(sorted)| == |multiset(segments)|;
    forall k | 0 <= k < |sorted|
      ensures Word(sorted[k].genLine) && Word(sorted[k].genCol)
    {
      assert sorted[k] in multiset(sorted);
      assert sorted[k] in segments;
    }
  }

  /** Small maps always decode: with every line, column and index below 2^31 no delta is too large. */
  lemma {:induction false} SmallMapsFit(l: seq<Mapped>, line: nat, p: Position)
    requires forall k :: 0 <= k < |l| ==> Fits(l[k].genCol) && Fits(l[k].srcIdx) && Fits(l[k].srcLine) && Fits(l[k].srcCol)
    requires 0 <= p.col && Fits(p.col) && 0 <= p.src && Fits(p.src) && 0 <= p.sline && Fits(p.sline) && 0 <= p.scol && Fits(p.scol)
    ensures AllFit(l, line, p)
    decreases |l|
  {
    if l != [] {
      SmallMapsFit(l[1..], l[0].genLine, At(l[0]));
    }
  }
}
