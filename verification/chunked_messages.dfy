/**
  The messages of section 4.1 of RFC 7230, written down apart from the program that writes and reads them: what is on
  the wire for every sequence of writes, and what the reader makes of every message and of every number.
*/
module ChunkedMessages {
  import opened ChunkedCoding
  import opened Text

  // ----- Hexadecimal numerals -----

  /** A hexadecimal digit by its value, in one case or the other. */
  datatype HexDigit = HexDigit(value: nat, upper: bool)

  function Glyph(d: HexDigit): char
    requires d.value < 16
  {
    if d.upper then "0123456789ABCDEF"[d.value] else "0123456789abcdef"[d.value]
  }

  predicate Digits(ds: seq<HexDigit>) { forall i :: 0 <= i < |ds| ==> ds[i].value < 16 }

  function Spelled(ds: seq<HexDigit>): (s: string)
    requires Digits(ds)
    ensures |s| == |ds|
  {
    seq(|ds|, i requires 0 <= i < |ds| => Glyph(ds[i]))
  }

  function Positional(ds: seq<HexDigit>): nat {
    if ds == [] then 0 else 16 * Positional(ds[..|ds| - 1]) + ds[|ds| - 1].value
  }

  lemma GlyphValue(d: HexDigit)
    requires d.value < 16
    ensures DigitValue(Glyph(d)) == d.value && !IsSpace(Glyph(d)) && Glyph(d) !in "-+xX\0\n\r"
  {
  }

  lemma DigitsAreListed(c: char)
    ensures DigitValue(c) >= 0 ==> c in "0123456789abcdefABCDEF"
  {
    if '0' <= c <= '9' {
      assert "0123456789abcdefABCDEF"[c as int - '0' as int] == c;
    } else if 'a' <= c <= 'f' {
      assert "0123456789abcdefABCDEF"[10 + c as int - 'a' as int] == c;
    } else if 'A' <= c <= 'F' {
      assert "0123456789abcdefABCDEF"[16 + c as int - 'A' as int] == c;
    }
  }

  lemma SpelledIsPlain(ds: seq<HexDigit>)
    requires Digits(ds)
    ensures Plain(Spelled(ds)) && '\r' !in Spelled(ds)
  {
    forall i | 0 <= i < |ds| ensures DigitValue(Spelled(ds)[i]) == ds[i].value && Spelled(ds)[i] !in "-+xX\0\n\r"
      && !IsSpace(Spelled(ds)[i]) {
      GlyphValue(ds[i]);
    }
  }

  /** The program's reading of the digits gives the positional value. */
  lemma {:induction false} ValueIsPositional(ds: seq<HexDigit>)
    requires Digits(ds)
    ensures Value(Spelled(ds)) == Positional(ds)
  {
    if ds == [] {
    } else {
      var front := ds[..|ds| - 1];
      ValueIsPositional(front);
      GlyphValue(ds[|ds| - 1]);
      assert Spelled(ds)[..|ds| - 1] == Spelled(front);
    }
  }

  // ----- Numbers as the C library reads them -----

  predicate Blank(s: string) { forall i :: 0 <= i < |s| ==> s[i] in " \t\n\U{0B}\U{0C}\r" }

  /** No digit of the number goes on in `s`. */
  predicate NoDigit(s: string) { s == "" || s[0] !in "0123456789abcdefABCDEF" }

  lemma {:induction false} SpaceSpanIs(spaces: string, s: string)
    requires Blank(spaces) && (s == "" || s[0] !in " \t\n\U{0B}\U{0C}\r")
    ensures SpaceSpan(spaces + s) == |spaces|
  {
    if spaces == "" {
      assert spaces + s == s;
      if s != "" {
        NotASpace(s[0]);
      }
    } else {
      assert (spaces + s)[1..] == spaces[1..] + s;
      SpaceSpanIs(spaces[1..], s);
    }
  }

  lemma NotASpace(c: char)
    requires c !in " \t\n\U{0B}\U{0C}\r"
    ensures !IsSpace(c)
  {
    var blanks := " \t\n\U{0B}\U{0C}\r";
    assert blanks[0] == ' ' && blanks[1] == '\t' && blanks[2] == '\n' && blanks[3] == '\U{0B}';
    assert blanks[4] == '\U{0C}' && blanks[5] == '\r';
  }

  lemma DigitsSpan(ds: seq<HexDigit>, rest: string)
    requires Digits(ds) && NoDigit(rest)
    ensures DigitSpan(Spelled(ds) + rest) == |ds|
  {
    SpelledIsPlain(ds);
    if rest != "" {
      DigitsAreListed(rest[0]);
    }
    DigitSpanIs(Spelled(ds), rest);
  }

  datatype Sign = Unsigned | Plus | Minus

  datatype Prefix = Bare | Prefixed(upper: bool)

  function SignText(sign: Sign): string {
    match sign
    case Unsigned => ""
    case Plus => "+"
    case Minus => "-"
  }

  function PrefixText(prefix: Prefix): string {
    match prefix
    case Bare => ""
    case Prefixed(upper) => if upper then "0X" else "0x"
  }

  /** What a prefix and digits look like, with more behind them. */
  function Hexadecimal(prefix: Prefix, ds: seq<HexDigit>, rest: string): string
    requires Digits(ds)
  {
    PrefixText(prefix) + (Spelled(ds) + rest)
  }

  /** A number with white space and a sign in front. */
  function Numeral(spaces: string, sign: Sign, body: string): string { spaces + (SignText(sign) + body) }

  /** The number is not the zero of a prefix. */
  predicate NoPrefix(ds: seq<HexDigit>, rest: string) {
    |ds| == 1 && ds[0].value == 0 && |rest| > 1 && rest[0] in "xX" ==> NoDigit(rest[1..])
  }

  lemma PrefixIs(prefix: Prefix, ds: seq<HexDigit>, rest: string)
    requires Digits(ds) && ds != [] && NoDigit(rest) && (prefix.Bare? ==> NoPrefix(ds, rest))
    ensures SkipPrefix(Hexadecimal(prefix, ds, rest)) == |PrefixText(prefix)| <= |Hexadecimal(prefix, ds, rest)|
    ensures Hexadecimal(prefix, ds, rest)[|PrefixText(prefix)|..] == Spelled(ds) + rest
    ensures Begins(Hexadecimal(prefix, ds, rest))
  {
    var s := Hexadecimal(prefix, ds, rest);
    GlyphValue(ds[0]);
    if prefix.Prefixed? {
      assert s[0] == '0' && s[1] in "xX" && s[2] == Glyph(ds[0]);
    } else {
      assert s[0] == Glyph(ds[0]);
      if |ds| > 1 {
        GlyphValue(ds[1]);
        assert s[1] == Glyph(ds[1]);
      } else if |rest| > 1 {
        assert s[1] == rest[0] && s[2] == rest[1];
        DigitsAreListed(rest[1]);
      }
    }
  }

  /** Neither white space nor a sign comes next. */
  predicate Begins(s: string) { s != "" && s[0] !in " \t\n\U{0B}\U{0C}\r+-" }

  /** A value beyond the largest number reads as that; a minus negates modulo one more than the largest number. */
  function Clamped(v: nat, sign: Sign, max: nat): nat {
    if v > max then max else if sign.Minus? && v > 0 then max + 1 - v else v
  }

  /** White space and a sign in front of `body`. */
  lemma SignIs(spaces: string, sign: Sign, body: string, max: nat)
    requires Blank(spaces) && Begins(body)
    ensures Strtoul(Numeral(spaces, sign, body), max) ==
              StrtoulBody(|spaces| + |SignText(sign)| + |body|, body, sign.Minus?, max)
  {
    hide StrtoulBody;
    var signed := SignText(sign) + body;
    assert sign.Unsigned? ==> signed == body;
    assert !sign.Unsigned? ==> signed[1..] == body;
    SpaceSpanIs(spaces, signed);
    assert (spaces + signed)[|spaces|..] == signed;
  }

  /** Where the digits of a number without sign are. */
  lemma DigitsAre(prefix: Prefix, ds: seq<HexDigit>, rest: string)
    requires Digits(ds) && ds != [] && NoDigit(rest) && (prefix.Bare? ==> NoPrefix(ds, rest))
    ensures var s := Hexadecimal(prefix, ds, rest);
            var digits := s[SkipPrefix(s)..];
            && DigitSpan(digits) == |ds| && digits[..|ds|] == Spelled(ds) && |digits| == |s| - |PrefixText(prefix)|
            && Begins(s)
  {
    PrefixIs(prefix, ds, rest);
    DigitsSpan(ds, rest);
  }

  lemma BodyReads(size: nat, body: string, sign: Sign, digits: string, max: nat)
    requires |body| <= size && SkipPrefix(body) <= |body| && digits != ""
    requires DigitSpan(body[SkipPrefix(body)..]) == |digits| && body[SkipPrefix(body)..][..|digits|] == digits
    ensures StrtoulBody(size, body, sign.Minus?, max) ==
              (Clamped(Value(digits), sign, max), size - |body[SkipPrefix(body)..]| + |digits|)
  {
    hide DigitSpan, SkipPrefix, Value;
  }

  /**
    `strtoul` in base 16, for every number it reads: white space, a sign, `0x` and digits in either case give the
    digits' value, and it stops behind them.
  */
  lemma StrtoulReads(spaces: string, sign: Sign, prefix: Prefix, ds: seq<HexDigit>, rest: string, max: nat)
    requires Blank(spaces) && Digits(ds) && ds != [] && NoDigit(rest) && (prefix.Bare? ==> NoPrefix(ds, rest))
    ensures Strtoul(Numeral(spaces, sign, Hexadecimal(prefix, ds, rest)), max) ==
              (Clamped(Positional(ds), sign, max), |spaces| + |SignText(sign)| + |PrefixText(prefix)| + |ds|)
  {
    hide *;
    var body := Hexadecimal(prefix, ds, rest);
    DigitsAre(prefix, ds, rest);
    SignIs(spaces, sign, body, max);
    ValueIsPositional(ds);
    BodyReads(|spaces| + |SignText(sign)| + |body|, body, sign, Spelled(ds), max);
  }

  /** Without a digit behind the white space and the sign there is no number. */
  lemma StrtoulFindsNothing(spaces: string, sign: Sign, rest: string, max: nat)
    requires Blank(spaces) && NoDigit(rest) && (sign.Unsigned? ==> rest == "" || Begins(rest))
    ensures Strtoul(Numeral(spaces, sign, rest), max) == (0, 0)
  {
    var signed := SignText(sign) + rest;
    assert sign.Unsigned? ==> signed == rest;
    assert !sign.Unsigned? ==> signed[1..] == rest;
    SpaceSpanIs(spaces, signed);
    assert (spaces + signed)[|spaces|..] == signed;
    if rest != "" {
      DigitsAreListed(rest[0]);
      assert rest[0] != '0' && rest[0..] == rest;
    }
  }

  lemma DigitOf(c: char) returns (d: HexDigit)
    requires c in "0123456789abcdefABCDEF"
    ensures d.value < 16 && Glyph(d) == c
  {
    var all := "0123456789abcdefABCDEF";
    var i :| 0 <= i < |all| && all[i] == c;
    d := if i < 16 then HexDigit(i, false) else HexDigit(i - 6, true);
    assert i >= 16 ==> all[i] == "0123456789ABCDEF"[i - 6];
  }

  lemma FirstDigit(d: HexDigit, others: seq<HexDigit>)
    requires d.value < 16 && Digits(others)
    ensures Digits([d] + others) && Spelled([d] + others) == [Glyph(d)] + Spelled(others)
  {
  }

  /** The digits that a text begins with. */
  lemma {:induction false} DigitsOf(s: string) returns (ds: seq<HexDigit>, rest: string)
    ensures Digits(ds) && s == Spelled(ds) + rest && NoDigit(rest) && (ds == [] ==> rest == s)
  {
    if NoDigit(s) {
      ds, rest := [], s;
    } else {
      var d := DigitOf(s[0]);
      var others;
      others, rest := DigitsOf(s[1..]);
      ds := [d] + others;
      FirstDigit(d, others);
    }
  }

  lemma {:induction false} BlanksOf(s: string) returns (spaces: string, rest: string)
    ensures Blank(spaces) && s == spaces + rest && (rest == "" || rest[0] !in " \t\n\U{0B}\U{0C}\r")
  {
    if s == "" || s[0] !in " \t\n\U{0B}\U{0C}\r" {
      spaces, rest := "", s;
    } else {
      var others;
      others, rest := BlanksOf(s[1..]);
      spaces := [s[0]] + others;
    }
  }

  lemma SignOf(s: string) returns (sign: Sign, body: string)
    requires s == "" || s[0] !in " \t\n\U{0B}\U{0C}\r"
    ensures s == SignText(sign) + body && (sign.Unsigned? ==> body == "" || Begins(body))
  {
    if s != "" && s[0] == '-' {
      sign, body := Minus, s[1..];
    } else if s != "" && s[0] == '+' {
      sign, body := Plus, s[1..];
    } else {
      sign, body := Unsigned, s;
    }
  }

  lemma PrefixFirst(s: string, ds: seq<HexDigit>, rest: string)
    requires Digits(ds) && s == Spelled(ds) + rest && !NoPrefix(ds, rest)
    ensures s == PrefixText(Prefixed(rest[0] == 'X')) + rest[1..]
  {
    GlyphValue(ds[0]);
    assert s[0] == Glyph(ds[0]) == '0' && s[1] == rest[0] && s[2..] == rest[1..];
  }

  /** The longest number that a text begins with. */
  lemma NumberOf(s: string) returns (prefix: Prefix, ds: seq<HexDigit>, rest: string)
    ensures Digits(ds) && (ds == [] ==> NoDigit(s))
    ensures ds != [] ==> s == Hexadecimal(prefix, ds, rest) && NoDigit(rest) && (prefix.Bare? ==> NoPrefix(ds, rest))
  {
    prefix := Bare;
    ds, rest := DigitsOf(s);
    if ds != [] && !NoPrefix(ds, rest) {
      prefix := Prefixed(rest[0] == 'X');
      PrefixFirst(s, ds, rest);
      ds, rest := DigitsOf(rest[1..]);
    }
  }

  /** There is no other text: each is one of those that the two lemmas before speak about. */
  lemma EveryTextIsOne(s: string)
    returns (spaces: string, sign: Sign, body: string, prefix: Prefix, ds: seq<HexDigit>, rest: string)
    ensures s == Numeral(spaces, sign, body) && Blank(spaces) && Digits(ds)
    ensures ds == [] ==> NoDigit(body) && (sign.Unsigned? ==> body == "" || Begins(body))
    ensures ds != [] ==>
              body == Hexadecimal(prefix, ds, rest) && NoDigit(rest) && (prefix.Bare? ==> NoPrefix(ds, rest))
  {
    var signed;
    spaces, signed := BlanksOf(s);
    sign, body := SignOf(signed);
    prefix, ds, rest := NumberOf(body);
  }

  // ----- Lines -----

  /** A line goes up to its line feed, with or without a carriage return before it. */
  lemma {:induction false} LineEndsAtFeed(s: string, tail: string)
    requires '\n' !in s
    ensures Line(s + "\n" + tail) == s + "\n" && AfterLine(s + "\n" + tail) == tail
    ensures LineLength(s + "\n" + tail) == |s| + 1
  {
    var t := s + "\n" + tail;
    if s == "" {
      assert t[0] == '\n' && LineLength(t) == 1;
    } else {
      assert t[1..] == s[1..] + "\n" + tail;
      LineEndsAtFeed(s[1..], tail);
    }
  }

  lemma LineIs(s: string, tail: string)
    requires '\n' !in s
    ensures Line(s + "\r\n" + tail) == s + "\r\n" && AfterLine(s + "\r\n" + tail) == tail
    ensures LineLength(s + "\r\n" + tail) == |s| + 2
  {
    LineEndsAtFeed(s + "\r", tail);
    assert s + "\r" + "\n" == s + "\r\n";
    assert s + "\r" + "\n" + tail == s + "\r\n" + tail;
  }

  lemma {:induction false} CStringBehind(s: string, t: string)
    requires '\0' !in s
    ensures CString(s + t) == s + CString(t)
  {
    if s == "" {
      assert s + t == t;
    } else {
      assert (s + t)[1..] == s[1..] + t;
      CStringBehind(s[1..], t);
      assert s == [s[0]] + s[1..];
    }
  }

  lemma {:induction false} CStringIsBeginning(s: string)
    ensures CString(s) <= s
  {
    if s != "" && s[0] != '\0' {
      CStringIsBeginning(s[1..]);
    }
  }

  lemma {:induction false} NoDigitsNoNumber(s: string)
    requires forall i :: 0 <= i < |s| ==> s[i] !in "0123456789abcdefABCDEF"
    ensures SkipPrefix(s) == 0 && DigitSpan(s) == 0
  {
    if s != "" {
      DigitsAreListed(s[0]);
    }
  }

  lemma NoDigitsReadNothing(s: string, max: nat)
    requires forall i :: 0 <= i < |s| ==> s[i] !in "0123456789abcdefABCDEF"
    ensures Strtoul(s, max) == (0, 0)
  {
    var signed := s[SpaceSpan(s)..];
    hide SpaceSpan, SkipPrefix, DigitSpan;
    assert signed[0..] == signed;
    NoDigitsNoNumber(signed);
    if signed != "" {
      NoDigitsNoNumber(signed[1..]);
    }
  }

  // ----- Messages -----

  /** A chunk: its size in digits of either case, with leading zeros or not, an extension, and the data. */
  datatype Piece = Piece(size: seq<HexDigit>, extension: string, data: string)

  /** Chunks, the last chunk's zeros and extension, and the lines of the trailer. */
  datatype Message = Message(chunks: seq<Piece>, zeros: seq<HexDigit>, extension: string, trailer: seq<string>)

  predicate IsExtension(e: string) { '\n' !in e && (e == "" || e[0] in "; \t") }

  predicate IsSize(ds: seq<HexDigit>, n: nat) { Digits(ds) && ds != [] && Positional(ds) == n }

  predicate IsPiece(p: Piece) { IsSize(p.size, |p.data|) && p.data != "" && IsExtension(p.extension) }

  predicate IsField(line: string) { line != "" && '\n' !in line }

  predicate IsMessage(m: Message) {
    && (forall i :: 0 <= i < |m.chunks| ==> IsPiece(m.chunks[i]))
    && IsSize(m.zeros, 0) && IsExtension(m.extension)
    && (forall i :: 0 <= i < |m.trailer| ==> IsField(m.trailer[i]))
  }

  function SizeLineText(ds: seq<HexDigit>, extension: string): string
    requires Digits(ds)
  {
    Spelled(ds) + extension + "\r\n"
  }

  function PieceText(p: Piece): string
    requires IsPiece(p)
  {
    SizeLineText(p.size, p.extension) + p.data + "\r\n"
  }

  function TrailerText(lines: seq<string>): string {
    if lines == [] then "\r\n" else lines[0] + "\r\n" + TrailerText(lines[1..])
  }

  function MessageText(m: Message): string
    requires IsMessage(m)
    decreases |m.chunks|
  {
    if m.chunks == [] then SizeLineText(m.zeros, m.extension) + TrailerText(m.trailer)
    else PieceText(m.chunks[0]) + MessageText(m.(chunks := m.chunks[1..]))
  }

  function Content(chunks: seq<Piece>): string {
    if chunks == [] then "" else chunks[0].data + Content(chunks[1..])
  }

  /** What the reader makes of a line that a size begins, whatever end of line it has. */
  lemma SizeIsTaken(ds: seq<HexDigit>, more: string, tail: string, max: nat)
    requires Digits(ds) && ds != [] && '\n' !in more && (more == "" || more[0] in "; \t\r") && max > 0
    ensures var n := Positional(ds);
            ReadChunks(Spelled(ds) + more + "\n" + tail, max) ==
              if n >= max then Refused("") else if n == 0 then ReadTrailer(tail) else ReadData(n, tail, max)
  {
    var digits, rest := Spelled(ds), CString(more + "\n");
    SpelledIsPlain(ds);
    LineEndsAtFeed(digits + more, tail);
    assert digits + more + "\n" == digits + (more + "\n");
    CStringBehind(digits, more + "\n");
    CStringIsBeginning(more + "\n");
    assert rest == "" || rest[0] in "; \t\r\n";
    SizeIsRead(ds, rest, max);
  }

  lemma ReturnAndFeed(digits: string, extension: string, tail: string)
    requires IsExtension(extension)
    ensures digits + (extension + "\r") + "\n" + tail == digits + extension + "\r\n" + tail
    ensures '\n' !in extension + "\r" && (extension + "\r")[0] in "; \t\r"
  {
  }

  /** What the reader makes of a size line. */
  lemma SizeLineIsRead(ds: seq<HexDigit>, extension: string, tail: string, max: nat)
    requires Digits(ds) && ds != [] && IsExtension(extension) && max > 0
    ensures var n := Positional(ds);
            ReadChunks(SizeLineText(ds, extension) + tail, max) ==
              if n >= max then Refused("") else if n == 0 then ReadTrailer(tail) else ReadData(n, tail, max)
  {
    hide Spelled, Positional, ReadChunks, ReadTrailer, ReadData;
    ReturnAndFeed(Spelled(ds), extension, tail);
    SizeIsTaken(ds, extension + "\r", tail, max);
  }

  lemma SizeEnds(ds: seq<HexDigit>, rest: string)
    requires Digits(ds) && (rest == "" || rest[0] in "; \t\r\n")
    ensures NoDigit(rest) && NoPrefix(ds, rest) && Blank("")
    ensures Numeral("", Unsigned, Hexadecimal(Bare, ds, rest)) == Spelled(ds) + rest
  {
  }

  lemma SizeIsRead(ds: seq<HexDigit>, rest: string, max: nat)
    requires Digits(ds) && ds != [] && (rest == "" || rest[0] in "; \t\r\n")
    ensures Strtoul(Spelled(ds) + rest, max) == (if Positional(ds) > max then max else Positional(ds), |ds|)
  {
    hide Strtoul, Positional, Spelled, NoDigit, NoPrefix, Blank, Numeral, Hexadecimal, Digits;
    SizeEnds(ds, rest);
    StrtoulReads("", Unsigned, Bare, ds, rest, max);
  }

  /** A line of the trailer is skipped if it has, with its end, at most 8192 bytes, and refused otherwise. */
  lemma FieldIsRead(line: string, tail: string)
    requires IsField(line)
    ensures ReadTrailer(line + "\r\n" + tail) == if |line| + 2 > 8192 then Refused("") else ReadTrailer(tail)
  {
    FeedIsRead(line + "\r", tail);
    assert line + "\r" + "\n" + tail == line + "\r\n" + tail;
  }

  /** So for every line but the empty one that ends the trailer, whatever end of line it has. */
  lemma FeedIsRead(line: string, tail: string)
    requires line != "\r" && '\n' !in line
    ensures ReadTrailer(line + "\n" + tail) == if |line| + 1 > 8192 then Refused("") else ReadTrailer(tail)
  {
    LineEndsAtFeed(line, tail);
    if '\0' !in line {
      CStringBehind(line, "\n");
      assert CString("\n") == "\n" by {
        assert "\n"[1..] == "";
      }
      assert CR_LF[0] == '\r';
      assert |line| == 1 ==> line == [line[0]] && (line + "\n")[0] == line[0];
    } else {
      NullCutsLine(line, "\n");
      assert CR_LF[1] == '\n';
    }
  }

  lemma {:induction false} NullCutsLine(s: string, t: string)
    requires '\0' in s
    ensures |CString(s + t)| < |s| && CString(s + t) <= s
  {
    assert (s + t)[1..] == s[1..] + t;
    if s[0] != '\0' {
      NullCutsLine(s[1..], t);
    }
  }

  predicate FieldFits(line: string) { |line| + 2 <= 8192 }

  predicate FieldsFit(lines: seq<string>) { forall i :: 0 <= i < |lines| ==> FieldFits(lines[i]) }

  lemma {:induction false} TrailerIsRead(lines: seq<string>, tail: string)
    requires forall i :: 0 <= i < |lines| ==> IsField(lines[i])
    ensures ReadTrailer(TrailerText(lines) + tail) == if FieldsFit(lines) then Accepted("", tail) else Refused("")
  {
    if lines == [] {
      EmptyLineEnds(tail);
    } else {
      assert TrailerText(lines) + tail == lines[0] + "\r\n" + (TrailerText(lines[1..]) + tail);
      FieldIsRead(lines[0], TrailerText(lines[1..]) + tail);
      TrailerIsRead(lines[1..], tail);
      assert FieldsFit(lines) <==> FieldFits(lines[0]) && FieldsFit(lines[1..]) by {
        if FieldFits(lines[0]) && FieldsFit(lines[1..]) {
          forall i | 0 <= i < |lines| ensures FieldFits(lines[i]) {
            assert i > 0 ==> lines[i] == lines[1..][i - 1];
          }
        }
      }
    }
  }

  lemma {:induction false} LineBegins(s: string)
    ensures Line(s) == "\r\n" <==> "\r\n" <= s
    ensures CString(Line(s)) == "\r\n" <==> "\r\n" <= s
  {
    if "\r\n" <= s {
      LineIs("", s[2..]);
      assert s == "" + "\r\n" + s[2..];
      CStringBehind("\r\n", "");
      assert "\r\n" + "" == "\r\n";
    } else {
      CStringIsBeginning(Line(s));
      assert Line(s) <= s;
    }
  }

  lemma DataIsRead(n: nat, more: string, max: nat)
    requires 0 < n
    ensures ReadData(n, more, max) ==
              if |more| < n then Refused(more)
              else if "\r\n" <= more[n..] then Delivered(more[..n], ReadChunks(more[n + 2..], max))
              else Refused(more[..n])
  {
    if |more| >= n {
      var after := more[n..];
      LineBegins(after);
      if "\r\n" <= after {
        LineIs("", after[2..]);
        assert after == "" + "\r\n" + after[2..];
        assert after[2..] == more[n + 2..];
      }
    }
  }

  /** A chunk, whatever is behind its size line: the data must be there, and an end of line behind them. */
  lemma ChunkIsRead(ds: seq<HexDigit>, extension: string, more: string, max: nat)
    requires Digits(ds) && ds != [] && IsExtension(extension) && 0 < Positional(ds) < max
    ensures var n := Positional(ds);
            ReadChunks(SizeLineText(ds, extension) + more, max) ==
              if |more| < n then Refused(more)
              else if "\r\n" <= more[n..] then Delivered(more[..n], ReadChunks(more[n + 2..], max))
              else Refused(more[..n])
  {
    SizeLineIsRead(ds, extension, more, max);
    DataIsRead(Positional(ds), more, max);
    hide ReadChunks, ReadData, Positional, Spelled;
  }

  /** A size line without a single digit is refused. */
  lemma NoSizeIsRefused(line: string, tail: string, max: nat)
    requires '\n' !in line && forall i :: 0 <= i < |line| ==> line[i] !in "0123456789abcdefABCDEF"
    ensures ReadChunks(line + "\r\n" + tail, max) == Refused("")
  {
    LineIs(line, tail);
    CStringIsBeginning(line + "\r\n");
    NoDigitsReadNothing(CString(line + "\r\n"), max);
    hide Strtoul;
  }

  lemma PieceIsRead(p: Piece, tail: string, max: nat)
    requires IsPiece(p) && max > 0
    ensures ReadChunks(PieceText(p) + tail, max) ==
              if |p.data| >= max then Refused("") else Delivered(p.data, ReadChunks(tail, max))
  {
    var data := p.data + "\r\n" + tail;
    assert PieceText(p) + tail == SizeLineText(p.size, p.extension) + data;
    SizeLineIsRead(p.size, p.extension, data, max);
    WholeChunk(p.data, tail, max);
  }

  predicate AllShort(chunks: seq<Piece>, max: nat) { forall i :: 0 <= i < |chunks| ==> |chunks[i].data| < max }

  lemma AllShortUnfolds(chunks: seq<Piece>, max: nat)
    requires chunks != []
    ensures AllShort(chunks, max) <==> |chunks[0].data| < max && AllShort(chunks[1..], max)
  {
    if |chunks[0].data| < max && AllShort(chunks[1..], max) {
      forall i | 0 <= i < |chunks| ensures |chunks[i].data| < max {
        assert i > 0 ==> chunks[i] == chunks[1..][i - 1];
      }
    }
  }

  /**
    The reader, on every message: it delivers the whole content and stops right behind the message if and only if each
    chunk is smaller than the largest number and each trailer line has at most 8192 bytes, its end included. Otherwise
    it refuses, having delivered a beginning of the content.
  */
  lemma {:induction false} MessageIsRead(m: Message, tail: string, max: nat)
    requires IsMessage(m) && max > 0
    ensures AllShort(m.chunks, max) && FieldsFit(m.trailer) ==>
              ReadChunks(MessageText(m) + tail, max) == Accepted(Content(m.chunks), tail)
    ensures !(AllShort(m.chunks, max) && FieldsFit(m.trailer)) ==>
              ReadChunks(MessageText(m) + tail, max).Refused? &&
              ReadChunks(MessageText(m) + tail, max).body <= Content(m.chunks)
    decreases |m.chunks|
  {
    if m.chunks == [] {
      assert MessageText(m) + tail == SizeLineText(m.zeros, m.extension) + (TrailerText(m.trailer) + tail);
      SizeLineIsRead(m.zeros, m.extension, TrailerText(m.trailer) + tail, max);
      TrailerIsRead(m.trailer, tail);
    } else {
      var p, later := m.chunks[0], m.(chunks := m.chunks[1..]);
      Associate(PieceText(p), MessageText(later), tail);
      PieceIsRead(p, MessageText(later) + tail, max);
      MessageIsRead(later, tail, max);
      AllShortUnfolds(m.chunks, max);
      hide AllShort, FieldsFit, ReadChunks, PieceText, IsPiece;
    }
  }

  /** A trailer without its last line end is refused. */
  lemma TrailerNeedsItsEnd(s: string)
    requires '\n' !in s
    ensures ReadTrailer(s) == Refused("")
  {
    WholeLine(s);
    if s != "" {
      CStringIsBeginning(s);
      assert Line(s) == s && AfterLine(s) == "" && '\n' !in CString(s);
      assert CR_LF[1] == '\n';
    }
  }

  // ----- What is written -----

  /** The least numeral of `n` > 0 in lower case. */
  ghost predicate IsHead(head: string, n: nat) {
    && head != "" && head[0] != '0' && (forall i :: 0 <= i < |head| ==> head[i] in "0123456789abcdef")
    && exists ds: seq<HexDigit> :: Digits(ds) && head == Spelled(ds) && Positional(ds) == n
  }

  ghost predicate ChunkOnWire(sent: string, data: string) {
    exists head: string :: IsHead(head, |data|) && sent == head + "\r\n" + data + "\r\n"
  }

  /** One chunk a write; an empty write is taken for the end, and otherwise the last chunk and an empty trailer follow. */
  ghost predicate OnWire(sent: string, pieces: seq<string>) {
    if pieces == [] then sent == "0\r\n\r\n"
    else if pieces[0] == "" then sent == ""
    else
      exists k: nat :: k <= |sent| && ChunkOnWire(sent[..k], pieces[0]) && OnWire(sent[k..], pieces[1..])
  }

  lemma OneMoreDigit(front: seq<HexDigit>, last: HexDigit)
    requires Digits(front) && last.value < 16
    ensures Digits(front + [last]) && Spelled(front + [last]) == Spelled(front) + [Glyph(last)]
    ensures Positional(front + [last]) == 16 * Positional(front) + last.value
  {
    assert (front + [last])[..|front|] == front;
  }

  lemma {:induction false} HexDigitsOf(n: nat) returns (ds: seq<HexDigit>)
    ensures Digits(ds) && ds != [] && Spelled(ds) == Hex(n) && Positional(ds) == n
    ensures n > 0 ==> ds[0].value > 0
    ensures forall i :: 0 <= i < |ds| ==> !ds[i].upper
  {
    var last := HexDigit(n % 16, false);
    if n < 16 {
      ds := [last];
      assert ds[..0] == [];
    } else {
      var front := HexDigitsOf(n / 16);
      ds := front + [last];
      OneMoreDigit(front, last);
    }
  }

  lemma GlyphIsLower(d: HexDigit)
    requires d.value < 16 && !d.upper
    ensures Glyph(d) in "0123456789abcdef" && (d.value > 0 ==> Glyph(d) != '0')
  {
  }

  /** `from_i_to_hex` writes the least numeral. */
  lemma HexIsHead(n: nat)
    requires n > 0
    ensures IsHead(Hex(n), n)
  {
    var ds := HexDigitsOf(n);
    forall i | 0 <= i < |ds| ensures Hex(n)[i] in "0123456789abcdef" && (i == 0 ==> Hex(n)[i] != '0') {
      GlyphIsLower(ds[i]);
    }
  }

  lemma ChunkIsOnWire(piece: string)
    requires piece != ""
    ensures ChunkOnWire(Chunk(piece), piece)
  {
    HexIsHead(|piece|);
  }

  /** What is sent for a sequence of writes is chunks of that form and the end of the message. */
  lemma {:induction false} SentIsOnWire(pieces: seq<string>)
    ensures OnWire(Sent(pieces), pieces)
  {
    if pieces == [] {
      assert "0\r\n" + CR_LF == "0\r\n\r\n";
    } else if pieces[0] != "" {
      ChunkIsOnWire(pieces[0]);
      SentIsOnWire(pieces[1..]);
      var k := |Chunk(pieces[0])|;
      assert Sent(pieces)[..k] == Chunk(pieces[0]) && Sent(pieces)[k..] == Sent(pieces[1..]);
    }
  }

  lemma SentBehind(before: string, pieces: seq<string>, sent: string)
    requires sent == before + Sent(pieces)
    ensures |before| <= |sent| && OnWire(sent[|before|..], pieces)
  {
    SentIsOnWire(pieces);
    assert sent[|before|..] == Sent(pieces);
  }

  lemma GlyphsAgree(d: HexDigit, e: HexDigit)
    requires d.value == e.value < 16 && Glyph(d) in "0123456789abcdef" && Glyph(e) in "0123456789abcdef"
    ensures Glyph(d) == Glyph(e)
  {
  }

  lemma {:induction false} LeadingIsPositive(ds: seq<HexDigit>)
    requires ds != [] && ds[0].value > 0
    ensures Positional(ds) > 0
  {
    if |ds| > 1 {
      LeadingIsPositive(ds[..|ds| - 1]);
    }
  }

  /** A number has one numeral without leading zeros. */
  lemma {:induction false} NumeralsAgree(ds: seq<HexDigit>, es: seq<HexDigit>)
    requires Digits(ds) && Digits(es) && Positional(ds) == Positional(es)
    requires (ds != [] ==> ds[0].value > 0) && (es != [] ==> es[0].value > 0)
    ensures |ds| == |es| && forall i :: 0 <= i < |ds| ==> ds[i].value == es[i].value
  {
    if ds == [] || es == [] {
      if ds != [] {
        LeadingIsPositive(ds);
      }
      if es != [] {
        LeadingIsPositive(es);
      }
    } else {
      NumeralsAgree(ds[..|ds| - 1], es[..|es| - 1]);
    }
  }

  lemma HeadsAgree(a: string, b: string, n: nat)
    requires IsHead(a, n) && IsHead(b, n)
    ensures a == b
  {
    var ds :| Digits(ds) && a == Spelled(ds) && Positional(ds) == n;
    var es :| Digits(es) && b == Spelled(es) && Positional(es) == n;
    assert a[0] == Glyph(ds[0]) && b[0] == Glyph(es[0]);
    NumeralsAgree(ds, es);
    forall i | 0 <= i < |a| ensures a[i] == b[i] {
      assert a[i] == Glyph(ds[i]) && b[i] == Glyph(es[i]);
      GlyphsAgree(ds[i], es[i]);
    }
  }

  lemma ChunksAgree(a: string, b: string, piece: string)
    requires ChunkOnWire(a, piece) && ChunkOnWire(b, piece)
    ensures a == b
  {
    var h: string :| IsHead(h, |piece|) && a == h + "\r\n" + piece + "\r\n";
    var g: string :| IsHead(g, |piece|) && b == g + "\r\n" + piece + "\r\n";
    HeadsAgree(h, g, |piece|);
  }

  /** Nothing else is of that form. */
  lemma FirstOnWire(sent: string, pieces: seq<string>) returns (first: string, rest: string)
    requires pieces != [] && pieces[0] != "" && OnWire(sent, pieces)
    ensures sent == first + rest && ChunkOnWire(first, pieces[0]) && OnWire(rest, pieces[1..])
  {
    hide ChunkOnWire;
    var k: nat :| k <= |sent| && ChunkOnWire(sent[..k], pieces[0]) && OnWire(sent[k..], pieces[1..]);
    first, rest := sent[..k], sent[k..];
  }

  lemma LastOnWire(sent: string, pieces: seq<string>)
    requires pieces == [] || pieces[0] == ""
    ensures OnWire(sent, pieces) <==> sent == Sent(pieces)
  {
    assert "0\r\n" + CR_LF == "0\r\n\r\n";
  }

  /** Nothing else is of that form. */
  lemma {:induction false} OnWireExactly(sent: string, pieces: seq<string>)
    ensures OnWire(sent, pieces) <==> sent == Sent(pieces)
    decreases |pieces|
  {
    hide OnWire, ChunkOnWire, Chunk;
    SentIsOnWire(pieces);
    if pieces == [] || pieces[0] == "" {
      LastOnWire(sent, pieces);
    } else if OnWire(sent, pieces) {
      var first, rest := FirstOnWire(sent, pieces);
      ChunkIsOnWire(pieces[0]);
      ChunksAgree(first, Chunk(pieces[0]), pieces[0]);
      OnWireExactly(rest, pieces[1..]);
    }
  }
}
