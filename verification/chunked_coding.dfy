/**
  The chunked transfer coding of section 4.1 of RFC 7230, as the HTTP library writes and reads it: first as
  functions on texts of bytes, with the round trip.
*/
module ChunkedCoding {
  import opened Text

  const HEADER_MAX_LENGTH: nat := 8192

  // ----- Numbers -----

  function Digit(d: nat): char
    requires d < 16
  {
    "0123456789abcdef"[d]
  }

  /** `from_i_to_hex`. */
  function Hex(n: nat): (s: string)
    ensures s != ""
  {
    if n < 16 then [Digit(n)] else Hex(n / 16) + [Digit(n % 16)]
  }

  predicate IsSpace(c: char) { c == ' ' || '\t' <= c <= '\r' }

  function DigitValue(c: char): int {
    if '0' <= c <= '9' then c as int - '0' as int
    else if 'a' <= c <= 'f' then c as int - 'a' as int + 10
    else if 'A' <= c <= 'F' then c as int - 'A' as int + 10
    else -1
  }

  /** How many hexadecimal digits `s` starts with. */
  function DigitSpan(s: string): (n: nat)
    ensures n <= |s|
  {
    if s == "" || DigitValue(s[0]) < 0 then 0 else 1 + DigitSpan(s[1..])
  }

  function SpaceSpan(s: string): (n: nat)
    ensures n <= |s|
  {
    if s == "" || !IsSpace(s[0]) then 0 else 1 + SpaceSpan(s[1..])
  }

  function Value(digits: string): nat {
    if digits == "" then 0
    else
      var last := DigitValue(digits[|digits| - 1]);
      16 * Value(digits[..|digits| - 1]) + if last < 0 then 0 else last
  }

  /** The digits after an optional `0x`, which counts as a prefix only when a digit follows it. */
  function SkipPrefix(s: string): (n: nat)
    ensures n <= |s|
  {
    if |s| > 2 && s[0] == '0' && (s[1] == 'x' || s[1] == 'X') && DigitValue(s[2]) >= 0 then 2 else 0
  }

  /**
    The C library's `strtoul` in base 16: white space, a sign, a prefix and digits. The second result is where
    it stopped, 0 when there was no number; a number that does not fit gives the largest one. `max` is `ULONG_MAX`,
    which is less than the largest `size_t` on some platforms.
  */
  function Strtoul(s: string, max: nat): (nat, nat) {
    var signed := s[SpaceSpan(s)..];
    if signed == "" then (0, 0)
    else if signed[0] == '-' then StrtoulBody(|s|, signed[1..], true, max)
    else if signed[0] == '+' then StrtoulBody(|s|, signed[1..], false, max)
    else StrtoulBody(|s|, signed, false, max)
  }

  /** The number that starts with `s`, the end of a text of `size` bytes. */
  function StrtoulBody(size: nat, s: string, negative: bool, max: nat): (nat, nat)
    requires |s| <= size
  {
    var digits := s[SkipPrefix(s)..];
    var n := DigitSpan(digits);
    if n == 0 then (0, 0)
    else
      var v, used := Value(digits[..n]), size - |digits| + n;
      if v > max then (max, used)
      else if negative && v > 0 then (max + 1 - v, used)
      else (v, used)
  }

  // ----- Writing -----

  function Chunk(piece: string): string { Hex(|piece|) + CR_LF + piece + CR_LF }

  /** Everything that is written for these pieces followed by `done()`, without compression and trailers. */
  function Encode(pieces: seq<string>): string {
    if pieces == [] then "0\r\n" + CR_LF
    else if pieces[0] == "" then Encode(pieces[1..])
    else Chunk(pieces[0]) + Encode(pieces[1..])
  }

  // ----- Reading -----

  /** The length of the first line, with its line feed if it has one. */
  function LineLength(s: string): (n: nat)
    ensures n <= |s| && (s != "" ==> n > 0)
  {
    if s == "" then 0 else if s[0] == '\n' then 1 else 1 + LineLength(s[1..])
  }

  function Line(s: string): string { s[..LineLength(s)] }

  function AfterLine(s: string): string { s[LineLength(s)..] }

  /** What C sees of a line: it ends at the first null character. */
  function CString(s: string): string {
    if s == "" || s[0] == '\0' then "" else [s[0]] + CString(s[1..])
  }

  /** How a read ended: accepted or not, the bytes delivered by then, and what is left of the stream when accepted. */
  datatype Reading = Accepted(body: string, rest: string) | Refused(body: string)

  function Delivered(body: string, r: Reading): Reading {
    match r
    case Accepted(b, rest) => Accepted(body + b, rest)
    case Refused(b) => Refused(body + b)
  }

  /** The header fields after the last chunk, up to an empty line; the fields themselves are not kept. */
  function ReadTrailer(s: string): Reading {
    if s == "" then Refused("")
    else if CString(Line(s)) == CR_LF then Accepted("", AfterLine(s))
    else if LineLength(s) > HEADER_MAX_LENGTH then Refused("")
    else ReadTrailer(AfterLine(s))
  }

  /** From the start of a size line to the end of the message. */
  function ReadChunks(s: string, max: nat): Reading
    decreases |s|
  {
    if s == "" then Refused("")
    else
      var (size, used) := Strtoul(CString(Line(s)), max);
      var data := AfterLine(s);
      if used == 0 || size == max then Refused("")
      else if size == 0 then ReadTrailer(data)
      else ReadData(size, data, max)
  }

  /** From the start of a chunk's data to the end of the message. */
  function ReadData(size: nat, data: string, max: nat): Reading
    requires 0 < size
    decreases |data|
  {
    if |data| < size then Refused(data)
    else
      var after := data[size..];
      if after == "" || CString(Line(after)) != CR_LF then Refused(data[..size])
      else Delivered(data[..size], ReadChunks(AfterLine(after), max))
  }

  // ----- The round trip -----

  lemma DigitIsDigit(d: nat)
    requires d < 16
    ensures DigitValue(Digit(d)) == d && !IsSpace(Digit(d)) && Digit(d) !in "-+xX\0\n"
  {
  }

  /** A text of digits without a prefix, a sign or white space. */
  predicate Plain(s: string) {
    forall i :: 0 <= i < |s| ==> DigitValue(s[i]) >= 0 && !IsSpace(s[i]) && s[i] !in "-+xX\0\n"
  }

  lemma {:induction false} HexIsPlain(n: nat)
    ensures Plain(Hex(n)) && Value(Hex(n)) == n
  {
    if n < 16 {
      DigitIsDigit(n);
      assert Hex(n)[..0] == "";
    } else {
      HexIsPlain(n / 16);
      DigitIsDigit(n % 16);
      assert Hex(n)[..|Hex(n)| - 1] == Hex(n / 16);
    }
  }

  lemma {:induction false} DigitSpanIs(s: string, tail: string)
    requires Plain(s) && (tail == "" || DigitValue(tail[0]) < 0)
    ensures DigitSpan(s + tail) == |s|
  {
    if s == "" {
      assert s + tail == tail;
    } else {
      assert (s + tail)[1..] == s[1..] + tail;
      DigitSpanIs(s[1..], tail);
    }
  }

  lemma PlainBegins(h: string, tail: string)
    requires Plain(h) && h != "" && tail != "" && DigitValue(tail[0]) < 0 && tail[0] !in "xX"
    ensures SpaceSpan(h + tail) == 0 && (h + tail)[0] !in "-+" && SkipPrefix(h + tail) == 0
  {
    var s := h + tail;
    assert s[0] == h[0] && s[1] == if |h| > 1 then h[1] else tail[0];
  }

  /** `strtoul` reads back what `from_i_to_hex` wrote. */
  lemma StrtoulReadsHex(n: nat, max: nat)
    ensures Strtoul(Hex(n) + CR_LF, max) == (if n > max then max else n, |Hex(n)|)
  {
    var h := Hex(n);
    var s := h + CR_LF;
    HexIsPlain(n);
    PlainBegins(h, CR_LF);
    DigitSpanIs(h, CR_LF);
    hide Hex, SkipPrefix, SpaceSpan, DigitSpan, Value, Plain;
    assert s[0..] == s && s[..|h|] == h;
  }

  lemma {:induction false} LineOf(s: string, tail: string)
    requires forall i :: 0 <= i < |s| ==> s[i] != '\n' && s[i] != '\0'
    ensures Line(s + CR_LF + tail) == s + CR_LF && AfterLine(s + CR_LF + tail) == tail
    ensures CString(s + CR_LF) == s + CR_LF
  {
    var t := s + CR_LF + tail;
    if s == "" {
      assert t[1..] == "\n" + tail && t == "\r\n" + tail;
      assert t[1..][0] == '\n' && LineLength(t[1..]) == 1 && LineLength(t) == 2;
      assert t[..2] == CR_LF && t[2..] == tail && s + CR_LF == "\r\n";
      assert CString("\r\n") == "\r\n" by {
        assert "\r\n"[1..] == "\n" && "\n"[1..] == "";
        assert CString("\n") == "\n";
      }
    } else {
      assert t[1..] == s[1..] + CR_LF + tail;
      LineOf(s[1..], tail);
      assert LineLength(t) == 1 + LineLength(t[1..]);
      assert LineLength(t[1..]) == |s[1..] + CR_LF|;
      assert t[..LineLength(t)] == s + CR_LF && t[LineLength(t)..] == tail;
      assert (s + CR_LF)[1..] == s[1..] + CR_LF;
      assert [s[0]] + (s[1..] + CR_LF) == s + CR_LF;
    }
  }

  lemma ZeroSizeLine(rest: string, max: nat)
    requires max > 0
    ensures ReadChunks("0\r\n" + rest, max) == ReadTrailer(rest)
  {
    var s := "0\r\n" + rest;
    StrtoulReadsHex(0, max);
    LineOf("0", rest);
    assert "0" + CR_LF == "0\r\n" && "0" + CR_LF + rest == s;
    assert Hex(0) == "0";
  }

  lemma EmptyLineEnds(rest: string)
    ensures ReadTrailer(CR_LF + rest) == Accepted("", rest)
  {
    LineOf("", rest);
    assert "" + CR_LF == CR_LF;
  }

  /** What the reader makes of a size line and what follows it. */
  lemma SizeLine(size: nat, data: string, max: nat)
    requires size > 0
    ensures ReadChunks(Hex(size) + CR_LF + data, max) == if size >= max then Refused("") else ReadData(size, data, max)
  {
    HexIsPlain(size);
    LineOf(Hex(size), data);
    StrtoulReadsHex(size, max);
    assert |Hex(size)| > 0;
  }

  lemma WholeChunk(piece: string, rest: string, max: nat)
    requires piece != ""
    ensures ReadData(|piece|, piece + CR_LF + rest, max) == Delivered(piece, ReadChunks(rest, max))
  {
    var data := piece + CR_LF + rest;
    assert data[|piece|..] == CR_LF + rest && data[..|piece|] == piece;
    LineOf("", rest);
    assert "" + CR_LF + rest == CR_LF + rest && "" + CR_LF == CR_LF;
  }

  /** The length of a piece is an `unsigned long`, and not the largest one, which the reader takes for an overflow. */
  predicate Readable(piece: string, max: nat) { |piece| < max }

  lemma PieceFirst(piece: string, rest: string, max: nat)
    requires piece != ""
    ensures ReadChunks(Chunk(piece) + rest, max) ==
              if Readable(piece, max) then Delivered(piece, ReadChunks(rest, max)) else Refused("")
  {
    assert Chunk(piece) + rest == Hex(|piece|) + CR_LF + (piece + CR_LF + rest);
    SizeLine(|piece|, piece + CR_LF + rest, max);
    WholeChunk(piece, rest, max);
  }

  lemma EndIsRead(tail: string, max: nat)
    requires max > 0
    ensures ReadChunks(Encode([]) + tail, max) == Accepted("", tail)
  {
    Associate("0\r\n", CR_LF, tail);
    ZeroSizeLine(CR_LF + tail, max);
    EmptyLineEnds(tail);
  }

  ghost predicate AllReadable(pieces: seq<string>, max: nat) {
    forall i :: 0 <= i < |pieces| ==> Readable(pieces[i], max)
  }

  lemma AllReadableUnfolds(pieces: seq<string>, max: nat)
    requires pieces != []
    ensures AllReadable(pieces, max) <==> Readable(pieces[0], max) && AllReadable(pieces[1..], max)
  {
    if Readable(pieces[0], max) && AllReadable(pieces[1..], max) {
      forall i | 0 <= i < |pieces| ensures Readable(pieces[i], max) {
        assert i > 0 ==> pieces[i] == pieces[1..][i - 1];
      }
    }
  }

  /**
    The round trip, exactly: whatever follows on the stream, the reader delivers the bytes written and stops right
    behind the message, if and only if no piece has the largest length there is; otherwise it refuses.
  */
  lemma {:induction false} RoundTripExactly(pieces: seq<string>, tail: string, max: nat)
    requires max > 0
    ensures AllReadable(pieces, max) ==> ReadChunks(Encode(pieces) + tail, max) == Accepted(Concat(pieces), tail)
    ensures !AllReadable(pieces, max) ==> ReadChunks(Encode(pieces) + tail, max).Refused?
    decreases |pieces|
  {
    if pieces == [] {
      EndIsRead(tail, max);
    } else {
      var rest := Encode(pieces[1..]) + tail;
      RoundTripExactly(pieces[1..], tail, max);
      AllReadableUnfolds(pieces, max);
      if pieces[0] != "" {
        Associate(Chunk(pieces[0]), Encode(pieces[1..]), tail);
        PieceFirst(pieces[0], rest, max);
      }
    }
  }

  // ----- A message cut short -----

  lemma {:induction false} WholeLine(s: string)
    requires '\n' !in s
    ensures LineLength(s) == |s|
  {
    if s == "" {
    } else {
      WholeLine(s[1..]);
    }
  }

  lemma NoLineFeed(s: string, max: nat)
    requires '\n' !in s
    ensures ReadChunks(s, max) == Refused("") && AfterLine(s) == ""
  {
    WholeLine(s);
  }

  lemma CutEnd(n: nat, max: nat)
    requires n < |Encode([])| && max > 0
    ensures ReadChunks(Encode([])[..n], max) == Refused("")
  {
    var s := Encode([])[..n];
    assert Encode([]) == "0\r\n\r\n";
    if n < 3 {
      NoLineFeed(s, max);
    } else {
      assert s == "0\r\n" + s[3..];
      ZeroSizeLine(s[3..], max);
      if n == 4 {
        assert s[3..] == "\r";
        LoneReturn();
      }
    }
  }

  lemma LoneReturn()
    ensures ReadTrailer("\r") == Refused("")
  {
    WholeLine("\r");
    assert |CString("\r")| < 2;
    assert ReadTrailer("") == Refused("");
  }

  ghost predicate RefusedWithin(s: string, content: string, max: nat) {
    ReadChunks(s, max).Refused? && ReadChunks(s, max).body <= content
  }

  /** The cut is in the first chunk or behind it. */
  lemma CutFirstOrLater(piece: string, rest: string, content: string, n: nat, max: nat)
    requires piece != "" && n <= |Chunk(piece)| + |rest|
    requires n >= |Chunk(piece)| ==> RefusedWithin(rest[..n - |Chunk(piece)|], content, max)
    ensures RefusedWithin((Chunk(piece) + rest)[..n], piece + content, max)
  {
    var k := |Chunk(piece)|;
    if n < k {
      CutChunk(piece, n, max);
      assert (Chunk(piece) + rest)[..n] == Chunk(piece)[..n];
    } else {
      PieceFirst(piece, rest[..n - k], max);
      assert (Chunk(piece) + rest)[..n] == Chunk(piece) + rest[..n - k];
    }
  }

  /** Cut anywhere before its last byte, a message is refused, and what was delivered is a beginning of its content. */
  lemma {:induction false} CutMessageIsRefused(pieces: seq<string>, n: nat, max: nat)
    requires n < |Encode(pieces)| && max > 0
    ensures RefusedWithin(Encode(pieces)[..n], Concat(pieces), max)
    decreases |pieces|
  {
    if pieces == [] {
      CutEnd(n, max);
    } else {
      var rest := Encode(pieces[1..]);
      if pieces[0] == "" {
        CutMessageIsRefused(pieces[1..], n, max);
      } else {
        var k := |Chunk(pieces[0])|;
        if n >= k {
          CutMessageIsRefused(pieces[1..], n - k, max);
        }
        CutFirstOrLater(pieces[0], rest, Concat(pieces[1..]), n, max);
      }
    }
  }

  lemma CutChunk(piece: string, n: nat, max: nat)
    requires piece != "" && n < |Chunk(piece)|
    ensures ReadChunks(Chunk(piece)[..n], max).Refused? && ReadChunks(Chunk(piece)[..n], max).body <= piece
  {
    var s, head := Chunk(piece)[..n], Hex(|piece|) + CR_LF;
    HexIsPlain(|piece|);
    if n < |head| {
      assert s == head[..n];
      NoLineFeed(s, max);
    } else {
      var data := (piece + CR_LF)[..n - |head|];
      assert Chunk(piece) == head + (piece + CR_LF) && s == head + data;
      SizeLine(|piece|, data, max);
      CutData(piece, data, max);
    }
  }

  lemma CutData(piece: string, data: string, max: nat)
    requires piece != "" && data < piece + CR_LF
    ensures ReadData(|piece|, data, max).Refused? && ReadData(|piece|, data, max).body <= piece
  {
    if |data| >= |piece| {
      var after := data[|piece|..];
      assert data[..|piece|] == piece;
      assert '\n' !in after && |after| < 2 by {
        assert forall i :: 0 <= i < |after| ==> after[i] == (piece + CR_LF)[|piece| + i];
      }
      NoLineFeed(after, max);
      assert |CString(after)| <= |after|;
    }
  }

  // ----- What the writer sends, and what the reader makes of it -----

  /** One write a turn, then `done()`: but a turn that writes nothing is taken for the last, and there is no `done()`. */
  function Sent(pieces: seq<string>): string {
    if pieces == [] then Encode([])
    else if pieces[0] == "" then ""
    else Chunk(pieces[0]) + Sent(pieces[1..])
  }

  lemma {:induction false} SentIsEncoded(pieces: seq<string>)
    requires "" !in pieces
    ensures Sent(pieces) == Encode(pieces)
  {
    if pieces == [] {
    } else {
      SentIsEncoded(pieces[1..]);
    }
  }

  lemma {:induction false} EmptyWriteCutsShort(pieces: seq<string>)
    requires "" in pieces
    ensures |Sent(pieces)| < |Encode(pieces)| && Sent(pieces) == Encode(pieces)[..|Sent(pieces)|]
  {
    if pieces[0] == "" {
      EncodeIsNotEmpty(pieces);
    } else {
      assert "" in pieces[1..];
      EmptyWriteCutsShort(pieces[1..]);
    }
  }

  lemma {:induction false} EncodeIsNotEmpty(pieces: seq<string>)
    ensures Encode(pieces) != ""
  {
    if pieces == [] {
    } else if pieces[0] == "" {
      EncodeIsNotEmpty(pieces[1..]);
    }
  }

  /** What is sent arrives whole if and only if no write is empty and none is of the largest length. */
  lemma ArrivesExactly(pieces: seq<string>, max: nat)
    requires max > 0
    ensures "" !in pieces && AllReadable(pieces, max) ==> ReadChunks(Sent(pieces), max) == Accepted(Concat(pieces), "")
    ensures "" in pieces || !AllReadable(pieces, max) ==> ReadChunks(Sent(pieces), max).Refused?
  {
    if "" in pieces {
      EmptyWriteCutsShort(pieces);
      CutMessageIsRefused(pieces, |Sent(pieces)|, max);
    } else {
      SentIsEncoded(pieces);
      RoundTripExactly(pieces, "", max);
      assert Encode(pieces) + "" == Encode(pieces);
    }
  }

  // ----- What C sees of a buffer -----

  lemma {:induction false} CStringStops(s: string, t: string)
    ensures CString(s + "\0" + t) == CString(s)
  {
    var all := s + "\0" + t;
    if s != "" {
      assert all[1..] == s[1..] + "\0" + t;
      CStringStops(s[1..], t);
    } else {
      assert all[0] == '\0';
    }
  }
}
