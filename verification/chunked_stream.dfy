/** The chunked transfer coding as the library does it: buffers filled and loops over streams that read and write short. */
module ChunkedStream {
  import opened ChunkedCoding
  import opened ChunkedMessages
  import opened Text

  /** `CPPHTTPLIB_RECV_BUFSIZ`. */
  const RECEIVE_SIZE: nat := 4096

  /** The receiving side of a connection: it hands over what it likes of the bytes to come, and may fail for good. */
  class InStream {
    var rest: string
    var broken: bool

    constructor (bytes: string)
      ensures rest == bytes && !broken
    {
      rest, broken := bytes, false;
    }

    method Read(buf: array<char>, size: nat) returns (n: int)
      requires size <= buf.Length
      modifies this, buf
      ensures old(broken) ==> n < 0
      ensures n < 0 <==> broken
      ensures n < 0 ==> rest == old(rest) && buf[..] == old(buf[..])
      ensures n >= 0 ==>
                && n <= size && n <= |old(rest)| && (n == 0 <==> size == 0 || old(rest) == "")
                && buf[..n] == old(rest)[..n] && buf[n..] == old(buf[n..]) && rest == old(rest)[n..]
    {
      var fails := *;
      if broken || fails {
        broken := true;
        return -1;
      }
      var most := if size < |rest| then size else |rest|;
      n :| 0 <= n <= most && (n == 0 <==> most == 0);
      forall i | 0 <= i < n {
        buf[i] := rest[i];
      }
      rest := rest[n..];
    }
  }

  /** `stream_line_reader`: a line goes to the fixed buffer until that is full, then to a growing one. */
  class LineReader {
    const strm: InStream
    const fixed: array<char>
    var used: nat
    var growable: string

    ghost predicate Valid()
      reads this, fixed
    {
      && fixed.Length >= 2 && used < fixed.Length && (used > 0 ==> fixed[used] == '\0')
      && (growable != "" ==> used == fixed.Length - 1)
    }

    ghost function Text(): string
      requires Valid()
      reads this, fixed
    {
      if growable == "" then fixed[..used] else growable
    }

    constructor (strm: InStream, size: nat)
      requires size >= 2
      ensures Valid() && this.strm == strm && fresh(fixed) && fixed.Length == size && Text() == ""
    {
      this.strm, fixed, used, growable := strm, new char[size], 0, "";
    }

    function Size(): nat
      requires Valid()
      reads this, fixed
      ensures Size() == |Text()|
    {
      if growable == "" then used else |growable|
    }

    /** The bytes behind `ptr()`, up to the end of its buffer. */
    function Ptr(): string
      reads this, fixed
    {
      if growable == "" then fixed[..] else growable + "\0"
    }

    /** C reads from `ptr()` the line and nothing behind it. */
    lemma PtrIsText()
      requires Valid() && Text() != ""
      ensures CString(Ptr()) == CString(Text())
    {
      if growable == "" {
        CStringStops(fixed[..used], fixed[used + 1..]);
        assert fixed[..] == fixed[..used] + "\0" + fixed[used + 1..];
      } else {
        CStringStops(growable, "");
        assert growable + "\0" == growable + "\0" + "";
      }
    }

    method Append(c: char)
      requires Valid()
      modifies this`used, this`growable, fixed
      ensures Valid() && Text() == old(Text()) + [c]
    {
      if used < fixed.Length - 1 {
        fixed[used] := c;
        used := used + 1;
        fixed[used] := '\0';
      } else {
        if growable == "" {
          growable := fixed[..used];
        }
        growable := growable + [c];
      }
    }

    /** The next line of the stream, however it arrives; no line when the stream is at its end or fails. */
    method GetLine() returns (ok: bool)
      requires Valid() && !strm.broken
      modifies this`used, this`growable, fixed, strm
      ensures Valid() && (ok <==> old(strm.rest) != "" && !strm.broken)
      ensures ok ==> Text() == Line(old(strm.rest)) && strm.rest == AfterLine(old(strm.rest))
      ensures !ok && !strm.broken ==> strm.rest == ""
    {
      hide Line, AfterLine;
      NoLineAtEnd();
      used, growable := 0, "";
      ghost var line, after := Line(strm.rest), AfterLine(strm.rest);
      var byte := new char[1];
      var i := 0;
      while true
        invariant Valid() && !strm.broken && fresh(byte) && i <= |line|
        invariant Text() == line[..i] && Line(strm.rest) == line[i..] && after == AfterLine(strm.rest)
        invariant i == 0 ==> strm.rest == old(strm.rest)
        decreases |strm.rest|
      {
        ghost var s := strm.rest;
        var n := strm.Read(byte, 1);
        if n < 0 {
          return false;
        } else if n == 0 {
          if i == 0 {
            return false;
          } else {
            break;
          }
        }
        assert byte[..1] == s[..1] && byte[0] == s[0] && strm.rest == s[1..];
        Append(byte[0]);
        LineSteps(line, i, s);
        if byte[0] == '\n' {
          break;
        }
        i := i + 1;
      }
      ok := true;
    }

    lemma NoLineAtEnd()
      ensures Line("") == "" && AfterLine("") == ""
    {
    }

    lemma LineSteps(line: string, i: nat, s: string)
      requires s != "" && i <= |line| && Line(s) == line[i..]
      ensures i < |line| && line[i] == s[0] && line[..i + 1] == line[..i] + [s[0]]
      ensures if s[0] == '\n' then i + 1 == |line| && AfterLine(s) == s[1..]
              else Line(s[1..]) == line[i + 1..] && AfterLine(s) == AfterLine(s[1..])
    {
      assert Line(s)[0] == line[i..][0];
      assert s[0] != '\n' ==> Line(s)[1..] == Line(s[1..]);
      assert line[i..][1..] == line[i + 1..];
    }
  }

  /** A reader of chunked content; `body` is what the receiver has been given. */
  class ContentReader {
    const ulongMax: nat           // `ULONG_MAX`
    const strm: InStream
    const line: LineReader
    var body: string

    ghost predicate Valid()
      reads this, line, line.fixed
    {
      line.Valid() && line.strm == strm
    }

    constructor (strm: InStream, ulongMax: nat)
      ensures Valid() && this.strm == strm && this.ulongMax == ulongMax && body == "" && fresh(line) && fresh(line.fixed)
    {
      var reader := new LineReader(strm, 16);
      this.ulongMax, this.strm, line, body := ulongMax, strm, reader, "";
    }

    /** `read_content_with_length`: by as many reads as it takes. */
    method ReadWithLength(len: nat) returns (ok: bool)
      requires !strm.broken
      modifies this`body, strm
      ensures ok <==> |old(strm.rest)| >= len && !strm.broken
      ensures ok ==> body == old(body) + old(strm.rest)[..len] && strm.rest == old(strm.rest)[len..]
      ensures !ok && !strm.broken ==> body == old(body) + old(strm.rest) && strm.rest == ""
      ensures strm.broken ==> body <= old(body) + if |old(strm.rest)| < len then old(strm.rest) else old(strm.rest)[..len]
    {
      var buf := new char[RECEIVE_SIZE];
      var r := 0;
      ghost var data := strm.rest;
      while r < len
        invariant !strm.broken && fresh(buf) && r <= len && r <= |data|
        invariant strm.rest == data[r..] && body == old(body) + data[..r]
      {
        var n := strm.Read(buf, if len - r < RECEIVE_SIZE then len - r else RECEIVE_SIZE);
        if n <= 0 {
          Beginnings(old(body), data, r, len);
          return false;
        }
        OneMoreRead(old(body), data, r, n);
        body := body + buf[..n];
        r := r + n;
      }
      ok := true;
    }

    lemma Beginnings(before: string, data: string, r: nat, len: nat)
      requires r <= len && r <= |data|
      ensures before + data[..r] <= before + if |data| < len then data else data[..len]
      ensures r == |data| ==> data[..r] == data
    {
    }

    lemma OneMoreRead(before: string, data: string, r: nat, n: nat)
      requires r + n <= |data|
      ensures before + data[..r] + data[r..][..n] == before + data[..r + n] && data[r..][n..] == data[r + n..]
    {
      assert data[..r] + data[r..][..n] == data[..r + n];
    }

    /** What C makes of the current line: the text up to its first null character. */
    function Seen(): string
      requires line.Valid()
      reads line, line.fixed
    {
      CString(line.Ptr())
    }

    /** The header fields after the last chunk; `parse_header`, which stores them, is not modelled. */
    method ReadTrailerFields() returns (ok: bool)
      requires Valid() && !strm.broken
      modifies line`used, line`growable, line.fixed, strm
      ensures Valid()
      ensures !strm.broken ==> ReadTrailer(old(strm.rest)) == if ok then Accepted("", strm.rest) else Refused("")
      ensures strm.broken ==> !ok
    {
      ghost var s := strm.rest;
      ok := line.GetLine();
      if !ok {
        return;
      }
      line.PtrIsText();
      while Seen() != CR_LF
        invariant Valid() && !strm.broken && s != "" && line.Text() == Line(s) && strm.rest == AfterLine(s)
        invariant Seen() == CString(Line(s)) && ReadTrailer(s) == ReadTrailer(old(strm.rest))
        decreases |s|
      {
        if line.Size() > HEADER_MAX_LENGTH {
          return false;
        }
        s := strm.rest;
        ok := line.GetLine();
        if !ok {
          return;
        }
        line.PtrIsText();
      }
      ok := true;
    }

    /** One chunk: its data, and the end of line behind them. */
    method ReadChunkData(size: nat) returns (ok: bool)
      requires Valid() && !strm.broken && size > 0
      modifies this`body, line`used, line`growable, line.fixed, strm
      ensures Valid() && (strm.broken ==> !ok)
      ensures ok ==>
                && |strm.rest| < |old(strm.rest)|
                && Delivered(old(body), ReadData(size, old(strm.rest), ulongMax))
                     == Delivered(body, ReadChunks(strm.rest, ulongMax))
      ensures !ok && !strm.broken ==> Delivered(old(body), ReadData(size, old(strm.rest), ulongMax)) == Refused(body)
      ensures strm.broken ==> body <= old(body) + ReadData(size, old(strm.rest), ulongMax).body
    {
      ghost var before, data := body, strm.rest;
      ok := ReadWithLength(size);
      if !ok {
        return;
      }
      ghost var after := strm.rest;
      ok := line.GetLine();
      if !ok {
        return;
      }
      line.PtrIsText();
      ok := Seen() == CR_LF;
      DeliverTwice(before, data[..size], ReadChunks(strm.rest, ulongMax));
    }

    lemma DeliverTwice(a: string, b: string, r: Reading)
      ensures Delivered(a, Delivered(b, r)) == Delivered(a + b, r)
    {
    }

    /** A size line and its number. */
    method ReadSize() returns (ok: bool, number: (nat, nat))
      requires Valid() && !strm.broken
      modifies line`used, line`growable, line.fixed, strm
      ensures Valid() && (ok <==> old(strm.rest) != "" && !strm.broken)
      ensures ok ==> number == Strtoul(CString(Line(old(strm.rest))), ulongMax) && strm.rest == AfterLine(old(strm.rest))
      ensures !ok && !strm.broken ==> strm.rest == ""
    {
      ok := line.GetLine();
      if !ok {
        return false, (0, 0);
      }
      line.PtrIsText();
      number := Strtoul(Seen(), ulongMax);
    }

    lemma NothingMore(before: string, r: Reading)
      ensures before == "" ==> Delivered(before, r) == r
      ensures r.body == "" ==> Delivered(before, r) == r.(body := before)
      ensures before <= Delivered(before, r).body
    {
    }

    /**
      `read_content_chunked`: however the stream cuts its reads, the outcome is that of the message's text; and a
      stream that fails has delivered a beginning of it.
    */
    method ReadContent() returns (ok: bool)
      requires Valid() && !strm.broken && body == ""
      modifies this`body, line`used, line`growable, line.fixed, strm
      ensures Valid()
      ensures !strm.broken ==>
                ReadChunks(old(strm.rest), ulongMax) == if ok then Accepted(body, strm.rest) else Refused(body)
      ensures strm.broken ==> !ok && body <= ReadChunks(old(strm.rest), ulongMax).body
    {
      ghost var whole, s := ReadChunks(strm.rest, ulongMax), strm.rest;
      NothingMore("", whole);
      var number;
      ok, number := ReadSize();
      if !ok {
        return;
      }
      while number.1 != 0 && number.0 != ulongMax && number.0 != 0
        invariant Valid() && !strm.broken && s != "" && strm.rest == AfterLine(s)
        invariant Delivered(body, ReadChunks(s, ulongMax)) == whole && Strtoul(CString(Line(s)), ulongMax) == number
        decreases |s|
      {
        ok := ReadChunkData(number.0);
        if !ok {
          return;
        }
        s := strm.rest;
        NothingMore(body, ReadChunks(s, ulongMax));
        ok, number := ReadSize();
        if !ok {
          return;
        }
      }
      NothingMore(body, ReadChunks(s, ulongMax));
      if number.1 == 0 || number.0 == ulongMax {
        return false;
      }
      ok := ReadTrailerFields();
    }
  }

  /** The sending side: it takes a beginning of what it is given, and may fail for good. */
  class OutStream {
    var sent: string
    var broken: bool

    constructor ()
      ensures sent == "" && !broken
    {
      sent, broken := "", false;
    }

    method Write(data: string) returns (length: int)
      requires data != ""
      modifies this
      ensures old(broken) ==> length < 0
      ensures length < 0 <==> broken
      ensures length < 0 ==> sent == old(sent)
      ensures length >= 0 ==> 0 < length <= |data| && sent == old(sent) + data[..length]
    {
      var fails := *;
      if broken || fails {
        broken := true;
        return -1;
      }
      length :| 0 < length <= |data|;
      sent := sent + data[..length];
    }

    method IsWritable() returns (yes: bool)
      modifies this`broken
      ensures yes <==> !broken
      ensures old(broken) ==> broken
    {
      var fails := *;
      broken := broken || fails;
      yes := !broken;
    }
  }

  /** `write_data`: by as many writes as it takes. */
  method WriteData(strm: OutStream, data: string) returns (ok: bool)
    modifies strm
    ensures ok ==> strm.sent == old(strm.sent) + data && strm.broken == old(strm.broken)
    ensures !ok ==> strm.broken && old(strm.sent) <= strm.sent <= old(strm.sent) + data
    ensures data != "" ==> (ok <==> !strm.broken)
  {
    var offset := 0;
    while offset < |data|
      invariant offset <= |data| && strm.sent == old(strm.sent) + data[..offset]
      invariant if offset == 0 then strm.broken == old(strm.broken) else !strm.broken
      invariant offset > 0 ==> !old(strm.broken)
    {
      var length := strm.Write(data[offset..]);
      if length < 0 {
        return false;
      }
      assert data[..offset] + data[offset..][..length] == data[..offset + length];
      offset := offset + length;
    }
    ok := true;
  }

  lemma HexSteps(n: nat, s: string)
    requires n > 0
    ensures Hex(n) + s == if n / 16 == 0 then [Digit(n % 16)] + s else Hex(n / 16) + ([Digit(n % 16)] + s)
  {
    if n >= 16 {
      Associate(Hex(n / 16), [Digit(n % 16)], s);
    }
  }

  /** `from_i_to_hex`: the digits from the last to the first. */
  method FromIToHex(number: nat) returns (s: string)
    ensures s == Hex(number)
  {
    var n := number;
    s := [Digit(n % 16)];
    n := n / 16;
    while n > 0
      invariant Hex(number) == if n == 0 then s else Hex(n) + s
    {
      HexSteps(n, s);
      s := [Digit(n % 16)] + s;
      n := n / 16;
    }
  }

  /** A writer of chunked content: `write_content_chunked` with the sink it hands to the content provider. */
  class ContentWriter {
    const strm: OutStream
    var ok: bool
    var dataAvailable: bool
    var offset: nat

    constructor (strm: OutStream)
      ensures this.strm == strm && ok && dataAvailable && offset == 0
    {
      this.strm, ok, dataAvailable, offset := strm, true, true, 0;
    }

    /** `write` of the sink: one chunk, unless there is nothing to write. */
    method Write(data: string) returns (accepted: bool)
      requires strm.broken <==> !ok
      modifies this`ok, this`dataAvailable, this`offset, strm
      ensures (strm.broken <==> !ok) && (old(strm.broken) ==> strm.broken) && accepted == ok
      ensures ok ==> dataAvailable == (data != "") && offset == old(offset) + |data|
      ensures ok ==> strm.sent == old(strm.sent) + if data == "" then "" else Chunk(data)
      ensures ok && data != "" ==> ChunkOnWire(strm.sent[|old(strm.sent)|..], data)
    {
      hide ChunkOnWire;
      if ok {
        dataAvailable := |data| > 0;
        offset := offset + |data|;
        if |data| > 0 {
          ChunkIsOnWire(data);
          var size := FromIToHex(|data|);
          var writable := strm.IsWritable();
          if writable {
            ok := WriteData(strm, size + CR_LF + data + CR_LF);
          } else {
            ok := false;
          }
        }
      }
      accepted := ok;
    }

    /** `done` of the sink: the last chunk and an empty trailer. */
    method Done()
      requires strm.broken <==> !ok
      modifies this`ok, this`dataAvailable, strm
      ensures (strm.broken <==> !ok) && (old(strm.broken) ==> strm.broken)
      ensures ok ==> !dataAvailable && strm.sent == old(strm.sent) + "0\r\n\r\n"
    {
      if !ok {
        return;
      }
      dataAvailable := false;
      var written := WriteData(strm, "0\r\n");
      if !written {
        ok := false;
      }
      written := WriteData(strm, CR_LF);
      if !written {
        ok := false;
      }
      Associate(old(strm.sent), "0\r\n", CR_LF);
    }

    /** The whole loop, over a provider that writes one of the pieces a turn, and is done on the turn after the last. */
    method WriteContent(pieces: seq<string>) returns (success: bool)
      requires ok && dataAvailable && !strm.broken
      modifies this, strm
      ensures success <==> !strm.broken
      ensures success ==> strm.sent == old(strm.sent) + Sent(pieces)
      ensures success ==> |old(strm.sent)| <= |strm.sent| && OnWire(strm.sent[|old(strm.sent)|..], pieces)
    {
      hide OnWire, ChunkOnWire;
      var i := 0;
      while dataAvailable
        invariant i <= |pieces| + 1 && ok && !strm.broken && (i > |pieces| ==> !dataAvailable)
        invariant strm.sent + (if dataAvailable then Sent(pieces[i..]) else "") == old(strm.sent) + Sent(pieces)
        decreases |pieces| + 1 - i
      {
        var writable := strm.IsWritable();
        if !writable {
          return false;
        }
        ghost var before := strm.sent;
        if i < |pieces| {
          var accepted := Write(pieces[i]);
          assert pieces[i..][0] == pieces[i] && pieces[i..][1..] == pieces[i + 1..];
          Associate(before, Chunk(pieces[i]), Sent(pieces[i + 1..]));
        } else {
          Done();
        }
        if !ok {
          return false;
        }
        i := i + 1;
      }
      SentBehind(old(strm.sent), pieces, strm.sent);
      success := true;
    }
  }
}
