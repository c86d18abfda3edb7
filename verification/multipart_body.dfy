/**
  The part of the multipart form-data parser that streams the content of one entry: the body state, the boundary
  state behind it, and every way of cutting the input into calls of `parse`.
*/
module MultipartBody {
  import opened Text

  const DASHES: string := "--"

  // ----- Searching -----

  predicate StartsWith(s: string, d: string) { |d| <= |s| && s[..|d|] == d }

  predicate Occurs(s: string, d: string, i: int) { 0 <= i && i + |d| <= |s| && s[i..i + |d|] == d }

  function FirstFrom(s: string, d: string, i: nat): (n: nat)
    requires i <= |s|
    ensures i <= n <= |s|
    decreases |s| - i
  {
    if i == |s| || Occurs(s, d, i) then i else FirstFrom(s, d, i + 1)
  }

  /** Where `d` first occurs in `s`, or the length of `s` when it does not. */
  function First(s: string, d: string): (n: nat)
    ensures n <= |s|
  {
    FirstFrom(s, d, 0)
  }

  lemma {:induction false} FirstFromIsFirst(s: string, d: string, i: nat)
    requires i <= |s|
    ensures FirstFrom(s, d, i) < |s| ==> Occurs(s, d, FirstFrom(s, d, i))
    ensures forall k :: i <= k < FirstFrom(s, d, i) ==> !Occurs(s, d, k)
    decreases |s| - i
  {
    if i == |s| {
    } else if !Occurs(s, d, i) {
      FirstFromIsFirst(s, d, i + 1);
    }
  }

  lemma FirstIsFirst(s: string, d: string)
    ensures First(s, d) < |s| ==> Occurs(s, d, First(s, d))
    ensures forall k :: 0 <= k < First(s, d) ==> !Occurs(s, d, k)
  {
    FirstFromIsFirst(s, d, 0);
  }

  /** The place is determined by the two properties. */
  lemma FirstIs(s: string, d: string, n: nat)
    requires n <= |s| && (n < |s| ==> Occurs(s, d, n))
    requires forall k :: 0 <= k < n ==> !Occurs(s, d, k)
    ensures First(s, d) == n
  {
    FirstIsFirst(s, d);
  }

  lemma OccursBehind(front: string, s: string, d: string, i: nat)
    ensures Occurs(front + s, d, |front| + i) <==> Occurs(s, d, i)
  {
    if i + |d| <= |s| {
      assert (front + s)[|front| + i..|front| + i + |d|] == s[i..i + |d|];
    }
  }

  /** Bytes in front in which no occurrence begins move the first occurrence along. */
  lemma FirstBehind(front: string, s: string, d: string)
    requires forall k :: 0 <= k < |front| ==> !Occurs(front + s, d, k)
    ensures First(front + s, d) == |front| + First(s, d)
  {
    var n := First(s, d);
    FirstIsFirst(s, d);
    forall k | 0 <= k < |front| + n ensures !Occurs(front + s, d, k) {
      if k >= |front| {
        OccursBehind(front, s, d, k - |front|);
      }
    }
    OccursBehind(front, s, d, n);
    FirstIs(front + s, d, |front| + n);
  }

  // ----- The parser -----

  /** `state_`: 1, 3 and 4 of the parser. Reading header fields starts at `NewEntry` and is not modelled. */
  datatype Mode = NewEntry | Body | Boundary

  /** The mode, the bytes in the buffer, the content handed to the callback so far, and `is_valid_`. */
  datatype Parser = Parser(mode: Mode, buffer: string, content: string, valid: bool)

  /** The body state: hand over all that cannot belong to the delimiter any more. */
  function Stream(p: Parser, d: string): Parser {
    var pos := First(p.buffer, d);
    if |d| > |p.buffer| then p
    else if pos < |p.buffer| then
      Parser(Boundary, if pos + |d| <= |p.buffer| then p.buffer[pos + |d|..] else "", p.content + p.buffer[..pos], p.valid)
    else
      var n := |p.buffer| - |d|;
      p.(buffer := p.buffer[n..], content := p.content + p.buffer[..n])
  }

  /** The boundary state: another entry, the end, or neither, in which case the parser stays where it is. */
  function AfterDelimiter(p: Parser): Parser {
    if |p.buffer| < 2 then p
    else if StartsWith(p.buffer, CR_LF) then p.(mode := NewEntry, buffer := p.buffer[2..])
    else if StartsWith(p.buffer, DASHES) then p.(valid := true, buffer := "")
    else p
  }

  function Run(p: Parser, d: string): Parser {
    match p.mode
    case NewEntry => p
    case Body =>
      var q := Stream(p, d);
      if q.mode.Boundary? then AfterDelimiter(q) else q
    case Boundary => AfterDelimiter(p)
  }

  /** One call of `parse`. */
  function Parse(p: Parser, data: string, d: string): Parser { Run(p.(buffer := p.buffer + data), d) }

  /** The calls, until the parser turns to a new entry's header fields. */
  function ParseAll(p: Parser, pieces: seq<string>, d: string): Parser
    decreases |pieces|
  {
    if pieces == [] || p.mode.NewEntry? then p else ParseAll(Parse(p, pieces[0], d), pieces[1..], d)
  }

  /** The input that the parser had not been given when it turned to a new entry. */
  function Unread(p: Parser, pieces: seq<string>, d: string): string
    decreases |pieces|
  {
    if pieces == [] || p.mode.NewEntry? then Concat(pieces) else Unread(Parse(p, pieces[0], d), pieces[1..], d)
  }

  const START: Parser := Parser(Body, "", "", false)

  // ----- Streaming is right for every cut -----

  /** In the body state: content and buffer are the input so far, in which there is no delimiter. */
  predicate InBody(p: Parser, fed: string, d: string) {
    && p.mode.Body? && !p.valid && fed == p.content + p.buffer && First(fed, d) == |fed|
    && |p.buffer| <= |d| && (p.content != "" ==> |p.buffer| == |d|)
  }

  /** The content is all in front of the first delimiter, and the input behind it decides on the rest. */
  predicate PastBody(p: Parser, fed: string, d: string) {
    && First(fed, d) + |d| <= |fed| && p.content == fed[..First(fed, d)]
    && Decided(p, fed[First(fed, d) + |d|..])
  }

  predicate Decided(p: Parser, after: string) {
    if StartsWith(after, "\r\n") then p.mode.NewEntry? && p.buffer == after[2..] && !p.valid
    else if StartsWith(after, "--") then !p.mode.Body? && p.valid
    else p.mode.Boundary? && p.buffer == after && !p.valid
  }

  predicate Right(p: Parser, fed: string, d: string) {
    if First(fed, d) == |fed| then InBody(p, fed, d) else PastBody(p, fed, d)
  }

  lemma OccursEarlier(s: string, more: string, d: string, i: nat)
    requires i + |d| <= |s|
    ensures Occurs(s + more, d, i) <==> Occurs(s, d, i)
  {
    assert (s + more)[i..i + |d|] == s[i..i + |d|];
  }

  /** A first occurrence stays the first one, whatever is added behind. */
  lemma FirstStays(s: string, more: string, d: string)
    requires d != "" && First(s, d) < |s|
    ensures First(s + more, d) == First(s, d) && First(s, d) + |d| <= |s|
  {
    var n := First(s, d);
    FirstIsFirst(s, d);
    forall i | 0 <= i < n ensures !Occurs(s + more, d, i) {
      OccursEarlier(s, more, d, i);
    }
    OccursEarlier(s, more, d, n);
    FirstIs(s + more, d, n);
  }

  /** What the body state handed over earlier contains no beginning of the delimiter. */
  lemma FirstInBuffer(p: Parser, fed: string, data: string, d: string)
    requires d != "" && InBody(p, fed, d)
    ensures First(fed + data, d) == |p.content| + First(p.buffer + data, d)
  {
    FirstIsFirst(fed, d);
    forall i | 0 <= i < |p.content| ensures !Occurs(fed + data, d, i) {
      OccursEarlier(fed, data, d, i);
    }
    assert fed + data == p.content + (p.buffer + data);
    FirstBehind(p.content, p.buffer + data, d);
  }

  lemma NothingFound(content: string, b: string, d: string)
    requires d != "" && First(content + b, d) == |content + b| && |b| >= |d|
    ensures InBody(Parser(Body, b[|b| - |d|..], content + b[..|b| - |d|], false), content + b, d)
  {
    assert content + b[..|b| - |d|] + b[|b| - |d|..] == content + b;
  }

  lemma Found(content: string, b: string, d: string, pos: nat)
    requires pos + |d| <= |b|
    ensures (content + b)[..|content| + pos] == content + b[..pos]
    ensures (content + b)[|content| + pos + |d|..] == b[pos + |d|..]
  {
  }

  /** `q` is what the body state makes of the input `all`. */
  predicate Streamed(q: Parser, all: string, d: string) {
    if First(all, d) == |all| then InBody(q, all, d)
    else
      && First(all, d) + |d| <= |all|
      && q == Parser(Boundary, all[First(all, d) + |d|..], all[..First(all, d)], false)
  }

  lemma StreamShort(b: string, d: string)
    requires |b| < |d|
    ensures Streamed(Stream(Parser(Body, b, "", false), d), b, d)
  {
    FirstIsFirst(b, d);
    assert "" + b == b;
  }

  lemma StreamFound(content: string, b: string, d: string)
    requires d != "" && First(content + b, d) == |content| + First(b, d) && First(b, d) < |b|
    ensures Streamed(Stream(Parser(Body, b, content, false), d), content + b, d)
  {
    FirstIsFirst(b, d);
    Found(content, b, d, First(b, d));
  }

  lemma StreamMissed(content: string, b: string, d: string)
    requires d != "" && First(content + b, d) == |content| + First(b, d) && First(b, d) == |b| >= |d|
    ensures Streamed(Stream(Parser(Body, b, content, false), d), content + b, d)
  {
    NothingFound(content, b, d);
  }

  lemma StreamIsRight(p: Parser, fed: string, data: string, d: string)
    requires d != "" && InBody(p, fed, d)
    ensures Streamed(Stream(p.(buffer := p.buffer + data), d), fed + data, d)
  {
    var b := p.buffer + data;
    FirstInBuffer(p, fed, data, d);
    assert fed + data == p.content + b && p.(buffer := b) == Parser(Body, b, p.content, false);
    if |b| < |d| {
      StreamShort(b, d);
    } else if First(b, d) < |b| {
      StreamFound(p.content, b, d);
    } else {
      StreamMissed(p.content, b, d);
    }
  }

  lemma DecidedAtOnce(p: Parser, after: string)
    requires p.mode.Boundary? && p.buffer == after && !p.valid
    ensures Decided(AfterDelimiter(p), after) && AfterDelimiter(p).content == p.content
  {
  }

  lemma DecidedLater(p: Parser, after: string, data: string)
    requires Decided(p, after) && !p.mode.NewEntry?
    ensures Decided(AfterDelimiter(p.(buffer := p.buffer + data)), after + data)
    ensures AfterDelimiter(p.(buffer := p.buffer + data)).content == p.content
  {
    if |after| >= 2 {
      assert (after + data)[..2] == after[..2];
    }
  }

  lemma ParseInBody(p: Parser, fed: string, data: string, d: string)
    requires d != "" && InBody(p, fed, d)
    ensures Right(Parse(p, data, d), fed + data, d)
  {
    StreamIsRight(p, fed, data, d);
    var q := Stream(p.(buffer := p.buffer + data), d);
    if q.mode.Boundary? {
      DecidedAtOnce(q, q.buffer);
    }
  }

  lemma SliceLater(s: string, more: string, n: nat)
    requires n <= |s|
    ensures (s + more)[n..] == s[n..] + more && (s + more)[..n] == s[..n]
  {
  }

  lemma BoundaryGoesOn(p: Parser, data: string, d: string)
    requires p.mode.Boundary?
    ensures Parse(p, data, d) == AfterDelimiter(p.(buffer := p.buffer + data))
  {
  }

  lemma ParsePastBody(p: Parser, fed: string, data: string, d: string)
    requires d != "" && First(fed, d) < |fed| && PastBody(p, fed, d) && !p.mode.NewEntry?
    ensures Right(Parse(p, data, d), fed + data, d)
  {
    FirstStays(fed, data, d);
    var first := First(fed, d);
    var n := first + |d|;
    SliceLater(fed, data, first);
    SliceLater(fed, data, n);
    DecidedLater(p, fed[n..], data);
    BoundaryGoesOn(p, data, d);
    hide AfterDelimiter, Decided, First, Parse;
  }

  /** One more call of `parse`, whatever its bytes. */
  lemma ParseKeepsRight(p: Parser, fed: string, data: string, d: string)
    requires d != "" && Right(p, fed, d) && !p.mode.NewEntry?
    ensures Right(Parse(p, data, d), fed + data, d)
  {
    if First(fed, d) == |fed| {
      ParseInBody(p, fed, data, d);
    } else {
      ParsePastBody(p, fed, data, d);
    }
  }

  lemma OneCall(p: Parser, pieces: seq<string>, d: string)
    requires pieces != [] && !p.mode.NewEntry?
    ensures ParseAll(p, pieces, d) == ParseAll(Parse(p, pieces[0], d), pieces[1..], d)
    ensures Unread(p, pieces, d) == Unread(Parse(p, pieces[0], d), pieces[1..], d)
    ensures Concat(pieces) == pieces[0] + Concat(pieces[1..])
  {
  }

  /** `given` is what the parser had been given when it turned to a new entry, or all there was. */
  lemma {:induction false} EveryCutIsRightFrom(p: Parser, fed: string, pieces: seq<string>, d: string)
    returns (given: string)
    requires d != "" && Right(p, fed, d)
    ensures fed + Concat(pieces) == given + Unread(p, pieces, d) && Right(ParseAll(p, pieces, d), given, d)
    ensures Unread(p, pieces, d) != "" ==> ParseAll(p, pieces, d).mode.NewEntry?
    decreases |pieces|
  {
    given := fed;
    if pieces != [] && !p.mode.NewEntry? {
      var piece, rest := pieces[0], pieces[1..];
      var q := Parse(p, piece, d);
      ParseKeepsRight(p, fed, piece, d);
      given := EveryCutIsRightFrom(q, fed + piece, rest, d);
      OneCall(p, pieces, d);
      Associate(fed, piece, Concat(rest));
    }
  }

  lemma EveryCutIsRight(pieces: seq<string>, d: string) returns (given: string)
    requires d != ""
    ensures Concat(pieces) == given + Unread(START, pieces, d) && Right(ParseAll(START, pieces, d), given, d)
    ensures Unread(START, pieces, d) != "" ==> ParseAll(START, pieces, d).mode.NewEntry?
  {
    given := EveryCutIsRightFrom(START, "", pieces, d);
    assert "" + Concat(pieces) == Concat(pieces);
  }

  /**
    Every way of cutting the input into calls of `parse`: the content is a beginning of the bytes in front of the
    first delimiter, holding back at most a delimiter's length of what has come; once the whole delimiter has come it
    is exactly those bytes, and the parser has left the body state; and it has not left before.
  */
  lemma EveryCutStreamsTheContent(pieces: seq<string>, d: string)
    requires d != ""
    ensures var p, all := ParseAll(START, pieces, d), Concat(pieces);
            && p.content <= all[..First(all, d)]
            && (p.mode.Body? <==> First(all, d) == |all|)
            && (if p.mode.Body? then |all| - |p.content| <= |d| else p.content == all[..First(all, d)])
  {
    var given := EveryCutIsRight(pieces, d);
    var unread := Unread(START, pieces, d);
    if First(given, d) < |given| {
      FirstStays(given, unread, d);
      assert (given + unread)[..First(given, d)] == given[..First(given, d)];
    } else {
      assert given + "" == given;
    }
  }

  lemma BeginsAlike(s: string, more: string, x: string)
    requires |s| >= |x| || more == ""
    ensures StartsWith(s + more, x) <==> StartsWith(s, x)
  {
    if |s| >= |x| {
      assert (s + more)[..|x|] == s[..|x|];
    } else {
      assert s + more == s;
    }
  }

  /** How the bytes behind the delimiter decide: `unread` is the end of them that the parser has not been given. */
  predicate Verdict(p: Parser, after: string, unread: string) {
    if StartsWith(after, "\r\n") then p.mode.NewEntry? && p.buffer + unread == after[2..] && !p.valid
    else if StartsWith(after, "--") then p.valid
    else p.mode.Boundary? && p.buffer == after && !p.valid
  }

  predicate VerdictOn(p: Parser, all: string, unread: string, d: string) {
    First(all, d) < |all| ==>
      First(all, d) + |d| <= |all| && Verdict(p, all[First(all, d) + |d|..], unread)
  }

  lemma VerdictStays(p: Parser, after: string, unread: string)
    requires Decided(p, after) && (unread != "" ==> p.mode.NewEntry?)
    ensures Verdict(p, after + unread, unread)
  {
    BeginsAlike(after, unread, CR_LF);
    BeginsAlike(after, unread, DASHES);
    assert unread == "" ==> after + unread == after;
    assert |after| >= 2 ==> (after + unread)[2..] == after[2..] + unread;
  }

  lemma GivenDecides(p: Parser, given: string, unread: string, d: string)
    requires d != "" && Right(p, given, d) && (unread != "" ==> p.mode.NewEntry?)
    ensures VerdictOn(p, given + unread, unread, d)
  {
    assert unread == "" ==> given + unread == given;
    if First(given, d) < |given| {
      FirstStays(given, unread, d);
      var n := First(given, d) + |d|;
      VerdictStays(p, given[n..], unread);
      assert (given + unread)[n..] == given[n..] + unread;
    }
  }

  /**
    What follows the delimiter decides, however it is cut: an end of line begins a new entry, whose bytes are those
    behind it; two dashes make the form valid; after anything else the parser stays where it is for good.
  */
  lemma EveryCutDecides(pieces: seq<string>, d: string)
    requires d != ""
    ensures VerdictOn(ParseAll(START, pieces, d), Concat(pieces), Unread(START, pieces, d), d)
  {
    var given := EveryCutIsRight(pieces, d);
    GivenDecides(ParseAll(START, pieces, d), given, Unread(START, pieces, d), d);
  }

  // ----- Behind the closing dashes -----

  /** The form is closed, and the buffer is the end of what has been given. */
  predicate Closed(p: Parser, given: string) {
    p.mode.Boundary? && p.valid && exists i :: 2 <= i <= |given| && p.buffer == given[i..]
  }

  /** Before the second dash has come the bytes wait in the buffer; then the form is closed. */
  predicate Closing(p: Parser, given: string) {
    p.mode.Boundary? && if |given| < 2 then p.buffer == given else Closed(p, given)
  }

  lemma EndOfLineInBuffer(given: string, i: nat)
    requires 2 <= i <= |given| && given[..2] == "--" && StartsWith(given[i..], "\r\n")
    ensures First(given[2..], "\r\n") < |given[2..]|
  {
    FirstIsFirst(given[2..], CR_LF);
    assert given[2..][i - 2..i - 2 + 2] == given[i..][..2];
    assert Occurs(given[2..], CR_LF, i - 2);
  }

  lemma ParseCloses(p: Parser, given: string, data: string, d: string)
    requires Closing(p, given) && |given| < 2 && (|given + data| >= 2 ==> (given + data)[..2] == "--")
    ensures Closing(Parse(p, data, d), given + data)
  {
    var all := given + data;
    assert |all| >= 2 ==> all[|all|..] == "";
  }

  lemma ParseStaysClosed(p: Parser, given: string, data: string, d: string)
    requires Closed(p, given) && |given| >= 2 && (given + data)[..2] == "--"
    requires First((given + data)[2..], "\r\n") == |(given + data)[2..]|
    ensures Closed(Parse(p, data, d), given + data)
  {
    var all, b := given + data, p.buffer + data;
    var i :| 2 <= i <= |given| && p.buffer == given[i..];
    SliceLater(given, data, i);
    if StartsWith(b, CR_LF) {
      EndOfLineInBuffer(all, i);
    } else if StartsWith(b, DASHES) {
      assert all[|all|..] == "";
    } else {
      assert Parse(p, data, d).buffer == all[i..];
    }
  }

  lemma ParseKeepsClosing(p: Parser, given: string, data: string, d: string)
    requires Closing(p, given) && (|given + data| >= 2 ==> (given + data)[..2] == "--")
    requires |given + data| >= 2 ==> First((given + data)[2..], "\r\n") == |(given + data)[2..]|
    ensures Closing(Parse(p, data, d), given + data)
  {
    if |given| < 2 {
      ParseCloses(p, given, data, d);
    } else {
      ParseStaysClosed(p, given, data, d);
    }
  }

  lemma NoneEarlier(s: string, more: string, d: string)
    requires d != "" && First(s + more, d) == |s + more|
    ensures First(s, d) == |s|
  {
    if First(s, d) < |s| {
      FirstStays(s, more, d);
    }
  }

  lemma {:induction false} EpilogueIsIgnored(p: Parser, given: string, pieces: seq<string>, d: string)
    requires Closing(p, given) && "--" <= given + Concat(pieces)
    requires var all := given + Concat(pieces); First(all[2..], "\r\n") == |all| - 2
    ensures Closed(ParseAll(p, pieces, d), given + Concat(pieces))
    decreases |pieces|
  {
    var all := given + Concat(pieces);
    if pieces == [] {
      assert all == given;
    } else {
      var next := given + pieces[0];
      Associate(given, pieces[0], Concat(pieces[1..]));
      assert all == next + Concat(pieces[1..]);
      if |next| >= 2 {
        assert all[2..] == next[2..] + Concat(pieces[1..]);
        NoneEarlier(next[2..], Concat(pieces[1..]), CR_LF);
        assert next[..2] == all[..2];
      }
      ParseKeepsClosing(p, given, pieces[0], d);
      EpilogueIsIgnored(Parse(p, pieces[0], d), next, pieces[1..], d);
    }
  }

  /** Cut in front of an end of line, what follows that one is read as a new entry. */
  lemma CutBeforeEndOfLine(p: Parser, epilogue: string, i: nat, d: string)
    requires p.mode.Boundary? && p.buffer == "" && Occurs(epilogue, "\r\n", i)
    ensures Parse(Parse(p, "--" + epilogue[..i], d), epilogue[i..], d)
         == p.(mode := NewEntry, valid := true, buffer := epilogue[i + 2..])
  {
    var first, rest := DASHES + epilogue[..i], epilogue[i..];
    assert "" + first == first && first[..2] == DASHES;
    assert "" + rest == rest && rest[..2] == epilogue[i..i + 2] && rest[2..] == epilogue[i + 2..];
  }

  lemma ParseTwo(p: Parser, a: string, b: string, d: string)
    requires !p.mode.NewEntry? && !Parse(p, a, d).mode.NewEntry?
    ensures ParseAll(p, [a, b], d) == Parse(Parse(p, a, d), b, d) && Concat([a, b]) == a + b
  {
    assert [a, b][1..] == [b] && [b][1..] == [];
    assert ParseAll(Parse(p, a, d), [b], d) == ParseAll(Parse(Parse(p, a, d), b, d), [], d);
    assert Concat([b]) == b + "" == b;
  }

  lemma IgnoredAtOnce(p: Parser, epilogue: string, d: string)
    requires p.mode.Boundary? && p.buffer == ""
    ensures Parse(p, "--" + epilogue, d) == p.(valid := true)
  {
    var all := DASHES + epilogue;
    assert "" + all == all && all[..2] == DASHES;
  }

  lemma IgnoredHoweverCut(p: Parser, epilogue: string, pieces: seq<string>, d: string)
    requires p.mode.Boundary? && p.buffer == "" && First(epilogue, "\r\n") == |epilogue|
    requires Concat(pieces) == "--" + epilogue
    ensures ParseAll(p, pieces, d).mode.Boundary? && ParseAll(p, pieces, d).valid
  {
    var all := Concat(pieces);
    assert "" + all == all && all[2..] == epilogue;
    EpilogueIsIgnored(p, "", pieces, d);
  }

  lemma NoticedInTwo(p: Parser, epilogue: string, d: string) returns (pieces: seq<string>)
    requires p.mode.Boundary? && p.buffer == "" && First(epilogue, "\r\n") < |epilogue|
    ensures Concat(pieces) == "--" + epilogue && ParseAll(p, pieces, d).mode.NewEntry?
  {
    var i := First(epilogue, CR_LF);
    FirstIsFirst(epilogue, CR_LF);
    CutBeforeEndOfLine(p, epilogue, i, d);
    IgnoredAtOnce(p, epilogue[..i], d);
    var first, rest := DASHES + epilogue[..i], epilogue[i..];
    ParseTwo(p, first, rest, d);
    pieces := [first, rest];
    assert first + rest == DASHES + epilogue;
  }

  /**
    What follows the closing dashes is ignored in the same call; and it is ignored however the input is cut if and
    only if there is no end of line in it.
  */
  lemma ClosingDependsOnTheCut(p: Parser, epilogue: string, d: string)
    requires p.mode.Boundary? && p.buffer == ""
    ensures Parse(p, "--" + epilogue, d) == p.(valid := true)
    ensures (forall pieces :: Concat(pieces) == "--" + epilogue ==>
               ParseAll(p, pieces, d).mode.Boundary? && ParseAll(p, pieces, d).valid) <==>
            First(epilogue, "\r\n") == |epilogue|
  {
    IgnoredAtOnce(p, epilogue, d);
    if First(epilogue, CR_LF) == |epilogue| {
      forall pieces | Concat(pieces) == DASHES + epilogue
        ensures ParseAll(p, pieces, d).mode.Boundary? && ParseAll(p, pieces, d).valid
      {
        IgnoredHoweverCut(p, epilogue, pieces, d);
      }
    } else {
      var pieces := NoticedInTwo(p, epilogue, d);
    }
  }
}
