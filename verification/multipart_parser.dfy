/** The multipart parser as the library has it: one buffer, shifted, grown and searched in place. */
module MultipartParserClass {
  import opened MultipartBody
  import opened Text

  class MultipartParser {
    const delimiter: string       // `crlf_dash_boundary_`
    var mode: Mode
    var valid: bool
    var content: string           // what the content callback has been given
    var buf: array<char>
    var spos: nat
    var epos: nat

    ghost predicate Valid()
      reads this
    {
      delimiter != "" && spos <= epos <= buf.Length
    }

    ghost function Contents(): string
      requires Valid()
      reads this, buf
    {
      buf[spos..epos]
    }

    ghost function View(): Parser
      requires Valid()
      reads this, buf
    {
      Parser(mode, Contents(), content, valid)
    }

    /** A parser that has just read the header fields of an entry. */
    constructor (boundary: string)
      ensures Valid() && View() == START && delimiter == "\r\n--" + boundary && fresh(buf)
    {
      assert CR_LF + DASHES + boundary == "\r\n--" + boundary;
      delimiter, mode, valid, content := CR_LF + DASHES + boundary, Body, false, "";
      buf, spos, epos := new char[0], 0, 0;
    }

    function BufSize(): nat
      requires Valid()
      reads this, buf
      ensures BufSize() == |Contents()|
    {
      epos - spos
    }

    /** Move what is left to the front of the buffer, over itself. */
    method Shift()
      requires Valid()
      modifies this`spos, this`epos, buf
      ensures Valid() && spos == 0 && Contents() == old(Contents())
    {
      ghost var before := Contents();
      var remaining := BufSize();
      if remaining > 0 && spos > 0 {
        for i := 0 to remaining
          invariant forall j :: 0 <= j < i ==> buf[j] == before[j]
          invariant forall j :: i <= j < buf.Length ==> buf[j] == old(buf[j])
          modifies buf
        {
          buf[i] := buf[spos + i];
        }
      }
      spos, epos := 0, remaining;
      forall j | 0 <= j < remaining ensures Contents()[j] == before[j] {
        assert Contents()[j] == buf[j];
      }
    }

    /** Put the new bytes behind what is left, where there is room for them. */
    method CopyIn(data: string)
      requires Valid() && spos == 0 && epos + |data| <= buf.Length
      modifies this`epos, buf
      ensures Valid() && Contents() == old(Contents()) + data
    {
      ghost var before := Contents();
      for i := 0 to |data|
        invariant forall j :: 0 <= j < epos ==> buf[j] == before[j]
        invariant forall j :: 0 <= j < i ==> buf[epos + j] == data[j]
        modifies buf
      {
        buf[epos + i] := data[i];
      }
      epos := epos + |data|;
      forall j | 0 <= j < epos ensures Contents()[j] == (before + data)[j] {
        if j >= |before| {
          assert buf[|before| + (j - |before|)] == data[j - |before|];
        }
      }
    }

    /** Move what is left to the front, and put the new bytes behind it, in a larger buffer if need be. */
    method BufAppend(data: string)
      requires Valid()
      modifies this`buf, this`spos, this`epos, buf
      ensures Valid() && (buf == old(buf) || fresh(buf))
      ensures Contents() == old(Contents()) + data
    {
      Shift();
      if epos + |data| > buf.Length {
        ghost var before := Contents();
        Resize(epos + |data|);
        assert Contents() == before;
      }
      CopyIn(data);
    }

    method Resize(size: nat)
      requires size >= buf.Length
      modifies this`buf
      ensures fresh(buf) && buf.Length == size && buf[..old(buf).Length] == old(buf[..])
    {
      var larger := new char[size];
      forall i | 0 <= i < buf.Length {
        larger[i] := buf[i];
      }
      buf := larger;
    }

    method BufErase(size: nat)
      requires Valid() && size <= |Contents()|
      modifies this`spos
      ensures Valid() && Contents() == old(Contents())[size..]
    {
      spos := spos + size;
    }

    /** `start_with`, from a place in the buffer on. */
    method StartWith(at: nat, s: string) returns (yes: bool)
      requires Valid() && spos <= at <= epos
      ensures yes <==> StartsWith(buf[at..epos], s)
    {
      if epos - at < |s| {
        return false;
      }
      var i := 0;
      while i < |s|
        invariant i <= |s| && buf[at..epos][..i] == s[..i]
      {
        if buf[at + i] != s[i] {
          assert buf[at..epos][..|s|][i] != s[i];
          return false;
        }
        i := i + 1;
      }
      yes := true;
    }

    lemma OccursHere(k: nat, s: string)
      requires Valid() && s != "" && k < |Contents()|
      ensures Occurs(Contents(), s, k) <==> StartsWith(buf[spos + k..epos], s)
      ensures Occurs(Contents(), s, k) ==> buf[spos + k] == s[0]
    {
      if k + |s| <= |Contents()| {
        assert Contents()[k..k + |s|] == buf[spos + k..epos][..|s|];
        assert Contents()[k..k + |s|][0] == buf[spos + k];
      }
    }

    /** The next place of the byte, or the end. */
    method FindByte(off: nat, c: char) returns (p: nat)
      requires Valid() && spos <= off <= epos
      ensures off <= p <= epos && (p < epos ==> buf[p] == c)
      ensures forall k :: off <= k < p ==> buf[k] != c
    {
      p := off;
      while p < epos && buf[p] != c
        invariant off <= p <= epos
        invariant forall k :: off <= k < p ==> buf[k] != c
      {
        p := p + 1;
      }
    }

    ghost predicate NoneBefore(s: string, p: nat)
      requires Valid() && spos <= p <= epos
      reads this, buf
    {
      forall k :: 0 <= k < p - spos ==> !Occurs(Contents(), s, k)
    }

    lemma NoneWithoutByte(s: string, off: nat, p: nat)
      requires Valid() && s != "" && spos <= off <= p <= epos && NoneBefore(s, off)
      requires forall k :: off <= k < p ==> buf[k] != s[0]
      ensures NoneBefore(s, p)
    {
      forall k | 0 <= k < p - spos ensures !Occurs(Contents(), s, k) {
        if k >= off - spos {
          OccursHere(k, s);
        }
      }
    }

    lemma NoneInShortRest(s: string, p: nat)
      requires Valid() && s != "" && spos <= p <= epos && NoneBefore(s, p) && epos - p < |s|
      ensures First(Contents(), s) == |Contents()|
    {
      FirstIs(Contents(), s, |Contents()|);
    }

    lemma FoundHere(s: string, p: nat)
      requires Valid() && s != "" && spos <= p < epos && NoneBefore(s, p)
      ensures StartsWith(buf[p..epos], s) ==> First(Contents(), s) == p - spos
      ensures !StartsWith(buf[p..epos], s) ==> NoneBefore(s, p + 1)
    {
      OccursHere(p - spos, s);
      if StartsWith(buf[p..epos], s) {
        FirstIs(Contents(), s, p - spos);
      }
    }

    /** Search for the first byte, then compare the rest: the first match, or the size when there is none. */
    method BufFind(s: string) returns (pos: nat)
      requires Valid() && s != ""
      ensures pos == First(Contents(), s)
    {
      var c := s[0];
      var off := spos;
      while off < epos
        invariant spos <= off <= epos && NoneBefore(s, off)
      {
        var p := FindByte(off, c);
        NoneWithoutByte(s, off, p);
        if p == epos || |s| > epos - p {
          NoneInShortRest(s, p);
          return BufSize();
        }
        var found := StartWith(p, s);
        FoundHere(s, p);
        if found {
          return p - spos;
        }
        off := p + 1;
      }
      NoneInShortRest(s, off);
      pos := BufSize();
    }

    lemma MatchFits(s: string, d: string)
      ensures First(s, d) < |s| ==> First(s, d) + |d| <= |s|
    {
      FirstIsFirst(s, d);
    }

    /** The body state; it tells whether `parse` goes on. */
    method ParseBody() returns (goOn: bool)
      requires Valid() && mode.Body?
      modifies this`mode, this`content, this`spos
      ensures Valid() && View() == Stream(old(View()), delimiter) && goOn == mode.Boundary?
    {
      if |delimiter| > BufSize() {
        return false;
      }
      var pos := BufFind(delimiter);
      MatchFits(Contents(), delimiter);
      goOn := pos < BufSize();
      if goOn {
        Deliver(pos, pos + |delimiter|);
        mode := Boundary;
      } else {
        var len := BufSize() - |delimiter|;
        if len > 0 {
          Deliver(len, len);
        }
      }
    }

    /** Hand the first bytes of the buffer to the content callback, and erase those and maybe more. */
    method Deliver(len: nat, erased: nat)
      requires Valid() && len <= erased <= |Contents()|
      modifies this`content, this`spos
      ensures Valid() && content == old(content) + old(Contents())[..len] && Contents() == old(Contents())[erased..]
    {
      content := content + buf[spos..spos + len];
      BufErase(erased);
    }

    /** The boundary state. */
    method ParseBoundary() returns (goOn: bool)
      requires Valid() && mode.Boundary?
      modifies this`mode, this`valid, this`spos
      ensures Valid() && View() == AfterDelimiter(old(View()))
      ensures goOn ==> mode.NewEntry? || BufSize() == 0
    {
      if |CR_LF| > BufSize() {
        return false;
      }
      var next := StartWith(spos, CR_LF);
      if next {
        BufErase(|CR_LF|);
        mode := NewEntry;
        return true;
      }
      if |DASHES| > BufSize() {
        return false;
      }
      var last := StartWith(spos, DASHES);
      if last {
        BufErase(|DASHES|);
        valid := true;
        BufErase(BufSize());
      }
      goOn := last;
    }

    /**
      `parse`, with callbacks that accept; it stops where it would go on to the header fields of a new entry.
    */
    method Parse(data: string)
      requires Valid() && !mode.NewEntry?
      modifies this, buf
      ensures Valid() && (buf == old(buf) || fresh(buf))
      ensures View() == MultipartBody.Parse(old(View()), data, delimiter)
    {
      BufAppend(data);
      ghost var target := Run(View(), delimiter);
      while BufSize() > 0 && !mode.NewEntry?
        invariant Valid() && (buf == old(buf) || fresh(buf))
        invariant Run(View(), delimiter) == target
        decreases mode.Body?, BufSize()
        modifies this`mode, this`valid, this`content, this`spos
      {
        var goOn;
        if mode.Body? {
          goOn := ParseBody();
        } else {
          goOn := ParseBoundary();
        }
        if !goOn {
          return;
        }
      }
    }
  }
}
