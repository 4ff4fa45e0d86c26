/** Responses as a backend prints them, framed back: a status line, header lines,
    and a body with its length or in chunks. */
module PrintedResponses {
  import opened Bytes
  import opened HeaderLookup
  import opened F = Framing
  import C = ChunkScan
  import ChunkCodec

  predicate LineOk(s: string) {
    s != "" && forall i :: 0 <= i < |s| ==> s[i] != '\r' && s[i] != '\n'
  }

  predicate LinesOk(lines: seq<string>) {
    lines != [] && forall i :: 0 <= i < |lines| ==> LineOk(lines[i])
  }

  function Head(status: string, lines: seq<string>): (s: string) {
    status + "\r\n" + Joined(lines)
  }

  function Printed(status: string, lines: seq<string>, body: string): (s: string) {
    Head(status, lines) + "\r\n\r\n" + body
  }

  lemma {:induction false} LineIsCrlfFree(s: string)
    requires LineOk(s)
    ensures CrlfFree(s)
  {
  }

  lemma {:induction false} BlankShifts(a: string, s: string, i: nat)
    ensures BlankLine(a + s, |a| + i) == BlankLine(s, i)
  {
    assert forall k :: 0 <= k < |s| ==> (a + s)[|a| + k] == s[k];
  }

  /** No blank line starts inside lines that are not blank. */
  lemma {:induction false} NoBlankInside(lines: seq<string>, tail: string, i: nat)
    requires LinesOk(lines) && i < |Joined(lines)|
    ensures !BlankLine(Joined(lines) + "\r\n\r\n" + tail, i)
    decreases |lines|
  {
    var l := lines[0];
    var s := Joined(lines) + "\r\n\r\n" + tail;
    if |lines| == 1 {
      assert s[i] == l[i];
    } else {
      var rest := lines[1..];
      var s' := Joined(rest) + "\r\n\r\n" + tail;
      assert s == l + "\r\n" + s';
      JoinedStarts(rest, "\r\n\r\n" + tail);
      if i < |l| {
        assert s[i] == l[i];
      } else if i >= |l| + 2 {
        NoBlankInside(rest, tail, i - (|l| + 2));
        BlankShifts(l + "\r\n", s', i - (|l| + 2));
      } else {
        assert s[|l| + 2] == s'[0] && s[|l| + 1] == '\n';
      }
    }
  }

  lemma {:induction false} JoinedStarts(lines: seq<string>, tail: string)
    requires LinesOk(lines)
    ensures Joined(lines) + tail != "" && (Joined(lines) + tail)[0] == lines[0][0] && lines[0][0] != '\r'
  {
  }

  lemma {:induction false} BlankLineFound(s: string, h: nat, from: nat)
    requires from <= h && BlankLine(s, h) && forall i :: from <= i < h ==> !BlankLine(s, i)
    ensures FindBlankLine(s, from) == Some(h)
    decreases h - from
  {
    if from < h {
      BlankLineFound(s, h, from + 1);
    }
  }

  lemma {:induction false} HeadFound(status: string, lines: seq<string>, body: string)
    requires LineOk(status) && LinesOk(lines)
    ensures FindBlankLine(Printed(status, lines, body), 0) == Some(|Head(status, lines)|)
    ensures Printed(status, lines, body)[..|Head(status, lines)|] == Head(status, lines)
  {
    var all := [status] + lines;
    assert all[1..] == lines && Joined(all) == Head(status, lines);
    var s := Printed(status, lines, body);
    forall i | 0 <= i < |Head(status, lines)|
      ensures !BlankLine(s, i)
    {
      NoBlankInside(all, body, i);
    }
    BlankLineFound(s, |Head(status, lines)|, 0);
  }

  lemma {:induction false} HeadValue(status: string, lines: seq<string>, name: string)
    requires LineOk(status) && LinesOk(lines)
    ensures HeaderValue(Head(status, lines), name) == FirstMatch(lines, name)
  {
    forall i | 0 <= i < |lines|
      ensures CrlfFree(lines[i])
    {
      LineIsCrlfFree(lines[i]);
    }
    LineIsCrlfFree(status);
    HeaderValueIsFirstMatch(status, lines, name);
  }

  lemma {:induction false} EmptyHasNoPart(part: string)
    requires part != ""
    ensures !Contains("", part)
  {
  }

  /** What the response says about its connection: HTTP/1.1 keeps it unless told to
      close, any other version closes it unless told to keep it. */
  predicate Stays(status: string, lines: seq<string>) {
    if "HTTP/1.1" <= status then FirstMatch(lines, "connection") != "close"
    else FirstMatch(lines, "connection") == "keep-alive"
  }

  lemma {:induction false} KeepaliveIs(status: string, lines: seq<string>)
    requires LineOk(status) && LinesOk(lines)
    ensures Keepalive(Head(status, lines)) <==> Stays(status, lines)
  {
    hide HeaderValue, FirstMatch;
    HeadValue(status, lines, "connection");
    LineIsCrlfFree(status);
    LineOfJoined("", status, Joined(lines));
    var s := "" + status + "\r\n" + Joined(lines);
    assert s == Head(status, lines) && s[..|status|] == status;
  }

  /** Everything behind the status line. */
  function LineEnd(lines: seq<string>, body: string): (s: string) {
    "\r\n" + Joined(lines) + "\r\n\r\n" + body
  }

  lemma {:induction false} PrintedFrom(status: string, lines: seq<string>, body: string)
    ensures Printed(status, lines, body) == status + LineEnd(lines, body)
  {
  }

  /** Whatever frame is found, it says of the connection what the head does. */
  lemma {:induction false} FrameStays(status: string, lines: seq<string>, body: string, maxResponse: nat)
    requires LineOk(status) && LinesOk(lines) && FrameOf(Printed(status, lines, body), false, maxResponse).Complete?
    ensures FrameOf(Printed(status, lines, body), false, maxResponse).keepalive <==> Stays(status, lines)
  {
    hide HeaderValue, FindBlankLine, Keepalive, FirstMatch, Stays, DelimiterOf, C.ScanFrom;
    HeadFound(status, lines, body);
    KeepaliveIs(status, lines);
  }

  /** Where a response ends that is not chunked: with a usable Content-Length after that
      many bytes; without, it must say that it closes, and ends with the close. Any
      other transfer coding, and a length above the cap, is refused. */
  lemma {:induction false} UnchunkedResponse(status: string, lines: seq<string>, body: string, closed: bool, maxResponse: nat)
    requires LineOk(status) && LinesOk(lines) && maxResponse <= SIZE_MAX
    requires !Contains(FirstMatch(lines, "transfer-encoding"), "chunked")
    ensures var f, start := FrameOf(Printed(status, lines, body), closed, maxResponse), |Head(status, lines)| + 4;
            var cl := FirstMatch(lines, "content-length");
            if FirstMatch(lines, "transfer-encoding") != "" then f == Error
            else if cl != "" && AllDigits(cl) then
              if DecimalValue(cl) > maxResponse then f == Error
              else if |body| < DecimalValue(cl) then f == Incomplete
              else f == Complete(start + DecimalValue(cl), Stays(status, lines), body[..DecimalValue(cl)])
            else if Stays(status, lines) then f == Error
            else if closed then f == Complete(start + |body|, false, body)
            else f == Incomplete
  {
    hide HeaderValue, FindBlankLine, Keepalive, FirstMatch, Stays, Contains, DecimalValue;
    HeadFound(status, lines, body);
    HeadValue(status, lines, "transfer-encoding");
    HeadValue(status, lines, "content-length");
    KeepaliveIs(status, lines);
    var s, h := Printed(status, lines, body), |Head(status, lines)|;
    assert s[h + 4..] == body;
    assert forall n :: 0 <= n <= |body| ==> s[h + 4..h + 4 + n] == body[..n];
  }

  /** A response printed with its exact Content-Length is framed exactly. */
  lemma {:induction false} CountedResponse(status: string, lines: seq<string>, body: string, maxResponse: nat)
    requires LineOk(status) && LinesOk(lines)
    requires FirstMatch(lines, "transfer-encoding") == "" && FirstMatch(lines, "content-length") == Decimal(|body|)
    requires |body| <= maxResponse <= SIZE_MAX
    ensures FrameOf(Printed(status, lines, body), false, maxResponse) ==
            Complete(|Printed(status, lines, body)|, Stays(status, lines), body)
  {
    hide FrameOf, FirstMatch, Stays, Contains, DecimalValue;
    EmptyHasNoPart("chunked");
    DecimalRoundTrip(|body|);
    UnchunkedResponse(status, lines, body, false, maxResponse);
    assert body[..|body|] == body;
  }

  /** A response printed by the gateway's chunk encoder is framed exactly, with the
      body decoded. */
  lemma {:induction false} ChunkedResponse(status: string, lines: seq<string>, body: string, maxResponse: nat)
    requires LineOk(status) && LinesOk(lines) && |body| <= SIZE_MAX
    requires Contains(FirstMatch(lines, "transfer-encoding"), "chunked")
    ensures var wire := Printed(status, lines, ChunkCodec.Encode(body));
            FrameOf(wire, false, maxResponse) == Complete(|wire|, Stays(status, lines), body)
  {
    hide HeaderValue, FindBlankLine, Keepalive, FirstMatch, C.ScanFrom, ChunkCodec.Encode, Stays;
    KeepaliveIs(status, lines);
    var image := ChunkCodec.Encode(body);
    HeadFound(status, lines, image);
    HeadValue(status, lines, "transfer-encoding");
    var before := Head(status, lines) + "\r\n\r\n";
    ChunkCodec.ScannerUndoesEncoder(before, body, "");
    assert before + image + "" == Printed(status, lines, image);
  }

  /** So both are responses in the sense of the segmentation theorems, within the
      caps: the counted form here, the chunked form below. */
  lemma {:induction false} PrintedIsResponse(status: string, lines: seq<string>, body: string, maxResponse: nat)
    requires LineOk(status) && LinesOk(lines)
    requires FirstMatch(lines, "transfer-encoding") == "" && FirstMatch(lines, "content-length") == Decimal(|body|)
    requires |Printed(status, lines, body)| <= maxResponse + 1 <= SIZE_MAX && |Head(status, lines)| + 3 <= MAX_HEADER_SIZE
    ensures IsResponse(Printed(status, lines, body), maxResponse)
  {
    hide FrameOf;
    CountedResponse(status, lines, body, maxResponse);
    HeadFound(status, lines, body);
  }

  lemma {:induction false} ChunkedIsResponse(status: string, lines: seq<string>, body: string, maxResponse: nat)
    requires LineOk(status) && LinesOk(lines) && |body| <= SIZE_MAX
    requires Contains(FirstMatch(lines, "transfer-encoding"), "chunked")
    requires |Printed(status, lines, ChunkCodec.Encode(body))| <= maxResponse + 1 && |Head(status, lines)| + 3 <= MAX_HEADER_SIZE
    ensures IsResponse(Printed(status, lines, ChunkCodec.Encode(body)), maxResponse)
  {
    hide FrameOf, ChunkCodec.Encode;
    ChunkedResponse(status, lines, body, maxResponse);
    HeadFound(status, lines, ChunkCodec.Encode(body));
  }

  /** Within the caps a printed response that closes and has neither chunks nor a usable
      length is what the exchange takes until the close. */
  lemma {:induction false} PrintedIsClosing(status: string, lines: seq<string>, body: string, maxResponse: nat)
    requires LineOk(status) && LinesOk(lines) && !Stays(status, lines) && FirstMatch(lines, "transfer-encoding") == ""
    requires FirstMatch(lines, "content-length") == "" || !AllDigits(FirstMatch(lines, "content-length"))
    requires |Printed(status, lines, body)| <= maxResponse && |Head(status, lines)| + 3 <= MAX_HEADER_SIZE
    ensures IsClosing(Printed(status, lines, body), maxResponse)
  {
    hide HeaderValue, FindBlankLine, Keepalive, FirstMatch, Stays, Contains, Printed, Head;
    HeadFound(status, lines, body);
    HeadValue(status, lines, "transfer-encoding");
    HeadValue(status, lines, "content-length");
    KeepaliveIs(status, lines);
    NothingInNothing();
  }

  /** Chunked is any value in which the word stands somewhere. */
  lemma {:induction false} ContainsHere(a: string, part: string, b: string)
    ensures Contains(a + part + b, part)
  {
    var s := a + part + b;
    assert s[|a|..|a| + |part|] == part;
    assert At(s, part, |a|);
  }

  lemma {:induction false} ContainsSplits(s: string, part: string) returns (a: string, b: string)
    requires Contains(s, part)
    ensures s == a + part + b
  {
    var i :| 0 <= i <= |s| && At(s, part, i);
    a, b := s[..i], s[i + |part|..];
  }

  lemma {:induction false} NothingInNothing()
    ensures !Contains("", "chunked")
  {
  }

  /** A response without header lines: under HTTP/1.1 it is refused, under any other
      version all that comes until the close is its body. */
  lemma {:induction false} BareResponse(status: string, body: string, closed: bool, maxResponse: nat)
    requires LineOk(status) && ColonFree(status, |status|)
    ensures FrameOf(status + "\r\n\r\n" + body, closed, maxResponse) ==
            if "HTTP/1.1" <= status then Error
            else if closed then Complete(|status| + 4 + |body|, false, body) else Incomplete
  {
    hide HeaderValue, FindBlankLine;
    var s := status + "\r\n\r\n" + body;
    assert Joined([status]) == status;
    forall i | 0 <= i < |status|
      ensures !BlankLine(s, i)
    {
      NoBlankInside([status], body, i);
    }
    BlankLineFound(s, |status|, 0);
    assert s[..|status|] == status && s[|status| + 4..] == body;
    LineIsCrlfFree(status);
    NoLines(status, "transfer-encoding");
    NoLines(status, "content-length");
    NoLines(status, "connection");
    NoCrlf(status, 0);
    NothingInNothing();
  }
}
