/** Finding the end of a backend response in a growing buffer (section 3.3.3 of
    RFC 7230), and the read loop around it. How the bytes were cut into reads
    does not show in the result. */
module Framing {
  import opened Bytes
  import opened HeaderLookup
  import C = ChunkScan

  const MAX_HEADER_SIZE := 256 * 1024

  datatype Frame = Incomplete | Error | Complete(bodyEnd: nat, keepalive: bool, body: string)

  /** How the end of the body is found. */
  datatype Delimiter = Chunked | Length(n: nat) | UntilClose | Unusable

  predicate At(s: string, part: string, i: nat) {
    i + |part| <= |s| && s[i..i + |part|] == part
  }

  predicate Contains(s: string, part: string) {
    exists i | 0 <= i <= |s| :: At(s, part, i)
  }

  function StatusLine(headers: string): (s: string) {
    match FindCrlf(headers, 0)
    case Some(i) => headers[..i]
    case None => headers
  }

  predicate Keepalive(headers: string) {
    var conn := HeaderValue(headers, "connection");
    if "HTTP/1.1" <= StatusLine(headers) then conn != "close" else conn == "keep-alive"
  }

  /** Transfer-Encoding wins; then an all-digits Content-Length within the cap;
      without either the peer must close. */
  function DelimiterOf(headers: string, maxResponse: nat): (d: Delimiter) {
    var te := HeaderValue(headers, "transfer-encoding");
    var cl := HeaderValue(headers, "content-length");
    if Contains(te, "chunked") then Chunked
    else if te != "" then Unusable
    else if cl != "" && AllDigits(cl) then
      if DecimalValue(cl) > SIZE_MAX || DecimalValue(cl) > maxResponse then Unusable else Length(DecimalValue(cl))
    else if !Keepalive(headers) then UntilClose
    else Unusable
  }

  /** Where the body ends, given the delimiter and the start of the body. */
  function EndBody(buf: string, start: nat, d: Delimiter, keepalive: bool, closed: bool): (f: Frame)
    requires start <= |buf|
  {
    match d
    case Unusable => Error
    case Length(n) => if |buf| >= start + n then Complete(start + n, keepalive, buf[start..start + n]) else Incomplete
    case UntilClose => if closed then Complete(|buf|, keepalive, buf[start..]) else Incomplete
    case Chunked =>
      match C.ScanFrom(buf, start, "")
      case Incomplete => Incomplete
      case Error => Error
      case Complete(end, payload) => Complete(end, keepalive, payload)
  }

  /** `try_frame` on the bytes received so far. */
  function FrameOf(buf: string, closed: bool, maxResponse: nat): (f: Frame) {
    match FindBlankLine(buf, 0)
    case None => if |buf| > MAX_HEADER_SIZE then Error else Incomplete
    case Some(h) => EndBody(buf, h + 4, DelimiterOf(buf[..h], maxResponse), Keepalive(buf[..h]), closed)
  }

  /** Framing the buffer scans a chunk-size line whose sum wraps. */
  predicate Astray(buf: string, maxResponse: nat) {
    match FindBlankLine(buf, 0)
    case None => false
    case Some(h) => DelimiterOf(buf[..h], maxResponse).Chunked? && !C.Clear(buf, h + 4)
  }

  method ReadDelimiter(headers: string, maxResponse: nat) returns (d: Delimiter, keepalive: bool)
    ensures d == DelimiterOf(headers, maxResponse) && keepalive == Keepalive(headers)
  {
    var conn := FindHeaderValue(headers, "connection");
    var http11 := "HTTP/1.1" <= StatusLine(headers);
    keepalive := if http11 then conn != "close" else conn == "keep-alive";
    var te := FindHeaderValue(headers, "transfer-encoding");
    if Contains(te, "chunked") {
      return Chunked, keepalive;
    }
    if te != "" {
      return Unusable, keepalive;
    }
    var cl := FindHeaderValue(headers, "content-length");
    if cl != "" && AllDigits(cl) {
      var n := DecimalValue(cl);
      if n > SIZE_MAX || n > maxResponse {
        return Unusable, keepalive;
      }
      return Length(n), keepalive;
    }
    return if keepalive then Unusable else UntilClose, keepalive;
  }

  /** `try_frame`, with exact sums; says where those of the source would wrap. */
  method TryFrame(buf: string, closed: bool, maxResponse: nat) returns (f: Frame, astray: bool)
    ensures f == FrameOf(buf, closed, maxResponse) && astray == Astray(buf, maxResponse)
  {
    hide C.Clear, C.ScanFrom;
    var h := FindBlankLine(buf, 0);
    if h.None? {
      return if |buf| > MAX_HEADER_SIZE then Error else Incomplete, false;
    }
    var start := h.value + 4;
    var d, keepalive := ReadDelimiter(buf[..h.value], maxResponse);
    f, astray := FindEnd(buf, start, d, keepalive, closed);
  }

  method FindEnd(buf: string, start: nat, d: Delimiter, keepalive: bool, closed: bool) returns (f: Frame, astray: bool)
    requires start <= |buf|
    ensures f == EndBody(buf, start, d, keepalive, closed) && astray == (d.Chunked? && !C.Clear(buf, start))
  {
    astray := false;
    match d {
      case Chunked =>
        var scan;
        scan, astray := C.ScanChunkedBody(buf, start);
        f := match scan
             case Incomplete => Incomplete
             case Error => Error
             case Complete(end, payload) => Complete(end, keepalive, payload);
      case Unusable =>
        f := Error;
      case Length(n) =>
        f := if |buf| >= start + n then Complete(start + n, keepalive, buf[start..start + n]) else Incomplete;
      case UntilClose =>
        f := if closed then Complete(|buf|, keepalive, buf[start..]) else Incomplete;
    }
  }

  // ------------------------------------------------------ growing the buffer

  lemma {:induction false} BlankLineExtends(buf: string, more: string)
    requires FindBlankLine(buf, 0).Some?
    ensures FindBlankLine(buf + more, 0) == FindBlankLine(buf, 0)
  {
    var h := FindBlankLine(buf, 0).value;
    FindBlankLineIsFirst(buf + more, 0, h);
    var h' := FindBlankLine(buf + more, 0).value;
    assert BlankLine(buf, h');
    FindBlankLineIsFirst(buf, 0, h');
  }

  lemma {:induction false} EndBodyExtends(buf: string, more: string, start: nat, d: Delimiter, keepalive: bool)
    requires start <= |buf| && EndBody(buf, start, d, keepalive, false) != Incomplete
    ensures EndBody(buf + more, start, d, keepalive, false) == EndBody(buf, start, d, keepalive, false)
  {
    match d {
      case Chunked => C.ScanExtends(buf, more, start, "");
      case Length(n) => assert (buf + more)[start..start + n] == buf[start..start + n];
      case _ =>
    }
  }

  /** Once the header block is there, a verdict is final: more bytes, or a close,
      cannot change it. */
  lemma {:induction false} VerdictIsFinal(buf: string, more: string, maxResponse: nat)
    requires FindBlankLine(buf, 0).Some? && FrameOf(buf, false, maxResponse) != Incomplete
    ensures FrameOf(buf + more, false, maxResponse) == FrameOf(buf, false, maxResponse)
    ensures FrameOf(buf, true, maxResponse) == FrameOf(buf, false, maxResponse)
  {
    hide FindBlankLine, DelimiterOf, Keepalive, C.ScanFrom;
    BlankLineExtends(buf, more);
    var h := FindBlankLine(buf, 0).value;
    assert (buf + more)[..h] == buf[..h];
    EndBodyExtends(buf, more, h + 4, DelimiterOf(buf[..h], maxResponse), Keepalive(buf[..h]));
  }

  lemma {:induction false} EndBodyRetracts(buf: string, more: string, start: nat, d: Delimiter, keepalive: bool)
    requires start <= |buf| && EndBody(buf + more, start, d, keepalive, false).Complete?
    requires EndBody(buf + more, start, d, keepalive, false).bodyEnd <= |buf|
    ensures EndBody(buf, start, d, keepalive, false) == EndBody(buf + more, start, d, keepalive, false)
  {
    match d {
      case Chunked =>
        var scan := C.ScanFrom(buf + more, start, "");
        C.ScanRetracts(buf, more, start, "", scan.end, scan.payload);
      case Length(n) =>
        assert (buf + more)[start..start + n] == buf[start..start + n];
      case _ =>
    }
  }

  lemma {:induction false} EndBodyBounds(buf: string, start: nat, d: Delimiter, keepalive: bool)
    requires start <= |buf| && EndBody(buf, start, d, keepalive, false).Complete?
    ensures start <= EndBody(buf, start, d, keepalive, false).bodyEnd <= |buf|
  {
    if d.Chunked? {
      C.ScanEnd(buf, start, "");
    }
  }

  lemma {:induction false} FrameBounds(buf: string, maxResponse: nat)
    requires FrameOf(buf, false, maxResponse).Complete?
    ensures FindBlankLine(buf, 0).Some?
    ensures FindBlankLine(buf, 0).value + 4 <= FrameOf(buf, false, maxResponse).bodyEnd <= |buf|
  {
    var h := FindBlankLine(buf, 0).value;
    EndBodyBounds(buf, h + 4, DelimiterOf(buf[..h], maxResponse), Keepalive(buf[..h]));
  }

  lemma {:induction false} BlankLineRetracts(buf: string, more: string)
    requires FindBlankLine(buf + more, 0).Some? && FindBlankLine(buf + more, 0).value + 4 <= |buf|
    ensures FindBlankLine(buf, 0) == FindBlankLine(buf + more, 0)
  {
    var h := FindBlankLine(buf + more, 0).value;
    assert BlankLine(buf, h);
    FindBlankLineIsFirst(buf, 0, h);
    BlankLineExtends(buf, more);
  }

  /** A complete frame does not depend on what follows it. */
  lemma {:induction false} FrameRetracts(buf: string, more: string, maxResponse: nat)
    requires FrameOf(buf + more, false, maxResponse).Complete?
    requires FrameOf(buf + more, false, maxResponse).bodyEnd <= |buf|
    ensures FrameOf(buf, false, maxResponse) == FrameOf(buf + more, false, maxResponse)
  {
    hide FindBlankLine, EndBody, DelimiterOf, Keepalive;
    FrameBounds(buf + more, maxResponse);
    BlankLineRetracts(buf, more);
    var h := FindBlankLine(buf, 0).value;
    assert (buf + more)[..h] == buf[..h];
    EndBodyRetracts(buf, more, h + 4, DelimiterOf(buf[..h], maxResponse), Keepalive(buf[..h]));
  }

  // ------------------------------------------------------------- segmentation

  /** `wire` is one self-delimited response. */
  predicate Delimited(wire: string, maxResponse: nat) {
    var f := FrameOf(wire, false, maxResponse);
    f.Complete? && f.bodyEnd == |wire|
  }

  /** Every proper prefix stays below the response cap and the header cap. */
  predicate WithinCaps(wire: string, maxResponse: nat) {
    |wire| <= maxResponse + 1 && FindBlankLine(wire, 0).Some? && FindBlankLine(wire, 0).value + 3 <= MAX_HEADER_SIZE
  }

  predicate IsResponse(wire: string, maxResponse: nat) {
    Delimited(wire, maxResponse) && WithinCaps(wire, maxResponse)
  }

  /** `wire` is one response within the caps that its sender ends by closing. */
  predicate IsClosing(wire: string, maxResponse: nat) {
    && |wire| <= maxResponse && FindBlankLine(wire, 0).Some? && FindBlankLine(wire, 0).value + 3 <= MAX_HEADER_SIZE
    && DelimiterOf(wire[..FindBlankLine(wire, 0).value], maxResponse).UntilClose?
  }

  predicate IsAnswer(wire: string, maxResponse: nat) {
    IsResponse(wire, maxResponse) || IsClosing(wire, maxResponse)
  }

  /** The frame of an answer. */
  function FrameFor(wire: string, maxResponse: nat): (f: Frame) {
    FrameOf(wire, IsClosing(wire, maxResponse), maxResponse)
  }

  lemma {:induction false} NotBoth(wire: string, maxResponse: nat)
    ensures !(Delimited(wire, maxResponse) && IsClosing(wire, maxResponse))
  {
  }

  lemma {:induction false} AnswerIsFramed(wire: string, maxResponse: nat)
    requires IsAnswer(wire, maxResponse)
    ensures FrameFor(wire, maxResponse).Complete?
  {
    NotBoth(wire, maxResponse);
  }

  /** Until the close such a response is incomplete, however much of it is there. */
  lemma {:induction false} ClosingIsIncomplete(wire: string, k: nat, maxResponse: nat)
    requires IsClosing(wire, maxResponse) && k <= |wire|
    ensures FrameOf(wire[..k], false, maxResponse) == Incomplete && !Astray(wire[..k], maxResponse)
  {
    hide DelimiterOf, Keepalive;
    var short, more := wire[..k], wire[k..];
    assert wire == short + more;
    var h := FindBlankLine(wire, 0).value;
    if FindBlankLine(short, 0).Some? {
      BlankLineExtends(short, more);
      assert short[..h] == wire[..h];
    } else if k > MAX_HEADER_SIZE {
      assert BlankLine(short, h);
      FindBlankLineIsFirst(short, 0, h);
    }
  }

  /** The close completes it with all that is behind the head. */
  lemma {:induction false} ClosingEnds(wire: string, maxResponse: nat)
    requires IsClosing(wire, maxResponse)
    ensures var h := FindBlankLine(wire, 0).value;
            FrameOf(wire, true, maxResponse) == Complete(|wire|, false, wire[h + 4..]) && !Keepalive(wire[..h])
  {
  }

  /** No shorter prefix of a response is taken for one, and none is refused. */
  lemma {:induction false} PrefixIsIncomplete(wire: string, k: nat, maxResponse: nat)
    requires IsResponse(wire, maxResponse) && k < |wire|
    ensures FrameOf(wire[..k], false, maxResponse) == Incomplete
  {
    var short, more := wire[..k], wire[k..];
    assert wire == short + more;
    var h := FindBlankLine(wire, 0).value;
    if FindBlankLine(short, 0).Some? {
      if FrameOf(short, false, maxResponse) != Incomplete {
        VerdictIsFinal(short, more, maxResponse);
        FrameBounds(short, maxResponse);
      }
    } else if k > MAX_HEADER_SIZE {
      assert BlankLine(short, h);
      FindBlankLineIsFirst(short, 0, h);
    }
  }

  /** Whatever follows, the response is framed the same way. */
  lemma {:induction false} ExtensionIsIgnored(wire: string, more: string, maxResponse: nat)
    requires IsResponse(wire, maxResponse)
    ensures FrameOf(wire + more, false, maxResponse) == FrameOf(wire, false, maxResponse)
  {
    VerdictIsFinal(wire, more, maxResponse);
  }

  /** Outcome of the Read phase: a frame with the bytes behind it and the reads
      not needed, a failure, or still waiting. */
  datatype ReadResult = Framed(f: Frame, leftover: string, unread: seq<string>) | Failed | Waiting

  /** Re-frame after every read; stop at a verdict or at the response cap. */
  function ReadLoop(buf: string, incoming: seq<string>, maxResponse: nat): (r: ReadResult)
    decreases |incoming|
  {
    match FrameOf(buf, false, maxResponse)
    case Complete(end, _, _) =>
      Framed(FrameOf(buf, false, maxResponse), if end <= |buf| then buf[end..] else "", incoming)
    case Error => Failed
    case Incomplete =>
      if |buf| > maxResponse then Failed
      else if incoming == [] then Waiting
      else ReadLoop(buf + incoming[0], incoming[1..], maxResponse)
  }

  lemma {:induction false} WholeResponseBuffered(buf: string, incoming: seq<string>, wire: string, rest: string, maxResponse: nat)
    requires IsResponse(wire, maxResponse) && |buf| >= |wire|
    requires buf + Concat(incoming) == wire + rest
    ensures var r := ReadLoop(buf, incoming, maxResponse);
            r == Framed(FrameOf(wire, false, maxResponse), buf[|wire|..], incoming) && r.leftover + Concat(incoming) == rest
  {
    var stream, more := wire + rest, buf[|wire|..];
    assert buf == stream[..|buf|] && wire == stream[..|wire|];
    assert buf == wire + more;
    ExtensionIsIgnored(wire, more, maxResponse);
    assert stream[|wire|..] == rest;
    assert (buf + Concat(incoming))[|wire|..] == more + Concat(incoming);
  }

  /** Segmentation independence: whatever part of the stream was already buffered
      and however the rest is cut into reads, the response is framed exactly, and
      leftover plus unread input is exactly what follows it on the stream. */
  lemma {:induction false} CutsDoNotMatter(buf: string, incoming: seq<string>, wire: string, rest: string, maxResponse: nat)
    requires IsResponse(wire, maxResponse)
    requires buf + Concat(incoming) == wire + rest
    ensures var r := ReadLoop(buf, incoming, maxResponse);
            r.Framed? && r.f == FrameOf(wire, false, maxResponse) && r.leftover + Concat(r.unread) == rest
    decreases |incoming|
  {
    if |buf| >= |wire| {
      WholeResponseBuffered(buf, incoming, wire, rest, maxResponse);
    } else {
      assert |buf + Concat(incoming)| == |wire + rest|;
      assert buf == (wire + rest)[..|buf|] == wire[..|buf|];
      PrefixIsIncomplete(wire, |buf|, maxResponse);
      assert buf + incoming[0] + Concat(incoming[1..]) == buf + Concat(incoming);
      CutsDoNotMatter(buf + incoming[0], incoming[1..], wire, rest, maxResponse);
    }
  }

  // ------------------------------------------------------ the caps are exact

  lemma {:induction false} PrefixIsNotComplete(wire: string, k: nat, maxResponse: nat)
    requires Delimited(wire, maxResponse) && k < |wire|
    ensures !FrameOf(wire[..k], false, maxResponse).Complete?
  {
    hide FrameOf;
    var short, more := wire[..k], wire[k..];
    assert wire == short + more;
    if FrameOf(short, false, maxResponse).Complete? {
      FrameBounds(short, maxResponse);
      VerdictIsFinal(short, more, maxResponse);
    }
  }

  /** One byte per read. */
  function Singles(s: string): (pieces: seq<string>) {
    if s == "" then [] else [s[..1]] + Singles(s[1..])
  }

  lemma {:induction false} SinglesConcat(s: string)
    ensures Concat(Singles(s)) == s
  {
    if s != "" {
      SinglesConcat(s[1..]);
      assert Singles(s)[1..] == Singles(s[1..]) && s == s[..1] + s[1..];
    }
  }

  /** At this length the bytes read so far are refused. */
  predicate Refused(wire: string, b: nat, maxResponse: nat) {
    b < |wire| && (b > maxResponse || FrameOf(wire[..b], false, maxResponse).Error?)
  }

  lemma {:induction false} OverCapsIsRefused(wire: string, maxResponse: nat) returns (b: nat)
    requires Delimited(wire, maxResponse) && !WithinCaps(wire, maxResponse)
    ensures Refused(wire, b, maxResponse)
  {
    FrameBounds(wire, maxResponse);
    var h := FindBlankLine(wire, 0).value;
    if |wire| > maxResponse + 1 {
      b := maxResponse + 1;
    } else {
      b := MAX_HEADER_SIZE + 1;
      var short := wire[..b];
      if FindBlankLine(short, 0).Some? {
        assert wire == short + wire[b..];
        BlankLineExtends(short, wire[b..]);
      }
    }
  }

  lemma {:induction false} SlowReadsFail(wire: string, k: nat, b: nat, maxResponse: nat)
    requires Delimited(wire, maxResponse) && Refused(wire, b, maxResponse) && k <= b
    ensures !ReadLoop(wire[..k], Singles(wire[k..]), maxResponse).Framed?
    decreases b - k
  {
    hide FrameOf, Delimited;
    PrefixIsNotComplete(wire, k, maxResponse);
    if k < b {
      SlowReadsFail(wire, k + 1, b, maxResponse);
      var rest := wire[k..];
      assert Singles(rest)[0] == rest[..1] && Singles(rest)[1..] == Singles(rest[1..]);
      assert rest[1..] == wire[k + 1..] && wire[..k] + rest[..1] == wire[..k + 1];
    }
  }

  /** A response read at once is always framed; it is framed however it is cut if
      and only if it is within the caps. */
  lemma {:induction false} CutsMatterIff(wire: string, maxResponse: nat)
    requires Delimited(wire, maxResponse)
    ensures ReadLoop("", [wire], maxResponse).Framed?
    ensures !WithinCaps(wire, maxResponse) ==> !ReadLoop("", Singles(wire), maxResponse).Framed?
    ensures (forall pieces :: Concat(pieces) == wire ==> ReadLoop("", pieces, maxResponse).Framed?) <==>
            WithinCaps(wire, maxResponse)
  {
    hide FrameOf, WithinCaps, ReadLoop;
    ReadAtOnce(wire, maxResponse);
    if WithinCaps(wire, maxResponse) {
      forall pieces | Concat(pieces) == wire
        ensures ReadLoop("", pieces, maxResponse).Framed?
      {
        assert "" + Concat(pieces) == wire + "";
        CutsDoNotMatter("", pieces, wire, "", maxResponse);
      }
    } else {
      var b := OverCapsIsRefused(wire, maxResponse);
      SlowReadsFail(wire, 0, b, maxResponse);
      assert wire[..0] == "" && wire[0..] == wire;
      SinglesConcat(wire);
    }
  }

  lemma {:induction false} ReadAtOnce(wire: string, maxResponse: nat)
    requires Delimited(wire, maxResponse)
    ensures ReadLoop("", [wire], maxResponse).Framed?
  {
    assert "" + wire == wire && [wire][1..] == [];
  }
}
