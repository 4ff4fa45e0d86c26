/** `try_frame` as it is written, around the chunk loop with its sums in `size_t`. It
    frames what is meant exactly as long as no chunk-size line wraps; on a response
    none does. */
module FrameLoop {
  import opened Bytes
  import opened HeaderLookup
  import opened Framing
  import C = ChunkScan
  import L = ChunkLoop
  import P = PrintedResponses

  /** What `try_frame` has come to when its chunk scan has gone `n` rounds. The sum for
      a Content-Length does not wrap: that is at most 4 GiB. */
  datatype Attempt = Came(f: Frame) | Thrown | Scanning

  function AsWritten(buf: string, closed: bool, maxResponse: nat, n: nat): (a: Attempt) {
    match FindBlankLine(buf, 0)
    case None => Came(FrameOf(buf, closed, maxResponse))
    case Some(h) =>
      if !DelimiterOf(buf[..h], maxResponse).Chunked? then Came(FrameOf(buf, closed, maxResponse))
      else
        match L.Rounds(buf, h + 4, "", n)
        case Running => Scanning
        case Thrown => Thrown
        case Ended(Incomplete) => Came(Incomplete)
        case Ended(Error) => Came(Error)
        case Ended(Complete(end, payload)) => Came(Complete(end, Keepalive(buf[..h]), payload))
  }

  ghost predicate Frames(buf: string, closed: bool, maxResponse: nat, f: Frame) {
    exists n: nat :: AsWritten(buf, closed, maxResponse, n) == Came(f)
  }

  /** `try_frame` gives the frame that is meant if and only if no size line wraps, or
      it ends up waiting for more all the same. */
  lemma {:induction false} SameFrameIff(buf: string, closed: bool, maxResponse: nat)
    requires |buf| < SIZE_MAX
    ensures Frames(buf, closed, maxResponse, FrameOf(buf, closed, maxResponse)) <==>
            !Astray(buf, maxResponse) || Frames(buf, closed, maxResponse, Incomplete)
  {
    hide L.Rounds, C.Clear, C.ScanFrom, DelimiterOf, Keepalive;
    var h := FindBlankLine(buf, 0);
    if h.Some? && DelimiterOf(buf[..h.value], maxResponse).Chunked? {
      if C.Clear(buf, h.value + 4) {
        L.ClearLoop(buf, h.value + 4, "", |buf| + 1);
        assert AsWritten(buf, closed, maxResponse, |buf| + 1) == Came(FrameOf(buf, closed, maxResponse));
      } else {
        L.AstrayIsIncomplete(buf, h.value + 4, "");
      }
    } else {
      assert AsWritten(buf, closed, maxResponse, 0) == Came(FrameOf(buf, closed, maxResponse));
    }
  }

  /** What it comes to without a wrapping size line is the frame that is meant. */
  lemma {:induction false} ClearFrame(buf: string, closed: bool, maxResponse: nat, n: nat, f: Frame)
    requires |buf| < SIZE_MAX && !Astray(buf, maxResponse) && AsWritten(buf, closed, maxResponse, n) == Came(f)
    ensures f == FrameOf(buf, closed, maxResponse)
  {
    hide L.Rounds, C.Clear, C.ScanFrom, DelimiterOf, Keepalive;
    var h := FindBlankLine(buf, 0);
    if h.Some? && DelimiterOf(buf[..h.value], maxResponse).Chunked? {
      L.ClearVerdict(buf, h.value + 4, "", n);
    }
  }

  lemma {:induction false} AstrayIsIncomplete(buf: string, maxResponse: nat)
    requires |buf| < SIZE_MAX && Astray(buf, maxResponse)
    ensures FrameOf(buf, false, maxResponse) == Incomplete
  {
    hide C.Clear, C.ScanFrom, DelimiterOf, Keepalive;
    L.AstrayIsIncomplete(buf, FindBlankLine(buf, 0).value + 4, "");
  }

  /** So a verdict of the code is final as well, as long as no size line wraps. */
  lemma {:induction false} WrittenVerdictIsFinal(buf: string, more: string, maxResponse: nat, n: nat, f: Frame)
    requires |buf + more| < SIZE_MAX && FindBlankLine(buf, 0).Some? && !Astray(buf, maxResponse)
    requires AsWritten(buf, false, maxResponse, n) == Came(f) && f != Incomplete
    ensures Frames(buf + more, false, maxResponse, f)
  {
    hide AsWritten, Astray, FrameOf, Frames;
    ClearFrame(buf, false, maxResponse, n, f);
    VerdictIsFinal(buf, more, maxResponse);
    if Astray(buf + more, maxResponse) {
      AstrayIsIncomplete(buf + more, maxResponse);
    }
    SameFrameIff(buf + more, false, maxResponse);
  }

  /** Framing never comes back. */
  ghost predicate Stuck(buf: string, maxResponse: nat) {
    forall closed, n: nat :: AsWritten(buf, closed, maxResponse, n) == Scanning
  }

  /** That is so if and only if the head announces chunks and the chunk loop comes back
      to a place where it has been; it takes a size line that wraps. */
  lemma {:induction false} StuckIff(buf: string, maxResponse: nat)
    requires |buf| < SIZE_MAX
    ensures var h := FindBlankLine(buf, 0);
            Stuck(buf, maxResponse) <==>
            h.Some? && DelimiterOf(buf[..h.value], maxResponse).Chunked? && L.ComesBack(buf, h.value + 4)
    ensures Stuck(buf, maxResponse) ==> Astray(buf, maxResponse)
  {
    hide L.Rounds, L.ComesBack, C.Clear, C.ScanFrom, DelimiterOf, Keepalive, EndBody;
    SameFrameIff(buf, false, maxResponse);
    var h := FindBlankLine(buf, 0);
    if h.Some? && DelimiterOf(buf[..h.value], maxResponse).Chunked? {
      L.ForeverIff(buf, h.value + 4);
      if Stuck(buf, maxResponse) {
        StuckIsForever(buf, h.value, maxResponse);
      }
    } else {
      assert AsWritten(buf, false, maxResponse, 0) != Scanning;
    }
  }

  lemma {:induction false} StuckIsForever(buf: string, h: nat, maxResponse: nat)
    requires Stuck(buf, maxResponse) && FindBlankLine(buf, 0) == Some(h) && DelimiterOf(buf[..h], maxResponse).Chunked?
    ensures L.Forever(buf, h + 4)
  {
    hide L.Rounds, DelimiterOf, Keepalive, EndBody;
    var pos := h + 4;
    forall n: nat, payload
      ensures L.Rounds(buf, pos, payload, n) == L.Running
    {
      assert AsWritten(buf, false, maxResponse, n) == Scanning;
      L.RunningIsSomewhere(buf, pos, "", n);
      L.RunningIsSomewhere(buf, pos, payload, n);
    }
  }

  /** No size line wraps in a buffer that a response leads: neither before the response
      is complete nor behind it. */
  lemma {:induction false} ResponseIsClear(buf: string, more: string, wire: string, rest: string, maxResponse: nat)
    requires IsResponse(wire, maxResponse) && maxResponse + 1 < SIZE_MAX && buf + more == wire + rest
    ensures !Astray(buf, maxResponse)
  {
    hide FrameOf, C.Clear;
    var stream := wire + rest;
    assert buf == stream[..|buf|];
    if |buf| >= |wire| {
      assert buf == wire + buf[|wire|..];
      assert wire[..|wire|] == wire;
      WholeIsClear(wire, buf[|wire|..], maxResponse);
    } else {
      assert wire == buf + wire[|buf|..];
      PartIsClear(buf, wire[|buf|..], maxResponse);
    }
  }

  lemma {:induction false} PartIsClear(buf: string, more: string, maxResponse: nat)
    requires Delimited(buf + more, maxResponse) && |buf + more| < SIZE_MAX
    ensures !Astray(buf, maxResponse)
  {
    hide C.Clear, C.ScanFrom, DelimiterOf, Keepalive;
    if FindBlankLine(buf, 0).Some? {
      BlankLineExtends(buf, more);
      var h := FindBlankLine(buf, 0).value;
      assert (buf + more)[..h] == buf[..h];
      if DelimiterOf(buf[..h], maxResponse).Chunked? {
        L.ClearPrefix(buf, more, h + 4, "");
      }
    }
  }

  lemma {:induction false} WholeIsClear(wire: string, more: string, maxResponse: nat)
    requires Delimited(wire, maxResponse) && |wire| < SIZE_MAX
    ensures !Astray(wire + more, maxResponse)
  {
    hide C.Clear, C.ScanFrom;
    FrameBounds(wire, maxResponse);
    BlankLineExtends(wire, more);
    var h := FindBlankLine(wire, 0).value;
    assert (wire + more)[..h] == wire[..h];
    if DelimiterOf(wire[..h], maxResponse).Chunked? {
      L.ClearWhole(wire, more, h + 4, "");
    }
  }

  // ------------------------------------------------------------- real answers

  /** A status line, header lines and the blank line. */
  function Block(status: string, lines: seq<string>): (s: string) {
    P.Head(status, lines) + "\r\n\r\n"
  }

  predicate ChunkedHead(status: string, lines: seq<string>) {
    P.LineOk(status) && P.LinesOk(lines) && Contains(FirstMatch(lines, "transfer-encoding"), "chunked")
  }

  /** Behind a head that announces chunks, framing is the chunk loop. */
  lemma {:induction false} LoopBehindHead(status: string, lines: seq<string>, a: char, b: char, more: string, maxResponse: nat)
    requires ChunkedHead(status, lines)
    ensures var buf, h := L.WithLine(Block(status, lines), a, b, more), |P.Head(status, lines)|;
            && FindBlankLine(buf, 0) == Some(h) && buf[..h] == P.Head(status, lines)
            && DelimiterOf(buf[..h], maxResponse).Chunked?
    ensures |Block(status, lines)| == |P.Head(status, lines)| + 4 && L.EndsLine(Block(status, lines))
  {
    hide P.Head, FirstMatch, Contains, FindBlankLine, HeaderValue, Keepalive;
    var body := L.HIGH + [a, b] + "\r\n" + more;
    assert P.Printed(status, lines, body) == L.WithLine(Block(status, lines), a, b, more);
    P.HeadFound(status, lines, body);
    P.HeadValue(status, lines, "transfer-encoding");
  }

  /** A chunked response whose first size line is `ffffffffffffffec` hangs the framing,
      under any status and header lines and whatever follows. */
  lemma {:induction false} HangingResponse(status: string, lines: seq<string>, more: string, maxResponse: nat)
    requires ChunkedHead(status, lines) && |Block(status, lines)| + 18 + |more| < SIZE_MAX
    ensures Stuck(L.WithLine(Block(status, lines), 'e', 'c', more), maxResponse)
  {
    hide P.Head, L.Rounds, FindBlankLine, DelimiterOf, Keepalive, L.WithLine, Block;
    LoopBehindHead(status, lines, 'e', 'c', more, maxResponse);
    L.GoesRound(Block(status, lines), more);
  }

  /** One whose header block ends with a line `0`, and whose first size line is
      `ffffffffffffffe7`, is complete at once, before its body; what is taken for its
      body is whatever has come in. */
  lemma {:induction false} EmptyCompletion(status: string, lines: seq<string>, closed: bool, more: string, maxResponse: nat)
    requires ChunkedHead(status, lines + ["0"]) && lines != [] && |Block(status, lines + ["0"])| + 18 + |more| < SIZE_MAX
    ensures var block := Block(status, lines + ["0"]);
            AsWritten(L.WithLine(block, 'e', '7', more), closed, maxResponse, 2) ==
            Came(Complete(|block|, P.Stays(status, lines + ["0"]), more))
  {
    hide P.Head, P.Stays, P.LineOk, P.LinesOk, L.Rounds, FindBlankLine, DelimiterOf, Keepalive, L.WithLine, FirstMatch, Contains;
    P.KeepaliveIs(status, lines + ["0"]);
    LoopBehindHead(status, lines + ["0"], 'e', '7', more, maxResponse);
    LastLine(status, lines);
    L.CompletesOnNothing(P.Head(status, lines) + "\r\n", more);
  }

  lemma {:induction false} LastLine(status: string, lines: seq<string>)
    requires lines != []
    ensures Block(status, lines + ["0"]) == P.Head(status, lines) + "\r\n" + "0\r\n\r\n"
    ensures L.EndsLine(P.Head(status, lines) + "\r\n")
  {
    JoinedSnoc(lines, "0");
  }

  lemma {:induction false} JoinedSnoc(lines: seq<string>, last: string)
    requires lines != []
    ensures Joined(lines + [last]) == Joined(lines) + "\r\n" + last
    decreases |lines|
  {
    if |lines| > 1 {
      JoinedSnoc(lines[1..], last);
      assert (lines + [last])[1..] == lines[1..] + [last];
    } else {
      assert (lines + [last])[1..] == [last];
    }
  }
}
