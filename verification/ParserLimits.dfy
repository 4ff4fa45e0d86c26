/** What the request parser guarantees on every byte stream: its memory stays
    within the caps, Content-Length and Transfer-Encoding never meet, and an
    accepted body has exactly the announced length although both number readers
    give up early once they are past the body cap. */
module ParserLimits {
  import opened Bytes
  import opened ParserMachine

  // ------------------------------------------------------- early-exit numbers

  /** Up to the cap the Content-Length reader is exact, in both directions. */
  lemma {:induction false} ScanDecimalExact(s: string, acc: nat)
    ensures AllDigits(s) ==> acc <= DecimalFrom(s, acc)
    ensures AllDigits(s) && DecimalFrom(s, acc) <= MAX_BODY_SIZE ==> ScanDecimal(s, acc) == Some(DecimalFrom(s, acc))
    ensures ScanDecimal(s, acc).Some? && ScanDecimal(s, acc).value <= MAX_BODY_SIZE ==>
              AllDigits(s) && DecimalFrom(s, acc) == ScanDecimal(s, acc).value
    decreases |s|
  {
    if s != "" && IsDigit(s[0]) {
      var next := acc * 10 + DigitValue(s[0]);
      ScanDecimalExact(s[1..], next);
      assert AllDigits(s) <==> AllDigits(s[1..]) by {
        assert forall i :: 1 <= i < |s| ==> s[i] == s[1..][i - 1];
      }
    }
  }

  /** Up to the cap the chunk-size reader is exact, in both directions. */
  lemma {:induction false} ScanHexExact(s: string, acc: nat)
    requires acc <= MAX_BODY_SIZE
    ensures AllHex(s) && HexFrom(s, acc) <= MAX_BODY_SIZE ==> ScanHex(s, acc) == Some(HexFrom(s, acc))
    ensures ScanHex(s, acc).Some? && ScanHex(s, acc).value <= MAX_BODY_SIZE ==>
              AllHex(s) && HexFrom(s, acc) == ScanHex(s, acc).value
    decreases |s|
  {
    if s != "" && IsHexDigit(s[0]) {
      assert AllHex(s) <==> AllHex(s[1..]) by {
        assert forall i :: 1 <= i < |s| ==> s[i] == s[1..][i - 1];
      }
      var next := acc * 16 + HexDigitValue(s[0]);
      if next <= MAX_BODY_SIZE {
        ScanHexExact(s[1..], next);
      }
    }
  }

  // ------------------------------------------------------------- the invariant

  predicate HeadersOk(h: map<string, string>) {
    && !(CONTENT_LENGTH in h && TRANSFER_ENCODING in h)
    && forall k :: k in h ==> FieldOk(k, h[k])
  }

  predicate FieldOk(key: string, value: string) {
    key != "" && IsLower(key) && IsToken(key) && Trimmed(value) && IsFieldValue(value)
  }

  /** A part of the request line as it is stored. */
  predicate LinePart(s: string) {
    IsRequestLinePart(s) && |s| <= MAX_REQUEST_LINE_SIZE
  }

  predicate RequestLineOk(r: Request) {
    LinePart(r.verb) && LinePart(r.path) && '?' !in r.path && LinePart(r.query) && LinePart(r.version)
  }

  /** The body has exactly the length its framing header announces. */
  predicate BodyLengthOk(r: Request) {
    && |r.body| <= MAX_BODY_SIZE
    && (if TRANSFER_ENCODING in r.headers then Lower(r.headers[TRANSFER_ENCODING]) == "chunked"
        else if CONTENT_LENGTH in r.headers then
          var cl := r.headers[CONTENT_LENGTH];
          cl != "" && AllDigits(cl) && DecimalValue(cl) == |r.body|
        else r.body == "")
  }

  /** Every request the parser hands over. */
  predicate WellFormed(r: Request) {
    RequestLineOk(r) && HeadersOk(r.headers) && BodyLengthOk(r)
  }

  /** All buffers are within their caps, give or take `slack` bytes. */
  predicate Caps(m: Machine, slack: nat) {
    && |m.buffer| <= MAX_HEADER_LINE_SIZE + slack
    && |m.hexBuffer| <= MAX_CHUNK_SIZE_LINE + slack
    && |m.req.body| <= MAX_BODY_SIZE + slack
    && m.headersRead <= MAX_HEADERS_SIZE + slack
  }

  predicate Inv(m: Machine) {
    && Caps(m, 0)
    && RequestLineOk(m.req) && HeadersOk(m.req.headers)
    && match m.state
       case METHOD | QUERY | VERSION => IsRequestLinePart(m.buffer) && m.req.body == ""
       case PATH => IsRequestLinePart(m.buffer) && '?' !in m.buffer && m.req.body == ""
       case HEADER => m.req.body == ""
       case CHUNKED_BODY =>
         && TRANSFER_ENCODING in m.req.headers
         && Lower(m.req.headers[TRANSFER_ENCODING]) == "chunked"
         && (m.chunk == DATA ==> m.remaining > 0)
       case BODY =>
         && TRANSFER_ENCODING !in m.req.headers && CONTENT_LENGTH in m.req.headers
         && m.bodyRead == |m.req.body| < m.contentLength <= MAX_BODY_SIZE
         && AllDigits(m.req.headers[CONTENT_LENGTH]) && m.req.headers[CONTENT_LENGTH] != ""
         && DecimalValue(m.req.headers[CONTENT_LENGTH]) == m.contentLength
       case DONE => false
  }

  /** `r` is what the invariant allows a step to lead to. */
  predicate Fine(r: StepResult) {
    && Caps(r.m, 1)
    && (r.More? ==> Inv(r.m))
    && (r.Accept? ==> WellFormed(r.m.req))
  }

  lemma {:induction false} RequestLineStepFine(m: Machine, c: char)
    requires Inv(m) && m.state in {METHOD, PATH, QUERY, VERSION}
    ensures Fine(Step(m, c))
  {
    hide HeadersOk, BodyLengthOk;
  }

  lemma {:induction false} FieldIsOk(line: string)
    ensures Field(line).Some? ==> FieldOk(Field(line).value.0, Field(line).value.1)
  {
    if Field(line).Some? {
      LowerIsLower(line[..FindChar(line, ':', 0).value]);
    }
  }

  lemma {:induction false} HeaderLineFine(m: Machine)
    requires Inv(m) && m.state == HEADER
    ensures Fine(HeaderLine(m))
  {
    FieldIsOk(m.buffer);
  }

  lemma {:induction false} EndOfHeadersFine(m: Machine)
    requires Inv(m) && m.state == HEADER
    ensures Fine(EndOfHeaders(m))
  {
    if CONTENT_LENGTH in m.req.headers {
      ScanDecimalExact(m.req.headers[CONTENT_LENGTH], 0);
    }
  }

  lemma {:induction false} HeaderStepFine(m: Machine, c: char)
    requires Inv(m) && m.state == HEADER
    ensures Fine(StepHeader(m, c))
  {
    var counted := m.(headersRead := m.headersRead + 1);
    if counted.headersRead <= MAX_HEADERS_SIZE && c == '\n' && m.crSeen {
      if m.buffer == "" {
        EndOfHeadersFine(counted.(crSeen := false));
      } else {
        HeaderLineFine(counted.(crSeen := false));
      }
    }
  }

  lemma {:induction false} ChunkStepFine(m: Machine, c: char)
    requires Inv(m) && m.state == CHUNKED_BODY
    ensures Fine(StepChunk(m, c))
  {
    match m.chunk {
      case SIZE =>
      case DATA =>
      case TRAILER =>
    }
  }

  lemma {:induction false} BodyStepFine(m: Machine, c: char)
    requires Inv(m) && m.state == BODY
    ensures Fine(StepBody(m, c))
  {
  }

  lemma {:induction false} StepFine(m: Machine, c: char)
    requires Inv(m)
    ensures Fine(Step(m, c))
  {
    hide StepHeader, StepChunk, StepBody;
    match m.state {
      case METHOD | PATH | QUERY | VERSION => RequestLineStepFine(m, c);
      case HEADER => HeaderStepFine(m, c);
      case CHUNKED_BODY => ChunkStepFine(m, c);
      case BODY => BodyStepFine(m, c);
    }
  }

  lemma {:induction false} ParseFine(m: Machine, data: string)
    requires Inv(m)
    ensures var r := Parse(m, data);
            && Caps(r.m, 1)
            && (r.outcome == Pending ==> Inv(r.m))
            && (r.outcome == Accepted ==> WellFormed(r.m.req))
    decreases |data|
  {
    hide Step, WellFormed;
    if data != "" {
      StepFine(m, data[0]);
      if Step(m, data[0]).More? {
        ParseFine(Step(m, data[0]).m, data[1..]);
      }
    }
  }

  /** On every byte stream: bounded buffers whatever the outcome, the state
      invariant while the request is incomplete, a well-formed request with an
      exact body length when it is accepted. */
  lemma {:induction false} EveryStreamKeepsTheLimits(data: string)
    ensures var r := Parse(FRESH, data);
            && Caps(r.m, 1)
            && (r.outcome == Pending ==> Inv(r.m))
            && (r.outcome == Accepted ==> WellFormed(r.m.req))
  {
    ParseFine(FRESH, data);
  }

  // --------------------------------------------------------- Content-Length

  /** With a Content-Length body the parser takes exactly the missing bytes, in
      order, and accepts as soon as they are there. */
  lemma {:induction false} BodyPhase(m: Machine, data: string)
    requires Inv(m) && m.state == BODY
    ensures var missing := m.contentLength - m.bodyRead;
            var r := Parse(m, data);
            if |data| >= missing then
              r.outcome == Accepted && r.consumed == missing && r.m.req == m.req.(body := m.req.body + data[..missing])
            else r.outcome == Pending
    decreases |data|
  {
    if data != "" {
      BodyStepFine(m, data[0]);
      var next := Step(m, data[0]);
      var missing := m.contentLength - m.bodyRead;
      assert next.m.req.body == m.req.body + [data[0]];
      if next.More? {
        BodyPhase(next.m, data[1..]);
        if |data| >= missing {
          assert m.req.body + [data[0]] + data[1..][..missing - 1] == m.req.body + data[..missing];
        }
      } else {
        assert [data[0]] == data[..1];
      }
    }
  }

  // ------------------------------------------------------------ chunked bodies

  function Sum(sizes: seq<nat>): (n: nat) {
    if sizes == [] then 0 else sizes[0] + Sum(sizes[1..])
  }

  lemma {:induction false} SumConcat(a: seq<nat>, b: seq<nat>)
    requires |a| <= 1
    ensures Sum(a + b) == Sum(a) + Sum(b)
  {
    if a == [] {
      assert a + b == b;
    } else {
      assert (a + b)[1..] == b;
    }
  }

  /** The exact size announced by the size line that this byte ends, if it ends one. */
  function SizeEndedBy(m: Machine, c: char): (sizes: seq<nat>) {
    if m.state == CHUNKED_BODY && m.chunk == SIZE && c == '\n' && m.hexBuffer != "" &&
       AllHex(BeforeSemicolon(m.hexBuffer))
    then [HexValue(BeforeSemicolon(m.hexBuffer))] else []
  }

  /** The exact values of all chunk-size lines read on the way. */
  function SizesRead(m: Machine, data: string): (sizes: seq<nat>)
    decreases |data|
  {
    if data == "" then []
    else
      SizeEndedBy(m, data[0]) + (if Step(m, data[0]).More? then SizesRead(Step(m, data[0]).m, data[1..]) else [])
  }

  /** Bytes of the current chunk still to come. */
  function Owed(m: Machine): (n: nat) {
    if m.state == CHUNKED_BODY && m.chunk == DATA then m.remaining else 0
  }

  /** A chunk that cannot fit under the cap is never survived. */
  lemma {:induction false} OversizedChunkIsFatal(m: Machine, data: string)
    requires Inv(m) && m.state == CHUNKED_BODY && m.chunk == DATA && |m.req.body| + m.remaining > MAX_BODY_SIZE
    ensures Parse(m, data).outcome != Accepted
    decreases |data|
  {
    if data != "" && Step(m, data[0]).More? {
      ChunkStepFine(m, data[0]);
      OversizedChunkIsFatal(Step(m, data[0]).m, data[1..]);
    }
  }

  /** The size line that ends here announces exactly what is then owed, or more
      than can be survived. */
  lemma {:induction false} SizeLineAccount(m: Machine)
    requires m.state == CHUNKED_BODY && m.chunk == SIZE && SizeLine(m).More?
    ensures Owed(SizeLine(m).m) > MAX_BODY_SIZE || Owed(SizeLine(m).m) == Sum(SizeEndedBy(m, '\n'))
  {
    if m.hexBuffer != "" {
      ScanHexExact(BeforeSemicolon(m.hexBuffer), 0);
    }
  }

  /** One byte moves the account of body bytes by exactly the size it announces. */
  lemma {:induction false} ChunkStepAccount(m: Machine, c: char)
    requires Inv(m) && m.state == CHUNKED_BODY && !StepChunk(m, c).Reject?
    ensures var m' := StepChunk(m, c).m;
            || |m'.req.body| + Owed(m') == |m.req.body| + Owed(m) + Sum(SizeEndedBy(m, c))
            || (m'.state == CHUNKED_BODY && Owed(m') > MAX_BODY_SIZE)
  {
    if m.chunk == SIZE && c == '\n' {
      SizeLineAccount(m);
    }
  }

  lemma {:induction false} ChunkAccount(m: Machine, data: string)
    requires Inv(m) && m.state == CHUNKED_BODY && Parse(m, data).outcome == Accepted
    ensures |Parse(m, data).m.req.body| == |m.req.body| + Owed(m) + Sum(SizesRead(m, data))
    decreases |data|
  {
    var c, next := data[0], Step(m, data[0]);
    ChunkStepFine(m, c);
    SumConcat(SizeEndedBy(m, c), if next.More? then SizesRead(next.m, data[1..]) else []);
    ChunkStepAccount(m, c);
    if next.More? {
      ChunkAccount(next.m, data[1..]);
      if Owed(next.m) > MAX_BODY_SIZE {
        OversizedChunkIsFatal(next.m, data[1..]);
      }
    }
  }

  lemma {:induction false} HeadStepAccount(m: Machine, c: char)
    requires Inv(m) && m.state !in {CHUNKED_BODY, BODY}
    ensures Step(m, c).More? ==> Step(m, c).m.req.body == "" && Owed(Step(m, c).m) == 0
    ensures Step(m, c).Accept? ==> TRANSFER_ENCODING !in Step(m, c).m.req.headers
  {
  }

  /** An accepted chunked body is as long as its size lines say, summed exactly,
      from whatever header state the parser is in. */
  lemma {:induction false} ChunkedLengthFrom(m: Machine, data: string)
    requires Inv(m) && m.state !in {CHUNKED_BODY, BODY}
    requires Parse(m, data).outcome == Accepted
    requires TRANSFER_ENCODING in Parse(m, data).m.req.headers
    ensures |Parse(m, data).m.req.body| == Sum(SizesRead(m, data))
    decreases |data|
  {
    var next := Step(m, data[0]);
    StepFine(m, data[0]);
    HeadStepAccount(m, data[0]);
    assert SizeEndedBy(m, data[0]) == [];
    if next.More? {
      assert SizesRead(m, data) == SizesRead(next.m, data[1..]);
      if next.m.state == BODY {
        BodyPhase(next.m, data[1..]);
      } else if next.m.state == CHUNKED_BODY {
        ChunkAccount(next.m, data[1..]);
      } else {
        ChunkedLengthFrom(next.m, data[1..]);
      }
    }
  }

  /** The length of an accepted chunked body is the exact sum of its chunk sizes. */
  lemma {:induction false} ChunkedBodyLength(data: string)
    requires Parse(FRESH, data).outcome == Accepted
    requires TRANSFER_ENCODING in Parse(FRESH, data).m.req.headers
    ensures |Parse(FRESH, data).m.req.body| == Sum(SizesRead(FRESH, data))
  {
    ChunkedLengthFrom(FRESH, data);
  }
}
