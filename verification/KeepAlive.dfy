/** The boundary between two requests on a kept-alive connection. The handler
    resets the parser there but keeps the request object; this is the same as
    starting afresh only if nothing was left in it. */
module KeepAlive {
  import opened Bytes
  import opened ParserMachine
  import opened ParserRuns
  import H = ProxyHop

  /** Two calls tell the caller the same. */
  predicate SameAnswer(a: Run, b: Run) {
    a.outcome == b.outcome && a.consumed == b.consumed && (a.outcome.Accepted? ==> a.m.req == b.m.req)
  }

  /** Nothing of `r` survives the next request line. */
  predicate Spent(r: Request) {
    r.headers == map[] && r.body == "" && r.query == ""
  }

  /** Equal up to request-line fields that will still be overwritten. */
  predicate Alike(a: Machine, b: Machine) {
    var r := a.req.(
      verb := if a.state == METHOD then b.req.verb else a.req.verb,
      path := if a.state in {METHOD, PATH} then b.req.path else a.req.path,
      version := if a.state in {METHOD, PATH, QUERY, VERSION} then b.req.version else a.req.version);
    b == a.(req := r)
  }

  predicate AlikeResults(a: StepResult, b: StepResult) {
    match (a, b)
    case (More(m), More(n)) => Alike(m, n)
    case (Accept(m), Accept(n)) => m.req == n.req
    case (Reject(_), Reject(_)) => true
    case _ => false
  }

  lemma {:induction false} HeadStepsAlike(a: Machine, b: Machine, c: char)
    requires Alike(a, b) && a.state in {METHOD, PATH, QUERY, VERSION}
    ensures AlikeResults(Step(a, c), Step(b, c))
  {
  }

  lemma {:induction false} StepsAlike(a: Machine, b: Machine, c: char)
    requires Alike(a, b)
    ensures AlikeResults(Step(a, c), Step(b, c))
  {
    if a.state in {METHOD, PATH, QUERY, VERSION} {
      HeadStepsAlike(a, b, c);
    } else {
      assert a == b;
    }
  }

  lemma {:induction false} ParsesAlike(a: Machine, b: Machine, data: string)
    requires Alike(a, b) && a.state != DONE
    ensures SameAnswer(Parse(a, data), Parse(b, data))
    decreases |data|
  {
    hide Step;
    if data != "" {
      StepsAlike(a, b, data[0]);
      if Step(a, data[0]).More? && Step(a, data[0]).m.state != DONE {
        ParsesAlike(Step(a, data[0]).m, Step(b, data[0]).m, data[1..]);
      }
    }
  }

  /** A request without fields or body. */
  const BARE_LINE := "G" + " " + "/" + " HTTP/1.1\r\n"

  function AfterLine(r: Request): (m: Machine) {
    Reset(r.(verb := "G", path := "/", version := "HTTP/1.1")).(state := HEADER)
  }

  lemma {:induction false} BareRun(r: Request)
    ensures var e := EndOfHeaders(AfterLine(r).(headersRead := 2));
            var run := Parse(Reset(r), BARE_LINE + "\r\n");
            if e.Accept? then run.outcome.Accepted? && run.m == e.m else !run.outcome.Accepted?
  {
    hide Parse, Step, Leads, EndOfHeaders;
    RequestLineRun(r, "G", "/");
    BlankLineRun(AfterLine(r), "");
    assert "\r\n" + "" == "\r\n";
    LeadsThen(Reset(r), BARE_LINE, AfterLine(r), "\r\n");
    var e := EndOfHeaders(AfterLine(r).(headersRead := 2));
    if e.More? {
      LeadsIsPending(AfterLine(r), "\r\n", e.m);
    }
  }

  lemma {:induction false} LeadsIsPending(m: Machine, w: string, m': Machine)
    requires Leads(m, w, m')
    ensures Parse(m, w).outcome == Pending
  {
  }

  /** Resetting only the parser gives the same answers as starting afresh, on every
      input, if and only if the request object holds no fields, body or query. */
  lemma {:induction false} ResetAloneIff(stale: Request)
    ensures (forall data :: SameAnswer(Parse(Reset(stale), data), Parse(FRESH, data))) <==> Spent(stale)
  {
    hide Parse, Step;
    if Spent(stale) {
      forall data
        ensures SameAnswer(Parse(Reset(stale), data), Parse(FRESH, data))
      {
        ParsesAlike(Reset(stale), FRESH, data);
      }
    } else {
      BareRun(stale);
      BareRun(EMPTY_REQUEST);
      assert !SameAnswer(Parse(Reset(stale), BARE_LINE + "\r\n"), Parse(FRESH, BARE_LINE + "\r\n"));
    }
  }

  // --------------------------------------------------------- what is left over

  /** What the handler has added to a request by the time it resets the parser. */
  function Handled(r: Request, trace: string, parent: string, route: Option<string>): (s: Request) {
    var h := if "traceparent" in r.headers then r.headers else r.headers["traceparent" := parent];
    var h' := h["x-trace-id" := trace];
    r.(headers := if route.Some? then h'["x-route-name" := route.value] else h')
  }

  /** So the handler's own boundary is never a fresh start. */
  lemma {:induction false} HandlerBoundaryIsNeverFresh(r: Request, trace: string, parent: string, route: Option<string>)
    ensures !(forall data :: SameAnswer(Parse(Reset(Handled(r, trace, parent, route)), data), Parse(FRESH, data)))
  {
    hide Parse;
    var s := Handled(r, trace, parent, route);
    assert "x-trace-id" in s.headers;
    ResetAloneIff(s);
  }

  /** The request says how its body is framed. */
  predicate Framed(r: Request) {
    CONTENT_LENGTH in r.headers || TRANSFER_ENCODING in r.headers
  }

  /** `b` reads on top of the fields of `stale`, otherwise in step with `a`; what is
      left of an old query shows until a new one is read. */
  predicate Beneath(stale: Request, a: Machine, b: Machine) {
    var r := a.req.(
      verb := if a.state == METHOD then b.req.verb else a.req.verb,
      path := if a.state in {METHOD, PATH} then b.req.path else a.req.path,
      version := if a.state in {METHOD, PATH, QUERY, VERSION} then b.req.version else a.req.version,
      query := if a.req.query == "" && b.req.query == stale.query then stale.query else a.req.query,
      headers := stale.headers + a.req.headers);
    b == a.(req := r)
  }

  predicate BeneathResults(stale: Request, a: StepResult, b: StepResult) {
    match (a, b)
    case (More(m), More(n)) => Beneath(stale, m, n)
    case (Accept(m), Accept(n)) => m.state == DONE && Beneath(stale, m, n)
    case (Reject(_), Reject(_)) => true
    case _ => false
  }

  lemma {:induction false} HeaderLineBeneath(stale: Request, a: Machine, b: Machine)
    requires Beneath(stale, a, b) && !Framed(stale) && a.state == HEADER
    ensures BeneathResults(stale, HeaderLine(a), HeaderLine(b))
  {
    hide Field;
    if Field(a.buffer).Some? {
      var f := Field(a.buffer).value;
      assert stale.headers + a.req.headers[f.0 := f.1] == (stale.headers + a.req.headers)[f.0 := f.1];
    }
  }

  lemma {:induction false} HeadersEndBeneath(stale: Request, a: Machine, b: Machine)
    requires Beneath(stale, a, b) && !Framed(stale) && a.state == HEADER
    ensures BeneathResults(stale, EndOfHeaders(a), EndOfHeaders(b))
  {
  }

  lemma {:induction false} HeaderBeneath(stale: Request, a: Machine, b: Machine, c: char)
    requires Beneath(stale, a, b) && !Framed(stale) && a.state == HEADER
    ensures BeneathResults(stale, StepHeader(a, c), StepHeader(b, c))
  {
    hide HeaderLine, EndOfHeaders;
    var a1, b1 := a.(headersRead := a.headersRead + 1, crSeen := false), b.(headersRead := b.headersRead + 1, crSeen := false);
    HeaderLineBeneath(stale, a1, b1);
    HeadersEndBeneath(stale, a1, b1);
  }

  lemma {:induction false} LineBeneath(stale: Request, a: Machine, b: Machine, c: char)
    requires Beneath(stale, a, b) && a.state in {METHOD, PATH, QUERY}
    ensures BeneathResults(stale, StepRequestLine(a, c), StepRequestLine(b, c))
  {
  }

  lemma {:induction false} VersionBeneath(stale: Request, a: Machine, b: Machine, c: char)
    requires Beneath(stale, a, b) && a.state == VERSION
    ensures BeneathResults(stale, StepVersion(a, c), StepVersion(b, c))
  {
  }

  lemma {:induction false} BodyBeneath(stale: Request, a: Machine, b: Machine, c: char)
    requires Beneath(stale, a, b) && a.state == BODY
    ensures BeneathResults(stale, StepBody(a, c), StepBody(b, c))
  {
  }

  lemma {:induction false} ChunkBeneath(stale: Request, a: Machine, b: Machine, c: char)
    requires Beneath(stale, a, b) && a.state == CHUNKED_BODY
    ensures BeneathResults(stale, StepChunk(a, c), StepChunk(b, c))
  {
    hide ScanHex, BeforeSemicolon;
  }

  lemma {:induction false} StepBeneath(stale: Request, a: Machine, b: Machine, c: char)
    requires Beneath(stale, a, b) && !Framed(stale) && a.state != DONE
    ensures BeneathResults(stale, Step(a, c), Step(b, c))
  {
    hide StepHeader, StepRequestLine, StepVersion, StepChunk, StepBody, BeneathResults;
    match a.state {
      case METHOD | PATH | QUERY => LineBeneath(stale, a, b, c);
      case VERSION => VersionBeneath(stale, a, b, c);
      case HEADER => HeaderBeneath(stale, a, b, c);
      case CHUNKED_BODY => ChunkBeneath(stale, a, b, c);
      case BODY => BodyBeneath(stale, a, b, c);
    }
  }

  lemma {:induction false} ParseBeneath(stale: Request, a: Machine, b: Machine, data: string)
    requires Beneath(stale, a, b) && !Framed(stale) && a.state != DONE
    ensures var r, s := Parse(a, data), Parse(b, data);
            r.outcome == s.outcome && r.consumed == s.consumed &&
            (r.outcome.Accepted? ==> r.m.state == DONE && Beneath(stale, r.m, s.m))
    decreases |data|
  {
    hide Step, Beneath;
    if data != "" {
      StepBeneath(stale, a, b, data[0]);
      BeneathState(stale, Step(a, data[0]), Step(b, data[0]));
      if Step(a, data[0]).More? && Step(a, data[0]).m.state != DONE {
        ParseBeneath(stale, Step(a, data[0]).m, Step(b, data[0]).m, data[1..]);
      }
    }
  }

  lemma {:induction false} BeneathState(stale: Request, a: StepResult, b: StepResult)
    requires BeneathResults(stale, a, b)
    ensures a.More? ==> a.m.state == b.m.state
  {
  }

  /** After a request without body framing the next one is read in step, on every
      input, but delivered with the old fields beneath its own and, if it has no
      query, with the old query. */
  lemma {:induction false} OldFieldsShowThrough(stale: Request, data: string)
    requires !Framed(stale) && stale.body == ""
    ensures var r, s := Parse(FRESH, data), Parse(Reset(stale), data);
            && r.outcome == s.outcome && r.consumed == s.consumed
            && (r.outcome.Accepted? ==>
                  && s.m.req.headers == stale.headers + r.m.req.headers
                  && (s.m.req.query == r.m.req.query || (r.m.req.query == "" && s.m.req.query == stale.query))
                  && s.m.req == r.m.req.(headers := s.m.req.headers, query := s.m.req.query))
  {
    hide Parse;
    assert stale.headers + map[] == stale.headers;
    ParseBeneath(stale, FRESH, Reset(stale), data);
  }

  // ------------------------------------------------- a framed request, for good

  /** In step up to the header block, on top of framed fields. */
  predicate Doomed(a: Machine, b: Machine) {
    && Framed(b.req) && !Framed(a.req) && b == a.(req := b.req)
    && a.state in {METHOD, PATH, QUERY, VERSION, HEADER}
  }

  lemma {:induction false} DoomedLine(a: Machine, b: Machine)
    requires Doomed(a, b) && a.state == HEADER && HeaderLine(a).More?
    ensures if Framed(HeaderLine(a).m.req) then HeaderLine(b).Reject? && FramingError(HeaderLine(b).m.error)
            else HeaderLine(b).More? && Doomed(HeaderLine(a).m, HeaderLine(b).m)
  {
    hide Field;
  }

  predicate FramingError(e: ParseError) {
    e == DUPLICATE_CONTENT_LENGTH || e == CL_TE_CONFLICT || e == INVALID_TRANSFER_ENCODING
  }

  lemma {:induction false} EndIsUnframed(a: Machine)
    requires !Framed(a.req)
    ensures EndOfHeaders(a) == Accept(a.(state := DONE))
  {
  }

  lemma {:induction false} DoomedHeader(a: Machine, b: Machine, c: char)
    requires Doomed(a, b) && a.state == HEADER && StepHeader(a, c).More?
    ensures var r, s := StepHeader(a, c), StepHeader(b, c);
            if Framed(r.m.req) then s.Reject? && FramingError(s.m.error) else s.More? && Doomed(r.m, s.m)
  {
    hide HeaderLine, EndOfHeaders;
    var a1, b1 := a.(headersRead := a.headersRead + 1, crSeen := false), b.(headersRead := b.headersRead + 1, crSeen := false);
    EndIsUnframed(a1);
    if HeaderLine(a1).More? {
      DoomedLine(a1, b1);
    }
  }

  lemma {:induction false} DoomedStep(a: Machine, b: Machine, c: char)
    requires Doomed(a, b) && Step(a, c).More?
    ensures var r, s := Step(a, c), Step(b, c);
            if Framed(r.m.req) then s.Reject? && FramingError(s.m.error) else s.More? && Doomed(r.m, s.m)
  {
    hide StepHeader;
    if a.state == HEADER {
      DoomedHeader(a, b, c);
    }
  }

  lemma {:induction false} AcceptIsUnframed(a: Machine, c: char)
    requires !Framed(a.req) && a.state in {METHOD, PATH, QUERY, VERSION, HEADER} && Step(a, c).Accept?
    ensures !Framed(Step(a, c).m.req)
  {
    hide Field;
    EndIsUnframed(a.(headersRead := a.headersRead + 1, crSeen := false));
  }

  lemma {:induction false} DoomedParse(a: Machine, b: Machine, data: string)
    requires Doomed(a, b) && Parse(a, data).outcome.Accepted? && Framed(Parse(a, data).m.req)
    ensures Parse(b, data).outcome.Rejected? && FramingError(Parse(b, data).m.error)
    decreases |data|
  {
    hide Step, Framed;
    var r := Step(a, data[0]);
    if r.Accept? {
      AcceptIsUnframed(a, data[0]);
    } else {
      DoomedStep(a, b, data[0]);
      if !Framed(r.m.req) {
        DoomedParse(r.m, Step(b, data[0]).m, data[1..]);
      }
    }
  }

  // ------------------------------------ an unframed request after a framed one

  /** The framing of the stale request is still in force. */
  predicate SameFraming(r: Request, s: Request) {
    && (CONTENT_LENGTH in r.headers <==> CONTENT_LENGTH in s.headers)
    && (TRANSFER_ENCODING in r.headers <==> TRANSFER_ENCODING in s.headers)
    && (CONTENT_LENGTH in r.headers ==> s.headers[CONTENT_LENGTH] == r.headers[CONTENT_LENGTH])
    && (TRANSFER_ENCODING in r.headers ==> s.headers[TRANSFER_ENCODING] == r.headers[TRANSFER_ENCODING])
  }

  lemma {:induction false} FramingStays(m: Machine, c: char)
    requires m.state in {METHOD, PATH, QUERY, VERSION, HEADER} && Framed(m.req) && Step(m, c).More?
    ensures SameFraming(m.req, Step(m, c).m.req) && Step(m, c).m.req.body == m.req.body
  {
    hide Field;
  }

  /** `b` gets to the end of the header block when `a` accepts there. */
  lemma {:induction false} DoomedEnd(a: Machine, b: Machine, c: char) returns (end: Machine)
    requires Doomed(a, b) && Step(a, c).Accept?
    ensures Step(b, c) == EndOfHeaders(end) && end.req == b.req
  {
    end := b.(headersRead := b.headersRead + 1, crSeen := false);
    AcceptIsAtEnd(a, c);
  }

  lemma {:induction false} AcceptIsAtEnd(a: Machine, c: char)
    requires a.state in {METHOD, PATH, QUERY, VERSION, HEADER} && Step(a, c).Accept?
    ensures a.state == HEADER && c == '\n' && a.crSeen && a.buffer == "" && a.headersRead + 1 <= MAX_HEADERS_SIZE
  {
    hide Field, EndOfHeaders;
  }

  /** On the bytes of an unframed request, the machine on top of framed fields is in
      step up to the blank line, where the old framing decides. */
  lemma {:induction false} UnframedRun(a: Machine, b: Machine, data: string) returns (end: Machine)
    requires Doomed(a, b) && Parse(a, data).outcome.Accepted? && Parse(a, data).consumed == |data|
    requires !Framed(Parse(a, data).m.req)
    ensures SameFraming(b.req, end.req) && end.req.body == b.req.body
    ensures EndOfHeaders(end).More? ==> Leads(b, data, EndOfHeaders(end).m)
    decreases |data|
  {
    hide Step, Framed, SameFraming, EndOfHeaders;
    var r := Step(a, data[0]);
    if r.Accept? {
      end := DoomedEnd(a, b, data[0]);
      assert SameFraming(b.req, b.req) by {
        SameIsSame(b.req);
      }
      assert data == [data[0]];
      if EndOfHeaders(end).More? {
        BodyFollows(end);
        LeadsByte(b, data[0]);
      }
    } else {
      DoomedStep(a, b, data[0]);
      if Framed(r.m.req) {
        FramedStays(r.m, data[1..]);
      }
      FramingStays(b, data[0]);
      var s := Step(b, data[0]).m;
      end := UnframedRun(r.m, s, data[1..]);
      SameTrans(b.req, s.req, end.req);
      if EndOfHeaders(end).More? {
        LeadsByte(b, data[0]);
        LeadsTrans(b, [data[0]], s, data[1..], EndOfHeaders(end).m);
        assert data == [data[0]] + data[1..];
      }
    }
  }

  lemma {:induction false} FramedStays(m: Machine, data: string)
    requires Framed(m.req)
    ensures Framed(Parse(m, data).m.req)
  {
    hide Parse;
    FieldsStay(m, data, if CONTENT_LENGTH in m.req.headers then CONTENT_LENGTH else TRANSFER_ENCODING);
  }

  lemma {:induction false} BodyFollows(end: Machine)
    requires EndOfHeaders(end).More?
    ensures EndOfHeaders(end).m.state in {BODY, CHUNKED_BODY}
  {
  }

  lemma {:induction false} SameIsSame(r: Request)
    ensures SameFraming(r, r)
  {
  }

  lemma {:induction false} SameTrans(a: Request, b: Request, c: Request)
    requires SameFraming(a, b) && SameFraming(b, c)
    ensures SameFraming(a, c)
  {
  }

  predicate Announces(r: Request, n: nat) {
    && TRANSFER_ENCODING !in r.headers && CONTENT_LENGTH in r.headers && r.headers[CONTENT_LENGTH] != ""
    && ScanDecimal(r.headers[CONTENT_LENGTH], 0) == Some(n) && 0 < n <= MAX_BODY_SIZE
  }

  /** After a request with a body of `n` bytes, a request without body framing is not
      accepted at its blank line: the next `n` bytes, which belong to the request
      behind it, are taken for its body, on top of the old one. After a chunked
      request they are read as chunks. */
  lemma {:induction false} UnframedTakesTheNext(stale: Request, n: nat, data: string, next: string)
    requires Parse(FRESH, data).outcome.Accepted? && Parse(FRESH, data).consumed == |data| && !Framed(Parse(FRESH, data).m.req)
    ensures Announces(stale, n) ==>
              var s := Parse(Reset(stale), data + next);
              if |next| < n then s.outcome == Pending
              else s.outcome == Accepted && s.consumed == |data| + n && s.m.req.body == stale.body + next[..n]
    ensures TRANSFER_ENCODING in stale.headers && Lower(stale.headers[TRANSFER_ENCODING]) == "chunked" ==>
              var s := Parse(Reset(stale), data);
              s.outcome == Pending && s.consumed == |data| && s.m.state == CHUNKED_BODY
  {
    hide Parse, Lower;
    if Framed(stale) {
      var end := UnframedRun(FRESH, Reset(stale), data);
      if Announces(stale, n) {
        var m := EndOfHeaders(end).m;
        LeadsThen(Reset(stale), data, m, next);
        TakesBody(m, next);
      } else if EndOfHeaders(end).More? {
        LeadsIsAll(Reset(stale), data, EndOfHeaders(end).m);
      }
    }
  }

  lemma {:induction false} LeadsIsAll(m: Machine, w: string, m': Machine)
    requires Leads(m, w, m')
    ensures Parse(m, w) == Run(Pending, |w|, m')
  {
  }

  lemma {:induction false} FieldsStayStep(m: Machine, c: char, k: string)
    requires k in m.req.headers
    ensures k in Step(m, c).m.req.headers
  {
    hide Field;
  }

  lemma {:induction false} FieldsStay(m: Machine, data: string, k: string)
    requires k in m.req.headers
    ensures k in Parse(m, data).m.req.headers
    decreases |data|
  {
    hide Step;
    if data != "" {
      FieldsStayStep(m, data[0], k);
      if Step(m, data[0]).More? {
        FieldsStay(Step(m, data[0]).m, data[1..], k);
      }
    }
  }

  /** The request object after further inputs, the parser reset before each. */
  function Reused(r: Request, inputs: seq<string>): (s: Request)
    decreases |inputs|
  {
    if inputs == [] then r else Reused(Parse(Reset(r), inputs[0]).m.req, inputs[1..])
  }

  lemma {:induction false} StaysFramed(r: Request, inputs: seq<string>)
    requires Framed(r)
    ensures Framed(Reused(r, inputs))
    decreases |inputs|
  {
    hide Parse;
    if inputs != [] {
      var k := if CONTENT_LENGTH in r.headers then CONTENT_LENGTH else TRANSFER_ENCODING;
      FieldsStay(Reset(r), inputs[0], k);
      StaysFramed(Parse(Reset(r), inputs[0]).m.req, inputs[1..]);
    }
  }

  /** Once a request with body framing has been read, no request with body framing
      is accepted on the connection any more, whatever was read in between, until
      the object is cleared: each is rejected as a repeated or conflicting field. */
  lemma {:induction false} FramedOnceIsRefusedForever(r: Request, inputs: seq<string>, data: string)
    requires Framed(r) && Parse(FRESH, data).outcome.Accepted? && Framed(Parse(FRESH, data).m.req)
    ensures var s := Parse(Reset(Reused(r, inputs)), data);
            s.outcome.Rejected? && FramingError(s.m.error)
  {
    hide Parse;
    StaysFramed(r, inputs);
    DoomedParse(FRESH, Reset(Reused(r, inputs)), data);
  }

  /** For one: a POST with a one-byte body, sent twice on a connection. The first is
      accepted, the second is rejected. */
  lemma {:induction false} SecondPostIsRefused(trace: string, parent: string, route: Option<string>)
    ensures var wire := H.Image(H.Params("h", 80, "POST", "/", map[], "x"), []);
            var first := Parse(FRESH, wire);
            var second := Parse(Reset(Handled(first.m.req, trace, parent, route)), wire);
            && first.outcome.Accepted? && first.consumed == |wire|
            && second.outcome.Rejected? && FramingError(second.m.error)
  {
    hide Parse, H.Image;
    var p := H.Params("h", 80, "POST", "/", map[], "x");
    PostFits(p);
    H.HopRoundTrip(p, []);
    H.HopFraming(p);
    var first := Parse(FRESH, H.Image(p, []));
    FramedOnceIsRefusedForever(Handled(first.m.req, trace, parent, route), [], H.Image(p, []));
  }

  lemma {:induction false} PostFits(p: H.Params)
    requires p == H.Params("h", 80, "POST", "/", map[], "x")
    ensures H.FitsCaps(p, []) && H.Sendable(p)
  {
    assert Decimal(80) == "80" && Decimal(1) == "1";
    assert H.Fields(p, []) == [H.HostField(p), H.LengthField(p)];
    H.BlockAppend([H.HostField(p)], [H.LengthField(p)]);
    H.BlockOne(H.HostField(p));
    H.BlockOne(H.LengthField(p));
  }
}
