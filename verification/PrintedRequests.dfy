/** Requests as a client prints them, read from the first byte: a request line,
    header lines, and a body with its length, in chunks or not at all. What the
    parser makes of them is stated without any parser state (section 3.3 of
    RFC 7230). */
module PrintedRequests {
  import opened Bytes
  import opened ParserMachine
  import opened ParserLimits
  import opened ParserRuns
  import P = ProxyHop
  import K = ChunkCodec

  /** The request line; a query, even an empty one, follows a '?'. */
  function RequestLine(verb: string, path: string, query: Option<string>): (s: string) {
    match query
    case None => verb + " " + path + " HTTP/1.1\r\n"
    case Some(q) => P.QueryLine(verb, path, q)
  }

  function QueryOf(query: Option<string>): (s: string) {
    if query.Some? then query.value else ""
  }

  predicate LineOk(verb: string, path: string, query: Option<string>) {
    LinePart(verb) && LinePart(path) && '?' !in path && LinePart(QueryOf(query))
  }

  /** Request line, header lines, blank line. */
  function Head(verb: string, path: string, query: Option<string>, fields: seq<Printed>): (s: string) {
    RequestLine(verb, path, query) + Block(fields) + "\r\n"
  }

  /** The field says how the body is framed. */
  predicate Frames(f: Printed) {
    Lower(f.name) == "content-length" || Lower(f.name) == "transfer-encoding"
  }

  /** None of the fields but the `i`-th does. */
  predicate OnlyFraming(fields: seq<Printed>, i: int) {
    forall j :: 0 <= j < |fields| && j != i ==> !Frames(fields[j])
  }

  predicate FieldsFit(fields: seq<Printed>) {
    LinesFit(fields) && |Block(fields)| + 2 <= MAX_HEADERS_SIZE
  }

  // ------------------------------------------------------------ what is stored

  /** A name that no field has is not stored. */
  lemma {:induction false} NotStored(h: map<string, string>, fields: seq<Printed>, k: string)
    requires forall i :: 0 <= i < |fields| ==> Lower(fields[i].name) != k
    ensures (k in Stored(h, fields) <==> k in h) && (k in h ==> Stored(h, fields)[k] == h[k])
    decreases |fields|
  {
    if fields != [] {
      assert forall i :: 0 <= i < |fields[1..]| ==> fields[1..][i] == fields[i + 1];
      NotStored(h[Lower(fields[0].name) := fields[0].value], fields[1..], k);
    }
  }

  /** The stored value of a name is that of the last field with it, in any case. */
  lemma {:induction false} LastIsStored(h: map<string, string>, fields: seq<Printed>, i: nat)
    requires i < |fields| && forall j :: i < j < |fields| ==> Lower(fields[j].name) != Lower(fields[i].name)
    ensures var k := Lower(fields[i].name); k in Stored(h, fields) && Stored(h, fields)[k] == fields[i].value
    decreases |fields|
  {
    var rest, h' := fields[1..], h[Lower(fields[0].name) := fields[0].value];
    assert forall j :: 0 <= j < |rest| ==> rest[j] == fields[j + 1];
    if i > 0 {
      LastIsStored(h', rest, i - 1);
    } else {
      NotStored(h', rest, Lower(fields[0].name));
    }
  }

  lemma {:induction false} Unframed(h: map<string, string>, fields: seq<Printed>, i: int)
    requires OnlyFraming(fields, i)
    requires 0 <= i < |fields| ==> "content-length" !in h && "transfer-encoding" !in h
    ensures NoConflicts(h, fields)
    decreases |fields|
  {
    if fields != [] {
      var rest := fields[1..];
      assert forall j :: 0 <= j < |rest| ==> rest[j] == fields[j + 1];
      assert OnlyFraming(rest, if i > 0 then i - 1 else -1);
      Unframed(h[Lower(fields[0].name) := fields[0].value], rest, if i > 0 then i - 1 else -1);
    }
  }

  // ------------------------------------------------------------------ the head

  function AtBlankLine(verb: string, path: string, query: Option<string>, fields: seq<Printed>): (m: Machine) {
    FRESH.(state := HEADER, headersRead := |Block(fields)|,
           req := Request(verb, path, "HTTP/1.1", QueryOf(query), Stored(map[], fields), ""))
  }

  lemma {:induction false} FirstLineRun(verb: string, path: string, query: Option<string>)
    requires LineOk(verb, path, query)
    ensures Leads(FRESH, RequestLine(verb, path, query),
                  FRESH.(state := HEADER, req := Request(verb, path, "HTTP/1.1", QueryOf(query), map[], "")))
  {
    if query.None? {
      RequestLineRun(EMPTY_REQUEST, verb, path);
    } else {
      P.QueryLineRun(verb, path, query.value);
    }
  }

  lemma {:induction false} LinesRun(verb: string, path: string, query: Option<string>, fields: seq<Printed>)
    requires LineOk(verb, path, query) && LinesFit(fields) && |Block(fields)| <= MAX_HEADERS_SIZE && NoConflicts(map[], fields)
    ensures Leads(FRESH, RequestLine(verb, path, query) + Block(fields), AtBlankLine(verb, path, query, fields))
  {
    hide Leads, Step, Block, NoConflicts, Stored;
    FirstLineRun(verb, path, query);
    var m := FRESH.(state := HEADER, req := Request(verb, path, "HTTP/1.1", QueryOf(query), map[], ""));
    BlockRun(m, fields);
    LeadsTrans(FRESH, RequestLine(verb, path, query), m, Block(fields), AtBlankLine(verb, path, query, fields));
  }

  /** The blank line decides on the framing; what follows is read accordingly. */
  lemma {:induction false} HeadThen(verb: string, path: string, query: Option<string>, fields: seq<Printed>, rest: string)
    requires LineOk(verb, path, query) && FieldsFit(fields) && NoConflicts(map[], fields)
    ensures var m := AtBlankLine(verb, path, query, fields);
            var e, head := EndOfHeaders(m.(headersRead := m.headersRead + 2)), Head(verb, path, query, fields);
            var r := Parse(FRESH, head + rest);
            match e
            case Accept(m') => r == Run(Accepted, |head|, m')
            case Reject(m') => r == Run(Rejected, |head|, m')
            case More(m') => m'.state != DONE && r == Parse(m', rest).(consumed := |head| + Parse(m', rest).consumed)
  {
    hide Parse, Step, EndOfHeaders, Block, NoConflicts, Stored, RequestLine, LinesFit;
    var m, lines := AtBlankLine(verb, path, query, fields), RequestLine(verb, path, query) + Block(fields);
    var e := EndOfHeaders(m.(headersRead := m.headersRead + 2));
    LinesRun(verb, path, query, fields);
    BlankLineRun(m, rest);
    if e.More? {
      LeadsTrans(FRESH, lines, m, "\r\n", e.m);
      LeadsThen(FRESH, lines + "\r\n", e.m, rest);
    } else {
      LeadsThen(FRESH, lines, m, "\r\n" + rest);
      Assoc(lines, "\r\n", rest);
    }
  }

  // ------------------------------------------------------------ what is accepted

  function Made(verb: string, path: string, query: Option<string>, fields: seq<Printed>, body: string): (r: Request) {
    Request(verb, path, "HTTP/1.1", QueryOf(query), Stored(map[], fields), body)
  }

  /** Without a framing field a request ends with its head. */
  lemma {:induction false} BareRequest(verb: string, path: string, query: Option<string>, fields: seq<Printed>, after: string)
    requires LineOk(verb, path, query) && FieldsFit(fields) && OnlyFraming(fields, -1)
    ensures var head := Head(verb, path, query, fields);
            var r := Parse(FRESH, head + after);
            r.outcome == Accepted && r.consumed == |head| && r.m.req == Made(verb, path, query, fields, "")
  {
    hide Parse, Block, Stored, LinesFit;
    Unframed(map[], fields, -1);
    NotStored(map[], fields, "content-length");
    NotStored(map[], fields, "transfer-encoding");
    HeadThen(verb, path, query, fields, after);
  }

  /** With a Content-Length, in any case and with any leading zeros, a request ends
      with exactly that many bytes more. */
  lemma {:induction false} CountedRequest(verb: string, path: string, query: Option<string>, fields: seq<Printed>,
        i: nat, body: string, after: string)
    requires LineOk(verb, path, query) && FieldsFit(fields) && i < |fields| && OnlyFraming(fields, i)
    requires Lower(fields[i].name) == "content-length" && fields[i].value != "" && AllDigits(fields[i].value)
    requires DecimalValue(fields[i].value) == |body| <= MAX_BODY_SIZE
    ensures var wire := Head(verb, path, query, fields) + body;
            var r := Parse(FRESH, wire + after);
            r.outcome == Accepted && r.consumed == |wire| && r.m.req == Made(verb, path, query, fields, body)
  {
    hide Parse, Block, Stored, LinesFit, EndOfHeaders, DecimalValue;
    var head := Head(verb, path, query, fields);
    Unframed(map[], fields, i);
    LastIsStored(map[], fields, i);
    NotStored(map[], fields, "transfer-encoding");
    HeadThen(verb, path, query, fields, body + after);
    Assoc(head, body, after);
    var m := AtBlankLine(verb, path, query, fields);
    EndCounted(m.(headersRead := m.headersRead + 2), |body|);
    if body != "" {
      BodyTaken(EndOfHeaders(m.(headersRead := m.headersRead + 2)).m, body, after);
    } else {
      assert head + body == head;
    }
  }

  lemma {:induction false} EndCounted(m: Machine, n: nat)
    requires TRANSFER_ENCODING !in m.req.headers && CONTENT_LENGTH in m.req.headers && n <= MAX_BODY_SIZE
    requires var v := m.req.headers[CONTENT_LENGTH]; v != "" && AllDigits(v) && DecimalValue(v) == n
    ensures EndOfHeaders(m) == if n == 0 then Accept(m.(contentLength := 0, state := DONE))
                               else More(m.(contentLength := n, bodyRead := 0, state := BODY))
  {
    ScanDecimalExact(m.req.headers[CONTENT_LENGTH], 0);
  }

  lemma {:induction false} BodyTaken(m: Machine, body: string, after: string)
    requires m.state == BODY && m.bodyRead == 0 && m.contentLength == |body| && 0 < |body| <= MAX_BODY_SIZE && m.req.body == ""
    ensures var r := Parse(m, body + after);
            r.outcome == Accepted && r.consumed == |body| && r.m.req == m.req.(body := body)
  {
    TakesBody(m, body + after);
    assert (body + after)[..|body|] == body && "" + body == body;
  }

  /** With `Transfer-Encoding: chunked`, in any case, a request ends with its chunk
      stream and has its payload for a body. */
  lemma {:induction false} StreamedRequest(verb: string, path: string, query: Option<string>, fields: seq<Printed>,
        i: nat, st: K.Stream, after: string)
    requires LineOk(verb, path, query) && FieldsFit(fields) && i < |fields| && OnlyFraming(fields, i)
    requires Lower(fields[i].name) == "transfer-encoding" && Lower(fields[i].value) == "chunked"
    requires K.StreamOk(st) && K.FitsParser(st) && |K.Payload(st.chunks)| <= MAX_BODY_SIZE
    ensures var wire := Head(verb, path, query, fields) + K.Print(st);
            var r := Parse(FRESH, wire + after);
            r.outcome == Accepted && r.consumed == |wire| && r.m.req == Made(verb, path, query, fields, K.Payload(st.chunks))
  {
    hide Parse, Block, Stored, LinesFit, K.Print, K.StreamOk, K.FitsParser;
    var head := Head(verb, path, query, fields);
    Unframed(map[], fields, i);
    LastIsStored(map[], fields, i);
    HeadThen(verb, path, query, fields, K.Print(st) + after);
    Assoc(head, K.Print(st), after);
    K.CollectIsPayload("", st.chunks);
    assert "" + K.Payload(st.chunks) == K.Payload(st.chunks);
    var m := AtBlankLine(verb, path, query, fields);
    K.ParserOfPrint(EndOfHeaders(m.(headersRead := m.headersRead + 2)).m, st, after, K.Payload(st.chunks));
  }

  /** For one, what the gateway's own encoder writes. */
  lemma {:induction false} EncodedRequest(verb: string, path: string, query: Option<string>, fields: seq<Printed>,
        i: nat, body: string, after: string)
    requires LineOk(verb, path, query) && FieldsFit(fields) && i < |fields| && OnlyFraming(fields, i)
    requires Lower(fields[i].name) == "transfer-encoding" && Lower(fields[i].value) == "chunked" && |body| <= MAX_BODY_SIZE
    ensures var wire := Head(verb, path, query, fields) + K.Encode(body);
            var r := Parse(FRESH, wire + after);
            r.outcome == Accepted && r.consumed == |wire| && r.m.req == Made(verb, path, query, fields, body)
  {
    hide Parse, Block, Stored, LinesFit, K.Print, K.StreamOk, K.FitsParser, K.Encode;
    K.EncodePrints(body);
    K.EncodeFits(body);
    StreamedRequest(verb, path, query, fields, i, K.EncodedStream(body), after);
  }

  // ------------------------------------------------------------- what is refused

  /** What two framing fields are refused for. */
  function ConflictOf(a: Printed, b: Printed): (e: ParseError) {
    if Lower(a.name) != Lower(b.name) then CL_TE_CONFLICT
    else if Lower(a.name) == "content-length" then DUPLICATE_CONTENT_LENGTH
    else INVALID_TRANSFER_ENCODING
  }

  /** A second framing field is refused at the end of its line, whatever follows. */
  lemma {:induction false} SecondFraming(verb: string, path: string, query: Option<string>, fields: seq<Printed>, i: nat, f: Printed, after: string)
    requires LineOk(verb, path, query) && i < |fields| && OnlyFraming(fields, i) && Frames(fields[i]) && Frames(f)
    requires LinesFit(fields + [f]) && |Block(fields + [f])| <= MAX_HEADERS_SIZE
    ensures var lines := RequestLine(verb, path, query) + Block(fields + [f]);
            var r := Parse(FRESH, lines + after);
            r.outcome == Rejected && r.consumed == |lines| && r.m.error == ConflictOf(fields[i], f)
  {
    hide Parse, Block, Stored, Leads, RequestLine, NoConflicts, Line;
    var m, lines := AtBlankLine(verb, path, query, fields), RequestLine(verb, path, query) + Block(fields);
    SecondConflicts(fields, i, f);
    BlockSnoc(fields, f);
    Unframed(map[], fields, i);
    LinesRun(verb, path, query, fields);
    RefusedLine(m, f, after);
    LeadsThen(FRESH, lines, m, Line(f) + "\r\n" + after);
    var line, first := Line(f) + "\r\n", RequestLine(verb, path, query);
    Assoc(lines, line, after);
    Assoc(first, Block(fields), line);
  }

  lemma {:induction false} BlockSnoc(fields: seq<Printed>, f: Printed)
    ensures Block(fields + [f]) == Block(fields) + (Line(f) + "\r\n")
    ensures LinesFit(fields + [f]) ==> LinesFit(fields) && Printable(f) && |Line(f)| <= MAX_HEADER_LINE_SIZE
  {
    hide Block, Line;
    P.BlockAppend(fields, [f]);
    P.BlockOne(f);
    assert (fields + [f])[|fields|] == f;
    assert forall j :: 0 <= j < |fields| ==> fields[j] == (fields + [f])[j];
  }

  lemma {:induction false} SecondConflicts(fields: seq<Printed>, i: nat, f: Printed)
    requires i < |fields| && OnlyFraming(fields, i) && Frames(fields[i]) && Frames(f)
    ensures FramingConflict(Stored(map[], fields), Lower(f.name)) == ConflictOf(fields[i], f) != NONE
  {
    hide Stored;
    LastIsStored(map[], fields, i);
    NotStored(map[], fields, if Lower(fields[i].name) == "content-length" then "transfer-encoding" else "content-length");
  }

  lemma {:induction false} RefusedLine(m: Machine, f: Printed, after: string)
    requires m.state == HEADER && m.buffer == "" && !m.crSeen && Printable(f) && |Line(f)| <= MAX_HEADER_LINE_SIZE
    requires m.headersRead + |Line(f)| + 2 <= MAX_HEADERS_SIZE && FramingConflict(m.req.headers, Lower(f.name)) != NONE
    ensures var r := Parse(m, Line(f) + "\r\n" + after);
            r.outcome == Rejected && r.consumed == |Line(f)| + 2 && r.m.error == FramingConflict(m.req.headers, Lower(f.name))
  {
    hide Parse, Leads, Field;
    var line := Line(f);
    FieldOfLine(f);
    HeaderRun(m, line);
    assert "" + line == line;
    var m1 := m.(buffer := line, headersRead := m.headersRead + |line|);
    TwoBytes(m1, '\r', '\n', "\r\n", after);
    LeadsThen(m, line, m1, "\r\n" + after);
    Assoc(line, "\r\n", after);
  }

  /** Any other transfer coding is refused at the blank line. */
  lemma {:induction false} OtherCoding(verb: string, path: string, query: Option<string>, fields: seq<Printed>, i: nat, after: string)
    requires LineOk(verb, path, query) && FieldsFit(fields) && i < |fields| && OnlyFraming(fields, i)
    requires Lower(fields[i].name) == "transfer-encoding" && Lower(fields[i].value) != "chunked"
    ensures var head := Head(verb, path, query, fields);
            var r := Parse(FRESH, head + after);
            r.outcome == Rejected && r.consumed == |head| && r.m.error == INVALID_TRANSFER_ENCODING
  {
    hide Parse, Block, Stored, LinesFit;
    Unframed(map[], fields, i);
    LastIsStored(map[], fields, i);
    HeadThen(verb, path, query, fields, after);
  }

  /** So is a Content-Length that is no number, or one above the body cap. */
  lemma {:induction false} BadLength(verb: string, path: string, query: Option<string>, fields: seq<Printed>, i: nat, after: string)
    requires LineOk(verb, path, query) && FieldsFit(fields) && i < |fields| && OnlyFraming(fields, i)
    requires Lower(fields[i].name) == "content-length"
    requires fields[i].value == "" || !AllDigits(fields[i].value) || DecimalValue(fields[i].value) > MAX_BODY_SIZE
    ensures var head := Head(verb, path, query, fields);
            var v, r := fields[i].value, Parse(FRESH, head + after);
            && r.outcome == Rejected && r.consumed == |head|
            && (v == "" || !IsDigit(v[0]) ==> r.m.error == INVALID_CONTENT_LENGTH)
            && (v != "" && AllDigits(v) ==> r.m.error == BODY_TOO_LARGE)
            && (r.m.error == INVALID_CONTENT_LENGTH || r.m.error == BODY_TOO_LARGE)
  {
    hide Parse, Block, Stored, LinesFit;
    Unframed(map[], fields, i);
    LastIsStored(map[], fields, i);
    NotStored(map[], fields, "transfer-encoding");
    HeadThen(verb, path, query, fields, after);
    LengthRefused(fields[i].value, 0);
  }

  lemma {:induction false} LengthRefused(s: string, acc: nat)
    ensures AllDigits(s) ==> ScanDecimal(s, acc).Some? && (DecimalFrom(s, acc) > MAX_BODY_SIZE ==> ScanDecimal(s, acc).value > MAX_BODY_SIZE)
    ensures !AllDigits(s) ==> ScanDecimal(s, acc).None? || ScanDecimal(s, acc).value > MAX_BODY_SIZE
    decreases |s|
  {
    ScanDecimalExact(s, acc);
    if s != "" && IsDigit(s[0]) {
      LengthRefused(s[1..], acc * 10 + DigitValue(s[0]));
      assert forall k :: 0 <= k < |s[1..]| ==> s[1..][k] == s[k + 1];
    }
  }

  /** Visible characters that are no delimiters make up tokens (section 3.2.6 of RFC
      7230). */
  predicate Visible(c: char) {
    0x21 <= c as int <= 0x7E
  }

  predicate Delimiter(c: char) {
    c in "\"(),/:;<=>?@[\\]{}"
  }

  lemma {:induction false} TokenCharacters(c: char)
    ensures IsTchar(c) <==> Visible(c) && !Delimiter(c)
  {
  }

  /** A control character other than a tab. */
  predicate Control(c: char) {
    (c as int < 0x20 && c != '\t') || c as int == 0x7F
  }

  /** A header line without a colon, without a name, with a character in the name that
      is none of a token, or with a control character in the value. */
  predicate Illegal(line: string) {
    match FindChar(line, ':', 0)
    case None => true
    case Some(colon) =>
      || colon == 0
      || (exists j :: 0 <= j < colon && (!Visible(line[j]) || Delimiter(line[j])))
      || (exists j :: colon < j < |line| && Control(line[j]))
  }

  lemma {:induction false} TrimKeepsInside(s: string, c: char)
    requires c in s && !Blank(c)
    ensures c in Trim(s)
  {
    KeptLeft(s, c);
    KeptRight(TrimLeft(s), c);
  }

  lemma {:induction false} KeptLeft(s: string, c: char)
    requires c in s && !Blank(c)
    ensures c in TrimLeft(s)
    decreases |s|
  {
    if Blank(s[0]) {
      KeptLeft(s[1..], c);
    }
  }

  lemma {:induction false} KeptRight(s: string, c: char)
    requires c in s && !Blank(c)
    ensures c in TrimRight(s)
    decreases |s|
  {
    if Blank(s[|s| - 1]) {
      KeptRight(s[..|s| - 1], c);
    }
  }

  lemma {:induction false} IllegalIsNoField(line: string)
    requires Illegal(line)
    ensures Field(line) == None
  {
    hide Trim;
    if FindChar(line, ':', 0).Some? {
      var colon := FindChar(line, ':', 0).value;
      var key, tail := Lower(line[..colon]), line[colon + 1..];
      if j :| 0 <= j < colon && (!Visible(line[j]) || Delimiter(line[j])) {
        TokenCharacters(key[j]);
        assert !IsToken(key);
      } else if j :| colon < j < |line| && Control(line[j]) {
        assert tail[j - colon - 1] == line[j];
        TrimKeepsInside(tail, line[j]);
        assert !IsFieldValue(Trim(tail));
      }
    }
  }

  /** Wherever a header line begins, an illegal one is refused at its end. */
  lemma {:induction false} IllegalLine(before: string, m: Machine, line: string, after: string)
    requires Leads(FRESH, before, m) && m.state == HEADER && m.buffer == "" && !m.crSeen
    requires line != "" && NoLineBreak(line) && |line| <= MAX_HEADER_LINE_SIZE && m.headersRead + |line| + 2 <= MAX_HEADERS_SIZE
    requires Illegal(line)
    ensures var r := Parse(FRESH, before + (line + "\r\n" + after));
            r.outcome == Rejected && r.consumed == |before| + |line| + 2 && r.m.error == INVALID_HEADER
  {
    hide Parse, Leads, Field, Illegal;
    IllegalIsNoField(line);
    HeaderRun(m, line);
    assert "" + line == line;
    var m1 := m.(buffer := line, headersRead := m.headersRead + |line|);
    TwoBytes(m1, '\r', '\n', "\r\n", after);
    LeadsThen(m, line, m1, "\r\n" + after);
    Assoc(line, "\r\n", after);
    LeadsThen(FRESH, before, m, line + "\r\n" + after);
  }

  /** A carriage return that no line feed follows is dropped from its header line. */
  lemma {:induction false} LoneReturnIsDropped(before: string, m: Machine, c: char)
    requires Leads(FRESH, before, m) && m.state == HEADER && c != '\r' && c != '\n'
    requires |m.buffer| < MAX_HEADER_LINE_SIZE && m.headersRead + 2 <= MAX_HEADERS_SIZE
    ensures Leads(FRESH, before + ['\r', c], m.(crSeen := false, buffer := m.buffer + [c], headersRead := m.headersRead + 2))
  {
    hide Parse, Leads;
    TwoBytes(m, '\r', c, ['\r', c], "");
    LeadsTrans(FRESH, before, m, ['\r', c], m.(crSeen := false, buffer := m.buffer + [c], headersRead := m.headersRead + 2));
  }

  predicate InHead(m: Machine) {
    m.state in {METHOD, PATH, QUERY, VERSION, HEADER}
  }

  /** The parser remembers a CR for one byte. */
  predicate CrOk(m: Machine) {
    m.crSeen ==> m.state in {VERSION, HEADER}
  }

  lemma {:induction false} CrStep(m: Machine, c: char)
    requires CrOk(m) && Step(m, c).More?
    ensures CrOk(Step(m, c).m) && (Step(m, c).m.crSeen ==> c == '\r')
  {
    hide Field, ScanHex, ScanDecimal, Lower;
  }

  lemma {:induction false} CrIsLast(m: Machine, w: string, m': Machine)
    requires CrOk(m) && Leads(m, w, m') && w != ""
    ensures m'.crSeen ==> w[|w| - 1] == '\r'
    decreases |w|
  {
    hide Step;
    CrStep(m, w[0]);
    if |w| > 1 {
      CrIsLast(Step(m, w[0]).m, w[1..], m');
    }
  }

  /** In the request line and the header block, a line feed without a carriage return
      in front of it is refused, whatever follows. */
  lemma {:induction false} BareLineFeed(before: string, m: Machine, after: string)
    requires Leads(FRESH, before, m) && InHead(m) && (before == "" || before[|before| - 1] != '\r')
    ensures var r := Parse(FRESH, before + ("\n" + after));
            r.outcome == Rejected && r.consumed == |before| + 1
  {
    if before != "" {
      CrIsLast(FRESH, before, m);
    }
    assert Step(m, '\n').Reject?;
    assert ("\n" + after)[0] == '\n';
    LeadsThen(FRESH, before, m, "\n" + after);
  }

  /** What was accepted can be printed again: no field name holds a blank, a delimiter
      or a control character, and no value and no part of the request line a control character. */
  lemma {:induction false} NothingHides(data: string, k: string, i: nat)
    requires Parse(FRESH, data).outcome == Accepted && k in Parse(FRESH, data).m.req.headers
    ensures var r := Parse(FRESH, data).m.req;
            && k != "" && (i < |k| ==> Visible(k[i]) && !Delimiter(k[i]) && !('A' <= k[i] <= 'Z'))
            && (i < |r.headers[k]| ==> !Control(r.headers[k][i]))
            && (forall part :: part in [r.verb, r.path, r.query, r.version] && i < |part| ==> part[i] != ' ' && !Control(part[i]))
  {
    hide Parse, BodyLengthOk, IsTchar, Delimiter;
    EveryStreamKeepsTheLimits(data);
    var r := Parse(FRESH, data).m.req;
    assert FieldOk(k, r.headers[k]);
    if i < |k| {
      TokenCharacters(k[i]);
      assert IsTchar(k[i]);
    }
    forall part | part in [r.verb, r.path, r.query, r.version] && i < |part|
      ensures part[i] != ' ' && !Control(part[i])
    {
      assert IsRequestLinePart(part) && IsRequestLineChar(part[i]);
    }
  }
}
