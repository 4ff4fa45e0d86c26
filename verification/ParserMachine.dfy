/** The request parser as a value-level byte machine: one `Step` per byte, one
    `Parse` per call. The class in RequestParser refines it; the theorems about
    pipelining, caps and body lengths are stated on it. */
module ParserMachine {
  import opened Bytes

  const MAX_BODY_SIZE := 1024 * 1024
  const MAX_REQUEST_LINE_SIZE := 8 * 1024
  const MAX_HEADER_LINE_SIZE := 8 * 1024
  const MAX_HEADERS_SIZE := 64 * 1024
  const MAX_CHUNK_SIZE_LINE := 16

  datatype State = METHOD | PATH | VERSION | QUERY | HEADER | CHUNKED_BODY | BODY | DONE

  datatype ChunkState = SIZE | DATA | TRAILER

  datatype ParseError =
    | NONE
    | BODY_TOO_LARGE
    | DUPLICATE_CONTENT_LENGTH
    | CL_TE_CONFLICT
    | INVALID_TRANSFER_ENCODING
    | INVALID_CONTENT_LENGTH
    | INVALID_HEADER
    | INVALID_CHUNK_SIZE
    | REQUEST_LINE_TOO_LONG
    | HEADER_TOO_LONG
    | HEADERS_TOO_LARGE

  datatype Request = Request(
    verb: string, path: string, version: string, query: string, headers: map<string, string>, body: string)

  /** Parser fields together with the request being filled. */
  datatype Machine = Machine(
    state: State, chunk: ChunkState, buffer: string, contentLength: nat, bodyRead: nat, headersRead: nat,
    error: ParseError, hexBuffer: string, remaining: nat, crSeen: bool, req: Request)

  const EMPTY_REQUEST := Request("", "", "", "", map[], "")

  /** `reset()` for a machine holding `req`. */
  function Reset(req: Request): (m: Machine) {
    Machine(METHOD, SIZE, "", 0, 0, 0, NONE, "", 0, false, req)
  }

  /** `reset()` and `request.clear()`: where every request starts. */
  const FRESH: Machine := Reset(EMPTY_REQUEST)

  // -------------------------------------------------------- character classes

  predicate IsTchar(c: char) {
    IsDigit(c) || 'a' <= c <= 'z' || 'A' <= c <= 'Z' ||
    c in {'!', '#', '$', '%', '&', '\'', '*', '+', '-', '.', '^', '_', '`', '|', '~'}
  }

  predicate IsFieldValueChar(c: char) {
    c == '\t' || (c as int >= 0x20 && c as int != 0x7F)
  }

  predicate IsRequestLineChar(c: char) {
    c as int > 0x20 && c as int != 0x7F
  }

  predicate IsToken(s: string) {
    forall i :: 0 <= i < |s| ==> IsTchar(s[i])
  }

  predicate IsFieldValue(s: string) {
    forall i :: 0 <= i < |s| ==> IsFieldValueChar(s[i])
  }

  predicate IsRequestLinePart(s: string) {
    forall i :: 0 <= i < |s| ==> IsRequestLineChar(s[i])
  }

  // -------------------------------------------------------- number scanning

  /** The Content-Length loop: stops reading digits once the value is past the
      body cap, so later characters are never looked at. */
  function ScanDecimal(s: string, acc: nat): (r: Option<nat>)
    decreases |s|
  {
    if s == "" then Some(acc)
    else if !IsDigit(s[0]) then None
    else if acc > MAX_BODY_SIZE then Some(MAX_BODY_SIZE + 1)
    else ScanDecimal(s[1..], acc * 10 + DigitValue(s[0]))
  }

  /** The chunk-size loop: same early stop, after the digit that crossed the cap. */
  function ScanHex(s: string, acc: nat): (r: Option<nat>)
    decreases |s|
  {
    if s == "" then Some(acc)
    else if !IsHexDigit(s[0]) then None
    else
      var size := acc * 16 + HexDigitValue(s[0]);
      if size > MAX_BODY_SIZE then Some(size) else ScanHex(s[1..], size)
  }

  // ------------------------------------------------------------------- steps

  datatype StepResult = More(m: Machine) | Accept(m: Machine) | Reject(m: Machine)

  function Fail(m: Machine, e: ParseError): (r: StepResult) {
    Reject(m.(error := e))
  }

  /** Appends a request-line byte to the buffer, within the cap. */
  function PushLine(m: Machine, c: char): (r: StepResult) {
    var m' := m.(buffer := m.buffer + [c]);
    if !IsRequestLineChar(c) then Fail(m, INVALID_HEADER)
    else if |m'.buffer| > MAX_REQUEST_LINE_SIZE then Fail(m', REQUEST_LINE_TOO_LONG)
    else More(m')
  }

  function StepRequestLine(m: Machine, c: char): (r: StepResult)
    requires m.state in {METHOD, PATH, QUERY}
  {
    if m.state == METHOD && c == ' ' then
      More(m.(req := m.req.(verb := m.buffer), buffer := "", state := PATH))
    else if m.state == PATH && c == ' ' then
      More(m.(req := m.req.(path := m.buffer), buffer := "", state := VERSION))
    else if m.state == PATH && c == '?' then
      More(m.(req := m.req.(path := m.buffer), buffer := "", state := QUERY))
    else if m.state == QUERY && c == ' ' then
      More(m.(req := m.req.(query := m.buffer), buffer := "", state := VERSION))
    else PushLine(m, c)
  }

  function StepVersion(m: Machine, c: char): (r: StepResult) {
    if c == '\r' then More(m.(crSeen := true))
    else if c == '\n' then
      if !m.crSeen then Fail(m, INVALID_HEADER)
      else More(m.(crSeen := false, req := m.req.(version := m.buffer), buffer := "", state := HEADER))
    else if !IsRequestLineChar(c) then Fail(m, INVALID_HEADER)
    else PushLine(m.(crSeen := false), c)
  }

  const CONTENT_LENGTH := "content-length"
  const TRANSFER_ENCODING := "transfer-encoding"

  /** The error a header with this key meets against the headers already stored. */
  function FramingConflict(headers: map<string, string>, key: string): (e: ParseError) {
    if key == CONTENT_LENGTH then
      if CONTENT_LENGTH in headers then DUPLICATE_CONTENT_LENGTH
      else if TRANSFER_ENCODING in headers then CL_TE_CONFLICT
      else NONE
    else if key == TRANSFER_ENCODING then
      if CONTENT_LENGTH in headers then CL_TE_CONFLICT
      else if TRANSFER_ENCODING in headers then INVALID_TRANSFER_ENCODING
      else NONE
    else NONE
  }

  /** Key and value of a header line: the key lower-cased, the value trimmed;
      None when there is no colon or a character is illegal. */
  function Field(line: string): (f: Option<(string, string)>) {
    match FindChar(line, ':', 0)
    case None => None
    case Some(colon) =>
      var key := Lower(line[..colon]);
      var value := Trim(line[colon + 1..]);
      if key == "" || !IsToken(key) || !IsFieldValue(value) then None else Some((key, value))
  }

  /** A complete, non-empty header line sits in the buffer. */
  function HeaderLine(m: Machine): (r: StepResult) {
    match Field(m.buffer)
    case None => Fail(m, INVALID_HEADER)
    case Some(f) =>
      var conflict := FramingConflict(m.req.headers, f.0);
      if conflict != NONE then Fail(m, conflict)
      else More(m.(req := m.req.(headers := m.req.headers[f.0 := f.1]), buffer := ""))
  }

  /** The empty line that ends the header block selects the body framing. */
  function EndOfHeaders(m: Machine): (r: StepResult) {
    if TRANSFER_ENCODING in m.req.headers then
      if Lower(m.req.headers[TRANSFER_ENCODING]) != "chunked" then Fail(m, INVALID_TRANSFER_ENCODING)
      else More(m.(hexBuffer := "", remaining := 0, chunk := SIZE, state := CHUNKED_BODY))
    else if CONTENT_LENGTH in m.req.headers then
      var cl := m.req.headers[CONTENT_LENGTH];
      if cl == "" then Fail(m, INVALID_CONTENT_LENGTH)
      else
        match ScanDecimal(cl, 0)
        case None => Fail(m, INVALID_CONTENT_LENGTH)
        case Some(v) =>
          var m' := m.(contentLength := v);
          if v > MAX_BODY_SIZE then Fail(m', BODY_TOO_LARGE)
          else if v > 0 then More(m'.(bodyRead := 0, state := BODY))
          else Accept(m'.(state := DONE))
    else Accept(m.(state := DONE))
  }

  /** LF inside the header block: only a CRLF ends a line. */
  function LineEnd(m: Machine): (r: StepResult) {
    if !m.crSeen then Fail(m, INVALID_HEADER)
    else if m.buffer == "" then EndOfHeaders(m.(crSeen := false))
    else HeaderLine(m.(crSeen := false))
  }

  function StepHeader(m0: Machine, c: char): (r: StepResult) {
    var m := m0.(headersRead := m0.headersRead + 1);
    if m.headersRead > MAX_HEADERS_SIZE then Fail(m, HEADERS_TOO_LARGE)
    else if c == '\r' then More(m.(crSeen := true))
    else if c == '\n' then LineEnd(m)
    else
      var m' := m.(crSeen := false, buffer := m.buffer + [c]);
      if |m'.buffer| > MAX_HEADER_LINE_SIZE then Fail(m', HEADER_TOO_LONG) else More(m')
  }

  /** A size line has ended with LF. An empty one is the CRLF behind chunk data. */
  function SizeLine(m: Machine): (r: StepResult) {
    if m.hexBuffer == "" then More(m)
    else
      var hex := BeforeSemicolon(m.hexBuffer);
      if hex == "" then Fail(m, INVALID_CHUNK_SIZE)
      else
        match ScanHex(hex, 0)
        case None => Fail(m, INVALID_CHUNK_SIZE)
        case Some(size) =>
          if size == 0 then More(m.(hexBuffer := "", chunk := TRAILER, buffer := ""))
          else More(m.(hexBuffer := "", remaining := size, chunk := DATA))
  }

  function StepChunk(m: Machine, c: char): (r: StepResult) {
    match m.chunk
    case SIZE =>
      if c == '\r' then More(m)
      else if c == '\n' then SizeLine(m)
      else
        var m' := m.(hexBuffer := m.hexBuffer + [c]);
        if |m'.hexBuffer| > MAX_CHUNK_SIZE_LINE then Fail(m', INVALID_CHUNK_SIZE) else More(m')
    case DATA =>
      var left := if m.remaining == 0 then SIZE_MAX else m.remaining - 1;
      var m' := m.(req := m.req.(body := m.req.body + [c]), remaining := left);
      if |m'.req.body| > MAX_BODY_SIZE then Fail(m', BODY_TOO_LARGE)
      else if left == 0 then More(m'.(chunk := SIZE))
      else More(m')
    case TRAILER =>
      if c == '\r' then More(m)
      else if c == '\n' then
        if m.buffer == "" then Accept(m.(state := DONE)) else More(m.(buffer := ""))
      else
        var m' := m.(buffer := m.buffer + [c]);
        if |m'.buffer| > MAX_HEADER_LINE_SIZE then Fail(m', HEADER_TOO_LONG) else More(m')
  }

  function StepBody(m: Machine, c: char): (r: StepResult) {
    if m.bodyRead >= MAX_BODY_SIZE then Fail(m, BODY_TOO_LARGE)
    else
      var m' := m.(req := m.req.(body := m.req.body + [c]), bodyRead := m.bodyRead + 1);
      if m'.bodyRead >= m.contentLength then Accept(m'.(state := DONE)) else More(m')
  }

  function Step(m: Machine, c: char): (r: StepResult) {
    match m.state
    case METHOD | PATH | QUERY => StepRequestLine(m, c)
    case VERSION => StepVersion(m, c)
    case HEADER => StepHeader(m, c)
    case CHUNKED_BODY => StepChunk(m, c)
    case BODY => StepBody(m, c)
    case DONE => More(m)
  }

  // ------------------------------------------------------------- whole calls

  datatype Outcome = Pending | Accepted | Rejected

  /** What one `parse` call reports: its verdict, the bytes used, the new state. */
  datatype Run = Run(outcome: Outcome, consumed: nat, m: Machine)

  function Parse(m: Machine, data: string): (r: Run)
    ensures r.consumed <= |data|
    ensures r.outcome != Pending ==> r.consumed > 0
    decreases |data|
  {
    if data == "" then Run(Pending, 0, m)
    else
      match Step(m, data[0])
      case Accept(m') => Run(Accepted, 1, m')
      case Reject(m') => Run(Rejected, 1, m')
      case More(m') =>
        if m'.state == DONE then Run(Pending, 1, m')
        else
          var rest := Parse(m', data[1..]);
          rest.(consumed := rest.consumed + 1)
  }
}
