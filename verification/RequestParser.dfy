/** The request parser in its own form: an object whose `Parse` walks the bytes
    of one read and updates its fields and the request in place. Every method is
    tied to the byte machine of ParserMachine. */
module RequestParser {
  import opened Bytes
  import opened M = ParserMachine

  class HttpRequest {
    var verb: string
    var path: string
    var version: string
    var query: string
    var headers: map<string, string>
    var body: string

    constructor ()
      ensures View() == EMPTY_REQUEST
    {
      verb, path, version, query, headers, body := "", "", "", "", map[], "";
    }

    ghost function View(): (r: Request)
      reads this
    {
      Request(verb, path, version, query, headers, body)
    }

    method Clear()
      modifies this
      ensures View() == EMPTY_REQUEST
    {
      verb, path, version, query, headers, body := "", "", "", "", map[], "";
    }
  }

  /** The inline Content-Length loop. */
  method ReadContentLength(cl: string) returns (ok: bool, value: nat)
    ensures ok == (cl != "" && ScanDecimal(cl, 0).Some?)
    ensures ok ==> ScanDecimal(cl, 0) == Some(value)
  {
    ok, value := cl != "", 0;
    var i := 0;
    while i < |cl|
      invariant 0 <= i <= |cl|
      invariant ok == (cl != "")
      invariant ScanDecimal(cl, 0) == ScanDecimal(cl[i..], value)
    {
      if !IsDigit(cl[i]) {
        return false, value;
      }
      if value > MAX_BODY_SIZE {
        return ok, MAX_BODY_SIZE + 1;
      }
      value := value * 10 + DigitValue(cl[i]);
      assert cl[i..][1..] == cl[i + 1..];
      i := i + 1;
    }
  }

  /** The inline chunk-size loop. */
  method ReadChunkSize(hex: string) returns (ok: bool, size: nat)
    ensures ok == (hex != "" && ScanHex(hex, 0).Some?)
    ensures ok ==> ScanHex(hex, 0) == Some(size)
  {
    ok, size := hex != "", 0;
    var i := 0;
    while i < |hex|
      invariant 0 <= i <= |hex|
      invariant ok == (hex != "")
      invariant ScanHex(hex, 0) == ScanHex(hex[i..], size)
    {
      if !IsHexDigit(hex[i]) {
        return false, size;
      }
      size := size * 16 + HexDigitValue(hex[i]);
      if size > MAX_BODY_SIZE {
        return;
      }
      assert hex[i..][1..] == hex[i + 1..];
      i := i + 1;
    }
  }

  /** Body framing headers are allowed once and must not mix. */
  method CheckFraming(headers: map<string, string>, key: string) returns (e: ParseError)
    ensures e == FramingConflict(headers, key)
  {
    if key == CONTENT_LENGTH {
      if CONTENT_LENGTH in headers {
        return DUPLICATE_CONTENT_LENGTH;
      }
      if TRANSFER_ENCODING in headers {
        return CL_TE_CONFLICT;
      }
    } else if key == TRANSFER_ENCODING {
      if CONTENT_LENGTH in headers {
        return CL_TE_CONFLICT;
      }
      if TRANSFER_ENCODING in headers {
        return INVALID_TRANSFER_ENCODING;
      }
    }
    return NONE;
  }

  class HttpParser {
    var state: State
    var chunkState: ChunkState
    var buffer: string
    var contentLength: nat
    var bodyRead: nat
    var headersRead: nat
    var parseError: ParseError
    var chunkSizeHexBuffer: string
    var chunkDataRemaining: nat
    var crSeen: bool

    ghost function View(request: HttpRequest): (m: Machine)
      reads this, request
    {
      Machine(state, chunkState, buffer, contentLength, bodyRead, headersRead, parseError,
              chunkSizeHexBuffer, chunkDataRemaining, crSeen, request.View())
    }

    /** The parser's own fields hold what `reset()` leaves in them. */
    ghost predicate IsReset()
      reads this
    {
      && state == METHOD && chunkState == SIZE && buffer == "" && contentLength == 0 && bodyRead == 0
      && headersRead == 0 && parseError == NONE && chunkSizeHexBuffer == "" && chunkDataRemaining == 0 && !crSeen
    }

    constructor ()
      ensures IsReset()
    {
      state, chunkState, buffer, contentLength, bodyRead, headersRead := METHOD, SIZE, "", 0, 0, 0;
      parseError, chunkSizeHexBuffer, chunkDataRemaining, crSeen := NONE, "", 0, false;
    }

    method Reset()
      modifies this
      ensures IsReset()
    {
      state, chunkState, buffer, contentLength, bodyRead, headersRead := METHOD, SIZE, "", 0, 0, 0;
      parseError, chunkSizeHexBuffer, chunkDataRemaining, crSeen := NONE, "", 0, false;
    }

    /** Request-line states: METHOD, PATH, QUERY and VERSION. */
    method OnRequestLine(c: char, request: HttpRequest) returns (ok: bool)
      requires state in {METHOD, PATH, QUERY, VERSION}
      modifies this, request
      ensures View(request) == Step(old(View(request)), c).m
      ensures Step(old(View(request)), c) == if ok then More(View(request)) else Reject(View(request))
    {
      if state == METHOD && c == ' ' {
        request.verb, buffer, state := buffer, "", PATH;
        return true;
      } else if state == PATH && c == ' ' {
        request.path, buffer, state := buffer, "", VERSION;
        return true;
      } else if state == PATH && c == '?' {
        request.path, buffer, state := buffer, "", QUERY;
        return true;
      } else if state == QUERY && c == ' ' {
        request.query, buffer, state := buffer, "", VERSION;
        return true;
      } else if state == VERSION && c == '\r' {
        crSeen := true;
        return true;
      } else if state == VERSION && c == '\n' {
        if !crSeen {
          parseError := INVALID_HEADER;
          return false;
        }
        crSeen, request.version, buffer, state := false, buffer, "", HEADER;
        return true;
      }
      if !IsRequestLineChar(c) {
        parseError := INVALID_HEADER;
        return false;
      }
      if state == VERSION {
        crSeen := false;
      }
      buffer := buffer + [c];
      if |buffer| > MAX_REQUEST_LINE_SIZE {
        parseError := REQUEST_LINE_TOO_LONG;
        return false;
      }
      return true;
    }

    /** Stores the header line held in the buffer. */
    method StoreHeader(request: HttpRequest) returns (ok: bool)
      modifies this, request
      ensures HeaderLine(old(View(request))) == if ok then More(View(request)) else Reject(View(request))
    {
      var field := Field(buffer);
      if field.None? {
        parseError := INVALID_HEADER;
        return false;
      }
      var (key, value) := field.value;
      var conflict := CheckFraming(request.headers, key);
      if conflict != NONE {
        parseError := conflict;
        return false;
      }
      request.headers := request.headers[key := value];
      buffer := "";
      return true;
    }

    /** The empty line behind the headers; `done` when no body follows. */
    method SelectBody(request: HttpRequest) returns (ok: bool, done: bool)
      modifies this
      ensures EndOfHeaders(old(View(request))) ==
              if done then Accept(View(request)) else if ok then More(View(request)) else Reject(View(request))
      ensures done ==> state == DONE
    {
      if TRANSFER_ENCODING in request.headers {
        if Lower(request.headers[TRANSFER_ENCODING]) != "chunked" {
          parseError := INVALID_TRANSFER_ENCODING;
          return false, false;
        }
        chunkSizeHexBuffer, chunkDataRemaining, chunkState, state := "", 0, SIZE, CHUNKED_BODY;
        return true, false;
      }
      if CONTENT_LENGTH !in request.headers {
        state := DONE;
        return true, true;
      }
      var digitsOk, value := ReadContentLength(request.headers[CONTENT_LENGTH]);
      if !digitsOk {
        parseError := INVALID_CONTENT_LENGTH;
        return false, false;
      }
      contentLength := value;
      if contentLength > MAX_BODY_SIZE {
        parseError := BODY_TOO_LARGE;
        return false, false;
      }
      if contentLength > 0 {
        bodyRead, state := 0, BODY;
        return true, false;
      }
      state := DONE;
      return true, true;
    }

    method OnLineEnd(request: HttpRequest) returns (ok: bool, done: bool)
      modifies this, request
      ensures LineEnd(old(View(request))) ==
              if done then Accept(View(request)) else if ok then More(View(request)) else Reject(View(request))
      ensures done ==> state == DONE
    {
      if !crSeen {
        parseError := INVALID_HEADER;
        return false, false;
      }
      crSeen := false;
      if buffer == "" {
        ok, done := SelectBody(request);
      } else {
        ok := StoreHeader(request);
        done := false;
      }
    }

    method OnHeader(c: char, request: HttpRequest) returns (ok: bool, done: bool)
      modifies this, request
      ensures StepHeader(old(View(request)), c) ==
              if done then Accept(View(request)) else if ok then More(View(request)) else Reject(View(request))
      ensures done ==> state == DONE
    {
      hide LineEnd;
      headersRead := headersRead + 1;
      if headersRead > MAX_HEADERS_SIZE {
        parseError := HEADERS_TOO_LARGE;
        return false, false;
      }
      if c == '\r' {
        crSeen := true;
        return true, false;
      }
      if c == '\n' {
        ok, done := OnLineEnd(request);
        return;
      }
      crSeen, buffer := false, buffer + [c];
      if |buffer| > MAX_HEADER_LINE_SIZE {
        parseError := HEADER_TOO_LONG;
        return false, false;
      }
      return true, false;
    }

    /** LF in the SIZE sub-state. */
    method OnSizeLine(request: HttpRequest) returns (ok: bool)
      modifies this
      ensures SizeLine(old(View(request))) == if ok then More(View(request)) else Reject(View(request))
    {
      if chunkSizeHexBuffer == "" {
        return true;
      }
      var hexOk, size := ReadChunkSize(BeforeSemicolon(chunkSizeHexBuffer));
      if !hexOk {
        parseError := INVALID_CHUNK_SIZE;
        return false;
      }
      chunkSizeHexBuffer := "";
      if size == 0 {
        chunkState, buffer := TRAILER, "";
      } else {
        chunkDataRemaining, chunkState := size, DATA;
      }
      return true;
    }

    method OnChunkedBody(c: char, request: HttpRequest) returns (ok: bool, done: bool)
      modifies this, request
      ensures StepChunk(old(View(request)), c) ==
              if done then Accept(View(request)) else if ok then More(View(request)) else Reject(View(request))
      ensures done ==> state == DONE
    {
      done := false;
      match chunkState
      case SIZE =>
        if c == '\r' {
          return true, false;
        }
        if c == '\n' {
          ok := OnSizeLine(request);
          return;
        }
        chunkSizeHexBuffer := chunkSizeHexBuffer + [c];
        if |chunkSizeHexBuffer| > MAX_CHUNK_SIZE_LINE {
          parseError := INVALID_CHUNK_SIZE;
          return false, false;
        }
        return true, false;
      case DATA =>
        request.body := request.body + [c];
        chunkDataRemaining := if chunkDataRemaining == 0 then SIZE_MAX else chunkDataRemaining - 1;
        if |request.body| > MAX_BODY_SIZE {
          parseError := BODY_TOO_LARGE;
          return false, false;
        }
        if chunkDataRemaining == 0 {
          chunkState := SIZE;
        }
        return true, false;
      case TRAILER =>
        if c == '\r' {
          return true, false;
        }
        if c == '\n' {
          if buffer == "" {
            state := DONE;
            return true, true;
          }
          buffer := "";
          return true, false;
        }
        buffer := buffer + [c];
        if |buffer| > MAX_HEADER_LINE_SIZE {
          parseError := HEADER_TOO_LONG;
          return false, false;
        }
        return true, false;
    }

    method OnBody(c: char, request: HttpRequest) returns (ok: bool, done: bool)
      modifies this, request
      ensures StepBody(old(View(request)), c) ==
              if done then Accept(View(request)) else if ok then More(View(request)) else Reject(View(request))
      ensures done ==> state == DONE
    {
      if bodyRead >= MAX_BODY_SIZE {
        parseError := BODY_TOO_LARGE;
        return false, false;
      }
      request.body := request.body + [c];
      bodyRead := bodyRead + 1;
      if bodyRead >= contentLength {
        state := DONE;
        return true, true;
      }
      return true, false;
    }

    /** One read's worth of bytes. `false` leaves either more to come or an error. */
    method Parse(data: string, request: HttpRequest) returns (complete: bool, consumed: nat)
      modifies this, request
      ensures var run := M.Parse(old(View(request)), data);
              complete == (run.outcome == Accepted) && consumed == run.consumed && View(request) == run.m
    {
      ghost var start := View(request);
      consumed := 0;
      var i := 0;
      while i < |data|
        invariant 0 <= i <= |data| && consumed == i
        invariant M.Parse(start, data) == Shift(M.Parse(View(request), data[i..]), i)
      {
        var c := data[i];
        ghost var before := View(request);
        assert data[i..][1..] == data[i + 1..];
        consumed := i + 1;
        var ok, done := true, false;
        match state {
          case METHOD | PATH | QUERY | VERSION => ok := OnRequestLine(c, request);
          case HEADER => ok, done := OnHeader(c, request);
          case CHUNKED_BODY => ok, done := OnChunkedBody(c, request);
          case BODY => ok, done := OnBody(c, request);
          case DONE =>
        }
        assert Step(before, c) == if done then Accept(View(request)) else if ok then More(View(request)) else Reject(View(request));
        if done {
          return true, consumed;
        }
        if !ok {
          return false, consumed;
        }
        if state == DONE {
          return false, consumed;
        }
        i := i + 1;
      }
      return false, consumed;
    }
  }

  ghost function Shift(r: Run, n: nat): (s: Run) {
    r.(consumed := r.consumed + n)
  }
}
