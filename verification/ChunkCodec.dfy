/** The chunked transfer coding has two readers in the gateway, the byte machine
    on the request side and the buffer scanner on the response side, and one
    writer. The readers agree, and both undo the writer. */
module ChunkCodec {
  import opened Bytes
  import opened ParserMachine
  import opened ParserLimits
  import opened ParserRuns
  import H = HeaderLookup
  import C = ChunkScan
  import L = ChunkLoop

  datatype Chunk = Chunk(line: string, data: string)

  /** A chunked body as it is written: chunks, the size line of the last chunk, trailer lines. */
  datatype Stream = Stream(chunks: seq<Chunk>, last: string, trailers: seq<string>)

  function PrintChunk(c: Chunk): (s: string) {
    c.line + "\r\n" + c.data + "\r\n"
  }

  function PrintTrailers(trailers: seq<string>): (s: string) {
    if trailers == [] then "\r\n" else trailers[0] + "\r\n" + PrintTrailers(trailers[1..])
  }

  function PrintEnd(last: string, trailers: seq<string>): (s: string) {
    last + "\r\n" + PrintTrailers(trailers)
  }

  function Print(st: Stream): (s: string)
    decreases |st.chunks|
  {
    if st.chunks == [] then PrintEnd(st.last, st.trailers)
    else PrintChunk(st.chunks[0]) + Print(st.(chunks := st.chunks[1..]))
  }

  function Payload(chunks: seq<Chunk>): (s: string) {
    if chunks == [] then "" else chunks[0].data + Payload(chunks[1..])
  }

  // ------------------------------------------------------ what a scan has read

  predicate ChunkOk(c: Chunk) {
    H.CrlfFree(c.line) && c.data != "" && C.SizeOf(c.line) == Some(|c.data|)
  }

  /** Size lines say what they precede; no line holds a line end. */
  predicate StreamOk(st: Stream) {
    && (forall i :: 0 <= i < |st.chunks| ==> ChunkOk(st.chunks[i]))
    && H.CrlfFree(st.last) && C.SizeOf(st.last) == Some(0)
    && (forall i :: 0 <= i < |st.trailers| ==> st.trailers[i] != "" && H.CrlfFree(st.trailers[i]))
  }

  lemma {:induction false} LineIsCrlfFree(buf: string, pos: nat)
    requires FindCrlf(buf, pos).Some?
    ensures H.CrlfFree(buf[pos..FindCrlf(buf, pos).value])
  {
    var e := FindCrlf(buf, pos).value;
    forall i | 0 <= i < e - pos
      ensures !Crlf(buf[pos..e], i)
    {
      if Crlf(buf[pos..e], i) {
        FindCrlfIsFirst(buf, pos, pos + i);
      }
    }
  }

  lemma {:induction false} TrailersScanned(buf: string, pos: nat, payload: string) returns (trailers: seq<string>)
    requires pos <= |buf| && C.ScanTrailer(buf, pos, payload).Complete?
    ensures var end := C.ScanTrailer(buf, pos, payload).end;
            pos < end <= |buf| && buf[pos..end] == PrintTrailers(trailers)
    ensures forall i :: 0 <= i < |trailers| ==> trailers[i] != "" && H.CrlfFree(trailers[i])
    decreases |buf| - pos
  {
    var e := FindCrlf(buf, pos).value;
    if e == pos {
      trailers := [];
      assert buf[pos..pos + 2] == "\r\n";
    } else {
      var rest := TrailersScanned(buf, e + 2, payload);
      var line := buf[pos..e];
      LineIsCrlfFree(buf, pos);
      trailers := [line] + rest;
      assert trailers[1..] == rest;
      var end := C.ScanTrailer(buf, e + 2, payload).end;
      assert buf[e..e + 2] == "\r\n";
      assert buf[pos..end] == buf[pos..e] + buf[e..e + 2] + buf[e + 2..end];
    }
  }

  lemma {:induction false} PrintCons(c: Chunk, rest: Stream)
    ensures Print(rest.(chunks := [c] + rest.chunks)) == PrintChunk(c) + Print(rest)
    ensures Payload([c] + rest.chunks) == c.data + Payload(rest.chunks)
    ensures ChunkOk(c) && StreamOk(rest) ==> StreamOk(rest.(chunks := [c] + rest.chunks))
  {
    assert ([c] + rest.chunks)[1..] == rest.chunks;
    assert rest.(chunks := [c] + rest.chunks).(chunks := rest.chunks) == rest;
  }

  /** A recognized chunk occupies exactly its printed form. */
  lemma {:induction false} ChunkScanned(buf: string, pos: nat, data: nat, size: nat) returns (c: Chunk)
    requires pos <= |buf| && C.HeadAt(buf, pos) == C.Chunk(data, size)
    ensures ChunkOk(c) && c.data == buf[data..data + size]
    ensures data + size + 2 <= |buf| && buf[pos..data + size + 2] == PrintChunk(c)
  {
    hide FindCrlf, C.SizeOf;
    var e := FindCrlf(buf, pos).value;
    c := Chunk(buf[pos..e], buf[data..data + size]);
    LineIsCrlfFree(buf, pos);
    assert buf[e..e + 2] == "\r\n";
    assert buf[data + size..data + size + 2] == "\r\n";
    assert buf[pos..data + size + 2] ==
           buf[pos..e] + buf[e..e + 2] + buf[data..data + size] + buf[data + size..data + size + 2];
  }

  lemma {:induction false} EndScanned(buf: string, pos: nat, data: nat, payload: string) returns (st: Stream)
    requires pos <= |buf| && C.HeadAt(buf, pos) == C.Last(data) && C.ScanTrailer(buf, data, payload).Complete?
    ensures StreamOk(st) && st.chunks == []
    ensures var end := C.ScanTrailer(buf, data, payload).end;
            pos < end <= |buf| && buf[pos..end] == Print(st)
  {
    hide C.SizeOf, C.ScanTrailer, FindCrlf;
    var e := FindCrlf(buf, pos).value;
    var trailers := TrailersScanned(buf, data, payload);
    LineIsCrlfFree(buf, pos);
    st := Stream([], buf[pos..e], trailers);
    var end := C.ScanTrailer(buf, data, payload).end;
    assert buf[e..e + 2] == "\r\n";
    assert buf[pos..end] == buf[pos..e] + buf[e..e + 2] + buf[data..end];
  }

  lemma {:induction false} StreamCons(buf: string, pos: nat, next: nat, end: nat, c: Chunk, rest: Stream) returns (st: Stream)
    requires pos <= next <= end <= |buf| && buf[pos..next] == PrintChunk(c) && buf[next..end] == Print(rest)
    requires ChunkOk(c) && StreamOk(rest)
    ensures StreamOk(st) && buf[pos..end] == Print(st) && Payload(st.chunks) == c.data + Payload(rest.chunks)
  {
    st := rest.(chunks := [c] + rest.chunks);
    PrintCons(c, rest);
    assert buf[pos..end] == buf[pos..next] + buf[next..end];
  }

  /** Everything a completed scan has gone over is the image of some stream with
      the decoded payload. */
  lemma {:induction false} ScanReadsAStream(buf: string, pos: nat, payload: string, end: nat, out: string) returns (st: Stream)
    requires pos <= |buf| && C.ScanFrom(buf, pos, payload) == C.Complete(end, out)
    ensures pos < end <= |buf| && buf[pos..end] == Print(st) && out == payload + Payload(st.chunks)
    ensures StreamOk(st)
    decreases |buf| - pos
  {
    hide C.HeadAt, C.ScanTrailer;
    match C.HeadAt(buf, pos) {
      case Last(data) =>
        st := EndScanned(buf, pos, data, payload);
        C.TrailerEnd(buf, data, payload);
        assert payload + "" == payload;
      case Chunk(data, size) =>
        var rest := ScanReadsAStream(buf, data + size + 2, payload + buf[data..data + size], end, out);
        var c := ChunkScanned(buf, pos, data, size);
        st := StreamCons(buf, pos, data + size + 2, end, c, rest);
        Assoc(payload, c.data, Payload(rest.chunks));
    }
  }

  /** So is everything the loop as written has gone over, as long as no size line
      wraps. */
  lemma {:induction false} LoopReadsAStream(buf: string, pos: nat, n: nat, end: nat, out: string) returns (st: Stream)
    requires pos <= |buf| < SIZE_MAX && C.Clear(buf, pos) && L.Rounds(buf, pos, "", n) == L.Ended(C.Complete(end, out))
    ensures pos < end <= |buf| && buf[pos..end] == Print(st) && out == Payload(st.chunks) && StreamOk(st)
  {
    hide L.Rounds, C.ScanFrom, C.Clear, StreamOk, Print, Payload;
    L.ClearVerdict(buf, pos, "", n);
    st := ScanReadsAStream(buf, pos, "", end, out);
    assert "" + Payload(st.chunks) == Payload(st.chunks);
  }

  // ------------------------------------------------- the scanner on a stream

  /** `w` stands at position `pos` of `s`. */
  predicate Holds(s: string, pos: nat, w: string) {
    pos + |w| <= |s| && s[pos..pos + |w|] == w
  }

  lemma {:induction false} HoldsParts(s: string, pos: nat, a: string, b: string)
    requires Holds(s, pos, a + b)
    ensures Holds(s, pos, a) && Holds(s, pos + |a|, b)
  {
    var w := s[pos..pos + |a + b|];
    assert s[pos..pos + |a|] == w[..|a|] == a;
    assert s[pos + |a|..pos + |a| + |b|] == w[|a|..] == b;
  }

  /** The line that stands at `pos` is the one `find` delimits. */
  lemma {:induction false} LineHeld(s: string, pos: nat, line: string)
    requires H.CrlfFree(line) && Holds(s, pos, line + "\r\n")
    ensures FindCrlf(s, pos) == Some(pos + |line|) && s[pos..pos + |line|] == line
  {
    HoldsParts(s, pos, line, "\r\n");
    var e := pos + |line|;
    CrlfHeld(s, e);
    forall j | pos <= j < e
      ensures !Crlf(s, j)
    {
      var w := s[pos..e];
      assert !Crlf(line, j - pos) && s[j] == w[j - pos];
      if j + 1 < e {
        assert s[j + 1] == w[j + 1 - pos];
      }
    }
    FindCrlfAt(s, pos, e);
  }

  lemma {:induction false} CrlfHeld(s: string, pos: nat)
    requires Holds(s, pos, "\r\n")
    ensures Crlf(s, pos)
  {
    var w := s[pos..pos + 2];
    assert w[0] == s[pos] && w[1] == s[pos + 1];
  }

  /** Position by position, without strings: where the parts of a stream stand in `s`. */
  predicate LineAt(s: string, pos: nat, line: string) {
    pos + |line| + 2 <= |s| && FindCrlf(s, pos) == Some(pos + |line|) && s[pos..pos + |line|] == line
  }

  predicate ChunkAt(s: string, pos: nat, c: Chunk) {
    var data := pos + |c.line| + 2;
    && pos <= |s| && C.HeadAt(s, pos) == C.Chunk(data, |c.data|)
    && s[data..data + |c.data|] == c.data
  }

  /** Where the trailers end if they stand at `pos`. */
  function TrailersEnd(s: string, pos: nat, trailers: seq<string>): (end: Option<nat>)
    decreases |trailers|
  {
    if trailers == [] then if LineAt(s, pos, "") then Some(pos + 2) else None
    else if trailers[0] != "" && LineAt(s, pos, trailers[0]) then TrailersEnd(s, pos + |trailers[0]| + 2, trailers[1..])
    else None
  }

  lemma {:induction false} TrailersStand(s: string, pos: nat, trailers: seq<string>)
    requires Holds(s, pos, PrintTrailers(trailers))
    requires forall i :: 0 <= i < |trailers| ==> trailers[i] != "" && H.CrlfFree(trailers[i])
    ensures TrailersEnd(s, pos, trailers) == Some(pos + |PrintTrailers(trailers)|)
    decreases |trailers|
  {
    hide FindCrlf;
    if trailers == [] {
      assert "" + "\r\n" == "\r\n";
      LineHeld(s, pos, "");
    } else {
      HoldsParts(s, pos, trailers[0] + "\r\n", PrintTrailers(trailers[1..]));
      LineHeld(s, pos, trailers[0]);
      TrailersStand(s, pos + |trailers[0]| + 2, trailers[1..]);
    }
  }

  /** A size line, the data it announces and a CRLF make a recognized chunk. */
  lemma {:induction false} ChunkIsRecognized(s: string, pos: nat, c: Chunk)
    requires LineAt(s, pos, c.line) && ChunkOk(c)
    requires var data := pos + |c.line| + 2;
             data + |c.data| + 2 <= |s| && s[data..data + |c.data|] == c.data && Crlf(s, data + |c.data|)
    ensures ChunkAt(s, pos, c)
  {
  }

  lemma {:induction false} ChunkStands(s: string, pos: nat, c: Chunk)
    requires ChunkOk(c) && Holds(s, pos, PrintChunk(c))
    ensures ChunkAt(s, pos, c)
  {
    var data := pos + |c.line| + 2;
    HoldsParts(s, pos, c.line + "\r\n" + c.data, "\r\n");
    HoldsParts(s, pos, c.line + "\r\n", c.data);
    LineHeld(s, pos, c.line);
    CrlfHeld(s, data + |c.data|);
    ChunkIsRecognized(s, pos, c);
  }

  lemma {:induction false} LastIsRecognized(s: string, pos: nat, last: string)
    requires LineAt(s, pos, last) && C.SizeOf(last) == Some(0)
    ensures C.HeadAt(s, pos) == C.Last(pos + |last| + 2)
  {
  }

  lemma {:induction false} TrailersAreScanned(s: string, pos: nat, trailers: seq<string>, end: nat, payload: string)
    requires TrailersEnd(s, pos, trailers) == Some(end)
    ensures pos <= |s| && C.ScanTrailer(s, pos, payload) == C.Complete(end, payload)
    decreases |trailers|
  {
    if trailers != [] {
      TrailersAreScanned(s, pos + |trailers[0]| + 2, trailers[1..], end, payload);
    }
  }

  /** `payload` followed by the data of the chunks, collected from the left. */
  function Collect(payload: string, chunks: seq<Chunk>): (s: string)
    decreases |chunks|
  {
    if chunks == [] then payload else Collect(payload + chunks[0].data, chunks[1..])
  }

  lemma {:induction false} CollectIsPayload(payload: string, chunks: seq<Chunk>)
    ensures Collect(payload, chunks) == payload + Payload(chunks)
    decreases |chunks|
  {
    if chunks != [] {
      CollectIsPayload(payload + chunks[0].data, chunks[1..]);
      Assoc(payload, chunks[0].data, Payload(chunks[1..]));
    }
  }

  lemma {:induction false} ScanChunkAt(s: string, pos: nat, c: Chunk, payload: string, r: C.Scan)
    requires ChunkAt(s, pos, c) && C.ScanFrom(s, pos + |c.line| + 2 + |c.data| + 2, payload + c.data) == r
    ensures C.ScanFrom(s, pos, payload) == r
  {
    hide C.HeadAt;
  }

  lemma {:induction false} ScanLastAt(s: string, pos: nat, data: nat, payload: string, r: C.Scan)
    requires pos <= |s| && C.HeadAt(s, pos) == C.Last(data) && C.ScanTrailer(s, data, payload) == r
    ensures C.ScanFrom(s, pos, payload) == r
  {
  }

  /** Where a stream ends if its printed form stands at `pos`. */
  function Standing(s: string, pos: nat, st: Stream): (end: Option<nat>) {
    if StreamOk(st) && Holds(s, pos, Print(st)) then Some(pos + |Print(st)|) else None
  }

  lemma {:induction false} EndStands(s: string, pos: nat, last: string, trailers: seq<string>, end: nat)
    requires Standing(s, pos, Stream([], last, trailers)) == Some(end)
    ensures pos <= |s| && C.HeadAt(s, pos) == C.Last(pos + |last| + 2)
    ensures TrailersEnd(s, pos + |last| + 2, trailers) == Some(end)
  {
    hide TrailersEnd, C.HeadAt;
    HoldsParts(s, pos, last + "\r\n", PrintTrailers(trailers));
    LineHeld(s, pos, last);
    LastIsRecognized(s, pos, last);
    TrailersStand(s, pos + |last| + 2, trailers);
  }

  lemma {:induction false} FirstChunkStands(s: string, pos: nat, st: Stream, end: nat)
    requires st.chunks != [] && Standing(s, pos, st) == Some(end)
    ensures var c := st.chunks[0];
            ChunkAt(s, pos, c) && Standing(s, pos + |c.line| + 2 + |c.data| + 2, st.(chunks := st.chunks[1..])) == Some(end)
  {
    hide ChunkAt;
    var c, rest := st.chunks[0], st.(chunks := st.chunks[1..]);
    HoldsParts(s, pos, PrintChunk(c), Print(rest));
    ChunkStands(s, pos, c);
    assert pos + |PrintChunk(c)| == pos + |c.line| + 2 + |c.data| + 2;
  }

  /** The scanner decodes a printed stream where it stands and stops exactly at its end. */
  lemma {:induction false} StreamIsScanned(s: string, pos: nat, st: Stream, payload: string, end: nat, out: string)
    requires Standing(s, pos, st) == Some(end) && out == Collect(payload, st.chunks)
    ensures pos <= |s| && C.ScanFrom(s, pos, payload) == C.Complete(end, out)
    decreases |st.chunks|
  {
    hide C.HeadAt, C.ScanFrom, Standing;
    if st.chunks == [] {
      var data := pos + |st.last| + 2;
      assert st == Stream([], st.last, st.trailers);
      EndStands(s, pos, st.last, st.trailers, end);
      TrailersAreScanned(s, data, st.trailers, end, payload);
      ScanLastAt(s, pos, data, payload, C.Complete(end, out));
    } else {
      var c := st.chunks[0];
      FirstChunkStands(s, pos, st, end);
      StreamIsScanned(s, pos + |c.line| + 2 + |c.data| + 2, st.(chunks := st.chunks[1..]), payload + c.data, end, out);
      ScanChunkAt(s, pos, c, payload, C.Complete(end, out));
    }
  }

  lemma {:induction false} Middle(a: string, b: string, c: string)
    ensures Holds(a + b + c, |a|, b)
  {
  }

  /** The scanner inverts the printer, whatever surrounds the stream. */
  lemma {:induction false} ScanOfPrint(before: string, st: Stream, after: string)
    requires StreamOk(st)
    ensures C.ScanFrom(before + Print(st) + after, |before|, "") ==
            C.Complete(|before| + |Print(st)|, Payload(st.chunks))
  {
    Middle(before, Print(st), after);
    CollectIsPayload("", st.chunks);
    StreamIsScanned(before + Print(st) + after, |before|, st, "", |before| + |Print(st)|, Payload(st.chunks));
  }

  // -------------------------------------------------- the parser on a stream

  /** What the request parser additionally asks of the lines. */
  predicate FitsParser(st: Stream) {
    && (forall i :: 0 <= i < |st.chunks| ==> LineFits(st.chunks[i].line))
    && LineFits(st.last)
    && (forall i :: 0 <= i < |st.trailers| ==> NoLineBreak(st.trailers[i]) && |st.trailers[i]| <= MAX_HEADER_LINE_SIZE)
  }

  predicate LineFits(line: string) {
    NoLineBreak(line) && |line| <= MAX_CHUNK_SIZE_LINE
  }

  /** Between two chunks. */
  predicate AtSizeLine(m: Machine) {
    m.state == CHUNKED_BODY && m.chunk == SIZE && m.hexBuffer == ""
  }

  lemma {:induction false} ReadSizeIsExact(hex: string, acc: nat)
    requires C.ReadSize(hex, acc).Some?
    ensures AllHex(hex) && HexFrom(hex, acc) == C.ReadSize(hex, acc).value
    decreases |hex|
  {
    if hex != "" {
      ReadSizeIsExact(hex[1..], acc * 16 + HexDigitValue(hex[0]));
      assert forall i :: 1 <= i < |hex| ==> hex[i] == hex[1..][i - 1];
    }
  }

  /** Both readers take the same size off a line, up to the request body cap. */
  lemma {:induction false} SizesAgree(line: string)
    requires C.SizeOf(line).Some? && C.SizeOf(line).value <= MAX_BODY_SIZE
    ensures line != "" && BeforeSemicolon(line) != "" && ScanHex(BeforeSemicolon(line), 0) == C.SizeOf(line)
  {
    ReadSizeIsExact(BeforeSemicolon(line), 0);
    ScanHexExact(BeforeSemicolon(line), 0);
  }

  lemma {:induction false} SizeLineRun(m: Machine, w: string)
    requires m.state == CHUNKED_BODY && m.chunk == SIZE && NoLineBreak(w)
    requires |m.hexBuffer| + |w| <= MAX_CHUNK_SIZE_LINE
    ensures Leads(m, w, m.(hexBuffer := m.hexBuffer + w))
    decreases |w|
  {
    hide SizeLine;
    if w == "" {
      assert m.hexBuffer + w == m.hexBuffer;
    } else {
      var m1 := m.(hexBuffer := m.hexBuffer + [w[0]]);
      assert Step(m, w[0]) == More(m1);
      SizeLineRun(m1, w[1..]);
      Assoc(m.hexBuffer, [w[0]], w[1..]);
      assert [w[0]] + w[1..] == w;
    }
  }

  /** CR is skipped, so a CRLF in the SIZE sub-state is its LF. */
  lemma {:induction false} SizeCrlfRun(m: Machine)
    requires m.state == CHUNKED_BODY && m.chunk == SIZE && SizeLine(m).More? && SizeLine(m).m.state != DONE
    ensures Leads(m, "\r\n", SizeLine(m).m)
  {
    hide SizeLine, Parse;
    assert Step(m, '\r') == More(m);
    assert Step(m, '\n') == SizeLine(m);
    TwoBytes(m, '\r', '\n', "\r\n", "");
  }

  lemma {:induction false} DataRun(m: Machine, data: string)
    requires m.state == CHUNKED_BODY && m.chunk == DATA && m.remaining == |data| > 0
    requires |m.req.body| + |data| <= MAX_BODY_SIZE
    ensures Leads(m, data, m.(chunk := SIZE, remaining := 0, req := m.req.(body := m.req.body + data)))
    decreases |data|
  {
    var body := m.req.body + [data[0]];
    var m1 := m.(req := m.req.(body := body), remaining := |data| - 1);
    Assoc(m.req.body, [data[0]], data[1..]);
    assert [data[0]] + data[1..] == data;
    if |data| == 1 {
      assert data == [data[0]];
      LeadsByte(m, data[0]);
    } else {
      assert Step(m, data[0]) == More(m1);
      DataRun(m1, data[1..]);
    }
  }

  function WithBody(m: Machine, body: string): (m': Machine) {
    m.(remaining := 0, req := m.req.(body := body))
  }

  /** One printed chunk adds its data to the body and nothing else. */
  lemma {:induction false} ChunkRun(m: Machine, c: Chunk)
    requires AtSizeLine(m) && ChunkOk(c) && LineFits(c.line) && |m.req.body| + |c.data| <= MAX_BODY_SIZE
    ensures Leads(m, PrintChunk(c), WithBody(m, m.req.body + c.data))
  {
    hide Parse, Leads, ScanHex, C.SizeOf, BeforeSemicolon;
    SizesAgree(c.line);
    assert "" + c.line == c.line;
    SizeLineRun(m, c.line);
    var m1 := m.(hexBuffer := c.line);
    var m2 := m.(remaining := |c.data|, chunk := DATA);
    assert SizeLine(m1) == More(m2);
    SizeCrlfRun(m1);
    LeadsTrans(m, c.line, m1, "\r\n", m2);
    DataRun(m2, c.data);
    var m3 := WithBody(m, m.req.body + c.data);
    LeadsTrans(m, c.line + "\r\n", m2, c.data, m3);
    SizeCrlfRun(m3);
    LeadsTrans(m, c.line + "\r\n" + c.data, m3, "\r\n", m3);
  }

  lemma {:induction false} TrailerLineRun(m: Machine, w: string)
    requires m.state == CHUNKED_BODY && m.chunk == TRAILER && NoLineBreak(w)
    requires |m.buffer| + |w| <= MAX_HEADER_LINE_SIZE
    ensures Leads(m, w, m.(buffer := m.buffer + w))
    decreases |w|
  {
    if w == "" {
      assert m.buffer + w == m.buffer;
    } else {
      var m1 := m.(buffer := m.buffer + [w[0]]);
      assert Step(m, w[0]) == More(m1);
      TrailerLineRun(m1, w[1..]);
      Assoc(m.buffer, [w[0]], w[1..]);
      assert [w[0]] + w[1..] == w;
    }
  }

  /** The trailer section is read to its empty line and dropped. */
  lemma {:induction false} TrailersRun(m: Machine, trailers: seq<string>, after: string)
    requires m.state == CHUNKED_BODY && m.chunk == TRAILER && m.buffer == ""
    requires forall i :: 0 <= i < |trailers| ==>
      trailers[i] != "" && NoLineBreak(trailers[i]) && |trailers[i]| <= MAX_HEADER_LINE_SIZE
    ensures Parse(m, PrintTrailers(trailers) + after) == Run(Accepted, |PrintTrailers(trailers)|, m.(state := DONE))
    decreases |trailers|
  {
    hide Parse;
    assert Step(m, '\r') == More(m);
    if trailers == [] {
      TwoBytes(m, '\r', '\n', "\r\n", after);
    } else {
      var line, rest := trailers[0], PrintTrailers(trailers[1..]);
      TrailerLineRun(m, line);
      assert "" + line == line;
      var m1 := m.(buffer := line);
      assert Step(m1, '\r') == More(m1) && Step(m1, '\n') == More(m);
      TwoBytes(m1, '\r', '\n', "\r\n", "");
      LeadsTrans(m, line, m1, "\r\n", m);
      TrailersRun(m, trailers[1..], after);
      LeadsThen(m, line + "\r\n", m, rest + after);
      Assoc(line + "\r\n", rest, after);
    }
  }

  lemma {:induction false} EndRun(m: Machine, st: Stream, after: string)
    requires AtSizeLine(m) && StreamOk(st) && FitsParser(st)
    ensures var r := Parse(m, PrintEnd(st.last, st.trailers) + after);
            r.outcome == Accepted && r.consumed == |PrintEnd(st.last, st.trailers)| && r.m.req == m.req
  {
    hide Parse, Leads, ScanHex, C.SizeOf, BeforeSemicolon, ChunkOk;
    var line := st.last;
    SizesAgree(line);
    assert "" + line == line;
    SizeLineRun(m, line);
    var m1 := m.(hexBuffer := line);
    var m2 := m.(chunk := TRAILER, buffer := "");
    assert SizeLine(m1) == More(m2);
    SizeCrlfRun(m1);
    LeadsTrans(m, line, m1, "\r\n", m2);
    TrailersRun(m2, st.trailers, after);
    LeadsThen(m, line + "\r\n", m2, PrintTrailers(st.trailers) + after);
    Assoc(line + "\r\n", PrintTrailers(st.trailers), after);
  }

  /** The parser's chunk states decode every printed stream within the caps and
      accept exactly at its end. */
  lemma {:induction false} ParserOfPrint(m: Machine, st: Stream, after: string, body: string)
    requires AtSizeLine(m) && StreamOk(st) && FitsParser(st)
    requires body == Collect(m.req.body, st.chunks) && |body| <= MAX_BODY_SIZE
    ensures var r := Parse(m, Print(st) + after);
            r.outcome == Accepted && r.consumed == |Print(st)| && r.m.req == m.req.(body := body)
    decreases |st.chunks|
  {
    hide Parse, Leads, ChunkOk, PrintEnd, PrintChunk, LineFits;
    if st.chunks == [] {
      EndRun(m, st, after);
    } else {
      var c, rest := st.chunks[0], st.(chunks := st.chunks[1..]);
      CollectIsPayload(m.req.body + c.data, rest.chunks);
      ChunkRun(m, c);
      var m1 := WithBody(m, m.req.body + c.data);
      ParserOfPrint(m1, rest, after, body);
      LeadsThen(m, PrintChunk(c), m1, Print(rest) + after);
      Assoc(PrintChunk(c), Print(rest), after);
    }
  }

  // ------------------------------------------------------------ the agreement

  /** Whatever the response scanner completes on is a printed stream with the
      payload it reports; if its lines are clean and fit the request caps, the
      request parser completes at the same place with the same payload. */
  lemma {:induction false} ReadersAgree(buf: string, pos: nat, end: nat, payload: string, m: Machine) returns (st: Stream)
    requires pos <= |buf| && C.ScanFrom(buf, pos, "") == C.Complete(end, payload)
    requires AtSizeLine(m) && m.req.body == ""
    ensures pos < end <= |buf| && buf[pos..end] == Print(st) && StreamOk(st) && payload == Payload(st.chunks)
    ensures FitsParser(st) && |payload| <= MAX_BODY_SIZE ==>
              var r := Parse(m, buf[pos..]);
              r.outcome == Accepted && r.consumed == end - pos && r.m.req == m.req.(body := payload)
  {
    hide C.ScanFrom, Parse, Print, StreamOk, FitsParser;
    st := ScanReadsAStream(buf, pos, "", end, payload);
    assert "" + Payload(st.chunks) == Payload(st.chunks);
    if FitsParser(st) && |payload| <= MAX_BODY_SIZE {
      CollectIsPayload("", st.chunks);
      ParserOfPrint(m, st, buf[end..], payload);
      assert buf[pos..] == buf[pos..end] + buf[end..];
    }
  }

  // --------------------------------------------------------------- the encoder

  /** The chunked framing written by `finalize_response`. */
  function Encode(body: string): (s: string) {
    (if body != "" then Hex(|body|) + "\r\n" + body + "\r\n" else "") + "0\r\n\r\n"
  }

  function EncodedStream(body: string): (st: Stream) {
    Stream(if body != "" then [Chunk(Hex(|body|), body)] else [], "0", [])
  }

  lemma {:induction false} HexHasNoSemicolon(s: string)
    requires AllHex(s)
    ensures BeforeSemicolon(s) == s && NoLineBreak(s) && H.CrlfFree(s)
  {
    assert FindChar(s, ';', 0).None?;
    forall i | 0 <= i < |s|
      ensures s[i] != '\r' && s[i] != '\n'
    {
      assert IsHexDigit(s[i]);
    }
  }

  lemma {:induction false} ReadSizeOfHex(s: string, acc: nat)
    requires AllHex(s) && HexFrom(s, acc) <= SIZE_MAX
    ensures C.ReadSize(s, acc) == Some(HexFrom(s, acc))
    decreases |s|
  {
    if s != "" {
      assert AllHex(s[1..]);
      ReadSizeOfHex(s[1..], acc * 16 + HexDigitValue(s[0]));
    }
  }

  lemma {:induction false} SizeOfHex(n: nat)
    requires n <= SIZE_MAX
    ensures C.SizeOf(Hex(n)) == Some(n)
  {
    HexHasNoSemicolon(Hex(n));
    HexRoundTrip(n);
    ReadSizeOfHex(Hex(n), 0);
  }

  lemma {:induction false} HexIgnoresCase(c: char)
    ensures IsHexDigit(c) <==> IsHexDigit(LowerChar(c))
    ensures IsHexDigit(c) ==> HexDigitValue(c) == HexDigitValue(LowerChar(c))
  {
  }

  lemma {:induction false} ReadSizeIgnoresCase(digits: string, acc: nat)
    ensures C.ReadSize(digits, acc) == C.ReadSize(Lower(digits), acc)
    decreases |digits|
  {
    if digits != "" {
      HexIgnoresCase(digits[0]);
      assert Lower(digits)[1..] == Lower(digits[1..]);
      if IsHexDigit(digits[0]) {
        ReadSizeIgnoresCase(digits[1..], acc * 16 + HexDigitValue(digits[0]));
      }
    }
  }

  function Zeros(k: nat): (s: string) {
    seq(k, _ => '0')
  }

  lemma {:induction false} ReadSizeSkipsZeros(k: nat, hex: string)
    ensures C.ReadSize(Zeros(k) + hex, 0) == C.ReadSize(hex, 0)
    decreases k
  {
    if k == 0 {
      assert Zeros(k) + hex == hex;
    } else {
      ReadSizeSkipsZeros(k - 1, hex);
      assert (Zeros(k) + hex)[1..] == Zeros(k - 1) + hex;
    }
  }

  /** A size line announces `n` however it is written: in any case, with leading zeros,
      and with an extension behind a semicolon. */
  lemma {:induction false} SizeHoweverWritten(digits: string, k: nat, n: nat, extension: string)
    requires Lower(digits) == Zeros(k) + Hex(n) && n <= SIZE_MAX
    ensures C.SizeOf(digits) == Some(n) && C.SizeOf(digits + ";" + extension) == Some(n)
  {
    forall i | 0 <= i < |digits|
      ensures IsHexDigit(digits[i])
    {
      HexIgnoresCase(digits[i]);
      assert Lower(digits)[i] == (Zeros(k) + Hex(n))[i];
    }
    HexHasNoSemicolon(digits);
    var line := digits + ";" + extension;
    assert forall i :: 0 <= i < |digits| ==> line[i] == digits[i] && IsHexDigit(digits[i]);
    FindCharIsFirst(line, ';', 0, |digits|);
    assert line[..|digits|] == digits;
    ReadSizeIgnoresCase(digits, 0);
    ReadSizeSkipsZeros(k, Hex(n));
    SizeOfHex(n);
    HexHasNoSemicolon(Hex(n));
  }

  function Pow16(k: nat): (n: nat) {
    if k == 0 then 1 else 16 * Pow16(k - 1)
  }

  lemma {:induction false} HexIsShort(n: nat, k: nat)
    requires k >= 1 && n < Pow16(k)
    ensures |Hex(n)| <= k
  {
    if n >= 16 {
      assert k > 1 by {
        assert Pow16(0) == 1;
      }
      HexIsShort(n / 16, k - 1);
    }
  }

  /** What the encoder writes is a well-sized stream holding the body. */
  lemma {:induction false} EncodePrints(body: string)
    requires |body| <= SIZE_MAX
    ensures Print(EncodedStream(body)) == Encode(body) && StreamOk(EncodedStream(body))
    ensures Payload(EncodedStream(body).chunks) == body
  {
    var end := Stream([], "0", []);
    assert PrintEnd("0", []) == "0\r\n\r\n";
    assert Hex(0) == "0";
    SizeOfHex(0);
    HexHasNoSemicolon("0");
    if body != "" {
      var c := Chunk(Hex(|body|), body);
      SizeOfHex(|body|);
      HexHasNoSemicolon(Hex(|body|));
      PrintCons(c, end);
      assert [c] + end.chunks == [c];
      assert body + Payload([]) == body;
    } else {
      assert "" + "0\r\n\r\n" == "0\r\n\r\n";
    }
  }

  lemma {:induction false} EncodeFits(body: string)
    requires |body| <= MAX_BODY_SIZE
    ensures FitsParser(EncodedStream(body))
  {
    assert Pow16(2) == 256 && Pow16(4) == 0x10000 && Pow16(6) == 0x1000000;
    HexIsShort(|body|, 6);
    HexHasNoSemicolon(Hex(|body|));
  }

  /** The response scanner undoes the encoder, whatever surrounds it. */
  lemma {:induction false} ScannerUndoesEncoder(before: string, body: string, after: string)
    requires |body| <= SIZE_MAX
    ensures C.ScanFrom(before + Encode(body) + after, |before|, "") == C.Complete(|before| + |Encode(body)|, body)
  {
    hide C.ScanFrom, Encode, Print;
    EncodePrints(body);
    ScanOfPrint(before, EncodedStream(body), after);
  }

  /** The request parser undoes the encoder on every body up to its cap. */
  lemma {:induction false} ParserUndoesEncoder(m: Machine, body: string, after: string)
    requires AtSizeLine(m) && m.req.body == "" && |body| <= MAX_BODY_SIZE
    ensures var r := Parse(m, Encode(body) + after);
            r.outcome == Accepted && r.consumed == |Encode(body)| && r.m.req == m.req.(body := body)
  {
    hide Parse, Encode, Print, FitsParser, StreamOk;
    EncodePrints(body);
    EncodeFits(body);
    CollectIsPayload("", EncodedStream(body).chunks);
    assert "" + body == body;
    ParserOfPrint(m, EncodedStream(body), after, body);
  }
}
