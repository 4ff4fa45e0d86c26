/** `scan_chunked_body`: the chunked transfer coding as the response path reads
    it, over a buffer that grows as the backend sends (section 4.1 of RFC 7230).
    `ScanFrom` is the scan as it is meant, with exact sums; ChunkLoop has the loop as
    it is written, with sums in `size_t`. */
module ChunkScan {
  import opened Bytes

  /** `SIZE_MAX >> 4`: one more digit fits only up to here. */
  const SIZE_MAX_SHIFTED := 0x0FFF_FFFF_FFFF_FFFF

  datatype Scan = Incomplete | Error | Complete(end: nat, payload: string)

  /** The chunk-size digits; None on a bad digit or when the value would leave `size_t`. */
  function ReadSize(hex: string, acc: nat): (r: Option<nat>)
    decreases |hex|
  {
    if hex == "" then Some(acc)
    else if !IsHexDigit(hex[0]) || acc > SIZE_MAX_SHIFTED then None
    else ReadSize(hex[1..], acc * 16 + HexDigitValue(hex[0]))
  }

  /** Size announced by a chunk-size line, extension cut off. */
  function SizeOf(line: string): (r: Option<nat>) {
    var hex := BeforeSemicolon(line);
    if hex == "" then None else ReadSize(hex, 0)
  }

  /** Trailer lines up to the empty one. */
  function ScanTrailer(buf: string, pos: nat, payload: string): (r: Scan)
    requires pos <= |buf|
    decreases |buf| - pos
  {
    match FindCrlf(buf, pos)
    case None => Incomplete
    case Some(e) => if e == pos then Complete(e + 2, payload) else ScanTrailer(buf, e + 2, payload)
  }

  /** What stands at a chunk-size line. `data` is the position behind the line. */
  datatype Head = Cut | Bad | Last(data: nat) | Chunk(data: nat, size: nat)

  function HeadAt(buf: string, pos: nat): (h: Head)
    requires pos <= |buf|
    ensures h.Last? ==> pos < h.data <= |buf|
    ensures h.Chunk? ==> pos < h.data && h.data + h.size + 2 <= |buf|
  {
    match FindCrlf(buf, pos)
    case None => Cut
    case Some(lineEnd) =>
      match SizeOf(buf[pos..lineEnd])
      case None => Bad
      case Some(size) =>
        var data := lineEnd + 2;
        if size == 0 then Last(data)
        else if |buf| < data + size + 2 then Cut
        else if !Crlf(buf, data + size) then Bad
        else Chunk(data, size)
  }

  /** Scans from a chunk-size line at `pos` with `payload` already decoded. */
  function ScanFrom(buf: string, pos: nat, payload: string): (r: Scan)
    requires pos <= |buf|
    decreases |buf| - pos
  {
    match HeadAt(buf, pos)
    case Cut => Incomplete
    case Bad => Error
    case Last(data) => ScanTrailer(buf, data, payload)
    case Chunk(data, size) => ScanFrom(buf, data + size + 2, payload + buf[data..data + size])
  }

  /** The sum behind the size line at `pos` does not fit `size_t`, and shows: it then
      comes out within the buffer. */
  predicate Wraps(buf: string, pos: nat)
    requires pos <= |buf|
  {
    match FindCrlf(buf, pos)
    case None => false
    case Some(lineEnd) =>
      match SizeOf(buf[pos..lineEnd])
      case None => false
      case Some(size) =>
        size != 0 && lineEnd + 2 + size + 2 > SIZE_MAX && (lineEnd + 2 < |buf| || size < SIZE_MAX)
  }

  /** No size line on the way of the scan wraps. */
  predicate Clear(buf: string, pos: nat)
    requires pos <= |buf|
    decreases |buf| - pos
  {
    !Wraps(buf, pos) &&
    match HeadAt(buf, pos)
    case Chunk(data, size) => Clear(buf, data + size + 2)
    case _ => true
  }

  /** The digit loop of the scanner. */
  method ReadSizeLoop(hex: string) returns (ok: bool, size: nat)
    ensures ok == ReadSize(hex, 0).Some?
    ensures ok ==> ReadSize(hex, 0) == Some(size)
  {
    size := 0;
    var i := 0;
    while i < |hex|
      invariant 0 <= i <= |hex|
      invariant ReadSize(hex, 0) == ReadSize(hex[i..], size)
    {
      if !IsHexDigit(hex[i]) {
        return false, size;
      }
      if size > SIZE_MAX_SHIFTED {
        return false, size;
      }
      size := size * 16 + HexDigitValue(hex[i]);
      assert hex[i..][1..] == hex[i + 1..];
      i := i + 1;
    }
    return true, size;
  }

  /** The trailer loop of the scanner; `found` is the position past the message. */
  method SkipTrailer(buf: string, pos: nat, ghost payload: string) returns (found: bool, end: nat)
    requires pos <= |buf|
    ensures ScanTrailer(buf, pos, payload) == if found then Complete(end, payload) else Incomplete
  {
    var t := pos;
    while true
      invariant pos <= t <= |buf|
      invariant ScanTrailer(buf, pos, payload) == ScanTrailer(buf, t, payload)
      decreases |buf| - t
    {
      var e := FindCrlf(buf, t);
      if e.None? {
        return false, 0;
      }
      if e.value == t {
        return true, e.value + 2;
      }
      t := e.value + 2;
    }
  }

  /** One chunk-size line and the CRLF behind its data; reports a sum that wraps. */
  method ReadHead(buf: string, pos: nat) returns (h: Head, wraps: bool)
    requires pos <= |buf|
    ensures h == HeadAt(buf, pos) && wraps == Wraps(buf, pos)
  {
    var lineEnd := FindCrlf(buf, pos);
    if lineEnd.None? {
      return Cut, false;
    }
    var hex := BeforeSemicolon(buf[pos..lineEnd.value]);
    if hex == "" {
      return Bad, false;
    }
    var ok, size := ReadSizeLoop(hex);
    if !ok {
      return Bad, false;
    }
    var data := lineEnd.value + 2;
    if size == 0 {
      return Last(data), false;
    }
    wraps := data + size + 2 > SIZE_MAX && (data < |buf| || size < SIZE_MAX);
    if |buf| < data + size + 2 {
      return Cut, wraps;
    }
    if !Crlf(buf, data + size) {
      return Bad, wraps;
    }
    return Chunk(data, size), wraps;
  }

  /** The scanner as it is meant; it stops where the loop as written would go astray,
      and says so. */
  method ScanChunkedBody(buf: string, bodyStart: nat) returns (r: Scan, astray: bool)
    requires bodyStart <= |buf|
    ensures r == ScanFrom(buf, bodyStart, "") && astray == !Clear(buf, bodyStart)
  {
    hide HeadAt, ScanTrailer, Wraps;
    var pos, decoded := bodyStart, "";
    astray := false;
    while true
      invariant bodyStart <= pos <= |buf|
      invariant ScanFrom(buf, bodyStart, "") == ScanFrom(buf, pos, decoded)
      invariant Clear(buf, bodyStart) <==> !astray && Clear(buf, pos)
      decreases |buf| - pos
    {
      var head, wraps := ReadHead(buf, pos);
      astray := astray || wraps;
      match head {
        case Cut => return Incomplete, astray;
        case Bad => return Error, astray;
        case Last(data) =>
          var found, end := SkipTrailer(buf, data, decoded);
          return if found then Complete(end, decoded) else Incomplete, astray;
        case Chunk(data, size) =>
          decoded := decoded + buf[data..data + size];
          pos := data + size + 2;
      }
    }
  }

  // ------------------------------------------------------ growing the buffer

  /** A line end found in the buffer is found again however much is appended. */
  lemma {:induction false} FindCrlfExtends(buf: string, more: string, pos: nat)
    requires FindCrlf(buf, pos).Some?
    ensures FindCrlf(buf + more, pos) == FindCrlf(buf, pos)
  {
    var i := FindCrlf(buf, pos).value;
    assert Crlf(buf + more, i);
    forall j | pos <= j < i
      ensures !Crlf(buf + more, j)
    {
      if Crlf(buf, j) {
        FindCrlfIsFirst(buf, pos, j);
      }
    }
    FindCrlfAt(buf + more, pos, i);
  }

  lemma {:induction false} TrailerExtends(buf: string, more: string, pos: nat, payload: string)
    requires pos <= |buf| && ScanTrailer(buf, pos, payload) != Incomplete
    ensures ScanTrailer(buf + more, pos, payload) == ScanTrailer(buf, pos, payload)
    decreases |buf| - pos
  {
    FindCrlfExtends(buf, more, pos);
    var e := FindCrlf(buf, pos).value;
    if e != pos {
      TrailerExtends(buf, more, e + 2, payload);
    }
  }

  lemma {:induction false} HeadExtends(buf: string, more: string, pos: nat)
    requires pos <= |buf| && HeadAt(buf, pos) != Cut
    ensures HeadAt(buf + more, pos) == HeadAt(buf, pos)
  {
    hide SizeOf, FindCrlf;
    FindCrlfExtends(buf, more, pos);
    var lineEnd := FindCrlf(buf, pos).value;
    assert (buf + more)[pos..lineEnd] == buf[pos..lineEnd];
    var size := SizeOf(buf[pos..lineEnd]);
    if size.Some? && size.value != 0 {
      assert Crlf(buf + more, lineEnd + 2 + size.value) == Crlf(buf, lineEnd + 2 + size.value);
    }
  }

  /** A verdict on a buffer is final: appending bytes cannot change it. */
  lemma {:induction false} ScanExtends(buf: string, more: string, pos: nat, payload: string)
    requires pos <= |buf| && ScanFrom(buf, pos, payload) != Incomplete
    ensures ScanFrom(buf + more, pos, payload) == ScanFrom(buf, pos, payload)
    decreases |buf| - pos
  {
    hide HeadAt;
    HeadExtends(buf, more, pos);
    match HeadAt(buf, pos) {
      case Bad =>
      case Last(data) => TrailerExtends(buf, more, data, payload);
      case Chunk(data, size) =>
        assert (buf + more)[data..data + size] == buf[data..data + size];
        ScanExtends(buf, more, data + size + 2, payload + buf[data..data + size]);
    }
  }

  lemma {:induction false} FindCrlfRetracts(buf: string, more: string, pos: nat)
    requires FindCrlf(buf + more, pos).Some? && FindCrlf(buf + more, pos).value + 2 <= |buf|
    ensures FindCrlf(buf, pos) == FindCrlf(buf + more, pos)
  {
    FindCrlfIsFirst(buf, pos, FindCrlf(buf + more, pos).value);
    FindCrlfExtends(buf, more, pos);
  }

  lemma {:induction false} TrailerRetracts(buf: string, more: string, pos: nat, payload: string, end: nat, out: string)
    requires pos <= |buf| + |more| && ScanTrailer(buf + more, pos, payload) == Complete(end, out) && end <= |buf|
    ensures pos < end && ScanTrailer(buf, pos, payload) == Complete(end, out)
    decreases |buf| + |more| - pos
  {
    var e := FindCrlf(buf + more, pos).value;
    if e != pos {
      TrailerRetracts(buf, more, e + 2, payload, end, out);
    }
    FindCrlfRetracts(buf, more, pos);
  }

  lemma {:induction false} HeadRetracts(buf: string, more: string, pos: nat)
    requires pos <= |buf|
    requires match HeadAt(buf + more, pos)
             case Last(data) => data <= |buf|
             case Chunk(data, size) => data + size + 2 <= |buf|
             case _ => false
    ensures HeadAt(buf, pos) == HeadAt(buf + more, pos)
  {
    hide SizeOf, FindCrlf;
    FindCrlfRetracts(buf, more, pos);
    var lineEnd := FindCrlf(buf, pos).value;
    assert (buf + more)[pos..lineEnd] == buf[pos..lineEnd];
    var size := SizeOf(buf[pos..lineEnd]).value;
    if size != 0 {
      assert Crlf(buf, lineEnd + 2 + size);
    }
  }

  lemma {:induction false} LastRetracts(buf: string, more: string, pos: nat, payload: string, data: nat, end: nat, out: string)
    requires pos <= |buf| + |more| && HeadAt(buf + more, pos) == Last(data)
    requires ScanTrailer(buf + more, data, payload) == Complete(end, out) && end <= |buf|
    ensures pos < end && ScanFrom(buf, pos, payload) == Complete(end, out)
  {
    hide HeadAt, ScanTrailer;
    TrailerRetracts(buf, more, data, payload, end, out);
    HeadRetracts(buf, more, pos);
  }

  lemma {:induction false} ChunkRetracts(buf: string, more: string, pos: nat, payload: string, data: nat, size: nat, r: Scan)
    requires pos <= |buf| && HeadAt(buf + more, pos) == Chunk(data, size) && data + size + 2 <= |buf|
    requires ScanFrom(buf, data + size + 2, payload + (buf + more)[data..data + size]) == r
    ensures ScanFrom(buf, pos, payload) == r
  {
    hide SizeOf, FindCrlf, HeadAt;
    HeadRetracts(buf, more, pos);
    var next := payload + buf[data..data + size];
    assert next == payload + (buf + more)[data..data + size];
    assert ScanFrom(buf, data + size + 2, next) == r;
  }

  /** A complete scan depends on nothing behind the end it reports. */
  lemma {:induction false} ScanRetracts(buf: string, more: string, pos: nat, payload: string, end: nat, out: string)
    requires pos <= |buf| + |more| && ScanFrom(buf + more, pos, payload) == Complete(end, out) && end <= |buf|
    ensures pos < end && ScanFrom(buf, pos, payload) == Complete(end, out)
    decreases |buf| + |more| - pos
  {
    hide HeadAt;
    match HeadAt(buf + more, pos) {
      case Last(data) =>
        LastRetracts(buf, more, pos, payload, data, end, out);
      case Chunk(data, size) =>
        ScanRetracts(buf, more, data + size + 2, payload + (buf + more)[data..data + size], end, out);
        ChunkRetracts(buf, more, pos, payload, data, size, Complete(end, out));
    }
  }

  lemma {:induction false} TrailerEnd(buf: string, pos: nat, payload: string)
    requires pos <= |buf| && ScanTrailer(buf, pos, payload).Complete?
    ensures ScanTrailer(buf, pos, payload).payload == payload
    ensures pos < ScanTrailer(buf, pos, payload).end <= |buf|
    decreases |buf| - pos
  {
    var e := FindCrlf(buf, pos).value;
    if e != pos {
      TrailerEnd(buf, e + 2, payload);
    }
  }

  lemma {:induction false} ScanEnd(buf: string, pos: nat, payload: string)
    requires pos <= |buf| && ScanFrom(buf, pos, payload).Complete?
    ensures pos < ScanFrom(buf, pos, payload).end <= |buf|
    decreases |buf| - pos
  {
    hide HeadAt;
    match HeadAt(buf, pos) {
      case Last(data) => TrailerEnd(buf, data, payload);
      case Chunk(data, size) => ScanEnd(buf, data + size + 2, payload + buf[data..data + size]);
    }
  }
}
