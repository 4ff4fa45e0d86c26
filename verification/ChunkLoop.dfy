/** The loop of `scan_chunked_body` as it is written: `pos + size + 2` is a sum in
    `size_t`. A size line whose sum wraps sends the scan back to a place it has
    already passed. The loop is the scan that is meant exactly as long as no size
    line on its way wraps; otherwise it may go round forever. */
module ChunkLoop {
  import opened Bytes
  import opened ChunkScan

  const WRAP := SIZE_MAX + 1

  /** One round of the loop: it ends, throws (a position outside the buffer), or goes
      on at `next` with `data` decoded. */
  datatype Move = Halt(scan: Scan) | Throw | Jump(next: nat, data: string)

  function MoveAt(buf: string, pos: nat): (m: Move)
    requires pos <= |buf|
    ensures m.Jump? ==> m.next <= |buf|
  {
    match FindCrlf(buf, pos)
    case None => Halt(Incomplete)
    case Some(lineEnd) =>
      match SizeOf(buf[pos..lineEnd])
      case None => Halt(Error)
      case Some(size) =>
        var data := lineEnd + 2;
        if size == 0 then Halt(ScanTrailer(buf, data, ""))
        else
          var at, next := (data + size) % WRAP, (data + size + 2) % WRAP;
          if |buf| < next then Halt(Incomplete)
          else if |buf| < at then Throw
          else if !Crlf(buf, at) then Halt(Error)
          else Jump(next, buf[data..if data + size < |buf| then data + size else |buf|])
  }

  /** The round that is meant. */
  function MeantAt(buf: string, pos: nat): (m: Move)
    requires pos <= |buf|
  {
    match HeadAt(buf, pos)
    case Cut => Halt(Incomplete)
    case Bad => Halt(Error)
    case Last(data) => Halt(ScanTrailer(buf, data, ""))
    case Chunk(data, size) => Jump(data + size + 2, buf[data..data + size])
  }

  lemma {:induction false} ReadSizeBound(hex: string, acc: nat)
    requires acc <= SIZE_MAX && ReadSize(hex, acc).Some?
    ensures ReadSize(hex, acc).value <= SIZE_MAX
    decreases |hex|
  {
    if hex != "" {
      ReadSizeBound(hex[1..], acc * 16 + HexDigitValue(hex[0]));
    }
  }

  /** A round is the one that is meant if and only if its size line does not wrap (no
      string is as long as SIZE_MAX). */
  lemma {:induction false} MoveIff(buf: string, pos: nat)
    requires pos <= |buf| < SIZE_MAX
    ensures MoveAt(buf, pos) == MeantAt(buf, pos) <==> !Wraps(buf, pos)
  {
    hide ScanTrailer, FindCrlf, ReadSize;
    if FindCrlf(buf, pos).Some? {
      var lineEnd := FindCrlf(buf, pos).value;
      if SizeOf(buf[pos..lineEnd]).Some? {
        ReadSizeBound(BeforeSemicolon(buf[pos..lineEnd]), 0);
        Modulo(lineEnd + 2, SizeOf(buf[pos..lineEnd]).value);
      }
    }
  }

  lemma {:induction false} Modulo(data: nat, size: nat)
    requires data < SIZE_MAX && size <= SIZE_MAX
    ensures (data + size) % WRAP == if data + size > SIZE_MAX then data + size - WRAP else data + size
    ensures (data + size + 2) % WRAP == if data + size + 2 > SIZE_MAX then data + size + 2 - WRAP else data + size + 2
  {
  }

  // ------------------------------------------------------------- whole scans

  /** What the loop has come to after a number of rounds. */
  datatype Verdict = Ended(scan: Scan) | Thrown | Running

  function WithPayload(scan: Scan, payload: string): (r: Scan) {
    if scan.Complete? then Complete(scan.end, payload) else scan
  }

  function Rounds(buf: string, pos: nat, payload: string, n: nat): (v: Verdict)
    requires pos <= |buf|
    decreases n
  {
    if n == 0 then Running
    else
      match MoveAt(buf, pos)
      case Halt(scan) => Ended(WithPayload(scan, payload))
      case Throw => Thrown
      case Jump(next, data) => Rounds(buf, next, payload + data, n - 1)
  }

  /** One round, in code. */
  method MoveOn(buf: string, pos: nat) returns (m: Move)
    requires pos <= |buf|
    ensures m == MoveAt(buf, pos)
  {
    var lineEnd := FindCrlf(buf, pos);
    if lineEnd.None? {
      return Halt(Incomplete);
    }
    var hex := BeforeSemicolon(buf[pos..lineEnd.value]);
    if hex == "" {
      return Halt(Error);
    }
    var ok, size := ReadSizeLoop(hex);
    if !ok {
      return Halt(Error);
    }
    var data := lineEnd.value + 2;
    if size == 0 {
      var found, end := SkipTrailer(buf, data, "");
      return Halt(if found then Complete(end, "") else Incomplete);
    }
    var at, next := (data + size) % WRAP, (data + size + 2) % WRAP;
    if |buf| < next {
      return Halt(Incomplete);
    }
    if |buf| < at {
      return Throw;
    }
    if !Crlf(buf, at) {
      return Halt(Error);
    }
    var end := if data + size < |buf| then data + size else |buf|;
    return Jump(next, buf[data..end]);
  }

  /** The loop, stopped after `n` rounds if it has not ended by then. */
  method RunLoop(buf: string, bodyStart: nat, n: nat) returns (v: Verdict)
    requires bodyStart <= |buf|
    ensures v == Rounds(buf, bodyStart, "", n)
  {
    hide MoveAt;
    var pos: nat, decoded, left := bodyStart, "", n;
    while left > 0
      invariant pos <= |buf| && Rounds(buf, bodyStart, "", n) == Rounds(buf, pos, decoded, left)
    {
      var m := MoveOn(buf, pos);
      match m {
        case Halt(scan) => return Ended(WithPayload(scan, decoded));
        case Throw => return Thrown;
        case Jump(next, data) => pos, decoded := next, decoded + data;
      }
      left := left - 1;
    }
    return Running;
  }

  lemma {:induction false} TrailerPayload(buf: string, pos: nat, payload: string)
    requires pos <= |buf|
    ensures ScanTrailer(buf, pos, payload) == WithPayload(ScanTrailer(buf, pos, ""), payload)
    decreases |buf| - pos
  {
    hide FindCrlf;
    var e := FindCrlf(buf, pos);
    if e.Some? && e.value != pos {
      TrailerPayload(buf, e.value + 2, payload);
    }
  }

  /** Without a wrapping size line the loop ends, with the scan that is meant. */
  lemma {:induction false} ClearLoop(buf: string, pos: nat, payload: string, n: nat)
    requires pos <= |buf| < SIZE_MAX && Clear(buf, pos) && n > |buf| - pos
    ensures Rounds(buf, pos, payload, n) == Ended(ScanFrom(buf, pos, payload))
    decreases n
  {
    hide MoveAt, HeadAt, Wraps, ScanTrailer;
    MoveIff(buf, pos);
    match HeadAt(buf, pos) {
      case Cut =>
      case Bad =>
      case Last(data) => TrailerPayload(buf, data, payload);
      case Chunk(data, size) => ClearLoop(buf, data + size + 2, payload + buf[data..data + size], n - 1);
    }
  }

  lemma {:induction false} WrapIsCut(buf: string, pos: nat)
    requires pos <= |buf| < SIZE_MAX && Wraps(buf, pos)
    ensures HeadAt(buf, pos) == Cut
  {
  }

  /** Where a size line wraps, the scan that is meant waits for more. */
  lemma {:induction false} AstrayIsIncomplete(buf: string, pos: nat, payload: string)
    requires pos <= |buf| < SIZE_MAX && !Clear(buf, pos)
    ensures ScanFrom(buf, pos, payload) == Incomplete
    decreases |buf| - pos
  {
    hide HeadAt, Wraps;
    if Wraps(buf, pos) {
      WrapIsCut(buf, pos);
    } else {
      var h := HeadAt(buf, pos);
      AstrayIsIncomplete(buf, h.data + h.size + 2, payload + buf[h.data..h.data + h.size]);
    }
  }

  ghost predicate EndsWith(buf: string, pos: nat, payload: string, scan: Scan)
    requires pos <= |buf|
  {
    exists n: nat :: Rounds(buf, pos, payload, n) == Ended(scan)
  }

  /** The loop gives the verdict that is meant if and only if no size line on the way
      wraps, or it ends up waiting for more all the same. */
  lemma {:induction false} SameVerdictIff(buf: string, pos: nat, payload: string)
    requires pos <= |buf| < SIZE_MAX
    ensures EndsWith(buf, pos, payload, ScanFrom(buf, pos, payload)) <==>
            Clear(buf, pos) || EndsWith(buf, pos, payload, Incomplete)
  {
    hide Rounds, Clear, ScanFrom;
    if Clear(buf, pos) {
      ClearLoop(buf, pos, payload, |buf| - pos + 1);
    } else {
      AstrayIsIncomplete(buf, pos, payload);
    }
  }

  /** A verdict is not reconsidered. */
  lemma {:induction false} RoundsStay(buf: string, pos: nat, payload: string, n: nat, m: nat)
    requires pos <= |buf| && n <= m && Rounds(buf, pos, payload, n) != Running
    ensures Rounds(buf, pos, payload, m) == Rounds(buf, pos, payload, n)
    decreases n
  {
    hide MoveAt;
    if MoveAt(buf, pos).Jump? {
      RoundsStay(buf, MoveAt(buf, pos).next, payload + MoveAt(buf, pos).data, n - 1, m - 1);
    }
  }

  /** Without a wrapping size line, what the loop ends with is the scan that is meant. */
  lemma {:induction false} ClearVerdict(buf: string, pos: nat, payload: string, n: nat)
    requires pos <= |buf| < SIZE_MAX && Clear(buf, pos) && Rounds(buf, pos, payload, n) != Running
    ensures Rounds(buf, pos, payload, n) == Ended(ScanFrom(buf, pos, payload))
  {
    hide Rounds, Clear, ScanFrom;
    var m := n + |buf| + 1;
    RoundsStay(buf, pos, payload, n, m);
    ClearLoop(buf, pos, payload, m);
  }

  /** Then more bytes do not change a verdict of the loop either. */
  lemma {:induction false} LoopExtends(buf: string, more: string, pos: nat, payload: string, n: nat, scan: Scan)
    requires pos <= |buf| && |buf + more| < SIZE_MAX && Clear(buf, pos)
    requires Rounds(buf, pos, payload, n) == Ended(scan) && scan != Incomplete
    ensures Clear(buf + more, pos) && EndsWith(buf + more, pos, payload, scan)
  {
    hide Rounds, Clear, ScanFrom;
    ClearVerdict(buf, pos, payload, n);
    ScanExtends(buf, more, pos, payload);
    if !Clear(buf + more, pos) {
      AstrayIsIncomplete(buf + more, pos, payload);
    }
    SameVerdictIff(buf + more, pos, payload);
  }

  /** On the way to a completed scan no size line wraps, however much of the buffer is
      there yet. */
  lemma {:induction false} ClearPrefix(buf: string, more: string, pos: nat, payload: string)
    requires pos <= |buf| && |buf + more| < SIZE_MAX && ScanFrom(buf + more, pos, payload).Complete?
    ensures Clear(buf, pos)
    decreases |buf| - pos
  {
    hide ScanTrailer;
    LineInPrefix(buf, more, pos);
    match HeadAt(buf, pos) {
      case Chunk(data, size) =>
        HeadExtends(buf, more, pos);
        assert (buf + more)[data..data + size] == buf[data..data + size];
        ClearPrefix(buf, more, data + size + 2, payload + buf[data..data + size]);
      case _ =>
    }
  }

  /** Nor does one in front of what follows it. */
  lemma {:induction false} ClearWhole(buf: string, more: string, pos: nat, payload: string)
    requires pos <= |buf| < SIZE_MAX && ScanFrom(buf, pos, payload).Complete?
    ensures Clear(buf + more, pos)
    decreases |buf| - pos
  {
    hide ScanTrailer;
    HeadExtends(buf, more, pos);
    LineExtends(buf, more, pos);
    match HeadAt(buf, pos) {
      case Chunk(data, size) =>
        assert (buf + more)[data..data + size] == buf[data..data + size];
        ClearWhole(buf, more, data + size + 2, payload + buf[data..data + size]);
      case _ =>
    }
  }

  lemma {:induction false} LineExtends(buf: string, more: string, pos: nat)
    requires pos <= |buf| < SIZE_MAX && !HeadAt(buf, pos).Cut?
    ensures !Wraps(buf + more, pos)
  {
    hide SizeOf, FindCrlf;
    FindCrlfExtends(buf, more, pos);
    var lineEnd := FindCrlf(buf, pos).value;
    assert (buf + more)[pos..lineEnd] == buf[pos..lineEnd];
  }

  lemma {:induction false} LineInPrefix(buf: string, more: string, pos: nat)
    requires pos <= |buf| && |buf + more| < SIZE_MAX && !HeadAt(buf + more, pos).Cut?
    ensures !Wraps(buf, pos)
  {
    hide SizeOf, FindCrlf;
    if FindCrlf(buf, pos).Some? {
      FindCrlfExtends(buf, more, pos);
      var lineEnd := FindCrlf(buf, pos).value;
      assert (buf + more)[pos..lineEnd] == buf[pos..lineEnd];
    }
  }

  // ------------------------------------------------------------- going round

  /** Where the loop is after `n` rounds. */
  function After(buf: string, pos: nat, n: nat): (r: Option<nat>)
    requires pos <= |buf|
    ensures r.Some? ==> r.value <= |buf|
    decreases n
  {
    if n == 0 then Some(pos)
    else
      match MoveAt(buf, pos)
      case Jump(next, _) => After(buf, next, n - 1)
      case _ => None
  }

  lemma {:induction false} RunningIsSomewhere(buf: string, pos: nat, payload: string, n: nat)
    requires pos <= |buf|
    ensures Rounds(buf, pos, payload, n).Running? <==> After(buf, pos, n).Some?
    decreases n
  {
    hide MoveAt;
    if n > 0 && MoveAt(buf, pos).Jump? {
      RunningIsSomewhere(buf, MoveAt(buf, pos).next, payload + MoveAt(buf, pos).data, n - 1);
    }
  }

  lemma {:induction false} AfterSum(buf: string, pos: nat, i: nat, k: nat)
    requires pos <= |buf| && After(buf, pos, i).Some?
    ensures After(buf, pos, i + k) == After(buf, After(buf, pos, i).value, k)
    decreases i
  {
    hide MoveAt;
    if i > 0 {
      AfterSum(buf, MoveAt(buf, pos).next, i - 1, k);
    }
  }

  lemma {:induction false} AfterBefore(buf: string, pos: nat, i: nat, j: nat)
    requires pos <= |buf| && i <= j && After(buf, pos, j).Some?
    ensures After(buf, pos, i).Some?
    decreases i
  {
    hide MoveAt;
    if i > 0 {
      AfterBefore(buf, MoveAt(buf, pos).next, i - 1, j - 1);
    }
  }

  /** The loop never ends. */
  ghost predicate Forever(buf: string, pos: nat)
    requires pos <= |buf|
  {
    forall n: nat, payload :: Rounds(buf, pos, payload, n) == Running
  }

  /** It is at the same place after `i` and after `j` rounds. */
  predicate Meets(buf: string, pos: nat, i: nat, j: nat)
    requires pos <= |buf|
  {
    i < j && After(buf, pos, i).Some? && After(buf, pos, i) == After(buf, pos, j)
  }

  /** It comes back to some place, within as many rounds as there are places. */
  ghost predicate ComesBack(buf: string, pos: nat)
    requires pos <= |buf|
  {
    exists i: nat, j: nat :: j <= |buf| + 1 && Meets(buf, pos, i, j)
  }

  lemma {:induction false} RoundAgain(buf: string, pos: nat, i: nat, j: nat, n: nat)
    requires pos <= |buf| && Meets(buf, pos, i, j)
    ensures After(buf, pos, n).Some?
    decreases n
  {
    hide MoveAt, After;
    if n <= j {
      AfterBefore(buf, pos, n, j);
    } else {
      RoundAgain(buf, pos, i, j, i + (n - j));
      AfterSum(buf, pos, i, n - j);
      AfterSum(buf, pos, j, n - j);
    }
  }

  lemma {:induction false} SmallSet(s: set<nat>, m: nat)
    requires forall x :: x in s ==> x < m
    ensures |s| <= m
    decreases m
  {
    if m == 0 {
      assert s == {};
    } else {
      SmallSet(s - {m - 1}, m - 1);
    }
  }

  predicate Visits(buf: string, pos: nat, k: nat, x: nat)
    requires pos <= |buf|
  {
    exists i | 0 <= i < k :: After(buf, pos, i) == Some(x)
  }

  /** Different places for each of the first `k` rounds make that many places. */
  lemma {:induction false} PlacesOf(buf: string, pos: nat, k: nat) returns (places: set<nat>)
    requires pos <= |buf| && (forall n: nat :: After(buf, pos, n).Some?)
    requires forall i, j :: 0 <= i < j < k ==> After(buf, pos, i) != After(buf, pos, j)
    ensures |places| == k && forall x :: x in places ==> Visits(buf, pos, k, x)
    decreases k
  {
    hide After;
    if k == 0 {
      places := {};
    } else {
      var fewer := PlacesOf(buf, pos, k - 1);
      var x := After(buf, pos, k - 1).value;
      assert x !in fewer;
      places := fewer + {x};
      forall y | y in places
        ensures Visits(buf, pos, k, y)
      {
        if y == x {
          assert After(buf, pos, k - 1) == Some(y);
        } else {
          var i :| 0 <= i < k - 1 && After(buf, pos, i) == Some(y);
        }
      }
    }
  }

  lemma {:induction false} MustMeet(buf: string, pos: nat)
    requires pos <= |buf| && forall n: nat :: After(buf, pos, n).Some?
    ensures ComesBack(buf, pos)
  {
    hide After;
    if forall i, j :: 0 <= i < j < |buf| + 2 ==> After(buf, pos, i) != After(buf, pos, j) {
      var places := PlacesOf(buf, pos, |buf| + 2);
      SmallSet(places, |buf| + 1);
      assert false;
    } else {
      var i, j :| 0 <= i < j < |buf| + 2 && After(buf, pos, i) == After(buf, pos, j);
      assert Meets(buf, pos, i, j);
    }
  }

  /** The loop never ends if and only if it comes back to a place where it has been. */
  lemma {:induction false} ForeverIff(buf: string, pos: nat)
    requires pos <= |buf|
    ensures Forever(buf, pos) <==> ComesBack(buf, pos)
  {
    hide Rounds, After, Meets;
    if Forever(buf, pos) {
      forall n: nat
        ensures After(buf, pos, n).Some?
      {
        assert Rounds(buf, pos, "", n) == Running;
        RunningIsSomewhere(buf, pos, "", n);
      }
      MustMeet(buf, pos);
    }
    if i: nat, j: nat :| j <= |buf| + 1 && Meets(buf, pos, i, j) {
      forall n: nat, payload
        ensures Rounds(buf, pos, payload, n) == Running
      {
        RoundAgain(buf, pos, i, j, n);
        RunningIsSomewhere(buf, pos, payload, n);
      }
    }
  }

  // ---------------------------------------------------------- what can happen

  /** Fourteen times the digit f. */
  const HIGH := "ffff" + "ffff" + "ffff" + "ff"

  lemma {:induction false} OneDigit(c: char, rest: string, acc: nat)
    requires IsHexDigit(c) && acc <= SIZE_MAX_SHIFTED
    ensures ReadSize([c] + rest, acc) == ReadSize(rest, acc * 16 + HexDigitValue(c))
  {
    assert ([c] + rest)[1..] == rest;
  }

  lemma {:induction false} FourF(rest: string, acc: nat)
    requires acc <= 0xFFFF_FFFF_FFFF
    ensures ReadSize("ffff" + rest, acc) == ReadSize(rest, acc * 0x10000 + 0xFFFF)
  {
    hide ReadSize;
    OneDigit('f', "fff" + rest, acc);
    OneDigit('f', "ff" + rest, acc * 16 + 15);
    OneDigit('f', "f" + rest, (acc * 16 + 15) * 16 + 15);
    OneDigit('f', rest, ((acc * 16 + 15) * 16 + 15) * 16 + 15);
    assert "ffff" + rest == "f" + ("fff" + rest) && "fff" + rest == "f" + ("ff" + rest) && "ff" + rest == "f" + ("f" + rest);
  }

  /** Sixteen hex digits reach the end of `size_t`. */
  lemma {:induction false} HighSize(a: char, b: char)
    requires IsHexDigit(a) && IsHexDigit(b)
    ensures SizeOf(HIGH + [a, b]) == Some(WRAP - 256 + HexDigitValue(a) * 16 + HexDigitValue(b))
    ensures |HIGH + [a, b]| == 16 && forall i :: 0 <= i < 16 ==> IsHexDigit((HIGH + [a, b])[i])
  {
    hide ReadSize;
    var hex, ab := HIGH + [a, b], [a, b];
    assert hex == "ffff" + ("ffff" + ("ffff" + ("ff" + ab)));
    FourF("ffff" + ("ffff" + ("ff" + ab)), 0);
    FourF("ffff" + ("ff" + ab), 0xFFFF);
    FourF("ff" + ab, 0xFFFF_FFFF);
    LastFour(a, b);
    NoSemicolon(hex, 0);
  }

  lemma {:induction false} LastFour(a: char, b: char)
    requires IsHexDigit(a) && IsHexDigit(b)
    ensures ReadSize("ff" + [a, b], 0xFFFF_FFFF_FFFF) == Some(WRAP - 256 + HexDigitValue(a) * 16 + HexDigitValue(b))
  {
    OneDigit('f', "f" + [a, b], 0xFFFF_FFFF_FFFF);
    OneDigit('f', [a, b], 0xF_FFFF_FFFF_FFFF);
    OneDigit(a, [b], 0xFF_FFFF_FFFF_FFFF);
    OneDigit(b, "", 0xFFF_FFFF_FFFF_FFF0 + HexDigitValue(a));
    assert "ff" + [a, b] == "f" + ("f" + [a, b]) && [a, b] == [a] + [b] && [b] == [b] + "";
  }

  lemma {:induction false} NoSemicolon(s: string, from: nat)
    requires forall i :: 0 <= i < |s| ==> s[i] != ';'
    ensures FindChar(s, ';', from) == None
    decreases |s| - from
  {
    if from < |s| {
      NoSemicolon(s, from + 1);
    }
  }

  /** A sum that comes out behind an earlier line end sends the loop back there, with
      everything behind the size line decoded. */
  lemma {:induction false} SendsBack(buf: string, pos: nat, lineEnd: nat, back: nat)
    requires pos <= |buf| < SIZE_MAX && FindCrlf(buf, pos) == Some(lineEnd)
    requires 2 <= back <= lineEnd + 2 && Crlf(buf, back - 2) && SizeOf(buf[pos..lineEnd]) == Some(WRAP - (lineEnd + 4 - back))
    ensures MoveAt(buf, pos) == Jump(back, buf[lineEnd + 2..])
  {
    hide SizeOf, FindCrlf;
    Modulo(lineEnd + 2, WRAP - (lineEnd + 4 - back));
  }

  /** A size line with the digits `a` and `b` at the end of `before`. */
  function WithLine(before: string, a: char, b: char, more: string): (buf: string) {
    before + (HIGH + [a, b]) + "\r\n" + more
  }

  lemma {:induction false} LineStands(before: string, a: char, b: char, more: string)
    requires IsHexDigit(a) && IsHexDigit(b)
    ensures var buf := WithLine(before, a, b, more);
            && |buf| == |before| + 18 + |more| && buf[..|before|] == before && buf[|before| + 18..] == more
            && FindCrlf(buf, |before|) == Some(|before| + 16) && buf[|before|..|before| + 16] == HIGH + [a, b]
  {
    var buf, hex, n := WithLine(before, a, b, more), HIGH + [a, b], |before|;
    HighSize(a, b);
    assert buf[n..n + 16] == hex;
    assert Crlf(buf, n + 16);
    forall j | n <= j < n + 16
      ensures !Crlf(buf, j)
    {
      assert buf[j] == hex[j - n];
    }
    FindCrlfAt(buf, n, n + 16);
  }

  predicate EndsLine(s: string) {
    Crlf(s, |s| - 2)
  }

  /** Behind any header block the size line `ffffffffffffffec` leads back to itself:
      the loop never ends, whatever follows. */
  lemma {:induction false} GoesRound(before: string, more: string)
    requires EndsLine(before) && |before| + 18 + |more| < SIZE_MAX
    ensures |before| <= |WithLine(before, 'e', 'c', more)|
    ensures MoveAt(WithLine(before, 'e', 'c', more), |before|) == Jump(|before|, more)
    ensures Forever(WithLine(before, 'e', 'c', more), |before|)
  {
    hide MoveAt, Rounds, WithLine;
    var buf, n := WithLine(before, 'e', 'c', more), |before|;
    LineStands(before, 'e', 'c', more);
    HighSize('e', 'c');
    assert buf[..n][n - 2] == buf[n - 2] && buf[..n][n - 1] == buf[n - 1];
    SendsBack(buf, n, n + 16, n);
    assert After(buf, n, 0) == Some(n) && After(buf, n, 1) == Some(n);
    assert Meets(buf, n, 0, 1);
    ForeverIff(buf, n);
  }

  /** Behind a line `0` and the blank line, the size line `ffffffffffffffe7` leads back
      to the 0: the loop completes before its own start, on no chunk at all, and
      decodes whatever has come in so far. */
  lemma {:induction false} CompletesOnNothing(before: string, more: string)
    requires EndsLine(before) && |before| + 23 + |more| < SIZE_MAX
    ensures var buf, start := WithLine(before + "0\r\n\r\n", 'e', '7', more), |before| + 5;
            start <= |buf| && Rounds(buf, start, "", 2) == Ended(Complete(start, more))
  {
    hide MoveAt, WithLine;
    var head, n := before + "0\r\n\r\n", |before|;
    var buf := WithLine(head, 'e', '7', more);
    LineStands(head, 'e', '7', more);
    HighSize('e', '7');
    assert forall i :: 0 <= i < n + 5 ==> buf[i] == buf[..n + 5][i] == head[i];
    SendsBack(buf, n + 5, n + 21, n);
    ZeroLine(buf, n);
    assert "" + more == more;
  }

  lemma {:induction false} ZeroLine(buf: string, n: nat)
    requires n + 5 <= |buf| && buf[n] == '0' && BlankLine(buf, n + 1)
    ensures MoveAt(buf, n) == Halt(Complete(n + 5, ""))
  {
    FindCrlfAt(buf, n, n + 1);
    assert buf[n..n + 1] == "0";
    assert "0"[1..] == "";
    NoSemicolon("0", 0);
  }
}
