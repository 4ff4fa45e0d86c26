/** A keep-alive connection read in arbitrary pieces: parse, erase the consumed
    prefix, hand over the request, reset and clear, go on. The result does not
    depend on where the pieces were cut. */
module Pipelining {
  import opened Bytes
  import opened M = ParserMachine
  import RequestParser

  /** What the bytes read so far amount to. `used` counts bytes taken by the parser. */
  datatype Drained = Drained(reqs: seq<Request>, m: Machine, error: ParseError, used: nat)

  /** Parses as many requests as `data` holds, starting in state `m`. */
  function Drain(m: Machine, data: string): (d: Drained)
    decreases |data|
  {
    var r := Parse(m, data);
    match r.outcome
    case Pending => Drained([], r.m, NONE, r.consumed)
    case Rejected => Drained([], FRESH, r.m.error, r.consumed)
    case Accepted =>
      var rest := Drain(FRESH, data[r.consumed..]);
      rest.(reqs := [r.m.req] + rest.reqs, used := rest.used + r.consumed)
  }

  /** The second result continues the first. */
  function Join(a: Drained, b: Drained): (d: Drained) {
    b.(reqs := a.reqs + b.reqs, used := a.used + b.used)
  }

  /** One `Drain` per read, until a request is rejected. */
  function FeedAll(m: Machine, pieces: seq<string>): (d: Drained)
    decreases |pieces|
  {
    if pieces == [] then Drained([], m, NONE, 0)
    else
      var d := Drain(m, pieces[0]);
      if d.error != NONE then d else Join(d, FeedAll(d.m, pieces[1..]))
  }

  lemma {:induction false} StepVerdicts(m: Machine, c: char)
    ensures Step(m, c).Reject? ==> Step(m, c).m.error != NONE
    ensures m.state != DONE && Step(m, c).More? ==> Step(m, c).m.state != DONE
    ensures !Step(m, c).Reject? ==> Step(m, c).m.error == m.error
  {
  }

  /** A call that reports neither success nor an error has used every byte. */
  lemma {:induction false} ParseVerdicts(m: Machine, data: string)
    requires m.state != DONE
    ensures var r := Parse(m, data);
            && (r.outcome == Pending ==> r.consumed == |data| && r.m.state != DONE)
            && (r.outcome != Rejected ==> r.m.error == m.error)
            && (r.outcome == Rejected ==> r.m.error != NONE)
    decreases |data|
  {
    if data != "" {
      StepVerdicts(m, data[0]);
      if Step(m, data[0]).More? {
        ParseVerdicts(Step(m, data[0]).m, data[1..]);
      }
    }
  }

  /** Parsing two pieces in a row is parsing their concatenation. */
  lemma {:induction false} ParseConcat(m: Machine, a: string, b: string)
    requires m.state != DONE
    ensures var r := Parse(m, a);
            Parse(m, a + b) ==
            if r.outcome == Pending then Parse(r.m, b).(consumed := |a| + Parse(r.m, b).consumed) else r
    decreases |a|
  {
    hide StepRequestLine, StepVersion, StepHeader, StepChunk, StepBody;
    if a == "" {
      assert a + b == b;
    } else {
      assert (a + b)[1..] == a[1..] + b;
      StepVerdicts(m, a[0]);
      if Step(m, a[0]).More? {
        ParseConcat(Step(m, a[0]).m, a[1..], b);
      }
    }
  }

  /** One turn of the drain loop, seen from what the connection has produced. */
  lemma {:induction false} DrainTurn(before: Drained, data: string)
    requires before.m.state != DONE && before.error == NONE
    ensures var r := Parse(before.m, data);
            Join(before, Drain(before.m, data)) ==
            match r.outcome
            case Pending => Drained(before.reqs, r.m, NONE, before.used + |data|)
            case Rejected => Drained(before.reqs, FRESH, r.m.error, before.used + r.consumed)
            case Accepted =>
              Join(Drained(before.reqs + [r.m.req], FRESH, NONE, before.used + r.consumed),
                   Drain(FRESH, data[r.consumed..]))
  {
    hide Step;
    ParseVerdicts(before.m, data);
    var r := Parse(before.m, data);
    if r.outcome == Accepted {
      var rest := Drain(FRESH, data[r.consumed..]);
      assert before.reqs + ([r.m.req] + rest.reqs) == (before.reqs + [r.m.req]) + rest.reqs;
    }
  }

  lemma {:induction false} DrainConcatPending(m: Machine, a: string, b: string)
    requires m.state != DONE && Parse(m, a).outcome == Pending
    ensures Drain(m, a + b) == Join(Drain(m, a), Drain(Parse(m, a).m, b))
  {
    hide Step;
    ParseVerdicts(m, a);
    ParseConcat(m, a, b);
    var r2 := Parse(Parse(m, a).m, b);
    assert (a + b)[|a| + r2.consumed..] == b[r2.consumed..];
  }

  lemma {:induction false} DrainConcat(m: Machine, a: string, b: string)
    requires m.state != DONE
    ensures var d := Drain(m, a);
            && d.m.state != DONE
            && Drain(m, a + b) == (if d.error != NONE then d else Join(d, Drain(d.m, b)))
    decreases |a|
  {
    hide Step;
    var r := Parse(m, a);
    ParseVerdicts(m, a);
    match r.outcome {
      case Pending =>
        DrainConcatPending(m, a, b);
      case Rejected =>
        ParseConcat(m, a, b);
      case Accepted =>
        ParseConcat(m, a, b);
        var tail := a[r.consumed..];
        assert (a + b)[r.consumed..] == tail + b;
        DrainConcat(FRESH, tail, b);
        var d := Drain(FRESH, tail);
        assert [r.m.req] + (d.reqs + Drain(d.m, b).reqs) == ([r.m.req] + d.reqs) + Drain(d.m, b).reqs;
    }
  }

  /** Segmentation independence, for arbitrary bytes: the requests delivered, the
      error that stopped the connection, the state left behind and the number of
      bytes used depend only on the stream, never on how it was cut into pieces. */
  lemma {:induction false} CutsDoNotMatter(m: Machine, pieces: seq<string>)
    requires m.state != DONE
    ensures FeedAll(m, pieces) == Drain(m, Concat(pieces))
    decreases |pieces|
  {
    if pieces != [] {
      DrainConcat(m, pieces[0], Concat(pieces[1..]));
      CutsDoNotMatter(Drain(m, pieces[0]).m, pieces[1..]);
    }
  }

  /** `wire` is one complete request: a fresh parser accepts at its last byte. */
  predicate IsRequest(wire: string) {
    var r := Parse(FRESH, wire);
    r.outcome == Accepted && r.consumed == |wire|
  }

  function RequestOf(wire: string): (r: Request)
  {
    Parse(FRESH, wire).m.req
  }

  lemma {:induction false} DrainRequests(wires: seq<string>)
    requires forall i :: 0 <= i < |wires| ==> IsRequest(wires[i])
    ensures Drain(FRESH, Concat(wires)) ==
            Drained(seq(|wires|, i requires 0 <= i < |wires| => RequestOf(wires[i])), FRESH, NONE, |Concat(wires)|)
  {
    hide Step;
    if wires != [] {
      var w, rest := wires[0], wires[1..];
      DrainRequests(rest);
      ParseConcat(FRESH, w, Concat(rest));
      assert (w + Concat(rest))[|w|..] == Concat(rest);
      assert forall i :: 0 <= i < |rest| ==> rest[i] == wires[i + 1];
      assert Drain(FRESH, Concat(wires)).reqs == [RequestOf(w)] + Drain(FRESH, Concat(rest)).reqs;
    }
  }

  /** Pipelining: however a stream of complete requests is cut into pieces, exactly
      these requests come out, in order, and nothing is left over. */
  lemma {:induction false} PipelinedRequests(wires: seq<string>, pieces: seq<string>)
    requires forall i :: 0 <= i < |wires| ==> IsRequest(wires[i])
    requires Concat(pieces) == Concat(wires)
    ensures FeedAll(FRESH, pieces) ==
            Drained(seq(|wires|, i requires 0 <= i < |wires| => RequestOf(wires[i])), FRESH, NONE, |Concat(wires)|)
  {
    CutsDoNotMatter(FRESH, pieces);
    DrainRequests(wires);
  }

  /** One connection: the parser, the request being filled and the read buffer. */
  class Connection {
    const parser: RequestParser.HttpParser
    const request: RequestParser.HttpRequest
    var readBuf: string
    var delivered: seq<Request>
    var error: ParseError
    ghost var used: nat

    ghost predicate Valid()
      reads this, parser, request
    {
      && (error == NONE ==> readBuf == "")
      && parser.View(request).state != DONE
      && parser.View(request).error == NONE
    }

    /** Everything this connection has produced so far. */
    ghost function View(): (d: Drained)
      reads this, parser, request
    {
      Drained(delivered, parser.View(request), error, used)
    }

    constructor ()
      ensures Valid() && fresh(parser) && fresh(request)
      ensures View() == Drained([], FRESH, NONE, 0)
    {
      request := new RequestParser.HttpRequest();
      parser := new RequestParser.HttpParser();
      readBuf, delivered, error, used := "", [], NONE, 0;
    }

    /** The boundary between two requests: `reset()` and `clear()`, as the parser's
        callers are meant to do it (KeepAlive has the handler's own boundary). */
    method NextRequest()
      modifies parser, request
      ensures parser.View(request) == FRESH
    {
      parser.Reset();
      request.Clear();
    }

    /** One `parse` call on the whole buffer; the consumed prefix is erased. */
    method Consume() returns (complete: bool)
      modifies this`readBuf, this`used, parser, request
      ensures var run := Parse(old(View()).m, old(readBuf));
              && complete == (run.outcome == Accepted)
              && parser.View(request) == run.m
              && readBuf == old(readBuf)[run.consumed..]
              && used == old(used) + run.consumed
    {
      var consumed;
      complete, consumed := parser.Parse(readBuf, request);
      readBuf, used := readBuf[consumed..], used + consumed;
    }

    /** One turn of the parse loop; `again` when a request was completed. */
    method ParseOnce() returns (again: bool)
      requires error == NONE && parser.View(request).state != DONE && parser.View(request).error == NONE
      modifies this, parser, request
      ensures parser.View(request).state != DONE && parser.View(request).error == NONE
      ensures Join(old(View()), Drain(old(View()).m, old(readBuf))) ==
              if again then Join(View(), Drain(View().m, readBuf)) else View()
      ensures again ==> error == NONE && |readBuf| < |old(readBuf)|
      ensures !again && error == NONE ==> readBuf == ""
    {
      hide Step, Drain;
      ghost var run := Parse(View().m, readBuf);
      DrainTurn(View(), readBuf);
      ParseVerdicts(View().m, readBuf);
      var complete := Consume();
      if complete {
        delivered := delivered + [Request(request.verb, request.path, request.version, request.query,
                                          request.headers, request.body)];
        assert delivered == old(delivered) + [run.m.req];
        NextRequest();
        return true;
      }
      if parser.parseError != NONE {
        error := parser.parseError;
        NextRequest();
      }
      return false;
    }

    /** A read event. A rejected connection ignores what follows. */
    method OnRead(bytes: string)
      requires Valid()
      modifies this, parser, request
      ensures Valid()
      ensures old(error) != NONE ==> View() == old(View())
      ensures old(error) == NONE ==> View() == Join(old(View()), Drain(old(View()).m, bytes))
    {
      if error != NONE {
        return;
      }
      readBuf := readBuf + bytes;
      assert readBuf == bytes;
      var again := true;
      while again
        invariant parser.View(request).state != DONE && parser.View(request).error == NONE
        invariant again ==> error == NONE
        invariant !again && error == NONE ==> readBuf == ""
        invariant Join(old(View()), Drain(old(View()).m, bytes)) ==
                  if again then Join(View(), Drain(View().m, readBuf)) else View()
        decreases again, |readBuf|
      {
        again := ParseOnce();
      }
    }
  }

  lemma {:induction false} FeedAllAppend(m: Machine, pieces: seq<string>, last: string)
    requires m.state != DONE
    ensures var d := FeedAll(m, pieces);
            FeedAll(m, pieces + [last]) == if d.error != NONE then d else Join(d, Drain(d.m, last))
  {
    CutsDoNotMatter(m, pieces);
    CutsDoNotMatter(m, pieces + [last]);
    ConcatAppend(pieces, [last]);
    assert Concat([last]) == last;
    DrainConcat(m, Concat(pieces), last);
  }

  /** A whole connection: every piece is handed to `OnRead` as it arrives. */
  method Serve(pieces: seq<string>) returns (delivered: seq<Request>, error: ParseError)
    ensures delivered == Drain(FRESH, Concat(pieces)).reqs
    ensures error == Drain(FRESH, Concat(pieces)).error
  {
    var conn := new Connection();
    for i := 0 to |pieces|
      invariant conn.Valid() && fresh(conn) && fresh(conn.parser) && fresh(conn.request)
      invariant conn.View() == FeedAll(FRESH, pieces[..i])
    {
      FeedAllAppend(FRESH, pieces[..i], pieces[i]);
      assert pieces[..i + 1] == pieces[..i] + [pieces[i]];
      conn.OnRead(pieces[i]);
    }
    assert pieces[..|pieces|] == pieces;
    CutsDoNotMatter(FRESH, pieces);
    return conn.delivered, conn.error;
  }
}
