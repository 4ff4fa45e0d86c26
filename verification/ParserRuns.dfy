/** Stretches of well-behaved input driven through the parser machine. These are
    the building blocks of every round trip through a printer. */
module ParserRuns {
  import opened Bytes
  import opened ParserMachine
  import opened ParserLimits
  import P = Pipelining

  /** Reading all of `w` leads from `m` to `m'` without a verdict. */
  predicate Leads(m: Machine, w: string, m': Machine) {
    m.state != DONE && m'.state != DONE && Parse(m, w) == Run(Pending, |w|, m')
  }

  lemma {:induction false} LeadsTrans(m: Machine, a: string, m1: Machine, b: string, m2: Machine)
    requires Leads(m, a, m1) && Leads(m1, b, m2)
    ensures Leads(m, a + b, m2)
  {
    P.ParseConcat(m, a, b);
  }

  /** A verdict reached after `a` is the verdict on `a + b`. */
  lemma {:induction false} LeadsThen(m: Machine, a: string, m1: Machine, b: string)
    requires Leads(m, a, m1)
    ensures Parse(m, a + b) == Parse(m1, b).(consumed := |a| + Parse(m1, b).consumed)
  {
    P.ParseConcat(m, a, b);
  }

  lemma {:induction false} LeadsByte(m: Machine, c: char)
    requires m.state != DONE && Step(m, c).More? && Step(m, c).m.state != DONE
    ensures Leads(m, [c], Step(m, c).m)
  {
    assert [c][1..] == "";
  }

  /** Two bytes; the second may bring the verdict. */
  lemma {:induction false} TwoBytes(m: Machine, a: char, b: char, s: string, rest: string)
    requires s == [a, b] && m.state != DONE && Step(m, a).More? && Step(m, a).m.state != DONE
    ensures var last := Step(Step(m, a).m, b);
            && (last.Accept? ==> Parse(m, s + rest) == Run(Accepted, 2, last.m))
            && (last.Reject? ==> Parse(m, s + rest) == Run(Rejected, 2, last.m))
            && (last.More? && last.m.state != DONE ==> Leads(m, s, last.m))
  {
    var m1 := Step(m, a).m;
    LeadsByte(m, a);
    assert s == [a] + [b];
    if !Step(m1, b).More? {
      LeadsThen(m, [a], m1, [b] + rest);
      assert s + rest == [a] + ([b] + rest);
    } else if Step(m1, b).More? && Step(m1, b).m.state != DONE {
      LeadsByte(m1, b);
      LeadsTrans(m, [a], m1, [b], Step(m1, b).m);
    }
  }

  predicate NoLineBreak(s: string) {
    forall i :: 0 <= i < |s| ==> s[i] != '\r' && s[i] != '\n'
  }

  /** Bytes collected in the buffer of a request-line state. */
  lemma {:induction false} LineRun(m: Machine, w: string)
    requires m.state in {METHOD, PATH, QUERY, VERSION} && IsRequestLinePart(w) && (m.state == PATH ==> '?' !in w)
    requires |m.buffer| + |w| <= MAX_REQUEST_LINE_SIZE && !m.crSeen
    ensures Leads(m, w, m.(buffer := m.buffer + w))
    decreases |w|
  {
    if w == "" {
      assert m.buffer + w == m.buffer;
    } else {
      var m1 := m.(buffer := m.buffer + [w[0]]);
      assert IsRequestLineChar(w[0]) && w[0] in w;
      assert Step(m, w[0]) == More(m1);
      LineRun(m1, w[1..]);
      assert m.buffer + [w[0]] + w[1..] == m.buffer + w;
    }
  }

  /** Bytes collected in the buffer of the header state. */
  lemma {:induction false} HeaderRun(m: Machine, w: string)
    requires m.state == HEADER && NoLineBreak(w) && !m.crSeen
    requires |m.buffer| + |w| <= MAX_HEADER_LINE_SIZE && m.headersRead + |w| <= MAX_HEADERS_SIZE
    ensures Leads(m, w, m.(buffer := m.buffer + w, headersRead := m.headersRead + |w|))
    decreases |w|
  {
    if w == "" {
      assert m.buffer + w == m.buffer;
    } else {
      var m1 := m.(buffer := m.buffer + [w[0]], headersRead := m.headersRead + 1);
      assert Step(m, w[0]) == More(m1);
      HeaderRun(m1, w[1..]);
      assert m.buffer + [w[0]] + w[1..] == m.buffer + w;
    }
  }

  // ------------------------------------------------------------ header fields

  /** A field as a printer writes it; the name may still be in mixed case. */
  datatype Printed = Printed(name: string, value: string)

  predicate Printable(f: Printed) {
    FieldOk(Lower(f.name), f.value)
  }

  function Line(f: Printed): (s: string) {
    f.name + ": " + f.value
  }

  lemma {:induction false} TokenHasNoColon(name: string)
    requires IsToken(Lower(name))
    ensures NoLineBreak(name) && ':' !in name
  {
    forall i | 0 <= i < |name|
      ensures name[i] != '\r' && name[i] != '\n' && name[i] != ':'
    {
      assert IsTchar(Lower(name)[i]);
    }
  }

  /** Reading back a printed field. */
  lemma {:induction false} FieldOfLine(f: Printed)
    requires Printable(f)
    ensures NoLineBreak(Line(f)) && Field(Line(f)) == Some((Lower(f.name), f.value))
  {
    hide FindChar, Lower, Trim;
    LineSplits(f);
    TrimLeadingBlank(f.value);
  }

  lemma {:induction false} LineSplits(f: Printed)
    requires Printable(f)
    ensures FindChar(Line(f), ':', 0) == Some(|f.name|)
    ensures Line(f)[..|f.name|] == f.name && Line(f)[|f.name| + 1..] == " " + f.value
  {
    TokenHasNoColon(f.name);
    var line := Line(f);
    assert line[|f.name|] == ':' && forall j :: 0 <= j < |f.name| ==> line[j] == f.name[j];
    FindCharIsFirst(line, ':', 0, |f.name|);
  }

  function Block(fields: seq<Printed>): (s: string) {
    if fields == [] then "" else Line(fields[0]) + "\r\n" + Block(fields[1..])
  }

  /** The header map after storing the fields one by one. */
  function Stored(h: map<string, string>, fields: seq<Printed>): (h': map<string, string>)
    decreases |fields|
  {
    if fields == [] then h else Stored(h[Lower(fields[0].name) := fields[0].value], fields[1..])
  }

  /** No field repeats or contradicts the body framing. */
  predicate NoConflicts(h: map<string, string>, fields: seq<Printed>)
    decreases |fields|
  {
    fields == [] ||
    (FramingConflict(h, Lower(fields[0].name)) == NONE &&
     NoConflicts(h[Lower(fields[0].name) := fields[0].value], fields[1..]))
  }

  predicate LinesFit(fields: seq<Printed>) {
    forall i :: 0 <= i < |fields| ==> Printable(fields[i]) && |Line(fields[i])| <= MAX_HEADER_LINE_SIZE
  }

  lemma {:induction false} LineEndRun(m: Machine)
    requires m.state == HEADER && m.buffer != "" && !m.crSeen && m.headersRead + 2 <= MAX_HEADERS_SIZE
    requires HeaderLine(m.(headersRead := m.headersRead + 2)).More?
    ensures Leads(m, "\r\n", HeaderLine(m.(headersRead := m.headersRead + 2)).m)
  {
    TwoBytes(m, '\r', '\n', "\r\n", "");
  }

  /** One printed header line is read and stored. */
  lemma {:induction false} FieldRun(m: Machine, f: Printed)
    requires m.state == HEADER && m.buffer == "" && !m.crSeen
    requires Printable(f) && |Line(f)| <= MAX_HEADER_LINE_SIZE
    requires m.headersRead + |Line(f)| + 2 <= MAX_HEADERS_SIZE
    requires FramingConflict(m.req.headers, Lower(f.name)) == NONE
    ensures Leads(m, Line(f) + "\r\n",
                  m.(headersRead := m.headersRead + |Line(f)| + 2,
                     req := m.req.(headers := m.req.headers[Lower(f.name) := f.value])))
  {
    hide Parse, Leads, Field, Step;
    var line := Line(f);
    FieldOfLine(f);
    HeaderRun(m, line);
    assert "" + line == line;
    var m1 := m.(buffer := line, headersRead := m.headersRead + |line|);
    LineEndRun(m1);
    LeadsTrans(m, line, m1, "\r\n", HeaderLine(m1.(headersRead := m1.headersRead + 2)).m);
  }

  /** A printed header block is read back field by field. */
  lemma {:induction false} BlockRun(m: Machine, fields: seq<Printed>)
    requires m.state == HEADER && m.buffer == "" && !m.crSeen
    requires LinesFit(fields) && m.headersRead + |Block(fields)| <= MAX_HEADERS_SIZE
    requires NoConflicts(m.req.headers, fields)
    ensures Leads(m, Block(fields),
                  m.(headersRead := m.headersRead + |Block(fields)|,
                     req := m.req.(headers := Stored(m.req.headers, fields))))
    decreases |fields|
  {
    hide Step;
    if fields != [] {
      var f, rest := fields[0], fields[1..];
      FieldRun(m, f);
      var m1 := m.(headersRead := m.headersRead + |Line(f)| + 2,
                   req := m.req.(headers := m.req.headers[Lower(f.name) := f.value]));
      BlockRun(m1, rest);
      LeadsTrans(m, Line(f) + "\r\n", m1, Block(rest),
                 m1.(headersRead := m1.headersRead + |Block(rest)|,
                     req := m1.req.(headers := Stored(m1.req.headers, rest))));
    }
  }

  /** The empty line: one CRLF hands over to `EndOfHeaders`. */
  lemma {:induction false} BlankLineRun(m: Machine, rest: string)
    requires m.state == HEADER && m.buffer == "" && !m.crSeen && m.headersRead + 2 <= MAX_HEADERS_SIZE
    ensures var e := EndOfHeaders(m.(headersRead := m.headersRead + 2));
            && (e.Accept? ==> Parse(m, "\r\n" + rest) == Run(Accepted, 2, e.m))
            && (e.Reject? ==> Parse(m, "\r\n" + rest) == Run(Rejected, 2, e.m))
            && (e.More? ==> Leads(m, "\r\n", e.m))
  {
    TwoBytes(m, '\r', '\n', "\r\n", rest);
  }

  /** The request line "VERB PATH HTTP/1.1", read into whatever `r` holds. */
  lemma {:induction false} RequestLineRun(r: Request, verb: string, path: string)
    requires LinePart(verb) && LinePart(path) && '?' !in path
    ensures Leads(Reset(r), verb + " " + path + " HTTP/1.1\r\n",
                  Reset(r.(verb := verb, path := path, version := "HTTP/1.1")).(state := HEADER))
  {
    hide Parse, Leads;
    var m, r1 := Reset(r), r.(verb := verb);
    var r2 := r1.(path := path);
    LineRun(m, verb);
    assert "" + verb == verb && "" + path == path;
    var a1 := m.(buffer := verb);
    var a2 := m.(state := PATH, req := r1);
    LeadsByte(a1, ' ');
    LeadsTrans(m, verb, a1, " ", a2);
    LineRun(a2, path);
    var a3 := a2.(buffer := path);
    LeadsTrans(m, verb + " ", a2, path, a3);
    var a4 := m.(state := VERSION, req := r2);
    LeadsByte(a3, ' ');
    LeadsTrans(m, verb + " " + path, a3, " ", a4);
    VersionRun(a4);
    LeadsTrans(m, verb + " " + path + " ", a4, "HTTP/1.1\r\n",
               m.(state := HEADER, req := r2.(version := "HTTP/1.1")));
    assert verb + " " + path + " " + "HTTP/1.1\r\n" == verb + " " + path + " HTTP/1.1\r\n";
  }

  lemma {:induction false} VersionRun(m: Machine)
    requires m.state == VERSION && m.buffer == "" && !m.crSeen
    ensures Leads(m, "HTTP/1.1\r\n", m.(state := HEADER, req := m.req.(version := "HTTP/1.1")))
  {
    hide Parse, Leads;
    LineRun(m, "HTTP/1.1");
    assert "" + "HTTP/1.1" == "HTTP/1.1";
    var m1 := m.(buffer := "HTTP/1.1");
    TwoBytes(m1, '\r', '\n', "\r\n", "");
    LeadsTrans(m, "HTTP/1.1", m1, "\r\n", m.(state := HEADER, req := m.req.(version := "HTTP/1.1")));
    assert "HTTP/1.1" + "\r\n" == "HTTP/1.1\r\n";
  }

  /** A counted body is taken to the byte, on top of what the object holds. */
  lemma {:induction false} TakesBody(m: Machine, data: string)
    requires m.state == BODY && m.bodyRead < m.contentLength <= MAX_BODY_SIZE
    ensures var missing := m.contentLength - m.bodyRead;
            var r := Parse(m, data);
            if |data| >= missing then
              r.outcome == Accepted && r.consumed == missing && r.m.req == m.req.(body := m.req.body + data[..missing])
            else r.outcome == Pending
    decreases |data|
  {
    if data != "" {
      var next := Step(m, data[0]);
      if next.More? {
        TakesBody(next.m, data[1..]);
        var missing := m.contentLength - m.bodyRead;
        if |data| >= missing {
          assert m.req.body + [data[0]] + data[1..][..missing - 1] == m.req.body + data[..missing];
        }
      } else {
        assert [data[0]] == data[..1];
      }
    }
  }
}
