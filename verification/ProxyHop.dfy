/** The request as it leaves for the backend: `build_request` drops hop-by-hop and
    Connection-named fields, writes a new Host and re-frames the body with
    Content-Length (section 6.1 of RFC 7230). Reading the result back gives the
    same request, minus exactly those fields. */
module ProxyHop {
  import opened Bytes
  import opened ParserMachine
  import opened ParserLimits
  import opened ParserRuns
  import ConnectionTokens

  datatype Params = Params(
    host: string, port: nat, verb: string, path: string, headers: map<string, string>, body: string)

  const HOP_BY_HOP: set<string> := {
    "connection", "keep-alive", "proxy-authenticate", "proxy-authorization", "proxy-connection", "te", "trailer",
    "transfer-encoding", "upgrade", "host", "content-length"
  }

  // ------------------------------------------------------------- the printer

  /** Lower-cased names that are not passed on. */
  function Dropped(p: Params): (names: set<string>) {
    HOP_BY_HOP + ConnectionTokens.Named(p.headers)
  }

  /** The fields kept from the client, in the order the header map is walked. */
  function Kept(headers: map<string, string>, drop: set<string>, order: seq<string>): (fields: seq<Printed>)
    requires forall k :: k in order ==> k in headers
  {
    if order == [] then []
    else
      (if Lower(order[0]) in drop then [] else [Printed(order[0], headers[order[0]])]) + Kept(headers, drop, order[1..])
  }

  predicate NeedsContentLength(p: Params) {
    p.body != "" || CONTENT_LENGTH in p.headers || TRANSFER_ENCODING in p.headers
  }

  function HostValue(p: Params): (s: string) {
    p.host + ":" + Decimal(p.port)
  }

  function HostField(p: Params): (f: Printed) {
    Printed("Host", HostValue(p))
  }

  function LengthField(p: Params): (f: Printed) {
    Printed("Content-Length", Decimal(|p.body|))
  }

  function Fields(p: Params, order: seq<string>): (fields: seq<Printed>)
    requires forall k :: k in order ==> k in p.headers
  {
    [HostField(p)] + Kept(p.headers, Dropped(p), order) +
    (if NeedsContentLength(p) then [LengthField(p)] else [])
  }

  function StartLine(p: Params): (s: string) {
    p.verb + " " + p.path + " HTTP/1.1\r\n"
  }

  /** The bytes sent to the backend. */
  function Image(p: Params, order: seq<string>): (s: string)
    requires forall k :: k in order ==> k in p.headers
  {
    StartLine(p) + Block(Fields(p, order)) + "\r\n" + p.body
  }

  lemma {:induction false} BlockAppend(a: seq<Printed>, b: seq<Printed>)
    ensures Block(a + b) == Block(a) + Block(b)
  {
    if a == [] {
      assert a + b == b;
    } else {
      assert (a + b)[1..] == a[1..] + b;
      BlockAppend(a[1..], b);
      var line := Line(a[0]) + "\r\n";
      assert line + (Block(a[1..]) + Block(b)) == line + Block(a[1..]) + Block(b);
    }
  }

  lemma {:induction false} BlockOne(f: Printed)
    ensures Block([f]) == Line(f) + "\r\n"
  {
    assert [f][1..] == [];
    assert Block([f][1..]) == "";
  }

  lemma {:induction false} KeptAppend(headers: map<string, string>, drop: set<string>, a: seq<string>, k: string)
    requires k in headers && forall x :: x in a ==> x in headers
    ensures forall x :: x in a + [k] ==> x in headers
    ensures Kept(headers, drop, a + [k]) ==
            Kept(headers, drop, a) + (if Lower(k) in drop then [] else [Printed(k, headers[k])])
  {
    if a == [] {
      assert a + [k] == [k];
      assert Kept(headers, drop, [k][1..]) == [];
    } else {
      assert (a + [k])[1..] == a[1..] + [k];
      KeptAppend(headers, drop, a[1..], k);
    }
  }

  /** The header loop of `build_request`. */
  method PrintKept(headers: map<string, string>, drop: set<string>, order: seq<string>) returns (bytes: string)
    requires forall k :: k in order ==> k in headers
    ensures bytes == Block(Kept(headers, drop, order))
  {
    bytes := "";
    var i := 0;
    while i < |order|
      invariant 0 <= i <= |order|
      invariant bytes == Block(Kept(headers, drop, order[..i]))
    {
      var k := order[i];
      assert order[..i + 1] == order[..i] + [k];
      KeptAppend(headers, drop, order[..i], k);
      BlockAppend(Kept(headers, drop, order[..i]), [Printed(k, headers[k])]);
      BlockOne(Printed(k, headers[k]));
      if Lower(k) in drop {
        assert Kept(headers, drop, order[..i + 1]) == Kept(headers, drop, order[..i]);
      } else {
        bytes := bytes + (k + ": " + headers[k] + "\r\n");
      }
      i := i + 1;
    }
    assert order[..i] == order;
  }

  /** `build_request`: the header map is walked in some `order` of its keys. */
  method BuildRequest(p: Params, order: seq<string>) returns (bytes: string)
    requires forall k :: k in order ==> k in p.headers
    ensures bytes == Image(p, order)
  {
    var tokens := ConnectionTokens.Collect(p.headers);
    var host := "Host" + ": " + HostValue(p) + "\r\n";
    var kept := PrintKept(p.headers, HOP_BY_HOP + tokens, order);
    var length := "";
    if p.body != "" || CONTENT_LENGTH in p.headers || TRANSFER_ENCODING in p.headers {
      length := "Content-Length" + ": " + Decimal(|p.body|) + "\r\n";
    }
    BlockOfFields(p, order);
    bytes := StartLine(p) + (host + kept + length) + "\r\n" + p.body;
  }

  lemma {:induction false} BlockOfFields(p: Params, order: seq<string>)
    requires forall k :: k in order ==> k in p.headers
    ensures Block(Fields(p, order)) ==
            Line(HostField(p)) + "\r\n" + Block(Kept(p.headers, Dropped(p), order)) +
            (if NeedsContentLength(p) then Line(LengthField(p)) + "\r\n" else "")
  {
    var kept := Kept(p.headers, Dropped(p), order);
    var length := if NeedsContentLength(p) then [LengthField(p)] else [];
    BlockAppend([HostField(p)] + kept, length);
    BlockAppend([HostField(p)], kept);
    BlockOne(HostField(p));
    BlockOne(LengthField(p));
  }

  // -------------------------------------------------------------- round trip

  /** The entries whose name is not dropped. */
  function Surviving(headers: map<string, string>, drop: set<string>): (h: map<string, string>) {
    map k | k in headers && Lower(k) !in drop :: headers[k]
  }

  function WithHost(p: Params): (h: map<string, string>) {
    Surviving(p.headers, Dropped(p)) + map["host" := HostValue(p)]
  }

  /** The headers the backend must see: the client's, minus hop-by-hop and
      Connection-named fields, plus the new Host and Content-Length. */
  function HopHeaders(p: Params): (h: map<string, string>) {
    WithHost(p) +
    (if NeedsContentLength(p) then map[CONTENT_LENGTH := Decimal(|p.body|)] else map[])
  }

  /** What the parser guarantees of a request, and a host that is a field value. */
  predicate Sendable(p: Params) {
    && LinePart(p.verb) && LinePart(p.path) && '?' !in p.path
    && (forall k :: k in p.headers ==> FieldOk(k, p.headers[k]))
    && |p.body| <= MAX_BODY_SIZE
    && IsFieldValue(p.host) && (p.host != "" ==> !Blank(p.host[0]))
  }

  /** The image stays within the receiving parser's header caps. */
  predicate FitsCaps(p: Params, order: seq<string>)
    requires forall k :: k in order ==> k in p.headers
  {
    var fields := Fields(p, order);
    && (forall i :: 0 <= i < |fields| ==> |Line(fields[i])| <= MAX_HEADER_LINE_SIZE)
    && |Block(fields)| + 2 <= MAX_HEADERS_SIZE
  }

  /** `order` walks every key of the header map. */
  predicate IsOrderOf(order: seq<string>, headers: map<string, string>) {
    (forall k :: k in order ==> k in headers) && (forall k :: k in headers ==> k in order)
  }

  lemma {:induction false} DigitsArePrintable(n: nat)
    ensures Trimmed(Decimal(n)) && IsFieldValue(Decimal(n))
  {
    assert IsDigit(Decimal(n)[0]) && IsDigit(Decimal(n)[|Decimal(n)| - 1]);
  }

  lemma {:induction false} HostIsPrintable(p: Params)
    requires Sendable(p)
    ensures Printable(HostField(p)) && Lower("Host") == "host"
  {
    DigitsArePrintable(p.port);
    var v := HostValue(p);
    assert v[|v| - 1] == Decimal(p.port)[|Decimal(p.port)| - 1];
    assert IsDigit(Decimal(p.port)[|Decimal(p.port)| - 1]);
    assert p.host == "" ==> v[0] == ':';
    assert Lower("Host") == "host";
  }

  lemma {:induction false} LengthIsPrintable(p: Params)
    ensures Printable(LengthField(p)) && Lower("Content-Length") == CONTENT_LENGTH
  {
    DigitsArePrintable(|p.body|);
    assert Lower("Content-Length") == "content-length";
  }

  lemma {:induction false} KeptPrintable(headers: map<string, string>, drop: set<string>, order: seq<string>)
    requires forall k :: k in headers ==> FieldOk(k, headers[k])
    requires forall k :: k in order ==> k in headers
    ensures forall i :: 0 <= i < |Kept(headers, drop, order)| ==> Printable(Kept(headers, drop, order)[i])
  {
    if order != [] {
      LowerIsLower(order[0]);
      KeptPrintable(headers, drop, order[1..]);
    }
  }

  lemma {:induction false} KeptHasNoConflicts(headers: map<string, string>, drop: set<string>, order: seq<string>, h: map<string, string>)
    requires forall k :: k in order ==> k in headers
    requires CONTENT_LENGTH in drop && TRANSFER_ENCODING in drop
    ensures NoConflicts(h, Kept(headers, drop, order))
    decreases |order|
  {
    if order != [] {
      var k, rest := order[0], order[1..];
      if Lower(k) in drop {
        assert Kept(headers, drop, order) == Kept(headers, drop, rest);
        KeptHasNoConflicts(headers, drop, rest, h);
      } else {
        assert Kept(headers, drop, order)[1..] == Kept(headers, drop, rest);
        KeptHasNoConflicts(headers, drop, rest, h[Lower(k) := headers[k]]);
      }
    }
  }

  /** The entries of `Surviving` reached by the keys walked so far. */
  function Walked(headers: map<string, string>, drop: set<string>, order: seq<string>): (h: map<string, string>)
    requires forall k :: k in order ==> k in headers
  {
    map k | k in order && Lower(k) !in drop :: headers[k]
  }

  lemma {:induction false} WalkedCons(headers: map<string, string>, drop: set<string>, order: seq<string>, h: map<string, string>)
    requires order != [] && forall k :: k in order ==> k in headers
    ensures var k, rest := order[0], Walked(headers, drop, order[1..]);
            h + Walked(headers, drop, order) == if Lower(k) in drop then h + rest else h[k := headers[k]] + rest
  {
    assert forall x :: x in order <==> x == order[0] || x in order[1..];
  }

  /** Storing the kept fields adds exactly the surviving entries. */
  lemma {:induction false} KeptStored(headers: map<string, string>, drop: set<string>, order: seq<string>, h: map<string, string>)
    requires forall k :: k in order ==> k in headers && IsLower(k)
    ensures Stored(h, Kept(headers, drop, order)) == h + Walked(headers, drop, order)
    decreases |order|
  {
    if order != [] {
      var k, rest := order[0], order[1..];
      LowerIsLower(k);
      WalkedCons(headers, drop, order, h);
      if k in drop {
        assert Kept(headers, drop, order) == Kept(headers, drop, rest);
        KeptStored(headers, drop, rest, h);
      } else {
        assert Kept(headers, drop, order)[1..] == Kept(headers, drop, rest);
        KeptStored(headers, drop, rest, h[k := headers[k]]);
      }
    }
  }

  lemma {:induction false} StoredAppend(h: map<string, string>, a: seq<Printed>, b: seq<Printed>)
    requires NoConflicts(h, a) && NoConflicts(Stored(h, a), b)
    ensures NoConflicts(h, a + b) && Stored(h, a + b) == Stored(Stored(h, a), b)
    decreases |a|
  {
    if a == [] {
      assert a + b == b;
    } else {
      assert (a + b)[1..] == a[1..] + b;
      StoredAppend(h[Lower(a[0].name) := a[0].value], a[1..], b);
    }
  }

  lemma {:induction false} StoredOne(h: map<string, string>, f: Printed)
    requires FramingConflict(h, Lower(f.name)) == NONE
    ensures NoConflicts(h, [f]) && Stored(h, [f]) == h[Lower(f.name) := f.value]
  {
    assert [f][1..] == [];
    assert NoConflicts(h[Lower(f.name) := f.value], [f][1..]);
    assert Stored(h[Lower(f.name) := f.value], [f][1..]) == h[Lower(f.name) := f.value];
  }

  lemma {:induction false} DropsFraming(p: Params)
    ensures {"host", CONTENT_LENGTH, TRANSFER_ENCODING} <= Dropped(p)
  {
  }

  lemma {:induction false} SurvivorsAreOthers(p: Params, name: string)
    requires (forall k :: k in p.headers ==> FieldOk(k, p.headers[k])) && name in Dropped(p) && IsLower(name)
    ensures name !in Surviving(p.headers, Dropped(p))
  {
    LowerIsLower(name);
  }

  /** The only framing header that can leave the gateway is its own Content-Length. */
  lemma {:induction false} HopFraming(p: Params)
    requires Sendable(p)
    ensures TRANSFER_ENCODING !in WithHost(p) && CONTENT_LENGTH !in WithHost(p)
  {
    DropsFraming(p);
    SurvivorsAreOthers(p, CONTENT_LENGTH);
    SurvivorsAreOthers(p, TRANSFER_ENCODING);
  }

  /** Host first, then the survivors. */
  lemma {:induction false} HostAndKeptStored(p: Params, order: seq<string>)
    requires Sendable(p) && IsOrderOf(order, p.headers)
    ensures var fields := [HostField(p)] + Kept(p.headers, Dropped(p), order);
            && NoConflicts(map[], fields)
            && Stored(map[], fields) == WithHost(p)
  {
    hide Stored, NoConflicts, Kept, Dropped;
    HostIsPrintable(p);
    DropsFraming(p);
    StoredOne(map[], HostField(p));
    var h1: map<string, string> := map["host" := HostValue(p)];
    KeptHasNoConflicts(p.headers, Dropped(p), order, h1);
    KeptStored(p.headers, Dropped(p), order, h1);
    StoredAppend(map[], [HostField(p)], Kept(p.headers, Dropped(p), order));
    var survivors := Surviving(p.headers, Dropped(p));
    assert Walked(p.headers, Dropped(p), order) == survivors;
    SurvivorsAreOthers(p, "host");
    assert h1 + survivors == survivors + h1;
  }

  /** Reading the printed fields one by one yields `HopHeaders`. */
  lemma {:induction false} FieldsStored(p: Params, order: seq<string>)
    requires Sendable(p) && IsOrderOf(order, p.headers)
    ensures NoConflicts(map[], Fields(p, order)) && Stored(map[], Fields(p, order)) == HopHeaders(p)
  {
    hide Stored, NoConflicts, Kept, Dropped, Surviving;
    var front := [HostField(p)] + Kept(p.headers, Dropped(p), order);
    HostAndKeptStored(p, order);
    HopFraming(p);
    var h := WithHost(p);
    if NeedsContentLength(p) {
      LengthIsPrintable(p);
      StoredOne(h, LengthField(p));
      StoredAppend(map[], front, [LengthField(p)]);
      assert h[CONTENT_LENGTH := Decimal(|p.body|)] == h + map[CONTENT_LENGTH := Decimal(|p.body|)];
    } else {
      assert front + [] == front;
    }
  }

  lemma {:induction false} FieldsFit(p: Params, order: seq<string>)
    requires Sendable(p) && IsOrderOf(order, p.headers) && FitsCaps(p, order)
    ensures LinesFit(Fields(p, order))
  {
    HostIsPrintable(p);
    KeptPrintable(p.headers, Dropped(p), order);
    LengthIsPrintable(p);
  }

  /** Everything up to the empty line. */
  lemma {:induction false} HeadRun(p: Params, order: seq<string>)
    requires Sendable(p) && IsOrderOf(order, p.headers) && FitsCaps(p, order)
    ensures Leads(FRESH, StartLine(p) + Block(Fields(p, order)),
                  FRESH.(state := HEADER, headersRead := |Block(Fields(p, order))|,
                         req := Request(p.verb, p.path, "HTTP/1.1", "", HopHeaders(p), "")))
  {
    RequestLineRun(EMPTY_REQUEST, p.verb, p.path);
    FieldsStored(p, order);
    FieldsFit(p, order);
    var m := FRESH.(state := HEADER, req := Request(p.verb, p.path, "HTTP/1.1", "", map[], ""));
    BlockRun(m, Fields(p, order));
    LeadsTrans(FRESH, StartLine(p), m, Block(Fields(p, order)),
               m.(headersRead := |Block(Fields(p, order))|, req := m.req.(headers := HopHeaders(p))));
  }

  /** The body framing selected for the forwarded headers. */
  lemma {:induction false} HopBodyFraming(p: Params, m: Machine)
    requires Sendable(p) && m.req.headers == HopHeaders(p)
    ensures EndOfHeaders(m) ==
            if !NeedsContentLength(p) then Accept(m.(state := DONE))
            else if p.body == "" then Accept(m.(contentLength := 0, state := DONE))
            else More(m.(contentLength := |p.body|, bodyRead := 0, state := BODY))
  {
    HopFraming(p);
    DecimalRoundTrip(|p.body|);
    ScanDecimalExact(Decimal(|p.body|), 0);
  }

  /** From the empty line on: Content-Length, if there is one, is exactly the body. */
  lemma {:induction false} TailRun(p: Params, m: Machine)
    requires Sendable(p) && Inv(m) && m.req.headers == HopHeaders(p)
    requires m.state == HEADER && m.buffer == "" && !m.crSeen && m.headersRead + 2 <= MAX_HEADERS_SIZE
    ensures var r := Parse(m, "\r\n" + p.body);
            r.outcome == Accepted && r.consumed == 2 + |p.body| && r.m.req == m.req.(body := p.body)
  {
    var m2 := m.(headersRead := m.headersRead + 2);
    var e := EndOfHeaders(m2);
    BlankLineRun(m, p.body);
    HopBodyFraming(p, m2);
    if e.More? {
      EndOfHeadersFine(m2);
      LeadsThen(m, "\r\n", e.m, p.body);
      BodyPhase(e.m, p.body);
      assert "" + p.body[..|p.body|] == p.body;
    }
  }

  lemma {:induction false} InvOfFresh()
    ensures Inv(FRESH)
  {
  }

  /** Round trip: the receiving parser accepts at the last byte and returns the
      same verb, path and body with exactly `HopHeaders`. */
  lemma {:induction false} HopRoundTrip(p: Params, order: seq<string>)
    requires Sendable(p) && IsOrderOf(order, p.headers) && FitsCaps(p, order)
    ensures var r := Parse(FRESH, Image(p, order));
            && r.outcome == Accepted
            && r.consumed == |Image(p, order)|
            && r.m.req == Request(p.verb, p.path, "HTTP/1.1", "", HopHeaders(p), p.body)
  {
    hide Step, Inv, Block, Fields, HopHeaders, StartLine;
    HeadRun(p, order);
    InvOfFresh();
    var head := StartLine(p) + Block(Fields(p, order));
    var m := FRESH.(state := HEADER, headersRead := |Block(Fields(p, order))|,
                    req := Request(p.verb, p.path, "HTTP/1.1", "", HopHeaders(p), ""));
    ParseFine(FRESH, head);
    TailRun(p, m);
    LeadsThen(FRESH, head, m, "\r\n" + p.body);
    assert head + ("\r\n" + p.body) == Image(p, order);
  }

  // ------------------------------------------------- the forwarded fields, named

  /** Fields between a client and the gateway only. */
  predicate HopOnly(name: string) {
    || name == "connection" || name == "keep-alive" || name == "proxy-authenticate" || name == "proxy-authorization"
    || name == "proxy-connection" || name == "te" || name == "trailer" || name == "transfer-encoding" || name == "upgrade"
  }

  /** What the backend finds under `name`, given the fields, body and address the
      gateway has: its own Host; a Content-Length exactly for a body or where the
      client announced one; and every other field of the client, unless it is
      hop-by-hop or listed in the Connection header. */
  function FieldAtBackend(headers: map<string, string>, body: string, host: string, port: nat, name: string): (v: Option<string>) {
    if name == "host" then Some(host + ":" + Decimal(port))
    else if name == "content-length" then
      if body != "" || "content-length" in headers || "transfer-encoding" in headers then Some(Decimal(|body|)) else None
    else if name !in headers || HopOnly(name) then None
    else if "connection" in headers && ConnectionTokens.Lists(headers["connection"], name) then None
    else Some(headers[name])
  }

  /** `h` holds under `name` what the backend is to find there. */
  predicate AtBackend(headers: map<string, string>, body: string, host: string, port: nat, h: map<string, string>, name: string) {
    var v := FieldAtBackend(headers, body, host, port, name);
    (name in h <==> v.Some?) && (v.Some? ==> h[name] == v.value)
  }

  lemma {:induction false} TokenIsName(name: string, value: string)
    requires FieldOk(name, value)
    ensures ConnectionTokens.NameOk(name) && Lower(name) == name
  {
    LowerIsLower(name);
    assert IsTchar(name[0]) && IsTchar(name[|name| - 1]);
    forall i | 0 <= i < |name|
      ensures name[i] != ','
    {
      assert IsTchar(name[i]);
    }
  }

  lemma {:induction false} DroppedIff(p: Params, name: string)
    requires name in p.headers && FieldOk(name, p.headers[name])
    ensures Lower(name) == name
    ensures name != "host" && name != "content-length" ==>
              (name in Dropped(p) <==>
                 HopOnly(name) || ("connection" in p.headers && ConnectionTokens.Lists(p.headers["connection"], name)))
  {
    hide ConnectionTokens.Named, ConnectionTokens.Lists;
    TokenIsName(name, p.headers[name]);
    ConnectionTokens.NamedIff(p.headers, name);
  }

  lemma {:induction false} HopHeaderIs(p: Params, name: string)
    requires forall k :: k in p.headers ==> FieldOk(k, p.headers[k])
    ensures var v := FieldAtBackend(p.headers, p.body, p.host, p.port, name);
            (name in HopHeaders(p) <==> v.Some?) && (v.Some? ==> HopHeaders(p)[name] == v.value)
  {
    hide Dropped, HopOnly, ConnectionTokens.Lists, Decimal;
    if name in p.headers {
      DroppedIff(p, name);
    }
  }

  /** Field by field, what the backend's parser finds: this and nothing else. */
  lemma {:induction false} ForwardedFields(p: Params, order: seq<string>, name: string)
    requires Sendable(p) && IsOrderOf(order, p.headers) && FitsCaps(p, order)
    ensures var h := Parse(FRESH, Image(p, order)).m.req.headers;
            AtBackend(p.headers, p.body, p.host, p.port, h, name)
  {
    hide Parse, Image, FieldAtBackend, HopHeaders, FitsCaps;
    HopRoundTrip(p, order);
    HopHeaderIs(p, name);
  }

  /** The proxy hop, exactly: whatever request the gateway's parser accepted, what
      is forwarded and parsed again is that request with the hop's own header
      fields, version 1.1 and no query string. So a hop changes nothing but header
      fields if and only if the request had no query and was of version 1.1. The
      fields are those of `FieldAtBackend`, name by name. */
  lemma {:induction false} ProxyHopPreservesRequest(wire: string, host: string, port: nat, order: seq<string>)
    requires Parse(FRESH, wire).outcome == Accepted
    requires IsFieldValue(host) && (host != "" ==> !Blank(host[0]))
    requires IsOrderOf(order, Parse(FRESH, wire).m.req.headers)
    requires var q := Parse(FRESH, wire).m.req; FitsCaps(Params(host, port, q.verb, q.path, q.headers, q.body), order)
    ensures var q := Parse(FRESH, wire).m.req;
            var p := Params(host, port, q.verb, q.path, q.headers, q.body);
            var r := Parse(FRESH, Image(p, order));
            && r.outcome == Accepted && r.consumed == |Image(p, order)|
            && r.m.req == q.(version := "HTTP/1.1", query := "", headers := HopHeaders(p))
            && (r.m.req == q.(version := "HTTP/1.1", headers := HopHeaders(p)) <==> q.query == "")
            && (r.m.req == q.(headers := HopHeaders(p)) <==> q.query == "" && q.version == "HTTP/1.1")
            && forall name :: AtBackend(q.headers, q.body, host, port, r.m.req.headers, name)
  {
    hide Parse, Image, HopHeaders, AtBackend, FitsCaps;
    EveryStreamKeepsTheLimits(wire);
    var q := Parse(FRESH, wire).m.req;
    var p := Params(host, port, q.verb, q.path, q.headers, q.body);
    HopRoundTrip(p, order);
    forall name
      ensures AtBackend(q.headers, q.body, host, port, HopHeaders(p), name)
    {
      ForwardedFields(p, order, name);
    }
  }

  // ---------------------------------------------------------- the query string

  function QueryLine(verb: string, path: string, query: string): (s: string) {
    verb + " " + path + "?" + query + " HTTP/1.1\r\n"
  }

  lemma {:induction false} TargetRun(verb: string, path: string, query: string)
    requires LinePart(verb) && LinePart(path) && '?' !in path && LinePart(query)
    ensures Leads(FRESH, verb + " " + path + "?" + query + " ",
                  FRESH.(state := VERSION, req := EMPTY_REQUEST.(verb := verb, path := path, query := query)))
  {
    hide Parse, Leads;
    var r1 := EMPTY_REQUEST.(verb := verb);
    var r2 := r1.(path := path);
    assert "" + verb == verb && "" + path == path && "" + query == query;
    LineRun(FRESH, verb);
    var a1 := FRESH.(buffer := verb);
    var a2 := FRESH.(state := PATH, req := r1);
    LeadsByte(a1, ' ');
    LeadsTrans(FRESH, verb, a1, " ", a2);
    LineRun(a2, path);
    var a3 := a2.(buffer := path);
    LeadsTrans(FRESH, verb + " ", a2, path, a3);
    var a4 := FRESH.(state := QUERY, req := r2);
    LeadsByte(a3, '?');
    LeadsTrans(FRESH, verb + " " + path, a3, "?", a4);
    LineRun(a4, query);
    var a5 := a4.(buffer := query);
    LeadsTrans(FRESH, verb + " " + path + "?", a4, query, a5);
    LeadsByte(a5, ' ');
    LeadsTrans(FRESH, verb + " " + path + "?" + query, a5, " ", FRESH.(state := VERSION, req := r2.(query := query)));
  }

  lemma {:induction false} QueryLineRun(verb: string, path: string, query: string)
    requires LinePart(verb) && LinePart(path) && '?' !in path && LinePart(query)
    ensures Leads(FRESH, QueryLine(verb, path, query),
                  FRESH.(state := HEADER, req := Request(verb, path, "HTTP/1.1", query, map[], "")))
  {
    hide Parse, Leads;
    TargetRun(verb, path, query);
    var m := FRESH.(state := VERSION, req := EMPTY_REQUEST.(verb := verb, path := path, query := query));
    VersionRun(m);
    var target := verb + " " + path + "?" + query;
    LeadsTrans(FRESH, target + " ", m, "HTTP/1.1\r\n", m.(state := HEADER, req := m.req.(version := "HTTP/1.1")));
    assert target + " " + "HTTP/1.1\r\n" == target + " HTTP/1.1\r\n";
  }

  lemma {:induction false} BareQueryIsAccepted(verb: string, path: string, query: string)
    requires LinePart(verb) && LinePart(path) && '?' !in path && LinePart(query)
    ensures var r := Parse(FRESH, QueryLine(verb, path, query) + "\r\n");
            r.outcome == Accepted && r.m.req == Request(verb, path, "HTTP/1.1", query, map[], "")
  {
    hide Parse, Leads, QueryLine;
    QueryLineRun(verb, path, query);
    var m := FRESH.(state := HEADER, req := Request(verb, path, "HTTP/1.1", query, map[], ""));
    BlankLineRun(m, "");
    assert "\r\n" + "" == "\r\n";
    LeadsThen(FRESH, QueryLine(verb, path, query), m, "\r\n");
  }

  /** Every query string is lost: the request is accepted with it, the backend
      receives the same request without it. */
  lemma {:induction false} QueryIsLost(verb: string, path: string, query: string, host: string, port: nat)
    requires LinePart(verb) && LinePart(path) && '?' !in path && LinePart(query)
    requires IsFieldValue(host) && (host != "" ==> !Blank(host[0]))
    requires FitsCaps(Params(host, port, verb, path, map[], ""), [])
    ensures var q := Parse(FRESH, QueryLine(verb, path, query) + "\r\n");
            q.outcome == Accepted && q.m.req.query == query
    ensures Parse(FRESH, Image(Params(host, port, verb, path, map[], ""), [])).m.req.query == ""
  {
    hide Parse, Image;
    BareQueryIsAccepted(verb, path, query);
    EveryStreamKeepsTheLimits(QueryLine(verb, path, query) + "\r\n");
    HopRoundTrip(Params(host, port, verb, path, map[], ""), []);
  }

  lemma {:induction false} BareFits(p: Params)
    requires p.headers == map[] && p.body == "" && |p.host| + |Decimal(p.port)| <= 1000
    ensures FitsCaps(p, [])
  {
    hide Decimal, Dropped;
    assert Fields(p, []) == [HostField(p)];
    BlockOne(HostField(p));
  }

  lemma {:induction false} BareWire()
    ensures QueryLine("GET", "/a", "x") + "\r\n" == "GET /a?x HTTP/1.1\r\n\r\n"
  {
  }

  /** For one: `GET /a?x HTTP/1.1` reaches the backend as `GET /a HTTP/1.1`. */
  lemma {:induction false} QueryIsLostHere()
    ensures QueryLine("GET", "/a", "x") + "\r\n" == "GET /a?x HTTP/1.1\r\n\r\n"
    ensures var q := Parse(FRESH, QueryLine("GET", "/a", "x") + "\r\n");
            q.outcome == Accepted && q.m.req.query == "x"
    ensures Parse(FRESH, Image(Params("h", 80, "GET", "/a", map[], ""), [])).m.req.query == ""
  {
    hide Parse, Image, FitsCaps, QueryLine;
    var p := Params("h", 80, "GET", "/a", map[], "");
    assert Decimal(80) == "80";
    BareFits(p);
    BareWire();
    QueryIsLost("GET", "/a", "x", "h", 80);
  }
}
