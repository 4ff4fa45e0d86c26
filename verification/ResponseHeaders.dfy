/** The header map taken from the raw head of a backend response. */
module ResponseHeaders {
  import opened Bytes
  import opened HeaderLookup

  /** The name before the first colon, the rest trimmed; a line without a colon is
      passed over and a repeated name replaces the earlier value. */
  function Store(h: map<string, string>, line: string): (r: map<string, string>) {
    match FindChar(line, ':', 0)
    case None => h
    case Some(colon) => h[line[..colon] := Trim(line[colon + 1..])]
  }

  function MapFrom(head: string, pos: nat, h: map<string, string>): (r: map<string, string>)
    decreases |head| - pos
  {
    if pos >= |head| then h
    else
      var h' := Store(h, head[pos..LineEnd(head, pos)]);
      if FindCrlf(head, pos).None? then h' else MapFrom(head, LineEnd(head, pos) + 2, h')
  }

  function HeaderMap(head: string): (h: map<string, string>) {
    MapFrom(head, FirstLine(head), map[])
  }

  /** The header loop of a successful exchange. */
  method ReadHeaders(head: string) returns (h: map<string, string>)
    ensures h == HeaderMap(head)
  {
    h := map[];
    var start := FirstLine(head);
    while start < |head|
      invariant HeaderMap(head) == MapFrom(head, start, h)
      decreases |head| - start
    {
      var end := FindCrlf(head, start);
      var line := head[start..if end.Some? then end.value else |head|];
      var colon := FindChar(line, ':', 0);
      if colon.Some? {
        h := h[line[..colon.value] := Trim(line[colon.value + 1..])];
      }
      if end.None? {
        return;
      }
      start := end.value + 2;
    }
  }

  // ------------------------------------------------------------- on real lines

  function StoreAll(h: map<string, string>, lines: seq<string>): (r: map<string, string>)
    decreases |lines|
  {
    if lines == [] then h else StoreAll(Store(h, lines[0]), lines[1..])
  }

  lemma {:induction false} MapInLines(before: string, lines: seq<string>, h: map<string, string>)
    requires forall i :: 0 <= i < |lines| ==> CrlfFree(lines[i]) && lines[i] != ""
    ensures MapFrom(before + Joined(lines), |before|, h) == StoreAll(h, lines)
    decreases |lines|
  {
    hide CrlfFree, FindCrlf, Store;
    if lines == [] {
    } else if |lines| == 1 {
      var s := before + lines[0];
      LastLineOfJoined(before, lines[0]);
      assert s[|before|..|s|] == lines[0];
    } else {
      var line, rest := lines[0], lines[1..];
      var s := before + line + "\r\n" + Joined(rest);
      JoinedCons(before, lines);
      LineOfJoined(before, line, Joined(rest));
      assert s[|before|..|before| + |line|] == line;
      MapInLines(before + line + "\r\n", rest, Store(h, line));
    }
  }

  /** On a real header block the map is that of the lines, one after the other. */
  lemma {:induction false} HeaderMapIsLines(status: string, lines: seq<string>)
    requires CrlfFree(status) && lines != [] && forall i :: 0 <= i < |lines| ==> CrlfFree(lines[i]) && lines[i] != ""
    ensures HeaderMap(status + "\r\n" + Joined(lines)) == StoreAll(map[], lines)
  {
    LineOfJoined("", status, Joined(lines));
    assert "" + status + "\r\n" + Joined(lines) == status + "\r\n" + Joined(lines);
    MapInLines(status + "\r\n", lines, map[]);
  }

  /** Without any header line the loop starts behind the first byte of the status line. */
  lemma {:induction false} MapWithoutLines(status: string)
    requires CrlfFree(status)
    ensures HeaderMap(status) == if |status| > 1 then Store(map[], status[1..]) else map[]
    ensures ColonFree(status, |status|) ==> HeaderMap(status) == map[]
  {
    NoCrlf(status, 0);
    NoCrlf(status, 1);
    assert |status| > 1 ==> status[1..|status|] == status[1..];
  }

  predicate Names(line: string, key: string) {
    FindChar(line, ':', 0).Some? && line[..FindChar(line, ':', 0).value] == key
  }

  lemma {:induction false} StoredLater(h: map<string, string>, lines: seq<string>, key: string)
    requires forall i :: 0 <= i < |lines| ==> !Names(lines[i], key)
    ensures key in StoreAll(h, lines) <==> key in h
    ensures key in h ==> StoreAll(h, lines)[key] == h[key]
    decreases |lines|
  {
    if lines != [] {
      assert !Names(lines[0], key);
      StoredLater(Store(h, lines[0]), lines[1..], key);
    }
  }

  /** A field has the trimmed value of the last line that names it. */
  lemma {:induction false} LastLineWins(h: map<string, string>, lines: seq<string>, k: nat, key: string)
    requires k < |lines| && Names(lines[k], key) && forall i :: k < i < |lines| ==> !Names(lines[i], key)
    ensures key in StoreAll(h, lines)
    ensures StoreAll(h, lines)[key] == Trim(lines[k][FindChar(lines[k], ':', 0).value + 1..])
    decreases |lines|
  {
    if k == 0 {
      forall i | 0 <= i < |lines[1..]|
        ensures !Names(lines[1..][i], key)
      {
        assert !Names(lines[i + 1], key);
      }
      StoredLater(Store(h, lines[0]), lines[1..], key);
    } else {
      forall i | k - 1 < i < |lines[1..]|
        ensures !Names(lines[1..][i], key)
      {
        assert !Names(lines[i + 1], key);
      }
      LastLineWins(Store(h, lines[0]), lines[1..], k - 1, key);
    }
  }
}
