/** Case-insensitive lookup of one field in the raw header block of a response. */
module HeaderLookup {
  import opened Bytes
  import T = ConnectionTokens

  /** Start of the first header line. Without any CRLF the source's `npos + 2`
      wraps around to 1. */
  function FirstLine(headers: string): (pos: nat) {
    match FindCrlf(headers, 0)
    case Some(i) => i + 2
    case None => 1
  }

  function LineEnd(headers: string, pos: nat): (end: nat)
    requires pos <= |headers|
    ensures pos <= end <= |headers|
  {
    match FindCrlf(headers, pos)
    case Some(i) => i
    case None => |headers|
  }

  /** The line `headers[pos..end]` carries the field `name`; the value starts behind the colon. */
  predicate NamesField(line: string, name: string) {
    |name| < |line| && line[|name|] == ':' && ColonFree(line, |name|) && Lower(line[..|name|]) == name
  }

  predicate ColonFree(line: string, n: nat)
    requires n <= |line|
  {
    forall i :: 0 <= i < n ==> line[i] != ':'
  }

  /** The value of `name` if this line carries it. */
  function Hit(line: string, name: string): (v: Option<string>) {
    if NamesField(line, name) then Some(Lower(Trim(line[|name| + 1..]))) else None
  }

  /** The lower-cased value of the first line from `pos` on that carries `name`. */
  function LookupFrom(headers: string, name: string, pos: nat): (v: string)
    decreases |headers| - pos
  {
    if pos >= |headers| then ""
    else
      match Hit(headers[pos..LineEnd(headers, pos)], name)
      case Some(v) => v
      case None =>
        if FindCrlf(headers, pos).None? then "" else LookupFrom(headers, name, LineEnd(headers, pos) + 2)
  }

  /** `find_header_value`. */
  function HeaderValue(headers: string, name: string): (v: string) {
    LookupFrom(headers, name, FirstLine(headers))
  }

  /** The in-place, case-insensitive comparison of a field name. */
  method NameMatches(headers: string, start: nat, name: string) returns (same: bool)
    requires start + |name| <= |headers|
    ensures same == (Lower(headers[start..start + |name|]) == name)
  {
    var i := 0;
    while i < |name|
      invariant 0 <= i <= |name|
      invariant forall j :: 0 <= j < i ==> LowerChar(headers[start + j]) == name[j]
    {
      if LowerChar(headers[start + i]) != name[i] {
        assert Lower(headers[start..start + |name|])[i] != name[i];
        return false;
      }
      i := i + 1;
    }
    return true;
  }

  lemma {:induction false} ColonDecides(headers: string, pos: nat, name: string)
    requires pos < |headers|
    ensures var end := LineEnd(headers, pos);
            var colon := FindChar(headers, ':', pos);
            NamesField(headers[pos..end], name) <==>
            colon.Some? && colon.value < end && colon.value - pos == |name| &&
            Lower(headers[pos..pos + |name|]) == name
  {
    var end := LineEnd(headers, pos);
    var line := headers[pos..end];
    var colon := FindChar(headers, ':', pos);
    if |name| < |line| {
      assert line[..|name|] == headers[pos..pos + |name|];
      assert line[|name|] == headers[pos + |name|];
      if line[|name|] == ':' {
        FindCharIsFirst(headers, ':', pos, pos + |name|);
        if colon.value < pos + |name| {
          assert line[colon.value - pos] == ':';
        }
        forall j | 0 <= j < |name| && colon.value == pos + |name|
          ensures line[j] != ':'
        {
          if headers[pos + j] == ':' {
            FindCharIsFirst(headers, ':', pos, pos + j);
          }
        }
      }
    }
  }

  /** One header line of the lookup. */
  method MatchLine(headers: string, pos: nat, end: nat, name: string) returns (hit: Option<string>)
    requires pos < |headers| && end == LineEnd(headers, pos)
    ensures hit == Hit(headers[pos..end], name)
  {
    ColonDecides(headers, pos, name);
    var colon := FindChar(headers, ':', pos);
    if colon.Some? && colon.value < end && colon.value - pos == |name| {
      var same := NameMatches(headers, pos, name);
      if same {
        assert headers[pos..end][|name| + 1..] == headers[colon.value + 1..end];
        return Some(Lower(Trim(headers[colon.value + 1..end])));
      }
    }
    return None;
  }

  method FindHeaderValue(headers: string, name: string) returns (value: string)
    ensures value == HeaderValue(headers, name)
  {
    hide Hit;
    var lineStart := FirstLine(headers);
    while lineStart < |headers|
      invariant HeaderValue(headers, name) == LookupFrom(headers, name, lineStart)
      decreases |headers| - lineStart
    {
      var lineEnd := FindCrlf(headers, lineStart);
      var fieldEnd := LineEnd(headers, lineStart);
      var hit := MatchLine(headers, lineStart, fieldEnd, name);
      if hit.Some? {
        return hit.value;
      }
      if lineEnd.None? {
        break;
      }
      lineStart := lineEnd.value + 2;
    }
    return "";
  }

  /** The status line and the header lines as they were sent. */
  function Joined(lines: seq<string>): (s: string) {
    if lines == [] then "" else if |lines| == 1 then lines[0] else lines[0] + "\r\n" + Joined(lines[1..])
  }

  predicate CrlfFree(s: string) {
    forall i :: 0 <= i < |s| ==> !Crlf(s, i)
  }

  /** The value on the first line that carries the field. */
  function FirstMatch(lines: seq<string>, name: string): (v: string) {
    if lines == [] then ""
    else
      match Hit(lines[0], name)
      case Some(v) => v
      case None => FirstMatch(lines[1..], name)
  }

  lemma {:induction false} LineOfJoined(before: string, line: string, after: string)
    requires CrlfFree(line)
    ensures FindCrlf(before + line + "\r\n" + after, |before|) == Some(|before| + |line|)
  {
    var s := before + line + "\r\n" + after;
    var i := |before| + |line|;
    assert s[i] == '\r' && s[i + 1] == '\n';
    forall j | |before| <= j < i
      ensures !Crlf(s, j)
    {
      assert s[j] == line[j - |before|];
      assert !Crlf(line, j - |before|);
      if j + 1 < i {
        assert s[j + 1] == line[j + 1 - |before|];
      }
    }
    FindCrlfAt(s, |before|, i);
  }

  lemma {:induction false} LastLineOfJoined(before: string, line: string)
    requires CrlfFree(line)
    ensures FindCrlf(before + line, |before|).None?
  {
    var s := before + line;
    if FindCrlf(s, |before|).Some? {
      var i := FindCrlf(s, |before|).value;
      assert Crlf(line, i - |before|) by {
        assert s[i] == line[i - |before|] && s[i + 1] == line[i + 1 - |before|];
      }
    }
  }

  lemma {:induction false} LookupLast(before: string, line: string, name: string)
    requires CrlfFree(line)
    ensures LookupFrom(before + line, name, |before|) == if Hit(line, name).Some? then Hit(line, name).value else ""
  {
    hide FindCrlf, CrlfFree;
    LastLineOfJoined(before, line);
    var s := before + line;
    assert s[|before|..|s|] == line;
    assert line == "" ==> Hit(line, name).None?;
  }

  lemma {:induction false} LookupStep(before: string, line: string, after: string, name: string, v: string)
    requires CrlfFree(line)
    requires var s := before + line + "\r\n" + after;
             v == if Hit(line, name).Some? then Hit(line, name).value else LookupFrom(s, name, |before| + |line| + 2)
    ensures LookupFrom(before + line + "\r\n" + after, name, |before|) == v
  {
    hide Hit, FindCrlf, CrlfFree;
    LineOfJoined(before, line, after);
    var s := before + line + "\r\n" + after;
    assert s[|before|..|before| + |line|] == line;
  }

  lemma {:induction false} JoinedCons(before: string, lines: seq<string>)
    requires |lines| > 1
    ensures before + Joined(lines) == before + lines[0] + "\r\n" + Joined(lines[1..])
  {
  }

  lemma {:induction false} LookupInLines(before: string, lines: seq<string>, name: string)
    requires forall i :: 0 <= i < |lines| ==> CrlfFree(lines[i])
    ensures LookupFrom(before + Joined(lines), name, |before|) == FirstMatch(lines, name)
    decreases |lines|
  {
    hide Hit, CrlfFree, FindCrlf, LineEnd;
    if lines == [] {
    } else if |lines| == 1 {
      LookupLast(before, lines[0], name);
      assert FirstMatch(lines[1..], name) == "";
    } else {
      var v := FirstMatch(lines, name);
      var line, after := lines[0], Joined(lines[1..]);
      LookupInLines(before + line + "\r\n", lines[1..], name);
      JoinedCons(before, lines);
      LookupStep(before, line, after, name, v);
    }
  }

  /** On a real header block the lookup is the first line that carries the field. */
  lemma {:induction false} HeaderValueIsFirstMatch(status: string, lines: seq<string>, name: string)
    requires CrlfFree(status) && lines != [] && forall i :: 0 <= i < |lines| ==> CrlfFree(lines[i])
    ensures HeaderValue(status + "\r\n" + Joined(lines), name) == FirstMatch(lines, name)
  {
    LineOfJoined("", status, Joined(lines));
    assert "" + status + "\r\n" + Joined(lines) == status + "\r\n" + Joined(lines);
    LookupInLines(status + "\r\n", lines, name);
  }

  /** A line carries a field exactly if the text before its first colon is the name,
      in any case. */
  lemma {:induction false} HitIff(line: string, name: string)
    ensures Hit(line, name).Some? <==>
            exists i | 0 <= i < |line| :: line[i] == ':' && ColonFree(line, i) && Lower(line[..i]) == name
  {
    if i :| 0 <= i < |line| && line[i] == ':' && ColonFree(line, i) && Lower(line[..i]) == name {
      assert i == |name|;
    }
    if Hit(line, name).Some? {
      assert line[|name|] == ':' && ColonFree(line, |name|);
    }
  }

  /** Without any header line the lookup starts behind the first byte of the status
      line, and finds nothing in a line without a colon. */
  lemma {:induction false} NoLines(status: string, name: string)
    requires CrlfFree(status)
    ensures HeaderValue(status, name) == if |status| > 1 && Hit(status[1..], name).Some? then Hit(status[1..], name).value else ""
    ensures ColonFree(status, |status|) ==> HeaderValue(status, name) == ""
  {
    NoCrlf(status, 0);
    NoCrlf(status, 1);
    assert |status| > 1 ==> status[1..|status|] == status[1..];
  }

  lemma {:induction false} NoCrlf(s: string, from: nat)
    requires CrlfFree(s)
    ensures FindCrlf(s, from) == None
  {
  }

  /** The value it carries is what stands behind the colon, in lower case and without
      the blanks around it. */
  lemma {:induction false} HitValue(written: string, before: string, value: string, behind: string)
    requires ColonFree(written, |written|) && Trimmed(value)
    requires (forall i :: 0 <= i < |before| ==> before[i] == ' ' || before[i] == '\t')
    requires (forall i :: 0 <= i < |behind| ==> behind[i] == ' ' || behind[i] == '\t')
    ensures Hit(written + ":" + (before + value + behind), Lower(written)) == Some(Lower(value))
  {
    var line, rest := written + ":" + (before + value + behind), before + value + behind;
    assert line[..|written|] == written && line[|written| + 1..] == rest;
    assert forall i :: 0 <= i < |written| ==> line[i] == written[i];
    if value == "" {
      T.TrimIsUnique(rest, |before|, |before|);
    } else {
      assert rest[|before|] == value[0] && rest[|before| + |value| - 1] == value[|value| - 1];
      T.TrimIsUnique(rest, |before|, |before| + |value|);
    }
    assert rest[|before|..|before| + |value|] == value;
  }
}
