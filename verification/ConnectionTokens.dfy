/** Names listed in a Connection header: the comma-separated parts, trimmed and
    lower-cased, empty ones skipped (section 6.1 of RFC 7230). */
module ConnectionTokens {
  import opened Bytes

  function Join(parts: seq<string>): (s: string) {
    if parts == [] then "" else if |parts| == 1 then parts[0] else parts[0] + "," + Join(parts[1..])
  }

  /** The parts of `value[pos..]` between commas. */
  function Split(value: string, pos: nat): (parts: seq<string>)
    requires pos <= |value|
    decreases |value| - pos
  {
    match FindChar(value, ',', pos)
    case None => [value[pos..]]
    case Some(comma) => [value[pos..comma]] + Split(value, comma + 1)
  }

  predicate CommaFree(s: string) {
    forall i :: 0 <= i < |s| ==> s[i] != ','
  }

  /** Splitting is undone by joining with commas, and no part holds a comma. */
  lemma {:induction false} SplitJoins(value: string, pos: nat)
    requires pos <= |value|
    ensures Split(value, pos) != [] && Join(Split(value, pos)) == value[pos..]
    ensures forall i :: 0 <= i < |Split(value, pos)| ==> CommaFree(Split(value, pos)[i])
    decreases |value| - pos
  {
    hide FindChar;
    var found := FindChar(value, ',', pos);
    forall j | pos <= j < (if found.Some? then found.value else |value|)
      ensures value[j] != ','
    {
      if value[j] == ',' {
        FindCharIsFirst(value, ',', pos, j);
      }
    }
    if found.Some? {
      var head, rest := value[pos..found.value], Split(value, found.value + 1);
      SplitJoins(value, found.value + 1);
      assert CommaFree(head);
      assert ([head] + rest)[1..] == rest;
      assert value[pos..] == head + "," + value[found.value + 1..];
    }
  }

  function TokenOf(part: string): (token: set<string>) {
    if Trim(part) == "" then {} else {Lower(Trim(part))}
  }

  function TokensOf(parts: seq<string>): (tokens: set<string>) {
    if parts == [] then {} else TokenOf(parts[0]) + TokensOf(parts[1..])
  }

  /** The tokens are exactly the non-blank parts, trimmed and lower-cased. */
  lemma {:induction false} TokensAreTheParts(parts: seq<string>, t: string)
    ensures t in TokensOf(parts) <==> exists i :: 0 <= i < |parts| && t in TokenOf(parts[i])
  {
    if parts != [] {
      var rest := parts[1..];
      TokensAreTheParts(rest, t);
      assert forall i :: 0 <= i < |rest| ==> rest[i] == parts[i + 1];
      if i :| 0 <= i < |parts| && t in TokenOf(parts[i]) {
        assert i > 0 ==> t in TokenOf(rest[i - 1]);
      }
    }
  }

  /** The field names a client's Connection header declares hop-by-hop. */
  function Named(headers: map<string, string>): (tokens: set<string>) {
    if "connection" in headers then TokensOf(Split(headers["connection"], 0)) else {}
  }

  lemma {:induction false} TrimLeftDrops(s: string, b: nat)
    requires b <= |s| && (forall i :: 0 <= i < b ==> Blank(s[i])) && (b < |s| ==> !Blank(s[b]))
    ensures TrimLeft(s) == s[b..]
  {
    if b > 0 {
      assert Blank(s[0]);
      TrimLeftDrops(s[1..], b - 1);
      assert s[1..][b - 1..] == s[b..];
    }
  }

  lemma {:induction false} TrimRightDrops(s: string, e: nat)
    requires e <= |s| && (forall i :: e <= i < |s| ==> Blank(s[i])) && (e > 0 ==> !Blank(s[e - 1]))
    ensures TrimRight(s) == s[..e]
  {
    if e < |s| {
      assert Blank(s[|s| - 1]);
      TrimRightDrops(s[..|s| - 1], e);
      assert s[..|s| - 1][..e] == s[..e];
    }
  }

  /** Any way of cutting blanks off both ends down to non-blanks is `Trim`. */
  lemma {:induction false} TrimIsUnique(s: string, b: nat, e: nat)
    requires b <= e <= |s|
    requires forall i :: 0 <= i < b ==> Blank(s[i])
    requires forall i :: e <= i < |s| ==> Blank(s[i])
    requires b < e ==> !Blank(s[b]) && !Blank(s[e - 1])
    ensures Trim(s) == s[b..e]
  {
    if b < e {
      TrimLeftDrops(s, b);
      TrimRightDrops(s[b..], e - b);
      assert s[b..][..e - b] == s[b..e];
    } else {
      TrimLeftDrops(s, |s|);
    }
  }

  lemma {:induction false} RangeIsTrimmed(value: string, from: nat, to: nat, begin: nat, end: nat)
    requires from <= begin <= end <= to <= |value|
    requires forall i :: from <= i < begin ==> Blank(value[i])
    requires forall i :: end <= i < to ==> Blank(value[i])
    requires begin < end ==> !Blank(value[begin]) && !Blank(value[end - 1])
    ensures value[begin..end] == Trim(value[from..to])
  {
    var part := value[from..to];
    assert forall i :: 0 <= i < |part| ==> part[i] == value[from + i];
    TrimIsUnique(part, begin - from, end - from);
    assert part[begin - from..end - from] == value[begin..end];
  }

  /** The two cursor loops around one token. */
  method TrimRange(value: string, from: nat, to: nat) returns (begin: nat, end: nat)
    requires from <= to <= |value|
    ensures from <= begin <= end <= to
    ensures value[begin..end] == Trim(value[from..to])
  {
    begin, end := from, to;
    while begin < end && Blank(value[begin])
      invariant from <= begin <= end
      invariant forall i :: from <= i < begin ==> Blank(value[i])
    {
      begin := begin + 1;
    }
    while end > begin && Blank(value[end - 1])
      invariant begin <= end <= to
      invariant forall i :: end <= i < to ==> Blank(value[i])
    {
      end := end - 1;
    }
    RangeIsTrimmed(value, from, to, begin, end);
  }

  /** What is named from `pos` on; nothing past the end. */
  function TokensFrom(value: string, pos: nat): (tokens: set<string>) {
    if pos <= |value| then TokensOf(Split(value, pos)) else {}
  }

  /** Where the part that starts at `pos` ends. */
  function CommaAt(value: string, pos: nat): (comma: nat)
    requires pos <= |value|
    ensures pos <= comma <= |value|
  {
    match FindChar(value, ',', pos)
    case Some(comma) => comma
    case None => |value|
  }

  lemma {:induction false} TokensStep(value: string, pos: nat)
    requires pos <= |value|
    ensures var comma := CommaAt(value, pos);
            TokensFrom(value, pos) == TokenOf(value[pos..comma]) + TokensFrom(value, comma + 1)
  {
    var found := FindChar(value, ',', pos);
    var rest := if found.Some? then Split(value, found.value + 1) else [];
    assert Split(value, pos)[1..] == rest;
    assert found.None? ==> value[pos..|value|] == value[pos..];
    assert TokensOf(rest) == TokensFrom(value, CommaAt(value, pos) + 1);
    assert TokensOf(Split(value, pos)) == TokenOf(Split(value, pos)[0]) + TokensOf(Split(value, pos)[1..]);
  }

  method ReadToken(value: string, from: nat, to: nat) returns (token: set<string>)
    requires from <= to <= |value|
    ensures token == TokenOf(value[from..to])
  {
    var begin, end := TrimRange(value, from, to);
    ghost var trimmed := Trim(value[from..to]);
    assert |trimmed| == end - begin;
    if begin < end {
      return {Lower(value[begin..end])};
    }
    return {};
  }

  /** The hand-written comma split. */
  method CollectTokens(value: string) returns (tokens: set<string>)
    ensures tokens == TokensFrom(value, 0)
  {
    hide TokensOf, Split, TokenOf, CommaAt;
    tokens := {};
    var pos := 0;
    while pos <= |value|
      invariant 0 <= pos <= |value| + 1
      invariant TokensFrom(value, 0) == tokens + TokensFrom(value, pos)
    {
      var comma := CommaAt(value, pos);
      var token := ReadToken(value, pos, comma);
      TokensStep(value, pos);
      tokens, pos := tokens + token, comma + 1;
    }
  }

  method Collect(headers: map<string, string>) returns (tokens: set<string>)
    ensures tokens == Named(headers)
  {
    if "connection" !in headers {
      return {};
    }
    tokens := CollectTokens(headers["connection"]);
  }

  // ------------------------------------------------ names as they are written

  /** `name` stands in `value[from..to]`, in any case, between commas or ends, with
      nothing but blanks around it. */
  predicate StandsAt(value: string, name: string, from: int, begin: int, end: int, to: int) {
    && 0 <= from <= begin <= end <= to <= |value|
    && (from == 0 || value[from - 1] == ',') && (to == |value| || value[to] == ',')
    && (forall i :: from <= i < begin ==> value[i] == ' ' || value[i] == '\t')
    && (forall i :: end <= i < to ==> value[i] == ' ' || value[i] == '\t')
    && Lower(value[begin..end]) == name
  }

  predicate ListsFrom(value: string, name: string, pos: int) {
    exists from, begin, end, to | pos <= from <= begin <= end <= to <= |value| ::
      StandsAt(value, name, from, begin, end, to)
  }

  /** The comma-separated list holds the name. */
  predicate Lists(value: string, name: string) {
    ListsFrom(value, name, 0)
  }

  /** Names have no blanks at their ends and no commas. */
  predicate NameOk(name: string) {
    name != "" && Trimmed(name) && CommaFree(name)
  }

  lemma {:induction false} LowerKeeps(s: string)
    ensures NameOk(Lower(s)) <==> NameOk(s)
  {
  }

  lemma {:induction false} StandsIsToken(value: string, name: string, from: int, begin: int, end: int, to: int)
    requires StandsAt(value, name, from, begin, end, to) && NameOk(name)
    ensures CommaAt(value, from) == to && name in TokenOf(value[from..to])
  {
    LowerKeeps(value[begin..end]);
    assert forall i :: begin <= i < end ==> value[i] == value[begin..end][i - begin];
    RangeIsTrimmed(value, from, to, begin, end);
    CommaIs(value, from, to);
  }

  lemma {:induction false} CommaIs(value: string, from: nat, to: nat)
    requires from <= to <= |value| && (to == |value| || value[to] == ',') && forall i :: from <= i < to ==> value[i] != ','
    ensures CommaAt(value, from) == to
  {
    if to < |value| {
      FindCharIsFirst(value, ',', from, to);
    }
  }

  lemma {:induction false} TokenStands(value: string, name: string, pos: nat)
    requires pos <= |value| && (pos == 0 || value[pos - 1] == ',') && name in TokenOf(value[pos..CommaAt(value, pos)])
    ensures ListsFrom(value, name, pos)
  {
    var to := CommaAt(value, pos);
    var begin, end := Ends(value, pos, to);
    assert StandsAt(value, name, pos, begin, end, to);
  }

  lemma {:induction false} Ends(value: string, from: nat, to: nat) returns (begin: nat, end: nat)
    requires from <= to <= |value|
    ensures from <= begin <= end <= to && value[begin..end] == Trim(value[from..to])
    ensures forall i :: from <= i < begin ==> Blank(value[i])
    ensures forall i :: end <= i < to ==> Blank(value[i])
  {
    begin, end := from, to;
    while begin < end && Blank(value[begin])
      invariant from <= begin <= end
      invariant forall i :: from <= i < begin ==> Blank(value[i])
    {
      begin := begin + 1;
    }
    while end > begin && Blank(value[end - 1])
      invariant begin <= end <= to
      invariant forall i :: end <= i < to ==> Blank(value[i])
    {
      end := end - 1;
    }
    RangeIsTrimmed(value, from, to, begin, end);
  }

  lemma {:induction false} ListedIff(value: string, name: string, pos: nat)
    requires pos <= |value| && (pos == 0 || value[pos - 1] == ',') && NameOk(name)
    ensures name in TokensFrom(value, pos) <==> ListsFrom(value, name, pos)
    decreases |value| - pos
  {
    hide TokensFrom, TokenOf, StandsAt;
    var comma := CommaAt(value, pos);
    TokensStep(value, pos);
    if comma < |value| {
      CommaIsThere(value, pos);
      ListedIff(value, name, comma + 1);
    } else {
      NothingBehind(value, comma + 1);
    }
    if name in TokenOf(value[pos..comma]) {
      TokenStands(value, name, pos);
    }
    if from, begin, end, to :| pos <= from <= begin <= end <= to <= |value| && StandsAt(value, name, from, begin, end, to) {
      StandsIsToken(value, name, from, begin, end, to);
      FromIsStart(value, name, pos, from, begin, end, to);
    }
  }

  lemma {:induction false} CommaIsThere(value: string, pos: nat)
    requires pos <= |value| && CommaAt(value, pos) < |value|
    ensures value[CommaAt(value, pos)] == ','
  {
  }

  lemma {:induction false} NothingBehind(value: string, pos: nat)
    requires pos > |value|
    ensures TokensFrom(value, pos) == {}
  {
  }

  lemma {:induction false} FromIsStart(value: string, name: string, pos: nat, from: int, begin: int, end: int, to: int)
    requires pos <= from && pos <= |value| && StandsAt(value, name, from, begin, end, to)
    ensures from == pos || from > CommaAt(value, pos)
  {
    if from > pos {
      FindCharIsFirst(value, ',', pos, from - 1);
    }
  }

  /** A name is dropped for the Connection header exactly if that header lists it. */
  lemma {:induction false} NamedIff(headers: map<string, string>, name: string)
    requires NameOk(name)
    ensures name in Named(headers) <==> "connection" in headers && Lists(headers["connection"], name)
  {
    hide ListsFrom, TokensOf, Split;
    if "connection" in headers {
      ListedIff(headers["connection"], name, 0);
    }
  }
}
