/** Byte-string vocabulary shared by the parser, the framer and the printers:
    line ends, blank trimming, ASCII case folding, decimal and hexadecimal
    numerals. A byte is a `char`; nothing here depends on codes above 255. */
module Bytes {

  datatype Option<+T> = None | Some(value: T)

  /** Largest `size_t`. */
  const SIZE_MAX := 0xFFFF_FFFF_FFFF_FFFF

  // ---------------------------------------------------------------- searching

  predicate Crlf(s: string, i: int) {
    0 <= i && i + 1 < |s| && s[i] == '\r' && s[i + 1] == '\n'
  }

  /** The empty line that ends a header block. */
  predicate BlankLine(s: string, i: int) {
    Crlf(s, i) && Crlf(s, i + 2)
  }

  /** `s.find("\r\n", from)`. */
  function FindCrlf(s: string, from: nat): (r: Option<nat>)
    ensures r.Some? ==> from <= r.value && Crlf(s, r.value)
    decreases |s| - from
  {
    if from + 1 >= |s| then None
    else if Crlf(s, from) then Some(from)
    else FindCrlf(s, from + 1)
  }

  /** The search reports the first line end, and None only when there is none. */
  lemma {:induction false} FindCrlfIsFirst(s: string, from: nat, j: nat)
    requires from <= j && Crlf(s, j)
    ensures FindCrlf(s, from).Some? && FindCrlf(s, from).value <= j
    decreases |s| - from
  {
    if !Crlf(s, from) {
      FindCrlfIsFirst(s, from + 1, j);
    }
  }

  lemma {:induction false} FindCrlfAt(s: string, from: nat, i: nat)
    requires from <= i && Crlf(s, i) && forall j :: from <= j < i ==> !Crlf(s, j)
    ensures FindCrlf(s, from) == Some(i)
  {
    FindCrlfIsFirst(s, from, i);
  }

  /** `s.find("\r\n\r\n", from)`. */
  function FindBlankLine(s: string, from: nat): (r: Option<nat>)
    ensures r.Some? ==> from <= r.value && BlankLine(s, r.value)
    decreases |s| - from
  {
    if from + 3 >= |s| then None
    else if BlankLine(s, from) then Some(from)
    else FindBlankLine(s, from + 1)
  }

  lemma {:induction false} FindBlankLineIsFirst(s: string, from: nat, j: nat)
    requires from <= j && BlankLine(s, j)
    ensures FindBlankLine(s, from).Some? && FindBlankLine(s, from).value <= j
    decreases |s| - from
  {
    if !BlankLine(s, from) {
      FindBlankLineIsFirst(s, from + 1, j);
    }
  }

  /** `s.find(c, from)`. */
  function FindChar(s: string, c: char, from: nat): (r: Option<nat>)
    ensures r.Some? ==> from <= r.value < |s| && s[r.value] == c
    decreases |s| - from
  {
    if from >= |s| then None
    else if s[from] == c then Some(from)
    else FindChar(s, c, from + 1)
  }

  lemma {:induction false} FindCharIsFirst(s: string, c: char, from: nat, j: nat)
    requires from <= j < |s| && s[j] == c
    ensures FindChar(s, c, from).Some? && FindChar(s, c, from).value <= j
    decreases |s| - from
  {
    if s[from] != c {
      FindCharIsFirst(s, c, from + 1, j);
    }
  }

  /** The chunk extension is cut off at the first ';'. */
  function BeforeSemicolon(s: string): (r: string)
    ensures |r| <= |s|
  {
    match FindChar(s, ';', 0)
    case Some(i) => s[..i]
    case None => s
  }

  // ------------------------------------------------------------ concatenation

  function Concat(parts: seq<string>): (s: string) {
    if parts == [] then "" else parts[0] + Concat(parts[1..])
  }

  lemma {:induction false} ConcatAppend(a: seq<string>, b: seq<string>)
    ensures Concat(a + b) == Concat(a) + Concat(b)
  {
    if a == [] {
      assert a + b == b;
    } else {
      ConcatAppend(a[1..], b);
      assert (a + b)[1..] == a[1..] + b;
      assert a[0] + (Concat(a[1..]) + Concat(b)) == a[0] + Concat(a[1..]) + Concat(b);
    }
  }

  lemma {:induction false} Assoc(a: string, b: string, c: string)
    ensures a + b + c == a + (b + c)
  {
  }

  // ------------------------------------------------------------- case folding

  function LowerChar(c: char): (r: char) {
    if 'A' <= c <= 'Z' then (c as int + 32) as char else c
  }

  function Lower(s: string): (r: string)
    ensures |r| == |s|
    ensures forall i :: 0 <= i < |s| ==> r[i] == LowerChar(s[i])
  {
    seq(|s|, i requires 0 <= i < |s| => LowerChar(s[i]))
  }

  predicate IsLower(s: string) {
    forall i :: 0 <= i < |s| ==> !('A' <= s[i] <= 'Z')
  }

  lemma {:induction false} LowerIsLower(s: string)
    ensures IsLower(Lower(s))
    ensures IsLower(s) ==> Lower(s) == s
  {
  }

  // ----------------------------------------------------------------- trimming

  predicate Blank(c: char) {
    c == ' ' || c == '\t'
  }

  /** Neither end of `s` is a space or a tab. */
  predicate Trimmed(s: string) {
    s != "" ==> !Blank(s[0]) && !Blank(s[|s| - 1])
  }

  function TrimLeft(s: string): (r: string)
    ensures |r| <= |s|
    ensures r != "" ==> !Blank(r[0])
  {
    if s != "" && Blank(s[0]) then TrimLeft(s[1..]) else s
  }

  function TrimRight(s: string): (r: string)
    ensures |r| <= |s|
    ensures r != "" ==> !Blank(r[|r| - 1]) && r[0] == s[0]
  {
    if s != "" && Blank(s[|s| - 1]) then TrimRight(s[..|s| - 1]) else s
  }

  function Trim(s: string): (r: string)
    ensures Trimmed(r)
    ensures |r| <= |s|
  {
    TrimRight(TrimLeft(s))
  }

  /** One blank in front of a trimmed string is exactly what trimming takes off. */
  lemma {:induction false} TrimLeadingBlank(s: string)
    requires Trimmed(s)
    ensures Trim(" " + s) == s
  {
    assert (" " + s)[1..] == s;
    assert TrimLeft(" " + s) == TrimLeft(s) == s;
  }

  // ----------------------------------------------------------------- numerals

  predicate IsDigit(c: char) {
    '0' <= c <= '9'
  }

  predicate AllDigits(s: string) {
    forall i :: 0 <= i < |s| ==> IsDigit(s[i])
  }

  function DigitValue(c: char): (d: nat)
    requires IsDigit(c)
  {
    c as int - '0' as int
  }

  /** Value of the numeral `s` read after the value `acc`. */
  function DecimalFrom(s: string, acc: nat): (v: nat)
    requires AllDigits(s)
    decreases |s|
  {
    if s == "" then acc else DecimalFrom(s[1..], acc * 10 + DigitValue(s[0]))
  }

  function DecimalValue(s: string): (v: nat)
    requires AllDigits(s)
  {
    DecimalFrom(s, 0)
  }

  /** `std::to_string`. */
  function Decimal(n: nat): (s: string)
    ensures s != "" && AllDigits(s)
  {
    if n < 10 then [('0' as int + n) as char] else Decimal(n / 10) + [('0' as int + n % 10) as char]
  }

  lemma {:induction false} DecimalFromConcat(a: string, b: string, acc: nat)
    requires AllDigits(a) && AllDigits(b)
    ensures AllDigits(a + b) && DecimalFrom(a + b, acc) == DecimalFrom(b, DecimalFrom(a, acc))
    decreases |a|
  {
    if a == "" {
      assert a + b == b;
    } else {
      assert (a + b)[1..] == a[1..] + b;
      DecimalFromConcat(a[1..], b, acc * 10 + DigitValue(a[0]));
    }
  }

  lemma {:induction false} DecimalRoundTrip(n: nat)
    ensures DecimalValue(Decimal(n)) == n
  {
    if n >= 10 {
      DecimalRoundTrip(n / 10);
      var last := [('0' as int + n % 10) as char];
      DecimalFromConcat(Decimal(n / 10), last, 0);
      assert last[1..] == "";
    } else {
      assert DecimalFrom(Decimal(n)[1..], n) == n;
    }
  }

  predicate IsHexDigit(c: char) {
    IsDigit(c) || 'a' <= c <= 'f' || 'A' <= c <= 'F'
  }

  predicate AllHex(s: string) {
    forall i :: 0 <= i < |s| ==> IsHexDigit(s[i])
  }

  function HexDigitValue(c: char): (d: nat)
    requires IsHexDigit(c)
    ensures d < 16
  {
    if IsDigit(c) then c as int - '0' as int
    else if 'a' <= c <= 'f' then c as int - 'a' as int + 10
    else c as int - 'A' as int + 10
  }

  function HexFrom(s: string, acc: nat): (v: nat)
    requires AllHex(s)
    ensures v >= acc
    decreases |s|
  {
    if s == "" then acc else HexFrom(s[1..], acc * 16 + HexDigitValue(s[0]))
  }

  function HexValue(s: string): (v: nat)
    requires AllHex(s)
  {
    HexFrom(s, 0)
  }

  function HexDigit(d: nat): (c: char)
    requires d < 16
    ensures IsHexDigit(c) && HexDigitValue(c) == d
  {
    if d < 10 then ('0' as int + d) as char else ('a' as int + d - 10) as char
  }

  /** `oss << std::hex << n`. */
  function Hex(n: nat): (s: string)
    ensures s != "" && AllHex(s)
  {
    if n < 16 then [HexDigit(n)] else Hex(n / 16) + [HexDigit(n % 16)]
  }

  lemma {:induction false} HexFromConcat(a: string, b: string, acc: nat)
    requires AllHex(a) && AllHex(b)
    ensures AllHex(a + b) && HexFrom(a + b, acc) == HexFrom(b, HexFrom(a, acc))
    decreases |a|
  {
    if a == "" {
      assert a + b == b;
    } else {
      assert (a + b)[1..] == a[1..] + b;
      HexFromConcat(a[1..], b, acc * 16 + HexDigitValue(a[0]));
    }
  }

  lemma {:induction false} HexRoundTrip(n: nat)
    ensures HexValue(Hex(n)) == n
  {
    if n >= 16 {
      HexRoundTrip(n / 16);
      var last := [HexDigit(n % 16)];
      HexFromConcat(Hex(n / 16), last, 0);
      assert last[1..] == "";
    } else {
      assert HexFrom(Hex(n)[1..], n) == n;
    }
  }
}
