/** JSON strings as `JSON.stringify` writes them and `JSON.parse` reads them (section 7 of RFC
    8259). Characters are Unicode scalar values: lone surrogates are not part of this model. */
module JsonText {

  datatype Option<T> = None | Some(value: T)

  const QUOTE := '"'
  const BACKSLASH := '\\'

  /** White space as `trim` and `\s` understand it. */
  predicate IsWhite(c: char) {
    var n := c as int;
    || 9 <= n <= 13 || n == 0x20 || n == 0xA0 || n == 0x1680 || 0x2000 <= n <= 0x200A
    || n == 0x2028 || n == 0x2029 || n == 0x202F || n == 0x205F || n == 0x3000 || n == 0xFEFF
  }

  lemma Assoc(a: string, b: string, c: string)
    ensures a + b + c == a + (b + c)
  {
  }

  function HexDigit(n: nat): char
    requires n < 16
  {
    if n < 10 then ('0' as int + n) as char else ('a' as int + n - 10) as char
  }

  function HexValue(c: char): Option<nat> {
    if '0' <= c <= '9' then Some(c as int - '0' as int)
    else if 'a' <= c <= 'f' then Some(c as int - 'a' as int + 10)
    else if 'A' <= c <= 'F' then Some(c as int - 'A' as int + 10)
    else None
  }

  // ----- Writing -----

  function EscapeChar(c: char): (r: string)
    ensures r != []
  {
    if c == QUOTE || c == BACKSLASH then [BACKSLASH, c]
    else if c == '\n' then [BACKSLASH, 'n']
    else if c == '\r' then [BACKSLASH, 'r']
    else if c == '\t' then [BACKSLASH, 't']
    else if c == 8 as char then [BACKSLASH, 'b']
    else if c == 12 as char then [BACKSLASH, 'f']
    else if c < ' ' then [BACKSLASH, 'u', '0', '0', HexDigit(c as int / 16), HexDigit(c as int % 16)]
    else [c]
  }

  function Escape(s: string): string {
    if s == [] then [] else EscapeChar(s[0]) + Escape(s[1..])
  }

  /** `JSON.stringify` of a string. */
  function Quote(s: string): string {
    [QUOTE] + Escape(s) + [QUOTE]
  }

  /** A text of printable characters without quotes and backslashes is written as it is. */
  lemma {:induction false} QuotePlain(s: string)
    requires forall i :: 0 <= i < |s| ==> s[i] >= ' ' && s[i] != '"' && s[i] != '\\'
    ensures Quote(s) == ['"'] + s + ['"']
  {
    EscapePlain(s);
  }

  lemma {:induction false} EscapePlain(s: string)
    requires forall i :: 0 <= i < |s| ==> s[i] >= ' ' && s[i] != '"' && s[i] != '\\'
    ensures Escape(s) == s
  {
    if s != [] {
      EscapePlain(s[1..]);
      assert s == [s[0]] + s[1..];
    }
  }

  // ----- Reading -----

  function Hex4(t: string): Option<char> {
    if |t| < 4 || HexValue(t[0]).None? || HexValue(t[1]).None? || HexValue(t[2]).None? || HexValue(t[3]).None? then None
    else
      var n := HexValue(t[0]).value * 4096 + HexValue(t[1]).value * 256 + HexValue(t[2]).value * 16 + HexValue(t[3]).value;
      if 0 <= n < 0xD800 || 0xE000 <= n < 0x10000 then Some(n as char) else None
  }

  function Simple(c: char): Option<char> {
    if c == QUOTE || c == BACKSLASH || c == '/' then Some(c)
    else if c == 'n' then Some('\n') else if c == 'r' then Some('\r') else if c == 't' then Some('\t')
    else if c == 'b' then Some(8 as char) else if c == 'f' then Some(12 as char)
    else None
  }

  /** One character of a string literal, and what follows it. */
  function ParseChar(t: string): (r: Option<(char, string)>)
    requires t != [] && t[0] != QUOTE
    ensures r.Some? ==> |r.value.1| < |t|
  {
    if t[0] == BACKSLASH then
      if |t| < 2 then None
      else if t[1] == 'u' then (if Hex4(t[2..]).Some? then Some((Hex4(t[2..]).value, t[6..])) else None)
      else if Simple(t[1]).Some? then Some((Simple(t[1]).value, t[2..])) else None
    else if t[0] < ' ' then None
    else Some((t[0], t[1..]))
  }

  /** The text of a string literal after its opening quote: its value, and what follows it. */
  function ParseBody(t: string): (r: Option<(string, string)>)
    ensures r.Some? ==> |r.value.1| < |t|
    decreases |t|
  {
    if t == [] then None
    else if t[0] == QUOTE then Some(("", t[1..]))
    else
      match ParseChar(t)
      case None => None
      case Some((c, rest)) =>
        match ParseBody(rest)
        case None => None
        case Some((s, after)) => Some(([c] + s, after))
  }

  /** A string literal at the start of `t`, and what follows it. */
  function ParseLiteral(t: string): (r: Option<(string, string)>)
    ensures r.Some? ==> |r.value.1| < |t|
  {
    if t == [] || t[0] != QUOTE then None else ParseBody(t[1..])
  }

  // ----- Round trip -----

  /** Hexadecimal digits are read in either case, and nothing else is. */
  lemma HexExactly(c: char)
    ensures HexValue(c).Some? <==> '0' <= c <= '9' || 'a' <= c <= 'f' || 'A' <= c <= 'F'
    ensures 'A' <= c <= 'F' ==> HexValue(c) == HexValue((c as int - 'A' as int + 'a' as int) as char)
    ensures 'a' <= c <= 'f' ==> HexValue(c) == Some(c as int - 'a' as int + 10)
    ensures '0' <= c <= '9' ==> HexValue(c) == Some(c as int - '0' as int)
  {
  }

  lemma HexRoundTrip(n: nat)
    requires n < 16
    ensures HexValue(HexDigit(n)) == Some(n)
  {
  }

  lemma ParseEscaped(c: char, rest: string)
    ensures var t := EscapeChar(c) + rest; t[0] != QUOTE && ParseChar(t) == Some((c, rest))
  {
    var t := EscapeChar(c) + rest;
    if c == QUOTE || c == BACKSLASH || c == '\n' || c == '\r' || c == '\t' || c == 8 as char || c == 12 as char {
      assert t[2..] == rest;
    } else if c < ' ' {
      ParseControl(c, rest);
    } else {
      assert t[1..] == rest;
    }
  }

  lemma ParseControl(c: char, rest: string)
    requires c < ' '
    ensures var t := [BACKSLASH, 'u', '0', '0', HexDigit(c as int / 16), HexDigit(c as int % 16)] + rest;
            ParseChar(t) == Some((c, rest))
  {
    var hi, lo := c as int / 16, c as int % 16;
    var t := [BACKSLASH, 'u', '0', '0', HexDigit(hi), HexDigit(lo)] + rest;
    HexRoundTrip(hi);
    HexRoundTrip(lo);
    var u := t[2..];
    assert u[0] == '0' && u[1] == '0' && u[2] == HexDigit(hi) && u[3] == HexDigit(lo);
    assert hi * 16 + lo == c as int;
    assert Hex4(u) == Some(c);
    assert t[6..] == rest;
  }

  lemma {:induction false} BodyRoundTrip(s: string, rest: string)
    ensures ParseBody(Escape(s) + [QUOTE] + rest) == Some((s, rest))
  {
    if s == [] {
      assert Escape(s) + [QUOTE] + rest == [QUOTE] + rest;
    } else {
      BodyRoundTrip(s[1..], rest);
      ParseStep(s[0], Escape(s[1..]) + [QUOTE] + rest, s[1..], rest);
      EscapeStep(s, rest);
      assert s == [s[0]] + s[1..];
    }
  }

  lemma ParseStep(c: char, tail: string, s: string, rest: string)
    requires ParseBody(tail) == Some((s, rest))
    ensures ParseBody(EscapeChar(c) + tail) == Some(([c] + s, rest))
  {
    ParseEscaped(c, tail);
  }

  lemma EscapeStep(s: string, rest: string)
    requires s != []
    ensures Escape(s) + [QUOTE] + rest == EscapeChar(s[0]) + (Escape(s[1..]) + [QUOTE] + rest)
  {
  }

  /** Reading a written string, wherever it stands, gives the string back and stops after it. */
  lemma LiteralRoundTrip(s: string, rest: string)
    ensures ParseLiteral(Quote(s) + rest) == Some((s, rest))
  {
    assert (Quote(s) + rest)[1..] == Escape(s) + [QUOTE] + rest;
    BodyRoundTrip(s, rest);
  }

  /** Every character a written string contains is printable or above the controls. */
  lemma {:induction false} EscapePrintable(s: string)
    ensures forall c <- Escape(s) :: c >= ' '
    ensures forall c <- Escape(s) :: c in s || c < 128 as char
  {
    if s != [] {
      EscapePrintable(s[1..]);
      assert forall c <- EscapeChar(s[0]) :: c >= ' ' && (c == s[0] || c < 128 as char);
    }
  }

  lemma QuotePrintable(s: string)
    ensures forall c <- Quote(s) :: c >= ' '
    ensures forall c <- Quote(s) :: c in s || c < 128 as char
  {
    EscapePrintable(s);
  }
}
