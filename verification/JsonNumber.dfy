/** JSON numbers by the grammar of section 6 of RFC 8259. A number is kept as its text. */
module JsonNumber {
  import opened JsonText

  predicate IsDigit(c: char) { '0' <= c <= '9' }

  /** The length of the run of digits at the start. */
  function Digits(t: string): (n: nat)
    ensures n <= |t|
  {
    if t != [] && IsDigit(t[0]) then 1 + Digits(t[1..]) else 0
  }

  predicate StartsWith(t: string, c: char) { t != [] && t[0] == c }

  /** An optional minus sign, then zero or digits that do not start with zero. */
  function IntLen(t: string): (n: Option<nat>)
    ensures n.Some? ==> 0 < n.value <= |t|
  {
    var k := if StartsWith(t, '-') then 1 else 0;
    var u := t[k..];
    if Digits(u) == 0 then None else if u[0] == '0' then Some(k + 1) else Some(k + Digits(u))
  }

  /** A point and at least one digit, or nothing. */
  function FracLen(t: string): (n: nat)
    ensures n <= |t|
  {
    if StartsWith(t, '.') && Digits(t[1..]) > 0 then 1 + Digits(t[1..]) else 0
  }

  /** An `e`, an optional sign and at least one digit, or nothing. */
  function ExpLen(t: string): (n: nat)
    ensures n <= |t|
  {
    if StartsWith(t, 'e') || StartsWith(t, 'E') then
      var k := if StartsWith(t[1..], '+') || StartsWith(t[1..], '-') then 2 else 1;
      if Digits(t[k..]) > 0 then k + Digits(t[k..]) else 0
    else 0
  }

  /** Fraction and exponent. */
  function TailLen(t: string): (n: nat)
    ensures n <= |t|
  {
    var f := FracLen(t);
    f + ExpLen(t[f..])
  }

  /** The longest number at the start of a text. */
  function NumberLen(t: string): (n: Option<nat>)
    ensures n.Some? ==> 0 < n.value <= |t|
  {
    match IntLen(t)
    case None => None
    case Some(i) => Some(i + TailLen(t[i..]))
  }

  predicate IsNumber(t: string) { NumberLen(t) == Some(|t|) }

  type Number = t: string | IsNumber(t) witness "0"

  // ----- The grammar -----

  ghost predicate AllDigits(s: string) {
    s != [] && forall i :: 0 <= i < |s| ==> '0' <= s[i] <= '9'
  }

  ghost predicate GrammarInt(s: string) {
    s == "0" || (AllDigits(s) && s[0] != '0')
  }

  ghost predicate GrammarFrac(s: string) {
    s == [] || (s[0] == '.' && AllDigits(s[1..]))
  }

  ghost predicate GrammarExp(s: string) {
    s == [] || ((s[0] == 'e' || s[0] == 'E') && (AllDigits(s[1..]) || (|s| > 1 && (s[1] == '+' || s[1] == '-') && AllDigits(s[2..]))))
  }

  /** The four parts of a number in the grammar. */
  ghost predicate Parts(minus: string, int': string, frac: string, exp: string) {
    (minus == [] || minus == "-") && GrammarInt(int') && GrammarFrac(frac) && GrammarExp(exp)
  }

  lemma {:induction false} DigitsRun(s: string, rest: string)
    requires (forall i :: 0 <= i < |s| ==> '0' <= s[i] <= '9') && (rest == [] || !IsDigit(rest[0]))
    ensures Digits(s + rest) == |s|
  {
    if s == [] {
      assert s + rest == rest;
    } else {
      assert (s + rest)[1..] == s[1..] + rest;
      DigitsRun(s[1..], rest);
    }
  }

  lemma {:induction false} DigitsAllOf(t: string)
    requires t != [] && Digits(t) == |t|
    ensures AllDigits(t)
  {
    forall i | 0 <= i < |t|
      ensures '0' <= t[i] <= '9'
    {
      DigitsAre(t, i);
    }
  }

  lemma IntRun(minus: string, int': string, rest: string)
    requires (minus == [] || minus == "-") && GrammarInt(int') && (rest == [] || !IsDigit(rest[0]))
    ensures IntLen(minus + int' + rest) == Some(|minus| + |int'|)
  {
    var t := minus + int' + rest;
    assert AllDigits(int');
    assert t[|minus|..] == int' + rest;
    assert t[0..] == t;
    DigitsRun(int', rest);
    assert StartsWith(t, '-') <==> minus == "-";
  }

  lemma FracRun(frac: string, rest: string)
    requires GrammarFrac(frac) && (rest == [] || (!IsDigit(rest[0]) && rest[0] != '.'))
    ensures FracLen(frac + rest) == |frac|
  {
    if frac == [] {
      assert frac + rest == rest;
    } else {
      assert (frac + rest)[1..] == frac[1..] + rest;
      DigitsRun(frac[1..], rest);
    }
  }

  lemma ExpRun(exp: string)
    requires GrammarExp(exp)
    ensures ExpLen(exp) == |exp|
  {
    if exp != [] {
      var k := if |exp| > 1 && (exp[1] == '+' || exp[1] == '-') then 2 else 1;
      assert AllDigits(exp[k..]);
      DigitsRun(exp[k..], []);
      assert exp[k..] + [] == exp[k..];
      assert exp[1..] != [] && exp[1..][0] == exp[1];
    }
  }

  /** Every text of the grammar is a number... */
  lemma GrammarIsNumber(minus: string, int': string, frac: string, exp: string)
    requires Parts(minus, int', frac, exp)
    ensures IsNumber(minus + int' + (frac + exp))
  {
    var t := minus + int' + (frac + exp);
    IntRun(minus, int', frac + exp);
    assert t[|minus| + |int'|..] == frac + exp;
    TailRun(frac, exp);
  }

  lemma TailRun(frac: string, exp: string)
    requires GrammarFrac(frac) && GrammarExp(exp)
    ensures TailLen(frac + exp) == |frac + exp|
  {
    FracRun(frac, exp);
    assert (frac + exp)[|frac|..] == exp;
    ExpRun(exp);
  }

  /** ... and every number is one. */
  lemma NumberHasParts(t: Number) returns (minus: string, int': string, frac: string, exp: string)
    ensures Parts(minus, int', frac, exp) && t == minus + int' + (frac + exp)
  {
    var i := IntLen(t).value;
    minus, int' := IntSplit(t);
    frac, exp := TailHas(t[i..]);
    assert t == t[..i] + t[i..];
  }

  lemma IntSplit(t: string) returns (minus: string, int': string)
    requires IntLen(t).Some?
    ensures (minus == [] || minus == "-") && GrammarInt(int') && t[..IntLen(t).value] == minus + int'
  {
    var k, i := if StartsWith(t, '-') then 1 else 0, IntLen(t).value;
    IntHas(t);
    minus, int' := t[..k], t[k..i];
    assert t[..i] == t[..k] + t[k..i];
  }

  lemma TailHas(t: string) returns (frac: string, exp: string)
    requires TailLen(t) == |t|
    ensures GrammarFrac(frac) && GrammarExp(exp) && t == frac + exp
  {
    var f := FracLen(t);
    frac, exp := t[..f], t[f..];
    FracHas(t);
    ExpHas(exp);
  }

  lemma IntHas(t: string)
    requires IntLen(t).Some?
    ensures var k := if StartsWith(t, '-') then 1 else 0; k <= IntLen(t).value && GrammarInt(t[k..IntLen(t).value])
  {
    var k, i := if StartsWith(t, '-') then 1 else 0, IntLen(t).value;
    var u := t[k..];
    DigitsCut(u, i - k);
    assert t[k..i] == u[..i - k];
    DigitsAllOf(u[..i - k]);
    DigitsAre(u, 0);
    if u[0] == '0' { assert u[..1] == "0"; }
  }

  lemma FracHas(t: string)
    ensures GrammarFrac(t[..FracLen(t)])
  {
    var f := FracLen(t);
    if f > 0 {
      assert t[..f][1..] == t[1..][..f - 1];
      DigitsCut(t[1..], f - 1);
      DigitsAllOf(t[..f][1..]);
    }
  }

  lemma ExpHas(t: string)
    requires ExpLen(t) == |t|
    ensures GrammarExp(t)
  {
    if t != [] {
      var k := if StartsWith(t[1..], '+') || StartsWith(t[1..], '-') then 2 else 1;
      DigitsAllOf(t[k..]);
    }
  }

  // ----- What follows a number does not change it -----

  /** What follows does not go on with a number. */
  predicate Ends(rest: string) {
    rest == [] || (!IsDigit(rest[0]) && rest[0] !in {'.', 'e', 'E', '+', '-'})
  }

  lemma {:induction false} DigitsThen(t: string, rest: string)
    requires Ends(rest)
    ensures Digits(t + rest) == Digits(t)
  {
    if t == [] {
      assert t + rest == rest;
    } else {
      assert (t + rest)[1..] == t[1..] + rest;
      DigitsThen(t[1..], rest);
    }
  }

  lemma IntThen(t: string, rest: string)
    requires Ends(rest)
    ensures IntLen(t + rest) == IntLen(t)
  {
    if t == [] {
      assert t + rest == rest;
    } else {
      var k := if StartsWith(t, '-') then 1 else 0;
      assert (t + rest)[k..] == t[k..] + rest;
      DigitsThen(t[k..], rest);
    }
  }

  lemma FracThen(t: string, rest: string)
    requires Ends(rest)
    ensures FracLen(t + rest) == FracLen(t)
  {
    if t == [] {
      assert t + rest == rest;
    } else {
      assert (t + rest)[1..] == t[1..] + rest;
      DigitsThen(t[1..], rest);
    }
  }

  lemma ExpThen(t: string, rest: string)
    requires Ends(rest)
    ensures ExpLen(t + rest) == ExpLen(t)
  {
    if t == [] {
      assert t + rest == rest;
    } else if |t| == 1 {
      assert (t + rest)[1..] == rest && t[1..] == [];
      DigitsThen([], rest);
      assert [] + rest == rest;
    } else {
      assert (t + rest)[1..] == t[1..] + rest && (t + rest)[2..] == t[2..] + rest;
      DigitsThen(t[1..], rest);
      DigitsThen(t[2..], rest);
    }
  }

  lemma NumberThen(t: string, rest: string)
    requires Ends(rest)
    ensures NumberLen(t + rest) == NumberLen(t)
  {
    IntThen(t, rest);
    if IntLen(t).Some? { RestThen(t, rest, IntLen(t).value); }
  }

  lemma RestThen(t: string, rest: string, i: nat)
    requires Ends(rest) && i <= |t|
    ensures TailLen((t + rest)[i..]) == TailLen(t[i..])
  {
    DropThen(t, rest, i);
    TailThen(t[i..], rest);
  }

  lemma TailThen(t: string, rest: string)
    requires Ends(rest)
    ensures TailLen(t + rest) == TailLen(t)
  {
    FracThen(t, rest);
    var f := FracLen(t);
    DropThen(t, rest, f);
    ExpThen(t[f..], rest);
  }

  lemma DropThen(t: string, rest: string, i: nat)
    requires i <= |t|
    ensures (t + rest)[i..] == t[i..] + rest
  {
  }

  // ----- The longest number is a number -----

  lemma {:induction false} DigitsCut(t: string, m: nat)
    requires m <= |t|
    ensures Digits(t[..m]) == if Digits(t) < m then Digits(t) else m
  {
    if m > 0 {
      assert t[..m][1..] == t[1..][..m - 1];
      DigitsCut(t[1..], m - 1);
    }
  }

  lemma IntCut(t: string, m: nat)
    requires IntLen(t).Some? && IntLen(t).value <= m <= |t|
    ensures IntLen(t[..m]) == IntLen(t)
  {
    var k := if StartsWith(t, '-') then 1 else 0;
    assert t[..m][k..] == t[k..][..m - k];
    DigitsCut(t[k..], m - k);
  }

  lemma FracCut(t: string, m: nat)
    requires FracLen(t) <= m <= |t|
    ensures FracLen(t[..m]) == FracLen(t)
  {
    if m > 0 {
      assert t[..m][1..] == t[1..][..m - 1];
      DigitsCut(t[1..], m - 1);
    }
  }

  lemma ExpCut(t: string)
    ensures ExpLen(t[..ExpLen(t)]) == ExpLen(t)
  {
    var m := ExpLen(t);
    if m > 0 {
      assert t[..m][1..] == t[1..][..m - 1];
      var k := if StartsWith(t[1..], '+') || StartsWith(t[1..], '-') then 2 else 1;
      assert t[..m][k..] == t[k..][..m - k];
      DigitsCut(t[k..], m - k);
    }
  }

  lemma NumberCut(t: string)
    requires NumberLen(t).Some?
    ensures IsNumber(t[..NumberLen(t).value])
  {
    IntCut(t, NumberLen(t).value);
    RestCut(t, IntLen(t).value);
  }

  lemma RestCut(t: string, i: nat)
    requires i <= |t|
    ensures var n := i + TailLen(t[i..]); TailLen(t[..n][i..]) == n - i
  {
    var n := i + TailLen(t[i..]);
    assert t[..n][i..] == t[i..][..n - i];
    TailCut(t[i..]);
  }

  lemma TailCut(t: string)
    ensures TailLen(t[..TailLen(t)]) == TailLen(t)
  {
    var f, n := FracLen(t), TailLen(t);
    FracCut(t, n);
    assert t[..n][f..] == t[f..][..n - f];
    ExpCut(t[f..]);
  }

  function ParseNumber(t: string): (r: Option<(Number, string)>)
    ensures r.Some? ==> |r.value.1| < |t|
  {
    match NumberLen(t)
    case None => None
    case Some(n) =>
      NumberCut(t);
      var w: Number := t[..n];
      Some((w, t[n..]))
  }

  /** A number is read back, and no further, unless what follows goes on with one. */
  lemma NumberRoundTrip(w: Number, rest: string)
    requires Ends(rest)
    ensures ParseNumber(w + rest) == Some((w, rest))
  {
    NumberThen(w, rest);
    assert (w + rest)[..|w|] == w && (w + rest)[|w|..] == rest;
  }

  // ----- The characters of a number -----

  predicate NumberChar(c: char) {
    IsDigit(c) || c in {'.', 'e', 'E', '+', '-'}
  }

  ghost predicate AllNumberChars(t: string) {
    forall i :: 0 <= i < |t| ==> NumberChar(t[i])
  }

  lemma {:induction false} DigitsAre(t: string, i: nat)
    requires i < Digits(t)
    ensures IsDigit(t[i])
  {
    if i > 0 { DigitsAre(t[1..], i - 1); }
  }

  lemma CharsConcat(a: string, b: string)
    requires AllNumberChars(a) && AllNumberChars(b)
    ensures AllNumberChars(a + b)
  {
  }

  lemma PartChars(minus: string, int': string, frac: string, exp: string)
    requires Parts(minus, int', frac, exp)
    ensures AllNumberChars(minus) && AllNumberChars(int') && AllNumberChars(frac) && AllNumberChars(exp)
  {
    forall i | 0 < i < |frac|
      ensures NumberChar(frac[i])
    {
      assert frac[i] == frac[1..][i - 1];
    }
    forall i | 1 < i < |exp|
      ensures NumberChar(exp[i])
    {
      assert exp[i] == exp[1..][i - 1] && exp[i] == exp[2..][i - 2];
    }
    if |exp| > 1 { assert exp[1] == exp[1..][0]; }
  }

  lemma NumberChars(w: Number)
    ensures AllNumberChars(w)
  {
    var minus, int', frac, exp := NumberHasParts(w);
    PartChars(minus, int', frac, exp);
    CharsConcat(minus, int');
    CharsConcat(frac, exp);
    CharsConcat(minus + int', frac + exp);
  }

  lemma NumberStarts(w: Number)
    ensures w != [] && (IsDigit(w[0]) || w[0] == '-')
  {
    if !StartsWith(w, '-') {
      assert w[0..] == w;
      DigitsAre(w, 0);
    }
  }
}
