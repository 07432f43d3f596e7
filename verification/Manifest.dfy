/** The agent manifest, opencomputer.toml: how it is written and how it is read back with regular
    expressions (`writeManifest`, `tomlString` and `readManifest` in cli/src/project.ts). */
module Manifest {
  import opened JsonText
  import opened AgentId

  datatype Manifest = Manifest(id: string, name: string, template: Option<string>)

  // ----- Writing -----

  const COMMENT := "# Committed agent" + (" identity. Keep " + ("`id` stable across" + " deployments."))
  const SCHEMA := "schema = 1"

  function Line(key: string, value: string): string {
    key + " = " + Quote(value)
  }

  function TemplateLine(template: Option<string>): string {
    if template.None? || template.value == "" then "" else Line("template", template.value) + "\n"
  }

  function Text(m: Manifest): string {
    COMMENT + "\n" + (SCHEMA + "\n" + (Line("id", m.id) + "\n" + (Line("name", m.name) + "\n" + TemplateLine(m.template))))
  }

  /** `None` is the error about the id. */
  function WriteManifest(m: Manifest): Option<string> {
    if IsAgentId(m.id) then Some(Text(m)) else None
  }

  // ----- The regular expressions -----

  /** Where `^` and `$` match inside a text. */
  predicate IsTerminator(c: char) {
    c == '\n' || c == '\r' || c as int == 0x2028 || c as int == 0x2029
  }

  function SkipWhite(t: string): string {
    if t != [] && IsWhite(t[0]) then SkipWhite(t[1..]) else t
  }

  /** `\s*key\s*=\s*`. No key starts with white space, so the greedy match is the only one. */
  function AfterKey(t: string, key: string): Option<string> {
    var u := SkipWhite(t);
    if key <= u then
      var v := SkipWhite(u[|key|..]);
      if v != [] && v[0] == '=' then Some(SkipWhite(v[1..])) else None
    else None
  }

  /** `\s*$`. */
  predicate AtEnd(t: string) {
    t == [] || IsTerminator(t[0]) || (IsWhite(t[0]) && AtEnd(t[1..]))
  }

  /** `(?:[^"\\]|\\.)*"`: what it matches, and what follows. */
  function RawBody(t: string): Option<(string, string)> {
    if t == [] then None
    else if t[0] == QUOTE then Some(([QUOTE], t[1..]))
    else if t[0] == BACKSLASH then
      if |t| < 2 || IsTerminator(t[1]) then None
      else
        match RawBody(t[2..])
        case None => None
        case Some((raw, rest)) => Some(([BACKSLASH, t[1]] + raw, rest))
    else
      match RawBody(t[1..])
      case None => None
      case Some((raw, rest)) => Some(([t[0]] + raw, rest))
  }

  /** `("(?:[^"\\]|\\.)*")\s*$`: the group. */
  function LiteralAt(v: string): Option<string> {
    if v == [] || v[0] != QUOTE then None
    else
      match RawBody(v[1..])
      case None => None
      case Some((raw, rest)) => if AtEnd(rest) then Some([QUOTE] + raw) else None
  }

  function Digits(t: string): string {
    if t != [] && '0' <= t[0] <= '9' then [t[0]] + Digits(t[1..]) else []
  }

  /** `(\d+)\s*$`: the group. */
  function NumberAt(v: string): Option<string> {
    var d := Digits(v);
    if d != [] && |d| <= |v| && AtEnd(v[|d|..]) then Some(d) else None
  }

  datatype Pattern = StringOf(key: string) | Schema

  function KeyOf(p: Pattern): string {
    if p.Schema? then "schema" else p.key
  }

  /** The whole pattern, anchored here. */
  function MatchAt(t: string, p: Pattern): Option<string> {
    match AfterKey(t, KeyOf(p))
    case None => None
    case Some(v) => if p.Schema? then NumberAt(v) else LiteralAt(v)
  }

  /** The leftmost match; `bol` says whether `^` matches here. */
  function Search(t: string, bol: bool, p: Pattern): Option<string> {
    if bol && MatchAt(t, p).Some? then MatchAt(t, p)
    else if t == [] then None
    else Search(t[1..], IsTerminator(t[0]), p)
  }

  // ----- Reading -----

  function TomlString(source: string, key: string): Option<string> {
    match Search(source, true, StringOf(key))
    case None => None
    case Some(raw) =>
      match ParseLiteral(raw)
      case None => None
      case Some((s, rest)) => if rest == [] then Some(s) else None
  }

  predicate AreDigits(d: string) {
    forall i :: 0 <= i < |d| ==> '0' <= d[i] <= '9'
  }

  function Number(digits: string): nat
    requires AreDigits(digits)
  {
    if digits == [] then 0
    else Number(digits[..|digits| - 1]) * 10 + (digits[|digits| - 1] as int - '0' as int)
  }

  predicate SchemaIsOne(source: string) {
    match Search(source, true, Schema)
    case None => false
    case Some(d) => AreDigits(d) && Number(d) == 1
  }

  /** `None` is the error about schema, id and name. An empty string is as good as none. */
  function ReadManifest(source: string): Option<Manifest> {
    var id := TomlString(source, "id");
    var name := TomlString(source, "name");
    var template := TomlString(source, "template");
    if !SchemaIsOne(source) || id.None? || name.None? || name.value == "" || !IsAgentId(id.value) then None
    else Some(Manifest(id.value, name.value, if template == Some("") then None else template))
  }

  // ----- Passing lines that do not match -----

  ghost predicate Flat(s: string) {
    forall i :: 0 <= i < |s| ==> !IsTerminator(s[i])
  }

  lemma {:induction false} SkipFlat(s: string, rest: string, p: Pattern)
    requires Flat(s)
    ensures Search(s + rest, false, p) == Search(rest, false, p)
  {
    if s == [] {
      assert s + rest == rest;
    } else {
      assert (s + rest)[1..] == s[1..] + rest;
      SkipFlat(s[1..], rest, p);
    }
  }

  lemma OtherKey(t: string, p: Pattern)
    requires t != [] && !IsWhite(t[0]) && KeyOf(p) != [] && t[0] != KeyOf(p)[0]
    ensures MatchAt(t, p).None?
  {
  }

  lemma SkipLine(line: string, rest: string, p: Pattern)
    requires Flat(line) && line != [] && !IsWhite(line[0]) && KeyOf(p) != [] && line[0] != KeyOf(p)[0]
    ensures Search(line + "\n" + rest, true, p) == Search(rest, true, p)
  {
    var t := line + "\n" + rest;
    OtherKey(t, p);
    assert t[1..] == line[1..] + ("\n" + rest);
    SkipFlat(line[1..], "\n" + rest, p);
    assert ("\n" + rest)[1..] == rest;
  }

  // ----- Matching a written line -----

  lemma RawEscape(c: char, rest: string)
    requires RawBody(rest).Some? && !IsTerminator(c)
    ensures var (raw, after) := RawBody(rest).value;
            RawBody([BACKSLASH, c] + rest) == Some(([BACKSLASH, c] + raw, after))
  {
    assert ([BACKSLASH, c] + rest)[2..] == rest;
  }

  lemma EscapeShapes(c: char)
    ensures var e := EscapeChar(c);
            || (e == [c] && c != QUOTE && c != BACKSLASH)
            || (|e| == 2 && e == [BACKSLASH, e[1]] && !IsTerminator(e[1]))
            || (|e| == 6 && e == [BACKSLASH, 'u'] + e[2..] && Unquoted(e[2..]))
  {
  }

  lemma EscapeCharIsRaw(c: char, rest: string)
    requires RawBody(rest).Some?
    ensures var (raw, after) := RawBody(rest).value;
            RawBody(EscapeChar(c) + rest) == Some((EscapeChar(c) + raw, after))
  {
    EscapeShapes(c);
    RawShape(EscapeChar(c), rest);
  }

  lemma RawShape(e: string, rest: string)
    requires RawBody(rest).Some?
    requires || Unquoted(e)
             || (|e| == 2 && e == [BACKSLASH, e[1]] && !IsTerminator(e[1]))
             || (|e| == 6 && e == [BACKSLASH, 'u'] + e[2..] && Unquoted(e[2..]))
    ensures var (raw, after) := RawBody(rest).value; RawBody(e + rest) == Some((e + raw, after))
  {
    var (raw, after) := RawBody(rest).value;
    if Unquoted(e) {
      RawPlain(e, rest);
    } else if |e| == 2 {
      RawEscape(e[1], rest);
    } else {
      RawUnicode(e[2..], rest);
    }
  }

  lemma RawUnicode(digits: string, rest: string)
    requires RawBody(rest).Some? && Unquoted(digits)
    ensures var (raw, after) := RawBody(rest).value; var e := [BACKSLASH, 'u'] + digits;
            RawBody(e + rest) == Some((e + raw, after))
  {
    RawPlain(digits, rest);
    RawEscape('u', digits + rest);
    Assoc([BACKSLASH, 'u'], digits, rest);
    Assoc([BACKSLASH, 'u'], digits, RawBody(rest).value.0);
  }

  ghost predicate Unquoted(s: string) {
    forall i :: 0 <= i < |s| ==> s[i] != QUOTE && s[i] != BACKSLASH
  }

  lemma {:induction false} RawPlain(s: string, rest: string)
    requires RawBody(rest).Some? && Unquoted(s)
    ensures var (raw, after) := RawBody(rest).value; RawBody(s + rest) == Some((s + raw, after))
  {
    var (raw, after) := RawBody(rest).value;
    if s == [] {
      assert s + rest == rest && s + raw == raw;
    } else {
      RawPlain(s[1..], rest);
      assert (s + rest)[1..] == s[1..] + rest;
      assert [s[0]] + (s[1..] + raw) == s + raw;
    }
  }

  lemma {:induction false} EscapeIsRaw(s: string, rest: string)
    ensures RawBody(Escape(s) + ([QUOTE] + rest)) == Some((Escape(s) + [QUOTE], rest))
  {
    if s == [] {
      assert Escape(s) + ([QUOTE] + rest) == [QUOTE] + rest;
      assert ([QUOTE] + rest)[1..] == rest;
      assert Escape(s) + [QUOTE] == [QUOTE];
    } else {
      var tail := Escape(s[1..]) + ([QUOTE] + rest);
      EscapeIsRaw(s[1..], rest);
      EscapeCharIsRaw(s[0], tail);
      Assoc(EscapeChar(s[0]), Escape(s[1..]), [QUOTE] + rest);
      Assoc(EscapeChar(s[0]), Escape(s[1..]), [QUOTE]);
    }
  }

  lemma SkipOne(c: char, rest: string)
    ensures SkipWhite([c] + rest) == if IsWhite(c) then SkipWhite(rest) else [c] + rest
  {
    assert ([c] + rest)[1..] == rest;
  }

  lemma KeyMatches(key: string, v: string)
    requires key != [] && !IsWhite(key[0]) && v != [] && !IsWhite(v[0])
    ensures AfterKey(key + " = " + v, key) == Some(v)
  {
    var t := key + " = " + v;
    assert SkipWhite(t) == t;
    assert t[|key|..] == [' '] + (['='] + ([' '] + v));
    SkipOne(' ', ['='] + ([' '] + v));
    SkipOne('=', [' '] + v);
    SkipOne(' ', v);
    assert (['='] + ([' '] + v))[1..] == [' '] + v;
  }

  /** A written line is matched where it stands and reads as its value. */
  lemma LineMatches(key: string, value: string, rest: string)
    requires key != [] && !IsWhite(key[0])
    ensures MatchAt(Line(key, value) + "\n" + rest, StringOf(key)) == Some(Quote(value))
    ensures ParseLiteral(Quote(value)) == Some((value, ""))
  {
    var v := Quote(value) + ("\n" + rest);
    assert Line(key, value) + "\n" + rest == key + " = " + v;
    KeyMatches(key, v);
    assert v[1..] == Escape(value) + ([QUOTE] + ("\n" + rest));
    EscapeIsRaw(value, "\n" + rest);
    assert [QUOTE] + (Escape(value) + [QUOTE]) == Quote(value);
    LiteralRoundTrip(value, "");
    assert Quote(value) + "" == Quote(value);
  }

  lemma SchemaMatches(rest: string)
    ensures MatchAt(SCHEMA + "\n" + rest, Schema) == Some("1")
  {
    var v := ['1'] + ("\n" + rest);
    assert SCHEMA + "\n" + rest == "schema" + " = " + v;
    KeyMatches("schema", v);
    assert v[1..] == "\n" + rest;
    assert Digits("\n" + rest) == [];
    assert Digits(v) == ['1'] + Digits(v[1..]) == ['1'];
    assert AtEnd("\n" + rest);
  }

  // ----- Schema, id and name -----

  lemma {:induction false} IdIsAscii(id: string, word: bool)
    requires Accepts(id, word)
    ensures forall i :: 0 <= i < |id| ==> id[i] < 128 as char
  {
    if id != [] {
      IdIsAscii(id[1..], IsAlnum(id[0]));
      assert forall i :: 1 <= i < |id| ==> id[i] == id[1..][i - 1];
    }
  }

  lemma FlatConcat(a: string, b: string)
    requires Flat(a) && Flat(b)
    ensures Flat(a + b)
  {
  }

  lemma IdLineIsFlat(id: string)
    requires IsAgentId(id)
    ensures Flat(Line("id", id))
  {
    IdIsAscii(id, false);
    QuotePrintable(id);
    var q := Quote(id);
    forall i | 0 <= i < |q|
      ensures !IsTerminator(q[i])
    {
      assert q[i] in q;
    }
    FlatConcat("id" + " = ", q);
  }

  lemma CommentIsFlat()
    ensures Flat(COMMENT) && Flat(SCHEMA) && COMMENT != [] && COMMENT[0] == '#'
  {
    var c, d, e, f := "# Committed agent", " identity. Keep ", "`id` stable across", " deployments.";
    FlatConcat(e, f);
    FlatConcat(d, e + f);
    FlatConcat(c, d + (e + f));
  }

  /** The text after the comment, the schema and the id line, for each pattern that gets there. */
  lemma PassFirstLines(m: Manifest, p: Pattern)
    requires IsAgentId(m.id) && KeyOf(p) != []
    requires KeyOf(p)[0] != '#' && KeyOf(p)[0] != 's' && KeyOf(p)[0] != 'i'
    ensures Search(Text(m), true, p) == Search(Line("name", m.name) + "\n" + TemplateLine(m.template), true, p)
  {
    CommentIsFlat();
    IdLineIsFlat(m.id);
    var rest2 := Line("name", m.name) + "\n" + TemplateLine(m.template);
    var rest1 := Line("id", m.id) + "\n" + rest2;
    SkipLine(COMMENT, SCHEMA + "\n" + rest1, p);
    SkipLine(SCHEMA, rest1, p);
    SkipLine(Line("id", m.id), rest2, p);
  }

  lemma SchemaAndId(m: Manifest)
    requires IsAgentId(m.id)
    ensures SchemaIsOne(Text(m)) && TomlString(Text(m), "id") == Some(m.id)
  {
    CommentIsFlat();
    var rest1 := Line("id", m.id) + "\n" + (Line("name", m.name) + "\n" + TemplateLine(m.template));
    SkipLine(COMMENT, SCHEMA + "\n" + rest1, Schema);
    SchemaMatches(rest1);
    assert Number("1") == 1;
    SkipLine(COMMENT, SCHEMA + "\n" + rest1, StringOf("id"));
    SkipLine(SCHEMA, rest1, StringOf("id"));
    LineMatches("id", m.id, Line("name", m.name) + "\n" + TemplateLine(m.template));
  }

  lemma NameIsRead(m: Manifest)
    requires IsAgentId(m.id)
    ensures TomlString(Text(m), "name") == Some(m.name)
  {
    PassFirstLines(m, StringOf("name"));
    LineMatches("name", m.name, TemplateLine(m.template));
  }

  // ----- The template, past the name -----

  // Written names keep U+2028 and U+2029 as they are, and `^` matches after them: the only place
  // where a pattern can match inside a value.

  predicate KeptWhite(c: char) {
    c >= ' ' && IsWhite(c)
  }

  predicate KeptTerminator(c: char) {
    c >= ' ' && IsTerminator(c)
  }

  function SkipKept(n: string): string {
    if n != [] && KeptWhite(n[0]) then SkipKept(n[1..]) else n
  }

  /** White space, `template`, white space, `=`, white space at the start of a name, and the rest. */
  function AfterTemplate(n: string): Option<string> {
    var u := SkipKept(n);
    if "template" <= u then
      var v := SkipKept(u[8..]);
      if v != [] && v[0] == '=' then Some(SkipKept(v[1..])) else None
    else None
  }

  /** The name ends in a line separator followed by `template =`, give or take white space. */
  ghost predicate EndsInTemplateKey(name: string) {
    exists k :: 0 <= k < |name| && KeptTerminator(name[k]) && AfterTemplate(name[k + 1..]) == Some([])
  }

  /** The template starts with white space that contains a line separator. */
  predicate StartsWithTerminator(template: string) {
    template != [] && KeptWhite(template[0]) && (KeptTerminator(template[0]) || StartsWithTerminator(template[1..]))
  }

  predicate KeyEnd(n: string, bol: bool) {
    (bol && AfterTemplate(n) == Some([])) || (n != [] && KeyEnd(n[1..], KeptTerminator(n[0])))
  }

  lemma {:induction false} KeyEndMeans(n: string, bol: bool)
    ensures KeyEnd(n, bol) <==> (bol && AfterTemplate(n) == Some([])) || EndsInTemplateKey(n)
  {
    if n != [] {
      var rest := n[1..];
      KeyEndMeans(rest, KeptTerminator(n[0]));
      if EndsInTemplateKey(rest) {
        var k :| 0 <= k < |rest| && KeptTerminator(rest[k]) && AfterTemplate(rest[k + 1..]) == Some([]);
        assert n[k + 1 + 1..] == rest[k + 1..] && n[k + 1] == rest[k];
      }
      if EndsInTemplateKey(n) {
        var k :| 0 <= k < |n| && KeptTerminator(n[k]) && AfterTemplate(n[k + 1..]) == Some([]);
        if k > 0 {
          assert n[k + 1..] == rest[k - 1 + 1..] && n[k] == rest[k - 1];
        }
      }
      if KeptTerminator(n[0]) && AfterTemplate(rest) == Some([]) {
        assert n[0 + 1..] == rest;
      }
    }
  }

  lemma EscapeKept(c: char)
    ensures KeptWhite(c) ==> EscapeChar(c) == [c]
    ensures !KeptWhite(c) ==> !IsWhite(EscapeChar(c)[0])
    ensures !KeptTerminator(c) ==> Flat(EscapeChar(c))
    ensures EscapeChar(c)[0] != QUOTE
  {
  }

  /** An escaped text followed by its closing quote. */
  function Closed(n: string, rest: string): string {
    Escape(n) + ([QUOTE] + rest)
  }

  lemma ClosedStep(n: string, rest: string)
    requires n != []
    ensures Closed(n, rest) == EscapeChar(n[0]) + Closed(n[1..], rest)
    ensures Closed(n, rest)[0] == EscapeChar(n[0])[0]
  {
    Assoc(EscapeChar(n[0]), Escape(n[1..]), [QUOTE] + rest);
  }

  lemma {:induction false} SkipWhiteEscaped(n: string, rest: string)
    ensures SkipWhite(Closed(n, rest)) == Closed(SkipKept(n), rest)
  {
    if n == [] {
      assert Closed(n, rest)[0] == QUOTE;
    } else {
      ClosedStep(n, rest);
      EscapeKept(n[0]);
      if KeptWhite(n[0]) {
        SkipWhiteEscaped(n[1..], rest);
        assert Closed(n, rest)[1..] == Closed(n[1..], rest);
      }
    }
  }

  lemma {:induction false} PrefixEscaped(key: string, n: string, rest: string)
    requires forall i :: 0 <= i < |key| ==> 'a' <= key[i] <= 'z'
    ensures key <= Closed(n, rest) <==> key <= n
    ensures key <= n ==> Closed(n, rest)[|key|..] == Closed(n[|key|..], rest)
  {
    if key == [] {
      assert n[|key|..] == n && Closed(n, rest)[|key|..] == Closed(n, rest);
    } else {
      if n == [] {
        assert Closed(n, rest)[0] == QUOTE;
      } else {
        ClosedStep(n, rest);
        EscapeKept(n[0]);
        if n[0] == key[0] {
          assert EscapeChar(n[0]) == [n[0]];
          PrefixEscaped(key[1..], n[1..], rest);
          assert Closed(n, rest)[1..] == Closed(n[1..], rest);
          assert key <= Closed(n, rest) <==> key[1..] <= Closed(n[1..], rest);
          assert key <= n <==> key[1..] <= n[1..];
          if key <= n {
            assert n[|key|..] == n[1..][|key[1..]|..];
            assert Closed(n, rest)[|key|..] == Closed(n[1..], rest)[|key[1..]|..];
          }
        } else {
          assert EscapeChar(n[0])[0] != key[0];
        }
      }
    }
  }

  lemma EqualsEscaped(v: string, rest: string)
    ensures var t := Closed(v, rest);
            t != [] && (t[0] == '=' <==> v != [] && v[0] == '=') && (t[0] == '=' ==> SkipWhite(t[1..]) == Closed(SkipKept(v[1..]), rest))
  {
    if v == [] {
      assert Closed(v, rest)[0] == QUOTE;
    } else {
      ClosedStep(v, rest);
      EscapeKept(v[0]);
      if v[0] == '=' {
        assert Closed(v, rest)[1..] == Closed(v[1..], rest);
        SkipWhiteEscaped(v[1..], rest);
      } else {
        assert EscapeChar(v[0])[0] != '=';
      }
    }
  }

  lemma AfterKeyEscaped(n: string, rest: string)
    ensures AfterKey(Closed(n, rest), "template")
         == match AfterTemplate(n) case None => None case Some(n') => Some(Closed(n', rest))
  {
    var u := SkipKept(n);
    SkipWhiteEscaped(n, rest);
    PrefixEscaped("template", u, rest);
    if "template" <= u {
      SkipWhiteEscaped(u[8..], rest);
      EqualsEscaped(SkipKept(u[8..]), rest);
    }
  }

  /** Inside a written name the template pattern matches only at its very end. */
  lemma MatchInName(n: string, rest: string)
    ensures MatchAt(Closed(n, rest), StringOf("template"))
         == if AfterTemplate(n) == Some([]) then LiteralAt([QUOTE] + rest) else None
  {
    AfterKeyEscaped(n, rest);
    match AfterTemplate(n)
    case None =>
    case Some(n') =>
      if n' == [] {
        assert Closed(n', rest) == [QUOTE] + rest;
      } else {
        ClosedStep(n', rest);
        EscapeKept(n'[0]);
      }
  }

  lemma {:induction false} SearchInName(n: string, bol: bool, rest: string)
    ensures var p := StringOf("template");
            var inside := LiteralAt([QUOTE] + ("\n" + rest));
            Search(Closed(n, "\n" + rest), bol, p)
            == if KeyEnd(n, bol) && inside.Some? then inside else Search(rest, true, p)
  {
    var p := StringOf("template");
    var t := Closed(n, "\n" + rest);
    MatchInName(n, "\n" + rest);
    if n == [] {
      assert t == [QUOTE] + ("\n" + rest);
      assert t[1..] == "\n" + rest;
      assert ("\n" + rest)[1..] == rest;
    } else {
      var after := Closed(n[1..], "\n" + rest);
      SearchInName(n[1..], KeptTerminator(n[0]), rest);
      ClosedStep(n, "\n" + rest);
      StepOver(n[0], after, p);
    }
  }

  lemma StepOver(c: char, rest: string, p: Pattern)
    ensures var t := EscapeChar(c) + rest; Search(t[1..], IsTerminator(t[0]), p) == Search(rest, KeptTerminator(c), p)
  {
    var e := EscapeChar(c);
    var t := e + rest;
    EscapeKept(c);
    assert t[1..] == e[1..] + rest;
    if KeptTerminator(c) {
      assert e[1..] + rest == rest;
    } else {
      SkipFlat(e[1..], rest, p);
    }
  }

  // ----- What the closing quote of the name can open -----

  lemma {:induction false} AtEndEscaped(template: string, rest: string)
    ensures AtEnd(Closed(template, rest)) <==> StartsWithTerminator(template)
  {
    if template == [] {
      assert Closed(template, rest)[0] == QUOTE;
    } else {
      var c := template[0];
      ClosedStep(template, rest);
      EscapeKept(c);
      if KeptWhite(c) {
        AtEndEscaped(template[1..], rest);
        assert Closed(template, rest)[1..] == Closed(template[1..], rest);
      }
    }
  }

  /** The text between the name's closing quote and the template's opening one, quotes included. */
  const INSIDE := [QUOTE] + ("\ntemplate = " + [QUOTE])

  lemma InsideMatch(template: Option<string>)
    requires template != Some("")
    ensures LiteralAt([QUOTE] + ("\n" + TemplateLine(template)))
         == if template.Some? && StartsWithTerminator(template.value) then Some(INSIDE) else None
  {
    var v := "\n" + TemplateLine(template);
    if template.None? {
      assert v == "\n" && "\n"[1..] == [];
      LiteralNeedsClosing(v);
    } else {
      InsideSome(template.value);
    }
  }

  lemma InsideSome(template: string)
    requires template != ""
    ensures LiteralAt([QUOTE] + ("\n" + TemplateLine(Some(template))))
         == if StartsWithTerminator(template) then Some(INSIDE) else None
  {
    InsideLiteral(template);
    AtEndEscaped(template, "\n");
    SplitTemplateLine(template);
    LiteralIs("\n" + TemplateLine(Some(template)), "\ntemplate = " + [QUOTE], Closed(template, "\n"));
  }

  lemma LiteralNeedsClosing(v: string)
    requires RawBody(v).None?
    ensures LiteralAt([QUOTE] + v).None?
  {
    assert ([QUOTE] + v)[1..] == v;
  }

  lemma LiteralIs(v: string, raw: string, rest: string)
    requires RawBody(v) == Some((raw, rest))
    ensures LiteralAt([QUOTE] + v) == if AtEnd(rest) then Some([QUOTE] + raw) else None
  {
    assert ([QUOTE] + v)[1..] == v;
  }

  lemma SplitTemplateLine(template: string)
    requires template != ""
    ensures "\n" + TemplateLine(Some(template)) == "\ntemplate = " + ([QUOTE] + Closed(template, "\n"))
  {
    var key := "template = ";
    assert "\n" + key == "\ntemplate = ";
    assert "template" + " = " == key;
    assert TemplateLine(Some(template)) == key + ([QUOTE] + Closed(template, "\n"));
  }

  lemma InsideLiteral(template: string)
    ensures var tail := Closed(template, "\n");
            RawBody("\ntemplate = " + ([QUOTE] + tail)) == Some(("\ntemplate = " + [QUOTE], tail))
  {
    var tail := Closed(template, "\n");
    assert ([QUOTE] + tail)[1..] == tail;
    RawPlain("\ntemplate = ", [QUOTE] + tail);
  }

  /** A string with a raw line break is not JSON. */
  lemma InsideIsNotJson()
    ensures ParseLiteral(INSIDE).None?
  {
    assert INSIDE[1..][0] == '\n';
  }

  predicate Hidden(m: Manifest) {
    m.template.Some? && StartsWithTerminator(m.template.value) && KeyEnd(m.name, false)
  }

  lemma TemplateIsRead(m: Manifest)
    requires IsAgentId(m.id) && m.template != Some("")
    ensures TomlString(Text(m), "template") == if Hidden(m) then None else m.template
  {
    var p := StringOf("template");
    var rest := TemplateLine(m.template);
    PassFirstLines(m, p);
    PassNameKey(m.name, rest);
    SearchInName(m.name, false, rest);
    InsideMatch(m.template);
    InsideIsNotJson();
    TemplateLineMatches(m.template);
  }

  lemma PassNameKey(name: string, rest: string)
    ensures var p := StringOf("template");
            Search(Line("name", name) + "\n" + rest, true, p) == Search(Closed(name, "\n" + rest), false, p)
  {
    var p := StringOf("template");
    var t := Line("name", name) + "\n" + rest;
    var opening := "name = \"";
    assert t == opening + Closed(name, "\n" + rest);
    OtherKey(t, p);
    assert t[1..] == opening[1..] + Closed(name, "\n" + rest);
    SkipFlat(opening[1..], Closed(name, "\n" + rest), p);
  }

  lemma TemplateLineMatches(template: Option<string>)
    requires template != Some("")
    ensures TomlString(TemplateLine(template), "template") == template
  {
    if template.Some? {
      LineMatches("template", template.value, "");
      assert Line("template", template.value) + "\n" + "" == TemplateLine(template);
    }
  }

  // ----- Main results -----

  /** What reading a written manifest gives, for every manifest that can be written. */
  lemma {:induction false} ReadsBack(m: Manifest)
    requires WriteManifest(m).Some?
    ensures ReadManifest(WriteManifest(m).value)
         == if m.name == "" then None
            else Some(m.(template := if m.template == Some("") || Hidden(m) then None else m.template))
  {
    var shown := if m.template == Some("") then m.(template := None) else m;
    assert Text(m) == Text(shown);
    SchemaAndId(shown);
    NameIsRead(shown);
    TemplateIsRead(shown);
  }

  /** The round trip holds exactly when the name does not end in a template key of its own or the
      template does not start with a line separator. */
  lemma {:induction false} RoundTrip(m: Manifest)
    requires WriteManifest(m).Some? && m.name != "" && m.template != Some("")
    ensures ReadManifest(WriteManifest(m).value) == Some(m)
       <==> !(m.template.Some? && StartsWithTerminator(m.template.value) && EndsInTemplateKey(m.name))
  {
    ReadsBack(m);
    KeyEndMeans(m.name, false);
  }

  /** Whatever was read can be written, and reads back the same but for that case. */
  lemma {:induction false} RereadIsStable(source: string)
    requires ReadManifest(source).Some?
    ensures var m := ReadManifest(source).value;
            && WriteManifest(m).Some?
            && (ReadManifest(WriteManifest(m).value) == Some(m) <==> !Hidden(m))
  {
    ReadsBack(ReadManifest(source).value);
  }

  const LINE_SEPARATOR := 0x2028 as char

  /** A manifest whose template is lost. */
  lemma TemplateCanBeLost()
    ensures var name := "a" + [LINE_SEPARATOR] + "template=";
            var m := Manifest("a", name, Some([LINE_SEPARATOR] + "x"));
            && WriteManifest(m).Some?
            && ReadManifest(WriteManifest(m).value) == Some(Manifest("a", name, None))
  {
    var key := "template=";
    var name := "a" + [LINE_SEPARATOR] + key;
    var m := Manifest("a", name, Some([LINE_SEPARATOR] + "x"));
    assert "a"[1..] == "";
    assert IsAgentId("a");
    assert SkipKept(key) == key;
    assert key[8..] == "=";
    assert "="[1..] == "";
    assert AfterTemplate(key) == Some([]);
    assert name[1] == LINE_SEPARATOR && name[1 + 1..] == key;
    KeyEndMeans(name, false);
    ReadsBack(m);
  }
}
