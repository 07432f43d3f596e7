/** JSON values, as `JSON.stringify` writes them and `JSON.parse` reads them. A number is its text; an
    object is the list of its members. */
module JsonValue {
  import opened JsonText
  import opened JsonNumber

  datatype Json = Null | Bool(b: bool) | Num(text: Number) | Str(s: string) | Arr(items: seq<Json>) | Obj(members: seq<Member>)
  datatype Member = Member(key: string, value: Json)

  // ----- Writing -----

  function Print(j: Json): string
    decreases j
  {
    match j
    case Null => "null"
    case Bool(b) => if b then "true" else "false"
    case Num(text) => text
    case Str(s) => Quote(s)
    case Arr(items) => if items == [] then "[]" else "[" + PrintItems(items) + "]"
    case Obj(members) => if members == [] then "{}" else "{" + PrintMembers(members) + "}"
  }

  function PrintItems(items: seq<Json>): string
    requires items != []
    decreases items
  {
    Print(items[0]) + if |items| == 1 then "" else "," + PrintItems(items[1..])
  }

  function PrintMembers(members: seq<Member>): string
    requires members != []
    decreases members
  {
    PrintMember(members[0]) + if |members| == 1 then "" else "," + PrintMembers(members[1..])
  }

  function PrintMember(m: Member): string
    decreases m
  {
    Quote(m.key) + ":" + Print(m.value)
  }

  // ----- Reading -----

  predicate IsSpace(c: char) {
    c == ' ' || c == '\t' || c == '\n' || c == '\r'
  }

  function SkipSpace(t: string): (r: string)
    ensures |r| <= |t|
  {
    if t != [] && IsSpace(t[0]) then SkipSpace(t[1..]) else t
  }

  /** Drops the character `c` and the white space before it, if they come next. */
  function Expect(t: string, c: char): (r: Option<string>)
    ensures r.Some? ==> |r.value| < |t|
  {
    var u := SkipSpace(t);
    if u != [] && u[0] == c then Some(u[1..]) else None
  }

  function Word(t: string, w: string, j: Json): Option<(Json, string)> {
    if w <= t then Some((j, t[|w|..])) else None
  }

  function ParseScalar(u: string): (r: Option<(Json, string)>)
    requires u != []
    ensures r.Some? ==> |r.value.1| < |u|
  {
    if u[0] == QUOTE then
      match ParseLiteral(u)
      case None => None
      case Some((s, rest)) => Some((Str(s), rest))
    else if u[0] == '-' || IsDigit(u[0]) then
      match ParseNumber(u)
      case None => None
      case Some((text, rest)) => Some((Num(text), rest))
    else if u[0] == 'n' then Word(u, "null", Null)
    else if u[0] == 't' then Word(u, "true", Bool(true))
    else Word(u, "false", Bool(false))
  }

  function ParseValue(t: string): (r: Option<(Json, string)>)
    ensures r.Some? ==> |r.value.1| < |t|
    decreases |t|, 0
  {
    var u := SkipSpace(t);
    if u == [] then None
    else if u[0] == '[' then
      if Expect(u[1..], ']').Some? then Some((Arr([]), Expect(u[1..], ']').value))
      else
        match ParseItems(u[1..])
        case None => None
        case Some((items, rest)) => Some((Arr(items), rest))
    else if u[0] == '{' then
      if Expect(u[1..], '}').Some? then Some((Obj([]), Expect(u[1..], '}').value))
      else
        match ParseMembers(u[1..])
        case None => None
        case Some((members, rest)) => Some((Obj(members), rest))
    else ParseScalar(u)
  }

  /** One item or more, and the closing bracket. */
  function ParseItems(t: string): (r: Option<(seq<Json>, string)>)
    ensures r.Some? ==> |r.value.1| < |t|
    decreases |t|, 1
  {
    match ParseValue(t)
    case None => None
    case Some((item, rest)) =>
      if Expect(rest, ',').Some? then
        match ParseItems(Expect(rest, ',').value)
        case None => None
        case Some((items, after)) => Some(([item] + items, after))
      else if Expect(rest, ']').Some? then Some(([item], Expect(rest, ']').value))
      else None
  }

  function ParseMember(t: string): (r: Option<(Member, string)>)
    ensures r.Some? ==> |r.value.1| < |t|
    decreases |t|, 1
  {
    match ParseLiteral(SkipSpace(t))
    case None => None
    case Some((key, rest)) =>
      if Expect(rest, ':').None? then None
      else
        match ParseValue(Expect(rest, ':').value)
        case None => None
        case Some((value, after)) => Some((Member(key, value), after))
  }

  /** One member or more, and the closing brace. */
  function ParseMembers(t: string): (r: Option<(seq<Member>, string)>)
    ensures r.Some? ==> |r.value.1| < |t|
    decreases |t|, 2
  {
    match ParseMember(t)
    case None => None
    case Some((member, rest)) =>
      if Expect(rest, ',').Some? then
        match ParseMembers(Expect(rest, ',').value)
        case None => None
        case Some((members, after)) => Some(([member] + members, after))
      else if Expect(rest, '}').Some? then Some(([member], Expect(rest, '}').value))
      else None
  }

  /** `JSON.parse`: a value and nothing but white space around it. */
  function Parse(t: string): Option<Json> {
    match ParseValue(t)
    case None => None
    case Some((j, rest)) => if SkipSpace(rest) == [] then Some(j) else None
  }

  // ----- Round trip -----

  /** A written value starts with a character that is neither space nor a closing bracket. */
  lemma Opens(j: Json)
    ensures Print(j) != [] && !IsSpace(Print(j)[0]) && Print(j)[0] != ']' && Print(j)[0] > ' '
  {
    if j.Num? { NumberStarts(j.text); }
  }

  lemma NextIs(c: char, rest: string)
    requires !IsSpace(c)
    ensures Expect([c] + rest, c) == Some(rest)
    ensures forall d :: d != c ==> Expect([c] + rest, d).None?
  {
    assert ([c] + rest)[1..] == rest;
    assert SkipSpace([c] + rest) == [c] + rest;
  }

  /** A written value reads back, whatever follows it; after a number, only what does not go on with
      one may follow. */
  lemma {:induction false} ValueRoundTrip(j: Json, rest: string)
    requires j.Num? ==> Ends(rest)
    ensures ParseValue(Print(j) + rest) == Some((j, rest))
    decreases j, 0
  {
    match j
    case Null => WordRoundTrip(j, "null", rest);
    case Bool(b) => WordRoundTrip(j, if b then "true" else "false", rest);
    case Num(text) => NumRoundTrip(text, rest);
    case Str(s) => StrRoundTrip(s, rest);
    case Arr(items) => ArrayRoundTrip(items, rest);
    case Obj(members) => ObjectRoundTrip(members, rest);
  }

  lemma WordRoundTrip(j: Json, w: string, rest: string)
    requires (j.Null? && w == "null") || (j.Bool? && w == if j.b then "true" else "false")
    ensures ParseValue(w + rest) == Some((j, rest))
  {
    assert (w + rest)[0] == w[0];
    assert w <= w + rest && (w + rest)[|w|..] == rest;
    ScalarAlone(w + rest);
  }

  /** A text that starts with neither space nor a bracket is read as a scalar. */
  lemma ScalarAlone(t: string)
    requires t != [] && !IsSpace(t[0]) && t[0] != '[' && t[0] != '{'
    ensures ParseValue(t) == ParseScalar(t)
  {
    assert SkipSpace(t) == t;
  }

  lemma StrRoundTrip(s: string, rest: string)
    ensures ParseValue(Quote(s) + rest) == Some((Str(s), rest))
  {
    assert (Quote(s) + rest)[0] == QUOTE;
    ScalarAlone(Quote(s) + rest);
    LiteralRoundTrip(s, rest);
  }

  lemma OpenText(open: char, body: string, close: char, rest: string)
    ensures ([open] + body + [close] + rest)[1..] == body + [close] + rest
  {
  }

  lemma ListText(first: string, others: string, rest: string)
    ensures first + ("," + others) + rest == first + ([','] + (others + rest))
  {
  }

  lemma NumRoundTrip(text: Number, rest: string)
    requires Ends(rest)
    ensures ParseValue(text + rest) == Some((Num(text), rest))
  {
    NumberStarts(text);
    assert (text + rest)[0] == text[0];
    ScalarAlone(text + rest);
    NumberRoundTrip(text, rest);
  }

  lemma MembersOpen(members: seq<Member>)
    requires members != []
    ensures PrintMembers(members) != [] && PrintMembers(members)[0] == QUOTE
  {
    assert PrintMember(members[0])[0] == QUOTE;
  }

  lemma {:induction false} ArrayRoundTrip(items: seq<Json>, rest: string)
    ensures ParseValue(Print(Arr(items)) + rest) == Some((Arr(items), rest))
    decreases items, 2
  {
    var t := Print(Arr(items)) + rest;
    if items == [] {
      assert t[1..] == [']'] + rest;
      NextIs(']', rest);
    } else {
      OpenText('[', PrintItems(items), ']', rest);
      Opens(items[0]);
      assert t[1..][0] == Print(items[0])[0];
      ItemsRoundTrip(items, rest);
    }
  }

  lemma {:induction false} ObjectRoundTrip(members: seq<Member>, rest: string)
    ensures ParseValue(Print(Obj(members)) + rest) == Some((Obj(members), rest))
    decreases members, 2
  {
    var t := Print(Obj(members)) + rest;
    if members == [] {
      assert t[1..] == ['}'] + rest;
      NextIs('}', rest);
    } else {
      OpenText('{', PrintMembers(members), '}', rest);
      MembersOpen(members);
      assert t[1..][0] == QUOTE;
      MembersRoundTrip(members, rest);
    }
  }

  lemma {:induction false} ItemsRoundTrip(items: seq<Json>, rest: string)
    requires items != []
    ensures ParseItems(PrintItems(items) + [']'] + rest) == Some((items, rest))
    decreases items, 1
  {
    var t := PrintItems(items) + [']'] + rest;
    if |items| == 1 {
      Assoc(Print(items[0]) + "", [']'], rest);
      assert Print(items[0]) + "" == Print(items[0]);
      ValueRoundTrip(items[0], [']'] + rest);
      NextIs(']', rest);
      assert items == [items[0]];
    } else {
      var more := PrintItems(items[1..]) + [']'] + rest;
      ListText(Print(items[0]), PrintItems(items[1..]), [']'] + rest);
      Assoc(PrintItems(items), [']'], rest);
      Assoc(PrintItems(items[1..]), [']'], rest);
      ValueRoundTrip(items[0], [','] + more);
      NextIs(',', more);
      ItemsRoundTrip(items[1..], rest);
      assert items == [items[0]] + items[1..];
    }
  }

  lemma LastMember(t: string, m: Member, rest: string)
    requires ParseMember(t) == Some((m, ['}'] + rest))
    ensures ParseMembers(t) == Some(([m], rest))
  {
    NextIs('}', rest);
  }

  lemma NextMember(t: string, m: Member, more: string, ms: seq<Member>, rest: string)
    requires ParseMember(t) == Some((m, [','] + more)) && ParseMembers(more) == Some((ms, rest))
    ensures ParseMembers(t) == Some(([m] + ms, rest))
  {
    NextIs(',', more);
  }

  lemma {:induction false} MembersRoundTrip(members: seq<Member>, rest: string)
    requires members != []
    ensures ParseMembers(PrintMembers(members) + ['}'] + rest) == Some((members, rest))
    decreases members, 1
  {
    if |members| == 1 {
      MemberRoundTrip(members[0], ['}'] + rest);
      LastMember(PrintMember(members[0]) + (['}'] + rest), members[0], rest);
      OneMemberText(members, rest);
    } else {
      var more := PrintMembers(members[1..]) + ['}'] + rest;
      MemberRoundTrip(members[0], [','] + more);
      MembersRoundTrip(members[1..], rest);
      NextMember(PrintMember(members[0]) + ([','] + more), members[0], more, members[1..], rest);
      MembersText(members, rest);
    }
  }

  lemma OneMemberText(members: seq<Member>, rest: string)
    requires |members| == 1
    ensures PrintMembers(members) + ['}'] + rest == PrintMember(members[0]) + (['}'] + rest) && members == [members[0]]
  {
    assert PrintMember(members[0]) + "" == PrintMember(members[0]);
    Assoc(PrintMember(members[0]), ['}'], rest);
  }

  lemma MembersText(members: seq<Member>, rest: string)
    requires |members| > 1
    ensures PrintMembers(members) + ['}'] + rest == PrintMember(members[0]) + ([','] + (PrintMembers(members[1..]) + ['}'] + rest))
    ensures members == [members[0]] + members[1..]
  {
    var text, others := PrintMember(members[0]), PrintMembers(members[1..]);
    ListText(text, others, ['}'] + rest);
    Assoc(text + ("," + others), ['}'], rest);
    Assoc(others, ['}'], rest);
  }

  lemma {:induction false} MemberRoundTrip(m: Member, rest: string)
    requires m.value.Num? ==> Ends(rest)
    ensures ParseMember(PrintMember(m) + rest) == Some((m, rest))
    decreases m, 0
  {
    var after := [':'] + (Print(m.value) + rest);
    assert PrintMember(m) + rest == Quote(m.key) + after;
    assert SkipSpace(Quote(m.key) + after) == Quote(m.key) + after;
    LiteralRoundTrip(m.key, after);
    NextIs(':', Print(m.value) + rest);
    ValueRoundTrip(m.value, rest);
  }

  /** Every written value reads back as itself. */
  lemma RoundTrip(j: Json)
    ensures Parse(Print(j)) == Some(j)
  {
    assert Print(j) + "" == Print(j);
    ValueRoundTrip(j, "");
  }

  // ----- A written value is one line -----

  ghost predicate Printable(t: string) {
    forall c <- t :: c >= ' '
  }

  lemma {:induction false} PrintIsPrintable(j: Json)
    ensures Printable(Print(j))
    decreases j, 0
  {
    match j
    case Null =>
    case Bool(b) =>
    case Num(text) => NumberChars(text);
    case Str(s) => QuotePrintable(s);
    case Arr(items) => if items != [] { ItemsPrintable(items); }
    case Obj(members) => if members != [] { MembersPrintable(members); }
  }

  lemma {:induction false} ItemsPrintable(items: seq<Json>)
    requires items != []
    ensures Printable(PrintItems(items))
    decreases items, 1
  {
    PrintIsPrintable(items[0]);
    if |items| > 1 { ItemsPrintable(items[1..]); }
  }

  lemma {:induction false} MembersPrintable(members: seq<Member>)
    requires members != []
    ensures Printable(PrintMembers(members))
    decreases members, 1
  {
    QuotePrintable(members[0].key);
    PrintIsPrintable(members[0].value);
    if |members| > 1 { MembersPrintable(members[1..]); }
  }
}
