/** Agent ids: lower-case letters and digits in words joined by single hyphens
    (`agentIdFromName` and `AGENT_ID_PATTERN` in cli/src/project.ts). */
module AgentId {
  import opened JsonText

  predicate IsAlnum(c: char) {
    'a' <= c <= 'z' || '0' <= c <= '9'
  }

  /** The pattern `^[a-z0-9]+(?:-[a-z0-9]+)*$` as an automaton: `word` says that the last character
      read belongs to a word. */
  predicate Accepts(s: string, word: bool) {
    if s == [] then word
    else if IsAlnum(s[0]) then Accepts(s[1..], true)
    else s[0] == '-' && word && Accepts(s[1..], false)
  }

  predicate IsAgentId(s: string) {
    Accepts(s, false)
  }

  // ----- From a name to an id -----

  /** `toLowerCase`, as far as letters of the pattern are concerned: besides A to Z only U+212A and
      U+0130 have one in their lower-case form. */
  function LowerChar(c: char): string {
    if 'A' <= c <= 'Z' then [(c as int + 32) as char]
    else if c as int == 0x212A then ['k']
    else if c as int == 0x130 then ['i', 0x307 as char]
    else [c]
  }

  function Lower(s: string): string {
    if s == [] then [] else LowerChar(s[0]) + Lower(s[1..])
  }

  /** Replaces every run of other characters by one hyphen; `gap` says that a run is under way. */
  function Collapse(s: string, gap: bool): string {
    if s == [] then []
    else if IsAlnum(s[0]) then [s[0]] + Collapse(s[1..], false)
    else (if gap then [] else ['-']) + Collapse(s[1..], true)
  }

  function StripLeading(s: string): string {
    if s != [] && s[0] == '-' then StripLeading(s[1..]) else s
  }

  function StripTrailing(s: string): string {
    if s != [] && s[|s| - 1] == '-' then StripTrailing(s[..|s| - 1]) else s
  }

  /** `None` is the error "Agent names must contain letters or numbers". */
  function AgentIdFromName(value: string): Option<string> {
    var id := StripTrailing(StripLeading(Collapse(Lower(value), false)));
    if id == [] || !IsAgentId(id) then None else Some(id)
  }

  // ----- The words of a text, independently -----

  /** The words (maximal runs) of a text; `word` is the one under way. */
  function Words(s: string, word: string): seq<string> {
    if s == [] then (if word == [] then [] else [word])
    else if IsAlnum(s[0]) then Words(s[1..], word + [s[0]])
    else (if word == [] then [] else [word]) + Words(s[1..], [])
  }

  function Join(words: seq<string>): string {
    if words == [] then [] else if |words| == 1 then words[0] else words[0] + "-" + Join(words[1..])
  }

  ghost predicate IsWord(w: string) {
    w != [] && forall c <- w :: IsAlnum(c)
  }

  ghost predicate AreWords(words: seq<string>) {
    forall i :: 0 <= i < |words| ==> IsWord(words[i])
  }

  lemma {:induction false} WordsAreWords(s: string, word: string)
    requires forall c <- word :: IsAlnum(c)
    ensures AreWords(Words(s, word))
  {
    if s != [] {
      if IsAlnum(s[0]) { WordsAreWords(s[1..], word + [s[0]]); } else { WordsAreWords(s[1..], []); }
    }
  }

  /** There is a word under way exactly if something was read into it. */
  lemma {:induction false} NoWords(s: string, word: string)
    ensures Words(s, word) == [] <==> word == [] && forall c <- s :: !IsAlnum(c)
  {
    if s != [] {
      if IsAlnum(s[0]) {
        NoWords(s[1..], word + [s[0]]);
        assert s[0] in s;
      } else {
        NoWords(s[1..], []);
        assert (forall c <- s :: !IsAlnum(c)) <==> (forall c <- s[1..] :: !IsAlnum(c));
      }
    }
  }

  // ----- The id of a name is its words, joined -----

  /** The trailing hyphen of a collapsed text. */
  function Trail(s: string): string {
    if s != [] && !IsAlnum(s[|s| - 1]) then "-" else ""
  }

  lemma {:induction false} StripTrailingWord(s: string)
    requires s == [] || s[|s| - 1] != '-'
    ensures StripTrailing(s) == s && StripTrailing(s + "-") == s
  {
    assert (s + "-")[..|s + "-"| - 1] == s;
  }

  /** Collapsing a text in mid-word (`word` already copied) gives its words joined, and a hyphen if
      it ends in a gap. */
  lemma {:induction false} CollapseInWord(s: string, word: string)
    requires word != []
    ensures var j := Join(Words(s, word)); word + Collapse(s, false) == j + Trail(s)
  {
    if s == [] {
      assert word + Collapse(s, false) == word;
    } else if IsAlnum(s[0]) {
      CollapseInWord(s[1..], word + [s[0]]);
      assert word + Collapse(s, false) == word + [s[0]] + Collapse(s[1..], false);
      TrailOfRest(s);
    } else {
      CollapseInGap(s[1..]);
      NoWords(s[1..], []);
      var rest := Words(s[1..], []);
      assert Collapse(s, false) == "-" + Collapse(s[1..], true) && Words(s, word) == [word] + rest;
      if rest == [] {
        assert !IsAlnum(s[|s| - 1]);
      } else {
        TrailOfRest(s);
        AfterGap(word, rest, Trail(s));
      }
    }
  }

  lemma AfterGap(word: string, rest: seq<string>, trail: string)
    requires rest != []
    ensures word + ("-" + (Join(rest) + trail)) == Join([word] + rest) + trail
  {
    assert ([word] + rest)[1..] == rest;
  }

  lemma TrailOfRest(s: string)
    requires s != [] && (|s| > 1 || IsAlnum(s[0]))
    ensures Trail(s) == Trail(s[1..])
  {
  }

  lemma {:induction false} CollapseInGap(s: string)
    ensures Collapse(s, true) == if Words(s, []) == [] then [] else Join(Words(s, [])) + Trail(s)
  {
    NoWords(s, []);
    if s != [] {
      if IsAlnum(s[0]) {
        CollapseInWord(s[1..], [s[0]]);
        assert [] + [s[0]] == [s[0]];
        TrailOfRest(s);
      } else {
        CollapseInGap(s[1..]);
        NoWords(s[1..], []);
        assert [] + Words(s[1..], []) == Words(s[1..], []);
        if Words(s[1..], []) != [] {
          TrailOfRest(s);
        }
      }
    }
  }

  lemma {:induction false} JoinEnds(words: seq<string>)
    requires words != [] && AreWords(words)
    ensures var j := Join(words); j != [] && j[0] != '-' && j[|j| - 1] != '-'
    ensures Accepts(Join(words), false)
  {
    if |words| == 1 {
      AcceptsWord(words[0], "", false);
      assert words[0] + "" == words[0];
      assert words[0][0] in words[0] && words[0][|words[0]| - 1] in words[0];
    } else {
      JoinEnds(words[1..]);
      WordInFront(words[0], Join(words[1..]));
    }
  }

  lemma WordInFront(w: string, j: string)
    requires IsWord(w) && j != [] && j[|j| - 1] != '-' && j[0] != '-' && Accepts(j, false)
    ensures var t := w + "-" + j; t[0] != '-' && t[|t| - 1] != '-' && Accepts(t, false)
  {
    var rest := "-" + j;
    assert rest[1..] == j;
    AcceptsWord(w, rest, false);
    assert w + "-" + j == w + rest;
    assert w[0] in w;
  }

  lemma {:induction false} AcceptsWord(w: string, rest: string, word: bool)
    requires IsWord(w)
    ensures Accepts(w + rest, word) == Accepts(rest, true)
  {
    assert w[0] in w;
    assert (w + rest)[1..] == w[1..] + rest;
    if |w| == 1 {
      assert w[1..] + rest == rest;
    } else {
      AcceptsWord(w[1..], rest, true);
    }
  }

  /** The id of a name: its words joined by hyphens, or an error if it has none. */
  lemma IdIsJoinedWords(value: string)
    ensures var words := Words(Lower(value), []);
            AgentIdFromName(value) == if words == [] then None else Some(Join(words))
  {
    var s := Lower(value);
    var words := Words(s, []);
    WordsAreWords(s, []);
    NoWords(s, []);
    if words == [] {
      CollapseInGap(s);
      if s != [] {
        assert !IsAlnum(s[0]) && Collapse(s, false) == "-" + Collapse(s, true);
        assert StripLeading("-") == [];
      }
    } else {
      JoinEnds(words);
      StripTrailingWord(Join(words));
      CollapsedName(s);
      assert Join(words) + "" == Join(words);
    }
  }

  lemma CollapsedName(s: string)
    requires Words(s, []) != [] && Join(Words(s, [])) != [] && Join(Words(s, []))[0] != '-'
    ensures StripLeading(Collapse(s, false)) == Join(Words(s, [])) + Trail(s)
  {
    var j := Join(Words(s, [])) + Trail(s);
    CollapseInGap(s);
    assert StripLeading(j) == j;
    if IsAlnum(s[0]) {
      assert Collapse(s, false) == Collapse(s, true);
    } else {
      assert Collapse(s, false) == "-" + Collapse(s, true);
      assert ("-" + j)[1..] == j;
    }
  }

  // ----- What the words of a text are -----

  /** The words of an id, joined, are the id. */
  lemma {:induction false} IdSplits(s: string, word: string)
    requires Accepts(s, word != []) && forall c <- word :: IsAlnum(c)
    ensures Words(s, word) != [] && Join(Words(s, word)) == word + s
  {
    if s == [] {
      assert word + s == word;
    } else if IsAlnum(s[0]) {
      IdSplits(s[1..], word + [s[0]]);
      assert word + [s[0]] + s[1..] == word + s;
    } else {
      IdSplits(s[1..], []);
      var rest := Words(s[1..], []);
      assert ([word] + rest)[1..] == rest;
      assert word + "-" + ([] + s[1..]) == word + s;
    }
  }

  lemma {:induction false} LowerKeepsIds(s: string, word: bool)
    requires Accepts(s, word)
    ensures Lower(s) == s
  {
    if s != [] {
      LowerKeepsIds(s[1..], IsAlnum(s[0]));
      assert [s[0]] + s[1..] == s;
    }
  }

  /** Every id is the id of itself. */
  lemma {:induction false} IdsAreFixed(id: string)
    requires IsAgentId(id)
    ensures AgentIdFromName(id) == Some(id)
  {
    LowerKeepsIds(id, false);
    IdSplits(id, []);
    IdIsJoinedWords(id);
    assert [] + id == id;
  }

  /** Lower case, character by character, of an ASCII text. */
  lemma {:induction false} LowerAscii(s: string)
    requires forall i :: 0 <= i < |s| ==> s[i] as int < 128
    ensures |Lower(s)| == |s|
    ensures forall i :: 0 <= i < |s| ==> Lower(s)[i] as int == if 'A' <= s[i] <= 'Z' then s[i] as int - 'A' as int + 'a' as int else s[i] as int
  {
    if s != [] {
      LowerAscii(s[1..]);
      assert Lower(s)[1..] == Lower(s[1..]);
      forall i | 0 < i < |s|
        ensures Lower(s)[i] == Lower(s[1..])[i - 1]
      {
      }
    }
  }

  lemma {:induction false} LowerConcat(a: string, b: string)
    ensures Lower(a + b) == Lower(a) + Lower(b)
  {
    if a == [] {
      assert a + b == b;
    } else {
      assert (a + b)[1..] == a[1..] + b;
      LowerConcat(a[1..], b);
    }
  }

  /** Case does not matter: a capital letter anywhere in a name can be replaced by its small one. */
  lemma CaseIsIgnored(a: string, upper: char, lower: char, b: string)
    requires 'A' <= upper <= 'Z' && lower as int == upper as int - 'A' as int + 'a' as int
    ensures AgentIdFromName(a + [upper] + b) == AgentIdFromName(a + [lower] + b)
  {
    LowerConcat(a + [upper], b);
    LowerConcat(a, [upper]);
    LowerConcat(a + [lower], b);
    LowerConcat(a, [lower]);
    assert Lower([upper]) == [lower] + Lower([upper][1..]) && Lower([lower]) == [lower] + Lower([lower][1..]);
  }

  /** A letter or digit of ASCII, the Kelvin sign or the dotted capital I. */
  predicate Yields(c: char) {
    'a' <= c <= 'z' || 'A' <= c <= 'Z' || '0' <= c <= '9' || c as int == 0x212A || c as int == 0x130
  }

  lemma {:induction false} LowerYields(s: string)
    ensures (forall c <- Lower(s) :: !IsAlnum(c)) <==> forall c <- s :: !Yields(c)
  {
    if s != [] {
      LowerYields(s[1..]);
      assert s == [s[0]] + s[1..];
      assert Yields(s[0]) ==> IsAlnum(LowerChar(s[0])[0]) && LowerChar(s[0])[0] in Lower(s);
      assert forall c :: c in Lower(s) <==> c in LowerChar(s[0]) || c in Lower(s[1..]);
    }
  }

  /** The result is always an id, is a fixed point, and fails only for names without a letter or
      digit. */
  lemma {:induction false} IdOfName(value: string)
    ensures AgentIdFromName(value).None? <==> forall c <- value :: !Yields(c)
    ensures AgentIdFromName(value).Some? ==>
              var id := AgentIdFromName(value).value; IsAgentId(id) && AgentIdFromName(id) == Some(id)
  {
    IdIsJoinedWords(value);
    NoWords(Lower(value), []);
    LowerYields(value);
    if AgentIdFromName(value).Some? {
      IdsAreFixed(AgentIdFromName(value).value);
    }
  }
}
