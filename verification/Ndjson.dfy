/** The line protocol between the local agent service and its client (cli/src/local.ts): one JSON
    value per line, arriving in chunks that respect no boundary. */
module Ndjson {
  import opened JsonText
  import opened JsonNumber
  import opened JsonValue

  /** The text the service writes for a sequence of events. */
  function Stream(events: seq<Json>): string {
    if events == [] then "" else Stream(events[..|events| - 1]) + Print(events[|events| - 1]) + "\n"
  }

  function Concat(chunks: seq<string>): string {
    if chunks == [] then "" else Concat(chunks[..|chunks| - 1]) + chunks[|chunks| - 1]
  }

  // ----- Splitting into lines -----

  datatype Split = Split(lines: seq<string>, rest: string)

  /** One more character: it ends the line or lengthens it. */
  function Extend(s: Split, c: char): Split {
    if c == '\n' then Split(s.lines + [s.rest], "") else Split(s.lines, s.rest + [c])
  }

  /** The complete lines of a text, and what follows its last newline. */
  function SplitLines(t: string): Split {
    if t == [] then Split([], "") else Extend(SplitLines(t[..|t| - 1]), t[|t| - 1])
  }

  function Unsplit(lines: seq<string>): string {
    if lines == [] then "" else Unsplit(lines[..|lines| - 1]) + lines[|lines| - 1] + "\n"
  }

  lemma SplitSnoc(t: string, c: char)
    ensures SplitLines(t + [c]) == Extend(SplitLines(t), c)
  {
    assert (t + [c])[..|t|] == t;
  }

  lemma UnsplitSnoc(lines: seq<string>, line: string)
    ensures Unsplit(lines + [line]) == Unsplit(lines) + line + "\n"
  {
    assert (lines + [line])[..|lines|] == lines;
  }

  /** No line holds a newline. */
  ghost predicate Cut(s: Split) {
    '\n' !in s.rest && forall i :: 0 <= i < |s.lines| ==> '\n' !in s.lines[i]
  }

  lemma ExtendExact(s: Split, c: char)
    requires Cut(s)
    ensures Cut(Extend(s, c))
    ensures Unsplit(Extend(s, c).lines) + Extend(s, c).rest == Unsplit(s.lines) + s.rest + [c]
  {
    if c == '\n' {
      UnsplitSnoc(s.lines, s.rest);
    }
  }

  /** The split cuts the text at its newlines and nowhere else. */
  lemma {:induction false} SplitIsExact(t: string)
    ensures Unsplit(SplitLines(t).lines) + SplitLines(t).rest == t
    ensures Cut(SplitLines(t))
  {
    if t != [] {
      var t0, c := t[..|t| - 1], t[|t| - 1];
      SplitIsExact(t0);
      ExtendExact(SplitLines(t0), c);
      assert t == t0 + [c];
    }
  }

  /** Text that arrives later continues the unfinished line and starts after the finished ones. */
  lemma {:induction false} SplitContinues(a: string, b: string)
    ensures var s := SplitLines(a);
            var u := SplitLines(s.rest + b);
            SplitLines(a + b) == Split(s.lines + u.lines, u.rest)
  {
    var s := SplitLines(a);
    if b == [] {
      SplitIsExact(a);
      NoNewline(s.rest);
      assert a + b == a && s.rest + b == s.rest;
    } else {
      var b1, c := b[..|b| - 1], b[|b| - 1];
      SplitContinues(a, b1);
      assert a + b == (a + b1) + [c] && s.rest + b == (s.rest + b1) + [c];
      SplitSnoc(a + b1, c);
      SplitSnoc(s.rest + b1, c);
      MoreLines(s.lines, SplitLines(s.rest + b1), c);
    }
  }

  lemma MoreLines(lines: seq<string>, u: Split, c: char)
    ensures Extend(Split(lines + u.lines, u.rest), c) == Split(lines + Extend(u, c).lines, Extend(u, c).rest)
  {
    assert lines + (u.lines + [u.rest]) == lines + u.lines + [u.rest];
  }

  lemma {:induction false} NoNewline(t: string)
    requires '\n' !in t
    ensures SplitLines(t) == Split([], t)
  {
    if t != [] {
      var t0, c := t[..|t| - 1], t[|t| - 1];
      assert t == t0 + [c];
      NoNewline(t0);
      SplitSnoc(t0, c);
    }
  }

  // ----- Reading events -----

  predicate Blank(line: string) {
    forall c <- line :: IsWhite(c)
  }

  /** What a client makes of a list of lines: `None` when `parse` refuses one of them. */
  function Events(parse: string -> Option<Json>, lines: seq<string>): Option<seq<Json>> {
    if lines == [] then Some([])
    else
      match Events(parse, lines[..|lines| - 1])
      case None => None
      case Some(before) =>
        var line := lines[|lines| - 1];
        if Blank(line) then Some(before)
        else
          match parse(line)
          case None => None
          case Some(e) => Some(before + [e])
  }

  lemma EventsSnoc(parse: string -> Option<Json>, lines: seq<string>, line: string)
    ensures var all := Events(parse, lines + [line]);
            match Events(parse, lines)
            case None => all == None
            case Some(before) =>
              all == if Blank(line) then Some(before)
                     else if parse(line).None? then None else Some(before + [parse(line).value])
  {
    assert (lines + [line])[..|lines|] == lines;
  }

  lemma {:induction false} EventsStop(parse: string -> Option<Json>, lines: seq<string>, more: seq<string>)
    requires Events(parse, lines).None?
    ensures Events(parse, lines + more).None?
  {
    if more == [] {
      assert lines + more == lines;
    } else {
      EventsStop(parse, lines, more[..|more| - 1]);
      assert lines + more == lines + more[..|more| - 1] + [more[|more| - 1]];
      EventsSnoc(parse, lines + more[..|more| - 1], more[|more| - 1]);
    }
  }

  lemma StopsAt(parse: string -> Option<Json>, before: seq<string>, lines: seq<string>, i: nat)
    requires i < |lines| && Events(parse, before + lines[..i] + [lines[i]]).None?
    ensures Events(parse, before + lines).None?
  {
    EventsStop(parse, before + lines[..i] + [lines[i]], lines[i + 1..]);
    assert before + lines == before + lines[..i] + [lines[i]] + lines[i + 1..];
  }

  lemma TakeSnoc(before: seq<string>, lines: seq<string>, i: nat)
    requires i < |lines|
    ensures before + lines[..i + 1] == before + lines[..i] + [lines[i]]
  {
  }

  /** The client's loop over the response body; `parse` stands for `JSON.parse`. `seen` is what it
      handed to its callback. */
  class Reader {
    const parse: string -> Option<Json>
    var buffered: string
    var seen: seq<Json>

    constructor (p: string -> Option<Json>)
      ensures parse == p && buffered == "" && seen == []
    {
      parse := p;
      buffered := "";
      seen := [];
    }

    /** The lines one chunk completed. */
    method Consume(lines: seq<string>, ghost before: seq<string>) returns (ok: bool)
      requires Events(parse, before) == Some(seen)
      modifies this`seen
      ensures ok <==> Events(parse, before + lines).Some?
      ensures ok ==> Events(parse, before + lines) == Some(seen)
    {
      ok := true;
      var i := 0;
      ghost var done := before;
      while i < |lines|
        invariant 0 <= i <= |lines| && done == before + lines[..i]
        invariant Events(parse, done) == Some(seen)
      {
        EventsSnoc(parse, done, lines[i]);
        TakeSnoc(before, lines, i);
        done := done + [lines[i]];
        if !Blank(lines[i]) {
          var e := parse(lines[i]);
          if e.None? {
            StopsAt(parse, before, lines, i);
            return false;
          }
          seen := seen + [e.value];
        }
        i := i + 1;
      }
      assert done == before + lines;
    }

    /** However the body is cut into chunks, the client sees the events of its complete lines. */
    method ReadAll(chunks: seq<string>) returns (ok: bool)
      requires buffered == "" && seen == []
      modifies this
      ensures ok <==> Events(parse, SplitLines(Concat(chunks)).lines).Some?
      ensures ok ==> Events(parse, SplitLines(Concat(chunks)).lines) == Some(seen)
      ensures ok ==> buffered == SplitLines(Concat(chunks)).rest
    {
      ok := true;
      var i := 0;
      while i < |chunks|
        invariant 0 <= i <= |chunks|
        invariant Events(parse, SplitLines(Concat(chunks[..i])).lines) == Some(seen)
        invariant buffered == SplitLines(Concat(chunks[..i])).rest
      {
        ghost var s := SplitLines(Concat(chunks[..i]));
        ConcatSnoc(chunks, i);
        SplitContinues(Concat(chunks[..i]), chunks[i]);
        var u := SplitLines(buffered + chunks[i]);
        buffered := u.rest;
        ok := Consume(u.lines, s.lines);
        if !ok {
          StopsForGood(parse, chunks, i + 1);
          return;
        }
        i := i + 1;
      }
      assert chunks[..i] == chunks;
    }
  }

  lemma ConcatSnoc(chunks: seq<string>, i: nat)
    requires i < |chunks|
    ensures Concat(chunks[..i + 1]) == Concat(chunks[..i]) + chunks[i]
  {
    assert chunks[..i + 1][..i] == chunks[..i];
  }

  lemma {:induction false} StopsForGood(parse: string -> Option<Json>, chunks: seq<string>, i: nat)
    requires i <= |chunks| && Events(parse, SplitLines(Concat(chunks[..i])).lines).None?
    ensures Events(parse, SplitLines(Concat(chunks)).lines).None?
    decreases |chunks| - i
  {
    if i == |chunks| {
      assert chunks[..i] == chunks;
    } else {
      ConcatSnoc(chunks, i);
      SplitContinues(Concat(chunks[..i]), chunks[i]);
      var s := SplitLines(Concat(chunks[..i]));
      EventsStop(parse, s.lines, SplitLines(s.rest + chunks[i]).lines);
      StopsForGood(parse, chunks, i + 1);
    }
  }

  // ----- What the service wrote is what the client reads -----

  /** Every written value is one line that is not blank and reads back. */
  ghost predicate ReadsWritten(parse: string -> Option<Json>) {
    forall e: Json :: parse(Print(e)) == Some(e)
  }

  lemma {:induction false} ParseReadsWritten()
    ensures ReadsWritten(Parse)
  {
    forall e: Json
      ensures Parse(Print(e)) == Some(e)
    {
      RoundTrip(e);
    }
  }

  lemma {:induction false} StreamSplits(parse: string -> Option<Json>, events: seq<Json>)
    requires ReadsWritten(parse)
    ensures SplitLines(Stream(events)).rest == ""
    ensures Events(parse, SplitLines(Stream(events)).lines) == Some(events)
  {
    if events != [] {
      var before, e := events[..|events| - 1], events[|events| - 1];
      assert events == before + [e];
      StreamSplits(parse, before);
      StreamSnoc(before, e);
      OneMore(parse, Stream(before), before, e);
    }
  }

  lemma StreamSnoc(before: seq<Json>, e: Json)
    ensures Stream(before + [e]) == Stream(before) + (Print(e) + "\n")
  {
    assert (before + [e])[..|before|] == before;
    Assoc(Stream(before), Print(e), "\n");
  }

  lemma OneMore(parse: string -> Option<Json>, t: string, before: seq<Json>, e: Json)
    requires SplitLines(t).rest == "" && Events(parse, SplitLines(t).lines) == Some(before) && ReadsWritten(parse)
    ensures var s := SplitLines(t + (Print(e) + "\n"));
            s.rest == "" && Events(parse, s.lines) == Some(before + [e])
  {
    LineOf(e);
    var line := Print(e) + "\n";
    SplitContinues(t, line);
    assert SplitLines(t).rest + line == line;
    EventsSnoc(parse, SplitLines(t).lines, Print(e));
  }

  lemma LineOf(e: Json)
    ensures SplitLines(Print(e) + "\n") == Split([Print(e)], "") && !Blank(Print(e))
  {
    PrintIsPrintable(e);
    NoNewline(Print(e));
    assert (Print(e) + "\n")[..|Print(e) + "\n"| - 1] == Print(e);
    assert [] + [Print(e)] == [Print(e)];
    FirstNotWhite(e);
  }

  lemma FirstNotWhite(e: Json)
    ensures Print(e) != [] && !IsWhite(Print(e)[0])
  {
    if e.Num? { NumberStarts(e.text); }
  }

  /** The stream of any events splits into one line per event, which reads back as that event. */
  lemma {:induction false} StreamReadsBack(events: seq<Json>)
    ensures SplitLines(Stream(events)).rest == ""
    ensures Events(Parse, SplitLines(Stream(events)).lines) == Some(events)
  {
    ParseReadsWritten();
    StreamSplits(Parse, events);
  }

  lemma PartialOf(parse: string -> Option<Json>, events: seq<Json>, all: string, text: string)
    requires text <= all && Events(parse, SplitLines(all).lines) == Some(events)
    ensures var seen := Events(parse, SplitLines(text).lines); seen.Some? && seen.value <= events
  {
    var tail := all[|text|..];
    assert all == text + tail;
    SplitContinues(text, tail);
    var s := SplitLines(text);
    PrefixOfEvents(parse, s.lines, SplitLines(s.rest + tail).lines);
  }

  /** A prefix of the stream, as of a service that stops in mid-line, yields a prefix of the events. */
  lemma {:induction false} PartialStream(events: seq<Json>, text: string)
    requires text <= Stream(events)
    ensures var seen := Events(Parse, SplitLines(text).lines); seen.Some? && seen.value <= events
  {
    StreamReadsBack(events);
    PartialOf(Parse, events, Stream(events), text);
  }

  lemma {:induction false} PrefixOfEvents(parse: string -> Option<Json>, lines: seq<string>, more: seq<string>)
    requires Events(parse, lines + more).Some?
    ensures Events(parse, lines).Some? && Events(parse, lines).value <= Events(parse, lines + more).value
  {
    if more == [] {
      assert lines + more == lines;
    } else {
      var m := more[..|more| - 1];
      assert lines + more == lines + m + [more[|more| - 1]];
      EventsSnoc(parse, lines + m, more[|more| - 1]);
      PrefixOfEvents(parse, lines, m);
    }
  }

  /** Service to client: whatever the events and however the network cuts them. */
  method Deliver(events: seq<Json>, chunks: seq<string>) returns (seen: seq<Json>, ok: bool)
    requires Concat(chunks) == Stream(events)
    ensures ok && seen == events
  {
    StreamReadsBack(events);
    var r := new Reader(Parse);
    ok := r.ReadAll(chunks);
    seen := r.seen;
  }
}
