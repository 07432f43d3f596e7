/** The agent event stream of a turn (`streamTurn` in cli/src/local.ts): text deltas may arrive
    before the type of their part or the role of their message is known; they are held back and
    released later. */
module EventStream {

  datatype Option<T> = None | Some(value: T)
  datatype Kind = Text | Reasoning

  datatype Pending = Pending(msg: string, delta: string)
  datatype Entry = Entry(part: string, deltas: seq<Pending>)

  /** What is emitted. The wire carries the part and the text; `msg` says which message the text
      belonged to. */
  datatype Out = Separator(part: string) | Chunk(kind: Kind, part: string, msg: string, text: string)

  /** `pending` is a JavaScript Map: entries in insertion order, one per part. */
  datatype State = State(types: map<string, Kind>, pending: seq<Entry>, assistants: set<string>,
                         streamed: set<string>, out: seq<Out>)

  datatype Event =
    | PartDelta(session: string, msg: string, part: string, field: string, delta: string)
    | MessageUpdated(session: string, msg: string, assistant: bool)
    | PartUpdated(session: string, msg: string, part: string, kind: Option<Kind>)   // None: a tool part

  // ----- Releasing held-back deltas -----

  // An empty filter matches everything: the source tests it for truthiness.

  predicate Blocked(assistants: set<string>, msgFilter: string, msg: string) {
    (msgFilter != "" && msg != msgFilter) || msg !in assistants
  }

  function Kept(assistants: set<string>, mf: string, deltas: seq<Pending>): seq<Pending> {
    if deltas == [] then []
    else
      var last := deltas[|deltas| - 1];
      Kept(assistants, mf, deltas[..|deltas| - 1]) + if Blocked(assistants, mf, last.msg) then [last] else []
  }

  /** One delta: the first text of every part but the first is preceded by a separator. */
  function EmitOne(s: State, part: string, kind: Kind, p: Pending): State {
    var first := kind == Text && part !in s.streamed;
    s.(streamed := if first then s.streamed + {part} else s.streamed,
       out := s.out + (if first && s.streamed != {} then [Separator(part)] else []) + [Chunk(kind, part, p.msg, p.delta)])
  }

  /** The deltas of one part, in order, except those that are blocked. */
  function EmitAll(s: State, part: string, kind: Kind, mf: string, deltas: seq<Pending>): State {
    if deltas == [] then s
    else
      var s1 := EmitAll(s, part, kind, mf, deltas[..|deltas| - 1]);
      var last := deltas[|deltas| - 1];
      if Blocked(s.assistants, mf, last.msg) then s1 else EmitOne(s1, part, kind, last)
  }

  /** One entry of the map; `s.pending` collects the entries that stay. */
  function ConsumeEntry(s: State, e: Entry, pf: string, mf: string): State {
    if (pf != "" && e.part != pf) || e.part !in s.types then s.(pending := s.pending + [e])
    else
      var rest := Kept(s.assistants, mf, e.deltas);
      var s1 := EmitAll(s, e.part, s.types[e.part], mf, e.deltas);
      if rest == [] then s1 else s1.(pending := s1.pending + [Entry(e.part, rest)])
  }

  function ConsumeAll(s: State, entries: seq<Entry>, pf: string, mf: string): State {
    if entries == [] then s
    else ConsumeEntry(ConsumeAll(s, entries[..|entries| - 1], pf, mf), entries[|entries| - 1], pf, mf)
  }

  /** `consumePendingDeltas`. */
  function Consume(s: State, pf: string, mf: string): State {
    ConsumeAll(s.(pending := []), s.pending, pf, mf)
  }

  /** `pendingDeltas.get(part) ?? []`, push, and set: an existing entry keeps its place. */
  function AddPending(pending: seq<Entry>, part: string, d: Pending): seq<Entry> {
    if part in Parts(pending) then PushTo(pending, part, d) else pending + [Entry(part, [d])]
  }

  function PushTo(pending: seq<Entry>, part: string, d: Pending): seq<Entry> {
    if pending == [] then []
    else
      var before, last := pending[..|pending| - 1], pending[|pending| - 1];
      if last.part == part then before + [Entry(part, last.deltas + [d])] else PushTo(before, part, d) + [last]
  }

  function Parts(pending: seq<Entry>): set<string> { set e <- pending :: e.part }

  /** One event of the subscription, in the session `me`. */
  function Handle(me: string, s: State, e: Event): State {
    match e
    case PartDelta(session, msg, part, field, delta) =>
      if session != me || field != "text" || delta == "" then s
      else Consume(s.(pending := AddPending(s.pending, part, Pending(msg, delta))), part, msg)
    case MessageUpdated(session, msg, assistant) =>
      if session != me || !assistant then s else Consume(s.(assistants := s.assistants + {msg}), "", msg)
    case PartUpdated(session, msg, part, kind) =>
      if session != me || kind.None? then s else Consume(s.(types := s.types[part := kind.value]), part, msg)
  }

  function HandleAll(me: string, s: State, es: seq<Event>): State {
    if es == [] then s else Handle(me, HandleAll(me, s, es[..|es| - 1]), es[|es| - 1])
  }

  const INITIAL := State(map[], [], {}, {}, [])

  // ----- Observations, for one part and one message -----

  function Texts(deltas: seq<Pending>, m: string): seq<string> {
    if deltas == [] then []
    else Texts(deltas[..|deltas| - 1], m) + if deltas[|deltas| - 1].msg == m then [deltas[|deltas| - 1].delta] else []
  }

  function Held(pending: seq<Entry>, p: string, m: string): seq<string> {
    if pending == [] then []
    else Held(pending[..|pending| - 1], p, m) +
         if pending[|pending| - 1].part == p then Texts(pending[|pending| - 1].deltas, m) else []
  }

  function Emitted(out: seq<Out>, p: string, m: string): seq<string> {
    if out == [] then []
    else
      var o := out[|out| - 1];
      Emitted(out[..|out| - 1], p, m) + if o.Chunk? && o.part == p && o.msg == m then [o.text] else []
  }

  predicate Received?(me: string, e: Event) {
    e.PartDelta? && e.session == me && e.field == "text" && e.delta != ""
  }

  function Received(me: string, es: seq<Event>, p: string, m: string): seq<string> {
    if es == [] then []
    else
      var e := es[|es| - 1];
      Received(me, es[..|es| - 1], p, m) + if Received?(me, e) && e.part == p && e.msg == m then [e.delta] else []
  }

  predicate Distinct(pending: seq<Entry>) {
    forall i, j :: 0 <= i < j < |pending| ==> pending[i].part != pending[j].part
  }

  // ----- Nothing is lost, duplicated or reordered -----

  lemma EmittedSnoc(out: seq<Out>, o: Out, p: string, m: string)
    ensures Emitted(out + [o], p, m) == Emitted(out, p, m) + if o.Chunk? && o.part == p && o.msg == m then [o.text] else []
  {
    assert (out + [o])[..|out|] == out;
  }

  lemma HeldSnoc(pending: seq<Entry>, e: Entry, p: string, m: string)
    ensures Held(pending + [e], p, m) == Held(pending, p, m) + if e.part == p then Texts(e.deltas, m) else []
  {
    assert (pending + [e])[..|pending|] == pending;
  }

  lemma EmitOneTexts(s: State, part: string, kind: Kind, d: Pending, p: string, m: string)
    ensures Emitted(EmitOne(s, part, kind, d).out, p, m) ==
            Emitted(s.out, p, m) + if part == p && d.msg == m then [d.delta] else []
  {
    var c := Chunk(kind, part, d.msg, d.delta);
    if kind == Text && part !in s.streamed && s.streamed != {} {
      EmittedSnoc(s.out, Separator(part), p, m);
      EmittedSnoc(s.out + [Separator(part)], c, p, m);
    } else {
      assert s.out + [] == s.out;
      EmittedSnoc(s.out, c, p, m);
    }
  }

  lemma {:induction false} EmitAllFrame(s: State, part: string, kind: Kind, mf: string, deltas: seq<Pending>)
    ensures var s' := EmitAll(s, part, kind, mf, deltas);
            s'.types == s.types && s'.pending == s.pending && s'.assistants == s.assistants
  {
    if deltas != [] {
      EmitAllFrame(s, part, kind, mf, deltas[..|deltas| - 1]);
    }
  }

  lemma Assoc(a: seq<string>, b: seq<string>, c: seq<string>)
    ensures (a + b) + c == a + (b + c)
  {
  }

  /** For one message, a part's deltas are released all together or not at all. */
  lemma {:induction false} EmitAllTexts(s: State, part: string, kind: Kind, mf: string, deltas: seq<Pending>, p: string, m: string)
    ensures Emitted(EmitAll(s, part, kind, mf, deltas).out, p, m) ==
            Emitted(s.out, p, m) + (if part == p && !Blocked(s.assistants, mf, m) then Texts(deltas, m) else [])
  {
    if deltas != [] {
      var before, last := deltas[..|deltas| - 1], deltas[|deltas| - 1];
      EmitAllTexts(s, part, kind, mf, before, p, m);
      if !Blocked(s.assistants, mf, last.msg) {
        EmitOneTexts(EmitAll(s, part, kind, mf, before), part, kind, last, p, m);
      }
      if part == p && last.msg == m && !Blocked(s.assistants, mf, m) {
        Assoc(Emitted(s.out, p, m), Texts(before, m), [last.delta]);
      } else {
        assert Texts(before, m) + [] == Texts(before, m);
      }
    }
  }

  lemma {:induction false} KeptTexts(assistants: set<string>, mf: string, deltas: seq<Pending>, m: string)
    ensures Texts(Kept(assistants, mf, deltas), m) == if Blocked(assistants, mf, m) then Texts(deltas, m) else []
  {
    if deltas != [] {
      var before, last := Kept(assistants, mf, deltas[..|deltas| - 1]), deltas[|deltas| - 1];
      KeptTexts(assistants, mf, deltas[..|deltas| - 1], m);
      assert (before + [last])[..|before|] == before;
      assert before + [] == before;
    }
  }

  lemma {:induction false} NotHeld(pending: seq<Entry>, p: string, m: string)
    requires forall e <- pending :: e.part != p
    ensures Held(pending, p, m) == []
  {
    if pending != [] {
      NotHeld(pending[..|pending| - 1], p, m);
    }
  }

  /** One entry moves text from the held-back side to the emitted side and changes nothing else. */
  lemma ConsumeEntryTexts(s: State, e: Entry, pf: string, mf: string, p: string, m: string)
    requires forall x <- s.pending :: x.part != e.part
    ensures var s' := ConsumeEntry(s, e, pf, mf);
            Emitted(s'.out, p, m) + Held(s'.pending, p, m) ==
            Emitted(s.out, p, m) + (Held(s.pending, p, m) + (if e.part == p then Texts(e.deltas, m) else []))
  {
    if (pf != "" && e.part != pf) || e.part !in s.types {
      HeldSnoc(s.pending, e, p, m);
    } else {
      TouchedTexts(s, e, mf, p, m);
    }
  }

  lemma TouchedTexts(s: State, e: Entry, mf: string, p: string, m: string)
    requires e.part in s.types && forall x <- s.pending :: x.part != e.part
    ensures var s' := ConsumeEntry(s, e, e.part, mf);
            Emitted(s'.out, p, m) + Held(s'.pending, p, m) ==
            Emitted(s.out, p, m) + (Held(s.pending, p, m) + (if e.part == p then Texts(e.deltas, m) else []))
  {
    TouchedParts(s, e, mf, p, m);
    if e.part == p { NotHeld(s.pending, p, m); }
    Regroup(Emitted(s.out, p, m), Held(s.pending, p, m), Texts(e.deltas, m));
  }

  lemma Regroup(E: seq<string>, H: seq<string>, T: seq<string>)
    ensures E + (H + []) == E + H
    ensures H == [] ==> E + T + H == E + (H + T)
  {
    assert H + [] == H;
    if H == [] { assert E + T + H == E + T && H + T == T; }
  }

  /** A part that is released: what is blocked stays held, the rest is emitted. */
  lemma TouchedParts(s: State, e: Entry, mf: string, p: string, m: string)
    requires e.part in s.types && forall x <- s.pending :: x.part != e.part
    ensures var s' := ConsumeEntry(s, e, e.part, mf);
            var E, H, T := Emitted(s.out, p, m), Held(s.pending, p, m), Texts(e.deltas, m);
            if e.part != p then Emitted(s'.out, p, m) == E && Held(s'.pending, p, m) == H
            else if Blocked(s.assistants, mf, m) then Emitted(s'.out, p, m) == E && Held(s'.pending, p, m) == H + T
            else Emitted(s'.out, p, m) == E + T && Held(s'.pending, p, m) == H
  {
    var rest := Kept(s.assistants, mf, e.deltas);
    EmitAllFrame(s, e.part, s.types[e.part], mf, e.deltas);
    EmitAllTexts(s, e.part, s.types[e.part], mf, e.deltas, p, m);
    KeptTexts(s.assistants, mf, e.deltas, m);
    HeldSnoc(s.pending, Entry(e.part, rest), p, m);
    assert Held(s.pending, p, m) + [] == Held(s.pending, p, m);
  }

  lemma PartsSnoc(pending: seq<Entry>, e: Entry)
    ensures Parts(pending + [e]) == Parts(pending) + {e.part}
    ensures Distinct(pending + [e]) <==> Distinct(pending) && e.part !in Parts(pending)
  {
    forall i | 0 <= i < |pending| ensures pending[i].part in Parts(pending) {}
    assert (pending + [e])[|pending|] == e;
    forall x <- Parts(pending) ensures x in Parts(pending + [e]) {
      var i :| 0 <= i < |pending| && pending[i].part == x;
      assert (pending + [e])[i] == pending[i];
    }
    if Distinct(pending + [e]) {
      forall i, j | 0 <= i < j < |pending| ensures pending[i].part != pending[j].part {
        assert (pending + [e])[i] == pending[i] && (pending + [e])[j] == pending[j];
      }
      forall i | 0 <= i < |pending| ensures pending[i].part != e.part {
        assert (pending + [e])[i] == pending[i];
      }
    }
  }

  /** The map keeps one entry per part, whatever is released. */
  lemma {:induction false} ConsumeAllParts(s: State, entries: seq<Entry>, pf: string, mf: string)
    requires s.pending == [] && Distinct(entries)
    ensures var s' := ConsumeAll(s, entries, pf, mf);
            Distinct(s'.pending) && Parts(s'.pending) <= Parts(entries) && s'.types == s.types && s'.assistants == s.assistants
  {
    if entries != [] {
      var before, e := entries[..|entries| - 1], entries[|entries| - 1];
      assert entries == before + [e];
      PartsSnoc(before, e);
      ConsumeAllParts(s, before, pf, mf);
      var s1 := ConsumeAll(s, before, pf, mf);
      if e.part in s1.types {
        EmitAllFrame(s1, e.part, s1.types[e.part], mf, e.deltas);
      }
      PartsSnoc(s1.pending, e);
      PartsSnoc(s1.pending, Entry(e.part, Kept(s1.assistants, mf, e.deltas)));
    }
  }

  lemma {:induction false} ConsumeAllTexts(s: State, entries: seq<Entry>, pf: string, mf: string, p: string, m: string)
    requires s.pending == [] && Distinct(entries)
    ensures var s' := ConsumeAll(s, entries, pf, mf);
            Emitted(s'.out, p, m) + Held(s'.pending, p, m) == Emitted(s.out, p, m) + Held(entries, p, m)
  {
    if entries != [] {
      var before, e := entries[..|entries| - 1], entries[|entries| - 1];
      assert entries == before + [e];
      PartsSnoc(before, e);
      ConsumeAllParts(s, before, pf, mf);
      ConsumeAllTexts(s, before, pf, mf, p, m);
      var s1 := ConsumeAll(s, before, pf, mf);
      assert forall x <- s1.pending :: x.part in Parts(s1.pending);
      ConsumeEntryTexts(s1, e, pf, mf, p, m);
      var add := if e.part == p then Texts(e.deltas, m) else [];
      Assoc(Emitted(s1.out, p, m), Held(s1.pending, p, m), add);
      Assoc(Emitted(s.out, p, m), Held(before, p, m), add);
    }
  }

  lemma {:induction false} PushToKeeps(pending: seq<Entry>, part: string, d: Pending)
    ensures Parts(PushTo(pending, part, d)) == Parts(pending)
    ensures Distinct(pending) ==> Distinct(PushTo(pending, part, d))
  {
    if pending != [] {
      var before, last := pending[..|pending| - 1], pending[|pending| - 1];
      assert pending == before + [last];
      PartsSnoc(before, last);
      PartsSnoc(before, Entry(part, last.deltas + [d]));
      PushToKeeps(before, part, d);
      PartsSnoc(PushTo(before, part, d), last);
    }
  }

  lemma Exchange(a: seq<string>, b: seq<string>, c: seq<string>)
    requires b == [] || c == []
    ensures a + b + c == a + c + b
  {
    if b == [] { assert a + b == a && a + c + b == a + c; } else { assert a + c == a && a + b + c == a + b; }
  }

  lemma PushLast(before: seq<Entry>, last: Entry, d: Pending, p: string, m: string)
    ensures Held(before + [Entry(last.part, last.deltas + [d])], p, m)
         == Held(before + [last], p, m) + if last.part == p && d.msg == m then [d.delta] else []
  {
    var more := if d.msg == m then [d.delta] else [];
    HeldSnoc(before, last, p, m);
    HeldSnoc(before, Entry(last.part, last.deltas + [d]), p, m);
    assert (last.deltas + [d])[..|last.deltas|] == last.deltas;
    assert Texts(last.deltas + [d], m) == Texts(last.deltas, m) + more;
    Assoc(Held(before, p, m), Texts(last.deltas, m), more);
  }

  lemma {:induction false} PushToTexts(pending: seq<Entry>, part: string, d: Pending, p: string, m: string)
    requires Distinct(pending) && part in Parts(pending)
    ensures Held(PushTo(pending, part, d), p, m) == Held(pending, p, m) + if part == p && d.msg == m then [d.delta] else []
  {
    var before, last := pending[..|pending| - 1], pending[|pending| - 1];
    assert pending == before + [last];
    PartsSnoc(before, last);
    if last.part == part {
      PushLast(before, last, d, p, m);
    } else {
      PushToTexts(before, part, d, p, m);
      HeldSnoc(PushTo(before, part, d), last, p, m);
      HeldSnoc(before, last, p, m);
      Exchange(Held(before, p, m), if part == p && d.msg == m then [d.delta] else [],
               if last.part == p then Texts(last.deltas, m) else []);
    }
  }

  lemma AddPendingTexts(pending: seq<Entry>, part: string, d: Pending, p: string, m: string)
    requires Distinct(pending)
    ensures var after := AddPending(pending, part, d);
            Distinct(after) &&
            Held(after, p, m) == Held(pending, p, m) + if part == p && d.msg == m then [d.delta] else []
  {
    if part in Parts(pending) {
      PushToKeeps(pending, part, d);
      PushToTexts(pending, part, d, p, m);
    } else {
      PartsSnoc(pending, Entry(part, [d]));
      HeldSnoc(pending, Entry(part, [d]), p, m);
      assert [d][..0] == [];
      assert Texts([d], m) == if d.msg == m then [d.delta] else [];
    }
  }

  /** Every event: what is emitted and what is held back, together, grow by what is received. */
  lemma HandleTexts(me: string, s: State, e: Event, p: string, m: string)
    requires Distinct(s.pending)
    ensures var s' := Handle(me, s, e);
            && Distinct(s'.pending)
            && Emitted(s'.out, p, m) + Held(s'.pending, p, m) ==
               (Emitted(s.out, p, m) + Held(s.pending, p, m)) + if Received?(me, e) && e.part == p && e.msg == m then [e.delta] else []
  {
    var t := match e
      case PartDelta(_, msg, part, _, delta) => s.(pending := AddPending(s.pending, part, Pending(msg, delta)))
      case MessageUpdated(_, msg, _) => s.(assistants := s.assistants + {msg})
      case PartUpdated(_, msg, part, kind) => if kind.Some? then s.(types := s.types[part := kind.value]) else s;
    if e.PartDelta? {
      AddPendingTexts(s.pending, e.part, Pending(e.msg, e.delta), p, m);
      Assoc(Emitted(s.out, p, m), Held(s.pending, p, m), if e.part == p && e.msg == m then [e.delta] else []);
    }
    var pf := if e.MessageUpdated? then "" else e.part;
    ConsumeAllParts(t.(pending := []), t.pending, pf, e.msg);
    ConsumeAllTexts(t.(pending := []), t.pending, pf, e.msg, p, m);
  }

  /** For every sequence of events, every part and every message: the texts emitted, followed by
      those still held back, are exactly the texts received, in order of arrival and each once. */
  lemma {:induction false} NothingLostOrReordered(me: string, es: seq<Event>, p: string, m: string)
    ensures var s := HandleAll(me, INITIAL, es);
            Distinct(s.pending) && Emitted(s.out, p, m) + Held(s.pending, p, m) == Received(me, es, p, m)
  {
    if es != [] {
      NothingLostOrReordered(me, es[..|es| - 1], p, m);
      HandleTexts(me, HandleAll(me, INITIAL, es[..|es| - 1]), es[|es| - 1], p, m);
    }
  }

  // ----- What is held back is held back for a reason -----

  ghost predicate In(pending: seq<Entry>, part: string, d: Pending) {
    exists e <- pending :: e.part == part && d in e.deltas
  }

  /** Nothing is held back once the type of its part and the role of its message are known. */
  ghost predicate Settled(s: State) {
    forall p, d :: In(s.pending, p, d) && p in s.types ==> d.msg !in s.assistants
  }

  predicate Touched(s: State, part: string, pf: string) {
    (pf == "" || part == pf) && part in s.types
  }

  lemma {:induction false} KeptMembers(assistants: set<string>, mf: string, deltas: seq<Pending>, d: Pending)
    ensures d in Kept(assistants, mf, deltas) <==> d in deltas && Blocked(assistants, mf, d.msg)
  {
    if deltas != [] {
      var before, last := deltas[..|deltas| - 1], deltas[|deltas| - 1];
      assert deltas == before + [last];
      KeptMembers(assistants, mf, before, d);
    }
  }

  lemma InSnoc(pending: seq<Entry>, e: Entry, p: string, d: Pending)
    ensures In(pending + [e], p, d) <==> In(pending, p, d) || (e.part == p && d in e.deltas)
  {
    assert forall x :: x in pending + [e] <==> x in pending || x == e;
  }

  /** What stays: the deltas of parts not touched, and the blocked deltas of the others. */
  lemma {:induction false} ConsumeAllIn(s: State, entries: seq<Entry>, pf: string, mf: string, p: string, d: Pending)
    requires s.pending == [] && Distinct(entries)
    ensures In(ConsumeAll(s, entries, pf, mf).pending, p, d) <==>
            In(entries, p, d) && (Touched(s, p, pf) ==> Blocked(s.assistants, mf, d.msg))
  {
    if entries != [] {
      var before, e := entries[..|entries| - 1], entries[|entries| - 1];
      assert entries == before + [e];
      PartsSnoc(before, e);
      InSnoc(before, e, p, d);
      ConsumeAllParts(s, before, pf, mf);
      ConsumeAllIn(s, before, pf, mf, p, d);
      var s1 := ConsumeAll(s, before, pf, mf);
      if Touched(s, e.part, pf) {
        EmitAllFrame(s1, e.part, s1.types[e.part], mf, e.deltas);
        KeptMembers(s.assistants, mf, e.deltas, d);
        InSnoc(s1.pending, Entry(e.part, Kept(s.assistants, mf, e.deltas)), p, d);
      } else {
        InSnoc(s1.pending, e, p, d);
      }
    }
  }

  /** When a call leaves nothing held back that could be shown. */
  lemma ConsumeSettles(s: State, pf: string, mf: string)
    requires Distinct(s.pending)
    ensures Settled(Consume(s, pf, mf)) <==>
            forall p, d :: In(s.pending, p, d) && p in s.types && d.msg in s.assistants ==>
              Touched(s, p, pf) && (mf == "" || d.msg == mf)
  {
    var s0 := s.(pending := []);
    ConsumeAllParts(s0, s.pending, pf, mf);
    forall p, d ensures In(Consume(s, pf, mf).pending, p, d) <==>
                        In(s.pending, p, d) && (Touched(s, p, pf) ==> Blocked(s.assistants, mf, d.msg))
    {
      ConsumeAllIn(s0, s.pending, pf, mf, p, d);
    }
  }

  lemma {:induction false} PushToIn(pending: seq<Entry>, part: string, d: Pending, p: string, y: Pending)
    requires part in Parts(pending)
    ensures In(PushTo(pending, part, d), p, y) ==> In(pending, p, y) || (p == part && y == d)
  {
    var before, last := pending[..|pending| - 1], pending[|pending| - 1];
    assert pending == before + [last];
    PartsSnoc(before, last);
    InSnoc(before, last, p, y);
    if last.part == part {
      InSnoc(before, Entry(part, last.deltas + [d]), p, y);
    } else {
      PushToIn(before, part, d, p, y);
      InSnoc(PushTo(before, part, d), last, p, y);
    }
  }

  /** A delta or a message update keeps everything settled, whatever parts and messages it names. */
  lemma OthersSettle(me: string, s: State, e: Event)
    requires Distinct(s.pending) && Settled(s) && !e.PartUpdated?
    ensures Settled(Handle(me, s, e))
  {
    match e
    case PartDelta(_, msg, part, _, delta) =>
      var d := Pending(msg, delta);
      AddPendingTexts(s.pending, part, d, "", "");
      forall p, y | In(AddPending(s.pending, part, d), p, y) ensures In(s.pending, p, y) || (p == part && y == d) {
        if part in Parts(s.pending) {
          PushToIn(s.pending, part, d, p, y);
        } else {
          InSnoc(s.pending, Entry(part, [d]), p, y);
        }
      }
      ConsumeSettles(s.(pending := AddPending(s.pending, part, d)), part, msg);
    case MessageUpdated(_, msg, _) =>
      ConsumeSettles(s.(assistants := s.assistants + {msg}), "", msg);
  }

  /** A part update keeps everything settled exactly when the part holds no text of another
      message that is already known to be the assistant's. */
  lemma PartUpdateSettlesExactly(me: string, s: State, msg: string, part: string, kind: Kind)
    requires Distinct(s.pending) && Settled(s)
    ensures Settled(Handle(me, s, PartUpdated(me, msg, part, Some(kind)))) <==>
            forall d :: In(s.pending, part, d) && d.msg in s.assistants ==> msg == "" || d.msg == msg
  {
    ConsumeSettles(s.(types := s.types[part := kind]), part, msg);
  }

  /** Each part belongs to one message: `home` names it. */
  ghost predicate OneHome(me: string, es: seq<Event>, home: string -> string) {
    forall e <- es :: Received?(me, e) || (e.PartUpdated? && e.session == me && e.kind.Some?) ==> e.msg == home(e.part)
  }

  ghost predicate AtHome(s: State, home: string -> string) {
    forall p, d :: In(s.pending, p, d) ==> d.msg == home(p)
  }

  lemma HandleAtHome(me: string, s: State, e: Event, home: string -> string)
    requires Distinct(s.pending) && AtHome(s, home) && (Received?(me, e) ==> e.msg == home(e.part))
    ensures AtHome(Handle(me, s, e), home)
  {
    var t := match e
      case PartDelta(_, msg, part, _, delta) => s.(pending := AddPending(s.pending, part, Pending(msg, delta)))
      case MessageUpdated(_, msg, _) => s.(assistants := s.assistants + {msg})
      case PartUpdated(_, msg, part, kind) => if kind.Some? then s.(types := s.types[part := kind.value]) else s;
    var pf := if e.MessageUpdated? then "" else e.part;
    if e.PartDelta? {
      AddPendingTexts(s.pending, e.part, Pending(e.msg, e.delta), "", "");
    }
    forall p, d | In(Handle(me, s, e).pending, p, d) ensures d.msg == home(p) {
      ConsumeAllIn(t.(pending := []), t.pending, pf, e.msg, p, d);
      if e.PartDelta? && e.part in Parts(s.pending) {
        PushToIn(s.pending, e.part, Pending(e.msg, e.delta), p, d);
      } else if e.PartDelta? {
        InSnoc(s.pending, Entry(e.part, [Pending(e.msg, e.delta)]), p, d);
      }
    }
  }

  /** When each part belongs to one message, nothing that could be shown is ever held back. */
  lemma {:induction false} SettledRun(me: string, es: seq<Event>, home: string -> string)
    requires OneHome(me, es, home)
    ensures var s := HandleAll(me, INITIAL, es); Distinct(s.pending) && AtHome(s, home) && Settled(s)
  {
    if es != [] {
      var before, e := es[..|es| - 1], es[|es| - 1];
      SettledRun(me, before, home);
      var s := HandleAll(me, INITIAL, before);
      HandleTexts(me, s, e, "", "");
      HandleAtHome(me, s, e, home);
      if e.PartUpdated? && e.session == me && e.kind.Some? {
        PartUpdateSettlesExactly(me, s, e.msg, e.part, e.kind.value);
      } else if !e.PartUpdated? {
        OthersSettle(me, s, e);
      }
    }
  }

  lemma {:induction false} TextsFrom(deltas: seq<Pending>, m: string)
    ensures Texts(deltas, m) != [] ==> exists d <- deltas :: d.msg == m
  {
    if deltas != [] {
      TextsFrom(deltas[..|deltas| - 1], m);
    }
  }

  lemma {:induction false} HeldFrom(pending: seq<Entry>, p: string, m: string)
    ensures Held(pending, p, m) != [] ==> exists d :: In(pending, p, d) && d.msg == m
  {
    if pending != [] {
      var before, e := pending[..|pending| - 1], pending[|pending| - 1];
      HeldFrom(before, p, m);
      TextsFrom(e.deltas, m);
      if Held(before, p, m) != [] {
        var d :| In(before, p, d) && d.msg == m;
        assert In(pending, p, d);
      } else if Held(pending, p, m) != [] {
        var d :| d in e.deltas && d.msg == m;
        assert In(pending, p, d);
      }
    }
  }

  // ----- What is known, from the events alone -----

  /** The event gives the part a type. */
  predicate GivesType(me: string, e: Event, p: string) {
    e.PartUpdated? && e.session == me && e.part == p && e.kind.Some?
  }

  ghost predicate HasType(me: string, es: seq<Event>, p: string) {
    exists i :: 0 <= i < |es| && GivesType(me, es[i], p)
  }

  /** The last type the part was given. */
  ghost predicate TypedAs(me: string, es: seq<Event>, p: string, k: Kind) {
    exists i :: 0 <= i < |es| && GivesType(me, es[i], p) && es[i].kind == Some(k) && NoneAfter(me, es, p, i)
  }

  ghost predicate NoneAfter(me: string, es: seq<Event>, p: string, i: int) {
    forall j :: i < j < |es| ==> j >= 0 && !GivesType(me, es[j], p)
  }

  lemma {:induction false} ConsumeAllFrame(s: State, entries: seq<Entry>, pf: string, mf: string)
    ensures var s' := ConsumeAll(s, entries, pf, mf); s'.types == s.types && s'.assistants == s.assistants
  {
    if entries != [] {
      ConsumeAllFrame(s, entries[..|entries| - 1], pf, mf);
      var s1, e := ConsumeAll(s, entries[..|entries| - 1], pf, mf), entries[|entries| - 1];
      if e.part in s1.types { EmitAllFrame(s1, e.part, s1.types[e.part], mf, e.deltas); }
    }
  }

  lemma HandleLearns(me: string, s: State, e: Event)
    ensures var s' := Handle(me, s, e);
            && s'.assistants == s.assistants + (if e.MessageUpdated? && e == MessageUpdated(me, e.msg, true) then {e.msg} else {})
            && s'.types == if e.PartUpdated? && GivesType(me, e, e.part) then s.types[e.part := e.kind.value] else s.types
  {
    match e
    case PartDelta(_, msg, part, _, delta) =>
      ConsumeAllFrame(s.(pending := []), AddPending(s.pending, part, Pending(msg, delta)), part, msg);
    case MessageUpdated(_, msg, _) =>
      ConsumeAllFrame(s.(pending := [], assistants := s.assistants + {msg}), s.pending, "", msg);
    case PartUpdated(_, msg, part, kind) =>
      if kind.Some? { ConsumeAllFrame(s.(pending := [], types := s.types[part := kind.value]), s.pending, part, msg); }
  }

  /** The messages taken for the assistant's are exactly those an update of this session called so. */
  lemma {:induction false} AssistantsExactly(me: string, es: seq<Event>, m: string)
    ensures m in HandleAll(me, INITIAL, es).assistants <==> MessageUpdated(me, m, true) in es
  {
    if es != [] {
      var before, e := es[..|es| - 1], es[|es| - 1];
      assert es == before + [e];
      AssistantsExactly(me, before, m);
      HandleLearns(me, HandleAll(me, INITIAL, before), e);
    }
  }

  lemma TypedSnoc(me: string, es: seq<Event>, p: string, k: Kind)
    requires es != []
    ensures var before, e := es[..|es| - 1], es[|es| - 1];
            TypedAs(me, es, p, k) <==> if GivesType(me, e, p) then e.kind == Some(k) else TypedAs(me, before, p, k)
  {
    var before, e, n := es[..|es| - 1], es[|es| - 1], |es| - 1;
    if GivesType(me, e, p) {
      assert e.kind == Some(k) ==> NoneAfter(me, es, p, n);
      if i :| 0 <= i < |es| && GivesType(me, es[i], p) && es[i].kind == Some(k) && NoneAfter(me, es, p, i) {
        assert i == n;
      }
    } else {
      if i :| 0 <= i < |before| && GivesType(me, before[i], p) && before[i].kind == Some(k) && NoneAfter(me, before, p, i) {
        forall j | i < j < |es|
          ensures !GivesType(me, es[j], p)
        {
          assert j < n ==> before[j] == es[j];
        }
        assert es[i] == before[i] && NoneAfter(me, es, p, i);
      }
      if i :| 0 <= i < |es| && GivesType(me, es[i], p) && es[i].kind == Some(k) && NoneAfter(me, es, p, i) {
        forall j | i < j < |before|
          ensures !GivesType(me, before[j], p)
        {
          assert before[j] == es[j];
        }
        assert before[i] == es[i] && NoneAfter(me, before, p, i);
      }
    }
  }

  /** The type of a part is exactly the last that an update of this session gave it. */
  lemma {:induction false} TypesExactly(me: string, es: seq<Event>, p: string, k: Kind)
    ensures var types := HandleAll(me, INITIAL, es).types; (p in types && types[p] == k) <==> TypedAs(me, es, p, k)
  {
    if es != [] {
      var before, e := es[..|es| - 1], es[|es| - 1];
      TypesExactly(me, before, p, k);
      HandleLearns(me, HandleAll(me, INITIAL, before), e);
      TypedSnoc(me, es, p, k);
    }
  }

  lemma {:induction false} HasTypeExactly(me: string, es: seq<Event>, p: string)
    ensures p in HandleAll(me, INITIAL, es).types <==> HasType(me, es, p)
  {
    if es != [] {
      var before, e := es[..|es| - 1], es[|es| - 1];
      HasTypeExactly(me, before, p);
      HandleLearns(me, HandleAll(me, INITIAL, before), e);
      if i :| 0 <= i < |es| && GivesType(me, es[i], p) {
        assert i < |before| ==> before[i] == es[i];
      }
      if i :| 0 <= i < |before| && GivesType(me, before[i], p) {
        assert es[i] == before[i];
      }
    }
  }

  /** When each part belongs to one message, all text received for a part has been emitted, in
      order, as soon as an event has given the part a type and another has called its message the
      assistant's - however the events arrive. */
  lemma {:induction false} StreamIsComplete(me: string, es: seq<Event>, home: string -> string, p: string)
    requires OneHome(me, es, home) && HasType(me, es, p) && MessageUpdated(me, home(p), true) in es
    ensures Emitted(HandleAll(me, INITIAL, es).out, p, home(p)) == Received(me, es, p, home(p))
  {
    var s := HandleAll(me, INITIAL, es);
    HasTypeExactly(me, es, p);
    AssistantsExactly(me, es, home(p));
    SettledRun(me, es, home);
    NothingLostOrReordered(me, es, p, home(p));
    if p in s.types && home(p) in s.assistants {
      HeldFrom(s.pending, p, home(p));
      assert Held(s.pending, p, home(p)) == [];
    }
  }

  // ----- What is emitted -----

  function Separators(out: seq<Out>): nat {
    if out == [] then 0 else Separators(out[..|out| - 1]) + if out[|out| - 1].Separator? then 1 else 0
  }

  ghost predicate TextShown(out: seq<Out>, p: string) {
    exists o <- out :: o.Chunk? && o.kind == Text && o.part == p
  }

  /** A separator stands right before the first text of its part, and not before the first text of
      all. */
  ghost predicate InPlace(out: seq<Out>) {
    forall i :: 0 <= i < |out| && out[i].Separator? ==> OpensPart(out, i)
  }

  ghost predicate OpensPart(out: seq<Out>, i: nat)
    requires i < |out|
  {
    && i + 1 < |out| && out[i + 1].Chunk? && out[i + 1].kind == Text && out[i + 1].part == out[i].part
    && !TextShown(out[..i], out[i].part) && exists o <- out[..i] :: o.Chunk? && o.kind == Text
  }

  /** Only assistant messages are shown, and there is one separator less than text parts, each in its
      place. */
  ghost predicate WellShown(s: State) {
    && InPlace(s.out)
    && (forall o <- s.out :: o.Chunk? ==> o.msg in s.assistants)
    && (forall p :: p in s.streamed <==> TextShown(s.out, p))
    && Separators(s.out) == if s.streamed == {} then 0 else |s.streamed| - 1
  }

  lemma SeparatorsSnoc(out: seq<Out>, o: Out)
    ensures Separators(out + [o]) == Separators(out) + if o.Separator? then 1 else 0
  {
    assert (out + [o])[..|out|] == out;
  }

  lemma ShownSnoc(out: seq<Out>, o: Out, p: string)
    ensures TextShown(out + [o], p) <==> TextShown(out, p) || (o.Chunk? && o.kind == Text && o.part == p)
  {
    assert forall x :: x in out + [o] <==> x in out || x == o;
  }

  /** What is out before the chunk: a separator is added before the first text of a later part. */
  function Before(s: State, part: string, kind: Kind): seq<Out> {
    if kind == Text && part !in s.streamed && s.streamed != {} then s.out + [Separator(part)] else s.out
  }

  lemma EmitOneOut(s: State, part: string, kind: Kind, d: Pending)
    ensures EmitOne(s, part, kind, d).out == Before(s, part, kind) + [Chunk(kind, part, d.msg, d.delta)]
  {
    assert s.out + [] == s.out;
  }

  lemma TextBefore(s: State)
    requires WellShown(s) && s.streamed != {}
    ensures exists o <- s.out :: o.Chunk? && o.kind == Text
  {
    var p :| p in s.streamed;
    assert TextShown(s.out, p);
  }

  lemma EmitOneShows(s: State, part: string, kind: Kind, d: Pending)
    requires WellShown(s) && d.msg in s.assistants
    ensures WellShown(EmitOne(s, part, kind, d))
  {
    var c := Chunk(kind, part, d.msg, d.delta);
    EmitOneOut(s, part, kind, d);
    AppendShows(s.out, Before(s, part, kind), part, c, s.assistants);
    if s.streamed != {} { TextBefore(s); }
    AppendPlaced(s.out, Before(s, part, kind), part, c);
    assert part !in s.streamed ==> |s.streamed + {part}| == |s.streamed| + 1;
  }

  lemma AppendPlaced(out: seq<Out>, mid: seq<Out>, part: string, c: Out)
    requires InPlace(out) && c.Chunk?
    requires || mid == out
             || (&& mid == out + [Separator(part)] && c.kind == Text && c.part == part
                 && !TextShown(out, part) && exists o <- out :: o.Chunk? && o.kind == Text)
    ensures InPlace(mid + [c])
  {
    var all := mid + [c];
    forall i | 0 <= i < |all| && all[i].Separator?
      ensures OpensPart(all, i)
    {
      if i < |out| {
        assert OpensPart(out, i) && all[i + 1] == out[i + 1];
        assert all[..i] == out[..i];
      } else {
        assert all[..i] == out;
      }
    }
  }

  /** What one more chunk, with or without a separator before it, changes. */
  lemma AppendShows(out: seq<Out>, mid: seq<Out>, part: string, c: Out, assistants: set<string>)
    requires (mid == out || mid == out + [Separator(part)]) && c.Chunk?
    ensures Separators(mid + [c]) == Separators(out) + if mid == out then 0 else 1
    ensures forall p :: TextShown(mid + [c], p) <==> TextShown(out, p) || (c.kind == Text && c.part == p)
    ensures (forall o <- out :: o.Chunk? ==> o.msg in assistants) && c.msg in assistants ==>
              forall o <- mid + [c] :: o.Chunk? ==> o.msg in assistants
  {
    SeparatorsSnoc(out, Separator(part));
    SeparatorsSnoc(mid, c);
    forall p
      ensures TextShown(mid + [c], p) <==> TextShown(out, p) || (c.kind == Text && c.part == p)
    {
      ShownSnoc(out, Separator(part), p);
      ShownSnoc(mid, c, p);
    }
  }

  lemma {:induction false} EmitAllShows(s: State, part: string, kind: Kind, mf: string, deltas: seq<Pending>)
    requires WellShown(s)
    ensures WellShown(EmitAll(s, part, kind, mf, deltas))
  {
    if deltas != [] {
      EmitAllShows(s, part, kind, mf, deltas[..|deltas| - 1]);
      EmitAllFrame(s, part, kind, mf, deltas[..|deltas| - 1]);
      if !Blocked(s.assistants, mf, deltas[|deltas| - 1].msg) {
        EmitOneShows(EmitAll(s, part, kind, mf, deltas[..|deltas| - 1]), part, kind, deltas[|deltas| - 1]);
      }
    }
  }

  lemma {:induction false} ConsumeAllShows(s: State, entries: seq<Entry>, pf: string, mf: string)
    requires WellShown(s)
    ensures WellShown(ConsumeAll(s, entries, pf, mf))
  {
    if entries != [] {
      ConsumeAllShows(s, entries[..|entries| - 1], pf, mf);
      var s1, e := ConsumeAll(s, entries[..|entries| - 1], pf, mf), entries[|entries| - 1];
      if e.part in s1.types {
        EmitAllShows(s1, e.part, s1.types[e.part], mf, e.deltas);
      }
    }
  }

  /** The parts of which text was shown. */
  function TextParts(out: seq<Out>): set<string> {
    set o <- out | o.Chunk? && o.kind == Text :: o.part
  }

  /** Only messages that an event of this session called the assistant's are shown, and only parts
      that one gave a type; there is one separator less than text parts, each in its place. */
  ghost predicate Proper(me: string, es: seq<Event>, out: seq<Out>) {
    && (forall o <- out :: o.Chunk? ==> MessageUpdated(me, o.msg, true) in es && HasType(me, es, o.part))
    && InPlace(out)
    && Separators(out) == if TextParts(out) == {} then 0 else |TextParts(out)| - 1
  }

  /** Over every run. */
  lemma {:induction false} RunIsWellShown(me: string, es: seq<Event>)
    ensures Proper(me, es, HandleAll(me, INITIAL, es).out)
  {
    var s := HandleAll(me, INITIAL, es);
    RunShows(me, es);
    RunShowsTyped(me, es);
    forall o <- s.out | o.Chunk?
      ensures MessageUpdated(me, o.msg, true) in es && HasType(me, es, o.part)
    {
      AssistantsExactly(me, es, o.msg);
      HasTypeExactly(me, es, o.part);
    }
    assert TextParts(s.out) == s.streamed by {
      assert forall p :: p in TextParts(s.out) <==> TextShown(s.out, p);
    }
  }

  lemma {:induction false} RunShows(me: string, es: seq<Event>)
    ensures WellShown(HandleAll(me, INITIAL, es))
  {
    if es != [] {
      var e, s := es[|es| - 1], HandleAll(me, INITIAL, es[..|es| - 1]);
      RunShows(me, es[..|es| - 1]);
      match e
      case PartDelta(_, msg, part, _, delta) =>
        ConsumeAllShows(s.(pending := []), AddPending(s.pending, part, Pending(msg, delta)), part, msg);
      case MessageUpdated(_, msg, _) =>
        ConsumeAllShows(s.(pending := [], assistants := s.assistants + {msg}), s.pending, "", msg);
      case PartUpdated(_, msg, part, kind) =>
        if kind.Some? {
          ConsumeAllShows(s.(pending := [], types := s.types[part := kind.value]), s.pending, part, msg);
        }
    }
  }

  // ----- How it is emitted -----

  ghost predicate ShownTyped(s: State) {
    forall o <- s.out :: o.Chunk? ==> o.part in s.types
  }

  lemma {:induction false} ConsumeAllShowsTyped(s: State, entries: seq<Entry>, pf: string, mf: string)
    requires ShownTyped(s)
    ensures ShownTyped(ConsumeAll(s, entries, pf, mf))
  {
    if entries != [] {
      ConsumeAllShowsTyped(s, entries[..|entries| - 1], pf, mf);
      var s1, e := ConsumeAll(s, entries[..|entries| - 1], pf, mf), entries[|entries| - 1];
      if e.part in s1.types { EmitAllShowsTyped(s1, e.part, mf, e.deltas); }
    }
  }

  lemma {:induction false} EmitAllShowsTyped(s: State, part: string, mf: string, deltas: seq<Pending>)
    requires ShownTyped(s) && part in s.types
    ensures ShownTyped(EmitAll(s, part, s.types[part], mf, deltas))
  {
    if deltas != [] {
      EmitAllShowsTyped(s, part, mf, deltas[..|deltas| - 1]);
      EmitAllFrame(s, part, s.types[part], mf, deltas[..|deltas| - 1]);
    }
  }

  lemma {:induction false} RunShowsTyped(me: string, es: seq<Event>)
    ensures ShownTyped(HandleAll(me, INITIAL, es))
  {
    if es != [] {
      var e, s := es[|es| - 1], HandleAll(me, INITIAL, es[..|es| - 1]);
      RunShowsTyped(me, es[..|es| - 1]);
      match e
      case PartDelta(_, msg, part, _, delta) =>
        ConsumeAllShowsTyped(s.(pending := []), AddPending(s.pending, part, Pending(msg, delta)), part, msg);
      case MessageUpdated(_, msg, _) =>
        ConsumeAllShowsTyped(s.(pending := [], assistants := s.assistants + {msg}), s.pending, "", msg);
      case PartUpdated(_, msg, part, kind) =>
        if kind.Some? {
          ConsumeAllShowsTyped(s.(pending := [], types := s.types[part := kind.value]), s.pending, part, msg);
        }
    }
  }

  /** The type of a part does not change: `kindOf` names it. */
  ghost predicate OneKind(me: string, es: seq<Event>, kindOf: string -> Kind) {
    forall e <- es :: e.PartUpdated? && e.session == me && e.kind.Some? ==> e.kind.value == kindOf(e.part)
  }

  ghost predicate Typed(s: State, kindOf: string -> Kind) {
    && (forall p <- s.types :: s.types[p] == kindOf(p))
    && (forall o <- s.out :: o.Chunk? ==> o.part in s.types && o.kind == kindOf(o.part))
  }

  lemma {:induction false} EmitAllTyped(s: State, part: string, mf: string, deltas: seq<Pending>, kindOf: string -> Kind)
    requires Typed(s, kindOf) && part in s.types
    ensures Typed(EmitAll(s, part, s.types[part], mf, deltas), kindOf)
  {
    if deltas != [] {
      EmitAllTyped(s, part, mf, deltas[..|deltas| - 1], kindOf);
      EmitAllFrame(s, part, s.types[part], mf, deltas[..|deltas| - 1]);
    }
  }

  lemma {:induction false} ConsumeAllTyped(s: State, entries: seq<Entry>, pf: string, mf: string, kindOf: string -> Kind)
    requires Typed(s, kindOf)
    ensures Typed(ConsumeAll(s, entries, pf, mf), kindOf)
  {
    if entries != [] {
      ConsumeAllTyped(s, entries[..|entries| - 1], pf, mf, kindOf);
      var s1, e := ConsumeAll(s, entries[..|entries| - 1], pf, mf), entries[|entries| - 1];
      if e.part in s1.types {
        EmitAllTyped(s1, e.part, mf, e.deltas, kindOf);
      }
    }
  }

  /** In every run text goes out as text and reasoning as reasoning, and only once the type of its
      part is known. */
  lemma {:induction false} RunIsTyped(me: string, es: seq<Event>, kindOf: string -> Kind)
    requires OneKind(me, es, kindOf)
    ensures Typed(HandleAll(me, INITIAL, es), kindOf)
  {
    if es != [] {
      var e, s := es[|es| - 1], HandleAll(me, INITIAL, es[..|es| - 1]);
      RunIsTyped(me, es[..|es| - 1], kindOf);
      assert e in es;
      match e
      case PartDelta(_, msg, part, _, delta) =>
        ConsumeAllTyped(s.(pending := []), AddPending(s.pending, part, Pending(msg, delta)), part, msg, kindOf);
      case MessageUpdated(_, msg, _) =>
        ConsumeAllTyped(s.(pending := [], assistants := s.assistants + {msg}), s.pending, "", msg, kindOf);
      case PartUpdated(session, msg, part, kind) =>
        if session == me && kind.Some? {
          ConsumeAllTyped(s.(pending := [], types := s.types[part := kind.value]), s.pending, part, msg, kindOf);
        }
    }
  }
}
