/** Tool calls in the event stream of a turn (`emitTool` in cli/src/local.ts): a call is reported when
    its status changes, but not before its message is known to be the assistant's. Events are those
    of the turn's session. */
module ToolStream {

  datatype Option<T> = None | Some(value: T)
  datatype Status = Pending | Running | Completed | Error

  datatype Part = Part(call: string, msg: string, status: Status)
  datatype Report = Report(call: string, status: Status)

  /** `tools` is a JavaScript Map: the latest part of each call, in order of first arrival. */
  datatype State = State(tools: seq<Part>, states: map<string, Status>, assistants: set<string>, out: seq<Report>)

  datatype Event = MessageUpdated(msg: string) | ToolUpdated(part: Part)

  function EmitTool(s: State, p: Part): State {
    if p.msg !in s.assistants || (p.call in s.states && s.states[p.call] == p.status) then s
    else
      s.(states := s.states[p.call := p.status],
         out := if p.status == Pending then s.out else s.out + [Report(p.call, p.status)])
  }

  /** The parts of one message, in the order of the map. */
  function EmitAll(s: State, parts: seq<Part>, msg: string): State {
    if parts == [] then s
    else
      var s1, p := EmitAll(s, parts[..|parts| - 1], msg), parts[|parts| - 1];
      if p.msg == msg then EmitTool(s1, p) else s1
  }

  function Set(tools: seq<Part>, p: Part): seq<Part> {
    if tools == [] then [p]
    else
      var before, last := tools[..|tools| - 1], tools[|tools| - 1];
      if last.call == p.call then before + [p]
      else if Find(before, p.call).Some? then Set(before, p) + [last]
      else tools + [p]
  }

  function Find(tools: seq<Part>, call: string): Option<Part> {
    if tools == [] then None
    else if tools[|tools| - 1].call == call then Some(tools[|tools| - 1])
    else Find(tools[..|tools| - 1], call)
  }

  function Handle(s: State, e: Event): State {
    match e
    case MessageUpdated(msg) => EmitAll(s.(assistants := s.assistants + {msg}), s.tools, msg)
    case ToolUpdated(p) => EmitTool(s.(tools := Set(s.tools, p)), p)
  }

  const INITIAL := State([], map[], {}, [])

  function HandleAll(es: seq<Event>): State {
    if es == [] then INITIAL else Handle(HandleAll(es[..|es| - 1]), es[|es| - 1])
  }

  // ----- What should be reported of one call -----

  function Known(es: seq<Event>): set<string> {
    if es == [] then {}
    else Known(es[..|es| - 1]) + if es[|es| - 1].MessageUpdated? then {es[|es| - 1].msg} else {}
  }

  function Latest(es: seq<Event>, call: string): Option<Part> {
    if es == [] then None
    else if es[|es| - 1].ToolUpdated? && es[|es| - 1].part.call == call then Some(es[|es| - 1].part)
    else Latest(es[..|es| - 1], call)
  }

  /** The statuses that can be seen: those that arrive once the message is known, and the latest one
      when it becomes known. */
  function Visible(es: seq<Event>, call: string): seq<Status> {
    if es == [] then []
    else
      var before, e := es[..|es| - 1], es[|es| - 1];
      Visible(before, call) +
      match e
      case ToolUpdated(p) => if p.call == call && p.msg in Known(before) then [p.status] else []
      case MessageUpdated(msg) =>
        var p := Latest(before, call);
        if p.Some? && p.value.msg == msg then [p.value.status] else []
  }

  function Push(changes: seq<Status>, x: Status): seq<Status> {
    if changes != [] && changes[|changes| - 1] == x then changes else changes + [x]
  }

  /** Without repetitions. */
  function Changes(statuses: seq<Status>): seq<Status> {
    if statuses == [] then [] else Push(Changes(statuses[..|statuses| - 1]), statuses[|statuses| - 1])
  }

  function Shown(statuses: seq<Status>): seq<Status> {
    if statuses == [] then []
    else Shown(statuses[..|statuses| - 1]) + if statuses[|statuses| - 1] == Pending then [] else [statuses[|statuses| - 1]]
  }

  function Reported(out: seq<Report>, call: string): seq<Status> {
    if out == [] then []
    else Reported(out[..|out| - 1], call) + if out[|out| - 1].call == call then [out[|out| - 1].status] else []
  }

  // ----- It is -----

  /** What the state says of `call`: the changes so far. */
  predicate Tracks(s: State, call: string, changes: seq<Status>) {
    && (call in s.states <==> changes != [])
    && (changes != [] ==> s.states[call] == changes[|changes| - 1])
    && Reported(s.out, call) == Shown(changes)
  }

  lemma EmitToolTracks(s: State, p: Part, call: string, changes: seq<Status>)
    requires Tracks(s, call, changes) && p.msg in s.assistants
    ensures Tracks(EmitTool(s, p), call, if p.call == call then Push(changes, p.status) else changes)
  {
    assert (s.out + [Report(p.call, p.status)])[..|s.out|] == s.out;
    assert (changes + [p.status])[..|changes|] == changes;
    assert Shown(changes) + [] == Shown(changes);
    assert Reported(s.out, call) + [] == Reported(s.out, call);
  }

  ghost predicate Distinct(tools: seq<Part>) {
    forall i, j :: 0 <= i < j < |tools| ==> tools[i].call != tools[j].call
  }

  lemma {:induction false} NotFound(tools: seq<Part>, call: string)
    ensures Find(tools, call).None? <==> forall i :: 0 <= i < |tools| ==> tools[i].call != call
  {
    if tools != [] {
      NotFound(tools[..|tools| - 1], call);
      assert forall i :: 0 <= i < |tools| - 1 ==> tools[i] == tools[..|tools| - 1][i];
    }
  }

  lemma {:induction false} SetFinds(tools: seq<Part>, p: Part, call: string)
    requires Distinct(tools)
    ensures Distinct(Set(tools, p))
    ensures Find(Set(tools, p), call) == if p.call == call then Some(p) else Find(tools, call)
  {
    if tools != [] {
      var before, last := tools[..|tools| - 1], tools[|tools| - 1];
      NotFound(before, last.call);
      if last.call == p.call {
        FindSnoc(before, p, call);
        DistinctSnoc(before, p);
      } else if Find(before, p.call).Some? {
        SetFinds(before, p, call);
        SetFinds(before, p, last.call);
        FindSnoc(Set(before, p), last, call);
        DistinctSnoc(Set(before, p), last);
      } else {
        FindSnoc(tools, p, call);
        FindSnoc(before, last, p.call);
        assert before + [last] == tools;
        DistinctSnoc(tools, p);
      }
    }
  }

  lemma FindSnoc(tools: seq<Part>, p: Part, call: string)
    ensures Find(tools + [p], call) == if p.call == call then Some(p) else Find(tools, call)
  {
    assert (tools + [p])[..|tools|] == tools;
  }

  lemma DistinctSnoc(tools: seq<Part>, p: Part)
    requires Distinct(tools) && Find(tools, p.call).None?
    ensures Distinct(tools + [p])
  {
    NotFound(tools, p.call);
  }

  /** The changes of a call after the parts of one message. */
  function PushAll(changes: seq<Status>, parts: seq<Part>, msg: string, call: string): seq<Status> {
    if parts == [] then changes
    else
      var c, p := PushAll(changes, parts[..|parts| - 1], msg, call), parts[|parts| - 1];
      if p.msg == msg then if p.call == call then Push(c, p.status) else c else c
  }

  lemma {:induction false} PushAllOnce(changes: seq<Status>, parts: seq<Part>, msg: string, call: string)
    requires Distinct(parts)
    ensures var p := Find(parts, call);
            PushAll(changes, parts, msg, call) == if p.Some? && p.value.msg == msg then Push(changes, p.value.status) else changes
  {
    if parts != [] {
      PushAllOnce(changes, parts[..|parts| - 1], msg, call);
      NotFound(parts[..|parts| - 1], parts[|parts| - 1].call);
    }
  }

  lemma {:induction false} EmitAllTracks(s: State, parts: seq<Part>, msg: string, call: string, changes: seq<Status>)
    requires Tracks(s, call, changes) && msg in s.assistants
    ensures var s' := EmitAll(s, parts, msg);
            && s'.tools == s.tools && s'.assistants == s.assistants
            && Tracks(s', call, PushAll(changes, parts, msg, call))
  {
    if parts != [] {
      var before, p := parts[..|parts| - 1], parts[|parts| - 1];
      EmitAllTracks(s, before, msg, call, changes);
      if p.msg == msg {
        EmitToolTracks(EmitAll(s, before, msg), p, call, PushAll(changes, before, msg, call));
      }
    }
  }

  lemma ChangesSnoc(v: seq<Status>, x: Status)
    ensures Changes(v + [x]) == Push(Changes(v), x)
  {
    assert (v + [x])[..|v|] == v;
  }

  /** For every sequence of events and every call: what is reported is the changes of its visible
      statuses, 'pending' left out, whatever other calls and messages there are. */
  lemma {:induction false} ReportsAreChanges(es: seq<Event>, call: string)
    ensures var s := HandleAll(es);
            && s.assistants == Known(es) && Distinct(s.tools) && Find(s.tools, call) == Latest(es, call)
            && Tracks(s, call, Changes(Visible(es, call)))
  {
    if es != [] {
      var before, e := es[..|es| - 1], es[|es| - 1];
      ReportsAreChanges(before, call);
      var s, v := HandleAll(before), Visible(before, call);
      assert v + [] == v;
      match e
      case MessageUpdated(msg) =>
        EmitAllTracks(s.(assistants := s.assistants + {msg}), s.tools, msg, call, Changes(v));
        PushAllOnce(Changes(v), s.tools, msg, call);
        var p := Latest(before, call);
        if p.Some? { ChangesSnoc(v, p.value.status); }
      case ToolUpdated(p) =>
        SetFinds(s.tools, p, call);
        ChangesSnoc(v, p.status);
        if p.msg in s.assistants {
          EmitToolTracks(s.(tools := Set(s.tools, p)), p, call, Changes(v));
        }
    }
  }

  /** Once its message is known, the state of a call is its latest status. */
  lemma {:induction false} LatestIsVisible(es: seq<Event>, call: string)
    ensures var p := Latest(es, call);
            p.Some? && p.value.msg in Known(es) ==>
              Visible(es, call) != [] && Visible(es, call)[|Visible(es, call)| - 1] == p.value.status
  {
    if es != [] { LatestIsVisible(es[..|es| - 1], call); }
  }

  lemma {:induction false} ChangesEnd(v: seq<Status>)
    requires v != []
    ensures Changes(v) != [] && Changes(v)[|Changes(v)| - 1] == v[|v| - 1]
  {
  }

  lemma LastChange(s: State, call: string, v: seq<Status>)
    requires Tracks(s, call, Changes(v)) && v != []
    ensures call in s.states && s.states[call] == v[|v| - 1]
  {
    ChangesEnd(v);
  }

  lemma {:induction false} CaughtUp(es: seq<Event>, call: string)
    ensures var s, p := HandleAll(es), Latest(es, call);
            p.Some? && p.value.msg in s.assistants ==> call in s.states && s.states[call] == p.value.status
  {
    ReportsAreChanges(es, call);
    LatestIsVisible(es, call);
    if Visible(es, call) != [] { LastChange(HandleAll(es), call, Visible(es, call)); }
  }

  /** The maps and sets of the turn. */
  class Tools {
    var tools: seq<Part>
    var states: map<string, Status>
    var assistants: set<string>
    var out: seq<Report>

    function St(): State
      reads this
    {
      State(tools, states, assistants, out)
    }

    method Emit(p: Part)
      modifies `states, `out
      ensures St() == EmitTool(old(St()), p)
    {
      if p.msg !in assistants { return; }
      if p.call in states && states[p.call] == p.status { return; }
      states := states[p.call := p.status];
      if p.status != Pending {
        out := out + [Report(p.call, p.status)];
      }
    }

    method OnMessage(msg: string)
      modifies this
      ensures St() == Handle(old(St()), MessageUpdated(msg))
    {
      assistants := assistants + {msg};
      ghost var s0 := St();
      var parts := tools;
      for i := 0 to |parts|
        invariant St() == EmitAll(s0, parts[..i], msg) && tools == parts
      {
        assert parts[..i + 1][..i] == parts[..i];
        if parts[i].msg == msg {
          Emit(parts[i]);
        }
      }
      assert parts[..|parts|] == parts;
    }

    method OnTool(p: Part)
      modifies this
      ensures St() == Handle(old(St()), ToolUpdated(p))
    {
      tools := Set(tools, p);
      Emit(p);
    }
  }
}
