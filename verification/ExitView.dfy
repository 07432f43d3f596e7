/** What a client of an exec session has seen when it is sent EXIT: the steps of its output view and
    of the session together (internal/agent/exec_session.go). The exit code is set only after both
    pipe readers have returned, and a handler that sees the exit empties its channel first. */
module ExitView {
  import V = OutputView
  import E = ExecSession

  const BOTH := {V.Stdout, V.Stderr}

  /** `me` is the attach call the view belongs to; `returned` are the pipe readers that are done. */
  datatype State = State(me: nat, view: V.View, session: E.Session, returned: set<V.Writer>)

  function Start(me: nat, idle: nat): State {
    State(me, V.START, E.Start(idle), {})
  }

  datatype Event = Output(v: V.Event) | Return(w: V.Writer) | Life(e: E.Event)

  /** The handler is at work: it got in, and has neither sent EXIT nor returned. */
  predicate Serving(s: State) {
    s.me in s.session.handlers && s.me !in s.session.told
  }

  predicate Enabled(s: State, e: Event) {
    match e
    case Output(v) => V.Enabled(s.view, v) && if v.Append? then v.w !in s.returned else v.Send? || Serving(s)
    case Return(w) => V.Unsent(s.view, w).None?
    case Life(e) =>
      && E.Enabled(s.session, e)
      && (e == E.Attach(s.me) ==> s.view.phase.Away?)
      && (e.SetExit? ==> s.returned == BOTH)
      && (e == E.SendExit(s.me) ==> Serving(s) && s.view.phase.Live? && s.view.queue == [])
  }

  function Step(s: State, e: Event): State
    requires Enabled(s, e)
  {
    match e
    case Output(v) => s.(view := V.Step(s.view, v))
    case Return(w) => s.(returned := s.returned + {w})
    case Life(e) => s.(session := E.Step(s.session, e))
  }

  ghost predicate Runs(s: State, es: seq<Event>)
    decreases |es|, 0
  {
    es == [] || (Runs(s, es[..|es| - 1]) && Enabled(After(s, es[..|es| - 1]), es[|es| - 1]))
  }

  ghost function After(s: State, es: seq<Event>): State
    requires Runs(s, es)
    decreases |es|, 1
  {
    if es == [] then s else Step(After(s, es[..|es| - 1]), es[|es| - 1])
  }

  // ----- Invariant -----

  ghost predicate Inv(s: State) {
    && V.Inv(s.view) && E.Inv(s.session)
    && (forall w <- s.returned :: V.Unsent(s.view, w).None?)
    && (s.session.exitCode.Some? ==> s.returned == BOTH)
    && (s.me in s.session.told ==> V.Quiet(s.view))
  }

  /** After the exit there is only the queue to take from, and after EXIT not even that. */
  lemma OutputEnds(s: State, v: V.Event)
    requires Inv(s) && Enabled(s, Output(v))
    ensures s.session.exitCode.Some? ==> !v.Append? && !v.Send?
    ensures s.me !in s.session.told
  {
    if s.session.exitCode.Some? {
      assert V.Unsent(s.view, V.Stdout).None? && V.Unsent(s.view, V.Stderr).None?;
    }
  }

  lemma ReturnedStaysEmpty(s: State, v: V.Event, w: V.Writer)
    requires Enabled(s, Output(v)) && w in s.returned && V.Unsent(s.view, w).None?
    ensures V.Unsent(V.Step(s.view, v), w).None?
  {
  }

  lemma OutputKeeps(s: State, e: Event)
    requires Inv(s) && Enabled(s, e) && e.Output?
    ensures Inv(Step(s, e))
  {
    var t := Step(s, e);
    assert V.Inv(t.view) by { V.InvStep(s.view, e.v); }
    OutputEnds(s, e.v);
    forall w <- t.returned
      ensures V.Unsent(t.view, w).None?
    {
      ReturnedStaysEmpty(s, e.v, w);
    }
  }

  lemma LifeKeeps(s: State, e: Event)
    requires Inv(s) && Enabled(s, e) && e.Life?
    ensures Inv(Step(s, e))
  {
    E.InvStep(s.session, e.e);
    if e.e == E.SendExit(s.me) {
      assert V.Stdout in s.returned && V.Stderr in s.returned;
    }
  }

  lemma InvStep(s: State, e: Event)
    requires Inv(s) && Enabled(s, e)
    ensures Inv(Step(s, e)) && Step(s, e).me == s.me
  {
    match e
    case Output(_) => OutputKeeps(s, e);
    case Return(_) =>
    case Life(_) => LifeKeeps(s, e);
  }

  lemma {:induction false} InvRun(s: State, es: seq<Event>)
    requires Inv(s) && Runs(s, es)
    ensures Inv(After(s, es)) && After(s, es).me == s.me
  {
    if es != [] {
      InvRun(s, es[..|es| - 1]);
      InvStep(After(s, es[..|es| - 1]), es[|es| - 1]);
    }
  }

  // ----- EXIT comes last -----

  /** In every run a client that was sent EXIT was passed everything that reached its channel, and
      nothing is on its way: it has seen all the output from its first chunk to the last if and only
      if there was no gap, no drop and no overtaking. */
  lemma {:induction false} ToldExactly(me: nat, idle: nat, es: seq<Event>)
    requires Runs(Start(me, idle), es) && me in After(Start(me, idle), es).session.told
    ensures var s := After(Start(me, idle), es);
            && s.session.exitCode.Some? && V.Quiet(s.view) && s.view.from <= s.view.shot <= s.view.count
            && (V.Shown(s.view) == V.Range(s.view.from, s.view.count) <==>
                !s.view.gap && s.view.drops == 0 && !s.view.overtaken)
  {
    InvRun(Start(me, idle), es);
    V.QuietExact(After(Start(me, idle), es).view);
  }

  /** The code, how much was written, and what went wrong for this client. */
  function Outcome(s: State): (E.Option<int>, nat, bool, nat, bool) {
    (s.session.exitCode, s.view.count, s.view.gap, s.view.drops, s.view.overtaken)
  }

  lemma FinalStep(s: State, e: Event)
    requires Inv(s) && s.session.exitCode.Some? && Enabled(s, e)
    ensures Outcome(Step(s, e)) == Outcome(s)
  {
    if e.Output? { OutputEnds(s, e.v); }
  }

  /** Once the exit code is set the output is complete: whatever follows appends nothing, drops
      nothing and overtakes nothing. */
  lemma {:induction false} OutputIsFinal(s: State, es: seq<Event>)
    requires Inv(s) && s.session.exitCode.Some? && Runs(s, es)
    ensures Outcome(After(s, es)) == Outcome(s)
  {
    if es != [] {
      OutputIsFinal(s, es[..|es| - 1]);
      InvRun(s, es[..|es| - 1]);
      FinalStep(After(s, es[..|es| - 1]), es[|es| - 1]);
    }
  }

  /** So a client that attaches after the exit and is sent EXIT has seen all that is still buffered. */
  lemma {:induction false} LateAttachComplete(s: State, es: seq<Event>)
    requires Inv(s) && s.session.exitCode.Some? && s.view.phase.Away? && Runs(s, es)
    requires s.me in After(s, es).session.told
    ensures var v := After(s, es).view;
            v.from <= v.shot <= s.view.count && V.Shown(v) == V.Range(v.from, s.view.count)
  {
    InvRun(s, es);
    OutputIsFinal(s, es);
    V.QuietExact(After(s, es).view);
  }

  lemma Then(s: State, es: seq<Event>, e: Event)
    requires Runs(s, es) && Enabled(After(s, es), e)
    ensures Runs(s, es + [e]) && After(s, es + [e]) == Step(After(s, es), e)
  {
    assert (es + [e])[..|es|] == es;
  }

  /** The handler has seen the exit and is emptying its channel. */
  predicate Draining(s: State) {
    s.session.closed && Serving(s) && s.view.phase.Live?
  }

  lemma Drains(s: State)
    requires Draining(s) && s.view.queue != []
    ensures Enabled(s, Output(V.Receive))
    ensures var t := Step(s, Output(V.Receive)); Draining(t) && t.view.queue == s.view.queue[1..]
  {
  }

  lemma Tells(s: State)
    requires Draining(s) && s.view.queue == []
    ensures Enabled(s, Life(E.SendExit(s.me)))
    ensures var t := Step(s, Life(E.SendExit(s.me))); t.me in t.session.told
  {
  }

  ghost predicate ToldAfter(s: State, es: seq<Event>) {
    Runs(s, es) && After(s, es).me in After(s, es).session.told
  }

  /** A subscribed handler of a session that has exited can always come to send EXIT: it takes what
      is queued and then sends. */
  lemma {:induction false} ExitIsReached(s: State, es: seq<Event>, n: nat) returns (all: seq<Event>)
    requires Runs(s, es) && Draining(After(s, es)) && n == |After(s, es).view.queue|
    ensures es <= all && |all| == |es| + n + 1 && ToldAfter(s, all)
    decreases n
  {
    if n == 0 {
      var e := Life(E.SendExit(After(s, es).me));
      Tells(After(s, es));
      Then(s, es, e);
      all := es + [e];
    } else {
      Drains(After(s, es));
      Then(s, es, Output(V.Receive));
      all := ExitIsReached(s, es + [Output(V.Receive)], n - 1);
      assert all[..|es|] == es;
    }
  }
}
