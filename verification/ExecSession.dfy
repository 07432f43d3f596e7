/** Attaching to and detaching from an exec session, its disconnect timer and its exit
    (internal/agent/exec_session.go), as steps that interleave freely. */
module ExecSession {

  datatype Option<T> = None | Some(value: T)

  /** `disconnectTimer`: unset, running, or past the point where it can be stopped. */
  datatype Timer = Unset | Armed | Fired

  /** `handlers` are the attach calls that got in and have not returned; `idle` is the time allowed
      after the last disconnect (0: no limit); `cancelled` means the timer's function has run;
      `told` are the handlers that sent EXIT. */
  datatype Session = Session(attached: int, timer: Timer, idle: nat, exitCode: Option<int>, closed: bool,
                             handlers: set<nat>, cancelled: bool, told: set<nat>)

  function Start(idle: nat): Session {
    Session(0, Unset, idle, None, false, {}, false, {})
  }

  datatype Event =
    | Attach(h: nat)
    | Detach(h: nat)
    | Expire
    | Cancel
    | SetExit(code: int)
    | CloseExited
    | SendExit(h: nat)

  predicate Enabled(s: Session, e: Event) {
    match e
    case Attach(h) => h !in s.handlers
    case Detach(h) => h in s.handlers
    case Expire => s.timer == Armed
    case Cancel => s.timer == Fired
    case SetExit(_) => s.exitCode.None?
    case CloseExited => s.exitCode.Some? && !s.closed
    case SendExit(h) => h in s.handlers && s.closed
  }

  /** Whether an attach call gets in: not if the timer has fired. */
  predicate Admitted(s: Session) {
    s.timer != Fired
  }

  function Step(s: Session, e: Event): Session
    requires Enabled(s, e)
  {
    match e
    case Attach(h) =>
      if Admitted(s) then s.(timer := Unset, attached := s.attached + 1, handlers := s.handlers + {h}) else s
    case Detach(h) =>
      var left := s.attached - 1;
      s.(attached := left, handlers := s.handlers - {h},
         timer := if left == 0 && s.idle > 0 then Armed else s.timer)
    case Expire => s.(timer := Fired)
    case Cancel => s.(cancelled := true)
    case SetExit(code) => s.(exitCode := Some(code))
    case CloseExited => s.(closed := true)
    case SendExit(h) => s.(told := s.told + {h})
  }

  ghost predicate Runs(s: Session, es: seq<Event>)
    decreases |es|, 0
  {
    es == [] || (Runs(s, es[..|es| - 1]) && Enabled(After(s, es[..|es| - 1]), es[|es| - 1]))
  }

  ghost function After(s: Session, es: seq<Event>): Session
    requires Runs(s, es)
    decreases |es|, 1
  {
    if es == [] then s else Step(After(s, es[..|es| - 1]), es[|es| - 1])
  }

  predicate Inv(s: Session) {
    && s.attached == |s.handlers|
    && (s.timer != Unset ==> s.handlers == {} && s.idle > 0)
    && (s.cancelled ==> s.timer == Fired)
    && (s.closed ==> s.exitCode.Some?)
    && (s.told != {} ==> s.closed)
  }

  lemma InvStep(s: Session, e: Event)
    requires Inv(s) && Enabled(s, e)
    ensures Inv(Step(s, e))
  {
  }

  /** In every run: the count is the number of live handlers; a running or fired timer means that
      nobody is attached; the session is cancelled by its timer only after it fired, so with nobody
      attached; and EXIT is sent only after the exit code is set. */
  lemma {:induction false} SessionInvariant(idle: nat, es: seq<Event>)
    requires Runs(Start(idle), es)
    ensures Inv(After(Start(idle), es))
  {
    if es != [] {
      SessionInvariant(idle, es[..|es| - 1]);
      InvStep(After(Start(idle), es[..|es| - 1]), es[|es| - 1]);
    }
  }

  /** Until the timer has fired every attach gets in, and stops the timer. */
  lemma AttachGetsIn(s: Session, h: nat)
    requires s.timer != Fired && h !in s.handlers
    ensures var t := Step(s, Attach(h));
            h in t.handlers && t.timer == Unset && t.attached == s.attached + 1
  {
  }

  /** Once the timer has fired, no attach ever gets in. */
  lemma {:induction false} NoAttachAfterFiring(s: Session, es: seq<Event>)
    requires Inv(s) && s.timer == Fired && Runs(s, es)
    ensures var t := After(s, es); Inv(t) && t.timer == Fired && t.handlers == {} && !Admitted(t)
  {
    if es != [] {
      NoAttachAfterFiring(s, es[..|es| - 1]);
      InvStep(After(s, es[..|es| - 1]), es[|es| - 1]);
    }
  }

  /** The exit code is written once and every handler that sends EXIT sends that code. */
  lemma {:induction false} ExitIsStable(s: Session, es: seq<Event>)
    requires s.exitCode.Some? && Runs(s, es)
    ensures After(s, es).exitCode == s.exitCode
  {
    if es != [] {
      ExitIsStable(s, es[..|es| - 1]);
    }
  }

  /** No attach call has been made. */
  predicate Untouched(es: seq<Event>) {
    es == [] || (Untouched(es[..|es| - 1]) && !es[|es| - 1].Attach?)
  }

  predicate TimerOk(s: Session, untouched: bool) {
    && (s.timer == Unset <==> s.handlers != {} || s.idle == 0 || untouched)
    && (untouched ==> s.handlers == {})
  }

  lemma TimerStep(s: Session, e: Event, untouched: bool)
    requires Inv(s) && TimerOk(s, untouched) && Enabled(s, e)
    ensures TimerOk(Step(s, e), untouched && !e.Attach?) && Step(s, e).idle == s.idle
  {
    if e.Attach? && Admitted(s) {
      assert e.h in Step(s, e).handlers;
    }
    if e.Detach? {
      assert |s.handlers - {e.h}| == |s.handlers| - 1;
    }
  }

  /** An attach call stops the timer and the last detach starts it: from the first attach call on it
      is unset exactly while somebody is attached, if there is a limit at all. */
  lemma {:induction false} TimerRunsWhenIdle(idle: nat, es: seq<Event>)
    requires Runs(Start(idle), es)
    ensures var s := After(Start(idle), es);
            s.idle == idle && (s.timer == Unset <==> s.handlers != {} || idle == 0 || Untouched(es))
    ensures TimerOk(After(Start(idle), es), Untouched(es))
  {
    if es != [] {
      var before := es[..|es| - 1];
      TimerRunsWhenIdle(idle, before);
      SessionInvariant(idle, before);
      TimerStep(After(Start(idle), before), es[|es| - 1], Untouched(before));
    }
  }

  /** The session object. */
  class Exec {
    var attachedClients: int
    var timer: Timer
    var maxRunAfterDisconnect: nat
    var exitCode: Option<int>
    var exited: bool
    ghost var s: Session

    ghost predicate Valid()
      reads this
    {
      && Inv(s)
      && s.attached == attachedClients && s.timer == timer && s.idle == maxRunAfterDisconnect
      && s.exitCode == exitCode && s.closed == exited
    }

    constructor (idle: nat)
      ensures Valid() && s == Start(idle)
    {
      attachedClients, timer, maxRunAfterDisconnect, exitCode, exited := 0, Unset, idle, None, false;
      s := Start(idle);
    }

    /** The head of an attach call, under the lock. */
    method Enter(ghost h: nat) returns (ok: bool)
      requires Valid() && Enabled(s, Attach(h))
      modifies this
      ensures Valid() && s == Step(old(s), Attach(h))
      ensures ok <==> old(timer) != Fired
      ensures ok <==> h in s.handlers
    {
      InvStep(s, Attach(h));
      s := Step(s, Attach(h));
      if timer != Unset {
        if timer == Fired {
          return false;
        }
        timer := Unset;
      }
      attachedClients := attachedClients + 1;
      return true;
    }

    /** The deferred end of an attach call. */
    method Leave(ghost h: nat)
      requires Valid() && Enabled(s, Detach(h))
      modifies this
      ensures Valid() && s == Step(old(s), Detach(h))
      ensures maxRunAfterDisconnect > 0 && s.handlers == {} ==> timer == Armed
    {
      InvStep(s, Detach(h));
      s := Step(s, Detach(h));
      attachedClients := attachedClients - 1;
      if attachedClients == 0 {
        if maxRunAfterDisconnect > 0 {
          timer := Armed;
        }
      }
    }

    /** The goroutine that waited for the command. */
    method Finish(code: int)
      requires Valid() && exitCode.None? && !exited
      modifies this
      ensures Valid() && exited && exitCode == Some(code)
      ensures s == Step(Step(old(s), SetExit(code)), CloseExited)
    {
      InvStep(s, SetExit(code));
      InvStep(Step(s, SetExit(code)), CloseExited);
      exitCode := Some(code);
      s := Step(s, SetExit(code));
      exited := true;
      s := Step(s, CloseExited);
    }

    /** A handler that saw the session exit: there is a code to send. */
    method ReadExit(ghost h: nat) returns (code: int)
      requires Valid() && Enabled(s, SendExit(h))
      modifies this`s
      ensures Valid() && exitCode == Some(code) && s == Step(old(s), SendExit(h))
    {
      code := exitCode.value;
      s := Step(s, SendExit(h));
    }
  }
}
