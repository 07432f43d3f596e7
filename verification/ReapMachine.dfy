/** The race between the agent's SIGCHLD reaper (cmd/agent/reaper_linux.go) and the callers
    that wait for their own child (internal/agent/exec.go, exec_session.go), coordinated by the
    registry of one-slot channels (internal/agent/reap_registry.go). Kernel, reaper and callers
    take their steps in any order; any number of calls are in progress. */
module ReapMachine {

  datatype Option<T> = None | Some(value: T)

  datatype WaitStatus = Exited(code: int) | Signaled(signal: nat)

  /** `WaitStatus.ExitStatus` and `ExitError.ExitCode`: -1 for a child killed by a signal. */
  function ExitStatus(ws: WaitStatus): int {
    if ws.Exited? then ws.code else -1
  }

  /** A child as the kernel sees it; `owner` is the call that started it, if any. */
  datatype Life = Alive | Zombie(ws: WaitStatus) | Collected
  datatype Proc = Proc(owner: Option<nat>, life: Life)

  /** `NoStatus`: a session whose wait failed without a status; it reports -1. */
  datatype Outcome = Code(code: int) | TimedOut | Failed | NoStatus

  /** Where a call is: after `cmd.Start`, after `RegisterReap`, after `cmd.Wait` returned a status, an
      error or ECHILD, blocked on its channel after ECHILD, or returned. An error may come with the
      status (`cmd.ProcessState`) or without. */
  datatype Pc =
    | Started | Registered | Waited(ws: WaitStatus) | WaitFailed(state: Option<WaitStatus>)
    | SawEchild | Receiving | Done(outcome: Outcome)

  /** A one-shot exec selects between the result of `cmd.Wait` and its deadline; the wait of an exec
      session has no deadline. */
  datatype Kind = OneShot | Session
  datatype Call = Call(pid: nat, kind: Kind, pc: Pc)

  datatype Chan = Chan(buf: seq<WaitStatus>, sends: nat, closed: bool)

  datatype Reaper =
    | Watching
    | Holding(pid: nat, owner: Option<nat>, ws: WaitStatus)   // wait4 returned, registry not consulted yet
    | Sending(call: nat, ws: WaitStatus)                      // entry taken out of the registry
    | Closing(call: nat)

  datatype Sys = Sys(
    procs: map<nat, Proc>, calls: map<nat, Call>,
    registry: map<nat, nat>,          // pid to the call whose channel is registered
    chans: map<nat, Chan>, reaper: Reaper, orphans: nat,
    truth: map<nat, WaitStatus>,      // how each call's child really ended
    missed: set<nat>)                 // calls whose status was delivered before they registered

  datatype Event =
    | Start(c: nat, pid: nat, kind: Kind) | Adopt(pid: nat) | Exit(pid: nat, ws: WaitStatus)
    | Reap(pid: nat) | Deliver | Send | Close
    | Register(c: nat) | Wait(c: nat) | WaitError(c: nat, collects: bool)
    | Finish(c: nat) | Select(c: nat) | Receive(c: nat) | Timeout(c: nat)

  // ----- Steps -----

  predicate PidFree(s: Sys, pid: nat) {
    pid in s.procs ==> s.procs[pid].life == Collected
  }

  predicate At(s: Sys, c: nat, pc: Pc) {
    c in s.calls && s.calls[c].pc == pc
  }

  ghost predicate Enabled(s: Sys, e: Event) {
    match e
    case Start(c, pid, _) => c !in s.calls && PidFree(s, pid)
    case Adopt(pid) => PidFree(s, pid)
    case Exit(pid, _) => pid in s.procs && s.procs[pid].life == Alive
    case Reap(pid) => s.reaper == Watching && pid in s.procs && s.procs[pid].life.Zombie?
    case Deliver => s.reaper.Holding?
    case Send => s.reaper.Sending? && s.reaper.call in s.chans && |s.chans[s.reaper.call].buf| < 1
    case Close => s.reaper.Closing? && s.reaper.call in s.chans
    case Register(c) => At(s, c, Started)
    case Wait(c) => At(s, c, Registered) && s.calls[c].pid in s.procs && s.procs[s.calls[c].pid].life != Alive
    case WaitError(c, collects) =>
      && At(s, c, Registered) && s.calls[c].pid in s.procs
      && if collects then s.procs[s.calls[c].pid].life.Zombie? else s.procs[s.calls[c].pid].life != Collected
    case Finish(c) => c in s.calls && (s.calls[c].pc.Waited? || s.calls[c].pc.WaitFailed?)
    case Select(c) => At(s, c, SawEchild)
    case Receive(c) => At(s, c, Receiving) && c in s.chans && s.chans[c].buf != []
    case Timeout(c) =>
      c in s.calls && s.calls[c].kind == OneShot && (s.calls[c].pc.Waited? || s.calls[c].pc.WaitFailed? || s.calls[c].pc.SawEchild?)
  }

  function Put(s: Sys, c: nat, pc: Pc): map<nat, Call>
    requires c in s.calls
  {
    s.calls[c := s.calls[c].(pc := pc)]
  }

  function Collect(s: Sys, pid: nat): map<nat, Proc>
    requires pid in s.procs
  {
    s.procs[pid := s.procs[pid].(life := Collected)]
  }

  /** What a call makes of its wait: an error fails a one-shot exec, while a session takes the status
      that came with it, or -1. */
  function Concluded(k: Call): Outcome
    requires k.pc.Waited? || k.pc.WaitFailed?
  {
    if k.pc.Waited? then Code(ExitStatus(k.pc.ws))
    else if k.kind == OneShot then Failed
    else if k.pc.state.Some? then Code(ExitStatus(k.pc.state.value))
    else NoStatus
  }

  function Step(s: Sys, e: Event): Sys
    requires Enabled(s, e)
  {
    match e
    case Start(c, pid, kind) =>
      s.(procs := s.procs[pid := Proc(Some(c), Alive)], calls := s.calls[c := Call(pid, kind, Started)])
    case Adopt(pid) => s.(procs := s.procs[pid := Proc(None, Alive)])
    case Exit(pid, ws) =>
      var p := s.procs[pid];
      s.(procs := s.procs[pid := p.(life := Zombie(ws))],
         truth := if p.owner.Some? then s.truth[p.owner.value := ws] else s.truth)
    case Reap(pid) =>
      s.(procs := Collect(s, pid), reaper := Holding(pid, s.procs[pid].owner, s.procs[pid].life.ws))
    case Deliver =>
      var h := s.reaper;
      if h.pid in s.registry then s.(registry := s.registry - {h.pid}, reaper := Sending(s.registry[h.pid], h.ws))
      else s.(reaper := Watching, orphans := s.orphans + 1,
              missed := if h.owner.Some? && At(s, h.owner.value, Started) then s.missed + {h.owner.value} else s.missed)
    case Send =>
      var c := s.reaper.call;
      s.(chans := s.chans[c := s.chans[c].(buf := s.chans[c].buf + [s.reaper.ws], sends := s.chans[c].sends + 1)], reaper := Closing(c))
    case Close => s.(chans := s.chans[s.reaper.call := s.chans[s.reaper.call].(closed := true)], reaper := Watching)
    case Register(c) =>
      s.(registry := s.registry[s.calls[c].pid := c], chans := s.chans[c := Chan([], 0, false)], calls := Put(s, c, Registered))
    case Wait(c) =>
      var pid := s.calls[c].pid;
      if s.procs[pid].life.Zombie? then s.(procs := Collect(s, pid), calls := Put(s, c, Waited(s.procs[pid].life.ws)))
      else s.(calls := Put(s, c, SawEchild))
    case WaitError(c, collects) =>
      var pid := s.calls[c].pid;
      if collects then s.(procs := Collect(s, pid), calls := Put(s, c, WaitFailed(Some(s.procs[pid].life.ws))))
      else s.(calls := Put(s, c, WaitFailed(None)))
    case Finish(c) => s.(registry := s.registry - {s.calls[c].pid}, calls := Put(s, c, Done(Concluded(s.calls[c]))))
    case Select(c) => s.(calls := Put(s, c, Receiving))
    case Receive(c) =>
      s.(chans := s.chans[c := s.chans[c].(buf := s.chans[c].buf[1..])],
         calls := Put(s, c, Done(Code(ExitStatus(s.chans[c].buf[0])))))
    case Timeout(c) => s.(registry := s.registry - {s.calls[c].pid}, calls := Put(s, c, Done(TimedOut)))
  }

  // ----- What the environment must respect -----

  /** A pid is not recycled while a call on it has not returned or the reaper still holds it. */
  ghost predicate PidSafe(s: Sys, e: Event) {
    e.Start? || e.Adopt? ==>
      (forall c <- s.calls :: s.calls[c].pid == e.pid ==> s.calls[c].pc.Done?) &&
      !(s.reaper.Holding? && s.reaper.pid == e.pid)
  }

  /** A call has registered by the time the reaper consults the registry for its child. */
  ghost predicate RegisteredFirst(s: Sys, e: Event) {
    e.Deliver? && s.reaper.Holding? && s.reaper.owner.Some? ==> !At(s, s.reaper.owner.value, Started)
  }

  ghost predicate Runs(s: Sys, es: seq<Event>)
    decreases |es|
  {
    es == [] || (Enabled(s, es[0]) && PidSafe(s, es[0]) && Runs(Step(s, es[0]), es[1..]))
  }

  function Run(s: Sys, es: seq<Event>): Sys
    requires Runs(s, es)
    decreases |es|
  {
    if es == [] then s else Run(Step(s, es[0]), es[1..])
  }

  // ----- The invariant -----

  function Get<V>(m: map<nat, V>, c: nat): Option<V> {
    if c in m then Some(m[c]) else None
  }

  /** All that concerns one call. */
  datatype View = View(call: Call, proc: Option<Proc>, chan: Option<Chan>, listed: bool, held: bool, sending: bool,
                       truth: Option<WaitStatus>, missed: bool)

  predicate Listed(s: Sys, c: nat) {
    c in s.calls && s.calls[c].pid in s.registry && s.registry[s.calls[c].pid] == c
  }

  /** The call's child has not been collected. */
  predicate HasChild(s: Sys, c: nat)
    requires c in s.calls
  {
    var pid := s.calls[c].pid;
    pid in s.procs && s.procs[pid].owner == Some(c) && !s.procs[pid].life.Collected?
  }

  function ViewOf(s: Sys, c: nat): View
    requires c in s.calls
  {
    var k := s.calls[c];
    View(k, if k.pc.Done? && !HasChild(s, c) then None else Get(s.procs, k.pid), Get(s.chans, c), Listed(s, c),
         s.reaper.Holding? && s.reaper.owner == Some(c), s.reaper.Sending? && s.reaper.call == c,
         Get(s.truth, c), c in s.missed)
  }

  /** The channel holds at most one status, the real one, sent at most once. */
  predicate ChanOk(ch: Chan, truth: Option<WaitStatus>) {
    && |ch.buf| <= ch.sends <= 1 && (ch.closed ==> ch.sends == 1)
    && (ch.buf != [] ==> truth == Some(ch.buf[0]))
  }

  /** The call, its child, its registration and its channel agree. */
  predicate CallOk(v: View, c: nat) {
    var pc := v.call.pc;
    && (v.chan.None? <==> pc.Started?)
    && (v.chan.Some? ==> ChanOk(v.chan.value, v.truth))
    && (v.held || v.sending ==> v.truth.Some? && !v.missed && (v.chan.Some? ==> v.chan.value.sends == 0))
    && !(v.held && v.sending) && (v.sending ==> !v.listed && v.chan.Some?)
    && (v.proc.Some? && !v.proc.value.life.Collected? ==> StillOut(v, v.proc.value.life))
    && if pc.Done? then DoneOk(v, pc.outcome) else v.proc.Some? && v.proc.value.owner == Some(c) && LiveOk(v)
  }

  /** Nobody has the status of a child that was not collected. */
  predicate StillOut(v: View, life: Life) {
    && !v.held && !v.sending && !v.missed && (v.chan.Some? ==> v.chan.value.sends == 0)
    && (life.Zombie? ==> v.truth == Some(life.ws))
  }

  /** A call that has returned. */
  predicate DoneOk(v: View, outcome: Outcome) {
    && !v.listed && (outcome.Failed? ==> v.call.kind == OneShot)
    && (outcome.Code? ==> v.proc.None? && v.truth.Some? && outcome.code == ExitStatus(v.truth.value))
    && (outcome.NoStatus? ==> v.call.kind == Session) && (outcome.TimedOut? ==> v.call.kind == OneShot)
    && (v.missed ==> outcome.TimedOut?)
  }

  /** A call that has not returned: where the status of its child is. */
  predicate LiveOk(v: View)
    requires v.proc.Some? && !v.call.pc.Done? && (v.chan.None? <==> v.call.pc.Started?)
  {
    var pc, life := v.call.pc, v.proc.value.life;
    && (pc.Started? ==> !v.listed && (life.Collected? ==> v.held || v.missed))
    && (!pc.Started? && !v.sending && v.chan.value.sends == 0 ==> v.listed)
    && (v.listed ==> v.chan.value.sends == 0)
    && (pc.Registered? || pc.SawEchild? || pc.Receiving? ==> life.Collected? ==>
          v.held || v.sending || v.missed || v.chan.value.buf != [])
    && (v.missed ==> v.chan.Some? ==> v.chan.value.sends == 0)
    && (pc.SawEchild? || pc.Receiving? ==> life.Collected?)
    && (pc.Waited? ==> OwnStatus(v, pc.ws))
    && (pc.WaitFailed? ==> !v.missed && (pc.state.Some? ==> OwnStatus(v, pc.state.value)))
  }

  /** The call's own wait collected its child. */
  predicate OwnStatus(v: View, ws: WaitStatus)
    requires v.proc.Some? && v.chan.Some?
  {
    v.proc.value.life.Collected? && !v.held && !v.sending && !v.missed && v.chan.value.sends == 0 && v.truth == Some(ws)
  }

  ghost predicate ReaperOk(s: Sys) {
    match s.reaper
    case Watching => true
    case Holding(pid, owner, ws) =>
      && pid in s.procs && s.procs[pid].life.Collected? && s.procs[pid].owner == owner
      && (owner.Some? ==> owner.value in s.calls && s.calls[owner.value].pid == pid && Get(s.truth, owner.value) == Some(ws))
    case Sending(c, ws) => c in s.calls && Get(s.truth, c) == Some(ws)
    case Closing(c) => c in s.chans && s.chans[c].sends == 1
  }

  ghost predicate RegistryOk(s: Sys) {
    forall pid <- s.registry ::
      var c := s.registry[pid];
      c in s.calls && s.calls[c].pid == pid && !s.calls[c].pc.Done?
  }

  ghost predicate ProcOk(s: Sys, pid: nat)
    requires pid in s.procs
  {
    var p := s.procs[pid];
    p.owner.Some? ==> p.owner.value in s.calls && s.calls[p.owner.value].pid == pid
  }

  predicate CallOkAt(s: Sys, c: nat) {
    c in s.calls && CallOk(ViewOf(s, c), c)
  }

  ghost predicate Rest(s: Sys) {
    && ReaperOk(s) && RegistryOk(s)
    && (forall pid <- s.procs :: ProcOk(s, pid))
    && s.truth.Keys <= s.calls.Keys && s.chans.Keys <= s.calls.Keys && s.missed <= s.calls.Keys
  }

  ghost predicate Inv(s: Sys) {
    (forall c <- s.calls :: CallOk(ViewOf(s, c), c)) && Rest(s)
  }

  /** The call that an event concerns. */
  function Actor(s: Sys, e: Event): Option<nat>
    requires Enabled(s, e)
  {
    match e
    case Start(c, _, _) => Some(c)
    case Adopt(_) => None
    case Exit(pid, _) => s.procs[pid].owner
    case Reap(pid) => s.procs[pid].owner
    case Deliver => s.reaper.owner
    case Send => Some(s.reaper.call)
    case Close => Some(s.reaper.call)
    case _ => Some(e.c)
  }

  /** The calls involved, unless only just created, satisfy their invariant. */
  ghost predicate ActorWas(s: Sys, e: Event)
    requires Enabled(s, e)
  {
    && (Actor(s, e).Some? && !e.Start? ==> CallOkAt(s, Actor(s, e).value))
    && (e.Deliver? && s.reaper.pid in s.registry ==> CallOkAt(s, s.registry[s.reaper.pid]))
  }

  // Every other call sees no change.

  lemma OthersUnmovedByKernel(s: Sys, e: Event, x: nat)
    requires e.Start? || e.Adopt? || e.Exit?
    requires Rest(s) && Enabled(s, e) && PidSafe(s, e) && ActorWas(s, e) && CallOkAt(s, x) && Actor(s, e) != Some(x)
    ensures x in Step(s, e).calls && ViewOf(Step(s, e), x) == ViewOf(s, x)
  {
  }

  lemma OthersUnmovedByReaper(s: Sys, e: Event, x: nat)
    requires e.Reap? || e.Deliver? || e.Send? || e.Close?
    requires Rest(s) && Enabled(s, e) && PidSafe(s, e) && ActorWas(s, e) && CallOkAt(s, x) && Actor(s, e) != Some(x)
    ensures x in Step(s, e).calls && ViewOf(Step(s, e), x) == ViewOf(s, x)
  {
  }

  lemma OthersUnmovedByRegister(s: Sys, e: Event, x: nat)
    requires e.Register?
    requires Rest(s) && Enabled(s, e) && PidSafe(s, e) && ActorWas(s, e) && CallOkAt(s, x) && Actor(s, e) != Some(x)
    ensures x in Step(s, e).calls && ViewOf(Step(s, e), x) == ViewOf(s, x)
  {
  }

  lemma OthersUnmovedByWait(s: Sys, e: Event, x: nat)
    requires e.Wait? || e.WaitError?
    requires Rest(s) && Enabled(s, e) && PidSafe(s, e) && ActorWas(s, e) && CallOkAt(s, x) && Actor(s, e) != Some(x)
    ensures x in Step(s, e).calls && ViewOf(Step(s, e), x) == ViewOf(s, x)
  {
  }

  lemma OthersUnmovedByReturn(s: Sys, e: Event, x: nat)
    requires e.Finish? || e.Timeout?
    requires Rest(s) && Enabled(s, e) && PidSafe(s, e) && ActorWas(s, e) && CallOkAt(s, x) && Actor(s, e) != Some(x)
    ensures x in Step(s, e).calls && ViewOf(Step(s, e), x) == ViewOf(s, x)
  {
  }

  lemma OthersUnmovedByReceive(s: Sys, e: Event, x: nat)
    requires e.Select? || e.Receive?
    requires Rest(s) && Enabled(s, e) && PidSafe(s, e) && ActorWas(s, e) && CallOkAt(s, x) && Actor(s, e) != Some(x)
    ensures x in Step(s, e).calls && ViewOf(Step(s, e), x) == ViewOf(s, x)
  {
  }

  // The acting call satisfies its invariant again.

  lemma ActorOkInKernel(s: Sys, e: Event, x: nat)
    requires e.Start? || e.Adopt? || e.Exit?
    requires Rest(s) && Enabled(s, e) && PidSafe(s, e) && ActorWas(s, e) && Actor(s, e) == Some(x)
    ensures CallOkAt(Step(s, e), x)
  {
  }

  lemma ActorOkInReaper(s: Sys, e: Event, x: nat)
    requires e.Reap? || e.Deliver? || e.Send? || e.Close?
    requires Rest(s) && Enabled(s, e) && PidSafe(s, e) && ActorWas(s, e) && Actor(s, e) == Some(x)
    ensures CallOkAt(Step(s, e), x)
  {
  }

  lemma ActorOkInRegister(s: Sys, e: Event, x: nat)
    requires e.Register?
    requires Rest(s) && Enabled(s, e) && PidSafe(s, e) && ActorWas(s, e) && Actor(s, e) == Some(x)
    ensures CallOkAt(Step(s, e), x)
  {
  }

  lemma ActorOkInWait(s: Sys, e: Event, x: nat)
    requires e.Wait? || e.WaitError?
    requires Rest(s) && Enabled(s, e) && PidSafe(s, e) && ActorWas(s, e) && Actor(s, e) == Some(x)
    ensures CallOkAt(Step(s, e), x)
  {
  }

  lemma ActorOkInReturn(s: Sys, e: Event, x: nat)
    requires e.Finish? || e.Timeout?
    requires Rest(s) && Enabled(s, e) && PidSafe(s, e) && ActorWas(s, e) && Actor(s, e) == Some(x)
    ensures CallOkAt(Step(s, e), x)
  {
  }

  lemma ActorOkInReceive(s: Sys, e: Event, x: nat)
    requires e.Select? || e.Receive?
    requires Rest(s) && Enabled(s, e) && PidSafe(s, e) && ActorWas(s, e) && Actor(s, e) == Some(x)
    ensures CallOkAt(Step(s, e), x)
  {
  }

  // So do the reaper, the registry and the process table.

  lemma RestKeptByKernel(s: Sys, e: Event)
    requires e.Start? || e.Adopt? || e.Exit?
    requires Rest(s) && Enabled(s, e) && PidSafe(s, e) && ActorWas(s, e)
    ensures Rest(Step(s, e))
  {
  }

  lemma RestKeptByReaper(s: Sys, e: Event)
    requires e.Reap? || e.Deliver? || e.Send? || e.Close?
    requires Rest(s) && Enabled(s, e) && PidSafe(s, e) && ActorWas(s, e)
    ensures Rest(Step(s, e))
  {
  }

  lemma RestKeptByRegister(s: Sys, e: Event)
    requires e.Register?
    requires Rest(s) && Enabled(s, e) && PidSafe(s, e) && ActorWas(s, e)
    ensures Rest(Step(s, e))
  {
  }

  lemma RestKeptByWait(s: Sys, e: Event)
    requires e.Wait? || e.WaitError?
    requires Rest(s) && Enabled(s, e) && PidSafe(s, e) && ActorWas(s, e)
    ensures Rest(Step(s, e))
  {
  }

  lemma RestKeptByReturn(s: Sys, e: Event)
    requires e.Finish? || e.Timeout?
    requires Rest(s) && Enabled(s, e) && PidSafe(s, e) && ActorWas(s, e)
    ensures Rest(Step(s, e))
  {
  }

  lemma RestKeptByReceive(s: Sys, e: Event)
    requires e.Select? || e.Receive?
    requires Rest(s) && Enabled(s, e) && PidSafe(s, e) && ActorWas(s, e)
    ensures Rest(Step(s, e))
  {
  }

  lemma OthersUnmoved(s: Sys, e: Event, x: nat)
    requires Rest(s) && Enabled(s, e) && PidSafe(s, e) && ActorWas(s, e) && CallOkAt(s, x) && Actor(s, e) != Some(x)
    ensures CallOkAt(Step(s, e), x) && ViewOf(Step(s, e), x) == ViewOf(s, x)
  {
    if e.Start? || e.Adopt? || e.Exit? {
      OthersUnmovedByKernel(s, e, x);
    } else if e.Reap? || e.Deliver? || e.Send? || e.Close? {
      OthersUnmovedByReaper(s, e, x);
    } else if e.Register? {
      OthersUnmovedByRegister(s, e, x);
    } else if e.Wait? || e.WaitError? {
      OthersUnmovedByWait(s, e, x);
    } else if e.Finish? || e.Timeout? {
      OthersUnmovedByReturn(s, e, x);
    } else {
      OthersUnmovedByReceive(s, e, x);
    }
  }

  lemma ActorOk(s: Sys, e: Event, x: nat)
    requires Rest(s) && Enabled(s, e) && PidSafe(s, e) && ActorWas(s, e) && Actor(s, e) == Some(x)
    ensures CallOkAt(Step(s, e), x)
  {
    if e.Start? || e.Adopt? || e.Exit? {
      ActorOkInKernel(s, e, x);
    } else if e.Reap? || e.Deliver? || e.Send? || e.Close? {
      ActorOkInReaper(s, e, x);
    } else if e.Register? {
      ActorOkInRegister(s, e, x);
    } else if e.Wait? || e.WaitError? {
      ActorOkInWait(s, e, x);
    } else if e.Finish? || e.Timeout? {
      ActorOkInReturn(s, e, x);
    } else {
      ActorOkInReceive(s, e, x);
    }
  }

  lemma RestKept(s: Sys, e: Event)
    requires Rest(s) && Enabled(s, e) && PidSafe(s, e) && ActorWas(s, e)
    ensures Rest(Step(s, e))
  {
    if e.Start? || e.Adopt? || e.Exit? {
      RestKeptByKernel(s, e);
    } else if e.Reap? || e.Deliver? || e.Send? || e.Close? {
      RestKeptByReaper(s, e);
    } else if e.Register? {
      RestKeptByRegister(s, e);
    } else if e.Wait? || e.WaitError? {
      RestKeptByWait(s, e);
    } else if e.Finish? || e.Timeout? {
      RestKeptByReturn(s, e);
    } else {
      RestKeptByReceive(s, e);
    }
  }

  lemma ActorWasOk(s: Sys, e: Event)
    requires Inv(s) && Enabled(s, e)
    ensures ActorWas(s, e)
  {
  }

  /** The calls of the next state: the old ones and the one just started. */
  lemma CallsOf(s: Sys, e: Event, x: nat)
    requires Enabled(s, e) && x in Step(s, e).calls
    ensures x in s.calls || Actor(s, e) == Some(x)
  {
  }

  lemma {:induction false} InvStep(s: Sys, e: Event)
    requires Inv(s) && Enabled(s, e) && PidSafe(s, e)
    ensures Inv(Step(s, e))
  {
    var s' := Step(s, e);
    ActorWasOk(s, e);
    RestKept(s, e);
    forall x <- s'.calls ensures CallOk(ViewOf(s', x), x) {
      CallsOf(s, e, x);
      if Actor(s, e) == Some(x) {
        ActorOk(s, e, x);
      } else {
        assert CallOkAt(s, x);
        OthersUnmoved(s, e, x);
      }
      assert CallOkAt(s', x);
    }
  }

  const INITIAL := Sys(map[], map[], map[], map[], Watching, 0, map[], {})

  lemma {:induction false} InvRun(s: Sys, es: seq<Event>)
    requires Inv(s) && Runs(s, es)
    ensures Inv(Run(s, es))
    decreases |es|
  {
    if es != [] {
      InvStep(s, es[0]);
      InvRun(Step(s, es[0]), es[1..]);
    }
  }

  // ----- Main results -----

  /** The outcome is how the child ended: its own code, or -1 for a signal. */
  predicate Tells(outcome: Outcome, ws: WaitStatus) {
    match ws
    case Exited(n) => outcome == Code(n)
    case Signaled(_) => outcome == Code(-1)
  }

  /** In every interleaving: a call that reports an exit code reports its child's, whoever won the
      race, and a session does so unless its wait failed without a status; a returned call has left
      nothing in the registry; no channel gets a second send; and the reaper's send always finds
      room. */
  lemma {:induction false} RaceIsSafe(es: seq<Event>)
    requires Runs(INITIAL, es)
    ensures var s := Run(INITIAL, es);
            && (forall c <- s.calls :: s.calls[c].pc.Done? && s.calls[c].pc.outcome.Code? ==>
                  c in s.truth && Tells(s.calls[c].pc.outcome, s.truth[c]))
            && (forall c <- s.calls :: s.calls[c].pc.Done? && s.calls[c].kind == Session ==>
                  s.calls[c].pc.outcome.Code? || s.calls[c].pc.outcome.NoStatus?)
            && (forall pid <- s.registry :: s.registry[pid] in s.calls && !s.calls[s.registry[pid]].pc.Done?)
            && (forall c <- s.chans :: s.chans[c].sends <= 1)
            && (s.reaper.Sending? ==> Enabled(s, Send)) && (s.reaper.Closing? ==> Enabled(s, Close))
  {
    InvRun(INITIAL, es);
    var s := Run(INITIAL, es);
    forall c <- s.calls ensures CallOkAt(s, c) {}
  }

  /** A call that saw ECHILD has its status in its channel or in the reaper's hands, except
      exactly when the reaper consulted the registry before the call had registered. */
  lemma {:induction false} EchildHasStatus(es: seq<Event>, c: nat)
    requires Runs(INITIAL, es) && (At(Run(INITIAL, es), c, SawEchild) || At(Run(INITIAL, es), c, Receiving))
    ensures var s := Run(INITIAL, es);
            && (Delivered(s, c) || InHands(s, c) <==> c !in s.missed)
            && (Delivered(s, c) ==> c in s.truth && s.chans[c].buf[0] == s.truth[c])
  {
    InvRun(INITIAL, es);
    assert CallOkAt(Run(INITIAL, es), c);
  }

  predicate InHands(s: Sys, c: nat) {
    || (s.reaper.Holding? && s.reaper.owner == Some(c))
    || (s.reaper.Sending? && s.reaper.call == c)
  }

  predicate Delivered(s: Sys, c: nat) {
    c in s.chans && s.chans[c].buf != []
  }

  lemma OneStep(s: Sys, e: Event)
    requires Enabled(s, e) && PidSafe(s, e)
    ensures Runs(s, [e]) && Run(s, [e]) == Step(s, e)
  {
    assert [e][1..] == [] && Run(Step(s, e), []) == Step(s, e);
  }

  lemma SendDelivers(s: Sys, c: nat)
    requires Inv(s) && s.reaper.Sending? && s.reaper.call == c
    ensures Enabled(s, Send) && Delivered(Step(s, Send), c) && Step(s, Send).calls == s.calls
  {
    assert CallOkAt(s, c);
  }

  lemma DeliverTakesUp(s: Sys, c: nat)
    requires Inv(s) && s.reaper.Holding? && s.reaper.owner == Some(c) && c in s.calls
    requires s.calls[c].pc.SawEchild? || s.calls[c].pc.Receiving?
    ensures Enabled(s, Deliver) && Step(s, Deliver).reaper == Sending(c, s.reaper.ws) && Step(s, Deliver).calls == s.calls
  {
    assert CallOkAt(s, c);
  }

  lemma OneReaperStep(s: Sys, c: nat)
    requires Inv(s) && At(s, c, Receiving) && s.reaper.Sending? && s.reaper.call == c
    ensures Runs(s, [Send]) && Enabled(Run(s, [Send]), Receive(c))
  {
    SendDelivers(s, c);
    OneStep(s, Send);
  }

  lemma TwoReaperSteps(s: Sys, c: nat)
    requires Inv(s) && At(s, c, Receiving) && s.reaper.Holding? && s.reaper.owner == Some(c)
    ensures Runs(s, [Deliver] + [Send]) && Enabled(Run(s, [Deliver] + [Send]), Receive(c))
  {
    DeliverTakesUp(s, c);
    InvStep(s, Deliver);
    OneStep(s, Deliver);
    OneReaperStep(Step(s, Deliver), c);
    RunConcat(s, [Deliver], [Send]);
  }

  /** The reaper needs at most two steps of its own before such a call can receive its status. */
  lemma {:induction false} ReaperDelivers(s: Sys, c: nat) returns (es: seq<Event>)
    requires Inv(s) && At(s, c, Receiving) && c !in s.missed
    ensures es == [] || es == [Send] || es == [Deliver] + [Send]
    ensures Runs(s, es) && Enabled(Run(s, es), Receive(c))
  {
    assert CallOkAt(s, c);
    if Delivered(s, c) {
      es := [];
    } else if s.reaper.Sending? {
      OneReaperStep(s, c);
      es := [Send];
    } else {
      TwoReaperSteps(s, c);
      es := [Deliver] + [Send];
    }
  }

  /** A call blocked on its channel that was missed stays blocked, whatever happens. */
  lemma {:induction false} StuckStep(s: Sys, e: Event, c: nat)
    requires Inv(s) && At(s, c, Receiving) && c in s.missed && Enabled(s, e) && PidSafe(s, e)
    ensures At(Step(s, e), c, Receiving) && c in Step(s, e).missed
  {
    assert CallOkAt(s, c);
    ActorWasOk(s, e);
    StuckIsIdle(s, e, c);
    OthersUnmoved(s, e, c);
    assert ViewOf(Step(s, e), c).missed && ViewOf(Step(s, e), c).call == s.calls[c];
  }

  /** No step concerns such a call. */
  lemma StuckIsIdle(s: Sys, e: Event, c: nat)
    requires Rest(s) && CallOkAt(s, c) && At(s, c, Receiving) && c in s.missed && Enabled(s, e)
    ensures Actor(s, e) != Some(c)
  {
  }

  lemma {:induction false} StuckForever(s: Sys, es: seq<Event>, c: nat)
    requires Inv(s) && At(s, c, Receiving) && c in s.missed && Runs(s, es)
    ensures At(Run(s, es), c, Receiving)
    decreases |es|
  {
    if es != [] {
      InvStep(s, es[0]);
      StuckStep(s, es[0], c);
      StuckForever(Step(s, es[0]), es[1..], c);
    }
  }

  lemma {:induction false} RunConcat(s: Sys, a: seq<Event>, b: seq<Event>)
    requires Runs(s, a) && Runs(Run(s, a), b)
    ensures Runs(s, a + b) && Run(s, a + b) == Run(Run(s, a), b)
    decreases |a|
  {
    if a == [] {
      assert a + b == b;
    } else {
      assert (a + b)[1..] == a[1..] + b;
      RunConcat(Step(s, a[0]), a[1..], b);
    }
  }

  /** A call that was not missed returns with the reaper's help alone. */
  lemma {:induction false} NotMissedReturns(s: Sys, c: nat) returns (es: seq<Event>)
    requires Inv(s) && At(s, c, Receiving) && c !in s.missed
    ensures Runs(s, es) && c in Run(s, es).calls && Run(s, es).calls[c].pc.Done?
  {
    var ds := ReaperDelivers(s, c);
    var t := Run(s, ds);
    OneStep(t, Receive(c));
    RunConcat(s, ds, [Receive(c)]);
    es := ds + [Receive(c)];
  }

  /** A call that took ECHILD out of its select is blocked in every continuation if and only if it was
      missed: no deadline applies to it any more. */
  lemma {:induction false} StuckExactly(trace: seq<Event>, c: nat)
    requires Runs(INITIAL, trace) && At(Run(INITIAL, trace), c, Receiving)
    ensures var s := Run(INITIAL, trace);
            (forall es :: Runs(s, es) ==> At(Run(s, es), c, Receiving)) <==> c in s.missed
  {
    InvRun(INITIAL, trace);
    var s := Run(INITIAL, trace);
    if c in s.missed {
      forall es | Runs(s, es)
        ensures At(Run(s, es), c, Receiving)
      {
        StuckForever(s, es, c);
      }
    } else {
      var es := NotMissedReturns(s, c);
    }
  }

  /** When every call registers before its child's status is delivered, none is missed... */
  lemma {:induction false} NoneMissed(s: Sys, es: seq<Event>)
    requires Runs(s, es) && s.missed == {} && InTurn(s, es)
    ensures Run(s, es).missed == {}
    decreases |es|
  {
    if es != [] {
      NoneMissed(Step(s, es[0]), es[1..]);
    }
  }

  ghost predicate InTurn(s: Sys, es: seq<Event>)
    requires Runs(s, es)
    decreases |es|
  {
    es == [] || (RegisteredFirst(s, es[0]) && InTurn(Step(s, es[0]), es[1..]))
  }

  /** ... and a call that was missed never reports a code. It can end only by the deadline of a one-shot
      exec, as long as its select is open. */
  lemma {:induction false} MissedNeverReports(es: seq<Event>, c: nat)
    requires Runs(INITIAL, es)
    ensures var s := Run(INITIAL, es);
            c in s.missed ==>
              && c in s.calls && !Enabled(s, Receive(c))
              && (s.calls[c].pc.Done? ==> s.calls[c].kind == OneShot && s.calls[c].pc.outcome == TimedOut)
  {
    InvRun(INITIAL, es);
    var s := Run(INITIAL, es);
    if c in s.missed {
      assert CallOkAt(s, c);
      MissedHasNone(s, c);
    }
  }

  lemma MissedHasNone(s: Sys, c: nat)
    requires CallOkAt(s, c) && c in s.missed
    ensures !Enabled(s, Receive(c)) && (s.calls[c].pc.Done? ==> s.calls[c].kind == OneShot && s.calls[c].pc.outcome == TimedOut)
  {
  }

  /** Without `PidSafe` the protocol fails: whenever the kernel hands the pid of a call that has
      waited but not yet unregistered to a new call, there is an order of steps in which the new
      call registers in time and still never gets its status. */
  lemma RecycledPidLosesStatus(s0: Sys, old': nat, c: nat, kind: Kind, ws: WaitStatus)
    requires Inv(s0) && old' in s0.calls && s0.calls[old'].pc.Waited? && s0.reaper == Watching && c !in s0.calls
    ensures var pid := s0.calls[old'].pid;
            Enabled(s0, Start(c, pid, kind)) && var s1 := Step(s0, Start(c, pid, kind));
            Enabled(s1, Register(c)) && var s2 := Step(s1, Register(c));
            Enabled(s2, Finish(old')) && LosesStatus(Step(s2, Finish(old')), pid, c, ws)
  {
    assert CallOkAt(s0, old');
    var pid := s0.calls[old'].pid;
    var s3 := Step(Step(Step(s0, Start(c, pid, kind)), Register(c)), Finish(old'));
    assert At(s3, c, Registered) && s3.calls[c].pid == pid && pid !in s3.registry && s3.reaper == Watching;
    assert c in s3.chans && s3.chans[c].buf == [] && c !in s3.missed && s3.procs[pid] == Proc(Some(c), Alive);
    UnlistedLosesStatus(s3, pid, c, ws);
  }

  /** From `s` the child of `c` ends and is reaped, and `c` sees ECHILD without its status being in its
      channel or in the reaper's hands. */
  ghost predicate LosesStatus(s: Sys, pid: nat, c: nat, ws: WaitStatus) {
    Enabled(s, Exit(pid, ws)) && var s1 := Step(s, Exit(pid, ws));
    Enabled(s1, Reap(pid)) && var s2 := Step(s1, Reap(pid));
    Enabled(s2, Deliver) && RegisteredFirst(s2, Deliver) && var s3 := Step(s2, Deliver);
    Enabled(s3, Wait(c)) && var s4 := Step(s3, Wait(c));
    At(s4, c, SawEchild) && !Delivered(s4, c) && !InHands(s4, c) && c !in s4.missed
  }

  lemma UnlistedLosesStatus(s: Sys, pid: nat, c: nat, ws: WaitStatus)
    requires At(s, c, Registered) && s.calls[c].pid == pid && pid !in s.registry && s.reaper == Watching
    requires c in s.chans && s.chans[c].buf == [] && c !in s.missed && pid in s.procs && s.procs[pid] == Proc(Some(c), Alive)
    ensures LosesStatus(s, pid, c, ws)
  {
  }
}
