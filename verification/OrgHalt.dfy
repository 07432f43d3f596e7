/** Halting and resuming the sandboxes of an organisation (internal/api/admin_org.go): what the
    halt worker, the resume worker and the user's own actions do to the session table, one database
    call at a time and in any order. */
module OrgHalt {

  datatype Option<T> = None | Some(value: T)
  datatype Status = Running | Hibernated | Stopped

  /** `stamped` is halt_reason = 'credits_exhausted'; `saved` is the active hibernation, and whether
      its upload is recorded. */
  datatype Session = Session(status: Status, stamped: bool, worker: string, saved: Option<bool>)

  /** How the calls of one halt step end: the RPC to the worker, and the three writes after it. */
  datatype HaltCalls = HaltCalls(rpcOk: bool, createOk: bool, updateOk: bool, stampOk: bool)

  /** How the calls of one resume step end; `usable` says that the source worker is known, not
      draining, under 90 percent on all counts and reachable; `least` is the least loaded worker. */
  datatype WakeCalls = WakeCalls(usable: bool, least: Option<string>, rpcOk: bool, restoreOk: bool, updateOk: bool, clearOk: bool)

  const LIMIT := 1000

  // ----- One session -----

  /** `hibernateForHalt` and the stamp. The status is written only over 'running', and a failed write
      is ignored. */
  function HaltSession(x: Session, c: HaltCalls): Session {
    if !c.rpcOk then x
    else
      x.(saved := if c.createOk then Some(false) else x.saved,
         status := if c.updateOk && x.status == Running then Hibernated else x.status,
         stamped := x.stamped || c.stampOk)
  }

  /** Where a sandbox wakes: on its own worker if that is usable, else anywhere once uploaded. */
  function WakeWorker(worker: string, saved: Option<bool>, c: WakeCalls): Option<string> {
    if worker != "" && c.usable then Some(worker)
    else if saved == Some(true) then c.least
    else None
  }

  predicate Wakes(x: Session, c: WakeCalls) {
    x.saved.Some? && x.status == Hibernated && WakeWorker(x.worker, x.saved, c).Some? && c.rpcOk
  }

  /** `wakeForResume` and the clearing of the stamp, when nothing comes between. */
  function WakeSession(x: Session, c: WakeCalls): Session {
    if !Wakes(x, c) then x
    else
      var to := WakeWorker(x.worker, x.saved, c).value;
      Session(if c.updateOk then Running else x.status, x.stamped && !c.clearOk,
              if c.updateOk then to else x.worker, if c.restoreOk then None else x.saved)
  }

  // ----- All calls, interleaved -----

  // The slots admit one halt worker and one resume worker at a time. How a worker's remaining calls
  // will end is fixed when it takes up a session.

  /** What the halt worker does next: create the hibernation, write the status, stamp. */
  datatype HaltAt = HaltFree | Saving(id: string, c: HaltCalls) | Parking(id: string, c: HaltCalls) | Stamping(id: string, c: HaltCalls)

  /** What the resume worker does next: check the session it found a hibernation of, mark the
      hibernation restored, write the status, clear the stamp. */
  datatype WakeAt =
    | WakeFree
    | Found(id: string, saved: Option<bool>, c: WakeCalls)
    | Woken(id: string, to: string, c: WakeCalls)
    | Restored(id: string, to: string, c: WakeCalls)
    | Clearing(id: string, c: WakeCalls)

  datatype Event =
    | HaltRpc(id: string, halt: HaltCalls) | HaltCreate | HaltWrite | HaltStamp
    | WakeFind(id: string, wake: WakeCalls) | WakeRpc | WakeRestore | WakeWrite | WakeClear
    | UserHibernate(id: string)
    | UserWake(id: string)
    | Upload(id: string)
    | Create(id: string, worker: string)
    | Stop(id: string)

  /** A sandbox started on `to` while it was last on `from`, and what was known then: whether `from`
      was usable, the least loaded worker, and whether the upload was recorded. */
  datatype Move = Move(from: string, to: string, usable: bool, least: Option<string>, uploaded: bool)

  /** `byCredit` are the sessions whose last hibernation was the halt worker's; `moves` are the
      wake-ups of the resume worker. */
  datatype State = State(sessions: map<string, Session>, halt: HaltAt, wake: WakeAt, byCredit: set<string>, moves: seq<Move>)

  function Put(s: State, id: string, x: Session): State {
    s.(sessions := s.sessions[id := x])
  }

  /** A call of the halt worker. */
  function HaltStep(s: State, e: Event): State {
    if e.HaltRpc? then
      if s.halt.HaltFree? && e.id in s.sessions && e.halt.rpcOk then s.(halt := Saving(e.id, e.halt)) else s
    else if s.halt.HaltFree? || s.halt.id !in s.sessions then s
    else
      var id, c, x := s.halt.id, s.halt.c, s.sessions[s.halt.id];
      if e.HaltCreate? && s.halt.Saving? then
        Put(s, id, if c.createOk then x.(saved := Some(false)) else x).(halt := Parking(id, c))
      else if e.HaltWrite? && s.halt.Parking? then
        if c.updateOk && x.status == Running then
          Put(s, id, x.(status := Hibernated)).(halt := Stamping(id, c), byCredit := s.byCredit + {id})
        else s.(halt := Stamping(id, c))
      else if e.HaltStamp? && s.halt.Stamping? then
        Put(s, id, x.(stamped := x.stamped || c.stampOk)).(halt := HaltFree)
      else s
  }

  /** A call of the resume worker. The hibernation is looked up before the session is. */
  function WakeStep(s: State, e: Event): State {
    if e.WakeFind? then
      if s.wake.WakeFree? && e.id in s.sessions && s.sessions[e.id].saved.Some?
      then s.(wake := Found(e.id, s.sessions[e.id].saved, e.wake)) else s
    else if s.wake.WakeFree? || s.wake.id !in s.sessions then s
    else
      var id, c, x := s.wake.id, s.wake.c, s.sessions[s.wake.id];
      if e.WakeRpc? && s.wake.Found? then
        var to := WakeWorker(x.worker, s.wake.saved, c);
        if x.status != Hibernated || to.None? || !c.rpcOk then s.(wake := WakeFree)
        else s.(wake := Woken(id, to.value, c), moves := s.moves + [Move(x.worker, to.value, c.usable, c.least, s.wake.saved == Some(true))])
      else if e.WakeRestore? && s.wake.Woken? then
        Put(s, id, if c.restoreOk then x.(saved := None) else x).(wake := Restored(id, s.wake.to, c))
      else if e.WakeWrite? && s.wake.Restored? then
        Put(s, id, if c.updateOk && x.status == Hibernated then x.(status := Running, worker := s.wake.to) else x)
          .(wake := Clearing(id, c))
      else if e.WakeClear? && s.wake.Clearing? then
        Put(s, id, x.(stamped := x.stamped && !c.clearOk)).(wake := WakeFree)
      else s
  }

  /** What users and the archive do. */
  function OtherStep(s: State, e: Event): State
    requires ByOthers(e)
  {
    if e.Create? then
      if e.id in s.sessions then s else Put(s, e.id, Session(Running, false, e.worker, None)).(byCredit := s.byCredit - {e.id})
    else if e.id !in s.sessions then s
    else
      var x := s.sessions[e.id];
      match e
      case UserHibernate(id) =>
        if x.status != Running then s
        else Put(s, id, x.(status := Hibernated, saved := Some(false))).(byCredit := s.byCredit - {id})
      case UserWake(id) => if x.status != Hibernated then s else Put(s, id, x.(status := Running, saved := None))
      case Upload(id) => if x.saved.Some? then Put(s, id, x.(saved := Some(true))) else s
      case Stop(id) => Put(s, id, x.(status := Stopped))
  }

  predicate ByHalt(e: Event) { e.HaltRpc? || e.HaltCreate? || e.HaltWrite? || e.HaltStamp? }
  predicate ByWake(e: Event) { e.WakeFind? || e.WakeRpc? || e.WakeRestore? || e.WakeWrite? || e.WakeClear? }
  predicate ByOthers(e: Event) { e.UserHibernate? || e.UserWake? || e.Upload? || e.Create? || e.Stop? }

  function Step(s: State, e: Event): State {
    if ByHalt(e) then HaltStep(s, e) else if ByWake(e) then WakeStep(s, e) else OtherStep(s, e)
  }

  function Run(s: State, es: seq<Event>): State {
    if es == [] then s else Step(Run(s, es[..|es| - 1]), es[|es| - 1])
  }

  lemma RunSnoc(s: State, es: seq<Event>, e: Event)
    ensures Run(s, es + [e]) == Step(Run(s, es), e)
  {
    assert (es + [e])[..|es|] == es;
  }

  // ----- Without interference the calls add up -----

  /** A halt of one session that nothing interrupts is `HaltSession`. */
  lemma HaltUninterrupted(s: State, id: string, c: HaltCalls)
    requires s.halt.HaltFree? && id in s.sessions
    ensures var t := Step(Step(Step(Step(s, HaltRpc(id, c)), HaltCreate), HaltWrite), HaltStamp);
            t.sessions == s.sessions[id := HaltSession(s.sessions[id], c)] && t.halt.HaltFree? && t.wake == s.wake
  {
  }

  /** A resume of one session that nothing interrupts is `WakeSession`. */
  lemma WakeUninterrupted(s: State, id: string, c: WakeCalls)
    requires s.wake.WakeFree? && id in s.sessions
    ensures var t := Step(Step(Step(Step(Step(s, WakeFind(id, c)), WakeRpc), WakeRestore), WakeWrite), WakeClear);
            t.sessions == s.sessions[id := WakeSession(s.sessions[id], c)] && t.wake.WakeFree? && t.halt == s.halt
  {
    var s1 := Step(s, WakeFind(id, c));
    var s2 := Step(s1, WakeRpc);
    assert s.sessions == s.sessions[id := s.sessions[id]];
    assert Wakes(s.sessions[id], c) <==> s2.wake.Woken?;
  }

  // ----- The stamp tells who hibernated a session -----

  predicate Attributed(x: Session, byCredit: bool) {
    && (x.status == Running ==> !x.stamped)
    && (x.status == Hibernated ==> (x.stamped <==> byCredit))
  }

  /** The stamp that is to land on `id`: its worker is past the status write. */
  predicate StampDue(s: State, id: string) {
    s.halt.Stamping? && s.halt.id == id && s.halt.c.stampOk
  }

  predicate ClearDue(s: State, id: string) {
    s.wake.Clearing? && s.wake.id == id && s.wake.c.clearOk
  }

  /** A session will be attributed in whatever order the writes due to it land. */
  predicate Settles(x: Session, byCredit: bool, stampDue: bool, clearDue: bool) {
    && (stampDue ==> Attributed(x.(stamped := true), byCredit))
    && (clearDue ==> Attributed(x.(stamped := false), byCredit))
    && (!stampDue && !clearDue ==> Attributed(x, byCredit))
  }

  predicate SettlesAt(s: State, id: string)
    requires id in s.sessions
  {
    Settles(s.sessions[id], id in s.byCredit, StampDue(s, id), ClearDue(s, id))
  }

  ghost predicate Sound(s: State) {
    && (forall id :: id in s.sessions ==> SettlesAt(s, id))
    && (!s.halt.HaltFree? ==> s.halt.id in s.sessions) && (!s.wake.WakeFree? ==> s.wake.id in s.sessions)
  }

  /** With no write due, a sound state is one in which every session is attributed. */
  lemma SoundIsAttributed(s: State, id: string)
    requires Sound(s) && id in s.sessions && !StampDue(s, id) && !ClearDue(s, id)
    ensures Attributed(s.sessions[id], id in s.byCredit)
  {
    assert SettlesAt(s, id);
  }

  /** When a step can be taken without harm. A status write must not fall between the other worker's
      status write and its stamp or clear; it must succeed exactly if its own stamp or clear does; and
      no user wakes a session that is stamped or about to be. */
  predicate Orderly(s: State, e: Event) {
    match e
    case HaltWrite =>
      s.halt.Parking? && s.halt.id in s.sessions ==>
        var x, c := s.sessions[s.halt.id], s.halt.c;
        if ClearDue(s, s.halt.id) then x.status == Stopped || (!c.stampOk && !(x.status == Running && c.updateOk))
        else && (x.status == Running ==> c.updateOk == c.stampOk)
             && (x.status == Hibernated ==> c.stampOk ==> x.stamped)
    case WakeWrite =>
      s.wake.Restored? && s.wake.id in s.sessions ==>
        var x, c := s.sessions[s.wake.id], s.wake.c;
        if StampDue(s, s.wake.id) then x.status == Stopped || (!c.updateOk && !c.clearOk)
        else x.status == Hibernated && x.stamped ==> c.updateOk == c.clearOk
    case UserWake(id) =>
      id in s.sessions && s.sessions[id].status == Hibernated ==>
        !StampDue(s, id) && (ClearDue(s, id) || !s.sessions[id].stamped)
    case _ => true
  }

  /** The session a step touches, if any. */
  function Target(s: State, e: Event): Option<string> {
    if e.HaltRpc? || e.WakeFind? then None
    else if ByHalt(e) then (if s.halt.HaltFree? then None else Some(s.halt.id))
    else if ByWake(e) then (if s.wake.WakeFree? then None else Some(s.wake.id))
    else if ByOthers(e) then Some(e.id) else None
  }

  lemma OthersUntouched(s: State, e: Event, id: string)
    requires id in s.sessions && Target(s, e) != Some(id)
    ensures var t := Step(s, e);
            && id in t.sessions && t.sessions[id] == s.sessions[id] && (id in t.byCredit <==> id in s.byCredit)
            && StampDue(t, id) == StampDue(s, id) && ClearDue(t, id) == ClearDue(s, id)
  {
  }

  lemma HaltTouches(s: State, e: Event, id: string)
    requires ByHalt(e) && Target(s, e) == Some(id) && id in s.sessions && SettlesAt(s, id)
    ensures id in Step(s, e).sessions && (SettlesAt(Step(s, e), id) <==> Orderly(s, e))
  {
  }

  lemma WakeTouches(s: State, e: Event, id: string)
    requires ByWake(e) && Target(s, e) == Some(id) && id in s.sessions && SettlesAt(s, id)
    ensures id in Step(s, e).sessions && (SettlesAt(Step(s, e), id) <==> Orderly(s, e))
  {
  }

  lemma OtherTouches(s: State, e: Event, id: string)
    requires ByOthers(e) && Target(s, e) == Some(id) && id in s.sessions && SettlesAt(s, id)
    ensures id in Step(s, e).sessions && (SettlesAt(Step(s, e), id) <==> Orderly(s, e))
  {
  }

  lemma Touches(s: State, e: Event, id: string)
    requires Target(s, e) == Some(id) && id in s.sessions && SettlesAt(s, id)
    ensures id in Step(s, e).sessions && (SettlesAt(Step(s, e), id) <==> Orderly(s, e))
  {
    if ByHalt(e) { HaltTouches(s, e, id); } else if ByWake(e) { WakeTouches(s, e, id); } else { OtherTouches(s, e, id); }
  }

  lemma Positions(s: State, e: Event)
    requires !s.halt.HaltFree? ==> s.halt.id in s.sessions
    requires !s.wake.WakeFree? ==> s.wake.id in s.sessions
    ensures var t := Step(s, e);
            && s.sessions.Keys <= t.sessions.Keys
            && (!t.halt.HaltFree? ==> t.halt.id in t.sessions) && (!t.wake.WakeFree? ==> t.wake.id in t.sessions)
  {
  }

  lemma NewSession(s: State, e: Event, id: string)
    requires Sound(s) && id !in s.sessions && id in Step(s, e).sessions
    ensures SettlesAt(Step(s, e), id)
  {
  }

  /** One step keeps the state sound exactly if it is orderly. */
  lemma {:induction false} AttributionExact(s: State, e: Event)
    requires Sound(s)
    ensures Sound(Step(s, e)) <==> Orderly(s, e)
  {
    var t := Step(s, e);
    Positions(s, e);
    forall id | id in t.sessions && Target(s, e) != Some(id)
      ensures SettlesAt(t, id)
    {
      if id in s.sessions { OthersUntouched(s, e, id); } else { NewSession(s, e, id); }
    }
    if Target(s, e).Some? {
      var id := Target(s, e).value;
      if id in s.sessions {
        Touches(s, e, id);
      } else if id in t.sessions {
        NewSession(s, e, id);
      }
    }
  }

  ghost predicate OrderlyRun(s: State, es: seq<Event>) {
    forall i :: 0 <= i < |es| ==> Orderly(Run(s, es[..i]), es[i])
  }

  /** Over every orderly interleaving the sessions that carry the stamp while hibernated are exactly
      those the halt worker hibernated, but for writes still due. */
  lemma {:induction false} AttributionRun(s: State, es: seq<Event>)
    requires Sound(s) && OrderlyRun(s, es)
    ensures var t := Run(s, es);
            && Sound(t)
            && forall id :: id in t.sessions && !StampDue(t, id) && !ClearDue(t, id) ==> Attributed(t.sessions[id], id in t.byCredit)
  {
    if es != [] {
      var before := es[..|es| - 1];
      forall i | 0 <= i < |before|
        ensures Orderly(Run(s, before[..i]), before[i])
      {
        assert before[..i] == es[..i];
      }
      AttributionRun(s, before);
      assert es[..|es| - 1] == before;
      AttributionExact(Run(s, before), es[|es| - 1]);
    }
    var t := Run(s, es);
    forall id | id in t.sessions && !StampDue(t, id) && !ClearDue(t, id)
      ensures Attributed(t.sessions[id], id in t.byCredit)
    {
      SoundIsAttributed(t, id);
    }
  }

  /** Nothing is due to the session, and its stamp is wrong. */
  predicate Misjudged(s: State, id: string) {
    && id in s.sessions && !StampDue(s, id) && !ClearDue(s, id)
    && !Attributed(s.sessions[id], id in s.byCredit)
  }

  lemma RunOne(s: State, e: Event)
    ensures Run(s, [e]) == Step(s, e)
  {
    assert [e][..0] == [];
  }

  lemma RunTwo(s: State, d: Event, e: Event)
    ensures Run(s, [d, e]) == Step(Step(s, d), e)
  {
    RunOne(s, d);
    assert [d, e][..1] == [d];
  }

  lemma StampLands(t: State, id: string)
    requires id in t.sessions && StampDue(t, id)
    ensures var u := Step(t, HaltStamp);
            && u.sessions == t.sessions[id := t.sessions[id].(stamped := true)] && u.byCredit == t.byCredit
            && !StampDue(u, id) && ClearDue(u, id) == ClearDue(t, id)
  {
  }

  lemma ClearLands(t: State, id: string)
    requires id in t.sessions && ClearDue(t, id)
    ensures var u := Step(t, WakeClear);
            && u.sessions == t.sessions[id := t.sessions[id].(stamped := false)] && u.byCredit == t.byCredit
            && !ClearDue(u, id) && StampDue(u, id) == StampDue(t, id)
  {
  }

  lemma {:induction false} StampLast(t: State, id: string) returns (es: seq<Event>)
    requires id in t.sessions && StampDue(t, id)
    requires !Attributed(t.sessions[id].(stamped := true), id in t.byCredit)
    ensures es == [HaltStamp] || es == [WakeClear, HaltStamp]
    ensures Misjudged(Run(t, es), id)
  {
    if ClearDue(t, id) {
      es := [WakeClear, HaltStamp];
      ClearLands(t, id);
      StampLands(Step(t, WakeClear), id);
      RunTwo(t, WakeClear, HaltStamp);
    } else {
      es := [HaltStamp];
      StampLands(t, id);
      RunOne(t, HaltStamp);
    }
  }

  lemma {:induction false} ClearLast(t: State, id: string) returns (es: seq<Event>)
    requires id in t.sessions && ClearDue(t, id)
    requires !Attributed(t.sessions[id].(stamped := false), id in t.byCredit)
    ensures es == [WakeClear] || es == [HaltStamp, WakeClear]
    ensures Misjudged(Run(t, es), id)
  {
    if StampDue(t, id) {
      es := [HaltStamp, WakeClear];
      StampLands(t, id);
      ClearLands(Step(t, HaltStamp), id);
      RunTwo(t, HaltStamp, WakeClear);
    } else {
      es := [WakeClear];
      ClearLands(t, id);
      RunOne(t, WakeClear);
    }
  }

  /** A step that is not orderly can end badly: let the writes that are due land, in the right order,
      and a session is left with nothing due to it and the wrong stamp. */
  lemma {:induction false} DisorderIsWrong(s: State, e: Event) returns (id: string, es: seq<Event>)
    requires Sound(s) && !Orderly(s, e)
    ensures es in {[], [HaltStamp], [WakeClear], [WakeClear, HaltStamp], [HaltStamp, WakeClear]}
    ensures Misjudged(Run(Step(s, e), es), id)
  {
    id := Target(s, e).value;
    var t := Step(s, e);
    Touches(s, e, id);
    if StampDue(t, id) && !Attributed(t.sessions[id].(stamped := true), id in t.byCredit) {
      es := StampLast(t, id);
    } else if ClearDue(t, id) && !Attributed(t.sessions[id].(stamped := false), id in t.byCredit) {
      es := ClearLast(t, id);
    } else {
      es := [];
    }
  }

  /** The resume worker up to its status write, and the halt worker up to its own. */
  function WakeToWrite(s: State, id: string, w: WakeCalls): State {
    Step(Step(Step(Step(s, WakeFind(id, w)), WakeRpc), WakeRestore), WakeWrite)
  }

  function HaltToWrite(s: State, id: string, h: HaltCalls): State {
    Step(Step(s, HaltRpc(id, h)), HaltCreate)
  }

  lemma WokenState(s: State, id: string, w: WakeCalls)
    requires s.wake.WakeFree? && id in s.sessions && Wakes(s.sessions[id], w) && w.restoreOk && w.updateOk
    ensures var t, x := WakeToWrite(s, id, w), s.sessions[id];
            && t.wake == Clearing(id, w) && t.halt == s.halt && t.byCredit == s.byCredit && id in t.sessions
            && t.sessions[id] == x.(status := Running, worker := WakeWorker(x.worker, x.saved, w).value, saved := None)
  {
  }

  lemma ParkingState(s: State, id: string, h: HaltCalls)
    requires s.halt.HaltFree? && id in s.sessions && h.rpcOk && h.createOk
    ensures HaltToWrite(s, id, h) == Put(s, id, s.sessions[id].(saved := Some(false))).(halt := Parking(id, h))
  {
  }

  lemma ParksAndStamps(s: State, id: string)
    requires s.halt.Parking? && s.halt.id == id && s.halt.c.updateOk && s.halt.c.stampOk
    requires id in s.sessions && s.sessions[id].status == Running
    ensures var t := Step(Step(s, HaltWrite), HaltStamp);
            && t.wake == s.wake && t.halt.HaltFree? && id in t.sessions && id in t.byCredit
            && t.sessions[id] == s.sessions[id].(status := Hibernated, stamped := true)
  {
  }

  /** The resume worker wakes a session; before it clears the stamp the halt worker hibernates and
      stamps the session again. Every call succeeds and no user acts, but the clear lands last: the
      session is hibernated by the halt worker and carries no stamp, so no resume will list it. */
  lemma LateClearLosesStamp(s: State, id: string, h: HaltCalls, w: WakeCalls)
    requires s.halt.HaltFree? && s.wake.WakeFree? && id in s.sessions && id in s.byCredit
    requires s.sessions[id].stamped && Wakes(s.sessions[id], w)
    requires h.rpcOk && h.createOk && h.updateOk && h.stampOk && w.restoreOk && w.updateOk && w.clearOk
    ensures var woken := WakeToWrite(s, id, w);
            && id in woken.sessions && woken.sessions[id].status == Running
            && !Orderly(HaltToWrite(woken, id, h), HaltWrite)
    ensures var t := Step(Step(Step(HaltToWrite(WakeToWrite(s, id, w), id, h), HaltWrite), HaltStamp), WakeClear);
            && t.halt.HaltFree? && t.wake.WakeFree? && Misjudged(t, id)
            && id in t.byCredit && t.sessions[id].status == Hibernated && !t.sessions[id].stamped
  {
    var woken := WakeToWrite(s, id, w);
    WokenState(s, id, w);
    ParkingState(woken, id, h);
    var parking := HaltToWrite(woken, id, h);
    ParksAndStamps(parking, id);
    ClearLands(Step(Step(parking, HaltWrite), HaltStamp), id);
  }

  /** A stamp left on a running session makes the resume worker wake a session its user hibernated. */
  lemma StaleStampWakesManual(s: State, id: string, c: WakeCalls)
    requires id in s.sessions && s.sessions[id].status == Running && s.sessions[id].stamped && s.wake.WakeFree?
    requires c.usable && s.sessions[id].worker != "" && c.rpcOk && c.updateOk
    ensures var s1 := Step(s, UserHibernate(id));
            var s2 := Step(Step(Step(Step(Step(s1, WakeFind(id, c)), WakeRpc), WakeRestore), WakeWrite), WakeClear);
            && s1.sessions[id].status == Hibernated && id !in s1.byCredit && s1.sessions[id].stamped
            && s2.sessions[id].status == Running
  {
    WakeUninterrupted(Step(s, UserHibernate(id)), id, c);
  }

  /** The clearing that fails leaves such a stamp. */
  lemma FailedClearLeavesStamp(x: Session, c: WakeCalls)
    requires x.stamped && Wakes(x, c) && c.updateOk
    ensures var y := WakeSession(x, c); y.status == Running && (y.stamped <==> !c.clearOk)
  {
  }

  // ----- A sandbox leaves its worker only after the upload -----

  /** A sandbox stays on its worker if that is usable; otherwise it goes to the least loaded one, and
      only from a recorded upload. */
  predicate Rightful(m: Move) {
    if m.from != "" && m.usable then m.to == m.from else m.uploaded && m.least == Some(m.to)
  }

  predicate MovesSafe(moves: seq<Move>) {
    forall i :: 0 <= i < |moves| ==> Rightful(moves[i])
  }

  lemma MovesStep(s: State, e: Event)
    requires MovesSafe(s.moves)
    ensures MovesSafe(Step(s, e).moves)
  {
    if e.WakeRpc? && s.wake.Found? && s.wake.id in s.sessions { WakeExact(s); }
  }

  /** In every interleaving every wake-up is rightful; so a sandbox is woken on another worker only
      from a hibernation whose upload was recorded. */
  lemma {:induction false} NoMoveBeforeUpload(s: State, es: seq<Event>)
    requires MovesSafe(s.moves)
    ensures MovesSafe(Run(s, es).moves)
    ensures var moves := Run(s, es).moves; forall i :: 0 <= i < |moves| && moves[i].to != moves[i].from ==> moves[i].uploaded
  {
    if es != [] {
      NoMoveBeforeUpload(s, es[..|es| - 1]);
      MovesStep(Run(s, es[..|es| - 1]), es[|es| - 1]);
    }
  }

  /** The wake-up under way is the last move. */
  predicate OnTheMove(s: State) {
    s.wake.Woken? || s.wake.Restored? ==> s.moves != [] && s.moves[|s.moves| - 1].to == s.wake.to
  }

  /** In every interleaving a session is recorded on the worker it was last moved to. */
  lemma {:induction false} RecordedWhereMoved(s: State, es: seq<Event>)
    requires OnTheMove(s)
    ensures var t := Run(s, es);
            && OnTheMove(t)
            && (t.wake.Restored? && t.wake.id in t.sessions && t.wake.c.updateOk && t.sessions[t.wake.id].status == Hibernated ==>
                  var x := Step(t, WakeWrite).sessions[t.wake.id];
                  x.status == Running && x.worker == t.moves[|t.moves| - 1].to)
  {
    if es != [] {
      RecordedWhereMoved(s, es[..|es| - 1]);
    }
  }

  /** The sandbox can be woken: on its own worker, or anywhere once its upload is recorded. */
  predicate CanWake(worker: string, saved: Option<bool>, c: WakeCalls) {
    (worker != "" && c.usable) || (saved == Some(true) && c.least.Some?)
  }

  /** When the call to the worker is made it wakes the sandbox exactly if it is hibernated, can be woken
      and the call succeeds; otherwise the session is left as it is. */
  lemma WakeExact(s: State)
    requires s.wake.Found? && s.wake.id in s.sessions
    ensures var x, c, t := s.sessions[s.wake.id], s.wake.c, Step(s, WakeRpc);
            && (t.wake.Woken? <==> x.status == Hibernated && c.rpcOk && CanWake(x.worker, s.wake.saved, c))
            && (t.wake.Woken? ==> |t.moves| == |s.moves| + 1 && t.moves[|s.moves|].from == x.worker && Rightful(t.moves[|s.moves|]))
            && (!t.wake.Woken? ==> t == s.(wake := WakeFree)) && t.sessions == s.sessions
  {
  }

  /** The same for a session nothing interrupts: when it wakes, and what it is afterwards. */
  lemma WakeSessionExact(x: Session, c: WakeCalls)
    ensures Wakes(x, c) <==> x.saved.Some? && x.status == Hibernated && c.rpcOk && CanWake(x.worker, x.saved, c)
    ensures !Wakes(x, c) ==> WakeSession(x, c) == x
    ensures Wakes(x, c) && c.updateOk ==>
              var y := WakeSession(x, c);
              && y.status == Running
              && (if x.worker != "" && c.usable then y.worker == x.worker else x.saved == Some(true) && Some(y.worker) == c.least)
  {
  }

  /** What users do is undone by users: hibernating and waking brings a running session back. */
  lemma UserRoundTrip(s: State, id: string)
    requires id in s.sessions && s.sessions[id].status == Running
    ensures var t := Step(s, UserHibernate(id));
            && t.sessions[id] == s.sessions[id].(status := Hibernated, saved := Some(false)) && id !in t.byCredit
            && Step(t, UserWake(id)).sessions == s.sessions[id := s.sessions[id].(saved := None)]
  {
  }

  /** An upload is recorded on the active hibernation, and only then another worker can take over. */
  lemma UploadMovesAway(s: State, id: string, c: WakeCalls)
    requires id in s.sessions && s.sessions[id].status == Hibernated && s.sessions[id].saved == Some(false)
    requires s.wake.WakeFree? && !c.usable && c.least.Some? && c.rpcOk
    ensures Step(Step(s, WakeFind(id, c)), WakeRpc) == s
    ensures var t := Step(Step(Step(s, Upload(id)), WakeFind(id, c)), WakeRpc);
            t.wake == Woken(id, c.least.value, c) && t.sessions == s.sessions[id := s.sessions[id].(saved := Some(true))]
  {
  }

  /** A halt and a resume in which every call succeeds bring a running session back to its worker. */
  lemma HaltThenWake(x: Session, h: HaltCalls, w: WakeCalls)
    requires x.status == Running && x.worker != "" && w.usable
    requires h.rpcOk && h.createOk && h.updateOk && h.stampOk && w.rpcOk && w.restoreOk && w.updateOk && w.clearOk
    ensures var y := HaltSession(x, h); y == Session(Hibernated, true, x.worker, Some(false))
    ensures WakeSession(HaltSession(x, h), w) == Session(Running, false, x.worker, None)
  {
  }

  /** If the old hibernation is not marked restored and the next one is not recorded, the session is
      hibernated with the old one, and its upload, still active: a later wake starts from that. */
  lemma OldHibernationStays(x: Session, w: WakeCalls, h: HaltCalls)
    requires Wakes(x, w) && w.updateOk && !w.restoreOk && h.rpcOk && h.updateOk && !h.createOk
    ensures var y := HaltSession(WakeSession(x, w), h); y.status == Hibernated && y.saved == x.saved
  {
  }

  // ----- Whole passes -----

  ghost function RunningSet(m: map<string, Session>): set<string> {
    set id | id in m && m[id].status == Running
  }

  ghost predicate Distinct(ids: seq<string>) {
    forall i, j :: 0 <= i < j < |ids| ==> ids[i] != ids[j]
  }

  /** What listing the running sessions returns: at most 1000 of them, and all if there are no more. */
  ghost predicate Listed(m: map<string, Session>, ids: seq<string>) {
    && Distinct(ids)
    && (forall i :: 0 <= i < |ids| ==> ids[i] in RunningSet(m))
    && |ids| == if |RunningSet(m)| < LIMIT then |RunningSet(m)| else LIMIT
  }

  /** The halt worker over its list; `calls` says how each step's calls end. */
  function HaltAll(m: map<string, Session>, ids: seq<string>, calls: map<string, HaltCalls>): map<string, Session>
    requires forall i :: 0 <= i < |ids| ==> ids[i] in calls
  {
    if ids == [] then m
    else
      var m1 := HaltAll(m, ids[..|ids| - 1], calls);
      var id := ids[|ids| - 1];
      if id in m1 then m1[id := HaltSession(m1[id], calls[id])] else m1
  }

  function WakeAll(m: map<string, Session>, ids: seq<string>, calls: map<string, WakeCalls>): map<string, Session>
    requires forall i :: 0 <= i < |ids| ==> ids[i] in calls
  {
    if ids == [] then m
    else
      var m1 := WakeAll(m, ids[..|ids| - 1], calls);
      var id := ids[|ids| - 1];
      if id in m1 then m1[id := WakeSession(m1[id], calls[id])] else m1
  }

  lemma {:induction false} HaltAllAt(m: map<string, Session>, ids: seq<string>, calls: map<string, HaltCalls>, id: string)
    requires forall i :: 0 <= i < |ids| ==> ids[i] in calls
    requires Distinct(ids)
    ensures id in HaltAll(m, ids, calls) <==> id in m
    ensures id in m ==> HaltAll(m, ids, calls)[id] == if id in ids then HaltSession(m[id], calls[id]) else m[id]
  {
    if ids != [] {
      var before, last := ids[..|ids| - 1], ids[|ids| - 1];
      HaltAllAt(m, before, calls, id);
      assert ids == before + [last];
      assert last !in before;
    }
  }

  lemma {:induction false} WakeAllAt(m: map<string, Session>, ids: seq<string>, calls: map<string, WakeCalls>, id: string)
    requires forall i :: 0 <= i < |ids| ==> ids[i] in calls
    requires Distinct(ids)
    ensures id in WakeAll(m, ids, calls) <==> id in m
    ensures id in m ==> WakeAll(m, ids, calls)[id] == if id in ids then WakeSession(m[id], calls[id]) else m[id]
  {
    if ids != [] {
      var before, last := ids[..|ids| - 1], ids[|ids| - 1];
      WakeAllAt(m, before, calls, id);
      assert ids == before + [last];
      assert last !in before;
    }
  }

  datatype Pass = Pass(ids: seq<string>, calls: map<string, HaltCalls>)

  ghost predicate CanRun(m: map<string, Session>, p: Pass) {
    Listed(m, p.ids) && forall i :: 0 <= i < |p.ids| ==> p.ids[i] in p.calls
  }

  /** Every hibernation of the pass and its status write succeed. */
  ghost predicate Succeeds(p: Pass)
    requires forall i :: 0 <= i < |p.ids| ==> p.ids[i] in p.calls
  {
    forall i :: 0 <= i < |p.ids| ==> p.calls[p.ids[i]].rpcOk && p.calls[p.ids[i]].updateOk
  }

  ghost predicate Passes(m: map<string, Session>, ps: seq<Pass>)
    decreases |ps|, 0
  {
    ps == [] || (Passes(m, ps[..|ps| - 1]) && CanRun(After(m, ps[..|ps| - 1]), ps[|ps| - 1]))
  }

  ghost function After(m: map<string, Session>, ps: seq<Pass>): map<string, Session>
    requires Passes(m, ps)
    decreases |ps|, 1
  {
    if ps == [] then m
    else HaltAll(After(m, ps[..|ps| - 1]), ps[|ps| - 1].ids, ps[|ps| - 1].calls)
  }

  ghost function Successes(m: map<string, Session>, ps: seq<Pass>): nat
    requires Passes(m, ps)
  {
    if ps == [] then 0
    else Successes(m, ps[..|ps| - 1]) + if Succeeds(ps[|ps| - 1]) then 1 else 0
  }

  lemma {:induction false} DistinctSize(ids: seq<string>)
    requires Distinct(ids)
    ensures |set id | id in ids| == |ids|
  {
    if ids != [] {
      var before, last := ids[..|ids| - 1], ids[|ids| - 1];
      DistinctSize(before);
      assert ids == before + [last];
      assert (set id | id in ids) == (set id | id in before) + {last};
      assert last !in before;
    }
  }

  /** A pass never adds to the running sessions; one that succeeds takes away all it listed. */
  lemma PassShrinks(m: map<string, Session>, p: Pass)
    requires CanRun(m, p)
    ensures var m' := HaltAll(m, p.ids, p.calls);
            && RunningSet(m') <= RunningSet(m)
            && (Succeeds(p) ==> RunningSet(m') == RunningSet(m) - (set id | id in p.ids))
  {
    var m' := HaltAll(m, p.ids, p.calls);
    forall id | id in m || id in m'
      ensures id in m' <==> id in m
      ensures id in m ==> m'[id] == if id in p.ids then HaltSession(m[id], p.calls[id]) else m[id]
    {
      HaltAllAt(m, p.ids, p.calls, id);
    }
  }

  lemma PassCount(m: map<string, Session>, p: Pass)
    requires CanRun(m, p)
    ensures var n, n' := |RunningSet(m)|, |RunningSet(HaltAll(m, p.ids, p.calls))|;
            n' <= n && (Succeeds(p) ==> n' == if n < 1000 then 0 else n - 1000)
  {
    PassShrinks(m, p);
    var gone := set id | id in p.ids;
    var running := RunningSet(m);
    SubsetSize(RunningSet(HaltAll(m, p.ids, p.calls)), running);
    DistinctSize(p.ids);
    assert gone <= running;
    SubsetSize(gone, running);
  }

  lemma {:induction false} SubsetSize(a: set<string>, b: set<string>)
    requires a <= b
    ensures |a| <= |b| && |b - a| == |b| - |a|
  {
    assert b == a + (b - a);
  }

  /** Repeated passes, whatever goes wrong in between: every pass that succeeds takes away 1000. */
  lemma {:induction false} PassesConverge(m: map<string, Session>, ps: seq<Pass>)
    requires Passes(m, ps)
    ensures |RunningSet(After(m, ps))| <= |RunningSet(m)|
    ensures var left := |RunningSet(m)| - LIMIT * Successes(m, ps);
            left <= 0 ==> RunningSet(After(m, ps)) == {}
    ensures |RunningSet(After(m, ps))| <= (var left := |RunningSet(m)| - LIMIT * Successes(m, ps); if left < 0 then 0 else left)
  {
    if ps != [] {
      PassesConverge(m, ps[..|ps| - 1]);
      PassCount(After(m, ps[..|ps| - 1]), ps[|ps| - 1]);
    }
  }

  /** The pass lists the session, and its hibernation and status write succeed. */
  predicate Parks(p: Pass, id: string) {
    id in p.ids && id in p.calls && p.calls[id].rpcOk && p.calls[id].updateOk
  }

  ghost predicate Parked(ps: seq<Pass>, id: string) {
    exists i :: 0 <= i < |ps| && Parks(ps[i], id)
  }

  lemma ParkedSnoc(ps: seq<Pass>, id: string)
    requires ps != []
    ensures Parked(ps, id) <==> Parked(ps[..|ps| - 1], id) || Parks(ps[|ps| - 1], id)
  {
    var before := ps[..|ps| - 1];
    if i :| 0 <= i < |ps| && Parks(ps[i], id) {
      assert i < |before| ==> Parks(before[i], id);
    }
    if i :| 0 <= i < |before| && Parks(before[i], id) {
      assert Parks(ps[i], id);
    }
  }

  /** What the passes leave of each session: it runs afterwards exactly if it ran before and no pass
      that listed it had both its hibernation and its status write succeed. */
  lemma {:induction false} PassesAt(m: map<string, Session>, ps: seq<Pass>, id: string)
    requires Passes(m, ps) && id in m
    ensures id in After(m, ps)
    ensures var x, y := m[id], After(m, ps)[id];
            && (x.status != Running ==> y == x)
            && (x.status == Running ==> y.status == if Parked(ps, id) then Hibernated else Running)
  {
    if ps != [] {
      PassesAt(m, ps[..|ps| - 1], id);
      var m1, p := After(m, ps[..|ps| - 1]), ps[|ps| - 1];
      HaltAllAt(m1, p.ids, p.calls, id);
      ParkedSnoc(ps, id);
      if id in p.ids {
        var i :| 0 <= i < |p.ids| && p.ids[i] == id;
        assert m1[id].status == Running;
      }
    }
  }

  /** The sessions that still run after any number of passes, whatever failed in them. */
  lemma {:induction false} RunningExactly(m: map<string, Session>, ps: seq<Pass>)
    requires Passes(m, ps)
    ensures forall id :: id in RunningSet(After(m, ps)) <==> id in RunningSet(m) && !Parked(ps, id)
  {
    forall id
      ensures id in RunningSet(After(m, ps)) <==> id in RunningSet(m) && !Parked(ps, id)
    {
      if id in After(m, ps) { PassesAdd(m, ps, id); }
      if id in m { PassesAt(m, ps, id); }
    }
  }

  lemma {:induction false} PassesAdd(m: map<string, Session>, ps: seq<Pass>, id: string)
    requires Passes(m, ps) && id in After(m, ps)
    ensures id in m
  {
    if ps != [] {
      var p := ps[|ps| - 1];
      HaltAllAt(After(m, ps[..|ps| - 1]), p.ids, p.calls, id);
      PassesAdd(m, ps[..|ps| - 1], id);
    }
  }

  // ----- Halt, then resume -----

  /** What the resume worker lists: every hibernated session with the stamp. */
  ghost predicate ListedHalted(m: map<string, Session>, ids: seq<string>) {
    && Distinct(ids)
    && forall id :: id in ids <==> id in m && m[id].status == Hibernated && m[id].stamped
  }

  ghost predicate AllWake(m: map<string, Session>, ids: seq<string>, calls: map<string, WakeCalls>) {
    forall i :: 0 <= i < |ids| ==>
      && ids[i] in calls && ids[i] in m
      && Wakes(m[ids[i]], calls[ids[i]]) && calls[ids[i]].updateOk && calls[ids[i]].clearOk
  }

  /** A resume that succeeds wakes the stamped hibernations and nothing else. */
  lemma ResumeWakesStamped(m: map<string, Session>, ids: seq<string>, calls: map<string, WakeCalls>)
    requires ListedHalted(m, ids) && AllWake(m, ids, calls)
    ensures var m' := WakeAll(m, ids, calls);
            && (forall id :: id in RunningSet(m') <==>
                  id in RunningSet(m) || (id in m && m[id].status == Hibernated && m[id].stamped))
            && (forall id :: id in m && m[id].status == Hibernated && !m[id].stamped ==> id in m' && m'[id] == m[id])
            && (forall id :: id in ids ==> id in m' && !m'[id].stamped)
  {
    var m' := WakeAll(m, ids, calls);
    forall id
      ensures id in m' <==> id in m
      ensures id in m ==> m'[id] == if id in ids then WakeSession(m[id], calls[id]) else m[id]
    {
      WakeAllAt(m, ids, calls, id);
    }
    forall id | id in ids
      ensures id in m && m'[id].status == Running && !m'[id].stamped
    {
      var i :| 0 <= i < |ids| && ids[i] == id;
    }
  }

  /** Halting until nothing runs and then resuming restores the running set if and only if no
      session hibernated before carried the stamp and every session that ran carries it after. */
  lemma {:induction false} HaltThenResume(m: map<string, Session>, ps: seq<Pass>, ids: seq<string>, calls: map<string, WakeCalls>)
    requires Passes(m, ps) && RunningSet(After(m, ps)) == {}
    requires ListedHalted(After(m, ps), ids) && AllWake(After(m, ps), ids, calls)
    ensures (forall id :: id in RunningSet(m) ==> id in After(m, ps))
    ensures RunningSet(WakeAll(After(m, ps), ids, calls)) == RunningSet(m)
       <==> && (forall id :: id in m && m[id].status == Hibernated ==> !m[id].stamped)
            && (forall id :: id in RunningSet(m) ==> After(m, ps)[id].stamped)
  {
    var m1 := After(m, ps);
    var m2 := WakeAll(m1, ids, calls);
    ResumeWakesStamped(m1, ids, calls);
    forall id | id in m || id in m1
      ensures id in m && id in m1
      ensures m[id].status != Running ==> m1[id] == m[id]
      ensures m[id].status == Running ==> m1[id].status == Hibernated
    {
      if id in m1 { PassesAdd(m, ps, id); }
      PassesAt(m, ps, id);
      assert id !in RunningSet(m1);
    }
    forall id
      ensures id in RunningSet(m2) <==> id in m && m[id].status != Stopped && m1[id].stamped
    {
    }
  }

  ghost predicate AllStamped(p: Pass)
    requires forall i :: 0 <= i < |p.ids| ==> p.ids[i] in p.calls
  {
    forall i :: 0 <= i < |p.ids| ==> p.calls[p.ids[i]].rpcOk && p.calls[p.ids[i]].updateOk ==> p.calls[p.ids[i]].stampOk
  }

  ghost predicate StampsLand(m: map<string, Session>, ps: seq<Pass>)
    requires Passes(m, ps)
  {
    ps == [] || (StampsLand(m, ps[..|ps| - 1]) && AllStamped(ps[|ps| - 1]))
  }

  /** If every hibernation is followed by its stamp, the second condition holds. */
  lemma {:induction false} StampsLandAt(m: map<string, Session>, ps: seq<Pass>, id: string)
    requires Passes(m, ps) && StampsLand(m, ps) && id in RunningSet(m)
    ensures id in After(m, ps) && (After(m, ps)[id].status == Hibernated ==> After(m, ps)[id].stamped)
  {
    if ps != [] {
      StampsLandAt(m, ps[..|ps| - 1], id);
      var m1, p := After(m, ps[..|ps| - 1]), ps[|ps| - 1];
      PassesAt(m, ps[..|ps| - 1], id);
      HaltAllAt(m1, p.ids, p.calls, id);
      if id in p.ids {
        var i :| 0 <= i < |p.ids| && p.ids[i] == id;
        assert m1[id].status == Running;
      }
    }
  }
}
