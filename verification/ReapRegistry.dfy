/** The registry, the reaper's drain loop and the return path of a call, as code
    (internal/agent/reap_registry.go, cmd/agent/reaper_linux.go, internal/agent/exec.go).
    Each operation extends the agent's run of the machine in `ReapMachine`. */
module ReapRegistry {
  import opened ReapMachine

  /** `s` is reached from the start by `trace`. */
  ghost predicate Reached(trace: seq<Event>, s: Sys) {
    Runs(INITIAL, trace) && Run(INITIAL, trace) == s
  }

  lemma Extend(trace: seq<Event>, s: Sys, e: Event)
    requires Reached(trace, s) && Enabled(s, e) && PidSafe(s, e)
    ensures Reached(trace + [e], Step(s, e))
  {
    OneStep(s, e);
    RunConcat(INITIAL, trace, [e]);
  }

  /** A registered call that has not returned and whose child has been collected by someone else. */
  predicate AwaitsCollected(s: Sys, c: nat) {
    (At(s, c, Registered) || At(s, c, SawEchild) || At(s, c, Receiving)) && s.calls[c].pid in s.procs && s.procs[s.calls[c].pid].life.Collected?
  }

  lemma CollectedIsDelivered(trace: seq<Event>, s: Sys, c: nat)
    requires Reached(trace, s) && s.reaper == Watching && AwaitsCollected(s, c) && c !in s.missed
    ensures Delivered(s, c)
  {
    InvRun(INITIAL, trace);
    assert CallOkAt(s, c);
  }

  /** The channel of a registered call whose status the reaper holds has had no send. */
  lemma ChannelIsEmpty(trace: seq<Event>, s: Sys)
    requires Reached(trace, s) && s.reaper.Holding? && s.reaper.pid in s.registry
    ensures var c := s.registry[s.reaper.pid]; c in s.chans && s.chans[c] == Chan([], 0, false)
  {
    InvRun(INITIAL, trace);
    assert CallOkAt(s, s.registry[s.reaper.pid]);
  }

  class Agent {
    var procs: map<nat, Proc>
    var registry: map<nat, nat>
    var chans: map<nat, Chan>
    var reapedTotal: nat
    /** the machine state that these fields are part of, and the run that led to it */
    ghost var sys: Sys
    ghost var trace: seq<Event>

    ghost predicate Valid()
      reads this
    {
      && sys.procs == procs && sys.registry == registry && sys.chans == chans && sys.orphans == reapedTotal
      && Reached(trace, sys)
    }

    method RegisterReap(c: nat, pid: nat)
      requires Valid() && At(sys, c, Started) && sys.calls[c].pid == pid
      modifies `registry, `chans, `sys, `trace
      ensures Valid() && trace == old(trace) + [Register(c)] && sys == Step(old(sys), Register(c))
    {
      Extend(trace, sys, Register(c));
      chans := chans[c := Chan([], 0, false)];
      registry := registry[pid := c];
      sys, trace := Step(sys, Register(c)), trace + [Register(c)];
    }

    /** `TryDeliverReap`: takes the entry out, sends and closes; the send finds the slot empty. */
    method TryDeliverReap(pid: nat, ws: WaitStatus) returns (delivered: bool)
      requires Valid() && sys.reaper.Holding? && sys.reaper.pid == pid && sys.reaper.ws == ws
      modifies `registry, `chans, `reapedTotal, `sys, `trace
      ensures Valid() && sys.reaper == Watching && procs == old(procs)
      ensures delivered == (pid in old(registry)) && registry == old(registry) - {pid}
      ensures chans == if delivered then old(chans)[old(registry)[pid] := Chan([ws], 1, true)] else old(chans)
      ensures reapedTotal == if delivered then old(reapedTotal) else old(reapedTotal) + 1
      ensures trace == old(trace) + if delivered then [Deliver] + [Send] + [Close] else [Deliver]
    {
      ghost var s0 := sys;
      Extend(trace, sys, Deliver);
      delivered := pid in registry;
      if delivered {
        ChannelIsEmpty(trace, sys);
        var c := registry[pid];
        registry := registry - {pid};
        sys, trace := Step(sys, Deliver), trace + [Deliver];
        SendAndClose(c, ws);
        assert trace == old(trace) + ([Deliver] + [Send] + [Close]);
      } else {
        reapedTotal := reapedTotal + 1;
        sys, trace := Step(sys, Deliver), trace + [Deliver];
      }
    }

    /** `ch <- ws; close(ch)`. */
    method SendAndClose(c: nat, ws: WaitStatus)
      requires Valid() && sys.reaper == Sending(c, ws) && c in chans && chans[c] == Chan([], 0, false)
      modifies `chans, `sys, `trace
      ensures Valid() && sys.reaper == Watching && trace == old(trace) + [Send] + [Close]
      ensures chans == old(chans)[c := Chan([ws], 1, true)]
    {
      Put(c, ws);
      Extend(trace, sys, Close);
      chans := chans[c := chans[c].(closed := true)];
      sys, trace := Step(sys, Close), trace + [Close];
    }

    /** `ch <- ws`. */
    method Put(c: nat, ws: WaitStatus)
      requires Valid() && sys.reaper == Sending(c, ws) && c in chans && chans[c] == Chan([], 0, false)
      modifies `chans, `sys, `trace
      ensures Valid() && sys.reaper == Closing(c) && trace == old(trace) + [Send]
      ensures chans == old(chans)[c := Chan([ws], 1, false)]
    {
      assert [] + [ws] == [ws];
      Extend(trace, sys, Send);
      chans := chans[c := chans[c].(buf := chans[c].buf + [ws], sends := chans[c].sends + 1)];
      sys, trace := Step(sys, Send), trace + [Send];
    }

    /** One iteration of the drain: wait4 and the hand-over. */
    method ReapOne(pid: nat)
      requires Valid() && sys.reaper == Watching && pid in procs && procs[pid].life.Zombie?
      modifies this
      ensures Valid() && sys.reaper == Watching && old(trace) < trace
      ensures forall i :: |old(trace)| <= i < |trace| ==> ByReaper(trace[i])
      ensures procs == old(procs)[pid := old(procs)[pid].(life := Collected)]
    {
      var ws := procs[pid].life.ws;
      Extend(trace, sys, Reap(pid));
      procs := procs[pid := procs[pid].(life := Collected)];
      sys, trace := Step(sys, Reap(pid)), trace + [Reap(pid)];
      var delivered := TryDeliverReap(pid, ws);
    }

    /** `drainZombies`: collects every zombie there is; afterwards every registered call whose
        child was collected, and that was not missed, has its status waiting in its channel. */
    method DrainZombies()
      requires Valid() && sys.reaper == Watching
      modifies this
      ensures Valid() && sys.reaper == Watching && old(trace) <= trace
      ensures forall i :: |old(trace)| <= i < |trace| ==> ByReaper(trace[i])
      ensures procs.Keys == old(procs).Keys && forall pid <- procs :: !procs[pid].life.Zombie?
      ensures forall c <- sys.calls :: AwaitsCollected(sys, c) && c !in sys.missed ==> Delivered(sys, c)
    {
      var zombies := set pid | pid in procs && procs[pid].life.Zombie?;
      while zombies != {}
        invariant Valid() && sys.reaper == Watching && old(trace) <= trace
        invariant forall i :: |old(trace)| <= i < |trace| ==> ByReaper(trace[i])
        invariant procs.Keys == old(procs).Keys
        invariant zombies == set pid | pid in procs && procs[pid].life.Zombie?
        decreases zombies
      {
        var pid :| pid in zombies;
        ReapOne(pid);
        zombies := zombies - {pid};
      }
      forall pid <- procs ensures !procs[pid].life.Zombie? {
        assert pid !in zombies;
      }
      forall c <- sys.calls | AwaitsCollected(sys, c) && c !in sys.missed ensures Delivered(sys, c) {
        CollectedIsDelivered(trace, sys, c);
      }
    }

    /** The end of a call, after `cmd.Wait` returned `waited`: the exit code is the child's own. Only a
        one-shot exec can time out, and not once it receives. */
    method Return(c: nat, pid: nat, kind: Kind, waited: Pc, timedOut: bool) returns (outcome: Outcome)
      requires Valid() && c in sys.calls && sys.calls[c] == Call(pid, kind, waited)
      requires waited.Waited? || waited.WaitFailed? || (waited.SawEchild? && (timedOut || Delivered(sys, c)))
      requires timedOut ==> kind == OneShot
      modifies `registry, `chans, `sys, `trace
      ensures Valid() && At(sys, c, Done(outcome)) && (pid in registry ==> registry[pid] != c)
      ensures outcome.Code? ==> c in sys.truth && Tells(outcome, sys.truth[c])
      ensures outcome.Failed? <==> waited.WaitFailed? && !timedOut && kind == OneShot
      ensures outcome.NoStatus? <==> waited == WaitFailed(None) && kind == Session
      ensures outcome.TimedOut? <==> timedOut
    {
      if timedOut || !waited.SawEchild? {
        ghost var e := if timedOut then Timeout(c) else Finish(c);
        Extend(trace, sys, e);
        ReturnReports(trace + [e], Step(sys, e), c);
        registry := registry - {pid};
        outcome := if timedOut then TimedOut else Concluded(Call(pid, kind, waited));
        sys, trace := Step(sys, e), trace + [e];
      } else {
        Extend(trace, sys, Select(c));
        sys, trace := Step(sys, Select(c)), trace + [Select(c)];
        outcome := ReceiveStatus(c);
      }
    }

    /** `ws := <-exitCh`. */
    method ReceiveStatus(c: nat) returns (outcome: Outcome)
      requires Valid() && At(sys, c, Receiving) && Delivered(sys, c)
      modifies `chans, `sys, `trace
      ensures Valid() && At(sys, c, Done(outcome)) && sys.calls[c].pid == old(sys.calls[c].pid)
      ensures outcome.Code? && c in sys.truth && Tells(outcome, sys.truth[c])
      ensures chans == old(chans)[c := old(chans)[c].(buf := old(chans)[c].buf[1..])]
      ensures sys.calls[c].pid in registry ==> registry[sys.calls[c].pid] != c
    {
      Extend(trace, sys, Receive(c));
      ReturnReports(trace + [Receive(c)], Step(sys, Receive(c)), c);
      outcome := Code(ExitStatus(chans[c].buf[0]));
      chans := chans[c := chans[c].(buf := chans[c].buf[1..])];
      sys, trace := Step(sys, Receive(c)), trace + [Receive(c)];
    }
  }

  predicate ByReaper(e: Event) {
    e.Reap? || e.Deliver? || e.Send? || e.Close?
  }

  lemma ReturnReports(trace: seq<Event>, s: Sys, c: nat)
    requires Reached(trace, s) && c in s.calls && s.calls[c].pc.Done?
    ensures s.calls[c].pc.outcome.Code? ==> c in s.truth && Tells(s.calls[c].pc.outcome, s.truth[c])
    ensures s.calls[c].pid in s.registry ==> s.registry[s.calls[c].pid] != c
  {
    InvRun(INITIAL, trace);
    assert CallOkAt(s, c);
  }
}
