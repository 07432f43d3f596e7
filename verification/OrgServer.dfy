/** The halt and resume endpoints and their background workers (internal/api/admin_org.go). */
module OrgServer {
  import opened OrgHalt

  /** The two in-flight tables, one entry per organisation with a worker under way. `halting` and
      `resuming` count the workers that exist. */
  class Slots {
    var haltBusy: set<string>
    var resumeBusy: set<string>
    ghost var halting: multiset<string>
    ghost var resuming: multiset<string>

    /** At most one halt worker and one resume worker per organisation at any time. */
    ghost predicate Valid()
      reads this
    {
      && (forall org :: halting[org] == if org in haltBusy then 1 else 0)
      && (forall org :: resuming[org] == if org in resumeBusy then 1 else 0)
    }

    constructor ()
      ensures Valid() && haltBusy == {} && resumeBusy == {}
    {
      haltBusy, resumeBusy := {}, {};
      halting, resuming := multiset{}, multiset{};
    }

    method AcquireHalt(org: string) returns (ok: bool)
      requires Valid()
      modifies this
      ensures ok <==> org !in old(haltBusy)
      ensures haltBusy == old(haltBusy) + {org} && unchanged(`resumeBusy) && unchanged(`resuming)
      ensures unchanged(`halting)
      ensures !ok ==> Valid()
    {
      if org in haltBusy { return false; }
      haltBusy := haltBusy + {org};
      return true;
    }

    method ReleaseHalt(org: string)
      modifies this`haltBusy
      ensures haltBusy == old(haltBusy) - {org}
    {
      haltBusy := haltBusy - {org};
    }

    /** A halt request: a worker is started exactly if there is something to halt and none is under
        way for the organisation. */
    method HaltOrg(org: string, ids: seq<string>) returns (count: nat, started: bool)
      requires Valid()
      modifies this
      ensures Valid() && count == |ids|
      ensures started <==> ids != [] && old(halting)[org] == 0
      ensures halting == if started then old(halting) + multiset{org} else old(halting)
      ensures resuming == old(resuming)
    {
      count := |ids|;
      if |ids| == 0 { return 0, false; }
      started := AcquireHalt(org);
      if started {
        halting := halting + multiset{org};
      }
    }

    /** The end of a halt worker, however it ends. */
    method HaltWorkerDone(org: string)
      requires Valid() && org in halting
      modifies this
      ensures Valid() && halting == old(halting) - multiset{org} && halting[org] == 0
      ensures resuming == old(resuming)
    {
      ReleaseHalt(org);
      halting := halting - multiset{org};
    }

    method AcquireResume(org: string) returns (ok: bool)
      requires Valid()
      modifies this
      ensures ok <==> org !in old(resumeBusy)
      ensures resumeBusy == old(resumeBusy) + {org} && unchanged(`haltBusy) && unchanged(`halting)
      ensures unchanged(`resuming)
      ensures !ok ==> Valid()
    {
      if org in resumeBusy { return false; }
      resumeBusy := resumeBusy + {org};
      return true;
    }

    method ReleaseResume(org: string)
      modifies this`resumeBusy
      ensures resumeBusy == old(resumeBusy) - {org}
    {
      resumeBusy := resumeBusy - {org};
    }

    method ResumeOrg(org: string, skipResume: bool, ids: seq<string>) returns (count: nat, started: bool)
      requires Valid()
      modifies this
      ensures Valid() && count == if skipResume then 0 else |ids|
      ensures started <==> !skipResume && ids != [] && old(resuming)[org] == 0
      ensures resuming == if started then old(resuming) + multiset{org} else old(resuming)
      ensures halting == old(halting)
    {
      if skipResume { return 0, false; }
      count := |ids|;
      if |ids| == 0 { return 0, false; }
      started := AcquireResume(org);
      if started {
        resuming := resuming + multiset{org};
      }
    }

    method ResumeWorkerDone(org: string)
      requires Valid() && org in resuming
      modifies this
      ensures Valid() && resuming == old(resuming) - multiset{org} && resuming[org] == 0
      ensures halting == old(halting)
    {
      ReleaseResume(org);
      resuming := resuming - multiset{org};
    }
  }

  /** The session table and the workers' loops over it. */
  class Sessions {
    var table: map<string, Session>

    method SetHaltReason(id: string, stamped: bool, ok: bool)
      modifies this
      ensures table == if ok && id in old(table) then old(table)[id := old(table)[id].(stamped := stamped)] else old(table)
    {
      if ok && id in table {
        table := table[id := table[id].(stamped := stamped)];
      }
    }

    /** Hibernates one sandbox; `true` when the RPC succeeds, whatever becomes of the writes. */
    method HibernateForHalt(id: string, c: HaltCalls) returns (ok: bool)
      requires id in table
      modifies this
      ensures ok == c.rpcOk
      ensures table == old(table)[id := HaltSession(old(table)[id], c.(stampOk := false))]
    {
      if !c.rpcOk {
        assert table == table[id := table[id]];
        return false;
      }
      if c.createOk {
        table := table[id := table[id].(saved := Some(false))];
      }
      if c.updateOk && table[id].status == Running {
        table := table[id := table[id].(status := Hibernated)];
      }
      return true;
    }

    method HaltWorker(ids: seq<string>, calls: map<string, HaltCalls>)
      requires forall i :: 0 <= i < |ids| ==> ids[i] in calls && ids[i] in table
      modifies this
      ensures table == HaltAll(old(table), ids, calls)
    {
      var i := 0;
      while i < |ids|
        invariant 0 <= i <= |ids|
        invariant table == HaltAll(old(table), ids[..i], calls)
        invariant forall j :: 0 <= j < |ids| ==> ids[j] in table
      {
        ghost var before := table;
        var id := ids[i];
        var ok := HibernateForHalt(id, calls[id]);
        if ok {
          SetHaltReason(id, true, calls[id].stampOk);
        }
        assert table == before[id := HaltSession(before[id], calls[id])];
        assert ids[..i + 1][..i] == ids[..i];
        i := i + 1;
      }
      assert ids[..i] == ids;
    }

    /** Wakes one sandbox; `false` leaves everything as it was. */
    method WakeForResume(id: string, c: WakeCalls) returns (ok: bool)
      requires id in table
      modifies this
      ensures ok == Wakes(old(table)[id], c)
      ensures table == old(table)[id := WakeSession(old(table)[id], c.(clearOk := false))]
      ensures ok && c.updateOk ==>
                var x, y := old(table)[id], table[id];
                y.status == Running && if x.worker != "" && c.usable then y.worker == x.worker else Some(y.worker) == c.least
    {
      assert table == table[id := table[id]];
      var x := table[id];
      if x.saved.None? { return false; }
      if x.status != Hibernated { return false; }
      var worker: Option<string> := None;
      if x.worker != "" && c.usable {
        worker := Some(x.worker);
      }
      if worker.None? {
        if x.saved != Some(true) { return false; }
        worker := c.least;
        if worker.None? { return false; }
      }
      if !c.rpcOk { return false; }
      if c.restoreOk {
        table := table[id := table[id].(saved := None)];
      }
      if c.updateOk {
        table := table[id := table[id].(status := Running, worker := worker.value)];
      }
      return true;
    }

    method ResumeWorker(ids: seq<string>, calls: map<string, WakeCalls>)
      requires forall i :: 0 <= i < |ids| ==> ids[i] in calls && ids[i] in table
      modifies this
      ensures table == WakeAll(old(table), ids, calls)
    {
      var i := 0;
      while i < |ids|
        invariant 0 <= i <= |ids|
        invariant table == WakeAll(old(table), ids[..i], calls)
        invariant forall j :: 0 <= j < |ids| ==> ids[j] in table
      {
        ghost var before := table;
        var id := ids[i];
        var ok := WakeForResume(id, calls[id]);
        if ok {
          SetHaltReason(id, false, calls[id].clearOk);
        }
        assert table == before[id := WakeSession(before[id], calls[id])];
        assert ids[..i + 1][..i] == ids[..i];
        i := i + 1;
      }
      assert ids[..i] == ids;
    }
  }
}
