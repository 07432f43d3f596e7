/** Whole runs of the sync in which source writes fall between ticks and nothing fails within one:
    D1 agrees with the source after every tick, restarts from any saved state included. */
module SyncRuns {
  import opened TableSync
  import opened SyncMachine

  /** Which table the tick is reading, and which it has copied completely. */
  datatype Progress = Progress(reading: Option<string>, read: set<string>)

  function Next(p: Progress, e: Event): Progress {
    match e
    case Begin => Progress(None, {})
    case Query(t) => p.(reading := Some(t))
    case Copy(_, ok, _) => Progress(None, if ok && p.reading.Some? then p.read + {p.reading.value} else p.read)
    case _ => p
  }

  /** Writes fall between ticks; every copy succeeds; the drain starts when all tables of the source
      have been copied and executes every outbox row. */
  ghost predicate Tidy(p: Progress, s: Sys, e: Event) {
    match e
    case Put(_, _, _) => s.phase == Idle
    case Remove(_, _) => s.phase == Idle
    case Copy(_, ok, _) => ok
    case Drain(m, _) => (forall k <- s.pg :: k.table in p.read) && forall q <- s.outbox :: q <= m
    case _ => true
  }

  ghost predicate TidyRun(img: Image, p: Progress, s: Sys, es: seq<Event>)
    decreases |es|
  {
    es == [] || (Tidy(p, s, es[0]) && TidyRun(img, Next(p, es[0]), Step(img, s, es[0]), es[1..]))
  }

  /** D1 agrees with the source whenever a tick of the run commits. */
  ghost predicate CommitsAgree(img: Image, s: Sys, es: seq<Event>)
    decreases |es|
  {
    es == [] || ((es[0].Commit? ==> Agree(img, Step(img, s, es[0]))) && CommitsAgree(img, Step(img, s, es[0]), es[1..]))
  }

  // ----- What a tidy tick has done so far -----

  ghost predicate Brought(s: Sys, k: RowKey)
    requires k in s.pg
  {
    s.pg[k].updatedAt > s.st.watermark ==> k in s.copied && s.copied[k] == s.pg[k]
  }

  ghost predicate OnTrack(p: Progress, s: Sys) {
    match s.phase
    case Idle => true
    case Tables =>
      && s.snap == (if p.reading.Some? then Delta(s.pg, p.reading.value, s.st.watermark) else map[])
      && forall k <- s.pg :: k.table in p.read ==> Brought(s, k)
    case Drained =>
      && (forall k <- s.pg :: Brought(s, k))
      && forall q <- s.outbox :: q <= s.maxSeq
  }

  lemma CopyOnTrack(img: Image, p: Progress, s: Sys, e: Event)
    requires OnTrack(p, s) && Enabled(img, s, e) && Tidy(p, s, e) && e.Copy?
    ensures OnTrack(Next(p, e), Step(img, s, e))
  {
    var s' := Step(img, s, e);
    forall k <- s'.pg | k.table in Next(p, e).read
      ensures Brought(s', k)
    {
      assert k.table in p.read ==> Brought(s, k);
    }
  }

  lemma DrainOnTrack(img: Image, p: Progress, s: Sys, e: Event)
    requires OnTrack(p, s) && Enabled(img, s, e) && Tidy(p, s, e) && e.Drain?
    ensures OnTrack(Next(p, e), Step(img, s, e))
  {
    var s' := Step(img, s, e);
    forall k <- s'.pg
      ensures Brought(s', k)
    {
      assert Brought(s, k);
    }
  }

  lemma OnTrackStep(img: Image, p: Progress, s: Sys, e: Event)
    requires OnTrack(p, s) && Enabled(img, s, e) && Tidy(p, s, e)
    ensures OnTrack(Next(p, e), Step(img, s, e))
  {
    match e
    case Copy(_, _, _) => CopyOnTrack(img, p, s, e);
    case Drain(_, _) => DrainOnTrack(img, p, s, e);
    case Put(_, _, _) => IdleOnTrack(img, p, s, e);
    case Remove(_, _) => IdleOnTrack(img, p, s, e);
    case Begin =>
    case Query(_) =>
    case Commit(_) => IdleOnTrack(img, p, s, e);
    case Prune => IdleOnTrack(img, p, s, e);
    case Restart(_) => IdleOnTrack(img, p, s, e);
  }

  /** These steps leave the daemon between ticks. */
  lemma IdleOnTrack(img: Image, p: Progress, s: Sys, e: Event)
    requires Enabled(img, s, e) && Tidy(p, s, e) && (e.Put? || e.Remove? || e.Commit? || e.Prune? || e.Restart?)
    ensures OnTrack(Next(p, e), Step(img, s, e))
  {
    assert Step(img, s, e).phase == Idle;
  }

  /** At the end of a tidy tick no row is missed, and D1 agrees with the source. */
  lemma DrainedAgrees(img: Image, p: Progress, s: Sys)
    requires Inv(img, s) && OnTrack(p, s) && s.phase == Drained
    ensures NoneMissed(img, s) && Agree(img, s)
  {
    assert s.st in Cursors(s);
    forall k <- s.pg
      ensures Same(img, s, k)
    {
      assert Brought(s, k);
      assert Covered(img, s, s.st.watermark);
    }
    forall k <- s.d1
      ensures k in s.pg
    {
      assert k in s.pg || Awaiting(s, k);
    }
  }

  lemma AgreeStays(img: Image, s: Sys, s': Sys)
    requires Agree(img, s) && s'.pg == s.pg && s'.d1 == s.d1
    ensures Agree(img, s')
  {
    forall k <- s'.pg
      ensures Same(img, s', k)
    {
      assert Same(img, s, k);
    }
  }

  lemma CommitMovesCursor(img: Image, s: Sys, persisted: bool)
    ensures Step(img, s, Commit(persisted)).pg == s.pg && Step(img, s, Commit(persisted)).d1 == s.d1
  {
    var c := Cursor(s.maxWm, s.maxSeq);
    if s.maxWm > s.st.watermark || s.maxSeq > s.st.deleteSeq {
      assert Step(img, s, Commit(persisted)) == s.(st := c, saved := if persisted then s.saved + {c} else s.saved, phase := Idle);
    } else {
      assert Step(img, s, Commit(persisted)) == s.(phase := Idle);
    }
  }

  /** Tidy runs are strict, and each of their ticks ends in agreement. */
  lemma {:induction false} TidyIsStrict(img: Image, p: Progress, s: Sys, es: seq<Event>)
    requires Inv(img, s) && OnTrack(p, s) && Allowed(InStep, img, s, es) && TidyRun(img, p, s, es)
    ensures Allowed(Strict, img, s, es) && CommitsAgree(img, s, es)
    decreases |es|
  {
    if es != [] {
      var e := es[0];
      if e.Commit? {
        DrainedAgrees(img, p, s);
        CommitMovesCursor(img, s, e.persisted);
        AgreeStays(img, s, Step(img, s, e));
      }
      InvStep(img, s, e);
      OnTrackStep(img, p, s, e);
      TidyIsStrict(img, Next(p, e), Step(img, s, e), es[1..]);
    }
  }

  /** From a first start: if source writes fall between ticks with increasing `updated_at`, keys are
      not reused while their deletion is pending, and every copy and drain succeeds, then D1 agrees
      with the source after every tick, whatever saves are lost and wherever the daemon restarts. */
  lemma {:induction false} EveryTickAgrees(img: Image, s: Sys, es: seq<Event>)
    requires Init(img, s) && Allowed(InStep, img, s, es) && TidyRun(img, Progress(None, {}), s, es)
    ensures Allowed(Strict, img, s, es) && CommitsAgree(img, s, es)
  {
    InitInv(img, s);
    TidyIsStrict(img, Progress(None, {}), s, es);
  }
}
