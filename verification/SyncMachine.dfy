/** The PostgreSQL to D1 sync as a machine whose steps interleave freely: writes to the
    source, the parts of a daemon tick (cmd/backfill/forward.go), failures, lost saves of
    the state file, and restarts.

    Rows are copied by a watermark that all tables share; deletions are drained from an
    outbox by a sequence-number cursor. */
module SyncMachine {
  import opened TableSync

  datatype Option<T> = None | Some(value: T)

  type Cols = seq<string>
  datatype Row = Row(updatedAt: int, cols: Cols)

  /** The D1 image of a source row; `None` for a row that the assemble function skips. */
  type Image = (RowKey, Cols) -> Option<D1Row>

  /** What the daemon persists: the watermark and the delete cursor. */
  datatype Cursor = Cursor(watermark: int, deleteSeq: nat)

  datatype Phase = Idle | Tables | Drained

  datatype Sys = Sys(
    // the source: rows, the last `updated_at` given out, and the visible outbox rows
    pg: map<RowKey, Row>, clock: int, outbox: map<nat, RowKey>,
    d1: D1,
    // the daemon: its cursor, every cursor it ever persisted, and the current tick
    st: Cursor, saved: set<Cursor>,
    phase: Phase, maxWm: int, maxSeq: nat,
    snap: map<RowKey, Row>,    // rows read by the table query in progress
    copied: map<RowKey, Row>,   // row versions copied in this tick
    // history: every deletion that ever became visible, and those executed on D1
    issued: map<nat, RowKey>, applied: set<nat>)

  datatype Event =
    | Put(k: RowKey, cols: Cols, at: int)          // a source insert or update
    | Remove(k: RowKey, q: nat)                     // a source delete; outbox row q becomes visible
    | Begin
    | Query(table: string)
    | Copy(keys: set<RowKey>, ok: bool, wm: int)   // upsert of the rows read, complete if ok
    | Drain(upTo: nat, tried: set<nat>)             // deletes executed in order, up to a row; those
                                                    // tried were reported as failed but ran
    | Commit(persisted: bool)
    | Prune
    | Restart(from: Cursor)

  // ----- Steps -----

  function Delta(pg: map<RowKey, Row>, table: string, since: int): map<RowKey, Row> {
    map k | k in pg && k.table == table && pg[k].updatedAt > since :: pg[k]
  }

  function Images(img: Image, rows: map<RowKey, Row>, keys: set<RowKey>): D1 {
    map k | k in rows && k in keys && img(k, rows[k].cols).Some? :: img(k, rows[k].cols).value
  }

  function Restrict(rows: map<RowKey, Row>, keys: set<RowKey>): map<RowKey, Row> {
    map k | k in rows && k in keys :: rows[k]
  }

  /** The deletions that a drain executes. */
  function Executed(s: Sys, m: nat, tried: set<nat>): map<nat, RowKey> {
    map q | q in s.outbox && (s.st.deleteSeq < q <= m || q in tried) :: s.outbox[q]
  }

  function Max(a: int, b: int): int { if b > a then b else a }

  function Step(img: Image, s: Sys, e: Event): Sys {
    match e
    case Put(k, cols, at) => s.(pg := s.pg[k := Row(at, cols)], clock := at)
    case Remove(k, q) => s.(pg := s.pg - {k}, outbox := s.outbox[q := k], issued := s.issued[q := k])
    case Begin =>
      s.(phase := Tables, maxWm := s.st.watermark, maxSeq := s.st.deleteSeq, snap := map[], copied := map[])
    case Query(t) => s.(snap := Delta(s.pg, t, s.st.watermark))
    case Copy(keys, ok, wm) =>
      s.(d1 := s.d1 + Images(img, s.snap, keys), copied := s.copied + Restrict(s.snap, keys),
         maxWm := if ok then Max(s.maxWm, wm) else s.maxWm, snap := map[])
    case Drain(m, tried) =>
      var done := Executed(s, m, tried);
      s.(d1 := s.d1 - done.Values, applied := s.applied + done.Keys, maxSeq := m, phase := Drained)
    case Commit(persisted) =>
      if s.maxWm > s.st.watermark || s.maxSeq > s.st.deleteSeq then
        var c := Cursor(s.maxWm, s.maxSeq);
        s.(st := c, saved := if persisted then s.saved + {c} else s.saved, phase := Idle)
      else s.(phase := Idle)
    case Prune => if s.st.deleteSeq == 0 then s else s.(outbox := map q | q in s.outbox && q > s.st.deleteSeq :: s.outbox[q])
    case Restart(c) => s.(st := c, phase := Idle, snap := map[], copied := map[])
  }

  /** What the query and the loop of the copy make of the watermark of the rows read. */
  ghost predicate IsMaxWm(img: Image, rows: map<RowKey, Row>, wm: int) {
    && wm >= 0
    && (forall k <- rows :: img(k, rows[k].cols).Some? ==> rows[k].updatedAt <= wm)
    && (wm == 0 || exists k <- rows :: rows[k].updatedAt == wm)
  }

  /** The steps the daemon, the databases and the state file can take. */
  ghost predicate Enabled(img: Image, s: Sys, e: Event) {
    match e
    case Put(_, _, _) => true
    case Remove(k, q) => k in s.pg && q !in s.issued
    case Begin => s.phase == Idle
    case Query(_) => s.phase == Tables && s.snap == map[]
    case Copy(keys, ok, wm) =>
      s.phase == Tables && keys <= s.snap.Keys && (ok ==> keys == s.snap.Keys && IsMaxWm(img, s.snap, wm))
    case Drain(m, _) => s.phase == Tables && s.snap == map[] && (m == s.st.deleteSeq || (m in s.outbox && m > s.st.deleteSeq))
    case Commit(_) => s.phase == Drained
    case Prune => s.phase == Idle
    case Restart(c) => c in s.saved
  }

  // ----- What the environment must respect -----

  function Cursors(s: Sys): set<Cursor> { s.saved + {s.st} }

  /** A deletion becomes visible with a sequence number beyond every cursor. */
  ghost predicate InSeqOrder(s: Sys, e: Event) {
    e.Remove? ==> e.q > s.maxSeq && forall c <- Cursors(s) :: e.q > c.deleteSeq
  }

  /** No row that the new watermark passes was missed by this tick: its table sync succeeded
      and it was not written after its table was read. */
  ghost predicate NoneMissed(img: Image, s: Sys) {
    forall k <- s.pg :: s.st.watermark < s.pg[k].updatedAt <= s.maxWm && img(k, s.pg[k].cols).Some?
      ==> k in s.copied && s.copied[k] == s.pg[k]
  }

  /** `updated_at` strictly increases, and a key is not reused while its deletion is still in
      the outbox. */
  ghost predicate Timely(s: Sys, e: Event) {
    e.Put? ==> e.at > s.clock && e.k !in s.outbox.Values
  }

  /** How well behaved a run is; each level includes those before it. */
  datatype Level = Free | SeqOrder | InStep | Strict

  ghost predicate Follows(l: Level, img: Image, s: Sys, e: Event) {
    && Enabled(img, s, e)
    && (l != Free ==> InSeqOrder(s, e))
    && (l.InStep? || l.Strict? ==> Timely(s, e))
    && (l.Strict? && e.Commit? ==> NoneMissed(img, s))
  }

  ghost predicate Allowed(l: Level, img: Image, s: Sys, es: seq<Event>)
    decreases |es|
  {
    es == [] || (Follows(l, img, s, es[0]) && Allowed(l, img, Step(img, s, es[0]), es[1..]))
  }

  function Run(img: Image, s: Sys, es: seq<Event>): Sys
    decreases |es|
  {
    if es == [] then s else Run(img, Step(img, s, es[0]), es[1..])
  }

  // ----- Deletions are never lost -----

  /** Everything at or below a cursor, in memory or persisted, has been executed on D1, and so
      has everything that was pruned. */
  ghost predicate DeletesKept(s: Sys) {
    && (forall q <- s.issued, c <- Cursors(s) :: q <= c.deleteSeq ==> q in s.applied)
    && (s.phase == Drained ==> forall q <- s.issued :: q <= s.maxSeq ==> q in s.applied)
    && (forall q <- s.issued :: q !in s.outbox ==> q in s.applied)
    && (forall q <- s.outbox :: q in s.issued && s.issued[q] == s.outbox[q])
    && (s.phase != Idle ==> s.maxSeq >= s.st.deleteSeq)
    && (s.phase == Tables ==> s.maxSeq == s.st.deleteSeq)
  }

  lemma DeletesKeptDrain(img: Image, s: Sys, m: nat, tried: set<nat>)
    requires DeletesKept(s) && Enabled(img, s, Drain(m, tried))
    ensures DeletesKept(Step(img, s, Drain(m, tried)))
  {
    var s' := Step(img, s, Drain(m, tried));
    forall q <- s'.issued | q <= s'.maxSeq ensures q in s'.applied {
      if q in s.outbox && q > s.st.deleteSeq {
        assert q in Executed(s, m, tried).Keys;
      }
    }
  }

  lemma DeletesKeptCommit(img: Image, s: Sys, persisted: bool)
    requires DeletesKept(s) && Enabled(img, s, Commit(persisted))
    ensures DeletesKept(Step(img, s, Commit(persisted)))
  {
  }

  lemma DeletesKeptRestart(img: Image, s: Sys, c: Cursor)
    requires DeletesKept(s) && Enabled(img, s, Restart(c))
    ensures DeletesKept(Step(img, s, Restart(c)))
  {
  }

  lemma DeletesKeptStep(img: Image, s: Sys, e: Event)
    requires DeletesKept(s) && Enabled(img, s, e) && InSeqOrder(s, e)
    ensures DeletesKept(Step(img, s, e))
    ensures s.applied <= Step(img, s, e).applied
  {
    match e
    case Drain(m, tried) => DeletesKeptDrain(img, s, m, tried);
    case Commit(p) => DeletesKeptCommit(img, s, p);
    case Restart(c) => DeletesKeptRestart(img, s, c);
    case Put(_, _, _) =>
    case Remove(_, _) =>
    case Begin =>
    case Query(_) =>
    case Copy(_, _, _) =>
    case Prune =>
  }

  /** In every run, with drains that stop half-way, saves that are lost and restarts from any
      state persisted earlier, no deletion is lost. */
  lemma {:induction false} NoDeleteLost(img: Image, s: Sys, es: seq<Event>)
    requires DeletesKept(s) && Allowed(SeqOrder, img, s, es)
    ensures DeletesKept(Run(img, s, es))
    ensures s.applied <= Run(img, s, es).applied
    decreases |es|
  {
    if es != [] {
      DeletesKeptStep(img, s, es[0]);
      NoDeleteLost(img, Step(img, s, es[0]), es[1..]);
    }
  }

  // ----- Agreement -----

  ghost predicate Same(img: Image, s: Sys, k: RowKey)
    requires k in s.pg
  {
    img(k, s.pg[k].cols).Some? ==> k in s.d1 && s.d1[k] == img(k, s.pg[k].cols).value
  }

  /** Rows at or below the watermark `w` have their current image in D1. */
  ghost predicate Covered(img: Image, s: Sys, w: int) {
    forall k <- s.pg :: s.pg[k].updatedAt <= w ==> Same(img, s, k)
  }

  /** D1 agrees with the source. A row that assembly skips may be absent or stale. */
  ghost predicate Agree(img: Image, s: Sys) {
    && (forall k <- s.pg :: Same(img, s, k))
    && s.d1.Keys <= s.pg.Keys
  }

  /** When assembly skips no row, agreement is equality with the image of the whole source. */
  lemma AgreeIsEquality(img: Image, s: Sys)
    requires forall k <- s.pg :: img(k, s.pg[k].cols).Some?
    ensures Agree(img, s) <==> s.d1 == Images(img, s.pg, s.pg.Keys)
  {
    var all := Images(img, s.pg, s.pg.Keys);
    assert all.Keys == s.pg.Keys;
    if Agree(img, s) {
      forall k <- s.pg ensures k in s.d1 && s.d1[k] == all[k] { assert Same(img, s, k); }
      assert s.d1.Keys == all.Keys;
    }
  }

  ghost predicate InTime(img: Image, s: Sys) {
    && (forall k <- s.pg :: s.pg[k].updatedAt <= s.clock)
    && (forall c <- Cursors(s) :: 0 <= c.watermark <= s.clock)
    && (s.phase != Idle ==> s.st.watermark <= s.maxWm <= s.clock)
    && (forall k <- s.snap :: s.snap[k].updatedAt <= s.clock)
    && (forall k <- s.copied :: s.copied[k].updatedAt <= s.clock)
  }

  ghost predicate CursorsCovered(img: Image, s: Sys) {
    forall c <- Cursors(s) :: Covered(img, s, c.watermark)
  }

  /** A row read or copied in this tick is current, or was written again after every cursor. */
  ghost predicate TickSound(img: Image, s: Sys) {
    && (forall k <- s.snap :: k in s.pg && s.pg[k] != s.snap[k] ==>
          forall c <- Cursors(s) :: s.pg[k].updatedAt > c.watermark)
    && (s.phase != Tables ==> s.snap == map[])
    && (forall k <- s.copied :: k in s.pg && s.pg[k] == s.copied[k] ==> Same(img, s, k))
  }

  /** The outbox still holds, after every cursor, the deletion of `k`. */
  ghost predicate Awaiting(s: Sys, k: RowKey) {
    exists q <- s.outbox :: s.outbox[q] == k && (s.phase == Drained ==> q > s.maxSeq) && forall c <- Cursors(s) :: q > c.deleteSeq
  }

  ghost predicate ExtrasAwaited(s: Sys) {
    && (forall k <- s.d1 :: k in s.pg || Awaiting(s, k))
    && (forall k <- s.snap :: k in s.pg || Awaiting(s, k))
    && (forall q <- s.outbox :: s.outbox[q] !in s.pg)
    && s.outbox.Keys <= s.issued.Keys
    && (s.phase != Idle ==> s.maxSeq >= s.st.deleteSeq)
    && (s.phase == Tables ==> s.maxSeq == s.st.deleteSeq)
  }

  ghost predicate Inv(img: Image, s: Sys) {
    InTime(img, s) && CursorsCovered(img, s) && TickSound(img, s) && ExtrasAwaited(s)
  }

  lemma PutCovers(img: Image, s: Sys, s': Sys, k: RowKey, row: Row)
    requires Inv(img, s) && row.updatedAt > s.clock && s' == s.(pg := s.pg[k := row], clock := row.updatedAt)
    ensures InTime(img, s') && CursorsCovered(img, s')
  {
    forall c <- Cursors(s'), x <- s'.pg | s'.pg[x].updatedAt <= c.watermark ensures Same(img, s', x) {
      assert c in Cursors(s) && Covered(img, s, c.watermark) && Same(img, s, x);
    }
  }

  lemma PutSound(img: Image, s: Sys, s': Sys, k: RowKey, row: Row)
    requires Inv(img, s) && row.updatedAt > s.clock && s' == s.(pg := s.pg[k := row], clock := row.updatedAt)
    ensures TickSound(img, s')
  {
    forall x <- s'.copied | x in s'.pg && s'.pg[x] == s'.copied[x] ensures Same(img, s', x) {
      assert Same(img, s, x);
    }
  }

  lemma PutKeeps(img: Image, s: Sys, k: RowKey, cols: Cols, at: int)
    requires Inv(img, s) && Timely(s, Put(k, cols, at))
    ensures Inv(img, Step(img, s, Put(k, cols, at)))
  {
    var s' := s.(pg := s.pg[k := Row(at, cols)], clock := at);
    assert Step(img, s, Put(k, cols, at)) == s';
    PutCovers(img, s, s', k, Row(at, cols));
    PutSound(img, s, s', k, Row(at, cols));
    forall x | Awaiting(s, x) ensures Awaiting(s', x) {
      StillAwaiting(s, s', x);
    }
  }

  lemma RemoveSound(img: Image, s: Sys, s': Sys, k: RowKey, q: nat)
    requires Inv(img, s) && s' == s.(pg := s.pg - {k}, outbox := s.outbox[q := k], issued := s.issued[q := k])
    ensures InTime(img, s') && CursorsCovered(img, s') && TickSound(img, s')
  {
    forall c <- Cursors(s'), x <- s'.pg | s'.pg[x].updatedAt <= c.watermark ensures Same(img, s', x) {
      assert c in Cursors(s) && Covered(img, s, c.watermark) && Same(img, s, x);
    }
    forall x <- s'.copied | x in s'.pg && s'.pg[x] == s'.copied[x] ensures Same(img, s', x) {
      assert Same(img, s, x);
    }
  }

  lemma RemoveAwaits(s: Sys, s': Sys, k: RowKey, q: nat)
    requires ExtrasAwaited(s) && k in s.pg && q !in s.issued && q > s.maxSeq && forall c <- Cursors(s) :: q > c.deleteSeq
    requires s' == s.(pg := s.pg - {k}, outbox := s.outbox[q := k], issued := s.issued[q := k])
    ensures ExtrasAwaited(s')
  {
    assert Awaiting(s', k) by { assert q in s'.outbox; }
    forall x | Awaiting(s, x) ensures Awaiting(s', x) {
      StillAwaiting(s, s', x);
    }
  }

  lemma RemoveKeeps(img: Image, s: Sys, k: RowKey, q: nat)
    requires Inv(img, s) && Enabled(img, s, Remove(k, q)) && InSeqOrder(s, Remove(k, q))
    ensures Inv(img, Step(img, s, Remove(k, q)))
  {
    var s' := s.(pg := s.pg - {k}, outbox := s.outbox[q := k], issued := s.issued[q := k]);
    assert Step(img, s, Remove(k, q)) == s';
    RemoveSound(img, s, s', k, q);
    RemoveAwaits(s, s', k, q);
  }

  lemma StillAwaiting(s: Sys, s': Sys, k: RowKey)
    requires Awaiting(s, k) && Cursors(s') <= Cursors(s)
    requires forall q <- s.outbox :: q > s.st.deleteSeq ==> q in s'.outbox && s'.outbox[q] == s.outbox[q]
    requires s'.phase == Drained ==> s.phase == Drained && s'.maxSeq == s.maxSeq
    ensures Awaiting(s', k)
  {
    var q :| q in s.outbox && s.outbox[q] == k && (s.phase == Drained ==> q > s.maxSeq) && forall c <- Cursors(s) :: q > c.deleteSeq;
    assert s.st in Cursors(s) && q in s'.outbox;
  }

  lemma BeginKeeps(img: Image, s: Sys)
    requires Inv(img, s) && Enabled(img, s, Begin)
    ensures Inv(img, Step(img, s, Begin))
  {
  }

  lemma QueryKeeps(img: Image, s: Sys, t: string)
    requires Inv(img, s) && Enabled(img, s, Query(t))
    ensures Inv(img, Step(img, s, Query(t)))
  {
  }

  lemma CopySame(img: Image, s: Sys, keys: set<RowKey>, ok: bool, wm: int, k: RowKey)
    requires k in s.pg && (k in s.snap && k in keys ==> s.snap[k] == s.pg[k])
    requires Same(img, s, k) || (k in s.snap && k in keys)
    ensures Same(img, Step(img, s, Event.Copy(keys, ok, wm)), k)
  {
  }

  lemma CopyCovers(img: Image, s: Sys, keys: set<RowKey>, ok: bool, wm: int)
    requires Inv(img, s)
    ensures CursorsCovered(img, Step(img, s, Event.Copy(keys, ok, wm)))
    ensures TickSound(img, Step(img, s, Event.Copy(keys, ok, wm)))
  {
    var s' := Step(img, s, Event.Copy(keys, ok, wm));
    forall c <- Cursors(s'), k <- s'.pg | s'.pg[k].updatedAt <= c.watermark ensures Same(img, s', k) {
      assert Covered(img, s, c.watermark);
      CopySame(img, s, keys, ok, wm, k);
    }
    forall k <- s'.copied | k in s'.pg && s'.pg[k] == s'.copied[k] ensures Same(img, s', k) {
      CopySame(img, s, keys, ok, wm, k);
    }
  }

  lemma {:induction false} CopyKeeps(img: Image, s: Sys, keys: set<RowKey>, ok: bool, wm: int)
    requires Inv(img, s) && Enabled(img, s, Event.Copy(keys, ok, wm))
    ensures Inv(img, Step(img, s, Event.Copy(keys, ok, wm)))
  {
    var s' := Step(img, s, Event.Copy(keys, ok, wm));
    CopyCovers(img, s, keys, ok, wm);
    forall k | Awaiting(s, k) ensures Awaiting(s', k) {
      StillAwaiting(s, s', k);
    }
    assert s'.d1.Keys <= s.d1.Keys + s.snap.Keys;
  }

  lemma DrainKeeps(img: Image, s: Sys, m: nat, tried: set<nat>)
    requires Inv(img, s) && Enabled(img, s, Drain(m, tried))
    ensures Inv(img, Step(img, s, Drain(m, tried)))
  {
    var done := Executed(s, m, tried);
    var s' := s.(d1 := s.d1 - done.Values, applied := s.applied + done.Keys, maxSeq := m, phase := Drained);
    assert Step(img, s, Drain(m, tried)) == s';
    assert forall k <- s.pg :: k !in done.Values;
    DrainSound(img, s, s');
    DrainAwaits(s, s', m, tried);
  }

  /** Deleting rows that the source does not have. */
  lemma DrainSound(img: Image, s: Sys, s': Sys)
    requires Inv(img, s) && s.phase == Tables && s.snap == map[] && s'.d1.Keys <= s.d1.Keys
    requires s' == s.(d1 := s'.d1, applied := s'.applied, maxSeq := s'.maxSeq, phase := Drained)
    requires forall k <- s.pg :: k in s.d1 ==> k in s'.d1 && s'.d1[k] == s.d1[k]
    ensures InTime(img, s') && CursorsCovered(img, s') && TickSound(img, s')
  {
    forall c <- Cursors(s'), k <- s'.pg | s'.pg[k].updatedAt <= c.watermark ensures Same(img, s', k) {
      assert c in Cursors(s) && Covered(img, s, c.watermark) && Same(img, s, k);
    }
    forall k <- s'.copied | k in s'.pg && s'.pg[k] == s'.copied[k] ensures Same(img, s', k) {
      assert Same(img, s, k);
    }
  }

  lemma DrainAwaits(s: Sys, s': Sys, m: nat, tried: set<nat>)
    requires ExtrasAwaited(s) && s.phase == Tables && s.snap == map[] && m >= s.st.deleteSeq
    requires var done := Executed(s, m, tried);
             s' == s.(d1 := s.d1 - done.Values, applied := s.applied + done.Keys, maxSeq := m, phase := Drained)
    ensures ExtrasAwaited(s')
  {
    var done := Executed(s, m, tried);
    forall k <- s'.d1 | k !in s'.pg ensures Awaiting(s', k) {
      assert Awaiting(s, k);
      var q :| q in s.outbox && s.outbox[q] == k && forall c <- Cursors(s) :: q > c.deleteSeq;
      assert s.st in Cursors(s);
      assert q in done.Keys ==> k in done.Values;
      assert q in s'.outbox;
    }
  }

  lemma CommitCovers(img: Image, s: Sys)
    requires TickSound(img, s) && CursorsCovered(img, s) && NoneMissed(img, s)
    ensures Covered(img, s, s.maxWm)
  {
    assert Covered(img, s, s.st.watermark);
    forall k <- s.pg | s.pg[k].updatedAt <= s.maxWm ensures Same(img, s, k) {
      if s.pg[k].updatedAt > s.st.watermark && img(k, s.pg[k].cols).Some? {
        assert k in s.copied;
      }
    }
  }

  /** A commit moves the cursor to the tick's maxima and persists nothing else. */
  lemma CommitResult(img: Image, s: Sys, persisted: bool)
    requires s.maxWm >= s.st.watermark && s.maxSeq >= s.st.deleteSeq
    ensures var s' := Step(img, s, Commit(persisted)); var c := Cursor(s.maxWm, s.maxSeq);
            s' == s.(st := c, saved := s'.saved, phase := Idle) && s.saved <= s'.saved <= s.saved + {c}
  {
  }

  lemma MovedKeeps(img: Image, s: Sys, c: Cursor, saved: set<Cursor>)
    requires Inv(img, s) && s.phase == Drained && c == Cursor(s.maxWm, s.maxSeq)
    requires s.saved <= saved <= s.saved + {c} && NoneMissed(img, s)
    ensures Inv(img, s.(st := c, saved := saved, phase := Idle))
  {
    var s' := s.(st := c, saved := saved, phase := Idle);
    CommitCovers(img, s);
    forall x <- Cursors(s') ensures x == c || x in Cursors(s) {}
    forall x <- Cursors(s') ensures Covered(img, s', x.watermark) {
      assert Covered(img, s, x.watermark);
    }
    forall k | Awaiting(s, k) ensures Awaiting(s', k) {
      var q :| q in s.outbox && s.outbox[q] == k && q > s.maxSeq && forall x <- Cursors(s) :: q > x.deleteSeq;
      assert q in s'.outbox;
    }
  }

  lemma {:induction false} CommitKeeps(img: Image, s: Sys, persisted: bool)
    requires Inv(img, s) && Enabled(img, s, Commit(persisted)) && NoneMissed(img, s)
    ensures Inv(img, Step(img, s, Commit(persisted)))
  {
    CommitResult(img, s, persisted);
    MovedKeeps(img, s, Cursor(s.maxWm, s.maxSeq), Step(img, s, Commit(persisted)).saved);
  }

  lemma PruneKeeps(img: Image, s: Sys)
    requires Inv(img, s) && Enabled(img, s, Prune)
    ensures Inv(img, Step(img, s, Prune))
  {
    forall k | Awaiting(s, k) ensures Awaiting(Step(img, s, Prune), k) {
      StillAwaiting(s, Step(img, s, Prune), k);
    }
  }

  lemma RestartKeeps(img: Image, s: Sys, c: Cursor)
    requires Inv(img, s) && Enabled(img, s, Restart(c))
    ensures Inv(img, Step(img, s, Restart(c)))
  {
  }

  lemma {:induction false} InvStep(img: Image, s: Sys, e: Event)
    requires Inv(img, s) && Follows(Strict, img, s, e)
    ensures Inv(img, Step(img, s, e))
  {
    match e
    case Put(k, cols, at) => PutKeeps(img, s, k, cols, at);
    case Remove(k, q) => RemoveKeeps(img, s, k, q);
    case Begin => BeginKeeps(img, s);
    case Query(t) => QueryKeeps(img, s, t);
    case Copy(keys, ok, wm) => CopyKeeps(img, s, keys, ok, wm);
    case Drain(m, tried) => DrainKeeps(img, s, m, tried);
    case Commit(p) => CommitKeeps(img, s, p);
    case Prune => PruneKeeps(img, s);
    case Restart(c) => RestartKeeps(img, s, c);
  }

  /** Every strict run keeps the invariant: rows at or below any cursor that was ever in use have
      their image in D1, and every key only D1 has is still awaiting its deletion. */
  lemma {:induction false} InvRun(img: Image, s: Sys, es: seq<Event>)
    requires Inv(img, s) && Allowed(Strict, img, s, es)
    ensures Inv(img, Run(img, s, es))
    decreases |es|
  {
    if es != [] {
      InvStep(img, s, es[0]);
      InvRun(img, Step(img, s, es[0]), es[1..]);
    }
  }

  /** A daemon that starts for the first time: nothing in the outbox, and D1 holds what a full
      copy up to the initial watermark left there (nothing at all when that is zero). */
  ghost predicate Init(img: Image, s: Sys) {
    && s.phase == Idle && s.snap == map[] && s.copied == map[] && s.saved == {s.st}
    && s.outbox == map[] && s.issued == map[] && s.st.deleteSeq == 0 && s.maxSeq == 0
    && 0 <= s.st.watermark <= s.clock && (forall k <- s.pg :: s.pg[k].updatedAt <= s.clock)
    && Covered(img, s, s.st.watermark) && s.d1.Keys <= s.pg.Keys
  }

  lemma InitInv(img: Image, s: Sys)
    requires Init(img, s)
    ensures Inv(img, s) && DeletesKept(s)
  {
    assert Cursors(s) == {s.st};
  }

  // ----- One whole tick -----

  /** D1 after a tick whose every table sync and delete succeeds and which no write interrupts. */
  function TickD1(img: Image, s: Sys): D1 {
    (s.d1 + map k | k in s.pg && s.pg[k].updatedAt > s.st.watermark && img(k, s.pg[k].cols).Some? ::
            img(k, s.pg[k].cols).value)
    - (set q | q in s.outbox && q > s.st.deleteSeq :: s.outbox[q])
  }

  /** Which states one undisturbed tick repairs, whatever happened before. */
  ghost predicate Repairable(img: Image, s: Sys) {
    && Covered(img, s, s.st.watermark)
    && (forall k <- s.d1 :: k in s.pg || exists q <- s.outbox :: q > s.st.deleteSeq && s.outbox[q] == k)
    && (forall q <- s.outbox :: q > s.st.deleteSeq && s.outbox[q] in s.pg ==> img(s.outbox[q], s.pg[s.outbox[q]].cols).None?)
  }

  /** One undisturbed tick makes D1 agree with the source from exactly these states. */
  lemma TickExact(img: Image, s: Sys)
    ensures Agree(img, s.(d1 := TickD1(img, s))) <==> Repairable(img, s)
  {
    var s' := s.(d1 := TickD1(img, s));
    if Repairable(img, s) {
      forall k <- s.pg ensures Same(img, s', k) {
        assert s.pg[k].updatedAt <= s.st.watermark ==> Same(img, s, k);
      }
    }
    if Agree(img, s') {
      forall k <- s.pg | s.pg[k].updatedAt <= s.st.watermark ensures Same(img, s, k) {
        assert Same(img, s', k);
      }
      forall q <- s.outbox | q > s.st.deleteSeq && s.outbox[q] in s.pg
        ensures img(s.outbox[q], s.pg[s.outbox[q]].cols).None?
      {
        assert Same(img, s', s.outbox[q]);
      }
    }
  }

  lemma InvIsRepairable(img: Image, s: Sys)
    requires Inv(img, s)
    ensures Repairable(img, s)
  {
    assert s.st in Cursors(s);
    forall k <- s.d1 | k !in s.pg ensures exists q <- s.outbox :: q > s.st.deleteSeq && s.outbox[q] == k {
      assert Awaiting(s, k);
    }
  }

  /** Whatever the run before it - failed tables and drains, lost saves, restarts from any
      persisted state - one undisturbed tick makes D1 agree with the source. */
  lemma {:induction false} TickConverges(img: Image, s: Sys, es: seq<Event>)
    requires Init(img, s) && Allowed(Strict, img, s, es)
    ensures var s' := Run(img, s, es); Agree(img, s'.(d1 := TickD1(img, s')))
  {
    InitInv(img, s);
    InvRun(img, s, es);
    InvIsRepairable(img, Run(img, s, es));
    TickExact(img, Run(img, s, es));
  }

  // ----- What goes wrong otherwise -----

  /** Row `k` is at or below the watermark and its image is not in D1. */
  ghost predicate Lost(img: Image, s: Sys, k: RowKey) {
    && k in s.pg && !Same(img, s, k) && k !in s.snap
    && s.pg[k].updatedAt <= s.st.watermark
    && (s.phase != Idle ==> s.pg[k].updatedAt <= s.maxWm)
  }

  /** `e` neither writes row `k` nor rewinds the watermark below `w`. */
  predicate Ignores(e: Event, k: RowKey, w: int) {
    match e
    case Put(x, _, _) => x != k
    case Remove(x, _) => x != k
    case Restart(c) => c.watermark >= w
    case _ => true
  }

  lemma LostCopy(img: Image, s: Sys, keys: set<RowKey>, ok: bool, wm: int, k: RowKey)
    requires Lost(img, s, k)
    ensures Lost(img, Step(img, s, Event.Copy(keys, ok, wm)), k)
  {
    assert k !in Images(img, s.snap, keys);
  }

  lemma LostDrain(img: Image, s: Sys, m: nat, tried: set<nat>, k: RowKey)
    requires Lost(img, s, k)
    ensures s.phase == Tables ==> Lost(img, Step(img, s, Drain(m, tried)), k)
  {
  }

  lemma LostStep(img: Image, s: Sys, e: Event, k: RowKey)
    requires Lost(img, s, k) && Enabled(img, s, e) && Ignores(e, k, s.pg[k].updatedAt)
    ensures Lost(img, Step(img, s, e), k) && Step(img, s, e).pg[k] == s.pg[k]
  {
    match e
    case Copy(keys, ok, wm) => LostCopy(img, s, keys, ok, wm, k);
    case Drain(m, tried) => LostDrain(img, s, m, tried, k);
    case Put(_, _, _) =>
    case Remove(_, _) =>
    case Begin =>
    case Query(_) =>
    case Commit(_) =>
    case Prune =>
    case Restart(_) =>
  }

  /** A lost row stays lost, through any number of ticks, until it is written again or the
      daemon is rewound. */
  lemma {:induction false} LostForever(img: Image, s: Sys, es: seq<Event>, k: RowKey)
    requires Lost(img, s, k) && Allowed(Free, img, s, es)
    requires forall e <- es :: Ignores(e, k, s.pg[k].updatedAt)
    ensures Lost(img, Run(img, s, es), k)
    decreases |es|
  {
    if es != [] {
      LostStep(img, s, es[0], k);
      LostForever(img, Step(img, s, es[0]), es[1..], k);
    }
  }

  /** A commit loses exactly the rows that its watermark passes and whose image the tick did
      not bring to D1. */
  lemma MissedIsLost(img: Image, s: Sys, persisted: bool, k: RowKey)
    requires Enabled(img, s, Commit(persisted)) && k in s.pg && k !in s.snap && s.maxWm >= s.st.watermark
    ensures Lost(img, Step(img, s, Commit(persisted)), k) <==> !Same(img, s, k) && s.pg[k].updatedAt <= s.maxWm
  {
  }

  lemma {:induction false} RunConcat(l: Level, img: Image, s: Sys, a: seq<Event>, b: seq<Event>)
    ensures Run(img, s, a + b) == Run(img, Run(img, s, a), b)
    ensures Allowed(l, img, s, a + b) <==> Allowed(l, img, s, a) && Allowed(l, img, Run(img, s, a), b)
    decreases |a|
  {
    if a == [] {
      assert a + b == b;
    } else {
      assert (a + b)[1..] == a[1..] + b;
      RunConcat(l, img, Step(img, s, a[0]), a[1..], b);
    }
  }

  /** The next step of an example run. */
  lemma Then(l: Level, img: Image, s0: Sys, es: seq<Event>, s: Sys, e: Event) returns (es': seq<Event>, s': Sys)
    requires Allowed(l, img, s0, es) && s == Run(img, s0, es) && Follows(l, img, s, e)
    ensures es' == es + [e] && s' == Step(img, s, e)
    ensures Allowed(l, img, s0, es') && s' == Run(img, s0, es')
  {
    es', s' := es + [e], Step(img, s, e);
    RunConcat(l, img, s0, es, [e]);
    assert Run(img, s, [e]) == Run(img, s', []) && Allowed(l, img, s', []);
  }

  /** A first start. */
  function Start(pg: map<RowKey, Row>, clock: int, d1: D1, wm: int): Sys {
    Sys(pg, clock, map[], d1, Cursor(wm, 0), {Cursor(wm, 0)}, Idle, wm, 0, map[], map[], map[], {})
  }

  const ORG := RowKey("orgs", "1")
  const USER := RowKey("users", "2")

  /** The image used by the examples: every row is an empty D1 row. */
  function Plain(k: RowKey, cols: Cols): Option<D1Row> { Some([]) }

  const ZERO := Cursor(0, 0)

  /** A tick that has read table "orgs" and not yet "users", with both rows unsynced. */
  const HALF := Sys(map[ORG := Row(1, []), USER := Row(2, [])], 2, map[], map[], ZERO, {ZERO},
                    Tables, 0, 0, map[], map[], map[], {})

  /** The rest of that tick, and what it commits. */
  const REST := [Query("users"), Event.Copy({USER}, true, 2), Drain(0, {}), Commit(true)]
  const AFTER := HALF.(d1 := map[USER := []], st := Cursor(2, 0), saved := {ZERO, Cursor(2, 0)}, phase := Idle,
                       maxWm := 2, copied := map[USER := Row(2, [])])

  const QUERIED := HALF.(snap := map[USER := Row(2, [])])
  const COPIED := HALF.(d1 := map[USER := []], maxWm := 2, copied := map[USER := Row(2, [])])

  lemma HalfTick()
    ensures Allowed(InStep, Plain, HALF, REST) && Run(Plain, HALF, REST) == AFTER && Lost(Plain, AFTER, ORG)
  {
    HalfTickReads();
    HalfTickEnds();
    RunConcat(InStep, Plain, HALF, [Query("users"), Event.Copy({USER}, true, 2)], [Drain(0, {}), Commit(true)]);
    assert REST == [Query("users"), Event.Copy({USER}, true, 2)] + [Drain(0, {}), Commit(true)];
  }

  lemma HalfTickReads()
    ensures var es := [Query("users"), Event.Copy({USER}, true, 2)];
            Allowed(InStep, Plain, HALF, es) && Run(Plain, HALF, es) == COPIED
  {
    assert Delta(HALF.pg, "users", 0) == QUERIED.snap;
    assert USER in QUERIED.snap && QUERIED.snap[USER].updatedAt == 2;
    assert IsMaxWm(Plain, QUERIED.snap, 2);
    assert Images(Plain, QUERIED.snap, {USER}) == COPIED.d1;
    assert Restrict(QUERIED.snap, {USER}) == COPIED.copied;
    var es, s := Then(InStep, Plain, HALF, [], HALF, Query("users"));
    assert s == QUERIED;
    es, s := Then(InStep, Plain, HALF, es, s, Event.Copy({USER}, true, 2));
    assert es == [Query("users"), Event.Copy({USER}, true, 2)];
  }

  lemma HalfTickEnds()
    ensures var es := [Drain(0, {}), Commit(true)];
            Allowed(InStep, Plain, COPIED, es) && Run(Plain, COPIED, es) == AFTER && Lost(Plain, AFTER, ORG)
  {
    var es, s := Then(InStep, Plain, COPIED, [], COPIED, Drain(0, {}));
    assert s == COPIED.(phase := Drained);
    es, s := Then(InStep, Plain, COPIED, es, s, Commit(true));
    assert es == [Drain(0, {}), Commit(true)];
  }

  const EMPTY_HALF := HALF.(pg := map[], clock := 0)

  /** A tick that has read the empty table "orgs". */
  lemma FirstHalf(s0: Sys) returns (es: seq<Event>)
    requires s0 == Start(map[], 0, map[], 0)
    ensures es == [Begin, Query("orgs"), Event.Copy({}, true, 0)] && Allowed(InStep, Plain, s0, es)
    ensures Run(Plain, s0, es) == EMPTY_HALF
  {
    var s;
    es, s := Then(InStep, Plain, s0, [], s0, Begin);
    es, s := Then(InStep, Plain, s0, es, s, Query("orgs"));
    assert s.snap == map[];
    es, s := Then(InStep, Plain, s0, es, s, Event.Copy({}, true, 0));
  }

  lemma TwoWrites() returns (es: seq<Event>)
    ensures es == [Put(ORG, [], 1), Put(USER, [], 2)]
    ensures Allowed(InStep, Plain, EMPTY_HALF, es) && Run(Plain, EMPTY_HALF, es) == HALF
  {
    var s;
    es, s := Then(InStep, Plain, EMPTY_HALF, [], EMPTY_HALF, Put(ORG, [], 1));
    es, s := Then(InStep, Plain, EMPTY_HALF, es, s, Put(USER, [], 2));
  }

  ghost predicate CopiesOk(es: seq<Event>) {
    forall e <- es :: e.Copy? ==> e.ok
  }

  lemma CopiesOkConcat(a: seq<Event>, b: seq<Event>)
    requires CopiesOk(a) && CopiesOk(b)
    ensures CopiesOk(a + b)
  {
  }

  /** Two writes during a tick - to a table already read, then to one not yet read - lose the
      first, although every table sync succeeds. */
  lemma LateWriteIsLost() returns (s0: Sys, es: seq<Event>)
    ensures Init(Plain, s0) && Allowed(InStep, Plain, s0, es) && Lost(Plain, Run(Plain, s0, es), ORG)
    ensures CopiesOk(es)
  {
    s0 := Start(map[], 0, map[], 0);
    es := FirstHalf(s0);
    var writes := TwoWrites();
    HalfTick();
    RunConcat(InStep, Plain, s0, es, writes);
    RunConcat(InStep, Plain, s0, es + writes, REST);
    CopiesOkConcat(es, writes);
    CopiesOkConcat(es + writes, REST);
    es := es + writes + REST;
  }

  /** A table whose query fails, so that the tick goes on without it, loses its rows when
      another table moves the watermark past them - even though nothing is written during the tick. */
  lemma FailedTableIsLost() returns (s0: Sys, es: seq<Event>)
    ensures Init(Plain, s0) && Allowed(InStep, Plain, s0, es) && Lost(Plain, Run(Plain, s0, es), ORG)
    ensures CopiesOk(es) && forall e <- es :: !e.Put? && !e.Remove?
  {
    s0 := Start(map[ORG := Row(1, []), USER := Row(2, [])], 2, map[], 0);
    var s;
    es, s := Then(InStep, Plain, s0, [], s0, Begin);
    assert s == HALF;
    HalfTick();
    RunConcat(InStep, Plain, s0, es, REST);
    es := es + REST;
  }

  /** A tick that starts after a key was deleted and inserted again. */
  const REUSED := Sys(map[ORG := Row(2, [])], 2, map[1 := ORG], map[ORG := []], Cursor(1, 0), {Cursor(1, 0)},
                      Tables, 1, 0, map[], map[], map[1 := ORG], {})

  const READ_AGAIN := REUSED.(maxWm := 2, copied := map[ORG := Row(2, [])])
  const REUSED_REST := [Query("orgs"), Event.Copy({ORG}, true, 2), Drain(1, {}), Commit(true)]

  lemma ReusedTickReads()
    ensures var es := [Query("orgs"), Event.Copy({ORG}, true, 2)];
            Allowed(SeqOrder, Plain, REUSED, es) && Run(Plain, REUSED, es) == READ_AGAIN
  {
    var snap := map[ORG := Row(2, [])];
    assert Delta(REUSED.pg, "orgs", 1) == snap;
    assert ORG in snap && snap[ORG].updatedAt == 2;
    assert Images(Plain, snap, {ORG}) == map[ORG := []];
    assert Restrict(snap, {ORG}) == snap;
    var es, s := Then(SeqOrder, Plain, REUSED, [], REUSED, Query("orgs"));
    assert s == REUSED.(snap := snap);
    es, s := Then(SeqOrder, Plain, REUSED, es, s, Event.Copy({ORG}, true, 2));
    assert es == [Query("orgs"), Event.Copy({ORG}, true, 2)];
    assert s.d1 == map[ORG := []];
  }

  lemma ReusedTickDrains()
    ensures var es := [Drain(1, {}), Commit(true)];
            Allowed(SeqOrder, Plain, READ_AGAIN, es) && Lost(Plain, Run(Plain, READ_AGAIN, es), ORG)
  {
    assert Executed(READ_AGAIN, 1, {}) == map[1 := ORG];
    var es, s := Then(SeqOrder, Plain, READ_AGAIN, [], READ_AGAIN, Drain(1, {}));
    assert ORG !in s.d1 && s.maxWm == 2;
    es, s := Then(SeqOrder, Plain, READ_AGAIN, es, s, Commit(true));
    assert es == [Drain(1, {}), Commit(true)];
  }

  lemma ReusedTickLoses()
    ensures Allowed(SeqOrder, Plain, REUSED, REUSED_REST) && Lost(Plain, Run(Plain, REUSED, REUSED_REST), ORG)
  {
    ReusedTickReads();
    ReusedTickDrains();
    RunConcat(SeqOrder, Plain, REUSED, [Query("orgs"), Event.Copy({ORG}, true, 2)], [Drain(1, {}), Commit(true)]);
    assert REUSED_REST == [Query("orgs"), Event.Copy({ORG}, true, 2)] + [Drain(1, {}), Commit(true)];
  }

  /** A key inserted again before its deletion is drained disappears from D1: upserts come first. */
  lemma ReusedKeyIsLost() returns (s0: Sys, es: seq<Event>)
    ensures Init(Plain, s0) && Allowed(SeqOrder, Plain, s0, es) && Lost(Plain, Run(Plain, s0, es), ORG)
    ensures CopiesOk(es)
  {
    s0, es := Start(map[ORG := Row(1, [])], 1, map[ORG := []], 1), [];
    var s := s0;
    es, s := Then(SeqOrder, Plain, s0, es, s, Remove(ORG, 1));
    es, s := Then(SeqOrder, Plain, s0, es, s, Put(ORG, [], 2));
    es, s := Then(SeqOrder, Plain, s0, es, s, Begin);
    ReusedTickLoses();
    RunConcat(SeqOrder, Plain, s0, es, REUSED_REST);
    CopiesOkConcat(es, REUSED_REST);
    es := es + REUSED_REST;
  }

  /** The state after the first deletion below, drained and committed. */
  const DRAINED_TWO := Sys(map[ORG := Row(1, [])], 1, map[2 := USER], map[ORG := []], Cursor(1, 2),
                           {Cursor(1, 0), Cursor(1, 2)}, Idle, 1, 2, map[], map[], map[2 := USER], {2})

  lemma DrainTwo(s0: Sys) returns (es: seq<Event>)
    requires s0 == Start(map[ORG := Row(1, []), USER := Row(1, [])], 1, map[ORG := [], USER := []], 1)
    ensures Allowed(Free, Plain, s0, es) && Run(Plain, s0, es) == DRAINED_TWO
  {
    var s;
    es, s := Then(Free, Plain, s0, [], s0, Remove(USER, 2));
    es, s := Then(Free, Plain, s0, es, s, Begin);
    assert Executed(s, 2, {}) == map[2 := USER];
    es, s := Then(Free, Plain, s0, es, s, Drain(2, {}));
    es, s := Then(Free, Plain, s0, es, s, Commit(true));
    assert s.d1 == DRAINED_TWO.d1 && s.saved == DRAINED_TWO.saved && s.applied == DRAINED_TWO.applied;
  }

  /** An outbox row that becomes visible below the cursor is never executed, and is pruned. */
  lemma LateDeleteIsLost() returns (s0: Sys, es: seq<Event>)
    ensures Init(Plain, s0) && Allowed(Free, Plain, s0, es)
    ensures var s := Run(Plain, s0, es); ORG in s.d1 && ORG !in s.pg && s.outbox == map[] && 1 in s.issued && 1 !in s.applied
  {
    s0 := Start(map[ORG := Row(1, []), USER := Row(1, [])], 1, map[ORG := [], USER := []], 1);
    es := DrainTwo(s0);
    var s := DRAINED_TWO;
    es, s := Then(Free, Plain, s0, es, s, Remove(ORG, 1));
    es, s := Then(Free, Plain, s0, es, s, Prune);
    assert s.outbox == map[];
  }
}
