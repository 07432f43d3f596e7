/** The sync daemon's tick (cmd/backfill/forward.go) as code. Every tick, whatever fails in it,
    is a run of the machine in `SyncMachine`; a tick in which nothing fails computes
    `TickD1` and leaves D1 in agreement with the source. */
module SyncDaemon {
  import opened TableSync
  import opened SyncMachine

  datatype Table = Table(name: string, cols: nat)

  /** What goes wrong with one table: nothing, its query, or the copy after so many rows read or
      statements accepted. */
  datatype TableFault = Clean | QueryFails | Breaks(readable: nat, flushes: nat, ranAnyway: bool)

  /** What goes wrong during one tick; `NoFailure` for an undisturbed one. Tables not named are clean;
      `deletes` is the number of deletions executed before one fails. */
  datatype Faults = NoFailure
    | Faults(tables: map<string, TableFault>, deletes: nat, ranAnyway: bool, saveOk: bool, pruneOk: bool)

  function FaultOf(faults: Faults, table: string): TableFault {
    if faults.Faults? && table in faults.tables then faults.tables[table] else Clean
  }

  function Assemble(img: Image, k: RowKey, row: Row): Assembled {
    match img(k, row.cols)
    case None => Skip
    case Some(image) => Take(k, image, row.updatedAt)
  }

  ghost predicate Assembles(img: Image, rows: map<RowKey, Row>, keys: seq<RowKey>, list: seq<Assembled>) {
    |keys| == |list| && forall i :: 0 <= i < |keys| ==> keys[i] in rows && list[i] == Assemble(img, keys[i], rows[keys[i]])
  }

  /** `list` is the assembly of the rows of `rows` in the order of `keys`. */
  ghost predicate Lists(img: Image, rows: map<RowKey, Row>, keys: seq<RowKey>, list: seq<Assembled>) {
    Assembles(img, rows, keys, list) && (set k <- keys) == rows.Keys
  }

  /** The result of the watermark query, in some order. */
  method ReadRows(img: Image, rows: map<RowKey, Row>) returns (list: seq<Assembled>, ghost keys: seq<RowKey>)
    ensures Lists(img, rows, keys, list)
    ensures forall k <- rows :: Assemble(img, k, rows[k]) in list
  {
    list, keys := [], [];
    var rest := rows.Keys;
    while rest != {}
      invariant Assembles(img, rows, keys, list) && (set k <- keys) + rest == rows.Keys
      invariant forall k <- rows :: k in rest || Assemble(img, k, rows[k]) in list
      decreases rest
    {
      var k :| k in rest;
      list, keys, rest := list + [Assemble(img, k, rows[k])], keys + [k], rest - {k};
    }
  }

  ghost function FirstKeys(keys: seq<RowKey>, n: nat): set<RowKey>
    requires n <= |keys|
  {
    set k <- keys[..n]
  }

  lemma ImagesNext(img: Image, rows: map<RowKey, Row>, before: set<RowKey>, k: RowKey)
    requires k in rows
    ensures var a := Assemble(img, k, rows[k]); var next := Images(img, rows, before + {k});
            next == if a.Skip? then Images(img, rows, before) else Images(img, rows, before)[k := a.row]
  {
  }

  lemma FirstKeysNext(keys: seq<RowKey>, n: nat)
    requires n < |keys|
    ensures FirstKeys(keys, n + 1) == FirstKeys(keys, n) + {keys[n]}
  {
    assert keys[..n + 1] == keys[..n] + [keys[n]];
  }

  lemma ApplyNext(d: D1, list: seq<Assembled>, n: nat)
    requires n < |list|
    ensures Apply(d, list[..n + 1]) == if list[n].Skip? then Apply(d, list[..n]) else Apply(d, list[..n])[list[n].key := list[n].row]
  {
    assert list[..n + 1][..n] == list[..n];
  }

  lemma {:induction false} ApplyIsImages(img: Image, d: D1, rows: map<RowKey, Row>, keys: seq<RowKey>, list: seq<Assembled>, n: nat)
    requires Assembles(img, rows, keys, list) && n <= |list|
    ensures Apply(d, list[..n]) == d + Images(img, rows, FirstKeys(keys, n))
  {
    if n == 0 {
      assert FirstKeys(keys, 0) == {};
      assert Images(img, rows, {}) == map[];
    } else {
      var k := keys[n - 1];
      ApplyIsImages(img, d, rows, keys, list, n - 1);
      ApplyNext(d, list, n - 1);
      FirstKeysNext(keys, n - 1);
      ImagesNext(img, rows, FirstKeys(keys, n - 1), k);
      UpdateLast(d, Images(img, rows, FirstKeys(keys, n - 1)), k, list[n - 1]);
    }
  }

  lemma UpdateLast(d: D1, x: D1, k: RowKey, a: Assembled)
    ensures a.Take? ==> (d + x)[k := a.row] == d + x[k := a.row]
  {
  }

  lemma MaxWmIsMax(img: Image, rows: map<RowKey, Row>, keys: seq<RowKey>, list: seq<Assembled>)
    requires Lists(img, rows, keys, list)
    ensures IsMaxWm(img, rows, MaxWm(list))
  {
    MaxWmAt(list);
    forall k <- rows | img(k, rows[k].cols).Some? ensures rows[k].updatedAt <= MaxWm(list) {
      assert k in (set x <- keys);
      var i :| 0 <= i < |keys| && keys[i] == k;
      assert list[i].Take?;
    }
  }

  /** The smallest sequence number of a set. */
  method Least(s: set<nat>) returns (m: nat)
    requires s != {}
    ensures m in s && forall q <- s :: m <= q
  {
    m :| m in s;
    var rest := s - {m};
    while rest != {}
      invariant m in s && rest <= s && forall q <- s :: q in rest || m <= q
      decreases rest
    {
      var q :| q in rest;
      rest := rest - {q};
      m := if q < m then q else m;
    }
  }

  // The daemon refuses deletions outside the global tables and a composite key without a slash.
  const GLOBAL: set<string> := {"orgs", "users", "org_memberships", "api_keys", "templates", "secret_stores",
                                "secret_store_entries", "agent_subscriptions", "org_subscription_items"}

  predicate Deletable(k: RowKey) {
    k.table in GLOBAL && (k.table == "org_subscription_items" ==> '/' in k.id)
  }

  /** What the daemon deletes: rows of the nine global tables, and for the composite key only if it can
      be split at a slash. */
  lemma DeletableExactly(k: RowKey)
    ensures k.table == "org_subscription_items" ==>
              (Deletable(k) <==> exists i :: 0 <= i < |k.id| && k.id == k.id[..i] + "/" + k.id[i + 1..])
    ensures k.table != "org_subscription_items" ==>
              (Deletable(k) <==>
                || k.table == "orgs" || k.table == "users" || k.table == "org_memberships" || k.table == "api_keys"
                || k.table == "templates" || k.table == "secret_stores" || k.table == "secret_store_entries"
                || k.table == "agent_subscriptions")
  {
    if k.table == "org_subscription_items" {
      if '/' in k.id {
        var i :| 0 <= i < |k.id| && k.id[i] == '/';
        assert k.id == k.id[..i] + "/" + k.id[i + 1..];
      }
      if i :| 0 <= i < |k.id| && k.id == k.id[..i] + "/" + k.id[i + 1..] {
        assert k.id[i] == '/';
      }
    }
  }

  /** The keys of the outbox rows after `from`, up to `m`, and of those in `tried`. */
  function Gone(outbox: map<nat, RowKey>, from: nat, m: nat, tried: set<nat>): set<RowKey> {
    set q | q in outbox && (from < q <= m || q in tried) :: outbox[q]
  }

  function After(outbox: map<nat, RowKey>, from: nat): set<nat> {
    set q | q in outbox && q > from
  }

  lemma GoneNext(outbox: map<nat, RowKey>, from: nat, m: nat, q: nat)
    requires from <= m && q in After(outbox, m) && forall x <- After(outbox, m) :: q <= x
    ensures Gone(outbox, from, q, {}) == Gone(outbox, from, m, {}) + {outbox[q]}
    ensures Gone(outbox, from, m, {q}) == Gone(outbox, from, m, {}) + {outbox[q]}
    ensures After(outbox, q) == After(outbox, m) - {q}
    ensures forall x <- outbox :: x > m ==> x >= q
  {
    forall x <- outbox | x > m ensures x >= q {
      assert x in After(outbox, m);
    }
    forall x <- outbox | from < x <= q && x != q ensures x <= m {
      assert x > m ==> x in After(outbox, m);
    }
  }

  /** `drainDeletes`: executes the deletions after `from` in sequence order. */
  method DrainDeletes(d0: D1, outbox: map<nat, RowKey>, from: nat, deletes: nat, ranAnyway: bool)
    returns (d: D1, maxSeq: nat, tried: set<nat>)
    ensures maxSeq == from || (maxSeq in outbox && maxSeq > from)
    ensures tried <= outbox.Keys && d == d0 - Gone(outbox, from, maxSeq, tried)
    ensures deletes >= |outbox| && (forall q <- outbox :: Deletable(outbox[q])) ==> tried == {} && After(outbox, maxSeq) == {}
    ensures forall q <- outbox :: q > from && !Deletable(outbox[q]) ==> maxSeq < q && forall t <- tried :: t < q
    ensures !ranAnyway ==> tried == {}
    ensures ranAnyway && deletes < |After(outbox, from)| && (forall q <- outbox :: Deletable(outbox[q])) ==> |tried| == 1
  {
    var rest := After(outbox, from);
    var n := 0;
    d, maxSeq, tried := d0, from, {};
    SubsetSize(rest, outbox.Keys);
    while rest != {}
      invariant rest == After(outbox, maxSeq) && from <= maxSeq
      invariant maxSeq == from || (maxSeq in outbox && maxSeq > from)
      invariant d == d0 - Gone(outbox, from, maxSeq, {})
      invariant n + |rest| == |After(outbox, from)| <= |outbox| && n <= deletes
      invariant forall q <- outbox :: from < q <= maxSeq ==> Deletable(outbox[q])
      decreases rest
    {
      var q := Least(rest);
      GoneNext(outbox, from, maxSeq, q);
      if !Deletable(outbox[q]) {
        return;
      }
      if n == deletes {
        if ranAnyway {
          d, tried := d - {outbox[q]}, {q};
        }
        return;
      }
      d, maxSeq, n, rest := d - {outbox[q]}, q, n + 1, rest - {q};
    }
  }

  lemma SubsetSize(a: set<nat>, b: set<nat>)
    requires a <= b
    ensures |a| <= |b|
  {
    if a != {} {
      var x :| x in a;
      SubsetSize(a - {x}, b - {x});
    }
  }

  /** Reads the rows of one table query, assembles them and copies them to D1. */
  method CopyRows(img: Image, d0: D1, delta: map<RowKey, Row>, cols: nat, batchParams: nat, fault: TableFault)
    returns (d: D1, ok: bool, wm: int, ghost keys: set<RowKey>)
    requires cols > 0
    ensures keys <= delta.Keys && d == d0 + Images(img, delta, keys)
    ensures ok ==> keys == delta.Keys && IsMaxWm(img, delta, wm)
    ensures fault.Clean? ==> ok
  {
    var list;
    ghost var order;
    list, order := ReadRows(img, delta);
    var readable := if fault.Breaks? then fault.readable else |list|;
    var flushes := if fault.Breaks? then fault.flushes else |list|;
    var synced, skipped, statements;
    ghost var done: nat;
    d, synced, skipped, wm, ok, statements, done :=
      SyncTable(d0, list, cols, batchParams, readable, flushes, fault.Breaks? && fault.ranAnyway);
    ApplyIsImages(img, d0, delta, order, list, done);
    keys := FirstKeys(order, done);
    if ok {
      MaxWmIsMax(img, delta, order, list);
      assert order[..done] == order;
    }
  }

  // ----- A deletion the daemon refuses -----

  /** A drain stops before the first row that is refused. */
  ghost predicate Refuses(s: Sys, e: Event) {
    e.Drain? ==> forall q <- s.outbox :: q > s.st.deleteSeq && !Deletable(s.outbox[q]) ==> e.upTo < q && forall t <- e.tried :: t < q
  }

  ghost predicate RefusesRun(img: Image, s: Sys, es: seq<Event>)
    decreases |es|
  {
    es == [] || (Refuses(s, es[0]) && RefusesRun(img, Step(img, s, es[0]), es[1..]))
  }

  lemma {:induction false} RefusesSnoc(img: Image, s: Sys, es: seq<Event>, e: Event)
    requires RefusesRun(img, s, es) && Refuses(Run(img, s, es), e)
    ensures RefusesRun(img, s, es + [e])
    decreases |es|
  {
    if es == [] {
      assert es + [e] == [e] && [e][1..] == [];
    } else {
      assert (es + [e])[1..] == es[1..] + [e];
      RefusesSnoc(img, Step(img, s, es[0]), es[1..], e);
    }
  }

  /** Outbox row `q` is refused, and every cursor is before it. */
  ghost predicate Stuck(s: Sys, q: nat) {
    && q in s.outbox && q in s.issued && !Deletable(s.outbox[q])
    && (forall c <- Cursors(s) :: c.deleteSeq < q) && (s.phase != Idle ==> s.maxSeq < q)
  }

  lemma StuckStep(img: Image, s: Sys, e: Event, q: nat)
    requires Stuck(s, q) && Enabled(img, s, e) && Refuses(s, e)
    ensures Stuck(Step(img, s, e), q)
    ensures forall x :: x >= q ==> (x in Step(img, s, e).applied <==> x in s.applied)
  {
    assert s.st in Cursors(s);
    if e.Drain? {
      StuckDrain(img, s, e, q);
    }
  }

  lemma StuckDrain(img: Image, s: Sys, e: Event, q: nat)
    requires Stuck(s, q) && Enabled(img, s, e) && Refuses(s, e) && e.Drain?
    ensures Stuck(Step(img, s, e), q)
    ensures forall x :: x >= q ==> (x in Step(img, s, e).applied <==> x in s.applied)
  {
    assert s.st in Cursors(s);
    forall x | x >= q
      ensures x !in Executed(s, e.upTo, e.tried)
    {
    }
  }

  /** One refused row blocks all that come after it: through any number of ticks, failures and
      restarts it stays in the outbox and no deletion behind it is executed. */
  lemma {:induction false} RefusedBlocksForever(img: Image, s: Sys, es: seq<Event>, q: nat)
    requires Stuck(s, q) && Allowed(Free, img, s, es) && RefusesRun(img, s, es)
    ensures Stuck(Run(img, s, es), q)
    ensures forall x :: x >= q ==> (x in Run(img, s, es).applied <==> x in s.applied)
    decreases |es|
  {
    if es != [] {
      StuckStep(img, s, es[0], q);
      RefusedBlocksForever(img, Step(img, s, es[0]), es[1..], q);
    }
  }

  // ----- The tick -----

  /** `next` is what `now` becomes by the events `es` of a tick that has not committed yet. */
  ghost predicate Leads(img: Image, now: Sys, es: seq<Event>, next: Sys) {
    && Allowed(InStep, img, now, es) && Run(img, now, es) == next && RefusesRun(img, now, es)
    && (forall e <- es :: !e.Put? && !e.Remove? && !e.Restart? && !e.Commit?)
  }

  lemma LeadsOn(img: Image, a: Sys, es: seq<Event>, b: Sys, e: Event)
    requires Leads(img, a, es, b) && Enabled(img, b, e) && !e.Put? && !e.Remove? && !e.Restart? && !e.Commit? && Refuses(b, e)
    ensures Leads(img, a, es + [e], Step(img, b, e))
  {
    RefusesSnoc(img, a, es, e);
    var es', s' := Then(InStep, img, a, es, b, e);
  }

  lemma LeadsCopy(img: Image, a: Sys, es: seq<Event>, b: Sys, t: string, keys: set<RowKey>, ok: bool, wm: int)
    requires Leads(img, a, es, b) && b.phase == Tables && b.snap == map[]
    requires var delta := Delta(b.pg, t, b.st.watermark); keys <= delta.Keys && (ok ==> keys == delta.Keys && IsMaxWm(img, delta, wm))
    ensures var read := b.(snap := Delta(b.pg, t, b.st.watermark));
            Leads(img, a, es + [Query(t)] + [Event.Copy(keys, ok, wm)], Step(img, read, Event.Copy(keys, ok, wm)))
  {
    LeadsOn(img, a, es, b, Query(t));
    LeadsOn(img, a, es + [Query(t)], b.(snap := Delta(b.pg, t, b.st.watermark)), Event.Copy(keys, ok, wm));
  }

  /** The rows of the tables read so far that are newer than the watermark. */
  function Newer(pg: map<RowKey, Row>, names: set<string>, since: int): map<RowKey, Row> {
    map k | k in pg && k.table in names && pg[k].updatedAt > since :: pg[k]
  }

  lemma NewerNext(pg: map<RowKey, Row>, names: set<string>, t: string, since: int)
    ensures Newer(pg, names, since) + Delta(pg, t, since) == Newer(pg, names + {t}, since)
  {
  }

  function AllImages(img: Image, rows: map<RowKey, Row>): D1 { Images(img, rows, rows.Keys) }

  lemma ImagesPlus(img: Image, d: D1, pg: map<RowKey, Row>, a: map<RowKey, Row>, b: map<RowKey, Row>)
    requires forall k <- a :: k in pg && a[k] == pg[k]
    requires forall k <- b :: k in pg && b[k] == pg[k]
    ensures d + AllImages(img, a) + AllImages(img, b) == d + AllImages(img, a + b)
  {
  }

  function Names(tables: seq<Table>): set<string> { set t <- tables :: t.name }

  lemma NamesNext(tables: seq<Table>, i: nat)
    requires i < |tables|
    ensures Names(tables[..i + 1]) == Names(tables[..i]) + {tables[i].name}
  {
    assert tables[..i + 1] == tables[..i] + [tables[i]];
  }

  /** After reading the tables `names` without a failure: what was copied, and the watermark. */
  ghost predicate Read(img: Image, s: Sys, d0: D1, names: set<string>) {
    var rows := Newer(s.pg, names, s.st.watermark);
    && s.copied == rows && s.d1 == d0 + AllImages(img, rows)
    && (forall k <- rows :: img(k, rows[k].cols).Some? ==> rows[k].updatedAt <= s.maxWm)
  }

  lemma {:induction false} ReadNext(img: Image, s: Sys, s': Sys, d0: D1, names: set<string>, t: string, wm: int)
    requires Read(img, s, d0, names)
    requires var delta := Delta(s.pg, t, s.st.watermark);
             s'.pg == s.pg && s'.st == s.st && s'.maxWm == Max(s.maxWm, wm) && s'.copied == s.copied + delta &&
             s'.d1 == s.d1 + AllImages(img, delta) && IsMaxWm(img, delta, wm)
    ensures Read(img, s', d0, names + {t})
  {
    var rows, delta := Newer(s.pg, names, s.st.watermark), Delta(s.pg, t, s.st.watermark);
    NewerNext(s.pg, names, t, s.st.watermark);
    ImagesPlus(img, d0, s.pg, rows, delta);
  }

  /** Every row of the tables `names` that is newer than the watermark was copied in this tick. */
  ghost predicate Brought(s: Sys, names: set<string>) {
    forall k <- s.pg :: k.table in names && s.pg[k].updatedAt > s.st.watermark ==> k in s.copied && s.copied[k] == s.pg[k]
  }

  lemma BroughtNext(s: Sys, s': Sys, names: set<string>, t: string, keys: set<RowKey>, ok: bool)
    requires Brought(s, names) && s'.pg == s.pg && s'.st == s.st
    requires var delta := Delta(s.pg, t, s.st.watermark); s'.copied == s.copied + Restrict(delta, keys) && (ok ==> keys == delta.Keys)
    ensures Brought(s', if ok then names + {t} else names)
  {
  }

  function CleanNames(tables: seq<Table>, faults: Faults): set<string> {
    set t <- tables | FaultOf(faults, t.name).Clean? :: t.name
  }

  lemma CleanNext(tables: seq<Table>, i: nat, faults: Faults)
    requires i < |tables|
    ensures CleanNames(tables[..i + 1], faults)
         == CleanNames(tables[..i], faults) + if FaultOf(faults, tables[i].name).Clean? then {tables[i].name} else {}
  {
    assert tables[..i + 1] == tables[..i] + [tables[i]];
  }

  lemma BroughtFewer(s: Sys, names: set<string>, fewer: set<string>)
    requires Brought(s, names) && fewer <= names
    ensures Brought(s, fewer)
  {
  }

  /** The parts of an undisturbed tick make up `TickD1`. */
  lemma CleanD1(img: Image, s0: Sys, s: Sys, names: set<string>, m: nat)
    requires Read(img, s, s0.d1, names) && forall k <- s0.pg :: k.table in names
    requires s.pg == s0.pg && s.st == s0.st && s.outbox == s0.outbox && After(s.outbox, m) == {}
    ensures s.d1 - Gone(s.outbox, s.st.deleteSeq, m, {}) == TickD1(img, s0)
  {
    var rows := Newer(s.pg, names, s.st.watermark);
    var newer := map k | k in s0.pg && s0.pg[k].updatedAt > s0.st.watermark && img(k, s0.pg[k].cols).Some? :: img(k, s0.pg[k].cols).value;
    assert AllImages(img, rows) == newer;
    forall q <- s.outbox ensures q <= m {
      assert q > m ==> q in After(s.outbox, m);
    }
    assert Gone(s.outbox, s.st.deleteSeq, m, {}) == set q | q in s0.outbox && q > s0.st.deleteSeq :: s0.outbox[q];
  }

  lemma {:induction false} StrictWithoutCommit(img: Image, s: Sys, es: seq<Event>)
    requires Allowed(InStep, img, s, es) && forall e <- es :: !e.Commit?
    ensures Allowed(Strict, img, s, es)
    decreases |es|
  {
    if es != [] {
      StrictWithoutCommit(img, Step(img, s, es[0]), es[1..]);
    }
  }

  /** Nothing fails, the specs cover the source's tables, and every outbox row can be executed. */
  ghost predicate Undisturbed(faults: Faults, pg: map<RowKey, Row>, outbox: map<nat, RowKey>, tables: seq<Table>) {
    faults.NoFailure? && (forall k <- pg :: k.table in Names(tables)) && forall q <- outbox :: Deletable(outbox[q])
  }

  lemma ReadMissesNone(img: Image, s: Sys, names: set<string>)
    requires s.copied == Newer(s.pg, names, s.st.watermark) && forall k <- s.pg :: k.table in names
    ensures NoneMissed(img, s)
  {
  }

  lemma DrainStep(img: Image, s: Sys, m: nat, tried: set<nat>)
    ensures var s' := Step(img, s, Drain(m, tried));
            s' == s.(d1 := s.d1 - Gone(s.outbox, s.st.deleteSeq, m, tried), applied := s'.applied, maxSeq := m, phase := Drained)
  {
    var done, gone := Executed(s, m, tried), Gone(s.outbox, s.st.deleteSeq, m, tried);
    forall k <- gone ensures k in done.Values {
      var q :| q in s.outbox && (s.st.deleteSeq < q <= m || q in tried) && s.outbox[q] == k;
      assert done[q] == k;
    }
    assert done.Values == gone;
  }

  lemma CopyStep(img: Image, s: Sys, delta: map<RowKey, Row>, keys: set<RowKey>, ok: bool, wm: int)
    ensures var s' := Step(img, s.(snap := delta), Event.Copy(keys, ok, wm));
            s' == s.(snap := map[], copied := s.copied + Restrict(delta, keys), d1 := s.d1 + Images(img, delta, keys),
                     maxWm := if ok then Max(s.maxWm, wm) else s.maxWm)
  {
  }

  lemma LeadsDrain(img: Image, a: Sys, es: seq<Event>, b: Sys, m: nat, tried: set<nat>)
    requires Leads(img, a, es, b) && Enabled(img, b, Event.Drain(m, tried)) && Refuses(b, Event.Drain(m, tried))
    ensures Leads(img, a, es + [Event.Drain(m, tried)], Step(img, b, Event.Drain(m, tried)))
  {
    LeadsOn(img, a, es, b, Event.Drain(m, tried));
  }

  lemma {:induction false} CommitStep(img: Image, s: Sys, persisted: bool)
    ensures var s' := Step(img, s, Commit(persisted)); var c := Cursor(s.maxWm, s.maxSeq);
            var moves := s.maxWm > s.st.watermark || s.maxSeq > s.st.deleteSeq;
            && s'.pg == s.pg && s'.outbox == s.outbox && s'.d1 == s.d1 && s'.phase == Idle
            && s'.st == (if moves then c else s.st)
            && s'.saved == (if moves && persisted then s.saved + {c} else s.saved)
  {
    if s.maxWm > s.st.watermark || s.maxSeq > s.st.deleteSeq {
      var s' := Step(img, s, Commit(persisted));
      assert s' == s.(st := Cursor(s.maxWm, s.maxSeq), saved := if persisted then s.saved + {Cursor(s.maxWm, s.maxSeq)} else s.saved, phase := Idle);
    } else {
      assert Step(img, s, Commit(persisted)) == s.(phase := Idle);
    }
  }

  /** The cursor a start takes from the state file, which may be absent or unreadable: zero then, and
      the `--since` flag in place of a zero watermark. */
  function Resumes(file: Option<Cursor>, since: int): Cursor {
    var c := if file.Some? then file.value else Cursor(0, 0);
    if c.watermark == 0 && since > 0 then c.(watermark := since) else c
  }

  predicate SaveOk(faults: Faults) {
    faults.NoFailure? || faults.saveOk
  }

  class Daemon {
    // the source, D1, the daemon's memory, its state file and its flag
    var pg: map<RowKey, Row>
    var outbox: map<nat, RowKey>
    var d1: D1
    var st: Cursor
    var file: Option<Cursor>
    const since: int
    /** the machine state that these fields are part of */
    ghost var sys: Sys

    ghost predicate Valid()
      reads this
    {
      && Synced()
      && Resumes(file, since) in sys.saved && (file.Some? ==> Resumes(file, since) == file.value)
      && (since > 0 ==> st.watermark > 0 && Resumes(file, since).watermark > 0)
    }

    ghost predicate Synced()
      reads this
    {
      sys.pg == pg && sys.outbox == outbox && sys.d1 == d1 && sys.st == st
    }

    /** A first start, without a state file. */
    constructor (since: int, pg: map<RowKey, Row>, d1: D1, ghost s: Sys)
      requires s.pg == pg && s.outbox == map[] && s.d1 == d1
      requires s.st == Cursor(if since > 0 then since else 0, 0) && s.st in s.saved
      ensures Valid() && sys == s && file == None
    {
      this.since, this.pg, this.outbox, this.d1, this.sys := since, pg, map[], d1, s;
      st, file := Cursor(if since > 0 then since else 0, 0), None;
    }

    /** Any later start: the daemon goes on from the state file. In the machine: a restart from a
        cursor that was saved. */
    method Start(img: Image)
      requires Valid()
      modifies `st, `sys
      ensures Valid() && Enabled(img, old(sys), Restart(st)) && sys == Step(img, old(sys), Restart(st))
      ensures st == if file.Some? then file.value else Cursor(if since > 0 then since else 0, 0)
    {
      var c := if file.Some? then file.value else Cursor(0, 0);
      if c.watermark == 0 && since > 0 {
        c := Cursor(since, c.deleteSeq);
      }
      st := c;
      sys := Step(img, sys, Restart(c));
    }

    /** The query and the copy of one table, as steps of the machine. */
    method CopyTable(img: Image, t: Table, batchParams: nat, fault: TableFault) returns (ok: bool, wm: int, ghost keys: set<RowKey>)
      requires Synced() && sys.snap == map[] && t.cols > 0
      modifies `d1, `sys
      ensures Synced() && keys <= Delta(pg, t.name, st.watermark).Keys
      ensures ok ==> keys == Delta(pg, t.name, st.watermark).Keys && IsMaxWm(img, Delta(pg, t.name, st.watermark), wm)
      ensures sys == Step(img, old(sys).(snap := Delta(pg, t.name, st.watermark)), Event.Copy(keys, ok, wm))
      ensures fault.Clean? ==> ok
    {
      ghost var was := sys;
      d1, ok, wm, keys := CopyRows(img, d1, Delta(pg, t.name, st.watermark), t.cols, batchParams, fault);
      CopyStep(img, was, Delta(pg, t.name, st.watermark), keys, ok, wm);
      sys := Step(img, was.(snap := Delta(pg, t.name, st.watermark)), Event.Copy(keys, ok, wm));
    }

    /** One iteration of the loop over the tables. */
    method SyncOne(img: Image, t: Table, batchParams: nat, fault: TableFault, ghost start: Sys, ghost es: seq<Event>, ghost names: set<string>)
      returns (ok: bool, wm: int, ghost es': seq<Event>)
      requires Brought(sys, names)
      requires Synced() && sys.phase == Tables && sys.snap == map[] && t.cols > 0 && Leads(img, start, es, sys)
      modifies `d1, `sys
      ensures Synced() && sys.phase == Tables && sys.snap == map[] && Leads(img, start, es', sys)
      ensures sys.saved == old(sys.saved) && sys.maxSeq == old(sys.maxSeq)
      ensures sys.maxWm == if ok then Max(old(sys.maxWm), wm) else old(sys.maxWm)
      ensures ok ==> IsMaxWm(img, Delta(pg, t.name, st.watermark), wm)
      ensures ok ==> sys.copied == old(sys.copied) + Delta(pg, t.name, st.watermark)
      ensures ok ==> d1 == old(d1) + AllImages(img, Delta(pg, t.name, st.watermark))
      ensures (fault.Clean? ==> ok) && Brought(sys, if ok then names + {t.name} else names)
    {
      ghost var was, delta := sys, Delta(pg, t.name, st.watermark);
      ok, wm, es' := false, 0, es;
      if fault.QueryFails? {
        return;
      }
      ghost var keys;
      ok, wm, keys := CopyTable(img, t, batchParams, fault);
      CopyStep(img, was, delta, keys, ok, wm);
      LeadsCopy(img, start, es, was, t.name, keys, ok, wm);
      assert Restrict(delta, delta.Keys) == delta;
      BroughtNext(was, sys, names, t.name, keys, ok);
      es' := es + [Query(t.name)] + [Event.Copy(keys, ok, wm)];
    }

    method SyncTables(img: Image, tables: seq<Table>, batchParams: nat, faults: Faults, ghost start: Sys, ghost es: seq<Event>)
      returns (maxWm: int, ghost es': seq<Event>)
      requires Synced() && sys.phase == Tables && sys.snap == map[] && Leads(img, start, es, sys)
      requires sys.copied == map[] && sys.maxWm == st.watermark && forall t <- tables :: t.cols > 0
      modifies `d1, `sys
      ensures Synced() && sys.phase == Tables && sys.snap == map[] && Leads(img, start, es', sys)
      ensures sys.saved == old(sys.saved) && sys.maxSeq == old(sys.maxSeq) && maxWm == sys.maxWm >= st.watermark
      ensures faults.NoFailure? ==> Read(img, sys, old(d1), Names(tables))
      ensures Brought(sys, CleanNames(tables, faults))
    {
      maxWm, es' := st.watermark, es;
      assert tables[..0] == [] && Names([]) == {};
      assert Newer(pg, {}, st.watermark) == map[] && AllImages(img, map[]) == map[];
      for i := 0 to |tables|
        invariant Synced() && sys.phase == Tables && sys.snap == map[] && Leads(img, start, es', sys)
        invariant sys.saved == old(sys.saved) && sys.maxSeq == old(sys.maxSeq) && maxWm == sys.maxWm >= st.watermark
        invariant faults.NoFailure? ==> Read(img, sys, old(d1), Names(tables[..i]))
        invariant Brought(sys, CleanNames(tables[..i], faults))
      {
        ghost var was := sys;
        var ok, wm;
        ok, wm, es' := SyncOne(img, tables[i], batchParams, FaultOf(faults, tables[i].name), start, es', CleanNames(tables[..i], faults));
        if ok && wm > maxWm {
          maxWm := wm;
        }
        NamesNext(tables, i);
        CleanNext(tables, i, faults);
        BroughtFewer(sys, CleanNames(tables[..i], faults) + (if ok then {tables[i].name} else {}), CleanNames(tables[..i + 1], faults));
        if faults.NoFailure? {
          ReadNext(img, was, sys, old(d1), Names(tables[..i]), tables[i].name, wm);
        }
      }
      assert tables[..|tables|] == tables;
    }

    /** The drain, as a step of the machine. */
    method DrainOutbox(img: Image, faults: Faults) returns (maxSeq: nat, tried: set<nat>)
      requires Synced() && sys.phase == Tables && sys.snap == map[]
      modifies `d1, `sys
      ensures Synced() && sys == Step(img, old(sys), Event.Drain(maxSeq, tried))
      ensures Enabled(img, old(sys), Event.Drain(maxSeq, tried)) && Refuses(old(sys), Event.Drain(maxSeq, tried))
      ensures faults.NoFailure? && (forall q <- outbox :: Deletable(outbox[q])) ==> tried == {} && After(outbox, maxSeq) == {}
    {
      d1, maxSeq, tried := DrainDeletes(d1, outbox, st.deleteSeq, if faults.Faults? then faults.deletes else |outbox|,
                                        faults.Faults? && faults.ranAnyway);
      DrainStep(img, sys, maxSeq, tried);
      sys := Step(img, sys, Event.Drain(maxSeq, tried));
    }

    method Drain(img: Image, faults: Faults, ghost start: Sys, ghost es: seq<Event>)
      returns (maxSeq: nat, ghost es': seq<Event>)
      requires Synced() && sys.phase == Tables && sys.snap == map[] && Leads(img, start, es, sys)
      modifies `d1, `sys
      ensures Synced() && sys.phase == Drained && Leads(img, start, es', sys)
      ensures sys.copied == old(sys.copied) && sys.maxWm == old(sys.maxWm) && sys.maxSeq == maxSeq && sys.saved == old(sys.saved)
      ensures faults.NoFailure? && (forall q <- outbox :: Deletable(outbox[q])) ==>
                After(outbox, maxSeq) == {} && d1 == old(d1) - Gone(outbox, st.deleteSeq, maxSeq, {})
    {
      ghost var was := sys;
      var tried;
      maxSeq, tried := DrainOutbox(img, faults);
      DrainStep(img, was, maxSeq, tried);
      LeadsDrain(img, start, es, was, maxSeq, tried);
      es' := es + [Event.Drain(maxSeq, tried)];
    }

    /** The first half of a tick: copy the tables, then drain the deletions. */
    method CopyAndDrain(img: Image, tables: seq<Table>, batchParams: nat, faults: Faults)
      returns (maxWm: int, maxSeq: nat, ghost es: seq<Event>)
      requires Synced() && sys.phase == Idle && forall t <- tables :: t.cols > 0
      modifies `d1, `sys
      ensures Synced() && sys.saved == old(sys.saved) && sys.phase == Drained && Leads(img, old(sys), es, sys)
      ensures maxWm == sys.maxWm >= st.watermark && maxSeq == sys.maxSeq
      ensures Undisturbed(faults, pg, outbox, tables) ==> d1 == TickD1(img, old(sys)) && NoneMissed(img, sys)
    {
      ghost var start, before := sys, d1;
      LeadsOn(img, start, [], sys, Begin);
      sys, es := Step(img, sys, Begin), [] + [Begin];
      maxWm, es := SyncTables(img, tables, batchParams, faults, start, es);
      ghost var mid := sys;
      maxSeq, es := Drain(img, faults, start, es);
      if Undisturbed(faults, pg, outbox, tables) {
        CleanD1(img, start, mid, Names(tables), maxSeq);
        ReadMissesNone(img, sys, Names(tables));
      }
    }

    /** The cursor moves in memory; the state file follows unless the save fails. */
    method CommitCursor(img: Image, maxWm: int, maxSeq: nat, saveOk: bool)
      requires Valid() && sys.phase == Drained && maxWm == sys.maxWm >= st.watermark && maxSeq == sys.maxSeq
      modifies `st, `file, `sys
      ensures Valid() && sys == Step(img, old(sys), Commit(saveOk))
      ensures var moves := maxWm > old(st.watermark) || maxSeq > old(st.deleteSeq);
              && st == (if moves then Cursor(maxWm, maxSeq) else old(st))
              && file == if moves && saveOk then Some(Cursor(maxWm, maxSeq)) else old(file)
    {
      CommitStep(img, sys, saveOk);
      if maxWm > st.watermark || maxSeq > st.deleteSeq {
        st := Cursor(maxWm, maxSeq);
        file := if saveOk then Some(st) else file;
      }
      sys := Step(img, sys, Commit(saveOk));
    }

    method PruneOutbox(img: Image)
      requires Valid()
      modifies `outbox, `sys
      ensures Valid() && sys == Step(img, old(sys), Prune)
      ensures outbox == if st.deleteSeq == 0 then old(outbox) else map q | q in old(outbox) && q > st.deleteSeq :: old(outbox)[q]
    {
      if st.deleteSeq > 0 {
        outbox := map q | q in outbox && q > st.deleteSeq :: outbox[q];
      }
      sys := Step(img, sys, Prune);
    }

    /** One tick. Whatever fails, it is a run of the machine; when nothing does, D1 ends as
        `TickD1` says, and a state that satisfies the invariant ends in agreement. */
    method Tick(img: Image, tables: seq<Table>, batchParams: nat, faults: Faults) returns (ghost es: seq<Event>)
      requires Valid() && sys.phase == Idle && forall t <- tables :: t.cols > 0
      modifies `d1, `outbox, `st, `file, `sys
      ensures Valid() && sys.phase == Idle && st.watermark >= old(st.watermark)
      ensures file == if st != old(st) && SaveOk(faults) then Some(st) else old(file)
      ensures Allowed(InStep, img, old(sys), es) && sys == Run(img, old(sys), es) && RefusesRun(img, old(sys), es)
      ensures Undisturbed(faults, pg, old(outbox), tables) ==>
                d1 == TickD1(img, old(sys)) && (Inv(img, old(sys)) ==> Inv(img, sys) && Agree(img, sys))
    {
      ghost var start := sys;
      var maxWm, maxSeq;
      ghost var before;
      maxWm, maxSeq, before := CopyAndDrain(img, tables, batchParams, faults);
      ghost var drained := sys;
      es := Conclude(img, maxWm, maxSeq, faults, start, before);
      if Undisturbed(faults, pg, old(outbox), tables) && Inv(img, start) {
        TickKeeps(img, start, before, drained, true);
        TickAgrees(img, start, sys);
      }
    }

    /** The commit, as a step of the run. */
    method CommitRun(img: Image, maxWm: int, maxSeq: nat, saveOk: bool, ghost start: Sys, ghost before: seq<Event>)
      returns (ghost es: seq<Event>)
      requires Valid() && sys.phase == Drained && maxWm == sys.maxWm >= st.watermark && maxSeq == sys.maxSeq && Leads(img, start, before, sys)
      modifies `st, `file, `sys
      ensures Valid() && sys == Step(img, old(sys), Commit(saveOk)) && sys.phase == Idle && sys.pg == old(sys.pg)
      ensures Allowed(InStep, img, start, es) && sys == Run(img, start, es) && RefusesRun(img, start, es)
      ensures st.watermark >= old(st.watermark)
      ensures file == if st != old(st) && saveOk then Some(st) else old(file)
    {
      ghost var drained := sys;
      CommitCursor(img, maxWm, maxSeq, saveOk);
      CommitStep(img, drained, saveOk);
      RefusesSnoc(img, start, before, Commit(saveOk));
      ghost var s;
      es, s := Then(InStep, img, start, before, drained, Commit(saveOk));
    }

    /** The second half of a tick: the cursor moves and the outbox is pruned. */
    method Conclude(img: Image, maxWm: int, maxSeq: nat, faults: Faults, ghost start: Sys, ghost before: seq<Event>)
      returns (ghost es: seq<Event>)
      requires Valid() && sys.phase == Drained && maxWm == sys.maxWm >= st.watermark && maxSeq == sys.maxSeq && Leads(img, start, before, sys)
      modifies `outbox, `st, `file, `sys
      ensures Valid() && sys.phase == Idle && sys.pg == old(sys.pg)
      ensures Allowed(InStep, img, start, es) && sys == Run(img, start, es) && RefusesRun(img, start, es)
      ensures faults.NoFailure? ==> sys == Step(img, Step(img, old(sys), Commit(true)), Prune)
      ensures st.watermark >= old(st.watermark)
      ensures file == if st != old(st) && SaveOk(faults) then Some(st) else old(file)
    {
      es := CommitRun(img, maxWm, maxSeq, SaveOk(faults), start, before);
      if faults.NoFailure? || faults.pruneOk {
        ghost var s := sys;
        PruneOutbox(img);
        RefusesSnoc(img, start, es, Prune);
        es, s := Then(InStep, img, start, es, s, Prune);
      }
    }
  }

  lemma TickKeeps(img: Image, start: Sys, es: seq<Event>, drained: Sys, saveOk: bool)
    requires Inv(img, start) && Leads(img, start, es, drained) && drained.phase == Drained && NoneMissed(img, drained)
    ensures Inv(img, Step(img, drained, Commit(saveOk)))
    ensures Inv(img, Step(img, Step(img, drained, Commit(saveOk)), Prune))
  {
    StrictWithoutCommit(img, start, es);
    InvRun(img, start, es);
    CommitKeeps(img, drained, saveOk);
    PruneKeeps(img, Step(img, drained, Commit(saveOk)));
  }

  lemma TickAgrees(img: Image, start: Sys, end: Sys)
    requires Inv(img, start) && end.pg == start.pg && end.d1 == TickD1(img, start)
    ensures Agree(img, end)
  {
    InvIsRepairable(img, start);
    TickExact(img, start);
    var s := start.(d1 := TickD1(img, start));
    forall k <- end.pg ensures Same(img, end, k) {
      assert Same(img, s, k);
    }
  }
}
