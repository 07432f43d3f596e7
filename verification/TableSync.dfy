/** The copy of one table from PostgreSQL to D1 (`syncTable` and `upsert` in
    cmd/backfill/main.go): each row is assembled, rows are grouped into batches
    bounded by the number of SQL parameters, and every batch is one
    `INSERT ... ON CONFLICT DO UPDATE` statement.

    Watermarks are `int`: the source's float64 seconds are only compared. */
module TableSync {

  /** A D1 cell: a bound parameter, or a blob literal inlined in the SQL text. */
  datatype Cell = Bound(value: string) | Literal(sql: string)

  type D1Row = seq<Cell>

  /** A row's identity: its table and its primary key. */
  datatype RowKey = RowKey(table: string, id: string)

  type D1 = map<RowKey, D1Row>

  /** The verdict of a table's assemble function on one PostgreSQL row. */
  datatype Assembled = Skip | Take(key: RowKey, row: D1Row, wm: int)

  // ----- The reference: one statement per row -----

  /** Copying the rows one at a time, in order. */
  function Apply(d: D1, rows: seq<Assembled>): D1 {
    if rows == [] then d
    else
      var before := Apply(d, rows[..|rows| - 1]);
      match rows[|rows| - 1]
      case Skip => before
      case Take(k, row, _) => before[k := row]
  }

  function Taken(rows: seq<Assembled>): (n: nat)
    ensures n <= |rows|
  {
    if rows == [] then 0
    else Taken(rows[..|rows| - 1]) + if rows[|rows| - 1].Take? then 1 else 0
  }

  /** The largest watermark of the rows that are kept, and 0 when there is none above it. */
  function MaxWm(rows: seq<Assembled>): int {
    if rows == [] then 0
    else
      var before := MaxWm(rows[..|rows| - 1]);
      if rows[|rows| - 1].Take? && rows[|rows| - 1].wm > before then rows[|rows| - 1].wm else before
  }

  lemma {:induction false} ApplyConcat(d: D1, a: seq<Assembled>, b: seq<Assembled>)
    ensures Apply(d, a + b) == Apply(Apply(d, a), b)
  {
    if b == [] {
      assert a + b == a;
    } else {
      var b' := b[..|b| - 1];
      assert (a + b)[..|a + b| - 1] == a + b';
      ApplyConcat(d, a, b');
    }
  }

  /** The index of the last row kept for `k`, or -1. */
  function LastOf(rows: seq<Assembled>, k: RowKey): (i: int)
    ensures -1 <= i < |rows|
    ensures i >= 0 ==> rows[i].Take? && rows[i].key == k
    ensures forall j :: i < j < |rows| && rows[j].Take? ==> rows[j].key != k
  {
    if rows == [] then -1
    else if rows[|rows| - 1].Take? && rows[|rows| - 1].key == k then |rows| - 1
    else LastOf(rows[..|rows| - 1], k)
  }

  /** What the copied table holds: the last kept row of each key, and the old content elsewhere. */
  lemma {:induction false} ApplyAt(d: D1, rows: seq<Assembled>, k: RowKey)
    ensures var i := LastOf(rows, k); var d' := Apply(d, rows);
            if i >= 0 then k in d' && d'[k] == rows[i].row
            else (k in d' <==> k in d) && (k in d ==> d'[k] == d[k])
  {
    if rows != [] {
      ApplyAt(d, rows[..|rows| - 1], k);
    }
  }

  lemma {:induction false} MaxWmAt(rows: seq<Assembled>)
    ensures MaxWm(rows) >= 0
    ensures forall i :: 0 <= i < |rows| && rows[i].Take? ==> rows[i].wm <= MaxWm(rows)
    ensures MaxWm(rows) == 0 || exists i :: 0 <= i < |rows| && rows[i].Take? && rows[i].wm == MaxWm(rows)
  {
    if rows != [] {
      var before := rows[..|rows| - 1];
      MaxWmAt(before);
      forall i | 0 <= i < |rows| && rows[i].Take? ensures rows[i].wm <= MaxWm(rows) {
        if i < |rows| - 1 {
          assert before[i] == rows[i];
        }
      }
    }
  }

  /** Running the copy again after it stopped part-way gives the same table as one full run. */
  lemma ReplayConverges(d: D1, rows: seq<Assembled>, n: nat)
    requires n <= |rows|
    ensures Apply(Apply(d, rows[..n]), rows) == Apply(d, rows)
  {
    var mid := Apply(d, rows[..n]);
    var twice, once := Apply(mid, rows), Apply(d, rows);
    forall k: RowKey | true
      ensures k in twice <==> k in once
      ensures k in once ==> twice[k] == once[k]
    {
      ApplyAt(mid, rows, k);
      ApplyAt(d, rows, k);
      ApplyAt(d, rows[..n], k);
      var i := LastOf(rows[..n], k);
      if i >= 0 {
        assert rows[i] == rows[..n][i];
      }
    }
    assert twice.Keys == once.Keys;
  }

  // ----- The batched copy -----

  function RowsPerBatch(batchParams: nat, cols: nat): (n: nat)
    requires cols > 0
    ensures n > 0
  {
    var q := batchParams / cols;
    if q > 1 then q else 1
  }

  /** The batch size is the largest that keeps a statement within the parameter limit; when
      one row already exceeds the limit, rows go one at a time. */
  lemma RowsPerBatchIsLargest(batchParams: nat, cols: nat)
    requires cols > 0
    ensures var n := RowsPerBatch(batchParams, cols);
            if cols <= batchParams then n * cols <= batchParams < (n + 1) * cols else n == 1
  {
    var q := batchParams / cols;
    assert q * cols <= batchParams < (q + 1) * cols;
    assert q <= 0 ==> q * cols <= 0;
    assert q >= 2 ==> q * cols >= 2 * cols;
  }

  /** All rows of the statements sent, in order. */
  function Concat(statements: seq<seq<Assembled>>): seq<Assembled> {
    if statements == [] then []
    else Concat(statements[..|statements| - 1]) + statements[|statements| - 1]
  }

  /** The variables of the copy loop, and the statements it has sent so far. */
  datatype CopyLoop = CopyLoop(d: D1, batch: seq<Assembled>, synced: nat, skipped: nat, maxWm: int,
                       statements: seq<seq<Assembled>>)

  /** The loop state after the rows `seen`, of which the first `done` are in D1. */
  ghost predicate Tracks(c: CopyLoop, d0: D1, seen: seq<Assembled>, done: nat) {
    && done <= |seen| && c.d == Apply(d0, seen[..done])
    && c.d == Apply(d0, Concat(c.statements))
    && Apply(c.d, c.batch) == Apply(d0, seen)
    && c.synced + |c.batch| == Taken(seen) && c.synced + |c.batch| + c.skipped == |seen|
    && c.maxWm == MaxWm(seen)
    && |c.statements| <= c.synced
  }

  predicate Sized(statements: seq<seq<Assembled>>, perBatch: nat) {
    forall s <- statements :: 0 < |s| <= perBatch
  }

  lemma ApplySnoc(d: D1, rows: seq<Assembled>, row: Assembled)
    ensures Apply(d, rows + [row]) == if row.Skip? then Apply(d, rows) else Apply(d, rows)[row.key := row.row]
  {
    assert (rows + [row])[..|rows|] == rows;
  }

  lemma CountSnoc(rows: seq<Assembled>, row: Assembled)
    ensures Taken(rows + [row]) == Taken(rows) + if row.Take? then 1 else 0
    ensures MaxWm(rows + [row]) == if row.Take? && row.wm > MaxWm(rows) then row.wm else MaxWm(rows)
  {
    assert (rows + [row])[..|rows|] == rows;
  }

  /** One iteration without its flush. */
  method AddRow(c: CopyLoop, row: Assembled, ghost d0: D1, ghost seen: seq<Assembled>, ghost done: nat)
    returns (c': CopyLoop)
    requires Tracks(c, d0, seen, done)
    ensures Tracks(c', d0, seen + [row], done)
    ensures c'.statements == c.statements && |c.batch| <= |c'.batch| <= |c.batch| + 1
    ensures c'.d == c.d
  {
    assert (seen + [row])[..done] == seen[..done];
    ApplySnoc(d0, seen, row);
    CountSnoc(seen, row);
    if row.Skip? {
      c' := c.(skipped := c.skipped + 1);
    } else {
      ApplySnoc(c.d, c.batch, row);
      c' := c.(maxWm := if row.wm > c.maxWm then row.wm else c.maxWm, batch := c.batch + [row]);
    }
  }

  /** `flush`: sends the pending batch. A statement that D1 reports as failed may still have
      run (`ranAnyway`). */
  method Flush(c: CopyLoop, flushes: nat, ranAnyway: bool, ghost d0: D1, ghost seen: seq<Assembled>, ghost done: nat)
    returns (c': CopyLoop, ok: bool, ghost done': nat)
    requires Tracks(c, d0, seen, done)
    ensures Tracks(c', d0, seen, done') && (ok ==> done' == |seen| && c'.batch == [])
    ensures ok <==> c.batch == [] || |c.statements| < flushes
    ensures c'.statements == if c.batch != [] && (ok || ranAnyway) then c.statements + [c.batch] else c.statements
  {
    c', ok, done' := c, true, |seen|;
    assert seen[..|seen|] == seen;
    if |c.batch| > 0 {
      ok := |c.statements| < flushes;
      if ok || ranAnyway {
        ApplyConcat(d0, Concat(c.statements), c.batch);
        assert (c.statements + [c.batch])[..|c.statements|] == c.statements;
        c' := CopyLoop(Apply(c.d, c.batch), [], c.synced + |c.batch|, c.skipped, c.maxWm, c.statements + [c.batch]);
      } else {
        done' := done;
      }
    }
  }

  /** One whole iteration: add the row and flush a full batch. */
  method Advance(c: CopyLoop, row: Assembled, perBatch: nat, flushes: nat, ranAnyway: bool,
                 ghost d0: D1, ghost seen: seq<Assembled>, ghost done: nat)
    returns (c': CopyLoop, ok: bool, ghost done': nat)
    requires Tracks(c, d0, seen, done) && Sized(c.statements, perBatch) && |c.batch| < perBatch
    ensures Tracks(c', d0, seen + [row], done') && Sized(c'.statements, perBatch)
    ensures ok ==> |c'.batch| < perBatch
    ensures !ok ==> flushes <= |seen|
  {
    c' := AddRow(c, row, d0, seen, done);
    ok, done' := true, done;
    if |c'.batch| >= perBatch {
      c', ok, done' := Flush(c', flushes, ranAnyway, d0, seen + [row], done);
    }
  }

  /** `rows` are the query's rows after assembly. `readable` is how many of them can be
      read before the cursor fails and `flushes` how many statements D1 accepts before
      it refuses one; a large value means no failure. */
  method SyncTable(d0: D1, rows: seq<Assembled>, cols: nat, batchParams: nat, readable: nat, flushes: nat, ranAnyway: bool)
    returns (d: D1, synced: nat, skipped: nat, maxWm: int, ok: bool,
             statements: seq<seq<Assembled>>, ghost done: nat)
    requires cols > 0
    ensures done <= |rows| && d == Apply(d0, rows[..done])
    ensures ok ==> done == |rows| && synced == Taken(rows) && synced + skipped == |rows| && maxWm == MaxWm(rows)
    ensures !ok ==> synced == 0 && skipped == 0 && maxWm == 0
    ensures d == Apply(d0, Concat(statements))
    ensures Sized(statements, RowsPerBatch(batchParams, cols))
    ensures readable >= |rows| && flushes >= |rows| ==> ok
  {
    var perBatch := RowsPerBatch(batchParams, cols);
    var c, i;
    c, ok, i, done := CopyAll(d0, rows, perBatch, readable, flushes, ranAnyway);
    ok := ok && i == |rows|;
    if ok {
      assert rows[..i] == rows;
      c, ok, done := Flush(c, flushes, ranAnyway, d0, rows, done);
    }
    assert rows[..i][..done] == rows[..done];
    d, statements := c.d, c.statements;
    synced, skipped, maxWm := if ok then c.synced else 0, if ok then c.skipped else 0, if ok then c.maxWm else 0;
  }

  /** The loop over the rows: it ends at the last row, where the cursor fails, or at a failed flush. */
  method CopyAll(d0: D1, rows: seq<Assembled>, perBatch: nat, readable: nat, flushes: nat, ranAnyway: bool)
    returns (c: CopyLoop, ok: bool, i: nat, ghost done: nat)
    requires perBatch > 0
    ensures i <= |rows| && Tracks(c, d0, rows[..i], done) && Sized(c.statements, perBatch)
    ensures ok ==> |c.batch| < perBatch && (i == |rows| || i == readable)
    ensures !ok ==> flushes < |rows|
  {
    c := CopyLoop(d0, [], 0, 0, 0, []);
    i, ok, done := 0, true, 0;
    while ok && i < |rows| && i != readable
      invariant i <= |rows|
      invariant Tracks(c, d0, rows[..i], done) && Sized(c.statements, perBatch)
      invariant ok ==> |c.batch| < perBatch
      invariant !ok ==> flushes < |rows|
    {
      c, ok, done := Advance(c, rows[i], perBatch, flushes, ranAnyway, d0, rows[..i], done);
      assert rows[..i] + [rows[i]] == rows[..i + 1];
      i := i + 1;
    }
  }

  /** No statement binds more than `batchParams` parameters, as long as one row fits. */
  lemma StatementsFit(statements: seq<seq<Assembled>>, batchParams: nat, cols: nat)
    requires 0 < cols <= batchParams && Sized(statements, RowsPerBatch(batchParams, cols))
    ensures forall s <- statements :: |s| * cols <= batchParams
  {
    RowsPerBatchIsLargest(batchParams, cols);
    forall s <- statements ensures |s| * cols <= batchParams {
      MulMono(|s|, RowsPerBatch(batchParams, cols), cols);
    }
  }

  lemma MulMono(a: nat, b: nat, c: nat)
    requires a <= b
    ensures a * c <= b * c
  {
  }
}
