/** The text of a batched upsert (`upsert` in cmd/backfill/main.go): blob literals are
    inlined, every other cell becomes a `?` and a bound parameter. */
module UpsertSql {
  import opened TableSync

  // ----- How a database reads a statement with parameters -----

  function Marks(s: string): (n: nat) {
    if s == [] then 0 else (if s[0] == '?' then 1 else 0) + Marks(s[1..])
  }

  /** The statement with each `?` replaced, in order, by the next parameter. */
  function Fill(s: string, params: seq<string>): string {
    if s == [] then []
    else if s[0] == '?' && params != [] then params[0] + Fill(s[1..], params[1..])
    else [s[0]] + Fill(s[1..], params)
  }

  lemma {:induction false} MarksConcat(a: string, b: string)
    ensures Marks(a + b) == Marks(a) + Marks(b)
  {
    if a == [] {
      assert a + b == b;
    } else {
      assert (a + b)[1..] == a[1..] + b;
      MarksConcat(a[1..], b);
    }
  }

  lemma {:induction false} FillConcat(a: string, pa: seq<string>, b: string, pb: seq<string>)
    requires Marks(a) == |pa|
    ensures Fill(a + b, pa + pb) == Fill(a, pa) + Fill(b, pb)
  {
    if a == [] {
      assert a + b == b && pa + pb == pb;
    } else {
      assert (a + b)[1..] == a[1..] + b;
      if a[0] == '?' {
        assert (pa + pb)[1..] == pa[1..] + pb;
        FillConcat(a[1..], pa[1..], b, pb);
      } else {
        FillConcat(a[1..], pa, b, pb);
      }
    }
  }

  lemma {:induction false} FillPlain(a: string)
    requires Marks(a) == 0
    ensures Fill(a, []) == a
  {
    if a != [] {
      FillPlain(a[1..]);
    }
  }

  // ----- The statement meant -----

  function Join(parts: seq<string>): string {
    if parts == [] then ""
    else if |parts| == 1 then parts[0]
    else Join(parts[..|parts| - 1]) + ", " + parts[|parts| - 1]
  }

  function CellValue(c: Cell): string {
    if c.Bound? then c.value else c.sql
  }

  function RowValues(row: D1Row): string {
    "(" + Join(seq(|row|, i requires 0 <= i < |row| => CellValue(row[i]))) + ")"
  }

  function BatchValues(batch: seq<D1Row>): string {
    Join(seq(|batch|, i requires 0 <= i < |batch| => RowValues(batch[i])))
  }

  function Clause(col: string): string {
    col + " = excluded." + col
  }

  function SetClauses(cols: seq<string>, pk: seq<string>): seq<string> {
    if cols == [] then []
    else
      var before := SetClauses(cols[..|cols| - 1], pk);
      var col := cols[|cols| - 1];
      if col in pk then before else before + [Clause(col)]
  }

  ghost predicate Ascending(at: seq<nat>) {
    forall i, j :: 0 <= i < j < |at| ==> at[i] < at[j]
  }

  /** The clauses are those of the columns outside the key, in their order; `at` are their places. */
  ghost predicate SetsAt(cols: seq<string>, pk: seq<string>, sets: seq<string>, at: seq<nat>) {
    && |at| == |sets| && Ascending(at)
    && (forall i :: 0 <= i < |at| ==> at[i] < |cols| && cols[at[i]] !in pk && sets[i] == cols[at[i]] + " = excluded." + cols[at[i]])
    && (forall k :: 0 <= k < |cols| && cols[k] !in pk ==> k in at)
  }

  lemma SetsSkip(before: seq<string>, col: string, pk: seq<string>, sets: seq<string>, at: seq<nat>)
    requires SetsAt(before, pk, sets, at) && col in pk
    ensures SetsAt(before + [col], pk, sets, at)
  {
  }

  lemma SetsTake(before: seq<string>, col: string, pk: seq<string>, sets: seq<string>, at: seq<nat>)
    requires SetsAt(before, pk, sets, at) && col !in pk
    ensures SetsAt(before + [col], pk, sets + [Clause(col)], at + [|before|])
  {
    var at', cols := at + [|before|], before + [col];
    assert at'[|at|] == |before|;
    forall k | 0 <= k < |cols| && cols[k] !in pk
      ensures k in at'
    {
      if k < |before| { assert cols[k] == before[k] && k in at; }
    }
  }

  /** An upsert updates every column that is not part of the key, and no other. */
  lemma {:induction false} SetsExactly(cols: seq<string>, pk: seq<string>) returns (at: seq<nat>)
    ensures SetsAt(cols, pk, SetClauses(cols, pk), at)
  {
    if cols == [] {
      at := [];
    } else {
      var before, col := cols[..|cols| - 1], cols[|cols| - 1];
      at := SetsExactly(before, pk);
      assert cols == before + [col];
      if col in pk {
        SetsSkip(before, col, pk, SetClauses(before, pk), at);
      } else {
        SetsTake(before, col, pk, SetClauses(before, pk), at);
        at := at + [|before|];
      }
    }
  }

  function Head(table: string, cols: seq<string>): string {
    "INSERT INTO " + table + " (" + Join(cols) + ") VALUES "
  }

  function Tail(cols: seq<string>, pk: seq<string>): string {
    " ON CONFLICT(" + Join(pk) + ") DO UPDATE SET " + Join(SetClauses(cols, pk))
  }

  // ----- The builder -----

  /** The loop over the columns. */
  method BuildSets(cols: seq<string>, pk: seq<string>) returns (sets: seq<string>)
    ensures sets == SetClauses(cols, pk)
  {
    sets := [];
    for i := 0 to |cols|
      invariant sets == SetClauses(cols[..i], pk)
    {
      assert cols[..i + 1][..i] == cols[..i];
      if cols[i] !in pk {
        sets := sets + [Clause(cols[i])];
      }
    }
    assert cols[..|cols|] == cols;
  }

  /** A partly built statement. */
  datatype Built = Built(sql: string, params: seq<string>)

  /** `b` has as many placeholders as parameters and reads as `text`. */
  ghost predicate Reads(b: Built, text: string) {
    Marks(b.sql) == |b.params| && Fill(b.sql, b.params) == text
  }

  lemma Extend(b: Built, text: string, piece: string)
    requires Reads(b, text) && Marks(piece) == 0
    ensures Reads(Built(b.sql + piece, b.params), text + piece)
  {
    MarksConcat(b.sql, piece);
    FillConcat(b.sql, b.params, piece, []);
    FillPlain(piece);
    assert b.params + [] == b.params;
  }

  lemma ExtendMark(b: Built, text: string, v: string)
    requires Reads(b, text)
    ensures Reads(Built(b.sql + "?", b.params + [v]), text + v)
  {
    MarksConcat(b.sql, "?");
    FillConcat(b.sql, b.params, "?", [v]);
    assert Fill("?"[1..], [v][1..]) == "" && Fill("?", [v]) == v + "";
  }

  predicate PlainRow(row: D1Row) {
    forall c <- row :: c.Literal? ==> Marks(c.sql) == 0
  }

  method AddCell(b: Built, c: Cell, ghost text: string) returns (b': Built)
    requires Reads(b, text) && (c.Literal? ==> Marks(c.sql) == 0)
    ensures Reads(b', text + CellValue(c))
    ensures b'.params == b.params + if c.Bound? then [c.value] else []
  {
    if c.Literal? {
      Extend(b, text, c.sql);
      b' := Built(b.sql + c.sql, b.params);
    } else {
      ExtendMark(b, text, c.value);
      b' := Built(b.sql + "?", b.params + [c.value]);
    }
  }

  method AddCells(b: Built, row: D1Row, ghost text: string) returns (b': Built)
    requires Reads(b, text) && PlainRow(row)
    ensures Reads(b', text + Join(seq(|row|, i requires 0 <= i < |row| => CellValue(row[i]))))
    ensures |b'.params| == |b.params| + |Bounds(row)| && b'.params == b.params + Bounds(row)
  {
    b' := b;
    ghost var values := seq(|row|, i requires 0 <= i < |row| => CellValue(row[i]));
    assert text + "" == text;
    for j := 0 to |row|
      invariant Reads(b', text + Join(values[..j]))
      invariant b'.params == b.params + Bounds(row[..j])
    {
      JoinNext(values, j, text);
      BoundsNext(row, j, b.params);
      ghost var t := text + Join(values[..j]);
      if j > 0 {
        Extend(b', t, ", ");
        b' := Built(b'.sql + ", ", b'.params);
        t := t + ", ";
      }
      b' := AddCell(b', row[j], t);
    }
    assert values[..|row|] == values && row[..|row|] == row;
  }

  /** The bound values of a row, in column order. */
  function Bounds(row: D1Row): seq<string> {
    if row == [] then []
    else
      var before := Bounds(row[..|row| - 1]);
      var c := row[|row| - 1];
      if c.Bound? then before + [c.value] else before
  }

  lemma BoundsNext(row: D1Row, i: nat, head: seq<string>)
    requires i < |row|
    ensures head + Bounds(row[..i + 1]) == head + Bounds(row[..i]) + if row[i].Bound? then [row[i].value] else []
  {
    assert row[..i + 1][..i] == row[..i];
  }

  /** One value more in a list. */
  lemma JoinNext(values: seq<string>, i: nat, head: string)
    requires i < |values|
    ensures head + Join(values[..i + 1]) == (if i > 0 then head + Join(values[..i]) + ", " else head) + values[i]
  {
    assert values[..i + 1][..i] == values[..i];
    if i == 0 { assert head + values[0] == head + ("" + values[0]); }
  }

  /** The statement of a batch with its values in place. */
  function Statement(table: string, cols: seq<string>, pk: seq<string>, batch: seq<D1Row>): string {
    Head(table, cols) + BatchValues(batch) + Tail(cols, pk)
  }

  /** The rows of the VALUES list. */
  method AddRows(b: Built, batch: seq<D1Row>, ghost head: string) returns (b': Built)
    requires Reads(b, head) && forall i :: 0 <= i < |batch| ==> PlainRow(batch[i])
    ensures Reads(b', head + BatchValues(batch))
  {
    b' := b;
    ghost var values := seq(|batch|, i requires 0 <= i < |batch| => RowValues(batch[i]));
    assert head + "" == head;
    for i := 0 to |batch|
      invariant Reads(b', head + Join(values[..i]))
    {
      JoinNext(values, i, head);
      if i > 0 {
        Extend(b', head + Join(values[..i]), ", ");
        b' := Built(b'.sql + ", ", b'.params);
      } else {
        assert values[..0] == [];
      }
      b' := AddRow(b', batch[i], if i > 0 then head + Join(values[..i]) + ", " else head);
    }
    assert values[..|batch|] == values;
  }

  /** The statement sent has exactly one placeholder for each bound parameter, and with the
      parameters filled in it is the plain multi-row upsert of the batch. */
  method BuildUpsert(table: string, cols: seq<string>, pk: seq<string>, batch: seq<D1Row>)
    returns (sql: string, params: seq<string>)
    requires Marks(Head(table, cols)) == 0 && Marks(Tail(cols, pk)) == 0
    requires forall i :: 0 <= i < |batch| ==> PlainRow(batch[i])
    ensures Marks(sql) == |params|
    ensures Fill(sql, params) == Statement(table, cols, pk, batch)
  {
    var b := Built(Head(table, cols), []);
    FillPlain(b.sql);
    b := AddRows(b, batch, Head(table, cols));
    Extend(b, Head(table, cols) + BatchValues(batch), Tail(cols, pk));
    var sets := BuildSets(cols, pk);
    sql, params := b.sql + (" ON CONFLICT(" + Join(pk) + ") DO UPDATE SET " + Join(sets)), b.params;
  }

  method AddRow(b: Built, row: D1Row, ghost text: string) returns (b': Built)
    requires Reads(b, text) && PlainRow(row)
    ensures Reads(b', text + RowValues(row))
  {
    Extend(b, text, "(");
    var b1 := AddCells(Built(b.sql + "(", b.params), row, text + "(");
    ghost var t := text + "(" + Join(seq(|row|, i requires 0 <= i < |row| => CellValue(row[i])));
    Extend(b1, t, ")");
    b' := Built(b1.sql + ")", b1.params);
    assert t + ")" == text + RowValues(row);
  }
}
