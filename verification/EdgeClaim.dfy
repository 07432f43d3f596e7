/** Warm boxes claimed at the edge: the control plane's rows (internal/api/edge_claim.go,
    internal/db/pool.go) and the edge's stock (cloudflare-workers/api-edge/src/pool_stock.ts), with
    every message between them in flight for as long as it likes, or lost. */
module EdgeClaim {

  type Box = string
  type Org = string

  /** `Bound` stands for every status after the claim but 'stopped'. */
  datatype Row = Pooled | Reserved | Bound(org: Org) | Stopped

  /** `arriving`: boxes in a reserve response on its way. `stock`: entries the edge holds.
      `releasing`: boxes in a release request on its way. `handed`: boxes an org was given a token
      for. `held`: boxes with every org they were handed or bound to. */
  datatype State = State(rows: map<Box, Row>, arriving: set<Box>, stock: set<Box>, releasing: set<Box>,
                         handed: set<(Box, Org)>, held: set<(Box, Org)>)

  datatype Event =
    | Park(box: Box)
    | Reserve(boxes: set<Box>)
    | Arrive(boxes: set<Box>)
    | LoseResponse(boxes: set<Box>)
    | HandOut(box: Box, org: Org)
    | Discard(boxes: set<Box>)
    | Release(boxes: set<Box>)
    | LoseRelease(boxes: set<Box>)
    | Finalize(box: Box, org: Org, dbOk: bool)
    | ClaimPooled(box: Box, org: Org)
    | Wipe(box: Box)
    | Stop(box: Box)
    | Crash(restored: set<Box>)

  const RESERVE_MAX := 50

  function SetRows(rows: map<Box, Row>, boxes: set<Box>, from: Row, to: Row): map<Box, Row> {
    map b | b in rows :: if b in boxes && rows[b] == from then to else rows[b]
  }

  /** 'stopped', guarded on the parked statuses. */
  function Wiped(rows: map<Box, Row>, b: Box): map<Box, Row> {
    if b in rows && rows[b] in {Pooled, Reserved} then rows[b := Stopped] else rows
  }

  function RowOf(s: State, b: Box): Row {
    if b in s.rows then s.rows[b] else Stopped
  }

  predicate HandedBox(s: State, b: Box) {
    exists p <- s.handed :: p.0 == b
  }

  predicate Enabled(s: State, e: Event) {
    match e
    case Park(b) => b !in s.rows
    case Reserve(bs) => |bs| <= RESERVE_MAX && forall b <- bs :: RowOf(s, b) == Pooled
    case Arrive(bs) => bs <= s.arriving
    case LoseResponse(bs) => bs <= s.arriving
    case HandOut(b, _) => b in s.stock
    case Discard(bs) => bs <= s.stock
    case Release(bs) => bs <= s.releasing
    case LoseRelease(bs) => bs <= s.releasing
    case Finalize(b, org, _) => (b, org) in s.handed
    case ClaimPooled(b, _) => RowOf(s, b) == Pooled
    case Wipe(b) => true
    case Stop(b) => RowOf(s, b) != Pooled
    case Crash(bs) => bs <= s.rows.Keys
  }

  /** A finalize that finds the row reserved binds it; otherwise, or when the database fails it, it
      makes sure that nobody else can claim the box. It may come late, or more than once. */
  function DoFinalize(s: State, b: Box, org: Org, dbOk: bool): State {
    if dbOk && RowOf(s, b) == Reserved then s.(rows := s.rows[b := Bound(org)], held := s.held + {(b, org)})
    else s.(rows := Wiped(s.rows, b))
  }

  function Step(s: State, e: Event): State
    requires Enabled(s, e)
  {
    match e
    case Park(b) => s.(rows := s.rows[b := Pooled])
    case Reserve(bs) => s.(rows := SetRows(s.rows, bs, Pooled, Reserved), arriving := s.arriving + bs)
    case Arrive(bs) => s.(arriving := s.arriving - bs, stock := s.stock + bs)
    case LoseResponse(bs) => s.(arriving := s.arriving - bs)
    case HandOut(b, org) => s.(stock := s.stock - {b}, handed := s.handed + {(b, org)}, held := s.held + {(b, org)})
    case Discard(bs) => s.(stock := s.stock - bs, releasing := s.releasing + bs)
    case Release(bs) => s.(rows := SetRows(s.rows, bs, Reserved, Pooled), releasing := s.releasing - bs)
    case LoseRelease(bs) => s.(releasing := s.releasing - bs)
    case Finalize(b, org, dbOk) => DoFinalize(s, b, org, dbOk)
    case ClaimPooled(b, org) => s.(rows := s.rows[b := Bound(org)], held := s.held + {(b, org)})
    case Wipe(b) => s.(rows := Wiped(s.rows, b))
    case Stop(b) => s.(rows := if b in s.rows then s.rows[b := Stopped] else s.rows)
    case Crash(bs) => s.(stock := bs)
  }

  /** The steps of a run are enabled, and a crash restores an entry only if `Restorable` allows it. */
  ghost predicate Runs(s: State, es: seq<Event>)
    decreases |es|, 0
  {
    es == [] ||
    (&& Runs(s, es[..|es| - 1])
     && Enabled(After(s, es[..|es| - 1]), es[|es| - 1])
     && (es[|es| - 1].Crash? ==> Restorable(After(s, es[..|es| - 1]), es[|es| - 1].restored)))
  }

  ghost function After(s: State, es: seq<Event>): State
    requires Runs(s, es)
    decreases |es|, 1
  {
    if es == [] then s else Step(After(s, es[..|es| - 1]), es[|es| - 1])
  }

  // ----- Safety -----

  /** A box that is still alive is held by one org at most, and is not in the pool once handed out. */
  ghost predicate SafeBox(s: State, b: Box) {
    RowOf(s, b) != Stopped ==>
      && (forall o, p :: (b, o) in s.held && (b, p) in s.held ==> o == p)
      && (HandedBox(s, b) ==> RowOf(s, b) != Pooled)
  }

  ghost predicate Safe(s: State) {
    forall b :: b in s.rows ==> SafeBox(s, b)
  }

  /** What a crash may bring back: entries whose box is dead, or reserved and not also handed out, in
      a response or in a release. */
  predicate RestorableBox(s: State, b: Box) {
    || RowOf(s, b) == Stopped
    || (RowOf(s, b) == Reserved && !HandedBox(s, b) && b !in s.releasing && b !in s.arriving)
  }

  predicate Restorable(s: State, restored: set<Box>) {
    forall b <- restored :: RestorableBox(s, b)
  }

  // ----- Invariant, box by box -----

  /** Where the edge has a box: nowhere, in one of three places, or handed out. */
  datatype View = View(row: Row, arriving: bool, stock: bool, releasing: bool, handed: set<Org>, held: set<Org>)

  function ViewOf(s: State, b: Box): View {
    View(RowOf(s, b), b in s.arriving, b in s.stock, b in s.releasing,
         set p | p in s.handed && p.0 == b :: p.1, set p | p in s.held && p.0 == b :: p.1)
  }

  ghost predicate ViewOk(v: View) {
    && v.handed <= v.held
    && (v.row == Pooled ==> !v.arriving && !v.stock && !v.releasing && v.held == {})
    && (v.row == Reserved ==>
          && !(v.arriving && v.stock) && !(v.arriving && v.releasing) && !(v.stock && v.releasing)
          && (v.arriving || v.stock || v.releasing ==> v.held == {})
          && v.held == v.handed && forall o, p :: o in v.held && p in v.held ==> o == p)
    && (v.row.Bound? ==> !v.arriving && !v.stock && !v.releasing && v.held == {v.row.org})
  }

  ghost predicate Inv(s: State) {
    forall b :: b in s.rows ==> ViewOk(ViewOf(s, b))
  }

  /** Boxes the edge knows have a row. */
  predicate Known(s: State) {
    && s.arriving <= s.rows.Keys && s.stock <= s.rows.Keys && s.releasing <= s.rows.Keys
    && (forall p <- s.handed :: p.0 in s.rows) && (forall p <- s.held :: p.0 in s.rows)
  }

  lemma HandedView(s: State, b: Box)
    ensures HandedBox(s, b) <==> ViewOf(s, b).handed != {}
    ensures forall o :: (b, o) in s.held <==> o in ViewOf(s, b).held
    ensures forall o :: (b, o) in s.handed <==> o in ViewOf(s, b).handed
  {
    if HandedBox(s, b) {
      var p :| p in s.handed && p.0 == b;
      assert p == (b, p.1);
      assert p.1 in ViewOf(s, b).handed;
    }
    if ViewOf(s, b).handed != {} {
      var o :| o in ViewOf(s, b).handed;
      assert (b, o) in s.handed;
    }
    forall o
      ensures (b, o) in s.held <==> o in ViewOf(s, b).held
      ensures (b, o) in s.handed <==> o in ViewOf(s, b).handed
    {
      assert (b, o).0 == b && (b, o).1 == o;
    }
  }

  /** Adding one entry to a set of pairs adds one org to the view of its box. */
  lemma ViewAdd(ps: set<(Box, Org)>, b: Box, org: Org, c: Box)
    ensures (set p | p in ps + {(b, org)} && p.0 == c :: p.1)
         == (set p | p in ps && p.0 == c :: p.1) + (if b == c then {org} else {})
  {
    var all := ps + {(b, org)};
    var left := set p | p in all && p.0 == c :: p.1;
    var right := (set p | p in ps && p.0 == c :: p.1) + (if b == c then {org} else {});
    forall o
      ensures o in left <==> o in right
    {
      if o in left { assert (c, o) in all; }
      if o in right { assert (c, o) in all && (c, o).0 == c && (c, o).1 == o; }
    }
  }

  /** Steps of the edge and of the messages. */
  lemma EdgeStepKeeps(s: State, e: Event, b: Box)
    requires Enabled(s, e) && b in s.rows && ViewOk(ViewOf(s, b))
    requires e.Arrive? || e.LoseResponse? || e.Discard? || e.LoseRelease? || e.HandOut?
    ensures ViewOk(ViewOf(Step(s, e), b))
  {
    if e.HandOut? {
      ViewAdd(s.handed, e.box, e.org, b);
      ViewAdd(s.held, e.box, e.org, b);
    }
  }

  /** Steps of the control plane on many rows. */
  lemma RowsStepKeeps(s: State, e: Event, b: Box)
    requires Enabled(s, e) && b in s.rows && ViewOk(ViewOf(s, b))
    requires e.Reserve? || e.Release? || e.Park?
    ensures ViewOk(ViewOf(Step(s, e), b))
  {
    if e.Release? {
      assert b in e.boxes ==> ViewOf(s, b).releasing;
    }
    if e.Reserve? && b in e.boxes {
      assert RowOf(s, b) == Pooled;
    }
  }

  /** Steps of the control plane on one row. */
  lemma RowStepKeeps(s: State, e: Event, b: Box)
    requires Enabled(s, e) && b in s.rows && ViewOk(ViewOf(s, b))
    requires e.Finalize? || e.ClaimPooled? || e.Wipe? || e.Stop?
    ensures ViewOk(ViewOf(Step(s, e), b))
  {
    if e.Finalize? || e.ClaimPooled? {
      ViewAdd(s.held, e.box, e.org, b);
      HandedView(s, b);
      assert e.Finalize? && b == e.box ==> e.org in ViewOf(s, b).handed;
    }
  }

  lemma CrashKeeps(s: State, e: Event, b: Box)
    requires e.Crash? && Enabled(s, e) && Restorable(s, e.restored) && b in s.rows && ViewOk(ViewOf(s, b))
    ensures ViewOk(ViewOf(Step(s, e), b))
  {
    if b in e.restored {
      assert RestorableBox(s, b);
      HandedView(s, b);
    }
  }

  /** A new box is unknown to the edge. */
  lemma ParkKeeps(s: State, b: Box)
    requires Known(s) && b !in s.rows
    ensures ViewOk(ViewOf(Step(s, Park(b)), b))
  {
    var v := ViewOf(Step(s, Park(b)), b);
    assert v.held == {};
    assert v.handed == {};
  }

  lemma KnownStep(s: State, e: Event)
    requires Known(s) && Enabled(s, e)
    ensures Known(Step(s, e))
  {
  }

  lemma InvStep(s: State, e: Event)
    requires Inv(s) && Known(s) && Enabled(s, e)
    requires e.Crash? ==> Restorable(s, e.restored)
    ensures Inv(Step(s, e)) && Known(Step(s, e))
  {
    KnownStep(s, e);
    forall b | b in Step(s, e).rows
      ensures ViewOk(ViewOf(Step(s, e), b))
    {
      if b !in s.rows { ParkKeeps(s, b); }
      else if e.Crash? { CrashKeeps(s, e, b); }
      else if e.Finalize? || e.ClaimPooled? || e.Wipe? || e.Stop? { RowStepKeeps(s, e, b); }
      else if e.Reserve? || e.Release? || e.Park? { RowsStepKeeps(s, e, b); }
      else { EdgeStepKeeps(s, e, b); }
    }
  }

  lemma InvIsSafe(s: State)
    requires Inv(s)
    ensures Safe(s)
  {
    forall b | b in s.rows
      ensures SafeBox(s, b)
    {
      HandedView(s, b);
      assert ViewOk(ViewOf(s, b));
    }
  }

  const EMPTY := State(map[], {}, {}, {}, {}, {})

  lemma {:induction false} InvRun(es: seq<Event>)
    requires Runs(EMPTY, es)
    ensures Inv(After(EMPTY, es)) && Known(After(EMPTY, es))
  {
    if es != [] {
      InvRun(es[..|es| - 1]);
      InvStep(After(EMPTY, es[..|es| - 1]), es[|es| - 1]);
    }
  }

  /** Over every interleaving a living box belongs to one org at most, and a box handed to an org is
      not in the pool then or at any later time, nor bound to another org. */
  lemma OneTenant(es: seq<Event>)
    requires Runs(EMPTY, es)
    ensures Safe(After(EMPTY, es))
    ensures forall b, o :: (b, o) in After(EMPTY, es).handed ==>
              RowOf(After(EMPTY, es), b) in {Reserved, Stopped, Bound(o)}
  {
    InvRun(es);
    var s := After(EMPTY, es);
    InvIsSafe(s);
    forall b, o | (b, o) in s.handed
      ensures RowOf(s, b) in {Reserved, Stopped, Bound(o)}
    {
      if b in s.rows {
        HandedView(s, b);
        assert ViewOk(ViewOf(s, b));
      }
    }
  }

  /** A hand-out is never forgotten. */
  lemma HandedStays(s: State, e: Event)
    requires Enabled(s, e)
    ensures s.handed <= Step(s, e).handed && s.held <= Step(s, e).held
  {
  }

  // ----- What the steps are for -----

  /** A pooled box can be claimed: reserved, received, handed to an org and bound to it. */
  lemma ClaimPath(s: State, b: Box, org: Org)
    requires RowOf(s, b) == Pooled
    ensures Enabled(s, Reserve({b})) && var s1 := Step(s, Reserve({b}));
            Enabled(s1, Arrive({b})) && var s2 := Step(s1, Arrive({b}));
            Enabled(s2, HandOut(b, org)) && var s3 := Step(s2, HandOut(b, org));
            Enabled(s3, Finalize(b, org, true)) && var s4 := Step(s3, Finalize(b, org, true));
            && RowOf(s1, b) == Reserved && b in s2.stock && b !in s3.stock && RowOf(s3, b) == Reserved
            && s4.rows == s.rows[b := Bound(org)] && (b, org) in s4.handed && (b, org) in s4.held
            && Enabled(s4, Stop(b)) && RowOf(Step(s4, Stop(b)), b) == Stopped
  {
  }

  /** A box that is reserved and discarded again returns to the pool: nothing has changed but for what
      is in flight. */
  lemma ReturnPath(s: State, b: Box)
    requires RowOf(s, b) == Pooled
    ensures Enabled(s, Reserve({b})) && var s1 := Step(s, Reserve({b}));
            Enabled(s1, Arrive({b})) && var s2 := Step(s1, Arrive({b}));
            Enabled(s2, Discard({b})) && var s3 := Step(s2, Discard({b}));
            Enabled(s3, Release({b})) && var s4 := Step(s3, Release({b}));
            s4.rows == s.rows && b !in s4.arriving + s4.stock + s4.releasing
  {
  }

  // ----- A crash that brings back other entries -----

  ghost predicate EnabledRun(s: State, es: seq<Event>)
    decreases |es|
  {
    es == [] || (Enabled(s, es[0]) && EnabledRun(Step(s, es[0]), es[1..]))
  }

  ghost function RunFrom(s: State, es: seq<Event>): State
    requires EnabledRun(s, es)
    decreases |es|
  {
    if es == [] then s else RunFrom(Step(s, es[0]), es[1..])
  }

  lemma RunOne(s: State, e: Event)
    requires Enabled(s, e)
    ensures EnabledRun(s, [e]) && RunFrom(s, [e]) == Step(s, e)
  {
    assert [e][1..] == [];
  }

  lemma RunTwo(s: State, e: Event, f: Event)
    requires Enabled(s, e) && Enabled(Step(s, e), f)
    ensures EnabledRun(s, [e, f]) && RunFrom(s, [e, f]) == Step(Step(s, e), f)
  {
    assert [e, f][1..] == [f];
    RunOne(Step(s, e), f);
  }

  lemma RunThree(s: State, e: Event, f: Event, g: Event)
    requires Enabled(s, e) && Enabled(Step(s, e), f) && Enabled(Step(Step(s, e), f), g)
    ensures EnabledRun(s, [e, f, g]) && RunFrom(s, [e, f, g]) == Step(Step(Step(s, e), f), g)
  {
    assert [e, f, g][1..] == [f, g];
    RunTwo(Step(s, e), f, g);
  }

  lemma TwoHolders(s: State, b: Box, o: Org, p: Org)
    requires b in s.rows && RowOf(s, b) != Stopped && (b, o) in s.held && (b, p) in s.held && o != p
    ensures !Safe(s)
  {
    assert !SafeBox(s, b);
  }

  /** Whenever a crash restores an entry it may not, some continuation breaks the safety: the
      condition is exact. */
  lemma BadRestore(s: State, restored: set<Box>) returns (es: seq<Event>)
    requires Inv(s) && Known(s) && restored <= s.rows.Keys && !Restorable(s, restored)
    ensures EnabledRun(Step(s, Crash(restored)), es)
    ensures !Safe(RunFrom(Step(s, Crash(restored)), es))
  {
    var b :| b in restored && !RestorableBox(s, b);
    var t := Step(s, Crash(restored));
    var o := "a";
    HandedView(s, b);
    assert ViewOk(ViewOf(s, b));
    if RowOf(s, b) == Reserved && b in s.releasing {
      var e, f := HandOut(b, o), Release({b});
      RunTwo(t, e, f);
      es := [e, f];
      var u := Step(Step(t, e), f);
      assert RowOf(u, b) == Pooled && (b, o) in u.handed;
      assert HandedBox(u, b);
      assert !SafeBox(u, b);
    } else if RowOf(s, b) == Reserved && b in s.arriving {
      var e, f, g := HandOut(b, o), Arrive({b}), HandOut(b, "b");
      RunThree(t, e, f, g);
      es := [e, f, g];
      TwoHolders(Step(Step(Step(t, e), f), g), b, o, "b");
    } else if RowOf(s, b) == Pooled {
      RunOne(t, HandOut(b, o));
      es := [HandOut(b, o)];
      var u := Step(t, HandOut(b, o));
      assert (b, o) in u.handed;
      assert HandedBox(u, b);
      assert !SafeBox(u, b);
    } else {
      var p :| (b, p) in s.held;
      o := if p == "a" then "b" else "a";
      RunOne(t, HandOut(b, o));
      es := [HandOut(b, o)];
      TwoHolders(Step(t, HandOut(b, o)), b, o, p);
    }
  }

  /** Restoring entries the edge still holds is always allowed. */
  lemma CurrentStockIsRestorable(s: State, restored: set<Box>)
    requires Inv(s) && Known(s) && restored <= s.stock
    ensures Restorable(s, restored)
  {
    forall b | b in restored
      ensures RestorableBox(s, b)
    {
      HandedView(s, b);
      assert ViewOk(ViewOf(s, b));
    }
  }
}
