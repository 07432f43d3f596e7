/** The two halves of the edge claim as code: the edge's stock object
    (cloudflare-workers/api-edge/src/pool_stock.ts) and the control plane's handlers
    (internal/api/edge_claim.go, internal/db/pool.go). Each operation is shown to be a run of the
    machine in EdgeClaim. */
module EdgePool {
  import opened EdgeClaim
  import Reap = EdgeReap

  datatype Option<T> = None | Some(value: T)
  datatype Entry = Entry(box: Box, at: int)

  const ENTRY_TTL := 600000
  const TARGET_STOCK := 38

  predicate IsFresh(e: Entry, now: int) {
    now - e.at < ENTRY_TTL
  }

  function Filter(es: seq<Entry>, now: int, keepFresh: bool): seq<Entry> {
    if es == [] then []
    else
      Filter(es[..|es| - 1], now, keepFresh)
      + if IsFresh(es[|es| - 1], now) == keepFresh then [es[|es| - 1]] else []
  }

  function Boxes(es: seq<Entry>): set<Box> {
    set e | e in es :: e.box
  }

  ghost predicate OneEach(es: seq<Entry>) {
    forall i, j :: 0 <= i < j < |es| ==> es[i].box != es[j].box
  }

  lemma {:induction false} FilterHas(es: seq<Entry>, now: int, keep: bool, e: Entry)
    ensures e in Filter(es, now, keep) <==> e in es && IsFresh(e, now) == keep
  {
    if es != [] {
      FilterHas(es[..|es| - 1], now, keep, e);
      assert es == es[..|es| - 1] + [es[|es| - 1]];
    }
  }

  lemma {:induction false} FilterDistinct(es: seq<Entry>, now: int, keep: bool)
    requires OneEach(es)
    ensures OneEach(Filter(es, now, keep)) && Boxes(Filter(es, now, keep)) <= Boxes(es)
  {
    if es != [] {
      var before, last := es[..|es| - 1], es[|es| - 1];
      FilterDistinct(before, now, keep);
      var f := Filter(before, now, keep);
      NotBefore(es);
      assert es == before + [last];
      Appended(before, last);
      Appended(f, last);
    }
  }

  lemma NotBefore(es: seq<Entry>)
    requires es != [] && OneEach(es)
    ensures es[|es| - 1].box !in Boxes(es[..|es| - 1])
  {
    var before, last := es[..|es| - 1], es[|es| - 1];
    forall e | e in before
      ensures e.box != last.box
    {
      var i :| 0 <= i < |before| && before[i] == e;
      assert es[i] == e;
    }
  }

  ghost predicate Ascending(at: seq<nat>) {
    forall i, j :: 0 <= i < j < |at| ==> at[i] < at[j]
  }

  /** Not older than ten minutes, in milliseconds. */
  predicate Young(e: Entry, now: int) {
    now - e.at < 600000
  }

  /** The entries kept are those that are young, in their order; `at` are their places. */
  lemma {:induction false} FilterPlaces(es: seq<Entry>, now: int, keep: bool) returns (at: seq<nat>)
    ensures var f := Filter(es, now, keep);
            && |at| == |f| && Ascending(at)
            && (forall i :: 0 <= i < |at| ==> at[i] < |es| && f[i] == es[at[i]])
            && (forall k :: 0 <= k < |es| ==> (k in at <==> Young(es[k], now) == keep))
  {
    if es == [] {
      at := [];
    } else {
      var n := |es| - 1;
      at := FilterPlaces(es[..n], now, keep);
      forall k | 0 <= k < n
        ensures k in at <==> Young(es[k], now) == keep
      {
        assert es[..n][k] == es[k];
      }
      if Young(es[n], now) == keep { at := at + [n]; }
    }
  }

  /** `e` is the first young entry. */
  ghost predicate FirstYoung(es: seq<Entry>, now: int, e: Entry) {
    exists k :: 0 <= k < |es| && es[k] == e && Young(e, now) && NoneYoung(es[..k], now)
  }

  ghost predicate NoneYoung(es: seq<Entry>, now: int) {
    forall k :: 0 <= k < |es| ==> !Young(es[k], now)
  }

  lemma FilterFirst(es: seq<Entry>, now: int)
    ensures var f := Filter(es, now, true); if f == [] then NoneYoung(es, now) else FirstYoung(es, now, f[0])
  {
    var at := FilterPlaces(es, now, true);
    var f := Filter(es, now, true);
    if f != [] {
      assert forall i :: 0 <= i < |at| ==> at[0] <= at[i];
      forall k | 0 <= k < at[0]
        ensures !Young(es[k], now)
      {
        assert k !in at;
      }
      assert NoneYoung(es[..at[0]], now);
      assert at[0] in at;
    }
  }

  /** Expired and kept entries have no box in common, and together they are the stock. */
  lemma Partition(es: seq<Entry>, now: int)
    requires OneEach(es)
    ensures var fresh', stale := Filter(es, now, true), Filter(es, now, false);
            Boxes(fresh') !! Boxes(stale) && Boxes(fresh') + Boxes(stale) == Boxes(es)
  {
    var fresh', stale := Filter(es, now, true), Filter(es, now, false);
    forall e
      ensures e in es <==> e in fresh' || e in stale
      ensures e in fresh' ==> e !in stale
    {
      FilterHas(es, now, true, e);
      FilterHas(es, now, false, e);
    }
    forall e, f | e in fresh' && f in stale
      ensures e.box != f.box
    {
      var i :| 0 <= i < |es| && es[i] == e;
      var j :| 0 <= j < |es| && es[j] == f;
      assert i != j;
      assert i < j ==> es[i].box != es[j].box;
      assert j < i ==> es[j].box != es[i].box;
    }
  }

  lemma ClaimIsRun(es: seq<Entry>, now: int, org: Org, s: State)
    requires OneEach(es) && Boxes(es) <= s.stock
    ensures var kept, stale := Filter(es, now, true), Filter(es, now, false);
            && Enabled(s, Discard(Boxes(stale)))
            && var s1 := Step(s, Discard(Boxes(stale)));
            && OneEach(kept) && Boxes(kept) <= s1.stock
            && (kept != [] ==>
                  && Enabled(s1, HandOut(kept[0].box, org))
                  && OneEach(kept[1..]) && Boxes(kept[1..]) <= Step(s1, HandOut(kept[0].box, org)).stock)
  {
    Partition(es, now);
    FilterDistinct(es, now, true);
    var kept := Filter(es, now, true);
    if kept != [] {
      Shifted(kept);
      assert kept[0].box in Boxes(kept);
    }
  }

  lemma TrimIsRun(es: seq<Entry>, n: nat, s: State)
    requires OneEach(es) && Boxes(es) <= s.stock && n <= |es|
    ensures Enabled(s, Discard(Boxes(es[n..])))
    ensures OneEach(es[..n]) && Boxes(es[..n]) <= Step(s, Discard(Boxes(es[n..]))).stock
  {
    Cut(es, n);
  }

  /** The stock object. `Holds` ties it to the machine: its entries are part of the edge's stock. */
  class PoolStock {
    var stock: seq<Entry>

    constructor ()
      ensures stock == []
    {
      stock := [];
    }

    ghost predicate Holds(s: State)
      reads this
    {
      OneEach(stock) && Boxes(stock) <= s.stock
    }

    method Expire(now: int) returns (stale: seq<Entry>)
      modifies this
      ensures stock == Filter(old(stock), now, true) && stale == Filter(old(stock), now, false)
    {
      var kept: seq<Entry> := [];
      stale := [];
      var i := 0;
      while i < |stock|
        invariant 0 <= i <= |stock| && stock == old(stock)
        invariant kept == Filter(stock[..i], now, true) && stale == Filter(stock[..i], now, false)
      {
        assert stock[..i + 1][..i] == stock[..i];
        if IsFresh(stock[i], now) {
          kept := kept + [stock[i]];
        } else {
          stale := stale + [stock[i]];
        }
        i := i + 1;
      }
      assert stock[..i] == stock;
      stock := kept;
    }

    /** Answers a create with the oldest entry that has not expired; the expired ones are to be
        released. In the machine: a discard, then a hand-out. */
    method Claim(now: int, org: Org, ghost s: State) returns (entry: Option<Entry>, stale: seq<Entry>, ghost s': State)
      requires Holds(s)
      modifies this
      ensures stale == Filter(old(stock), now, false)
      ensures entry.None? ==> stock == [] && Filter(old(stock), now, true) == []
      ensures entry.Some? ==> [entry.value] + stock == Filter(old(stock), now, true)
      ensures if entry.None? then NoneYoung(old(stock), now) else FirstYoung(old(stock), now, entry.value)
      ensures Enabled(s, Discard(Boxes(stale)))
      ensures var s1 := Step(s, Discard(Boxes(stale)));
              && (entry.None? ==> s' == s1)
              && (entry.Some? ==> Enabled(s1, HandOut(entry.value.box, org)) && s' == Step(s1, HandOut(entry.value.box, org)))
      ensures Holds(s')
    {
      ClaimIsRun(stock, now, org, s);
      FilterFirst(stock, now);
      stale := Expire(now);
      s' := Step(s, Discard(Boxes(stale)));
      entry := None;
      if |stock| > 0 {
        entry := Some(stock[0]);
        s' := Step(s', HandOut(stock[0].box, org));
        stock := stock[1..];
      }
    }

    /** Releases what exceeds the target. */
    method Trim(ghost s: State) returns (surplus: seq<Entry>, ghost s': State)
      requires Holds(s)
      modifies this
      ensures stock + surplus == old(stock) && |stock| == if |old(stock)| < 38 then |old(stock)| else 38
      ensures Enabled(s, Discard(Boxes(surplus))) && s' == Step(s, Discard(Boxes(surplus))) && Holds(s')
    {
      var n := if |stock| > TARGET_STOCK then TARGET_STOCK else |stock|;
      TrimIsRun(stock, n, s);
      surplus := stock[n..];
      stock := stock[..n];
      s' := Step(s, Discard(Boxes(surplus)));
    }

    /** Takes in the boxes of a reserve response that it does not have. What it has is noted once,
        before the loop: the stock has each box once if and only if the response names no new box
        twice. */
    method Restock(boxes: seq<Box>, now: int, ghost s: State) returns (added: nat, ghost s': State)
      requires Holds(s) && Members(boxes) <= s.arriving
      modifies this
      ensures stock == old(stock) + NewEntries(boxes, Boxes(old(stock)), now) && added == |stock| - |old(stock)|
      ensures Boxes(stock) == Boxes(old(stock)) + Members(boxes)
      ensures s' == Step(s, Arrive(Members(boxes))) && (Holds(s') <==> NewOnce(boxes, Boxes(old(stock))))
    {
      var have := Boxes(stock);
      RestockExact(stock, boxes, now);
      s' := Step(s, Arrive(Members(boxes)));
      added := 0;
      var i := 0;
      while i < |boxes|
        invariant 0 <= i <= |boxes| && added == |stock| - |old(stock)|
        invariant stock == old(stock) + NewEntries(boxes[..i], have, now)
      {
        assert boxes[..i + 1][..i] == boxes[..i];
        if boxes[i] !in have {
          stock := stock + [Entry(boxes[i], now)];
          added := added + 1;
        }
        i := i + 1;
      }
      assert boxes[..i] == boxes;
    }
  }

  /** An entry for each box that is not in `have`. */
  function NewEntries(boxes: seq<Box>, have: set<Box>, now: int): seq<Entry> {
    if boxes == [] then []
    else
      NewEntries(boxes[..|boxes| - 1], have, now)
      + if boxes[|boxes| - 1] in have then [] else [Entry(boxes[|boxes| - 1], now)]
  }

  ghost predicate NewOnce(boxes: seq<Box>, have: set<Box>) {
    forall i, j :: 0 <= i < j < |boxes| && boxes[i] == boxes[j] ==> boxes[i] in have
  }

  lemma NewOnceSnoc(boxes: seq<Box>, have: set<Box>)
    requires boxes != []
    ensures var before, last := boxes[..|boxes| - 1], boxes[|boxes| - 1];
            NewOnce(boxes, have) <==> NewOnce(before, have) && (last in have || last !in before)
  {
    var before, last := boxes[..|boxes| - 1], boxes[|boxes| - 1];
    if last in before && last !in have {
      var i :| 0 <= i < |before| && before[i] == last;
      assert boxes[i] == boxes[|boxes| - 1];
    }
    if NewOnce(boxes, have) {
      forall i, j | 0 <= i < j < |before| && before[i] == before[j]
        ensures before[i] in have
      {
        assert boxes[i] == boxes[j];
      }
    }
    if NewOnce(before, have) && (last in have || last !in before) {
      forall i, j | 0 <= i < j < |boxes| && boxes[i] == boxes[j]
        ensures boxes[i] in have
      {
        assert before[i] == boxes[i];
        assert j < |before| ==> before[j] == boxes[j];
      }
    }
  }

  lemma OneEachSnoc(es: seq<Entry>, e: Entry)
    ensures OneEach(es + [e]) <==> OneEach(es) && e.box !in Boxes(es)
    ensures Boxes(es + [e]) == Boxes(es) + {e.box}
  {
    var all := es + [e];
    if OneEach(all) {
      NotBefore(all);
      assert all[..|es|] == es;
      forall i, j | 0 <= i < j < |es|
        ensures es[i].box != es[j].box
      {
        assert all[i] == es[i] && all[j] == es[j];
      }
    } else if e.box !in Boxes(es) && OneEach(es) {
      Appended(es, e);
    }
    assert forall f :: f in all <==> f in es || f == e;
  }

  lemma {:induction false} RestockExact(es: seq<Entry>, boxes: seq<Box>, now: int)
    requires OneEach(es)
    ensures var all := es + NewEntries(boxes, Boxes(es), now);
            && Boxes(all) == Boxes(es) + Members(boxes)
            && (OneEach(all) <==> NewOnce(boxes, Boxes(es)))
  {
    var have := Boxes(es);
    if boxes == [] {
      assert es + [] == es;
    } else {
      var before, last := boxes[..|boxes| - 1], boxes[|boxes| - 1];
      RestockExact(es, before, now);
      var part := NewEntries(before, have, now);
      RestockOne(es + part, boxes, have, now);
      Assoc(es, part, if last in have then [] else [Entry(last, now)]);
    }
  }

  lemma Assoc(a: seq<Entry>, b: seq<Entry>, c: seq<Entry>)
    ensures a + b + c == a + (b + c)
  {
  }

  lemma RestockOne(part: seq<Entry>, boxes: seq<Box>, have: set<Box>, now: int)
    requires boxes != [] && Boxes(part) == have + Members(boxes[..|boxes| - 1])
    requires OneEach(part) <==> NewOnce(boxes[..|boxes| - 1], have)
    ensures var last := boxes[|boxes| - 1];
            var all := part + if last in have then [] else [Entry(last, now)];
            Boxes(all) == have + Members(boxes) && (OneEach(all) <==> NewOnce(boxes, have))
  {
    var last := boxes[|boxes| - 1];
    NewOnceSnoc(boxes, have);
    MembersSnoc(boxes);
    if last in have {
      assert part + [] == part;
    } else {
      OneEachSnoc(part, Entry(last, now));
    }
  }

  lemma MembersSnoc(boxes: seq<Box>)
    requires boxes != []
    ensures Members(boxes) == Members(boxes[..|boxes| - 1]) + {boxes[|boxes| - 1]}
  {
    assert boxes == boxes[..|boxes| - 1] + [boxes[|boxes| - 1]];
  }

  lemma Shifted(es: seq<Entry>)
    requires es != [] && OneEach(es)
    ensures Boxes(es[1..]) == Boxes(es) - {es[0].box} && OneEach(es[1..])
  {
    assert es == [es[0]] + es[1..];
    forall e | e in es[1..]
      ensures e.box != es[0].box
    {
      var i :| 0 <= i < |es[1..]| && es[1..][i] == e;
      assert es[i + 1] == e;
    }
  }

  lemma Cut(es: seq<Entry>, n: nat)
    requires n <= |es| && OneEach(es)
    ensures Boxes(es[..n]) !! Boxes(es[n..]) && Boxes(es[..n]) + Boxes(es[n..]) == Boxes(es) && OneEach(es[..n])
  {
    assert es == es[..n] + es[n..];
    forall e, f | e in es[..n] && f in es[n..]
      ensures e.box != f.box
    {
      var i :| 0 <= i < n && es[i] == e;
      var j :| 0 <= j < |es| - n && es[n..][j] == f;
      assert es[n + j] == f;
    }
  }

  lemma Appended(es: seq<Entry>, e: Entry)
    requires OneEach(es) && e.box !in Boxes(es)
    ensures OneEach(es + [e]) && Boxes(es + [e]) == Boxes(es) + {e.box}
  {
    forall i | 0 <= i < |es|
      ensures es[i].box != e.box
    {
      assert es[i] in es;
    }
    assert forall f :: f in es + [e] <==> f in es || f == e;
  }

  /** The control plane's handlers over the session rows. */
  class Cell {
    var rows: map<Box, Row>

    ghost predicate Backs(s: State)
      reads this
    {
      rows == s.rows
    }

    /** Reserves the oldest pooled boxes, as many as asked for but never more than 50; `byAge` lists the
        boxes oldest first. In the machine: one reserve. */
    method EdgeReserve(count: int, byAge: seq<Box>, ghost s: State) returns (ok: bool, boxes: seq<Box>, ghost s': State)
      requires Backs(s) && forall b <- rows :: rows[b] == Pooled ==> b in byAge
      modifies this
      ensures ok <==> count > 0
      ensures !ok ==> boxes == [] && s' == s
      ensures ok ==>
        var pooled, limit := PooledIn(old(rows), byAge), if count > 50 then 50 else count;
        boxes == pooled[..if |pooled| < limit then |pooled| else limit]
      ensures ok ==> Enabled(s, Reserve(Members(boxes))) && s' == Step(s, Reserve(Members(boxes)))
      ensures Distinct(boxes)
      ensures forall b :: RowOf(s', b) == if b in boxes then Reserved else RowOf(s, b)
      ensures ok && |boxes| < count && |boxes| < 50 ==> forall b <- s'.rows :: s'.rows[b] != Pooled
      ensures Backs(s')
    {
      boxes, s' := [], s;
      ok := count > 0;
      if !ok { return; }
      var limit := if count > RESERVE_MAX then RESERVE_MAX else count;
      var i := 0;
      while i < |byAge| && |boxes| < limit
        invariant 0 <= i <= |byAge| && |boxes| <= limit && rows == s.rows
        invariant boxes == PooledIn(rows, byAge[..i])
      {
        assert byAge[..i + 1][..i] == byAge[..i];
        if byAge[i] in rows && rows[byAge[i]] == Pooled && byAge[i] !in boxes {
          boxes := boxes + [byAge[i]];
        }
        i := i + 1;
      }
      Chosen(rows, byAge, i, limit);
      PooledOnce(rows, byAge[..i]);
      MembersFew(boxes);
      s' := Step(s, Reserve(Members(boxes)));
      rows := SetRows(rows, Members(boxes), Pooled, Reserved);
    }

    /** Returns discarded stock to the pool, if it is still reserved. In the machine: one release. */
    method EdgeRelease(boxes: set<Box>, ghost s: State) returns (released: nat, ghost s': State)
      requires Backs(s) && Enabled(s, Release(boxes))
      modifies this
      ensures s' == Step(s, Release(boxes)) && Backs(s')
      ensures forall b :: RowOf(s', b) == if b in boxes && RowOf(s, b) == Reserved then Pooled else RowOf(s, b)
      ensures released == |set b | b in boxes && b in old(rows) && old(rows)[b] == Reserved|
    {
      released := |set b | b in boxes && b in rows && rows[b] == Reserved|;
      rows := SetRows(rows, boxes, Reserved, Pooled);
      s' := Step(s, Release(boxes));
    }

    method WipePooled(b: Box)
      modifies this
      ensures rows == Wiped(old(rows), b)
    {
      if b in rows && (rows[b] == Pooled || rows[b] == Reserved) {
        rows := rows[b := Stopped];
      }
    }

    /** Binds a handed box to its org; `true` when the rebind happened. What the worker answers later
        moves the row among the bound statuses only. In the machine: one finalize. */
    method ClaimFinalize(b: Box, org: Org, dbOk: bool, ghost s: State) returns (bound: bool, ghost s': State)
      requires Backs(s) && Enabled(s, Finalize(b, org, dbOk))
      modifies this
      ensures s' == Step(s, Finalize(b, org, dbOk)) && Backs(s')
      ensures bound <==> dbOk && RowOf(s, b) == Reserved
      ensures RowOf(s', b) == if bound then Bound(org) else if RowOf(s, b).Bound? then RowOf(s, b) else Stopped
      ensures forall c :: c != b ==> RowOf(s', c) == RowOf(s, c)
    {
      s' := Step(s, Finalize(b, org, dbOk));
      bound := dbOk && b in rows && rows[b] == Reserved;
      if bound {
        rows := rows[b := Bound(org)];
      } else {
        WipePooled(b);
      }
    }

    /** Has the listed boxes destroyed and stops their rows; `obeyed` says which workers were reached
        and obeyed. The row of a box claimed since the listing is left alone, but the box is destroyed
        all the same. In the machine: for each box a destroy and a wipe. */
    method ReapStale(stale: seq<Box>, obeyed: seq<bool>, ghost s: Reap.Watch)
        returns (destroyed: set<Box>, ghost s': Reap.Watch)
      requires Backs(s.claim) && Members(stale) <= s.todo && |obeyed| == |stale| && Distinct(stale)
      modifies this
      ensures Backs(s'.claim) && s'.claim == s.claim.(rows := rows)
      ensures forall b :: RowOf(s'.claim, b) == AfterReap(s, Members(stale), b)
      ensures destroyed == (set i | 0 <= i < |stale| && obeyed[i] :: stale[i])
      ensures s'.todo == s.todo - Members(stale) && s'.destroyed == s.destroyed + destroyed
      ensures forall b <- destroyed :: Reap.Lost(s', b) <==> RowOf(s.claim, b).Bound?
    {
      destroyed, s' := {}, s;
      var i := 0;
      assert Members(stale[..0]) == {};
      while i < |stale|
        invariant 0 <= i <= |stale|
        invariant Backs(s'.claim) && s'.claim == s.claim.(rows := rows)
        invariant forall b :: RowOf(s'.claim, b) == AfterReap(s, Members(stale[..i]), b)
        invariant destroyed == set j | 0 <= j < i && obeyed[j] :: stale[j]
        invariant s'.todo == s.todo - Members(stale[..i]) && s'.destroyed == s.destroyed + destroyed
      {
        assert stale[i] !in Members(stale[..i]) && stale[i] in Members(stale);
        assert stale[..i + 1][..i] == stale[..i];
        MembersSnoc(stale[..i + 1]);
        ReapOne(s, s'.claim, Members(stale[..i]), stale[i]);
        if obeyed[i] {
          destroyed := destroyed + {stale[i]};
        }
        WipePooled(stale[i]);
        s' := Reap.Step(Reap.Step(s', Reap.Destroy(stale[i], obeyed[i])), Reap.Claim(Wipe(stale[i])));
        i := i + 1;
      }
      assert stale[..i] == stale;
    }
  }

  /** The row of a box after a reap of `stale` that nothing interrupts. */
  function AfterReap(s: Reap.Watch, stale: set<Box>, b: Box): Row {
    if b in stale && RowOf(s.claim, b) in {Pooled, Reserved} then Stopped else RowOf(s.claim, b)
  }

  lemma ReapOne(s: Reap.Watch, t: State, done: set<Box>, b: Box)
    requires forall c :: RowOf(t, c) == AfterReap(s, done, c)
    ensures forall c :: RowOf(Step(t, Wipe(b)), c) == AfterReap(s, done + {b}, c)
  {
    forall c
      ensures RowOf(Step(t, Wipe(b)), c) == AfterReap(s, done + {b}, c)
    {
      assert RowOf(t, c) == AfterReap(s, done, c);
    }
  }

  ghost predicate Distinct(boxes: seq<Box>) {
    forall i, j :: 0 <= i < j < |boxes| ==> boxes[i] != boxes[j]
  }

  function Members(boxes: seq<Box>): set<Box> {
    set b | b in boxes
  }

  /** The pooled boxes of a list, in its order. */
  function PooledIn(rows: map<Box, Row>, list: seq<Box>): seq<Box> {
    if list == [] then []
    else
      var before, b := PooledIn(rows, list[..|list| - 1]), list[|list| - 1];
      if b in rows && rows[b] == Pooled && b !in before then before + [b] else before
  }

  lemma {:induction false} PooledAre(rows: map<Box, Row>, list: seq<Box>, b: Box)
    ensures b in PooledIn(rows, list) <==> b in list && b in rows && rows[b] == Pooled
  {
    if list != [] {
      PooledAre(rows, list[..|list| - 1], b);
      assert list == list[..|list| - 1] + [list[|list| - 1]];
    }
  }

  lemma {:induction false} PooledOnce(rows: map<Box, Row>, list: seq<Box>)
    ensures Distinct(PooledIn(rows, list))
  {
    if list != [] {
      PooledOnce(rows, list[..|list| - 1]);
      var before, b := PooledIn(rows, list[..|list| - 1]), list[|list| - 1];
      if b !in before { DistinctSnoc(before, b); }
    }
  }

  lemma DistinctSnoc(bs: seq<Box>, b: Box)
    requires Distinct(bs) && b !in bs
    ensures Distinct(bs + [b])
  {
  }

  lemma {:induction false} PooledPrefix(rows: map<Box, Row>, list: seq<Box>, i: nat)
    requires i <= |list|
    ensures PooledIn(rows, list[..i]) <= PooledIn(rows, list)
  {
    if i == |list| {
      assert list[..i] == list;
    } else {
      assert list[..|list| - 1][..i] == list[..i];
      PooledPrefix(rows, list[..|list| - 1], i);
    }
  }

  /** Going through the list until there are enough takes the first pooled boxes of it. */
  lemma Chosen(rows: map<Box, Row>, list: seq<Box>, i: nat, limit: nat)
    requires i <= |list| && (i == |list| || |PooledIn(rows, list[..i])| == limit) && |PooledIn(rows, list[..i])| <= limit
    ensures var taken, pooled := PooledIn(rows, list[..i]), PooledIn(rows, list);
            taken == pooled[..if |pooled| < limit then |pooled| else limit]
    ensures forall b <- PooledIn(rows, list[..i]) :: b in rows && rows[b] == Pooled
    ensures |PooledIn(rows, list[..i])| < limit ==>
              forall b <- rows :: rows[b] == Pooled && b in list ==> b in PooledIn(rows, list[..i])
  {
    PooledPrefix(rows, list, i);
    if i == |list| { assert list[..i] == list; }
    forall b
      ensures b in PooledIn(rows, list[..i]) <==> b in list[..i] && b in rows && rows[b] == Pooled
    {
      PooledAre(rows, list[..i], b);
    }
  }

  lemma {:induction false} MembersFew(boxes: seq<Box>)
    ensures |Members(boxes)| <= |boxes|
  {
    if boxes != [] {
      var before, b := boxes[..|boxes| - 1], boxes[|boxes| - 1];
      MembersFew(before);
      assert boxes == before + [b];
      assert Members(boxes) == Members(before) + {b};
      GrowByOne(Members(before), b);
    }
  }

  lemma GrowByOne(bs: set<Box>, b: Box)
    ensures |bs + {b}| <= |bs| + 1
  {
    if b in bs { assert bs + {b} == bs; }
  }
}
