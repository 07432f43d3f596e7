/** Usage of an organisation over a time window, as the shadow verifier derives it
    (`legacyTotals` in cmd/capacity-shadow-verify/main.go). Times are whole seconds; a disk total is
    kept in MB-seconds, of which 1024 make the source's GB-second. */
module Usage {

  datatype Option<T> = None | Some(value: T)

  /** A sandbox ran at one size from `start` to `end`, or still does. */
  datatype Event = Event(mem: nat, disk: nat, start: int, end: Option<int>)

  const FREE_DISK := 20480

  // ----- One event -----

  ghost predicate WellFormed(e: Event) {
    e.end.Some? ==> e.start <= e.end.value
  }

  predicate Counted(e: Event, from: int, to: int) {
    e.start < to && (e.end.None? || e.end.value > from)
  }

  function Min(a: int, b: int): int { if a < b then a else b }
  function Max(a: int, b: int): int { if a > b then a else b }

  /** The seconds of an event inside the window. */
  function Seconds(e: Event, from: int, to: int): int {
    if Counted(e, from, to) then Min(if e.end.None? then to else e.end.value, to) - Max(e.start, from) else 0
  }

  /** What is added up: the memory of one size, in whole GB, or the disk above 20 GB, in MB. */
  datatype Measure = Tier(mem: nat) | Disk

  function Weight(m: Measure, mem: nat, disk: nat): nat {
    match m
    case Tier(of) => if mem == of then mem / 1024 else 0
    case Disk => if disk > FREE_DISK then disk - FREE_DISK else 0
  }

  predicate RunsAt(e: Event, t: int) {
    e.start <= t && (e.end.Some? ==> t < e.end.value)
  }

  /** How many of the `n` seconds after `from` the event runs, counted one by one. */
  function CountRunning(e: Event, from: int, n: nat): nat {
    if n == 0 then 0 else CountRunning(e, from, n - 1) + if RunsAt(e, from + n - 1) then 1 else 0
  }

  /** The seconds of an event are those at which it ran inside the window. */
  lemma {:induction false} SecondsAreCounted(e: Event, from: int, n: nat)
    requires WellFormed(e)
    ensures Seconds(e, from, from + n) == CountRunning(e, from, n)
  {
    if n > 0 { SecondsAreCounted(e, from, n - 1); }
  }

  /** Whole GB of memory, for its own size only; disk in MB beyond 20480. */
  lemma WeightExactly(m: Measure, mem: nat, disk: nat)
    ensures m.Tier? && m.mem == mem ==> 1024 * Weight(m, mem, disk) <= mem < 1024 * (Weight(m, mem, disk) + 1)
    ensures m.Tier? && m.mem != mem ==> Weight(m, mem, disk) == 0
    ensures m.Disk? && disk >= 20480 ==> Weight(m, mem, disk) + 20480 == disk
    ensures m.Disk? && disk < 20480 ==> Weight(m, mem, disk) == 0
  {
  }

  /** Clipping is additive: adjacent windows neither lose nor double-count a second. The one
      exception is an event that ends before it starts, around the seam of the windows. */
  lemma ClipAdds(e: Event, a: int, b: int, c: int)
    requires a <= b <= c
    ensures Seconds(e, a, c) == Seconds(e, a, b) + Seconds(e, b, c)
       <==> !(e.end.Some? && e.end.value < e.start && a < e.end.value <= b <= e.start < c)
    ensures WellFormed(e) ==> 0 <= Seconds(e, a, c) <= c - a
  {
  }

  // ----- All events, one by one -----

  function Total(es: seq<Event>, from: int, to: int, m: Measure): int {
    if es == [] then 0
    else
      var e := es[|es| - 1];
      Total(es[..|es| - 1], from, to, m) + Weight(m, e.mem, e.disk) * Seconds(e, from, to)
  }

  lemma Distribute(k: int, x: int, y: int)
    ensures k * (x + y) == k * x + k * y
  {
  }

  /** Totals over adjacent windows add up, for every list of events and every measure. */
  lemma {:induction false} WindowsAdd(es: seq<Event>, a: int, b: int, c: int, m: Measure)
    requires a <= b <= c && forall e <- es :: WellFormed(e)
    ensures Total(es, a, c, m) == Total(es, a, b, m) + Total(es, b, c, m)
  {
    if es != [] {
      var before, e := es[..|es| - 1], es[|es| - 1];
      forall x | x in before
        ensures WellFormed(x)
      {
        assert x in es;
      }
      WindowsAdd(before, a, b, c, m);
      assert e in es;
      ClipAdds(e, a, b, c);
      Distribute(Weight(m, e.mem, e.disk), Seconds(e, a, b), Seconds(e, b, c));
    }
  }

  // ----- Grouped, as the query returns them -----

  datatype Group = Group(mem: nat, disk: nat, secs: int)

  function GroupSeconds(es: seq<Event>, from: int, to: int, mem: nat, disk: nat): int {
    if es == [] then 0
    else
      var e := es[|es| - 1];
      GroupSeconds(es[..|es| - 1], from, to, mem, disk)
      + if e.mem == mem && e.disk == disk then Seconds(e, from, to) else 0
  }

  predicate HasGroup(gs: seq<Group>, mem: nat, disk: nat) {
    exists i :: 0 <= i < |gs| && gs[i].mem == mem && gs[i].disk == disk
  }

  ghost predicate DistinctGroups(gs: seq<Group>) {
    forall i, j :: 0 <= i < j < |gs| ==> gs[i].mem != gs[j].mem || gs[i].disk != gs[j].disk
  }

  /** The rows of the query: one per size of a counted event, with its seconds, in any order. */
  ghost predicate Grouped(es: seq<Event>, from: int, to: int, gs: seq<Group>) {
    && DistinctGroups(gs)
    && (forall i :: 0 <= i < |gs| ==> gs[i].secs == GroupSeconds(es, from, to, gs[i].mem, gs[i].disk))
    && (forall e <- es :: Counted(e, from, to) ==> HasGroup(gs, e.mem, e.disk))
  }

  function GroupTotal(gs: seq<Group>, m: Measure): int {
    if gs == [] then 0
    else
      var g := gs[|gs| - 1];
      GroupTotal(gs[..|gs| - 1], m) + Weight(m, g.mem, g.disk) * g.secs
  }

  // The totals of the groups equal the totals of the events. The proof takes the groups one at a
  // time: `TotalIn` counts the events whose size is among the groups taken so far.

  ghost function TotalIn(es: seq<Event>, gs: seq<Group>, from: int, to: int, m: Measure): int {
    if es == [] then 0
    else
      var e := es[|es| - 1];
      TotalIn(es[..|es| - 1], gs, from, to, m)
      + if HasGroup(gs, e.mem, e.disk) then Weight(m, e.mem, e.disk) * Seconds(e, from, to) else 0
  }

  lemma HasGroupSnoc(gs: seq<Group>, g: Group, mem: nat, disk: nat)
    ensures HasGroup(gs + [g], mem, disk) <==> HasGroup(gs, mem, disk) || (g.mem == mem && g.disk == disk)
  {
    var all := gs + [g];
    if HasGroup(gs, mem, disk) {
      var i :| 0 <= i < |gs| && gs[i].mem == mem && gs[i].disk == disk;
      assert all[i] == gs[i];
    }
    assert all[|gs|] == g;
  }

  /** One more group brings in exactly the events of its size. */
  lemma {:induction false} OneMoreGroup(es: seq<Event>, gs: seq<Group>, g: Group, from: int, to: int, m: Measure)
    requires !HasGroup(gs, g.mem, g.disk)
    ensures TotalIn(es, gs + [g], from, to, m)
         == TotalIn(es, gs, from, to, m) + Weight(m, g.mem, g.disk) * GroupSeconds(es, from, to, g.mem, g.disk)
  {
    if es != [] {
      var before, e := es[..|es| - 1], es[|es| - 1];
      OneMoreGroup(before, gs, g, from, to, m);
      HasGroupSnoc(gs, g, e.mem, e.disk);
      if e.mem == g.mem && e.disk == g.disk {
        Distribute(Weight(m, g.mem, g.disk), GroupSeconds(before, from, to, g.mem, g.disk), Seconds(e, from, to));
      }
    }
  }

  lemma {:induction false} NoGroups(es: seq<Event>, from: int, to: int, m: Measure)
    ensures TotalIn(es, [], from, to, m) == 0
  {
    if es != [] { NoGroups(es[..|es| - 1], from, to, m); }
  }

  lemma {:induction false} GroupsCount(es: seq<Event>, from: int, to: int, gs: seq<Group>, m: Measure)
    requires DistinctGroups(gs)
    requires forall i :: 0 <= i < |gs| ==> gs[i].secs == GroupSeconds(es, from, to, gs[i].mem, gs[i].disk)
    ensures GroupTotal(gs, m) == TotalIn(es, gs, from, to, m)
  {
    if gs == [] {
      NoGroups(es, from, to, m);
    } else {
      var before, g := gs[..|gs| - 1], gs[|gs| - 1];
      GroupsCount(es, from, to, before, m);
      OneMoreGroup(es, before, g, from, to, m);
      assert before + [g] == gs;
    }
  }

  /** Events outside the window count for nothing. */
  lemma {:induction false} AllCounted(es: seq<Event>, from: int, to: int, gs: seq<Group>, m: Measure)
    requires forall e <- es :: Counted(e, from, to) ==> HasGroup(gs, e.mem, e.disk)
    ensures TotalIn(es, gs, from, to, m) == Total(es, from, to, m)
  {
    if es != [] {
      var before, e := es[..|es| - 1], es[|es| - 1];
      forall x | x in before && Counted(x, from, to)
        ensures HasGroup(gs, x.mem, x.disk)
      {
        assert x in es;
      }
      AllCounted(before, from, to, gs, m);
      assert e in es;
    }
  }

  /** Grouping by size first gives the same totals as going event by event. */
  lemma GroupingIsExact(es: seq<Event>, from: int, to: int, gs: seq<Group>, m: Measure)
    requires Grouped(es, from, to, gs)
    ensures GroupTotal(gs, m) == Total(es, from, to, m)
  {
    GroupsCount(es, from, to, gs, m);
    AllCounted(es, from, to, gs, m);
  }

  function Lookup(tiers: map<nat, int>, mem: nat): int {
    if mem in tiers then tiers[mem] else 0
  }

  /** The loop over the rows: its totals are those of the events, one by one. */
  method LegacyTotals(ghost es: seq<Event>, from: int, to: int, gs: seq<Group>) returns (tiers: map<nat, int>, disk: int)
    requires Grouped(es, from, to, gs)
    ensures forall mem: nat :: Lookup(tiers, mem) == Total(es, from, to, Tier(mem))
    ensures disk == Total(es, from, to, Disk)
  {
    tiers, disk := map[], 0;
    var i := 0;
    while i < |gs|
      invariant 0 <= i <= |gs|
      invariant forall mem: nat :: Lookup(tiers, mem) == GroupTotal(gs[..i], Tier(mem))
      invariant disk == GroupTotal(gs[..i], Disk)
    {
      var g := gs[i];
      assert gs[..i + 1][..i] == gs[..i];
      var gbs := g.mem / 1024 * g.secs;
      tiers := tiers[g.mem := Lookup(tiers, g.mem) + gbs];
      if g.disk > FREE_DISK {
        disk := disk + (g.disk - FREE_DISK) * g.secs;
      }
      i := i + 1;
    }
    assert gs[..i] == gs;
    forall mem: nat
      ensures GroupTotal(gs, Tier(mem)) == Total(es, from, to, Tier(mem))
    {
      GroupingIsExact(es, from, to, gs, Tier(mem));
    }
    GroupingIsExact(es, from, to, gs, Disk);
  }
}
