/** Capacity reservations in quarter-hour slots (internal/api/capacity.go). Times are nanoseconds
    since the Unix epoch, which is a whole number of days after Go's zero time. */
module Capacity {

  datatype Option<T> = None | Some(value: T)

  const MINUTE := 60 * 1000000000
  const SLOT := 15 * MINUTE
  const MIN_LEAD := 30 * MINUTE
  const MAX_INTERVALS := 96 * 7

  // ----- Alignment -----

  /** `Truncate`: rounds down, also before the epoch. */
  function Truncate(t: int): int {
    t - t % SLOT
  }

  predicate IsAligned(t: int) {
    t == Truncate(t)
  }

  function AlignUp(t: int): int {
    var floored := Truncate(t);
    if floored == t then floored else floored + SLOT
  }

  /** Two aligned times are equal or at least a slot apart. */
  lemma AlignedApart(s: int, t: int)
    requires IsAligned(s) && IsAligned(t) && s < t
    ensures s + SLOT <= t
  {
    var q, r := s / SLOT, t / SLOT;
    assert s == SLOT * q && t == SLOT * r;
  }

  /** The result is the least aligned time that is not before `t`. */
  lemma AlignUpIsLeast(t: int, u: int)
    ensures IsAligned(AlignUp(t)) && t <= AlignUp(t) < t + SLOT
    ensures IsAligned(u) ==> (u >= t <==> u >= AlignUp(t))
  {
    assert Truncate(t) == SLOT * (t / SLOT);
    TruncateAligned(t / SLOT);
    TruncateAligned(t / SLOT + 1);
    if IsAligned(u) && u >= t && u < AlignUp(t) {
      AlignedApart(u, AlignUp(t));
    }
  }

  lemma TruncateAligned(q: int)
    ensures IsAligned(SLOT * q)
  {
    assert SLOT * q % SLOT == 0;
  }

  // ----- Validating a request -----

  /** An interval of the request; a time that does not parse is `None`. */
  datatype Wanted = Wanted(start: Option<int>, end: Option<int>, gb: int)
  datatype Interval = Interval(start: int, end: int, gb: int)

  datatype Reason = Empty | TooMany | BadStart | BadEnd | Unaligned | NotOneSlot | BadCapacity | TooSoon | Duplicate
  datatype Result = Accepted(out: seq<Interval>) | Rejected(index: nat, reason: Reason)

  /** Go's `%` keeps the sign of its left operand; the test is the same for either convention. */
  predicate GoodCapacity(gb: int) {
    gb > 0 && gb % 4 == 0
  }

  /** One slot, aligned, of good capacity, at least half an hour from now. */
  predicate GoodInterval(w: Wanted, now: int) {
    && w.start.Some? && w.end.Some?
    && w.start.value % 900000000000 == 0 && w.end.value == w.start.value + 900000000000
    && GoodCapacity(w.gb) && w.start.value >= now + 1800000000000
  }

  predicate GoodUpTo(ws: seq<Wanted>, now: int, n: nat)
    requires n <= |ws|
  {
    && (forall i :: 0 <= i < n ==> GoodInterval(ws[i], now))
    && (forall i, j :: 0 <= i < j < n ==> ws[i].start != ws[j].start)
  }

  /** The intervals asked for, one by one and in their order. */
  predicate Transcribed(ws: seq<Wanted>, out: seq<Interval>) {
    && |out| == |ws|
    && forall i :: 0 <= i < |ws| ==> ws[i] == Wanted(Some(out[i].start), Some(out[i].end), out[i].gb)
  }

  predicate Overlap(a: Interval, b: Interval) {
    a.start < b.end && b.start < a.end
  }

  /** Why one interval is refused, in the order of the checks. */
  function Fault(w: Wanted, earliest: int, seen: set<int>): Option<Reason> {
    if w.start.None? then Some(BadStart)
    else if w.end.None? then Some(BadEnd)
    else if !IsAligned(w.start.value) then Some(Unaligned)
    else if w.end.value != w.start.value + SLOT then Some(NotOneSlot)
    else if w.gb <= 0 || w.gb % 4 != 0 then Some(BadCapacity)
    else if w.start.value < earliest then Some(TooSoon)
    else if w.start.value in seen then Some(Duplicate)
    else None
  }

  /** What a refusal says is so, of interval `i`; the numbers are nanoseconds. */
  predicate Blames(ws: seq<Wanted>, now: int, i: nat, reason: Reason)
    requires i < |ws|
  {
    var w := ws[i];
    match reason
    case BadStart => w.start.None?
    case BadEnd => w.start.Some? && w.end.None?
    case Unaligned => w.start.Some? && w.start.value % 900000000000 != 0
    case NotOneSlot => w.start.Some? && w.end.Some? && w.end.value - w.start.value != 900000000000
    case BadCapacity => w.gb <= 0 || w.gb % 4 != 0
    case TooSoon => w.start.Some? && w.start.value < now + 1800000000000
    case Duplicate => exists j :: 0 <= j < i && ws[j].start == w.start
    case _ => false
  }

  lemma FaultBlames(ws: seq<Wanted>, now: int, i: nat, out: seq<Interval>, seen: set<int>)
    requires i < |ws| && |out| == i && Transcribed(ws[..i], out)
    requires forall t :: t in seen <==> exists j :: 0 <= j < i && out[j].start == t
    requires Fault(ws[i], AlignUp(now + MIN_LEAD), seen).Some?
    ensures Blames(ws, now, i, Fault(ws[i], AlignUp(now + MIN_LEAD), seen).value)
  {
    var fault := Fault(ws[i], AlignUp(now + MIN_LEAD), seen).value;
    if fault == TooSoon {
      AlignUpIsLeast(now + MIN_LEAD, ws[i].start.value);
    } else if fault == Duplicate {
      var j :| 0 <= j < i && out[j].start == ws[i].start.value;
      assert ws[..i][j] == ws[j];
    }
  }

  lemma FaultIsExact(w: Wanted, now: int, seen: set<int>)
    ensures Fault(w, AlignUp(now + MIN_LEAD), seen).None? <==> GoodInterval(w, now) && w.start.value !in seen
  {
    if w.start.Some? {
      AlignUpIsLeast(now + MIN_LEAD, w.start.value);
    }
  }

  /** Accepts exactly the requests of 1 to 672 good intervals with distinct starts, and returns them
      in order; a refusal names the first interval at fault. */
  method Validate(ws: seq<Wanted>, now: int) returns (r: Result)
    ensures r.Accepted? <==> 0 < |ws| <= 672 && GoodUpTo(ws, now, |ws|)
    ensures r.Accepted? ==> Transcribed(ws, r.out)
    ensures r.Accepted? ==> forall i, j :: 0 <= i < j < |r.out| ==> !Overlap(r.out[i], r.out[j])
    ensures r.Rejected? && r.reason !in {Empty, TooMany} ==>
              r.index < |ws| && GoodUpTo(ws, now, r.index) && !GoodUpTo(ws, now, r.index + 1) && Blames(ws, now, r.index, r.reason)
    ensures r.Rejected? ==> (r.reason == Empty <==> ws == []) && (r.reason == TooMany <==> |ws| > 672)
  {
    if |ws| == 0 { return Rejected(0, Empty); }
    if |ws| > MAX_INTERVALS { return Rejected(0, TooMany); }
    var earliest := AlignUp(now + MIN_LEAD);
    var out: seq<Interval> := [];
    var seen: set<int> := {};
    var i := 0;
    while i < |ws|
      invariant 0 <= i <= |ws| && |out| == i
      invariant GoodUpTo(ws, now, i)
      invariant Transcribed(ws[..i], out)
      invariant forall t :: t in seen <==> exists j :: 0 <= j < i && out[j].start == t
    {
      FaultIsExact(ws[i], now, seen);
      var fault := Fault(ws[i], earliest, seen);
      if fault.Some? {
        Refused(ws, now, i, out, seen);
        FaultBlames(ws, now, i, out, seen);
        return Rejected(i, fault.value);
      }
      var next := Interval(ws[i].start.value, ws[i].end.value, ws[i].gb);
      out, seen := out + [next], seen + {ws[i].start.value};
      i := i + 1;
    }
    assert ws[..i] == ws;
    forall i, j | 0 <= i < j < |out|
      ensures !Overlap(out[i], out[j])
    {
      SlotsApart(ws, now, out, i, j);
    }
    r := Accepted(out);
  }

  lemma Refused(ws: seq<Wanted>, now: int, i: nat, out: seq<Interval>, seen: set<int>)
    requires i < |ws| && |out| == i && GoodUpTo(ws, now, i)
    requires Transcribed(ws[..i], out)
    requires forall t :: t in seen <==> exists j :: 0 <= j < i && out[j].start == t
    requires !(GoodInterval(ws[i], now) && ws[i].start.value !in seen)
    ensures !GoodUpTo(ws, now, i + 1) && !GoodUpTo(ws, now, |ws|)
  {
    if GoodInterval(ws[i], now) {
      var j :| 0 <= j < i && out[j].start == ws[i].start.value;
      assert ws[j].start == ws[i].start;
    }
  }

  lemma SlotsApart(ws: seq<Wanted>, now: int, out: seq<Interval>, i: nat, j: nat)
    requires i < j < |out| && GoodUpTo(ws, now, |ws|) && Transcribed(ws, out)
    ensures !Overlap(out[i], out[j])
  {
    assert GoodInterval(ws[i], now) && GoodInterval(ws[j], now) && ws[i].start != ws[j].start;
    if out[i].start < out[j].start {
      AlignedApart(out[i].start, out[j].start);
    } else {
      AlignedApart(out[j].start, out[i].start);
    }
  }
}
