/** The output buffer of an exec session, with its subscribers (internal/sandbox/scrollback.go). Its
    operations are shown to be the steps of `OutputView`, for every subscriber. */
module Scrollback {
  import opened OutputView

  datatype Chunk = Chunk(stream: int, data: seq<int>, number: nat)

  const DEFAULT_MAX := 1048576

  function Bytes(cs: seq<Chunk>): nat {
    if cs == [] then 0 else |cs[0].data| + Bytes(cs[1..])
  }

  lemma {:induction false} BytesAppend(cs: seq<Chunk>, c: Chunk)
    ensures Bytes(cs + [c]) == Bytes(cs) + |c.data|
  {
    if cs == [] {
      assert cs + [c] == [c];
      assert [c][1..] == [];
    } else {
      BytesAppend(cs[1..], c);
      assert (cs + [c])[1..] == cs[1..] + [c];
    }
  }

  /** `first` is where the longest tail of at most `max` bytes starts: it fits, and one chunk more
      does not. */
  ghost predicate LongestTail(all: seq<Chunk>, max: nat, first: nat) {
    first <= |all| && Bytes(all[first..]) <= max && Tight(all, max, first)
  }

  ghost predicate Tight(all: seq<Chunk>, max: nat, first: nat)
    requires first <= |all|
  {
    first > 0 ==> Bytes(all[first - 1..]) > max
  }

  lemma {:induction false} BytesShrink(all: seq<Chunk>, i: nat, j: nat)
    requires i <= j <= |all|
    ensures Bytes(all[j..]) <= Bytes(all[i..])
    decreases j - i
  {
    if i < j {
      BytesShrink(all, i + 1, j);
      assert all[i..][1..] == all[i + 1..];
    }
  }

  /** Every longer tail is too long, so there is only one such tail. */
  lemma LongestTailIsLongest(all: seq<Chunk>, max: nat, first: nat, i: nat)
    requires LongestTail(all, max, first) && i <= |all|
    ensures Bytes(all[i..]) <= max <==> first <= i
  {
    if i < first { BytesShrink(all, i, first - 1); } else { BytesShrink(all, first, i); }
  }

  lemma TailGrows(all: seq<Chunk>, c: Chunk, max: nat, first: nat)
    requires LongestTail(all, max, first)
    ensures Tight(all + [c], max, first)
    ensures Bytes((all + [c])[first..]) == Bytes(all[first..]) + |c.data|
  {
    assert (all + [c])[first..] == all[first..] + [c];
    BytesAppend(all[first..], c);
    if first > 0 {
      assert (all + [c])[first - 1..] == all[first - 1..] + [c];
      BytesAppend(all[first - 1..], c);
    }
  }

  function Numbers(cs: seq<Chunk>): seq<nat> {
    seq(|cs|, i requires 0 <= i < |cs| => cs[i].number)
  }

  /** An append and, for a subscriber, the send that follows it. */
  function Written(v: View, w: Writer, first: nat): View
    requires Enabled(v, Append(w, first))
  {
    var v1 := Step(v, Append(w, first));
    if v.phase == Live then Step(v1, Send(w)) else v1
  }

  class Buffer {
    var chunks: seq<Chunk>
    var totalLen: int
    var maxBytes: int
    var next: nat
    var evicted: bool
    /** the channels, by a name given at subscription */
    var subs: map<nat, seq<Chunk>>
    var nextSub: nat
    ghost var all: seq<Chunk>
    ghost var first: nat

    /** The buffer holds the longest tail of everything written that fits. */
    ghost predicate Valid()
      reads this
    {
      && maxBytes > 0
      && next == |all|
      && (forall i :: 0 <= i < |all| ==> all[i].number == i && all[i].data != [])
      && LongestTail(all, maxBytes, first)
      && chunks == all[first..]
      && totalLen == Bytes(chunks)
      && (evicted <==> first > 0)
      && forall sub <- subs :: sub < nextSub
    }

    /** `v` is the view of the client whose channel is `sub`. */
    ghost predicate Shows(v: View, sub: nat)
      reads this
    {
      && v.count == |all| && v.first == first
      && (v.phase == Live ==> sub in subs && Numbers(subs[sub]) == v.queue)
    }

    constructor (max: int)
      ensures Valid() && all == [] && maxBytes == if max <= 0 then 1048576 else max
      ensures forall sub :: Shows(START, sub)
    {
      chunks, totalLen, next, evicted := [], 0, 0, false;
      maxBytes := if max <= 0 then DEFAULT_MAX else max;
      subs, nextSub := map[], 0;
      all, first := [], 0;
    }

    /** The part of a write that holds the lock: the chunk is buffered and the channels to send it to
        are noted. */
    method Add(stream: int, data: seq<int>, ghost v: View, ghost sub: nat, ghost w: Writer)
      returns (c: Chunk, targets: set<nat>, ghost v': View)
      requires Valid() && data != [] && Shows(v, sub) && Unsent(v, w).None?
      modifies this
      ensures Valid() && maxBytes == old(maxBytes) && c == Chunk(stream, data, |old(all)|) && all == old(all) + [c]
      ensures targets == subs.Keys && unchanged(`subs, `nextSub)
      ensures Enabled(v, Append(w, first)) && v' == Step(v, Append(w, first)) && Shows(v', sub)
    {
      c := Keep(stream, data);
      targets := subs.Keys;
      v' := Step(v, Append(w, first));
    }

    /** The chunk joins the buffer, and the oldest ones make room. */
    method Keep(stream: int, data: seq<int>) returns (c: Chunk)
      requires Valid() && data != []
      modifies this`chunks, this`totalLen, this`next, this`evicted, this`all, this`first
      ensures Valid() && c == Chunk(stream, data, |old(all)|) && all == old(all) + [c] && old(first) <= first
    {
      c := Chunk(stream, data, next);
      next := next + 1;
      TailGrows(all, c, maxBytes, first);
      assert (all + [c])[first..] == chunks + [c];
      chunks := chunks + [c];
      totalLen := totalLen + |data|;
      all := all + [c];
      Evict();
    }

    /** A send that does not block: a full channel drops the chunk. */
    method Offer(to: nat, c: Chunk)
      modifies this`subs
      ensures subs.Keys == old(subs).Keys
      ensures forall sub <- subs :: subs[sub] == if sub == to && |old(subs)[sub]| < QUEUE_MAX then old(subs)[sub] + [c] else old(subs)[sub]
    {
      if to in subs && |subs[to]| < QUEUE_MAX {
        subs := subs[to := subs[to] + [c]];
      }
    }

    /** The send to the client's own channel is the `Send` of the writer that holds the chunk. */
    method OfferTo(sub: nat, c: Chunk, ghost v: View, ghost w: Writer) returns (ghost v': View)
      requires Shows(v, sub) && v.phase == Live && Unsent(v, w) == Some(c.number)
      modifies this`subs
      ensures Enabled(v, Send(w)) && v' == Step(v, Send(w)) && Shows(v', sub)
      ensures subs.Keys == old(subs).Keys
      ensures forall x <- subs :: x != sub ==> subs[x] == old(subs)[x]
      ensures subs[sub] == if |old(subs)[sub]| < QUEUE_MAX then old(subs)[sub] + [c] else old(subs)[sub]
    {
      v' := Step(v, Send(w));
      Offer(sub, c);
      assert Numbers(old(subs)[sub] + [c]) == Numbers(old(subs)[sub]) + [c.number];
    }

    /** A write that no other interrupts: every channel with room gets the chunk. */
    method Write(stream: int, data: seq<int>, ghost v: View, ghost sub: nat, ghost w: Writer) returns (ghost v': View)
      requires Valid() && Shows(v, sub) && Unsent(v, w).None?
      modifies this
      ensures Valid() && maxBytes == old(maxBytes) && subs.Keys == old(subs).Keys
      ensures all == if data == [] then old(all) else old(all) + [Chunk(stream, data, |old(all)|)]
      ensures data != [] ==> forall x <- subs ::
                subs[x] == if |old(subs)[x]| < QUEUE_MAX then old(subs)[x] + [Chunk(stream, data, |old(all)|)] else old(subs)[x]
      ensures data == [] ==> v' == v && subs == old(subs)
      ensures data != [] ==> Enabled(v, Append(w, first)) && v' == Written(v, w, first)
      ensures Shows(v', sub)
    {
      v' := v;
      if |data| == 0 { return; }
      var c, targets;
      c, targets, v' := Add(stream, data, v, sub, w);
      v' := FanOut(c, targets, v', sub, w);
    }

    method FanOut(c: Chunk, targets: set<nat>, ghost v: View, ghost sub: nat, ghost w: Writer) returns (ghost v': View)
      requires Shows(v, sub) && targets == subs.Keys && (v.phase == Live ==> Unsent(v, w) == Some(c.number))
      modifies this`subs
      ensures subs.Keys == old(subs).Keys
      ensures forall x <- subs :: subs[x] == if |old(subs)[x]| < QUEUE_MAX then old(subs)[x] + [c] else old(subs)[x]
      ensures v' == (if v.phase == Live then Step(v, Send(w)) else v) && Shows(v', sub)
    {
      var rest := targets;
      while rest != {}
        invariant rest <= targets && subs.Keys == old(subs).Keys
        invariant forall x <- subs ::
          subs[x] == if x !in rest && |old(subs)[x]| < QUEUE_MAX then old(subs)[x] + [c] else old(subs)[x]
        decreases rest
      {
        var to :| to in rest;
        Offer(to, c);
        rest := rest - {to};
      }
      v' := if v.phase == Live then Step(v, Send(w)) else v;
      if v.phase == Live {
        assert Numbers(old(subs)[sub] + [c]) == Numbers(old(subs)[sub]) + [c.number];
      }
    }

    /** Drops the oldest chunks until the rest fits. */
    method Evict()
      requires first <= |all| && chunks == all[first..] && totalLen == Bytes(chunks) && maxBytes > 0
      requires Tight(all, maxBytes, first)
      requires evicted <==> first > 0
      modifies this`chunks, this`totalLen, this`evicted, this`first
      ensures LongestTail(all, maxBytes, first) && chunks == all[first..] && totalLen == Bytes(chunks)
      ensures (evicted <==> first > 0) && old(first) <= first
    {
      while totalLen > maxBytes && |chunks| > 0
        invariant first <= |all| && chunks == all[first..] && totalLen == Bytes(chunks)
        invariant Tight(all, maxBytes, first) && old(first) <= first
        invariant evicted <==> first > 0
        decreases |chunks|
      {
        totalLen := totalLen - |chunks[0].data|;
        chunks := chunks[1..];
        evicted := true;
        first := first + 1;
        assert all[first - 1..][1..] == all[first..];
      }
    }

    /** The snapshot an attaching client is sent: the numbers `first` to `count`. */
    method Snapshot(ghost v: View, ghost sub: nat) returns (cs: seq<Chunk>, ghost v': View)
      requires Valid() && Shows(v, sub) && Enabled(v, Event.Snapshot)
      ensures cs == all[first..] && v' == Step(v, Event.Snapshot) && Shows(v', sub)
      ensures Numbers(cs) == Range(v'.from, v'.shot)
    {
      cs := chunks;
      v' := Step(v, Event.Snapshot);
    }

    method Subscribe(ghost v: View) returns (sub: nat, ghost v': View)
      requires Valid() && v.count == |all| && v.first == first && Enabled(v, Event.Subscribe) && v.queue == []
      modifies this`subs, this`nextSub
      ensures Valid() && sub !in old(subs) && subs == old(subs)[sub := []]
      ensures v' == Step(v, Event.Subscribe) && Shows(v', sub)
    {
      sub := nextSub;
      nextSub := nextSub + 1;
      subs := subs[sub := []];
      v' := Step(v, Event.Subscribe);
    }

    method Unsubscribe(sub: nat)
      requires Valid()
      modifies this`subs
      ensures Valid() && sub !in subs && forall x <- old(subs) :: x != sub ==> x in subs && subs[x] == old(subs)[x]
    {
      subs := subs - {sub};
    }

    /** The client takes the next chunk off its channel. */
    method Receive(sub: nat, ghost v: View) returns (c: Chunk, ghost v': View)
      requires Valid() && Shows(v, sub) && Enabled(v, Event.Receive)
      modifies this`subs
      ensures Valid() && v' == Step(v, Event.Receive) && Shows(v', sub) && v'.received == v.received + [c.number]
      ensures subs.Keys == old(subs).Keys && [c] + subs[sub] == old(subs)[sub]
      ensures forall x <- old(subs) :: x != sub ==> x in subs && subs[x] == old(subs)[x]
    {
      c := subs[sub][0];
      assert Numbers(subs[sub])[0] == c.number;
      assert Numbers(subs[sub][1..]) == Numbers(subs[sub])[1..];
      subs := subs[sub := subs[sub][1..]];
      v' := Step(v, Event.Receive);
    }
  }
}
