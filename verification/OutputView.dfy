/** What one client sees of the output of an exec session: the snapshot it is sent when it attaches
    (internal/agent/exec_session.go) and the chunks that reach its subscription
    (internal/sandbox/scrollback.go). The two writers, for stdout and stderr, append under the lock
    and send to the subscribers after releasing it, so their sends interleave. Chunks are named by
    their number. */
module OutputView {

  datatype Option<T> = None | Some(value: T)
  datatype Writer = Stdout | Stderr

  /** Before the snapshot, between snapshot and subscription, subscribed. */
  datatype Phase = Away | Looked | Live

  const QUEUE_MAX := 256

  /** `count` chunks were appended and those from `first` on are buffered. The snapshot was
      `from` to `shot`; the subscription started at `start`. `out` and `err` are the chunks the
      writers have appended and not yet sent to this client. `drops`, `gap` and `overtaken` record
      what went wrong: chunks dropped because the queue was full, an append between snapshot and
      subscription, a chunk sent before an older one. */
  datatype View = View(count: nat, first: nat, phase: Phase, from: nat, shot: nat, start: nat,
                       out: Option<nat>, err: Option<nat>, queue: seq<nat>, received: seq<nat>,
                       drops: nat, gap: bool, overtaken: bool)

  const START := View(0, 0, Away, 0, 0, 0, None, None, [], [], 0, false, false)

  /** An append may evict: `first` is where the buffer starts afterwards. */
  datatype Event = Append(w: Writer, first: nat) | Send(w: Writer) | Snapshot | Subscribe | Receive

  function Unsent(v: View, w: Writer): Option<nat> {
    if w == Stdout then v.out else v.err
  }

  function Other(w: Writer): Writer {
    if w == Stdout then Stderr else Stdout
  }

  function SetUnsent(v: View, w: Writer, n: Option<nat>): View {
    if w == Stdout then v.(out := n) else v.(err := n)
  }

  predicate Enabled(v: View, e: Event) {
    match e
    case Append(w, first) => Unsent(v, w).None? && v.first <= first <= v.count + 1
    case Send(w) => Unsent(v, w).Some?
    case Snapshot => v.phase == Away
    case Subscribe => v.phase == Looked
    case Receive => v.phase == Live && v.queue != []
  }

  function Step(v: View, e: Event): View
    requires Enabled(v, e)
  {
    match e
    case Append(w, first) =>
      var v1 := v.(count := v.count + 1, first := first, gap := v.gap || v.phase == Looked);
      if v.phase == Live then SetUnsent(v1, w, Some(v.count)) else v1
    case Send(w) =>
      var n, older := Unsent(v, w).value, Unsent(v, Other(w));
      var v1 := SetUnsent(v, w, None).(overtaken := v.overtaken || (older.Some? && older.value < n));
      if |v.queue| < QUEUE_MAX then v1.(queue := v.queue + [n]) else v1.(drops := v.drops + 1)
    case Snapshot => v.(phase := Looked, from := v.first, shot := v.count)
    case Subscribe => v.(phase := Live, start := v.count)
    case Receive => v.(received := v.received + [v.queue[0]], queue := v.queue[1..])
  }

  ghost predicate Runs(v: View, es: seq<Event>)
    decreases |es|, 0
  {
    es == [] || (Runs(v, es[..|es| - 1]) && Enabled(After(v, es[..|es| - 1]), es[|es| - 1]))
  }

  ghost function After(v: View, es: seq<Event>): View
    requires Runs(v, es)
    decreases |es|, 1
  {
    if es == [] then v else Step(After(v, es[..|es| - 1]), es[|es| - 1])
  }

  // ----- Invariant -----

  function Range(a: nat, b: nat): seq<nat>
    requires a <= b
  {
    seq(b - a, i requires 0 <= i => a + i)
  }

  ghost predicate Ascending(s: seq<nat>) {
    forall i, j :: 0 <= i < j < |s| ==> s[i] < s[j]
  }

  /** The chunks that reached the subscription, in order. */
  function Reached(v: View): seq<nat> {
    v.received + v.queue
  }

  function Size(n: Option<nat>): nat {
    if n.Some? then 1 else 0
  }

  ghost predicate Times(v: View) {
    && v.first <= v.count
    && (v.phase == Away ==> !v.gap)
    && (v.phase != Away ==> v.from <= v.shot <= v.count)
    && (v.phase == Looked ==> (v.gap <==> v.shot < v.count))
    && (v.phase == Live ==> v.shot <= v.start <= v.count && (v.gap <==> v.shot < v.start))
    && (v.phase != Live ==> v.out.None? && v.err.None? && Reached(v) == [] && v.drops == 0 && !v.overtaken)
  }

  /** Of the chunks since the subscription each has arrived, was dropped, or is not yet sent. */
  ghost predicate Counted(v: View) {
    && |Reached(v)| + Size(v.out) + Size(v.err) + v.drops == v.count - v.start
    && (v.out.Some? ==> v.start <= v.out.value < v.count)
    && (v.err.Some? ==> v.start <= v.err.value < v.count)
    && (v.out.Some? && v.err.Some? ==> v.out.value != v.err.value)
  }

  ghost predicate InOrder(v: View) {
    var next := v.start + |Reached(v)|;
    && Reached(v) == Range(v.start, next)
    && (v.out.Some? ==> v.out.value >= next) && (v.err.Some? ==> v.err.value >= next)
  }

  ghost predicate Passed(r: seq<nat>, n: nat) {
    exists i :: 0 <= i < |r| && r[i] > n
  }

  ghost predicate Late(v: View, n: Option<nat>) {
    n.Some? && Passed(Reached(v), n.value)
  }

  ghost predicate Inv(v: View) {
    && Times(v)
    && (v.phase == Live ==>
          && Counted(v)
          && (!v.overtaken && v.drops == 0 ==> InOrder(v))
          && (v.overtaken ==> v.drops > 0 || Late(v, v.out) || Late(v, v.err) || !Ascending(Reached(v))))
  }

  lemma AppendBefore(v: View, e: Event)
    requires Inv(v) && Enabled(v, e) && e.Append? && v.phase != Live
    ensures Inv(Step(v, e))
  {
    assert Reached(Step(v, e)) == Reached(v);
  }

  lemma AppendKeeps(v: View, e: Event)
    requires Inv(v) && Enabled(v, e) && e.Append? && v.phase == Live
    ensures Inv(Step(v, e))
  {
    var v' := Step(v, e);
    assert Reached(v') == Reached(v);
    assert Late(v, v.out) ==> Late(v', v'.out);
    assert Late(v, v.err) ==> Late(v', v'.err);
  }

  lemma SendInOrder(v: View, e: Event)
    requires Inv(v) && Enabled(v, e) && e.Send? && v.phase == Live && |v.queue| < QUEUE_MAX && InOrder(v) && v.drops == 0
    requires Reached(Step(v, e)) == Reached(v) + [Unsent(v, e.w).value] && !Step(v, e).overtaken
    ensures InOrder(Step(v, e))
  {
    assert Unsent(v, e.w).value == v.start + |Reached(v)|;
  }

  /** A send into a queue with room. */
  lemma SendKeeps(v: View, e: Event)
    requires Inv(v) && Enabled(v, e) && e.Send? && v.phase == Live && |v.queue| < QUEUE_MAX
    ensures Inv(Step(v, e))
  {
    var v' := Step(v, e);
    assert Reached(v') == Reached(v) + [Unsent(v, e.w).value];
    if v'.overtaken {
      SendLate(v, e);
    } else if v.drops == 0 {
      SendInOrder(v, e);
    }
  }

  lemma SendLate(v: View, e: Event)
    requires Inv(v) && Enabled(v, e) && e.Send? && v.phase == Live && |v.queue| < QUEUE_MAX && Step(v, e).overtaken
    requires Reached(Step(v, e)) == Reached(v) + [Unsent(v, e.w).value]
    ensures var v' := Step(v, e); v'.drops > 0 || Late(v', v'.out) || Late(v', v'.err) || !Ascending(Reached(v'))
  {
    var n, older := Unsent(v, e.w).value, Unsent(v, Other(e.w));
    assert Unsent(Step(v, e), Other(e.w)) == older;
    if older.Some? && (older.value < n || Passed(Reached(v), older.value)) {
      PassedSnoc(Reached(v), n, older.value);
    } else if v.drops == 0 {
      OutOfOrder(Reached(v), n);
    }
  }

  lemma PassedSnoc(r: seq<nat>, n: nat, m: nat)
    requires m < n || Passed(r, m)
    ensures Passed(r + [n], m)
  {
    if i :| 0 <= i < |r| && r[i] > m {
      assert (r + [n])[i] > m;
    } else {
      assert (r + [n])[|r|] > m;
    }
  }

  lemma OutOfOrder(r: seq<nat>, n: nat)
    requires Passed(r, n) || !Ascending(r)
    ensures !Ascending(r + [n])
  {
    if i :| 0 <= i < |r| && r[i] > n {
      assert (r + [n])[i] > (r + [n])[|r|];
    } else {
      var i, j :| 0 <= i < j < |r| && r[i] >= r[j];
      assert (r + [n])[i] >= (r + [n])[j];
    }
  }

  lemma ReceiveKeeps(v: View)
    requires Inv(v) && Enabled(v, Receive)
    ensures Inv(Step(v, Receive))
  {
    var v' := Step(v, Receive);
    assert v.queue == [v.queue[0]] + v.queue[1..];
    assert Reached(v') == Reached(v);
    assert Late(v, v.out) ==> Late(v', v'.out);
    assert Late(v, v.err) ==> Late(v', v'.err);
  }

  /** A send into a full queue, the snapshot and the subscription. */
  lemma RestKeeps(v: View, e: Event)
    requires Inv(v) && Enabled(v, e) && (e.Snapshot? || e.Subscribe? || (e.Send? && |v.queue| >= QUEUE_MAX))
    ensures Inv(Step(v, e))
  {
    if e.Subscribe? {
      assert Reached(Step(v, e)) == [] == Range(v.count, v.count);
    }
  }

  lemma InvStep(v: View, e: Event)
    requires Inv(v) && Enabled(v, e)
    ensures Inv(Step(v, e))
  {
    if e.Append? && v.phase == Live { AppendKeeps(v, e); }
    else if e.Append? { AppendBefore(v, e); }
    else if e.Send? && |v.queue| < QUEUE_MAX { SendKeeps(v, e); }
    else if e.Receive? { ReceiveKeeps(v); }
    else { RestKeeps(v, e); }
  }

  lemma {:induction false} InvRun(es: seq<Event>)
    requires Runs(START, es)
    ensures Inv(After(START, es))
  {
    if es != [] {
      InvRun(es[..|es| - 1]);
      InvStep(After(START, es[..|es| - 1]), es[|es| - 1]);
    }
  }

  /** A chunk is dropped only by a send that finds 256 chunks in the queue; any other send queues it
      last, and nothing else is lost. */
  lemma DropExact(v: View, e: Event)
    requires Enabled(v, e)
    ensures Step(v, e).drops == if e.Send? && |v.queue| >= 256 then v.drops + 1 else v.drops
    ensures e.Send? && |v.queue| < 256 ==> Step(v, e).queue == v.queue + [Unsent(v, e.w).value]
    ensures e.Append? && v.phase == Live ==> Unsent(Step(v, e), e.w) == Some(v.count)
    ensures e.Receive? ==> Reached(Step(v, e)) == Reached(v)
  {
    if e.Receive? { assert v.queue == [v.queue[0]] + v.queue[1..]; }
  }

  // ----- What the client sees -----

  function Shown(v: View): seq<nat>
    requires v.from <= v.shot
  {
    Range(v.from, v.shot) + v.received
  }

  /** Everything appended has been sent to the client, and received. */
  predicate Quiet(v: View) {
    v.phase == Live && v.out.None? && v.err.None? && v.queue == []
  }

  lemma RangesMeet(a: nat, b: nat, c: nat)
    requires a <= b <= c
    ensures Range(a, b) + Range(b, c) == Range(a, c)
  {
  }

  lemma QuietExact(v: View)
    requires Inv(v) && Quiet(v)
    ensures v.from <= v.shot <= v.count
    ensures Shown(v) == Range(v.from, v.count) <==> !v.gap && v.drops == 0 && !v.overtaken
  {
    assert Reached(v) == v.received;
    if !v.gap && v.drops == 0 && !v.overtaken {
      RangesMeet(v.from, v.shot, v.count);
    } else if v.gap || v.drops > 0 {
      assert |Shown(v)| < |Range(v.from, v.count)|;
    } else {
      NotAscending(v);
    }
  }

  /** Over every run: once all is sent and received, the client has seen all output from its first
      chunk on, in order and each chunk once, if and only if nothing was appended between its snapshot
      and its subscription, its queue never overflowed and no send overtook an older one. */
  lemma {:induction false} AttachExact(es: seq<Event>)
    requires Runs(START, es) && Quiet(After(START, es))
    ensures var v := After(START, es);
            && v.from <= v.shot <= v.count
            && (Shown(v) == Range(v.from, v.count) <==> !v.gap && v.drops == 0 && !v.overtaken)
  {
    InvRun(es);
    QuietExact(After(START, es));
  }

  lemma NotAscending(v: View)
    requires v.from <= v.shot <= v.count && !Ascending(v.received)
    ensures Shown(v) != Range(v.from, v.count)
  {
    var i, j :| 0 <= i < j < |v.received| && v.received[i] >= v.received[j];
    var k := v.shot - v.from;
    assert Shown(v)[k + i] == v.received[i] && Shown(v)[k + j] == v.received[j];
  }

  /** Nothing is appended in the gap and nothing dropped, and still the client sees the second chunk
      before the first: the writer on stderr sends before the one on stdout does. */
  lemma OvertakenSend() returns (es: seq<Event>)
    ensures Runs(START, es) && Quiet(After(START, es))
    ensures var v := After(START, es); v.received == [1, 0] && !v.gap && v.drops == 0
  {
    var v;
    es, v := TwoSends();
    es, v := Then(es, v, Receive);
    assert v.queue == [0] && v.received == [1];
    es, v := Then(es, v, Receive);
  }

  lemma TwoSends() returns (es: seq<Event>, v: View)
    ensures Runs(START, es) && v == After(START, es)
    ensures v == START.(count := 2, phase := Live, queue := [1, 0], overtaken := true)
  {
    es, v := TwoAppends();
    es, v := Then(es, v, Send(Stderr));
    assert v.queue == [1] && v.out == Some(0);
    es, v := Then(es, v, Send(Stdout));
    assert v.queue == [1, 0];
  }

  lemma TwoAppends() returns (es: seq<Event>, v: View)
    ensures Runs(START, es) && v == After(START, es)
    ensures v == START.(count := 2, phase := Live, out := Some(0), err := Some(1))
  {
    es, v := Then([], START, Snapshot);
    es, v := Then(es, v, Subscribe);
    es, v := Then(es, v, Append(Stdout, 0));
    es, v := Then(es, v, Append(Stderr, 0));
  }

  lemma Then(es: seq<Event>, v: View, e: Event) returns (es': seq<Event>, v': View)
    requires Runs(START, es) && v == After(START, es) && Enabled(v, e)
    ensures es' == es + [e] && v' == Step(v, e) && Runs(START, es') && v' == After(START, es')
  {
    es', v' := es + [e], Step(v, e);
    assert es'[..|es'| - 1] == es;
  }
}
