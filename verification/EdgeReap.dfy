/** The backstop for stale edge reservations (internal/api/edge_claim.go): it lists reserved boxes,
    has the worker destroy each, and then stops its row. The machine of EdgeClaim goes on meanwhile,
    and any number of control planes may be reaping. */
module EdgeReap {
  import opened EdgeClaim

  /** `todo`: boxes listed and not yet destroyed. `destroyed`: boxes a worker has destroyed. */
  datatype Watch = Watch(claim: EdgeClaim.State, todo: set<Box>, destroyed: set<Box>)

  /** A wipe is a step of the claim machine; `ok` says whether the worker was reached and obeyed. */
  datatype Event = Claim(e: EdgeClaim.Event) | List(boxes: set<Box>) | Destroy(box: Box, ok: bool)

  const START := Watch(EdgeClaim.EMPTY, {}, {})

  predicate Enabled(s: Watch, e: Event) {
    match e
    case Claim(c) => EdgeClaim.Enabled(s.claim, c)
    case List(bs) => forall b <- bs :: RowOf(s.claim, b) == Reserved
    case Destroy(b, _) => b in s.todo
  }

  function Step(s: Watch, e: Event): Watch
    requires Enabled(s, e)
  {
    match e
    case Claim(c) => s.(claim := EdgeClaim.Step(s.claim, c))
    case List(bs) => s.(todo := s.todo + bs)
    case Destroy(b, ok) => s.(todo := s.todo - {b}, destroyed := if ok then s.destroyed + {b} else s.destroyed)
  }

  ghost predicate Runs(s: Watch, es: seq<Event>)
    decreases |es|, 0
  {
    es == [] || (Runs(s, es[..|es| - 1]) && Enabled(After(s, es[..|es| - 1]), es[|es| - 1]))
  }

  ghost function After(s: Watch, es: seq<Event>): Watch
    requires Runs(s, es)
    decreases |es|, 1
  {
    if es == [] then s else Step(After(s, es[..|es| - 1]), es[|es| - 1])
  }

  lemma Then(s: Watch, es: seq<Event>, e: Event)
    requires Runs(s, es) && Enabled(After(s, es), e)
    ensures Runs(s, es + [e]) && After(s, es + [e]) == Step(After(s, es), e)
  {
    assert (es + [e])[..|es|] == es;
  }

  // ----- When a tenant keeps its box -----

  /** The box is bound to an org and destroyed. */
  predicate Lost(s: Watch, b: Box) {
    b in s.destroyed && RowOf(s.claim, b).Bound?
  }

  /** No bound box is destroyed or about to be. */
  ghost predicate Spared(s: Watch) {
    forall b :: b in s.todo || b in s.destroyed ==> !RowOf(s.claim, b).Bound?
  }

  /** The box a step binds to an org. */
  predicate Binds(s: Watch, e: Event, b: Box) {
    e.Claim? &&
    match e.e
    case Finalize(c, _, dbOk) => c == b && dbOk && RowOf(s.claim, b) == Reserved
    case ClaimPooled(c, _) => c == b
    case _ => false
  }

  /** The step binds no box that was listed and is to be destroyed, or that is destroyed already. */
  ghost predicate Timely(s: Watch, e: Event) {
    forall b :: Binds(s, e, b) ==> b !in s.todo && b !in s.destroyed
  }

  lemma BoundByBinding(s: Watch, e: Event, b: Box)
    requires Enabled(s, e)
    ensures Binds(s, e, b) ==> RowOf(Step(s, e).claim, b).Bound?
    ensures RowOf(Step(s, e).claim, b).Bound? ==> Binds(s, e, b) || RowOf(Step(s, e).claim, b) == RowOf(s.claim, b)
  {
  }

  /** One step keeps bound boxes alive exactly if it is timely. */
  lemma {:induction false} ReapExact(s: Watch, e: Event)
    requires Spared(s) && Enabled(s, e)
    ensures Spared(Step(s, e)) <==> Timely(s, e)
  {
    var t := Step(s, e);
    forall b
      ensures Binds(s, e, b) ==> RowOf(t.claim, b).Bound?
      ensures RowOf(t.claim, b).Bound? ==> Binds(s, e, b) || RowOf(t.claim, b) == RowOf(s.claim, b)
    {
      BoundByBinding(s, e, b);
    }
    if e.Claim? {
      assert t.todo == s.todo && t.destroyed == s.destroyed;
    }
  }

  ghost predicate TimelyRun(s: Watch, es: seq<Event>)
    requires Runs(s, es)
  {
    es == [] || (TimelyRun(s, es[..|es| - 1]) && Timely(After(s, es[..|es| - 1]), es[|es| - 1]))
  }

  /** Over every run in which no box is bound after it was listed, no bound box is ever destroyed. */
  lemma {:induction false} NoneLost(es: seq<Event>)
    requires Runs(START, es) && TimelyRun(START, es)
    ensures Spared(After(START, es)) && forall b :: !Lost(After(START, es), b)
  {
    if es != [] {
      NoneLost(es[..|es| - 1]);
      ReapExact(After(START, es[..|es| - 1]), es[|es| - 1]);
    }
  }

  /** A step that is not timely can cost an org its box: at once, or when the reaper gets to it. */
  lemma LateBindingLoses(s: Watch, e: Event) returns (b: Box, es: seq<Event>)
    requires Enabled(s, e) && !Timely(s, e)
    ensures es == [] || es == [Destroy(b, true)]
    ensures Binds(s, e, b) && Runs(Step(s, e), es) && Lost(After(Step(s, e), es), b)
  {
    b :| Binds(s, e, b) && (b in s.todo || b in s.destroyed);
    BoundByBinding(s, e, b);
    if b in s.destroyed {
      es := [];
    } else {
      es := [Destroy(b, true)];
      Then(Step(s, e), [], Destroy(b, true));
      assert [] + [Destroy(b, true)] == es;
    }
  }

  /** A finalize between the listing and the destruction: every call succeeds, and the org is bound to
      a box that is gone. The guard of the wipe spares the row, so the row goes on saying so. */
  lemma ClaimedWhileReaped(s: Watch, b: Box, org: Org)
    requires RowOf(s.claim, b) == Reserved && (b, org) in s.claim.handed
    ensures Enabled(s, List({b})) && var s1 := Step(s, List({b}));
            var finalize := Claim(Finalize(b, org, true));
            Enabled(s1, finalize) && var s2 := Step(s1, finalize);
            Enabled(s2, Destroy(b, true)) && var s3 := Step(s2, Destroy(b, true));
            Enabled(s3, Claim(Wipe(b))) && var s4 := Step(s3, Claim(Wipe(b)));
            Lost(s3, b) && Lost(s4, b) && RowOf(s4.claim, b) == Bound(org)
  {
  }

  predicate Stops(e: Event, b: Box) {
    e == Claim(Stop(b))
  }

  lemma LossKept(s: Watch, e: Event, b: Box)
    requires Lost(s, b) && Enabled(s, e) && !Stops(e, b)
    ensures Lost(Step(s, e), b) && RowOf(Step(s, e).claim, b) == RowOf(s.claim, b)
  {
  }

  /** Nothing in the protocol notices: the row stays bound until its org stops it. */
  lemma {:induction false} LossStays(s: Watch, es: seq<Event>, b: Box)
    requires Lost(s, b) && Runs(s, es) && forall i :: 0 <= i < |es| ==> !Stops(es[i], b)
    ensures Lost(After(s, es), b) && RowOf(After(s, es).claim, b) == RowOf(s.claim, b)
  {
    if es != [] {
      LossStays(s, es[..|es| - 1], b);
      LossKept(After(s, es[..|es| - 1]), es[|es| - 1], b);
    }
  }
}
