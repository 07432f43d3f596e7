/** `streamTurn` as code: the maps and sets it updates event by event, proved against
    `EventStream.HandleAll`. */
module TurnStream {
  import opened EventStream

  class Turn {
    var types: map<string, Kind>
    var pending: seq<Entry>
    var assistants: set<string>
    var streamed: set<string>
    var out: seq<Out>

    function St(): State
      reads this
    {
      State(types, pending, assistants, streamed, out)
    }

    constructor ()
      ensures St() == INITIAL
    {
      types, pending, assistants, streamed, out := map[], [], {}, {}, [];
    }

    method Emit(part: string, kind: Kind, p: Pending)
      modifies `streamed, `out
      ensures St() == EmitOne(old(St()), part, kind, p)
    {
      if kind == Text && part !in streamed {
        if streamed != {} {
          out := out + [Separator(part)];
        } else {
          assert out + [] == out;
        }
        streamed := streamed + {part};
      } else {
        assert out + [] == out;
      }
      out := out + [Chunk(kind, part, p.msg, p.delta)];
    }

    /** The inner loop: emits the deltas of one part that are not blocked. */
    method Release(part: string, kind: Kind, deltas: seq<Pending>, mf: string) returns (remaining: seq<Pending>)
      modifies `streamed, `out
      ensures remaining == Kept(assistants, mf, deltas)
      ensures St() == EmitAll(old(St()), part, kind, mf, deltas)
    {
      remaining := [];
      ghost var s0 := St();
      for j := 0 to |deltas|
        invariant remaining == Kept(assistants, mf, deltas[..j])
        invariant St() == EmitAll(s0, part, kind, mf, deltas[..j])
      {
        var d := deltas[j];
        assert deltas[..j + 1][..j] == deltas[..j];
        if (mf != "" && d.msg != mf) || d.msg !in assistants {
          remaining := remaining + [d];
        } else {
          assert remaining + [] == remaining;
          Emit(part, kind, d);
        }
      }
      assert deltas[..|deltas|] == deltas;
    }

    method ConsumePendingDeltas(pf: string, mf: string)
      modifies `pending, `streamed, `out
      ensures St() == Consume(old(St()), pf, mf)
    {
      var entries := pending;
      ghost var s0 := St().(pending := []);
      pending := [];
      for i := 0 to |entries|
        invariant St() == ConsumeAll(s0, entries[..i], pf, mf)
      {
        var e := entries[i];
        assert entries[..i + 1][..i] == entries[..i];
        if (pf != "" && e.part != pf) || e.part !in types {
          pending := pending + [e];
        } else {
          ghost var s1 := St();
          var remaining := Release(e.part, types[e.part], e.deltas, mf);
          EmitAllFrame(s1, e.part, types[e.part], mf, e.deltas);
          if |remaining| > 0 {
            pending := pending + [Entry(e.part, remaining)];
          }
        }
      }
      assert entries[..|entries|] == entries;
    }

    /** The body of the event loop. */
    method OnEvent(me: string, e: Event)
      modifies this
      ensures St() == Handle(me, old(St()), e)
    {
      match e {
        case PartDelta(session, msg, part, field, delta) =>
          if session != me || field != "text" || delta == "" {
            return;
          }
          pending := AddPending(pending, part, Pending(msg, delta));
          ConsumePendingDeltas(part, msg);
        case MessageUpdated(session, msg, assistant) =>
          if session == me && assistant {
            assistants := assistants + {msg};
            ConsumePendingDeltas("", msg);
          }
        case PartUpdated(session, msg, part, kind) =>
          if session == me && kind.Some? {
            types := types[part := kind.value];
            ConsumePendingDeltas(part, msg);
          }
      }
    }

    /** The whole loop: only text of messages that the events call the assistant's is shown, well
        separated, and for every part and message what is shown and what is held back make up what
        was received. */
    method Stream(me: string, es: seq<Event>)
      requires St() == INITIAL
      modifies this
      ensures St() == HandleAll(me, INITIAL, es) && Proper(me, es, out)
      ensures forall p, m :: Emitted(out, p, m) + Held(pending, p, m) == Received(me, es, p, m)
    {
      for i := 0 to |es|
        invariant St() == HandleAll(me, INITIAL, es[..i])
      {
        assert es[..i + 1][..i] == es[..i];
        OnEvent(me, es[i]);
      }
      assert es[..|es|] == es;
      RunIsWellShown(me, es);
      forall p, m ensures Emitted(out, p, m) + Held(pending, p, m) == Received(me, es, p, m) {
        NothingLostOrReordered(me, es, p, m);
      }
    }
  }
}
