/** Runs of the host that write given values and let the bus come to rest. */
module CanRuns {
  import opened Wrappers
  import opened CanLayout
  import opened CanHost
  import opened CanImage

  // ---------- runs that write and then drain ----------

  /** The first step of a run and the rest. */
  lemma RunUnfold(h: Host, e: Event, es: seq<Event>)
    ensures IsRun(h, [e] + es) <==> Allowed(h, e) && IsRun(Step(h, e).0, es)
    ensures IsRun(h, [e] + es) ==>
              Run(h, [e] + es) == (Run(Step(h, e).0, es).0, Step(h, e).1 + Run(Step(h, e).0, es).1,
                                   Writes(h, e) + Run(Step(h, e).0, es).2)
  {
    assert ([e] + es)[1..] == es;
    hide Step, Allowed, Writes;
  }

  lemma {:induction false} RunConcat(h: Host, es: seq<Event>, fs: seq<Event>)
    requires IsRun(h, es) && IsRun(Run(h, es).0, fs)
    ensures IsRun(h, es + fs) && Run(h, es + fs).0 == Run(Run(h, es).0, fs).0
    ensures Run(h, es + fs).1 == Run(h, es).1 + Run(Run(h, es).0, fs).1
    ensures Run(h, es + fs).2 == Run(h, es).2 + Run(Run(h, es).0, fs).2
    decreases |es|
  {
    if es == [] {
      assert es + fs == fs;
      hide Step, Allowed, Writes;
    } else {
      hide *;
      var e, rest := es[0], es[1..];
      assert es == [e] + rest;
      RunUnfold(h, e, rest);
      RunConcat(Step(h, e).0, rest, fs);
      RunUnfold(h, e, rest + fs);
      Assoc([e], rest, fs);
      var h1 := Step(h, e).0;
      Assoc(Step(h, e).1, Run(h1, rest).1, Run(Run(h1, rest).0, fs).1);
    }
  }

  lemma OneEvent(h: Host, e: Event)
    requires Allowed(h, e)
    ensures IsRun(h, [e]) && Run(h, [e]) == (Step(h, e).0, Step(h, e).1, Writes(h, e))
  {
    assert [e][1..] == [];
    assert Step(h, e).1 + [] == Step(h, e).1 && Writes(h, e) + {} == Writes(h, e);
    hide Step, Writes, Allowed;
  }

  /** Nothing waits and nothing is in flight. */
  ghost predicate AtRest(h: Host) { !h.pending && Drained(h) }

  /** The same objects, and the same contents of all but object x. */
  ghost predicate OthersKept(h: Host, g: Host, x: int) {
    && |h.outputs| == |g.outputs|
    && forall j :: 0 <= j < |h.outputs| ==>
         g.outputs[j].frame.id == h.outputs[j].frame.id && g.outputs[j].frame.dlc == h.outputs[j].frame.dlc
         && (j != x ==> g.outputs[j].frame == h.outputs[j].frame)
  }

  /** Echoes alone lead to a host at rest, with all contents as they were. */
  lemma {:induction false} DrainRun(h: Host, sent: seq<Frame>, written: set<nat>) returns (evs: seq<Event>)
    requires Good(h, sent, written)
    ensures IsRun(h, evs)
    ensures var h' := Run(h, evs).0; AtRest(h') && h'.items == h.items && OthersKept(h, h', -1)
    decreases Waiting(h, 0), h.pending
  {
    if !h.pending {
      return [];
    }
    var e := Received(h.frameWr);
    EchoReduces(h, h.frameWr);
    ReadKeeps(h, sent, written, h.frameWr);
    WriteReadyKeeps(h.(pending := false), sent, Touched(h, written), 0);
    var (h1, f) := Read(h, h.frameWr);
    assert h1.items == h.items && Step(h, e) == (h1, f) && OthersKept(h, h1, -1);
    hide Read, Good, NoneLost;
    OneEvent(h, e);
    evs := DrainRun(h1, sent + f, written);
    RunConcat(h, [e], evs);
    evs := [e] + evs;
  }

  lemma WriteAndDrain(h: Host, sent: seq<Frame>, written: set<nat>, a: nat, v: Value) returns (evs: seq<Event>)
    requires Good(h, sent, written) && a < |h.items| && Suits(v, h.items[a].loc) && v != h.items[a].value
    ensures IsRun(h, evs) && a in Run(h, evs).2
    ensures var h' := Run(h, evs).0;
            && AtRest(h') && h'.items == h.items[a := h.items[a].(value := v)] && OthersKept(h, h', h.items[a].idx)
    ensures Good(Run(h, evs).0, sent + Run(h, evs).1, written + Run(h, evs).2)
  {
    var e := Assign(a, v);
    assert ItemFits(h, a);
    SetKeeps(h, sent, written, a, v);
    var (h1, f) := Set(h, a, v);
    assert h1.items == h.items[a := h.items[a].(value := v)] && Step(h, e) == (h1, f) && Writes(h, e) == {a};
    assert OthersKept(h, h1, h.items[a].idx);
    hide Set, Step, Good, Writes;
    OneEvent(h, e);
    var drain := DrainRun(h1, sent + f, written + {a});
    RunConcat(h, [e], drain);
    evs := [e] + drain;
    RunKeeps(h, sent, written, evs);
  }

  /** The value with every bit flipped. */
  function Not(v: Value): (r: Value)
    ensures |r| == |v| && forall i :: 0 <= i < |v| ==> r[i] == !v[i]
  {
    seq(|v|, i requires 0 <= i < |v| => !v[i])
  }

  lemma NotDiffers(v: Value, w: Value)
    ensures v != [] ==> Not(v) != v
    ensures Not(v) == Not(w) ==> v == w
  {
    if v != [] {
      assert Not(v)[0] != v[0];
    }
    if Not(v) == Not(w) {
      forall i | 0 <= i < |v| ensures v[i] == w[i] {
        assert Not(v)[i] == Not(w)[i];
      }
    }
  }

  /** Any two items can be written so that in the end they differ. */
  lemma WriteDifferent(h: Host, a: nat, b: nat) returns (evs: seq<Event>)
    requires Fresh(h) && a < |h.items| && b < |h.items| && a != b
    ensures IsRun(h, evs)
    ensures var (h', sent, written) := Run(h, evs);
            && Drained(h') && a in written && b in written && |h'.items| == |h.items|
            && h'.items[a].value != h'.items[b].value
  {
    var v, w := h.items[a].value, h.items[b].value;
    NotDiffers(v, w);
    NotDiffers(w, v);
    assert ItemFits(h, a) && ItemFits(h, b);
    assert Good(h, [], {});
    hide Good, Drained, IsRun, Run, Not, Wired;
    evs := WriteAndDrain(h, [], {}, a, Not(v));
    var h1 := Run(h, evs).0;
    var more := WriteAndDrain(h1, [] + Run(h, evs).1, {} + Run(h, evs).2, b, Not(w));
    RunConcat(h, evs, more);
    evs := evs + more;
    var h2 := Run(h, evs).0;
    if Not(v) == Not(w) {
      assert Good(h2, [] + Run(h, evs).1, {} + Run(h, evs).2) by {
        RunKeeps(h, [], {}, evs);
      }
      more := WriteAndDrain(h2, [] + Run(h, evs).1, {} + Run(h, evs).2, b, w);
      RunConcat(h, evs, more);
      evs := evs + more;
    }
  }

  /** Any item can be written so that in the end it has a given value. */
  lemma WriteExactly(h: Host, a: nat, v: Value) returns (evs: seq<Event>)
    requires Fresh(h) && a < |h.items| && Suits(v, h.items[a].loc)
    ensures IsRun(h, evs) && a in Run(h, evs).2
    ensures var h' := Run(h, evs).0;
            && AtRest(h') && h'.items == h.items[a := h.items[a].(value := v)] && OthersKept(h, h', h.items[a].idx)
    ensures Good(Run(h, evs).0, Run(h, evs).1, Run(h, evs).2)
  {
    hide *;
    var x := h.items[a].idx;
    FreshGood(h, a, v);
    if h.items[a].value != v {
      evs := WriteAndDrain(h, [], {}, a, v);
      NothingBefore(h, evs);
    } else {
      evs := WriteAndDrain(h, [], {}, a, Not(v));
      NothingBefore(h, evs);
      var h1 := Run(h, evs).0;
      Rewritten(h, h1, a, Not(v), v);
      var more := WriteAndDrain(h1, Run(h, evs).1, Run(h, evs).2, a, v);
      RunConcat(h, evs, more);
      OthersKeptThen(h, h1, Run(h1, more).0, x);
      evs := evs + more;
    }
  }

  lemma FreshGood(h: Host, a: nat, v: Value)
    requires Fresh(h) && a < |h.items| && Suits(v, h.items[a].loc)
    ensures Good(h, [], {}) && Suits(Not(v), h.items[a].loc) && Not(v) != v
  {
    NotDiffers(v, v);
    hide Wired, Not;
  }

  lemma Rewritten(h: Host, h1: Host, a: nat, u: Value, v: Value)
    requires a < |h.items| && h1.items == h.items[a := h.items[a].(value := u)]
    ensures |h1.items| == |h.items| && h1.items[a] == h.items[a].(value := u)
    ensures h1.items[a := h1.items[a].(value := v)] == h.items[a := h.items[a].(value := v)]
  {
  }

  lemma OthersKeptThen(h: Host, g: Host, k: Host, x: int)
    requires OthersKept(h, g, x) && OthersKept(g, k, x)
    ensures OthersKept(h, k, x)
  {
  }

  lemma NothingBefore(h: Host, evs: seq<Event>)
    requires IsRun(h, evs)
    ensures [] + Run(h, evs).1 == Run(h, evs).1 && {} + Run(h, evs).2 == Run(h, evs).2
  {
    hide Run, IsRun;
  }

  /** The frame of an item's object with the item flipped. */
  function Flipped(h: Host, b: nat): Frame
    requires b < |h.items| && ItemFits(h, b)
  {
    var x := h.items[b];
    var f := h.outputs[x.idx].frame;
    f.(data := Put(f.data, x.loc, Not(x.value)))
  }

  /** A host at rest sends that frame at once when the item is written. */
  lemma FlipSends(h: Host, b: nat)
    requires AtRest(h) && b < |h.items| && ItemFits(h, b)
    ensures var e := Assign(b, Not(h.items[b].value));
            && IsRun(h, [e])
            && var (h', sent, written) := Run(h, [e]);
            && Drained(h') && sent == [Flipped(h, b)] && written == {b}
            && h'.items == h.items[b := h.items[b].(value := Not(h.items[b].value))]
  {
    var e := Assign(b, Not(h.items[b].value));
    NotDiffers(h.items[b].value, h.items[b].value);
    OneEvent(h, e);
    hide Put, Not, IsRun, Run;
  }
}
