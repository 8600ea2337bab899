/** The 150 ms after which the OpenTherm receiver gives an erroneous frame up are forgotten
    when the timer wraps: a line that chatters that long and then stays high.
  */
module OpenThermForgets {
  import opened PruTimer
  import opened OpenTherm

  /** When the frame begins. */
  const START: int := 0

  /** Polls at every tick that see the line change each time, and polls that see it high. */
  function Chatter(from: int, until: int): seq<Sight>
    decreases until - from
  {
    if from > until then [] else [Sight(from, from % 2 == 1)] + Chatter(from + 1, until)
  }

  function Steady(from: int, until: int): seq<Sight>
    decreases until - from
  {
    if from > until then [] else [Sight(from, true)] + Steady(from + 1, until)
  }

  lemma PollsUnfold(s: Ot, p: Sight, ps: seq<Sight>, off: int)
    ensures var (s1, out) := Poll(s, At(p.t, off), p.line);
            Polls(s, [p] + ps, off) == (Polls(s1, ps, off).0, out.msgs + Polls(s1, ps, off).1)
  {
    assert ([p] + ps)[1..] == ps;
    hide Poll, At;
  }

  lemma {:induction false} PollsConcat(s: Ot, ps: seq<Sight>, qs: seq<Sight>, off: int)
    ensures var (s1, msgs) := Polls(s, ps, off);
            Polls(s, ps + qs, off) == (Polls(s1, qs, off).0, msgs + Polls(s1, qs, off).1)
    decreases |ps|
  {
    if ps == [] {
      assert ps + qs == qs && [] + Polls(s, qs, off).1 == Polls(s, qs, off).1;
      hide Poll, At;
    } else {
      hide *;
      var p, rest := ps[0], ps[1..];
      var (s1, out) := Poll(s, At(p.t, off), p.line);
      PollsConcat(s1, rest, qs, off);
      PollsUnfold(s, p, rest, off);
      PollsUnfold(s, p, rest + qs, off);
      var (s2, msgs) := Polls(s1, rest, off);
      assert ps == [p] + rest && ps + qs == [p] + (rest + qs);
      MsgsAssoc(out.msgs, msgs, Polls(s2, qs, off).1);
    }
  }

  lemma MsgsAssoc(a: seq<Msg>, b: seq<Msg>, c: seq<Msg>)
    ensures a + b + c == a + (b + c)
  {
  }

  /** One quiet poll and the rest. */
  lemma QuietThen(s: Ot, p: Sight, ps: seq<Sight>, s1: Ot, off: int)
    requires Poll(s, At(p.t, off), p.line) == (s1, QUIET)
    ensures Polls(s, [p] + ps, off) == Polls(s1, ps, off)
  {
    PollsUnfold(s, p, ps, off);
    assert QUIET.msgs + Polls(s1, ps, off).1 == Polls(s1, ps, off).1;
    hide Poll, Polls, At;
  }

  lemma ChatterCons(from: int, until: int)
    requires from <= until
    ensures var ps := Chatter(from, until);
            ps != [] && ps[0] == Sight(from, from % 2 == 1) && ps[1..] == Chatter(from + 1, until)
  {
    assert ([Sight(from, from % 2 == 1)] + Chatter(from + 1, until))[1..] == Chatter(from + 1, until);
  }

  lemma {:induction false} ChatterLast(from: int, until: int)
    requires from <= until
    ensures var ps := Chatter(from, until); ps != [] && ps[|ps| - 1] == Sight(until, until % 2 == 1)
    decreases until - from
  {
    if from < until {
      ChatterLast(from + 1, until);
    }
  }

  lemma {:induction false} ChatterChanges(from: int, until: int)
    ensures !SeesQuiet(from % 2 == 0, Chatter(from, until))
    decreases until - from
  {
    if from <= until {
      ChatterCons(from, until);
      hide Chatter;
      ChatterChanges(from + 1, until);
    }
  }

  lemma {:induction false} ChatterSpaced(last: int, from: int, until: int, g: nat)
    requires g >= 1 && last <= from <= last + g
    ensures Spaced(last, Chatter(from, until), g)
    decreases until - from
  {
    if from <= until {
      ChatterCons(from, until);
      hide Chatter;
      ChatterSpaced(from, from + 1, until, g);
    }
  }

  lemma {:induction false} SteadySpaced(from: int, until: int)
    ensures Spaced(from - 1, Steady(from, until), 1)
    ensures forall p :: p in Steady(from, until) ==> p.line
    decreases until - from
  {
    if from <= until {
      var rest := Steady(from + 1, until);
      assert ([Sight(from, true)] + rest)[1..] == rest;
      SteadySpaced(from + 1, until);
    }
  }

  /** As long as no edge counts as the middle of a bit. */
  lemma {:induction false} ReadingChatter(s: Ot, from: int, until: int, off: int)
    requires s.st == ReadBits && s.t0 == At(START - HALF_BIT, off) && s.prevV == (from % 2 == 0)
    requires 0 <= from <= until + 1 && until + HALF_BIT <= CAPTURE_MIN
    ensures Polls(s, Chatter(from, until), off) == (s.(prevV := until % 2 == 1), [])
    decreases until - from
  {
    if from <= until {
      ElapsedIsDuration(from, START - HALF_BIT, off);
      var s1 := s.(prevV := from % 2 == 1);
      assert Poll(s, At(from, off), from % 2 == 1) == (s1, QUIET) by {
        hide Elapsed, At;
      }
      ReadingChatter(s1, from + 1, until, off);
      QuietThen(s, Sight(from, from % 2 == 1), Chatter(from + 1, until), s1, off);
    }
    hide Poll, At;
  }

  /** In the error state each change only restarts the gap. */
  lemma {:induction false} ErrorChatter(s: Ot, from: int, until: int, off: int)
    requires s.st == FrameErrorWaitGap && s.prevV == (from % 2 == 0) && from <= until
    ensures Polls(s, Chatter(from, until), off) == (s.(t0 := At(until, off), prevV := until % 2 == 1), [])
    decreases until - from
  {
    var s1 := s.(t0 := At(from, off), prevV := from % 2 == 1);
    assert Poll(s, At(from, off), from % 2 == 1) == (s1, QUIET) by {
      hide Elapsed, At;
    }
    hide Poll, At;
    QuietThen(s, Sight(from, from % 2 == 1), Chatter(from + 1, until), s1, off);
    if from < until {
      ErrorChatter(s1, from + 1, until, off);
    }
  }

  /** A frame begun at 0 looks young again after one wrap. */
  lemma {:induction false} ErrorSteady(s: Ot, from: int, until: int, off: int)
    requires s.st == FrameErrorWaitGap && s.prevV && s.t0Frame == At(0, off)
    requires WRAP <= from && until <= WRAP + ERROR_FRAME_TIMEOUT
    ensures Polls(s, Steady(from, until), off) == (s, [])
    decreases until - from
  {
    if from <= until {
      ElapsedModulo(from, 0, off);
      assert from % WRAP == from - WRAP;
      assert Poll(s, At(from, off), true) == (s, QUIET) by {
        hide Elapsed, At;
      }
      hide Poll, At;
      QuietThen(s, Sight(from, true), Steady(from + 1, until), s, off);
      ErrorSteady(s, from + 1, until, off);
    }
  }

  /** The first edge late enough comes with the wrong level. */
  const LATE := CAPTURE_MIN - HALF_BIT + 1

  lemma WrongMiddle(s: Ot, off: int)
    requires s.st == ReadBits && s.bitIdx == 32 && s.t0 == At(START - HALF_BIT, off) && !s.prevV
    ensures Poll(s, At(LATE, off), true)
            == (s.(st := FrameErrorWaitGap, t0 := At(LATE, off), bitIdx := 31, prevV := true), QUIET)
  {
    ElapsedIsDuration(LATE, START - HALF_BIT, off);
    hide Elapsed, At;
  }

  /** From waiting into the error state while the line changes at every poll. */
  lemma ToError(s: Ot, off: int) returns (ps: seq<Sight>, s1: Ot)
    requires s.st == WaitFrame
    ensures ps == [Sight(0, true)] + (Chatter(2, LATE - 1) + [Sight(LATE, true)])
    ensures Polls(s, ps, off) == (s1, [])
    ensures s1.st == FrameErrorWaitGap && s1.prevV && s1.t0Frame == At(0, off)
  {
    var a := Ot(ReadBits, true, At(START - HALF_BIT, off), At(0, off), 32, Zero());
    assert Poll(s, At(0, off), true) == (a, QUIET) by {
      AtMinus(0, off, HALF_BIT);
      hide At;
    }
    var b := a.(prevV := false);
    s1 := b.(st := FrameErrorWaitGap, t0 := At(LATE, off), bitIdx := 31, prevV := true);
    WrongMiddle(b, off);
    ReadingChatter(a, 2, LATE - 1, off);
    hide Poll, At, Chatter, Polls;
    var last := [Sight(LATE, true)];
    PollsConcat(a, Chatter(2, LATE - 1), last, off);
    assert last + [] == last;
    QuietThen(b, Sight(LATE, true), [], s1, off);
    NoPolls(s1, off);
    QuietThen(s, Sight(0, true), Chatter(2, LATE - 1) + last, a, off);
    ps := [Sight(0, true)] + (Chatter(2, LATE - 1) + last);
    assert [] + Polls(s1, [], off).1 == [];
  }

  lemma NoPolls(s: Ot, off: int)
    ensures Polls(s, [], off) == (s, [])
  {
  }

  lemma {:induction false} ChatterSplits(from: int, mid: int, until: int)
    requires from <= mid <= until
    ensures Chatter(from, until) == Chatter(from, mid - 1) + ([Sight(mid, mid % 2 == 1)] + Chatter(mid + 1, until))
    decreases mid - from
  {
    if from < mid {
      ChatterSplits(from + 1, mid, until);
    }
  }

  /** A run from waiting for a frame, polled without a longer gap than two ticks: the frame
      begins at 0, the line changes at every poll for one wrap of the timer, and then stays
      high for 150 ms. The frame is then still not given up, and nothing is reported. */
  lemma RecoveryForgets(s: Ot, off: int) returns (chatter: seq<Sight>, steady: seq<Sight>)
    requires s.st == WaitFrame
    ensures chatter != [] && chatter[0] == Sight(0, true) && chatter[|chatter| - 1].t == WRAP + 1
    ensures Spaced(0, chatter, 2) && !SeesQuiet(false, chatter)
    ensures Spaced(WRAP + 1, steady, 1) && forall p :: p in steady ==> p.line
    ensures steady != [] && steady[|steady| - 1].t == WRAP + Us(150000)
    ensures var (s', msgs) := Polls(s, chatter + steady, off); s'.st == FrameErrorWaitGap && msgs == []
  {
    hide *;
    var first, s1 := ToError(s, off);
    var rest := Chatter(LATE + 1, WRAP + 1);
    var s2 := s1.(t0 := At(WRAP + 1, off), prevV := true);
    AfterOneWrap();
    ErrorChatter(s1, LATE + 1, WRAP + 1, off);
    PollsThen(s, first, s1, rest, s2, off);
    chatter := first + rest;
    ChatterWhole(first, rest);
    steady := Steady(WRAP + 2, WRAP + ERROR_FRAME_TIMEOUT);
    SteadySpaced(WRAP + 2, WRAP + ERROR_FRAME_TIMEOUT);
    SteadyLast(WRAP + 2, WRAP + ERROR_FRAME_TIMEOUT);
    ErrorSteady(s2, WRAP + 2, WRAP + ERROR_FRAME_TIMEOUT, off);
    PollsThen(s, chatter, s2, steady, s2, off);
  }

  lemma AfterOneWrap()
    ensures (LATE + 1) % 2 == 0 && (WRAP + 1) % 2 == 1 && 2 <= LATE < WRAP && 2 < ERROR_FRAME_TIMEOUT == Us(150000)
            && START == 0
  {
  }

  lemma PollsThen(s: Ot, ps: seq<Sight>, s1: Ot, qs: seq<Sight>, s2: Ot, off: int)
    requires Polls(s, ps, off) == (s1, []) && Polls(s1, qs, off) == (s2, [])
    ensures Polls(s, ps + qs, off) == (s2, [])
  {
    PollsConcat(s, ps, qs, off);
    hide Polls;
    assert [] + Polls(s1, qs, off).1 == [];
  }

  lemma ChatterWhole(first: seq<Sight>, rest: seq<Sight>)
    requires first == [Sight(0, true)] + (Chatter(2, LATE - 1) + [Sight(LATE, true)])
             && rest == Chatter(LATE + 1, WRAP + 1)
    ensures var ps := first + rest;
            && ps != [] && ps[0] == Sight(0, true) && ps[|ps| - 1].t == WRAP + 1
            && Spaced(0, ps, 2) && !SeesQuiet(false, ps)
  {
    var ps, tail := first + rest, Chatter(2, WRAP + 1);
    ChatterSplits(2, LATE, WRAP + 1);
    ChatterChanges(2, WRAP + 1);
    ChatterSpaced(0, 2, WRAP + 1, 2);
    ChatterLast(2, WRAP + 1);
    hide Chatter;
    assert ps == [Sight(0, true)] + tail;
    assert ps[1..] == tail;
  }

  lemma {:induction false} SteadyLast(from: int, until: int)
    requires from <= until
    ensures var ps := Steady(from, until); ps != [] && ps[|ps| - 1].t == until
    decreases until - from
  {
    if from < until {
      SteadyLast(from + 1, until);
    }
  }
}
