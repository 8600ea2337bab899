/** An accepted request from its first bit to its answer: the frame goes out, after a gap the
    modem waits for the reply, and in the end exactly one message comes.
  */
module OpenThermAnswers {
  import opened Wrappers
  import opened PruTimer
  import opened OpenTherm

  // ---------- from the request to waiting ----------

  /** A poll, and the ones after it. */
  datatype Reached = NotYet | Reached(t: int, rest: seq<Sight>)

  /** When n bit cells end of which the first began at m: a cell ends at the first poll more
      than a millisecond after it began. */
  function CellsEnd(m: int, n: nat, ps: seq<Sight>): Reached
    decreases |ps|
  {
    if n == 0 then Reached(m, ps)
    else if ps == [] then NotYet
    else if ps[0].t > m + Us(1000) then CellsEnd(ps[0].t, n - 1, ps[1..])
    else CellsEnd(m, n, ps[1..])
  }

  /** The first poll later than t. */
  function FirstAfter(t: int, ps: seq<Sight>): Reached {
    if ps == [] then NotYet
    else if ps[0].t > t then Reached(ps[0].t, ps[1..])
    else FirstAfter(t, ps[1..])
  }

  /** When the last cell of a frame ends that was begun at start. */
  function FrameEnd(start: int, ps: seq<Sight>): Reached { CellsEnd(start, 34, ps) }

  /** The first poll more than 10 ms later. */
  function GapEnd(start: int, ps: seq<Sight>): (r: Reached)
    ensures r.Reached? ==> FrameEnd(start, ps).Reached?
  {
    var sent := FrameEnd(start, ps);
    if sent == NotYet then NotYet else FirstAfter(sent.t + Us(10000), sent.rest)
  }

  lemma QuietPoll(s: Ot, ps: seq<Sight>, off: int, s1: Ot)
    requires ps != [] && exists out :: Poll(s, At(ps[0].t, off), ps[0].line) == (s1, out) && out.msgs == []
    ensures Polls(s, ps, off) == Polls(s1, ps[1..], off)
  {
    assert [] + Polls(s1, ps[1..], off).1 == Polls(s1, ps[1..], off).1;
    hide Poll, At;
  }

  /** One poll of a sender. */
  lemma SendPoll(s: Ot, t: int, line: bool, off: int, m: int)
    requires s.st == WriteFrame && s.t0 == At(m, off) && m <= t < m + WRAP
    ensures var (s1, out) := Poll(s, At(t, off), line);
            && out.msgs == []
            && s1 == if t <= m + Us(1000) then s
                     else s.(st := if s.bitIdx == -1 then FrameWaitGap else WriteFrame, t0 := At(t, off),
                             bitIdx := s.bitIdx - 1)
    requires s.bitIdx >= -1
  {
    ElapsedIsDuration(t, m, off);
    hide Elapsed, At;
  }

  ghost predicate Until(ps: seq<Sight>, t: int) { ps != [] ==> ps[|ps| - 1].t <= t }

  /** The rest of the polls follows one at that time. */
  ghost predicate Follows(r: Reached, ps: seq<Sight>, g: nat)
    requires r.Reached?
  {
    && |r.rest| < |ps| && r.rest == ps[|ps| - |r.rest|..] && ps[|ps| - |r.rest| - 1].t == r.t
    && Spaced(r.t, r.rest, g)
  }

  /** The cells of a frame, sent one after the other. */
  lemma {:induction false} Sends(s: Ot, ps: seq<Sight>, off: int, m: int, last: int, n: nat, g: nat)
    requires s.st == WriteFrame && s.bitIdx == n - 2 && 0 < n && s.t0 == At(m, off)
    requires m <= last <= m + Us(1000) && Us(1000) + g < WRAP && Spaced(last, ps, g)
    ensures var r := CellsEnd(m, n, ps);
            if r == NotYet then Polls(s, ps, off).0.st == WriteFrame && Polls(s, ps, off).1 == []
            else Polls(s, ps, off) == Polls(s.(st := FrameWaitGap, t0 := At(r.t, off), bitIdx := -2), r.rest, off)
    decreases |ps|
  {
    if ps != [] {
      var t := ps[0].t;
      SendPoll(s, t, ps[0].line, off, m);
      var (s1, out) := Poll(s, At(t, off), ps[0].line);
      QuietPoll(s, ps, off, s1);
      hide At, Poll, Polls;
      if t <= m + Us(1000) {
        Sends(s1, ps[1..], off, m, t, n, g);
      } else if n > 1 {
        Sends(s1, ps[1..], off, t, t, n - 1, g);
      }
    }
  }

  /** How long n cells take. */
  lemma {:induction false} CellsTake(m: int, ps: seq<Sight>, last: int, n: nat, g: nat)
    requires 0 < n && m <= last <= m + Us(1000) && Spaced(last, ps, g)
    ensures var r := CellsEnd(m, n, ps);
            if r == NotYet then Until(ps, m + Cells(n, Us(1000) + g))
            else m + Cells(n, Us(1000)) < r.t <= m + Cells(n, Us(1000) + g) && Follows(r, ps, g)
    decreases |ps|
  {
    CellsOne(Us(1000) + g);
    CellsOne(Us(1000));
    if ps != [] {
      var t := ps[0].t;
      CellsMore(n, Us(1000) + g);
      CellsMore(n, Us(1000));
      hide Cells;
      if t <= m + Us(1000) {
        CellsTake(m, ps[1..], t, n, g);
      } else if n > 1 {
        CellsTake(t, ps[1..], t, n - 1, g);
      }
    }
  }

  lemma CellsOne(cell: nat)
    ensures Cells(1, cell) == cell
  {
    assert Cells(0, cell) == 0;
  }

  lemma CellsMore(n: nat, cell: nat)
    requires n > 0
    ensures Cells(n, cell) == cell + Cells(n - 1, cell) >= cell
  {
  }

  // ---------- the gap ----------

  lemma GapPoll(s: Ot, t: int, line: bool, off: int, e: int)
    requires s.st == FrameWaitGap && s.t0 == At(e, off) && e <= t < e + WRAP
    ensures Poll(s, At(t, off), line) == (if t <= e + Us(10000) then s else s.(st := WaitFrame), QUIET)
  {
    ElapsedIsDuration(t, e, off);
    hide Elapsed, At;
  }

  lemma {:induction false} GapEnds(s: Ot, ps: seq<Sight>, off: int, e: int, last: int, g: nat)
    requires s.st == FrameWaitGap && s.t0 == At(e, off)
    requires e <= last <= e + Us(10000) && Us(10000) + g < WRAP && Spaced(last, ps, g)
    ensures var r := FirstAfter(e + Us(10000), ps);
            if r == NotYet then Polls(s, ps, off) == (s, []) && Until(ps, e + Us(10000))
            else
              && Polls(s, ps, off) == Polls(s.(st := WaitFrame), r.rest, off)
              && e + Us(10000) < r.t <= e + Us(10000) + g && Follows(r, ps, g)
    decreases |ps|
  {
    if ps != [] {
      var t := ps[0].t;
      GapPoll(s, t, ps[0].line, off, e);
      QuietPoll(s, ps, off, if t <= e + Us(10000) then s else s.(st := WaitFrame));
      hide At, Poll, Polls;
      if t <= e + Us(10000) {
        GapEnds(s, ps[1..], off, e, t, g);
      }
    }
  }

  /** The modem that waits for the reply to a request whose frame ended at e. */
  function Awaiting(k: Ot, e: int, off: int): (r: Ot)
    ensures r.st == WaitFrame && r.t0 == At(e, off)
  {
    k.(st := WaitFrame, t0 := At(e, off), bitIdx := -2)
  }

  /** An accepted request goes out whatever the line shows; 34 cells later, and at the first
      poll more than 10 ms after the last one ended, the modem waits for the reply. Until
      then it says nothing. */
  lemma RequestWaits(s: Ot, w: Word, ps: seq<Sight>, off: int, start: int, g: nat)
    requires s.st == Idle && Us(10000) + g < WRAP && Spaced(start, ps, g)
    ensures var k, sent, free := Transmit(s, At(start, off), w).0, FrameEnd(start, ps), GapEnd(start, ps);
            if free == NotYet then
              && Polls(k, ps, off).1 == [] && Polls(k, ps, off).0.st in {WriteFrame, FrameWaitGap}
              && Until(ps, start + Cells(34, Us(1000) + g) + Us(10000))
            else
              && Polls(k, ps, off) == Polls(Awaiting(k, sent.t, off), free.rest, off)
              && start + Cells(34, Us(1000)) < sent.t <= start + Cells(34, Us(1000) + g)
              && sent.t + Us(10000) < free.t <= sent.t + Us(10000) + g && Follows(free, ps, g)
  {
    hide *;
    Waits();
    var k, sent, free := Transmit(s, At(start, off), w).0, FrameEnd(start, ps), GapEnd(start, ps);
    RequestBegins(s, w, start, off);
    EndsAre(start, ps);
    Sends(k, ps, off, start, start, 34, g);
    CellsTake(start, ps, start, 34, g);
    if sent == NotYet {
      UntilLater(ps, start + Cells(34, Us(1000) + g), start + Cells(34, Us(1000) + g) + Us(10000));
    } else {
      var gap := k.(st := FrameWaitGap, t0 := At(sent.t, off), bitIdx := -2);
      AwaitsAfterGap(k, sent.t, off);
      FollowsAre(sent, ps, g);
      GapEnds(gap, sent.rest, off, sent.t, sent.t, g);
      if free == NotYet {
        UntilOn(sent, ps, g, sent.t + Us(10000));
        UntilLater(ps, sent.t + Us(10000), start + Cells(34, Us(1000) + g) + Us(10000));
      } else {
        FollowsOn(sent, free, ps, g);
      }
    }
  }

  lemma RequestBegins(s: Ot, w: Word, start: int, off: int)
    requires s.st == Idle
    ensures var k := Transmit(s, At(start, off), w).0; k.st == WriteFrame && k.bitIdx == 32 && k.t0 == At(start, off)
  {
    hide At;
  }

  lemma EndsAre(start: int, ps: seq<Sight>)
    ensures FrameEnd(start, ps) == CellsEnd(start, 34, ps)
    ensures var sent := FrameEnd(start, ps);
            GapEnd(start, ps) == if sent == NotYet then NotYet else FirstAfter(sent.t + Us(10000), sent.rest)
  {
    hide CellsEnd, FirstAfter;
  }

  lemma AwaitsAfterGap(k: Ot, e: int, off: int)
    ensures Awaiting(k, e, off) == k.(st := FrameWaitGap, t0 := At(e, off), bitIdx := -2).(st := WaitFrame)
  {
    hide At;
  }

  lemma UntilLater(ps: seq<Sight>, t: int, u: int)
    requires Until(ps, t) && t <= u
    ensures Until(ps, u)
  {
  }

  lemma UntilOn(r: Reached, ps: seq<Sight>, g: nat, t: int)
    requires r.Reached? && Follows(r, ps, g) && Until(r.rest, t) && r.t <= t
    ensures Until(ps, t)
  {
    FollowsAre(r, ps, g);
  }

  lemma FollowsOn(r: Reached, q: Reached, ps: seq<Sight>, g: nat)
    requires r.Reached? && q.Reached? && Follows(r, ps, g) && Follows(q, r.rest, g)
    ensures Follows(q, ps, g)
  {
    var m, n := |ps| - |r.rest|, |r.rest| - |q.rest|;
    assert r.rest == ps[m..] && q.rest == r.rest[n..];
    assert q.rest == ps[m + n..];
    hide Spaced;
  }

  // ---------- no reply ----------

  lemma WaitPoll(s: Ot, t: int, off: int, e: int)
    requires s.st == WaitFrame && s.t0 == At(e, off) && e <= t < e + WRAP
    ensures Poll(s, At(t, off), false)
            == if t <= e + Us(800000) then (s, QUIET) else (s.(st := Idle), Output([], [NoResponse]))
  {
    ElapsedIsDuration(t, e, off);
    hide Elapsed, At;
  }

  lemma {:induction false} WaitsInVain(s: Ot, ps: seq<Sight>, off: int, e: int, last: int, g: nat)
    requires s.st == WaitFrame && s.t0 == At(e, off) && e <= last && Us(800000) + g < WRAP
    requires last <= e + Us(800000) && Spaced(last, ps, g) && forall p :: p in ps ==> !p.line
    ensures var r := FirstAfter(e + Us(800000), ps);
            if r == NotYet then Polls(s, ps, off) == (s, [])
            else Polls(s, ps, off) == (s.(st := Idle), [NoResponse]) && r.t <= e + Us(800000) + g
    decreases |ps|
  {
    if ps != [] {
      var t := ps[0].t;
      assert ps[0] in ps;
      WaitPoll(s, t, off, e);
      if t <= e + Us(800000) {
        QuietPoll(s, ps, off, s);
        hide At, Poll, Polls;
        WaitsInVain(s, ps[1..], off, e, t, g);
      } else {
        IdleStays(s.(st := Idle), ps[1..], off);
        assert [NoResponse] + [] == [NoResponse];
        hide At, Poll;
      }
    }
  }

  lemma FollowsAre(r: Reached, ps: seq<Sight>, g: nat)
    requires r.Reached? && Follows(r, ps, g)
    ensures Spaced(r.t, r.rest, g)
    ensures forall p :: p in r.rest ==> p in ps
    ensures r.rest != [] ==> r.rest[|r.rest| - 1] == ps[|ps| - 1]
    ensures ps != [] && (r.rest == [] ==> ps[|ps| - 1].t == r.t)
  {
  }

  lemma UntilLast(ps: seq<Sight>, t: int)
    requires Until(ps, t) && ps != []
    ensures ps[|ps| - 1].t <= t
  {
  }

  /** On a line that is silent after the gap there is one answer, that none came: at the first
      poll more than 800 ms after the last cell ended. */
  lemma SilentLine(s: Ot, w: Word, ps: seq<Sight>, off: int, start: int, g: nat)
    requires s.st == Idle && Us(800000) + g < WRAP && g <= Us(700000) && Spaced(start, ps, g)
    requires GapEnd(start, ps).Reached? && forall p :: p in GapEnd(start, ps).rest ==> !p.line
    ensures var k, e := Transmit(s, At(start, off), w).0, FrameEnd(start, ps).t;
            var r := FirstAfter(e + Us(800000), GapEnd(start, ps).rest);
            if r == NotYet then Polls(k, ps, off) == (Awaiting(k, e, off), [])
            else
              && Polls(k, ps, off).0.st == Idle && Polls(k, ps, off).1 == [NoResponse]
              && e + Us(800000) < r.t <= e + Us(800000) + g
  {
    hide *;
    var k, e, free := Transmit(s, At(start, off), w).0, FrameEnd(start, ps).t, GapEnd(start, ps);
    Waits();
    RequestWaits(s, w, ps, off, start, g);
    FollowsAre(free, ps, g);
    WaitsInVain(Awaiting(k, e, off), free.rest, off, e, free.t, g);
    AfterIsAfter(e + Us(800000), free.rest);
  }

  lemma Waits()
    ensures Us(100) < Us(700000) && Us(1000) < Us(10000) && 0 < Us(600)
    ensures Us(10000) + Us(700000) < Us(800000) < Us(1500000) < WRAP
    ensures Us(1500000) == Us(800000) + Us(700000) && RESPONSE_TIMEOUT == Us(800000) && BIT == Us(1000)
  {
  }

  lemma {:induction false} AfterIsAfter(t: int, ps: seq<Sight>)
    ensures FirstAfter(t, ps).Reached? ==> FirstAfter(t, ps).t > t
  {
    if ps != [] {
      AfterIsAfter(t, ps[1..]);
    }
  }

  // ---------- a reply ----------

  /** The reply to a request, begun by another modem while this one waits and at least 600 us
      before it gives up, is read and is the only thing reported. */
  lemma ReplyRead(s: Ot, w: Word, ps: seq<Sight>, start: int, slave: Ot, reply: Word, from: int, es: seq<Event>,
                  gap: nat, gapSlave: nat, off: int, offSlave: int)
    requires s.st == Idle && slave.st == Idle && gap + gapSlave <= Us(100)
    requires Spaced(start, ps, gap) && Until(ps, from)
    requires GapEnd(start, ps).Reached? && forall p :: p in GapEnd(start, ps).rest ==> !p.line
    requires from + Us(600) <= FrameEnd(start, ps).t + Us(800000)
    requires var rx := Polls(Transmit(s, At(start, off), w).0, ps, off).0;
             var k := Link(Transmit(slave, At(from, offSlave), reply).0, rx, false, from, ps[|ps| - 1].t, []);
             TimelyRun(k, es, gapSlave, gap, offSlave, off)
    ensures var (rx, said) := Polls(Transmit(s, At(start, off), w).0, ps, off);
            var k := Link(Transmit(slave, At(from, offSlave), reply).0, rx, false, from, ps[|ps| - 1].t, []);
            var k' := Run(k, es, offSlave, off);
            && said == [] && (k'.received == [] || k'.received == [FrameOk(reply)])
            && (es != [] && es[|es| - 1].t > from + Cells(34, Us(1000) + gapSlave) + gap ==>
                  k'.received == [FrameOk(reply)])
  {
    hide *;
    var rx, e := Polls(Transmit(s, At(start, off), w).0, ps, off).0, FrameEnd(start, ps).t;
    Waits();
    StillWaits(s, w, ps, off, start, gap, from);
    RoundTrip(slave, rx, es, reply, from, e, ps[|ps| - 1].t, gapSlave, gap, offSlave, off);
  }

  lemma StillWaits(s: Ot, w: Word, ps: seq<Sight>, off: int, start: int, g: nat, from: int)
    requires s.st == Idle && g <= Us(100) && Spaced(start, ps, g) && Until(ps, from)
    requires GapEnd(start, ps).Reached? && forall p :: p in GapEnd(start, ps).rest ==> !p.line
    requires from <= FrameEnd(start, ps).t + Us(800000)
    ensures var (rx, said) := Polls(Transmit(s, At(start, off), w).0, ps, off);
            var e := FrameEnd(start, ps).t;
            rx.st == WaitFrame && rx.t0 == At(e, off) && said == [] && e <= from && ps != []
  {
    hide *;
    var e, free := FrameEnd(start, ps).t, GapEnd(start, ps);
    Waits();
    SilentLine(s, w, ps, off, start, g);
    RequestWaits(s, w, ps, off, start, g);
    FollowsAre(free, ps, g);
    SpacedGrows(free.t, free.rest, g);
    UntilLast(ps, from);
    if FirstAfter(e + Us(800000), free.rest).Reached? {
      ReachedIsLate(e + Us(800000), free.rest, free.t, g);
    }
  }

  lemma {:induction false} ReachedIsLate(t: int, ps: seq<Sight>, last: int, g: nat)
    requires FirstAfter(t, ps).Reached? && Spaced(last, ps, g)
    ensures ps != [] && ps[|ps| - 1].t > t
  {
    if ps[0].t <= t {
      ReachedIsLate(t, ps[1..], ps[0].t, g);
    } else {
      SpacedGrows(ps[0].t, ps[1..], g);
    }
  }

  lemma {:induction false} SpacedGrows(last: int, ps: seq<Sight>, g: nat)
    requires Spaced(last, ps, g)
    ensures ps != [] ==> last <= ps[|ps| - 1].t
    decreases |ps|
  {
    if ps != [] {
      SpacedGrows(ps[0].t, ps[1..], g);
    }
  }

  // ---------- always an answer ----------

  function Max(a: int, b: int): int { if a < b then b else a }

  /** From time q on the line is low. */
  ghost predicate QuietFrom(q: int, ps: seq<Sight>) { forall p :: p in ps && p.t >= q ==> !p.line }

  ghost predicate Answered(s: Ot, ps: seq<Sight>, off: int) {
    var (s', said) := Polls(s, ps, off);
    s'.st == Idle && |said| == 1 && !said[0].RspError?
  }

  ghost predicate Beyond(ps: seq<Sight>, t: int) { ps != [] && ps[|ps| - 1].t > t }

  lemma AnswersNow(s: Ot, ps: seq<Sight>, off: int)
    requires ps != [] && s.st != Idle && Poll(s, At(ps[0].t, off), ps[0].line).0.st == Idle
    ensures Answered(s, ps, off)
  {
    var (s1, out) := Poll(s, At(ps[0].t, off), ps[0].line);
    assert |out.msgs| == 1 && !out.msgs[0].RspError? by {
      hide Elapsed, At;
    }
    IdleStays(s1, ps[1..], off);
    assert out.msgs + [] == out.msgs;
    hide Poll, At;
  }

  lemma AnswersLater(s: Ot, ps: seq<Sight>, off: int)
    requires ps != [] && Poll(s, At(ps[0].t, off), ps[0].line).1.msgs == []
    requires Answered(Poll(s, At(ps[0].t, off), ps[0].line).0, ps[1..], off)
    ensures Answered(s, ps, off)
  {
    QuietPoll(s, ps, off, Poll(s, At(ps[0].t, off), ps[0].line).0);
    hide Poll, At, Polls;
  }

  /** One poll in the error state. */
  lemma ErrorPoll(s: Ot, t: int, line: bool, off: int) returns (edge: int)
    requires s.st == FrameErrorWaitGap
    ensures edge <= t < edge + WRAP && s.t0 == At(edge, off)
    ensures var (s1, out) := Poll(s, At(t, off), line);
            && (line == s.prevV && !line && t > edge + Us(50000) ==> s1.st == Idle)
            && (s1.st != Idle ==>
                  out.msgs == []
                  && s1 == if line == s.prevV then s else s.(t0 := At(t, off), prevV := line))
  {
    var e := s.t0 - off;
    edge := t - (t - e) % WRAP;
    SameTick(t, e, off);
    RecoveryPoll(s, t, line, off, s.t0Frame - off, e);
    hide At;
  }

  lemma SameTick(t: int, e: int, off: int)
    ensures At(t - (t - e) % WRAP, off) == At(e, off)
  {
    var q := (t - e) / WRAP;
    assert t - (t - e) % WRAP == e + q * WRAP;
    Residue(e + off + q * WRAP, (e + off) / WRAP + q, (e + off) % WRAP);
  }

  lemma EdgeIs(edge: int, e: int, t: int, off: int)
    requires At(edge, off) == At(e, off) && edge <= t < edge + WRAP && e <= t < e + WRAP
    ensures edge == e
  {
  }

  /** Once the line has been seen low the error state ends 50 ms after its last change. */
  lemma {:induction false} QuietError(s: Ot, ps: seq<Sight>, off: int, e: int, last: int, g: nat)
    requires s.st == FrameErrorWaitGap && !s.prevV && s.t0 == At(e, off)
    requires e <= last <= e + Us(50000) && Us(50000) + g < WRAP && Spaced(last, ps, g)
    requires (forall p :: p in ps ==> !p.line) && Beyond(ps, e + Us(50000))
    ensures Answered(s, ps, off)
    decreases |ps|
  {
    var t := ps[0].t;
    assert ps[0] in ps;
    var edge := ErrorPoll(s, t, false, off);
    EdgeIs(edge, e, t, off);
    hide At, Poll;
    var s1 := Poll(s, At(t, off), false).0;
    if s1.st == Idle {
      AnswersNow(s, ps, off);
    } else {
      hide Answered;
      QuietError(s, ps[1..], off, e, t, g);
      AnswersLater(s, ps, off);
    }
  }

  lemma {:induction false} ErrorEnds(s: Ot, ps: seq<Sight>, off: int, last: int, g: nat, q: int)
    requires s.st == FrameErrorWaitGap && Us(50000) + g < WRAP && Spaced(last, ps, g)
    requires QuietFrom(q, ps) && Beyond(ps, Max(last, q) + g + Us(50000))
    ensures Answered(s, ps, off)
    decreases |ps|
  {
    var t, line := ps[0].t, ps[0].line;
    var edge := ErrorPoll(s, t, line, off);
    hide At, Poll;
    var s1 := Poll(s, At(t, off), line).0;
    if s1.st == Idle {
      AnswersNow(s, ps, off);
    } else {
      assert forall p :: p in ps[1..] ==> p in ps;
      hide Answered;
      if t < q {
        ErrorEnds(s1, ps[1..], off, t, g, q);
      } else {
        assert ps[0] in ps;
        SpacedOn(t, ps[1..], g);
        QuietError(s1, ps[1..], off, if line == s.prevV then edge else t, t, g);
      }
      AnswersLater(s, ps, off);
    }
  }

  lemma {:induction false} SpacedOn(last: int, ps: seq<Sight>, g: nat)
    requires Spaced(last, ps, g)
    ensures forall p :: p in ps ==> p.t >= last
    decreases |ps|
  {
    if ps != [] {
      SpacedOn(ps[0].t, ps[1..], g);
    }
  }

  lemma ReadPoll(s: Ot, t: int, line: bool, off: int, base: int)
    requires s.st == ReadBits && -1 <= s.bitIdx <= 32 && s.t0 == At(base, off) && base <= t < base + WRAP
    ensures var (s1, out) := Poll(s, At(t, off), line);
            && s1.st in {ReadBits, FrameErrorWaitGap, Idle} && (s1.st != Idle ==> out.msgs == [])
            && (s1.st == ReadBits ==>
                  || (s1.bitIdx == s.bitIdx && s1.t0 == s.t0 && t <= base + Us(1150))
                  || (s1.bitIdx == s.bitIdx - 1 >= -1 && s1.t0 == At(t, off)))
  {
    ElapsedIsDuration(t, base, off);
    hide Elapsed, At;
  }

  lemma {:induction false} ReadEnds(s: Ot, ps: seq<Sight>, off: int, base: int, last: int, g: nat, q: int)
    requires s.st == ReadBits && -1 <= s.bitIdx <= 32 && s.t0 == At(base, off)
    requires base <= last <= base + Us(1150) && Us(50000) + g < WRAP && Spaced(last, ps, g)
    requires QuietFrom(q, ps) && Beyond(ps, Max(base + Cells(s.bitIdx + 2, Us(1150) + g), q) + g + Us(50000))
    ensures Answered(s, ps, off)
    decreases |ps|
  {
    var t, line := ps[0].t, ps[0].line;
    ReadPoll(s, t, line, off, base);
    CellsMore(s.bitIdx + 2, Us(1150) + g);
    hide At, Poll, Cells;
    var s1 := Poll(s, At(t, off), line).0;
    if s1.st == Idle {
      AnswersNow(s, ps, off);
    } else {
      assert forall p :: p in ps[1..] ==> p in ps;
      hide Answered;
      if s1.st == ReadBits {
        ReadEnds(s1, ps[1..], off, if s1.bitIdx == s.bitIdx then base else t, t, g, q);
      } else {
        ErrorEnds(s1, ps[1..], off, t, g, q);
      }
      AnswersLater(s, ps, off);
    }
  }

  lemma RisePoll(s: Ot, t: int, off: int)
    requires s.st == WaitFrame
    ensures var (s1, out) := Poll(s, At(t, off), true);
            s1.st == ReadBits && s1.bitIdx == 32 && s1.t0 == At(t - Us(500), off) && out.msgs == []
  {
    AtMinus(t, off, Us(500));
    hide At;
  }

  lemma {:induction false} WaitEnds(s: Ot, ps: seq<Sight>, off: int, e: int, last: int, g: nat, q: int)
    requires s.st == WaitFrame && s.t0 == At(e, off) && e <= last <= e + Us(800000)
    requires Us(800000) + g < WRAP && Spaced(last, ps, g)
    requires QuietFrom(q, ps)
    requires Beyond(ps, Max(e + Us(800000) + g + Cells(34, Us(1150) + g), q) + g + Us(50000))
    ensures Answered(s, ps, off)
    decreases |ps|
  {
    var t, line := ps[0].t, ps[0].line;
    WaitPoll(s, t, off, e);
    RisePoll(s, t, off);
    CellsMore(34, Us(1150) + g);
    hide At, Poll, Cells;
    var s1 := Poll(s, At(t, off), line).0;
    if s1.st == Idle {
      AnswersNow(s, ps, off);
    } else {
      assert forall p :: p in ps[1..] ==> p in ps;
      hide Answered;
      if line {
        ReadEnds(s1, ps[1..], off, t - Us(500), t, g, q);
      } else {
        WaitEnds(s1, ps[1..], off, e, t, g, q);
      }
      AnswersLater(s, ps, off);
    }
  }

  /** Every accepted request is answered exactly once, on any line that becomes quiet at some
      time: 34 cells, 800 ms, 34 bit windows and the gaps between polls after the request, or
      50 ms and two gaps after the line became quiet, whichever comes later. */
  lemma RequestAnswered(s: Ot, w: Word, ps: seq<Sight>, off: int, start: int, g: nat, q: int)
    requires s.st == Idle && g <= Us(700000) && Spaced(start, ps, g) && QuietFrom(q, ps)
    requires var late := start + Cells(34, Us(1000) + g) + Us(800000) + g + Cells(34, Us(1150) + g);
             Beyond(ps, Max(late, q) + g + Us(50000))
    ensures Answered(Transmit(s, At(start, off), w).0, ps, off)
  {
    hide *;
    var k, e, free := Transmit(s, At(start, off), w).0, FrameEnd(start, ps), GapEnd(start, ps);
    Waits();
    RequestWaits(s, w, ps, off, start, g);
    CellsMore(34, Us(1150) + g);
    var late := start + Cells(34, Us(1000) + g) + Us(800000) + g + Cells(34, Us(1150) + g);
    MaxGrows(start + Cells(34, Us(1000) + g) + Us(10000), late, q);
    if free == NotYet {
      TooEarly(ps, start + Cells(34, Us(1000) + g) + Us(10000), Max(late, q) + g + Us(50000));
    } else {
      FollowsAre(free, ps, g);
      var late1 := e.t + Us(800000) + g + Cells(34, Us(1150) + g);
      MaxGrows(late1, late, q);
      MaxGrows(free.t, late1, q);
      RestBeyond(free, ps, g, q, Max(late1, q) + g + Us(50000), Max(late, q) + g + Us(50000));
      WaitEnds(Awaiting(k, e.t, off), free.rest, off, e.t, free.t, g, q);
      hide Answered;
      SameAnswer(k, Awaiting(k, e.t, off), ps, free.rest, off);
    }
  }

  lemma MaxGrows(a: int, b: int, q: int)
    requires a <= b
    ensures a <= Max(a, q) <= Max(b, q) && b <= Max(b, q) && q <= Max(b, q)
  {
  }

  lemma TooEarly(ps: seq<Sight>, t: int, u: int)
    requires Beyond(ps, u) && t <= u
    ensures !Until(ps, t)
  {
  }

  lemma RestBeyond(r: Reached, ps: seq<Sight>, g: nat, q: int, t: int, u: int)
    requires r.Reached? && Follows(r, ps, g) && Beyond(ps, u) && r.t <= t <= u && QuietFrom(q, ps)
    ensures Beyond(r.rest, t) && QuietFrom(q, r.rest)
  {
    FollowsAre(r, ps, g);
  }

  lemma SameAnswer(s: Ot, s1: Ot, ps: seq<Sight>, rest: seq<Sight>, off: int)
    requires Polls(s, ps, off) == Polls(s1, rest, off) && Answered(s1, rest, off)
    ensures Answered(s, ps, off)
  {
    hide Polls;
  }
}
