/** The receiver of the heat-recovery unit: four-byte commands from a serial line, a pause of
    50 ms after anything wrong, a failsafe setting after 1.5 s without a command.
  */
module RekuRx {
  import opened Crc8
  import opened Wrappers

  /** The 16-bit timer, five ticks to the millisecond. */
  const WRAP := 0x1_0000

  type Tick = t: int | 0 <= t < WRAP

  function Ms(ms: nat): nat { 5 * ms }

  function Timer(t: int): Tick { t % WRAP }

  /** The comparison as the source has it, the sum in 32 bits. */
  predicate Timeout16(now: Tick, t0: Tick, delay: nat) {
    var t2: int := if t0 > now then now + 0x1_0000 else now;
    t2 - t0 > delay
  }

  /** It compares the true age, if that is below one wrap of the timer. */
  lemma TimeoutIsAge(t: int, t0: int, delay: nat)
    requires 0 <= t - t0 < WRAP
    ensures Timeout16(Timer(t), Timer(t0), delay) <==> t - t0 > delay
  {
  }

  /** In general it compares the age less whole wraps. */
  lemma TimeoutIsResidue(t: int, t0: int, delay: nat)
    ensures Timeout16(Timer(t), Timer(t0), delay) <==> (t - t0) % WRAP > delay
  {
    var a, b := t / WRAP, t0 / WRAP;
    assert t == a * WRAP + Timer(t) && t0 == b * WRAP + Timer(t0);
    assert (t - t0) % WRAP == if Timer(t) < Timer(t0) then Timer(t) + WRAP - Timer(t0) else Timer(t) - Timer(t0);
  }

  const FRAME := 4
  const PAUSE := Ms(50)
  const COMM_TIMEOUT := Ms(1500)

  datatype RxState = Reading | Err
  datatype CommState = NoComm | Communicating | CommLost

  /** What the unit drives: the two fan duties, the two low duty bits, the bypass. */
  datatype Outputs = Outputs(intake: Byte, exhaust: Byte, dutyLow: bool, bypass: bool)

  type Buffer = b: seq<Byte> | |b| == FRAME witness [0, 0, 0, 0]

  datatype Rx = Rx(state: RxState, idx: int, t0Err: Tick, t0Comm: Tick, buf: Buffer, comm: CommState, out: Outputs)

  datatype Effect = Nothing | Applied(frame: Buffer) | Failsafe | Announced

  predicate Marked(b: Byte) { b & 0xFC == 0x54 }

  /** A frame the unit obeys. */
  predicate Command(f: Buffer) { Marked(f[0]) && Crc(f[..3]) == f[3] }

  function Obey(f: Buffer): Outputs {
    if f[0] & 2 != 0 then Outputs(0, 0, false, false) else Outputs(f[1], f[2], true, f[0] & 1 != 0)
  }

  function Safe(out: Outputs): Outputs { out.(intake := 64, exhaust := 64, bypass := false) }

  // ---------- one call, as functions ----------

  /** A byte was received; err is the framing or overrun flag. */
  function OnByte(s: Rx, now: Tick, b: Byte, err: bool): (Rx, Effect)
    requires 0 <= s.idx < FRAME
  {
    var buf := s.buf[s.idx := b];
    if err || s.state == Err then (s.(buf := buf, state := Err, idx := 0, t0Err := now), Nothing)
    else if s.idx == 0 then
      (if Marked(buf[0]) then s.(buf := buf, idx := 1, t0Err := now)
       else s.(buf := buf, state := Err, idx := 0, t0Err := now), Nothing)
    else if s.idx == FRAME - 1 then
      if Crc(buf[..3]) == buf[3] then
        (s.(buf := buf, idx := 0, t0Comm := now, comm := Communicating, out := Obey(buf)), Applied(buf))
      else (s.(buf := buf, state := Err, idx := 0, t0Err := now), Nothing)
    else (s.(buf := buf, idx := s.idx + 1), Nothing)
  }

  function OnNothing(s: Rx, now: Tick): (Rx, Effect) {
    if s.state == Err then (if Timeout16(now, s.t0Err, PAUSE) then s.(state := Reading) else s, Nothing)
    else if s.idx > 0 then
      (if Timeout16(now, s.t0Err, PAUSE) then s.(state := Err, idx := 0, t0Err := now) else s, Nothing)
    else if Timeout16(now, s.t0Comm, COMM_TIMEOUT) then
      if s.comm != NoComm then (s.(comm := CommLost, out := Safe(s.out), t0Comm := now), Failsafe)
      else (s.(t0Comm := now), Announced)
    else (s, Nothing)
  }

  /** One call of the receiver at a true time. */
  datatype Poll = Got(t: int, b: Byte, err: bool) | Empty(t: int)

  function Step(s: Rx, p: Poll): (Rx, Effect)
    requires 0 <= s.idx < FRAME
  {
    match p
    case Got(t, b, err) => OnByte(s, Timer(t), b, err)
    case Empty(t) => OnNothing(s, Timer(t))
  }

  // ---------- the receiver as it runs ----------

  class Receiver {
    var state: RxState
    var byteIdx: int
    var t0Err: Tick
    var t0Comm: Tick
    var rekuRx: Buffer
    var commState: CommState
    var out: Outputs

    ghost function View(): Rx
      reads this
    {
      Rx(state, byteIdx, t0Err, t0Comm, rekuRx, commState, out)
    }

    method UpdateControlPVs()
      modifies `out
      ensures out == Obey(rekuRx)
    {
      var off := rekuRx[0] & 2 != 0;
      var bypass := rekuRx[0] & 1 != 0;
      if off {
        out := Outputs(0, 0, false, false);
      } else {
        out := Outputs(rekuRx[1], rekuRx[2], true, bypass);
      }
    }

    /** With a received byte. */
    method DoRxByte(now: Tick, b: Byte, rxErr: bool) returns (e: Effect)
      requires 0 <= byteIdx < FRAME && (state == Err ==> byteIdx == 0)
      modifies this
      ensures (View(), e) == OnByte(old(View()), now, b, rxErr)
    {
      hide Obey, Marked, Crc;
      e := Nothing;
      rekuRx := rekuRx[byteIdx := b];
      byteIdx := byteIdx + 1;
      if rxErr {
        state := Err;
        byteIdx := 0;
      }
      if state == Reading {
        if byteIdx == 1 {
          if !Marked(rekuRx[0]) {
            state := Err;
            byteIdx := 0;
          }
        } else if byteIdx == FRAME {
          var crc := CalcCrc(rekuRx[..FRAME - 1]);
          if crc == rekuRx[FRAME - 1] {
            t0Comm := now;
            commState := Communicating;
            UpdateControlPVs();
            e := Applied(rekuRx);
          } else {
            state := Err;
          }
          byteIdx := 0;
        }
      } else {
        byteIdx := 0;
      }
      if state == Err || byteIdx == 1 {
        t0Err := now;
      }
    }

    /** Without one. */
    method DoRxIdle(now: Tick) returns (e: Effect)
      modifies this
      ensures (View(), e) == OnNothing(old(View()), now)
    {
      e := Nothing;
      if state == Err {
        if Timeout16(now, t0Err, PAUSE) {
          state := Reading;
        }
      } else if byteIdx > 0 {
        if Timeout16(now, t0Err, PAUSE) {
          state := Err;
          byteIdx := 0;
          t0Err := now;
        }
      } else if Timeout16(now, t0Comm, COMM_TIMEOUT) {
        if commState != NoComm {
          commState := CommLost;
          out := out.(intake := 64, exhaust := 64, bypass := false);
          e := Failsafe;
        } else {
          e := Announced;
        }
        t0Comm := now;
      }
    }
  }

  // ---------- what every step keeps ----------

  /** The index stays inside the frame, and a frame being read began with the mark. */
  ghost predicate Sound(s: Rx) {
    0 <= s.idx < FRAME && (s.state == Err ==> s.idx == 0) && (s.idx > 0 ==> Marked(s.buf[0]))
  }

  /** Outputs change only by a marked frame with a matching CRC, to what that frame says, or
      by the failsafe; and each such frame is obeyed. */
  lemma StepKeeps(s: Rx, p: Poll)
    requires Sound(s)
    ensures var (s', e) := Step(s, p);
            && Sound(s')
            && s'.out == (match e case Applied(f) => Obey(f) case Failsafe => Safe(s.out) case _ => s.out)
            && (e.Applied? ==> Command(e.frame) && e.frame == s.buf[3 := p.b] && p.Got? && s.idx == 3 && !p.err)
            && (p.Got? && !p.err && s.idx == 3 && Command(s.buf[3 := p.b]) ==> e == Applied(s.buf[3 := p.b]))
            && (e.Failsafe? <==> p.Empty? && s.state == Reading && s.idx == 0 && s.comm != NoComm
                                 && Timeout16(Timer(p.t), s.t0Comm, COMM_TIMEOUT))
  {
    hide Crc, Timeout16, Obey, Marked;
  }

  /** A byte after which the receiver waits for a pause: any after something was wrong, one
      received badly, a first one without the mark, a last one that is not the CRC. */
  predicate Wrong(s: Rx, b: Byte, err: bool)
    requires 0 <= s.idx < FRAME
  {
    s.state == Err || err || (s.idx == 0 && !Marked(b)) || (s.idx == 3 && !Command(s.buf[3 := b]))
  }

  /** When the receiver waits for a pause, from which moment, and in which place of the frame it
      is: a wrong byte makes it wait and any other is the next of the frame; a call without a
      byte ends the wait after 50 ms, and begins one if a frame stands still that long. */
  lemma PausesFollow(s: Rx, p: Poll)
    requires Sound(s)
    ensures var s', over := Step(s, p).0, Timeout16(Timer(p.t), s.t0Err, Ms(50));
            if p.Got? then
              && (s'.state == Err <==> Wrong(s, p.b, p.err))
              && (s'.state == Err ==> s'.idx == 0 && s'.t0Err == Timer(p.t))
              && (s'.state != Err ==> s'.idx == (s.idx + 1) % 4 && s'.buf[s.idx] == p.b)
              && (s'.idx == 1 ==> s'.t0Err == Timer(p.t)) && (s'.idx > 1 ==> s'.t0Err == s.t0Err)
            else if s.state == Err then s'.idx == 0 && s'.t0Err == s.t0Err && (s'.state == Err <==> !over)
            else if s.idx > 0 && over then s'.state == Err && s'.idx == 0 && s'.t0Err == Timer(p.t)
            else s'.state == Reading && s'.idx == s.idx && s'.t0Err == s.t0Err
  {
    hide Crc, Timeout16, Obey, Marked, Timer;
  }

  // ---------- runs ----------

  /** The final state and what each call did. */
  function Run(s: Rx, ps: seq<Poll>): (r: (Rx, seq<Effect>))
    requires Sound(s)
    ensures Sound(r.0) && |r.1| == |ps|
    decreases |ps|
  {
    if ps == [] then (s, [])
    else
      StepKeeps(s, ps[0]);
      var (s1, e) := Step(s, ps[0]);
      var (s2, es) := Run(s1, ps[1..]);
      (s2, [e] + es)
  }

  lemma RunCons(s: Rx, p: Poll, ps: seq<Poll>)
    requires Sound(s)
    ensures var (s1, e) := Step(s, p);
            Sound(s1) && Run(s, [p] + ps) == (Run(s1, ps).0, [e] + Run(s1, ps).1)
  {
    StepKeeps(s, p);
    assert ([p] + ps)[1..] == ps;
    hide Step, Sound;
  }

  lemma {:induction false} RunConcat(s: Rx, ps: seq<Poll>, qs: seq<Poll>)
    requires Sound(s)
    ensures Run(s, ps + qs).0 == Run(Run(s, ps).0, qs).0
    ensures Run(s, ps + qs).1 == Run(s, ps).1 + Run(Run(s, ps).0, qs).1
    decreases |ps|
  {
    if ps == [] {
      assert ps + qs == qs;
      hide Step, Sound;
    } else {
      hide *;
      var p, rest := ps[0], ps[1..];
      var (s1, e) := Step(s, p);
      assert ps == [p] + rest && ps + qs == [p] + (rest + qs);
      RunCons(s, p, rest);
      RunConcat(s1, rest, qs);
      RunCons(s, p, rest + qs);
      var t := Run(s1, rest).0;
      Assoc([e], Run(s1, rest).1, Run(t, qs).1);
    }
  }

  /** All bytes received. */
  function Bytes(ps: seq<Poll>): seq<Byte> {
    if ps == [] then [] else ByteOf(ps[0]) + Bytes(ps[1..])
  }

  /** What has been read of a frame is what came in last. */
  ghost predicate Tail(s: Rx, seen: seq<Byte>) {
    0 <= s.idx < FRAME && s.idx <= |seen| && forall j :: 0 <= j < s.idx ==> s.buf[j] == seen[|seen| - s.idx + j]
  }

  /** If the outputs follow a command now, it is in the last four bytes. */
  ghost predicate FollowsTail(e: Effect, all: seq<Byte>) {
    e.Applied? ==> Command(e.frame) && |all| >= FRAME
                   && forall j :: 0 <= j < FRAME ==> all[|all| - FRAME + j] == e.frame[j]
  }

  function ByteOf(p: Poll): seq<Byte> { if p.Got? then [p.b] else [] }

  lemma StepTail(s: Rx, p: Poll, seen: seq<Byte>)
    requires Sound(s) && Tail(s, seen)
    ensures var (s', e) := Step(s, p);
            Sound(s') && Tail(s', seen + ByteOf(p)) && FollowsTail(e, seen + ByteOf(p))
  {
    hide Crc, Marked, Obey, Timeout16;
    StepKeeps(s, p);
  }

  lemma RunUnfold(s: Rx, ps: seq<Poll>)
    requires Sound(s)
    ensures ps == [] ==> Run(s, ps).0 == s && Bytes(ps) == []
    ensures ps != [] ==> Sound(Step(s, ps[0]).0) && Run(s, ps).0 == Run(Step(s, ps[0]).0, ps[1..]).0
                         && Bytes(ps) == ByteOf(ps[0]) + Bytes(ps[1..])
  {
    if ps != [] {
      StepKeeps(s, ps[0]);
    }
  }

  lemma {:induction false} RunTail(s: Rx, ps: seq<Poll>, seen: seq<Byte>)
    requires Sound(s) && Tail(s, seen)
    ensures Tail(Run(s, ps).0, seen + Bytes(ps))
    decreases |ps|
  {
    hide Step, Tail, FollowsTail, Run, Bytes, Marked, ByteOf;
    RunUnfold(s, ps);
    if ps == [] {
      assert seen + [] == seen;
    } else {
      StepTail(s, ps[0], seen);
      RunTail(Step(s, ps[0]).0, ps[1..], seen + ByteOf(ps[0]));
      assert seen + ByteOf(ps[0]) + Bytes(ps[1..]) == seen + (ByteOf(ps[0]) + Bytes(ps[1..]));
    }
  }

  /** After any run from any state between frames, the outputs follow a command only when
      the last four bytes received are that command, with its mark and its CRC. */
  lemma OnlyCommandsObeyed(s: Rx, ps: seq<Poll>, seen: seq<Byte>, last: Poll)
    requires Sound(s) && Tail(s, seen)
    ensures var s1 := Run(s, ps).0;
            FollowsTail(Step(s1, last).1, seen + Bytes(ps) + ByteOf(last))
  {
    hide Step, Tail, FollowsTail, Run, Bytes;
    RunTail(s, ps, seen);
    StepTail(Run(s, ps).0, last, seen + Bytes(ps));
  }

  // ---------- resynchronisation ----------

  /** The true age of the error timer where it matters; e is when it was set. */
  ghost predicate Aged(s: Rx, e: int, now: int, g: nat) {
    && e <= now && ((s.state == Err || s.idx > 0) ==> s.t0Err == Timer(e))
    && (s.state == Err ==> now - e <= PAUSE)
    && (s.idx > 0 ==> now - e <= PAUSE + (s.idx - 1) * g)
  }

  ghost predicate Spaced(last: int, ps: seq<Poll>, g: nat)
    decreases |ps|
  {
    ps == [] || (last <= ps[0].t <= last + g && Spaced(ps[0].t, ps[1..], g))
  }

  lemma StepAged(s: Rx, e: int, last: int, p: Poll, g: nat) returns (e': int)
    requires Sound(s) && Aged(s, e, last, g) && last <= p.t <= last + g && PAUSE + 3 * g < WRAP
    ensures Aged(Step(s, p).0, e', p.t, g)
    ensures e' == e || (e' == p.t && (p.Empty? ==> s.idx > 0 && p.t - e > PAUSE))
  {
    var s' := Step(s, p).0;
    e' := if s'.t0Err != s.t0Err || (p.Got? && (s'.state == Err || s'.idx == 1)) then p.t else e;
    if p.Empty? {
      if s.state == Err || s.idx > 0 {
        TimeoutIsAge(p.t, e, PAUSE);
        if s.idx > 0 && p.t - e > PAUSE {
          e' := p.t;
        } else {
          e' := e;
        }
      } else {
        e' := e;
      }
    }
    hide Crc, Marked, Obey, Timer;
  }

  /** Any run from the reset state: how old the error timer can be. */
  lemma {:induction false} RunAged(s: Rx, e: int, last: int, ps: seq<Poll>, g: nat) returns (e': int)
    requires Sound(s) && Aged(s, e, last, g) && Spaced(last, ps, g) && PAUSE + 3 * g < WRAP
    ensures Aged(Run(s, ps).0, e', if ps == [] then last else ps[|ps| - 1].t, g)
    decreases |ps|
  {
    if ps == [] {
      e' := e;
    } else {
      StepKeeps(s, ps[0]);
      e' := StepAged(s, e, last, ps[0], g);
      e' := RunAged(Step(s, ps[0]).0, e', ps[0].t, ps[1..], g);
    }
  }

  ghost predicate AllEmpty(ps: seq<Poll>) { forall k :: 0 <= k < |ps| ==> ps[k].Empty? }

  ghost predicate NoneApplied(es: seq<Effect>) { forall k :: 0 <= k < |es| ==> !es[k].Applied? }

  /** By dl the receiver will have paused and be ready. */
  ghost predicate ReadyBy(s: Rx, e: int, last: int, dl: int, g: nat) {
    && (s.state == Err ==> e + PAUSE + g <= dl)
    && (s.idx > 0 ==> last + g + PAUSE + g <= dl && e + PAUSE + g + PAUSE + g <= dl)
  }

  lemma SilentStep(s: Rx, e: int, last: int, t: int, g: nat, dl: int) returns (e': int)
    requires Sound(s) && Aged(s, e, last, g) && last <= t <= last + g && PAUSE + 3 * g < WRAP
    requires ReadyBy(s, e, last, dl, g)
    ensures var (s', f) := Step(s, Empty(t));
            && Sound(s') && Aged(s', e', t, g) && ReadyBy(s', e', t, dl, g) && !f.Applied?
            && (t > dl ==> s'.state == Reading && s'.idx == 0)
  {
    e' := e;
    if s.state == Err || s.idx > 0 {
      TimeoutIsAge(t, e, PAUSE);
      if s.idx > 0 && t - e > PAUSE {
        e' := t;
      }
    }
    hide Timeout16, Marked;
  }

  lemma {:induction false} SilenceReadies(s: Rx, e: int, last: int, ps: seq<Poll>, g: nat, dl: int)
    requires Sound(s) && Aged(s, e, last, g) && Spaced(last, ps, g) && PAUSE + 3 * g < WRAP
    requires AllEmpty(ps) && ReadyBy(s, e, last, dl, g)
    ensures var (s', es) := Run(s, ps);
            && NoneApplied(es)
            && (if ps == [] then s' == s else ps[|ps| - 1].t > dl ==> s'.state == Reading && s'.idx == 0)
    decreases |ps|
  {
    if ps != [] {
      var t := ps[0].t;
      var e' := SilentStep(s, e, last, t, g, dl);
      var (s1, f) := Step(s, ps[0]);
      hide Step, ReadyBy, Aged, Sound;
      SilenceReadies(s1, e', t, ps[1..], g, dl);
    }
  }

  /** The events that bring the bytes of f from k on: other calls between them see nothing
      and come at most 50 ms after the first byte. */
  ghost predicate Carries(ps: seq<Poll>, f: Buffer, k: nat, t0: int)
    decreases |ps|
  {
    if ps == [] then k == FRAME
    else
      k < FRAME &&
      match ps[0]
      case Got(t, b, err) => !err && b == f[k] && Carries(ps[1..], f, k + 1, t0)
      case Empty(t) => t0 <= t <= t0 + Ms(50) && Carries(ps[1..], f, k, t0)
  }

  /** How many commands were obeyed. */
  function Obeyed(es: seq<Effect>): nat {
    if es == [] then 0 else (if es[0].Applied? then 1 else 0) + Obeyed(es[1..])
  }

  lemma {:induction false} ObeyedConcat(es: seq<Effect>, fs: seq<Effect>)
    ensures Obeyed(es + fs) == Obeyed(es) + Obeyed(fs)
    ensures NoneApplied(es) ==> Obeyed(es) == 0
  {
    if es == [] {
      assert es + fs == fs;
    } else {
      ObeyedConcat(es[1..], fs);
      assert (es + fs)[1..] == es[1..] + fs;
    }
  }

  /** The bytes read so far are those of f. */
  ghost predicate ReadsAs(s: Rx, f: Buffer) { forall j :: 0 <= j < s.idx < FRAME ==> s.buf[j] == f[j] }

  lemma ByteTaken(s: Rx, t: int, f: Buffer)
    requires Sound(s) && s.state == Reading && s.idx > 0 && ReadsAs(s, f) && Command(f)
    ensures var (s', e) := Step(s, Got(t, f[s.idx], false));
            && Sound(s') && s'.state == Reading && s'.t0Err == s.t0Err
            && if s.idx == FRAME - 1 then s'.idx == 0 && s'.out == Obey(f) && e == Applied(f)
               else s'.idx == s.idx + 1 && ReadsAs(s', f) && e == Nothing
  {
    var buf := s.buf[s.idx := f[s.idx]];
    assert s.idx == FRAME - 1 ==> buf == f;
    hide Crc, Marked, Obey;
  }

  lemma {:induction false} FrameTaken(s: Rx, ps: seq<Poll>, f: Buffer, t0: int)
    requires Sound(s) && s.state == Reading && s.idx > 0 && s.t0Err == Timer(t0)
    requires ReadsAs(s, f) && Command(f) && Carries(ps, f, s.idx, t0)
    ensures var (s', es) := Run(s, ps);
            s'.state == Reading && s'.idx == 0 && s'.out == Obey(f) && Obeyed(es) == 1
    decreases |ps|
  {
    var (s1, e) := Step(s, ps[0]);
    match ps[0] {
      case Got(t, b, err) =>
        ByteTaken(s, t, f);
        hide Step, Command, Obey;
        if s.idx == FRAME - 1 {
          assert ps[1..] == [];
          assert Run(s1, ps[1..]) == (s1, []) && [e] + [] == [e];
        } else {
          FrameTaken(s1, ps[1..], f, t0);
          ObeyedConcat([e], Run(s1, ps[1..]).1);
        }
      case Empty(t) =>
        TimeoutIsAge(t, t0, PAUSE);
        assert s1 == s && e == Nothing;
        hide Step, Command, Obey;
        FrameTaken(s1, ps[1..], f, t0);
        ObeyedConcat([e], Run(s1, ps[1..]).1);
    }
  }

  /** The receiver after a reset: every field zero, so the error timer is not looked at. */
  ghost predicate Reset(s: Rx) { s.state == Reading && s.idx == 0 }

  /** Resynchronisation. After any run from a reset whatsoever, with calls at most g ticks
      apart: silence longer than both pauses, then the bytes of a valid command, each of
      the calls between them within 50 ms of the first byte. The unit obeys exactly that
      command, once. */
  lemma Resynchronises(s: Rx, start: int, past: seq<Poll>, silence: seq<Poll>, t0: int, frame: seq<Poll>, f: Buffer,
    g: nat)
    requires Reset(s) && Ms(50) + 3 * g < WRAP && Spaced(start, past, g)
    requires var last := if past == [] then start else past[|past| - 1].t;
             && Spaced(last, silence, g) && AllEmpty(silence)
             && silence != [] && silence[|silence| - 1].t > last + 2 * (Ms(50) + g)
    requires Command(f) && Carries(frame, f, 1, t0)
    ensures var s1 := Run(s, past).0;
            var (s2, es) := Run(s1, silence + [Got(t0, f[0], false)] + frame);
            s2.out == Obey(f) && Obeyed(es) == 1 && s2.state == Reading && s2.idx == 0
  {
    hide Step, Command, Obey, Carries, Run, Aged;
    var last := if past == [] then start else past[|past| - 1].t;
    var s1 := Run(s, past).0;
    var e := AgedPast(s, start, past, g);
    SilenceReadies(s1, e, last, silence, g, last + 2 * (PAUSE + g));
    var rest := [Got(t0, f[0], false)] + frame;
    FrameAfterPause(Run(s1, silence).0, t0, frame, f);
    RunConcat(s1, silence, rest);
    assert silence + [Got(t0, f[0], false)] + frame == silence + rest;
    ObeyedConcat(Run(s1, silence).1, Run(Run(s1, silence).0, rest).1);
  }

  lemma AgedPast(s: Rx, start: int, past: seq<Poll>, g: nat) returns (e: int)
    requires Reset(s) && PAUSE + 3 * g < WRAP && Spaced(start, past, g)
    ensures var last := if past == [] then start else past[|past| - 1].t;
            Aged(Run(s, past).0, e, last, g) && ReadyBy(Run(s, past).0, e, last, last + 2 * (PAUSE + g), g)
  {
    e := RunAged(s, start, start, past, g);
    hide Run, Spaced, Timer;
  }

  lemma FrameAfterPause(s: Rx, t0: int, frame: seq<Poll>, f: Buffer)
    requires Sound(s) && s.state == Reading && s.idx == 0 && Command(f) && Carries(frame, f, 1, t0)
    ensures var (s', es) := Run(s, [Got(t0, f[0], false)] + frame);
            s'.out == Obey(f) && Obeyed(es) == 1 && s'.state == Reading && s'.idx == 0
  {
    var first := Got(t0, f[0], false);
    var (s1, n) := Step(s, first);
    StepKeeps(s, first);
    assert ReadsAs(s1, f) && s1.idx == 1 && s1.state == Reading && s1.t0Err == Timer(t0) && n == Nothing;
    hide Step, Crc, Marked, Obey, Command, Carries;
    FrameTaken(s1, frame, f, t0);
    assert ([first] + frame)[1..] == frame;
    ObeyedConcat([n], Run(s1, frame).1);
  }

  // ---------- failsafe ----------

  /** When the command timer was last set: by a command, or by its own timeout. */
  function CommSince(s: Rx, ps: seq<Poll>, c: int): int
    requires Sound(s)
    decreases |ps|
  {
    if ps == [] then c
    else
      StepKeeps(s, ps[0]);
      var (s1, e) := Step(s, ps[0]);
      CommSince(s1, ps[1..], if e == Nothing then c else ps[0].t)
  }

  lemma StepComm(s: Rx, p: Poll, c: int)
    requires Sound(s) && s.t0Comm == Timer(c)
    ensures var (s', e) := Step(s, p);
            && s'.t0Comm == Timer(if e == Nothing then c else p.t)
            && (s'.comm == NoComm <==> s.comm == NoComm && !e.Applied?)
            && s'.comm == (match e case Applied(_) => Communicating case Failsafe => CommLost case _ => s.comm)
  {
    hide Crc, Marked, Obey, Timer, Timeout16;
  }

  lemma {:induction false} RunComm(s: Rx, ps: seq<Poll>, c: int)
    requires Sound(s) && s.t0Comm == Timer(c)
    ensures var (s', es) := Run(s, ps);
            && s'.t0Comm == Timer(CommSince(s, ps, c))
            && (s'.comm == NoComm <==> s.comm == NoComm && Obeyed(es) == 0)
    decreases |ps|
  {
    if ps != [] {
      StepKeeps(s, ps[0]);
      StepComm(s, ps[0], c);
      var (s1, e) := Step(s, ps[0]);
      hide Step, Sound, Timer;
      RunComm(s1, ps[1..], if e == Nothing then c else ps[0].t);
      ObeyedConcat([e], Run(s1, ps[1..]).1);
      assert [e][1..] == [];
    }
  }

  /** Exactly when the failsafe is driven, after any run and whatever bytes came: at a call
      that finds no byte while the receiver waits for a first one, once a command has ever
      been obeyed, if the time since the last command or timeout, less whole wraps of the
      timer, is above 1.5 s. */
  lemma FailsafeIff(s: Rx, ps: seq<Poll>, c: int, p: Poll)
    requires Sound(s) && s.t0Comm == Timer(c)
    ensures var (s1, es) := Run(s, ps);
            Step(s1, p).1.Failsafe? <==>
              && p.Empty? && s1.state == Reading && s1.idx == 0
              && (s.comm != NoComm || Obeyed(es) > 0)
              && (p.t - CommSince(s, ps, c)) % WRAP > Ms(1500)
  {
    hide *;
    RunComm(s, ps, c);
    FailsafeWhen(Run(s, ps).0, p, CommSince(s, ps, c));
  }

  lemma FailsafeWhen(s: Rx, p: Poll, c: int)
    requires Sound(s) && s.t0Comm == Timer(c)
    ensures Step(s, p).1.Failsafe? <==>
              && p.Empty? && s.state == Reading && s.idx == 0 && s.comm != NoComm && (p.t - c) % WRAP > Ms(1500)
  {
    StepKeeps(s, p);
    TimeoutIsResidue(p.t, c, COMM_TIMEOUT);
    hide Step, Timer, Timeout16, Sound;
  }

  /** The bytes are received well, and each call without one comes at most 50 ms after the
      last; before all these calls that came at e. */
  ghost predicate KeptBusy(e: int, ps: seq<Poll>)
    decreases |ps|
  {
    ps == []
    || (if ps[0].Got? then !ps[0].err && KeptBusy(ps[0].t, ps[1..])
        else e <= ps[0].t <= e + Ms(50) && KeptBusy(e, ps[1..]))
  }

  /** Nothing was done, and the receiver still waits for a pause. */
  ghost predicate Starved(s: Rx, s': Rx, es: seq<Effect>) {
    && s'.out == s.out && s'.comm == s.comm && s'.state == Err
    && forall k :: 0 <= k < |es| ==> es[k] == Nothing
  }

  lemma {:induction false} ErrStays(s: Rx, e: int, ps: seq<Poll>)
    requires Sound(s) && s.state == Err && s.t0Err == Timer(e) && KeptBusy(e, ps)
    ensures Starved(s, Run(s, ps).0, Run(s, ps).1)
    decreases |ps|
  {
    if ps != [] {
      var (s1, f) := Step(s, ps[0]);
      var e1 := if ps[0].Got? then ps[0].t else e;
      if ps[0].Empty? {
        TimeoutIsAge(ps[0].t, e, PAUSE);
      }
      assert Sound(s1) && s1.state == Err && s1.t0Err == Timer(e1) && s1.out == s.out && s1.comm == s.comm
        && f == Nothing;
      hide Step, Sound, Timer;
      ErrStays(s1, e1, ps[1..]);
    }
  }

  /** After any run from a reset: one wrong byte, and then bytes of any kind that never pause
      for more than 50 ms, keep the receiver from obeying any command and from its failsafe,
      for ever. */
  lemma BytesStarve(s: Rx, past: seq<Poll>, e: int, b: Byte, ps: seq<Poll>)
    requires Reset(s) && Wrong(Run(s, past).0, b, false) && KeptBusy(e, ps)
    ensures var s1 := Run(s, past).0;
            var (s', es) := Run(s1, [Got(e, b, false)] + ps); Starved(s1, s', es)
  {
    var s1 := Run(s, past).0;
    hide Run, Reset, Wrong, KeptBusy;
    var first := Got(e, b, false);
    var (s2, f) := Step(s1, first);
    PausesFollow(s1, first);
    StepKeeps(s1, first);
    assert s2.state == Err && s2.t0Err == Timer(e) && s2.out == s1.out && s2.comm == s1.comm && f == Nothing by {
      hide Crc, Obey, Marked, Timer;
    }
    hide Step, Sound, Timer, Starved;
    ErrStays(s2, e, ps);
    RunCons(s1, first, ps);
    StarvedCons(s1, s2, ps);
  }

  lemma StarvedCons(s1: Rx, s2: Rx, ps: seq<Poll>)
    requires Sound(s2) && s2.out == s1.out && s2.comm == s1.comm && Starved(s2, Run(s2, ps).0, Run(s2, ps).1)
    ensures Starved(s1, Run(s2, ps).0, [Nothing] + Run(s2, ps).1)
  {
    hide Run, Sound;
  }

  lemma {:induction false} SafeStays(s: Rx, ps: seq<Poll>)
    requires Sound(s) && s.state == Reading && s.idx == 0 && s.comm == CommLost && s.out == Safe(s.out) && AllEmpty(ps)
    ensures Run(s, ps).0.out == s.out && Run(s, ps).0.comm == CommLost
    decreases |ps|
  {
    if ps != [] {
      StepKeeps(s, ps[0]);
      SafeStays(Step(s, ps[0]).0, ps[1..]);
    }
  }

  lemma {:induction false} NoneStays(s: Rx, ps: seq<Poll>)
    requires Sound(s) && s.comm == NoComm && AllEmpty(ps)
    ensures Run(s, ps).0.out == s.out && Run(s, ps).0.comm == NoComm
    decreases |ps|
  {
    if ps != [] {
      StepKeeps(s, ps[0]);
      NoneStays(Step(s, ps[0]).0, ps[1..]);
    }
  }

  /** While the receiver waits for a first byte, the timer not having run out yet. */
  lemma {:induction false} FailsafeDue(s: Rx, c: int, last: int, ps: seq<Poll>, g: nat)
    requires Sound(s) && s.state == Reading && s.idx == 0 && s.comm != NoComm && s.t0Comm == Timer(c)
    requires c <= last <= c + COMM_TIMEOUT && Spaced(last, ps, g) && AllEmpty(ps) && COMM_TIMEOUT + g < WRAP
    requires ps != [] && ps[|ps| - 1].t > c + COMM_TIMEOUT
    ensures Run(s, ps).0.out == Safe(s.out) && Run(s, ps).0.comm == CommLost
    decreases |ps|
  {
    StepKeeps(s, ps[0]);
    TimeoutIsAge(ps[0].t, c, COMM_TIMEOUT);
    var s1 := Step(s, ps[0]).0;
    if ps[0].t > c + COMM_TIMEOUT {
      SafeStays(s1, ps[1..]);
    } else {
      FailsafeDue(s1, c, ps[0].t, ps[1..], g);
    }
  }

  /** The latest time at which a timer that now reads so can have been set. */
  lemma SetAt(t: int, t0: Tick) returns (c: int)
    ensures Timer(c) == t0 && c <= t && forall d :: Timeout16(Timer(t), t0, d) <==> t - c > d
  {
    c := t - (if Timer(t) < t0 then Timer(t) + WRAP - t0 else Timer(t) - t0);
  }

  /** However old its timer is: the first call finds it run out, or it runs out later. */
  lemma WaitingFails(s: Rx, last: int, ps: seq<Poll>, g: nat)
    requires Sound(s) && s.state == Reading && s.idx == 0 && s.comm != NoComm
    requires Spaced(last, ps, g) && AllEmpty(ps) && COMM_TIMEOUT + g < WRAP
    requires ps != [] && ps[|ps| - 1].t > last + g + COMM_TIMEOUT
    ensures Run(s, ps).0.out == Safe(s.out) && Run(s, ps).0.comm == CommLost
  {
    var t := ps[0].t;
    var c := SetAt(t, s.t0Comm);
    hide Timer, Timeout16;
    var s1 := Step(s, ps[0]).0;
    StepKeeps(s, ps[0]);
    if t - c > COMM_TIMEOUT {
      SafeStays(s1, ps[1..]);
    } else {
      assert s1 == s;
      hide Step;
      FailsafeDue(s, c, t, ps[1..], g);
    }
  }

  /** The pauses first. */
  lemma {:induction false} SilenceFails(s: Rx, e: int, last: int, ps: seq<Poll>, g: nat, dl: int)
    requires Sound(s) && Aged(s, e, last, g) && Spaced(last, ps, g) && PAUSE + 3 * g < WRAP && COMM_TIMEOUT + g < WRAP
    requires AllEmpty(ps) && ReadyBy(s, e, last, dl, g) && s.comm != NoComm && last <= dl + g
    requires ps != [] && ps[|ps| - 1].t > dl + 2 * g + COMM_TIMEOUT
    ensures Run(s, ps).0.out == Safe(s.out) && Run(s, ps).0.comm == CommLost
    decreases |ps|
  {
    if s.state == Reading && s.idx == 0 {
      WaitingFails(s, last, ps, g);
    } else {
      var t := ps[0].t;
      var e' := SilentStep(s, e, last, t, g, dl);
      var (s1, f) := Step(s, ps[0]);
      assert s1.out == s.out && s1.comm == s.comm;
      assert t <= dl;
      hide Step, ReadyBy, Aged, Sound;
      SilenceFails(s1, e', t, ps[1..], g, dl);
    }
  }

  /** When bytes stop coming: after any run from a reset whatsoever, with calls at most g
      ticks apart, silence for both pauses and 1.5 s leads to the failsafe setting, if a
      command was ever obeyed, and otherwise changes no output. */
  lemma FailsafeComes(s: Rx, start: int, past: seq<Poll>, silence: seq<Poll>, g: nat)
    requires Reset(s) && Ms(50) + 3 * g < WRAP && Ms(1500) + g < WRAP && Spaced(start, past, g)
    requires var last := if past == [] then start else past[|past| - 1].t;
             && Spaced(last, silence, g) && AllEmpty(silence)
             && silence != [] && silence[|silence| - 1].t > last + 2 * (Ms(50) + 2 * g) + Ms(1500)
    ensures var s1 := Run(s, past).0;
            var s2 := Run(s1, silence).0;
            if s1.comm == NoComm then s2.out == s1.out
            else s2.out == s1.out.(intake := 64, exhaust := 64, bypass := false) && s2.comm == CommLost
  {
    hide Run, Aged, ReadyBy;
    var last := if past == [] then start else past[|past| - 1].t;
    var s1 := Run(s, past).0;
    var e := AgedPast(s, start, past, g);
    if s1.comm == NoComm {
      NoneStays(s1, silence);
    } else {
      SilenceFails(s1, e, last, silence, g, last + 2 * (PAUSE + g));
    }
  }
}
