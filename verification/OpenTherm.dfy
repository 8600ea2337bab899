/** The PRU's polled OpenTherm modem: bi-phase transmitter and receiver
    (OpenTherm Protocol Specification 2.2, sections 3 and 4). Time and line level come
    from outside; every poll is one atomic step.
  */
module OpenTherm {
  import opened PruTimer

  const ERROR_GAP := Us(50000)
  const ERROR_FRAME_TIMEOUT := Us(150000)
  const GAP := Us(10000)
  const RESPONSE_TIMEOUT := Us(800000)
  const BIT := Us(1000)
  const HALF_BIT := Us(500)
  const CAPTURE_MIN := BIT - Us(100)
  const CAPTURE_MAX := BIT + Us(150)

  /** The bits of a 32-bit word, bit 0 first. */
  type Word = w: seq<bool> | |w| == 32 witness seq(32, _ => false)

  function Zero(): (w: Word)
    ensures forall j :: 0 <= j < 32 ==> !w[j]
  {
    seq(32, _ => false)
  }

  datatype OtState = Idle | WriteFrame | FrameWaitGap | WaitFrame | ReadBits | FrameErrorWaitGap

  datatype Msg = RspError | NoResponse | FrameError(length: Tick) | BusError | FrameOk(value: Word)

  /** The static variables of the machine. */
  datatype Ot = Ot(st: OtState, prevV: bool, t0: Tick, t0Frame: Tick, bitIdx: int, value: Word)

  /** What one poll does outside: a new line level, if any, and messages to the host. */
  datatype Output = Output(drive: seq<bool>, msgs: seq<Msg>)

  const QUIET := Output([], [])

  /** The level in the first half of bit j: start and stop bits are ones. */
  function Level(w: Word, j: int): bool { if 0 <= j < 32 then w[j] else true }

  // ---------- one step, as a function ----------

  function Transmit(s: Ot, now: Tick, data: Word): (Ot, Output) {
    if s.st != Idle then (s, Output([], [RspError]))
    else (s.(st := WriteFrame, value := data, t0 := now, bitIdx := 32), QUIET)
  }

  function PollWrite(s: Ot, now: Tick): (Ot, Output) {
    var cur := Level(s.value, s.bitIdx);
    if Elapsed(now, s.t0) > BIT then
      (s.(t0 := now, bitIdx := s.bitIdx - 1, st := if s.bitIdx - 1 < -1 then FrameWaitGap else WriteFrame),
       Output([!cur], []))
    else if Elapsed(now, s.t0) > HALF_BIT then (s, Output([cur], []))
    else (s, QUIET)
  }

  function PollWait(s: Ot, now: Tick, line: bool): (Ot, Output) {
    if line then
      (s.(t0 := (now - HALF_BIT) % WRAP, t0Frame := now, bitIdx := 32, prevV := true, value := Zero(),
        st := ReadBits), QUIET)
    else if Elapsed(now, s.t0) > RESPONSE_TIMEOUT then (s.(st := Idle), Output([], [NoResponse]))
    else (s, QUIET)
  }

  function Captured(s: Ot, now: Tick): Ot {
    s.(t0 := now, bitIdx := s.bitIdx - 1, prevV := !s.prevV)
  }

  /** An edge late enough to be the middle of a bit. */
  function Capture(s: Ot, now: Tick): (Ot, Output) {
    if s.bitIdx == -1 || s.bitIdx == 32 then
      if !s.prevV then (Captured(s, now).(st := FrameErrorWaitGap), QUIET)
      else if s.bitIdx == -1 then (Captured(s, now).(st := Idle), Output([], [FrameOk(s.value)]))
      else (Captured(s, now), QUIET)
    else if 0 <= s.bitIdx < 32 && s.prevV then (Captured(s, now).(value := s.value[s.bitIdx := true]), QUIET)
    else (Captured(s, now), QUIET)
  }

  function PollRead(s: Ot, now: Tick, line: bool): (Ot, Output) {
    if s.prevV != line then
      if Elapsed(now, s.t0) > CAPTURE_MIN then Capture(s, now) else (s.(prevV := !s.prevV), QUIET)
    else if Elapsed(now, s.t0) > CAPTURE_MAX then (s.(st := FrameErrorWaitGap), QUIET)
    else (s, QUIET)
  }

  function PollError(s: Ot, now: Tick, line: bool): (Ot, Output) {
    if s.prevV != line then (s.(t0 := now, prevV := !s.prevV), QUIET)
    else if !line && Elapsed(now, s.t0) > ERROR_GAP then
      (s.(st := Idle), Output([], [FrameError(Elapsed(s.t0, s.t0Frame))]))
    else if Elapsed(now, s.t0Frame) > ERROR_FRAME_TIMEOUT then (s.(st := Idle), Output([], [BusError]))
    else (s, QUIET)
  }

  function Poll(s: Ot, now: Tick, line: bool): (Ot, Output) {
    match s.st
    case Idle => (s, QUIET)
    case WriteFrame => PollWrite(s, now)
    case FrameWaitGap => (if Elapsed(now, s.t0) > GAP then s.(st := WaitFrame) else s, QUIET)
    case WaitFrame => PollWait(s, now, line)
    case ReadBits => PollRead(s, now, line)
    case FrameErrorWaitGap => PollError(s, now, line)
  }

  // ---------- the machine as it runs ----------

  class OtModem {
    var sState: OtState
    var sPrevV: bool
    var sT0: Tick
    var sT0Frame: Tick
    var sBitidx: int
    var sValue: Word

    ghost function View(): Ot
      reads this
    {
      Ot(sState, sPrevV, sT0, sT0Frame, sBitidx, sValue)
    }

    method OtTransmit(now: Tick, data: Word) returns (out: Output)
      modifies this
      ensures (View(), out) == Transmit(old(View()), now, data)
    {
      if sState != Idle {
        return Output([], [RspError]);
      }
      sState, sValue, sT0, sBitidx := WriteFrame, data, now, 32;
      out := QUIET;
    }

    method OtSmDo(now: Tick, line: bool) returns (out: Output)
      modifies this
      ensures (View(), out) == Poll(old(View()), now, line)
    {
      out := QUIET;
      match sState {
        case Idle =>
        case WriteFrame =>
          var cur := if 0 <= sBitidx < 32 then sValue[sBitidx] else true;
          if Elapsed(now, sT0) > BIT {
            out := Output([!cur], []);
            sT0 := now;
            sBitidx := sBitidx - 1;
            if sBitidx < -1 {
              sState := FrameWaitGap;
            }
          } else if Elapsed(now, sT0) > HALF_BIT {
            out := Output([cur], []);
          }
        case WaitFrame =>
          if line {
            sT0 := now;
            sT0Frame := sT0;
            sBitidx := 32;
            sT0 := (sT0 - HALF_BIT) % WRAP;
            sPrevV := true;
            sValue := Zero();
            sState := ReadBits;
          } else if Elapsed(now, sT0) > RESPONSE_TIMEOUT {
            out := Output([], [NoResponse]);
            sState := Idle;
          }
        case ReadBits =>
          out := ReadLine(now, line);
        case FrameErrorWaitGap =>
          if sPrevV != line {
            sT0 := now;
            sPrevV := !sPrevV;
          } else if !line && Elapsed(now, sT0) > ERROR_GAP {
            out := Output([], [FrameError(Elapsed(sT0, sT0Frame))]);
            sState := Idle;
          } else if Elapsed(now, sT0Frame) > ERROR_FRAME_TIMEOUT {
            out := Output([], [BusError]);
            sState := Idle;
          }
        case FrameWaitGap =>
          if Elapsed(now, sT0) > GAP {
            sState := WaitFrame;
          }
      }
    }

    method ReadLine(now: Tick, line: bool) returns (out: Output)
      requires sState == ReadBits
      modifies this
      ensures (View(), out) == PollRead(old(View()), now, line)
    {
      out := QUIET;
      if sPrevV != line {
        if Elapsed(now, sT0) > CAPTURE_MIN {
          sT0 := now;
          if sBitidx == -1 || sBitidx == 32 {
            if !sPrevV {
              sState := FrameErrorWaitGap;
            } else if sBitidx == -1 {
              out := Output([], [FrameOk(sValue)]);
              sState := Idle;
            }
          } else if 0 <= sBitidx < 32 {
            if sPrevV {
              sValue := sValue[sBitidx := true];
            }
          }
          sBitidx := sBitidx - 1;
        }
        sPrevV := !sPrevV;
      } else if Elapsed(now, sT0) > CAPTURE_MAX {
        sState := FrameErrorWaitGap;
      }
    }
  }

  // ---------- a transmitter and a receiver on one line ----------

  /** Two modems, their timers running with different offsets; the line carries what
      the transmitter last set. Times are true times. */
  datatype Link = Link(tx: Ot, rx: Ot, line: bool, lastTx: int, lastRx: int, received: seq<Msg>)

  datatype Event = TxPoll(t: int) | RxPoll(t: int)

  /** No modem is left unpolled for longer than its gap. */
  ghost predicate Timely(k: Link, e: Event, gapTx: nat, gapRx: nat) {
    k.lastTx <= e.t <= k.lastTx + gapTx && k.lastRx <= e.t <= k.lastRx + gapRx
  }

  function Next(k: Link, e: Event, offTx: int, offRx: int): Link {
    match e
    case TxPoll(t) =>
      var (tx, out) := Poll(k.tx, At(t, offTx), k.line);
      k.(tx := tx, line := if out.drive == [] then k.line else out.drive[0], lastTx := t)
    case RxPoll(t) =>
      var (rx, out) := Poll(k.rx, At(t, offRx), k.line);
      k.(rx := rx, lastRx := t, received := k.received + out.msgs)
  }

  /** The receiver has seen nothing of the frame yet. */
  ghost predicate Unseen(k: Link, w: Word, m: int, h: int, waitSince: int, gapTx: nat, gapRx: nat, offRx: int) {
    && k.rx.st == WaitFrame
    && k.rx.t0 == At(waitSince, offRx)
    && k.tx.bitIdx == 32 && k.tx.st == WriteFrame
    && (k.lastTx - m > HALF_BIT ==> k.lastRx <= h)
    && k.received == []
  }

  /** The receiver has captured every middle edge so far. */
  ghost predicate CaughtUp(k: Link, w: Word, m: int, h: int, base: int, gapTx: nat, gapRx: nat, offRx: int) {
    && k.rx.st == ReadBits && k.rx.t0 == At(base, offRx)
    && k.tx.st == WriteFrame && k.rx.bitIdx == k.tx.bitIdx
    && m <= base <= m + gapTx + gapRx && base <= k.lastRx
    && (k.rx.prevV == k.line || (k.lastTx - m > HALF_BIT && k.lastRx <= h))
    && k.received == []
  }

  /** The receiver has yet to notice the middle edge set at m. */
  ghost predicate Behind(k: Link, w: Word, m: int, base: int, gapTx: nat, gapRx: nat, offRx: int) {
    && k.rx.st == ReadBits && k.rx.t0 == At(base, offRx)
    && k.rx.bitIdx == k.tx.bitIdx + 1 && k.tx.bitIdx < 32
    && m - BIT - gapTx <= base < m - BIT + gapTx + gapRx
    && k.lastRx <= m
    && k.rx.prevV == Level(w, k.rx.bitIdx) && k.line == !k.rx.prevV
    && k.lastTx - m <= HALF_BIT
    && k.received == []
  }

  /** The bits captured so far are those of the word. */
  ghost predicate BitsMatch(v: Word, w: Word, i: int) {
    forall j :: 0 <= j < 32 ==> v[j] == (j > i && w[j])
  }

  /** The longest time n bit cells can take. */
  function Cells(n: nat, cell: nat): nat { if n == 0 then 0 else cell + Cells(n - 1, cell) }

  /** m is when the transmitter's current bit cell began, h when it passed its half. */
  ghost predicate Sending(k: Link, w: Word, start: int, m: int, h: int, gapTx: nat, offTx: int) {
    && k.tx.value == w && k.tx.t0 == At(m, offTx)
    && -2 <= k.tx.bitIdx <= 32
    && k.tx.st == (if k.tx.bitIdx >= -1 then WriteFrame else FrameWaitGap)
    && m <= start + Cells(32 - k.tx.bitIdx, BIT + gapTx)
    && start <= m <= k.lastTx && (k.tx.bitIdx == 32 ==> m == start)
    && (k.tx.st == WriteFrame ==>
          && k.lastTx <= m + BIT
          && k.line == (if k.lastTx - m > HALF_BIT then Level(w, k.tx.bitIdx)
                        else k.tx.bitIdx != 32 && !Level(w, k.tx.bitIdx + 1))
          && (k.lastTx - m > HALF_BIT ==> m + HALF_BIT < h <= m + HALF_BIT + gapTx && h <= k.lastTx))
  }

  ghost predicate Delivered(k: Link, w: Word) { k.rx.st == Idle && k.received == [FrameOk(w)] }

  /** The whole relation between the two modems while a frame crosses. */
  ghost predicate InStep(k: Link, w: Word, start: int, waitSince: int, m: int, h: int, base: int,
                         gapTx: nat, gapRx: nat, offTx: int, offRx: int) {
    && Sending(k, w, start, m, h, gapTx, offTx)
    && (Unseen(k, w, m, h, waitSince, gapTx, gapRx, offRx)
        || ((CaughtUp(k, w, m, h, base, gapTx, gapRx, offRx) || Behind(k, w, m, base, gapTx, gapRx, offRx))
            && BitsMatch(k.rx.value, w, k.rx.bitIdx)))
  }

  lemma TxKeeps(k: Link, w: Word, start: int, waitSince: int, m: int, h: int, base: int,
                gapTx: nat, gapRx: nat, offTx: int, offRx: int, t: int) returns (m': int, h': int)
    requires gapTx + gapRx <= Us(100)
    requires InStep(k, w, start, waitSince, m, h, base, gapTx, gapRx, offTx, offRx)
    requires Timely(k, TxPoll(t), gapTx, gapRx)
    ensures InStep(Next(k, TxPoll(t), offTx, offRx), w, start, waitSince, m', h', base, gapTx, gapRx, offTx, offRx)
  {
    ElapsedIsDuration(t, m, offTx);
    hide Elapsed, At;
    var k' := Next(k, TxPoll(t), offTx, offRx);
    m', h' := m, h;
    if k.tx.st == WriteFrame {
      if t - m > BIT {
        m' := t;
      } else if t - m > HALF_BIT && k.lastTx - m <= HALF_BIT {
        h' := t;
      }
    }
  }

  lemma RxKeeps(k: Link, w: Word, start: int, waitSince: int, m: int, h: int, base: int,
                gapTx: nat, gapRx: nat, offTx: int, offRx: int, t: int) returns (base': int)
    requires gapTx + gapRx <= Us(100)
    requires InStep(k, w, start, waitSince, m, h, base, gapTx, gapRx, offTx, offRx)
    requires Timely(k, RxPoll(t), gapTx, gapRx)
    requires waitSince <= start && start + Us(600) <= waitSince + RESPONSE_TIMEOUT
    ensures var k' := Next(k, RxPoll(t), offTx, offRx);
            Delivered(k', w) || InStep(k', w, start, waitSince, m, h, base', gapTx, gapRx, offTx, offRx)
  {
    var k' := Next(k, RxPoll(t), offTx, offRx);
    if Unseen(k, w, m, h, waitSince, gapTx, gapRx, offRx) {
      base' := UnseenPoll(k, w, start, waitSince, m, h, gapTx, gapRx, offTx, offRx, t);
    } else if CaughtUp(k, w, m, h, base, gapTx, gapRx, offRx) {
      base' := base;
      CaughtUpPoll(k, w, start, m, h, base, gapTx, gapRx, offTx, offRx, t);
    } else {
      base' := t;
      BehindPoll(k, w, start, m, h, base, gapTx, gapRx, offTx, offRx, t);
    }
  }

  lemma UnseenPoll(k: Link, w: Word, start: int, waitSince: int, m: int, h: int,
                   gapTx: nat, gapRx: nat, offTx: int, offRx: int, t: int) returns (base': int)
    requires gapTx + gapRx <= Us(100)
    requires Sending(k, w, start, m, h, gapTx, offTx)
    requires Unseen(k, w, m, h, waitSince, gapTx, gapRx, offRx)
    requires Timely(k, RxPoll(t), gapTx, gapRx)
    requires waitSince <= start == m && start + Us(600) <= waitSince + RESPONSE_TIMEOUT
    ensures InStep(Next(k, RxPoll(t), offTx, offRx), w, start, waitSince, m, h, base', gapTx, gapRx, offTx, offRx)
  {
    ElapsedIsDuration(t, waitSince, offRx);
    AtMinus(t, offRx, HALF_BIT);
    hide Elapsed, At;
    base' := t - HALF_BIT;
    var k' := Next(k, RxPoll(t), offTx, offRx);
    if k.line {
      assert CaughtUp(k', w, m, h, base', gapTx, gapRx, offRx);
    } else {
      assert Unseen(k', w, m, h, waitSince, gapTx, gapRx, offRx);
    }
  }

  lemma CaughtUpPoll(k: Link, w: Word, start: int, m: int, h: int, base: int,
                     gapTx: nat, gapRx: nat, offTx: int, offRx: int, t: int)
    requires gapTx + gapRx <= Us(100)
    requires Sending(k, w, start, m, h, gapTx, offTx)
    requires CaughtUp(k, w, m, h, base, gapTx, gapRx, offRx)
    requires Timely(k, RxPoll(t), gapTx, gapRx)
    ensures var k' := Next(k, RxPoll(t), offTx, offRx);
            && Sending(k', w, start, m, h, gapTx, offTx)
            && CaughtUp(k', w, m, h, base, gapTx, gapRx, offRx)
            && k'.rx.value == k.rx.value && k'.rx.bitIdx == k.rx.bitIdx
  {
    ElapsedIsDuration(t, base, offRx);
    hide Elapsed, At;
  }

  lemma BehindPoll(k: Link, w: Word, start: int, m: int, h: int, base: int,
                   gapTx: nat, gapRx: nat, offTx: int, offRx: int, t: int)
    requires gapTx + gapRx <= Us(100)
    requires Sending(k, w, start, m, h, gapTx, offTx)
    requires Behind(k, w, m, base, gapTx, gapRx, offRx)
    requires BitsMatch(k.rx.value, w, k.rx.bitIdx)
    requires Timely(k, RxPoll(t), gapTx, gapRx)
    ensures var k' := Next(k, RxPoll(t), offTx, offRx);
            || Delivered(k', w)
            || (Sending(k', w, start, m, h, gapTx, offTx) && CaughtUp(k', w, m, h, t, gapTx, gapRx, offRx)
                && BitsMatch(k'.rx.value, w, k'.rx.bitIdx))
  {
    ElapsedIsDuration(t, base, offRx);
    hide Elapsed, At;
    var k' := Next(k, RxPoll(t), offTx, offRx);
    assert [] + k'.received[|k.received|..] == k'.received;
    if k.rx.bitIdx == -1 {
      assert k.rx.value == w;
    }
  }

  function Run(k: Link, es: seq<Event>, offTx: int, offRx: int): Link
    decreases |es|
  {
    if es == [] then k else Run(Next(k, es[0], offTx, offRx), es[1..], offTx, offRx)
  }

  ghost predicate TimelyRun(k: Link, es: seq<Event>, gapTx: nat, gapRx: nat, offTx: int, offRx: int)
    decreases |es|
  {
    es == [] || (Timely(k, es[0], gapTx, gapRx)
      && TimelyRun(Next(k, es[0], offTx, offRx), es[1..], gapTx, gapRx, offTx, offRx))
  }

  lemma {:induction false} CellsGrow(n: nat, n': nat, cell: nat)
    requires n <= n'
    ensures Cells(n, cell) <= Cells(n', cell)
  {
    if n < n' {
      CellsGrow(n, n' - 1, cell);
    }
  }

  /** While the frame is still crossing, its time is not up. */
  lemma NotYetLate(k: Link, e: Event, w: Word, start: int, waitSince: int, m: int, h: int, base: int,
                   gapTx: nat, gapRx: nat, offTx: int, offRx: int)
    requires InStep(k, w, start, waitSince, m, h, base, gapTx, gapRx, offTx, offRx)
    requires Timely(k, e, gapTx, gapRx)
    ensures e.t <= start + Cells(34, BIT + gapTx) + gapRx
  {
    hide At;
    var cell := BIT + gapTx;
    assert Cells(34, cell) == cell + Cells(33, cell);
    CellsGrow(32 - k.tx.bitIdx, if k.tx.st == WriteFrame then 33 else 34, cell);
    hide Cells;
  }

  lemma {:induction false} DeliveredStays(k: Link, es: seq<Event>, w: Word, offTx: int, offRx: int)
    requires Delivered(k, w)
    ensures Delivered(Run(k, es, offTx, offRx), w)
    decreases |es|
  {
    if es != [] {
      var k' := Next(k, es[0], offTx, offRx);
      assert k.received + [] == k.received;
      DeliveredStays(k', es[1..], w, offTx, offRx);
    }
  }

  lemma {:induction false} Crosses(k: Link, es: seq<Event>, w: Word, start: int, waitSince: int, m: int, h: int,
                                   base: int, gapTx: nat, gapRx: nat, offTx: int, offRx: int)
    requires gapTx + gapRx <= Us(100)
    requires waitSince <= start && start + Us(600) <= waitSince + RESPONSE_TIMEOUT
    requires InStep(k, w, start, waitSince, m, h, base, gapTx, gapRx, offTx, offRx)
    requires TimelyRun(k, es, gapTx, gapRx, offTx, offRx)
    ensures var k' := Run(k, es, offTx, offRx);
            && (Delivered(k', w) || k'.received == [])
            && (es != [] && es[|es| - 1].t > start + Cells(34, BIT + gapTx) + gapRx ==> Delivered(k', w))
    decreases |es|
  {
    if es != [] {
      var e, k1 := es[0], Next(k, es[0], offTx, offRx);
      NotYetLate(k, e, w, start, waitSince, m, h, base, gapTx, gapRx, offTx, offRx);
      var m', h', base' := m, h, base;
      match e {
        case TxPoll(t) => m', h' := TxKeeps(k, w, start, waitSince, m, h, base, gapTx, gapRx, offTx, offRx, t);
        case RxPoll(t) => base' := RxKeeps(k, w, start, waitSince, m, h, base, gapTx, gapRx, offTx, offRx, t);
      }
      hide Next, InStep, At;
      if Delivered(k1, w) {
        DeliveredStays(k1, es[1..], w, offTx, offRx);
      } else {
        Crosses(k1, es[1..], w, start, waitSince, m', h', base', gapTx, gapRx, offTx, offRx);
      }
    }
  }

  /** Round trip. A word handed to an idle modem reaches a modem that waits for a frame,
      whatever the two timers show (so also across their wrap) and however the polls fall,
      as long as the two longest gaps between polls add up to at most 100 us and the frame
      begins before the receiver gives up waiting. At no time is anything else reported. */
  lemma RoundTrip(tx: Ot, rx: Ot, es: seq<Event>, w: Word, start: int, waitSince: int, lastRx: int,
                  gapTx: nat, gapRx: nat, offTx: int, offRx: int)
    requires tx.st == Idle && rx.st == WaitFrame && rx.t0 == At(waitSince, offRx)
    requires waitSince <= start && start + Us(600) <= waitSince + Us(800000)
    requires gapTx + gapRx <= Us(100)
    requires var k := Link(Transmit(tx, At(start, offTx), w).0, rx, false, start, lastRx, []);
             TimelyRun(k, es, gapTx, gapRx, offTx, offRx)
    ensures var k := Link(Transmit(tx, At(start, offTx), w).0, rx, false, start, lastRx, []);
            var k' := Run(k, es, offTx, offRx);
            && (k'.received == [] || k'.received == [FrameOk(w)])
            && (es != [] && es[|es| - 1].t > start + Cells(34, Us(1000) + gapTx) + gapRx
              ==> k'.received == [FrameOk(w)])
  {
    var k := Link(Transmit(tx, At(start, offTx), w).0, rx, false, start, lastRx, []);
    assert InStep(k, w, start, waitSince, start, start, start, gapTx, gapRx, offTx, offRx) by {
      hide At;
    }
    Crosses(k, es, w, start, waitSince, start, start, start, gapTx, gapRx, offTx, offRx);
  }

  // ---------- every request gets one answer ----------

  datatype Call = Send(now: Tick, data: Word) | Polled(now: Tick, line: bool)

  function Step(s: Ot, c: Call): (Ot, Output) {
    match c
    case Send(now, data) => Transmit(s, now, data)
    case Polled(now, line) => Poll(s, now, line)
  }

  /** The final state and all messages of a run. */
  function Calls(s: Ot, cs: seq<Call>): (Ot, seq<Msg>)
    decreases |cs|
  {
    if cs == [] then (s, [])
    else
      var (s1, out) := Step(s, cs[0]);
      var (s2, msgs) := Calls(s1, cs[1..]);
      (s2, out.msgs + msgs)
  }

  /** How many transmit requests of a run were taken up. */
  function Accepted(s: Ot, cs: seq<Call>): nat
    decreases |cs|
  {
    if cs == [] then 0
    else (if cs[0].Send? && s.st == Idle then 1 else 0) + Accepted(Step(s, cs[0]).0, cs[1..])
  }

  function Answers(msgs: seq<Msg>): nat {
    if msgs == [] then 0 else (if msgs[0].RspError? then 0 else 1) + Answers(msgs[1..])
  }

  function Owed(s: Ot): nat { if s.st == Idle then 0 else 1 }

  lemma {:induction false} AnswersAppend(a: seq<Msg>, b: seq<Msg>)
    ensures Answers(a + b) == Answers(a) + Answers(b)
    decreases |a|
  {
    if a == [] {
      assert a + b == b;
    } else {
      AnswersAppend(a[1..], b);
      assert (a + b)[1..] == a[1..] + b;
    }
  }

  lemma StepAnswers(s: Ot, c: Call)
    ensures var (s', out) := Step(s, c);
            Answers(out.msgs) + Owed(s') == Owed(s) + (if c.Send? && s.st == Idle then 1 else 0)
    ensures c.Send? && s.st != Idle ==> Step(s, c) == (s, Output([], [RspError]))
  {
    hide Elapsed;
  }

  /** Conservation, over every run and every bus input: the modem answers each accepted
      request exactly once, and is idle exactly when it owes no answer. */
  lemma {:induction false} EveryRequestAnswered(s: Ot, cs: seq<Call>)
    ensures var (s', msgs) := Calls(s, cs);
            Answers(msgs) + Owed(s') == Owed(s) + Accepted(s, cs)
    decreases |cs|
  {
    if cs != [] {
      StepAnswers(s, cs[0]);
      var (s1, out) := Step(s, cs[0]);
      var (s2, msgs) := Calls(s1, cs[1..]);
      AnswersAppend(out.msgs, msgs);
      hide Step;
      EveryRequestAnswered(s1, cs[1..]);
    }
  }

  // ---------- reading and error recovery end ----------

  datatype Sight = Sight(t: int, line: bool)

  function Polls(s: Ot, ps: seq<Sight>, off: int): (Ot, seq<Msg>)
    decreases |ps|
  {
    if ps == [] then (s, [])
    else
      var (s1, out) := Poll(s, At(ps[0].t, off), ps[0].line);
      var (s2, msgs) := Polls(s1, ps[1..], off);
      (s2, out.msgs + msgs)
  }

  /** Times do not go back and no gap is longer than g. */
  ghost predicate Spaced(last: int, ps: seq<Sight>, g: nat)
    decreases |ps|
  {
    ps == [] || (last <= ps[0].t <= last + g && Spaced(ps[0].t, ps[1..], g))
  }

  /** Whatever the line does, a receiver that began to read has left the reading state
      after at most 34 bit windows, unless a gap between polls wraps the timer. */
  lemma {:induction false} ReadingEnds(s: Ot, ps: seq<Sight>, off: int, base: int, last: int, g: nat)
    requires s.st == ReadBits && -1 <= s.bitIdx <= 32
    requires s.t0 == At(base, off) && base <= last <= base + Us(1150)
    requires Us(1150) + g < WRAP && Spaced(last, ps, g)
    requires ps != [] && ps[|ps| - 1].t > base + Cells(s.bitIdx + 2, Us(1150) + g)
    ensures exists i :: 0 < i <= |ps| && Polls(s, ps[..i], off).0.st != ReadBits
    decreases |ps|
  {
    var t := ps[0].t;
    ElapsedIsDuration(t, base, off);
    var (s1, out) := Poll(s, At(t, off), ps[0].line);
    assert ps[..1][1..] == [] && Polls(s, ps[..1], off).0 == s1;
    if s1.st == ReadBits {
      var base' := if s1.bitIdx == s.bitIdx then base else t;
      hide Elapsed, At;
      if |ps| > 1 {
        assert ps[1..][|ps[1..]| - 1] == ps[|ps| - 1];
        ReadingEnds(s1, ps[1..], off, base', t, g);
        var i :| 0 < i <= |ps[1..]| && Polls(s1, ps[1..][..i], off).0.st != ReadBits;
        assert ps[..i + 1][1..] == ps[1..][..i];
        assert Polls(s, ps[..i + 1], off).0.st != ReadBits;
      }
    }
  }

  /** Some poll sees the level of the poll before it. */
  ghost predicate SeesQuiet(prev: bool, ps: seq<Sight>)
    decreases |ps|
  {
    ps != [] && (ps[0].line == prev || SeesQuiet(ps[0].line, ps[1..]))
  }

  /** Past 150 ms from the start of the frame (and less than one timer wrap) the error
      state is left exactly when some poll sees the line unchanged, with one message. */
  lemma {:induction false} RecoveryEnds(s: Ot, ps: seq<Sight>, off: int, frame: int)
    requires s.st == FrameErrorWaitGap && s.t0Frame == At(frame, off)
    requires forall p :: p in ps ==> frame + Us(150000) < p.t < frame + WRAP
    ensures var (s', msgs) := Polls(s, ps, off);
            if SeesQuiet(s.prevV, ps) then s'.st == Idle && |msgs| == 1 && (msgs[0].FrameError? || msgs[0].BusError?)
            else s'.st == FrameErrorWaitGap && msgs == []
    decreases |ps|
  {
    if ps != [] {
      assert ps[0] in ps;
      ElapsedIsDuration(ps[0].t, frame, off);
      var (s1, out) := Poll(s, At(ps[0].t, off), ps[0].line);
      hide Elapsed, At;
      if s1.st == Idle {
        IdleStays(s1, ps[1..], off);
      } else {
        RecoveryEnds(s1, ps[1..], off, frame);
      }
    }
  }

  lemma {:induction false} IdleStays(s: Ot, ps: seq<Sight>, off: int)
    requires s.st == Idle
    ensures Polls(s, ps, off) == (s, [])
    decreases |ps|
  {
    if ps != [] {
      IdleStays(s, ps[1..], off);
      assert QUIET.msgs + [] == [];
    }
  }

  /** Beyond one wrap of the timer the 150 ms are forgotten: exactly when a poll ends the
      error state, in true times. */
  lemma RecoveryPoll(s: Ot, t: int, line: bool, off: int, frame: int, edge: int)
    requires s.st == FrameErrorWaitGap && s.t0Frame == At(frame, off) && s.t0 == At(edge, off)
    ensures var (s', out) := Poll(s, At(t, off), line);
            var gap, late := !line && (t - edge) % WRAP > Us(50000), (t - frame) % WRAP > Us(150000);
            && (s'.st == Idle <==> line == s.prevV && (gap || late))
            && out == Output([], if s'.st != Idle then []
                                 else if gap then [FrameError((edge - frame) % WRAP)] else [BusError])
            && (s'.st != Idle ==> s' == if line == s.prevV then s else s.(t0 := At(t, off), prevV := line))
  {
    ElapsedModulo(t, frame, off);
    ElapsedModulo(t, edge, off);
    ElapsedModulo(edge, frame, off);
    hide Elapsed, At;
  }
}
