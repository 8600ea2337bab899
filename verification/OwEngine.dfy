/** The AVR node's 1-Wire bit engine: a state machine run by the timer interrupt. Every
    interrupt and every command is one atomic step; the line level comes from outside.
  */
module OwEngine {

  const DATA_BITS := 96

  /** The twelve bytes of the transfer buffer as bits, byte 0 and bit 0 first. */
  type Bits = d: seq<bool> | |d| == DATA_BITS witness seq(DATA_BITS, _ => false)

  datatype OwState = Idle | WaitResetPulseFinished | WaitPresence | WaitPresenceCleared | ReadBits | WriteBits
  datatype BitIo = FinishedOk | FinishedError | WaitSampleEvent | WaitSlotEnd
  datatype Power = NoPower | PowerRequested | KeepAfterWrite
  datatype Bus = Released | Pulled | Strong
  datatype Response =
    | Busy | RspError | BusFailure0 | BusFailure1 | BusFailure3 | NoPresence | PresenceOk
    | ReadBitsOk | ReadBitsFailure | WriteBitsOk | WriteBitsFailure

  datatype Engine = Engine(st: OwState, power: Power, io: BitIo, idx: nat, count: nat, data: Bits, bus: Bus,
    rsp: Response)

  // ---------- commands ----------

  function Init(e: Engine, lineActive: bool): Engine {
    if e.st != Idle then e.(rsp := RspError)
    else if lineActive then e.(rsp := BusFailure0, bus := Released)
    else e.(rsp := Busy, bus := Pulled, st := WaitResetPulseFinished)
  }

  function StartRead(e: Engine, count: nat): Engine {
    if e.st != Idle then e.(rsp := RspError)
    else StartReadBit(e.(rsp := Busy, count := count, idx := 0, st := ReadBits))
  }

  function StartWrite(e: Engine, count: nat, strong: bool): Engine {
    if e.st != Idle then e.(rsp := RspError)
    else StartWriteBit(e.(rsp := Busy, count := count, idx := 0, st := WriteBits,
                          power := if strong then PowerRequested else NoPower))
  }

  // ---------- bits ----------

  function ReleaseAfterWrite(e: Engine): Engine {
    if e.power == KeepAfterWrite then e.(bus := Strong, power := NoPower) else e.(bus := Released)
  }

  function StartWriteBit(e: Engine): Engine {
    if e.idx < DATA_BITS && e.data[e.idx] then ReleaseAfterWrite(e).(io := WaitSlotEnd)
    else e.(bus := Pulled, io := WaitSampleEvent)
  }

  function StartReadBit(e: Engine): Engine { e.(bus := Released, io := WaitSampleEvent) }

  function WriteTick(e: Engine): Engine {
    match e.io
    case WaitSampleEvent => ReleaseAfterWrite(e).(io := WaitSlotEnd)
    case WaitSlotEnd =>
      var n := e.(io := FinishedOk, idx := e.idx + 1);
      if n.idx >= n.count then n.(rsp := WriteBitsOk, st := Idle)
      else
        StartWriteBit(if n.power == PowerRequested && n.idx == n.count - 1 then n.(power := KeepAfterWrite) else n)
    case _ => e.(io := FinishedError, rsp := WriteBitsFailure, bus := Released, st := Idle)
  }

  function ReadTick(e: Engine, lineActive: bool): Engine {
    match e.io
    case WaitSampleEvent =>
      e.(data := if e.idx < DATA_BITS then e.data[e.idx := !lineActive] else e.data, io := WaitSlotEnd)
    case WaitSlotEnd =>
      var n := e.(io := FinishedOk, idx := e.idx + 1);
      if n.idx >= n.count then n.(rsp := ReadBitsOk, st := Idle) else StartReadBit(n)
    case _ => e.(io := FinishedError, rsp := ReadBitsFailure, bus := Released, st := Idle)
  }

  /** The timer interrupt. */
  function Tick(e: Engine, lineActive: bool): Engine {
    match e.st
    case Idle => e
    case WaitResetPulseFinished =>
      if !lineActive then e.(rsp := BusFailure1, st := Idle, bus := Released)
      else e.(bus := Released, st := WaitPresence)
    case WaitPresence => if lineActive then e.(st := WaitPresenceCleared) else e.(rsp := NoPresence, st := Idle)
    case WaitPresenceCleared => e.(rsp := if !lineActive then PresenceOk else BusFailure3, st := Idle)
    case ReadBits => ReadTick(e, lineActive)
    case WriteBits => WriteTick(e)
  }

  function Ticks(e: Engine, lines: seq<bool>): Engine
    decreases |lines|
  {
    if lines == [] then e else Ticks(Tick(e, lines[0]), lines[1..])
  }

  // ---------- the engine as it runs ----------

  class OwSm {
    var sState: OwState
    var sStrongPowerRequest: Power
    var sBitIoState: BitIo
    var sBitidx: nat
    var gOwBitsCount: nat
    var gOwData: Bits
    var bus: Bus
    var gResponseCode: Response

    ghost function View(): Engine
      reads this
    {
      Engine(sState, sStrongPowerRequest, sBitIoState, sBitidx, gOwBitsCount, gOwData, bus, gResponseCode)
    }

    method OwInit(lineActive: bool)
      modifies this
      ensures View() == Init(old(View()), lineActive)
    {
      if sState != Idle {
        gResponseCode := RspError;
        return;
      }
      if lineActive {
        gResponseCode := BusFailure0;
        bus := Released;
        return;
      }
      gResponseCode := Busy;
      bus := Pulled;
      sState := WaitResetPulseFinished;
    }

    method OwReadBits(count: nat)
      modifies this
      ensures View() == StartRead(old(View()), count)
    {
      if sState != Idle {
        gResponseCode := RspError;
        return;
      }
      gResponseCode := Busy;
      gOwBitsCount, sBitidx := count, 0;
      sState := ReadBits;
      BeginReadBit();
    }

    method OwWriteBits(count: nat, strongPowerReq: bool)
      modifies this
      ensures View() == StartWrite(old(View()), count, strongPowerReq)
    {
      if sState != Idle {
        gResponseCode := RspError;
        return;
      }
      gResponseCode := Busy;
      gOwBitsCount, sBitidx := count, 0;
      sStrongPowerRequest := if strongPowerReq then PowerRequested else NoPower;
      sState := WriteBits;
      BeginWriteBit();
    }

    method BusReleaseAfterWrite()
      modifies this
      ensures View() == ReleaseAfterWrite(old(View()))
    {
      if sStrongPowerRequest == KeepAfterWrite {
        bus := Strong;
        sStrongPowerRequest := NoPower;
      } else {
        bus := Released;
      }
    }

    method BeginWriteBit()
      modifies this
      ensures View() == StartWriteBit(old(View()))
    {
      if sBitidx < DATA_BITS && gOwData[sBitidx] {
        BusReleaseAfterWrite();
        sBitIoState := WaitSlotEnd;
      } else {
        bus := Pulled;
        sBitIoState := WaitSampleEvent;
      }
    }

    method BeginReadBit()
      modifies this
      ensures View() == StartReadBit(old(View()))
    {
      bus := Released;
      sBitIoState := WaitSampleEvent;
    }

    method DoWriteBits()
      requires sState == WriteBits
      modifies this
      ensures View() == WriteTick(old(View()))
    {
      match sBitIoState {
        case WaitSampleEvent =>
          BusReleaseAfterWrite();
          sBitIoState := WaitSlotEnd;
        case WaitSlotEnd =>
          sBitIoState := FinishedOk;
          sBitidx := sBitidx + 1;
          if sBitidx >= gOwBitsCount {
            gResponseCode := WriteBitsOk;
            sState := Idle;
          } else {
            if sStrongPowerRequest == PowerRequested && sBitidx == gOwBitsCount - 1 {
              sStrongPowerRequest := KeepAfterWrite;
            }
            BeginWriteBit();
          }
        case _ =>
          sBitIoState := FinishedError;
          gResponseCode := WriteBitsFailure;
          bus := Released;
          sState := Idle;
      }
    }

    method DoReadBits(lineActive: bool)
      requires sState == ReadBits
      modifies this
      ensures View() == ReadTick(old(View()), lineActive)
    {
      match sBitIoState {
        case WaitSampleEvent =>
          if sBitidx < DATA_BITS {
            gOwData := gOwData[sBitidx := !lineActive];
          }
          sBitIoState := WaitSlotEnd;
        case WaitSlotEnd =>
          sBitIoState := FinishedOk;
          sBitidx := sBitidx + 1;
          if sBitidx >= gOwBitsCount {
            gResponseCode := ReadBitsOk;
            sState := Idle;
          } else {
            BeginReadBit();
          }
        case _ =>
          sBitIoState := FinishedError;
          gResponseCode := ReadBitsFailure;
          bus := Released;
          sState := Idle;
      }
    }

    method OwSmDo(lineActive: bool)
      modifies this
      ensures View() == Tick(old(View()), lineActive)
    {
      match sState {
        case Idle =>
        case WaitResetPulseFinished =>
          if !lineActive {
            gResponseCode := BusFailure1;
            sState := Idle;
            bus := Released;
          } else {
            bus := Released;
            sState := WaitPresence;
          }
        case WaitPresence =>
          if lineActive {
            sState := WaitPresenceCleared;
          } else {
            gResponseCode := NoPresence;
            sState := Idle;
          }
        case WaitPresenceCleared =>
          gResponseCode := if !lineActive then PresenceOk else BusFailure3;
          sState := Idle;
        case ReadBits => DoReadBits(lineActive);
        case WriteBits => DoWriteBits();
      }
    }
  }

  // ---------- a reset ----------

  /** A command to a busy engine changes nothing but the response. */
  lemma BusyRefuses(e: Engine, line: bool, count: nat, strong: bool)
    requires e.st != Idle
    ensures Init(e, line) == StartRead(e, count) == StartWrite(e, count, strong) == e.(rsp := RspError)
  {
  }

  /** How a reset ends, from the levels before it and at its three interrupts: the bus must be
      free before, low at the end of the pulse, low for the presence and free after it. */
  lemma ResetOutcome(e: Engine, before: bool, pulse: bool, presence: bool, after: bool)
    requires e.st == Idle
    ensures var e' := Ticks(Init(e, before), [pulse, presence, after]);
            && e'.st == Idle && e'.bus == Released && e'.data == e.data && e'.power == e.power
            && e'.rsp == (if before then BusFailure0 else if !pulse then BusFailure1
                          else if !presence then NoPresence else if after then BusFailure3 else PresenceOk)
    ensures !before ==> Init(e, before).bus == Pulled && Tick(Init(e, before), pulse).bus == Released
  {
    var a := Init(e, before);
    var b := Tick(a, pulse);
    var c := Tick(b, presence);
    assert [pulse, presence, after][1..] == [presence, after] && [presence, after][1..] == [after]
      && [after][1..] == [];
    assert Ticks(a, [pulse, presence, after]) == Ticks(b, [presence, after]) == Ticks(c, [after]) == Tick(c, after);
  }

  // ---------- a write ----------

  /** Inside a write of n bits: where the strong pull-up request and the bus stand. */
  ghost predicate Writing(e: Engine, n: nat, strong: bool) {
    && e.st == WriteBits && e.rsp == Busy && e.count == n <= DATA_BITS && e.idx < n
    && e.io == (if e.bus == Pulled then WaitSampleEvent else WaitSlotEnd)
    && (e.bus == Pulled ==> !e.data[e.idx])
    && (if strong && n >= 2 then
          if e.idx < n - 1 then e.power == PowerRequested && e.bus != Strong
          else if e.bus == Pulled then e.power == KeepAfterWrite
          else e.bus == Strong && e.power == NoPower
        else e.bus != Strong && e.power == (if strong then PowerRequested else NoPower))
  }

  /** The write of n bits is done; the strong pull-up is on exactly if it was asked for and
      there was more than one bit. */
  ghost predicate Written(e: Engine, n: nat, strong: bool) {
    e.st == Idle && e.rsp == WriteBitsOk && e.idx == n && (e.bus == Strong <==> strong && n >= 2)
  }

  /** Interrupts left until a write is done: one for a one, two for a zero. */
  ghost function WriteLeft(e: Engine): nat {
    if e.idx < e.count then 2 * (e.count - e.idx) - (if e.io == WaitSlotEnd then 1 else 0) else 0
  }

  lemma StartWriteWrites(e: Engine, n: nat, strong: bool)
    requires e.st == Idle && 0 < n <= DATA_BITS
    ensures Writing(StartWrite(e, n, strong), n, strong) && StartWrite(e, n, strong).data == e.data
    ensures WriteLeft(StartWrite(e, n, strong)) <= 2 * n
  {
  }

  /** No interrupt makes a write fail, drives the bus strongly before the last bit is out,
      or changes the data; each brings it nearer to its end. */
  lemma WriteTickKeeps(e: Engine, n: nat, strong: bool, line: bool)
    requires Writing(e, n, strong)
    ensures var e' := Tick(e, line);
            && e'.data == e.data && (Writing(e', n, strong) || Written(e', n, strong))
            && (Writing(e', n, strong) ==> WriteLeft(e') < WriteLeft(e))
            && (e'.bus == Strong ==> strong && n >= 2 && (e.idx == n - 1 || (e.idx == n - 2 && e.data[n - 1])))
  {
  }

  lemma {:induction false} IdleStays(e: Engine, lines: seq<bool>)
    requires e.st == Idle
    ensures Ticks(e, lines) == e
    decreases |lines|
  {
    if lines != [] {
      IdleStays(e, lines[1..]);
    }
  }

  lemma {:induction false} WriteEnds(e: Engine, n: nat, strong: bool, lines: seq<bool>)
    requires Writing(e, n, strong) && |lines| >= WriteLeft(e)
    ensures Written(Ticks(e, lines), n, strong) && Ticks(e, lines).data == e.data
    decreases |lines|
  {
    WriteTickKeeps(e, n, strong, lines[0]);
    var e' := Tick(e, lines[0]);
    if Writing(e', n, strong) {
      WriteEnds(e', n, strong, lines[1..]);
    } else {
      IdleStays(e', lines[1..]);
    }
  }

  /** A write always completes, within two interrupts to the bit, whatever the line does;
      then the strong pull-up is on exactly if asked for, with more than one bit. */
  lemma WriteCompletes(e: Engine, n: nat, strong: bool, lines: seq<bool>)
    requires e.st == Idle && 0 < n <= DATA_BITS && |lines| >= 2 * n
    ensures var e' := Ticks(StartWrite(e, n, strong), lines);
            Written(e', n, strong) && e'.data == e.data
  {
    StartWriteWrites(e, n, strong);
    WriteEnds(StartWrite(e, n, strong), n, strong, lines);
  }

  // ---------- a read ----------

  ghost predicate Reading(e: Engine, n: nat) {
    && e.st == ReadBits && e.rsp == Busy && e.count == n <= DATA_BITS && e.idx < n
    && (e.io == WaitSampleEvent || e.io == WaitSlotEnd) && e.bus == Released
  }

  lemma ReadTickKeeps(e: Engine, n: nat, line: bool)
    requires Reading(e, n)
    ensures var e' := Tick(e, line);
            && (Reading(e', n) || (e'.st == Idle && e'.rsp == ReadBitsOk && e'.bus == Released))
            && (Reading(e', n) <==> !(e.io == WaitSlotEnd && e.idx == n - 1))
  {
  }

  /** A read of n bits always completes, after two interrupts to the bit, and bit k is what
      the line showed at the sampling interrupt of bit k. */
  lemma {:induction false} ReadCollects(e: Engine, n: nat, lines: seq<bool>, k: nat)
    requires Reading(e, n) && e.io == WaitSampleEvent && |lines| == 2 * (n - e.idx) && k < n
    ensures var e' := Ticks(e, lines);
            && e'.st == Idle && e'.rsp == ReadBitsOk
            && e'.data[k] == if k < e.idx then e.data[k] else !lines[2 * (k - e.idx)]
    decreases |lines|
  {
    var e1 := Tick(e, lines[0]);
    var e2 := Tick(e1, lines[1]);
    assert lines[1..][0] == lines[1] && lines[1..][1..] == lines[2..];
    assert Ticks(e, lines) == Ticks(e1, lines[1..]) == Ticks(e2, lines[2..]);
    if e.idx + 1 < n {
      ReadCollects(e2, n, lines[2..], k);
    }
  }
}
