/** The AVR node's temperature measurement on top of the bit engine: convert with strong
    pull-up, then read each sensor's scratchpad and keep its reading in the process image.
    Interrupts of the engine and polls of the measurement interleave freely.
  */
module OwMeasure {
  import opened Wrappers
  import opened Crc8
  import opened OwEngine

  datatype State =
    | Idling | InitingBeforeConvert | RequestingConvert | Converting
    | InitingBeforeRead | MatchingRom | ReadingScratchpad | Relaxing

  /** A 16-bit word of the image, low bit first. */
  type Word = w: seq<bool> | |w| == 16 witness seq(16, _ => false)

  type Rom = r: seq<bool> | |r| == 64 witness seq(64, _ => false)

  const SPAD_BITS := 72

  type Scratchpad = s: seq<bool> | |s| == SPAD_BITS witness seq(SPAD_BITS, _ => false)

  /** What is configured: the ROM code of each sensor and the word for "no reading". */
  datatype Setup = Setup(roms: seq<Rom>, invalid: Word)

  datatype Node = Node(m: State, cur: nat, ow: Engine, image: seq<Word>)

  /** A scratchpad that was read, and for which sensor. */
  datatype Log = Log(sensor: nat, spad: Scratchpad)

  function SpadByte(s: Scratchpad, k: nat): Byte
    requires k < 9
  {
    PackFrom(s[8 * k..8 * k + 8])
  }

  function SpadBytes(s: Scratchpad): (r: seq<Byte>)
    ensures |r| == 9 && forall k :: 0 <= k < 9 ==> r[k] == SpadByte(s, k)
  {
    seq(9, k requires 0 <= k < 9 => SpadByte(s, k))
  }

  predicate CrcOk(s: Scratchpad) { Crc(SpadBytes(s)[..8]) == SpadBytes(s)[8] }

  lemma {:induction false} SpadBits(s: Scratchpad, k: nat)
    requires k <= 9
    ensures BitsOf(SpadBytes(s)[k..]) == s[8 * k..]
    decreases 9 - k
  {
    if k == 9 {
      assert SpadBytes(s)[9..] == [] && s[72..] == [];
    } else {
      SpadBits(s, k + 1);
      PackedLowBits(s[8 * k..8 * k + 8]);
      hide LowBits, PackFrom;
      var bytes := SpadBytes(s);
      assert bytes[k..][1..] == bytes[k + 1..];
      assert s[8 * k..] == s[8 * k..8 * k + 8] + s[8 * (k + 1)..];
    }
  }

  /** A scratchpad is taken exactly if its 72 bits leave the bit-serial register at zero. */
  lemma CrcOkIsResidue(s: Scratchpad)
    ensures CrcOk(s) <==> BitCrc(s) == 0
  {
    var bytes := SpadBytes(s);
    assert bytes == bytes[..8] + [bytes[8]] && bytes[0..] == bytes && s[0..] == s;
    ResidueIffMatch(bytes[..8], bytes[8]);
    TableIsBitwise(bytes);
    SpadBits(s, 0);
    hide Crc, BitsOf, BitCrc, SpadByte;
  }

  function Temperature(s: Scratchpad): Word { s[..16] }

  // ---------- one poll, as functions ----------

  function Loaded(d: Bits, bits: seq<bool>): Bits
    requires |bits| <= DATA_BITS
  {
    bits + d[|bits|..]
  }

  function ConvertCommand(): (r: seq<bool>)
    ensures |r| == 16
  {
    ByteBits(0xCC) + ByteBits(0x44)
  }

  function ReadCommand(setup: Setup, cur: nat): (r: seq<bool>)
    requires cur < |setup.roms|
    ensures |r| == if |setup.roms| > 1 then 80 else 16
  {
    if |setup.roms| > 1 then ByteBits(0x55) + setup.roms[cur] + ByteBits(0xBE) else ByteBits(0xCC) + ByteBits(0xBE)
  }

  function Write(ow: Engine, bits: seq<bool>, strong: bool): Engine
    requires |bits| <= DATA_BITS
  {
    StartWrite(ow.(data := Loaded(ow.data, bits)), |bits|, strong)
  }

  function OwError(s: Node, setup: Setup): Node {
    var i := if s.cur < |s.image| then s.cur else 0;
    s.(cur := i, image := if i < |s.image| then s.image[i := setup.invalid] else s.image, m := Relaxing)
  }

  function Stored(s: Node, setup: Setup, spad: Scratchpad): seq<Word> {
    if s.cur < |s.image| then s.image[s.cur := if CrcOk(spad) then Temperature(spad) else setup.invalid] else s.image
  }

  /** The response that a waiting state hopes for. */
  function Good(m: State): Response {
    match m
    case InitingBeforeConvert => PresenceOk
    case InitingBeforeRead => PresenceOk
    case ReadingScratchpad => ReadBitsOk
    case _ => WriteBitsOk
  }

  /** The response was not the good one: after some interrupts it is looked at again. */
  function SecondLook(s: Node, setup: Setup, between: seq<bool>): Node {
    var n := s.(ow := Ticks(s.ow, between));
    if n.ow.rsp != Busy then OwError(n, setup) else n
  }

  /** What a waiting state does on the good response. */
  function Advance(s: Node, setup: Setup, lineActive: bool): (Node, Option<Log>)
    requires |s.image| == |setup.roms|
  {
    match s.m
    case InitingBeforeConvert => (s.(ow := Write(s.ow, ConvertCommand(), true), m := RequestingConvert), None)
    case RequestingConvert => (s.(m := Converting), None)
    case InitingBeforeRead =>
      (if s.cur < |s.image| then s.(ow := Write(s.ow, ReadCommand(setup, s.cur), false), m := MatchingRom) else s, None)
    case MatchingRom => (s.(ow := StartRead(s.ow, SPAD_BITS), m := ReadingScratchpad), None)
    case ReadingScratchpad =>
      var spad: Scratchpad := s.ow.data[..SPAD_BITS];
      var n := s.(image := Stored(s, setup, spad), cur := s.cur + 1);
      (if n.cur < |s.image| then n.(ow := Init(s.ow, lineActive), m := InitingBeforeRead) else n.(m := Relaxing),
       Some(Log(s.cur, spad)))
    case _ => (s, None)
  }

  /** One call; lineActive is the bus as init sees it, expired whether the state's pause is
      over. The waiting states look at the engine's response, and if it is not the good one
      look at it again; the interrupts between see the line levels between. */
  function Poll(s: Node, setup: Setup, lineActive: bool, expired: bool, between: seq<bool>): (Node, Option<Log>)
    requires |s.image| == |setup.roms|
  {
    match s.m
    case Idling => (if |s.image| > 0 then s.(ow := Init(s.ow, lineActive), m := InitingBeforeConvert) else s, None)
    case Converting =>
      (if expired then s.(cur := 0, ow := Init(s.ow, lineActive), m := InitingBeforeRead) else s, None)
    case Relaxing => (if expired then s.(m := Idling) else s, None)
    case _ =>
      if s.ow.rsp == Good(s.m) then Advance(s, setup, lineActive) else (SecondLook(s, setup, between), None)
  }

  // ---------- the measurement as it runs ----------

  class OwNode {
    const ow: OwSm
    const setup: Setup
    var gState: State
    var gOwCurSensorIdx: nat
    var image: seq<Word>

    ghost function View(): Node
      reads this, ow
    {
      Node(gState, gOwCurSensorIdx, ow.View(), image)
    }

    constructor (ow: OwSm, setup: Setup)
      ensures this.ow == ow && this.setup == setup && gState == Idling
      ensures |image| == |setup.roms| && forall i :: 0 <= i < |image| ==> image[i] == setup.invalid
    {
      this.ow, this.setup := ow, setup;
      gState, gOwCurSensorIdx := Idling, 0;
      image := seq(|setup.roms|, _ => setup.invalid);
    }

    method OnOwError()
      modifies `gState, `gOwCurSensorIdx, `image
      ensures View() == OwError(old(View()), setup)
    {
      if gOwCurSensorIdx >= |image| {
        gOwCurSensorIdx := 0;
      }
      if gOwCurSensorIdx < |image| {
        image := image[gOwCurSensorIdx := setup.invalid];
      }
      gState := Relaxing;
    }

    method MeasureOwTempSm(lineActive: bool, expired: bool, between: seq<bool>) returns (read: Option<Log>)
      requires |image| == |setup.roms|
      modifies this, ow
      ensures (View(), read) == Poll(old(View()), setup, lineActive, expired, between)
    {
      hide Crc, PackFrom, SecondLook, Init, StartWrite, StartRead, ConvertCommand, CrcOk, Temperature;
      read := None;
      match gState {
        case Idling =>
          if |image| > 0 {
            ow.OwInit(lineActive);
            gState := InitingBeforeConvert;
          }
        case InitingBeforeConvert =>
          if ow.gResponseCode == PresenceOk {
            ow.gOwData := Loaded(ow.gOwData, ConvertCommand());
            ow.OwWriteBits(16, true);
            gState := RequestingConvert;
          } else {
            LookAgain(between);
          }
        case RequestingConvert =>
          if ow.gResponseCode == WriteBitsOk {
            gState := Converting;
          } else {
            LookAgain(between);
          }
        case Converting =>
          if expired {
            gOwCurSensorIdx := 0;
            ow.OwInit(lineActive);
            gState := InitingBeforeRead;
          }
        case InitingBeforeRead =>
          if ow.gResponseCode == PresenceOk {
            if gOwCurSensorIdx < |image| {
              var command := ReadCommand(setup, gOwCurSensorIdx);
              ow.gOwData := Loaded(ow.gOwData, command);
              ow.OwWriteBits(|command|, false);
              gState := MatchingRom;
            }
          } else {
            LookAgain(between);
          }
        case MatchingRom =>
          if ow.gResponseCode == WriteBitsOk {
            ow.OwReadBits(SPAD_BITS);
            gState := ReadingScratchpad;
          } else {
            LookAgain(between);
          }
        case ReadingScratchpad =>
          if ow.gResponseCode == ReadBitsOk {
            read := Store();
            if gOwCurSensorIdx < |image| {
              ow.OwInit(lineActive);
              gState := InitingBeforeRead;
            } else {
              gState := Relaxing;
            }
          } else {
            LookAgain(between);
          }
        case Relaxing =>
          if expired {
            gState := Idling;
          }
      }
    }

    /** The engine's interrupts go on until the response is read a second time. */
    method LookAgain(between: seq<bool>)
      modifies this`gState, this`gOwCurSensorIdx, this`image, ow
      ensures View() == SecondLook(old(View()), setup, between)
    {
      hide Tick;
      for k := 0 to |between|
        invariant gState == old(gState) && gOwCurSensorIdx == old(gOwCurSensorIdx) && image == old(image)
        invariant Ticks(old(ow.View()), between) == Ticks(ow.View(), between[k..])
      {
        ow.OwSmDo(between[k]);
        assert between[k..][0] == between[k] && between[k..][1..] == between[k + 1..];
      }
      if ow.gResponseCode != Busy {
        OnOwError();
      }
    }

    /** The CRC of the scratchpad decides what goes into the image. */
    method Store() returns (read: Option<Log>)
      modifies `gOwCurSensorIdx, `image
      ensures var spad: Scratchpad := ow.gOwData[..SPAD_BITS];
              && image == Stored(old(View()), setup, spad) && read == Some(Log(old(gOwCurSensorIdx), spad))
              && gOwCurSensorIdx == old(gOwCurSensorIdx) + 1
    {
      hide Crc, PackFrom;
      var spad: Scratchpad := ow.gOwData[..SPAD_BITS];
      var bytes := SpadBytes(spad);
      var crc := CalcCrc(bytes[..8]);
      var newValue := setup.invalid;
      if crc == bytes[8] {
        newValue := Temperature(spad);
      }
      if gOwCurSensorIdx < |image| {
        image := image[gOwCurSensorIdx := newValue];
      }
      read := Some(Log(gOwCurSensorIdx, spad));
      gOwCurSensorIdx := gOwCurSensorIdx + 1;
    }
  }

  // ---------- both levels together ----------

  datatype Event = Interrupt(line: bool) | Call(line: bool, expired: bool, between: seq<bool>)

  function Step(s: Node, setup: Setup, e: Event): (Node, Option<Log>)
    requires |s.image| == |setup.roms|
  {
    match e
    case Interrupt(line) => (s.(ow := Tick(s.ow, line)), None)
    case Call(line, expired, between) => Poll(s, setup, line, expired, between)
  }

  ghost predicate Initing(ow: Engine) {
    && ow.bus != Strong
    && match ow.st
       case WaitResetPulseFinished => ow.rsp == Busy
       case WaitPresence => ow.rsp == Busy
       case WaitPresenceCleared => ow.rsp == Busy
       case Idle => ow.rsp in {BusFailure0, BusFailure1, BusFailure3, NoPresence, PresenceOk}
       case _ => false
  }

  function ReadCommandBits(setup: Setup): nat { if |setup.roms| > 1 then 80 else 16 }

  /** Nothing is going on; if the strong pull-up is on, a written convert command was missed. */
  ghost predicate Resting(ow: Engine) { ow.st == Idle && (ow.bus == Strong ==> Written(ow, 16, true)) }

  /** Which engine states each measurement state can meet. */
  ghost predicate Composed(s: Node, setup: Setup) {
    && |s.image| == |setup.roms|
    && (s.m != Idling && s.m != Relaxing ==> |s.image| > 0)
    && (s.m in {InitingBeforeRead, MatchingRom, ReadingScratchpad} ==> s.cur < |s.image|)
    && match s.m
       case Idling => Resting(s.ow)
       case Relaxing => Resting(s.ow)
       case InitingBeforeConvert => Initing(s.ow)
       case InitingBeforeRead => Initing(s.ow)
       case RequestingConvert => Writing(s.ow, 16, true) || Written(s.ow, 16, true)
       case Converting => s.ow.st == Idle && s.ow.bus == Strong
       case MatchingRom => Writing(s.ow, ReadCommandBits(setup), false) || Written(s.ow, ReadCommandBits(setup), false)
       case ReadingScratchpad =>
         Reading(s.ow, SPAD_BITS) || (s.ow.st == Idle && s.ow.rsp == ReadBitsOk && s.ow.bus == Released)
  }

  lemma InterruptKeeps(s: Node, setup: Setup, line: bool)
    requires Composed(s, setup)
    ensures Composed(Step(s, setup, Interrupt(line)).0, setup)
  {
    match s.m {
      case RequestingConvert =>
        if Writing(s.ow, 16, true) {
          WriteTickKeeps(s.ow, 16, true, line);
        }
        hide Tick, Writing;
      case MatchingRom =>
        if Writing(s.ow, ReadCommandBits(setup), false) {
          WriteTickKeeps(s.ow, ReadCommandBits(setup), false, line);
        }
        hide Tick, Writing;
      case ReadingScratchpad =>
        if Reading(s.ow, SPAD_BITS) {
          ReadTickKeeps(s.ow, SPAD_BITS, line);
        }
        hide Tick, Reading;
      case _ =>
    }
  }

  lemma InitStarts(ow: Engine, line: bool)
    requires ow.st == Idle
    ensures Initing(Init(ow, line))
  {
  }

  lemma ReadStarts(ow: Engine)
    requires ow.st == Idle
    ensures Reading(StartRead(ow, SPAD_BITS), SPAD_BITS)
  {
  }

  predicate Waits(m: State) {
    m in {InitingBeforeConvert, RequestingConvert, InitingBeforeRead, MatchingRom, ReadingScratchpad}
  }

  lemma {:induction false} TicksKeep(s: Node, setup: Setup, lines: seq<bool>)
    requires Composed(s, setup)
    ensures Composed(s.(ow := Ticks(s.ow, lines)), setup)
    decreases |lines|
  {
    if lines == [] {
      assert s.(ow := s.ow) == s;
    } else {
      hide Composed, Tick;
      InterruptKeeps(s, setup, lines[0]);
      TicksKeep(s.(ow := Tick(s.ow, lines[0])), setup, lines[1..]);
    }
  }

  /** A waiting state can meet busy, the good response and what init reports; the first only
      while the engine runs. */
  lemma ResponsesFit(s: Node, setup: Setup)
    requires Composed(s, setup) && Waits(s.m)
    ensures s.ow.rsp == Busy <==> s.ow.st != Idle
    ensures s.ow.rsp in {Busy, Good(s.m)}
            || (s.m in {InitingBeforeConvert, InitingBeforeRead}
                && s.ow.rsp in {BusFailure0, BusFailure1, BusFailure3, NoPresence})
    ensures s.ow.st == Idle ==>
              Resting(s.ow) && s.m in {RequestingConvert, MatchingRom, ReadingScratchpad} ==> s.ow.rsp == Good(s.m)
  {
  }

  lemma ErrorKeeps(s: Node, setup: Setup)
    requires Composed(s, setup) && Resting(s.ow)
    ensures Composed(OwError(s, setup), setup)
  {
    hide Written, Writing, Reading, Initing;
  }

  lemma SecondLookKeeps(s: Node, setup: Setup, between: seq<bool>)
    requires Composed(s, setup) && Waits(s.m)
    ensures Composed(SecondLook(s, setup, between), setup)
  {
    var n := s.(ow := Ticks(s.ow, between));
    TicksKeep(s, setup, between);
    hide Ticks;
    if n.ow.rsp != Busy {
      ResponsesFit(n, setup);
      IdleRests(n, setup);
      hide Composed, Resting;
      ErrorKeeps(n, setup);
    }
  }

  lemma IdleRests(s: Node, setup: Setup)
    requires Composed(s, setup) && s.ow.st == Idle && s.m != Converting
    ensures Resting(s.ow)
  {
  }

  lemma AdvanceKeeps(s: Node, setup: Setup, line: bool)
    requires Composed(s, setup) && Waits(s.m) && s.ow.rsp == Good(s.m)
    ensures Composed(Advance(s, setup, line).0, setup)
  {
    hide StartWrite, StartRead, Init, ConvertCommand, ReadCommand, CrcOk, Temperature, Loaded;
    ResponsesFit(s, setup);
    match s.m {
      case InitingBeforeConvert =>
        StartWriteWrites(s.ow.(data := Loaded(s.ow.data, ConvertCommand())), 16, true);
        hide Writing, Stored;
      case InitingBeforeRead =>
        StartWriteWrites(s.ow.(data := Loaded(s.ow.data, ReadCommand(setup, s.cur))), ReadCommandBits(setup), false);
        hide Writing, Stored;
      case MatchingRom =>
        ReadStarts(s.ow);
        hide Reading, Stored;
      case _ =>
        InitStarts(s.ow, line);
        hide Initing;
    }
  }

  lemma CallKeeps(s: Node, setup: Setup, line: bool, expired: bool, between: seq<bool>)
    requires Composed(s, setup)
    ensures Composed(Step(s, setup, Call(line, expired, between)).0, setup)
  {
    if Waits(s.m) {
      if s.ow.rsp == Good(s.m) {
        AdvanceKeeps(s, setup, line);
      } else {
        SecondLookKeeps(s, setup, between);
      }
      hide Composed, Advance, SecondLook;
    } else {
      if s.ow.st == Idle {
        InitStarts(s.ow, line);
      }
      hide Init, Initing;
    }
  }

  // ---------- runs ----------

  /** The latest scratchpad read of a sensor. */
  function LastOf(log: seq<Log>, i: nat): Option<Scratchpad> {
    if log == [] then None
    else if log[|log| - 1].sensor == i then Some(log[|log| - 1].spad)
    else LastOf(log[..|log| - 1], i)
  }

  /** Each word of the image is "no reading", or the temperature in the latest scratchpad
      read of that sensor, whose CRC matched. */
  ghost predicate ImageIs(image: seq<Word>, log: seq<Log>, setup: Setup) {
    forall i :: 0 <= i < |image| ==>
      image[i] == setup.invalid
      || (LastOf(log, i).Some? && CrcOk(LastOf(log, i).value) && image[i] == Temperature(LastOf(log, i).value))
  }

  function Noted(log: seq<Log>, r: Option<Log>): seq<Log> { if r.Some? then log + [r.value] else log }

  lemma CallImage(s: Node, setup: Setup, line: bool, expired: bool, between: seq<bool>, log: seq<Log>)
    requires Composed(s, setup) && ImageIs(s.image, log, setup)
    ensures var (s', r) := Step(s, setup, Call(line, expired, between)); ImageIs(s'.image, Noted(log, r), setup)
  {
    hide CrcOk, Temperature, ConvertCommand, ReadCommand, Initing, Reading, Writing, Written, Resting, Ticks;
    var (s', r) := Step(s, setup, Call(line, expired, between));
    if r.Some? {
      assert (log + [r.value])[..|log|] == log;
    }
  }

  function Run(s: Node, setup: Setup, es: seq<Event>): (Node, seq<Log>)
    requires |s.image| == |setup.roms|
    decreases |es|
  {
    if es == [] then (s, [])
    else
      var (s1, r) := Step(s, setup, es[0]);
      var (s2, log) := Run(s1, setup, es[1..]);
      (s2, Noted([], r) + log)
  }

  lemma StepKeeps(s: Node, setup: Setup, e: Event, log: seq<Log>)
    requires Composed(s, setup) && ImageIs(s.image, log, setup)
    ensures var (s', r) := Step(s, setup, e);
            |s'.image| == |setup.roms| && Composed(s', setup) && ImageIs(s'.image, Noted(log, r), setup)
  {
    match e {
      case Interrupt(line) => InterruptKeeps(s, setup, line);
      case Call(line, expired, between) =>
        CallKeeps(s, setup, line, expired, between);
        CallImage(s, setup, line, expired, between, log);
    }
    hide Poll, Tick, ImageIs;
  }

  lemma {:induction false} RunKeeps(s: Node, setup: Setup, es: seq<Event>, log: seq<Log>)
    requires |s.image| == |setup.roms| && Composed(s, setup) && ImageIs(s.image, log, setup)
    ensures var (s', more) := Run(s, setup, es);
            Composed(s', setup) && ImageIs(s'.image, log + more, setup)
    decreases |es|
  {
    if es == [] {
      assert log + [] == log;
      hide ImageIs, Composed;
    } else {
      hide *;
      StepKeeps(s, setup, es[0], log);
      var (s1, r) := Step(s, setup, es[0]);
      RunKeeps(s1, setup, es[1..], Noted(log, r));
      RunUnfold(s, setup, es);
      NotedConcat(log, r, Run(s1, setup, es[1..]).1);
    }
  }

  lemma RunUnfold(s: Node, setup: Setup, es: seq<Event>)
    requires es != [] && |s.image| == |setup.roms| && |Step(s, setup, es[0]).0.image| == |setup.roms|
    ensures var (s1, r) := Step(s, setup, es[0]);
            Run(s, setup, es) == (Run(s1, setup, es[1..]).0, Noted([], r) + Run(s1, setup, es[1..]).1)
  {
    hide Step, Noted;
  }

  lemma NotedConcat(log: seq<Log>, r: Option<Log>, more: seq<Log>)
    ensures Noted(log, r) + more == log + (Noted([], r) + more)
  {
    hide CrcOk;
  }

  /** A node as it starts to run: configured, nothing read yet, the bus at rest. */
  ghost predicate Started(s: Node, setup: Setup) {
    && s.m == Idling && s.ow.st == Idle && s.ow.bus == Released && |s.image| == |setup.roms|
    && forall i :: 0 <= i < |s.image| ==> s.image[i] == setup.invalid
  }

  /** In every run, whatever the bus does: each image word is "no reading" or the
      temperature of the latest scratchpad read of that sensor, if its CRC matched. */
  lemma ImageIsChecked(s: Node, setup: Setup, es: seq<Event>)
    requires Started(s, setup)
    ensures var (s', log) := Run(s, setup, es); ImageIs(s'.image, log, setup)
  {
    RunKeeps(s, setup, es, []);
    assert [] + Run(s, setup, es).1 == Run(s, setup, es).1;
    hide Run, ImageIs, Composed;
  }

  // ---------- what a poll can meet in a run ----------

  /** The interrupt that ends the engine's work comes between the two looks of a poll. */
  ghost predicate FinishesBetween(ow: Engine, between: seq<bool>) {
    ow.st != Idle && Ticks(ow, between).st == Idle
  }

  /** The error branch of a waiting state was taken. */
  predicate GivesUp(after: State, read: Option<Log>) { after == Relaxing && read.None? }

  /** Exactly when a poll gives up. A write or a read never fails: it is given up exactly if
      it finishes, well, between the two looks. An initialisation is given up exactly if it
      had failed, or if it finishes, well or not, between them. */
  lemma GivesUpIff(s: Node, setup: Setup, es: seq<Event>, line: bool, expired: bool, between: seq<bool>)
    requires Started(s, setup)
    ensures var s' := Run(s, setup, es).0;
            && |s'.image| == |setup.roms|
            && var (s'', read) := Poll(s', setup, line, expired, between);
            && (s'.m in {RequestingConvert, MatchingRom, ReadingScratchpad} ==>
                  && (GivesUp(s''.m, read) <==> FinishesBetween(s'.ow, between))
                  && (GivesUp(s''.m, read) ==> s''.ow.rsp == Good(s'.m)))
            && (s'.m in {InitingBeforeConvert, InitingBeforeRead} ==>
                  (GivesUp(s''.m, read) <==>
                   (s'.ow.st == Idle && s'.ow.rsp != PresenceOk) || FinishesBetween(s'.ow, between)))
            && (Waits(s'.m) && GivesUp(s''.m, read) ==> s''.cur < |s''.image| && s''.image[s''.cur] == setup.invalid)
  {
    RunKeeps(s, setup, es, []);
    GivesUpAt(Run(s, setup, es).0, setup, line, expired, between);
    hide Run, ImageIs, Started, Composed, Poll;
  }

  lemma GivesUpAt(s: Node, setup: Setup, line: bool, expired: bool, between: seq<bool>)
    requires Composed(s, setup)
    ensures var (s'', read) := Poll(s, setup, line, expired, between);
            && (s.m in {RequestingConvert, MatchingRom, ReadingScratchpad} ==>
                  && (GivesUp(s''.m, read) <==> FinishesBetween(s.ow, between))
                  && (GivesUp(s''.m, read) ==> s''.ow.rsp == Good(s.m)))
            && (s.m in {InitingBeforeConvert, InitingBeforeRead} ==>
                  (GivesUp(s''.m, read) <==>
                   (s.ow.st == Idle && s.ow.rsp != PresenceOk) || FinishesBetween(s.ow, between)))
            && (Waits(s.m) && GivesUp(s''.m, read) ==> s''.cur < |s''.image| && s''.image[s''.cur] == setup.invalid)
  {
    if Waits(s.m) {
      var n := s.(ow := Ticks(s.ow, between));
      TicksKeep(s, setup, between);
      ResponsesFit(s, setup);
      ResponsesFit(n, setup);
      if s.ow.st == Idle {
        IdleStays(s.ow, between);
      }
      assert |s.image| > 0 by {
        hide Initing, Resting, Writing, Written, Reading;
      }
      hide Composed, Ticks, Resting, Stored, Write, StartRead, Init;
    }
  }

  /** In every run: the measurement touches the engine only when that is idle; at neither
      look does a waiting state meet the errors "busy", "write failed" or "read failed"; and
      the strong pull-up is on during the whole conversion, and otherwise only in the last
      slot of the convert command, or in a pause after one whose completion was missed. */
  lemma LevelsFit(s: Node, setup: Setup, es: seq<Event>, line: bool, expired: bool, between: seq<bool>)
    requires Started(s, setup)
    ensures var s' := Run(s, setup, es).0;
            && |s'.image| == |setup.roms|
            && var s'' := Poll(s', setup, line, expired, between).0;
            && (s''.ow != s'.ow ==> s'.ow.st == Idle || s''.ow == Ticks(s'.ow, between))
            && (Waits(s'.m) ==> forall e :: e in {s'.ow, Ticks(s'.ow, between)} ==>
                  e.rsp !in {RspError, WriteBitsFailure, ReadBitsFailure})
            && (s'.m == Converting ==> s'.ow.bus == Strong)
            && (s'.ow.bus == Strong ==>
                  || s'.m == Converting || (s'.m == RequestingConvert && s'.ow.idx >= 15)
                  || (s'.m in {Relaxing, Idling} && Written(s'.ow, 16, true)))
  {
    RunKeeps(s, setup, es, []);
    LevelsFitAt(Run(s, setup, es).0, setup, line, expired, between);
    hide Run, ImageIs, Started, Composed, Poll, Ticks, Written;
  }

  lemma LevelsFitAt(s: Node, setup: Setup, line: bool, expired: bool, between: seq<bool>)
    requires Composed(s, setup)
    ensures var s'' := Poll(s, setup, line, expired, between).0;
            && (s''.ow != s.ow ==> s.ow.st == Idle || s''.ow == Ticks(s.ow, between))
            && (Waits(s.m) ==> forall e :: e in {s.ow, Ticks(s.ow, between)} ==>
                  e.rsp !in {RspError, WriteBitsFailure, ReadBitsFailure})
            && (s.m == Converting ==> s.ow.bus == Strong)
            && (s.ow.bus == Strong ==>
                  || s.m == Converting || (s.m == RequestingConvert && s.ow.idx >= 15)
                  || (s.m in {Relaxing, Idling} && Written(s.ow, 16, true)))
  {
    assert s.ow.bus == Strong ==>
             || s.m == Converting || (s.m == RequestingConvert && s.ow.idx >= 15)
             || (s.m in {Relaxing, Idling} && Written(s.ow, 16, true));
    assert s.m == Converting ==> s.ow.bus == Strong && s.ow.st == Idle;
    assert s.m in {Relaxing, Idling} ==> s.ow.st == Idle;
    if Waits(s.m) {
      var n := s.(ow := Ticks(s.ow, between));
      TicksKeep(s, setup, between);
      ResponsesFit(s, setup);
      ResponsesFit(n, setup);
    }
    hide Composed, Ticks, Resting, Stored, Write, StartRead, Init, Written;
  }

  // ---------- a completion that is missed ----------

  /** Interrupts that bring a write to the end of its last slot. */
  lemma {:induction false} ToLastSlot(e: Engine, n: nat, strong: bool) returns (lines: seq<bool>)
    requires Writing(e, n, strong)
    ensures var e' := Ticks(e, lines); Writing(e', n, strong) && e'.idx == n - 1 && e'.io == WaitSlotEnd
    decreases WriteLeft(e)
  {
    if e.idx == n - 1 && e.io == WaitSlotEnd {
      return [];
    }
    WriteTickKeeps(e, n, strong, true);
    assert !Written(Tick(e, true), n, strong);
    var rest := ToLastSlot(Tick(e, true), n, strong);
    lines := [true] + rest;
    assert lines[1..] == rest;
  }

  function Interrupts(lines: seq<bool>): seq<Event> { seq(|lines|, i requires 0 <= i < |lines| => Interrupt(lines[i])) }

  lemma {:induction false} RunInterrupts(s: Node, setup: Setup, lines: seq<bool>)
    requires |s.image| == |setup.roms|
    ensures Run(s, setup, Interrupts(lines)).0 == s.(ow := Ticks(s.ow, lines))
    decreases |lines|
  {
    if lines == [] {
      assert s.(ow := s.ow) == s;
    } else {
      assert Interrupts(lines)[1..] == Interrupts(lines[1..]);
      RunInterrupts(s.(ow := Tick(s.ow, lines[0])), setup, lines[1..]);
      hide Tick;
    }
  }

  lemma RunCons(s: Node, setup: Setup, e: Event, es: seq<Event>)
    requires |s.image| == |setup.roms| && |Step(s, setup, e).0.image| == |setup.roms|
    ensures Run(s, setup, [e] + es).0 == Run(Step(s, setup, e).0, setup, es).0
  {
    hide *;
    assert ([e] + es)[0] == e && ([e] + es)[1..] == es;
    RunUnfold(s, setup, [e] + es);
  }

  /** A run after which a poll whose two looks enclose one interrupt gives the measurement
      up, although the convert command was written, and leaves the strong pull-up on. */
  lemma ConvertMissed(s: Node, setup: Setup) returns (es: seq<Event>)
    requires Started(s, setup) && |setup.roms| > 0
    ensures var s' := Run(s, setup, es).0;
            && |s'.image| == |setup.roms| && s'.m == RequestingConvert
            && forall line, expired, b ::
                 var s'' := Poll(s', setup, line, expired, [b]).0;
                 s''.m == Relaxing && s''.ow.rsp == WriteBitsOk && s''.ow.bus == Strong
  {
    var s1;
    es, s1 := ConvertBegins(s, setup);
    var s' := Run(s, setup, es).0;
    hide Run, Started, Composed, ConvertCommand, ReadCommand, Stored;
    forall line, expired, b
      ensures var s'' := Poll(s', setup, line, expired, [b]).0;
              s''.m == Relaxing && s''.ow.rsp == WriteBitsOk && s''.ow.bus == Strong
    {
      assert [b][1..] == [];
      assert Ticks(s'.ow, [b]) == Tick(s'.ow, b);
    }
  }

  /** The bus is reset and answers, and the convert command goes out up to its last slot. */
  lemma ConvertBegins(s: Node, setup: Setup) returns (es: seq<Event>, s': Node)
    requires Started(s, setup) && |setup.roms| > 0
    ensures s' == Run(s, setup, es).0 && |s'.image| == |setup.roms|
    ensures s'.m == RequestingConvert && Writing(s'.ow, 16, true) && s'.ow.idx == 15 && s'.ow.io == WaitSlotEnd
  {
    var call, low, high := Call(false, false, []), Interrupt(true), Interrupt(false);
    var a := Step(s, setup, call).0;
    var b := Step(a, setup, low).0;
    var c := Step(b, setup, low).0;
    var d := Step(c, setup, high).0;
    assert d.m == InitingBeforeConvert && d.ow.st == Idle && d.ow.rsp == PresenceOk && d.image == s.image;
    var f := Step(d, setup, call).0;
    StartWriteWrites(d.ow.(data := Loaded(d.ow.data, ConvertCommand())), 16, true);
    assert f.m == RequestingConvert && Writing(f.ow, 16, true) && f.image == s.image by {
      hide Writing, ConvertCommand, StartWrite;
    }
    var lines := ToLastSlot(f.ow, 16, true);
    RunInterrupts(f, setup, lines);
    s' := f.(ow := Ticks(f.ow, lines));
    es := Interrupts(lines);
    hide Step, Run, Writing, Ticks;
    RunCons(d, setup, call, es);
    RunCons(c, setup, high, [call] + es);
    RunCons(b, setup, low, [high] + ([call] + es));
    RunCons(a, setup, low, [low] + ([high] + ([call] + es)));
    RunCons(s, setup, call, [low] + ([low] + ([high] + ([call] + es))));
    es := [call] + ([low] + ([low] + ([high] + ([call] + es))));
  }
}
