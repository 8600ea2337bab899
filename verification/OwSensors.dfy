/** The AVR node's temperature measurement with sensors on the line. A sensor listens to the
    slots the node drives, and answers read slots only after a command that addresses it.
  */
module OwSensors {
  import opened Wrappers
  import opened Folds
  import opened Crc8
  import opened OwEngine
  import opened OwMeasure

  // ---------- sensors ----------

  // Commands as they go over the line, lowest bit first.
  const MATCH_ROM := [true, false, true, false, true, false, true, false]
  const SKIP_ROM := [false, false, true, true, false, false, true, true]
  const CONVERT := [false, false, true, false, false, false, true, false]
  const READ_SCRATCHPAD := [false, true, true, true, true, true, false, true]

  /** A sensor: its code, its scratchpad, the bits it has heard since the last reset and the
      read slots it has answered since. */
  datatype Sensor = Sensor(rom: Rom, spad: Scratchpad, heard: seq<bool>, sent: nat)

  /** It answers read slots. */
  predicate Selected(s: Sensor) {
    s.heard == MATCH_ROM + s.rom + READ_SCRATCHPAD || s.heard == SKIP_ROM + READ_SCRATCHPAD
  }

  /** It pulls the line in the read slot that has begun. */
  predicate Pulls(s: Sensor) { Selected(s) && 0 < s.sent <= SPAD_BITS && !s.spad[s.sent - 1] }

  function Reset(s: Sensor): Sensor { s.(heard := [], sent := 0) }

  function Hear(s: Sensor, bit: bool): Sensor { s.(heard := s.heard + [bit]) }

  function Answer(s: Sensor): Sensor { s.(sent := s.sent + 1) }

  /** What a sensor makes of what the engine does to the line: a reset pulse; a write slot,
      which is a one if the line is free again at once; or a read slot. */
  function Notices(e: Engine, e': Engine, s: Sensor): Sensor {
    if e'.st == WaitResetPulseFinished && e.st != WaitResetPulseFinished then Reset(s)
    else if e'.st == WriteBits && (e.st != WriteBits || e.idx != e'.idx) then Hear(s, e'.bus != Pulled)
    else if e'.st == ReadBits && (e.st != ReadBits || e.idx != e'.idx) then Answer(s)
    else s
  }

  function AllNotice(e: Engine, e': Engine, ss: seq<Sensor>): (r: seq<Sensor>)
    ensures |r| == |ss| && forall j :: 0 <= j < |ss| ==> r[j] == Notices(e, e', ss[j])
  {
    seq(|ss|, j requires 0 <= j < |ss| => Notices(e, e', ss[j]))
  }

  /** When the engine samples a read slot the line is low exactly if a sensor pulls it. */
  ghost predicate LineFits(e: Engine, ss: seq<Sensor>, line: bool) {
    e.st == ReadBits && e.io == WaitSampleEvent ==> (line <==> exists j :: 0 <= j < |ss| && Pulls(ss[j]))
  }

  ghost predicate LinesFit(e: Engine, ss: seq<Sensor>, lines: seq<bool>)
    decreases |lines|
  {
    lines == []
    || (LineFits(e, ss, lines[0])
        && LinesFit(Tick(e, lines[0]), AllNotice(e, Tick(e, lines[0]), ss), lines[1..]))
  }

  function TicksNoticed(e: Engine, ss: seq<Sensor>, lines: seq<bool>): (r: seq<Sensor>)
    ensures |r| == |ss|
    decreases |lines|
  {
    if lines == [] then ss
    else TicksNoticed(Tick(e, lines[0]), AllNotice(e, Tick(e, lines[0]), ss), lines[1..])
  }

  // ---------- the node and the sensors ----------

  datatype World = World(node: Node, sensors: seq<Sensor>)

  /** An interrupt, a poll, or new scratchpads of sensors that are not being read. */
  datatype BusEvent =
    | Timer(line: bool)
    | Loop(line: bool, expired: bool, between: seq<bool>)
    | Refresh(spads: seq<Scratchpad>)

  predicate LooksAgain(n: Node) { Waits(n.m) && n.ow.rsp != Good(n.m) }

  ghost predicate Fits(w: World, e: BusEvent) {
    match e
    case Timer(line) => LineFits(w.node.ow, w.sensors, line)
    case Loop(_, _, between) => LooksAgain(w.node) ==> LinesFit(w.node.ow, w.sensors, between)
    case Refresh(spads) =>
      |spads| == |w.sensors|
      && forall j :: 0 <= j < |spads| && Selected(w.sensors[j]) ==> spads[j] == w.sensors[j].spad
  }

  function Refreshed(ss: seq<Sensor>, spads: seq<Scratchpad>): (r: seq<Sensor>)
    requires |ss| == |spads|
    ensures |r| == |ss| && forall j :: 0 <= j < |ss| ==> r[j] == ss[j].(spad := spads[j])
  {
    seq(|ss|, j requires 0 <= j < |ss| => ss[j].(spad := spads[j]))
  }

  function After(w: World, setup: Setup, e: BusEvent): (World, Option<Log>)
    requires |w.node.image| == |setup.roms| && Fits(w, e)
  {
    match e
    case Timer(line) =>
      var ow := Tick(w.node.ow, line);
      (World(w.node.(ow := ow), AllNotice(w.node.ow, ow, w.sensors)), None)
    case Loop(line, expired, between) =>
      var (n, read) := Poll(w.node, setup, line, expired, between);
      (World(n, if LooksAgain(w.node) then TicksNoticed(w.node.ow, w.sensors, between)
                else AllNotice(w.node.ow, n.ow, w.sensors)), read)
    case Refresh(spads) => (w.(sensors := Refreshed(w.sensors, spads)), None)
  }

  // ---------- who is read ----------

  /** Sensor i of the configuration; a single one is not asked for its code. */
  predicate Meant(s: Sensor, setup: Setup, i: nat)
    requires i < |setup.roms|
  {
    |setup.roms| == 1 || s.rom == setup.roms[i]
  }

  ghost predicate BitOf(ss: seq<Sensor>, setup: Setup, i: nat, k: nat)
    requires i < |setup.roms| && k < SPAD_BITS
  {
    forall j :: 0 <= j < |ss| && Meant(ss[j], setup, i) ==> ss[j].spad[k]
  }

  /** What sensor i has in its scratchpad: if several answer, the AND of theirs, and ones if none. */
  ghost function Contents(ss: seq<Sensor>, setup: Setup, i: nat): (r: Scratchpad)
    requires i < |setup.roms|
    ensures forall k :: 0 <= k < SPAD_BITS ==> r[k] == BitOf(ss, setup, i, k)
  {
    seq(SPAD_BITS, k requires 0 <= k < SPAD_BITS => BitOf(ss, setup, i, k))
  }

  /** The command that reads sensor i. */
  function Command(setup: Setup, i: nat): (r: seq<bool>)
    requires i < |setup.roms|
    ensures |r| == if |setup.roms| > 1 then 80 else 16
  {
    if |setup.roms| > 1 then MATCH_ROM + setup.roms[i] + READ_SCRATCHPAD else SKIP_ROM + READ_SCRATCHPAD
  }

  // ---------- what the sensors have heard ----------

  /** A command goes out, or is out. */
  ghost predicate Hears(ow: Engine, s: Sensor, cmd: seq<bool>) {
    && |cmd| <= DATA_BITS && ow.data[..|cmd|] == cmd && s.sent == 0
    && s.heard == if ow.st == WriteBits && ow.idx < |cmd| then cmd[..ow.idx + 1] else cmd
  }

  ghost predicate Knows(n: Node, s: Sensor, setup: Setup) {
    match n.m
    case InitingBeforeConvert => (n.ow.st != Idle || n.ow.rsp == PresenceOk) ==> s.heard == [] && s.sent == 0
    case InitingBeforeRead => (n.ow.st != Idle || n.ow.rsp == PresenceOk) ==> s.heard == [] && s.sent == 0
    case RequestingConvert => Hears(n.ow, s, SKIP_ROM + CONVERT)
    case Converting => s.heard == SKIP_ROM + CONVERT
    case MatchingRom => n.cur < |setup.roms| && Hears(n.ow, s, Command(setup, n.cur))
    case ReadingScratchpad =>
      && n.cur < |setup.roms| && s.heard == Command(setup, n.cur)
      && (n.ow.st == ReadBits ==> s.sent == n.ow.idx + 1)
    case _ => true
  }

  ghost predicate Told(n: Node, ss: seq<Sensor>, setup: Setup) {
    forall j :: 0 <= j < |ss| ==> Knows(n, ss[j], setup)
  }

  /** How many bits have been sampled. */
  function Sampled(ow: Engine): nat {
    if ow.st != ReadBits then SPAD_BITS else if ow.io == WaitSlotEnd then ow.idx + 1 else ow.idx
  }

  ghost predicate Collected(n: Node, ss: seq<Sensor>, setup: Setup) {
    n.m == ReadingScratchpad && n.cur < |setup.roms| ==>
      forall k :: 0 <= k < SPAD_BITS && k < Sampled(n.ow) ==> n.ow.data[k] == BitOf(ss, setup, n.cur, k)
  }

  ghost predicate Listening(n: Node, ss: seq<Sensor>, setup: Setup) {
    Composed(n, setup) && Told(n, ss, setup) && Collected(n, ss, setup)
  }

  /** Whoever has heard the command is meant exactly if selected. */
  lemma SelectedAreMeant(s: Sensor, setup: Setup, i: nat)
    requires i < |setup.roms| && s.heard == Command(setup, i)
    ensures Selected(s) <==> Meant(s, setup, i)
  {
    var match_ := MATCH_ROM + s.rom + READ_SCRATCHPAD;
    if |setup.roms| > 1 {
      assert match_[8..72] == s.rom && Command(setup, i)[8..72] == setup.roms[i];
    } else {
      assert |match_| == 80 && |SKIP_ROM + READ_SCRATCHPAD| == 16;
    }
  }

  // ---------- interrupts ----------

  /** An interrupt during a write: the slot it begins tells the next bit. */
  lemma WriteTells(e: Engine, line: bool, s: Sensor, cmd: seq<bool>, strong: bool)
    requires Writing(e, |cmd|, strong) && Hears(e, s, cmd)
    ensures var e' := Tick(e, line);
            Hears(e', Notices(e, e', s), cmd) && (Writing(e', |cmd|, strong) || Written(e', |cmd|, strong))
  {
    WriteTickKeeps(e, |cmd|, strong, line);
    assert cmd[..|cmd|] == cmd;
    if e.idx + 1 < |cmd| {
      assert e.data[e.idx + 1] == e.data[..|cmd|][e.idx + 1];
      assert cmd[..e.idx + 1] + [cmd[e.idx + 1]] == cmd[..e.idx + 2];
    }
  }

  lemma WrittenTells(e: Engine, line: bool, s: Sensor, cmd: seq<bool>, strong: bool)
    requires Written(e, |cmd|, strong) && Hears(e, s, cmd)
    ensures Tick(e, line) == e && Notices(e, e, s) == s
  {
  }

  /** An interrupt during a read: the sample is what the sensors meant have there. */
  lemma ReadSamples(n: Node, ss: seq<Sensor>, setup: Setup, line: bool)
    requires n.m == ReadingScratchpad && Listening(n, ss, setup) && LineFits(n.ow, ss, line)
    requires n.ow.st == ReadBits
    ensures Collected(n.(ow := Tick(n.ow, line)), ss, setup)
  {
    var e, e' := n.ow, Tick(n.ow, line);
    if e.io == WaitSampleEvent {
      assert e'.data == e.data[e.idx := !line];
      assert !line <==> BitOf(ss, setup, n.cur, e.idx) by {
        forall j | 0 <= j < |ss| ensures Pulls(ss[j]) <==> Meant(ss[j], setup, n.cur) && !ss[j].spad[e.idx] {
          assert Knows(n, ss[j], setup);
          SelectedAreMeant(ss[j], setup, n.cur);
          hide Selected, Meant, Command;
        }
      }
    }
    hide BitOf, Told, LineFits;
  }

  lemma TimerKnows(n: Node, s: Sensor, setup: Setup, line: bool)
    requires Composed(n, setup) && Knows(n, s, setup)
    ensures var ow := Tick(n.ow, line); Knows(n.(ow := ow), Notices(n.ow, ow, s), setup)
  {
    match n.m {
      case RequestingConvert =>
        if Writing(n.ow, 16, true) {
          WriteTells(n.ow, line, s, SKIP_ROM + CONVERT, true);
        } else {
          WrittenTells(n.ow, line, s, SKIP_ROM + CONVERT, true);
        }
        hide Tick, Notices, Hears, Writing, Written;
      case MatchingRom =>
        if Writing(n.ow, ReadCommandBits(setup), false) {
          WriteTells(n.ow, line, s, Command(setup, n.cur), false);
        } else {
          WrittenTells(n.ow, line, s, Command(setup, n.cur), false);
        }
        hide Tick, Notices, Hears, Writing, Written, Command;
      case ReadingScratchpad =>
        hide Command;
      case _ =>
        hide Command, Hears;
    }
  }

  /** The codes and scratchpads are what they were. */
  ghost predicate SameContents(ss: seq<Sensor>, ss': seq<Sensor>) {
    |ss| == |ss'| && forall j :: 0 <= j < |ss| ==> ss'[j].rom == ss[j].rom && ss'[j].spad == ss[j].spad
  }

  lemma SameBits(n: Node, ss: seq<Sensor>, ss': seq<Sensor>, setup: Setup)
    requires SameContents(ss, ss')
    ensures Collected(n, ss, setup) <==> Collected(n, ss', setup)
    ensures forall i, k :: 0 <= i < |setup.roms| && 0 <= k < SPAD_BITS ==>
              BitOf(ss, setup, i, k) == BitOf(ss', setup, i, k)
  {
    forall i: nat, k: nat | i < |setup.roms| && k < SPAD_BITS
      ensures BitOf(ss, setup, i, k) == BitOf(ss', setup, i, k)
    {
    }
    hide BitOf;
  }

  lemma TimerCollects(n: Node, ss: seq<Sensor>, setup: Setup, line: bool)
    requires Listening(n, ss, setup) && LineFits(n.ow, ss, line)
    ensures Collected(n.(ow := Tick(n.ow, line)), ss, setup)
  {
    if n.m == ReadingScratchpad && n.ow.st == ReadBits {
      ReadSamples(n, ss, setup, line);
    } else if n.m == ReadingScratchpad {
      assert Composed(n, setup);
      assert n.ow.st == Idle && Tick(n.ow, line) == n.ow;
    }
    hide LineFits, Tick, Told, Composed, BitOf;
  }

  /** An interrupt keeps it all. */
  lemma TimerKeeps(n: Node, ss: seq<Sensor>, setup: Setup, line: bool)
    requires Listening(n, ss, setup) && LineFits(n.ow, ss, line)
    ensures var ow := Tick(n.ow, line); Listening(n.(ow := ow), AllNotice(n.ow, ow, ss), setup)
  {
    var ow := Tick(n.ow, line);
    InterruptKeeps(n, setup, line);
    TimerCollects(n, ss, setup, line);
    var ss' := AllNotice(n.ow, ow, ss);
    hide LineFits, Composed, Knows, Tick, Collected;
    SameBits(n.(ow := ow), ss, ss', setup);
    forall j | 0 <= j < |ss| ensures Knows(n.(ow := ow), ss'[j], setup) {
      TimerKnows(n, ss[j], setup, line);
    }
  }

  lemma {:induction false} TimersKeep(n: Node, ss: seq<Sensor>, setup: Setup, lines: seq<bool>)
    requires Listening(n, ss, setup) && LinesFit(n.ow, ss, lines)
    ensures Listening(n.(ow := Ticks(n.ow, lines)), TicksNoticed(n.ow, ss, lines), setup)
    decreases |lines|
  {
    if lines == [] {
      assert n.(ow := n.ow) == n;
    } else {
      TimerKeeps(n, ss, setup, lines[0]);
      hide Listening, Tick, LineFits;
      var ow := Tick(n.ow, lines[0]);
      TimersKeep(n.(ow := ow), AllNotice(n.ow, ow, ss), setup, lines[1..]);
    }
  }

  // ---------- polls ----------

  lemma CommandBits(setup: Setup, i: nat)
    requires i < |setup.roms|
    ensures ConvertCommand() == SKIP_ROM + CONVERT && ReadCommand(setup, i) == Command(setup, i)
  {
    MatchBits();
    SkipBits();
    ConvertBits();
    ReadBitsAre();
    hide ByteBits, MATCH_ROM, SKIP_ROM, CONVERT, READ_SCRATCHPAD;
  }

  lemma MatchBits() ensures ByteBits(0x55) == MATCH_ROM {}

  lemma SkipBits() ensures ByteBits(0xCC) == SKIP_ROM {}

  lemma ConvertBits() ensures ByteBits(0x44) == CONVERT {}

  lemma ReadBitsAre() ensures ByteBits(0xBE) == READ_SCRATCHPAD {}

  /** A command begins. */
  lemma WriteBegins(ow: Engine, cmd: seq<bool>, strong: bool, s: Sensor)
    requires ow.st == Idle && 0 < |cmd| <= DATA_BITS && s.heard == [] && s.sent == 0
    ensures var e := Write(ow, cmd, strong); Hears(e, Notices(ow, e, s), cmd)
  {
    var e := Write(ow, cmd, strong);
    assert e.data == Loaded(ow.data, cmd) && e.data[..|cmd|] == cmd;
    assert e.data[0] == cmd[0];
    assert [] + [cmd[0]] == cmd[..1];
  }

  lemma InitNoticed(ow: Engine, line: bool, s: Sensor)
    requires ow.st == Idle
    ensures var e := Init(ow, line); (e.st != Idle || e.rsp == PresenceOk) ==> Notices(ow, e, s) == Reset(s)
  {
  }

  lemma AdvanceKnows(n: Node, s: Sensor, setup: Setup, line: bool)
    requires Composed(n, setup) && Knows(n, s, setup) && Waits(n.m) && n.ow.rsp == Good(n.m)
    ensures var n' := Advance(n, setup, line).0; Knows(n', Notices(n.ow, n'.ow, s), setup)
  {
    ResponsesFit(n, setup);
    assert |setup.roms| > 0 && n.ow.st == Idle;
    match n.m {
      case InitingBeforeConvert =>
        CommandBits(setup, 0);
        WriteBegins(n.ow, ConvertCommand(), true, s);
        hide Write, Hears, Composed, ReadCommand, Notices;
      case InitingBeforeRead =>
        assert n.cur < |setup.roms|;
        CommandBits(setup, n.cur);
        WriteBegins(n.ow, ReadCommand(setup, n.cur), false, s);
        hide Write, Hears, Composed, ConvertCommand, ReadCommand, Notices;
      case ReadingScratchpad =>
        InitNoticed(n.ow, line, s);
        hide Init, Notices, Hears, Composed, Stored, CrcOk, Command;
      case _ =>
        hide Composed, Stored, CrcOk, Command;
    }
  }

  lemma AdvanceKeepsAll(n: Node, ss: seq<Sensor>, setup: Setup, line: bool)
    requires Listening(n, ss, setup) && Waits(n.m) && n.ow.rsp == Good(n.m)
    ensures var n' := Advance(n, setup, line).0; Listening(n', AllNotice(n.ow, n'.ow, ss), setup)
  {
    var n' := Advance(n, setup, line).0;
    AdvanceKeeps(n, setup, line);
    AdvanceCollects(n, setup, line);
    hide Composed, Advance, Knows, Waits, Good;
    forall j | 0 <= j < |ss| ensures Knows(n', AllNotice(n.ow, n'.ow, ss)[j], setup) {
      AdvanceKnows(n, ss[j], setup, line);
    }
  }

  /** Nothing is sampled when a read begins. */
  lemma AdvanceCollects(n: Node, setup: Setup, line: bool)
    requires Composed(n, setup) && Waits(n.m) && n.ow.rsp == Good(n.m)
    ensures var n' := Advance(n, setup, line).0; n'.m == ReadingScratchpad ==> Sampled(n'.ow) == 0
  {
    ResponsesFit(n, setup);
    assert n.ow.st == Idle;
    hide Composed, Stored, CrcOk, ReadCommand, ConvertCommand, Init, Write;
  }

  /** What a poll reads is what the sensors it means have. */
  lemma ReadIsContents(n: Node, ss: seq<Sensor>, setup: Setup, line: bool)
    requires Listening(n, ss, setup) && Waits(n.m) && n.ow.rsp == Good(n.m)
    ensures var read := Advance(n, setup, line).1;
            read.Some? ==> n.cur < |setup.roms| && read.value == Log(n.cur, Contents(ss, setup, n.cur))
  {
    if n.m == ReadingScratchpad {
      ResponsesFit(n, setup);
      assert n.ow.st == Idle && n.cur < |setup.roms|;
      hide Composed, Told, BitOf;
      assert n.ow.data[..SPAD_BITS] == Contents(ss, setup, n.cur);
    }
    hide Listening, Stored;
  }

  lemma RestKnow(n: Node, ss: seq<Sensor>, setup: Setup, line: bool, expired: bool)
    requires Listening(n, ss, setup) && !Waits(n.m)
    ensures var n' := Poll(n, setup, line, expired, []).0; Listening(n', AllNotice(n.ow, n'.ow, ss), setup)
  {
    var n' := Poll(n, setup, line, expired, []).0;
    CallKeeps(n, setup, line, expired, []);
    assert n.ow.st == Idle;
    forall j | 0 <= j < |ss| ensures Knows(n', AllNotice(n.ow, n'.ow, ss)[j], setup) {
      assert Knows(n, ss[j], setup);
      InitNoticed(n.ow, line, ss[j]);
    }
    hide Composed, Init, Notices;
  }

  lemma GivenUpKnow(n: Node, ss: seq<Sensor>, setup: Setup)
    requires Listening(n, ss, setup) && Composed(OwError(n, setup), setup)
    ensures Listening(OwError(n, setup), ss, setup)
  {
    hide Composed;
  }

  lemma LoopKeeps(w: World, setup: Setup, line: bool, expired: bool, between: seq<bool>)
    requires Listening(w.node, w.sensors, setup) && |w.node.image| == |setup.roms|
    requires Fits(w, Loop(line, expired, between))
    ensures var (w', read) := After(w, setup, Loop(line, expired, between));
            && Listening(w'.node, w'.sensors, setup)
            && (read.Some? ==> w.node.cur < |setup.roms|
                               && read.value == Log(w.node.cur, Contents(w.sensors, setup, w.node.cur)))
  {
    var n, ss := w.node, w.sensors;
    hide Listening;
    if LooksAgain(n) {
      TimersKeep(n, ss, setup, between);
      var n1, ss1 := n.(ow := Ticks(n.ow, between)), TicksNoticed(n.ow, ss, between);
      assert SecondLook(n, setup, between) == if n1.ow.rsp != Busy then OwError(n1, setup) else n1;
      ListeningIs(n, ss, setup);
      SecondLookKeeps(n, setup, between);
      hide Composed, OwError, Ticks, TicksNoticed;
      if n1.ow.rsp != Busy {
        GivenUpKnow(n1, ss1, setup);
      }
    } else if Waits(n.m) {
      AdvanceKeepsAll(n, ss, setup, line);
      ReadIsContents(n, ss, setup, line);
      hide Advance, LinesFit;
    } else {
      RestKnow(n, ss, setup, line, expired);
      hide LinesFit, Init;
    }
  }

  lemma ListeningIs(n: Node, ss: seq<Sensor>, setup: Setup)
    requires Listening(n, ss, setup)
    ensures Composed(n, setup)
  {
  }

  // ---------- a sensor that is not there ----------

  function Ones(n: nat): seq<Byte> { if n == 0 then [] else [0xFF] + Ones(n - 1) }

  lemma OnesPack(bits: seq<bool>)
    requires |bits| == 8 && forall k :: 0 <= k < 8 ==> bits[k]
    ensures PackFrom(bits) == 0xFF
  {
    PackedLowBits(bits);
    assert LowBits(0xFF, 8) == bits;
    hide PackFrom, LowBits;
    ByteBitsInjective(PackFrom(bits), 0xFF);
  }

  lemma OneMore(c: Byte, d: Byte, n: nat)
    requires n > 0 && Lookup(c ^ 0xFF) == d
    ensures Fold(TableStep, c, Ones(n)) == Fold(TableStep, d, Ones(n - 1))
  {
    assert Ones(n)[1..] == Ones(n - 1);
    hide Lookup;
  }

  lemma OnesFirst()
    ensures Lookup(0 ^ 0xFF) == 53 && Lookup(53 ^ 0xFF) == 180 && Lookup(180 ^ 0xFF) == 102 && Lookup(102 ^ 0xFF) == 141
  {
  }

  lemma OnesLast()
    ensures Lookup(141 ^ 0xFF) == 68 && Lookup(68 ^ 0xFF) == 18 && Lookup(18 ^ 0xFF) == 20 && Lookup(20 ^ 0xFF) == 201
  {
  }

  lemma CrcOfOnes()
    ensures Crc(Ones(8)) == 201
  {
    hide *;
    OnesFirst();
    OneMore(0, 53, 8);
    OneMore(53, 180, 7);
    OneMore(180, 102, 6);
    OneMore(102, 141, 5);
    OnesLast();
    OneMore(141, 68, 4);
    OneMore(68, 18, 3);
    OneMore(18, 20, 2);
    OneMore(20, 201, 1);
    CrcIsFold();
  }

  lemma CrcIsFold()
    ensures Crc(Ones(8)) == Fold(TableStep, 0, Ones(8)) && Fold(TableStep, 201, Ones(0)) == 201
  {
    hide Lookup;
  }

  /** A line that stays high gives no valid reading. */
  lemma SilenceIsInvalid(s: Scratchpad)
    requires forall k :: 0 <= k < SPAD_BITS ==> s[k]
    ensures !CrcOk(s)
  {
    forall k | 0 <= k < 9 ensures SpadByte(s, k) == 0xFF {
      OnesPack(s[8 * k..8 * k + 8]);
    }
    hide PackFrom, Crc, SpadByte;
    assert Ones(8) == [0xFF, 0xFF, 0xFF, 0xFF, 0xFF, 0xFF, 0xFF, 0xFF];
    assert SpadBytes(s)[..8] == Ones(8);
    CrcOfOnes();
  }

  /** So the word of a configured sensor that is not on the line is "no reading". */
  lemma AbsentIsInvalid(ss: seq<Sensor>, setup: Setup, i: nat)
    requires i < |setup.roms| && forall j :: 0 <= j < |ss| ==> !Meant(ss[j], setup, i)
    ensures !CrcOk(Contents(ss, setup, i))
  {
    SilenceIsInvalid(Contents(ss, setup, i));
  }

  // ---------- runs ----------

  lemma RefreshKeeps(w: World, setup: Setup, spads: seq<Scratchpad>)
    requires Listening(w.node, w.sensors, setup) && Fits(w, Refresh(spads))
    ensures Listening(w.node, Refreshed(w.sensors, spads), setup)
  {
    var n, ss, ss' := w.node, w.sensors, Refreshed(w.sensors, spads);
    forall j | 0 <= j < |ss'| ensures Knows(n, ss'[j], setup) {
      assert Knows(n, ss[j], setup);
    }
    if n.m == ReadingScratchpad && n.cur < |setup.roms| {
      forall j | 0 <= j < |ss| && Meant(ss[j], setup, n.cur) ensures ss'[j] == ss[j] {
        assert Knows(n, ss[j], setup);
        SelectedAreMeant(ss[j], setup, n.cur);
      }
      forall k: nat | k < SPAD_BITS ensures BitOf(ss', setup, n.cur, k) == BitOf(ss, setup, n.cur, k) {
        forall j | 0 <= j < |ss| ensures Meant(ss'[j], setup, n.cur) <==> Meant(ss[j], setup, n.cur) {
        }
      }
    }
    hide Composed, Selected, Command;
  }

  /** What was read in a step: for which sensor, and what the sensors meant had then. */
  ghost function Had(w: World, setup: Setup, read: Option<Log>): seq<Log> {
    if read.Some? && w.node.cur < |setup.roms|
    then [Log(w.node.cur, Contents(w.sensors, setup, w.node.cur))] else []
  }

  ghost predicate Truthful(w: World, setup: Setup, had: seq<Log>) {
    |w.node.image| == |setup.roms| && Listening(w.node, w.sensors, setup) && ImageIs(w.node.image, had, setup)
  }

  /** The lines are those that the sensors make. */
  ghost predicate OnLine(w: World, setup: Setup, es: seq<BusEvent>)
    decreases |es|
  {
    es == []
    || (|w.node.image| == |setup.roms| && Fits(w, es[0]) && OnLine(After(w, setup, es[0]).0, setup, es[1..]))
  }

  /** The end of a run, and what each sensor that was read had then. */
  ghost function RunWith(w: World, setup: Setup, es: seq<BusEvent>): (World, seq<Log>)
    requires OnLine(w, setup, es)
    decreases |es|
  {
    if es == [] then (w, [])
    else
      var (w1, read) := After(w, setup, es[0]);
      var (w2, had) := RunWith(w1, setup, es[1..]);
      (w2, Had(w, setup, read) + had)
  }

  lemma StepTruthful(w: World, setup: Setup, e: BusEvent, had: seq<Log>)
    requires Truthful(w, setup, had) && Fits(w, e)
    ensures var (w', read) := After(w, setup, e); Truthful(w', setup, had + Had(w, setup, read))
  {
    assert had + [] == had;
    hide Listening, LineFits, LinesFit, Selected;
    match e {
      case Timer(line) =>
        TimerKeeps(w.node, w.sensors, setup, line);
        hide ImageIs, Tick;
      case Loop(line, expired, between) =>
        LoopKeeps(w, setup, line, expired, between);
        ListeningIs(w.node, w.sensors, setup);
        CallKeeps(w.node, setup, line, expired, between);
        CallImage(w.node, setup, line, expired, between, had);
        var (n, read) := Poll(w.node, setup, line, expired, between);
        hide Poll, Composed, TicksNoticed;
        assert Noted(had, read) == had + Had(w, setup, read);
        ListeningIs(After(w, setup, e).0.node, After(w, setup, e).0.sensors, setup);
        hide ImageIs;
        ImageSize(n, setup);
      case Refresh(spads) =>
        RefreshKeeps(w, setup, spads);
        hide ImageIs;
    }
  }

  lemma ImageSize(n: Node, setup: Setup)
    requires Composed(n, setup)
    ensures |n.image| == |setup.roms|
  {
  }

  lemma {:induction false} RunTruthful(w: World, setup: Setup, es: seq<BusEvent>, had: seq<Log>)
    requires Truthful(w, setup, had) && OnLine(w, setup, es)
    ensures var (w', more) := RunWith(w, setup, es); Truthful(w', setup, had + more)
    decreases |es|
  {
    hide Truthful, After, Fits, Had;
    if es == [] {
      assert had + [] == had;
    } else {
      var (w1, read) := After(w, setup, es[0]);
      StepTruthful(w, setup, es[0], had);
      RunTruthful(w1, setup, es[1..], had + Had(w, setup, read));
      assert had + Had(w, setup, read) + RunWith(w1, setup, es[1..]).1
          == had + (Had(w, setup, read) + RunWith(w1, setup, es[1..]).1);
    }
  }

  lemma StartTruthful(w: World, setup: Setup)
    requires Started(w.node, setup)
    ensures Truthful(w, setup, [])
  {
  }

  /** In every run with sensors on the line, whatever else the bus and the interrupts do:
      each word of the image is "no reading", or the temperature that the sensor with the code
      configured for that word had in its scratchpad when it was last read, with a matching
      CRC. */
  lemma ImageIsItsSensors(w: World, setup: Setup, es: seq<BusEvent>)
    requires Started(w.node, setup) && OnLine(w, setup, es)
    ensures var (w', had) := RunWith(w, setup, es); ImageIs(w'.node.image, had, setup)
  {
    hide *;
    StartTruthful(w, setup);
    RunTruthful(w, setup, es, []);
    var (w', had) := RunWith(w, setup, es);
    assert [] + had == had;
    TruthfulIs(w', setup, had);
  }

  lemma TruthfulIs(w: World, setup: Setup, had: seq<Log>)
    requires Truthful(w, setup, had)
    ensures ImageIs(w.node.image, had, setup) && Told(w.node, w.sensors, setup)
  {
    hide ImageIs, Told, Composed, Collected;
  }

  /** In every run: a conversion begins when every sensor has heard "skip ROM, convert" since
      the reset, and a scratchpad is read when every sensor has heard the command for the one
      configured, its code bit by bit. */
  lemma CommandsHeard(w: World, setup: Setup, es: seq<BusEvent>)
    requires Started(w.node, setup) && OnLine(w, setup, es)
    ensures var w' := RunWith(w, setup, es).0;
            forall s :: s in w'.sensors ==>
              && (w'.node.m == Converting ==> s.heard == SKIP_ROM + CONVERT)
              && (w'.node.m == ReadingScratchpad ==>
                    w'.node.cur < |setup.roms| && s.heard == Command(setup, w'.node.cur))
  {
    hide *;
    StartTruthful(w, setup);
    RunTruthful(w, setup, es, []);
    var (w', had) := RunWith(w, setup, es);
    assert [] + had == had;
    TruthfulIs(w', setup, had);
    ToldIs(w'.node, w'.sensors, setup);
  }

  lemma ToldIs(n: Node, ss: seq<Sensor>, setup: Setup)
    requires Told(n, ss, setup)
    ensures forall s :: s in ss ==>
              && (n.m == Converting ==> s.heard == SKIP_ROM + CONVERT)
              && (n.m == ReadingScratchpad ==> n.cur < |setup.roms| && s.heard == Command(setup, n.cur))
  {
    forall s | s in ss ensures Knows(n, s, setup) {
      var j :| 0 <= j < |ss| && ss[j] == s;
    }
    hide Told, Command, Hears;
  }
}
