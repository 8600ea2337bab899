/** A round of the AVR node's temperature measurement: when every poll comes after the engine
    has finished and the sensors are there, each sensor is read once, in order.
  */
module OwRounds {
  import opened Wrappers
  import opened OwEngine
  import opened OwMeasure

  /** Enough interrupts for whatever the engine was told; a reset is answered. */
  ghost predicate Ample(lines: seq<bool>) {
    |lines| >= 2 * DATA_BITS && lines[0] && lines[1] && !lines[2]
  }

  /** One poll, its pause being over, and the interrupts after it. */
  function Turn(lines: seq<bool>): seq<Event> { [Call(false, true, [])] + Interrupts(lines) }

  function Turns(ls: seq<seq<bool>>): seq<Event> {
    if ls == [] then [] else Turn(ls[0]) + Turns(ls[1..])
  }

  lemma {:induction false} RunConcat(s: Node, setup: Setup, a: seq<Event>, b: seq<Event>)
    requires |s.image| == |setup.roms|
    ensures var (s1, log) := Run(s, setup, a);
            && |s1.image| == |setup.roms|
            && Run(s, setup, a + b) == (Run(s1, setup, b).0, log + Run(s1, setup, b).1)
    decreases |a|
  {
    hide *;
    if a == [] {
      NoEvents(s, setup);
      assert a + b == b;
      NoLogs(Run(s, setup, b).1);
    } else {
      StepSize(s, setup, a[0]);
      var (s1, r) := Step(s, setup, a[0]);
      RunConcat(s1, setup, a[1..], b);
      RunUnfold(s, setup, a);
      assert (a + b)[0] == a[0] && (a + b)[1..] == a[1..] + b;
      RunUnfold(s, setup, a + b);
      LogsAssoc(Noted([], r), Run(s1, setup, a[1..]).1, Run(Run(s1, setup, a[1..]).0, setup, b).1);
    }
  }

  lemma NoEvents(s: Node, setup: Setup)
    requires |s.image| == |setup.roms|
    ensures Run(s, setup, []) == (s, [])
  {
  }

  lemma LogsAssoc(a: seq<Log>, b: seq<Log>, c: seq<Log>)
    ensures a + (b + c) == a + b + c
  {
    hide *;
  }

  lemma StepSize(s: Node, setup: Setup, e: Event)
    requires |s.image| == |setup.roms|
    ensures |Step(s, setup, e).0.image| == |setup.roms|
  {
    hide Init, StartRead, Write, Ticks, Tick, CrcOk, Temperature, ConvertCommand, ReadCommand;
  }

  lemma {:induction false} InterruptsOnly(s: Node, setup: Setup, lines: seq<bool>)
    requires |s.image| == |setup.roms|
    ensures Run(s, setup, Interrupts(lines)) == (s.(ow := Ticks(s.ow, lines)), [])
    decreases |lines|
  {
    if lines == [] {
      assert s.(ow := s.ow) == s;
    } else {
      assert Interrupts(lines)[0] == Interrupt(lines[0]) && Interrupts(lines)[1..] == Interrupts(lines[1..]);
      InterruptsOnly(s.(ow := Tick(s.ow, lines[0])), setup, lines[1..]);
      hide Tick, Run;
      RunUnfold(s, setup, Interrupts(lines));
      assert Noted([], None) + [] == [];
    }
  }

  /** What a turn does. */
  lemma TurnIs(s: Node, setup: Setup, lines: seq<bool>)
    requires |s.image| == |setup.roms|
    ensures var (n, read) := Poll(s, setup, false, true, []);
            Run(s, setup, Turn(lines)) == (n.(ow := Ticks(n.ow, lines)), Noted([], read))
  {
    var call := Call(false, true, []);
    StepSize(s, setup, call);
    hide Poll, Ticks;
    var n := Step(s, setup, call).0;
    InterruptsOnly(n, setup, lines);
    RunUnfold(s, setup, Turn(lines));
    assert Turn(lines)[1..] == Interrupts(lines);
    assert Noted([], Step(s, setup, call).1) + [] == Noted([], Step(s, setup, call).1);
    hide Run;
  }

  // ---------- the engine finishes ----------

  lemma Resets(e: Engine, lines: seq<bool>)
    requires e.st == Idle && Ample(lines)
    ensures var e' := Ticks(Init(e, false), lines); e'.st == Idle && e'.rsp == PresenceOk
  {
    var a := Init(e, false);
    var b := Tick(a, lines[0]);
    var c := Tick(b, lines[1]);
    var d := Tick(c, lines[2]);
    assert lines[1..][0] == lines[1] && lines[1..][1..] == lines[2..];
    assert lines[2..][0] == lines[2] && lines[2..][1..] == lines[3..];
    assert Ticks(a, lines) == Ticks(b, lines[1..]) == Ticks(c, lines[2..]) == Ticks(d, lines[3..]);
    IdleStays(d, lines[3..]);
  }

  lemma Writes(e: Engine, bits: seq<bool>, strong: bool, lines: seq<bool>)
    requires e.st == Idle && 0 < |bits| <= DATA_BITS && Ample(lines)
    ensures var e' := Ticks(Write(e, bits, strong), lines); e'.st == Idle && e'.rsp == WriteBitsOk
  {
    WriteCompletes(e.(data := Loaded(e.data, bits)), |bits|, strong, lines);
    hide StartWrite, Ticks;
  }

  lemma Reads(e: Engine, lines: seq<bool>)
    requires e.st == Idle && Ample(lines)
    ensures var e' := Ticks(StartRead(e, SPAD_BITS), lines); e'.st == Idle && e'.rsp == ReadBitsOk
  {
    var a, n := StartRead(e, SPAD_BITS), 2 * SPAD_BITS;
    ReadStarts(e);
    ReadCollects(a, SPAD_BITS, lines[..n], 0);
    assert lines == lines[..n] + lines[n..];
    TicksConcat(a, lines[..n], lines[n..]);
    IdleStays(Ticks(a, lines[..n]), lines[n..]);
    hide Ticks;
  }

  lemma {:induction false} TicksConcat(e: Engine, a: seq<bool>, b: seq<bool>)
    ensures Ticks(e, a + b) == Ticks(Ticks(e, a), b)
    decreases |a|
  {
    if a == [] {
      assert a + b == b;
    } else {
      assert (a + b)[1..] == a[1..] + b;
      TicksConcat(Tick(e, a[0]), a[1..], b);
      hide Tick;
    }
  }

  // ---------- the measurement goes on ----------

  /** The engine has finished, with the response the state hopes for. */
  ghost predicate Ready(s: Node, setup: Setup, m: State) {
    && s.m == m && |s.image| == |setup.roms| > 0 && s.ow.st == Idle
    && (Waits(m) ==> s.ow.rsp == Good(m))
  }

  /** What comes after each state, of cur sensors read. */
  function Following(m: State, cur: nat, count: nat): State {
    match m
    case Idling => InitingBeforeConvert
    case InitingBeforeConvert => RequestingConvert
    case RequestingConvert => Converting
    case Converting => InitingBeforeRead
    case InitingBeforeRead => MatchingRom
    case MatchingRom => ReadingScratchpad
    case ReadingScratchpad => if cur + 1 < count then InitingBeforeRead else Relaxing
    case Relaxing => Idling
  }

  lemma TurnGoesOn(s: Node, setup: Setup, m: State, lines: seq<bool>)
    requires Ready(s, setup, m) && Ample(lines) && (m == InitingBeforeRead ==> s.cur < |setup.roms|)
    ensures var (s', log) := Run(s, setup, Turn(lines));
            && Ready(s', setup, Following(m, s.cur, |setup.roms|))
            && s'.cur == (if m == Converting then 0 else if m == ReadingScratchpad then s.cur + 1 else s.cur)
            && (if m == ReadingScratchpad then |log| == 1 && log[0].sensor == s.cur else log == [])
  {
    TurnIs(s, setup, lines);
    hide Run, Turn, Init, Write, StartRead, Stored, ConvertCommand, ReadCommand, CrcOk, Ticks, Ample;
    match m {
      case InitingBeforeConvert => Writes(s.ow, ConvertCommand(), true, lines);
      case InitingBeforeRead => Writes(s.ow, ReadCommand(setup, s.cur), false, lines);
      case MatchingRom => Reads(s.ow, lines);
      case RequestingConvert => IdleStays(s.ow, lines);
      case Relaxing => IdleStays(s.ow, lines);
      case Idling => Resets(s.ow, lines);
      case Converting => Resets(s.ow, lines);
      case ReadingScratchpad =>
        Resets(s.ow, lines);
        IdleStays(s.ow, lines);
    }
  }

  ghost predicate AllAmple(ls: seq<seq<bool>>) { forall k :: 0 <= k < |ls| ==> Ample(ls[k]) }

  lemma TurnsUnfold(s: Node, setup: Setup, ls: seq<seq<bool>>)
    requires |s.image| == |setup.roms| && ls != []
    ensures var (s1, log) := Run(s, setup, Turn(ls[0]));
            && |s1.image| == |setup.roms|
            && Run(s, setup, Turns(ls)) == (Run(s1, setup, Turns(ls[1..])).0, log + Run(s1, setup, Turns(ls[1..])).1)
  {
    RunConcat(s, setup, Turn(ls[0]), Turns(ls[1..]));
    hide Run, Turn;
  }

  lemma ReadySize(s: Node, setup: Setup, m: State)
    requires Ready(s, setup, m)
    ensures |s.image| == |setup.roms|
  {
  }

  /** Three turns read one sensor. */
  lemma ReadsOne(s: Node, setup: Setup, ls: seq<seq<bool>>) returns (s': Node, log: seq<Log>)
    requires Ready(s, setup, InitingBeforeRead) && s.cur < |setup.roms| && AllAmple(ls) && |ls| >= 3
    ensures |s.image| == |s'.image| == |setup.roms|
    ensures Run(s, setup, Turns(ls)) == (Run(s', setup, Turns(ls[3..])).0, log + Run(s', setup, Turns(ls[3..])).1)
    ensures |log| == 1 && log[0].sensor == s.cur && s'.cur == s.cur + 1
    ensures Ready(s', setup, if s'.cur < |setup.roms| then InitingBeforeRead else Relaxing)
  {
    ReadySize(s, setup, InitingBeforeRead);
    hide Ready, Run, Turn, Turns, Ample;
    TurnsUnfold(s, setup, ls);
    TurnGoesOn(s, setup, InitingBeforeRead, ls[0]);
    var s1 := Run(s, setup, Turn(ls[0])).0;
    TurnsUnfold(s1, setup, ls[1..]);
    TurnGoesOn(s1, setup, MatchingRom, ls[1]);
    var s2 := Run(s1, setup, Turn(ls[1])).0;
    assert ls[1..][1..] == ls[2..] && ls[2..][1..] == ls[3..];
    TurnsUnfold(s2, setup, ls[2..]);
    TurnGoesOn(s2, setup, ReadingScratchpad, ls[2]);
    s', log := Run(s2, setup, Turn(ls[2])).0, Run(s2, setup, Turn(ls[2])).1;
    ReadySize(s', setup, Following(ReadingScratchpad, s.cur, |setup.roms|));
    NoLogs(log + Run(s', setup, Turns(ls[3..])).1);
  }

  lemma NoLogs(log: seq<Log>)
    ensures [] + log == log
  {
  }

  /** The sensors from cur on. */
  lemma {:induction false} ReadsRest(s: Node, setup: Setup, ls: seq<seq<bool>>)
    requires Ready(s, setup, InitingBeforeRead) && s.cur < |setup.roms| && |s.image| == |setup.roms|
    requires AllAmple(ls) && |ls| == 3 * (|setup.roms| - s.cur)
    ensures var (s', log) := Run(s, setup, Turns(ls));
            && Ready(s', setup, Relaxing) && |log| == |setup.roms| - s.cur
            && forall k :: 0 <= k < |log| ==> log[k].sensor == s.cur + k
    decreases |ls|
  {
    var s1, one := ReadsOne(s, setup, ls);
    hide Ready, Run, Turn, Turns, Ample;
    if s1.cur < |setup.roms| {
      ReadsRest(s1, setup, ls[3..]);
    } else {
      assert ls[3..] == [];
      NoTurns(s1, setup);
    }
  }

  /** A round: from idling each sensor is read once, in order, and the measurement is back
      where it began, after five polls and three for each sensor. */
  lemma RoundReadsAll(s: Node, setup: Setup, ls: seq<seq<bool>>)
    requires s.m == Idling && s.ow.st == Idle && |s.image| == |setup.roms| > 0
    requires AllAmple(ls) && |ls| == 5 + 3 * |setup.roms|
    ensures var (s', log) := Run(s, setup, Turns(ls));
            && s'.m == Idling && s'.ow.st == Idle && |s'.image| == |setup.roms|
            && |log| == |setup.roms| && forall k :: 0 <= k < |log| ==> log[k].sensor == k
  {
    var n := |setup.roms|;
    var begin, read, end := ls[..4], ls[4..4 + 3 * n], ls[4 + 3 * n..];
    assert ls == begin + (read + end);
    assert AllAmple(begin) && AllAmple(read) && AllAmple(end);
    assert Ready(s, setup, Idling);
    hide *;
    TurnsConcat(begin, read + end);
    TurnsConcat(read, end);
    var s1 := Begins(s, setup, begin);
    ReadySize(s1, setup, InitingBeforeRead);
    ReadsRest(s1, setup, read);
    var (s2, log) := Run(s1, setup, Turns(read));
    ReadySize(s2, setup, Relaxing);
    var s3 := Closes(s2, setup, end);
    Joins(s, setup, Turns(begin), s1, Turns(read), s2, log, Turns(end), s3);
  }

  lemma Joins(s: Node, setup: Setup, a: seq<Event>, s1: Node, b: seq<Event>, s2: Node, log: seq<Log>,
              c: seq<Event>, s3: Node)
    requires |s.image| == |s1.image| == |s2.image| == |setup.roms|
    requires Run(s, setup, a) == (s1, []) && Run(s1, setup, b) == (s2, log) && Run(s2, setup, c) == (s3, [])
    ensures Run(s, setup, a + (b + c)) == (s3, log)
  {
    RunConcat(s1, setup, b, c);
    RunConcat(s, setup, a, b + c);
    NoLogs(log);
    assert log + [] == log;
    hide Run;
  }

  /** The last turn. */
  lemma Closes(s2: Node, setup: Setup, end: seq<seq<bool>>) returns (s3: Node)
    requires Ready(s2, setup, Relaxing) && |s2.image| == |setup.roms| && AllAmple(end) && |end| == 1
    ensures Run(s2, setup, Turns(end)) == (s3, [])
    ensures s3.m == Idling && s3.ow.st == Idle && |s3.image| == |setup.roms|
  {
    hide Run, Turn, Turns, Ample;
    TurnsUnfold(s2, setup, end);
    TurnGoesOn(s2, setup, Relaxing, end[0]);
    s3 := Run(s2, setup, Turn(end[0])).0;
    assert end[1..] == [];
    ReadySize(s3, setup, Idling);
    NoTurns(s3, setup);
    NoLogs([]);
  }

  /** Up to the first reset before a read. */
  lemma Begins(s: Node, setup: Setup, ls: seq<seq<bool>>) returns (s': Node)
    requires Ready(s, setup, Idling) && AllAmple(ls) && |ls| == 4
    ensures Run(s, setup, Turns(ls)) == (s', []) && Ready(s', setup, InitingBeforeRead) && s'.cur == 0
  {
    ReadySize(s, setup, Idling);
    hide Ready, Run, Turn, Turns, Ample;
    TurnsUnfold(s, setup, ls);
    TurnGoesOn(s, setup, Idling, ls[0]);
    var s1 := Run(s, setup, Turn(ls[0])).0;
    TurnsUnfold(s1, setup, ls[1..]);
    TurnGoesOn(s1, setup, InitingBeforeConvert, ls[1]);
    var s2 := Run(s1, setup, Turn(ls[1])).0;
    assert ls[1..][1..] == ls[2..] && ls[2..][1..] == ls[3..] && ls[3..][1..] == [];
    TurnsUnfold(s2, setup, ls[2..]);
    TurnGoesOn(s2, setup, RequestingConvert, ls[2]);
    var s3 := Run(s2, setup, Turn(ls[2])).0;
    TurnsUnfold(s3, setup, ls[3..]);
    TurnGoesOn(s3, setup, Converting, ls[3]);
    s' := Run(s3, setup, Turn(ls[3])).0;
    ReadySize(s', setup, InitingBeforeRead);
    NoTurns(s', setup);
  }

  lemma {:induction false} TurnsConcat(a: seq<seq<bool>>, b: seq<seq<bool>>)
    ensures Turns(a + b) == Turns(a) + Turns(b)
    decreases |a|
  {
    hide Turn;
    if a == [] {
      assert a + b == b && [] + Turns(b) == Turns(b);
    } else {
      assert (a + b)[1..] == a[1..] + b;
      TurnsConcat(a[1..], b);
      EventsAssoc(Turn(a[0]), Turns(a[1..]), Turns(b));
    }
  }

  lemma EventsAssoc(a: seq<Event>, b: seq<Event>, c: seq<Event>)
    ensures a + (b + c) == a + b + c
  {
    hide *;
  }

  lemma NoTurns(s: Node, setup: Setup)
    requires |s.image| == |setup.roms|
    ensures Run(s, setup, Turns([])) == (s, [])
  {
  }
}
