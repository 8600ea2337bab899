/** The PRU's polled 1-Wire bit engine as the ROM search uses it: two read slots and a
    write slot per triplet. Time, bus level and commands come from outside; every poll
    is one atomic step.
  */
module PruTriplet {
  import opened PruTimer
  import opened OwBus

  const READ_INIT := Us(1)
  const READ_SAMPLE := Us(15)
  const WRITE0_PULSE := Us(64)
  const WRITE1_PULSE := Us(1)
  const SLOT := Us(100)

  // ---------- the machine ----------

  datatype OwState = Idle | Searching
  datatype BitIo = FinishedOk | FinishedError | ReadPulse | WaitSample | WaitSlotEnd
  datatype Drive = Released | Pulled | Strong

  datatype Response = Result00 | Result0 | Result1 | Result11 | ReadFailure | WriteFailure

  /** The host's reading of a search response. */
  function HostView(r: Response): Triplet {
    match r
    case Result00 => Both
    case Result0 => AllOnes
    case Result1 => AllZeros
    case _ => Nobody
  }

  /** The static variables of the machine. Of the data buffer only the direction byte
      and the three low bits of byte 0 take part in a search. */
  datatype State = State(
    st: OwState, io: BitIo, bitIdx: nat, t0: Tick, keepPower: bool,
    bit0: bool, bit1: bool, bit2: bool, dir: bool, drive: Drive)

  /** What one poll does to the outside. */
  datatype Output = Output(response: seq<Response>, sample: seq<bool>)

  const QUIET := Output([], [])

  function Start(s: State, dir: bool): State {
    s.(dir := dir, bitIdx := 0, st := Searching)
  }

  function ReadBit(s: State, now: Tick, low: bool): (State, Output) {
    match s.io
    case FinishedOk | FinishedError =>
      if low then (s.(io := FinishedError), QUIET)
      else (s.(drive := Pulled, t0 := now, io := ReadPulse), QUIET)
    case ReadPulse =>
      if Elapsed(now, s.t0) > READ_INIT then (s.(drive := Released, io := WaitSample), QUIET) else (s, QUIET)
    case WaitSample =>
      if Elapsed(now, s.t0) > READ_SAMPLE then
        var s' := s.(io := WaitSlotEnd);
        (if s.bitIdx == 0 then s'.(bit0 := !low) else s'.(bit1 := !low), Output([], [!low]))
      else (s, QUIET)
    case WaitSlotEnd =>
      if Elapsed(now, s.t0) > SLOT then (s.(io := FinishedOk), QUIET) else (s, QUIET)
  }

  function WriteBit(s: State, now: Tick, low: bool): State {
    match s.io
    case FinishedOk | FinishedError =>
      if low then s.(io := FinishedError) else s.(drive := Pulled, t0 := now, io := WaitSample)
    case WaitSample =>
      if Elapsed(now, s.t0) > (if s.bit2 then WRITE1_PULSE else WRITE0_PULSE) then
        s.(drive := if s.keepPower then Strong else Released, keepPower := false, io := WaitSlotEnd)
      else s
    case WaitSlotEnd =>
      if Elapsed(now, s.t0) > SLOT then s.(io := FinishedOk) else s
    case ReadPulse => s.(io := FinishedError)
  }

  /** A poll in one of the two read slots. */
  function PollRead(s: State, now: Tick, low: bool): (State, Output) {
    var (r, out) := ReadBit(s, now, low);
    match r.io
    case FinishedError => (r.(st := Idle), Output([ReadFailure], out.sample))
    case FinishedOk =>
      if s.bitIdx == 0 then (r.(bitIdx := 1), out)
      else if r.bit0 && r.bit1 then (r.(bitIdx := 2, st := Idle), Output([Result11], out.sample))
      else if r.bit0 || r.bit1 then (r.(bitIdx := 2, bit2 := r.bit0), out)
      else (r.(bitIdx := 2, bit2 := r.dir), out)
    case _ => (r, out)
  }

  /** A poll in the write slot. */
  function PollWrite(s: State, now: Tick, low: bool): (State, Output) {
    var w := WriteBit(s, now, low);
    match w.io
    case FinishedError => (w.(st := Idle), Output([WriteFailure], []))
    case FinishedOk =>
      (w.(st := Idle),
       Output([if w.bit0 then (if w.bit1 then Result11 else Result0) else if w.bit1 then Result1 else Result00], []))
    case _ => (w, QUIET)
  }

  function Poll(s: State, now: Tick, low: bool): (State, Output) {
    if s.st == Idle || s.bitIdx > 2 then (s, QUIET)
    else if s.bitIdx <= 1 then PollRead(s, now, low)
    else PollWrite(s, now, low)
  }

  // ---------- the machine as it runs: static variables changed poll by poll ----------

  class PruOw {
    var sState: OwState
    var sBitIoState: BitIo
    var sBitidx: nat
    var sT0: Tick
    var sKeepPower: bool
    var owData: array<bool>
    var direction: bool
    var drive: Drive

    ghost predicate Valid()
      reads this
    {
      owData.Length == 3 && sBitidx <= 2
    }

    ghost function View(): State
      reads this, owData
      requires Valid()
    {
      State(sState, sBitIoState, sBitidx, sT0, sKeepPower, owData[0], owData[1], owData[2], direction, drive)
    }

    method Search(dir: bool)
      requires Valid()
      modifies this
      ensures Valid() && owData == old(owData)
      ensures View() == Start(old(View()), dir)
    {
      direction := dir;
      sBitidx := 0;
      sState := Searching;
    }

    method ReadSlot(now: Tick, low: bool) returns (sample: seq<bool>)
      requires Valid() && sBitidx <= 1
      modifies this, owData
      ensures Valid() && owData == old(owData)
      ensures (View(), Output([], sample)) == ReadBit(old(View()), now, low)
      ensures sBitidx == old(sBitidx)
    {
      sample := [];
      match sBitIoState {
        case FinishedOk | FinishedError =>
          if low {
            sBitIoState := FinishedError;
          } else {
            drive, sT0, sBitIoState := Pulled, now, ReadPulse;
          }
        case ReadPulse =>
          if Elapsed(now, sT0) > READ_INIT {
            drive, sBitIoState := Released, WaitSample;
          }
        case WaitSample =>
          if Elapsed(now, sT0) > READ_SAMPLE {
            owData[sBitidx] := !low;
            sample := [!low];
            sBitIoState := WaitSlotEnd;
          }
        case WaitSlotEnd =>
          if Elapsed(now, sT0) > SLOT {
            sBitIoState := FinishedOk;
          }
      }
    }

    method WriteSlot(now: Tick, low: bool)
      requires Valid() && sBitidx == 2
      modifies this
      ensures Valid() && owData == old(owData)
      ensures View() == WriteBit(old(View()), now, low)
    {
      match sBitIoState {
        case FinishedOk | FinishedError =>
          if low {
            sBitIoState := FinishedError;
          } else {
            drive, sT0, sBitIoState := Pulled, now, WaitSample;
          }
        case WaitSample =>
          if Elapsed(now, sT0) > (if owData[sBitidx] then WRITE1_PULSE else WRITE0_PULSE) {
            if sKeepPower {
              drive, sKeepPower := Strong, false;
            } else {
              drive := Released;
            }
            sBitIoState := WaitSlotEnd;
          }
        case WaitSlotEnd =>
          if Elapsed(now, sT0) > SLOT {
            sBitIoState := FinishedOk;
          }
        case ReadPulse =>
          sBitIoState := FinishedError;
      }
    }

    method SearchRead(now: Tick, low: bool) returns (response: seq<Response>, sample: seq<bool>)
      requires Valid() && sBitidx <= 1
      modifies this, owData
      ensures Valid() && owData == old(owData)
      ensures (View(), Output(response, sample)) == PollRead(old(View()), now, low)
    {
      hide ReadBit;
      response := [];
      sample := ReadSlot(now, low);
      if sBitIoState == FinishedError {
        response := [ReadFailure];
        sState := Idle;
      } else if sBitIoState == FinishedOk {
        sBitidx := sBitidx + 1;
        if sBitidx == 2 {
          if owData[0] && owData[1] {
            response := [Result11];
            sState := Idle;
          } else if owData[0] || owData[1] {
            owData[2] := owData[0];
          } else {
            owData[2] := direction;
          }
        }
      }
    }

    method SearchWrite(now: Tick, low: bool) returns (response: seq<Response>)
      requires Valid() && sBitidx == 2
      modifies this
      ensures Valid() && owData == old(owData)
      ensures (View(), Output(response, [])) == PollWrite(old(View()), now, low)
    {
      hide WriteBit;
      response := [];
      WriteSlot(now, low);
      if sBitIoState == FinishedError {
        response := [WriteFailure];
        sState := Idle;
      } else if sBitIoState == FinishedOk {
        if owData[0] {
          response := [if owData[1] then Result11 else Result0];
        } else {
          response := [if owData[1] then Result1 else Result00];
        }
        sState := Idle;
      }
    }

    method SmDo(now: Tick, low: bool) returns (response: seq<Response>, sample: seq<bool>)
      requires Valid()
      modifies this, owData
      ensures Valid() && owData == old(owData)
      ensures (View(), Output(response, sample)) == Poll(old(View()), now, low)
    {
      hide PollRead, PollWrite;
      response, sample := [], [];
      if sState == Idle {
        return;
      }
      if sBitidx <= 1 {
        response, sample := SearchRead(now, low);
      } else {
        response := SearchWrite(now, low);
      }
    }
  }

  // ---------- whole runs ----------

  datatype Event = Event(now: Tick, low: bool)

  /** The state after the polls, with everything sent and sampled. */
  function Run(s: State, events: seq<Event>): (State, Output)
  {
    if events == [] then (s, QUIET)
    else
      var (s1, o1) := Run(s, events[..|events| - 1]);
      var (s2, o2) := Poll(s1, events[|events| - 1].now, events[|events| - 1].low);
      (s2, Join(o1, o2))
  }

  /** Ready for a search command: between slots, bus released, no power request left. */
  ghost predicate Ready(s: State) {
    s.st == Idle && (s.io == FinishedOk || s.io == FinishedError) && s.drive == Released && !s.keepPower
  }

  /** What two samples of a wired-AND bus say about the participants. */
  function FromSamples(first: bool, second: bool): Triplet {
    if first then (if second then Nobody else AllOnes) else if second then AllZeros else Both
  }

  /** During a triplet: nothing sent yet, and the buffer holds the samples taken. */
  ghost predicate UnderWay(s: State, out: Output, dir: bool) {
    && out.response == []
    && s.bitIdx <= 2
    && (s.io == FinishedOk || s.io == WaitSlotEnd || (s.bitIdx < 2 && s.io == WaitSample) ==> s.drive == Released)
    && (s.io == ReadPulse ==> s.bitIdx < 2 && s.drive == Pulled)
    && (s.io == FinishedError ==> s.bitIdx == 0 && s.drive == Released)
    && |out.sample| == (if s.bitIdx < 2 && s.io == WaitSlotEnd then s.bitIdx + 1 else s.bitIdx)
    && (|out.sample| >= 1 ==> s.bit0 == out.sample[0])
    && (|out.sample| >= 2 ==> s.bit1 == out.sample[1])
    && (s.bitIdx == 2 ==>
          var answer := FromSamples(s.bit0, s.bit1);
          answer != Nobody && s.bit2 == Written(answer, dir))
  }

  /** After it: one response, telling the two samples. */
  ghost predicate Over(s: State, out: Output, dir: bool) {
    && |out.response| == 1
    && s.drive == Released && (s.io == FinishedOk || s.io == FinishedError)
    && (out.response[0] == ReadFailure ==> |out.sample| < 2)
    && (out.response[0] == WriteFailure ==> |out.sample| == 2)
    && (out.response[0] != ReadFailure && out.response[0] != WriteFailure ==>
          && |out.sample| == 2 && s.io == FinishedOk && s.bitIdx == 2
          && s.bit0 == out.sample[0] && s.bit1 == out.sample[1]
          && HostView(out.response[0]) == FromSamples(out.sample[0], out.sample[1])
          && (HostView(out.response[0]) != Nobody ==> s.bit2 == Written(HostView(out.response[0]), dir)))
  }

  ghost predicate RunInvariant(s: State, out: Output, dir: bool) {
    && !s.keepPower
    && s.dir == dir
    && if s.st == Searching then UnderWay(s, out, dir) else Over(s, out, dir)
  }

  function Join(a: Output, b: Output): Output { Output(a.response + b.response, a.sample + b.sample) }

  lemma ReadKeeps(s: State, out: Output, dir: bool, now: Tick, low: bool)
    requires RunInvariant(s, out, dir) && s.st == Searching && s.bitIdx <= 1
    ensures var (s', o) := PollRead(s, now, low);
            RunInvariant(s', Join(out, o), dir)
  {
    hide Elapsed;
    match s.io
    case FinishedOk | FinishedError | ReadPulse => ReadStarts(s, out, dir, now, low);
    case WaitSample => ReadSamples(s, out, dir, now, low);
    case WaitSlotEnd => ReadEnds(s, out, dir, now, low);
  }

  lemma ReadStarts(s: State, out: Output, dir: bool, now: Tick, low: bool)
    requires RunInvariant(s, out, dir) && s.st == Searching && s.bitIdx <= 1
    requires s.io == FinishedOk || s.io == FinishedError || s.io == ReadPulse
    ensures var (s', o) := PollRead(s, now, low);
            RunInvariant(s', Join(out, o), dir)
  {
    if s.io == ReadPulse {
      PulseEnds(s, now, low);
      JoinQuiet(out);
      hide PollRead, Join;
    } else if low {
      hide Elapsed;
    } else {
      SlotPulls(s, now);
      JoinQuiet(out);
      hide PollRead, Join;
    }
  }

  lemma JoinQuiet(out: Output)
    ensures Join(out, QUIET) == out
  {
  }

  lemma PulseEnds(s: State, now: Tick, low: bool)
    requires s.io == ReadPulse
    ensures PollRead(s, now, low) == (s, QUIET)
            || PollRead(s, now, low) == (s.(drive := Released, io := WaitSample), QUIET)
  {
    hide Elapsed;
  }

  lemma SlotPulls(s: State, now: Tick)
    requires s.io == FinishedOk || s.io == FinishedError
    ensures PollRead(s, now, false) == (s.(drive := Pulled, t0 := now, io := ReadPulse), QUIET)
  {
  }

  lemma ReadSamples(s: State, out: Output, dir: bool, now: Tick, low: bool)
    requires RunInvariant(s, out, dir) && s.st == Searching && s.bitIdx <= 1
    requires s.io == WaitSample
    ensures var (s', o) := PollRead(s, now, low);
            RunInvariant(s', Join(out, o), dir)
  {
    hide Elapsed;
    var (s', o) := PollRead(s, now, low);
    if Elapsed(now, s.t0) <= READ_SAMPLE {
      assert s' == s && Join(out, o) == out;
    } else if s.bitIdx == 0 {
      assert s' == s.(io := WaitSlotEnd, bit0 := !low) && out.sample == [];
      assert Join(out, o) == Output([], [!low]);
    } else {
      assert s' == s.(io := WaitSlotEnd, bit1 := !low) && out.sample == [s.bit0];
      assert Join(out, o) == Output([], [s.bit0, !low]);
    }
  }

  /** How a read slot ends. */
  function AfterSlot(s: State): (State, Output) {
    var r := s.(io := FinishedOk, bitIdx := s.bitIdx + 1);
    if s.bitIdx == 0 then (r, QUIET)
    else if s.bit0 && s.bit1 then (r.(st := Idle), Output([Result11], []))
    else (r.(bit2 := if s.bit0 || s.bit1 then s.bit0 else s.dir), QUIET)
  }

  lemma SlotEnds(s: State, now: Tick, low: bool)
    requires s.st == Searching && s.bitIdx <= 1 && s.io == WaitSlotEnd
    ensures PollRead(s, now, low) == if Elapsed(now, s.t0) > SLOT then AfterSlot(s) else (s, QUIET)
  {
    hide Elapsed;
  }

  lemma ReadEnds(s: State, out: Output, dir: bool, now: Tick, low: bool)
    requires RunInvariant(s, out, dir) && s.st == Searching && s.bitIdx <= 1
    requires s.io == WaitSlotEnd
    ensures var (s', o) := PollRead(s, now, low);
            RunInvariant(s', Join(out, o), dir)
  {
    SlotEnds(s, now, low);
    hide Elapsed, PollRead;
    var (s', o) := PollRead(s, now, low);
    assert Join(out, o).sample == out.sample && Join(out, o).response == o.response;
  }

  lemma WriteKeeps(s: State, out: Output, dir: bool, now: Tick, low: bool)
    requires RunInvariant(s, out, dir) && s.st == Searching && s.bitIdx == 2
    ensures var (s', o) := PollWrite(s, now, low);
            RunInvariant(s', Join(out, o), dir)
  {
    hide Elapsed;
    var (s', o) := PollWrite(s, now, low);
    assert out.response + o.response == o.response;
    assert out.sample + o.sample == out.sample;
  }

  lemma RunKeeps(s: State, out: Output, dir: bool, now: Tick, low: bool)
    requires RunInvariant(s, out, dir)
    ensures var (s', o) := Poll(s, now, low);
            RunInvariant(s', Join(out, o), dir)
  {
    hide PollRead, PollWrite;
    if s.st == Idle {
      assert Join(out, QUIET) == out;
    } else if s.bitIdx <= 1 {
      ReadKeeps(s, out, dir, now, low);
    } else {
      WriteKeeps(s, out, dir, now, low);
    }
  }

  /** However the polls fall and whatever the bus does, a triplet sends exactly one
      response; unless a slot could not start, it reports the two bits that were
      sampled, and the bit written is the shared one or the requested direction. */
  lemma {:induction false} TripletRun(s: State, dir: bool, events: seq<Event>)
    requires Ready(s)
    ensures var (s', out) := Run(Start(s, dir), events);
            RunInvariant(s', out, dir)
  {
    if events != [] {
      var before := events[..|events| - 1];
      TripletRun(s, dir, before);
      var (s1, o1) := Run(Start(s, dir), before);
      RunKeeps(s1, o1, dir, events[|events| - 1].now, events[|events| - 1].low);
    }
  }

  // ---------- on a bus with devices ----------

  /** The line level that a poll sees, where the machine looks at it: high when a slot is to
      begin; when the first read slot is sampled low if some device has a zero, in the second
      low if some device has a one. */
  predicate LineFits(s: State, now: Tick, low: bool, active: set<Code>, i: nat)
    requires forall r :: r in active ==> i < |r|
  {
    s.st == Searching ==>
      && (s.io == FinishedOk || s.io == FinishedError ==> !low)
      && (s.io == WaitSample && Elapsed(now, s.t0) > READ_SAMPLE ==>
            && (s.bitIdx == 0 ==> low == exists r :: r in active && !r[i])
            && (s.bitIdx == 1 ==> low == exists r :: r in active && r[i]))
  }

  /** No failure so far, and the samples are those of the bus. */
  ghost predicate OnBus(s: State, out: Output, dir: bool, active: set<Code>, i: nat)
    requires forall r :: r in active ==> i < |r|
  {
    && RunInvariant(s, out, dir)
    && out.response != [ReadFailure] && out.response != [WriteFailure]
    && (|out.sample| >= 1 ==> out.sample[0] == !(exists r :: r in active && !r[i]))
    && (|out.sample| >= 2 ==> out.sample[1] == !(exists r :: r in active && r[i]))
  }

  /** When a poll takes a sample, and when it fails. */
  ghost predicate Outputs(s: State, out: Output, now: Tick, low: bool, o: Output) {
    && (o.sample == [] || (o.sample == [!low] && s.io == WaitSample && Elapsed(now, s.t0) > READ_SAMPLE
                           && |out.sample| == s.bitIdx <= 1))
    && (o.response == [ReadFailure] || o.response == [WriteFailure]
      ==> low && (s.io == FinishedOk || s.io == FinishedError))
  }

  lemma PollOutputs(s: State, out: Output, dir: bool, now: Tick, low: bool)
    requires UnderWay(s, out, dir) && s.st == Searching
    ensures Outputs(s, out, now, low, Poll(s, now, low).1)
  {
    if s.bitIdx <= 1 {
      ReadOutputs(s, out, dir, now, low);
    } else {
      WriteOutputs(s, out, dir, now, low);
    }
    hide Outputs, PollRead, PollWrite;
  }

  lemma ReadOutputs(s: State, out: Output, dir: bool, now: Tick, low: bool)
    requires UnderWay(s, out, dir) && s.bitIdx <= 1
    ensures Outputs(s, out, now, low, PollRead(s, now, low).1)
  {
    hide Elapsed;
    SlotOutputs(s, now, low);
    assert s.io == WaitSample ==> |out.sample| == s.bitIdx;
    hide ReadBit, UnderWay;
  }

  lemma SlotOutputs(s: State, now: Tick, low: bool)
    ensures var (r, o) := ReadBit(s, now, low);
            && o.response == []
            && (o.sample == [] || (o.sample == [!low] && s.io == WaitSample && Elapsed(now, s.t0) > READ_SAMPLE))
            && (r.io == FinishedError ==> low && (s.io == FinishedOk || s.io == FinishedError))
  {
    hide Elapsed;
  }

  lemma WriteOutputs(s: State, out: Output, dir: bool, now: Tick, low: bool)
    requires UnderWay(s, out, dir) && s.bitIdx == 2
    ensures Outputs(s, out, now, low, PollWrite(s, now, low).1)
  {
    assert s.io != ReadPulse && WriteBit(s, now, low).io == FinishedError
      ==> low && (s.io == FinishedOk || s.io == FinishedError);
    hide Elapsed, WriteBit;
  }

  lemma OnBusKeeps(s: State, out: Output, dir: bool, now: Tick, low: bool, active: set<Code>, i: nat)
    requires forall r :: r in active ==> i < |r|
    requires OnBus(s, out, dir, active, i) && LineFits(s, now, low, active, i)
    ensures var (s', o) := Poll(s, now, low); OnBus(s', Join(out, o), dir, active, i)
    ensures s.st == Searching ==> out.response == []
  {
    hide *;
    OnBusRuns(s, out, dir, active, i);
    RunKeeps(s, out, dir, now, low);
    if s.st == Searching {
      UnderWayQuiet(s, out, dir);
      PollOutputs(s, out, dir, now, low);
      OnBusJoins(s, out, dir, now, low, active, i);
    } else {
      OnBusRests(s, out, dir, now, low, active, i);
    }
  }

  lemma OnBusJoins(s: State, out: Output, dir: bool, now: Tick, low: bool, active: set<Code>, i: nat)
    requires forall r :: r in active ==> i < |r|
    requires OnBus(s, out, dir, active, i) && LineFits(s, now, low, active, i) && s.st == Searching
             && out.response == []
    requires Outputs(s, out, now, low, Poll(s, now, low).1)
    requires RunInvariant(Poll(s, now, low).0, Join(out, Poll(s, now, low).1), dir)
    ensures var (s', o) := Poll(s, now, low); OnBus(s', Join(out, o), dir, active, i)
  {
    var (s', o) := Poll(s, now, low);
    hide Poll, Elapsed, RunInvariant;
    assert Join(out, o).response == o.response && Join(out, o).sample == out.sample + o.sample;
  }

  lemma OnBusRests(s: State, out: Output, dir: bool, now: Tick, low: bool, active: set<Code>, i: nat)
    requires forall r :: r in active ==> i < |r|
    requires OnBus(s, out, dir, active, i) && s.st == Idle
    ensures var (s', o) := Poll(s, now, low); OnBus(s', Join(out, o), dir, active, i)
  {
    assert Join(out, QUIET) == out;
    hide RunInvariant, PollRead, PollWrite;
  }

  lemma UnderWayQuiet(s: State, out: Output, dir: bool)
    requires RunInvariant(s, out, dir) && s.st == Searching
    ensures out.response == [] && UnderWay(s, out, dir)
  {
  }

  /** The response then is the bus's answer, and the devices that follow the written bit are
      the chosen ones. */
  lemma TripletAnswers(s: State, out: Output, dir: bool, active: set<Code>, i: nat)
    requires forall r :: r in active ==> i < |r|
    requires OnBus(s, out, dir, active, i) && s.st == Idle
    ensures |out.response| == 1 && HostView(out.response[0]) == Answer(active, i)
    ensures Answer(active, i) != Nobody ==> s.bit2 == Written(Answer(active, i), dir)
    ensures Ready(s)
  {
  }

  /** Each event shows the level of the bus. */
  ghost predicate Wired(s: State, events: seq<Event>, active: set<Code>, i: nat)
    requires forall r :: r in active ==> i < |r|
  {
    forall k :: 0 <= k < |events| ==> LineFits(Run(s, events[..k]).0, events[k].now, events[k].low, active, i)
  }

  /** On a wired-AND bus no triplet fails; its response is the bus's answer, and the devices
      that follow the written bit are the chosen ones. */
  lemma {:induction false} TripletOnBus(s: State, dir: bool, events: seq<Event>, active: set<Code>, i: nat)
    requires Ready(s)
    requires forall r :: r in active ==> i < |r|
    requires Wired(Start(s, dir), events, active, i)
    ensures var (s', out) := Run(Start(s, dir), events);
            && OnBus(s', out, dir, active, i)
            && (s'.st == Idle ==>
                  && out.response != [] && HostView(out.response[0]) == Answer(active, i)
                  && (Answer(active, i) != Nobody ==>
                        (set r | r in active && r[i] == s'.bit2) == Chosen(active, i, Written(Answer(active, i), dir))))
  {
    hide *;
    var (s', out) := Run(Start(s, dir), events);
    if events == [] {
      RunNone(Start(s, dir), events);
      StartOnBus(s, dir, active, i);
    } else {
      var n := |events| - 1;
      WiredSnoc(Start(s, dir), events, active, i);
      TripletOnBus(s, dir, events[..n], active, i);
      var (s1, o1) := Run(Start(s, dir), events[..n]);
      OnBusKeeps(s1, o1, dir, events[n].now, events[n].low, active, i);
    }
    if s'.st == Idle {
      TripletAnswers(s', out, dir, active, i);
      FollowersChosen(active, i, s'.bit2);
    }
  }

  lemma RunNone(s: State, events: seq<Event>)
    requires events == []
    ensures Run(s, events) == (s, QUIET)
  {
  }

  lemma WiredSnoc(s: State, events: seq<Event>, active: set<Code>, i: nat)
    requires forall r :: r in active ==> i < |r|
    requires events != [] && Wired(s, events, active, i)
    ensures var n := |events| - 1;
            var (s1, o1) := Run(s, events[..n]);
            var (s2, o2) := Poll(s1, events[n].now, events[n].low);
            && Wired(s, events[..n], active, i) && LineFits(s1, events[n].now, events[n].low, active, i)
            && Run(s, events) == (s2, Join(o1, o2))
  {
    var n := |events| - 1;
    assert forall k :: 0 <= k < n ==> events[..n][..k] == events[..k];
    assert Run(s, events).0 == Poll(Run(s, events[..n]).0, events[n].now, events[n].low).0;
    hide LineFits, Poll, Join;
  }

  lemma FollowersChosen(active: set<Code>, i: nat, bit: bool)
    requires forall r :: r in active ==> i < |r|
    ensures (set r | r in active && r[i] == bit) == Chosen(active, i, bit)
  {
  }

  // ---------- a triplet ends ----------

  /** What n slots can take with polls at most g apart. */
  function Slots(n: nat, g: nat): int { if n == 0 then 0 else Us(100) + 4 * g + Slots(n - 1, g) }

  /** The age of a read slot at the last poll before the one that samples it, at most. */
  function SampleLast(g: nat): nat { if READ_SAMPLE < READ_INIT + g then READ_INIT + g else READ_SAMPLE }

  /** The machine, last polled at last, will be done by due; b is when its slot began. */
  ghost predicate InTime(s: State, b: int, last: int, due: int, g: nat, off: int) {
    s.st == Searching ==>
      && s.bitIdx <= 2
      && if s.io == FinishedOk || s.io == FinishedError then
           last + Slots(3 - s.bitIdx, g) <= due && (s.bitIdx > 0 ==> last > b + SLOT)
         else
           && s.t0 == At(b, off) && b <= last && b + SLOT + 3 * g + Slots(2 - s.bitIdx, g) <= due
           && last <= b + (match s.io
                           case ReadPulse => READ_INIT
                           case WaitSample => if s.bitIdx < 2 then SampleLast(g) else WRITE0_PULSE
                           case _ => SLOT + 2 * g)
  }

  /** When the slot began that goes on after a poll at t. */
  function SlotStart(s: State, b: int, t: int): int {
    if s.st == Searching && (s.io == FinishedOk || s.io == FinishedError) then t else b
  }

  lemma InTimePoll(s: State, b: int, last: int, due: int, g: nat, off: int, t: int, low: bool)
    requires InTime(s, b, last, due, g, off) && last <= t <= last + g && SLOT + 3 * g < WRAP
    ensures InTime(Poll(s, At(t, off), low).0, SlotStart(s, b, t), t, due, g, off)
    ensures s.st == Searching ==> t <= due
  {
    if s.st == Searching {
      if s.io == FinishedOk || s.io == FinishedError {
        SlotBegins(s, last, due, g, off, t, low);
      } else {
        SlotGoesOn(s, b, last, due, g, off, t, low);
      }
    }
    hide InTime, At, PollRead, PollWrite;
  }

  lemma SlotBegins(s: State, last: int, due: int, g: nat, off: int, t: int, low: bool)
    requires s.st == Searching && s.bitIdx <= 2 && (s.io == FinishedOk || s.io == FinishedError)
    requires last + Slots(3 - s.bitIdx, g) <= due && last <= t <= last + g
    ensures InTime(Poll(s, At(t, off), low).0, t, t, due, g, off) && t <= due
  {
    hide Elapsed, At, Slots;
    SlotsGrow(3 - s.bitIdx, g);
    SlotStarts(s, At(t, off), low);
    hide Poll;
  }

  lemma SlotStarts(s: State, now: Tick, low: bool)
    requires s.st == Searching && s.bitIdx <= 2 && (s.io == FinishedOk || s.io == FinishedError)
    ensures var s' := Poll(s, now, low).0;
            || s'.st == Idle
            || (s'.st == Searching && s'.bitIdx == s.bitIdx && s'.t0 == now
                && s'.io == if s.bitIdx < 2 then ReadPulse else WaitSample)
  {
    hide Elapsed;
  }

  /** How long each stage of a slot lasts. */
  function Stage(s: State): nat {
    if s.io == ReadPulse then READ_INIT
    else if s.io == WaitSample
      then (if s.bitIdx < 2 then READ_SAMPLE else if s.bit2 then WRITE1_PULSE else WRITE0_PULSE)
    else SLOT
  }

  /** The ways a slot goes on. */
  ghost predicate Moves(s: State, s': State, age: int) {
    || s'.st == Idle
    || (age <= Stage(s) && s' == s)
    || (age > Stage(s) && s.io == WaitSlotEnd && s.bitIdx < 2 && s'.io == FinishedOk && s'.bitIdx == s.bitIdx + 1)
    || (s.io != WaitSlotEnd && s'.t0 == s.t0 && s'.bitIdx == s.bitIdx && (s.io == ReadPulse ==> s.bitIdx < 2)
        && s'.io == if s.io == ReadPulse then WaitSample else WaitSlotEnd)
  }

  lemma SlotMoves(s: State, now: Tick, low: bool)
    requires s.st == Searching && s.bitIdx <= 2 && (s.io == ReadPulse || s.io == WaitSample || s.io == WaitSlotEnd)
    ensures Moves(s, Poll(s, now, low).0, Elapsed(now, s.t0))
  {
    hide Elapsed, Moves, PollRead, PollWrite;
    if s.bitIdx <= 1 {
      ReadMoves(s, now, low);
    } else {
      WriteMoves(s, now, low);
    }
  }

  lemma ReadMoves(s: State, now: Tick, low: bool)
    requires s.st == Searching && s.bitIdx <= 1 && (s.io == ReadPulse || s.io == WaitSample || s.io == WaitSlotEnd)
    ensures Moves(s, PollRead(s, now, low).0, Elapsed(now, s.t0))
  {
    if s.io == WaitSlotEnd {
      SlotEnds(s, now, low);
      hide Elapsed, PollRead;
    } else {
      hide Elapsed;
    }
  }

  lemma WriteMoves(s: State, now: Tick, low: bool)
    requires s.st == Searching && s.bitIdx == 2 && (s.io == ReadPulse || s.io == WaitSample || s.io == WaitSlotEnd)
    ensures Moves(s, PollWrite(s, now, low).0, Elapsed(now, s.t0))
  {
    hide Elapsed;
  }

  lemma MovesInTime(s: State, s': State, b: int, last: int, due: int, g: nat, off: int, t: int)
    requires s.st == Searching && s.io != FinishedOk && s.io != FinishedError
    requires InTime(s, b, last, due, g, off) && last <= t <= last + g
    requires Moves(s, s', t - b) && Slots(2 - s.bitIdx, g) >= 0
    ensures InTime(s', b, t, due, g, off)
  {
    hide At, Slots;
  }

  lemma SlotGoesOn(s: State, b: int, last: int, due: int, g: nat, off: int, t: int, low: bool)
    requires s.st == Searching && s.io != FinishedOk && s.io != FinishedError
    requires InTime(s, b, last, due, g, off) && last <= t <= last + g && SLOT + 3 * g < WRAP
    ensures InTime(Poll(s, At(t, off), low).0, b, t, due, g, off) && t <= due
  {
    SlotAge(s, b, last, due, g, off, t);
    hide *;
    SlotMoves(s, At(t, off), low);
    MovesInTime(s, Poll(s, At(t, off), low).0, b, last, due, g, off, t);
  }

  lemma SlotAge(s: State, b: int, last: int, due: int, g: nat, off: int, t: int)
    requires s.st == Searching && s.io != FinishedOk && s.io != FinishedError
    requires InTime(s, b, last, due, g, off) && last <= t <= last + g && SLOT + 3 * g < WRAP
    ensures s.bitIdx <= 2 && (s.io == ReadPulse || s.io == WaitSample || s.io == WaitSlotEnd)
    ensures Elapsed(At(t, off), s.t0) == t - b && t <= due && Slots(2 - s.bitIdx, g) >= 0
  {
    SlotsGrow(2 - s.bitIdx, g);
    ElapsedIsDuration(t, b, off);
    hide Elapsed, At, Slots;
  }

  lemma {:induction false} SlotsGrow(n: nat, g: nat)
    ensures Slots(n, g) >= 0 && (n > 0 ==> Slots(n, g) == SLOT + 4 * g + Slots(n - 1, g) && Slots(n - 1, g) >= 0)
  {
    if n > 0 {
      SlotsGrow(n - 1, g);
    }
  }

  lemma StartOnBus(s: State, dir: bool, active: set<Code>, i: nat)
    requires Ready(s) && forall r :: r in active ==> i < |r|
    ensures OnBus(Start(s, dir), QUIET, dir, active, i)
  {
  }

  lemma StartInTime(s: State, dir: bool, time: int, g: nat, off: int)
    requires Ready(s)
    ensures InTime(Start(s, dir), time, time, time + Slots(3, g), g, off)
  {
    hide Slots, At;
  }

  /** Polls in true time. */
  datatype Sight = Sight(t: int, low: bool)

  function Seen(ps: seq<Sight>, off: int): seq<Event> {
    seq(|ps|, k requires 0 <= k < |ps| => Event(At(ps[k].t, off), ps[k].low))
  }

  /** Times do not go back and no gap is longer than g. */
  ghost predicate Spaced(start: int, ps: seq<Sight>, g: nat)
    decreases |ps|
  {
    ps == [] ||
    (var n := |ps| - 1; Spaced(start, ps[..n], g) && Last(start, ps[..n]) <= ps[n].t <= Last(start, ps[..n]) + g)
  }

  function Last(start: int, ps: seq<Sight>): int { if ps == [] then start else ps[|ps| - 1].t }

  lemma RunSnoc(s: State, ps: seq<Sight>, off: int)
    requires ps != []
    ensures var n := |ps| - 1;
            Run(s, Seen(ps, off)).0 == Poll(Run(s, Seen(ps[..n], off)).0, At(ps[n].t, off), ps[n].low).0
  {
    var n := |ps| - 1;
    assert Seen(ps, off)[..n] == Seen(ps[..n], off);
    hide At, Poll;
  }

  lemma SpacedSnoc(start: int, ps: seq<Sight>, g: nat)
    requires ps != [] && Spaced(start, ps, g)
    ensures var n := |ps| - 1;
            Spaced(start, ps[..n], g) && Last(start, ps[..n]) <= ps[n].t == Last(start, ps) <= Last(start, ps[..n]) + g
  {
  }

  lemma {:induction false} PolledInTime(s: State, dir: bool, start: int, ps: seq<Sight>, g: nat, off: int)
    returns (b: int)
    requires Ready(s) && Spaced(start, ps, g) && SLOT + 3 * g < WRAP
    ensures InTime(Run(Start(s, dir), Seen(ps, off)).0, b, Last(start, ps), start + Slots(3, g), g, off)
    ensures ps != [] && Last(start, ps) > start + Slots(3, g) ==> Run(Start(s, dir), Seen(ps, off)).0.st != Searching
    decreases |ps|
  {
    hide *;
    if ps == [] {
      b := start;
      NoPolls(Start(s, dir), start, ps, off);
      StartInTime(s, dir, start, g, off);
    } else {
      var n, due := |ps| - 1, start + Slots(3, g);
      SpacedSnoc(start, ps, g);
      RunSnoc(Start(s, dir), ps, off);
      b := PolledInTime(s, dir, start, ps[..n], g, off);
      var s1 := Run(Start(s, dir), Seen(ps[..n], off)).0;
      InTimePoll(s1, b, Last(start, ps[..n]), due, g, off, ps[n].t, ps[n].low);
      b := SlotStart(s1, b, ps[n].t);
      IdleStays(s1, At(ps[n].t, off), ps[n].low);
    }
  }

  lemma NoPolls(s: State, start: int, ps: seq<Sight>, off: int)
    requires ps == []
    ensures Run(s, Seen(ps, off)).0 == s && Last(start, ps) == start
  {
  }

  lemma IdleStays(s: State, now: Tick, low: bool)
    ensures s.st == Idle ==> Poll(s, now, low).0.st == Idle
  {
    hide PollRead, PollWrite;
  }

  /** A polled triplet ends, whatever the bus does: after three slots and the gaps between
      polls its one response has been sent. */
  lemma TripletEnds(s: State, dir: bool, start: int, ps: seq<Sight>, g: nat, off: int)
    requires Ready(s) && Spaced(start, ps, g) && SLOT + 3 * g < WRAP
    requires ps != [] && Last(start, ps) > start + Slots(3, g)
    ensures var (s', out) := Run(Start(s, dir), Seen(ps, off)); s'.st == Idle && |out.response| == 1
  {
    hide Run, Slots, Spaced;
    var b := PolledInTime(s, dir, start, ps, g, off);
    TripletRun(s, dir, Seen(ps, off));
  }

  // ---------- how long devices hold their bits ----------

  /** The latest age of a read slot at its sample, with polls at most g apart. */
  function SampleBy(g: nat): nat { if Us(15) < Us(1) + g then Us(1) + g + g else Us(15) + g }

  /** A sample is taken more than 15 us after the edge of its slot, and by then. */
  lemma SampleTime(s: State, edge: int, last: int, due: int, g: nat, t: int, low: bool)
    requires InTime(s, edge, last, due, g, 0) && last <= t <= last + g && SLOT + 3 * g < WRAP
    requires Poll(s, At(t, 0), low).1.sample != []
    ensures Us(15) < t - edge <= SampleBy(g)
  {
    SampleAge(s, At(t, 0), low);
    SlotAge(s, edge, last, due, g, 0, t);
    hide At, Slots, Poll, Elapsed;
  }

  lemma SampleAge(s: State, now: Tick, low: bool)
    requires Poll(s, now, low).1.sample != []
    ensures s.st == Searching && s.bitIdx <= 1 && s.io == WaitSample && Elapsed(now, s.t0) > READ_SAMPLE
  {
    hide Elapsed;
  }

  /** How long after the edge each device holds the line for a zero: past the sample, and no
      longer than 60 us. */
  predicate Holds(hold: map<Code, int>, active: set<Code>, g: nat) {
    forall r :: r in active ==> r in hold && SampleBy(g) <= hold[r] <= Us(60)
  }

  /** The line as the devices make it: one with a zero in the first read slot, and one with a
      one in the second, holds it low for its time. Before the first slot it is high; in the
      write slot nothing depends on it. */
  function Level(s: State, edge: int, t: int, active: set<Code>, i: nat, hold: map<Code, int>, noise: bool): bool
    requires forall r :: r in active ==> i < |r| && r in hold
  {
    if s.io == FinishedOk || s.io == FinishedError then
      s.bitIdx > 0 && exists r :: r in active && r[i] == (s.bitIdx == 2) && t - edge <= hold[r]
    else if s.bitIdx <= 1 then exists r :: r in active && r[i] == (s.bitIdx == 1) && t - edge <= hold[r]
    else noise
  }

  /** So the line is high when a slot is to begin, and the wired AND when one is sampled. */
  lemma HeldIsRead(s: State, edge: int, last: int, due: int, g: nat, t: int, active: set<Code>, i: nat,
                   hold: map<Code, int>, noise: bool)
    requires InTime(s, edge, last, due, g, 0) && last <= t <= last + g && SLOT + 3 * g < WRAP
    requires Holds(hold, active, g) && forall r :: r in active ==> i < |r|
    ensures LineFits(s, At(t, 0), Level(s, edge, t, active, i, hold, noise), active, i)
  {
    if s.st == Searching && s.io == WaitSample {
      SlotAge(s, edge, last, due, g, 0, t);
      hide At, Elapsed, Slots;
      if s.bitIdx <= 1 {
        forall r | r in active ensures t - edge <= hold[r] {
        }
      }
    } else {
      hide At, Elapsed, Slots;
    }
  }

  /** What a poll in time sees. */
  function Line(s: State, edge: int, last: int, ghost due: int, g: nat, t: int, active: set<Code>, i: nat,
                hold: map<Code, int>, noise: bool): (low: bool)
    requires InTime(s, edge, last, due, g, 0) && last <= t <= last + g && SLOT + 3 * g < WRAP
    requires Holds(hold, active, g) && forall r :: r in active ==> i < |r|
    ensures LineFits(s, At(t, 0), low, active, i)
  {
    HeldIsRead(s, edge, last, due, g, t, active, i, hold, noise);
    Level(s, edge, t, active, i, hold, noise)
  }

  // ---------- what a device sees of a write slot ----------

  /** In a write slot the line is held low exactly as long as the last poll still found
      the pulse too short. */
  ghost predicate PulseShape(s: State, last: Tick) {
    s.st == Searching && s.bitIdx == 2 ==>
      var pulse := if s.bit2 then Us(1) else Us(64);
      && (s.io == WaitSample ==> s.drive == Pulled && Elapsed(last, s.t0) <= pulse)
      && (s.io == WaitSlotEnd ==> s.drive == Released && Elapsed(last, s.t0) > pulse)
  }

  lemma PulseShapeKept(s: State, out: Output, dir: bool, last: Tick, now: Tick, low: bool)
    requires RunInvariant(s, out, dir) && PulseShape(s, last)
    requires s.io == WaitSlotEnd && Elapsed(now, s.t0) <= SLOT ==> Elapsed(last, s.t0) <= Elapsed(now, s.t0)
    ensures PulseShape(Poll(s, now, low).0, now)
  {
    if s.st == Searching && s.bitIdx == 2 {
      PulseShapeWriting(s, last, now, low);
    } else {
      PulseShapeReading(s, now, low);
    }
  }

  lemma PulseShapeReading(s: State, now: Tick, low: bool)
    requires s.st != Searching || s.bitIdx != 2
    ensures PulseShape(Poll(s, now, low).0, now)
  {
    hide Elapsed;
  }

  lemma PulseShapeWriting(s: State, last: Tick, now: Tick, low: bool)
    requires !s.keepPower && s.st == Searching && s.bitIdx == 2 && s.io != ReadPulse && PulseShape(s, last)
    requires s.io == WaitSlotEnd && Elapsed(now, s.t0) <= SLOT ==> Elapsed(last, s.t0) <= Elapsed(now, s.t0)
    ensures PulseShape(Poll(s, now, low).0, now)
  {
    match s.io
    case FinishedOk | FinishedError => assert Elapsed(now, now) == 0;
    case WaitSample =>
    case WaitSlotEnd =>
    case ReadPulse =>
  }

  /** If polls come at most 14 us apart, a device that samples the line between 15 and
      60 us after the falling edge reads the bit that was to be written. */
  lemma DeviceReadsBit(s: State, last: Tick, gap: nat, d: nat)
    requires s.st == Searching && s.bitIdx == 2 && (s.io == WaitSample || s.io == WaitSlotEnd)
    requires PulseShape(s, last)
    requires d < gap <= Us(14)
    requires Us(15) <= Elapsed(last, s.t0) + d <= Us(60)
    ensures s.drive == Pulled <==> !s.bit2
  {}

  // ---------- what the devices make of it ----------

  /** When each device samples the line, after the falling edge of the write slot. */
  predicate Timings(delay: map<Code, int>, active: set<Code>) {
    forall r :: r in active ==> r in delay && Us(15) <= delay[r] <= Us(60)
  }

  /** In the write slot, after its falling edge. */
  predicate InPulse(s: State) { s.st == Searching && s.bitIdx == 2 && (s.io == WaitSample || s.io == WaitSlotEnd) }

  /** The devices whose time comes between the poll at last and the next one at t read what is
      on the line. */
  function Hear(s: State, edge: int, last: int, t: int, active: set<Code>, delay: map<Code, int>,
    heard: map<Code, bool>)
    : map<Code, bool>
    requires Timings(delay, active)
  {
    if InPulse(s) then heard + (map r | r in active && last <= edge + delay[r] < t :: s.drive != Pulled) else heard
  }

  /** The devices whose time has come have read the bit to be written; after the slot all. */
  ghost predicate Heard(s: State, edge: int, last: int, active: set<Code>, delay: map<Code, int>,
    heard: map<Code, bool>)
    requires Timings(delay, active)
  {
    if InPulse(s) then
      forall r :: r in active ==> (r in heard <==> edge + delay[r] < last) && (r in heard ==> heard[r] == s.bit2)
    else if s.st == Searching then heard == map[]
    else s.bitIdx == 2 && s.io == FinishedOk && !(s.bit0 && s.bit1) ==>
      forall r :: r in active ==> r in heard && heard[r] == s.bit2
  }

  /** A device whose time comes before the next poll reads the bit. */
  lemma DeviceHears(s: State, edge: int, last: int, due: int, g: nat, t: int, x: int)
    requires InPulse(s) && InTime(s, edge, last, due, g, 0) && PulseShape(s, At(last, 0))
             && last <= t <= last + g <= last + Us(14)
    requires last <= x < t && Us(15) <= x - edge <= Us(60)
    ensures (s.drive != Pulled) == s.bit2
  {
    ElapsedIsDuration(last, edge, 0);
    DeviceReadsBit(s, At(last, 0), g, x - last);
    hide Elapsed, At, Slots, PulseShape;
  }

  /** How a poll leaves the write slot. */
  lemma PulseGoesOn(s: State, edge: int, last: int, due: int, g: nat, t: int, low: bool)
    requires InPulse(s) && InTime(s, edge, last, due, g, 0) && last <= t <= last + g <= last + Us(14)
    ensures var s' := Poll(s, At(t, 0), low).0;
            && s'.bit2 == s.bit2 && s'.bitIdx == 2
            && (InPulse(s') || (s'.st == Idle && s'.io == FinishedOk && t - edge > SLOT))
  {
    ElapsedIsDuration(t, edge, 0);
    hide Elapsed, At, Slots;
  }

  /** How a poll gets to the write slot, or ends the triplet before it. */
  lemma NoPulseGoesOn(s: State, out: Output, dir: bool, now: Tick, low: bool)
    requires RunInvariant(s, out, dir) && s.st == Searching && !InPulse(s)
    ensures BeforePulse(s, Poll(s, now, low).0)
  {
    hide Elapsed, BeforePulse, PollRead, PollWrite;
    if s.bitIdx <= 1 {
      ReadBefore(s, now, low);
    } else {
      assert s.io != ReadPulse;
      WriteBefore(s, now, low);
    }
  }

  ghost predicate BeforePulse(s: State, s': State) {
    (InPulse(s') ==> s.io == FinishedOk)
      && (s'.st == Idle && s'.io == FinishedOk && s'.bitIdx == 2 ==> s'.bit0 && s'.bit1)
  }

  lemma ReadBefore(s: State, now: Tick, low: bool)
    requires s.st == Searching && s.bitIdx <= 1
    ensures BeforePulse(s, PollRead(s, now, low).0)
  {
    hide Elapsed;
    var r := ReadBit(s, now, low).0;
    assert r.st == Searching && r.bitIdx == s.bitIdx;
    hide ReadBit;
  }

  lemma WriteBefore(s: State, now: Tick, low: bool)
    requires s.st == Searching && s.bitIdx == 2 && !InPulse(s) && s.io != ReadPulse && s.io != FinishedError
    ensures BeforePulse(s, PollWrite(s, now, low).0)
  {
    hide Elapsed;
  }

  lemma PulseTime(s: State, out: Output, dir: bool, edge: int, last: int, due: int, g: nat, t: int, low: bool)
    requires RunInvariant(s, out, dir) && InTime(s, edge, last, due, g, 0) && last <= t <= last + g <= last + Us(14)
    requires PulseShape(s, At(last, 0))
    ensures PulseShape(Poll(s, At(t, 0), low).0, At(t, 0))
  {
    if s.io == WaitSlotEnd && s.st == Searching {
      ElapsedIsDuration(t, edge, 0);
      ElapsedIsDuration(last, edge, 0);
    }
    if s.st == Searching {
      hide Elapsed, At, Poll, PulseShape, Slots;
      PulseShapeKept(s, out, dir, At(last, 0), At(t, 0), low);
    }
  }

  lemma HearKeeps(s: State, out: Output, dir: bool, edge: int, last: int, due: int, g: nat, t: int, low: bool,
                  active: set<Code>, delay: map<Code, int>, heard: map<Code, bool>)
    requires RunInvariant(s, out, dir) && InTime(s, edge, last, due, g, 0) && last <= t <= last + g <= last + Us(14)
    requires PulseShape(s, At(last, 0)) && Timings(delay, active) && Heard(s, edge, last, active, delay, heard)
    ensures Heard(Poll(s, At(t, 0), low).0, SlotStart(s, edge, t), t, active, delay,
            Hear(s, edge, last, t, active, delay, heard))
    ensures PulseShape(Poll(s, At(t, 0), low).0, At(t, 0))
  {
    PulseTime(s, out, dir, edge, last, due, g, t, low);
    if InPulse(s) {
      PulseGoesOn(s, edge, last, due, g, t, low);
      forall r | r in active && last <= edge + delay[r] < t ensures (s.drive != Pulled) == s.bit2 {
        DeviceHears(s, edge, last, due, g, t, edge + delay[r]);
      }
    } else if s.st == Searching {
      NoPulseGoesOn(s, out, dir, At(t, 0), low);
    }
    hide Poll, PulseShape, RunInvariant, InTime, At;
  }

  lemma StartHeard(s: State, dir: bool, time: int, active: set<Code>, delay: map<Code, int>)
    requires Ready(s) && Timings(delay, active)
    ensures Heard(Start(s, dir), time, time, active, delay, map[]) && PulseShape(Start(s, dir), At(time, 0))
  {
  }

  lemma OnBusRuns(s: State, out: Output, dir: bool, active: set<Code>, i: nat)
    requires forall r :: r in active ==> i < |r|
    requires OnBus(s, out, dir, active, i)
    ensures RunInvariant(s, out, dir)
  {
    hide RunInvariant;
  }

  /** All that holds of the machine and the devices between two polls. */
  ghost predicate Going(s: State, out: Output, dir: bool, edge: int, last: int, due: int, g: nat,
                        active: set<Code>, i: nat, delay: map<Code, int>, heard: map<Code, bool>)
    requires Timings(delay, active) && forall r :: r in active ==> i < |r|
  {
    && OnBus(s, out, dir, active, i) && InTime(s, edge, last, due, g, 0)
    && PulseShape(s, At(last, 0)) && Heard(s, edge, last, active, delay, heard)
  }

  /** The latest falling edge of the line, as the machine drives it. */
  function LastEdge(s: State, s': State, edge: int, t: int): int {
    if s.drive != Pulled && s'.drive == Pulled then t else edge
  }

  /** Each slot starts with one, and there are no others. */
  lemma EdgeStartsSlot(s: State, out: Output, dir: bool, edge: int, t: int, low: bool, active: set<Code>, i: nat)
    requires forall r :: r in active ==> i < |r|
    requires OnBus(s, out, dir, active, i) && LineFits(s, At(t, 0), low, active, i) && s.st == Searching
    ensures LastEdge(s, Poll(s, At(t, 0), low).0, edge, t) == SlotStart(s, edge, t)
  {
    EdgeAtStart(s, out, dir, At(t, 0), low);
    hide Poll, OnBus, RunInvariant, At;
  }

  lemma EdgeAtStart(s: State, out: Output, dir: bool, now: Tick, low: bool)
    requires UnderWay(s, out, dir) && s.st == Searching
    requires s.io == FinishedOk || s.io == FinishedError ==> !low
    ensures s.drive != Pulled && Poll(s, now, low).0.drive == Pulled <==> s.io == FinishedOk || s.io == FinishedError
  {
    if s.bitIdx <= 1 {
      ReadEdge(s, now, low);
    } else {
      WriteEdge(s, now, low);
    }
    hide PollRead, PollWrite;
  }

  /** A poll of a read slot pulls the line exactly at its start. */
  lemma ReadEdge(s: State, now: Tick, low: bool)
    ensures PollRead(s, now, low).0.drive == ReadBit(s, now, low).0.drive
    ensures s.io == FinishedOk || s.io == FinishedError ==> low || ReadBit(s, now, low).0.drive == Pulled
    ensures s.io != FinishedOk && s.io != FinishedError ==> ReadBit(s, now, low).0.drive in {s.drive, Released}
  {
    hide Elapsed;
  }

  lemma WriteEdge(s: State, now: Tick, low: bool)
    ensures s.io == FinishedOk || s.io == FinishedError ==> low || PollWrite(s, now, low).0.drive == Pulled
    ensures s.io != FinishedOk && s.io != FinishedError ==>
              s.drive == Pulled || PollWrite(s, now, low).0.drive != Pulled
  {
    hide Elapsed;
  }

  lemma StartGoes(s: State, dir: bool, time: int, g: nat, active: set<Code>, i: nat, delay: map<Code, int>)
    requires Ready(s) && Timings(delay, active) && forall r :: r in active ==> i < |r|
    ensures Going(Start(s, dir), QUIET, dir, time, time, time + Slots(3, g), g, active, i, delay, map[])
  {
    StartOnBus(s, dir, active, i);
    StartInTime(s, dir, time, g, 0);
    StartHeard(s, dir, time, active, delay);
    hide OnBus, InTime, PulseShape, Heard, Start, Slots, At;
  }

  lemma PollGoes(s: State, out: Output, dir: bool, edge: int, last: int, due: int, g: nat, t: int, low: bool,
                 active: set<Code>, i: nat, delay: map<Code, int>, heard: map<Code, bool>)
    requires Timings(delay, active) && forall r :: r in active ==> i < |r|
    requires Going(s, out, dir, edge, last, due, g, active, i, delay, heard) && s.st == Searching
    requires last <= t <= last + g <= last + Us(14) && LineFits(s, At(t, 0), low, active, i)
    ensures var (s', o) := Poll(s, At(t, 0), low);
            && Going(s', Join(out, o), dir, LastEdge(s, s', edge, t), t, due, g, active, i, delay,
                 Hear(s, edge, last, t, active, delay, heard))
            && Join(out, o).response == o.response && t <= due
  {
    OnBusKeeps(s, out, dir, At(t, 0), low, active, i);
    OnBusRuns(s, out, dir, active, i);
    HearKeeps(s, out, dir, edge, last, due, g, t, low, active, delay, heard);
    InTimePoll(s, edge, last, due, g, 0, t, low);
    EdgeStartsSlot(s, out, dir, edge, t, low, active, i);
    hide OnBus, InTime, PulseShape, Heard, Poll, At, Hear, SlotStart, LastEdge, LineFits, Timings;
  }

  lemma GoingIs(s: State, out: Output, dir: bool, edge: int, last: int, due: int, g: nat,
                active: set<Code>, i: nat, delay: map<Code, int>, heard: map<Code, bool>)
    requires Timings(delay, active) && forall r :: r in active ==> i < |r|
    requires Going(s, out, dir, edge, last, due, g, active, i, delay, heard)
    ensures InTime(s, edge, last, due, g, 0)
    ensures s.st != Searching ==>
              && |out.response| == 1 && HostView(out.response[0]) == Answer(active, i) && Ready(s)
              && forall r :: r in active ==> r in heard && heard[r] == Written(Answer(active, i), dir)
  {
    if s.st != Searching {
      TripletAnswers(s, out, dir, active, i);
      AllHeard(s, out, dir, edge, last, active, i, delay, heard);
    }
    hide OnBus, InTime, PulseShape, Heard, Timings, Written;
  }

  /** Unless nobody listens, in the end every device has read the bit that was written. */
  lemma AllHeard(s: State, out: Output, dir: bool, edge: int, last: int, active: set<Code>, i: nat,
                 delay: map<Code, int>, heard: map<Code, bool>)
    requires forall r :: r in active ==> i < |r|
    requires OnBus(s, out, dir, active, i) && s.st == Idle
    requires Timings(delay, active) && Heard(s, edge, last, active, delay, heard)
    ensures forall r :: r in active ==> r in heard && heard[r] == Written(Answer(active, i), dir)
  {
    TripletAnswers(s, out, dir, active, i);
    ChosenSome(active, i, dir);
    OverShows(s, out, dir);
    hide RunInvariant, Written;
  }

  /** The buffer still holds the two samples. */
  lemma OverShows(s: State, out: Output, dir: bool)
    requires RunInvariant(s, out, dir) && s.st == Idle
    ensures |out.response| == 1
    ensures out.response[0] != ReadFailure && out.response[0] != WriteFailure && HostView(out.response[0]) != Nobody ==>
              s.io == FinishedOk && s.bitIdx == 2 && !(s.bit0 && s.bit1)
  {
  }
}
