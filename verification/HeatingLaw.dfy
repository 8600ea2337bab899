/** The control law of the heating, from temperatures and setpoints: which room leads, what
    the boiler setpoint becomes, and where each valve goes.
  */
module HeatingLaw {
  import opened Wrappers
  import opened Heating

  // ---------- the law ----------

  /** What a room shows: its setpoint, its temperature and how that changed over the window. */
  datatype Shown = Shown(sp: real, t: real, change: real) {
    predicate Cold() { sp - t > 0.75 }
    predicate Warm() { sp - t < -0.75 }
  }

  predicate Opened(v: Tev, tp: int) { v.value.Some? && v.value.value >= 100.0 && v.last + 480 < tp }

  predicate Closed(v: Tev, tp: int) { v.value.Some? && v.value.value <= 0.0 && v.last + 480 < tp }

  function Clip(x: real, low: real, high: real): real { if x < low then low else if x > high then high else x }

  /** The boiler setpoint that a leading room gives. */
  function Setpoint(tCH: real, limit: real, room: Shown): real {
    if room.Cold() then limit
    else if room.Warm() then 38.0
    else Clip(tCH + 0.1 * (room.sp - room.t) - 7.0 * room.change, 38.0, limit)
  }

  /** Where the valve of another room goes. */
  function Valve(pwm: real, room: Shown): real {
    if room.Cold() then 100.0
    else if room.Warm() then 0.0
    else Clip(pwm + (room.sp - room.t) - room.change, 0.0, 100.0)
  }

  /** A room may take over the lead. */
  predicate MayLead(main: Room, rooms: seq<Shown>, tevs: seq<Tev>, tp: int, r: int)
    requires |rooms| == |tevs| == ROOMS
  {
    0 <= r < ROOMS && r != main && rooms[r].sp > 0.0 && Opened(tevs[r], tp)
  }

  predicate ColdMayLead(main: Room, rooms: seq<Shown>, tevs: seq<Tev>, tp: int, r: int)
    requires |rooms| == |tevs| == ROOMS
  {
    MayLead(main, rooms, tevs, tp, r) && rooms[r].Cold()
  }

  /** Which room leads now. */
  ghost predicate Leads(main: Room, rooms: seq<Shown>, tevs: seq<Tev>, tp: int, l: Option<Room>)
    requires |rooms| == |tevs| == ROOMS
  {
    if rooms[main].Cold() then l == Some(main)
    else if exists r :: ColdMayLead(main, rooms, tevs, tp, r) then
      && l.Some? && ColdMayLead(main, rooms, tevs, tp, l.value)
      && forall q :: l.value < q < ROOMS ==> !ColdMayLead(main, rooms, tevs, tp, q)
    else if !rooms[main].Warm() then l == Some(main)
    else if exists r :: MayLead(main, rooms, tevs, tp, r) then
      && l.Some? && MayLead(main, rooms, tevs, tp, l.value)
      && forall q :: l.value < q < ROOMS ==> !MayLead(main, rooms, tevs, tp, q)
    else l == None
  }

  function Rooms(c: Control, s: Settings): (r: seq<Shown>)
    requires |c.temps| == |s.roomSP| == ROOMS && forall i :: 0 <= i < ROOMS ==> RingOk(c.temps[i])
    ensures |r| == ROOMS
    ensures forall i :: 0 <= i < ROOMS ==> r[i] == Shown(s.roomSP[i], Cur(c.temps[i]), Delta(c.temps[i]))
  {
    seq(ROOMS, i requires 0 <= i < ROOMS => Shown(s.roomSP[i], Cur(c.temps[i]), Delta(c.temps[i])))
  }

  // ---------- the controller follows it ----------

  lemma {:induction false} CandidatesAre(c: Control, s: Settings, hw: Hw, tp: int, n: nat)
    requires Shaped(c, s, hw) && n <= ROOMS
    ensures var (possible, required) := Candidates(c, s, hw, tp, n);
            && (possible == None ==> forall q :: 0 <= q < n ==> !Candidate(c, s, hw, tp, q))
            && (possible.Some? ==> possible.value < n && Candidate(c, s, hw, tp, possible.value)
                                   && forall q :: possible.value < q < n ==> !Candidate(c, s, hw, tp, q))
            && (required == None ==>
                  forall q :: 0 <= q < n ==> !(Candidate(c, s, hw, tp, q) && RoomReg(c, s, q) == Under))
            && (required.Some? ==>
                  && required.value < n && Candidate(c, s, hw, tp, required.value)
                  && RoomReg(c, s, required.value) == Under
                  && forall q :: required.value < q < n ==> !(Candidate(c, s, hw, tp, q) && RoomReg(c, s, q) == Under))
  {
    if n > 0 {
      CandidatesAre(c, s, hw, tp, n - 1);
      hide Candidate, RoomReg;
    }
  }

  lemma RegIs(c: Control, s: Settings, r: Room)
    requires |c.temps| == |s.roomSP| == ROOMS && forall i :: 0 <= i < ROOMS ==> RingOk(c.temps[i])
    ensures RoomReg(c, s, r) == Under <==> Rooms(c, s)[r].Cold()
    ensures RoomReg(c, s, r) == Over <==> Rooms(c, s)[r].Warm()
  {
  }

  lemma LeaderLeads(c: Control, s: Settings, hw: Hw, tp: int)
    requires Shaped(c, s, hw)
    ensures Leads(c.mainRoom, Rooms(c, s), hw.tevs, tp, Leader(c, s, hw, tp))
  {
    CandidatesAre(c, s, hw, tp, ROOMS);
    var rooms, main := Rooms(c, s), c.mainRoom;
    forall r: Room
      ensures RoomReg(c, s, r) == Under <==> rooms[r].Cold()
      ensures RoomReg(c, s, r) == Over <==> rooms[r].Warm()
      ensures Candidate(c, s, hw, tp, r) <==> MayLead(main, rooms, hw.tevs, tp, r)
    {
      RegIs(c, s, r);
    }
    var (possible, required) := Candidates(c, s, hw, tp, ROOMS);
    hide RoomReg, Candidate, Candidates, Opened, IsOpened, Shown.Cold, Shown.Warm;
    if required.Some? {
      assert ColdMayLead(main, rooms, hw.tevs, tp, required.value);
    }
    forall q | 0 <= q < ROOMS
      ensures ColdMayLead(main, rooms, hw.tevs, tp, q) ==> required.Some? && q <= required.value
    {
      var room: Room := q;
    }
    forall q | 0 <= q < ROOMS ensures MayLead(main, rooms, hw.tevs, tp, q) ==> possible.Some? && q <= possible.value {
      var room: Room := q;
    }
  }

  /** One step, from what the rooms show after it and what the controller commanded before. */
  ghost predicate Obeys(c: Control, s: Settings, hw: Hw, inp: Inputs, rooms: seq<Shown>, c': Control)
    requires Shaped(c, s, hw) && Sees(inp) && |rooms| == |c'.pwm| == ROOMS
  {
    && Leads(c.mainRoom, rooms, hw.tevs, inp.tp, if c'.setDefault then None else Some(c'.mainRoom))
    && c'.limHigh == Lowered(hw, inp.tp, 80.0)
    && if c'.setDefault then
         c'.mainRoom == c.mainRoom && c'.tCH == 0.0 && c'.pwm == c.pwm
       else
         && c'.tCH == Lowered(hw, inp.tp, Setpoint(c.tCH, c.limHigh, rooms[c'.mainRoom]))
         && c'.pwm[c'.mainRoom] == 100.0
         && forall r :: 0 <= r < ROOMS && r != c'.mainRoom ==> c'.pwm[r] == Valve(c.pwm[r], rooms[r])
  }

  lemma RegulatorsObey(c: Control, s: Settings, main: Room)
    requires |c.pwm| == ROOMS && |c.temps| == |s.roomSP| == ROOMS && c.limHigh >= 38.0
    requires forall i :: 0 <= i < ROOMS ==> RingOk(c.temps[i])
    ensures var d := CalcRooms(c, s, main);
            && d.tCH == Setpoint(c.tCH, c.limHigh, Rooms(c, s)[main]) && d.pwm[main] == 100.0
            && forall r :: 0 <= r < ROOMS && r != main ==> d.pwm[r] == Valve(c.pwm[r], Rooms(c, s)[r])
  {
  }

  lemma CalcObeys(c: Control, s: Settings, hw: Hw, inp: Inputs)
    requires Shaped(c, s, hw) && Sees(inp) && Sane(c)
    ensures var d := Calc(c, s, hw, inp);
            && Leads(c.mainRoom, Rooms(d, s), hw.tevs, inp.tp, if d.setDefault then None else Some(d.mainRoom))
            && d.limHigh == c.limHigh && d.temps == UpdateBufs(c.temps, inp.rooms, 0).0
            && (d.error <==> c.error || exists k :: 0 <= k < ROOMS && inp.rooms[k] == None)
            && if d.setDefault then d.mainRoom == c.mainRoom && d.tCH == 0.0 && d.pwm == c.pwm
               else
                 && d.tCH == Setpoint(c.tCH, c.limHigh, Rooms(d, s)[d.mainRoom]) && d.pwm[d.mainRoom] == 100.0
                 && forall r :: 0 <= r < ROOMS && r != d.mainRoom ==> d.pwm[r] == Valve(c.pwm[r], Rooms(d, s)[r])
  {
    var (temps, missing) := UpdateBufs(c.temps, inp.rooms, 0);
    var c1 := c.(setDefault := false, temps := temps, error := c.error || missing);
    LeaderLeads(c1, s, hw, inp.tp);
    var leader := Leader(c1, s, hw, inp.tp);
    if leader.Some? {
      RegulatorsObey(c1, s, leader.value);
    }
    var d := Calc(c, s, hw, inp);
    assert Rooms(d, s) == Rooms(c1, s);
    hide Leads, Leader, CalcRooms, Setpoint, Valve, UpdateBufs;
  }

  /** The limit of the floor: 50 unless its valve has been closed for eight minutes. */
  function Lowered(hw: Hw, tp: int, x: real): real
    requires |hw.tevs| == ROOMS
  {
    if Closed(hw.tevs[5], tp) || x <= 50.0 then x else 50.0
  }

  lemma CheckLowers(c: Control, hw: Hw, inp: Inputs)
    requires |hw.tevs| == ROOMS
    ensures var d := Check(c, hw, inp);
            && d == c.(limHigh := Lowered(hw, inp.tp, 80.0), tCH := Lowered(hw, inp.tp, c.tCH), error := d.error)
            && (d.error <==> c.error || inp.floorSupply == None || inp.floorSupply.value > 52.0)
  {
  }

  lemma ClearKeeps(c: Control)
    ensures AutoClear(c) == c.(error := AutoClear(c).error, autoclear := AutoClear(c).autoclear)
  {
  }

  /** The control law, over a whole step. A cold leading room keeps the lead; else the last cold
      room takes it whose valve has been fully open for eight minutes and that wants heat; else
      a room that is not too warm keeps it, and one that is loses it to the last that may take
      it, or to none. The setpoint is what the leading room gives, at most 50 unless the floor
      valve has been closed for eight minutes. */
  lemma StepObeys(c: Control, s: Settings, hw: Hw, inp: Inputs)
    requires Shaped(c, s, hw) && Sees(inp) && Sane(c)
    ensures var c' := Process(c, s, hw, inp).0; Obeys(c, s, hw, inp, Rooms(c', s), c')
  {
    CalcObeys(c, s, hw, inp);
    var d, c' := Calc(c, s, hw, inp), Process(c, s, hw, inp).0;
    CheckLowers(d, hw, inp);
    ClearKeeps(Check(d, hw, inp));
    hide Calc, Check, AutoClear, Leads, Setpoint, Valve, Lowered, Sane;
    assert Rooms(d, s) == Rooms(c', s);
    hide Process, Decided;
  }

  /** A valve after a step. */
  ghost predicate Moved(v: Tev, v': Tev, tp: int, off: bool, wanted: real) {
    && v'.value.Some? && v'.normallyOpen == v.normallyOpen && v'.i2cIdx == v.i2cIdx
    && v'.last == (if v'.value == v.value then v.last else tp)
    && if off then CalcI2Cval(v', v'.value.value) == 0.0 else v'.value.value == Clip(wanted, 0.0, 100.0)
  }

  /** What comes out: in an error nothing is heated and no valve has power, and when no room
      leads no valve has; otherwise the setpoint and the valves are as decided, or as
      overridden. */
  lemma StepOutputs(c: Control, s: Settings, hw: Hw, inp: Inputs)
    requires Shaped(c, s, hw) && Sees(inp) && Sane(c)
    ensures var (c', hw') := Process(c, s, hw, inp);
            var fault := c.error || Faulty(inp);
            && hw'.chSetpoint == (if fault then 0.0 else if s.overrideCH == None then c'.tCH else s.overrideCH.value)
            && forall r :: 0 <= r < ROOMS ==>
                 Moved(hw.tevs[r], hw'.tevs[r], inp.tp, fault || c'.setDefault,
                   if s.overridePwm[r] == None then c'.pwm[r] else s.overridePwm[r].value)
  {
    CalcObeys(c, s, hw, inp);
    FaultIs(inp);
    hide Faulty;
    var d := Check(Calc(c, s, hw, inp), hw, inp);
    CheckLowers(Calc(c, s, hw, inp), hw, inp);
    ClearKeeps(d);
    hide Calc, Check, AutoClear, Leads, Setpoint, Valve, Lowered, Sane;
    UpdateMoves(d, s, hw, inp.tp);
    hide Moved, Update;
  }

  lemma UpdateMoves(d: Control, s: Settings, hw: Hw, tp: int)
    requires Shaped(d, s, hw)
    ensures var hw' := Update(d, s, hw, tp);
            && hw'.chSetpoint == (if d.error then 0.0 else if s.overrideCH == None then d.tCH else s.overrideCH.value)
            && forall r :: 0 <= r < ROOMS ==>
                 Moved(hw.tevs[r], hw'.tevs[r], tp, d.error || d.setDefault,
                   if s.overridePwm[r] == None then d.pwm[r] else s.overridePwm[r].value)
  {
  }

  lemma FaultIs(inp: Inputs)
    requires Sees(inp)
    ensures Faulty(inp) <==> (exists k :: 0 <= k < ROOMS && inp.rooms[k] == None)
                             || inp.floorSupply == None || inp.floorSupply.value > 52.0
  {
  }

  /** A warmer leading room never gives a higher setpoint. */
  lemma SetpointFalls(tCH: real, limit: real, sp: real, t: real, t': real, before: real)
    requires t <= t' && limit >= 38.0
    ensures 38.0 <= Setpoint(tCH, limit, Shown(sp, t', t' - before))
            <= Setpoint(tCH, limit, Shown(sp, t, t - before)) <= limit
  {
  }

  /** A warmer room never gets a wider open valve. */
  lemma ValveFalls(pwm: real, sp: real, t: real, t': real, before: real)
    requires t <= t'
    ensures 0.0 <= Valve(pwm, Shown(sp, t', t' - before)) <= Valve(pwm, Shown(sp, t, t - before)) <= 100.0
  {
  }

  // ---------- valves and power ----------

  /** How far a valve is open that has had that much power for long. */
  function Opening(v: Tev, power: real): real { if v.normallyOpen then 100.0 - power else power }

  lemma CommandOpens(v: Tev, x: real)
    ensures Opening(v, CalcI2Cval(v, x)) == x && Opening(v, 0.0) == DefVal(v)
  {
  }

  // ---------- runs: what the rooms show is what was measured ----------

  /** No room up to r lacked its temperature. */
  predicate Sensed(t: Tick, r: Room) { |t.inp.rooms| == ROOMS && forall k :: 0 <= k <= r ==> t.inp.rooms[k].Some? }

  /** The temperatures of a room that were taken in. */
  function Measured(ts: seq<Tick>, r: Room): seq<real> {
    if ts == [] then []
    else (if Sensed(ts[0], r) then [ts[0].inp.rooms[r].value] else []) + Measured(ts[1..], r)
  }

  lemma {:induction false} BufsTake(temps: seq<CurT>, rooms: seq<Option<real>>, i: nat, r: Room)
    requires |temps| == |rooms| == ROOMS && i <= ROOMS && forall k :: 0 <= k < ROOMS ==> RingOk(temps[k])
    ensures UpdateBufs(temps, rooms, i).0[r]
            == if i <= r && forall k :: i <= k <= r ==> rooms[k].Some? then Add(temps[r], rooms[r].value) else temps[r]
    decreases ROOMS - i
  {
    if i < ROOMS && rooms[i].Some? {
      BufsTake(temps[i := Add(temps[i], rooms[i].value)], rooms, i + 1, r);
    }
  }

  lemma {:induction false} AddAllConcat(c: CurT, a: seq<real>, b: seq<real>)
    requires RingOk(c)
    ensures AddAll(AddAll(c, a), b) == AddAll(c, a + b)
    decreases |b|
  {
    if b == [] {
      assert a + b == a;
    } else {
      AddAllConcat(c, a, b[..|b| - 1]);
      assert (a + b)[..|a + b| - 1] == a + b[..|b| - 1];
    }
  }

  lemma MeasuredOne(t: Tick, r: Room)
    ensures Measured([t], r) == if Sensed(t, r) then [t.inp.rooms[r].value] else []
  {
    assert [t][1..] == [];
  }

  lemma AddNone(c: CurT)
    requires RingOk(c)
    ensures AddAll(c, []) == c
  {
  }

  lemma AddOne(c: CurT, x: real)
    requires RingOk(c)
    ensures AddAll(c, [x]) == Add(c, x)
  {
    assert [x][..0] == [];
  }

  lemma TempsAre(c: Control, s: Settings, hw: Hw, inp: Inputs)
    requires Shaped(c, s, hw) && Sees(inp) && Sane(c)
    ensures Process(c, s, hw, inp).0.temps == UpdateBufs(c.temps, inp.rooms, 0).0
  {
    CalcObeys(c, s, hw, inp);
    var d := Calc(c, s, hw, inp);
    CheckLowers(d, hw, inp);
    ClearKeeps(Check(d, hw, inp));
    hide Calc, Check, AutoClear, Leads, Setpoint, Valve, Lowered, Sane, UpdateBufs;
  }

  lemma StepTakes(c: Control, s: Settings, hw: Hw, inp: Inputs, r: Room)
    requires Shaped(c, s, hw) && Sees(inp) && Sane(c)
    ensures Process(c, s, hw, inp).0.temps[r] == AddAll(c.temps[r], Measured([Tick(s, inp)], r))
  {
    TempsAre(c, s, hw, inp);
    BufsTake(c.temps, inp.rooms, 0, r);
    MeasuredOne(Tick(s, inp), r);
    AddNone(c.temps[r]);
    if Sensed(Tick(s, inp), r) {
      AddOne(c.temps[r], inp.rooms[r].value);
    }
    hide Process, Sane, UpdateBufs, AddAll, Add, Measured;
  }

  /** After any run the ring of a room holds what was measured there; after nine measurements
      the room shows the last one, and its change since the one eight steps before. */
  lemma ShowsMeasured(c: Control, hw: Hw, ts: seq<Tick>, s: Settings, r: Room)
    requires Ready(c, hw) && AllProper(ts) && |s.roomSP| == ROOMS && |Measured(ts, r)| >= 9
    ensures var c', m := Run(c, hw, ts).0, Measured(ts, r);
            && |c'.temps| == ROOMS && (forall i :: 0 <= i < ROOMS ==> RingOk(c'.temps[i]))
            && Rooms(c', s)[r] == Shown(s.roomSP[r], m[|m| - 1], m[|m| - 1] - m[|m| - 9])
  {
    hide *;
    RoomsAndRing();
    RingsHold(c, hw, ts, r);
    var c' := Run(c, hw, ts).0;
    ReadyRings(c, hw);
    ReadyRings(c', Run(c, hw, ts).1);
    DeltaIsOverWindow(c.temps[r], Measured(ts, r));
    ShownIs(c', s, r);
  }

  lemma RoomsAndRing()
    ensures ROOMS == 6 && CNT == 9
  {
  }

  lemma ReadyRings(c: Control, hw: Hw)
    requires Ready(c, hw)
    ensures |c.temps| == ROOMS && forall i :: 0 <= i < ROOMS ==> RingOk(c.temps[i])
  {
  }

  lemma ShownIs(c: Control, s: Settings, r: Room)
    requires |c.temps| == |s.roomSP| == ROOMS && forall i :: 0 <= i < ROOMS ==> RingOk(c.temps[i])
    ensures Rooms(c, s)[r] == Shown(s.roomSP[r], Cur(c.temps[r]), Delta(c.temps[r]))
  {
  }

  lemma RunCons(c: Control, hw: Hw, t: Tick, ts: seq<Tick>) returns (c1: Control, hw1: Hw)
    requires Ready(c, hw) && Proper(t) && AllProper(ts)
    ensures Shaped(c, t.s, hw) && Sees(t.inp) && (c1, hw1) == Process(c, t.s, hw, t.inp)
    ensures AllProper([t] + ts) && Ready(c1, hw1) && Run(c, hw, [t] + ts) == Run(c1, hw1, ts)
  {
    c1, hw1 := Process(c, t.s, hw, t.inp).0, Process(c, t.s, hw, t.inp).1;
    ProcessSafe(c, t.s, hw, t.inp);
    assert ([t] + ts)[1..] == ts;
    hide Process, SafeOutputs, Proper;
  }

  lemma RunNone(c: Control, hw: Hw)
    requires Ready(c, hw)
    ensures AllProper([]) && Run(c, hw, []) == (c, hw)
  {
  }

  lemma AllProperParts(ts: seq<Tick>)
    requires AllProper(ts) && ts != []
    ensures Proper(ts[0]) && AllProper(ts[1..]) && Proper(ts[|ts| - 1]) && AllProper(ts[..|ts| - 1])
  {
    hide Proper;
  }

  lemma {:induction false} RingsHold(c: Control, hw: Hw, ts: seq<Tick>, r: Room)
    requires Ready(c, hw) && AllProper(ts)
    ensures Ready(Run(c, hw, ts).0, Run(c, hw, ts).1)
    ensures Run(c, hw, ts).0.temps[r] == AddAll(c.temps[r], Measured(ts, r))
    decreases |ts|
  {
    hide *;
    if ts == [] {
      RunNone(c, hw);
      NoneMeasured(c, hw, r);
    } else {
      AllProperParts(ts);
      var t, rest := ts[0], ts[1..];
      assert ts == [t] + rest;
      var c1, hw1 := RunCons(c, hw, t, rest);
      ReadyRings(c, hw);
      ReadyRings(c1, hw1);
      ReadySane(c, hw);
      assert Tick(t.s, t.inp) == t;
      StepTakes(c, t.s, hw, t.inp, r);
      RingsHold(c1, hw1, rest, r);
      MeasuredCons(t, rest, r);
      AddAllConcat(c.temps[r], Measured([t], r), Measured(rest, r));
    }
  }

  lemma ReadySane(c: Control, hw: Hw)
    requires Ready(c, hw)
    ensures Sane(c)
  {
  }

  lemma NoneMeasured(c: Control, hw: Hw, r: Room)
    requires Ready(c, hw)
    ensures RingOk(c.temps[r]) && c.temps[r] == AddAll(c.temps[r], Measured([], r))
  {
    AddNone(c.temps[r]);
  }

  lemma MeasuredCons(t: Tick, ts: seq<Tick>, r: Room)
    ensures Measured([t] + ts, r) == Measured([t], r) + Measured(ts, r)
  {
    assert ([t] + ts)[1..] == ts && [t][1..] == [];
  }

  // ---------- runs: what was commanded ----------

  lemma {:induction false} RunSnoc(c: Control, hw: Hw, ts: seq<Tick>, t: Tick) returns (c1: Control, hw1: Hw)
    requires Ready(c, hw) && AllProper(ts) && Proper(t)
    ensures (c1, hw1) == Run(c, hw, ts) && Ready(c1, hw1) && Shaped(c1, t.s, hw1) && Sees(t.inp)
    ensures AllProper(ts + [t]) && Run(c, hw, ts + [t]) == Process(c1, t.s, hw1, t.inp)
    decreases |ts|
  {
    hide *;
    if ts == [] {
      RunNone(c, hw);
      c1, hw1 := c, hw;
      var c2, hw2 := RunCons(c, hw, t, []);
      RunNone(c2, hw2);
      assert ts + [t] == [t] + [];
    } else {
      AllProperParts(ts);
      var u, rest := ts[0], ts[1..];
      var cu, hwu := RunCons(c, hw, u, rest);
      c1, hw1 := RunSnoc(cu, hwu, rest, t);
      cu, hwu := RunCons(c, hw, u, rest + [t]);
      assert ts == [u] + rest && ts + [t] == [u] + (rest + [t]);
    }
  }

  /** A valve after some steps. */
  function ValveAfter(c: Control, hw: Hw, ts: seq<Tick>, r: Room): Tev
    requires Ready(c, hw) && AllProper(ts)
  {
    RingsHold(c, hw, ts, r);
    Run(c, hw, ts).1.tevs[r]
  }

  ghost predicate Ordered(ts: seq<Tick>) {
    forall i, j :: 0 <= i < j < |ts| ==> ts[i].inp.tp <= ts[j].inp.tp
  }

  lemma TicksParts(ts: seq<Tick>, k: nat)
    requires AllProper(ts) && Ordered(ts) && k < |ts|
    ensures AllProper(ts[..k + 1]) && Ordered(ts[..k + 1]) && ts[k].inp.tp <= ts[|ts| - 1].inp.tp
    ensures AllProper(ts[..|ts| - 1]) && Ordered(ts[..|ts| - 1]) && Proper(ts[|ts| - 1])
  {
    hide Proper;
  }

  /** One more step: the time of a valve changes only with its command. */
  lemma LastChange(c: Control, hw: Hw, ts: seq<Tick>, t: Tick, r: Room)
    requires Ready(c, hw) && AllProper(ts) && Proper(t)
    ensures AllProper(ts + [t])
    ensures var v, v' := ValveAfter(c, hw, ts, r), ValveAfter(c, hw, ts + [t], r);
            v'.last == if v'.value == v.value then v.last else t.inp.tp
  {
    var c1, hw1 := RunSnoc(c, hw, ts, t);
    hide Run, Process, Sane, Faulty, AllProper, Proper;
    StepOutputs(c1, t.s, hw1, t.inp);
  }

  /** In every run the time noted for a valve is that of its last new command: after each later
      step it had the command that it has now. */
  lemma {:induction false} CommandsSince(c: Control, hw: Hw, ts: seq<Tick>, r: Room, k: nat)
    requires Ready(c, hw) && AllProper(ts) && Ordered(ts) && k < |ts| && AllProper(ts[..k + 1])
    ensures ts[k].inp.tp > ValveAfter(c, hw, ts, r).last ==>
              ValveAfter(c, hw, ts[..k + 1], r).value == ValveAfter(c, hw, ts, r).value
    decreases |ts|
  {
    var m := |ts| - 1;
    var before, t := ts[..m], ts[m];
    assert ts == before + [t];
    TicksParts(ts, k);
    hide *;
    LastChange(c, hw, before, t, r);
    if k < m {
      assert ts[..k + 1] == before[..k + 1];
      CommandsSince(c, hw, before, r, k);
    } else {
      assert ts[..k + 1] == ts;
    }
  }

  /** A valve that counts as fully open or closed was commanded so in every step of the last
      eight minutes. */
  lemma TripIsOver(c: Control, hw: Hw, ts: seq<Tick>, r: Room, now: int, k: nat)
    requires Ready(c, hw) && AllProper(ts) && Ordered(ts) && k < |ts| && ts[k].inp.tp >= now - 480
    ensures AllProper(ts[..k + 1])
    ensures var v, x := ValveAfter(c, hw, ts, r), ValveAfter(c, hw, ts[..k + 1], r).value;
            && (IsOpened(v, now) ==> x.Some? && x.value >= 100.0)
            && (IsClosed(v, now) ==> x.Some? && x.value <= 0.0)
  {
    TicksParts(ts, k);
    hide Ready, AllProper, Ordered, ValveAfter;
    CommandsSince(c, hw, ts, r, k);
  }
}
