/** The heating controller of six rooms with thermoelectric valves and one boiler setpoint.
    Reals stand for the floats, None for NaN; times are seconds.
  */
module Heating {
  import opened Wrappers
  import SlowPwm

  const ROOMS := 6
  type Room = r: int | 0 <= r < ROOMS
  const FLOOR: Room := 5

  // ---------- valves ----------

  /** A valve as last commanded; normally open ones are closed by power. */
  datatype Tev = Tev(value: Option<real>, last: int, normallyOpen: bool, i2cIdx: nat)

  const FULL_TRIP := 8 * 60

  predicate IsClosed(v: Tev, tp: int) { v.value.Some? && v.value.value <= 0.0 && v.last + FULL_TRIP < tp }

  predicate IsOpened(v: Tev, tp: int) { v.value.Some? && v.value.value >= 100.0 && v.last + FULL_TRIP < tp }

  function CalcI2Cval(v: Tev, value: real): real { if v.normallyOpen then 100.0 - value else value }

  function DefVal(v: Tev): real { if v.normallyOpen then 100.0 else 0.0 }

  function UpdateTev(v: Tev, val: real, tp: int): Tev {
    if v.value == Some(val) then v else v.(value := Some(val), last := tp)
  }

  function Clamp(pwm: real): real { if pwm > 100.0 then 100.0 else if pwm < 0.0 then 0.0 else pwm }

  /** The PWM channel of each room. */
  const C_INDEX: seq<nat> := [1, 2, 0, 5, 3, 4]

  /** Every command a valve can be given is a duty the PWM driver accepts, and no two rooms
      share a channel. */
  lemma DutyAccepted(v: Tev, pwm: real, p: SlowPwm.Pwm)
    requires v.i2cIdx in C_INDEX
    ensures SlowPwm.AfterUpdate(p, v.i2cIdx, CalcI2Cval(v, Clamp(pwm))).1 == SlowPwm.Done
    ensures SlowPwm.AfterUpdate(p, v.i2cIdx, CalcI2Cval(v, DefVal(v))).1 == SlowPwm.Done
    ensures forall a: Room, b: Room :: a != b ==> C_INDEX[a] != C_INDEX[b]
  {
  }

  // ---------- temperature history ----------

  const CNT := 9

  /** The last temperatures of a room in a ring. */
  datatype CurT = CurT(buf: seq<real>, idx: nat)

  predicate RingOk(c: CurT) { |c.buf| == CNT && c.idx < CNT }

  function Add(c: CurT, val: real): (r: CurT)
    requires RingOk(c)
    ensures RingOk(r)
  {
    var i := if c.idx + 1 >= CNT then 0 else c.idx + 1;
    CurT(c.buf[i := val], i)
  }

  function Delta(c: CurT): real
    requires RingOk(c)
  {
    var begin := if c.idx + 1 < CNT then c.idx + 1 else 0;
    c.buf[c.idx] - c.buf[begin]
  }

  function Cur(c: CurT): real
    requires RingOk(c)
  {
    c.buf[c.idx]
  }

  function AddAll(c: CurT, vals: seq<real>): (r: CurT)
    requires RingOk(c)
    ensures RingOk(r)
    decreases |vals|
  {
    if vals == [] then c else Add(AddAll(c, vals[..|vals| - 1]), vals[|vals| - 1])
  }

  /** The place k before another in the ring. */
  function Back(idx: nat, k: nat): (r: nat)
    requires idx < CNT && k < CNT
    ensures r < CNT
  {
    if k <= idx then idx - k else idx + CNT - k
  }

  /** The value added k steps before the last one stands k places before the index. */
  lemma {:induction false} RingHolds(c: CurT, vals: seq<real>, k: nat)
    requires RingOk(c) && k < |vals| && k < CNT
    ensures var r := AddAll(c, vals); r.buf[Back(r.idx, k)] == vals[|vals| - 1 - k]
    decreases |vals|
  {
    var m := |vals| - 1;
    var before, after := AddAll(c, vals[..m]), AddAll(c, vals);
    assert after == Add(before, vals[m]);
    hide AddAll;
    if k > 0 {
      RingHolds(c, vals[..m], k - 1);
      AddKeeps(before, vals[m], k);
    }
  }

  lemma AddKeeps(c: CurT, val: real, k: nat)
    requires RingOk(c) && 0 < k < CNT
    ensures Add(c, val).buf[Back(Add(c, val).idx, k)] == c.buf[Back(c.idx, k - 1)]
  {
  }

  /** After nine or more values: the current one is the last, the difference is that to the
      one eight values earlier. */
  lemma DeltaIsOverWindow(c: CurT, vals: seq<real>)
    requires RingOk(c) && |vals| >= CNT
    ensures Cur(AddAll(c, vals)) == vals[|vals| - 1]
    ensures Delta(AddAll(c, vals)) == vals[|vals| - 1] - vals[|vals| - CNT]
  {
    RingHolds(c, vals, 0);
    RingHolds(c, vals, CNT - 1);
    RingEnds(AddAll(c, vals));
    hide *;
  }

  lemma RingEnds(r: CurT)
    requires RingOk(r)
    ensures Cur(r) == r.buf[Back(r.idx, 0)]
    ensures Delta(r) == r.buf[Back(r.idx, 0)] - r.buf[Back(r.idx, CNT - 1)]
  {
  }

  // ---------- the controller ----------

  const LIM_LOW := 38.0
  const LIM_HIGH_STANDARD := 80.0
  const LIM_HIGH_FLOOR := 50.0
  const IN_REG_RANGE := 0.75
  const FLOOR_SUPPLY_MAX := 52.0
  const AUTOCLEAR := 30 * 3

  datatype Reg = Under | In | Over

  datatype Control = Control(mainRoom: Room, tCH: real, limHigh: real, error: bool, autoclear: nat, setDefault: bool,
                             pwm: seq<real>, temps: seq<CurT>)

  /** Setpoints and overrides, from outside. */
  datatype Settings = Settings(roomSP: seq<real>, overrideCH: Option<real>, overridePwm: seq<Option<real>>)

  /** What one processing step sees. */
  datatype Inputs = Inputs(tp: int, rooms: seq<Option<real>>, floorSupply: Option<real>)

  datatype Hw = Hw(tevs: seq<Tev>, chSetpoint: real)

  ghost predicate Shaped(c: Control, s: Settings, hw: Hw) {
    && |c.pwm| == ROOMS && |c.temps| == ROOMS && |s.roomSP| == ROOMS && |s.overridePwm| == ROOMS && |hw.tevs| == ROOMS
    && forall i :: 0 <= i < ROOMS ==> RingOk(c.temps[i])
  }

  ghost predicate Sees(i: Inputs) { |i.rooms| == ROOMS }

  function RegState(sp: real, t: real): Reg {
    if sp - t > IN_REG_RANGE then Under else if sp - t < -IN_REG_RANGE then Over else In
  }

  function RoomReg(c: Control, s: Settings, r: Room): Reg
    requires |c.temps| == ROOMS && |s.roomSP| == ROOMS && RingOk(c.temps[r])
  {
    RegState(s.roomSP[r], Cur(c.temps[r]))
  }

  /** The new temperatures up to the first missing one. */
  function UpdateBufs(temps: seq<CurT>, rooms: seq<Option<real>>, i: nat): (r: (seq<CurT>, bool))
    requires |temps| == |rooms| == ROOMS && i <= ROOMS && forall k :: 0 <= k < ROOMS ==> RingOk(temps[k])
    ensures |r.0| == ROOMS && forall k :: 0 <= k < ROOMS ==> RingOk(r.0[k])
    ensures r.1 <==> exists k :: i <= k < ROOMS && rooms[k] == None
    decreases ROOMS - i
  {
    if i == ROOMS then (temps, false)
    else if rooms[i] == None then (temps, true)
    else UpdateBufs(temps[i := Add(temps[i], rooms[i].value)], rooms, i + 1)
  }

  /** A room that could take over: it wants heat and its valve is fully open. */
  predicate Candidate(c: Control, s: Settings, hw: Hw, tp: int, r: Room)
    requires |s.roomSP| == ROOMS && |hw.tevs| == ROOMS
  {
    r != c.mainRoom && s.roomSP[r] > 0.0 && IsOpened(hw.tevs[r], tp)
  }

  /** The last candidate below n, and the last one that is too cold. */
  function Candidates(c: Control, s: Settings, hw: Hw, tp: int, n: nat): (r: (Option<Room>, Option<Room>))
    requires Shaped(c, s, hw) && n <= ROOMS
    ensures r.0.Some? ==> Candidate(c, s, hw, tp, r.0.value)
    ensures r.1.Some? ==> Candidate(c, s, hw, tp, r.1.value) && RoomReg(c, s, r.1.value) == Under
  {
    if n == 0 then (Option<Room>.None, Option<Room>.None)
    else
      var before := Candidates(c, s, hw, tp, n - 1);
      var room: Room := n - 1;
      if !Candidate(c, s, hw, tp, room) then before
      else if RoomReg(c, s, room) == Under then (Option<Room>.Some(room), Option<Room>.Some(room))
      else (Option<Room>.Some(room), before.1)
  }

  function ValveControl(pwm: real, sp: real, cur: CurT): real
    requires RingOk(cur)
  {
    var p := match RegState(sp, Cur(cur))
             case Under => 100.0
             case Over => 0.0
             case In => pwm + (sp - Cur(cur)) - Delta(cur);
    Clamp(p)
  }

  function MainControl(tCH: real, limHigh: real, sp: real, cur: CurT): real
    requires RingOk(cur)
  {
    var t := match RegState(sp, Cur(cur))
             case Under => limHigh
             case Over => LIM_LOW
             case In => tCH + (sp - Cur(cur)) * 0.1 - Delta(cur) * 7.0;
    if t > limHigh then limHigh else if t < LIM_LOW then LIM_LOW else t
  }

  function CalcRooms(c: Control, s: Settings, main: Room): (r: Control)
    requires |c.pwm| == ROOMS && |c.temps| == ROOMS && |s.roomSP| == ROOMS
    requires forall i :: 0 <= i < ROOMS ==> RingOk(c.temps[i])
    ensures |r.pwm| == ROOMS && r.temps == c.temps
  {
    c.(mainRoom := main,
       pwm := seq(ROOMS, i requires 0 <= i < ROOMS =>
                           if i == main then 100.0 else ValveControl(c.pwm[i], s.roomSP[i], c.temps[i])),
       tCH := MainControl(c.tCH, c.limHigh, s.roomSP[main], c.temps[main]))
  }

  lemma CalcRoomsLeads(c: Control, s: Settings, main: Room)
    requires |c.pwm| == ROOMS && |c.temps| == ROOMS && |s.roomSP| == ROOMS
    requires forall i :: 0 <= i < ROOMS ==> RingOk(c.temps[i])
    ensures CalcRooms(c.(mainRoom := main), s, main) == CalcRooms(c, s, main)
  {
  }

  /** Which room leads, if any. */
  function Leader(c: Control, s: Settings, hw: Hw, tp: int): Option<Room>
    requires Shaped(c, s, hw)
  {
    var (possible, required) := Candidates(c, s, hw, tp, ROOMS);
    var main := RoomReg(c, s, c.mainRoom);
    if main == Under then Some(c.mainRoom)
    else if required.Some? then required
    else if main == Over then possible
    else Some(c.mainRoom)
  }

  function Calc(c: Control, s: Settings, hw: Hw, inp: Inputs): (r: Control)
    requires Shaped(c, s, hw) && Sees(inp)
    ensures Shaped(r, s, hw)
  {
    var (temps, missing) := UpdateBufs(c.temps, inp.rooms, 0);
    var c1 := c.(setDefault := false, temps := temps, error := c.error || missing);
    var leader := Leader(c1, s, hw, inp.tp);
    if leader.Some? then CalcRooms(c1, s, leader.value) else c1.(setDefault := true, tCH := 0.0)
  }

  function Check(c: Control, hw: Hw, inp: Inputs): Control
    requires |hw.tevs| == ROOMS
  {
    var c1 := if !IsClosed(hw.tevs[FLOOR], inp.tp) then
                c.(limHigh := LIM_HIGH_FLOOR, tCH := if c.tCH > LIM_HIGH_FLOOR then LIM_HIGH_FLOOR else c.tCH)
              else c.(limHigh := LIM_HIGH_STANDARD);
    if inp.floorSupply == None || inp.floorSupply.value > FLOOR_SUPPLY_MAX then c1.(error := true) else c1
  }

  function CommandedPwm(c: Control, s: Settings, r: Room): real
    requires |c.pwm| == ROOMS && |s.overridePwm| == ROOMS
  {
    Clamp(if s.overridePwm[r] == None then c.pwm[r] else s.overridePwm[r].value)
  }

  function Update(c: Control, s: Settings, hw: Hw, tp: int): (r: Hw)
    requires Shaped(c, s, hw)
    ensures |r.tevs| == ROOMS
  {
    Hw(seq(ROOMS, i requires 0 <= i < ROOMS =>
             UpdateTev(hw.tevs[i], if c.setDefault || c.error then DefVal(hw.tevs[i]) else CommandedPwm(c, s, i), tp)),
       if c.error then 0.0 else if s.overrideCH == None then c.tCH else s.overrideCH.value)
  }

  function AutoClear(c: Control): Control {
    if !c.error then c.(autoclear := 0)
    else if c.autoclear > AUTOCLEAR then c.(error := false, autoclear := 0)
    else c.(autoclear := c.autoclear + 1)
  }

  /** The control state as the outputs are set. */
  function Decided(c: Control, s: Settings, hw: Hw, inp: Inputs): (r: Control)
    requires Shaped(c, s, hw) && Sees(inp)
    ensures Shaped(r, s, hw)
  {
    Check(Calc(c, s, hw, inp), hw, inp)
  }

  function Process(c: Control, s: Settings, hw: Hw, inp: Inputs): (r: (Control, Hw))
    requires Shaped(c, s, hw) && Sees(inp)
    ensures Shaped(r.0, s, r.1)
  {
    var d := Decided(c, s, hw, inp);
    (AutoClear(d), Update(d, s, hw, inp.tp))
  }

  // ---------- the controller as it runs ----------

  class Kurenie {
    var mainRoom: Room
    var tCH: real
    var tCHLimHigh: real
    var error: bool
    var errorAutoclearCount: nat
    var tevsSetDefault: bool
    var pwmTevVal: seq<real>
    var tCur: seq<CurT>
    var settings: Settings
    var tevs: seq<Tev>
    var chSetpoint: real

    ghost function View(): Control
      reads this
    {
      Control(mainRoom, tCH, tCHLimHigh, error, errorAutoclearCount, tevsSetDefault, pwmTevVal, tCur)
    }

    ghost function HwView(): Hw
      reads this
    {
      Hw(tevs, chSetpoint)
    }

    ghost predicate Valid()
      reads this
    {
      Shaped(View(), settings, HwView())
    }

    method UpdateTBufs(rooms: seq<Option<real>>)
      requires Valid() && |rooms| == ROOMS
      modifies `tCur, `error
      ensures Valid()
      ensures var (temps, missing) := UpdateBufs(old(tCur), rooms, 0); tCur == temps && error == (old(error) || missing)
    {
      var ir := 0;
      while ir < ROOMS
        invariant 0 <= ir <= ROOMS && Valid() && error == old(error)
        invariant UpdateBufs(old(tCur), rooms, 0) == UpdateBufs(tCur, rooms, ir)
      {
        if rooms[ir] == None {
          error := true;
          return;
        }
        tCur := tCur[ir := Add(tCur[ir], rooms[ir].value)];
        ir := ir + 1;
      }
    }

    method FindCandidates(tp: int) returns (possible: Option<Room>, required: Option<Room>)
      requires Valid()
      ensures (possible, required) == Candidates(View(), settings, HwView(), tp, ROOMS)
    {
      possible, required := None, None;
      for ir := 0 to ROOMS
        invariant (possible, required) == Candidates(View(), settings, HwView(), tp, ir)
      {
        if mainRoom != ir && settings.roomSP[ir] > 0.0 && IsOpened(tevs[ir], tp) {
          possible := Some(ir);
          if RegState(settings.roomSP[ir], Cur(tCur[ir])) == Under {
            required := Some(ir);
          }
        }
      }
    }

    method RunCalcRooms()
      requires Valid()
      modifies `pwmTevVal, `tCH
      ensures Valid() && View() == CalcRooms(old(View()), settings, mainRoom)
    {
      ghost var before := pwmTevVal;
      for ir := 0 to ROOMS
        invariant |pwmTevVal| == ROOMS && tCH == old(tCH)
        invariant forall i :: 0 <= i < ROOMS ==>
                    pwmTevVal[i] ==
                    if i < ir && i != mainRoom then ValveControl(before[i], settings.roomSP[i], tCur[i]) else before[i]
      {
        if ir != mainRoom {
          pwmTevVal := pwmTevVal[ir := ValveControl(pwmTevVal[ir], settings.roomSP[ir], tCur[ir])];
        }
      }
      pwmTevVal := pwmTevVal[mainRoom := 100.0];
      tCH := MainControl(tCH, tCHLimHigh, settings.roomSP[mainRoom], tCur[mainRoom]);
      assert pwmTevVal == CalcRooms(old(View()), settings, mainRoom).pwm;
    }

    method RunCalc(inp: Inputs)
      requires Valid() && Sees(inp)
      modifies this
      ensures settings == old(settings) && HwView() == old(HwView())
      ensures Valid() && View() == Calc(old(View()), settings, HwView(), inp)
    {
      hide UpdateBufs, Candidates, CalcRooms, MainControl, ValveControl, IsOpened;
      tevsSetDefault := false;
      UpdateTBufs(inp.rooms);
      var possible, required := FindCandidates(inp.tp);
      var reg := RegState(settings.roomSP[mainRoom], Cur(tCur[mainRoom]));
      if reg == Under {
        RunCalcRooms();
        return;
      }
      if required.Some? {
        CalcRoomsLeads(View(), settings, required.value);
        mainRoom := required.value;
        RunCalcRooms();
        return;
      }
      if reg == Over {
        if possible.Some? {
          CalcRoomsLeads(View(), settings, possible.value);
          mainRoom := possible.value;
          RunCalcRooms();
          return;
        }
      } else {
        RunCalcRooms();
        return;
      }
      tevsSetDefault := true;
      tCH := 0.0;
    }

    method RunCheck(inp: Inputs)
      requires Valid()
      modifies `tCH, `tCHLimHigh, `error
      ensures Valid() && View() == Check(old(View()), HwView(), inp)
    {
      if !IsClosed(tevs[FLOOR], inp.tp) {
        tCHLimHigh := LIM_HIGH_FLOOR;
        if tCH > tCHLimHigh {
          tCH := tCHLimHigh;
        }
      } else {
        tCHLimHigh := LIM_HIGH_STANDARD;
      }
      if inp.floorSupply == None || inp.floorSupply.value > FLOOR_SUPPLY_MAX {
        error := true;
      }
    }

    method RunUpdate(tp: int)
      requires Valid()
      modifies `tevs, `chSetpoint
      ensures Valid() && HwView() == Update(View(), settings, old(HwView()), tp)
    {
      ghost var before := tevs;
      for room := 0 to ROOMS
        invariant |tevs| == ROOMS && chSetpoint == old(chSetpoint)
        invariant forall i :: 0 <= i < ROOMS ==>
                    tevs[i] == if i < room then Update(View(), settings, old(HwView()), tp).tevs[i] else before[i]
      {
        var val := if tevsSetDefault || error then DefVal(tevs[room]) else
                     Clamp(if settings.overridePwm[room] == None then pwmTevVal[room]
                       else settings.overridePwm[room].value);
        tevs := tevs[room := UpdateTev(tevs[room], val, tp)];
      }
      chSetpoint := if error then 0.0 else if settings.overrideCH == None then tCH else settings.overrideCH.value;
      assert tevs == Update(View(), settings, old(HwView()), tp).tevs;
    }

    /** One processing step. */
    method RunProcess(inp: Inputs)
      requires Valid() && Sees(inp)
      modifies this
      ensures settings == old(settings) && Valid()
      ensures (View(), HwView()) == Process(old(View()), settings, old(HwView()), inp)
    {
      hide Calc, Check, Update;
      RunCalc(inp);
      RunCheck(inp);
      RunUpdate(inp.tp);
      if error {
        errorAutoclearCount := errorAutoclearCount + 1;
        if errorAutoclearCount - 1 > AUTOCLEAR {
          error := false;
          errorAutoclearCount := 0;
        }
      } else {
        errorAutoclearCount := 0;
      }
    }

    constructor (settings: Settings, tevs: seq<Tev>, pwmStart: seq<real>)
      requires |settings.roomSP| == ROOMS && |settings.overridePwm| == ROOMS && |tevs| == ROOMS && |pwmStart| == ROOMS
      ensures Valid() && Ready(View(), HwView()) && this.settings == settings && this.tevs == tevs
      ensures !error && chSetpoint == 0.0
    {
      mainRoom, tCH, tCHLimHigh := 0, 0.0, LIM_HIGH_STANDARD;
      error, errorAutoclearCount, tevsSetDefault := false, 0, false;
      pwmTevVal := pwmStart;
      tCur := seq(ROOMS, _ => CurT([25.0, 25.0, 25.0, 25.0, 25.0, 25.0, 25.0, 25.0, 25.0], 0));
      this.settings, this.tevs, chSetpoint := settings, tevs, 0.0;
    }
  }

  // ---------- safety ----------

  /** The limit is one of the two the check sets. */
  ghost predicate Sane(c: Control) {
    && (c.limHigh == LIM_HIGH_STANDARD || c.limHigh == LIM_HIGH_FLOOR)
    && (c.tCH == 0.0 || LIM_LOW <= c.tCH <= LIM_HIGH_STANDARD)
  }

  lemma MainControlBounded(tCH: real, limHigh: real, sp: real, cur: CurT)
    requires RingOk(cur) && limHigh >= 38.0
    ensures 38.0 <= MainControl(tCH, limHigh, sp, cur) <= limHigh
  {
  }

  lemma CalcSafe(c: Control, s: Settings, hw: Hw, inp: Inputs)
    requires Shaped(c, s, hw) && Sees(inp) && Sane(c)
    ensures var r := Calc(c, s, hw, inp);
            && Sane(r) && r.tCH <= r.limHigh == c.limHigh && r.autoclear == c.autoclear
            && (r.setDefault ==> r.tCH == 0.0) && (!r.setDefault ==> r.pwm[r.mainRoom] == 100.0)
            && (c.error || (exists k :: 0 <= k < ROOMS && inp.rooms[k] == None) ==> r.error)
            && (r.mainRoom != c.mainRoom ==> s.roomSP[r.mainRoom] > 0.0 && IsOpened(hw.tevs[r.mainRoom], inp.tp))
  {
    var (temps, missing) := UpdateBufs(c.temps, inp.rooms, 0);
    var c1 := c.(setDefault := false, temps := temps, error := c.error || missing);
    var leader := Leader(c1, s, hw, inp.tp);
    if leader.Some? {
      MainControlBounded(c1.tCH, c1.limHigh, s.roomSP[leader.value], temps[leader.value]);
      LeaderIs(c1, s, hw, inp.tp);
    }
    hide Leader, MainControl, ValveControl, UpdateBufs, Candidates, IsOpened;
  }

  lemma LeaderIs(c: Control, s: Settings, hw: Hw, tp: int)
    requires Shaped(c, s, hw)
    ensures var l := Leader(c, s, hw, tp);
            l.Some? && l.value != c.mainRoom ==> s.roomSP[l.value] > 0.0 && IsOpened(hw.tevs[l.value], tp)
  {
  }

  /** A fault that this step can see. */
  ghost predicate Faulty(inp: Inputs) {
    || (exists k :: 0 <= k < |inp.rooms| && inp.rooms[k] == None)
    || inp.floorSupply == None || inp.floorSupply.value > 52.0
  }

  /** What every processing step guarantees without overrides. */
  ghost predicate SafeOutputs(c: Control, s: Settings, hw: Hw, inp: Inputs, c': Control, hw': Hw)
    requires Shaped(c, s, hw) && Shaped(c', s, hw') && Sees(inp)
  {
    && (hw'.chSetpoint == 0.0 || 38.0 <= hw'.chSetpoint <= 80.0)
    && (!IsClosed(hw.tevs[FLOOR], inp.tp) ==> hw'.chSetpoint <= 50.0)
    && (c.error || Faulty(inp) ==>
          hw'.chSetpoint == 0.0 && forall r :: 0 <= r < ROOMS ==> hw'.tevs[r].value == Some(DefVal(hw.tevs[r])))
    && (hw'.chSetpoint > 0.0 ==> hw'.tevs[c'.mainRoom].value == Some(100.0))
    && (c'.mainRoom != c.mainRoom ==> s.roomSP[c'.mainRoom] > 0.0 && IsOpened(hw.tevs[c'.mainRoom], inp.tp))
    && (forall r :: 0 <= r < ROOMS ==> hw'.tevs[r].value.Some? && 0.0 <= hw'.tevs[r].value.value <= 100.0)
  }

  ghost predicate NoOverrides(s: Settings) {
    s.overrideCH == None && forall r :: 0 <= r < |s.overridePwm| ==> s.overridePwm[r] == None
  }

  /** Safety of one step: the setpoint is 0 or within [38, 80], at most 50 unless the floor
      valve is reported closed, 0 with all valves at their defaults after any fault; when it
      is positive the main room's valve is commanded fully open; the main room changes only
      to a room that wants heat and whose valve is fully open; every valve command is within
      [0, 100]. */
  lemma ProcessSafe(c: Control, s: Settings, hw: Hw, inp: Inputs)
    requires Shaped(c, s, hw) && Sees(inp) && Sane(c) && NoOverrides(s)
    ensures var (c', hw') := Process(c, s, hw, inp);
            Sane(c') && SafeOutputs(c, s, hw, inp, c', hw')
  {
    hide *;
    DecidedSafe(c, s, hw, inp);
    DecisionUsable(c, s, hw, inp, Decided(c, s, hw, inp));
    var d := Decided(c, s, hw, inp);
    UpdateSafe(d, s, hw, inp.tp);
    OutputsSafe(c, s, hw, inp, d);
  }

  /** What holds of a decision before the outputs are set. */
  ghost predicate DecisionSafe(c: Control, s: Settings, hw: Hw, inp: Inputs, d: Control)
    requires Shaped(c, s, hw) && Sees(inp) && Shaped(d, s, hw)
  {
    && Sane(d) && (d.setDefault ==> d.tCH == 0.0) && (!d.setDefault ==> d.pwm[d.mainRoom] == 100.0)
    && (c.error || Faulty(inp) ==> d.error) && (!IsClosed(hw.tevs[FLOOR], inp.tp) ==> d.tCH <= LIM_HIGH_FLOOR)
    && (d.mainRoom != c.mainRoom ==> s.roomSP[d.mainRoom] > 0.0 && IsOpened(hw.tevs[d.mainRoom], inp.tp))
  }

  lemma DecidedSafe(c: Control, s: Settings, hw: Hw, inp: Inputs)
    requires Shaped(c, s, hw) && Sees(inp) && Sane(c)
    ensures DecisionSafe(c, s, hw, inp, Decided(c, s, hw, inp))
  {
    CalcSafe(c, s, hw, inp);
    var k := Calc(c, s, hw, inp);
    hide Calc, Faulty, IsOpened;
    CheckSafe(k, hw, inp);
    assert Check(k, hw, inp) == Decided(c, s, hw, inp);
    if Faulty(inp) && inp.floorSupply != None && inp.floorSupply.value <= FLOOR_SUPPLY_MAX {
      FaultSeen(inp);
    }
    FaultySupply(inp);
    hide Check, Decided, IsClosed;
  }

  lemma DecisionUsable(c: Control, s: Settings, hw: Hw, inp: Inputs, d: Control)
    requires Shaped(c, s, hw) && Sees(inp) && Shaped(d, s, hw) && DecisionSafe(c, s, hw, inp, d)
    ensures Sane(d) && (d.setDefault ==> d.tCH == 0.0) && |d.pwm| == ROOMS
            && (!d.setDefault ==> d.pwm[d.mainRoom] == 100.0)
  {
    hide Sane, IsClosed, IsOpened, Faulty;
  }

  lemma FaultySupply(inp: Inputs)
    ensures inp.floorSupply == None || inp.floorSupply.value > FLOOR_SUPPLY_MAX ==> Faulty(inp)
  {
  }

  lemma OutputsSafe(c: Control, s: Settings, hw: Hw, inp: Inputs, d: Control)
    requires Shaped(c, s, hw) && Sees(inp) && Shaped(d, s, hw) && d == Decided(c, s, hw, inp)
    requires DecisionSafe(c, s, hw, inp, d) && Updated(d, hw, Update(d, s, hw, inp.tp))
    ensures var (c', hw') := Process(c, s, hw, inp); Sane(c') && SafeOutputs(c, s, hw, inp, c', hw')
  {
    hide Decided, Update, IsClosed, IsOpened, Faulty;
  }

  lemma CheckSafe(c: Control, hw: Hw, inp: Inputs)
    requires |hw.tevs| == ROOMS && Sane(c) && c.tCH <= c.limHigh
    ensures var d := Check(c, hw, inp);
            && Sane(d) && d == c.(limHigh := d.limHigh, tCH := d.tCH, error := d.error)
            && (d.tCH > 0.0 ==> c.tCH > 0.0) && (!IsClosed(hw.tevs[FLOOR], inp.tp) ==> d.tCH <= LIM_HIGH_FLOOR)
            && (d.error <==> c.error || inp.floorSupply == None || inp.floorSupply.value > FLOOR_SUPPLY_MAX)
  {
    hide IsClosed;
  }

  /** Outputs as they are set from a decision. */
  ghost predicate Updated(d: Control, hw: Hw, r: Hw) {
    && |r.tevs| == ROOMS == |hw.tevs|
    && r.chSetpoint == (if d.error then 0.0 else d.tCH)
    && (d.error ==> forall i :: 0 <= i < ROOMS ==> r.tevs[i].value == Some(DefVal(hw.tevs[i])))
    && (r.chSetpoint > 0.0 ==> r.tevs[d.mainRoom].value == Some(100.0))
    && (forall i :: 0 <= i < ROOMS ==> r.tevs[i].value.Some? && 0.0 <= r.tevs[i].value.value <= 100.0)
  }

  lemma UpdateSafe(d: Control, s: Settings, hw: Hw, tp: int)
    requires Shaped(d, s, hw) && NoOverrides(s) && Sane(d)
    requires (d.setDefault ==> d.tCH == 0.0) && (!d.setDefault ==> d.pwm[d.mainRoom] == 100.0)
    ensures Updated(d, hw, Update(d, s, hw, tp))
  {
  }

  lemma FaultSeen(inp: Inputs)
    requires Faulty(inp) && inp.floorSupply != None && inp.floorSupply.value <= FLOOR_SUPPLY_MAX
    ensures exists k :: 0 <= k < |inp.rooms| && inp.rooms[k] == None
  {
  }

  // ---------- runs ----------

  /** One step of the plant: new settings and inputs. */
  datatype Tick = Tick(s: Settings, inp: Inputs)

  ghost predicate Proper(t: Tick) {
    |t.s.roomSP| == ROOMS && |t.s.overridePwm| == ROOMS && NoOverrides(t.s) && Sees(t.inp)
  }

  ghost predicate AllProper(ts: seq<Tick>) { forall t :: t in ts ==> Proper(t) }

  ghost predicate Ready(c: Control, hw: Hw) {
    && |c.pwm| == ROOMS && |c.temps| == ROOMS && |hw.tevs| == ROOMS && Sane(c)
    && forall i :: 0 <= i < ROOMS ==> RingOk(c.temps[i])
  }

  function Run(c: Control, hw: Hw, ts: seq<Tick>): (Control, Hw)
    requires Ready(c, hw) && AllProper(ts)
    decreases |ts|
  {
    if ts == [] then (c, hw)
    else
      assert Proper(ts[0]);
      ProcessSafe(c, ts[0].s, hw, ts[0].inp);
      var (c1, hw1) := Process(c, ts[0].s, hw, ts[0].inp);
      Run(c1, hw1, ts[1..])
  }

  /** Safety over runs: from the start state every step of every run is safe, whatever the
      setpoints, temperatures and times are. */
  lemma {:induction false} EveryStepSafe(c: Control, hw: Hw, ts: seq<Tick>, last: Tick)
    requires Ready(c, hw) && AllProper(ts) && Proper(last)
    ensures var (c1, hw1) := Run(c, hw, ts);
            && Ready(c1, hw1)
            && var (c2, hw2) := Process(c1, last.s, hw1, last.inp);
               SafeOutputs(c1, last.s, hw1, last.inp, c2, hw2)
    decreases |ts|
  {
    if ts == [] {
      ProcessSafe(c, last.s, hw, last.inp);
    } else {
      assert Proper(ts[0]);
      ProcessSafe(c, ts[0].s, hw, ts[0].inp);
      var (c1, hw1) := Process(c, ts[0].s, hw, ts[0].inp);
      hide Process, SafeOutputs, NoOverrides;
      EveryStepSafe(c1, hw1, ts[1..], last);
    }
  }

  /** An error holds for 92 steps exactly: while fewer have passed it stays, whatever the
      inputs are, and then it is cleared. */
  lemma {:induction false} ErrorHolds(c: Control, hw: Hw, ts: seq<Tick>)
    requires Ready(c, hw) && AllProper(ts) && c.error
    requires c.autoclear <= 91 && c.autoclear + |ts| <= 92
    ensures Run(c, hw, ts).0.error <==> c.autoclear + |ts| < 92
    decreases |ts|
  {
    if ts != [] {
      assert Proper(ts[0]);
      ProcessSafe(c, ts[0].s, hw, ts[0].inp);
      ErrorStays(c, ts[0].s, hw, ts[0].inp);
      var (c1, hw1) := Process(c, ts[0].s, hw, ts[0].inp);
      hide Process;
      if c1.error {
        ErrorHolds(c1, hw1, ts[1..]);
      } else {
        assert |ts| == 1;
      }
    }
  }

  lemma ErrorStays(c: Control, s: Settings, hw: Hw, inp: Inputs)
    requires Shaped(c, s, hw) && Sees(inp) && Sane(c) && c.error
    ensures var c' := Process(c, s, hw, inp).0;
            if c.autoclear > AUTOCLEAR then !c'.error else c'.error && c'.autoclear == c.autoclear + 1
  {
    CalcSafe(c, s, hw, inp);
    hide Calc, IsClosed;
  }
}
