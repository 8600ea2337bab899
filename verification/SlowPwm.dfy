/** The software PWM on an I2C output expander: six slow PWM channels and two digital
    outputs share one byte. Times are milliseconds. The worker thread and the callers
    interleave at the points where the lock is free.
  */
module SlowPwm {

  const MIN_TS := 10
  const NR_TS := 100
  const PERIOD := MIN_TS * NR_TS

  /** A byte as its eight bits, bit 0 first. */
  type Byte = b: seq<bool> | |b| == 8 witness [false, false, false, false, false, false, false, false]

  function Zero(): (b: Byte)
    ensures forall k :: 0 <= k < 8 ==> !b[k]
  {
    [false, false, false, false, false, false, false, false]
  }

  /** Where the source's map puts channel idx: 6 and 7 are the digital outputs. */
  function BitOf(idx: int): int
    requires 0 <= idx < 8
  {
    [7, 6, 5, 4, 3, 2, 0, 1][idx]
  }

  /** Rounding half away from zero. */
  function Lround(x: real): int { if x < 0.0 then -(0.5 - x).Floor else (x + 0.5).Floor }

  /** How long a duty (in percent) keeps a channel on. */
  function CalcDur(duty: real): int { MIN_TS * Lround(NR_TS as real * duty / 100.0) }

  type Duty = d: real | 0.0 <= d <= 100.0

  type Duties = ds: seq<Duty> | |ds| == 6 witness [0.0, 0.0, 0.0, 0.0, 0.0, 0.0]

  /** The multiple of 10 ms nearest to a duty's share of a second. */
  ghost predicate Nearest(width: int, d: real) {
    width % 10 == 0 && 10.0 * d - 5.0 < width as real <= 10.0 * d + 5.0
  }

  lemma DurInRange(d: Duty)
    ensures Nearest(CalcDur(d), d) && 0 <= CalcDur(d) <= PERIOD
  {
    var x := NR_TS as real * d / 100.0;
    assert x == d;
  }

  /** That is one width for each duty, from nothing for 0 to a second for 100, and never less
      for a greater duty. */
  lemma NearestIs(v: int, w: int, c: Duty, d: Duty)
    requires Nearest(v, c) && Nearest(w, d) && c <= d
    ensures v <= w && (c == d ==> v == w) && (d == 0.0 ==> w == 0) && (c == 100.0 ==> v == 1000)
    ensures 0 <= v <= w <= 1000
  {
    var m, n := v / 10, w / 10;
    assert v == 10 * m && w == 10 * n;
    assert m <= n;
  }

  /** When a channel is due to go off; Never is the clock's largest time. */
  datatype Off = Never | Due(t: int)

  type Offs = os: seq<Off> | |os| == 6 witness [Never, Never, Never, Never, Never, Never]

  /** What only the worker thread changes. */
  datatype Sched = Sched(off: Offs, schedule: seq<int>, bits: Byte, to: int, next: int, isT0: bool)

  predicate Partial(width: int) { 0 < width < PERIOD }

  // ---------- one deadline, as functions ----------

  function Widths(duty: Duties): (w: seq<int>)
    ensures |w| == 6 && forall i :: 0 <= i < 6 ==> w[i] == CalcDur(duty[i])
  {
    seq(6, i requires 0 <= i < 6 => CalcDur(duty[i]))
  }

  /** The switch-off times of the first n channels that are on for part of a period. */
  function Ends(start: int, w: seq<int>, n: nat): seq<int>
    requires n <= |w|
  {
    if n == 0 then []
    else Ends(start, w, n - 1) + (if Partial(w[n - 1]) then [start + w[n - 1]] else [])
  }

  function InsertDesc(x: int, s: seq<int>): seq<int> {
    if s == [] || x >= s[0] then [x] + s else [s[0]] + InsertDesc(x, s[1..])
  }

  /** std::sort with std::greater. */
  function SortDesc(s: seq<int>): seq<int> {
    if s == [] then [] else InsertDesc(s[0], SortDesc(s[1..]))
  }

  /** std::unique and erase: of neighbours that are equal one stays. */
  function Unique(s: seq<int>): seq<int> {
    if |s| <= 1 then s
    else if s[0] == s[1] then Unique(s[1..])
    else [s[0]] + Unique(s[1..])
  }

  function LatchedOff(off: Offs, start: int, w: seq<int>): (r: Offs)
    requires |w| == 6
    ensures forall i :: 0 <= i < 6 ==>
              r[i] == if w[i] == PERIOD then Never else if w[i] > 0 then Due(start + w[i]) else off[i]
  {
    seq(6, i requires 0 <= i < 6 =>
             if w[i] == PERIOD then Never else if w[i] > 0 then Due(start + w[i]) else off[i])
  }

  /** The byte with the bit of each channel below n chosen by on, the others kept. */
  function WithBits(bits: Byte, on: seq<bool>, n: nat): (r: Byte)
    requires n <= 6 <= |on|
  {
    if n == 0 then bits else WithBits(bits, on, n - 1)[BitOf(n - 1) := on[n - 1]]
  }

  lemma {:induction false} WithBitsAt(bits: Byte, on: seq<bool>, n: nat, k: int)
    requires n <= 6 <= |on| && 0 <= k < 8
    ensures WithBits(bits, on, n)[BitOf(k)] == if k < n then on[k] else bits[BitOf(k)]
  {
    if n > 0 {
      WithBitsAt(bits, on, n - 1, k);
    }
  }

  lemma LatchBase(bits: Byte, on: seq<bool>, start: int, w: seq<int>)
    requires |on| == |w| == 6
    ensures WithBits(bits, on, 0) == bits && Ends(start, w, 0) == []
  {
  }

  lemma LatchStep(bits: Byte, on: seq<bool>, start: int, w: seq<int>, n: nat)
    requires n < 6 == |on| == |w|
    ensures WithBits(bits, on, n + 1) == WithBits(bits, on, n)[BitOf(n) := on[n]]
    ensures WithBits(bits, on, n)[BitOf(n)] == bits[BitOf(n)]
    ensures Ends(start, w, n + 1) == Ends(start, w, n) + (if Partial(w[n]) then [start + w[n]] else [])
  {
    WithBitsAt(bits, on, n, n);
  }

  function On(w: seq<int>): (r: seq<bool>)
    ensures |r| == |w| && forall i :: 0 <= i < |w| ==> r[i] == (w[i] == PERIOD || w[i] > 0)
  {
    seq(|w|, i requires 0 <= i < |w| => w[i] == PERIOD || w[i] > 0)
  }

  /** The channels not yet due at time t stay as they are. */
  function Still(bits: Byte, off: Offs, t: int): (r: seq<bool>)
    ensures |r| == 6 && forall i :: 0 <= i < 6 ==> r[i] == (bits[BitOf(i)] && !(off[i].Due? && t >= off[i].t))
  {
    seq(6, i requires 0 <= i < 6 => bits[BitOf(i)] && !(off[i].Due? && t >= off[i].t))
  }

  /** The deadline after this one. */
  function Advance(s: Sched): Sched {
    if s.schedule == [] then s.(isT0 := true, to := s.next)
    else s.(isT0 := false, to := s.schedule[|s.schedule| - 1], schedule := s.schedule[..|s.schedule| - 1])
  }

  /** The start of a period: the duties are latched. */
  function Latch(s: Sched, w: seq<int>): Sched
    requires |w| == 6
  {
    s.(next := s.to + PERIOD, bits := WithBits(Zero(), On(w), 6), off := LatchedOff(s.off, s.to, w),
       schedule := Unique(SortDesc(s.schedule + Ends(s.to, w, 6))))
  }

  /** Inside a period: channels that are due go off. */
  function SwitchOff(s: Sched): Sched {
    s.(bits := WithBits(s.bits, Still(s.bits, s.off, s.to), 6))
  }

  function Turn(s: Sched, w: seq<int>): Sched
    requires |w| == 6
  {
    Advance(if s.isT0 then Latch(s, w) else SwitchOff(s))
  }

  // ---------- the queue ----------

  ghost predicate Descending(s: seq<int>) { forall i, j :: 0 <= i < j < |s| ==> s[i] >= s[j] }

  ghost predicate StrictlyDescending(s: seq<int>) { forall i, j :: 0 <= i < j < |s| ==> s[i] > s[j] }

  lemma {:induction false} InsertDescSorts(x: int, s: seq<int>)
    requires Descending(s)
    ensures Descending(InsertDesc(x, s)) && forall y :: y in InsertDesc(x, s) <==> y == x || y in s
  {
    if !(s == [] || x >= s[0]) {
      InsertDescSorts(x, s[1..]);
      var r := InsertDesc(x, s[1..]);
      assert s == [s[0]] + s[1..];
      forall j | 0 <= j < |r| ensures s[0] >= r[j] {
        assert r[j] in r;
      }
      hide InsertDesc;
    }
  }

  lemma {:induction false} SortDescSorts(s: seq<int>)
    ensures Descending(SortDesc(s)) && forall y :: y in SortDesc(s) <==> y in s
  {
    if s != [] {
      SortDescSorts(s[1..]);
      InsertDescSorts(s[0], SortDesc(s[1..]));
      assert s == [s[0]] + s[1..];
    }
  }

  lemma {:induction false} UniqueIsStrict(s: seq<int>)
    requires Descending(s)
    ensures StrictlyDescending(Unique(s)) && forall x :: x in Unique(s) <==> x in s
  {
    if |s| > 1 {
      UniqueIsStrict(s[1..]);
      assert s == [s[0]] + s[1..];
      var u := Unique(s[1..]);
      if s[0] != s[1] {
        forall j | 0 <= j < |u| ensures s[0] > u[j] {
          assert u[j] in u;
        }
      }
    }
  }

  lemma {:induction false} EndsAre(start: int, w: seq<int>, n: nat, x: int)
    requires n <= |w|
    ensures x in Ends(start, w, n) <==> exists i :: 0 <= i < n && Partial(w[i]) && start + w[i] == x
  {
    if n > 0 {
      EndsAre(start, w, n - 1, x);
    }
  }

  /** Sorted and without repetitions the queue holds exactly the switch-off times. */
  lemma QueueIs(start: int, w: seq<int>)
    requires |w| == 6
    ensures var q := Unique(SortDesc([] + Ends(start, w, 6)));
            StrictlyDescending(q) && forall x :: x in q <==> Pending(start, w, start, x)
  {
    var e := Ends(start, w, 6);
    assert [] + e == e;
    SortDescSorts(e);
    UniqueIsStrict(SortDesc(e));
    forall x ensures x in Unique(SortDesc(e)) <==> Pending(start, w, start, x) {
      EndsAre(start, w, 6, x);
    }
  }

  /** x is the switch-off time of some channel, after time from. */
  ghost predicate Pending(start: int, w: seq<int>, from: int, x: int)
    requires |w| == 6
  {
    x > from && exists i :: 0 <= i < 6 && Partial(w[i]) && start + w[i] == x
  }

  /** In a period that began at start with widths w, after the deadline from was handled. */
  ghost predicate InPeriod(s: Sched, start: int, w: seq<int>, from: int) {
    && |w| == 6 && (forall i :: 0 <= i < 6 ==> 0 <= w[i] <= PERIOD)
    && start <= from < s.to <= s.next == start + PERIOD
    && s.isT0 == (s.to == s.next) && (s.isT0 ==> s.schedule == [])
    && StrictlyDescending(s.schedule)
    && (forall x :: x in s.schedule ==> s.to < x < s.next)
    && (forall x :: Pending(start, w, from, x) <==> x in s.schedule || (!s.isT0 && x == s.to))
    && (forall i :: 0 <= i < 6 && w[i] > 0 ==> s.off[i] == if w[i] == PERIOD then Never else Due(start + w[i]))
    && (forall i :: 0 <= i < 6 ==> s.bits[BitOf(i)] == (from < start + w[i]))
    && !s.bits[BitOf(6)] && !s.bits[BitOf(7)]
  }

  lemma LatchBits(w: seq<int>)
    requires |w| == 6 && forall i :: 0 <= i < 6 ==> 0 <= w[i] <= PERIOD
    ensures var bits := WithBits(Zero(), On(w), 6);
            && (forall i :: 0 <= i < 6 ==> bits[BitOf(i)] == (0 < w[i]))
            && !bits[BitOf(6)] && !bits[BitOf(7)]
  {
    forall k | 0 <= k < 8
      ensures WithBits(Zero(), On(w), 6)[BitOf(k)] == if k < 6 then On(w)[k] else Zero()[BitOf(k)]
    {
      WithBitsAt(Zero(), On(w), 6, k);
    }
  }

  /** Taking the next deadline off the queue. */
  lemma AdvancePops(l: Sched, from: int)
    requires StrictlyDescending(l.schedule) && from < l.next
    requires forall x :: x in l.schedule ==> from < x < l.next
    ensures var s' := Advance(l);
            && from < s'.to <= s'.next && s'.isT0 == (s'.to == s'.next) && (s'.isT0 ==> s'.schedule == [])
            && StrictlyDescending(s'.schedule)
            && (forall x :: x in s'.schedule ==> s'.to < x < s'.next)
            && (forall x :: x in l.schedule <==> x in s'.schedule || (!s'.isT0 && x == s'.to))
            && s'.bits == l.bits && s'.off == l.off && s'.next == l.next
            && |s'.schedule| + (if s'.isT0 then 0 else 1) == |l.schedule|
  {
    var s' := Advance(l);
    if l.schedule != [] {
      assert s'.to in l.schedule;
      assert l.schedule == s'.schedule + [s'.to];
      forall x | x in s'.schedule ensures s'.to < x < s'.next {
        var k :| 0 <= k < |s'.schedule| && s'.schedule[k] == x;
        assert l.schedule[k] == x && x in l.schedule;
      }
    }
  }

  lemma LatchedQueue(s: Sched, w: seq<int>)
    requires |w| == 6 && forall i :: 0 <= i < 6 ==> 0 <= w[i] <= PERIOD
    requires s.schedule == []
    ensures var l := Latch(s, w);
            && StrictlyDescending(l.schedule) && s.to < l.next == s.to + PERIOD
            && (forall x :: x in l.schedule <==> Pending(s.to, w, s.to, x))
            && forall x :: x in l.schedule ==> s.to < x < l.next
  {
    QueueIs(s.to, w);
    hide WithBits, SortDesc, Unique, Ends, On, Zero, StrictlyDescending;
  }

  lemma LatchedChannels(s: Sched, w: seq<int>)
    requires |w| == 6 && forall i :: 0 <= i < 6 ==> 0 <= w[i] <= PERIOD
    ensures var l := Latch(s, w);
            && (forall i :: 0 <= i < 6 && w[i] > 0 ==> l.off[i] == if w[i] == PERIOD then Never else Due(s.to + w[i]))
            && (forall i :: 0 <= i < 6 ==> l.bits[BitOf(i)] == (0 < w[i]))
            && !l.bits[BitOf(6)] && !l.bits[BitOf(7)]
  {
    LatchBits(w);
    hide WithBits, SortDesc, Unique, Ends, On, Zero;
  }

  lemma TurnLatches(s: Sched, w: seq<int>)
    requires |w| == 6 && s.isT0
    ensures Turn(s, w) == Advance(Latch(s, w))
  {
    hide Advance, Latch;
  }

  lemma PeriodBegins(s: Sched, l: Sched, start: int, w: seq<int>)
    requires |w| == 6 && forall i :: 0 <= i < 6 ==> 0 <= w[i] <= PERIOD
    requires start < s.to <= s.next == l.next == start + PERIOD && s.isT0 == (s.to == s.next)
             && (s.isT0 ==> s.schedule == [])
    requires StrictlyDescending(s.schedule) && forall x :: x in s.schedule ==> s.to < x < s.next
    requires forall x :: x in l.schedule <==> Pending(start, w, start, x)
    requires forall x :: x in l.schedule <==> x in s.schedule || (!s.isT0 && x == s.to)
    requires forall i :: 0 <= i < 6 && w[i] > 0 ==> l.off[i] == if w[i] == PERIOD then Never else Due(start + w[i])
    requires forall i :: 0 <= i < 6 ==> l.bits[BitOf(i)] == (0 < w[i])
    requires !l.bits[BitOf(6)] && !l.bits[BitOf(7)] && s.bits == l.bits && s.off == l.off
    ensures InPeriod(s, start, w, start)
  {
    hide Pending, StrictlyDescending;
  }

  lemma LatchStarts(s: Sched, w: seq<int>)
    requires |w| == 6 && forall i :: 0 <= i < 6 ==> 0 <= w[i] <= PERIOD
    requires s.isT0 && s.schedule == []
    ensures InPeriod(Turn(s, w), s.to, w, s.to)
  {
    hide *;
    var l := Latch(s, w);
    TurnLatches(s, w);
    LatchedQueue(s, w);
    LatchedChannels(s, w);
    AdvancePops(l, s.to);
    PeriodBegins(Advance(l), l, s.to, w);
  }

  lemma SwitchOffBits(s: Sched, start: int, w: seq<int>, from: int)
    requires InPeriod(s, start, w, from) && !s.isT0
    ensures var bits := SwitchOff(s).bits;
            && (forall i :: 0 <= i < 6 ==> bits[BitOf(i)] == (s.to < start + w[i]))
            && !bits[BitOf(6)] && !bits[BitOf(7)]
  {
    forall k | 0 <= k < 8
      ensures WithBits(s.bits, Still(s.bits, s.off, s.to), 6)[BitOf(k)]
              == if k < 6 then Still(s.bits, s.off, s.to)[k] else s.bits[BitOf(k)]
    {
      WithBitsAt(s.bits, Still(s.bits, s.off, s.to), 6, k);
    }
    hide WithBits, Pending, StrictlyDescending;
  }

  lemma SwitchOffKeeps(s: Sched, start: int, w: seq<int>, from: int)
    requires InPeriod(s, start, w, from) && !s.isT0
    ensures InPeriod(Advance(SwitchOff(s)), start, w, s.to)
  {
    SwitchOffBits(s, start, w, from);
    var l := SwitchOff(s);
    hide WithBits, Still;
    assert forall x :: Pending(start, w, from, x) <==> x in l.schedule || x == s.to;
    assert forall x :: Pending(start, w, s.to, x) <==> Pending(start, w, from, x) && x > s.to;
    AdvancePops(l, s.to);
    hide Advance, Pending, StrictlyDescending;
  }

  // ---------- the whole object ----------

  /** Waiting on the condition variable, or about to write a byte to the expander with
      the lock already free. */
  datatype Phase = Waiting | Writing(val: Byte)

  datatype Pwm = Pwm(duty: Duties, sched: Sched, last: Byte, d1: bool, d2: bool, phase: Phase)

  datatype Outcome = Done | OutOfRange

  /** The byte to show: the PWM bits and the two digital outputs. */
  function CalcNewVal(bits: Byte, d1: bool, d2: bool): Byte {
    var b := if d1 then bits[BitOf(6) := true] else bits;
    if d2 then b[BitOf(7) := true] else b
  }

  function NewVal(p: Pwm): Byte { CalcNewVal(p.sched.bits, p.d1, p.d2) }

  datatype Event = SetDuty(idx: nat, value: real) | Dig1(v: bool) | Dig2(v: bool) | Timeout | Wake | Write

  /** The condition variable reports a timeout only when there is nothing to write. */
  predicate Enabled(p: Pwm, e: Event) {
    match e
    case Timeout => p.phase == Waiting && NewVal(p) == p.last
    case Wake => p.phase == Waiting && NewVal(p) != p.last
    case Write => p.phase != Waiting
    case _ => true
  }

  function AfterUpdate(p: Pwm, idx: nat, value: real): (Pwm, Outcome) {
    if idx >= 6 || value > 100.0 || value < 0.0 then (p, OutOfRange) else (p.(duty := p.duty[idx := value]), Done)
  }

  function AfterTimeout(p: Pwm): Pwm {
    var p' := p.(sched := Turn(p.sched, Widths(p.duty)));
    p'.(phase := if NewVal(p') != p'.last then Writing(NewVal(p')) else Waiting)
  }

  function Step(p: Pwm, e: Event): Pwm
    requires Enabled(p, e)
  {
    match e
    case SetDuty(idx, value) => AfterUpdate(p, idx, value).0
    case Dig1(v) => p.(d1 := v)
    case Dig2(v) => p.(d2 := v)
    case Timeout => AfterTimeout(p)
    case Wake => p.(phase := Writing(NewVal(p)))
    case Write => p.(last := p.phase.val, phase := Waiting)
  }

  class SlowSwI2cPwm {
    var duty: Duties
    var off: Offs
    var schedule: seq<int>
    var pwmBits: Byte
    var lastValue: Byte
    var d1: bool
    var d2: bool
    var to: int
    var next: int
    var isT0: bool
    var phase: Phase

    ghost function View(): Pwm
      reads this
    {
      Pwm(duty, Sched(off, schedule, pwmBits, to, next, isT0), lastValue, d1, d2, phase)
    }

    constructor (now: int)
      ensures View() == Start(now, next)
    {
      duty := [0.0, 0.0, 0.0, 0.0, 0.0, 0.0];
      off := [Never, Never, Never, Never, Never, Never];
      schedule, pwmBits, lastValue := [], Zero(), Zero();
      d1, d2, to, isT0, phase := false, false, now + PERIOD, true, Waiting;
    }

    method Update(idx: nat, value: real) returns (r: Outcome)
      modifies this
      ensures (View(), r) == AfterUpdate(old(View()), idx, value)
    {
      if idx >= 6 {
        return OutOfRange;
      }
      if value > 100.0 || value < 0.0 {
        return OutOfRange;
      }
      duty := duty[idx := value];
      r := Done;
    }

    method DigOut(second: bool, v: bool)
      modifies this
      ensures View() == Step(old(View()), if second then Dig2(v) else Dig1(v))
    {
      if second {
        d2 := v;
      } else {
        d1 := v;
      }
    }

    /** The wait ended because there is something to write. */
    method OnWake()
      requires Enabled(View(), Wake)
      modifies this
      ensures View() == Step(old(View()), Wake)
    {
      phase := Writing(CalcNewVal(pwmBits, d1, d2));
    }

    method WriteByte() returns (written: Byte)
      requires Enabled(View(), Write)
      modifies this
      ensures View() == Step(old(View()), Write) && written == old(View().phase.val)
    {
      lastValue := phase.val;
      written := lastValue;
      phase := Waiting;
    }

    /** The wait ended at the deadline. */
    method OnTimeout()
      requires Enabled(View(), Timeout)
      modifies this
      ensures View() == Step(old(View()), Timeout)
    {
      hide Latch, SwitchOff, Widths, CalcNewVal, Advance;
      if isT0 {
        LatchDuties();
      } else {
        SwitchDueOff();
      }
      NextDeadline();
      var newval := CalcNewVal(pwmBits, d1, d2);
      if newval != lastValue {
        phase := Writing(newval);
      }
    }

    method NextDeadline()
      modifies `isT0, `to, `schedule
      ensures View() == old(View()).(sched := Advance(old(View()).sched))
    {
      isT0 := schedule == [];
      if isT0 {
        to := next;
      } else {
        to := schedule[|schedule| - 1];
        schedule := schedule[..|schedule| - 1];
      }
    }

    method LatchDuties()
      modifies `off, `schedule, `pwmBits, `next
      ensures View() == old(View()).(sched := Latch(old(View()).sched, Widths(duty)))
    {
      hide Unique, SortDesc, WithBits, Ends, CalcDur;
      ghost var w, off0, schedule0 := Widths(duty), off, schedule;
      next := to + PERIOD;
      pwmBits := Zero();
      LatchBase(Zero(), On(w), to, w);
      for idx := 0 to 6
        invariant next == to + PERIOD && pwmBits == WithBits(Zero(), On(w), idx)
        invariant schedule == schedule0 + Ends(to, w, idx)
        invariant forall i :: 0 <= i < 6 ==> off[i] == if i < idx then LatchedOff(off0, to, w)[i] else off0[i]
      {
        var width := CalcDur(duty[idx]);
        DurInRange(duty[idx]);
        LatchStep(Zero(), On(w), to, w, idx);
        if width == PERIOD {
          pwmBits := pwmBits[BitOf(idx) := true];
          off := off[idx := Never];
        } else if width > 0 {
          pwmBits := pwmBits[BitOf(idx) := true];
          off := off[idx := Due(to + width)];
          schedule := schedule + [to + width];
        }
      }
      assert off == LatchedOff(off0, to, w);
      schedule := Unique(SortDesc(schedule));
    }

    method SwitchDueOff()
      modifies `pwmBits
      ensures View() == old(View()).(sched := SwitchOff(old(View()).sched))
    {
      ghost var bits0 := pwmBits;
      for idx := 0 to 6
        invariant pwmBits == WithBits(bits0, Still(bits0, off, to), idx)
      {
        WithBitsAt(bits0, Still(bits0, off, to), idx, idx);
        if off[idx].Due? && to >= off[idx].t {
          pwmBits := pwmBits[BitOf(idx) := false];
        }
      }
    }
  }

  /** A new object: nothing is on, the first period begins after one period of waiting;
      the end of that period is not yet set. */
  function Start(now: int, next: int): Pwm {
    Pwm([0.0, 0.0, 0.0, 0.0, 0.0, 0.0],
        Sched([Never, Never, Never, Never, Never, Never], [], Zero(), now + PERIOD, next, true),
        Zero(), false, false, Waiting)
  }

  // ---------- ideal PWM ----------

  /** What the PWM bits were between two deadlines. */
  datatype Segment = Segment(from: int, until: int, bits: Byte)

  /** All segments so far, the widths latched at each start of a period, and how many
      deadlines the current period has had. */
  datatype History = History(segments: seq<Segment>, latched: seq<seq<int>>, wakeUps: nat)

  function Record(p: Pwm, e: Event, h: History): History
    requires Enabled(p, e)
  {
    if e != Timeout then h
    else
      var s, s' := p.sched, Step(p, e).sched;
      History(h.segments + [Segment(s.to, s'.to, s'.bits)],
              if s.isT0 then h.latched + [Widths(p.duty)] else h.latched,
              if s.isT0 then 1 else h.wakeUps + 1)
  }

  ghost predicate IsRun(p: Pwm, es: seq<Event>)
    decreases |es|
  {
    es == [] || (Enabled(p, es[0]) && IsRun(Step(p, es[0]), es[1..]))
  }

  function Run(p: Pwm, h: History, es: seq<Event>): (Pwm, History)
    requires IsRun(p, es)
    decreases |es|
  {
    if es == [] then (p, h) else Run(Step(p, es[0]), Record(p, es[0], h), es[1..])
  }

  /** Ideal PWM: in second k, counted from first, channel i is on for latched[k][i] ms. */
  ghost predicate Ideal(first: int, latched: seq<seq<int>>, i: int, t: int) {
    var k := (t - first) / 1000;
    0 <= k < |latched| && 0 <= i < |latched[k]| && (t - first) % 1000 < latched[k][i]
  }

  /** Channel i has bit 7 - i. */
  ghost predicate ShowsIdeal(g: Segment, first: int, latched: seq<seq<int>>) {
    forall t, i :: g.from <= t < g.until && 0 <= i < 6 ==> g.bits[7 - i] == Ideal(first, latched, i, t)
  }

  /** The segments follow each other without a gap from first to end. */
  ghost predicate Tiles(gs: seq<Segment>, first: int, end: int) {
    && (gs == [] ==> first == end)
    && (gs != [] ==> gs[0].from == first && gs[|gs| - 1].until == end)
    && (forall k :: 0 <= k < |gs| ==> gs[k].from < gs[k].until)
    && (forall k :: 0 < k < |gs| ==> gs[k - 1].until == gs[k].from)
  }

  /** The distinct switch-off times of a period. */
  ghost function EndTimes(start: int, w: seq<int>): set<int> {
    set i | 0 <= i < |w| && Partial(w[i]) :: start + w[i]
  }

  /** Everything shown so far was ideal PWM, up to the coming deadline. */
  ghost predicate Traced(h: History, first: int, to: int) {
    && Tiles(h.segments, first, to)
    && (forall g :: g in h.segments ==> ShowsIdeal(g, first, h.latched))
    && (forall g :: g in h.segments ==> first <= g.from && g.until <= first + |h.latched| * PERIOD)
    && (h.segments == [] <==> h.latched == [])
  }

  ghost predicate WithinPeriod(s: Sched, start: int, w: seq<int>, g: Segment, wakeUps: nat) {
    && InPeriod(s, start, w, g.from) && g.bits == s.bits
    && wakeUps + |s.schedule| + (if s.isT0 then 0 else 1) == |EndTimes(start, w)| + 1
  }

  /** Before the first period, or in the period latched last. */
  ghost predicate Current(s: Sched, h: History, first: int) {
    if h.latched == [] || h.segments == [] then
      s.isT0 && s.schedule == [] && forall k :: 0 <= k < 8 ==> !s.bits[BitOf(k)]
    else
      WithinPeriod(s, first + (|h.latched| - 1) * PERIOD, h.latched[|h.latched| - 1],
                   h.segments[|h.segments| - 1], h.wakeUps)
  }

  lemma {:induction false} StrictSize(q: seq<int>)
    requires StrictlyDescending(q)
    ensures |(set x | x in q)| == |q|
    decreases |q|
  {
    if q != [] {
      StrictSize(q[1..]);
      assert (set x | x in q) == (set x | x in q[1..]) + {q[0]};
    }
  }

  /** Right after the duties are latched all distinct switch-off times are queued. */
  lemma QueueSize(s: Sched, start: int, w: seq<int>)
    requires InPeriod(s, start, w, start)
    ensures |EndTimes(start, w)| == |s.schedule| + (if s.isT0 then 0 else 1)
  {
    StrictSize(s.schedule);
    var queued := set x | x in s.schedule;
    forall x ensures x in EndTimes(start, w) <==> Pending(start, w, start, x) {
    }
    if s.isT0 {
      assert EndTimes(start, w) == queued;
    } else {
      assert EndTimes(start, w) == queued + {s.to};
    }
  }

  /** Between two deadlines of one period the PWM bits are those of ideal PWM. */
  lemma SegmentIsIdeal(s: Sched, start: int, w: seq<int>, from: int, first: int, latched: seq<seq<int>>)
    requires InPeriod(s, start, w, from)
    requires latched != [] && latched[|latched| - 1] == w && start == first + (|latched| - 1) * PERIOD
    ensures ShowsIdeal(Segment(from, s.to, s.bits), first, latched)
  {
    forall t, i | from <= t < s.to && 0 <= i < 6
      ensures s.bits[7 - i] == Ideal(first, latched, i, t)
    {
      assert BitOf(i) == 7 - i;
      assert (t - first) / PERIOD == |latched| - 1 && (t - first) % PERIOD == t - start;
      if from < start + w[i] && w[i] < PERIOD {
        assert Pending(start, w, from, start + w[i]);
      }
    }
  }

  /** Latching a new period says nothing new about earlier ones. */
  lemma IdealStays(g: Segment, first: int, latched: seq<seq<int>>, w: seq<int>)
    requires ShowsIdeal(g, first, latched) && first <= g.from && g.until <= first + |latched| * PERIOD
    ensures ShowsIdeal(g, first, latched + [w])
  {
    forall t, i | g.from <= t < g.until && 0 <= i < 6
      ensures Ideal(first, latched + [w], i, t) == Ideal(first, latched, i, t)
    {
      assert (t - first) / PERIOD < |latched|;
    }
  }

  lemma TracedKeeps(h: History, first: int, g: Segment, h': History)
    requires Traced(h, first, g.from) && g.from < g.until <= first + |h'.latched| * PERIOD && first <= g.from
    requires h'.segments == h.segments + [g]
    requires (h'.latched == h.latched && h.latched != []) || exists w :: h'.latched == h.latched + [w]
    requires ShowsIdeal(g, first, h'.latched)
    ensures Traced(h', first, g.until)
  {
    if h'.latched != h.latched {
      var w :| h'.latched == h.latched + [w];
      forall g | g in h.segments ensures ShowsIdeal(g, first, h'.latched) {
        IdealStays(g, first, h.latched, w);
      }
    }
    hide ShowsIdeal;
  }

  lemma PeriodTimeout(s: Sched, w: seq<int>, h: History, h': History, first: int)
    requires |w| == 6 && forall i :: 0 <= i < 6 ==> 0 <= w[i] <= PERIOD
    requires s.isT0 && s.schedule == [] && s.to == first + |h.latched| * PERIOD && first <= s.to
    requires var s' := Turn(s, w); h' == History(h.segments + [Segment(s.to, s'.to, s'.bits)], h.latched + [w], 1)
    requires Traced(h, first, s.to)
    ensures Current(Turn(s, w), h', first) && Traced(h', first, Turn(s, w).to)
  {
    hide *;
    var s' := Turn(s, w);
    LatchStarts(s, w);
    PeriodIs(s', s.to, w);
    QueueSize(s', s.to, w);
    assert h'.latched[|h.latched|] == w && s.to < s'.to <= s.to + PERIOD;
    SegmentIsIdeal(s', s.to, w, s.to, first, h'.latched);
    TracedKeeps(h, first, Segment(s.to, s'.to, s'.bits), h');
    PeriodIsCurrent(s', s.to, w, h, h', first);
  }

  lemma PeriodIs(s: Sched, start: int, w: seq<int>)
    requires InPeriod(s, start, w, start)
    ensures start < s.to <= start + PERIOD
  {
  }

  lemma PeriodIsCurrent(s: Sched, start: int, w: seq<int>, h: History, h': History, first: int)
    requires InPeriod(s, start, w, start) && start == first + |h.latched| * PERIOD
    requires |EndTimes(start, w)| == |s.schedule| + (if s.isT0 then 0 else 1)
    requires h' == History(h.segments + [Segment(start, s.to, s.bits)], h.latched + [w], 1)
    ensures Current(s, h', first)
  {
    hide InPeriod, EndTimes;
  }

  lemma TurnPops(s: Sched, w: seq<int>)
    requires |w| == 6 && !s.isT0
    ensures var s' := Turn(s, w);
            |s'.schedule| + (if s'.isT0 then 0 else 1) == |s.schedule|
  {
  }

  lemma InnerStep(s: Sched, w': seq<int>, start: int, w: seq<int>, g: Segment, wakeUps: nat)
    requires |w'| == 6 && !s.isT0 && WithinPeriod(s, start, w, g, wakeUps)
    ensures var s' := Turn(s, w');
            && WithinPeriod(s', start, w, Segment(s.to, s'.to, s'.bits), wakeUps + 1)
            && InPeriod(s', start, w, s.to) && start <= s.to < s'.to <= start + PERIOD
  {
    SwitchOffKeeps(s, start, w, g.from);
    TurnPops(s, w');
    hide EndTimes, InPeriod, Advance, SwitchOff;
  }

  lemma InnerTimeout(s: Sched, w': seq<int>, h: History, h': History, first: int)
    requires |w'| == 6 && !s.isT0 && Current(s, h, first) && Traced(h, first, s.to)
    requires var s' := Turn(s, w');
             h' == History(h.segments + [Segment(s.to, s'.to, s'.bits)], h.latched, h.wakeUps + 1)
    ensures Current(Turn(s, w'), h', first) && Traced(h', first, Turn(s, w').to)
  {
    hide WithinPeriod, InPeriod, Traced, Turn, ShowsIdeal;
    var n, start := |h.latched|, first + (|h.latched| - 1) * PERIOD;
    var s', w := Turn(s, w'), h.latched[n - 1];
    var g' := Segment(s.to, s'.to, s'.bits);
    InnerStep(s, w', start, w, h.segments[|h.segments| - 1], h.wakeUps);
    SegmentIsIdeal(s', start, w, s.to, first, h.latched);
    TracedKeeps(h, first, g', h');
    assert h'.segments[|h'.segments| - 1] == g';
  }

  ghost predicate Good(p: Pwm, h: History, first: int) {
    Current(p.sched, h, first) && Traced(h, first, p.sched.to)
  }

  lemma TimeoutKeeps(p: Pwm, h: History, first: int)
    requires Good(p, h, first) && Enabled(p, Timeout)
    ensures Good(Step(p, Timeout), Record(p, Timeout, h), first)
  {
    hide Traced, Turn, Widths, NewVal, WithinPeriod, CalcDur;
    var w, h' := Widths(p.duty), Record(p, Timeout, h);
    assert Step(p, Timeout).sched == Turn(p.sched, w);
    hide Step;
    if p.sched.isT0 {
      forall i | 0 <= i < 6 ensures 0 <= w[i] <= PERIOD {
        DurInRange(p.duty[i]);
      }
      AtPeriodEnd(p.sched, h, first);
      hide Current;
      PeriodTimeout(p.sched, w, h, h', first);
    } else {
      hide Current;
      InnerTimeout(p.sched, w, h, h', first);
    }
  }

  lemma AtPeriodEnd(s: Sched, h: History, first: int)
    requires Current(s, h, first) && Traced(h, first, s.to) && s.isT0
    ensures s.schedule == [] && s.to == first + |h.latched| * PERIOD && first <= s.to
  {
    hide ShowsIdeal, EndTimes;
  }

  lemma StepKeeps(p: Pwm, e: Event, h: History, first: int)
    requires Good(p, h, first) && Enabled(p, e)
    ensures Good(Step(p, e), Record(p, e, h), first)
  {
    hide Current, Traced, Turn, Widths, NewVal;
    if e == Timeout {
      TimeoutKeeps(p, h, first);
    } else {
      assert Step(p, e).sched == p.sched && Record(p, e, h) == h;
    }
  }

  lemma {:induction false} RunKeeps(p: Pwm, h: History, es: seq<Event>, first: int)
    requires IsRun(p, es) && Good(p, h, first)
    ensures var (p', h') := Run(p, h, es); Good(p', h', first)
    decreases |es|
  {
    if es != [] {
      StepKeeps(p, es[0], h, first);
      hide Good, Step, Record;
      RunKeeps(Step(p, es[0]), Record(p, es[0], h), es[1..], first);
    }
  }

  const NOTHING := History([], [], 0)

  lemma StartGood(now: int, next: int)
    ensures Good(Start(now, next), NOTHING, now + PERIOD)
  {
    hide InPeriod;
  }

  /** The scheduler refines ideal PWM, whatever duties are set and whichever digital
      outputs are switched in between. In every run the PWM bits held between deadlines
      cover all time from the first period on, and they are those of ideal PWM with the
      widths latched every second, the first after one second: no period is ever moved. */
  lemma RefinesIdealPwm(now: int, next: int, es: seq<Event>)
    requires IsRun(Start(now, next), es)
    ensures var (p, h) := Run(Start(now, next), NOTHING, es);
            && Tiles(h.segments, now + 1000, p.sched.to)
            && (forall g :: g in h.segments ==> ShowsIdeal(g, now + 1000, h.latched))
            && (h.segments != [] ==> h.segments[|h.segments| - 1].bits == p.sched.bits)
  {
    hide *;
    PeriodIsSecond();
    StartGood(now, next);
    RunKeeps(Start(now, next), NOTHING, es, now + PERIOD);
    var (p, h) := Run(Start(now, next), NOTHING, es);
    GoodIsIdeal(p, h, now + PERIOD);
  }

  lemma PeriodIsSecond()
    ensures PERIOD == 1000
  {
  }

  lemma GoodIsIdeal(p: Pwm, h: History, first: int)
    requires Good(p, h, first)
    ensures Tiles(h.segments, first, p.sched.to)
    ensures forall g :: g in h.segments ==> ShowsIdeal(g, first, h.latched)
    ensures h.segments != [] ==> h.segments[|h.segments| - 1].bits == p.sched.bits
  {
    hide ShowsIdeal, InPeriod, Tiles;
  }

  // ---------- duties and widths ----------

  /** The duty last accepted for channel i; 0 before any. */
  function LastDuty(es: seq<Event>, i: nat): real {
    if es == [] then 0.0
    else
      var e := es[|es| - 1];
      if e.SetDuty? && e.idx == i && 0.0 <= e.value <= 100.0 then e.value else LastDuty(es[..|es| - 1], i)
  }

  /** What the digital outputs were last set to; off before that. */
  function LastDig(es: seq<Event>, second: bool): bool {
    if es == [] then false
    else
      var e := es[|es| - 1];
      if second && e.Dig2? then e.v else if !second && e.Dig1? then e.v else LastDig(es[..|es| - 1], second)
  }

  /** The widths w are those of the duties set before event j, which begins a period at t. */
  ghost predicate LatchedAt(p: Pwm, es: seq<Event>, w: seq<int>, j: nat, t: int) {
    && j < |es| && es[j] == Timeout && IsRun(p, es[..j])
    && Run(p, NOTHING, es[..j]).0.sched.isT0 && Run(p, NOTHING, es[..j]).0.sched.to == t
    && |w| == 6 && forall i :: 0 <= i < 6 ==> Nearest(w[i], LastDuty(es[..j], i))
  }

  /** The widths are those of the duties before some event that begins a period at t. */
  ghost predicate Latched(p: Pwm, es: seq<Event>, w: seq<int>, t: int) {
    exists j: nat :: LatchedAt(p, es, w, j, t)
  }

  ghost predicate AllLatched(p: Pwm, es: seq<Event>, latched: seq<seq<int>>, first: int) {
    forall k :: 0 <= k < |latched| ==> Latched(p, es, latched[k], first + 1000 * k)
  }

  lemma {:induction false} RunSnoc(p: Pwm, h: History, es: seq<Event>, e: Event)
    ensures IsRun(p, es + [e]) <==> IsRun(p, es) && Enabled(Run(p, h, es).0, e)
    ensures IsRun(p, es + [e]) ==>
              var (q, g) := Run(p, h, es);
              Run(p, h, es + [e]) == (Step(q, e), Record(q, e, g))
    decreases |es|
  {
    hide Step, Record, Enabled;
    if es == [] {
      assert [e][1..] == [];
      assert es + [e] == [e];
    } else {
      assert (es + [e])[1..] == es[1..] + [e];
      if Enabled(p, es[0]) {
        RunSnoc(Step(p, es[0]), Record(p, es[0], h), es[1..], e);
      }
    }
  }

  /** What the callers last asked for. */
  ghost predicate Follows(p: Pwm, es: seq<Event>) {
    && (forall i :: 0 <= i < 6 ==> p.duty[i] == LastDuty(es, i))
    && p.d1 == LastDig(es, false) && p.d2 == LastDig(es, true)
  }

  lemma StepFollows(p: Pwm, es: seq<Event>, e: Event)
    requires Follows(p, es) && Enabled(p, e)
    ensures Follows(Step(p, e), es + [e])
  {
    assert (es + [e])[..|es|] == es;
    hide Turn, NewVal;
  }

  /** A duty is taken exactly if channel and percentage are in range; else nothing changes. */
  lemma UpdateTakes(p: Pwm, idx: nat, value: real)
    ensures var (q, r) := AfterUpdate(p, idx, value);
            && (r == Done <==> idx < 6 && 0.0 <= value <= 100.0)
            && (r == OutOfRange ==> q == p)
            && (r == Done ==> q == p.(duty := q.duty) && forall i :: 0 <= i < 6 ==>
                                q.duty[i] == if i == idx then value else p.duty[i])
  {
  }

  lemma {:induction false} AllFollow(p: Pwm, es: seq<Event>, first: int)
    requires p.duty == [0.0, 0.0, 0.0, 0.0, 0.0, 0.0] && !p.d1 && !p.d2
    requires IsRun(p, es) && Good(p, NOTHING, first)
    ensures var (q, h) := Run(p, NOTHING, es);
            Follows(q, es) && AllLatched(p, es, h.latched, first)
    decreases |es|
  {
    if es == [] {
      hide Good, CalcDur;
    } else {
      var m := |es| - 1;
      var e, before := es[m], es[..m];
      assert es == before + [e];
      hide *;
      RunSnoc(p, NOTHING, before, e);
      AllFollow(p, before, first);
      var (q, h) := Run(p, NOTHING, before);
      StepFollows(q, before, e);
      RunKeeps(p, NOTHING, before, first);
      StepLatched(p, before, e, first, q, h);
    }
  }

  lemma StepLatched(p: Pwm, es: seq<Event>, e: Event, first: int, q: Pwm, h: History)
    requires IsRun(p, es) && (q, h) == Run(p, NOTHING, es) && Enabled(q, e)
    requires Follows(q, es) && Good(q, h, first) && AllLatched(p, es, h.latched, first)
    ensures AllLatched(p, es + [e], Record(q, e, h).latched, first)
  {
    hide *;
    var latched := Record(q, e, h).latched;
    AllLatchedAre(p, es, h.latched, first);
    Recorded(q, e, h);
    forall k | 0 <= k < |latched| ensures Latched(p, es + [e], latched[k], first + 1000 * k) {
      if k < |h.latched| {
        LatchedStays(p, es, e, h.latched[k], first + 1000 * k);
      } else {
        LatchesNow(p, es, e, first, q, h);
      }
    }
    LatchedAreAll(p, es + [e], latched, first);
  }

  lemma AllLatchedAre(p: Pwm, es: seq<Event>, latched: seq<seq<int>>, first: int)
    requires AllLatched(p, es, latched, first)
    ensures forall k :: 0 <= k < |latched| ==> Latched(p, es, latched[k], first + 1000 * k)
  {
  }

  lemma LatchedAreAll(p: Pwm, es: seq<Event>, latched: seq<seq<int>>, first: int)
    requires forall k :: 0 <= k < |latched| ==> Latched(p, es, latched[k], first + 1000 * k)
    ensures AllLatched(p, es, latched, first)
  {
  }

  lemma Recorded(p: Pwm, e: Event, h: History)
    requires Enabled(p, e)
    ensures var h' := Record(p, e, h);
            h'.latched == if e == Timeout && p.sched.isT0 then h.latched + [Widths(p.duty)] else h.latched
  {
    hide Step, Widths;
  }

  lemma LatchedStays(p: Pwm, es: seq<Event>, e: Event, w: seq<int>, t: int)
    requires Latched(p, es, w, t)
    ensures Latched(p, es + [e], w, t)
  {
    var j: nat :| LatchedAt(p, es, w, j, t);
    assert (es + [e])[..j] == es[..j];
    hide IsRun, Run, Nearest, LastDuty;
    assert LatchedAt(p, es + [e], w, j, t);
  }

  lemma LatchesNow(p: Pwm, es: seq<Event>, e: Event, first: int, q: Pwm, h: History)
    requires IsRun(p, es) && (q, h) == Run(p, NOTHING, es)
    requires Follows(q, es) && Good(q, h, first) && e == Timeout && q.sched.isT0
    ensures Latched(p, es + [e], Widths(q.duty), first + 1000 * |h.latched|)
  {
    assert (es + [e])[..|es|] == es;
    hide Run, IsRun, Good, CalcDur, Nearest, LastDuty, LastDig;
    forall i | 0 <= i < 6 ensures Nearest(Widths(q.duty)[i], LastDuty(es, i)) {
      DurInRange(q.duty[i]);
    }
    AtPeriodStart(q, h, first);
    assert LatchedAt(p, es + [e], Widths(q.duty), |es|, first + 1000 * |h.latched|);
  }

  lemma AtPeriodStart(p: Pwm, h: History, first: int)
    requires Good(p, h, first) && p.sched.isT0
    ensures p.sched.to == first + 1000 * |h.latched|
  {
    AtPeriodEnd(p.sched, h, first);
    hide Good, Current, Traced;
  }

  /** Duties in, widths out, over every run: the widths of second k are, for each channel, the
      multiple of 10 ms nearest to its share by the duty last accepted for it before that
      second began. */
  lemma WidthsFollowDuties(now: int, next: int, es: seq<Event>)
    requires IsRun(Start(now, next), es)
    ensures AllLatched(Start(now, next), es, Run(Start(now, next), NOTHING, es).1.latched, now + 1000)
  {
    hide *;
    PeriodIsSecond();
    StartGood(now, next);
    StartsOff(now, next);
    AllFollow(Start(now, next), es, now + 1000);
  }

  lemma StartsOff(now: int, next: int)
    ensures var p := Start(now, next); p.duty == [0.0, 0.0, 0.0, 0.0, 0.0, 0.0] && !p.d1 && !p.d2
  {
  }

  /** The queue in every reachable state: strictly decreasing, strictly between the coming
      deadline and the end of the period, and with the coming deadline exactly the
      switch-off times still ahead; empty when a period is about to begin, and then the
      period has had one deadline for each distinct switch-off time and one for its start. */
  lemma QueueHoldsPending(now: int, next: int, es: seq<Event>)
    requires IsRun(Start(now, next), es)
    ensures var (p, h) := Run(Start(now, next), NOTHING, es);
            var s, n := p.sched, |h.latched|;
            if n == 0 then s.isT0 && s.schedule == []
            else
              var start, w := now + PERIOD + (n - 1) * PERIOD, h.latched[n - 1];
              && |w| == 6 && h.segments != [] && StrictlyDescending(s.schedule)
              && (forall x :: x in s.schedule ==> s.to < x < s.next == start + PERIOD)
              && (forall x :: Pending(start, w, h.segments[|h.segments| - 1].from, x)
                              <==> x in s.schedule || (!s.isT0 && x == s.to))
              && (s.isT0 ==> s.schedule == [] && h.wakeUps == |EndTimes(start, w)| + 1)
  {
    hide Run, IsRun;
    StartGood(now, next);
    RunKeeps(Start(now, next), NOTHING, es, now + PERIOD);
    var (p, h) := Run(Start(now, next), NOTHING, es);
    GoodQueue(p, h, now + PERIOD);
  }

  lemma GoodQueue(p: Pwm, h: History, first: int)
    requires Good(p, h, first)
    ensures var s, n := p.sched, |h.latched|;
            if n == 0 then s.isT0 && s.schedule == []
            else
              var start, w := first + (n - 1) * PERIOD, h.latched[n - 1];
              && |w| == 6 && h.segments != [] && StrictlyDescending(s.schedule)
              && (forall x :: x in s.schedule ==> s.to < x < s.next == start + PERIOD)
              && (forall x :: Pending(start, w, h.segments[|h.segments| - 1].from, x)
                              <==> x in s.schedule || (!s.isT0 && x == s.to))
              && (s.isT0 ==> s.schedule == [] && h.wakeUps == |EndTimes(start, w)| + 1)
  {
    hide ShowsIdeal, EndTimes, Pending, Tiles, StrictlyDescending;
  }

  // ---------- the byte on the expander ----------

  ghost predicate Settled(p: Pwm) { p.phase == Waiting && p.last == NewVal(p) }

  /** How many steps of the worker are still needed to show the current byte. */
  ghost function Lag(p: Pwm): nat {
    match p.phase
    case Waiting => if p.last == NewVal(p) then 0 else 2
    case Writing(val) => if val == NewVal(p) then 1 else 3
  }

  /** The worker's own next step when no deadline has come. */
  function WorkerStep(p: Pwm): Event { if p.phase == Waiting then Wake else Write }

  /** The worker runs on with no caller interfering. */
  ghost function Drained(p: Pwm): Pwm
    decreases Lag(p)
  {
    if Settled(p) then p else Drained(Step(p, WorkerStep(p)))
  }

  lemma {:induction false} DrainedSettles(p: Pwm)
    ensures Settled(Drained(p)) && Drained(p).sched == p.sched && Drained(p).d1 == p.d1 && Drained(p).d2 == p.d2
    decreases Lag(p)
  {
    if !Settled(p) {
      DrainedSettles(Step(p, WorkerStep(p)));
    }
  }

  lemma LagFalls(p: Pwm)
    ensures Lag(p) <= 3 && (Lag(p) > 0 ==> Lag(Step(p, WorkerStep(p))) == Lag(p) - 1)
  {
  }

  /** The worker always has exactly one step of its own; it waits out a deadline only with the
      byte shown, and what a deadline changed is on its way out at once. */
  lemma WorkerHasOneStep(p: Pwm)
    ensures Enabled(p, Timeout) <==> Settled(p)
    ensures !Settled(p) ==> Enabled(p, WorkerStep(p)) && !(Enabled(p, Wake) && Enabled(p, Write))
    ensures Settled(p) ==> !Enabled(p, Wake) && !Enabled(p, Write) && Lag(Step(p, Timeout)) <= 1
    ensures forall e :: Enabled(p, e) || e.Timeout? || e.Wake? || e.Write?
  {
    hide Turn, CalcNewVal;
  }

  lemma ShowsAll(p: Pwm)
    requires Settled(p) && !p.sched.bits[BitOf(6)] && !p.sched.bits[BitOf(7)]
    ensures p.last[BitOf(6)] == p.d1 && p.last[BitOf(7)] == p.d2
    ensures forall i :: 0 <= i < 6 ==> p.last[BitOf(i)] == p.sched.bits[BitOf(i)]
  {
  }

  lemma DigitalBitsFree(p: Pwm, h: History, first: int)
    requires Good(p, h, first)
    ensures !p.sched.bits[BitOf(6)] && !p.sched.bits[BitOf(7)]
  {
  }

  /** After any run, at most three steps of the worker bring the expander to the current
      state: channel i of the PWM scheduler in bit 7 - i, and the digital outputs as they were
      last set in bits 0 and 1, neither disturbing the other. */
  lemma ByteConverges(now: int, next: int, es: seq<Event>)
    requires IsRun(Start(now, next), es)
    ensures var p := Run(Start(now, next), NOTHING, es).0;
            && Lag(p) <= 3 && (Lag(p) > 0 ==> Lag(Step(p, WorkerStep(p))) == Lag(p) - 1)
            && Drained(p).last[0] == LastDig(es, false) && Drained(p).last[1] == LastDig(es, true)
            && Drained(p).last[2..] == p.sched.bits[2..]
  {
    hide *;
    var (p, h) := Run(Start(now, next), NOTHING, es);
    StartGood(now, next);
    StartsOff(now, next);
    PeriodIsSecond();
    RunKeeps(Start(now, next), NOTHING, es, now + PERIOD);
    AllFollow(Start(now, next), es, now + PERIOD);
    DigitalBitsFree(p, h, now + PERIOD);
    DrainedSettles(p);
    ShowsAll(Drained(p));
    LagFalls(p);
    DigsFollow(p, es);
    BitPlaces();
    forall b | 2 <= b < 8 ensures Drained(p).last[b] == p.sched.bits[b] {
      assert BitOf(7 - b) == b;
    }
  }

  lemma DigsFollow(p: Pwm, es: seq<Event>)
    requires Follows(p, es)
    ensures p.d1 == LastDig(es, false) && p.d2 == LastDig(es, true)
  {
  }

  lemma BitPlaces()
    ensures BitOf(6) == 0 && BitOf(7) == 1 && forall i :: 0 <= i < 6 ==> BitOf(i) == 7 - i
  {
  }
}
