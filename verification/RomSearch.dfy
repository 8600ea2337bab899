/** The 1-Wire ROM search: passes of a binary search over an unknown set of codes on
    a wired-AND bus (Maxim Application Note 187).

    A code is its bits in the order the bus carries them; the order of codes is
    lexicographic in that order, so the first bit weighs most.
  */
module RomSearch {
  import opened Folds
  import opened OwBus
  import opened PruTimer
  import Crc8
  import Pru = PruTriplet

  const ROM_BITS: nat := 64

  // ---------- the bus ----------

  /** The 1-Wire bus with its devices, and the machine that drives it. A search command
      makes all devices listen for triplets; each triplet silences those whose bit was not
      chosen. A device may be unplugged at any time. The machine is polled at arbitrary
      times, no more than gap apart. */
  class Bus {
    const gap: nat
    var devices: set<Code>
    var active: set<Code>
    var bitIdx: nat
    var pru: Pru.State
    var time: int

    ghost predicate Valid()
      reads this
    {
      && active <= devices
      && (forall r :: r in devices ==> |r| == ROM_BITS)
      && Pru.Ready(pru) && 0 < gap <= Us(14)
    }

    /** Some devices are unplugged. */
    method Unplug()
      requires Valid()
      modifies `devices, `active
      ensures Valid() && devices <= old(devices) && active <= old(active)
      ensures devices == old(devices) ==> active == old(active)
    {
      var gone: set<Code> := *;
      devices := devices - gone;
      active := active * devices;
    }

    /** Reset pulse: whether anybody answered. */
    method Presence() returns (present: bool)
      requires Valid()
      modifies this
      ensures Valid() && devices <= old(devices)
      ensures present <==> devices != {}
    {
      Unplug();
      present := devices != {};
    }

    method SearchCommand()
      requires Valid()
      modifies this
      ensures Valid() && devices <= old(devices)
      ensures active == devices && bitIdx == 0
    {
      Unplug();
      active, bitIdx := devices, 0;
    }

    /** When each device will sample the line in the write slot. */
    method Delays() returns (delay: map<Code, int>)
      ensures Pru.Timings(delay, active)
    {
      delay := *;
      if exists r | r in active :: r !in delay || delay[r] < Us(15) || delay[r] > Us(60) {
        delay := map r | r in active :: Us(15);
      }
    }

    /** How long each device will hold the line in the read slots: at least 29 us. */
    method HoldTimes() returns (hold: map<Code, int>)
      requires Valid()
      ensures Pru.Holds(hold, active, gap)
    {
      hold := *;
      if exists r | r in active :: r !in hold || hold[r] < Pru.SampleBy(gap) || hold[r] > Us(60) {
        hold := map r | r in active :: Us(60);
      }
    }

    /** Two reads and a write: answer for the current bit, then the filter. The machine is
        polled until it has sent its response. In the read slots each device holds
        the line for its bit as long as it does; in the write slot each reads it 15 to 60 us after the edge, and goes on
        listening if it reads its own bit. */
    method DoTriplet(dir: bool) returns (answer: Triplet)
      requires Valid() && bitIdx < ROM_BITS
      modifies this
      ensures Valid() && devices <= old(devices) && bitIdx == old(bitIdx) + 1
      ensures devices == old(devices) ==> answer == Answer(old(active), old(bitIdx))
      ensures active <= Chosen(old(active), old(bitIdx), Written(answer, dir))
      ensures answer != Nobody ==> active != {}
      ensures answer == Both ==> exists r :: r in old(active) && !r[old(bitIdx)]
      ensures devices == old(devices) ==>
        active == Chosen(old(active), old(bitIdx), Written(answer, dir))
    {
      hide Pru.Poll, Pru.Going, Pru.InTime, Pru.Line, Pru.Holds, Pru.LineFits, Pru.Start, Pru.Hear, Pru.LastEdge,
           Pru.Timings, Pru.Join, Answer;
      Unplug();
      ghost var listening, present := active, devices;
      var edge, heard: map<Code, bool> := time, map[];
      var delay := Delays();
      var hold := HoldTimes();
      ghost var out, due := Pru.QUIET, time + Pru.Slots(3, gap);
      Pru.StartGoes(pru, dir, time, gap, active, bitIdx, delay);
      pru := Pru.Start(pru, dir);
      answer := Nobody;
      while pru.st == Pru.Searching
        invariant active == listening && devices == present && bitIdx == old(bitIdx)
        invariant Pru.Going(pru, out, dir, edge, time, due, gap, active, bitIdx, delay, heard)
        invariant out.response != [] ==> answer == Pru.HostView(out.response[0])
        decreases due - time
      {
        Pru.GoingIs(pru, out, dir, edge, time, due, gap, active, bitIdx, delay, heard);
        var t: int :| time < t <= time + gap;
        var noise: bool := *;
        var low := Pru.Line(pru, edge, time, due, gap, t, active, bitIdx, hold, noise);
        Pru.PollGoes(pru, out, dir, edge, time, due, gap, t, low, active, bitIdx, delay, heard);
        heard := Pru.Hear(pru, edge, time, t, active, delay, heard);
        var (next, o) := Pru.Poll(pru, At(t, 0), low);
        edge := Pru.LastEdge(pru, next, edge, t);
        pru, time, out := next, t, Pru.Join(out, o);
        if o.response != [] {
          answer := Pru.HostView(o.response[0]);
        }
      }
      Pru.GoingIs(pru, out, dir, edge, time, due, gap, active, bitIdx, delay, heard);
      ChosenSome(active, bitIdx, dir);
      BothFork(active, bitIdx);
      active := set r | r in active && r in heard && heard[r] == r[bitIdx];
      assert active == Chosen(listening, bitIdx, Written(answer, dir));
      bitIdx := bitIdx + 1;
    }
  }

  // ---------- the order of codes ----------

  ghost predicate Agree(a: Code, b: Code, k: nat) {
    k <= |a| && k <= |b| && forall i :: 0 <= i < k ==> a[i] == b[i]
  }

  ghost predicate FirstDiff(a: Code, b: Code, k: nat) {
    Agree(a, b, k) && k < |a| && k < |b| && !a[k] && b[k]
  }

  ghost predicate Less(a: Code, b: Code) {
    exists k: nat :: FirstDiff(a, b, k)
  }

  /** Some device shares the first i bits of c and continues with the given bit. */
  ghost predicate Continues(devices: set<Code>, c: Code, i: nat, bit: bool) {
    exists r :: r in devices && |r| > i && Agree(r, c, i) && r[i] == bit
  }

  /** The last of the first n positions where c took the zero of a two-way branch. */
  ghost function LastZero(devices: set<Code>, c: Code, n: nat): (i: int)
    requires n <= |c|
    ensures -1 <= i < n
    ensures i >= 0 ==> !c[i] && Continues(devices, c, i, true)
    ensures forall j: nat :: i < j < n && !c[j] ==> !Continues(devices, c, j, true)
  {
    if n == 0 then -1
    else if !c[n - 1] && Continues(devices, c, n - 1, true) then n - 1
    else LastZero(devices, c, n - 1)
  }

  ghost predicate Sized(devices: set<Code>) { forall r :: r in devices ==> |r| == ROM_BITS }

  /** From position `from` on, c has a one only where no device on its way has a zero. */
  ghost predicate LeastFrom(devices: set<Code>, c: Code, from: nat, to: nat)
    requires to <= |c|
  {
    forall j: nat :: from <= j < to && c[j] ==> !Continues(devices, c, j, false)
  }

  /** c is the next code of the set after p. */
  ghost predicate Successor(devices: set<Code>, p: Code, c: Code) {
    && c in devices
    && Less(p, c)
    && forall r :: r in devices && Less(p, r) ==> r == c || Less(c, r)
  }

  ghost predicate IsLeast(devices: set<Code>, c: Code) {
    c in devices && forall r :: r in devices ==> r == c || Less(c, r)
  }

  /** Two different codes of one length have a first difference. */
  lemma DiffAt(a: Code, b: Code) returns (k: nat)
    requires |a| == |b| && a != b
    ensures k < |a| && Agree(a, b, k) && a[k] != b[k]
  {
    k := 0;
    var d :| 0 <= d < |a| && a[d] != b[d];
    while a[k] == b[k]
      invariant k <= d && Agree(a, b, k)
      decreases d - k
    {
      k := k + 1;
    }
  }

  lemma Irreflexive(a: Code)
    ensures !Less(a, a)
  {}

  lemma Antisymmetric(a: Code, b: Code)
    requires Less(a, b)
    ensures !Less(b, a)
  {
  }

  lemma Transitive(a: Code, b: Code, c: Code)
    requires Less(a, b) && Less(b, c)
    ensures Less(a, c)
  {
    var j: nat :| FirstDiff(a, b, j);
    var k: nat :| FirstDiff(b, c, k);
    assert FirstDiff(a, c, if j <= k then j else k);
  }

  /** A code that is a least completion from its first bit is the least code. */
  lemma LeastIsLeast(devices: set<Code>, c: Code)
    requires Sized(devices) && c in devices && LeastFrom(devices, c, 0, ROM_BITS)
    ensures IsLeast(devices, c)
  {
    forall r | r in devices && r != c ensures Less(c, r) {
      var k := DiffAt(r, c);
      assert FirstDiff(c, r, k);
    }
  }

  /** A larger code leaves p at one of its zero branches, none of which is after the last. */
  lemma NoLaterBranch(devices: set<Code>, p: Code, r: Code, k: nat, b: nat)
    requires Sized(devices) && p in devices && r in devices && FirstDiff(p, r, k)
    requires b == LastZero(devices, p, ROM_BITS)
    ensures k <= b
  {
    assert Continues(devices, p, k, true);
    hide Continues;
  }

  /** Behind the flipped branch c is the least completion. */
  lemma AfterFlip(devices: set<Code>, p: Code, c: Code, r: Code, b: nat)
    requires Sized(devices) && p in devices && c in devices && r in devices && r != c && b < ROM_BITS
    requires Agree(c, p, b) && c[b] && LeastFrom(devices, c, b + 1, ROM_BITS) && FirstDiff(p, r, b)
    ensures Less(c, r)
  {
    var j := DiffAt(r, c);
    assert FirstDiff(c, r, j);
    hide LeastFrom, Continues, Sized;
  }

  /** The core of the algorithm: flip the last zero branch, complete by least bits. */
  lemma FlipIsSuccessor(devices: set<Code>, p: Code, c: Code, b: nat)
    requires Sized(devices) && p in devices && c in devices
    requires b == LastZero(devices, p, ROM_BITS)
    requires Agree(c, p, b) && c[b] && LeastFrom(devices, c, b + 1, ROM_BITS)
    ensures Successor(devices, p, c)
  {
    assert FirstDiff(p, c, b);
    forall r | r in devices && Less(p, r) && r != c ensures Less(c, r) {
      var k: nat :| FirstDiff(p, r, k);
      NoLaterBranch(devices, p, r, k, b);
      if k < b {
        assert FirstDiff(c, r, k);
      } else {
        AfterFlip(devices, p, c, r, b);
      }
    }
    hide LastZero, LeastFrom, Continues, Sized;
  }

  /** Without a zero branch left, the code is the last one. */
  lemma NoBranchIsLast(devices: set<Code>, p: Code, r: Code)
    requires Sized(devices) && p in devices && r in devices
    requires LastZero(devices, p, ROM_BITS) == -1
    ensures !Less(p, r)
  {
  }

  /** What happens at position n depends on the first n bits only. */
  lemma ContinuesPrefix(devices: set<Code>, c: Code, d: Code, n: nat, bit: bool)
    requires Agree(c, d, n)
    ensures Continues(devices, c, n, bit) <==> Continues(devices, d, n, bit)
  {
  }

  lemma {:induction false} LastZeroPrefix(devices: set<Code>, c: Code, d: Code, n: nat)
    requires n <= |c| && Agree(c, d, n)
    ensures LastZero(devices, c, n) == LastZero(devices, d, n)
  {
  }

  // ---------- one pass ----------

  datatype Outcome = Done | NoSensor | B00Expected | B11

  /** What the host carries from one pass to the next fits the devices on the bus. */
  ghost predicate Consistent(devices: set<Code>, p: Code, lastBranch: int) {
    lastBranch == -1 || (|p| == ROM_BITS && p in devices && lastBranch == LastZero(devices, p, ROM_BITS))
  }

  ghost predicate NextCode(devices: set<Code>, p: Code, lastBranch: int, c: Code) {
    if lastBranch == -1 then IsLeast(devices, c) else Successor(devices, p, c)
  }

  /** The devices that share the first n bits of c. */
  ghost predicate Sharing(devices: set<Code>, active: set<Code>, c: Code, n: nat) {
    active != {} && forall r :: r in active <==> r in devices && Agree(r, c, n)
  }

  /** So far c follows p, with the branch bit flipped. */
  ghost predicate Follows(p: Code, lastBranch: nat, c: Code, n: nat)
    requires lastBranch < |c|
  {
    Agree(c, p, if n < lastBranch then n else lastBranch) && (n > lastBranch ==> c[lastBranch])
  }

  /** The state inside a pass after n triplets on an unchanged bus. */
  ghost predicate Progress(devices: set<Code>, active: set<Code>, p: Code, lastBranch: int, c: Code, lastZero: int,
    n: nat)
    requires |c| == ROM_BITS && n <= ROM_BITS && -1 <= lastBranch < ROM_BITS
  {
    && Sharing(devices, active, c, n)
    && lastZero == LastZero(devices, c, n)
    && LeastFrom(devices, c, lastBranch + 1, n)
    && (Consistent(devices, p, lastBranch) && lastBranch >= 0 ==> Follows(p, lastBranch, c, n))
  }

  lemma SharingStep(devices: set<Code>, active: set<Code>, c: Code, n: nat, dir: bool)
    requires Sized(devices) && |c| == ROM_BITS && n < ROM_BITS
    requires Sharing(devices, active, c, n)
    ensures forall r :: r in active ==> n < |r|
    ensures Answer(active, n) != Nobody
    ensures var bit := Written(Answer(active, n), dir);
            Sharing(devices, Chosen(active, n, bit), c[n := bit], n + 1)
    ensures Answer(active, n).Both? || Answer(active, n).AllOnes? <==> Continues(devices, c, n, true)
    ensures Answer(active, n).Both? || Answer(active, n).AllZeros? <==> Continues(devices, c, n, false)
  {
    ChosenSome(active, n, dir);
    var bit := Written(Answer(active, n), dir);
    forall r | r in devices
      ensures r in Chosen(active, n, bit) <==> Agree(r, c[n := bit], n + 1)
    {}
  }

  lemma LeastStep(devices: set<Code>, c: Code, from: nat, n: nat, bit: bool)
    requires n < |c| && LeastFrom(devices, c, from, n)
    requires from <= n && bit ==> !Continues(devices, c, n, false)
    ensures LeastFrom(devices, c[n := bit], from, n + 1)
  {
  }

  lemma LastZeroStep(devices: set<Code>, c: Code, n: nat, bit: bool)
    requires n < |c|
    ensures LastZero(devices, c[n := bit], n + 1)
         == if !bit && Continues(devices, c, n, true) then n else LastZero(devices, c, n)
  {
    assert Agree(c, c[n := bit], n);
    ContinuesPrefix(devices, c, c[n := bit], n, true);
    LastZeroPrefix(devices, c, c[n := bit], n);
  }

  /** A code of the set that has been followed so far is still listening, so its next
      bit is offered; at its last zero branch both bits are. */
  lemma OldCodeOffered(devices: set<Code>, active: set<Code>, p: Code, lastBranch: nat, c: Code, n: nat)
    requires Sized(devices) && |c| == ROM_BITS && n <= lastBranch < ROM_BITS
    requires Sharing(devices, active, c, n) && Agree(c, p, n)
    requires p in devices && lastBranch == LastZero(devices, p, ROM_BITS)
    ensures Continues(devices, c, n, p[n])
    ensures n == lastBranch ==> !p[n] && Continues(devices, c, n, true)
  {
  }

  /** One more triplet keeps the state; where the host carries what fits the bus, the
      branch to flip answers with both bits. */
  lemma ProgressStep(devices: set<Code>, active: set<Code>, p: Code, lastBranch: int, c: Code, lastZero: int, n: nat,
    dir: bool)
    requires Sized(devices) && |c| == ROM_BITS && |p| == ROM_BITS && n < ROM_BITS
    requires -1 <= lastBranch < ROM_BITS
    requires Progress(devices, active, p, lastBranch, c, lastZero, n)
    requires dir == (n == lastBranch || (n < lastBranch && p[n]))
    ensures forall r :: r in active ==> n < |r|
    ensures Answer(active, n) != Nobody
    ensures Consistent(devices, p, lastBranch) && n == lastBranch ==> Answer(active, n) == Both
    ensures var answer := Answer(active, n);
            var bit := Written(answer, dir);
            Progress(devices, Chosen(active, n, bit), p, lastBranch, c[n := bit],
                     if answer == Both && !dir then n else lastZero, n + 1)
  {
    SharingStep(devices, active, c, n, dir);
    var bit := Written(Answer(active, n), dir);
    LeastStep(devices, c, lastBranch + 1, n, bit);
    LastZeroStep(devices, c, n, bit);
    if Consistent(devices, p, lastBranch) && n <= lastBranch {
      OldCodeOffered(devices, active, p, lastBranch, c, n);
    }
  }

  lemma ProgressStart(devices: set<Code>, p: Code, lastBranch: int, c: Code)
    requires Sized(devices) && devices != {} && |c| == ROM_BITS && -1 <= lastBranch < ROM_BITS
    requires |p| == ROM_BITS
    ensures Progress(devices, devices, p, lastBranch, c, -1, 0)
  {}

  lemma ProgressEnd(devices: set<Code>, active: set<Code>, p: Code, lastBranch: int, c: Code, lastZero: int)
    requires Sized(devices) && |c| == ROM_BITS && -1 <= lastBranch < ROM_BITS
    requires Progress(devices, active, p, lastBranch, c, lastZero, ROM_BITS)
    ensures lastZero == LastZero(devices, c, ROM_BITS)
    ensures Consistent(devices, p, lastBranch) ==> NextCode(devices, p, lastBranch, c)
  {
    var r :| r in active;
    assert r == c;
    if lastBranch == -1 {
      LeastIsLeast(devices, c);
    } else if Consistent(devices, p, lastBranch) {
      FlipIsSuccessor(devices, p, c, lastBranch);
    }
  }

  lemma StillAgree(active: set<Code>, active': set<Code>, c: Code, n: nat, bit: bool)
    requires n < |c| && active' <= Chosen(active, n, bit)
    requires forall r :: r in active ==> Agree(r, c, n)
    ensures forall r :: r in active' ==> Agree(r, c[n := bit], n + 1)
  {}

  lemma AllAgree(active: set<Code>, c: Code)
    ensures forall r :: r in active ==> Agree(r, c, 0)
  {
  }

  /** A device forks off the code at position b, where the code goes on with a one. */
  ghost predicate Forked(devices: set<Code>, c: Code, b: nat) { exists r :: r in devices && FirstDiff(r, c, b) }

  /** The fork at the branch: a device there that the pass left behind. */
  lemma ForkStays(all: set<Code>, active: set<Code>, c: Code, b: nat, n: nat, bit: bool)
    requires b <= n < |c| && active <= all && forall r :: r in active ==> Agree(r, c, n) && n < |r|
    requires b < n ==> Forked(all, c, b)
    requires b == n ==> bit && exists r :: r in active && !r[n]
    ensures Forked(all, c[n := bit], b)
  {
    if b == n {
      var r :| r in active && !r[n];
      assert FirstDiff(r, c[n := bit], b);
    } else {
      var r :| r in all && FirstDiff(r, c, b);
      assert FirstDiff(r, c[n := bit], b);
    }
  }

  /** One bit of a pass: the devices left agree with the code so far, the fork at the branch
      stays one, and with all devices still there the pass goes on as it should. */
  lemma BitTaken(all: set<Code>, devices: set<Code>, active: set<Code>, active': set<Code>, p: Code, lastBranch: int,
                 c: Code, lastZero: int, n: nat, dir: bool, res: Triplet)
    requires |c| == |p| == ROM_BITS && n < ROM_BITS && -1 <= lastBranch < ROM_BITS && active <= all
    requires dir == (n == lastBranch || (n < lastBranch && p[n]))
    requires forall r :: r in active ==> Agree(r, c, n) && n < |r|
    requires active' <= Chosen(active, n, Written(res, dir))
    requires 0 <= lastBranch < n ==> Forked(all, c, lastBranch)
    requires res == Both ==> exists r :: r in active && !r[n]
    requires devices == all ==> Sized(all) && Progress(all, active, p, lastBranch, c, lastZero, n)
    requires devices == all ==> res == Answer(active, n) && active' == Chosen(active, n, Written(res, dir))
    ensures var c' := c[n := Written(res, dir)];
            && (forall r :: r in active' ==> Agree(r, c', n + 1))
            && (0 <= lastBranch <= n && (n == lastBranch ==> res == Both) ==> Forked(all, c', lastBranch))
            && (devices == all ==>
                  && res != Nobody && (Consistent(all, p, lastBranch) && n == lastBranch ==> res == Both)
                  && Progress(all, active', p, lastBranch, c', if res == Both && !dir then n else lastZero, n + 1))
  {
    hide Progress, Consistent, Forked, Answer, Agree, Chosen;
    StillAgree(active, active', c, n, Written(res, dir));
    if 0 <= lastBranch <= n && (n == lastBranch ==> res == Both) {
      ForkStays(all, active, c, lastBranch, n, Written(res, dir));
    }
    if devices == all {
      ProgressStep(all, active, p, lastBranch, c, lastZero, n, dir);
    }
  }

  lemma AgreeWhole(r: Code, c: Code)
    requires |r| == |c| && Agree(r, c, |c|)
    ensures r == c
  {
  }

  method Pass(bus: Bus, rc: array<bool>, lastBranch: int) returns (outcome: Outcome, lastZero: int)
    requires bus.Valid() && rc.Length == ROM_BITS && -1 <= lastBranch < ROM_BITS
    modifies bus, rc
    ensures bus.Valid() && bus.devices <= old(bus.devices) && -1 <= lastZero < ROM_BITS
    ensures outcome == Done ==> rc[..] in bus.devices
    ensures outcome == Done && lastBranch >= 0 ==> Forked(old(bus.devices), rc[..], lastBranch)
    ensures bus.devices == old(bus.devices) ==>
      && (outcome == NoSensor <==> bus.devices == {})
      && (outcome == Done ==> lastZero == LastZero(bus.devices, rc[..], ROM_BITS))
      && (bus.devices != {} && Consistent(bus.devices, old(rc[..]), lastBranch) ==>
            outcome == Done && NextCode(bus.devices, old(rc[..]), lastBranch, rc[..]))
  {
    hide Progress, Consistent, LastZero, NextCode, Forked, Answer, Chosen, Agree, Pru.Ready;
    ghost var all, p := bus.devices, rc[..];
    lastZero := -1;
    var present := bus.Presence();
    if !present {
      return NoSensor, -1;
    }
    bus.SearchCommand();
    AllAgree(bus.active, rc[..]);
    if bus.devices == all { ProgressStart(all, p, lastBranch, rc[..]); }
    for bitIdx := 0 to ROM_BITS
      invariant bus.Valid() && bus.devices <= all && bus.bitIdx == bitIdx
      invariant -1 <= lastZero < ROM_BITS
      invariant bitIdx > 0 ==> bus.active != {}
      invariant forall r :: r in bus.active ==> Agree(r, rc[..], bitIdx)
      invariant forall k :: bitIdx <= k < ROM_BITS ==> rc[k] == p[k]
      invariant 0 <= lastBranch < bitIdx ==> Forked(all, rc[..], lastBranch)
      invariant bus.devices == all ==> Progress(all, bus.active, p, lastBranch, rc[..], lastZero, bitIdx)
    {
      ghost var was, actives, c := bus.devices, bus.active, rc[..];
      var dir, expectB00 := false, false;
      if bitIdx == lastBranch {
        dir, expectB00 := true, true;
      } else if bitIdx < lastBranch {
        dir := rc[bitIdx];
      }
      var res := bus.DoTriplet(dir);
      BitTaken(all, bus.devices, actives, bus.active, p, lastBranch, c, lastZero, bitIdx, dir, res);
      if expectB00 && res != Both {
        return B00Expected, lastZero;
      }
      var newVal := dir;
      if res == Both {
        if !newVal {
          lastZero := bitIdx;
        }
      } else if res == Nobody {
        return B11, lastZero;
      } else {
        newVal := res == AllOnes;
      }
      rc[bitIdx] := newVal;
      assert newVal == Written(res, dir);
      assert rc[..] == c[bitIdx := newVal];
    }
    ghost var r :| r in bus.active;
    AgreeWhole(r, rc[..]);
    if bus.devices == all {
      ProgressEnd(all, bus.active, p, lastBranch, rc[..], lastZero);
    }
    hide Written;
    outcome := Done;
  }

  // ---------- the whole search ----------

  function RomBytes(code: Code): (bytes: seq<Crc8.Byte>)
    requires |code| % 8 == 0
    ensures |bytes| == |code| / 8
  {
    if code == [] then [] else [Crc8.PackFrom(code[..8])] + RomBytes(code[8..])
  }

  lemma {:induction false} RomBytesBits(code: Code)
    requires |code| % 8 == 0
    ensures Crc8.BitsOf(RomBytes(code)) == code
  {
    if code != [] {
      Crc8.PackedLowBits(code[..8]);
      RomBytesBits(code[8..]);
      assert RomBytes(code)[1..] == RomBytes(code[8..]);
      assert code == code[..8] + code[8..];
    }
  }

  /** A code whose last byte is the CRC of the seven before it. */
  ghost predicate ValidRom(code: Code)
  {
    |code| == ROM_BITS && Crc8.Crc(RomBytes(code)[..7]) == RomBytes(code)[7]
  }

  /** The CRC bits make a valid code leave the bit-serial register at zero. */
  lemma ValidRomResidue(code: Code)
    requires |code| == ROM_BITS
    ensures ValidRom(code) <==> Crc8.BitCrc(code) == 0
  {
    var bytes := RomBytes(code);
    assert bytes == bytes[..7] + [bytes[7]];
    Crc8.ResidueIffMatch(bytes[..7], bytes[7]);
    Crc8.TableIsBitwise(bytes);
    RomBytesBits(code);
  }

  method CheckRom(code: Code) returns (ok: bool)
    requires |code| == ROM_BITS
    ensures ok <==> ValidRom(code)
  {
    var bytes := RomBytes(code);
    ok := Crc8.CheckCrc(bytes[..7], bytes[7]);
    Crc8.ResidueIffMatch(bytes[..7], bytes[7]);
  }

  ghost predicate Ascending(codes: seq<Code>) {
    forall i, j :: 0 <= i < j < |codes| ==> Less(codes[i], codes[j])
  }

  ghost function UpTo(devices: set<Code>, c: Code): set<Code> {
    set r | r in devices && (r == c || Less(r, c))
  }

  ghost function Above(devices: set<Code>, c: Code): set<Code> {
    set r | r in devices && Less(c, r)
  }

  lemma NextUpTo(devices: set<Code>, p: Code, c: Code)
    requires Sized(devices) && p in devices && Successor(devices, p, c)
    ensures c !in UpTo(devices, p) && UpTo(devices, c) == UpTo(devices, p) + {c}
    ensures Above(devices, c) < Above(devices, p)
  {
    Antisymmetric(p, c);
    Irreflexive(c);
    forall r | r in devices ensures r in UpTo(devices, c) <==> r in UpTo(devices, p) + {c} {
      if r != p && !Less(r, p) {
        TotalOrder(p, r);
        if r != c { Antisymmetric(c, r); }
      }
      if Less(r, p) { Transitive(r, p, c); }
    }
    forall r | r in Above(devices, c) ensures r in Above(devices, p) { Transitive(p, c, r); }
    assert c in Above(devices, p);
  }

  lemma TotalOrder(a: Code, b: Code)
    requires |a| == |b|
    ensures a == b || Less(a, b) || Less(b, a)
  {
    if a != b {
      var k := DiffAt(a, b);
      assert FirstDiff(a, b, k) || FirstDiff(b, a, k) by { assert Agree(b, a, k); }
    }
  }

  lemma LeastUpTo(devices: set<Code>, c: Code)
    requires IsLeast(devices, c)
    ensures UpTo(devices, c) == {c}
  {
  }

  lemma LastUpTo(devices: set<Code>, c: Code)
    requires Sized(devices) && c in devices && LastZero(devices, c, ROM_BITS) == -1
    ensures UpTo(devices, c) == devices
  {
    forall r | r in devices ensures r in UpTo(devices, c) {
      NoBranchIsLast(devices, c, r);
      TotalOrder(c, r);
    }
  }

  /** What has been collected when the search stands at code c of an unchanged bus. */
  ghost predicate Collected(devices: set<Code>, c: Code, found: seq<Code>, passes: nat) {
    && c in devices
    && Ascending(found)
    && (forall r :: r in found <==> r in UpTo(devices, c) && ValidRom(r))
    && passes == |UpTo(devices, c)|
  }

  lemma CollectNext(devices: set<Code>, p: Code, c: Code, found: seq<Code>, passes: nat)
    requires Sized(devices) && Collected(devices, p, found, passes) && Successor(devices, p, c)
    ensures Collected(devices, c, if ValidRom(c) then found + [c] else found, passes + 1)
  {
    hide ValidRom, Less;
    NextUpTo(devices, p, c);
    var found' := if ValidRom(c) then found + [c] else found;
    forall r ensures r in found' <==> r in UpTo(devices, c) && ValidRom(r) {
      assert r in found + [c] <==> r in found || r == c;
    }
    forall i, j | 0 <= i < j < |found'| ensures Less(found'[i], found'[j]) {
      if j == |found| {
        assert found[i] in found;
        if found[i] != p { Transitive(found[i], p, c); }
      }
    }
  }

  lemma CollectFirst(devices: set<Code>, c: Code)
    requires IsLeast(devices, c)
    ensures Collected(devices, c, if ValidRom(c) then [c] else [], 1)
  {
    LeastUpTo(devices, c);
  }

  lemma CollectDone(devices: set<Code>, c: Code, found: seq<Code>, passes: nat)
    requires Sized(devices) && Collected(devices, c, found, passes)
    requires LastZero(devices, c, ROM_BITS) == -1
    ensures Ascending(found) && passes == |devices|
    ensures forall r :: r in found <==> r in devices && ValidRom(r)
  {
    LastUpTo(devices, c);
  }

  lemma SuccessorShrinks(devices: set<Code>, p: Code, c: Code)
    requires Sized(devices) && p in devices && Successor(devices, p, c)
    ensures Above(devices, c) < Above(devices, p)
  {
    NextUpTo(devices, p, c);
  }

  /** On a bus where nobody is unplugged the search returns the codes with a valid CRC
      in ascending order, each once, in as many passes as there are devices. Whatever
      is unplugged, it ends and returns only codes of devices that were there. */
  method Search(bus: Bus) returns (found: seq<Code>, outcome: Outcome, ghost passes: nat)
    requires bus.Valid()
    modifies bus
    ensures bus.Valid() && bus.devices <= old(bus.devices)
    ensures forall r :: r in found ==> r in old(bus.devices) && ValidRom(r)
    ensures bus.devices == old(bus.devices) == {} ==> outcome == NoSensor && found == []
    ensures bus.devices == old(bus.devices) != {} ==>
      && outcome == Done
      && Ascending(found)
      && (forall r :: r in found <==> r in bus.devices && ValidRom(r))
      && passes == |bus.devices|
  {
    hide ValidRom, LastZero, Successor, IsLeast, Collected, Ascending, Less;
    ghost var all := bus.devices;
    var lastBranch := -1;
    var rc := new bool[ROM_BITS](_ => false);
    found, passes := [], 0;
    while true
      invariant bus.Valid() && bus.devices <= all
      invariant -1 <= lastBranch < ROM_BITS && (passes > 0 ==> lastBranch >= 0)
      invariant forall r :: r in found ==> r in all && ValidRom(r)
      invariant passes == 0 ==> lastBranch == -1 && found == []
      invariant passes > 0 && bus.devices == all ==>
        Consistent(all, rc[..], lastBranch) && Collected(all, rc[..], found, passes)
      decreases bus.devices,
                if lastBranch >= 0 && Consistent(bus.devices, rc[..], lastBranch) then 0 else 1,
                Above(bus.devices, rc[..])
    {
      ghost var was, p, branch, before := bus.devices, rc[..], lastBranch, found;
      var lastZero;
      outcome, lastZero := Pass(bus, rc, lastBranch);
      if outcome != Done {
        return;
      }
      lastBranch := lastZero;
      var ok := CheckRom(rc[..]);
      if ok {
        found := found + [rc[..]];
      }
      passes := passes + 1;
      if bus.devices == was {
        if branch >= 0 && Consistent(was, p, branch) {
          SuccessorShrinks(was, p, rc[..]);
          if was == all { CollectNext(all, p, rc[..], before, passes - 1); }
        } else if passes == 1 {
          CollectFirst(was, rc[..]);
          assert found == if ValidRom(rc[..]) then [rc[..]] else [];
        }
      }
      if lastBranch < 0 {
        break;
      }
    }
    if bus.devices == all {
      CollectDone(all, rc[..], found, passes);
    }
  }
}
