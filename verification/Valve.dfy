/** The four-way valve: a motor turns a ring with four ports; one line tells that a port is
    reached, another that the absolute mark between port 3 and port 0 is. The program knows
    the ring only through the edges of these lines.
  */
module Valve {
  import opened Wrappers

  // ---------- the ring ----------

  /** Ten places around the ring, going forward: port 0, a gap, port 1, a gap, port 2, a gap,
      port 3, a gap, the absolute mark, a gap. */
  type Place = p: int | 0 <= p < 10

  const ABS_MARK: Place := 8

  predicate AtPort(p: Place) { p % 2 == 0 && p != ABS_MARK }

  function PlaceOf(port: int): Place
    requires 0 <= port < 4
  {
    2 * port
  }

  function NextPlace(p: Place, forward: bool): Place { (p + (if forward then 1 else 9)) % 10 }

  /** A line is low while its mark is reached. */
  datatype Edge = Nothing | Rising | Falling

  function EdgeOf(before: bool, after: bool): Edge {
    if before == after then Nothing else if after then Falling else Rising
  }

  datatype Wait = TimedOut | Edges(portMark: Edge, absMark: Edge)

  /** The ring, its motor, and the clock: any wait may time out and any deadline may pass,
      but while events come they are those of the ring. */
  class Ring {
    var place: Place
    ghost var disturbed: bool
    ghost var steps: nat

    method WaitEvent(forward: bool) returns (w: Wait)
      modifies this
      ensures w.TimedOut? ==> place == old(place) && steps == old(steps) && disturbed
      ensures w.Edges? ==>
                place == NextPlace(old(place), forward) && steps == old(steps) + 1
                && disturbed == old(disturbed)
                           && w == Edges(EdgeOf(AtPort(old(place)), AtPort(place)),
                                         EdgeOf(old(place) == ABS_MARK, place == ABS_MARK))
    {
      var late: bool := *;
      if late {
        disturbed := true;
        return TimedOut;
      }
      var before := place;
      place := NextPlace(place, forward);
      steps := steps + 1;
      return Edges(EdgeOf(AtPort(before), AtPort(place)), EdgeOf(before == ABS_MARK, place == ABS_MARK));
    }

    method DeadlinePassed() returns (late: bool)
      modifies `disturbed
      ensures disturbed == (old(disturbed) || late)
    {
      late := *;
      if late {
        disturbed := true;
      }
    }
  }

  // ---------- the believed path ----------

  function Abs(x: int): nat { if x < 0 then -x else x }

  function CalcMotion(cur: int, dst: int): (bool, nat) {
    var dist := dst - cur;
    if Abs(dist) > 2 then (!(dist > 0), 1) else (dist > 0, Abs(dist))
  }

  predicate ExpectedAbsMark(cur: int, forward: bool) { (cur == 3 && forward) || (cur == 0 && !forward) }

  type Port = p: int | 0 <= p < 4

  function Hop(p: Port, forward: bool): Port { (p + (if forward then 1 else -1) + 4) % 4 }

  function Hops(p: Port, forward: bool, n: nat): Port
    decreases n
  {
    if n == 0 then p else Hops(Hop(p, forward), forward, n - 1)
  }

  lemma HopsNone(p: Port, forward: bool)
    ensures Hops(p, forward, 0) == p
  {
  }

  lemma {:induction false} HopsNext(p: Port, forward: bool, n: nat)
    ensures Hops(p, forward, n + 1) == Hop(Hops(p, forward, n), forward)
    decreases n
  {
    if n > 0 {
      HopsNext(Hop(p, forward), forward, n - 1);
    }
  }

  /** The path leads to the target in at most two ports, and passes the absolute mark only
      between the neighbours 3 and 0. */
  lemma CalcMotionReaches(cur: Port, dst: Port)
    ensures var (forward, dist) := CalcMotion(cur, dst);
            && dist <= 2 && Hops(cur, forward, dist) == dst
            && (forall k: nat :: k < dist ==> Hops(cur, forward, k) != dst)
            && (ExpectedAbsMark(cur, forward) && dist > 0 ==> dist == 1 && {cur, dst} == {0, 3})
            && (dist == 2 ==> !ExpectedAbsMark(cur, forward) && !ExpectedAbsMark(Hop(cur, forward), forward))
  {
    var (forward, dist) := CalcMotion(cur, dst);
    assert Hops(cur, forward, 0) == cur;
    assert Hops(cur, forward, 1) == Hop(cur, forward);
    assert Hops(cur, forward, 2) == Hop(Hop(cur, forward), forward);
  }

  /** Moving as far as the believed path says leads to the target exactly when the belief
      was right; and where the path meets the mark, no other port's path would. */
  lemma RightIffBelieved(cur: Port, from: Port, dst: Port)
    ensures var (forward, n) := CalcMotion(cur, dst);
            && (Hops(from, forward, n) == dst <==> from == cur)
            && (ExpectedAbsMark(cur, forward) && ExpectedAbsMark(from, forward) ==> from == cur)
  {
    var (forward, n) := CalcMotion(cur, dst);
    CalcMotionReaches(cur, dst);
    HopsInjective(cur, from, forward, n);
  }

  lemma {:induction false} HopsInjective(p: Port, q: Port, forward: bool, n: nat)
    ensures Hops(p, forward, n) == Hops(q, forward, n) ==> p == q
    decreases n
  {
    if n > 0 {
      HopsInjective(Hop(p, forward), Hop(q, forward), forward, n - 1);
    }
  }

  /** The absolute mark lies after the k-th port of the path exactly when it would for the
      believed position. */
  predicate MarkMatches(cur: Port, from: Port, forward: bool, k: nat) {
    ExpectedAbsMark(Hops(cur, forward, k), forward) == ExpectedAbsMark(Hops(from, forward, k), forward)
  }

  /** All along the path the mark lies where it would for the believed position. */
  predicate MarksMatch(cur: Port, from: Port, dst: Port) {
    var (forward, n) := CalcMotion(cur, dst);
    forall k :: 0 <= k < n ==> MarkMatches(cur, from, forward, k)
  }

  /** A believed position 1 with the ring at port 0: on the way to port 2 no mark tells the
      difference, and the valve ends at port 1. */
  lemma WrongBeliefSucceeds()
    ensures MarksMatch(1, 0, 2) && CalcMotion(1, 2) == (true, 1) && Hops(0, true, 1) == 1
  {
    HopsNone(1, true);
    HopsNone(0, true);
    HopsNext(0, true, 0);
    assert MarkMatches(1, 0, true, 0);
  }

  /** The mark lies on the ring exactly where it is expected: leaving a port in a direction
      one meets it before the next port. */
  lemma ExpectedIsOnRing(p: Port, forward: bool)
    ensures ExpectedAbsMark(p, forward) <==>
            NextPlace(NextPlace(PlaceOf(p), forward), forward) == ABS_MARK
  {
  }

  // ---------- the controller ----------

  datatype Report = Moving | At(port: Port) | Failed

  /** Going forward from here, how many ports come before the absolute mark. */
  function PortsToMark(p: Place): nat { if p == 9 then 4 else if p >= 6 then 0 else 3 - p / 2 }

  /** Where the ring can be after leaving port b, before the next port is counted, and
      whether the absolute mark was met since. */
  ghost predicate Underway(p: Place, b: Port, forward: bool, hit: bool) {
    if p == PlaceOf(b) then !hit
    else if ExpectedAbsMark(b, forward) then 7 <= p <= 9 && hit == (if forward then p >= 8 else p <= 8)
    else p == PlaceOf(b) + (if forward then 1 else -1) && !hit
  }

  /** Places left before the next port. */
  ghost function ToNext(p: Place, b: Port, forward: bool): int {
    if p == PlaceOf(b) then 4
    else if !ExpectedAbsMark(b, forward) then 0
    else if forward then 10 - p else p - 6
  }

  lemma MoveStart(b: Port, forward: bool)
    ensures var p := NextPlace(PlaceOf(b), forward); Underway(p, b, forward, p == ABS_MARK)
  {
  }

  lemma MoveStep(p: Place, b: Port, forward: bool, hit: bool)
    requires Underway(p, b, forward, hit)
    ensures var p' := NextPlace(p, forward);
            if !AtPort(p) && AtPort(p') then
              && p' == PlaceOf(Hop(b, forward)) && hit == ExpectedAbsMark(b, forward)
              && Underway(p', Hop(b, forward), forward, false)
            else
              && Underway(p', b, forward, hit || p' == ABS_MARK) && p' != PlaceOf(b)
              && 0 <= ToNext(p', b, forward) < ToNext(p, b, forward)
  {
  }

  /** Where the ring can be while homing. */
  ghost predicate Homing(p: Place, reached: bool, dist: int, maxDistance: int) {
    if !reached then maxDistance == 5 && p != ABS_MARK && 0 <= dist && dist + PortsToMark(p) <= 4
    else if dist < maxDistance then maxDistance == dist + 1 && 8 <= p <= 9
    else p == PlaceOf(0) && dist == maxDistance
  }

  /** Steps left until port 0. */
  function HomeLeft(p: Place, reached: bool): nat {
    if reached then (10 - p) % 10 else (8 - p + 10) % 10 + 2
  }

  lemma HomeStep(p: Place, reached: bool, dist: int, maxDistance: int)
    requires Homing(p, reached, dist, maxDistance) && dist < maxDistance
    ensures var p' := NextPlace(p, true);
            var d' := if !AtPort(p) && AtPort(p') then dist + 1 else dist;
            var found := p' == ABS_MARK && !reached;
            && Homing(p', reached || found, d', if found then d' + 1 else maxDistance)
            && HomeLeft(p', reached || found) == HomeLeft(p, reached) - 1
  {
  }

  class Ventil4w {
    const ring: Ring
    var inPosition: bool
    var curPosition: Port
    var stored: Option<Port>
    var reports: seq<Report>

    constructor (ring: Ring, file: Option<Port>)
      ensures this.ring == ring && stored == file && reports == []
      ensures inPosition == file.Some? && (file.Some? ==> curPosition == file.value)
    {
      this.ring := ring;
      stored, reports := file, [];
      inPosition := file.Some?;
      curPosition := if file.Some? then file.value else 0;
    }

    /** What the program believes is so, and that is what is stored. */
    ghost predicate Faithful()
      reads this, ring
    {
      (inPosition ==> ring.place == PlaceOf(curPosition)) && stored == if inPosition then Some(curPosition) else None
    }

    /** Homing from anywhere: if it succeeds the ring is at port 0, and it succeeds unless
        a wait times out or the deadline passes. */
    method HomePos() returns (ok: bool)
      modifies ring, `inPosition, `curPosition
      ensures ok == inPosition
      ensures ok ==> ring.place == PlaceOf(0) && curPosition == 0
      ensures !ok ==> curPosition == old(curPosition)
      ensures old(ring.disturbed) ==> ring.disturbed
      ensures !ring.disturbed ==> ok
      ensures ring.steps <= old(ring.steps) + 11
    {
      var absMarkReached := ring.place == ABS_MARK;
      var dist := 0;
      var maxDistance := if absMarkReached then 1 else 5;
      while dist < maxDistance
        invariant curPosition == old(curPosition) && (old(ring.disturbed) ==> ring.disturbed)
        invariant Homing(ring.place, absMarkReached, dist, maxDistance)
        invariant ring.steps + HomeLeft(ring.place, absMarkReached) <= old(ring.steps) + 11
        decreases HomeLeft(ring.place, absMarkReached)
      {
        var late := ring.DeadlinePassed();
        if late {
          break;
        }
        HomeStep(ring.place, absMarkReached, dist, maxDistance);
        var w := ring.WaitEvent(true);
        if w.TimedOut? {
          break;
        }
        if w.portMark == Falling {
          dist := dist + 1;
        }
        if w.absMark == Falling {
          if !absMarkReached {
            absMarkReached := true;
            maxDistance := dist + 1;
          }
        }
      }
      inPosition := AtPort(ring.place) && absMarkReached;
      if inPosition {
        curPosition := 0;
        return true;
      }
      return false;
    }

    /** One move. From a port, at most two ports are passed; success means that the believed
        position is the target, that the ring went exactly as many ports the same way, and
        that on each leg the absolute mark was met exactly if the believed path has it there.
        With no wait or deadline run out, that is also enough for success. */
    method Move(target: Port) returns (ok: bool)
      modifies ring, `inPosition, `curPosition
      ensures old(ring.disturbed) ==> ring.disturbed
      ensures !AtPort(old(ring.place)) ==> !ok && ring.place == old(ring.place)
      ensures ok ==> curPosition == target && AtPort(ring.place)
                     && (inPosition || (target == old(curPosition) && inPosition == old(inPosition)))
      ensures ok ==> var (forward, n) := CalcMotion(old(curPosition), target);
                     && n <= 2 && ring.place == PlaceOf(Hops(old(ring.place) / 2, forward, n))
                     && MarksMatch(old(curPosition), old(ring.place) / 2, target)
      ensures AtPort(old(ring.place)) && !ring.disturbed ==>
                (ok <==> MarksMatch(old(curPosition), old(ring.place) / 2, target))
    {
      if ring.place == ABS_MARK {
        return false;
      }
      if !AtPort(ring.place) {
        return false;
      }
      var (forward, targetDist) := CalcMotion(curPosition, target);
      CalcMotionReaches(curPosition, target);
      if targetDist == 0 {
        return true;
      }
      ghost var from: Port := ring.place / 2;
      var exitPosition := LeavePort(forward);
      var dist, posError := 0, false;
      if exitPosition {
        dist, posError := Travel(forward, targetDist, from);
      }
      if posError || !AtPort(ring.place) || curPosition != target {
        return false;
      }
      inPosition := curPosition == target;
      return inPosition;
    }

    /** The motor runs until the port mark is left. */
    method LeavePort(forward: bool) returns (exitPosition: bool)
      requires AtPort(ring.place)
      modifies ring
      ensures old(ring.disturbed) ==> ring.disturbed
      ensures exitPosition ==> ring.place == NextPlace(old(ring.place), forward)
      ensures !exitPosition ==> ring.place == old(ring.place) && ring.disturbed
    {
      exitPosition := false;
      while !exitPosition
        invariant ring.place == if exitPosition then NextPlace(old(ring.place), forward) else old(ring.place)
        invariant old(ring.disturbed) ==> ring.disturbed
        decreases !exitPosition
      {
        var w := ring.WaitEvent(forward);
        if w.TimedOut? {
          break;
        }
        exitPosition := w.portMark == Rising;
      }
    }

    /** The ports are counted while they pass; after each the absolute mark is compared. */
    method Travel(forward: bool, targetDist: nat, ghost from: Port) returns (dist: nat, posError: bool)
      requires targetDist > 0 && ring.place == NextPlace(PlaceOf(from), forward)
      modifies ring, `curPosition
      ensures old(ring.disturbed) ==> ring.disturbed
      ensures dist <= targetDist && curPosition == Hops(old(curPosition), forward, dist)
      ensures posError ==> 0 < dist && !MarkMatches(old(curPosition), from, forward, dist - 1)
      ensures !posError && dist < targetDist ==> ring.disturbed
      ensures !posError && dist == targetDist ==>
                && ring.place == PlaceOf(Hops(from, forward, dist))
                && forall k :: 0 <= k < targetDist ==> MarkMatches(old(curPosition), from, forward, k)
    {
      hide Hops, Underway, ToNext;
      MoveStart(from, forward);
      HopsNone(from, forward);
      HopsNone(curPosition, forward);
      dist := 0;
      var absMarkHit := ring.place == ABS_MARK;
      var expectAbsMark := ExpectedAbsMark(curPosition, forward);
      ghost var cur0 := curPosition;
      posError := false;
      while dist < targetDist
        invariant old(ring.disturbed) ==> ring.disturbed
        invariant 0 <= dist <= targetDist && curPosition == Hops(cur0, forward, dist)
        invariant Underway(ring.place, Hops(from, forward, dist), forward, absMarkHit)
        invariant expectAbsMark == ExpectedAbsMark(curPosition, forward)
        invariant forall k :: 0 <= k < dist ==> MarkMatches(cur0, from, forward, k)
        invariant dist == targetDist ==> ring.place == PlaceOf(Hops(from, forward, dist))
        decreases targetDist - dist, ToNext(ring.place, Hops(from, forward, dist), forward)
      {
        MoveStep(ring.place, Hops(from, forward, dist), forward, absMarkHit);
        HopsNext(cur0, forward, dist);
        HopsNext(from, forward, dist);
        ghost var k, matches := dist, MarkMatches(cur0, from, forward, dist);
        assert matches == (expectAbsMark == ExpectedAbsMark(Hops(from, forward, k), forward));
        hide ExpectedAbsMark, MarkMatches;
        var w := ring.WaitEvent(forward);
        if w.TimedOut? {
          break;
        }
        var late := ring.DeadlinePassed();
        if late {
          break;
        }
        if w.portMark == Falling {
          dist := dist + 1;
          curPosition := (curPosition + (if forward then 1 else -1) + 4) % 4;
          if expectAbsMark != absMarkHit {
            posError := true;
            break;
          }
          expectAbsMark := ExpectedAbsMark(curPosition, forward);
          absMarkHit := false;
        }
        if w.absMark == Falling {
          absMarkHit := true;
        }
      }
    }

    /** A whole positioning task. Whatever the ring does and wherever it starts, afterwards
        the program believes to be in position only if the ring is at the target, and that
        position is then stored, and otherwise none; exactly one result is reported; the task
        fails only if a wait or a deadline ran out. */
    method Task(target: Port)
      requires Faithful()
      modifies this, ring
      ensures Faithful()
      ensures old(ring.disturbed) ==> ring.disturbed
      ensures inPosition ==> ring.place == PlaceOf(target) && curPosition == target && stored == Some(target)
      ensures !inPosition ==> ring.disturbed && stored == None
      ensures reports == old(reports) + (if old(inPosition) && old(curPosition) == target then []
                                         else if inPosition then [Moving, At(target)]
                                         else [Moving, Failed])
    {
      hide Hops, CalcMotion, ExpectedAbsMark;
      if target != curPosition || !inPosition {
        reports := reports + [Moving];
        if !inPosition {
          var ok := HomePos();
          if ok {
            if target == curPosition {
              reports := reports + [At(curPosition)];
            }
          } else {
            reports := reports + [Failed];
            LostPosition();
            return;
          }
        }
        if inPosition && target != curPosition {
          CalcMotionReaches(curPosition, target);
          var ok := Move(target);
          if ok {
            reports := reports + [At(curPosition)];
          } else {
            reports := reports + [Failed];
            LostPosition();
            return;
          }
        }
        // The source reports an error here if it is not in position: that cannot happen.
        assert inPosition;
        stored := Some(target);
      }
    }

    method LostPosition()
      modifies `inPosition, `stored
      ensures !inPosition && stored == None
    {
      stored := None;
      inPosition := false;
    }
  }
}
