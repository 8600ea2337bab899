/** The bound of the OpenTherm round trip is sharp: as soon as the longest gaps of the two
    modems may add up to more than 100 us, polls can fall so that a frame is lost.
  */
module OpenThermBound {
  import opened PruTimer
  import opened OpenTherm

  /** Polls at every tick from one time to another, of either modem or of both. */
  function Every(tx: bool, rx: bool, from: int, until: int): seq<Event>
    decreases until - from
  {
    if from > until then []
    else (if tx then [TxPoll(from)] else []) + (if rx then [RxPoll(from)] else []) + Every(tx, rx, from + 1, until)
  }

  /** A poll of the sender at t changes nothing. */
  ghost predicate TxQuiet(k: Link, t: int) {
    Poll(k.tx, At(t, 0), k.line).0 == k.tx && Poll(k.tx, At(t, 0), k.line).1.drive in {[], [k.line]}
  }

  ghost predicate RxQuiet(k: Link, t: int) { Poll(k.rx, At(t, 0), k.line) == (k.rx, QUIET) }

  function Later(k: Link, tx: bool, rx: bool, t: int): Link {
    k.(lastTx := if tx then t else k.lastTx, lastRx := if rx then t else k.lastRx)
  }

  lemma {:induction false} RunConcat(k: Link, es: seq<Event>, fs: seq<Event>, gapTx: nat, gapRx: nat)
    ensures Run(k, es + fs, 0, 0) == Run(Run(k, es, 0, 0), fs, 0, 0)
    ensures TimelyRun(k, es + fs, gapTx, gapRx, 0, 0)
            <==> TimelyRun(k, es, gapTx, gapRx, 0, 0) && TimelyRun(Run(k, es, 0, 0), fs, gapTx, gapRx, 0, 0)
    decreases |es|
  {
    if es == [] {
      assert es + fs == fs;
    } else {
      assert (es + fs)[0] == es[0] && (es + fs)[1..] == es[1..] + fs;
      RunConcat(Next(k, es[0], 0, 0), es[1..], fs, gapTx, gapRx);
      hide Next, Timely;
    }
  }

  lemma OneEvent(k: Link, e: Event, gapTx: nat, gapRx: nat)
    ensures Run(k, [e], 0, 0) == Next(k, e, 0, 0)
    ensures TimelyRun(k, [e], gapTx, gapRx, 0, 0) <==> Timely(k, e, gapTx, gapRx)
  {
    assert [e][1..] == [];
    hide Next, Timely;
  }

  lemma QuietPoll(k: Link, tx: bool, t: int)
    requires if tx then TxQuiet(k, t) else RxQuiet(k, t)
    ensures Next(k, if tx then TxPoll(t) else RxPoll(t), 0, 0) == Later(k, tx, !tx, t)
  {
    assert k.received + [] == k.received;
    hide Poll;
  }

  /** While all polls are quiet nothing happens, and they are timely if whoever is not
      polled was polled recently enough. */
  lemma {:induction false} QuietStretch(k: Link, tx: bool, rx: bool, from: int, until: int, gapTx: nat, gapRx: nat)
    requires gapTx > 0 && gapRx > 0 && (tx || rx) && from <= until
    requires forall t :: from <= t <= until ==> (tx ==> TxQuiet(k, t)) && (rx ==> RxQuiet(k, t))
    requires if tx then from - 1 <= k.lastTx <= from else k.lastTx <= from && until <= k.lastTx + gapTx
    requires if rx then from - 1 <= k.lastRx <= from else k.lastRx <= from && until <= k.lastRx + gapRx
    ensures Run(k, Every(tx, rx, from, until), 0, 0) == Later(k, tx, rx, until)
    ensures TimelyRun(k, Every(tx, rx, from, until), gapTx, gapRx, 0, 0)
    decreases until - from
  {
    var first := (if tx then [TxPoll(from)] else []) + (if rx then [RxPoll(from)] else []);
    var k1 := Later(k, tx, rx, from);
    hide Poll, Next, Timely, Run, TimelyRun;
    assert Every(tx, rx, from, until) == first + Every(tx, rx, from + 1, until);
    FirstTick(k, tx, rx, from, gapTx, gapRx);
    RunConcat(k, first, Every(tx, rx, from + 1, until), gapTx, gapRx);
    assert forall t :: TxQuiet(k, t) ==> TxQuiet(k1, t);
    assert forall t :: RxQuiet(k, t) ==> RxQuiet(k1, t);
    hide Every, TxQuiet, RxQuiet;
    if from < until {
      QuietStretch(k1, tx, rx, from + 1, until, gapTx, gapRx);
    } else {
      NothingMore(k1, tx, rx, from + 1, until, gapTx, gapRx);
    }
  }

  lemma NothingMore(k: Link, tx: bool, rx: bool, from: int, until: int, gapTx: nat, gapRx: nat)
    requires from > until
    ensures Run(k, Every(tx, rx, from, until), 0, 0) == k
            && TimelyRun(k, Every(tx, rx, from, until), gapTx, gapRx, 0, 0)
  {
  }

  lemma FirstTick(k: Link, tx: bool, rx: bool, t: int, gapTx: nat, gapRx: nat)
    requires tx || rx
    requires (tx ==> TxQuiet(k, t)) && (rx ==> RxQuiet(k, t))
    requires k.lastTx <= t <= k.lastTx + gapTx && k.lastRx <= t <= k.lastRx + gapRx
    ensures var first := (if tx then [TxPoll(t)] else []) + (if rx then [RxPoll(t)] else []);
            Run(k, first, 0, 0) == Later(k, tx, rx, t) && TimelyRun(k, first, gapTx, gapRx, 0, 0)
  {
    hide Run, TimelyRun, Poll, Next;
    var k1 := Later(k, tx, false, t);
    if tx {
      QuietPoll(k, true, t);
      OneEvent(k, TxPoll(t), gapTx, gapRx);
    }
    if rx {
      QuietPoll(k1, false, t);
      OneEvent(k1, RxPoll(t), gapTx, gapRx);
    }
    if tx && rx {
      RunConcat(k, [TxPoll(t)], [RxPoll(t)], gapTx, gapRx);
    } else {
      assert [TxPoll(t)] + [] == [TxPoll(t)] && [] + [RxPoll(t)] == [RxPoll(t)];
    }
  }

  /** A link driven by some events, and those were timely. */
  ghost predicate Reaches(k: Link, es: seq<Event>, k': Link, gapTx: nat, gapRx: nat) {
    TimelyRun(k, es, gapTx, gapRx, 0, 0) && Run(k, es, 0, 0) == k'
  }

  lemma ReachesThen(k: Link, es: seq<Event>, k1: Link, fs: seq<Event>, k2: Link, gapTx: nat, gapRx: nat)
    requires Reaches(k, es, k1, gapTx, gapRx) && Reaches(k1, fs, k2, gapTx, gapRx)
    ensures Reaches(k, es + fs, k2, gapTx, gapRx)
  {
    RunConcat(k, es, fs, gapTx, gapRx);
    hide Run, TimelyRun;
  }

  lemma ReachesPoll(k: Link, e: Event, gapTx: nat, gapRx: nat)
    requires Timely(k, e, gapTx, gapRx)
    ensures Reaches(k, [e], Next(k, e, 0, 0), gapTx, gapRx)
  {
    OneEvent(k, e, gapTx, gapRx);
    hide Run, TimelyRun, Next;
  }

  lemma ReachesQuietly(k: Link, tx: bool, rx: bool, from: int, until: int, gapTx: nat, gapRx: nat)
    requires gapTx > 0 && gapRx > 0 && (tx || rx) && from <= until
    requires forall t :: from <= t <= until ==> (tx ==> TxQuiet(k, t)) && (rx ==> RxQuiet(k, t))
    requires if tx then from - 1 <= k.lastTx <= from else k.lastTx <= from && until <= k.lastTx + gapTx
    requires if rx then from - 1 <= k.lastRx <= from else k.lastRx <= from && until <= k.lastRx + gapRx
    ensures Reaches(k, Every(tx, rx, from, until), Later(k, tx, rx, until), gapTx, gapRx)
  {
    QuietStretch(k, tx, rx, from, until, gapTx, gapRx);
    hide Run, TimelyRun;
  }

  /** The frame begins at time 0 with a modem that has been waiting since then. */
  function Begun(w: Word): Link {
    var tx := Ot(Idle, false, 0, 0, 0, Zero());
    var rx := Ot(WaitFrame, false, 0, 0, 0, Zero());
    Link(Transmit(tx, At(0, 0), w).0, rx, false, 0, 0, [])
  }

  /** The two longest gaps of the lost frame: one tick more than the round trip allows. */
  ghost predicate TooFar(a: nat, b: nat) { a > 0 && b > 0 && a + b == Us(100) + 1 }

  /** Just before the sender's late poll: nothing has happened yet. */
  function Still(w: Word, a: nat): Link { Begun(w).(lastTx := HALF_BIT, lastRx := HALF_BIT + a) }

  /** The receiver has seen the start bit as late as it can. */
  function Seen(w: Word, a: nat, b: nat): Link {
    Link(Begun(w).tx, Ot(ReadBits, true, At(a + b, 0), At(HALF_BIT + a + b, 0), 32, Zero()),
         true, HALF_BIT + a + b, HALF_BIT + a + b, [])
  }

  /** It took the middle of the start bit for an edge that comes too early. */
  function Missed(w: Word, a: nat, b: nat): Link {
    Link(Begun(w).tx.(t0 := At(BIT + 1, 0), bitIdx := 31), Seen(w, a, b).rx.(prevV := false), false,
      BIT + 1, BIT + 1, [])
  }

  lemma BegunQuiet(w: Word, k: Link, t: int)
    requires k == Begun(w).(lastTx := k.lastTx, lastRx := k.lastRx) && 0 <= t <= BIT
    ensures RxQuiet(k, t) && (t <= HALF_BIT ==> TxQuiet(k, t))
  {
  }

  lemma MissedQuiet(w: Word, a: nat, b: nat, t: int)
    requires TooFar(a, b) && BIT + 1 <= t <= CAPTURE_MAX + a + b
    ensures TxQuiet(Missed(w, a, b), t) && RxQuiet(Missed(w, a, b), t)
  {
  }

  lemma ToStill(w: Word, a: nat, b: nat)
    requires TooFar(a, b)
    ensures Reaches(Begun(w), Every(true, true, 1, HALF_BIT) + Every(false, true, HALF_BIT + 1, HALF_BIT + a),
            Still(w, a), a, b)
  {
    var k1 := Later(Begun(w), true, true, HALF_BIT);
    forall t | 1 <= t <= HALF_BIT ensures TxQuiet(Begun(w), t) && RxQuiet(Begun(w), t) {
      BegunQuiet(w, Begun(w), t);
    }
    forall t | HALF_BIT + 1 <= t <= HALF_BIT + a ensures RxQuiet(k1, t) {
      BegunQuiet(w, k1, t);
    }
    hide TxQuiet, RxQuiet;
    ReachesQuietly(Begun(w), true, true, 1, HALF_BIT, a, b);
    ReachesQuietly(k1, false, true, HALF_BIT + 1, HALF_BIT + a, a, b);
    hide Reaches, Every;
    ReachesThen(Begun(w), Every(true, true, 1, HALF_BIT), k1, Every(false, true, HALF_BIT + 1, HALF_BIT + a),
      Still(w, a), a, b);
  }

  lemma ToSeen(w: Word, a: nat, b: nat) returns (es: seq<Event>)
    requires TooFar(a, b)
    ensures Reaches(Still(w, a), es, Seen(w, a, b), a, b)
  {
    var tx, rx := TxPoll(HALF_BIT + a), RxPoll(HALF_BIT + a + b);
    var k3 := Still(w, a).(line := true, lastTx := HALF_BIT + a);
    var k4 := Later(k3, true, false, HALF_BIT + a + b);
    var between := Every(true, false, HALF_BIT + a + 1, HALF_BIT + a + b);
    assert Next(Still(w, a), tx, 0, 0) == k3;
    assert Next(k4, rx, 0, 0).rx == Seen(w, a, b).rx;
    assert Next(k4, rx, 0, 0) == Seen(w, a, b);
    ReachesPoll(Still(w, a), tx, a, b);
    ReachesQuietly(k3, true, false, HALF_BIT + a + 1, HALF_BIT + a + b, a, b);
    ReachesPoll(k4, rx, a, b);
    hide Reaches, Next, Every;
    ReachesThen(Still(w, a), [tx], k3, between, k4, a, b);
    ReachesThen(Still(w, a), [tx] + between, k4, [rx], Seen(w, a, b), a, b);
    es := [tx] + between + [rx];
  }

  lemma ToMissed(w: Word, a: nat, b: nat) returns (es: seq<Event>)
    requires TooFar(a, b)
    ensures Reaches(Seen(w, a, b), es, Missed(w, a, b), a, b)
  {
    var k5 := Seen(w, a, b);
    var k6 := Later(k5, true, true, BIT);
    var k7 := Next(k6, TxPoll(BIT + 1), 0, 0);
    var before := Every(true, true, HALF_BIT + a + b + 1, BIT);
    assert k7 == k6.(tx := Missed(w, a, b).tx, line := false, lastTx := BIT + 1);
    assert Next(k7, RxPoll(BIT + 1), 0, 0) == Missed(w, a, b);
    ReachesQuietly(k5, true, true, HALF_BIT + a + b + 1, BIT, a, b);
    ReachesPoll(k6, TxPoll(BIT + 1), a, b);
    ReachesPoll(k7, RxPoll(BIT + 1), a, b);
    hide Reaches, Next, Every;
    ReachesThen(k5, before, k6, [TxPoll(BIT + 1)], k7, a, b);
    ReachesThen(k5, before + [TxPoll(BIT + 1)], k7, [RxPoll(BIT + 1)], Missed(w, a, b), a, b);
    es := before + [TxPoll(BIT + 1)] + [RxPoll(BIT + 1)];
  }

  lemma ToError(w: Word, a: nat, b: nat) returns (es: seq<Event>, k: Link)
    requires TooFar(a, b)
    ensures Reaches(Missed(w, a, b), es, k, a, b)
    ensures k.rx.st == FrameErrorWaitGap && k.received == []
  {
    var end := CAPTURE_MAX + a + b;
    var k9 := Later(Missed(w, a, b), true, true, end);
    k := Next(k9, RxPoll(end + 1), 0, 0);
    assert k.rx.st == FrameErrorWaitGap && k.received == [];
    forall t | BIT + 2 <= t <= end ensures TxQuiet(Missed(w, a, b), t) && RxQuiet(Missed(w, a, b), t) {
      MissedQuiet(w, a, b, t);
    }
    hide TxQuiet, RxQuiet, Next;
    ReachesQuietly(Missed(w, a, b), true, true, BIT + 2, end, a, b);
    ReachesPoll(k9, RxPoll(end + 1), a, b);
    hide Reaches, Next, Every;
    es := Every(true, true, BIT + 2, end) + [RxPoll(end + 1)];
    ReachesThen(Missed(w, a, b), Every(true, true, BIT + 2, end), k9, [RxPoll(end + 1)], k, a, b);
  }

  /** Longer gaps allow whatever shorter ones do. */
  lemma {:induction false} TimelyGrows(k: Link, es: seq<Event>, a: nat, b: nat, gapTx: nat, gapRx: nat)
    requires TimelyRun(k, es, a, b, 0, 0) && a <= gapTx && b <= gapRx
    ensures TimelyRun(k, es, gapTx, gapRx, 0, 0)
    decreases |es|
  {
    if es != [] {
      TimelyGrows(Next(k, es[0], 0, 0), es[1..], a, b, gapTx, gapRx);
      hide Next;
    }
  }

  /** The bound of the round trip cannot be raised: for any word and any two longest gaps
      that add up to more than 100 us there are polls, none later than those gaps, after
      which the receiver has given the frame up as erroneous. */
  lemma BoundIsSharp(w: Word, gapTx: nat, gapRx: nat) returns (es: seq<Event>)
    requires gapTx > 0 && gapRx > 0 && gapTx + gapRx > Us(100)
    ensures TimelyRun(Begun(w), es, gapTx, gapRx, 0, 0)
    ensures Run(Begun(w), es, 0, 0).rx.st == FrameErrorWaitGap && Run(Begun(w), es, 0, 0).received == []
  {
    var a: nat := if gapTx > Us(100) then Us(100) else gapTx;
    var b: nat := Us(100) + 1 - a;
    ToStill(w, a, b);
    es := Every(true, true, 1, HALF_BIT) + Every(false, true, HALF_BIT + 1, HALF_BIT + a);
    var seen := ToSeen(w, a, b);
    var missed := ToMissed(w, a, b);
    var error, k := ToError(w, a, b);
    hide Every, Still, Seen, Missed, Run, TimelyRun, Begun;
    assert Reaches(Begun(w), es + seen + missed + error, k, a, b) by {
      hide Reaches;
      ReachesThen(Begun(w), es, Still(w, a), seen, Seen(w, a, b), a, b);
      ReachesThen(Begun(w), es + seen, Seen(w, a, b), missed, Missed(w, a, b), a, b);
      ReachesThen(Begun(w), es + seen + missed, Missed(w, a, b), error, k, a, b);
    }
    es := es + seen + missed + error;
    TimelyGrows(Begun(w), es, a, b, gapTx, gapRx);
  }
}
