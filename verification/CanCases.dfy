/** Accepted configurations of a node that its pins do not follow: two switches on one pin, two
    ids with the same eleven bits, and more message objects than the controller has to spare.
  */
module CanCases {
  import opened Wrappers
  import opened CanLayout
  import opened CanHost
  import opened CanBuilder
  import opened CanNode
  import opened CanImage
  import opened CanRuns
  import opened CanPins

  // ---------- two switches on one pin ----------

  const OTHER := DigOut(0x116, 0, 0)
  const BOTH := [OTHER, LAMP]

  function BothHost(): Host {
    Host([OutputMsg(false, Frame(0x116, 1, EmptyData()))], [Item(0, Bit(0, 0), [false]), Item(0, Bit(0, 1), [false])],
         false, Frame(0, 0, EmptyData()))
  }

  function BothLayout(): Layout { Layout([Mob(0x116, 0, 1)], 1) }

  function BothConfig(): Config {
    Config([0x116], [1], 1, [Obj(0, Bit(0, 0), LAMP_PIN), Obj(0, Bit(0, 1), LAMP_PIN)], [])
  }

  lemma BothOuts()
    ensures Outs(BOTH) == BOTH && forall id :: HostLength(BOTH, id) == if id == 0x116 then 1 else 0
  {
    assert BOTH[1..] == [LAMP] && [LAMP][1..] == [];
    assert Outs([LAMP]) == [LAMP];
    forall id ensures HostLength(BOTH, id) == if id == 0x116 then 1 else 0 {
      assert HostLength([LAMP][1..], id) == 0;
      assert HostLength([LAMP], id) == if id == 0x116 then 1 else 0;
    }
  }

  lemma BothKinds()
    ensures OfKind(BOTH, true) == BOTH && OfKind(BOTH, false) == []
  {
    assert BOTH[1..] == [LAMP] && [LAMP][1..] == [];
    assert OfKind([LAMP][1..], true) == [] && OfKind([LAMP][1..], false) == [];
    assert OfKind([LAMP], true) == [LAMP] && OfKind([LAMP], false) == [];
  }

  lemma BothFit()
    ensures Fits(ItemsOf(BOTH, 0x116)) && LeastBytes(ItemsOf(BOTH, 0x116), 1)
  {
    BothItems();
    hide ItemsOf;
    var items := [Span(0, 1), Span(1, 1)];
    assert items[1] in items;
  }

  lemma ItemsCons(e: Entry, es: seq<Entry>, id: CanId)
    ensures ItemsOf([e] + es, id) == (if e.id == id then [e.Bits()] else []) + ItemsOf(es, id)
  {
    assert ([e] + es)[1..] == es;
  }

  lemma OtherSpan()
    ensures OTHER.Bits() == Span(0, 1)
  {
  }

  lemma LampSpan()
    ensures LAMP.Bits() == Span(1, 1)
  {
  }

  lemma BothIds()
    ensures OTHER.id == 0x116 && LAMP.id == 0x116 && ItemsOf([], 0x116) == []
  {
  }

  lemma BothInOrder()
    ensures BOTH == [OTHER] + ([LAMP] + [])
  {
  }

  lemma BothItems()
    ensures ItemsOf(BOTH, 0x116) == [Span(0, 1), Span(1, 1)]
  {
    hide *;
    OtherSpan();
    LampSpan();
    BothIds();
    BothInOrder();
    ItemsCons(OTHER, [LAMP] + [], 0x116);
    ItemsCons(LAMP, [], 0x116);
  }

  lemma BothBuilt()
    ensures Built(BothHost(), BOTH)
  {
    BothOuts();
    var h := BothHost();
    hide Outs, HostLength;
    forall id ensures LengthIs(h.outputs, id, HostLength(BOTH, id)) {
      assert h.outputs[0].frame.id == 0x116;
    }
    hide LengthIs;
    assert ItemBuilt(h, 0, OTHER) && ItemBuilt(h, 1, LAMP);
  }

  lemma BothPacks()
    ensures Packs(BothLayout(), BOTH)
  {
    BothFit();
    assert OTHER in BOTH && HasId(BOTH, 0x116, true) && BothLayout().mobs[0].id == 0x116;
    hide Fits, ItemsOf, LeastBytes, HasId;
  }

  lemma BothConfigured()
    ensures Configured(BothConfig(), BothLayout(), BOTH)
  {
    BothKinds();
    var c, l := BothConfig(), BothLayout();
    hide OfKind;
    assert c.Objs() == c.digOuts && NodeOuts(BOTH) == BOTH;
    assert Stands(c, l, 0, OTHER) && Stands(c, l, 1, LAMP);
    hide Stands;
  }

  lemma BothLinked()
    ensures Linked(BothHost(), BOTH, BOTH, BothLayout(), BothConfig())
  {
    BothFit();
    BothOuts();
    BothBuilt();
    BothPacks();
    BothConfigured();
    hide Built, Packs, Configured, ItemsOf, Fits, Outs, BothLayout, BothConfig, SensorLength;
    assert forall e :: e in BOTH ==> e.id == 0x116 && e.IsInput();
  }

  lemma BothCounts()
    ensures CountsFit(BothLayout(), BOTH)
  {
    assert BOTH[1..] == [LAMP] && [LAMP][1..] == [] && BothLayout().mobs[1..] == [];
    forall kind ensures Count(BOTH, kind) <= 2 {
      assert Count([LAMP][1..], kind) == 0;
      assert Count([LAMP], kind) <= 1;
    }
    assert SumSizes(BothLayout().mobs[1..]) == 0;
    hide Count;
  }

  lemma BothRoutes()
    ensures Uploads(BothLayout(), BOTH) && RoutesApart(BothConfig(), BOTH, BOTH)
  {
    BothCounts();
    hide CountsFit, BusLength;
  }

  /** A node with two switches on one pin, which the configuration tool lets pass: the first
      is switched on at the host, and in the end the pin is low. */
  lemma SharedPinGoesLow()
    ensures Linked(BothHost(), BOTH, BOTH, BothLayout(), BothConfig()) && Acceptable(BOTH)
    ensures Uploads(BothLayout(), BOTH) && RoutesApart(BothConfig(), BOTH, BOTH) && !PinsDistinct(BothConfig())
    ensures var evs, n, bus := [Assign(0, [true])], Node([ZERO], map[]), [FromHost(BothFrame())];
            && WroteItem(BothHost(), BOTH, BOTH, BothLayout(), BothConfig(), n, evs, bus, 0, 0)
            && Run(BothHost(), evs).0.items[0].value == [true]
            && var pins := ConsumeAll(BothConfig(), n, Frames(bus)).pins;
               LAMP_PIN in pins && pins[LAMP_PIN] == [false]
  {
    hide *;
    BothLinked();
    BothRoutes();
    BothShares();
    var h, l, c, n, e := BothHost(), BothLayout(), BothConfig(), Node([ZERO], map[]), Assign(0, [true]);
    LinkedParts(h, BOTH, BOTH, l, c);
    ConfiguredReady(c, l, BOTH);
    BothRun();
    var evs := [e];
    var bus := [FromHost(BothFrame())];
    BothBus();
    ItemZero();
    Wrote(h, BOTH, BOTH, l, c, n, evs, bus, 0, 0);
    BothDriven(n, BothFrame());
  }

  lemma BothBus()
    ensures var bus := [FromHost(BothFrame())];
            Frames(bus) == [BothFrame()] && Carries(bus, [BothFrame()], BOTH, BOTH)
  {
    var bus := [FromHost(BothFrame())];
    assert bus[..0] == [];
    assert Frames(bus[..0]) == [] && HostFrames(bus[..0]) == [];
    hide SensorLength, BothFrame;
  }

  lemma BothShares()
    ensures !PinsDistinct(BothConfig()) && Total(BothLayout().mobs) == 1
  {
    var objs := BothConfig().Objs();
    assert objs[0].pin == objs[1].pin;
  }

  lemma ItemZero()
    ensures Outs(BOTH) == BOTH && BOTH[0] in BOTH && Stands(BothConfig(), BothLayout(), 0, BOTH[0])
  {
    BothOuts();
    hide Outs, HostLength;
  }

  function BothFrame(): Frame { Frame(0x116, 1, EmptyData()[0 := ZERO[0 := true]]) }

  lemma BothRun()
    ensures var e := Assign(0, [true]);
            && IsRun(BothHost(), [e])
            && var (h, sent, written) := Run(BothHost(), [e]);
            && sent == [BothFrame()] && written == {0} && Drained(h) && |h.items| == 2 && h.items[0].value == [true]
  {
    var h, e, f := BothHost(), Assign(0, [true]), BothFrame();
    OneEvent(h, e);
    hide IsRun, Run;
    assert Put(EmptyData(), Bit(0, 0), [true]) == f.data;
    hide Put;
    assert [OutputMsg(true, f)][0 := OutputMsg(false, f)] == [OutputMsg(false, f)];
    assert h.outputs[0 := OutputMsg(true, f)] == [OutputMsg(true, f)];
    assert h.items[0 := Item(0, Bit(0, 0), [true])] == [Item(0, Bit(0, 0), [true]), Item(0, Bit(0, 1), [false])];
    var items := [Item(0, Bit(0, 0), [true]), Item(0, Bit(0, 1), [false])];
    assert Step(h, e) == (Host([OutputMsg(false, f)], items, true, f), [f]);
    assert Writes(h, e) == {0};
    hide Step, Writes;
  }

  lemma BothDriven(n: Node, f: Frame)
    requires |n.image| == 1 && Ready(BothConfig(), 1) && f == BothFrame()
    ensures var pins := ConsumeAll(BothConfig(), n, [f]).pins; LAMP_PIN in pins && pins[LAMP_PIN] == [false]
  {
    assert [f][..0] == [];
    var c := BothConfig();
    var image := Copied(n.image, 0, 1, f);
    assert image == [f.data[0]];
    assert Get(image, Bit(0, 1)) == [false];
  }

  // ---------- two ids that look the same to a filter ----------

  const LOW := DigOut(0x001, 0, 0)
  const HIGH := DigOut(0x801, 0, 0)
  const TWO := [LOW, HIGH]

  function TwoHost(): Host {
    Host([OutputMsg(false, Frame(0x001, 1, EmptyData())), OutputMsg(false, Frame(0x801, 1, EmptyData()))],
         [Item(0, Bit(0, 0), [false]), Item(1, Bit(0, 0), [false])], false, Frame(0, 0, EmptyData()))
  }

  function TwoLayout(): Layout { Layout([Mob(0x001, 0, 1), Mob(0x801, 1, 1)], 2) }

  function TwoConfig(): Config {
    Config([0x001, 0x801], [1, 2], 2, [Obj(0, Bit(0, 0), Digital(32)), Obj(1, Bit(1, 0), Digital(33))], [])
  }

  lemma OutsCons(e: Entry, es: seq<Entry>)
    requires e.IsInput()
    ensures Outs([e] + es) == [e] + Outs(es)
  {
    assert ([e] + es)[1..] == es;
  }

  lemma KindCons(e: Entry, es: seq<Entry>, digital: bool)
    ensures OfKind([e] + es, digital)
            == (if (if digital then e.DigOut? else e.Pwm16?) then [e] else []) + OfKind(es, digital)
  {
    assert ([e] + es)[1..] == es;
  }

  lemma CountCons(e: Entry, es: seq<Entry>, kind: Kind)
    ensures Count([e] + es, kind) == (if KindOf(e) == kind then 1 else 0) + Count(es, kind)
  {
    assert ([e] + es)[1..] == es;
  }

  lemma LengthCons(e: Entry, es: seq<Entry>, id: CanId)
    requires e.DigOut? && e.byte == 0
    ensures HostLength([e] + es, id)
            == if e.id == id && HostLength(es, id) < 1 then 1 else HostLength(es, id)
  {
    assert ([e] + es)[1..] == es;
  }

  lemma TwoIs()
    ensures TWO == [LOW] + ([HIGH] + []) && LOW in TWO && HIGH in TWO
    ensures LOW.IsInput() && HIGH.IsInput() && LOW.id == 0x001 && HIGH.id == 0x801
  {
  }

  lemma TwoOuts()
    ensures Outs(TWO) == TWO
    ensures forall id :: HostLength(TWO, id) == if id == 0x001 || id == 0x801 then 1 else 0
  {
    TwoIs();
    OutsCons(LOW, [HIGH] + []);
    OutsCons(HIGH, []);
    forall id ensures HostLength(TWO, id) == if id == 0x001 || id == 0x801 then 1 else 0 {
      LengthCons(LOW, [HIGH] + [], id);
      LengthCons(HIGH, [], id);
    }
    hide HostLength;
  }

  lemma TwoKinds()
    ensures OfKind(TWO, true) == TWO && OfKind(TWO, false) == []
  {
    TwoIs();
    KindCons(LOW, [HIGH] + [], true);
    KindCons(HIGH, [], true);
    KindCons(LOW, [HIGH] + [], false);
    KindCons(HIGH, [], false);
  }

  lemma OneFits(s: seq<Span>)
    requires s == [Span(0, 1)]
    ensures Fits(s) && LeastBytes(s, 1)
  {
    assert s[0] in s;
  }

  lemma LowSpan()
    ensures LOW.Bits() == Span(0, 1)
  {
  }

  lemma HighSpan()
    ensures HIGH.Bits() == Span(0, 1)
  {
  }

  lemma TwoItems()
    ensures ItemsOf(TWO, 0x001) == [Span(0, 1)] && ItemsOf(TWO, 0x801) == [Span(0, 1)]
  {
    hide *;
    TwoIs();
    LowSpan();
    HighSpan();
    NoItems(0x001);
    NoItems(0x801);
    ItemsCons(LOW, [HIGH] + [], 0x001);
    ItemsCons(HIGH, [], 0x001);
    ItemsCons(LOW, [HIGH] + [], 0x801);
    ItemsCons(HIGH, [], 0x801);
  }

  lemma NoItems(id: CanId)
    ensures ItemsOf([], id) == []
  {
  }

  lemma TwoEntries()
    ensures forall e :: e in TWO ==> (e == LOW || e == HIGH) && e.IsInput() && (e.id == 0x001 || e.id == 0x801)
    ensures HasId(TWO, 0x001, true) && HasId(TWO, 0x801, true)
  {
    TwoIs();
  }

  lemma TwoFit()
    ensures Fits(ItemsOf(TWO, 0x001)) && LeastBytes(ItemsOf(TWO, 0x001), 1)
    ensures Fits(ItemsOf(TWO, 0x801)) && LeastBytes(ItemsOf(TWO, 0x801), 1)
  {
    hide *;
    TwoItems();
    OneFits(ItemsOf(TWO, 0x001));
    OneFits(ItemsOf(TWO, 0x801));
  }

  lemma TwoAccepted()
    ensures Acceptable(TWO) && Packs(TwoLayout(), TWO)
  {
    hide *;
    TwoEntries();
    TwoFit();
    OutputsAccepted(TWO);
    TwoPacks();
  }

  /** Outputs alone are accepted if the items of every id fit. */
  lemma OutputsAccepted(es: seq<Entry>)
    requires forall e :: e in es ==> e.IsInput() && Fits(ItemsOf(es, e.id))
    ensures Acceptable(es)
  {
    hide Fits, ItemsOf;
  }

  lemma TwoPacks()
    ensures Packs(TwoLayout(), TWO)
  {
    TwoEntries();
    TwoFit();
    var mobs := TwoLayout().mobs;
    assert mobs[0].id == 0x001 && mobs[1].id == 0x801;
    hide HasId, ItemsOf, Fits, LeastBytes, TWO, Count;
  }

  lemma TwoLinked()
    ensures Linked(TwoHost(), TWO, TWO, TwoLayout(), TwoConfig())
  {
    hide *;
    TwoAccepted();
    TwoBuilt();
    TwoConfigured();
    TwoOuts();
    TwoFit();
    TwoEntries();
    AllOutputsFit(TWO);
    OutputsLinked(TwoHost(), TWO, TwoLayout(), TwoConfig());
  }

  lemma AllOutputsFit(es: seq<Entry>)
    requires Outs(es) == es && Acceptable(es)
    ensures OutputsFit(es)
  {
    hide Fits, ItemsOf, Outs;
  }

  /** A node with no sensors that is all there is. */
  lemma OutputsLinked(h: Host, es: seq<Entry>, l: Layout, c: Config)
    requires Built(h, es) && OutputsFit(es) && Acceptable(es) && Packs(l, es) && Configured(c, l, es)
    requires forall e :: e in es ==> e.IsInput()
    ensures Linked(h, es, es, l, c)
  {
    hide Built, OutputsFit, Acceptable, Packs, Configured, SensorLength;
  }

  lemma TwoBuilt()
    ensures Built(TwoHost(), TWO)
  {
    TwoOuts();
    var h := TwoHost();
    hide Outs, HostLength;
    forall id ensures LengthIs(h.outputs, id, HostLength(TWO, id)) {
      assert h.outputs[0].frame.id == 0x001 && h.outputs[1].frame.id == 0x801;
    }
    hide LengthIs;
    assert ItemBuilt(h, 0, LOW) && ItemBuilt(h, 1, HIGH);
  }

  lemma TwoConfigured()
    ensures Configured(TwoConfig(), TwoLayout(), TWO)
  {
    TwoKinds();
    var c, l := TwoConfig(), TwoLayout();
    hide OfKind;
    assert c.Objs() == c.digOuts && NodeOuts(TWO) == TWO;
    assert Stands(c, l, 0, LOW) && Stands(c, l, 1, HIGH);
    hide Stands;
  }

  lemma TwoCounts()
    ensures CountsFit(TwoLayout(), TWO)
  {
    TwoIs();
    forall kind ensures Count(TWO, kind) <= 2 {
      CountCons(LOW, [HIGH] + [], kind);
      CountCons(HIGH, [], kind);
      assert Count([], kind) == 0;
    }
    var mobs := TwoLayout().mobs;
    assert mobs[1..] == [Mob(0x801, 1, 1)] && mobs[1..][1..] == [];
    assert SumSizes(mobs[1..][1..]) == 0 && SumSizes(mobs[1..]) == 1;
    hide Count;
  }

  lemma TwoClash()
    ensures Uploads(TwoLayout(), TWO) && PinsDistinct(TwoConfig()) && !RoutesApart(TwoConfig(), TWO, TWO)
  {
    TwoCounts();
    var c := TwoConfig();
    assert Receivers(c) == 2 && Wire(c.ids[0]) == Wire(c.ids[1]);
    hide CountsFit, Spares;
  }

  /** Ids 0x001 and 0x801 on one node: it is accepted and uploads, its pins are distinct, and
      neither image nor pins follow. */
  lemma SameFilterFails()
    ensures Acceptable(TWO) && Packs(TwoLayout(), TWO) && Uploads(TwoLayout(), TWO)
    ensures Linked(TwoHost(), TWO, TWO, TwoLayout(), TwoConfig()) && PinsDistinct(TwoConfig())
    ensures !ImageFollows(TwoHost(), TWO, TWO, TwoLayout(), TwoConfig())
    ensures !PinsFollow(TwoHost(), TWO, TWO, TwoLayout(), TwoConfig())
  {
    hide *;
    TwoAccepted();
    TwoLinked();
    TwoClash();
    ImageFollowsIff(TwoHost(), TWO, TWO, TwoLayout(), TwoConfig());
    PinsFollowIff(TwoHost(), TWO, TWO, TwoLayout(), TwoConfig());
  }

  // ---------- one message object too many ----------

  /** n switches, each with an id of its own. */
  function Switches(n: nat): (r: seq<Entry>)
    ensures |r| == n && forall i :: 0 <= i < n ==> r[i] == DigOut(0x100 + i, 0, 0)
  {
    seq(n, i requires 0 <= i < n => DigOut(0x100 + i, 0, 0))
  }

  function SwitchLayout(n: nat): (r: Layout)
    ensures |r.mobs| == r.inputs == n && forall i :: 0 <= i < n ==> r.mobs[i] == Mob(0x100 + i, i, 1)
  {
    Layout(seq(n, i requires 0 <= i < n => Mob(0x100 + i, i, 1)), n)
  }

  lemma {:induction false} SwitchItems(n: nat, id: CanId)
    ensures ItemsOf(Switches(n), id) == if 0x100 <= id < 0x100 + n then [Span(0, 1)] else []
  {
    if n > 0 {
      SwitchItems(n - 1, id);
      var e := DigOut(0x100 + n - 1, 0, 0);
      assert Switches(n) == Switches(n - 1) + [e];
      ItemsSnoc(Switches(n - 1), e, id);
      assert e.Bits() == Span(0, 1);
    }
  }

  lemma {:induction false} ItemsSnoc(es: seq<Entry>, e: Entry, id: CanId)
    ensures ItemsOf(es + [e], id) == ItemsOf(es, id) + (if e.id == id then [e.Bits()] else [])
  {
    if es == [] {
      assert es + [e] == [e] + [];
      ItemsCons(e, [], id);
    } else {
      ItemsSnoc(es[1..], e, id);
      assert es + [e] == [es[0]] + (es[1..] + [e]) && es == [es[0]] + es[1..];
      ItemsCons(es[0], es[1..] + [e], id);
      ItemsCons(es[0], es[1..], id);
      hide ItemsOf;
    }
  }

  lemma SwitchIds(n: nat, id: CanId)
    ensures HasId(Switches(n), id, true) <==> 0x100 <= id < 0x100 + n
  {
    if 0x100 <= id < 0x100 + n {
      assert Switches(n)[id - 0x100] in Switches(n);
    }
  }

  lemma SwitchFits(n: nat, id: CanId)
    requires 0x100 <= id < 0x100 + n
    ensures Fits(ItemsOf(Switches(n), id)) && LeastBytes(ItemsOf(Switches(n), id), 1)
  {
    hide *;
    SwitchItems(n, id);
    OneFits(ItemsOf(Switches(n), id));
  }

  lemma SwitchEntry(n: nat, e: Entry)
    requires e in Switches(n)
    ensures e.IsInput() && 0x100 <= e.id < 0x100 + n
  {
  }

  lemma SwitchesAccepted(n: nat)
    ensures Acceptable(Switches(n))
  {
    hide *;
    forall e | e in Switches(n) ensures e.IsInput() && Fits(ItemsOf(Switches(n), e.id)) {
      SwitchEntry(n, e);
      SwitchFits(n, e.id);
    }
    OutputsAccepted(Switches(n));
  }

  lemma SwitchesServed(n: nat)
    ensures Serves(SwitchLayout(n), Switches(n))
  {
    var es, l := Switches(n), SwitchLayout(n);
    forall i | 0 <= i < |l.mobs| ensures HasId(es, l.mobs[i].id, i < l.inputs) {
      SwitchIds(n, l.mobs[i].id);
    }
    hide HasId;
    forall e | e in es ensures exists i :: 0 <= i < |l.mobs| && l.mobs[i].id == e.id && e.IsInput() == (i < l.inputs) {
      SwitchEntry(n, e);
      assert l.mobs[e.id - 0x100].id == e.id;
    }
    hide Switches, SwitchLayout;
  }

  lemma SwitchesPack(n: nat)
    ensures Packs(SwitchLayout(n), Switches(n))
  {
    SwitchesServed(n);
    var l := SwitchLayout(n);
    hide ItemsOf, LeastBytes, Serves, Switches, Fits;
    forall i | 0 <= i < |l.mobs| ensures LeastBytes(ItemsOf(Switches(n), l.mobs[i].id), l.mobs[i].size) {
      SwitchFits(n, l.mobs[i].id);
    }
  }

  /** Any number of switches with ids of their own is accepted, but no more than twelve can be
      uploaded. */
  lemma ManyObjects(n: nat)
    ensures Acceptable(Switches(n)) && Packs(SwitchLayout(n), Switches(n))
    ensures n > 12 ==> !Uploads(SwitchLayout(n), Switches(n))
  {
    SwitchesAccepted(n);
    SwitchesPack(n);
    hide Acceptable, Packs, CountsFit, Switches;
  }
}
