/** When the image and the pins of a node follow the host's items: exactly when the upload
    completes, the filters of the node's message objects keep the frames apart and, for the
    pins, no two objects share one. The configuration tool's check asks for none of that.
  */
module CanPins {
  import opened Wrappers
  import opened CanLayout
  import opened CanHost
  import opened CanBuilder
  import opened CanNode
  import opened CanImage
  import opened CanRuns

  /** After a run the place of object k in the image has the value of item a. */
  ghost predicate InImage(h: Host, c: Config, n: Node, evs: seq<Event>, bus: seq<Carried>, a: nat, k: nat)
    requires IsRun(h, evs) && Ready(c, |n.image|) && k < |c.Objs()| && a < |Run(h, evs).0.items|
  {
    assert c.Objs()[k] in c.Objs();
    Get(ConsumeAll(c, n, Frames(bus)).image, c.Objs()[k].loc) == Run(h, evs).0.items[a].value
  }

  /** And its pin. */
  ghost predicate OnPin(h: Host, c: Config, n: Node, evs: seq<Event>, bus: seq<Carried>, a: nat, k: nat)
    requires IsRun(h, evs) && Ready(c, |n.image|) && k < |c.Objs()| && a < |Run(h, evs).0.items|
  {
    var pins, p := ConsumeAll(c, n, Frames(bus)).pins, c.Objs()[k].pin;
    p in pins && pins[p] == Run(h, evs).0.items[a].value
  }

  /** The upload completes, and after every run that leaves nothing waiting the image has the
      last value of every item ever written. */
  ghost predicate ImageFollows(h: Host, es: seq<Entry>, nes: seq<Entry>, l: Layout, c: Config) {
    && Uploads(l, nes)
    && forall n, evs, bus, a, k :: WroteItem(h, es, nes, l, c, n, evs, bus, a, k) ==> InImage(h, c, n, evs, bus, a, k)
  }

  /** And so have the pins. */
  ghost predicate PinsFollow(h: Host, es: seq<Entry>, nes: seq<Entry>, l: Layout, c: Config) {
    && Uploads(l, nes)
    && forall n, evs, bus, a, k :: WroteItem(h, es, nes, l, c, n, evs, bus, a, k) ==> OnPin(h, c, n, evs, bus, a, k)
  }

  // ---------- the conditions are enough ----------

  lemma RoutedImage(h: Host, es: seq<Entry>, nes: seq<Entry>, l: Layout, c: Config)
    requires Linked(h, es, nes, l, c) && Uploads(l, nes) && RoutesApart(c, es, nes)
    ensures ImageFollows(h, es, nes, l, c)
  {
    hide Linked, Uploads, RoutesApart, Run, IsRun, Ready, ConsumeAll, Get, PinsDistinct;
    forall n, evs, bus, a, k | WroteItem(h, es, nes, l, c, n, evs, bus, a, k) ensures InImage(h, c, n, evs, bus, a, k) {
      EndToEnd(h, es, nes, l, c, n, evs, bus, a, k);
      hide WroteItem;
    }
  }

  lemma RoutedPins(h: Host, es: seq<Entry>, nes: seq<Entry>, l: Layout, c: Config)
    requires Linked(h, es, nes, l, c) && Uploads(l, nes) && RoutesApart(c, es, nes) && PinsDistinct(c)
    ensures PinsFollow(h, es, nes, l, c)
  {
    hide Linked, Uploads, RoutesApart, Run, IsRun, Ready, ConsumeAll, Get, PinsDistinct;
    forall n, evs, bus, a, k | WroteItem(h, es, nes, l, c, n, evs, bus, a, k) ensures OnPin(h, c, n, evs, bus, a, k) {
      EndToEnd(h, es, nes, l, c, n, evs, bus, a, k);
      hide WroteItem;
    }
  }

  // ---------- runs on the bus ----------

  /** A bus that carries only what the host sends. */
  function ByHost(sent: seq<Frame>): (r: seq<Carried>)
    ensures |r| == |sent| && forall i :: 0 <= i < |sent| ==> r[i] == FromHost(sent[i])
  {
    seq(|sent|, i requires 0 <= i < |sent| => FromHost(sent[i]))
  }

  lemma {:induction false} ByHostCarries(sent: seq<Frame>, es: seq<Entry>, nes: seq<Entry>)
    ensures Frames(ByHost(sent)) == sent && HostFrames(ByHost(sent)) == sent
    ensures Carries(ByHost(sent), sent, es, nes)
    decreases |sent|
  {
    if sent != [] {
      var m := |sent| - 1;
      ByHostCarries(sent[..m], es, nes);
      assert ByHost(sent)[..m] == ByHost(sent[..m]);
      assert sent == sent[..m] + [sent[m]];
    }
    hide SensorLength;
  }

  /** And then a frame of another node. */
  lemma SensorCarried(sent: seq<Frame>, es: seq<Entry>, nes: seq<Entry>, e: Entry, f: Frame)
    requires e in es && e !in nes && !e.IsInput() && e.id == f.id && f.dlc == SensorLength(es, e.id)
    ensures var bus := ByHost(sent) + [FromNode(f)]; Frames(bus) == sent + [f] && Carries(bus, sent, es, nes)
  {
    ByHostCarries(sent, es, nes);
    var bus := ByHost(sent) + [FromNode(f)];
    assert bus[..|sent|] == ByHost(sent);
    assert HostFrames(bus) == sent + [];
    hide SensorLength, HostFrames;
  }

  lemma ConsumeLast(c: Config, n: Node, frames: seq<Frame>, f: Frame)
    requires Ready(c, |n.image|)
    ensures ConsumeAll(c, n, frames + [f]) == Consume(c, ConsumeAll(c, n, frames), f)
  {
    assert (frames + [f])[..|frames|] == frames;
    hide Consume;
  }

  // ---------- frames that get to the wrong object ----------

  function BitOf(l: Loc): BitIdx { if l.Bit? then l.bit else 0 }

  lemma GetFirst(d: seq<Octet>, l: Loc)
    requires l.Within(|d|)
    ensures |Get(d, l)| > 0 && Get(d, l)[0] == d[l.offset][BitOf(l)]
  {
  }

  /** A frame that the filter takes for one of object k's, and that reaches it. */
  lemma WrongTaken(c: Config, n: Node, f: Frame, k: nat)
    requires Ready(c, |n.image|) && IdsApart(c) && k < |c.Objs()| && c.Objs()[k].mobIdx < Receivers(c)
    requires InSlice(c, c.Objs()[k], c.Objs()[k].mobIdx) && Wire(f.id) == Wire(c.ids[c.Objs()[k].mobIdx])
    requires c.Objs()[k].loc.offset < Begin(c.ends, c.Objs()[k].mobIdx) as int + f.dlc
    ensures var o, n' := c.Objs()[k], Consume(c, n, f);
            var b := Begin(c.ends, o.mobIdx) as int;
            && o.loc.Within(|n'.image|) && |Get(n'.image, o.loc)| > 0
            && Get(n'.image, o.loc)[0] == f.data[o.loc.offset - b][BitOf(o.loc)]
            && (PinsDistinct(c) ==> o.pin in n'.pins && n'.pins[o.pin] == Get(n'.image, o.loc))
  {
    var o := c.Objs()[k];
    var i := o.mobIdx;
    assert o in c.Objs() && MobOf(c, f.id, 0) == i;
    assert Taken(c, n, i, f).image[o.loc.offset] == f.data[o.loc.offset - Begin(c.ends, i) as int];
    hide Taken;
    GetFirst(Taken(c, n, i, f).image, o.loc);
    if PinsDistinct(c) {
      TakenPin(c, n, i, f, k);
    }
    hide Get, PinsDistinct;
  }

  // ---------- runs that fail ----------

  /** A run after which item a has another value than object k in the image, and, if no pins
      are shared, than the object's pin. */
  ghost predicate Fails(h: Host, es: seq<Entry>, nes: seq<Entry>, l: Layout, c: Config,
                        n: Node, evs: seq<Event>, bus: seq<Carried>, a: nat, k: nat)
  {
    && WroteItem(h, es, nes, l, c, n, evs, bus, a, k) && k < |c.Objs()|
    && !InImage(h, c, n, evs, bus, a, k) && (PinsDistinct(c) ==> !OnPin(h, c, n, evs, bus, a, k))
  }

  lemma Failed(h: Host, es: seq<Entry>, nes: seq<Entry>, l: Layout, c: Config,
               n: Node, evs: seq<Event>, bus: seq<Carried>, a: nat, k: nat)
    requires IsRun(h, evs) && |n.image| == Total(l.mobs) && Ready(c, |n.image|)
    requires a < |Outs(es)| && Outs(es)[a] in nes && Stands(c, l, k, Outs(es)[a])
    requires a in Run(h, evs).2 && a < |Run(h, evs).0.items| && Drained(Run(h, evs).0)
    requires Carries(bus, Run(h, evs).1, es, nes) && k < |c.Objs()|
    requires !InImage(h, c, n, evs, bus, a, k) && (PinsDistinct(c) ==> !OnPin(h, c, n, evs, bus, a, k))
    ensures Fails(h, es, nes, l, c, n, evs, bus, a, k)
  {
    hide IsRun, Run, Ready, Outs, Drained, Stands, Total, Carries, InImage, OnPin, PinsDistinct;
  }

  /** The image all of one bit, the pins never driven. */
  function Uniform(l: Layout, bit: bool): (r: Node)
    requires Total(l.mobs) >= 0
    ensures |r.image| == Total(l.mobs) && r.pins == map[]
    ensures forall i, j: BitIdx :: 0 <= i < |r.image| ==> r.image[i][j] == bit
  {
    Node(seq(Total(l.mobs), _ => seq(8, _ => bit)), map[])
  }

  lemma TotalNat(l: Layout, nes: seq<Entry>, ends: seq<Byte>)
    requires Slices(ends, l.mobs)
    ensures Total(l.mobs) >= 0
  {
    if l.mobs != [] {
      assert SliceIs(ends, |l.mobs| - 1, l.mobs[|l.mobs| - 1]);
    }
  }

  lemma StandsInput(c: Config, l: Layout, k: nat, e: Entry)
    requires Stands(c, l, k, e)
    ensures e.IsInput() && k < |c.Objs()|
  {
  }

  /** The host's item for an object of the node. */
  lemma ItemFor(h: Host, es: seq<Entry>, nes: seq<Entry>, l: Layout, c: Config, k: nat) returns (a: nat)
    requires Linked(h, es, nes, l, c) && k < |c.Objs()|
    ensures a < |Outs(es)| == |h.items| && Outs(es)[a] in nes && Stands(c, l, k, Outs(es)[a])
    ensures Outs(es)[a] == NodeOuts(nes)[k] && ItemBuilt(h, a, Outs(es)[a])
  {
    hide OutputsFit, Acceptable, Packs, OfKind, Stands, ItemBuilt, LengthIs, SensorLength;
    var e := StandsFor(c, l, nes, k);
    OutsAre(es, e);
    StandsInput(c, l, k, e);
    a :| 0 <= a < |Outs(es)| && Outs(es)[a] == e;
  }

  /** Every received message object has an object. */
  lemma ObjectOn(h: Host, es: seq<Entry>, nes: seq<Entry>, l: Layout, c: Config, j: nat) returns (k: nat)
    requires Linked(h, es, nes, l, c) && j < c.firstTx
    ensures k < |c.Objs()| && c.Objs()[k].mobIdx == j
  {
    hide *;
    LinkedParts(h, es, nes, l, c);
    var e := MobEntry(l, nes, j);
    k := OutIndex(nes, e);
    SameMob(c, l, nes, k, e, j);
  }

  lemma MobEntry(l: Layout, nes: seq<Entry>, j: nat) returns (e: Entry)
    requires Packs(l, nes) && j < l.inputs <= |l.mobs|
    ensures e in nes && e.IsInput() && e.id == l.mobs[j].id
  {
    hide Consecutive, Sized;
    assert HasId(nes, l.mobs[j].id, true);
    e :| e in nes && e.id == l.mobs[j].id && e.IsInput();
  }

  lemma OutIndex(nes: seq<Entry>, e: Entry) returns (k: nat)
    requires e in nes && e.IsInput()
    ensures k < |NodeOuts(nes)| && NodeOuts(nes)[k] == e
  {
    OfKindAre(nes, true, e);
    OfKindAre(nes, false, e);
    hide OfKind;
    assert e in NodeOuts(nes);
    k :| 0 <= k < |NodeOuts(nes)| && NodeOuts(nes)[k] == e;
  }

  lemma SameMob(c: Config, l: Layout, nes: seq<Entry>, k: nat, e: Entry, j: nat)
    requires Packs(l, nes) && Configured(c, l, nes) && k < |NodeOuts(nes)| == |c.Objs()| && NodeOuts(nes)[k] == e
    requires j < l.inputs <= |l.mobs| && l.mobs[j].id == e.id
    ensures c.Objs()[k].mobIdx == j
  {
    hide Uploaded, Consecutive, Sized, OfKind;
    assert Stands(c, l, k, e);
    var m := c.Objs()[k].mobIdx;
    assert m < l.inputs && l.mobs[m].id == l.mobs[j].id;
  }

  /** What is known of an object, its item and the node. */
  lemma Setting(h: Host, es: seq<Entry>, nes: seq<Entry>, l: Layout, c: Config, k: nat) returns (a: nat)
    requires Linked(h, es, nes, l, c) && k < |c.Objs()|
    ensures Fresh(h) && Ready(c, Total(l.mobs)) && SlicesApart(c.ends) && Total(l.mobs) >= 0
    ensures c.Objs()[k].mobIdx < c.firstTx <= |c.ids| == |c.ends| && Receivers(c) <= |c.ids|
    ensures InSlice(c, c.Objs()[k], c.Objs()[k].mobIdx)
    ensures a < |Outs(es)| == |h.items| && Outs(es)[a] in nes && Stands(c, l, k, Outs(es)[a])
    ensures ItemBuilt(h, a, Outs(es)[a]) && Outs(es)[a].id == c.ids[c.Objs()[k].mobIdx]
            && Outs(es)[a] == NodeOuts(nes)[k]
  {
    hide *;
    LinkedParts(h, es, nes, l, c);
    ConfiguredReady(c, l, nes);
    TotalNat(l, nes, c.ends);
    SlicesCount(c.ends, l.mobs);
    BuiltFresh(h, es);
    a := ItemFor(h, es, nes, l, c, k);
    StandsAt(c, l, nes, k, Outs(es)[a]);
    StandsInSlice(c, l, nes, k, Outs(es)[a]);
    FewReceive(c);
  }

  lemma FewReceive(c: Config)
    ensures Receivers(c) <= c.firstTx
  {
  }

  function Filled(bit: bool): (r: Data)
    ensures forall i, j: BitIdx :: 0 <= i < 8 ==> r[i][j] == bit
  {
    seq(8, _ => seq(8, _ => bit))
  }

  lemma InSliceFrom(c: Config, k: nat)
    requires k < |c.Objs()| && c.Objs()[k].mobIdx < |c.ends| && InSlice(c, c.Objs()[k], c.Objs()[k].mobIdx)
    ensures 0 <= c.Objs()[k].loc.offset - Begin(c.ends, c.Objs()[k].mobIdx) as int
  {
  }

  lemma ItemSuits(h: Host, a: nat, e: Entry)
    requires a < |h.items| && ItemBuilt(h, a, e)
    ensures Suits(h.items[a].value, h.items[a].loc) && |h.items[a].value| > 0
  {
  }

  /** An item whose message object no frame gets to. */
  lemma UnreachedFails(h: Host, es: seq<Entry>, nes: seq<Entry>, l: Layout, c: Config, k: nat)
    returns (n: Node, evs: seq<Event>, bus: seq<Carried>, a: nat)
    requires Linked(h, es, nes, l, c) && k < |c.Objs()| && Receivers(c) <= |c.ids| && Unreached(c, c.Objs()[k].mobIdx)
    ensures Fails(h, es, nes, l, c, n, evs, bus, a, k)
  {
    hide *;
    a := Setting(h, es, nes, l, c, k);
    ItemSuits(h, a, Outs(es)[a]);
    var v := h.items[a].value;
    evs := WriteExactly(h, a, v);
    var sent := Run(h, evs).1;
    n := Uniform(l, !v[0]);
    bus := ByHost(sent);
    ByHostCarries(sent, es, nes);
    UnreachedStays(c, n, sent, k);
    UniformDiffers(c, l, n, k, v);
    NotShown(h, c, n, evs, bus, a, k, v);
    RestDrained(Run(h, evs).0);
    Failed(h, es, nes, l, c, n, evs, bus, a, k);
  }

  lemma UniformDiffers(c: Config, l: Layout, n: Node, k: nat, v: Value)
    requires Ready(c, |n.image|) && k < |c.Objs()| && |v| > 0
    requires forall i, j: BitIdx :: 0 <= i < |n.image| ==> n.image[i][j] == !v[0]
    ensures c.Objs()[k].loc.Within(|n.image|) && Get(n.image, c.Objs()[k].loc) != v
  {
    assert c.Objs()[k] in c.Objs();
    GetFirst(n.image, c.Objs()[k].loc);
    hide Get;
  }

  lemma RestDrained(h: Host)
    requires AtRest(h)
    ensures Drained(h)
  {
  }

  /** Neither in the image nor on the pin. */
  lemma NotShown(h: Host, c: Config, n: Node, evs: seq<Event>, bus: seq<Carried>, a: nat, k: nat, v: Value)
    requires IsRun(h, evs) && Ready(c, |n.image|) && k < |c.Objs()| && a < |Run(h, evs).0.items|
    requires v == Run(h, evs).0.items[a].value
    requires var n', o := ConsumeAll(c, n, Frames(bus)), c.Objs()[k];
             && o.loc.Within(|n'.image|) && Get(n'.image, o.loc) != v
             && (PinsDistinct(c) ==> o.pin in n'.pins ==> n'.pins[o.pin] != v)
    ensures !InImage(h, c, n, evs, bus, a, k) && (PinsDistinct(c) ==> !OnPin(h, c, n, evs, bus, a, k))
  {
    hide IsRun, Run, Ready, ConsumeAll, Get, PinsDistinct;
  }

  /** What a wrong frame leaves differs from v if its first bit there does. */
  lemma WrongShown(c: Config, n: Node, f: Frame, k: nat, v: Value)
    requires Ready(c, |n.image|) && IdsApart(c) && k < |c.Objs()| && c.Objs()[k].mobIdx < Receivers(c)
    requires InSlice(c, c.Objs()[k], c.Objs()[k].mobIdx) && Wire(f.id) == Wire(c.ids[c.Objs()[k].mobIdx])
    requires c.Objs()[k].loc.offset < Begin(c.ends, c.Objs()[k].mobIdx) as int + f.dlc && |v| > 0
    requires v[0] != f.data[c.Objs()[k].loc.offset - Begin(c.ends, c.Objs()[k].mobIdx) as int][BitOf(c.Objs()[k].loc)]
    ensures var n', o := Consume(c, n, f), c.Objs()[k];
            && o.loc.Within(|n'.image|) && Get(n'.image, o.loc) != v
            && (PinsDistinct(c) ==> o.pin in n'.pins ==> n'.pins[o.pin] != v)
  {
    WrongTaken(c, n, f, k);
    hide Consume, Get, PinsDistinct, IdsApart;
  }

  lemma NotSpared(c: Config, es: seq<Entry>, k: nat, e: Entry)
    requires k < |c.Objs()| && c.Objs()[k].mobIdx < |c.ids| == |c.ends| && !Spares(c, es, k, e)
    ensures var o := c.Objs()[k];
            && e.id != c.ids[o.mobIdx] && Wire(e.id) == Wire(c.ids[o.mobIdx])
            && o.loc.offset < Begin(c.ends, o.mobIdx) as int + BusLength(es, e)
  {
    hide BusLength;
  }

  lemma SensorFits(h: Host, es: seq<Entry>, nes: seq<Entry>, l: Layout, c: Config, e: Entry)
    requires Linked(h, es, nes, l, c) && e in es && !e.IsInput()
    ensures 0 <= SensorLength(es, e.id) <= 8 && BusLength(es, e) == SensorLength(es, e.id)
  {
    hide SensorLength, Built, OutputsFit, Acceptable, Packs, Configured;
  }

  /** A sensor of another node whose frames get to object k. */
  lemma SensorFails(h: Host, es: seq<Entry>, nes: seq<Entry>, l: Layout, c: Config, k: nat, e: Entry)
    returns (n: Node, evs: seq<Event>, bus: seq<Carried>, a: nat)
    requires Linked(h, es, nes, l, c) && k < |c.Objs()| && Receivers(c) == c.firstTx <= |c.ids| && IdsApart(c)
    requires e in es && e !in nes && !e.IsInput() && !Spares(c, es, k, e)
    ensures Fails(h, es, nes, l, c, n, evs, bus, a, k)
  {
    hide *;
    a := Setting(h, es, nes, l, c, k);
    ItemSuits(h, a, Outs(es)[a]);
    NotSpared(c, es, k, e);
    SensorFits(h, es, nes, l, c, e);
    var v := h.items[a].value;
    evs := WriteExactly(h, a, v);
    var sent := Run(h, evs).1;
    n := Uniform(l, false);
    var f := Frame(e.id, SensorLength(es, e.id), Filled(!v[0]));
    InSliceFrom(c, k);
    bus := ByHost(sent) + [FromNode(f)];
    SensorCarried(sent, es, nes, e, f);
    ConsumeLast(c, n, sent, f);
    WrongShown(c, ConsumeAll(c, n, sent), f, k, v);
    NotShown(h, c, n, evs, bus, a, k, v);
    RestDrained(Run(h, evs).0);
    Failed(h, es, nes, l, c, n, evs, bus, a, k);
  }

  /** An output of another id, of this node or not, whose frames get to object k. */
  lemma OutputFails(h: Host, es: seq<Entry>, nes: seq<Entry>, l: Layout, c: Config, k: nat, e: Entry)
    returns (n: Node, evs: seq<Event>, bus: seq<Carried>, a: nat)
    requires Linked(h, es, nes, l, c) && k < |c.Objs()| && Receivers(c) == c.firstTx <= |c.ids| && IdsApart(c)
    requires e in es && e.IsInput() && !Spares(c, es, k, e)
    ensures Fails(h, es, nes, l, c, n, evs, bus, a, k)
  {
    hide *;
    a := Setting(h, es, nes, l, c, k);
    ItemSuits(h, a, Outs(es)[a]);
    NotSpared(c, es, k, e);
    var b := OtherItem(h, es, nes, l, c, a, e);
    var f := Flipped(h, b);
    var o := c.Objs()[k];
    InSliceFrom(c, k);
    var bit := f.data[o.loc.offset - Begin(c.ends, o.mobIdx) as int][BitOf(o.loc)];
    var v := Repeat(!bit, |h.items[a].value|);
    SuitsToo(h, a, v);
    var first := WriteExactly(h, a, v);
    var h1 := Run(h, first).0;
    StillFlipped(h, h1, a, b, v);
    RestDrained(h1);
    FlipSends(h1, b);
    var last := [Assign(b, Not(h1.items[b].value))];
    RunConcat(h, first, last);
    evs := first + last;
    n := Uniform(l, false);
    var sent := Run(h, first).1;
    bus := ByHost(sent + [f]);
    ByHostCarries(sent + [f], es, nes);
    ConsumeLast(c, n, sent, f);
    WrongShown(c, ConsumeAll(c, n, sent), f, k, v);
    NotShown(h, c, n, evs, bus, a, k, v);
    Failed(h, es, nes, l, c, n, evs, bus, a, k);
  }

  function Repeat(bit: bool, n: nat): (r: Value)
    ensures |r| == n && forall i :: 0 <= i < n ==> r[i] == bit
  {
    seq(n, _ => bit)
  }

  lemma SuitsToo(h: Host, a: nat, v: Value)
    requires a < |h.items| && Suits(h.items[a].value, h.items[a].loc) && |v| == |h.items[a].value|
    ensures Suits(v, h.items[a].loc)
  {
  }

  /** The item of an output of another id than item a's, in another frame. */
  lemma OtherItem(h: Host, es: seq<Entry>, nes: seq<Entry>, l: Layout, c: Config, a: nat, e: Entry) returns (b: nat)
    requires Linked(h, es, nes, l, c) && e in es && e.IsInput()
    requires a < |Outs(es)| == |h.items| && ItemBuilt(h, a, Outs(es)[a]) && Outs(es)[a].id != e.id
    ensures b < |h.items| && a != b && h.items[a].idx != h.items[b].idx && ItemFits(h, b)
    ensures Flipped(h, b).id == e.id && Flipped(h, b).dlc == BusLength(es, e)
  {
    LinkedParts(h, es, nes, l, c);
    BuiltFresh(h, es);
    OutsAre(es, e);
    b :| 0 <= b < |Outs(es)| && Outs(es)[b] == e;
    hide Linked, OutputsFit, Acceptable, Packs, Configured, Outs, HostLength;
    assert ItemBuilt(h, b, e) && ItemFits(h, b) && LengthIs(h.outputs, e.id, HostLength(es, e.id));
    hide Built, Put, Not;
  }

  lemma StillFlipped(h: Host, h1: Host, a: nat, b: nat, v: Value)
    requires a < |h.items| && b < |h.items| && a != b && h.items[a].idx != h.items[b].idx && ItemFits(h, b)
    requires h1.items == h.items[a := h.items[a].(value := v)] && OthersKept(h, h1, h.items[a].idx)
    ensures b < |h1.items| && ItemFits(h1, b) && Flipped(h1, b) == Flipped(h, b) && h1.items[a].value == v
    ensures h1.items[b := h1.items[b].(value := Not(h1.items[b].value))][a].value == v
  {
    hide Put, Not;
  }

  /** If the filters do not keep the frames apart there is a run that fails. */
  lemma RoutesFail(h: Host, es: seq<Entry>, nes: seq<Entry>, l: Layout, c: Config)
    returns (n: Node, evs: seq<Event>, bus: seq<Carried>, a: nat, k: nat)
    requires Linked(h, es, nes, l, c) && c.firstTx <= SVC_TX && !RoutesApart(c, es, nes)
    ensures Fails(h, es, nes, l, c, n, evs, bus, a, k)
  {
    LinkedParts(h, es, nes, l, c);
    AllReceive(c);
    hide Linked, Spares, Fails, Packs, Configured, Built, Acceptable, OutputsFit, Sized;
    if !IdsApart(c) {
      var i, j :| 0 <= i < j < Receivers(c) && Wire(c.ids[i]) == Wire(c.ids[j]);
      k := ObjectOn(h, es, nes, l, c, j);
      n, evs, bus, a := UnreachedFails(h, es, nes, l, c, k);
    } else {
      var m, e :| 0 <= m < |c.Objs()| && e in es && (e.IsInput() || e !in nes) && !Spares(c, es, m, e);
      k := m;
      if e.IsInput() {
        n, evs, bus, a := OutputFails(h, es, nes, l, c, k, e);
      } else {
        n, evs, bus, a := SensorFails(h, es, nes, l, c, k, e);
      }
    }
  }

  /** Were the missing answers to the upload ignored, the objects of the service's message
      objects would still never follow. */
  lemma ServiceObjectsFail(h: Host, es: seq<Entry>, nes: seq<Entry>, l: Layout, c: Config)
    returns (n: Node, evs: seq<Event>, bus: seq<Carried>, a: nat, k: nat)
    requires Linked(h, es, nes, l, c) && c.firstTx > SVC_TX
    ensures Fails(h, es, nes, l, c, n, evs, bus, a, k) && c.Objs()[k].mobIdx == SVC_TX
  {
    LinkedParts(h, es, nes, l, c);
    hide Linked, Fails, Packs, Configured, Built, Acceptable, OutputsFit, Sized;
    k := ObjectOn(h, es, nes, l, c, SVC_TX);
    n, evs, bus, a := UnreachedFails(h, es, nes, l, c, k);
  }

  // ---------- objects of a node stand for different entries ----------

  lemma EntriesDiffer(es: seq<Entry>)
    requires Acceptable(es)
    ensures forall i, j :: 0 <= i < j < |es| ==> es[i] != es[j]
  {
    forall i, j | 0 <= i < j < |es| ensures es[i] != es[j] {
      assert es[i] in es;
      if es[i] == es[j] {
        EntriesApart(es, i, j);
      }
    }
    hide Fits, ItemsOf;
  }

  lemma {:induction false} OfKindDiffer(es: seq<Entry>, digital: bool)
    requires forall i, j :: 0 <= i < j < |es| ==> es[i] != es[j]
    ensures forall i, j :: 0 <= i < j < |OfKind(es, digital)| ==> OfKind(es, digital)[i] != OfKind(es, digital)[j]
  {
    if es != [] {
      OfKindDiffer(es[1..], digital);
      OfKindAre(es[1..], digital, es[0]);
    }
  }

  lemma ObjectsDiffer(nes: seq<Entry>, i: nat, j: nat)
    requires Acceptable(nes) && i < j < |NodeOuts(nes)|
    ensures NodeOuts(nes)[i] != NodeOuts(nes)[j]
  {
    var e, f := NodeOuts(nes)[i], NodeOuts(nes)[j];
    EntriesDiffer(nes);
    OfKindDiffer(nes, true);
    OfKindDiffer(nes, false);
    OfKindAre(nes, true, e);
    OfKindAre(nes, false, f);
    hide Acceptable, OfKind;
  }

  // ---------- shared pins ----------

  lemma Wrote(h: Host, es: seq<Entry>, nes: seq<Entry>, l: Layout, c: Config, n: Node, evs: seq<Event>,
              bus: seq<Carried>, a: nat, k: nat)
    requires IsRun(h, evs) && |n.image| == Total(l.mobs) && Ready(c, |n.image|)
    requires a < |Outs(es)| && Outs(es)[a] in nes && Stands(c, l, k, Outs(es)[a])
    requires a in Run(h, evs).2 && a < |Run(h, evs).0.items| && Drained(Run(h, evs).0)
    requires Carries(bus, Run(h, evs).1, es, nes)
    ensures WroteItem(h, es, nes, l, c, n, evs, bus, a, k)
  {
    hide IsRun, Run, Ready, Outs, Drained, Stands, Total, Carries;
  }

  /** One pin cannot show two values. */
  lemma PinShowsOne(h: Host, es: seq<Entry>, nes: seq<Entry>, l: Layout, c: Config, n: Node, evs: seq<Event>,
                    bus: seq<Carried>, a: nat, k: nat, b: nat, m: nat)
    requires WroteItem(h, es, nes, l, c, n, evs, bus, a, k) && WroteItem(h, es, nes, l, c, n, evs, bus, b, m)
    requires k < |c.Objs()| && m < |c.Objs()| && c.Objs()[k].pin == c.Objs()[m].pin
    requires Run(h, evs).0.items[a].value != Run(h, evs).0.items[b].value
    ensures !PinsFollow(h, es, nes, l, c)
  {
    hide IsRun, Run, Ready, Outs, Drained, Stands, Total, ConsumeAll, Carries, Uploads;
    assert !(OnPin(h, c, n, evs, bus, a, k) && OnPin(h, c, n, evs, bus, b, m));
  }

  /** Two objects on one pin: a run after which the pin is wrong for one of their items. */
  lemma SharedPinFails(h: Host, es: seq<Entry>, nes: seq<Entry>, l: Layout, c: Config, k: nat, m: nat)
    requires Linked(h, es, nes, l, c) && k < m < |c.Objs()| && c.Objs()[k].pin == c.Objs()[m].pin
    ensures !PinsFollow(h, es, nes, l, c)
  {
    hide *;
    LinkedParts(h, es, nes, l, c);
    var a := Setting(h, es, nes, l, c, k);
    var b := Setting(h, es, nes, l, c, m);
    ObjectsDiffer(nes, k, m);
    var n := Uniform(l, false);
    var evs := WriteDifferent(h, a, b);
    var bus := ByHost(Run(h, evs).1);
    ByHostCarries(Run(h, evs).1, es, nes);
    Wrote(h, es, nes, l, c, n, evs, bus, a, k);
    Wrote(h, es, nes, l, c, n, evs, bus, b, m);
    PinShowsOne(h, es, nes, l, c, n, evs, bus, a, k, b, m);
  }

  // ---------- exactly when they follow ----------

  lemma FailsImage(h: Host, es: seq<Entry>, nes: seq<Entry>, l: Layout, c: Config, n: Node, evs: seq<Event>,
                   bus: seq<Carried>, a: nat, k: nat)
    requires Fails(h, es, nes, l, c, n, evs, bus, a, k)
    ensures !ImageFollows(h, es, nes, l, c) && (PinsDistinct(c) ==> !PinsFollow(h, es, nes, l, c))
  {
    hide InImage, OnPin, Uploads, PinsDistinct;
  }

  lemma UploadedFirst(h: Host, es: seq<Entry>, nes: seq<Entry>, l: Layout, c: Config)
    requires Linked(h, es, nes, l, c) && Uploads(l, nes)
    ensures c.firstTx <= SVC_TX
  {
    LinkedParts(h, es, nes, l, c);
    hide Linked, CountsFit, Packs, Configured;
  }

  /** The image of a node follows the host's items after every run exactly when the upload
      completes and the filters keep the frames apart. */
  lemma ImageFollowsIff(h: Host, es: seq<Entry>, nes: seq<Entry>, l: Layout, c: Config)
    requires Linked(h, es, nes, l, c)
    ensures ImageFollows(h, es, nes, l, c) <==> Uploads(l, nes) && RoutesApart(c, es, nes)
  {
    hide Linked, Uploads, RoutesApart, WroteItem;
    if Uploads(l, nes) {
      UploadedFirst(h, es, nes, l, c);
      if RoutesApart(c, es, nes) {
        RoutedImage(h, es, nes, l, c);
      } else {
        var n, evs, bus, a, k := RoutesFail(h, es, nes, l, c);
        FailsImage(h, es, nes, l, c, n, evs, bus, a, k);
      }
    }
  }

  /** And its pins exactly when, besides, no two of its objects share a pin. */
  lemma PinsFollowIff(h: Host, es: seq<Entry>, nes: seq<Entry>, l: Layout, c: Config)
    requires Linked(h, es, nes, l, c)
    ensures PinsFollow(h, es, nes, l, c) <==> Uploads(l, nes) && RoutesApart(c, es, nes) && PinsDistinct(c)
  {
    hide Linked, Uploads, RoutesApart, WroteItem;
    if !PinsDistinct(c) {
      var k, m :| 0 <= k < m < |c.Objs()| && c.Objs()[k].pin == c.Objs()[m].pin;
      SharedPinFails(h, es, nes, l, c, k, m);
    } else if Uploads(l, nes) {
      UploadedFirst(h, es, nes, l, c);
      if RoutesApart(c, es, nes) {
        RoutedPins(h, es, nes, l, c);
      } else {
        var n, evs, bus, a, k := RoutesFail(h, es, nes, l, c);
        FailsImage(h, es, nes, l, c, n, evs, bus, a, k);
      }
    }
  }
}
