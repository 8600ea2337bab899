/** The CAN process image end to end: what the host writes into an output item is what the
    node's image holds and its pin shows.
  */
module CanImage {
  import opened Wrappers
  import opened CanLayout
  import opened CanHost
  import opened CanBuilder
  import opened CanNode

  // ---------- what no run changes ----------

  /** The same objects and items: only contents, values and flags may differ. */
  ghost predicate SameShape(h: Host, g: Host) {
    && |h.outputs| == |g.outputs| && |h.items| == |g.items|
    && (forall i :: 0 <= i < |h.outputs| ==>
          h.outputs[i].frame.id == g.outputs[i].frame.id && h.outputs[i].frame.dlc == g.outputs[i].frame.dlc)
    && (forall k :: 0 <= k < |h.items| ==> h.items[k].idx == g.items[k].idx && h.items[k].loc == g.items[k].loc)
  }

  lemma {:induction false} WriteReadyShape(h: Host, i: nat)
    requires i <= |h.outputs|
    ensures SameShape(h, WriteReady(h, i).0)
    decreases |h.outputs| - i
  {
    if i < |h.outputs| {
      if !h.outputs[i].needUpdate {
        WriteReadyShape(h, i + 1);
      } else if !h.pending {
        WriteReadyShape(Offer(h, i).0, i + 1);
      }
    }
  }

  lemma StepShape(h: Host, e: Event)
    requires Allowed(h, e)
    ensures SameShape(h, Step(h, e).0)
  {
    if e.Received? {
      WriteReadyShape(h.(pending := false), 0);
    }
    hide WriteReady;
  }

  lemma {:induction false} RunShape(h: Host, evs: seq<Event>)
    requires IsRun(h, evs)
    ensures SameShape(h, Run(h, evs).0)
    decreases |evs|
  {
    if evs != [] {
      StepShape(h, evs[0]);
      hide Step, Allowed, Writes;
      RunShape(Step(h, evs[0]).0, evs[1..]);
    }
  }

  // ---------- the host as built ----------

  lemma {:induction false} HostLengthCoversNeed(es: seq<Entry>, e: Entry)
    requires e in Outs(es) || (e in es && e.IsInput())
    ensures Need(e) <= HostLength(es, e.id)
  {
    OutsAre(es, e);
    assert es == [es[0]] + es[1..];
    if e != es[0] {
      HostLengthCoversNeed(es[1..], e);
    }
  }

  /** The host makes a frame at least as long as any one node needs it. */
  lemma {:induction false} HostLengthGrows(nes: seq<Entry>, es: seq<Entry>, id: CanId)
    requires forall e :: e in nes ==> e in es
    ensures 0 <= HostLength(nes, id) <= HostLength(es, id)
  {
    if nes == [] {
      HostLengthSnoc(es, Sht11(0), id);
    } else {
      HostLengthGrows(nes[1..], es, id);
      if nes[0].id == id && nes[0].IsInput() {
        HostLengthCoversNeed(es, nes[0]);
      }
    }
  }

  /** The output items the host knows fit their frames. */
  ghost predicate OutputsFit(es: seq<Entry>) {
    forall e :: e in Outs(es) ==> Fits(ItemsOf(Outs(es), e.id))
  }

  /** A host built from a configuration whose output items fit is ready to run. */
  lemma BuiltFresh(h: Host, es: seq<Entry>)
    requires Built(h, es) && OutputsFit(es)
    ensures Fresh(h)
  {
    var outs := Outs(es);
    forall k | 0 <= k < |h.items| ensures ItemFits(h, k) && h.items[k].loc.Bits() == outs[k].Bits() {
      assert ItemBuilt(h, k, outs[k]) && LengthIs(h.outputs, outs[k].id, HostLength(es, outs[k].id));
      HostLengthCoversNeed(es, outs[k]);
    }
    forall k, m | 0 <= k < m < |h.items| && h.items[k].idx == h.items[m].idx
      ensures h.items[k].loc.Bits().Apart(h.items[m].loc.Bits())
    {
      assert ItemBuilt(h, k, outs[k]) && ItemBuilt(h, m, outs[m]);
      assert outs[k] in outs;
      EntriesApart(outs, k, m);
    }
    hide ItemFits, LengthIs, HostLength, Fits, ItemsOf, Outs;
  }

  // ---------- the node as configured ----------

  /** Object k of the node stands for a configured output. */
  ghost predicate Stands(c: Config, l: Layout, k: nat, e: Entry) {
    && k < |c.Objs()| && e.IsInput()
    && var o := c.Objs()[k];
    && o.mobIdx < l.inputs <= |l.mobs| && l.mobs[o.mobIdx].id == e.id
    && o.loc == Shifted(LocOf(e), l.mobs[o.mobIdx].start)
  }

  /** The digital or the PWM outputs of a node, in order. */
  function OfKind(es: seq<Entry>, digital: bool): seq<Entry> {
    if es == [] then []
    else (if (if digital then es[0].DigOut? else es[0].Pwm16?) then [es[0]] else []) + OfKind(es[1..], digital)
  }

  function NodeOuts(es: seq<Entry>): seq<Entry> { OfKind(es, true) + OfKind(es, false) }

  /** What the upload leaves in the node: its message objects, and one object for each
      configured output, the digital ones first. */
  ghost predicate Configured(c: Config, l: Layout, nes: seq<Entry>) {
    && |c.ids| == |l.mobs| && (forall i :: 0 <= i < |l.mobs| ==> c.ids[i] == l.mobs[i].id)
    && Uploaded(c.ends, l.mobs) && c.firstTx == l.inputs
    && |c.digOuts| == |OfKind(nes, true)| && |c.pwms| == |OfKind(nes, false)|
    && (forall k :: 0 <= k < |c.Objs()| ==> Stands(c, l, k, NodeOuts(nes)[k]))
  }

  lemma {:induction false} OfKindAre(es: seq<Entry>, digital: bool, e: Entry)
    ensures e in OfKind(es, digital) <==> e in es && if digital then e.DigOut? else e.Pwm16?
  {
    if es != [] {
      OfKindAre(es[1..], digital, e);
      assert es == [es[0]] + es[1..];
    }
  }

  lemma StandsFor(c: Config, l: Layout, nes: seq<Entry>, k: nat) returns (e: Entry)
    requires Configured(c, l, nes) && k < |c.Objs()|
    ensures e == NodeOuts(nes)[k] && e in nes && Stands(c, l, k, e)
  {
    e := NodeOuts(nes)[k];
    OfKindAre(nes, true, e);
    OfKindAre(nes, false, e);
    assert e in OfKind(nes, true) || e in OfKind(nes, false);
    hide Uploaded, OfKind;
  }

  lemma StandsInSlice(c: Config, l: Layout, nes: seq<Entry>, k: nat, e: Entry)
    requires Sized(l.mobs, nes) && Slices(c.ends, l.mobs) && Acceptable(nes) && e in nes && Stands(c, l, k, e)
    ensures InSlice(c, c.Objs()[k], c.Objs()[k].mobIdx)
  {
    hide Sized, Acceptable;
    assert |c.ends| == |l.mobs|;
    ObjectInSlice(l, nes, c.ends, e, c.Objs()[k].mobIdx);
    assert SliceIs(c.ends, c.Objs()[k].mobIdx, l.mobs[c.Objs()[k].mobIdx]);
    hide Slices;
  }

  lemma EndsOrdered(ends: seq<Byte>, mobs: seq<Mob>)
    requires Slices(ends, mobs)
    ensures SlicesApart(ends)
    ensures forall i :: 0 <= i < |ends| ==> Begin(ends, i) <= ends[i] && ends[i] as int <= Total(mobs)
  {
    forall i, j | 0 <= i < j < |ends| ensures ends[i] <= Begin(ends, j) {
      EndsGrow(ends, mobs, i, j - 1);
    }
    forall i | 0 <= i < |ends| ensures Begin(ends, i) <= ends[i] && ends[i] as int <= Total(mobs) {
      assert SliceIs(ends, i, mobs[i]);
      EndsGrow(ends, mobs, i, |ends| - 1);
      assert SliceIs(ends, |ends| - 1, mobs[|ends| - 1]);
    }
    hide Slices;
  }

  lemma ObjectsWithin(c: Config, l: Layout, nes: seq<Entry>, o: Obj)
    requires Sized(l.mobs, nes) && Slices(c.ends, l.mobs) && Acceptable(nes) && Configured(c, l, nes) && o in c.Objs()
    ensures o.loc.Within(Total(l.mobs))
  {
    hide Sized, Acceptable, Slices;
    var k :| 0 <= k < |c.Objs()| && c.Objs()[k] == o;
    var e := StandsFor(c, l, nes, k);
    StandsInSlice(c, l, nes, k, e);
    EndsOrdered(c.ends, l.mobs);
    hide Configured, SlicesApart;
  }

  /** Once configured the node is ready to take frames. */
  lemma ConfiguredReady(c: Config, l: Layout, nes: seq<Entry>)
    requires Packs(l, nes) && Acceptable(nes) && Configured(c, l, nes)
    ensures Slices(c.ends, l.mobs) && SlicesApart(c.ends)
    ensures Ready(c, Total(l.mobs))
  {
    hide Serves, Sized, Consecutive, Acceptable, Stands, OfKind, SlicesApart, Total;
    SlicesAreMobs(l, nes, c.ends);
    EndsOrdered(c.ends, l.mobs);
    assert |c.ids| == |c.ends| && c.firstTx <= |c.ids|;
    hide Uploaded, Slices;
    forall o | o in c.Objs() ensures o.loc.Within(Total(l.mobs)) {
      ObjectsWithin(c, l, nes, o);
    }
  }

  // ---------- end to end ----------

  /** When nothing waits, the host has last sent each written item's value in its frame. */
  lemma HostHasSent(h: Host, evs: seq<Event>, es: seq<Entry>, a: nat)
    requires Built(h, es) && OutputsFit(es) && IsRun(h, evs) && a < |Outs(es)|
    requires var (h', sent, written) := Run(h, evs);
             a in written && a < |h'.items| && forall i :: 0 <= i < |h'.outputs| ==> !h'.outputs[i].needUpdate
    ensures var (h', sent, written) := Run(h, evs);
            var e, last := Outs(es)[a], LastOf(sent, Outs(es)[a].id);
            && e.IsInput() && last.Some? && last.value.dlc == HostLength(es, e.id)
            && LocOf(e).Within(last.value.dlc) && Get(last.value.data, LocOf(e)) == h'.items[a].value
  {
    BuiltFresh(h, es);
    RunShape(h, evs);
    NoUpdateLost(h, evs);
    var (h', sent, written) := Run(h, evs);
    assert ItemBuilt(h, a, Outs(es)[a]);
    assert ItemFits(h', a) && Current(h', sent, h'.items[a].idx);
    assert LengthIs(h.outputs, Outs(es)[a].id, HostLength(es, Outs(es)[a].id));
    hide Built, OutputsFit, IsRun, Run, Fresh, HostLength, Outs, Get, LastOf;
  }

  /** The node's image has an item as the latest frame of its id has it, if that frame is as
      long as the node needs and no frame of another id reaches the item. */
  lemma NodeShows(nes: seq<Entry>, l: Layout, c: Config, n: Node, frames: seq<Frame>, e: Entry, k: nat)
    requires Acceptable(nes) && Packs(l, nes) && e in nes
    requires Configured(c, l, nes) && |n.image| == Total(l.mobs) && Stands(c, l, k, e) && Ready(c, |n.image|)
    requires c.firstTx <= SVC_TX && Receivers(c) <= |c.ids| && IdsApart(c)
    requires forall f :: f in frames ==> Clear(c, k, f)
    requires var last := LastOf(frames, e.id); last.Some? && last.value.dlc >= HostLength(nes, e.id)
    ensures var n', o := ConsumeAll(c, n, frames), c.Objs()[k];
            && LocOf(e).Within(8) && o.loc.Within(|n'.image|)
            && Get(n'.image, o.loc) == Get(LastOf(frames, e.id).value.data, LocOf(e))
            && (PinsDistinct(c) ==> PinShows(n', o))
  {
    hide *;
    StandsAt(c, l, nes, k, e);
    ConfiguredReady(c, l, nes);
    StandsInSlice(c, l, nes, k, e);
    HostLengthIsSize(l, nes, c.Objs()[k].mobIdx);
    SliceAt(c, l, c.Objs()[k].mobIdx);
    AllReceive(c);
    ImageShowsLast(c, n, frames, k, LocOf(e));
    ObjWithin(c, n, frames, k);
    if PinsDistinct(c) {
      PinShowsImage(c, n, frames, k);
    }
  }

  lemma AllReceive(c: Config)
    requires c.firstTx <= SVC_TX
    ensures Receivers(c) == c.firstTx
  {
  }

  lemma ObjWithin(c: Config, n: Node, frames: seq<Frame>, k: nat)
    requires Ready(c, |n.image|) && k < |c.Objs()|
    ensures c.Objs()[k].loc.Within(|ConsumeAll(c, n, frames).image|)
  {
    assert c.Objs()[k] in c.Objs();
    hide ConsumeAll;
  }

  lemma StandsAt(c: Config, l: Layout, nes: seq<Entry>, k: nat, e: Entry)
    requires Configured(c, l, nes) && Stands(c, l, k, e) && Packs(l, nes) && e in nes
    ensures k < |c.Objs()| && e.IsInput() && Sized(l.mobs, nes)
    ensures var o := c.Objs()[k];
            && o.mobIdx < l.inputs <= |l.mobs| && c.firstTx == l.inputs && |c.ids| == |l.mobs|
            && l.mobs[o.mobIdx].id == e.id == c.ids[o.mobIdx]
            && o.loc == Shifted(LocOf(e), l.mobs[o.mobIdx].start)
  {
    hide Serves, Sized, Consecutive, Uploaded, OfKind;
  }

  lemma SliceAt(c: Config, l: Layout, i: nat)
    requires Slices(c.ends, l.mobs) && i < |l.mobs|
    ensures i < |c.ends| && Begin(c.ends, i) as int == l.mobs[i].start
    ensures c.ends[i] as int == l.mobs[i].start + l.mobs[i].size
  {
  }

  // ---------- the bus ----------

  /** A frame on the bus: from the host, or from another node. */
  datatype Carried = FromHost(f: Frame) | FromNode(f: Frame)

  function Frames(bus: seq<Carried>): (r: seq<Frame>)
    ensures |r| == |bus| && forall i :: 0 <= i < |bus| ==> r[i] == bus[i].f
  {
    if bus == [] then [] else Frames(bus[..|bus| - 1]) + [bus[|bus| - 1].f]
  }

  function HostFrames(bus: seq<Carried>): seq<Frame> {
    if bus == [] then []
    else HostFrames(bus[..|bus| - 1]) + (if bus[|bus| - 1].FromHost? then [bus[|bus| - 1].f] else [])
  }

  /** How long the node of a sensor makes the frame of its id. */
  function SensorLength(es: seq<Entry>, id: CanId): int {
    if es == [] then 0
    else
      var rest, need := SensorLength(es[1..], id), (es[0].Bits().End() + 7) / 8;
      if es[0].id == id && !es[0].IsInput() && rest < need then need else rest
  }

  /** The frame that the bus carries for an entry of the configuration. */
  function BusLength(es: seq<Entry>, e: Entry): int {
    if e.IsInput() then HostLength(es, e.id) else SensorLength(es, e.id)
  }

  /** What the host sends in order, with frames of the sensors of other nodes between. */
  ghost predicate Carries(bus: seq<Carried>, sent: seq<Frame>, es: seq<Entry>, nes: seq<Entry>) {
    && HostFrames(bus) == sent
    && forall x :: x in bus && x.FromNode? ==>
         exists e :: e in es && e !in nes && !e.IsInput() && e.id == x.f.id && x.f.dlc == SensorLength(es, e.id)
  }

  // ---------- what the host sends ----------

  ghost predicate IsObject(h: Host, f: Frame) {
    exists i :: 0 <= i < |h.outputs| && f.id == h.outputs[i].frame.id && f.dlc == h.outputs[i].frame.dlc
  }

  lemma {:induction false} WriteReadyFrames(h: Host, i: nat)
    requires i <= |h.outputs|
    ensures forall f :: f in WriteReady(h, i).1 ==> IsObject(h, f)
    decreases |h.outputs| - i
  {
    if i < |h.outputs| {
      if !h.outputs[i].needUpdate {
        WriteReadyFrames(h, i + 1);
      } else if !h.pending {
        var h1 := Offer(h, i).0;
        WriteReadyFrames(h1, i + 1);
        forall f | f in WriteReady(h1, i + 1).1 ensures IsObject(h, f) {
          assert IsObject(h1, f);
        }
      }
    }
  }

  lemma StepFrames(h: Host, e: Event)
    requires Allowed(h, e)
    ensures forall f :: f in Step(h, e).1 ==> IsObject(h, f)
  {
    if e.Received? {
      WriteReadyFrames(h.(pending := false), 0);
      assert forall f :: IsObject(h.(pending := false), f) ==> IsObject(h, f);
      hide WriteReady;
    }
  }

  /** Every frame sent is of one of the host's objects, in id and length. */
  lemma {:induction false} RunFrames(h: Host, evs: seq<Event>)
    requires IsRun(h, evs)
    ensures forall f :: f in Run(h, evs).1 ==> IsObject(h, f)
    decreases |evs|
  {
    if evs != [] {
      var h1 := Step(h, evs[0]).0;
      StepFrames(h, evs[0]);
      StepShape(h, evs[0]);
      hide Step, Allowed, Writes;
      RunFrames(h1, evs[1..]);
      assert forall f :: IsObject(h1, f) ==> IsObject(h, f);
      hide IsObject;
    }
  }

  lemma {:induction false} HostLengthNone(es: seq<Entry>, id: CanId)
    requires forall e :: e in es ==> e.id != id || !e.IsInput()
    ensures HostLength(es, id) == 0
  {
    if es != [] {
      assert es == [es[0]] + es[1..];
      HostLengthNone(es[1..], id);
    }
  }

  lemma {:induction false} HostFrameSent(bus: seq<Carried>, x: Carried)
    requires x in bus && x.FromHost?
    ensures x.f in HostFrames(bus)
    decreases |bus|
  {
    if x != bus[|bus| - 1] {
      assert bus == bus[..|bus| - 1] + [bus[|bus| - 1]];
      HostFrameSent(bus[..|bus| - 1], x);
    }
  }

  /** Frames of other nodes do not hide the host's latest frame of an id that they do not have. */
  lemma {:induction false} BusLast(bus: seq<Carried>, id: CanId)
    requires forall x :: x in bus && x.FromNode? ==> x.f.id != id
    ensures LastOf(Frames(bus), id) == LastOf(HostFrames(bus), id)
    decreases |bus|
  {
    if bus != [] {
      var m := |bus| - 1;
      BusLast(bus[..m], id);
      LastOfAppend(Frames(bus[..m]), bus[m].f, id);
      LastOfAppend(HostFrames(bus[..m]), bus[m].f, id);
      assert HostFrames(bus[..m]) + [] == HostFrames(bus[..m]);
      hide LastOf;
    }
  }

  // ---------- end to end ----------

  /** A host built for all nodes, and one of these nodes as configured. No id is of both a
      sensor and an output, and sensors fit their frames. */
  ghost predicate Linked(h: Host, es: seq<Entry>, nes: seq<Entry>, l: Layout, c: Config) {
    && Built(h, es) && OutputsFit(es) && (forall e :: e in nes ==> e in es)
    && (forall e, f :: e in es && f in es && e.IsInput() && !f.IsInput() ==> e.id != f.id)
    && (forall e :: e in es && !e.IsInput() ==> 0 <= SensorLength(es, e.id) <= 8)
    && Acceptable(nes) && Packs(l, nes) && Configured(c, l, nes)
  }

  ghost predicate Drained(h: Host) { forall i :: 0 <= i < |h.outputs| ==> !h.outputs[i].needUpdate }

  /** The frame of an entry of another id does not get as far as object k. */
  ghost predicate Spares(c: Config, es: seq<Entry>, k: nat, e: Entry) {
    && k < |c.Objs()| && c.Objs()[k].mobIdx < |c.ids| && c.Objs()[k].mobIdx < |c.ends|
    && var o := c.Objs()[k];
       var id := c.ids[o.mobIdx];
       e.id != id && Wire(e.id) == Wire(id) ==> Begin(c.ends, o.mobIdx) as int + BusLength(es, e) <= o.loc.offset
  }

  /** The filters keep the frames apart: no two received ids of the node agree in eleven bits,
      and what agrees with one of them elsewhere on the bus is too short to reach its objects. */
  ghost predicate RoutesApart(c: Config, es: seq<Entry>, nes: seq<Entry>) {
    && Receivers(c) <= |c.ids| && IdsApart(c)
    && forall k, e :: 0 <= k < |c.Objs()| && e in es && (e.IsInput() || e !in nes) ==> Spares(c, es, k, e)
  }

  /** A run in which host item a, which is the node's object k, was written, and after which
      nothing waits at the host, and what the bus then has carried. The node began with any
      image and pins. */
  ghost predicate WroteItem(h: Host, es: seq<Entry>, nes: seq<Entry>, l: Layout, c: Config,
                            n: Node, evs: seq<Event>, bus: seq<Carried>, a: nat, k: nat)
  {
    && IsRun(h, evs) && |n.image| == Total(l.mobs) && Ready(c, |n.image|)
    && a < |Outs(es)| && Outs(es)[a] in nes && Stands(c, l, k, Outs(es)[a])
    && var (h', sent, written) := Run(h, evs);
       a in written && a < |h'.items| && Drained(h') && Carries(bus, sent, es, nes)
  }

  /** Every frame the bus carries spares object k. */
  lemma BusClear(h: Host, es: seq<Entry>, nes: seq<Entry>, l: Layout, c: Config, evs: seq<Event>, bus: seq<Carried>,
    k: nat)
    requires Built(h, es) && IsRun(h, evs) && Carries(bus, Run(h, evs).1, es, nes) && RoutesApart(c, es, nes)
    requires k < |c.Objs()| && c.Objs()[k].mobIdx < |c.ids| && c.Objs()[k].mobIdx < |c.ends|
    requires InSlice(c, c.Objs()[k], c.Objs()[k].mobIdx)
    ensures forall f :: f in Frames(bus) ==> Clear(c, k, f)
  {
    RunFrames(h, evs);
    hide IsRun, Run, IdsApart;
    forall f | f in Frames(bus) ensures Clear(c, k, f) {
      var i :| 0 <= i < |bus| && bus[i].f == f;
      if bus[i].FromNode? {
        SensorClear(es, nes, c, bus, bus[i], k);
      } else {
        HostFrameSent(bus, bus[i]);
        HostClear(h, es, nes, c, f, k);
      }
    }
  }

  lemma SensorClear(es: seq<Entry>, nes: seq<Entry>, c: Config, bus: seq<Carried>, x: Carried, k: nat)
    requires Carries(bus, HostFrames(bus), es, nes) && RoutesApart(c, es, nes) && x in bus && x.FromNode?
    requires k < |c.Objs()|
    ensures Clear(c, k, x.f)
  {
    var e :| e in es && e !in nes && !e.IsInput() && e.id == x.f.id && x.f.dlc == SensorLength(es, e.id);
    assert Spares(c, es, k, e);
    hide IdsApart, SensorLength, HostFrames;
  }

  lemma HostClear(h: Host, es: seq<Entry>, nes: seq<Entry>, c: Config, f: Frame, k: nat)
    requires Built(h, es) && IsObject(h, f) && RoutesApart(c, es, nes)
    requires k < |c.Objs()| && c.Objs()[k].mobIdx < |c.ids| && c.Objs()[k].mobIdx < |c.ends|
    requires InSlice(c, c.Objs()[k], c.Objs()[k].mobIdx)
    ensures Clear(c, k, f)
  {
    assert LengthIs(h.outputs, f.id, HostLength(es, f.id));
    assert f.dlc == HostLength(es, f.id);
    hide Built, IsObject, LengthIs, IdsApart;
    if e :| e in es && e.id == f.id && e.IsInput() {
      assert Spares(c, es, k, e);
    } else {
      HostLengthNone(es, f.id);
    }
    hide HostLength;
  }

  /** End to end, on a lossless bus that keeps the order of the host's frames: whatever was
      written to the items, however echoes came and whatever other nodes sent, once nothing
      waits at the host and the node has taken all frames, every item of the node that was ever
      written has its last value in the node's image, if the upload completes and the filters
      keep the frames apart; and on its pin, if no two objects share one. */
  lemma EndToEnd(h: Host, es: seq<Entry>, nes: seq<Entry>, l: Layout, c: Config, n: Node, evs: seq<Event>,
                 bus: seq<Carried>, a: nat, k: nat)
    requires Linked(h, es, nes, l, c) && Uploads(l, nes) && RoutesApart(c, es, nes)
    requires WroteItem(h, es, nes, l, c, n, evs, bus, a, k)
    ensures var n', o, v := ConsumeAll(c, n, Frames(bus)), c.Objs()[k], Run(h, evs).0.items[a].value;
            && o.loc.Within(|n'.image|) && Get(n'.image, o.loc) == v
            && (PinsDistinct(c) ==> o.pin in n'.pins && n'.pins[o.pin] == v)
  {
    hide *;
    LinkedParts(h, es, nes, l, c);
    WroteParts(h, es, nes, l, c, n, evs, bus, a, k);
    var e, sent := Outs(es)[a], Run(h, evs).1;
    HostHasSent(h, evs, es, a);
    HostLengthGrows(nes, es, e.id);
    SensorsElse(h, es, nes, l, c, bus, sent, e);
    BusLast(bus, e.id);
    StandsAt(c, l, nes, k, e);
    ConfiguredReady(c, l, nes);
    StandsInSlice(c, l, nes, k, e);
    ReceiversAll(l, nes, c);
    RoutedIds(c, es, nes);
    SlicesCount(c.ends, l.mobs);
    BusClear(h, es, nes, l, c, evs, bus, k);
    NodeShows(nes, l, c, n, Frames(bus), e, k);
    ShowsValue(c, ConsumeAll(c, n, Frames(bus)), c.Objs()[k]);
  }

  lemma RoutedIds(c: Config, es: seq<Entry>, nes: seq<Entry>)
    requires RoutesApart(c, es, nes)
    ensures Receivers(c) <= |c.ids| && IdsApart(c)
  {
    hide Spares;
  }

  lemma ShowsValue(c: Config, n: Node, o: Obj)
    requires o.loc.Within(|n.image|)
    ensures PinShows(n, o) ==> o.pin in n.pins && n.pins[o.pin] == Get(n.image, o.loc)
  {
    hide Get;
  }

  lemma LinkedParts(h: Host, es: seq<Entry>, nes: seq<Entry>, l: Layout, c: Config)
    requires Linked(h, es, nes, l, c)
    ensures Built(h, es) && OutputsFit(es) && Acceptable(nes) && Packs(l, nes) && Configured(c, l, nes)
    ensures Sized(l.mobs, nes) && (forall e :: e in nes ==> e in es)
    ensures |NodeOuts(nes)| == |c.Objs()| && c.firstTx == l.inputs <= |l.mobs| == |c.ids|
  {
    hide Built, OutputsFit, Acceptable, OfKind, Uploaded, Stands, Serves, Sized, Consecutive, SensorLength;
  }

  lemma WroteParts(h: Host, es: seq<Entry>, nes: seq<Entry>, l: Layout, c: Config, n: Node, evs: seq<Event>,
                   bus: seq<Carried>, a: nat, k: nat)
    requires WroteItem(h, es, nes, l, c, n, evs, bus, a, k)
    ensures IsRun(h, evs) && |n.image| == Total(l.mobs) && Ready(c, |n.image|)
    ensures a < |Outs(es)| && Outs(es)[a] in nes && Stands(c, l, k, Outs(es)[a])
    ensures var (h', sent, written) := Run(h, evs);
            && a in written && a < |h'.items| && Drained(h') && Carries(bus, sent, es, nes) && HostFrames(bus) == sent
            && forall i :: 0 <= i < |h'.outputs| ==> !h'.outputs[i].needUpdate
  {
    hide IsRun, Run, Ready, Outs, Stands, Total, HostFrames, SensorLength;
  }

  lemma SensorsElse(h: Host, es: seq<Entry>, nes: seq<Entry>, l: Layout, c: Config, bus: seq<Carried>,
    sent: seq<Frame>, e: Entry)
    requires Linked(h, es, nes, l, c) && Carries(bus, sent, es, nes) && e in nes && e.IsInput()
    ensures forall x :: x in bus && x.FromNode? ==> x.f.id != e.id
  {
    hide Built, OutputsFit, Acceptable, Packs, Configured, HostFrames, SensorLength;
  }

  lemma ReceiversAll(l: Layout, nes: seq<Entry>, c: Config)
    requires Uploads(l, nes) && c.firstTx == l.inputs <= |l.mobs|
    ensures c.firstTx <= SVC_TX && Receivers(c) == c.firstTx
  {
    hide CountsFit;
  }

  // ---------- one switch of one node ----------

  const LAMP := DigOut(0x116, 0, 1)
  const LAMP_PIN := Digital(4 * 8 + 1)

  function EmptyData(): Data { [ZERO, ZERO, ZERO, ZERO, ZERO, ZERO, ZERO, ZERO] }

  function LampHost(): Host {
    Host([OutputMsg(false, Frame(0x116, 1, EmptyData()))], [Item(0, Bit(0, 1), [false])], false,
      Frame(0, 0, EmptyData()))
  }

  function LampConfig(): Config { Config([0x116], [1], 1, [Obj(0, Bit(0, 1), LAMP_PIN)], []) }

  lemma LampFits()
    ensures Acceptable([LAMP]) && LeastBytes(ItemsOf([LAMP], 0x116), 1)
    ensures Outs([LAMP]) == [LAMP] && forall id :: HostLength([LAMP], id) == if id == 0x116 then 1 else 0
  {
    assert [LAMP][1..] == [];
    assert ItemsOf([LAMP], 0x116) == [Span(1, 1)];
    assert Span(1, 1) in ItemsOf([LAMP], 0x116);
  }

  const LAMP_LAYOUT := Layout([Mob(0x116, 0, 1)], 1)

  lemma LampPacks()
    ensures Packs(LAMP_LAYOUT, [LAMP])
  {
    LampFits();
    assert LAMP in [LAMP] && HasId([LAMP], 0x116, true) && LAMP_LAYOUT.mobs[0].id == LAMP.id;
    hide Acceptable, ItemsOf, LeastBytes, HostLength, Outs, HasId;
  }

  lemma LampConfigured()
    ensures Stands(LampConfig(), LAMP_LAYOUT, 0, LAMP) && Configured(LampConfig(), LAMP_LAYOUT, [LAMP])
  {
    assert [LAMP][1..] == [];
    assert OfKind([LAMP][1..], true) == [] && OfKind([LAMP][1..], false) == [];
    assert OfKind([LAMP], true) == [LAMP] && OfKind([LAMP], false) == [];
    hide OfKind;
    assert Stands(LampConfig(), LAMP_LAYOUT, 0, LAMP);
    hide Stands;
  }

  lemma LampRoutes()
    ensures Uploads(LAMP_LAYOUT, [LAMP]) && RoutesApart(LampConfig(), [LAMP], [LAMP])
  {
    LampCounts();
    hide HostLength, CountsFit;
  }

  lemma LampCounts()
    ensures CountsFit(LAMP_LAYOUT, [LAMP])
  {
    assert [LAMP][1..] == [] && LAMP_LAYOUT.mobs[1..] == [];
    forall kind ensures Count([LAMP], kind) <= 1 {
      assert Count([LAMP][1..], kind) == 0;
    }
    assert SumSizes(LAMP_LAYOUT.mobs[1..]) == 0;
    hide Count;
  }

  lemma LampLinked()
    ensures Linked(LampHost(), [LAMP], [LAMP], LAMP_LAYOUT, LampConfig())
  {
    LampFits();
    LampPacks();
    LampConfigured();
    var h := LampHost();
    hide Outs, HostLength, Acceptable, Packs, Configured;
    forall id ensures LengthIs(h.outputs, id, HostLength([LAMP], id)) {
      assert h.outputs[0].frame.id == 0x116;
    }
    hide LengthIs;
  }

  /** A node with one lamp on its second pin of port E: once it is switched on at the host,
      the frame sent at once makes the pin high. */
  lemma LampLights()
    ensures var (h, sent, written) := Run(LampHost(), [Assign(0, [true])]);
            var n := ConsumeAll(LampConfig(), Node([ZERO], map[]), sent);
            LAMP_PIN in n.pins && n.pins[LAMP_PIN] == [true]
  {
    hide *;
    var h, evs, l, c, n := LampHost(), [Assign(0, [true])], LAMP_LAYOUT, LampConfig(), Node([ZERO], map[]);
    LampLinked();
    LampRoutes();
    var bus := LampRun(n);
    EndToEnd(h, [LAMP], [LAMP], l, c, n, evs, bus, 0, 0);
    LampItem();
  }

  lemma LampItem()
    ensures LampConfig().Objs() == [Obj(0, Bit(0, 1), LAMP_PIN)]
    ensures IsRun(LampHost(), [Assign(0, [true])])
            && var items := Run(LampHost(), [Assign(0, [true])]).0.items; |items| == 1 && items[0].value == [true]
    ensures PinsDistinct(LampConfig())
  {
    assert [Assign(0, [true])][1..] == [];
    hide Put;
  }

  lemma LampRun(n: Node) returns (bus: seq<Carried>)
    requires n == Node([ZERO], map[])
    ensures var h, evs := LampHost(), [Assign(0, [true])];
            && WroteItem(h, [LAMP], [LAMP], LAMP_LAYOUT, LampConfig(), n, evs, bus, 0, 0)
            && Frames(bus) == Run(h, evs).1
  {
    var h, evs := LampHost(), [Assign(0, [true])];
    assert evs[1..] == [];
    LampFits();
    LampConfigured();
    hide Acceptable, LeastBytes, ItemsOf, Outs, HostLength, Configured, Stands, Put;
    var sent := Run(h, evs).1;
    assert |sent| == 1;
    bus := [FromHost(sent[0])];
    assert bus[..0] == [] && sent == [sent[0]];
    assert Frames(bus) == sent && HostFrames(bus) == [] + [sent[0]] == sent;
    assert Carries(bus, sent, [LAMP], [LAMP]);
    hide Carries, Frames, HostFrames;
  }
}
