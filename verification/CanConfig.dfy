/** The configuration of all nodes: each one is checked and no CAN id may be used by two. The
    host then knows the outputs of all of them.
  */
module CanConfig {
  import opened Wrappers
  import opened CanLayout
  import opened CanHost
  import opened CanBuilder
  import opened CanNode
  import opened CanImage

  function AllEntries(nodes: seq<seq<Entry>>): seq<Entry> {
    if nodes == [] then [] else nodes[0] + AllEntries(nodes[1..])
  }

  ghost predicate UsesId(es: seq<Entry>, id: CanId) { exists e :: e in es && e.id == id }

  ghost predicate Unshared(a: seq<Entry>, b: seq<Entry>) { forall id :: !(UsesId(a, id) && UsesId(b, id)) }

  /** What the tool asks of the whole configuration. */
  ghost predicate Whole(nodes: seq<seq<Entry>>) {
    && (forall i :: 0 <= i < |nodes| ==> Acceptable(nodes[i]))
    && (forall i, j :: 0 <= i < j < |nodes| ==> Unshared(nodes[i], nodes[j]))
  }

  function MobIds(mobs: seq<Mob>): set<CanId> { set i | 0 <= i < |mobs| :: mobs[i].id }

  lemma MobIdUsed(l: Layout, es: seq<Entry>, i: nat)
    requires Packs(l, es) && i < |l.mobs|
    ensures UsesId(es, l.mobs[i].id)
  {
    hide Consecutive, Sized;
    assert HasId(es, l.mobs[i].id, i < l.inputs);
  }

  lemma UsedHasMob(l: Layout, es: seq<Entry>, id: CanId)
    requires Packs(l, es) && UsesId(es, id)
    ensures exists i :: 0 <= i < |l.mobs| && l.mobs[i].id == id
  {
    hide Consecutive, Sized, HasId;
    var e :| e in es && e.id == id;
    var i :| 0 <= i < |l.mobs| && l.mobs[i].id == e.id;
  }

  lemma MobIdsAre(l: Layout, es: seq<Entry>)
    requires Packs(l, es)
    ensures forall id :: id in MobIds(l.mobs) <==> UsesId(es, id)
  {
    hide UsesId, Packs;
    forall id ensures id in MobIds(l.mobs) <==> UsesId(es, id) {
      if id in MobIds(l.mobs) {
        var i :| 0 <= i < |l.mobs| && l.mobs[i].id == id;
        MobIdUsed(l, es, i);
      }
      if UsesId(es, id) {
        UsedHasMob(l, es, id);
      }
    }
  }

  /** One node's part of the configuration: its objects, and the pins of its digital ones. */
  datatype NodeConf = NodeConf(entries: seq<Entry>, pins: seq<string>)

  function EntriesOf(confs: seq<NodeConf>): (r: seq<seq<Entry>>)
    ensures |r| == |confs| && forall i :: 0 <= i < |confs| ==> r[i] == confs[i].entries
  {
    seq(|confs|, i requires 0 <= i < |confs| => confs[i].entries)
  }

  /** The node has a sensor of a kind that uses a pin. */
  predicate Claims(es: seq<Entry>, pin: string) {
    || (Count(es, Scd41s) > 0 && pin in ["PD0", "PD1", "PG4"])
    || (Count(es, Sht11s) > 0 && pin in ["PC3", "PC5"])
    || (Count(es, OwTs) > 0 && pin == "PA0")
  }

  predicate PinsFree(conf: NodeConf) { forall pin :: pin in conf.pins ==> !Claims(conf.entries, pin) }

  /** Which pins those are. */
  lemma ClaimsAre(es: seq<Entry>, pin: string)
    ensures Claims(es, pin) <==>
            || ((exists e :: e in es && e.Scd41?) && pin in ["PD0", "PD1", "PG4"])
            || ((exists e :: e in es && e.Sht11?) && pin in ["PC3", "PC5"])
            || ((exists e :: e in es && e.OwT?) && pin == "PA0")
  {
    CountsAre(es);
    hide Count;
  }

  /** No digital object is on a pin of one of the node's sensors. Pins are compared as they are
      written. */
  method Check(conf: NodeConf) returns (ok: bool)
    ensures ok <==> PinsFree(conf)
  {
    var usedPins: seq<string> := [];
    if Count(conf.entries, Scd41s) > 0 {
      usedPins := usedPins + ["PD0", "PD1", "PG4"];
    }
    if Count(conf.entries, Sht11s) > 0 {
      usedPins := usedPins + ["PC3", "PC5"];
    }
    if Count(conf.entries, OwTs) > 0 {
      usedPins := usedPins + ["PA0"];
    }
    assert forall pin :: pin in usedPins <==> Claims(conf.entries, pin);
    for k := 0 to |conf.pins|
      invariant forall i :: 0 <= i < k ==> !Claims(conf.entries, conf.pins[i])
    {
      if conf.pins[k] in usedPins {
        return false;
      }
    }
    return true;
  }

  /** A configuration is accepted exactly when each node is, no node has a digital object on a
      sensor's pin, and no node shares a CAN id with another. */
  method ConfigureAll(confs: seq<NodeConf>) returns (r: Result<seq<Layout>>)
    ensures r.Ok? <==> Whole(EntriesOf(confs)) && forall i :: 0 <= i < |confs| ==> PinsFree(confs[i])
    ensures r.Ok? ==> |r.value| == |confs| && forall i :: 0 <= i < |confs| ==> Packs(r.value[i], confs[i].entries)
  {
    hide Acceptable, Packs, UsesId, PinsFree, Count;
    var layouts: seq<Layout>, allMobsIds: set<CanId> := [], {};
    ghost var nodes := EntriesOf(confs);
    for k := 0 to |confs|
      invariant |layouts| == k && Whole(nodes[..k])
      invariant forall i :: 0 <= i < k ==> Packs(layouts[i], nodes[i]) && PinsFree(confs[i])
      invariant forall id :: id in allMobsIds <==> exists i :: 0 <= i < k && UsesId(nodes[i], id)
    {
      assert nodes[..k + 1] == nodes[..k] + [nodes[k]];
      var conf := ConfigNode(confs[k].entries);
      if conf.Error? {
        return Error;
      }
      var free := Check(confs[k]);
      if !free {
        return Error;
      }
      MobIdsAre(conf.value, nodes[k]);
      var ids := MobIds(conf.value.mobs);
      if allMobsIds !! ids {
        forall i | 0 <= i < k ensures Unshared(nodes[i], nodes[k]) {
          forall id ensures !(UsesId(nodes[i], id) && UsesId(nodes[k], id)) {
            assert (UsesId(nodes[i], id) ==> id in allMobsIds) && (UsesId(nodes[k], id) ==> id in ids);
          }
        }
      } else {
        ghost var id :| id in allMobsIds && id in ids;
        ghost var i :| 0 <= i < k && UsesId(nodes[i], id);
        assert !Unshared(nodes[i], nodes[k]);
        return Error;
      }
      layouts := layouts + [conf.value];
      allMobsIds := allMobsIds + ids;
    }
    assert nodes[..|nodes|] == nodes;
    return Ok(layouts);
  }

  // ---------- the outputs of all nodes together ----------

  lemma OutItemsCons(e: Entry, es: seq<Entry>, id: CanId)
    ensures ItemsOf(Outs([e] + es), id)
            == (if e.IsInput() && e.id == id then [e.Bits()] else []) + ItemsOf(Outs(es), id)
  {
    assert ([e] + es)[1..] == es;
    if e.IsInput() {
      assert Outs([e] + es) == [e] + Outs(es);
      assert ([e] + Outs(es))[1..] == Outs(es);
    } else {
      assert Outs([e] + es) == [] + Outs(es) == Outs(es);
    }
    hide Outs;
  }

  lemma {:induction false} OutItemsAppend(a: seq<Entry>, b: seq<Entry>, id: CanId)
    ensures ItemsOf(Outs(a + b), id) == ItemsOf(Outs(a), id) + ItemsOf(Outs(b), id)
  {
    if a == [] {
      assert a + b == b;
      assert [] + ItemsOf(Outs(b), id) == ItemsOf(Outs(b), id);
    } else {
      hide *;
      var e, rest := a[0], a[1..];
      assert a == [e] + rest;
      OutItemsAppend(rest, b, id);
      OutItemsCons(e, rest, id);
      OutItemsCons(e, rest + b, id);
      Assoc([e], rest, b);
      Assoc(if e.IsInput() && e.id == id then [e.Bits()] else [], ItemsOf(Outs(rest), id), ItemsOf(Outs(b), id));
    }
  }

  /** If all entries of an id are outputs of the host, or none has the id. */
  lemma {:induction false} OutItemsSame(es: seq<Entry>, id: CanId)
    ensures (forall e :: e in es && e.id == id ==> e.IsInput()) ==> ItemsOf(Outs(es), id) == ItemsOf(es, id)
    ensures !UsesId(es, id) ==> ItemsOf(Outs(es), id) == []
  {
    if es != [] {
      OutItemsSame(es[1..], id);
      OutItemsCons(es[0], es[1..], id);
      assert es == [es[0]] + es[1..];
      hide Outs;
    }
  }

  lemma WholeTail(nodes: seq<seq<Entry>>)
    requires Whole(nodes) && nodes != []
    ensures Whole(nodes[1..]) && AllEntries(nodes) == nodes[0] + AllEntries(nodes[1..])
  {
    hide Acceptable, Unshared;
  }

  lemma OthersLack(nodes: seq<seq<Entry>>, i: nat, id: CanId)
    requires Whole(nodes) && i < |nodes| && UsesId(nodes[i], id)
    ensures forall j :: 0 <= j < |nodes| && j != i ==> !UsesId(nodes[j], id)
  {
    forall j | 0 <= j < |nodes| && j != i ensures !UsesId(nodes[j], id) {
      assert if i < j then Unshared(nodes[i], nodes[j]) else Unshared(nodes[j], nodes[i]);
    }
    hide Acceptable, UsesId;
  }

  /** Only the node that uses an id contributes to it. */
  lemma {:induction false} OutItemsOfOne(nodes: seq<seq<Entry>>, i: nat, id: CanId)
    requires Whole(nodes) && i < |nodes| && UsesId(nodes[i], id)
    ensures ItemsOf(Outs(AllEntries(nodes)), id) == ItemsOf(Outs(nodes[i]), id)
    decreases |nodes|
  {
    hide *;
    var rest := nodes[1..];
    WholeTail(nodes);
    OthersLack(nodes, i, id);
    OutItemsAppend(nodes[0], AllEntries(rest), id);
    if i == 0 {
      NoneElsewhere(rest, id);
    } else {
      OutItemsSame(nodes[0], id);
      OutItemsOfOne(rest, i - 1, id);
    }
  }

  lemma {:induction false} NoneElsewhere(nodes: seq<seq<Entry>>, id: CanId)
    requires forall i :: 0 <= i < |nodes| ==> !UsesId(nodes[i], id)
    ensures ItemsOf(Outs(AllEntries(nodes)), id) == []
  {
    if nodes != [] {
      hide UsesId, ItemsOf, Outs;
      NoneElsewhere(nodes[1..], id);
      OutItemsSame(nodes[0], id);
      OutItemsAppend(nodes[0], AllEntries(nodes[1..]), id);
    }
  }

  lemma {:induction false} InAll(nodes: seq<seq<Entry>>, e: Entry)
    ensures e in AllEntries(nodes) <==> exists i :: 0 <= i < |nodes| && e in nodes[i]
  {
    if nodes != [] {
      InAll(nodes[1..], e);
      if e in AllEntries(nodes[1..]) {
        var i :| 0 <= i < |nodes[1..]| && e in nodes[1..][i];
        assert e in nodes[i + 1];
      }
      if i :| 0 < i < |nodes| && e in nodes[i] {
        assert e in nodes[1..][i - 1];
      }
    }
  }

  /** The host's frames hold the outputs of all nodes of an accepted configuration. */
  lemma AcceptedOutputsFit(nodes: seq<seq<Entry>>)
    requires Whole(nodes)
    ensures OutputsFit(AllEntries(nodes))
  {
    var all := AllEntries(nodes);
    forall e | e in Outs(all) ensures Fits(ItemsOf(Outs(all), e.id)) {
      OutsAre(all, e);
      InAll(nodes, e);
      var i :| 0 <= i < |nodes| && e in nodes[i];
      assert UsesId(nodes[i], e.id);
      OutItemsOfOne(nodes, i, e.id);
      OutItemsSame(nodes[i], e.id);
      AcceptedUnmixed(nodes[i], e);
    }
    hide Fits, ItemsOf, Outs, AllEntries, Whole;
  }

  lemma AcceptedUnmixed(es: seq<Entry>, e: Entry)
    requires Acceptable(es) && e in es && e.IsInput()
    ensures Fits(ItemsOf(es, e.id)) && forall f :: f in es && f.id == e.id ==> f.IsInput()
  {
    hide Fits, ItemsOf;
  }

  lemma {:induction false} SensorLengthBound(es: seq<Entry>, id: CanId, m: nat)
    requires forall e :: e in es && e.id == id ==> (e.Bits().End() + 7) / 8 <= m
    ensures 0 <= SensorLength(es, id) <= m
  {
    if es != [] {
      assert es == [es[0]] + es[1..];
      SensorLengthBound(es[1..], id, m);
    }
  }

  /** The only node that uses an id. */
  lemma OnlyNode(nodes: seq<seq<Entry>>, e: Entry) returns (i: nat)
    requires Whole(nodes) && e in AllEntries(nodes)
    ensures i < |nodes| && e in nodes[i] && Acceptable(nodes[i])
    ensures forall f :: f in AllEntries(nodes) && f.id == e.id ==> f in nodes[i]
  {
    InAll(nodes, e);
    i :| 0 <= i < |nodes| && e in nodes[i];
    assert UsesId(nodes[i], e.id);
    OthersLack(nodes, i, e.id);
    forall f | f in AllEntries(nodes) && f.id == e.id ensures f in nodes[i] {
      InAll(nodes, f);
      var j :| 0 <= j < |nodes| && f in nodes[j];
      assert UsesId(nodes[j], e.id);
    }
    hide Acceptable, AllEntries, Unshared;
  }

  /** Sensors and outputs have different ids, and a sensor's frame has at most eight bytes. */
  lemma AcceptedSensors(nodes: seq<seq<Entry>>, e: Entry)
    requires Whole(nodes) && e in AllEntries(nodes) && !e.IsInput()
    ensures 0 <= SensorLength(AllEntries(nodes), e.id) <= 8
    ensures forall f :: f in AllEntries(nodes) && f.IsInput() ==> f.id != e.id
  {
    var i := OnlyNode(nodes, e);
    forall f | f in AllEntries(nodes) && f.id == e.id ensures (f.Bits().End() + 7) / 8 <= 8 && !f.IsInput() {
      AcceptedEnd(nodes[i], e, f);
    }
    hide Whole, AllEntries, Acceptable;
    SensorLengthBound(AllEntries(nodes), e.id, 8);
  }

  lemma AcceptedEnd(es: seq<Entry>, e: Entry, f: Entry)
    requires Acceptable(es) && e in es && f in es && e.id == f.id
    ensures f.Bits().End() <= FRAME_BITS && f.IsInput() == e.IsInput()
  {
    ItemsOfAre(es, f.id, f.Bits());
    hide ItemsOf;
  }

  /** A host built for an accepted configuration and any of its nodes, as uploaded, are all
      that the end-to-end results ask for. */
  lemma AcceptedLinks(h: Host, nodes: seq<seq<Entry>>, i: nat, l: Layout, c: Config)
    requires Whole(nodes) && Built(h, AllEntries(nodes))
    requires i < |nodes| && Packs(l, nodes[i]) && Configured(c, l, nodes[i])
    ensures Linked(h, AllEntries(nodes), nodes[i], l, c)
  {
    hide *;
    var all := AllEntries(nodes);
    AcceptedOutputsFit(nodes);
    AcceptedNode(nodes, i);
    forall e, f | e in all && f in all && e.IsInput() && !f.IsInput() ensures e.id != f.id {
      AcceptedSensors(nodes, f);
    }
    forall e | e in all && !e.IsInput() ensures 0 <= SensorLength(all, e.id) <= 8 {
      AcceptedSensors(nodes, e);
    }
    LinkedFrom(h, all, nodes[i], l, c);
  }

  lemma AcceptedNode(nodes: seq<seq<Entry>>, i: nat)
    requires Whole(nodes) && i < |nodes|
    ensures Acceptable(nodes[i]) && forall e :: e in nodes[i] ==> e in AllEntries(nodes)
  {
    forall e | e in nodes[i] ensures e in AllEntries(nodes) {
      InAll(nodes, e);
    }
    hide Acceptable, AllEntries, Unshared;
  }

  lemma LinkedFrom(h: Host, es: seq<Entry>, nes: seq<Entry>, l: Layout, c: Config)
    requires Built(h, es) && OutputsFit(es) && forall e :: e in nes ==> e in es
    requires forall e, f :: e in es && f in es && e.IsInput() && !f.IsInput() ==> e.id != f.id
    requires forall e :: e in es && !e.IsInput() ==> 0 <= SensorLength(es, e.id) <= 8
    requires Acceptable(nes) && Packs(l, nes) && Configured(c, l, nes)
    ensures Linked(h, es, nes, l, c)
  {
    hide Built, OutputsFit, Packs, Configured, Acceptable, SensorLength;
  }
}
