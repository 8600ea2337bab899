/** The host's CAN outputs as the configuration of all nodes asks for them. */
module CanBuilder {
  import opened Wrappers
  import opened CanLayout
  import opened CanHost

  /** The objects the host writes, in order. */
  function Outs(es: seq<Entry>): seq<Entry> {
    if es == [] then [] else (if es[0].IsInput() then [es[0]] else []) + Outs(es[1..])
  }

  function LocOf(e: Entry): Loc
    requires e.IsInput()
  {
    if e.DigOut? then Bit(e.byte, e.bit) else Word(e.byte)
  }

  function Need(e: Entry): int { e.FirstByte() + (if e.Pwm16? then 2 else 1) }

  function Max(a: int, b: int): int { if a < b then b else a }

  lemma {:induction false} HostLengthSnoc(es: seq<Entry>, e: Entry, id: CanId)
    ensures HostLength(es + [e], id) ==
            if e.id == id && e.IsInput() then Max(HostLength(es, id), Max(0, Need(e))) else HostLength(es, id)
    ensures HostLength(es, id) >= 0
  {
    if es == [] {
      assert HostLength([e][1..], id) == 0;
    } else {
      HostLengthSnoc(es[1..], e, id);
      assert (es + [e])[1..] == es[1..] + [e];
    }
  }

  lemma {:induction false} OutsSnoc(es: seq<Entry>, e: Entry)
    ensures Outs(es + [e]) == Outs(es) + (if e.IsInput() then [e] else [])
  {
    if es == [] {
      assert Outs([e][1..]) == [];
    } else {
      OutsSnoc(es[1..], e);
      assert (es + [e])[1..] == es[1..] + [e];
    }
  }

  /** The length of the frame of an id, 0 when there is none. */
  ghost predicate LengthIs(outputs: seq<OutputMsg>, id: CanId, n: int) {
    && (forall i :: 0 <= i < |outputs| && outputs[i].frame.id == id ==> outputs[i].frame.dlc == n)
    && ((forall i :: 0 <= i < |outputs| ==> outputs[i].frame.id != id) ==> n == 0)
  }

  /** Finds the object of an id or adds one; it is then long enough. Bytes never written
      of a new frame may hold anything beyond its first length. */
  method AddCanObj(outputs: seq<OutputMsg>, addr: CanId, maxsize: int, junk: Data)
    returns (r: Result<(seq<OutputMsg>, nat)>)
    requires Distinct(outputs) && maxsize > 0
    ensures r.Ok? <==> maxsize <= 8
    ensures r.Ok? ==>
              var (o, idx) := r.value;
              && Distinct(o) && |outputs| <= |o| && idx < |o| && o[idx].frame.id == addr
              && (forall i :: 0 <= i < |outputs| ==>
                    o[i].frame.id == outputs[i].frame.id && o[i].needUpdate == outputs[i].needUpdate)
              && (forall i :: |outputs| <= i < |o| ==> i == idx && !o[i].needUpdate)
              && (forall id, n :: LengthIs(outputs, id, n) ==>
                    LengthIs(o, id, if id == addr then Max(n, maxsize) else n))
  {
    var i := 0;
    while i < |outputs| && outputs[i].frame.id != addr
      invariant 0 <= i <= |outputs|
      invariant forall j :: 0 <= j < i ==> outputs[j].frame.id != addr
    {
      i := i + 1;
    }
    if i == |outputs| {
      if maxsize > 8 {
        return Error;
      }
      var zeros := [ZERO, ZERO, ZERO, ZERO, ZERO, ZERO, ZERO, ZERO];
      var o := outputs + [OutputMsg(false, Frame(addr, maxsize, zeros[..maxsize] + junk[maxsize..]))];
      return Ok((o, i));
    }
    var f := outputs[i].frame;
    if f.dlc >= maxsize {
      return Ok((outputs, i));
    }
    if maxsize > 8 {
      return Error;
    }
    return Ok((outputs[i := outputs[i].(frame := f.(dlc := maxsize))], i));
  }

  /** The outputs as the configuration asks for them. */
  ghost predicate Built(h: Host, es: seq<Entry>) {
    && Distinct(h.outputs) && !h.pending
    && (forall i :: 0 <= i < |h.outputs| ==> !h.outputs[i].needUpdate)
    && |h.items| == |Outs(es)|
    && (forall k :: 0 <= k < |h.items| ==> ItemBuilt(h, k, Outs(es)[k]))
    && (forall id :: LengthIs(h.outputs, id, HostLength(es, id)))
  }

  ghost predicate ItemBuilt(h: Host, k: nat, e: Entry)
    requires k < |h.items|
  {
    var x := h.items[k];
    e.IsInput() && 0 <= e.byte && x.loc == LocOf(e) && Suits(x.value, x.loc)
    && x.idx < |h.outputs| && h.outputs[x.idx].frame.id == e.id && Off(x.value)
  }

  /** Every item begins switched off. */
  ghost predicate Off(v: Value) { forall b :: 0 <= b < |v| ==> !v[b] }

  lemma {:induction false} OutsAre(es: seq<Entry>, e: Entry)
    ensures e in Outs(es) <==> e in es && e.IsInput()
  {
    if es != [] {
      OutsAre(es[1..], e);
      assert es == [es[0]] + es[1..];
    }
  }

  lemma EmptyBuilt(h: Host)
    requires h.outputs == [] && h.items == [] && !h.pending
    ensures Built(h, [])
  {
  }

  /** One more object of the configuration. */
  lemma BuildStep(h: Host, h': Host, es: seq<Entry>, e: Entry, idx: nat)
    requires Built(h, es) && e.IsInput() && 0 <= e.byte && Distinct(h'.outputs) && !h'.pending
    requires |h.outputs| <= |h'.outputs| && idx < |h'.outputs| && h'.outputs[idx].frame.id == e.id
    requires forall i :: 0 <= i < |h'.outputs| ==> !h'.outputs[i].needUpdate
    requires forall i :: 0 <= i < |h.outputs| ==> h'.outputs[i].frame.id == h.outputs[i].frame.id
    requires forall id, n :: LengthIs(h.outputs, id, n) ==>
               LengthIs(h'.outputs, id, if id == e.id then Max(n, Need(e)) else n)
    requires exists v :: Suits(v, LocOf(e)) && Off(v) && h'.items == h.items + [Item(idx, LocOf(e), v)]
    ensures Built(h', es + [e])
  {
    forall id ensures LengthIs(h'.outputs, id, HostLength(es + [e], id)) {
      HostLengthSnoc(es, e, id);
      assert LengthIs(h.outputs, id, HostLength(es, id));
    }
    OutsSnoc(es, e);
    hide LengthIs, HostLength;
    forall k | 0 <= k < |h'.items| ensures ItemBuilt(h', k, Outs(es + [e])[k]) {
      if k < |h.items| {
        assert ItemBuilt(h, k, Outs(es)[k]);
      }
    }
  }

  method BuildCan(es: seq<Entry>, junk: Data, frameWr: Frame) returns (r: Result<Host>)
    ensures r.Ok? <==> forall e :: e in es && e.IsInput() ==> 0 <= e.FirstByte() && Need(e) <= 8
    ensures r.Ok? ==> Built(r.value, es)
  {
    hide Outs, LengthIs, HostLength, Built;
    var outputs: seq<OutputMsg>, items: seq<Item> := [], [];
    EmptyBuilt(Host(outputs, items, false, frameWr));
    for k := 0 to |es|
      invariant Built(Host(outputs, items, false, frameWr), es[..k])
      invariant forall e :: e in es[..k] && e.IsInput() ==> 0 <= e.FirstByte() && Need(e) <= 8
    {
      var e := es[k];
      assert es[..k + 1] == es[..k] + [e] && e in es;
      ghost var h := Host(outputs, items, false, frameWr);
      if e.IsInput() {
        if e.FirstByte() < 0 {
          return Error;
        }
        BuiltOutputs(h, es[..k]);
        var a := AddCanObj(outputs, e.id, Need(e), junk);
        if a.Error? {
          return Error;
        }
        var (o, idx) := a.value;
        outputs := o;
        var v := if e.DigOut? then [false] else ZERO[..] + ZERO[..];
        items := items + [Item(idx, LocOf(e), v)];
        BuildStep(h, Host(outputs, items, false, frameWr), es[..k], e, idx);
      } else {
        BuildSkip(h, es[..k], e);
      }
    }
    assert es[..|es|] == es;
    return Ok(Host(outputs, items, false, frameWr));
  }

  lemma BuiltOutputs(h: Host, es: seq<Entry>)
    requires Built(h, es)
    ensures Distinct(h.outputs) && forall i :: 0 <= i < |h.outputs| ==> !h.outputs[i].needUpdate
  {
  }

  lemma BuildSkip(h: Host, es: seq<Entry>, e: Entry)
    requires Built(h, es) && !e.IsInput()
    ensures Built(h, es + [e])
  {
    forall id ensures LengthIs(h.outputs, id, HostLength(es + [e], id)) {
      HostLengthSnoc(es, e, id);
    }
    OutsSnoc(es, e);
    hide LengthIs, HostLength, ItemBuilt;
  }
}
