/** The AVR node's side of the CAN outputs: frames are copied into slices of the process
    image and drive the pins of the objects that lie there.
  */
module CanNode {
  import opened Wrappers
  import opened CanLayout
  import opened CanHost

  datatype Pin = Digital(nr: int) | PwmChannel(nr: int)

  /** A digital or PWM output object; loc is its place in the image. */
  datatype Obj = Obj(mobIdx: nat, loc: Loc, pin: Pin)

  const SVC_RX := 13
  const SVC_BROADCAST := 14

  /** What was uploaded to the node: the CAN ids and slice ends of its message objects, how
      many of them it receives, and its output objects. */
  datatype Config = Config(ids: seq<CanId>, ends: seq<Byte>, firstTx: nat, digOuts: seq<Obj>, pwms: seq<Obj>) {
    function Objs(): seq<Obj> { digOuts + pwms }
  }

  datatype Node = Node(image: seq<Octet>, pins: map<Pin, Value>)

  ghost predicate Ready(c: Config, size: nat) {
    && |c.ids| == |c.ends| && c.firstTx <= |c.ids|
    && (forall i :: 0 <= i < |c.ends| ==> Begin(c.ends, i) <= c.ends[i] && c.ends[i] as int <= size)
    && (forall o :: o in c.Objs() ==> o.loc.Within(size))
  }

  // ---------- one frame, as functions ----------

  function Copied(image: seq<Octet>, begin: int, end: int, f: Frame): (r: seq<Octet>)
    ensures |r| == |image|
  {
    seq(|image|, b requires 0 <= b < |image| =>
                   if begin <= b < end && b - begin < f.dlc then f.data[b - begin] else image[b])
  }

  function Driven(pins: map<Pin, Value>, image: seq<Octet>, objs: seq<Obj>, mobIdx: nat, n: nat): map<Pin, Value>
    requires n <= |objs| && forall o :: o in objs ==> o.loc.Within(|image|)
  {
    if n == 0 then pins
    else
      var o, before := objs[n - 1], Driven(pins, image, objs, mobIdx, n - 1);
      if o.mobIdx == mobIdx then before[o.pin := Get(image, o.loc)] else before
  }

  /** Message object i received a frame. */
  function Taken(c: Config, n: Node, i: nat, f: Frame): (r: Node)
    requires Ready(c, |n.image|) && i < |c.ends|
    ensures |r.image| == |n.image|
  {
    var image := Copied(n.image, Begin(c.ends, i), c.ends[i], f);
    Node(image, Driven(n.pins, image, c.Objs(), i, |c.Objs()|))
  }

  /** What the node itself reads or writes in the image for an object, counted from the begin
      of its slice: a bit, a word, or the words of a sensor's values. */
  function Accessed(e: Entry): (r: seq<Loc>)
    ensures r != []
  {
    match e
    case DigIn(_, byte, bit) => [Bit(byte, bit)]
    case DigOut(_, byte, bit) => [Bit(byte, bit)]
    case OwT(_, byte) => [Word(byte)]
    case Pwm16(_, byte) => [Word(byte)]
    case Scd41(_) => [Word(0), Word(2), Word(4)]
    case Sht11(_) => [Word(0), Word(2)]
  }

  /** Those are exactly the bits that the allocator has kept for it. */
  lemma AccessedIsKept(e: Entry, b: int)
    ensures e.Bits().start <= b < e.Bits().End() <==>
            exists k :: 0 <= k < |Accessed(e)| && Accessed(e)[k].Bits().start <= b < Accessed(e)[k].Bits().End()
    ensures e.FirstByte() == Accessed(e)[0].offset
  {
    var a := Accessed(e);
    if e.Scd41? {
      assert a[0].Bits() == CanLayout.Span(0, 16) && a[1].Bits() == CanLayout.Span(16, 16)
          && a[2].Bits() == CanLayout.Span(32, 16);
    } else if e.Sht11? {
      assert a[0].Bits() == CanLayout.Span(0, 16) && a[1].Bits() == CanLayout.Span(16, 16);
    } else {
      assert a[0].Bits() == e.Bits();
    }
  }

  /** The filter of a message object compares eleven bits of the id. */
  function Wire(id: CanId): nat { id % 0x800 }

  /** The message objects that take process frames. Those from SVC_TX on are the service's: two
      receive its commands, and the answer to the command that starts the exchange takes over
      SVC_TX itself. */
  function Receivers(c: Config): nat { if c.firstTx < SVC_TX then c.firstTx else SVC_TX }

  /** The first message object whose filter lets a frame pass; Receivers(c) if none does. */
  function MobOf(c: Config, id: CanId, i: nat): (r: nat)
    requires i <= Receivers(c) <= |c.ids|
    ensures i <= r <= Receivers(c) && (r < Receivers(c) ==> Wire(c.ids[r]) == Wire(id))
    ensures forall j :: i <= j < r ==> Wire(c.ids[j]) != Wire(id)
    decreases Receivers(c) - i
  {
    if i == Receivers(c) || Wire(c.ids[i]) == Wire(id) then i else MobOf(c, id, i + 1)
  }

  /** The CAN controller hands a frame to the first message object it matches. */
  function Consume(c: Config, n: Node, f: Frame): Node
    requires Ready(c, |n.image|)
  {
    var i := MobOf(c, f.id, 0);
    if i < Receivers(c) then Taken(c, n, i, f) else n
  }

  // ---------- the node as it runs ----------

  class AvrNode {
    const c: Config
    const gIOData: array<Octet>
    var pins: map<Pin, Value>

    constructor (c: Config, size: nat)
      ensures this.c == c && fresh(gIOData) && gIOData.Length == size && pins == map[]
      ensures forall b :: 0 <= b < size ==> gIOData[b] == ZERO
    {
      this.c := c;
      gIOData := new Octet[size](_ => ZERO);
      pins := map[];
    }

    ghost function View(): Node
      reads this, gIOData
    {
      Node(gIOData[..], pins)
    }

    /** A message object has an interrupt: the frames of the service's own are commands. */
    method OnInterrupt(mobIdx: nat, f: Frame)
      requires Ready(c, gIOData.Length)
      modifies this`pins, gIOData
      ensures View() == if mobIdx < c.firstTx && mobIdx != SVC_RX && mobIdx != SVC_BROADCAST
                        then Taken(c, old(View()), mobIdx, f) else old(View())
    {
      if mobIdx == SVC_RX || mobIdx == SVC_BROADCAST {
        return;
      }
      if mobIdx < c.firstTx {
        OnReceived(mobIdx, f);
      }
    }

    /** A received message object is read out into its slice and its objects are driven. */
    method OnReceived(mobIdx: nat, f: Frame)
      requires Ready(c, gIOData.Length) && mobIdx < c.firstTx
      modifies this`pins, gIOData
      ensures View() == Taken(c, old(View()), mobIdx, f)
    {
      var beginIdx := Begin(c.ends, mobIdx);
      var endIdx: int := c.ends[mobIdx];
      ghost var before := gIOData[..];
      var idx: int := beginIdx;
      while idx < endIdx && idx - beginIdx < f.dlc
        invariant beginIdx <= idx <= endIdx && idx - beginIdx <= f.dlc && pins == old(pins)
        invariant forall b :: 0 <= b < gIOData.Length ==>
                    gIOData[b] == if beginIdx <= b < idx then f.data[b - beginIdx] else before[b]
      {
        gIOData[idx] := f.data[idx - beginIdx];
        idx := idx + 1;
      }
      assert gIOData[..] == Copied(before, beginIdx, endIdx, f);
      IterateOutputObjs(mobIdx);
    }

    method IterateOutputObjs(mobIdx: nat)
      requires Ready(c, gIOData.Length)
      modifies this`pins
      ensures pins == Driven(old(pins), gIOData[..], c.Objs(), mobIdx, |c.Objs()|)
    {
      assert forall o :: o in c.digOuts || o in c.pwms ==> o in c.Objs();
      for i := 0 to |c.digOuts|
        invariant pins == Driven(old(pins), gIOData[..], c.Objs(), mobIdx, i)
      {
        assert c.Objs()[i] == c.digOuts[i];
        var obj := c.digOuts[i];
        if mobIdx == obj.mobIdx {
          pins := pins[obj.pin := Get(gIOData[..], obj.loc)];
        }
      }
      for i := 0 to |c.pwms|
        invariant pins == Driven(old(pins), gIOData[..], c.Objs(), mobIdx, |c.digOuts| + i)
      {
        assert c.Objs()[|c.digOuts| + i] == c.pwms[i];
        var obj := c.pwms[i];
        if mobIdx == obj.mobIdx {
          pins := pins[obj.pin := Get(gIOData[..], obj.loc)];
        }
      }
    }
  }

  // ---------- after any frames ----------

  function ConsumeAll(c: Config, n: Node, frames: seq<Frame>): (r: Node)
    requires Ready(c, |n.image|)
    ensures |r.image| == |n.image|
    decreases |frames|
  {
    if frames == [] then n
    else Consume(c, ConsumeAll(c, n, frames[..|frames| - 1]), frames[|frames| - 1])
  }

  ghost predicate PinsDistinct(c: Config) {
    var objs := c.Objs();
    forall i, j :: 0 <= i < j < |objs| ==> objs[i].pin != objs[j].pin
  }

  /** No two received ids look the same to the filters. */
  ghost predicate IdsApart(c: Config)
    requires Receivers(c) <= |c.ids|
  {
    forall i, j :: 0 <= i < j < Receivers(c) ==> Wire(c.ids[i]) != Wire(c.ids[j])
  }

  /** The slices do not overlap. */
  ghost predicate SlicesApart(ends: seq<Byte>) {
    forall i, j :: 0 <= i < j < |ends| ==> ends[i] <= Begin(ends, j)
  }

  lemma {:induction false} DrivenPin(pins: map<Pin, Value>, image: seq<Octet>, objs: seq<Obj>, mobIdx: nat, n: nat,
    p: Pin)
    requires n <= |objs| && forall o :: o in objs ==> o.loc.Within(|image|)
    requires forall i, j :: 0 <= i < j < |objs| ==> objs[i].pin != objs[j].pin
    ensures var r := Driven(pins, image, objs, mobIdx, n);
            && (forall k :: 0 <= k < n && objs[k].pin == p && objs[k].mobIdx == mobIdx ==>
                  p in r && r[p] == Get(image, objs[k].loc))
            && ((forall k :: 0 <= k < n && objs[k].mobIdx == mobIdx ==> objs[k].pin != p) ==>
                  (p in r <==> p in pins) && (p in r ==> r[p] == pins[p]))
  {
    if n > 0 {
      DrivenPin(pins, image, objs, mobIdx, n - 1, p);
      hide Get;
    }
  }

  /** The pin of an object shows the image when its own message object was received, and
      stays when another one was. */
  lemma TakenPin(c: Config, n: Node, i: nat, f: Frame, k: nat)
    requires Ready(c, |n.image|) && PinsDistinct(c) && i < |c.ends| && k < |c.Objs()|
    ensures var o, n' := c.Objs()[k], Taken(c, n, i, f);
            if o.mobIdx == i then o.pin in n'.pins && n'.pins[o.pin] == Get(n'.image, o.loc)
            else (o.pin in n'.pins <==> o.pin in n.pins) && (o.pin in n'.pins ==> n'.pins[o.pin] == n.pins[o.pin])
  {
    var objs := c.Objs();
    DrivenPin(n.pins, Taken(c, n, i, f).image, objs, i, |objs|, objs[k].pin);
    hide Get, Copied, Driven;
  }

  /** The bytes of a slice after a frame of its id that is long enough, and after any other
      frame. */
  lemma TakenSlice(c: Config, n: Node, i: nat, f: Frame, j: nat)
    requires Ready(c, |n.image|) && SlicesApart(c.ends) && i < |c.ends| && j < |c.ends|
    ensures var b, e, n' := Begin(c.ends, j), c.ends[j], Taken(c, n, i, f);
            if i == j then f.dlc >= e as int - b as int ==> n'.image[b..e] == f.data[..e as int - b as int]
            else n'.image[b..e] == n.image[b..e]
  {
    assert i < j ==> c.ends[i] <= Begin(c.ends, j);
    assert j < i ==> c.ends[j] <= Begin(c.ends, i);
    hide Driven, Get, SlicesApart, Copied;
    CopiedSlice(n.image, Begin(c.ends, i) as int, c.ends[i] as int, f, Begin(c.ends, j) as int, c.ends[j] as int);
  }

  lemma CopiedSlice(image: seq<Octet>, b: nat, e: nat, f: Frame, b2: nat, e2: nat)
    requires b <= e <= |image| && b2 <= e2 <= |image|
    ensures e <= b2 || e2 <= b ==> Copied(image, b, e, f)[b2..e2] == image[b2..e2]
    ensures f.dlc >= e - b ==> Copied(image, b, e, f)[b..e] == f.data[..e - b]
  {
  }

  ghost predicate PinShows(n: Node, o: Obj)
    requires o.loc.Within(|n.image|)
  {
    o.pin in n.pins && n.pins[o.pin] == Get(n.image, o.loc)
  }

  /** An object that lies in the slice of its message object. */
  ghost predicate InSlice(c: Config, o: Obj, i: nat)
    requires i < |c.ends|
  {
    o.mobIdx == i && Begin(c.ends, i) as int <= o.loc.offset && o.loc.offset + o.loc.Bytes() <= c.ends[i] as int
  }

  /** Taking a frame for another message object leaves slice and pins alone. */
  lemma OtherTaken(c: Config, n: Node, j: nat, f: Frame, i: nat, k: nat)
    requires Ready(c, |n.image|) && PinsDistinct(c) && SlicesApart(c.ends)
    requires i < |c.ends| && j < |c.ends| && i != j && k < |c.Objs()| && InSlice(c, c.Objs()[k], i)
    requires PinShows(n, c.Objs()[k])
    ensures PinShows(Taken(c, n, j, f), c.Objs()[k])
  {
    hide Taken, Driven, PinsDistinct, SlicesApart;
    var o, n' := c.Objs()[k], Taken(c, n, j, f);
    TakenSlice(c, n, j, f, i);
    TakenPin(c, n, j, f, k);
    SliceGet(n.image, n'.image, Begin(c.ends, i) as int, c.ends[i] as int, o.loc);
  }

  lemma SliceGet(p: seq<Octet>, q: seq<Octet>, b: nat, e: nat, l: Loc)
    requires b <= e <= |p| == |q| && p[b..e] == q[b..e]
    requires b <= l.offset && l.offset + l.Bytes() <= e
    ensures Get(p, l) == Get(q, l)
  {
    assert p[l.offset] == p[b..e][l.offset - b] == q[b..e][l.offset - b] == q[l.offset];
    if l.Word? {
      var o := l.offset + 1;
      assert p[o] == p[b..e][o - b] == q[b..e][o - b] == q[o];
    }
  }

  /** If a frame of another id gets into the slice of object k, it ends before the object. */
  ghost predicate Clear(c: Config, k: nat, f: Frame) {
    && k < |c.Objs()| && c.Objs()[k].mobIdx < |c.ids| && c.Objs()[k].mobIdx < |c.ends|
    && var o := c.Objs()[k];
       var id := c.ids[o.mobIdx];
       f.id != id && Wire(f.id) == Wire(id) ==> Begin(c.ends, o.mobIdx) as int + f.dlc <= o.loc.offset
  }

  function Shifted(l: Loc, d: int): Loc {
    if l.Bit? then Bit(l.offset + d, l.bit) else Word(l.offset + d)
  }

  /** The place of an object in the image after its message object took a frame. */
  lemma OwnTaken(c: Config, n: Node, f: Frame, k: nat, loc: Loc)
    requires Ready(c, |n.image|) && k < |c.Objs()| && c.Objs()[k].mobIdx < |c.ends|
    requires InSlice(c, c.Objs()[k], c.Objs()[k].mobIdx)
    requires c.Objs()[k].loc == Shifted(loc, Begin(c.ends, c.Objs()[k].mobIdx) as int)
    ensures var o, i := c.Objs()[k], c.Objs()[k].mobIdx;
            var b, e, n' := Begin(c.ends, i) as int, c.ends[i] as int, Taken(c, n, i, f);
            && loc.Within(e - b)
            && (b + f.dlc <= o.loc.offset ==> Get(n'.image, o.loc) == Get(n.image, o.loc))
            && (f.dlc >= e - b ==> loc.Within(8) && Get(n'.image, o.loc) == Get(f.data, loc))
  {
    hide Driven;
  }

  /** After any frames that are clear of it, the place of an object in the image holds what
      the latest frame of its id has there, if that frame was as long as the slice. */
  lemma {:induction false} ImageShowsLast(c: Config, n: Node, frames: seq<Frame>, k: nat, loc: Loc)
    requires Ready(c, |n.image|) && IdsApart(c) && SlicesApart(c.ends)
    requires k < |c.Objs()| && c.Objs()[k].mobIdx < Receivers(c) && InSlice(c, c.Objs()[k], c.Objs()[k].mobIdx)
    requires c.Objs()[k].loc == Shifted(loc, Begin(c.ends, c.Objs()[k].mobIdx) as int)
    requires forall f :: f in frames ==> Clear(c, k, f)
    ensures var o, i := c.Objs()[k], c.Objs()[k].mobIdx;
            var b, e, last := Begin(c.ends, i) as int, c.ends[i] as int, LastOf(frames, c.ids[i]);
            last.Some? && last.value.dlc >= e - b ==>
              loc.Within(8) && Get(ConsumeAll(c, n, frames).image, o.loc) == Get(last.value.data, loc)
    decreases |frames|
  {
    if frames != [] {
      var m := |frames| - 1;
      var f, n1, i := frames[m], ConsumeAll(c, n, frames[..m]), c.Objs()[k].mobIdx;
      ImageShowsLast(c, n, frames[..m], k, loc);
      var j := MobOf(c, f.id, 0);
      assert Clear(c, k, f);
      if j == i {
        OwnTaken(c, n1, f, k, loc);
      } else if j < Receivers(c) {
        OtherImage(c, n1, j, f, i, k);
      }
      hide Taken, SlicesApart, Get, MobOf;
    }
  }

  lemma OtherImage(c: Config, n: Node, j: nat, f: Frame, i: nat, k: nat)
    requires Ready(c, |n.image|) && SlicesApart(c.ends)
    requires i < |c.ends| && j < |c.ends| && i != j && k < |c.Objs()| && InSlice(c, c.Objs()[k], i)
    ensures Get(Taken(c, n, j, f).image, c.Objs()[k].loc) == Get(n.image, c.Objs()[k].loc)
  {
    hide Taken, SlicesApart;
    var o, n' := c.Objs()[k], Taken(c, n, j, f);
    TakenSlice(c, n, j, f, i);
    SliceGet(n.image, n'.image, Begin(c.ends, i) as int, c.ends[i] as int, o.loc);
  }

  /** If no two objects share a pin, after any frames the pin of an object shows its place in
      the image once a frame of its id has come. */
  lemma {:induction false} PinShowsImage(c: Config, n: Node, frames: seq<Frame>, k: nat)
    requires Ready(c, |n.image|) && PinsDistinct(c) && IdsApart(c) && SlicesApart(c.ends)
    requires k < |c.Objs()| && c.Objs()[k].mobIdx < Receivers(c) && InSlice(c, c.Objs()[k], c.Objs()[k].mobIdx)
    ensures LastOf(frames, c.ids[c.Objs()[k].mobIdx]).Some? ==> PinShows(ConsumeAll(c, n, frames), c.Objs()[k])
    decreases |frames|
  {
    if frames != [] {
      var m := |frames| - 1;
      var f, n1, i := frames[m], ConsumeAll(c, n, frames[..m]), c.Objs()[k].mobIdx;
      PinShowsImage(c, n, frames[..m], k);
      var j := MobOf(c, f.id, 0);
      if j < Receivers(c) {
        TakenPin(c, n1, j, f, k);
        hide Taken, Get, PinsDistinct, SlicesApart;
        if i != j && LastOf(frames[..m], c.ids[i]).Some? {
          OtherTaken(c, n1, j, f, i, k);
        }
      }
    }
  }

  /** A message object that no frame gets to: one behind another with the same eleven bits,
      or one of the service's. */
  ghost predicate Unreached(c: Config, i: nat)
    requires Receivers(c) <= |c.ids|
  {
    i >= Receivers(c) || exists j :: 0 <= j < i && Wire(c.ids[j]) == Wire(c.ids[i])
  }

  /** Whatever frames come, its objects stay as they are, in the image and on their pins. */
  lemma {:induction false} UnreachedStays(c: Config, n: Node, frames: seq<Frame>, k: nat)
    requires Ready(c, |n.image|) && SlicesApart(c.ends)
    requires k < |c.Objs()| && c.Objs()[k].mobIdx < |c.ends| && InSlice(c, c.Objs()[k], c.Objs()[k].mobIdx)
    requires Unreached(c, c.Objs()[k].mobIdx)
    ensures var o, n' := c.Objs()[k], ConsumeAll(c, n, frames);
            && Get(n'.image, o.loc) == Get(n.image, o.loc)
            && (PinsDistinct(c) ==>
                  (o.pin in n'.pins <==> o.pin in n.pins)
                  && (o.pin in n'.pins ==> n'.pins[o.pin] == n.pins[o.pin]))
    decreases |frames|
  {
    if frames != [] {
      var m := |frames| - 1;
      var f, n1, i := frames[m], ConsumeAll(c, n, frames[..m]), c.Objs()[k].mobIdx;
      UnreachedStays(c, n, frames[..m], k);
      var j := MobOf(c, f.id, 0);
      if j < Receivers(c) {
        assert j != i;
        OtherImage(c, n1, j, f, i, k);
        if PinsDistinct(c) {
          TakenPin(c, n1, j, f, k);
        }
      }
      hide Taken, Get, PinsDistinct, SlicesApart, MobOf;
    }
  }
}
