/** How the items of a CAN node are laid out: the bit spans inside a CAN frame, the bytes of
    the node's process image, and the slices the node works out from the uploaded ends.
  */
module CanLayout {
  import opened Wrappers

  type CanId = nat
  type BitIdx = b: int | 0 <= b < 8

  /** One configured object of a node, with its place inside the frame of its CAN id. */
  datatype Entry =
    | DigIn(id: CanId, byte: int, bit: BitIdx)
    | OwT(id: CanId, byte: int)
    | Scd41(id: CanId)
    | Sht11(id: CanId)
    | DigOut(id: CanId, byte: int, bit: BitIdx)
    | Pwm16(id: CanId, byte: int)
  {
    /** Frames the node receives. */
    predicate IsInput() { DigOut? || Pwm16? }

    function Bits(): Span {
      match this
      case DigIn(_, byte, bit) => Span(8 * byte + bit, 1)
      case DigOut(_, byte, bit) => Span(8 * byte + bit, 1)
      case OwT(_, byte) => Span(8 * byte, 16)
      case Pwm16(_, byte) => Span(8 * byte, 16)
      case Scd41(_) => Span(0, 48)
      case Sht11(_) => Span(0, 32)
    }

    /** The byte of the frame the object begins in. */
    function FirstByte(): int {
      match this
      case DigIn(_, byte, _) => byte
      case DigOut(_, byte, _) => byte
      case OwT(_, byte) => byte
      case Pwm16(_, byte) => byte
      case Scd41(_) => 0
      case Sht11(_) => 0
    }
  }

  type Pos = n: int | n > 0 witness 1

  /** The kinds of objects a node is told to make room for. */
  datatype Kind = DigINs | OwTs | Scd41s | Sht11s | DigOUTs | Pwm16s

  function KindOf(e: Entry): Kind {
    match e
    case DigIn(_, _, _) => DigINs
    case OwT(_, _) => OwTs
    case Scd41(_) => Scd41s
    case Sht11(_) => Sht11s
    case DigOut(_, _, _) => DigOUTs
    case Pwm16(_, _) => Pwm16s
  }

  function Count(es: seq<Entry>, kind: Kind): nat {
    if es == [] then 0 else (if KindOf(es[0]) == kind then 1 else 0) + Count(es[1..], kind)
  }

  lemma {:induction false} CountHas(es: seq<Entry>, kind: Kind)
    ensures Count(es, kind) > 0 <==> exists e :: e in es && KindOf(e) == kind
  {
    if es != [] {
      CountHas(es[1..], kind);
      assert es == [es[0]] + es[1..];
    }
  }

  lemma {:induction false} CountsSum(es: seq<Entry>)
    ensures Count(es, DigINs) + Count(es, DigOUTs) + Count(es, OwTs) + Count(es, Pwm16s)
            + Count(es, Scd41s) + Count(es, Sht11s) == |es|
  {
    if es != [] {
      CountsSum(es[1..]);
    }
  }

  /** Every object is counted, once, among its kind. */
  lemma CountsAre(es: seq<Entry>)
    ensures Count(es, DigINs) > 0 <==> exists e :: e in es && e.DigIn?
    ensures Count(es, DigOUTs) > 0 <==> exists e :: e in es && e.DigOut?
    ensures Count(es, OwTs) > 0 <==> exists e :: e in es && e.OwT?
    ensures Count(es, Pwm16s) > 0 <==> exists e :: e in es && e.Pwm16?
    ensures Count(es, Scd41s) > 0 <==> exists e :: e in es && e.Scd41?
    ensures Count(es, Sht11s) > 0 <==> exists e :: e in es && e.Sht11?
    ensures Count(es, DigINs) + Count(es, DigOUTs) + Count(es, OwTs) + Count(es, Pwm16s)
            + Count(es, Scd41s) + Count(es, Sht11s) == |es|
  {
    CountsSum(es);
    CountHas(es, DigINs);
    CountHas(es, DigOUTs);
    CountHas(es, OwTs);
    CountHas(es, Pwm16s);
    CountHas(es, Scd41s);
    CountHas(es, Sht11s);
    hide Count;
  }

  datatype Span = Span(start: int, len: Pos) {
    function End(): int { start + len }
    predicate Apart(other: Span) { End() <= other.start || other.End() <= start }
  }

  const FRAME_BITS := 8 * 8

  // ---------- the spans of one CAN id ----------

  /** What a frame needs: no two objects overlap and all lie inside eight bytes. */
  ghost predicate Fits(s: seq<Span>) {
    && (forall i, j :: 0 <= i < j < |s| ==> s[i].Apart(s[j]))
    && (forall i :: 0 <= i < |s| ==> 0 <= s[i].start && s[i].End() <= FRAME_BITS)
  }

  function Insert(x: Span, s: seq<Span>): seq<Span> {
    if s == [] || x.start <= s[0].start then [x] + s else [s[0]] + Insert(x, s[1..])
  }

  /** Python's sort by the first component. */
  function SortByStart(s: seq<Span>): seq<Span> {
    if s == [] then [] else Insert(s[0], SortByStart(s[1..]))
  }

  ghost predicate Sorted(s: seq<Span>) { forall i, j :: 0 <= i < j < |s| ==> s[i].start <= s[j].start }

  ghost predicate AllApart(x: Span, s: seq<Span>) { forall y :: y in s ==> x.Apart(y) }

  lemma FitsCons(x: Span, s: seq<Span>)
    ensures Fits([x] + s) <==> Fits(s) && 0 <= x.start && x.End() <= FRAME_BITS && AllApart(x, s)
  {
    var r := [x] + s;
    if Fits(r) {
      forall i, j | 0 <= i < j < |s| ensures s[i].Apart(s[j]) {
        assert r[i + 1].Apart(r[j + 1]);
      }
      forall i | 0 <= i < |s| ensures 0 <= s[i].start && s[i].End() <= FRAME_BITS && x.Apart(s[i]) {
        assert r[i + 1] == s[i] && r[0].Apart(r[i + 1]);
      }
      assert r[0] == x;
    }
  }

  lemma {:induction false} InsertSorts(x: Span, s: seq<Span>)
    requires Sorted(s)
    ensures Sorted(Insert(x, s)) && forall y :: y in Insert(x, s) <==> y == x || y in s
  {
    if !(s == [] || x.start <= s[0].start) {
      var r := Insert(x, s[1..]);
      InsertSorts(x, s[1..]);
      assert s == [s[0]] + s[1..];
      forall j | 0 <= j < |r| ensures s[0].start <= r[j].start {
        assert r[j] in r;
      }
      hide Insert;
    }
  }

  lemma {:induction false} InsertFits(x: Span, s: seq<Span>)
    requires Sorted(s)
    ensures Fits(Insert(x, s)) <==> Fits([x] + s)
  {
    if !(s == [] || x.start <= s[0].start) {
      var t, r := s[1..], Insert(x, s[1..]);
      assert s == [s[0]] + t && Insert(x, s) == [s[0]] + r;
      InsertSorts(x, t);
      InsertFits(x, t);
      hide Insert, Sorted, Fits;
      FitsCons(x, s);
      FitsCons(x, t);
      FitsCons(s[0], t);
      FitsCons(s[0], r);
      assert AllApart(s[0], r) <==> s[0].Apart(x) && AllApart(s[0], t);
      assert AllApart(x, s) <==> x.Apart(s[0]) && AllApart(x, t);
    }
  }

  lemma {:induction false} SortFits(s: seq<Span>)
    ensures Sorted(SortByStart(s)) && forall y :: y in SortByStart(s) <==> y in s
    ensures Fits(SortByStart(s)) <==> Fits(s)
  {
    if s != [] {
      SortFits(s[1..]);
      InsertSorts(s[0], SortByStart(s[1..]));
      InsertFits(s[0], SortByStart(s[1..]));
      FitsCons(s[0], s[1..]);
      FitsCons(s[0], SortByStart(s[1..]));
      assert s == [s[0]] + s[1..];
      hide Fits, Insert;
    }
  }

  /** n bytes hold all spans, and no fewer would. */
  ghost predicate LeastBytes(s: seq<Span>, n: int) {
    && 0 <= n
    && (forall x :: x in s ==> x.End() <= 8 * n)
    && (n > 0 ==> exists x :: x in s && x.End() > 8 * (n - 1))
  }

  lemma LeastBytesUnique(s: seq<Span>, n: int, m: int)
    requires LeastBytes(s, n) && LeastBytes(s, m)
    ensures n == m
  {
  }

  /** Sorting and scanning with the end of the last span accepts the spans of a CAN id
      exactly when they fit, and then yields the least number of bytes. */
  method ScanMob(items: seq<Span>) returns (r: Result<int>)
    ensures r.Ok? <==> Fits(items)
    ensures r.Ok? ==> LeastBytes(items, r.value) && r.value <= 8
  {
    SortFits(items);
    var sorted := SortByStart(items);
    var prevEnd, k := 0, 0;
    while k < |sorted|
      invariant 0 <= k <= |sorted| && 0 <= prevEnd
      invariant forall i :: 0 <= i < k ==> 0 <= sorted[i].start && sorted[i].End() <= prevEnd
      invariant forall i, j :: 0 <= i < j < k ==> sorted[i].Apart(sorted[j])
      invariant if k == 0 then prevEnd == 0 else prevEnd == sorted[k - 1].End()
    {
      if prevEnd > sorted[k].start {
        assert k > 0 ==> sorted[k - 1].start <= sorted[k].start && !sorted[k - 1].Apart(sorted[k]);
        return Error;
      }
      prevEnd := sorted[k].End();
      k := k + 1;
    }
    if prevEnd > FRAME_BITS {
      return Error;
    }
    var size := (prevEnd + 7) / 8;
    forall x | x in items ensures x.End() <= 8 * size {
      assert x in sorted;
    }
    if |sorted| > 0 {
      assert sorted[|sorted| - 1] in items;
    }
    return Ok(size);
  }

  // ---------- the image of a node ----------

  function ItemsOf(es: seq<Entry>, id: CanId): seq<Span> {
    if es == [] then []
    else (if es[0].id == id then [es[0].Bits()] else []) + ItemsOf(es[1..], id)
  }

  lemma {:induction false} ItemsOfAre(es: seq<Entry>, id: CanId, x: Span)
    ensures x in ItemsOf(es, id) <==> exists e :: e in es && e.id == id && e.Bits() == x
  {
    if es != [] {
      ItemsOfAre(es[1..], id, x);
      assert es == [es[0]] + es[1..];
    }
  }

  function InsertId(id: CanId, s: seq<CanId>): seq<CanId> {
    if s == [] || id < s[0] then [id] + s
    else if id == s[0] then s
    else [s[0]] + InsertId(id, s[1..])
  }

  /** Python's sorted() of the set of CAN ids of one direction. */
  function SortedIds(es: seq<Entry>, inputs: bool): seq<CanId> {
    if es == [] then []
    else if es[0].IsInput() == inputs then InsertId(es[0].id, SortedIds(es[1..], inputs))
    else SortedIds(es[1..], inputs)
  }

  ghost predicate Ascending(s: seq<CanId>) { forall i, j :: 0 <= i < j < |s| ==> s[i] < s[j] }

  lemma {:induction false} InsertIdSorts(id: CanId, s: seq<CanId>)
    requires Ascending(s)
    ensures Ascending(InsertId(id, s)) && forall y :: y in InsertId(id, s) <==> y == id || y in s
  {
    if s != [] && id > s[0] {
      InsertIdSorts(id, s[1..]);
      assert s == [s[0]] + s[1..];
      var r := InsertId(id, s[1..]);
      forall j | 0 <= j < |r| ensures s[0] < r[j] {
        assert r[j] in r;
      }
      hide InsertId;
    }
  }

  ghost predicate HasId(es: seq<Entry>, id: CanId, inputs: bool) {
    exists e :: e in es && e.id == id && e.IsInput() == inputs
  }

  lemma {:induction false} SortedIdsAre(es: seq<Entry>, inputs: bool)
    ensures Ascending(SortedIds(es, inputs))
    ensures forall id :: id in SortedIds(es, inputs) <==> HasId(es, id, inputs)
  {
    if es != [] {
      SortedIdsAre(es[1..], inputs);
      InsertIdSorts(es[0].id, SortedIds(es[1..], inputs));
      assert es == [es[0]] + es[1..];
      forall id ensures id in SortedIds(es, inputs) <==> HasId(es, id, inputs) {
        assert es[0] in es;
        assert HasId(es[1..], id, inputs) ==> HasId(es, id, inputs);
        assert HasId(es, id, inputs) ==> HasId(es[1..], id, inputs) || (es[0].id == id && es[0].IsInput() == inputs);
      }
    }
  }

  datatype Mob = Mob(id: CanId, start: int, size: int)

  /** The message objects in order, received ones first; inputs counts those. */
  datatype Layout = Layout(mobs: seq<Mob>, inputs: nat)

  ghost predicate Acceptable(es: seq<Entry>) {
    && (forall e :: e in es ==> Fits(ItemsOf(es, e.id)))
    && (forall e, f :: e in es && f in es && e.id == f.id ==> e.IsInput() == f.IsInput())
  }

  /** The slices follow each other from byte 0 on, each as large as its frame, first the
      received frames and then the sent ones, by CAN id. */
  ghost predicate Packs(l: Layout, es: seq<Entry>) {
    l.inputs <= |l.mobs| && Consecutive(l.mobs) && Sized(l.mobs, es) && Serves(l, es)
  }

  ghost predicate Consecutive(mobs: seq<Mob>) {
    forall i :: 0 <= i < |mobs| ==> mobs[i].start == if i == 0 then 0 else mobs[i - 1].start + mobs[i - 1].size
  }

  ghost predicate Sized(mobs: seq<Mob>, es: seq<Entry>) {
    forall i :: 0 <= i < |mobs| ==> LeastBytes(ItemsOf(es, mobs[i].id), mobs[i].size) && mobs[i].size <= 8
  }

  /** Each CAN id of each object has exactly one message object, on the right side. */
  ghost predicate Serves(l: Layout, es: seq<Entry>) {
    && (forall i :: 0 <= i < |l.mobs| ==> HasId(es, l.mobs[i].id, i < l.inputs))
    && (forall e :: e in es ==> exists i :: 0 <= i < |l.mobs| && l.mobs[i].id == e.id && e.IsInput() == (i < l.inputs))
    && (forall i, j :: 0 <= i < j < |l.mobs| && ((i < l.inputs) == (j < l.inputs)) ==> l.mobs[i].id < l.mobs[j].id)
  }

  /** The sizes of the frames, if the items of every id fit. */
  method CheckFrames(es: seq<Entry>, ids: seq<CanId>) returns (r: Result<map<CanId, int>>)
    ensures r.Ok? <==> forall id :: id in ids ==> Fits(ItemsOf(es, id))
    ensures r.Ok? ==> forall id :: id in ids ==>
                        id in r.value && LeastBytes(ItemsOf(es, id), r.value[id]) && r.value[id] <= 8
  {
    hide Fits, LeastBytes;
    var sizes: map<CanId, int> := map[];
    for k := 0 to |ids|
      invariant forall id :: id in ids[..k] ==>
                  Fits(ItemsOf(es, id)) && id in sizes && LeastBytes(ItemsOf(es, id), sizes[id]) && sizes[id] <= 8
    {
      var size := ScanMob(ItemsOf(es, ids[k]));
      if size.Error? {
        assert ids[k] in ids;
        return Error;
      }
      sizes := sizes[ids[k] := size.value];
    }
    return Ok(sizes);
  }

  lemma ConsecutiveSnoc(mobs: seq<Mob>, m: Mob)
    requires Consecutive(mobs)
    requires m.start == if mobs == [] then 0 else mobs[|mobs| - 1].start + mobs[|mobs| - 1].size
    ensures Consecutive(mobs + [m])
  {
  }

  method Place(ids: seq<CanId>, sizes: map<CanId, int>) returns (mobs: seq<Mob>)
    requires forall id :: id in ids ==> id in sizes
    ensures |mobs| == |ids| && Consecutive(mobs)
    ensures forall i :: 0 <= i < |ids| ==> mobs[i].id == ids[i] && mobs[i].size == sizes[ids[i]]
  {
    var startOffset := 0;
    mobs := [];
    for k := 0 to |ids|
      invariant |mobs| == k && startOffset == if k == 0 then 0 else mobs[k - 1].start + mobs[k - 1].size
      invariant Consecutive(mobs)
      invariant forall i :: 0 <= i < k ==> mobs[i].id == ids[i] && mobs[i].size == sizes[ids[i]]
    {
      ConsecutiveSnoc(mobs, Mob(ids[k], startOffset, sizes[ids[k]]));
      mobs := mobs + [Mob(ids[k], startOffset, sizes[ids[k]])];
      startOffset := startOffset + sizes[ids[k]];
    }
  }

  lemma IdsAccepted(es: seq<Entry>, ins: seq<CanId>, outs: seq<CanId>)
    requires forall id :: id in ins <==> HasId(es, id, true)
    requires forall id :: id in outs <==> HasId(es, id, false)
    ensures Acceptable(es)
            <==> (forall id :: id in ins + outs ==> Fits(ItemsOf(es, id))) && !exists id :: id in ins && id in outs
  {
    hide *;
    IdsFit(es, ins, outs);
    IdsUnmixed(es, ins, outs);
    AcceptedParts(es);
  }

  ghost predicate AllFit(es: seq<Entry>) { forall e :: e in es ==> Fits(ItemsOf(es, e.id)) }

  ghost predicate Unmixed(es: seq<Entry>) {
    forall e, f :: e in es && f in es && e.id == f.id ==> e.IsInput() == f.IsInput()
  }

  lemma AcceptedParts(es: seq<Entry>)
    ensures Acceptable(es) <==> AllFit(es) && Unmixed(es)
  {
    hide Fits, ItemsOf;
  }

  lemma IdsFit(es: seq<Entry>, ins: seq<CanId>, outs: seq<CanId>)
    requires forall id :: id in ins <==> HasId(es, id, true)
    requires forall id :: id in outs <==> HasId(es, id, false)
    ensures AllFit(es) <==> forall id :: id in ins + outs ==> Fits(ItemsOf(es, id))
  {
    hide Fits, ItemsOf;
    forall e | e in es ensures e.id in ins + outs {
      assert HasId(es, e.id, e.IsInput());
    }
  }

  lemma IdsUnmixed(es: seq<Entry>, ins: seq<CanId>, outs: seq<CanId>)
    requires forall id :: id in ins <==> HasId(es, id, true)
    requires forall id :: id in outs <==> HasId(es, id, false)
    ensures Unmixed(es) <==> !exists id :: id in ins && id in outs
  {
    if e, f :| e in es && f in es && e.id == f.id && e.IsInput() && !f.IsInput() {
      assert HasId(es, e.id, true) && HasId(es, e.id, false);
    }
  }

  lemma PlacedServes(es: seq<Entry>, ins: seq<CanId>, outs: seq<CanId>, mobs: seq<Mob>)
    requires Ascending(ins) && Ascending(outs) && |mobs| == |ins + outs|
    requires forall id :: id in ins <==> HasId(es, id, true)
    requires forall id :: id in outs <==> HasId(es, id, false)
    requires forall i :: 0 <= i < |mobs| ==> mobs[i].id == (ins + outs)[i]
    ensures Serves(Layout(mobs, |ins|), es)
  {
    forall e | e in es ensures exists i :: 0 <= i < |mobs| && mobs[i].id == e.id && e.IsInput() == (i < |ins|) {
      assert HasId(es, e.id, e.IsInput());
      if e.IsInput() {
        var i :| 0 <= i < |ins| && ins[i] == e.id;
        assert mobs[i].id == e.id;
      } else {
        var i :| 0 <= i < |outs| && outs[i] == e.id;
        assert (ins + outs)[|ins| + i] == outs[i];
        assert mobs[|ins| + i].id == e.id;
      }
    }
    hide HasId;
    forall i | 0 <= i < |mobs| ensures HasId(es, mobs[i].id, i < |ins|) {
      assert (ins + outs)[i] == if i < |ins| then ins[i] else outs[i - |ins|];
    }
  }

  /** The allocator accepts a node exactly when the items of every CAN id fit and no id is
      used in both directions; the image it lays out is then packed. */
  method ConfigNode(es: seq<Entry>) returns (r: Result<Layout>)
    ensures r.Ok? <==> Acceptable(es)
    ensures r.Ok? ==> Packs(r.value, es)
  {
    hide Acceptable, Serves, Fits, LeastBytes, ItemsOf;
    var ins, outs := SortedIds(es, true), SortedIds(es, false);
    SortedIdsAre(es, true);
    SortedIdsAre(es, false);
    IdsAccepted(es, ins, outs);
    var sizes := CheckFrames(es, ins + outs);
    if sizes.Error? {
      return Error;
    }
    if exists id | id in ins :: id in outs {
      return Error;
    }
    var mobs := Place(ins + outs, sizes.value);
    PlacedServes(es, ins, outs, mobs);
    return Ok(Layout(mobs, |ins|));
  }

  // ---------- what the node makes of it ----------

  type Byte = b: int | 0 <= b < 0x100

  function Total(mobs: seq<Mob>): int {
    if mobs == [] then 0 else mobs[|mobs| - 1].start + mobs[|mobs| - 1].size
  }

  /** Of the 15 message objects of the CAN controller this one answers service commands; the
      two after it receive them. */
  const SVC_TX := 12

  function SumSizes(mobs: seq<Mob>): int { if mobs == [] then 0 else mobs[0].size + SumSizes(mobs[1..]) }

  predicate IsByte(n: int) { 0 <= n < 0x100 }

  /** What packing a message object's index, slice end and CAN id into two bytes and a word
      asks for. */
  predicate Packable(k: nat, m: Mob) { IsByte(k) && IsByte(m.start + m.size) && m.id < 0x1_0000 }

  /** The numbers of objects and the size of the image go out as bytes. */
  predicate CountsFit(l: Layout, es: seq<Entry>) {
    && Count(es, DigINs) < 0x100 && Count(es, DigOUTs) < 0x100 && Count(es, OwTs) < 0x100 && Count(es, Pwm16s) < 0x100
    && IsByte(SumSizes(l.mobs)) && l.inputs < 0x100 && |l.mobs| < 0x100
  }

  /** The upload of a node completes. */
  ghost predicate Uploads(l: Layout, es: seq<Entry>) {
    && CountsFit(l, es) && |l.mobs| <= SVC_TX
    && forall i :: 0 <= i < |l.mobs| ==> Packable(i, l.mobs[i])
  }

  /** The numbers that go out first, in their order. */
  function Numbers(l: Layout, es: seq<Entry>): seq<int> {
    [Count(es, DigINs), Count(es, DigOUTs), Count(es, OwTs), SumSizes(l.mobs), l.inputs, |l.mobs|, Count(es, Pwm16s)]
  }

  /** A message object as it goes out: index, slice end, and the id, low byte first. */
  function Message(k: nat, m: Mob): seq<int> { [k, m.start + m.size, m.id % 256, m.id / 256] }

  ghost predicate AllBytes(ns: seq<int>) { forall i :: 0 <= i < |ns| ==> 0 <= ns[i] < 256 }

  /** So an upload completes exactly if there are at most 12 message objects, and every number
      that goes out is a byte. */
  lemma UploadsBytes(l: Layout, es: seq<Entry>)
    ensures Uploads(l, es) <==>
            && |l.mobs| <= 12 && AllBytes(Numbers(l, es))
            && forall k :: 0 <= k < |l.mobs| ==> AllBytes(Message(k, l.mobs[k]))
  {
    forall k | 0 <= k < |l.mobs| ensures Packable(k, l.mobs[k]) <==> AllBytes(Message(k, l.mobs[k])) {
      MessageBytes(k, l.mobs[k]);
    }
    CountsBytes(l, es);
    hide CountsFit, Packable, AllBytes, Numbers;
  }

  lemma CountsBytes(l: Layout, es: seq<Entry>)
    ensures CountsFit(l, es) <==> AllBytes(Numbers(l, es))
  {
    var ns := Numbers(l, es);
    if AllBytes(ns) {
      assert ns[0] < 256 && ns[1] < 256 && ns[2] < 256 && 0 <= ns[3] < 256 && ns[4] < 256 && ns[5] < 256 && ns[6] < 256;
    }
    hide Count, SumSizes;
  }

  lemma MessageBytes(k: nat, m: Mob)
    ensures Packable(k, m) <==> AllBytes(Message(k, m))
  {
    var ns := Message(k, m);
    if AllBytes(ns) {
      assert 0 <= ns[1] < 256 && ns[0] < 256 && ns[3] < 256;
    }
  }

  /** Counts go to the node first, and at the end index, slice end and CAN id of each message
      object. The upload fails when a number is too large for its field; and when the id of the
      object that answers is overwritten, because the answer then does not come. */
  method UploadNode(l: Layout, es: seq<Entry>) returns (r: Result<seq<Byte>>)
    ensures r.Ok? <==> Uploads(l, es)
    ensures r.Ok? ==> Uploaded(r.value, l.mobs)
  {
    if !CountsFit(l, es) {
      return Error;
    }
    var ends: seq<Byte>, answers := [], true;
    for k := 0 to |l.mobs|
      invariant |ends| == k && answers == (k <= SVC_TX)
      invariant forall i :: 0 <= i < k ==> Packable(i, l.mobs[i]) && ends[i] == l.mobs[i].start + l.mobs[i].size
      invariant k <= SVC_TX
    {
      if !Packable(k, l.mobs[k]) {
        return Error;
      }
      ends := ends + [l.mobs[k].start + l.mobs[k].size];
      if k == SVC_TX {
        answers := false;
      }
      if !answers {
        return Error;
      }
    }
    return Ok(ends);
  }

  /** Where the node begins slice i, and how long it takes it to be in byte arithmetic. */
  function Begin(ends: seq<Byte>, i: int): Byte
    requires 0 <= i < |ends|
  {
    if i > 0 then ends[i - 1] else 0
  }

  function SliceSize(ends: seq<Byte>, i: int): Byte
    requires 0 <= i < |ends|
  {
    (ends[i] - Begin(ends, i)) % 0x100
  }

  ghost predicate Uploaded(ends: seq<Byte>, mobs: seq<Mob>) {
    |ends| == |mobs| && forall i :: 0 <= i < |mobs| ==> ends[i] == mobs[i].start + mobs[i].size
  }

  /** The slices the node reconstructs are those of the allocator. */
  ghost predicate SliceIs(ends: seq<Byte>, i: int, m: Mob)
    requires 0 <= i < |ends|
  {
    0 <= m.size <= 8 && Begin(ends, i) == m.start && ends[i] == m.start + m.size
  }

  ghost predicate Slices(ends: seq<Byte>, mobs: seq<Mob>) {
    |ends| == |mobs| && forall i :: 0 <= i < |ends| ==> SliceIs(ends, i, mobs[i])
  }

  lemma SlicesAreMobs(l: Layout, es: seq<Entry>, ends: seq<Byte>)
    requires Packs(l, es) && Uploaded(ends, l.mobs)
    ensures Slices(ends, l.mobs)
    ensures forall i :: 0 <= i < |ends| ==> SliceSize(ends, i) == l.mobs[i].size
  {
    hide Serves, ItemsOf;
    forall i | 0 <= i < |l.mobs|
      ensures SliceIs(ends, i, l.mobs[i]) && SliceSize(ends, i) == l.mobs[i].size
    {
      assert LeastBytes(ItemsOf(es, l.mobs[i].id), l.mobs[i].size);
      assert l.mobs[i].start == if i == 0 then 0 else l.mobs[i - 1].start + l.mobs[i - 1].size;
      if i > 0 {
        assert ends[i - 1] == l.mobs[i - 1].start + l.mobs[i - 1].size;
      }
    }
  }

  /** They partition the image: every byte lies in exactly one slice. */
  lemma SlicesPartition(ends: seq<Byte>, mobs: seq<Mob>, b: int)
    requires Slices(ends, mobs) && 0 <= b < Total(mobs)
    ensures exists i :: 0 <= i < |ends| && Begin(ends, i) <= b < ends[i]
    ensures forall i, j :: (0 <= i < j < |ends| && Begin(ends, i) <= b < ends[i]) ==> b < Begin(ends, j)
  {
    var k := 0;
    while ends[k] <= b
      invariant 0 <= k < |ends| && Begin(ends, k) <= b
      decreases |ends| - k
    {
      k := k + 1;
    }
    assert Begin(ends, k) <= b < ends[k];
    forall i, j | 0 <= i < j < |ends| && Begin(ends, i) <= b < ends[i] ensures b < Begin(ends, j) {
      EndsGrow(ends, mobs, i, j - 1);
    }
  }

  lemma {:induction false} EndsGrow(ends: seq<Byte>, mobs: seq<Mob>, i: int, j: int)
    requires Slices(ends, mobs) && 0 <= i <= j < |ends|
    ensures ends[i] <= ends[j]
    decreases j
  {
    if i < j {
      EndsGrow(ends, mobs, i, j - 1);
      assert SliceIs(ends, j, mobs[j]);
    }
  }

  /** Bits of the image that an object of message object m takes. */
  function ImageBits(e: Entry, m: Mob): Span { Span(8 * m.start + e.Bits().start, e.Bits().len) }

  /** Every object lies in the slice of its message object. */
  lemma ObjectInSlice(l: Layout, es: seq<Entry>, ends: seq<Byte>, e: Entry, i: int)
    requires Sized(l.mobs, es) && Slices(ends, l.mobs) && Acceptable(es)
    requires e in es && 0 <= i < |l.mobs| && l.mobs[i].id == e.id
    ensures Begin(ends, i) <= e.FirstByte() + l.mobs[i].start
    ensures 8 * (Begin(ends, i) as int) <= ImageBits(e, l.mobs[i]).start
            && ImageBits(e, l.mobs[i]).End() <= 8 * (ends[i] as int)
  {
    ItemsOfAre(es, e.id, e.Bits());
    var items, size := ItemsOf(es, e.id), l.mobs[i].size;
    assert e.Bits() in items && LeastBytes(items, size) && Fits(items) && SliceIs(ends, i, l.mobs[i]);
    hide Acceptable, Sized, ItemsOf;
  }

  lemma {:induction false} EntriesApart(es: seq<Entry>, i: int, j: int)
    requires 0 <= i < j < |es| && es[i].id == es[j].id && Fits(ItemsOf(es, es[i].id))
    ensures es[i].Bits().Apart(es[j].Bits())
    decreases |es|
  {
    var id, rest := es[i].id, es[1..];
    if es[0].id == id {
      FitsCons(es[0].Bits(), ItemsOf(rest, id));
    } else {
      assert ItemsOf(es, id) == ItemsOf(rest, id);
    }
    if i == 0 {
      assert rest[j - 1] == es[j];
      ItemsOfAre(rest, id, es[j].Bits());
    } else {
      EntriesApart(rest, i - 1, j - 1);
    }
  }

  /** Objects of one message object. */
  lemma ApartInSlice(es: seq<Entry>, i: int, j: int, m: Mob)
    requires 0 <= i < j < |es| && es[i].id == es[j].id && Fits(ItemsOf(es, es[i].id))
    ensures ImageBits(es[i], m).Apart(ImageBits(es[j], m))
  {
    hide Fits, ItemsOf;
    EntriesApart(es, i, j);
  }

  /** Objects of different message objects, the earlier one first. */
  lemma ApartAcrossSlices(l: Layout, es: seq<Entry>, ends: seq<Byte>, e: Entry, f: Entry, i: int, j: int)
    requires Sized(l.mobs, es) && Slices(ends, l.mobs) && Acceptable(es) && e in es && f in es
    requires 0 <= i < j < |l.mobs| && l.mobs[i].id == e.id && l.mobs[j].id == f.id
    ensures ImageBits(e, l.mobs[i]).End() <= ImageBits(f, l.mobs[j]).start
  {
    hide *;
    SlicesCount(ends, l.mobs);
    BeginAt(ends, j);
    ObjectInSlice(l, es, ends, e, i);
    ObjectInSlice(l, es, ends, f, j);
    EndsGrow(ends, l.mobs, i, j - 1);
  }

  lemma SlicesCount(ends: seq<Byte>, mobs: seq<Mob>)
    requires Slices(ends, mobs)
    ensures |ends| == |mobs|
  {
  }

  lemma BeginAt(ends: seq<Byte>, i: int)
    requires 0 < i < |ends|
    ensures Begin(ends, i) == ends[i - 1]
  {
  }

  /** No two objects of a node share a bit of its image. */
  lemma ObjectsApart(l: Layout, es: seq<Entry>, ends: seq<Byte>, i: int, j: int, mi: int, mj: int)
    requires Sized(l.mobs, es) && Slices(ends, l.mobs) && Acceptable(es)
    requires 0 <= i < j < |es| && 0 <= mi < |l.mobs| && 0 <= mj < |l.mobs|
    requires l.mobs[mi].id == es[i].id && l.mobs[mj].id == es[j].id
    ensures ImageBits(es[i], l.mobs[mi]).Apart(ImageBits(es[j], l.mobs[mj]))
  {
    hide Acceptable, Sized, ItemsOf, Fits, Slices, ImageBits;
    var e, f := es[i], es[j];
    assert e in es && f in es;
    if mi == mj {
      AcceptedFits(es, e);
      ApartInSlice(es, i, j, l.mobs[mi]);
    } else if mi < mj {
      ApartAcrossSlices(l, es, ends, e, f, mi, mj);
    } else {
      ApartAcrossSlices(l, es, ends, f, e, mj, mi);
    }
  }

  lemma AcceptedFits(es: seq<Entry>, e: Entry)
    requires Acceptable(es) && e in es
    ensures Fits(ItemsOf(es, e.id))
  {
  }

  // ---------- the host's frames ----------

  /** How long the host makes the frame of a CAN id for the output objects it knows. */
  function HostLength(es: seq<Entry>, id: CanId): int {
    if es == [] then 0
    else
      var rest := HostLength(es[1..], id);
      if es[0].id != id || !es[0].IsInput() then rest
      else
        var need := es[0].FirstByte() + (if es[0].Pwm16? then 2 else 1);
        if rest < need then need else rest
  }

  /** The host and the node agree on the length of every frame the host sends. */
  lemma HostLengthIsSize(l: Layout, es: seq<Entry>, i: int)
    requires Packs(l, es) && Acceptable(es) && 0 <= i < l.inputs
    ensures HostLength(es, l.mobs[i].id) == l.mobs[i].size
  {
    var id := l.mobs[i].id;
    assert HasId(es, id, true);
    var e :| e in es && e.id == id && e.IsInput();
    assert Fits(ItemsOf(es, id));
    assert forall f :: f in es && f.id == id ==> f.IsInput();
    HostLengthCovers(es, id);
    ItemsOfAre(es, id, e.Bits());
    LeastBytesUnique(ItemsOf(es, id), HostLength(es, id), l.mobs[i].size);
  }

  lemma {:induction false} HostLengthCovers(es: seq<Entry>, id: CanId)
    requires forall f :: f in es && f.id == id ==> f.IsInput()
    requires Fits(ItemsOf(es, id))
    ensures LeastBytes(ItemsOf(es, id), HostLength(es, id))
  {
    if es != [] {
      var items, rest := ItemsOf(es, id), ItemsOf(es[1..], id);
      assert es == [es[0]] + es[1..];
      if es[0].id == id {
        assert es[0] in es;
        FitsCons(es[0].Bits(), rest);
        assert items == [es[0].Bits()] + rest && es[0].Bits() in items;
      } else {
        assert items == rest;
      }
      HostLengthCovers(es[1..], id);
      hide Fits;
      var n := HostLength(es[1..], id);
      assert forall x :: x in items <==> x in rest || (es[0].id == id && x == es[0].Bits());
    }
  }
}
