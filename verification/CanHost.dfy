/** The host's side of the CAN outputs: items write into frame buffers, a frame is sent when
    none is in flight, and the echo of the one in flight lets the next waiting one go.
  */
module CanHost {
  import opened Wrappers
  import opened CanLayout

  /** A byte as its bits, least significant first. */
  type Octet = b: seq<bool> | |b| == 8 witness [false, false, false, false, false, false, false, false]

  const ZERO: Octet := [false, false, false, false, false, false, false, false]

  type Data = d: seq<Octet> | |d| == 8 witness [ZERO, ZERO, ZERO, ZERO, ZERO, ZERO, ZERO, ZERO]

  type Dlc = n: int | 0 <= n <= 8

  datatype Frame = Frame(id: CanId, dlc: Dlc, data: Data)

  /** The comparison of frames: bytes beyond the length do not count. */
  predicate Same(a: Frame, b: Frame) {
    a.id == b.id && a.dlc == b.dlc && a.data[..a.dlc] == b.data[..b.dlc]
  }

  // ---------- items in frame bytes ----------

  /** Where an item is: one bit of a byte, or a 16-bit word, low byte first. */
  datatype Loc = Bit(offset: int, bit: BitIdx) | Word(offset: int) {
    function Bytes(): int { if Bit? then 1 else 2 }
    predicate Within(n: int) { 0 <= offset && offset + Bytes() <= n }
    function Bits(): Span { if Bit? then Span(8 * offset + bit, 1) else Span(8 * offset, 16) }
  }

  /** The bits of an item's value: one for a switch, sixteen for a PWM width. */
  type Value = seq<bool>

  predicate Suits(v: Value, l: Loc) { |v| == if l.Bit? then 1 else 16 }

  function Get(d: seq<Octet>, l: Loc): Value
    requires l.Within(|d|)
  {
    if l.Bit? then [d[l.offset][l.bit]] else d[l.offset][..] + d[l.offset + 1][..]
  }

  function Put(d: Data, l: Loc, v: Value): Data
    requires l.Within(8) && Suits(v, l)
  {
    if l.Bit? then d[l.offset := d[l.offset][l.bit := v[0]]]
    else d[l.offset := v[..8]][l.offset + 1 := v[8..]]
  }

  /** A written item reads back. */
  lemma PutGet(d: Data, l: Loc, v: Value)
    requires l.Within(8) && Suits(v, l)
    ensures Get(Put(d, l, v), l) == v
  {
  }

  /** Bit k of an item, lowest first, goes to bit k of its place in the frame, counted from bit
      0 of byte 0. */
  lemma PutBits(d: Data, l: Loc, v: Value, k: nat)
    requires l.Within(8) && Suits(v, l) && k < |v|
    ensures var at := l.Bits().start + k; Put(d, l, v)[at / 8][at % 8] == v[k]
  {
    var at := l.Bits().start + k;
    if l.Word? {
      assert at / 8 == l.offset + k / 8 && at % 8 == k % 8;
    } else {
      assert at / 8 == l.offset && at % 8 == l.bit;
    }
  }

  /** Every item apart from a written one is undisturbed. */
  lemma PutApart(d: Data, l: Loc, v: Value, m: Loc)
    requires l.Within(8) && m.Within(8) && Suits(v, l) && l.Bits().Apart(m.Bits())
    ensures Get(Put(d, l, v), m) == Get(d, m)
  {
    var d' := Put(d, l, v);
    if l.Bit? {
      assert d' == d[l.offset := d[l.offset][l.bit := v[0]]];
      hide Put;
      if m.Bit? {
        assert d'[m.offset][m.bit] == d[m.offset][m.bit];
      } else {
        assert l.offset < m.offset || l.offset > m.offset + 1;
      }
    } else {
      assert m.offset + m.Bytes() <= l.offset || l.offset + 1 < m.offset;
      assert forall o :: 0 <= o < 8 && o != l.offset && o != l.offset + 1 ==> d'[o] == d[o];
      hide Put;
    }
  }

  // ---------- the state ----------

  datatype OutputMsg = OutputMsg(needUpdate: bool, frame: Frame)

  /** A switch or PWM output: its frame, its place there and its last value. */
  datatype Item = Item(idx: nat, loc: Loc, value: Value)

  datatype Host = Host(outputs: seq<OutputMsg>, items: seq<Item>, pending: bool, frameWr: Frame)

  /** One object for each CAN id. */
  ghost predicate Distinct(outputs: seq<OutputMsg>) {
    forall i, j :: 0 <= i < j < |outputs| ==> outputs[i].frame.id != outputs[j].frame.id
  }

  ghost predicate Wired(h: Host) {
    && Distinct(h.outputs)
    && (forall k :: 0 <= k < |h.items| ==> ItemFits(h, k))
    && (forall k, m :: 0 <= k < m < |h.items| && h.items[k].idx == h.items[m].idx ==>
          h.items[k].loc.Bits().Apart(h.items[m].loc.Bits()))
  }

  ghost predicate ItemFits(h: Host, k: int)
    requires 0 <= k < |h.items|
  {
    var x := h.items[k];
    x.idx < |h.outputs| && x.loc.Within(h.outputs[x.idx].frame.dlc) && Suits(x.value, x.loc)
  }

  // ---------- one step, as functions ----------

  function Send(h: Host, f: Frame): (Host, seq<Frame>) {
    if h.pending then (h, []) else (h.(pending := true, frameWr := f), [f])
  }

  /** Object i after an attempt to send it. */
  function Offer(h: Host, i: nat): (Host, seq<Frame>)
    requires i < |h.outputs|
  {
    var (h', sent) := Send(h, h.outputs[i].frame);
    (h'.(outputs := h'.outputs[i := h'.outputs[i].(needUpdate := sent == [])]), sent)
  }

  function Update(h: Host, k: nat): (Host, seq<Frame>)
    requires k < |h.items| && ItemFits(h, k)
  {
    var x := h.items[k];
    var f := h.outputs[x.idx].frame;
    var f' := f.(data := Put(f.data, x.loc, x.value));
    Offer(h.(outputs := h.outputs[x.idx := OutputMsg(true, f')]), x.idx)
  }

  /** An item is set; nothing happens when it already has the value. */
  function Set(h: Host, k: nat, v: Value): (Host, seq<Frame>)
    requires k < |h.items| && ItemFits(h, k) && Suits(v, h.items[k].loc)
  {
    if v == h.items[k].value then (h, [])
    else Update(h.(items := h.items[k := h.items[k].(value := v)]), k)
  }

  /** The waiting objects from i on, in order, until one cannot be sent. */
  function WriteReady(h: Host, i: nat): (Host, seq<Frame>)
    requires i <= |h.outputs|
    decreases |h.outputs| - i
  {
    if i == |h.outputs| then (h, [])
    else if !h.outputs[i].needUpdate then WriteReady(h, i + 1)
    else if h.pending then (h, [])
    else
      var (h1, sent) := Offer(h, i);
      var (h2, more) := WriteReady(h1, i + 1);
      (h2, sent + more)
  }

  /** A frame read from the bus. */
  function Read(h: Host, f: Frame): (Host, seq<Frame>) {
    if h.pending && Same(f, h.frameWr) then WriteReady(h.(pending := false), 0) else (h, [])
  }

  // ---------- the objects as they run ----------

  class OutputControl {
    var outputs: seq<OutputMsg>
    var items: seq<Item>
    var pending: bool
    var frameWr: Frame

    ghost function View(): Host
      reads this
    {
      Host(outputs, items, pending, frameWr)
    }

    method BusSend(f: Frame) returns (accepted: bool, sent: seq<Frame>)
      modifies `pending, `frameWr
      ensures (View(), sent) == Send(old(View()), f) && accepted == (sent != [])
    {
      if !pending {
        pending := true;
        frameWr := f;
        return true, [f];
      }
      return false, [];
    }

    method UpdateItem(k: nat) returns (sent: seq<Frame>)
      requires k < |items| && ItemFits(View(), k)
      modifies this
      ensures (View(), sent) == Update(old(View()), k)
    {
      var idx := items[k].idx;
      var f := outputs[idx].frame;
      outputs := outputs[idx := OutputMsg(true, f.(data := Put(f.data, items[k].loc, items[k].value)))];
      var accepted;
      accepted, sent := BusSend(outputs[idx].frame);
      outputs := outputs[idx := outputs[idx].(needUpdate := !accepted)];
    }

    method SetItem(k: nat, v: Value) returns (sent: seq<Frame>)
      requires k < |items| && ItemFits(View(), k) && Suits(v, items[k].loc)
      modifies this
      ensures (View(), sent) == Set(old(View()), k, v)
    {
      sent := [];
      if v != items[k].value {
        items := items[k := items[k].(value := v)];
        sent := UpdateItem(k);
      }
    }

    method OnWriteReady() returns (sent: seq<Frame>)
      modifies this
      ensures (View(), sent) == WriteReady(old(View()), 0)
    {
      sent := [];
      var i := 0;
      while i < |outputs|
        invariant 0 <= i <= |outputs| == |old(outputs)|
        invariant WriteReady(old(View()), 0).0 == WriteReady(View(), i).0
        invariant WriteReady(old(View()), 0).1 == sent + WriteReady(View(), i).1
      {
        if outputs[i].needUpdate {
          var accepted, f := BusSend(outputs[i].frame);
          if !accepted {
            assert sent + [] == sent;
            return;
          }
          outputs := outputs[i := outputs[i].(needUpdate := false)];
          sent := sent + f;
        }
        i := i + 1;
      }
      assert sent + [] == sent;
    }

    method OnRead(f: Frame) returns (sent: seq<Frame>)
      modifies this
      ensures (View(), sent) == Read(old(View()), f)
    {
      sent := [];
      if pending && Same(f, frameWr) {
        pending := false;
        sent := OnWriteReady();
      }
    }
  }

  // ---------- no update is lost ----------

  /** The latest frame sent with an id. */
  function LastOf(sent: seq<Frame>, id: CanId): Option<Frame> {
    if sent == [] then None
    else if sent[|sent| - 1].id == id then Some(sent[|sent| - 1])
    else LastOf(sent[..|sent| - 1], id)
  }

  lemma LastOfAppend(sent: seq<Frame>, f: Frame, id: CanId)
    ensures LastOf(sent + [f], id) == if f.id == id then Some(f) else LastOf(sent, id)
  {
  }

  /** If object i waits for nothing, what was last sent of it is what it holds now. */
  ghost predicate Current(h: Host, sent: seq<Frame>, i: nat)
    requires i < |h.outputs|
  {
    h.outputs[i].needUpdate || LastOf(sent, h.outputs[i].frame.id) == Some(h.outputs[i].frame)
  }

  /** Every waiting object has a frame in flight ahead of it; every object in touched (the
      ones ever updated) that does not wait is current. */
  ghost predicate NoneLost(h: Host, sent: seq<Frame>, touched: set<nat>) {
    && (forall i :: 0 <= i < |h.outputs| && h.outputs[i].needUpdate ==> h.pending)
    && (forall i :: i in touched && i < |h.outputs| ==> Current(h, sent, i))
  }

  lemma OfferKeeps(h: Host, sent: seq<Frame>, touched: set<nat>, i: nat)
    requires Distinct(h.outputs) && i < |h.outputs| && h.outputs[i].needUpdate
    requires forall j :: j in touched && j != i && j < |h.outputs| ==> Current(h, sent, j)
    ensures var (h', f) := Offer(h, i);
            && Distinct(h'.outputs) && |h'.outputs| == |h.outputs| && h'.items == h.items && h'.pending
            && (forall j :: j in touched + {i} && j < |h.outputs| ==> Current(h', sent + f, j))
            && (forall j :: 0 <= j < |h.outputs| ==> h'.outputs[j].frame == h.outputs[j].frame)
            && (forall j :: 0 <= j < |h.outputs| && j != i ==> h'.outputs[j] == h.outputs[j])
  {
    var (h', f) := Offer(h, i);
    assert sent + [] == sent;
    forall j | j in touched + {i} && 0 <= j < |h.outputs| ensures Current(h', sent + f, j) {
      if f != [] {
        LastOfAppend(sent, f[0], h.outputs[j].frame.id);
      }
    }
  }

  lemma {:induction false} WriteReadyKeeps(h: Host, sent: seq<Frame>, touched: set<nat>, i: nat)
    requires Distinct(h.outputs) && i <= |h.outputs|
    requires forall j :: 0 <= j < |h.outputs| && h.outputs[j].needUpdate ==> h.pending || j >= i
    requires forall j :: j in touched && j < |h.outputs| ==> Current(h, sent, j)
    ensures var (h', f) := WriteReady(h, i);
            && NoneLost(h', sent + f, touched) && Distinct(h'.outputs)
            && |h'.outputs| == |h.outputs| && h'.items == h.items
            && (forall j :: 0 <= j < |h.outputs| ==> h'.outputs[j].frame == h.outputs[j].frame)
    decreases |h.outputs| - i
  {
    assert sent + [] == sent;
    if i < |h.outputs| && h.outputs[i].needUpdate && !h.pending {
      var (h1, f) := Offer(h, i);
      OfferKeeps(h, sent, touched, i);
      WriteReadyKeeps(h1, sent + f, touched, i + 1);
      var (h2, more) := WriteReady(h1, i + 1);
      assert sent + f + more == sent + (f + more);
    } else if i < |h.outputs| && !h.outputs[i].needUpdate {
      WriteReadyKeeps(h, sent, touched, i + 1);
    }
  }

  /** The items written so far, and their last values where they belong. */
  ghost predicate ValuesHeld(h: Host, written: set<nat>) {
    forall k :: k in written ==>
      k < |h.items| && ItemFits(h, k)
      && Get(h.outputs[h.items[k].idx].frame.data, h.items[k].loc) == h.items[k].value
  }

  ghost function Touched(h: Host, written: set<nat>): set<nat> {
    set k | k in written && k < |h.items| :: h.items[k].idx
  }

  ghost predicate Good(h: Host, sent: seq<Frame>, written: set<nat>) {
    Wired(h) && NoneLost(h, sent, Touched(h, written)) && ValuesHeld(h, written)
  }

  // ---------- runs ----------

  datatype Event = Assign(k: nat, v: Value) | Received(f: Frame)

  ghost predicate Allowed(h: Host, e: Event) {
    e.Assign? ==> e.k < |h.items| && ItemFits(h, e.k) && Suits(e.v, h.items[e.k].loc)
  }

  function Step(h: Host, e: Event): (Host, seq<Frame>)
    requires Allowed(h, e)
  {
    match e
    case Assign(k, v) => Set(h, k, v)
    case Received(f) => Read(h, f)
  }

  ghost function Writes(h: Host, e: Event): set<nat>
    requires Allowed(h, e)
  {
    if e.Assign? && e.v != h.items[e.k].value then {e.k} else {}
  }

  /** An item written into its object before the attempt to send. */
  function Noted(h: Host, k: nat, v: Value): Host
    requires k < |h.items| && ItemFits(h, k) && Suits(v, h.items[k].loc)
  {
    var x := h.items[k];
    var f := h.outputs[x.idx].frame;
    h.(items := h.items[k := x.(value := v)],
       outputs := h.outputs[x.idx := OutputMsg(true, f.(data := Put(f.data, x.loc, v)))])
  }

  lemma NotedHolds(h: Host, written: set<nat>, k: nat, v: Value)
    requires Wired(h) && ValuesHeld(h, written) && Allowed(h, Assign(k, v))
    ensures Wired(Noted(h, k, v)) && ValuesHeld(Noted(h, k, v), written + {k})
  {
    var x, h' := h.items[k], Noted(h, k, v);
    var f := h.outputs[x.idx].frame;
    forall m | 0 <= m < |h.items| ensures ItemFits(h', m) {
      assert ItemFits(h, m);
    }
    forall m | m in written + {k}
      ensures Get(h'.outputs[h'.items[m].idx].frame.data, h'.items[m].loc) == h'.items[m].value
    {
      assert ItemFits(h, m);
      if m == k {
        PutGet(f.data, x.loc, v);
      } else if h.items[m].idx == x.idx {
        PutApart(f.data, x.loc, v, h.items[m].loc);
      }
    }
    hide Put, Get;
  }

  /** Only flags and what is in flight may differ. */
  ghost predicate SameContents(h: Host, g: Host) {
    && h.items == g.items && |h.outputs| == |g.outputs|
    && forall j :: 0 <= j < |h.outputs| ==> h.outputs[j].frame == g.outputs[j].frame
  }

  lemma SameContentsHold(h: Host, g: Host, written: set<nat>)
    requires Wired(h) && ValuesHeld(h, written) && SameContents(h, g)
    ensures Wired(g) && ValuesHeld(g, written)
  {
    forall m | 0 <= m < |g.items| ensures ItemFits(g, m) {
      assert ItemFits(h, m);
    }
    hide Get;
  }

  lemma SetKeeps(h: Host, sent: seq<Frame>, written: set<nat>, k: nat, v: Value)
    requires Good(h, sent, written) && Allowed(h, Assign(k, v)) && v != h.items[k].value
    ensures var (h', f) := Set(h, k, v); Good(h', sent + f, written + {k})
  {
    var idx, n := h.items[k].idx, Noted(h, k, v);
    var (h', f) := Offer(n, idx);
    assert Set(h, k, v) == (h', f);
    NotedHolds(h, written, k, v);
    OfferKeeps(n, sent, Touched(h, written), idx);
    assert Touched(h', written + {k}) == Touched(h, written) + {idx};
    hide Offer, LastOf, Noted;
    SameContentsHold(n, h', written + {k});
  }

  lemma ReadKeeps(h: Host, sent: seq<Frame>, written: set<nat>, g: Frame)
    requires Good(h, sent, written)
    ensures var (h', f) := Read(h, g); Good(h', sent + f, written)
  {
    assert sent + [] == sent;
    if h.pending && Same(g, h.frameWr) {
      WriteReadyKeeps(h.(pending := false), sent, Touched(h, written), 0);
      var (h', f) := WriteReady(h.(pending := false), 0);
      assert Touched(h', written) == Touched(h, written);
      hide WriteReady, LastOf;
      SameContentsHold(h, h', written);
    }
  }

  ghost predicate IsRun(h: Host, es: seq<Event>)
    decreases |es|
  {
    es == [] || (Allowed(h, es[0]) && IsRun(Step(h, es[0]).0, es[1..]))
  }

  /** The final state, the frames sent and the items written. */
  ghost function Run(h: Host, es: seq<Event>): (Host, seq<Frame>, set<nat>)
    requires IsRun(h, es)
    decreases |es|
  {
    if es == [] then (h, [], {})
    else
      var (h1, f) := Step(h, es[0]);
      var (h2, more, w) := Run(h1, es[1..]);
      (h2, f + more, Writes(h, es[0]) + w)
  }

  lemma StepKeeps(h: Host, sent: seq<Frame>, written: set<nat>, e: Event)
    requires Good(h, sent, written) && Allowed(h, e)
    ensures var (h', f) := Step(h, e); Good(h', sent + f, written + Writes(h, e))
  {
    assert sent + [] == sent && written + {} == written;
    if e.Assign? && e.v != h.items[e.k].value {
      SetKeeps(h, sent, written, e.k, e.v);
    } else if e.Received? {
      ReadKeeps(h, sent, written, e.f);
    }
    hide Good, Update, WriteReady;
  }

  lemma {:induction false} RunKeeps(h: Host, sent: seq<Frame>, written: set<nat>, es: seq<Event>)
    requires Good(h, sent, written) && IsRun(h, es)
    ensures var (h', f, w) := Run(h, es); Good(h', sent + f, written + w)
    decreases |es|
  {
    hide Good, Step, Allowed, Writes;
    if es == [] {
      assert sent + [] == sent && written + {} == written;
    } else {
      var (h1, f) := Step(h, es[0]);
      var w1 := Writes(h, es[0]);
      StepKeeps(h, sent, written, es[0]);
      RunKeeps(h1, sent + f, written + w1, es[1..]);
      var (h2, more, w) := Run(h1, es[1..]);
      assert sent + f + more == sent + (f + more) && written + w1 + w == written + (w1 + w);
    }
  }

  /** A host as built: nothing sent, nothing in flight, nothing waiting. */
  ghost predicate Fresh(h: Host) {
    Wired(h) && !h.pending && forall i :: 0 <= i < |h.outputs| ==> !h.outputs[i].needUpdate
  }

  /** No update is lost, whatever is written and whatever is received: in every reachable
      state an object waits only behind a frame in flight, every object ever updated that
      does not wait was last sent with its present contents, and each item written holds
      its last value there, whatever was written to the others. */
  lemma NoUpdateLost(h: Host, es: seq<Event>)
    requires Fresh(h) && IsRun(h, es)
    ensures var (h', sent, written) := Run(h, es);
            && (forall i :: 0 <= i < |h'.outputs| && h'.outputs[i].needUpdate ==> h'.pending)
            && ValuesHeld(h', written)
            && forall k :: k in written ==>
                 Current(h', sent, h'.items[k].idx)
  {
    var (h', sent, written) := Run(h, es);
    assert [] + sent == sent && {} + written == written;
    RunKeeps(h, [], {}, es);
    forall k | k in written ensures Current(h', sent, h'.items[k].idx) {
      assert ItemFits(h', k);
      assert h'.items[k].idx in Touched(h', written);
    }
    hide IsRun, Run, Get;
  }

  // ---------- the queue drains ----------

  function Waiting(h: Host, i: nat): nat
    requires i <= |h.outputs|
    decreases |h.outputs| - i
  {
    if i == |h.outputs| then 0 else (if h.outputs[i].needUpdate then 1 else 0) + Waiting(h, i + 1)
  }

  lemma {:induction false} WaitingSame(h: Host, g: Host, i: nat)
    requires i <= |h.outputs| == |g.outputs|
    requires forall j :: i <= j < |h.outputs| ==> h.outputs[j].needUpdate == g.outputs[j].needUpdate
    ensures Waiting(h, i) == Waiting(g, i)
    decreases |h.outputs| - i
  {
    if i < |h.outputs| {
      WaitingSame(h, g, i + 1);
    }
  }

  lemma {:induction false} WriteReadyBusy(h: Host, i: nat)
    requires i <= |h.outputs| && h.pending
    ensures WriteReady(h, i) == (h, [])
    decreases |h.outputs| - i
  {
    if i < |h.outputs| {
      WriteReadyBusy(h, i + 1);
    }
  }

  /** The first of the objects from i on that wait is sent, and nothing else changes. */
  ghost predicate SendsFirst(h: Host, i: nat, h': Host, sent: seq<Frame>) {
    exists k :: i <= k < |h.outputs| && h.outputs[k].needUpdate && (forall j :: i <= j < k ==> !h.outputs[j].needUpdate)
                && SendsAt(h, k, h', sent)
  }

  ghost predicate SendsAt(h: Host, k: nat, h': Host, sent: seq<Frame>)
    requires k < |h.outputs|
  {
    var f := h.outputs[k].frame;
    sent == [f] && h' == h.(outputs := h.outputs[k := OutputMsg(false, f)], pending := true, frameWr := f)
  }

  lemma {:induction false} WriteReadySends(h: Host, i: nat)
    requires i <= |h.outputs| && !h.pending
    ensures var (h', f) := WriteReady(h, i);
            && |h'.outputs| == |h.outputs| && (forall j :: 0 <= j < i ==> h'.outputs[j] == h.outputs[j])
            && (if Waiting(h, i) == 0 then h' == h && f == []
                else Waiting(h', i) == Waiting(h, i) - 1 && SendsFirst(h, i, h', f))
    decreases |h.outputs| - i
  {
    if i < |h.outputs| {
      if h.outputs[i].needUpdate {
        var (h1, f) := Offer(h, i);
        WriteReadyBusy(h1, i + 1);
        WaitingSame(h, h1, i + 1);
      } else {
        WriteReadySends(h, i + 1);
      }
    }
  }

  /** The same id and length, and every byte below the length. */
  ghost predicate Alike(f: Frame, g: Frame) {
    f.id == g.id && f.dlc == g.dlc && forall b :: 0 <= b < f.dlc ==> f.data[b] == g.data[b]
  }

  /** Progress: with no new update, each echo of the frame in flight takes one object off
      those waiting, and the last one leaves nothing in flight. Other frames change nothing
      and send nothing. */
  lemma EchoReduces(h: Host, f: Frame)
    ensures var (h', sent) := Read(h, f);
            if !h.pending || !Alike(f, h.frameWr) then h' == h && sent == []
            else if Waiting(h, 0) == 0 then !h'.pending && Waiting(h', 0) == 0 && sent == []
            else h'.pending && Waiting(h', 0) == Waiting(h, 0) - 1 && SendsFirst(h, 0, h', sent)
  {
    SameIsAlike(f, h.frameWr);
    if h.pending && Same(f, h.frameWr) {
      WaitingSame(h, h.(pending := false), 0);
      WriteReadySends(h.(pending := false), 0);
    }
  }

  lemma SameIsAlike(f: Frame, g: Frame)
    ensures Same(f, g) <==> Alike(f, g)
  {
    if Same(f, g) {
      forall b | 0 <= b < f.dlc ensures f.data[b] == g.data[b] {
        assert f.data[..f.dlc][b] == g.data[..g.dlc][b];
      }
    }
  }

  /** The bus echoes whatever is in flight until nothing is. */
  function Drain(h: Host): (Host, seq<Frame>)
    decreases Waiting(h, 0), h.pending
  {
    if !h.pending then (h, [])
    else
      EchoReduces(h, h.frameWr);
      var (h1, f) := Read(h, h.frameWr);
      var (h2, more) := Drain(h1);
      (h2, f + more)
  }

  lemma {:induction false} DrainEnds(h: Host)
    requires forall i :: 0 <= i < |h.outputs| && h.outputs[i].needUpdate ==> h.pending
    requires Distinct(h.outputs)
    ensures var (h', f) := Drain(h);
            && !h'.pending && (forall i :: 0 <= i < |h'.outputs| ==> !h'.outputs[i].needUpdate)
            && |f| == Waiting(h, 0)
    decreases Waiting(h, 0), h.pending
  {
    if h.pending {
      EchoReduces(h, h.frameWr);
      WriteReadyKeeps(h.(pending := false), [], {}, 0);
      WaitingSame(h, h.(pending := false), 0);
      WriteReadySends(h.(pending := false), 0);
      DrainEnds(Read(h, h.frameWr).0);
    } else {
      NoneWaiting(h, 0);
    }
  }

  lemma {:induction false} NoneWaiting(h: Host, i: nat)
    requires i <= |h.outputs| && forall j :: i <= j < |h.outputs| ==> !h.outputs[j].needUpdate
    ensures Waiting(h, i) == 0
    decreases |h.outputs| - i
  {
    if i < |h.outputs| {
      NoneWaiting(h, i + 1);
    }
  }

  // ---------- at most one frame in flight ----------

  /** What the host sees and does: an item is set, the bus brings back the next of the host's
      own frames, or a frame of another node. */
  datatype Traffic = Assigned(k: nat, v: Value) | Echo(f: Frame) | Foreign(f: Frame)

  function EventOf(t: Traffic): Event { if t.Assigned? then Assign(t.k, t.v) else Received(t.f) }

  /** Echoes come in the order of sending, and no frame of another node is like one of the
      host's that has not come back yet. */
  ghost predicate InOrder(h: Host, ts: seq<Traffic>)
    decreases |ts|, 0
  {
    ts == []
    || (var m := |ts| - 1;
        InOrder(h, ts[..m])
        && var (h1, sent, echoes) := After(h, ts[..m]);
           Allowed(h1, EventOf(ts[m]))
           && (ts[m].Echo? ==> echoes < |sent| && Alike(ts[m].f, sent[echoes]))
           && (ts[m].Foreign? ==> forall i :: echoes <= i < |sent| ==> !Alike(ts[m].f, sent[i])))
  }

  /** The host, the frames it has sent, and how many of them have come back. */
  ghost function After(h: Host, ts: seq<Traffic>): (Host, seq<Frame>, nat)
    requires InOrder(h, ts)
    decreases |ts|, 1
  {
    if ts == [] then (h, [], 0)
    else
      var m := |ts| - 1;
      var (h1, sent, echoes) := After(h, ts[..m]);
      var (h2, f) := Step(h1, EventOf(ts[m]));
      (h2, sent + f, if ts[m].Echo? then echoes + 1 else echoes)
  }

  lemma SetSends(h: Host, k: nat, v: Value)
    requires Allowed(h, Assign(k, v))
    ensures var (h', sent) := Set(h, k, v);
            if h.pending || v == h.items[k].value then h'.pending == h.pending && h'.frameWr == h.frameWr && sent == []
            else h'.pending && sent == [h'.frameWr]
  {
  }

  /** At any time the host has sent at most one frame that has not come back, and has one in
      flight exactly while it thinks so: that frame. */
  lemma {:induction false} OneInFlight(h: Host, ts: seq<Traffic>)
    requires !h.pending && InOrder(h, ts)
    ensures var (h', sent, echoes) := After(h, ts);
            && echoes <= |sent| <= echoes + 1 && (h'.pending <==> |sent| == echoes + 1)
            && (h'.pending ==> h'.frameWr == sent[echoes])
    decreases |ts|
  {
    if ts != [] {
      var m := |ts| - 1;
      OneInFlight(h, ts[..m]);
      var (h1, sent, echoes) := After(h, ts[..m]);
      match ts[m] {
        case Assigned(k, v) => SetSends(h1, k, v);
        case Echo(f) => EchoReduces(h1, f);
        case Foreign(f) => EchoReduces(h1, f);
      }
      hide Set, Read, Waiting, Alike;
    }
  }
}
