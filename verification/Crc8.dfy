/** The 8-bit CRC of the 1-Wire and Sensirion buses, polynomial x^8 + x^5 + x^4 + 1,
    in each of the forms the firmware and the host use: a 256-entry table, a bitwise
    loop that takes the low bit first, and two loops that take the high bit first.

    All are compared with a shift register fed one bit at a time
    (Maxim Application Note 27).
  */
module Crc8 {
  import opened Folds

  type Byte = bv8

  /** Element k of sixteen. */
  function Pick(k: Byte, v0: Byte, v1: Byte, v2: Byte, v3: Byte, v4: Byte, v5: Byte, v6: Byte, v7: Byte,
                v8: Byte, v9: Byte, v10: Byte, v11: Byte, v12: Byte, v13: Byte, v14: Byte, v15: Byte): Byte
  {
    if k < 8 then
      if k < 4 then
        if k < 2 then (if k == 0 then v0 else v1) else if k == 2 then v2 else v3
      else
        if k < 6 then (if k == 4 then v4 else v5) else if k == 6 then v6 else v7
    else
      if k < 12 then
        if k < 10 then (if k == 8 then v8 else v9) else if k == 10 then v10 else v11
      else
        if k < 14 then (if k == 12 then v12 else v13) else if k == 14 then v14 else v15
  }

  /** Entry i of the 256-entry lookup table, sixteen entries to a row as in the sources. */
  function Lookup(i: Byte): Byte {
    if i >> 4 == 0 then Pick(i & 15, 0, 94, 188, 226, 97, 63, 221, 131, 194, 156, 126, 32, 163, 253, 31, 65)
    else if i >> 4 == 1 then Pick(i & 15, 157, 195, 33, 127, 252, 162, 64, 30, 95, 1, 227, 189, 62, 96, 130, 220)
    else if i >> 4 == 2 then Pick(i & 15, 35, 125, 159, 193, 66, 28, 254, 160, 225, 191, 93, 3, 128, 222, 60, 98)
    else if i >> 4 == 3 then Pick(i & 15, 190, 224, 2, 92, 223, 129, 99, 61, 124, 34, 192, 158, 29, 67, 161, 255)
    else if i >> 4 == 4 then Pick(i & 15, 70, 24, 250, 164, 39, 121, 155, 197, 132, 218, 56, 102, 229, 187, 89, 7)
    else if i >> 4 == 5 then Pick(i & 15, 219, 133, 103, 57, 186, 228, 6, 88, 25, 71, 165, 251, 120, 38, 196, 154)
    else if i >> 4 == 6 then Pick(i & 15, 101, 59, 217, 135, 4, 90, 184, 230, 167, 249, 27, 69, 198, 152, 122, 36)
    else if i >> 4 == 7 then Pick(i & 15, 248, 166, 68, 26, 153, 199, 37, 123, 58, 100, 134, 216, 91, 5, 231, 185)
    else if i >> 4 == 8 then Pick(i & 15, 140, 210, 48, 110, 237, 179, 81, 15, 78, 16, 242, 172, 47, 113, 147, 205)
    else if i >> 4 == 9 then Pick(i & 15, 17, 79, 173, 243, 112, 46, 204, 146, 211, 141, 111, 49, 178, 236, 14, 80)
    else if i >> 4 == 10 then Pick(i & 15, 175, 241, 19, 77, 206, 144, 114, 44, 109, 51, 209, 143, 12, 82, 176, 238)
    else if i >> 4 == 11 then Pick(i & 15, 50, 108, 142, 208, 83, 13, 239, 177, 240, 174, 76, 18, 145, 207, 45, 115)
    else if i >> 4 == 12 then Pick(i & 15, 202, 148, 118, 40, 171, 245, 23, 73, 8, 86, 180, 234, 105, 55, 213, 139)
    else if i >> 4 == 13 then Pick(i & 15, 87, 9, 235, 181, 54, 104, 138, 212, 149, 203, 41, 119, 244, 170, 72, 22)
    else if i >> 4 == 14 then Pick(i & 15, 233, 183, 85, 11, 136, 214, 52, 106, 43, 117, 151, 201, 74, 20, 246, 168)
    else Pick(i & 15, 116, 42, 200, 150, 21, 75, 169, 247, 182, 232, 10, 84, 215, 137, 107, 53)
  }

  // ---------- the reference: a shift register fed bit by bit ----------

  function Shift1(c: Byte): Byte { if c & 1 == 1 then (c >> 1) ^ 0x8C else c >> 1 }

  function Tap(b: bool): Byte { if b then 0x8C else 0 }

  /** One clock of the register with input bit b. */
  function Feed(c: Byte, b: bool): Byte { Shift1(c) ^ Tap(b) }

  function Shift8(c: Byte): Byte {
    Shift1(Shift1(Shift1(Shift1(Shift1(Shift1(Shift1(Shift1(c))))))))
  }

  /** The n lowest bits of p in the order the bus carries them: lowest first. */
  function LowBits(p: Byte, n: nat): (bits: seq<bool>)
    ensures |bits| == n
    decreases n
  {
    if n == 0 then [] else [p & 1 == 1] + LowBits(p >> 1, n - 1)
  }

  function ByteBits(b: Byte): seq<bool> { LowBits(b, 8) }

  function BitsOf(m: seq<Byte>): seq<bool> { FlatMap(ByteBits, m) }

  function BitCrc(bits: seq<bool>): Byte { Fold(Feed, 0, bits) }

  // ---------- the table form ----------

  function TableStep(crc: Byte, b: Byte): Byte { Lookup(crc ^ b) }

  /** The table CRC of m. */
  function Crc(m: seq<Byte>): Byte { Fold(TableStep, 0, m) }

  lemma LookupLow(i: Byte)
    requires i < 0x80
    ensures Lookup(i) == Shift8(i)
  {}

  lemma LookupHigh(i: Byte)
    requires i >= 0x80
    ensures Lookup(i) == Shift8(i)
  {}

  /** Every table entry is eight clocks of the register without input. */
  lemma LookupIsShift8(i: Byte)
    ensures Lookup(i) == Shift8(i)
  {
    hide *;
    if i < 0x80 { LookupLow(i); } else { LookupHigh(i); }
  }

  /** One clock: input bits still waiting in p may be added to the register ahead
      of time. */
  lemma FeedAhead(c: Byte, p: Byte)
    ensures Feed(c, p & 1 == 1) ^ (p >> 1) == Shift1(c ^ p)
  {}

  function Shift(c: Byte, n: nat): Byte
    decreases n
  {
    if n == 0 then c else Shift(Shift1(c), n - 1)
  }

  function Drop(p: Byte, n: nat): Byte
    decreases n
  {
    if n == 0 then p else Drop(p >> 1, n - 1)
  }

  lemma {:induction false} FeedLowBits(c: Byte, p: Byte, q: Byte, n: nat)
    requires q == c ^ p
    ensures Fold(Feed, c, LowBits(p, n)) ^ Drop(p, n) == Shift(q, n)
    decreases n
  {
    hide Feed, Shift1, LowBits, Fold;
    if n == 0 {
      FeedNothing(c, p);
    } else {
      FeedAhead(c, p);
      FeedLowest(c, p, n);
      FeedLowBits(Feed(c, p & 1 == 1), p >> 1, Shift1(q), n - 1);
    }
  }

  lemma FeedNothing(c: Byte, p: Byte)
    ensures Fold(Feed, c, LowBits(p, 0)) == c
  {}

  lemma FeedLowest(c: Byte, p: Byte, n: nat)
    requires n > 0
    ensures Fold(Feed, c, LowBits(p, n)) == Fold(Feed, Feed(c, p & 1 == 1), LowBits(p >> 1, n - 1))
  {
  }

  lemma FoldCons<S, T>(step: (S, T) -> S, s: S, x: T, xs: seq<T>)
    ensures Fold(step, s, [x] + xs) == Fold(step, step(s, x), xs)
  {}

  lemma DropEight(p: Byte)
    ensures Drop(p, 8) == 0
  {}

  lemma ShiftEight(c: Byte)
    ensures Shift(c, 8) == Shift8(c)
  {}

  lemma XorZero(a: Byte, b: Byte)
    ensures a ^ b == 0 <==> a == b
    ensures a ^ 0 == a && 0 ^ a == a
  {}

  lemma FeedEightBits(c: Byte, b: Byte)
    ensures Fold(Feed, c, LowBits(b, 8)) == Shift(c ^ b, 8)
  {
    FeedLowBits(c, b, c ^ b, 8);
    DropEight(b);
    XorZero(Fold(Feed, c, LowBits(b, 8)), 0);
  }

  lemma FeedByte(c: Byte, b: Byte)
    ensures Fold(Feed, c, ByteBits(b)) == TableStep(c, b)
  {
    FeedEightBits(c, b);
    ShiftEight(c ^ b);
    LookupIsShift8(c ^ b);
  }

  /** The table CRC of any message is the register run over its bits. */
  lemma TableIsBitwise(m: seq<Byte>)
    ensures Crc(m) == BitCrc(BitsOf(m))
  {
    forall c, b ensures TableStep(c, b) == Fold(Feed, c, ByteBits(b)) { FeedByte(c, b); }
    FoldRefined(TableStep, Feed, ByteBits, 0, m);
  }

  /** The host's running CRC over a buffer. */
  method CalcCrc(buf: seq<Byte>) returns (crc: Byte)
    ensures crc == Crc(buf)
  {
    hide Lookup;
    crc := 0;
    for i := 0 to |buf|
      invariant crc == Fold(TableStep, 0, buf[..i])
    {
      FoldNext(TableStep, 0, buf, i);
      crc := Lookup(crc ^ buf[i]);
    }
    FoldAll(TableStep, 0, buf);
  }

  /** The host's check of a buffer against the CRC byte that came with it. */
  method CheckCrc(buf: seq<Byte>, crc: Byte) returns (ok: bool)
    ensures ok <==> Crc(buf + [crc]) == 0
  {
    hide Lookup;
    var prev: Byte := 0;
    for i := 0 to |buf|
      invariant prev == Fold(TableStep, 0, buf[..i])
    {
      FoldNext(TableStep, 0, buf, i);
      prev := Lookup(prev ^ buf[i]);
    }
    FoldAll(TableStep, 0, buf);
    ok := prev == crc;
    assert ok <==> Crc(buf + [crc]) == 0 by { ResidueIffMatch(buf, crc); }
  }

  /** Bit i of c, cut out with a mask. */
  method MaskedBit(c: Byte, i: nat) returns (b: bv16)
    requires i < 8
    ensures b == if ByteBits(c)[i] then 1 else 0
  {
    LowBitsAt(c, 8, i);
    DropIsShift(c, i);
    MaskThenShift(c, i);
    b := ((c as bv16) & ((1 as bv16) << i)) >> i;
  }

  lemma {:induction false} LowBitsAt(p: Byte, n: nat, i: nat)
    requires i < n
    ensures LowBits(p, n)[i] == (Drop(p, i) & 1 == 1)
    decreases n
  {
    if i > 0 { LowBitsAt(p >> 1, n - 1, i - 1); }
  }

  lemma {:induction false} DropIsShift(p: Byte, i: nat)
    requires i < 8
    ensures Drop(p, i) == p >> i
    decreases i
  {
    if i > 0 {
      DropIsShift(p >> 1, i - 1);
      ShiftTwice(p, i - 1);
    }
  }

  lemma ShiftTwice(p: Byte, k: nat)
    requires k < 7
    ensures (p >> 1) >> k == p >> (k + 1)
  {}

  lemma MaskThenShift(c: Byte, i: nat)
    requires i < 8
    ensures ((c as bv16) & ((1 as bv16) << i)) >> i == (if (c >> i) & 1 == 1 then 1 else 0)
  {}

  /** The simulator's bitwise CRC. Its running value is a plain integer; the loop
      keeps it below 256. */
  method DallasCrc8(data: seq<Byte>) returns (result: Byte)
    ensures result == Crc(data)
  {
    var crc: bv16 := 0;
    for n := 0 to |data|
      invariant crc < 0x100
      invariant crc as Byte == Fold(TableStep, 0, data[..n])
    {
      FeedByte(crc as Byte, data[n]);
      crc := DallasByte(crc, data[n]);
      FoldNext(TableStep, 0, data, n);
    }
    FoldAll(TableStep, 0, data);
    result := crc as Byte;
  }

  method DallasByte(crc0: bv16, c: Byte) returns (crc: bv16)
    requires crc0 < 0x100
    ensures crc < 0x100 && crc as Byte == Fold(Feed, crc0 as Byte, ByteBits(c))
  {
    crc := crc0;
    ghost var start, bits := crc0 as Byte, ByteBits(c);
    for i := 0 to 8
      invariant crc < 0x100
      invariant crc as Byte == Fold(Feed, start, bits[..i])
    {
      crc := DallasBit(crc, c, i);
      FoldNext(Feed, start, bits, i);
    }
    FoldAll(Feed, start, bits);
  }

  method DallasBit(crc0: bv16, c: Byte, i: nat) returns (crc: bv16)
    requires crc0 < 0x100 && i < 8
    ensures crc < 0x100 && crc as Byte == Feed(crc0 as Byte, ByteBits(c)[i])
  {
    var bit := MaskedBit(c, i);
    var b := (crc0 & 1) ^ bit;
    DallasShift(crc0, ByteBits(c)[i]);
    crc := (crc0 ^ (b * 0x118)) >> 1;
  }

  lemma DallasShift(crc: bv16, bit: bool)
    requires crc < 0x100
    ensures var b: bv16 := (crc & 1) ^ (if bit then 1 else 0);
            var next := (crc ^ (b * 0x118)) >> 1;
            next < 0x100 && next as Byte == Feed(crc as Byte, bit)
  {}

  // ---------- what the CRC detects ----------

  function Add(a: Byte, b: Byte): Byte { a ^ b }

  lemma Shift1Linear(a: Byte, b: Byte)
    ensures Shift1(a ^ b) == Shift1(a) ^ Shift1(b)
  {}

  lemma TapLinear(a: bool, b: bool)
    ensures Tap(a != b) == Tap(a) ^ Tap(b)
  {}

  lemma XorSwap(l: Byte, a: Byte, b: Byte, r: Byte, p: Byte, q: Byte)
    requires l == a ^ b && r == p ^ q
    ensures l ^ r == (a ^ p) ^ (b ^ q)
  {}

  lemma FeedLinear(s: Byte, t: Byte, a: bool, b: bool)
    ensures Feed(s ^ t, a != b) == Feed(s, a) ^ Feed(t, b)
  {
    Shift1Linear(s, t);
    TapLinear(a, b);
    XorSwap(Shift1(s ^ t), Shift1(s), Shift1(t), Tap(a != b), Tap(a), Tap(b));
  }

  /** The CRC is linear: flipping the bits of e in x flips the bits of e's CRC. */
  lemma CrcLinear(x: seq<bool>, e: seq<bool>)
    requires |x| == |e|
    ensures BitCrc(XorBits(x, e)) == BitCrc(x) ^ BitCrc(e)
  {
    forall s, t, a, b ensures Feed(Add(s, t), a != b) == Add(Feed(s, a), Feed(t, b)) {
      FeedLinear(s, t, a, b);
    }
    FoldLinear(Feed, Add, 0, 0, x, e);
    XorZero(0, 0);
  }

  lemma Shift1Zero(c: Byte)
    ensures Shift1(c) == 0 <==> c == 0
  {}

  lemma Shift8Zero(c: Byte)
    ensures Shift8(c) == 0 <==> c == 0
  {}

  /** A received CRC byte matches the computed one exactly when the whole message,
      CRC byte included, leaves residue 0. */
  lemma ResidueIffMatch(m: seq<Byte>, crc: Byte)
    ensures Crc(m) == crc <==> Crc(m + [crc]) == 0
  {
    FoldConcat(TableStep, 0, m, [crc]);
    FoldCons(TableStep, Crc(m), crc, []);
    assert [crc] + [] == [crc];
    TableStepZero(Crc(m), crc);
  }

  lemma TableStepZero(c: Byte, b: Byte)
    ensures TableStep(c, b) == 0 <==> c == b
  {
    LookupIsShift8(c ^ b);
    Shift8Zero(c ^ b);
    XorZero(c, b);
  }

  lemma {:induction false} BitsOfLength(m: seq<Byte>)
    ensures |BitsOf(m)| == 8 * |m|
  {
    if m != [] { BitsOfLength(m[1..]); }
  }

  /** The bits in which two messages of one length differ. */
  function Damage(m: seq<Byte>, m': seq<Byte>): (e: seq<bool>)
    requires |m| == |m'|
    ensures |e| == 8 * |m|
  {
    BitsOfLength(m);
    BitsOfLength(m');
    XorBits(BitsOf(m), BitsOf(m'))
  }

  /** Of a message that passes its check, a damaged copy passes too exactly when the
      damage alone has CRC 0. */
  lemma DamageAccepted(m: seq<Byte>, m': seq<Byte>)
    requires Crc(m) == 0 && |m| == |m'|
    ensures Crc(m') == 0 <==> BitCrc(Damage(m, m')) == 0
  {
    hide Lookup, Feed;
    BitsOfLength(m);
    BitsOfLength(m');
    TableIsBitwise(m);
    TableIsBitwise(m');
    CrcLinear(BitsOf(m), BitsOf(m'));
    XorCancel(BitCrc(BitsOf(m)), BitCrc(BitsOf(m')), BitCrc(Damage(m, m')));
  }

  lemma XorCancel(a: Byte, b: Byte, c: Byte)
    requires a == 0 && c == a ^ b
    ensures c == 0 <==> b == 0
  {}

  function OddByte(c: Byte): bool {
    (c ^ (c >> 1) ^ (c >> 2) ^ (c >> 3) ^ (c >> 4) ^ (c >> 5) ^ (c >> 6) ^ (c >> 7)) & 1 == 1
  }

  lemma FeedParity(c: Byte, b: bool)
    ensures OddByte(Feed(c, b)) == (OddByte(c) != b)
  {}

  /** The CRC byte carries the parity of the message. */
  lemma CrcParity(bits: seq<bool>)
    ensures OddByte(BitCrc(bits)) == Odd(bits)
  {
    forall c, b ensures OddByte(Feed(c, b)) == (OddByte(c) != b) { FeedParity(c, b); }
    FoldParity(Feed, OddByte, 0, bits);
  }

  /** Any odd number of flipped bits in a checked message is caught, however long
      the message is. */
  lemma OddErrorsCaught(m: seq<Byte>, m': seq<Byte>)
    requires Crc(m) == 0 && |m| == |m'|
    requires Odd(Damage(m, m'))
    ensures Crc(m') != 0
  {
    DamageAccepted(m, m');
    CrcParity(Damage(m, m'));
  }

  function PackFrom(bits: seq<bool>): Byte
    requires |bits| <= 8
  {
    if bits == [] then 0 else (PackFrom(bits[1..]) << 1) | (if bits[0] then 1 else 0)
  }

  /** Packing bits into a byte loses nothing. */
  lemma {:induction false} PackedLowBits(bits: seq<bool>)
    requires |bits| <= 8
    ensures LowBits(PackFrom(bits), |bits|) == bits
    ensures Drop(PackFrom(bits), |bits|) == 0
    decreases |bits|
  {
    if bits != [] {
      PackedLowBits(bits[1..]);
      PackUnfold(bits);
      hide PackFrom;
      assert bits == [bits[0]] + bits[1..];
    }
  }

  lemma {:induction false} PackRoom(bits: seq<bool>)
    requires |bits| < 8
    ensures PackFrom(bits) << (8 - |bits|) >> (8 - |bits|) == PackFrom(bits)
    ensures PackFrom(bits) & 0x80 == 0
    decreases |bits|
  {
    if bits != [] {
      PackRoom(bits[1..]);
    }
  }

  lemma PackUnfold(bits: seq<bool>)
    requires 0 < |bits| <= 8
    ensures (PackFrom(bits) & 1 == 1) == bits[0] && PackFrom(bits) >> 1 == PackFrom(bits[1..])
  {
    PackRoom(bits[1..]);
    PackOne(PackFrom(bits[1..]), bits[0]);
  }

  lemma PackOne(p: Byte, b: bool)
    requires p & 0x80 == 0
    ensures var q := (p << 1) | (if b then 1 else 0);
            (q & 1 == 1) == b && q >> 1 == p
  {}

  lemma NonzeroWindow(w: seq<bool>, k: nat)
    requires |w| == 8 && k < 8 && w[k]
    ensures BitCrc(w) != 0
  {
    PackedLowBits(w);
    var b := PackFrom(w);
    ZeroByteBits(k);
    FeedByte(0, b);
    TableStepZero(0, b);
  }

  lemma ZeroByteBits(k: nat)
    requires k < 8
    ensures !ByteBits(0)[k]
  {}

  /** Damage confined to eight consecutive bits is caught, wherever the burst falls
      and however long the message is. */
  lemma BurstCaught(m: seq<Byte>, m': seq<Byte>, p: nat)
    requires Crc(m) == 0 && |m| == |m'| && m != m'
    requires p + 8 <= 8 * |m|
    requires forall i :: 0 <= i < 8 * |m| && Damage(m, m')[i] ==> p <= i < p + 8
    ensures Crc(m') != 0
  {
    DamageAccepted(m, m');
    var hit := DamageHits(m, m');
    BurstNonzero(Damage(m, m'), p, hit);
  }

  lemma DamageHits(m: seq<Byte>, m': seq<Byte>) returns (hit: nat)
    requires |m| == |m'| && m != m'
    ensures hit < 8 * |m| && Damage(m, m')[hit]
  {
    BitsOfLength(m);
    BitsOfLength(m');
    if BitsOf(m) == BitsOf(m') {
      BitsOfInjective(m, m');
    }
    hit :| 0 <= hit < 8 * |m| && BitsOf(m)[hit] != BitsOf(m')[hit];
  }

  lemma {:induction false} BitsOfInjective(m: seq<Byte>, m': seq<Byte>)
    requires |m| == |m'| && BitsOf(m) == BitsOf(m')
    ensures m == m'
  {
    if m != [] {
      assert BitsOf(m)[..8] == ByteBits(m[0]) && BitsOf(m)[8..] == BitsOf(m[1..]);
      assert BitsOf(m')[..8] == ByteBits(m'[0]) && BitsOf(m')[8..] == BitsOf(m'[1..]);
      BitsOfInjective(m[1..], m'[1..]);
      ByteBitsInjective(m[0], m'[0]);
    }
  }

  lemma ByteBitsInjective(a: Byte, b: Byte)
    requires ByteBits(a) == ByteBits(b)
    ensures a == b
  {
    DropEight(a);
    DropEight(b);
    LowBitsInjective(a, b, 8);
  }

  lemma {:induction false} LowBitsInjective(a: Byte, b: Byte, n: nat)
    requires LowBits(a, n) == LowBits(b, n) && Drop(a, n) == Drop(b, n)
    ensures a == b
    decreases n
  {
    if n > 0 {
      assert LowBits(a, n)[0] == LowBits(b, n)[0] && LowBits(a, n)[1..] == LowBits(b, n)[1..];
      LowBitsInjective(a >> 1, b >> 1, n - 1);
      ShiftInjective(a, b);
    }
  }

  lemma ShiftInjective(a: Byte, b: Byte)
    requires a >> 1 == b >> 1 && (a & 1 == 1) == (b & 1 == 1)
    ensures a == b
  {}

  lemma BurstNonzero(e: seq<bool>, p: nat, hit: nat)
    requires p + 8 <= |e|
    requires forall i :: 0 <= i < |e| && e[i] ==> p <= i < p + 8
    requires hit < |e| && e[hit]
    ensures BitCrc(e) != 0
  {
    forall s: Byte ensures Feed(s, false) == 0 <==> s == 0 {
      Shift1Zero(s);
      XorZero(Shift1(s), 0);
    }
    assert e[p..p + 8][hit - p] == e[hit];
    NonzeroWindow(e[p..p + 8], hit - p);
    FoldBurst(Feed, 0, e, p, p + 8);
  }

  // ---------- the forms that take the high bit first ----------

  function Msb1(c: Byte): Byte { if c & 0x80 != 0 then (c << 1) ^ 0x31 else c << 1 }

  function Msb(c: Byte, n: nat): Byte
    decreases n
  {
    if n == 0 then c else Msb(Msb1(c), n - 1)
  }

  function MsbStep(crc: Byte, b: Byte): Byte { Msb(crc ^ b, 8) }

  function MsbCrc(crc: Byte, m: seq<Byte>): Byte { Fold(MsbStep, crc, m) }

  function Rise(p: Byte, n: nat): Byte
    decreases n
  {
    if n == 0 then p else Rise(p << 1, n - 1)
  }

  lemma RiseEight(p: Byte)
    ensures Rise(p, 8) == 0
  {}

  /** One byte of the SHT11 CRC on the AVR node. */
  method CalcCrc8Bit(prev: Byte, data: Byte) returns (crc: Byte)
    ensures crc == MsbStep(prev, data)
  {
    var byte;
    crc, byte := CrcBits(prev, data, 8);
    RiseEight(data);
    XorZero(crc, 0);
  }

  /** Its loop, over the first n bits of data. */
  method CrcBits(prev: Byte, data: Byte, n: nat) returns (crc: Byte, byte: Byte)
    ensures crc ^ byte == Msb(prev ^ data, n)
    ensures byte == Rise(data, n)
  {
    crc := prev;
    byte := data;
    ghost var mixed := prev ^ data;
    for bit := n downto 0
      invariant mixed == crc ^ byte
      invariant Msb(mixed, bit) == Msb(prev ^ data, n)
      invariant Rise(byte, bit) == Rise(data, n)
    {
      crc, byte := CrcBit(crc, byte);
      mixed := Msb1(mixed);
    }
  }

  /** The body of that loop: the next message bit enters the register. */
  method CrcBit(crc0: Byte, byte0: Byte) returns (crc: Byte, byte: Byte)
    ensures byte == byte0 << 1
    ensures crc ^ byte == Msb1(crc0 ^ byte0)
  {
    crc := crc0;
    var newBit := byte0 >> 7;
    byte := byte0 << 1;
    var crcBit7 := crc >> 7;
    var differ := newBit ^ crcBit7;
    if differ != 0 {
      var mask2: Byte := (differ << 3) | (differ << 4);
      var mask: Byte := (1 << 3) | (1 << 4);
      var tmp := crc ^ mask2;
      crc := crc & !mask;
      crc := crc | (tmp & mask);
    }
    crc := crc << 1;
    crc := crc | differ;
  }

  /** The SCD4x word check: two bytes, started at 0xFF. */
  method CheckCrcWord(word: seq<Byte>, msgCrc: Byte) returns (ok: bool)
    requires |word| == 2
    ensures ok <==> MsbCrc(0xFF, word) == msgCrc
  {
    var crc: Byte := 0xFF;
    for idx := 0 to 2
      invariant crc == Fold(MsbStep, 0xFF, word[..idx])
    {
      FoldNext(MsbStep, 0xFF, word, idx);
      crc := crc ^ word[idx];
      crc := EightMsb(crc);
    }
    FoldAll(MsbStep, 0xFF, word);
    ok := crc == msgCrc;
  }

  method EightMsb(crc0: Byte) returns (crc: Byte)
    ensures crc == Msb(crc0, 8)
  {
    crc := crc0;
    for bitIdx := 8 downto 0
      invariant Msb(crc, bitIdx) == Msb(crc0, 8)
    {
      if crc & 0x80 != 0 {
        crc := (crc << 1) ^ 0x31;
      } else {
        crc := crc << 1;
      }
    }
  }

  function Reverse(b: Byte): Byte {
    ((b & 0x01) << 7) | ((b & 0x02) << 5) | ((b & 0x04) << 3) | ((b & 0x08) << 1)
    | ((b & 0x10) >> 1) | ((b & 0x20) >> 3) | ((b & 0x40) >> 5) | ((b & 0x80) >> 7)
  }

  /** Moves the n low bits of v, lowest first, into the low end of acc. */
  function Unload(v: Byte, acc: Byte, n: nat): Byte
    decreases n
  {
    if n == 0 then acc else Unload(v >> 1, (acc << 1) | (v & 1), n - 1)
  }

  /** Bit reversal as the AVR node does it: the loop stops with the highest set bit,
      the rest of the shift is made up at the end. */
  method ReverseBits(v0: Byte) returns (r: Byte)
    ensures r == Reverse(v0)
  {
    var v := v0;
    r := v;
    var s := 7;
    v := v >> 1;
    UnloadSeven(v0);
    while v != 0
      invariant 0 <= s <= 7
      invariant Unload(v, r, s) == Reverse(v0)
      invariant Drop(v, s) == 0
      decreases s
    {
      r := r << 1;
      r := r | (v & 1);
      s := s - 1;
      v := v >> 1;
    }
    UnloadNothing(r, s);
    RiseIsShift(r, s);
    r := r << s;
  }

  lemma {:induction false} UnloadNothing(r: Byte, s: nat)
    ensures Unload(0, r, s) == Rise(r, s)
    decreases s
  {
    if s > 0 {
      ShiftedZero(r);
      UnloadNothing(r << 1, s - 1);
    }
  }

  lemma ShiftedZero(r: Byte)
    ensures (0 as Byte) >> 1 == 0 && (r << 1) | (0 & 1) == r << 1
  {}

  lemma UnloadSeven(v0: Byte)
    ensures Unload(v0 >> 1, v0, 7) == Reverse(v0)
    ensures Drop(v0 >> 1, 7) == 0
  {}

  lemma {:induction false} RiseIsShift(p: Byte, n: nat)
    requires n < 8
    ensures Rise(p, n) == p << n
    decreases n
  {
    if n > 0 {
      RiseIsShift(p << 1, n - 1);
      RiseTwice(p, n - 1);
    }
  }

  lemma RiseTwice(p: Byte, k: nat)
    requires k < 7
    ensures (p << 1) << k == p << (k + 1)
  {}

  lemma ReverseMsb1(c: Byte)
    ensures Reverse(Msb1(c)) == Shift1(Reverse(c))
  {}

  lemma {:induction false} ReverseMsb(c: Byte, n: nat)
    ensures Reverse(Msb(c, n)) == Shift(Reverse(c), n)
    decreases n
  {
    if n > 0 {
      ReverseMsb1(c);
      ReverseMsb(Msb1(c), n - 1);
    }
  }

  lemma ReverseXor(a: Byte, b: Byte)
    ensures Reverse(a ^ b) == Reverse(a) ^ Reverse(b)
  {}

  lemma ReverseStepMirror(crc: Byte, b: Byte)
    ensures Reverse(MsbStep(crc, b)) == TableStep(Reverse(crc), Reverse(b))
  {
    ReverseMsb(crc ^ b, 8);
    ShiftEight(Reverse(crc ^ b));
    LookupIsShift8(Reverse(crc ^ b));
    ReverseXor(crc, b);
  }

  /** The high-bit-first CRC, reversed, is the table CRC of the reversed bytes: the
      SHT11 and SCD4x loops and the 1-Wire table share one polynomial. */
  lemma MsbIsMirror(crc: Byte, m: seq<Byte>)
    ensures Reverse(MsbCrc(crc, m)) == Fold(TableStep, Reverse(crc), Map(Reverse, m))
  {
    forall c, b ensures Reverse(MsbStep(c, b)) == TableStep(Reverse(c), Reverse(b)) {
      ReverseStepMirror(c, b);
    }
    FoldHomomorphism(MsbStep, TableStep, Reverse, Reverse, crc, m);
  }

  lemma ReverseZero()
    ensures Reverse(0) == 0
  {}

  /** The node's SHT11 check over command, high byte and low byte. */
  method Sht11Crc(command: Byte, high: Byte, low: Byte) returns (crc: Byte)
    ensures crc == Crc(Map(Reverse, [command, high, low]))
  {
    crc := CalcCrc8Bit(0, command);
    crc := CalcCrc8Bit(crc, high);
    crc := CalcCrc8Bit(crc, low);
    ghost var m := [command, high, low];
    FoldThree(MsbStep, 0, command, high, low);
    MsbIsMirror(0, m);
    ReverseZero();
    crc := ReverseBits(crc);
  }

  lemma FoldThree<S, T>(step: (S, T) -> S, s: S, x: T, y: T, z: T)
    ensures Fold(step, s, [x, y, z]) == step(step(step(s, x), y), z)
  {
    FoldCons(step, s, x, [y, z]);
    FoldCons(step, step(s, x), y, [z]);
    FoldCons(step, step(step(s, x), y), z, []);
    assert [x] + [y, z] == [x, y, z];
    assert [y] + [z] == [y, z];
    assert [z] + [] == [z];
  }
}
