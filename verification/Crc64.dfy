/** CRC-64: the bit-by-bit division of src/crc64.c and the slice-by-8 tables of src/crcspeed.c.
    The two meet in the reflected register, where one division step is linear over GF(2). */
module Crc64 {
  type Byte = b: bv64 | b < 256 witness 0

  const POLY: bv64 := 0xad93d23594c935a9
  const REFLECTED_POLY: bv64 := 0x95ac9329ac4bc9b5

  // ----- arithmetic over GF(2), one operator at a time

  function Xor(x: bv64, y: bv64): bv64 {
    x ^ y
  }

  function Half(x: bv64): bv64 {
    x >> 1
  }

  function Double(x: bv64): bv64 {
    x << 1
  }

  predicate Odd(x: bv64) {
    x & 1 != 0
  }

  function Poly(b: bool): bv64 {
    if b then REFLECTED_POLY else 0
  }

  function LowByte(x: bv64): Byte {
    x & 0xff
  }

  function DropByte(x: bv64): bv64 {
    x >> 8
  }

  predicate TopSet(x: bv64) {
    x & 0x8000000000000000 != 0
  }

  // ----- the definition: polynomial division, high bit first

  /** One input bit. */
  function DivideBit(crc: bv64, one: bool): bv64 {
    if TopSet(crc) != one then Xor(Double(crc), POLY) else Double(crc)
  }

  /** The mask i of the inner loop after k shifts. */
  function Mask(k: nat): (m: bv64)
    requires k <= 8
    ensures 0 < m <= 256
    ensures k < 8 ==> m <= 128
  {
    match k
    case 0 => 1
    case 1 => 2
    case 2 => 4
    case 3 => 8
    case 4 => 16
    case 5 => 32
    case 6 => 64
    case 7 => 128
    case _ => 256
  }

  /** The first k bits of a byte, low bit first. */
  function DivideBits(crc: bv64, c: Byte, k: nat): bv64
    requires k <= 8
  {
    if k == 0 then crc else DivideBit(DivideBits(crc, c, k - 1), c & Mask(k - 1) != 0)
  }

  function Divide(crc: bv64, data: seq<Byte>): bv64 {
    if data == [] then crc else DivideBits(Divide(crc, data[..|data| - 1]), data[|data| - 1], 8)
  }

  /** All bits in the opposite order. */
  function Reflect(x: bv64): bv64 {
    var a := ((x >> 1) & 0x5555555555555555) | ((x & 0x5555555555555555) << 1);
    var b := ((a >> 2) & 0x3333333333333333) | ((a & 0x3333333333333333) << 2);
    var c := ((b >> 4) & 0x0f0f0f0f0f0f0f0f) | ((b & 0x0f0f0f0f0f0f0f0f) << 4);
    var d := ((c >> 8) & 0x00ff00ff00ff00ff) | ((c & 0x00ff00ff00ff00ff) << 8);
    var e := ((d >> 16) & 0x0000ffff0000ffff) | ((d & 0x0000ffff0000ffff) << 16);
    (e >> 32) | (e << 32)
  }

  /** What _crc64 returns from the initial value 0. */
  function BitwiseCrc(data: seq<Byte>): bv64 {
    Reflect(Divide(0, data))
  }

  // ----- crc_reflect moves bits from the top of one register to the bottom of another

  function In1(r: bv64, q: bv64): bv64 {
    (r << 1) | (q >> 63)
  }

  function Up1(q: bv64): bv64 {
    q << 1
  }

  function In2(r: bv64, q: bv64): bv64 {
    (r << 2) | (q >> 62)
  }

  function Up2(q: bv64): bv64 {
    q << 2
  }

  function In4(r: bv64, q: bv64): bv64 {
    (r << 4) | (q >> 60)
  }

  function Up4(q: bv64): bv64 {
    q << 4
  }

  function In8(r: bv64, q: bv64): bv64 {
    (r << 8) | (q >> 56)
  }

  function Up8(q: bv64): bv64 {
    q << 8
  }

  function In16(r: bv64, q: bv64): bv64 {
    (r << 16) | (q >> 48)
  }

  function Up16(q: bv64): bv64 {
    q << 16
  }

  function In32(r: bv64, q: bv64): bv64 {
    (r << 32) | (q >> 32)
  }

  function Up32(q: bv64): bv64 {
    q << 32
  }

  /** Move n bits from the top of q into r. */
  function Moves(n: nat, r: bv64, q: bv64): bv64
    decreases n
  {
    if n == 0 then r else Moves(n - 1, In1(r, q), Up1(q))
  }

  lemma Join1(r: bv64, q: bv64)
    ensures In1(In1(r, q), Up1(q)) == In2(r, q) && Up1(Up1(q)) == Up2(q)
  {
  }

  lemma Moves2(n: nat, r: bv64, q: bv64)
    ensures Moves(n + 2, r, q) == Moves(n, In2(r, q), Up2(q))
  {
    hide In1, Up1, In2, Up2;
    Join1(r, q);
  }

  lemma Join2(r: bv64, q: bv64)
    ensures In2(In2(r, q), Up2(q)) == In4(r, q) && Up2(Up2(q)) == Up4(q)
  {
  }

  lemma Moves4(n: nat, r: bv64, q: bv64)
    ensures Moves(n + 4, r, q) == Moves(n, In4(r, q), Up4(q))
  {
    hide Moves, In2, Up2, In4, Up4;
    Join2(r, q);
    Moves2(n + 2, r, q);
    Moves2(n, In2(r, q), Up2(q));
  }

  lemma Join4(r: bv64, q: bv64)
    ensures In4(In4(r, q), Up4(q)) == In8(r, q) && Up4(Up4(q)) == Up8(q)
  {
  }

  lemma Moves8(n: nat, r: bv64, q: bv64)
    ensures Moves(n + 8, r, q) == Moves(n, In8(r, q), Up8(q))
  {
    hide Moves, In4, Up4, In8, Up8;
    Join4(r, q);
    Moves4(n + 4, r, q);
    Moves4(n, In4(r, q), Up4(q));
  }

  lemma Join8(r: bv64, q: bv64)
    ensures In8(In8(r, q), Up8(q)) == In16(r, q) && Up8(Up8(q)) == Up16(q)
  {
  }

  lemma Moves16(n: nat, r: bv64, q: bv64)
    ensures Moves(n + 16, r, q) == Moves(n, In16(r, q), Up16(q))
  {
    hide Moves, In8, Up8, In16, Up16;
    Join8(r, q);
    Moves8(n + 8, r, q);
    Moves8(n, In8(r, q), Up8(q));
  }

  lemma Join16(r: bv64, q: bv64)
    ensures In16(In16(r, q), Up16(q)) == In32(r, q) && Up16(Up16(q)) == Up32(q)
  {
  }

  lemma Moves32(n: nat, r: bv64, q: bv64)
    ensures Moves(n + 32, r, q) == Moves(n, In32(r, q), Up32(q))
  {
    hide Moves, In16, Up16, In32, Up32;
    Join16(r, q);
    Moves16(n + 16, r, q);
    Moves16(n, In16(r, q), Up16(q));
  }

  lemma MovesWord(w: bv64)
    ensures Moves(64, 0, w) == w
  {
    hide In32, Up32, In1, Up1;
    Moves32(32, 0, w);
    Moves32(0, In32(0, w), Up32(w));
    JoinWord(w);
  }

  lemma JoinWord(w: bv64)
    ensures In32(In32(0, w), Up32(w)) == w
  {
  }

  /** What one move does to the reflection of what is left of the data. */
  lemma MoveReflected(r: bv64, d: bv64)
    ensures In1(r, Reflect(d)) == (r << 1) | (d & 1)
    ensures Up1(Reflect(d)) == Reflect(Half(d))
  {
    ReflectTop(d);
    ReflectHalf(d);
    hide Reflect;
  }

  lemma ReflectTop(d: bv64)
    ensures Reflect(d) >> 63 == d & 1
  {
  }

  lemma ReflectHalf(d: bv64)
    ensures Reflect(d) << 1 == Reflect(d >> 1)
  {
  }

  /** crc_reflect for 64 bits. */
  method CrcReflect(x: bv64) returns (ret: bv64)
    ensures ret == Reflect(x)
  {
    hide Reflect, Half, In1, Up1;
    MovesWord(Reflect(x));
    MoveReflected(0, x);
    var data := x;
    ret := data & 1;
    FirstBit(x);
    for i := 1 to 64
      invariant Moves(64 - i, ret, Reflect(Half(data))) == Reflect(x)
    {
      data := Half(data);
      MoveReflected(ret, data);
      ret := (ret << 1) | (data & 1);
    }
  }

  lemma FirstBit(x: bv64)
    ensures ((0 as bv64) << 1) | (x & 1) == x & 1
  {
  }

  /** The loops of _crc64 before its final reflection. */
  method DivideLoop(start: bv64, data: seq<Byte>) returns (crc: bv64)
    ensures crc == Divide(start, data)
  {
    hide DivideBit, DivideBits, Mask;
    crc := start;
    for offset := 0 to |data|
      invariant crc == Divide(start, data[..offset])
    {
      assert data[..offset + 1][..offset] == data[..offset];
      crc := DivideByte(crc, data[offset]);
    }
    assert data[..|data|] == data;
  }

  method DivideByte(start: bv64, c: Byte) returns (crc: bv64)
    ensures crc == DivideBits(start, c, 8)
  {
    hide Xor, Double, TopSet, Mask;
    crc := start;
    ghost var k := 0;
    var i: bv64 := 1;
    MaskNext(0);
    while i & 0xff != 0
      invariant k <= 8 && i == Mask(k) && crc == DivideBits(start, c, k)
      decreases 8 - k
    {
      MaskNext(k);
      var bit := TopSet(crc);
      if c & i != 0 {
        bit := !bit;
      }
      crc := Double(crc);
      if bit {
        crc := Xor(crc, POLY);
      }
      i, k := i << 1, k + 1;
    }
    MaskNext(k);
  }

  lemma MaskNext(k: nat)
    requires k <= 8
    ensures Mask(0) == 1 && (Mask(k) & 0xff == 0 <==> k == 8)
    ensures k < 8 ==> Mask(k) << 1 == Mask(k + 1)
  {
  }

  /** _crc64 */
  method BitwiseMethod(start: bv64, data: seq<Byte>) returns (crc: bv64)
    ensures crc == Reflect(Divide(start, data))
  {
    var c := DivideLoop(start, data);
    crc := CrcReflect(c);
  }

  lemma XorComm(a: bv64, b: bv64)
    ensures Xor(a, b) == Xor(b, a)
  {
  }

  lemma XorAssoc(a: bv64, b: bv64, c: bv64)
    ensures Xor(Xor(a, b), c) == Xor(a, Xor(b, c))
  {
    XorRaw(a, b, c);
    assert Xor(a, b) == a ^ b;
    assert Xor(b, c) == b ^ c;
  }

  lemma XorRaw(a: bv64, b: bv64, c: bv64)
    ensures Xor(a ^ b, c) == Xor(a, b ^ c)
  {
  }

  lemma XorZero(a: bv64)
    ensures Xor(a, 0) == a && Xor(0, a) == a
  {
  }

  lemma Interchange(a: bv64, b: bv64, c: bv64, d: bv64)
    ensures Xor(Xor(a, b), Xor(c, d)) == Xor(Xor(a, c), Xor(b, d))
  {
    hide Xor;
    XorAssoc(a, b, Xor(c, d));
    XorAssoc(b, c, d);
    XorComm(b, c);
    XorAssoc(c, b, d);
    XorAssoc(a, c, Xor(b, d));
  }

  lemma HalfXor(x: bv64, y: bv64)
    ensures Half(Xor(x, y)) == Xor(Half(x), Half(y)) && Odd(Xor(x, y)) == (Odd(x) != Odd(y))
  {
  }

  lemma PolyXor(a: bool, b: bool)
    ensures Poly(a != b) == Xor(Poly(a), Poly(b))
  {
  }

  // ----- the reflected register

  /** One division step with no input. */
  function Step(x: bv64): bv64 {
    Xor(Half(x), Poly(Odd(x)))
  }

  function Steps(k: nat, x: bv64): bv64 {
    if k == 0 then x else Step(Steps(k - 1, x))
  }

  /** A byte enters by exclusive or. */
  function Update(crc: bv64, b: Byte): bv64 {
    Steps(8, Xor(crc, b))
  }

  function UpdateAll(crc: bv64, data: seq<Byte>): bv64
    decreases |data|
  {
    if data == [] then crc else UpdateAll(Update(crc, data[0]), data[1..])
  }

  lemma StepLinear(x: bv64, y: bv64)
    ensures Step(Xor(x, y)) == Xor(Step(x), Step(y))
  {
    hide Xor, Half, Odd, Poly;
    HalfXor(x, y);
    PolyXor(Odd(x), Odd(y));
    Interchange(Half(x), Poly(Odd(x)), Half(y), Poly(Odd(y)));
  }

  /** Any number of division steps is linear. */
  lemma {:induction false} StepsLinear(k: nat, x: bv64, y: bv64)
    ensures Steps(k, Xor(x, y)) == Xor(Steps(k, x), Steps(k, y))
  {
    hide Step, Xor;
    if k > 0 {
      StepsLinear(k - 1, x, y);
      StepLinear(Steps(k - 1, x), Steps(k - 1, y));
    }
  }

  lemma {:induction false} StepsAdd(j: nat, k: nat, x: bv64)
    ensures Steps(j, Steps(k, x)) == Steps(j + k, x)
  {
    hide Step;
    if j > 0 {
      StepsAdd(j - 1, k, x);
    }
  }

  /** A register whose low bit is clear is only shifted. */
  lemma StepDouble(x: bv64)
    requires x < 0x8000000000000000
    ensures Step(Double(x)) == x
  {
  }

  lemma StepsInner(k: nat, x: bv64)
    ensures Steps(k + 1, x) == Steps(k, Step(x))
  {
    hide Step;
    StepsAdd(k, 1, x);
    assert Steps(1, x) == Step(Steps(0, x));
  }

  function Doubles(k: nat, x: bv64): bv64 {
    if k == 0 then x else Double(Doubles(k - 1, x))
  }

  lemma {:induction false} StepsDoubles(k: nat, x: bv64)
    requires forall j :: 0 <= j < k ==> Doubles(j, x) < 0x8000000000000000
    ensures Steps(k, Doubles(k, x)) == x
  {
    hide Step, Double;
    if k > 0 {
      StepDouble(Doubles(k - 1, x));
      StepsInner(k - 1, Doubles(k, x));
      StepsDoubles(k - 1, x);
    }
  }

  lemma DoublesSmall(h: bv64)
    requires h < 0x100000000000000
    ensures forall j :: 0 <= j < 8 ==> Doubles(j, h) < 0x8000000000000000
    ensures Doubles(8, h) == Up8(h)
  {
    assert Doubles(1, h) == h << 1;
    assert Doubles(2, h) == h << 2;
    assert Doubles(3, h) == h << 3;
    assert Doubles(4, h) == h << 4;
    assert Doubles(5, h) == h << 5;
    assert Doubles(6, h) == h << 6;
    assert Doubles(7, h) == h << 7;
  }

  /** Eight steps undo a shift by a byte. */
  lemma StepsShift(h: bv64)
    requires h < 0x100000000000000
    ensures Steps(8, Up8(h)) == h
  {
    hide Steps, Doubles, Up8;
    DoublesSmall(h);
    StepsDoubles(8, h);
  }

  lemma SplitByte(z: bv64)
    ensures z == Xor(LowByte(z), Up8(DropByte(z))) && DropByte(z) < 0x100000000000000
  {
  }

  /** The table step: only the low byte needs the division. */
  lemma StepsSplit(z: bv64)
    ensures Steps(8, z) == Xor(Steps(8, LowByte(z)), DropByte(z))
  {
    hide Steps, Xor, LowByte, DropByte, Up8;
    SplitByte(z);
    StepsLinear(8, LowByte(z), Up8(DropByte(z)));
    StepsShift(DropByte(z));
  }

  // ----- the definition, reflected

  lemma ReflectShift(x: bv64)
    ensures Reflect(Double(x)) == Half(Reflect(x)) && TopSet(x) == Odd(Reflect(x))
  {
  }

  lemma ReflectXor(x: bv64)
    ensures Reflect(Xor(x, POLY)) == Xor(Reflect(x), REFLECTED_POLY)
  {
    hide Reflect;
    ReflectXorRaw(x);
  }

  lemma ReflectXorRaw(x: bv64)
    ensures Reflect(x ^ POLY) == Reflect(x) ^ REFLECTED_POLY
  {
  }

  lemma OddFlip(y: bv64)
    ensures Odd(Xor(y, 1)) == !Odd(y) && Half(Xor(y, 1)) == Half(y)
  {
  }

  lemma ReflectDivideBit(x: bv64, one: bool)
    ensures Reflect(DivideBit(x, one)) == Step(Xor(Reflect(x), if one then 1 else 0))
  {
    hide Reflect, Xor, Half, Odd, Double, TopSet;
    ReflectShift(x);
    ReflectXor(Double(x));
    XorZero(Reflect(x));
    XorZero(Half(Reflect(x)));
    OddFlip(Reflect(x));
  }

  lemma {:induction false} StepsZero(k: nat)
    ensures Steps(k, 0) == 0
  {
    if k > 0 {
      StepsZero(k - 1);
    }
  }

  lemma MaskDoubles(k: nat)
    requires k < 8
    ensures Mask(k) == Doubles(k, 1) && forall j :: 0 <= j < k ==> Doubles(j, 1) < 0x8000000000000000
  {
    if k > 0 {
      MaskDoubles(k - 1);
    }
  }

  lemma StepsMask(k: nat, c: Byte)
    requires k < 8
    ensures Steps(k, c & Mask(k)) == if c & Mask(k) != 0 then 1 else 0
  {
    hide Steps, Doubles;
    MaskDoubles(k);
    StepsDoubles(k, 1);
    StepsZero(k);
    assert c & Mask(k) == 0 || c & Mask(k) == Mask(k);
  }

  function LowBits(c: Byte, k: nat): bv64
    requires k <= 8
  {
    c & (Mask(k) - 1)
  }

  lemma LowBitsNext(c: Byte, k: nat)
    requires k < 8
    ensures LowBits(c, k + 1) == Xor(LowBits(c, k), c & Mask(k))
  {
  }

  lemma {:induction false} ReflectDivideBits(x: bv64, c: Byte, k: nat)
    requires k <= 8
    ensures Reflect(DivideBits(x, c, k)) == Steps(k, Xor(Reflect(x), LowBits(c, k)))
  {
    hide Reflect, Xor, Step, DivideBit, Mask, LowBits;
    if k == 0 {
      assert LowBits(c, 0) == 0 by { NoLowBits(c); }
      XorZero(Reflect(x));
    } else {
      var y := DivideBits(x, c, k - 1);
      var m := c & Mask(k - 1);
      var low := LowBits(c, k - 1);
      ReflectDivideBits(x, c, k - 1);
      ReflectDivideBit(y, m != 0);
      StepsMask(k - 1, c);
      StepsLinear(k - 1, Xor(Reflect(x), low), m);
      LowBitsNext(c, k - 1);
      XorAssoc(Reflect(x), low, m);
    }
  }

  lemma NoLowBits(c: Byte)
    ensures LowBits(c, 0) == 0
  {
  }

  lemma ReflectDivideByte(x: bv64, c: Byte)
    ensures Reflect(DivideBits(x, c, 8)) == Update(Reflect(x), c)
  {
    hide Reflect, Xor, Steps, DivideBits;
    ReflectDivideBits(x, c, 8);
    assert LowBits(c, 8) == c;
  }

  /** Updating over a concatenation is updating over the parts, one after the other. */
  lemma {:induction false} UpdateConcat(crc: bv64, a: seq<Byte>, b: seq<Byte>)
    ensures UpdateAll(crc, a + b) == UpdateAll(UpdateAll(crc, a), b)
    decreases |a|
  {
    hide Update;
    if a == [] {
      assert a + b == b;
    } else {
      assert (a + b)[1..] == a[1..] + b;
      UpdateConcat(Update(crc, a[0]), a[1..], b);
    }
  }

  lemma UpdateSnoc(crc: bv64, a: seq<Byte>, b: Byte)
    ensures UpdateAll(crc, a + [b]) == Update(UpdateAll(crc, a), b)
  {
    hide Update;
    UpdateConcat(crc, a, [b]);
    assert [b][1..] == [];
    assert UpdateAll(Update(UpdateAll(crc, a), b), []) == Update(UpdateAll(crc, a), b);
  }

  /** The division by the polynomial, reflected, is the byte-wise update of the reflected register. */
  lemma {:induction false} DivideIsUpdate(crc: bv64, data: seq<Byte>)
    ensures Reflect(Divide(crc, data)) == UpdateAll(Reflect(crc), data)
    decreases |data|
  {
    hide Reflect, DivideBits, Update;
    if data != [] {
      var n := |data| - 1;
      DivideIsUpdate(crc, data[..n]);
      ReflectDivideByte(Divide(crc, data[..n]), data[n]);
      UpdateSnoc(Reflect(crc), data[..n], data[n]);
      assert data[..n] + [data[n]] == data;
    }
  }

  lemma BitwiseIsUpdate(data: seq<Byte>)
    ensures BitwiseCrc(data) == UpdateAll(0, data)
  {
    DivideIsUpdate(0, data);
    assert Reflect(0) == 0;
  }
}
