/** What src/crcspeed.c does on a big-endian machine: the initialisation reads the first byte of an int, which there is
    its high one, so that every table entry is the CRC of a zero byte. */
module CrcBigEndian {
  import opened Crc64
  import opened CrcSpeed

  ghost predicate Zeros(t: array2<bv64>)
    reads t
  {
    Shape(t) && forall k, n :: 0 <= k < 8 && 0 <= n < 256 ==> t[k, n] == 0
  }

  ghost predicate ZeroRow(t: array2<bv64>)
    reads t
  {
    Shape(t) && forall n :: 0 <= n < 256 ==> t[0, n] == 0
  }

  ghost predicate ZeroColumns(t: array2<bv64>, n: nat)
    reads t
  {
    Shape(t) && n <= 256 && forall k, m :: 0 <= k < 8 && 0 <= m < n ==> t[k, m] == 0
  }

  /** The byte at the address of a 32-bit int, its high byte first. */
  function FirstByte(n: nat): Byte
    requires n < 256
  {
    SmallByte(n / 0x1000000);
    (n / 0x1000000) as bv64
  }

  lemma ZeroByteCrc()
    ensures BitwiseCrc([0]) == 0
  {
    hide Steps, Reflect, Divide;
    EntryOne(0);
    StepsZero(8);
  }

  lemma ZeroBits()
    ensures Xor(0, DropByte(0)) == 0 && Rev8(0) == 0 && Xor(0, Up8(0)) == 0 && Xor(0, 0) == 0
  {
  }

  /** crcspeed64little_init as crcspeed64big_init calls it there. */
  method LittleInitThere(t: array2<bv64>)
    requires Shape(t)
    modifies t
    ensures Zeros(t)
  {
    hide Reflect, Divide, Xor, LowByte, DropByte;
    for n := 0 to 256
      invariant forall m :: 0 <= m < n ==> t[0, m] == 0
    {
      var b := FirstByte(n);
      assert b == 0 by { HighByteIsZero(n); }
      t[0, n] := BitwiseMethod(0, [b]);
      ZeroByteCrc();
      CrcDef([b]);
    }
    for n := 0 to 256
      invariant ZeroRow(t) && ZeroColumns(t, n)
    {
      ColumnThere(t, n);
    }
  }

  lemma HighByteIsZero(n: nat)
    requires n < 256
    ensures FirstByte(n) == 0
  {
    assert n / 0x1000000 == 0;
  }

  method ColumnThere(t: array2<bv64>, n: nat)
    requires n < 256 && ZeroRow(t) && ZeroColumns(t, n)
    modifies t
    ensures ZeroRow(t) && ZeroColumns(t, n + 1)
  {
    hide Xor, LowByte, DropByte, Index;
    var crc := t[0, n];
    ZeroBits();
    for k := 1 to 8
      invariant ZeroRow(t) && ZeroColumns(t, n) && crc == 0
      invariant forall j :: 0 <= j < k ==> t[j, n] == 0
    {
      IndexBack(LowByte(crc));
      crc := Xor(t[0, Index(LowByte(crc))], DropByte(crc));
      t[k, n] := crc;
    }
  }

  /** crcspeed64big_init there. */
  method BigInitThere(t: array2<bv64>)
    requires Shape(t)
    modifies t
    ensures Zeros(t)
  {
    hide Rev8;
    LittleInitThere(t);
    ZeroBits();
    for k := 0 to 8
      invariant Zeros(t)
    {
      for n := 0 to 256
        invariant Zeros(t)
      {
        t[k, n] := Rev8(t[k, n]);
      }
    }
  }

  method LookUpThere(t: array2<bv64>, k: nat, b: Byte) returns (w: bv64)
    requires Zeros(t) && k < 8
    ensures w == 0
  {
    hide Index;
    IndexBack(b);
    w := t[k, Index(b)];
  }

  /** The loops of crcspeed64big over those tables, from 0. */
  method BigThere(t: array2<bv64>, address: nat, buf: seq<Byte>) returns (result: bv64)
    requires Zeros(t)
    ensures result == 0
  {
    hide Xor, ByteOf, Up8, Rev8, Word, Zeros;
    ZeroBits();
    var crc, next := Rev8(0), 0;
    while next < |buf| && (address + next) % 8 != 0
      invariant next <= |buf| && crc == 0
    {
      TopByteOk(crc, buf[next]);
      var w := LookUpThere(t, 0, Xor(ByteOf(crc, 7), buf[next]));
      crc, next := Xor(w, Up8(crc)), next + 1;
    }
    while |buf| - next >= 8
      invariant next <= |buf| && crc == 0
    {
      var z := Xor(crc, Rev8(Word(buf[next..next + 8])));
      crc := LookUpThere(t, 0, ByteOf(z, 0));
      for k := 1 to 8
        invariant crc == 0
      {
        var w := LookUpThere(t, k, ByteOf(z, k));
        crc := Xor(crc, w);
      }
      next := next + 8;
    }
    while next < |buf|
      invariant next <= |buf| && crc == 0
    {
      TopByteOk(crc, buf[next]);
      var w := LookUpThere(t, 0, Xor(ByteOf(crc, 7), buf[next]));
      crc, next := Xor(w, Up8(crc)), next + 1;
    }
    result := Rev8(crc);
  }

  lemma TopByteOk(crc: bv64, b: Byte)
    ensures Xor(ByteOf(crc, 7), b) < 256
  {
  }

  /** The CRC of a string there is 0, which is right iff the division leaves no remainder. */
  method CrcThere(address: nat, buf: seq<Byte>) returns (crc: bv64)
    ensures crc == 0 && (crc == BitwiseCrc(buf) <==> UpdateAll(0, buf) == 0)
  {
    hide BitwiseCrc, UpdateAll;
    BitwiseIsUpdate(buf);
    var t := new bv64[8, 256];
    BigInitThere(t);
    crc := BigThere(t, address, buf);
  }

  /** It is wrong for the string of one byte 1. */
  lemma OneByteIsWrong()
    ensures BitwiseCrc([1]) == 0x7ad870c830358979
  {
    hide Reflect, Divide, Steps;
    EntryOne(1);
    EightSteps();
  }

  lemma EightSteps()
    ensures Steps(8, 1) == 0x7ad870c830358979
  {
    assert Steps(0, 1) == 1;
    assert Steps(1, 1) == Step(1) == 0x95ac9329ac4bc9b5;
    assert Steps(2, 1) == Step(0x95ac9329ac4bc9b5) == 0xdf7adabd7a6e2d6f;
    assert Steps(3, 1) == Step(0xdf7adabd7a6e2d6f) == 0xfa11fe77117cdf02;
    assert Steps(4, 1) == Step(0xfa11fe77117cdf02) == 0x7d08ff3b88be6f81;
    assert Steps(5, 1) == Step(0x7d08ff3b88be6f81) == 0xab28ecb46814fe75;
    assert Steps(6, 1) == Step(0xab28ecb46814fe75) == 0xc038e5739841b68f;
    assert Steps(7, 1) == Step(0xc038e5739841b68f) == 0xf5b0e190606b12f2;
    assert Steps(8, 1) == Step(0xf5b0e190606b12f2) == 0x7ad870c830358979;
  }
}
