/** Slice-by-8 CRC-64: tables built from the bitwise form, eight bytes per turn, on little-endian
    and on big-endian words. */
module CrcSpeed {
  import opened Crc64

  // ----- eight bytes at once

  /** 2^(8k) */
  function Top(k: nat): bv64
    requires k <= 7
  {
    match k
    case 0 => 1
    case 1 => 0x100
    case 2 => 0x10000
    case 3 => 0x1000000
    case 4 => 0x100000000
    case 5 => 0x10000000000
    case 6 => 0x1000000000000
    case _ => 0x100000000000000
  }

  /** A little-endian word, or the low part of one. */
  function Word(bytes: seq<Byte>): bv64 {
    if bytes == [] then 0 else Xor(bytes[0], Up8(Word(bytes[1..])))
  }

  lemma {:induction false} WordSmall(bytes: seq<Byte>)
    requires |bytes| <= 7
    ensures Word(bytes) < Top(|bytes|)
  {
    hide Xor, Up8, Top;
    if bytes == [] {
      TopMax(0);
    } else {
      WordSmall(bytes[1..]);
      TopNext(bytes[0], Word(bytes[1..]), |bytes| - 1);
    }
  }

  lemma TopNext(b: Byte, w: bv64, k: nat)
    requires k < 7 && w < Top(k)
    ensures Xor(b, Up8(w)) < Top(k + 1)
  {
  }

  lemma TopMax(k: nat)
    requires k <= 7
    ensures 0 < Top(k) <= 0x100000000000000
  {
  }

  /** Updating by up to eight bytes divides the register, with the word they make exclusive-ored in. */
  lemma {:induction false} UpdateWord(crc: bv64, bytes: seq<Byte>)
    requires |bytes| <= 8
    ensures UpdateAll(crc, bytes) == Steps(8 * |bytes|, Xor(crc, Word(bytes)))
    decreases |bytes|
  {
    hide Steps, Xor, Top, Up8;
    if bytes == [] {
      XorZero(crc);
      assert Steps(0, crc) == crc by { NoSteps(crc); }
    } else {
      var b, r := bytes[0], bytes[1..];
      var w := Word(r);
      WordSmall(r);
      TopMax(|r|);
      UpdateWord(Update(crc, b), r);
      XorAssoc(crc, b, Up8(w));
      StepsLinear(8, Xor(crc, b), Up8(w));
      StepsShift(w);
      StepsAdd(8 * |r|, 8, Xor(crc, Word(bytes)));
    }
  }

  lemma NoSteps(x: bv64)
    ensures Steps(0, x) == x
  {
  }

  /** A word divided by way of its bytes. */
  function Sliced(n: nat, z: bv64): bv64 {
    if n == 0 then z else Xor(Steps(8 * n, LowByte(z)), Sliced(n - 1, DropByte(z)))
  }

  lemma {:induction false} StepsSliced(n: nat, z: bv64)
    ensures Steps(8 * n, z) == Sliced(n, z)
  {
    hide Steps, Xor, LowByte, DropByte;
    if n == 0 {
      NoSteps(z);
    } else {
      StepsSplit(z);
      StepsAdd(8 * (n - 1), 8, z);
      StepsAdd(8 * (n - 1), 8, LowByte(z));
      StepsLinear(8 * (n - 1), Steps(8, LowByte(z)), DropByte(z));
      StepsSliced(n - 1, DropByte(z));
    }
  }

  /** Byte k of a word, counted from the low end, as the code extracts it. */
  function ByteOf(z: bv64, k: nat): Byte
    requires k < 8
  {
    match k
    case 0 => z & 0xff
    case 1 => (z >> 8) & 0xff
    case 2 => (z >> 16) & 0xff
    case 3 => (z >> 24) & 0xff
    case 4 => (z >> 32) & 0xff
    case 5 => (z >> 40) & 0xff
    case 6 => (z >> 48) & 0xff
    case _ => z >> 56
  }

  lemma ByteOfNext(z: bv64, k: nat)
    requires k < 7
    ensures ByteOf(z, k + 1) == ByteOf(DropByte(z), k) && ByteOf(z, 0) == LowByte(z)
  {
  }

  function Drops(n: nat, z: bv64): bv64 {
    if n == 0 then z else Drops(n - 1, DropByte(z))
  }

  lemma ByteOfDrops(z: bv64, j: nat, k: nat)
    requires j + k < 8
    ensures ByteOf(z, j + k) == ByteOf(Drops(j, z), k)
    decreases j
  {
    hide ByteOf, DropByte;
    if j > 0 {
      ByteOfNext(z, j + k - 1);
      ByteOfDrops(DropByte(z), j - 1, k);
    }
  }

  lemma DropsAll(z: bv64)
    ensures Drops(8, z) == 0
  {
    var a := DropByte(DropByte(DropByte(DropByte(z))));
    assert a == z >> 32;
    assert Drops(8, z) == Drops(6, DropByte(DropByte(z)));
    assert Drops(6, DropByte(DropByte(z))) == Drops(4, a);
    assert Drops(4, a) == Drops(2, DropByte(DropByte(a)));
    var b := DropByte(DropByte(a));
    assert Drops(1, DropByte(b)) == Drops(0, DropByte(DropByte(b)));
    assert Drops(2, b) == Drops(1, DropByte(b));
    assert DropByte(DropByte(DropByte(DropByte(a)))) == 0;
  }

  /** What the table holds for a byte: the byte divided by 8(k+1) steps. */
  function Entry(k: nat, b: bv64): bv64 {
    Steps(8 * (k + 1), b)
  }

  /** Eight exclusive ors in a row, and nested. */
  lemma Chain(a: bv64, b: bv64, c: bv64, d: bv64, e: bv64, f: bv64, g: bv64, h: bv64)
    ensures Xor(Xor(Xor(Xor(Xor(Xor(Xor(a, b), c), d), e), f), g), h) ==
            Xor(a, Xor(b, Xor(c, Xor(d, Xor(e, Xor(f, Xor(g, h)))))))
  {
    hide Xor;
    var p := Xor(a, b);
    XorAssoc(a, b, Xor(c, Xor(d, Xor(e, Xor(f, Xor(g, h))))));
    XorAssoc(p, c, Xor(d, Xor(e, Xor(f, Xor(g, h)))));
    XorAssoc(Xor(p, c), d, Xor(e, Xor(f, Xor(g, h))));
    XorAssoc(Xor(Xor(p, c), d), e, Xor(f, Xor(g, h)));
    XorAssoc(Xor(Xor(Xor(p, c), d), e), f, Xor(g, h));
    XorAssoc(Xor(Xor(Xor(Xor(p, c), d), e), f), g, h);
  }

  /** The eight lookups of the middle loop. */
  function Lookups(z: bv64): bv64 {
    Xor(Xor(Xor(Xor(Xor(Xor(Xor(
      Entry(7, ByteOf(z, 0)), Entry(6, ByteOf(z, 1))), Entry(5, ByteOf(z, 2))), Entry(4, ByteOf(z, 3))),
      Entry(3, ByteOf(z, 4))), Entry(2, ByteOf(z, 5))), Entry(1, ByteOf(z, 6))), Entry(0, ByteOf(z, 7)))
  }

  lemma SlicedNext(z: bv64, k: nat)
    requires k < 8
    ensures Sliced(8 - k, Drops(k, z)) == Xor(Entry(7 - k, ByteOf(z, k)), Sliced(7 - k, Drops(k + 1, z)))
  {
    hide Xor, Steps, ByteOf, DropByte, LowByte;
    ByteOfDrops(z, k, 0);
    LowIsByteZero(Drops(k, z));
    DropsNext(k, z);
  }

  lemma LowIsByteZero(z: bv64)
    ensures ByteOf(z, 0) == LowByte(z)
  {
  }

  lemma {:induction false} DropsNext(n: nat, z: bv64)
    ensures Drops(n + 1, z) == DropByte(Drops(n, z))
    decreases n
  {
    hide DropByte;
    if n > 0 {
      DropsNext(n - 1, DropByte(z));
    }
  }

  /** Slicing by eight divides the whole word. */
  lemma LookupsDivide(z: bv64)
    ensures Lookups(z) == Steps(64, z)
  {
    hide Xor, Steps, ByteOf, Sliced, Drops, Entry;
    StepsSliced(8, z);
    SlicedAll(z);
    Chain(Entry(7, ByteOf(z, 0)), Entry(6, ByteOf(z, 1)), Entry(5, ByteOf(z, 2)), Entry(4, ByteOf(z, 3)),
          Entry(3, ByteOf(z, 4)), Entry(2, ByteOf(z, 5)), Entry(1, ByteOf(z, 6)), Entry(0, ByteOf(z, 7)));
  }

  lemma SlicedAll(z: bv64)
    ensures Sliced(8, z) ==
            Xor(Entry(7, ByteOf(z, 0)), Xor(Entry(6, ByteOf(z, 1)), Xor(Entry(5, ByteOf(z, 2)),
              Xor(Entry(4, ByteOf(z, 3)), Xor(Entry(3, ByteOf(z, 4)), Xor(Entry(2, ByteOf(z, 5)),
                Xor(Entry(1, ByteOf(z, 6)), Entry(0, ByteOf(z, 7)))))))))
  {
    hide Xor, Steps, ByteOf, Sliced, Drops, Entry;
    assert Drops(0, z) == z by { DropsZero(z); }
    SlicedNext(z, 0);
    SlicedNext(z, 1);
    SlicedNext(z, 2);
    SlicedNext(z, 3);
    SlicedLow(z);
  }

  lemma SlicedLow(z: bv64)
    ensures Sliced(4, Drops(4, z)) ==
            Xor(Entry(3, ByteOf(z, 4)), Xor(Entry(2, ByteOf(z, 5)),
              Xor(Entry(1, ByteOf(z, 6)), Entry(0, ByteOf(z, 7)))))
  {
    hide Xor, Steps, ByteOf, Sliced, Drops, Entry;
    SlicedNext(z, 4);
    SlicedNext(z, 5);
    SlicedNext(z, 6);
    SlicedNext(z, 7);
    DropsAll(z);
    assert Sliced(0, Drops(8, z)) == 0 by { SlicedZero(Drops(8, z)); }
    XorZero(Entry(0, ByteOf(z, 7)));
  }

  lemma DropsZero(z: bv64)
    ensures Drops(0, z) == z
  {
  }

  lemma SlicedZero(z: bv64)
    ensures Sliced(0, z) == z
  {
  }

  // ----- the tables

  function Index(b: Byte): nat {
    b as nat
  }

  lemma IndexBack(b: Byte)
    ensures 0 <= Index(b) < 256 && Index(b) as bv64 == b
  {
  }

  lemma SmallByte(n: nat)
    requires n < 256
    ensures (n as bv64) < 256
  {
  }

  /** What stands in row k for the byte n. */
  function Cell(k: nat, n: nat): bv64
    requires n < 256
  {
    Entry(k, n as bv64)
  }

  lemma CellOf(k: nat, b: Byte)
    ensures Index(b) < 256 && Cell(k, Index(b)) == Entry(k, b)
  {
    hide Entry;
    IndexBack(b);
  }

  lemma CellNext(k: nat, n: nat)
    requires n < 256
    ensures Xor(Entry(0, LowByte(Cell(k, n))), DropByte(Cell(k, n))) == Cell(k + 1, n)
  {
    hide Entry, Xor, LowByte, DropByte;
    EntryNext(k, n as bv64);
  }

  ghost predicate Shape(t: array2<bv64>) {
    t.Length0 == 8 && t.Length1 == 256
  }

  ghost predicate LittleTable(t: array2<bv64>)
    reads t
  {
    Shape(t) && forall k, n :: 0 <= k < 8 && 0 <= n < 256 ==> t[k, n] == Cell(k, n)
  }

  lemma EntryOne(b: Byte)
    ensures BitwiseCrc([b]) == Entry(0, b)
  {
    hide Steps, Xor, Reflect, Divide;
    BitwiseIsUpdate([b]);
    assert [b][1..] == [];
    assert UpdateAll(Update(0, b), []) == Update(0, b);
    XorZero(b);
  }

  lemma EntryNext(k: nat, b: bv64)
    ensures Xor(Entry(0, LowByte(Entry(k, b))), DropByte(Entry(k, b))) == Entry(k + 1, b)
  {
    hide Steps, Xor, LowByte, DropByte;
    StepsSplit(Entry(k, b));
    StepsAdd(8, 8 * (k + 1), b);
  }

  ghost predicate FirstRow(t: array2<bv64>)
    reads t
  {
    Shape(t) && forall m :: 0 <= m < 256 ==> t[0, m] == Cell(0, m)
  }

  ghost predicate Columns(t: array2<bv64>, n: nat)
    reads t
  {
    Shape(t) && n <= 256 && forall k, m :: 0 <= k < 8 && 0 <= m < n ==> t[k, m] == Cell(k, m)
  }

  /** crcspeed64little_init with _crc64, where the address of an int is the address of its low byte. */
  method LittleInit(t: array2<bv64>)
    requires Shape(t)
    modifies t
    ensures LittleTable(t)
  {
    hide Cell;
    InitFirstRow(t);
    for n := 0 to 256
      invariant FirstRow(t) && Columns(t, n)
    {
      InitColumn(t, n);
    }
  }

  method InitFirstRow(t: array2<bv64>)
    requires Shape(t)
    modifies t
    ensures FirstRow(t)
  {
    hide Entry, Reflect, Divide;
    for n := 0 to 256
      invariant forall m :: 0 <= m < n ==> t[0, m] == Cell(0, m)
    {
      SmallByte(n);
      var b: Byte := n as bv64;
      t[0, n] := BitwiseMethod(0, [b]);
      EntryOne(b);
      CrcDef([b]);
    }
  }

  method InitColumn(t: array2<bv64>, n: nat)
    requires n < 256 && FirstRow(t) && Columns(t, n)
    modifies t
    ensures FirstRow(t) && Columns(t, n + 1)
  {
    hide Cell, Entry, Xor, LowByte, DropByte, Index;
    var crc := t[0, n];
    for k := 1 to 8
      invariant FirstRow(t) && Columns(t, n)
      invariant forall j :: 0 <= j < k ==> t[j, n] == Cell(j, n)
      invariant crc == Cell(k - 1, n)
    {
      CellOf(0, LowByte(crc));
      CellNext(k - 1, n);
      crc := Xor(t[0, Index(LowByte(crc))], DropByte(crc));
      t[k, n] := crc;
    }
  }

  lemma CrcDef(data: seq<Byte>)
    ensures BitwiseCrc(data) == Reflect(Divide(0, data))
  {
  }

  // ----- the fast loop, little-endian

  lemma XorKeepsHigh(crc: bv64, b: Byte)
    ensures DropByte(Xor(crc, b)) == DropByte(crc)
  {
  }

  /** One lookup updates by one byte. */
  lemma OneLookup(crc: bv64, b: Byte)
    ensures Xor(Entry(0, LowByte(Xor(crc, b))), DropByte(crc)) == Update(crc, b)
  {
    hide Steps, Xor, LowByte, DropByte;
    StepsSplit(Xor(crc, b));
    XorKeepsHigh(crc, b);
  }

  /** Eight lookups update by eight bytes. */
  lemma EightLookups(crc: bv64, bytes: seq<Byte>)
    requires |bytes| == 8
    ensures Lookups(Xor(crc, Word(bytes))) == UpdateAll(crc, bytes)
  {
    hide Lookups, Xor, Steps, Word, UpdateAll;
    UpdateWord(crc, bytes);
    LookupsDivide(Xor(crc, Word(bytes)));
  }

  lemma UpdateSlice(crc: bv64, buf: seq<Byte>, i: nat, j: nat)
    requires i <= j <= |buf|
    ensures UpdateAll(crc, buf[..j]) == UpdateAll(UpdateAll(crc, buf[..i]), buf[i..j])
  {
    hide UpdateAll;
    UpdateConcat(crc, buf[..i], buf[i..j]);
    assert buf[..i] + buf[i..j] == buf[..j];
  }

  lemma UpdateNext(crc: bv64, buf: seq<Byte>, i: nat)
    requires i < |buf|
    ensures UpdateAll(crc, buf[..i + 1]) == Update(UpdateAll(crc, buf[..i]), buf[i])
  {
    hide UpdateAll, Update;
    UpdateSnoc(crc, buf[..i], buf[i]);
    assert buf[..i] + [buf[i]] == buf[..i + 1];
  }

  method LookUp(t: array2<bv64>, k: nat, b: Byte) returns (w: bv64)
    requires LittleTable(t) && k < 8
    ensures w == Entry(k, b)
  {
    hide Entry, Cell, Index;
    CellOf(k, b);
    w := t[k, Index(b)];
  }

  method UpdateByte(t: array2<bv64>, crc: bv64, b: Byte) returns (r: bv64)
    requires LittleTable(t)
    ensures r == Update(crc, b)
  {
    hide Entry, Xor, LowByte, DropByte, Update, Index;
    var w := LookUp(t, 0, LowByte(Xor(crc, b)));
    OneLookup(crc, b);
    r := Xor(w, DropByte(crc));
  }

  method UpdateEight(t: array2<bv64>, crc: bv64, bytes: seq<Byte>) returns (r: bv64)
    requires LittleTable(t) && |bytes| == 8
    ensures r == UpdateAll(crc, bytes)
  {
    hide Entry, Xor, ByteOf, Word, UpdateAll;
    var z := Xor(crc, Word(bytes));
    EightLookups(crc, bytes);
    var a := LookUp(t, 7, ByteOf(z, 0));
    var b := LookUp(t, 6, ByteOf(z, 1));
    var c := LookUp(t, 5, ByteOf(z, 2));
    var d := LookUp(t, 4, ByteOf(z, 3));
    var e := LookUp(t, 3, ByteOf(z, 4));
    var f := LookUp(t, 2, ByteOf(z, 5));
    var g := LookUp(t, 1, ByteOf(z, 6));
    var h := LookUp(t, 0, ByteOf(z, 7));
    r := Xor(Xor(Xor(Xor(Xor(Xor(Xor(a, b), c), d), e), f), g), h);
  }

  /** crcspeed64little on a buffer at any address. */
  method Little(t: array2<bv64>, start: bv64, address: nat, buf: seq<Byte>) returns (crc: bv64)
    requires LittleTable(t)
    ensures crc == UpdateAll(start, buf)
  {
    hide UpdateAll, Update, LittleTable;
    crc := start;
    var next := 0;
    assert UpdateAll(start, buf[..0]) == start by { UpdateNone(start); }
    while next < |buf| && (address + next) % 8 != 0
      invariant next <= |buf| && crc == UpdateAll(start, buf[..next])
    {
      UpdateNext(start, buf, next);
      crc := UpdateByte(t, crc, buf[next]);
      next := next + 1;
    }
    while |buf| - next >= 8
      invariant next <= |buf| && crc == UpdateAll(start, buf[..next])
    {
      UpdateSlice(start, buf, next, next + 8);
      crc := UpdateEight(t, crc, buf[next..next + 8]);
      next := next + 8;
    }
    while next < |buf|
      invariant next <= |buf| && crc == UpdateAll(start, buf[..next])
    {
      UpdateNext(start, buf, next);
      crc := UpdateByte(t, crc, buf[next]);
      next := next + 1;
    }
    assert buf[..|buf|] == buf;
  }

  lemma UpdateNone(crc: bv64)
    ensures UpdateAll(crc, []) == crc
  {
  }

  /** crc64 from 0: whatever the address, the fast form gives the reflected remainder of the bitwise division. */
  method Crc64FromZero(t: array2<bv64>, address: nat, buf: seq<Byte>) returns (crc: bv64)
    requires LittleTable(t)
    ensures crc == BitwiseCrc(buf)
  {
    hide UpdateAll, BitwiseCrc, LittleTable;
    BitwiseIsUpdate(buf);
    crc := Little(t, 0, address, buf);
  }

  // ----- the fast loop, big-endian

  /** rev8, as the portable branch of the code computes it. */
  function Rev8(a: bv64): bv64 {
    var b := ((a >> 8) & 0xff00ff00ff00ff) | ((a & 0xff00ff00ff00ff) << 8);
    var c := ((b >> 16) & 0xffff0000ffff) | ((b & 0xffff0000ffff) << 16);
    (c >> 32) | (c << 32)
  }

  lemma Rev8Twice(x: bv64)
    ensures Rev8(Rev8(x)) == x
  {
  }

  lemma Rev8XorRaw(x: bv64, y: bv64)
    ensures Rev8(x ^ y) == Rev8(x) ^ Rev8(y)
  {
  }

  lemma Rev8Xor(x: bv64, y: bv64)
    ensures Rev8(Xor(x, y)) == Xor(Rev8(x), Rev8(y))
  {
    hide Rev8;
    Rev8XorRaw(x, y);
  }

  lemma Rev8Bytes(x: bv64)
    ensures ByteOf(Rev8(x), 0) == ByteOf(x, 7) && ByteOf(Rev8(x), 1) == ByteOf(x, 6)
    ensures ByteOf(Rev8(x), 2) == ByteOf(x, 5) && ByteOf(Rev8(x), 3) == ByteOf(x, 4)
    ensures ByteOf(Rev8(x), 4) == ByteOf(x, 3) && ByteOf(Rev8(x), 5) == ByteOf(x, 2)
    ensures ByteOf(Rev8(x), 6) == ByteOf(x, 1) && ByteOf(Rev8(x), 7) == ByteOf(x, 0)
  {
  }

  lemma Rev8Drop(x: bv64)
    ensures Up8(Rev8(x)) == Rev8(DropByte(x))
  {
    Rev8Shift(x);
    hide Rev8;
  }

  lemma Rev8Shift(x: bv64)
    ensures Rev8(x) << 8 == Rev8(x >> 8)
  {
  }

  ghost predicate BigTable(t: array2<bv64>)
    reads t
  {
    Shape(t) && forall k, n :: 0 <= k < 8 && 0 <= n < 256 ==> t[k, n] == Rev8(Cell(k, n))
  }

  ghost predicate BigRows(t: array2<bv64>, k: nat)
    reads t
  {
    Shape(t) && k <= 8 &&
    (forall j, n :: 0 <= j < k && 0 <= n < 256 ==> t[j, n] == Rev8(Cell(j, n))) &&
    (forall j, n :: k <= j < 8 && 0 <= n < 256 ==> t[j, n] == Cell(j, n))
  }

  /** crcspeed64big_init, from a correct little-endian table. */
  method BigInit(t: array2<bv64>)
    requires Shape(t)
    modifies t
    ensures BigTable(t)
  {
    hide Cell, Rev8;
    LittleInit(t);
    for k := 0 to 8
      invariant BigRows(t, k)
    {
      ReverseRow(t, k);
    }
  }

  method ReverseRow(t: array2<bv64>, k: nat)
    requires k < 8 && BigRows(t, k)
    modifies t
    ensures BigRows(t, k + 1)
  {
    hide Cell, Rev8;
    for n := 0 to 256
      invariant forall j, m :: 0 <= j < k && 0 <= m < 256 ==> t[j, m] == Rev8(Cell(j, m))
      invariant forall m :: 0 <= m < n ==> t[k, m] == Rev8(Cell(k, m))
      invariant forall m :: n <= m < 256 ==> t[k, m] == Cell(k, m)
      invariant forall j, m :: k < j < 8 && 0 <= m < 256 ==> t[j, m] == Cell(j, m)
    {
      t[k, n] := Rev8(t[k, n]);
    }
  }

  method BigLookUp(t: array2<bv64>, k: nat, b: Byte) returns (w: bv64)
    requires BigTable(t) && k < 8
    ensures w == Rev8(Entry(k, b))
  {
    hide Entry, Cell, Index, Rev8;
    CellOf(k, b);
    w := t[k, Index(b)];
  }

  lemma TopByteXor(x: bv64, b: Byte)
    ensures Xor(ByteOf(Rev8(x), 7), b) == LowByte(Xor(x, b))
  {
  }

  /** One turn of the byte loops, on the reversed register. */
  method BigUpdateByte(t: array2<bv64>, crc: bv64, b: Byte, ghost x: bv64) returns (r: bv64)
    requires BigTable(t) && crc == Rev8(x)
    ensures r == Rev8(Update(x, b))
  {
    hide Entry, Xor, LowByte, DropByte, Update, Index, Rev8, ByteOf, Up8;
    TopByteXor(x, b);
    var w := BigLookUp(t, 0, Xor(ByteOf(crc, 7), b));
    OneLookup(x, b);
    Rev8Drop(x);
    Rev8Xor(Entry(0, LowByte(Xor(x, b))), DropByte(x));
    r := Xor(w, Up8(crc));
  }

  lemma Rev8Chain(a: bv64, b: bv64, c: bv64, d: bv64, e: bv64, f: bv64, g: bv64, h: bv64)
    ensures Rev8(Xor(Xor(Xor(Xor(Xor(Xor(Xor(a, b), c), d), e), f), g), h)) ==
            Xor(Xor(Xor(Xor(Xor(Xor(Xor(Rev8(h), Rev8(g)), Rev8(f)), Rev8(e)), Rev8(d)), Rev8(c)), Rev8(b)), Rev8(a))
  {
    hide Xor, Rev8;
    Chain(a, b, c, d, e, f, g, h);
    var h1 := Xor(g, h);
    var h2 := Xor(f, h1);
    var h3 := Xor(e, h2);
    var h4 := Xor(d, h3);
    var h5 := Xor(c, h4);
    var h6 := Xor(b, h5);
    Rev8Swap(a, h6);
    Rev8Swap(b, h5);
    Rev8Swap(c, h4);
    Rev8Swap(d, h3);
    Rev8Swap(e, h2);
    Rev8Swap(f, h1);
    Rev8Swap(g, h);
  }

  lemma Rev8Swap(x: bv64, y: bv64)
    ensures Rev8(Xor(x, y)) == Xor(Rev8(y), Rev8(x))
  {
    hide Xor, Rev8;
    Rev8Xor(x, y);
    XorComm(Rev8(x), Rev8(y));
  }

  /** One turn of the middle loop; the word is loaded with its first byte on top. */
  method BigUpdateEight(t: array2<bv64>, crc: bv64, bytes: seq<Byte>, ghost x: bv64) returns (r: bv64)
    requires BigTable(t) && |bytes| == 8 && crc == Rev8(x)
    ensures r == Rev8(UpdateAll(x, bytes))
  {
    hide Entry, Xor, ByteOf, Word, UpdateAll, Rev8, Index;
    ghost var y := Xor(x, Word(bytes));
    var z := Xor(crc, Rev8(Word(bytes)));
    Rev8Xor(x, Word(bytes));
    EightLookups(x, bytes);
    Rev8Bytes(y);
    var a := BigLookUp(t, 0, ByteOf(z, 0));
    var b := BigLookUp(t, 1, ByteOf(z, 1));
    var c := BigLookUp(t, 2, ByteOf(z, 2));
    var d := BigLookUp(t, 3, ByteOf(z, 3));
    var e := BigLookUp(t, 4, ByteOf(z, 4));
    var f := BigLookUp(t, 5, ByteOf(z, 5));
    var g := BigLookUp(t, 6, ByteOf(z, 6));
    var h := BigLookUp(t, 7, ByteOf(z, 7));
    r := Xor(Xor(Xor(Xor(Xor(Xor(Xor(a, b), c), d), e), f), g), h);
    Rev8Chain(Entry(7, ByteOf(y, 0)), Entry(6, ByteOf(y, 1)), Entry(5, ByteOf(y, 2)), Entry(4, ByteOf(y, 3)),
              Entry(3, ByteOf(y, 4)), Entry(2, ByteOf(y, 5)), Entry(1, ByteOf(y, 6)), Entry(0, ByteOf(y, 7)));
  }

  /** crcspeed64big: with byte-reversed tables and words, the same result. */
  method Big(t: array2<bv64>, start: bv64, address: nat, buf: seq<Byte>) returns (result: bv64)
    requires BigTable(t)
    ensures result == UpdateAll(start, buf)
  {
    hide UpdateAll, Update, BigTable, Rev8;
    var crc := Rev8(start);
    var next := 0;
    assert UpdateAll(start, buf[..0]) == start by { UpdateNone(start); }
    while next < |buf| && (address + next) % 8 != 0
      invariant next <= |buf| && crc == Rev8(UpdateAll(start, buf[..next]))
    {
      UpdateNext(start, buf, next);
      crc := BigUpdateByte(t, crc, buf[next], UpdateAll(start, buf[..next]));
      next := next + 1;
    }
    while |buf| - next >= 8
      invariant next <= |buf| && crc == Rev8(UpdateAll(start, buf[..next]))
    {
      UpdateSlice(start, buf, next, next + 8);
      crc := BigUpdateEight(t, crc, buf[next..next + 8], UpdateAll(start, buf[..next]));
      next := next + 8;
    }
    while next < |buf|
      invariant next <= |buf| && crc == Rev8(UpdateAll(start, buf[..next]))
    {
      UpdateNext(start, buf, next);
      crc := BigUpdateByte(t, crc, buf[next], UpdateAll(start, buf[..next]));
      next := next + 1;
    }
    assert buf[..|buf|] == buf;
    Rev8Twice(UpdateAll(start, buf));
    result := Rev8(crc);
  }
}
