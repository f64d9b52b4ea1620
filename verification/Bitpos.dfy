/** redisBitpos: the first bit of a given value, skipping whole words, then scanning one word from its top. */
module Bitpos {
  import opened Common
  import opened ByteBits

  /** Bit i of a string that is continued by zeros; bit 0 is the high bit of the first byte. */
  predicate BitAt(s: seq<bv8>, i: nat) {
    i / 8 < |s| && BitOf(s[i / 8], 7 - i % 8)
  }

  // ----- a word, bit by bit from the top

  function Shift1(w: bv64): bv64 { w << 1 }
  function Shift8(w: bv64): bv64 { w << 8 }
  predicate TopBit(w: bv64) { w & 0x8000000000000000 != 0 }
  function TopByte(w: bv64): bv8 { (w >> 56) as bv8 }

  predicate WordBit(w: bv64, j: nat)
    decreases j
  {
    if j == 0 then TopBit(w) else WordBit(Shift1(w), j - 1)
  }

  function WordByte(w: bv64, k: nat): bv8
    decreases k
  {
    if k == 0 then TopByte(w) else WordByte(Shift8(w), k - 1)
  }

  lemma TopFour(w: bv64)
    ensures TopBit(w) == BitOf(TopByte(w), 7) && TopBit(Shift1(w)) == BitOf(TopByte(w), 6)
    ensures TopBit(Shift1(Shift1(w))) == BitOf(TopByte(w), 5)
    ensures TopBit(Shift1(Shift1(Shift1(w)))) == BitOf(TopByte(w), 4)
  {
  }

  lemma FirstBits(w: bv64)
    ensures WordBit(w, 0) == BitOf(TopByte(w), 7) && WordBit(w, 1) == BitOf(TopByte(w), 6)
    ensures WordBit(w, 2) == BitOf(TopByte(w), 5) && WordBit(w, 3) == BitOf(TopByte(w), 4)
  {
    hide TopBit, BitOf, TopByte, Shift1;
    TopFour(w);
    var a := Shift1(w);
    var b := Shift1(a);
    assert WordBit(w, 1) == WordBit(a, 0);
    assert WordBit(w, 2) == WordBit(a, 1) && WordBit(a, 1) == WordBit(b, 0);
    assert WordBit(w, 3) == WordBit(a, 2) && WordBit(a, 2) == WordBit(b, 1) && WordBit(b, 1) == WordBit(Shift1(b), 0);
  }

  lemma LastBits(w: bv64)
    ensures WordBit(w, 4) == BitOf(TopByte(w), 3) && WordBit(w, 5) == BitOf(TopByte(w), 2)
    ensures WordBit(w, 6) == BitOf(TopByte(w), 1) && WordBit(w, 7) == BitOf(TopByte(w), 0)
  {
    var v := Shift1(Shift1(Shift1(Shift1(w))));
    FourOn(w, 0);
    FourOn(w, 1);
    FourOn(w, 2);
    FourOn(w, 3);
    FirstBits(v);
    hide WordBit;
    TopOfShifted(w);
  }

  lemma TopOfShifted(w: bv64)
    ensures var v := Shift1(Shift1(Shift1(Shift1(w))));
            BitOf(TopByte(v), 7) == BitOf(TopByte(w), 3) && BitOf(TopByte(v), 6) == BitOf(TopByte(w), 2) &&
            BitOf(TopByte(v), 5) == BitOf(TopByte(w), 1) && BitOf(TopByte(v), 4) == BitOf(TopByte(w), 0)
  {
  }

  lemma FourOn(w: bv64, j: nat)
    ensures WordBit(w, j + 4) == WordBit(Shift1(Shift1(Shift1(Shift1(w)))), j)
  {
    hide Shift1, TopBit;
    assert WordBit(w, j + 4) == WordBit(Shift1(w), j + 3);
    assert WordBit(Shift1(w), j + 3) == WordBit(Shift1(Shift1(w)), j + 2);
    assert WordBit(Shift1(Shift1(w)), j + 2) == WordBit(Shift1(Shift1(Shift1(w))), j + 1);
  }

  lemma ShiftByByte(w: bv64)
    ensures Shift1(Shift1(Shift1(Shift1(Shift1(Shift1(Shift1(Shift1(w)))))))) == Shift8(w)
  {
  }

  lemma EightOn(w: bv64, j: nat)
    ensures WordBit(w, j + 8) == WordBit(Shift8(w), j)
  {
    hide Shift1, Shift8, WordBit;
    FourOn(w, j + 4);
    FourOn(Shift1(Shift1(Shift1(Shift1(w)))), j);
    ShiftByByte(w);
  }

  lemma TopBits(w: bv64, r: nat)
    requires r < 8
    ensures WordBit(w, r) == BitOf(TopByte(w), 7 - r)
  {
    hide WordBit, BitOf, TopByte;
    FirstBits(w);
    LastBits(w);
  }

  lemma {:induction false} BitOfByte(w: bv64, k: nat, r: nat)
    requires r < 8
    ensures WordBit(w, 8 * k + r) == BitOf(WordByte(w, k), 7 - r)
    decreases k
  {
    hide WordBit, BitOf, Shift8, TopByte;
    if k == 0 {
      TopBits(w, r);
    } else {
      EightOn(w, 8 * (k - 1) + r);
      BitOfByte(Shift8(w), k - 1, r);
    }
  }

  // ----- eight bytes loaded with the first on top

  function Pack(a: bv8, b: bv8, c: bv8, d: bv8, e: bv8, f: bv8, g: bv8, h: bv8): bv64 {
    ((a as bv64) << 56) | ((b as bv64) << 48) | ((c as bv64) << 40) | ((d as bv64) << 32) |
    ((e as bv64) << 24) | ((f as bv64) << 16) | ((g as bv64) << 8) | (h as bv64)
  }

  lemma PackTop(a: bv8, b: bv8, c: bv8, d: bv8, e: bv8, f: bv8, g: bv8, h: bv8)
    ensures TopByte(Pack(a, b, c, d, e, f, g, h)) == a
    ensures Shift8(Pack(a, b, c, d, e, f, g, h)) == Pack(b, c, d, e, f, g, h, 0)
  {
  }

  function Append(w: bv64, b: bv8): bv64 { (w << 8) | (b as bv64) }

  lemma AppendPack(a: bv8, b: bv8, c: bv8, d: bv8, e: bv8, f: bv8, g: bv8, h: bv8, x: bv8)
    ensures Append(Pack(a, b, c, d, e, f, g, h), x) == Pack(b, c, d, e, f, g, h, x)
  {
  }

  /** Byte k of a string continued by zeros. */
  function ByteAt(s: seq<bv8>, k: nat): bv8 {
    if k < |s| then s[k] else 0
  }

  function PackAt(s: seq<bv8>, p: nat): bv64 {
    Pack(ByteAt(s, p), ByteAt(s, p + 1), ByteAt(s, p + 2), ByteAt(s, p + 3),
         ByteAt(s, p + 4), ByteAt(s, p + 5), ByteAt(s, p + 6), ByteAt(s, p + 7))
  }

  lemma PackBytes(a: bv8, b: bv8, c: bv8, d: bv8, e: bv8, f: bv8, g: bv8, h: bv8)
    ensures var w := Pack(a, b, c, d, e, f, g, h);
            WordByte(w, 0) == a && WordByte(w, 1) == b && WordByte(w, 2) == c && WordByte(w, 3) == d &&
            WordByte(w, 4) == e && WordByte(w, 5) == f && WordByte(w, 6) == g && WordByte(w, 7) == h
  {
    hide Pack, TopByte, Shift8;
    PackTop(a, b, c, d, e, f, g, h);
    PackTop(b, c, d, e, f, g, h, 0);
    PackTop(c, d, e, f, g, h, 0, 0);
    PackTop(d, e, f, g, h, 0, 0, 0);
    PackTop(e, f, g, h, 0, 0, 0, 0);
    PackTop(f, g, h, 0, 0, 0, 0, 0);
    PackTop(g, h, 0, 0, 0, 0, 0, 0);
    PackTop(h, 0, 0, 0, 0, 0, 0, 0);
    var w := Pack(a, b, c, d, e, f, g, h);
    var w1 := Pack(b, c, d, e, f, g, h, 0);
    var w2 := Pack(c, d, e, f, g, h, 0, 0);
    var w3 := Pack(d, e, f, g, h, 0, 0, 0);
    var w4 := Pack(e, f, g, h, 0, 0, 0, 0);
    var w5 := Pack(f, g, h, 0, 0, 0, 0, 0);
    var w6 := Pack(g, h, 0, 0, 0, 0, 0, 0);
    assert WordByte(w6, 1) == h;
    assert WordByte(w5, 1) == g && WordByte(w5, 2) == h;
    assert WordByte(w4, 1) == f && WordByte(w4, 2) == g && WordByte(w4, 3) == h;
    assert WordByte(w3, 1) == e && WordByte(w3, 2) == f && WordByte(w3, 3) == g && WordByte(w3, 4) == h;
    assert WordByte(w2, 1) == d && WordByte(w2, 2) == e && WordByte(w2, 3) == f && WordByte(w2, 4) == g;
    assert WordByte(w2, 5) == h;
    assert WordByte(w1, 1) == c && WordByte(w1, 2) == d && WordByte(w1, 3) == e && WordByte(w1, 4) == f;
    assert WordByte(w1, 5) == g && WordByte(w1, 6) == h;
  }

  lemma PackAtByte(s: seq<bv8>, p: nat, k: nat)
    requires k < 8
    ensures WordByte(PackAt(s, p), k) == ByteAt(s, p + k)
  {
    hide Pack, WordByte;
    PackBytes(ByteAt(s, p), ByteAt(s, p + 1), ByteAt(s, p + 2), ByteAt(s, p + 3),
              ByteAt(s, p + 4), ByteAt(s, p + 5), ByteAt(s, p + 6), ByteAt(s, p + 7));
  }

  /** Bit j of the word loaded at byte p is bit 8p + j of the string. */
  lemma PackAtBit(s: seq<bv8>, p: nat, j: nat)
    requires j < 64
    ensures WordBit(PackAt(s, p), j) == BitAt(s, 8 * p + j)
  {
    hide PackAt, WordByte, WordBit, BitOf;
    BitOfByte(PackAt(s, p), j / 8, j % 8);
    PackAtByte(s, p, j / 8);
    assert (8 * p + j) / 8 == p + j / 8 && (8 * p + j) % 8 == j % 8;
    NoBits(7 - j % 8);
  }

  lemma NoBits(k: nat)
    requires k < 8
    ensures !BitOf(0, k)
  {
  }

  /** The loading loop. */
  method LoadWord(s: seq<bv8>, p: nat) returns (word: bv64)
    requires p <= |s|
    ensures word == PackAt(s, p)
  {
    hide Pack, Append;
    word := 0;
    ZeroWord();
    ghost var b := [0 as bv8, 0, 0, 0, 0, 0, 0, 0];
    var c := p;
    for j := 0 to 8
      invariant c == Min(|s|, p + j)
      invariant |b| == 8 && word == Pack(b[0], b[1], b[2], b[3], b[4], b[5], b[6], b[7])
      invariant forall i :: 0 <= i < 8 ==> b[i] == if i + j < 8 then 0 else ByteAt(s, p + i + j - 8)
    {
      ghost var x := ByteAt(s, p + j);
      AppendPack(b[0], b[1], b[2], b[3], b[4], b[5], b[6], b[7], x);
      if c < |s| {
        word := Append(word, s[c]);
        c := c + 1;
      } else {
        word := Append(word, 0);
      }
      b := b[1..] + [x];
    }
  }

  lemma ZeroWord()
    ensures Pack(0, 0, 0, 0, 0, 0, 0, 0) == 0
  {
  }

  // ----- the scan

  function Msb(): bv64 { 0x8000000000000000 }
  function Down(m: bv64): bv64 { m >> 1 }
  predicate Meets(m: bv64, w: bv64) { m & w != 0 }

  /** The mask `one` after j turns. */
  function OneAt(j: nat): bv64 {
    if j == 0 then Msb() else Down(OneAt(j - 1))
  }

  predicate Even(m: bv64) { m & 1 == 0 }

  lemma MeetsDown(m: bv64, w: bv64)
    requires Even(m)
    ensures Meets(Down(m), w) == Meets(m, Shift1(w))
  {
  }

  lemma {:induction false} MeetsIsBit(w: bv64, j: nat)
    requires forall i :: 0 <= i < j ==> Even(OneAt(i))
    ensures Meets(OneAt(j), w) == WordBit(w, j)
    decreases j
  {
    hide Meets, Even, Down, Shift1, TopBit;
    if j == 0 {
      MeetsTop(w);
    } else {
      MeetsDown(OneAt(j - 1), w);
      MeetsIsBit(Shift1(w), j - 1);
    }
  }

  lemma MeetsTop(w: bv64)
    ensures Meets(Msb(), w) == TopBit(w)
  {
  }

  lemma OneNext(n: nat)
    ensures OneAt(n + 1) == Down(OneAt(n))
  {
    hide Down;
  }

  predicate Live(m: bv64) { m != 0 }

  /** Eight turns from a mask whose low byte is clear. */
  lemma DownEight(c: bv64)
    requires c & 0xff == 0 && c != 0
    ensures Even(c) && Live(c) && Even(Down(c)) && Live(Down(c)) && Even(Down(Down(c))) && Live(Down(Down(c)))
    ensures Even(Down(Down(Down(c)))) && Live(Down(Down(Down(c))))
    ensures var d := Down(Down(Down(Down(c)))); d & 0xf == 0 && d != 0
  {
  }

  lemma DownFour(d: bv64)
    requires d & 0xf == 0 && d != 0
    ensures Even(d) && Live(d) && Even(Down(d)) && Live(Down(d)) && Even(Down(Down(d))) && Live(Down(Down(d)))
    ensures Even(Down(Down(Down(d)))) && Live(Down(Down(Down(d))))
    ensures Down(Down(Down(Down(d)))) == d >> 4
  {
  }

  lemma OneBlock(k: nat, c: bv64)
    requires OneAt(8 * k) == c && c & 0xff == 0 && c != 0
    ensures forall r :: 8 * k <= r < 8 * k + 8 ==> Even(OneAt(r)) && Live(OneAt(r))
    ensures OneAt(8 * k + 8) == c >> 8
  {
    var d := Down(Down(Down(Down(c))));
    DownEight(c);
    DownFour(d);
    ShiftBack(c);
    hide Down, Even, Live;
    OneNext(8 * k);
    OneNext(8 * k + 1);
    OneNext(8 * k + 2);
    OneNext(8 * k + 3);
    OneNext(8 * k + 4);
    OneNext(8 * k + 5);
    OneNext(8 * k + 6);
    OneNext(8 * k + 7);
  }

  lemma ShiftBack(c: bv64)
    ensures Down(Down(Down(Down(c)))) >> 4 == c >> 8
  {
  }

  lemma LastBlock()
    requires OneAt(56) == 0x80
    ensures forall r :: 56 <= r < 63 ==> Even(OneAt(r))
    ensures forall r :: 56 <= r < 64 ==> Live(OneAt(r))
  {
    OneNext(56);
    OneNext(57);
    OneNext(58);
    OneNext(59);
    OneNext(60);
    OneNext(61);
    OneNext(62);
  }

  /** The mask has one bit for all of 64 turns, and is even but for the last. */
  lemma Masks()
    ensures forall r :: 0 <= r < 63 ==> Even(OneAt(r))
    ensures forall r :: 0 <= r < 64 ==> Live(OneAt(r))
  {
    hide Even, Live, Down;
    OneBlock(0, 0x8000000000000000);
    OneBlock(1, 0x80000000000000);
    OneBlock(2, 0x800000000000);
    OneBlock(3, 0x8000000000);
    OneBlock(4, 0x80000000);
    OneBlock(5, 0x800000);
    OneBlock(6, 0x8000);
    LastBlock();
  }

  /** The last loop: the first bit of the word with the wanted value; None is the panic. */
  method ScanWord(word: bv64, bit: bool) returns (j: Option<nat>)
    requires exists i :: 0 <= i < 64 && WordBit(word, i) == bit
    ensures j.Some? && j.value < 64 && WordBit(word, j.value) == bit
    ensures forall i :: 0 <= i < j.value ==> WordBit(word, i) != bit
  {
    hide WordBit, OneAt, Even;
    Masks();
    var one := Msb();
    var k := 0;
    FirstMask();
    ghost var w :| 0 <= w < 64 && WordBit(word, w) == bit;
    while one != 0
      invariant 0 <= k <= w && one == OneAt(k) && forall i :: 0 <= i < k ==> WordBit(word, i) != bit
      decreases 64 - k
    {
      MeetsIsBit(word, k);
      if Meets(one, word) == bit {
        return Some(k);
      }
      OneNext(k);
      one := Down(one);
      k := k + 1;
    }
    return None;
  }

  lemma FirstMask()
    ensures OneAt(0) == Msb()
  {
  }

  // ----- which words hold the bit

  function SkipByte(bit: bool): bv8 { if bit then 0 else 0xff }

  lemma ByteHasBit(b: bv8, bit: bool)
    ensures b != SkipByte(bit) <==> exists r :: 0 <= r < 8 && BitOf(b, r) == bit
  {
    if b != SkipByte(bit) {
      SomeBit(b, bit);
    }
  }

  lemma SomeBit(b: bv8, bit: bool)
    requires b != SkipByte(bit)
    ensures exists r :: 0 <= r < 8 && BitOf(b, r) == bit
  {
    if BitOf(b, 7) != bit && BitOf(b, 6) != bit && BitOf(b, 5) != bit && BitOf(b, 4) != bit {
      if BitOf(b, 3) != bit && BitOf(b, 2) != bit && BitOf(b, 1) != bit {
        assert BitOf(b, 0) == bit;
      } else if BitOf(b, 3) == bit {
        assert BitOf(b, 3) == bit;
      } else if BitOf(b, 2) == bit {
        assert BitOf(b, 2) == bit;
      } else {
        assert BitOf(b, 1) == bit;
      }
    } else if BitOf(b, 7) == bit {
      assert BitOf(b, 7) == bit;
    } else if BitOf(b, 6) == bit {
      assert BitOf(b, 6) == bit;
    } else if BitOf(b, 5) == bit {
      assert BitOf(b, 5) == bit;
    } else {
      assert BitOf(b, 4) == bit;
    }
  }

  /** A byte that is not to be skipped gives the word a bit to find. */
  lemma WordHasBit(s: seq<bv8>, p: nat, k: nat, bit: bool)
    requires k < 8 && ByteAt(s, p + k) != SkipByte(bit)
    ensures exists i :: 0 <= i < 64 && WordBit(PackAt(s, p), i) == bit
  {
    hide WordBit, PackAt, BitOf, WordByte;
    ByteHasBit(ByteAt(s, p + k), bit);
    var r :| 0 <= r < 8 && BitOf(ByteAt(s, p + k), r) == bit;
    BitOfByte(PackAt(s, p), k, 7 - r);
    PackAtByte(s, p, k);
    assert WordBit(PackAt(s, p), 8 * k + (7 - r)) == bit;
  }

  lemma SkippedByte(s: seq<bv8>, p: nat, bit: bool)
    requires p < |s| && s[p] == SkipByte(bit)
    ensures forall i :: 8 * p <= i < 8 * p + 8 ==> BitAt(s, i) != bit
  {
    hide BitOf;
    forall i | 8 * p <= i < 8 * p + 8
      ensures BitAt(s, i) != bit
    {
      assert i / 8 == p;
      if BitOf(s[p], 7 - i % 8) == bit {
        assert BitOf(s[p], 7 - (i % 8)) == bit;
        ByteHasBit(s[p], bit);
      }
    }
  }

  /** No bit with the value before byte p. */
  ghost predicate NoneBefore(s: seq<bv8>, p: nat, bit: bool) {
    forall i :: 0 <= i < 8 * p ==> BitAt(s, i) != bit
  }

  lemma ZeroPacked(k: nat)
    requires k < 8
    ensures WordByte(0, k) == 0
  {
    hide WordByte, Pack;
    PackBytes(0, 0, 0, 0, 0, 0, 0, 0);
    ZeroWord();
  }

  lemma ZeroBytes(s: seq<bv8>, p: nat)
    requires PackAt(s, p) == 0
    ensures forall q :: p <= q < p + 8 ==> ByteAt(s, q) == 0
  {
    hide WordByte, Pack;
    forall q | p <= q < p + 8
      ensures ByteAt(s, q) == 0
    {
      PackAtByte(s, p, q - p);
      ZeroPacked(q - p);
    }
  }

  method SkipBytes(s: seq<bv8>, address: nat, bit: bool) returns (p: nat, found: bool)
    ensures p <= |s| && NoneBefore(s, p, bit) && (found ==> p < |s| && s[p] != SkipByte(bit))
  {
    hide BitAt;
    p, found := 0, false;
    while (address + p) % 8 != 0 && p < |s|
      invariant p <= |s| && NoneBefore(s, p, bit)
      decreases |s| - p
    {
      if s[p] != SkipByte(bit) {
        return p, true;
      }
      SkippedByte(s, p, bit);
      p := p + 1;
    }
  }

  method SkipWords(s: seq<bv8>, start: nat, bit: bool) returns (p: nat)
    requires start <= |s| && NoneBefore(s, start, bit)
    ensures start <= p <= |s| && NoneBefore(s, p, bit)
    ensures |s| - p >= 8 ==> exists q :: p <= q < p + 8 && s[q] != SkipByte(bit)
  {
    hide BitAt, SkipByte;
    p := start;
    while |s| - p >= 8
      invariant start <= p <= |s| && NoneBefore(s, p, bit)
    {
      var k := 0;
      while k < 8 && s[p + k] == SkipByte(bit)
        invariant 0 <= k <= 8 && NoneBefore(s, p + k, bit)
      {
        SkippedByte(s, p + k, bit);
        k := k + 1;
      }
      if k < 8 {
        return;
      }
      p := p + 8;
    }
  }

  /** redisBitpos; None is the panic at its end. */
  method RedisBitpos(s: seq<bv8>, address: nat, bit: bool) returns (r: Option<int>)
    ensures r.Some?
    ensures r.value == -1 ==> bit && forall i :: 0 <= i < 8 * |s| ==> !BitAt(s, i)
    ensures r.value != -1 ==>
              r.value >= 0 && BitAt(s, r.value) == bit &&
              forall i :: 0 <= i < r.value ==> BitAt(s, i) != bit
  {
    hide BitAt, WordBit, PackAt, SkipByte;
    var p, found := SkipBytes(s, address, bit);
    if !found {
      p := SkipWords(s, p, bit);
    }
    var word := LoadWord(s, p);
    if bit && word == 0 {
      NothingFound(s, p, found);
      return Some(-1);
    }
    SomethingFound(s, p, bit, found);
    var j := ScanWord(word, bit);
    PackAtBit(s, p, j.value);
    forall i | 0 <= i < 8 * p + j.value
      ensures BitAt(s, i) != bit
    {
      if i >= 8 * p {
        PackAtBit(s, p, i - 8 * p);
      }
    }
    return Some(8 * p + j.value);
  }

  /** When the word is zero nothing is left in it or after it. */
  lemma NothingFound(s: seq<bv8>, p: nat, found: bool)
    requires p <= |s| && NoneBefore(s, p, true) && PackAt(s, p) == 0
    requires found ==> p < |s| && s[p] != SkipByte(true)
    requires !found && |s| - p >= 8 ==> exists q :: p <= q < p + 8 && s[q] != SkipByte(true)
    ensures forall i :: 0 <= i < 8 * |s| ==> !BitAt(s, i)
  {
    hide PackAt, BitOf;
    ZeroBytes(s, p);
    forall q | p <= q < p + 8 && q < |s|
      ensures s[q] == 0
    {
      assert ByteAt(s, q) == 0;
    }
    forall i | 8 * p <= i < 8 * |s|
      ensures !BitAt(s, i)
    {
      assert ByteAt(s, i / 8) == 0;
      NoBits(7 - i % 8);
    }
  }

  lemma SomethingFound(s: seq<bv8>, p: nat, bit: bool, found: bool)
    requires p <= |s| && (bit ==> PackAt(s, p) != 0)
    requires found ==> p < |s| && s[p] != SkipByte(bit)
    requires !found && |s| - p >= 8 ==> exists q :: p <= q < p + 8 && s[q] != SkipByte(bit)
    ensures exists i :: 0 <= i < 64 && WordBit(PackAt(s, p), i) == bit
  {
    hide WordBit;
    if found {
      WordHasBit(s, p, 0, bit);
    } else if |s| - p >= 8 {
      var q :| p <= q < p + 8 && s[q] != SkipByte(bit);
      WordHasBit(s, p, q - p, bit);
    } else if !bit {
      WordHasBit(s, p, 7, bit);
    } else {
      var k := NonZeroByte(s, p);
      WordHasBit(s, p, k, bit);
    }
  }

  lemma NonZeroByte(s: seq<bv8>, p: nat) returns (k: nat)
    requires PackAt(s, p) != 0
    ensures k < 8 && ByteAt(s, p + k) != 0
  {
    hide Pack;
    ZeroWord();
    if ByteAt(s, p) != 0 { return 0; }
    if ByteAt(s, p + 1) != 0 { return 1; }
    if ByteAt(s, p + 2) != 0 { return 2; }
    if ByteAt(s, p + 3) != 0 { return 3; }
    if ByteAt(s, p + 4) != 0 { return 4; }
    if ByteAt(s, p + 5) != 0 { return 5; }
    if ByteAt(s, p + 6) != 0 { return 6; }
    return 7;
  }
}
