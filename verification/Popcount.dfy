/** redisPopcount: 28 bytes a turn, seven words counted in parallel in four lanes of eight bits. */
module Popcount {

  function One(b: bool): nat { if b then 1 else 0 }

  /** The set bits of a byte; also the entries of the table bitsinbyte. */
  function PopByte(b: bv8): (n: nat)
    ensures n <= 8
  {
    One(b & 1 != 0) + One(b & 2 != 0) + One(b & 4 != 0) + One(b & 8 != 0) +
    One(b & 16 != 0) + One(b & 32 != 0) + One(b & 64 != 0) + One(b & 128 != 0)
  }

  /** The set bits of a string. */
  function Pop(s: seq<bv8>): nat {
    if s == [] then 0 else Pop(s[..|s| - 1]) + PopByte(s[|s| - 1])
  }

  lemma {:induction false} PopConcat(a: seq<bv8>, b: seq<bv8>)
    ensures Pop(a + b) == Pop(a) + Pop(b)
  {
    hide PopByte;
    if b == [] {
      assert a + b == a;
    } else {
      assert (a + b)[..|a + b| - 1] == a + b[..|b| - 1];
      PopConcat(a, b[..|b| - 1]);
    }
  }

  // ----- 32-bit registers

  function Num(x: bv32): nat { x as nat }

  function Plus(a: bv32, b: bv32): bv32 { a + b }

  lemma PlusComm(a: bv32, b: bv32)
    ensures Plus(a, b) == Plus(b, a)
  {
  }

  lemma PlusRaw(a: bv32, b: bv32, c: bv32)
    ensures Plus(a + b, c) == Plus(a, b + c)
  {
  }

  lemma PlusAssoc(a: bv32, b: bv32, c: bv32)
    ensures Plus(Plus(a, b), c) == Plus(a, Plus(b, c))
  {
    PlusRaw(a, b, c);
    assert Plus(a, b) == a + b;
    assert Plus(b, c) == b + c;
  }

  lemma Interchange(a: bv32, b: bv32, c: bv32, d: bv32)
    ensures Plus(Plus(a, b), Plus(c, d)) == Plus(Plus(a, c), Plus(b, d))
  {
    hide Plus;
    PlusAssoc(a, b, Plus(c, d));
    PlusAssoc(b, c, d);
    PlusComm(b, c);
    PlusAssoc(c, b, d);
    PlusAssoc(a, c, Plus(b, d));
  }

  lemma AddCount(a: bv32, c: bv32)
    requires a <= 216 && c <= 8
    ensures Num(Plus(a, c)) == Num(a) + Num(c)
  {
  }

  lemma NumAtMost(x: bv32)
    ensures Num(x) <= 216 ==> x <= 216
    ensures Num(x) <= 56 ==> x <= 56
    ensures Num(x) <= 48 ==> x <= 48
    ensures Num(x) <= 8 ==> x <= 8
  {
  }

  lemma NumAdds(a: bv32, c: bv32)
    requires Num(a) <= 216 && Num(c) <= 8
    ensures Num(Plus(a, c)) == Num(a) + Num(c)
  {
    hide Num, Plus;
    NumAtMost(a);
    NumAtMost(c);
    AddCount(a, c);
  }

  // ----- a byte counted

  function Wide(b: bv8): bv32 {
    b as bv32
  }

  function Count8(b: bv32): bv32 {
    (b & 1) + ((b >> 1) & 1) + ((b >> 2) & 1) + ((b >> 3) & 1) +
    ((b >> 4) & 1) + ((b >> 5) & 1) + ((b >> 6) & 1) + ((b >> 7) & 1)
  }

  lemma CountIsPop(b: bv8)
    ensures Num(Count8(Wide(b))) == PopByte(b)
  {
  }

  // ----- a word counted in four lanes

  function Lane0(s: bv32): bv32 { s & 0xff }
  function Lane1(s: bv32): bv32 { (s >> 8) & 0xff }
  function Lane2(s: bv32): bv32 { (s >> 16) & 0xff }
  function Lane3(s: bv32): bv32 { s >> 24 }

  /** The three lines the code applies to each word. */
  function Swar(w: bv32): bv32 {
    var a := w - ((w >> 1) & 0x55555555);
    var c := (a & 0x33333333) + ((a >> 2) & 0x33333333);
    (c + (c >> 4)) & 0x0F0F0F0F
  }

  lemma SwarLow(w: bv32)
    ensures Lane0(Swar(w)) == Count8(Lane0(w)) && Lane1(Swar(w)) == Count8(Lane1(w))
  {
  }

  lemma SwarHigh(w: bv32)
    ensures Lane2(Swar(w)) == Count8(Lane2(w)) && Lane3(Swar(w)) == Count8(Lane3(w))
  {
  }

  /** Each lane ends up holding the number of its own bits. */
  lemma SwarCounts(w: bv32)
    ensures Lane0(Swar(w)) == Count8(Lane0(w)) && Lane1(Swar(w)) == Count8(Lane1(w))
    ensures Lane2(Swar(w)) == Count8(Lane2(w)) && Lane3(Swar(w)) == Count8(Lane3(w))
  {
    hide Lane0, Lane1, Lane2, Lane3, Count8, Swar;
    SwarLow(w);
    SwarHigh(w);
  }

  predicate Below(s: bv32, n: bv32) {
    Lane0(s) <= n && Lane1(s) <= n && Lane2(s) <= n && Lane3(s) <= n
  }

  predicate AtMost(s: bv32, n: nat) {
    Num(Lane0(s)) <= n && Num(Lane1(s)) <= n && Num(Lane2(s)) <= n && Num(Lane3(s)) <= n
  }

  lemma AtMostBelow(s: bv32)
    ensures AtMost(s, 8) ==> Below(s, 8)
    ensures AtMost(s, 48) ==> Below(s, 48)
    ensures AtMost(s, 56) ==> Below(s, 56)
  {
    hide Num, Lane0, Lane1, Lane2, Lane3;
    NumAtMost(Lane0(s));
    NumAtMost(Lane1(s));
    NumAtMost(Lane2(s));
    NumAtMost(Lane3(s));
  }

  lemma Lane0Adds(s: bv32, t: bv32)
    requires Below(s, 48) && Below(t, 8)
    ensures Lane0(Plus(s, t)) == Plus(Lane0(s), Lane0(t))
  {
  }

  lemma Lane1Adds(s: bv32, t: bv32)
    requires Below(s, 48) && Below(t, 8)
    ensures Lane1(Plus(s, t)) == Plus(Lane1(s), Lane1(t))
  {
  }

  lemma Lane2Adds(s: bv32, t: bv32)
    requires Below(s, 48) && Below(t, 8)
    ensures Lane2(Plus(s, t)) == Plus(Lane2(s), Lane2(t))
  {
  }

  lemma Lane3Adds(s: bv32, t: bv32)
    requires Below(s, 48) && Below(t, 8)
    ensures Lane3(Plus(s, t)) == Plus(Lane3(s), Lane3(t))
  {
  }

  /** No carry crosses a lane. */
  lemma LanesAdd(s: bv32, t: bv32)
    requires AtMost(s, 48) && AtMost(t, 8)
    ensures Lane0(Plus(s, t)) == Plus(Lane0(s), Lane0(t)) && Lane1(Plus(s, t)) == Plus(Lane1(s), Lane1(t))
    ensures Lane2(Plus(s, t)) == Plus(Lane2(s), Lane2(t)) && Lane3(Plus(s, t)) == Plus(Lane3(s), Lane3(t))
  {
    hide Num, Plus, Below, AtMost, Lane0, Lane1, Lane2, Lane3;
    AtMostBelow(s);
    AtMostBelow(t);
    Lane0Adds(s, t);
    Lane1Adds(s, t);
    Lane2Adds(s, t);
    Lane3Adds(s, t);
  }

  lemma BoundAdds(s: bv32, t: bv32, n: nat)
    requires n <= 48 && AtMost(s, n) && AtMost(t, 8)
    ensures AtMost(Plus(s, t), n + 8)
  {
    hide Num, Plus, Lane0, Lane1, Lane2, Lane3;
    LanesAdd(s, t);
    NumAdds(Lane0(s), Lane0(t));
    NumAdds(Lane1(s), Lane1(t));
    NumAdds(Lane2(s), Lane2(t));
    NumAdds(Lane3(s), Lane3(t));
  }

  // ----- the multiplication gathers the four lanes in the top one

  function Gather(s: bv32): bv32 { (s * 0x01010101) >> 24 }
  function Twice(s: bv32): bv32 { s + (s << 8) }
  function High(u: bv32): bv32 { (u + (u << 16)) >> 24 }

  lemma GatherRaw(s: bv32)
    ensures Gather(s) == High(s + (s << 8))
  {
  }

  lemma GatherTwice(s: bv32)
    ensures Gather(s) == High(Twice(s))
  {
    hide Gather, High;
    GatherRaw(s);
  }

  lemma TwiceLow(s: bv32)
    requires Below(s, 56)
    ensures Lane1(Twice(s)) == Plus(Lane0(s), Lane1(s)) && Lane1(Twice(s)) <= 112 && Lane0(Twice(s)) <= 56
  {
  }

  lemma TwiceHigh(s: bv32)
    requires Below(s, 56)
    ensures Lane3(Twice(s)) == Plus(Lane2(s), Lane3(s)) && Lane3(Twice(s)) <= 112 && Lane2(Twice(s)) <= 112
  {
  }

  lemma HighAdds(u: bv32)
    requires Lane0(u) <= 56 && Lane1(u) <= 112 && Lane2(u) <= 112 && Lane3(u) <= 112
    ensures High(u) == Plus(Lane1(u), Lane3(u))
  {
  }

  function LaneTotal(s: bv32): bv32 {
    Plus(Plus(Lane0(s), Lane1(s)), Plus(Lane2(s), Lane3(s)))
  }

  lemma GatherIsTotal(s: bv32)
    requires AtMost(s, 56)
    ensures Gather(s) == LaneTotal(s)
  {
    hide Num, Gather, High, Twice, Plus, Lane0, Lane1, Lane2, Lane3, Below, AtMost;
    AtMostBelow(s);
    GatherTwice(s);
    TwiceLow(s);
    TwiceHigh(s);
    HighAdds(Twice(s));
  }

  /** Four counts added to a total. */
  function AddFour(x: bv32, e: bv32, f: bv32, g: bv32, h: bv32): bv32 {
    Plus(Plus(Plus(Plus(x, e), f), g), h)
  }

  lemma AddFourNum(x: bv32, e: bv32, f: bv32, g: bv32, h: bv32)
    requires Num(x) <= 192 && Num(e) <= 8 && Num(f) <= 8 && Num(g) <= 8 && Num(h) <= 8
    ensures Num(AddFour(x, e, f, g, h)) == Num(x) + Num(e) + Num(f) + Num(g) + Num(h)
  {
    hide Plus, Num;
    NumAdds(x, e);
    NumAdds(Plus(x, e), f);
    NumAdds(Plus(Plus(x, e), f), g);
    NumAdds(Plus(Plus(Plus(x, e), f), g), h);
  }

  /** Adding to each of four adds to their total. */
  lemma TotalAdds(a: bv32, b: bv32, c: bv32, d: bv32, e: bv32, f: bv32, g: bv32, h: bv32)
    ensures Plus(Plus(Plus(a, e), Plus(b, f)), Plus(Plus(c, g), Plus(d, h))) ==
            AddFour(Plus(Plus(a, b), Plus(c, d)), e, f, g, h)
  {
    hide Plus;
    Interchange(a, e, b, f);
    Interchange(c, g, d, h);
    Interchange(Plus(a, b), Plus(e, f), Plus(c, d), Plus(g, h));
    var t := Plus(Plus(a, b), Plus(c, d));
    PlusAssoc(t, Plus(e, f), Plus(g, h));
    PlusAssoc(t, e, f);
    PlusAssoc(Plus(Plus(t, e), f), g, h);
  }

  /** One more word: the total grows by the counts of its bytes. */
  lemma LaneTotalAdds(s: bv32, t: bv32)
    requires AtMost(s, 48) && AtMost(t, 8)
    ensures LaneTotal(Plus(s, t)) == AddFour(LaneTotal(s), Lane0(t), Lane1(t), Lane2(t), Lane3(t))
  {
    hide Num, Plus, AddFour, AtMost, Lane0, Lane1, Lane2, Lane3;
    LanesAdd(s, t);
    TotalAdds(Lane0(s), Lane1(s), Lane2(s), Lane3(s), Lane0(t), Lane1(t), Lane2(t), Lane3(t));
  }

  // ----- a word of four bytes

  /** A little-endian load. */
  function Word(a: bv8, b: bv8, c: bv8, d: bv8): bv32 {
    Wide(a) | (Wide(b) << 8) | (Wide(c) << 16) | (Wide(d) << 24)
  }

  lemma WordLanes(a: bv8, b: bv8, c: bv8, d: bv8)
    ensures Lane0(Word(a, b, c, d)) == Wide(a) && Lane1(Word(a, b, c, d)) == Wide(b)
    ensures Lane2(Word(a, b, c, d)) == Wide(c) && Lane3(Word(a, b, c, d)) == Wide(d)
  {
  }

  lemma SwarWord(a: bv8, b: bv8, c: bv8, d: bv8)
    ensures var t := Swar(Word(a, b, c, d));
            AtMost(t, 8) && Num(Lane0(t)) == PopByte(a) && Num(Lane1(t)) == PopByte(b) &&
            Num(Lane2(t)) == PopByte(c) && Num(Lane3(t)) == PopByte(d)
  {
    hide Num, Swar, Word, Wide, Count8, Lane0, Lane1, Lane2, Lane3, PopByte;
    SwarCounts(Word(a, b, c, d));
    WordLanes(a, b, c, d);
    CountIsPop(a);
    CountIsPop(b);
    CountIsPop(c);
    CountIsPop(d);
  }

  lemma PopFour(y: seq<bv8>)
    requires |y| == 4
    ensures Pop(y) == PopByte(y[0]) + PopByte(y[1]) + PopByte(y[2]) + PopByte(y[3])
  {
    hide PopByte;
    assert y[..3][..2] == y[..2] && y[..2][..1] == y[..1] && y[..1][..0] == [];
    assert Pop(y[..1]) == PopByte(y[0]);
    assert Pop(y[..2]) == PopByte(y[0]) + PopByte(y[1]);
    assert Pop(y[..3]) == Pop(y[..2]) + PopByte(y[2]);
  }

  /** The sum over k words: no lane above 8k, and the total is the number of bits in 4k bytes. */
  ghost predicate Summed(s: bv32, x: seq<bv8>, k: nat) {
    4 * k <= |x| && AtMost(s, 8 * k) && Num(LaneTotal(s)) == Pop(x[..4 * k]) <= 32 * k
  }

  /** One of the seven words of a turn. */
  method AddWord(s: bv32, x: seq<bv8>, k: nat) returns (r: bv32)
    requires k < 7 && 4 * k + 4 <= |x| && Summed(s, x, k)
    ensures Summed(r, x, k + 1)
  {
    hide Num, Plus, Swar, Word, Lane0, Lane1, Lane2, Lane3, LaneTotal, PopByte, Pop, AddFour, AtMost;
    var i := 4 * k;
    var t := Swar(Word(x[i], x[i + 1], x[i + 2], x[i + 3]));
    r := Plus(s, t);
    SwarWord(x[i], x[i + 1], x[i + 2], x[i + 3]);
    Loosen(s, 8 * k);
    LaneTotalAdds(s, t);
    BoundAdds(s, t, 8 * k);
    AddFourNum(LaneTotal(s), Lane0(t), Lane1(t), Lane2(t), Lane3(t));
    PopFour(x[i..i + 4]);
    PopConcat(x[..i], x[i..i + 4]);
    assert x[..i] + x[i..i + 4] == x[..4 * (k + 1)];
  }

  lemma Loosen(s: bv32, n: nat)
    requires n <= 48 && AtMost(s, n)
    ensures AtMost(s, 48)
  {
    hide Num, Lane0, Lane1, Lane2, Lane3;
  }

  lemma NothingSummed(x: seq<bv8>)
    ensures Summed(0, x, 0)
  {
    assert x[..0] == [];
  }

  /** One turn of the middle loop: the sum of the seven words, gathered. */
  method CountBlock(x: seq<bv8>) returns (bits: nat)
    requires |x| == 28
    ensures bits == Pop(x)
  {
    hide Num, Summed, Gather, LaneTotal, AtMost;
    NothingSummed(x);
    var s: bv32 := 0;
    for k := 0 to 7
      invariant Summed(s, x, k)
    {
      s := AddWord(s, x, k);
    }
    AllSummed(s, x);
    GatherIsTotal(s);
    bits := Num(Gather(s));
  }

  lemma AllSummed(s: bv32, x: seq<bv8>)
    requires Summed(s, x, 7) && |x| == 28
    ensures AtMost(s, 56) && Num(LaneTotal(s)) == Pop(x)
  {
    hide Num, AtMost, LaneTotal;
    assert x[..28] == x;
  }

  /** redisPopcount on a buffer at any address. */
  method RedisPopcount(s: seq<bv8>, address: nat) returns (bits: nat)
    ensures bits == Pop(s)
  {
    hide PopByte;
    bits := 0;
    var p := 0;
    while (address + p) % 4 != 0 && p < |s|
      invariant 0 <= p <= |s| && bits == Pop(s[..p])
      decreases |s| - p
    {
      assert s[..p + 1][..p] == s[..p];
      bits := bits + PopByte(s[p]);
      p := p + 1;
    }
    while |s| - p >= 28
      invariant 0 <= p <= |s| && bits == Pop(s[..p])
    {
      var n := CountBlock(s[p..p + 28]);
      PopConcat(s[..p], s[p..p + 28]);
      assert s[..p] + s[p..p + 28] == s[..p + 28];
      bits := bits + n;
      p := p + 28;
    }
    while p < |s|
      invariant 0 <= p <= |s| && bits == Pop(s[..p])
    {
      assert s[..p + 1][..p] == s[..p];
      bits := bits + PopByte(s[p]);
      p := p + 1;
    }
    assert s[..|s|] == s;
  }
}
