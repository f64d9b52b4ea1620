/** Integers of up to 64 bits anywhere in a bitmap, and their overflow policies (src/bitops.c).
    Machine integers are written out: ToI64 and ToU64 are the casts, signed overflow wraps around, and a shift
    by 64 is undefined. */
module Bitfield {
  import opened Common
  import opened ByteBits

  // ----- machine integers

  const TWO63: int := 0x8000_0000_0000_0000
  const TWO64: int := 0x1_0000_0000_0000_0000
  const INT64_MAX: int := 0x7fff_ffff_ffff_ffff

  function ToU64(x: int): (r: nat)
    ensures r < TWO64
  {
    x % TWO64
  }

  function ToI64(x: int): (r: int)
    ensures -TWO63 <= r < TWO63
  {
    if ToU64(x) >= TWO63 then ToU64(x) - TWO64 else ToU64(x)
  }

  predicate IsI64(x: int) {
    -TWO63 <= x < TWO63
  }

  /** value & (1 << k) */
  predicate ValueBit(v: nat, k: nat) {
    (v / Pow2(k)) % 2 == 1
  }

  // ----- arithmetic

  lemma DivModUnique(x: int, m: int, q: int, r: int)
    requires m > 0 && x == q * m + r && 0 <= r < m
    ensures x / m == q && x % m == r
  {
    var d := q - x / m;
    assert d * m == x % m - r;
    SmallMultiple(d, m);
  }

  lemma SmallMultiple(d: int, m: int)
    requires m > 0 && -m < d * m < m
    ensures d == 0
  {
    NonNegative(d - 1, m);
    NonNegative(-d - 1, m);
    assert (d - 1) * m == d * m - m && (-d - 1) * m == -(d * m) - m;
  }

  lemma NonNegative(a: int, m: int)
    requires m > 0
    ensures a >= 0 ==> a * m >= 0
  {
  }

  lemma HalfMod(w: nat, p: nat)
    requires p > 0
    ensures w % (2 * p) == 2 * ((w / 2) % p) + w % 2
  {
    var q := w / 2;
    var a, b := q / p, q % p;
    assert w == a * (2 * p) + (2 * b + w % 2) by {
      assert q == a * p + b;
      assert a * (2 * p) == 2 * (a * p);
    }
    DivModUnique(w, 2 * p, a, 2 * b + w % 2);
  }

  lemma DivTwice(v: nat, p: nat)
    requires p > 0
    ensures v / (2 * p) == (v / p) / 2
  {
    var w, r := v / p, v % p;
    var h, s := w / 2, w % 2;
    assert v == h * (2 * p) + (s * p + r) by {
      assert w == 2 * h + s;
      assert w * p == (2 * h) * p + s * p;
    }
    assert s * p <= p;
    DivModUnique(v, 2 * p, h, s * p + r);
  }

  lemma {:induction false} Pow2Add(a: nat, b: nat)
    ensures Pow2(a + b) == Pow2(a) * Pow2(b)
  {
    if a > 0 {
      Pow2Add(a - 1, b);
    }
  }

  lemma {:induction false} Pow2Mono(a: nat, b: nat)
    requires a <= b
    ensures Pow2(a) <= Pow2(b)
  {
    if a < b {
      Pow2Mono(a, b - 1);
    }
  }

  lemma Pow2Sizes()
    ensures Pow2(63) == TWO63 && Pow2(64) == TWO64
  {
    assert Pow2(8) == 256;
    Pow2Add(8, 8);
    Pow2Add(16, 16);
    Pow2Add(32, 32);
    assert Pow2(64) == 2 * Pow2(63);
  }

  /** Reducing modulo 2^64 first changes nothing modulo a smaller power of two. */
  lemma ModMod(x: int, bits: nat)
    requires bits <= 64
    ensures ToU64(x) % Pow2(bits) == x % Pow2(bits)
  {
    Pow2Sizes();
    Pow2Add(64 - bits, bits);
    ModFactor(x, Pow2(bits), Pow2(64 - bits));
  }

  lemma ModFactor(x: int, m: int, k: int)
    requires m > 0 && k > 0 && k * m > 0
    ensures (x % (k * m)) % m == x % m
  {
    var q, u := x / (k * m), x % (k * m);
    var a, b := u / m, u % m;
    assert x == (q * k + a) * m + b by {
      assert x == q * (k * m) + u && u == a * m + b;
      MulAssoc(q, k, m);
      Distribute(q * k, a, m);
    }
    DivModUnique(x, m, q * k + a, b);
  }

  lemma MulAssoc(a: int, b: int, c: int)
    ensures a * (b * c) == (a * b) * c
  {
  }

  lemma Distribute(a: int, b: int, c: int)
    ensures (a + b) * c == a * c + b * c
  {
  }

  // ----- bitmaps: bit 0 is the high bit of the first byte

  predicate Bit(p: seq<bv8>, i: nat)
    requires i / 8 < |p|
  {
    BitOf(p[i / 8], 7 - i % 8)
  }

  /** The unsigned integer in n bits from an offset. */
  function Field(p: seq<bv8>, offset: nat, n: nat): (v: nat)
    requires offset + n <= 8 * |p|
    ensures v < Pow2(n)
  {
    if n == 0 then 0 else 2 * Field(p, offset, n - 1) + (if Bit(p, offset + n - 1) then 1 else 0)
  }

  /** Two's complement. */
  function SignedField(p: seq<bv8>, offset: nat, n: nat): (v: int)
    requires n > 0 && offset + n <= 8 * |p|
    ensures 0 - Pow2(n - 1) <= v < Pow2(n - 1)
  {
    var u := Field(p, offset, n);
    if u >= Pow2(n - 1) then u - Pow2(n) else u
  }

  /** The n low bits of v, high bit first, stand from the offset on. */
  predicate Holds(p: seq<bv8>, offset: nat, n: nat, m: nat, v: nat)
    requires m <= n && offset + n <= 8 * |p|
  {
    forall j :: 0 <= j < m ==> HoldsAt(p, offset, n, v, j)
  }

  predicate HoldsAt(p: seq<bv8>, offset: nat, n: nat, v: nat, j: nat)
    requires j < n && offset + n <= 8 * |p|
  {
    Bit(p, offset + j) <==> ValueBit(v, n - 1 - j)
  }

  lemma {:induction false} FieldOfHolds(p: seq<bv8>, offset: nat, n: nat, m: nat, v: nat)
    requires m <= n && offset + n <= 8 * |p| && Holds(p, offset, n, m, v)
    ensures Field(p, offset, m) == (v / Pow2(n - m)) % Pow2(m)
  {
    hide Bit, ValueBit;
    if m == 0 {
      assert Pow2(0) == 1;
    } else {
      FieldOfHolds(p, offset, n, m - 1, v);
      NextBit(v, n, m);
      assert HoldsAt(p, offset, n, v, m - 1);
    }
  }

  /** The m high ones of n bits are the m - 1 high ones and one more. */
  lemma NextBit(v: nat, n: nat, m: nat)
    requires 0 < m <= n
    ensures (v / Pow2(n - m)) % Pow2(m) ==
            2 * ((v / Pow2(n - m + 1)) % Pow2(m - 1)) + (if ValueBit(v, n - m) then 1 else 0)
  {
    DivTwice(v, Pow2(n - m));
    HalfMod(v / Pow2(n - m), Pow2(m - 1));
  }

  // ----- set and get

  /** One turn of setUnsignedBitfield. */
  method SetOneBit(p: array<bv8>, offset: nat, on: bool)
    requires offset < 8 * p.Length
    modifies p
    ensures forall i :: 0 <= i < 8 * p.Length ==> (Bit(p[..], i) <==> if i == offset then on else Bit(old(p[..]), i))
  {
    hide BitOf, WithBit, WithoutBit;
    var byte := offset / 8;
    var bit := 7 - offset % 8;
    var byteval := WithoutBit(p[byte], bit);
    if on {
      byteval := WithBit(byteval, bit);
    }
    ghost var was := p[..];
    p[byte] := byteval;
    forall i | 0 <= i < 8 * p.Length
      ensures Bit(p[..], i) <==> if i == offset then on else Bit(was, i)
    {
      OneBit(was[byte], bit, on, 7 - i % 8);
      if i / 8 == byte && i % 8 == offset % 8 {
        assert i == offset;
      }
    }
  }

  lemma OneBit(b: bv8, k: nat, on: bool, i: nat)
    requires k < 8 && i < 8
    ensures BitOf(if on then WithBit(WithoutBit(b, k), k) else WithoutBit(b, k), i) <==>
            if i == k then on else BitOf(b, i)
  {
    hide BitOf, WithBit, WithoutBit;
    ClearBit(b, k, i);
    SetBit(WithoutBit(b, k), k, i);
  }

  /** setUnsignedBitfield: the bits of the field become those of the value, every other bit stays. */
  method SetUnsigned(p: array<bv8>, offset: nat, bits: nat, value: nat)
    requires offset + bits <= 8 * p.Length
    modifies p
    ensures Field(p[..], offset, bits) == value % Pow2(bits)
    ensures forall i :: 0 <= i < 8 * p.Length && !(offset <= i < offset + bits) ==>
              (Bit(p[..], i) <==> Bit(old(p[..]), i))
  {
    hide Bit, ValueBit;
    for j := 0 to bits
      invariant Holds(p[..], offset, bits, j, value)
      invariant forall i :: 0 <= i < 8 * p.Length && !(offset <= i < offset + bits) ==>
                  (Bit(p[..], i) <==> Bit(old(p[..]), i))
    {
      ghost var was := p[..];
      SetOneBit(p, offset + j, ValueBit(value, bits - 1 - j));
      forall k | 0 <= k < j + 1
        ensures HoldsAt(p[..], offset, bits, value, k)
      {
        assert k < j ==> HoldsAt(was, offset, bits, value, k);
      }
    }
    FieldOfHolds(p[..], offset, bits, bits, value);
    assert Pow2(0) == 1;
  }

  /** getUnsignedBitfield */
  method GetUnsigned(p: seq<bv8>, offset: nat, bits: nat) returns (value: nat)
    requires offset + bits <= 8 * |p|
    ensures value == Field(p, offset, bits)
  {
    hide Bit;
    value := 0;
    for j := 0 to bits
      invariant value == Field(p, offset, j)
    {
      value := 2 * value + (if Bit(p, offset + j) then 1 else 0);
    }
  }

  /** The value a field of n bits can hold that is the same modulo 2^n. */
  function Wrapped(v: int, n: nat): (r: int)
    requires n > 0
  {
    var m := v % Pow2(n);
    if m >= Pow2(n - 1) then m - Pow2(n) else m
  }

  /** setSignedBitfield */
  method SetSigned(p: array<bv8>, offset: nat, bits: nat, value: int)
    requires 0 < bits <= 64 && offset + bits <= 8 * p.Length && IsI64(value)
    modifies p
    ensures SignedField(p[..], offset, bits) == Wrapped(value, bits)
    ensures forall i :: 0 <= i < 8 * p.Length && !(offset <= i < offset + bits) ==>
              (Bit(p[..], i) <==> Bit(old(p[..]), i))
  {
    hide Bit;
    ModMod(value, bits);
    SetUnsigned(p, offset, bits, ToU64(value));
  }

  /** getSignedBitfield: the top bit is propagated to all the higher ones, by a shift that is undefined for a
      negative integer of 64 bits. */
  method GetSigned(p: seq<bv8>, offset: nat, bits: nat) returns (value: Option<int>)
    requires 0 < bits <= 64 && offset + bits <= 8 * |p|
    ensures value == None <==> bits == 64 && SignedField(p, offset, bits) < 0
    ensures value.Some? ==> value.value == SignedField(p, offset, bits)
  {
    hide Bit, Field, ToI64, Pow2, ValueBit;
    var u := GetUnsigned(p, offset, bits);
    TopBit(u, bits);
    SmallPowers(bits);
    if !ValueBit(u, bits - 1) {
      CastExact(u);
      return Some(ToI64(u));
    }
    if bits == 64 {
      return None;
    }
    CastTop(u, bits);
    return Some(ToI64(u + (TWO64 - Pow2(bits))));
  }

  lemma CastTop(u: nat, bits: nat)
    requires 0 < bits < 64 && u < Pow2(bits)
    ensures ToI64(u) == u && ToI64(u + (TWO64 - Pow2(bits))) == u - Pow2(bits)
  {
    hide Pow2;
    SmallPowers(bits);
  }

  lemma SmallPowers(bits: nat)
    requires 0 < bits <= 64
    ensures Pow2(bits) == 2 * Pow2(bits - 1) && 1 <= Pow2(bits - 1) <= TWO63
    ensures bits < 64 ==> Pow2(bits) <= TWO63
    ensures bits == 64 ==> Pow2(bits) == TWO64
  {
    Pow2Sizes();
    Pow2Mono(bits - 1, 63);
    if bits < 64 {
      Pow2Mono(bits, 63);
    }
  }

  lemma TopBit(u: nat, bits: nat)
    requires bits > 0 && u < Pow2(bits)
    ensures ValueBit(u, bits - 1) <==> u >= Pow2(bits - 1)
  {
    var p := Pow2(bits - 1);
    if u >= p {
      DivModUnique(u, p, 1, u - p);
    } else {
      DivModUnique(u, p, 0, u);
    }
  }

  // ----- overflow

  datatype Overflow = Wrap | Sat | Fail

  function Clamp(x: int, lo: int, hi: int): int
    requires lo <= hi
  {
    if x < lo then lo else if x > hi then hi else x
  }

  function UMax(bits: nat): nat { Pow2(bits) - 1 }

  function SMax(bits: nat): int
    requires bits > 0
  {
    Pow2(bits - 1) - 1
  }

  function SMin(bits: nat): int
    requires bits > 0
  {
    -SMax(bits) - 1
  }

  /** checkUnsignedBitfieldOverflow: zero iff the exact sum fits; the limit is the sum modulo 2^bits or the nearest
      bound. */
  method CheckUnsigned(value: nat, incr: int, bits: nat, ow: Overflow) returns (code: int, limit: Option<nat>)
    requires 0 < bits < 64 && value < TWO64 && IsI64(incr)
    ensures code == 0 <==> value <= UMax(bits) && 0 <= value + incr <= UMax(bits)
    ensures code == 0 || ow == Fail ==> limit == None
    ensures code != 0 && ow == Wrap ==> limit == Some((value + incr) % Pow2(bits))
    ensures code != 0 && ow == Sat ==>
              limit == Some(if value > UMax(bits) then UMax(bits) else Clamp(value + incr, 0, UMax(bits)))
    ensures code != 0 && ow != Wrap ==> code == if value > UMax(bits) || value + incr > UMax(bits) then 1 else -1
  {
    hide Pow2, ToI64, ToU64;
    SmallPowers(bits);
    ModMod(value + incr, bits);
    var max := Pow2(bits) - 1;
    CastExact(max - value);
    CastExact(0 - value);
    var maxincr := ToI64(max - value);
    var minincr := ToI64(0 - value);
    if value > max || (incr > 0 && incr > maxincr) {
      match ow {
        case Wrap => return 1, Some(ToU64(value + incr) % Pow2(bits));
        case Sat => return 1, Some(max);
        case Fail => return 1, None;
      }
    } else if incr < 0 && incr < minincr {
      match ow {
        case Wrap => return 1, Some(ToU64(value + incr) % Pow2(bits));
        case Sat => return -1, Some(0);
        case Fail => return -1, None;
      }
    }
    return 0, None;
  }

  /** The code checkSignedBitfieldOverflow settles on before it looks at the policy, its two differences wrapping. */
  function SignedCode(value: int, incr: int, bits: nat): int
    requires 0 < bits <= 64
  {
    var max, min := SMax(bits), SMin(bits);
    var maxincr, minincr := ToI64(max - value), ToI64(min - value);
    if value > max || (bits != 64 && incr > maxincr) || (value >= 0 && incr > 0 && incr > maxincr) then 1
    else if value < min || (bits != 64 && incr < minincr) || (value < 0 && incr < 0 && incr < minincr) then -1
    else 0
  }

  /** Which bound the exact sum, or the value itself, is beyond. */
  function Direction(value: int, incr: int, bits: nat): int
    requires bits > 0
  {
    if value > SMax(bits) || value + incr > SMax(bits) then 1
    else if value < SMin(bits) || value + incr < SMin(bits) then -1
    else 0
  }

  /** The difference max - value wraps around, and is looked at. */
  predicate Underflows(value: int, bits: nat)
    requires bits > 0
  {
    bits != 64 && value < SMax(bits) - INT64_MAX
  }

  lemma SignedBounds(bits: nat)
    requires 0 < bits <= 64
    ensures 0 <= SMax(bits) && SMax(bits) + 1 == Pow2(bits - 1)
    ensures if bits == 64 then SMax(bits) + 1 == TWO63 else 2 * (SMax(bits) + 1) <= TWO63
  {
    SmallPowers(bits);
  }

  /** Zero iff the value and the exact sum fit, for every value and increment. */
  lemma SignedZeroIffFits(value: int, incr: int, bits: nat)
    requires 0 < bits <= 64 && IsI64(value) && IsI64(incr)
    ensures SignedCode(value, incr, bits) == 0 <==>
            SMin(bits) <= value <= SMax(bits) && SMin(bits) <= value + incr <= SMax(bits)
  {
    hide Pow2;
    SignedBounds(bits);
  }

  /** The code names the right bound iff not (the difference to the maximum wraps and the increment exceeds what it
      wraps to). */
  lemma SignedCodeIsDirectionIff(value: int, incr: int, bits: nat)
    requires 0 < bits <= 64 && IsI64(value) && IsI64(incr)
    ensures SignedCode(value, incr, bits) == Direction(value, incr, bits) <==>
              !(Underflows(value, bits) && incr > SMax(bits) - value - TWO64)
  {
    hide Pow2;
    SignedBounds(bits);
  }

  /** BITFIELD SET i8 with the smallest integer is taken for an overflow upwards. */
  lemma SetTakesMinimumForOverflow()
    ensures SignedCode(-TWO63, 0, 8) == 1 && Direction(-TWO63, 0, 8) == -1
  {
    assert Pow2(7) == 128;
  }

  /** checkSignedBitfieldOverflow; on WRAP the limit is the sum in two's complement, by a shift that is undefined
      for 64 bits; on SAT the bound the code names. */
  method CheckSigned(value: int, incr: int, bits: nat, ow: Overflow) returns (code: int, limit: Option<int>)
    requires 0 < bits <= 64 && IsI64(value) && IsI64(incr)
    ensures code == 0 <==> SMin(bits) <= value <= SMax(bits) && SMin(bits) <= value + incr <= SMax(bits)
    ensures code == 0 || ow == Fail ==> limit == None
    ensures code != 0 && ow == Wrap ==> limit == if bits == 64 then None else Some(Wrapped(value + incr, bits))
    ensures code != 0 && ow == Sat ==>
              limit == Some(if SignedCode(value, incr, bits) == 1 then SMax(bits) else SMin(bits))
    ensures ow != Wrap ==> code == SignedCode(value, incr, bits)
  {
    hide Pow2, SignedCode, Wrapped;
    SignedZeroIffFits(value, incr, bits);
    code := SignedCode(value, incr, bits);
    assert code == -1 || code == 0 || code == 1 by { Codes(value, incr, bits); }
    limit := None;
    if code != 0 {
      match ow {
        case Wrap =>
          code := 1;
          if bits != 64 {
            var c := WrapSum(value, incr, bits);
            limit := Some(c);
          }
        case Sat => limit := Some(if code == 1 then SMax(bits) else SMin(bits));
        case Fail =>
      }
    }
  }

  lemma Codes(value: int, incr: int, bits: nat)
    requires 0 < bits <= 64
    ensures SignedCode(value, incr, bits) in {-1, 0, 1}
  {
  }

  /** handle_wrap: the sum as unsigned, then its sign bit spread over the higher ones or these cleared. */
  method WrapSum(value: int, incr: int, bits: nat) returns (r: int)
    requires 0 < bits < 64
    ensures r == Wrapped(value + incr, bits)
  {
    hide Pow2, ValueBit;
    var c := ToU64(value + incr);
    ModMod(value + incr, bits);
    SmallPowers(bits);
    LowBit(c, bits);
    CastTop(c % Pow2(bits), bits);
    if ValueBit(c, bits - 1) {
      r := ToI64(c % Pow2(bits) + (TWO64 - Pow2(bits)));
    } else {
      r := ToI64(c % Pow2(bits));
    }
  }

  /** The sign bit of a field is the top bit of the value modulo 2^bits. */
  lemma LowBit(c: nat, bits: nat)
    requires bits > 0
    ensures ValueBit(c, bits - 1) <==> c % Pow2(bits) >= Pow2(bits - 1)
  {
    var p := Pow2(bits - 1);
    var w, r := c / p, c % p;
    var h, s := w / 2, w % 2;
    assert c == h * (2 * p) + (s * p + r) by {
      assert w == 2 * h + s;
      Distribute(2 * h, s, p);
      MulAssoc(h, 2, p);
    }
    assert s * p == if s == 1 then p else 0;
    DivModUnique(c, 2 * p, h, s * p + r);
  }

  // ----- BITFIELD

  datatype Reply = Value(v: int) | Null | Undefined

  predicate Fits(x: int, bits: nat)
    requires bits > 0
  {
    SMin(bits) <= x <= SMax(bits)
  }

  /** INCRBY on a signed field: the exact sum if it fits, else by policy; FAIL writes nothing. With 64 bits a negative
      field and a sum to be wrapped are undefined. */
  method IncrBySigned(p: array<bv8>, offset: nat, bits: nat, incr: int, ow: Overflow) returns (reply: Reply)
    requires 0 < bits <= 64 && offset + bits <= 8 * p.Length && IsI64(incr)
    modifies p
    ensures var was := SignedField(old(p[..]), offset, bits);
            if bits == 64 && (was < 0 || (ow == Wrap && !Fits(was + incr, bits))) then reply == Undefined
            else if Fits(was + incr, bits) then reply == Value(was + incr)
            else reply == match ow
                          case Wrap => Value(Wrapped(was + incr, bits))
                          case Sat => Value(Clamp(was + incr, SMin(bits), SMax(bits)))
                          case Fail => Null
    ensures reply.Value? ==> SignedField(p[..], offset, bits) == reply.v
    ensures !reply.Value? ==> p[..] == old(p[..])
    ensures forall i :: 0 <= i < 8 * p.Length && !(offset <= i < offset + bits) ==>
              (Bit(p[..], i) <==> Bit(old(p[..]), i))
  {
    hide Bit, Field, Pow2, ToI64, SignedCode, Wrapped, SignedField;
    SignedBounds(bits);
    var got := GetSigned(p[..], offset, bits);
    if got == None {
      return Undefined;
    }
    var oldval := got.value;
    FieldBounds(p[..], offset, bits);
    SignedCodeIsDirectionIff(oldval, incr, bits);
    WrappedIn(oldval + incr, bits);
    var newval := ToI64(oldval + incr);
    var overflow, wrapped := CheckSigned(oldval, incr, bits, ow);
    CastExact(oldval + incr);
    if overflow != 0 {
      if wrapped == None {
        return if ow == Fail then Null else Undefined;
      }
      newval := wrapped.value;
    }
    WrappedIn(newval, bits);
    SetSigned(p, offset, bits, newval);
    return Value(newval);
  }

  /** INCRBY on an unsigned field. */
  method IncrByUnsigned(p: array<bv8>, offset: nat, bits: nat, incr: int, ow: Overflow) returns (reply: Option<nat>)
    requires 0 < bits < 64 && offset + bits <= 8 * p.Length && IsI64(incr)
    modifies p
    ensures var exact := Field(old(p[..]), offset, bits) + incr;
            reply == (if 0 <= exact <= UMax(bits) then Some(exact) else match ow
                      case Wrap => Some(exact % Pow2(bits))
                      case Sat => Some(Clamp(exact, 0, UMax(bits)))
                      case Fail => None)
    ensures reply.Some? ==> Field(p[..], offset, bits) == reply.value
    ensures reply == None ==> p[..] == old(p[..])
    ensures forall i :: 0 <= i < 8 * p.Length && !(offset <= i < offset + bits) ==>
              (Bit(p[..], i) <==> Bit(old(p[..]), i))
  {
    hide Bit, Field, Pow2, ToU64;
    SmallPowers(bits);
    var oldval := GetUnsigned(p[..], offset, bits);
    var newval := ToU64(oldval + incr);
    CastNat(oldval + incr);
    var overflow, wrapped := CheckUnsigned(oldval, incr, bits, ow);
    if overflow != 0 && ow == Fail {
      return None;
    }
    if overflow != 0 {
      newval := wrapped.value;
    }
    DivModUnique(newval, Pow2(bits), 0, newval);
    SetUnsigned(p, offset, bits, newval);
    return Some(newval);
  }

  lemma CastNat(x: int)
    ensures 0 <= x < TWO64 ==> ToU64(x) == x
    ensures -TWO64 <= x < 0 ==> ToU64(x) == x + TWO64
  {
  }

  lemma FieldBounds(p: seq<bv8>, offset: nat, bits: nat)
    requires 0 < bits <= 64 && offset + bits <= 8 * |p|
    ensures SMin(bits) <= SignedField(p, offset, bits) <= SMax(bits)
  {
  }

  lemma CastExact(x: int)
    ensures IsI64(x) ==> ToI64(x) == x
  {
  }

  /** Wrapping lands in range, and leaves what is in range alone. */
  lemma WrappedIn(x: int, bits: nat)
    requires 0 < bits <= 64
    ensures SMin(bits) <= Wrapped(x, bits) <= SMax(bits)
    ensures SMin(bits) <= x <= SMax(bits) ==> Wrapped(x, bits) == x
  {
    hide Pow2;
    SmallPowers(bits);
    var m := Pow2(bits);
    if 0 <= x < m {
      DivModUnique(x, m, 0, x);
    } else if -m <= x < 0 {
      DivModUnique(x, m, -1, x + m);
    }
  }

  /** SET on a signed field answers the old integer. Under SAT it stores the nearest bound iff the difference to the
      maximum does not wrap around. */
  method SetFieldSigned(p: array<bv8>, offset: nat, bits: nat, value: int, ow: Overflow) returns (reply: Reply)
    requires 0 < bits <= 64 && offset + bits <= 8 * p.Length && IsI64(value)
    modifies p
    ensures var was := SignedField(old(p[..]), offset, bits);
            reply == if bits == 64 && was < 0 then Undefined
                     else if ow == Fail && !Fits(value, bits) then Null else Value(was)
    ensures reply.Value? && (Fits(value, bits) || ow == Wrap) ==>
              SignedField(p[..], offset, bits) == Wrapped(value, bits)
    ensures reply.Value? && Fits(value, bits) ==> Wrapped(value, bits) == value
    ensures reply.Value? && ow == Sat ==>
              (SignedField(p[..], offset, bits) == Clamp(value, SMin(bits), SMax(bits)) <==> !Underflows(value, bits))
    ensures !reply.Value? ==> p[..] == old(p[..])
    ensures forall i :: 0 <= i < 8 * p.Length && !(offset <= i < offset + bits) ==>
              (Bit(p[..], i) <==> Bit(old(p[..]), i))
  {
    hide Bit, Field, Pow2, ToI64, SignedCode, Wrapped, SignedField;
    SignedBounds(bits);
    var oldval := GetSigned(p[..], offset, bits);
    if oldval == None {
      return Undefined;
    }
    SignedCodeIsDirectionIff(value, 0, bits);
    Codes(value, 0, bits);
    WrappedIn(value, bits);
    var newval := value;
    var overflow, limit := CheckSigned(value, 0, bits, ow);
    if overflow != 0 {
      if limit == None {
        return Null;
      }
      newval := limit.value;
    }
    WrappedIn(newval, bits);
    SetSigned(p, offset, bits, newval);
    return Value(oldval.value);
  }

  /** SET on an unsigned field: the argument is cast first, so that a negative one counts as large. */
  method SetFieldUnsigned(p: array<bv8>, offset: nat, bits: nat, value: int, ow: Overflow) returns (reply: Option<nat>)
    requires 0 < bits < 64 && offset + bits <= 8 * p.Length && IsI64(value)
    modifies p
    ensures reply == if ow == Fail && ToU64(value) > UMax(bits) then None else Some(Field(old(p[..]), offset, bits))
    ensures reply.Some? ==>
              Field(p[..], offset, bits) ==
              if ow == Sat && (value < 0 || value > UMax(bits)) then UMax(bits) else value % Pow2(bits)
    ensures reply == None ==> p[..] == old(p[..])
    ensures forall i :: 0 <= i < 8 * p.Length && !(offset <= i < offset + bits) ==>
              (Bit(p[..], i) <==> Bit(old(p[..]), i))
  {
    hide Bit, Field, Pow2, ToU64;
    SmallPowers(bits);
    ModMod(value, bits);
    CastNat(value);
    var oldval := GetUnsigned(p[..], offset, bits);
    var newval := ToU64(value);
    var overflow, limit := CheckUnsigned(newval, 0, bits, ow);
    if overflow != 0 {
      if limit == None {
        return None;
      }
      newval := limit.value;
    }
    DivModUnique(newval, Pow2(bits), 0, newval);
    SetUnsigned(p, offset, bits, newval);
    return Some(oldval);
  }

  // ----- the GET window

  /** A string continued by zero bits. */
  predicate PaddedBit(src: seq<bv8>, i: nat) {
    i / 8 < |src| && Bit(src, i)
  }

  function PaddedField(src: seq<bv8>, offset: nat, n: nat): nat {
    if n == 0 then 0 else 2 * PaddedField(src, offset, n - 1) + (if PaddedBit(src, offset + n - 1) then 1 else 0)
  }

  lemma {:induction false} WindowField(src: seq<bv8>, buf: seq<bv8>, byte: nat, shift: nat, n: nat)
    requires |buf| == 9 && shift + n <= 72
    requires forall i :: 0 <= i < 9 ==> buf[i] == if byte + i < |src| then src[byte + i] else 0
    ensures Field(buf, shift, n) == PaddedField(src, byte * 8 + shift, n)
  {
    hide Bit, PaddedBit;
    if n > 0 {
      WindowField(src, buf, byte, shift, n - 1);
      WindowBit(src, buf, byte, shift + n - 1);
    }
  }

  lemma WindowBit(src: seq<bv8>, buf: seq<bv8>, byte: nat, i: nat)
    requires |buf| == 9 && i < 72
    requires forall j :: 0 <= j < 9 ==> buf[j] == if byte + j < |src| then src[byte + j] else 0
    ensures Bit(buf, i) <==> PaddedBit(src, byte * 8 + i)
  {
    hide BitOf;
    assert (byte * 8 + i) / 8 == byte + i / 8 && (byte * 8 + i) % 8 == i % 8;
    ZeroByte(7 - i % 8);
  }

  lemma ZeroByte(k: nat)
    requires k < 8
    ensures !BitOf(0, k)
  {
  }

  /** The copy of up to nine bytes that GET works on, zero-padded. */
  method CopyWindow(src: seq<bv8>, byte: nat) returns (window: seq<bv8>)
    ensures |window| == 9 && forall i :: 0 <= i < 9 ==> window[i] == if byte + i < |src| then src[byte + i] else 0
  {
    var buf := new bv8[9](_ => 0);
    var i := 0;
    while i < 9 && i + byte < |src|
      invariant 0 <= i <= 9
      invariant i > 0 ==> byte + i <= |src|
      invariant forall j :: 0 <= j < 9 ==> buf[j] == if j < i then src[byte + j] else 0
    {
      buf[i] := src[i + byte];
      i := i + 1;
    }
    return buf[..];
  }

  /** GET of an unsigned field reads in the copy what stands in the zero-padded string. */
  method GetWindow(src: seq<bv8>, offset: nat, bits: nat) returns (value: nat)
    requires bits <= 64
    ensures value == PaddedField(src, offset, bits)
  {
    hide Bit, Field;
    var byte := offset / 8;
    var buf := CopyWindow(src, byte);
    value := GetUnsigned(buf, offset - byte * 8, bits);
    WindowField(src, buf, byte, offset - byte * 8, bits);
  }

  /** The two's complement integer in n bits of a zero-padded string. */
  function PaddedSigned(src: seq<bv8>, offset: nat, n: nat): int
    requires n > 0
  {
    var u := PaddedField(src, offset, n);
    if u >= Pow2(n - 1) then u - Pow2(n) else u
  }

  /** GET of a signed field. */
  method GetWindowSigned(src: seq<bv8>, offset: nat, bits: nat) returns (value: Option<int>)
    requires 0 < bits <= 64
    ensures value == None <==> bits == 64 && PaddedSigned(src, offset, bits) < 0
    ensures value.Some? ==> value.value == PaddedSigned(src, offset, bits)
  {
    hide Bit, Field, PaddedField, Pow2;
    var byte := offset / 8;
    var buf := CopyWindow(src, byte);
    value := GetSigned(buf, offset - byte * 8, bits);
    WindowField(src, buf, byte, offset - byte * 8, bits);
  }
}
