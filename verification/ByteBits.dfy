/** Single bits of a byte, as the C expressions `b & (1<<k)`, `b | (1<<k)` and
    `b & ~(1<<k)` use them. */
module ByteBits {
  function Mask(k: nat): (m: bv8)
    requires k < 8
  {
    match k
    case 0 => 1 case 1 => 2 case 2 => 4 case 3 => 8
    case 4 => 16 case 5 => 32 case 6 => 64 case 7 => 128
  }

  predicate BitOf(b: bv8, k: nat)
    requires k < 8
  {
    b & Mask(k) != 0
  }

  function WithBit(b: bv8, k: nat): (r: bv8)
    requires k < 8
  {
    b | Mask(k)
  }

  function WithoutBit(b: bv8, k: nat): (r: bv8)
    requires k < 8
  {
    b & !Mask(k)
  }

  /** Setting bit `k` sets it and no other. */
  lemma SetBit(b: bv8, k: nat, i: nat)
    requires k < 8 && i < 8
    ensures BitOf(WithBit(b, k), i) <==> BitOf(b, i) || i == k
  {
  }

  /** Clearing bit `k` clears it and no other. */
  lemma ClearBit(b: bv8, k: nat, i: nat)
    requires k < 8 && i < 8
    ensures BitOf(WithoutBit(b, k), i) <==> BitOf(b, i) && i != k
  {
  }
}
