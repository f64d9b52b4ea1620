/** BITOP: 32 bytes a turn on the part every string has, byte by byte for the rest, shorter strings continued
    by zeros. */
module Bitop {
  import opened Common
  import opened Bitpos

  datatype Op = And | Or | Xor | Not

  function Apply(op: Op, x: bv8, y: bv8): bv8 {
    match op
    case And => x & y
    case Or => x | y
    case Xor => x ^ y
    case Not => !x
  }

  /** The first n strings combined at byte j; NOT has one string. */
  function Fold(op: Op, srcs: seq<seq<bv8>>, j: nat, n: nat): bv8
    requires 1 <= n <= |srcs|
  {
    if n == 1 then (if op == Not then !ByteAt(srcs[0], j) else ByteAt(srcs[0], j))
    else Apply(op, Fold(op, srcs, j, n - 1), ByteAt(srcs[n - 1], j))
  }

  // ----- a word at a time

  function Combine(op: Op, a: bv64, b: bv64): bv64 {
    match op
    case And => a & b
    case Or => a | b
    case Xor => a ^ b
    case Not => !a
  }

  lemma PackAnd(a: bv8, b: bv8, c: bv8, d: bv8, e: bv8, f: bv8, g: bv8, h: bv8,
                a1: bv8, b1: bv8, c1: bv8, d1: bv8, e1: bv8, f1: bv8, g1: bv8, h1: bv8)
    ensures Combine(And, Pack(a, b, c, d, e, f, g, h), Pack(a1, b1, c1, d1, e1, f1, g1, h1)) ==
            Pack(Apply(And, a, a1), Apply(And, b, b1), Apply(And, c, c1), Apply(And, d, d1),
                 Apply(And, e, e1), Apply(And, f, f1), Apply(And, g, g1), Apply(And, h, h1))
  {
  }

  lemma PackOr(a: bv8, b: bv8, c: bv8, d: bv8, e: bv8, f: bv8, g: bv8, h: bv8,
               a1: bv8, b1: bv8, c1: bv8, d1: bv8, e1: bv8, f1: bv8, g1: bv8, h1: bv8)
    ensures Combine(Or, Pack(a, b, c, d, e, f, g, h), Pack(a1, b1, c1, d1, e1, f1, g1, h1)) ==
            Pack(Apply(Or, a, a1), Apply(Or, b, b1), Apply(Or, c, c1), Apply(Or, d, d1),
                 Apply(Or, e, e1), Apply(Or, f, f1), Apply(Or, g, g1), Apply(Or, h, h1))
  {
  }

  lemma PackXor(a: bv8, b: bv8, c: bv8, d: bv8, e: bv8, f: bv8, g: bv8, h: bv8,
                a1: bv8, b1: bv8, c1: bv8, d1: bv8, e1: bv8, f1: bv8, g1: bv8, h1: bv8)
    ensures Combine(Xor, Pack(a, b, c, d, e, f, g, h), Pack(a1, b1, c1, d1, e1, f1, g1, h1)) ==
            Pack(Apply(Xor, a, a1), Apply(Xor, b, b1), Apply(Xor, c, c1), Apply(Xor, d, d1),
                 Apply(Xor, e, e1), Apply(Xor, f, f1), Apply(Xor, g, g1), Apply(Xor, h, h1))
  {
  }

  lemma PackNot(a: bv8, b: bv8, c: bv8, d: bv8, e: bv8, f: bv8, g: bv8, h: bv8,
                a1: bv8, b1: bv8, c1: bv8, d1: bv8, e1: bv8, f1: bv8, g1: bv8, h1: bv8)
    ensures Combine(Not, Pack(a, b, c, d, e, f, g, h), Pack(a1, b1, c1, d1, e1, f1, g1, h1)) ==
            Pack(Apply(Not, a, a1), Apply(Not, b, b1), Apply(Not, c, c1), Apply(Not, d, d1),
                 Apply(Not, e, e1), Apply(Not, f, f1), Apply(Not, g, g1), Apply(Not, h, h1))
  {
    hide Pack;
    PackFlip(a, b, c, d, e, f, g, h);
  }

  lemma PackFlip(a: bv8, b: bv8, c: bv8, d: bv8, e: bv8, f: bv8, g: bv8, h: bv8)
    ensures !Pack(a, b, c, d, e, f, g, h) == Pack(!a, !b, !c, !d, !e, !f, !g, !h)
  {
  }

  /** Combining two words combines their bytes. */
  lemma CombinePacks(op: Op, a: bv8, b: bv8, c: bv8, d: bv8, e: bv8, f: bv8, g: bv8, h: bv8,
                     a1: bv8, b1: bv8, c1: bv8, d1: bv8, e1: bv8, f1: bv8, g1: bv8, h1: bv8)
    ensures Combine(op, Pack(a, b, c, d, e, f, g, h), Pack(a1, b1, c1, d1, e1, f1, g1, h1)) ==
            Pack(Apply(op, a, a1), Apply(op, b, b1), Apply(op, c, c1), Apply(op, d, d1),
                 Apply(op, e, e1), Apply(op, f, f1), Apply(op, g, g1), Apply(op, h, h1))
  {
    hide Pack, Combine, Apply;
    match op
    case And => PackAnd(a, b, c, d, e, f, g, h, a1, b1, c1, d1, e1, f1, g1, h1);
    case Or => PackOr(a, b, c, d, e, f, g, h, a1, b1, c1, d1, e1, f1, g1, h1);
    case Xor => PackXor(a, b, c, d, e, f, g, h, a1, b1, c1, d1, e1, f1, g1, h1);
    case Not => PackNot(a, b, c, d, e, f, g, h, a1, b1, c1, d1, e1, f1, g1, h1);
  }

  lemma CombineBytes(op: Op, x: seq<bv8>, y: seq<bv8>, p: nat, k: nat)
    requires k < 8
    ensures WordByte(Combine(op, PackAt(x, p), PackAt(y, p)), k) == Apply(op, ByteAt(x, p + k), ByteAt(y, p + k))
  {
    hide Pack, WordByte, Combine, Apply, ByteAt;
    CombinePacks(op, ByteAt(x, p), ByteAt(x, p + 1), ByteAt(x, p + 2), ByteAt(x, p + 3),
                 ByteAt(x, p + 4), ByteAt(x, p + 5), ByteAt(x, p + 6), ByteAt(x, p + 7),
                 ByteAt(y, p), ByteAt(y, p + 1), ByteAt(y, p + 2), ByteAt(y, p + 3),
                 ByteAt(y, p + 4), ByteAt(y, p + 5), ByteAt(y, p + 6), ByteAt(y, p + 7));
    PackBytes(Apply(op, ByteAt(x, p), ByteAt(y, p)), Apply(op, ByteAt(x, p + 1), ByteAt(y, p + 1)),
              Apply(op, ByteAt(x, p + 2), ByteAt(y, p + 2)), Apply(op, ByteAt(x, p + 3), ByteAt(y, p + 3)),
              Apply(op, ByteAt(x, p + 4), ByteAt(y, p + 4)), Apply(op, ByteAt(x, p + 5), ByteAt(y, p + 5)),
              Apply(op, ByteAt(x, p + 6), ByteAt(y, p + 6)), Apply(op, ByteAt(x, p + 7), ByteAt(y, p + 7)));
  }

  /** One statement of the fast path: a word of the result combined with a word of a string. */
  method WordStep(op: Op, res: array<bv8>, src: seq<bv8>, p: nat)
    requires p + 8 <= res.Length
    modifies res
    ensures forall x :: 0 <= x < res.Length ==>
              res[x] == if p <= x < p + 8 then Apply(op, old(res[x]), ByteAt(src, x)) else old(res[x])
  {
    hide Pack, WordByte, Combine, Apply;
    ghost var was := res[..];
    var w := Combine(op, PackAt(res[..], p), PackAt(src, p));
    for k := 0 to 8
      invariant forall x :: 0 <= x < res.Length ==>
                  res[x] == if p <= x < p + k then Apply(op, was[x], ByteAt(src, x)) else was[x]
    {
      CombineBytes(op, was, src, p, k);
      res[p + k] := WordByte(w, k);
    }
  }

  /** Four words. */
  method BlockStep(op: Op, res: array<bv8>, src: seq<bv8>, p: nat)
    requires p + 32 <= res.Length
    modifies res
    ensures forall x :: 0 <= x < res.Length ==>
              res[x] == if p <= x < p + 32 then Apply(op, old(res[x]), ByteAt(src, x)) else old(res[x])
  {
    hide Apply, ByteAt;
    ghost var was := res[..];
    for q := 0 to 4
      invariant forall x :: 0 <= x < res.Length ==>
                  res[x] == if p <= x < p + 8 * q then Apply(op, was[x], ByteAt(src, x)) else was[x]
    {
      WordStep(op, res, src, p + 8 * q);
    }
  }

  /** One turn of the fast path over all the strings. */
  method BlockTurn(op: Op, res: array<bv8>, srcs: seq<seq<bv8>>, p: nat)
    requires 1 <= |srcs| && (op == Not ==> |srcs| == 1) && p + 32 <= res.Length
    requires forall x :: p <= x < p + 32 ==> res[x] == ByteAt(srcs[0], x)
    modifies res
    ensures forall x :: 0 <= x < res.Length ==>
              res[x] == if p <= x < p + 32 then Fold(op, srcs, x, |srcs|) else old(res[x])
  {
    hide ByteAt;
    if op == Not {
      BlockStep(op, res, srcs[0], p);
      return;
    }
    ghost var was := res[..];
    for i := 1 to |srcs|
      invariant forall x :: 0 <= x < res.Length ==> res[x] == if p <= x < p + 32 then Fold(op, srcs, x, i) else was[x]
    {
      hide Apply;
      BlockStep(op, res, srcs[i], p);
    }
  }

  function MaxLen(srcs: seq<seq<bv8>>): (n: nat)
    ensures forall i :: 0 <= i < |srcs| ==> |srcs[i]| <= n
  {
    if srcs == [] then 0 else Max(MaxLen(srcs[..|srcs| - 1]), |srcs[|srcs| - 1]|)
  }

  /** The lengths, as the code collects them. */
  method Lengths(srcs: seq<seq<bv8>>) returns (minlen: nat, maxlen: nat)
    requires |srcs| >= 1
    ensures maxlen == MaxLen(srcs) && forall i :: 0 <= i < |srcs| ==> minlen <= |srcs[i]|
  {
    minlen, maxlen := 0, 0;
    for j := 0 to |srcs|
      invariant maxlen == MaxLen(srcs[..j]) && forall i :: 0 <= i < j ==> minlen <= |srcs[i]|
    {
      assert srcs[..j + 1][..j] == srcs[..j];
      if |srcs[j]| > maxlen {
        maxlen := |srcs[j]|;
      }
      if j == 0 || |srcs[j]| < minlen {
        minlen := |srcs[j]|;
      }
    }
    assert srcs[..|srcs|] == srcs;
  }

  /** The fast path; j is the first byte it leaves. */
  method FastPath(op: Op, res: array<bv8>, srcs: seq<seq<bv8>>, minlen: nat) returns (j: nat)
    requires 1 <= |srcs| && (op == Not ==> |srcs| == 1) && minlen <= res.Length
    requires forall i :: 0 <= i < |srcs| ==> minlen <= |srcs[i]|
    modifies res
    ensures j <= res.Length && forall x :: 0 <= x < j ==> res[x] == Fold(op, srcs, x, |srcs|)
  {
    hide Fold;
    j := 0;
    if minlen < 32 || |srcs| > 16 {
      return;
    }
    forall x | 0 <= x < minlen {
      res[x] := srcs[0][x];
    }
    var left := minlen;
    while left >= 32
      invariant j + left == minlen
      invariant forall x :: 0 <= x < j ==> res[x] == Fold(op, srcs, x, |srcs|)
      invariant forall x :: j <= x < minlen ==> res[x] == ByteAt(srcs[0], x)
      decreases left
    {
      BlockTurn(op, res, srcs, j);
      j, left := j + 32, left - 32;
    }
  }

  /** BITOP: every byte of the result is the fold of the zero-padded strings at that byte. */
  method Bitop(op: Op, srcs: seq<seq<bv8>>) returns (res: array<bv8>)
    requires 1 <= |srcs| && (op == Not ==> |srcs| == 1)
    ensures res.Length == MaxLen(srcs) && forall j :: 0 <= j < res.Length ==> res[j] == Fold(op, srcs, j, |srcs|)
  {
    hide Apply, ByteAt;
    var minlen, maxlen := Lengths(srcs);
    assert minlen <= |srcs[0]| <= maxlen;
    res := new bv8[maxlen](_ => 0);
    var j := FastPath(op, res, srcs, minlen);
    while j < maxlen
      invariant j <= maxlen && forall x :: 0 <= x < j ==> res[x] == Fold(op, srcs, x, |srcs|)
    {
      var output := ByteAt(srcs[0], j);
      if op == Not {
        output := !output;
      }
      for i := 1 to |srcs|
        invariant output == Fold(op, srcs, j, i)
      {
        output := Apply(op, output, ByteAt(srcs[i], j));
      }
      res[j] := output;
      j := j + 1;
    }
  }
}
