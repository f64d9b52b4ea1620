/** The append only file as a command log: the encoder, the feeder that inserts SELECTs, and the
    loader that replays the log through a fake client. Bytes are characters. */
module AofLog {
  type Argv = seq<string>

  // ----- decimal numbers

  predicate IsDigit(c: char) { '0' <= c <= '9' }

  function DigitOf(d: nat): char
    requires d < 10
  {
    '0' + d as char
  }

  function ValueOf(c: char): nat
    requires IsDigit(c)
  {
    (c - '0') as nat
  }

  /** ll2string and "%d" on a non-negative number. */
  function Dec(n: nat): (s: string)
    ensures s != [] && forall i :: 0 <= i < |s| ==> IsDigit(s[i])
  {
    if n < 10 then [DigitOf(n)] else Dec(n / 10) + [DigitOf(n % 10)]
  }

  function ReadDigits(s: string, acc: nat): (n: nat)
    ensures n >= acc
  {
    if s == [] || !IsDigit(s[0]) then acc else ReadDigits(s[1..], 10 * acc + ValueOf(s[0]))
  }

  predicate IsSpace(c: char) { c == ' ' || '\t' <= c <= '\r' }

  /** atoi and strtol in base 10, without their bounds. */
  function Atoi(s: string): int {
    if s == [] then 0
    else if IsSpace(s[0]) then Atoi(s[1..])
    else if s[0] == '-' then -(ReadDigits(s[1..], 0) as int)
    else if s[0] == '+' then ReadDigits(s[1..], 0)
    else ReadDigits(s, 0)
  }

  // ----- the encoder

  function EncodeArg(a: string): string {
    "$" + Dec(|a|) + "\r\n" + a + "\r\n"
  }

  function EncodeArgs(argv: Argv): string {
    if argv == [] then "" else EncodeArg(argv[0]) + EncodeArgs(argv[1..])
  }

  /** catAppendOnlyGenericCommand */
  function Encode(argv: Argv): string {
    "*" + Dec(|argv|) + "\r\n" + EncodeArgs(argv)
  }

  function EncodeAll(cmds: seq<Argv>): string {
    if cmds == [] then "" else Encode(cmds[0]) + EncodeAll(cmds[1..])
  }

  // ----- reading the file; `f` is what is left of it

  /** fgets with a buffer of 128 bytes. */
  function LineLen(f: string, room: nat): (n: nat)
    ensures n <= |f| && n <= room
    ensures f != [] && room > 0 ==> n > 0
  {
    if f == [] || room == 0 then 0 else if f[0] == '\n' then 1 else 1 + LineLen(f[1..], room - 1)
  }

  const FGETS: nat := 127

  datatype Read<T> = Got(v: T, rest: string) | Short | Bad

  function ReadArg(f: string): Read<string> {
    var n := LineLen(f, FGETS);
    var rest := f[n..];
    if n == 0 then Short
    else if f[0] != '$' then Bad
    else
      var len := Atoi(f[1..n]);
      if len < 0 then Bad
      else if |rest| < len + 2 then Short
      else Got(rest[..len], rest[len + 2..])
  }

  function ReadArgs(f: string, argc: nat): Read<Argv>
    decreases argc
  {
    if argc == 0 then Got([], f)
    else match ReadArg(f)
      case Short => Short
      case Bad => Bad
      case Got(a, rest) =>
        (match ReadArgs(rest, argc - 1)
         case Short => Short
         case Bad => Bad
         case Got(v, r) => Got([a] + v, r))
  }

  /** One command, from a file that is not at its end. */
  function ReadCommand(f: string): Read<Argv>
    requires f != []
  {
    var n := LineLen(f, FGETS);
    if f[0] != '*' then Bad
    else if n == 1 || f[1] == '\0' then (if n == |f| && n < FGETS && f[n - 1] != '\n' then Short else Bad)
    else
      var argc := Atoi(f[1..n]);
      if argc < 1 then Bad else ReadArgs(f[n..], argc)
  }

  // ----- numbers round trip

  lemma {:induction false} ReadDigitsAppend(s: string, x: string, acc: nat)
    requires forall i :: 0 <= i < |s| ==> IsDigit(s[i])
    ensures ReadDigits(s + x, acc) == ReadDigits(x, ReadDigits(s, acc))
  {
    if s == [] {
      assert s + x == x;
    } else {
      assert (s + x)[1..] == s[1..] + x;
      ReadDigitsAppend(s[1..], x, 10 * acc + ValueOf(s[0]));
    }
  }

  lemma {:induction false} ReadDigitsDec(n: nat)
    ensures ReadDigits(Dec(n), 0) == n
  {
    if n >= 10 {
      ReadDigitsDec(n / 10);
      ReadDigitsAppend(Dec(n / 10), [DigitOf(n % 10)], 0);
      assert [DigitOf(n % 10)][1..] == [];
    }
  }

  /** What stands before a character that is no digit is read back. */
  lemma AtoiDec(n: nat, x: string)
    requires x == [] || !IsDigit(x[0])
    ensures Atoi(Dec(n) + x) == n
  {
    ReadDigitsAppend(Dec(n), x, 0);
    ReadDigitsDec(n);
    assert (Dec(n) + x)[0] == Dec(n)[0];
  }

  lemma {:induction false} DecHead(n: nat)
    requires n > 0
    ensures Dec(n)[0] != '0'
  {
    if n >= 10 {
      DecHead(n / 10);
    }
  }

  /** A cut number is still a positive number. */
  lemma AtoiCut(n: nat, k: nat)
    requires n > 0 && 0 < k <= |Dec(n)|
    ensures Atoi(Dec(n)[..k]) > 0
  {
    DecHead(n);
    var s := Dec(n)[..k];
    assert s[0] == Dec(n)[0] && ValueOf(s[0]) > 0;
    assert ReadDigits(s, 0) == ReadDigits(s[1..], ValueOf(s[0]));
  }

  lemma AtoiDigits(s: string)
    requires forall i :: 0 <= i < |s| ==> IsDigit(s[i])
    ensures Atoi(s) >= 0
  {
  }

  function Pow10(k: nat): nat {
    if k == 0 then 1 else 10 * Pow10(k - 1)
  }

  lemma {:induction false} DecShort(n: nat, k: nat)
    requires k > 0 && n < Pow10(k)
    ensures |Dec(n)| <= k
  {
    if n >= 10 {
      DecShort(n / 10, k - 1);
    }
  }

  /** Sizes the machine can hold. */
  predicate Fits(n: nat) {
    n < 0x8000_0000_0000_0000
  }

  lemma DecFits(n: nat)
    requires Fits(n)
    ensures |Dec(n)| <= 19
  {
    assert Pow10(5) == 100000;
    assert Pow10(10) == 10000000000;
    assert Pow10(15) == 1000000000000000;
    assert Pow10(19) == 10000000000000000000;
    DecShort(n, 19);
  }

  // ----- lines

  lemma {:induction false} LineWhole(h: string, x: string, room: nat)
    requires '\n' !in h && |h| < room
    ensures LineLen(h + "\n" + x, room) == |h| + 1
  {
    if h == [] {
      assert (h + "\n" + x)[0] == '\n';
    } else {
      assert (h + "\n" + x)[1..] == h[1..] + "\n" + x;
      LineWhole(h[1..], x, room - 1);
    }
  }

  lemma {:induction false} LineCut(h: string, room: nat)
    requires '\n' !in h && |h| <= room
    ensures LineLen(h, room) == |h|
  {
    if h != [] {
      LineCut(h[1..], room - 1);
    }
  }

  /** The line that announces a number, and what is read from it. */
  function Header(c: char, n: nat): string {
    [c] + Dec(n) + "\r\n"
  }

  lemma HeaderWhole(c: char, n: nat, x: string)
    requires Fits(n) && c != '\n'
    ensures var f := Header(c, n) + x;
            LineLen(f, FGETS) == |Header(c, n)| && f[..|Header(c, n)|] == Header(c, n) && f[|Header(c, n)|..] == x &&
            f[0] == c && Atoi(f[1..|Header(c, n)|]) == n && IsDigit(f[1]) && |Header(c, n)| > 3
  {
    DecFits(n);
    var h := [c] + Dec(n) + "\r";
    assert Header(c, n) == h + "\n";
    LineWhole(h, x, FGETS);
    var f := Header(c, n) + x;
    assert f == h + "\n" + x;
    assert f[1..|Header(c, n)|] == Dec(n) + "\r\n";
    AtoiDec(n, "\r\n");
  }

  /** A header cut short is one line to the end of the file. */
  lemma HeaderCut(c: char, n: nat, k: nat)
    requires Fits(n) && c != '\n' && 0 < k < |Header(c, n)|
    ensures var f := Header(c, n)[..k];
            LineLen(f, FGETS) == k && k < FGETS && f[0] == c && f[k - 1] != '\n' && Atoi(f[1..]) >= 0 &&
            (k > 1 && n > 0 ==> IsDigit(f[1]) && Atoi(f[1..]) > 0)
  {
    DecFits(n);
    var f := Header(c, n)[..k];
    var d := |Dec(n)|;
    assert f == ([c] + Dec(n) + "\r")[..k];
    LineCut(f, FGETS);
    if k <= 1 + d {
      assert f[1..] == Dec(n)[..k - 1];
      if k > 1 && n > 0 {
        AtoiCut(n, k - 1);
      }
      AtoiDigits(f[1..]);
    } else {
      assert f[1..] == Dec(n) + "\r";
      AtoiDec(n, "\r");
    }
  }

  // ----- reading back what was written, whole or cut

  lemma ArgWhole(a: string, x: string)
    requires Fits(|a|)
    ensures ReadArg(EncodeArg(a) + x) == Got(a, x)
  {
    var body := a + "\r\n" + x;
    var f := EncodeArg(a) + x;
    assert f == Header('$', |a|) + body;
    HeaderWhole('$', |a|, body);
    assert body[..|a|] == a && body[|a| + 2..] == x;
  }

  lemma ArgCut(a: string, k: nat)
    requires Fits(|a|) && k < |EncodeArg(a)|
    ensures ReadArg(EncodeArg(a)[..k]) == Short
  {
    var h := Header('$', |a|);
    var f := EncodeArg(a)[..k];
    if k == 0 {
    } else if k < |h| {
      assert f == h[..k];
      HeaderCut('$', |a|, k);
      assert f[1..k] == f[1..];
    } else {
      var body := (a + "\r\n")[..k - |h|];
      assert f == h + body;
      HeaderWhole('$', |a|, body);
    }
  }

  predicate ArgsFit(argv: Argv) {
    forall i :: 0 <= i < |argv| ==> Fits(|argv[i]|)
  }

  lemma {:induction false} ArgsWhole(argv: Argv, x: string)
    requires ArgsFit(argv)
    ensures ReadArgs(EncodeArgs(argv) + x, |argv|) == Got(argv, x)
  {
    hide ReadArg, EncodeArg;
    if argv == [] {
      assert EncodeArgs(argv) + x == x;
    } else {
      ArgWhole(argv[0], EncodeArgs(argv[1..]) + x);
      ArgsWhole(argv[1..], x);
      assert EncodeArgs(argv) + x == EncodeArg(argv[0]) + (EncodeArgs(argv[1..]) + x);
      assert [argv[0]] + argv[1..] == argv;
    }
  }

  lemma {:induction false} ArgsCut(argv: Argv, k: nat)
    requires ArgsFit(argv) && k < |EncodeArgs(argv)|
    ensures ReadArgs(EncodeArgs(argv)[..k], |argv|) == Short
  {
    hide ReadArg, EncodeArg;
    var e := EncodeArg(argv[0]);
    var f := EncodeArgs(argv)[..k];
    if k < |e| {
      assert f == e[..k];
      ArgCut(argv[0], k);
    } else {
      var x := EncodeArgs(argv[1..])[..k - |e|];
      assert f == e + x;
      ArgWhole(argv[0], x);
      ArgsCut(argv[1..], k - |e|);
    }
  }

  /** A command as the feeder makes them: a name at least, and sizes a machine can hold. */
  predicate Feedable(argv: Argv) {
    argv != [] && Fits(|argv|) && ArgsFit(argv)
  }

  lemma CommandWhole(argv: Argv, x: string)
    requires Feedable(argv)
    ensures ReadCommand(Encode(argv) + x) == Got(argv, x)
  {
    hide ReadArgs, EncodeArgs, LineLen, Atoi;
    var f := Encode(argv) + x;
    var body := EncodeArgs(argv) + x;
    assert f == Header('*', |argv|) + body;
    HeaderWhole('*', |argv|, body);
    ArgsWhole(argv, x);
  }

  lemma CommandCut(argv: Argv, k: nat)
    requires Feedable(argv) && 0 < k < |Encode(argv)|
    ensures ReadCommand(Encode(argv)[..k]) == Short
  {
    hide EncodeArgs, LineLen, Atoi;
    var h := Header('*', |argv|);
    var f := Encode(argv)[..k];
    if k < |h| {
      assert f == h[..k];
      HeaderCut('*', |argv|, k);
      assert f[1..k] == f[1..] && f[k..] == [];
      if k > 1 {
        NothingToRead(Atoi(f[1..k]));
      }
    } else {
      var x := EncodeArgs(argv)[..k - |h|];
      assert f == h + x;
      HeaderWhole('*', |argv|, x);
      ArgsCut(argv, k - |h|);
    }
  }

  lemma NothingToRead(argc: nat)
    requires argc > 0
    ensures ReadArgs([], argc) == Short
  {
    assert ReadArg([]) == Short;
  }
}
