/** Printing a user as operations, and the proof that replaying them gives the user back. */
module AclDescribe {
  import opened Common
  import opened Acl

  // ----- the printer, as the list of operations it joins with spaces

  function Prefixed(p: string, q: seq<string>): seq<string> {
    if q == [] then [] else [p + q[0]] + Prefixed(p, q[1..])
  }

  function FlagOps(u: User): seq<string> {
    (if u.enabled then ["on"] else []) + (if u.disabled then ["off"] else []) + (if u.nopass then ["nopass"] else [])
  }

  function KeyOps(u: User): seq<string> {
    if u.allkeys then ["~*"] else Prefixed("~", u.patterns)
  }

  /** ACLUserCanExecuteFutureCommands, negated: start from nothing and add. */
  predicate Additive(u: User) {
    FUTURE !in u.bits
  }

  /** ACLCountCategoryBitsForUser */
  function Count(cmds: seq<Command>, u: User, category: string, on: bool): nat {
    if cmds == [] then 0
    else
      (if category in cmds[0].categories && (cmds[0].id in u.bits) == on then 1 else 0) +
      Count(cmds[1..], u, category, on)
  }

  predicate Emits(t: Table, u: User, category: string) {
    var on := Count(t.cmds, u, category, true);
    var off := Count(t.cmds, u, category, false);
    if Additive(u) then on > off else off > on
  }

  function CategoryOps(t: Table, u: User, categories: seq<string>): seq<string> {
    if categories == [] then []
    else (if Emits(t, u, categories[0]) then [(if Additive(u) then "+@" else "-@") + categories[0]] else []) +
         CategoryOps(t, u, categories[1..])
  }

  /** The bits of the fake user once the category rules are applied to it. */
  function CategoryBits(t: Table, u: User, categories: seq<string>, fake: User): User
    decreases |categories|
  {
    if categories == [] then fake
    else
      var next := if Emits(t, u, categories[0]) then SetCategory(t.cmds, fake, categories[0], Additive(u)) else fake;
      CategoryBits(t, u, categories[1..], next)
  }

  /** The fix for one command, the fake user having the given bits. */
  function CommandOps(u: User, fake: set<nat>, c: Command): seq<string> {
    FixOp(u, fake, c) + SubOps(u, c)
  }

  function FixOp(u: User, fake: set<nat>, c: Command): seq<string> {
    if (c.id in u.bits) == (c.id in fake) then [] else [(if c.id in u.bits then "+" else "-") + c.name]
  }

  function SubOps(u: User, c: Command): seq<string> {
    if c.id in u.bits then [] else Prefixed("+" + c.name + "|", SubsOf(u, c.id))
  }

  function FixOps(u: User, fake: set<nat>, cmds: seq<Command>): seq<string> {
    if cmds == [] then [] else CommandOps(u, fake, cmds[0]) + FixOps(u, fake, cmds[1..])
  }

  function Base(u: User): User {
    if Additive(u) then FRESH else FRESH.(bits := AllBits(), allcommands := true)
  }

  /** ACLDescribeUserCommandRules */
  function RuleOps(t: Table, u: User): seq<string> {
    [if Additive(u) then "-@all" else "+@all"] + CategoryOps(t, u, t.categories) +
    FixOps(u, CategoryBits(t, u, t.categories, Base(u)).bits, t.cmds)
  }

  /** ACLDescribeUser */
  function Describe(t: Table, u: User): seq<string> {
    FlagOps(u) + Prefixed("#", u.passwords) + KeyOps(u) + RuleOps(t, u)
  }

  // ----- what is printed parses as it is meant

  lemma LowerHead(s: string)
    requires s != []
    ensures Lower(s) != [] && Lower(s)[0] == LowerChar(s[0]) && |Lower(s)| == |s|
  {
  }

  lemma SameHead(a: string, b: string)
    requires a != [] && b != [] && Same(a, b)
    ensures LowerChar(a[0]) == LowerChar(b[0]) && |a| == |b|
  {
    LowerHead(a);
    LowerHead(b);
  }

  lemma SameTail(a: string, b: string, k: nat)
    requires k <= |a| && k <= |b| && Same(a, b)
    ensures Same(a[k..], b[k..])
  {
    assert Lower(a)[k..] == Lower(a[k..]);
    assert Lower(b)[k..] == Lower(b[k..]);
  }

  /** No word starts with these characters. */
  lemma NoWord(c: string)
    requires c != [] && c[0] !in {'o', 'O', 'a', 'A', 'r', 'R', 'n', 'N', '~', '+', '-'}
    ensures Word(c) == None
  {
    LowerHead(c);
    hide Same;
    if Same(c, "on") { SameHead(c, "on"); }
    if Same(c, "off") { SameHead(c, "off"); }
    if Same(c, "allkeys") { SameHead(c, "allkeys"); }
    if Same(c, "~*") { SameHead(c, "~*"); }
    if Same(c, "resetkeys") { SameHead(c, "resetkeys"); }
    if Same(c, "allcommands") { SameHead(c, "allcommands"); }
    if Same(c, "+@all") { SameHead(c, "+@all"); }
    if Same(c, "nocommands") { SameHead(c, "nocommands"); }
    if Same(c, "-@all") { SameHead(c, "-@all"); }
    if Same(c, "nopass") { SameHead(c, "nopass"); }
    if Same(c, "resetpass") { SameHead(c, "resetpass"); }
  }

  /** Only one word starts with each of these. */
  lemma SignWord(c: string)
    requires c != [] && c[0] in {'~', '+', '-'}
    requires !Same(c, "~*") && !Same(c, "+@all") && !Same(c, "-@all")
    ensures Word(c) == None
  {
    LowerHead(c);
    hide Same;
    if Same(c, "on") { SameHead(c, "on"); }
    if Same(c, "off") { SameHead(c, "off"); }
    if Same(c, "allkeys") { SameHead(c, "allkeys"); }
    if Same(c, "resetkeys") { SameHead(c, "resetkeys"); }
    if Same(c, "allcommands") { SameHead(c, "allcommands"); }
    if Same(c, "nocommands") { SameHead(c, "nocommands"); }
    if Same(c, "nopass") { SameHead(c, "nopass"); }
    if Same(c, "resetpass") { SameHead(c, "resetpass"); }
  }

  lemma ParseHash(h: string)
    requires IsHash(h)
    ensures Parse("#" + h) == AddHash(h)
  {
    var op := "#" + h;
    assert '\0' !in op && op[1..] == h;
    NoWord(op);
  }

  lemma ParsePattern(p: string)
    requires !HasSpaces(p) && p != "*"
    ensures Parse("~" + p) == AddPattern(p)
  {
    var op := "~" + p;
    assert '\0' !in op && op[1..] == p;
    if Same(op, "~*") {
      SameHead(op, "~*");
      SameTail(op, "~*", 1);
      SameHead(p, "*");
    }
    if Same(op, "+@all") { SameHead(op, "+@all"); }
    if Same(op, "-@all") { SameHead(op, "-@all"); }
    SignWord(op);
  }

  lemma NotAll(sign: char, rest: string)
    requires sign in {'+', '-'} && rest != [] && (rest[0] != '@' || !Same(rest[1..], "all"))
    ensures Word([sign] + rest) == None
  {
    var op := [sign] + rest;
    assert op[1] == rest[0] && op[2..] == rest[1..];
    if Same(op, "~*") { SameHead(op, "~*"); }
    if Same(op, "+@all") {
      SameTail(op, "+@all", 1);
      SameHead(op[1..], "@all");
      SameTail(op, "+@all", 2);
    }
    if Same(op, "-@all") {
      SameTail(op, "-@all", 1);
      SameHead(op[1..], "@all");
      SameTail(op, "-@all", 2);
    }
    SignWord(op);
  }

  lemma ParseCommand(name: string)
    requires NameOk(name)
    ensures Parse("+" + name) == AddCommand(name) && Parse("-" + name) == RemoveCommand(name)
  {
    assert ("+" + name)[1..] == name && ("-" + name)[1..] == name;
    NotAll('+', name);
    NotAll('-', name);
  }

  lemma FirstBar(h: string, x: string)
    requires '|' !in h
    ensures '|' in h + "|" + x && IndexOf(h + "|" + x, '|') == |h|
  {
    var op := h + "|" + x;
    assert op[|h|] == '|';
    assert forall i :: 0 <= i < |h| ==> op[i] == h[i];
  }

  lemma ParseSub(name: string, sub: string)
    requires NameOk(name) && '\0' !in sub
    ensures Parse("+" + name + "|" + sub) == AddSubcommand(name, sub)
  {
    hide Word, Same, IndexOf, CStr, Parse;
    var op := "+" + name + "|" + sub;
    NotAll('+', name + "|" + sub);
    assert op == ['+'] + (name + "|" + sub);
    assert '\0' !in op;
    ParseSign(op);
    FirstBar("+" + name, sub);
    var k := 1 + |name|;
    assert op[1..k] == name && op[k + 1..] == sub && op[1] == name[0];
  }

  lemma ParseSign(op: string)
    requires op != [] && '\0' !in op && Word(op) == None
    ensures Parse(op) == Sigil(op, op)
  {
    hide Word, Sigil;
  }

  lemma ParseCategory(x: string)
    requires '\0' !in x && !Same(x, "all")
    ensures Parse("+@" + x) == Category(true, x) && Parse("-@" + x) == Category(false, x)
  {
    assert ("@" + x)[1..] == x;
    assert "+@" + x == ['+'] + ("@" + x) && "-@" + x == ['-'] + ("@" + x);
    assert ("+@" + x)[2..] == x && ("-@" + x)[2..] == x;
    NotAll('+', "@" + x);
    NotAll('-', "@" + x);
  }

  lemma ParseWords()
    ensures Parse("on") == On && Parse("off") == Off && Parse("nopass") == NoPass
    ensures Parse("~*") == AllKeys && Parse("+@all") == AllCommands && Parse("-@all") == NoCommands
  {
    ParseOnOff();
    ParseNoPass();
    ParseStars();
  }

  lemma NotSame(a: string, b: string)
    requires |a| != |b| || (a != [] && LowerChar(a[0]) != LowerChar(b[0]))
    ensures !Same(a, b)
  {
    if a != [] && b != [] {
      LowerHead(a);
      LowerHead(b);
    }
  }

  lemma ParseOnOff()
    ensures Parse("on") == On && Parse("off") == Off
  {
    hide Same;
    SameSelf("on");
    SameSelf("off");
    NotSame("off", "on");
  }

  lemma SameSelf(a: string)
    ensures Same(a, a)
  {
  }

  lemma ParseNoPass()
    ensures Parse("nopass") == NoPass
  {
    hide Same;
    SameSelf("nopass");
    NotSame("nopass", "on");
    NotSame("nopass", "off");
    NotSame("nopass", "allkeys");
    NotSame("nopass", "~*");
    NotSame("nopass", "resetkeys");
    NotSame("nopass", "allcommands");
    NotSame("nopass", "+@all");
    NotSame("nopass", "nocommands");
    NotSame("nopass", "-@all");
  }

  lemma ParseStars()
    ensures Parse("~*") == AllKeys && Parse("+@all") == AllCommands && Parse("-@all") == NoCommands
  {
    hide Same;
    SameSelf("~*");
    NotSame("~*", "on");
    NotSame("~*", "off");
    NotSame("~*", "allkeys");
    ParseAll("+@all");
    ParseAll("-@all");
    SameSelf("+@all");
    SameSelf("-@all");
    NotSame("-@all", "+@all");
  }

  lemma ParseAll(c: string)
    requires c == "+@all" || c == "-@all"
    ensures !Same(c, "on") && !Same(c, "off") && !Same(c, "allkeys") && !Same(c, "~*") && !Same(c, "resetkeys")
    ensures !Same(c, "allcommands") && !Same(c, "nocommands")
  {
    hide Same;
    NotSame(c, "on");
    NotSame(c, "off");
    NotSame(c, "allkeys");
    NotSame(c, "~*");
    NotSame(c, "resetkeys");
    NotSame(c, "allcommands");
    NotSame(c, "nocommands");
  }
}
