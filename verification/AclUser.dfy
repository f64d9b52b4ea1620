/** A user as the server holds it: flags, lists and a bitmap updated in place, and the printer that
    applies its own rules to a fake user as it goes. */
module AclUser {
  import opened Common
  import opened Acl
  import opened AclDescribe
  import opened AclRoundTrip

  ghost function BitSet(b: seq<bool>): (s: set<nat>)
    ensures forall i :: i in s <==> 0 <= i < |b| && b[i]
  {
    set i | 0 <= i < |b| && b[i]
  }

  class UserObject {
    var enabled: bool
    var disabled: bool
    var allkeys: bool
    var allcommands: bool
    var nopass: bool
    var passwords: seq<string>
    var patterns: seq<string>
    const allowed: array<bool>            // allowed_commands, a bool per bit
    var subs: map<nat, seq<string>>       // allowed_subcommands

    ghost predicate Valid()
      reads this
    {
      allowed.Length == BITS
    }

    ghost function View(): User
      reads this, allowed
    {
      User(enabled, disabled, allkeys, allcommands, nopass, passwords, patterns, BitSet(allowed[..]), subs)
    }

    /** ACLCreateUser, without its name. */
    constructor ()
      ensures Valid() && fresh(allowed) && View() == FRESH
    {
      enabled, disabled, allkeys, allcommands, nopass := false, true, false, false, false;
      passwords, patterns, subs := [], [], map[];
      allowed := new bool[BITS](_ => false);
      new;
      assert BitSet(allowed[..]) == {};
    }

    /** ACLGetUserCommandBit */
    method GetCommandBit(id: nat) returns (on: bool)
      requires Valid()
      ensures on <==> id in View().bits
    {
      if id >= BITS {
        return false;
      }
      return allowed[id];
    }

    /** ACLSetUserCommandBit */
    method SetCommandBit(id: nat, value: bool)
      requires Valid()
      modifies this`allcommands, allowed
      ensures View() == SetBit(old(View()), id, value)
    {
      if id >= BITS {
        return;
      }
      allowed[id] := value;
      if !value {
        allcommands := false;
      }
      assert allowed[..] == old(allowed[..])[id := value];
      assert BitSet(allowed[..]) == SetBit(old(View()), id, value).bits;
    }

    /** The memset of +@all and -@all. */
    method FillBits(value: bool)
      requires Valid()
      modifies allowed
      ensures forall i :: 0 <= i < BITS ==> allowed[i] == value
    {
      for i := 0 to BITS
        invariant forall j :: 0 <= j < i ==> allowed[j] == value
      {
        allowed[i] := value;
      }
    }

    /** ACLSetUserCommandBitsForCategory, once the category is known. */
    method SetBitsForCategory(cmds: seq<Command>, category: string, value: bool)
      requires Valid()
      modifies this, allowed
      ensures View() == SetCategory(cmds, old(View()), category, value)
    {
      hide SetBit, View, BitSet;
      for k := 0 to |cmds|
        invariant SetCategory(cmds[k..], View(), category, value) == SetCategory(cmds, old(View()), category, value)
      {
        assert cmds[k..][1..] == cmds[k + 1..] && cmds[k..][0] == cmds[k];
        var c := cmds[k];
        if !c.fromModule && category in c.categories {
          SetBitAndDropSubs(c.id, value);
        }
      }
      assert cmds[|cmds|..] == [];
    }

    /** A bit change, then ACLResetSubcommandsForCommand. */
    method SetBitAndDropSubs(id: nat, value: bool)
      requires Valid()
      modifies this, allowed
      ensures View() == DropSubs(SetBit(old(View()), id, value), id)
    {
      SetCommandBit(id, value);
      subs := subs - {id};
    }

    /** ACLAddAllowedSubcommand */
    method AddAllowedSubcommand(id: nat, sub: string)
      modifies this`subs
      ensures View() == AddSub(old(View()), id, sub)
    {
      hide Same;
      var q := if id in subs then subs[id] else [];
      for items := 0 to |q|
        invariant forall i :: 0 <= i < items ==> !Same(q[i], sub)
        invariant subs == old(subs)
      {
        if Same(q[items], sub) {
          return;
        }
      }
      subs := subs[id := q + [sub]];
    }

    /** The branches of ACLSetUser that change the command bits. */
    method DoCommand(t: Table, hash: string -> string, r: Rule) returns (e: Option<Error>)
      requires Valid() && (r.AddCommand? || r.RemoveCommand? || r.AddSubcommand? || r.Category?)
      modifies this, allowed
      ensures match e
              case None => Do(t, hash, old(View()), r) == Ok(View())
              case Some(x) => Do(t, hash, old(View()), r) == Err(x) && View() == old(View())
    {
      hide SetBit, BitSet, SetCategory, AddSub;
      e := None;
      match r {
        case AddCommand(name) =>
          var id := IdOf(t.cmds, name);
          if id == None { return Some(ENOENT); }
          SetBitAndDropSubs(id.value, true);
        case RemoveCommand(name) =>
          var id := IdOf(t.cmds, name);
          if id == None { return Some(ENOENT); }
          SetBitAndDropSubs(id.value, false);
        case AddSubcommand(name, sub) =>
          var id := IdOf(t.cmds, name);
          if id == None { return Some(ENOENT); }
          if sub == [] { return Some(EINVAL); }
          var on := GetCommandBit(id.value);
          if on { return Some(EBUSY); }
          AddAllowedSubcommand(id.value, sub);
          SetCommandBit(id.value, false);
        case Category(add, name) =>
          var c := CategoryOf(t.categories, name);
          if c == None { return Some(ENOENT); }
          SetBitsForCategory(t.cmds, c.value, add);
      }
    }

    /** The branches that replace the whole bitmap. */
    method DoBulk(all: bool)
      requires Valid()
      modifies this, allowed
      ensures View() == old(View()).(bits := if all then AllBits() else {}, allcommands := all, subs := map[])
    {
      FillBits(all);
      allcommands, subs := all, map[];
      assert BitSet(allowed[..]) == if all then AllBits() else {};
    }

    method AddPass(h: string)
      modifies this`passwords, this`nopass
      ensures View() == old(View()).(passwords := AddTo(old(passwords), h), nopass := false)
    {
      if h !in passwords {
        passwords := passwords + [h];
      }
      nopass := false;
    }

    method RemovePass(h: string) returns (e: Option<Error>)
      modifies this`passwords
      ensures match e
              case None => Acl.RemovePass(old(View()), h) == Ok(View())
              case Some(x) => Acl.RemovePass(old(View()), h) == Err(x) && View() == old(View())
    {
      if h !in passwords {
        return Some(ENODEV);
      }
      passwords := RemoveFirst(passwords, h);
      return None;
    }

    /** The branches of ACLSetUser about keys and login. */
    method DoLogin(t: Table, hash: string -> string, r: Rule) returns (e: Option<Error>)
      requires Valid() && AboutKeysOrLogin(r)
      modifies this
      ensures match e
              case None => Do(t, hash, old(View()), r) == Ok(View())
              case Some(x) => Do(t, hash, old(View()), r) == Err(x) && View() == old(View())
    {
      hide BitSet, ChangeCommand, SetCategory, AddSub, AllBits, AddTo, Acl.RemovePass, ResetUser;
      e := None;
      match r {
        case On => enabled, disabled := true, false;
        case Off => disabled, enabled := true, false;
        case AllKeys => allkeys, patterns := true, [];
        case ResetKeys => allkeys, patterns := false, [];
        case NoPass => nopass, passwords := true, [];
        case ResetPass => nopass, passwords := false, [];
        case AddPassword(p) => AddPass(hash(p));
        case AddHash(h) => if !IsHash(h) { e := Some(EBADMSG); } else { AddPass(h); }
        case RemovePassword(p) => e := RemovePass(hash(p));
        case RemoveHash(h) => if !IsHash(h) { e := Some(EBADMSG); } else { e := RemovePass(h); }
        case AddPattern(p) => e := AddKeyPattern(p);
      }
    }

    /** ACLSetUser; an error leaves the user as it was. */
    method SetUser(t: Table, hash: string -> string, op: string) returns (e: Option<Error>)
      requires Valid()
      modifies this, allowed
      ensures match e
              case None => Acl.SetUser(t, hash, old(View()), op) == Ok(View())
              case Some(x) => Acl.SetUser(t, hash, old(View()), op) == Err(x) && View() == old(View())
    {
      hide Parse, BitSet, ChangeCommand, SetCategory, AddSub, AllBits, AddTo, Acl.RemovePass;
      var r := Parse(op);
      e := None;
      if AboutKeysOrLogin(r) {
        e := DoLogin(t, hash, r);
      } else if r.AllCommands? || r.NoCommands? {
        DoBulk(r.AllCommands?);
      } else if r.Reset? {
        nopass, passwords := false, [];
        allkeys, patterns := false, [];
        disabled, enabled := true, false;
        DoBulk(false);
      } else if r.Unknown? {
        e := Some(EINVAL);
      } else {
        e := DoCommand(t, hash, r);
      }
    }

    method AddKeyPattern(p: string) returns (e: Option<Error>)
      modifies this`patterns, this`allkeys
      ensures match e
              case None =>
                !old(allkeys) && !HasSpaces(p) &&
                View() == old(View()).(patterns := AddTo(old(patterns), p), allkeys := false)
              case Some(x) =>
                (x == if old(allkeys) then EEXIST else EINVAL) && (old(allkeys) || HasSpaces(p)) &&
                View() == old(View())
    {
      if allkeys { return Some(EEXIST); }
      if HasSpaces(p) { return Some(EINVAL); }
      if p !in patterns {
        patterns := patterns + [p];
      }
      allkeys := false;
      return None;
    }
  }

  // ----- the printer

  /** Every operation followed by a space. */
  function Spaced(ops: seq<string>): string {
    if ops == [] then "" else ops[0] + " " + Spaced(ops[1..])
  }

  lemma {:induction false} SpacedConcat(a: seq<string>, b: seq<string>)
    ensures Spaced(a + b) == Spaced(a) + Spaced(b)
  {
    if a == [] {
      assert a + b == b;
    } else {
      assert (a + b)[1..] == a[1..] + b;
      SpacedConcat(a[1..], b);
    }
  }

  /** The text of one operation or more ends with a space, which is trimmed. */
  lemma {:induction false} SpaceLast(ops: seq<string>)
    requires ops != []
    ensures Spaced(ops) != "" && Spaced(ops) == Spaced(ops)[..|Spaced(ops)| - 1] + " "
    decreases |ops|
  {
    if |ops| > 1 {
      SpaceLast(ops[1..]);
    }
  }

  lemma SpacedSnoc(a: seq<string>, op: string)
    ensures Spaced(a + [op]) == Spaced(a) + op + " "
  {
    SpacedConcat(a, [op]);
    assert [op][1..] == [];
    assert Spaced([op]) == op + " ";
  }

  /** ACLCountCategoryBitsForUser */
  method CountCategoryBits(u: UserObject, cmds: seq<Command>, category: string) returns (on: nat, off: nat)
    requires u.Valid()
    ensures on == Count(cmds, u.View(), category, true) && off == Count(cmds, u.View(), category, false)
  {
    hide u.View;
    on, off := 0, 0;
    for k := 0 to |cmds|
      invariant on + Count(cmds[k..], u.View(), category, true) == Count(cmds, u.View(), category, true)
      invariant off + Count(cmds[k..], u.View(), category, false) == Count(cmds, u.View(), category, false)
    {
      assert cmds[k..][1..] == cmds[k + 1..] && cmds[k..][0] == cmds[k];
      var bit := u.GetCommandBit(cmds[k].id);
      if category in cmds[k].categories {
        if bit { on := on + 1; } else { off := off + 1; }
      }
    }
    assert cmds[|cmds|..] == [];
  }

  lemma {:induction false} CategoriesSnoc(t: Table, u: User, cats: seq<string>, x: string, fake: User)
    ensures CategoryOps(t, u, cats + [x]) ==
            CategoryOps(t, u, cats) + (if Emits(t, u, x) then [(if Additive(u) then "+@" else "-@") + x] else [])
    ensures var f := CategoryBits(t, u, cats, fake);
            CategoryBits(t, u, cats + [x], fake) == if Emits(t, u, x) then SetCategory(t.cmds, f, x, Additive(u)) else f
    decreases |cats|
  {
    hide Emits, SetCategory;
    if cats == [] {
      assert (cats + [x])[1..] == [];
    } else {
      assert (cats + [x])[1..] == cats[1..] + [x];
      var c := cats[0];
      CategoriesSnoc(t, u, cats[1..], x, if Emits(t, u, c) then SetCategory(t.cmds, fake, c, Additive(u)) else fake);
    }
  }

  lemma {:induction false} FixSnoc(u: User, fake: set<nat>, cmds: seq<Command>, c: Command)
    ensures FixOps(u, fake, cmds + [c]) == FixOps(u, fake, cmds) + CommandOps(u, fake, c)
    decreases |cmds|
  {
    hide CommandOps;
    if cmds == [] {
      assert (cmds + [c])[1..] == [];
      assert FixOps(u, fake, [c]) == CommandOps(u, fake, c) + [];
    } else {
      assert (cmds + [c])[1..] == cmds[1..] + [c];
      FixSnoc(u, fake, cmds[1..], c);
    }
  }

  /** The category pass of ACLDescribeUserCommandRules. */
  method CategoryRules(u: UserObject, fake: UserObject, t: Table, hash: string -> string) returns (text: string)
    requires u.Valid() && fake.Valid() && u != fake && u.allowed != fake.allowed && TableOk(t)
    requires fake.View() == Base(u.View())
    modifies fake, fake.allowed
    ensures text == Spaced(CategoryOps(t, u.View(), t.categories))
    ensures fake.View() == CategoryBits(t, u.View(), t.categories, Base(u.View()))
  {
    hide TableOk, SetCategory, Acl.SetUser, BitSet, Count, Base;
    text := "";
    for k := 0 to |t.categories|
      invariant text == Spaced(CategoryOps(t, u.View(), t.categories[..k]))
      invariant fake.View() == CategoryBits(t, u.View(), t.categories[..k], Base(u.View()))
    {
      assert t.categories[..k + 1] == t.categories[..k] + [t.categories[k]];
      CategoriesSnoc(t, u.View(), t.categories[..k], t.categories[k], Base(u.View()));
      text := CategoryRule(u, fake, t, hash, k, text, CategoryOps(t, u.View(), t.categories[..k]));
    }
    assert t.categories[..|t.categories|] == t.categories;
  }

  method CategoryRule(u: UserObject, fake: UserObject, t: Table, hash: string -> string, k: nat, text0: string,
                      ghost ops: seq<string>)
    returns (text: string)
    requires u.Valid() && fake.Valid() && u != fake && u.allowed != fake.allowed && TableOk(t) && k < |t.categories|
    requires text0 == Spaced(ops)
    modifies fake, fake.allowed
    ensures var x := t.categories[k]; var v := u.View();
            text == Spaced(ops + (if Emits(t, v, x) then [(if Additive(v) then "+@" else "-@") + x] else [])) &&
            fake.View() ==
            if Emits(t, v, x) then SetCategory(t.cmds, old(fake.View()), x, Additive(v)) else old(fake.View())
  {
    hide TableOk, SetCategory, Acl.SetUser, BitSet, Count, Spaced;
    text := text0;
    var on, off := CountCategoryBits(u, t.cmds, t.categories[k]);
    var future := u.GetCommandBit(FUTURE);
    assert ops + [] == ops;
    if (!future && on > off) || (future && off > on) {
      var op := (if !future then "+@" else "-@") + t.categories[k];
      CategoryReplay(t, hash, u.View(), fake.View(), k);
      var e := fake.SetUser(t, hash, op);
      SpacedSnoc(ops, op);
      text := text + op + " ";
    }
  }

  lemma {:induction false} PrefixedSnoc(p: string, q: seq<string>, s: string)
    ensures Prefixed(p, q + [s]) == Prefixed(p, q) + [p + s]
  {
    if q == [] {
      assert (q + [s])[1..] == [];
    } else {
      assert (q + [s])[1..] == q[1..] + [s];
      PrefixedSnoc(p, q[1..], s);
    }
  }

  /** A list printed with a prefix: subcommands, passwords, patterns. */
  method PrintPrefixed(p: string, q: seq<string>) returns (text: string)
    ensures text == Spaced(Prefixed(p, q))
  {
    hide Spaced, Prefixed;
    assert q[..0] == [];
    text := "";
    assert text == Spaced(Prefixed(p, q[..0])) by { NothingPrinted(p); }
    for j := 0 to |q|
      invariant text == Spaced(Prefixed(p, q[..j]))
    {
      assert q[..j + 1] == q[..j] + [q[j]];
      PrefixedSnoc(p, q[..j], q[j]);
      SpacedSnoc(Prefixed(p, q[..j]), p + q[j]);
      text := text + (p + q[j]) + " ";
    }
    assert q[..|q|] == q;
  }

  lemma NothingPrinted(p: string)
    ensures Spaced(Prefixed(p, [])) == ""
  {
  }

  /** The rules of one command, and the fake user brought in line. */
  method CommandRules(u: UserObject, fake: UserObject, c: Command, ghost f0: set<nat>) returns (text: string)
    requires u.Valid() && fake.Valid() && u != fake && u.allowed != fake.allowed && c.id < BITS
    requires c.id in fake.View().bits <==> c.id in f0
    modifies fake, fake.allowed
    ensures text == Spaced(CommandOps(u.View(), f0, c))
    ensures fake.Valid()
    ensures forall id :: id in fake.View().bits <==>
            if id == c.id then id in u.View().bits else id in old(fake.View().bits)
  {
    hide Spaced, FixOp, SubOps, BitSet;
    var fix := FixRule(u, fake, c, f0);
    var more := SubRules(u, c);
    SpacedConcat(FixOp(u.View(), f0, c), SubOps(u.View(), c));
    text := fix + more;
  }

  method FixRule(u: UserObject, fake: UserObject, c: Command, ghost f0: set<nat>) returns (text: string)
    requires u.Valid() && fake.Valid() && u != fake && u.allowed != fake.allowed && c.id < BITS
    requires c.id in fake.View().bits <==> c.id in f0
    modifies fake, fake.allowed
    ensures text == Spaced(FixOp(u.View(), f0, c))
    ensures fake.Valid()
    ensures forall id :: id in fake.View().bits <==>
            if id == c.id then id in u.View().bits else id in old(fake.View().bits)
  {
    hide BitSet;
    text := "";
    var userbit := u.GetCommandBit(c.id);
    var fakebit := fake.GetCommandBit(c.id);
    if userbit != fakebit {
      text := (if userbit then "+" else "-") + c.name + " ";
      OneWord((if userbit then "+" else "-") + c.name);
      fake.SetCommandBit(c.id, userbit);
    }
  }

  method SubRules(u: UserObject, c: Command) returns (text: string)
    requires u.Valid()
    ensures text == Spaced(SubOps(u.View(), c))
  {
    text := "";
    var userbit := u.GetCommandBit(c.id);
    if !userbit && c.id in u.subs {
      text := PrintPrefixed("+" + c.name + "|", u.subs[c.id]);
    }
  }

  lemma NothingPrefixed()
    ensures Prefixed("", []) == []
  {
  }

  ghost predicate Matches(cmds: seq<Command>, v: User, f0: set<nat>, f: set<nat>) {
    forall id: nat :: id in f <==> if HasId(cmds, id) then id in v.bits else id in f0
  }

  lemma MatchesSnoc(cmds: seq<Command>, c: Command, v: User, f0: set<nat>, f: set<nat>, g: set<nat>)
    requires Matches(cmds, v, f0, f) && forall id :: id in g <==> if id == c.id then id in v.bits else id in f
    ensures Matches(cmds + [c], v, f0, g)
  {
    forall id: nat
      ensures HasId(cmds + [c], id) <==> HasId(cmds, id) || id == c.id
    {
      if HasId(cmds, id) {
        var i :| 0 <= i < |cmds| && cmds[i].id == id;
        assert (cmds + [c])[i].id == id;
      }
      assert (cmds + [c])[|cmds|].id == c.id;
    }
  }

  /** The last pass of ACLDescribeUserCommandRules. */
  method FixRules(u: UserObject, fake: UserObject, t: Table, ghost f0: set<nat>) returns (text: string)
    requires u.Valid() && fake.Valid() && u != fake && u.allowed != fake.allowed && TableOk(t) && f0 == fake.View().bits
    modifies fake, fake.allowed
    ensures text == Spaced(FixOps(u.View(), f0, t.cmds))
    ensures fake.Valid() && Matches(t.cmds, u.View(), f0, fake.View().bits)
  {
    hide Spaced, BitSet, CommandOps, Same, Matches, FixOps;
    text := "";
    assert t.cmds[..0] == [];
    assert text == Spaced(FixOps(u.View(), f0, [])) && Matches([], u.View(), f0, f0) by {
      NothingFixedYet(u.View(), f0);
    }
    for k := 0 to |t.cmds|
      invariant fake.Valid() && text == Spaced(FixOps(u.View(), f0, t.cmds[..k]))
      invariant Matches(t.cmds[..k], u.View(), f0, fake.View().bits)
    {
      ghost var f := fake.View().bits;
      assert t.cmds[..k + 1] == t.cmds[..k] + [t.cmds[k]];
      NotYet(t, k, u.View(), f0, f);
      var s := CommandRules(u, fake, t.cmds[k], f0);
      FixSnoc(u.View(), f0, t.cmds[..k], t.cmds[k]);
      SpacedConcat(FixOps(u.View(), f0, t.cmds[..k]), CommandOps(u.View(), f0, t.cmds[k]));
      MatchesSnoc(t.cmds[..k], t.cmds[k], u.View(), f0, f, fake.View().bits);
      text := text + s;
    }
    assert t.cmds[..|t.cmds|] == t.cmds;
  }

  lemma NothingFixedYet(v: User, f0: set<nat>)
    ensures Spaced(FixOps(v, f0, [])) == "" && Matches([], v, f0, f0)
  {
  }

  lemma NotYet(t: Table, k: nat, v: User, f0: set<nat>, f: set<nat>)
    requires TableOk(t) && k < |t.cmds| && Matches(t.cmds[..k], v, f0, f)
    ensures t.cmds[k].id in f <==> t.cmds[k].id in f0
  {
    hide Same;
    assert !HasId(t.cmds[..k], t.cmds[k].id);
  }

  /** ACLDescribeUserCommandRules with its final comparison of the two bitmaps, which never fails. */
  method DescribeCommandRules(u: UserObject, t: Table, hash: string -> string) returns (text: string, equal: bool)
    requires u.Valid() && TableOk(t) && UserOk(t, u.View())
    ensures equal && text + " " == Spaced(RuleOps(t, u.View()))
  {
    hide Spaced, BitSet, TableOk, UserOk, CategoryOps, FixOps, CategoryBits, Matches, Acl.SetUser;
    var fake := new UserObject();
    ghost var v := u.View();
    var future := u.GetCommandBit(FUTURE);
    var op := if future then "+@all" else "-@all";
    BaseReplay(t, hash, v);
    var e := fake.SetUser(t, hash, op);
    var cats := CategoryRules(u, fake, t, hash);
    ghost var f0 := fake.View().bits;
    var fixes := FixRules(u, fake, t, f0);
    text := op + " " + cats + fixes;
    RuleText(t, v, op, f0);
    SpaceLast(RuleOps(t, v));
    text := text[..|text| - 1];
    BitsMatch(t, hash, v, fake.View().bits);
    equal := CompareBits(u, fake);
  }

  lemma BaseReplay(t: Table, hash: string -> string, v: User)
    ensures Acl.SetUser(t, hash, FRESH, AllOp(v)) == Ok(Base(v))
  {
    hide Parse;
    ParseWords();
  }

  lemma RuleText(t: Table, v: User, op: string, f0: set<nat>)
    requires op == AllOp(v) && f0 == CategoryBits(t, v, t.categories, Base(v)).bits
    ensures Spaced(RuleOps(t, v)) == op + " " + Spaced(CategoryOps(t, v, t.categories)) + Spaced(FixOps(v, f0, t.cmds))
  {
    hide CategoryOps, FixOps, CategoryBits;
    SpacedSnoc([], op);
    assert Spaced([op]) == op + " ";
    SpacedConcat([op], CategoryOps(t, v, t.categories));
    SpacedConcat([op] + CategoryOps(t, v, t.categories), FixOps(v, f0, t.cmds));
  }

  /** The bits of the fake user end as those of the user: those outside the table follow the reserved bit. */
  lemma BitsMatch(t: Table, hash: string -> string, v: User, f: set<nat>)
    requires TableOk(t) && UserOk(t, v) && Matches(t.cmds, v, CategoryBits(t, v, t.categories, Base(v)).bits, f)
    ensures f == v.bits
  {
    hide CategoryOps, CategoryBits, SetUserAll, TableOk, HasId, FlagsOk, PasswordsOk, PatternsOk, SubListOk;
    CategoriesReplay(t, hash, v, Base(v), Base(v), 0);
    assert t.categories[0..] == t.categories;
    forall id: nat
      ensures id in f <==> id in v.bits
    {
    }
  }

  /** The memcmp of the two bitmaps. */
  method CompareBits(a: UserObject, b: UserObject) returns (equal: bool)
    requires a.Valid() && b.Valid()
    ensures equal <==> a.View().bits == b.View().bits
  {
    for i := 0 to BITS
      invariant forall j :: 0 <= j < i ==> a.allowed[j] == b.allowed[j]
    {
      if a.allowed[i] != b.allowed[i] {
        assert i in a.View().bits <==> i !in b.View().bits;
        return false;
      }
    }
    assert a.allowed[..] == b.allowed[..];
    return true;
  }

  /** ACLDescribeUser: the operations, with a space between each and the next. */
  method DescribeUser(u: UserObject, t: Table, hash: string -> string) returns (text: string, equal: bool)
    requires u.Valid() && TableOk(t) && UserOk(t, u.View())
    ensures equal && text + " " == Spaced(Describe(t, u.View()))
  {
    hide Spaced, BitSet, TableOk, UserOk, RuleOps, Prefixed;
    ghost var v := u.View();
    text := PrintFlags(u);
    var pass := PrintPrefixed("#", u.passwords);
    var keys := "~* ";
    if u.allkeys {
      SpacedSnoc([], "~*");
      assert [] + ["~*"] == ["~*"] && Spaced([]) == "" by { NothingPrinted(""); NothingPrefixed(); }
    } else {
      keys := PrintPrefixed("~", u.patterns);
    }
    var rules;
    rules, equal := DescribeCommandRules(u, t, hash);
    SpacedConcat(FlagOps(v), Prefixed("#", v.passwords));
    SpacedConcat(FlagOps(v) + Prefixed("#", v.passwords), KeyOps(v));
    SpacedConcat(FlagOps(v) + Prefixed("#", v.passwords) + KeyOps(v), RuleOps(t, v));
    assert text + pass + keys + rules + " " == text + pass + keys + (rules + " ");
    text := text + pass + keys + rules;
  }

  method PrintFlags(u: UserObject) returns (text: string)
    ensures text == Spaced(FlagOps(u.View()))
  {
    hide Spaced;
    ghost var a := if u.enabled then ["on"] else [];
    ghost var b := if u.disabled then ["off"] else [];
    ghost var c := if u.nopass then ["nopass"] else [];
    var on := if u.enabled then "on " else "";
    var off := if u.disabled then "off " else "";
    var nopass := if u.nopass then "nopass " else "";
    text := on + off + nopass;
    assert FlagOps(u.View()) == a + b + c;
    SpacedConcat(a, b);
    SpacedConcat(a + b, c);
    FlagText(u.enabled, "on");
    FlagText(u.disabled, "off");
    FlagText(u.nopass, "nopass");
  }

  lemma FlagText(given: bool, name: string)
    ensures Spaced(if given then [name] else []) == if given then name + " " else ""
  {
    OneWord(name);
  }

  lemma OneWord(w: string)
    ensures Spaced([w]) == w + " "
  {
    assert [w][1..] == [];
  }
}
