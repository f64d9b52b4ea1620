/** The rules of an ACL user: what each operation string means and what it does to a user. */
module Acl {
  import opened Common

  const BITS: nat := 1024       // USER_COMMAND_BITS_COUNT
  const FUTURE: nat := 1023     // the reserved bit: commands loaded later are allowed

  datatype Command = Command(name: string, id: nat, categories: set<string>, fromModule: bool)

  /** The command table, in the order it is walked, and the names of the categories. */
  datatype Table = Table(cmds: seq<Command>, categories: seq<string>)

  datatype User = User(
    enabled: bool, disabled: bool, allkeys: bool, allcommands: bool, nopass: bool,
    passwords: seq<string>,
    patterns: seq<string>,
    bits: set<nat>,
    subs: map<nat, seq<string>>)

  datatype Error = EINVAL | ENOENT | EBUSY | EEXIST | ENODEV | EBADMSG

  datatype Result = Ok(u: User) | Err(e: Error)

  const FRESH: User := User(false, true, false, false, false, [], [], {}, map[])

  // ----- C strings

  function LowerChar(c: char): char {
    if 'A' <= c <= 'Z' then c + ('a' - 'A') else c
  }

  function Lower(s: string): string {
    seq(|s|, i requires 0 <= i < |s| => LowerChar(s[i]))
  }

  /** strcasecmp */
  predicate Same(a: string, b: string) {
    Lower(a) == Lower(b)
  }

  /** The string up to its first null character. */
  function CStr(s: string): (c: string)
    ensures |c| <= |s| && c == s[..|c|] && '\0' !in c
    ensures '\0' !in s ==> c == s
  {
    if s == [] || s[0] == '\0' then [] else [s[0]] + CStr(s[1..])
  }

  predicate IsSpace(c: char) {
    c == ' ' || '\t' <= c <= '\r'
  }

  /** ACLStringHasSpaces */
  predicate HasSpaces(s: string) {
    exists i :: 0 <= i < |s| && (IsSpace(s[i]) || s[i] == '\0')
  }

  /** ACLCheckPasswordHash */
  predicate IsHash(s: string) {
    |s| == 64 && forall i :: 0 <= i < |s| ==> 'a' <= s[i] <= 'f' || '0' <= s[i] <= '9'
  }

  function IndexOf(s: string, c: char): (i: nat)
    requires c in s
    ensures i < |s| && s[i] == c && c !in s[..i]
  {
    if s[0] == c then 0 else 1 + IndexOf(s[1..], c)
  }

  // ----- what an operation says

  datatype Rule =
    | On | Off | AllKeys | ResetKeys | AllCommands | NoCommands | NoPass | ResetPass
    | AddPassword(clear: string) | AddHash(hash: string) | RemovePassword(clear: string) | RemoveHash(hash: string)
    | AddPattern(pattern: string)
    | AddCommand(name: string) | AddSubcommand(name: string, sub: string) | RemoveCommand(name: string)
    | Category(add: bool, name: string)
    | Reset
    | Unknown

  function Word(c: string): Option<Rule> {
    if Same(c, "on") then Some(On)
    else if Same(c, "off") then Some(Off)
    else if Same(c, "allkeys") || Same(c, "~*") then Some(AllKeys)
    else if Same(c, "resetkeys") then Some(ResetKeys)
    else if Same(c, "allcommands") || Same(c, "+@all") then Some(AllCommands)
    else if Same(c, "nocommands") || Same(c, "-@all") then Some(NoCommands)
    else if Same(c, "nopass") then Some(NoPass)
    else if Same(c, "resetpass") then Some(ResetPass)
    else None
  }

  /** A rule known by its first characters. */
  function Sigil(op: string, c: string): Rule
    requires c != [] && op != []
  {
    match c[0]
    case '>' => AddPassword(op[1..])
    case '#' => AddHash(op[1..])
    case '<' => RemovePassword(op[1..])
    case '!' => RemoveHash(op[1..])
    case '~' => AddPattern(op[1..])
    case '+' =>
      if |c| > 1 && c[1] == '@' then Category(true, c[2..])
      else if '|' !in c then AddCommand(c[1..])
      else var k := IndexOf(c, '|'); AddSubcommand(c[1..k], c[k + 1..])
    case '-' => if |c| > 1 && c[1] == '@' then Category(false, c[2..]) else RemoveCommand(c[1..])
    case _ => if Same(c, "reset") then Reset else Unknown
  }

  /** The dispatch of ACLSetUser. */
  function Parse(op: string): Rule {
    var c := CStr(op);
    match Word(c)
    case Some(r) => r
    case None => if c == [] then Unknown else Sigil(op, c)
  }

  // ----- what a rule does

  /** ACLLookupCommand and ACLGetCommandID on the fixed table. */
  function IdOf(cmds: seq<Command>, name: string): (r: Option<nat>)
    ensures r.Some? ==> exists i :: 0 <= i < |cmds| && Same(cmds[i].name, name) && cmds[i].id == r.value
    ensures r == None ==> forall i :: 0 <= i < |cmds| ==> !Same(cmds[i].name, name)
  {
    if cmds == [] then None
    else if Same(cmds[0].name, name) then Some(cmds[0].id)
    else IdOf(cmds[1..], name)
  }

  /** ACLGetCommandCategoryFlagByName, as the name in the list. */
  function CategoryOf(categories: seq<string>, name: string): (r: Option<string>)
    ensures r.Some? ==> r.value in categories && Same(r.value, name)
    ensures r == None ==> forall x :: x in categories ==> !Same(x, name)
  {
    if categories == [] then None
    else if Same(categories[0], name) then Some(categories[0])
    else CategoryOf(categories[1..], name)
  }

  function AllBits(): (s: set<nat>)
    ensures forall i: nat :: i in s <==> i < BITS
  {
    BitsBelow(BITS)
  }

  function BitsBelow(n: nat): (s: set<nat>)
    ensures forall i: nat :: i in s <==> i < n
  {
    if n == 0 then {} else BitsBelow(n - 1) + {n - 1}
  }

  /** ACLSetUserCommandBit */
  function SetBit(u: User, id: nat, value: bool): User {
    if id >= BITS then u
    else if value then u.(bits := u.bits + {id})
    else u.(bits := u.bits - {id}, allcommands := false)
  }

  /** ACLResetSubcommandsForCommand */
  function DropSubs(u: User, id: nat): User {
    u.(subs := u.subs - {id})
  }

  function SubsOf(u: User, id: nat): seq<string> {
    if id in u.subs then u.subs[id] else []
  }

  predicate Listed(q: seq<string>, s: string) {
    exists i :: 0 <= i < |q| && Same(q[i], s)
  }

  /** ACLAddAllowedSubcommand */
  function AddSub(u: User, id: nat, sub: string): User {
    var q := SubsOf(u, id);
    if Listed(q, sub) then u else u.(subs := u.subs[id := q + [sub]])
  }

  /** ACLSetUserCommandBitsForCategory over the rest of the table. */
  function SetCategory(cmds: seq<Command>, u: User, category: string, value: bool): User
    decreases |cmds|
  {
    if cmds == [] then u
    else
      var c := cmds[0];
      var u1 := if !c.fromModule && category in c.categories then DropSubs(SetBit(u, c.id, value), c.id) else u;
      SetCategory(cmds[1..], u1, category, value)
  }

  function AddTo(q: seq<string>, s: string): seq<string> {
    if s in q then q else q + [s]
  }

  function RemoveFirst(q: seq<string>, s: string): seq<string>
    requires s in q
  {
    if q[0] == s then q[1..] else [q[0]] + RemoveFirst(q[1..], s)
  }

  function RemovePass(u: User, hash: string): Result {
    if hash in u.passwords then Ok(u.(passwords := RemoveFirst(u.passwords, hash))) else Err(ENODEV)
  }

  function ResetUser(u: User): User {
    u.(nopass := false, passwords := [], allkeys := false, patterns := [], disabled := true, enabled := false,
       bits := {}, allcommands := false, subs := map[])
  }

  /** The branches of ACLSetUser; `hash` is the digest of a password. */
  function Do(t: Table, hash: string -> string, u: User, r: Rule): Result {
    match r
    case On => Ok(u.(enabled := true, disabled := false))
    case Off => Ok(u.(disabled := true, enabled := false))
    case AllKeys => Ok(u.(allkeys := true, patterns := []))
    case ResetKeys => Ok(u.(allkeys := false, patterns := []))
    case AllCommands => Ok(u.(bits := AllBits(), allcommands := true, subs := map[]))
    case NoCommands => Ok(u.(bits := {}, allcommands := false, subs := map[]))
    case NoPass => Ok(u.(nopass := true, passwords := []))
    case ResetPass => Ok(u.(nopass := false, passwords := []))
    case AddPassword(p) => Ok(u.(passwords := AddTo(u.passwords, hash(p)), nopass := false))
    case AddHash(h) => if !IsHash(h) then Err(EBADMSG) else Ok(u.(passwords := AddTo(u.passwords, h), nopass := false))
    case RemovePassword(p) => RemovePass(u, hash(p))
    case RemoveHash(h) => if !IsHash(h) then Err(EBADMSG) else RemovePass(u, h)
    case AddPattern(p) =>
      if u.allkeys then Err(EEXIST)
      else if HasSpaces(p) then Err(EINVAL)
      else Ok(u.(patterns := AddTo(u.patterns, p), allkeys := false))
    case AddCommand(name) => ChangeCommand(t, u, name, true)
    case RemoveCommand(name) => ChangeCommand(t, u, name, false)
    case AddSubcommand(name, sub) =>
      var id := IdOf(t.cmds, name);
      if id == None then Err(ENOENT)
      else if sub == [] then Err(EINVAL)
      else if id.value in u.bits then Err(EBUSY)
      else Ok(SetBit(AddSub(u, id.value, sub), id.value, false))
    case Category(add, name) =>
      var c := CategoryOf(t.categories, name);
      if c == None then Err(ENOENT) else Ok(SetCategory(t.cmds, u, c.value, add))
    case Reset => Ok(ResetUser(u))
    case Unknown => Err(EINVAL)
  }

  function ChangeCommand(t: Table, u: User, name: string, value: bool): Result {
    var id := IdOf(t.cmds, name);
    if id == None then Err(ENOENT) else Ok(DropSubs(SetBit(u, id.value, value), id.value))
  }

  /** ACLSetUser */
  function SetUser(t: Table, hash: string -> string, u: User, op: string): Result {
    Do(t, hash, u, Parse(op))
  }

  function SetUserAll(t: Table, hash: string -> string, u: User, ops: seq<string>): Result
    decreases |ops|
  {
    if ops == [] then Ok(u)
    else match SetUser(t, hash, u, ops[0])
      case Err(e) => Err(e)
      case Ok(u1) => SetUserAll(t, hash, u1, ops[1..])
  }

  // ----- the table and the users it allows

  ghost predicate Digests(hash: string -> string) {
    forall p :: IsHash(hash(p))
  }

  predicate NameOk(name: string) {
    name != [] && '\0' !in name && '|' !in name && name[0] != '@'
  }

  /** Names and ids are unique, ids are below the reserved one, and no category is called "all". */
  predicate TableOk(t: Table) {
    (forall i :: 0 <= i < |t.cmds| ==> NameOk(t.cmds[i].name) && t.cmds[i].id < FUTURE) &&
    (forall i, j :: 0 <= i < j < |t.cmds| ==> t.cmds[i].id != t.cmds[j].id && !Same(t.cmds[i].name, t.cmds[j].name)) &&
    (forall x :: x in t.categories ==> '\0' !in x && !Same(x, "all")) &&
    (forall i, j :: 0 <= i < j < |t.categories| ==> !Same(t.categories[i], t.categories[j]))
  }

  predicate HasId(cmds: seq<Command>, id: nat) {
    exists i :: 0 <= i < |cmds| && cmds[i].id == id
  }

  predicate FlagsOk(u: User) {
    u.enabled != u.disabled && (u.nopass ==> u.passwords == []) && (u.allkeys ==> u.patterns == [])
  }

  predicate Distinct(q: seq<string>) {
    forall i, j :: 0 <= i < j < |q| ==> q[i] != q[j]
  }

  predicate PasswordsOk(u: User) {
    Distinct(u.passwords) && forall p :: p in u.passwords ==> IsHash(p)
  }

  predicate PatternsOk(u: User) {
    Distinct(u.patterns) && forall p :: p in u.patterns ==> !HasSpaces(p) && p != "*"
  }

  /** The bits of ids outside the table all equal the reserved bit. */
  predicate BitsOk(cmds: seq<Command>, u: User) {
    (forall i :: i in u.bits ==> i < BITS) &&
    (forall i: nat :: i < BITS && !HasId(cmds, i) ==> (i in u.bits <==> FUTURE in u.bits)) &&
    (u.allcommands ==> u.bits == AllBits())
  }

  predicate SubListOk(q: seq<string>) {
    q != [] && (forall i :: 0 <= i < |q| ==> q[i] != [] && '\0' !in q[i]) &&
    (forall i, j :: 0 <= i < j < |q| ==> !Same(q[i], q[j]))
  }

  predicate SubsOk(cmds: seq<Command>, u: User) {
    forall id :: id in u.subs ==> HasId(cmds, id) && id !in u.bits && SubListOk(u.subs[id])
  }

  predicate UserOk(t: Table, u: User) {
    FlagsOk(u) && PasswordsOk(u) && PatternsOk(u) && BitsOk(t.cmds, u) && SubsOk(t.cmds, u)
  }

  /** What Parse can produce. */
  predicate RuleOk(r: Rule) {
    (r.AddSubcommand? ==> '\0' !in r.sub) && (r.AddPattern? && !HasSpaces(r.pattern) ==> r.pattern != "*")
  }

  lemma ParseOk(op: string)
    ensures RuleOk(Parse(op))
  {
    if op == "~*" {
      assert CStr(op) == op;
    }
  }

  // ----- every rule keeps a user well-formed

  lemma AddToOk(q: seq<string>, s: string)
    requires Distinct(q)
    ensures Distinct(AddTo(q, s)) && forall x :: x in AddTo(q, s) <==> x in q || x == s
  {
  }

  lemma {:induction false} RemoveFirstOk(q: seq<string>, s: string)
    requires Distinct(q) && s in q
    ensures Distinct(RemoveFirst(q, s)) && forall x :: x in RemoveFirst(q, s) <==> x in q && x != s
  {
    if q[0] == s {
      assert s !in q[1..];
    } else {
      RemoveFirstOk(q[1..], s);
      assert q[0] !in q[1..];
    }
  }

  /** A bit change of a command of the table, with its subcommands dropped. */
  lemma ChangeOk(cmds: seq<Command>, u: User, id: nat, value: bool)
    requires BitsOk(cmds, u) && SubsOk(cmds, u) && HasId(cmds, id) && id < FUTURE
    ensures var v := DropSubs(SetBit(u, id, value), id); BitsOk(cmds, v) && SubsOk(cmds, v)
    ensures var v := DropSubs(SetBit(u, id, value), id);
            v == u.(bits := v.bits, subs := v.subs, allcommands := v.allcommands) && (v.allcommands ==> u.allcommands)
  {
    hide SubListOk;
  }

  lemma {:induction false} SetCategoryOk(all: seq<Command>, cmds: seq<Command>, u: User, category: string, value: bool)
    requires BitsOk(all, u) && SubsOk(all, u)
    requires forall i :: 0 <= i < |cmds| ==> HasId(all, cmds[i].id) && cmds[i].id < FUTURE
    ensures var v := SetCategory(cmds, u, category, value);
            BitsOk(all, v) && SubsOk(all, v) && v == u.(bits := v.bits, subs := v.subs, allcommands := v.allcommands)
    decreases |cmds|
  {
    hide BitsOk, SubsOk, SetBit, DropSubs, HasId;
    if cmds != [] {
      var c := cmds[0];
      if !c.fromModule && category in c.categories {
        ChangeOk(all, u, c.id, value);
        SetCategoryOk(all, cmds[1..], DropSubs(SetBit(u, c.id, value), c.id), category, value);
      } else {
        SetCategoryOk(all, cmds[1..], u, category, value);
      }
    }
  }

  lemma AddSubOk(cmds: seq<Command>, u: User, id: nat, sub: string)
    requires BitsOk(cmds, u) && SubsOk(cmds, u) && HasId(cmds, id) && id < FUTURE && id !in u.bits && sub != []
    requires '\0' !in sub
    ensures var v := SetBit(AddSub(u, id, sub), id, false);
            BitsOk(cmds, v) && SubsOk(cmds, v) && v == u.(subs := v.subs)
  {
    hide Same, HasId, SubListOk, Listed;
    assert u.bits - {id} == u.bits;
    assert !u.allcommands;
    var q := SubsOf(u, id);
    if !Listed(q, sub) {
      SubListSnoc(q, sub);
    }
  }

  lemma SubListSnoc(q: seq<string>, sub: string)
    requires (q == [] || SubListOk(q)) && !Listed(q, sub) && sub != [] && '\0' !in sub
    ensures SubListOk(q + [sub])
  {
    hide Same;
  }

  lemma IdKnown(t: Table, name: string)
    requires TableOk(t) && IdOf(t.cmds, name).Some?
    ensures HasId(t.cmds, IdOf(t.cmds, name).value) && IdOf(t.cmds, name).value < FUTURE
  {
  }

  predicate AboutKeysOrLogin(r: Rule) {
    r.On? || r.Off? || r.AllKeys? || r.ResetKeys? || r.NoPass? || r.ResetPass? || r.AddPassword? || r.AddHash? ||
    r.RemovePassword? || r.RemoveHash? || r.AddPattern?
  }

  lemma DoLoginOk(t: Table, hash: string -> string, u: User, r: Rule)
    requires Digests(hash) && UserOk(t, u) && RuleOk(r) && AboutKeysOrLogin(r) && Do(t, hash, u, r).Ok?
    ensures UserOk(t, Do(t, hash, u, r).u)
  {
    hide HasSpaces, Distinct, IsHash, AddTo, RemoveFirst, BitsOk, SubsOk, ChangeCommand, IdOf, CategoryOf, ResetUser;
    CommandsKept(t.cmds, u, Do(t, hash, u, r).u);
    EmptyDistinct();
    match r
    case AddPassword(p) => AddToOk(u.passwords, hash(p));
    case AddHash(h) => AddToOk(u.passwords, h);
    case RemovePassword(p) => RemoveFirstOk(u.passwords, hash(p));
    case RemoveHash(h) => RemoveFirstOk(u.passwords, h);
    case AddPattern(p) => AddToOk(u.patterns, p);
    case _ =>
  }

  lemma DoBulkOk(t: Table, hash: string -> string, u: User, r: Rule)
    requires UserOk(t, u) && (r.AllCommands? || r.NoCommands? || r.Reset?)
    ensures Do(t, hash, u, r).Ok? && UserOk(t, Do(t, hash, u, r).u)
  {
    hide HasSpaces, IsHash, BitsOk, SubsOk;
    BulkOk(t.cmds, u);
    var v := Do(t, hash, u, r).u;
    CommandsKept(t.cmds, if r.AllCommands? then u.(bits := AllBits(), allcommands := true, subs := map[])
                 else u.(bits := {}, allcommands := false, subs := map[]), v);
  }

  lemma DoCommandOk(t: Table, hash: string -> string, u: User, r: Rule)
    requires TableOk(t) && UserOk(t, u) && RuleOk(r) && Do(t, hash, u, r).Ok?
    requires r.AddCommand? || r.RemoveCommand? || r.AddSubcommand? || r.Category?
    ensures UserOk(t, Do(t, hash, u, r).u)
  {
    hide HasSpaces, Distinct, IsHash, SetBit, DropSubs, SetCategory, AddSub, TableOk, BitsOk, SubsOk, HasId, IdOf,
      CategoryOf, Same;
    match r
    case AddCommand(name) =>
      IdKnown(t, name);
      ChangeOk(t.cmds, u, IdOf(t.cmds, name).value, true);
    case RemoveCommand(name) =>
      IdKnown(t, name);
      ChangeOk(t.cmds, u, IdOf(t.cmds, name).value, false);
    case AddSubcommand(name, sub) =>
      IdKnown(t, name);
      AddSubOk(t.cmds, u, IdOf(t.cmds, name).value, sub);
    case Category(add, name) =>
      AllKnown(t);
      SetCategoryOk(t.cmds, t.cmds, u, CategoryOf(t.categories, name).value, add);
  }

  /** Every rule that is accepted keeps a user well-formed. */
  lemma DoOk(t: Table, hash: string -> string, u: User, r: Rule)
    requires TableOk(t) && Digests(hash) && UserOk(t, u) && RuleOk(r) && Do(t, hash, u, r).Ok?
    ensures UserOk(t, Do(t, hash, u, r).u)
  {
    hide TableOk, Digests, UserOk, RuleOk;
    if AboutKeysOrLogin(r) {
      DoLoginOk(t, hash, u, r);
    } else if r.AllCommands? || r.NoCommands? || r.Reset? {
      DoBulkOk(t, hash, u, r);
    } else {
      DoCommandOk(t, hash, u, r);
    }
  }

  lemma EmptyDistinct()
    ensures Distinct([])
  {
  }

  lemma BulkOk(cmds: seq<Command>, u: User)
    ensures BitsOk(cmds, u.(bits := AllBits(), allcommands := true, subs := map[]))
    ensures SubsOk(cmds, u.(bits := AllBits(), allcommands := true, subs := map[]))
    ensures BitsOk(cmds, u.(bits := {}, allcommands := false, subs := map[]))
    ensures SubsOk(cmds, u.(bits := {}, allcommands := false, subs := map[]))
  {
  }

  lemma CommandsKept(cmds: seq<Command>, u: User, v: User)
    requires BitsOk(cmds, u) && SubsOk(cmds, u) && v.bits == u.bits && v.subs == u.subs
    requires v.allcommands == u.allcommands
    ensures BitsOk(cmds, v) && SubsOk(cmds, v)
  {
  }

  lemma AllKnown(t: Table)
    requires TableOk(t)
    ensures forall i :: 0 <= i < |t.cmds| ==> HasId(t.cmds, t.cmds[i].id) && t.cmds[i].id < FUTURE
  {
  }

  lemma FreshOk(t: Table)
    ensures UserOk(t, FRESH)
  {
  }

  /** Every user that operations can produce, from a fresh one, is well-formed. */
  lemma {:induction false} ReachableOk(t: Table, hash: string -> string, u: User, ops: seq<string>)
    requires TableOk(t) && Digests(hash) && UserOk(t, u) && SetUserAll(t, hash, u, ops).Ok?
    ensures UserOk(t, SetUserAll(t, hash, u, ops).u)
    decreases |ops|
  {
    hide UserOk, Do, TableOk, Digests, Parse;
    if ops != [] {
      ParseOk(ops[0]);
      DoOk(t, hash, u, Parse(ops[0]));
      ReachableOk(t, hash, SetUser(t, hash, u, ops[0]).u, ops[1..]);
    }
  }

  /** "reset" takes any user to a fresh one. */
  lemma ResetIsFresh(t: Table, hash: string -> string, u: User)
    ensures SetUser(t, hash, u, "reset") == Ok(FRESH)
  {
    ParseReset();
  }

  lemma ParseReset()
    ensures Parse("reset") == Reset
  {
    assert |Lower("reset")| == 5;
    assert Lower("reset")[0] == 'r';
    assert |Lower("~*")| == 2 && |Lower("on")| == 2 && |Lower("off")| == 3 && |Lower("allkeys")| == 7;
    assert |Lower("resetkeys")| == 9 && |Lower("resetpass")| == 9 && |Lower("allcommands")| == 11;
    assert |Lower("nocommands")| == 10;
    assert |Lower("nopass")| == 6 && Lower("+@all")[0] == '+' && Lower("-@all")[0] == '-';
  }
}
