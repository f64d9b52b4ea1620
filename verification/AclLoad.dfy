/** Loading the ACL file: every rule line is tried on a fake user before it touches a real one, and the new
    table of users replaces the old one only if no line had an error. */
module AclLoad {
  import opened Common
  import opened Acl
  import opened AclDescribe
  import opened AclRoundTrip
  import AclUser

  type UserObject = AclUser.UserObject
  type Users = map<string, User>

  /** A line of the file, trimmed and split: blank, with unbalanced quotes, or words. */
  datatype Line = Blank | Unbalanced | Words(argv: seq<string>)

  /** What ACLInitDefaultUser leaves. */
  const DEFAULT: User := User(true, false, true, true, true, [], [], AllBits(), map[])

  lemma DefaultIsReached(t: Table, hash: Hash)
    ensures SetUserAll(t, hash, FRESH, ["+@all", "~*", "on", "nopass"]) == Ok(DEFAULT)
  {
    hide Parse, SetUserAll;
    ParseWords();
    var ops := ["+@all", "~*", "on", "nopass"];
    var u1 := FRESH.(bits := AllBits(), allcommands := true);
    var u2 := u1.(allkeys := true);
    var u3 := u2.(enabled := true, disabled := false);
    ReplayOne(t, hash, u3, "nopass");
    ReplayOne(t, hash, u2, "on");
    ReplayOne(t, hash, u1, "~*");
    ReplayOne(t, hash, FRESH, "+@all");
    ReplayConcat(t, hash, u2, ["on"], ["nopass"]);
    ReplayConcat(t, hash, u1, ["~*"], ["on"] + ["nopass"]);
    ReplayConcat(t, hash, FRESH, ["+@all"], ["~*"] + (["on"] + ["nopass"]));
    assert ["+@all"] + (["~*"] + (["on"] + ["nopass"])) == ops;
  }

  /** The keyword, compared by strcmp, and the name of a line. */
  predicate HeadOk(argv: seq<string>) {
    |argv| >= 2 && CStr(argv[0]) == "user" && !HasSpaces(argv[1])
  }

  /** A line without error: its rules apply to a fake user that was just reset. */
  predicate Accepted(t: Table, hash: Hash, fake: User, line: Line) {
    match line
    case Blank => true
    case Unbalanced => false
    case Words(argv) =>
      argv == [] || (HeadOk(argv) && SetUserAll(t, hash, ResetUser(fake), argv[2..]).Ok?)
  }

  // ----- what the file means

  predicate AllAccepted(t: Table, hash: Hash, lines: seq<Line>) {
    forall i :: 0 <= i < |lines| ==> Accepted(t, hash, FRESH, lines[i])
  }

  /** The users a file without errors defines: for every name the rules of its last line, on a fresh user. */
  function Meaning(t: Table, hash: Hash, users: Users, lines: seq<Line>): Users
    requires AllAccepted(t, hash, lines)
    decreases |lines|
  {
    if lines == [] then users
    else
      var users1 :=
        if lines[0].Words? && lines[0].argv != []
        then users[lines[0].argv[1] := SetUserAll(t, hash, FRESH, lines[0].argv[2..]).u]
        else users;
      Meaning(t, hash, users1, lines[1..])
  }

  // ----- rules on a user

  /** One rule after the other on the fake user; an error is noted and the next rule tried. */
  method TryRules(t: Table, hash: Hash, fake: UserObject, ops: seq<string>) returns (failed: bool)
    requires fake.Valid()
    modifies fake, fake.allowed
    ensures failed <==> !SetUserAll(t, hash, old(fake.View()), ops).Ok?
  {
    hide SetUser, AclUser.BitSet;
    ghost var start := fake.View();
    failed := false;
    for j := 0 to |ops|
      invariant !failed ==> SetUserAll(t, hash, fake.View(), ops[j..]) == SetUserAll(t, hash, start, ops)
      invariant failed ==> !SetUserAll(t, hash, start, ops).Ok?
    {
      assert ops[j..][1..] == ops[j + 1..] && ops[j..][0] == ops[j];
      var e := fake.SetUser(t, hash, ops[j]);
      if e.Some? {
        failed := true;
      }
    }
    assert ops[|ops|..] == [];
  }

  /** The rules of an accepted line on a real user, each asserted to succeed. */
  method ApplyRules(t: Table, hash: Hash, u: UserObject, ops: seq<string>) returns (ok: bool)
    requires u.Valid()
    modifies u, u.allowed
    ensures ok <==> SetUserAll(t, hash, old(u.View()), ops).Ok?
    ensures ok ==> u.View() == SetUserAll(t, hash, old(u.View()), ops).u
  {
    hide SetUser, AclUser.BitSet;
    ghost var start := u.View();
    for j := 0 to |ops|
      invariant SetUserAll(t, hash, u.View(), ops[j..]) == SetUserAll(t, hash, start, ops)
    {
      assert ops[j..][1..] == ops[j + 1..] && ops[j..][0] == ops[j];
      var e := u.SetUser(t, hash, ops[j]);
      if e.Some? {
        return false;
      }
    }
    assert ops[|ops|..] == [];
    return true;
  }

  lemma MeaningStep(t: Table, hash: Hash, users: Users, lines: seq<Line>, i: nat)
    requires i < |lines| && AllAccepted(t, hash, lines[..i + 1])
    ensures AllAccepted(t, hash, lines[..i])
    ensures Meaning(t, hash, users, lines[..i + 1]) ==
            Meaning(t, hash, Meaning(t, hash, users, lines[..i]), [lines[i]])
  {
    assert lines[..i] + [lines[i]] == lines[..i + 1];
    assert forall j :: 0 <= j < i ==> lines[..i][j] == lines[..i + 1][j];
    assert lines[..i + 1][i] == lines[i];
    MeaningConcat(t, hash, users, lines[..i], [lines[i]]);
  }

  lemma {:induction false} MeaningConcat(t: Table, hash: Hash, users: Users, a: seq<Line>, b: seq<Line>)
    requires AllAccepted(t, hash, a) && AllAccepted(t, hash, b) && AllAccepted(t, hash, a + b)
    ensures Meaning(t, hash, users, a + b) == Meaning(t, hash, Meaning(t, hash, users, a), b)
    decreases |a|
  {
    hide Accepted, SetUserAll;
    if a == [] {
      assert a + b == b;
    } else {
      assert (a + b)[1..] == a[1..] + b && (a + b)[0] == a[0];
      var l := a[0];
      var users1 := if l.Words? && l.argv != [] then Define(t, hash, users, l) else users;
      assert Accepted(t, hash, FRESH, l);
      MeaningConcat(t, hash, users1, a[1..], b);
      MeaningHead(t, hash, users, a);
      MeaningHead(t, hash, users, a + b);
    }
  }

  function Define(t: Table, hash: Hash, users: Users, l: Line): Users
    requires l.Words? && l.argv != [] && Accepted(t, hash, FRESH, l)
  {
    users[l.argv[1] := SetUserAll(t, hash, FRESH, l.argv[2..]).u]
  }

  function AfterLine(t: Table, hash: Hash, users: Users, l: Line): Users
    requires Accepted(t, hash, FRESH, l)
  {
    if l.Words? && l.argv != [] then Define(t, hash, users, l) else users
  }

  lemma MeaningHead(t: Table, hash: Hash, users: Users, a: seq<Line>)
    requires a != [] && AllAccepted(t, hash, a)
    ensures Accepted(t, hash, FRESH, a[0]) && AllAccepted(t, hash, a[1..])
    ensures Meaning(t, hash, users, a) ==
            Meaning(t, hash, if a[0].Words? && a[0].argv != [] then Define(t, hash, users, a[0]) else users, a[1..])
  {
  }

  // ----- ACLCopyUser

  function Below(m: map<nat, seq<string>>, n: nat): map<nat, seq<string>> {
    map k | k in m && k < n :: m[k]
  }

  /** The list of one command, added string by string. */
  method CopySubs(dst: UserObject, id: nat, q: seq<string>)
    requires id !in dst.subs && SubListOk(q)
    modifies dst`subs
    ensures dst.subs == old(dst.subs)[id := q]
  {
    hide Same, SubListOk;
    for i := 0 to |q|
      invariant dst.subs == if i == 0 then old(dst.subs) else old(dst.subs)[id := q[..i]]
    {
      NotListed(q, i);
      assert SubsOf(dst.View(), id) == q[..i];
      assert q[..i + 1] == q[..i] + [q[i]];
      dst.AddAllowedSubcommand(id, q[i]);
      assert dst.View().subs == old(dst.subs)[id := q[..i + 1]];
    }
    assert q[..|q|] == q;
    SubListNonEmpty(q);
  }

  lemma NotListed(q: seq<string>, i: nat)
    requires SubListOk(q) && i < |q|
    ensures !Listed(q[..i], q[i])
  {
    hide Same;
  }

  /** ACLCopyUser: the structure stays, and takes the very rules of the source. */
  method CopyUser(t: Table, dst: UserObject, src: UserObject)
    requires TableOk(t) && dst.Valid() && src.Valid() && dst != src && dst.allowed != src.allowed
    requires UserOk(t, src.View())
    modifies dst, dst.allowed
    ensures dst.View() == src.View()
  {
    hide SubListOk, HasId, Same, TableOk, UserOk;
    dst.passwords, dst.patterns := src.passwords, src.patterns;
    CopyBits(dst, src);
    dst.enabled, dst.disabled, dst.allkeys, dst.allcommands, dst.nopass :=
      src.enabled, src.disabled, src.allkeys, src.allcommands, src.nopass;
    dst.subs := map[];
    CopyAllSubs(t, dst, src);
  }

  /** The memcpy of the bitmap. */
  method CopyBits(dst: UserObject, src: UserObject)
    requires dst.Valid() && src.Valid() && dst.allowed != src.allowed
    modifies dst.allowed
    ensures dst.allowed[..] == src.allowed[..]
  {
    for i := 0 to BITS
      invariant forall j :: 0 <= j < i ==> dst.allowed[j] == src.allowed[j]
    {
      dst.allowed[i] := src.allowed[i];
    }
  }

  /** The loop over the subcommands of every command. */
  method CopyAllSubs(t: Table, dst: UserObject, src: UserObject)
    requires TableOk(t) && dst != src && dst.subs == map[] && UserOk(t, src.View())
    modifies dst`subs
    ensures dst.subs == src.subs
  {
    hide SubListOk, HasId, Same, TableOk;
    assert Below(src.subs, 0) == map[];
    for j := 0 to BITS
      invariant dst.subs == Below(src.subs, j)
    {
      if j in src.subs {
        assert SubListOk(src.View().subs[j]);
        CopySubs(dst, j, src.subs[j]);
        assert dst.subs == Below(src.subs, j + 1);
      } else {
        assert Below(src.subs, j + 1) == Below(src.subs, j);
      }
    }
    SubsBelow(t, src.View());
  }

  lemma SubsBelow(t: Table, u: User)
    requires TableOk(t) && UserOk(t, u)
    ensures Below(u.subs, BITS) == u.subs
  {
    hide SubListOk, Same;
  }

  // ----- ACLLoadFromFile

  lemma AcceptedStep(t: Table, hash: Hash, lines: seq<Line>, i: nat)
    requires i < |lines|
    ensures AllAccepted(t, hash, lines[..i + 1]) <==>
            AllAccepted(t, hash, lines[..i]) && Accepted(t, hash, FRESH, lines[i])
  {
    hide Accepted;
    assert forall j :: 0 <= j < i ==> lines[..i][j] == lines[..i + 1][j];
    assert lines[..i + 1][i] == lines[i];
  }

  /** A line on the fake user: does it have an error? */
  method CheckLine(t: Table, hash: Hash, fake: UserObject, line: Line) returns (ok: bool)
    requires fake.Valid()
    modifies fake, fake.allowed
    ensures ok <==> Accepted(t, hash, FRESH, line)
  {
    hide SetUserAll, HasSpaces, AclUser.BitSet;
    match line {
      case Blank => return true;
      case Unbalanced => return false;
      case Words(argv) =>
        if argv == [] {
          return true;
        } else if CStr(argv[0]) != "user" || |argv| < 2 {
          return false;
        } else if HasSpaces(argv[1]) {
          return false;
        }
        ResetIsFresh(t, hash, fake.View());
        var e := fake.SetUser(t, hash, "reset");
        var failed := TryRules(t, hash, fake, argv[2..]);
        return !failed;
    }
  }

  lemma MeaningOne(t: Table, hash: Hash, users: Users, l: Line)
    requires Accepted(t, hash, FRESH, l)
    ensures AllAccepted(t, hash, [l]) && Meaning(t, hash, users, [l]) == AfterLine(t, hash, users, l)
  {
    hide SetUserAll;
    assert [l][1..] == [];
    MeaningHead(t, hash, users, [l]);
  }

  /** Different names have different structures, with bitmaps of their own, all of them in `repr`. */
  ghost predicate Apart(users: map<string, UserObject>, repr: set<object>) {
    (forall n :: n in users ==> users[n].allowed.Length == BITS && users[n] in repr && users[n].allowed in repr) &&
    forall n, k :: n in users && k in users && n != k ==> users[n] != users[k] && users[n].allowed != users[k].allowed
  }

  /** The table holds these users. */
  ghost predicate Shows(users: map<string, UserObject>, repr: set<object>, m: Users)
    requires Apart(users, repr)
    reads repr
  {
    users.Keys == m.Keys && forall n :: n in users ==> users[n].View() == m[n]
  }

  /** The structures of all users but one. */
  ghost function ReprWithout(users: map<string, UserObject>, name: string): set<object> {
    (set n | n in users && n != name :: users[n] as object) +
    (set n | n in users && n != name :: users[n].allowed as object)
  }

  /** The table holds these users, save perhaps under one name. */
  ghost predicate Elsewhere(users: map<string, UserObject>, repr: set<object>, m: Users, name: string)
    requires Apart(users, repr)
    reads ReprWithout(users, name)
  {
    users.Keys == m.Keys && forall n :: n in users && n != name ==> users[n].View() == m[n]
  }

  lemma ShownElsewhere(users: map<string, UserObject>, repr: set<object>, m: Users, name: string)
    requires Apart(users, repr) && Shows(users, repr, m)
    ensures Elsewhere(users, repr, m, name)
  {
  }

  lemma ShownAgain(users: map<string, UserObject>, repr: set<object>, m: Users, name: string, v: User)
    requires Apart(users, repr) && Elsewhere(users, repr, m, name) && name in users && users[name].View() == v
    ensures Shows(users, repr, m[name := v])
  {
  }

  lemma ApartJoin(users: map<string, UserObject>, repr: set<object>, name: string, u: UserObject)
    requires Apart(users, repr) && u.Valid() && u !in repr && u.allowed !in repr
    ensures Apart(users[name := u], repr + {u, u.allowed})
  {
  }

  lemma ShowsJoin(users: map<string, UserObject>, repr: set<object>, name: string, u: UserObject, m: Users)
    requires Apart(users, repr) && Shows(users, repr, m) && name in m && u.View() == m[name]
    requires Apart(users[name := u], repr + {u, u.allowed})
    ensures Shows(users[name := u], repr + {u, u.allowed}, m)
  {
    hide AclUser.BitSet, Apart;
    var now := users[name := u];
    forall n | n in now
      ensures now[n].View() == m[n]
    {
      assert n != name ==> n in users && now[n] == users[n];
    }
  }

  /** The rules of an accepted line on a user that is there already: it is reset first. */
  method Redefine(t: Table, hash: Hash, u: UserObject, ops: seq<string>) returns (ok: bool)
    requires u.Valid()
    modifies u, u.allowed
    ensures ok == SetUserAll(t, hash, FRESH, ops).Ok?
    ensures ok ==> u.View() == SetUserAll(t, hash, FRESH, ops).u
  {
    hide SetUserAll, AclUser.BitSet;
    ResetIsFresh(t, hash, u.View());
    var e := u.SetUser(t, hash, "reset");
    ok := ApplyRules(t, hash, u, ops);
  }

  class AclServer {
    var users: map<string, UserObject>       // Users
    var defaultUser: UserObject              // DefaultUser
    ghost var repr: set<object>

    ghost predicate Valid()
      reads this
    {
      Apart(users, repr) && this !in repr && "default" in users && users["default"] == defaultUser
    }

    /** ACLInit */
    constructor (t: Table, hash: Hash)
      ensures Valid() && fresh(repr) && Shows(users, repr, map["default" := DEFAULT])
    {
      users, repr := map[], {};
      defaultUser := new AclUser.UserObject();
      new;
      InitDefaultUser(t, hash);
    }

    /** ACLInitDefaultUser, on an empty table. */
    method InitDefaultUser(t: Table, hash: Hash)
      requires users == map[] && repr == {}
      modifies this
      ensures Valid() && fresh(repr) && users.Keys == {"default"} && Shows(users, repr, map["default" := DEFAULT])
    {
      hide SetUserAll, AclUser.BitSet;
      var u := new AclUser.UserObject();
      DefaultIsReached(t, hash);
      var ok := ApplyRules(t, hash, u, ["+@all", "~*", "on", "nopass"]);
      defaultUser := u;
      users, repr := map["default" := u], {u, u.allowed};
    }

    /** The rules of an accepted line, on a new user or on one that is reset. */
    method DefineUser(t: Table, hash: Hash, name: string, ops: seq<string>, ghost m: Users) returns (ok: bool)
      requires Apart(users, repr) && this !in repr && Shows(users, repr, m)
      modifies this`users, this`repr, repr
      ensures Apart(users, repr) && repr >= old(repr) && fresh(repr - old(repr)) && this !in repr
      ensures ok == SetUserAll(t, hash, FRESH, ops).Ok?
      ensures ok ==> Shows(users, repr, m[name := SetUserAll(t, hash, FRESH, ops).u])
    {
      hide SetUserAll, AclUser.BitSet, Acl.SetUser, Apart, Shows;
      if name in users {
        ok := RedefineUser(t, hash, name, ops, m);
      } else {
        ok := AddUser(t, hash, name, ops, m);
      }
    }

    method RedefineUser(t: Table, hash: Hash, name: string, ops: seq<string>, ghost m: Users) returns (ok: bool)
      requires Apart(users, repr) && this !in repr && Shows(users, repr, m) && name in users
      modifies repr
      ensures ok == SetUserAll(t, hash, FRESH, ops).Ok?
      ensures ok ==> Shows(users, repr, m[name := SetUserAll(t, hash, FRESH, ops).u])
    {
      hide SetUserAll, AclUser.BitSet, Acl.SetUser, Shows;
      var u := users[name];
      assert Elsewhere(users, repr, m, name) by { ShownElsewhere(users, repr, m, name); }
      ok := Redefine(t, hash, u, ops);
      if ok {
        ShownAgain(users, repr, m, name, SetUserAll(t, hash, FRESH, ops).u);
      }
    }

    method AddUser(t: Table, hash: Hash, name: string, ops: seq<string>, ghost m: Users) returns (ok: bool)
      requires Apart(users, repr) && this !in repr && Shows(users, repr, m) && name !in users
      modifies this`users, this`repr
      ensures Apart(users, repr) && repr >= old(repr) && fresh(repr - old(repr)) && this !in repr
      ensures ok == SetUserAll(t, hash, FRESH, ops).Ok?
      ensures ok ==> Shows(users, repr, m[name := SetUserAll(t, hash, FRESH, ops).u])
    {
      hide SetUserAll, AclUser.BitSet, Acl.SetUser;
      var u := new AclUser.UserObject();
      ok := ApplyRules(t, hash, u, ops);
      InsertUser(name, u, m);
    }

    method InsertUser(name: string, u: UserObject, ghost m: Users)
      requires Apart(users, repr) && this !in repr && Shows(users, repr, m) && name !in users
      requires u.Valid() && u !in repr && u.allowed !in repr
      modifies this`users, this`repr
      ensures Apart(users, repr) && repr == old(repr) + {u, u.allowed} && this !in repr
      ensures Shows(users, repr, m[name := u.View()])
    {
      users, repr := users[name := u], repr + {u, u.allowed};
    }

    /** One line, on a table of new users: does it have an error, and if no line had one so far, does every asserted
        rule succeed? */
    method LoadLine(t: Table, hash: Hash, fake: UserObject, line: Line, before: bool, ghost m: Users)
      returns (errors: bool, asserted: bool)
      requires fake.Valid() && Apart(users, repr) && this !in repr && fake !in repr && fake.allowed !in repr
      requires !before ==> Shows(users, repr, m)
      modifies this`users, this`repr, fake, fake.allowed, repr
      ensures asserted && errors == (before || !Accepted(t, hash, FRESH, line))
      ensures Apart(users, repr) && repr >= old(repr) && fresh(repr - old(repr)) && this !in repr
      ensures !errors ==> Shows(users, repr, AfterLine(t, hash, m, line))
    {
      hide SetUserAll, Accepted, AclUser.BitSet, Apart, Shows;
      asserted := true;
      var ok := CheckLine(t, hash, fake, line);
      errors := before || !ok;
      if !errors && line.Words? && line.argv != [] {
        WordsAccepted(t, hash, line);
        asserted := DefineUser(t, hash, line.argv[1], line.argv[2..], m);
      }
    }

    /** The loop over the lines. */
    method LoadLines(t: Table, hash: Hash, lines: seq<Line>) returns (errors: bool, asserted: bool)
      requires TableOk(t) && Digests(hash) && users == map[] && repr == {}
      modifies this
      ensures asserted && errors == !AllAccepted(t, hash, lines)
      ensures Apart(users, repr) && this !in repr && fresh(repr)
      ensures !errors ==> Shows(users, repr, Meaning(t, hash, map["default" := DEFAULT], lines))
    {
      hide SetUserAll, AllAccepted, Accepted, Meaning, TableOk, Digests, UserOk, AclUser.BitSet, Apart, Shows;
      InitDefaultUser(t, hash);
      var fake := new AclUser.UserObject();
      ghost var start: Users := map["default" := DEFAULT];
      NoLines(t, hash, start);
      errors, asserted := false, true;
      for i := 0 to |lines|
        invariant asserted && (errors <==> !AllAccepted(t, hash, lines[..i]))
        invariant fake.Valid() && fresh(fake) && fresh(fake.allowed) && fake !in repr && fake.allowed !in repr
        invariant Apart(users, repr) && this !in repr && fresh(repr)
        invariant !errors ==> Shows(users, repr, Meaning(t, hash, start, lines[..i]))
      {
        AcceptedStep(t, hash, lines, i);
        ghost var m := if errors then map[] else Meaning(t, hash, start, lines[..i]);
        errors, asserted := LoadLine(t, hash, fake, lines[i], errors, m);
        if !errors {
          MeaningStep(t, hash, start, lines, i);
          MeaningOne(t, hash, m, lines[i]);
        }
      }
      assert lines[..|lines|] == lines;
    }

    /** ACLLoadFromFile: if every line is right the table is as the file reads, and the structure of the default user is
        the one it was, with what the file says of it. Otherwise the table and every user in it are as they were. */
    method LoadFromFile(t: Table, hash: Hash, lines: seq<Line>) returns (ok: bool, asserted: bool)
      requires TableOk(t) && Digests(hash) && Valid()
      modifies this, defaultUser, defaultUser.allowed
      ensures asserted && Valid() && ok == AllAccepted(t, hash, lines) && defaultUser == old(defaultUser)
      ensures ok ==> Shows(users, repr, Meaning(t, hash, map["default" := DEFAULT], lines))
      ensures !ok ==> users == old(users) && forall n :: n in users ==> users[n].View() == old(users[n].View())
    {
      hide SetUserAll, AllAccepted, Accepted, Meaning, TableOk, Digests, UserOk, AclUser.BitSet, Shows;
      var oldUsers, oldDefault := users, defaultUser;
      ghost var oldRepr := repr;
      users, repr := map[], {};
      var errors;
      errors, asserted := LoadLines(t, hash, lines);
      defaultUser := oldDefault;
      if errors {
        users, repr := oldUsers, oldRepr;
        return false, asserted;
      }
      DefaultDefined(t, hash, lines);
      AdoptDefault(t, Meaning(t, hash, map["default" := DEFAULT], lines));
      return true, asserted;
    }

    /** The new rules of the default user go into its old structure, which joins the new table. */
    method AdoptDefault(t: Table, ghost m: Users)
      requires TableOk(t) && Apart(users, repr) && this !in repr && Shows(users, repr, m) && "default" in m
      requires UserOk(t, m["default"])
      requires defaultUser.Valid() && defaultUser !in repr && defaultUser.allowed !in repr
      modifies this`users, this`repr, defaultUser, defaultUser.allowed
      ensures Valid() && Shows(users, repr, m)
    {
      hide TableOk, UserOk, AclUser.BitSet;
      CopyUser(t, defaultUser, users["default"]);
      assert Shows(users, repr, m);
      JoinTable("default", defaultUser, m);
    }

    /** raxInsert of a structure that holds what the table already says of the name. */
    method JoinTable(name: string, u: UserObject, ghost m: Users)
      requires Apart(users, repr) && this !in repr && Shows(users, repr, m) && name in m && u.View() == m[name]
      requires u.Valid() && u !in repr && u.allowed !in repr
      modifies this`users, this`repr
      ensures Apart(users, repr) && this !in repr && name in users && users[name] == u && Shows(users, repr, m)
    {
      hide Apart, Shows, AclUser.BitSet;
      ApartJoin(users, repr, name, u);
      ShowsJoin(users, repr, name, u, m);
      users, repr := users[name := u], repr + {u, u.allowed};
    }
  }

  lemma DefaultDefined(t: Table, hash: Hash, lines: seq<Line>)
    requires TableOk(t) && Digests(hash) && AllAccepted(t, hash, lines)
    ensures var m := Meaning(t, hash, map["default" := DEFAULT], lines); "default" in m && UserOk(t, m["default"])
  {
    hide TableOk, Digests, UserOk, AllAccepted, Meaning;
    DefaultOk(t);
    MeaningOk(t, hash, map["default" := DEFAULT], lines);
  }

  lemma NoLines(t: Table, hash: Hash, users: Users)
    ensures AllAccepted(t, hash, []) && Meaning(t, hash, users, []) == users
  {
  }

  lemma DefaultOk(t: Table)
    ensures UserOk(t, DEFAULT)
  {
  }

  lemma {:induction false} MeaningOk(t: Table, hash: Hash, users: Users, lines: seq<Line>)
    requires TableOk(t) && Digests(hash) && AllAccepted(t, hash, lines)
    requires forall n :: n in users ==> UserOk(t, users[n])
    ensures users.Keys <= Meaning(t, hash, users, lines).Keys
    ensures forall n :: n in Meaning(t, hash, users, lines) ==> UserOk(t, Meaning(t, hash, users, lines)[n])
    decreases |lines|
  {
    hide SetUserAll, TableOk, Digests, UserOk, Accepted;
    if lines != [] {
      MeaningHead(t, hash, users, lines);
      if lines[0].Words? && lines[0].argv != [] {
        WordsAccepted(t, hash, lines[0]);
        DefinedOk(t, hash, lines[0].argv[2..]);
        MeaningOk(t, hash, Define(t, hash, users, lines[0]), lines[1..]);
      } else {
        MeaningOk(t, hash, users, lines[1..]);
      }
    }
  }

  lemma WordsAccepted(t: Table, hash: Hash, l: Line)
    requires Accepted(t, hash, FRESH, l) && l.Words? && l.argv != []
    ensures HeadOk(l.argv) && SetUserAll(t, hash, FRESH, l.argv[2..]).Ok?
  {
  }

  lemma DefinedOk(t: Table, hash: Hash, ops: seq<string>)
    requires TableOk(t) && Digests(hash) && SetUserAll(t, hash, FRESH, ops).Ok?
    ensures UserOk(t, SetUserAll(t, hash, FRESH, ops).u)
  {
    hide TableOk, Digests, UserOk, SetUserAll;
    FreshOk(t);
    ReachableOk(t, hash, FRESH, ops);
  }
}
