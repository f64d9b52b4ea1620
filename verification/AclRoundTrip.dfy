/** Replaying what the printer prints. */
module AclRoundTrip {
  import opened Common
  import opened Acl
  import opened AclDescribe

  type Hash = string -> string

  lemma {:induction false} ReplayConcat(t: Table, hash: Hash, u: User, a: seq<string>, b: seq<string>)
    ensures SetUserAll(t, hash, u, a + b) ==
            match SetUserAll(t, hash, u, a) case Ok(v) => SetUserAll(t, hash, v, b) case Err(e) => Err(e)
    decreases |a|
  {
    hide SetUser;
    if a == [] {
      assert a + b == b;
    } else {
      assert (a + b)[1..] == a[1..] + b;
      if SetUser(t, hash, u, a[0]).Ok? {
        ReplayConcat(t, hash, SetUser(t, hash, u, a[0]).u, a[1..], b);
      }
    }
  }

  lemma ReplayOne(t: Table, hash: Hash, u: User, op: string)
    ensures SetUserAll(t, hash, u, [op]) == SetUser(t, hash, u, op)
  {
    hide SetUser;
    assert [op][1..] == [];
    if SetUser(t, hash, u, op).Ok? {
      assert SetUserAll(t, hash, SetUser(t, hash, u, op).u, []) == SetUser(t, hash, u, op);
    }
  }

  // ----- flags, passwords, patterns

  lemma FlagsReplay(t: Table, hash: Hash, u: User)
    requires FlagsOk(u)
    ensures SetUserAll(t, hash, FRESH, FlagOps(u)) ==
            Ok(FRESH.(enabled := u.enabled, disabled := u.disabled, nopass := u.nopass))
  {
    hide Parse, SetUserAll;
    ParseWords();
    var first := if u.enabled then "on" else "off";
    var v := FRESH.(enabled := u.enabled, disabled := u.disabled);
    ReplayOne(t, hash, FRESH, first);
    ReplayConcat(t, hash, FRESH, [first], if u.nopass then ["nopass"] else []);
    ReplayOne(t, hash, v, "nopass");
    ReplayNone(t, hash, v);
    assert FlagOps(u) == [first] + (if u.nopass then ["nopass"] else []);
  }

  lemma ReplayNone(t: Table, hash: Hash, u: User)
    ensures SetUserAll(t, hash, u, []) == Ok(u)
  {
  }

  lemma DistinctHead(a: seq<string>, q: seq<string>)
    requires Distinct(a + q) && q != []
    ensures q[0] !in a
  {
    forall i | 0 <= i < |a|
      ensures a[i] != q[0]
    {
      assert (a + q)[i] != (a + q)[|a|];
    }
  }

  lemma {:induction false} PasswordsReplay(t: Table, hash: Hash, w: User, q: seq<string>)
    requires Distinct(w.passwords + q) && (forall p :: p in q ==> IsHash(p)) && (q != [] ==> !w.nopass)
    ensures SetUserAll(t, hash, w, Prefixed("#", q)) == Ok(w.(passwords := w.passwords + q))
    decreases |q|
  {
    hide Parse, IsHash;
    if q == [] {
      assert w.passwords + q == w.passwords;
    } else {
      ParseHash(q[0]);
      DistinctHead(w.passwords, q);
      assert w.passwords + [q[0]] + q[1..] == w.passwords + q;
      PasswordsReplay(t, hash, w.(passwords := w.passwords + [q[0]]), q[1..]);
    }
  }

  lemma {:induction false} PatternsReplay(t: Table, hash: Hash, w: User, q: seq<string>)
    requires Distinct(w.patterns + q) && (forall p :: p in q ==> !HasSpaces(p) && p != "*") && !w.allkeys
    ensures SetUserAll(t, hash, w, Prefixed("~", q)) == Ok(w.(patterns := w.patterns + q))
    decreases |q|
  {
    hide Parse, HasSpaces;
    if q == [] {
      assert w.patterns + q == w.patterns;
    } else {
      ParsePattern(q[0]);
      DistinctHead(w.patterns, q);
      assert w.patterns + [q[0]] + q[1..] == w.patterns + q;
      PatternsReplay(t, hash, w.(patterns := w.patterns + [q[0]]), q[1..]);
    }
  }

  lemma KeysReplay(t: Table, hash: Hash, w: User, u: User)
    requires FlagsOk(u) && PatternsOk(u) && !w.allkeys && w.patterns == []
    ensures SetUserAll(t, hash, w, KeyOps(u)) == Ok(w.(allkeys := u.allkeys, patterns := u.patterns))
  {
    hide Parse, SetUserAll, HasSpaces;
    if u.allkeys {
      ParseWords();
      ReplayOne(t, hash, w, "~*");
    } else {
      assert [] + u.patterns == u.patterns;
      PatternsReplay(t, hash, w, u.patterns);
    }
  }

  // ----- categories

  lemma {:induction false} CategoryFound(categories: seq<string>, k: nat)
    requires k < |categories| && forall i, j :: 0 <= i < j < |categories| ==> !Same(categories[i], categories[j])
    ensures CategoryOf(categories, categories[k]) == Some(categories[k])
  {
    hide Same;
    SameSelf(categories[k]);
    if k > 0 {
      CategoryFound(categories[1..], k - 1);
    }
  }

  function ChangeIn(c: Command, u: User, category: string, value: bool): User {
    if !c.fromModule && category in c.categories then DropSubs(SetBit(u, c.id, value), c.id) else u
  }

  lemma ChangeInFrame(c: Command, u: User, category: string, value: bool)
    requires u.subs == map[]
    ensures var w := ChangeIn(c, u, category, value); w == u.(bits := w.bits, allcommands := w.allcommands)
  {
    NothingToDrop(c.id);
  }

  lemma ChangeInBits(c: Command, u: User, category: string, value: bool, id: nat)
    ensures id in ChangeIn(c, u, category, value).bits <==>
            if !c.fromModule && category in c.categories && id == c.id && id < BITS then value else id in u.bits
  {
  }

  lemma ChangeInOk(c: Command, u: User, v: User, category: string, value: bool)
    requires u.bits == v.bits && u.subs == map[]
    ensures ChangeIn(c, u, category, value).bits == ChangeIn(c, v, category, value).bits
    ensures var w := ChangeIn(c, u, category, value); w == u.(bits := w.bits, allcommands := w.allcommands)
    ensures forall id :: id != c.id ==> (id in ChangeIn(c, u, category, value).bits <==> id in u.bits)
  {
    hide ChangeIn;
    ChangeInFrame(c, u, category, value);
    forall id: nat
      ensures id in ChangeIn(c, u, category, value).bits <==> id in ChangeIn(c, v, category, value).bits
      ensures id != c.id ==> (id in ChangeIn(c, u, category, value).bits <==> id in u.bits)
    {
      ChangeInBits(c, u, category, value, id);
      ChangeInBits(c, v, category, value, id);
    }
  }

  lemma NothingToDrop(id: nat)
    ensures var none: map<nat, seq<string>> := map[]; none - {id} == none
  {
  }

  /** Two users that differ in other things than bits are changed alike, and ids outside the list are not changed. */
  lemma {:induction false} SetCategoryBits(cmds: seq<Command>, u: User, v: User, category: string, value: bool)
    requires u.bits == v.bits && u.subs == map[]
    ensures SetCategory(cmds, u, category, value).bits == SetCategory(cmds, v, category, value).bits
    ensures forall id :: !HasId(cmds, id) ==> (id in SetCategory(cmds, u, category, value).bits <==> id in u.bits)
    ensures var w := SetCategory(cmds, u, category, value); w == u.(bits := w.bits, allcommands := w.allcommands)
    decreases |cmds|
  {
    hide SetBit, DropSubs, HasId;
    if cmds != [] {
      var c := cmds[0];
      var u1 := ChangeIn(c, u, category, value);
      var v1 := ChangeIn(c, v, category, value);
      assert SetCategory(cmds, u, category, value) == SetCategory(cmds[1..], u1, category, value);
      assert SetCategory(cmds, v, category, value) == SetCategory(cmds[1..], v1, category, value);
      hide ChangeIn;
      ChangeInOk(c, u, v, category, value);
      SetCategoryBits(cmds[1..], u1, v1, category, value);
      forall id | !HasId(cmds, id)
        ensures !HasId(cmds[1..], id) && id != c.id
      {
        IdTail(cmds, id);
      }
    }
  }

  lemma IdTail(cmds: seq<Command>, id: nat)
    requires cmds != []
    ensures HasId(cmds, id) <==> cmds[0].id == id || HasId(cmds[1..], id)
  {
    if HasId(cmds[1..], id) {
      var i :| 0 <= i < |cmds[1..]| && cmds[1..][i].id == id;
      assert cmds[i + 1].id == id;
    }
    if HasId(cmds, id) && cmds[0].id != id {
      var i :| 0 <= i < |cmds| && cmds[i].id == id;
      assert cmds[1..][i - 1].id == id;
    }
  }

  lemma CategoryReplay(t: Table, hash: Hash, u: User, w: User, k: nat)
    requires TableOk(t) && k < |t.categories|
    ensures SetUser(t, hash, w, (if Additive(u) then "+@" else "-@") + t.categories[k]) ==
            Ok(SetCategory(t.cmds, w, t.categories[k], Additive(u)))
  {
    hide Parse, Same, SetCategory;
    ParseCategory(t.categories[k]);
    CategoryFound(t.categories, k);
  }

  lemma ReplayThen(t: Table, hash: Hash, u: User, op: string, v: User, rest: seq<string>)
    requires SetUser(t, hash, u, op) == Ok(v)
    ensures SetUserAll(t, hash, u, [op] + rest) == SetUserAll(t, hash, v, rest)
  {
    hide SetUser, SetUserAll;
    ReplayOne(t, hash, u, op);
    ReplayConcat(t, hash, u, [op], rest);
  }

  /** A category rule does the same to users with the same bits. */
  lemma BothCategories(t: Table, w: User, fake: User, x: string, add: bool)
    requires w.subs == map[] && w.bits == fake.bits && fake.subs == map[]
    ensures var w1, f1 := SetCategory(t.cmds, w, x, add), SetCategory(t.cmds, fake, x, add);
            w1 == w.(bits := f1.bits, allcommands := w1.allcommands) && f1.subs == map[] &&
            forall id :: !HasId(t.cmds, id) ==> (id in w1.bits <==> id in w.bits)
  {
    hide SetCategory, HasId;
    SetCategoryBits(t.cmds, w, fake, x, add);
    SetCategoryBits(t.cmds, fake, fake, x, add);
  }

  lemma {:induction false} CategoriesReplay(t: Table, hash: Hash, u: User, w: User, fake: User, k: nat)
    requires TableOk(t) && k <= |t.categories| && w.subs == map[] && w.bits == fake.bits && fake.subs == map[]
    ensures var r := SetUserAll(t, hash, w, CategoryOps(t, u, t.categories[k..]));
            r.Ok? &&
            r.u == w.(bits := CategoryBits(t, u, t.categories[k..], fake).bits, allcommands := r.u.allcommands) &&
            forall id :: !HasId(t.cmds, id) ==> (id in r.u.bits <==> id in w.bits)
    decreases |t.categories| - k
  {
    hide TableOk, Emits, SetCategory, SetUser, HasId, SetUserAll;
    if k == |t.categories| {
      ReplayNone(t, hash, w);
    } else {
      var x := t.categories[k];
      var rest := t.categories[k + 1..];
      assert t.categories[k..][1..] == rest && t.categories[k..][0] == x;
      if Emits(t, u, x) {
        var op := (if Additive(u) then "+@" else "-@") + x;
        CategoryReplay(t, hash, u, w, k);
        var w1 := SetCategory(t.cmds, w, x, Additive(u));
        var f1 := SetCategory(t.cmds, fake, x, Additive(u));
        BothCategories(t, w, fake, x, Additive(u));
        CategoriesReplay(t, hash, u, w1, f1, k + 1);
        ReplayThen(t, hash, w, op, w1, CategoryOps(t, u, rest));
      } else {
        assert CategoryOps(t, u, t.categories[k..]) == CategoryOps(t, u, rest);
        CategoriesReplay(t, hash, u, w, fake, k + 1);
      }
    }
  }

  // ----- single commands and their subcommands

  lemma {:induction false} IdFound(cmds: seq<Command>, k: nat)
    requires k < |cmds| && forall i, j :: 0 <= i < j < |cmds| ==> !Same(cmds[i].name, cmds[j].name)
    ensures IdOf(cmds, cmds[k].name) == Some(cmds[k].id)
  {
    hide Same;
    SameSelf(cmds[k].name);
    if k > 0 {
      IdFound(cmds[1..], k - 1);
    }
  }

  lemma KnownIds(t: Table, k: nat)
    requires TableOk(t) && k < |t.cmds|
    ensures IdOf(t.cmds, t.cmds[k].name) == Some(t.cmds[k].id) && t.cmds[k].id < FUTURE && NameOk(t.cmds[k].name)
  {
    hide Same;
    IdFound(t.cmds, k);
  }

  /** The user after the subcommands `q` are added one by one. */
  lemma {:induction false} SubsReplay(t: Table, hash: Hash, w: User, k: nat, q: seq<string>)
    requires TableOk(t) && k < |t.cmds| && t.cmds[k].id !in w.bits && !w.allcommands
    requires SubsOf(w, t.cmds[k].id) + q == [] || SubListOk(SubsOf(w, t.cmds[k].id) + q)
    ensures SetUserAll(t, hash, w, Prefixed("+" + t.cmds[k].name + "|", q)) ==
            Ok(if q == [] then w else w.(subs := w.subs[t.cmds[k].id := SubsOf(w, t.cmds[k].id) + q]))
    decreases |q|
  {
    hide TableOk, Parse, SubListOk, IdOf, Listed, Prefixed, SetUserAll;
    ReplayNone(t, hash, w);
    var id := t.cmds[k].id;
    var p := "+" + t.cmds[k].name + "|";
    assert q == [] ==> Prefixed(p, q) == [] by { PrefixedStep(p, q); }
    if q != [] {
      var s := SubsOf(w, id);
      PrefixedStep(p, q);
      KnownIds(t, k);
      SubParts(s, q);
      ParseSub(t.cmds[k].name, q[0]);
      var w1 := w.(subs := w.subs[id := s + [q[0]]]);
      assert w.bits - {id} == w.bits;
      assert SetUser(t, hash, w, p + q[0]) == Ok(w1);
      assert s + [q[0]] + q[1..] == s + q;
      SubsReplay(t, hash, w1, k, q[1..]);
      ReplayOne(t, hash, w, p + q[0]);
      ReplayConcat(t, hash, w, [p + q[0]], Prefixed(p, q[1..]));
      if q[1..] == [] {
        assert s + q == s + [q[0]];
      } else {
        assert w1.subs[id := s + q] == w.subs[id := s + q];
      }
    }
  }

  lemma PrefixedStep(p: string, q: seq<string>)
    ensures Prefixed(p, q) == if q == [] then [] else [p + q[0]] + Prefixed(p, q[1..])
  {
  }

  lemma SubParts(s: seq<string>, q: seq<string>)
    requires q != [] && SubListOk(s + q)
    ensures q[0] != [] && '\0' !in q[0] && !Listed(s, q[0])
  {
    hide Same;
    assert (s + q)[|s|] == q[0];
    assert forall i :: 0 <= i < |s| ==> (s + q)[i] == s[i];
  }

  predicate FlagOk(w: User) {
    w.allcommands ==> w.bits == AllBits()
  }

  /** The bit of one command made what it is in `u`. */
  function FixBit(w: User, u: User, fake: set<nat>, id: nat): User {
    if (id in u.bits) == (id in fake) then w else DropSubs(SetBit(w, id, id in u.bits), id)
  }

  lemma FixBitOk(w: User, u: User, fake: set<nat>, id: nat)
    requires (id in w.bits <==> id in fake) && id !in w.subs && FlagOk(w) && id < FUTURE
    ensures var v := FixBit(w, u, fake, id);
            v == w.(bits := v.bits, allcommands := v.allcommands) && FlagOk(v) &&
            (id in v.bits <==> id in u.bits) && (id !in v.bits ==> !v.allcommands) &&
            forall j :: j != id ==> (j in v.bits <==> j in w.bits)
  {
    assert w.subs - {id} == w.subs;
    if id in u.bits && FlagOk(w) && w.allcommands {
      assert w.bits + {id} == w.bits;
    }
  }

  lemma FixBitReplay(t: Table, hash: Hash, u: User, fake: set<nat>, w: User, k: nat)
    requires TableOk(t) && k < |t.cmds|
    ensures var c := t.cmds[k];
            SetUserAll(t, hash, w, FixOp(u, fake, c)) == Ok(FixBit(w, u, fake, c.id))
  {
    hide TableOk, Parse, IdOf, SetBit, DropSubs, SetUserAll;
    var c := t.cmds[k];
    KnownIds(t, k);
    ParseCommand(c.name);
    ReplayNone(t, hash, w);
    ReplayOne(t, hash, w, "+" + c.name);
    ReplayOne(t, hash, w, "-" + c.name);
  }

  /** What replaying the rules of one command does. */
  function FixOne(w: User, u: User, fake: set<nat>, id: nat): User {
    var v := FixBit(w, u, fake, id);
    if id in u.subs then v.(subs := v.subs[id := u.subs[id]]) else v
  }

  lemma CommandReplay(t: Table, hash: Hash, u: User, fake: set<nat>, w: User, k: nat)
    requires TableOk(t) && SubsOk(t.cmds, u) && k < |t.cmds| && FlagOk(w)
    requires (t.cmds[k].id in w.bits <==> t.cmds[k].id in fake) && t.cmds[k].id !in w.subs
    ensures SetUserAll(t, hash, w, CommandOps(u, fake, t.cmds[k])) == Ok(FixOne(w, u, fake, t.cmds[k].id))
  {
    hide TableOk, FixBit, SetUserAll, SubListOk, HasId, Prefixed;
    var c := t.cmds[k];
    KnownIds(t, k);
    FixBitOk(w, u, fake, c.id);
    FixBitReplay(t, hash, u, fake, w, k);
    var v := FixBit(w, u, fake, c.id);
    var fix := FixOp(u, fake, c);
    var q := SubsOf(u, c.id);
    if c.id in u.bits {
      assert CommandOps(u, fake, c) == fix + [];
      assert fix + [] == fix;
    } else {
      assert SubsOf(v, c.id) + q == q;
      SubsReplay(t, hash, v, k, q);
      ReplayConcat(t, hash, w, fix, Prefixed("+" + c.name + "|", q));
      if c.id in u.subs {
        assert q != [] by { SubListNonEmpty(q); }
      }
    }
  }

  lemma SubListNonEmpty(q: seq<string>)
    requires SubListOk(q)
    ensures q != []
  {
  }

  /** Replaying the fixes of the commands from k on makes their bits and subcommands what they are in `u`. */
  lemma {:induction false} FixReplay(t: Table, hash: Hash, u: User, fake: set<nat>, w: User, k: nat)
    requires TableOk(t) && SubsOk(t.cmds, u) && k <= |t.cmds| && FlagOk(w)
    requires forall i :: k <= i < |t.cmds| ==>
               (t.cmds[i].id in w.bits <==> t.cmds[i].id in fake) && t.cmds[i].id !in w.subs
    ensures var r := SetUserAll(t, hash, w, FixOps(u, fake, t.cmds[k..]));
            r.Ok? && r.u == w.(bits := r.u.bits, subs := r.u.subs, allcommands := r.u.allcommands) && FlagOk(r.u) &&
            Fixed(t.cmds[k..], w, u, r.u)
    decreases |t.cmds| - k
  {
    hide SetUserAll, SubsOk, CommandOps, FixBit, Fixed, Same;
    if k == |t.cmds| {
      ReplayNone(t, hash, w);
      NothingFixed(w, u);
    } else {
      var c := t.cmds[k];
      var rest := t.cmds[k + 1..];
      assert t.cmds[k..][1..] == rest && t.cmds[k..][0] == c;
      CommandReplay(t, hash, u, fake, w, k);
      FixBitOk(w, u, fake, c.id);
      var w1 := FixOne(w, u, fake, c.id);
      FixReplay(t, hash, u, fake, w1, k + 1);
      ReplayConcat(t, hash, w, CommandOps(u, fake, c), FixOps(u, fake, rest));
      var r := SetUserAll(t, hash, w1, FixOps(u, fake, rest));
      FixedStep(t.cmds[k..], w, w1, u, r.u);
    }
  }

  /** Over the listed ids `v` agrees with `u`, elsewhere with `w`. */
  ghost predicate Fixed(cmds: seq<Command>, w: User, u: User, v: User) {
    forall id: nat :: FixedAt(cmds, w, u, v, id)
  }

  predicate FixedAt(cmds: seq<Command>, w: User, u: User, v: User, id: nat) {
    var from := if HasId(cmds, id) then u else w;
    (id in v.bits <==> id in from.bits) && (id in v.subs <==> id in from.subs) &&
    (id in v.subs ==> v.subs[id] == from.subs[id])
  }

  lemma NothingFixed(w: User, u: User)
    ensures Fixed([], w, u, w)
  {
    forall id
      ensures FixedAt([], w, u, w, id)
    {
    }
  }

  lemma FixedStep(cmds: seq<Command>, w: User, w1: User, u: User, v: User)
    requires cmds != [] && Fixed(cmds[1..], w1, u, v) && !HasId(cmds[1..], cmds[0].id) && cmds[0].id < BITS
    requires (cmds[0].id in w1.bits <==> cmds[0].id in u.bits)
    requires forall j :: j != cmds[0].id ==> (j in w1.bits <==> j in w.bits)
    requires cmds[0].id !in w.subs &&
             w1.subs == if cmds[0].id in u.subs then w.subs[cmds[0].id := u.subs[cmds[0].id]] else w.subs
    ensures Fixed(cmds, w, u, v)
  {
    hide HasId;
    forall id: nat
      ensures FixedAt(cmds, w, u, v, id)
    {
      IdTail(cmds, id);
      assert FixedAt(cmds[1..], w1, u, v, id);
    }
  }

  // ----- the round trip

  /** The state when the command rules begin. */
  function BeforeRules(u: User): User {
    FRESH.(enabled := u.enabled, disabled := u.disabled, nopass := u.nopass, passwords := u.passwords,
           allkeys := u.allkeys, patterns := u.patterns)
  }

  lemma PreambleReplay(t: Table, hash: Hash, u: User)
    requires UserOk(t, u)
    ensures SetUserAll(t, hash, FRESH, FlagOps(u) + Prefixed("#", u.passwords) + KeyOps(u)) == Ok(BeforeRules(u))
  {
    hide SetUserAll, BitsOk, SubsOk, HasSpaces, IsHash, Prefixed;
    FlagsReplay(t, hash, u);
    var w := FRESH.(enabled := u.enabled, disabled := u.disabled, nopass := u.nopass);
    assert [] + u.passwords == u.passwords;
    PasswordsReplay(t, hash, w, u.passwords);
    ReplayConcat(t, hash, FRESH, FlagOps(u), Prefixed("#", u.passwords));
    KeysReplay(t, hash, w.(passwords := u.passwords), u);
    ReplayConcat(t, hash, FRESH, FlagOps(u) + Prefixed("#", u.passwords), KeyOps(u));
  }

  function AllOp(u: User): string {
    if Additive(u) then "-@all" else "+@all"
  }

  function AfterAll(u: User): User {
    BeforeRules(u).(bits := Base(u).bits, allcommands := !Additive(u))
  }

  lemma AllReplay(t: Table, hash: Hash, u: User)
    ensures SetUser(t, hash, BeforeRules(u), AllOp(u)) == Ok(AfterAll(u))
  {
    hide Parse;
    ParseWords();
  }

  lemma RulesReplay(t: Table, hash: Hash, u: User)
    requires TableOk(t) && Digests(hash) && UserOk(t, u)
    ensures var r := SetUserAll(t, hash, BeforeRules(u), RuleOps(t, u));
            r.Ok? && r.u == BeforeRules(u).(bits := u.bits, subs := u.subs, allcommands := r.u.allcommands) &&
            FlagOk(r.u)
  {
    hide SetUserAll, SetUser, TableOk, Digests, UserOk, CategoryOps, FixOps, CategoryBits, FixedAt, SubsOk, BitsOk,
      BeforeRules;
    var w := AfterAll(u);
    AfterAllOk(t, u);
    AllReplay(t, hash, u);
    ReplayOne(t, hash, BeforeRules(u), AllOp(u));
    CategoriesReplay(t, hash, u, w, Base(u), 0);
    assert t.categories[0..] == t.categories && t.cmds[0..] == t.cmds;
    var cats := CategoryOps(t, u, t.categories);
    var fake := CategoryBits(t, u, t.categories, Base(u)).bits;
    var w2 := SetUserAll(t, hash, w, cats).u;
    ReachableOk(t, hash, w, cats);
    assert FlagOk(w2) && SubsOk(t.cmds, u) by { Parts(t, w2); Parts(t, u); }
    FixReplay(t, hash, u, fake, w2, 0);
    var v := SetUserAll(t, hash, w2, FixOps(u, fake, t.cmds)).u;
    SameInTheEnd(t, u, w2, v);
    ReplayConcat(t, hash, BeforeRules(u), [AllOp(u)], cats);
    ReplayConcat(t, hash, BeforeRules(u), [AllOp(u)] + cats, FixOps(u, fake, t.cmds));
  }

  lemma Parts(t: Table, u: User)
    requires UserOk(t, u)
    ensures FlagOk(u) && SubsOk(t.cmds, u) && BitsOk(t.cmds, u)
  {
  }

  lemma AfterAllOk(t: Table, u: User)
    requires UserOk(t, u)
    ensures UserOk(t, AfterAll(u)) && AfterAll(u).subs == map[]
    ensures forall id: nat :: id in AfterAll(u).bits <==> id < BITS && FUTURE in u.bits
  {
  }

  lemma SameInTheEnd(t: Table, u: User, w: User, v: User)
    requires TableOk(t) && UserOk(t, u) && Fixed(t.cmds, w, u, v) && w.subs == map[]
    requires forall id: nat :: !HasId(t.cmds, id) ==> (id in w.bits <==> id < BITS && FUTURE in u.bits)
    ensures v.bits == u.bits && v.subs == u.subs
  {
    hide TableOk, HasId, FlagsOk, PasswordsOk, PatternsOk, SubListOk;
    forall id: nat
      ensures id in v.bits <==> id in u.bits
      ensures id in v.subs <==> id in u.subs
      ensures id in v.subs ==> v.subs[id] == u.subs[id]
    {
      assert FixedAt(t.cmds, w, u, v, id);
    }
  }

  lemma {:induction false} NoneOff(cmds: seq<Command>, u: User, category: string)
    requires forall i :: 0 <= i < |cmds| ==> cmds[i].id in u.bits
    ensures Count(cmds, u, category, false) == 0
  {
    if cmds != [] {
      NoneOff(cmds[1..], u, category);
    }
  }

  lemma {:induction false} NoCategories(t: Table, u: User, categories: seq<string>)
    requires u.bits == AllBits() && forall i :: 0 <= i < |t.cmds| ==> t.cmds[i].id in u.bits
    ensures CategoryOps(t, u, categories) == [] && CategoryBits(t, u, categories, Base(u)) == Base(u)
  {
    if categories != [] {
      NoneOff(t.cmds, u, categories[0]);
      NoCategories(t, u, categories[1..]);
    }
  }

  lemma {:induction false} NoFixes(u: User, cmds: seq<Command>)
    requires forall i :: 0 <= i < |cmds| ==> cmds[i].id in u.bits
    ensures FixOps(u, u.bits, cmds) == []
  {
    if cmds != [] {
      NoFixes(u, cmds[1..]);
    }
  }

  /** A user whose bits are all set prints as "+@all", whatever its flag says. */
  lemma AllSetReplay(t: Table, hash: Hash, u: User)
    requires TableOk(t) && UserOk(t, u) && u.bits == AllBits()
    ensures SetUserAll(t, hash, BeforeRules(u), RuleOps(t, u)).Ok?
    ensures SetUserAll(t, hash, BeforeRules(u), RuleOps(t, u)).u.allcommands
  {
    hide SetUserAll, SetUser, UserOk, CategoryOps, FixOps, CategoryBits;
    NoCategories(t, u, t.categories);
    NoFixes(u, t.cmds);
    assert RuleOps(t, u) == [AllOp(u)];
    AllReplay(t, hash, u);
    ReplayOne(t, hash, BeforeRules(u), AllOp(u));
  }

  /** Replaying a printed user on a fresh one gives it back; the flag ALLCOMMANDS becomes "all bits are set". */
  lemma RoundTrip(t: Table, hash: Hash, u: User)
    requires TableOk(t) && Digests(hash) && UserOk(t, u)
    ensures SetUserAll(t, hash, FRESH, Describe(t, u)) == Ok(u.(allcommands := u.bits == AllBits()))
  {
    hide SetUserAll, SetUser, TableOk, Digests, UserOk, RuleOps, FlagOps, KeyOps, Prefixed;
    PreambleReplay(t, hash, u);
    RulesReplay(t, hash, u);
    ReplayConcat(t, hash, FRESH, FlagOps(u) + Prefixed("#", u.passwords) + KeyOps(u), RuleOps(t, u));
    if u.bits == AllBits() {
      AllSetReplay(t, hash, u);
    }
  }

  /** Of every user that operations can produce, the printed form gives all of it back iff its flag ALLCOMMANDS
      is set or some bit is clear. */
  lemma PrintedUserReplaysIff(t: Table, hash: Hash, ops: seq<string>)
    requires TableOk(t) && Digests(hash) && SetUserAll(t, hash, FRESH, ops).Ok?
    ensures var u := SetUserAll(t, hash, FRESH, ops).u;
            SetUserAll(t, hash, FRESH, Describe(t, u)).Ok? &&
            SetUserAll(t, hash, FRESH, Describe(t, u)).u.(allcommands := u.allcommands) == u &&
            (SetUserAll(t, hash, FRESH, Describe(t, u)) == Ok(u) <==> u.allcommands || u.bits != AllBits())
  {
    hide SetUserAll, TableOk, Digests, UserOk, Describe;
    FreshOk(t);
    ReachableOk(t, hash, FRESH, ops);
    var u := SetUserAll(t, hash, FRESH, ops).u;
    Parts(t, u);
    RoundTrip(t, hash, u);
  }

  /** The failing side is reached in every table: all commands, one of them taken away and given back. */
  lemma FlagIsLost(t: Table, hash: Hash, i: nat)
    requires TableOk(t) && Digests(hash) && i < |t.cmds|
    ensures var name := t.cmds[i].name;
            var r := SetUserAll(t, hash, FRESH, ["+@all", "-" + name, "+" + name]);
            r.Ok? && r.u.bits == AllBits() && !r.u.allcommands && SetUserAll(t, hash, FRESH, Describe(t, r.u)) != r
  {
    hide SetUserAll, Parse, Describe, Digests;
    var name, id := t.cmds[i].name, t.cmds[i].id;
    var ops := ["+@all", "-" + name, "+" + name];
    IdFound(t.cmds, i);
    GivenBack(t, hash, name, id);
    PrintedUserReplaysIff(t, hash, ops);
  }

  lemma AllThenLess(t: Table, hash: Hash, name: string, id: nat)
    requires NameOk(name) && IdOf(t.cmds, name) == Some(id) && id < BITS
    ensures var u1 := FRESH.(bits := AllBits(), allcommands := true);
            SetUser(t, hash, FRESH, "+@all") == Ok(u1) &&
            SetUser(t, hash, u1, "-" + name) == Ok(u1.(bits := AllBits() - {id}, allcommands := false))
  {
    hide Parse, IdOf, NameOk;
    ParseWords();
    ParseCommand(name);
  }

  lemma LessThenAll(t: Table, hash: Hash, name: string, id: nat)
    requires NameOk(name) && IdOf(t.cmds, name) == Some(id) && id < BITS
    ensures SetUser(t, hash, FRESH.(bits := AllBits() - {id}), "+" + name) == Ok(FRESH.(bits := AllBits()))
  {
    hide Parse, IdOf, NameOk;
    ParseCommand(name);
    assert AllBits() - {id} + {id} == AllBits();
  }

  lemma GivenBack(t: Table, hash: Hash, name: string, id: nat)
    requires NameOk(name) && IdOf(t.cmds, name) == Some(id) && id < BITS
    ensures SetUserAll(t, hash, FRESH, ["+@all", "-" + name, "+" + name]) == Ok(FRESH.(bits := AllBits()))
  {
    hide SetUserAll, IdOf, NameOk, SetUser;
    var u1 := FRESH.(bits := AllBits(), allcommands := true);
    var u2 := u1.(bits := AllBits() - {id}, allcommands := false);
    AllThenLess(t, hash, name, id);
    LessThenAll(t, hash, name, id);
    ReplayOne(t, hash, u2, "+" + name);
    ReplayThen(t, hash, u1, "-" + name, u2, ["+" + name]);
    ReplayThen(t, hash, FRESH, "+@all", u1, ["-" + name] + ["+" + name]);
    assert ["+@all"] + (["-" + name] + ["+" + name]) == ["+@all", "-" + name, "+" + name];
  }
}
