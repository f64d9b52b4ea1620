/** Feeding the log and replaying it, whole or cut at any byte. */
module AofLoad {
  import opened Common
  import opened AofLog

  // ----- the feeder

  /** A command executed against a db. */
  datatype Fed = Fed(db: nat, argv: Argv)

  /** What the command table says of a name. */
  datatype Kind = Unknown | Multi | Exec | Select | Other

  function SelectCommand(db: nat): Argv {
    ["SELECT", Dec(db)]
  }

  /** The commands feedAppendOnlyFile writes for one command that needs no translation. */
  function FeedOne(selected: int, c: Fed): seq<Argv> {
    (if c.db != selected then [SelectCommand(c.db)] else []) + [c.argv]
  }

  function Raw(selected: int, cmds: seq<Fed>): seq<Argv>
    decreases |cmds|
  {
    if cmds == [] then [] else FeedOne(selected, cmds[0]) + Raw(cmds[0].db, cmds[1..])
  }

  /** feedAppendOnlyFile, on the buffer it appends to. */
  class Feeder {
    var buf: string
    var selected: int

    constructor ()
      ensures buf == "" && selected == -1
    {
      buf, selected := "", -1;
    }

    method Feed(c: Fed)
      modifies this
      ensures buf == old(buf) + EncodeAll(FeedOne(old(selected), c)) && selected == c.db
    {
      ghost var was := buf;
      if c.db != selected {
        var seldb := Dec(c.db);
        buf := buf + "*2\r\n$6\r\nSELECT\r\n$" + Dec(|seldb|) + "\r\n" + seldb + "\r\n";
        SelectText(c.db);
        assert buf == was + Encode(SelectCommand(c.db));
        selected := c.db;
      }
      ghost var mid := buf;
      var e := CatGenericCommand(c.argv);
      buf := buf + e;
      EncodeOne(c.argv);
      EncodeTwo(SelectCommand(c.db), c.argv);
    }
  }

  lemma SelectText(db: nat)
    ensures Encode(SelectCommand(db)) == "*2\r\n$6\r\nSELECT\r\n$" + Dec(|Dec(db)|) + "\r\n" + Dec(db) + "\r\n"
  {
    hide EncodeArgs;
    TwoArgs("SELECT", Dec(db));
    SelectWords();
    var l, d := Dec(|Dec(db)|), Dec(db);
    Glue("*2\r\n", "$6\r\nSELECT\r\n", l, d, "\r\n");
    assert "*2\r\n" + "$6\r\nSELECT\r\n" + "$" == "*2\r\n$6\r\nSELECT\r\n$";
  }

  lemma SelectWords()
    ensures "*" + Dec(2) + "\r\n" == "*2\r\n" && EncodeArg("SELECT") == "$6\r\nSELECT\r\n"
  {
    assert Dec(2) == "2" && Dec(6) == "6" && |"SELECT"| == 6;
  }

  lemma Glue(a: string, b: string, l: string, d: string, crlf: string)
    ensures a + (b + ("$" + l + crlf + d + crlf)) == a + b + "$" + l + crlf + d + crlf
  {
  }

  lemma TwoArgs(a: string, b: string)
    ensures EncodeArgs([a, b]) == EncodeArg(a) + EncodeArg(b)
  {
    hide EncodeArg;
    assert [a, b][1..] == [b] && [b][1..] == [];
    assert EncodeArgs([b]) == EncodeArg(b);
  }

  lemma EncodeOne(a: Argv)
    ensures EncodeAll([a]) == Encode(a)
  {
    assert [a][1..] == [];
  }

  lemma EncodeTwo(a: Argv, b: Argv)
    ensures EncodeAll([a] + [b]) == Encode(a) + Encode(b)
  {
    hide Encode;
    assert ([a] + [b])[1..] == [b];
    EncodeOne(b);
  }

  /** catAppendOnlyGenericCommand */
  method CatGenericCommand(argv: Argv) returns (dst: string)
    ensures dst == Encode(argv)
  {
    dst := "*" + Dec(|argv|) + "\r\n";
    ghost var head := dst;
    for j := 0 to |argv|
      invariant dst + EncodeArgs(argv[j..]) == head + EncodeArgs(argv)
    {
      assert argv[j..][1..] == argv[j + 1..];
      dst := dst + ("$" + Dec(|argv[j]|) + "\r\n" + argv[j] + "\r\n");
    }
    assert argv[|argv|..] == [];
    assert dst + "" == dst;
  }

  // ----- the fake client

  datatype Client = Client(db: nat, multi: bool, queue: seq<Argv>, done: seq<Fed>)

  const NEW_CLIENT: Client := Client(0, false, [], [])

  /** A command that is executed, as seen from the data: a SELECT moves to a db, any other command runs there. */
  function RunOne(kinds: string -> Kind, c: Client, argv: Argv): Client {
    if argv != [] && kinds(argv[0]) == Select then
      (if |argv| == 2 && Atoi(argv[1]) >= 0 then c.(db := Atoi(argv[1])) else c)
    else c.(done := c.done + [Fed(c.db, argv)])
  }

  function RunAll(kinds: string -> Kind, c: Client, q: seq<Argv>): Client
    decreases |q|
  {
    if q == [] then c else RunAll(kinds, RunOne(kinds, c, q[0]), q[1..])
  }

  /** Inside a transaction everything but EXEC is queued; EXEC runs the queue. */
  function Process(kinds: string -> Kind, c: Client, argv: Argv): Client
    requires argv != []
  {
    if c.multi && kinds(argv[0]) != Exec then c.(queue := c.queue + [argv])
    else
      var c1 := RunAll(kinds, c, c.queue).(multi := kinds(argv[0]) == Multi, queue := []);
      RunOne(kinds, c1, argv)
  }

  function Replay(kinds: string -> Kind, c: Client, cmds: seq<Argv>): Client
    requires forall i :: 0 <= i < |cmds| ==> cmds[i] != []
    decreases |cmds|
  {
    if cmds == [] then c else Replay(kinds, Process(kinds, c, cmds[0]), cmds[1..])
  }

  // ----- the loader

  datatype Outcome =
    | Loaded(c: Client)
    | Truncated(c: Client, at: nat)   // the file is cut there and the load succeeds
    | Empty                           // a file of no bytes is reported, not read
    | Fatal                           // format error, unknown command, or short file when truncation is off

  datatype Options = Options(kinds: string -> Kind, loadTruncated: bool)

  function Unexpected(o: Options, c: Client, at: nat): Outcome {
    if o.loadTruncated then Truncated(c, at) else Fatal
  }

  /** The loop of loadAppendOnlyFile; `f` is what is left of a file of `size` bytes. */
  function Load(o: Options, f: string, size: nat, c: Client, validUpTo: nat, beforeMulti: nat): (r: Outcome)
    requires |f| <= size
    ensures r != Empty
    decreases |f|
  {
    if f == [] then
      if c.multi then Unexpected(o, c, beforeMulti) else Loaded(c)
    else match ReadCommand(f)
      case Bad => Fatal
      case Short => Unexpected(o, c, validUpTo)
      case Got(argv, rest) =>
        ReadCommandConsumes(f);
        var kind := o.kinds(argv[0]);
        if kind == Unknown then Fatal
        else
          Load(o, rest, size, Process(o.kinds, c, argv), if o.loadTruncated then size - |rest| else validUpTo,
               if kind == Multi then validUpTo else beforeMulti)
  }

  lemma {:induction false} ReadArgsConsumes(f: string, argc: nat)
    ensures ReadArgs(f, argc).Got? ==> |ReadArgs(f, argc).v| == argc && |ReadArgs(f, argc).rest| <= |f|
    decreases argc
  {
    if argc > 0 {
      var r := ReadArg(f);
      if r.Got? {
        ReadArgsConsumes(r.rest, argc - 1);
      }
    }
  }

  lemma ReadCommandConsumes(f: string)
    requires f != []
    ensures ReadCommand(f).Got? ==> ReadCommand(f).v != [] && |ReadCommand(f).rest| < |f|
  {
    hide ReadArgs;
    var n := LineLen(f, FGETS);
    var argc := Atoi(f[1..n]);
    if argc >= 1 {
      ReadArgsConsumes(f[n..], argc);
    }
  }

  /** loadAppendOnlyFile, as its loop over a file offset. */
  method LoadAppendOnlyFile(o: Options, file: string) returns (r: Outcome)
    ensures file == [] <==> r == Empty
    ensures file != [] ==> r == Load(o, file, |file|, NEW_CLIENT, 0, 0)
  {
    hide ReadCommand, Process;
    if |file| == 0 {
      return Empty;
    }
    var off: nat, client, validUpTo: nat, validBeforeMulti: nat := 0, NEW_CLIENT, 0, 0;
    while off < |file|
      invariant 0 <= off <= |file|
      invariant Load(o, file[off..], |file|, client, validUpTo, validBeforeMulti) ==
                Load(o, file, |file|, NEW_CLIENT, 0, 0)
    {
      ReadCommandConsumes(file[off..]);
      var read := ReadCommand(file[off..]);
      match read {
        case Bad => return Fatal;
        case Short => return Unexpected(o, client, validUpTo);
        case Got(argv, rest) =>
          var kind := o.kinds(argv[0]);
          if kind == Unknown {
            return Fatal;
          }
          if kind == Multi {
            validBeforeMulti := validUpTo;
          }
          client := Process(o.kinds, client, argv);
          ReadSuffix(file, off);
          off := |file| - |rest|;
          if o.loadTruncated {
            validUpTo := off;
          }
      }
    }
    if client.multi {
      return Unexpected(o, client, validBeforeMulti);
    }
    return Loaded(client);
  }

  lemma {:induction false} ReadArgsSuffix(f: string, argc: nat)
    ensures ReadArgs(f, argc).Got? ==> var r := ReadArgs(f, argc).rest; |r| <= |f| && f[|f| - |r|..] == r
    decreases argc
  {
    if argc > 0 {
      var r := ReadArg(f);
      if r.Got? {
        assert f[|f| - |r.rest|..] == r.rest;
        ReadArgsSuffix(r.rest, argc - 1);
        var s := ReadArgs(r.rest, argc - 1);
        if s.Got? {
          assert f[|f| - |s.rest|..] == r.rest[|r.rest| - |s.rest|..];
        }
      }
    }
  }

  lemma ReadSuffix(file: string, off: nat)
    requires off < |file|
    ensures ReadCommand(file[off..]).Got? ==>
              var r := ReadCommand(file[off..]).rest; |r| <= |file| - off && file[|file| - |r|..] == r
  {
    hide ReadArgs;
    var f := file[off..];
    var n := LineLen(f, FGETS);
    var argc := Atoi(f[1..n]);
    if ReadCommand(f).Got? {
      ReadArgsSuffix(f[n..], argc);
      var r := ReadCommand(f).rest;
      assert file[|file| - |r|..] == f[n..][|f[n..]| - |r|..];
    }
  }

  // ----- what a client has run or will have run once its transaction ends

  function View(kinds: string -> Kind, c: Client): Client {
    RunAll(kinds, c, c.queue).(multi := false, queue := [])
  }

  predicate Sane(c: Client) {
    !c.multi ==> c.queue == []
  }

  lemma {:induction false} RunAllSnoc(kinds: string -> Kind, c: Client, q: seq<Argv>, a: Argv)
    ensures RunAll(kinds, c, q + [a]) == RunOne(kinds, RunAll(kinds, c, q), a)
    decreases |q|
  {
    hide RunOne;
    if q == [] {
      assert (q + [a])[1..] == [];
      assert RunAll(kinds, RunOne(kinds, c, a), []) == RunOne(kinds, c, a);
    } else {
      assert (q + [a])[1..] == q[1..] + [a];
      RunAllSnoc(kinds, RunOne(kinds, c, q[0]), q[1..], a);
    }
  }

  lemma {:induction false} RunAllFrame(kinds: string -> Kind, c: Client, q: seq<Argv>, m: bool, w: seq<Argv>)
    ensures RunAll(kinds, c.(multi := m, queue := w), q) == RunAll(kinds, c, q).(multi := m, queue := w)
    ensures RunAll(kinds, c, q).multi == c.multi && RunAll(kinds, c, q).queue == c.queue
    decreases |q|
  {
    if q != [] {
      RunAllFrame(kinds, RunOne(kinds, c, q[0]), q[1..], m, w);
    }
  }

  /** Queued or run at once, a command adds itself to what the client will have run. */
  lemma ProcessView(kinds: string -> Kind, c: Client, argv: Argv)
    requires argv != [] && Sane(c)
    ensures Sane(Process(kinds, c, argv))
    ensures View(kinds, Process(kinds, c, argv)) == RunOne(kinds, View(kinds, c), argv)
  {
    if c.multi && kinds(argv[0]) != Exec {
      RunAllSnoc(kinds, c.(queue := c.queue + [argv]), c.queue, argv);
      RunAllFrame(kinds, c, c.queue, c.multi, c.queue + [argv]);
    } else {
      RunAllFrame(kinds, c, c.queue, false, []);
      assert Process(kinds, c, argv).queue == [];
    }
  }

  predicate Named(cmds: seq<Argv>) {
    forall i :: 0 <= i < |cmds| ==> cmds[i] != []
  }

  lemma {:induction false} ReplayView(kinds: string -> Kind, c: Client, cmds: seq<Argv>)
    requires Named(cmds) && Sane(c)
    ensures Sane(Replay(kinds, c, cmds))
    ensures View(kinds, Replay(kinds, c, cmds)) == RunAll(kinds, View(kinds, c), cmds)
    decreases |cmds|
  {
    hide Process, RunOne, View;
    if cmds != [] {
      ProcessView(kinds, c, cmds[0]);
      ReplayView(kinds, Process(kinds, c, cmds[0]), cmds[1..]);
    }
  }

  // ----- the inserted SELECTs bring every command back to its db

  /** The commands the server feeds: known names, never SELECT, and sizes a machine can hold. */
  predicate Valid(kinds: string -> Kind, cmds: seq<Fed>) {
    kinds("SELECT") == Select &&
    forall i :: 0 <= i < |cmds| ==>
      Feedable(cmds[i].argv) && Fits(cmds[i].db) && kinds(cmds[i].argv[0]) !in {Unknown, Select}
  }

  /** How many fed commands are among the first `j` commands of the log. */
  function FedAmong(selected: int, cmds: seq<Fed>, j: nat): (m: nat)
    ensures m <= |cmds|
    decreases |cmds|
  {
    if cmds == [] || j < |FeedOne(selected, cmds[0])| then 0
    else 1 + FedAmong(cmds[0].db, cmds[1..], j - |FeedOne(selected, cmds[0])|)
  }

  lemma RunSelect(kinds: string -> Kind, c: Client, db: nat)
    requires kinds("SELECT") == Select
    ensures RunOne(kinds, c, SelectCommand(db)) == c.(db := db)
  {
    AtoiDec(db, []);
    assert Dec(db) + [] == Dec(db);
  }

  // ----- what a client has run, and which transaction it holds open

  /** Where the transaction that is open started, one command on. */
  function NextOpen(open: Option<nat>, kind: Kind, at: nat): Option<nat> {
    if open == None then (if kind == Multi then Some(at) else None) else if kind == Exec then None else open
  }

  function KindOf(kinds: string -> Kind, argv: Argv): Kind {
    if argv == [] then Unknown else kinds(argv[0])
  }

  /** The MULTI whose transaction is still open after some commands, the first of which is number `at`. */
  function OpenAfter(kinds: string -> Kind, open: Option<nat>, cmds: seq<Fed>, at: nat): Option<nat>
    decreases |cmds|
  {
    if cmds == [] then open
    else OpenAfter(kinds, NextOpen(open, KindOf(kinds, cmds[0].argv), at), cmds[1..], at + 1)
  }

  /** The commands of `fed` that were run: all, or those up to the MULTI that is open. */
  function Ran(fed: seq<Fed>, open: Option<nat>): seq<Fed> {
    if open.Some? && open.value < |fed| then fed[..open.value + 1] else fed
  }

  /** The client was sent `fed`, and holds the transaction `open`. */
  predicate Sent(kinds: string -> Kind, c: Client, fed: seq<Fed>, open: Option<nat>) {
    Sane(c) && View(kinds, c).done == fed && (c.multi <==> open.Some?) && (open.Some? ==> open.value < |fed|) &&
    c.done == Ran(fed, open)
  }

  lemma SentSelect(kinds: string -> Kind, c: Client, fed: seq<Fed>, open: Option<nat>, db: nat)
    requires Sent(kinds, c, fed, open) && kinds("SELECT") == Select
    ensures Sent(kinds, Process(kinds, c, SelectCommand(db)), fed, open)
    ensures View(kinds, Process(kinds, c, SelectCommand(db))).db == db
  {
    hide RunAll;
    ProcessView(kinds, c, SelectCommand(db));
    RunSelect(kinds, View(kinds, c), db);
    if !c.multi {
      assert RunAll(kinds, c, []) == c by { RunNone(kinds, c); }
      RunSelect(kinds, c.(queue := []), db);
    }
  }

  lemma RunNone(kinds: string -> Kind, c: Client)
    ensures RunAll(kinds, c, []) == c
  {
  }

  lemma SentOne(kinds: string -> Kind, c: Client, fed: seq<Fed>, open: Option<nat>, f: Fed)
    requires Sent(kinds, c, fed, open) && f.argv != [] && kinds(f.argv[0]) != Select && View(kinds, c).db == f.db
    ensures Sent(kinds, Process(kinds, c, f.argv), fed + [f], NextOpen(open, kinds(f.argv[0]), |fed|))
    ensures View(kinds, Process(kinds, c, f.argv)).db == f.db
  {
    hide RunAll;
    ProcessView(kinds, c, f.argv);
    RunAllFrame(kinds, c, c.queue, false, []);
    if !c.multi {
      RunNone(kinds, c);
    }
    var c1 := Process(kinds, c, f.argv);
    if !(c.multi && kinds(f.argv[0]) != Exec) {
      RunNone(kinds, c1);
    }
  }

  lemma SentFeed(kinds: string -> Kind, selected: int, c: Client, fed: seq<Fed>, open: Option<nat>, f: Fed)
    requires Sent(kinds, c, fed, open) && kinds("SELECT") == Select && f.argv != [] && kinds(f.argv[0]) != Select
    requires selected == -1 || selected == View(kinds, c).db
    ensures Sent(kinds, Replay(kinds, c, FeedOne(selected, f)), fed + [f], NextOpen(open, kinds(f.argv[0]), |fed|))
    ensures View(kinds, Replay(kinds, c, FeedOne(selected, f))).db == f.db
  {
    hide Sent, View, Process, NextOpen;
    if f.db != selected {
      SentSelect(kinds, c, fed, open, f.db);
      var c1 := Process(kinds, c, SelectCommand(f.db));
      assert FeedOne(selected, f)[1..] == [f.argv];
      ReplayOne(kinds, c1, f.argv);
      SentOne(kinds, c1, fed, open, f);
    } else {
      assert FeedOne(selected, f) == [f.argv];
      ReplayOne(kinds, c, f.argv);
      SentOne(kinds, c, fed, open, f);
    }
  }

  lemma ReplayOne(kinds: string -> Kind, c: Client, a: Argv)
    requires a != []
    ensures Replay(kinds, c, [a]) == Process(kinds, c, a)
  {
    hide Process;
    assert [a][1..] == [];
    assert Replay(kinds, Process(kinds, c, a), []) == Process(kinds, c, a);
  }

  lemma {:induction false} ReplayConcat(kinds: string -> Kind, c: Client, a: seq<Argv>, b: seq<Argv>)
    requires Named(a) && Named(b) && Named(a + b)
    ensures Replay(kinds, c, a + b) == Replay(kinds, Replay(kinds, c, a), b)
    decreases |a|
  {
    hide Process;
    if a == [] {
      assert a + b == b;
    } else {
      assert (a + b)[1..] == a[1..] + b;
      ReplayConcat(kinds, Process(kinds, c, a[0]), a[1..], b);
    }
  }

  lemma OpenHead(kinds: string -> Kind, open: Option<nat>, f: Fed, q: seq<Fed>, at: nat)
    ensures OpenAfter(kinds, open, [f] + q, at) ==
            OpenAfter(kinds, NextOpen(open, KindOf(kinds, f.argv), at), q, at + 1)
  {
    assert ([f] + q)[1..] == q;
  }

  lemma SelectKnown(kinds: string -> Kind, cmds: seq<Fed>)
    requires Valid(kinds, cmds)
    ensures kinds("SELECT") == Select
  {
  }

  /** A part of a fed log that holds the first command whole. */
  lemma RawSplit(kinds: string -> Kind, selected: int, cmds: seq<Fed>, j: nat)
    requires Valid(kinds, cmds) && cmds != [] && |FeedOne(selected, cmds[0])| <= j <= |Raw(selected, cmds)|
    requires Named(Raw(selected, cmds)[..j])
    ensures Valid(kinds, cmds[1..]) && cmds[0].argv != [] && kinds(cmds[0].argv[0]) != Select
    ensures var one := FeedOne(selected, cmds[0]);
            j - |one| <= |Raw(cmds[0].db, cmds[1..])| &&
            var rest := Raw(cmds[0].db, cmds[1..])[..j - |one|];
            Raw(selected, cmds)[..j] == one + rest && Named(one) && Named(rest)
  {
    var one := FeedOne(selected, cmds[0]);
    var rest := Raw(cmds[0].db, cmds[1..])[..j - |one|];
    assert Raw(selected, cmds)[..j] == one + rest && (one + rest)[|one|..] == rest;
  }

  /** Any part of a fed log brings the client to the commands that are whole in it. */
  lemma {:induction false} RawSent(kinds: string -> Kind, selected: int, cmds: seq<Fed>, c: Client, fed: seq<Fed>,
                                   open: Option<nat>, j: nat)
    requires Valid(kinds, cmds) && j <= |Raw(selected, cmds)| && (selected == -1 || selected == View(kinds, c).db)
    requires Sent(kinds, c, fed, open) && Named(Raw(selected, cmds)[..j])
    ensures var m := FedAmong(selected, cmds, j);
            Sent(kinds, Replay(kinds, c, Raw(selected, cmds)[..j]), fed + cmds[..m],
                 OpenAfter(kinds, open, cmds[..m], |fed|))
    decreases |cmds|
  {
    hide Sent, View, Process, NextOpen, OpenAfter, Replay, Valid, Named, Raw, FeedOne;
    assert kinds("SELECT") == Select by { SelectKnown(kinds, cmds); }
    if cmds == [] || j < |FeedOne(selected, cmds[0])| {
      SentPart(kinds, selected, cmds, c, fed, open, j);
    } else {
      var f, one := cmds[0], FeedOne(selected, cmds[0]);
      RawSplit(kinds, selected, cmds, j);
      var k, m := j - |one|, FedAmong(selected, cmds, j);
      var rest := Raw(f.db, cmds[1..])[..k];
      SentFeed(kinds, selected, c, fed, open, f);
      ReplayConcat(kinds, c, one, rest);
      RawSent(kinds, f.db, cmds[1..], Replay(kinds, c, one), fed + [f], NextOpen(open, kinds(f.argv[0]), |fed|), k);
      assert cmds[..m] == [f] + cmds[1..][..m - 1];
      OpenHead(kinds, open, f, cmds[1..][..m - 1], |fed|);
      assert fed + [f] + cmds[1..][..m - 1] == fed + cmds[..m];
    }
  }

  lemma SentPart(kinds: string -> Kind, selected: int, cmds: seq<Fed>, c: Client, fed: seq<Fed>, open: Option<nat>,
                 j: nat)
    requires kinds("SELECT") == Select && Sent(kinds, c, fed, open) && j <= |Raw(selected, cmds)|
    requires cmds == [] || j < |FeedOne(selected, cmds[0])|
    ensures Named(Raw(selected, cmds)[..j]) && FedAmong(selected, cmds, j) == 0
    ensures Sent(kinds, Replay(kinds, c, Raw(selected, cmds)[..j]), fed + cmds[..0],
                 OpenAfter(kinds, open, cmds[..0], |fed|))
  {
    hide Sent, View, Process;
    assert fed + cmds[..0] == fed && cmds[..0] == [];
    if j > 0 {
      assert Raw(selected, cmds)[..j] == [SelectCommand(cmds[0].db)];
      SentSelect(kinds, c, fed, open, cmds[0].db);
      ReplayOne(kinds, c, SelectCommand(cmds[0].db));
    }
  }

  lemma {:induction false} RawGood(kinds: string -> Kind, selected: int, cmds: seq<Fed>)
    requires Valid(kinds, cmds)
    ensures Good(kinds, Raw(selected, cmds))
    decreases |cmds|
  {
    if cmds != [] {
      RawGood(kinds, cmds[0].db, cmds[1..]);
      DecFits(cmds[0].db);
      assert Feedable(SelectCommand(cmds[0].db));
    }
  }

  // ----- the loader over a log that is whole or cut

  predicate Good(kinds: string -> Kind, cmds: seq<Argv>) {
    forall i :: 0 <= i < |cmds| ==> Feedable(cmds[i]) && kinds(cmds[i][0]) != Unknown
  }

  /** Where the last MULTI of the commands starts, the commands starting at `off`. */
  function BeforeMulti(kinds: string -> Kind, cmds: seq<Argv>, off: nat, before: nat): nat
    requires Good(kinds, cmds)
    decreases |cmds|
  {
    if cmds == [] then before
    else BeforeMulti(kinds, cmds[1..], off + |Encode(cmds[0])|, if kinds(cmds[0][0]) == Multi then off else before)
  }

  lemma {:induction false} LoadPast(o: Options, cmds: seq<Argv>, x: string, off: nat, c: Client, before: nat)
    requires o.loadTruncated && Good(o.kinds, cmds)
    ensures var size := off + |EncodeAll(cmds)| + |x|;
            Load(o, EncodeAll(cmds) + x, size, c, off, before) ==
            Load(o, x, size, Replay(o.kinds, c, cmds), off + |EncodeAll(cmds)|, BeforeMulti(o.kinds, cmds, off, before))
    decreases |cmds|
  {
    hide Encode, ReadCommand, Process;
    if cmds == [] {
      assert EncodeAll(cmds) + x == x;
    } else {
      var y := EncodeAll(cmds[1..]) + x;
      assert EncodeAll(cmds) + x == Encode(cmds[0]) + y;
      CommandWhole(cmds[0], y);
      EncodeNonEmpty(cmds[0]);
      LoadPast(o, cmds[1..], x, off + |Encode(cmds[0])|, Process(o.kinds, c, cmds[0]),
               if o.kinds(cmds[0][0]) == Multi then off else before);
    }
  }

  lemma EncodeNonEmpty(a: Argv)
    ensures Encode(a) != []
  {
  }

  /** The whole commands in the first `n` bytes of a log. */
  function Whole(cmds: seq<Argv>, n: nat): (j: nat)
    ensures j <= |cmds|
  {
    if cmds == [] || n < |Encode(cmds[0])| then 0 else 1 + Whole(cmds[1..], n - |Encode(cmds[0])|)
  }

  /** A prefix of a log is its whole commands, then part of the next one. */
  lemma {:induction false} PrefixIsWholeThenPart(cmds: seq<Argv>, n: nat)
    requires n <= |EncodeAll(cmds)|
    ensures var j := Whole(cmds, n); var size := |EncodeAll(cmds[..j])|;
            size <= n && (j == |cmds| ==> size == n) && (j < |cmds| ==> n - size < |Encode(cmds[j])|) &&
            EncodeAll(cmds)[..n] == EncodeAll(cmds[..j]) + (if j < |cmds| then Encode(cmds[j])[..n - size] else [])
  {
    hide Encode;
    if cmds == [] {
    } else {
      var e := Encode(cmds[0]);
      if n < |e| {
        assert cmds[..0] == [];
        assert EncodeAll(cmds)[..n] == e[..n];
      } else {
        PrefixIsWholeThenPart(cmds[1..], n - |e|);
        var j := Whole(cmds[1..], n - |e|);
        assert cmds[..1 + j][1..] == cmds[1..][..j];
        assert EncodeAll(cmds[..1 + j]) == e + EncodeAll(cmds[1..][..j]);
        assert EncodeAll(cmds)[..n] == e + EncodeAll(cmds[1..])[..n - |e|];
      }
    }
  }

  lemma LoadCut(o: Options, cmds: seq<Argv>, n: nat)
    requires o.loadTruncated && Good(o.kinds, cmds) && n <= |EncodeAll(cmds)|
    ensures var j := Whole(cmds, n);
            var size := |EncodeAll(cmds[..j])|;
            var c := Replay(o.kinds, NEW_CLIENT, cmds[..j]);
            Load(o, EncodeAll(cmds)[..n], n, NEW_CLIENT, 0, 0) ==
            if size < n then Truncated(c, size)
            else if c.multi then Truncated(c, BeforeMulti(o.kinds, cmds[..j], 0, 0))
            else Loaded(c)
  {
    hide Encode, ReadCommand, Process, Whole, EncodeAll;
    var j := Whole(cmds, n);
    PrefixIsWholeThenPart(cmds, n);
    var size := |EncodeAll(cmds[..j])|;
    var x := if j < |cmds| then Encode(cmds[j])[..n - size] else [];
    LoadPast(o, cmds[..j], x, 0, NEW_CLIENT, 0);
    if size < n {
      CommandCut(cmds[j], n - size);
    }
  }

  // ----- the theorems

  function Log(cmds: seq<Fed>): string {
    EncodeAll(Raw(-1, cmds))
  }

  lemma {:induction false} WholeAll(cmds: seq<Argv>)
    ensures Whole(cmds, |EncodeAll(cmds)|) == |cmds|
  {
    if cmds != [] {
      WholeAll(cmds[1..]);
    }
  }

  lemma {:induction false} FedAll(selected: int, cmds: seq<Fed>)
    ensures FedAmong(selected, cmds, |Raw(selected, cmds)|) == |cmds|
    decreases |cmds|
  {
    if cmds != [] {
      FedAll(cmds[0].db, cmds[1..]);
    }
  }

  lemma StartSent(kinds: string -> Kind)
    ensures Sent(kinds, NEW_CLIENT, [], None)
  {
  }

  /** The MULTI of a transaction that some fed commands leave open. */
  function OpenIn(kinds: string -> Kind, cmds: seq<Fed>): Option<nat> {
    OpenAfter(kinds, None, cmds, 0)
  }

  /** Loading any prefix of a log never fails. Of the fed commands that are whole in it, it runs all, or, if they leave
      a transaction open, those up to its MULTI. It cuts after the last whole command, or before the last MULTI when
      the prefix ends cleanly inside a transaction. */
  lemma LoadOfPrefix(o: Options, cmds: seq<Fed>, n: nat)
    requires o.loadTruncated && Valid(o.kinds, cmds) && n <= |Log(cmds)|
    ensures var raw := Raw(-1, cmds);
            var j := Whole(raw, n);
            var whole := cmds[..FedAmong(-1, cmds, j)];
            var r := Load(o, Log(cmds)[..n], n, NEW_CLIENT, 0, 0);
            !r.Fatal? && r.c.done == Ran(whole, OpenIn(o.kinds, whole)) &&
            (r.c.multi <==> OpenIn(o.kinds, whole).Some?) &&
            (r.Loaded? <==> n == |EncodeAll(raw[..j])| && OpenIn(o.kinds, whole) == None) &&
            Good(o.kinds, raw[..j]) &&
            (r.Truncated? ==>
               r.at == if n == |EncodeAll(raw[..j])| then BeforeMulti(o.kinds, raw[..j], 0, 0)
                       else |EncodeAll(raw[..j])|)
  {
    hide Load, Raw, Process, EncodeAll, BeforeMulti, Whole, View, OpenAfter;
    var raw := Raw(-1, cmds);
    var j := Whole(raw, n);
    RawGood(o.kinds, -1, cmds);
    PrefixIsWholeThenPart(raw, n);
    LoadCut(o, raw, n);
    StartSent(o.kinds);
    RawSent(o.kinds, -1, cmds, NEW_CLIENT, [], None, j);
    assert [] + cmds[..FedAmong(-1, cmds, j)] == cmds[..FedAmong(-1, cmds, j)];
  }

  /** Loading a whole log runs what was fed, each command in its db, in order; if the log ends inside a transaction,
      only up to its MULTI. */
  lemma LoadUndoesFeed(o: Options, cmds: seq<Fed>)
    requires o.loadTruncated && Valid(o.kinds, cmds)
    ensures var r := Load(o, Log(cmds), |Log(cmds)|, NEW_CLIENT, 0, 0);
            !r.Fatal? && r.c.done == Ran(cmds, OpenIn(o.kinds, cmds)) && (r.Loaded? <==> OpenIn(o.kinds, cmds) == None)
  {
    hide Load, Raw, EncodeAll, OpenIn, Ran;
    var raw := Raw(-1, cmds);
    LoadOfPrefix(o, cmds, |Log(cmds)|);
    WholeAll(raw);
    assert raw[..|raw|] == raw;
    assert Log(cmds)[..|Log(cmds)|] == Log(cmds);
    FedAll(-1, cmds);
    assert cmds[..|cmds|] == cmds;
  }

  // ----- where a file is cut inside a transaction

  predicate HasMulti(kinds: string -> Kind, cmds: seq<Argv>)
    requires Good(kinds, cmds)
  {
    exists i :: 0 <= i < |cmds| && kinds(cmds[i][0]) == Multi
  }

  function LastMulti(kinds: string -> Kind, cmds: seq<Argv>): (i: nat)
    requires Good(kinds, cmds) && HasMulti(kinds, cmds)
    ensures i < |cmds| && kinds(cmds[i][0]) == Multi && forall k :: i < k < |cmds| ==> kinds(cmds[k][0]) != Multi
  {
    if kinds(cmds[|cmds| - 1][0]) == Multi then |cmds| - 1 else LastMulti(kinds, cmds[..|cmds| - 1])
  }

  lemma {:induction false} EncodeAllSnoc(cmds: seq<Argv>, a: Argv)
    ensures EncodeAll(cmds + [a]) == EncodeAll(cmds) + Encode(a)
  {
    hide Encode;
    if cmds == [] {
      EncodeOne(a);
      assert cmds + [a] == [a];
    } else {
      assert (cmds + [a])[1..] == cmds[1..] + [a];
      EncodeAllSnoc(cmds[1..], a);
    }
  }

  lemma {:induction false} BeforeMultiSnoc(kinds: string -> Kind, cmds: seq<Argv>, a: Argv, off: nat, before: nat)
    requires Good(kinds, cmds) && a != [] && Good(kinds, cmds + [a])
    ensures BeforeMulti(kinds, cmds + [a], off, before) ==
            if kinds(a[0]) == Multi then off + |EncodeAll(cmds)| else BeforeMulti(kinds, cmds, off, before)
    decreases |cmds|
  {
    hide Encode;
    if cmds == [] {
      assert (cmds + [a])[1..] == [];
    } else {
      assert (cmds + [a])[1..] == cmds[1..] + [a];
      BeforeMultiSnoc(kinds, cmds[1..], a, off + |Encode(cmds[0])|, if kinds(cmds[0][0]) == Multi then off else before);
    }
  }

  lemma {:induction false} ReplaySnoc(kinds: string -> Kind, c: Client, cmds: seq<Argv>, a: Argv)
    requires Named(cmds) && a != [] && Named(cmds + [a])
    ensures Replay(kinds, c, cmds + [a]) == Process(kinds, Replay(kinds, c, cmds), a)
    decreases |cmds|
  {
    hide Process;
    if cmds == [] {
      assert (cmds + [a])[1..] == [];
    } else {
      assert (cmds + [a])[1..] == cmds[1..] + [a];
      ReplaySnoc(kinds, Process(kinds, c, cmds[0]), cmds[1..], a);
    }
  }

  lemma OpenedByMulti(kinds: string -> Kind, c: Client, a: Argv)
    requires a != [] && Process(kinds, c, a).multi && kinds(a[0]) != Multi
    ensures c.multi
  {
    var c1 := RunAll(kinds, c, c.queue).(multi := kinds(a[0]) == Multi, queue := []);
    assert RunOne(kinds, c1, a).multi == c1.multi;
  }

  /** A transaction that is open at the end was opened by a MULTI, and the cut is where the last one starts. */
  lemma {:induction false} CutIsLastMulti(kinds: string -> Kind, cmds: seq<Argv>)
    requires Good(kinds, cmds) && Replay(kinds, NEW_CLIENT, cmds).multi
    ensures HasMulti(kinds, cmds) && BeforeMulti(kinds, cmds, 0, 0) == |EncodeAll(cmds[..LastMulti(kinds, cmds)])|
    decreases |cmds|
  {
    hide Encode, Process, EncodeAll, BeforeMulti;
    assert cmds != [];
    var head, a := cmds[..|cmds| - 1], cmds[|cmds| - 1];
    assert cmds == head + [a];
    BeforeMultiSnoc(kinds, head, a, 0, 0);
    if kinds(a[0]) != Multi {
      ReplaySnoc(kinds, NEW_CLIENT, head, a);
      OpenedByMulti(kinds, Replay(kinds, NEW_CLIENT, head), a);
      CutIsLastMulti(kinds, head);
      var i := LastMulti(kinds, head);
      assert kinds(cmds[i][0]) == Multi;
      assert cmds[..i] == head[..i];
    }
  }

  /** With truncation off the loader gives the same result, but exits where it would have cut. */
  lemma {:induction false} StrictLoad(kinds: string -> Kind, f: string, size: nat, c: Client, v: nat, b: nat, v2: nat,
                                      b2: nat)
    requires |f| <= size
    ensures Load(Options(kinds, false), f, size, c, v, b) ==
            var r := Load(Options(kinds, true), f, size, c, v2, b2); if r.Truncated? then Fatal else r
    decreases |f|
  {
    hide ReadCommand, Process;
    if f != [] {
      ReadCommandConsumes(f);
      var read := ReadCommand(f);
      if read.Got? {
        var m := kinds(read.v[0]) == Multi;
        StrictLoad(kinds, read.rest, size, Process(kinds, c, read.v), v, if m then v else b, size - |read.rest|,
                   if m then v2 else b2);
      }
    }
  }
}
