/** Safety of the hand-off over every interleaving of the main thread and the workers. */
module BackendSafety {
  import opened Common
  import opened Backend

  // ----- what every step keeps, per mode

  /** The slot is idle, or holds the one live key buffer. */
  predicate SlotOk(m: Mode, x: Side, dbnum: nat) {
    match x.job.key
    case None => x.job.ret == None && x.bufs == map[] && (m == Set ==> x.job.val == None)
    case Some(p) =>
      x.bufs.Keys == {p} && 0 <= x.job.dbid < dbnum && (x.job.ret == None || x.job.ret == Some(p)) &&
      (m == Set ==> x.job.val.Some?)
  }

  predicate WorkerOk(m: Mode, x: Side) {
    match x.worker
    case Polling => true
    case Working(d, p) => x.job.key == Some(p) && x.job.ret == None && d == x.job.dbid
    case Loaded(d, p, v) => m == Set && x.job.key == Some(p) && x.job.ret == None && d == x.job.dbid &&
      x.job.val == Some(v)
    case Returned => x.job.ret.Some?
  }

  /** A byte for a result the worker has announced, and one for a handler that has not read its own yet. */
  predicate PipeOk(m: Mode, x: Side, h: Handler) {
    x.pipe == (if x.job.ret.Some? && x.worker != Returned then 1 else 0) + (if h == ReadingPipe(m) then 1 else 0)
  }

  predicate HandlerOk(m: Mode, x: Side, h: Handler) {
    match h
    case Finishing(n, d, p, v, r, _) =>
      n == m ==> x.job.ret == Some(p) && x.worker != Returned && d == x.job.dbid && v == x.job.val && r == x.job.result
    case Resuming(n, d, p, _) => n == m ==> x.job.ret == Some(p) && x.worker != Returned && d == x.job.dbid
    case _ => true
  }

  /** The mode has a candidate exactly when its slot is occupied, and the key in the slot is a candidate. */
  predicate Settled(x: Side) {
    (x.job.key.Some? <==> x.cands != map[]) &&
    (x.job.key.Some? ==>
       x.job.key.value in x.bufs && x.job.dbid >= 0 && Cand(x.job.dbid, x.bufs[x.job.key.value]) in x.cands)
  }

  predicate CandsOk(m: Mode, x: Side, h: Handler, creating: Option<Mode>, dbnum: nat) {
    (forall k :: k in x.cands ==> k.dbid < dbnum) &&
    if h.Resuming? && h.m == m then creating != Some(m)
    else if creating == Some(m) then x.job.key == None && (h != ReadingPipe(m) ==> x.cands != map[])
    else Settled(x)
  }

  predicate SideOk(m: Mode, x: Side, h: Handler, creating: Option<Mode>, dbnum: nat) {
    SlotOk(m, x, dbnum) && WorkerOk(m, x) && PipeOk(m, x, h) && HandlerOk(m, x, h) && CandsOk(m, x, h, creating, dbnum)
  }

  // ----- what every step keeps, of the clients

  predicate Waits(s: State, m: Mode, k: Cand, c: ClientId) {
    m in s.sides && k in s.sides[m].cands && c in s.sides[m].cands[k].clients
  }

  predicate InState(s: State, c: ClientId, m: Mode) {
    c in s.clients && s.clients[c] == Some(m)
  }

  /** A client on a list is in that mode, is on no other list, is there once, and is not about to be resumed. */
  ghost predicate ListsOk(s: State) {
    (forall m, k, c :: Waits(s, m, k, c) ==> InState(s, c, m) && c !in Todo(s.handler)) &&
    (forall m, k, j, c :: Waits(s, m, k, c) && Waits(s, m, j, c) ==> k == j) &&
    (forall m, k :: m in s.sides && k in s.sides[m].cands ==> NoDup(s.sides[m].cands[k].clients))
  }

  predicate TodoOk(s: State) {
    s.handler.Resuming? ==>
      NoDup(s.handler.todo) && forall c :: c in s.handler.todo && c in s.clients ==> InState(s, c, s.handler.m)
  }

  /** Nobody is forgotten: a client in a mode is on a list of that mode or about to be resumed from it. */
  ghost predicate NoneLost(s: State) {
    forall c, m :: InState(s, c, m) ==> c in Todo(s.handler) || exists k :: Waits(s, m, k, c)
  }

  function Pending(s: State, c: ClientId): nat {
    if c in s.clients && s.clients[c].Some? then 1 else 0
  }

  ghost predicate HistoryOk(s: State) {
    forall c :: s.enqueued[c] == s.resumed[c] + s.dropped[c] + Pending(s, c)
  }

  predicate MainOk(s: State) {
    Modes(s) && (s.creating.Some? ==> !s.handler.Finishing?)
  }

  predicate SidesOk(s: State) {
    forall m :: m in s.sides ==> SideOk(m, s.sides[m], s.handler, s.creating, s.dbnum)
  }

  ghost predicate Inv(s: State) {
    MainOk(s) && SidesOk(s) && ListsOk(s) && TodoOk(s) && NoneLost(s) && HistoryOk(s)
  }

  // ----- one lemma per action

  /** A step that touches one mode leaves the others as they were. */
  lemma OthersKept(s: State, t: State, m: Mode)
    requires MainOk(s) && SidesOk(s) && Modes(t) && t.dbnum == s.dbnum
    requires forall n :: n in s.sides && n != m ==> n in t.sides && t.sides[n] == s.sides[n]
    requires t.handler == s.handler ||
             ((t.handler == AtLoop || t.handler.m == m) && (s.handler == AtLoop || s.handler.m == m))
    requires t.creating == s.creating || (t.creating in {None, Some(m)} && s.creating in {None, Some(m)})
    requires SideOk(m, t.sides[m], t.handler, t.creating, t.dbnum)
    ensures SidesOk(t)
  {
    hide SlotOk, WorkerOk, PipeOk, HandlerOk, CandsOk, SideOk;
    forall n | n in t.sides
      ensures SideOk(n, t.sides[n], t.handler, t.creating, t.dbnum)
    {
      if n != m {
        OtherKept(n, s.sides[n], s.handler, s.creating, t.handler, t.creating, m, s.dbnum);
      }
    }
  }

  lemma OtherKept(n: Mode, x: Side, h: Handler, c: Option<Mode>, h1: Handler, c1: Option<Mode>, m: Mode, dbnum: nat)
    requires SideOk(n, x, h, c, dbnum) && n != m
    requires h1 == h || ((h1 == AtLoop || h1.m == m) && (h == AtLoop || h.m == m))
    requires c1 == c || (c1 in {None, Some(m)} && c in {None, Some(m)})
    ensures SideOk(n, x, h1, c1, dbnum)
  {
  }

  /** A step that leaves the lists, the client states and the resumption list alone. */
  lemma ClientsKept(s: State, t: State)
    requires ListsOk(s) && TodoOk(s) && NoneLost(s) && HistoryOk(s)
    requires t.clients == s.clients && t.enqueued == s.enqueued && t.resumed == s.resumed && t.dropped == s.dropped
    requires t.handler.Resuming? ==> s.handler.Resuming? && t.handler == s.handler
    requires s.handler.Resuming? && !t.handler.Resuming? ==> s.handler.todo == []
    requires t.sides.Keys == s.sides.Keys && forall m :: m in s.sides ==> t.sides[m].cands == s.sides[m].cands
    ensures ListsOk(t) && TodoOk(t) && NoneLost(t) && HistoryOk(t)
  {
    assert forall m, k, c :: Waits(t, m, k, c) <==> Waits(s, m, k, c);
    assert forall c, m :: InState(t, c, m) <==> InState(s, c, m);
    assert forall c :: Pending(t, c) == Pending(s, c);
  }

  lemma SideAt(s: State, m: Mode)
    requires MainOk(s) && SidesOk(s)
    ensures m in s.sides && SideOk(m, s.sides[m], s.handler, s.creating, s.dbnum)
  {
  }

  lemma TakeJobOk(m: Mode, x: Side, h: Handler, c: Option<Mode>, dbnum: nat)
    requires SideOk(m, x, h, c, dbnum)
    ensures TakeJob(x, dbnum).Some? && SideOk(m, TakeJob(x, dbnum).value, h, c, dbnum)
  {
  }

  lemma LoadValueOk(m: Mode, x: Side, h: Handler, c: Option<Mode>, dbnum: nat)
    requires SideOk(m, x, h, c, dbnum)
    ensures LoadValue(m, x).Some? && SideOk(m, LoadValue(m, x).value, h, c, dbnum)
  {
  }

  lemma ReturnJobOk(m: Mode, x: Side, h: Handler, c: Option<Mode>, dbnum: nat, val: Option<Value>, result: int)
    requires SideOk(m, x, h, c, dbnum)
    ensures var r := ReturnJob(m, x, val, result);
            (r == None <==> m == Get && x.worker.Working? && val == Some("")) &&
            (r.Some? ==> r.value.cands == x.cands && SideOk(m, r.value, h, c, dbnum))
  {
  }

  lemma AnnounceOk(m: Mode, x: Side, h: Handler, c: Option<Mode>, dbnum: nat)
    requires SideOk(m, x, h, c, dbnum)
    ensures SideOk(m, Announce(x), h, c, dbnum)
  {
  }

  lemma OnSideOk(s: State, m: Mode, x: Option<Side>)
    requires Inv(s) && m in s.sides && x.Some? && x.value.cands == s.sides[m].cands
    requires SideOk(m, x.value, s.handler, s.creating, s.dbnum)
    ensures OnSide(s, m, x).Ok? && Inv(OnSide(s, m, x).s)
  {
    hide ListsOk, TodoOk, NoneLost, HistoryOk, SidesOk, SideOk;
    var t := OnSide(s, m, x).s;
    OthersKept(s, t, m);
    ClientsKept(s, t);
  }

  /** A GET at work is answered with an empty value, which the worker asserts away. */
  predicate EmptyAnswer(s: State, a: Action) {
    a.Return? && a.m == Get && a.val == Some("") && Get in s.sides && s.sides[Get].worker.Working?
  }

  /** The worker fails an assertion on an empty answer to a GET and on nothing else. */
  lemma WorkerStepOk(s: State, m: Mode, a: Action)
    requires Inv(s) && (a.Return? ==> a.m == m)
    ensures DoWorker(s, m, a).Panic? <==> EmptyAnswer(s, a)
    ensures DoWorker(s, m, a).Ok? ==> Inv(DoWorker(s, m, a).s)
  {
    hide ListsOk, TodoOk, NoneLost, HistoryOk, SidesOk, SideOk;
    SideAt(s, m);
    var x := s.sides[m];
    match a
    case Poll(_) =>
      TakeJobOk(m, x, s.handler, s.creating, s.dbnum);
      OnSideOk(s, m, TakeJob(x, s.dbnum));
    case Load(_) =>
      LoadValueOk(m, x, s.handler, s.creating, s.dbnum);
      OnSideOk(s, m, LoadValue(m, x));
    case Return(_, val, result) =>
      ReturnJobOk(m, x, s.handler, s.creating, s.dbnum, val, result);
      if !EmptyAnswer(s, a) {
        OnSideOk(s, m, ReturnJob(m, x, val, result));
      }
    case WritePipe(_) =>
      AnnounceOk(m, x, s.handler, s.creating, s.dbnum);
      OnSideOk(s, m, Some(Announce(x)));
    case _ =>
  }

  lemma EnterOk(s: State, m: Mode)
    requires Inv(s)
    ensures DoEnter(s, m).Ok? && Inv(DoEnter(s, m).s)
  {
    hide ListsOk, TodoOk, NoneLost, HistoryOk, SidesOk;
    if m in s.sides && s.handler == AtLoop && s.creating == None && s.sides[m].pipe > 0 {
      SideAt(s, m);
      var t := DoEnter(s, m).s;
      OthersKept(s, t, m);
      ClientsKept(s, t);
    }
  }

  lemma EmptySlotOk(m: Mode, x: Side, h: Handler, c: Option<Mode>, dbnum: nat)
    requires SideOk(m, x, h, c, dbnum) && h.Resuming? && h.m == m
    ensures EmptySlot(x).Some? && EmptySlot(x).value.cands == x.cands
    ensures SideOk(m, EmptySlot(x).value, ReadingPipe(m), Some(m), dbnum)
  {
  }

  lemma ClearOk(s: State)
    requires Inv(s)
    ensures DoClear(s).Ok? && Inv(DoClear(s).s)
  {
    hide ListsOk, TodoOk, NoneLost, HistoryOk, SidesOk, SideOk, EmptySlot;
    if s.handler.Resuming? && s.creating == None && s.handler.todo == [] && s.handler.m in s.sides {
      SideAt(s, s.handler.m);
      EmptySlotOk(s.handler.m, s.sides[s.handler.m], s.handler, s.creating, s.dbnum);
      var t := DoClear(s).s;
      OthersKept(s, t, s.handler.m);
      ClientsKept(s, t);
    }
  }

  lemma ReadPipeOk(s: State)
    requires Inv(s)
    ensures DoReadPipe(s).Ok? && Inv(DoReadPipe(s).s)
  {
    hide ListsOk, TodoOk, NoneLost, HistoryOk, SidesOk;
    if s.handler.ReadingPipe? && s.creating == None && s.handler.m in s.sides {
      SideAt(s, s.handler.m);
      var t := DoReadPipe(s).s;
      OthersKept(s, t, s.handler.m);
      ClientsKept(s, t);
    }
  }

  lemma FillSlotOk(m: Mode, x: Side, h: Handler, pick: Cand, p: Ptr, dbnum: nat)
    requires SideOk(m, x, h, Some(m), dbnum) && !h.Finishing?
    ensures x.cands == map[] ==> SideOk(m, x, h, None, dbnum)
    ensures pick in x.cands ==> FillSlot(m, x, pick, p).Some? && FillSlot(m, x, pick, p).value.cands == x.cands
    ensures pick in x.cands ==> SideOk(m, FillSlot(m, x, pick, p).value, h, None, dbnum)
  {
  }

  lemma CreateJobOk(s: State, pick: Cand, p: Ptr)
    requires Inv(s)
    ensures DoCreateJob(s, pick, p).Ok? && Inv(DoCreateJob(s, pick, p).s)
  {
    hide ListsOk, TodoOk, NoneLost, HistoryOk, SidesOk, SideOk, FillSlot;
    if s.creating.Some? && s.creating.value in s.sides {
      var m := s.creating.value;
      SideAt(s, m);
      FillSlotOk(m, s.sides[m], s.handler, pick, p, s.dbnum);
      var t := DoCreateJob(s, pick, p).s;
      OthersKept(s, t, m);
      ClientsKept(s, t);
    }
  }

  // ----- a command that goes to the backend

  /** The value test that decides a SET reads argv[2]; it is the value for SET and SETNX. */
  predicate ValueIsArg2(a: Action) {
    a.Issue? && a.cmd.m == Set ==> a.cmd.arg2 == a.cmd.value
  }

  /** A SET that meets a waiting value equal to its second argument and not to the value it sets, and that no test on
      the db stops (SETEX and PSETEX, whose second argument is a ttl), or that is compared with a number. */
  predicate SetPanics(s: State, c: ClientId, cmd: Command) {
    cmd.m == Set && LookedAt(s, c, cmd) && !(cmd.nx && cmd.cand in s.db) &&
    var cands := s.sides[Set].cands;
    if cmd.cand in s.db && s.db[cmd.cand] == Number then
      cmd.cand in cands ==> cands[cmd.cand].value == cmd.arg2
    else
      cmd.cand in cands && cands[cmd.cand].value == cmd.arg2 && cmd.arg2 != cmd.value &&
      !(cmd.cand in s.db && s.db[cmd.cand] == Text(cmd.arg2))
  }

  lemma AddKeySideOk(s: State, m: Mode, x: Side, c: ClientId, cmd: Command)
    requires MainOk(s) && SideOk(m, x, s.handler, None, s.dbnum) && cmd.m == m && cmd.cand.dbid < s.dbnum
    requires s.handler.AtLoop? || s.handler.Resuming?
    requires AddKey(x, c, cmd).Some?
    ensures SideOk(m, AddKey(x, c, cmd).value, s.handler,
                   if x.job.key == None && x.job.ret == None then Some(m) else None, s.dbnum)
  {
  }

  lemma AddKeyWaits(s: State, t: State, c: ClientId, cmd: Command)
    requires cmd.m in s.sides && AddKey(s.sides[cmd.m], c, cmd).Some?
    requires t.sides == s.sides[cmd.m := AddKey(s.sides[cmd.m], c, cmd).value]
    ensures forall m, k, d :: Waits(t, m, k, d) <==>
            Waits(s, m, k, d) || (cmd.sync && m == cmd.m && k == cmd.cand && d == c)
  {
  }

  lemma IssueClientsOk(s: State, c: ClientId, cmd: Command)
    requires Inv(s) && c in s.clients && cmd.m in s.sides && s.clients[c] == None
    requires AddKey(s.sides[cmd.m], c, cmd).Some? && DoIssue(s, c, cmd).Ok? && DoIssue(s, c, cmd).s != s
    ensures ListsOk(DoIssue(s, c, cmd).s) && TodoOk(DoIssue(s, c, cmd).s)
  {
    hide SidesOk, NoneLost, HistoryOk, NeedsGet, NeedsSet, NeedsDel, AddKey;
    var t := DoIssue(s, c, cmd).s;
    AddKeyWaits(s, t, c, cmd);
    assert forall d, m :: InState(t, d, m) <==> (InState(s, d, m) || (cmd.sync && d == c && m == cmd.m));
    forall m, k | m in t.sides && k in t.sides[m].cands
      ensures NoDup(t.sides[m].cands[k].clients)
    {
      AddKeyNoDup(s, c, cmd);
    }
  }

  lemma AddKeyNoDup(s: State, c: ClientId, cmd: Command)
    requires ListsOk(s) && c in s.clients && s.clients[c] == None && cmd.m in s.sides
    requires AddKey(s.sides[cmd.m], c, cmd).Some?
    ensures forall k :: k in AddKey(s.sides[cmd.m], c, cmd).value.cands ==>
              NoDup(AddKey(s.sides[cmd.m], c, cmd).value.cands[k].clients)
  {
    assert !Waits(s, cmd.m, cmd.cand, c);
  }

  lemma IssueNoneLost(s: State, c: ClientId, cmd: Command)
    requires Inv(s) && c in s.clients && cmd.m in s.sides && s.clients[c] == None
    requires AddKey(s.sides[cmd.m], c, cmd).Some? && DoIssue(s, c, cmd).Ok? && DoIssue(s, c, cmd).s != s
    ensures NoneLost(DoIssue(s, c, cmd).s) && HistoryOk(DoIssue(s, c, cmd).s)
  {
    hide SidesOk, ListsOk, TodoOk, NeedsGet, NeedsSet, NeedsDel, AddKey;
    var t := DoIssue(s, c, cmd).s;
    AddKeyWaits(s, t, c, cmd);
    forall d, m | InState(t, d, m)
      ensures d in Todo(t.handler) || exists k :: Waits(t, m, k, d)
    {
      if d == c && cmd.sync && m == cmd.m {
        assert Waits(t, m, cmd.cand, c);
      } else {
        assert InState(s, d, m);
        if d !in Todo(s.handler) {
          var k :| Waits(s, m, k, d);
          assert Waits(t, m, k, d);
        }
      }
    }
  }

  lemma SetPanicsIff(s: State, c: ClientId, cmd: Command)
    ensures DoIssue(s, c, cmd).Panic? <==> SetPanics(s, c, cmd)
  {
  }

  lemma IssueOk(s: State, c: ClientId, cmd: Command)
    requires Inv(s)
    ensures DoIssue(s, c, cmd).Ok? ==> Inv(DoIssue(s, c, cmd).s)
  {
    hide SidesOk, ListsOk, TodoOk, NoneLost, HistoryOk, SideOk;
    var o := DoIssue(s, c, cmd);
    if o.Ok? && o != Ok(s) {
      SideAt(s, cmd.m);
      var x := s.sides[cmd.m];
      AddKeySideOk(s, cmd.m, x, c, cmd);
      OthersKept(s, o.s, cmd.m);
      IssueClientsOk(s, c, cmd);
      IssueNoneLost(s, c, cmd);
    }
  }

  // ----- a completion

  lemma FinishSideOk(m: Mode, x: Side, h: Handler, dbnum: nat)
    requires SideOk(m, x, h, None, dbnum) && h.Finishing? && h.m == m
    ensures h.key in x.bufs && h.dbid >= 0 && Cand(h.dbid, x.bufs[h.key]) in x.cands && (m == Set ==> h.val.Some?)
    ensures var left := x.cands - {Cand(h.dbid, x.bufs[h.key])};
            forall todo :: SideOk(m, x.(cands := left), Resuming(m, h.dbid, h.key, todo), None, dbnum)
  {
  }

  lemma FinishClientsOk(s: State, t: State, k: Cand)
    requires ListsOk(s) && TodoOk(s) && NoneLost(s) && HistoryOk(s) && s.handler.Finishing? && s.handler.m in s.sides
    requires k in s.sides[s.handler.m].cands
    requires var m := s.handler.m; var x := s.sides[m];
             t.sides == s.sides[m := x.(cands := x.cands - {k})] &&
             t.handler == Resuming(m, s.handler.dbid, s.handler.key, x.cands[k].clients)
    requires t.clients == s.clients && t.enqueued == s.enqueued && t.resumed == s.resumed && t.dropped == s.dropped
    ensures ListsOk(t) && TodoOk(t) && NoneLost(t) && HistoryOk(t)
  {
    var m := s.handler.m;
    assert forall n, j, c :: Waits(t, n, j, c) <==> Waits(s, n, j, c) && !(n == m && j == k);
    assert forall c, n :: InState(t, c, n) <==> InState(s, c, n);
    assert forall c :: Pending(t, c) == Pending(s, c);
    assert forall c :: c in t.handler.todo <==> Waits(s, m, k, c);
    forall c, n | InState(t, c, n)
      ensures c in Todo(t.handler) || exists j :: Waits(t, n, j, c)
    {
      var j :| Waits(s, n, j, c);
      if !(n == m && j == k) {
        assert Waits(t, n, j, c);
      }
    }
  }

  lemma FinishOk(s: State)
    requires Inv(s)
    ensures DoFinish(s).Ok? && Inv(DoFinish(s).s)
  {
    hide SidesOk, ListsOk, TodoOk, NoneLost, HistoryOk, SideOk;
    if s.handler.Finishing? && s.handler.m in s.sides {
      var m := s.handler.m;
      var x := s.sides[m];
      SideAt(s, m);
      FinishSideOk(m, x, s.handler, s.dbnum);
      var t := DoFinish(s).s;
      OthersKept(s, t, m);
      FinishClientsOk(s, t, Cand(s.handler.dbid, x.bufs[s.handler.key]));
    }
  }

  /** The next client to be resumed was freed since its list was copied. */
  predicate NextIsFreed(s: State) {
    s.handler.Resuming? && s.creating == None && s.handler.todo != [] && s.handler.todo[0] !in s.clients
  }

  lemma ResumeOk(s: State)
    requires Inv(s)
    ensures DoResume(s).Panic? <==> NextIsFreed(s)
    ensures DoResume(s).Ok? ==> Inv(DoResume(s).s)
  {
    hide SidesOk, SideOk;
    if s.handler.Resuming? && s.creating == None && s.handler.todo != [] && s.handler.todo[0] in s.clients {
      SideAt(s, s.handler.m);
      assert InState(s, s.handler.todo[0], s.handler.m);
      var t := DoResume(s).s;
      assert SidesOk(t) by {
        ResumeSideOk(s.handler.m, s.sides[s.handler.m], s.handler, t.handler, s.dbnum);
        OthersKept(s, t, s.handler.m);
      }
      ResumeClientsOk(s, t);
    }
  }

  lemma ResumeSideOk(m: Mode, x: Side, h: Handler, h1: Handler, dbnum: nat)
    requires SideOk(m, x, h, None, dbnum) && h.Resuming? && h1.Resuming? && h1 == h.(todo := h1.todo)
    ensures SideOk(m, x, h1, None, dbnum)
  {
  }

  lemma ResumeClientsOk(s: State, t: State)
    requires ListsOk(s) && TodoOk(s) && NoneLost(s) && HistoryOk(s) && s.handler.Resuming? && s.handler.todo != []
    requires t.sides == s.sides && t.handler == s.handler.(todo := s.handler.todo[1..]) && s.handler.m in s.sides
    requires s.handler.todo[0] in s.clients
    requires var c := s.handler.todo[0];
             t.clients == s.clients[c := None] && t.resumed == s.resumed + multiset{c} && t.enqueued == s.enqueued &&
             t.dropped == s.dropped
    ensures ListsOk(t) && TodoOk(t) && NoneLost(t) && HistoryOk(t)
  {
    var c := s.handler.todo[0];
    assert c in s.handler.todo;
    assert forall m, k, d :: Waits(t, m, k, d) <==> Waits(s, m, k, d);
    assert forall d, m :: InState(t, d, m) <==> InState(s, d, m) && d != c;
    assert forall d :: d in t.handler.todo <==> d in s.handler.todo && d != c;
    assert InState(s, c, s.handler.m);
  }

  // ----- clients that come and go

  lemma ReleaseSideOk(m: Mode, x: Side, h: Handler, c: ClientId, dbnum: nat)
    requires SideOk(m, x, h, None, dbnum)
    ensures SideOk(m, ReleaseFrom(x, c), h, None, dbnum)
  {
    assert ReleaseFrom(x, c).cands.Keys == x.cands.Keys;
    assert x.cands == map[] <==> x.cands.Keys == {};
  }

  predicate MayFree(s: State, c: ClientId) {
    c in s.clients && (s.handler.AtLoop? || s.handler.Resuming?) && s.creating == None
  }

  lemma FreeOk(s: State, c: ClientId)
    requires Inv(s)
    ensures DoFree(s, c).Ok? && Inv(DoFree(s, c).s)
  {
    hide SideOk, ReleaseFrom, ListsOk, TodoOk, NoneLost, HistoryOk;
    if MayFree(s, c) {
      var t := DoFree(s, c).s;
      forall m | m in t.sides
        ensures SideOk(m, t.sides[m], t.handler, t.creating, t.dbnum)
      {
        ReleaseSideOk(m, s.sides[m], s.handler, c, s.dbnum);
      }
      FreeClientsOk(s, t, c);
    }
  }

  lemma FreeWaits(s: State, t: State, c: ClientId)
    requires MayFree(s, c) && DoFree(s, c) == Ok(t)
    ensures forall m, k, d :: Waits(t, m, k, d) <==> Waits(s, m, k, d) && d != c
    ensures ListsOk(s) ==> forall m, k :: m in t.sides && k in t.sides[m].cands ==> NoDup(t.sides[m].cands[k].clients)
  {
  }

  lemma FreeClientsOk(s: State, t: State, c: ClientId)
    requires Inv(s) && MayFree(s, c) && DoFree(s, c) == Ok(t)
    ensures ListsOk(t) && TodoOk(t) && NoneLost(t) && HistoryOk(t)
  {
    hide SidesOk, SideOk, ReleaseFrom;
    FreeWaits(s, t, c);
    assert forall d, m :: InState(t, d, m) <==> InState(s, d, m) && d != c;
  }

  lemma ConnectOk(s: State, c: ClientId)
    requires Inv(s) && c !in s.clients && c !in Todo(s.handler)
    ensures Inv(s.(clients := s.clients[c := None]))
  {
    hide SideOk;
    var t := s.(clients := s.clients[c := None]);
    assert forall m, k, d :: Waits(t, m, k, d) <==> Waits(s, m, k, d);
    assert forall d, m :: InState(t, d, m) <==> InState(s, d, m);
    assert forall d :: Pending(t, d) == Pending(s, d);
  }

  // ----- whole runs

  /** What fails: a SET that meets its guard, an empty answer to a GET, or resuming a client that was freed. */
  predicate Fails(s: State, a: Action) {
    (a.Issue? && SetPanics(s, a.c, a.cmd)) || EmptyAnswer(s, a) || (a == Resume && NextIsFreed(s))
  }

  /** From a consistent state nothing else panics, and every step that does not keeps consistency. */
  lemma StepOk(s: State, a: Action)
    requires Inv(s)
    ensures Step(s, a).Panic? <==> Fails(s, a)
    ensures Step(s, a).Ok? ==> Inv(Step(s, a).s)
  {
    hide SetPanics, SidesOk, ListsOk, TodoOk, NoneLost, HistoryOk, Inv, DoWorker, DoIssue, DoCreateJob, DoEnter,
      DoFinish, DoResume, DoClear, DoReadPipe, DoFree;
    match a
    case Connect(c) => if c !in s.clients && c !in Todo(s.handler) { ConnectOk(s, c); }
    case Free(c) => FreeOk(s, c);
    case ChangeDb(db) => ChangeDbOk(s, db);
    case Issue(c, cmd) => SetPanicsIff(s, c, cmd); IssueOk(s, c, cmd);
    case CreateJob(pick, p) => CreateJobOk(s, pick, p);
    case Poll(m) => WorkerStepOk(s, m, a);
    case Load(m) => WorkerStepOk(s, m, a);
    case Return(m, _, _) => WorkerStepOk(s, m, a);
    case WritePipe(m) => WorkerStepOk(s, m, a);
    case Enter(m) => EnterOk(s, m);
    case Finish => FinishOk(s);
    case Resume => ResumeOk(s);
    case Clear => ClearOk(s);
    case ReadPipe => ReadPipeOk(s);
  }

  lemma ChangeDbOk(s: State, db: map<Cand, Stored>)
    requires Inv(s)
    ensures Inv(s.(db := db))
  {
    hide SideOk, ListsOk, TodoOk, NoneLost, HistoryOk;
    ClientsKept(s, s.(db := db));
  }

  lemma StartOk(dbnum: nat)
    ensures Inv(Start(dbnum))
  {
  }

  lemma {:induction false} RunOk(s: State, acts: seq<Action>)
    requires Inv(s)
    ensures Run(s, acts).Ok? ==> Inv(Run(s, acts).s)
    decreases |acts|
  {
    hide Inv, Step;
    if acts != [] {
      StepOk(s, acts[0]);
      if Step(s, acts[0]).Ok? {
        RunOk(Step(s, acts[0]).s, acts[1..]);
      }
    }
  }

  /** The i-th action meets a guard in the state the first i lead to. */
  predicate MeetsGuard(s: State, acts: seq<Action>, i: nat) {
    i < |acts| && Run(s, acts[..i]).Ok? && Fails(Run(s, acts[..i]).s, acts[i])
  }

  /** A run from a consistent state panics iff some action of it meets a guard. */
  lemma {:induction false} RunPanicsIff(s: State, acts: seq<Action>)
    requires Inv(s)
    ensures Run(s, acts).Panic? <==> exists i: nat :: MeetsGuard(s, acts, i)
    decreases |acts|
  {
    hide Inv, Step, Fails;
    if acts != [] {
      StepOk(s, acts[0]);
      if Step(s, acts[0]).Panic? {
        assert acts[..0] == [];
        assert MeetsGuard(s, acts, 0);
      } else {
        var t := Step(s, acts[0]).s;
        RunPanicsIff(t, acts[1..]);
        forall i: nat
          ensures MeetsGuard(s, acts, i + 1) <==> MeetsGuard(t, acts[1..], i)
        {
          GuardLater(s, acts, i);
        }
        assert acts[..0] == [] && !MeetsGuard(s, acts, 0);
        if i: nat :| MeetsGuard(s, acts, i) {
          assert i > 0;
          assert MeetsGuard(t, acts[1..], i - 1);
        }
        if i: nat :| MeetsGuard(t, acts[1..], i) {
          assert MeetsGuard(s, acts, i + 1);
        }
      }
    }
  }

  lemma GuardLater(s: State, acts: seq<Action>, i: nat)
    requires acts != [] && Step(s, acts[0]).Ok?
    ensures MeetsGuard(s, acts, i + 1) <==> MeetsGuard(Step(s, acts[0]).s, acts[1..], i)
  {
    hide Step, Fails;
    if i + 1 < |acts| {
      assert acts[..i + 1][1..] == acts[1..][..i];
    }
  }

  /** What can be checked of an action alone: a SET sets its second argument, an answer to a GET is not empty, and a
      change of the db leaves no number in it. */
  predicate Harmless(a: Action) {
    ValueIsArg2(a) && !(a.Return? && a.m == Get && a.val == Some("")) && (a.ChangeDb? ==> NoNumbers(a.db))
  }

  predicate NoNumbers(db: map<Cand, Stored>) {
    forall k :: k in db ==> db[k] != Number
  }

  /** Every client about to be resumed is still there. */
  predicate TodoLive(s: State) {
    forall c :: c in Todo(s.handler) ==> c in s.clients
  }

  /** Every action is harmless, and no client is freed while a handler resumes others. */
  predicate Careful(s: State, acts: seq<Action>)
    decreases |acts|
  {
    acts == [] ||
    (Harmless(acts[0]) && (acts[0].Free? ==> !s.handler.Resuming?) &&
     (Step(s, acts[0]).Ok? ==> Careful(Step(s, acts[0]).s, acts[1..])))
  }

  /** The copied list of a completion holds waiting clients only. */
  lemma FinishLive(s: State)
    requires Inv(s) && TodoLive(s) && DoFinish(s).Ok?
    ensures TodoLive(DoFinish(s).s)
  {
    hide SidesOk, TodoOk, NoneLost, HistoryOk;
    if s.handler.Finishing? && s.handler.m in s.sides {
      var x := s.sides[s.handler.m];
      var k := Cand(s.handler.dbid, x.bufs[s.handler.key]);
      assert forall c :: c in x.cands[k].clients ==> Waits(s, s.handler.m, k, c);
    }
  }

  lemma FinishNumbers(s: State)
    requires NoNumbers(s.db) && DoFinish(s).Ok?
    ensures NoNumbers(DoFinish(s).s.db)
  {
  }

  lemma HarmlessStep(s: State, a: Action)
    requires Inv(s) && NoNumbers(s.db) && TodoLive(s) && Harmless(a) && (a.Free? ==> !s.handler.Resuming?)
    ensures Step(s, a).Ok? && NoNumbers(Step(s, a).s.db) && TodoLive(Step(s, a).s)
  {
    hide Inv, DoFinish, Needs, AddKey, FillSlot, TakeJob, LoadValue, ReturnJob, Announce, ReleaseFrom, EmptySlot;
    StepOk(s, a);
    if a == Finish {
      FinishLive(s);
      FinishNumbers(s);
    }
  }

  lemma {:induction false} CarefulRun(s: State, acts: seq<Action>)
    requires Inv(s) && NoNumbers(s.db) && TodoLive(s) && Careful(s, acts)
    ensures Run(s, acts).Ok?
    decreases |acts|
  {
    hide Inv, Step, Harmless, NoNumbers, TodoLive;
    if acts != [] {
      StepOk(s, acts[0]);
      HarmlessStep(s, acts[0]);
      CarefulRun(Step(s, acts[0]).s, acts[1..]);
    }
  }

  /** No interleaving fails an assertion, frees a key twice, uses a freed key or client, reads a number as a string or
      waits on an empty pipe, save where an action meets a guard; no careful run does. */
  lemma NoRunPanics(dbnum: nat, acts: seq<Action>)
    ensures Run(Start(dbnum), acts).Panic? <==> exists i: nat :: MeetsGuard(Start(dbnum), acts, i)
    ensures Careful(Start(dbnum), acts) ==> Run(Start(dbnum), acts).Ok?
  {
    hide Inv, Careful;
    StartOk(dbnum);
    RunPanicsIff(Start(dbnum), acts);
    if Careful(Start(dbnum), acts) {
      CarefulRun(Start(dbnum), acts);
    }
  }

  /** Who may touch the slot: nobody, the worker, or the main thread. */
  datatype Owner = Nobody | TheWorker | TheMainThread

  function OwnerOf(x: Side): Owner {
    if x.job.key == None then Nobody else if x.job.ret == None then TheWorker else TheMainThread
  }

  /** In every reachable state: the slot holds the one live key buffer or none, a worker at work owns
      it, a handler at work owns it, and the bytes in the pipe are accounted for. */
  lemma HandOffSafety(dbnum: nat, acts: seq<Action>, m: Mode)
    requires Run(Start(dbnum), acts).Ok?
    ensures var s := Run(Start(dbnum), acts).s;
            m in s.sides &&
            var x := s.sides[m];
            (OwnerOf(x) == Nobody ==> x.bufs == map[]) &&
            (OwnerOf(x) != Nobody ==> x.bufs.Keys == {x.job.key.value}) &&
            (x.worker.Working? || x.worker.Loaded? ==> OwnerOf(x) == TheWorker && x.worker.key in x.bufs) &&
            ((s.handler.Finishing? || s.handler.Resuming?) && s.handler.m == m ==>
               OwnerOf(x) == TheMainThread && s.handler.key in x.bufs) &&
            x.pipe == (if OwnerOf(x) == TheMainThread && x.worker != Returned then 1 else 0) +
                      (if s.handler == ReadingPipe(m) then 1 else 0)
  {
    hide ListsOk, TodoOk, NoneLost, HistoryOk, SidesOk;
    StartOk(dbnum);
    RunOk(Start(dbnum), acts);
    SideAt(Run(Start(dbnum), acts).s, m);
  }

  predicate BetweenEvents(s: State) {
    s.handler == AtLoop && s.creating == None
  }

  /** Between main-thread events a mode has a candidate iff its slot is occupied, the key in the slot is
      one, and a client is in the mode iff it is on exactly one of the mode's lists. */
  lemma CoalescingAtRest(dbnum: nat, acts: seq<Action>, m: Mode, c: ClientId)
    requires Run(Start(dbnum), acts).Ok?
    ensures var s := Run(Start(dbnum), acts).s; BetweenEvents(s) ==> m in s.sides && Settled(s.sides[m])
    ensures var s := Run(Start(dbnum), acts).s; BetweenEvents(s) ==>
              (InState(s, c, m) <==> exists k :: Waits(s, m, k, c))
    ensures var s := Run(Start(dbnum), acts).s; BetweenEvents(s) ==>
              forall k, j :: Waits(s, m, k, c) && Waits(s, m, j, c) ==> k == j
  {
    hide HistoryOk, SidesOk;
    StartOk(dbnum);
    RunOk(Start(dbnum), acts);
    SideAt(Run(Start(dbnum), acts).s, m);
  }

  /** Every wait ends in one resumption, unless the client is freed first or is waiting still. */
  lemma ResumedExactlyOnce(dbnum: nat, acts: seq<Action>, c: ClientId)
    requires Run(Start(dbnum), acts).Ok?
    ensures var s := Run(Start(dbnum), acts).s; s.enqueued[c] == s.resumed[c] + s.dropped[c] + Pending(s, c)
  {
    hide ListsOk, TodoOk, NoneLost, SidesOk;
    StartOk(dbnum);
    RunOk(Start(dbnum), acts);
  }

  // ----- draining

  /** An arrival for the mode is a command that goes to its backend. */
  predicate Arrives(a: Action, m: Mode) {
    a.Issue? && a.cmd.m == m
  }

  function Completes(s: State, a: Action, m: Mode): nat {
    if a == Finish && s.handler.Finishing? && s.handler.m == m then 1 else 0
  }

  /** The completions of the mode in a run. */
  function Completions(s: State, acts: seq<Action>, m: Mode): nat
    decreases |acts|
  {
    if acts == [] || Step(s, acts[0]).Panic? then 0
    else Completes(s, acts[0], m) + Completions(Step(s, acts[0]).s, acts[1..], m)
  }

  lemma CompletionRemovesOne(s: State, m: Mode)
    requires Inv(s) && s.handler.Finishing? && s.handler.m == m
    ensures m in s.sides && DoFinish(s).Ok? && m in DoFinish(s).s.sides
    ensures |DoFinish(s).s.sides[m].cands| == |s.sides[m].cands| - 1
  {
    hide ListsOk, TodoOk, NoneLost, HistoryOk, SidesOk;
    FinishOk(s);
    SideAt(s, m);
    var x := s.sides[m];
    FinishSideOk(m, x, s.handler, s.dbnum);
    var k := Cand(s.handler.dbid, x.bufs[s.handler.key]);
    assert (x.cands - {k}).Keys == x.cands.Keys - {k};
    MapSize(x.cands - {k});
    MapSize(x.cands);
  }

  lemma MapSize(w: map<Cand, Entry>)
    ensures |w| == |w.Keys|
  {
  }

  lemma WorkerCands(s: State, n: Mode, a: Action, m: Mode)
    requires m in s.sides && DoWorker(s, n, a).Ok?
    ensures m in DoWorker(s, n, a).s.sides && DoWorker(s, n, a).s.sides[m].cands == s.sides[m].cands
  {
  }

  lemma CreateJobCands(s: State, pick: Cand, p: Ptr, m: Mode)
    requires m in s.sides && DoCreateJob(s, pick, p).Ok?
    ensures m in DoCreateJob(s, pick, p).s.sides && DoCreateJob(s, pick, p).s.sides[m].cands == s.sides[m].cands
  {
  }

  lemma IssueCands(s: State, c: ClientId, cmd: Command, m: Mode)
    requires m in s.sides && cmd.m != m && DoIssue(s, c, cmd).Ok?
    ensures m in DoIssue(s, c, cmd).s.sides && DoIssue(s, c, cmd).s.sides[m] == s.sides[m]
  {
    hide Needs, AddKey;
  }

  lemma HandlerCands(s: State, a: Action, m: Mode)
    requires m in s.sides && a in {Resume, Clear, ReadPipe} && Step(s, a).Ok?
    ensures m in Step(s, a).s.sides && Step(s, a).s.sides[m].cands == s.sides[m].cands
  {
    hide DoIssue, DoCreateJob, DoWorker, DoFree, DoFinish, DoEnter;
  }

  lemma FinishCands(s: State, m: Mode)
    requires m in s.sides && DoFinish(s).Ok? && !(s.handler.Finishing? && s.handler.m == m)
    ensures m in DoFinish(s).s.sides && DoFinish(s).s.sides[m] == s.sides[m]
  {
  }

  lemma StepCands(s: State, a: Action, m: Mode)
    requires Inv(s) && Step(s, a).Ok? && !Arrives(a, m)
    ensures m in s.sides && m in Step(s, a).s.sides
    ensures |Step(s, a).s.sides[m].cands| + Completes(s, a, m) == |s.sides[m].cands|
  {
    hide Inv, DoWorker, DoIssue, DoCreateJob, DoFinish, DoResume, DoClear, DoReadPipe, DoFree;
    StepOk(s, a);
    HasMode(s, m);
    match a
    case Free(c) => FreeSize(s, c, m);
    case Issue(c, cmd) => IssueCands(s, c, cmd, m);
    case CreateJob(pick, p) => CreateJobCands(s, pick, p, m);
    case Poll(n) => WorkerCands(s, n, a, m);
    case Load(n) => WorkerCands(s, n, a, m);
    case Return(n, _, _) => WorkerCands(s, n, a, m);
    case WritePipe(n) => WorkerCands(s, n, a, m);
    case Finish =>
      if Completes(s, a, m) == 1 {
        CompletionRemovesOne(s, m);
      } else {
        FinishCands(s, m);
      }
    case Resume => HandlerCands(s, a, m);
    case Clear => HandlerCands(s, a, m);
    case ReadPipe => HandlerCands(s, a, m);
    case _ =>
  }

  lemma FreeSize(s: State, c: ClientId, m: Mode)
    requires Inv(s) && DoFree(s, c).Ok?
    ensures m in s.sides && m in DoFree(s, c).s.sides && |DoFree(s, c).s.sides[m].cands| == |s.sides[m].cands|
  {
    hide ListsOk, TodoOk, NoneLost, HistoryOk, SidesOk;
    var x := s.sides[m];
    assert ReleaseFrom(x, c).cands.Keys == x.cands.Keys;
    MapSize(x.cands);
    MapSize(ReleaseFrom(x, c).cands);
  }

  lemma {:induction false} RunCands(s: State, acts: seq<Action>, m: Mode)
    requires Inv(s) && Run(s, acts).Ok? && forall i :: 0 <= i < |acts| ==> !Arrives(acts[i], m)
    ensures Inv(Run(s, acts).s) && m in s.sides && m in Run(s, acts).s.sides
    ensures |Run(s, acts).s.sides[m].cands| + Completions(s, acts, m) == |s.sides[m].cands|
    decreases |acts|
  {
    hide Inv, Step, Arrives, Completes;
    if acts == [] {
      HasMode(s, m);
    } else {
      StepOk(s, acts[0]);
      StepCands(s, acts[0], m);
      RunCands(Step(s, acts[0]).s, acts[1..], m);
    }
  }

  lemma HasMode(s: State, m: Mode)
    requires Inv(s)
    ensures m in s.sides
  {
  }

  /** With no new arrivals, |candidates| completions and no fewer leave the mode idle with nobody waiting. */
  lemma DrainTakesOneCompletionPerCandidate(s: State, acts: seq<Action>, m: Mode)
    requires Inv(s) && Run(s, acts).Ok? && forall i :: 0 <= i < |acts| ==> !Arrives(acts[i], m)
    ensures m in s.sides && m in Run(s, acts).s.sides
    ensures Completions(s, acts, m) <= |s.sides[m].cands|
    ensures BetweenEvents(Run(s, acts).s) ==>
              var x := Run(s, acts).s.sides[m];
              Completions(s, acts, m) == |s.sides[m].cands| <==> OwnerOf(x) == Nobody && x.cands == map[]
    ensures BetweenEvents(Run(s, acts).s) && Completions(s, acts, m) == |s.sides[m].cands| ==>
              forall c :: !InState(Run(s, acts).s, c, m)
  {
    hide SidesOk, Step, Arrives, Completes, HistoryOk, ListsOk;
    RunCands(s, acts, m);
    var t := Run(s, acts).s;
    SideAt(t, m);
  }
}
