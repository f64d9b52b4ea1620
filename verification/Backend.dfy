/** The cache-through hand-off of src/backend.c: the main thread and one worker
    per mode share a one-slot job under a spin lock, a pipe, and a table from key
    to waiting clients. One action per lock section; a failed serverAssert, a use
    of a freed key buffer or client, a number read as a string and a read of an empty pipe
    are all `Panic`. */
module Backend {
  import opened Common

  type ClientId = nat
  type Ptr = nat
  type Key = string
  type Value = string

  datatype Mode = Get | Set | Del

  /** A candidate is a key of a db. */
  datatype Cand = Cand(dbid: nat, key: Key)

  /** What backendGetKeys, backendSetKeys and backendDelKeys hold per key; the
      value and the ttl are those of a backendSetInfo. */
  datatype Entry = Entry(value: Value, ttl: int, clients: seq<ClientId>)

  /** getJob, setJob, delJob: `val` is valFromBackend or valToBackend. */
  datatype Job = Job(dbid: int, key: Option<Ptr>, ret: Option<Ptr>, val: Option<Value>, result: int, ttl: int)

  /** What a db holds at a key: a string as text, a string encoded as a number (whose
      pointer field is that number), or something that is no string. */
  datatype Stored = Text(v: Value) | Number | NotString

  datatype Worker = Polling | Working(dbid: int, key: Ptr) | Loaded(dbid: int, key: Ptr, val: Value) | Returned

  datatype Side = Side(
    cands: map<Cand, Entry>,
    job: Job,
    worker: Worker,
    pipe: nat,                // bytes written and not read
    bufs: map<Ptr, Key>)      // key buffers allocated for the slot and not freed

  /** Where the main thread is: at the event loop, or inside a pipe handler. */
  datatype Handler =
    | AtLoop
    | Finishing(m: Mode, dbid: int, key: Ptr, val: Option<Value>, result: int, ttl: int)
    | Resuming(m: Mode, dbid: int, key: Ptr, todo: seq<ClientId>)
    | ReadingPipe(m: Mode)

  function Todo(h: Handler): seq<ClientId> {
    if h.Resuming? then h.todo else []
  }

  datatype State = State(
    dbnum: nat,
    sides: map<Mode, Side>,
    clients: map<ClientId, Option<Mode>>,  // backend_state; None is CLIENT_BACKEND_NORMAL
    db: map<Cand, Stored>,
    handler: Handler,
    creating: Option<Mode>,                // between the two lock sections of _createNewJob...
    enqueued: multiset<ClientId>,          // history: put on a waiting list
    resumed: multiset<ClientId>,           // history: resumed
    dropped: multiset<ClientId>)           // history: freed while waiting

  datatype Command = Command(m: Mode, cand: Cand, nx: bool, arg2: Value, value: Value, ttl: int, sync: bool)

  datatype Action =
    | Connect(c: ClientId)
    | Free(c: ClientId)
    | ChangeDb(db: map<Cand, Stored>)
    | Issue(c: ClientId, cmd: Command)
    | CreateJob(pick: Cand, p: Ptr)
    | Poll(m: Mode)
    | Load(m: Mode)
    | Return(m: Mode, val: Option<Value>, result: int)
    | WritePipe(m: Mode)
    | Enter(m: Mode)
    | Finish
    | Resume
    | Clear
    | ReadPipe

  datatype Outcome = Ok(s: State) | Panic

  const NO_JOB: Job := Job(-1, None, None, None, 0, 0)

  function SetSide(s: State, m: Mode, x: Side): State {
    s.(sides := s.sides[m := x])
  }

  predicate Modes(s: State) {
    Get in s.sides && Set in s.sides && Del in s.sides
  }

  // ----- which commands go to the backend

  /** _checkGetCommandForBackendState: missing in the db, and not the key whose failed lookup is being handed back. */
  predicate NeedsGet(s: State, x: Side, cmd: Command) {
    cmd.cand !in s.db &&
    !(x.job.val == None && x.job.ret.Some? && x.job.ret.value in x.bufs && x.bufs[x.job.ret.value] == cmd.cand.key)
  }

  /** _checkSetCommandForBackendState, with both of its value tests on argv[2]. */
  predicate NeedsSet(s: State, x: Side, cmd: Command) {
    !(cmd.nx && cmd.cand in s.db) &&
    !(cmd.cand in x.cands && x.cands[cmd.cand].value != cmd.arg2) &&
    !(cmd.cand in s.db && s.db[cmd.cand] == Text(cmd.arg2))
  }

  /** _isSameValueInDbForSet compares argv[2] with what a number points to. */
  predicate ReadsNumber(s: State, x: Side, cmd: Command) {
    cmd.m == Set && !(cmd.nx && cmd.cand in s.db) &&
    !(cmd.cand in x.cands && x.cands[cmd.cand].value != cmd.arg2) &&
    cmd.cand in s.db && s.db[cmd.cand] == Number
  }

  /** _checkDelCommandForBackendState */
  predicate NeedsDel(s: State, cmd: Command) {
    cmd.cand in s.db
  }

  predicate Needs(s: State, x: Side, cmd: Command) {
    match cmd.m
    case Get => NeedsGet(s, x, cmd)
    case Set => NeedsSet(s, x, cmd)
    case Del => NeedsDel(s, cmd)
  }

  // ----- the main thread outside the handlers

  /** _addKeyToBackendKeys; None is the failed assertion on the waiting value. */
  function AddKey(x: Side, c: ClientId, cmd: Command): Option<Side> {
    var e := if cmd.cand in x.cands then x.cands[cmd.cand] else Entry(cmd.value, cmd.ttl, []);
    if cmd.m == Set && e.value != cmd.value then None
    else
      Some(x.(cands := x.cands[cmd.cand := Entry(e.value, cmd.ttl, if cmd.sync then e.clients + [c] else e.clients)]))
  }

  /** A client that is not waiting issues a command where the main thread reads commands. */
  predicate LookedAt(s: State, c: ClientId, cmd: Command) {
    c in s.clients && s.clients[c] == None && cmd.m in s.sides && cmd.cand.dbid < s.dbnum &&
    s.creating == None && (s.handler.AtLoop? || s.handler.Resuming?)
  }

  /** checkNeedToBackendState up to the first lock section of _createNewJobIfHasMoreCandidates. */
  function DoIssue(s: State, c: ClientId, cmd: Command): Outcome {
    if !LookedAt(s, c, cmd) then Ok(s)
    else
      var x := s.sides[cmd.m];
      if ReadsNumber(s, x, cmd) then Panic
      else if !Needs(s, x, cmd) then Ok(s)
      else match AddKey(x, c, cmd)
        case None => Panic
        case Some(x1) =>
          var s1 := SetSide(s, cmd.m, x1);
          var s2 := if !cmd.sync then s1
                    else s1.(clients := s.clients[c := Some(cmd.m)], enqueued := s.enqueued + multiset{c});
          Ok(if x.job.key == None && x.job.ret == None then s2.(creating := Some(cmd.m)) else s2)
  }

  /** The second lock section of _createNewJobIfHasMoreCandidates; None is its failed assertion. */
  function FillSlot(m: Mode, x: Side, pick: Cand, p: Ptr): Option<Side>
    requires pick in x.cands
  {
    if !(x.job.key == None && x.job.ret == None && (m == Set ==> x.job.val == None)) then None
    else
      var e := x.cands[pick];
      var job := match m
        case Get => x.job.(key := Some(p), dbid := pick.dbid)
        case Set => x.job.(key := Some(p), dbid := pick.dbid, result := 0, val := Some(e.value), ttl := e.ttl)
        case Del => x.job.(key := Some(p), dbid := pick.dbid, result := 0);
      Some(x.(job := job, bufs := x.bufs[p := pick.key]))
  }

  /** _hasAvailableCandidate and the second lock section: any key of the first db that has one. */
  function DoCreateJob(s: State, pick: Cand, p: Ptr): Outcome {
    if !(s.creating.Some? && s.creating.value in s.sides) then Ok(s)
    else
      var m := s.creating.value;
      var x := s.sides[m];
      if x.cands == map[] then Ok(s.(creating := None))
      else if !(pick in x.cands && p !in x.bufs && forall k :: k in x.cands ==> pick.dbid <= k.dbid) then Ok(s)
      else match FillSlot(m, x, pick, p)
        case None => Panic
        case Some(x1) => Ok(SetSide(s, m, x1).(creating := None))
  }

  predicate NoDup(q: seq<ClientId>) {
    forall i, j :: 0 <= i < j < |q| ==> q[i] != q[j]
  }

  function Without(q: seq<ClientId>, c: ClientId): (r: seq<ClientId>)
    ensures forall d :: d in r <==> d in q && d != c
    ensures NoDup(q) ==> NoDup(r)
  {
    if q == [] then []
    else if q[0] == c then Without(q[1..], c)
    else
      assert NoDup(q) ==> NoDup(q[1..]) && q[0] !in q[1..];
      [q[0]] + Without(q[1..], c)
  }

  function ReleaseFrom(x: Side, c: ClientId): Side {
    x.(cands := map k | k in x.cands :: x.cands[k].(clients := Without(x.cands[k].clients, c)))
  }

  function ReleaseAll(sides: map<Mode, Side>, c: ClientId): map<Mode, Side> {
    map m | m in sides :: ReleaseFrom(sides[m], c)
  }

  /** freeClient with releaseWhenFreeClient, at the event loop or on a command (CLIENT KILL) of a resumed client; the
      copied list the handler works through still has the client. */
  function DoFree(s: State, c: ClientId): Outcome {
    if !(c in s.clients && (s.handler.AtLoop? || s.handler.Resuming?) && s.creating == None) then Ok(s)
    else
      Ok(s.(sides := ReleaseAll(s.sides, c),
            clients := s.clients - {c},
            dropped := if s.clients[c].Some? then s.dropped + multiset{c} else s.dropped))
  }

  // ----- the worker

  /** _getJobInWorkingThread and the assertion that follows it. */
  function TakeJob(x: Side, dbnum: nat): Option<Side> {
    if x.worker == Polling && x.job.ret == None && x.job.key.Some?
    then if !(0 <= x.job.dbid < dbnum) then None else Some(x.(worker := Working(x.job.dbid, x.job.key.value)))
    else Some(x)
  }

  /** SET only: fetch valToBackend under the lock. */
  function LoadValue(m: Mode, x: Side): Option<Side> {
    if !(m == Set && x.worker.Working?) then Some(x)
    else if x.job.val == None then None
    else Some(x.(worker := Loaded(x.worker.dbid, x.worker.key, x.job.val.value)))
  }

  /** The backend answered, using the key buffer, and an answer to a GET is asserted not to be
      empty; the result goes back under the lock. */
  function ReturnJob(m: Mode, x: Side, val: Option<Value>, result: int): Option<Side> {
    if !(if m == Set then x.worker.Loaded? else x.worker.Working?) then Some(x)
    else
      var k := x.worker.key;
      if k !in x.bufs || (m == Get && val == Some("")) then None
      else if !(x.job.key == Some(k) && x.job.ret == None) then None
      else
        var job := if m == Get then x.job.(ret := Some(k), val := val) else x.job.(ret := Some(k), result := result);
        Some(x.(job := job, worker := Returned))
  }

  function Announce(x: Side): Side {
    if x.worker != Returned then x else x.(pipe := x.pipe + 1, worker := Polling)
  }

  function OnSide(s: State, m: Mode, x: Option<Side>): Outcome {
    if x == None then Panic else Ok(SetSide(s, m, x.value))
  }

  /** The three lock sections and the write of _haveJobThenDoJobInWorkingThread. */
  function DoWorker(s: State, m: Mode, a: Action): Outcome {
    if m !in s.sides then Ok(s)
    else match a
      case Poll(_) => OnSide(s, m, TakeJob(s.sides[m], s.dbnum))
      case Load(_) => OnSide(s, m, LoadValue(m, s.sides[m]))
      case Return(_, val, result) => OnSide(s, m, ReturnJob(m, s.sides[m], val, result))
      case WritePipe(_) => OnSide(s, m, Some(Announce(s.sides[m])))
      case _ => Ok(s)
  }

  // ----- the pipe handlers

  function DoEnter(s: State, m: Mode): Outcome {
    if !(m in s.sides && s.handler == AtLoop && s.creating == None && s.sides[m].pipe > 0) then Ok(s)
    else
      var j := s.sides[m].job;
      if j.dbid == -1 || j.key == None || j.ret == None || j.key != j.ret then Panic
      else Ok(s.(handler := Finishing(m, j.dbid, j.ret.value, j.val, j.result, j.ttl)))
  }

  /** _clearFinishKey up to the deletion of the candidate. */
  function DoFinish(s: State): Outcome {
    if !(s.handler.Finishing? && s.handler.m in s.sides) then Ok(s)
    else
      var h := s.handler;
      var x := s.sides[h.m];
      if h.key !in x.bufs || h.dbid < 0 then Panic
      else if h.m == Set && h.result != 0 && h.val == None then Panic
      else
        var cand := Cand(h.dbid, x.bufs[h.key]);
        if cand !in x.cands then Panic
        else
          var stores := h.val.Some? && (h.m == Get || (h.m == Set && h.result != 0));
          var db := if stores then s.db[cand := Text(h.val.value)] else s.db;
          Ok(SetSide(s, h.m, x.(cands := x.cands - {cand}))
               .(db := db, handler := Resuming(h.m, h.dbid, h.key, x.cands[cand].clients)))
  }

  /** _resumeBackendClient for the next waiting client. */
  function DoResume(s: State): Outcome {
    if !(s.handler.Resuming? && s.creating == None && s.handler.todo != []) then Ok(s)
    else
      var c := s.handler.todo[0];
      if c !in s.clients || s.clients[c] == None then Panic
      else Ok(s.(clients := s.clients[c := None], resumed := s.resumed + multiset{c},
                 handler := s.handler.(todo := s.handler.todo[1..])))
  }

  /** The lock section that frees the key and empties the slot; a double free is a failure too. */
  function EmptySlot(x: Side): Option<Side> {
    if x.job.ret == None || x.job.key != x.job.ret || x.job.ret.value !in x.bufs then None
    else Some(x.(job := NO_JOB, bufs := x.bufs - {x.job.ret.value}))
  }

  function DoClear(s: State): Outcome {
    if !(s.handler.Resuming? && s.creating == None && s.handler.todo == [] && s.handler.m in s.sides) then Ok(s)
    else
      var m := s.handler.m;
      var x := s.sides[m];
      match EmptySlot(x)
      case None => Panic
      case Some(x1) => Ok(SetSide(s, m, x1).(creating := Some(m), handler := ReadingPipe(m)))
  }

  /** The last statement of a handler; reading an empty pipe would hang the server. */
  function DoReadPipe(s: State): Outcome {
    if !(s.handler.ReadingPipe? && s.creating == None && s.handler.m in s.sides) then Ok(s)
    else
      var x := s.sides[s.handler.m];
      if x.pipe == 0 then Panic
      else Ok(SetSide(s, s.handler.m, x.(pipe := x.pipe - 1)).(handler := AtLoop))
  }

  function Step(s: State, a: Action): Outcome {
    match a
    case Connect(c) => Ok(if c in s.clients || c in Todo(s.handler) then s else s.(clients := s.clients[c := None]))
    case Free(c) => DoFree(s, c)
    case ChangeDb(db) => Ok(s.(db := db))
    case Issue(c, cmd) => DoIssue(s, c, cmd)
    case CreateJob(pick, p) => DoCreateJob(s, pick, p)
    case Poll(m) => DoWorker(s, m, a)
    case Load(m) => DoWorker(s, m, a)
    case Return(m, _, _) => DoWorker(s, m, a)
    case WritePipe(m) => DoWorker(s, m, a)
    case Enter(m) => DoEnter(s, m)
    case Finish => DoFinish(s)
    case Resume => DoResume(s)
    case Clear => DoClear(s)
    case ReadPipe => DoReadPipe(s)
  }

  function Run(s: State, acts: seq<Action>): Outcome
    decreases |acts|
  {
    if acts == [] then Ok(s)
    else match Step(s, acts[0])
      case Panic => Panic
      case Ok(s1) => Run(s1, acts[1..])
  }

  const START_SIDE: Side := Side(map[], NO_JOB, Polling, 0, map[])

  function Start(dbnum: nat): State {
    State(dbnum, map[Get := START_SIDE, Set := START_SIDE, Del := START_SIDE], map[], map[], AtLoop, None,
          multiset{}, multiset{}, multiset{})
  }
}
