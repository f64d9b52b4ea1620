/** The hand-off never gets stuck: from every state a run reaches, steps of the two threads alone serve everybody. */
module BackendProgress {
  import opened Common
  import opened Backend
  import opened BackendSafety

  predicate NoArrivals(acts: seq<Action>) {
    forall i :: 0 <= i < |acts| ==> !acts[i].Issue?
  }

  lemma {:induction false} RunConcat(s: State, a: seq<Action>, b: seq<Action>)
    requires Run(s, a).Ok?
    ensures Run(s, a + b) == Run(Run(s, a).s, b)
    decreases |a|
  {
    hide Step;
    if a == [] {
      assert a + b == b;
    } else {
      assert (a + b)[1..] == a[1..] + b;
      RunConcat(Step(s, a[0]).s, a[1..], b);
    }
  }

  /** A step of one of the threads, then the rest. */
  lemma StepThen(s: State, a: Action, rest: seq<Action>, m: Mode)
    requires Inv(s) && !a.Issue? && Step(s, a).Ok? && NoArrivals(rest)
    ensures Inv(Step(s, a).s) && NoArrivals([a] + rest)
    ensures Run(s, [a] + rest) == Run(Step(s, a).s, rest)
    ensures Completions(s, [a] + rest, m) == Completes(s, a, m) + Completions(Step(s, a).s, rest, m)
  {
    hide Inv, Step, Completes;
    StepOk(s, a);
    assert ([a] + rest)[1..] == rest;
  }

  // ----- the main thread gets back to its event loop

  lemma {:induction false} LeastDb(cands: set<Cand>) returns (k: Cand)
    requires cands != {}
    ensures k in cands && forall j :: j in cands ==> k.dbid <= j.dbid
  {
    k :| k in cands;
    if cands != {k} {
      var rest := cands - {k};
      var j := LeastDb(rest);
      assert forall i :: i in cands ==> i == k || i in rest;
      if j.dbid < k.dbid {
        k := j;
      }
    }
  }

  lemma FreePtr(bufs: map<Ptr, Key>) returns (p: Ptr)
    ensures p !in bufs
  {
    p := AboveAll(bufs.Keys);
  }

  lemma {:induction false} AboveAll(ps: set<Ptr>) returns (p: Ptr)
    ensures forall q :: q in ps ==> q < p
  {
    p := 0;
    if ps != {} {
      var x :| x in ps;
      var y := AboveAll(ps - {x});
      assert forall q :: q in ps ==> q == x || q in ps - {x};
      p := Max(x + 1, y);
    }
  }

  function HandlerRank(h: Handler): nat {
    match h
    case AtLoop => 0
    case ReadingPipe(_) => 1
    case Resuming(_, _, _, _) => 2
    case Finishing(_, _, _, _, _, _) => 3
  }

  /** Nearer to the event loop: a shorter way through the handler, fewer clients to resume, or the new job made. */
  predicate Nearer(t: State, s: State) {
    HandlerRank(t.handler) < HandlerRank(s.handler) ||
    (t.handler == s.handler && s.creating.Some? && t.creating == None) ||
    (s.handler.Resuming? && t.handler.Resuming? && |t.handler.todo| < |s.handler.todo| && t.creating == s.creating)
  }

  /** The job a completion or a command leaves to be made. */
  lemma NextJob(s: State) returns (a: Action)
    requires Inv(s) && TodoLive(s) && s.creating.Some?
    ensures !a.Issue? && Step(s, a).Ok? && TodoLive(Step(s, a).s) && Nearer(Step(s, a).s, s)
  {
    hide SidesOk, ListsOk, TodoOk, NoneLost, HistoryOk, FillSlot;
    var m := s.creating.value;
    SideAt(s, m);
    var x := s.sides[m];
    var pick, p := Cand(0, ""), 0;
    if x.cands != map[] {
      assert x.cands.Keys != {};
      pick := LeastDb(x.cands.Keys);
      p := FreePtr(x.bufs);
    }
    a := CreateJob(pick, p);
    StepOk(s, a);
  }

  /** The next step of the main thread inside an event. */
  lemma NextOfMain(s: State) returns (a: Action)
    requires Inv(s) && TodoLive(s) && !BetweenEvents(s)
    ensures !a.Issue? && Step(s, a).Ok? && TodoLive(Step(s, a).s) && Nearer(Step(s, a).s, s)
  {
    hide SidesOk, ListsOk, TodoOk, NoneLost, HistoryOk, EmptySlot;
    if s.creating.Some? {
      a := NextJob(s);
    } else {
      SideAt(s, s.handler.m);
      a := match s.handler
        case Finishing(_, _, _, _, _, _) => Finish
        case Resuming(_, _, _, todo) => (if todo == [] then Clear else Resume)
        case _ => ReadPipe;
      StepOk(s, a);
      if a == Finish {
        FinishLive(s);
      }
    }
  }

  lemma {:induction false} Settle(s: State) returns (acts: seq<Action>)
    requires Inv(s) && TodoLive(s)
    ensures NoArrivals(acts) && Run(s, acts).Ok? && Inv(Run(s, acts).s) && BetweenEvents(Run(s, acts).s)
    decreases HandlerRank(s.handler), |Todo(s.handler)|, s.creating.Some?
  {
    hide Inv, Step, TodoLive;
    acts := [];
    if !BetweenEvents(s) {
      var a := NextOfMain(s);
      StepOk(s, a);
      var rest := Settle(Step(s, a).s);
      StepThen(s, a, rest, Get);
      acts := [a] + rest;
    }
  }

  // ----- the worker gets its job done

  function WorkRank(x: Side): nat {
    if x.worker == Polling && x.job.ret == None then 5
    else if x.worker.Working? then 4
    else if x.worker.Loaded? then 3
    else if x.worker == Returned then 2
    else 1
  }

  lemma NextOfWorker(s: State, m: Mode) returns (a: Action)
    requires Inv(s) && BetweenEvents(s) && m in s.sides && s.sides[m].cands != map[] && WorkRank(s.sides[m]) > 1
    ensures !a.Issue? && Step(s, a).Ok? && BetweenEvents(Step(s, a).s) && m in Step(s, a).s.sides
    ensures Step(s, a).s.sides[m].cands == s.sides[m].cands && WorkRank(Step(s, a).s.sides[m]) < WorkRank(s.sides[m])
    ensures Completes(s, a, m) == 0
  {
    hide SidesOk, ListsOk, TodoOk, NoneLost, HistoryOk;
    SideAt(s, m);
    a := match s.sides[m].worker
      case Polling => Poll(m)
      case Working(_, _) => (if m == Set then Load(m) else Return(m, None, 0))
      case Loaded(_, _, _) => Return(m, None, 0)
      case Returned => WritePipe(m);
    StepOk(s, a);
  }

  /** A mode with candidates can complete one. */
  lemma {:induction false} CanComplete(s: State, m: Mode) returns (acts: seq<Action>)
    requires Inv(s) && BetweenEvents(s) && m in s.sides && s.sides[m].cands != map[]
    ensures NoArrivals(acts) && Run(s, acts).Ok? && Inv(Run(s, acts).s) && TodoLive(Run(s, acts).s)
    ensures Completions(s, acts, m) == 1
    decreases WorkRank(s.sides[m])
  {
    hide Inv, Step, Completes, TodoLive;
    if WorkRank(s.sides[m]) > 1 {
      var a := NextOfWorker(s, m);
      StepOk(s, a);
      var rest := CanComplete(Step(s, a).s, m);
      StepThen(s, a, rest, m);
      acts := [a] + rest;
    } else {
      HandlerCompletes(s, m);
      acts := [Enter(m)] + [Finish];
      var t := Step(s, Enter(m)).s;
      StepThen(s, Enter(m), [Finish], m);
      StepOk(t, Finish);
      StepThen(t, Finish, [], m);
      assert [Finish] + [] == [Finish];
    }
  }

  lemma HandlerCompletes(s: State, m: Mode)
    requires Inv(s) && BetweenEvents(s) && m in s.sides && s.sides[m].cands != map[] && WorkRank(s.sides[m]) == 1
    ensures Completes(s, Enter(m), m) == 0 && Step(s, Enter(m)).Ok? && Completes(Step(s, Enter(m)).s, Finish, m) == 1
    ensures var t := Step(s, Enter(m)).s; Step(t, Finish).Ok? && TodoLive(Step(t, Finish).s)
  {
    hide SidesOk, ListsOk, TodoOk, NoneLost, HistoryOk;
    SideAt(s, m);
    StepOk(s, Enter(m));
    StepOk(Step(s, Enter(m)).s, Finish);
    FinishLive(Step(s, Enter(m)).s);
  }

  /** From every consistent state the threads alone can bring a mode to rest, with nobody waiting. */
  lemma {:induction false} CanDrain(s: State, m: Mode) returns (acts: seq<Action>)
    requires Inv(s) && TodoLive(s) && m in s.sides
    ensures NoArrivals(acts) && Run(s, acts).Ok? && BetweenEvents(Run(s, acts).s)
    ensures m in Run(s, acts).s.sides && Run(s, acts).s.sides[m].cands == map[]
    ensures forall c :: !InState(Run(s, acts).s, c, m)
    decreases |s.sides[m].cands|
  {
    hide Inv, Step, TodoLive;
    var first := Settle(s);
    NotArriving(first, m);
    RunCands(s, first, m);
    var t := Run(s, first).s;
    if t.sides[m].cands == map[] {
      acts := first;
      NobodyWaits(t, m);
    } else {
      var next := CanComplete(t, m);
      NotArriving(next, m);
      RunCands(t, next, m);
      var rest := CanDrain(Run(t, next).s, m);
      RunConcat(s, first, next);
      RunConcat(s, first + next, rest);
      acts := first + next + rest;
    }
  }

  lemma NotArriving(acts: seq<Action>, m: Mode)
    requires NoArrivals(acts)
    ensures forall i :: 0 <= i < |acts| ==> !Arrives(acts[i], m)
  {
  }

  lemma NobodyWaits(s: State, m: Mode)
    requires Inv(s) && BetweenEvents(s) && m in s.sides && s.sides[m].cands == map[]
    ensures forall c :: !InState(s, c, m)
  {
    hide SidesOk, HistoryOk, ListsOk;
  }

  /** A handler that has a freed client to resume never gets back to the event loop. */
  lemma {:induction false} NeverSettles(s: State, acts: seq<Action>)
    requires Inv(s) && !TodoLive(s) && Run(s, acts).Ok?
    ensures !BetweenEvents(Run(s, acts).s)
    decreases |acts|
  {
    hide Inv, Step;
    if acts != [] {
      StepOk(s, acts[0]);
      StillFreed(s, acts[0]);
      NeverSettles(Step(s, acts[0]).s, acts[1..]);
    }
  }

  lemma StillFreed(s: State, a: Action)
    requires Inv(s) && !TodoLive(s) && Step(s, a).Ok?
    ensures !TodoLive(Step(s, a).s)
  {
    hide Inv, Needs, ReadsNumber, AddKey, FillSlot, TakeJob, LoadValue, ReturnJob, Announce, ReleaseAll, EmptySlot;
    var c :| c in Todo(s.handler) && c !in s.clients;
    assert c in Todo(Step(s, a).s.handler) && c !in Step(s, a).s.clients;
  }

  /** Whatever has happened, whoever waits can be resumed, iff no handler has a client to resume that was freed. */
  lemma NoRunGetsStuck(dbnum: nat, acts: seq<Action>, m: Mode)
    requires Run(Start(dbnum), acts).Ok?
    ensures TodoLive(Run(Start(dbnum), acts).s) <==> exists more :: ServesAll(Start(dbnum), acts, more, m)
  {
    hide Inv, Run, TodoLive;
    StartOk(dbnum);
    RunOk(Start(dbnum), acts);
    var s := Run(Start(dbnum), acts).s;
    HasMode(s, m);
    if TodoLive(s) {
      var more := CanDrain(s, m);
      RunConcat(Start(dbnum), acts, more);
      assert ServesAll(Start(dbnum), acts, more, m);
    } else {
      forall more
        ensures !ServesAll(Start(dbnum), acts, more, m)
      {
        RunConcat(Start(dbnum), acts, more);
        if Run(s, more).Ok? {
          NeverSettles(s, more);
        }
      }
    }
  }

  /** Steps of the threads alone take a run on to where nobody waits in the mode. */
  ghost predicate ServesAll(s: State, acts: seq<Action>, more: seq<Action>, m: Mode) {
    NoArrivals(more) && Run(s, acts + more).Ok? && BetweenEvents(Run(s, acts + more).s) &&
    forall c :: !InState(Run(s, acts + more).s, c, m)
  }
}
