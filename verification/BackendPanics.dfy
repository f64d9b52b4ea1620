/** Runs that meet the guards of `Fails`, one for each: the assertions of the code do fail there. */
module BackendPanics {
  import opened Common
  import opened Backend
  import opened BackendSafety
  import opened BackendProgress

  /** One action more in front of a run that panics. */
  lemma PanicAfter(s: State, a: Action, rest: seq<Action>) returns (acts: seq<Action>)
    requires Step(s, a).Ok? && Run(Step(s, a).s, rest).Panic?
    ensures acts == [a] + rest && Run(s, acts).Panic?
  {
    hide Step;
    acts := [a] + rest;
    assert acts[1..] == rest;
  }

  lemma PanicNow(s: State, a: Action) returns (acts: seq<Action>)
    requires Step(s, a).Panic?
    ensures acts == [a] && Run(s, acts).Panic?
  {
    acts := [a];
  }

  /** SETEX k 10 10 waits, then SETEX k 10 20 arrives. */
  lemma SetexPanics()
    ensures exists acts :: Run(Start(1), acts).Panic?
  {
    hide Run;
    var k := Cand(0, "k");
    var first := Command(Set, k, false, "10", "10", 10000, true);
    var second := Command(Set, k, false, "10", "20", 10000, true);
    var s1 := Step(Start(1), Connect(1)).s;
    var s2 := Step(s1, Connect(2)).s;
    var s3 := Step(s2, Issue(1, first)).s;
    var s4 := Step(s3, CreateJob(k, 0)).s;
    var acts := PanicNow(s4, Issue(2, second));
    acts := PanicAfter(s3, CreateJob(k, 0), acts);
    acts := PanicAfter(s2, Issue(1, first), acts);
    acts := PanicAfter(s1, Connect(2), acts);
    acts := PanicAfter(Start(1), Connect(1), acts);
  }

  /** The db holds the string 10 as a number, and SET k 11 arrives. */
  lemma NumberPanics()
    ensures exists acts :: Run(Start(1), acts).Panic? && forall i :: 0 <= i < |acts| ==> ValueIsArg2(acts[i])
  {
    hide Run;
    var k := Cand(0, "k");
    var set11 := Command(Set, k, false, "11", "11", 0, true);
    var s1 := Step(Start(1), Connect(1)).s;
    var s2 := Step(s1, ChangeDb(map[k := Number])).s;
    var acts := PanicNow(s2, Issue(1, set11));
    acts := PanicAfter(s1, ChangeDb(map[k := Number]), acts);
    acts := PanicAfter(Start(1), Connect(1), acts);
  }

  /** Wherever a handler has two clients to resume, the first may have the second killed before its turn. */
  lemma KillPanics(s: State)
    requires Inv(s) && s.handler.Resuming? && s.creating == None && |s.handler.todo| >= 2
    requires s.handler.todo[0] in s.clients
    ensures Run(s, [Resume, Free(s.handler.todo[1]), Resume]).Panic?
  {
    hide SidesOk, ListsOk, NoneLost, HistoryOk, Run, ReleaseAll;
    var s1 := Step(s, Resume).s;
    var s2 := Step(s1, Free(s.handler.todo[1])).s;
    var acts := PanicNow(s2, Resume);
    acts := PanicAfter(s1, Free(s.handler.todo[1]), acts);
    acts := PanicAfter(s, Resume, acts);
    assert acts == [Resume, Free(s.handler.todo[1]), Resume];
  }

  lemma {:induction false} RunSnoc(s: State, acts: seq<Action>, i: nat, t: State)
    requires i < |acts| && Run(s, acts[..i]) == Ok(t)
    ensures Run(s, acts[..i + 1]) == Step(t, acts[i])
    decreases i
  {
    hide Step;
    if i == 0 {
      assert acts[..0] == [] && acts[..1] == [acts[0]] && [acts[0]][1..] == [];
    } else {
      assert acts[..i][1..] == acts[1..][..i - 1] && acts[..i + 1][1..] == acts[1..][..i];
      RunSnoc(Step(s, acts[0]).s, acts[1..], i - 1, t);
    }
  }

  const K: Cand := Cand(0, "k")
  const GET_K: Command := Command(Get, K, false, "", "", 0, true)

  /** Some clients wait for k, which the worker owns; the second client is there. */
  predicate Wait(s: State, waiting: seq<ClientId>) {
    s.dbnum == 1 && s.handler == AtLoop && s.creating == None && s.db == map[] && 1 in s.clients && 2 in s.clients &&
    (2 in waiting || s.clients[2] == None) && Get in s.sides &&
    s.sides[Get] == Side(map[K := Entry("", 0, waiting)], Job(0, Some(0), None, None, 0, 0), Polling, 0, map[0 := "k"])
  }

  lemma FirstAsks(s: State)
    requires s == Start(1).(clients := map[1 := None, 2 := None])
    ensures var o := Step(s, Issue(1, GET_K));
            o.Ok? && Step(o.s, CreateJob(K, 0)).Ok? && Wait(Step(o.s, CreateJob(K, 0)).s, [1])
  {
    var t := Step(s, Issue(1, GET_K)).s;
    assert [] + [1] == [1];
    assert t.sides[Get].cands == map[K := Entry("", 0, [1])];
    assert t.creating == Some(Get) && t.sides[Get].job == NO_JOB;
  }

  lemma OneAsks() returns (acts: seq<Action>, s: State)
    ensures acts == [Connect(1), Connect(2), Issue(1, GET_K), CreateJob(K, 0)]
    ensures Run(Start(1), acts) == Ok(s) && Wait(s, [1])
  {
    hide Run, DoIssue, DoCreateJob;
    acts := [Connect(1), Connect(2), Issue(1, GET_K), CreateJob(K, 0)];
    RunNone(Start(1), acts);
    var s1 := Step(Start(1), Connect(1)).s;
    RunSnoc(Start(1), acts, 0, Start(1));
    var s2 := Step(s1, Connect(2)).s;
    RunSnoc(Start(1), acts, 1, s1);
    FirstAsks(s2);
    var s3 := Step(s2, Issue(1, GET_K)).s;
    RunSnoc(Start(1), acts, 2, s2);
    s := Step(s3, CreateJob(K, 0)).s;
    RunSnoc(Start(1), acts, 3, s3);
    assert acts[..4] == acts;
  }

  /** GET k waits, the worker takes it, and the backend holds an empty value at k. */
  lemma EmptyAnswerPanics()
    ensures exists acts :: Run(Start(1), acts).Panic? && forall i :: 0 <= i < |acts| ==> ValueIsArg2(acts[i])
  {
    hide Run;
    var asked, s := OneAsks();
    var acts := PanicNow(Step(s, Poll(Get)).s, Return(Get, Some(""), 0));
    acts := PanicAfter(s, Poll(Get), acts);
    RunConcat(Start(1), asked, acts);
    assert forall i :: 0 <= i < |asked + acts| ==> ValueIsArg2((asked + acts)[i]);
  }

  lemma TwoAsk() returns (acts: seq<Action>, s: State)
    ensures acts == [Connect(1), Connect(2), Issue(1, GET_K), CreateJob(K, 0)] + [Issue(2, GET_K)]
    ensures Run(Start(1), acts) == Ok(s) && Wait(s, [1, 2])
  {
    hide Run;
    var first, s4 := OneAsks();
    acts := first + [Issue(2, GET_K)];
    s := Step(s4, Issue(2, GET_K)).s;
    assert acts[..4] == first && acts[..5] == acts && acts[4] == Issue(2, GET_K);
    RunSnoc(Start(1), acts, 4, s4);
    assert [1] + [2] == [1, 2];
    assert s.sides[Get].cands == map[K := Entry("", 0, [1, 2])];
  }

  lemma RunNone(s: State, acts: seq<Action>)
    ensures Run(s, acts[..0]) == Ok(s)
  {
  }

  lemma TwoAnswered(s: State) returns (acts: seq<Action>, t: State)
    requires Wait(s, [1, 2])
    ensures acts == [Poll(Get), Return(Get, None, 0), WritePipe(Get), Enter(Get), Finish]
    ensures Run(s, acts) == Ok(t) && t.handler == Resuming(Get, 0, 0, [1, 2]) && t.creating == None && 1 in t.clients
  {
    hide Run;
    acts := [Poll(Get), Return(Get, None, 0), WritePipe(Get), Enter(Get), Finish];
    RunNone(s, acts);
    var s1 := Step(s, Poll(Get)).s;
    RunSnoc(s, acts, 0, s);
    var s2 := Step(s1, Return(Get, None, 0)).s;
    RunSnoc(s, acts, 1, s1);
    var s3 := Step(s2, WritePipe(Get)).s;
    RunSnoc(s, acts, 2, s2);
    var s4 := Step(s3, Enter(Get)).s;
    RunSnoc(s, acts, 3, s3);
    t := Step(s4, Finish).s;
    RunSnoc(s, acts, 4, s4);
    assert acts[..5] == acts;
  }

  /** Two clients wait for k; the first, resumed, has the second killed, and the handler goes on to resume it. */
  lemma KilledClientPanics()
    ensures exists acts :: Run(Start(1), acts).Panic? && forall i :: 0 <= i < |acts| ==> Harmless(acts[i])
  {
    hide Run, Step, Inv, Wait;
    var asked, s := TwoAsk();
    var answered, t := TwoAnswered(s);
    RunConcat(Start(1), asked, answered);
    StartOk(1);
    RunOk(Start(1), asked + answered);
    KillPanics(t);
    RunConcat(Start(1), asked + answered, [Resume, Free(2), Resume]);
    var acts := asked + answered + [Resume, Free(2), Resume];
    assert forall i :: 0 <= i < |acts| ==> Harmless(acts[i]);
  }
}
