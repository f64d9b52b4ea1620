/** Why ElectionSafety asks for victories without stale acknowledgements: the
    counter is zeroed when an election is scheduled, the epoch is raised only
    when it starts, and acknowledgements of the previous election are accepted
    in between. Nodes 1 and 2 vote; 4 and 5 are replicas of 3; both win epoch 2. */
module ElectionCounterexample {
  import opened Common
  import opened SlotClaims
  import opened ClusterBus
  import opened Election

  ghost const VOTERS: Electorate := (e: Epoch) => {1, 2, 3}

  function Owner0(): seq<Option<NodeId>> {
    seq(CLUSTER_SLOTS, j => if 0 <= j < 3 then Some(j + 1) else None)
  }

  /** Five nodes known, all at configEpoch 0; 1, 2 and 3 are masters of one slot each. */
  ghost predicate Shape(n: Node, me: NodeId) {
    n.me == me && n.peers.Keys == {1, 2, 3, 4, 5} && n.owner == Owner0() &&
    forall p :: p in n.peers ==>
      n.peers[p].configEpoch == 0 && n.peers[p].votedTime <= 0 &&
      (p <= 3 ==> n.peers[p].master && n.peers[p].slaveof == None) &&
      (p > 3 ==> !n.peers[p].master && n.peers[p].slaveof == Some(3))
  }

  function Peer0(p: NodeId): Peer {
    Peer(0, p <= 3, if p <= 3 then None else Some(3), false, 0)
  }

  function Node0(me: NodeId): Node {
    Node(me, 0, 0, 0, 0, false, 0, map p | p in {1, 2, 3, 4, 5} :: Peer0(p), Owner0(), {})
  }

  function State0(): State {
    State(map[1 := Node0(1), 2 := Node0(2), 4 := Node0(4), 5 := Node0(5)], {}, {}, [],
          map[1 := {}, 2 := {}, 4 := {}, 5 := {}], map[1 := 0, 2 := 0, 4 := 0, 5 := 0], {})
  }

  lemma ShapeFacts(n: Node, me: NodeId)
    requires Shape(n, me) && me in {1, 2, 4, 5}
    ensures Wf(n) && 0 in SlotsOf(n, 1) && 1 in SlotsOf(n, 2) && 2 in SlotsOf(n, 3)
  {
    assert n.owner[0] == Some(1) && n.owner[1] == Some(2) && n.owner[2] == Some(3);
  }

  /** Requests and acknowledgements in this run are all published at configEpoch 0. */
  lemma HdrFacts(n: Node, me: NodeId, force: bool)
    requires Shape(n, me) && me in {1, 2, 4, 5}
    ensures Wf(n) && Published(n) in n.peers
    ensures var h := BuildHdr(n, force);
            h.sender == me && h.currentEpoch == n.currentEpoch && h.configEpoch == 0 && h.forceAck == force
  {
    ShapeFacts(n, me);
  }

  /** Hearing a header of this run only raises the current epoch. */
  lemma NoteFacts(n: Node, me: NodeId, h: Header)
    requires Shape(n, me) && h.configEpoch == 0 && h.sender in {1, 2, 4, 5}
    ensures NoteEpochs(n, h) == n.(currentEpoch := Max(n.currentEpoch, h.currentEpoch)) && Shape(NoteEpochs(n, h), me)
  {
    assert n.peers[h.sender := n.peers[h.sender]] == n.peers;
  }

  /** A voter that has not voted in the request's epoch grants it. */
  lemma VoteFacts(n: Node, me: NodeId, h: Header)
    requires Shape(n, me) && me in {1, 2} && h.sender in {4, 5} && h.configEpoch == 0 && h.forceAck
    requires h.currentEpoch > n.currentEpoch >= n.lastVoteEpoch
    ensures Wf(n)
    ensures var (n', granted) := ReceiveAuthRequest(n, h, 0, 0);
            granted && Wf(n') && Shape(n', me) && n'.currentEpoch == n'.lastVoteEpoch == h.currentEpoch
  {
    ShapeFacts(n, me);
    NoteFacts(n, me, h);
    var n1 := NoteEpochs(n, h);
    ShapeFacts(n1, me);
    assert CanVote(n1, h, 0, 0);
    ShapeFacts(ReceiveAuthRequest(n, h, 0, 0).0, me);
  }

  /** A replica cannot vote, but it learns the epoch. */
  lemma OverhearFacts(n: Node, h: Header)
    requires Shape(n, 5) && h.sender == 4 && h.configEpoch == 0
    ensures Wf(n)
    ensures var n' := n.(currentEpoch := Max(n.currentEpoch, h.currentEpoch));
            Wf(n') && Shape(n', 5) && ReceiveAuthRequest(n, h, 0, 0) == (n', false)
  {
    ShapeFacts(n, 5);
    NoteFacts(n, 5, h);
    ShapeFacts(NoteEpochs(n, h), 5);
  }

  /** A replica counts an acknowledgement that is not behind its last election. */
  lemma CountFacts(n: Node, i: NodeId, k: Header)
    requires Shape(n, i) && i in {4, 5} && k.sender in {1, 2} && k.configEpoch == 0
    requires n.currentEpoch >= k.currentEpoch >= n.authEpoch
    ensures Wf(n) && CountsAck(NoteEpochs(n, k), k)
    ensures ReceiveAck(n, k) == n.(authCount := n.authCount + 1) && Shape(ReceiveAck(n, k), i)
  {
    ShapeFacts(n, i);
    NoteFacts(n, i, k);
  }

  const LATER: Tick := Tick(20000, 0, 3, true, true, false, false, 0, 0)
  const SOON: Tick := Tick(10000, 0, 3, true, true, false, false, 0, 0)

  /** A replica long past its last election schedules, starts, and wins when it has two votes. */
  lemma FailoverFacts(n: Node, me: NodeId, t: Tick)
    requires Shape(n, me) && me in {4, 5} && t in {SOON, LATER}
    ensures n.me == me && me in n.peers
    ensures n.authTime <= t.now - 10000 ==>
              HandleSlaveFailover(n, t) == (n.(authTime := t.now, authCount := 0, authSent := false), Scheduled)
    ensures n.authTime == t.now && !n.authSent ==>
              HandleSlaveFailover(n, t) ==
                (n.(currentEpoch := n.currentEpoch + 1, authEpoch := n.currentEpoch + 1, authSent := true), Requested)
    ensures n.authTime == t.now && n.authSent && n.authCount >= 2 ==> HandleSlaveFailover(n, t).1 == Won
    ensures Wf(n) && Shape(n.(authTime := t.now, authCount := 0, authSent := false), me)
    ensures var n' := n.(currentEpoch := n.currentEpoch + 1, authEpoch := n.currentEpoch + 1, authSent := true);
            Wf(n') && Shape(n', me)
  {
    ShapeFacts(n, me);
  }

  lemma {:induction false} Extend(V: Electorate, s0: State, as_: seq<Action>, s: State, a: Action)
    requires Reaches(V, s0, as_, s) && Enabled(V, s, a)
    ensures Reaches(V, s0, as_ + [a], Apply(V, s, a))
    decreases |as_|
  {
    if as_ == [] {
      assert (as_ + [a])[1..] == [];
    } else {
      Extend(V, Apply(V, s0, as_[0]), as_[1..], s, a);
      assert (as_ + [a])[1..] == as_[1..] + [a];
    }
  }

  lemma WinFacts(n: Node, me: NodeId)
    requires Shape(n, me) && me in {4, 5} && n.authTime == LATER.now && n.authSent && n.authCount >= 2
    ensures n.me in n.peers && Wf(n) && HandleSlaveFailover(n, LATER).1 == Won
  {
    FailoverFacts(n, me, LATER);
  }

  /** A state of the run, with the actions that led to it. */
  ghost predicate At(as_: seq<Action>, s: State) {
    Reaches(VOTERS, State0(), as_, s) &&
    s.nodes.Keys == {1, 2, 4, 5} && s.backers.Keys == {1, 2, 4, 5} && s.stale.Keys == {1, 2, 4, 5} &&
    forall i :: i in s.nodes ==> Shape(s.nodes[i], i)
  }

  lemma Schedule(as_: seq<Action>, s: State, i: NodeId, t: Tick) returns (as': seq<Action>, s': State)
    requires At(as_, s) && i in {4, 5} && t in {SOON, LATER} && s.nodes[i].authTime <= t.now - 10000
    ensures At(as', s')
    ensures s' == s.(nodes := s.nodes[i := s.nodes[i].(authTime := t.now, authCount := 0, authSent := false)],
                     backers := s.backers[i := {}], stale := s.stale[i := 0])
  {
    hide Reaches, Shape, State0, Wf, HandleSlaveFailover, ReceiveAuthRequest, ReceiveAck, NoteEpochs, BuildHdr,
      Published, SlotsOf, CanVote, CountsAck;
    ShapeFacts(s.nodes[i], i);
    FailoverFacts(s.nodes[i], i, t);
    Extend(VOTERS, State0(), as_, s, Failover(i, t));
    as', s' := as_ + [Failover(i, t)], Apply(VOTERS, s, Failover(i, t));
  }

  lemma Start(as_: seq<Action>, s: State, i: NodeId, t: Tick) returns (as': seq<Action>, s': State, h: Header)
    requires At(as_, s) && i in {4, 5} && t in {SOON, LATER} && s.nodes[i].authTime == t.now && !s.nodes[i].authSent
    ensures At(as', s') && h.sender == i && h.currentEpoch == s.nodes[i].currentEpoch + 1 && h.configEpoch == 0
    ensures h.forceAck
    ensures var e := s.nodes[i].currentEpoch + 1;
            var n' := s.nodes[i].(currentEpoch := e, authEpoch := e, authSent := true);
            s' == s.(nodes := s.nodes[i := n'], sent := s.sent + {Request(h)})
  {
    hide Reaches, Shape, State0, Wf, HandleSlaveFailover, ReceiveAuthRequest, ReceiveAck, NoteEpochs, BuildHdr,
      Published, SlotsOf, CanVote, CountsAck;
    var n := s.nodes[i];
    ShapeFacts(n, i);
    FailoverFacts(n, i, t);
    var n' := n.(currentEpoch := n.currentEpoch + 1, authEpoch := n.currentEpoch + 1, authSent := true);
    HdrFacts(n', i, true);
    Extend(VOTERS, State0(), as_, s, Failover(i, t));
    as', s', h := as_ + [Failover(i, t)], Apply(VOTERS, s, Failover(i, t)), BuildHdr(n', true);
  }

  lemma Win(as_: seq<Action>, s: State, i: NodeId) returns (as': seq<Action>, s': State, n': Node)
    requires Reaches(VOTERS, State0(), as_, s) && i in {4, 5} && i in s.nodes && i in s.backers && i in s.stale
    requires Shape(s.nodes[i], i)
    requires s.nodes[i].authTime == LATER.now && s.nodes[i].authSent && s.nodes[i].authCount >= 2
    ensures Reaches(VOTERS, State0(), as', s')
    ensures s' == SetNode(s, i, n').(wins := s.wins + {WinOf(s, i)})
  {
    hide Enabled, Apply, Reaches, Shape, State0, Wf, HandleSlaveFailover, SetNode;
    WinFacts(s.nodes[i], i);
    CanWin(s, i);
    Extend(VOTERS, State0(), as_, s, Failover(i, LATER));
    as', s' := as_ + [Failover(i, LATER)], Apply(VOTERS, s, Failover(i, LATER));
    n' := HandleSlaveFailover(s.nodes[i], LATER).0;
    FailoverApplied(VOTERS, s, i, LATER);
  }

  lemma Vote(as_: seq<Action>, s: State, i: NodeId, h: Header) returns (as': seq<Action>, s': State, k: Header)
    requires At(as_, s) && i in {1, 2} && Request(h) in s.sent && h.sender in {4, 5} && h.configEpoch == 0 && h.forceAck
    requires h.currentEpoch > s.nodes[i].currentEpoch >= s.nodes[i].lastVoteEpoch
    ensures At(as', s') && k.sender == i && k.currentEpoch == h.currentEpoch && k.configEpoch == 0
    ensures s'.nodes[i].currentEpoch == s'.nodes[i].lastVoteEpoch == h.currentEpoch
    ensures s' == s.(nodes := s.nodes[i := s'.nodes[i]], acks := s.acks + {Ack(k, h.sender)},
                     grants := s.grants + [Grant(i, h.currentEpoch, h.sender)])
  {
    hide Reaches, Shape, State0, Wf, HandleSlaveFailover, ReceiveAuthRequest, ReceiveAck, NoteEpochs, BuildHdr,
      Published, SlotsOf, CanVote, CountsAck;
    ShapeFacts(s.nodes[i], i);
    VoteFacts(s.nodes[i], i, h);
    var n' := ReceiveAuthRequest(s.nodes[i], h, 0, 0).0;
    HdrFacts(n', i, false);
    Extend(VOTERS, State0(), as_, s, RecvRequest(i, h, 0, 0));
    as', s', k := as_ + [RecvRequest(i, h, 0, 0)], Apply(VOTERS, s, RecvRequest(i, h, 0, 0)), BuildHdr(n', false);
  }

  lemma Overhear(as_: seq<Action>, s: State, h: Header) returns (as': seq<Action>, s': State)
    requires At(as_, s) && Request(h) in s.sent && h.sender == 4 && h.configEpoch == 0
    ensures At(as', s')
    ensures s' == s.(nodes := s.nodes[5 := s.nodes[5].(currentEpoch := Max(s.nodes[5].currentEpoch, h.currentEpoch))])
  {
    hide Reaches, Shape, State0, Wf, HandleSlaveFailover, ReceiveAuthRequest, ReceiveAck, NoteEpochs, BuildHdr,
      Published, SlotsOf, CanVote, CountsAck;
    OverhearFacts(s.nodes[5], h);
    Extend(VOTERS, State0(), as_, s, RecvRequest(5, h, 0, 0));
    as', s' := as_ + [RecvRequest(5, h, 0, 0)], Apply(VOTERS, s, RecvRequest(5, h, 0, 0));
  }

  lemma Count(as_: seq<Action>, s: State, i: NodeId, k: Header) returns (as': seq<Action>, s': State)
    requires At(as_, s) && i in {4, 5} && Ack(k, i) in s.acks && k.sender in {1, 2} && k.configEpoch == 0
    requires s.nodes[i].currentEpoch >= k.currentEpoch >= s.nodes[i].authEpoch
    ensures At(as', s')
    ensures s' ==
            s.(nodes := s.nodes[i := s.nodes[i].(authCount := s.nodes[i].authCount + 1)], acks := s.acks - {Ack(k, i)},
               backers := if s.nodes[i].authSent then s.backers[i := s.backers[i] + {k.sender}] else s.backers,
               stale := if s.nodes[i].authSent then s.stale else s.stale[i := s.stale[i] + 1])
  {
    hide Enabled, Apply;
    hide Reaches, Shape, State0, Wf, HandleSlaveFailover, ReceiveAuthRequest, ReceiveAck, NoteEpochs, BuildHdr,
      Published, SlotsOf, CanVote, CountsAck;
    CountFacts(s.nodes[i], i, k);
    CanCount(s, i, k);
    Counted(s, i, k);
    Extend(VOTERS, State0(), as_, s, RecvAck(i, k));
    as', s' := as_ + [RecvAck(i, k)], Apply(VOTERS, s, RecvAck(i, k));
  }

  lemma CanWin(s: State, i: NodeId)
    requires i in s.nodes && i in s.backers && i in s.stale && Wf(s.nodes[i])
    requires HandleSlaveFailover(s.nodes[i], LATER).1 == Won
    ensures Enabled(VOTERS, s, Failover(i, LATER))
  {
    hide HandleSlaveFailover, Wf;
    assert |{1, 2, 3}| == 3;
  }

  lemma CanCount(s: State, i: NodeId, k: Header)
    requires i in s.nodes && i in s.backers && i in s.stale && Wf(s.nodes[i]) && Ack(k, i) in s.acks
    ensures Enabled(VOTERS, s, RecvAck(i, k))
  {
    hide Wf;
  }

  lemma Counted(s: State, i: NodeId, k: Header)
    requires Enabled(VOTERS, s, RecvAck(i, k)) && i in s.nodes && i in s.backers && i in s.stale
    requires CountsAck(NoteEpochs(s.nodes[i], k), k)
    requires ReceiveAck(s.nodes[i], k) == s.nodes[i].(authCount := s.nodes[i].authCount + 1)
    ensures Apply(VOTERS, s, RecvAck(i, k)) ==
            s.(nodes := s.nodes[i := s.nodes[i].(authCount := s.nodes[i].authCount + 1)], acks := s.acks - {Ack(k, i)},
               backers := if s.nodes[i].authSent then s.backers[i := s.backers[i] + {k.sender}] else s.backers,
               stale := if s.nodes[i].authSent then s.stale else s.stale[i := s.stale[i] + 1])
  {
    hide CountsAck, NoteEpochs, ReceiveAck, Wf;
  }

  lemma Begin() returns (as_: seq<Action>, s: State)
    ensures At(as_, s)
    ensures forall i :: i in s.nodes ==>
              s.nodes[i].currentEpoch == s.nodes[i].lastVoteEpoch == s.nodes[i].authEpoch == 0 &&
              s.nodes[i].authTime == 0
  {
    hide Node0, Shape, Init, NodeOk;
    InitFacts();
    NodeFacts(1); NodeFacts(2); NodeFacts(4); NodeFacts(5);
    as_, s := [], State0();
  }

  /** Replica 4 stands in epoch 1 and is voted for by 1 and 2, whose answers are slow. */
  lemma FirstElection() returns (as_: seq<Action>, s: State, k1: Header, k2: Header)
    ensures At(as_, s) && k1.sender == 1 && k2.sender == 2 && k1.currentEpoch == k2.currentEpoch == 1
    ensures k1.configEpoch == k2.configEpoch == 0
    ensures Ack(k1, 4) in s.acks && Ack(k2, 4) in s.acks
    ensures s.nodes[4].currentEpoch == s.nodes[4].authEpoch == 1 && s.nodes[4].authTime == 10000
    ensures s.nodes[5].currentEpoch == 1 && s.nodes[5].authTime == 0 && s.nodes[5].authEpoch == 0
    ensures forall i :: i in {1, 2} ==> s.nodes[i].currentEpoch == s.nodes[i].lastVoteEpoch == 1
  {
    hide Reaches, Shape;
    var h: Header;
    as_, s := Begin();
    as_, s := Schedule(as_, s, 4, SOON);
    as_, s, h := Start(as_, s, 4, SOON);
    as_, s, k1 := Vote(as_, s, 1, h);
    as_, s, k2 := Vote(as_, s, 2, h);
    as_, s := Overhear(as_, s, h);
  }

  /** It schedules again, and only now do the two answers arrive: it starts with two votes in hand. */
  lemma SecondElection() returns (as_: seq<Action>, s: State)
    ensures At(as_, s)
    ensures s.nodes[4].authEpoch == 2 && s.nodes[4].authTime == 20000 && s.nodes[4].authSent
    ensures s.nodes[4].authCount == 2
    ensures s.nodes[5].currentEpoch == 1 && s.nodes[5].authTime == 0 && s.nodes[5].authEpoch == 0
    ensures forall i :: i in {1, 2} ==> s.nodes[i].currentEpoch == s.nodes[i].lastVoteEpoch == 1
  {
    hide Reaches, Shape;
    var k1, k2, h: Header;
    as_, s, k1, k2 := FirstElection();
    as_, s := Schedule(as_, s, 4, LATER);
    as_, s := Count(as_, s, 4, k1);
    as_, s := Count(as_, s, 4, k2);
    as_, s, h := Start(as_, s, 4, LATER);
  }

  /** Meanwhile replica 5 stands in epoch 2 and is voted for by 1 and 2. */
  lemma ThirdVotes() returns (as_: seq<Action>, s: State, k1: Header, k2: Header)
    ensures At(as_, s) && k1.sender == 1 && k2.sender == 2 && k1.currentEpoch == k2.currentEpoch == 2
    ensures k1.configEpoch == k2.configEpoch == 0 && Ack(k1, 5) in s.acks && Ack(k2, 5) in s.acks
    ensures s.nodes[4].authEpoch == 2 && s.nodes[4].authTime == 20000 && s.nodes[4].authSent
    ensures s.nodes[4].authCount == 2
    ensures s.nodes[5].currentEpoch == s.nodes[5].authEpoch == 2 && s.nodes[5].authTime == 20000
    ensures s.nodes[5].authSent && s.nodes[5].authCount == 0
  {
    hide Reaches, Shape;
    var h: Header;
    as_, s := SecondElection();
    as_, s := Schedule(as_, s, 5, LATER);
    as_, s, h := Start(as_, s, 5, LATER);
    as_, s, k1 := Vote(as_, s, 1, h);
    as_, s, k2 := Vote(as_, s, 2, h);
  }

  /** It counts both, and is properly elected. */
  lemma ThirdElection() returns (as_: seq<Action>, s: State)
    ensures At(as_, s)
    ensures s.nodes[4].authEpoch == 2 && s.nodes[4].authTime == 20000 && s.nodes[4].authSent
    ensures s.nodes[4].authCount == 2
    ensures s.nodes[5].authEpoch == 2 && s.nodes[5].authTime == 20000 && s.nodes[5].authSent
    ensures s.nodes[5].authCount == 2
  {
    hide Reaches, Shape;
    var k1, k2: Header;
    as_, s, k1, k2 := ThirdVotes();
    as_, s := Count(as_, s, 5, k1);
    as_, s := Count(as_, s, 5, k2);
  }

  /** Two different replicas win the same epoch in a run from a proper initial state. */
  lemma TwoWinnersInOneEpoch()
    ensures Init(State0())
    ensures exists as_, s, w, w' :: Reaches(VOTERS, State0(), as_, s) && w in s.wins && w' in s.wins &&
              w.epoch == w'.epoch && w.replica != w'.replica
  {
    InitFacts();
    hide Reaches, Shape, Init;
    var as_, s := ThirdElection();
    var as1, s1, n4 := Win(as_, s, 4);
    var as2, s2, n5 := Win(as1, s1, 5);
    var w4 := Election.Win(4, 2, s.nodes[4].authCount, s.backers[4], s.stale[4]);
    var w5 := Election.Win(5, 2, s.nodes[5].authCount, s.backers[5], s.stale[5]);
    assert w4 in s2.wins && w5 in s2.wins && Reaches(VOTERS, State0(), as2, s2);
  }

  lemma InitFacts()
    ensures Init(State0()) && At([], State0())
  {
    hide Shape, NodeOk, Node0;
    NodeFacts(1); NodeFacts(2); NodeFacts(4); NodeFacts(5);
    assert State0().nodes.Keys == {1, 2, 4, 5};
  }

  lemma NodeFacts(i: NodeId)
    requires i in {1, 2, 4, 5}
    ensures Node0(i).me == i && Shape(Node0(i), i) && NodeOk(Node0(i)) && Node0(i).authCount == 0 && !Node0(i).authSent
    ensures Node0(i).currentEpoch == Node0(i).lastVoteEpoch == Node0(i).authEpoch == 0 && Node0(i).authTime == 0
  {
    assert Node0(i).peers.Keys == {1, 2, 3, 4, 5};
    ShapeFacts(Node0(i), i);
  }
}
