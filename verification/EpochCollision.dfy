/** Config-epoch collisions (src/cluster.c: clusterHandleConfigEpochCollision).
    A set of masters that agree on the slots exchange pings and pongs, possibly
    old ones and possibly repeated; whoever hears its own configEpoch from a
    master of greater ID takes a new one. */
module EpochCollision {
  import opened Common
  import opened SlotClaims
  import opened ClusterBus

  datatype State = State(
    nodes: map<NodeId, Node>,
    sent: set<Header>,
    held: map<NodeId, set<Epoch>>,  // history: every configEpoch the node has had
    left: map<NodeId, set<Epoch>>)  // history: every configEpoch it gave up in a collision

  datatype Action = Send(i: NodeId) | Recv(i: NodeId, h: Header)

  function ConfigEpoch(s: State, i: NodeId): Epoch {
    if i in s.nodes && i in s.nodes[i].peers then s.nodes[i].peers[i].configEpoch else 0
  }

  ghost predicate Enabled(s: State, a: Action) {
    a.i in s.nodes && a.i in s.held && a.i in s.left && Wf(s.nodes[a.i]) && s.nodes[a.i].me == a.i &&
    (a.Recv? ==> a.h in s.sent && a.h.sender != a.i && a.i in ReceivePing(s.nodes[a.i], a.h).peers)
  }

  ghost function Apply(s: State, a: Action): State
    requires Enabled(s, a)
  {
    var n := s.nodes[a.i];
    match a
    case Send(i) => s.(sent := s.sent + {BuildHdr(n, false)})
    case Recv(i, h) =>
      var n' := ReceivePing(n, h);
      var e, e' := n.peers[i].configEpoch, n'.peers[i].configEpoch;
      s.(nodes := s.nodes[i := n'],
         held := s.held[i := s.held[i] + {e'}],
         left := if e' == e then s.left else s.left[i := s.left[i] + {e}])
  }

  ghost predicate Reaches(s: State, as_: seq<Action>, s': State)
    decreases |as_|
  {
    if as_ == [] then s == s'
    else Enabled(s, as_[0]) && Reaches(Apply(s, as_[0]), as_[1..], s')
  }

  /** How many times node `i` has changed its configEpoch. */
  ghost function Bumps(s: State, i: NodeId): nat
    requires i in s.left
  {
    |s.left[i]|
  }

  /** A node of the group `M`: it knows exactly `M`, all masters, and the agreed table. */
  ghost predicate Member(n: Node, i: NodeId, M: set<NodeId>, owner: seq<Option<NodeId>>) {
    NodeOk(n) && n.me == i && n.peers.Keys == M && n.owner == owner &&
    forall p :: p in M ==> n.peers[p].master && n.peers[p].slaveof == None
  }

  ghost predicate HdrFits(h: Header, M: set<NodeId>, owner: seq<Option<NodeId>>) {
    HdrOk(h) && h.sender in M && h.slaveof == None && h.slots == OwnedBy(View(owner, map[]), h.sender)
  }

  ghost predicate MembersOk(s: State, M: set<NodeId>, owner: seq<Option<NodeId>>) {
    s.nodes.Keys == M && s.held.Keys == M && s.left.Keys == M &&
    forall i :: i in s.nodes ==> Member(s.nodes[i], i, M, owner)
  }

  /** Nobody is ahead of a master in knowing its configEpoch. */
  ghost predicate KnowledgeOk(s: State) {
    forall i, j :: i in s.nodes && j in s.nodes[i].peers ==> s.nodes[i].peers[j].configEpoch <= ConfigEpoch(s, j)
  }

  ghost predicate Init(s: State, M: set<NodeId>, owner: seq<Option<NodeId>>) {
    MembersOk(s, M, owner) && KnowledgeOk(s) && s.sent == {} &&
    forall i :: i in s.held && i in s.left ==> s.left[i] == {} && s.held[i] == {ConfigEpoch(s, i)}
  }

  /** The masters with a greater ID. */
  ghost function Greater(M: set<NodeId>, i: NodeId): set<NodeId> {
    set j | j in M && j > i
  }

  /** Every configEpoch ever held by a master in `S`. */
  ghost function HeldBy(held: map<NodeId, set<Epoch>>, S: set<NodeId>): set<Epoch> {
    set j, e | j in S && j in held && e in held[j] :: e
  }

  /** Each new epoch is above all earlier ones, so epochs held and epochs left pair up. */
  ghost predicate HistoryOk(held: set<Epoch>, left: set<Epoch>, e: Epoch) {
    e in held && (forall x :: x in held ==> x <= e) && (forall x :: x in left ==> x < e) && |held| == 1 + |left|
  }

  ghost predicate HistoriesOk(s: State) {
    forall i :: i in s.held && i in s.left ==> HistoryOk(s.held[i], s.left[i], ConfigEpoch(s, i))
  }

  /** An epoch is only given up to a master of greater ID that held it. */
  ghost predicate LeftOk(s: State, M: set<NodeId>) {
    forall i :: i in s.left ==> s.left[i] <= HeldBy(s.held, Greater(M, i))
  }

  ghost predicate SentOk(s: State, M: set<NodeId>, owner: seq<Option<NodeId>>) {
    forall h :: h in s.sent ==> HdrFits(h, M, owner) && h.sender in s.held && h.configEpoch in s.held[h.sender]
  }

  ghost predicate Inv(s: State, M: set<NodeId>, owner: seq<Option<NodeId>>) {
    MembersOk(s, M, owner) && KnowledgeOk(s) && HistoriesOk(s) && LeftOk(s, M) && SentOk(s, M, owner)
  }

  /** Among masters that agree on the slots a ping only carries epochs. */
  lemma PingBetweenMembers(n: Node, i: NodeId, h: Header, M: set<NodeId>, owner: seq<Option<NodeId>>)
    requires Member(n, i, M, owner) && HdrFits(h, M, owner) && h.sender != i && i in M
    ensures var n1 := NoteEpochs(n, h);
            ReceivePing(n, h) ==
              if h.configEpoch == n.peers[i].configEpoch && n.peers[h.sender].configEpoch <= h.configEpoch &&
                 h.sender > i
              then TakeNewEpoch(n1) else n1
    ensures Member(ReceivePing(n, h), i, M, owner)
  {
    var n1 := NoteEpochs(n, h);
    NoteEpochsOk(n, h);
    assert n1.peers[h.sender].master;
    assert NoteRole(n1, h) == n1;
    assert SlotsOf(n1, h.sender) == h.slots;
    assert NotePing(n, h) == n1;
    assert n1.peers[i].configEpoch == n.peers[i].configEpoch;
    FreshEpochExceedsAll(n1, i);
  }

  lemma At(s: State, i: NodeId, M: set<NodeId>, owner: seq<Option<NodeId>>)
    requires Inv(s, M, owner) && i in M
    ensures i in s.nodes && i in s.held && i in s.left && Member(s.nodes[i], i, M, owner)
    ensures i in s.nodes[i].peers && ConfigEpoch(s, i) == s.nodes[i].peers[i].configEpoch
    ensures HistoryOk(s.held[i], s.left[i], ConfigEpoch(s, i))
  {
    hide HistoryOk, LeftOk, SentOk, KnowledgeOk;
  }

  lemma SendKeepsInv(s: State, i: NodeId, M: set<NodeId>, owner: seq<Option<NodeId>>)
    requires Inv(s, M, owner) && Enabled(s, Send(i))
    ensures Inv(Apply(s, Send(i)), M, owner)
  {
    hide Member, BuildHdr, HdrFits, LeftOk, Wf;
    At(s, i, M, owner);
    MemberHdr(s.nodes[i], i, M, owner);
    var s' := Apply(s, Send(i));
    assert s'.nodes == s.nodes && s'.held == s.held && s'.left == s.left;
    assert s'.sent == s.sent + {BuildHdr(s.nodes[i], false)};
    assert forall j :: ConfigEpoch(s', j) == ConfigEpoch(s, j);
    LeftSame(s, s', M);
  }

  lemma LeftSame(s: State, s': State, M: set<NodeId>)
    requires LeftOk(s, M) && s'.held == s.held && s'.left == s.left
    ensures LeftOk(s', M)
  {
  }

  lemma MemberHdr(n: Node, i: NodeId, M: set<NodeId>, owner: seq<Option<NodeId>>)
    requires Member(n, i, M, owner) && i in M
    ensures i in n.peers && Published(n) == i && HdrFits(BuildHdr(n, false), M, owner)
    ensures BuildHdr(n, false).configEpoch == n.peers[i].configEpoch && BuildHdr(n, false).sender == i
  {
    BuildHdrOk(n, false);
    assert SlotsOf(n, i) == OwnedBy(View(owner, map[]), i);
  }

  /** Receiving, node by node: others' epochs are noted, the own one moves only up,
      and only on hearing it from a master of greater ID. */
  lemma RecvNode(n: Node, i: NodeId, h: Header, M: set<NodeId>, owner: seq<Option<NodeId>>)
    requires Member(n, i, M, owner) && HdrFits(h, M, owner) && h.sender != i && i in M
    ensures var n' := ReceivePing(n, h);
            Member(n', i, M, owner) && n'.peers.Keys == n.peers.Keys == M &&
            (forall p :: p in M && p != i ==>
               n'.peers[p].configEpoch ==
               if p == h.sender then Max(n.peers[p].configEpoch, h.configEpoch) else n.peers[p].configEpoch) &&
            n.peers[i].configEpoch <= n'.peers[i].configEpoch &&
            (n'.peers[i].configEpoch != n.peers[i].configEpoch <==>
               h.configEpoch == n.peers[i].configEpoch && n.peers[h.sender].configEpoch <= h.configEpoch &&
               h.sender > i)
  {
    PingBetweenMembers(n, i, h, M, owner);
    NoteEpochsOk(n, h);
    FreshEpochExceedsAll(NoteEpochs(n, h), i);
    hide ReceivePing;
  }

  /** The state after node `i` received, with only its own entries changed. */
  ghost predicate Received(s: State, i: NodeId, h: Header, s': State) {
    i in s.nodes && i in s.held && i in s.left && i in s.nodes[i].peers && h.sender in s.held && i in s'.nodes &&
    i in s'.nodes[i].peers &&
    s'.nodes == s.nodes[i := s'.nodes[i]] && s'.sent == s.sent &&
    var e, e' := s.nodes[i].peers[i].configEpoch, s'.nodes[i].peers[i].configEpoch;
    s'.held == s.held[i := s.held[i] + {e'}] &&
    if e' == e then s'.left == s.left
    else e' > e && h.sender > i && e in s.held[h.sender] && s'.left == s.left[i := s.left[i] + {e}]
  }

  lemma RecvReceived(s: State, i: NodeId, h: Header, M: set<NodeId>, owner: seq<Option<NodeId>>)
    requires Enabled(s, Recv(i, h)) && i in M && i in s.nodes && Member(s.nodes[i], i, M, owner) && HdrFits(h, M, owner)
    requires i in s.held && i in s.left && h.sender in s.held && h.configEpoch in s.held[h.sender]
    ensures var s' := Apply(s, Recv(i, h));
            Received(s, i, h, s') && Member(s'.nodes[i], i, M, owner) &&
            s'.nodes[i].peers.Keys == s.nodes[i].peers.Keys &&
            forall p :: p in s'.nodes[i].peers && p != i ==> NotesOnly(s.nodes[i], p, h, s'.nodes[i])
  {
    hide ReceivePing, HdrFits, Wf;
    RecvNode(s.nodes[i], i, h, M, owner);
  }

  /** What `n'` knows of `p` is what `n` knew or what the header said. */
  predicate NotesOnly(n: Node, p: NodeId, h: Header, n': Node) {
    p in n.peers && p in n'.peers &&
    (n'.peers[p].configEpoch == n.peers[p].configEpoch || (p == h.sender && n'.peers[p].configEpoch == h.configEpoch))
  }

  lemma FitSender(h: Header, M: set<NodeId>, owner: seq<Option<NodeId>>)
    requires HdrFits(h, M, owner)
    ensures h.sender in M
  {
  }

  lemma KnowledgeKept(s: State, i: NodeId, h: Header, s': State)
    requires KnowledgeOk(s) && Received(s, i, h, s') && h.configEpoch <= ConfigEpoch(s, h.sender)
    requires forall p :: p in s'.nodes[i].peers && p != i ==> NotesOnly(s.nodes[i], p, h, s'.nodes[i])
    ensures KnowledgeOk(s')
    ensures forall j :: j != i ==> ConfigEpoch(s', j) == ConfigEpoch(s, j)
  {
    assert forall j :: ConfigEpoch(s, j) <= ConfigEpoch(s', j);
    forall k, j | k in s'.nodes && j in s'.nodes[k].peers
      ensures s'.nodes[k].peers[j].configEpoch <= ConfigEpoch(s', j)
    {
      if k != i {
        assert s'.nodes[k] == s.nodes[k];
      } else if j != i {
        assert NotesOnly(s.nodes[i], j, h, s'.nodes[i]);
      }
    }
  }

  lemma HistoriesKept(s: State, i: NodeId, h: Header, s': State)
    requires HistoriesOk(s) && Received(s, i, h, s')
    requires forall j :: j != i ==> ConfigEpoch(s', j) == ConfigEpoch(s, j)
    ensures HistoriesOk(s')
  {
    forall j | j in s'.held && j in s'.left ensures HistoryOk(s'.held[j], s'.left[j], ConfigEpoch(s', j)) {
      assert HistoryOk(s.held[j], s.left[j], ConfigEpoch(s, j));
      if j == i && s'.left == s.left { assert s'.held[i] == s.held[i]; }
    }
  }

  lemma LeftKept(s: State, i: NodeId, h: Header, s': State, M: set<NodeId>)
    requires LeftOk(s, M) && Received(s, i, h, s') && h.sender in M
    ensures LeftOk(s', M)
  {
    assert forall j :: j in s.held ==> s.held[j] <= s'.held[j];
    forall j | j in s'.left ensures s'.left[j] <= HeldBy(s'.held, Greater(M, j)) {
      assert s.left[j] <= HeldBy(s.held, Greater(M, j)) <= HeldBy(s'.held, Greater(M, j));
      if j == i && s'.left != s.left {
        assert h.sender in Greater(M, i) && s.nodes[i].peers[i].configEpoch in s'.held[h.sender];
      }
    }
  }

  lemma RecvKeepsInv(s: State, i: NodeId, h: Header, M: set<NodeId>, owner: seq<Option<NodeId>>)
    requires Inv(s, M, owner) && i in M && h in s.sent && Enabled(s, Recv(i, h))
    ensures Inv(Apply(s, Recv(i, h)), M, owner)
  {
    hide HistoriesOk, LeftOk, Apply, Enabled, KnowledgeOk, HdrFits, Member, NotesOnly;
    var s' := Apply(s, Recv(i, h));
    FitSender(h, M, owner);
    At(s, i, M, owner);
    At(s, h.sender, M, owner);
    RecvReceived(s, i, h, M, owner);
    KnowledgeKept(s, i, h, s');
    HistoriesKept(s, i, h, s');
    LeftKept(s, i, h, s', M);
  }

  lemma StepKeepsInv(s: State, a: Action, M: set<NodeId>, owner: seq<Option<NodeId>>)
    requires Inv(s, M, owner) && Enabled(s, a)
    ensures Inv(Apply(s, a), M, owner)
  {
    assert a.i in M && (a.Recv? ==> a.h in s.sent);
    hide Inv, Apply, Enabled;
    match a
    case Send(i) => SendKeepsInv(s, i, M, owner);
    case Recv(i, h) => RecvKeepsInv(s, i, h, M, owner);
  }

  lemma {:induction false} RunKeepsInv(s: State, as_: seq<Action>, s': State, M: set<NodeId>,
                                       owner: seq<Option<NodeId>>)
    requires Inv(s, M, owner) && Reaches(s, as_, s')
    ensures Inv(s', M, owner)
    decreases |as_|
  {
    if as_ != [] {
      StepKeepsInv(s, as_[0], M, owner);
      RunKeepsInv(Apply(s, as_[0]), as_[1..], s', M, owner);
    }
  }

  lemma InitInv(s: State, M: set<NodeId>, owner: seq<Option<NodeId>>)
    requires Init(s, M, owner)
    ensures Inv(s, M, owner)
  {
    hide Member;
  }

  // ----- how often a master can bump

  lemma {:induction false} LeastOf(S: set<NodeId>) returns (m: NodeId)
    requires S != {}
    ensures m in S && forall j :: j in S ==> m <= j
    decreases |S|
  {
    var k :| k in S;
    if j :| j in S && j < k {
      m := LeastOf(S - {k});
      assert j in S - {k} && m <= j;
      assert forall x :: x in S ==> x == k || x in S - {k};
    } else {
      m := k;
    }
  }

  lemma UnionSize(held: map<NodeId, set<Epoch>>, S: set<NodeId>, j: NodeId)
    requires j in held
    ensures |HeldBy(held, S + {j})| <= |held[j]| + |HeldBy(held, S)|
  {
    var a, b, c := HeldBy(held, S + {j}), held[j], HeldBy(held, S);
    assert a == b + c;
    assert |b + c| + |b * c| == |b| + |c|;
  }

  lemma SubsetSize(a: set<Epoch>, b: set<Epoch>)
    requires a <= b
    ensures |a| <= |b|
  {
    assert b == a + (b - a);
  }

  /** All epochs ever held above rank k fit in 2^k - 1: each master there held one
      more than it left, and it left only epochs held above it. */
  lemma {:induction false} FewEpochsAbove(s: State, i: NodeId, M: set<NodeId>, owner: seq<Option<NodeId>>)
    requires Inv(s, M, owner)
    ensures |HeldBy(s.held, Greater(M, i))| <= Pow2(|Greater(M, i)|) - 1
    decreases |Greater(M, i)|
  {
    hide MembersOk, SentOk, KnowledgeOk, HistoriesOk;
    var G := Greater(M, i);
    if G == {} {
      assert HeldBy(s.held, G) == {};
    } else {
      var j := LeastOf(G);
      var H := Greater(M, j);
      assert G == H + {j} && j !in H && |G| == |H| + 1;
      At(s, j, M, owner);
      FewEpochsAbove(s, j, M, owner);
      UnionSize(s.held, H, j);
      SubsetSize(s.left[j], HeldBy(s.held, H));
    }
  }

  /** In every run the master with k masters above it in ID order bumps at most 2^k - 1 times;
      in particular the one with the greatest ID never does. */
  lemma BumpsAreBounded(s0: State, as_: seq<Action>, s: State, M: set<NodeId>, owner: seq<Option<NodeId>>, i: NodeId)
    requires Init(s0, M, owner) && Reaches(s0, as_, s) && i in M
    ensures i in s.left && Bumps(s, i) <= Pow2(|Greater(M, i)|) - 1
  {
    InitInv(s0, M, owner);
    RunKeepsInv(s0, as_, s, M, owner);
    FewEpochsAbove(s, i, M, owner);
    SubsetSize(s.left[i], HeldBy(s.held, Greater(M, i)));
  }

  /** A collision is visible to a master: the current ping of another would make it bump. */
  ghost predicate BumpEnabled(s: State, i: NodeId, j: NodeId) {
    i in s.nodes && j in s.nodes && i != j && Wf(s.nodes[i]) && Wf(s.nodes[j]) &&
    var n' := ReceivePing(s.nodes[i], BuildHdr(s.nodes[j], false));
    n'.me in n'.peers && Self(n').configEpoch != Self(s.nodes[i]).configEpoch
  }

  /** Resolution stops exactly when it has succeeded: in a reachable state no
      current ping causes a bump if and only if all configEpochs are different. */
  lemma QuietIffDistinct(s0: State, as_: seq<Action>, s: State, M: set<NodeId>, owner: seq<Option<NodeId>>)
    requires Init(s0, M, owner) && Reaches(s0, as_, s)
    ensures (forall i, j :: i in M && j in M && i != j ==> !BumpEnabled(s, i, j)) <==>
            (forall i, j :: i in M && j in M && i != j ==> ConfigEpoch(s, i) != ConfigEpoch(s, j))
  {
    hide Init, Reaches, Inv, BumpEnabled;
    InitInv(s0, M, owner);
    RunKeepsInv(s0, as_, s, M, owner);
    forall i, j | i in M && j in M && i != j
      ensures BumpEnabled(s, i, j) <==> ConfigEpoch(s, i) == ConfigEpoch(s, j) && j > i
    {
      BumpIffCollision(s, i, j, M, owner);
    }
  }

  lemma BumpIffCollision(s: State, i: NodeId, j: NodeId, M: set<NodeId>, owner: seq<Option<NodeId>>)
    requires Inv(s, M, owner) && i in M && j in M && i != j
    ensures BumpEnabled(s, i, j) <==> ConfigEpoch(s, i) == ConfigEpoch(s, j) && j > i
  {
    hide ReceivePing, BuildHdr, HdrFits;
    At(s, i, M, owner);
    At(s, j, M, owner);
    MemberHdr(s.nodes[j], j, M, owner);
    RecvNode(s.nodes[i], i, BuildHdr(s.nodes[j], false), M, owner);
    assert s.nodes[i].peers[j].configEpoch <= ConfigEpoch(s, j);
  }
}
