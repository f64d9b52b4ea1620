/** Runs of the whole cluster: nodes, messages in flight, and a history of votes
    and victories. Messages other than acknowledgements may be lost, reordered
    and delivered any number of times; each acknowledgement is delivered at most
    once. The electorate of an epoch is a parameter on which voters and
    candidates agree. */
module Election {
  import opened Common
  import opened SlotClaims
  import opened ClusterBus

  datatype Msg =
    | Ping(h: Header)
    | Request(h: Header)
    | Update(h: Header, about: NodeId, claim: Claim)

  datatype Ack = Ack(h: Header, to: NodeId)
  datatype Grant = Grant(voter: NodeId, epoch: Epoch, to: NodeId)

  /** A victory: how many acknowledgements were counted, who backed it with votes
      of its own epoch, and how many were left over from earlier elections. */
  datatype Win = Win(replica: NodeId, epoch: Epoch, count: nat, backers: set<NodeId>, stale: nat)

  datatype State = State(
    nodes: map<NodeId, Node>,
    sent: set<Msg>,
    acks: set<Ack>,
    grants: seq<Grant>,              // history: every vote, in order
    backers: map<NodeId, set<NodeId>>, // history: counted in the election under way
    stale: map<NodeId, nat>,         // history: counted between scheduling and start
    wins: set<Win>)                  // history

  datatype Action =
    | SendPing(i: NodeId)
    | RecvPing(i: NodeId, h: Header, reply: Option<NodeId>)
    | RecvUpdate(i: NodeId, h: Header, about: NodeId, claim: Claim)
    | RecvRequest(i: NodeId, h: Header, now: int, nodeTimeout: int)
    | RecvAck(i: NodeId, h: Header)
    | Failover(i: NodeId, t: Tick)
    | Bump(i: NodeId, maxEpoch: Epoch)
    | Learning(i: NodeId, p: NodeId)
    | Forgetting(i: NodeId, p: NodeId)
    | Failing(i: NodeId, p: NodeId, failed: bool)

  type Electorate = Epoch -> set<NodeId>

  // ----- steps

  ghost predicate Enabled(V: Electorate, s: State, a: Action) {
    a.i in s.nodes && a.i in s.backers && a.i in s.stale && Wf(s.nodes[a.i]) &&
    var n := s.nodes[a.i];
    match a
    case RecvPing(i, h, reply) =>
      Ping(h) in s.sent && h.sender != i &&
      (reply.Some? ==> h.sender in n.peers && reply.value in NotePing(n, h).peers && Wf(NotePing(n, h)) &&
                       SendsUpdateAbout(NotePing(n, h), h, reply.value))
    case RecvUpdate(i, h, about, claim) => Update(h, about, claim) in s.sent
    case RecvRequest(i, h, now, timeout) =>
      Request(h) in s.sent &&
      var (n', granted) := ReceiveAuthRequest(n, h, now, timeout);
      Wf(n') && (granted ==> i in V(n'.currentEpoch))
    case RecvAck(i, h) => Ack(h, i) in s.acks
    case Failover(i, t) =>
      (HandleSlaveFailover(n, t).1.Requested? ==> Wf(HandleSlaveFailover(n, t).0)) &&
      (HandleSlaveFailover(n, t).1.Won? ==> t.size == |V(n.authEpoch)|)
    case Bump(i, m) => IsMaxEpoch(n, m)
    case _ => true
  }

  function SetNode(s: State, i: NodeId, n: Node): State {
    s.(nodes := s.nodes[i := n])
  }

  ghost function Apply(V: Electorate, s: State, a: Action): State
    requires Enabled(V, s, a)
  {
    var n := s.nodes[a.i];
    match a
    case SendPing(i) => s.(sent := s.sent + {Ping(BuildHdr(n, false))})
    case RecvPing(i, h, reply) =>
      var s1 := SetNode(s, i, ReceivePing(n, h));
      if reply == None then s1
      else
        var n3 := NotePing(n, h);
        var p := reply.value;
        s1.(sent := s1.sent + {Update(BuildHdr(n3, false), p, Claim(n3.peers[p].configEpoch, SlotsOf(n3, p)))})
    case RecvUpdate(i, h, about, claim) => SetNode(s, i, ReceiveUpdate(n, h, about, claim))
    case RecvRequest(i, h, now, timeout) =>
      var (n', granted) := ReceiveAuthRequest(n, h, now, timeout);
      var s1 := SetNode(s, i, n');
      if granted
      then s1.(acks := s1.acks + {Ack(BuildHdr(n', false), h.sender)},
               grants := s1.grants + [Grant(i, n'.currentEpoch, h.sender)])
      else s1
    case RecvAck(i, h) =>
      var s1 := SetNode(s, i, ReceiveAck(n, h)).(acks := s.acks - {Ack(h, i)});
      if !CountsAck(NoteEpochs(n, h), h) then s1
      else if n.authSent then s1.(backers := s1.backers[i := s1.backers[i] + {h.sender}])
      else s1.(stale := s1.stale[i := s1.stale[i] + 1])
    case Failover(i, t) =>
      var (n', o) := HandleSlaveFailover(n, t);
      var s1 := SetNode(s, i, n');
      (match o
      case Idle => s1
      case Scheduled => s1.(backers := s1.backers[i := {}], stale := s1.stale[i := 0])
      case Requested => s1.(sent := s1.sent + {Request(BuildHdr(n', t.mfEnd))})
      case Won => s1.(wins := s1.wins + {Win(i, n.authEpoch, n.authCount, s.backers[i], s.stale[i])}))
    case Bump(i, m) => SetNode(s, i, BumpEpoch(n, m))
    case Learning(i, p) => SetNode(s, i, Learn(n, p))
    case Forgetting(i, p) => SetNode(s, i, Forget(n, p))
    case Failing(i, p, failed) => SetNode(s, i, SetFailed(n, p, failed))
  }

  /** The victory a replica that has its majority is entered with. */
  function WinOf(s: State, i: NodeId): Win
    requires i in s.nodes && i in s.backers && i in s.stale
  {
    Win(i, s.nodes[i].authEpoch, s.nodes[i].authCount, s.backers[i], s.stale[i])
  }

  /** No traffic yet, nobody has voted or stood, epochs as loaded from disk. */
  ghost predicate Init(s: State) {
    s.sent == {} && s.acks == {} && s.grants == [] && s.wins == {} &&
    s.backers.Keys == s.nodes.Keys && s.stale.Keys == s.nodes.Keys &&
    forall i :: i in s.nodes ==>
      NodeOk(s.nodes[i]) && s.nodes[i].me == i && s.nodes[i].authCount == 0 && !s.nodes[i].authSent &&
      s.backers[i] == {} && s.stale[i] == 0
  }

  /** `s'` is reached from `s` by the actions `as`. */
  ghost predicate Reaches(V: Electorate, s: State, as_: seq<Action>, s': State)
    decreases |as_|
  {
    if as_ == [] then s == s'
    else Enabled(V, s, as_[0]) && Reaches(V, Apply(V, s, as_[0]), as_[1..], s')
  }

  // ----- the invariant

  ghost predicate MsgOk(m: Msg) {
    HdrOk(m.h) && (m.Update? ==> m.claim.epoch <= m.h.currentEpoch)
  }

  ghost predicate GrantsOk(V: Electorate, s: State) {
    (forall g :: g in s.grants ==>
       g.voter in s.nodes && g.epoch <= s.nodes[g.voter].lastVoteEpoch && g.voter in V(g.epoch)) &&
    (forall a, b :: 0 <= a < b < |s.grants| ==>
       !(s.grants[a].voter == s.grants[b].voter && s.grants[a].epoch == s.grants[b].epoch))
  }

  ghost predicate RequestsOk(s: State) {
    forall m :: m in s.sent && m.Request? ==>
      m.h.sender in s.nodes ==> m.h.currentEpoch <= s.nodes[m.h.sender].authEpoch
  }

  ghost predicate AcksOk(s: State) {
    (forall k, l :: k in s.acks && l in s.acks && k.h.sender == l.h.sender && k.h.currentEpoch == l.h.currentEpoch ==>
       k == l) &&
    forall k :: k in s.acks ==>
      HdrOk(k.h) && Grant(k.h.sender, k.h.currentEpoch, k.to) in s.grants &&
      (k.to in s.nodes && k.to in s.backers ==>
         k.h.currentEpoch <= s.nodes[k.to].authEpoch &&
         (k.h.currentEpoch == s.nodes[k.to].authEpoch ==> k.h.sender !in s.backers[k.to]))
  }

  /** The counter is the number of backers plus the stale acknowledgements. */
  ghost predicate CountsOk(s: State) {
    s.backers.Keys == s.nodes.Keys && s.stale.Keys == s.nodes.Keys &&
    forall i :: i in s.nodes ==>
      s.nodes[i].authCount == |s.backers[i]| + s.stale[i] &&
      (!s.nodes[i].authSent ==> s.backers[i] == {}) &&
      forall v :: v in s.backers[i] ==> Grant(v, s.nodes[i].authEpoch, i) in s.grants
  }

  ghost predicate WinsOk(V: Electorate, s: State) {
    forall w :: w in s.wins ==>
      w.count == |w.backers| + w.stale && w.count >= |V(w.epoch)| / 2 + 1 &&
      forall v :: v in w.backers ==> Grant(v, w.epoch, w.replica) in s.grants
  }

  ghost predicate NodesOk(s: State) {
    forall i :: i in s.nodes ==> NodeOk(s.nodes[i]) && s.nodes[i].me == i
  }

  ghost predicate Inv(V: Electorate, s: State) {
    NodesOk(s) && (forall m :: m in s.sent ==> MsgOk(m)) &&
    GrantsOk(V, s) && RequestsOk(s) && AcksOk(s) && CountsOk(s) && WinsOk(V, s)
  }

  /** `s'` differs from `s` at most at node `i`, and its histories only grow. */
  ghost predicate Advances(s: State, i: NodeId, s': State) {
    i in s.nodes && i in s'.nodes && s'.nodes == s.nodes[i := s'.nodes[i]] && s.sent <= s'.sent && s.grants <= s'.grants
  }

  lemma GrantsKept(V: Electorate, s: State, i: NodeId, s': State)
    requires GrantsOk(V, s) && Advances(s, i, s') && s'.grants == s.grants
    requires s.nodes[i].lastVoteEpoch <= s'.nodes[i].lastVoteEpoch
    ensures GrantsOk(V, s')
  {
  }

  lemma RequestsKept(s: State, i: NodeId, s': State)
    requires RequestsOk(s) && Advances(s, i, s')
    requires s.nodes[i].authEpoch <= s'.nodes[i].authEpoch
    requires forall m :: m in s'.sent && m !in s.sent && m.Request? ==>
               m.h.sender == i && m.h.currentEpoch <= s'.nodes[i].authEpoch
    ensures RequestsOk(s')
  {
  }

  lemma AcksKept(s: State, i: NodeId, s': State)
    requires AcksOk(s) && Advances(s, i, s') && s'.acks <= s.acks && s'.backers.Keys == s.backers.Keys
    requires forall j :: j in s.backers && j != i ==> s'.backers[j] == s.backers[j]
    requires s'.nodes[i].authEpoch > s.nodes[i].authEpoch ||
             (s'.nodes[i].authEpoch == s.nodes[i].authEpoch && (i in s.backers ==> s'.backers[i] <= s.backers[i]))
    ensures AcksOk(s')
  {
    hide HdrOk;
    forall k | k in s'.acks
      ensures HdrOk(k.h) && Grant(k.h.sender, k.h.currentEpoch, k.to) in s'.grants
      ensures k.to in s'.nodes && k.to in s'.backers ==>
                k.h.currentEpoch <= s'.nodes[k.to].authEpoch &&
                (k.h.currentEpoch == s'.nodes[k.to].authEpoch ==> k.h.sender !in s'.backers[k.to])
    {
      assert k in s.acks;
    }
  }

  /** The counting condition at one node. */
  ghost predicate CountOk(n: Node, i: NodeId, backers: set<NodeId>, stale: nat, grants: seq<Grant>) {
    n.authCount == |backers| + stale && (!n.authSent ==> backers == {}) &&
    forall v :: v in backers ==> Grant(v, n.authEpoch, i) in grants
  }

  lemma CountAt(s: State, i: NodeId)
    requires CountsOk(s) && NodesOk(s) && i in s.nodes
    ensures i in s.backers && i in s.stale && CountOk(s.nodes[i], i, s.backers[i], s.stale[i], s.grants)
    ensures s.nodes[i].me == i && NodeOk(s.nodes[i])
    ensures s.backers.Keys == s.nodes.Keys && s.stale.Keys == s.nodes.Keys
  {
    hide NodeOk;
  }

  lemma CountsKept(s: State, i: NodeId, s': State)
    requires CountsOk(s) && Advances(s, i, s')
    requires s'.backers.Keys == s.backers.Keys && s'.stale.Keys == s.stale.Keys
    requires forall j :: j in s.backers && j != i ==> s'.backers[j] == s.backers[j] && s'.stale[j] == s.stale[j]
    requires CountOk(s'.nodes[i], i, s'.backers[i], s'.stale[i], s'.grants)
    ensures CountsOk(s')
  {
    forall j | j in s'.nodes ensures CountOk(s'.nodes[j], j, s'.backers[j], s'.stale[j], s'.grants) {
      if j != i { assert CountOk(s.nodes[j], j, s.backers[j], s.stale[j], s.grants); }
    }
  }

  lemma WinsKept(V: Electorate, s: State, s': State)
    requires WinsOk(V, s) && s.grants <= s'.grants && s'.wins == s.wins
    ensures WinsOk(V, s')
  {
    forall w, v | w in s'.wins && v in w.backers ensures Grant(v, w.epoch, w.replica) in s'.grants {
      assert Grant(v, w.epoch, w.replica) in s.grants;
    }
  }

  lemma NodesKept(s: State, i: NodeId, s': State)
    requires NodesOk(s) && Advances(s, i, s') && NodeOk(s'.nodes[i]) && s'.nodes[i].me == i
    ensures NodesOk(s')
  {
    hide NodeOk;
  }

  /** A node that moves without voting, and messages that ask for no vote, disturb nothing. */
  lemma QuietStep(V: Electorate, s: State, i: NodeId, n': Node, msgs: set<Msg>)
    requires Inv(V, s) && i in s.nodes && NodeOk(n') && Quiet(s.nodes[i], n')
    requires forall m :: m in msgs ==> MsgOk(m) && !m.Request?
    ensures Inv(V, SetNode(s, i, n').(sent := s.sent + msgs))
  {
    hide NodesOk, NodeOk, GrantsOk, RequestsOk, AcksOk, CountsOk, WinsOk;
    var s' := SetNode(s, i, n').(sent := s.sent + msgs);
    CountAt(s, i);
    GrantsKept(V, s, i, s');
    RequestsKept(s, i, s');
    AcksKept(s, i, s');
    CountsKept(s, i, s');
    WinsKept(V, s, s');
    NodesKept(s, i, s');
  }

  lemma NewGrantOk(V: Electorate, s: State, i: NodeId, s': State, g: Grant)
    requires GrantsOk(V, s) && Advances(s, i, s') && s'.grants == s.grants + [g]
    requires g.voter == i && g.epoch in {s'.nodes[i].lastVoteEpoch} && i in V(g.epoch)
    requires s.nodes[i].lastVoteEpoch < g.epoch
    ensures GrantsOk(V, s')
    ensures forall h :: h in s.grants ==> !(h.voter == i && h.epoch == g.epoch)
  {
  }

  lemma NewAckOk(s: State, i: NodeId, s': State, k: Ack)
    requires AcksOk(s) && Advances(s, i, s') && s'.acks == s.acks + {k} && s'.backers == s.backers
    requires s'.nodes[i].authEpoch == s.nodes[i].authEpoch
    requires CountsOk(s) && HdrOk(k.h)
    requires Grant(k.h.sender, k.h.currentEpoch, k.to) in s'.grants
    requires forall g :: g in s.grants ==> !(g.voter == k.h.sender && g.epoch == k.h.currentEpoch)
    requires k.to in s.nodes ==> k.h.currentEpoch <= s.nodes[k.to].authEpoch
    ensures AcksOk(s')
  {
    hide HdrOk;
    var t := s'.(acks := s.acks);
    assert AcksOk(t) by { AcksKept(s, i, t); }
    assert k.to in s.nodes ==> CountOk(s.nodes[k.to], k.to, s.backers[k.to], s.stale[k.to], s.grants);
  }

  lemma GrantStep(V: Electorate, s: State, i: NodeId, h: Header, n': Node, k: Ack)
    requires Inv(V, s) && i in s.nodes && Request(h) in s.sent && NodeOk(n') && n'.me == i
    requires n'.currentEpoch == h.currentEpoch == n'.lastVoteEpoch && s.nodes[i].lastVoteEpoch < h.currentEpoch
    requires Quiet(s.nodes[i].(lastVoteEpoch := n'.lastVoteEpoch), n') && i in V(h.currentEpoch)
    requires k.to == h.sender && k.h.sender == i && k.h.currentEpoch == h.currentEpoch && HdrOk(k.h)
    ensures Inv(V, SetNode(s, i, n').(acks := s.acks + {k}, grants := s.grants + [Grant(i, h.currentEpoch, h.sender)]))
  {
    var g := Grant(i, h.currentEpoch, h.sender);
    var s' := SetNode(s, i, n').(acks := s.acks + {k}, grants := s.grants + [g]);
    hide NodesOk, NodeOk, HdrOk, GrantsOk, AcksOk, CountsOk, WinsOk;
    CountAt(s, i);
    assert s'.grants[|s.grants|] == g;
    assert h.sender in s.nodes ==> h.currentEpoch <= s.nodes[h.sender].authEpoch;
    NewGrantOk(V, s, i, s', g);
    NewAckOk(s, i, s', k);
    RequestsKept(s, i, s');
    CountsKept(s, i, s');
    WinsKept(V, s, s');
    NodesKept(s, i, s');
  }

  /** The acknowledgements still in flight come from voters not yet among the backers. */
  lemma CountedAckOk(s: State, i: NodeId, s': State, k: Ack)
    requires AcksOk(s) && Advances(s, i, s') && k in s.acks && k.to == i && i in s.backers
    requires k.h.currentEpoch == s.nodes[i].authEpoch == s'.nodes[i].authEpoch
    requires s'.acks == s.acks - {k} && s'.backers == s.backers[i := s.backers[i] + {k.h.sender}]
    ensures AcksOk(s')
  {
    hide HdrOk;
    forall l | l in s'.acks
      ensures HdrOk(l.h) && Grant(l.h.sender, l.h.currentEpoch, l.to) in s'.grants
      ensures l.to in s'.nodes && l.to in s'.backers ==>
                l.h.currentEpoch <= s'.nodes[l.to].authEpoch &&
                (l.h.currentEpoch == s'.nodes[l.to].authEpoch ==> l.h.sender !in s'.backers[l.to])
    {
      assert l in s.acks && l != k;
    }
  }

  lemma AckAt(s: State, k: Ack)
    requires AcksOk(s) && k in s.acks
    ensures HdrOk(k.h) && Grant(k.h.sender, k.h.currentEpoch, k.to) in s.grants
    ensures k.to in s.nodes && k.to in s.backers ==>
              k.h.currentEpoch <= s.nodes[k.to].authEpoch &&
              (k.h.currentEpoch == s.nodes[k.to].authEpoch ==> k.h.sender !in s.backers[k.to])
  {
  }

  /** Delivering an acknowledgement: `s'` is what each of the three cases leaves. */
  lemma AckStep(V: Electorate, s: State, i: NodeId, h: Header, n': Node, counted: bool, s': State)
    requires Inv(V, s) && i in s.nodes && i in s.backers && i in s.stale && Ack(h, i) in s.acks && NodeOk(n')
    requires Quiet(s.nodes[i].(authCount := n'.authCount), n')
    requires n'.authCount == s.nodes[i].authCount + if counted then 1 else 0
    requires counted ==> h.currentEpoch >= s.nodes[i].authEpoch
    requires var s1 := SetNode(s, i, n').(acks := s.acks - {Ack(h, i)});
             s' == if !counted then s1
                   else if s.nodes[i].authSent then s1.(backers := s.backers[i := s.backers[i] + {h.sender}])
                   else s1.(stale := s.stale[i := s.stale[i] + 1])
    ensures Inv(V, s')
  {
    var k := Ack(h, i);
    hide NodesOk, NodeOk, GrantsOk, RequestsOk, AcksOk, CountsOk, WinsOk;
    CountAt(s, i);
    AckAt(s, k);
    GrantsKept(V, s, i, s');
    RequestsKept(s, i, s');
    CountsKept(s, i, s');
    WinsKept(V, s, s');
    NodesKept(s, i, s');
    if counted && s.nodes[i].authSent { CountedAckOk(s, i, s', k); } else { AcksKept(s, i, s'); }
  }

  /** A victory is recorded with what the counter was made of. */
  lemma WinStep(V: Electorate, s: State, i: NodeId, n': Node, size: nat)
    requires Inv(V, s) && i in s.nodes && i in s.backers && i in s.stale && NodeOk(n') && Quiet(s.nodes[i], n')
    requires size == |V(s.nodes[i].authEpoch)| && s.nodes[i].authCount >= size / 2 + 1
    ensures Inv(V, SetNode(s, i, n').(wins := s.wins + {WinOf(s, i)}))
  {
    hide NodesOk, NodeOk, GrantsOk, RequestsOk, AcksOk, CountsOk;
    CountAt(s, i);
    var s' := SetNode(s, i, n').(wins := s.wins + {WinOf(s, i)});
    GrantsKept(V, s, i, s');
    RequestsKept(s, i, s');
    AcksKept(s, i, s');
    CountsKept(s, i, s');
    NodesKept(s, i, s');
  }

  /** Scheduling empties the count, starting moves to a fresh epoch: either way
      no acknowledgement in flight is from a backer of the new election. */
  lemma ElectionReset(V: Electorate, s: State, i: NodeId, s': State)
    requires Inv(V, s) && Advances(s, i, s') && NodeOk(s'.nodes[i]) && s'.nodes[i].me == i
    requires s'.acks == s.acks && s'.grants == s.grants && s'.wins == s.wins
    requires s'.nodes[i].lastVoteEpoch == s.nodes[i].lastVoteEpoch && s'.nodes[i].authEpoch >= s.nodes[i].authEpoch
    requires s'.backers == s.backers[i := {}]
    requires s'.stale.Keys == s.stale.Keys && forall j :: j in s.stale && j != i ==> s'.stale[j] == s.stale[j]
    requires s'.nodes[i].authCount == s'.stale[i]
    requires forall m :: m in s'.sent && m !in s.sent ==>
               MsgOk(m) && m.Request? && m.h.sender == i && m.h.currentEpoch <= s'.nodes[i].authEpoch
    ensures Inv(V, s')
  {
    hide NodesOk, NodeOk, GrantsOk, RequestsOk, AcksOk, CountsOk, WinsOk;
    CountAt(s, i);
    GrantsKept(V, s, i, s');
    RequestsKept(s, i, s');
    AcksKept(s, i, s');
    CountsKept(s, i, s');
    WinsKept(V, s, s');
    NodesKept(s, i, s');
  }

  lemma PingStep(V: Electorate, s: State, i: NodeId, h: Header, reply: Option<NodeId>)
    requires Inv(V, s) && Enabled(V, s, RecvPing(i, h, reply))
    ensures Inv(V, Apply(V, s, RecvPing(i, h, reply)))
  {
    hide NodesOk, NodeOk, GrantsOk, RequestsOk, AcksOk, CountsOk, WinsOk, ReceivePing, NotePing, BuildHdr,
      SendsUpdateAbout, Wf;
    var n := s.nodes[i];
    CountAt(s, i);
    NodeOkMe(n);
    assert MsgOk(Ping(h));
    PingOk(n, h);
    assert s.sent + {} == s.sent;
    if reply == None {
      QuietStep(V, s, i, ReceivePing(n, h), {});
    } else {
      NotePingOk(n, h);
      var n3, p := NotePing(n, h), reply.value;
      HdrEpoch(n3, false);
      PeerBehind(n3, p);
      QuietStep(V, s, i, ReceivePing(n, h),
                {Update(BuildHdr(n3, false), p, Claim(n3.peers[p].configEpoch, SlotsOf(n3, p)))});
    }
  }

  lemma PeerBehind(n: Node, p: NodeId)
    requires NodeOk(n) && p in n.peers
    ensures n.peers[p].configEpoch <= n.currentEpoch
  {
  }

  lemma RequestStep(V: Electorate, s: State, i: NodeId, h: Header, now: int, timeout: int)
    requires Inv(V, s) && Enabled(V, s, RecvRequest(i, h, now, timeout))
    ensures Inv(V, Apply(V, s, RecvRequest(i, h, now, timeout)))
  {
    hide NodesOk, NodeOk, GrantsOk, RequestsOk, AcksOk, CountsOk, WinsOk, ReceiveAuthRequest, BuildHdr, Wf;
    var n := s.nodes[i];
    CountAt(s, i);
    assert MsgOk(Request(h));
    VoteOk(n, h, now, timeout);
    var (n', granted) := ReceiveAuthRequest(n, h, now, timeout);
    assert s.sent + {} == s.sent;
    if granted {
      HdrEpoch(n', false);
      GrantStep(V, s, i, h, n', Ack(BuildHdr(n', false), h.sender));
    } else {
      QuietStep(V, s, i, n', {});
    }
  }

  lemma ScheduledStep(V: Electorate, s: State, i: NodeId, n': Node)
    requires Inv(V, s) && i in s.nodes && NodeOk(n') && n'.me == i && n'.lastVoteEpoch == s.nodes[i].lastVoteEpoch
    requires n'.authEpoch == s.nodes[i].authEpoch && n'.authCount == 0
    ensures Inv(V, SetNode(s, i, n').(backers := s.backers[i := {}], stale := s.stale[i := 0]))
  {
    hide NodesOk, NodeOk, GrantsOk, RequestsOk, AcksOk, CountsOk, WinsOk, HdrOk;
    CountAt(s, i);
    ElectionReset(V, s, i, SetNode(s, i, n').(backers := s.backers[i := {}], stale := s.stale[i := 0]));
  }

  lemma RequestedStep(V: Electorate, s: State, i: NodeId, n': Node, h: Header)
    requires Inv(V, s) && i in s.nodes && NodeOk(n') && n'.me == i && n'.lastVoteEpoch == s.nodes[i].lastVoteEpoch
    requires n'.authEpoch > s.nodes[i].authEpoch && n'.authCount == s.nodes[i].authCount && !s.nodes[i].authSent
    requires HdrOk(h) && h.sender == i && h.currentEpoch == n'.authEpoch
    ensures Inv(V, SetNode(s, i, n').(sent := s.sent + {Request(h)}))
  {
    hide NodesOk, NodeOk, GrantsOk, RequestsOk, AcksOk, CountsOk, WinsOk, HdrOk;
    CountAt(s, i);
    assert s.backers[i := {}] == s.backers;
    ElectionReset(V, s, i, SetNode(s, i, n').(sent := s.sent + {Request(h)}));
  }

  lemma FailoverStep(V: Electorate, s: State, i: NodeId, t: Tick)
    requires Inv(V, s) && i in s.nodes && Enabled(V, s, Failover(i, t))
    ensures Inv(V, Apply(V, s, Failover(i, t)))
  {
    hide Enabled, Apply, NodesOk, NodeOk, GrantsOk, RequestsOk, AcksOk, CountsOk, WinsOk, HandleSlaveFailover, BuildHdr,
      HdrOk, Wf;
    var s' := Apply(V, s, Failover(i, t));
    var n := s.nodes[i];
    CountAt(s, i);
    NodeOkMe(n);
    var (n', o) := HandleSlaveFailover(n, t);
    FailoverApplied(V, s, i, t);
    FailoverOk(n, t);
    assert s.sent + {} == s.sent;
    match o
    case Idle => QuietStep(V, s, i, n', {});
    case Won => WinStep(V, s, i, n', t.size);
    case Scheduled => ScheduledStep(V, s, i, n');
    case Requested => HdrEpoch(n', t.mfEnd); RequestedStep(V, s, i, n', BuildHdr(n', t.mfEnd));
  }

  /** The failover action, outcome by outcome. */
  lemma FailoverApplied(V: Electorate, s: State, i: NodeId, t: Tick)
    requires i in s.nodes && s.nodes[i].me in s.nodes[i].peers && Enabled(V, s, Failover(i, t))
    ensures var (n', o) := HandleSlaveFailover(s.nodes[i], t);
            var s1 := SetNode(s, i, n');
            match o
            case Idle => Apply(V, s, Failover(i, t)) == s1
            case Scheduled =>
              Apply(V, s, Failover(i, t)) == s1.(backers := s.backers[i := {}], stale := s.stale[i := 0])
            case Requested => Wf(n') &&
              Apply(V, s, Failover(i, t)) == s1.(sent := s.sent + {Request(BuildHdr(n', t.mfEnd))})
            case Won =>
              i in s.backers && i in s.stale && t.size == |V(s.nodes[i].authEpoch)| &&
              Apply(V, s, Failover(i, t)) == s1.(wins := s.wins + {WinOf(s, i)})
  {
    hide HandleSlaveFailover;
  }

  lemma NodeOkMe(n: Node)
    requires NodeOk(n)
    ensures n.me in n.peers && Wf(n) && n.authEpoch <= n.currentEpoch
  {
  }

  lemma HdrEpoch(n: Node, forceAck: bool)
    requires NodeOk(n)
    ensures n.me in n.peers && Published(n) in n.peers
    ensures HdrOk(BuildHdr(n, forceAck)) && BuildHdr(n, forceAck).sender == n.me
    ensures BuildHdr(n, forceAck).currentEpoch == n.currentEpoch
  {
  }

  lemma DeliverAckStep(V: Electorate, s: State, i: NodeId, h: Header)
    requires Inv(V, s) && Enabled(V, s, RecvAck(i, h))
    ensures Inv(V, Apply(V, s, RecvAck(i, h)))
  {
    hide NodesOk, NodeOk, GrantsOk, RequestsOk, AcksOk, CountsOk, WinsOk, ReceiveAck;
    CountAt(s, i);
    AckAt(s, Ack(h, i));
    AckOk(s.nodes[i], h);
    AckStep(V, s, i, h, ReceiveAck(s.nodes[i], h), CountsAck(NoteEpochs(s.nodes[i], h), h), Apply(V, s, RecvAck(i, h)));
  }

  /** Every other action is a quiet move of one node. */
  lemma QuietActionStep(V: Electorate, s: State, a: Action)
    requires Inv(V, s) && Enabled(V, s, a)
    requires a.SendPing? || a.RecvUpdate? || a.Bump? || a.Learning? || a.Forgetting? || a.Failing?
    ensures Inv(V, Apply(V, s, a))
  {
    hide NodesOk, NodeOk, GrantsOk, RequestsOk, AcksOk, CountsOk, WinsOk, ReceiveUpdate, Learn, Forget, SetFailed,
      BuildHdr;
    var n, i := s.nodes[a.i], a.i;
    CountAt(s, i);
    assert s.sent + {} == s.sent && s.nodes[i := n] == s.nodes;
    match a
    case SendPing(_) => HdrEpoch(n, false); QuietStep(V, s, i, n, {Ping(BuildHdr(n, false))});
    case RecvUpdate(_, h, about, claim) =>
      assert MsgOk(Update(h, about, claim));
      UpdateOk(n, h, about, claim);
      QuietStep(V, s, i, ReceiveUpdate(n, h, about, claim), {});
    case Bump(_, m) => FreshEpochExceedsAll(n, n.me); QuietStep(V, s, i, BumpEpoch(n, m), {});
    case Learning(_, p) => BookkeepingOk(n, p, false); QuietStep(V, s, i, Learn(n, p), {});
    case Forgetting(_, p) => BookkeepingOk(n, p, false); QuietStep(V, s, i, Forget(n, p), {});
    case Failing(_, p, failed) => BookkeepingOk(n, p, failed); QuietStep(V, s, i, SetFailed(n, p, failed), {});
  }

  lemma StepKeepsInv(V: Electorate, s: State, a: Action)
    requires Inv(V, s) && Enabled(V, s, a)
    ensures Inv(V, Apply(V, s, a))
  {
    assert a.i in s.nodes;
    hide Inv, Enabled, Apply;
    match a
    case RecvPing(i, h, reply) => PingStep(V, s, i, h, reply);
    case RecvRequest(i, h, now, timeout) => RequestStep(V, s, i, h, now, timeout);
    case RecvAck(i, h) => DeliverAckStep(V, s, i, h);
    case Failover(i, t) => FailoverStep(V, s, i, t);
    case _ => QuietActionStep(V, s, a);
  }

  lemma {:induction false} RunKeepsInv(V: Electorate, s: State, as_: seq<Action>, s': State)
    requires Inv(V, s) && Reaches(V, s, as_, s')
    ensures Inv(V, s')
    decreases |as_|
  {
    if as_ != [] {
      StepKeepsInv(V, s, as_[0]);
      RunKeepsInv(V, Apply(V, s, as_[0]), as_[1..], s');
    }
  }

  lemma ReachableInv(V: Electorate, s0: State, as_: seq<Action>, s: State)
    requires Init(s0) && Reaches(V, s0, as_, s)
    ensures Inv(V, s)
  {
    RunKeepsInv(V, s0, as_, s);
  }

  // ----- the theorems

  /** In every reachable state no node knows a configEpoch ahead of its current
      epoch, and no message in flight carries one ahead of its sender's. */
  lemma EpochDomination(V: Electorate, s0: State, as_: seq<Action>, s: State)
    requires Init(s0) && Reaches(V, s0, as_, s)
    ensures forall i, p :: i in s.nodes && p in s.nodes[i].peers ==>
              s.nodes[i].peers[p].configEpoch <= s.nodes[i].currentEpoch
    ensures forall m :: m in s.sent ==> m.h.configEpoch <= m.h.currentEpoch
    ensures forall m :: m in s.sent && m.Update? ==> m.claim.epoch <= m.h.currentEpoch
    ensures forall k :: k in s.acks ==> k.h.configEpoch <= k.h.currentEpoch
  {
    ReachableInv(V, s0, as_, s);
  }

  /** No voter ever votes twice in one epoch. */
  lemma OneVotePerEpoch(V: Electorate, s0: State, as_: seq<Action>, s: State, a: nat, b: nat)
    requires Init(s0) && Reaches(V, s0, as_, s) && a < |s.grants| && b < |s.grants|
    requires s.grants[a].voter == s.grants[b].voter && s.grants[a].epoch == s.grants[b].epoch
    ensures a == b
  {
    ReachableInv(V, s0, as_, s);
  }

  /** The vote counter equals the number of voters of this very election exactly
      when no acknowledgement was counted between scheduling and starting it. */
  lemma CountIsExactIffNoStaleAck(V: Electorate, s0: State, as_: seq<Action>, s: State, i: NodeId)
    requires Init(s0) && Reaches(V, s0, as_, s) && i in s.nodes
    ensures i in s.backers && i in s.stale
    ensures s.nodes[i].authCount == |s.backers[i]| <==> s.stale[i] == 0
    ensures forall v :: v in s.backers[i] ==>
              Grant(v, s.nodes[i].authEpoch, i) in s.grants && v in V(s.nodes[i].authEpoch)
  {
    ReachableInv(V, s0, as_, s);
  }

  lemma {:induction false} MajoritiesMeet(a: set<NodeId>, b: set<NodeId>, all: set<NodeId>)
    requires a <= all && b <= all && |a| > |all| / 2 && |b| > |all| / 2
    ensures exists v :: v in a && v in b
  {
    assert |a + b| + |a * b| == |a| + |b|;
    assert all == (a + b) + (all - (a + b));
    assert |a * b| > 0;
    var v :| v in a * b;
  }

  /** The acknowledgements counted beyond the stale ones are a majority of the electorate. */
  ghost predicate Earned(V: Electorate, w: Win) {
    w.stale + |V(w.epoch)| / 2 + 1 <= w.count
  }

  /** A victory rests on a majority that voted for the replica in that very epoch
      exactly when it did not need its stale acknowledgements. */
  lemma MajorityIffEarned(V: Electorate, s0: State, as_: seq<Action>, s: State, w: Win)
    requires Init(s0) && Reaches(V, s0, as_, s) && w in s.wins
    ensures |w.backers| >= |V(w.epoch)| / 2 + 1 <==> Earned(V, w)
    ensures forall v :: v in w.backers ==> Grant(v, w.epoch, w.replica) in s.grants && v in V(w.epoch)
    ensures w.stale == 0 ==> Earned(V, w)
  {
    hide Reaches, Init, NodesOk, RequestsOk, AcksOk, CountsOk;
    ReachableInv(V, s0, as_, s);
    BackersVote(V, s, w);
  }

  lemma BackersVote(V: Electorate, s: State, w: Win)
    requires WinsOk(V, s) && GrantsOk(V, s) && w in s.wins
    ensures forall v :: v in w.backers ==> Grant(v, w.epoch, w.replica) in s.grants && v in V(w.epoch)
  {
    forall v | v in w.backers
      ensures Grant(v, w.epoch, w.replica) in s.grants && v in V(w.epoch)
    {
      var a :| 0 <= a < |s.grants| && s.grants[a] == Grant(v, w.epoch, w.replica);
    }
  }

  /** Election safety: two victories of the same epoch that did not need stale
      acknowledgements are victories of the same replica. */
  lemma ElectionSafety(V: Electorate, s0: State, as_: seq<Action>, s: State, w: Win, w': Win)
    requires Init(s0) && Reaches(V, s0, as_, s)
    requires w in s.wins && w' in s.wins && w.epoch == w'.epoch && Earned(V, w) && Earned(V, w')
    ensures w.replica == w'.replica
  {
    hide Reaches, Init, NodesOk, RequestsOk, AcksOk, CountsOk;
    ReachableInv(V, s0, as_, s);
    WinsAgree(V, s, w, w');
  }

  lemma WinsAgree(V: Electorate, s: State, w: Win, w': Win)
    requires WinsOk(V, s) && GrantsOk(V, s)
    requires w in s.wins && w' in s.wins && w.epoch == w'.epoch && Earned(V, w) && Earned(V, w')
    ensures w.replica == w'.replica
  {
    BackersVote(V, s, w);
    BackersVote(V, s, w');
    MajoritiesMeet(w.backers, w'.backers, V(w.epoch));
    var v :| v in w.backers && v in w'.backers;
    var a :| 0 <= a < |s.grants| && s.grants[a] == Grant(v, w.epoch, w.replica);
    var b :| 0 <= b < |s.grants| && s.grants[b] == Grant(v, w.epoch, w'.replica);
    assert a == b;
  }

  // ----- the guard the code lacks, over whole runs

  /** The step counts an acknowledgement at a node whose election is scheduled and not yet started. */
  ghost predicate CountsEarly(s: State, a: Action) {
    a.RecvAck? && a.i in s.nodes && !s.nodes[a.i].authSent && CountsAck(NoteEpochs(s.nodes[a.i], a.h), a.h)
  }

  ghost predicate NeverEarly(V: Electorate, s: State, as_: seq<Action>)
    decreases |as_|
  {
    as_ == [] || (Enabled(V, s, as_[0]) ==> !CountsEarly(s, as_[0]) && NeverEarly(V, Apply(V, s, as_[0]), as_[1..]))
  }

  ghost predicate NothingStale(s: State) {
    (forall i :: i in s.stale ==> s.stale[i] == 0) && forall w :: w in s.wins ==> w.stale == 0
  }

  lemma StepStaysFresh(V: Electorate, s: State, a: Action)
    requires Enabled(V, s, a) && NothingStale(s) && !CountsEarly(s, a)
    ensures NothingStale(Apply(V, s, a))
  {
    hide HandleSlaveFailover, ReceivePing, ReceiveUpdate, ReceiveAuthRequest, NotePing, BuildHdr, Wf, SendsUpdateAbout,
      ReceiveAck,
      CountsAck, NoteEpochs, BumpEpoch, Learn, Forget, SetFailed, IsMaxEpoch, SlotsOf;
  }

  lemma {:induction false} RunStaysFresh(V: Electorate, s: State, as_: seq<Action>, s': State)
    requires Reaches(V, s, as_, s') && NothingStale(s) && NeverEarly(V, s, as_)
    ensures NothingStale(s')
    decreases |as_|
  {
    hide Enabled, Apply, NothingStale, CountsEarly;
    if as_ != [] {
      StepStaysFresh(V, s, as_[0]);
      RunStaysFresh(V, Apply(V, s, as_[0]), as_[1..], s');
    }
  }

  /** In a run that never counts an acknowledgement at a node that is not standing, every victory rests on a majority
      of its own epoch, and an epoch has at most one winner. */
  lemma OneWinnerPerEpoch(V: Electorate, s0: State, as_: seq<Action>, s: State, w: Win, w': Win)
    requires Init(s0) && Reaches(V, s0, as_, s) && NeverEarly(V, s0, as_)
    requires w in s.wins && w' in s.wins && w.epoch == w'.epoch
    ensures |w.backers| >= |V(w.epoch)| / 2 + 1 && w.replica == w'.replica
  {
    hide Reaches, NeverEarly;
    RunStaysFresh(V, s0, as_, s);
    MajorityIffEarned(V, s0, as_, s, w);
    MajorityIffEarned(V, s0, as_, s, w');
    ElectionSafety(V, s0, as_, s, w, w');
  }

  // ----- a replica never loses its master

  /** What clusterUpdateSlotsConfigWith dereferences: this node, or the master it replicates. */
  predicate HasMaster(n: Node) {
    n.me in n.peers ==> Self(n).master || Self(n).slaveof.Some?
  }

  lemma UpdateSlotsKeepsMaster(n: Node, sender: NodeId, c: Claim)
    requires n.me in n.peers && HasMaster(n)
    ensures HasMaster(UpdateSlots(n, sender, c)) && UpdateSlots(n, sender, c).me == n.me
  {
    hide SlotsOf, RebindAll;
  }

  lemma PingKeepsMaster(n: Node, h: Header)
    requires n.me in n.peers && HasMaster(n) && h.sender != n.me
    ensures HasMaster(ReceivePing(n, h))
  {
    hide UpdateSlots, ClaimDiffers;
    if h.sender in n.peers {
      var n2 := NoteRole(NoteEpochs(n, h), h);
      assert HasMaster(n2);
      UpdateSlotsKeepsMaster(n2, h.sender, Claim(h.configEpoch, h.slots));
    }
  }

  lemma UpdateKeepsMaster(n: Node, h: Header, about: NodeId, c: Claim)
    requires n.me in n.peers && HasMaster(n)
    ensures HasMaster(ReceiveUpdate(n, h, about, c))
  {
    hide UpdateSlots;
    var n1 := NoteEpochs(n, h);
    assert HasMaster(n1);
    if h.sender in n.peers && about in n.peers {
      var a := n1.peers[about];
      var a' := if a.master then a else a.(master := true, slaveof := None);
      var n2 := WithPeer(n1, about, a'.(configEpoch := c.epoch));
      assert HasMaster(n2);
      UpdateSlotsKeepsMaster(n2, about, c);
    }
  }

  lemma OthersKeepMaster(n: Node, h: Header, t: Tick, m: Epoch, p: NodeId, failed: bool)
    requires n.me in n.peers && HasMaster(n)
    ensures HasMaster(ReceiveAck(n, h)) && HasMaster(HandleSlaveFailover(n, t).0) && HasMaster(BumpEpoch(n, m))
    ensures HasMaster(Learn(n, p)) && HasMaster(Forget(n, p)) && HasMaster(SetFailed(n, p, failed))
  {
    hide MayFailover, CountsAck, DropSlots;
    assert HasMaster(NoteEpochs(n, h));
    if MayFailover(n, t) {
      TickKeepsMaster(n, t);
    }
  }

  lemma TickKeepsMaster(n: Node, t: Tick)
    requires n.me in n.peers && MayFailover(n, t)
    ensures HasMaster(HandleSlaveFailover(n, t).0)
  {
  }

  lemma VoteKeepsMaster(n: Node, h: Header, now: int, timeout: int)
    requires Wf(n) && HasMaster(n)
    ensures HasMaster(ReceiveAuthRequest(n, h, now, timeout).0)
  {
    hide CanVote;
    WfNoteEpochs(n, h);
    var n1 := NoteEpochs(n, h);
    assert HasMaster(n1);
    if h.sender in n.peers && CanVote(n1, h, now, timeout) {
      VoterHasMaster(n1, h, now, timeout);
    }
  }

  lemma VoterHasMaster(n: Node, h: Header, now: int, timeout: int)
    requires Wf(n) && HasMaster(n) && h.sender in n.peers && CanVote(n, h, now, timeout)
    ensures HasMaster(CastVote(n, n.peers[h.sender].slaveof.value, now))
  {
  }

  lemma StepKeepsMasters(V: Electorate, s: State, a: Action)
    requires Enabled(V, s, a) && NodesOk(s) && forall i :: i in s.nodes ==> HasMaster(s.nodes[i])
    ensures forall i :: i in Apply(V, s, a).nodes ==> HasMaster(Apply(V, s, a).nodes[i])
  {
    hide HandleSlaveFailover, ReceivePing, ReceiveUpdate, ReceiveAuthRequest, NotePing, BuildHdr, Wf, SendsUpdateAbout,
      ReceiveAck,
      CountsAck, NoteEpochs, BumpEpoch, Learn, Forget, SetFailed, IsMaxEpoch, SlotsOf, HasMaster, Dominated;
    var n := s.nodes[a.i];
    assert n.me in n.peers && n.me == a.i by { NodeOkMe(n); }
    match a
    case SendPing(i) =>
    case RecvPing(i, h, _) => PingKeepsMaster(n, h);
    case RecvUpdate(i, h, about, c) => UpdateKeepsMaster(n, h, about, c);
    case RecvRequest(i, h, now, timeout) => VoteKeepsMaster(n, h, now, timeout);
    case RecvAck(i, h) => OthersKeepMaster(n, h, ANY_TICK, 0, 0, false);
    case Failover(i, t) => OthersKeepMaster(n, ANY_HEADER, t, 0, 0, false);
    case Bump(i, m) => OthersKeepMaster(n, ANY_HEADER, ANY_TICK, m, 0, false);
    case Learning(i, p) => OthersKeepMaster(n, ANY_HEADER, ANY_TICK, 0, p, false);
    case Forgetting(i, p) => OthersKeepMaster(n, ANY_HEADER, ANY_TICK, 0, p, false);
    case Failing(i, p, failed) => OthersKeepMaster(n, ANY_HEADER, ANY_TICK, 0, p, failed);
  }

  const ANY_TICK: Tick := Tick(0, 0, 0, false, false, false, false, 0, 0)
  const ANY_HEADER: Header := Header(0, 0, 0, {}, None, false)

  /** In every run a node is a master or knows one, so that its current master is there to be looked at when its slots
      are taken. */
  lemma {:induction false} ReplicaHasMaster(V: Electorate, s: State, as_: seq<Action>, s': State)
    requires Inv(V, s) && Reaches(V, s, as_, s') && forall i :: i in s.nodes ==> HasMaster(s.nodes[i])
    ensures forall i :: i in s'.nodes ==> HasMaster(s'.nodes[i])
    decreases |as_|
  {
    hide HasMaster, Enabled, Apply;
    if as_ != [] {
      StepKeepsInv(V, s, as_[0]);
      StepKeepsMasters(V, s, as_[0]);
      ReplicaHasMaster(V, Apply(V, s, as_[0]), as_[1..], s');
    }
  }
}
