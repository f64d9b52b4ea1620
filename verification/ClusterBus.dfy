/** What one cluster node does with each bus message and on each failover tick
    (src/cluster.c), as functions on the node's part of `server.cluster`. Epochs
    are unbounded; every other branch is the source's. */
module ClusterBus {
  import opened Common
  import opened SlotClaims

  /** A clusterNode as another node knows it. */
  datatype Peer = Peer(configEpoch: Epoch, master: bool, slaveof: Option<NodeId>, failed: bool, votedTime: int)

  datatype Node = Node(
    me: NodeId,
    currentEpoch: Epoch,
    lastVoteEpoch: Epoch,
    authEpoch: Epoch,          // failover_auth_epoch
    authCount: nat,            // failover_auth_count
    authSent: bool,            // failover_auth_sent
    authTime: int,             // failover_auth_time
    peers: map<NodeId, Peer>,  // nodes, `myself` included
    owner: seq<Option<NodeId>>,
    importing: set<nat>)

  /** The header every message starts with. */
  datatype Header = Header(sender: NodeId, currentEpoch: Epoch, configEpoch: Epoch, slots: set<nat>,
                           slaveof: Option<NodeId>, forceAck: bool)

  /** Pointers lead to known nodes. */
  ghost predicate Wf(n: Node) {
    n.me in n.peers && |n.owner| == CLUSTER_SLOTS &&
    (forall p :: p in n.peers && n.peers[p].slaveof.Some? ==> n.peers[p].slaveof.value in n.peers) &&
    (forall j :: 0 <= j < |n.owner| && n.owner[j].Some? ==> n.owner[j].value in n.peers)
  }

  function Self(n: Node): Peer
    requires n.me in n.peers
  {
    n.peers[n.me]
  }

  function ViewOf(n: Node): View {
    View(n.owner, map p | p in n.peers :: n.peers[p].configEpoch)
  }

  function SlotsOf(n: Node, p: NodeId): set<nat> {
    OwnedBy(ViewOf(n), p)
  }

  function WithPeer(n: Node, p: NodeId, q: Peer): Node {
    n.(peers := n.peers[p := q])
  }

  // ----- sending

  /** A replica publishes its master's configuration. */
  function Published(n: Node): NodeId
    requires n.me in n.peers
  {
    if !Self(n).master && Self(n).slaveof.Some? then Self(n).slaveof.value else n.me
  }

  /** clusterBuildMessageHdr */
  function BuildHdr(n: Node, forceAck: bool): Header
    requires n.me in n.peers && Published(n) in n.peers
  {
    Header(n.me, n.currentEpoch, n.peers[Published(n)].configEpoch, SlotsOf(n, Published(n)), Self(n).slaveof, forceAck)
  }

  // ----- receiving

  /** The epoch part of clusterProcessPacket, done for every message of a known sender. */
  function NoteEpochs(n: Node, h: Header): Node {
    if h.sender !in n.peers then n
    else
      var s := n.peers[h.sender];
      WithPeer(n, h.sender, s.(configEpoch := Max(s.configEpoch, h.configEpoch)))
        .(currentEpoch := Max(n.currentEpoch, h.currentEpoch))
  }

  function DropSlots(owner: seq<Option<NodeId>>, p: NodeId): (r: seq<Option<NodeId>>)
    ensures |r| == |owner|
  {
    seq(|owner|, j requires 0 <= j < |owner| => if owner[j] == Some(p) then None else owner[j])
  }

  /** A sender may have been promoted, demoted, or moved under another master. */
  function NoteRole(n: Node, h: Header): Node
    requires h.sender in n.peers
  {
    var s := n.peers[h.sender];
    match h.slaveof
    case None => if s.master then n else WithPeer(n, h.sender, s.(master := true, slaveof := None))
    case Some(m) =>
      var n1 := if s.master then n.(owner := DropSlots(n.owner, h.sender)) else n;
      WithPeer(n1, h.sender, s.(master := false, slaveof := if m in n.peers then Some(m) else s.slaveof))
  }

  /** clusterUpdateSlotsConfigWith: rebind, then become a replica of the sender
      if it took the last slot of this node or of its master. */
  function UpdateSlots(n: Node, sender: NodeId, c: Claim): Node
    requires n.me in n.peers
  {
    if sender == n.me then n
    else
      var owner' := RebindAll(ViewOf(n), n.importing, sender, c);
      var n1 := n.(owner := owner');
      var cur := if Self(n).master then Some(n.me) else Self(n).slaveof;
      if cur.Some? && cur.value != sender && SlotsOf(n1, cur.value) == {} &&
         exists j :: 0 <= j < |n.owner| && n.owner[j] == cur && owner'[j] == Some(sender)
      then WithPeer(n1, n.me, Self(n).(master := false, slaveof := Some(sender)))
             .(importing := if Self(n).master then {} else n.importing)
      else n1
  }

  /** clusterHandleConfigEpochCollision */
  function ResolveCollision(n: Node, sender: NodeId): Node
    requires n.me in n.peers && sender in n.peers
  {
    if n.peers[sender].configEpoch != Self(n).configEpoch || !n.peers[sender].master || !Self(n).master ||
       sender <= n.me
    then n
    else TakeNewEpoch(n)
  }

  /** Raise the current epoch by one and adopt it as this node's configEpoch. */
  function TakeNewEpoch(n: Node): Node
    requires n.me in n.peers
  {
    WithPeer(n, n.me, Self(n).(configEpoch := n.currentEpoch + 1)).(currentEpoch := n.currentEpoch + 1)
  }

  predicate Outdates(n: Node, o: Option<NodeId>, h: Header) {
    o.Some? && o.value != h.sender && o.value in n.peers && n.peers[o.value].configEpoch > h.configEpoch
  }

  /** The first owner, by slot, whose epoch shows the sender's claim to be old. */
  ghost predicate SendsUpdateAbout(n: Node, h: Header, p: NodeId) {
    exists j :: 0 <= j < |n.owner| && j in h.slots && n.owner[j] == Some(p) && Outdates(n, n.owner[j], h) &&
      forall k :: 0 <= k < j && k in h.slots ==> !Outdates(n, n.owner[k], h)
  }

  predicate ClaimDiffers(n: Node, h: Header)
    requires h.sender in n.peers
  {
    var m := if n.peers[h.sender].master then Some(h.sender) else n.peers[h.sender].slaveof;
    m.Some? && SlotsOf(n, m.value) != h.slots
  }

  /** PING, PONG, up to the scan for an outdated claim. */
  function NotePing(n: Node, h: Header): Node
    requires n.me in n.peers && h.sender in n.peers
  {
    var n2 := NoteRole(NoteEpochs(n, h), h);
    if n2.peers[h.sender].master && ClaimDiffers(n2, h)
    then UpdateSlots(n2, h.sender, Claim(h.configEpoch, h.slots)) else n2
  }

  /** PING and PONG as a whole. */
  function ReceivePing(n: Node, h: Header): Node
    requires n.me in n.peers
  {
    if h.sender !in n.peers then n
    else
      var n3 := NotePing(n, h);
      if Self(n3).master && n3.peers[h.sender].master && h.configEpoch == Self(n3).configEpoch
      then ResolveCollision(n3, h.sender) else n3
  }

  /** UPDATE about node `about`. */
  function ReceiveUpdate(n: Node, h: Header, about: NodeId, c: Claim): Node
    requires n.me in n.peers
  {
    var n1 := NoteEpochs(n, h);
    if h.sender !in n.peers || about !in n.peers || n1.peers[about].configEpoch >= c.epoch then n1
    else
      var a := n1.peers[about];
      var a' := if a.master then a else a.(master := true, slaveof := None);
      UpdateSlots(WithPeer(n1, about, a'.(configEpoch := c.epoch)), about, c)
  }

  /** The conditions clusterSendFailoverAuthIfNeeded checks, after the epochs are noted. */
  ghost predicate CanVote(n: Node, h: Header, now: int, nodeTimeout: int)
    requires Wf(n) && h.sender in n.peers
  {
    var r := n.peers[h.sender];
    Self(n).master && SlotsOf(n, n.me) != {} &&
    h.currentEpoch >= n.currentEpoch &&
    n.lastVoteEpoch != n.currentEpoch &&
    !r.master && r.slaveof.Some? &&
    (n.peers[r.slaveof.value].failed || h.forceAck) &&
    now - n.peers[r.slaveof.value].votedTime >= nodeTimeout * 2 &&
    forall j :: 0 <= j < CLUSTER_SLOTS && j in h.slots && n.owner[j].Some? ==>
                  n.peers[n.owner[j].value].configEpoch <= h.configEpoch
  }

  function CastVote(n: Node, master: NodeId, now: int): Node
    requires master in n.peers
  {
    WithPeer(n, master, n.peers[master].(votedTime := now)).(lastVoteEpoch := n.currentEpoch)
  }

  /** FAILOVER_AUTH_REQUEST: the node and whether it acknowledged. */
  ghost function ReceiveAuthRequest(n: Node, h: Header, now: int, nodeTimeout: int): (r: (Node, bool))
    requires Wf(n)
  {
    WfNoteEpochs(n, h);
    var n1 := NoteEpochs(n, h);
    if h.sender in n.peers && CanVote(n1, h, now, nodeTimeout)
    then (CastVote(n1, n1.peers[h.sender].slaveof.value, now), true) else (n1, false)
  }

  /** FAILOVER_AUTH_ACK is counted when its sender looks like a voter and its
      epoch is not behind this node's election. */
  predicate CountsAck(n: Node, h: Header) {
    h.sender in n.peers && n.peers[h.sender].master && SlotsOf(n, h.sender) != {} && h.currentEpoch >= n.authEpoch
  }

  function ReceiveAck(n: Node, h: Header): Node {
    var n1 := NoteEpochs(n, h);
    if CountsAck(n1, h) then n1.(authCount := n1.authCount + 1) else n1
  }

  // ----- acting

  /** clusterGetMaxEpoch */
  ghost predicate IsMaxEpoch(n: Node, m: Epoch) {
    m >= n.currentEpoch && (forall p :: p in n.peers ==> n.peers[p].configEpoch <= m) &&
    (m == n.currentEpoch || exists p :: p in n.peers && n.peers[p].configEpoch == m)
  }

  /** clusterBumpConfigEpochWithoutConsensus, given the maximum it computes. */
  function BumpEpoch(n: Node, maxEpoch: Epoch): Node
    requires n.me in n.peers
  {
    if Self(n).configEpoch == 0 || Self(n).configEpoch != maxEpoch then TakeNewEpoch(n) else n
  }

  /** Everything clusterHandleSlaveFailover reads besides the node itself. */
  datatype Tick = Tick(now: int, nodeTimeout: int, size: nat, manual: bool, mfEnd: bool, noFailover: bool,
                       tooOld: bool, delay: nat, addedDelay: nat)

  datatype Outcome = Idle | Scheduled | Requested | Won

  predicate MayFailover(n: Node, t: Tick)
    requires n.me in n.peers
  {
    !Self(n).master && Self(n).slaveof.Some? && Self(n).slaveof.value in n.peers &&
    (n.peers[Self(n).slaveof.value].failed || t.manual) && !(t.noFailover && !t.manual) &&
    SlotsOf(n, Self(n).slaveof.value) != {} && !(t.tooOld && !t.manual)
  }

  function AuthTimeout(t: Tick): int {
    Max(t.nodeTimeout * 2, 2000)
  }

  /** The winner takes the election's epoch, turns master and claims its master's slots. */
  function TakeOver(n: Node): Node
    requires n.me in n.peers && Self(n).slaveof.Some?
  {
    var m := Self(n).slaveof;
    WithPeer(n, n.me, Self(n).(configEpoch := Max(Self(n).configEpoch, n.authEpoch), master := true, slaveof := None))
      .(owner := seq(|n.owner|, j requires 0 <= j < |n.owner| => if n.owner[j] == m then Some(n.me) else n.owner[j]))
  }

  /** clusterHandleSlaveFailover */
  function HandleSlaveFailover(n: Node, t: Tick): (r: (Node, Outcome))
    requires n.me in n.peers
  {
    var age := t.now - n.authTime;
    if !MayFailover(n, t) then (n, Idle)
    else if age > 2 * AuthTimeout(t) then
      (n.(authTime := if t.mfEnd then t.now else t.now + 500 + t.delay, authCount := 0, authSent := false), Scheduled)
    else
      var n1 := if !n.authSent && !t.mfEnd then n.(authTime := n.authTime + t.addedDelay) else n;
      if t.now < n1.authTime || age > AuthTimeout(t) then (n1, Idle)
      else if !n1.authSent then
        (n1.(currentEpoch := n1.currentEpoch + 1, authEpoch := n1.currentEpoch + 1, authSent := true), Requested)
      else if n1.authCount >= t.size / 2 + 1 then (TakeOver(n1), Won)
      else (n1, Idle)
  }

  // ----- configuration changes that carry no epoch

  /** A node learned through MEET or gossip starts at configEpoch 0. */
  function Learn(n: Node, p: NodeId): Node {
    if p in n.peers then n else WithPeer(n, p, Peer(0, true, None, false, 0))
  }

  /** CLUSTER FORGET, which refuses this node and its master, then clusterDelNode: the slots of the node become free and
      its replicas masterless. */
  function Forget(n: Node, p: NodeId): Node {
    if p == n.me || (n.me in n.peers && !Self(n).master && Self(n).slaveof == Some(p)) then n
    else n.(peers := map q | q in n.peers && q != p ::
                       if n.peers[q].slaveof == Some(p) then n.peers[q].(slaveof := None) else n.peers[q],
            owner := DropSlots(n.owner, p))
  }

  function SetFailed(n: Node, p: NodeId, failed: bool): Node {
    if p in n.peers then WithPeer(n, p, n.peers[p].(failed := failed)) else n
  }

  // ----- what every handler keeps

  /** Epoch domination at a node: no configEpoch it knows is ahead of its current epoch. */
  ghost predicate Dominated(n: Node) {
    forall p :: p in n.peers ==> n.peers[p].configEpoch <= n.currentEpoch
  }

  ghost predicate NodeOk(n: Node) {
    Wf(n) && Dominated(n) && n.lastVoteEpoch <= n.currentEpoch && n.authEpoch <= n.currentEpoch
  }

  /** Epoch domination in flight. */
  predicate HdrOk(h: Header) {
    h.configEpoch <= h.currentEpoch
  }

  /** The node moved on without voting and without touching its own election. */
  predicate Quiet(n: Node, n': Node) {
    n'.me == n.me && n'.currentEpoch >= n.currentEpoch && n'.lastVoteEpoch == n.lastVoteEpoch &&
    n'.authEpoch == n.authEpoch && n'.authCount == n.authCount && n'.authSent == n.authSent
  }

  lemma WfNoteEpochs(n: Node, h: Header)
    requires Wf(n)
    ensures Wf(NoteEpochs(n, h))
  {
  }

  lemma WfWithPeer(n: Node, p: NodeId, q: Peer)
    requires Wf(n) && p in n.peers && (q.slaveof.Some? ==> q.slaveof.value in n.peers)
    ensures Wf(WithPeer(n, p, q))
  {
  }

  lemma WfNoteRole(n: Node, h: Header)
    requires Wf(n) && h.sender in n.peers
    ensures Wf(NoteRole(n, h)) && NoteRole(n, h).peers.Keys == n.peers.Keys && NoteRole(n, h).me == n.me
  {
  }

  lemma NoteEpochsOk(n: Node, h: Header)
    requires NodeOk(n) && HdrOk(h)
    ensures NodeOk(NoteEpochs(n, h)) && Quiet(n, NoteEpochs(n, h))
  {
  }

  lemma WfRebound(n: Node, sender: NodeId, c: Claim)
    requires Wf(n) && sender in n.peers
    ensures Wf(n.(owner := RebindAll(ViewOf(n), n.importing, sender, c)))
  {
    hide Rebinds;
  }

  lemma UpdateSlotsOk(n: Node, sender: NodeId, c: Claim)
    requires NodeOk(n) && sender in n.peers
    ensures NodeOk(UpdateSlots(n, sender, c)) && Quiet(n, UpdateSlots(n, sender, c))
    ensures UpdateSlots(n, sender, c).peers.Keys == n.peers.Keys
  {
    hide Wf, RebindAll, OwnedBy;
    WfRebound(n, sender, c);
    WfMember(n);
    var n1 := n.(owner := RebindAll(ViewOf(n), n.importing, sender, c));
    WfWithPeer(n1, n.me, Self(n).(master := false, slaveof := Some(sender)));
    WfImporting(WithPeer(n1, n.me, Self(n).(master := false, slaveof := Some(sender))), {});
  }

  lemma WfMember(n: Node)
    requires Wf(n)
    ensures n.me in n.peers
  {
  }

  lemma WfImporting(n: Node, importing: set<nat>)
    requires Wf(n)
    ensures Wf(n.(importing := importing))
  {
  }

  lemma NoteRoleOk(n: Node, h: Header)
    requires NodeOk(n) && h.sender in n.peers
    ensures NodeOk(NoteRole(n, h)) && Quiet(n, NoteRole(n, h)) && NoteRole(n, h).peers.Keys == n.peers.Keys
  {
  }

  lemma NotePingOk(n: Node, h: Header)
    requires NodeOk(n) && HdrOk(h) && h.sender in n.peers
    ensures NodeOk(NotePing(n, h)) && Quiet(n, NotePing(n, h)) && h.sender in NotePing(n, h).peers
  {
    NoteEpochsOk(n, h);
    var n1 := NoteEpochs(n, h);
    NoteRoleOk(n1, h);
    var n2 := NoteRole(n1, h);
    UpdateSlotsOk(n2, h.sender, Claim(h.configEpoch, h.slots));
    hide NoteEpochs, NoteRole, UpdateSlots, ClaimDiffers;
  }

  lemma PingOk(n: Node, h: Header)
    requires NodeOk(n) && HdrOk(h)
    ensures NodeOk(ReceivePing(n, h)) && Quiet(n, ReceivePing(n, h))
  {
    if h.sender in n.peers { NotePingOk(n, h); }
  }

  lemma UpdateOk(n: Node, h: Header, about: NodeId, c: Claim)
    requires NodeOk(n) && HdrOk(h) && c.epoch <= h.currentEpoch
    ensures NodeOk(ReceiveUpdate(n, h, about, c)) && Quiet(n, ReceiveUpdate(n, h, about, c))
  {
    NoteEpochsOk(n, h);
    var n1 := NoteEpochs(n, h);
    if h.sender in n.peers && about in n.peers && n1.peers[about].configEpoch < c.epoch {
      var a := n1.peers[about];
      var a' := if a.master then a else a.(master := true, slaveof := None);
      UpdateSlotsOk(WithPeer(n1, about, a'.(configEpoch := c.epoch)), about, c);
    }
  }

  /** A fresh epoch is above every configEpoch the node knows of. */
  lemma FreshEpochExceedsAll(n: Node, p: NodeId)
    requires NodeOk(n) && p in n.peers
    ensures n.peers[p].configEpoch < Self(TakeNewEpoch(n)).configEpoch
    ensures NodeOk(TakeNewEpoch(n)) && Quiet(n, TakeNewEpoch(n))
  {
  }

  lemma BookkeepingOk(n: Node, p: NodeId, failed: bool)
    requires NodeOk(n)
    ensures NodeOk(Learn(n, p)) && Quiet(n, Learn(n, p))
    ensures NodeOk(Forget(n, p)) && Quiet(n, Forget(n, p))
    ensures NodeOk(SetFailed(n, p, failed)) && Quiet(n, SetFailed(n, p, failed))
  {
  }

  lemma BuildHdrOk(n: Node, forceAck: bool)
    requires NodeOk(n)
    ensures HdrOk(BuildHdr(n, forceAck)) && BuildHdr(n, forceAck).sender == n.me
  {
  }

  /** A vote is cast at exactly the request's epoch, later than every earlier vote. */
  lemma VoteOk(n: Node, h: Header, now: int, nodeTimeout: int)
    requires NodeOk(n) && HdrOk(h)
    ensures var r := ReceiveAuthRequest(n, h, now, nodeTimeout);
            NodeOk(r.0) && (!r.1 ==> Quiet(n, r.0)) &&
            (r.1 ==> r.0.me == n.me && r.0.currentEpoch == h.currentEpoch == r.0.lastVoteEpoch &&
                     n.lastVoteEpoch < h.currentEpoch && n.currentEpoch <= h.currentEpoch &&
                     r.0.authEpoch == n.authEpoch && r.0.authCount == n.authCount && r.0.authSent == n.authSent)
  {
    NoteEpochsOk(n, h);
  }

  lemma AckOk(n: Node, h: Header)
    requires NodeOk(n) && HdrOk(h)
    ensures NodeOk(ReceiveAck(n, h))
    ensures Quiet(n.(authCount := ReceiveAck(n, h).authCount), ReceiveAck(n, h))
    ensures ReceiveAck(n, h).authCount == n.authCount + if CountsAck(NoteEpochs(n, h), h) then 1 else 0
  {
    NoteEpochsOk(n, h);
  }

  /** What a failover tick may do to the election, outcome by outcome. */
  lemma FailoverOk(n: Node, t: Tick)
    requires NodeOk(n)
    ensures var (n', o) := HandleSlaveFailover(n, t);
            NodeOk(n') && n'.me == n.me && n'.lastVoteEpoch == n.lastVoteEpoch &&
            match o
            case Idle => Quiet(n, n')
            case Scheduled => n'.currentEpoch == n.currentEpoch && n'.authEpoch == n.authEpoch &&
                              n'.authCount == 0 && !n'.authSent
            case Requested => n'.authEpoch == n'.currentEpoch == n.currentEpoch + 1 && n'.authCount == n.authCount &&
                              !n.authSent && n'.authSent &&
                              forall p :: p in n.peers ==> n.peers[p].configEpoch < n'.authEpoch
            case Won => Quiet(n, n') && n.authSent && n.authCount >= t.size / 2 + 1
  {
  }
}
