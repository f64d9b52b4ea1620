/** The bus handlers as src/cluster.c writes them: updates in place of the
    fields of `server.cluster`, early returns, loops over slots and nodes. Each
    is proved to compute the function of the same step in ClusterBus. */
module ClusterHandlers {
  import opened Common
  import opened SlotClaims
  import opened ClusterBus

  class Cluster {
    const me: NodeId
    var currentEpoch: Epoch
    var lastVoteEpoch: Epoch
    var authEpoch: Epoch
    var authCount: nat
    var authSent: bool
    var authTime: int
    var peers: map<NodeId, Peer>
    var owner: seq<Option<NodeId>>
    var importing: set<nat>

    function Abs(): Node
      reads this
    {
      Node(me, currentEpoch, lastVoteEpoch, authEpoch, authCount, authSent, authTime, peers, owner, importing)
    }

    constructor (n: Node)
      ensures Abs() == n
    {
      me := n.me;
      currentEpoch, lastVoteEpoch := n.currentEpoch, n.lastVoteEpoch;
      authEpoch, authCount, authSent, authTime := n.authEpoch, n.authCount, n.authSent, n.authTime;
      peers, owner, importing := n.peers, n.owner, n.importing;
    }

    /** clusterGetMaxEpoch: a scan of the nodes dictionary. */
    method GetMaxEpoch() returns (max: Epoch)
      ensures IsMaxEpoch(Abs(), max)
    {
      max := 0;
      var todo := peers.Keys;
      while todo != {}
        invariant todo <= peers.Keys
        invariant forall p :: p in peers && p !in todo ==> peers[p].configEpoch <= max
        invariant max == 0 || exists p :: p in peers && peers[p].configEpoch == max
        decreases |todo|
      {
        var p :| p in todo;
        if peers[p].configEpoch > max { max := peers[p].configEpoch; }
        todo := todo - {p};
      }
      if max < currentEpoch { max := currentEpoch; }
    }

    /** clusterBumpConfigEpochWithoutConsensus */
    method BumpConfigEpochWithoutConsensus() returns (ok: bool)
      requires me in peers
      modifies this
      ensures exists m :: IsMaxEpoch(old(Abs()), m) && Abs() == BumpEpoch(old(Abs()), m) &&
                          (ok <==> old(peers[me].configEpoch == 0 || peers[me].configEpoch != m))
    {
      var maxEpoch := GetMaxEpoch();
      ok := peers[me].configEpoch == 0 || peers[me].configEpoch != maxEpoch;
      if ok {
        currentEpoch := currentEpoch + 1;
        peers := peers[me := peers[me].(configEpoch := currentEpoch)];
      }
    }

    /** clusterHandleConfigEpochCollision */
    method HandleConfigEpochCollision(sender: NodeId)
      requires me in peers && sender in peers
      modifies this
      ensures Abs() == ResolveCollision(old(Abs()), sender)
    {
      if peers[sender].configEpoch != peers[me].configEpoch || !peers[sender].master || !peers[me].master { return; }
      if sender <= me { return; }
      currentEpoch := currentEpoch + 1;
      peers := peers[me := peers[me].(configEpoch := currentEpoch)];
    }

    /** The epoch block at the head of clusterProcessPacket. */
    method ProcessHeader(h: Header) returns (known: bool)
      modifies this
      ensures known == (h.sender in old(peers)) && Abs() == NoteEpochs(old(Abs()), h)
    {
      known := h.sender in peers;
      if known {
        if h.currentEpoch > currentEpoch { currentEpoch := h.currentEpoch; }
        if h.configEpoch > peers[h.sender].configEpoch {
          peers := peers[h.sender := peers[h.sender].(configEpoch := h.configEpoch)];
        }
        assert old(peers)[h.sender := old(peers)[h.sender]] == old(peers);
      }
    }

    /** The slot test of the voter: no claimed slot is served under a greater epoch. */
    method ClaimIsCurrent(claimed: set<nat>, epoch: Epoch) returns (ok: bool)
      requires Wf(Abs())
      ensures ok <==>
              forall j :: 0 <= j < CLUSTER_SLOTS && j in claimed && owner[j].Some? ==>
                            peers[owner[j].value].configEpoch <= epoch
    {
      for j := 0 to CLUSTER_SLOTS
        invariant forall k :: 0 <= k < j && k in claimed && owner[k].Some? ==>
                    peers[owner[k].value].configEpoch <= epoch
      {
        if j in claimed && owner[j].Some? && peers[owner[j].value].configEpoch > epoch { return false; }
      }
      return true;
    }

    method ServesSlots(p: NodeId) returns (r: bool)
      ensures r <==> SlotsOf(Abs(), p) != {}
    {
      for j := 0 to |owner|
        invariant forall k :: 0 <= k < j ==> owner[k] != Some(p)
      {
        if owner[j] == Some(p) {
          assert j in SlotsOf(Abs(), p);
          return true;
        }
      }
      return false;
    }

    /** FAILOVER_AUTH_REQUEST: header, then clusterSendFailoverAuthIfNeeded. */
    method ProcessAuthRequest(h: Header, now: int, nodeTimeout: int) returns (granted: bool)
      requires Wf(Abs())
      modifies this
      ensures (Abs(), granted) == ReceiveAuthRequest(old(Abs()), h, now, nodeTimeout)
    {
      hide OwnedBy;
      WfNoteEpochs(Abs(), h);
      granted := false;
      var known := ProcessHeader(h);
      if !known { return; }
      var voter := ServesSlots(me);
      if !peers[me].master || !voter { return; }
      if h.currentEpoch < currentEpoch { return; }
      if lastVoteEpoch == currentEpoch { return; }
      var r := peers[h.sender];
      if r.master || r.slaveof == None { return; }
      var master := r.slaveof.value;
      if !peers[master].failed && !h.forceAck { return; }
      if now - peers[master].votedTime < nodeTimeout * 2 { return; }
      var ok := ClaimIsCurrent(h.slots, h.configEpoch);
      if !ok { return; }
      lastVoteEpoch := currentEpoch;
      peers := peers[master := peers[master].(votedTime := now)];
      granted := true;
    }

    /** FAILOVER_AUTH_ACK */
    method ProcessAuthAck(h: Header)
      modifies this
      ensures Abs() == ReceiveAck(old(Abs()), h)
    {
      hide OwnedBy;
      var known := ProcessHeader(h);
      if !known { return; }
      var voter := ServesSlots(h.sender);
      if peers[h.sender].master && voter && h.currentEpoch >= authEpoch {
        authCount := authCount + 1;
      }
    }

    /** Step 2 of clusterFailoverReplaceYourMaster. */
    method ClaimSlotsOf(master: NodeId)
      modifies this`owner
      ensures owner == seq(|old(owner)|, j requires 0 <= j < |old(owner)| =>
                         if old(owner)[j] == Some(master) then Some(me) else old(owner)[j])
    {
      for j := 0 to |owner|
        invariant |owner| == |old(owner)|
        invariant forall k :: 0 <= k < j ==>
                    owner[k] == if old(owner)[k] == Some(master) then Some(me) else old(owner)[k]
        invariant forall k :: j <= k < |owner| ==> owner[k] == old(owner)[k]
      {
        if owner[j] == Some(master) { owner := owner[j := Some(me)]; }
      }
    }

    /** The won election: adopt its epoch, then clusterFailoverReplaceYourMaster. */
    method ReplaceMaster(master: NodeId)
      requires me in peers && peers[me].slaveof == Some(master)
      modifies this
      ensures Abs() == TakeOver(old(Abs()))
    {
      if peers[me].configEpoch < authEpoch { peers := peers[me := peers[me].(configEpoch := authEpoch)]; }
      peers := peers[me := peers[me].(master := true, slaveof := None)];
      ClaimSlotsOf(master);
      assert peers == TakeOver(old(Abs())).peers;
      assert owner == TakeOver(old(Abs())).owner;
    }

    /** clusterHandleSlaveFailover, with the takeover of clusterFailoverReplaceYourMaster. */
    method FailoverTick(t: Tick) returns (o: Outcome)
      requires Wf(Abs())
      modifies this
      ensures (Abs(), o) == HandleSlaveFailover(old(Abs()), t)
    {
      hide OwnedBy, TakeOver;
      o := Idle;
      var authAge := t.now - authTime;
      var neededQuorum := t.size / 2 + 1;
      var authTimeout := t.nodeTimeout * 2;
      if authTimeout < 2000 { authTimeout := 2000; }
      var authRetryTime := authTimeout * 2;
      if peers[me].master || peers[me].slaveof == None { return; }
      var master := peers[me].slaveof.value;
      var serving := ServesSlots(master);
      if (!peers[master].failed && !t.manual) || (t.noFailover && !t.manual) || !serving { return; }
      if t.tooOld && !t.manual { return; }
      if authAge > authRetryTime {
        authTime := t.now + 500 + t.delay;
        authCount := 0;
        authSent := false;
        if t.mfEnd { authTime := t.now; }
        return Scheduled;
      }
      if !authSent && !t.mfEnd { authTime := authTime + t.addedDelay; }
      if t.now < authTime { return; }
      if authAge > authTimeout { return; }
      if !authSent {
        currentEpoch := currentEpoch + 1;
        authEpoch := currentEpoch;
        authSent := true;
        return Requested;
      }
      if authCount >= neededQuorum {
        ReplaceMaster(master);
        o := Won;
      }
    }

    /** The rebinding loop of clusterUpdateSlotsConfigWith; `taken` is its `newmaster`. */
    method RebindLoop(sender: NodeId, c: Claim, cur: Option<NodeId>) returns (taken: bool)
      modifies this`owner
      ensures owner == RebindAll(ViewOf(old(Abs())), importing, sender, c)
      ensures taken <==> cur.Some? && cur.value != sender &&
                         exists j :: 0 <= j < |old(owner)| && old(owner)[j] == cur && owner[j] == Some(sender)
    {
      taken := false;
      ghost var v := ViewOf(Abs());
      for j := 0 to |owner|
        invariant |owner| == |old(owner)|
        invariant forall k :: 0 <= k < j ==> owner[k] == RebindAll(v, importing, sender, c)[k]
        invariant forall k :: j <= k < |owner| ==> owner[k] == old(owner)[k]
        invariant taken <==> cur.Some? && cur.value != sender &&
                             exists k :: 0 <= k < j && old(owner)[k] == cur && owner[k] == Some(sender)
      {
        var o := owner[j];
        var e := if o.Some? && o.value in peers then peers[o.value].configEpoch else 0;
        if j in c.slots && o != Some(sender) && j !in importing && (o == None || e < c.epoch) {
          if cur.Some? && o == cur { taken := true; }
          owner := owner[j := Some(sender)];
        }
      }
    }

    /** clusterUpdateSlotsConfigWith */
    method UpdateSlotsConfigWith(sender: NodeId, c: Claim)
      requires Wf(Abs()) && sender in peers
      modifies this
      ensures Abs() == UpdateSlots(old(Abs()), sender, c) && peers.Keys == old(peers.Keys)
    {
      hide OwnedBy, Rebinds;
      if sender == me { return; }
      var cur := if peers[me].master then Some(me) else peers[me].slaveof;
      var taken := RebindLoop(sender, c, cur);
      if !taken { return; }
      var serving := ServesSlots(cur.value);
      if !serving {
        if peers[me].master { importing := {}; }
        peers := peers[me := peers[me].(master := false, slaveof := Some(sender))];
      }
    }

    /** The role block of clusterProcessPacket. */
    method ProcessRole(h: Header)
      requires h.sender in peers
      modifies this
      ensures Abs() == NoteRole(old(Abs()), h)
    {
      var s := peers[h.sender];
      if h.slaveof == None {
        if s.master { return; }
        peers := peers[h.sender := s.(master := true, slaveof := None)];
      } else {
        if s.master {
          for j := 0 to |owner|
            invariant |owner| == |old(owner)| && peers == old(peers)
            invariant forall k :: 0 <= k < j ==> owner[k] == DropSlots(old(owner), h.sender)[k]
            invariant forall k :: j <= k < |owner| ==> owner[k] == old(owner)[k]
            invariant Abs() == old(Abs()).(owner := owner)
          {
            if owner[j] == Some(h.sender) { owner := owner[j := None]; }
          }
          assert owner == DropSlots(old(owner), h.sender);
          s := s.(master := false);
        }
        if h.slaveof.value in peers && s.slaveof != h.slaveof { s := s.(slaveof := h.slaveof); }
        peers := peers[h.sender := s];
      }
    }

    /** Whether the sender, or the master it replicates, is on record with other slots. */
    method SlotsDiffer(h: Header) returns (dirty: bool)
      requires h.sender in peers
      ensures dirty == ClaimDiffers(Abs(), h)
    {
      var m := if peers[h.sender].master then Some(h.sender) else peers[h.sender].slaveof;
      dirty := m.Some? && (set j | 0 <= j < |owner| && owner[j] == m) != h.slots;
    }

    /** PING and PONG from a known sender. */
    method ProcessPing(h: Header)
      requires Wf(Abs())
      modifies this
      ensures Abs() == ReceivePing(old(Abs()), h)
    {
      hide OwnedBy, Rebinds, NoteEpochs, NoteRole, UpdateSlots, ClaimDiffers;
      ghost var n := Abs();
      PeersNoted(n, h);
      var known := ProcessHeader(h);
      if !known { return; }
      WfNoteEpochs(n, h);
      WfNoteRole(Abs(), h);
      ProcessRole(h);
      var dirty := SlotsDiffer(h);
      if peers[h.sender].master && dirty {
        UpdateSlotsConfigWith(h.sender, Claim(h.configEpoch, h.slots));
      }
      if peers[me].master && peers[h.sender].master && h.configEpoch == peers[me].configEpoch {
        HandleConfigEpochCollision(h.sender);
      }
    }

    lemma WfMe(n: Node)
      requires Wf(n)
      ensures n.me in n.peers
    {
    }

    lemma WfAt(n: Node, p: NodeId)
      requires Wf(n) && p in n.peers
      ensures n.peers[p].slaveof.Some? ==> n.peers[p].slaveof.value in n.peers
    {
    }

    lemma PeersNoted(n: Node, h: Header)
      ensures h.sender !in n.peers ==> NoteEpochs(n, h) == n
      ensures NoteEpochs(n, h).peers.Keys == n.peers.Keys && NoteEpochs(n, h).me == n.me
    {
    }

    /** UPDATE */
    method ProcessUpdate(h: Header, about: NodeId, c: Claim)
      requires Wf(Abs())
      modifies this
      ensures Abs() == ReceiveUpdate(old(Abs()), h, about, c)
    {
      hide OwnedBy, Rebinds, NoteEpochs, UpdateSlots, Wf;
      ghost var n := Abs();
      WfMe(n);
      PeersNoted(n, h);
      WfNoteEpochs(n, h);
      var known := ProcessHeader(h);
      if !known { return; }
      if about !in peers { return; }
      if peers[about].configEpoch >= c.epoch { return; }
      ghost var n1 := Abs();
      if !peers[about].master { peers := peers[about := peers[about].(master := true, slaveof := None)]; }
      peers := peers[about := peers[about].(configEpoch := c.epoch)];
      ghost var a := n1.peers[about];
      ghost var a' := if a.master then a else a.(master := true, slaveof := None);
      assert Abs() == WithPeer(n1, about, a'.(configEpoch := c.epoch));
      WfAt(n1, about);
      WfWithPeer(n1, about, a'.(configEpoch := c.epoch));
      UpdateSlotsConfigWith(about, c);
    }
  }
}
