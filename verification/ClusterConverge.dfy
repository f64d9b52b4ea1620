/** The slot steps of a whole cluster node are those of its view, so that the claims converge at the node itself. */
module ClusterConverge {
  import opened Common
  import opened SlotClaims
  import opened ClusterBus

  datatype Message = Ping(h: Header) | Update(h: Header, about: NodeId, c: Claim)

  function Receive(n: Node, m: Message): Node
    requires n.me in n.peers
  {
    match m
    case Ping(h) => ReceivePing(n, h)
    case Update(h, about, c) => ReceiveUpdate(n, h, about, c)
  }

  predicate SameNodes(n: Node, m: Node) {
    n.me == m.me && n.peers.Keys == m.peers.Keys
  }

  /** A header of another node: a claimant's carries the epoch it claims. */
  predicate FromOther(h: Header, me: NodeId, claims: map<NodeId, Claim>) {
    h.sender != me && (h.sender in claims ==> h.configEpoch == claims[h.sender].epoch)
  }

  /** A ping of a claimant with its claim, a ping of a replica, or an UPDATE about a claimant from a known node. */
  predicate Carries(m: Message, n: Node, claims: map<NodeId, Claim>) {
    FromOther(m.h, n.me, claims) &&
    match m
    case Ping(h) =>
      if h.sender in claims then h.slaveof == None && h.slots == claims[h.sender].slots else h.slaveof.Some?
    case Update(h, about, c) => h.sender in n.peers && about in claims && c == claims[about]
  }

  lemma ViewWithPeer(n: Node, p: NodeId, q: Peer)
    requires p in n.peers && q.configEpoch == n.peers[p].configEpoch
    ensures ViewOf(WithPeer(n, p, q)) == ViewOf(n)
  {
  }

  lemma NotedView(n: Node, h: Header)
    requires h.sender in n.peers
    ensures var v := ViewOf(n);
            ViewOf(NoteEpochs(n, h)) == v.(epochs := v.epochs[h.sender := Max(v.epochs[h.sender], h.configEpoch)])
  {
    var e := Max(n.peers[h.sender].configEpoch, h.configEpoch);
    assert ViewOf(NoteEpochs(n, h)).epochs == ViewOf(n).epochs[h.sender := e];
  }

  lemma UpdatedView(n: Node, sender: NodeId, c: Claim)
    requires n.me in n.peers && sender != n.me
    ensures ViewOf(UpdateSlots(n, sender, c)) == ViewOf(n).(owner := RebindAll(ViewOf(n), n.importing, sender, c))
    ensures UpdateSlots(n, sender, c).me == n.me && UpdateSlots(n, sender, c).peers.Keys == n.peers.Keys
    ensures n.importing == {} ==> UpdateSlots(n, sender, c).importing == {}
  {
    hide RebindAll, SlotsOf;
    var owner' := RebindAll(ViewOf(n), n.importing, sender, c);
    var n1 := n.(owner := owner');
    ViewWithPeer(n1, n.me, Self(n).(master := false, slaveof := Some(sender)));
    assert ViewOf(n1).epochs == ViewOf(n).epochs;
  }

  /** A ping from a master is a delivery to the view. */
  lemma PingIsDelivery(n: Node, h: Header, claims: map<NodeId, Claim>)
    requires n.me in n.peers && h.sender in n.peers && h.sender in claims && Carries(Ping(h), n, claims)
    requires n.importing == {}
    ensures ViewOf(NotePing(n, h)) == DeliverPing(ViewOf(n), h.sender, claims[h.sender])
    ensures SameNodes(NotePing(n, h), n) && NotePing(n, h).importing == {}
  {
    hide UpdateSlots, RebindAll, OwnedBy;
    NotedView(n, h);
    var n1 := NoteEpochs(n, h);
    var s := n1.peers[h.sender];
    ViewWithPeer(n1, h.sender, s.(master := true, slaveof := None));
    var n2 := NoteRole(n1, h);
    assert ViewOf(n2) == ViewOf(n1);
    UpdatedView(n2, h.sender, claims[h.sender]);
  }

  /** An UPDATE is a delivery to the view, once the epochs of its header are noted. */
  lemma UpdateIsDelivery(n: Node, h: Header, about: NodeId, c: Claim)
    requires n.me in n.peers && h.sender in n.peers && about in n.peers && about != n.me && n.importing == {}
    ensures ViewOf(ReceiveUpdate(n, h, about, c)) == DeliverUpdate(ViewOf(NoteEpochs(n, h)), about, c)
    ensures SameNodes(ReceiveUpdate(n, h, about, c), n) && ReceiveUpdate(n, h, about, c).importing == {}
  {
    hide UpdateSlots, RebindAll;
    var n1 := NoteEpochs(n, h);
    if n1.peers[about].configEpoch < c.epoch {
      var a := n1.peers[about];
      var a' := if a.master then a else a.(master := true, slaveof := None);
      var n2 := WithPeer(n1, about, a'.(configEpoch := c.epoch));
      assert ViewOf(n2).epochs == ViewOf(n1).epochs[about := c.epoch];
      UpdatedView(n2, about, c);
    }
  }

  /** What a node knows of the claims: the masters whose slots it heard, and those whose epoch it noted. */
  datatype Known = Known(heard: set<NodeId>, noted: set<NodeId>)

  /** A ping of a claimant is heard. An UPDATE is, unless the epoch of its subject was noted before; it also notes that
      of its sender. */
  function Learn(k: Known, m: Message, claims: map<NodeId, Claim>): Known {
    var noted := if m.h.sender in claims then k.noted + {m.h.sender} else k.noted;
    match m
    case Ping(h) => if h.sender in claims then Known(k.heard + {h.sender}, noted) else k
    case Update(_, about, _) =>
      if about in noted then Known(k.heard, noted) else Known(k.heard + {about}, noted + {about})
  }

  /** A node among the claimants or beside them, at any point: its slots are where the masters it heard put them, and no
      claim of another has its own epoch. */
  ghost predicate Follows(n: Node, k: Known, claims: map<NodeId, Claim>) {
    n.me in n.peers && n.importing == {} && claims.Keys <= n.peers.Keys && ProperClaims(claims) &&
    k.heard <= claims.Keys && Tracks(ViewOf(n), k.heard, k.noted, claims) && (n.me in claims ==> n.me in k.noted) &&
    forall m :: m in claims && m != n.me ==> claims[m].epoch != n.peers[n.me].configEpoch
  }

  lemma Noting(v: View, p: NodeId, e: Epoch, k: Known, claims: map<NodeId, Claim>)
    requires p in v.epochs && k.heard <= claims.Keys && Tracks(v, k.heard, k.noted, claims)
    requires p in claims ==> e == claims[p].epoch
    ensures var noted := if p in claims then k.noted + {p} else k.noted;
            Tracks(v.(epochs := v.epochs[p := Max(v.epochs[p], e)]), k.heard, noted, claims)
  {
  }

  lemma OwnEpochOf(n: Node)
    requires n.me in n.peers
    ensures n.me in ViewOf(n).epochs && ViewOf(n).epochs[n.me] == n.peers[n.me].configEpoch
  {
  }

  lemma OwnEpochKept(v: View, p: NodeId, c: Claim, me: NodeId)
    requires p in v.epochs && me in v.epochs && me != p
    ensures me in DeliverPing(v, p, c).epochs && DeliverPing(v, p, c).epochs[me] == v.epochs[me]
    ensures me in DeliverUpdate(v, p, c).epochs && DeliverUpdate(v, p, c).epochs[me] == v.epochs[me]
  {
  }

  lemma ClaimantPing(n: Node, h: Header, k: Known, claims: map<NodeId, Claim>)
    requires Follows(n, k, claims) && Carries(Ping(h), n, claims) && h.sender in claims
    ensures Follows(ReceivePing(n, h), Learn(k, Ping(h), claims), claims) && SameNodes(ReceivePing(n, h), n)
  {
    hide NotePing, DeliverPing, DeliverUpdate, Tracks, ViewOf;
    PingIsDelivery(n, h, claims);
    OwnEpochOf(n);
    OwnEpochOf(NotePing(n, h));
    assert h.sender in ViewOf(n).epochs by { PeersSeen(n); }
    OwnEpochKept(ViewOf(n), h.sender, claims[h.sender], n.me);
    DeliverTracks(ViewOf(n), Delivery(h.sender, false), k.heard, k.noted, claims);
    assert ReceivePing(n, h) == NotePing(n, h);
  }

  lemma PeersSeen(n: Node)
    ensures ViewOf(n).epochs.Keys == n.peers.Keys
  {
  }

  /** A replica owns nothing of what was heard, so that its ping changes no slot. */
  lemma ReplicaPing(n: Node, h: Header, k: Known, claims: map<NodeId, Claim>)
    requires Follows(n, k, claims) && Carries(Ping(h), n, claims) && h.sender !in claims
    ensures Follows(ReceivePing(n, h), k, claims) && SameNodes(ReceivePing(n, h), n)
  {
    hide RebindAll, UpdateSlots, ProperClaims;
    if h.sender in n.peers {
      NotedView(n, h);
      Noting(ViewOf(n), h.sender, h.configEpoch, k, claims);
      var n1 := NoteEpochs(n, h);
      assert forall j :: 0 <= j < |n.owner| ==> Settled(n.owner[j], j, k.heard, claims);
      assert DropSlots(n1.owner, h.sender) == n1.owner;
      ViewWithPeer(n1, h.sender, NoteRole(n1, h).peers[h.sender]);
      assert ViewOf(NoteRole(n1, h)) == ViewOf(n1);
      assert ReceivePing(n, h) == NoteRole(n1, h);
    }
  }

  lemma UpdateNews(n: Node, m: Message, k: Known, claims: map<NodeId, Claim>)
    requires Follows(n, k, claims) && m.Update? && Carries(m, n, claims)
    ensures Follows(Receive(n, m), Learn(k, m, claims), claims) && SameNodes(Receive(n, m), n)
  {
    hide DeliverUpdate, DeliverPing, Tracks, ViewOf, ReceiveUpdate, NoteEpochs, ProperClaims;
    var h, about, c := m.h, m.about, m.c;
    PeersSeen(n);
    NotedView(n, h);
    Noting(ViewOf(n), h.sender, h.configEpoch, k, claims);
    var n1 := NoteEpochs(n, h);
    var noted := if h.sender in claims then k.noted + {h.sender} else k.noted;
    NotedNode(n, h);
    PeersSeen(n1);
    if about == n.me {
      OldNews(n, h, about, c, k.heard, noted, claims);
    } else {
      UpdateIsDelivery(n, h, about, c);
      OwnEpochOf(n1);
      OwnEpochOf(Receive(n, m));
      OwnEpochKept(ViewOf(n1), about, c, n.me);
      DeliverTracks(ViewOf(n1), Delivery(about, true), k.heard, noted, claims);
      if about in noted {
        assert noted + {about} == noted;
      }
    }
  }

  lemma NotedNode(n: Node, h: Header)
    requires n.me in n.peers && h.sender in n.peers && h.sender != n.me
    ensures var n1 := NoteEpochs(n, h);
            SameNodes(n1, n) && n1.importing == n.importing && n1.peers[n.me].configEpoch == n.peers[n.me].configEpoch
  {
  }

  /** An UPDATE about a master whose epoch is on record changes nothing more. */
  lemma OldNews(n: Node, h: Header, about: NodeId, c: Claim, heard: set<NodeId>, noted: set<NodeId>,
                claims: map<NodeId, Claim>)
    requires n.me in n.peers && h.sender in n.peers && heard <= claims.Keys && about in claims && c == claims[about]
    requires Tracks(ViewOf(NoteEpochs(n, h)), heard, noted, claims) && about in noted
    ensures ReceiveUpdate(n, h, about, c) == NoteEpochs(n, h)
  {
    assert ViewOf(NoteEpochs(n, h)).epochs[about] == c.epoch;
  }

  lemma ReceiveFollows(n: Node, m: Message, k: Known, claims: map<NodeId, Claim>)
    requires Follows(n, k, claims) && Carries(m, n, claims)
    ensures Follows(Receive(n, m), Learn(k, m, claims), claims) && SameNodes(Receive(n, m), n)
  {
    hide Follows, ReceivePing, ReceiveUpdate;
    match m
    case Ping(h) =>
      if h.sender in claims {
        ClaimantPing(n, h, k, claims);
      } else {
        ReplicaPing(n, h, k, claims);
      }
    case Update(_, _, _) => UpdateNews(n, m, k, claims);
  }

  // ----- whole runs

  lemma ReceiveKeeps(n: Node, m: Message)
    requires n.me in n.peers
    ensures SameNodes(Receive(n, m), n)
  {
    hide UpdateSlots, ClaimDiffers, NoteRole;
    match m
    case Ping(h) =>
      if h.sender in n.peers {
        RoleKeeps(NoteEpochs(n, h), h);
        UpdateKeeps(NoteRole(NoteEpochs(n, h), h), h.sender, Claim(h.configEpoch, h.slots));
      }
    case Update(h, about, c) =>
      var n1 := NoteEpochs(n, h);
      if about in n1.peers {
        var a := n1.peers[about];
        var a' := if a.master then a else a.(master := true, slaveof := None);
        UpdateKeeps(WithPeer(n1, about, a'.(configEpoch := c.epoch)), about, c);
      }
  }

  lemma RoleKeeps(n: Node, h: Header)
    requires h.sender in n.peers
    ensures SameNodes(NoteRole(n, h), n)
  {
  }

  lemma UpdateKeeps(n: Node, sender: NodeId, c: Claim)
    requires n.me in n.peers
    ensures SameNodes(UpdateSlots(n, sender, c), n)
  {
    hide RebindAll, SlotsOf;
  }

  /** The node after some messages, in the order they come. */
  function ReceiveAll(n: Node, ms: seq<Message>): Node
    requires n.me in n.peers
    decreases |ms|
  {
    if ms == [] then n
    else
      ReceiveKeeps(n, ms[0]);
      ReceiveAll(Receive(n, ms[0]), ms[1..])
  }

  function LearnAll(k: Known, ms: seq<Message>, claims: map<NodeId, Claim>): Known
    decreases |ms|
  {
    if ms == [] then k else LearnAll(Learn(k, ms[0], claims), ms[1..], claims)
  }

  lemma {:induction false} RunFollows(n: Node, ms: seq<Message>, k: Known, claims: map<NodeId, Claim>)
    requires Follows(n, k, claims) && forall i :: 0 <= i < |ms| ==> Carries(ms[i], n, claims)
    ensures n.me in n.peers && Follows(ReceiveAll(n, ms), LearnAll(k, ms, claims), claims)
    decreases |ms|
  {
    hide Receive, Learn, ProperClaims, Tracks, ViewOf;
    if ms != [] {
      ReceiveFollows(n, ms[0], k, claims);
      var n1 := Receive(n, ms[0]);
      assert forall i :: 0 <= i < |ms[1..]| ==> ms[1..][i] == ms[i + 1];
      RunFollows(n1, ms[1..], Learn(k, ms[0], claims), claims);
    }
  }

  function Pinged(ms: seq<Message>): set<NodeId> {
    set m | m in ms && m.Ping? :: m.h.sender
  }

  function ToldOf(ms: seq<Message>): set<NodeId> {
    set m | m in ms && m.Update? :: m.about
  }

  /** Whoever pings is heard, and nobody is who neither pings nor is told of. */
  lemma {:induction false} WhoIsHeard(k: Known, ms: seq<Message>, claims: map<NodeId, Claim>)
    ensures k.heard + Pinged(ms) * claims.Keys <= LearnAll(k, ms, claims).heard
    ensures LearnAll(k, ms, claims).heard <= k.heard + Pinged(ms) * claims.Keys + ToldOf(ms)
    decreases |ms|
  {
    if ms != [] {
      var rest := ms[1..];
      WhoIsHeard(Learn(k, ms[0], claims), rest, claims);
      assert ms == [ms[0]] + rest;
      assert Pinged(ms) == Pinged(rest) + (if ms[0].Ping? then {ms[0].h.sender} else {});
      assert ToldOf(ms) == ToldOf(rest) + (if ms[0].Update? then {ms[0].about} else {});
    }
  }

  /** Whatever pings and UPDATEs a node gets, in whatever order and however often, each of its slots is with the
      greatest claimant among those heard; with the greatest of all, once all others have pinged. */
  lemma NodeConverges(n: Node, ms: seq<Message>, k: Known, claims: map<NodeId, Claim>)
    requires Follows(n, k, claims) && forall i :: 0 <= i < |ms| ==> Carries(ms[i], n, claims)
    ensures var heard := LearnAll(k, ms, claims).heard;
            n.me in n.peers && |ReceiveAll(n, ms).owner| == CLUSTER_SLOTS && heard <= claims.Keys &&
            (claims.Keys <= k.heard + Pinged(ms) ==> heard == claims.Keys) &&
            forall j :: 0 <= j < CLUSTER_SLOTS ==> Settled(ReceiveAll(n, ms).owner[j], j, heard, claims)
  {
    hide ReceiveAll, LearnAll, Settled, ProperClaims;
    RunFollows(n, ms, k, claims);
    WhoIsHeard(k, ms, claims);
  }

  /** The two ways a node starts: with no slots at all, and as a claimant with its own. */
  lemma StartFollows(n: Node, claims: map<NodeId, Claim>)
    requires n.me in n.peers && n.importing == {} && claims.Keys <= n.peers.Keys && ProperClaims(claims)
    requires |n.owner| == CLUSTER_SLOTS
    requires forall m :: m in claims && m != n.me ==>
               n.peers[m].configEpoch < claims[m].epoch && claims[m].epoch != Self(n).configEpoch
    requires n.me in claims ==> Self(n).configEpoch == claims[n.me].epoch
    requires forall j :: 0 <= j < CLUSTER_SLOTS ==>
               n.owner[j] == if n.me in claims && j in claims[n.me].slots then Some(n.me) else None
    ensures var me := if n.me in claims then {n.me} else {}; Follows(n, Known(me, me), claims)
  {
  }

  /** An UPDATE sent by b about c, then one about b: b's slots are not heard, as its epoch was noted with the first. */
  lemma UpdateIsMissed(n: Node, k: Known, b: Header, c: NodeId, d: Header, claims: map<NodeId, Claim>)
    requires Follows(n, k, claims) && b.sender in claims && c in claims && b.sender !in k.heard && c != b.sender
    requires Carries(Update(b, c, claims[c]), n, claims) && Carries(Update(d, b.sender, claims[b.sender]), n, claims)
    ensures b.sender !in LearnAll(k, [Update(b, c, claims[c]), Update(d, b.sender, claims[b.sender])], claims).heard
  {
    var ms := [Update(b, c, claims[c]), Update(d, b.sender, claims[b.sender])];
    var k1 := Learn(k, ms[0], claims);
    assert ms[1..] == [ms[1]] && [ms[1]][1..] == [];
    assert LearnAll(k1, [ms[1]], claims) == Learn(k1, ms[1], claims);
  }
}
