/** How one node's view of slot ownership reacts to the configurations other
    masters publish (src/cluster.c: header processing, UPDATE processing and
    clusterUpdateSlotsConfigWith), and why the order of delivery does not matter. */
module SlotClaims {
  import opened Common

  type NodeId = nat
  type Epoch = nat

  const CLUSTER_SLOTS: nat := 16384

  /** A master's published configuration: its configEpoch and its slot bitmap. */
  datatype Claim = Claim(epoch: Epoch, slots: set<nat>)

  /** What a node believes: an owner per slot and a configEpoch per known node. */
  datatype View = View(owner: seq<Option<NodeId>>, epochs: map<NodeId, Epoch>)

  /** The test of one iteration of the rebinding loop. */
  predicate Rebinds(owner: Option<NodeId>, ownerEpoch: Epoch, importing: bool,
                    sender: NodeId, senderEpoch: Epoch, claimed: bool)
  {
    claimed && owner != Some(sender) && !importing &&
    (owner == None || ownerEpoch < senderEpoch)
  }

  predicate WellFormed(v: View) {
    |v.owner| == CLUSTER_SLOTS &&
    forall j :: 0 <= j < |v.owner| && v.owner[j].Some? ==> v.owner[j].value in v.epochs
  }

  function EpochOf(v: View, o: Option<NodeId>): Epoch {
    if o.Some? && o.value in v.epochs then v.epochs[o.value] else 0
  }

  /** The table after the rebinding loop has visited every slot. */
  function RebindAll(v: View, importing: set<nat>, sender: NodeId, c: Claim): (owner: seq<Option<NodeId>>)
    ensures |owner| == |v.owner|
  {
    seq(|v.owner|, j requires 0 <= j < |v.owner| =>
      if Rebinds(v.owner[j], EpochOf(v, v.owner[j]), j in importing, sender, c.epoch, j in c.slots)
      then Some(sender) else v.owner[j])
  }

  /** The slots the view currently binds to `n`: the bitmap kept for `n`. */
  function OwnedBy(v: View, n: NodeId): (r: set<nat>) {
    set j | 0 <= j < |v.owner| && v.owner[j] == Some(n)
  }

  /** A PING or PONG from the master itself: raise its epoch, and scan the
      slots only when its bitmap differs from the one on record. */
  function DeliverPing(v: View, n: NodeId, c: Claim): (r: View)
    requires n in v.epochs
  {
    var v1 := v.(epochs := v.epochs[n := Max(v.epochs[n], c.epoch)]);
    if c.slots == OwnedBy(v1, n) then v1 else v1.(owner := RebindAll(v1, {}, n, c))
  }

  /** An UPDATE about the master sent by someone else: ignored unless its
      epoch is news. */
  function DeliverUpdate(v: View, n: NodeId, c: Claim): (r: View)
    requires n in v.epochs
  {
    if v.epochs[n] >= c.epoch then v
    else
      var v1 := v.(epochs := v.epochs[n := c.epoch]);
      v1.(owner := RebindAll(v1, {}, n, c))
  }

  datatype Delivery = Delivery(from: NodeId, viaUpdate: bool)

  function Deliver(v: View, d: Delivery, claims: map<NodeId, Claim>): View
    requires d.from in v.epochs && d.from in claims
  {
    if d.viaUpdate then DeliverUpdate(v, d.from, claims[d.from]) else DeliverPing(v, d.from, claims[d.from])
  }

  /** Deliveries in any order, any number of times each. */
  function Run(v: View, ds: seq<Delivery>, claims: map<NodeId, Claim>): (r: View)
    requires forall d :: d in ds ==> d.from in claims
    requires claims.Keys <= v.epochs.Keys
    ensures r.epochs.Keys == v.epochs.Keys && |r.owner| == |v.owner|
  {
    if ds == [] then v
    else Deliver(Run(v, ds[..|ds|-1], claims), ds[|ds|-1], claims)
  }

  /** One claim per master, with positive and pairwise different epochs. */
  predicate ProperClaims(claims: map<NodeId, Claim>) {
    (forall n :: n in claims ==> claims[n].epoch > 0 && forall j :: j in claims[n].slots ==> j < CLUSTER_SLOTS) &&
    (forall n, m :: n in claims && m in claims && n != m ==> claims[n].epoch != claims[m].epoch)
  }

  /** Nothing assigned yet and every known node still at configEpoch 0. */
  predicate Blank(v: View, claims: map<NodeId, Claim>) {
    |v.owner| == CLUSTER_SLOTS && claims.Keys <= v.epochs.Keys &&
    (forall j :: 0 <= j < |v.owner| ==> v.owner[j] == None) &&
    (forall n :: n in v.epochs ==> v.epochs[n] == 0)
  }

  function Senders(ds: seq<Delivery>): set<NodeId> {
    set d | d in ds :: d.from
  }

  /** Slot `j` belongs to the member of `heard` that claims it with the greatest epoch. */
  ghost predicate Settled(o: Option<NodeId>, j: nat, heard: set<NodeId>, claims: map<NodeId, Claim>)
    requires heard <= claims.Keys
  {
    match o
    case None => forall n :: n in heard ==> j !in claims[n].slots
    case Some(w) =>
      w in heard && j in claims[w].slots &&
      forall n :: n in heard && j in claims[n].slots ==> claims[n].epoch <= claims[w].epoch
  }

  /** Every slot is where the masters heard put it. The epoch of some masters was noted, which includes those heard; of
      the others only older epochs are known. */
  ghost predicate Tracks(v: View, heard: set<NodeId>, noted: set<NodeId>, claims: map<NodeId, Claim>)
    requires heard <= claims.Keys
  {
    |v.owner| == CLUSTER_SLOTS && claims.Keys <= v.epochs.Keys && heard <= noted &&
    (forall n :: n in claims ==> v.epochs[n] <= claims[n].epoch && (n in noted <==> v.epochs[n] == claims[n].epoch)) &&
    forall j :: 0 <= j < |v.owner| ==> Settled(v.owner[j], j, heard, claims)
  }

  /** One slot of one delivery: either the scan ran, or it could not have changed anything. */
  lemma SlotSettles(o: Option<NodeId>, j: nat, n: NodeId, heard: set<NodeId>, claims: map<NodeId, Claim>)
    requires ProperClaims(claims) && heard <= claims.Keys && n in claims
    requires Settled(o, j, heard, claims)
    ensures var e := if o.Some? then claims[o.value].epoch else 0;
            var o' := if Rebinds(o, e, false, n, claims[n].epoch, j in claims[n].slots) then Some(n) else o;
            Settled(o', j, heard + {n}, claims)
  {
  }

  /** A ping is always heard; an UPDATE about a master whose epoch was noted before is not. */
  lemma DeliverTracks(v: View, d: Delivery, heard: set<NodeId>, noted: set<NodeId>, claims: map<NodeId, Claim>)
    requires ProperClaims(claims) && heard <= claims.Keys && d.from in claims
    requires Tracks(v, heard, noted, claims)
    ensures var heard' := if d.viaUpdate && d.from in noted then heard else heard + {d.from};
            Tracks(Deliver(v, d, claims), heard', noted + {d.from}, claims)
  {
    var n, c := d.from, claims[d.from];
    var v' := Deliver(v, d, claims);
    if !(d.viaUpdate && n in noted) {
      var v1 := v.(epochs := v.epochs[n := c.epoch]);
      assert v'.epochs == v1.epochs;
      forall j | 0 <= j < CLUSTER_SLOTS
        ensures Settled(v'.owner[j], j, heard + {n}, claims)
      {
        var o := v.owner[j];
        assert Settled(o, j, heard, claims);
        SlotSettles(o, j, n, heard, claims);
        assert EpochOf(v1, o) == if o.Some? then claims[o.value].epoch else 0;
        if v'.owner == v.owner && !d.viaUpdate {
          assert j in OwnedBy(v1, n) <==> o == Some(n);
        }
      }
    }
  }

  lemma BlankTracks(v: View, claims: map<NodeId, Claim>)
    requires ProperClaims(claims) && Blank(v, claims)
    ensures claims.Keys <= v.epochs.Keys && Tracks(v, {}, {}, claims)
  {
  }

  lemma {:induction false} RunTracks(v: View, ds: seq<Delivery>, claims: map<NodeId, Claim>)
    requires ProperClaims(claims) && Blank(v, claims)
    requires forall d :: d in ds ==> d.from in claims
    ensures Tracks(Run(v, ds, claims), Senders(ds), Senders(ds), claims)
  {
    hide Tracks, Deliver, Blank;
    BlankTracks(v, claims);
    if ds == [] {
      assert Senders(ds) == {};
    } else {
      var front, d := ds[..|ds|-1], ds[|ds|-1];
      RunTracks(v, front, claims);
      DeliverTracks(Run(v, front, claims), d, Senders(front), Senders(front), claims);
      assert ds == front + [d];
      assert Senders(ds) == Senders(front) + {d.from};
      if d.from in Senders(front) {
        assert Senders(front) + {d.from} == Senders(front);
      }
    }
  }

  /** Whatever the order and however often claims are repeated, each slot ends
      with the claimant of greatest epoch among the masters heard from. */
  lemma ClaimsConverge(v: View, ds: seq<Delivery>, claims: map<NodeId, Claim>)
    requires ProperClaims(claims) && Blank(v, claims)
    requires forall d :: d in ds ==> d.from in claims
    ensures forall j :: 0 <= j < CLUSTER_SLOTS ==> Settled(Run(v, ds, claims).owner[j], j, Senders(ds), claims)
  {
    RunTracks(v, ds, claims);
  }

  /** Two nodes that heard from the same masters agree on every slot. */
  lemma OrderIrrelevant(v: View, ds: seq<Delivery>, v': View, ds': seq<Delivery>, claims: map<NodeId, Claim>)
    requires ProperClaims(claims) && Blank(v, claims) && Blank(v', claims)
    requires forall d :: d in ds ==> d.from in claims
    requires forall d :: d in ds' ==> d.from in claims
    requires Senders(ds) == Senders(ds')
    ensures Run(v, ds, claims).owner == Run(v', ds', claims).owner
  {
    RunTracks(v, ds, claims);
    RunTracks(v', ds', claims);
    var a, b := Run(v, ds, claims).owner, Run(v', ds', claims).owner;
    forall j | 0 <= j < CLUSTER_SLOTS ensures a[j] == b[j] {
      assert Settled(a[j], j, Senders(ds), claims) && Settled(b[j], j, Senders(ds), claims);
    }
  }

  /** A slot changes hands only towards a strictly greater configEpoch, in any
      view at all, and never back to nobody. */
  lemma RebindRaisesEpoch(v: View, d: Delivery, claims: map<NodeId, Claim>, j: nat)
    requires WellFormed(v) && d.from in v.epochs && d.from in claims && j < CLUSTER_SLOTS
    requires Deliver(v, d, claims).owner[j] != v.owner[j]
    ensures Deliver(v, d, claims).owner[j] == Some(d.from) && j in claims[d.from].slots
    ensures v.owner[j].Some? ==>
              EpochOf(v, v.owner[j]) < EpochOf(Deliver(v, d, claims), Some(d.from))
  {
  }
}
