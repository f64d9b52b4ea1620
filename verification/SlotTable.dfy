/** The slot table of src/cluster.c: `server.cluster->slots` against every
    node's own bitmap and slot counter, through each operation that moves slots. */
module SlotTable {
  import opened ByteBits
  import opened Common
  import opened SlotClaims

  const BITMAP_BYTES: nat := CLUSTER_SLOTS / 8

  /** bitmapTestBit */
  predicate TestBit(bitmap: seq<bv8>, pos: nat)
    requires |bitmap| == BITMAP_BYTES && pos < CLUSTER_SLOTS
  {
    BitOf(bitmap[pos / 8], pos % 8)
  }

  /** The positions of the set bits. */
  ghost function Bits(bitmap: seq<bv8>): (r: set<nat>)
    requires |bitmap| == BITMAP_BYTES
  {
    set j: nat | j < CLUSTER_SLOTS && TestBit(bitmap, j)
  }

  lemma TestAfterUpdate(bitmap: seq<bv8>, j: nat, k: nat)
    requires |bitmap| == BITMAP_BYTES && j < CLUSTER_SLOTS && k < CLUSTER_SLOTS
    ensures TestBit(bitmap[j / 8 := WithBit(bitmap[j / 8], j % 8)], k) <==> TestBit(bitmap, k) || k == j
    ensures TestBit(bitmap[j / 8 := WithoutBit(bitmap[j / 8], j % 8)], k) <==> TestBit(bitmap, k) && k != j
  {
    hide BitOf, WithBit, WithoutBit;
    if k / 8 == j / 8 {
      SetBit(bitmap[j / 8], j % 8, k % 8);
      ClearBit(bitmap[j / 8], j % 8, k % 8);
    }
  }

  /** bitmapSetBit and bitmapClearBit change exactly the bit they name. */
  lemma BitsAfterUpdate(bitmap: seq<bv8>, j: nat)
    requires |bitmap| == BITMAP_BYTES && j < CLUSTER_SLOTS
    ensures Bits(bitmap[j / 8 := WithBit(bitmap[j / 8], j % 8)]) == Bits(bitmap) + {j}
    ensures Bits(bitmap[j / 8 := WithoutBit(bitmap[j / 8], j % 8)]) == Bits(bitmap) - {j}
  {
    hide BitOf, WithBit, WithoutBit, TestBit;
    forall k: nat | k < CLUSTER_SLOTS
      ensures TestBit(bitmap[j / 8 := WithBit(bitmap[j / 8], j % 8)], k) <==> TestBit(bitmap, k) || k == j
      ensures TestBit(bitmap[j / 8 := WithoutBit(bitmap[j / 8], j % 8)], k) <==> TestBit(bitmap, k) && k != j
    {
      TestAfterUpdate(bitmap, j, k);
    }
  }

  class ClusterNode {
    const name: NodeId
    var configEpoch: Epoch
    const slots: array<bv8>
    var numslots: int

    /** A node as createClusterNode leaves it: no slots, epoch 0. */
    constructor (name: NodeId)
      ensures this.name == name && configEpoch == 0 && numslots == 0
      ensures fresh(slots) && slots.Length == BITMAP_BYTES
      ensures BitSet() == {}
    {
      this.name := name;
      configEpoch := 0;
      numslots := 0;
      slots := new bv8[BITMAP_BYTES](i => 0);
      new;
      assert slots[..] == seq(BITMAP_BYTES, i => 0);
    }

    /** clusterNodeGetSlotBit */
    predicate Bit(j: nat)
      requires slots.Length == BITMAP_BYTES && j < CLUSTER_SLOTS
      reads slots
      ensures Bit(j) <==> j in BitSet()
    {
      TestBit(slots[..], j)
    }

    ghost function BitSet(): set<nat>
      requires slots.Length == BITMAP_BYTES
      reads slots
    {
      Bits(slots[..])
    }

    /** clusterNodeSetSlotBit, without the migration flag. */
    method SetSlotBit(j: nat) returns (was: bool)
      requires slots.Length == BITMAP_BYTES && j < CLUSTER_SLOTS
      modifies this`numslots, slots
      ensures was == old(Bit(j)) && BitSet() == old(BitSet()) + {j}
      ensures numslots == old(numslots) + if was then 0 else 1
    {
      hide BitOf, WithBit, WithoutBit;
      was := Bit(j);
      BitsAfterUpdate(slots[..], j);
      slots[j / 8] := WithBit(slots[j / 8], j % 8);
      if !was { numslots := numslots + 1; }
    }

    /** clusterNodeClearSlotBit */
    method ClearSlotBit(j: nat) returns (was: bool)
      requires slots.Length == BITMAP_BYTES && j < CLUSTER_SLOTS
      modifies this`numslots, slots
      ensures was == old(Bit(j)) && BitSet() == old(BitSet()) - {j}
      ensures numslots == old(numslots) - if was then 1 else 0
    {
      hide BitOf, WithBit, WithoutBit;
      was := Bit(j);
      BitsAfterUpdate(slots[..], j);
      slots[j / 8] := WithoutBit(slots[j / 8], j % 8);
      if was { numslots := numslots - 1; }
    }
  }

  class ClusterState {
    const slots: array<ClusterNode?>
    const importing: array<ClusterNode?>
    const migrating: array<ClusterNode?>
    var nodes: set<ClusterNode>
    const myself: ClusterNode

    /** The arrays that hold slot bits. */
    ghost function Bitmaps(): set<object>
      reads this, nodes
    {
      set n | n in nodes :: n.slots
    }

    ghost predicate Shape()
      reads this, nodes
    {
      slots.Length == CLUSTER_SLOTS && importing.Length == CLUSTER_SLOTS && migrating.Length == CLUSTER_SLOTS &&
      slots != importing && slots != migrating && importing != migrating && myself in nodes &&
      (forall n :: n in nodes ==> n.slots.Length == BITMAP_BYTES) &&
      (forall n, m :: n in nodes && m in nodes && n != m ==> n.slots != m.slots && n.name != m.name)
    }

    /** The table and the bitmaps say the same thing, and the counters count. */
    ghost predicate Coherent()
      reads this, nodes, slots, Bitmaps()
    {
      Shape() &&
      (forall j :: 0 <= j < CLUSTER_SLOTS && slots[j] != null ==> slots[j] in nodes) &&
      (forall n, j :: n in nodes && 0 <= j < CLUSTER_SLOTS ==> (j in n.BitSet() <==> slots[j] == n)) &&
      (forall n :: n in nodes ==> n.numslots == |n.BitSet()|)
    }

    /** A cluster of one, as at start-up. */
    constructor (name: NodeId)
      ensures Coherent() && nodes == {myself} && myself.name == name
      ensures fresh(slots) && fresh(importing) && fresh(migrating) && fresh(myself) && fresh(myself.slots)
      ensures forall j :: 0 <= j < CLUSTER_SLOTS ==> slots[j] == null && importing[j] == null && migrating[j] == null
    {
      var m := new ClusterNode(name);
      myself, nodes := m, {m};
      slots := new ClusterNode?[CLUSTER_SLOTS](i => null);
      importing := new ClusterNode?[CLUSTER_SLOTS](i => null);
      migrating := new ClusterNode?[CLUSTER_SLOTS](i => null);
      new;
    }

    /** clusterAddNode for a node that serves nothing yet. */
    method AddNode(n: ClusterNode)
      requires Coherent() && n.slots.Length == BITMAP_BYTES && n.numslots == 0
      requires forall m :: m in nodes ==> m.name != n.name && m.slots != n.slots
      requires n.BitSet() == {}
      modifies this`nodes
      ensures Coherent() && nodes == old(nodes) + {n}
    {
      nodes := nodes + {n};
    }

    /** clusterAddSlot: refuses a slot that is taken. */
    method AddSlot(n: ClusterNode, j: nat) returns (ok: bool)
      requires Coherent() && n in nodes && j < CLUSTER_SLOTS
      modifies slots, n`numslots, n.slots
      ensures Coherent() && ok == (old(slots[j]) == null)
      ensures slots[..] == if ok then old(slots[..])[j := n] else old(slots[..])
      ensures forall m :: m in nodes ==> m.numslots == old(m.numslots) + if ok && m == n then 1 else 0
    {
      hide BitOf, WithBit, WithoutBit, ClusterNode.BitSet;
      if slots[j] != null { return false; }
      var was := n.SetSlotBit(j);
      slots[j] := n;
      return true;
    }

    /** clusterDelSlot; the assertion is the source's own. */
    method DelSlot(j: nat) returns (ok: bool)
      requires Coherent() && j < CLUSTER_SLOTS
      modifies slots, nodes`numslots, Bitmaps()
      ensures Coherent() && ok == (old(slots[j]) != null)
      ensures slots[..] == old(slots[..])[j := null]
      ensures forall m :: m in nodes ==> m.numslots == old(m.numslots) - if old(slots[j]) == m then 1 else 0
    {
      hide BitOf, WithBit, WithoutBit, ClusterNode.BitSet;
      var n := slots[j];
      if n == null { return false; }
      var was := n.ClearSlotBit(j);
      assert was;
      slots[j] := null;
      return true;
    }

    /** The recurring pair clusterDelSlot, clusterAddSlot: slot `j` ends with `n`. */
    method MoveSlot(j: nat, n: ClusterNode)
      requires Coherent() && n in nodes && j < CLUSTER_SLOTS
      modifies slots, nodes`numslots, Bitmaps()
      ensures Coherent() && slots[..] == old(slots[..])[j := n]
      ensures forall m :: m in nodes ==>
                m.numslots == old(m.numslots) - (if old(slots[j]) == m then 1 else 0) + if m == n then 1 else 0
    {
      hide BitOf, WithBit, WithoutBit, ClusterNode.Bit, ClusterNode.BitSet;
      var _ := DelSlot(j);
      var _ := AddSlot(n, j);
    }

    /** clusterDelNodeSlots: the node is left with nothing, nobody else is touched. */
    method DelNodeSlots(n: ClusterNode) returns (deleted: nat)
      requires Coherent() && n in nodes
      modifies slots, nodes`numslots, Bitmaps()
      ensures Coherent() && n.numslots == 0 && deleted == old(n.numslots)
      ensures forall j :: 0 <= j < CLUSTER_SLOTS ==> slots[j] == if old(slots[j]) == n then null else old(slots[j])
    {
      hide BitOf, WithBit, WithoutBit, ClusterNode.Bit;
      deleted := 0;
      for j := 0 to CLUSTER_SLOTS
        invariant Coherent() && deleted + n.numslots == old(n.numslots)
        invariant forall k :: 0 <= k < j ==> slots[k] == if old(slots[k]) == n then null else old(slots[k])
        invariant forall k :: j <= k < CLUSTER_SLOTS ==> slots[k] == old(slots[k])
      {
        if n.Bit(j) {
          var _ := DelSlot(j);
          deleted := deleted + 1;
        }
      }
      assert forall j :: j in n.BitSet() ==> slots[j] == n;
      assert n.BitSet() == {};
    }

    /** The loop body of clusterDelNode. */
    method ForgetInSlot(j: nat, n: ClusterNode)
      requires Coherent() && n in nodes && j < CLUSTER_SLOTS
      modifies slots, importing, migrating, nodes`numslots, Bitmaps()
      ensures Coherent()
      ensures slots[..] == old(slots[..])[j := if old(slots[j]) == n then null else old(slots[j])]
      ensures importing[..] == old(importing[..])[j := if old(importing[j]) == n then null else old(importing[j])]
      ensures migrating[..] == old(migrating[..])[j := if old(migrating[j]) == n then null else old(migrating[j])]
    {
      hide BitOf, WithBit, WithoutBit, ClusterNode.Bit;
      if importing[j] == n { importing[j] := null; }
      if migrating[j] == n { migrating[j] := null; }
      if slots[j] == n { var _ := DelSlot(j); }
    }

    /** clusterDelNode: forget a node, freeing what it served and what it was a partner in. */
    method DelNode(n: ClusterNode)
      requires Coherent() && n in nodes && n != myself
      modifies this`nodes, slots, importing, migrating, nodes`numslots, Bitmaps()
      ensures Coherent() && nodes == old(nodes) - {n}
      ensures forall j :: 0 <= j < CLUSTER_SLOTS ==>
                slots[j] == (if old(slots[j]) == n then null else old(slots[j])) &&
                importing[j] == (if old(importing[j]) == n then null else old(importing[j])) &&
                migrating[j] == (if old(migrating[j]) == n then null else old(migrating[j]))
    {
      hide BitOf, WithBit, WithoutBit, ClusterNode.Bit, ClusterNode.BitSet;
      for j := 0 to CLUSTER_SLOTS
        invariant Coherent() && nodes == old(nodes)
        invariant forall k :: 0 <= k < j ==>
                    slots[k] == (if old(slots[k]) == n then null else old(slots[k])) &&
                    importing[k] == (if old(importing[k]) == n then null else old(importing[k])) &&
                    migrating[k] == (if old(migrating[k]) == n then null else old(migrating[k]))
        invariant slots[j..] == old(slots[j..]) && importing[j..] == old(importing[j..])
        invariant migrating[j..] == old(migrating[j..])
      {
        ForgetInSlot(j, n);
      }
      nodes := nodes - {n};
    }

    /** What becomes of slot `j` when `sender` claims it or not: the test is the
        one the value-level view uses, read off the node structures. */
    ghost function NewOwner(j: nat, sender: ClusterNode, senderEpoch: Epoch, claimed: bool): ClusterNode?
      requires slots.Length == CLUSTER_SLOTS && importing.Length == CLUSTER_SLOTS && j < CLUSTER_SLOTS
      reads slots, importing, {slots[j]}
    {
      var o := slots[j];
      if Rebinds(if o == null then None else Some(o.name), if o == null then 0 else o.configEpoch,
                 importing[j] != null, sender.name, senderEpoch, claimed) then sender else o
    }

    /** The loop body of clusterUpdateSlotsConfigWith. */
    method RebindSlot(j: nat, sender: ClusterNode, senderEpoch: Epoch, claimed: bool)
      requires Coherent() && sender in nodes && j < CLUSTER_SLOTS
      modifies slots, nodes`numslots, Bitmaps()
      ensures Coherent() && slots[..] == old(slots[..])[j := old(NewOwner(j, sender, senderEpoch, claimed))]
    {
      hide BitOf, WithBit, WithoutBit, ClusterNode.Bit;
      if claimed && slots[j] != sender && importing[j] == null {
        if slots[j] == null || slots[j].configEpoch < senderEpoch {
          MoveSlot(j, sender);
        }
      }
    }

    /** clusterUpdateSlotsConfigWith. `curmaster` is this node or the master it
        replicates; `lost` reports that the sender took one of its slots and it
        is left with none, in which case the caller turns into a replica. */
    method UpdateSlotsConfigWith(sender: ClusterNode, senderEpoch: Epoch, claim: seq<bv8>, curmaster: ClusterNode?)
      returns (lost: bool)
      requires Coherent() && sender in nodes && |claim| == BITMAP_BYTES
      requires curmaster != null ==> curmaster in nodes
      modifies slots, nodes`numslots, Bitmaps()
      ensures Coherent()
      ensures sender == myself ==> slots[..] == old(slots[..])
      ensures sender != myself ==> forall j :: 0 <= j < CLUSTER_SLOTS ==>
                slots[j] == old(NewOwner(j, sender, senderEpoch, TestBit(claim, j)))
      ensures lost <==> curmaster != null && curmaster != sender && curmaster.numslots == 0 &&
                        exists j :: 0 <= j < CLUSTER_SLOTS && old(slots[j]) == curmaster && slots[j] == sender
    {
      hide BitOf, WithBit, WithoutBit, ClusterNode.Bit, ClusterNode.BitSet;
      lost := false;
      if sender == myself { return; }
      var taken := false;
      for j := 0 to CLUSTER_SLOTS
        invariant Coherent()
        invariant forall k :: 0 <= k < j ==> slots[k] == old(NewOwner(k, sender, senderEpoch, TestBit(claim, k)))
        invariant forall k :: j <= k < CLUSTER_SLOTS ==> slots[k] == old(slots[k])
        invariant taken <==>
                  curmaster != null && curmaster != sender &&
                  exists k :: 0 <= k < j && old(slots[k]) == curmaster && slots[k] == sender
      {
        var was := slots[j];
        RebindSlot(j, sender, senderEpoch, TestBit(claim, j));
        if curmaster != null && was == curmaster && was != sender && slots[j] == sender { taken := true; }
      }
      lost := taken && curmaster.numslots == 0;
    }

    /** Step 2 of clusterFailoverReplaceYourMaster: claim all of the old master's slots. */
    method ClaimSlotsOf(oldmaster: ClusterNode)
      requires Coherent() && oldmaster in nodes && oldmaster != myself
      modifies slots, nodes`numslots, Bitmaps()
      ensures Coherent() && oldmaster.numslots == 0 && myself.numslots == old(myself.numslots + oldmaster.numslots)
      ensures forall j :: 0 <= j < CLUSTER_SLOTS ==>
                slots[j] == if old(slots[j]) == oldmaster then myself else old(slots[j])
    {
      hide BitOf, WithBit, WithoutBit, ClusterNode.Bit;
      for j := 0 to CLUSTER_SLOTS
        invariant Coherent() && myself.numslots + oldmaster.numslots == old(myself.numslots + oldmaster.numslots)
        invariant forall k :: 0 <= k < CLUSTER_SLOTS ==>
          slots[k] == if k < j && old(slots[k]) == oldmaster then myself else old(slots[k])
      {
        if oldmaster.Bit(j) {
          MoveSlot(j, myself);
        }
      }
      assert forall j :: j in oldmaster.BitSet() ==> slots[j] == oldmaster;
      assert oldmaster.BitSet() == {};
    }

    /** CLUSTER SETSLOT <slot> NODE <n>, once the epoch bump is done; refused
        while this node still holds keys of a slot it gives away. */
    method SetSlotNode(j: nat, n: ClusterNode, keysInSlot: nat) returns (ok: bool)
      requires Coherent() && n in nodes && j < CLUSTER_SLOTS
      modifies slots, importing, migrating, nodes`numslots, Bitmaps()
      ensures Coherent() && ok == !(old(slots[j]) == myself && n != myself && keysInSlot != 0)
      ensures slots[..] == if ok then old(slots[..])[j := n] else old(slots[..])
      ensures importing[..] == if ok && n == myself then old(importing[..])[j := null] else old(importing[..])
      ensures migrating[..] == if ok && keysInSlot == 0 then old(migrating[..])[j := null] else old(migrating[..])
    {
      hide BitOf, WithBit, WithoutBit, ClusterNode.Bit;
      if slots[j] == myself && n != myself && keysInSlot != 0 { return false; }
      if keysInSlot == 0 && migrating[j] != null { migrating[j] := null; }
      if n == myself && importing[j] != null { importing[j] := null; }
      MoveSlot(j, n);
      return true;
    }
  }
}
