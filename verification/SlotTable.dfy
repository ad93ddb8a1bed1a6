/**
 * The slot index of a node (cluster.c): the array of slot owners and, redundantly,
 * a bitmap and a slot counter inside every node. Arrays embedded in C structs are
 * sequence-valued fields here.
 */
module SlotTable {
  import opened Prelude
  import opened SlotClaims

  const BITMAP_BYTES := 2048

  // ---------------------------------------------------------------------
  // Bitmaps
  // ---------------------------------------------------------------------

  type Bitmap = b: seq<bv8> | |b| == BITMAP_BYTES witness seq(BITMAP_BYTES, _ => 0)

  /** 1 << bit for a bit number of a byte. */
  function Mask(bit: int): bv8
    requires 0 <= bit < 8
  {
    if bit == 0 then 1 else if bit == 1 then 2 else if bit == 2 then 4 else if bit == 3 then 8
    else if bit == 4 then 16 else if bit == 5 then 32 else if bit == 6 then 64 else 128
  }

  predicate BitOn(x: bv8, bit: int)
    requires 0 <= bit < 8
  {
    x & Mask(bit) != 0
  }

  function WithBit(x: bv8, bit: int, on: bool): bv8
    requires 0 <= bit < 8
  {
    if on then x | Mask(bit) else x & !Mask(bit)
  }

  /** bitmapTestBit. */
  predicate TestBit(b: Bitmap, pos: Slot) {
    BitOn(b[pos / 8], pos % 8)
  }

  /** bitmapSetBit and bitmapClearBit. */
  function PutBit(b: Bitmap, pos: Slot, on: bool): Bitmap {
    b[pos / 8 := WithBit(b[pos / 8], pos % 8, on)]
  }

  function OnBits(b: Bitmap): set<Slot> {
    set j: Slot | TestBit(b, j)
  }

  /** Slot pos is bit pos mod 8, counted from the least significant one, of byte pos div 8. */
  lemma BitLayout(b: Bitmap, pos: Slot)
    ensures TestBit(b, pos) <==> (b[pos / 8] >> (pos % 8)) & 1 == 1
  {
    BitIsShifted(b[pos / 8], pos % 8);
  }

  lemma BitIsShifted(x: bv8, bit: int)
    requires 0 <= bit < 8
    ensures BitOn(x, bit) <==> (x >> bit) & 1 == 1
  {
    assert bit == 0 || bit == 1 || bit == 2 || bit == 3 || bit == 4 || bit == 5 || bit == 6 || bit == 7;
  }

  lemma BitsAreSeparate(x: bv8, bit: int, on: bool, k: int)
    requires 0 <= bit < 8 && 0 <= k < 8
    ensures BitOn(WithBit(x, bit, on), k) <==> if k == bit then on else BitOn(x, k)
  {
  }

  lemma SamePosition(pos: int, j: int)
    requires pos / 8 == j / 8 && pos % 8 == j % 8
    ensures pos == j
  {
  }

  lemma BitsAfter(b: Bitmap, pos: Slot, on: bool, j: Slot)
    ensures TestBit(PutBit(b, pos, on), j) <==> if j == pos then on else TestBit(b, j)
  {
    hide BitOn, WithBit;
    var byte, bit := pos / 8, pos % 8;
    if j / 8 == byte {
      if j % 8 == bit { SamePosition(pos, j); }
      BitsAreSeparate(b[byte], bit, on, j % 8);
    }
  }

  lemma PutBitPuts(b: Bitmap, pos: Slot, on: bool)
    ensures OnBits(PutBit(b, pos, on)) == if on then OnBits(b) + {pos} else OnBits(b) - {pos}
  {
    hide TestBit, PutBit;
    forall j: Slot ensures TestBit(PutBit(b, pos, on), j) <==> if j == pos then on else TestBit(b, j) {
      BitsAfter(b, pos, on, j);
    }
  }

  // ---------------------------------------------------------------------
  // The index
  // ---------------------------------------------------------------------

  class ClusterNode {
    const name: NodeId
    var configEpoch: nat
    var bitmap: Bitmap
    var numslots: int

    /** createClusterNode: no slots. */
    constructor (name: NodeId, configEpoch: nat)
      ensures this.name == name && this.configEpoch == configEpoch && numslots == 0 && OnBits(bitmap) == {}
    {
      this.name, this.configEpoch, numslots := name, configEpoch, 0;
      bitmap := seq(BITMAP_BYTES, _ => 0);
    }

    /** clusterNodeSetSlotBit; the old value is returned. */
    method SetSlotBit(slot: Slot) returns (was: bool)
      modifies this`bitmap, this`numslots
      ensures was <==> slot in old(OnBits(bitmap))
      ensures OnBits(bitmap) == old(OnBits(bitmap)) + {slot}
      ensures numslots == old(numslots) + if was then 0 else 1
    {
      was := TestBit(bitmap, slot);
      PutBitPuts(bitmap, slot, true);
      bitmap := PutBit(bitmap, slot, true);
      if !was { numslots := numslots + 1; }
    }

    /** clusterNodeClearSlotBit; the old value is returned. */
    method ClearSlotBit(slot: Slot) returns (was: bool)
      modifies this`bitmap, this`numslots
      ensures was <==> slot in old(OnBits(bitmap))
      ensures OnBits(bitmap) == old(OnBits(bitmap)) - {slot}
      ensures numslots == old(numslots) - if was then 1 else 0
    {
      was := TestBit(bitmap, slot);
      PutBitPuts(bitmap, slot, false);
      bitmap := PutBit(bitmap, slot, false);
      if was { numslots := numslots - 1; }
    }
  }

  /** The entries with every occurrence of one node replaced. */
  ghost function Replaced(s: seq<ClusterNode?>, from: ClusterNode, to: ClusterNode?): (r: seq<ClusterNode?>)
    ensures |r| == |s| && forall j :: 0 <= j < |s| ==> r[j] == if s[j] == from then to else s[j]
  {
    seq(|s|, j requires 0 <= j < |s| => if s[j] == from then to else s[j])
  }

  /** A table by names. */
  ghost function OwnersOf(slots: seq<ClusterNode?>): (r: Slots)
    requires |slots| == CLUSTER_SLOTS
  {
    map j: Slot | slots[j] != null :: slots[j].name
  }

  /** Moving the slots that Takes names is Rebind. */
  lemma RebindsByName(was: seq<ClusterNode?>, now: seq<ClusterNode?>, taken: set<Slot>, importing: set<Slot>,
                      epochs: Epochs, sender: ClusterNode, epoch: nat, claim: set<Slot>)
    requires |was| == |now| == CLUSTER_SLOTS && Recorded(OwnersOf(was), epochs)
    requires forall k: Slot :: now[k] == if k in taken then sender else was[k]
    requires forall k: Slot :: k in taken <==> Takes(OwnersOf(was), importing, epochs, sender.name, epoch, claim, k)
    ensures OwnersOf(now) == Rebind(OwnersOf(was), importing, epochs, sender.name, epoch, claim)
  {
    hide Takes;
    var r := Rebind(OwnersOf(was), importing, epochs, sender.name, epoch, claim);
    assert forall j: Slot :: j in OwnersOf(now) <==> j in r;
  }

  /** A slot is taken from m exactly if m had it before and has it no more. */
  lemma LostIff(was: seq<ClusterNode?>, now: seq<ClusterNode?>, taken: set<Slot>, sender: ClusterNode, m: ClusterNode)
    requires |was| == |now| == CLUSTER_SLOTS
    requires forall k: Slot :: now[k] == if k in taken then sender else was[k]
    requires forall k: Slot :: k in taken ==> was[k] != sender
    ensures forall k: Slot :: k in taken && was[k] == m <==> was[k] == m && now[k] != m
    ensures (exists k :: k in taken && was[k] == m) <==> (exists k: Slot :: was[k] == m && now[k] != m)
  {
    if k: Slot :| k in taken && was[k] == m { assert was[k] == m && now[k] != m; }
    if k: Slot :| was[k] == m && now[k] != m { assert k in taken && was[k] == m; }
  }

  predicate Ascending(s: seq<Slot>) {
    forall i, j :: 0 <= i < j < |s| ==> s[i] < s[j]
  }

  class Table {
    var slots: seq<ClusterNode?>
    var importing: seq<ClusterNode?>
    var migrating: seq<ClusterNode?>
    ghost var nodes: set<ClusterNode>

    /** The owner array and the bitmaps say the same, the counters count, and no entry names an unknown node. */
    ghost predicate Valid()
      reads this, nodes
    {
      && |slots| == |importing| == |migrating| == CLUSTER_SLOTS
      && (forall j: Slot :: slots[j] != null ==> slots[j] in nodes)
      && (forall j: Slot :: importing[j] != null ==> importing[j] in nodes)
      && (forall j: Slot :: migrating[j] != null ==> migrating[j] in nodes)
      && (forall n, j: Slot {:trigger slots[j], n in nodes} ::
            n in nodes ==> (slots[j] == n <==> j in OnBits(n.bitmap)))
      && (forall n :: n in nodes ==> n.numslots == |OnBits(n.bitmap)|)
    }

    ghost predicate DistinctNames()
      reads this
    {
      forall n, m :: n in nodes && m in nodes && n.name == m.name ==> n == m
    }

    /** The table by names. */
    ghost function Owners(): (r: Slots)
      requires |slots| == CLUSTER_SLOTS
      reads this
    {
      OwnersOf(slots)
    }

    /** clusterInit: an empty table over the known nodes. */
    constructor (ghost nodes: set<ClusterNode>)
      requires forall n :: n in nodes ==> n.numslots == 0 && OnBits(n.bitmap) == {}
      ensures Valid() && this.nodes == nodes && forall j: Slot :: slots[j] == importing[j] == migrating[j] == null
    {
      slots := seq(CLUSTER_SLOTS, _ => null);
      importing := seq(CLUSTER_SLOTS, _ => null);
      migrating := seq(CLUSTER_SLOTS, _ => null);
      this.nodes := nodes;
    }

    /** clusterAddSlot. */
    method AddSlot(n: ClusterNode, slot: Slot) returns (ok: bool)
      requires Valid() && n in nodes
      modifies this`slots, n`bitmap, n`numslots
      ensures Valid() && (ok <==> old(slots[slot]) == null)
      ensures slots == if ok then old(slots)[slot := n] else old(slots)
    {
      hide OnBits;
      if slots[slot] != null { return false; }
      var was := n.SetSlotBit(slot);
      slots := slots[slot := n];
      return true;
    }

    /** clusterDelSlot; its assertion that the bit was set never fails. */
    method DelSlot(slot: Slot) returns (ok: bool)
      requires Valid()
      modifies this`slots, nodes`bitmap, nodes`numslots
      ensures Valid() && (ok <==> old(slots[slot]) != null)
      ensures slots == old(slots)[slot := null]
    {
      hide OnBits;
      var n := slots[slot];
      if n == null {
        assert slots == slots[slot := null];
        return false;
      }
      var was := n.ClearSlotBit(slot);
      assert was;
      slots := slots[slot := null];
      return true;
    }

    /** clusterDelNodeSlots. The value returned is always the number of slots of the cluster, not of those deleted. */
    method DelNodeSlots(n: ClusterNode) returns (deleted: int)
      requires Valid() && n in nodes
      modifies this`slots, nodes`bitmap, nodes`numslots
      ensures Valid() && slots == Replaced(old(slots), n, null)
      ensures DistinctNames() ==> Owners() == Without(old(Owners()), n.name)
      ensures deleted == CLUSTER_SLOTS
    {
      hide Replaced;
      deleted := 0;
      for j := 0 to CLUSTER_SLOTS
        invariant Valid() && deleted == j
        invariant forall k: Slot :: slots[k] == if k < j && old(slots[k]) == n then null else old(slots[k])
      {
        if TestBit(n.bitmap, j) { var _ := DelSlot(j); }
        deleted := deleted + 1;
      }
    }

    /** clusterDelNode: its slots become unbound and no entry of any table names it any more. */
    method DelNode(n: ClusterNode)
      requires Valid() && n in nodes
      modifies this, nodes`bitmap, nodes`numslots
      ensures Valid() && nodes == old(nodes) - {n}
      ensures slots == Replaced(old(slots), n, null)
      ensures importing == Replaced(old(importing), n, null) && migrating == Replaced(old(migrating), n, null)
    {
      hide Replaced, OnBits, TestBit;
      for j := 0 to CLUSTER_SLOTS
        invariant Valid() && nodes == old(nodes)
        invariant forall k: Slot :: slots[k] == if k < j && old(slots[k]) == n then null else old(slots[k])
        invariant forall k: Slot :: importing[k] == if k < j && old(importing[k]) == n then null else old(importing[k])
        invariant forall k: Slot :: migrating[k] == if k < j && old(migrating[k]) == n then null else old(migrating[k])
      {
        if importing[j] == n { importing := importing[j := null]; }
        if migrating[j] == n { migrating := migrating[j := null]; }
        if slots[j] == n { var _ := DelSlot(j); }
      }
      nodes := nodes - {n};
    }

    /** clusterFailoverReplaceYourMaster: exactly the slots of the old master go to the winner. */
    method ReplaceMaster(me: ClusterNode, oldMaster: ClusterNode)
      requires Valid() && me in nodes && oldMaster in nodes && me != oldMaster
      modifies this`slots, nodes`bitmap, nodes`numslots
      ensures Valid() && slots == Replaced(old(slots), oldMaster, me)
      ensures DistinctNames() ==> Owners() == HandOver(old(Owners()), oldMaster.name, me.name)
      ensures OnBits(me.bitmap) == old(OnBits(me.bitmap)) + old(OnBits(oldMaster.bitmap))
      ensures OnBits(oldMaster.bitmap) == {}
    {
      for j := 0 to CLUSTER_SLOTS
        invariant Valid()
        invariant forall k: Slot :: slots[k] == if k < j && old(slots[k]) == oldMaster then me else old(slots[k])
      {
        if TestBit(oldMaster.bitmap, j) {
          var _ := DelSlot(j);
          var _ := AddSlot(me, j);
        }
      }
      forall k: Slot ensures k in OnBits(me.bitmap) <==> k in old(OnBits(me.bitmap)) + old(OnBits(oldMaster.bitmap)) {
        assert slots[k] == if old(slots[k]) == oldMaster then me else old(slots[k]);
      }
      forall k: Slot ensures k !in OnBits(oldMaster.bitmap) {
        assert slots[k] != oldMaster;
      }
    }

    // -------------------------------------------------------------------
    // Slot claims
    // -------------------------------------------------------------------

    /** Different nodes have different names, and `epochs` is what they have on record. */
    ghost predicate Named(epochs: Epochs)
      reads this, nodes
    {
      && DistinctNames()
      && (forall n :: n in nodes ==> n.name in epochs && epochs[n.name] == n.configEpoch)
    }

    ghost function Importing(): set<Slot>
      requires |importing| == CLUSTER_SLOTS
      reads this
    {
      set j: Slot | importing[j] != null
    }

    /** Slot j is to change hands. */
    predicate Taken(sender: ClusterNode, epoch: nat, claim: Bitmap, j: Slot)
      requires |slots| == |importing| == CLUSTER_SLOTS
      reads this, slots[j]
    {
      && TestBit(claim, j) && slots[j] != sender && importing[j] == null
      && (slots[j] == null || slots[j].configEpoch < epoch)
    }

    /** Taken is the rule of SlotClaims. */
    lemma TakenIsTakes(sender: ClusterNode, epoch: nat, claim: Bitmap, j: Slot, epochs: Epochs)
      requires Valid() && sender in nodes && Named(epochs) && Recorded(Owners(), epochs)
      ensures Taken(sender, epoch, claim, j) <==>
                Takes(Owners(), Importing(), epochs, sender.name, epoch, OnBits(claim), j)
    {
    }

    lemma OwnersAreRecorded(epochs: Epochs)
      requires Valid() && Named(epochs)
      ensures Recorded(Owners(), epochs)
    {
    }

    ghost function TakenSlots(sender: ClusterNode, epoch: nat, claim: Bitmap): set<Slot>
      requires Valid()
      reads this, nodes
    {
      set j: Slot | Taken(sender, epoch, claim, j)
    }

    lemma TakenIff(sender: ClusterNode, epoch: nat, claim: Bitmap)
      requires Valid()
      ensures forall k: Slot :: k in TakenSlots(sender, epoch, claim) <==>
                && k in OnBits(claim) && slots[k] != sender && importing[k] == null
                && (slots[k] == null || slots[k].configEpoch < epoch)
    {
      hide TestBit;
    }

    /** The loop of clusterUpdateSlotsConfigWith: every slot to be taken is moved to the sender. */
    method Scan(sender: ClusterNode, epoch: nat, claim: Bitmap, me: ClusterNode, curmaster: ClusterNode,
                keys: set<Slot>)
      returns (robbed: bool, dirty: seq<Slot>)
      requires Valid() && sender in nodes
      modifies this`slots, nodes`bitmap, nodes`numslots
      ensures Valid()
      ensures forall k: Slot :: slots[k] == if k in old(TakenSlots(sender, epoch, claim)) then sender else old(slots)[k]
      ensures robbed <==> exists k: Slot :: old(slots)[k] == curmaster && slots[k] != curmaster
      ensures forall k: Slot :: k in dirty <==> old(slots)[k] == me && slots[k] != me && k in keys
      ensures Ascending(dirty)
    {
      hide OnBits, TestBit;
      ghost var taken, was := TakenSlots(sender, epoch, claim), slots;
      robbed, dirty := false, [];
      for j := 0 to CLUSTER_SLOTS
        invariant Valid()
        invariant forall k: Slot :: slots[k] == if k < j && k in taken then sender else was[k]
        invariant robbed <==> exists k :: k in taken && k < j && was[k] == curmaster
        invariant forall k: Slot :: k in dirty <==> k < j && k in taken && was[k] == me && k in keys
        invariant Ascending(dirty) && forall i :: 0 <= i < |dirty| ==> dirty[i] < j
      {
        var take := TestBit(claim, j) && slots[j] != sender && importing[j] == null
                    && (slots[j] == null || slots[j].configEpoch < epoch);
        assert slots[j] == was[j];
        assert take <==> j in taken;
        if take {
          if slots[j] == me && j in keys { dirty := dirty + [j]; }
          if slots[j] == curmaster { robbed := true; }
          var _ := DelSlot(j);
          var _ := AddSlot(sender, j);
        }
      }
      LostIff(was, slots, taken, sender, curmaster);
      LostIff(was, slots, taken, sender, me);
    }

    /**
     * clusterUpdateSlotsConfigWith. `keys` are the slots with keys, `curmaster` is this
     * node or its master. The new table is Rebind of the old one; `robbed` says that
     * curmaster lost a slot, and `dirty` lists the slots lost by this node with keys inside.
     */
    method UpdateSlotsConfigWith(sender: ClusterNode, epoch: nat, claim: Bitmap, me: ClusterNode,
                                 curmaster: ClusterNode, keys: set<Slot>, ghost epochs: Epochs)
      returns (robbed: bool, dirty: seq<Slot>)
      requires Valid() && sender in nodes && Named(epochs)
      modifies this`slots, nodes`bitmap, nodes`numslots
      ensures Valid() && Recorded(old(Owners()), epochs)
      ensures sender == me ==> slots == old(slots) && !robbed && dirty == []
      ensures sender != me ==>
                && (forall k: Slot :: slots[k] ==
                      if && k in OnBits(claim) && old(importing)[k] == null
                         && (old(slots)[k] == null || old(slots)[k].configEpoch < epoch)
                      then sender else old(slots)[k])
                && Owners() == Rebind(old(Owners()), old(Importing()), epochs, sender.name, epoch, OnBits(claim))
                && (robbed <==> exists k: Slot :: old(slots)[k] == curmaster && slots[k] != curmaster)
                && (forall k: Slot :: k in dirty <==> old(slots)[k] == me && slots[k] != me && k in keys)
                && Ascending(dirty)
    {
      hide OnBits, TestBit, Taken, Takes, Ascending, OwnersOf;
      OwnersAreRecorded(epochs);
      if sender == me { return false, []; }
      ghost var owners, importers, was, taken := Owners(), Importing(), slots, TakenSlots(sender, epoch, claim);
      TakenIff(sender, epoch, claim);
      forall j: Slot
        ensures Taken(sender, epoch, claim, j) <==>
                Takes(owners, importers, epochs, sender.name, epoch, OnBits(claim), j)
      {
        TakenIsTakes(sender, epoch, claim, j, epochs);
      }
      robbed, dirty := Scan(sender, epoch, claim, me, curmaster, keys);
      RebindsByName(was, slots, taken, importers, epochs, sender, epoch, OnBits(claim));
    }
  }
}
