/**
 * The slot-binding rule of clusterUpdateSlotsConfigWith (cluster.c) as a
 * function on slot tables, and what repeated application of it settles on.
 */
module SlotClaims {
  import opened Prelude

  const CLUSTER_SLOTS := 16384

  type Slot = s: int | 0 <= s < CLUSTER_SLOTS witness 0
  type Slots = map<Slot, NodeId>
  type Epochs = map<NodeId, nat>

  /** The table names only nodes whose configEpoch is on record. */
  predicate Recorded(slots: Slots, epochs: Epochs) {
    forall j | j in slots :: slots[j] in epochs
  }

  function ServedBy(slots: Slots, n: NodeId): set<Slot> {
    set j | j in slots && slots[j] == n
  }

  /** Slot j changes hands when `sender` claims `claim` under `epoch`. */
  predicate Takes(slots: Slots, importing: set<Slot>, epochs: Epochs,
                  sender: NodeId, epoch: nat, claim: set<Slot>, j: Slot)
    requires Recorded(slots, epochs)
  {
    && j in claim
    && j !in importing
    && (j in slots ==> slots[j] != sender && epochs[slots[j]] < epoch)
  }

  /** The table after one claim: taken slots go to the sender, others stay. */
  function Rebind(slots: Slots, importing: set<Slot>, epochs: Epochs,
                  sender: NodeId, epoch: nat, claim: set<Slot>): (r: Slots)
    requires Recorded(slots, epochs)
    ensures forall j :: j in r <==> j in slots || Takes(slots, importing, epochs, sender, epoch, claim, j)
  {
    map j | j in slots.Keys + claim && (j in slots || Takes(slots, importing, epochs, sender, epoch, claim, j)) ::
      if Takes(slots, importing, epochs, sender, epoch, claim, j) then sender else slots[j]
  }

  /** A slot that is being imported keeps its owner, or stays free, whoever claims it. */
  lemma ImportingIsKept(slots: Slots, importing: set<Slot>, epochs: Epochs,
                        sender: NodeId, epoch: nat, claim: set<Slot>, j: Slot)
    requires Recorded(slots, epochs) && j in importing
    ensures var r := Rebind(slots, importing, epochs, sender, epoch, claim);
            (j in r <==> j in slots) && (j in slots ==> r[j] == slots[j])
  {
  }

  /** The table with the slots of one node handed to another. */
  function HandOver(slots: Slots, from: NodeId, to: NodeId): Slots {
    map j | j in slots :: if slots[j] == from then to else slots[j]
  }

  /** The table without the slots of one node. */
  function Without(slots: Slots, m: NodeId): Slots {
    map j | j in slots && slots[j] != m :: slots[j]
  }

  /** No single claim ever lowers the epoch of the owner of a slot. */
  lemma EpochOfOwnerNeverDrops(slots: Slots, importing: set<Slot>, epochs: Epochs,
                               sender: NodeId, epoch: nat, claim: set<Slot>, j: Slot)
    requires Recorded(slots, epochs) && sender in epochs && epoch <= epochs[sender]
    requires j in slots
    ensures var r := Rebind(slots, importing, epochs, sender, epoch, claim);
            && Recorded(r, epochs) && j in r
            && epochs[slots[j]] <= epochs[r[j]]
            && (r[j] != slots[j] ==> epochs[slots[j]] < epochs[r[j]])
  {
    var r := Rebind(slots, importing, epochs, sender, epoch, claim);
    assert r[j] == if Takes(slots, importing, epochs, sender, epoch, claim, j) then sender else slots[j];
  }

  // ---------------------------------------------------------------------
  // Convergence
  // ---------------------------------------------------------------------

  /** What a master publishes about itself: its configEpoch and its bitmap. */
  datatype Claim = Claim(epoch: nat, slots: set<Slot>)

  /** A receiver: its slot table and the configEpochs it has on record. */
  datatype View = View(slots: Slots, epochs: Epochs)

  predicate DistinctEpochs(claims: map<NodeId, Claim>) {
    forall a, b | a in claims && b in claims && a != b :: claims[a].epoch != claims[b].epoch
  }

  /** One received claim: record the epoch if newer, then rebind. */
  function Receive(v: View, m: NodeId, c: Claim): View
    requires Recorded(v.slots, v.epochs) && m in v.epochs
  {
    var epochs := v.epochs[m := Max(v.epochs[m], c.epoch)];
    View(Rebind(v.slots, {}, epochs, m, c.epoch, c.slots), epochs)
  }

  /** All receivers start with no slot bound and no epoch ahead of its owner's. */
  predicate Fresh(v: View, claims: map<NodeId, Claim>) {
    && v.slots == map[]
    && v.epochs.Keys == claims.Keys
    && forall m | m in claims :: v.epochs[m] <= claims[m].epoch
  }

  function ReceiveAll(v: View, claims: map<NodeId, Claim>, order: seq<NodeId>): (r: View)
    requires Recorded(v.slots, v.epochs) && v.epochs.Keys == claims.Keys
    requires forall m | m in order :: m in claims
    ensures Recorded(r.slots, r.epochs) && r.epochs.Keys == claims.Keys
  {
    if order == [] then v
    else
      var m := order[|order| - 1];
      Receive(ReceiveAll(v, claims, order[..|order| - 1]), m, claims[m])
  }

  function Heard(order: seq<NodeId>): set<NodeId> {
    set m | m in order
  }

  /** The owner of j is the claimer of j with the greatest epoch among `heard`. */
  predicate GreatestClaimer(claims: map<NodeId, Claim>, heard: set<NodeId>, j: Slot, owner: NodeId) {
    && owner in heard && owner in claims && j in claims[owner].slots
    && forall m | m in heard && m in claims && j in claims[m].slots :: claims[m].epoch <= claims[owner].epoch
  }

  predicate Settled(v: View, claims: map<NodeId, Claim>, heard: set<NodeId>) {
    && (forall m | m in claims :: m in v.epochs && v.epochs[m] <= claims[m].epoch)
    && (forall m | m in heard && m in claims :: v.epochs[m] == claims[m].epoch)
    && (forall j :: j in v.slots ==> GreatestClaimer(claims, heard, j, v.slots[j]))
    && (forall m, j | m in heard && m in claims && j in claims[m].slots :: j in v.slots)
  }

  lemma ReceiveSettles(v: View, claims: map<NodeId, Claim>, heard: set<NodeId>, m: NodeId)
    requires Recorded(v.slots, v.epochs) && m in v.epochs && m in claims
    requires DistinctEpochs(claims) && Settled(v, claims, heard)
    ensures Settled(Receive(v, m, claims[m]), claims, heard + {m})
  {
    var c := claims[m];
    var epochs := v.epochs[m := Max(v.epochs[m], c.epoch)];
    var r := Receive(v, m, c);
    forall j | j in r.slots
      ensures GreatestClaimer(claims, heard + {m}, j, r.slots[j])
    {
      if Takes(v.slots, {}, epochs, m, c.epoch, c.slots, j) {
        assert r.slots[j] == m;
        if j in v.slots { assert GreatestClaimer(claims, heard, j, v.slots[j]); }
      } else {
        assert r.slots[j] == v.slots[j];
        assert GreatestClaimer(claims, heard, j, v.slots[j]);
      }
    }
  }

  /** After any deliveries, each slot is bound to the greatest claimer heard. */
  lemma {:induction false} DeliveriesSettle(v: View, claims: map<NodeId, Claim>, order: seq<NodeId>)
    requires Fresh(v, claims) && DistinctEpochs(claims)
    requires forall m | m in order :: m in claims
    ensures Settled(ReceiveAll(v, claims, order), claims, Heard(order))
  {
    if order != [] {
      var m := order[|order| - 1];
      var init := order[..|order| - 1];
      assert order == init + [m];
      DeliveriesSettle(v, claims, init);
      ReceiveSettles(ReceiveAll(v, claims, init), claims, Heard(init), m);
      assert Heard(order) == Heard(init) + {m};
    }
  }

  /** A settled table is determined by who has been heard. */
  lemma SettledTablesAgree(v: View, w: View, claims: map<NodeId, Claim>, heard: set<NodeId>)
    requires DistinctEpochs(claims)
    requires Settled(v, claims, heard) && Settled(w, claims, heard)
    ensures v.slots == w.slots
  {
    forall j | j in v.slots ensures j in w.slots && w.slots[j] == v.slots[j] {
      assert GreatestClaimer(claims, heard, j, v.slots[j]);
      assert GreatestClaimer(claims, heard, j, w.slots[j]);
    }
    forall j | j in w.slots ensures j in v.slots {
      assert GreatestClaimer(claims, heard, j, w.slots[j]);
    }
  }

  /**
   * Slot-claim convergence: two receivers that hear the same masters, in any
   * order and any number of times each, end with the same table, in which every
   * claimed slot belongs to its claimer with the greatest epoch.
   */
  lemma ClaimsConverge(v: View, w: View, claims: map<NodeId, Claim>, first: seq<NodeId>, second: seq<NodeId>)
    requires Fresh(v, claims) && Fresh(w, claims) && DistinctEpochs(claims)
    requires (forall m | m in first :: m in claims) && (forall m | m in second :: m in claims)
    requires Heard(first) == Heard(second)
    ensures ReceiveAll(v, claims, first).slots == ReceiveAll(w, claims, second).slots
    ensures Settled(ReceiveAll(v, claims, first), claims, Heard(first))
  {
    DeliveriesSettle(v, claims, first);
    DeliveriesSettle(w, claims, second);
    SettledTablesAgree(ReceiveAll(v, claims, first), ReceiveAll(w, claims, second), claims, Heard(first));
  }
}
