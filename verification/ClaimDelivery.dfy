/**
 * Slot claims as packets: a node that processes the pings of masters binds slots as
 * SlotClaims.Receive says, so nodes that hear the same masters end with the same table.
 */
module ClaimDelivery {
  import opened Prelude
  import opened SlotClaims
  import opened ClusterBus

  function ClaimOf(h: Header): Claim {
    Claim(h.configEpoch, h.myslots)
  }

  function ViewOf(n: Node): View {
    View(n.slots, n.Epochs())
  }

  /** A claim that publishes what is on record already changes nothing. */
  lemma NothingToRebind(slots: Slots, epochs: Epochs, sender: NodeId, epoch: nat)
    requires Recorded(slots, epochs)
    ensures Rebind(slots, {}, epochs, sender, epoch, ServedBy(slots, sender)) == slots
  {
    var r := Rebind(slots, {}, epochs, sender, epoch, ServedBy(slots, sender));
    assert forall j :: j in r <==> j in slots;
  }

  lemma ClaimIsReceived(n: Node, h: Header)
    requires n.Wf() && h.sender in n.peers && h.sender != n.id && n.CurrentMaster().Some?
    requires n.importing == {} && n.peers[h.sender].role == Master
    ensures var r := ApplyClaim(n, h);
      && r.slots == Rebind(n.slots, {}, n.Epochs(), h.sender, h.configEpoch, h.myslots)
      && r.Epochs() == n.Epochs() && r.importing == {} && r.CurrentMaster().Some?
  {
    hide Rebind;
    if Dirty(n, h) {
      var r := UpdateSlotsConfigWith(n, h.sender, h.configEpoch, h.myslots);
      assert r.Epochs() == n.Epochs();
    } else {
      NothingToRebind(n.slots, n.Epochs(), h.sender, h.configEpoch);
    }
  }

  /**
   * A ping of a master is one received claim: the slots afterwards, and unless it collides
   * with the receiver's own epoch the epochs on record too, are those of Receive. The
   * shortcut for a claim that is on record already makes no difference.
   */
  lemma PingIsReceived(n: Node, p: Packet, tooSoon: bool)
    requires CanProcess(n, p) && p.body.Ping? && p.hdr.sender in n.peers && p.hdr.slaveof.None? && n.importing == {}
    ensures var r := Process(n, p, tooSoon).node;
            var v := Receive(ViewOf(n), p.hdr.sender, ClaimOf(p.hdr));
      && r.slots == v.slots && r.importing == {} && r.CurrentMaster().Some?
      && (p.hdr.configEpoch != n.peers[n.id].configEpoch ==> r.Epochs() == v.epochs)
  {
    hide ApplyClaim, Rebind, UpdateReply;
    var h := p.hdr;
    var a := Observe(n, h);
    var b := SwitchRole(a, h);
    assert b.Epochs() == n.Epochs()[h.sender := Max(n.peers[h.sender].configEpoch, h.configEpoch)];
    assert b.slots == n.slots && b.importing == {} && b.peers[h.sender].role == Master;
    assert b.CurrentMaster().Some?;
    ClaimIsReceived(b, h);
    var c := ApplyClaim(b, h);
    assert c.peers[n.id].configEpoch == n.peers[n.id].configEpoch by {
      assert c.Epochs()[n.id] == b.Epochs()[n.id];
    }
    assert ResolveCollision(c, h).slots == c.slots && ResolveCollision(c, h).importing == {};
    assert ResolveCollision(c, h).CurrentMaster() == c.CurrentMaster();
  }

  // ---------------------------------------------------------------------
  // Any number of pings
  // ---------------------------------------------------------------------

  /** A ping by which a master publishes its one claim. */
  predicate Publishes(p: Packet, claims: map<NodeId, Claim>) {
    p.body.Ping? && p.hdr.slaveof.None? && p.hdr.sender in claims && ClaimOf(p.hdr) == claims[p.hdr.sender]
  }

  predicate Delivers(n: Node, p: Packet, r: Node, claims: map<NodeId, Claim>) {
    CanProcess(n, p) && Publishes(p, claims) && r == Process(n, p, false).node
  }

  /** The states of a node that processes the pings one after the other. */
  predicate IsDelivery(trace: seq<Node>, pings: seq<Packet>, claims: map<NodeId, Claim>) {
    && |trace| == |pings| + 1
    && forall i | 0 <= i < |pings| :: Delivers(trace[i], pings[i], trace[i + 1], claims)
  }

  /** A node with an empty table, no open slots, and no epoch on record ahead of its owner's. */
  predicate Empty(n: Node, claims: map<NodeId, Claim>) {
    && n.Wf() && n.importing == {} && n.CurrentMaster().Some?
    && Fresh(ViewOf(n), claims) && n.peers[n.id].configEpoch == claims[n.id].epoch
  }

  function SendersOf(pings: seq<Packet>): (s: seq<NodeId>)
    ensures |s| == |pings|
  {
    seq(|pings|, i requires 0 <= i < |pings| => pings[i].hdr.sender)
  }

  /** What a node has after i pings. */
  predicate HasReceived(n: Node, v: View, claims: map<NodeId, Claim>) {
    && n.Wf() && n.importing == {} && n.CurrentMaster().Some? && ViewOf(n) == v
    && v.epochs.Keys == claims.Keys && n.id in claims && n.peers[n.id].configEpoch == claims[n.id].epoch
  }

  lemma OneMoreReceived(n: Node, v: View, p: Packet, r: Node, claims: map<NodeId, Claim>)
    requires DistinctEpochs(claims) && HasReceived(n, v, claims) && Delivers(n, p, r, claims)
    ensures Recorded(v.slots, v.epochs) && p.hdr.sender in v.epochs
    ensures HasReceived(r, Receive(v, p.hdr.sender, claims[p.hdr.sender]), claims)
  {
    hide Process, Rebind;
    assert p.hdr.sender in n.Epochs();
    PingIsReceived(n, p, false);
    assert r.Epochs()[r.id] == n.Epochs()[n.id];
  }

  lemma {:induction false} DeliveryIsReceived(trace: seq<Node>, pings: seq<Packet>, claims: map<NodeId, Claim>, i: nat)
    requires IsDelivery(trace, pings, claims) && Empty(trace[0], claims) && DistinctEpochs(claims) && i < |trace|
    ensures forall m | m in SendersOf(pings)[..i] :: m in claims
    ensures HasReceived(trace[i], ReceiveAll(ViewOf(trace[0]), claims, SendersOf(pings)[..i]), claims)
  {
    hide Delivers, Receive;
    var order := SendersOf(pings);
    forall k | 0 <= k < |pings| ensures order[k] in claims { SenderClaims(trace[k], pings[k], trace[k + 1], claims); }
    if i > 0 {
      DeliveryIsReceived(trace, pings, claims, i - 1);
      assert order[..i][..i - 1] == order[..i - 1];
      var v := ReceiveAll(ViewOf(trace[0]), claims, order[..i - 1]);
      OneMoreReceived(trace[i - 1], v, pings[i - 1], trace[i], claims);
    }
  }

  lemma SenderClaims(n: Node, p: Packet, r: Node, claims: map<NodeId, Claim>)
    requires Delivers(n, p, r, claims)
    ensures p.hdr.sender in claims
  {
  }

  /**
   * Slot-claim convergence over packets: two nodes that start from empty tables and
   * process pings of the same masters, in any order and any number of times each, end
   * with the same table, in which every slot belongs to its claimer of greatest epoch.
   */
  lemma DeliveredClaimsConverge(first: seq<Node>, ps: seq<Packet>, second: seq<Node>, qs: seq<Packet>,
                                claims: map<NodeId, Claim>)
    requires DistinctEpochs(claims)
    requires IsDelivery(first, ps, claims) && Empty(first[0], claims)
    requires IsDelivery(second, qs, claims) && Empty(second[0], claims)
    requires Heard(SendersOf(ps)) == Heard(SendersOf(qs))
    ensures first[|ps|].slots == second[|qs|].slots
    ensures Settled(ViewOf(first[|ps|]), claims, Heard(SendersOf(ps)))
  {
    hide Delivers, Settled, ReceiveAll;
    var a, b := SendersOf(ps), SendersOf(qs);
    assert a[..|ps|] == a && b[..|qs|] == b;
    DeliveryIsReceived(first, ps, claims, |ps|);
    DeliveryIsReceived(second, qs, claims, |qs|);
    ClaimsConverge(ViewOf(first[0]), ViewOf(second[0]), claims, a, b);
  }
}
