/**
 * The bound on epochs that every handler of the cluster keeps: nothing a node
 * records, and nothing on the wire, runs ahead of the currentEpoch beside it.
 */
module EpochBound {
  import opened Prelude
  import opened SlotClaims
  import opened ClusterBus
  import opened ClusterSystem

  /** No configEpoch on record, vote or election is ahead of currentEpoch. */
  predicate Bounded(n: Node) {
    && n.lastVoteEpoch <= n.currentEpoch
    && n.authEpoch <= n.currentEpoch
    && forall p | p in n.peers :: n.peers[p].configEpoch <= n.currentEpoch
  }

  predicate BoundedPacket(p: Packet) {
    && p.hdr.configEpoch <= p.hdr.currentEpoch
    && (p.body.Update? ==> p.body.configEpoch <= p.hdr.currentEpoch)
  }

  predicate EpochInv(s: System) {
    && s.Wf()
    && (forall k | k in s.nodes :: Bounded(s.nodes[k]))
    && (forall p | p in s.net :: BoundedPacket(p))
  }

  // ---------------------------------------------------------------------
  // One handler
  // ---------------------------------------------------------------------

  lemma HeaderBounded(n: Node)
    requires n.Wf() && Bounded(n)
    ensures var h := BuildHeader(n); h.configEpoch <= h.currentEpoch == n.currentEpoch && h.sender == n.id
  {
  }

  /** UpdateSlotsConfigWith moves slots and roles, never an epoch. */
  lemma SlotUpdateKeepsEpochs(n: Node, sender: NodeId, epoch: nat, claim: set<Slot>)
    requires n.Wf() && sender in n.peers && n.CurrentMaster().Some?
    ensures var r := UpdateSlotsConfigWith(n, sender, epoch, claim);
            && r == n.(slots := r.slots, importing := r.importing, peers := r.peers)
            && r.peers.Keys == n.peers.Keys
            && forall p | p in n.peers :: r.peers[p].configEpoch == n.peers[p].configEpoch
  {
  }

  lemma SwitchRoleKeepsEpochs(n: Node, h: Header)
    requires n.Wf() && h.sender in n.peers
    ensures var r := SwitchRole(n, h);
            && r == n.(slots := r.slots, peers := r.peers)
            && r.peers.Keys == n.peers.Keys
            && forall p | p in n.peers :: r.peers[p].configEpoch == n.peers[p].configEpoch
  {
  }

  lemma PingBounded(n: Node, h: Header)
    requires n.Wf() && h.sender in n.peers && n.CurrentMaster().Some? && h.sender != n.id
    requires Bounded(n)
    ensures var r := HandlePing(n, h);
            Bounded(r.node) && forall p | p in r.sent :: BoundedPacket(p)
  {
    var a := SwitchRole(n, h);
    SwitchRoleKeepsEpochs(n, h);
    var b := ApplyClaim(a, h);
    assert Bounded(b) by { SlotUpdateKeepsEpochs(a, h.sender, h.configEpoch, h.myslots); }
    HeaderBounded(b);
  }

  lemma UpdateBounded(n: Node, about: NodeId, epoch: nat, claim: set<Slot>)
    requires n.Wf() && n.CurrentMaster().Some? && Bounded(n) && epoch <= n.currentEpoch
    ensures Bounded(HandleUpdate(n, about, epoch, claim))
  {
    if about in n.peers && n.peers[about].configEpoch < epoch {
      var a := n.(peers := n.peers[about := n.peers[about].(role := Master, configEpoch := epoch)]);
      SlotUpdateKeepsEpochs(a, about, epoch, claim);
    }
  }

  lemma ProcessBounded(n: Node, p: Packet, tooSoon: bool)
    requires CanProcess(n, p) && Bounded(n) && BoundedPacket(p)
    ensures var r := Process(n, p, tooSoon);
            Bounded(r.node) && forall q | q in r.sent :: BoundedPacket(q)
  {
    if p.hdr.sender in n.peers {
      var a := Observe(n, p.hdr);
      assert Bounded(a) && p.hdr.currentEpoch <= a.currentEpoch;
      HeaderBounded(a);
      if p.body.Ping? {
        PingBounded(a, p.hdr);
      } else if p.body.Update? {
        UpdateBounded(a, p.body.node, p.body.configEpoch, p.body.slots);
      }
    }
  }

  // ---------------------------------------------------------------------
  // Whole runs
  // ---------------------------------------------------------------------

  lemma NodeAfterBounded(s: System, a: Action)
    requires EpochInv(s) && Enabled(s, a)
    ensures NodeAfter(s, a).Some? ==> Bounded(NodeAfter(s, a).value)
  {
    hide Process;
    if a.Deliver? { ProcessBounded(s.nodes[a.p.dst], a.p, a.tooSoon); }
  }

  lemma SentBounded(s: System, a: Action)
    requires EpochInv(s) && Enabled(s, a)
    ensures forall p | p in SentBy(s, a) :: BoundedPacket(p)
  {
    hide Process;
    if a.Deliver? { ProcessBounded(s.nodes[a.p.dst], a.p, a.tooSoon); }
    if a.SendPing? || a.SendFail? { HeaderBounded(s.nodes[a.n]); }
    if a.Ask? { HeaderBounded(AskForVotes(s.nodes[a.n])); }
  }

  lemma ActionBounded(s: System, a: Action, r: System)
    requires EpochInv(s) && Next(s, a, r)
    ensures EpochInv(r)
  {
    hide NodeAfter, SentBy, VoteGranted, VoteCounted, Enabled;
    NodeAfterBounded(s, a);
    SentBounded(s, a);
    forall p | p in r.net ensures BoundedPacket(p) {
      assert p in s.net || p in SentBy(s, a);
    }
  }

  /** In every reachable state, with every packet in flight, the bound holds. */
  lemma {:induction false} EpochsBoundedInEveryRun(trace: seq<System>, acts: seq<Action>, i: nat)
    requires IsRun(trace, acts) && EpochInv(trace[0]) && i < |trace|
    ensures EpochInv(trace[i])
  {
    hide Do, Enabled;
    if i > 0 {
      EpochsBoundedInEveryRun(trace, acts, i - 1);
      ActionBounded(trace[i - 1], acts[i - 1], trace[i]);
    }
  }

  // ---------------------------------------------------------------------
  // Unilateral epochs
  // ---------------------------------------------------------------------

  /** clusterGetMaxEpoch; `order` is the order in which the dictionary iterator returns the nodes. */
  method GetMaxEpoch(n: Node, order: seq<NodeId>) returns (max: nat)
    requires forall i | 0 <= i < |order| :: order[i] in n.peers
    requires forall p | p in n.peers :: exists i :: 0 <= i < |order| && order[i] == p
    ensures IsMaxEpoch(n, max)
  {
    max := 0;
    for i := 0 to |order|
      invariant forall j | 0 <= j < i :: n.peers[order[j]].configEpoch <= max
      invariant max == 0 || exists p :: p in n.peers && n.peers[p].configEpoch == max
    {
      var p := order[i];
      if n.peers[p].configEpoch > max {
        max := n.peers[p].configEpoch;
        assert p in n.peers && n.peers[p].configEpoch == max;
      }
    }
    if max < n.currentEpoch { max := n.currentEpoch; }
  }

  /** A fresh epoch of `r`, greater than every epoch `n` had on record, and recorded nowhere else by `r`. */
  predicate StrictlyAbove(n: Node, r: Node) {
    && n.id in r.peers
    && (forall p | p in n.peers :: n.peers[p].configEpoch < r.peers[n.id].configEpoch)
    && forall p | p in r.peers && p != n.id :: r.peers[p].configEpoch < r.peers[n.id].configEpoch
  }

  lemma BumpOfBounded(n: Node, max: nat)
    requires n.Wf() && Bounded(n) && IsMaxEpoch(n, max)
    ensures max == n.currentEpoch
    ensures var r := BumpEpoch(n, max);
            && (r != n ==> StrictlyAbove(n, r))
            && (r == n <==> n.peers[n.id].configEpoch == n.currentEpoch != 0)
  {
  }

  lemma RepairOfBounded(n: Node, sender: NodeId)
    requires n.Wf() && Bounded(n) && sender in n.peers
    ensures var r := HandleEpochCollision(n, sender);
            r != n ==> StrictlyAbove(n, r)
  {
  }

  /**
   * In any reachable state a unilateral bump either takes an epoch strictly above
   * every locally known one, or leaves a node that already has the greatest; and
   * the epoch that collision repair takes is strictly above all known ones too.
   */
  lemma OwnEpochsAreStrictlyAbove(trace: seq<System>, acts: seq<Action>, i: nat, k: NodeId, max: nat, sender: NodeId)
    requires IsRun(trace, acts) && Initial(trace[0]) && i < |trace|
    requires k in trace[i].nodes && trace[i].nodes[k].Wf()
    requires IsMaxEpoch(trace[i].nodes[k], max) && sender in trace[i].nodes[k].peers
    ensures var n := trace[i].nodes[k];
            var b := BumpEpoch(n, max);
            var c := HandleEpochCollision(n, sender);
            && max == n.currentEpoch
            && (b != n ==> StrictlyAbove(n, b))
            && (b == n <==> n.peers[n.id].configEpoch == n.currentEpoch != 0)
            && (c != n ==> StrictlyAbove(n, c))
  {
    EpochsBoundedInEveryRun(trace, acts, i);
    BumpOfBounded(trace[i].nodes[k], max);
    RepairOfBounded(trace[i].nodes[k], sender);
  }
}
