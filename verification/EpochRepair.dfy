/**
 * Repair of configEpoch collisions between masters: when a ping shows another
 * master with the same configEpoch, the node with the smaller name moves to a
 * new epoch. Over any interleaving of pings, with any delays, this stops.
 */
module EpochRepair {
  import opened Prelude
  import opened SlotClaims
  import opened ClusterBus
  import opened ClusterSystem
  import opened EpochBound
  import opened BusLaws

  /** The configEpoch node k gives itself. */
  function Own(s: System, k: NodeId): nat {
    if k in s.nodes && k in s.nodes[k].peers then s.nodes[k].peers[k].configEpoch else 0
  }

  /** A node whose headers name no master and publish its own epoch: a master, or a slave that knows of none. */
  predicate Speaks(n: Node)
    requires n.id in n.peers
  {
    n.Role().Master? || n.Role().of.None?
  }

  // ---------------------------------------------------------------------
  // What changes a node's own epoch
  // ---------------------------------------------------------------------

  /** By action a node k leaves its epoch, which a master of a greater name has published too. */
  predicate Moves(s: System, a: Action, k: NodeId)
    requires s.Wf()
  {
    && k in s.nodes && a.Deliver? && a.p.dst == k && a.p.body.Ping?
    && a.p.hdr.sender in s.nodes[k].peers && Collides(s.nodes[k], a.p.hdr)
  }

  /** By action a node k is told of an epoch of its own that it has not reached. */
  predicate Overtaken(s: System, a: Action, k: NodeId)
    requires s.Wf()
  {
    && k in s.nodes && a.Deliver? && a.p.dst == k && a.p.body.Update? && a.p.hdr.sender in s.nodes[k].peers
    && a.p.body.node == k && Own(s, k) < a.p.body.configEpoch
  }

  /** By action a node k takes an epoch without a collision: by winning, by bumping, or by command. */
  predicate Assigns(s: System, a: Action, k: NodeId)
    requires s.Wf()
  {
    && k in s.nodes
    && (|| (a.Win? && a.n == k && Own(s, k) < s.nodes[k].authEpoch)
        || ((a.Bump? || a.Takeover?) && a.n == k && (Own(s, k) == 0 || Own(s, k) != s.nodes[k].currentEpoch))
        || (a.SetConfigEpoch? && a.n == k && a.epoch != 0))
  }

  lemma PacketOwn(n: Node, p: Packet, tooSoon: bool)
    requires CanProcess(n, p) && p.hdr.sender in n.peers && Bounded(n)
    ensures var r := Process(n, p, tooSoon).node; var own := n.peers[n.id].configEpoch;
      && n.id in r.peers && own <= r.peers[n.id].configEpoch
      && (r.peers[n.id].configEpoch != own <==>
          || (p.body.Ping? && Collides(n, p.hdr))
          || (p.body.Update? && p.body.node == n.id && own < p.body.configEpoch))
  {
    hide HandlePing, HandleUpdate, Dethroned, Claimed;
    if p.body.Ping? {
      if p.hdr.slaveof.None? { PingOfMaster(n, p, tooSoon); } else { PingOfSlave(n, p, tooSoon); }
    }
    if p.body.Update? { UpdateIsAppliedIff(n, p, tooSoon, Observe(n, p.hdr)); }
  }

  lemma DeliverOwnIff(s: System, a: Action, r: System, k: NodeId)
    requires EpochInv(s) && Next(s, a, r) && k in s.nodes && a.Deliver?
    ensures Own(s, k) <= Own(r, k)
    ensures Own(r, k) != Own(s, k) <==> Moves(s, a, k) || Overtaken(s, a, k)
  {
    hide Process, Collides;
    var n := s.nodes[a.p.dst];
    assert r.nodes == s.nodes[a.p.dst := Process(n, a.p, a.tooSoon).node];
    if a.p.hdr.sender in n.peers {
      PacketOwn(n, a.p, a.tooSoon);
    } else {
      UnknownSenderIsIgnored(n, a.p, a.tooSoon);
    }
  }

  lemma LocalOwnIff(s: System, a: Action, r: System, k: NodeId)
    requires EpochInv(s) && Next(s, a, r) && k in s.nodes && !a.Deliver?
    ensures Own(s, k) <= Own(r, k)
    ensures Own(r, k) != Own(s, k) <==> Assigns(s, a, k)
  {
    hide Process, SentBy, VoteGranted, VoteCounted;
  }

  /**
   * What changes the epoch a node gives itself, exactly: a collision with a greater name, an UPDATE
   * that knows more of the node than it does itself, winning, bumping, or a command; and it only grows.
   */
  lemma OwnChangesIff(s: System, a: Action, r: System, k: NodeId)
    requires EpochInv(s) && Next(s, a, r) && k in s.nodes
    ensures Own(s, k) <= Own(r, k)
    ensures Own(r, k) != Own(s, k) <==> Moves(s, a, k) || Overtaken(s, a, k) || Assigns(s, a, k)
  {
    hide Do, Enabled, Own;
    if a.Deliver? { DeliverOwnIff(s, a, r, k); } else { LocalOwnIff(s, a, r, k); }
  }

  // ---------------------------------------------------------------------
  // What is published
  // ---------------------------------------------------------------------

  /** A header without a master is its sender's own word about its own epoch. */
  predicate OwnWord(n: Node, h: Header)
    requires n.id in n.peers
  {
    h.sender == n.id && (h.slaveof.None? ==> Speaks(n) && h.configEpoch == n.peers[n.id].configEpoch)
  }

  lemma HeaderIsOwnWord(n: Node, b: Node)
    requires n.Wf() && b.Wf() && b.id == n.id && b.peers[n.id].configEpoch == n.peers[n.id].configEpoch
    requires Speaks(b) ==> Speaks(n)
    ensures OwnWord(n, BuildHeader(b))
  {
  }

  lemma PingSends(n: Node, h: Header)
    requires n.Wf() && h.sender in n.peers && n.CurrentMaster().Some? && h.sender != n.id
    ensures var r := HandlePing(n, h);
            forall q | q in r.sent :: OwnWord(n, q.hdr) && (q.hdr.slaveof.Some? ==> !Speaks(r.node))
  {
    hide UpdateSlotsConfigWith, FirstOutdated, Dirty, OwnWord, Claimed, Dethroned, ServedBy;
    var a := SwitchRole(n, h);
    if a.peers[h.sender].role == Master { ApplyIsClaimStep(a, h); }
    HeaderIsOwnWord(n, ApplyClaim(a, h));
  }

  lemma PacketSends(n: Node, p: Packet, tooSoon: bool)
    requires CanProcess(n, p)
    ensures var r := Process(n, p, tooSoon);
            forall q | q in r.sent :: OwnWord(n, q.hdr) && (q.hdr.slaveof.Some? ==> !Speaks(r.node))
  {
    hide HandlePing, HandleUpdate, GrantsVote;
    if p.hdr.sender in n.peers {
      var o := Observe(n, p.hdr);
      HeaderIsOwnWord(n, o);
      if p.body.Ping? { PingSends(o, p.hdr); }
    }
  }

  lemma ActionSends(s: System, a: Action)
    requires s.Wf() && Enabled(s, a)
    ensures forall p | p in SentBy(s, a) ::
              && p.hdr.sender in s.nodes && OwnWord(s.nodes[p.hdr.sender], p.hdr)
              && (p.hdr.slaveof.Some? ==> !Speaks(Do(s, a).nodes[p.hdr.sender]))
  {
    hide Process;
    if a.Deliver? { PacketSends(s.nodes[a.p.dst], a.p, a.tooSoon); }
  }

  // ---------------------------------------------------------------------
  // Runs in which epochs change by repair alone
  // ---------------------------------------------------------------------

  /** Only members of `masters` speak for themselves. */
  predicate SpeakersAmong(s: System, masters: set<NodeId>) {
    forall k | k in s.nodes :: k in s.nodes[k].peers && s.nodes[k].id == k && (Speaks(s.nodes[k]) ==> k in masters)
  }

  /** No node changes its own epoch but by a collision. */
  predicate OnlyMoves(s: System, a: Action, r: System) {
    s.Wf() && forall k | k in s.nodes :: Own(r, k) == Own(s, k) || Moves(s, a, k)
  }

  /**
   * A run, with replicas, failures, elections and changing roles, in which configEpochs change by
   * collision repair alone; `masters` has all nodes that are masters at some time.
   */
  predicate RepairRun(trace: seq<System>, acts: seq<Action>, masters: set<NodeId>) {
    && IsRun(trace, acts) && Initial(trace[0]) && masters <= trace[0].nodes.Keys
    && (forall i | 0 <= i < |trace| :: SpeakersAmong(trace[i], masters))
    && (forall i | 0 <= i < |acts| :: OnlyMoves(trace[i], acts[i], trace[i + 1]))
  }

  lemma {:induction false} RunBasics(trace: seq<System>, acts: seq<Action>, i: nat)
    requires IsRun(trace, acts) && Initial(trace[0]) && i < |trace|
    ensures EpochInv(trace[i]) && trace[i].nodes.Keys == trace[0].nodes.Keys
  {
    hide Enabled, NodeAfter, SentBy, VoteGranted, VoteCounted;
    if i > 0 {
      RunBasics(trace, acts, i - 1);
      assert Next(trace[i - 1], acts[i - 1], trace[i]);
      ActionBounded(trace[i - 1], acts[i - 1], trace[i]);
    }
  }

  // ---------------------------------------------------------------------
  // Steady clusters
  // ---------------------------------------------------------------------

  /** No master is recorded with an epoch it has not reached itself. */
  predicate RecordsSound(s: System, masters: set<NodeId>) {
    forall k, p | k in s.nodes && p in s.nodes[k].peers && p in masters :: s.nodes[k].peers[p].configEpoch <= Own(s, p)
  }

  /** Nothing on the wire names an epoch of a master that it has not reached. */
  predicate PacketSound(s: System, p: Packet, masters: set<NodeId>) {
    && (p.hdr.sender in masters ==> p.hdr.configEpoch <= Own(s, p.hdr.sender))
    && (p.body.Update? && p.body.node in masters ==> p.body.configEpoch <= Own(s, p.body.node))
  }

  predicate StateInv(s: System, masters: set<NodeId>) {
    && EpochInv(s) && masters <= s.nodes.Keys && RecordsSound(s, masters)
    && forall p | p in s.net :: PacketSound(s, p, masters)
  }

  /** Exactly the nodes of `masters` speak for themselves; the others replicate some node. */
  predicate Speakers(s: System, masters: set<NodeId>) {
    forall k | k in s.nodes :: k in s.nodes[k].peers && s.nodes[k].id == k && (Speaks(s.nodes[k]) <==> k in masters)
  }

  /** A run of masters and replicas in which no failover completes and no command assigns an epoch. */
  predicate SteadyRun(trace: seq<System>, acts: seq<Action>, masters: set<NodeId>) {
    && IsRun(trace, acts) && Initial(trace[0]) && masters <= trace[0].nodes.Keys && RecordsSound(trace[0], masters)
    && (forall i | 0 <= i < |trace| :: Speakers(trace[i], masters))
    && (forall i | 0 <= i < |acts| :: !acts[i].Bump? && !acts[i].SetConfigEpoch?)
  }

  lemma NobodyIsAssigned(s: System, a: Action, r: System, masters: set<NodeId>, k: NodeId)
    requires EpochInv(s) && Next(s, a, r) && Speakers(s, masters) && Speakers(r, masters)
    requires k in s.nodes && !a.Bump? && !a.SetConfigEpoch?
    ensures !Assigns(s, a, k)
  {
    hide Do, Enabled, Speaks;
    if a.Win? || a.Takeover? { TakerSpeaksUp(s, a, r); }
  }

  lemma TakerSpeaksUp(s: System, a: Action, r: System)
    requires Next(s, a, r) && (a.Win? || a.Takeover?)
    ensures a.n in s.nodes && !Speaks(s.nodes[a.n]) && Speaks(r.nodes[a.n])
  {
    hide Process, SentBy, VoteGranted, VoteCounted;
  }

  lemma OvertakenIsMaster(s: System, a: Action, r: System, k: NodeId)
    requires s.Wf() && Next(s, a, r) && Overtaken(s, a, k)
    ensures Speaks(r.nodes[k])
  {
    hide Process, Dethroned, Claimed;
    var n := s.nodes[k];
    UpdateIsAppliedIff(n, a.p, a.tooSoon, Observe(n, a.p.hdr));
  }

  lemma NobodyIsOvertaken(s: System, a: Action, r: System, masters: set<NodeId>, k: NodeId)
    requires StateInv(s, masters) && Next(s, a, r) && Speakers(r, masters) && k in s.nodes
    ensures !Overtaken(s, a, k)
  {
    hide Do, Own;
    if a.Deliver? { assert PacketSound(s, a.p, masters); }
    if Overtaken(s, a, k) { OvertakenIsMaster(s, a, r, k); }
  }

  lemma SteadyMoves(s: System, a: Action, r: System, masters: set<NodeId>)
    requires StateInv(s, masters) && Next(s, a, r) && Speakers(s, masters) && Speakers(r, masters)
    requires !a.Bump? && !a.SetConfigEpoch?
    ensures OnlyMoves(s, a, r) && forall k | k in s.nodes :: Own(s, k) <= Own(r, k)
  {
    hide Do, Enabled, Own, Moves, Overtaken, Assigns, Speakers, StateInv;
    forall k | k in s.nodes ensures (Own(r, k) == Own(s, k) || Moves(s, a, k)) && Own(s, k) <= Own(r, k) {
      assert EpochInv(s) by { StateHasBound(s, masters); }
      OwnChangesIff(s, a, r, k);
      NobodyIsAssigned(s, a, r, masters, k);
      NobodyIsOvertaken(s, a, r, masters, k);
    }
    assert s.Wf();
  }

  lemma StateHasBound(s: System, masters: set<NodeId>)
    requires StateInv(s, masters)
    ensures EpochInv(s)
  {
  }

  /** Where the epochs on record about other nodes come from. */
  lemma PacketRecords(n: Node, p: Packet, tooSoon: bool)
    requires CanProcess(n, p)
    ensures var r := Process(n, p, tooSoon).node;
      && r.peers.Keys == n.peers.Keys
      && forall q | q in n.peers && q != n.id ::
           || r.peers[q].configEpoch == n.peers[q].configEpoch
           || (q == p.hdr.sender && r.peers[q].configEpoch == p.hdr.configEpoch)
           || (p.body.Update? && q == p.body.node && r.peers[q].configEpoch == p.body.configEpoch)
  {
    hide HandlePing, HandleUpdate, Dethroned, Claimed, Collides;
    if p.hdr.sender in n.peers {
      if p.body.Ping? {
        if p.hdr.slaveof.None? { PingOfMaster(n, p, tooSoon); } else { PingOfSlave(n, p, tooSoon); }
      }
      if p.body.Update? { UpdateIsAppliedIff(n, p, tooSoon, Observe(n, p.hdr)); }
    }
  }

  lemma DeliverRecords(s: System, a: Action, r: System, masters: set<NodeId>)
    requires StateInv(s, masters) && Next(s, a, r) && a.Deliver?
    requires forall k | k in s.nodes :: Own(s, k) <= Own(r, k)
    ensures RecordsSound(r, masters)
  {
    hide Process;
    var n := s.nodes[a.p.dst];
    PacketRecords(n, a.p, a.tooSoon);
    assert r.nodes == s.nodes[a.p.dst := Process(n, a.p, a.tooSoon).node];
    assert PacketSound(s, a.p, masters);
    forall k, p | k in r.nodes && p in r.nodes[k].peers && p in masters
      ensures r.nodes[k].peers[p].configEpoch <= Own(r, p)
    {
      if p != k { assert s.nodes[k].peers[p].configEpoch <= Own(s, p); }
    }
  }

  lemma LocalRecords(s: System, a: Action)
    requires s.Wf() && Enabled(s, a) && !a.Deliver?
    ensures NodeAfter(s, a).Some? ==>
              var y := NodeAfter(s, a).value; var x := s.nodes[y.id];
              forall q | q in y.peers && q != y.id ::
                y.peers[q].configEpoch == if q in x.peers then x.peers[q].configEpoch else 0
  {
    hide Process;
  }

  lemma ActionRecords(s: System, a: Action, r: System, masters: set<NodeId>)
    requires StateInv(s, masters) && Next(s, a, r)
    requires forall k | k in s.nodes :: Own(s, k) <= Own(r, k)
    ensures RecordsSound(r, masters)
  {
    hide NodeAfter, SentBy, VoteGranted, VoteCounted, Enabled;
    if a.Deliver? {
      DeliverRecords(s, a, r, masters);
    } else {
      LocalRecords(s, a);
      forall k, p | k in r.nodes && p in r.nodes[k].peers && p in masters
        ensures r.nodes[k].peers[p].configEpoch <= Own(r, p)
      {
        if p != k && p in s.nodes[k].peers { assert s.nodes[k].peers[p].configEpoch <= Own(s, p); }
      }
    }
  }

  lemma CorrectionIsOnRecord(n: Node, slots: Slots, h: Header, answers: bool, sent: seq<Packet>)
    requires (forall i | i in slots :: slots[i] in n.peers) && Corrects(n, slots, h, answers, sent)
    ensures forall q | q in sent && q.body.Update? ::
              q.body.node in n.peers && q.body.configEpoch == n.peers[q.body.node].configEpoch
  {
    if sent != [] {
      var j: Slot :| LeastOutdated(n, slots, h, j) && IsCorrection(n, slots, h, j, sent[0]);
      assert forall q | q in sent :: q == sent[0];
    }
  }

  /** An UPDATE that is sent repeats what its sender had on record. */
  lemma UpdateIsOnRecord(n: Node, p: Packet, tooSoon: bool)
    requires CanProcess(n, p)
    ensures forall q | q in Process(n, p, tooSoon).sent && q.body.Update? ::
              q.body.node in n.peers && q.body.configEpoch == n.peers[q.body.node].configEpoch
  {
    hide HandlePing, HandleUpdate, GrantsVote, Corrects, BuildHeader;
    if p.hdr.sender in n.peers && p.body.Ping? {
      PingIsAnsweredIff(n, p, tooSoon);
      var r := Process(n, p, tooSoon);
      CorrectionIsOnRecord(n, r.node.slots, p.hdr, Answers(r.node, p.hdr), r.sent);
    }
  }

  lemma NewPacketSound(s: System, a: Action, r: System, masters: set<NodeId>, p: Packet)
    requires StateInv(s, masters) && Next(s, a, r) && Speakers(r, masters)
    requires (forall k | k in s.nodes :: Own(s, k) <= Own(r, k)) && p in SentBy(s, a)
    ensures PacketSound(r, p, masters)
  {
    hide Process, NodeAfter, VoteGranted, VoteCounted;
    ActionSends(s, a);
    if a.Deliver? { UpdateIsOnRecord(s.nodes[a.p.dst], a.p, a.tooSoon); }
  }

  lemma ActionKeepsState(s: System, a: Action, r: System, masters: set<NodeId>)
    requires StateInv(s, masters) && Next(s, a, r) && Speakers(s, masters) && Speakers(r, masters)
    requires !a.Bump? && !a.SetConfigEpoch?
    ensures StateInv(r, masters)
  {
    hide NodeAfter, SentBy, VoteGranted, VoteCounted, Enabled, Speakers, Own;
    SteadyMoves(s, a, r, masters);
    ActionBounded(s, a, r);
    ActionRecords(s, a, r, masters);
    forall p | p in r.net ensures PacketSound(r, p, masters) {
      if p in s.net {
        assert PacketSound(s, p, masters);
      } else {
        assert p in SentBy(s, a);
        NewPacketSound(s, a, r, masters, p);
      }
    }
  }

  lemma {:induction false} RunKeepsState(trace: seq<System>, acts: seq<Action>, masters: set<NodeId>, i: nat)
    requires SteadyRun(trace, acts, masters) && i < |trace|
    ensures StateInv(trace[i], masters)
  {
    hide Do, Enabled, Speakers;
    if i > 0 {
      RunKeepsState(trace, acts, masters, i - 1);
      assert Next(trace[i - 1], acts[i - 1], trace[i]);
      ActionKeepsState(trace[i - 1], acts[i - 1], trace[i], masters);
    }
  }

  /** A cluster of masters and replicas that is left alone changes epochs by collision repair alone. */
  lemma SteadyRunsRepair(trace: seq<System>, acts: seq<Action>, masters: set<NodeId>)
    requires SteadyRun(trace, acts, masters)
    ensures RepairRun(trace, acts, masters)
  {
    hide Do, Enabled, StateInv, Next, RecordsSound, Initial;
    forall i | 0 <= i < |acts| ensures OnlyMoves(trace[i], acts[i], trace[i + 1]) {
      RunKeepsState(trace, acts, masters, i);
      assert Next(trace[i], acts[i], trace[i + 1]);
      SteadyMoves(trace[i], acts[i], trace[i + 1], masters);
    }
    forall i | 0 <= i < |trace| ensures SpeakersAmong(trace[i], masters) {
      assert Speakers(trace[i], masters);
    }
  }

  // ---------------------------------------------------------------------
  // What repair settles on
  // ---------------------------------------------------------------------

  /** The state after node j pings node i and the ping arrives. */
  function Pinged(s: System, j: NodeId, i: NodeId): System
    requires s.Wf() && j in s.nodes && i in s.nodes && i != j && s.nodes[i].CurrentMaster().Some?
  {
    var p := Packet(i, BuildHeader(s.nodes[j]), Ping);
    Do(Do(s, SendPing(j, i)), Deliver(p, false))
  }

  lemma PingedNode(s: System, j: NodeId, i: NodeId)
    requires s.Wf() && j in s.nodes && i in s.nodes && i != j && s.nodes[i].CurrentMaster().Some?
    ensures i in Pinged(s, j, i).nodes
    ensures Pinged(s, j, i).nodes[i] == Process(s.nodes[i], Packet(i, BuildHeader(s.nodes[j]), Ping), false).node
  {
    hide Process, BuildHeader, VoteGranted, VoteCounted;
    var p := Packet(i, BuildHeader(s.nodes[j]), Ping);
    var t := Do(s, SendPing(j, i));
    assert t.nodes == s.nodes;
  }

  /**
   * A ping of j makes i move exactly if i is a master, j speaks for itself and has the greater name,
   * and both have the same epoch, of which i has no newer one on record for j.
   */
  lemma PingRepairsIff(s: System, j: NodeId, i: NodeId)
    requires EpochInv(s) && j in s.nodes && i in s.nodes && i != j && s.nodes[i].CurrentMaster().Some?
    ensures Own(s, i) <= Own(Pinged(s, j, i), i)
    ensures Own(Pinged(s, j, i), i) != Own(s, i) <==>
            && s.nodes[i].Role() == Master && Speaks(s.nodes[j]) && i < j && Own(s, i) == Own(s, j)
            && j in s.nodes[i].peers && s.nodes[i].peers[j].configEpoch <= Own(s, j)
  {
    hide Process, Pinged, ServedBy;
    var n, p := s.nodes[i], Packet(i, BuildHeader(s.nodes[j]), Ping);
    PingedNode(s, j, i);
    if j in n.peers { PacketOwn(n, p, false); } else { UnknownSenderIsIgnored(n, p, false); }
  }

  /**
   * In every state of a steady run, two masters of which the smaller knows the greater have
   * different epochs exactly if a ping of the greater leaves the smaller where it is.
   */
  lemma QuietMeansDistinct(trace: seq<System>, acts: seq<Action>, masters: set<NodeId>, t: nat, i: NodeId, j: NodeId)
    requires SteadyRun(trace, acts, masters) && t < |trace| && trace[t].Wf()
    requires i in trace[t].nodes && i in masters && j in trace[t].nodes && j in masters && i < j
    requires j in trace[t].nodes[i].peers && trace[t].nodes[i].Role() == Master
    ensures Own(Pinged(trace[t], j, i), i) == Own(trace[t], i) <==> Own(trace[t], i) != Own(trace[t], j)
  {
    hide Do, Enabled, Pinged, Own, IsRun, Initial;
    RunKeepsState(trace, acts, masters, t);
    PingRepairsIff(trace[t], j, i);
    assert Speakers(trace[t], masters);
  }
}
