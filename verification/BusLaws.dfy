/**
 * What each packet does, stated from the packet and from what the receiver has
 * on record when it arrives, without the handlers in between.
 */
module BusLaws {
  import opened Prelude
  import opened SlotClaims
  import opened ClusterBus

  /** r is n with the two epochs of the header put on record, and nothing else changed. */
  predicate Noted(n: Node, h: Header, r: Node)
    requires h.sender in n.peers
  {
    && r == n.(currentEpoch := r.currentEpoch, peers := r.peers)
    && r.currentEpoch == Max(n.currentEpoch, h.currentEpoch)
    && r.peers.Keys == n.peers.Keys
    && (forall q | q in n.peers && q != h.sender :: r.peers[q] == n.peers[q])
    && r.peers[h.sender] == n.peers[h.sender].(configEpoch := Max(n.peers[h.sender].configEpoch, h.configEpoch))
  }

  lemma NotedIsObserve(n: Node, h: Header, o: Node)
    requires n.Wf() && h.sender in n.peers && Noted(n, h, o)
    ensures o == Observe(n, h)
  {
    var a := Observe(n, h);
    assert forall q | q in n.peers :: o.peers[q] == a.peers[q];
    assert o.peers == a.peers;
  }

  /** A packet of an unknown sender is ignored. */
  lemma UnknownSenderIsIgnored(n: Node, p: Packet, tooSoon: bool)
    requires CanProcess(n, p) && p.hdr.sender !in n.peers
    ensures Process(n, p, tooSoon) == Outcome(n, [])
  {
  }

  lemma ServesIff(slots: Slots, m: NodeId)
    ensures ServedBy(slots, m) != {} <==> exists j :: j in slots && slots[j] == m
  {
    if j :| j in slots && slots[j] == m { assert j in ServedBy(slots, m); }
    if j :| j in ServedBy(slots, m) { assert j in slots && slots[j] == m; }
  }

  // ---------------------------------------------------------------------
  // Votes
  // ---------------------------------------------------------------------

  /** What makes n vote for the sender of the request p. */
  predicate Deserves(n: Node, p: Packet, tooSoon: bool)
    requires n.Wf() && p.hdr.sender in n.peers && p.body.AuthRequest?
  {
    var h := p.hdr;
    && n.peers[n.id].role == Master && (exists j :: j in n.slots && n.slots[j] == n.id)
    && n.currentEpoch <= h.currentEpoch && n.lastVoteEpoch != h.currentEpoch
    && n.peers[h.sender].role.Slave? && n.peers[h.sender].role.of.Some?
    && (n.peers[n.peers[h.sender].role.of.value].failed || p.body.force)
    && !tooSoon
    && (forall j | j in h.myslots && j in n.slots :: n.peers[n.slots[j]].configEpoch <= h.configEpoch)
  }

  lemma DeservesIffGrants(n: Node, p: Packet, tooSoon: bool)
    requires CanProcess(n, p) && p.body.AuthRequest? && p.hdr.sender in n.peers
    ensures GrantsVote(Observe(n, p.hdr), p.hdr, p.body.force, tooSoon) <==> Deserves(n, p, tooSoon)
    ensures Deserves(n, p, tooSoon) ==> Observe(n, p.hdr).currentEpoch == p.hdr.currentEpoch
  {
    var h := p.hdr;
    var o := Observe(n, h);
    var role := n.peers[h.sender].role;
    ServesIff(n.slots, n.id);
    if role.Slave? && role.of.Some? { assert o.peers[role.of.value].failed == n.peers[role.of.value].failed; }
    assert ClaimIsCurrent(o, h) <==>
      forall j | j in h.myslots && j in n.slots :: n.peers[n.slots[j]].configEpoch <= h.configEpoch;
  }

  /**
   * A vote is granted exactly to a replica of a master on record as failed, or one that
   * forces the failover, whose claim is not behind any owner on record; by a master serving
   * slots that has not voted in that epoch nor too recently about that master.
   */
  lemma VoteIsGrantedIff(n: Node, p: Packet, tooSoon: bool)
    requires CanProcess(n, p) && p.body.AuthRequest? && p.hdr.sender in n.peers
    ensures var r := Process(n, p, tooSoon);
      && (Deserves(n, p, tooSoon) ==>
            && |r.sent| == 1 && r.sent[0].dst == p.hdr.sender && r.sent[0].body == AuthAck
            && r.sent[0].hdr.sender == n.id && r.sent[0].hdr.currentEpoch == p.hdr.currentEpoch
            && r.node.lastVoteEpoch == p.hdr.currentEpoch)
      && (!Deserves(n, p, tooSoon) ==> r.sent == [] && r.node.lastVoteEpoch == n.lastVoteEpoch)
      && Noted(n, p.hdr, r.node.(lastVoteEpoch := n.lastVoteEpoch))
  {
    hide Deserves, GrantsVote;
    DeservesIffGrants(n, p, tooSoon);
  }

  /** A vote is counted exactly if its sender is on record as a master serving slots and is not behind the election. */
  lemma AckIsCountedIff(n: Node, p: Packet, tooSoon: bool)
    requires CanProcess(n, p) && p.body.AuthAck? && p.hdr.sender in n.peers
    ensures var r := Process(n, p, tooSoon);
            var counts := && n.peers[p.hdr.sender].role == Master && n.authEpoch <= p.hdr.currentEpoch
                          && exists j :: j in n.slots && n.slots[j] == p.hdr.sender;
      && r.sent == [] && r.node.authCount == n.authCount + (if counts then 1 else 0)
      && Noted(n, p.hdr, r.node.(authCount := n.authCount))
  {
    ServesIff(n.slots, p.hdr.sender);
  }

  /** A FAIL packet flags the node it names, unless that is the receiver, and no other. */
  lemma FailFlagsOne(n: Node, p: Packet, tooSoon: bool)
    requires CanProcess(n, p) && p.body.Fail? && p.hdr.sender in n.peers
    ensures var r := Process(n, p, tooSoon);
      && r.sent == [] && r.node.peers.Keys == n.peers.Keys
      && r.node == n.(currentEpoch := Max(n.currentEpoch, p.hdr.currentEpoch), peers := r.node.peers)
      && forall q | q in n.peers ::
           && r.node.peers[q].failed == (n.peers[q].failed || (q == p.body.about && q != n.id))
           && r.node.peers[q].role == n.peers[q].role
           && r.node.peers[q].configEpoch ==
              (if q == p.hdr.sender then Max(n.peers[q].configEpoch, p.hdr.configEpoch) else n.peers[q].configEpoch)
  {
  }

  // ---------------------------------------------------------------------
  // Slot claims
  // ---------------------------------------------------------------------

  /** Slot j goes to the claimer: it is not being imported, and free or bound under a smaller epoch. */
  predicate Yields(n: Node, epoch: nat, claim: set<Slot>, j: Slot)
    requires n.Wf()
  {
    j in claim && j !in n.importing && (j in n.slots ==> n.peers[n.slots[j]].configEpoch < epoch)
  }

  /** The table after the claim: what yields belongs to the claimer, the rest is as it was. */
  predicate Claimed(n: Node, sender: NodeId, epoch: nat, claim: set<Slot>, slots: Slots)
    requires n.Wf()
  {
    forall j: Slot ::
      if Yields(n, epoch, claim, j) then j in slots && slots[j] == sender
      else (j in slots <==> j in n.slots) && (j in n.slots ==> slots[j] == n.slots[j])
  }

  /** The node's own master, or the node itself, had slots taken from it and has none left. */
  predicate Dethroned(n: Node, slots: Slots)
    requires n.Wf() && n.CurrentMaster().Some?
  {
    && (exists j :: j in n.slots && n.slots[j] == n.CurrentMaster().value && j in slots && slots[j] != n.slots[j])
    && (forall j | j in slots :: slots[j] != n.CurrentMaster().value)
  }

  /** What a claim does to n: the table, and n becomes a replica of the claimer exactly if dethroned. */
  predicate ClaimStep(n: Node, sender: NodeId, epoch: nat, claim: set<Slot>, r: Node)
    requires n.Wf() && n.CurrentMaster().Some?
  {
    && Claimed(n, sender, epoch, claim, r.slots)
    && r == n.(slots := r.slots, peers := r.peers, importing := r.importing)
    && r.peers == (if Dethroned(n, r.slots) then n.peers[n.id := n.peers[n.id].(role := Slave(Some(sender)))]
                   else n.peers)
    && r.importing == (if Dethroned(n, r.slots) && n.Role() == Master then {} else n.importing)
  }

  lemma RebindIsClaimed(n: Node, sender: NodeId, epoch: nat, claim: set<Slot>)
    requires n.Wf()
    ensures Claimed(n, sender, epoch, claim, Rebind(n.slots, n.importing, n.Epochs(), sender, epoch, claim))
  {
  }

  lemma ClaimIsClaimStep(n: Node, sender: NodeId, epoch: nat, claim: set<Slot>)
    requires n.Wf() && sender in n.peers && n.CurrentMaster().Some? && sender != n.id
    ensures ClaimStep(n, sender, epoch, claim, UpdateSlotsConfigWith(n, sender, epoch, claim))
  {
    hide Claimed;
    RebindIsClaimed(n, sender, epoch, claim);
    var slots := Rebind(n.slots, n.importing, n.Epochs(), sender, epoch, claim);
    var m := n.CurrentMaster().value;
    ServesIff(slots, m);
    assert Dethroned(n, slots) <==> RobsCurrentMaster(n, sender, epoch, claim) && ServedBy(slots, m) == {};
  }

  /** n leaves its epoch: a master of a greater name, not recorded with a newer one, published the same. */
  predicate Collides(n: Node, h: Header)
    requires n.id in n.peers && h.sender in n.peers
  {
    && h.slaveof.None? && n.peers[n.id].role == Master
    && n.id < h.sender && n.peers[h.sender].configEpoch <= h.configEpoch == n.peers[n.id].configEpoch
  }

  /** n after a ping of a master, field by field. */
  predicate MasterPinged(n: Node, h: Header, r: Node)
    requires n.Wf() && n.CurrentMaster().Some? && h.sender in n.peers
  {
    var lost, moves := Dethroned(n, r.slots), Collides(n, h);
    var epoch := Max(n.currentEpoch, h.currentEpoch) + if moves then 1 else 0;
    && r == n.(slots := r.slots, peers := r.peers, importing := r.importing, currentEpoch := epoch)
    && Claimed(n, h.sender, h.configEpoch, h.myslots, r.slots)
    && r.importing == (if lost && n.Role() == Master then {} else n.importing)
    && r.peers.Keys == n.peers.Keys
    && (forall q | q in n.peers && q != n.id && q != h.sender :: r.peers[q] == n.peers[q])
    && r.peers[h.sender] ==
       n.peers[h.sender].(role := Master, configEpoch := Max(n.peers[h.sender].configEpoch, h.configEpoch))
    && r.peers[n.id] ==
       n.peers[n.id].(role := if lost then Slave(Some(h.sender)) else n.Role(),
                      configEpoch := if moves then epoch else n.peers[n.id].configEpoch)
  }

  lemma ApplyIsClaimStep(n: Node, h: Header)
    requires n.Wf() && h.sender in n.peers && n.CurrentMaster().Some? && h.sender != n.id
    requires n.peers[h.sender].role == Master
    ensures ClaimStep(n, h.sender, h.configEpoch, h.myslots, ApplyClaim(n, h))
  {
    hide UpdateSlotsConfigWith;
    if Dirty(n, h) {
      ClaimIsClaimStep(n, h.sender, h.configEpoch, h.myslots);
    } else {
      assert forall j | j in h.myslots :: j in ServedBy(n.slots, h.sender);
    }
  }

  /**
   * A ping of a master: exactly the slots that yield become the sender's, the receiver becomes
   * its replica exactly if dethroned, and moves to a new epoch exactly if theirs collide.
   */
  lemma PingOfMaster(n: Node, p: Packet, tooSoon: bool)
    requires CanProcess(n, p) && p.body.Ping? && p.hdr.sender in n.peers && p.hdr.slaveof.None?
    ensures MasterPinged(n, p.hdr, Process(n, p, tooSoon).node)
  {
    hide ApplyClaim, UpdateReply, Dethroned, Claimed, Rebind;
    var h := p.hdr;
    var a := SwitchRole(Observe(n, h), h);
    ApplyIsClaimStep(a, h);
    var b := ApplyClaim(a, h);
    SameClaim(n, a, h, b.slots);
  }

  lemma SameClaim(n: Node, a: Node, h: Header, slots: Slots)
    requires n.Wf() && a.Wf() && n.CurrentMaster().Some? && a.CurrentMaster() == n.CurrentMaster()
    requires a.slots == n.slots && a.importing == n.importing && a.peers.Keys == n.peers.Keys
    requires forall q | q in n.peers && q != h.sender :: a.peers[q].configEpoch == n.peers[q].configEpoch
    requires Claimed(a, h.sender, h.configEpoch, h.myslots, slots)
    ensures Claimed(n, h.sender, h.configEpoch, h.myslots, slots)
    ensures Dethroned(n, slots) <==> Dethroned(a, slots)
    ensures n.Role() == Master && n.peers[n.id].configEpoch == h.configEpoch ==> !Dethroned(n, slots)
  {
  }

  /** n after a ping of a replica: its role is noted, and it serves no slots; nothing else changes. */
  predicate SlavePinged(n: Node, h: Header, r: Node)
    requires n.Wf() && h.sender in n.peers && h.slaveof.Some?
  {
    var was := n.peers[h.sender];
    && r == n.(slots := r.slots, peers := r.peers, currentEpoch := Max(n.currentEpoch, h.currentEpoch))
    && (forall j: Slot :: j in r.slots <==> j in n.slots && (was.role == Master ==> n.slots[j] != h.sender))
    && (forall j | j in r.slots :: r.slots[j] == n.slots[j])
    && r.peers.Keys == n.peers.Keys
    && (forall q | q in n.peers && q != h.sender :: r.peers[q] == n.peers[q])
    && r.peers[h.sender] ==
       was.(role := if h.slaveof.value in n.peers then Slave(h.slaveof) else if was.role == Master then Slave(None)
                    else was.role,
            configEpoch := Max(was.configEpoch, h.configEpoch))
  }

  /** A ping of a replica never makes the receiver change its own record, its epoch in particular. */
  lemma PingOfSlave(n: Node, p: Packet, tooSoon: bool)
    requires CanProcess(n, p) && p.body.Ping? && p.hdr.sender in n.peers && p.hdr.slaveof.Some?
    ensures SlavePinged(n, p.hdr, Process(n, p, tooSoon).node)
  {
    hide UpdateSlotsConfigWith, UpdateReply;
  }

  // ---------------------------------------------------------------------
  // Updates
  // ---------------------------------------------------------------------

  /** Slot j, which the sender of h claims, is known to be served by another node under a greater epoch. */
  predicate Outdated(n: Node, slots: Slots, h: Header, j: Slot)
    requires forall i | i in slots :: slots[i] in n.peers
  {
    j in h.myslots && j in slots && slots[j] != h.sender && n.peers[slots[j]].configEpoch > h.configEpoch
  }

  predicate LeastOutdated(n: Node, slots: Slots, h: Header, j: Slot)
    requires forall i | i in slots :: slots[i] in n.peers
  {
    Outdated(n, slots, h, j) && forall i: Slot | i < j :: !Outdated(n, slots, h, i)
  }

  lemma FirstOutdatedIsLeast(n: Node, h: Header, from: nat)
    requires n.Wf()
    ensures match FirstOutdated(n, h, from)
            case Some(j) => from <= j && Outdated(n, n.slots, h, j) &&
                            forall i: Slot | from <= i < j :: !Outdated(n, n.slots, h, i)
            case None => forall i: Slot | from <= i :: !Outdated(n, n.slots, h, i)
    decreases CLUSTER_SLOTS - from
  {
    if from < CLUSTER_SLOTS && FirstOutdated(n, h, from) != Some(from) {
      FirstOutdatedIsLeast(n, h, from + 1);
    }
  }

  /** A replica's ping is answered only if it publishes other slots than those on record for its known master. */
  predicate Answers(r: Node, h: Header)
    requires h.sender in r.peers
  {
    var role := r.peers[h.sender].role;
    role == Master || (role.of.Some? && ServedBy(r.slots, role.of.value) != h.myslots)
  }

  /** The one packet that answers an outdated claim. */
  predicate IsCorrection(n: Node, slots: Slots, h: Header, j: Slot, q: Packet)
    requires j in slots && slots[j] in n.peers
  {
    && q.dst == h.sender && q.hdr.sender == n.id
    && q.body == Update(slots[j], n.peers[slots[j]].configEpoch, ServedBy(slots, slots[j]))
  }

  /** The answers given, for the table `slots` and the epochs on record with n. */
  predicate Corrects(n: Node, slots: Slots, h: Header, answers: bool, sent: seq<Packet>)
    requires forall i | i in slots :: slots[i] in n.peers
  {
    && (sent == [] <==> !answers || forall j: Slot :: !Outdated(n, slots, h, j))
    && (sent != [] ==>
          && |sent| == 1
          && exists j: Slot :: LeastOutdated(n, slots, h, j) && IsCorrection(n, slots, h, j, sent[0]))
  }

  lemma ReplyCorrects(n: Node, h: Header, dirty: bool)
    requires n.Wf()
    ensures Corrects(n, n.slots, h, dirty, UpdateReply(n, h, dirty))
  {
    FirstOutdatedIsLeast(n, h, 0);
    if dirty {
      match FirstOutdated(n, h, 0) {
        case Some(j) =>
          assert LeastOutdated(n, n.slots, h, j) && IsCorrection(n, n.slots, h, j, UpdateReply(n, h, dirty)[0]);
        case None =>
      }
    }
  }

  lemma SameCorrects(b: Node, n: Node, slots: Slots, h: Header, answers: bool, sent: seq<Packet>)
    requires (forall i | i in slots :: slots[i] in b.peers) && b.peers.Keys == n.peers.Keys && b.id == n.id
    requires forall q | q in n.peers && q != h.sender :: b.peers[q].configEpoch == n.peers[q].configEpoch
    requires Corrects(b, slots, h, answers, sent)
    requires h.sender in n.peers && h.sender != n.id
    ensures Corrects(n, slots, h, answers, sent)
  {
    forall j: Slot ensures Outdated(n, slots, h, j) == Outdated(b, slots, h, j) { }
    if sent != [] {
      var j: Slot :| LeastOutdated(b, slots, h, j) && IsCorrection(b, slots, h, j, sent[0]);
      assert LeastOutdated(n, slots, h, j) && IsCorrection(n, slots, h, j, sent[0]);
    }
  }

  /** A claim that is on record already is not outdated. */
  lemma OnRecordIsCurrent(n: Node, h: Header)
    requires n.Wf() && ServedBy(n.slots, h.sender) == h.myslots
    ensures forall j: Slot :: !Outdated(n, n.slots, h, j)
  {
    forall j: Slot ensures !Outdated(n, n.slots, h, j) {
      if j in h.myslots { assert j in ServedBy(n.slots, h.sender); }
    }
  }

  /**
   * A ping is answered exactly if it claims a slot known to be served under a greater epoch,
   * and then by one UPDATE about the owner of the least such slot, with all its slots.
   */
  lemma PingIsAnsweredIff(n: Node, p: Packet, tooSoon: bool)
    requires CanProcess(n, p) && p.body.Ping? && p.hdr.sender in n.peers
    ensures var r := Process(n, p, tooSoon);
            r.node.peers.Keys == n.peers.Keys && Corrects(n, r.node.slots, p.hdr, Answers(r.node, p.hdr), r.sent)
  {
    hide UpdateReply, Corrects, UpdateSlotsConfigWith, Rebind;
    var h := p.hdr;
    var a := SwitchRole(Observe(n, h), h);
    var b := ApplyClaim(a, h);
    ReplyCorrects(b, h, Dirty(a, h));
    var sent := UpdateReply(b, h, Dirty(a, h));
    var r := ResolveCollision(b, h);
    if h.slaveof.None? {
      PingOfMaster(n, p, tooSoon);
      ApplyIsClaimStep(a, h);
      assert Corrects(b, b.slots, h, Answers(r, h), sent) by { AnswersOfMaster(a, h); }
    }
    SameCorrects(b, n, b.slots, h, Answers(r, h), sent);
  }

  lemma AnswersOfMaster(a: Node, h: Header)
    requires a.Wf() && h.sender in a.peers && a.CurrentMaster().Some? && h.sender != a.id
    requires a.peers[h.sender].role == Master
    ensures var b := ApplyClaim(a, h); Corrects(b, b.slots, h, true, UpdateReply(b, h, Dirty(a, h)))
  {
    hide UpdateSlotsConfigWith, UpdateReply;
    var b := ApplyClaim(a, h);
    ReplyCorrects(b, h, Dirty(a, h));
    if !Dirty(a, h) { OnRecordIsCurrent(a, h); }
  }

  /** o after an UPDATE about another node that o records with an older epoch. */
  predicate Updated(o: Node, about: NodeId, epoch: nat, claim: set<Slot>, r: Node)
    requires o.Wf() && o.CurrentMaster().Some? && about in o.peers && about != o.id
  {
    var lost := Dethroned(o, r.slots);
    && r == o.(slots := r.slots, peers := r.peers, importing := r.importing)
    && Claimed(o, about, epoch, claim, r.slots)
    && r.importing == (if lost && o.Role() == Master then {} else o.importing)
    && r.peers.Keys == o.peers.Keys
    && (forall q | q in o.peers && q != o.id && q != about :: r.peers[q] == o.peers[q])
    && r.peers[about] == o.peers[about].(role := Master, configEpoch := epoch)
    && r.peers[o.id] == o.peers[o.id].(role := if lost then Slave(Some(about)) else o.Role())
  }

  /**
   * An UPDATE takes effect exactly if it names a known node under a newer epoch: the node is then
   * a master of that epoch, and slots follow as if it had claimed them itself.
   */
  lemma UpdateIsAppliedIff(n: Node, p: Packet, tooSoon: bool, o: Node)
    requires CanProcess(n, p) && p.body.Update? && p.hdr.sender in n.peers && Noted(n, p.hdr, o)
    ensures var r := Process(n, p, tooSoon); var b := p.body;
      && r.sent == [] && o.Wf()
      && if b.node !in o.peers || b.configEpoch <= o.peers[b.node].configEpoch then r.node == o
         else if b.node == o.id then
           r.node == o.(peers := o.peers[o.id := o.peers[o.id].(role := Master, configEpoch := b.configEpoch)])
         else Updated(o, b.node, b.configEpoch, b.slots, r.node)
  {
    hide UpdateSlotsConfigWith, Dethroned, Claimed;
    NotedIsObserve(n, p.hdr, o);
    var b := p.body;
    if b.node in o.peers && o.peers[b.node].configEpoch < b.configEpoch {
      var a := o.(peers := o.peers[b.node := o.peers[b.node].(role := Master, configEpoch := b.configEpoch)]);
      if b.node == o.id {
        ClaimOfOneself(a, b.configEpoch, b.slots);
      } else {
        ClaimIsClaimStep(a, b.node, b.configEpoch, b.slots);
        var h := p.hdr.(sender := b.node, configEpoch := b.configEpoch, myslots := b.slots);
        SameClaim(o, a, h, UpdateSlotsConfigWith(a, b.node, b.configEpoch, b.slots).slots);
      }
    }
  }

  lemma ClaimOfOneself(n: Node, epoch: nat, claim: set<Slot>)
    requires n.Wf() && n.CurrentMaster().Some?
    ensures UpdateSlotsConfigWith(n, n.id, epoch, claim) == n
  {
  }
}
