/**
 * Safety of failover elections: with a fixed set of voters, no two slaves ever
 * win an election of the same epoch.
 */
module Election {
  import opened Prelude
  import opened SlotClaims
  import opened ClusterBus
  import opened ClusterSystem
  import opened EpochBound

  /** The voters whose ACK for the election (epoch, candidate) was counted. */
  function Supporters(s: System, epoch: nat, candidate: NodeId): set<NodeId> {
    set v | v in s.counted && v.epoch == epoch && v.candidate == candidate :: v.voter
  }

  function AckVote(p: Packet): Vote {
    Vote(p.hdr.sender, p.hdr.currentEpoch, p.dst)
  }

  // ---------------------------------------------------------------------
  // The invariant
  // ---------------------------------------------------------------------

  /** One vote per voter and epoch, never beyond lastVoteEpoch, only by voters. */
  predicate VotesInv(s: System, voters: set<NodeId>) {
    && (forall v, w | v in s.granted && w in s.granted && v.voter == w.voter && v.epoch == w.epoch :: v == w)
    && (forall v | v in s.granted ::
          && v.voter in voters
          && v.voter in s.nodes && v.epoch <= s.nodes[v.voter].lastVoteEpoch
          && v.candidate in s.nodes && v.epoch <= s.nodes[v.candidate].authEpoch)
    && s.counted <= s.granted
  }

  /** Every ACK in flight is the only copy of a vote granted and not yet counted. */
  predicate AcksInv(s: System) {
    && (forall p | p in s.net && p.body.AuthAck? ::
          AckVote(p) in s.granted && AckVote(p) !in s.counted && s.net[p] == 1)
    && (forall p, q | p in s.net && q in s.net && p.body.AuthAck? && q.body.AuthAck? && AckVote(p) == AckVote(q) ::
          p == q)
  }

  /** A request in flight belongs to an election its sender did open. */
  predicate RequestsInv(s: System) {
    forall p | p in s.net && p.body.AuthRequest? ::
      p.hdr.sender in s.nodes && p.hdr.currentEpoch <= s.nodes[p.hdr.sender].authEpoch
  }

  /** failover_auth_count is the number of distinct supporters of the open election. */
  predicate CountIsSound(s: System, n: Node) {
    n.authSent ==> n.authCount == |Supporters(s, n.authEpoch, n.id)|
  }

  predicate WinsInv(s: System, voters: set<NodeId>) {
    forall w | w in s.won :: |Supporters(s, w.epoch, w.winner)| >= Quorum(|voters|)
  }

  /** What holds of votes and ACKs whatever the counts are. */
  predicate VotingInv(s: System, voters: set<NodeId>) {
    EpochInv(s) && VotesInv(s, voters) && AcksInv(s) && RequestsInv(s)
  }

  predicate CountsSound(s: System) {
    forall k | k in s.nodes :: CountIsSound(s, s.nodes[k])
  }

  predicate ElectionInv(s: System, voters: set<NodeId>) {
    VotingInv(s, voters) && CountsSound(s) && WinsInv(s, voters)
  }

  // ---------------------------------------------------------------------
  // The runs considered
  // ---------------------------------------------------------------------

  /** Only members of the agreed voter set grant votes, and every candidate computes its quorum from that set. */
  predicate Fair(s: System, voters: set<NodeId>, a: Action)
    requires s.Wf() && Enabled(s, a)
  {
    && (VoteGranted(s, a).Some? ==> VoteGranted(s, a).value.voter in voters)
    && (a.Win? ==> a.size == |voters|)
  }

  /**
   * Votes are asked for with no ACK counted since the election was scheduled. The source does
   * not see to it: see StaleAck.StaleAckElectsTwo, and StaleAck.CountsAreSoundIff for why this
   * is the exact condition on the counts.
   */
  predicate StartsFromZero(s: System, a: Action)
    requires s.Wf() && Enabled(s, a)
  {
    a.Ask? ==> s.nodes[a.n].authCount == 0
  }

  predicate FairRun(trace: seq<System>, acts: seq<Action>, voters: set<NodeId>) {
    && IsRun(trace, acts) && Initial(trace[0])
    && forall i | 0 <= i < |acts| :: Next(trace[i], acts[i], trace[i + 1]) && Fair(trace[i], voters, acts[i])
  }

  /** Every election of the run starts from a count of zero. */
  predicate CleanRun(trace: seq<System>, acts: seq<Action>)
    requires IsRun(trace, acts)
  {
    forall i | 0 <= i < |acts| :: Next(trace[i], acts[i], trace[i + 1]) && StartsFromZero(trace[i], acts[i])
  }

  // ---------------------------------------------------------------------
  // What one packet does to votes and elections
  // ---------------------------------------------------------------------

  /** The election data of a node is untouched. */
  predicate SameElection(x: Node, y: Node) {
    && y.id == x.id && y.authEpoch == x.authEpoch && y.authSent == x.authSent
    && y.authCount == x.authCount && y.lastVoteEpoch == x.lastVoteEpoch
  }

  lemma ClaimFrame(n: Node, sender: NodeId, epoch: nat, claim: set<Slot>)
    requires n.Wf() && sender in n.peers && n.CurrentMaster().Some?
    ensures SameElection(n, UpdateSlotsConfigWith(n, sender, epoch, claim))
  {
  }

  lemma PingFrame(n: Node, h: Header)
    requires n.Wf() && h.sender in n.peers && n.CurrentMaster().Some? && h.sender != n.id
    ensures var r := HandlePing(n, h);
            SameElection(n, r.node) && forall p | p in r.sent :: p.body.Update?
  {
    var a := SwitchRole(n, h);
    assert SameElection(n, a);
    ClaimFrame(a, h.sender, h.configEpoch, h.myslots);
  }

  lemma UpdateFrame(n: Node, about: NodeId, epoch: nat, claim: set<Slot>)
    requires n.Wf() && n.CurrentMaster().Some?
    ensures SameElection(n, HandleUpdate(n, about, epoch, claim))
  {
    if about in n.peers && n.peers[about].configEpoch < epoch {
      var a := n.(peers := n.peers[about := n.peers[about].(role := Master, configEpoch := epoch)]);
      ClaimFrame(a, about, epoch, claim);
    }
  }

  /** Packets other than requests and ACKs leave elections alone. */
  lemma OtherPacketFrame(n: Node, p: Packet, tooSoon: bool)
    requires CanProcess(n, p) && ((!p.body.AuthRequest? && !p.body.AuthAck?) || p.hdr.sender !in n.peers)
    ensures var r := Process(n, p, tooSoon);
            SameElection(n, r.node) && forall q | q in r.sent :: q.body.Update?
  {
    if p.hdr.sender in n.peers {
      var o := Observe(n, p.hdr);
      if p.body.Ping? { PingFrame(o, p.hdr); }
      if p.body.Update? { UpdateFrame(o, p.body.node, p.body.configEpoch, p.body.slots); }
    }
  }

  /** A granted vote is newer than every earlier one of the voter, and for the epoch asked for. */
  lemma RequestFrame(n: Node, p: Packet, tooSoon: bool)
    requires CanProcess(n, p) && p.body.AuthRequest? && p.hdr.sender in n.peers && Bounded(n)
    ensures var o := Observe(n, p.hdr);
            var r := Process(n, p, tooSoon);
            if GrantsVote(o, p.hdr, p.body.force, tooSoon) then
              && n.lastVoteEpoch < o.currentEpoch == p.hdr.currentEpoch
              && r.node.lastVoteEpoch == o.currentEpoch
              && SameElection(n, r.node.(lastVoteEpoch := n.lastVoteEpoch))
              && |r.sent| == 1 && r.sent[0].body.AuthAck?
              && AckVote(r.sent[0]) == Vote(n.id, o.currentEpoch, p.hdr.sender)
            else SameElection(n, r.node) && r.sent == []
  {
  }

  lemma AckFrame(n: Node, p: Packet, tooSoon: bool)
    requires CanProcess(n, p) && p.body.AuthAck? && p.hdr.sender in n.peers
    ensures var o := Observe(n, p.hdr);
            var r := Process(n, p, tooSoon);
            && r.sent == []
            && (CountsAck(o, p.hdr) ==> n.authEpoch <= p.hdr.currentEpoch)
            && SameElection(n.(authCount := n.authCount + if CountsAck(o, p.hdr) then 1 else 0), r.node)
  {
  }

  // ---------------------------------------------------------------------
  // What one action does, seen by elections alone
  // ---------------------------------------------------------------------

  /** The packets and votes of one action. */
  datatype Effect = Effect(gone: multiset<Packet>, sent: seq<Packet>, granted: Option<Vote>, counted: Option<Vote>)

  function EffectOf(s: System, a: Action): Effect
    requires s.Wf() && Enabled(s, a)
  {
    Effect(if a.Deliver? || a.Lose? then multiset{a.p} else multiset{},
           SentBy(s, a), VoteGranted(s, a), VoteCounted(s, a))
  }

  /** How one node may change: it opens an election, schedules one, or counts what it is sent. */
  predicate NodeStep(x: Node, y: Node, counts: bool) {
    && y.id == x.id && x.authEpoch <= y.authEpoch && x.lastVoteEpoch <= y.lastVoteEpoch
    && (|| (!x.authSent && y.authSent && x.authEpoch < y.authEpoch && y.authCount == x.authCount && !counts)
        || (!y.authSent && y.authCount == 0 && y.authEpoch == x.authEpoch && !counts)
        || (&& y.authSent == x.authSent && y.authEpoch == x.authEpoch
            && y.authCount == x.authCount + if counts then 1 else 0))
  }

  predicate Counts(e: Effect, k: NodeId) {
    e.counted.Some? && e.counted.value.candidate == k
  }

  predicate GrantStep(s: System, r: System, v: Vote) {
    && v.voter in s.nodes && v.voter in r.nodes
    && s.nodes[v.voter].lastVoteEpoch < v.epoch <= r.nodes[v.voter].lastVoteEpoch
    && v.candidate in s.nodes && v.epoch <= s.nodes[v.candidate].authEpoch
  }

  predicate CountStep(s: System, e: Effect, v: Vote) {
    && (exists p :: p in s.net && p.body.AuthAck? && AckVote(p) == v && e.gone == multiset{p})
    && v.candidate in s.nodes && s.nodes[v.candidate].authEpoch <= v.epoch
  }

  predicate SendStep(r: System, e: Effect) {
    forall p | p in e.sent ::
      && (p.body.AuthAck? ==> e.sent == [p] && e.granted == Some(AckVote(p)))
      && (p.body.AuthRequest? ==> p.hdr.sender in r.nodes && p.hdr.currentEpoch <= r.nodes[p.hdr.sender].authEpoch)
  }

  predicate ElectionStep(s: System, r: System, e: Effect) {
    && r.nodes.Keys == s.nodes.Keys
    && (forall k | k in s.nodes :: NodeStep(s.nodes[k], r.nodes[k], Counts(e, k)))
    && r.net == s.net - e.gone + multiset(e.sent)
    && r.granted == s.granted + Elements(e.granted)
    && r.counted == s.counted + Elements(e.counted)
    && (e.granted.Some? ==> GrantStep(s, r, e.granted.value))
    && (e.counted.Some? ==> CountStep(s, e, e.counted.value))
    && SendStep(r, e)
  }

  /** An action that changes at most the node `acting` is an election step if that node makes one. */
  lemma Assemble(s: System, r: System, e: Effect, acting: NodeId)
    requires acting in s.nodes && r.nodes.Keys == s.nodes.Keys
    requires forall k | k in s.nodes && k != acting :: r.nodes[k] == s.nodes[k]
    requires NodeStep(s.nodes[acting], r.nodes[acting], Counts(e, acting))
    requires e.counted.Some? ==> e.counted.value.candidate == acting && CountStep(s, e, e.counted.value)
    requires e.granted.Some? ==> GrantStep(s, r, e.granted.value)
    requires r.net == s.net - e.gone + multiset(e.sent)
    requires r.granted == s.granted + Elements(e.granted) && r.counted == s.counted + Elements(e.counted)
    requires SendStep(r, e)
    ensures ElectionStep(s, r, e)
  {
    forall k | k in s.nodes ensures NodeStep(s.nodes[k], r.nodes[k], Counts(e, k)) {
      assert k != acting ==> !Counts(e, k);
    }
  }

  lemma RequestStep(s: System, a: Action)
    requires EpochInv(s) && RequestsInv(s) && a.Deliver? && Enabled(s, a)
    requires a.p.body.AuthRequest? && a.p.hdr.sender in s.nodes[a.p.dst].peers
    ensures ElectionStep(s, Do(s, a), EffectOf(s, a))
  {
    hide Process, GrantsVote;
    var n, r, e := s.nodes[a.p.dst], Do(s, a), EffectOf(s, a);
    RequestFrame(n, a.p, a.tooSoon);
    assert NodeStep(n, r.nodes[a.p.dst], false);
    Assemble(s, r, e, a.p.dst);
  }

  lemma AckStep(s: System, a: Action)
    requires EpochInv(s) && a.Deliver? && Enabled(s, a)
    requires a.p.body.AuthAck? && a.p.hdr.sender in s.nodes[a.p.dst].peers
    ensures ElectionStep(s, Do(s, a), EffectOf(s, a))
  {
    hide Process, CountsAck;
    var n, r, e := s.nodes[a.p.dst], Do(s, a), EffectOf(s, a);
    AckFrame(n, a.p, a.tooSoon);
    assert e.counted.Some? ==> CountStep(s, e, e.counted.value);
    Assemble(s, r, e, a.p.dst);
  }

  lemma OtherPacketStep(s: System, a: Action)
    requires EpochInv(s) && a.Deliver? && Enabled(s, a)
    requires (!a.p.body.AuthRequest? && !a.p.body.AuthAck?) || a.p.hdr.sender !in s.nodes[a.p.dst].peers
    ensures ElectionStep(s, Do(s, a), EffectOf(s, a))
  {
    hide Process;
    OtherPacketFrame(s.nodes[a.p.dst], a.p, a.tooSoon);
    Assemble(s, Do(s, a), EffectOf(s, a), a.p.dst);
  }

  lemma LocalFrame(s: System, a: Action)
    requires EpochInv(s) && Enabled(s, a) && !a.Deliver? && NodeAfter(s, a).Some?
    ensures var y := NodeAfter(s, a).value; NodeStep(s.nodes[y.id], y, false)
  {
  }

  lemma LocalSends(s: System, a: Action)
    requires EpochInv(s) && Enabled(s, a) && !a.Deliver?
    ensures SendStep(Do(s, a), EffectOf(s, a))
  {
    hide Process, WinElection, ReplaceMaster, BumpEpoch, ForgetNode;
  }

  lemma LocalStep(s: System, a: Action)
    requires EpochInv(s) && Enabled(s, a) && !a.Deliver?
    ensures ElectionStep(s, Do(s, a), EffectOf(s, a))
  {
    hide NodeAfter, SendStep, SentBy, Enabled;
    LocalSends(s, a);
    var after := NodeAfter(s, a);
    if after.Some? {
      LocalFrame(s, a);
      Assemble(s, Do(s, a), EffectOf(s, a), after.value.id);
    }
  }

  lemma ActionStep(s: System, a: Action)
    requires EpochInv(s) && RequestsInv(s) && Enabled(s, a)
    ensures ElectionStep(s, Do(s, a), EffectOf(s, a))
  {
    if !a.Deliver? {
      LocalStep(s, a);
    } else if a.p.hdr.sender in s.nodes[a.p.dst].peers && a.p.body.AuthRequest? {
      RequestStep(s, a);
    } else if a.p.hdr.sender in s.nodes[a.p.dst].peers && a.p.body.AuthAck? {
      AckStep(s, a);
    } else {
      OtherPacketStep(s, a);
    }
  }

  /** Only a request for votes opens an election. */
  lemma OpensByAsk(s: System, a: Action, k: NodeId)
    requires EpochInv(s) && Enabled(s, a) && k in s.nodes
    ensures s.nodes[k].authEpoch < Do(s, a).nodes[k].authEpoch ==> a.Ask? && a.n == k
  {
    hide Process;
    if a.Deliver? {
      var n, p := s.nodes[a.p.dst], a.p;
      if p.hdr.sender in n.peers && p.body.AuthRequest? {
        RequestFrame(n, p, a.tooSoon);
      } else if p.hdr.sender in n.peers && p.body.AuthAck? {
        AckFrame(n, p, a.tooSoon);
      } else {
        OtherPacketFrame(n, p, a.tooSoon);
      }
    }
  }

  // ---------------------------------------------------------------------
  // Preservation, clause by clause
  // ---------------------------------------------------------------------

  lemma VotesKept(s: System, r: System, e: Effect, voters: set<NodeId>)
    requires VotesInv(s, voters) && AcksInv(s) && ElectionStep(s, r, e)
    requires e.granted.Some? ==> e.granted.value.voter in voters
    ensures VotesInv(r, voters)
  {
    forall k | k in s.nodes
      ensures s.nodes[k].authEpoch <= r.nodes[k].authEpoch && s.nodes[k].lastVoteEpoch <= r.nodes[k].lastVoteEpoch
    {
      assert NodeStep(s.nodes[k], r.nodes[k], Counts(e, k));
    }
  }

  lemma RequestsKept(s: System, r: System, e: Effect)
    requires RequestsInv(s) && ElectionStep(s, r, e)
    ensures RequestsInv(r)
  {
    forall p | p in r.net && p.body.AuthRequest?
      ensures p.hdr.sender in r.nodes && p.hdr.currentEpoch <= r.nodes[p.hdr.sender].authEpoch
    {
      if p in s.net {
        assert NodeStep(s.nodes[p.hdr.sender], r.nodes[p.hdr.sender], Counts(e, p.hdr.sender));
      } else {
        assert p in e.sent;
      }
    }
  }

  lemma AcksKept(s: System, r: System, e: Effect, voters: set<NodeId>)
    requires VotesInv(s, voters) && AcksInv(s) && ElectionStep(s, r, e)
    ensures AcksInv(r)
  {
    assert e.granted.Some? ==> e.granted.value !in s.granted;
    forall p | p in r.net && p.body.AuthAck? && p !in s.net
      ensures e.granted == Some(AckVote(p)) && e.sent == [p] && r.net[p] == 1
    {
      assert p in e.sent;
    }
  }

  lemma SupportersGrow(s: System, r: System, epoch: nat, candidate: NodeId)
    requires s.counted <= r.counted
    ensures |Supporters(s, epoch, candidate)| <= |Supporters(r, epoch, candidate)|
  {
    var x, y := Supporters(s, epoch, candidate), Supporters(r, epoch, candidate);
    assert y == x + (y - x);
  }

  /** Counting a vote adds exactly one supporter, to the open election only. */
  lemma SupportersAfterCount(s: System, r: System, e: Effect, voters: set<NodeId>, epoch: nat, candidate: NodeId)
    requires VotesInv(s, voters) && AcksInv(s) && ElectionStep(s, r, e)
    ensures var adds := Counts(e, candidate) && e.counted.value.epoch == epoch;
            |Supporters(r, epoch, candidate)| == |Supporters(s, epoch, candidate)| + if adds then 1 else 0
  {
    hide NodeStep, SendStep;
    var x, y := Supporters(s, epoch, candidate), Supporters(r, epoch, candidate);
    if Counts(e, candidate) && e.counted.value.epoch == epoch {
      var v := e.counted.value;
      assert v in s.granted && v !in s.counted;
      assert v.voter !in x;
      assert y == x + {v.voter} by {
        assert v in r.counted;
        forall w | w in r.counted && w != v ensures w in s.counted { }
      }
    } else {
      assert y == x;
    }
  }

  /** No vote for an election that is yet to be opened has been counted. */
  lemma NoEarlySupport(s: System, voters: set<NodeId>, k: NodeId, epoch: nat)
    requires VotesInv(s, voters) && k in s.nodes && s.nodes[k].authEpoch < epoch
    ensures Supporters(s, epoch, k) == {}
  {
  }

  lemma CountKept(s: System, r: System, e: Effect, voters: set<NodeId>, k: NodeId)
    requires VotesInv(s, voters) && AcksInv(s) && ElectionStep(s, r, e)
    requires k in s.nodes && s.nodes[k].id == k && CountIsSound(s, s.nodes[k])
    requires s.nodes[k].authEpoch < r.nodes[k].authEpoch ==> s.nodes[k].authCount == 0
    ensures CountIsSound(r, r.nodes[k])
  {
    var x, y := s.nodes[k], r.nodes[k];
    assert NodeStep(x, y, Counts(e, k));
    SupportersAfterCount(s, r, e, voters, y.authEpoch, k);
    if Counts(e, k) { assert e.counted.value.epoch == x.authEpoch; }
    if x.authEpoch < y.authEpoch { NoEarlySupport(s, voters, k, y.authEpoch); }
  }

  lemma WinsKept(s: System, r: System, e: Effect, voters: set<NodeId>, winner: Option<NodeId>)
    requires WinsInv(s, voters) && ElectionStep(s, r, e)
    requires winner.Some? ==>
               && winner.value in s.nodes && s.nodes[winner.value].id == winner.value
               && s.nodes[winner.value].authSent && s.nodes[winner.value].authCount >= Quorum(|voters|)
               && CountIsSound(s, s.nodes[winner.value])
    requires r.won == s.won + if winner.Some? then {Victory(winner.value, s.nodes[winner.value].authEpoch)} else {}
    ensures WinsInv(r, voters)
  {
    forall w | w in r.won ensures |Supporters(r, w.epoch, w.winner)| >= Quorum(|voters|) {
      SupportersGrow(s, r, w.epoch, w.winner);
    }
  }

  lemma ActionKeepsVoting(s: System, voters: set<NodeId>, a: Action, r: System)
    requires VotingInv(s, voters) && Next(s, a, r) && Fair(s, voters, a)
    ensures VotingInv(r, voters)
  {
    hide Do, ElectionStep, VotesInv, AcksInv, RequestsInv;
    var e := EffectOf(s, a);
    ActionBounded(s, a, r);
    ActionStep(s, a);
    VotesKept(s, r, e, voters);
    RequestsKept(s, r, e);
    AcksKept(s, r, e, voters);
  }

  lemma ActionKeepsCounts(s: System, voters: set<NodeId>, a: Action, r: System)
    requires VotingInv(s, voters) && CountsSound(s) && Next(s, a, r) && StartsFromZero(s, a)
    ensures CountsSound(r)
  {
    hide Do, ElectionStep, VotesInv, AcksInv, RequestsInv, CountIsSound;
    ActionStep(s, a);
    forall k | k in r.nodes ensures CountIsSound(r, r.nodes[k]) {
      OpensByAsk(s, a, k);
      CountKept(s, r, EffectOf(s, a), voters, k);
    }
  }

  lemma ActionKeepsWins(s: System, voters: set<NodeId>, a: Action)
    requires ElectionInv(s, voters) && Enabled(s, a) && Fair(s, voters, a)
    ensures WinsInv(Do(s, a), voters)
  {
    hide NodeAfter, SentBy, VoteGranted, VoteCounted, ElectionStep, WinsInv, EffectOf, VotesInv, AcksInv, RequestsInv;
    ActionStep(s, a);
    WinsKept(s, Do(s, a), EffectOf(s, a), voters, if a.Win? then Some(a.n) else None);
  }

  // ---------------------------------------------------------------------
  // Whole runs
  // ---------------------------------------------------------------------

  lemma InitialElection(s: System, voters: set<NodeId>)
    requires Initial(s)
    ensures ElectionInv(s, voters)
  {
  }

  /** Votes and ACKs are in order in every fair run, whatever is counted. */
  lemma {:induction false} RunKeepsVoting(trace: seq<System>, acts: seq<Action>, voters: set<NodeId>, i: nat)
    requires FairRun(trace, acts, voters) && i < |trace|
    ensures VotingInv(trace[i], voters)
  {
    hide Do, Enabled, Fair, VotingInv;
    if i == 0 {
      InitialElection(trace[0], voters);
    } else {
      RunKeepsVoting(trace, acts, voters, i - 1);
      ActionKeepsVoting(trace[i - 1], voters, acts[i - 1], trace[i]);
    }
  }

  lemma {:induction false} RunKeepsElection(trace: seq<System>, acts: seq<Action>, voters: set<NodeId>, i: nat)
    requires FairRun(trace, acts, voters) && CleanRun(trace, acts) && i < |trace|
    ensures ElectionInv(trace[i], voters)
  {
    hide Do, Enabled, Fair, StartsFromZero, VotingInv, CountsSound, WinsInv;
    RunKeepsVoting(trace, acts, voters, i);
    if i == 0 {
      InitialElection(trace[0], voters);
    } else {
      RunKeepsElection(trace, acts, voters, i - 1);
      ActionKeepsCounts(trace[i - 1], voters, acts[i - 1], trace[i]);
      ActionKeepsWins(trace[i - 1], voters, acts[i - 1]);
    }
  }

  /** Two majorities of one set share a member. */
  lemma MajoritiesMeet(voters: set<NodeId>, a: set<NodeId>, b: set<NodeId>)
    requires a <= voters && b <= voters
    requires |a| >= Quorum(|voters|) && |b| >= Quorum(|voters|)
    ensures a * b != {}
  {
    assert |a + b| + |a * b| == |a| + |b|;
    assert voters == (a + b) + (voters - (a + b));
  }

  /**
   * Election safety: in every state of every run with a fixed voter set whose elections
   * start from a count of zero, two winners of the same epoch are the same node.
   */
  lemma OneWinnerPerEpoch(trace: seq<System>, acts: seq<Action>, voters: set<NodeId>, i: nat, v: Victory, w: Victory)
    requires FairRun(trace, acts, voters) && CleanRun(trace, acts) && i < |trace|
    requires v in trace[i].won && w in trace[i].won && v.epoch == w.epoch
    ensures v == w
  {
    RunKeepsElection(trace, acts, voters, i);
    var t := trace[i];
    MajoritiesMeet(voters, Supporters(t, v.epoch, v.winner), Supporters(t, w.epoch, w.winner));
    var m :| m in Supporters(t, v.epoch, v.winner) * Supporters(t, w.epoch, w.winner);
    assert Vote(m, v.epoch, v.winner) in t.granted && Vote(m, v.epoch, w.winner) in t.granted;
  }

  /** The counted votes for a candidate in an epoch. */
  function VotesFor(s: System, epoch: nat, candidate: NodeId): set<Vote> {
    set v | v in s.counted && v.epoch == epoch && v.candidate == candidate
  }

  /** Counted votes of one election and their voters determine each other. */
  lemma SupportersAreVotes(s: System, epoch: nat, k: NodeId)
    ensures |Supporters(s, epoch, k)| == |VotesFor(s, epoch, k)|
  {
    var voters, votes := Supporters(s, epoch, k), VotesFor(s, epoch, k);
    var voter := (v: Vote) => v.voter;
    var vote := (m: NodeId) => Vote(m, epoch, k);
    forall m | m in voters ensures vote(m) in votes && voter(vote(m)) == m { }
    forall v | v in votes ensures voter(v) in voters && vote(voter(v)) == v { }
    ImageIsNoLarger(votes, voters, voter);
    ImageIsNoLarger(voters, votes, vote);
  }

  /**
   * In every fair run a voter votes once per epoch, and every counted ACK came from a voter
   * of its own; where elections start from zero, the count of an open one is its voters.
   */
  lemma VotesAreUnique(trace: seq<System>, acts: seq<Action>, voters: set<NodeId>, i: nat, k: NodeId)
    requires FairRun(trace, acts, voters) && i < |trace| && k in trace[i].nodes
    ensures var t := trace[i];
            var n := t.nodes[k];
            && (forall v, w | v in t.granted && w in t.granted && v.voter == w.voter && v.epoch == w.epoch ::
                  v.candidate == w.candidate)
            && Supporters(t, n.authEpoch, k) <= voters
            && |Supporters(t, n.authEpoch, k)| == |VotesFor(t, n.authEpoch, k)|
            && (CleanRun(trace, acts) && n.authSent ==> n.authCount == |Supporters(t, n.authEpoch, k)|)
  {
    hide Bounded, BoundedPacket, AcksInv, RequestsInv, CleanRun, Fair;
    RunKeepsVoting(trace, acts, voters, i);
    SupportersAreVotes(trace[i], trace[i].nodes[k].authEpoch, k);
    if CleanRun(trace, acts) {
      RunKeepsElection(trace, acts, voters, i);
      assert CountIsSound(trace[i], trace[i].nodes[k]);
    }
  }

  lemma {:induction false} GrantedGrows(trace: seq<System>, acts: seq<Action>, i: nat, j: nat)
    requires IsRun(trace, acts) && i <= j < |trace|
    ensures trace[i].granted <= trace[j].granted
  {
    hide NodeAfter, SentBy, VoteGranted, VoteCounted, Enabled;
    if i < j {
      GrantedGrows(trace, acts, i, j - 1);
      assert Next(trace[j - 1], acts[j - 1], trace[j]);
    }
  }

  /** Over every fair run, each voter votes in strictly increasing epochs. */
  lemma VotesIncrease(trace: seq<System>, acts: seq<Action>, voters: set<NodeId>, i: nat, j: nat)
    requires FairRun(trace, acts, voters) && i < j < |acts|
    requires Next(trace[i], acts[i], trace[i + 1]) && Next(trace[j], acts[j], trace[j + 1])
    requires VoteGranted(trace[i], acts[i]).Some? && VoteGranted(trace[j], acts[j]).Some?
    requires VoteGranted(trace[i], acts[i]).value.voter == VoteGranted(trace[j], acts[j]).value.voter
    ensures VoteGranted(trace[i], acts[i]).value.epoch < VoteGranted(trace[j], acts[j]).value.epoch
  {
    hide NodeAfter, SentBy, VoteGranted, VoteCounted, Enabled, Fair;
    var v := VoteGranted(trace[i], acts[i]).value;
    assert v in trace[i + 1].granted;
    GrantedGrows(trace, acts, i + 1, j);
    RunKeepsVoting(trace, acts, voters, j);
    ActionStep(trace[j], acts[j]);
  }
}
