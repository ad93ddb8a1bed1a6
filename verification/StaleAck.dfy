/**
 * The one gap in failover elections. failover_auth_count is zeroed when an
 * election is scheduled, while failover_auth_epoch keeps the old epoch until the
 * request is sent (cluster.c, 2905 and 2965-2966). An ACK of the old election that
 * arrives in between is counted towards the new one.
 */
module StaleAck {
  import opened Prelude
  import opened SlotClaims
  import opened ClusterBus
  import opened ClusterSystem
  import opened EpochBound
  import opened Election

  /**
   * Opening an election leaves a sound count exactly when the count is zero at
   * that moment, that is, when no ACK was counted since the election was scheduled.
   */
  lemma AskIsSoundIff(s: System, voters: set<NodeId>, a: Action)
    requires EpochInv(s) && VotesInv(s, voters) && a.Ask? && Enabled(s, a)
    ensures CountIsSound(Do(s, a), Do(s, a).nodes[a.n]) <==> s.nodes[a.n].authCount == 0
  {
    hide ClusterBus.MayFailover, SentBy;
    var r := Do(s, a);
    assert r.nodes[a.n] == AskForVotes(s.nodes[a.n]);
    NoEarlySupport(s, voters, a.n, r.nodes[a.n].authEpoch);
    assert Supporters(r, r.nodes[a.n].authEpoch, a.n) == Supporters(s, r.nodes[a.n].authEpoch, a.n);
  }

  /**
   * Over whole runs: in every state the count of every open election is its number of
   * distinct voters, exactly when every election starts from a count of zero.
   */
  lemma CountsAreSoundIff(trace: seq<System>, acts: seq<Action>, voters: set<NodeId>)
    requires FairRun(trace, acts, voters)
    ensures (forall i | 0 <= i < |trace| :: CountsSound(trace[i])) <==> CleanRun(trace, acts)
  {
    hide Do, Enabled, Fair, CountIsSound, VotesInv, AcksInv, RequestsInv, WinsInv, Initial;
    if CleanRun(trace, acts) {
      forall i | 0 <= i < |trace| ensures CountsSound(trace[i]) { RunKeepsElection(trace, acts, voters, i); }
    }
    if forall i | 0 <= i < |trace| :: CountsSound(trace[i]) {
      forall i | 0 <= i < |acts| ensures Next(trace[i], acts[i], trace[i + 1]) && StartsFromZero(trace[i], acts[i]) {
        assert Next(trace[i], acts[i], trace[i + 1]);
        if acts[i].Ask? { SoundMeansZero(trace, acts, voters, i); }
      }
    }
  }

  lemma SoundMeansZero(trace: seq<System>, acts: seq<Action>, voters: set<NodeId>, i: nat)
    requires FairRun(trace, acts, voters) && i < |acts| && acts[i].Ask? && CountsSound(trace[i + 1])
    ensures Next(trace[i], acts[i], trace[i + 1]) && StartsFromZero(trace[i], acts[i])
  {
    hide Do, Fair, CountIsSound, VotesInv, AcksInv, RequestsInv, WinsInv, Initial;
    var s, a, r := trace[i], acts[i], trace[i + 1];
    assert Next(s, a, r);
    RunKeepsVoting(trace, acts, voters, i);
    AskIsSoundIff(s, voters, a);
    assert CountIsSound(r, r.nodes[a.n]);
  }

  // ---------------------------------------------------------------------
  // A run with two winners of epoch 2
  // ---------------------------------------------------------------------

  // Master 1, the only voter, and its replicas 2 and 3. Both replicas run manual failovers.
  const PEERS: map<NodeId, Peer> :=
    map[1 := Peer(Master, 0, false), 2 := Peer(Slave(Some(1)), 0, false), 3 := Peer(Slave(Some(1)), 0, false)]
  const SLOTS: Slots := map[0 := 1]

  function At(id: NodeId, currentEpoch: nat, lastVote: nat, authEpoch: nat, count: nat, sent: bool): Node {
    Node(id, PEERS, SLOTS, {}, currentEpoch, lastVote, authEpoch, count, sent)
  }

  function Hdr(sender: NodeId, currentEpoch: nat): Header {
    Header(sender, currentEpoch, 0, if sender == 1 then None else Some(1), {0})
  }

  function Three(a: Node, b: Node, c: Node): map<NodeId, Node> {
    map[1 := a, 2 := b, 3 := c]
  }

  function Request(from: NodeId, epoch: nat): Packet { Packet(1, Hdr(from, epoch), AuthRequest(true)) }
  function Ack(to: NodeId, epoch: nat): Packet { Packet(to, Hdr(1, epoch), AuthAck) }

  function Start(): System {
    System(Three(At(1, 0, 0, 0, 0, false), At(2, 0, 0, 0, 0, false), At(3, 1, 0, 0, 0, false)), multiset{}, {}, {}, {})
  }

  lemma Facts(id: NodeId, e: nat, l: nat, ae: nat, c: nat, t: bool)
    requires id in {1, 2, 3}
    ensures var n := At(id, e, l, ae, c, t);
            && n.Wf() && n.id == id && n.authSent == t && BuildHeader(n) == Hdr(id, e)
            && (id != 1 ==> MayFailover(n, true))
  {
    assert 0 in ServedBy(SLOTS, 1);
    assert ServedBy(SLOTS, 1) == {0};
  }

  lemma GrantFacts(k: NodeId, e: nat, l: nat, q: nat)
    requires k in {2, 3} && e <= q && l != q
    ensures var n, p := At(1, e, l, 0, 0, false), Request(k, q);
            && CanProcess(n, p) && Process(n, p, false) == Outcome(At(1, q, q, 0, 0, false), [Ack(k, q)])
            && k in n.peers && Observe(n, p.hdr).currentEpoch == q && GrantsVote(Observe(n, p.hdr), p.hdr, true, false)
  {
    hide HandlePing, HandleUpdate;
    Facts(1, e, l, 0, 0, false);
    var n, p := At(1, e, l, 0, 0, false), Request(k, q);
    var o := Observe(n, p.hdr);
    assert o.peers == PEERS;
    assert o == At(1, q, l, 0, 0, false);
    Facts(1, q, l, 0, 0, false);
    assert 0 in ServedBy(SLOTS, 1);
    assert GrantsVote(o, p.hdr, true, false);
  }

  lemma AckFacts(k: NodeId, e: nat, ae: nat, c: nat, t: bool, q: nat)
    requires k in {2, 3} && ae <= q <= e
    ensures var n, p := At(k, e, 0, ae, c, t), Ack(k, q);
            && CanProcess(n, p) && Process(n, p, false) == Outcome(At(k, e, 0, ae, c + 1, t), [])
            && 1 in n.peers && CountsAck(Observe(n, p.hdr), p.hdr)
  {
    hide HandlePing, HandleUpdate;
    Facts(k, e, 0, ae, c, t);
    var n, p := At(k, e, 0, ae, c, t), Ack(k, q);
    var o := Observe(n, p.hdr);
    assert o.peers == PEERS;
    assert o == n;
    assert 0 in ServedBy(SLOTS, 1);
    assert CountsAck(o, p.hdr);
  }

  // The states that the steps of the scenario lead to.

  function Asked(s: System, k: NodeId, e: nat, c: nat, dsts: seq<NodeId>): System {
    s.(nodes := s.nodes[k := At(k, e + 1, 0, e + 1, c, true)],
       net := s.net + if dsts == [] then multiset{} else multiset{Request(k, e + 1)})
  }

  function Granted(s: System, k: NodeId, q: nat): System {
    s.(nodes := s.nodes[1 := At(1, q, q, 0, 0, false)],
       net := s.net - multiset{Request(k, q)} + multiset{Ack(k, q)},
       granted := s.granted + {Vote(1, q, k)})
  }

  function Scheduled(s: System, k: NodeId, e: nat, ae: nat): System {
    s.(nodes := s.nodes[k := At(k, e, 0, ae, 0, false)])
  }

  function Counted(s: System, k: NodeId, e: nat, ae: nat, c: nat, t: bool, q: nat): System {
    s.(nodes := s.nodes[k := At(k, e, 0, ae, c + 1, t)],
       net := s.net - multiset{Ack(k, q)},
       counted := s.counted + {Vote(1, q, k)})
  }

  /** A step of a cluster whose only voter is node 1. */
  predicate FairNext(s: System, a: Action, r: System) {
    Next(s, a, r) && Fair(s, {1}, a) && r.Wf()
  }

  lemma BroadcastFacts(k: NodeId, q: nat, dsts: seq<NodeId>)
    requires dsts == [] || dsts == [1]
    ensures multiset(Broadcast(Hdr(k, q), AuthRequest(true), dsts)) ==
            if dsts == [] then multiset{} else multiset{Request(k, q)}
  {
    var sent := Broadcast(Hdr(k, q), AuthRequest(true), dsts);
    assert sent == if dsts == [] then [] else [Request(k, q)];
  }

  lemma AskIs(s: System, a: Action)
    requires s.Wf() && a.Ask? && Enabled(s, a)
    ensures var n := AskForVotes(s.nodes[a.n]);
            && n.Wf() && Fair(s, {1}, a)
            && Do(s, a) == s.(nodes := s.nodes[a.n := n],
                              net := s.net + multiset(Broadcast(BuildHeader(n), AuthRequest(a.force), a.dsts)))
  {
    hide Process, MayFailover, BuildHeader, WinElection, ReplaceMaster, BumpEpoch, ForgetNode, LearnNode;
    hide AssignEpoch, Broadcast;
    var r := Do(s, a);
    assert r.granted == s.granted && r.counted == s.counted;
    assert s.net - multiset{} == s.net;
  }

  lemma AskForVotesAt(k: NodeId, e: nat, ae: nat, c: nat)
    ensures AskForVotes(At(k, e, 0, ae, c, false)) == At(k, e + 1, 0, e + 1, c, true)
  {
  }

  /** A replica opens an election and asks `dsts`. */
  lemma ReplicaAsks(s: System, k: NodeId, e: nat, ae: nat, c: nat, dsts: seq<NodeId>)
    requires s.Wf() && k in {2, 3} && k in s.nodes && s.nodes[k] == At(k, e, 0, ae, c, false)
    requires dsts == [] || dsts == [1]
    ensures FairNext(s, Ask(k, true, true, dsts), Asked(s, k, e, c, dsts))
  {
    hide At, MayFailover, BuildHeader, Do, Fair, AskForVotes, Broadcast, Node.Wf;
    Facts(k, e, 0, ae, c, false);
    Facts(k, e + 1, 0, e + 1, c, true);
    BroadcastFacts(k, e + 1, dsts);
    AskForVotesAt(k, e, ae, c);
    AskIs(s, Ask(k, true, true, dsts));
  }

  /** The master grants the forced request of a newer epoch. */
  lemma MasterGrants(s: System, k: NodeId, e: nat, l: nat, q: nat)
    requires s.Wf() && k in {2, 3} && 1 in s.nodes && s.nodes[1] == At(1, e, l, 0, 0, false)
    requires Request(k, q) in s.net && e <= q && l != q
    ensures FairNext(s, Deliver(Request(k, q), false), Granted(s, k, q))
  {
    hide At, Process, MayFailover, BuildHeader, WinElection, ReplaceMaster, BumpEpoch, ForgetNode, LearnNode;
    hide AssignEpoch, GrantsVote, CountsAck, Observe;
    Facts(1, q, q, 0, 0, false);
    GrantFacts(k, e, l, q);
  }

  lemma ReplicaSchedules(s: System, k: NodeId, e: nat, ae: nat, c: nat, t: bool)
    requires s.Wf() && k in {2, 3} && k in s.nodes && s.nodes[k] == At(k, e, 0, ae, c, t)
    ensures FairNext(s, Schedule(k, true), Scheduled(s, k, e, ae))
  {
    hide Process, MayFailover, BuildHeader, WinElection, ReplaceMaster, BumpEpoch, ForgetNode, LearnNode, AssignEpoch;
    Facts(k, e, 0, ae, c, t);
    assert ScheduleElection(s.nodes[k]) == At(k, e, 0, ae, 0, false);
  }

  /** A replica counts an ACK that is not behind its last election, open or not. */
  lemma ReplicaCounts(s: System, k: NodeId, e: nat, ae: nat, c: nat, t: bool, q: nat)
    requires s.Wf() && k in {2, 3} && k in s.nodes && s.nodes[k] == At(k, e, 0, ae, c, t)
    requires Ack(k, q) in s.net && ae <= q <= e
    ensures FairNext(s, Deliver(Ack(k, q), false), Counted(s, k, e, ae, c, t, q))
  {
    hide At, Process, MayFailover, BuildHeader, WinElection, ReplaceMaster, BumpEpoch, ForgetNode, LearnNode;
    hide AssignEpoch, GrantsVote, CountsAck, Observe;
    Facts(k, e, 0, ae, c + 1, t);
    AckFacts(k, e, ae, c, t, q);
  }

  lemma ReplicaWins(s: System, k: NodeId, e: nat, ae: nat) returns (r: System)
    requires s.Wf() && k in {2, 3} && k in s.nodes && s.nodes[k] == At(k, e, 0, ae, 1, true)
    ensures FairNext(s, Win(k, true, 1), r)
    ensures r.won == s.won + {Victory(k, ae)} && r.granted == s.granted
    ensures r.nodes.Keys == s.nodes.Keys && forall m | m in s.nodes && m != k :: r.nodes[m] == s.nodes[m]
  {
    hide Process, MayFailover, BuildHeader, BumpEpoch, ForgetNode, LearnNode, AssignEpoch, ReplaceMaster;
    Facts(k, e, 0, ae, 1, true);
    r := Do(s, Win(k, true, 1));
  }

  lemma Extend(trace: seq<System>, acts: seq<Action>, a: Action, r: System)
    requires FairRun(trace, acts, {1}) && FairNext(trace[|acts|], a, r)
    ensures FairRun(trace + [r], acts + [a], {1})
  {
    hide Do, Enabled, Fair, Initial;
  }

  lemma StartIsInitial()
    ensures Start().Wf() && FairRun([Start()], [], {1})
  {
    Facts(1, 0, 0, 0, 0, false);
    Facts(2, 0, 0, 0, 0, false);
    Facts(3, 1, 0, 0, 0, false);
  }

  /** Replica 2 asks in epoch 1 and is voted by master 1. */
  lemma FirstElection() returns (trace: seq<System>, acts: seq<Action>)
    ensures FairRun(trace, acts, {1})
    ensures var s := trace[|acts|];
            && s.Wf() && s.nodes == Three(At(1, 1, 1, 0, 0, false), At(2, 1, 0, 1, 0, true), At(3, 1, 0, 0, 0, false))
            && s.net == multiset{Ack(2, 1)} && s.won == {}
  {
    hide Next, Fair, Initial, At, System.Wf;
    StartIsInitial();
    var s0 := Start();
    trace, acts := [s0], [];
    ReplicaSchedules(s0, 2, 0, 0, 0, false);
    var s1 := Scheduled(s0, 2, 0, 0);
    Extend(trace, acts, Schedule(2, true), s1);
    trace, acts := trace + [s1], acts + [Schedule(2, true)];
    ReplicaAsks(s1, 2, 0, 0, 0, [1]);
    var s2 := Asked(s1, 2, 0, 0, [1]);
    Extend(trace, acts, Ask(2, true, true, [1]), s2);
    trace, acts := trace + [s2], acts + [Ask(2, true, true, [1])];
    MasterGrants(s2, 2, 0, 0, 1);
    var s3 := Granted(s2, 2, 1);
    Extend(trace, acts, Deliver(Request(2, 1), false), s3);
    trace, acts := trace + [s3], acts + [Deliver(Request(2, 1), false)];
  }

  /** Replica 2 reschedules, counts the ACK of epoch 1 only then, and asks in epoch 2. */
  lemma FirstHalf() returns (trace: seq<System>, acts: seq<Action>)
    ensures FairRun(trace, acts, {1})
    ensures var s := trace[|acts|];
            && s.Wf() && s.nodes == Three(At(1, 1, 1, 0, 0, false), At(2, 2, 0, 2, 1, true), At(3, 1, 0, 0, 0, false))
            && s.net == multiset{} && s.won == {}
  {
    hide Next, Fair, Initial, At, System.Wf;
    trace, acts := FirstElection();
    var s3 := trace[|acts|];
    ReplicaSchedules(s3, 2, 1, 1, 0, true);
    var s4 := Scheduled(s3, 2, 1, 1);
    Extend(trace, acts, Schedule(2, true), s4);
    trace, acts := trace + [s4], acts + [Schedule(2, true)];
    ReplicaCounts(s4, 2, 1, 1, 0, false, 1);
    var s5 := Counted(s4, 2, 1, 1, 0, false, 1);
    Extend(trace, acts, Deliver(Ack(2, 1), false), s5);
    trace, acts := trace + [s5], acts + [Deliver(Ack(2, 1), false)];
    ReplicaAsks(s5, 2, 1, 1, 1, []);
    var s6 := Asked(s5, 2, 1, 1, []);
    Extend(trace, acts, Ask(2, true, true, []), s6);
    trace, acts := trace + [s6], acts + [Ask(2, true, true, [])];
  }

  /** Replica 3 asks in epoch 2 and is voted by master 1. */
  lemma SecondHalf() returns (trace: seq<System>, acts: seq<Action>)
    ensures FairRun(trace, acts, {1})
    ensures var s := trace[|acts|];
            && s.Wf() && s.nodes.Keys == {1, 2, 3}
            && s.nodes[2] == At(2, 2, 0, 2, 1, true) && s.nodes[3] == At(3, 2, 0, 2, 1, true)
            && s.won == {}
  {
    hide Next, At, Fair, Initial;
    trace, acts := FirstHalf();
    var s6 := trace[|acts|];
    ReplicaSchedules(s6, 3, 1, 0, 0, false);
    var s7 := Scheduled(s6, 3, 1, 0);
    Extend(trace, acts, Schedule(3, true), s7);
    trace, acts := trace + [s7], acts + [Schedule(3, true)];
    ReplicaAsks(s7, 3, 1, 0, 0, [1]);
    var s8 := Asked(s7, 3, 1, 0, [1]);
    Extend(trace, acts, Ask(3, true, true, [1]), s8);
    trace, acts := trace + [s8], acts + [Ask(3, true, true, [1])];
    MasterGrants(s8, 3, 1, 1, 2);
    var s9 := Granted(s8, 3, 2);
    Extend(trace, acts, Deliver(Request(3, 2), false), s9);
    trace, acts := trace + [s9], acts + [Deliver(Request(3, 2), false)];
    ReplicaCounts(s9, 3, 2, 2, 0, true, 2);
    var s10 := Counted(s9, 3, 2, 2, 0, true, 2);
    Extend(trace, acts, Deliver(Ack(3, 2), false), s10);
    trace, acts := trace + [s10], acts + [Deliver(Ack(3, 2), false)];
  }

  /** A fair run of a cluster whose only voter is node 1, with two winners of one epoch. */
  predicate TwoWinners(trace: seq<System>, acts: seq<Action>) {
    && FairRun(trace, acts, {1})
    && Victory(2, 2) in trace[|acts|].won && Victory(3, 2) in trace[|acts|].won
  }

  /**
   * Without the condition on the count election safety fails: master 1 is the only
   * voter and votes once per epoch, yet both replicas win epoch 2.
   */
  lemma StaleAckElectsTwo()
    ensures exists trace: seq<System>, acts: seq<Action> :: TwoWinners(trace, acts)
  {
    hide Next, At, Fair, Initial;
    var trace, acts := SecondHalf();
    var s11 := ReplicaWins(trace[|acts|], 2, 2, 2);
    Extend(trace, acts, Win(2, true, 1), s11);
    trace, acts := trace + [s11], acts + [Win(2, true, 1)];
    var s12 := ReplicaWins(s11, 3, 2, 2);
    Extend(trace, acts, Win(3, true, 1), s12);
    trace, acts := trace + [s12], acts + [Win(3, true, 1)];
    assert TwoWinners(trace, acts);
  }
}
