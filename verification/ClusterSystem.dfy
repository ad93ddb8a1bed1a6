/**
 * A whole cluster: nodes, packets in flight, and the history of votes. One
 * action is one run of an event handler on one node, or the network losing a
 * packet. A packet is delivered at most once, as TCP links do. Nodes do not
 * crash and are not hard-reset: the source does not schedule a vote for saving
 * and a hard reset zeroes its epochs (cluster.c, 2689-2691 and 538-543).
 */
module ClusterSystem {
  import opened Prelude
  import opened SlotClaims
  import opened ClusterBus

  datatype Vote = Vote(voter: NodeId, epoch: nat, candidate: NodeId)

  datatype Victory = Victory(winner: NodeId, epoch: nat)

  /** `granted`, `counted` and `won` record what happened; no handler reads them. */
  datatype System = System(nodes: map<NodeId, Node>, net: multiset<Packet>,
                           granted: set<Vote>, counted: set<Vote>, won: set<Victory>)
  {
    predicate Wf() {
      forall k | k in nodes :: nodes[k].Wf() && nodes[k].id == k
    }
  }

  datatype Action =
    | Deliver(p: Packet, tooSoon: bool)
    | Lose(p: Packet)
    | SendPing(n: NodeId, dst: NodeId)
    | SendFail(n: NodeId, dst: NodeId, about: NodeId)
    | Schedule(n: NodeId, manual: bool)
      // `force` asks the voters not to mind that the master works: a manual failover is under way.
    | Ask(n: NodeId, manual: bool, force: bool, dsts: seq<NodeId>)
    | Win(n: NodeId, manual: bool, size: nat)
    | Bump(n: NodeId, max: nat)
    | Takeover(n: NodeId, max: nat)
    | SetConfigEpoch(n: NodeId, epoch: nat)
    | Forget(n: NodeId, m: NodeId)
    | Learn(n: NodeId, m: NodeId, role: Role)
    | Replicate(n: NodeId, m: NodeId)
      // CLUSTER ADDSLOTS, DELSLOTS, FLUSHSLOTS, SETSLOT and local failure detection:
      // any slot table over known nodes, any importing set, any failure flag.
    | Reconfigure(n: NodeId, slots: Slots, importing: set<Slot>, suspect: NodeId, failed: bool)

  predicate Enabled(s: System, a: Action)
    requires s.Wf()
  {
    match a
    case Deliver(p, _) => p in s.net && p.dst in s.nodes && CanProcess(s.nodes[p.dst], p)
    case Lose(p) => p in s.net
    case SendPing(n, _) => n in s.nodes
    case SendFail(n, _, _) => n in s.nodes
    case Schedule(n, manual) => n in s.nodes && MayFailover(s.nodes[n], manual)
    case Ask(n, manual, force, _) =>
      n in s.nodes && MayFailover(s.nodes[n], manual) && (manual ==> force) && !s.nodes[n].authSent
    case Win(n, manual, size) =>
      n in s.nodes && MayFailover(s.nodes[n], manual) && s.nodes[n].authSent && s.nodes[n].authCount >= Quorum(size)
    case Bump(n, max) => n in s.nodes && IsMaxEpoch(s.nodes[n], max)
    case Takeover(n, max) =>
      n in s.nodes && IsMaxEpoch(s.nodes[n], max) && s.nodes[n].Role().Slave? && s.nodes[n].Role().of.Some?
    case SetConfigEpoch(n, _) =>
      n in s.nodes && s.nodes[n].peers.Keys == {n} && s.nodes[n].peers[n].configEpoch == 0
    case Forget(n, m) => n in s.nodes && m != n && s.nodes[n].Role() != Slave(Some(m))
    case Learn(n, m, role) => n in s.nodes && (role.Slave? && role.of.Some? ==> role.of.value in s.nodes[n].peers)
    case Replicate(n, m) =>
      && n in s.nodes && m in s.nodes[n].peers && m != n && s.nodes[n].peers[m].role.Master?
      && (s.nodes[n].Role().Master? ==> ServedBy(s.nodes[n].slots, n) == {})
    case Reconfigure(n, slots, _, suspect, _) =>
      n in s.nodes && (forall j | j in slots :: slots[j] in s.nodes[n].peers) && suspect in s.nodes[n].peers
  }

  /** CLUSTER SET-CONFIG-EPOCH on a node that knows nobody else. */
  function AssignEpoch(n: Node, epoch: nat): (r: Node)
    requires n.Wf()
    ensures r.Wf() && r.id == n.id
  {
    n.(peers := n.peers[n.id := n.peers[n.id].(configEpoch := epoch)], currentEpoch := Max(n.currentEpoch, epoch))
  }

  /** The state of the acting node afterwards; actions of the network act on no node. */
  function NodeAfter(s: System, a: Action): (r: Option<Node>)
    requires s.Wf() && Enabled(s, a)
    ensures r.Some? ==> r.value.Wf() && r.value.id in s.nodes
  {
    match a
    case Deliver(p, tooSoon) => Some(Process(s.nodes[p.dst], p, tooSoon).node)
    case Lose(_) => None
    case SendPing(_, _) => None
    case SendFail(_, _, _) => None
    case Schedule(n, _) => Some(ScheduleElection(s.nodes[n]))
    case Ask(n, _, _, _) => Some(AskForVotes(s.nodes[n]))
    case Win(n, _, _) => Some(WinElection(s.nodes[n]))
    case Bump(n, max) => Some(BumpEpoch(s.nodes[n], max))
    case Takeover(n, max) => Some(ReplaceMaster(BumpEpoch(s.nodes[n], max)))
    case SetConfigEpoch(n, epoch) => Some(AssignEpoch(s.nodes[n], epoch))
    case Forget(n, m) => Some(ForgetNode(s.nodes[n], m))
    case Learn(n, m, role) => Some(LearnNode(s.nodes[n], m, role))
    case Replicate(n, m) => Some(SetMaster(s.nodes[n], m))
    case Reconfigure(n, slots, importing, suspect, failed) =>
      var x := s.nodes[n];
      Some(x.(slots := slots, importing := importing,
              peers := x.peers[suspect := x.peers[suspect].(failed := failed)]))
  }

  function Broadcast(h: Header, b: Body, dsts: seq<NodeId>): seq<Packet> {
    seq(|dsts|, i requires 0 <= i < |dsts| => Packet(dsts[i], h, b))
  }

  /** The packets an action puts on the wire. */
  function SentBy(s: System, a: Action): seq<Packet>
    requires s.Wf() && Enabled(s, a)
  {
    match a
    case Deliver(p, tooSoon) => Process(s.nodes[p.dst], p, tooSoon).sent
    case SendPing(n, dst) => [Packet(dst, BuildHeader(s.nodes[n]), Ping)]
    case SendFail(n, dst, about) => [Packet(dst, BuildHeader(s.nodes[n]), Fail(about))]
    case Ask(n, _, force, dsts) => Broadcast(BuildHeader(AskForVotes(s.nodes[n])), AuthRequest(force), dsts)
    case _ => []
  }

  /** The vote a delivered request obtains. */
  function VoteGranted(s: System, a: Action): Option<Vote>
    requires s.Wf() && Enabled(s, a)
  {
    if a.Deliver? && a.p.body.AuthRequest? && a.p.hdr.sender in s.nodes[a.p.dst].peers
       && GrantsVote(Observe(s.nodes[a.p.dst], a.p.hdr), a.p.hdr, a.p.body.force, a.tooSoon)
    then Some(Vote(a.p.dst, Observe(s.nodes[a.p.dst], a.p.hdr).currentEpoch, a.p.hdr.sender))
    else None
  }

  /** The vote a delivered ACK adds to the candidate's count. */
  function VoteCounted(s: System, a: Action): Option<Vote>
    requires s.Wf() && Enabled(s, a)
  {
    if a.Deliver? && a.p.body.AuthAck? && a.p.hdr.sender in s.nodes[a.p.dst].peers
       && CountsAck(Observe(s.nodes[a.p.dst], a.p.hdr), a.p.hdr)
    then Some(Vote(a.p.hdr.sender, a.p.hdr.currentEpoch, a.p.dst))
    else None
  }

  function Elements<T>(o: Option<T>): set<T> {
    if o.Some? then {o.value} else {}
  }

  function Do(s: System, a: Action): (r: System)
    requires s.Wf() && Enabled(s, a)
    ensures r.Wf() && r.nodes.Keys == s.nodes.Keys
  {
    var after := NodeAfter(s, a);
    var gone := if a.Deliver? || a.Lose? then multiset{a.p} else multiset{};
    System(if after.Some? then s.nodes[after.value.id := after.value] else s.nodes,
           s.net - gone + multiset(SentBy(s, a)),
           s.granted + Elements(VoteGranted(s, a)),
           s.counted + Elements(VoteCounted(s, a)),
           if a.Win? then s.won + {Victory(a.n, s.nodes[a.n].authEpoch)} else s.won)
  }

  // ---------------------------------------------------------------------
  // Runs
  // ---------------------------------------------------------------------

  predicate Next(s: System, a: Action, r: System) {
    s.Wf() && Enabled(s, a) && r == Do(s, a)
  }

  /** A run: the states passed through and the actions between them. */
  predicate IsRun(trace: seq<System>, acts: seq<Action>) {
    && |trace| == |acts| + 1
    && forall i | 0 <= i < |acts| :: Next(trace[i], acts[i], trace[i + 1])
  }

  /** A cluster about to start: nothing sent, nobody asked, nothing voted. */
  predicate Initial(s: System) {
    && s.Wf()
    && s.net == multiset{} && s.granted == {} && s.counted == {} && s.won == {}
    && (forall k | k in s.nodes ::
          var n := s.nodes[k];
          && n.authEpoch <= n.currentEpoch && n.lastVoteEpoch <= n.currentEpoch
          && n.authCount == 0 && !n.authSent
          && forall p | p in n.peers :: n.peers[p].configEpoch <= n.currentEpoch)
  }
}
