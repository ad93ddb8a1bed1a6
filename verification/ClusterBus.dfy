/**
 * The cluster bus: what a Redis Cluster node records, the packets it exchanges,
 * and what processing one packet does (clusterProcessPacket and the handlers it
 * calls, cluster.c). Time is abstract: a choice the source makes by comparing
 * clocks is a boolean parameter here, so every timing is covered.
 */
module ClusterBus {
  import opened Prelude
  import opened SlotClaims

  datatype Role = Master | Slave(of: Option<NodeId>)

  /** What a node records about one node of the cluster, itself included. */
  datatype Peer = Peer(role: Role, configEpoch: nat, failed: bool)

  datatype Node = Node(id: NodeId, peers: map<NodeId, Peer>, slots: Slots, importing: set<Slot>,
                       currentEpoch: nat, lastVoteEpoch: nat,
                       authEpoch: nat, authCount: nat, authSent: bool)
  {
    predicate Wf() {
      && id in peers
      && (forall j | j in slots :: slots[j] in peers)
      && (forall p {:trigger peers[p]} | p in peers && peers[p].role.Slave? && peers[p].role.of.Some? ::
            peers[p].role.of.value in peers)
    }

    function Role(): Role
      requires id in peers
    {
      peers[id].role
    }

    function Epochs(): Epochs {
      map p | p in peers :: peers[p].configEpoch
    }

    /** This node, or the master it replicates; None for a slave that does not know its master. */
    function CurrentMaster(): Option<NodeId>
      requires id in peers
    {
      if Role().Master? then Some(id) else Role().of
    }

    /** A master serving at least one slot: the nodes entitled to vote. */
    predicate Votes()
      requires id in peers
    {
      Role().Master? && ServedBy(slots, id) != {}
    }
  }

  datatype Header = Header(sender: NodeId, currentEpoch: nat, configEpoch: nat,
                           slaveof: Option<NodeId>, myslots: set<Slot>)

  /** Ping stands for PING, PONG and MEET, which share one format. */
  datatype Body = Ping
                | Fail(about: NodeId)
                | AuthRequest(force: bool)
                | AuthAck
                | Update(node: NodeId, configEpoch: nat, slots: set<Slot>)

  datatype Packet = Packet(dst: NodeId, hdr: Header, body: Body)

  // ---------------------------------------------------------------------
  // Sending
  // ---------------------------------------------------------------------

  /** clusterBuildMessageHdr: a slave that knows its master publishes the master's data. */
  function BuildHeader(n: Node): Header
    requires n.Wf()
  {
    var master := if n.Role().Slave? && n.Role().of.Some? then n.Role().of.value else n.id;
    Header(n.id, n.currentEpoch, n.peers[master].configEpoch,
           if n.Role().Slave? then n.Role().of else None, ServedBy(n.slots, master))
  }

  /** clusterSendUpdate: the configuration of `about`, as this node records it. */
  function BuildUpdate(n: Node, dst: NodeId, about: NodeId): Packet
    requires n.Wf() && about in n.peers
  {
    Packet(dst, BuildHeader(n), Update(about, n.peers[about].configEpoch, ServedBy(n.slots, about)))
  }

  // ---------------------------------------------------------------------
  // Receiving
  // ---------------------------------------------------------------------

  /** Every packet of a known sender first updates the two epochs on record. */
  function Observe(n: Node, h: Header): (r: Node)
    requires n.Wf()
    ensures r.Wf() && r.id == n.id
  {
    if h.sender !in n.peers then n
    else
      var p := n.peers[h.sender];
      n.(currentEpoch := Max(n.currentEpoch, h.currentEpoch),
         peers := n.peers[h.sender := p.(configEpoch := Max(p.configEpoch, h.configEpoch))])
  }

  /** clusterSetMaster: become a replica of m, closing open slots if this was a master. */
  function SetMaster(n: Node, m: NodeId): (r: Node)
    requires n.Wf() && m in n.peers
    ensures r.Wf() && r.id == n.id
  {
    n.(peers := n.peers[n.id := n.peers[n.id].(role := Slave(Some(m)))],
       importing := if n.Role().Master? then {} else n.importing)
  }

  /** At least one slot is taken away from the current master by this claim. */
  predicate RobsCurrentMaster(n: Node, sender: NodeId, epoch: nat, claim: set<Slot>)
    requires n.Wf()
  {
    exists j :: j in n.slots && Some(n.slots[j]) == n.CurrentMaster()
                && Takes(n.slots, n.importing, n.Epochs(), sender, epoch, claim, j)
  }

  /** clusterUpdateSlotsConfigWith. */
  function UpdateSlotsConfigWith(n: Node, sender: NodeId, epoch: nat, claim: set<Slot>): (r: Node)
    requires n.Wf() && sender in n.peers && n.CurrentMaster().Some?
    ensures r.Wf() && r.id == n.id
  {
    if sender == n.id then n
    else
      var r := n.(slots := Rebind(n.slots, n.importing, n.Epochs(), sender, epoch, claim));
      if RobsCurrentMaster(n, sender, epoch, claim) && ServedBy(r.slots, n.CurrentMaster().value) == {}
      then SetMaster(r, sender)
      else r
  }

  /** clusterDelNodeSlots. */
  function DelNodeSlots(n: Node, m: NodeId): (r: Node)
    requires n.Wf()
    ensures r.Wf() && r.id == n.id
  {
    n.(slots := Without(n.slots, m))
  }

  /** The role switch a ping header announces about its sender. */
  function SwitchRole(n: Node, h: Header): (r: Node)
    requires n.Wf() && h.sender in n.peers
    ensures r.Wf() && r.id == n.id
  {
    var p := n.peers[h.sender];
    match h.slaveof
    case None =>
      n.(peers := n.peers[h.sender := p.(role := Master)])
    case Some(m) =>
      var cleared := if p.role.Master? then DelNodeSlots(n, h.sender) else n;
      var role := if m in n.peers then Slave(Some(m)) else if p.role.Master? then Slave(None) else p.role;
      cleared.(peers := n.peers[h.sender := p.(role := role)])
  }

  /** clusterHandleConfigEpochCollision: the smaller name moves to a new epoch. */
  function HandleEpochCollision(n: Node, sender: NodeId): (r: Node)
    requires n.Wf() && sender in n.peers
    ensures r.Wf() && r.id == n.id
  {
    if n.peers[sender].configEpoch != n.peers[n.id].configEpoch
       || !n.peers[sender].role.Master? || !n.Role().Master? || sender <= n.id then n
    else
      n.(currentEpoch := n.currentEpoch + 1,
         peers := n.peers[n.id := n.peers[n.id].(configEpoch := n.currentEpoch + 1)])
  }

  /** The least claimed slot that this node knows to be served under a greater epoch. */
  function FirstOutdated(n: Node, h: Header, from: nat): Option<Slot>
    requires n.Wf()
    decreases CLUSTER_SLOTS - from
  {
    if from >= CLUSTER_SLOTS then None
    else if from in h.myslots && from in n.slots && n.slots[from] != h.sender
            && n.peers[n.slots[from]].configEpoch > h.configEpoch then Some(from)
    else FirstOutdated(n, h, from + 1)
  }

  datatype Outcome = Outcome(node: Node, sent: seq<Packet>)

  /** The slots a ping publishes are not those recorded for its sender, or for its sender's master. */
  predicate Dirty(n: Node, h: Header)
    requires n.Wf() && h.sender in n.peers
  {
    var role := n.peers[h.sender].role;
    var master := if role.Master? then Some(h.sender) else role.of;
    master.Some? && ServedBy(n.slots, master.value) != h.myslots
  }

  /** The slots a ping of a master claims. */
  function ApplyClaim(n: Node, h: Header): (r: Node)
    requires n.Wf() && h.sender in n.peers && n.CurrentMaster().Some?
    ensures r.Wf() && r.id == n.id && r.peers.Keys == n.peers.Keys
  {
    if n.peers[h.sender].role.Master? && Dirty(n, h)
    then UpdateSlotsConfigWith(n, h.sender, h.configEpoch, h.myslots) else n
  }

  /** The UPDATE that tells the sender of an outdated claim about one newer owner. */
  function UpdateReply(n: Node, h: Header, dirty: bool): seq<Packet>
    requires n.Wf()
  {
    var outdated := if dirty then FirstOutdated(n, h, 0) else None;
    if outdated.Some? && outdated.value in n.slots
    then [BuildUpdate(n, h.sender, n.slots[outdated.value])] else []
  }

  /** Epoch repair happens only for the epoch that the header itself publishes. */
  function ResolveCollision(n: Node, h: Header): (r: Node)
    requires n.Wf() && h.sender in n.peers
    ensures r.Wf() && r.id == n.id
  {
    if h.configEpoch == n.peers[n.id].configEpoch then HandleEpochCollision(n, h.sender) else n
  }

  /** A ping of a known sender: roles, claimed slots, outdated claims, epoch collisions. */
  function HandlePing(n: Node, h: Header): (r: Outcome)
    requires n.Wf() && h.sender in n.peers && n.CurrentMaster().Some? && h.sender != n.id
    ensures r.node.Wf() && r.node.id == n.id
  {
    var a := SwitchRole(n, h);
    var b := ApplyClaim(a, h);
    Outcome(ResolveCollision(b, h), UpdateReply(b, h, Dirty(a, h)))
  }

  /** A FAIL packet flags a node other than the receiver. */
  function HandleFail(n: Node, about: NodeId): (r: Node)
    requires n.Wf()
    ensures r.Wf() && r.id == n.id
  {
    if about in n.peers && about != n.id
    then n.(peers := n.peers[about := n.peers[about].(failed := true)])
    else n
  }

  /** The slots a candidate claims are all served here under no greater epoch. */
  predicate ClaimIsCurrent(n: Node, h: Header)
    requires n.Wf()
  {
    forall j | j in h.myslots && j in n.slots :: n.peers[n.slots[j]].configEpoch <= h.configEpoch
  }

  /**
   * clusterSendFailoverAuthIfNeeded grants the vote. `tooSoon` is the test that
   * this node voted about the same master less than two node timeouts ago.
   */
  predicate GrantsVote(n: Node, h: Header, force: bool, tooSoon: bool)
    requires n.Wf() && h.sender in n.peers
  {
    var candidate := n.peers[h.sender].role;
    && n.Votes()
    && h.currentEpoch >= n.currentEpoch
    && n.lastVoteEpoch != n.currentEpoch
    && candidate.Slave? && candidate.of.Some?
    && (n.peers[candidate.of.value].failed || force)
    && !tooSoon
    && ClaimIsCurrent(n, h)
  }

  function HandleAuthRequest(n: Node, h: Header, force: bool, tooSoon: bool): (r: Outcome)
    requires n.Wf() && h.sender in n.peers
    ensures r.node.Wf() && r.node.id == n.id
  {
    if GrantsVote(n, h, force, tooSoon)
    then Outcome(n.(lastVoteEpoch := n.currentEpoch), [Packet(h.sender, BuildHeader(n), AuthAck)])
    else Outcome(n, [])
  }

  /** An ACK is counted: its sender may vote and is not behind the election. */
  predicate CountsAck(n: Node, h: Header)
    requires n.Wf() && h.sender in n.peers
  {
    && n.peers[h.sender].role.Master?
    && ServedBy(n.slots, h.sender) != {}
    && h.currentEpoch >= n.authEpoch
  }

  function HandleAuthAck(n: Node, h: Header): (r: Node)
    requires n.Wf() && h.sender in n.peers
    ensures r.Wf() && r.id == n.id
  {
    if CountsAck(n, h) then n.(authCount := n.authCount + 1) else n
  }

  /** An UPDATE packet: a newer configuration of a third node. */
  function HandleUpdate(n: Node, about: NodeId, epoch: nat, claim: set<Slot>): (r: Node)
    requires n.Wf() && n.CurrentMaster().Some?
    ensures r.Wf() && r.id == n.id
  {
    if about !in n.peers || n.peers[about].configEpoch >= epoch then n
    else
      var a := n.(peers := n.peers[about := n.peers[about].(role := Master, configEpoch := epoch)]);
      UpdateSlotsConfigWith(a, about, epoch, claim)
  }

  /**
   * clusterProcessPacket. A slave that does not know its master dereferences a
   * null pointer on a slot claim; a run therefore delivers pings and updates
   * only to nodes whose current master is known.
   */
  predicate CanProcess(n: Node, p: Packet) {
    && n.Wf() && p.hdr.sender != n.id
    && ((p.body.Ping? || p.body.Update?) && p.hdr.sender in n.peers ==> n.CurrentMaster().Some?)
  }

  function Process(n: Node, p: Packet, tooSoon: bool): (r: Outcome)
    requires CanProcess(n, p)
    ensures r.node.Wf() && r.node.id == n.id
  {
    var a := Observe(n, p.hdr);
    if p.hdr.sender !in n.peers then Outcome(n, [])
    else match p.body
      case Ping => HandlePing(a, p.hdr)
      case Fail(about) => Outcome(HandleFail(a, about), [])
      case AuthRequest(force) => HandleAuthRequest(a, p.hdr, force, tooSoon)
      case AuthAck => Outcome(HandleAuthAck(a, p.hdr), [])
      case Update(about, epoch, claim) => Outcome(HandleUpdate(a, about, epoch, claim), [])
  }

  // ---------------------------------------------------------------------
  // Local actions
  // ---------------------------------------------------------------------

  /** What clusterGetMaxEpoch computes; EpochBound.GetMaxEpoch is its loop. */
  predicate IsMaxEpoch(n: Node, m: nat) {
    && n.currentEpoch <= m
    && (forall p | p in n.peers :: n.peers[p].configEpoch <= m)
    && (m == n.currentEpoch || exists p :: p in n.peers && n.peers[p].configEpoch == m)
  }

  /** clusterHandleSlaveFailover may act: a slave whose master serves slots and is down, or a manual failover. */
  predicate MayFailover(n: Node, manual: bool)
    requires n.Wf()
  {
    && n.Role().Slave? && n.Role().of.Some?
    && (n.peers[n.Role().of.value].failed || manual)
    && ServedBy(n.slots, n.Role().of.value) != {}
  }

  /** A new election is scheduled; the epoch of the old one stays on record. */
  function ScheduleElection(n: Node): Node {
    n.(authCount := 0, authSent := false)
  }

  function AskForVotes(n: Node): Node {
    n.(currentEpoch := n.currentEpoch + 1, authEpoch := n.currentEpoch + 1, authSent := true)
  }

  /** clusterFailoverReplaceYourMaster: become a master and take over every slot of the old one. */
  function ReplaceMaster(n: Node): (r: Node)
    requires n.Wf()
    ensures r.Wf() && r.id == n.id
  {
    if n.Role().Master? || n.Role().of.None? then n
    else
      n.(peers := n.peers[n.id := n.peers[n.id].(role := Master)],
         slots := HandOver(n.slots, n.Role().of.value, n.id))
  }

  function WinElection(n: Node): (r: Node)
    requires n.Wf()
    ensures r.Wf() && r.id == n.id
  {
    var me := n.peers[n.id];
    ReplaceMaster(n.(peers := n.peers[n.id := me.(configEpoch := Max(me.configEpoch, n.authEpoch))]))
  }

  /** clusterBumpConfigEpochWithoutConsensus, where `max` is the result of clusterGetMaxEpoch. */
  function BumpEpoch(n: Node, max: nat): (r: Node)
    requires n.Wf() && IsMaxEpoch(n, max)
    ensures r.Wf() && r.id == n.id
  {
    var me := n.peers[n.id];
    if me.configEpoch == 0 || me.configEpoch != max
    then n.(currentEpoch := n.currentEpoch + 1, peers := n.peers[n.id := me.(configEpoch := n.currentEpoch + 1)])
    else n
  }

  /** clusterDelNode: unbind its slots, forget it, and orphan its replicas. */
  function ForgetNode(n: Node, m: NodeId): (r: Node)
    requires n.Wf() && m != n.id
    ensures r.Wf() && r.id == n.id
  {
    var a := DelNodeSlots(n, m);
    a.(peers := map p | p in n.peers && p != m ::
         if n.peers[p].role == Slave(Some(m)) then n.peers[p].(role := Slave(None)) else n.peers[p])
  }

  /** A node learnt from gossip enters the table with configEpoch 0. */
  function LearnNode(n: Node, m: NodeId, role: Role): (r: Node)
    requires n.Wf() && (role.Slave? && role.of.Some? ==> role.of.value in n.peers)
    ensures r.Wf() && r.id == n.id
  {
    if m in n.peers then n else n.(peers := n.peers[m := Peer(role, 0, false)])
  }
}
