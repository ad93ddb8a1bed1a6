/**
 * Failover over whole runs: for whom votes are asked and granted, and what a winner becomes.
 */
module Failover {
  import opened Prelude
  import opened SlotClaims
  import opened ClusterBus
  import opened ClusterSystem
  import opened BusLaws

  // ---------------------------------------------------------------------
  // For whom votes are asked
  // ---------------------------------------------------------------------

  /** By action a a replica, entitled to a failover, sends the request p in its master's name. */
  predicate Asks(s: System, a: Action, p: Packet) {
    && s.Wf() && p.hdr.sender in s.nodes && a.Ask? && a.n == p.hdr.sender && p.body == AuthRequest(a.force)
    && var n := s.nodes[a.n];
       && n.Role().Slave? && n.Role().of.Some? && !n.authSent
       && var m := n.Role().of.value;
          && (n.peers[m].failed || a.force)
          && p.hdr == Header(a.n, n.currentEpoch + 1, n.peers[m].configEpoch, Some(m), ServedBy(n.slots, m))
          && p.hdr.myslots != {}
  }

  lemma NewRequest(s: System, a: Action, p: Packet)
    requires s.Wf() && Enabled(s, a) && p in SentBy(s, a) && p.body.AuthRequest?
    ensures Asks(s, a, p)
  {
  }

  /**
   * Every request in flight was sent by a replica that had its master on record as failed, or was
   * told to fail over, and claims exactly the slots of that master under its master's epoch.
   */
  lemma {:induction false} RequestsAreJustified(trace: seq<System>, acts: seq<Action>, i: nat, p: Packet)
    requires IsRun(trace, acts) && Initial(trace[0]) && i < |trace| && p in trace[i].net && p.body.AuthRequest?
    ensures exists k :: 0 <= k < i && Asks(trace[k], acts[k], p)
  {
    hide Enabled, SentBy, NodeAfter, Asks;
    assert i > 0;
    var s, a := trace[i - 1], acts[i - 1];
    assert Next(s, a, trace[i]);
    if p in s.net {
      RequestsAreJustified(trace, acts, i - 1, p);
    } else {
      assert p in SentBy(s, a);
      NewRequest(s, a, p);
    }
  }

  // ---------------------------------------------------------------------
  // For whom votes are granted
  // ---------------------------------------------------------------------

  /** By action a the voter answers a request that deserves its vote. */
  predicate Grants(s: System, a: Action, v: Vote) {
    && s.Wf() && v.voter in s.nodes && a.Deliver? && a.p in s.net && a.p.body.AuthRequest?
    && a.p.dst == v.voter && a.p.hdr.sender == v.candidate && a.p.hdr.currentEpoch == v.epoch
    && v.candidate in s.nodes[v.voter].peers && Deserves(s.nodes[v.voter], a.p, a.tooSoon)
  }

  lemma VoteGrantedIff(s: System, a: Action, v: Vote)
    requires s.Wf() && Enabled(s, a)
    ensures VoteGranted(s, a) == Some(v) <==> Grants(s, a, v)
  {
    hide Deserves, GrantsVote;
    if a.Deliver? && a.p.body.AuthRequest? && a.p.hdr.sender in s.nodes[a.p.dst].peers {
      DeservesIffGrants(s.nodes[a.p.dst], a.p, a.tooSoon);
    }
  }

  /** The votes granted in a run are exactly those of the requests that deserved one when they arrived. */
  lemma {:induction false} VotesAreDeserved(trace: seq<System>, acts: seq<Action>, i: nat, v: Vote)
    requires IsRun(trace, acts) && Initial(trace[0]) && i < |trace|
    ensures v in trace[i].granted <==> exists k :: 0 <= k < i && Grants(trace[k], acts[k], v)
  {
    hide Enabled, SentBy, NodeAfter, Grants, VoteGranted;
    if i > 0 {
      var s, a := trace[i - 1], acts[i - 1];
      assert Next(s, a, trace[i]);
      VotesAreDeserved(trace, acts, i - 1, v);
      VoteGrantedIff(s, a, v);
      if Grants(s, a, v) { assert v in trace[i].granted; }
    }
  }

  // ---------------------------------------------------------------------
  // What a winner becomes
  // ---------------------------------------------------------------------

  /** r is n after taking over from its master m under `epoch`. */
  predicate TookOver(n: Node, m: NodeId, epoch: nat, r: Node)
    requires n.id in n.peers
  {
    && r == n.(peers := r.peers, slots := r.slots)
    && r.peers == n.peers[n.id := n.peers[n.id].(role := Master, configEpoch := epoch)]
    && r.slots.Keys == n.slots.Keys
    && forall j | j in n.slots :: r.slots[j] == if n.slots[j] == m then n.id else n.slots[j]
  }

  /**
   * A winner is a replica whose master serves slots and is down, or that was told to fail over, and
   * has a quorum of ACKs for the election it opened. It becomes a master under an epoch not below
   * that of the election nor its own, and takes exactly its master's slots; no other node changes.
   */
  lemma WinnerTakesOver(trace: seq<System>, acts: seq<Action>, i: nat)
    requires IsRun(trace, acts) && i < |acts| && acts[i].Win?
    ensures var a := acts[i]; var s, r := trace[i], trace[i + 1];
      && s.Wf() && a.n in s.nodes && r.nodes.Keys == s.nodes.Keys && r.net == s.net
      && var n := s.nodes[a.n];
         && n.Role().Slave? && n.Role().of.Some? && n.authSent && n.authCount >= Quorum(a.size)
         && (n.peers[n.Role().of.value].failed || a.manual)
         && (exists j :: j in n.slots && n.slots[j] == n.Role().of.value)
         && TookOver(n, n.Role().of.value, Max(n.peers[a.n].configEpoch, n.authEpoch), r.nodes[a.n])
         && (forall k | k in s.nodes && k != a.n :: r.nodes[k] == s.nodes[k])
         && r.won == s.won + {Victory(a.n, n.authEpoch)}
  {
    hide Process;
    var s, a := trace[i], acts[i];
    assert Next(s, a, trace[i + 1]);
    var n := s.nodes[a.n];
    ServesIff(n.slots, n.Role().of.value);
    assert multiset(SentBy(s, a)) == multiset{};
  }

  lemma TakeoverOf(n: Node, max: nat)
    requires n.Wf() && n.Role().Slave? && n.Role().of.Some? && IsMaxEpoch(n, max)
    ensures var own := n.peers[n.id].configEpoch; var r := ReplaceMaster(BumpEpoch(n, max));
      if own == 0 || own < n.currentEpoch || exists q :: q in n.peers && own < n.peers[q].configEpoch
      then TookOver(n.(currentEpoch := n.currentEpoch + 1), n.Role().of.value, n.currentEpoch + 1, r)
      else TookOver(n, n.Role().of.value, own, r)
  {
  }

  /**
   * A takeover does the same without votes, under a new epoch, unless its own is the greatest
   * of those it has on record already.
   */
  lemma TakeoverTakesOver(trace: seq<System>, acts: seq<Action>, i: nat)
    requires IsRun(trace, acts) && i < |acts| && acts[i].Takeover?
    ensures var a := acts[i]; var s, r := trace[i], trace[i + 1];
      && s.Wf() && a.n in s.nodes && r.nodes.Keys == s.nodes.Keys
      && (forall k | k in s.nodes && k != a.n :: r.nodes[k] == s.nodes[k])
      && var n := s.nodes[a.n]; var own := n.peers[a.n].configEpoch;
         && n.Role().Slave? && n.Role().of.Some?
         && if own == 0 || own < n.currentEpoch || exists q :: q in n.peers && own < n.peers[q].configEpoch
            then TookOver(n.(currentEpoch := n.currentEpoch + 1), n.Role().of.value, n.currentEpoch + 1, r.nodes[a.n])
            else TookOver(n, n.Role().of.value, own, r.nodes[a.n])
  {
    hide Process, BumpEpoch, ReplaceMaster, TookOver;
    assert Next(trace[i], acts[i], trace[i + 1]);
    TakeoverOf(trace[i].nodes[acts[i].n], acts[i].max);
  }

  /**
   * A failover is heard: whoever processes a ping of the winner binds to it every slot its master
   * had, unless it is importing that slot or knows an owner under an epoch not smaller.
   */
  lemma WinnerIsHeard(n: Node, x: Node, p: Packet, tooSoon: bool, j: Slot)
    requires n.Wf() && n.Role().Slave? && n.Role().of.Some? && j in n.slots && n.slots[j] == n.Role().of.value
    requires p == Packet(x.id, BuildHeader(WinElection(n)), Ping) && CanProcess(x, p) && n.id in x.peers
    requires j !in x.importing
    requires j in x.slots ==> x.peers[x.slots[j]].configEpoch < Max(n.peers[n.id].configEpoch, n.authEpoch)
    ensures var r := Process(x, p, tooSoon).node;
      && j in r.slots && r.slots[j] == n.id
      && r.peers[n.id].role == Master && r.peers[n.id].configEpoch >= n.authEpoch
  {
    hide Process, Dethroned;
    PingOfMaster(x, p, tooSoon);
    assert j in ServedBy(WinElection(n).slots, n.id);
    assert Yields(x, p.hdr.configEpoch, p.hdr.myslots, j);
  }
}
