/**
 * Collision repair stops: every epoch a master leaves was held by a greater name, so the masters
 * of a cluster can leave only so many.
 */
module RepairBound {
  import opened Prelude
  import opened ClusterBus
  import opened ClusterSystem
  import opened EpochBound
  import opened BusLaws
  import opened EpochRepair

  /** The epochs node k has given itself up to state i. */
  function Held(trace: seq<System>, i: nat, k: NodeId): set<nat>
    requires i < |trace|
  {
    set t | 0 <= t <= i :: Own(trace[t], k)
  }

  lemma HeldGrows(trace: seq<System>, i: nat, k: NodeId)
    requires i + 1 < |trace|
    ensures Held(trace, i + 1, k) == Held(trace, i, k) + {Own(trace[i + 1], k)}
  {
    var x, y := Held(trace, i, k), Held(trace, i + 1, k);
    forall e | e in x + {Own(trace[i + 1], k)} ensures e in y {
      if e in x {
        var t :| 0 <= t <= i && e == Own(trace[t], k);
        assert 0 <= t <= i + 1 && e == Own(trace[t], k);
      }
    }
  }

  /** The epochs held up to state i by masters with a greater name than k. */
  function HeldAbove(trace: seq<System>, i: nat, masters: set<NodeId>, k: NodeId): set<nat>
    requires i < |trace|
  {
    set j, t | j in masters && j > k && 0 <= t <= i :: Own(trace[t], j)
  }

  lemma HeldByGreater(trace: seq<System>, i: nat, masters: set<NodeId>, k: NodeId, j: NodeId, e: nat)
    requires i < |trace| && j in masters && j > k && e in Held(trace, i, j)
    ensures e in HeldAbove(trace, i, masters, k)
  {
  }

  lemma HeldAboveGrows(trace: seq<System>, i: nat, masters: set<NodeId>, k: NodeId)
    requires i + 1 < |trace|
    ensures HeldAbove(trace, i, masters, k) <= HeldAbove(trace, i + 1, masters, k)
  {
    forall e | e in HeldAbove(trace, i, masters, k) ensures e in HeldAbove(trace, i + 1, masters, k) {
      var j, t :| j in masters && j > k && 0 <= t <= i && e == Own(trace[t], j);
      assert j in masters && j > k && 0 <= t <= i + 1 && e == Own(trace[t], j);
    }
  }

  /** Every epoch k has left was at some time held by a master of a greater name. */
  predicate LeftForGreater(trace: seq<System>, i: nat, masters: set<NodeId>, k: NodeId)
    requires i < |trace|
  {
    forall e | e in Held(trace, i, k) && e != Own(trace[i], k) :: e in HeldAbove(trace, i, masters, k)
  }

  /** Node k now has the greatest epoch it ever had. */
  predicate OwnIsGreatest(trace: seq<System>, i: nat, k: NodeId)
    requires i < |trace|
  {
    forall e | e in Held(trace, i, k) :: e <= Own(trace[i], k)
  }

  /** The epoch a header without a master publishes was held by its sender, a master. */
  predicate WordKept(trace: seq<System>, i: nat, masters: set<NodeId>, h: Header)
    requires i < |trace|
  {
    h.slaveof.None? ==> h.sender in masters && h.configEpoch in Held(trace, i, h.sender)
  }

  predicate HistoryInv(trace: seq<System>, i: nat, masters: set<NodeId>)
    requires i < |trace|
  {
    && (forall p | p in trace[i].net :: WordKept(trace, i, masters, p.hdr))
    && (forall k | k in masters :: LeftForGreater(trace, i, masters, k) && OwnIsGreatest(trace, i, k))
  }

  lemma OwnIsHeld(trace: seq<System>, i: nat, k: NodeId)
    requires i < |trace|
    ensures Own(trace[i], k) in Held(trace, i, k)
  {
  }

  /** The history of the run up to i + 1, one node at a time. */
  lemma HistoryStep(trace: seq<System>, i: nat, masters: set<NodeId>, a: Action, k: NodeId)
    requires i + 1 < |trace| && HistoryInv(trace, i, masters) && k in masters && trace[i].Wf()
    requires Own(trace[i], k) <= Own(trace[i + 1], k)
    requires Own(trace[i], k) == Own(trace[i + 1], k) || Moves(trace[i], a, k)
    requires a.Deliver? ==> a.p in trace[i].net
    ensures LeftForGreater(trace, i + 1, masters, k) && OwnIsGreatest(trace, i + 1, k)
  {
    HeldGrows(trace, i, k);
    HeldAboveGrows(trace, i, masters, k);
    assert LeftForGreater(trace, i, masters, k) && OwnIsGreatest(trace, i, k);
    if Own(trace[i + 1], k) != Own(trace[i], k) {
      assert WordKept(trace, i, masters, a.p.hdr);
      HeldByGreater(trace, i, masters, k, a.p.hdr.sender, Own(trace[i], k));
    }
  }

  lemma NewWordKept(trace: seq<System>, i: nat, masters: set<NodeId>, a: Action, p: Packet)
    requires i + 1 < |trace| && Next(trace[i], a, trace[i + 1]) && SpeakersAmong(trace[i], masters)
    requires p in SentBy(trace[i], a)
    ensures WordKept(trace, i + 1, masters, p.hdr)
  {
    hide Do, SentBy, Enabled, NodeAfter;
    ActionSends(trace[i], a);
    OwnIsHeld(trace, i, p.hdr.sender);
    HeldGrows(trace, i, p.hdr.sender);
  }

  lemma ActionKeepsHistory(trace: seq<System>, i: nat, masters: set<NodeId>, a: Action)
    requires i + 1 < |trace| && HistoryInv(trace, i, masters) && EpochInv(trace[i])
    requires masters <= trace[i].nodes.Keys
    requires Next(trace[i], a, trace[i + 1]) && SpeakersAmong(trace[i], masters) && OnlyMoves(trace[i], a, trace[i + 1])
    ensures HistoryInv(trace, i + 1, masters)
  {
    hide NodeAfter, SentBy, VoteGranted, VoteCounted, CanProcess;
    hide Own, Held, LeftForGreater, OwnIsGreatest, SpeakersAmong, Moves;
    var s, r := trace[i], trace[i + 1];
    forall k | k in masters ensures LeftForGreater(trace, i + 1, masters, k) && OwnIsGreatest(trace, i + 1, k) {
      OwnChangesIff(s, a, r, k);
      HistoryStep(trace, i, masters, a, k);
    }
    forall p | p in r.net ensures WordKept(trace, i + 1, masters, p.hdr) {
      if p in s.net {
        assert WordKept(trace, i, masters, p.hdr);
        HeldGrows(trace, i, p.hdr.sender);
      } else {
        assert p in SentBy(s, a);
        NewWordKept(trace, i, masters, a, p);
      }
    }
  }

  lemma {:induction false} RunKeepsHistory(trace: seq<System>, acts: seq<Action>, masters: set<NodeId>, i: nat)
    requires RepairRun(trace, acts, masters) && i < |trace|
    ensures HistoryInv(trace, i, masters)
  {
    hide Do, Enabled, Own, SpeakersAmong, OnlyMoves, EpochInv;
    if i > 0 {
      RunKeepsHistory(trace, acts, masters, i - 1);
      RunBasics(trace, acts, i - 1);
      assert Next(trace[i - 1], acts[i - 1], trace[i]) && OnlyMoves(trace[i - 1], acts[i - 1], trace[i]);
      ActionKeepsHistory(trace, i - 1, masters, acts[i - 1]);
    }
  }

  // ---------------------------------------------------------------------
  // Counting moves
  // ---------------------------------------------------------------------

  /** All pairs of a node of `ids` and an epoch it has held. */
  function History(trace: seq<System>, i: nat, ids: set<NodeId>): set<(NodeId, nat)>
    requires i < |trace|
  {
    set k, t | k in ids && 0 <= t <= i :: (k, Own(trace[t], k))
  }

  /** The least element of a set of names. */
  lemma {:induction false} LeastName(ids: set<NodeId>) returns (m: NodeId)
    requires ids != {}
    ensures m in ids && forall k | k in ids :: m <= k
  {
    m := Pick(ids);
    if ids != {m} {
      var rest := ids - {m};
      assert ids == rest + {m};
      var x := LeastName(rest);
      m := if x < m then x else m;
    }
  }

  /** `ids` contains with every name all greater masters. */
  predicate UpClosed(masters: set<NodeId>, ids: set<NodeId>) {
    ids <= masters && forall k, j | k in ids && j in masters && j > k :: j in ids
  }

  /** A node has held at most one epoch more than the masters above it together. */
  lemma HeldBound(trace: seq<System>, i: nat, masters: set<NodeId>, m: NodeId, above: set<NodeId>)
    requires i < |trace| && LeftForGreater(trace, i, masters, m)
    requires forall j | j in masters && j > m :: j in above
    ensures |Held(trace, i, m)| <= 1 + |History(trace, i, above)|
  {
    hide Own;
    var left := Held(trace, i, m) - {Own(trace[i], m)};
    var pairs := History(trace, i, above);
    forall e | e in left ensures exists x :: x in pairs && ((x: (NodeId, nat)) => x.1)(x) == e {
      assert e in HeldAbove(trace, i, masters, m);
      var j, t :| j in masters && j > m && 0 <= t <= i && e == Own(trace[t], j);
      assert (j, e) in pairs;
    }
    ImageIsNoLarger(pairs, left, (x: (NodeId, nat)) => x.1);
    assert Held(trace, i, m) <= left + {Own(trace[i], m)};
    SubsetIsNoLarger(Held(trace, i, m), left + {Own(trace[i], m)});
  }

  lemma SubsetIsNoLarger<T>(a: set<T>, b: set<T>)
    requires a <= b
    ensures |a| <= |b|
  {
    assert b == a + (b - a);
  }

  lemma HistorySplits(trace: seq<System>, i: nat, ids: set<NodeId>, m: NodeId)
    requires i < |trace| && m in ids
    ensures |History(trace, i, ids)| <= |History(trace, i, ids - {m})| + |Held(trace, i, m)|
  {
    hide Own;
    var all, rest, own := History(trace, i, ids), History(trace, i, ids - {m}), Held(trace, i, m);
    forall y | y in all - rest ensures exists e :: e in own && (e => (m, e))(e) == y {
      var k, t :| k in ids && 0 <= t <= i && y == (k, Own(trace[t], k));
      assert k in ids - {m} ==> y in rest;
      assert y.1 in own;
    }
    ImageIsNoLarger(own, all - rest, e => (m, e));
    SubsetIsNoLarger(all, rest + (all - rest));
  }

  lemma {:induction false} HistoryBound(trace: seq<System>, i: nat, masters: set<NodeId>, ids: set<NodeId>)
    requires i < |trace| && HistoryInv(trace, i, masters) && UpClosed(masters, ids)
    ensures |History(trace, i, ids)| < Pow2(|ids|)
    decreases ids
  {
    hide Own;
    if ids == {} {
      assert History(trace, i, ids) == {};
    } else {
      var m := LeastName(ids);
      var rest := ids - {m};
      assert |ids| == |rest| + 1;
      HistoryBound(trace, i, masters, rest);
      assert LeftForGreater(trace, i, masters, m);
      HeldBound(trace, i, masters, m, rest);
      HistorySplits(trace, i, ids, m);
    }
  }

  /** Some node has given itself a new epoch. */
  predicate Changed(s: System, r: System) {
    exists k :: k in s.nodes && Own(s, k) != Own(r, k)
  }

  /** How many of the first i actions were repairs. */
  function Repaired(trace: seq<System>, i: nat): nat
    requires i < |trace|
  {
    if i == 0 then 0 else Repaired(trace, i - 1) + if Changed(trace[i - 1], trace[i]) then 1 else 0
  }

  /** Who moves is a master. */
  lemma MoverIsMaster(s: System, a: Action, masters: set<NodeId>, k: NodeId)
    requires s.Wf() && SpeakersAmong(s, masters) && Moves(s, a, k)
    ensures k in masters
  {
  }

  /** Every repair enlarges the history. */
  lemma HistoryGrows(trace: seq<System>, i: nat, masters: set<NodeId>, a: Action)
    requires i + 1 < |trace| && HistoryInv(trace, i, masters) && SpeakersAmong(trace[i], masters)
    requires OnlyMoves(trace[i], a, trace[i + 1])
    requires forall k | k in trace[i].nodes :: Own(trace[i], k) <= Own(trace[i + 1], k)
    ensures |History(trace, i, masters)| + (if Changed(trace[i], trace[i + 1]) then 1 else 0) <=
            |History(trace, i + 1, masters)|
  {
    hide Own, Moves, SpeakersAmong;
    var x, y := History(trace, i, masters), History(trace, i + 1, masters);
    forall z | z in x ensures z in y {
      var k, t :| k in masters && 0 <= t <= i && z == (k, Own(trace[t], k));
      assert k in masters && 0 <= t <= i + 1 && z == (k, Own(trace[t], k));
    }
    if Changed(trace[i], trace[i + 1]) {
      var k :| k in trace[i].nodes && Own(trace[i], k) != Own(trace[i + 1], k);
      MoverIsMaster(trace[i], a, masters, k);
      assert OwnIsGreatest(trace, i, k);
      var z := (k, Own(trace[i + 1], k));
      assert z !in x by {
        forall t | 0 <= t <= i ensures Own(trace[t], k) != Own(trace[i + 1], k) {
          assert Own(trace[t], k) in Held(trace, i, k);
        }
      }
      assert z in y;
      SubsetIsNoLarger(x + {z}, y);
    } else {
      SubsetIsNoLarger(x, y);
    }
  }

  lemma HistoryStarts(trace: seq<System>, masters: set<NodeId>)
    requires |trace| > 0
    ensures |masters| <= |History(trace, 0, masters)|
  {
    hide Own;
    forall k | k in masters
      ensures exists x :: x in History(trace, 0, masters) && ((x: (NodeId, nat)) => x.0)(x) == k
    {
      assert (k, Own(trace[0], k)) in History(trace, 0, masters);
    }
    ImageIsNoLarger(History(trace, 0, masters), masters, (x: (NodeId, nat)) => x.0);
  }

  lemma RepairIsRecorded(trace: seq<System>, acts: seq<Action>, masters: set<NodeId>, i: nat)
    requires RepairRun(trace, acts, masters) && i + 1 < |trace|
    ensures |History(trace, i, masters)| + (if Changed(trace[i], trace[i + 1]) then 1 else 0) <=
            |History(trace, i + 1, masters)|
  {
    hide Do, Enabled, Own, HistoryInv, History, Changed, Initial, SpeakersAmong, OnlyMoves, Moves, EpochInv;
    RunBasics(trace, acts, i);
    RunKeepsHistory(trace, acts, masters, i);
    assert Next(trace[i], acts[i], trace[i + 1]) && OnlyMoves(trace[i], acts[i], trace[i + 1]);
    forall k | k in trace[i].nodes ensures Own(trace[i], k) <= Own(trace[i + 1], k) {
      OwnChangesIff(trace[i], acts[i], trace[i + 1], k);
    }
    HistoryGrows(trace, i, masters, acts[i]);
  }

  lemma {:induction false} RepairsAreRecorded(trace: seq<System>, acts: seq<Action>, masters: set<NodeId>, i: nat)
    requires RepairRun(trace, acts, masters) && i < |trace|
    ensures |masters| + Repaired(trace, i) <= |History(trace, i, masters)|
  {
    hide RepairRun, History, Changed;
    if i == 0 {
      HistoryStarts(trace, masters);
    } else {
      RepairsAreRecorded(trace, acts, masters, i - 1);
      RepairIsRecorded(trace, acts, masters, i - 1);
    }
  }

  /**
   * Collision repair terminates: over every interleaving of packets and every delay, with any
   * replicas about, n masters make fewer than 2^n - n repairs, whatever epochs they start from.
   */
  lemma RepairTerminates(trace: seq<System>, acts: seq<Action>, masters: set<NodeId>, i: nat)
    requires RepairRun(trace, acts, masters) && i < |trace|
    ensures |masters| + Repaired(trace, i) < Pow2(|masters|)
  {
    hide RepairRun, HistoryInv, History;
    RunKeepsHistory(trace, acts, masters, i);
    RepairsAreRecorded(trace, acts, masters, i);
    HistoryBound(trace, i, masters, masters);
  }

  /** The master with the greatest name never moves, and no replica ever does. */
  lemma {:induction false} OthersNeverMove(trace: seq<System>, acts: seq<Action>, masters: set<NodeId>, i: nat,
                                           g: NodeId)
    requires RepairRun(trace, acts, masters) && i < |trace| && g in trace[0].nodes
    requires g in masters ==> forall k | k in masters :: k <= g
    ensures Own(trace[i], g) == Own(trace[0], g)
  {
    hide Do, Enabled, Own, Initial, EpochInv;
    if i > 0 {
      OthersNeverMove(trace, acts, masters, i - 1, g);
      RunBasics(trace, acts, i - 1);
      RunKeepsHistory(trace, acts, masters, i - 1);
      var s, a := trace[i - 1], acts[i - 1];
      assert Next(s, a, trace[i]) && OnlyMoves(s, a, trace[i]);
      if Moves(s, a, g) {
        MoverIsMaster(s, a, masters, g);
        assert WordKept(trace, i - 1, masters, a.p.hdr) by { DeliveredIsInFlight(s, a, trace[i]); }
      }
    }
  }

  lemma DeliveredIsInFlight(s: System, a: Action, r: System)
    requires Next(s, a, r) && a.Deliver?
    ensures a.p in s.net
  {
  }
}
