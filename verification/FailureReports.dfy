/**
 * Failure reports (cluster.c): per node, the list of the nodes that reported it
 * failing and when, and the quorum that turns suspicion into FAIL. Reports are
 * sequences here; ReportLists has the operations on the linked lists that hold them.
 */
module FailureReports {
  import opened Prelude

  const CLUSTER_FAIL_REPORT_VALIDITY_MULT := 2

  datatype Report = Report(sender: NodeId, time: int)

  // ---------------------------------------------------------------------
  // Reports as values
  // ---------------------------------------------------------------------

  predicate Stale(r: Report, now: int, timeout: int) {
    now - r.time > timeout * CLUSTER_FAIL_REPORT_VALIDITY_MULT
  }

  /** The reports that are not stale, in order. */
  function Recent(s: seq<Report>, now: int, timeout: int): seq<Report> {
    if s == [] then []
    else
      var init := Recent(s[..|s| - 1], now, timeout);
      if Stale(s[|s| - 1], now, timeout) then init else init + [s[|s| - 1]]
  }

  /** One more report has been looked at: dropped, or kept at the end. */
  lemma ScanStep(s: seq<Report>, i: nat, now: int, timeout: int)
    requires i < |s|
    ensures Recent(s[..i + 1], now, timeout) ==
            Recent(s[..i], now, timeout) + if Stale(s[i], now, timeout) then [] else [s[i]]
  {
    assert s[..i + 1][..i] == s[..i];
  }

  /** The position of the first report of a sender, or the length if there is none. */
  function Find(s: seq<Report>, sender: NodeId): (k: nat)
    ensures k <= |s| && (k < |s| ==> s[k].sender == sender)
    ensures forall j :: 0 <= j < k ==> s[j].sender != sender
  {
    if s == [] then 0 else if s[0].sender == sender then 0 else 1 + Find(s[1..], sender)
  }

  function Added(s: seq<Report>, sender: NodeId, now: int): seq<Report> {
    var k := Find(s, sender);
    if k < |s| then s[k := Report(sender, now)] else s + [Report(sender, now)]
  }

  function Withdrawn(s: seq<Report>, sender: NodeId, now: int, timeout: int): seq<Report> {
    var k := Find(s, sender);
    if k < |s| then Recent(s[..k] + s[k + 1..], now, timeout) else s
  }

  lemma {:induction false} FindIs(s: seq<Report>, sender: NodeId, k: nat)
    requires k <= |s| && (k < |s| ==> s[k].sender == sender)
    requires forall j :: 0 <= j < k ==> s[j].sender != sender
    ensures Find(s, sender) == k
  {
    if k > 0 { FindIs(s[1..], sender, k - 1); }
  }

  // ---------------------------------------------------------------------
  // What the operations keep
  // ---------------------------------------------------------------------

  /** No sender has two reports in the list. */
  predicate DistinctSenders(s: seq<Report>) {
    forall i, j :: 0 <= i < j < |s| ==> s[i].sender != s[j].sender
  }

  function Senders(s: seq<Report>): set<NodeId> {
    set r | r in s :: r.sender
  }

  lemma {:induction false} RecentKeeps(s: seq<Report>, now: int, timeout: int)
    requires DistinctSenders(s)
    ensures DistinctSenders(Recent(s, now, timeout))
    ensures forall r :: r in Recent(s, now, timeout) <==> r in s && !Stale(r, now, timeout)
    ensures Senders(Recent(s, now, timeout)) <= Senders(s)
  {
    if s != [] {
      var init := s[..|s| - 1];
      assert s == init + [s[|s| - 1]];
      RecentKeeps(init, now, timeout);
      var kept := Recent(init, now, timeout);
      forall i | 0 <= i < |kept| ensures kept[i].sender != s[|s| - 1].sender {
        assert kept[i] in kept && kept[i] in init;
      }
    }
  }

  lemma AddedKeeps(s: seq<Report>, sender: NodeId, now: int)
    requires DistinctSenders(s)
    ensures DistinctSenders(Added(s, sender, now))
    ensures Senders(Added(s, sender, now)) == Senders(s) + {sender}
  {
    var k, t := Find(s, sender), Added(s, sender, now);
    forall x | x in Senders(t) ensures x in Senders(s) + {sender} {
      var i :| 0 <= i < |t| && t[i].sender == x;
      if i != k { assert s[i] in s; }
    }
    forall x | x in Senders(s) + {sender} ensures x in Senders(t) {
      if x == sender {
        assert t[k].sender == sender && t[k] in t;
      } else {
        var i :| 0 <= i < |s| && s[i].sender == x;
        assert t[i] == s[i] && t[i] in t;
      }
    }
  }

  lemma WithoutKeeps(s: seq<Report>, k: nat)
    requires DistinctSenders(s) && k < |s|
    ensures var t := s[..k] + s[k + 1..];
            DistinctSenders(t) && Senders(t) <= Senders(s) - {s[k].sender}
  {
    var t := s[..k] + s[k + 1..];
    assert forall i :: 0 <= i < |t| ==> t[i] == s[if i < k then i else i + 1];
    forall x | x in Senders(t) ensures x in Senders(s) && x != s[k].sender {
      var i :| 0 <= i < |t| && t[i].sender == x;
      assert s[if i < k then i else i + 1] in s;
    }
  }

  lemma WithdrawnKeeps(s: seq<Report>, sender: NodeId, now: int, timeout: int)
    requires DistinctSenders(s)
    ensures var t := Withdrawn(s, sender, now, timeout);
            DistinctSenders(t) && Senders(t) <= Senders(s) - {sender}
  {
    hide Recent, DistinctSenders;
    var k := Find(s, sender);
    if k < |s| {
      WithoutKeeps(s, k);
      RecentKeeps(s[..k] + s[k + 1..], now, timeout);
    }
  }

  lemma {:induction false} SendersCount(s: seq<Report>)
    requires DistinctSenders(s)
    ensures |Senders(s)| == |s|
  {
    if s != [] {
      var init, last := s[..|s| - 1], s[|s| - 1];
      assert s == init + [last];
      SendersCount(init);
      assert last.sender !in Senders(init);
      assert Senders(s) == Senders(init) + {last.sender};
    }
  }

  // ---------------------------------------------------------------------
  // Failure detection as one node sees it
  // ---------------------------------------------------------------------

  /** The nodes this node knows, with the reports about each, and its failure flags. */
  datatype View = View(me: NodeId, master: bool, size: nat, reports: map<NodeId, seq<Report>>,
                       pfail: set<NodeId>, fail: set<NodeId>)

  /** Gossip says whether its sender is a master; Flags is what this node finds out by itself. */
  datatype Event =
    | GossipDown(sender: NodeId, ofMaster: bool, about: NodeId, now: int)
    | GossipUp(sender: NodeId, ofMaster: bool, about: NodeId, now: int)
    | FailMessage(about: NodeId)
    | Flags(pfail: set<NodeId>, cleared: set<NodeId>)
    | Role(master: bool, size: nat)
    | Learn(node: NodeId)
    | Forget(node: NodeId, now: int)

  /** markNodeAsFailingIfNeeded. */
  function MarkIfNeeded(v: View, about: NodeId, now: int, timeout: int): View
    requires about in v.reports
  {
    if about !in v.pfail || about in v.fail then v
    else
      var recent := Recent(v.reports[about], now, timeout);
      var w := v.(reports := v.reports[about := recent]);
      if |recent| + (if v.master then 1 else 0) < Quorum(v.size) then w
      else w.(pfail := w.pfail - {about}, fail := w.fail + {about})
  }

  /** A node never processes gossip of its own. */
  predicate Possible(v: View, e: Event) {
    e.GossipDown? || e.GossipUp? ==> e.sender != v.me
  }

  /** Gossip is heeded only of masters, and only about other nodes that are known. */
  predicate Heeded(v: View, sender: NodeId, ofMaster: bool, about: NodeId) {
    sender in v.reports && ofMaster && about in v.reports && about != v.me
  }

  function Step(v: View, e: Event, timeout: int): View {
    match e
    case GossipDown(sender, ofMaster, about, now) =>
      if !Heeded(v, sender, ofMaster, about) then v
      else MarkIfNeeded(v.(reports := v.reports[about := Added(v.reports[about], sender, now)]), about, now, timeout)
    case GossipUp(sender, ofMaster, about, now) =>
      if !Heeded(v, sender, ofMaster, about) then v
      else v.(reports := v.reports[about := Withdrawn(v.reports[about], sender, now, timeout)])
    case FailMessage(about) =>
      if about in v.reports && about != v.me && about !in v.fail
      then v.(pfail := v.pfail - {about}, fail := v.fail + {about}) else v
    case Flags(pfail, cleared) => v.(pfail := pfail, fail := v.fail - cleared)
    case Role(master, size) => v.(master := master, size := size)
    case Learn(node) => if node in v.reports then v else v.(reports := v.reports[node := []])
    case Forget(node, now) =>
      if node == v.me then v
      else v.(reports := map n | n in v.reports && n != node :: Withdrawn(v.reports[n], node, now, timeout))
  }

  /** Every list has distinct senders, all of them known nodes and none of them this node. */
  predicate ReportsInv(v: View) {
    forall n | n in v.reports :: Sound(v.reports[n], v.reports.Keys - {v.me})
  }

  predicate Sound(s: seq<Report>, nodes: set<NodeId>) {
    DistinctSenders(s) && Senders(s) <= nodes
  }

  lemma GossipDownKeeps(v: View, e: Event, timeout: int)
    requires ReportsInv(v) && Possible(v, e) && e.GossipDown?
    ensures ReportsInv(Step(v, e, timeout))
  {
    hide Recent, Senders, DistinctSenders, Added;
    if Heeded(v, e.sender, e.ofMaster, e.about) {
      var s := v.reports[e.about];
      assert Sound(s, v.reports.Keys - {v.me});
      AddedKeeps(s, e.sender, e.now);
      RecentKeeps(Added(s, e.sender, e.now), e.now, timeout);
      assert Step(v, e, timeout).reports.Keys == v.reports.Keys;
    }
  }

  lemma GossipUpKeeps(v: View, e: Event, timeout: int)
    requires ReportsInv(v) && Possible(v, e) && e.GossipUp?
    ensures ReportsInv(Step(v, e, timeout))
  {
    hide Senders, DistinctSenders, Withdrawn;
    if Heeded(v, e.sender, e.ofMaster, e.about) {
      assert Sound(v.reports[e.about], v.reports.Keys - {v.me});
      WithdrawnKeeps(v.reports[e.about], e.sender, e.now, timeout);
      assert Step(v, e, timeout).reports.Keys == v.reports.Keys;
    }
  }

  lemma ForgetKeeps(v: View, e: Event, timeout: int)
    requires ReportsInv(v) && Possible(v, e) && e.Forget?
    ensures ReportsInv(Step(v, e, timeout))
  {
    hide Senders, DistinctSenders, Withdrawn;
    var w := Step(v, e, timeout);
    forall n | n in w.reports ensures Sound(w.reports[n], w.reports.Keys - {w.me}) {
      assert Sound(v.reports[n], v.reports.Keys - {v.me});
      WithdrawnKeeps(v.reports[n], e.node, e.now, timeout);
      assert e.node != v.me ==> w.reports.Keys == v.reports.Keys - {e.node};
    }
  }

  lemma StepKeepsReports(v: View, e: Event, timeout: int)
    requires ReportsInv(v) && Possible(v, e)
    ensures ReportsInv(Step(v, e, timeout))
  {
    hide Recent, Senders, DistinctSenders, Added, Withdrawn;
    match e
    case GossipDown(_, _, _, _) => GossipDownKeeps(v, e, timeout);
    case GossipUp(_, _, _, _) => GossipUpKeeps(v, e, timeout);
    case Forget(_, _) => ForgetKeeps(v, e, timeout);
    case Learn(_) => NoReports();
    case _ =>
  }

  lemma NoReports()
    ensures DistinctSenders([]) && Senders([]) == {}
  {
  }

  /** The nodes that stand behind a failure: those with a recent report, and this node if it is a master. */
  function Accusers(v: View, about: NodeId): set<NodeId>
    requires about in v.reports
  {
    Senders(v.reports[about]) + if v.master then {v.me} else {}
  }

  /** No report is older than two node timeouts. */
  predicate AllRecent(s: seq<Report>, now: int, timeout: int) {
    forall i :: 0 <= i < |s| ==> now - s[i].time <= 2 * timeout
  }

  lemma MarkNeedsQuorum(v: View, e: Event, timeout: int, about: NodeId)
    requires ReportsInv(v) && Possible(v, e) && about in v.reports
    requires about !in v.fail && about in Step(v, e, timeout).fail && !e.FailMessage?
    ensures e.GossipDown? && e.ofMaster && about in v.pfail && about in Step(v, e, timeout).reports
    ensures |Accusers(Step(v, e, timeout), about)| >= Quorum(v.size)
    ensures AllRecent(Step(v, e, timeout).reports[about], e.now, timeout)
  {
    var w := Step(v, e, timeout);
    StepKeepsReports(v, e, timeout);
    SendersCount(w.reports[about]);
    assert v.me !in Senders(w.reports[about]);
    AddedKeeps(v.reports[about], e.sender, e.now);
    MarkedIsRecent(v, e, timeout, about);
  }

  lemma MarkedIsRecent(v: View, e: Event, timeout: int, about: NodeId)
    requires ReportsInv(v) && Possible(v, e) && e.GossipDown? && about == e.about
    requires Heeded(v, e.sender, e.ofMaster, about) && about in v.pfail && about !in v.fail
    ensures about in Step(v, e, timeout).reports && AllRecent(Step(v, e, timeout).reports[about], e.now, timeout)
  {
    hide Recent, Added;
    var s := Added(v.reports[about], e.sender, e.now);
    AddedKeeps(v.reports[about], e.sender, e.now);
    RecentKeeps(s, e.now, timeout);
    var t := Recent(s, e.now, timeout);
    forall i | 0 <= i < |t| ensures e.now - t[i].time <= 2 * timeout { assert t[i] in t; }
  }

  // ---------------------------------------------------------------------
  // Exactly when
  // ---------------------------------------------------------------------

  /** The report r is in the list about n after the event, told from the list before it. */
  predicate Reported(v: View, e: Event, timeout: int, n: NodeId, r: Report)
    requires n in v.reports
  {
    var had := r in v.reports[n];
    var young := (t: int) => t - r.time <= 2 * timeout;
    match e
    case GossipDown(sender, ofMaster, about, now) =>
      if n != about || n == v.me || sender !in v.reports || !ofMaster then had
      else
        && (r == Report(sender, now) || (had && r.sender != sender))
        && (n in v.pfail && n !in v.fail ==> young(now))
    case GossipUp(sender, ofMaster, about, now) =>
      if n != about || n == v.me || sender !in v.reports || !ofMaster then had
      else had && r.sender != sender && (sender in Senders(v.reports[n]) ==> young(now))
    case Forget(node, now) =>
      had && (node != v.me ==> r.sender != node && (node in Senders(v.reports[n]) ==> young(now)))
    case _ => had
  }

  lemma AddedHas(s: seq<Report>, sender: NodeId, now: int, r: Report)
    requires DistinctSenders(s)
    ensures r in Added(s, sender, now) <==> r == Report(sender, now) || (r in s && r.sender != sender)
  {
    var k, t := Find(s, sender), Added(s, sender, now);
    assert t[k] == Report(sender, now) && t[k] in t;
    if r in s && r.sender != sender {
      var i :| 0 <= i < |s| && s[i] == r;
      assert t[i] == r;
    }
    if r in t && r != Report(sender, now) {
      var i :| 0 <= i < |t| && t[i] == r;
      assert s[i] == r;
    }
  }

  lemma WithoutHas(s: seq<Report>, k: nat, r: Report)
    requires DistinctSenders(s) && k < |s|
    ensures r in s[..k] + s[k + 1..] <==> r in s && r.sender != s[k].sender
  {
    var t := s[..k] + s[k + 1..];
    assert forall i :: 0 <= i < |t| ==> t[i] == s[if i < k then i else i + 1];
    if r in s && r.sender != s[k].sender {
      var i :| 0 <= i < |s| && s[i] == r;
      assert t[if i < k then i else i - 1] == r;
    }
  }

  lemma WithdrawnHas(s: seq<Report>, sender: NodeId, now: int, timeout: int, r: Report)
    requires DistinctSenders(s)
    ensures r in Withdrawn(s, sender, now, timeout) <==>
            r in s && r.sender != sender && (sender in Senders(s) ==> now - r.time <= 2 * timeout)
  {
    hide Recent, DistinctSenders;
    var k := Find(s, sender);
    if k < |s| {
      assert s[k] in s;
      WithoutKeeps(s, k);
      WithoutHas(s, k, r);
      RecentKeeps(s[..k] + s[k + 1..], now, timeout);
    } else {
      assert sender !in Senders(s);
    }
  }

  /** The reports after an event are exactly these. */
  lemma ReportsAfter(v: View, e: Event, timeout: int, n: NodeId, r: Report)
    requires ReportsInv(v) && Possible(v, e) && n in v.reports && (e.Forget? && e.node == n ==> n == v.me)
    ensures var w := Step(v, e, timeout);
            n in w.reports && (r in w.reports[n] <==> Reported(v, e, timeout, n, r))
  {
    hide Recent, Senders, DistinctSenders, Added, Withdrawn;
    var s := v.reports[n];
    assert Sound(s, v.reports.Keys - {v.me});
    match e
    case GossipDown(sender, _, about, now) =>
      AddedHas(s, sender, now, r);
      AddedKeeps(s, sender, now);
      RecentKeeps(Added(s, sender, now), now, timeout);
    case GossipUp(sender, _, about, now) => WithdrawnHas(s, sender, now, timeout, r);
    case Forget(node, now) => WithdrawnHas(s, node, now, timeout, r);
    case _ =>
  }

  /** Those who, once the sender has spoken, accuse `about` and spoke no longer than two timeouts ago. */
  function AccusersAfter(v: View, e: Event, timeout: int): set<NodeId>
    requires e.GossipDown? && e.about in v.reports
  {
    (set r | r in v.reports[e.about] && r.sender != e.sender && e.now - r.time <= 2 * timeout :: r.sender)
    + (if 0 <= timeout then {e.sender} else {})
    + (if v.master then {v.me} else {})
  }

  /** This event makes `about` a failed node: a FAIL message, or gossip that completes a quorum. */
  predicate Fails(v: View, e: Event, timeout: int, about: NodeId) {
    && about in v.reports && about != v.me && about !in v.fail
    && (|| (e.FailMessage? && about == e.about)
        || (e.GossipDown? && about == e.about && e.ofMaster && e.sender in v.reports
            && about in v.pfail && |AccusersAfter(v, e, timeout)| > v.size / 2))
  }

  /** The reports counted: the new one and those of other senders, none older than two timeouts. */
  lemma CountedHas(s: seq<Report>, sender: NodeId, now: int, timeout: int, r: Report)
    requires DistinctSenders(s)
    ensures r in Recent(Added(s, sender, now), now, timeout) <==>
            (r == Report(sender, now) || (r in s && r.sender != sender)) && now - r.time <= 2 * timeout
  {
    hide Recent, Added, DistinctSenders;
    AddedKeeps(s, sender, now);
    AddedHas(s, sender, now, r);
    RecentKeeps(Added(s, sender, now), now, timeout);
  }

  lemma CountedSenders(s: seq<Report>, sender: NodeId, now: int, timeout: int)
    requires DistinctSenders(s)
    ensures Senders(Recent(Added(s, sender, now), now, timeout)) ==
            (set r | r in s && r.sender != sender && now - r.time <= 2 * timeout :: r.sender)
            + (if 0 <= timeout then {sender} else {})
  {
    hide Recent, Added, DistinctSenders;
    var recent := Recent(Added(s, sender, now), now, timeout);
    var young := set r | r in s && r.sender != sender && now - r.time <= 2 * timeout :: r.sender;
    var new' := if 0 <= timeout then {sender} else {};
    CountedHas(s, sender, now, timeout, Report(sender, now));
    forall x | x in Senders(recent) ensures x in young + new' {
      var r :| r in recent && r.sender == x;
      CountedHas(s, sender, now, timeout, r);
    }
    forall x | x in young ensures x in Senders(recent) {
      var r :| r in s && r.sender != sender && now - r.time <= 2 * timeout && r.sender == x;
      CountedHas(s, sender, now, timeout, r);
    }
  }

  lemma AccusersAre(v: View, e: Event, timeout: int)
    requires ReportsInv(v) && Possible(v, e) && e.GossipDown? && e.sender in v.reports && e.about in v.reports
    ensures var recent := Recent(Added(v.reports[e.about], e.sender, e.now), e.now, timeout);
            |recent| + (if v.master then 1 else 0) == |AccusersAfter(v, e, timeout)|
  {
    hide Recent, Added, DistinctSenders;
    var s := v.reports[e.about];
    assert Sound(s, v.reports.Keys - {v.me});
    var added := Added(s, e.sender, e.now);
    var recent := Recent(added, e.now, timeout);
    AddedKeeps(s, e.sender, e.now);
    RecentKeeps(added, e.now, timeout);
    SendersCount(recent);
    CountedSenders(s, e.sender, e.now, timeout);
    assert AccusersAfter(v, e, timeout) == Senders(recent) + (if v.master then {v.me} else {});
    assert v.me !in Senders(recent);
  }

  /**
   * What flags a node FAIL, exactly: a FAIL message about another node that is known, or gossip of a
   * master that completes a quorum of nodes that accuse a suspected node recently. The suspicion
   * ends with it, and nothing else but the event's own subject changes.
   */
  lemma FailedIff(v: View, e: Event, timeout: int, about: NodeId)
    requires ReportsInv(v) && Possible(v, e)
    ensures var w := Step(v, e, timeout);
      && (about in w.fail <==> Fails(v, e, timeout, about) || (about in v.fail && !(e.Flags? && about in e.cleared)))
      && (about in w.pfail <==> if e.Flags? then about in e.pfail else about in v.pfail && !Fails(v, e, timeout, about))
      && w.me == v.me && w.master == (if e.Role? then e.master else v.master)
      && w.size == (if e.Role? then e.size else v.size)
  {
    hide Recent, Added;
    if e.GossipDown? && Heeded(v, e.sender, e.ofMaster, e.about) { AccusersAre(v, e, timeout); }
  }

  /** A step of the node that flags `about` FAIL by itself, not told by a FAIL message. */
  predicate Marks(v: View, e: Event, w: View, about: NodeId) {
    about in v.reports && about !in v.fail && about in w.fail && !e.FailMessage?
  }

  /** It was suspected, and a quorum of distinct nodes stands behind reports that are all recent. */
  predicate QuorumBehind(v: View, e: Event, w: View, about: NodeId, timeout: int) {
    && e.GossipDown? && e.ofMaster && about in v.pfail && about in w.reports
    && |Accusers(w, about)| >= Quorum(v.size) && AllRecent(w.reports[about], e.now, timeout)
  }

  predicate MarksNeedQuorum(v: View, e: Event, w: View, timeout: int) {
    forall about | about in v.reports && Marks(v, e, w, about) :: QuorumBehind(v, e, w, about, timeout)
  }

  predicate Next(v: View, e: Event, w: View, timeout: int) {
    Possible(v, e) && w == Step(v, e, timeout)
  }

  predicate IsRun(trace: seq<View>, events: seq<Event>, timeout: int) {
    && |trace| == |events| + 1
    && forall k | 0 <= k < |events| :: Next(trace[k], events[k], trace[k + 1], timeout)
  }

  /**
   * Over every run of events, reports come from distinct known nodes, and a node is
   * flagged FAIL without a FAIL message only when it was suspected and a quorum of
   * distinct nodes, counted with this one if it is a master, reported it recently.
   */
  lemma {:induction false} FailNeedsQuorum(trace: seq<View>, events: seq<Event>, timeout: int, i: nat)
    requires IsRun(trace, events, timeout) && ReportsInv(trace[0]) && i < |trace|
    ensures ReportsInv(trace[i])
    ensures i > 0 ==> MarksNeedQuorum(trace[i - 1], events[i - 1], trace[i], timeout)
  {
    hide Step, Possible;
    if i > 0 {
      FailNeedsQuorum(trace, events, timeout, i - 1);
      var v, e, w := trace[i - 1], events[i - 1], trace[i];
      assert Next(v, e, w, timeout);
      StepKeepsReports(v, e, timeout);
      forall about | about in v.reports && Marks(v, e, w, about) ensures QuorumBehind(v, e, w, about, timeout) {
        MarkNeedsQuorum(v, e, timeout, about);
      }
    }
  }
}
