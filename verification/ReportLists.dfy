/**
 * The fail_reports list of a node: an adlist of reports, renewed, cleaned and shortened
 * through an iterator that saves the next node before the current one is deleted.
 */
module ReportLists {
  import opened Prelude
  import opened Adlist
  import opened FailureReports

  /** The nodes hold these reports. */
  ghost predicate Hold(nodes: seq<ListNode<Report>>, reports: seq<Report>)
    reads nodes`value
  {
    |nodes| == |reports| && forall i :: 0 <= i < |nodes| ==> nodes[i].value == reports[i]
  }

  lemma DropFirst<X>(kept: seq<X>, rest: seq<X>)
    requires rest != []
    ensures Removed(kept + rest, |kept|) == kept + rest[1..]
  {
  }

  /**
   * The loop of clusterNodeCleanupFailureReports has looked at the first `seen` of the nodes
   * `all` and kept `kept`; `node` is next, and the iterator has gone past it already.
   */
  ghost predicate Scanning(l: List<Report>, iter: Iter<Report>, node: ListNode?<Report>,
                           all: seq<ListNode<Report>>, seen: nat, kept: seq<ListNode<Report>>)
    reads l, l.nodes, iter, all
  {
    && l.Valid() && iter.forward && seen <= |all| && l.nodes == kept + all[seen..]
    && node == NodeAt(l.nodes, |kept|) && (node != null ==> iter.At(l, |kept| + 1))
    && forall i :: 0 <= i < |kept| ==> kept[i] in all
  }

  lemma ScanStarts(l: List<Report>, iter: Iter<Report>, node: ListNode?<Report>)
    requires l.Valid() && iter.forward && node == NodeAt(l.nodes, 0) && (node != null ==> iter.At(l, 1))
    ensures Scanning(l, iter, node, l.nodes, 0, [])
  {
  }

  lemma ScanEnds(l: List<Report>, iter: Iter<Report>, all: seq<ListNode<Report>>, seen: nat,
                 kept: seq<ListNode<Report>>)
    requires Scanning(l, iter, null, all, seen, kept)
    ensures l.Valid() && seen == |all| && l.nodes == kept
    ensures forall i :: 0 <= i < |l.nodes| ==> l.nodes[i] in all
  {
  }

  /** The reports kept once one more has been looked at. */
  lemma HoldMore(all: seq<ListNode<Report>>, kept: seq<ListNode<Report>>, reports: seq<Report>, seen: nat,
                 now: int, timeout: int)
    requires Hold(all, reports) && seen < |all| && Hold(kept, Recent(reports[..seen], now, timeout))
    ensures Hold(kept + (if Stale(all[seen].value, now, timeout) then [] else [all[seen]]),
                 Recent(reports[..seen + 1], now, timeout))
  {
    hide Recent;
    ScanStep(reports, seen, now, timeout);
  }

  /** One turn of the loop: the node goes if its report is stale, and the iterator moves on. */
  method CleanupTurn(l: List<Report>, iter: Iter<Report>, current: ListNode<Report>, now: int, timeout: int,
                     ghost all: seq<ListNode<Report>>, ghost seen: nat, ghost kept: seq<ListNode<Report>>)
    returns (node: ListNode?<Report>)
    requires Scanning(l, iter, current, all, seen, kept)
    modifies l, iter, all`prev, all`next
    ensures seen < |all| && current == all[seen]
    ensures Scanning(l, iter, node, all, seen + 1, kept + if Stale(current.value, now, timeout) then [] else [current])
  {
    hide Removed, List.Valid, NodeAt, Linked, Distinct;
    ghost var k := |kept|;
    NodeAtEnds(l.nodes, k);
    assert l.nodes[k] == all[seen];
    if Stale(current.value, now, timeout) {
      DropFirst(kept, all[seen..]);
      DelReturned(l, iter, current, k);
      assert l.nodes == kept + all[seen + 1..];
      node := iter.Next(l, k);
    } else {
      assert l.nodes == kept + [current] + all[seen + 1..];
      node := iter.Next(l, k + 1);
    }
  }

  /** The loop of clusterNodeCleanupFailureReports, for a list that holds `reports`. */
  method CleanupLoop(l: List<Report>, now: int, timeout: int, ghost reports: seq<Report>)
    requires l.Valid() && Hold(l.nodes, reports)
    modifies l, l.nodes`prev, l.nodes`next
    ensures l.Valid() && Hold(l.nodes, Recent(reports, now, timeout))
    ensures forall i :: 0 <= i < |l.nodes| ==> l.nodes[i] in old(l.nodes)
  {
    hide Recent, List.Valid, NodeAt, Linked, Distinct, Scanning, Hold;
    ghost var all, seen: nat, kept: seq<ListNode<Report>> := l.nodes, 0, [];
    var iter := new Iter(l, true);
    var node := iter.Next(l, 0);
    HoldNothing(reports, now, timeout);
    HoldAsMany(all, reports);
    ScanStarts(l, iter, node);
    while node != null
      invariant fresh(iter) && Scanning(l, iter, node, all, seen, kept)
      invariant Hold(all, reports) && seen <= |all| == |reports|
      invariant Hold(kept, Recent(reports[..seen], now, timeout))
      decreases |all| - seen
    {
      ghost var before := kept;
      kept := kept + if Stale(node.value, now, timeout) then [] else [node];
      node := CleanupTurn(l, iter, node, now, timeout, all, seen, before);
      HoldMore(all, before, reports, seen, now, timeout);
      seen := seen + 1;
    }
    ScanEnds(l, iter, all, seen, kept);
    assert reports[..seen] == reports;
  }

  lemma HoldNothing(reports: seq<Report>, now: int, timeout: int)
    ensures Hold([], Recent(reports[..0], now, timeout))
  {
  }

  lemma HoldAsMany(nodes: seq<ListNode<Report>>, reports: seq<Report>)
    requires Hold(nodes, reports)
    ensures |nodes| == |reports|
  {
  }

  lemma HoldRemoved(nodes: seq<ListNode<Report>>, reports: seq<Report>, k: nat)
    requires Hold(nodes, reports) && k < |nodes|
    ensures Hold(Removed(nodes, k), reports[..k] + reports[k + 1..])
  {
    var r := Removed(nodes, k);
    assert forall i :: 0 <= i < |r| ==> r[i] == if i < k then nodes[i] else nodes[i + 1];
  }

  /** clusterNodeCleanupFailureReports: reports are deleted while they are iterated. */
  method Cleanup(l: List<Report>, now: int, timeout: int)
    requires l.Valid()
    modifies l, l.nodes`prev, l.nodes`next
    ensures l.Valid() && l.Contents() == Recent(old(l.Contents()), now, timeout)
    ensures forall i :: 0 <= i < |l.nodes| ==> l.nodes[i] in old(l.nodes)
  {
    hide Recent, List.Valid, NodeAt, Linked, Distinct;
    CleanupLoop(l, now, timeout, l.Contents());
  }

  /** The loop that the other two operations start with: the first node of the sender, or null. */
  method FindSender(l: List<Report>, sender: NodeId) returns (node: ListNode?<Report>, ghost k: nat)
    requires l.Valid()
    ensures k == Find(l.Contents(), sender) && node == NodeAt(l.nodes, k)
  {
    hide List.Valid, NodeAt, Linked, Distinct, Find;
    ghost var reports := l.Contents();
    k := 0;
    var iter := new Iter(l, true);
    node := iter.Next(l, 0);
    while node != null
      invariant fresh(iter) && iter.forward && l.Valid() && k <= |l.nodes|
      invariant node == NodeAt(l.nodes, k) && (node != null ==> iter.At(l, k + 1))
      invariant forall j :: 0 <= j < k ==> reports[j].sender != sender
      decreases |l.nodes| - k
    {
      NodeAtEnds(l.nodes, k);
      if node.value.sender == sender {
        FindIs(reports, sender, k);
        return;
      }
      k := k + 1;
      node := iter.Next(l, k);
    }
    NodeAtEnds(l.nodes, k);
    FindIs(reports, sender, k);
  }

  /** clusterNodeAddFailureReport. */
  method Add(l: List<Report>, sender: NodeId, now: int) returns (created: bool)
    requires l.Valid()
    modifies l, l.nodes
    ensures l.Valid() && l.Contents() == Added(old(l.Contents()), sender, now)
    ensures created <==> forall r :: r in old(l.Contents()) ==> r.sender != sender
    ensures created ==> |l.nodes| == |old(l.nodes)| + 1 && l.nodes[..|old(l.nodes)|] == old(l.nodes)
    ensures !created ==> l.nodes == old(l.nodes)
  {
    ghost var reports := l.Contents();
    var node, k := FindSender(l, sender);
    NodeAtEnds(l.nodes, k);
    if node != null {
      Renew(l, node, Report(sender, now), k);
      assert reports[k] in reports;
      return false;
    }
    l.AddNodeTail(Report(sender, now));
    return true;
  }

  /** The report of one node is replaced; the links stay. */
  method Renew(l: List<Report>, node: ListNode<Report>, r: Report, ghost k: nat)
    requires l.Valid() && k < |l.nodes| && node == l.nodes[k]
    modifies node`value
    ensures l.Valid() && l.Contents() == old(l.Contents())[k := r]
  {
    node.value := r;
  }

  /** clusterNodeDelFailureReport. */
  method Del(l: List<Report>, sender: NodeId, now: int, timeout: int) returns (found: bool)
    requires l.Valid()
    modifies l, l.nodes`prev, l.nodes`next
    ensures l.Valid() && l.Contents() == Withdrawn(old(l.Contents()), sender, now, timeout)
    ensures found <==> exists r :: r in old(l.Contents()) && r.sender == sender
    ensures forall i :: 0 <= i < |l.nodes| ==> l.nodes[i] in old(l.nodes)
  {
    hide Recent, List.Valid, NodeAt, Linked, Distinct, Removed, Hold;
    ghost var reports := l.Contents();
    var node, k := FindSender(l, sender);
    NodeAtEnds(l.nodes, k);
    if node == null { return false; }
    assert reports[k] in reports;
    HoldContents(l);
    DelFound(l, node, now, timeout, reports, k);
    HeldIsContents(l, Recent(reports[..k] + reports[k + 1..], now, timeout));
    return true;
  }

  /** The end of clusterNodeDelFailureReport, for a list that holds `reports`. */
  method DelFound(l: List<Report>, node: ListNode<Report>, now: int, timeout: int,
                  ghost reports: seq<Report>, ghost k: nat)
    requires l.Valid() && Hold(l.nodes, reports) && k < |l.nodes| == |reports| && node == l.nodes[k]
    modifies l, l.nodes`prev, l.nodes`next
    ensures l.Valid() && Hold(l.nodes, Recent(reports[..k] + reports[k + 1..], now, timeout))
    ensures forall i :: 0 <= i < |l.nodes| ==> l.nodes[i] in old(l.nodes)
  {
    hide Recent, List.Valid, NodeAt, Linked, Distinct, Removed, Hold;
    HoldRemoved(l.nodes, reports, k);
    RemovedIn(l.nodes, k);
    l.DelNode(node, k);
    CleanupLoop(l, now, timeout, reports[..k] + reports[k + 1..]);
  }

  lemma RemovedIn<X>(s: seq<X>, k: nat)
    requires k < |s|
    ensures forall i :: 0 <= i < |Removed(s, k)| ==> Removed(s, k)[i] in s
  {
  }

  lemma HoldContents(l: List<Report>)
    ensures Hold(l.nodes, l.Contents())
  {
  }

  lemma HeldIsContents(l: List<Report>, reports: seq<Report>)
    requires Hold(l.nodes, reports)
    ensures l.Contents() == reports
  {
  }
}
