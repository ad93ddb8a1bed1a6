/**
 * The background jobs of one type: any number of producers and one worker share a
 * queue and a counter under a lock, and threads may wait for the next job to be done.
 *
 * One step is one access to the shared state; steps of all threads interleave freely.
 */
module Bio {
  type Job = nat

  /** A node of the queue: its identity, which no other node ever has, and the job it holds. */
  datatype Entry = Entry(node: nat, job: Job)

  /** Who holds the lock; a producer's progress in its critical section is part of it. */
  datatype Owner = Free | Worker | Creator(job: Job, added: bool, counted: bool)

  /** Where the worker is, and the node it has taken. Looking, Holding, Deleting and Counting are under the lock. */
  datatype Phase =
    | Sleeping
    | Looking
    | Holding(ln: Entry)
    | Running(ln: Entry)
    | Finished(ln: Entry)
    | Told(ln: Entry)
    | Deleting(ln: Entry)
    | Counting

  datatype State = State(
    jobs: seq<Entry>,        // bio_jobs
    pending: int,            // bio_pending
    lock: Owner,             // bio_mutex
    phase: Phase,
    waiting: set<nat>,       // calls of bioWaitStepOfType blocked on bio_step_cond
    created: seq<Entry>,     // history: the nodes put in the queue, in order
    done: seq<Entry>)        // history: the nodes whose jobs were run, in order

  datatype Action =
    | Begin(job: Job) | AddNode | Increment | Release
    | Wake | Look | Unlock | RunJob | Broadcast | LockAgain | DeleteNode | Decrement
    | WaitStep(id: nat)

  predicate Enabled(s: State, a: Action) {
    match a
    case Begin(_) => s.lock == Free
    case AddNode => s.lock.Creator? && !s.lock.added
    case Increment => s.lock.Creator? && s.lock.added && !s.lock.counted
    case Release => s.lock.Creator? && s.lock.counted
    case Wake => s.phase == Sleeping && s.lock == Free
    case Look => s.phase == Looking
    case Unlock => s.phase.Holding?
    case RunJob => s.phase.Running?
    case Broadcast => s.phase.Finished?
    case LockAgain => s.phase.Told? && s.lock == Free
    case DeleteNode => s.phase.Deleting?
    case Decrement => s.phase == Counting
    case WaitStep(id) => s.lock == Free && id !in s.waiting
  }

  /** listDelNode: the node with the given identity goes, wherever it is. */
  function Without(jobs: seq<Entry>, node: nat): seq<Entry> {
    if jobs == [] then []
    else if jobs[0].node == node then jobs[1..]
    else [jobs[0]] + Without(jobs[1..], node)
  }

  function Do(s: State, a: Action): State
    requires Enabled(s, a)
  {
    match a
    case Begin(job) => s.(lock := Creator(job, false, false))
    case AddNode =>
      var entry := Entry(|s.created|, s.lock.job);
      s.(jobs := s.jobs + [entry], created := s.created + [entry], lock := s.lock.(added := true))
    case Increment => s.(pending := s.pending + 1, lock := s.lock.(counted := true))
    case Release => s.(lock := Free)
    case Wake => s.(lock := Worker, phase := Looking)
    case Look => if s.jobs == [] then s.(lock := Free, phase := Sleeping) else s.(phase := Holding(s.jobs[0]))
    case Unlock => s.(lock := Free, phase := Running(s.phase.ln))
    case RunJob => s.(phase := Finished(s.phase.ln), done := s.done + [s.phase.ln])
    case Broadcast => s.(phase := Told(s.phase.ln), waiting := {})
    case LockAgain => s.(lock := Worker, phase := Deleting(s.phase.ln))
    case DeleteNode => s.(jobs := Without(s.jobs, s.phase.ln.node), phase := Counting)
    case Decrement => s.(pending := s.pending - 1, phase := Looking)
    case WaitStep(id) => if s.pending == 0 then s else s.(waiting := s.waiting + {id})
  }

  predicate Next(s: State, a: Action, t: State) {
    Enabled(s, a) && t == Do(s, a)
  }

  /** After bioInit. */
  predicate Initial(s: State) {
    s == State([], 0, Free, Sleeping, {}, [], [])
  }

  ghost predicate IsRun(trace: seq<State>, acts: seq<Action>) {
    && |trace| == |acts| + 1 && Initial(trace[0])
    && forall i :: 0 <= i < |acts| ==> Next(trace[i], acts[i], trace[i + 1])
  }

  // ---------------------------------------------------------------------
  // What every step keeps
  // ---------------------------------------------------------------------

  predicate WorkerLocks(p: Phase) {
    p == Looking || p.Holding? || p.Deleting? || p == Counting
  }

  /** The job at the head of the queue has been run but not yet removed. */
  predicate HeadIsDone(p: Phase) {
    p.Finished? || p.Told? || p.Deleting?
  }

  predicate LockInv(s: State) {
    && (s.lock == Worker <==> WorkerLocks(s.phase))
    && (s.lock.Creator? && s.lock.counted ==> s.lock.added)
  }

  predicate HeadInv(s: State) {
    && (s.phase.Holding? || s.phase.Running? || HeadIsDone(s.phase) ==> s.jobs != [] && s.jobs[0] == s.phase.ln)
    && (HeadIsDone(s.phase) ==> s.done != [] && s.phase.ln == s.done[|s.done| - 1])
  }

  /** The counter is the length of the queue, but between the two updates of a critical section. */
  predicate CountInv(s: State) {
    s.pending == |s.jobs|
      - (if s.lock.Creator? && s.lock.added && !s.lock.counted then 1 else 0)
      + (if s.phase == Counting then 1 else 0)
  }

  /** Every job created was run, once and in order, or is still in the queue to be run. */
  predicate OrderInv(s: State) {
    s.created == s.done + (if HeadIsDone(s.phase) && s.jobs != [] then s.jobs[1..] else s.jobs)
  }

  /** No two nodes have the same identity. */
  predicate NodesInv(s: State) {
    forall i :: 0 <= i < |s.created| ==> s.created[i].node == i
  }

  predicate Inv(s: State) {
    LockInv(s) && HeadInv(s) && CountInv(s) && OrderInv(s) && NodesInv(s)
  }

  lemma StepKeepsCount(s: State, a: Action, t: State)
    requires Next(s, a, t) && LockInv(s) && HeadInv(s) && CountInv(s)
    ensures LockInv(t) && HeadInv(t) && CountInv(t)
  {
  }

  lemma StepKeepsOrder(s: State, a: Action, t: State)
    requires Next(s, a, t) && LockInv(s) && HeadInv(s) && OrderInv(s)
    ensures OrderInv(t)
  {
    if a == AddNode {
      var entry := Entry(|s.created|, s.lock.job);
      if HeadIsDone(s.phase) {
        assert (s.jobs + [entry])[1..] == s.jobs[1..] + [entry];
        assert s.done + (s.jobs[1..] + [entry]) == s.done + s.jobs[1..] + [entry];
      } else {
        assert s.done + (s.jobs + [entry]) == s.done + s.jobs + [entry];
      }
    } else if a == RunJob {
      assert s.jobs == [s.jobs[0]] + s.jobs[1..];
      assert s.done + ([s.jobs[0]] + s.jobs[1..]) == s.done + [s.jobs[0]] + s.jobs[1..];
    }
  }

  lemma {:induction false} RunKeepsInv(trace: seq<State>, acts: seq<Action>, i: nat)
    requires IsRun(trace, acts) && i < |trace|
    ensures Inv(trace[i])
  {
    hide Next, LockInv, HeadInv, CountInv, OrderInv, NodesInv;
    if i == 0 {
      InitialHasInv(trace[0]);
    } else {
      RunKeepsInv(trace, acts, i - 1);
      assert Next(trace[i - 1], acts[i - 1], trace[i]);
      StepKeepsCount(trace[i - 1], acts[i - 1], trace[i]);
      StepKeepsOrder(trace[i - 1], acts[i - 1], trace[i]);
      StepKeepsNodes(trace[i - 1], acts[i - 1], trace[i]);
    }
  }

  lemma StepKeepsNodes(s: State, a: Action, t: State)
    requires Next(s, a, t) && NodesInv(s)
    ensures NodesInv(t)
  {
  }

  lemma InitialHasInv(s: State)
    requires Initial(s)
    ensures Inv(s)
  {
  }

  /**
   * In every reachable state the jobs run are the first ones created, in order and each
   * once; while the lock is free the counter is the length of the queue, and when it
   * then reads zero every job created so far has been run.
   */
  lemma JobsRunOnceInOrder(trace: seq<State>, acts: seq<Action>, i: nat)
    requires IsRun(trace, acts) && i < |trace|
    ensures var s := trace[i];
      && s.done <= s.created
      && (forall j, k :: 0 <= j < k < |s.done| ==> s.done[j].node != s.done[k].node)
      && (s.lock == Free ==> s.pending == |s.jobs|)
      && (s.lock == Free && s.pending == 0 ==> s.done == s.created)
  {
    RunKeepsInv(trace, acts, i);
  }

  /**
   * The node the worker removes, found by its identity, is the first of the queue and
   * the one whose job it ran last; every other node, even of an equal job, stays.
   */
  lemma WorkerRemovesItsJob(trace: seq<State>, acts: seq<Action>, i: nat)
    requires IsRun(trace, acts) && i < |acts| && acts[i] == DeleteNode
    ensures var s, t := trace[i], trace[i + 1];
      && s.phase.Deleting? && s.done != [] && s.done[|s.done| - 1] == s.phase.ln
      && s.jobs == [s.phase.ln] + t.jobs
      && forall k :: 0 <= k < |t.jobs| ==> t.jobs[k].node != s.phase.ln.node
  {
    RunKeepsInv(trace, acts, i);
    var s, t := trace[i], trace[i + 1];
    assert Next(s, acts[i], t);
    var n := |s.done|;
    assert s.created[n - 1] == s.phase.ln;
    forall k | 0 <= k < |t.jobs| ensures t.jobs[k].node != s.phase.ln.node {
      assert t.jobs[k] == s.created[n + k];
    }
  }

  // ---------------------------------------------------------------------
  // Waiting for a step
  // ---------------------------------------------------------------------

  /** How many jobs in the queue still have their broadcast to come. */
  function ToCome(s: State): int {
    |s.jobs| - if s.phase.Told? || s.phase.Deleting? then 1 else 0
  }

  /** The worker has run everything and sleeps. */
  predicate Idle(s: State) {
    s.phase == Sleeping && s.jobs == []
  }

  lemma StepOfToCome(s: State, a: Action, t: State)
    requires Next(s, a, t) && Inv(s)
    ensures a != AddNode && a != Broadcast ==> ToCome(t) == ToCome(s) && s.waiting <= t.waiting
    ensures a == AddNode ==> ToCome(t) == ToCome(s) + 1 && t.waiting == s.waiting
    ensures a == Broadcast ==> ToCome(s) > 0
  {
  }

  predicate NothingCreated(acts: seq<Action>, lo: nat, hi: nat)
    requires hi <= |acts|
  {
    forall k :: lo <= k < hi ==> acts[k] != AddNode
  }

  /** The same call does not wait again. */
  predicate WaitsOnce(acts: seq<Action>, lo: nat, hi: nat, id: nat)
    requires hi <= |acts|
  {
    forall k :: lo <= k < hi ==> acts[k] != WaitStep(id)
  }

  lemma {:induction false} WaitIsLost(trace: seq<State>, acts: seq<Action>, i: nat, k: nat, id: nat)
    requires IsRun(trace, acts) && i <= k <= |acts| && NothingCreated(acts, i, k)
    requires id in trace[i].waiting && ToCome(trace[i]) == 0
    ensures id in trace[k].waiting && ToCome(trace[k]) == 0
    decreases k
  {
    hide Next, ToCome, Inv;
    if i < k {
      WaitIsLost(trace, acts, i, k - 1, id);
      RunKeepsInv(trace, acts, k - 1);
      assert Next(trace[k - 1], acts[k - 1], trace[k]);
      StepOfToCome(trace[k - 1], acts[k - 1], trace[k]);
    }
  }

  lemma {:induction false} WaitIsServed(trace: seq<State>, acts: seq<Action>, i: nat, k: nat, id: nat)
    requires IsRun(trace, acts) && i <= k <= |acts| && WaitsOnce(acts, i, k, id)
    requires ToCome(trace[i]) > 0
    ensures id in trace[k].waiting ==> ToCome(trace[k]) > 0
    decreases k
  {
    hide ToCome, Inv;
    if i < k {
      WaitIsServed(trace, acts, i, k - 1, id);
      RunKeepsInv(trace, acts, k - 1);
      assert Next(trace[k - 1], acts[k - 1], trace[k]);
      StepOfToCome(trace[k - 1], acts[k - 1], trace[k]);
    }
  }

  /**
   * bioWaitStepOfType promises to block until the next job was processed. The worker
   * broadcasts before it takes the lock to remove the job, so a call that comes between
   * the two can miss the last broadcast: without new jobs, a call that blocks is over
   * when the worker has run out of work exactly if, when it blocked, some job in the
   * queue still had its broadcast to come.
   */
  lemma WaitEndsIff(trace: seq<State>, acts: seq<Action>, i: nat, k: nat, id: nat)
    requires IsRun(trace, acts) && i < k <= |acts|
    requires acts[i] == WaitStep(id) && trace[i].pending != 0
    requires NothingCreated(acts, i, k) && WaitsOnce(acts, i + 1, k, id) && Idle(trace[k])
    ensures id !in trace[k].waiting <==> ToCome(trace[i]) > 0
  {
    assert Next(trace[i], acts[i], trace[i + 1]);
    RunKeepsInv(trace, acts, i);
    StepOfToCome(trace[i], acts[i], trace[i + 1]);
    assert id in trace[i + 1].waiting && ToCome(trace[i]) >= 0;
    if ToCome(trace[i]) > 0 {
      WaitIsServed(trace, acts, i + 1, k, id);
    } else {
      WaitIsLost(trace, acts, i + 1, k, id);
    }
  }

  function LostAction(i: int): Action {
    if i == 0 then Begin(7)
    else if i == 1 then AddNode
    else if i == 2 then Increment
    else if i == 3 then Release
    else if i == 4 then Wake
    else if i == 5 then Look
    else if i == 6 then Unlock
    else if i == 7 then RunJob
    else if i == 8 then Broadcast
    else if i == 9 then WaitStep(1)
    else if i == 10 then LockAgain
    else if i == 11 then DeleteNode
    else if i == 12 then Decrement
    else Look
  }

  const LOST := Entry(0, 7)

  function LostState(i: int): State {
    if i == 0 then State([], 0, Free, Sleeping, {}, [], [])
    else if i == 1 then State([], 0, Creator(7, false, false), Sleeping, {}, [], [])
    else if i == 2 then State([LOST], 0, Creator(7, true, false), Sleeping, {}, [LOST], [])
    else if i == 3 then State([LOST], 1, Creator(7, true, true), Sleeping, {}, [LOST], [])
    else if i == 4 then State([LOST], 1, Free, Sleeping, {}, [LOST], [])
    else if i == 5 then State([LOST], 1, Worker, Looking, {}, [LOST], [])
    else if i == 6 then State([LOST], 1, Worker, Holding(LOST), {}, [LOST], [])
    else if i == 7 then State([LOST], 1, Free, Running(LOST), {}, [LOST], [])
    else if i == 8 then State([LOST], 1, Free, Finished(LOST), {}, [LOST], [LOST])
    else if i == 9 then State([LOST], 1, Free, Told(LOST), {}, [LOST], [LOST])
    else if i == 10 then State([LOST], 1, Free, Told(LOST), {1}, [LOST], [LOST])
    else if i == 11 then State([LOST], 1, Worker, Deleting(LOST), {1}, [LOST], [LOST])
    else if i == 12 then State([], 1, Worker, Counting, {1}, [LOST], [LOST])
    else if i == 13 then State([], 0, Worker, Looking, {1}, [LOST], [LOST])
    else State([], 0, Free, Sleeping, {1}, [LOST], [LOST])
  }

  lemma LostStep(i: int)
    requires 0 <= i < 14
    ensures Next(LostState(i), LostAction(i), LostState(i + 1))
  {
  }

  ghost predicate LosesWait(trace: seq<State>, acts: seq<Action>) {
    && IsRun(trace, acts)
    && var s := trace[|acts|]; Idle(s) && s.done == s.created && s.pending == 0 && s.waiting == {1}
  }

  /** A run in which all jobs are done, the counter is zero, and a call still waits. */
  lemma WaitCanBeLost()
    ensures exists trace, acts :: LosesWait(trace, acts)
  {
    var trace, acts := seq(15, i => LostState(i)), seq(14, i => LostAction(i));
    forall i | 0 <= i < 14 ensures Next(trace[i], acts[i], trace[i + 1]) {
      LostStep(i);
    }
    assert LosesWait(trace, acts);
  }
}
