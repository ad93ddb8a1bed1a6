/**
 * The background rewrite of the append only file as a protocol between the server
 * and its child: commands are fed while the child dumps a snapshot, differences go
 * down a pipe in pieces of any size, the child asks the server to stop sending,
 * the server acknowledges, and the finished file replaces the log.
 *
 * One step is one handler of the server (which runs them one at a time) or one
 * action of the child. System calls may move any number of bytes or fail. The
 * append only file is enabled throughout.
 */
module AofProtocol {
  // ---------------------------------------------------------------------
  // What is fed
  // ---------------------------------------------------------------------

  /** A piece of the log: a SELECT, or a command issued in a database. */
  datatype Entry = Select(db: nat, text: string) | Issued(db: nat, text: string)

  function Bytes(entries: seq<Entry>): string {
    if entries == [] then "" else Bytes(entries[..|entries| - 1]) + entries[|entries| - 1].text
  }

  lemma BytesOfPair(entries: seq<Entry>, a: Entry, b: Entry)
    ensures Bytes(entries + [a, b]) == Bytes(entries) + (a.text + b.text)
  {
    assert entries + [a, b] == (entries + [a]) + [b];
    BytesOfOne(entries, a);
    BytesOfOne(entries + [a], b);
  }

  lemma BytesOfOne(entries: seq<Entry>, a: Entry)
    ensures Bytes(entries + [a]) == Bytes(entries) + a.text
  {
    assert (entries + [a])[..|entries|] == entries;
  }

  /**
   * The database selected after the entries, or None when some command would run in
   * a database other than the one it was issued in. No database is called -1.
   */
  datatype Route = Lost | Selected(db: int)

  function Follow(entries: seq<Entry>, start: int): Route {
    if entries == [] then Selected(start)
    else
      var before := Follow(entries[..|entries| - 1], start);
      var e := entries[|entries| - 1];
      if before.Lost? then Lost
      else if e.Select? then Selected(e.db)
      else if e.db == before.db then before else Lost
  }

  lemma FollowOne(entries: seq<Entry>, e: Entry, start: int)
    ensures Follow(entries + [e], start) ==
      var before := Follow(entries, start);
      if before.Lost? then Lost
      else if e.Select? then Selected(e.db)
      else if e.db == before.db then before else Lost
  {
    assert (entries + [e])[..|entries|] == entries;
  }

  /** Entries that are right when no database is selected before them are right after any log. */
  lemma {:induction false} RightAnywhere(entries: seq<Entry>, start: int)
    requires Follow(entries, -1) != Lost
    ensures Follow(entries, start) != Lost
    ensures Follow(entries, -1) == Selected(-1) || Follow(entries, start) == Follow(entries, -1)
  {
    if entries != [] { RightAnywhere(entries[..|entries| - 1], start); }
  }

  // ---------------------------------------------------------------------
  // The server, the child and the pipes between them
  // ---------------------------------------------------------------------

  datatype Phase = Idle | Dumping | Asked | Acked | Exited(ok: bool)

  datatype State = State(
    file: string,            // the append only file
    aofBuf: string,          // server.aof_buf
    selected: int,           // server.aof_selected_db
    rewriteBuf: string,      // what the rewrite block buffer holds
    stop: bool,              // server.aof_stop_sending_diff
    data: string,            // bytes in the pipe to the child
    ask: bool,               // a '!' on its way to the server
    ack: bool,               // a '!' on its way to the child
    phase: Phase,            // the child
    childDiff: string,       // server.aof_child_diff, in the child
    tmp: string,             // the temporary file, once the child has written it
    snapshot: string,        // what the child dumps: the data at the time of the fork
    base: string,            // history: the snapshot the append only file starts with
    since: seq<Entry>,       // history: what was fed after that snapshot was taken
    forked: seq<Entry>)      // history: what was fed since the last fork

  datatype Action =
    | Feed(db: nat, select: string, text: string)
    | Flush(n: nat)
    | Fork(snapshot: string)
    | SendDiff(n: nat)
    | ReadDiff(n: nat)
    | AskToStop
    | Acknowledge(sent: bool)
    | ReceiveAck
    | FinishFile
    | ChildFails
    | Done(ok: bool)

  predicate Running(p: Phase) {
    p == Dumping || p == Asked || p == Acked
  }

  predicate Enabled(s: State, a: Action) {
    match a
    case Feed(_, _, _) => true
    case Flush(n) => n <= |s.aofBuf|
    case Fork(_) => s.phase == Idle
    case SendDiff(n) => s.phase != Idle && !s.stop && n <= |s.rewriteBuf|
    case ReadDiff(n) => s.phase == Dumping && n <= |s.data|
    case AskToStop => s.phase == Dumping
    case Acknowledge(_) => s.ask
    case ReceiveAck => s.phase == Asked && s.ack
    case FinishFile => s.phase == Acked
    case ChildFails => Running(s.phase)
    case Done(_) => s.phase.Exited?
  }

  /** What feedAppendOnlyFile adds to the log for one command. */
  function Entries(s: State, a: Action): seq<Entry> {
    if !a.Feed? then []
    else if a.db != s.selected then [Select(a.db, a.select), Issued(a.db, a.text)]
    else [Issued(a.db, a.text)]
  }

  function FeedBytes(s: State, a: Action): string {
    if !a.Feed? then "" else if a.db != s.selected then a.select + a.text else a.text
  }

  function Do(s: State, a: Action): State
    requires Enabled(s, a)
  {
    match a
    case Feed(db, _, _) =>
      var bytes := FeedBytes(s, a);
      s.(aofBuf := s.aofBuf + bytes, selected := db,
         rewriteBuf := if s.phase == Idle then s.rewriteBuf else s.rewriteBuf + bytes,
         since := s.since + Entries(s, a), forked := s.forked + Entries(s, a))
    case Flush(n) => s.(file := s.file + s.aofBuf[..n], aofBuf := s.aofBuf[n..])
    case Fork(snapshot) =>
      s.(phase := Dumping, snapshot := snapshot, childDiff := "", tmp := "", data := "", ask := false, ack := false,
         stop := false, selected := -1, forked := [])
    case SendDiff(n) => s.(data := s.data + s.rewriteBuf[..n], rewriteBuf := s.rewriteBuf[n..])
    case ReadDiff(n) => s.(childDiff := s.childDiff + s.data[..n], data := s.data[n..])
    case AskToStop => s.(phase := Asked, ask := true)
    case Acknowledge(sent) => s.(ask := false, stop := true, ack := sent)
    case ReceiveAck => s.(phase := Acked, ack := false)
    case FinishFile =>
      s.(childDiff := s.childDiff + s.data, data := "", tmp := s.snapshot + (s.childDiff + s.data),
         phase := Exited(true))
    case ChildFails => s.(phase := Exited(false))
    case Done(ok) =>
      var t := s.(phase := Idle, rewriteBuf := "", data := "", ask := false, ack := false);
      if s.phase.ok && ok then
        t.(file := s.tmp + s.rewriteBuf, aofBuf := "", selected := -1, base := s.snapshot, since := s.forked)
      else t
  }

  predicate Next(s: State, a: Action, t: State) {
    Enabled(s, a) && t == Do(s, a)
  }

  predicate Initial(s: State) {
    && s.phase == Idle && s.aofBuf == "" && s.rewriteBuf == "" && s.selected == -1 && !s.ask && !s.ack
    && s.file == s.base && s.since == [] && s.forked == []
  }

  ghost predicate IsRun(trace: seq<State>, acts: seq<Action>) {
    && |trace| == |acts| + 1 && Initial(trace[0])
    && forall i :: 0 <= i < |acts| ==> Next(trace[i], acts[i], trace[i + 1])
  }

  // ---------------------------------------------------------------------
  // What every step keeps
  // ---------------------------------------------------------------------

  /** The file and the bytes still to be written to it are the snapshot and all that came after. */
  predicate LogInv(s: State) {
    s.file + s.aofBuf == s.base + Bytes(s.since)
  }

  /** No byte of the difference is lost, doubled or moved on its way to the new file. */
  predicate DiffInv(s: State) {
    && (s.phase == Idle ==> s.rewriteBuf == "")
    && (Running(s.phase) ==> s.childDiff + s.data + s.rewriteBuf == Bytes(s.forked))
    && (s.phase == Exited(true) ==> s.tmp + s.rewriteBuf == s.snapshot + Bytes(s.forked))
  }

  /** Only a child that has asked is answered, once; and once it has its answer the server sends nothing more. */
  predicate StopInv(s: State) {
    && (s.ack ==> s.stop)
    && (s.phase == Acked ==> s.stop)
    && (s.phase == Exited(true) ==> s.stop)
    && (s.ask || s.ack ==> (s.phase == Asked || s.phase == Exited(false)) && !(s.ask && s.ack))
  }

  /** The temporary file is empty until the child has read the pipe to its end. */
  predicate FileInv(s: State) {
    && (Running(s.phase) ==> s.tmp == "")
    && (s.phase == Exited(true) ==> s.data == "" && s.tmp == s.snapshot + s.childDiff)
  }

  predicate Routed(entries: seq<Entry>, selected: int) {
    var r := Follow(entries, -1);
    r != Lost && (selected == -1 || r.db == selected)
  }

  predicate RouteInv(s: State) {
    Routed(s.since, s.selected) && Routed(s.forked, s.selected)
  }

  predicate Inv(s: State) {
    LogInv(s) && DiffInv(s) && StopInv(s) && FileInv(s) && RouteInv(s)
  }

  lemma FeedIsBytes(s: State, a: Action, entries: seq<Entry>)
    ensures Bytes(entries + Entries(s, a)) == Bytes(entries) + FeedBytes(s, a)
  {
    hide Bytes;
    if !a.Feed? {
      assert entries + [] == entries;
      assert Bytes(entries) + "" == Bytes(entries);
    } else if a.db != s.selected {
      BytesOfPair(entries, Select(a.db, a.select), Issued(a.db, a.text));
    } else {
      BytesOfOne(entries, Issued(a.db, a.text));
    }
  }

  lemma FeedIsRouted(s: State, a: Action, entries: seq<Entry>)
    requires a.Feed? && Routed(entries, s.selected)
    ensures Routed(entries + Entries(s, a), a.db)
  {
    hide Follow;
    var last := Issued(a.db, a.text);
    if a.db != s.selected {
      var select := Select(a.db, a.select);
      assert entries + Entries(s, a) == (entries + [select]) + [last];
      FollowOne(entries, select, -1);
      FollowOne(entries + [select], last, -1);
    } else {
      FollowOne(entries, last, -1);
    }
  }

  lemma Assoc(a: string, b: string, c: string)
    ensures a + (b + c) == a + b + c
  {
  }

  /** Moving the first n bytes of b to the end of a. */
  lemma Moved(a: string, b: string, n: nat)
    requires n <= |b|
    ensures a + b[..n] + b[n..] == a + b
  {
    assert b[..n] + b[n..] == b;
  }

  lemma StepKeepsLog(s: State, a: Action, t: State)
    requires Next(s, a, t) && LogInv(s) && DiffInv(s)
    ensures LogInv(t)
  {
    hide Bytes, FeedBytes;
    if a.Feed? {
      FeedIsBytes(s, a, s.since);
      Assoc(s.file, s.aofBuf, FeedBytes(s, a));
      Assoc(s.base, Bytes(s.since), FeedBytes(s, a));
    } else if a.Flush? {
      Moved(s.file, s.aofBuf, a.n);
    }
  }

  lemma FeedKeepsDiff(s: State, a: Action, t: State)
    requires Next(s, a, t) && DiffInv(s) && a.Feed?
    ensures DiffInv(t)
  {
    hide Bytes, FeedBytes;
    var bytes := FeedBytes(s, a);
    FeedIsBytes(s, a, s.forked);
    Assoc(s.childDiff + s.data, s.rewriteBuf, bytes);
    Assoc(s.tmp, s.rewriteBuf, bytes);
    Assoc(s.snapshot, Bytes(s.forked), bytes);
  }

  lemma MoveKeepsDiff(s: State, a: Action, t: State)
    requires Next(s, a, t) && DiffInv(s) && StopInv(s)
    requires a.SendDiff? || a.ReadDiff? || a.FinishFile?
    ensures DiffInv(t)
  {
    hide Bytes;
    match a
    case SendDiff(n) =>
      Moved(s.childDiff + s.data, s.rewriteBuf, n);
      Assoc(s.childDiff, s.data, s.rewriteBuf[..n]);
    case ReadDiff(n) => Moved(s.childDiff, s.data, n);
    case FinishFile => Assoc(s.snapshot, s.childDiff + s.data, s.rewriteBuf);
  }

  lemma StepKeepsDiff(s: State, a: Action, t: State)
    requires Next(s, a, t) && DiffInv(s) && StopInv(s)
    ensures DiffInv(t)
  {
    hide Bytes;
    if a.Feed? {
      FeedKeepsDiff(s, a, t);
    } else if a.SendDiff? || a.ReadDiff? || a.FinishFile? {
      MoveKeepsDiff(s, a, t);
    } else {
      NoBytes();
    }
  }

  lemma NoBytes()
    ensures Bytes([]) == "" && Follow([], -1) == Selected(-1)
  {
  }

  lemma StepKeepsStop(s: State, a: Action, t: State)
    requires Next(s, a, t) && StopInv(s)
    ensures StopInv(t)
  {
  }

  lemma StepKeepsFile(s: State, a: Action, t: State)
    requires Next(s, a, t) && StopInv(s) && FileInv(s)
    ensures FileInv(t)
  {
  }

  lemma StepKeepsRoute(s: State, a: Action, t: State)
    requires Next(s, a, t) && RouteInv(s)
    ensures RouteInv(t)
  {
    hide Follow;
    if a.Feed? {
      FeedIsRouted(s, a, s.since);
      FeedIsRouted(s, a, s.forked);
    }
    NoBytes();
  }

  lemma {:induction false} RunKeepsInv(trace: seq<State>, acts: seq<Action>, i: nat)
    requires IsRun(trace, acts) && i < |trace|
    ensures Inv(trace[i])
  {
    hide Next, LogInv, DiffInv, StopInv, FileInv, RouteInv;
    if i == 0 {
      InitialHasInv(trace[0]);
    } else {
      RunKeepsInv(trace, acts, i - 1);
      var s, a, t := trace[i - 1], acts[i - 1], trace[i];
      assert Next(s, a, t);
      StepKeepsLog(s, a, t);
      StepKeepsDiff(s, a, t);
      StepKeepsStop(s, a, t);
      StepKeepsFile(s, a, t);
      StepKeepsRoute(s, a, t);
    }
  }

  lemma InitialHasInv(s: State)
    requires Initial(s)
    ensures Inv(s)
  {
    NoBytes();
  }

  // ---------------------------------------------------------------------
  // Main results
  // ---------------------------------------------------------------------

  /** What was fed by the steps from number lo up to number hi. */
  function Fed(trace: seq<State>, acts: seq<Action>, lo: nat, hi: nat): seq<Entry>
    requires lo <= hi <= |acts| <= |trace|
  {
    if lo == hi then [] else Fed(trace, acts, lo, hi - 1) + Entries(trace[hi - 1], acts[hi - 1])
  }

  /** The steps after number lo and before number hi neither start nor end a rewrite. */
  predicate SameRewrite(acts: seq<Action>, lo: nat, hi: nat)
    requires hi <= |acts|
  {
    forall k :: lo < k < hi ==> !acts[k].Fork? && !acts[k].Done?
  }

  lemma StepOfRewrite(s: State, a: Action, t: State)
    requires Next(s, a, t) && !a.Fork? && !a.Done?
    ensures t.snapshot == s.snapshot && t.forked == s.forked + Entries(s, a)
  {
    if !a.Feed? { assert s.forked + [] == s.forked; }
  }

  lemma {:induction false} ForkedIsFed(trace: seq<State>, acts: seq<Action>, j: nat, i: nat)
    requires IsRun(trace, acts) && j < i <= |acts| && acts[j].Fork? && SameRewrite(acts, j, i)
    ensures trace[i].snapshot == acts[j].snapshot
    ensures trace[i].forked == Fed(trace, acts, j + 1, i)
  {
    assert Next(trace[i - 1], acts[i - 1], trace[i]);
    if i > j + 1 {
      ForkedIsFed(trace, acts, j, i - 1);
      StepOfRewrite(trace[i - 1], acts[i - 1], trace[i]);
    }
  }

  /**
   * A rewrite loses nothing: whatever the interleaving of feeds, pipe writes, reads,
   * the stop request and its acknowledgement, when the rewritten file takes the place
   * of the log it is the snapshot followed by everything fed since the fork, once and
   * in order, and nothing that was fed remains only in the cleared buffer.
   */
  lemma RewriteLosesNothing(trace: seq<State>, acts: seq<Action>, j: nat, i: nat)
    requires IsRun(trace, acts) && j < i < |acts|
    requires acts[j].Fork? && SameRewrite(acts, j, i)
    requires acts[i] == Done(true) && trace[i].phase == Exited(true)
    ensures trace[i + 1].file == acts[j].snapshot + Bytes(Fed(trace, acts, j + 1, i))
    ensures trace[i + 1].aofBuf == "" && trace[i + 1].selected == -1
  {
    hide Bytes;
    RunKeepsInv(trace, acts, i);
    ForkedIsFed(trace, acts, j, i);
    assert Next(trace[i], acts[i], trace[i + 1]);
  }

  lemma FedIsLogged(s: State, a: Action, t: State)
    requires Next(s, a, t) && (a.Done? ==> !(s.phase == Exited(true) && a.ok))
    ensures t.file + t.aofBuf == s.file + s.aofBuf + FeedBytes(s, a) && t.base == s.base
  {
    hide Bytes;
    if a.Feed? {
      Assoc(s.file, s.aofBuf, FeedBytes(s, a));
    } else if a.Flush? {
      Moved(s.file, s.aofBuf, a.n);
    }
  }

  lemma {:induction false} RewriteIsLogged(trace: seq<State>, acts: seq<Action>, j: nat, i: nat)
    requires IsRun(trace, acts) && j < i <= |acts| && acts[j].Fork? && SameRewrite(acts, j, i)
    ensures trace[i].file + trace[i].aofBuf == trace[j].file + trace[j].aofBuf + Bytes(Fed(trace, acts, j + 1, i))
    ensures trace[i].base == trace[j].base
  {
    hide Bytes, FeedBytes;
    var s, a, t := trace[i - 1], acts[i - 1], trace[i];
    assert Next(s, a, t);
    FedIsLogged(s, a, t);
    if i == j + 1 {
      NoBytes();
    } else {
      RewriteIsLogged(trace, acts, j, i - 1);
      FeedIsBytes(s, a, Fed(trace, acts, j + 1, i - 1));
      Assoc(trace[j].file + trace[j].aofBuf, Bytes(Fed(trace, acts, j + 1, i - 1)), FeedBytes(s, a));
    }
  }

  /**
   * A rewrite that fails, in the child or in the server, is harmless: the old log is still
   * the log, and with the buffer it holds what it held at the fork and all that was fed
   * since, while nothing of the attempt is left for the next one.
   */
  lemma FailedRewriteIsHarmless(trace: seq<State>, acts: seq<Action>, j: nat, i: nat)
    requires IsRun(trace, acts) && j < i < |acts|
    requires acts[j].Fork? && SameRewrite(acts, j, i)
    requires acts[i].Done? && !(acts[i].ok && trace[i].phase == Exited(true))
    ensures var s, t := trace[j], trace[i + 1];
      && t.file + t.aofBuf == s.file + s.aofBuf + Bytes(Fed(trace, acts, j + 1, i))
      && t.base == s.base && t.phase == Idle && t.rewriteBuf == "" && t.data == ""
  {
    hide Bytes, FeedBytes;
    RewriteIsLogged(trace, acts, j, i);
    assert Next(trace[i], acts[i], trace[i + 1]);
  }

  /**
   * Over any number of rewrites, in every state the file followed by the buffer is a
   * snapshot and all that was fed after it, and every command in it runs in the
   * database it was issued in, whichever database the snapshot leaves selected.
   */
  lemma LogIsComplete(trace: seq<State>, acts: seq<Action>, i: nat, start: int)
    requires IsRun(trace, acts) && i < |trace|
    ensures trace[i].file + trace[i].aofBuf == trace[i].base + Bytes(trace[i].since)
    ensures Follow(trace[i].since, start) != Lost
  {
    hide Bytes, Follow;
    RunKeepsInv(trace, acts, i);
    RightAnywhere(trace[i].since, start);
  }

  // ---------------------------------------------------------------------
  // A rewrite can always be completed
  // ---------------------------------------------------------------------

  /** `trace` passes from its first state to its last by `acts`. */
  ghost predicate Leads(trace: seq<State>, acts: seq<Action>) {
    |trace| == |acts| + 1 && forall i :: 0 <= i < |acts| ==> Next(trace[i], acts[i], trace[i + 1])
  }

  /** The whole difference passes through the pipe. */
  lemma DiffCanPass(s: State) returns (trace: seq<State>, acts: seq<Action>)
    requires s.phase == Dumping && !s.stop && s.data == "" && s.childDiff == ""
    ensures Leads(trace, acts) && trace[0] == s
    ensures trace[|acts|] == s.(childDiff := s.rewriteBuf, rewriteBuf := "")
  {
    var n := |s.rewriteBuf|;
    acts := [SendDiff(n), ReadDiff(n)];
    var a := Do(s, acts[0]);
    assert a.data == s.rewriteBuf && a.rewriteBuf == "";
    var b := Do(a, acts[1]);
    assert b.data == "" && b.childDiff == s.rewriteBuf;
    trace := [s, a, b];
  }

  /** A rewrite starts, and a command is fed and written to the old file as well. */
  lemma RewriteCanStart(s: State, snapshot: string, db: nat, select: string, text: string)
    returns (trace: seq<State>, acts: seq<Action>)
    requires s.phase == Idle && s.rewriteBuf == ""
    ensures Leads(trace, acts) && trace[0] == s
    ensures var t := trace[|acts|];
      && t.phase == Dumping && !t.stop && t.data == t.childDiff == "" && t.snapshot == snapshot
      && t.rewriteBuf == select + text && t.aofBuf == "" && t.file == s.file + (s.aofBuf + (select + text))
  {
    acts := [Fork(snapshot), Feed(db, select, text), Flush(|s.aofBuf| + |select + text|)];
    var a := Do(s, acts[0]);
    var b := Do(a, acts[1]);
    assert b.aofBuf == s.aofBuf + (select + text) && b.rewriteBuf == "" + (select + text);
    var c := Do(b, acts[2]);
    trace := [s, a, b, c];
  }

  lemma RewriteCanEnd(s: State) returns (trace: seq<State>, acts: seq<Action>)
    requires s.phase == Dumping
    ensures Leads(trace, acts) && trace[0] == s
    ensures var t := trace[|acts|];
      t.phase == Idle && t.file == s.snapshot + (s.childDiff + s.data) + s.rewriteBuf && t.aofBuf == ""
  {
    acts := [AskToStop, Acknowledge(true), ReceiveAck, FinishFile, Done(true)];
    var a := Do(s, acts[0]);
    var b := Do(a, acts[1]);
    var c := Do(b, acts[2]);
    var d := Do(c, acts[3]);
    var e := Do(d, acts[4]);
    trace := [s, a, b, c, d, e];
  }

  lemma LeadsOn(first: seq<State>, a: seq<Action>, second: seq<State>, b: seq<Action>)
    requires Leads(first, a) && Leads(second, b) && first[|a|] == second[0]
    ensures var trace := first + second[1..];
      Leads(trace, a + b) && trace[0] == first[0] && trace[|a + b|] == second[|b|]
  {
    var trace, acts := first + second[1..], a + b;
    forall i | 0 <= i < |acts| ensures Next(trace[i], acts[i], trace[i + 1]) {
      if i < |a| { assert Next(first[i], a[i], first[i + 1]); }
      else { assert Next(second[i - |a|], b[i - |a|], second[i - |a| + 1]); }
    }
  }

  /**
   * From every idle state a rewrite of any snapshot, with any command fed meanwhile, can be completed:
   * the log is then that snapshot and that command.
   */
  lemma RewriteCanComplete(s: State, snapshot: string, db: nat, select: string, text: string)
    returns (trace: seq<State>, acts: seq<Action>)
    requires s.phase == Idle && s.rewriteBuf == ""
    ensures Leads(trace, acts) && trace[0] == s
    ensures var t := trace[|acts|]; t.phase == Idle && t.file == snapshot + (select + text) && t.aofBuf == ""
  {
    hide Next;
    var first, a := RewriteCanStart(s, snapshot, db, select, text);
    var second, b := DiffCanPass(first[|a|]);
    var third, c := RewriteCanEnd(second[|b|]);
    LeadsOn(second, b, third, c);
    LeadsOn(first, a, second + third[1..], b + c);
    trace, acts := first + (second + third[1..])[1..], a + (b + c);
    assert snapshot + ((select + text) + "") + "" == snapshot + (select + text);
  }
}
