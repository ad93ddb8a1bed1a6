/**
 * What a restart finds: the log kept by the rewrite protocol, read back by the loader.
 */
module AofRecovery {
  import opened AofLog
  import opened AofReplay
  import opened AofProtocol

  /** Each entry is the encoding of one command. */
  predicate Encoded(entries: seq<Entry>, log: seq<Command>) {
    |entries| == |log| && forall i :: 0 <= i < |log| ==> entries[i].text == Encode(log[i])
  }

  lemma {:induction false} BytesAreLog(entries: seq<Entry>, log: seq<Command>)
    requires Encoded(entries, log)
    ensures Bytes(entries) == EncodeAll(log)
    decreases |log|
  {
    hide Encode;
    if log != [] {
      var n := |log| - 1;
      BytesAreLog(entries[..n], log[..n]);
      EncodeAllSplits(log, n);
      assert log[n..] == [log[n]] && [log[n]][1..] == [];
      assert EncodeAll([log[n]]) == Encode(log[n]) + EncodeAll([]);
    }
  }

  lemma LogOf(dump: seq<Command>, entries: seq<Entry>, fed: seq<Command>)
    requires Encoded(entries, fed)
    ensures EncodeAll(dump) + Bytes(entries) == EncodeAll(dump + fed)
  {
    hide EncodeAll, Encoded, Bytes;
    BytesAreLog(entries, fed);
    EncodeAllSplits(dump + fed, |dump|);
    assert (dump + fed)[..|dump|] == dump && (dump + fed)[|dump|..] == fed;
  }

  /** A restart right after a rewrite runs the commands of the dump and then all that were fed since the fork. */
  lemma RewrittenFileLoads(trace: seq<State>, acts: seq<Action>, j: nat, i: nat,
                           dump: seq<Command>, fed: seq<Command>, known: string -> bool)
    requires AofProtocol.IsRun(trace, acts) && j < i < |acts|
    requires acts[j] == Fork(EncodeAll(dump)) && SameRewrite(acts, j, i)
    requires acts[i] == Done(true) && trace[i].phase == Exited(true)
    requires Encoded(Fed(trace, acts, j + 1, i), fed) && Loadable(dump + fed, known)
    ensures Replay(trace[i + 1].file, known, false) ==
      Replayed(dump + fed, if LeavesOpen(dump + fed, false) then UnexpectedEnd else EndOfFile, "")
  {
    hide EncodeAll, Replay, Loadable, Encoded, Bytes, Fed, SameRewrite, Next, LeavesOpen;
    RewriteLosesNothing(trace, acts, j, i);
    LogOf(dump, Fed(trace, acts, j + 1, i), fed);
    LoadOfWhole(dump + fed, known);
  }

  /**
   * A restart at any moment of any run, whatever was still in the buffer, loads and runs
   * a prefix of the commands of the log: those whose encodings the file holds whole.
   * Without aof-load-truncated it loads exactly when the file is such a prefix and no
   * transaction is open at its end.
   */
  lemma RestartRunsPrefix(trace: seq<State>, acts: seq<Action>, i: nat,
                          dump: seq<Command>, fed: seq<Command>, known: string -> bool)
    requires AofProtocol.IsRun(trace, acts) && i < |trace| && trace[i].file != ""
    requires trace[i].base == EncodeAll(dump) && Encoded(trace[i].since, fed) && Loadable(dump + fed, known)
    ensures var file, log := trace[i].file, dump + fed;
      && LoadResult(file, known, true, true) == Loaded
      && Replay(file, known, false).ran == log[..WholeInside(log, |file|)]
      && (LoadResult(file, known, false, true) == Loaded <==>
          var kept := log[..WholeInside(log, |file|)]; file == EncodeAll(kept) && !LeavesOpen(kept, false))
  {
    hide EncodeAll, Replay, Loadable, Encoded, Bytes, AofProtocol.IsRun, WholeInside, LoadResult, LeavesOpen;
    var file, log := trace[i].file, dump + fed;
    LogIsComplete(trace, acts, i, 0);
    LogOf(dump, trace[i].since, fed);
    assert EncodeAll(log)[..|file|] == file;
    LoadOfPrefix(log, |file|, known);
  }
}
