/**
 * Writing the append only buffer to the file: the write may be full, short or
 * failed, and the attempt to cut a short write off the file may itself fail.
 */
module AofFlush {
  datatype Policy = Always | EverySecond | Never

  /** What flushAppendOnlyFile did; Exited is the end of the server. */
  datatype Outcome = Nothing | Postponed | Written | Kept | Exited

  class AppendOnlyFile {
    var file: string          // the contents of the file behind server.aof_fd
    var aofBuf: string
    var currentSize: nat
    var postponedStart: int
    var lastWriteOk: bool
    /** Every byte fed so far. */
    ghost var fed: string

    /** Nothing fed is lost, doubled or out of order, and the size kept is the size of the file. */
    ghost predicate Valid()
      reads this
    {
      file + aofBuf == fed && currentSize == |file|
    }

    constructor ()
      ensures Valid() && fed == "" && file == ""
    {
      file, aofBuf, currentSize, postponedStart, lastWriteOk, fed := "", "", 0, 0, true, "";
    }

    /** The end of feedAppendOnlyFile. */
    method Feed(bytes: string)
      requires Valid()
      modifies this
      ensures Valid() && fed == old(fed) + bytes && file == old(file)
      ensures aofBuf == old(aofBuf) + bytes
      ensures postponedStart == old(postponedStart) && lastWriteOk == old(lastWriteOk)
    {
      aofBuf := aofBuf + bytes;
      fed := fed + bytes;
    }

    /** write(2) on the file, which took `wrote` bytes of the buffer, or failed if that is -1. */
    method Write(wrote: int) returns (n: int)
      requires -1 <= wrote <= |aofBuf|
      modifies this`file
      ensures n == wrote && file == old(file) + if wrote > 0 then aofBuf[..wrote] else ""
    {
      if wrote > 0 { file := file + aofBuf[..wrote]; }
      n := wrote;
    }

    /** ftruncate(2) to the recorded size, which succeeds or not. */
    method Truncate(truncates: bool) returns (done: bool)
      requires currentSize <= |file|
      modifies this`file
      ensures done == truncates && file == if truncates then old(file)[..currentSize] else old(file)
    {
      if truncates { file := file[..currentSize]; }
      done := truncates;
    }

    /**
     * flushAppendOnlyFile. `wrote` is what write(2) returns and `truncates` whether ftruncate(2)
     * succeeds. Whatever they do, the file followed by the buffer stays all that was fed, unless the
     * server exits, which it does exactly when a write under the policy Always is not full.
     */
    method Flush(policy: Policy, force: bool, fsyncPending: bool, now: int, wrote: int, truncates: bool)
      returns (r: Outcome)
      requires Valid() && -1 <= wrote <= |aofBuf|
      modifies this
      ensures r != Exited ==> Valid()
      ensures fed == old(fed) && file <= fed && (r == Kept || r == Exited ==> file != fed)
      ensures r == Nothing <==> old(aofBuf) == ""
      ensures r == Postponed <==>
        && old(aofBuf) != "" && policy == EverySecond && !force && fsyncPending
        && (old(postponedStart) == 0 || now - old(postponedStart) < 2)
      ensures r == Written ==> wrote == |old(aofBuf)|
      ensures r == Kept ==> wrote < |old(aofBuf)| && policy != Always
      ensures r == Exited ==> wrote < |old(aofBuf)| && policy == Always
      ensures file == old(file) +
        if r == Written then old(aofBuf)
        else if (r == Kept || r == Exited) && wrote > 0 && !truncates then old(aofBuf)[..wrote] else ""
      ensures r == Written ==> aofBuf == "" && lastWriteOk
      ensures r == Kept ==> aofBuf != "" && !lastWriteOk
      ensures r == Nothing || r == Postponed ==> lastWriteOk == old(lastWriteOk)
      ensures r == Written || r == Kept ==> postponedStart == 0
      ensures r == Nothing ==> postponedStart == old(postponedStart)
      ensures r == Postponed ==> postponedStart == if old(postponedStart) == 0 then now else old(postponedStart)
    {
      if |aofBuf| == 0 { return Nothing; }
      var syncInProgress := policy == EverySecond && fsyncPending;
      if policy == EverySecond && !force && syncInProgress {
        if postponedStart == 0 {
          postponedStart := now;
          return Postponed;
        } else if now - postponedStart < 2 {
          return Postponed;
        }
      }
      var written := Write(wrote);
      postponedStart := 0;
      if written != |aofBuf| {
        if written != -1 {
          var truncated := Truncate(truncates);
          if truncated {
            assert file == old(file);
            written := -1;
          }
        }
        if policy == Always { return Exited; }
        lastWriteOk := false;
        if written > 0 {
          currentSize := currentSize + written;
          aofBuf := aofBuf[written..];
        }
        return Kept;
      }
      lastWriteOk := true;
      currentSize := currentSize + written;
      aofBuf := "";
      return Written;
    }
  }
}
