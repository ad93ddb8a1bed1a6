/**
 * What loading an append only file gives back: the whole log when the file is
 * complete, and for every cut of the file exactly the commands that lie wholly
 * before the cut.
 */
module AofReplay {
  import opened AofLog

  // ---------------------------------------------------------------------
  // Numbers
  // ---------------------------------------------------------------------

  predicate AllDigits(s: string) {
    forall i :: 0 <= i < |s| ==> IsDigit(s[i])
  }

  lemma {:induction false} DecimalIsDigits(n: nat)
    ensures Decimal(n) != "" && AllDigits(Decimal(n))
  {
    if n >= 10 { DecimalIsDigits(n / 10); }
  }

  function Pow10(k: nat): nat {
    if k == 0 then 1 else 10 * Pow10(k - 1)
  }

  lemma {:induction false} DecimalLength(n: nat, k: nat)
    requires n < Pow10(k) && 1 <= k
    ensures |Decimal(n)| <= k
  {
    if n >= 10 { DecimalLength(n / 10, k - 1); }
  }

  lemma LongIsShort(n: nat)
    requires n <= LONG_MAX
    ensures |Decimal(n)| <= 19
  {
    assert Pow10(19) == 10000000000000000000 by {
      assert Pow10(4) == 10000;
      assert Pow10(8) == 100000000;
      assert Pow10(12) == 1000000000000;
      assert Pow10(16) == 10000000000000000;
    }
    DecimalLength(n, 19);
  }

  lemma {:induction false} DigitsAppend(p: string, t: string, acc: nat)
    requires AllDigits(p)
    ensures Digits(p + t, acc) == Digits(t, Digits(p, acc))
  {
    if p == "" {
      assert p + t == t;
    } else {
      assert (p + t)[1..] == p[1..] + t;
      DigitsAppend(p[1..], t, acc * 10 + (p[0] as int - '0' as int));
    }
  }

  lemma {:induction false} DigitsOfDecimal(n: nat)
    ensures Digits(Decimal(n), 0) == n
  {
    if n >= 10 {
      DigitsOfDecimal(n / 10);
      DecimalIsDigits(n / 10);
      DigitsAppend(Decimal(n / 10), [DigitChar(n % 10)], 0);
    }
  }

  /** Losing the last digits of a positive number leaves a positive number that is no larger. */
  lemma {:induction false} DigitsOfPrefix(n: nat, k: nat)
    requires 1 <= n && 1 <= k <= |Decimal(n)|
    ensures 1 <= Digits(Decimal(n)[..k], 0) <= n
  {
    if k == |Decimal(n)| {
      assert Decimal(n)[..k] == Decimal(n);
      DigitsOfDecimal(n);
    } else {
      assert Decimal(n)[..k] == Decimal(n / 10)[..k];
      DigitsOfPrefix(n / 10, k);
    }
  }

  /** strtol reads the number at the start of a text that goes on with something else. */
  lemma StrtolOfDigits(p: string, t: string)
    requires p != "" && AllDigits(p)
    requires t == "" || !IsDigit(t[0])
    requires Digits(p, 0) <= LONG_MAX
    ensures Strtol(p + t) == Digits(p, 0)
  {
    assert (p + t)[0] == p[0];
    assert SkipSpace(p + t) == p + t;
    DigitsAppend(p, t, 0);
  }

  // ---------------------------------------------------------------------
  // Lines
  // ---------------------------------------------------------------------

  predicate NoNewline(s: string) {
    forall i :: 0 <= i < |s| ==> s[i] != '\n'
  }

  lemma {:induction false} LineEnds(s: string, tail: string, room: nat)
    requires NoNewline(s) && |s| < room
    ensures LineLength(s + "\n" + tail, room) == |s| + 1
  {
    var text := s + "\n" + tail;
    if s == "" {
      assert text[0] == '\n';
    } else {
      assert text[1..] == s[1..] + "\n" + tail;
      LineEnds(s[1..], tail, room - 1);
    }
  }

  lemma {:induction false} LineRunsOut(s: string, room: nat)
    requires NoNewline(s) && |s| <= room
    ensures LineLength(s, room) == |s|
  {
    if s != "" { LineRunsOut(s[1..], room - 1); }
  }

  /** A whole header line is read as one line that holds its number. */
  lemma WholeLine(mark: char, n: nat, tail: string)
    requires mark != '\n' && n <= LONG_MAX
    ensures var text := Line(mark, n) + tail; var k := |Line(mark, n)|;
      3 < k <= |text| && LineLength(text, MAX_LINE) == k && text[..k] == Line(mark, n) && text[k..] == tail
    ensures Strtol(Line(mark, n)[1..]) == n
    ensures IsDigit(Line(mark, n)[1])
  {
    var d := Decimal(n);
    DecimalIsDigits(n);
    LongIsShort(n);
    DigitsOfDecimal(n);
    assert Line(mark, n)[1..] == d + "\r\n";
    StrtolOfDigits(d, "\r\n");
    var s := [mark] + d + "\r";
    assert Line(mark, n) + tail == s + "\n" + tail;
    LineEnds(s, tail, MAX_LINE);
  }

  /** A header line cut short is read to the end of the file, and its number is not negative. */
  lemma CutLine(mark: char, n: nat, m: nat)
    requires mark != '\n' && n <= LONG_MAX
    requires 1 <= m < |Line(mark, n)|
    ensures var text := Line(mark, n)[..m]; LineLength(text, MAX_LINE) == m && HitsEnd(text) && text[0] == mark
    ensures m > 1 ==> IsDigit(Line(mark, n)[..m][1])
    ensures m > 1 && n >= 1 ==> 1 <= Strtol(Line(mark, n)[..m][1..]) <= n
  {
    var d := Decimal(n);
    DecimalIsDigits(n);
    LongIsShort(n);
    var text := Line(mark, n)[..m];
    LineRunsOut(text, MAX_LINE);
    if m > 1 && n >= 1 {
      var k := if m - 1 < |d| then m - 1 else |d|;
      DigitsOfPrefix(n, k);
      var t := if m == |d| + 2 then "\r" else "";
      assert text[1..] == d[..k] + t;
      StrtolOfDigits(d[..k], t);
    }
  }

  // ---------------------------------------------------------------------
  // One argument and one command
  // ---------------------------------------------------------------------

  /** Where the parts of a text lie that is a line, an argument, two bytes and a tail. */
  lemma Parts(line: string, arg: string, tail: string)
    requires line != ""
    ensures var text := line + (arg + "\r\n" + tail); var k := |line|;
      && |text| == k + |arg| + 2 + |tail| && text[0] == line[0] && text[1..k] == line[1..]
      && text[k..k + |arg|] == arg && text[k + |arg| + 2..] == tail
  {
    var after := arg + "\r\n" + tail;
    var text := line + after;
    var k := |line|;
    assert text[k..] == after;
    assert text[k..k + |arg|] == after[..|arg|] == arg;
    assert text[k + |arg| + 2..] == after[|arg| + 2..] == tail;
  }

  lemma BulkParts(line: string, arg: string, tail: string)
    ensures (line + arg + "\r\n") + tail == line + (arg + "\r\n" + tail)
  {
  }

  lemma WholeBulk(arg: string, tail: string)
    requires |arg| <= LONG_MAX
    ensures ParseBulk(Bulk(arg) + tail) == Got([arg], tail)
  {
    hide LineLength, Strtol, Line;
    var line := Line('$', |arg|);
    LineStarts('$', |arg|);
    WholeLine('$', |arg|, arg + "\r\n" + tail);
    BulkParts(line, arg, tail);
    Parts(line, arg, tail);
  }

  lemma LineStarts(mark: char, n: nat)
    ensures Line(mark, n) != "" && Line(mark, n)[0] == mark
  {
  }

  lemma CutBulk(arg: string, m: nat)
    requires |arg| <= LONG_MAX && m < |Bulk(arg)|
    ensures ParseBulk(Bulk(arg)[..m]) == ShortRead
  {
    hide LineLength, Strtol, Line;
    var line, after := Line('$', |arg|), arg + "\r\n";
    var text := Bulk(arg)[..m];
    LineStarts('$', |arg|);
    assert Bulk(arg) == line + after;
    if m == 0 {
    } else if m < |line| {
      assert text == line[..m];
      CutLine('$', |arg|, m);
    } else {
      CutAfterLine(arg, m - |line|);
      assert text == line + after[..m - |line|];
    }
  }

  /** The header is whole and the argument or the two bytes after it are not. */
  lemma CutAfterLine(arg: string, n: nat)
    requires |arg| <= LONG_MAX && n < |arg| + 2
    ensures ParseBulk(Line('$', |arg|) + (arg + "\r\n")[..n]) == ShortRead
  {
    hide LineLength, Strtol, Line;
    var line, rest := Line('$', |arg|), (arg + "\r\n")[..n];
    var text := line + rest;
    LineStarts('$', |arg|);
    WholeLine('$', |arg|, rest);
    assert text[0] == line[0];
    assert text[1..|line|] == line[1..];
  }

  predicate ArgsFit(args: seq<string>) {
    forall i :: 0 <= i < |args| ==> |args[i]| <= LONG_MAX
  }

  lemma {:induction false} WholeArgs(args: seq<string>, tail: string)
    requires ArgsFit(args)
    ensures ParseArgs(EncodeArgs(args) + tail, |args|) == Got(args, tail)
  {
    hide ParseBulk, Bulk;
    if args == [] {
      assert EncodeArgs(args) + tail == tail;
    } else {
      var others := EncodeArgs(args[1..]) + tail;
      assert EncodeArgs(args) + tail == Bulk(args[0]) + others;
      WholeBulk(args[0], others);
      WholeArgs(args[1..], tail);
      assert [args[0]] + args[1..] == args;
    }
  }

  lemma {:induction false} CutArgs(args: seq<string>, m: nat)
    requires ArgsFit(args) && m < |EncodeArgs(args)|
    ensures ParseArgs(EncodeArgs(args)[..m], |args|) == ShortRead
  {
    hide ParseBulk, Bulk;
    var bulk, others := Bulk(args[0]), EncodeArgs(args[1..]);
    if m < |bulk| {
      assert EncodeArgs(args)[..m] == bulk[..m];
      CutBulk(args[0], m);
    } else {
      assert EncodeArgs(args)[..m] == bulk + others[..m - |bulk|];
      WholeBulk(args[0], others[..m - |bulk|]);
      CutArgs(args[1..], m - |bulk|);
    }
  }

  lemma IntOf(q: nat, m: nat)
    requires m <= 2 * INT_MAX + 1
    ensures ToInt(q * (2 * (INT_MAX + 1)) + m) == if m <= INT_MAX then m else m - 2 * (INT_MAX + 1)
  {
    assert (q * (2 * (INT_MAX + 1)) + m) % (2 * (INT_MAX + 1)) == m;
  }

  /** The number of a whole header line counts modulo 2^32: its arguments are read unless it is zero or negative. */
  lemma HeaderThenArgs(q: nat, m: nat, after: string)
    requires m <= 2 * INT_MAX + 1 && q * (2 * (INT_MAX + 1)) + m <= LONG_MAX
    ensures ParseCommand(Line('*', q * (2 * (INT_MAX + 1)) + m) + after) ==
            if 1 <= m <= INT_MAX then ParseArgs(after, m) else FormatError
  {
    hide LineLength, Strtol, Line, ParseArgs, HitsEnd, ToInt;
    var n := q * (2 * (INT_MAX + 1)) + m;
    var line := Line('*', n);
    var text := line + after;
    WholeLine('*', n, after);
    LineStarts('*', n);
    IntOf(q, m);
    assert text[0] == '*' && text[1] == line[1];
    assert text[1..|line|] == line[1..];
  }

  /** Reading back a command that was written whole. */
  lemma WholeCommand(c: Command, tail: string)
    requires Encodable(c)
    ensures ParseCommand(Encode(c) + tail) == Got(c, tail)
  {
    hide Line, EncodeArgs, ParseArgs, ParseCommand;
    assert Encode(c) + tail == Line('*', |c|) + (EncodeArgs(c) + tail);
    HeaderThenArgs(0, |c|, EncodeArgs(c) + tail);
    WholeArgs(c, tail);
  }

  /** Reading a command that lost its last bytes is a short read at the end of the file. */
  lemma CutCommand(c: Command, m: nat)
    requires Encodable(c) && 0 < m < |Encode(c)|
    ensures ParseCommand(Encode(c)[..m]) == ShortRead
  {
    hide LineLength, Strtol, Line, EncodeArgs, ParseArgs, HitsEnd;
    var line, after := Line('*', |c|), EncodeArgs(c);
    var text := Encode(c)[..m];
    if m < |line| {
      assert text == line[..m];
      CutLine('*', |c|, m);
      if m > 1 {
        var argc := Strtol(text[1..m]);
        assert text[1..m] == text[1..];
        assert text[m..] == "";
        NothingLeft(argc);
      }
    } else {
      assert text == line + after[..m - |line|];
      WholeLine('*', |c|, after[..m - |line|]);
      CutArgs(c, m - |line|);
      LineStarts('*', |c|);
      assert text[0] == '*' && text[1] == line[1];
      assert text[1..|line|] == line[1..];
    }
  }

  lemma NothingLeft(count: nat)
    requires count >= 1
    ensures ParseArgs("", count) == ShortRead
  {
  }

  // ---------------------------------------------------------------------
  // The whole file
  // ---------------------------------------------------------------------

  predicate Loadable(log: seq<Command>, known: string -> bool) {
    forall i :: 0 <= i < |log| ==> Encodable(log[i]) && known(log[i][0])
  }

  /** Whether the commands of a log leave a transaction open. */
  predicate LeavesOpen(log: seq<Command>, multi: bool)
    decreases |log|
  {
    if log == [] then multi else LeavesOpen(log[1..], MultiAfter(log[0], multi))
  }

  /** Position i opens a transaction that nothing after it closes. */
  predicate OpenedAt(log: seq<Command>, i: int)
    requires 0 <= i < |log|
  {
    IsNamed(log[i], "multi") && forall j :: i < j < |log| ==> !Closes(log[j])
  }

  predicate NeverCloses(log: seq<Command>) {
    forall j :: 0 <= j < |log| ==> !Closes(log[j])
  }

  lemma MultiDoesNotClose(c: Command)
    ensures !(IsNamed(c, "multi") && Closes(c))
  {
    if IsNamed(c, "multi") { assert Lower(c[0][0]) == 'm'; }
  }

  /** A log leaves a transaction open exactly when some MULTI has neither EXEC nor DISCARD after it. */
  lemma {:induction false} LeavesOpenIff(log: seq<Command>, multi: bool)
    ensures LeavesOpen(log, multi) <==>
      (multi && NeverCloses(log)) || (exists i :: 0 <= i < |log| && OpenedAt(log, i))
    decreases |log|
  {
    hide IsNamed, Closes;
    if log != [] {
      var others := log[1..];
      LeavesOpenIff(others, MultiAfter(log[0], multi));
      MultiDoesNotClose(log[0]);
      assert NeverCloses(log) <==> !Closes(log[0]) && NeverCloses(others) by {
        assert forall j :: 0 <= j < |others| ==> others[j] == log[j + 1];
      }
      assert OpenedAt(log, 0) <==> IsNamed(log[0], "multi") && NeverCloses(others) by {
        assert forall j :: 0 <= j < |others| ==> others[j] == log[j + 1];
      }
      forall i | 0 <= i < |others| ensures OpenedAt(others, i) <==> OpenedAt(log, i + 1) {
        assert forall j :: 0 <= j < |others| ==> others[j] == log[j + 1];
      }
      assert (exists i :: 0 <= i < |log| && OpenedAt(log, i)) <==>
        OpenedAt(log, 0) || (exists i :: 0 <= i < |others| && OpenedAt(others, i)) by {
        if i :| 0 <= i < |log| && OpenedAt(log, i) {
          if i > 0 { assert OpenedAt(others, i - 1); }
        }
      }
    }
  }

  /** The number of commands whose encoding lies wholly inside the first m bytes. */
  function WholeInside(log: seq<Command>, m: nat): (k: nat)
    ensures k <= |log|
  {
    if log == [] || m < |Encode(log[0])| then 0
    else 1 + WholeInside(log[1..], m - |Encode(log[0])|)
  }

  /** That number is the greatest one that fits. */
  lemma {:induction false} WholeInsideIsGreatest(log: seq<Command>, m: nat, k: nat)
    requires k <= |log|
    ensures |EncodeAll(log[..k])| <= m <==> k <= WholeInside(log, m)
  {
    if k > 0 {
      assert log[..k][1..] == log[1..][..k - 1];
      if m >= |Encode(log[0])| { WholeInsideIsGreatest(log[1..], m - |Encode(log[0])|, k - 1); }
    }
  }

  lemma ReplayOfNothing(known: string -> bool, multi: bool)
    ensures Replay("", known, multi) == Replayed([], if multi then UnexpectedEnd else EndOfFile, "")
  {
  }

  lemma ReplayOfNext(c: Command, tail: string, known: string -> bool, multi: bool)
    requires Encodable(c) && known(c[0])
    ensures var r := Replay(tail, known, MultiAfter(c, multi));
      Replay(Encode(c) + tail, known, multi) == Replayed([c] + r.ran, r.stop, r.rest)
  {
    hide Encode, ParseCommand, MultiAfter;
    WholeCommand(c, tail);
  }

  lemma ReplayOfCut(c: Command, m: nat, known: string -> bool, multi: bool)
    requires Encodable(c) && 0 < m < |Encode(c)|
    ensures Replay(Encode(c)[..m], known, multi) == Replayed([], UnexpectedEnd, Encode(c)[..m])
  {
    hide Encode, ParseCommand;
    CutCommand(c, m);
  }

  lemma {:induction false} ReplayOfPrefix(log: seq<Command>, m: nat, known: string -> bool, multi: bool)
    requires Loadable(log, known) && m <= |EncodeAll(log)|
    ensures var k := WholeInside(log, m); var used := |EncodeAll(log[..k])|;
      && used <= m
      && Replay(EncodeAll(log)[..m], known, multi) ==
         Replayed(log[..k], if used == m && !LeavesOpen(log[..k], multi) then EndOfFile else UnexpectedEnd,
                  EncodeAll(log)[used..m])
    decreases |log|
  {
    hide Encode, Replay, Encodable, MultiAfter;
    var k := WholeInside(log, m);
    if log == [] {
      assert EncodeAll(log)[..m] == "";
      ReplayOfNothing(known, multi);
    } else {
      var first, others := Encode(log[0]), EncodeAll(log[1..]);
      if m == 0 {
        EncodeIsNotEmpty(log[0]);
        ReplayOfNothing(known, multi);
        assert log[..k] == [];
      } else if m < |first| {
        assert EncodeAll(log)[..m] == first[..m];
        assert log[..k] == [];
        ReplayOfCut(log[0], m, known, multi);
      } else {
        var n := m - |first|;
        assert EncodeAll(log)[..m] == first + others[..n];
        ReplayOfNext(log[0], others[..n], known, multi);
        ReplayOfPrefix(log[1..], n, known, MultiAfter(log[0], multi));
        assert log[..k][1..] == log[1..][..k - 1];
        assert log[..k] == [log[0]] + log[1..][..k - 1];
        var used := |EncodeAll(log[1..][..k - 1])|;
        assert EncodeAll(log)[|first| + used..m] == others[used..n];
      }
    }
  }

  lemma EncodeIsNotEmpty(c: Command)
    ensures Encode(c) != "" && Encode(c)[0] == '*'
  {
    LineStarts('*', |c|);
  }

  lemma {:induction false} EncodeAllSplits(log: seq<Command>, k: nat)
    requires k <= |log|
    ensures EncodeAll(log) == EncodeAll(log[..k]) + EncodeAll(log[k..])
  {
    hide Encode;
    if k == 0 {
      assert log[..k] == [] && log[k..] == log;
    } else {
      EncodeAllSplits(log[1..], k - 1);
      assert log[..k][1..] == log[1..][..k - 1];
      assert log[1..][k - 1..] == log[k..];
    }
  }

  lemma NoPreamble(log: seq<Command>, m: nat)
    requires 0 < m <= |EncodeAll(log)|
    ensures EncodeAll(log)[..m][0] == '*'
  {
    hide Encode;
    EncodeIsNotEmpty(log[0]);
  }

  /**
   * Loading any non-empty prefix of a log, cut at whatever byte, runs exactly the
   * commands that lie wholly inside the prefix, and the offset at which the file is
   * truncated is the length of their encodings, so the repaired file is their log.
   * Without aof-load-truncated the server starts exactly from a cut between two
   * commands that does not fall inside a transaction.
   */
  lemma LoadOfPrefix(log: seq<Command>, m: nat, known: string -> bool)
    requires Loadable(log, known) && 0 < m <= |EncodeAll(log)|
    ensures var file := EncodeAll(log)[..m];
            var kept := log[..WholeInside(log, m)];
            var r := Replay(file, known, false);
      && LoadResult(file, known, true, true) == Loaded
      && r.ran == kept
      && |file| - |r.rest| == |EncodeAll(kept)| <= m
      && file[..|EncodeAll(kept)|] == EncodeAll(kept)
      && (Cuts(file, known, true) <==> |EncodeAll(kept)| < m || LeavesOpen(kept, false))
      && (LoadResult(file, known, false, true) == Loaded <==> |EncodeAll(kept)| == m && !LeavesOpen(kept, false))
  {
    hide EncodeAll, WholeInside, Replay, Loadable, LeavesOpen;
    var k := WholeInside(log, m);
    var file, kept := EncodeAll(log)[..m], log[..k];
    ReplayOfPrefix(log, m, known, false);
    NoPreamble(log, m);
    assert |file| >= 5 ==> file[..5][0] == '*';
    EncodeAllSplits(log, k);
    assert file[..|EncodeAll(kept)|] == EncodeAll(kept);
  }

  /**
   * Loading a complete log gives that log back. It is taken for complete exactly when
   * it does not leave a transaction open; otherwise the server starts only with
   * aof-load-truncated.
   */
  lemma LoadOfWhole(log: seq<Command>, known: string -> bool)
    requires Loadable(log, known)
    ensures Replay(EncodeAll(log), known, false) ==
      Replayed(log, if LeavesOpen(log, false) then UnexpectedEnd else EndOfFile, "")
    ensures LoadResult(EncodeAll(log), known, false, true) ==
      if log == [] then LoadedEmpty else if LeavesOpen(log, false) then Exit else Loaded
    ensures log != [] ==> LoadResult(EncodeAll(log), known, true, true) == Loaded
  {
    hide Replay, Loadable, Encode, LeavesOpen;
    var m := |EncodeAll(log)|;
    assert log[..|log|] == log && EncodeAll(log)[..m] == EncodeAll(log);
    WholeInsideIsGreatest(log, m, |log|);
    ReplayOfPrefix(log, m, known, false);
    assert EncodeAll(log)[m..m] == "";
    if log != [] {
      EncodeIsNotEmpty(log[0]);
      LoadOfPrefix(log, m, known);
    }
  }

  /** A log that stops inside a transaction does not load, although each of its commands is whole. */
  lemma OpenTransactionExits(known: string -> bool)
    requires known("MULTI") && known("SET")
    ensures var log := [["MULTI"], ["SET", "k", "v"]];
      LoadResult(EncodeAll(log), known, false, true) == Exit && Replay(EncodeAll(log), known, false).ran == log
  {
    hide Replay, EncodeAll, LoadResult;
    var log := [["MULTI"], ["SET", "k", "v"]];
    assert log[0][0] == "MULTI" && IsNamed(log[0], "multi");
    assert !Closes(log[1]);
    assert OpenedAt(log, 0);
    LeavesOpenIff(log, false);
    LoadOfWhole(log, known);
  }

  /** Any log that is closed by EXEC or DISCARD loads whatever the settings. */
  lemma ClosedTransactionLoads(log: seq<Command>, c: Command, known: string -> bool, loadTruncated: bool)
    requires Loadable(log + [c], known) && c != [] && (c[0] == "EXEC" || c[0] == "DISCARD")
    ensures var file := EncodeAll(log + [c]);
      LoadResult(file, known, loadTruncated, true) == Loaded && Replay(file, known, false).ran == log + [c]
  {
    hide Replay, EncodeAll, LoadResult, LeavesOpen, Loadable;
    var all := log + [c];
    assert Closes(all[|log|]);
    MultiDoesNotClose(all[|log|]);
    LeavesOpenIff(all, false);
    assert forall i :: 0 <= i < |all| ==> !OpenedAt(all, i);
    LoadOfWhole(all, known);
  }

  /** A repaired file is cut no further: loading it again runs the same commands and leaves nothing over. */
  lemma RepairedFileIsWhole(log: seq<Command>, m: nat, known: string -> bool)
    requires Loadable(log, known) && 0 < m <= |EncodeAll(log)|
    ensures var file := EncodeAll(log)[..m]; var r := Replay(file, known, false);
      Replay(file[..|file| - |r.rest|], known, false) ==
      Replayed(r.ran, if LeavesOpen(r.ran, false) then UnexpectedEnd else EndOfFile, "")
  {
    hide EncodeAll, WholeInside, Replay, LeavesOpen;
    LoadOfPrefix(log, m, known);
    LoadOfWhole(log[..WholeInside(log, m)], known);
  }
}
