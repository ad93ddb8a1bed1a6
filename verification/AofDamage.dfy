/**
 * What loading makes of a file that goes wrong: whatever follows a log, and the ways in
 * which it can fail to be a command.
 */
module AofDamage {
  import opened AofLog
  import opened AofReplay

  /** Whatever follows a log, the log is run first and then what follows is read on its own. */
  lemma {:induction false} ReplayOfLogThen(log: seq<Command>, tail: string, known: string -> bool, multi: bool)
    requires Loadable(log, known)
    ensures var r := Replay(tail, known, LeavesOpen(log, multi));
      Replay(EncodeAll(log) + tail, known, multi) == Replayed(log + r.ran, r.stop, r.rest)
    decreases |log|
  {
    hide Encode, Replay, Encodable, MultiAfter;
    if log == [] {
      assert EncodeAll(log) + tail == tail;
    } else {
      var others := EncodeAll(log[1..]) + tail;
      assert EncodeAll(log) + tail == Encode(log[0]) + others;
      ReplayOfNext(log[0], others, known, multi);
      ReplayOfLogThen(log[1..], tail, known, MultiAfter(log[0], multi));
      assert log == [log[0]] + log[1..];
    }
  }

  // ---------------------------------------------------------------------
  // Bytes that are no command
  // ---------------------------------------------------------------------

  /** Bytes that are not, and cannot become, a command that runs. */
  ghost predicate Broken(tail: string, known: string -> bool) {
    || (tail != "" && tail[0] != '*')
    || (exists c, after :: UnknownCommand(tail, known, c, after))
    || (exists n, args, after :: BadArgument(tail, n, args, after))
    || (exists n, after :: BadCount(tail, n, after))
    || (|tail| >= 2 && tail[0] == '*' && IsJunk(tail[1]))
    || (exists s, after :: BrokenLine(tail, s, after))
  }

  /** A whole command of a name that is not in the command table. */
  predicate UnknownCommand(tail: string, known: string -> bool, c: Command, after: string) {
    Encodable(c) && !known(c[0]) && tail == Encode(c) + after
  }

  /** An argument, after any number of whole ones, that does not start with its mark. */
  predicate BadArgument(tail: string, n: nat, args: seq<string>, after: string) {
    ArgsFit(args) && |args| < n <= INT_MAX && after != "" && after[0] != '$'
    && tail == Line('*', n) + (EncodeArgs(args) + after)
  }

  /** A number of arguments that is zero or negative, or beyond the range of a long. */
  predicate BadCount(tail: string, n: nat, after: string) {
    && |Decimal(n)| <= 100
    && (|| tail == "*0\r\n" + after
        || (n <= INT_MAX && tail == "*-" + Decimal(n) + "\r\n" + after)
        || (n > LONG_MAX && (tail == Line('*', n) + after || tail == "*-" + Decimal(n) + "\r\n" + after)))
  }

  /** A character with which no number starts, not even after white space. */
  predicate IsJunk(c: char) {
    var x := c as int;
    !(x == 0 || 9 <= x <= 13 || x == 32 || x == 43 || x == 45 || 48 <= x <= 57)
  }

  /** A NUL right after the mark, in a line, or in 127 bytes without an end of line, that the file goes beyond. */
  predicate BrokenLine(tail: string, s: string, after: string) {
    && NoNewline(s)
    && (|| (|s| < 125 && tail == "*\0" + s + "\n" + after)
        || (|s| == 125 && tail == "*\0" + s + after))
  }

  lemma ReplayOfUnknown(tail: string, known: string -> bool, multi: bool, c: Command, after: string)
    requires UnknownCommand(tail, known, c, after)
    ensures Replay(tail, known, multi) == Replayed([], Fatal, tail)
  {
    hide Encode, ParseCommand, MultiAfter;
    WholeCommand(c, after);
  }

  lemma {:induction false} ArgsThenBad(args: seq<string>, n: nat, after: string)
    requires ArgsFit(args) && |args| < n && after != "" && after[0] != '$'
    ensures ParseArgs(EncodeArgs(args) + after, n) == FormatError
    decreases |args|
  {
    hide Bulk;
    if args == [] {
      assert EncodeArgs(args) + after == after;
    } else {
      var others := EncodeArgs(args[1..]) + after;
      assert EncodeArgs(args) + after == Bulk(args[0]) + others;
      WholeBulk(args[0], others);
      ArgsThenBad(args[1..], n - 1, after);
    }
  }

  lemma BadArgumentIsFatal(tail: string, n: nat, args: seq<string>, after: string)
    requires BadArgument(tail, n, args, after)
    ensures ParseCommand(tail) == FormatError
  {
    hide ParseCommand, ParseArgs, EncodeArgs, Line;
    HeaderThenArgs(0, n, EncodeArgs(args) + after);
    ArgsThenBad(args, n, after);
  }

  lemma StrtolOfNegative(n: nat, t: string)
    requires t == "" || !IsDigit(t[0])
    ensures Strtol("-" + Decimal(n) + t) == if n > LONG_MAX then -LONG_MAX - 1 else 0 - n
  {
    var d := Decimal(n);
    DecimalIsDigits(n);
    DigitsOfDecimal(n);
    var text := "-" + d + t;
    assert text[0] == '-' && SkipSpace(text) == text;
    assert text[1..] == d + t;
    DigitsAppend(d, t, 0);
  }

  lemma StrtolOfHuge(n: nat, t: string)
    requires n > LONG_MAX && (t == "" || !IsDigit(t[0]))
    ensures Strtol(Decimal(n) + t) == LONG_MAX
  {
    var d := Decimal(n);
    DecimalIsDigits(n);
    DigitsOfDecimal(n);
    var text := d + t;
    assert IsDigit(text[0]) && SkipSpace(text) == text;
    DigitsAppend(d, t, 0);
  }

  /** The count of a command is what strtol makes of the text after its mark. */
  lemma CountIs(number: string, after: string)
    requires number != "" && number[0] != '\0' && NoNewline(number) && |number| <= 120
    ensures var argc := ToInt(Strtol(number + "\r\n"));
            ParseCommand("*" + number + "\r\n" + after) == if argc < 1 then FormatError else ParseArgs(after, argc)
  {
    hide LineLength, Strtol, ToInt, ParseArgs, HitsEnd;
    var s := "*" + number + "\r";
    var tail := "*" + number + "\r\n" + after;
    assert tail == s + "\n" + after;
    LineEnds(s, after, MAX_LINE);
    var k := |s| + 1;
    assert tail[1..k] == number + "\r\n";
    assert tail[k..] == after;
    assert tail[0] == '*' && tail[1] == number[0];
  }

  lemma BadCountIsFatal(tail: string, n: nat, after: string)
    requires BadCount(tail, n, after)
    ensures ParseCommand(tail) == FormatError
  {
    hide LineLength, Decimal, ParseArgs, HitsEnd, ParseCommand, Strtol;
    var d := Decimal(n);
    DecimalIsDigits(n);
    if tail == "*0\r\n" + after {
      NoArguments(after);
    } else if tail == "*-" + d + "\r\n" + after {
      StrtolOfNegative(n, "\r\n");
      CountIs("-" + d, after);
      assert tail == "*" + ("-" + d) + "\r\n" + after;
    } else {
      StrtolOfHuge(n, "\r\n");
      CountIs(d, after);
      assert tail == "*" + d + "\r\n" + after;
    }
  }

  /** White space other than an end of line. */
  predicate IsBlank(s: string) {
    forall i :: 0 <= i < |s| ==> s[i] == ' ' || s[i] == '\t' || s[i] as int == 11 || s[i] as int == 12 || s[i] == '\r'
  }

  lemma {:induction false} SpaceIsSkipped(blank: string, text: string)
    requires IsBlank(blank) && text != "" && !IsSpace(text[0])
    ensures SkipSpace(blank + text) == text
  {
    if blank == "" {
      assert blank + text == text;
    } else {
      assert (blank + text)[1..] == blank[1..] + text;
      SpaceIsSkipped(blank[1..], text);
    }
  }

  lemma StrtolOfSigned(n: nat, t: string)
    requires n <= LONG_MAX && (t == "" || !IsDigit(t[0]))
    ensures Strtol("+" + Decimal(n) + t) == n
  {
    var d := Decimal(n);
    DecimalIsDigits(n);
    DigitsOfDecimal(n);
    var text := "+" + d + t;
    assert text[0] == '+' && SkipSpace(text) == text;
    assert text[1..] == d + t;
    DigitsAppend(d, t, 0);
  }

  /** The loader is more lenient than the writer: white space and a sign before the count change nothing. */
  lemma PaddedCountIsRead(blank: string, sign: string, n: nat, after: string)
    requires IsBlank(blank) && |blank| <= 90 && (sign == "" || sign == "+") && 1 <= n <= INT_MAX
    ensures ParseCommand("*" + (blank + (sign + Decimal(n))) + "\r\n" + after) == ParseArgs(after, n)
  {
    hide ParseCommand, ParseArgs, SkipSpace, Digits, Decimal;
    var d := Decimal(n);
    var text := sign + d + "\r\n";
    DecimalIsDigits(n);
    LongIsShort(n);
    DigitsOfDecimal(n);
    SpaceIsSkipped(blank, text);
    SpaceIsSkipped("", text);
    assert "" + text == text;
    assert Strtol(text) == n by {
      if sign == "" {
        assert text == d + "\r\n";
        StrtolOfDigits(d, "\r\n");
      } else {
        StrtolOfSigned(n, "\r\n");
      }
    }
    var number := blank + (sign + d);
    assert number + "\r\n" == blank + text;
    CountIs(number, after);
    IntOf(0, n);
  }

  lemma NoArguments(after: string)
    ensures ParseCommand("*0\r\n" + after) == FormatError
  {
    hide ParseCommand;
    assert Decimal(0) == "0";
    assert Line('*', 0) == "*0\r\n";
    HeaderThenArgs(0, 0, after);
  }

  lemma JunkIsFatal(tail: string)
    requires |tail| >= 2 && tail[0] == '*' && IsJunk(tail[1])
    ensures ParseCommand(tail) == FormatError
  {
    hide ParseArgs, HitsEnd;
    var k := LineLength(tail, MAX_LINE);
    assert k >= 2 by { assert LineLength(tail[1..], MAX_LINE - 1) >= 1; }
    var t := tail[1..k];
    assert t[0] == tail[1] && SkipSpace(t) == t;
    assert Digits(t, 0) == 0;
  }

  lemma {:induction false} LineFills(s: string, after: string, room: nat)
    requires NoNewline(s) && |s| == room
    ensures LineLength(s + after, room) == room
  {
    if s != "" {
      assert (s + after)[1..] == s[1..] + after;
      LineFills(s[1..], after, room - 1);
    }
  }

  lemma BrokenLineIsFatal(tail: string, s: string, after: string)
    requires BrokenLine(tail, s, after)
    ensures ParseCommand(tail) == ReadError
  {
    hide LineLength, Strtol, ParseArgs;
    var line := "*\0" + s;
    if |s| < 125 {
      assert tail == line + "\n" + after;
      LineEnds(line, after, MAX_LINE);
      assert tail[|line|] == '\n';
    } else {
      assert tail == line + after;
      LineFills(line, after, MAX_LINE);
    }
  }

  /** A NUL right after the mark in a line that the file ends in is an unexpected end. */
  lemma NulAtEndIsCut(s: string, known: string -> bool, multi: bool)
    requires NoNewline(s) && |s| < 125
    ensures Replay("*\0" + s, known, multi) == Replayed([], UnexpectedEnd, "*\0" + s)
  {
    hide LineLength, Strtol, ParseArgs;
    LineRunsOut("*\0" + s, MAX_LINE);
  }

  /** An argument with a negative length cannot be read from any file. */
  lemma NegativeLengthIsShort(n: nat, after: string)
    requires 1 <= n <= LONG_MAX && |after| <= LONG_MAX
    ensures ParseBulk("$-" + Decimal(n) + "\r\n" + after) == ShortRead
  {
    hide LineLength, Strtol, Decimal;
    var s := "$-" + Decimal(n) + "\r";
    var rest := "$-" + Decimal(n) + "\r\n" + after;
    assert rest == s + "\n" + after;
    DecimalIsDigits(n);
    LongIsShort(n);
    LineEnds(s, after, MAX_LINE);
    assert rest[1..|s| + 1] == "-" + Decimal(n) + "\r\n";
    StrtolOfNegative(n, "\r\n");
  }

  lemma ReplayOfBroken(tail: string, known: string -> bool, multi: bool)
    requires Broken(tail, known)
    ensures Replay(tail, known, multi) == Replayed([], Fatal, tail)
  {
    hide ParseCommand, UnknownCommand, BadArgument, BadCount, BrokenLine, MultiAfter;
    if c, after :| UnknownCommand(tail, known, c, after) {
      ReplayOfUnknown(tail, known, multi, c, after);
    } else if n, args, after :| BadArgument(tail, n, args, after) {
      BadArgumentIsFatal(tail, n, args, after);
    } else if n, after :| BadCount(tail, n, after) {
      BadCountIsFatal(tail, n, after);
    } else if s, after :| BrokenLine(tail, s, after) {
      BrokenLineIsFatal(tail, s, after);
    } else if tail != "" && tail[0] != '*' {
      NoMarkIsFatal(tail);
    } else {
      JunkIsFatal(tail);
    }
  }

  lemma NoMarkIsFatal(tail: string)
    requires tail != "" && tail[0] != '*'
    ensures ParseCommand(tail) == FormatError
  {
  }

  /**
   * A log followed by bytes that are no command: its commands are run, then the server exits
   * whatever its settings, and the file is left as it is.
   */
  lemma BrokenFileExits(log: seq<Command>, tail: string, known: string -> bool, loadTruncated: bool, cut: bool)
    requires Loadable(log, known) && Broken(tail, known)
    ensures var file := EncodeAll(log) + tail;
      && Replay(file, known, false) == Replayed(log, Fatal, tail)
      && !Cuts(file, known, loadTruncated)
      && (LoadResult(file, known, loadTruncated, cut) == Exit || (log == [] && "REDIS" <= tail))
  {
    hide Replay, Loadable, Broken, Encode;
    ReplayOfLogThen(log, tail, known, false);
    ReplayOfBroken(tail, known, LeavesOpen(log, false));
    assert log + [] == log;
    var file := EncodeAll(log) + tail;
    assert file != "" by { if log == [] { BrokenIsNotEmpty(tail, known); } else { EncodeIsNotEmpty(log[0]); } }
    if log == [] {
      assert file == tail;
    } else {
      EncodeIsNotEmpty(log[0]);
      assert file[0] == '*';
    }
    assert |file| >= 5 ==> file[..5][0] == file[0];
  }

  lemma BrokenIsNotEmpty(tail: string, known: string -> bool)
    requires Broken(tail, known)
    ensures tail != ""
  {
    hide Replay;
    ReplayOfBroken(tail, known, false);
    ReplayOfNothing(known, false);
  }
}
