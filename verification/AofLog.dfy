/**
 * The append only file as a log of commands: the RESP encoding written by
 * catAppendOnlyGenericCommand and the replay done by loadAppendOnlyFile,
 * including what happens when the last bytes of the file are missing.
 *
 * A file is a string whose characters are its bytes.
 */
module AofLog {
  type Command = seq<string>

  const INT_MAX := 0x7fff_ffff
  const LONG_MAX := 0x7fff_ffff_ffff_ffff
  /** fgets on the 128 byte buffer stores at most this many bytes. */
  const MAX_LINE := 127

  /** The ranges of the C types that hold argc and the length of an argument. */
  predicate Encodable(c: Command) {
    && 1 <= |c| <= INT_MAX
    && forall i :: 0 <= i < |c| ==> |c[i]| <= LONG_MAX
  }

  // ---------------------------------------------------------------------
  // Encoding
  // ---------------------------------------------------------------------

  function DigitChar(d: int): char
    requires 0 <= d < 10
  {
    ('0' as int + d) as char
  }

  predicate IsDigit(c: char) {
    '0' <= c <= '9'
  }

  /** ll2string of a non-negative number. */
  function Decimal(n: nat): string {
    if n < 10 then [DigitChar(n)] else Decimal(n / 10) + [DigitChar(n % 10)]
  }

  function Line(mark: char, n: nat): string {
    [mark] + Decimal(n) + "\r\n"
  }

  function Bulk(arg: string): string {
    Line('$', |arg|) + arg + "\r\n"
  }

  function EncodeArgs(args: seq<string>): string {
    if args == [] then "" else Bulk(args[0]) + EncodeArgs(args[1..])
  }

  function Encode(c: Command): string {
    Line('*', |c|) + EncodeArgs(c)
  }

  function EncodeAll(log: seq<Command>): string {
    if log == [] then "" else Encode(log[0]) + EncodeAll(log[1..])
  }

  lemma {:induction false} EncodeArgsSnoc(args: seq<string>, last: string)
    ensures EncodeArgs(args + [last]) == EncodeArgs(args) + Bulk(last)
  {
    if args == [] {
      assert args + [last] == [last];
      assert EncodeArgs([last]) == Bulk(last) + EncodeArgs([]);
    } else {
      assert (args + [last])[1..] == args[1..] + [last];
      EncodeArgsSnoc(args[1..], last);
    }
  }

  lemma EmptyArgs()
    ensures EncodeArgs([]) == ""
  {
  }

  lemma AppendBulk(dst: string, head: string, args: string, arg: string)
    ensures dst + (head + args) + Line('$', |arg|) + arg + "\r\n" == dst + (head + (args + Bulk(arg)))
  {
    hide Line;
  }

  /** catAppendOnlyGenericCommand. */
  method CatAppendOnlyGenericCommand(dst: string, argv: Command) returns (r: string)
    ensures r == dst + Encode(argv)
  {
    hide Line, Bulk, EncodeArgs;
    r := dst + Line('*', |argv|);
    assert argv[..0] == [] && EncodeArgs([]) == "" by { EmptyArgs(); }
    for j := 0 to |argv|
      invariant r == dst + (Line('*', |argv|) + EncodeArgs(argv[..j]))
    {
      EncodeArgsSnoc(argv[..j], argv[j]);
      assert argv[..j + 1] == argv[..j] + [argv[j]];
      AppendBulk(dst, Line('*', |argv|), EncodeArgs(argv[..j]), argv[j]);
      r := r + Line('$', |argv[j]|);
      r := r + argv[j];
      r := r + "\r\n";
    }
    assert argv[..|argv|] == argv;
  }

  // ---------------------------------------------------------------------
  // The C library calls used by the loader
  // ---------------------------------------------------------------------

  /** How many bytes fgets takes from what is left of the file. */
  function LineLength(rest: string, room: nat): (k: nat)
    ensures k <= |rest| && k <= room
    ensures rest != "" && room > 0 ==> k > 0
  {
    if rest == "" || room == 0 then 0
    else if rest[0] == '\n' then 1
    else 1 + LineLength(rest[1..], room - 1)
  }

  /** Whether that fgets also met the end of the file, so that feof holds afterwards. */
  predicate HitsEnd(rest: string) {
    var k := LineLength(rest, MAX_LINE);
    k == |rest| && k < MAX_LINE && (k == 0 || rest[k - 1] != '\n')
  }

  predicate IsSpace(c: char) {
    c == ' ' || '\t' <= c <= '\r'
  }

  function SkipSpace(s: string): string {
    if s != "" && IsSpace(s[0]) then SkipSpace(s[1..]) else s
  }

  function Digits(s: string, acc: nat): nat {
    if s == "" || !IsDigit(s[0]) then acc
    else Digits(s[1..], acc * 10 + (s[0] as int - '0' as int))
  }

  /** strtol in base ten, which saturates. */
  function Strtol(s: string): int {
    var t := SkipSpace(s);
    var negative := t != "" && t[0] == '-';
    var signed := negative || (t != "" && t[0] == '+');
    var n := Digits(if signed then t[1..] else t, 0);
    if negative then (if n > LONG_MAX then -LONG_MAX - 1 else 0 - n)
    else if n > LONG_MAX then LONG_MAX else n
  }

  function ToInt(x: int): int {
    var low := x % (2 * (INT_MAX + 1));
    if low > INT_MAX then low - 2 * (INT_MAX + 1) else low
  }

  function ToUnsignedLong(x: int): nat {
    x % (2 * (LONG_MAX + 1))
  }

  // ---------------------------------------------------------------------
  // Replay of one command and of the whole file
  // ---------------------------------------------------------------------

  datatype Parsed =
    | AtEnd
    | Got(args: seq<string>, rest: string)
    | ShortRead      // a failed read with feof set
    | ReadError      // a failed read with feof clear
    | FormatError

  function ParseBulk(rest: string): (p: Parsed)
    ensures p.Got? ==> |p.args| == 1 && |p.rest| < |rest|
    ensures !p.AtEnd? && !p.ReadError?
  {
    if rest == "" then ShortRead
    else if rest[0] != '$' then FormatError
    else
      var k := LineLength(rest, MAX_LINE);
      var len := ToUnsignedLong(Strtol(rest[1..k]));
      if |rest| - k < len then ShortRead
      else if |rest| - k - len < 2 then ShortRead
      else Got([rest[k..k + len]], rest[k + len + 2..])
  }

  function ParseArgs(rest: string, count: nat): (p: Parsed)
    ensures p.Got? ==> |p.args| == count && |p.rest| <= |rest|
    ensures !p.AtEnd? && !p.ReadError?
  {
    if count == 0 then Got([], rest)
    else
      var first := ParseBulk(rest);
      if !first.Got? then first
      else
        var others := ParseArgs(first.rest, count - 1);
        if !others.Got? then others else Got(first.args + others.args, others.rest)
  }

  function ParseCommand(rest: string): (p: Parsed)
    ensures p.Got? ==> |p.args| > 0 && |p.rest| < |rest|
  {
    if rest == "" then AtEnd
    else if rest[0] != '*' then FormatError
    else
      var k := LineLength(rest, MAX_LINE);
      if k == 1 || rest[1] == '\0' then (if HitsEnd(rest) then ShortRead else ReadError)
      else
        var argc := ToInt(Strtol(rest[1..k]));
        if argc < 1 then FormatError else ParseArgs(rest[k..], argc)
  }

  datatype Stop = EndOfFile | UnexpectedEnd | Fatal

  function Lower(c: char): char {
    if 'A' <= c <= 'Z' then c - 'A' + 'a' else c
  }

  /** Command names are looked up without regard to case; `name` is in lower case. */
  predicate IsNamed(c: Command, name: string) {
    c != [] && |c[0]| == |name| && forall i :: 0 <= i < |name| ==> Lower(c[0][i]) == name[i]
  }

  predicate Closes(c: Command) {
    IsNamed(c, "exec") || IsNamed(c, "discard")
  }

  /** The flag CLIENT_MULTI of the fake client after a command; the loader runs every command at once. */
  function MultiAfter(c: Command, multi: bool): bool {
    if IsNamed(c, "multi") then true else if Closes(c) then false else multi
  }

  /** The commands run, why the loop stopped, and the bytes after the last command run. */
  datatype Replayed = Replayed(ran: seq<Command>, stop: Stop, rest: string)

  /** The file ends well only outside a transaction. */
  function Replay(rest: string, known: string -> bool, multi: bool): (r: Replayed)
    ensures |r.rest| <= |rest|
    decreases |rest|
  {
    match ParseCommand(rest)
    case AtEnd => Replayed([], if multi then UnexpectedEnd else EndOfFile, rest)
    case ShortRead => Replayed([], UnexpectedEnd, rest)
    case ReadError => Replayed([], Fatal, rest)
    case FormatError => Replayed([], Fatal, rest)
    case Got(argv, after) =>
      if !known(argv[0]) then Replayed([], Fatal, rest)
      else var r := Replay(after, known, MultiAfter(argv, multi)); Replayed([argv] + r.ran, r.stop, r.rest)
  }

  /** LoadedEmpty is the C_ERR return for a file of zero bytes; Exit ends the server. */
  datatype Result = LoadedEmpty | Loaded | Exit | HasPreamble

  /** The inner loop over the arguments of one command; the file is what is left to read. */
  method ReadArgs(file: string, argc: nat) returns (p: Parsed)
    ensures p == ParseArgs(file, argc)
  {
    var argv: seq<string>, rest := [], file;
    for j := 0 to argc
      invariant ParseArgs(file, argc) == Prepend(argv, ParseArgs(rest, argc - j))
    {
      var bulk := ParseBulk(rest);
      if !bulk.Got? { return bulk; }
      PrependPrepend(argv, bulk.args, ParseArgs(bulk.rest, argc - j - 1));
      argv, rest := argv + bulk.args, bulk.rest;
    }
    return Got(argv, rest);
  }

  function Prepend(args: seq<string>, p: Parsed): Parsed {
    if p.Got? then Got(args + p.args, p.rest) else p
  }

  lemma PrependPrepend(a: seq<string>, b: seq<string>, p: Parsed)
    ensures Prepend(a, Prepend(b, p)) == Prepend(a + b, p)
  {
    if p.Got? { assert a + (b + p.args) == a + b + p.args; }
  }

  lemma PreambleIsNoCommand(file: string, known: string -> bool)
    requires |file| >= 5 && file[..5] == "REDIS"
    ensures Replay(file, known, false).stop == Fatal
  {
    assert file[..5][0] == file[0];
  }

  /**
   * loadAppendOnlyFile. The file as it is afterwards differs from the file read
   * only when an incomplete tail was cut off. The two flags say whether truncate
   * and the seek after it succeed.
   */
  method Load(file: string, known: string -> bool, loadTruncated: bool, truncates: bool, seeks: bool)
    returns (result: Result, ran: seq<Command>, validUpTo: nat, after: string)
    ensures result == LoadResult(file, known, loadTruncated, truncates && seeks)
    ensures result != LoadedEmpty && result != HasPreamble ==>
      && ran == Replay(file, known, false).ran
      && validUpTo == if loadTruncated then |file| - |Replay(file, known, false).rest| else 0
    ensures after == if Cuts(file, known, loadTruncated) && truncates then file[..validUpTo] else file
  {
    hide ParseCommand, MultiAfter;
    ran, validUpTo, after := [], 0, file;
    if file == "" { return LoadedEmpty, ran, validUpTo, after; }
    if |file| >= 5 && file[..5] == "REDIS" {
      PreambleIsNoCommand(file, known);
      return HasPreamble, ran, validUpTo, after;
    }
    var rest, stop, multi := file, EndOfFile, false;
    ghost var whole := Replay(file, known, false);
    while true
      invariant |rest| <= |file|
      invariant validUpTo == if loadTruncated then |file| - |rest| else 0
      invariant var r := Replay(rest, known, multi);
        whole == Replayed(ran + r.ran, r.stop, r.rest)
      decreases |rest|
    {
      var p := ParseCommand(rest);
      if p.AtEnd? {
        if multi { stop := UnexpectedEnd; }
        break;
      }
      if p.ShortRead? { stop := UnexpectedEnd; break; }
      if !p.Got? { stop := Fatal; break; }
      if !known(p.args[0]) { stop := Fatal; break; }
      ghost var r := Replay(p.rest, known, MultiAfter(p.args, multi));
      assert ran + ([p.args] + r.ran) == ran + [p.args] + r.ran;
      ran := ran + [p.args];
      multi := MultiAfter(p.args, multi);
      rest := p.rest;
      if loadTruncated { validUpTo := |file| - |rest|; }
    }
    if stop == EndOfFile { return Loaded, ran, validUpTo, after; }
    if stop == Fatal || !loadTruncated { return Exit, ran, validUpTo, after; }
    if !truncates { return Exit, ran, validUpTo, after; }
    after := file[..validUpTo];
    result := if seeks then Loaded else Exit;
  }

  /** The file ends inside a command or a transaction and the server is set to accept that. */
  predicate Cuts(file: string, known: string -> bool, loadTruncated: bool) {
    file != "" && loadTruncated && Replay(file, known, false).stop == UnexpectedEnd
  }

  function LoadResult(file: string, known: string -> bool, loadTruncated: bool, cut: bool): Result {
    if file == "" then LoadedEmpty
    else if |file| >= 5 && file[..5] == "REDIS" then HasPreamble
    else match Replay(file, known, false).stop
      case EndOfFile => Loaded
      case UnexpectedEnd => if loadTruncated && cut then Loaded else Exit
      case Fatal => Exit
  }
}
