/**
 * The kernel of BITOP: as long as all sources have data the operation runs on four
 * words at a time, and byte by byte after that; a source that is shorter than the
 * longest one, or missing, counts as filled up with zeros.
 */
module Bitop {
  import opened Prelude
  import opened Octets
  import opened Bitpos

  datatype Op = And | Or | Xor | Not

  // ---------------------------------------------------------------------
  // The plain definition
  // ---------------------------------------------------------------------

  function And8(a: bv8, b: bv8): bv8 { a & b }

  function Or8(a: bv8, b: bv8): bv8 { a | b }

  function Xor8(a: bv8, b: bv8): bv8 { a ^ b }

  function Not8(a: bv8): bv8 { !a }

  function And64(a: bv64, b: bv64): bv64 { a & b }

  function Or64(a: bv64, b: bv64): bv64 { a | b }

  function Xor64(a: bv64, b: bv64): bv64 { a ^ b }

  function Not64(a: bv64): bv64 { !a }

  function Combine(op: Op, a: bv8, b: bv8): bv8 {
    match op
    case And => And8(a, b)
    case Or => Or8(a, b)
    case Xor => Xor8(a, b)
    case Not => a
  }

  function Text(source: Option<Bytes>): Bytes {
    if source.Some? then source.value else []
  }

  /** The byte of a source, zero past its end. */
  function ByteAt(source: Option<Bytes>, j: nat): bv8 {
    if j < |Text(source)| then Text(source)[j] else 0
  }

  /** The operation on byte j of the first n sources. */
  function Folded(op: Op, sources: seq<Option<Bytes>>, n: nat, j: nat): bv8
    requires 1 <= n <= |sources|
  {
    if n == 1 then (if op == Not then Not8(ByteAt(sources[0], j)) else ByteAt(sources[0], j))
    else Combine(op, Folded(op, sources, n - 1, j), ByteAt(sources[n - 1], j))
  }

  // ---------------------------------------------------------------------
  // Words
  // ---------------------------------------------------------------------

  function CombineWords(op: Op, a: bv64, b: bv64): bv64 {
    match op
    case And => And64(a, b)
    case Or => Or64(a, b)
    case Xor => Xor64(a, b)
    case Not => Not64(a)
  }

  /** Writing a word to memory, in the byte order of the machine. */
  function Store(w: bv64, bigEndian: bool): Bytes {
    if bigEndian then
      [ByteOf(w, 56), ByteOf(w, 48), ByteOf(w, 40), ByteOf(w, 32),
       ByteOf(w, 24), ByteOf(w, 16), ByteOf(w, 8), ByteOf(w, 0)]
    else
      [ByteOf(w, 0), ByteOf(w, 8), ByteOf(w, 16), ByteOf(w, 24),
       ByteOf(w, 32), ByteOf(w, 40), ByteOf(w, 48), ByteOf(w, 56)]
  }

  /** What one word operation does to one of its bytes. */
  function CombineInWord(op: Op, a: bv8, b: bv8): bv8 {
    if op == Not then Not8(a) else Combine(op, a, b)
  }

  lemma BytesOfJoin(b0: bv8, b1: bv8, b2: bv8, b3: bv8, b4: bv8, b5: bv8, b6: bv8, b7: bv8)
    ensures var w := Join(b0, b1, b2, b3, b4, b5, b6, b7);
      && ByteOf(w, 56) == b0 && ByteOf(w, 48) == b1 && ByteOf(w, 40) == b2 && ByteOf(w, 32) == b3
      && ByteOf(w, 24) == b4 && ByteOf(w, 16) == b5 && ByteOf(w, 8) == b6 && ByteOf(w, 0) == b7
  {
  }

  lemma JoinOfAnd(a0: bv8, a1: bv8, a2: bv8, a3: bv8, a4: bv8, a5: bv8, a6: bv8, a7: bv8,
    b0: bv8, b1: bv8, b2: bv8, b3: bv8, b4: bv8, b5: bv8, b6: bv8, b7: bv8)
    ensures And64(Join(a0, a1, a2, a3, a4, a5, a6, a7), Join(b0, b1, b2, b3, b4, b5, b6, b7)) ==
      Join(And8(a0, b0), And8(a1, b1), And8(a2, b2), And8(a3, b3),
           And8(a4, b4), And8(a5, b5), And8(a6, b6), And8(a7, b7))
  {
  }

  lemma JoinOfOr(a0: bv8, a1: bv8, a2: bv8, a3: bv8, a4: bv8, a5: bv8, a6: bv8, a7: bv8,
    b0: bv8, b1: bv8, b2: bv8, b3: bv8, b4: bv8, b5: bv8, b6: bv8, b7: bv8)
    ensures Or64(Join(a0, a1, a2, a3, a4, a5, a6, a7), Join(b0, b1, b2, b3, b4, b5, b6, b7)) ==
      Join(Or8(a0, b0), Or8(a1, b1), Or8(a2, b2), Or8(a3, b3),
           Or8(a4, b4), Or8(a5, b5), Or8(a6, b6), Or8(a7, b7))
  {
  }

  lemma JoinOfXor(a0: bv8, a1: bv8, a2: bv8, a3: bv8, a4: bv8, a5: bv8, a6: bv8, a7: bv8,
    b0: bv8, b1: bv8, b2: bv8, b3: bv8, b4: bv8, b5: bv8, b6: bv8, b7: bv8)
    ensures Xor64(Join(a0, a1, a2, a3, a4, a5, a6, a7), Join(b0, b1, b2, b3, b4, b5, b6, b7)) ==
      Join(Xor8(a0, b0), Xor8(a1, b1), Xor8(a2, b2), Xor8(a3, b3),
           Xor8(a4, b4), Xor8(a5, b5), Xor8(a6, b6), Xor8(a7, b7))
  {
  }

  lemma NotIsXor8(a: bv8)
    ensures Not8(a) == Xor8(a, 0xff)
  {
  }

  lemma NotIsXor64(a: bv64)
    ensures Not64(a) == Xor64(a, Join(0xff, 0xff, 0xff, 0xff, 0xff, 0xff, 0xff, 0xff))
  {
  }

  lemma JoinOfNot(a0: bv8, a1: bv8, a2: bv8, a3: bv8, a4: bv8, a5: bv8, a6: bv8, a7: bv8)
    ensures Not64(Join(a0, a1, a2, a3, a4, a5, a6, a7)) ==
      Join(Not8(a0), Not8(a1), Not8(a2), Not8(a3), Not8(a4), Not8(a5), Not8(a6), Not8(a7))
  {
    hide Join, Not8, Not64, Xor8, Xor64;
    NotIsXor64(Join(a0, a1, a2, a3, a4, a5, a6, a7));
    NotIsXor8(a0); NotIsXor8(a1); NotIsXor8(a2); NotIsXor8(a3);
    NotIsXor8(a4); NotIsXor8(a5); NotIsXor8(a6); NotIsXor8(a7);
    JoinOfXor(a0, a1, a2, a3, a4, a5, a6, a7, 0xff, 0xff, 0xff, 0xff, 0xff, 0xff, 0xff, 0xff);
  }

  lemma JoinCombined(op: Op, a0: bv8, a1: bv8, a2: bv8, a3: bv8, a4: bv8, a5: bv8, a6: bv8, a7: bv8,
    b0: bv8, b1: bv8, b2: bv8, b3: bv8, b4: bv8, b5: bv8, b6: bv8, b7: bv8)
    ensures CombineWords(op, Join(a0, a1, a2, a3, a4, a5, a6, a7), Join(b0, b1, b2, b3, b4, b5, b6, b7)) ==
      Join(CombineInWord(op, a0, b0), CombineInWord(op, a1, b1), CombineInWord(op, a2, b2), CombineInWord(op, a3, b3),
           CombineInWord(op, a4, b4), CombineInWord(op, a5, b5), CombineInWord(op, a6, b6), CombineInWord(op, a7, b7))
  {
    hide Join, And8, Or8, Xor8, Not8, And64, Or64, Xor64, Not64;
    match op
    case And => JoinOfAnd(a0, a1, a2, a3, a4, a5, a6, a7, b0, b1, b2, b3, b4, b5, b6, b7);
    case Or => JoinOfOr(a0, a1, a2, a3, a4, a5, a6, a7, b0, b1, b2, b3, b4, b5, b6, b7);
    case Xor => JoinOfXor(a0, a1, a2, a3, a4, a5, a6, a7, b0, b1, b2, b3, b4, b5, b6, b7);
    case Not => JoinOfNot(a0, a1, a2, a3, a4, a5, a6, a7);
  }

  /** The bytes of two strings combined one by one. */
  function Bytewise(op: Op, a: Bytes, b: Bytes): (c: Bytes)
    requires |a| == |b|
    ensures |c| == |a|
  {
    seq(|a|, k requires 0 <= k < |a| => CombineInWord(op, a[k], b[k]))
  }

  /** A word operation does the same to each of the eight bytes, in either byte order. */
  lemma LoadIsBytes(op: Op, a: Bytes, b: Bytes, bigEndian: bool)
    requires |a| == 8 && |b| == 8
    ensures CombineWords(op, Load(a, bigEndian), Load(b, bigEndian)) == Load(Bytewise(op, a, b), bigEndian)
  {
    hide Join, CombineWords, CombineInWord;
    JoinCombined(op, a[0], a[1], a[2], a[3], a[4], a[5], a[6], a[7], b[0], b[1], b[2], b[3], b[4], b[5], b[6], b[7]);
    JoinCombined(op, a[7], a[6], a[5], a[4], a[3], a[2], a[1], a[0], b[7], b[6], b[5], b[4], b[3], b[2], b[1], b[0]);
  }

  lemma StoreOfLoad(c: Bytes, bigEndian: bool)
    requires |c| == 8
    ensures Store(Load(c, bigEndian), bigEndian) == c
  {
    hide Join, ByteOf;
    BytesOfJoin(c[0], c[1], c[2], c[3], c[4], c[5], c[6], c[7]);
    BytesOfJoin(c[7], c[6], c[5], c[4], c[3], c[2], c[1], c[0]);
  }

  // ---------------------------------------------------------------------
  // The fast path
  // ---------------------------------------------------------------------

  /** The buffer after eight or more of its bytes were combined with those of a source. */
  predicate CombinedFrom(op: Op, before: Bytes, after: Bytes, source: Bytes, lo: nat, hi: nat)
    requires lo <= hi <= |before| && hi <= |source|
  {
    && |after| == |before|
    && (forall i :: 0 <= i < |before| && !(lo <= i < hi) ==> after[i] == before[i])
    && (forall i :: lo <= i < hi ==> after[i] == CombineInWord(op, before[i], source[i]))
  }

  /** One word of the unrolled loop. */
  method CombineWord(op: Op, res: array<bv8>, at: nat, source: Bytes, bigEndian: bool)
    requires at + 8 <= res.Length && at + 8 <= |source|
    modifies res
    ensures CombinedFrom(op, old(res[..]), res[..], source, at, at + 8)
  {
    hide CombineInWord, CombineWords, Load, Store;
    var a, b := res[at..at + 8], source[at..at + 8];
    var word := CombineWords(op, Load(a, bigEndian), Load(b, bigEndian));
    LoadIsBytes(op, a, b, bigEndian);
    StoreOfLoad(Bytewise(op, a, b), bigEndian);
    var bytes := Store(word, bigEndian);
    forall k | 0 <= k < 8 {
      res[at + k] := bytes[k];
    }
    assert forall i :: at <= i < at + 8 ==>
      res[i] == bytes[i - at] && a[i - at] == old(res[i]) && b[i - at] == source[i];
  }

  /** The unrolled body: four words. */
  method CombineFour(op: Op, res: array<bv8>, at: nat, source: Bytes, bigEndian: bool)
    requires at + 32 <= res.Length && at + 32 <= |source|
    modifies res
    ensures CombinedFrom(op, old(res[..]), res[..], source, at, at + 32)
  {
    hide CombineInWord;
    CombineWord(op, res, at, source, bigEndian);
    CombineWord(op, res, at + 8, source, bigEndian);
    CombineWord(op, res, at + 16, source, bigEndian);
    CombineWord(op, res, at + 24, source, bigEndian);
  }

  predicate AllReach(sources: seq<Option<Bytes>>, n: nat) {
    forall i :: 0 <= i < |sources| ==> |Text(sources[i])| >= n
  }

  /** Bytes lo to hi of the buffer hold the operation on the first n sources. */
  predicate HoldsFold(op: Op, sources: seq<Option<Bytes>>, n: nat, res: Bytes, lo: nat, hi: nat)
    requires 1 <= n <= |sources| && lo <= hi <= |res|
  {
    forall b :: lo <= b < hi ==> res[b] == Folded(op, sources, n, b)
  }

  predicate SameBut(before: Bytes, after: Bytes, lo: nat, hi: nat) {
    |after| == |before| && forall i :: 0 <= i < |before| && !(lo <= i < hi) ==> after[i] == before[i]
  }

  /** Combining a block with one more source. */
  lemma FoldOne(op: Op, sources: seq<Option<Bytes>>, n: nat, before: Bytes, after: Bytes, lo: nat, hi: nat)
    requires op != Not && 1 <= n < |sources| && lo <= hi <= |before| && hi <= |Text(sources[n])|
    requires HoldsFold(op, sources, n, before, lo, hi)
    requires CombinedFrom(op, before, after, Text(sources[n]), lo, hi)
    ensures HoldsFold(op, sources, n + 1, after, lo, hi)
  {
    hide Combine;
  }

  /** All four words of a block, for all sources. */
  method CombineBlock(op: Op, sources: seq<Option<Bytes>>, res: array<bv8>, at: nat, bigEndian: bool)
    requires 1 <= |sources| && (op == Not ==> |sources| == 1)
    requires at + 32 <= res.Length && AllReach(sources, at + 32)
    requires forall b :: at <= b < at + 32 ==> res[b] == ByteAt(sources[0], b)
    modifies res
    ensures HoldsFold(op, sources, |sources|, res[..], at, at + 32)
    ensures SameBut(old(res[..]), res[..], at, at + 32)
  {
    hide Combine, Not8;
    if op == Not {
      CombineFour(op, res, at, Text(sources[0]), bigEndian);
    } else {
      for i := 1 to |sources|
        invariant HoldsFold(op, sources, i, res[..], at, at + 32)
        invariant SameBut(old(res[..]), res[..], at, at + 32)
      {
        ghost var before := res[..];
        CombineFour(op, res, at, Text(sources[i]), bigEndian);
        FoldOne(op, sources, i, before, res[..], at, at + 32);
      }
    }
  }

  /** The loops over words; returns the next byte to process. */
  method FastPath(op: Op, sources: seq<Option<Bytes>>, res: array<bv8>, minlen: nat, bigEndian: bool) returns (j: nat)
    requires |sources| <= 16   // the array of pointers has 16 entries
    requires 1 <= |sources| && (op == Not ==> |sources| == 1)
    requires minlen <= res.Length && AllReach(sources, minlen)
    modifies res
    ensures j <= minlen && HoldsFold(op, sources, |sources|, res[..], 0, j)
  {
    hide Folded;
    var first := Text(sources[0]);
    forall i | 0 <= i < minlen {
      res[i] := first[i];
    }
    var left := minlen;
    j := 0;
    while left >= 32
      invariant j + left == minlen
      invariant HoldsFold(op, sources, |sources|, res[..], 0, j)
      invariant forall b :: j <= b < minlen ==> res[b] == first[b]
    {
      ghost var before := res[..];
      CombineBlock(op, sources, res, j, bigEndian);
      assert forall b :: 0 <= b < j ==> res[..][b] == before[b];
      assert forall b :: j + 32 <= b < minlen ==> res[..][b] == before[b];
      j := j + 32;
      left := left - 32;
    }
  }

  /** The byte loop, for what the words left over. */
  method SlowPath(op: Op, sources: seq<Option<Bytes>>, res: array<bv8>, start: nat)
    requires 1 <= |sources| && (op == Not ==> |sources| == 1)
    requires start <= res.Length && HoldsFold(op, sources, |sources|, res[..], 0, start)
    modifies res
    ensures HoldsFold(op, sources, |sources|, res[..], 0, res.Length)
  {
    hide Combine, Not8, ByteAt;
    for j := start to res.Length
      invariant HoldsFold(op, sources, |sources|, res[..], 0, j)
    {
      var output := ByteAt(sources[0], j);
      if op == Not { output := Not8(output); }
      for i := 1 to |sources|
        invariant output == Folded(op, sources, i, j)
      {
        output := Combine(op, output, ByteAt(sources[i], j));
      }
      ghost var before := res[..];
      res[j] := output;
      assert forall b :: 0 <= b < j ==> res[..][b] == before[b];
    }
  }

  /** The lengths of the longest and the shortest source; a missing source makes the shortest zero. */
  method Lengths(sources: seq<Option<Bytes>>) returns (minlen: nat, maxlen: nat)
    ensures AllReach(sources, minlen)
    ensures forall i :: 0 <= i < |sources| ==> |Text(sources[i])| <= maxlen
    ensures maxlen == 0 || exists i :: 0 <= i < |sources| && |Text(sources[i])| == maxlen
    ensures sources != [] ==> exists i :: 0 <= i < |sources| && |Text(sources[i])| == minlen
  {
    minlen, maxlen := 0, 0;
    ghost var longest, shortest := 0, 0;
    for j := 0 to |sources|
      invariant forall i :: 0 <= i < j ==> minlen <= |Text(sources[i])| <= maxlen
      invariant maxlen == 0 || (0 <= longest < j && |Text(sources[longest])| == maxlen)
      invariant j > 0 ==> 0 <= shortest < j && |Text(sources[shortest])| == minlen
    {
      if sources[j].None? {
        minlen, shortest := 0, j;
      } else {
        var len := |sources[j].value|;
        if len > maxlen { maxlen, longest := len, j; }
        if j == 0 || len < minlen { minlen, shortest := len, j; }
      }
    }
  }

  /**
   * The kernel of bitopCommand: the bytes to store, or None when NOT is given more than
   * one source. An empty result deletes the target key.
   */
  method BitopKernel(op: Op, sources: seq<Option<Bytes>>, bigEndian: bool) returns (r: Option<Bytes>)
    requires |sources| >= 1
    ensures r.None? <==> op == Not && |sources| != 1
    ensures r.Some? ==> forall i :: 0 <= i < |sources| ==> |Text(sources[i])| <= |r.value|
    ensures r.Some? ==> r.value == [] || exists i :: 0 <= i < |sources| && |Text(sources[i])| == |r.value|
    ensures r.Some? ==> HoldsFold(op, sources, |sources|, r.value, 0, |r.value|)
  {
    hide Folded;
    if op == Not && |sources| != 1 { return None; }
    var minlen, maxlen := Lengths(sources);
    if maxlen == 0 { return Some([]); }
    assert minlen <= |Text(sources[0])|;
    var res := new bv8[maxlen](i => 0);
    var j := 0;
    if minlen >= 32 && |sources| <= 16 {
      j := FastPath(op, sources, res, minlen, bigEndian);
    }
    SlowPath(op, sources, res, j);
    r := Some(res[..]);
  }

  // ---------------------------------------------------------------------
  // What the result means, bit by bit
  // ---------------------------------------------------------------------

  lemma BitOfAnd(a: bv8, b: bv8, k: int)
    requires 0 <= k < 8
    ensures ByteBit(And8(a, b), k) <==> ByteBit(a, k) && ByteBit(b, k)
  {
  }

  lemma BitOfOr(a: bv8, b: bv8, k: int)
    requires 0 <= k < 8
    ensures ByteBit(Or8(a, b), k) <==> ByteBit(a, k) || ByteBit(b, k)
  {
  }

  lemma BitOfXor(a: bv8, b: bv8, k: int)
    requires 0 <= k < 8
    ensures ByteBit(Xor8(a, b), k) <==> ByteBit(a, k) != ByteBit(b, k)
  {
  }

  lemma BitOfNot(a: bv8, k: int)
    requires 0 <= k < 8
    ensures ByteBit(Not8(a), k) <==> !ByteBit(a, k)
  {
  }

  /** How many of the first n sources have a bit set. */
  function Having(sources: seq<Option<Bytes>>, n: nat, j: nat, k: int): nat
    requires n <= |sources| && 0 <= k < 8
  {
    if n == 0 then 0 else Having(sources, n - 1, j, k) + if ByteBit(ByteAt(sources[n - 1], j), k) then 1 else 0
  }

  /** A bit of the result is set when all, some, an odd number, or none of the sources have it. */
  lemma {:induction false} FoldedBit(op: Op, sources: seq<Option<Bytes>>, n: nat, j: nat, k: int)
    requires 1 <= n <= |sources| && 0 <= k < 8 && (op == Not ==> n == 1)
    ensures ByteBit(Folded(op, sources, n, j), k) <==>
      var h := Having(sources, n, j, k);
      match op
        case And => h == n
        case Or => h > 0
        case Xor => h % 2 == 1
        case Not => h == 0
    ensures Having(sources, n, j, k) <= n
    decreases n
  {
    hide ByteBit, And8, Or8, Xor8, Not8, ByteAt;
    if n == 1 {
      assert Having(sources, 0, j, k) == 0;
      BitOfNot(ByteAt(sources[0], j), k);
    } else {
      var before, byte := Folded(op, sources, n - 1, j), ByteAt(sources[n - 1], j);
      FoldedBit(op, sources, n - 1, j, k);
      BitOfAnd(before, byte, k);
      BitOfOr(before, byte, k);
      BitOfXor(before, byte, k);
    }
  }
}
