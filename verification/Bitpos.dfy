/**
 * redisBitpos: the first bit of a string that is set, or clear, found by skipping
 * whole words. Bit 0 is the most significant bit of the first byte.
 */
module Bitpos {
  import opened Octets

  function Mask(k: int): bv8
    requires 0 <= k < 8
  {
    if k == 0 then 128 else if k == 1 then 64 else if k == 2 then 32 else if k == 3 then 16
    else if k == 4 then 8 else if k == 5 then 4 else if k == 6 then 2 else 1
  }

  predicate ByteBit(b: bv8, k: int)
    requires 0 <= k < 8
  {
    b & Mask(k) != 0
  }

  predicate On(s: Bytes, i: int)
    requires 0 <= i < 8 * |s|
  {
    ByteBit(s[i / 8], i % 8)
  }

  /** The byte whose bits are all equal to the one not looked for. */
  function Skip(bit: bool): bv8 {
    if bit then 0 else 0xff
  }

  lemma SkipHasNone(bit: bool, k: int)
    requires 0 <= k < 8
    ensures ByteBit(Skip(bit), k) != bit
  {
  }

  /** Any other byte has a bit that is looked for. */
  lemma SomeBitOfByte(b: bv8, bit: bool) returns (k: nat)
    requires b != Skip(bit)
    ensures k < 8 && ByteBit(b, k) == bit
  {
    k := if ByteBit(b, 0) == bit then 0 else if ByteBit(b, 1) == bit then 1
      else if ByteBit(b, 2) == bit then 2 else if ByteBit(b, 3) == bit then 3
      else if ByteBit(b, 4) == bit then 4 else if ByteBit(b, 5) == bit then 5
      else if ByteBit(b, 6) == bit then 6 else 7;
  }

  // ---------------------------------------------------------------------
  // Words
  // ---------------------------------------------------------------------

  const ULONG_MAX: bv64 := 0xffff_ffff_ffff_ffff
  const TOP: bv64 := 0x8000_0000_0000_0000

  function Join(b0: bv8, b1: bv8, b2: bv8, b3: bv8, b4: bv8, b5: bv8, b6: bv8, b7: bv8): bv64 {
    ((b0 as bv64) << 56) | ((b1 as bv64) << 48) | ((b2 as bv64) << 40) | ((b3 as bv64) << 32) |
    ((b4 as bv64) << 24) | ((b5 as bv64) << 16) | ((b6 as bv64) << 8) | (b7 as bv64)
  }

  /** Eight bytes as a word, the first one most significant. */
  function Big(s: Bytes): bv64
    requires |s| == 8
  {
    Join(s[0], s[1], s[2], s[3], s[4], s[5], s[6], s[7])
  }

  /** Reading a word from memory, in the byte order of the machine. */
  function Load(s: Bytes, bigEndian: bool): bv64
    requires |s| == 8
  {
    if bigEndian then Big(s) else Join(s[7], s[6], s[5], s[4], s[3], s[2], s[1], s[0])
  }

  lemma JoinOfEqual(b0: bv8, b1: bv8, b2: bv8, b3: bv8, b4: bv8, b5: bv8, b6: bv8, b7: bv8)
    ensures Join(b0, b1, b2, b3, b4, b5, b6, b7) == 0 <==>
      b0 == 0 && b1 == 0 && b2 == 0 && b3 == 0 && b4 == 0 && b5 == 0 && b6 == 0 && b7 == 0
    ensures Join(b0, b1, b2, b3, b4, b5, b6, b7) == ULONG_MAX <==>
      b0 == 0xff && b1 == 0xff && b2 == 0xff && b3 == 0xff && b4 == 0xff && b5 == 0xff && b6 == 0xff && b7 == 0xff
  {
  }

  predicate AllSkip(s: Bytes, bit: bool) {
    forall i :: 0 <= i < |s| ==> s[i] == Skip(bit)
  }

  /** A word equals the value to skip exactly when all its bytes are to be skipped. */
  lemma SkipWord(s: Bytes, bigEndian: bool, bit: bool)
    requires |s| == 8
    ensures Load(s, bigEndian) == (if bit then 0 else ULONG_MAX) <==> AllSkip(s, bit)
  {
    hide Join;
    JoinOfEqual(s[0], s[1], s[2], s[3], s[4], s[5], s[6], s[7]);
    JoinOfEqual(s[7], s[6], s[5], s[4], s[3], s[2], s[1], s[0]);
  }

  function ShiftIn(word: bv64, b: bv8): bv64 {
    (word << 8) | (b as bv64)
  }

  /** The word after shifting in the given bytes. */
  function Shifted(s: Bytes): bv64 {
    if s == [] then 0 else ShiftIn(Shifted(s[..|s| - 1]), s[|s| - 1])
  }

  lemma ShiftedIsJoin(b0: bv8, b1: bv8, b2: bv8, b3: bv8, b4: bv8, b5: bv8, b6: bv8, b7: bv8)
    ensures ShiftIn(ShiftIn(ShiftIn(ShiftIn(ShiftIn(ShiftIn(ShiftIn(ShiftIn(0, b0), b1), b2), b3), b4), b5), b6), b7)
      == Join(b0, b1, b2, b3, b4, b5, b6, b7)
  {
  }

  lemma ShiftedOne(s: Bytes, b: bv8)
    ensures Shifted(s + [b]) == ShiftIn(Shifted(s), b)
  {
    assert (s + [b])[..|s|] == s;
  }

  lemma ShiftedIsBig(s: Bytes)
    requires |s| == 8
    ensures Shifted(s) == Big(s)
  {
    hide Shifted, ShiftIn, Join;
    assert Shifted([]) == 0 by { NothingShifted(); }
    assert s[..0] == [] && s[..8] == s;
    forall i | 0 <= i < 8 ensures Shifted(s[..i + 1]) == ShiftIn(Shifted(s[..i]), s[i]) {
      assert s[..i + 1] == s[..i] + [s[i]];
      ShiftedOne(s[..i], s[i]);
    }
    assert Shifted(s[..1]) == ShiftIn(0, s[0]);
    assert Shifted(s[..2]) == ShiftIn(Shifted(s[..1]), s[1]);
    assert Shifted(s[..3]) == ShiftIn(Shifted(s[..2]), s[2]);
    assert Shifted(s[..4]) == ShiftIn(Shifted(s[..3]), s[3]);
    ShiftedIsJoin(s[0], s[1], s[2], s[3], s[4], s[5], s[6], s[7]);
  }

  lemma NothingShifted()
    ensures Shifted([]) == 0
  {
  }

  // ---------------------------------------------------------------------
  // The bits of a word
  // ---------------------------------------------------------------------

  /** The single bit after so many shifts to the right. */
  function One(k: nat): bv64 {
    if k == 0 then TOP else One(k - 1) >> 1
  }

  function Double(w: bv64): bv64 {
    w << 1
  }

  function Left(w: bv64, k: nat): bv64
    decreases k
  {
    if k == 0 then w else Left(Double(w), k - 1)
  }

  predicate Hits(one: bv64, w: bv64) {
    one & w != 0
  }

  lemma HitsAfterShift(one: bv64, w: bv64)
    ensures Hits(one >> 1, w) <==> Hits(one, Double(w))
  {
  }

  /** Moving the bit to the right is moving the word to the left. */
  lemma {:induction false} HitsLeft(k: nat, w: bv64)
    ensures Hits(One(k), w) <==> Hits(TOP, Left(w, k))
    decreases k
  {
    hide Hits, Double;
    if k > 0 {
      HitsAfterShift(One(k - 1), w);
      HitsLeft(k - 1, Double(w));
    }
  }

  lemma EightDoubles(w: bv64)
    ensures Double(Double(Double(Double(Double(Double(Double(Double(w)))))))) == w << 8
  {
  }

  lemma LeftEight(w: bv64, k: nat)
    requires k >= 8
    ensures Left(w, k) == Left(w << 8, k - 8)
  {
    hide Double;
    EightDoubles(w);
    var w2 := Double(Double(w));
    var w4 := Double(Double(w2));
    var w6 := Double(Double(w4));
    assert Left(w, k) == Left(w2, k - 2);
    assert Left(w2, k - 2) == Left(w4, k - 4);
    assert Left(w4, k - 4) == Left(w6, k - 6);
    assert Left(w6, k - 6) == Left(Double(Double(w6)), k - 8);
  }

  function TopByte(w: bv64): bv8 {
    (w >> 56) as bv8
  }

  lemma TopOfJoin(b0: bv8, b1: bv8, b2: bv8, b3: bv8, b4: bv8, b5: bv8, b6: bv8, b7: bv8)
    ensures TopByte(Join(b0, b1, b2, b3, b4, b5, b6, b7)) == b0
  {
  }

  lemma TopBit(w: bv64)
    ensures Hits(TOP, w) <==> ByteBit(TopByte(w), 0)
    ensures TopByte(Double(w)) & 0xfe == TopByte(w) << 1
  {
  }

  lemma ByteShifts(b: bv8, c: bv8, k: int)
    requires c & 0xfe == b << 1 && 0 < k < 8
    ensures ByteBit(c, k - 1) <==> ByteBit(b, k)
  {
  }

  lemma {:induction false} TopBits(w: bv64, k: nat)
    requires k < 8
    ensures Hits(TOP, Left(w, k)) <==> ByteBit(TopByte(w), k)
    decreases k
  {
    hide Hits, TopByte, Double, ByteBit;
    TopBit(w);
    if k > 0 {
      TopBits(Double(w), k - 1);
      ByteShifts(TopByte(w), TopByte(Double(w)), k);
    }
  }

  lemma FirstByte(s: Bytes, k: int)
    requires |s| == 8 && 0 <= k < 8
    ensures Hits(One(k), Big(s)) <==> ByteBit(s[0], k)
  {
    hide Hits, One, Left, Join, TopByte, ByteBit;
    HitsLeft(k, Big(s));
    TopBits(Big(s), k);
    TopOfJoin(s[0], s[1], s[2], s[3], s[4], s[5], s[6], s[7]);
  }

  lemma NextBytes(b0: bv8, b1: bv8, b2: bv8, b3: bv8, b4: bv8, b5: bv8, b6: bv8, b7: bv8)
    ensures Join(b0, b1, b2, b3, b4, b5, b6, b7) << 8 == Join(b1, b2, b3, b4, b5, b6, b7, 0)
  {
  }

  lemma NextByte(s: Bytes, k: nat)
    requires |s| == 8 && 8 <= k < 64
    ensures Hits(One(k), Big(s)) <==> Hits(One(k - 8), Big(s[1..] + [0]))
  {
    hide Hits, One, Left, Join;
    var t := s[1..] + [0];
    NextBytes(s[0], s[1], s[2], s[3], s[4], s[5], s[6], s[7]);
    HitsLeft(k, Big(s));
    LeftEight(Big(s), k);
    HitsLeft(k - 8, Big(t));
  }

  /** The bit number k of the word built from eight bytes is the bit number k of the bytes. */
  lemma {:induction false} WordBit(s: Bytes, k: nat)
    requires |s| == 8 && k < 64
    ensures Hits(One(k), Big(s)) <==> On(s, k)
    decreases k
  {
    hide Hits, One, Big, ByteBit;
    if k < 8 {
      FirstByte(s, k);
    } else {
      var t := s[1..] + [0];
      NextByte(s, k);
      WordBit(t, k - 8);
      assert t[(k - 8) / 8] == s[k / 8] && (k - 8) % 8 == k % 8;
    }
  }

  lemma OneIsNotZero(k: nat)
    requires k < 64
    ensures One(k) != 0
  {
    hide One, Big;
    var s: Bytes := [0xff, 0xff, 0xff, 0xff, 0xff, 0xff, 0xff, 0xff];
    WordBit(s, k);
    SkipHasNone(false, k % 8);
  }

  // ---------------------------------------------------------------------
  // The search
  // ---------------------------------------------------------------------

  /** No bit of the string before position n is the one looked for. */
  predicate NoneBefore(s: Bytes, n: int, bit: bool)
    requires n <= 8 * |s|
  {
    forall i :: 0 <= i < n ==> On(s, i) != bit
  }

  /**
   * What the search promises: the least position of the bit looked for; without one,
   * -1 for a set bit, and for a clear bit the position just after the string.
   */
  predicate IsFirst(s: Bytes, bit: bool, r: int) {
    if r == -1 then bit && NoneBefore(s, 8 * |s|, bit)
    else 0 <= r <= 8 * |s| && NoneBefore(s, r, bit) && (if r == 8 * |s| then !bit else On(s, r) == bit)
  }

  /** The next eight bytes, with zeros after the end of the string. */
  function Padded(s: Bytes, c: nat): (p: Bytes)
    requires c <= |s|
    ensures |p| == 8
  {
    seq(8, j requires 0 <= j < 8 => if c + j < |s| then s[c + j] else 0)
  }

  lemma SkipBytes(s: Bytes, c: nat, n: nat, bit: bool)
    requires c + n <= |s| && NoneBefore(s, 8 * c, bit) && AllSkip(s[c..c + n], bit)
    ensures NoneBefore(s, 8 * (c + n), bit)
  {
    hide ByteBit;
    forall i | 8 * c <= i < 8 * (c + n) ensures On(s, i) != bit {
      assert s[i / 8] == s[c..c + n][i / 8 - c];
      SkipHasNone(bit, i % 8);
    }
  }

  /** Eight bytes that are not all to be skipped have a bit that is looked for, found by scanning. */
  lemma SomeBit(p: Bytes, bit: bool) returns (m: nat)
    requires |p| == 8 && !AllSkip(p, bit)
    ensures m < 64 && On(p, m) == bit
  {
    hide ByteBit, Skip;
    var i: nat :| i < 8 && p[i] != Skip(bit);
    var k := SomeBitOfByte(p[i], bit);
    m := 8 * i + k;
  }

  method LoadPadded(s: Bytes, start: nat) returns (word: bv64)
    requires start <= |s|
    ensures word == Big(Padded(s, start))
  {
    hide Shifted, ShiftIn, Big;
    word := 0;
    ghost var p := Padded(s, start);
    var c, count := start, |s| - start;
    NothingShifted();
    assert p[..0] == [];
    for j := 0 to 8
      invariant word == Shifted(p[..j])
      invariant c == (if start + j < |s| then start + j else |s|) && count == |s| - c
    {
      assert p[..j + 1] == p[..j] + [p[j]];
      ShiftedOne(p[..j], p[j]);
      ZeroShifted(word);
      if count > 0 {
        word := ShiftIn(word, s[c]);
        c, count := c + 1, count - 1;
      } else {
        word := word << 8;
      }
    }
    assert p[..8] == p;
    ShiftedIsBig(p);
  }

  lemma ZeroShifted(word: bv64)
    ensures ShiftIn(word, 0) == word << 8
  {
  }

  lemma PaddedBit(s: Bytes, c: nat, j: nat)
    requires c <= |s| && j < 64
    ensures On(Padded(s, c), j) == (8 * c + j < 8 * |s| && On(s, 8 * c + j))
  {
    hide ByteBit;
    var i := 8 * c + j;
    assert i / 8 == c + j / 8 && i % 8 == j % 8;
    if c + j / 8 >= |s| { SkipHasNone(true, j % 8); }
  }

  lemma Found(s: Bytes, c: nat, bit: bool, k: nat)
    requires c <= |s| && k < 64 && NoneBefore(s, 8 * c, bit)
    requires NoneBefore(Padded(s, c), k, bit) && On(Padded(s, c), k) == bit
    ensures IsFirst(s, bit, 8 * c + k)
  {
    hide On, Padded;
    PaddedBit(s, c, k);
    var left := 8 * |s| - 8 * c;
    if k > left {
      PaddedBit(s, c, left);
      assert false;
    }
    forall i | 8 * c <= i < 8 * c + k ensures On(s, i) != bit {
      PaddedBit(s, c, i - 8 * c);
    }
  }

  /** The end of the search, bit by bit; the end of its loop is never reached. */
  method Scan(s: Bytes, c: nat, bit: bool, word: bv64, start: int) returns (pos: int)
    requires c <= |s| && word == Big(Padded(s, c)) && start == 8 * c
    requires NoneBefore(s, 8 * c, bit) && !AllSkip(Padded(s, c), bit)
    ensures IsFirst(s, bit, pos)
  {
    hide On, Big, Hits, Padded, AllSkip, IsFirst;
    pos := start;
    var one := !(ULONG_MAX >> 1);
    ghost var p, k := Padded(s, c), 0;
    ghost var m := SomeBit(p, bit);
    assert one == One(0) by { FirstOne(); }
    while one != 0
      invariant 0 <= k <= m && pos == 8 * c + k && one == One(k)
      invariant NoneBefore(p, k, bit)
      decreases 64 - k
    {
      WordBit(p, k);
      if Hits(one, word) == bit {
        Found(s, c, bit, k);
        return;
      }
      NextOne(k);
      pos, one, k := pos + 1, one >> 1, k + 1;
    }
    OneIsNotZero(k);
    assert false;
  }

  lemma FirstOne()
    ensures !(ULONG_MAX >> 1) == One(0)
  {
  }

  lemma NextOne(k: nat)
    ensures One(k + 1) == One(k) >> 1
  {
  }

  lemma BigIsZero(p: Bytes)
    requires |p| == 8
    ensures Big(p) == 0 <==> AllSkip(p, true)
  {
    hide Join;
    JoinOfEqual(p[0], p[1], p[2], p[3], p[4], p[5], p[6], p[7]);
  }

  /** Where the words end: bytes that are not all to be skipped, or fewer than eight of them. */
  lemma AtLastWord(s: Bytes, c: nat, bit: bool)
    requires c <= |s| && NoneBefore(s, 8 * c, bit)
    requires c + 8 <= |s| ==> !AllSkip(Padded(s, c), bit)
    ensures AllSkip(Padded(s, c), bit) ==> bit && NoneBefore(s, 8 * |s|, bit)
  {
    hide On;
    var p := Padded(s, c);
    if AllSkip(p, bit) {
      assert p[7] == 0;
      forall i | 0 <= i < |s| - c ensures s[c..][i] == Skip(bit) {
        assert s[c..][i] == p[i];
      }
      assert s[c..c + (|s| - c)] == s[c..];
      SkipBytes(s, c, |s| - c, bit);
    }
  }

  /** Reading a word, which may only be done at an address divisible by its size. */
  method LoadAligned(s: Bytes, c: nat, address: nat, bigEndian: bool) returns (word: bv64)
    requires c + 8 <= |s| && (address + c) % 8 == 0
    ensures word == Load(s[c..c + 8], bigEndian)
  {
    word := Load(s[c..c + 8], bigEndian);
  }

  /** redisBitpos, for a string that starts at any address, on a machine of either byte order. */
  method RedisBitpos(s: Bytes, address: nat, bit: bool, bigEndian: bool) returns (pos: int)
    ensures IsFirst(s, bit, pos)
  {
    hide On, Big, Load;
    var c, count, found := 0, |s|, false;
    pos := 0;
    while (address + c) % 8 != 0 && count > 0
      invariant 0 <= c <= |s| && count == |s| - c && pos == 8 * c && !found
      invariant NoneBefore(s, 8 * c, bit)
      decreases count
    {
      if s[c] != Skip(bit) {
        found := true;
        assert Padded(s, c)[0] == s[c];
        break;
      }
      SkipBytes(s, c, 1, bit);
      c, count, pos := c + 1, count - 1, pos + 8;
    }
    if !found {
      while count >= 8
        invariant 0 <= c <= |s| && count == |s| - c && pos == 8 * c
        invariant NoneBefore(s, 8 * c, bit)
        invariant count > 0 ==> (address + c) % 8 == 0
      {
        SkipWord(s[c..c + 8], bigEndian, bit);
        assert Padded(s, c) == s[c..c + 8];
        var next := LoadAligned(s, c, address, bigEndian);
        if next != if bit then 0 else ULONG_MAX { break; }
        SkipBytes(s, c, 8, bit);
        c, count, pos := c + 8, count - 8, pos + 64;
      }
    }
    AtLastWord(s, c, bit);
    var word := LoadPadded(s, c);
    BigIsZero(Padded(s, c));
    if bit && word == 0 { return -1; }
    pos := Scan(s, c, bit, word, pos);
  }
}
