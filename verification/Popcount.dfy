/**
 * redisPopcount: counting the bits of a string 28 bytes at a time, in seven words of
 * 32 bits whose byte lanes are added up before they are folded together.
 */
module Popcount {
  import opened Octets

  // ---------------------------------------------------------------------
  // The plain count
  // ---------------------------------------------------------------------

  function Bit(b: bool): nat {
    if b then 1 else 0
  }

  function BitsOf(b: bv8): nat {
    Bit(b & 1 != 0) + Bit(b & 2 != 0) + Bit(b & 4 != 0) + Bit(b & 8 != 0) +
    Bit(b & 16 != 0) + Bit(b & 32 != 0) + Bit(b & 64 != 0) + Bit(b & 128 != 0)
  }

  function BitSum(s: Bytes): nat {
    if s == [] then 0 else BitsOf(s[0]) + BitSum(s[1..])
  }

  lemma {:induction false} BitSumAppend(a: Bytes, b: Bytes)
    ensures BitSum(a + b) == BitSum(a) + BitSum(b)
  {
    hide BitsOf;
    if a == [] {
      assert a + b == b;
    } else {
      assert (a + b)[1..] == a[1..] + b;
      BitSumAppend(a[1..], b);
    }
  }

  lemma BitSumOfOne(s: Bytes, i: nat)
    requires i < |s|
    ensures BitSum(s[..i + 1]) == BitSum(s[..i]) + BitsOf(s[i])
  {
    hide BitsOf;
    assert s[..i + 1] == s[..i] + [s[i]];
    BitSumAppend(s[..i], [s[i]]);
    assert BitSum([s[i]]) == BitsOf(s[i]) + BitSum([]);
  }

  function Nibble(k: bv8): nat {
    if k == 0 then 0 else if k == 1 then 1 else if k == 2 then 1 else if k == 3 then 2
    else if k == 4 then 1 else if k == 5 then 2 else if k == 6 then 2 else if k == 7 then 3
    else if k == 8 then 1 else if k == 9 then 2 else if k == 10 then 2 else if k == 11 then 3
    else if k == 12 then 2 else if k == 13 then 3 else if k == 14 then 3 else 4
  }

  /** The table bitsinbyte, whose entry 16h + l is the sum of its entries h and l. */
  function BitsInByte(b: bv8): (n: nat)
    ensures n == BitsOf(b)
  {
    Nibble(b >> 4) + Nibble(b & 0xf)
  }

  // ---------------------------------------------------------------------
  // Numbers below 256 in a word
  // ---------------------------------------------------------------------

  function Plus(a: bv32, b: bv32): bv32 {
    a + b
  }

  function Num(a: bv32): nat {
    a as int
  }

  lemma NumOfNext(a: bv32)
    requires a < 255
    ensures Num(Plus(a, 1)) == Num(a) + 1
  {
  }

  lemma NumOfZero(a: bv32)
    ensures Num(0) == 0 && Plus(a, 0) == a
  {
  }

  lemma PlusOne(a: bv32, b: bv32)
    requires 0 < b <= 255 && a <= 255 && Plus(a, b) <= 255
    ensures b - 1 < b && b - 1 < 255 && Plus(a, b - 1) < 255
    ensures Plus(a, b) == Plus(Plus(a, b - 1), 1) && Plus(b - 1, 1) == b
  {
  }

  /** Below 256 the sum of two words is the sum of their values. */
  lemma {:induction false} NumOfSum(a: bv32, b: bv32)
    requires a <= 255 && b <= 255 && Plus(a, b) <= 255
    ensures Num(Plus(a, b)) == Num(a) + Num(b)
    decreases b
  {
    hide Plus, Num;
    if b == 0 {
      NumOfZero(a);
    } else {
      PlusOne(a, b);
      NumOfSum(a, b - 1);
      NumOfNext(Plus(a, b - 1));
      NumOfNext(b - 1);
    }
  }

  // ---------------------------------------------------------------------
  // One word
  // ---------------------------------------------------------------------

  /** The bit number k of a byte held in a word. */
  function BitAt(b: bv32, k: int): bv32
    requires 0 <= k < 8
  {
    (b >> k) & 1
  }

  /** The bits of a byte, counted in a word. */
  function Count(b: bv32): bv32 {
    Plus(Plus(Plus(BitAt(b, 0), BitAt(b, 1)), Plus(BitAt(b, 2), BitAt(b, 3))),
         Plus(Plus(BitAt(b, 4), BitAt(b, 5)), Plus(BitAt(b, 6), BitAt(b, 7))))
  }

  lemma CountIsBitsOf(b: bv8)
    ensures Num(Count(b as bv32)) == BitsOf(b) <= 8
  {
  }

  /** What the loop makes of one word: in each byte lane, the number of bits that were in it. */
  function Lanes(w: bv32): bv32 {
    var a := w - ((w >> 1) & 0x55555555);
    var c := (a & 0x33333333) + ((a >> 2) & 0x33333333);
    (c + (c >> 4)) & 0x0F0F0F0F
  }

  function Lane(w: bv32, j: int): bv32
    requires 0 <= j < 4
  {
    if j == 0 then w & 0xff else if j == 1 then (w >> 8) & 0xff
    else if j == 2 then (w >> 16) & 0xff else w >> 24
  }

  lemma LanesCount0(w: bv32)
    ensures Lane(Lanes(w), 0) == Count(Lane(w, 0))
  {
  }

  lemma LanesCount1(w: bv32)
    ensures Lane(Lanes(w), 1) == Count(Lane(w, 1))
  {
  }

  lemma LanesCount2(w: bv32)
    ensures Lane(Lanes(w), 2) == Count(Lane(w, 2))
  {
  }

  lemma LanesCount3(w: bv32)
    ensures Lane(Lanes(w), 3) == Count(Lane(w, 3))
  {
  }

  // ---------------------------------------------------------------------
  // Adding up and folding the lanes
  // ---------------------------------------------------------------------

  predicate Fits(w: bv32, most: nat) {
    forall j :: 0 <= j < 4 ==> Num(Lane(w, j)) <= most
  }

  function Across(w: bv32): nat {
    Num(Lane(w, 0)) + Num(Lane(w, 1)) + Num(Lane(w, 2)) + Num(Lane(w, 3))
  }

  predicate Low(a: bv32) {
    a <= 112
  }

  lemma NumIsLow(a: bv32)
    ensures Num(a) <= 112 <==> Low(a)
  {
  }

  lemma NumOfLow(a: bv32, b: bv32)
    requires Low(a) && Low(b)
    ensures Num(Plus(a, b)) == Num(a) + Num(b)
  {
    assert a <= 255 && b <= 255 && Plus(a, b) <= 255;
    NumOfSum(a, b);
  }

  lemma LaneOfSum0(x: bv32, y: bv32)
    requires Low(Lane(x, 0)) && Low(Lane(y, 0))
    ensures Lane(Plus(x, y), 0) == Plus(Lane(x, 0), Lane(y, 0))
  {
  }

  lemma LaneOfSum1(x: bv32, y: bv32)
    requires Low(Lane(x, 0)) && Low(Lane(y, 0)) && Low(Lane(x, 1)) && Low(Lane(y, 1))
    ensures Lane(Plus(x, y), 1) == Plus(Lane(x, 1), Lane(y, 1))
  {
  }

  lemma LaneOfSum2(x: bv32, y: bv32)
    requires Low(Lane(x, 1)) && Low(Lane(y, 1)) && Low(Lane(x, 2)) && Low(Lane(y, 2))
    ensures Lane(Plus(x, y), 2) == Plus(Lane(x, 2), Lane(y, 2))
  {
  }

  lemma LaneOfSum3(x: bv32, y: bv32)
    requires Low(Lane(x, 2)) && Low(Lane(y, 2)) && Low(Lane(x, 3)) && Low(Lane(y, 3))
    ensures Lane(Plus(x, y), 3) == Plus(Lane(x, 3), Lane(y, 3))
  {
  }

  /** Lanes that stay below 256 are added without a carry between them. */
  lemma LaneOfSum(x: bv32, y: bv32, j: int)
    requires Fits(x, 112) && Fits(y, 112) && 0 <= j < 4
    ensures Lane(Plus(x, y), j) == Plus(Lane(x, j), Lane(y, j))
    ensures Num(Lane(Plus(x, y), j)) == Num(Lane(x, j)) + Num(Lane(y, j))
  {
    hide Lane, Num, Plus, Low;
    forall k | 0 <= k < 4 ensures Low(Lane(x, k)) && Low(Lane(y, k)) {
      NumIsLow(Lane(x, k));
      NumIsLow(Lane(y, k));
    }
    NumOfLow(Lane(x, j), Lane(y, j));
    LaneOfSum0(x, y);
    LaneOfSum1(x, y);
    LaneOfSum2(x, y);
    LaneOfSum3(x, y);
  }

  lemma AddLanes(x: bv32, y: bv32, most: nat, more: nat)
    requires most <= 112 && more <= 112 && Fits(x, most) && Fits(y, more)
    ensures Across(Plus(x, y)) == Across(x) + Across(y) && Fits(Plus(x, y), most + more)
  {
    hide Lane, Num, Plus;
    forall j | 0 <= j < 4 ensures Num(Lane(Plus(x, y), j)) == Num(Lane(x, j)) + Num(Lane(y, j)) {
      LaneOfSum(x, y, j);
    }
  }

  lemma Shifted(x: bv32)
    ensures Lane(x << 8, 0) == 0 && Lane(x << 8, 1) == Lane(x, 0)
    ensures Lane(x << 8, 2) == Lane(x, 1) && Lane(x << 8, 3) == Lane(x, 2)
    ensures Lane(x << 16, 0) == 0 && Lane(x << 16, 1) == 0
    ensures Lane(x << 16, 2) == Lane(x, 0) && Lane(x << 16, 3) == Lane(x, 1)
  {
  }

  /** The fold at the end of the expression. */
  function Fold(x: bv32): bv32 {
    (x * 0x01010101) >> 24
  }

  lemma ShiftedFits(x: bv32, most: nat)
    requires Fits(x, most)
    ensures Fits(x << 8, most) && Fits(x << 16, most)
  {
    hide Lane, Num;
    Shifted(x);
    NumOfZero(0);
  }

  lemma PlusShifted(x: bv32)
    ensures Plus(x, x << 8) == x * 0x101 && Plus(x, x << 16) == x * 0x10001
  {
    assert x + (x << 16) == x * 0x10001;
  }

  lemma TopLane(w: bv32)
    ensures Lane(w, 3) == w >> 24
  {
  }

  /** Multiplying by 0x10001 adds the second lane to the fourth. */
  lemma UpperLane(y: bv32)
    requires Fits(y, 112)
    ensures Num(Lane(y * 0x10001, 3)) == Num(Lane(y, 3)) + Num(Lane(y, 1))
  {
    hide Num, Lane, Plus;
    ShiftedFits(y, 112);
    LaneOfSum(y, y << 16, 3);
    Shifted(y);
    PlusShifted(y);
  }

  lemma UpperHalf(y: bv32)
    requires Fits(y, 112)
    ensures Num((y * 0x10001) >> 24) == Num(Lane(y, 3)) + Num(Lane(y, 1))
  {
    hide Num, Lane, Plus, Fits;
    UpperLane(y);
    TopLane(y * 0x10001);
  }

  lemma UpperHalves()
    ensures forall y: bv32 :: Fits(y, 112) ==> Num((y * 0x10001) >> 24) == Num(Lane(y, 3)) + Num(Lane(y, 1))
  {
    hide Num, Fits, Lane;
    forall y: bv32 | Fits(y, 112) ensures Num((y * 0x10001) >> 24) == Num(Lane(y, 3)) + Num(Lane(y, 1)) {
      UpperHalf(y);
    }
  }

  /** Multiplying by 0x101 adds to each lane the one below it. */
  lemma Neighbours(x: bv32)
    requires Fits(x, 56)
    ensures Fits(x * 0x101, 112)
    ensures Num(Lane(x * 0x101, 3)) == Num(Lane(x, 3)) + Num(Lane(x, 2))
    ensures Num(Lane(x * 0x101, 1)) == Num(Lane(x, 1)) + Num(Lane(x, 0))
  {
    hide Num, Lane, Plus;
    ShiftedFits(x, 56);
    AddLanes(x, x << 8, 56, 56);
    LaneOfSum(x, x << 8, 3);
    LaneOfSum(x, x << 8, 1);
    Shifted(x);
    PlusShifted(x);
  }

  /** Seven words have at most 56 bits in each lane, so the product brings their sum to the top. */
  lemma FoldLanes(x: bv32)
    requires Fits(x, 56)
    ensures Num(Fold(x)) == Across(x)
  {
    hide Num, Lane, Fits;
    Neighbours(x);
    UpperHalves();
    assert Fits(x * 0x101, 112);
  }

  // ---------------------------------------------------------------------
  // Bytes in memory
  // ---------------------------------------------------------------------

  /** Reading a word from memory, in the byte order of the machine. */
  function Word(s: Bytes, bigEndian: bool): bv32
    requires |s| == 4
  {
    if bigEndian then FromBytes(s[3], s[2], s[1], s[0]) else FromBytes(s[0], s[1], s[2], s[3])
  }

  function FromBytes(b0: bv8, b1: bv8, b2: bv8, b3: bv8): bv32 {
    (b0 as bv32) | ((b1 as bv32) << 8) | ((b2 as bv32) << 16) | ((b3 as bv32) << 24)
  }

  lemma LanesOfBytes(b0: bv8, b1: bv8, b2: bv8, b3: bv8)
    ensures var w := FromBytes(b0, b1, b2, b3);
      Lane(w, 0) == b0 as bv32 && Lane(w, 1) == b1 as bv32 && Lane(w, 2) == b2 as bv32 && Lane(w, 3) == b3 as bv32
  {
  }

  lemma WordCounts(b0: bv8, b1: bv8, b2: bv8, b3: bv8)
    ensures var x := Lanes(FromBytes(b0, b1, b2, b3));
      Fits(x, 8) && Across(x) == BitsOf(b0) + BitsOf(b1) + BitsOf(b2) + BitsOf(b3)
  {
    hide Lane, Lanes, Count, BitsOf, Num;
    var w := FromBytes(b0, b1, b2, b3);
    LanesOfBytes(b0, b1, b2, b3);
    LanesCount0(w);
    LanesCount1(w);
    LanesCount2(w);
    LanesCount3(w);
    CountIsBitsOf(b0);
    CountIsBitsOf(b1);
    CountIsBitsOf(b2);
    CountIsBitsOf(b3);
  }

  lemma BitSumOfWord(s: Bytes, bigEndian: bool)
    requires |s| == 4
    ensures Fits(Lanes(Word(s, bigEndian)), 8) && Across(Lanes(Word(s, bigEndian))) == BitSum(s)
  {
    hide Lanes, Across, Fits, BitsOf, FromBytes;
    WordCounts(s[0], s[1], s[2], s[3]);
    WordCounts(s[3], s[2], s[1], s[0]);
    assert s[1..][1..] == s[2..] && s[2..][1..] == s[3..] && s[3..][1..] == [];
    assert BitSum(s[3..]) == BitsOf(s[3]);
    assert BitSum(s[2..]) == BitsOf(s[2]) + BitSum(s[3..]);
    assert BitSum(s[1..]) == BitsOf(s[1]) + BitSum(s[2..]);
  }

  function Sum7(a: bv32, b: bv32, c: bv32, d: bv32, e: bv32, f: bv32, g: bv32): bv32 {
    Plus(Plus(Plus(Plus(Plus(Plus(a, b), c), d), e), f), g)
  }

  function LanesAt(s: Bytes, i: nat, bigEndian: bool): bv32
    requires i + 4 <= |s|
  {
    Lanes(Word(s[i..i + 4], bigEndian))
  }

  /** The expression that counts 28 bytes. */
  function Count28(s: Bytes, bigEndian: bool): bv32
    requires |s| == 28
  {
    Fold(Sum7(LanesAt(s, 0, bigEndian), LanesAt(s, 4, bigEndian), LanesAt(s, 8, bigEndian),
              LanesAt(s, 12, bigEndian), LanesAt(s, 16, bigEndian), LanesAt(s, 20, bigEndian),
              LanesAt(s, 24, bigEndian)))
  }

  lemma SevenWords(a: bv32, b: bv32, c: bv32, d: bv32, e: bv32, f: bv32, g: bv32)
    requires Fits(a, 8) && Fits(b, 8) && Fits(c, 8) && Fits(d, 8) && Fits(e, 8) && Fits(f, 8) && Fits(g, 8)
    ensures Num(Fold(Sum7(a, b, c, d, e, f, g))) ==
      Across(a) + Across(b) + Across(c) + Across(d) + Across(e) + Across(f) + Across(g)
  {
    hide Fits, Across, Num, Fold, Plus;
    var s2 := Plus(a, b);
    var s3 := Plus(s2, c);
    var s4 := Plus(s3, d);
    var s5 := Plus(s4, e);
    var s6 := Plus(s5, f);
    AddLanes(a, b, 8, 8);
    AddLanes(s2, c, 16, 8);
    AddLanes(s3, d, 24, 8);
    AddLanes(s4, e, 32, 8);
    AddLanes(s5, f, 40, 8);
    AddLanes(s6, g, 48, 8);
    FoldLanes(Plus(s6, g));
  }

  /** The word parallel count of 28 bytes is their plain count. */
  lemma Count28IsBitSum(s: Bytes, bigEndian: bool)
    requires |s| == 28
    ensures Num(Count28(s, bigEndian)) == BitSum(s)
  {
    hide Lanes, Word, BitSum, Fits, Across, Num, Fold, Sum7;
    forall i | 0 <= i <= 24
      ensures Fits(LanesAt(s, i, bigEndian), 8) && Across(LanesAt(s, i, bigEndian)) == BitSum(s[i..i + 4])
    {
      BitSumOfWord(s[i..i + 4], bigEndian);
    }
    SevenWords(LanesAt(s, 0, bigEndian), LanesAt(s, 4, bigEndian), LanesAt(s, 8, bigEndian),
      LanesAt(s, 12, bigEndian), LanesAt(s, 16, bigEndian), LanesAt(s, 20, bigEndian), LanesAt(s, 24, bigEndian));
    BitSumOfSeven(s);
  }

  lemma BitSumOfSeven(s: Bytes)
    requires |s| == 28
    ensures BitSum(s) == BitSum(s[0..4]) + BitSum(s[4..8]) + BitSum(s[8..12]) + BitSum(s[12..16]) +
      BitSum(s[16..20]) + BitSum(s[20..24]) + BitSum(s[24..28])
  {
    hide BitSum;
    SplitFour(s, 0);
    SplitFour(s, 4);
    SplitFour(s, 8);
    SplitFour(s, 12);
    SplitFour(s, 16);
    SplitFour(s, 20);
    assert s[0..] == s && s[24..] == s[24..28];
  }

  lemma SplitFour(s: Bytes, i: nat)
    requires i + 4 <= |s|
    ensures BitSum(s[i..]) == BitSum(s[i..i + 4]) + BitSum(s[i + 4..])
  {
    hide BitSum;
    assert s[i..] == s[i..i + 4] + s[i + 4..];
    BitSumAppend(s[i..i + 4], s[i + 4..]);
  }

  /** Seven words are read and counted; they may only be read from an address divisible by four. */
  method CountAligned(s: Bytes, p: nat, address: nat, bigEndian: bool) returns (bits: nat)
    requires p + 28 <= |s| && (address + p) % 4 == 0
    ensures bits == BitSum(s[p..p + 28])
  {
    hide BitSum, Count28;
    Count28IsBitSum(s[p..p + 28], bigEndian);
    bits := Num(Count28(s[p..p + 28], bigEndian));
  }

  /**
   * redisPopcount, for a string that starts at any address, on a machine of either
   * byte order.
   */
  method RedisPopcount(s: Bytes, address: nat, bigEndian: bool) returns (bits: nat)
    ensures bits == BitSum(s)
  {
    hide BitSum, Count28, BitsOf;
    bits := 0;
    var p, count := 0, |s|;
    assert BitSum(s[..0]) == 0 by { NoBits(); }
    while (address + p) % 4 != 0 && count > 0
      invariant 0 <= p <= |s| && count == |s| - p && bits == BitSum(s[..p])
      decreases count
    {
      BitSumOfOne(s, p);
      bits := bits + BitsInByte(s[p]);
      p := p + 1;
      count := count - 1;
    }
    while count >= 28
      invariant 0 <= p <= |s| && count == |s| - p && bits == BitSum(s[..p])
      invariant count > 0 ==> (address + p) % 4 == 0
    {
      assert s[..p + 28] == s[..p] + s[p..p + 28];
      BitSumAppend(s[..p], s[p..p + 28]);
      var more := CountAligned(s, p, address, bigEndian);
      bits := bits + more;
      p := p + 28;
      count := count - 28;
    }
    while count > 0
      invariant 0 <= p <= |s| && count == |s| - p && bits == BitSum(s[..p])
    {
      BitSumOfOne(s, p);
      bits := bits + BitsInByte(s[p]);
      p := p + 1;
      count := count - 1;
    }
    assert s[..p] == s;
  }

  lemma NoBits()
    ensures BitSum([]) == 0
  {
  }
}
