/**
 * Integers of 1 to 63 bits stored at any bit offset of a string, as BITFIELD does:
 * reading, writing, and the two checkers that decide what an overflow gives.
 *
 * Machine integers are whole numbers; where a C type wraps around, the model says so.
 */
module Bitfield {
  import opened Prelude
  import opened Octets
  import opened Bitpos

  const TWO63 := 0x8000_0000_0000_0000
  const TWO64 := 0x1_0000_0000_0000_0000

  function ToUint64(x: int): int {
    x % TWO64
  }

  function ToInt64(x: int): int {
    var u := x % TWO64;
    if u >= TWO63 then u - TWO64 else u
  }

  predicate IsUint64(x: int) {
    0 <= x < TWO64
  }

  predicate IsInt64(x: int) {
    -TWO63 <= x < TWO63
  }

  /** The bit number k of a number, counted from the least significant. */
  predicate BitOf(v: int, k: nat)
    decreases k
  {
    if k == 0 then v % 2 == 1 else BitOf(v / 2, k - 1)
  }

  // ---------------------------------------------------------------------
  // Arithmetic
  // ---------------------------------------------------------------------

  lemma ModIs(v: int, m: int, q: int, t: int)
    requires m > 0 && v == m * q + t && 0 <= t < m
    ensures v % m == t
  {
    assert v / m == q by { QuotientIs(v, m, q, t); }
  }

  lemma QuotientIs(v: int, m: int, q: int, t: int)
    requires m > 0 && v == m * q + t && 0 <= t < m
    ensures v / m == q
  {
    var d := v / m - q;
    assert m * d == t - v % m;
    Multiples(m, d);
  }

  lemma Multiples(m: int, d: int)
    requires m > 0
    ensures d >= 1 ==> m * d >= m
    ensures d <= -1 ==> m * d <= -m
  {
  }

  lemma HalfAndBit(v: int, m: int)
    requires m > 0
    ensures v % (2 * m) == 2 * ((v / 2) % m) + v % 2
  {
    var h := v / 2;
    assert v == 2 * h + v % 2 && h == m * (h / m) + h % m;
    assert v == (2 * m) * (h / m) + (2 * (h % m) + v % 2);
    ModIs(v, 2 * m, h / m, 2 * (h % m) + v % 2);
  }

  lemma ModOfMod(x: int, a: int, b: int)
    requires a > 0 && b > 0
    ensures (x % (a * b)) % a == x % a
  {
    var y := x % (a * b);
    var q := x / (a * b);
    assert x == (a * b) * q + y;
    assert y == a * (y / a) + y % a;
    assert x == a * (b * q + y / a) + y % a;
    ModIs(x, a, b * q + y / a, y % a);
  }

  lemma {:induction false} PowAdds(a: nat, b: nat)
    ensures Pow2(a + b) == Pow2(a) * Pow2(b)
  {
    if a > 0 { PowAdds(a - 1, b); }
  }

  lemma {:induction false} PowGrows(a: nat, b: nat)
    requires a <= b
    ensures Pow2(a) <= Pow2(b)
  {
    if a < b { PowGrows(a, b - 1); }
  }

  lemma PowOf64()
    ensures Pow2(63) == TWO63 && Pow2(64) == TWO64
  {
    assert Pow2(8) == 0x100;
    PowAdds(8, 8);
    PowAdds(16, 16);
    PowAdds(32, 32);
  }

  /** Wrapping to 64 bits does not change the low bits. */
  lemma LowBitsOfUint64(x: int, bits: nat)
    requires bits <= 64
    ensures ToUint64(x) % Pow2(bits) == x % Pow2(bits)
  {
    PowOf64();
    PowAdds(bits, 64 - bits);
    ModOfMod(x, Pow2(bits), Pow2(64 - bits));
  }

  // ---------------------------------------------------------------------
  // Reading and writing
  // ---------------------------------------------------------------------

  function Digit(b: bool): int {
    if b then 1 else 0
  }

  /** The number held by the bits of a field, most significant first. */
  function Field(s: Bytes, offset: nat, bits: nat): (v: int)
    requires offset + bits <= 8 * |s|
    ensures 0 <= v < Pow2(bits)
  {
    if bits == 0 then 0 else 2 * Field(s, offset, bits - 1) + Digit(On(s, offset + bits - 1))
  }

  /** The field holds the low bits of a value. */
  predicate Holds(s: Bytes, offset: nat, bits: nat, value: int)
    requires offset + bits <= 8 * |s|
  {
    forall i :: offset <= i < offset + bits ==> On(s, i) == BitOf(value, offset + bits - 1 - i)
  }

  lemma HalfHasNext(v: int, k: nat)
    ensures BitOf(v, k) == if k == 0 then v % 2 == 1 else BitOf(v / 2, k - 1)
  {
  }

  /** A field that holds the low bits of a value reads as the value modulo 2 to the width. */
  lemma {:induction false} HoldsIsModulo(s: Bytes, offset: nat, bits: nat, value: int)
    requires offset + bits <= 8 * |s| && Holds(s, offset, bits, value)
    ensures Field(s, offset, bits) == value % Pow2(bits)
    decreases bits
  {
    hide On, BitOf;
    if bits > 0 {
      var last := offset + bits - 1;
      forall i | offset <= i < last ensures On(s, i) == BitOf(value / 2, last - 1 - i) {
        HalfHasNext(value, last - i);
      }
      HoldsIsModulo(s, offset, bits - 1, value / 2);
      assert On(s, last) == BitOf(value, 0) == (value % 2 == 1) by { HalfHasNext(value, 0); }
      HalfAndBit(value, Pow2(bits - 1));
    }
  }

  function PutBit(b: bv8, k: int, on: bool): bv8
    requires 0 <= k < 8
  {
    (b & !Mask(k)) | (if on then Mask(k) else 0)
  }

  lemma PutBitPuts(b: bv8, k: int, on: bool, i: int)
    requires 0 <= k < 8 && 0 <= i < 8
    ensures ByteBit(PutBit(b, k, on), i) == if i == k then on else ByteBit(b, i)
  {
  }

  /** Everything outside the field is as it was. */
  predicate SameOutside(s: Bytes, t: Bytes, offset: nat, bits: nat) {
    && |s| == |t|
    && forall i :: 0 <= i < 8 * |s| && !(offset <= i < offset + bits) ==> On(s, i) == On(t, i)
  }

  lemma PutOne(s: Bytes, offset: nat, on: bool, i: nat)
    requires offset < 8 * |s| && i < 8 * |s|
    ensures On(s[offset / 8 := PutBit(s[offset / 8], offset % 8, on)], i) == if i == offset then on else On(s, i)
  {
    hide PutBit, ByteBit;
    if i / 8 == offset / 8 {
      PutBitPuts(s[offset / 8], offset % 8, on, i % 8);
      assert i % 8 == offset % 8 ==> i == offset;
    }
  }

  /** setUnsignedBitfield. */
  method SetUnsignedBitfield(p: array<bv8>, offset: nat, bits: nat, value: int)
    requires IsUint64(value) && bits <= 64 && offset + bits <= 8 * p.Length
    modifies p
    ensures Holds(p[..], offset, bits, value)
    ensures SameOutside(old(p[..]), p[..], offset, bits)
  {
    hide On, BitOf, PutBit;
    var at := offset;
    for j := 0 to bits
      invariant at == offset + j
      invariant forall i :: offset <= i < at ==> On(p[..], i) == BitOf(value, offset + bits - 1 - i)
      invariant SameOutside(old(p[..]), p[..], offset, j)
    {
      ghost var before := p[..];
      var byte := at / 8;
      p[byte] := PutBit(p[byte], at % 8, BitOf(value, bits - 1 - j));
      assert p[..] == before[byte := PutBit(before[byte], at % 8, BitOf(value, bits - 1 - j))];
      forall i | 0 <= i < 8 * |before|
        ensures On(p[..], i) == if i == at then BitOf(value, bits - 1 - j) else On(before, i)
      {
        PutOne(before, at, BitOf(value, bits - 1 - j), i);
      }
      at := at + 1;
    }
  }

  /** getUnsignedBitfield. */
  method GetUnsignedBitfield(p: array<bv8>, offset: nat, bits: nat) returns (value: int)
    requires bits <= 64 && offset + bits <= 8 * p.Length
    ensures value == Field(p[..], offset, bits)
  {
    value := 0;
    var at := offset;
    for j := 0 to bits
      invariant at == offset + j && value == Field(p[..], offset, j)
    {
      value := value * 2 + Digit(ByteBit(p[at / 8], at % 8));
      at := at + 1;
    }
  }

  // ---------------------------------------------------------------------
  // Signed fields
  // ---------------------------------------------------------------------

  function Max(bits: nat): int
    requires 1 <= bits <= 64
  {
    Pow2(bits - 1) - 1
  }

  function Min(bits: nat): int
    requires 1 <= bits <= 64
  {
    -Max(bits) - 1
  }

  /** The number of the signed width that is congruent to x. */
  function Representative(x: int, bits: nat): (r: int)
    requires 1 <= bits <= 63
    ensures Min(bits) <= r <= Max(bits)
  {
    var u := x % Pow2(bits);
    if u > Max(bits) then u - Pow2(bits) else u
  }

  /** It is the only number of the width that differs from x by a multiple of 2 to the width. */
  lemma RepresentativeIsUnique(x: int, bits: nat, r: int, q: int)
    requires 1 <= bits <= 63 && Min(bits) <= r <= Max(bits) && x == Pow2(bits) * q + r
    ensures r == Representative(x, bits)
  {
    var m := Pow2(bits);
    if r >= 0 {
      ModIs(x, m, q, r);
    } else {
      assert x == m * (q - 1) + (r + m);
      ModIs(x, m, q - 1, r + m);
    }
  }

  /** Setting the bits from number bits upwards of a word, read as a signed number. */
  function SignExtended(u: int, bits: nat): int
    requires 1 <= bits <= 63
  {
    if BitOf(u, bits - 1) then ToInt64(TWO64 - Pow2(bits) + u % Pow2(bits)) else ToInt64(u % Pow2(bits))
  }

  lemma {:induction false} TopBitOfLow(u: int, bits: nat)
    requires bits >= 1
    ensures BitOf(u, bits - 1) <==> u % Pow2(bits) >= Pow2(bits - 1)
    decreases bits
  {
    HalfAndBit(u, Pow2(bits - 1));
    if bits > 1 { TopBitOfLow(u / 2, bits - 1); }
  }

  lemma SignExtendedIs(u: int, bits: nat)
    requires 1 <= bits <= 63
    ensures SignExtended(u, bits) == Representative(u, bits)
  {
    hide BitOf;
    TopBitOfLow(u, bits);
    PowOf64();
    PowGrows(bits, 63);
  }

  lemma RepresentativeOfUint64(x: int, bits: nat)
    requires 1 <= bits <= 63
    ensures Representative(ToUint64(x), bits) == Representative(x, bits)
  {
    LowBitsOfUint64(x, bits);
  }

  lemma RepresentativeOfModulo(x: int, bits: nat)
    requires 1 <= bits <= 63
    ensures Representative(x % Pow2(bits), bits) == Representative(x, bits)
  {
    ModIs(x % Pow2(bits), Pow2(bits), 0, x % Pow2(bits));
  }

  /** setSignedBitfield. */
  method SetSignedBitfield(p: array<bv8>, offset: nat, bits: nat, value: int)
    requires IsInt64(value) && bits <= 64 && offset + bits <= 8 * p.Length
    modifies p
    ensures Field(p[..], offset, bits) == value % Pow2(bits)
    ensures SameOutside(old(p[..]), p[..], offset, bits)
  {
    var uv := ToUint64(value);
    SetUnsignedBitfield(p, offset, bits, uv);
    HoldsIsModulo(p[..], offset, bits, uv);
    LowBitsOfUint64(value, bits);
  }

  /** The signed number held by a field. */
  function SignedField(s: Bytes, offset: nat, bits: nat): int
    requires 1 <= bits <= 63 && offset + bits <= 8 * |s|
  {
    Representative(Field(s, offset, bits), bits)
  }

  /** getSignedBitfield. */
  method GetSignedBitfield(p: array<bv8>, offset: nat, bits: nat) returns (value: int)
    requires 1 <= bits <= 63 && offset + bits <= 8 * p.Length
    ensures value == SignedField(p[..], offset, bits)
  {
    hide Field, BitOf;
    var u := GetUnsignedBitfield(p, offset, bits);
    PowOf64();
    PowGrows(bits, 63);
    SignExtendedIs(u, bits);
    ModIs(u, Pow2(bits), 0, u);
    value := ToInt64(u);
    if BitOf(u, bits - 1) { value := ToInt64(TWO64 - Pow2(bits) + u); }
  }

  /** Reading back what was written gives the value modulo 2 to the width, signed or not. */
  lemma GetAfterSet(s: Bytes, offset: nat, bits: nat, value: int)
    requires 1 <= bits <= 63 && offset + bits <= 8 * |s|
    requires Holds(s, offset, bits, ToUint64(value))
    ensures Field(s, offset, bits) == value % Pow2(bits)
    ensures SignedField(s, offset, bits) == Representative(value, bits)
    ensures Min(bits) <= value <= Max(bits) ==> SignedField(s, offset, bits) == value
  {
    hide Holds, Field;
    HoldsIsModulo(s, offset, bits, ToUint64(value));
    LowBitsOfUint64(value, bits);
    RepresentativeOfModulo(value, bits);
    if Min(bits) <= value <= Max(bits) { RepresentativeIsUnique(value, bits, value, 0); }
  }

  // ---------------------------------------------------------------------
  // Overflow
  // ---------------------------------------------------------------------

  datatype Overflow = Wrap | Saturate | Fail

  /** A verdict of 0, 1 or -1, and the value to use instead, which Fail leaves unset. */
  datatype Verdict = Verdict(code: int, limit: int)

  /** checkUnsignedBitfieldOverflow. */
  function CheckUnsigned(value: int, incr: int, bits: nat, ow: Overflow): Verdict
    requires IsUint64(value) && IsInt64(incr) && 1 <= bits <= 63
  {
    var max := Pow2(bits) - 1;
    var maxincr := ToInt64(max - value);
    var minincr := ToInt64(-value);
    var wrapped := ToUint64(value + incr) % Pow2(bits);
    if value > max || (incr > 0 && incr > maxincr) then
      (match ow case Wrap => Verdict(1, wrapped) case Saturate => Verdict(1, max) case Fail => Verdict(1, 0))
    else if incr < 0 && incr < minincr then
      (match ow case Wrap => Verdict(1, wrapped) case Saturate => Verdict(-1, 0) case Fail => Verdict(-1, 0))
    else Verdict(0, 0)
  }

  /**
   * checkSignedBitfieldOverflow. The two differences wrap around as the machine's do. Wrapping a
   * field of 64 bits would shift by the width of the type, which C leaves undefined.
   */
  function CheckSigned(value: int, incr: int, bits: nat, ow: Overflow): Verdict
    requires IsInt64(value) && IsInt64(incr) && 1 <= bits <= 64 && (bits == 64 ==> ow != Wrap)
  {
    var max, min := Max(bits), Min(bits);
    var maxincr := ToInt64(max - value);
    var minincr := ToInt64(min - value);
    var wrapped := if bits == 64 then 0 else SignExtended(ToUint64(ToUint64(value) + ToUint64(incr)), bits);
    if value > max || (bits != 64 && incr > maxincr) || (value >= 0 && incr > 0 && incr > maxincr) then
      (match ow case Wrap => Verdict(1, wrapped) case Saturate => Verdict(1, max) case Fail => Verdict(1, 0))
    else if value < min || (bits != 64 && incr < minincr) || (value < 0 && incr < 0 && incr < minincr) then
      (match ow case Wrap => Verdict(1, wrapped) case Saturate => Verdict(-1, min) case Fail => Verdict(-1, 0))
    else Verdict(0, 0)
  }

  function Sign(sum: int, min: int, max: int): int {
    if sum > max then 1 else if sum < min then -1 else 0
  }

  function Clamp(sum: int, min: int, max: int): int {
    if sum > max then max else if sum < min then min else sum
  }

  /** What a verdict should be for a sum, given the number it wraps around to. */
  predicate IsVerdict(v: Verdict, sum: int, min: int, max: int, ow: Overflow, wrapped: int) {
    && (v.code != 0 <==> !(min <= sum <= max))
    && (ow != Wrap ==> v.code == Sign(sum, min, max))
    && (v.code != 0 && ow == Wrap ==> v.code == 1 && v.limit == wrapped)
    && (v.code != 0 && ow == Saturate ==> v.limit == Clamp(sum, min, max))
  }

  lemma ToInt64IsSame(x: int)
    ensures IsInt64(x) ==> ToInt64(x) == x
  {
  }

  /** For a stored value the unsigned checker is exact, under every policy. */
  lemma UnsignedIsExact(value: int, incr: int, bits: nat, ow: Overflow)
    requires 1 <= bits <= 63 && 0 <= value < Pow2(bits) && IsInt64(incr) && IsUint64(value)
    ensures IsVerdict(CheckUnsigned(value, incr, bits, ow), value + incr, 0, Pow2(bits) - 1, ow,
      (value + incr) % Pow2(bits))
  {
    PowOf64();
    PowGrows(bits, 63);
    LowBitsOfUint64(value + incr, bits);
    ToInt64IsSame(Pow2(bits) - 1 - value);
    ToInt64IsSame(-value);
  }

  /** A value too large for the field, as SET may be given, is always an overflow. */
  lemma UnsignedTooLarge(value: int, incr: int, bits: nat, ow: Overflow)
    requires 1 <= bits <= 63 && IsUint64(value) && value >= Pow2(bits) && IsInt64(incr)
    ensures var v := CheckUnsigned(value, incr, bits, ow);
      && v.code == 1
      && (ow == Wrap ==> v.limit == (value + incr) % Pow2(bits))
      && (ow == Saturate ==> v.limit == Pow2(bits) - 1)
  {
    LowBitsOfUint64(value + incr, bits);
  }

  lemma WrappedSum(value: int, incr: int, bits: nat)
    requires 1 <= bits <= 63
    ensures SignExtended(ToUint64(ToUint64(value) + ToUint64(incr)), bits) == Representative(value + incr, bits)
  {
    hide SignExtended, Representative;
    var sum := ToUint64(value) + ToUint64(incr);
    SignExtendedIs(ToUint64(sum), bits);
    assert ToUint64(sum) == ToUint64(value + incr) by { Uint64OfSum(value, incr); }
    RepresentativeOfUint64(value + incr, bits);
  }

  lemma Uint64OfSum(a: int, b: int)
    ensures ToUint64(ToUint64(a) + ToUint64(b)) == ToUint64(a + b)
  {
  }

  /** The number a sum wraps around to in a signed field; of no account for 64 bits. */
  function Wrapped(sum: int, bits: nat): int
    requires 1 <= bits <= 64
  {
    if bits == 64 then 0 else Representative(sum, bits)
  }

  lemma SignedIsExact64(value: int, incr: int, ow: Overflow)
    requires ow != Wrap && IsInt64(value) && IsInt64(incr)
    ensures IsVerdict(CheckSigned(value, incr, 64, ow), value + incr, Min(64), Max(64), ow, 0)
  {
    hide SignExtended;
    PowOf64();
    if value >= 0 { ToInt64IsSame(Max(64) - value); } else { ToInt64IsSame(Min(64) - value); }
  }

  /** For a stored value the signed checker is exact, under every policy. */
  lemma SignedIsExact(value: int, incr: int, bits: nat, ow: Overflow)
    requires 1 <= bits <= 64 && (bits == 64 ==> ow != Wrap)
    requires Min(bits) <= value <= Max(bits) && IsInt64(incr) && IsInt64(value)
    ensures IsVerdict(CheckSigned(value, incr, bits, ow), value + incr, Min(bits), Max(bits), ow,
      Wrapped(value + incr, bits))
  {
    hide SignExtended, Representative;
    if bits == 64 {
      SignedIsExact64(value, incr, ow);
    } else {
      PowOf64();
      PowGrows(bits, 63);
      WrappedSum(value, incr, bits);
      ToInt64IsSame(Max(bits) - value);
      ToInt64IsSame(Min(bits) - value);
    }
  }

  /**
   * SET gives the signed checker any 64 bit value and no increment. Its answer is
   * right exactly under Wrap, for fields of 64 bits, or when the distance up to the greatest
   * value fits in 64 bits; otherwise that distance wraps around and an underflow is taken for
   * an overflow.
   */
  lemma SignedSetIsExactIff(value: int, bits: nat, ow: Overflow)
    requires 1 <= bits <= 64 && (bits == 64 ==> ow != Wrap) && IsInt64(value)
    ensures IsVerdict(CheckSigned(value, 0, bits, ow), value, Min(bits), Max(bits), ow, Wrapped(value, bits))
      <==> ow == Wrap || bits == 64 || value > Max(bits) - TWO63
  {
    hide SignExtended, Representative;
    PowOf64();
    if bits < 64 {
      PowGrows(bits, 63);
      WrappedSum(value, 0, bits);
    }
    ToInt64IsSame(Max(bits) - value);
    ToInt64IsSame(Min(bits) - value);
  }

  /** The least 64 bit number, put into a signed byte, saturates to the greatest value. */
  lemma SignedSetGoesWrong()
    ensures CheckSigned(-TWO63, 0, 8, Saturate) == Verdict(1, 127)
    ensures Clamp(-TWO63, Min(8), Max(8)) == -128
  {
    assert Pow2(7) == 128;
  }

  // ---------------------------------------------------------------------
  // BITFIELD INCRBY
  // ---------------------------------------------------------------------

  /** What the field should hold after an increment; None when the policy is to fail. */
  function Incremented(sum: int, min: int, max: int, ow: Overflow, wrapped: int): Option<int> {
    if min <= sum <= max then Some(sum)
    else match ow
      case Wrap => Some(wrapped)
      case Saturate => Some(Clamp(sum, min, max))
      case Fail => None
  }

  /** The value INCRBY writes to an unsigned field. */
  function NewUnsigned(oldval: int, incr: int, bits: nat, ow: Overflow): int
    requires IsUint64(oldval) && IsInt64(incr) && 1 <= bits <= 63
  {
    var v := CheckUnsigned(oldval, incr, bits, ow);
    if v.code != 0 then v.limit else ToUint64(oldval + incr)
  }

  lemma NewUnsignedIs(oldval: int, incr: int, bits: nat, ow: Overflow)
    requires 1 <= bits <= 63 && 0 <= oldval < Pow2(bits) && IsInt64(incr)
    ensures IsUint64(oldval)
    ensures var fails := CheckUnsigned(oldval, incr, bits, ow).code != 0 && ow == Fail;
            var newval := NewUnsigned(oldval, incr, bits, ow);
            var sum := oldval + incr;
      && Incremented(sum, 0, Pow2(bits) - 1, ow, sum % Pow2(bits)) == (if fails then None else Some(newval))
      && (!fails ==> 0 <= newval < Pow2(bits) && IsUint64(newval) && newval % Pow2(bits) == newval)
  {
    hide CheckUnsigned;
    PowOf64();
    PowGrows(bits, 63);
    UnsignedIsExact(oldval, incr, bits, ow);
    var newval := NewUnsigned(oldval, incr, bits, ow);
    if 0 <= newval < Pow2(bits) { ModIs(newval, Pow2(bits), 0, newval); }
  }

  /** INCRBY on an unsigned field: the reply, the field and the rest of the string. */
  method IncrByUnsigned(p: array<bv8>, offset: nat, bits: nat, incr: int, ow: Overflow) returns (reply: Option<int>)
    requires 1 <= bits <= 63 && offset + bits <= 8 * p.Length && IsInt64(incr)
    modifies p
    ensures var sum := old(Field(p[..], offset, bits)) + incr;
      reply == Incremented(sum, 0, Pow2(bits) - 1, ow, sum % Pow2(bits))
    ensures reply.Some? ==> Field(p[..], offset, bits) == reply.value
    ensures reply.None? ==> p[..] == old(p[..])
    ensures SameOutside(old(p[..]), p[..], offset, bits)
  {
    hide Field, Holds, SameOutside, CheckUnsigned, Incremented, NewUnsigned, IsUint64;
    var oldval := GetUnsignedBitfield(p, offset, bits);
    NewUnsignedIs(oldval, incr, bits, ow);
    Unchanged(p[..], offset, bits);
    if CheckUnsigned(oldval, incr, bits, ow).code != 0 && ow == Fail { return None; }
    var newval := NewUnsigned(oldval, incr, bits, ow);
    SetUnsignedBitfield(p, offset, bits, newval);
    HoldsIsModulo(p[..], offset, bits, newval);
    reply := Some(newval);
  }

  lemma Unchanged(s: Bytes, offset: nat, bits: nat)
    ensures SameOutside(s, s, offset, bits)
  {
  }

  /** The value INCRBY writes to a signed field. */
  function NewSigned(oldval: int, incr: int, bits: nat, ow: Overflow): int
    requires IsInt64(oldval) && IsInt64(incr) && 1 <= bits <= 63
  {
    var v := CheckSigned(oldval, incr, bits, ow);
    if v.code != 0 then v.limit else ToInt64(oldval + incr)
  }

  lemma NewSignedIs(oldval: int, incr: int, bits: nat, ow: Overflow)
    requires 1 <= bits <= 63 && Min(bits) <= oldval <= Max(bits) && IsInt64(incr)
    ensures IsInt64(oldval)
    ensures var fails := CheckSigned(oldval, incr, bits, ow).code != 0 && ow == Fail;
            var newval := NewSigned(oldval, incr, bits, ow);
            var sum := oldval + incr;
      && Incremented(sum, Min(bits), Max(bits), ow, Representative(sum, bits)) == (if fails then None else Some(newval))
      && (!fails ==> Min(bits) <= newval <= Max(bits) && IsInt64(newval) && Representative(newval, bits) == newval)
  {
    hide CheckSigned, Representative;
    PowOf64();
    PowGrows(bits, 63);
    SignedIsExact(oldval, incr, bits, ow);
    ToInt64IsSame(oldval + incr);
    var newval := NewSigned(oldval, incr, bits, ow);
    if Min(bits) <= newval <= Max(bits) { RepresentativeIsUnique(newval, bits, newval, 0); }
  }

  /** INCRBY on a signed field. */
  method IncrBySigned(p: array<bv8>, offset: nat, bits: nat, incr: int, ow: Overflow) returns (reply: Option<int>)
    requires 1 <= bits <= 63 && offset + bits <= 8 * p.Length && IsInt64(incr)
    modifies p
    ensures var sum := old(SignedField(p[..], offset, bits)) + incr;
      reply == Incremented(sum, Min(bits), Max(bits), ow, Representative(sum, bits))
    ensures reply.Some? ==> SignedField(p[..], offset, bits) == reply.value
    ensures reply.None? ==> p[..] == old(p[..])
    ensures SameOutside(old(p[..]), p[..], offset, bits)
  {
    hide Field, Representative, SameOutside, CheckSigned, Incremented, NewSigned, IsInt64, Min, Max;
    var oldval := GetSignedBitfield(p, offset, bits);
    NewSignedIs(oldval, incr, bits, ow);
    Unchanged(p[..], offset, bits);
    if CheckSigned(oldval, incr, bits, ow).code != 0 && ow == Fail { return None; }
    var newval := NewSigned(oldval, incr, bits, ow);
    SetSignedBitfield(p, offset, bits, newval);
    RepresentativeOfModulo(newval, bits);
    reply := Some(newval);
  }
}
