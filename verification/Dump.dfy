/**
 * The payload of DUMP and RESTORE: the serialized value, two bytes of RDB version
 * and eight bytes of CRC64, both little endian.
 */
module Dump {
  import opened Octets
  import opened Crc64Table

  const RDB_VERSION: bv16 := 8

  /** The CRC of a string of bytes, continued from a given state. */
  function CrcFrom(crc: bv64, s: Bytes): bv64
    decreases |s|
  {
    if s == [] then crc else CrcFrom(CrcByte(crc, s[0]), s[1..])
  }

  /** crc64. */
  method Crc64(start: bv64, s: Bytes) returns (crc: bv64)
    ensures crc == CrcFrom(start, s)
  {
    hide Table, LowByte;
    crc := start;
    for j := 0 to |s|
      invariant CrcFrom(crc, s[j..]) == CrcFrom(start, s)
    {
      assert s[j..][0] == s[j] && s[j..][1..] == s[j + 1..];
      assert CrcFrom(crc, s[j..]) == CrcFrom(CrcByte(crc, s[j]), s[j + 1..]);
      crc := Table(LowByte(crc) ^ s[j]) ^ (crc >> 8);
    }
  }

  function LittleEndian(x: bv64): Bytes {
    [ByteOf(x, 0), ByteOf(x, 8), ByteOf(x, 16), ByteOf(x, 24),
     ByteOf(x, 32), ByteOf(x, 40), ByteOf(x, 48), ByteOf(x, 56)]
  }

  /** createDumpPayload, given the serialized value. */
  method CreateDumpPayload(value: Bytes) returns (payload: Bytes)
    ensures payload == Payload(value)
  {
    payload := value + [(RDB_VERSION & 0xff) as bv8, ((RDB_VERSION >> 8) & 0xff) as bv8];
    var crc := Crc64(0, payload);
    payload := payload + LittleEndian(crc);
  }

  function Payload(value: Bytes): Bytes {
    var body := value + [8, 0];
    body + LittleEndian(CrcFrom(0, body))
  }

  /** The version in the footer is not newer than that of this server. */
  predicate VersionOk(p: Bytes)
    requires |p| >= 10
  {
    var footer := |p| - 10;
    ((p[footer + 1] as bv16) << 8) | (p[footer] as bv16) <= RDB_VERSION
  }

  predicate CrcOk(p: Bytes)
    requires |p| >= 10
  {
    LittleEndian(CrcFrom(0, p[..|p| - 8])) == p[|p| - 8..]
  }

  /** verifyDumpPayload. */
  method VerifyDumpPayload(p: Bytes) returns (ok: bool)
    ensures ok <==> Verified(p)
  {
    if |p| < 10 { return false; }
    var footer := |p| - 10;
    var rdbver := ((p[footer + 1] as bv16) << 8) | (p[footer] as bv16);
    if rdbver > RDB_VERSION { return false; }
    var crc := Crc64(0, p[..|p| - 8]);
    return LittleEndian(crc) == p[footer + 2..];
  }

  predicate Verified(p: Bytes) {
    |p| >= 10 && VersionOk(p) && CrcOk(p)
  }

  /** A version above 8 is newer: such a payload is rejected whatever its CRC, and no other is for its version. */
  lemma NewerIsRejected(p: Bytes)
    requires |p| >= 10
    ensures VersionOk(p) <==> p[|p| - 9] == 0 && p[|p| - 10] <= 8
    ensures p[|p| - 9] != 0 || p[|p| - 10] > 8 ==> !Verified(p)
  {
    VersionOfBytes(p[|p| - 9], p[|p| - 10]);
  }

  lemma VersionOfBytes(high: bv8, low: bv8)
    ensures ((high as bv16) << 8) | (low as bv16) <= RDB_VERSION <==> high == 0 && low <= 8
  {
  }

  /** The CRC is stored with its least significant byte first. */
  lemma LittleEndianSpells(x: bv64)
    ensures var b := LittleEndian(x);
      && |b| == 8
      && x == Placed(b[0], 0) | Placed(b[1], 8) | Placed(b[2], 16) | Placed(b[3], 24)
              | Placed(b[4], 32) | Placed(b[5], 40) | Placed(b[6], 48) | Placed(b[7], 56)
  {
    WordSpells(x);
    hide Placed, ByteOf;
    var b := LittleEndian(x);
    assert b[0] == ByteOf(x, 0) && b[1] == ByteOf(x, 8) && b[2] == ByteOf(x, 16) && b[3] == ByteOf(x, 24);
    assert b[4] == ByteOf(x, 32) && b[5] == ByteOf(x, 40) && b[6] == ByteOf(x, 48) && b[7] == ByteOf(x, 56);
  }

  /** A byte put at a place of a word. */
  function Placed(byte: bv8, shift: nat): bv64
    requires shift <= 56
  {
    (byte as bv64) << shift
  }

  lemma WordSpells(x: bv64)
    ensures x == Placed(ByteOf(x, 0), 0) | Placed(ByteOf(x, 8), 8) | Placed(ByteOf(x, 16), 16)
                 | Placed(ByteOf(x, 24), 24) | Placed(ByteOf(x, 32), 32) | Placed(ByteOf(x, 40), 40)
                 | Placed(ByteOf(x, 48), 48) | Placed(ByteOf(x, 56), 56)
  {
  }

  /** Every payload that was created is accepted. */
  lemma CreatedIsVerified(value: Bytes)
    ensures Verified(Payload(value))
  {
    hide CrcFrom, ByteOf;
    var body := value + [8, 0];
    var p := Payload(value);
    assert p[..|p| - 8] == body;
    assert p[|p| - 8..] == LittleEndian(CrcFrom(0, body));
    assert p[|p| - 10] == 8 && p[|p| - 9] == 0;
  }

  // ---------------------------------------------------------------------
  // One changed byte
  // ---------------------------------------------------------------------

  lemma {:induction false} StateIsKept(a: bv64, b: bv64, s: Bytes)
    ensures CrcFrom(a, s) == CrcFrom(b, s) <==> a == b
    decreases |s|
  {
    hide CrcByte;
    if s != [] {
      CrcByteSeparates(a, b, s[0], s[0]);
      StateIsKept(CrcByte(a, s[0]), CrcByte(b, s[0]), s[1..]);
    }
  }

  /** Changing one byte changes the CRC, at any length and any position. */
  lemma {:induction false} OneByteChangesCrc(crc: bv64, s: Bytes, at: nat, byte: bv8)
    requires at < |s| && byte != s[at]
    ensures CrcFrom(crc, s[at := byte]) != CrcFrom(crc, s)
    decreases |s|
  {
    hide CrcByte;
    var t := s[at := byte];
    if at == 0 {
      assert t[1..] == s[1..];
      CrcByteSeparates(crc, crc, s[0], byte);
      StateIsKept(CrcByte(crc, s[0]), CrcByte(crc, byte), s[1..]);
    } else {
      assert t[1..] == s[1..][at - 1 := byte];
      OneByteChangesCrc(CrcByte(crc, s[0]), s[1..], at - 1, byte);
    }
  }

  lemma LittleEndianSeparates(x: bv64, y: bv64)
    requires LittleEndian(x) == LittleEndian(y)
    ensures x == y
  {
    BytesSeparate(x, y);
    var a, b := LittleEndian(x), LittleEndian(y);
    assert a[0] == b[0] && a[1] == b[1] && a[2] == b[2] && a[3] == b[3];
    assert a[4] == b[4] && a[5] == b[5] && a[6] == b[6] && a[7] == b[7];
  }

  lemma BytesSeparate(x: bv64, y: bv64)
    ensures x == y <==>
      && ByteOf(x, 0) == ByteOf(y, 0) && ByteOf(x, 8) == ByteOf(y, 8)
      && ByteOf(x, 16) == ByteOf(y, 16) && ByteOf(x, 24) == ByteOf(y, 24)
      && ByteOf(x, 32) == ByteOf(y, 32) && ByteOf(x, 40) == ByteOf(y, 40)
      && ByteOf(x, 48) == ByteOf(y, 48) && ByteOf(x, 56) == ByteOf(y, 56)
  {
  }

  /** A verified payload with exactly one byte changed, anywhere in it, is rejected. */
  lemma OneByteIsRejected(p: Bytes, at: nat, byte: bv8)
    requires Verified(p) && at < |p| && byte != p[at]
    ensures !Verified(p[at := byte])
  {
    hide CrcFrom, LittleEndian, VersionOk;
    var n := |p| - 8;
    var q := p[at := byte];
    if at < n {
      assert q[..n] == p[..n][at := byte];
      assert q[n..] == p[n..];
      OneByteChangesCrc(0, p[..n], at, byte);
      if LittleEndian(CrcFrom(0, q[..n])) == LittleEndian(CrcFrom(0, p[..n])) {
        LittleEndianSeparates(CrcFrom(0, q[..n]), CrcFrom(0, p[..n]));
      }
    } else {
      assert q[..n] == p[..n];
      assert q[n..][at - n] != p[n..][at - n];
    }
  }
}
