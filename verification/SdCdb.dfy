/**
 READ and WRITE command descriptor blocks of 6, 10, 16 and 32 bytes: how a device reads them
 (clause 5 of T10 SBC-3) and how sd_prep_fn in drivers/scsi/sd.c fills them in, byte by byte.
 */
module SdCdb {

  type Octet = b: int | 0 <= b < 256

  /** (x >> 8 * i) & 0xff. */
  function At(x: nat, i: nat): Octet
    decreases i
  {
    if i == 0 then x % 256 else At(x / 256, i - 1)
  }

  function Bytes(x: nat, n: nat): (s: seq<Octet>)
    ensures |s| == n
    decreases n
  {
    if n == 0 then [] else Bytes(x / 256, n - 1) + [x % 256]
  }

  /** A big-endian number. */
  function Value(s: seq<Octet>): nat
    decreases s
  {
    if s == [] then 0 else Value(s[..|s| - 1]) * 256 + s[|s| - 1]
  }

  predicate FitsIn(x: nat, n: nat)
    decreases n
  {
    if n == 0 then x == 0 else FitsIn(x / 256, n - 1)
  }

  /** n bytes hold x exactly when it fits. */
  lemma {:induction false} ValueOfBytes(x: nat, n: nat)
    ensures Value(Bytes(x, n)) == x <==> FitsIn(x, n)
    ensures Value(Bytes(x, n)) <= x
    decreases n
  {
    if n > 0 {
      ValueOfBytes(x / 256, n - 1);
      assert Bytes(x, n)[..n - 1] == Bytes(x / 256, n - 1);
    }
  }

  lemma {:induction false} BytesIndex(x: nat, n: nat, i: nat)
    requires i < n
    ensures Bytes(x, n)[i] == At(x, n - 1 - i)
    decreases n
  {
    if i < n - 1 {
      BytesIndex(x / 256, n - 1, i);
    }
  }

  lemma SliceIsBytes(s: seq<Octet>, from: nat, x: nat, n: nat)
    requires from + n <= |s| && forall k :: from <= k < from + n ==> s[k] == At(x, from + n - 1 - k)
    ensures s[from..from + n] == Bytes(x, n)
  {
    forall i | 0 <= i < n ensures s[from..from + n][i] == Bytes(x, n)[i] {
      BytesIndex(x, n, i);
    }
  }

  lemma Fits2(x: nat)
    requires x <= 0xFFFF
    ensures FitsIn(x, 2)
  {
    assert FitsIn(x / 256 / 256, 0);
    assert FitsIn(x / 256, 1);
  }

  lemma Fits4(x: nat)
    requires x <= 0xFFFF_FFFF
    ensures FitsIn(x, 4)
  {
    Fits2(x / 256 / 256);
    assert FitsIn(x / 256, 3);
  }

  lemma Fits8(x: nat)
    requires x <= 0xFFFF_FFFF_FFFF_FFFF
    ensures FitsIn(x, 8)
  {
    Fits4(x / 256 / 256 / 256 / 256);
    assert FitsIn(x / 256 / 256 / 256, 5);
    assert FitsIn(x / 256 / 256, 6);
    assert FitsIn(x / 256, 7);
  }

  const READ_6 := 0x08
  const WRITE_6 := 0x0A
  const READ_10 := 0x28
  const WRITE_10 := 0x2A
  const READ_16 := 0x88
  const WRITE_16 := 0x8A
  const VARIABLE_LENGTH_CMD := 0x7F
  const READ_32 := 0x09
  const WRITE_32 := 0x0B

  /** A medium access as the device understands it. */
  datatype Access = Access(write: bool, lba: nat, count: nat, protect: bool, fua: bool)

  datatype Decoded = Invalid | Valid(a: Access)

  function Flags(b: Octet): (bool, bool) { (b / 32 == 1, b / 8 % 2 == 1) }

  function Lba6(b1: int, b2: int, b3: int): nat
    requires 0 <= b1 && 0 <= b2 && 0 <= b3
  {
    (b1 % 32) * 0x1_0000 + b2 * 0x100 + b3
  }

  function Decode6(c: seq<Octet>): Access
    requires |c| == 16
  {
    Access(c[0] == WRITE_6, Lba6(c[1], c[2], c[3]), if c[4] == 0 then 256 else c[4], false, false)
  }

  function Decode10(c: seq<Octet>): Access
    requires |c| == 16
  {
    Access(c[0] == WRITE_10, Value(c[2..6]), Value(c[7..9]), Flags(c[1]).0, Flags(c[1]).1)
  }

  function Decode16(c: seq<Octet>): Access
    requires |c| == 16
  {
    Access(c[0] == WRITE_16, Value(c[2..10]), Value(c[10..14]), Flags(c[1]).0, Flags(c[1]).1)
  }

  function Decode32(c: seq<Octet>): Access
    requires |c| == 32
  {
    Access(c[9] == WRITE_32, Value(c[12..20]), Value(c[28..32]), Flags(c[10]).0, Flags(c[10]).1)
  }

  function Decode(c: seq<Octet>): Decoded {
    if |c| == 32 then
      if c[0] == VARIABLE_LENGTH_CMD && c[7] == 0x18 && c[8] == 0 && (c[9] == READ_32 || c[9] == WRITE_32)
      then Valid(Decode32(c)) else Invalid
    else if |c| != 16 then Invalid
    else if c[0] == READ_6 || c[0] == WRITE_6 then Valid(Decode6(c))
    else if c[0] == READ_10 || c[0] == WRITE_10 then Valid(Decode10(c))
    else if c[0] == READ_16 || c[0] == WRITE_16 then Valid(Decode16(c))
    else Invalid
  }

  function FlagByte(protect: bool, fua: bool): (b: Octet)
    ensures Flags(b) == (protect, fua)
  {
    (if protect then 0x20 else 0) + (if fua then 0x8 else 0)
  }

  lemma LowBytes(x: nat) returns (y: nat, z: nat)
    ensures y == x / 256 && z == y / 256
    ensures At(x, 0) == x % 256 && At(x, 1) == y % 256 && At(x, 2) == z % 256
  {
    y := x / 256;
    z := y / 256;
    assert At(x, 1) == At(y, 0);
    assert At(x, 2) == At(y, 1) == At(z, 0);
  }

  lemma Digits(x: nat, y: nat, z: nat)
    requires y == x / 256 && z == y / 256 && x <= 0x1F_FFFF
    ensures Lba6(z % 256 % 32, y % 256, x % 256) == x
  {
    assert z <= 31;
    assert z % 256 % 32 % 32 == z;
    assert y == 256 * z + y % 256;
    assert x == 256 * y + x % 256;
  }

  lemma Lba6Trip(x: nat)
    requires x <= 0x1F_FFFF
    ensures Lba6(At(x, 2) % 32, At(x, 1), At(x, 0)) == x
  {
    var y, z := LowBytes(x);
    Digits(x, y, z);
  }

  /** The branch for 6-byte commands. */
  method Fill6(c: array<Octet>, write: bool, block: nat, count: nat)
    requires c.Length == 16 && c[1] == 0 && c[0] == if write then WRITE_6 else READ_6
    requires block <= 0x1F_FFFF && count <= 0xFF
    modifies c
    ensures Decode(c[..]) == Valid(Access(write, block, if count == 0 then 256 else count, false, false))
  {
    c[1] := At(block, 2) % 32;
    c[2] := At(block, 1);
    c[3] := At(block, 0);
    c[4] := count;
    c[5] := 0;
    Lba6Trip(block);
  }

  lemma Reads10(c: seq<Octet>, write: bool, block: nat, count: nat, protect: bool, fua: bool)
    requires |c| == 16 && c[0] == (if write then WRITE_10 else READ_10) && c[1] == FlagByte(protect, fua)
    requires c[2..6] == Bytes(block, 4) && c[7..9] == Bytes(count, 2)
    ensures Decode(c) == Valid(Access(write, Value(Bytes(block, 4)), Value(Bytes(count, 2)), protect, fua))
  {
  }

  /** The branch for 10-byte commands, count already limited. */
  method Fill10(c: array<Octet>, write: bool, block: nat, count: nat, protect: bool, fua: bool)
    requires c.Length == 16 && c[0] == if write then WRITE_6 else READ_6
    modifies c
    ensures Decode(c[..]) == Valid(Access(write, Value(Bytes(block, 4)), Value(Bytes(count, 2)), protect, fua))
  {
    c[0] := c[0] + (READ_10 - READ_6);
    c[1] := FlagByte(protect, fua);
    PutWord(c, 2, block);
    c[6] := 0;
    c[9] := 0;
    PutHalf(c, 7, count);
    assert c[..][2..6] == Bytes(block, 4);
    assert c[..][7..9] == Bytes(count, 2);
    Reads10(c[..], write, block, count, protect, fua);
  }

  lemma Reads16(c: seq<Octet>, write: bool, block: nat, count: nat, protect: bool, fua: bool)
    requires |c| == 16 && c[0] == (if write then WRITE_16 else READ_16) && c[1] == FlagByte(protect, fua)
    requires c[2..10] == Bytes(block, 8) && c[10..14] == Bytes(count, 4)
    ensures Decode(c) == Valid(Access(write, Value(Bytes(block, 8)), Value(Bytes(count, 4)), protect, fua))
  {
  }

  method Fill16(c: array<Octet>, write: bool, block: nat, count: nat, protect: bool, fua: bool)
    requires c.Length == 16 && c[0] == if write then WRITE_6 else READ_6
    modifies c
    ensures Decode(c[..]) == Valid(Access(write, Value(Bytes(block, 8)), Value(Bytes(count, 4)), protect, fua))
  {
    c[0] := c[0] + (READ_16 - READ_6);
    c[1] := FlagByte(protect, fua);
    PutLong(c, 2, block);
    PutWord(c, 10, count);
    c[14] := 0;
    c[15] := 0;
    assert c[..][2..10] == Bytes(block, 8);
    assert c[..][10..14] == Bytes(count, 4);
    Reads16(c[..], write, block, count, protect, fua);
  }

  lemma SameSlice(a: seq<Octet>, b: seq<Octet>, from: nat, to: nat)
    requires from <= to <= |a| == |b| && forall i :: from <= i < to ==> a[i] == b[i]
    ensures a[from..to] == b[from..to]
  {
  }

  lemma Reads32(c: seq<Octet>, write: bool, block: nat, count: nat, protect: bool, fua: bool)
    requires |c| == 32 && c[0] == VARIABLE_LENGTH_CMD && c[7] == 0x18 && c[8] == 0
    requires c[9] == (if write then WRITE_32 else READ_32) && c[10] == FlagByte(protect, fua)
    requires c[12..20] == Bytes(block, 8) && c[28..32] == Bytes(count, 4)
    ensures Decode(c) == Valid(Access(write, Value(Bytes(block, 8)), Value(Bytes(count, 4)), protect, fua))
  {
  }

  /** The 32-byte command of type 2 protection, with its expected initial reference tag. */
  method Fill32(write: bool, block: nat, count: nat, protect: bool, fua: bool) returns (c: array<Octet>)
    ensures fresh(c) && c.Length == 32
    ensures c[..][20..24] == Bytes(block, 4)
    ensures Decode(c[..]) == Valid(Access(write, Value(Bytes(block, 8)), Value(Bytes(count, 4)), protect, fua))
  {
    hide Bytes, Value, Decode, At;
    c := new Octet[32](i => 0);
    c[0] := VARIABLE_LENGTH_CMD;
    c[7] := 0x18;
    c[9] := if write then WRITE_32 else READ_32;
    c[10] := FlagByte(protect, fua);
    PutLong(c, 12, block);
    ghost var first := c[..];
    PutWord(c, 20, block);
    ghost var second := c[..];
    PutWord(c, 28, count);
    SameSlice(first, c[..], 12, 20);
    SameSlice(second, c[..], 20, 24);
    Reads32(c[..], write, block, count, protect, fua);
  }

  method PutHalf(c: array<Octet>, from: nat, x: nat)
    requires from + 2 <= c.Length
    modifies c
    ensures c[..][from..from + 2] == Bytes(x, 2)
    ensures forall i :: 0 <= i < c.Length && !(from <= i < from + 2) ==> c[i] == old(c[i])
  {
    c[from] := At(x, 1);
    c[from + 1] := At(x, 0);
    SliceIsBytes(c[..], from, x, 2);
  }

  /** Four and eight consecutive assignments of the source. */
  method PutWord(c: array<Octet>, from: nat, x: nat)
    requires from + 4 <= c.Length
    modifies c
    ensures c[..][from..from + 4] == Bytes(x, 4)
    ensures forall i :: 0 <= i < c.Length && !(from <= i < from + 4) ==> c[i] == old(c[i])
  {
    c[from] := At(x, 3);
    c[from + 1] := At(x, 2);
    c[from + 2] := At(x, 1);
    c[from + 3] := At(x, 0);
    SliceIsBytes(c[..], from, x, 4);
  }

  method PutLong(c: array<Octet>, from: nat, x: nat)
    requires from + 8 <= c.Length
    modifies c
    ensures c[..][from..from + 8] == Bytes(x, 8)
    ensures forall i :: 0 <= i < c.Length && !(from <= i < from + 8) ==> c[i] == old(c[i])
  {
    c[from] := At(x, 7);
    c[from + 1] := At(x, 6);
    c[from + 2] := At(x, 5);
    c[from + 3] := At(x, 4);
    c[from + 4] := At(x, 3);
    c[from + 5] := At(x, 2);
    c[from + 6] := At(x, 1);
    c[from + 7] := At(x, 0);
    SliceIsBytes(c[..], from, x, 8);
  }

  // Four command descriptor blocks, byte by byte.

  lemma Value2(a: Octet, b: Octet)
    ensures Value([a, b]) == 256 * a + b
  {
    assert [a, b][..1] == [a] && [a][..0] == [];
    assert Value([a]) == a;
  }

  lemma Value4(a: Octet, b: Octet, c: Octet, d: Octet)
    ensures Value([a, b, c, d]) == 0x100_0000 * a + 0x1_0000 * b + 256 * c + d
  {
    Value2(a, b);
    assert [a, b, c, d][..3] == [a, b, c] && [a, b, c][..2] == [a, b];
    assert Value([a, b, c]) == Value([a, b]) * 256 + c;
  }

  lemma Value8(s: seq<Octet>)
    requires |s| == 8
    ensures Value(s) == 0x1_0000_0000 * Value(s[..4]) + Value(s[4..])
  {
    var t := s[4..];
    Value4(t[0], t[1], t[2], t[3]);
    assert t == [t[0], t[1], t[2], t[3]];
    assert s[..7][..6] == s[..6] && s[..6][..5] == s[..5] && s[..5][..4] == s[..4];
    assert Value(s) == Value(s[..7]) * 256 + s[7];
    assert Value(s[..7]) == Value(s[..6]) * 256 + s[6];
    assert Value(s[..6]) == Value(s[..5]) * 256 + s[5];
    assert Value(s[..5]) == Value(s[..4]) * 256 + s[4];
  }

  /** READ(6) of 9 blocks at 0x12345; a count of 0 means 256. */
  lemma KnownSix()
    ensures Decode([0x08, 1, 0x23, 0x45, 9, 0, 0, 0, 0, 0, 0, 0, 0, 0, 0, 0]) == Valid(Access(false, 0x1_2345, 9, false, false))
    ensures Decode([0x0A, 0, 0, 7, 0, 0, 0, 0, 0, 0, 0, 0, 0, 0, 0, 0]) == Valid(Access(true, 7, 256, false, false))
  {
  }

  /** WRITE(10) with FUA of 0x0102 blocks at 0x12345678. */
  lemma KnownTen()
    ensures Decode([0x2A, 8] + [0x12, 0x34, 0x56, 0x78] + [0] + [1, 2] + [0, 0, 0, 0, 0, 0, 0])
      == Valid(Access(true, 0x1234_5678, 0x102, false, true))
  {
    var head: seq<Octet>, lba: seq<Octet>, n: seq<Octet> := [0x2A, 8], [0x12, 0x34, 0x56, 0x78], [1, 2];
    var c := head + lba + [0] + n + [0, 0, 0, 0, 0, 0, 0];
    assert c[0] == head[0] && c[1] == head[1] && c[2..6] == lba && c[7..9] == n;
    Value4(0x12, 0x34, 0x56, 0x78);
    Value2(1, 2);
  }

  /** READ(16) with protection of 0x01020304 blocks at 0x2_00000005. */
  lemma KnownSixteen()
    ensures Decode([0x88, 0x20] + [0, 0, 0, 2, 0, 0, 0, 5] + [1, 2, 3, 4] + [0, 0])
      == Valid(Access(false, 0x2_0000_0005, 0x102_0304, true, false))
  {
    var head: seq<Octet>, lba: seq<Octet>, n: seq<Octet> := [0x88, 0x20], [0, 0, 0, 2, 0, 0, 0, 5], [1, 2, 3, 4];
    var c := head + lba + n + [0, 0];
    assert c[0] == head[0] && c[1] == head[1] && c[2..10] == lba && c[10..14] == n;
    assert lba[..4] == [0, 0, 0, 2] && lba[4..] == [0, 0, 0, 5];
    Value8(lba);
    Value4(0, 0, 0, 2);
    Value4(0, 0, 0, 5);
    Value4(1, 2, 3, 4);
  }

  /** WRITE(32) with protection of 3 blocks at 6, expecting reference tag 6. */
  lemma KnownThirtyTwo()
    ensures Decode([0x7F, 0, 0, 0, 0, 0, 0, 0x18, 0, 0x0B, 0x20, 0] + [0, 0, 0, 0, 0, 0, 0, 6] + [0, 0, 0, 6, 0, 0, 0, 0] + [0, 0, 0, 3])
      == Valid(Access(true, 6, 3, true, false))
  {
    var head: seq<Octet> := [0x7F, 0, 0, 0, 0, 0, 0, 0x18, 0, 0x0B, 0x20, 0];
    var lba: seq<Octet>, tags: seq<Octet>, n: seq<Octet> := [0, 0, 0, 0, 0, 0, 0, 6], [0, 0, 0, 6, 0, 0, 0, 0], [0, 0, 0, 3];
    var c := head + lba + tags + n;
    assert c[..12] == head && c[12..20] == lba && c[28..32] == n;
    assert c[0] == head[0] && c[7] == head[7] && c[8] == head[8] && c[9] == head[9] && c[10] == head[10];
    assert lba[..4] == [0, 0, 0, 0] && lba[4..] == [0, 0, 0, 6];
    Value8(lba);
    Value4(0, 0, 0, 0);
    Value4(0, 0, 0, 6);
    Value4(0, 0, 0, 3);
  }
}
