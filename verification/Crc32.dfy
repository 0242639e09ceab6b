/**
 swap_crc32 (drivers/scsi/swap/crc32.c): table driven and unrolled, equal to the bitwise
 CRC-32 on every buffer, and certain to notice any change within 32 consecutive bits.
 */
module Crc32 {
  import opened Crc32Table

  function Xor(a: bv32, b: bv32): bv32 { a ^ b }

  /** The reference: feed the bytes one after another, eight bits each. */
  function Feed(c: bv32, b: bv8): bv32 { Bits8(Xor(c, b as bv32)) }

  function Fold(c: bv32, buf: seq<bv8>): bv32
    decreases buf
  {
    if buf == [] then c else Fold(Feed(c, buf[0]), buf[1..])
  }

  function Crc(crc: bv32, buf: seq<bv8>): bv32 {
    Xor(Fold(Xor(crc, 0xFFFF_FFFF), buf), 0xFFFF_FFFF)
  }

  lemma Regroup(c: bv32, b: bv32, w: bv32)
    ensures Xor(c, Xor(b, w)) == Xor(Xor(c, b), w)
  {
  }

  lemma XorSwap(a: bv32, b: bv32)
    ensures Xor(a, b) == Xor(b, a)
  {
  }

  // Bits above the lowest are shifted down untouched: one step, four steps, eight.

  predicate Small(z: bv32) { z < 0x8000_0000 }

  predicate Doubled(z: bv32, w: bv32) { Small(z) && w == z << 1 }

  function Half(x: bv32): bv32 { x >> 1 }

  predicate Odd(x: bv32) { x & 1 == 1 }

  function Divide(h: bv32, odd: bool): bv32 { if odd then Xor(h, 0xEDB88320) else h }

  lemma BitDivides(x: bv32)
    ensures Bit(x) == Divide(Half(x), Odd(x))
  {
  }

  lemma HalfPasses(x: bv32, z: bv32, w: bv32)
    requires Doubled(z, w)
    ensures Odd(Xor(x, w)) == Odd(x) && Half(Xor(x, w)) == Xor(Half(x), z)
  {
  }

  lemma DividePasses(h: bv32, z: bv32, odd: bool)
    ensures Divide(Xor(h, z), odd) == Xor(Divide(h, odd), z)
  {
    hide Xor;
    Regroup(h, z, 0xEDB88320);
    XorSwap(z, 0xEDB88320);
    Regroup(h, 0xEDB88320, z);
  }

  lemma BitPasses(x: bv32, z: bv32, w: bv32)
    requires Doubled(z, w)
    ensures Bit(Xor(x, w)) == Xor(Bit(x), z)
  {
    hide Bit, Xor, Half, Odd, Divide, Doubled;
    BitDivides(x);
    BitDivides(Xor(x, w));
    HalfPasses(x, z, w);
    DividePasses(Half(x), z, Odd(x));
  }

  lemma FourPass(x: bv32, z0: bv32, z1: bv32, z2: bv32, z3: bv32, z4: bv32)
    requires Doubled(z0, z1) && Doubled(z1, z2) && Doubled(z2, z3) && Doubled(z3, z4)
    ensures Bit(Bit(Bit(Bit(Xor(x, z4))))) == Xor(Bit(Bit(Bit(Bit(x)))), z0)
  {
    BitPasses(x, z3, z4);
    BitPasses(Bit(x), z2, z3);
    BitPasses(Bit(Bit(x)), z1, z2);
    BitPasses(Bit(Bit(Bit(x))), z0, z1);
  }

  lemma Doublings(y: bv32)
    requires y < 0x1000_0000
    ensures Doubled(y, y << 1) && Doubled(y << 1, y << 2) && Doubled(y << 2, y << 3) && Doubled(y << 3, y << 4)
  {
  }

  lemma NibblePasses(x: bv32, y: bv32)
    requires y < 0x1000_0000
    ensures Bit(Bit(Bit(Bit(Xor(x, y << 4))))) == Xor(Bit(Bit(Bit(Bit(x)))), y)
  {
    Doublings(y);
    FourPass(x, y, y << 1, y << 2, y << 3, y << 4);
  }

  lemma TwoNibbles(y: bv32)
    requires y < 0x100_0000
    ensures y << 4 < 0x1000_0000 && (y << 4) << 4 == y << 8
  {
  }

  lemma BytePasses(x: bv32, y: bv32)
    requires y < 0x100_0000
    ensures Bits8(Xor(x, y << 8)) == Xor(Bits8(x), y)
  {
    TwoNibbles(y);
    NibblePasses(x, y << 4);
    NibblePasses(Bit(Bit(Bit(Bit(x)))), y);
  }

  // One table step is eight bitwise steps.

  lemma Halves(x: bv32)
    ensures x == Xor(x & 0xFF, (x >> 8) << 8)
  {
  }

  lemma TableStep(x: bv32)
    ensures Bits8(x) == Xor(Bits8(x & 0xFF), x >> 8)
  {
    Halves(x);
    BytePasses(x & 0xFF, x >> 8);
  }

  lemma LowByte(c: bv32, b: bv8)
    ensures var x := Xor(c, b as bv32); ((x & 0xFF) as bv8) as bv32 == x & 0xFF && x >> 8 == c >> 8
  {
  }

  /** DO1. */
  method Do1(c: bv32, b: bv8) returns (r: bv32)
    ensures r == Feed(c, b)
  {
    var x := Xor(c, b as bv32);
    var t := Table((x & 0xFF) as bv8);
    r := Xor(t, c >> 8);
    LowByte(c, b);
    TableStep(x);
  }

  lemma {:induction false} FoldConcat(c: bv32, a: seq<bv8>, b: seq<bv8>)
    ensures Fold(c, a + b) == Fold(Fold(c, a), b)
    decreases a
  {
    if a == [] {
      assert a + b == b;
    } else {
      assert (a + b)[1..] == a[1..] + b;
      FoldConcat(Feed(c, a[0]), a[1..], b);
    }
  }

  lemma FoldOne(c: bv32, buf: seq<bv8>, i: nat)
    requires i < |buf|
    ensures Fold(c, buf[..i + 1]) == Feed(Fold(c, buf[..i]), buf[i])
  {
    assert buf[..i + 1] == buf[..i] + [buf[i]];
    FoldConcat(c, buf[..i], [buf[i]]);
    assert [buf[i]][1..] == [];
  }

  /** DO1 at a position of the buffer. */
  method Do1At(ghost c: bv32, r: bv32, buf: seq<bv8>, i: nat) returns (r': bv32)
    requires i < |buf| && r == Fold(c, buf[..i])
    ensures r' == Fold(c, buf[..i + 1])
  {
    r' := Do1(r, buf[i]);
    FoldOne(c, buf, i);
  }

  method Do2(ghost c: bv32, r: bv32, buf: seq<bv8>, i: nat) returns (r': bv32)
    requires i + 2 <= |buf| && r == Fold(c, buf[..i])
    ensures r' == Fold(c, buf[..i + 2])
  {
    r' := Do1At(c, r, buf, i);
    r' := Do1At(c, r', buf, i + 1);
  }

  method Do4(ghost c: bv32, r: bv32, buf: seq<bv8>, i: nat) returns (r': bv32)
    requires i + 4 <= |buf| && r == Fold(c, buf[..i])
    ensures r' == Fold(c, buf[..i + 4])
  {
    r' := Do2(c, r, buf, i);
    r' := Do2(c, r', buf, i + 2);
  }

  method Do8(ghost c: bv32, r: bv32, buf: seq<bv8>, i: nat) returns (r': bv32)
    requires i + 8 <= |buf| && r == Fold(c, buf[..i])
    ensures r' == Fold(c, buf[..i + 8])
  {
    r' := Do4(c, r, buf, i);
    r' := Do4(c, r', buf, i + 4);
  }

  /** swap_crc32: eight bytes a turn, then the rest one by one. */
  method SwapCrc32(crc: bv32, buf: seq<bv8>) returns (r: bv32)
    ensures r == Crc(crc, buf)
  {
    ghost var c := Xor(crc, 0xFFFF_FFFF);
    r := Xor(crc, 0xFFFF_FFFF);
    var i: nat := 0;
    while |buf| - i >= 8
      invariant i <= |buf| && r == Fold(c, buf[..i])
    {
      r := Do8(c, r, buf, i);
      i := i + 8;
    }
    while i < |buf|
      invariant i <= |buf| && r == Fold(c, buf[..i])
    {
      r := Do1At(c, r, buf, i);
      i := i + 1;
    }
    assert buf[..i] == buf;
    r := Xor(r, 0xFFFF_FFFF);
  }

  lemma XorTwice(a: bv32, b: bv32)
    ensures Xor(Xor(a, b), b) == a
  {
  }

  /** A CRC can be continued: crc(crc(c, a), b) = crc(c, a ++ b). */
  lemma CrcContinues(c: bv32, a: seq<bv8>, b: seq<bv8>)
    ensures Crc(Crc(c, a), b) == Crc(c, a + b)
  {
    var k := Xor(c, 0xFFFF_FFFF);
    XorTwice(Fold(k, a), 0xFFFF_FFFF);
    FoldConcat(k, a, b);
  }

  // The same register fed bit by bit, lowest bit of each byte first.

  function Unit(b: bool): bv32 { if b then 1 else 0 }

  function Shift(c: bv32, b: bool): bv32 { Bit(Xor(c, Unit(b))) }

  function Serial(c: bv32, bits: seq<bool>): bv32
    decreases bits
  {
    if bits == [] then c else Serial(Shift(c, bits[0]), bits[1..])
  }

  function Steps(x: bv32, k: nat): bv32
    decreases k
  {
    if k == 0 then x else Steps(Bit(x), k - 1)
  }

  function Down(w: bv32, k: nat): bv32
    decreases k
  {
    if k == 0 then w else Down(Half(w), k - 1)
  }

  /** The k lowest bits of w. */
  function BitsOf(w: bv32, k: nat): (r: seq<bool>)
    ensures |r| == k
  {
    if k == 0 then [] else [Odd(w)] + BitsOf(Half(w), k - 1)
  }

  function ByteBits(b: bv8): (r: seq<bool>)
    ensures |r| == 8
  {
    BitsOf(b as bv32, 8)
  }

  /** The bits of a buffer in the order they go over the wire. */
  function Message(buf: seq<bv8>): (r: seq<bool>)
    ensures |r| == 8 * |buf|
  {
    if buf == [] then [] else ByteBits(buf[0]) + Message(buf[1..])
  }

  function Twice(z: bv32): bv32 { z << 1 }

  lemma LowBit(w: bv32)
    ensures Doubled(Half(w), Twice(Half(w))) && w == Xor(Unit(Odd(w)), Twice(Half(w)))
  {
  }

  lemma OneStep(c: bv32, w: bv32)
    ensures Bit(Xor(c, w)) == Xor(Shift(c, Odd(w)), Half(w))
  {
    hide Xor, Bit, Odd, Half, Unit, Twice, Doubled;
    LowBit(w);
    Regroup(c, Unit(Odd(w)), Twice(Half(w)));
    BitPasses(Xor(c, Unit(Odd(w))), Half(w), Twice(Half(w)));
  }

  /** k steps on a register that already holds k bits are the same as shifting those bits in. */
  lemma {:induction false} StepsAreSerial(c: bv32, w: bv32, k: nat)
    ensures Steps(Xor(c, w), k) == Xor(Serial(c, BitsOf(w, k)), Down(w, k))
    decreases k
  {
    if k > 0 {
      OneStep(c, w);
      StepsAreSerial(Shift(c, Odd(w)), Half(w), k - 1);
      assert BitsOf(w, k)[1..] == BitsOf(Half(w), k - 1);
    }
  }

  lemma {:induction false} DownAdd(w: bv32, j: nat, k: nat)
    ensures Down(w, j + k) == Down(Down(w, j), k)
    decreases j
  {
    if j > 0 {
      DownAdd(Half(w), j - 1, k);
    }
  }

  lemma DownFour(w: bv32)
    ensures Down(w, 4) == w >> 4
  {
    DownThree(w >> 1);
    DownStep(w, 4);
    ThreeAndOne(w);
  }

  lemma DownThree(w: bv32)
    ensures Down(w, 3) == w >> 3
  {
  }

  lemma ThreeAndOne(w: bv32)
    ensures (w >> 1) >> 3 == w >> 4
  {
  }

  lemma DownStep(w: bv32, k: nat)
    requires k > 0
    ensures Down(w, k) == Down(Half(w), k - 1)
  {
  }

  lemma ByteShifts(w: bv32)
    ensures (w >> 4) >> 4 == w >> 8 && (w >> 8) >> 8 == w >> 16
  {
  }

  lemma TopShifts(w: bv32)
    ensures (w >> 16) >> 8 == w >> 24 && (w >> 24) >> 4 == w >> 28
  {
  }

  lemma DownWord(w: bv32)
    ensures Down(w, 16) == w >> 16
  {
    hide Down;
    DownByte(w);
    DownByte(w >> 8);
    DownAdd(w, 8, 8);
    ByteShifts(w);
  }

  lemma DownByte(w: bv32)
    ensures Down(w, 8) == w >> 8
  {
    hide Down;
    DownFour(w);
    DownFour(w >> 4);
    DownAdd(w, 4, 4);
    ByteShifts(w);
  }

  lemma DownTop(w: bv32)
    ensures Down(w, 28) == w >> 28
  {
    hide Down;
    DownWord(w);
    DownByte(w >> 16);
    DownFour(w >> 24);
    DownAdd(w, 16, 8);
    DownAdd(w, 24, 4);
    TopShifts(w);
  }

  lemma StepsEight(x: bv32)
    ensures Steps(x, 8) == Bits8(x)
  {
    hide Bit;
    var y := Bit(Bit(Bit(Bit(x))));
    assert Steps(x, 8) == Steps(Bit(Bit(x)), 6);
    assert Steps(Bit(Bit(x)), 6) == Steps(y, 4);
    assert Steps(y, 4) == Steps(Bit(Bit(y)), 2);
    assert Steps(Bit(Bit(y)), 2) == Bit(Bit(Bit(Bit(y))));
  }

  lemma XorZero(c: bv32)
    ensures Xor(c, 0) == c
  {
  }

  lemma ByteIsSmall(b: bv8)
    ensures (b as bv32) >> 8 == 0
  {
  }

  lemma FeedIsSerial(c: bv32, b: bv8)
    ensures Feed(c, b) == Serial(c, ByteBits(b))
  {
    hide Serial, Steps, Down, BitsOf, Bits8;
    StepsEight(Xor(c, b as bv32));
    StepsAreSerial(c, b as bv32, 8);
    DownByte(b as bv32);
    ByteIsSmall(b);
    XorZero(Serial(c, BitsOf(b as bv32, 8)));
  }

  lemma {:induction false} SerialConcat(c: bv32, a: seq<bool>, b: seq<bool>)
    ensures Serial(c, a + b) == Serial(Serial(c, a), b)
    decreases a
  {
    if a == [] {
      assert a + b == b;
    } else {
      assert (a + b)[1..] == a[1..] + b;
      SerialConcat(Shift(c, a[0]), a[1..], b);
    }
  }

  lemma {:induction false} FoldIsSerial(c: bv32, buf: seq<bv8>)
    ensures Fold(c, buf) == Serial(c, Message(buf))
    decreases buf
  {
    hide Feed, ByteBits, Serial;
    if buf == [] {
      SerialEmpty(c);
    } else {
      FeedIsSerial(c, buf[0]);
      FoldIsSerial(Feed(c, buf[0]), buf[1..]);
      SerialConcat(c, ByteBits(buf[0]), Message(buf[1..]));
    }
  }

  lemma SerialEmpty(c: bv32)
    ensures Serial(c, []) == c
  {
  }

  // A buffer is determined by its bits.

  lemma {:induction false} BitsInjective(w: bv32, x: bv32, k: nat)
    requires BitsOf(w, k) == BitsOf(x, k) && Down(w, k) == Down(x, k)
    ensures w == x
    decreases k
  {
    if k > 0 {
      assert BitsOf(w, k)[0] == BitsOf(x, k)[0];
      assert BitsOf(Half(w), k - 1) == BitsOf(w, k)[1..] == BitsOf(x, k)[1..] == BitsOf(Half(x), k - 1);
      BitsInjective(Half(w), Half(x), k - 1);
      LowBit(w);
      LowBit(x);
    }
  }

  lemma BytesInjective(a: bv8, b: bv8)
    requires ByteBits(a) == ByteBits(b)
    ensures a == b
  {
    hide BitsOf, Down;
    DownByte(a as bv32);
    DownByte(b as bv32);
    ByteIsSmall(a);
    ByteIsSmall(b);
    BitsInjective(a as bv32, b as bv32, 8);
  }

  lemma {:induction false} MessageInjective(a: seq<bv8>, b: seq<bv8>)
    requires |a| == |b| && Message(a) == Message(b)
    ensures a == b
    decreases a
  {
    hide ByteBits;
    if a != [] {
      assert ByteBits(a[0]) == Message(a)[..8] == Message(b)[..8] == ByteBits(b[0]);
      assert Message(a[1..]) == Message(a)[8..] == Message(b)[8..] == Message(b[1..]);
      BytesInjective(a[0], b[0]);
      MessageInjective(a[1..], b[1..]);
      assert a == [a[0]] + a[1..] && b == [b[0]] + b[1..];
    }
  }

  lemma {:induction false} MessageBit(a: seq<bv8>, k: nat)
    requires k < 8 * |a|
    ensures Message(a)[k] == ByteBits(a[k / 8])[k % 8]
    decreases a
  {
    hide ByteBits;
    if k >= 8 {
      MessageBit(a[1..], k - 8);
      assert a[k / 8] == a[1..][(k - 8) / 8];
    }
  }

  // No step loses information, and a difference needs 32 bits to be undone.

  lemma BitInjective(x: bv32, y: bv32)
    requires Bit(x) == Bit(y)
    ensures x == y
  {
  }

  lemma XorInjective(x: bv32, y: bv32, k: bv32)
    requires Xor(x, k) == Xor(y, k)
    ensures x == y
  {
    XorTwice(x, k);
    XorTwice(y, k);
  }

  lemma {:induction false} SerialInjective(c: bv32, d: bv32, s: seq<bool>)
    requires Serial(c, s) == Serial(d, s)
    ensures c == d
    decreases s
  {
    if s != [] {
      var k := Unit(s[0]);
      SerialInjective(Shift(c, s[0]), Shift(d, s[0]), s[1..]);
      BitInjective(Xor(c, k), Xor(d, k));
      XorInjective(c, d, k);
    }
  }

  lemma FoldInjective(c: bv32, d: bv32, s: seq<bv8>)
    requires Fold(c, s) == Fold(d, s)
    ensures c == d
  {
    hide Fold, Serial, Message;
    FoldIsSerial(c, s);
    FoldIsSerial(d, s);
    SerialInjective(c, d, Message(s));
  }

  lemma {:induction false} DownZero(k: nat)
    ensures Down(0, k) == 0
    decreases k
  {
    if k > 0 {
      DownZero(k - 1);
    }
  }

  lemma HalfXor(x: bv32, y: bv32)
    ensures Half(Xor(x, y)) == Xor(Half(x), Half(y))
  {
  }

  lemma {:induction false} DownXor(x: bv32, y: bv32, k: nat)
    ensures Down(Xor(x, y), k) == Xor(Down(x, k), Down(y, k))
    decreases k
  {
    if k > 0 {
      HalfXor(x, y);
      DownXor(Half(x), Half(y), k - 1);
    }
  }

  /** A word of at most 31 bits has a clear top bit. */
  lemma TopClear(z: bv32, k: nat)
    requires k <= 31 && Down(z, k) == 0
    ensures Small(z)
  {
    hide Down;
    DownAdd(z, k, 31 - k);
    DownZero(31 - k);
    DownAdd(z, 28, 3);
    DownTop(z);
    DownThree(z >> 28);
    TopShift(z);
  }

  lemma TopShift(z: bv32)
    requires (z >> 28) >> 3 == 0
    ensures Small(z)
  {
  }

  function Delta(a: bool, b: bool): bv32 { Unit(a != b) }

  lemma DeltaIsXor(a: bool, b: bool)
    ensures Xor(Unit(a), Unit(b)) == Delta(a, b)
  {
  }

  lemma XorCancel(a: bv32, b: bv32)
    ensures Xor(a, Xor(a, b)) == b
  {
  }

  lemma BitBack(x: bv32, y: bv32)
    requires Small(Xor(Bit(x), Bit(y)))
    ensures Xor(x, y) == Twice(Xor(Bit(x), Bit(y)))
  {
    hide Bit, Xor, Small;
    var z := Xor(Bit(x), Bit(y));
    BitPasses(x, z, Twice(z));
    XorCancel(Bit(x), Bit(y));
    BitInjective(Xor(x, Twice(z)), y);
    XorCancel(x, Twice(z));
  }

  lemma Exchange(x: bv32, p: bv32, y: bv32, q: bv32)
    ensures Xor(Xor(x, p), Xor(y, q)) == Xor(Xor(x, y), Xor(p, q))
  {
    hide Xor;
    Regroup(x, p, Xor(y, q));
    Regroup(p, y, q);
    XorSwap(p, y);
    Regroup(y, p, q);
    Regroup(x, y, Xor(p, q));
  }

  /** One step back: without a carry into the top bit, the feedback cannot have differed. */
  lemma StepBack(s: bv32, t: bv32, a: bool, b: bool)
    requires Small(Xor(Shift(s, a), Shift(t, b)))
    ensures Xor(s, t) == Xor(Twice(Xor(Shift(s, a), Shift(t, b))), Delta(a, b))
  {
    hide Bit, Xor, Unit, Delta, Twice, Small;
    BitBack(Xor(s, Unit(a)), Xor(t, Unit(b)));
    XorTwice(s, Unit(a));
    XorTwice(t, Unit(b));
    Exchange(Xor(s, Unit(a)), Unit(a), Xor(t, Unit(b)), Unit(b));
    DeltaIsXor(a, b);
  }

  lemma TwiceHalf(z: bv32)
    requires Small(z)
    ensures Half(Twice(z)) == z
  {
  }

  lemma {:induction false} DownTwice(z: bv32, k: nat)
    requires Small(z) && Down(z, k) == 0
    ensures Down(Twice(z), k + 1) == 0
  {
    TwiceHalf(z);
  }

  lemma {:induction false} DownDelta(a: bool, b: bool, k: nat)
    ensures Down(Delta(a, b), k + 1) == 0
  {
    DownZero(k);
    assert Half(Delta(a, b)) == 0;
  }

  lemma SelfXor(s: bv32)
    ensures Xor(s, s) == 0
  {
  }

  /** Registers that meet after n more bits, n at most 32, differ only in their n lowest bits. */
  lemma {:induction false} MeetingClose(s: bv32, t: bv32, u: seq<bool>, v: seq<bool>)
    requires |u| == |v| <= 32 && Serial(s, u) == Serial(t, v)
    ensures Down(Xor(s, t), |u|) == 0
    decreases u
  {
    hide Down, Xor, Shift, Twice, Delta, Bit, Small;
    if u == [] {
      SelfXor(s);
      DownZero(0);
    } else {
      var z := Xor(Shift(s, u[0]), Shift(t, v[0]));
      MeetingClose(Shift(s, u[0]), Shift(t, v[0]), u[1..], v[1..]);
      TopClear(z, |u| - 1);
      StepBack(s, t, u[0], v[0]);
      DownTwice(z, |u| - 1);
      DownDelta(u[0], v[0], |u| - 1);
      DownXor(Twice(z), Delta(u[0], v[0]), |u|);
      SelfXor(0);
    }
  }

  lemma SameStart(c: bv32, z: bv32, a: bool, b: bool)
    requires Xor(c, c) == Xor(Twice(z), Delta(a, b))
    ensures a == b
  {
    SelfXor(c);
  }

  /** From one register, different inputs of at most 32 bits lead to different registers. */
  lemma {:induction false} WindowInjective(c: bv32, u: seq<bool>, v: seq<bool>)
    requires |u| == |v| <= 32 && Serial(c, u) == Serial(c, v)
    ensures u == v
    decreases u
  {
    hide Down, Xor, Shift, Twice, Delta, Bit, Small;
    if u != [] {
      var z := Xor(Shift(c, u[0]), Shift(c, v[0]));
      MeetingClose(Shift(c, u[0]), Shift(c, v[0]), u[1..], v[1..]);
      TopClear(z, |u| - 1);
      StepBack(c, c, u[0], v[0]);
      SameStart(c, z, u[0], v[0]);
      WindowInjective(Shift(c, u[0]), u[1..], v[1..]);
      assert u == [u[0]] + u[1..] && v == [v[0]] + v[1..];
    }
  }

  lemma DownAll(w: bv32)
    ensures Down(w, 32) == 0
  {
    hide Down;
    DownTop(w);
    DownFour(w >> 28);
    DownAdd(w, 28, 4);
    assert (w >> 28) >> 4 == 0;
  }

  /** 32 bits is the limit: from every register two inputs of 33 bits lead to the same register. */
  lemma LongerBurstMissed(c: bv32) returns (u: seq<bool>, v: seq<bool>)
    ensures |u| == |v| == 33 && u[0] != v[0] && Serial(c, u) == Serial(c, v)
  {
    hide Shift, BitsOf, Steps, Xor, Down;
    var x, y := Shift(c, false), Shift(c, true);
    u, v := [false] + BitsOf(x, 32), [true] + BitsOf(y, 32);
    assert u[1..] == BitsOf(x, 32) && v[1..] == BitsOf(y, 32);
    StepsAreSerial(x, x, 32);
    StepsAreSerial(y, y, 32);
    SelfXor(x);
    SelfXor(y);
    DownAll(x);
    DownAll(y);
    XorZero(Serial(x, BitsOf(x, 32)));
    XorZero(Serial(y, BitsOf(y, 32)));
  }

  lemma SerialBurst(c: bv32, p: seq<bool>, u: seq<bool>, v: seq<bool>, s: seq<bool>)
    requires |u| == |v| <= 32 && Serial(c, p + u + s) == Serial(c, p + v + s)
    ensures u == v
  {
    hide Serial;
    SerialConcat(c, p + u, s);
    SerialConcat(c, p, u);
    SerialConcat(c, p + v, s);
    SerialConcat(c, p, v);
    SerialInjective(Serial(Serial(c, p), u), Serial(Serial(c, p), v), s);
    WindowInjective(Serial(c, p), u, v);
  }

  lemma SerialDetects(c: bv32, a: seq<bool>, b: seq<bool>, i: nat)
    requires |a| == |b| && Serial(c, a) == Serial(c, b)
    requires forall k :: 0 <= k < |a| && !(i <= k < i + 32) ==> a[k] == b[k]
    ensures a == b
  {
    hide Serial;
    var lo := if i <= |a| then i else |a|;
    var hi := if i + 32 <= |a| then i + 32 else |a|;
    assert a == a[..lo] + a[lo..hi] + a[hi..];
    assert a[..lo] == b[..lo] && a[hi..] == b[hi..];
    assert b == a[..lo] + b[lo..hi] + a[hi..];
    SerialBurst(c, a[..lo], a[lo..hi], b[lo..hi], a[hi..]);
  }

  /** Buffers that differ at most in 32 consecutive bits, at any bit offset, share a CRC only if they are equal. */
  lemma BurstDetected(c: bv32, a: seq<bv8>, b: seq<bv8>, i: nat)
    requires |a| == |b|
    requires forall k :: 0 <= k < 8 * |a| && !(i <= k < i + 32) ==> Message(a)[k] == Message(b)[k]
    ensures Crc(c, a) == Crc(c, b) <==> a == b
  {
    hide Message, Fold, Serial;
    if Crc(c, a) == Crc(c, b) {
      var k := Xor(c, 0xFFFF_FFFF);
      XorInjective(Fold(k, a), Fold(k, b), 0xFFFF_FFFF);
      FoldIsSerial(k, a);
      FoldIsSerial(k, b);
      SerialDetects(k, Message(a), Message(b), i);
      MessageInjective(a, b);
    }
  }

  /** In particular: two buffers of one length that differ, all differences within four bytes. */
  lemma ChangeDetected(c: bv32, a: seq<bv8>, b: seq<bv8>, i: nat)
    requires |a| == |b| && a != b
    requires forall k :: 0 <= k < |a| && !(i <= k < i + 4) ==> a[k] == b[k]
    ensures Crc(c, a) != Crc(c, b)
  {
    hide Message, ByteBits;
    forall k: nat | k < 8 * |a| && !(8 * i <= k < 8 * i + 32)
      ensures Message(a)[k] == Message(b)[k]
    {
      MessageBit(a, k);
      MessageBit(b, k);
    }
    BurstDetected(c, a, b, 8 * i);
  }

  // Inverting the register before and after gives every message the same residue.

  function Le32(x: bv32): (r: seq<bv8>)
    ensures |r| == 4
  {
    [(x & 0xFF) as bv8, ((x >> 8) & 0xFF) as bv8, ((x >> 16) & 0xFF) as bv8, (x >> 24) as bv8]
  }

  lemma {:induction false} BitsSplit(w: bv32, j: nat, k: nat)
    ensures BitsOf(w, j + k) == BitsOf(w, j) + BitsOf(Down(w, j), k)
    decreases j
  {
    hide Half, Odd;
    if j > 0 {
      BitsSplit(Half(w), j - 1, k);
    }
  }

  lemma BitsFour(w: bv32)
    ensures BitsOf(w, 4) == [w & 1 == 1, w & 2 == 2, w & 4 == 4, w & 8 == 8]
  {
    var h := Half(Half(w));
    assert BitsOf(w, 4) == [Odd(w), Odd(Half(w))] + BitsOf(h, 2);
    assert BitsOf(h, 2) == [Odd(h), Odd(Half(h))];
  }

  lemma LowFour(v: bv32, w: bv32)
    requires v & 0xF == w & 0xF
    ensures v & 1 == w & 1 && v & 2 == w & 2 && v & 4 == w & 4 && v & 8 == w & 8
  {
  }

  lemma SameFour(v: bv32, w: bv32)
    requires v & 0xF == w & 0xF
    ensures BitsOf(v, 4) == BitsOf(w, 4)
  {
    hide BitsOf;
    BitsFour(v);
    BitsFour(w);
    LowFour(v, w);
  }

  lemma Nibbles(v: bv32, w: bv32)
    requires v & 0xFF == w & 0xFF
    ensures v & 0xF == w & 0xF && (v >> 4) & 0xF == (w >> 4) & 0xF
  {
  }

  lemma SameByte(v: bv32, w: bv32)
    requires v & 0xFF == w & 0xFF
    ensures BitsOf(v, 8) == BitsOf(w, 8)
  {
    hide BitsOf, Down;
    Nibbles(v, w);
    SameFour(v, w);
    SameFour(v >> 4, w >> 4);
    DownFour(v);
    DownFour(w);
    BitsSplit(v, 4, 4);
    BitsSplit(w, 4, 4);
  }

  lemma LowByteBits(x: bv32, b: bv8)
    requires (b as bv32) & 0xFF == x & 0xFF
    ensures ByteBits(b) == BitsOf(x, 8)
  {
    hide BitsOf;
    SameByte(b as bv32, x);
  }

  lemma LeByte0(x: bv32)
    ensures ByteBits(Le32(x)[0]) == BitsOf(x, 8)
  {
    hide BitsOf, ByteBits;
    LowByteBits(x, Le32(x)[0]);
  }

  lemma LeByte1(x: bv32)
    ensures ByteBits(Le32(x)[1]) == BitsOf(Down(x, 8), 8)
  {
    hide BitsOf, ByteBits, Down;
    DownByte(x);
    LowByteBits(x >> 8, Le32(x)[1]);
  }

  lemma LeByte2(x: bv32)
    ensures ByteBits(Le32(x)[2]) == BitsOf(Down(x, 16), 8)
  {
    hide BitsOf, ByteBits, Down;
    DownWord(x);
    LowByteBits(x >> 16, Le32(x)[2]);
  }

  lemma DownThreeBytes(x: bv32)
    ensures Down(x, 24) == x >> 24
  {
    hide Down;
    DownWord(x);
    DownByte(x >> 16);
    DownAdd(x, 16, 8);
    TopShifts(x);
  }

  lemma LeByte3(x: bv32)
    ensures ByteBits(Le32(x)[3]) == BitsOf(Down(x, 24), 8)
  {
    hide BitsOf, ByteBits, Down;
    DownThreeBytes(x);
    LowByteBits(x >> 24, Le32(x)[3]);
  }

  lemma MessageStep(r: seq<bv8>)
    ensures r == [] ==> Message(r) == []
    ensures r != [] ==> Message(r) == ByteBits(r[0]) + Message(r[1..])
  {
    hide ByteBits;
  }

  lemma MessageOfFour(r: seq<bv8>)
    requires |r| == 4
    ensures Message(r) == ByteBits(r[0]) + (ByteBits(r[1]) + (ByteBits(r[2]) + ByteBits(r[3])))
  {
    hide ByteBits, Message;
    assert r[1..][1..] == r[2..] && r[2..][1..] == r[3..] && r[3..][1..] == [];
    MessageStep(r);
    MessageStep(r[1..]);
    MessageStep(r[2..]);
    MessageStep(r[3..]);
    MessageStep(r[3..][1..]);
    assert ByteBits(r[3]) + [] == ByteBits(r[3]);
  }

  lemma WordBits(x: bv32)
    ensures BitsOf(x, 32) == BitsOf(x, 8) + (BitsOf(Down(x, 8), 8) + (BitsOf(Down(x, 16), 8) + BitsOf(Down(x, 24), 8)))
  {
    hide BitsOf, Down;
    BitsSplit(x, 8, 24);
    BitsSplit(Down(x, 8), 8, 16);
    DownAdd(x, 8, 8);
    BitsSplit(Down(x, 16), 8, 8);
    DownAdd(x, 16, 8);
  }

  /** The four little-endian bytes of a word go over the wire as its bits, lowest first. */
  lemma LeIsBits(x: bv32)
    ensures Message(Le32(x)) == BitsOf(x, 32)
  {
    hide BitsOf, ByteBits, Down, Message, Le32;
    LeByte0(x);
    LeByte1(x);
    LeByte2(x);
    LeByte3(x);
    MessageOfFour(Le32(x));
    WordBits(x);
  }

  lemma {:induction false} StepsAdd(x: bv32, j: nat, k: nat)
    ensures Steps(x, j + k) == Steps(Steps(x, j), k)
    decreases j
  {
    hide Bit;
    if j > 0 {
      StepsAdd(Bit(x), j - 1, k);
    }
  }

  lemma OneBytes()
    ensures Bits8(0xFFFF_FFFF) == 0x2DFD_1072 && Bits8(0x2DFD_1072) == 0xBE26_ED00
    ensures Bits8(0xBE26_ED00) == 0x00BE_26ED && Bits8(0x00BE_26ED) == 0xDEBB_20E3
  {
  }

  lemma OnesThrough()
    ensures Steps(0xFFFF_FFFF, 32) == 0xDEBB_20E3
  {
    hide Steps, Bits8;
    OneBytes();
    StepsEight(0xFFFF_FFFF);
    StepsEight(0x2DFD_1072);
    StepsEight(0xBE26_ED00);
    StepsEight(0x00BE_26ED);
    StepsAdd(0xFFFF_FFFF, 8, 24);
    StepsAdd(0x2DFD_1072, 8, 16);
    StepsAdd(0xBE26_ED00, 8, 8);
  }

  /** A register that is fed its own complement ends up the same, whatever it was. */
  lemma OwnComplement(r: bv32)
    ensures Fold(r, Le32(Xor(r, 0xFFFF_FFFF))) == 0xDEBB_20E3
  {
    hide Fold, Serial, Steps, BitsOf, Down, Message, Le32, Xor;
    var x := Xor(r, 0xFFFF_FFFF);
    FoldIsSerial(r, Le32(x));
    LeIsBits(x);
    StepsAreSerial(r, x, 32);
    DownAll(x);
    XorZero(Serial(r, BitsOf(x, 32)));
    XorCancel(r, 0xFFFF_FFFF);
    OnesThrough();
  }

  /** The residue of section 8 of RFC 1952: a message followed by its CRC always has the same CRC. */
  lemma Residue(c: bv32, buf: seq<bv8>)
    ensures Crc(c, buf + Le32(Crc(c, buf))) == 0x2144_DF1C
  {
    hide Fold, Le32;
    var k := Xor(c, 0xFFFF_FFFF);
    var r := Fold(k, buf);
    assert Crc(c, buf) == Xor(r, 0xFFFF_FFFF);
    FoldConcat(k, buf, Le32(Xor(r, 0xFFFF_FFFF)));
    OwnComplement(r);
    assert Xor(0xDEBB_20E3, 0xFFFF_FFFF) == 0x2144_DF1C;
  }

  /** The check value of CRC-32: nine digits. */
  lemma CheckValue()
    ensures Crc(0, [0x31, 0x32, 0x33, 0x34, 0x35, 0x36, 0x37, 0x38, 0x39]) == 0xCBF4_3926
  {
    hide Fold, Feed;
    var a: seq<bv8>, b: seq<bv8>, c: seq<bv8> := [0x31, 0x32, 0x33], [0x34, 0x35, 0x36], [0x37, 0x38, 0x39];
    FeedThree();
    FeedSix();
    FeedNine();
    FoldThree(0xFFFF_FFFF, 0x31, 0x32, 0x33);
    FoldThree(0x77B7_9C2D, 0x34, 0x35, 0x36);
    FoldThree(0xF68D_2C9E, 0x37, 0x38, 0x39);
    FoldConcat(0xFFFF_FFFF, a, b + c);
    FoldConcat(0x77B7_9C2D, b, c);
    assert [0x31, 0x32, 0x33, 0x34, 0x35, 0x36, 0x37, 0x38, 0x39] == a + (b + c);
    assert Xor(0, 0xFFFF_FFFF) == 0xFFFF_FFFF && Xor(0x340B_C6D9, 0xFFFF_FFFF) == 0xCBF4_3926;
  }

  lemma FoldThree(c: bv32, x: bv8, y: bv8, z: bv8)
    ensures Fold(c, [x, y, z]) == Feed(Feed(Feed(c, x), y), z)
  {
    hide Fold, Feed;
    FoldFirst(c, [x, y, z]);
    FoldFirst(Feed(c, x), [y, z]);
    FoldFirst(Feed(Feed(c, x), y), [z]);
    FoldFirst(Feed(Feed(Feed(c, x), y), z), []);
    assert [x, y, z][1..] == [y, z] && [y, z][1..] == [z] && [z][1..] == [];
  }

  lemma FoldFirst(c: bv32, s: seq<bv8>)
    ensures Fold(c, s) == if s == [] then c else Fold(Feed(c, s[0]), s[1..])
  {
  }

  lemma FeedThree()
    ensures Feed(0xFFFF_FFFF, 0x31) == 0x7C23_1048 && Feed(0x7C23_1048, 0x32) == 0xB0AC_BB32 && Feed(0xB0AC_BB32, 0x33) == 0x77B7_9C2D
  {
  }

  lemma FeedSix()
    ensures Feed(0x77B7_9C2D, 0x34) == 0x641C_1F5C && Feed(0x641C_1F5C, 0x35) == 0x340A_C5E3 && Feed(0x340A_C5E3, 0x36) == 0xF68D_2C9E
  {
  }

  lemma FeedNine()
    ensures Feed(0xF68D_2C9E, 0x37) == 0xAFFC_9660 && Feed(0xAFFC_9660, 0x38) == 0x651F_2550 && Feed(0x651F_2550, 0x39) == 0x340B_C6D9
  {
  }
}
