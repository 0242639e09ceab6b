/** Names and numbers of disks: sd_format_disk_name, sd_major and sd_probe_async of drivers/scsi/sd.c. */
module SdNames {

  const EINVAL := 22

  function Letter(d: int): char
    requires 0 <= d < 26
  {
    'a' + d as char
  }

  /** Counting a, b, ..., z, aa, ab, ... */
  function Suffix(index: nat): (s: string)
    ensures |s| > 0
  {
    if index < 26 then [Letter(index)] else Suffix(index / 26 - 1) + [Letter(index % 26)]
  }

  predicate Lower(s: string) { forall i :: 0 <= i < |s| ==> 'a' <= s[i] <= 'z' }

  /** Bijective base 26: a is 1, z is 26, and there is no zero. */
  function Number(s: string): nat
    requires Lower(s)
    decreases s
  {
    if s == [] then 0 else Number(s[..|s| - 1]) * 26 + (s[|s| - 1] - 'a') as int + 1
  }

  /** A suffix counts back to its index. */
  lemma {:induction false} SuffixCounts(index: nat)
    ensures Lower(Suffix(index)) && Number(Suffix(index)) == index + 1
    decreases index
  {
    var s := Suffix(index);
    if index >= 26 {
      SuffixCounts(index / 26 - 1);
      assert s[..|s| - 1] == Suffix(index / 26 - 1);
    } else {
      assert s[..0] == [];
    }
  }

  /** Every lower-case word is the suffix of the index it counts to. */
  lemma {:induction false} WordIsSuffix(s: string)
    requires Lower(s) && s != []
    ensures Number(s) > 0 && Suffix(Number(s) - 1) == s
    decreases s
  {
    var head, d := s[..|s| - 1], (s[|s| - 1] - 'a') as int;
    assert Letter(d) == s[|s| - 1];
    assert s == head + [s[|s| - 1]];
    if head != [] {
      WordIsSuffix(head);
      Quotient(Number(head), d);
    }
  }

  lemma Quotient(n: int, d: int)
    requires n > 0 && 0 <= d < 26
    ensures (n * 26 + d) / 26 == n && (n * 26 + d) % 26 == d
  {
  }

  /** a, z, aa, az, ba, zz, aaa. */
  lemma FirstNames()
    ensures Suffix(0) == "a" && Suffix(25) == "z" && Suffix(26) == "aa" && Suffix(51) == "az" && Suffix(52) == "ba"
    ensures Suffix(701) == "zz" && Suffix(702) == "aaa"
  {
    assert Suffix(702) == Suffix(26) + ['a'];
  }

  /** Distinct disks, distinct names. */
  lemma DistinctNames(prefix: string, i: nat, j: nat)
    ensures prefix + Suffix(i) == prefix + Suffix(j) <==> i == j
  {
    SuffixCounts(i);
    SuffixCounts(j);
    if prefix + Suffix(i) == prefix + Suffix(j) {
      assert Suffix(i) == (prefix + Suffix(i))[|prefix|..];
      assert Suffix(j) == (prefix + Suffix(j))[|prefix|..];
    }
  }

  /** One digit: what is still to be written, followed by the new letter, stays the suffix. */
  lemma NextDigit(index: nat, done: string, whole: string)
    requires whole == Suffix(index) + done
    ensures index / 26 - 1 >= 0 ==> whole == Suffix(index / 26 - 1) + ([Letter(index % 26)] + done)
    ensures index / 26 - 1 < 0 ==> whole == [Letter(index % 26)] + done
  {
    if index >= 26 {
      assert Suffix(index / 26 - 1) + ([Letter(index % 26)] + done) == (Suffix(index / 26 - 1) + [Letter(index % 26)]) + done;
    } else {
      assert index % 26 == index;
    }
  }

  /** The loop: digits from the end of the buffer down, as long as there is room above begin. */
  method WriteDigits(buf: array<char>, begin: nat, number: nat) returns (fits: bool, p: nat)
    requires begin < buf.Length
    modifies buf
    ensures fits <==> begin + |Suffix(number)| < buf.Length
    ensures fits ==> begin <= p < buf.Length && buf[p..] == Suffix(number) + ['\0']
  {
    ghost var suffix, done: string := Suffix(number), [];
    p := buf.Length - 1;
    buf[p] := '\0';
    var index: int := number;
    while index >= 0
      invariant begin <= p < buf.Length && index >= -1 && |done| == buf.Length - 1 - p
      invariant suffix == (if index >= 0 then Suffix(index) else []) + done
      invariant buf[p..] == done + ['\0']
      decreases index + 1
    {
      if p == begin {
        return false, p;
      }
      NextDigit(index, done, suffix);
      p := p - 1;
      buf[p] := Letter(index % 26);
      done := [Letter(index % 26)] + done;
      assert buf[p..] == [buf[p]] + buf[p + 1..];
      index := index / 26 - 1;
    }
    fits := true;
  }

  /** sd_format_disk_name: -EINVAL exactly when the suffix does not fit, else the name and a NUL. */
  method FormatDiskName(prefix: string, number: nat, buf: array<char>) returns (ret: int)
    requires |prefix| < buf.Length
    modifies buf
    ensures ret == if |prefix| + |Suffix(number)| < buf.Length then 0 else -EINVAL
    ensures ret == 0 ==>
      |prefix| + |Suffix(number)| < buf.Length && buf[..|prefix| + |Suffix(number)| + 1] == prefix + Suffix(number) + ['\0']
  {
    var fits, p := WriteDigits(buf, |prefix|, number);
    if !fits {
      return -EINVAL;
    }
    MoveDown(buf, |prefix|, p);
    CopyPrefix(buf, prefix, Suffix(number));
    ret := 0;
  }

  /** memmove(begin, p, end - p). */
  method MoveDown(buf: array<char>, begin: nat, p: nat)
    requires begin <= p <= buf.Length
    modifies buf
    ensures buf[begin..begin + (buf.Length - p)] == old(buf[p..])
  {
    ghost var src := buf[p..];
    for i := 0 to buf.Length - p
      invariant buf[begin..begin + i] == src[..i] && buf[p + i..] == src[i..]
    {
      assert buf[p + i..][0] == src[i] && buf[p + i..][1..] == buf[p + i + 1..];
      buf[begin + i] := buf[p + i];
      assert buf[begin..begin + i + 1] == buf[begin..begin + i] + [src[i]];
    }
  }

  /** memcpy(buf, prefix, strlen(prefix)). */
  method CopyPrefix(buf: array<char>, prefix: string, ghost suffix: string)
    requires |prefix| + |suffix| < buf.Length
    requires buf[|prefix|..|prefix| + |suffix| + 1] == suffix + ['\0']
    modifies buf
    ensures buf[..|prefix| + |suffix| + 1] == prefix + suffix + ['\0']
  {
    for i := 0 to |prefix|
      invariant buf[..i] == prefix[..i]
      invariant buf[|prefix|..|prefix| + |suffix| + 1] == suffix + ['\0']
    {
      buf[i] := prefix[i];
      assert buf[..i + 1] == buf[..i] + [prefix[i]];
    }
    assert buf[..|prefix| + |suffix| + 1] == buf[..|prefix|] + buf[|prefix|..|prefix| + |suffix| + 1];
  }

  // Device numbers.

  /** The three groups of SCSI disk majors; their values are in a header that is not in the repository. */
  datatype Majors = Majors(disk0: int, disk1: int, disk8: int) {
    predicate Ok() {
      && !(disk1 <= disk0 < disk1 + 7) && !(disk8 <= disk0 < disk8 + 8)
      && (disk1 + 7 <= disk8 || disk8 + 8 <= disk1)
    }
  }

  const SD_MINORS := 16

  function Major(m: Majors, k: int): int
    requires 0 <= k < 16
  {
    if k == 0 then m.disk0 else if k <= 7 then m.disk1 + k - 1 else m.disk8 + k - 8
  }

  /** sd_probe_async: bits 4-7 pick the major, bits 0-3 and 8-19 the minor. */
  function MajorOf(m: Majors, index: nat): int { Major(m, index / 16 % 16) }

  function FirstMinor(index: nat): int { index % 16 * 16 + index / 256 % 4096 * 256 }

  /**
   The numbers of disk a + 16 b + 256 c, digits below 16, 16 and 4096: the major is the b-th of the sixteen, and
   the minors start at 16 a + 256 c.
   */
  lemma NumbersAre(m: Majors, a: nat, b: nat, c: nat, more: nat)
    requires a < 16 && b < 16 && c < 4096
    ensures
      var index := a + 16 * b + 256 * c + 0x10_0000 * more;
      && MajorOf(m, index) == (if b == 0 then m.disk0 else if b <= 7 then m.disk1 + b - 1 else m.disk8 + b - 8)
      && FirstMinor(index) == 16 * a + 256 * c
  {
    var index := a + 16 * b + 256 * c + 0x10_0000 * more;
    assert index == 16 * (b + 16 * (c + 4096 * more)) + a;
    assert index / 16 == b + 16 * (c + 4096 * more);
    assert index / 256 == c + 4096 * more;
    LowDigit(c, more);
  }

  lemma LowDigit(c: nat, more: nat)
    requires c < 4096
    ensures (c + 4096 * more) % 4096 == c
  {
  }

  lemma MajorInjective(m: Majors, j: int, k: int)
    requires m.Ok() && 0 <= j < 16 && 0 <= k < 16
    ensures Major(m, j) == Major(m, k) <==> j == k
  {
  }

  lemma MinorDigits(a: int, b: int, c: int, d: int)
    requires 0 <= a < 16 && 0 <= c < 16 && 0 <= b < 4096 && 0 <= d < 4096
    ensures -16 < (a * 16 + b * 256) - (c * 16 + d * 256) < 16 <==> a == c && b == d
  {
  }

  lemma IndexDigits(index: nat)
    ensures index % 0x10_0000 == index % 16 + index / 16 % 16 * 16 + index / 256 % 4096 * 256
  {
    assert index / 16 / 16 == index / 256;
    assert index / 256 / 4096 == index / 0x10_0000;
  }

  lemma DigitsUnique(a: int, b: int, c: int, x: int, y: int, z: int)
    requires 0 <= a < 16 && 0 <= b < 16 && 0 <= x < 16 && 0 <= y < 16
    ensures a + b * 16 + c * 256 == x + y * 16 + z * 256 <==> a == x && b == y && c == z
  {
  }

  /** Two disks' ranges of sixteen minors meet. */
  predicate Overlap(m: Majors, i: nat, j: nat) {
    MajorOf(m, i) == MajorOf(m, j) && -SD_MINORS < FirstMinor(i) - FirstMinor(j) < SD_MINORS
  }

  /** Ranges are disjoint unless the indices agree in their low 20 bits. */
  lemma NumbersCollideExactly(m: Majors, i: nat, j: nat)
    requires m.Ok()
    ensures Overlap(m, i, j) <==> i % 0x10_0000 == j % 0x10_0000
  {
    MajorInjective(m, i / 16 % 16, j / 16 % 16);
    MinorDigits(i % 16, i / 256 % 4096, j % 16, j / 256 % 4096);
    IndexDigits(i);
    IndexDigits(j);
    DigitsUnique(i % 16, i / 16 % 16, i / 256 % 4096, j % 16, j / 16 % 16, j / 256 % 4096);
  }

  /** Below 2^20 no two disks share a device number. */
  lemma NumbersDistinct(m: Majors, i: nat, j: nat)
    requires m.Ok() && i < 0x10_0000 && j < 0x10_0000 && i != j
    ensures !Overlap(m, i, j)
  {
    hide Overlap, MajorOf, FirstMinor;
    NumbersCollideExactly(m, i, j);
    Small(i);
    Small(j);
  }

  lemma Small(i: nat)
    requires i < 0x10_0000
    ensures i % 0x10_0000 == i
  {
  }
}
