/**
 The head of the persistent event log (drivers/scsi/swap/log.c): what a written head looks
 like on disk, which sectors load, and that the CRC pins the two counters down completely.
 Device I/O is a parameter: each read or write may fail, and a failed write may leave anything.
 */
module SwapLog {
  import opened Crc32
  import opened Ring

  const SECTOR_SIZE := 512
  const LOG_CAPACITY := 512
  const LOG_CRC32_INIT: bv32 := 0xFFFF_FFFF

  /** struct scsi_swap_log_head, little-endian on disk. */
  datatype Head = Head(crc: bv32, num: bv16, next: bv16)

  lemma Doubling(h: bv16)
    requires (h as int) < 0x8000
    ensures (h << 1) as int == 2 * (h as int) && ((h << 1) | 1) as int == 2 * (h as int) + 1
  {
  }

  /** A counter as an unsigned 16-bit number, bit by bit. */
  function U16(n: int): (r: bv16)
    requires 0 <= n < 0x1_0000
    ensures r as int == n
  {
    if n == 0 then 0 else
      var h := U16(n / 2);
      Doubling(h);
      if n % 2 == 0 then h << 1 else (h << 1) | 1
  }

  function Le16(x: bv16): (r: seq<bv8>)
    ensures |r| == 2
  {
    [(x & 0xFF) as bv8, (x >> 8) as bv8]
  }

  function From16(b: seq<bv8>): bv16
    requires |b| == 2
  {
    (b[0] as bv16) | ((b[1] as bv16) << 8)
  }

  function From32(b: seq<bv8>): bv32
    requires |b| == 4
  {
    (b[0] as bv32) | ((b[1] as bv32) << 8) | ((b[2] as bv32) << 16) | ((b[3] as bv32) << 24)
  }

  lemma Trip16(x: bv16)
    ensures From16(Le16(x)) == x
  {
  }

  lemma Trip32(x: bv32)
    ensures From32(Le32(x)) == x
  {
  }

  lemma Bytes16(a: bv8, b: bv8)
    ensures var x := (a as bv16) | ((b as bv16) << 8); (x & 0xFF) as bv8 == a && (x >> 8) as bv8 == b
  {
  }

  lemma Back16(b: seq<bv8>)
    requires |b| == 2
    ensures Le16(From16(b)) == b
  {
    Bytes16(b[0], b[1]);
  }

  /** The bytes the checksum covers: everything after the crc field. */
  function Covered(num: bv16, next: bv16): (r: seq<bv8>)
    ensures |r| == 4
  {
    Le16(num) + Le16(next)
  }

  function HeadCrc(num: bv16, next: bv16): bv32 { Crc(LOG_CRC32_INIT, Covered(num, next)) }

  function Image(h: Head): (r: seq<bv8>)
    ensures |r| == SECTOR_SIZE
  {
    Le32(h.crc) + Covered(h.num, h.next) + seq(SECTOR_SIZE - 8, i => 0)
  }

  function Parse(s: seq<bv8>): Head
    requires |s| == SECTOR_SIZE
  {
    Head(From32(s[..4]), From16(s[4..6]), From16(s[6..8]))
  }

  predicate Loads(s: seq<bv8>)
    requires |s| == SECTOR_SIZE
  {
    Parse(s).crc == HeadCrc(Parse(s).num, Parse(s).next)
  }

  lemma ParseImage(h: Head)
    ensures Parse(Image(h)) == h
  {
    var s := Image(h);
    assert s[..4] == Le32(h.crc) && s[4..6] == Le16(h.num) && s[6..8] == Le16(h.next);
    Trip32(h.crc);
    Trip16(h.num);
    Trip16(h.next);
  }

  /** Where the fields of a head lie in its sector: checksum, item_num, item_next, lowest byte first, and zeros behind. */
  lemma ImageLayout(h: Head)
    ensures
      var s := Image(h);
      && s[0] == (h.crc & 0xFF) as bv8 && s[1] == ((h.crc >> 8) & 0xFF) as bv8
      && s[2] == ((h.crc >> 16) & 0xFF) as bv8 && s[3] == (h.crc >> 24) as bv8
      && s[4] == (h.num & 0xFF) as bv8 && s[5] == (h.num >> 8) as bv8
      && s[6] == (h.next & 0xFF) as bv8 && s[7] == (h.next >> 8) as bv8
      && forall i :: 8 <= i < SECTOR_SIZE ==> s[i] == 0
  {
  }

  /** A sector of zeros is no head: the checksum of zero counters is not zero. */
  lemma ZerosRefused(s: seq<bv8>)
    requires |s| == SECTOR_SIZE && forall i :: 0 <= i < 8 ==> s[i] == 0
    ensures HeadCrc(0, 0) == 0xFFFF_FFFF && !Loads(s)
  {
    ZeroCounters();
    assert Parse(s) == Head(0, 0, 0);
  }

  lemma ZeroCounters()
    ensures HeadCrc(0, 0) == 0xFFFF_FFFF
  {
    hide Fold;
    assert Covered(0, 0) == [0, 0] + [0, 0];
    FoldConcat(0, [0, 0], [0, 0]);
    FoldFirst(0, [0, 0]);
    FoldFirst(0, [0]);
    FoldFirst(0, []);
    assert [0, 0][1..] == [0] && [0][1..] == [] && Feed(0, 0) == 0;
    assert Xor(0xFFFF_FFFF, 0xFFFF_FFFF) == 0 && Xor(0, 0xFFFF_FFFF) == 0xFFFF_FFFF;
  }

  /** A head that was written loads, and gives back the counters of the ring it was written for. */
  lemma WrittenHeadLoads(n: int, k: int)
    requires 0 <= n < 0x1_0000 && 0 <= k < 0x1_0000
    ensures
      var s := Image(Head(HeadCrc(U16(n), U16(k)), U16(n), U16(k)));
      Loads(s) && Parse(s).num as int == n && Parse(s).next as int == k
  {
    ParseImage(Head(HeadCrc(U16(n), U16(k)), U16(n), U16(k)));
  }

  lemma CoveredBytes(s: seq<bv8>)
    requires |s| == SECTOR_SIZE
    ensures Covered(Parse(s).num, Parse(s).next) == s[4..8]
  {
    Back16(s[4..6]);
    Back16(s[6..8]);
    assert s[4..8] == s[4..6] + s[6..8];
  }

  lemma SameCrcSameBytes(u: seq<bv8>, v: seq<bv8>)
    requires |u| == |v| == 4 && Crc(LOG_CRC32_INIT, u) == Crc(LOG_CRC32_INIT, v)
    ensures u == v
  {
    hide Message;
    BurstDetected(LOG_CRC32_INIT, u, v, 0);
  }

  lemma SameBytesSameCounters(s: seq<bv8>, t: seq<bv8>)
    requires |s| == |t| == SECTOR_SIZE && s[4..8] == t[4..8]
    ensures s[4..6] == t[4..6] && s[6..8] == t[6..8]
  {
    assert s[4..6] == s[4..8][..2] && t[4..6] == t[4..8][..2];
    assert s[6..8] == s[4..8][2..] && t[6..8] == t[4..8][2..];
  }

  /** Two sectors that load with the same stored crc hold the same head. */
  lemma SameCrcSameHead(s: seq<bv8>, t: seq<bv8>)
    requires |s| == |t| == SECTOR_SIZE && Loads(s) && Loads(t)
    ensures Parse(s).crc == Parse(t).crc <==> Parse(s) == Parse(t)
    ensures Parse(s).crc == Parse(t).crc ==> s[4..8] == t[4..8]
  {
    CoveredBytes(s);
    CoveredBytes(t);
    if Parse(s).crc == Parse(t).crc {
      SameCrcSameBytes(s[4..8], t[4..8]);
      SameBytesSameCounters(s, t);
    }
  }

  /** Damage confined to the counters, or to the stored crc, of a good head is always refused. */
  lemma DamageRefused(s: seq<bv8>, t: seq<bv8>)
    requires |s| == |t| == SECTOR_SIZE && Loads(s)
    requires Parse(s) != Parse(t)
    requires Parse(s).crc == Parse(t).crc || (Parse(s).num == Parse(t).num && Parse(s).next == Parse(t).next)
    ensures !Loads(t)
  {
    if Loads(t) && Parse(s).crc == Parse(t).crc {
      SameCrcSameHead(s, t);
    }
  }

  /** A good crc says nothing of the range of the counters: this head loads and its oldest item lies before the ring. */
  lemma LoadsOutsideTheRing() returns (s: seq<bv8>)
    ensures |s| == SECTOR_SIZE && Loads(s)
    ensures !PeeksInside(Parse(s).num as int, Parse(s).next as int, LOG_CAPACITY)
  {
    hide U16, HeadCrc, Image, Parse, Loads;
    var n, k := LOG_CAPACITY + 1, 0;
    s := Image(Head(HeadCrc(U16(n), U16(k)), U16(n), U16(k)));
    WrittenHeadLoads(n, k);
    AllPeeksInside(n, k, LOG_CAPACITY);
  }

  /** The sector that holds the head. */
  class HeadSector {
    var bytes: seq<bv8>

    ghost predicate Valid() reads this { |bytes| == SECTOR_SIZE }

    /** hd_write_sector_no_retry: -1 leaves whatever the device made of it. */
    method Write(buf: seq<bv8>, fails: bool, torn: seq<bv8>) returns (ret: int)
      requires |buf| == |torn| == SECTOR_SIZE
      modifies this
      ensures Valid() && bytes == if fails then torn else buf
      ensures ret == if fails then -1 else 0
    {
      if fails {
        bytes, ret := torn, -1;
      } else {
        bytes, ret := buf, 0;
      }
    }
  }

  class Log<T(0)> {
    const ring: Ring<T>
    var head: Head

    ghost predicate Valid()
      reads this, ring, ring.buffer
    {
      ring.Valid() && ring.buffer.Length == LOG_CAPACITY
    }

    constructor (r: Ring<T>, h: Head)
      ensures ring == r && head == h
    {
      ring, head := r, h;
    }

    /** scsi_swap_log_crc_head, with swap_crc32 itself. */
    method CrcHead() returns (crc: bv32)
      ensures crc == HeadCrc(head.num, head.next)
    {
      crc := SwapCrc32(LOG_CRC32_INIT, Covered(head.num, head.next));
    }

    /** scsi_swap_log_update_head. */
    method UpdateHead(disk: HeadSector, fails: bool, torn: seq<bv8>) returns (ret: int)
      requires Valid() && |torn| == SECTOR_SIZE
      modifies this`head, disk
      ensures disk.Valid() && ret == if fails then -1 else 0
      ensures ret == 0 ==>
        && Loads(disk.bytes) && Parse(disk.bytes) == head
        && head.num as int == ring.num && head.next as int == ring.next
      ensures ret != 0 ==> disk.bytes == torn
    {
      head := head.(num := U16(ring.num));
      head := head.(next := U16(ring.next));
      var crc := CrcHead();
      head := head.(crc := crc);
      WrittenHeadLoads(ring.num, ring.next);
      ParseImage(head);
      ret := disk.Write(Image(head), fails, torn);
    }

    /** scsi_swap_log_load: data is what the item sectors deliver. */
    method Load(disk: HeadSector, headFails: bool, dataFails: bool, data: seq<T>) returns (ret: int)
      requires disk.Valid() && |data| == ring.buffer.Length && ring.buffer.Length == LOG_CAPACITY
      modifies this`head, ring.buffer
      ensures ret == if headFails || !Loads(disk.bytes) || dataFails then -1 else 0
      ensures head == if headFails then old(head) else Parse(disk.bytes)
      ensures ret == 0 ==> ring.buffer[..] == data
    {
      if headFails {
        return -1;
      }
      head := Parse(disk.bytes);
      var crc := CrcHead();
      if head.crc != crc {
        return -1;
      }
      forall i | 0 <= i < ring.buffer.Length {
        ring.buffer[i] := data[i];
      }
      assert ring.buffer[..] == data;
      ret := if dataFails then -1 else 0;
    }

    /** scsi_swap_log_init after the ring was created: a head whose counters a ring can show is taken over. */
    method Init(disk: HeadSector, headFails: bool, dataFails: bool, data: seq<T>) returns (ret: int)
      requires disk.Valid() && |data| == ring.buffer.Length && ring.buffer.Length == LOG_CAPACITY
      modifies this`head, ring, ring.buffer
      ensures ret == if headFails || !Loads(disk.bytes) || dataFails then -1 else 0
      ensures ret == 0 ==>
        var h := Parse(disk.bytes);
        && ring.num == h.num as int && ring.next == h.next as int
        && (Shape(h.num as int, h.next as int, LOG_CAPACITY) ==>
              Valid() && ring.pushed == Window(data, h.num as int, h.next as int))
      ensures ret == 0 && ring.num > 0 ==>
        (PeeksInside(ring.num, ring.next, LOG_CAPACITY) <==> Reachable(ring.num, ring.next, LOG_CAPACITY))
    {
      hide Parse, Loads, PeeksInside, Reachable, Window, LastOf;
      ret := Load(disk, headFails, dataFails, data);
      if ret == -1 {
        return -1;
      }
      ring.num := head.num as int;
      ring.next := head.next as int;
      ring.pushed := Window(ring.buffer[..], ring.num, ring.next);
      ret := 0;
      LastOfWindow(ring.buffer[..], ring.num, ring.next);
      if ring.num > 0 {
        AllPeeksInside(ring.num, ring.next, LOG_CAPACITY);
      }
    }

    /**
     scsi_swap_log_push: the item enters the ring even when its sector cannot be written, whatever counters
     were loaded, if and only if next lies in the ring.
     */
    method Push(item: T, dataFails: bool, disk: HeadSector, fails: bool, torn: seq<bv8>) returns (ret: int)
      requires ring.buffer.Length == LOG_CAPACITY && ring.num >= 0 && ring.next >= 0 && disk.Valid() && |torn| == SECTOR_SIZE
      modifies this`head, ring, ring.buffer, disk
      ensures Valid() && disk.Valid()
      ensures ring.buffer[..] ==
        if old(ring.next) < LOG_CAPACITY then old(ring.buffer[..])[old(ring.next) := item] else old(ring.buffer[..])
      ensures old(Valid()) ==> ring.pushed == old(ring.pushed) + [item]
      ensures ret == if dataFails || fails then -1 else 0
      ensures dataFails ==> disk.bytes == old(disk.bytes)
      ensures ret == 0 ==>
        && Loads(disk.bytes)
        && Parse(disk.bytes).num as int == ring.num && Parse(disk.bytes).next as int == ring.next
    {
      var slot, inside := ring.Push(item);
      if dataFails {
        return -1;
      }
      ret := UpdateHead(disk, fails, torn);
    }

    /** scsi_swap_log_peek. */
    method Peek(index: int) returns (found: bool, x: T)
      requires Valid()
      ensures found <==> 0 <= index < |LastOf(ring.pushed, LOG_CAPACITY)|
      ensures found ==> x == LastOf(ring.pushed, LOG_CAPACITY)[index]
    {
      if index < 0 || index >= ring.num {
        found, x := false, ring.buffer[0];
      } else {
        x := ring.Peek(index);
        found := true;
      }
    }

    /** scsi_swap_log_last: the newest item, if any. */
    method Last() returns (found: bool, x: T)
      requires Valid()
      ensures found <==> ring.pushed != []
      ensures found ==> x == ring.pushed[|ring.pushed| - 1]
    {
      if ring.num == 0 {
        found, x := false, ring.buffer[0];
      } else {
        found, x := Peek(ring.num - 1);
      }
    }
  }

  /** A log written out by one boot and loaded by the next stands where it stood. */
  method Reboot<T(0)>(log: Log<T>, disk: HeadSector, torn: seq<bv8>, data: seq<T>) returns (next: Log<T>, ret: int)
    requires log.Valid() && disk.Valid() && |torn| == SECTOR_SIZE && |data| == LOG_CAPACITY
    modifies log, disk
    ensures ret == 0 && next.Valid()
    ensures next.ring.num == log.ring.num && next.ring.next == log.ring.next
    ensures log.ring.num == old(log.ring.num) && log.ring.next == old(log.ring.next)
    ensures next.ring.pushed == Window(data, log.ring.num, log.ring.next)
  {
    ret := log.UpdateHead(disk, false, torn);
    var ring := new Ring<T>(LOG_CAPACITY);
    next := new Log<T>(ring, Head(0, 0, 0));
    ret := next.Init(disk, false, false, data);
  }
}
