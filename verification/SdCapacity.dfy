/**
 Capacity discovery in drivers/scsi/sd.c, with the area reserved for swapped sectors taken
 off the end. One event is one revalidation or one media check; the answers of the device to
 READ CAPACITY(16) and (10), after retries, are parameters. sector_t is 64 bits wide.
 */
module SdCapacity {
  import opened Common

  const MAX32: int := 0xFFFF_FFFF
  const ENODEV := 19
  const EINVAL := 22
  const EOVERFLOW := 75

  /** An unsigned 32-bit number read as a signed int. */
  function Signed32(x: int): int { if x < 0x8000_0000 then x else x - 0x1_0000_0000 }

  /** Flags of the device that do not change between scans; reserved is in 512-byte sectors. */
  datatype Config = Config(rc16First: bool, noRc16: bool, fix: bool, guess: bool, removable: bool, reserved: nat)

  /** How READ CAPACITY ended: lba is the last block, len the block length in bytes. */
  datatype Answer =
    | NoMedium
    | Refused
    | Failed(notReady: bool)
    | Reported(lba: nat, len: nat, badProtection: bool)
  {
    /** A block length that comes out negative as an int. */
    predicate Garbled() { Reported? && len >= 0x8000_0000 }
  }

  /** published is what set_capacity last told the block layer. */
  datatype Disk = Disk(capacity: nat, published: nat, sectorSize: int, use16: bool, first: bool, media: bool)

  /** sd_probe_async before its first revalidation. */
  const PROBED := Disk(0, 0, 512, false, true, true)

  function MediaGone(cfg: Config, d: Disk): Disk {
    if cfg.removable then d.(media := false, capacity := 0) else d
  }

  function Broken(cfg: Config, d: Disk, notReady: bool): Disk {
    (if notReady then MediaGone(cfg, d) else d).(capacity := 0)
  }

  function Read16(cfg: Config, d: Disk, a: Answer): (r: (Disk, int)) {
    if cfg.noRc16 then (d, -EINVAL)
    else match a
      case NoMedium => (MediaGone(cfg, d), -ENODEV)
      case Refused => (d, -EINVAL)
      case Failed(nr) => (Broken(cfg, d, nr), -EINVAL)
      case Reported(lba, len, bad) =>
        if bad then (d.(capacity := 0), -ENODEV) else (d.(capacity := Wrap(lba + 1, U64)), Signed32(len))
  }

  function Read10(cfg: Config, d: Disk, a: Answer): (r: (Disk, int)) {
    match a
    case NoMedium => (MediaGone(cfg, d), -ENODEV)
    case Refused => (Broken(cfg, d, false), -EINVAL)
    case Failed(nr) => (Broken(cfg, d, nr), -EINVAL)
    case Reported(lba, len, _) =>
      (d.(capacity := if cfg.noRc16 && lba == MAX32 then 0 else Wrap(lba + 1, U64)), Signed32(len))
  }

  /** GaveUp: sd_read_capacity returned early. Got: it reached got_data, adjusted or not. */
  datatype Reading = GaveUp(d: Disk) | Got(d: Disk, len: int)

  function Adjust(cfg: Config, d: Disk): Disk {
    if cfg.fix || (cfg.guess && d.capacity % 2 == 1) then d.(capacity := Wrap(d.capacity + U64 - 1, U64)) else d
  }

  function Read(cfg: Config, d: Disk, rc16: Answer, rc10: Answer): Reading {
    if cfg.rc16First then
      var (d1, s1) := Read16(cfg, d, rc16);
      if s1 == -EOVERFLOW then Got(d1, s1)
      else if s1 == -ENODEV then GaveUp(d1)
      else
        var (d2, s2) := if s1 < 0 then Read10(cfg, d1, rc10) else (d1, s1);
        if s2 < 0 then GaveUp(d2) else Got(Adjust(cfg, d2), s2)
    else
      var (d1, s1) := Read10(cfg, d, rc10);
      if s1 == -EOVERFLOW then Got(d1, s1)
      else if s1 < 0 then GaveUp(d1)
      else if d1.capacity > MAX32 then
        var (d2, s2) := Read16(cfg, d1, rc16);
        if s2 < 0 then Got(d2.(capacity := 1 + MAX32), s1) else Got(Adjust(cfg, d2), s2)
      else Got(Adjust(cfg, d1), s1)
  }

  predicate Supported(len: int) { len == 512 || len == 1024 || len == 2048 || len == 4096 || len == 256 }

  function BlockSize(len: int): int { if Supported(len) then len else 512 }

  function Native(d: Disk, len: int): nat { if len == 0 || Supported(len) then d.capacity else 0 }

  /** A count of device blocks in 512-byte sectors. */
  function Rescale(native: nat, size: int): nat {
    if size == 4096 then Wrap(native * 8, U64)
    else if size == 2048 then Wrap(native * 4, U64)
    else if size == 1024 then Wrap(native * 2, U64)
    else if size == 256 then native / 2
    else native
  }

  function Raw(d: Disk, len: int): nat { Rescale(Native(d, len), BlockSize(len)) }

  /** What the rest of the system is meant to see of a disk of raw sectors. */
  function Usable(cfg: Config, raw: nat): nat {
    if cfg.reserved != 0 && raw > cfg.reserved then raw - cfg.reserved else raw
  }

  function Finish(cfg: Config, was: nat, d: Disk, len: int): Disk {
    var raw := Raw(d, len);
    d.(capacity := if d.first || was != raw then Usable(cfg, raw) else raw,
       sectorSize := BlockSize(len),
       use16 := Native(d, len) > MAX32)
  }

  function ReadCapacity(cfg: Config, d: Disk, rc16: Answer, rc10: Answer): Disk {
    match Read(cfg, d, rc16, rc10)
    case GaveUp(d1) => d1
    case Got(d1, len) => Finish(cfg, d.capacity, d1, len)
  }

  /** Skip: offline or out of memory. Scan: spinning up may already find no medium. Check: sd_check_events. */
  datatype Event =
    | Skip
    | Scan(gone: bool, rc16: Answer, rc10: Answer)
    | Check(gone: bool)

  function Step(cfg: Config, d: Disk, e: Event): Disk {
    match e
    case Skip => d
    case Check(gone) => if gone then MediaGone(cfg, d) else d.(media := true)
    case Scan(gone, rc16, rc10) =>
      var d1 := if gone then MediaGone(cfg, d) else d;
      var d2 := if d1.media then ReadCapacity(cfg, d1, rc16, rc10) else d1;
      d2.(first := false, published := d2.capacity)
  }

  function After(cfg: Config, d: Disk, es: seq<Event>): Disk
    decreases es
  {
    if es == [] then d else After(cfg, Step(cfg, d, es[0]), es[1..])
  }

  /** The state a scan reads the capacity in, and whether it reads it to the end. */
  function Before(cfg: Config, d: Disk, e: Event): Disk
    requires e.Scan?
  {
    if e.gone then MediaGone(cfg, d) else d
  }

  predicate Completes(cfg: Config, d: Disk, e: Event) {
    e.Scan? && Before(cfg, d, e).media && Read(cfg, Before(cfg, d, e), e.rc16, e.rc10).Got?
  }

  function RawOf(cfg: Config, d: Disk, e: Event): nat
    requires Completes(cfg, d, e)
  {
    var g := Read(cfg, Before(cfg, d, e), e.rc16, e.rc10);
    Raw(g.d, g.len)
  }

  predicate Garbled(e: Event) { e.Scan? && (e.rc16.Garbled() || e.rc10.Garbled()) }

  // The reservation.

  /** Reading changes nothing but the capacity, within 64 bits, and the media flag. */
  predicate Rest(d: Disk, r: Disk) {
    && r.first == d.first && r.sectorSize == d.sectorSize && r.use16 == d.use16 && r.published == d.published
    && (d.capacity < U64 ==> r.capacity < U64)
  }

  lemma Read16Rest(cfg: Config, d: Disk, a: Answer)
    ensures Rest(d, Read16(cfg, d, a).0)
  {
  }

  lemma Read10Rest(cfg: Config, d: Disk, a: Answer)
    ensures Rest(d, Read10(cfg, d, a).0)
  {
  }

  lemma AdjustRest(cfg: Config, d: Disk)
    ensures Rest(d, Adjust(cfg, d))
  {
  }

  lemma ReadRest(cfg: Config, d: Disk, rc16: Answer, rc10: Answer)
    ensures Rest(d, Read(cfg, d, rc16, rc10).d)
  {
    if cfg.rc16First {
      var (d1, s1) := Read16(cfg, d, rc16);
      Read16Rest(cfg, d, rc16);
      Read10Rest(cfg, d1, rc10);
      AdjustRest(cfg, if s1 < 0 then Read10(cfg, d1, rc10).0 else d1);
    } else {
      var (d1, s1) := Read10(cfg, d, rc10);
      Read10Rest(cfg, d, rc10);
      Read16Rest(cfg, d1, rc16);
      AdjustRest(cfg, d1);
      AdjustRest(cfg, Read16(cfg, d1, rc16).0);
    }
  }

  /** A completed scan publishes the usable size exactly when it does not find the raw size already there. */
  lemma PublishesUsableIff(cfg: Config, d: Disk, e: Event)
    requires Completes(cfg, d, e)
    ensures
      var b, raw := Before(cfg, d, e), RawOf(cfg, d, e);
      Step(cfg, d, e).published == Usable(cfg, raw) <==> b.first || b.capacity != raw || Usable(cfg, raw) == raw
    ensures
      var b, raw, p := Before(cfg, d, e), RawOf(cfg, d, e), Step(cfg, d, e).published;
      if (b.first || b.capacity != raw) && raw > cfg.reserved then p + cfg.reserved == raw else p == raw
  {
    ReadRest(cfg, Before(cfg, d, e), e.rc16, e.rc10);
  }

  /** The capacity a scan leaves when it gives up, from the answers alone. */
  function LeftBy10(cfg: Config, c: nat, a: Answer): nat {
    match a
    case NoMedium => if cfg.removable then 0 else c
    case Reported(lba, _, _) => if cfg.noRc16 && lba == MAX32 then 0 else Wrap(lba + 1, U64)
    case _ => 0
  }

  function LeftBehind(cfg: Config, c: nat, rc16: Answer, rc10: Answer): nat {
    if !cfg.rc16First || cfg.noRc16 || rc16.Refused? then LeftBy10(cfg, c, rc10)
    else if rc16.NoMedium? then if cfg.removable then 0 else c
    else if rc16.Failed? then LeftBy10(cfg, 0, rc10)
    else if rc16.badProtection then 0
    else if Signed32(rc16.len) == -ENODEV then Wrap(rc16.lba + 1, U64)
    else LeftBy10(cfg, Wrap(rc16.lba + 1, U64), rc10)
  }

  lemma GivingUpLeaves(cfg: Config, d: Disk, rc16: Answer, rc10: Answer)
    requires Read(cfg, d, rc16, rc10).GaveUp?
    ensures Read(cfg, d, rc16, rc10).d.capacity == LeftBehind(cfg, d.capacity, rc16, rc10)
  {
  }

  /** Giving up leaves the capacity alone or zero, unless a block length was garbled. */
  lemma GivingUp(cfg: Config, d: Disk, rc16: Answer, rc10: Answer)
    requires Read(cfg, d, rc16, rc10).GaveUp? && !rc16.Garbled() && !rc10.Garbled()
    ensures
      var c := Read(cfg, d, rc16, rc10).d.capacity;
      c == 0 || c == d.capacity
  {
  }

  /** What a disk of raw sectors shows between scans. */
  predicate Steady(cfg: Config, raw: nat, d: Disk) {
    (d.capacity == 0 || d.capacity == Usable(cfg, raw)) && (d.published == 0 || d.published == Usable(cfg, raw))
  }

  predicate Faithful(cfg: Config, raw: nat, d: Disk, e: Event) {
    !Garbled(e) && (Completes(cfg, d, e) ==> RawOf(cfg, d, e) == raw)
  }

  lemma FaithfulStep(cfg: Config, raw: nat, d: Disk, e: Event)
    requires Steady(cfg, raw, d) && Faithful(cfg, raw, d, e)
    ensures Steady(cfg, raw, Step(cfg, d, e))
    ensures Completes(cfg, d, e) ==> Step(cfg, d, e).published == Usable(cfg, raw)
    ensures Completes(cfg, d, e) && raw > cfg.reserved ==> Step(cfg, d, e).published + cfg.reserved == raw
    ensures Completes(cfg, d, e) && raw <= cfg.reserved ==> Step(cfg, d, e).published == raw
  {
    if Completes(cfg, d, e) {
      PublishesUsableIff(cfg, d, e);
    } else if e.Scan? && Before(cfg, d, e).media {
      GivingUp(cfg, Before(cfg, d, e), e.rc16, e.rc10);
    }
  }

  predicate FaithfulRun(cfg: Config, raw: nat, d: Disk, es: seq<Event>)
    decreases es
  {
    es == [] || (Faithful(cfg, raw, d, es[0]) && FaithfulRun(cfg, raw, Step(cfg, d, es[0]), es[1..]))
  }

  lemma {:induction false} SteadyRun(cfg: Config, raw: nat, d: Disk, es: seq<Event>)
    requires Steady(cfg, raw, d) && FaithfulRun(cfg, raw, d, es)
    ensures Steady(cfg, raw, After(cfg, d, es))
    decreases es
  {
    if es != [] {
      FaithfulStep(cfg, raw, d, es[0]);
      SteadyRun(cfg, raw, Step(cfg, d, es[0]), es[1..]);
    }
  }

  /**
   Scans in any number and order, failed ones among them, as long as no block length is garbled and
   the raw size stays: every scan that completes publishes the same usable size, the raw size less the
   reservation if it is larger than that, never shrinking again.
   */
  lemma ReservationStays(cfg: Config, raw: nat, es: seq<Event>, e: Event)
    requires FaithfulRun(cfg, raw, PROBED, es) && Faithful(cfg, raw, After(cfg, PROBED, es), e)
    ensures
      var d := After(cfg, PROBED, es);
      Completes(cfg, d, e) ==>
        var p := Step(cfg, d, e).published;
        p == Usable(cfg, raw) && if raw > cfg.reserved then p + cfg.reserved == raw else p == raw
  {
    SteadyRun(cfg, raw, PROBED, es);
    FaithfulStep(cfg, raw, After(cfg, PROBED, es), e);
  }

  lemma GarbledScan(cfg: Config, lba: nat, len: nat)
    requires !cfg.rc16First && !cfg.noRc16 && 0x8000_0000 <= len < 0xFFFF_FFB5 && lba < MAX32
    ensures Step(cfg, PROBED, Scan(false, Refused, Reported(lba, len, false))) == Disk(lba + 1, lba + 1, 512, false, false, true)
  {
  }

  /** With one garbled length the reservation is lost: the next good scan publishes the raw size. */
  lemma GarbledLengthLosesReservation(cfg: Config, lba: nat)
    requires cfg == Config(false, false, false, false, false, 0x20_0000) && 0x20_0000 <= lba < MAX32
    ensures
      var d := Step(cfg, PROBED, Scan(false, Refused, Reported(lba, 0x8000_0000, false)));
      var e := Scan(false, Refused, Reported(lba, 512, false));
      Completes(cfg, d, e) && RawOf(cfg, d, e) == lba + 1
      && Step(cfg, d, e).published == lba + 1 != Usable(cfg, lba + 1)
  {
    GarbledScan(cfg, lba, 0x8000_0000);
  }

  // The 10-byte commands.

  function Scale(size: int): int { if size >= 512 then size / 512 else 1 }

  /** Either 16-byte commands are in use, or every block of the disk has a 32-bit address. */
  predicate Reachable(capacity: nat, size: int, use16: bool) {
    size >= 256 && (use16 || capacity <= MAX32 * Scale(size))
  }

  predicate Addressable(d: Disk) {
    Reachable(d.capacity, d.sectorSize, d.use16) && Reachable(d.published, d.sectorSize, d.use16)
  }

  lemma RescaleBound(native: nat, size: int)
    requires Supported(size) && native <= MAX32
    ensures Rescale(native, size) <= MAX32 * Scale(size)
  {
  }

  lemma FinishReachable(cfg: Config, was: nat, d: Disk, len: int)
    ensures
      var f := Finish(cfg, was, d, len);
      Reachable(f.capacity, f.sectorSize, f.use16)
  {
    if Native(d, len) <= MAX32 {
      RescaleBound(Native(d, len), BlockSize(len));
    }
  }

  /** Kept by every event but a scan that gives up, and by that exactly when what it leaves behind has 32-bit addresses. */
  lemma AddressableStep(cfg: Config, d: Disk, e: Event)
    requires Addressable(d)
    ensures !Garbled(e) || Completes(cfg, d, e) ==> Addressable(Step(cfg, d, e))
    ensures e.Scan? && Before(cfg, d, e).media && !Completes(cfg, d, e) ==>
      (Addressable(Step(cfg, d, e)) <==>
       d.use16 || LeftBehind(cfg, Before(cfg, d, e).capacity, e.rc16, e.rc10) <= MAX32 * Scale(d.sectorSize))
  {
    if e.Scan? && Before(cfg, d, e).media {
      var b := Before(cfg, d, e);
      ReadRest(cfg, b, e.rc16, e.rc10);
      match Read(cfg, b, e.rc16, e.rc10) {
        case Got(d1, len) => FinishReachable(cfg, b.capacity, d1, len);
        case GaveUp(d1) =>
          GivingUpLeaves(cfg, b, e.rc16, e.rc10);
          if !Garbled(e) { GivingUp(cfg, b, e.rc16, e.rc10); }
      }
    }
  }

  predicate NoneGarbled(es: seq<Event>) { forall e :: e in es ==> !Garbled(e) }

  lemma {:induction false} StaysAddressable(cfg: Config, d: Disk, es: seq<Event>)
    requires Addressable(d) && NoneGarbled(es)
    ensures Addressable(After(cfg, d, es))
    decreases es
  {
    if es != [] {
      assert es[0] in es;
      AddressableStep(cfg, d, es[0]);
      StaysAddressable(cfg, Step(cfg, d, es[0]), es[1..]);
    }
  }

  /** A garbled length can leave a disk of more than 2^32 blocks with 10-byte commands. */
  lemma GarbledLengthOverflows(cfg: Config)
    requires cfg == Config(true, false, false, false, false, 0)
    ensures !Addressable(Step(cfg, PROBED, Scan(false, Reported(0x2_0000_0000, 0x8000_0000, false), NoMedium)))
  {
  }

  // Whole device blocks only.

  /** x is a multiple of 1, 2, 4 or 8. */
  predicate Multiple(x: int, u: int) {
    u == 1 || (u == 2 && x % 2 == 0) || (u == 4 && x % 4 == 0) || (u == 8 && x % 8 == 0)
  }

  predicate Whole(c: nat, size: int) { Supported(size) && c < U64 && Multiple(c, Scale(size)) }

  lemma Difference(x: int, y: int, u: int)
    requires Multiple(x, u) && y % 8 == 0
    ensures Multiple(x - y, u)
  {
    SmallerPowers(y);
    if u == 2 {
      Twos(x, y);
    } else if u == 4 {
      Fours(x, y);
    } else if u == 8 {
      Eights(x, y);
    }
  }

  lemma SmallerPowers(y: int)
    requires y % 8 == 0
    ensures y % 4 == 0 && y % 2 == 0
  {
  }

  lemma Twos(x: int, y: int)
    requires x % 2 == 0 && y % 2 == 0
    ensures (x - y) % 2 == 0 && (x + y) % 2 == 0
  {
  }

  lemma Fours(x: int, y: int)
    requires x % 4 == 0 && y % 4 == 0
    ensures (x - y) % 4 == 0 && (x + y) % 4 == 0
  {
  }

  lemma Eights(x: int, y: int)
    requires x % 8 == 0 && y % 8 == 0
    ensures (x - y) % 8 == 0 && (x + y) % 8 == 0
  {
  }

  predicate Formatted(d: Disk) { Whole(d.capacity, d.sectorSize) && Whole(d.published, d.sectorSize) }

  lemma WrapIs(y: nat) returns (q: nat)
    ensures Wrap(y, U64) == y - U64 * q
  {
    q := y / U64;
  }

  lemma MultipleOf8(m: int)
    ensures 8 * m % 8 == 0 && 4 * m % 4 == 0 && 2 * m % 2 == 0
  {
  }

  lemma WrappedMultiple(x: nat)
    ensures Wrap(x * 8, U64) % 8 == 0 && Wrap(x * 4, U64) % 4 == 0 && Wrap(x * 2, U64) % 2 == 0
  {
    var p := WrapIs(x * 8);
    MultipleOf8(x - 0x2000_0000_0000_0000 * p);
    var q := WrapIs(x * 4);
    MultipleOf8(x - 0x4000_0000_0000_0000 * q);
    var r := WrapIs(x * 2);
    MultipleOf8(x - 0x8000_0000_0000_0000 * r);
  }

  lemma RescaleWhole(native: nat, size: int)
    requires Supported(size) && native < U64
    ensures Whole(Rescale(native, size), size)
  {
    WrappedMultiple(native);
  }

  lemma UsableWhole(cfg: Config, raw: nat, size: int)
    requires Whole(raw, size) && cfg.reserved % 8 == 0
    ensures Whole(Usable(cfg, raw), size)
  {
    Difference(raw, cfg.reserved, Scale(size));
  }

  lemma FinishWhole(cfg: Config, was: nat, d: Disk, len: int)
    requires d.capacity < U64 && cfg.reserved % 8 == 0
    ensures
      var f := Finish(cfg, was, d, len);
      Whole(f.capacity, f.sectorSize)
  {
    RescaleWhole(Native(d, len), BlockSize(len));
    UsableWhole(cfg, Raw(d, len), BlockSize(len));
  }

  lemma FormattedStep(cfg: Config, d: Disk, e: Event)
    requires Formatted(d) && !Garbled(e) && cfg.reserved % 8 == 0
    ensures Formatted(Step(cfg, d, e))
  {
    if e.Scan? && Before(cfg, d, e).media {
      var b := Before(cfg, d, e);
      ReadRest(cfg, b, e.rc16, e.rc10);
      match Read(cfg, b, e.rc16, e.rc10) {
        case Got(d1, len) => FinishWhole(cfg, b.capacity, d1, len);
        case GaveUp(d1) => GivingUp(cfg, b, e.rc16, e.rc10);
      }
    }
  }

  /** From probing on, without garbled lengths: whole blocks of a supported size, all of them addressable. */
  lemma {:induction false} StaysFormatted(cfg: Config, d: Disk, es: seq<Event>)
    requires Formatted(d) && NoneGarbled(es) && cfg.reserved % 8 == 0
    ensures Formatted(After(cfg, d, es))
    decreases es
  {
    if es != [] {
      assert es[0] in es;
      FormattedStep(cfg, d, es[0]);
      StaysFormatted(cfg, Step(cfg, d, es[0]), es[1..]);
    }
  }

  // What is read from a device.

  /** Sectors of 512 bytes hold as many bytes as the blocks did. */
  lemma RescaleBytes(native: nat, size: int)
    requires Supported(size) && native * size < 512 * U64
    ensures size >= 512 ==> Rescale(native, size) * 512 == native * size
    ensures size < 512 ==> Rescale(native, size) * 512 <= native * size < Rescale(native, size) * 512 + 512
  {
  }

  /** A device that answers both commands with the same number of blocks and the same length. */
  function Says16(blocks: nat, size: nat): Answer
    requires blocks > 0
  {
    Reported(blocks - 1, size, false)
  }

  function Says10(blocks: nat, size: nat): Answer
    requires blocks > 0
  {
    Reported(if blocks - 1 < MAX32 then blocks - 1 else MAX32, size, false)
  }

  /** One block too many, for certain or by suspicion, is taken off. */
  lemma AdjustIs(cfg: Config, d: Disk)
    requires 0 < d.capacity < U64
    ensures Adjust(cfg, d) == d.(capacity := if cfg.fix || (cfg.guess && d.capacity % 2 == 1) then d.capacity - 1 else d.capacity)
  {
  }

  lemma HonestRead(cfg: Config, d: Disk, blocks: nat, size: nat)
    requires 0 < blocks < U64 && Supported(size) && (cfg.noRc16 ==> blocks <= MAX32)
    ensures Read(cfg, d, Says16(blocks, size), Says10(blocks, size)) == Got(Adjust(cfg, d.(capacity := blocks)), size)
  {
    hide Adjust;
  }

  /**
   Whichever command goes first, such a device is read as what it says, less one block if it is known to
   say one too many, or if it is suspected of that and says an odd number.
   */
  lemma HonestDevice(cfg: Config, d: Disk, blocks: nat, size: nat)
    requires 0 < blocks < U64 && Supported(size) && (cfg.noRc16 ==> blocks <= MAX32)
    ensures
      var rc16, rc10 := Says16(blocks, size), Says10(blocks, size);
      var native := if cfg.fix || (cfg.guess && blocks % 2 == 1) then blocks - 1 else blocks;
      var r := ReadCapacity(cfg, d, rc16, rc10);
      && Read(cfg, d, rc16, rc10) == Got(d.(capacity := native), size)
      && r.sectorSize == size && (r.use16 <==> native > MAX32)
      && (d.first || d.capacity != Rescale(native, size) ==> r.capacity == Usable(cfg, Rescale(native, size)))
  {
    hide Read, Adjust, Rescale, Usable;
    HonestRead(cfg, d, blocks, size);
    AdjustIs(cfg, d.(capacity := blocks));
  }

  /** In bytes: a first scan of such a device, blocks of 512 bytes or more, publishes all of it but the reservation. */
  lemma HonestBytes(cfg: Config, d: Disk, blocks: nat, size: nat)
    requires 0 < blocks < U64 && Supported(size) && size >= 512 && (cfg.noRc16 ==> blocks <= MAX32)
    requires d.first && d.media && blocks * size < 512 * U64
    ensures
      var e := Scan(false, Says16(blocks, size), Says10(blocks, size));
      var bytes := (if cfg.fix || (cfg.guess && blocks % 2 == 1) then blocks - 1 else blocks) * size;
      var p := Step(cfg, d, e).published;
      if bytes > cfg.reserved * 512 then (p + cfg.reserved) * 512 == bytes else p * 512 == bytes
  {
    hide Read, Rescale, Wrap;
    var native := if cfg.fix || (cfg.guess && blocks % 2 == 1) then blocks - 1 else blocks;
    HonestDevice(cfg, d, blocks, size);
    assert native * size <= blocks * size;
    RescaleBytes(native, size);
  }

  /** Too large for READ CAPACITY(10), and (16) cannot be had: 2^32 blocks are taken. */
  lemma LargeWithout16(cfg: Config, d: Disk, len: nat, rc16: Answer)
    requires !cfg.rc16First && !cfg.noRc16 && 0 < len < 0x8000_0000 && (rc16.Refused? || rc16.Failed?)
    ensures
      var r := Read(cfg, d, rc16, Reported(MAX32, len, false));
      r.Got? && r.d.capacity == 0x1_0000_0000 && r.len == len
  {
  }

  /** A length of 0 is taken for 512; one that is not supported leaves a disk of nothing, in blocks of 512. */
  lemma StrangeLength(cfg: Config, was: nat, d: Disk, len: int)
    requires !(len == 256 || len == 512 || len == 1024 || len == 2048 || len == 4096)
    ensures
      var f := Finish(cfg, was, d, len);
      && f.sectorSize == 512
      && (len != 0 ==> f.capacity == 0 && !f.use16)
      && (len == 0 ==> f == Finish(cfg, was, d, 512))
  {
  }

  /** A command that finds no medium, or a unit that is not ready, takes the medium of a removable disk away. */
  lemma AnswerTakesMedium(cfg: Config, d: Disk, a: Answer)
    ensures Read10(cfg, d, a).0.media <==> d.media && !(cfg.removable && (a.NoMedium? || (a.Failed? && a.notReady)))
    ensures Read16(cfg, d, a).0.media <==>
      d.media && !(!cfg.noRc16 && cfg.removable && (a.NoMedium? || (a.Failed? && a.notReady)))
  {
  }

  /** Only a removable disk loses its medium, and with it its size. */
  lemma MediumGone(cfg: Config, d: Disk, rc16: Answer, rc10: Answer)
    ensures cfg.removable ==>
      !Step(cfg, d, Check(true)).media && !Step(cfg, d, Scan(true, rc16, rc10)).media && Step(cfg, d, Scan(true, rc16, rc10)).published == 0
    ensures !cfg.removable ==>
      Step(cfg, d, Check(true)) == d && Step(cfg, d, Scan(true, rc16, rc10)) == Step(cfg, d, Scan(false, rc16, rc10))
    ensures Step(cfg, d, Check(false)) == d.(media := true)
  {
  }
}
