/**
 sd_prep_fn for file system reads and writes (drivers/scsi/sd.c), and the loop around it: prepare
 a command, complete its bytes, prepare the rest, until the request is used up.
 */
module SdPrep {
  import opened Common
  import opened SdCapacity
  import opened SdCdb

  /** From sd.h, which is not in the repository. */
  const SD_LAST_BUGGY_SECTORS := 8

  datatype Device = Device(
    disk: Disk, use10: bool, protection: bool, dif: nat, lastSectorBug: bool, writeable: bool, online: bool, changed: bool)
  {
    function Unit(): int { disk.sectorSize / 512 }

    function Threshold(): nat { Wrap(disk.published + U64 - SD_LAST_BUGGY_SECTORS * Unit(), U64) }

    predicate OnlySix() { dif != 2 && !disk.use16 && !protection && !use10 }
  }

  /** block and sectors count 512 bytes; a request has less than 2^32 bytes. */
  datatype Request = Request(block: nat, sectors: nat, write: bool, fua: bool) {
    predicate Ok() { block < U64 && sectors < 0x80_0000 }
  }

  datatype Form = Six | Ten | Sixteen | ThirtyTwo

  /** Sectors left to one command by the last-sector workaround. */
  function Limited(dev: Device, rq: Request): int {
    if dev.lastSectorBug && Wrap(rq.block + rq.sectors, U64) > dev.Threshold() then
      if rq.block < dev.Threshold() then dev.Threshold() - rq.block else dev.Unit()
    else rq.sectors
  }

  predicate Convertible(size: int, block: int, sectors: int) {
    && (size == 1024 ==> block % 2 == 0 && sectors % 2 == 0)
    && (size == 2048 ==> block % 4 == 0 && sectors % 4 == 0)
    && (size == 4096 ==> block % 8 == 0 && sectors % 8 == 0)
  }

  /** From 512-byte sectors to device blocks, for the sizes sd_prep_fn converts. */
  function Convert(size: int, x: int): int {
    if size == 1024 then x / 2 else if size == 2048 then x / 4 else if size == 4096 then x / 8 else x
  }

  function Lba(dev: Device, rq: Request): int { Convert(dev.disk.sectorSize, rq.block) }

  function Wanted(dev: Device, rq: Request): int { Convert(dev.disk.sectorSize, Limited(dev, rq)) }

  function Choose(dev: Device, lba: int, n: int): Form {
    if dev.dif == 2 then ThirtyTwo
    else if dev.disk.use16 then Sixteen
    else if n > 0xFF || lba > 0x1F_FFFF || dev.protection || dev.use10 then Ten
    else Six
  }

  function Clamp(form: Form, n: int): int { if form.Ten? && n > 0xFFFF then 0xFFFF else n }

  function FormOf(dev: Device, rq: Request): Form { Choose(dev, Lba(dev, rq), Wanted(dev, rq)) }

  function Count(dev: Device, rq: Request): int { Clamp(FormOf(dev, rq), Wanted(dev, rq)) }

  predicate Vetted(dev: Device, rq: Request) {
    && dev.online && Wrap(rq.block + rq.sectors, U64) <= dev.disk.published && !dev.changed
    && Convertible(dev.disk.sectorSize, rq.block, rq.sectors)
    && (rq.write ==> dev.writeable)
  }

  predicate Accepted(dev: Device, rq: Request) { Vetted(dev, rq) && !(FormOf(dev, rq).Six? && rq.fua) }

  /** Which requests sd_prep_fn does not kill, on disks with blocks of 512 bytes or more. */
  lemma AcceptedIff(dev: Device, rq: Request)
    requires dev.disk.sectorSize == 512 || dev.disk.sectorSize == 1024 || dev.disk.sectorSize == 2048 || dev.disk.sectorSize == 4096
    ensures
      var size, lba, n := dev.disk.sectorSize, Lba(dev, rq), Wanted(dev, rq);
      Accepted(dev, rq) <==>
        && dev.online && !dev.changed && (rq.write ==> dev.writeable)
        && (rq.block + rq.sectors) % 0x1_0000_0000_0000_0000 <= dev.disk.published
        && rq.block * 512 % size == 0 && rq.sectors * 512 % size == 0
        && (rq.fua ==> dev.dif == 2 || dev.disk.use16 || dev.protection || dev.use10 || n > 0xFF || lba > 0x1F_FFFF)
  {
    InBlocks(dev.disk.sectorSize, rq.block);
    InBlocks(dev.disk.sectorSize, rq.sectors);
  }

  lemma InBlocks(size: int, x: nat)
    requires size == 512 || size == 1024 || size == 2048 || size == 4096
    ensures x * 512 % size == 0 <==>
      size == 512 || (size == 1024 && x % 2 == 0) || (size == 2048 && x % 4 == 0) || (size == 4096 && x % 8 == 0)
  {
    if size == 1024 {
      InPairs(x);
    } else if size == 2048 {
      InFours(x);
    } else if size == 4096 {
      InEights(x);
    }
  }

  lemma InPairs(x: nat)
    ensures x * 512 % 1024 == 0 <==> x % 2 == 0
  {
  }

  lemma InFours(x: nat)
    ensures x * 512 % 2048 == 0 <==> x % 4 == 0
  {
  }

  lemma InEights(x: nat)
    ensures x * 512 % 4096 == 0 <==> x % 8 == 0
  {
  }

  /** A disk as sd_read_capacity leaves it: 512 to 4096 bytes a block, aligned, and large enough for the workaround. */
  predicate Sane(dev: Device) {
    && var u := dev.Unit();
    && dev.disk.sectorSize == 512 * u && (u == 1 || u == 2 || u == 4 || u == 8)
    && Reachable(dev.disk.published, dev.disk.sectorSize, dev.disk.use16)
    && dev.disk.published < U64 && Multiple(dev.disk.published, u)
    && (dev.lastSectorBug ==> dev.disk.published >= SD_LAST_BUGGY_SECTORS * u)
  }

  /** A request with something in it that does not run past the end of sector_t. */
  predicate Real(rq: Request) { rq.Ok() && rq.sectors > 0 && rq.block + rq.sectors < U64 }

  function Promised(dev: Device, rq: Request): Access
    requires Lba(dev, rq) >= 0 && Count(dev, rq) >= 0
  {
    Access(rq.write, Lba(dev, rq), Count(dev, rq), dev.dif != 0 && !FormOf(dev, rq).Six?, rq.fua)
  }

  /** Scans make it so: any history without a garbled length, 256-byte disks and tiny buggy ones aside. */
  lemma ScansMakeSane(cfg: Config, es: seq<Event>, dev: Device)
    requires NoneGarbled(es) && cfg.reserved % 8 == 0 && dev.disk == After(cfg, PROBED, es)
    requires dev.disk.sectorSize != 256
    requires dev.lastSectorBug ==> dev.disk.published >= SD_LAST_BUGGY_SECTORS * dev.Unit()
    ensures Sane(dev)
  {
    StaysAddressable(cfg, PROBED, es);
    StaysFormatted(cfg, PROBED, es);
  }

  // Arithmetic of a sane device.

  lemma Conversion(dev: Device, x: int)
    requires Sane(dev) && Multiple(x, dev.Unit())
    ensures Convert(dev.disk.sectorSize, x) * dev.Unit() == x
  {
  }

  lemma AlignedRequest(dev: Device, rq: Request)
    requires Sane(dev) && Convertible(dev.disk.sectorSize, rq.block, rq.sectors)
    ensures Multiple(rq.block, dev.Unit()) && Multiple(rq.sectors, dev.Unit())
  {
  }

  lemma AlignedThreshold(dev: Device)
    requires Sane(dev) && dev.lastSectorBug
    ensures dev.Threshold() == dev.disk.published - SD_LAST_BUGGY_SECTORS * dev.Unit()
    ensures Multiple(dev.Threshold(), dev.Unit())
  {
  }

  lemma AlignedDifference(u: int, x: int, y: int)
    requires Multiple(x, u) && Multiple(y, u)
    ensures Multiple(x - y, u) && Multiple(x + y, u) && Multiple(u, u)
    ensures x > y ==> x - y >= u
  {
    if u == 2 {
      Twos(x, y);
    } else if u == 4 {
      Fours(x, y);
    } else if u == 8 {
      Eights(x, y);
    }
  }

  /** The workaround leaves a positive, aligned part of the request. */
  lemma LimitedPart(dev: Device, rq: Request)
    requires Sane(dev) && Real(rq) && Accepted(dev, rq)
    ensures 0 < Limited(dev, rq) <= rq.sectors && Multiple(Limited(dev, rq), dev.Unit())
    ensures dev.lastSectorBug ==> rq.block + Limited(dev, rq) <= dev.Threshold() || Limited(dev, rq) == dev.Unit()
  {
    AlignedRequest(dev, rq);
    AlignedDifference(dev.Unit(), rq.sectors, 0);
    if dev.lastSectorBug {
      AlignedThreshold(dev);
      AlignedDifference(dev.Unit(), dev.Threshold(), rq.block);
    }
  }

  /** The command lies inside the request, in device blocks. */
  lemma CommandInside(dev: Device, rq: Request)
    requires Sane(dev) && Real(rq) && Accepted(dev, rq)
    ensures Lba(dev, rq) * dev.Unit() == rq.block
    ensures 0 < Wanted(dev, rq) && Wanted(dev, rq) * dev.Unit() == Limited(dev, rq)
    ensures 0 < Count(dev, rq) <= Wanted(dev, rq) && Count(dev, rq) * dev.Unit() <= rq.sectors
  {
    AlignedRequest(dev, rq);
    LimitedPart(dev, rq);
    Conversion(dev, rq.block);
    Conversion(dev, Limited(dev, rq));
  }

  /** No field of the chosen form is too narrow. */
  lemma FieldsSuffice(dev: Device, rq: Request)
    requires Sane(dev) && Real(rq) && Accepted(dev, rq)
    ensures 0 <= Lba(dev, rq) < U64 && 0 < Count(dev, rq) < 0x80_0000
    ensures FormOf(dev, rq).Ten? ==> Lba(dev, rq) <= MAX32 && Count(dev, rq) <= 0xFFFF
    ensures FormOf(dev, rq).Six? ==> Lba(dev, rq) <= 0x1F_FFFF && Count(dev, rq) <= 0xFF
  {
    CommandInside(dev, rq);
  }

  /** Once sectors are gone from the front of a request, what is left of it. */
  function Remaining(dev: Device, rq: Request): Request
    requires Sane(dev) && Real(rq) && Accepted(dev, rq)
  {
    CommandInside(dev, rq);
    rq.(block := rq.block + Count(dev, rq) * dev.Unit(), sectors := rq.sectors - Count(dev, rq) * dev.Unit())
  }

  /** FUA only where the drive has commands that can carry it. */
  predicate Willing(dev: Device, rq: Request) { rq.fua ==> !dev.OnlySix() }

  lemma RemainingVetted(dev: Device, rq: Request)
    requires Sane(dev) && Real(rq) && Accepted(dev, rq)
    ensures
      var r := Remaining(dev, rq);
      r.sectors < rq.sectors && (r.sectors > 0 ==> Real(r)) && Vetted(dev, r)
  {
    CommandInside(dev, rq);
    AlignedRequest(dev, rq);
    UnitMultiple(dev.Unit(), Count(dev, rq));
    AlignedDifference(dev.Unit(), rq.block, Count(dev, rq) * dev.Unit());
    AlignedDifference(dev.Unit(), rq.sectors, Count(dev, rq) * dev.Unit());
  }

  lemma UnitMultiple(u: int, n: int)
    requires u == 1 || u == 2 || u == 4 || u == 8
    ensures Multiple(n * u, u) && (n > 0 ==> n * u >= u)
  {
  }

  /** Every command of the request is accepted when its turn comes. */
  predicate Finishes(dev: Device, rq: Request)
    requires Sane(dev) && rq.Ok()
    decreases rq.sectors
  {
    rq.sectors == 0 || (Real(rq) && Accepted(dev, rq) && LeavesLess(dev, rq) && Finishes(dev, Remaining(dev, rq)))
  }

  predicate LeavesLess(dev: Device, rq: Request)
    requires Sane(dev) && Real(rq) && Accepted(dev, rq)
    ensures LeavesLess(dev, rq)
  {
    CommandInside(dev, rq);
    UnitMultiple(dev.Unit(), Count(dev, rq));
    Remaining(dev, rq).sectors < rq.sectors && Remaining(dev, rq).Ok()
  }

  /** What can be issued to the end. */
  predicate Good(dev: Device, rq: Request) {
    Sane(dev) && (rq.sectors > 0 ==> Real(rq) && Finishes(dev, rq))
  }

  lemma WillingNotSix(dev: Device, rq: Request)
    requires Willing(dev, rq) && Vetted(dev, rq)
    ensures Accepted(dev, rq)
  {
  }

  /** Where FUA is no problem, a request accepted once is accepted to its end. */
  lemma {:induction false} WillingIsGood(dev: Device, rq: Request)
    requires Sane(dev) && Real(rq) && Accepted(dev, rq) && Willing(dev, rq)
    ensures Good(dev, rq)
    decreases rq.sectors
  {
    RemainingVetted(dev, rq);
    var r := Remaining(dev, rq);
    WillingNotSix(dev, r);
    assert LeavesLess(dev, rq);
    if r.sectors > 0 {
      WillingIsGood(dev, r);
    }
  }

  lemma RemainingGood(dev: Device, rq: Request)
    requires Good(dev, rq) && rq.sectors > 0
    ensures Real(rq) && Accepted(dev, rq)
    ensures
      var r := Remaining(dev, rq);
      r.sectors < rq.sectors && Good(dev, r)
  {
    RemainingVetted(dev, rq);
  }

  /** The commands a request turns into, by the reference: prepare, complete, prepare the rest. */
  function Commands(dev: Device, rq: Request): seq<Access>
    requires Good(dev, rq)
    decreases rq.sectors
  {
    if rq.sectors == 0 then []
    else
      RemainingGood(dev, rq);
      FieldsSuffice(dev, rq);
      [Promised(dev, rq)] + Commands(dev, Remaining(dev, rq))
  }

  /** Consecutive commands that cover n blocks from lba on, without gap or overlap. */
  predicate Tiles(cs: seq<Access>, lba: int, n: int)
    decreases cs
  {
    if cs == [] then n == 0
    else cs[0].lba == lba && 0 < cs[0].count <= n && Tiles(cs[1..], lba + cs[0].count, n - cs[0].count)
  }

  /** No command touches the buggy tail together with anything else. */
  predicate Careful(dev: Device, c: Access) {
    dev.lastSectorBug ==> (c.lba + c.count) * dev.Unit() <= dev.Threshold() || c.count == 1
  }

  lemma Sums(u: int, a: int, b: int, c: int)
    requires u == 1 || u == 2 || u == 4 || u == 8
    ensures (a + b) * u == a * u + b * u && (a - b) * u == a * u - b * u
    ensures a * u <= c * u <==> a <= c
    ensures a * u == c * u <==> a == c
  {
  }

  lemma CommandCareful(dev: Device, rq: Request)
    requires Sane(dev) && Real(rq) && Accepted(dev, rq)
    ensures FieldsOk(dev, rq) && Careful(dev, Promised(dev, rq))
  {
    FieldsSuffice(dev, rq);
    CommandInside(dev, rq);
    LimitedPart(dev, rq);
    Sums(dev.Unit(), Lba(dev, rq), Count(dev, rq), 0);
    Sums(dev.Unit(), Count(dev, rq), 0, Wanted(dev, rq));
    Sums(dev.Unit(), Wanted(dev, rq), 0, 1);
  }

  predicate FieldsOk(dev: Device, rq: Request) { Lba(dev, rq) >= 0 && Count(dev, rq) >= 0 }

  lemma LbaOfRemaining(dev: Device, rq: Request)
    requires Sane(dev) && Real(rq) && Accepted(dev, rq)
    ensures
      var r := Remaining(dev, rq);
      && Convert(dev.disk.sectorSize, r.block) == Lba(dev, rq) + Count(dev, rq)
      && Convert(dev.disk.sectorSize, r.sectors) == Convert(dev.disk.sectorSize, rq.sectors) - Count(dev, rq)
      && Count(dev, rq) <= Convert(dev.disk.sectorSize, rq.sectors)
  {
    var u, n, r := dev.Unit(), Count(dev, rq), Remaining(dev, rq);
    CommandInside(dev, rq);
    AlignedRequest(dev, rq);
    UnitMultiple(u, n);
    AlignedDifference(u, rq.block, n * u);
    AlignedDifference(u, rq.sectors, n * u);
    Conversion(dev, r.block);
    Conversion(dev, r.sectors);
    Conversion(dev, rq.sectors);
    Sums(u, Lba(dev, rq), n, Convert(dev.disk.sectorSize, r.block));
    Sums(u, Convert(dev.disk.sectorSize, rq.sectors), n, Convert(dev.disk.sectorSize, r.sectors));
    Sums(u, Lba(dev, rq) + n, 0, Convert(dev.disk.sectorSize, r.block));
    Sums(u, Convert(dev.disk.sectorSize, rq.sectors) - n, 0, Convert(dev.disk.sectorSize, r.sectors));
    Sums(u, n, 0, Convert(dev.disk.sectorSize, rq.sectors));
  }

  /** A command stays inside the published capacity, away from the reserved area behind it. */
  predicate Contained(dev: Device, c: Access) { (c.lba + c.count) * dev.Unit() <= dev.disk.published }

  lemma CommandContained(dev: Device, rq: Request)
    requires Sane(dev) && Real(rq) && Accepted(dev, rq)
    ensures FieldsOk(dev, rq) && Contained(dev, Promised(dev, rq))
  {
    FieldsSuffice(dev, rq);
    CommandInside(dev, rq);
    Sums(dev.Unit(), Lba(dev, rq), Count(dev, rq), 0);
  }

  /** Within the disk, careful at its end, as asked for, and to a disk that is there, unchanged and takes writes if it is one. */
  predicate Proper(dev: Device, rq: Request, c: Access) {
    && Careful(dev, c) && Contained(dev, c) && c.write == rq.write && c.fua == rq.fua
    && dev.online && !dev.changed && (c.write ==> dev.writeable)
  }

  function Size(dev: Device, rq: Request): int { Convert(dev.disk.sectorSize, rq.sectors) }

  /** One turn of the loop: the first command of the request, and the rest. */
  lemma OneCommand(dev: Device, rq: Request) returns (c: Access, r: Request)
    requires Good(dev, rq) && rq.sectors > 0
    ensures Good(dev, r) && r.sectors < rq.sectors && Commands(dev, rq) == [c] + Commands(dev, r)
    ensures c.lba == Lba(dev, rq) && 0 < c.count <= Size(dev, rq)
    ensures Lba(dev, r) == c.lba + c.count && Size(dev, r) == Size(dev, rq) - c.count
    ensures Proper(dev, rq, c) && r.write == rq.write && r.fua == rq.fua
    ensures Sane(dev) && Real(rq) && Accepted(dev, rq) && FieldsOk(dev, rq)
    ensures c == Promised(dev, rq) && r == Remaining(dev, rq)
  {
    RemainingGood(dev, rq);
    FieldsSuffice(dev, rq);
    c, r := Promised(dev, rq), Remaining(dev, rq);
    LbaOfRemaining(dev, rq);
    CommandCareful(dev, rq);
    CommandContained(dev, rq);
  }

  lemma TilesCons(c: Access, cs: seq<Access>, lba: int, n: int)
    requires c.lba == lba && 0 < c.count <= n && Tiles(cs, lba + c.count, n - c.count)
    ensures Tiles([c] + cs, lba, n)
  {
    assert ([c] + cs)[1..] == cs;
  }

  lemma {:induction false} CommandsTile(dev: Device, rq: Request)
    requires Good(dev, rq)
    ensures Tiles(Commands(dev, rq), Lba(dev, rq), Size(dev, rq))
    decreases rq.sectors
  {
    if rq.sectors > 0 {
      var c, r := OneCommand(dev, rq);
      CommandsTile(dev, r);
      TilesCons(c, Commands(dev, r), Lba(dev, rq), Size(dev, rq));
    }
  }

  lemma {:induction false} CommandsProper(dev: Device, rq: Request, c: Access)
    requires Good(dev, rq) && c in Commands(dev, rq)
    ensures Proper(dev, rq, c)
    decreases rq.sectors
  {
    var first, r := OneCommand(dev, rq);
    if c != first {
      CommandsProper(dev, r, c);
    }
  }

  /**
   Every accepted request is issued exactly: its commands tile its blocks, in order, with nothing lost
   to the 16-bit count of READ(10); all end within the published capacity, and none crosses the
   last-sector threshold with more than one block.
   */
  lemma IssuedExactly(dev: Device, rq: Request)
    requires Good(dev, rq)
    ensures Tiles(Commands(dev, rq), Lba(dev, rq), Size(dev, rq))
    ensures forall c :: c in Commands(dev, rq) ==> Proper(dev, rq, c)
  {
    CommandsTile(dev, rq);
    forall c | c in Commands(dev, rq) ensures Proper(dev, rq, c) {
      CommandsProper(dev, rq, c);
    }
  }

  /** Through any history of scans that keep the raw size, no command reaches the sectors reserved behind the disk. */
  lemma ReservedAreaUntouched(cfg: Config, raw: nat, es: seq<Event>, dev: Device, rq: Request, c: Access)
    requires FaithfulRun(cfg, raw, PROBED, es) && dev.disk == After(cfg, PROBED, es)
    requires Good(dev, rq) && c in Commands(dev, rq)
    ensures (c.lba + c.count) * dev.Unit() <= Usable(cfg, raw)
    ensures raw > cfg.reserved ==> (c.lba + c.count) * dev.Unit() + cfg.reserved <= raw
  {
    SteadyRun(cfg, raw, PROBED, es);
    CommandsProper(dev, rq, c);
  }

  // FUA on a drive that may fall back to 6-byte commands.

  /** Blocks in the last command when each one before it takes 0xffff. */
  function LastCount(n: int): int { (n - 1) % 0xFFFF + 1 }

  lemma LastCountStep(n: int)
    requires n > 0xFFFF
    ensures LastCount(n - 0xFFFF) == LastCount(n)
  {
    assert n - 1 == (n - 1 - 0xFFFF) + 0xFFFF;
  }

  lemma LastCountSmall(n: int)
    requires 0 < n <= 0xFFFF
    ensures LastCount(n) == n
  {
  }

  predicate AcceptedButForFua(dev: Device, rq: Request) { Accepted(dev, rq.(fua := false)) }

  /** The last of the commands for n blocks at lba is too long, or lies too far out, for 6 bytes. */
  predicate LastIsLong(lba: int, n: int) { LastCount(n) > 0xFF || lba + n - LastCount(n) > 0x1F_FFFF }

  /** The threshold in device blocks; a drive without the bug has none. */
  datatype Bug = NoBug | From(t: int)

  function BugOf(dev: Device): Bug {
    if dev.lastSectorBug then From(Convert(dev.disk.sectorSize, dev.Threshold())) else NoBug
  }

  /** Blocks the workaround leaves to the next command. */
  function Want(bug: Bug, lba: int, n: int): int {
    if bug.NoBug? || lba + n <= bug.t then n else if lba < bug.t then bug.t - lba else 1
  }

  /**
   When n blocks at lba can be written with FUA by a drive that may fall back to 6-byte commands: the last
   command, the one that stops at the threshold, and the single blocks behind it all need a longer form.
   */
  predicate FuaFits(bug: Bug, lba: int, n: int) {
    if bug.NoBug? || lba + n <= bug.t then LastIsLong(lba, n)
    else if lba >= bug.t then lba > 0x1F_FFFF
    else bug.t > 0x1F_FFFF && LastIsLong(lba, bug.t - lba)
  }

  /** One command more or less does not change that. */
  lemma FuaFitsStep(bug: Bug, lba: int, n: int)
    requires n > 0
    ensures
      var w := Want(bug, lba, n);
      var c := if w > 0xFFFF then 0xFFFF else w;
      && 0 < w <= n
      && (FuaFits(bug, lba, n) <==> (w > 0xFF || lba > 0x1F_FFFF) && (n == c || FuaFits(bug, lba + c, n - c)))
  {
    var w := Want(bug, lba, n);
    if w > 0xFFFF {
      LastCountStep(w);
    } else {
      LastCountSmall(w);
    }
  }

  lemma BlocksOf(dev: Device, rq: Request)
    requires Sane(dev) && Real(rq) && AcceptedButForFua(dev, rq)
    ensures Lba(dev, rq) * dev.Unit() == rq.block && Size(dev, rq) * dev.Unit() == rq.sectors && Size(dev, rq) > 0
    ensures dev.lastSectorBug ==> BugOf(dev).t * dev.Unit() == dev.Threshold()
  {
    AlignedRequest(dev, rq);
    Conversion(dev, rq.block);
    Conversion(dev, rq.sectors);
    if dev.lastSectorBug {
      AlignedThreshold(dev);
      Conversion(dev, dev.Threshold());
    }
  }

  lemma WantedIs(dev: Device, rq: Request)
    requires Sane(dev) && Real(rq) && AcceptedButForFua(dev, rq)
    ensures Wanted(dev, rq) == Want(BugOf(dev), Lba(dev, rq), Size(dev, rq)) && Size(dev, rq) > 0
  {
    BlocksOf(dev, rq);
    if dev.lastSectorBug {
      var u, lba, n, t := dev.Unit(), Lba(dev, rq), Size(dev, rq), BugOf(dev).t;
      Sums(u, lba, n, 0);
      Sums(u, lba + n, 0, t);
      Sums(u, t, lba, lba);
      WantedScaled(dev, rq, u, lba, n, t);
    }
  }

  lemma WantedScaled(dev: Device, rq: Request, u: int, lba: int, n: int, t: int)
    requires Sane(dev) && Real(rq) && u == dev.Unit() && dev.lastSectorBug && n > 0
    requires rq.block == lba * u && rq.sectors == n * u && dev.Threshold() == t * u
    requires lba + n <= t <==> rq.block + rq.sectors <= dev.Threshold()
    requires t <= lba <==> dev.Threshold() <= rq.block
    requires (t - lba) * u == dev.Threshold() - rq.block
    ensures Wanted(dev, rq) == Want(From(t), lba, n)
  {
    DividedBack(dev, n);
    DividedBack(dev, t - lba);
    DividedBack(dev, 1);
  }

  lemma DividedBack(dev: Device, k: int)
    requires Sane(dev)
    ensures Convert(dev.disk.sectorSize, k * dev.Unit()) == k
  {
  }

  lemma RefusedForFua(dev: Device, rq: Request)
    requires Sane(dev) && Real(rq) && AcceptedButForFua(dev, rq) && rq.fua && dev.OnlySix()
    ensures Accepted(dev, rq) <==> Wanted(dev, rq) > 0xFF || Lba(dev, rq) > 0x1F_FFFF
    ensures Accepted(dev, rq) ==> Count(dev, rq) == if Wanted(dev, rq) > 0xFFFF then 0xFFFF else Wanted(dev, rq)
  {
  }

  lemma RemainingForFua(dev: Device, rq: Request)
    requires Sane(dev) && Real(rq) && Accepted(dev, rq)
    ensures
      var r := Remaining(dev, rq);
      && r.sectors < rq.sectors && (r.sectors > 0 ==> Real(r) && AcceptedButForFua(dev, r))
      && Lba(dev, r) == Lba(dev, rq) + Count(dev, rq) && Size(dev, r) == Size(dev, rq) - Count(dev, rq)
      && (r.sectors == 0 <==> Size(dev, rq) == Count(dev, rq))
  {
    RemainingVetted(dev, rq);
    LbaOfRemaining(dev, rq);
    AlignedRequest(dev, rq);
    Conversion(dev, rq.sectors);
  }

  /** On every drive limited to 6-byte commands where it can use them, a FUA request is carried out in full if and only if it fits. */
  lemma {:induction false} FuaFinishes(dev: Device, rq: Request)
    requires Sane(dev) && Real(rq) && AcceptedButForFua(dev, rq) && rq.fua && dev.OnlySix()
    ensures Finishes(dev, rq) <==> FuaFits(BugOf(dev), Lba(dev, rq), Size(dev, rq))
    decreases rq.sectors
  {
    hide FuaFits, Want, Wanted, Lba, Size, Count;
    WantedIs(dev, rq);
    RefusedForFua(dev, rq);
    FuaFitsStep(BugOf(dev), Lba(dev, rq), Size(dev, rq));
    if Accepted(dev, rq) {
      var r := Remaining(dev, rq);
      RemainingForFua(dev, rq);
      assert LeavesLess(dev, rq);
      if r.sectors > 0 {
        FuaFinishes(dev, r);
      }
    }
  }

  /** So a request accepted but for FUA is issued to its end if and only if FUA is no problem or it fits. */
  lemma GoodIff(dev: Device, rq: Request)
    requires Sane(dev) && Real(rq) && AcceptedButForFua(dev, rq)
    ensures Good(dev, rq) <==> Willing(dev, rq) || FuaFits(BugOf(dev), Lba(dev, rq), Size(dev, rq))
  {
    hide FuaFits, Finishes, Lba, Size;
    if Willing(dev, rq) {
      WillingNotSix(dev, rq);
      WillingIsGood(dev, rq);
    } else {
      FuaFinishes(dev, rq);
    }
  }

  const SMALL_DRIVE := Device(Disk(1008, 1008, 512, false, false, true), false, false, 0, true, true, true, false)

  /** 308 sectors up to the end of a small buggy drive: 300 of them are written, the rest is killed. */
  lemma FuaCutShort()
    ensures
      var rq := Request(700, 308, true, true);
      && Sane(SMALL_DRIVE) && Real(rq) && Accepted(SMALL_DRIVE, rq)
      && Remaining(SMALL_DRIVE, rq) == Request(1000, 8, true, true)
      && !Accepted(SMALL_DRIVE, Remaining(SMALL_DRIVE, rq)) && !Finishes(SMALL_DRIVE, rq)
  {
    var rq := Request(700, 308, true, true);
    assert SMALL_DRIVE.Threshold() == 1000;
    assert Remaining(SMALL_DRIVE, rq) == Request(1000, 8, true, true);
  }

  // The code.

  datatype Prepared = Kill | Defer | Ready

  /** What the device makes of the bytes written for a block address and a count, whether they fit or not. */
  function Carried(form: Form, write: bool, lba: nat, n: nat, protect: bool, fua: bool): Access {
    match form
    case Six => Access(write, lba, if n == 0 then 256 else n, false, false)
    case Ten => Access(write, Value(Bytes(lba, 4)), Value(Bytes(n, 2)), protect, fua)
    case _ => Access(write, Value(Bytes(lba, 8)), Value(Bytes(n, 4)), protect, fua)
  }

  // Exactly when the command means what was asked for.

  /** The request runs past the end of sector_t. */
  predicate Wraps(rq: Request) { rq.block + rq.sectors >= U64 }

  /** The request comes without sectors, and the workaround does not give it one block either. */
  predicate Nothing(dev: Device, rq: Request) {
    rq.sectors == 0 && !(dev.lastSectorBug && rq.block > dev.Threshold())
  }

  /** The end-of-disk check keeps a request inside the disk if and only if its end does not wrap around. */
  lemma InsideIff(dev: Device, rq: Request)
    requires Sane(dev) && rq.Ok() && Accepted(dev, rq)
    ensures rq.block + rq.sectors <= dev.disk.published <==> !Wraps(rq)
  {
  }

  lemma LimitedAny(dev: Device, rq: Request)
    requires Sane(dev) && rq.Ok() && Accepted(dev, rq)
    ensures 0 <= Limited(dev, rq) && (Limited(dev, rq) <= rq.sectors || Limited(dev, rq) == dev.Unit())
    ensures Multiple(Limited(dev, rq), dev.Unit()) && (Limited(dev, rq) == 0 <==> Nothing(dev, rq))
  {
    AlignedRequest(dev, rq);
    AlignedDifference(dev.Unit(), rq.sectors, 0);
    if dev.lastSectorBug {
      AlignedThreshold(dev);
      AlignedDifference(dev.Unit(), dev.Threshold(), rq.block);
    }
  }

  /** What the fields of the chosen form have to hold, for every accepted request. */
  lemma FieldsOf(dev: Device, rq: Request)
    requires Sane(dev) && rq.Ok() && Accepted(dev, rq)
    ensures 0 <= Lba(dev, rq) < U64 && 0 <= Count(dev, rq) < 0x80_0000 && (Count(dev, rq) == 0 <==> Nothing(dev, rq))
    ensures FormOf(dev, rq).Ten? ==> Count(dev, rq) <= 0xFFFF && (Lba(dev, rq) <= MAX32 <==> !Wraps(rq))
    ensures FormOf(dev, rq).Six? ==> Lba(dev, rq) <= 0x1F_FFFF && Count(dev, rq) <= 0xFF && !Wraps(rq)
  {
    AlignedRequest(dev, rq);
    LimitedAny(dev, rq);
    Conversion(dev, rq.block);
    Conversion(dev, Limited(dev, rq));
    Sums(dev.Unit(), Wanted(dev, rq), 0, 0);
    FarOut(dev, rq);
  }

  lemma FarOut(dev: Device, rq: Request)
    requires Sane(dev) && rq.Ok() && Accepted(dev, rq) && Lba(dev, rq) * dev.Unit() == rq.block
    ensures Wraps(rq) ==> Lba(dev, rq) > MAX32
    ensures !Wraps(rq) && !dev.disk.use16 ==> Lba(dev, rq) <= MAX32
  {
    Sums(dev.Unit(), MAX32, 0, Lba(dev, rq));
    Sums(dev.Unit(), Lba(dev, rq), 0, MAX32);
  }

  function Told(dev: Device, rq: Request): Access
    requires FieldsOk(dev, rq)
  {
    Carried(FormOf(dev, rq), rq.write, Lba(dev, rq), Count(dev, rq), dev.dif != 0, rq.fua)
  }

  lemma TooWide4(x: nat)
    requires x > 0xFFFF_FFFF
    ensures !FitsIn(x, 4)
  {
    assert !FitsIn(x / 256 / 256 / 256 / 256, 0);
    assert !FitsIn(x / 256 / 256 / 256, 1);
    assert !FitsIn(x / 256 / 256, 2);
    assert !FitsIn(x / 256, 3);
  }

  /** Four bytes for the address and two for the count. */
  lemma TenBytes(lba: nat, n: nat)
    requires n <= 0xFFFF
    ensures Value(Bytes(n, 2)) == n && (Value(Bytes(lba, 4)) == lba <==> lba <= MAX32)
  {
    Fits2(n);
    ValueOfBytes(n, 2);
    ValueOfBytes(lba, 4);
    if lba <= MAX32 {
      Fits4(lba);
    } else {
      TooWide4(lba);
    }
  }

  lemma LongBytes(lba: nat, n: nat)
    requires lba < U64 && n <= MAX32
    ensures Value(Bytes(lba, 8)) == lba && Value(Bytes(n, 4)) == n
  {
    Fits8(lba);
    ValueOfBytes(lba, 8);
    Fits4(n);
    ValueOfBytes(n, 4);
  }

  /**
   For every accepted request: the device reads back the address and the count that were meant, if and
   only if a 10-byte command does not wrap around and a 6-byte command is not empty.
   */
  lemma CarriedIff(dev: Device, rq: Request)
    requires Sane(dev) && rq.Ok() && Accepted(dev, rq)
    ensures FieldsOk(dev, rq)
    ensures Told(dev, rq) == Promised(dev, rq) <==>
      !(FormOf(dev, rq).Ten? && Wraps(rq)) && !(FormOf(dev, rq).Six? && Nothing(dev, rq))
  {
    FieldsOf(dev, rq);
    LongBytes(Lba(dev, rq), Count(dev, rq));
    if FormOf(dev, rq).Ten? {
      TenBytes(Lba(dev, rq), Count(dev, rq));
    }
  }

  /** CDBs never truncate a request that is there and ends within sector_t. */
  lemma CarriedExactly(dev: Device, rq: Request)
    requires Sane(dev) && Real(rq) && Accepted(dev, rq)
    ensures FieldsOk(dev, rq) && Told(dev, rq) == Promised(dev, rq)
  {
    CarriedIff(dev, rq);
  }

  /** What becomes of a request without sectors: one block past the threshold, else nothing, or 256 blocks in 6 bytes. */
  lemma EmptyRequest(dev: Device, rq: Request)
    requires Sane(dev) && rq.Ok() && Accepted(dev, rq) && rq.sectors == 0
    ensures FieldsOk(dev, rq)
    ensures Told(dev, rq).count ==
      if dev.lastSectorBug && rq.block > dev.Threshold() then 1 else if FormOf(dev, rq).Six? then 256 else 0
  {
    FieldsOf(dev, rq);
    OneOrNone(dev, rq);
    LongBytes(Lba(dev, rq), Count(dev, rq));
    TenBytes(Lba(dev, rq), Count(dev, rq));
  }

  lemma OneOrNone(dev: Device, rq: Request)
    requires Sane(dev) && rq.Ok() && rq.sectors == 0
    ensures Count(dev, rq) == if dev.lastSectorBug && rq.block > dev.Threshold() then 1 else 0
  {
  }

  const SIX_ONLY := Device(Disk(1000, 1000, 512, false, false, true), false, false, 0, false, true, true, false)

  /** A read of nothing at sector 0 is accepted by a small drive with 6-byte commands, which is told 256 blocks. */
  lemma EmptyBecomes256()
    ensures
      var rq := Request(0, 0, false, false);
      Sane(SIX_ONLY) && rq.Ok() && Accepted(SIX_ONLY, rq) && FieldsOk(SIX_ONLY, rq) && Told(SIX_ONLY, rq).count == 256
  {
    EmptyRequest(SIX_ONLY, Request(0, 0, false, false));
  }

  /** bio_check_eod; a size of 0 is one that is not known. */
  predicate PassesEod(size: nat, sector: nat, n: nat) {
    n == 0 || size == 0 || !(size < n || size - n < sector)
  }

  /** The block layer does stop a bio that wraps around, or leaves the device, once the size of the device is known. */
  lemma EodStops(size: nat, rq: Request)
    requires 0 < size < U64 && rq.Ok() && rq.sectors > 0
    ensures PassesEod(size, rq.block, rq.sectors) <==> rq.block + rq.sectors <= size
    ensures Wraps(rq) ==> !PassesEod(size, rq.block, rq.sectors)
  {
  }

  /**
   A disk of 1000 sectors accepts eight sectors at the far end of sector_t, and is told another address.
   Bios like that do not get here while the size of the device is known (EodStops).
   */
  lemma WrappedRequest(dev: Device)
    requires dev == Device(Disk(1000, 1000, 512, false, false, true), true, false, 0, false, true, true, false)
    ensures var rq := Request(U64 - 8, 8, false, false);
      Sane(dev) && Accepted(dev, rq) && FieldsOk(dev, rq) && Told(dev, rq).lba != Lba(dev, rq)
  {
    var rq := Request(U64 - 8, 8, false, false);
    FieldsOf(dev, rq);
    TenBytes(Lba(dev, rq), Count(dev, rq));
  }

  /** The three conversions to blocks larger than 512 bytes. */
  method ToBlocks(size: int, block: int, sectors: int, count: int) returns (ok: bool, b: int, c: int)
    requires 0 <= block && 0 <= sectors
    ensures ok <==> Convertible(size, block, sectors)
    ensures ok ==> b == Convert(size, block) && c == Convert(size, count)
  {
    b, c := block, count;
    if size == 1024 {
      if block % 2 != 0 || sectors % 2 != 0 {
        return false, b, c;
      }
      b, c := block / 2, count / 2;
    }
    if size == 2048 {
      if block % 4 != 0 || sectors % 4 != 0 {
        return false, b, c;
      }
      b, c := block / 4, count / 4;
    }
    if size == 4096 {
      if block % 8 != 0 || sectors % 8 != 0 {
        return false, b, c;
      }
      b, c := block / 8, count / 8;
    }
    ok := true;
  }

  /** sd_prep_fn up to the choice of the form. */
  method Vet(dev: Device, rq: Request) returns (ok: bool, block: int, count: int)
    requires rq.Ok()
    ensures ok <==> Vetted(dev, rq)
    ensures ok ==> block == Lba(dev, rq) && count == Wanted(dev, rq)
    ensures ok ==> dev.online && !dev.changed && (rq.write ==> dev.writeable)
  {
    block, count := rq.block, rq.sectors;
    if !dev.online || Wrap(block + rq.sectors, U64) > dev.disk.published {
      return false, block, count;
    }
    if dev.changed {
      return false, block, count;
    }
    var threshold := Wrap(dev.disk.published + U64 - SD_LAST_BUGGY_SECTORS * (dev.disk.sectorSize / 512), U64);
    if dev.lastSectorBug && Wrap(block + count, U64) > threshold {
      if block < threshold {
        count := threshold - block;
      } else {
        count := dev.disk.sectorSize / 512;
      }
    }
    ok, block, count := ToBlocks(dev.disk.sectorSize, block, rq.sectors, count);
    ok := ok && (!rq.write || dev.writeable);
  }

  /** The choice among the four forms. */
  method Build(dev: Device, rq: Request, cmnd: array<Octet>, poolEmpty: bool, block: nat, count: nat)
    returns (ret: Prepared, cdb: array<Octet>, n: nat)
    requires cmnd.Length == 16 && cmnd[1] == 0 && cmnd[0] == if rq.write then WRITE_6 else READ_6
    modifies cmnd
    ensures cdb == cmnd || fresh(cdb)
    ensures ret == Kill <==> Choose(dev, block, count).Six? && rq.fua
    ensures ret == Defer <==> dev.dif == 2 && poolEmpty
    ensures n == Clamp(Choose(dev, block, count), count)
    ensures ret == Ready ==>
      Decode(cdb[..]) == Valid(Carried(Choose(dev, block, count), rq.write, block, n, dev.dif != 0, rq.fua))
  {
    cdb, n := cmnd, count;
    var protect := dev.dif != 0;
    if dev.dif == 2 {
      if poolEmpty {
        return Defer, cdb, n;
      }
      cdb := Fill32(rq.write, block, n, protect, rq.fua);
    } else if dev.disk.use16 {
      Fill16(cmnd, rq.write, block, n, protect, rq.fua);
    } else if n > 0xFF || block > 0x1F_FFFF || dev.protection || dev.use10 {
      if n > 0xFFFF {
        n := 0xFFFF;
      }
      Fill10(cmnd, rq.write, block, n, protect, rq.fua);
    } else {
      if rq.fua {
        return Kill, cdb, n;
      }
      Fill6(cmnd, rq.write, block, n);
    }
    ret := Ready;
  }

  lemma NotNegative(dev: Device, rq: Request)
    requires dev.disk.sectorSize >= 256
    ensures Lba(dev, rq) >= 0 && Wanted(dev, rq) >= 0
  {
  }

  /** sd_prep_fn: cmnd comes zeroed; poolEmpty is the answer of the pool of 32-byte CDBs. */
  method Prepare(dev: Device, rq: Request, cmnd: array<Octet>, poolEmpty: bool)
    returns (ret: Prepared, cdb: array<Octet>, length: int)
    requires rq.Ok() && dev.disk.sectorSize >= 256
    requires cmnd.Length == 16 && cmnd[1] == 0
    modifies cmnd
    ensures cdb == cmnd || fresh(cdb)
    ensures ret == Kill <==> !Accepted(dev, rq)
    ensures ret == Defer <==> Accepted(dev, rq) && dev.dif == 2 && poolEmpty
    ensures ret == Ready ==> dev.online && !dev.changed && (rq.write ==> dev.writeable)
    ensures ret == Ready ==> Wrap(rq.block + rq.sectors, U64) <= dev.disk.published
    ensures ret == Ready ==> length == Count(dev, rq) * dev.disk.sectorSize && FieldsOk(dev, rq)
    ensures ret == Ready ==>
      Decode(cdb[..]) == Valid(Told(dev, rq))
  {
    cdb, length := cmnd, 0;
    var ok, block, count := Vet(dev, rq);
    if !ok {
      return Kill, cdb, length;
    }
    cmnd[0] := if rq.write then WRITE_6 else READ_6;
    NotNegative(dev, rq);
    ret, cdb, count := Build(dev, rq, cmnd, poolEmpty, block, count);
    length := count * dev.disk.sectorSize;
  }

  lemma BytesDone(dev: Device, rq: Request)
    requires Sane(dev)
    ensures Count(dev, rq) * dev.disk.sectorSize / 512 == Count(dev, rq) * dev.Unit()
  {
    assert Count(dev, rq) * dev.disk.sectorSize == Count(dev, rq) * dev.Unit() * 512;
  }

  lemma SaneSize(dev: Device)
    requires Sane(dev)
    ensures dev.disk.sectorSize >= 256
  {
  }

  /** One command sent and completed in full: what the device was told, and the request that comes back. */
  method Send(dev: Device, rq: Request) returns (c: Access, length: nat, r: Request)
    requires Sane(dev) && Real(rq) && Accepted(dev, rq)
    ensures FieldsOk(dev, rq) && c == Promised(dev, rq) && r == Remaining(dev, rq)
    ensures length == Count(dev, rq) * dev.disk.sectorSize
  {
    hide Sane, Accepted, Decode, Carried, Lba, Count, FormOf;
    var cmnd := new Octet[16](i => 0);
    SaneSize(dev);
    CarriedExactly(dev, rq);
    BytesDone(dev, rq);
    CommandInside(dev, rq);
    var ret, cdb, bytes := Prepare(dev, rq, cmnd, false);
    c, length := Decode(cdb[..]).a, bytes;
    r := rq.(block := rq.block + length / 512, sectors := rq.sectors - length / 512);
  }

  method IssueOne(dev: Device, rq: Request) returns (c: Access, r: Request)
    requires Good(dev, rq) && rq.sectors > 0
    ensures Good(dev, r) && r.sectors < rq.sectors && Commands(dev, rq) == [c] + Commands(dev, r)
  {
    var length;
    c, length, r := Send(dev, rq);
    ghost var c1, r1 := OneCommand(dev, rq);
  }

  /** The request as the block layer hands it back again and again. */
  method IssueAll(dev: Device, rq: Request) returns (cs: seq<Access>)
    requires Good(dev, rq)
    ensures cs == Commands(dev, rq)
  {
    cs := [];
    var r := rq;
    while r.sectors > 0
      invariant Good(dev, r) && cs + Commands(dev, r) == Commands(dev, rq)
      decreases r.sectors
    {
      ghost var was := cs + Commands(dev, r);
      var c;
      c, r := IssueOne(dev, r);
      assert was == cs + [c] + Commands(dev, r);
      cs := cs + [c];
    }
    assert Commands(dev, r) == [];
  }
}
