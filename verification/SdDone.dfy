/**
 sd_completed_bytes (drivers/scsi/sd.c): how much of a failed command counts as done, and what
 completing that much through blk_update_request does to the request.
 */
module SdDone {
  import opened BioItems
  import BioRequest
  import opened Common

  /** A failed command: where it started, its bytes, its residual, and the block its sense data blames. */
  datatype Failure = Failure(fs: bool, pos: nat, bufflen: nat, resid: nat, infoValid: bool, badLba: nat, sectorSize: int) {
    function Factor(): int { sectorSize / 512 }

    /** Blocks of 512 to 4096 bytes, everything aligned, no address beyond sector_t. */
    predicate Aligned() {
      && (sectorSize == 512 || sectorSize == 1024 || sectorSize == 2048 || sectorSize == 4096)
      && pos % Factor() == 0 && bufflen % sectorSize == 0 && bufflen < U32
      && pos + bufflen / 512 < U64 && resid <= bufflen
    }

    /** The sense data names a block of this command. */
    predicate InRange() {
      fs && infoValid && pos <= badLba * Factor() < pos + bufflen / 512
    }
  }

  lemma Quotient(f: int, p: int, x: int) returns (a: int, b: int)
    requires (f == 1 || f == 2 || f == 4 || f == 8) && p % f == 0 && x % f == 0
    ensures p == a * f && x == b * f && p / f == a && (p + x) / f == a + b
  {
    a, b := p / f, x / f;
    if f == 2 {
      assert (p + x) / 2 == a + b;
    } else if f == 4 {
      assert (p + x) / 4 == a + b;
    } else if f == 8 {
      assert (p + x) / 8 == a + b;
    }
  }

  lemma Sectors(f: int, len: int)
    requires (f == 1 || f == 2 || f == 4 || f == 8) && len >= 0 && len % (512 * f) == 0
    ensures len / 512 % f == 0 && len / 512 * 512 == len
  {
    if f == 2 {
      Pairs(len);
    } else if f == 4 {
      Quads(len);
    } else if f == 8 {
      Octets(len);
    }
  }

  lemma Pairs(len: int)
    requires len % 1024 == 0
    ensures len / 512 % 2 == 0 && len / 512 * 512 == len
  {
  }

  lemma Quads(len: int)
    requires len % 2048 == 0
    ensures len / 512 % 4 == 0 && len / 512 * 512 == len
  {
  }

  lemma Octets(len: int)
    requires len % 4096 == 0
    ensures len / 512 % 8 == 0 && len / 512 * 512 == len
  {
  }

  lemma Monotone(f: int, a: int, b: int)
    requires f == 1 || f == 2 || f == 4 || f == 8
    ensures a * f <= b * f <==> a <= b
    ensures a * f < b * f <==> a < b
  {
  }

  /** The command in device blocks: p is its first, l how many. */
  lemma Blocks(c: Failure) returns (p: int, l: int)
    requires c.Aligned()
    ensures c.pos == p * c.Factor() && c.bufflen / 512 == l * c.Factor() && c.bufflen == l * c.sectorSize
    ensures c.pos / c.Factor() == p && (c.pos + c.bufflen / 512) / c.Factor() == p + l
    ensures c.fs && c.infoValid ==> (c.InRange() <==> p <= c.badLba < p + l)
  {
    var f := c.Factor();
    Sectors(f, c.bufflen);
    p, l := Quotient(f, c.pos, c.bufflen / 512);
    Monotone(f, p, c.badLba);
    Monotone(f, c.badLba, p + l);
    assert (p + l) * f == p * f + l * f;
    assert c.bufflen == l * f * 512 == l * c.sectorSize;
  }

  /** The bytes before the bad block, in 512-byte sectors, with no wrap-around. */
  lemma GoodBytes(size: int, f: int, p: int, l: int, bad: int)
    requires size == 512 * f && (f == 1 || f == 2 || f == 4 || f == 8) && p <= bad < p + l && l * size < U32
    ensures 0 <= (bad - p) * size < l * size
    ensures (bad - p) * size % 512 == 0 && p * f + (bad - p) * size / 512 == bad * f
  {
    var k := bad - p;
    assert k * size == k * f * 512;
    assert k * f == bad * f - p * f;
    assert k * size < l * size;
  }

  /** sd_completed_bytes, with its 64-bit and 32-bit arithmetic. */
  method CompletedBytes(c: Failure) returns (n: nat)
    requires c.bufflen < U32 && c.sectorSize > 0
    ensures c.Aligned() && !c.InRange() ==> n == 0
    ensures c.Aligned() && c.InRange() ==> c.pos + n / 512 <= c.badLba * c.Factor()
    ensures c.Aligned() && c.InRange() && c.resid == 0 ==> n % 512 == 0 && c.pos + n / 512 == c.badLba * c.Factor()
    ensures c.Aligned() ==> n <= c.bufflen && (c.InRange() ==> n < c.bufflen)
    ensures c.Aligned() && c.InRange() ==>
      var before := (c.badLba * c.Factor() - c.pos) * 512;
      n == if before < c.bufflen - c.resid then before else c.bufflen - c.resid
    ensures c.sectorSize == 256 && c.pos + c.bufflen < U32 && c.resid <= c.bufflen ==>
      n == if !(c.fs && c.infoValid && c.bufflen > 256 && 2 * c.pos <= c.badLba < 2 * (c.pos + c.bufflen / 512)) then 0
           else if (c.badLba - 2 * c.pos) * 256 < c.bufflen - c.resid then (c.badLba - 2 * c.pos) * 256
           else c.bufflen - c.resid
  {
    var start, end := c.pos, Wrap(c.pos + c.bufflen / 512, U64);
    var transferred := Wrap(c.bufflen - c.resid, U32);
    ghost var p, l := 0, 0;
    if c.Aligned() {
      p, l := Blocks(c);
    }
    if !c.fs {
      return 0;
    }
    if !c.infoValid {
      return 0;
    }
    if c.bufflen <= c.sectorSize {
      if c.Aligned() && c.InRange() {
        OneBlock(c, p, l);
      }
      return 0;
    }
    if c.sectorSize < 512 {
      start, end := Wrap(start * 2, U64), Wrap(end * 2, U64);
    } else {
      var factor := c.sectorSize / 512;
      start, end := start / factor, end / factor;
    }
    if c.badLba < start || c.badLba >= end {
      return 0;
    }
    var good := Wrap((c.badLba - start) * c.sectorSize, U32);
    n := if good < transferred then good else transferred;
    if c.Aligned() {
      Answer(c, p, l, start, good, n);
    }
  }

  lemma Answer(c: Failure, p: int, l: int, start: int, good: int, n: nat)
    requires c.Aligned() && c.pos == p * c.Factor() && c.bufflen == l * c.sectorSize && start == p
    requires p <= c.badLba < p + l && good == Wrap((c.badLba - start) * c.sectorSize, U32)
    requires n == if good < c.bufflen - c.resid then good else c.bufflen - c.resid
    ensures n < c.bufflen && c.pos + n / 512 <= c.badLba * c.Factor()
    ensures good == (c.badLba * c.Factor() - c.pos) * 512
    ensures c.resid == 0 ==> n % 512 == 0 && c.pos + n / 512 == c.badLba * c.Factor()
  {
    GoodBytes(c.sectorSize, c.Factor(), p, l, c.badLba);
    assert n <= good;
    assert n / 512 <= good / 512;
  }

  lemma OneBlock(c: Failure, p: int, l: int)
    requires c.Aligned() && p <= c.badLba < p + l && c.bufflen == l * c.sectorSize <= c.sectorSize
    ensures c.badLba == p && c.bufflen > 0
  {
    assert l == 1;
  }

  /** Completing what sd_completed_bytes allows leaves the bad sector in the request, and with no residual at its head. */
  method FinishGood(req: BioRequest.Request, c: Failure, swap: Hook) returns (n: nat)
    requires req.Valid() && req.fs && Sound(req.Abs())
    requires c.Aligned() && c.InRange() && c.pos == req.sector && c.bufflen <= req.dataLen
    modifies req`bios, req`sector, req`dataLen, req`ended
    ensures req.Valid() && req.bios != []
    ensures req.sector <= c.badLba * c.Factor()
    ensures c.resid == 0 ==> req.sector == c.badLba * c.Factor() && Sound(req.Abs())
    ensures req.dataLen == old(req.dataLen) - n
  {
    n := CompletedBytes(c);
    ghost var before := req.Abs();
    DropDropsBytes(before.items, n, 0);
    if n % 512 == 0 {
      OpKeepsSound(before, Complete(n, 0));
    }
    var more, overrun, botched := req.Update(0, n, swap);
    assert Flat(BioRequest.Views(req.bios)) != [];
  }
}
