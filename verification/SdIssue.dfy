/**
 A request on its way through both layers: sd_prep_fn (drivers/scsi/sd.c) builds a command from what
 is left of it, and blk_update_request (block/blk-core.c) takes the command's bytes off its bios.
 */
module SdIssue {
  import opened BioItems
  import BioRequest
  import opened SdPrep
  import opened SdCdb

  /** The items after a sequence of completions. */
  function DropAll(items: seq<Item>, cs: seq<Completion>): seq<Item>
    decreases cs
  {
    if cs == [] then items else DropAll(Drop(items, cs[0].n, cs[0].err), cs[1..])
  }

  lemma {:induction false} DropAllSnoc(items: seq<Item>, cs: seq<Completion>, c: Completion)
    ensures DropAll(items, cs + [c]) == Drop(DropAll(items, cs), c.n, c.err)
    decreases cs
  {
    hide Drop;
    if cs == [] {
      assert [] + [c] == [c] && [c][1..] == [];
    } else {
      assert (cs + [c])[1..] == cs[1..] + [c] && (cs + [c])[0] == cs[0];
      DropAllSnoc(Drop(items, cs[0].n, cs[0].err), cs[1..], c);
    }
  }

  lemma {:induction false} ReportsSnoc(items: seq<Item>, cs: seq<Completion>, c: Completion, swap: Hook)
    ensures Reports(items, cs + [c], swap) == Reports(items, cs, swap) + Log(DropAll(items, cs), c.n, c.err, swap)
    decreases cs
  {
    hide Drop, Log;
    if cs == [] {
      assert [] + [c] == [c] && [c][1..] == [];
      assert Reports(Drop(items, c.n, c.err), [], swap) == [];
    } else {
      var rest := Drop(items, cs[0].n, cs[0].err);
      assert (cs + [c])[1..] == cs[1..] + [c] && (cs + [c])[0] == cs[0];
      ReportsSnoc(rest, cs[1..], c, swap);
      Regroup(Log(items, cs[0].n, cs[0].err, swap), Reports(rest, cs[1..], swap), Log(DropAll(items, cs), c.n, c.err, swap));
    }
  }

  lemma {:induction false} TotalSnoc(cs: seq<Completion>, c: Completion)
    ensures Total(cs + [c]) == Total(cs) + c.n
    decreases cs
  {
    if cs == [] {
      assert [] + [c] == [c] && [c][1..] == [];
    } else {
      assert (cs + [c])[1..] == cs[1..] + [c] && (cs + [c])[0] == cs[0];
      TotalSnoc(cs[1..], c);
    }
  }

  /** What the disk driver sees of a block request. */
  function Seen(sector: nat, dataLen: nat, write: bool, fua: bool): Request {
    Request(sector, dataLen / 512, write, fua)
  }

  /** The bookkeeping of the loop: what was sent, what was completed, what is left. */
  ghost predicate Underway(dev: Device, req: BioRequest.Request, write: bool, fua: bool, swap: Hook, cs: seq<Access>,
                           all: seq<Access>, items: seq<Item>, before: seq<Ended>, done: seq<Completion>, size: nat)
    reads req
  {
    && req.Valid() && req.fs && Sound(req.Abs()) && req.Abs().items == DropAll(items, done)
    && Good(dev, Seen(req.sector, req.dataLen, write, fua))
    && cs + Commands(dev, Seen(req.sector, req.dataLen, write, fua)) == all
    && (!req.flushSeq ==> req.ended == before + Reports(items, done, swap))
    && Total(done) + req.dataLen == size
  }

  /** The request after a command of so many bytes, in the fields both layers look at. */
  lemma TakenOff(dev: Device, r: Req, write: bool, fua: bool, n: nat)
    requires Sound(r) && r.items != [] && Good(dev, Seen(r.sector, r.dataLen, write, fua)) && r.dataLen >= 512
    requires n == Count(dev, Seen(r.sector, r.dataLen, write, fua)) * dev.disk.sectorSize
    ensures
      var q := Seen(r.sector, r.dataLen, write, fua);
      var d := Do(r, Complete(n, 0));
      && Sound(d) && Sane(dev) && Real(q) && Accepted(dev, q)
      && d.dataLen + n == r.dataLen
      && (d.items != [] ==> Seen(d.sector, d.dataLen, write, fua) == Remaining(dev, q))
      && (d.items == [] ==> Remaining(dev, q).sectors == 0)
  {
    var q := Seen(r.sector, r.dataLen, write, fua);
    BytesDone(dev, q);
    CommandInside(dev, q);
    ContiguousIsWholeSectors(r.items, r.sector);
    WholeCommand(dev, q, n);
    OpKeepsSound(r, Complete(n, 0));
    DropKeepsNonEmpty(r.items, n, 0);
  }

  lemma WholeCommand(dev: Device, q: Request, n: nat)
    requires Sane(dev) && n == Count(dev, q) * dev.disk.sectorSize
    ensures n % 512 == 0 && n == Count(dev, q) * dev.Unit() * 512
  {
    assert n == Count(dev, q) * dev.Unit() * 512;
  }

  lemma SomethingLeft(r: Req)
    requires Sound(r) && r.items != []
    ensures r.dataLen >= 512
  {
    ContiguousIsWholeSectors(r.items, r.sector);
  }

  lemma CommandsNext(dev: Device, q: Request, cs: seq<Access>, all: seq<Access>)
    requires Good(dev, q) && q.sectors > 0 && cs + Commands(dev, q) == all
    ensures Sane(dev) && Real(q) && Accepted(dev, q) && FieldsOk(dev, q) && Good(dev, Remaining(dev, q))
    ensures (cs + [Promised(dev, q)]) + Commands(dev, Remaining(dev, q)) == all
  {
    hide Commands;
    var c, r := OneCommand(dev, q);
    assert (cs + [c]) + Commands(dev, r) == cs + ([c] + Commands(dev, r));
  }

  lemma NoCommands(dev: Device, q: Request, q': Request)
    requires Good(dev, q) && q.sectors == 0 && q'.sectors == 0
    ensures Good(dev, q') && Commands(dev, q) == Commands(dev, q') == []
  {
  }

  /** One command, sent and completed in full. */
  method Pass(dev: Device, req: BioRequest.Request, write: bool, fua: bool, swap: Hook, ghost cs: seq<Access>, ghost all: seq<Access>,
              ghost items: seq<Item>, ghost before: seq<Ended>, ghost done: seq<Completion>, ghost size: nat)
    returns (c: Access, ghost step: Completion)
    requires Underway(dev, req, write, fua, swap, cs, all, items, before, done, size) && req.bios != []
    modifies req`bios, req`sector, req`dataLen, req`ended
    ensures Underway(dev, req, write, fua, swap, cs + [c], all, items, before, done + [step], size)
    ensures step.err == 0 && req.dataLen < old(req.dataLen)
  {
    hide Drop, Log, Flat, DropAll, Reports, Total, Commands, Good, Accepted, Vetted, Sane, Real, Count, Lba, FormOf;
    hide BioRequest.Views, BioRequest.AllBytes, BioRequest.AllWellFormed, Contiguous;
    ghost var r := req.Abs();
    var q := Seen(req.sector, req.dataLen, write, fua);
    SomethingLeft(r);
    CommandsNext(dev, q, cs, all);
    var length, rest;
    c, length, rest := Send(dev, q);
    step := Completion(length, 0);
    TakenOff(dev, r, write, fua, length);
    DropAllSnoc(items, done, step);
    ReportsSnoc(items, done, step, swap);
    TotalSnoc(done, step);
    var more, overrun, botched := req.Update(0, length, swap);
    if !more {
      NoCommands(dev, rest, Seen(req.sector, req.dataLen, write, fua));
    }
  }

  /**
   A request issued to the end: the device is told exactly the commands that tile the request, its bios
   are used up, and each of them has been ended once, in order, without an error unless it came with one.
   */
  method IssueRequest(dev: Device, req: BioRequest.Request, write: bool, fua: bool, swap: Hook)
    returns (cs: seq<Access>, ghost done: seq<Completion>)
    requires req.Valid() && req.fs && Sound(req.Abs()) && Good(dev, Seen(req.sector, req.dataLen, write, fua))
    modifies req`bios, req`sector, req`dataLen, req`ended
    ensures cs == Commands(dev, Seen(old(req.sector), old(req.dataLen), write, fua))
    ensures cs != [] ==> dev.online && !dev.changed && (write ==> dev.writeable)
    ensures
      var rq := Seen(old(req.sector), old(req.dataLen), write, fua);
      Tiles(cs, Lba(dev, rq), Size(dev, rq)) && forall c :: c in cs ==> Proper(dev, rq, c)
    ensures req.Valid() && req.bios == [] && forall c :: c in done ==> c.err == 0
    ensures !req.flushSeq ==> |req.ended| >= |old(req.ended)| && req.ended[..|old(req.ended)|] == old(req.ended)
    ensures !req.flushSeq ==> ReportsExactly(old(req.Abs()).items, 0, done, swap, req.ended[|old(req.ended)|..])
  {
    hide Drop, Log, Commands, Good, Accepted, Sane, ReportsExactly, BioRequest.AllBytes;
    ghost var all, items, before, size := Commands(dev, Seen(req.sector, req.dataLen, write, fua)), req.Abs().items, req.ended, req.dataLen;
    hide Proper, Tiles, Lba, SdPrep.Size;
    ghost var rq := Seen(req.sector, req.dataLen, write, fua);
    cs, done := [], [];
    assert before + Reports(items, [], swap) == before;
    while req.bios != []
      invariant Underway(dev, req, write, fua, swap, cs, all, items, before, done, size)
      invariant forall c :: c in done ==> c.err == 0
      decreases req.dataLen
    {
      ghost var step;
      var c;
      c, step := Pass(dev, req, write, fua, swap, cs, all, items, before, done, size);
      cs, done := cs + [c], done + [step];
    }
    AllIssued(dev, req.sector, req.dataLen, write, fua, cs, all);
    AllProper(dev, rq, cs);
    ContiguousIsWholeSectors(items, old(req.sector));
    EveryBioEndsOnce(items, done, swap);
  }

  lemma AllProper(dev: Device, rq: Request, cs: seq<Access>)
    requires Good(dev, rq) && cs == Commands(dev, rq)
    ensures Tiles(cs, Lba(dev, rq), Size(dev, rq)) && forall c :: c in cs ==> Proper(dev, rq, c)
    ensures cs != [] ==> dev.online && !dev.changed && (rq.write ==> dev.writeable)
  {
    hide Commands, Good;
    IssuedExactly(dev, rq);
    if cs != [] {
      assert cs[0] in cs;
    }
  }

  lemma AllIssued(dev: Device, sector: nat, dataLen: nat, write: bool, fua: bool, cs: seq<Access>, all: seq<Access>)
    requires dataLen == 0 && Good(dev, Seen(sector, dataLen, write, fua))
    requires cs + Commands(dev, Seen(sector, dataLen, write, fua)) == all
    ensures cs == all
  {
  }
}
