/**
 The code of drivers/scsi/swap/core.c: blocks of 128 sectors whose sectors fail are moved into a
 reserved area behind the disk, with a copy in memory. Each method is proved to do what the function of
 its name in SwapEngine says; the promises of the two entry points are repeated on them.
 */
module SwapCore {
  import opened Common
  import opened SwapView
  import opened SwapEngine
  import opened SwapTurns
  import opened SwapLoops
  import opened SwapReads
  import opened SwapCounts

  class Core {
    var user: seq<Sector>
    var blocks: seq<seq<Sector>>
    var bitmap: seq<bool>
    var infos: seq<Info>
    var num: nat
    var dead: bool

    ghost function Abs(): Engine
      reads this
    {
      Engine(user, blocks, bitmap, infos, num, dead)
    }

    ghost predicate Valid()
      reads this
    {
      Abs().Valid()
    }

    /** A disk whose reserved area has just been set up. */
    constructor (size: nat)
      ensures Valid() && user == seq(size, i => 0) && infos == [] && num == 0 && !dead && Tidy(Abs())
      ensures bitmap == seq(DATA_BLOCKS, i => false)
    {
      user := seq(size, i => 0);
      blocks := seq(DATA_BLOCKS, i => seq(BLOCK, j => 0));
      bitmap := seq(DATA_BLOCKS, i => false);
      infos, num, dead := [], 0, false;
    }

    /** hd_write_sector to one reserved block. */
    method PutBlock(j: nat, data: seq<Sector>, p: Put)
      requires Valid() && j < DATA_BLOCKS && |data| == BLOCK
      modifies this`blocks
      ensures Valid() && blocks == old(blocks)[j := p.Result(data)]
    {
      blocks := blocks[j := p.Result(data)];
    }

    /** Another thread, or the device itself, may have given up in the meantime. */
    method Poll(dies: bool) returns (d: bool)
      modifies this`dead
      ensures d == dead == (old(dead) || dies)
    {
      if dies {
        dead := true;
      }
      d := dead;
    }

    /** find_first_zero_bit: the first free block, or -1. */
    method FirstZero() returns (j: int)
      requires Valid()
      ensures j == FirstFree(bitmap)
    {
      j := 0;
      while j < DATA_BLOCKS && bitmap[j]
        invariant 0 <= j <= DATA_BLOCKS && forall i :: 0 <= i < j ==> bitmap[i]
      {
        j := j + 1;
      }
      if j == DATA_BLOCKS {
        j := -1;
      }
    }

    /** _swap_alloc_new_block: a free block that takes a write; bad ones on the way are marked used. */
    method AllocBlock(tries: nat -> Put) returns (j: int)
      requires Valid()
      modifies this`blocks, this`bitmap, this`dead
      ensures Valid() && (Abs(), j) == Alloc(old(Abs()), tries, 0)
    {
      hide Alloc, FirstFree, Pick, Took;
      var errors := 0;
      AllocStep(Abs(), tries, errors);
      j := FirstZero();
      if j < 0 {
        return;
      }
      while true
        invariant Valid() && 0 <= j == FirstFree(bitmap) && 0 <= errors <= 16
        invariant Alloc(old(Abs()), tries, 0) == Alloc(Abs(), tries, errors)
        decreases 16 - errors
      {
        AllocStep(Abs(), tries, errors);
        PutBlock(j, ZEROS, tries(errors));
        if tries(errors).ok {
          bitmap := bitmap[j := true];
          return;
        }
        if errors >= 16 {
          dead := true;
          return -1;
        }
        errors := errors + 1;
        bitmap := bitmap[j := true];
        AllocStep(Abs(), tries, errors);
        j := FirstZero();
        if j < 0 {
          return;
        }
      }
    }

    /** The other sectors of the block around at..at+n, zero in between; a failed read may deliver anything. */
    method GetAround(at: nat, n: nat, a: Creating) returns (data: seq<Sector>)
      requires OneBlock(at, n)
      ensures data == Gathered(user, at, n, a)
      ensures Agree(|user|, Stands(user, at, ZEROS), data, at, n) <==> CreateKeeps(user, at, n, a)
    {
      var off := at - Align(at);
      var front, back := [], [];
      if off > 0 {
        front := a.front.Result(user, Align(at), off);
      }
      if BLOCK - off - n > 0 {
        back := a.back.Result(user, at + n, BLOCK - off - n);
      }
      data := front + seq(n, i => 0) + back;
      GatheredKeeps(user, at, n, a);
    }

    /** swap_create: an entry for the block of `start`, its other sectors read from the disk as far as they can be. */
    method CreateInfo(start: nat, count: nat, a: Creating) returns (made: Option<Info>)
      requires Valid() && OneBlock(start, count)
      modifies this`blocks, this`bitmap, this`dead
      ensures Valid() && (Abs(), made) == Create(old(Abs()), start, count, a)
    {
      hide Alloc, Gathered, Pick;
      if num >= MAX_SWAP_BLOCK_FOR_USE {
        return None;
      }
      if a.noMemory {
        return None;
      }
      var index := AllocBlock(a.tries);
      if index < 0 {
        return None;
      }
      var data := GetAround(start, count, a);
      if !a.headOk {
        bitmap := bitmap[index := false];
        return None;
      }
      made := Some(Info(Align(start), index, data));
    }

    /** The loop of swap_recreate: the old block sector by sector, zero where it cannot be read. */
    method Salvage(j: nat, readable: nat -> bool) returns (data: seq<Sector>)
      requires Valid() && j < DATA_BLOCKS
      ensures data == Salvaged(blocks[j], readable)
    {
      data := [];
      for i := 0 to BLOCK
        invariant data == Salvaged(blocks[j], readable)[..i]
      {
        data := data + [if readable(i) then blocks[j][i] else 0];
      }
    }

    /** swap_recreate. */
    method RecreateInfo(i: Info, a: Rewriting) returns (r: Info, ok: bool)
      requires Valid() && i.Ok()
      modifies this`blocks, this`bitmap, this`dead
      ensures Valid() && (Abs(), r, ok) == Recreate(old(Abs()), i, a)
    {
      hide Alloc, Salvaged, Pick;
      if num >= MAX_SWAP_BLOCK_FOR_USE {
        return i, false;
      }
      var index := AllocBlock(a.tries);
      if index < 0 {
        return i, false;
      }
      var data := Salvage(i.index, a.readable);
      r := Info(i.src, index, data);
      PutBlock(index, data, a.flush);
      ok := a.flush.ok && a.headOk;
      if !ok {
        bitmap := bitmap[index := false];
      }
    }

    /** _swap_write: memory first, then the whole block. */
    method PutThrough(i: Info, off: nat, buf: seq<Sector>, p: Put) returns (r: Info)
      requires Valid() && i.Ok() && off + |buf| <= BLOCK
      modifies this`blocks
      ensures Valid() && (Abs(), r) == WriteThrough(old(Abs()), i, off, buf, p)
    {
      r := i.(data := Overlay(i.data, off, buf));
      PutBlock(r.index, r.data, p);
    }

    /** swap_write: written through, or moved to a new block and written there. */
    method SwapWrite(i: Info, off: nat, buf: seq<Sector>, a: Rewriting) returns (r: Info, ret: int)
      requires Valid() && i.Ok() && off + |buf| <= BLOCK
      modifies this`blocks, this`bitmap, this`dead
      ensures Valid() && (Abs(), r, ret) == Rewrite(old(Abs()), i, off, buf, a)
      ensures Rewrote(old(Abs()), i, off, buf, a, Abs(), r, ret)
    {
      hide Recreate, WriteThrough, Rewrote;
      RewriteFacts(Abs(), i, off, buf, a);
      r := PutThrough(i, off, buf, a.first);
      if a.first.ok {
        return r, 0;
      }
      var ok;
      r, ok := RecreateInfo(r, a);
      if !ok {
        return r, -1;
      }
      r := PutThrough(r, off, buf, a.second);
      ret := if a.second.ok then -DATA_MAY_DIRTY else -1;
    }

    /** swap_find_swap_info. */
    method FindInfo(b: nat) returns (k: int)
      ensures k == Find(infos, b)
    {
      k := 0;
      while k < |infos|
        invariant 0 <= k <= |infos| && forall j :: 0 <= j < k ==> infos[j].src != b
      {
        if infos[k].src == b {
          return;
        }
        k := k + 1;
      }
      k := -1;
    }

    /** swap_repair_successive_sectors, which does not repair: it tells a dead device from a bad block. */
    method GivesUp(ready: bool, dies: bool) returns (d: bool)
      modifies this`dead
      ensures d == dead == (old(dead) || !ready || dies)
    {
      if !ready {
        dead := true;
      }
      d := Poll(dies);
    }

    /** scsi_swap_core_write, one block that is in the list. */
    method WriteToInfo(b: nat, k: nat, at: nat, buf: seq<Sector>, a: Rewriting) returns (ret: int)
      requires Valid() && OneBlock(at, |buf|) && k < |infos| && k == Find(infos, b)
      modifies this`blocks, this`bitmap, this`dead, this`infos
      ensures Valid() && (Abs(), ret) == WriteListed(old(Abs()), b, at, buf, a)
      ensures Owned(old(infos), old(bitmap)) && Separate(old(infos)) ==>
        Separate(infos) && (Owned(infos, bitmap) <==> !LosesOwnership(num, old(bitmap), a))
    {
      hide Rewrite, Find, Rewrote, Moved, Pick;
      if Owned(infos, bitmap) && Separate(infos) {
        ListedOwners(Abs(), b, at, buf, a);
      }
      var i;
      i, ret := SwapWrite(infos[k], at - Align(at), buf, a);
      if ret == -DATA_MAY_DIRTY && |buf| == BLOCK {
        ret := 0;
      }
      infos := infos[k := i];
    }

    /** scsi_swap_core_write, one block that needs an entry of its own. */
    method WriteToNew(at: nat, buf: seq<Sector>, a: Creating, w: Rewriting) returns (ret: int)
      requires Valid() && OneBlock(at, |buf|)
      modifies this`blocks, this`bitmap, this`dead, this`infos, this`num
      ensures Valid() && (Abs(), ret) == WriteCreated(old(Abs()), at, buf, a, w)
    {
      hide Create, Rewrite, Gathered, Pick, Rewrote, Took, CanCreate;
      var made := CreateInfo(at, |buf|, a);
      if made.None? {
        return -1;
      }
      var i;
      i, ret := SwapWrite(made.value, at - Align(at), buf, w);
      if ret != 0 {
        bitmap := bitmap[i.index := false];
        return -1;
      }
      infos := infos + [i];
      num := num + 1;
      ret := if |buf| < BLOCK then -DATA_MAY_DIRTY else 0;
    }

    /** One turn of the loop of scsi_swap_core_write: b is the block looked up. */
    method WriteBlock(b: nat, at: nat, buf: seq<Sector>, known: bool, a: Writing) returns (ret: int)
      requires Valid() && OneBlock(at, |buf|) && at + |buf| <= |user|
      modifies this
      ensures Valid() && (Abs(), ret) == WriteTurn(old(Abs()), b, at, buf, known, a)
      ensures old(num) == |old(infos)| <= 128 ==> num == |infos| <= 128
    {
      if Counted(Abs()) {
        WriteTurnCounts(Abs(), b, at, buf, known, a);
      }
      hide WriteListed, WriteCreated, Find, Overlay;
      var k := FindInfo(b);
      if k >= 0 {
        ret := WriteToInfo(b, k, at, buf, a.rewrite);
        return;
      }
      if !known {
        user := Overlay(user, at, a.direct.Result(buf));
        if a.direct.ok {
          return 0;
        }
        var d := Poll(a.dies1);
        if d {
          return -1;
        }
      }
      var d := GivesUp(a.ready, a.dies2);
      if d {
        return -1;
      }
      ret := WriteToNew(at, buf, a.create, a.rewrite);
    }

    /**
     scsi_swap_core_write. If the request ends by sector 2^32: anything but -1 means the data is there to be
     read back, 0 means that nothing else changed, and only blocks of the request are ever touched.
     */
    method CoreWrite(start: nat, buf: seq<Sector>, bad: int, dies: bool, turns: nat -> Writing) returns (ret: int)
      requires Valid() && Asks(Abs(), start, |buf|)
      modifies this
      ensures Valid() && (Abs(), ret) == Write(old(Abs()), start, buf, bad, dies, turns)
      ensures old(num) == |old(infos)| <= 128 ==> num == |infos| <= 128
      ensures Fits(start, |buf|) ==>
        && Untouched(old(Abs()), Abs(), start, |buf|) && (ret != -1 ==> Carries(Abs(), start, buf))
        && (ret == 0 ==> Kept(old(Abs()), Abs(), start, start + |buf|))
      ensures Fits(start, |buf|) && ret != -1 && Tidy(old(Abs())) ==>
        && Tidy(Abs())
        && (Kept(old(Abs()), Abs(), start, start + |buf|) <==>
              forall i :: 0 <= i < BlockCount(start, |buf|) ==> KeepsAt(old(Abs()), start, buf, bad, turns, i))
    {
      hide WriteTurns, WriteTurn, BlockCount, Turn, Key, Known, Part, KeepsAt, Kept, Carries, Untouched, Tight;
      if Counted(Abs()) {
        WriteCounts(Abs(), start, buf, bad, dies, turns);
      }
      if Fits(start, |buf|) {
        WriteShows(Abs(), start, buf, bad, dies, turns);
        if Tidy(Abs()) {
          WriteKeepsIff(Abs(), start, buf, bad, dies, turns);
        }
      }
      ret := WriteLoop(start, buf, bad, dies, turns);
    }

    /** The loop of scsi_swap_core_write. */
    method WriteLoop(start: nat, buf: seq<Sector>, bad: int, dies: bool, turns: nat -> Writing) returns (ret: int)
      requires Valid() && Asks(Abs(), start, |buf|)
      modifies this
      ensures Valid() && (Abs(), ret) == Write(old(Abs()), start, buf, bad, dies, turns)
    {
      hide WriteTurns, WriteTurn, BlockCount, Turn, Key, Known;
      var d := Poll(dies);
      if d {
        return -1;
      }
      NoWrite(Abs(), start, buf, bad, turns);
      FirstTurn(start, |buf|);
      var blockCount := BlockCount(start, |buf|);
      var badBlock := if bad == -1 then -1 else I32(bad / BLOCK);
      var count, done := |buf|, 0;
      ret := 0;
      for i := 0 to blockCount
        invariant Valid() && |user| == |old(user)| && 0 <= count == start + |buf| - Turn(start, |buf|, i) && done == |buf| - count
        invariant ret != -1 && (Abs(), ret) == WriteTurns(old(Abs()), start, buf, bad, turns, i)
      {
        InTurn(start, |buf|, i);
        var at, some := Cut(start, |buf|, i, count);
        NextWrite(old(Abs()), start, buf, bad, turns, i);
        LookupIs(bad, start, i);
        assert buf[done..done + some] == Part(start, buf, i);
        var r := WriteBlock(Wrap((start / BLOCK + i) * BLOCK, U32), at, buf[done..done + some],
                            badBlock == I32(start / BLOCK + i), turns(i));
        if r == -1 {
          WriteEnds(old(Abs()), start, buf, bad, turns, i + 1, blockCount);
          return -1;
        }
        if r == -DATA_MAY_DIRTY {
          ret := r;
        }
        count, done := count - some, done + some;
      }
    }

    /** scsi_swap_core_read, one block that needs an entry. */
    method ReadFromNew(at: nat, n: nat, a: Creating, flush: Put) returns (ret: int, data: seq<Sector>)
      requires Valid() && OneBlock(at, n)
      modifies this`blocks, this`bitmap, this`dead, this`infos, this`num
      ensures Valid() && (Abs(), ret, data) == ReadCreated(old(Abs()), at, n, a, flush)
    {
      hide Create, Gathered, Pick;
      var made := CreateInfo(at, n, a);
      if made.None? {
        return -1, [];
      }
      var i := made.value;
      data := i.data[at - i.src..at - i.src + n];
      PutBlock(i.index, i.data, flush);
      if !flush.ok {
        bitmap := bitmap[i.index := false];
        return -1, data;
      }
      infos := infos + [i];
      num := num + 1;
      ret := -DATA_MAY_DIRTY;
    }

    /** One turn of the loop of scsi_swap_core_read: b is the block looked up. */
    method ReadBlock(b: nat, at: nat, n: nat, known: bool, a: Reading) returns (ret: int, data: seq<Sector>)
      requires Valid() && OneBlock(at, n) && at + n <= |user|
      modifies this`blocks, this`bitmap, this`dead, this`infos, this`num
      ensures Valid() && (Abs(), ret, data) == ReadTurn(old(Abs()), b, at, n, known, a)
      ensures old(num) == |old(infos)| <= 128 ==>
        num == |infos| <= 128 && (num == old(num) + 1 <==> ret == -DATA_MAY_DIRTY)
    {
      if Counted(Abs()) {
        ReadTurnCounts(Abs(), b, at, n, known, a);
      }
      hide Find, ReadCreated;
      var k := FindInfo(b);
      data := [];
      if k >= 0 {
        var off := at - Align(at);
        return 0, infos[k].data[off..off + n];
      }
      if !known {
        data := a.direct.Result(user, at, n);
        if a.direct.ok {
          return 0, data;
        }
        var d := Poll(a.dies1);
        if d {
          return -1, data;
        }
      }
      var d := GivesUp(a.ready, a.dies2);
      if d {
        return -1, data;
      }
      ret, data := ReadFromNew(at, n, a.create, a.flush);
    }

    /**
     scsi_swap_core_read. If the request ends by sector 2^32: anything but -1 returns, turn by turn, what the
     disk showed, or zeros where a block was given an entry, and that is what the disk then shows; 0 means
     that nothing changed; and only blocks of the request are ever touched.
     */
    method CoreRead(start: nat, count: nat, bad: int, dies: bool, turns: nat -> Reading) returns (ret: int, buf: seq<Sector>)
      requires Valid() && Asks(Abs(), start, count)
      modifies this`blocks, this`bitmap, this`dead, this`infos, this`num
      ensures Valid() && (Abs(), ret, buf) == Read(old(Abs()), start, count, bad, dies, turns)
      ensures old(num) == |old(infos)| <= 128 ==> num == |infos| <= 128
      ensures Fits(start, count) ==> Untouched(old(Abs()), Abs(), start, count)
      ensures Fits(start, count) && ret != -1 ==>
        && |buf| == count && Carries(Abs(), start, buf) && (ret == 0 ==> Abs() == old(Abs()))
        && (Kept(old(Abs()), Abs(), start, start + count) <==>
              forall i :: 0 <= i < BlockCount(start, count) ==> ReadKeepsAt(old(Abs()), start, count, bad, turns, i))
        && forall i :: 0 <= i < BlockCount(start, count) ==> Delivers(old(Abs()), start, count, bad, turns, i, buf)
      ensures Fits(start, count) && Tidy(old(Abs())) ==> Tidy(Abs())
    {
      hide ReadTurns, ReadTurn, BlockCount, Turn, Key, Known, ReadKeepsAt, Delivers, Kept, Carries, Untouched, Tight;
      if Counted(Abs()) {
        ReadCounts(Abs(), start, count, bad, dies, turns);
      }
      if Fits(start, count) {
        ReadShows(Abs(), start, count, bad, dies, turns);
        ReadKeepsIff(Abs(), start, count, bad, dies, turns);
        if Tidy(Abs()) {
          ReadTidy(Abs(), start, count, bad, turns, BlockCount(start, count));
        }
      }
      ret, buf := ReadLoop(start, count, bad, dies, turns);
    }

    /** The loop of scsi_swap_core_read. */
    method ReadLoop(start: nat, count: nat, bad: int, dies: bool, turns: nat -> Reading) returns (ret: int, buf: seq<Sector>)
      requires Valid() && Asks(Abs(), start, count)
      modifies this`blocks, this`bitmap, this`dead, this`infos, this`num
      ensures Valid() && (Abs(), ret, buf) == Read(old(Abs()), start, count, bad, dies, turns)
    {
      hide ReadTurns, ReadTurn, BlockCount, Turn, Key, Known;
      buf := [];
      var d := Poll(dies);
      if d {
        return -1, buf;
      }
      NoRead(Abs(), start, count, bad, turns);
      FirstTurn(start, count);
      var blockCount := BlockCount(start, count);
      var badBlock := if bad == -1 then -1 else I32(bad / BLOCK);
      var left := count;
      ret := 0;
      for i := 0 to blockCount
        invariant Valid() && 0 <= left == start + count - Turn(start, count, i)
        invariant ret != -1 && (Abs(), ret, buf) == ReadTurns(old(Abs()), start, count, bad, turns, i)
      {
        InTurn(start, count, i);
        var at, some := Cut(start, count, i, left);
        NextRead(old(Abs()), start, count, bad, turns, i);
        LookupIs(bad, start, i);
        var r, data := ReadBlock(Wrap((start / BLOCK + i) * BLOCK, U32), at, some, badBlock == I32(start / BLOCK + i), turns(i));
        if r == -1 {
          ReadEnds(old(Abs()), start, count, bad, turns, i + 1, blockCount);
          return -1, buf;
        }
        if r == -DATA_MAY_DIRTY {
          ret := r;
        }
        buf := buf + data;
        left := left - some;
      }
    }

    /** _did_block_swapped: does any block from that of the first sector up to the end have an entry? */
    method DidBlockSwapped(sector: nat, count: nat) returns (r: bool)
      requires Valid()
      ensures r <==> exists k :: 0 <= k < |infos| && Align(sector) <= infos[k].src < sector + count
    {
      hide Find;
      var start := Align(sector);
      while start < sector + count
        invariant start % BLOCK == 0
        invariant forall k :: 0 <= k < |infos| && Align(sector) <= infos[k].src ==> start <= infos[k].src
        decreases sector + count - start
      {
        var k := FindInfo(start);
        if k >= 0 {
          return true;
        }
        forall j | 0 <= j < |infos| && start <= infos[j].src ensures start + BLOCK <= infos[j].src {
          NextBlock(start, infos[j].src);
        }
        SameBoundary(start);
        start := start + BLOCK;
      }
      r := false;
    }
  }
}
