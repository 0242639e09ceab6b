/**
 Remapping bad blocks (drivers/scsi/swap/core.c) as functions of the state and of what the device
 answers: it may fail any command, a failed write may leave anything behind, a failed read may
 deliver anything, and the device may be declared dead at any time.
 */
module SwapEngine {
  import opened Common
  import opened SwapView

  // The answers of the device.

  datatype Put = Put(ok: bool, torn: nat -> Sector) {
    function Result(data: seq<Sector>): (r: seq<Sector>)
      ensures |r| == |data| && (ok ==> r == data)
    {
      if ok then data else seq(|data|, (i: nat) => torn(i))
    }
  }

  datatype Get = Get(ok: bool, noise: nat -> Sector) {
    function Result(u: seq<Sector>, at: nat, n: nat): (r: seq<Sector>)
      ensures |r| == n && forall i :: 0 <= i < n ==> r[i] == if ok && at + i < |u| then u[at + i] else noise(i)
    {
      seq(n, (i: nat) => if ok && at + i < |u| then u[at + i] else noise(i))
    }

    /** What is delivered is what stands there, by a good read or by luck. */
    predicate True(u: seq<Sector>, at: nat, n: nat) {
      ok || forall i :: 0 <= i < n && at + i < |u| ==> noise(i) == u[at + i]
    }
  }

  /** To swap_create: memory, the blocks tried, the two neighbour reads, the head. */
  datatype Creating = Creating(noMemory: bool, tries: nat -> Put, front: Get, back: Get, headOk: bool)

  /** To swap_write: the first write of the block; if it fails, swap_recreate and the second write. */
  datatype Rewriting = Rewriting(first: Put, tries: nat -> Put, readable: nat -> bool, flush: Put, headOk: bool, second: Put)

  /** To one turn of the write loop; dies1 and dies2 are a device declared dead by another thread. */
  datatype Writing = Writing(direct: Put, dies1: bool, ready: bool, dies2: bool, create: Creating, rewrite: Rewriting)

  /** To one turn of the read loop. */
  datatype Reading = Reading(direct: Get, dies1: bool, ready: bool, dies2: bool, create: Creating, flush: Put)

  // The state.

  /** struct scsi_swap_core, with the disk in front of the reserved area and the reserved area itself. */
  datatype Engine = Engine(user: seq<Sector>, blocks: seq<seq<Sector>>, bitmap: seq<bool>, infos: seq<Info>, num: nat, dead: bool) {
    predicate Valid() { Area(blocks, bitmap) && AllOk(infos) }
  }

  predicate Tidy(e: Engine) { Tight(e.infos, e.blocks, e.bitmap) }

  // Allocation.

  function FirstFree(bitmap: seq<bool>): (j: int)
    ensures -1 <= j < |bitmap|
    ensures j >= 0 ==> !bitmap[j] && forall i :: 0 <= i < j ==> bitmap[i]
    ensures j < 0 ==> forall i :: 0 <= i < |bitmap| ==> bitmap[i]
    decreases bitmap
  {
    if bitmap == [] then -1
    else if !bitmap[0] then 0
    else var j := FirstFree(bitmap[1..]); if j < 0 then -1 else j + 1
  }

  /** The block _swap_alloc_new_block ends with, or -1, and the bits it leaves: bad blocks on the way are marked used. */
  function Pick(bitmap: seq<bool>, tries: nat -> Put, errors: nat): (r: (seq<bool>, int))
    requires errors <= 16
    ensures |r.0| == |bitmap| && -1 <= r.1 < |bitmap| && (r.1 >= 0 ==> !bitmap[r.1] && r.0[r.1])
    decreases 16 - errors
  {
    var j := FirstFree(bitmap);
    if j < 0 then (bitmap, -1)
    else if tries(errors).ok then (bitmap[j := true], j)
    else if errors >= 16 then (bitmap, -1)
    else Pick(bitmap[j := true], tries, errors + 1)
  }

  /** Only the reserved area and the dead mark differ: bits get set, and only free blocks get other contents. */
  predicate Took(e: Engine, f: Engine) {
    && f.Valid() && f.user == e.user && f.infos == e.infos && f.num == e.num
    && Grows(e.bitmap, f.bitmap) && Spares(e.blocks, f.blocks, e.bitmap, -1)
  }

  const ZEROS: seq<Sector> := seq(BLOCK, i => 0)

  /** _swap_alloc_new_block. */
  function Alloc(e: Engine, tries: nat -> Put, errors: nat): (r: (Engine, int))
    requires e.Valid() && errors <= 16
    ensures Took(e, r.0) && (r.0.bitmap, r.1) == Pick(e.bitmap, tries, errors)
    ensures -1 <= r.1 < DATA_BLOCKS && (r.1 >= 0 ==> !e.bitmap[r.1] && r.0.bitmap[r.1] && r.0.dead == e.dead)
    decreases 16 - errors
  {
    var j := FirstFree(e.bitmap);
    if j < 0 then (e, -1)
    else
      var f := e.(blocks := e.blocks[j := tries(errors).Result(ZEROS)]);
      if tries(errors).ok then (f.(bitmap := f.bitmap[j := true]), j)
      else if errors >= 16 then (f.(dead := true), -1)
      else Alloc(f.(bitmap := f.bitmap[j := true]), tries, errors + 1)
  }

  lemma AllocStep(e: Engine, tries: nat -> Put, errors: nat)
    requires e.Valid() && errors <= 16
    ensures
      var j := FirstFree(e.bitmap);
      Alloc(e, tries, errors) ==
        if j < 0 then (e, -1)
        else
          var f := e.(blocks := e.blocks[j := tries(errors).Result(ZEROS)]);
          if tries(errors).ok then (f.(bitmap := f.bitmap[j := true]), j)
          else if errors >= 16 then (f.(dead := true), -1)
          else Alloc(f.(bitmap := f.bitmap[j := true]), tries, errors + 1)
  {
  }

  // A new entry.

  /** The other sectors of the block around at..at+n, zero in between. */
  function Gathered(u: seq<Sector>, at: nat, n: nat, a: Creating): (r: seq<Sector>)
    requires OneBlock(at, n)
    ensures |r| == BLOCK && r[at - Align(at)..at - Align(at) + n] == seq(n, i => 0)
  {
    var off := at - Align(at);
    a.front.Result(u, Align(at), off) + seq(n, i => 0) + a.back.Result(u, at + n, BLOCK - off - n)
  }

  predicate CanCreate(e: Engine, a: Creating) {
    e.num < MAX_SWAP_BLOCK_FOR_USE && !a.noMemory && Pick(e.bitmap, a.tries, 0).1 >= 0 && a.headOk
  }

  /** swap_create: an entry for the block of `at`, its other sectors read from the disk as far as they can be. */
  function Create(e: Engine, at: nat, n: nat, a: Creating): (r: (Engine, Option<Info>))
    requires e.Valid() && OneBlock(at, n)
    ensures Took(e, r.0) && (r.1.Some? <==> CanCreate(e, a))
    ensures r.1.Some? ==>
      && r.1.value.Ok() && r.1.value.src == Align(at) && r.1.value.data == Gathered(e.user, at, n, a)
      && (r.0.bitmap, r.1.value.index) == Pick(e.bitmap, a.tries, 0) && r.0.dead == e.dead
      && !e.bitmap[r.1.value.index] && r.0.bitmap[r.1.value.index]
  {
    if e.num >= MAX_SWAP_BLOCK_FOR_USE || a.noMemory then (e, None)
    else
      var (f, j) := Alloc(e, a.tries, 0);
      if j < 0 then (f, None)
      else if !a.headOk then (f.(bitmap := f.bitmap[j := false]), None)
      else (f, Some(Info(Align(at), j, Gathered(e.user, at, n, a))))
  }

  // Writing to an entry.

  function Salvaged(block: seq<Sector>, readable: nat -> bool): (r: seq<Sector>)
    requires |block| == BLOCK
    ensures |r| == BLOCK && forall i :: 0 <= i < BLOCK ==> r[i] == if readable(i) then block[i] else 0
  {
    seq(BLOCK, (i: nat) requires i < BLOCK => if readable(i) then block[i] else 0)
  }

  /** swap_recreate gets as far as giving the entry another block. */
  predicate Moves(num: nat, bitmap: seq<bool>, a: Rewriting) {
    num < MAX_SWAP_BLOCK_FOR_USE && Pick(bitmap, a.tries, 0).1 >= 0
  }

  /** Only the reserved area and the dead mark differ: bits get set, and of the used blocks only x gets other contents. */
  predicate Wrote(e: Engine, f: Engine, x: int) {
    && f.Valid() && f.user == e.user && f.infos == e.infos && f.num == e.num
    && Grows(e.bitmap, f.bitmap) && Spares(e.blocks, f.blocks, e.bitmap, x)
  }

  /** The data of the entry is read from its old block, sector by sector, and written to the new one. */
  function Refilled(f: Engine, j: nat, i: Info, a: Rewriting): (r: (Engine, Info, bool))
    requires f.Valid() && i.Ok() && j < DATA_BLOCKS
    ensures r.0.Valid() && r.1.Ok()
  {
    var r := Info(i.src, j, Salvaged(f.blocks[i.index], a.readable));
    var g := f.(blocks := f.blocks[j := a.flush.Result(r.data)]);
    if a.flush.ok && a.headOk then (g, r, true) else (g.(bitmap := g.bitmap[j := false]), r, false)
  }

  /** swap_recreate. A failure after allocation leaves the entry pointing at a block whose bit is clear. */
  function Recreate(e: Engine, i: Info, a: Rewriting): (r: (Engine, Info, bool))
    requires e.Valid() && i.Ok()
    ensures r.0.Valid() && r.1.Ok()
  {
    if e.num >= MAX_SWAP_BLOCK_FOR_USE then (e, i, false)
    else
      var (f, j) := Alloc(e, a.tries, 0);
      if j < 0 then (f, i, false) else Refilled(f, j, i, a)
  }

  lemma RefilledFacts(e: Engine, f: Engine, j: nat, i: Info, a: Rewriting)
    requires e.Valid() && i.Ok() && j < DATA_BLOCKS && Took(e, f) && !e.bitmap[j] && f.bitmap[j] && f.dead == e.dead
    ensures
      var (g, r, ok) := Refilled(f, j, i, a);
      && Took(e, g) && r.src == i.src && r.index == j && (ok <==> a.flush.ok && a.headOk) && g.dead == e.dead
      && g.bitmap == (if ok then f.bitmap else f.bitmap[j := false]) && (ok ==> g.blocks[j] == r.data && g.bitmap[j])
      && (e.bitmap[i.index] ==> r.data == Salvaged(e.blocks[i.index], a.readable))
  {
    hide Salvaged;
  }

  lemma RecreateFacts(e: Engine, i: Info, a: Rewriting)
    requires e.Valid() && i.Ok()
    ensures
      var (f, r, ok) := Recreate(e, i, a);
      var (b, j) := Pick(e.bitmap, a.tries, 0);
      && Took(e, f) && r.src == i.src && (ok <==> Moves(e.num, e.bitmap, a) && a.flush.ok && a.headOk)
      && (if !Moves(e.num, e.bitmap, a) then r == i && f.bitmap == if e.num >= MAX_SWAP_BLOCK_FOR_USE then e.bitmap else b
          else
            && 0 <= j < DATA_BLOCKS && !e.bitmap[j] && r.index == j && f.dead == e.dead
            && f.bitmap == (if ok then b else b[j := false]) && (ok ==> f.blocks[j] == r.data && f.bitmap[j])
            && (e.bitmap[i.index] ==> r.data == Salvaged(e.blocks[i.index], a.readable)))
  {
    hide Pick, Alloc, Salvaged, Refilled, FirstFree;
    var (f, j) := Alloc(e, a.tries, 0);
    if j >= 0 {
      RefilledFacts(e, f, j, i, a);
    }
  }

  /** _swap_write: memory first, then the whole block. */
  function WriteThrough(e: Engine, i: Info, off: nat, buf: seq<Sector>, p: Put): (r: (Engine, Info))
    requires e.Valid() && i.Ok() && off + |buf| <= BLOCK
    ensures Wrote(e, r.0, i.index) && r.1 == i.(data := Overlay(i.data, off, buf)) && r.0.bitmap == e.bitmap && r.0.dead == e.dead
    ensures r.0.blocks[i.index] == p.Result(r.1.data)
  {
    var r := i.(data := Overlay(i.data, off, buf));
    (e.(blocks := e.blocks[i.index := p.Result(r.data)]), r)
  }

  /**
   What loses an entry its block: the first write fails, the entry is given another block, and then the
   data or the head cannot be written.
   */
  predicate LosesOwnership(num: nat, bitmap: seq<bool>, a: Rewriting) {
    !a.first.ok && Moves(num, bitmap, a) && !(a.flush.ok && a.headOk)
  }

  /** swap_write fails exactly then. */
  predicate RewriteFails(num: nat, bitmap: seq<bool>, a: Rewriting) {
    !a.first.ok && !(Moves(num, bitmap, a) && a.flush.ok && a.headOk && a.second.ok)
  }

  /** The entry's data after swap_recreate has moved a block that was marked used. */
  function Moved(i: Info, off: nat, buf: seq<Sector>, a: Rewriting): (r: seq<Sector>)
    requires i.Ok() && off + |buf| <= BLOCK
    ensures |r| == BLOCK
  {
    Salvaged(a.first.Result(Overlay(i.data, off, buf)), a.readable)
  }

  /** swap_write: written through, or moved to a new block and written there. */
  function Rewrite(e: Engine, i: Info, off: nat, buf: seq<Sector>, a: Rewriting): (r: (Engine, Info, int))
    requires e.Valid() && i.Ok() && off + |buf| <= BLOCK
    ensures r.0.Valid() && r.1.Ok()
  {
    var (f, w) := WriteThrough(e, i, off, buf, a.first);
    if a.first.ok then (f, w, 0)
    else
      var (g, r, ok) := Recreate(f, w, a);
      if !ok then (g, r, -1)
      else
        var (h, s) := WriteThrough(g, r, off, buf, a.second);
        (h, s, if a.second.ok then -DATA_MAY_DIRTY else -1)
  }

  /** What swap_write does to the reserved area, and to the entry. */
  ghost predicate Rewrote(e: Engine, i: Info, off: nat, buf: seq<Sector>, a: Rewriting, f: Engine, r: Info, ret: int)
    requires e.Valid() && i.Ok() && off + |buf| <= BLOCK
  {
    && Wrote(e, f, i.index) && r.Ok() && r.src == i.src && (r.index == i.index || !e.bitmap[r.index])
    && ret == (if a.first.ok then 0 else if RewriteFails(e.num, e.bitmap, a) then -1 else -DATA_MAY_DIRTY)
    && (ret != -1 ==>
          && f.dead == e.dead && f.blocks[r.index] == r.data && r.data[off..off + |buf|] == buf
          && f.bitmap == if a.first.ok then e.bitmap else Pick(e.bitmap, a.tries, 0).0)
    && (a.first.ok ==> r == i.(data := Overlay(i.data, off, buf)))
    && (!a.first.ok ==>
          var (b, j) := Pick(e.bitmap, a.tries, 0);
          if !Moves(e.num, e.bitmap, a) then
            r.index == i.index && f.bitmap == if e.num >= MAX_SWAP_BLOCK_FOR_USE then e.bitmap else b
          else j >= 0 && r.index == j && f.bitmap == if a.flush.ok && a.headOk then b else b[j := false])
    && (e.bitmap[i.index] ==> RewroteOwned(e, i, off, buf, a, f, r, ret))
  }

  /** And when the entry's block was marked used. */
  ghost predicate RewroteOwned(e: Engine, i: Info, off: nat, buf: seq<Sector>, a: Rewriting, f: Engine, r: Info, ret: int)
    requires e.Valid() && i.Ok() && f.Valid() && r.Ok() && off + |buf| <= BLOCK
  {
    && (ret == -DATA_MAY_DIRTY ==> r.data == Overlay(Moved(i, off, buf, a), off, buf))
    && (f.bitmap[r.index] <==> !LosesOwnership(e.num, e.bitmap, a))
    && (LosesOwnership(e.num, e.bitmap, a) ==>
          var (b, j) := Pick(e.bitmap, a.tries, 0);
          j >= 0 && r.index == j && f.bitmap == b[j := false] && r.data == Moved(i, off, buf, a))
  }

  lemma Overlaid(data: seq<Sector>, off: nat, buf: seq<Sector>)
    requires off + |buf| <= |data|
    ensures Overlay(data, off, buf)[off..off + |buf|] == buf
  {
  }

  lemma RewriteFacts(e: Engine, i: Info, off: nat, buf: seq<Sector>, a: Rewriting)
    requires e.Valid() && i.Ok() && off + |buf| <= BLOCK
    ensures var (f, r, ret) := Rewrite(e, i, off, buf, a); Rewrote(e, i, off, buf, a, f, r, ret)
  {
    hide Pick, Salvaged, Overlay, Recreate, FirstFree;
    var (f, w) := WriteThrough(e, i, off, buf, a.first);
    if a.first.ok {
      Overlaid(i.data, off, buf);
    } else {
      RecreateFacts(f, w, a);
      var (g, r, ok) := Recreate(f, w, a);
      if ok {
        Overlaid(r.data, off, buf);
      }
    }
  }

  // One turn of each loop: b is the block looked up, at..at+|buf| the sectors meant.

  /** Sectors written to the disk itself. */
  function Stored(e: Engine, at: nat, data: seq<Sector>): Engine
    requires at + |data| <= |e.user|
  {
    e.(user := Overlay(e.user, at, data))
  }

  /** A block that has an entry. */
  function WriteListed(e: Engine, b: nat, at: nat, buf: seq<Sector>, a: Rewriting): (r: (Engine, int))
    requires e.Valid() && OneBlock(at, |buf|) && Find(e.infos, b) >= 0
    ensures r.0.Valid() && r.0.user == e.user
  {
    var k := Find(e.infos, b);
    var (f, i, ret) := Rewrite(e, e.infos[k], at - Align(at), buf, a);
    (f.(infos := f.infos[k := i]), if ret == -DATA_MAY_DIRTY && |buf| == BLOCK then 0 else ret)
  }

  /** A block that needs an entry. */
  function WriteCreated(e: Engine, at: nat, buf: seq<Sector>, a: Creating, w: Rewriting): (r: (Engine, int))
    requires e.Valid() && OneBlock(at, |buf|)
    ensures r.0.Valid() && r.0.user == e.user
  {
    var (f, made) := Create(e, at, |buf|, a);
    if made.None? then (f, -1)
    else
      var (g, i, ret) := Rewrite(f, made.value, at - Align(at), buf, w);
      if ret != 0 then (g.(bitmap := g.bitmap[i.index := false]), -1)
      else (g.(infos := g.infos + [i], num := g.num + 1), if |buf| < BLOCK then -DATA_MAY_DIRTY else 0)
  }

  /** The loop of scsi_swap_core_write, once. */
  function WriteTurn(e: Engine, b: nat, at: nat, buf: seq<Sector>, known: bool, a: Writing): (r: (Engine, int))
    requires e.Valid() && OneBlock(at, |buf|) && at + |buf| <= |e.user|
    ensures r.0.Valid() && |r.0.user| == |e.user| && (r.1 == 0 || r.1 == -1 || r.1 == -DATA_MAY_DIRTY)
  {
    if Find(e.infos, b) >= 0 then WriteListed(e, b, at, buf, a.rewrite)
    else
      var f := if known then e else Stored(e, at, a.direct.Result(buf));
      if !known && a.direct.ok then (f, 0)
      else if !known && (f.dead || a.dies1) then (f.(dead := true), -1)
      else if f.dead || !a.ready || a.dies2 then (f.(dead := true), -1)
      else WriteCreated(f, at, buf, a.create, a.rewrite)
  }

  function ReadCreated(e: Engine, at: nat, n: nat, a: Creating, flush: Put): (r: (Engine, int, seq<Sector>))
    requires e.Valid() && OneBlock(at, n)
    ensures r.0.Valid() && r.0.user == e.user
  {
    var (f, made) := Create(e, at, n, a);
    if made.None? then (f, -1, [])
    else
      var i := made.value;
      var g := f.(blocks := f.blocks[i.index := flush.Result(i.data)]);
      var data := i.data[at - i.src..at - i.src + n];
      if !flush.ok then (g.(bitmap := g.bitmap[i.index := false]), -1, data)
      else (g.(infos := g.infos + [i], num := g.num + 1), -DATA_MAY_DIRTY, data)
  }

  /** The loop of scsi_swap_core_read, once. */
  function ReadTurn(e: Engine, b: nat, at: nat, n: nat, known: bool, a: Reading): (r: (Engine, int, seq<Sector>))
    requires e.Valid() && OneBlock(at, n) && at + n <= |e.user|
    ensures r.0.Valid() && r.0.user == e.user && (r.1 == 0 || r.1 == -1 || r.1 == -DATA_MAY_DIRTY)
  {
    var k := Find(e.infos, b);
    var off := at - Align(at);
    if k >= 0 then (e, 0, e.infos[k].data[off..off + n])
    else
      var data := if known then [] else a.direct.Result(e.user, at, n);
      if !known && a.direct.ok then (e, 0, data)
      else if !known && (e.dead || a.dies1) then (e.(dead := true), -1, data)
      else if e.dead || !a.ready || a.dies2 then (e.(dead := true), -1, data)
      else ReadCreated(e, at, n, a.create, a.flush)
  }

  // The loops.

  /** The size of a bio in bytes is handed over as an int. */
  const MAX_COUNT := 0x40_0000

  predicate Asks(e: Engine, start: nat, count: nat) { 0 < count < MAX_COUNT && start + count <= |e.user| }

  function Part(start: nat, buf: seq<Sector>, i: nat): (r: seq<Sector>)
    requires 0 < |buf| && i < BlockCount(start, |buf|)
    ensures |r| == Length(start, |buf|, i)
  {
    InTurn(start, |buf|, i);
    buf[Turn(start, |buf|, i) - start..Turn(start, |buf|, i + 1) - start]
  }

  /** After k turns; -1 once a turn has failed, else -DATA_MAY_DIRTY once a turn has said so. */
  function WriteTurns(e: Engine, start: nat, buf: seq<Sector>, bad: int, turns: nat -> Writing, k: nat): (r: (Engine, int))
    requires e.Valid() && Asks(e, start, |buf|) && k <= BlockCount(start, |buf|)
    ensures r.0.Valid() && |r.0.user| == |e.user| && (r.1 == 0 || r.1 == -1 || r.1 == -DATA_MAY_DIRTY)
    decreases k
  {
    if k == 0 then (e, 0)
    else
      var (f, ret) := WriteTurns(e, start, buf, bad, turns, k - 1);
      if ret == -1 then (f, -1)
      else
        InTurn(start, |buf|, k - 1);
        var i := k - 1;
        var (g, r) := WriteTurn(f, Key(start, i), Addr(start, i), Part(start, buf, i), Known(bad, start, i), turns(i));
        (g, if r == 0 then ret else r)
  }

  function ReadTurns(e: Engine, start: nat, count: nat, bad: int, turns: nat -> Reading, k: nat): (r: (Engine, int, seq<Sector>))
    requires e.Valid() && Asks(e, start, count) && k <= BlockCount(start, count)
    ensures r.0.Valid() && r.0.user == e.user && (r.1 == 0 || r.1 == -1 || r.1 == -DATA_MAY_DIRTY)
    decreases k
  {
    if k == 0 then (e, 0, [])
    else
      var (f, ret, buf) := ReadTurns(e, start, count, bad, turns, k - 1);
      if ret == -1 then (f, -1, buf)
      else
        InTurn(start, count, k - 1);
        var i := k - 1;
        var (g, r, data) := ReadTurn(f, Key(start, i), Addr(start, i), Length(start, count, i), Known(bad, start, i), turns(i));
        if r == -1 then (g, -1, buf) else (g, if r == 0 then ret else r, buf + data)
  }

  /** scsi_swap_core_write. */
  function Write(e: Engine, start: nat, buf: seq<Sector>, bad: int, dies: bool, turns: nat -> Writing): (r: (Engine, int))
    requires e.Valid() && Asks(e, start, |buf|)
    ensures r.0.Valid() && |r.0.user| == |e.user| && (r.1 == 0 || r.1 == -1 || r.1 == -DATA_MAY_DIRTY)
  {
    if e.dead || dies then (e.(dead := true), -1)
    else WriteTurns(e, start, buf, bad, turns, BlockCount(start, |buf|))
  }

  /** scsi_swap_core_read. */
  function Read(e: Engine, start: nat, count: nat, bad: int, dies: bool, turns: nat -> Reading): (r: (Engine, int, seq<Sector>))
    requires e.Valid() && Asks(e, start, count)
    ensures r.0.Valid() && r.0.user == e.user && (r.1 == 0 || r.1 == -1 || r.1 == -DATA_MAY_DIRTY)
  {
    if e.dead || dies then (e.(dead := true), -1, [])
    else ReadTurns(e, start, count, bad, turns, BlockCount(start, count))
  }
}
