/**
 Where the remapping engine (drivers/scsi/swap/core.c) does not keep what it is for: blocks that come to
 be shared, neighbours that are lost, and requests beyond sector 2^32, which are exactly the ones that
 can go to the wrong block.
 */
module SwapFaults {
  import opened Common
  import opened SwapView
  import opened SwapEngine
  import opened SwapTurns
  import opened SwapLoops
  import opened SwapReads

  function Zero(i: nat): Sector { 0 }

  const FINE := Put(true, Zero)
  const FAILED := Put(false, Zero)
  const READ := Get(true, Zero)

  function AllFine(i: nat): Put { FINE }

  function Unreadable(i: nat): bool { false }

  const WORKING := Rewriting(FINE, AllFine, Unreadable, FINE, true, FINE)
  const CREATING := Creating(false, AllFine, READ, READ, true)

  lemma PickFine(bitmap: seq<bool>)
    ensures Pick(bitmap, AllFine, 0) ==
      if FirstFree(bitmap) < 0 then (bitmap, -1) else (bitmap[FirstFree(bitmap) := true], FirstFree(bitmap))
  {
  }

  // Losing a block.

  /** The block cannot be written, its sectors cannot be read back, and the block found instead fails its first data write. */
  const BREAKING := Rewriting(FAILED, AllFine, Unreadable, FAILED, true, FINE)

  lemma BreakingLoses(num: nat, bitmap: seq<bool>)
    requires num < MAX_SWAP_BLOCK_FOR_USE && FirstFree(bitmap) >= 0
    ensures LosesOwnership(num, bitmap, BREAKING)
    ensures var (b, j) := Pick(bitmap, AllFine, 0); j == FirstFree(bitmap) && b[j := false] == bitmap
  {
    hide Pick;
    PickFine(bitmap);
  }

  /**
   From every engine with one entry, everything in order, room for another and a block to spare: a write
   that fails as BREAKING does, then a write elsewhere that works, leave two entries on one block, which
   holds the data of only one of them.
   */
  lemma ShareBlock(e: Engine, at: nat)
    requires e.Valid() && |e.infos| == 1 && Tidy(e) && e.num < MAX_SWAP_BLOCK_FOR_USE && FirstFree(e.bitmap) >= 0
    requires e.infos[0].src < |e.user| && at < |e.user| && Align(at) != e.infos[0].src
    ensures
      var src := e.infos[0].src;
      var f := WriteListed(e, src, src, [7], BREAKING).0;
      var (g, ret) := WriteCreated(f, at, [7], CREATING, WORKING);
      && ret != -1 && |g.infos| == 2 && g.infos[0].index == g.infos[1].index
      && !Separate(g.infos) && !Mirrored(g.infos, g.blocks)
  {
    hide Pick, WriteListed, WriteCreated, Gathered, Moved, Carries, Kept, CreateKeeps;
    var src := e.infos[0].src;
    FirstSector(src);
    InOneBlock(at);
    BreakingLoses(e.num, e.bitmap);
    ListedOwners(e, src, src, [7], BREAKING);
    var f := WriteListed(e, src, src, [7], BREAKING).0;
    MovedNothing(e.infos[0], [7]);
    PickFine(f.bitmap);
    NotListed(f.infos, Align(at));
    CreatedTurn(f, at, [7], CREATING, WORKING);
    var g := WriteCreated(f, at, [7], CREATING, WORKING).0;
    assert g.infos[0] == f.infos[0] && g.infos[0].index == g.infos[1].index;
    assert g.infos[1].data[at - Align(at) + 0] == [7][0] && g.infos[0].data[at - Align(at)] == 0;
  }

  lemma FirstSector(src: nat)
    requires src % BLOCK == 0
    ensures Align(src) == src && OneBlock(src, 1)
  {
  }

  lemma InOneBlock(at: nat)
    ensures OneBlock(at, 1)
  {
  }

  lemma MovedNothing(i: Info, buf: seq<Sector>)
    requires i.Ok() && |buf| <= BLOCK
    ensures forall j :: 0 <= j < BLOCK ==> Moved(i, 0, buf, BREAKING)[j] == 0
  {
    forall j | 0 <= j < BLOCK ensures Moved(i, 0, buf, BREAKING)[j] == 0 {
      assert !Unreadable(j);
    }
  }

  lemma NotListed(es: seq<Info>, b: nat)
    requires |es| == 1 && es[0].src != b
    ensures Find(es, b) < 0
  {
  }

  /** A disk whose reserved area has just been set up. */
  function Fresh(user: seq<Sector>): (e: Engine)
    ensures e.Valid() && Tidy(e)
  {
    Engine(user, seq(DATA_BLOCKS, i => ZEROS), seq(DATA_BLOCKS, i => false), [], 0, false)
  }

  /** Such an engine, from the very beginning: one block remapped, then as above. */
  lemma OwnershipLost(user: seq<Sector>)
    requires |user| >= 256
    ensures
      var e := WriteCreated(Fresh(user), 0, [5], CREATING, WORKING).0;
      |e.infos| == 1 && e.infos[0].src == 0 &&
      var g := WriteCreated(WriteListed(e, 0, 0, [7], BREAKING).0, 128, [7], CREATING, WORKING).0;
      !Separate(g.infos) && !Mirrored(g.infos, g.blocks)
  {
    hide Pick, WriteListed, WriteCreated, Gathered, FirstFree, Carries, Kept, CreateKeeps;
    var f := Fresh(user);
    FirstSector(0);
    FirstSector(128);
    PickFine(f.bitmap);
    assert !f.bitmap[0] && !f.bitmap[1];
    CreatedTurn(f, 0, [5], CREATING, WORKING);
    CreatedTidy(f, 0, [5], CREATING, WORKING);
    var e := WriteCreated(f, 0, [5], CREATING, WORKING).0;
    assert FirstFree(e.bitmap) >= 0 by {
      assert !e.bitmap[0] || !e.bitmap[1];
    }
    ShareBlock(e, 128);
  }

  // Losing neighbours.

  /** The block is known to be bad, and its other sectors cannot be read: 9 is what the read left in the buffer. */
  function Blind(i: nat): Writing {
    Writing(FAILED, false, true, false, CREATING.(back := Get(false, (j: nat) => 9)), WORKING)
  }

  /**
   From every live engine with room for an entry, in which block 0 has none: writing its first sector
   succeeds with -DATA_MAY_DIRTY, and the second sector, whatever it was, reads 9 from then on.
   */
  lemma NeighbourLost(e: Engine, x: Sector)
    requires e.Valid() && !e.dead && |e.user| >= 2 && Find(e.infos, 0) < 0
    requires e.num < MAX_SWAP_BLOCK_FOR_USE && FirstFree(e.bitmap) >= 0
    ensures
      var (f, ret) := Write(e, 0, [x], 0, false, Blind);
      && ret == -DATA_MAY_DIRTY && AllOk(f.infos) && |f.user| == |e.user|
      && Seen(f.user, f.infos, 0) == x && Seen(f.user, f.infos, 1) == 9
  {
    hide WriteTurn, Find, Pick;
    var (f, ret) := Write(e, 0, [x], 0, false, Blind);
    OneTurnWrite(e, 0, [x], 0, Blind);
    FirstSector(0);
    BlindTurn(e, x);
  }

  /** A request within one block is one turn. */
  lemma OneTurnWrite(e: Engine, start: nat, buf: seq<Sector>, bad: int, turns: nat -> Writing)
    requires e.Valid() && Asks(e, start, |buf|) && OneBlock(start, |buf|) && !e.dead
    ensures Write(e, start, buf, bad, false, turns) == WriteTurn(e, Key(start, 0), start, buf, Known(bad, start, 0), turns(0))
  {
    hide WriteTurn, Known, Key;
    var n := Turns(start, |buf|, 0);
    OneCount(start, |buf|);
    LastTurn(start, |buf|);
    NoWrite(e, start, buf, bad, turns);
    assert Part(start, buf, 0) == buf;
  }

  lemma OneCount(start: nat, count: nat)
    requires OneBlock(start, count)
    ensures BlockCount(start, count) == 1
  {
  }

  lemma BlindTurn(e: Engine, x: Sector)
    requires e.Valid() && !e.dead && |e.user| >= 2 && Find(e.infos, 0) < 0
    requires e.num < MAX_SWAP_BLOCK_FOR_USE && FirstFree(e.bitmap) >= 0
    ensures
      var (f, ret) := WriteTurn(e, 0, 0, [x], true, Blind(0));
      ret == -DATA_MAY_DIRTY && Seen(f.user, f.infos, 0) == x && Seen(f.user, f.infos, 1) == 9
  {
    hide Find, Pick, WriteCreated;
    var a := Blind(0);
    PickFine(e.bitmap);
    FirstSector(0);
    CreatedTurn(e, 0, [x], a.create, a.rewrite);
    var (f, ret) := WriteTurn(e, 0, 0, [x], true, a);
    var i := f.infos[|e.infos|];
    AppendedApart(e.user, e.infos, i);
    ListedLooks(f.user, f.infos, 0);
    assert i.data[0] == x && i.data[1] == Gathered(e.user, 0, 1, a.create)[1] == 9;
    assert Align(1) == 0;
  }

  // Beyond sector 2^32.

  function AllWell(i: nat): Writing { Writing(FINE, false, true, false, CREATING, WORKING) }

  /** With block 0 remapped, a write to sector 2^32 goes to block 0, and is reported as done. */
  lemma WrapsToBlockZero(e: Engine, x: Sector)
    requires e.Valid() && !e.dead && |e.user| > U32 && Find(e.infos, 0) >= 0
    ensures
      var (f, ret) := Write(e, U32, [x], -1, false, AllWell);
      && ret == 0 && AllOk(f.infos) && f.user == e.user
      && Seen(f.user, f.infos, 0) == x && Seen(f.user, f.infos, U32) == Seen(e.user, e.infos, U32)
  {
    hide Find, WriteTurn;
    var (f, ret) := Write(e, U32, [x], -1, false, AllWell);
    FirstSector(U32);
    OneTurnWrite(e, U32, [x], -1, AllWell);
    WrappedTurn(e, x);
  }

  lemma WrappedTurn(e: Engine, x: Sector)
    requires e.Valid() && |e.user| > U32 && Find(e.infos, 0) >= 0
    ensures
      var (f, ret) := WriteTurn(e, 0, U32, [x], false, AllWell(0));
      && ret == 0 && f.user == e.user && Seen(f.user, f.infos, 0) == x && Seen(f.user, f.infos, U32) == Seen(e.user, e.infos, U32)
  {
    hide Find, Rewrite;
    FirstSector(0);
    FirstSector(U32);
    var k := Find(e.infos, 0);
    RewriteFacts(e, e.infos[k], 0, [x], WORKING);
    var (f, ret) := WriteTurn(e, 0, U32, [x], false, AllWell(0));
    ReplacedApart(e.user, e.infos, f.infos[k]);
    ListedLooks(f.user, f.infos, 0);
  }

  /** A write that does not fail leaves its data where it was meant to go. */
  ghost predicate RightFor(e: Engine, start: nat, buf: seq<Sector>, bad: int, dies: bool, turns: nat -> Writing) {
    e.Valid() && Asks(e, start, |buf|) ==>
      var (f, ret) := Write(e, start, buf, bad, dies, turns);
      ret != -1 ==> Carries(f, start, buf)
  }

  ghost predicate WritesRight(start: nat, count: nat) {
    forall e: Engine, buf: seq<Sector>, bad: int, dies: bool, turns: nat -> Writing ::
      |buf| == count ==> RightFor(e, start, buf, bad, dies, turns)
  }

  /** An engine with one entry, for the block that the last turn of a request takes for its own. */
  function Trap(start: nat, count: nat, data: seq<Sector>): (e: Engine)
    requires count > 0 && |data| == BLOCK
    ensures e.Valid()
  {
    WrapBlock((start + count - 1) / BLOCK);
    var key := Wrap(Align(start + count - 1), U32);
    Fresh(seq(start + count, i => 0)).(bitmap := seq(DATA_BLOCKS, i => i == 0), infos := [Info(key, 0, data)], num := 1)
  }

  /** One block after the request: not known to be bad in any turn. */
  function Beyond(start: nat, count: nat): nat { (start / BLOCK + BlockCount(start, count)) * BLOCK }

  lemma NotKnown(start: nat, count: nat, i: nat)
    requires 0 < count < MAX_COUNT && i < BlockCount(start, count)
    ensures !Known(Beyond(start, count), start, i)
  {
    var q, k := start / BLOCK, BlockCount(start, count);
    assert k <= MAX_COUNT + BLOCK;
    assert Beyond(start, count) / BLOCK == q + k;
    WrapApart(q + i, k - i);
  }

  lemma WrapApart(x: nat, d: nat)
    requires 0 < d < U32
    ensures Wrap(x + d, U32) != Wrap(x, U32)
  {
    var p, q := x / U32, (x + d) / U32;
    assert x == p * U32 + x % U32 && x + d == q * U32 + (x + d) % U32;
    assert (q - p) * U32 == q * U32 - p * U32;
  }

  /** Turns before the last one do not touch the last sector, and the last one goes to the entry. */
  lemma TrapMissed(start: nat, count: nat, i: nat)
    requires 0 < count && i < BlockCount(start, count) && !Fits(start, count)
    ensures
      var last := start + count - 1;
      Key(start, i) == Wrap(Align(last), U32) || Addr(start, i) + Length(start, count, i) <= last
  {
    var n := Turns(start, count, i);
    KeyBelow(start, count, i);
    LastTurn(start, count);
    if i + 1 == BlockCount(start, count) {
      var j := LastBlock(start, count);
    }
  }

  ghost predicate Trapped(f: Engine, start: nat, count: nat) {
    && count > 0 && f.Valid() && |f.user| == start + count && f.user[start + count - 1] == 0
    && |f.infos| == 1 && f.infos[0].src == Wrap(Align(start + count - 1), U32)
  }

  lemma TrapTurn(f: Engine, start: nat, buf: seq<Sector>, i: nat)
    requires Asks(f, start, |buf|) && Trapped(f, start, |buf|) && i < BlockCount(start, |buf|) && !Fits(start, |buf|)
    ensures OneBlock(Addr(start, i), Length(start, |buf|, i)) && Addr(start, i) + Length(start, |buf|, i) <= start + |buf|
    ensures
      var (g, ret) := WriteTurn(f, Key(start, i), Addr(start, i), Part(start, buf, i), false, AllWell(i));
      ret == 0 && Trapped(g, start, |buf|)
  {
    hide Key, Addr, BlockCount, Part, Turn, Rewrite;
    InTurn(start, |buf|, i);
    TrapMissed(start, |buf|, i);
    var at, part := Addr(start, i), Part(start, buf, i);
    if Find(f.infos, Key(start, i)) >= 0 {
      RewriteFacts(f, f.infos[0], at - Align(at), part, WORKING);
    }
  }

  lemma {:induction false} TrapTurns(start: nat, buf: seq<Sector>, k: nat)
    requires 0 < |buf| < MAX_COUNT && k <= BlockCount(start, |buf|) && !Fits(start, |buf|)
    ensures
      var (f, ret) := WriteTurns(Trap(start, |buf|, ZEROS), start, buf, Beyond(start, |buf|), AllWell, k);
      ret == 0 && Trapped(f, start, |buf|)
    decreases k
  {
    hide WriteTurn, Key, Addr, BlockCount, Part, Turn, Known, Beyond;
    if k > 0 {
      TrapTurns(start, buf, k - 1);
      var f := WriteTurns(Trap(start, |buf|, ZEROS), start, buf, Beyond(start, |buf|), AllWell, k - 1).0;
      TrapTurn(f, start, buf, k - 1);
      NotKnown(start, |buf|, k - 1);
    }
  }

  lemma Misdirected(start: nat, buf: seq<Sector>)
    requires 0 < |buf| < MAX_COUNT && !Fits(start, |buf|) && buf[|buf| - 1] != 0
    ensures !RightFor(Trap(start, |buf|, ZEROS), start, buf, Beyond(start, |buf|), false, AllWell)
  {
    hide WriteTurns, BlockCount, Beyond, Trap;
    var e := Trap(start, |buf|, ZEROS);
    TrapAlive(start, |buf|, ZEROS);
    TrapTurns(start, buf, BlockCount(start, |buf|));
    var f := Write(e, start, buf, Beyond(start, |buf|), false, AllWell).0;
    TrapHolds(f, start, |buf|);
    var last := start + |buf| - 1;
    assert Seen(f.user, f.infos, last) != buf[last - start];
  }

  lemma TrapAlive(start: nat, count: nat, data: seq<Sector>)
    requires count > 0 && |data| == BLOCK
    ensures var e := Trap(start, count, data); !e.dead && |e.user| == start + count
  {
  }

  lemma TrapHolds(f: Engine, start: nat, count: nat)
    requires count > 0 && Trapped(f, start, count) && !Fits(start, count)
    ensures Seen(f.user, f.infos, start + count - 1) == 0
  {
    var i := LastBlock(start, count);
  }

  /** Every write of count sectors at start goes where it was meant to go if and only if it ends by sector 2^32. */
  lemma WritesRightIff(start: nat, count: nat)
    requires 0 < count < MAX_COUNT
    ensures WritesRight(start, count) <==> Fits(start, count)
  {
    hide RightFor;
    if Fits(start, count) {
      forall e: Engine, buf: seq<Sector>, bad: int, dies: bool, turns: nat -> Writing | |buf| == count
        ensures RightFor(e, start, buf, bad, dies, turns)
      {
        RightWhenFits(e, start, buf, bad, dies, turns);
      }
    } else {
      var buf := seq(count, i => 1);
      Misdirected(start, buf);
    }
  }

  lemma RightWhenFits(e: Engine, start: nat, buf: seq<Sector>, bad: int, dies: bool, turns: nat -> Writing)
    requires Fits(start, |buf|)
    ensures RightFor(e, start, buf, bad, dies, turns)
  {
    hide WriteTurns, BlockCount;
    if e.Valid() && Asks(e, start, |buf|) {
      WriteShows(e, start, buf, bad, dies, turns);
    }
  }

  /** A read that returns 0 returns what the disk shows. */
  ghost predicate RightReadFor(e: Engine, start: nat, count: nat, bad: int, dies: bool, turns: nat -> Reading) {
    e.Valid() && Asks(e, start, count) ==>
      var (f, ret, buf) := Read(e, start, count, bad, dies, turns);
      ret == 0 ==> Carries(e, start, buf)
  }

  ghost predicate ReadsRight(start: nat, count: nat) {
    forall e: Engine, bad: int, dies: bool, turns: nat -> Reading :: RightReadFor(e, start, count, bad, dies, turns)
  }

  function AllRead(i: nat): Reading { Reading(READ, false, true, false, CREATING, FINE) }

  const ONES: seq<Sector> := seq(BLOCK, i => 1)

  lemma {:induction false} TrapReads(start: nat, count: nat, k: nat)
    requires 0 < count < MAX_COUNT && k <= BlockCount(start, count) && !Fits(start, count)
    ensures
      var e := Trap(start, count, ONES);
      var (f, ret, buf) := ReadTurns(e, start, count, Beyond(start, count), AllRead, k);
      && f == e && ret == 0 && |buf| == Turn(start, count, k) - start
      && (k == BlockCount(start, count) ==> 0 < |buf| && buf[|buf| - 1] == 1)
    decreases k
  {
    hide ReadTurn, Key, Addr, BlockCount, Known, Beyond, Trap;
    var e := Trap(start, count, ONES);
    FirstTurn(start, count);
    if k > 0 {
      TrapReads(start, count, k - 1);
      InTurn(start, count, k - 1);
      NotKnown(start, count, k - 1);
      TrapRead(start, count, k - 1);
    } else {
      var i := LastBlock(start, count);
    }
  }

  lemma TrapRead(start: nat, count: nat, i: nat)
    requires 0 < count < MAX_COUNT && i < BlockCount(start, count) && !Fits(start, count)
    ensures OneBlock(Addr(start, i), Length(start, count, i)) && Addr(start, i) + Length(start, count, i) <= start + count
    ensures
      var e := Trap(start, count, ONES);
      var (f, ret, data) := ReadTurn(e, Key(start, i), Addr(start, i), Length(start, count, i), false, AllRead(i));
      f == e && ret == 0 && |data| == Length(start, count, i) && (i + 1 == BlockCount(start, count) ==> data[|data| - 1] == 1)
  {
    hide Addr, BlockCount, Turn;
    InTurn(start, count, i);
    if i + 1 == BlockCount(start, count) {
      var j := LastBlock(start, count);
      var n := Turns(start, count, i);
      assert Key(start, i) == Wrap(Align(start + count - 1), U32);
    }
  }

  lemma Misread(start: nat, count: nat)
    requires 0 < count < MAX_COUNT && !Fits(start, count)
    ensures !RightReadFor(Trap(start, count, ONES), start, count, Beyond(start, count), false, AllRead)
  {
    hide ReadTurns, BlockCount, Beyond;
    var e := Trap(start, count, ONES);
    TrapReads(start, count, BlockCount(start, count));
    LastTurn(start, count);
    TrapHolds(e, start, count);
    var buf := Read(e, start, count, Beyond(start, count), false, AllRead).2;
    var last := start + count - 1;
    assert Seen(e.user, e.infos, last) != buf[last - start];
  }

  /** Every read of count sectors at start that returns 0 returns what the disk shows if and only if it ends by sector 2^32. */
  lemma ReadsRightIff(start: nat, count: nat)
    requires 0 < count < MAX_COUNT
    ensures ReadsRight(start, count) <==> Fits(start, count)
  {
    hide RightReadFor;
    if Fits(start, count) {
      forall e: Engine, bad: int, dies: bool, turns: nat -> Reading ensures RightReadFor(e, start, count, bad, dies, turns) {
        RightReadWhenFits(e, start, count, bad, dies, turns);
      }
    } else {
      Misread(start, count);
    }
  }

  lemma RightReadWhenFits(e: Engine, start: nat, count: nat, bad: int, dies: bool, turns: nat -> Reading)
    requires Fits(start, count)
    ensures RightReadFor(e, start, count, bad, dies, turns)
  {
    hide ReadTurns, BlockCount, Delivers, RemapsAt;
    if e.Valid() && Asks(e, start, count) {
      ReadShows(e, start, count, bad, dies, turns);
    }
  }
}
