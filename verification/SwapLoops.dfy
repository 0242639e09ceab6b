/**
 The loops of scsi_swap_core_write and scsi_swap_core_read (drivers/scsi/swap/core.c): which requests
 address the blocks they mean, when a call fails, and what the disk shows after one that does not.
 */
module SwapLoops {
  import opened Common
  import opened SwapView
  import opened SwapEngine
  import opened SwapTurns

  // Addresses.

  /** The request ends where b_start can still follow. */
  predicate Fits(start: nat, count: nat) { start + count <= U32 }

  lemma TurnAddress(start: nat, count: nat, i: nat)
    requires count > 0 && i < BlockCount(start, count)
    ensures Turn(start, count, i) < start + count && Align(Turn(start, count, i)) == (start / BLOCK + i) * BLOCK
    ensures Fits(start, count) ==> Key(start, i) == Align(Turn(start, count, i)) && Addr(start, i) == Turn(start, count, i)
  {
    hide BlockCount, Key;
    KeyBelow(start, count, i);
    var n := Turns(start, count, i);
  }

  /** Every turn looks up and addresses its own block if and only if the request ends by sector 2^32. */
  lemma AddressesIff(start: nat, count: nat)
    requires count > 0
    ensures (forall i :: 0 <= i < BlockCount(start, count) ==>
              Key(start, i) == Align(Turn(start, count, i)) && Addr(start, i) == Turn(start, count, i)) <==>
            Fits(start, count)
  {
    if Fits(start, count) {
      forall i | 0 <= i < BlockCount(start, count)
        ensures Key(start, i) == Align(Turn(start, count, i)) && Addr(start, i) == Turn(start, count, i)
      {
        TurnAddress(start, count, i);
      }
    } else {
      var i := LastBlock(start, count);
      KeyBelow(start, count, i);
    }
  }

  /** A block is treated as bad without being tried if and only if it is the one the caller names; -1 names none. */
  lemma KnownIff(bad: int, start: nat, count: nat, i: nat)
    requires count > 0 && i < BlockCount(start, count) && Fits(start, count) && -1 <= bad < 0x40_0000_0000
    ensures Known(bad, start, i) <==> bad >= 0 && Align(bad) == Align(Turn(start, count, i))
  {
    TurnAddress(start, count, i);
    var q := start / BLOCK + i;
    assert q * BLOCK < U32;
    assert bad >= 0 ==> Align(bad) == bad / BLOCK * BLOCK;
  }

  lemma LastBlock(start: nat, count: nat) returns (i: nat)
    requires count > 0
    ensures i + 1 == BlockCount(start, count) && Align(Turn(start, count, i)) == Align(start + count - 1)
    ensures Align(start + count - 1) < U32 <==> Fits(start, count)
  {
    i := BlockCount(start, count) - 1;
    var n := Turns(start, count, i);
    LastTurn(start, count);
    NextBlock(0, U32);
  }

  lemma NoWrite(e: Engine, start: nat, buf: seq<Sector>, bad: int, turns: nat -> Writing)
    requires e.Valid() && Asks(e, start, |buf|)
    ensures WriteTurns(e, start, buf, bad, turns, 0) == (e, 0)
  {
  }

  lemma WriteStops(e: Engine, start: nat, buf: seq<Sector>, bad: int, turns: nat -> Writing, k: nat)
    requires e.Valid() && Asks(e, start, |buf|) && k < BlockCount(start, |buf|)
    ensures WriteTurns(e, start, buf, bad, turns, k).1 == -1 ==>
      WriteTurns(e, start, buf, bad, turns, k + 1) == WriteTurns(e, start, buf, bad, turns, k)
  {
    hide WriteTurn, Turn, Known, Key, Part;
  }

  lemma NextWrite(e: Engine, start: nat, buf: seq<Sector>, bad: int, turns: nat -> Writing, k: nat)
    requires e.Valid() && Asks(e, start, |buf|) && k < BlockCount(start, |buf|)
    ensures OneBlock(Addr(start, k), |Part(start, buf, k)|) && Addr(start, k) + |Part(start, buf, k)| <= |e.user|
    ensures
      var (f, ret) := WriteTurns(e, start, buf, bad, turns, k);
      ret != -1 ==>
        var (g, r) := WriteTurn(f, Key(start, k), Addr(start, k), Part(start, buf, k), Known(bad, start, k), turns(k));
        WriteTurns(e, start, buf, bad, turns, k + 1) == (g, if r == 0 then ret else r)
  {
    hide WriteTurn, Known, Key, Turn;
    InTurn(start, |buf|, k);
  }

  lemma {:induction false} WriteEnds(e: Engine, start: nat, buf: seq<Sector>, bad: int, turns: nat -> Writing, j: nat, k: nat)
    requires e.Valid() && Asks(e, start, |buf|) && j <= k <= BlockCount(start, |buf|)
    requires WriteTurns(e, start, buf, bad, turns, j).1 == -1
    ensures WriteTurns(e, start, buf, bad, turns, k) == WriteTurns(e, start, buf, bad, turns, j)
    decreases k
  {
    hide WriteTurns, BlockCount;
    if j < k {
      WriteEnds(e, start, buf, bad, turns, j, k - 1);
      WriteStops(e, start, buf, bad, turns, k - 1);
    }
  }

  // Failure.

  lemma TurnFails(e: Engine, b: nat, at: nat, buf: seq<Sector>, known: bool, a: Writing)
    requires e.Valid() && OneBlock(at, |buf|) && at + |buf| <= |e.user|
    ensures WriteTurn(e, b, at, buf, known, a).1 == -1 <==> WriteFails(e, b, known, a)
  {
    hide Find, Rewrite, Create, Pick;
    var k, off := Find(e.infos, b), at - Align(at);
    if k >= 0 {
      RewriteFacts(e, e.infos[k], off, buf, a.rewrite);
    } else {
      var f := if known then e else Stored(e, at, a.direct.Result(buf));
      var (g, made) := Create(f, at, |buf|, a.create);
      if made.Some? {
        RewriteFacts(g, made.value, off, buf, a.rewrite);
      }
    }
  }

  /** Turn i is reached, and fails. */
  predicate FailsAt(e: Engine, start: nat, buf: seq<Sector>, bad: int, turns: nat -> Writing, i: nat)
    requires e.Valid() && Asks(e, start, |buf|) && i < BlockCount(start, |buf|)
  {
    var (f, ret) := WriteTurns(e, start, buf, bad, turns, i);
    ret != -1 && WriteFails(f, Key(start, i), Known(bad, start, i), turns(i))
  }

  lemma {:induction false} TurnsFail(e: Engine, start: nat, buf: seq<Sector>, bad: int, turns: nat -> Writing, k: nat)
    requires e.Valid() && Asks(e, start, |buf|) && k <= BlockCount(start, |buf|)
    ensures WriteTurns(e, start, buf, bad, turns, k).1 == -1 <==> exists i :: 0 <= i < k && FailsAt(e, start, buf, bad, turns, i)
    decreases k
  {
    hide WriteTurn, WriteFails, Key, Addr, Known, BlockCount, Part;
    if k > 0 {
      TurnsFail(e, start, buf, bad, turns, k - 1);
      InTurn(start, |buf|, k - 1);
      var (f, ret) := WriteTurns(e, start, buf, bad, turns, k - 1);
      TurnFails(f, Key(start, k - 1), Addr(start, k - 1), Part(start, buf, k - 1), Known(bad, start, k - 1), turns(k - 1));
      if ret != -1 && FailsAt(e, start, buf, bad, turns, k - 1) {
        assert 0 <= k - 1 < k;
      }
    }
  }

  /** scsi_swap_core_write returns -1 if and only if the device is dead or a turn fails. */
  lemma WriteFailsIff(e: Engine, start: nat, buf: seq<Sector>, bad: int, dies: bool, turns: nat -> Writing)
    requires e.Valid() && Asks(e, start, |buf|)
    ensures Write(e, start, buf, bad, dies, turns).1 == -1 <==>
      e.dead || dies || exists i :: 0 <= i < BlockCount(start, |buf|) && FailsAt(e, start, buf, bad, turns, i)
  {
    hide WriteTurns, FailsAt;
    TurnsFail(e, start, buf, bad, turns, BlockCount(start, |buf|));
  }

  // What shows after a write.

  ghost predicate Advanced(e: Engine, f: Engine, start: nat, buf: seq<Sector>, k: nat) {
    Progress(e.user, e.infos, f.user, f.infos, start, buf, Turn(start, |buf|, k), (start / BLOCK + k) * BLOCK)
  }

  ghost predicate Untouched(e: Engine, f: Engine, start: nat, n: nat) {
    n > 0 && Touches(e.user, e.infos, f.user, f.infos, start, n)
  }

  /** Where turn k of a request that fits takes place. */
  lemma TurnShape(start: nat, count: nat, k: nat)
    requires count > 0 && k < BlockCount(start, count) && Fits(start, count)
    ensures
      var at, to := Turn(start, count, k), Turn(start, count, k + 1);
      && start <= at < to <= start + count && OneBlock(at, to - at) && (at == start || at % BLOCK == 0)
      && Key(start, k) == Align(at) == (start / BLOCK + k) * BLOCK && Addr(start, k) == at
      && (start / BLOCK + (k + 1)) * BLOCK == Align(at) + BLOCK
  {
    hide BlockCount, Key;
    TurnAddress(start, count, k);
    InTurn(start, count, k);
    var n := Turns(start, count, k);
  }

  /** Turn k from the state the turns before it left. */
  lemma OneTurn(e: Engine, start: nat, buf: seq<Sector>, bad: int, turns: nat -> Writing, k: nat)
    returns (f: Engine, g: Engine, at: nat, part: seq<Sector>, ret: int)
    requires e.Valid() && Asks(e, start, |buf|) && Fits(start, |buf|) && k < BlockCount(start, |buf|)
    requires WriteTurns(e, start, buf, bad, turns, k).1 != -1
    ensures at == Turn(start, |buf|, k) && part == Part(start, buf, k) && at + |part| == Turn(start, |buf|, k + 1)
    ensures OneBlock(at, |part|) && start <= at && at + |part| <= start + |buf| && (at == start || at % BLOCK == 0)
    ensures part == buf[at - start..at - start + |part|] && Align(at) == (start / BLOCK + k) * BLOCK
    ensures (start / BLOCK + (k + 1)) * BLOCK == Align(at) + BLOCK
    ensures f == WriteTurns(e, start, buf, bad, turns, k).0 && f.Valid() && at + |part| <= |f.user|
    ensures (g, ret) == WriteTurn(f, Align(at), at, part, Known(bad, start, k), turns(k))
    ensures WriteTurned(f, at, part, Known(bad, start, k), turns(k), g, ret)
    ensures
      WriteTurns(e, start, buf, bad, turns, k + 1) == (g, if ret == 0 then WriteTurns(e, start, buf, bad, turns, k).1 else ret)
  {
    hide WriteTurns, WriteTurn, Known, WriteTurned, BlockCount, Key, Turn, Addr, Align, OneBlock;
    TurnShape(start, |buf|, k);
    NextWrite(e, start, buf, bad, turns, k);
    f, at, part := WriteTurns(e, start, buf, bad, turns, k).0, Turn(start, |buf|, k), Part(start, buf, k);
    var r := WriteTurn(f, Align(at), at, part, Known(bad, start, k), turns(k));
    g, ret := r.0, r.1;
    WriteTurnFacts(f, at, part, Known(bad, start, k), turns(k));
  }

  lemma {:induction false} WriteAdvances(e: Engine, start: nat, buf: seq<Sector>, bad: int, turns: nat -> Writing, k: nat)
    requires e.Valid() && Asks(e, start, |buf|) && Fits(start, |buf|) && k <= BlockCount(start, |buf|)
    ensures
      var (f, ret) := WriteTurns(e, start, buf, bad, turns, k);
      && (ret == -1 ==> Untouched(e, f, start, |buf|))
      && (ret != -1 ==> Advanced(e, f, start, buf, k) && f.dead == e.dead)
      && (ret == 0 ==> Kept(e, f, start, Turn(start, |buf|, k)))
    decreases k
  {
    hide WriteTurns, WriteTurn, Turn, BlockCount, Progress, Untouched, Align, Kept, WriteTurned, Key, Known, OneBlock;
    NoWrite(e, start, buf, bad, turns);
    if k == 0 {
      FirstTurn(start, |buf|);
      ProgressStarts(e.user, e.infos, start, buf);
      NothingKept(e, start, start);
    } else {
      WriteStops(e, start, buf, bad, turns, k - 1);
      WriteAdvances(e, start, buf, bad, turns, k - 1);
      if WriteTurns(e, start, buf, bad, turns, k - 1).1 != -1 {
        var f, g, at, part, ret := OneTurn(e, start, buf, bad, turns, k - 1);
        AdvanceTurned(e, f, g, start, buf, at, part, Known(bad, start, k - 1), turns(k - 1), ret);
      }
    }
  }

  lemma AdvanceTurned(e: Engine, f: Engine, g: Engine, start: nat, buf: seq<Sector>, at: nat, part: seq<Sector>,
                      known: bool, a: Writing, ret: int)
    requires f.Valid() && Progress(e.user, e.infos, f.user, f.infos, start, buf, at, Align(at))
    requires OneBlock(at, |part|) && at + |part| <= start + |buf| && (at == start || at % BLOCK == 0)
    requires part == buf[at - start..at - start + |part|] && WriteTurned(f, at, part, known, a, g, ret)
    ensures ret == -1 ==> Untouched(e, g, start, |buf|)
    ensures ret != -1 ==>
      Progress(e.user, e.infos, g.user, g.infos, start, buf, at + |part|, Align(at) + BLOCK) && g.dead == f.dead
    ensures ret == 0 && Kept(e, f, start, at) ==> Kept(e, g, start, at + |part|)
  {
    hide Progress, Kept, Carries, Aside, Untouched, WriteFails, WriteKeeps, Find;
    AdvanceStep(e, f, g, start, buf, at, part, ret != -1);
  }

  lemma NothingKept(e: Engine, lo: nat, hi: nat)
    requires e.Valid()
    ensures Kept(e, e, lo, hi)
  {
  }

  lemma AdvanceStep(e: Engine, f: Engine, g: Engine, start: nat, buf: seq<Sector>, at: nat, part: seq<Sector>, ok: bool)
    requires Progress(e.user, e.infos, f.user, f.infos, start, buf, at, Align(at)) && Aside(f, g, Align(at))
    requires OneBlock(at, |part|) && at + |part| <= start + |buf| && (at == start || at % BLOCK == 0)
    requires part == buf[at - start..at - start + |part|] && (ok ==> Carries(g, at, part))
    ensures ok ==> Progress(e.user, e.infos, g.user, g.infos, start, buf, at + |part|, Align(at) + BLOCK)
    ensures !ok ==> Untouched(e, g, start, |buf|)
    ensures Kept(e, g, start, at + |part|) <==> Kept(e, f, start, at) && Kept(f, g, at, at + |part|)
  {
    hide Seen, Entry;
    KeptStep(e.user, e.infos, f.user, f.infos, g.user, g.infos, start, at, |part|);
    if ok {
      ProgressStep(e.user, e.infos, f.user, f.infos, g.user, g.infos, start, buf, at, |part|);
    } else {
      ApartLooksSame(f.user, f.infos, g.user, g.infos, Align(at));
      OnlyBlocks(e.user, e.infos, f.user, f.infos, g.user, g.infos, start, at);
      UnderTop(start, |buf|, at);
      Widen(e.user, e.infos, g.user, g.infos, Align(start), Align(at) + BLOCK, Top(start, |buf|));
    }
  }

  /**
   Every write that ends by sector 2^32: only blocks of the request are touched; unless -1 the data is there
   to be read back; and 0 means that nothing else changed.
   */
  lemma WriteShows(e: Engine, start: nat, buf: seq<Sector>, bad: int, dies: bool, turns: nat -> Writing)
    requires e.Valid() && Asks(e, start, |buf|) && Fits(start, |buf|)
    ensures
      var (f, ret) := Write(e, start, buf, bad, dies, turns);
      && Untouched(e, f, start, |buf|) && (ret != -1 ==> Carries(f, start, buf) && f.dead == e.dead)
      && (ret == 0 ==> Kept(e, f, start, start + |buf|))
  {
    hide WriteTurns, WriteTurn, Turn, BlockCount, Progress, Touches, Align, Seen, Holds, SameOutside, Kept;
    Unchanged(e.user, e.infos, start, |buf|);
    WriteAdvances(e, start, buf, bad, turns, BlockCount(start, |buf|));
    LastTurn(start, |buf|);
    var (f, ret) := Write(e, start, buf, bad, dies, turns);
    if ret != -1 {
      ProgressEnds(e.user, e.infos, f.user, f.infos, start, buf);
    }
  }

  // When everything else is kept.

  /** A turn that keeps the rest of its block, from the state before the call and the answers. */
  predicate KeepsAt(e: Engine, start: nat, buf: seq<Sector>, bad: int, turns: nat -> Writing, i: nat)
    requires e.Valid() && Asks(e, start, |buf|) && Fits(start, |buf|) && i < BlockCount(start, |buf|)
  {
    TurnAddress(start, |buf|, i);
    InTurn(start, |buf|, i);
    WriteKeeps(e, Turn(start, |buf|, i), Part(start, buf, i), Known(bad, start, i), turns(i))
  }

  lemma KeepsAhead(e: Engine, f: Engine, at: nat, buf: seq<Sector>, known: bool, a: Writing)
    requires e.Valid() && f.Valid() && OneBlock(at, |buf|) && Ahead(e.user, e.infos, f.user, f.infos, Align(at))
    ensures WriteKeeps(f, at, buf, known, a) <==> WriteKeeps(e, at, buf, known, a)
  {
    hide Find, Entry, MoveKeeps;
  }

  lemma {:induction false} TurnsKeepIff(e: Engine, start: nat, buf: seq<Sector>, bad: int, turns: nat -> Writing, k: nat)
    requires e.Valid() && Asks(e, start, |buf|) && Fits(start, |buf|) && k <= BlockCount(start, |buf|)
    requires Tidy(e) && WriteTurns(e, start, buf, bad, turns, k).1 != -1
    ensures
      var f := WriteTurns(e, start, buf, bad, turns, k).0;
      Tidy(f) && (Kept(e, f, start, Turn(start, |buf|, k)) <==> forall i :: 0 <= i < k ==> KeepsAt(e, start, buf, bad, turns, i))
    decreases k
  {
    hide WriteTurns, WriteTurn, Turn, BlockCount, WriteTurned, WriteKeeps, Tidy, Kept, Progress, Key, Known, Align, OneBlock, KeepsAt, Part;
    NoWrite(e, start, buf, bad, turns);
    if k == 0 {
      FirstTurn(start, |buf|);
      NothingKept(e, start, start);
    } else {
      WriteStops(e, start, buf, bad, turns, k - 1);
      TurnsKeepIff(e, start, buf, bad, turns, k - 1);
      WriteAdvances(e, start, buf, bad, turns, k - 1);
      var f, g, at, part, ret := OneTurn(e, start, buf, bad, turns, k - 1);
      KeepIffStep(e, f, g, start, buf, at, part, Known(bad, start, k - 1), turns(k - 1), ret);
      KeepsAtIs(e, start, buf, bad, turns, k - 1, at, part);
      LastOfAll(e, start, buf, bad, turns, k);
    }
  }

  lemma KeepIffStep(e: Engine, f: Engine, g: Engine, start: nat, buf: seq<Sector>, at: nat, part: seq<Sector>,
                    known: bool, a: Writing, ret: int)
    requires e.Valid() && f.Valid() && Tidy(f) && ret != -1 && at + |part| <= |f.user|
    requires Progress(e.user, e.infos, f.user, f.infos, start, buf, at, Align(at))
    requires OneBlock(at, |part|) && at + |part| <= start + |buf| && (at == start || at % BLOCK == 0)
    requires part == buf[at - start..at - start + |part|]
    requires (g, ret) == WriteTurn(f, Align(at), at, part, known, a) && WriteTurned(f, at, part, known, a, g, ret)
    ensures Tidy(g) && (Kept(e, g, start, at + |part|) <==> Kept(e, f, start, at) && WriteKeeps(e, at, part, known, a))
  {
    hide WriteTurn, Progress, WriteFails, WriteKeeps, Tidy, Kept, Carries, Aside, Marked, Find;
    AdvanceStep(e, f, g, start, buf, at, part, true);
    WriteTurnTidy(f, at, part, known, a);
    TidyMarks(f, Align(at), a.rewrite);
    ProgressAhead(e, f, start, buf, at);
    KeepsAhead(e, f, at, part, known, a);
  }

  lemma KeepsAtIs(e: Engine, start: nat, buf: seq<Sector>, bad: int, turns: nat -> Writing, i: nat, at: nat, part: seq<Sector>)
    requires e.Valid() && Asks(e, start, |buf|) && Fits(start, |buf|) && i < BlockCount(start, |buf|)
    requires at == Turn(start, |buf|, i) && part == Part(start, buf, i) && OneBlock(at, |part|)
    ensures KeepsAt(e, start, buf, bad, turns, i) <==> WriteKeeps(e, at, part, Known(bad, start, i), turns(i))
  {
    hide WriteKeeps, Turn, Known;
  }

  lemma LastOfAll(e: Engine, start: nat, buf: seq<Sector>, bad: int, turns: nat -> Writing, k: nat)
    requires e.Valid() && Asks(e, start, |buf|) && Fits(start, |buf|) && 0 < k <= BlockCount(start, |buf|)
    ensures (forall i :: 0 <= i < k ==> KeepsAt(e, start, buf, bad, turns, i)) <==>
      (forall i :: 0 <= i < k - 1 ==> KeepsAt(e, start, buf, bad, turns, i)) && KeepsAt(e, start, buf, bad, turns, k - 1)
  {
    hide KeepsAt;
  }

  lemma ProgressAhead(e: Engine, f: Engine, start: nat, buf: seq<Sector>, pos: nat)
    requires Progress(e.user, e.infos, f.user, f.infos, start, buf, pos, Align(pos))
    ensures Ahead(e.user, e.infos, f.user, f.infos, Align(pos))
  {
  }

  lemma TidyMarks(e: Engine, b: nat, a: Rewriting)
    requires e.Valid() && Tidy(e)
    ensures Marked(e, b, a)
  {
  }

  /** While entries own their blocks: a write that does not fail leaves all other sectors alone if and only if each turn does. */
  lemma WriteKeepsIff(e: Engine, start: nat, buf: seq<Sector>, bad: int, dies: bool, turns: nat -> Writing)
    requires e.Valid() && Asks(e, start, |buf|) && Fits(start, |buf|) && Tidy(e)
    ensures
      var (f, ret) := Write(e, start, buf, bad, dies, turns);
      ret != -1 ==>
        && Tidy(f)
        && (Kept(e, f, start, start + |buf|) <==>
              forall i :: 0 <= i < BlockCount(start, |buf|) ==> KeepsAt(e, start, buf, bad, turns, i))
  {
    hide WriteTurns, WriteTurn, Turn, Kept, Tight, KeepsAt;
    LastTurn(start, |buf|);
    if Write(e, start, buf, bad, dies, turns).1 != -1 {
      TurnsKeepIff(e, start, buf, bad, turns, BlockCount(start, |buf|));
    }
  }

  /** The answers by themselves promise that the rest is kept: the first write and the neighbour reads of the turn succeed. */
  predicate Gentle(start: nat, count: nat, i: nat, a: Writing) {
    var at, n := Turn(start, count, i), Length(start, count, i);
    && a.rewrite.first.ok && (at == Align(at) || a.create.front.ok)
    && (at - Align(at) + n == BLOCK || a.create.back.ok)
  }

  lemma GentleKeeps(e: Engine, at: nat, buf: seq<Sector>, known: bool, a: Writing)
    requires e.Valid() && OneBlock(at, |buf|) && a.rewrite.first.ok
    requires (at == Align(at) || a.create.front.ok) && (at - Align(at) + |buf| == BLOCK || a.create.back.ok)
    ensures WriteKeeps(e, at, buf, known, a) && Marked(e, Align(at), a.rewrite)
  {
    hide Find, Align;
  }

  lemma {:induction false} GentleTurns(e: Engine, start: nat, buf: seq<Sector>, bad: int, turns: nat -> Writing, k: nat)
    requires e.Valid() && Asks(e, start, |buf|) && Fits(start, |buf|) && k <= BlockCount(start, |buf|)
    requires WriteTurns(e, start, buf, bad, turns, k).1 != -1 && forall i :: 0 <= i < k ==> Gentle(start, |buf|, i, turns(i))
    ensures Kept(e, WriteTurns(e, start, buf, bad, turns, k).0, start, Turn(start, |buf|, k))
    decreases k
  {
    hide WriteTurns, WriteTurn, Turn, BlockCount, WriteTurned, Kept, Progress, Key, Known, Align, OneBlock, Gentle, Tight;
    NoWrite(e, start, buf, bad, turns);
    if k == 0 {
      FirstTurn(start, |buf|);
      NothingKept(e, start, start);
    } else {
      WriteStops(e, start, buf, bad, turns, k - 1);
      GentleTurns(e, start, buf, bad, turns, k - 1);
      WriteAdvances(e, start, buf, bad, turns, k - 1);
      var f, g, at, part, ret := OneTurn(e, start, buf, bad, turns, k - 1);
      GentleStep(e, f, g, start, buf, k - 1, at, part, Known(bad, start, k - 1), turns(k - 1), ret);
    }
  }

  lemma GentleStep(e: Engine, f: Engine, g: Engine, start: nat, buf: seq<Sector>, i: nat, at: nat, part: seq<Sector>,
                   known: bool, a: Writing, ret: int)
    requires f.Valid() && ret != -1 && Progress(e.user, e.infos, f.user, f.infos, start, buf, at, Align(at))
    requires OneBlock(at, |part|) && at + |part| <= start + |buf| && (at == start || at % BLOCK == 0)
    requires part == buf[at - start..at - start + |part|] && WriteTurned(f, at, part, known, a, g, ret)
    requires Gentle(start, |buf|, i, a) && at == Turn(start, |buf|, i) && at + |part| == Turn(start, |buf|, i + 1)
    ensures Kept(e, f, start, at) ==> Kept(e, g, start, at + |part|)
  {
    hide Progress, WriteFails, WriteKeeps, Kept, Carries, Aside, Marked, Find, Turn;
    AdvanceStep(e, f, g, start, buf, at, part, true);
    GentleKeeps(f, at, part, known, a);
  }

  /** So does a call whose every turn is gentle, whoever owns which block. */
  lemma GentleWrite(e: Engine, start: nat, buf: seq<Sector>, bad: int, dies: bool, turns: nat -> Writing)
    requires e.Valid() && Asks(e, start, |buf|) && Fits(start, |buf|)
    requires forall i :: 0 <= i < BlockCount(start, |buf|) ==> Gentle(start, |buf|, i, turns(i))
    ensures var (f, ret) := Write(e, start, buf, bad, dies, turns); ret != -1 ==> Kept(e, f, start, start + |buf|)
  {
    hide WriteTurns, WriteTurn, Turn, Kept, Gentle;
    LastTurn(start, |buf|);
    if Write(e, start, buf, bad, dies, turns).1 != -1 {
      GentleTurns(e, start, buf, bad, turns, BlockCount(start, |buf|));
    }
  }

  // Success.

  /** A turn that meets no trouble: its block is not known to be bad, and takes the write. */
  predicate Easy(start: nat, bad: int, i: nat, a: Writing) { !Known(bad, start, i) && a.direct.ok && a.rewrite.first.ok }

  lemma {:induction false} EasyTurns(e: Engine, start: nat, buf: seq<Sector>, bad: int, turns: nat -> Writing, k: nat)
    requires e.Valid() && Asks(e, start, |buf|) && k <= BlockCount(start, |buf|)
    requires forall i :: 0 <= i < k ==> Easy(start, bad, i, turns(i))
    ensures
      var (f, ret) := WriteTurns(e, start, buf, bad, turns, k);
      ret == 0 && f.num == e.num && f.bitmap == e.bitmap && f.dead == e.dead && |f.infos| == |e.infos|
    decreases k
  {
    hide Key, Addr, Known, BlockCount, Part, Turn, Rewrite, Find, Overlay;
    if k > 0 {
      EasyTurns(e, start, buf, bad, turns, k - 1);
      var f := WriteTurns(e, start, buf, bad, turns, k - 1).0;
      InTurn(start, |buf|, k - 1);
      assert Easy(start, bad, k - 1, turns(k - 1));
      EasyTurn(f, Key(start, k - 1), Addr(start, k - 1), Part(start, buf, k - 1), turns(k - 1));
    }
  }

  lemma EasyTurn(e: Engine, b: nat, at: nat, buf: seq<Sector>, a: Writing)
    requires e.Valid() && OneBlock(at, |buf|) && at + |buf| <= |e.user| && a.direct.ok && a.rewrite.first.ok
    ensures
      var (f, ret) := WriteTurn(e, b, at, buf, false, a);
      ret == 0 && f.num == e.num && f.bitmap == e.bitmap && f.dead == e.dead && |f.infos| == |e.infos|
  {
    hide Find;
    if Find(e.infos, b) >= 0 {
      RewriteFacts(e, e.infos[Find(e.infos, b)], at - Align(at), buf, a.rewrite);
    }
  }

  /** A live device that takes every write gives 0, and no entry and no reserved block is used. */
  lemma EasyWrite(e: Engine, start: nat, buf: seq<Sector>, bad: int, turns: nat -> Writing)
    requires e.Valid() && Asks(e, start, |buf|) && !e.dead
    requires forall i :: 0 <= i < BlockCount(start, |buf|) ==> Easy(start, bad, i, turns(i))
    ensures
      var (f, ret) := Write(e, start, buf, bad, false, turns);
      ret == 0 && f.num == e.num && f.bitmap == e.bitmap && f.dead == e.dead && |f.infos| == |e.infos|
  {
    hide WriteTurns, Easy;
    EasyTurns(e, start, buf, bad, turns, BlockCount(start, |buf|));
  }
}
