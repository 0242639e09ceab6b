/**
 The bookkeeping of the remapping engine (drivers/scsi/swap/core.c): info_num counts the entries, there are
 never more than 128 of them, and which of the device's answers make allocation and each turn fail.
 */
module SwapCounts {
  import opened Common
  import opened SwapView
  import opened SwapEngine
  import opened SwapTurns
  import opened SwapLoops
  import opened SwapReads
  import opened SwapRuns

  /** info_num is the number of entries, and within the limit. */
  predicate Counted(e: Engine) { e.num == |e.infos| <= 128 }

  /** Entries are only added, and at most one of them. */
  predicate Grown(e: Engine, f: Engine) { Counted(f) && |e.infos| <= |f.infos| <= |e.infos| + 1 }

  lemma WriteTurnCounts(e: Engine, b: nat, at: nat, buf: seq<Sector>, known: bool, a: Writing)
    requires e.Valid() && OneBlock(at, |buf|) && at + |buf| <= |e.user| && Counted(e)
    ensures Grown(e, WriteTurn(e, b, at, buf, known, a).0)
  {
    hide Find, Rewrite, Create, Pick, Gathered, Overlay;
    var k, off := Find(e.infos, b), at - Align(at);
    if k >= 0 {
      RewriteFacts(e, e.infos[k], off, buf, a.rewrite);
    } else {
      var f := if known then e else Stored(e, at, a.direct.Result(buf));
      var (g, made) := Create(f, at, |buf|, a.create);
      if made.Some? {
        RewriteFacts(g, made.value, off, buf, a.rewrite);
      }
    }
  }

  /** A turn of the read loop adds an entry exactly when it gives its block one. */
  lemma ReadTurnCounts(e: Engine, b: nat, at: nat, n: nat, known: bool, a: Reading)
    requires e.Valid() && OneBlock(at, n) && at + n <= |e.user| && Counted(e)
    ensures
      var (f, ret, data) := ReadTurn(e, b, at, n, known, a);
      Grown(e, f) && (f.num == e.num + 1 <==> ret == -DATA_MAY_DIRTY)
  {
    hide Find, Create, Pick, Gathered;
  }

  lemma {:induction false} WriteTurnsCount(e: Engine, start: nat, buf: seq<Sector>, bad: int, turns: nat -> Writing, k: nat)
    requires e.Valid() && Asks(e, start, |buf|) && k <= BlockCount(start, |buf|) && Counted(e)
    ensures var f := WriteTurns(e, start, buf, bad, turns, k).0; Counted(f) && |e.infos| <= |f.infos| <= |e.infos| + k
    decreases k
  {
    hide WriteTurns, WriteTurn, BlockCount, Key, Addr, Part, Known;
    NoWrite(e, start, buf, bad, turns);
    if k > 0 {
      WriteTurnsCount(e, start, buf, bad, turns, k - 1);
      WriteStops(e, start, buf, bad, turns, k - 1);
      NextWrite(e, start, buf, bad, turns, k - 1);
      var (f, ret) := WriteTurns(e, start, buf, bad, turns, k - 1);
      WriteTurnCounts(f, Key(start, k - 1), Addr(start, k - 1), Part(start, buf, k - 1), Known(bad, start, k - 1), turns(k - 1));
    }
  }

  lemma {:induction false} ReadTurnsCount(e: Engine, start: nat, count: nat, bad: int, turns: nat -> Reading, k: nat)
    requires e.Valid() && Asks(e, start, count) && k <= BlockCount(start, count) && Counted(e)
    ensures var f := ReadTurns(e, start, count, bad, turns, k).0; Counted(f) && |e.infos| <= |f.infos| <= |e.infos| + k
    decreases k
  {
    hide ReadTurns, ReadTurn, BlockCount, Key, Addr, Length, Known;
    NoRead(e, start, count, bad, turns);
    if k > 0 {
      ReadTurnsCount(e, start, count, bad, turns, k - 1);
      ReadStops(e, start, count, bad, turns, k - 1);
      NextRead(e, start, count, bad, turns, k - 1);
      var (f, ret, buf) := ReadTurns(e, start, count, bad, turns, k - 1);
      ReadTurnCounts(f, Key(start, k - 1), Addr(start, k - 1), Length(start, count, k - 1), Known(bad, start, k - 1), turns(k - 1));
    }
  }

  /** Whatever the request and the answers, beyond sector 2^32 too. */
  lemma WriteCounts(e: Engine, start: nat, buf: seq<Sector>, bad: int, dies: bool, turns: nat -> Writing)
    requires e.Valid() && Asks(e, start, |buf|) && Counted(e)
    ensures Counted(Write(e, start, buf, bad, dies, turns).0)
  {
    hide WriteTurns;
    WriteTurnsCount(e, start, buf, bad, turns, BlockCount(start, |buf|));
  }

  lemma ReadCounts(e: Engine, start: nat, count: nat, bad: int, dies: bool, turns: nat -> Reading)
    requires e.Valid() && Asks(e, start, count) && Counted(e)
    ensures Counted(Read(e, start, count, bad, dies, turns).0)
  {
    hide ReadTurns;
    ReadTurnsCount(e, start, count, bad, turns, BlockCount(start, count));
  }

  /** Over every run of calls from an engine that counts: info_num is the number of entries, at most 128. */
  lemma {:induction false} CallsCount(e: Engine, ops: seq<Op>)
    requires e.Valid() && Allowed(e, ops) && Counted(e)
    ensures var f := Calls(e, ops).0; f.num == |f.infos| <= 128
    decreases ops
  {
    hide Write, Read, Fits;
    if ops != [] {
      var op := ops[0];
      if op.Put? {
        WriteCounts(e, op.start, op.buf, op.bad, op.dies, op.writing);
      } else {
        ReadCounts(e, op.start, op.n, op.bad, op.dies, op.reading);
      }
      CallsCount(Call(e, op).0, ops[1..]);
    }
  }

  // When allocation finds a block.

  function Free(bitmap: seq<bool>): nat {
    if bitmap == [] then 0 else Free(bitmap[1..]) + if bitmap[0] then 0 else 1
  }

  lemma {:induction false} FreeAfter(bitmap: seq<bool>)
    ensures
      var j := FirstFree(bitmap);
      (j < 0 <==> Free(bitmap) == 0) && (j >= 0 ==> Free(bitmap[j := true]) == Free(bitmap) - 1)
    decreases bitmap
  {
    if bitmap != [] && bitmap[0] {
      FreeAfter(bitmap[1..]);
      var j := FirstFree(bitmap);
      if j >= 0 {
        assert bitmap[j := true][1..] == bitmap[1..][j - 1 := true];
      }
    } else if bitmap != [] {
      assert bitmap[0 := true][1..] == bitmap[1..];
    }
  }

  lemma {:induction false} PickFrom(bitmap: seq<bool>, tries: nat -> Put, errors: nat)
    requires errors <= 16
    ensures Pick(bitmap, tries, errors).1 >= 0 <==>
      exists i :: errors <= i <= 16 && tries(i).ok && Free(bitmap) > i - errors
    decreases 16 - errors
  {
    FreeAfter(bitmap);
    var j := FirstFree(bitmap);
    if j >= 0 && tries(errors).ok {
      assert Free(bitmap) > errors - errors;
    } else if j >= 0 && errors < 16 {
      PickFrom(bitmap[j := true], tries, errors + 1);
      PickOn(bitmap, tries, errors, Free(bitmap[j := true]));
    }
  }

  lemma PickOn(bitmap: seq<bool>, tries: nat -> Put, errors: nat, left: nat)
    requires errors < 16 && !tries(errors).ok && left + 1 == Free(bitmap)
    ensures (exists i :: errors + 1 <= i <= 16 && tries(i).ok && left > i - (errors + 1)) <==>
      (exists i :: errors <= i <= 16 && tries(i).ok && Free(bitmap) > i - errors)
  {
  }

  /**
   _swap_alloc_new_block finds a block if and only if one of the first seventeen tries succeeds while there
   are free blocks for all tries before it.
   */
  lemma PickIff(bitmap: seq<bool>, tries: nat -> Put)
    ensures Pick(bitmap, tries, 0).1 >= 0 <==> exists i :: 0 <= i <= 16 && tries(i).ok && Free(bitmap) > i
  {
    hide Pick;
    PickFrom(bitmap, tries, 0);
    if i :| 0 <= i <= 16 && tries(i).ok && Free(bitmap) > i - 0 {
      assert Free(bitmap) > i;
    }
    if i :| 0 <= i <= 16 && tries(i).ok && Free(bitmap) > i {
      assert Free(bitmap) > i - 0;
    }
  }

  lemma {:induction false} AllocKills(e: Engine, tries: nat -> Put, errors: nat)
    requires e.Valid() && errors <= 16
    ensures Alloc(e, tries, errors).0.dead <==>
      e.dead || (Free(e.bitmap) > 16 - errors && forall i :: errors <= i <= 16 ==> !tries(i).ok)
    decreases 16 - errors
  {
    hide Alloc, FirstFree, Pick, Took, Free;
    AllocStep(e, tries, errors);
    FreeAfter(e.bitmap);
    var j := FirstFree(e.bitmap);
    if j >= 0 && !tries(errors).ok && errors < 16 {
      var f := e.(blocks := e.blocks[j := tries(errors).Result(ZEROS)], bitmap := e.bitmap[j := true]);
      AllocKills(f, tries, errors + 1);
    }
  }

  /** The device is given up when seventeen free blocks in a row do not take a write. */
  lemma AllocGivesUp(e: Engine, tries: nat -> Put)
    requires e.Valid() && !e.dead
    ensures Alloc(e, tries, 0).0.dead <==> Free(e.bitmap) >= 17 && forall i :: 0 <= i <= 16 ==> !tries(i).ok
  {
    hide Alloc;
    AllocKills(e, tries, 0);
  }

  // When a turn fails, in terms of the state and the answers alone.

  /** A block with an entry: the first write fails, and so does moving the entry or writing it again. */
  lemma ListedFailsIff(e: Engine, b: nat, at: nat, buf: seq<Sector>, known: bool, a: Writing)
    requires e.Valid() && OneBlock(at, |buf|) && at + |buf| <= |e.user| && Find(e.infos, b) >= 0
    ensures
      var w := a.rewrite;
      WriteTurn(e, b, at, buf, known, a).1 == -1 <==>
        && !w.first.ok
        && !(&& e.num < 128 && (exists i :: 0 <= i <= 16 && w.tries(i).ok && Free(e.bitmap) > i)
             && w.flush.ok && w.headOk && w.second.ok)
  {
    hide WriteTurn, Find, Pick, Free;
    TurnFails(e, b, at, buf, known, a);
    PickIff(e.bitmap, a.rewrite.tries);
  }

  /** A block without: it is known to be bad or does not take the write, and no entry can be made or written. */
  lemma UnlistedFailsIff(e: Engine, b: nat, at: nat, buf: seq<Sector>, known: bool, a: Writing)
    requires e.Valid() && OneBlock(at, |buf|) && at + |buf| <= |e.user| && Find(e.infos, b) < 0
    ensures
      var c := a.create;
      WriteTurn(e, b, at, buf, known, a).1 == -1 <==>
        && (known || !a.direct.ok)
        && (|| e.dead || (!known && a.dies1) || !a.ready || a.dies2
            || e.num >= 128 || c.noMemory || !(exists i :: 0 <= i <= 16 && c.tries(i).ok && Free(e.bitmap) > i)
            || !c.headOk || !a.rewrite.first.ok)
  {
    hide WriteTurn, Find, Pick, Free;
    TurnFails(e, b, at, buf, known, a);
    PickIff(e.bitmap, a.create.tries);
  }

  lemma ReadTurnFailsIff(e: Engine, b: nat, at: nat, n: nat, known: bool, a: Reading)
    requires e.Valid() && OneBlock(at, n) && at + n <= |e.user|
    ensures
      var c := a.create;
      ReadTurn(e, b, at, n, known, a).1 == -1 <==>
        && Find(e.infos, b) < 0 && (known || !a.direct.ok)
        && (|| e.dead || (!known && a.dies1) || !a.ready || a.dies2
            || e.num >= 128 || c.noMemory || !(exists i :: 0 <= i <= 16 && c.tries(i).ok && Free(e.bitmap) > i)
            || !c.headOk || !a.flush.ok)
  {
    hide ReadTurn, Find, Pick, Free;
    ReadTurnFails(e, b, at, n, known, a);
    PickIff(e.bitmap, a.create.tries);
  }

  /** A unit that is not ready, or that another thread gave up on, is dead from then on, and no entry is made. */
  lemma NotReadyKills(e: Engine, b: nat, at: nat, buf: seq<Sector>, known: bool, a: Writing)
    requires e.Valid() && OneBlock(at, |buf|) && at + |buf| <= |e.user| && Find(e.infos, b) < 0 && (known || !a.direct.ok)
    ensures
      var f := WriteTurn(e, b, at, buf, known, a).0;
      (!known && a.dies1) || !a.ready || a.dies2 ==> f.dead && f.infos == e.infos && f.bitmap == e.bitmap
  {
    hide Find, WriteCreated;
  }

  // What a turn that fails leaves in use.

  /** swap_create that fails leaves no block marked but the bad ones it met. */
  lemma CreateLeaves(e: Engine, at: nat, n: nat, a: Creating)
    requires e.Valid() && OneBlock(at, n) && Create(e, at, n, a).1.None?
    ensures
      var f, (bits, j) := Create(e, at, n, a).0, Pick(e.bitmap, a.tries, 0);
      f.bitmap == if e.num >= 128 || a.noMemory then e.bitmap else if j < 0 then bits else bits[j := false]
  {
    hide Alloc, Pick, Gathered;
  }

  /** Nor does a read that cannot write its new entry. */
  lemma ReadLeaves(e: Engine, at: nat, n: nat, a: Creating, flush: Put)
    requires e.Valid() && OneBlock(at, n) && Create(e, at, n, a).1.Some? && !flush.ok
    ensures
      var f, (bits, j) := ReadCreated(e, at, n, a, flush).0, Pick(e.bitmap, a.tries, 0);
      f.bitmap == bits[j := false] && f.infos == e.infos && f.num == e.num
  {
    hide Create, Pick, Gathered;
  }

  /**
   Nor does a write whose new entry can neither be written nor moved. If it can be moved, the block it had
   first stays marked, with no entry to it.
   */
  lemma WriteLeaves(e: Engine, at: nat, buf: seq<Sector>, a: Creating, w: Rewriting)
    requires e.Valid() && OneBlock(at, |buf|) && CanCreate(e, a) && !w.first.ok
    ensures
      var f, (bits, j) := WriteCreated(e, at, buf, a, w).0, Pick(e.bitmap, a.tries, 0);
      var (more, k) := Pick(bits, w.tries, 0);
      && f.infos == e.infos && f.num == e.num
      && f.bitmap == (if k < 0 then more[j := false] else more[k := false]) && (k >= 0 ==> f.bitmap[j])
  {
    hide Create, Pick, Gathered, Rewrite, Overlay, Moved;
    var (g, made) := Create(e, at, |buf|, a);
    RewriteFacts(g, made.value, at - Align(at), buf, w);
    PickGrows(g.bitmap, w.tries, 0);
  }

  lemma {:induction false} PickGrows(bitmap: seq<bool>, tries: nat -> Put, errors: nat)
    requires errors <= 16
    ensures Grows(bitmap, Pick(bitmap, tries, errors).0)
    decreases 16 - errors
  {
    hide FirstFree;
    var j := FirstFree(bitmap);
    if j >= 0 && !tries(errors).ok && errors < 16 {
      PickGrows(bitmap[j := true], tries, errors + 1);
    }
  }
}
