/**
 The loop of scsi_swap_core_read (drivers/scsi/swap/core.c): when it fails, what it returns, and what a
 read that has to give blocks an entry does to the disk.
 */
module SwapReads {
  import opened Common
  import opened SwapView
  import opened SwapEngine
  import opened SwapTurns
  import opened SwapLoops

  lemma NoRead(e: Engine, start: nat, count: nat, bad: int, turns: nat -> Reading)
    requires e.Valid() && Asks(e, start, count)
    ensures ReadTurns(e, start, count, bad, turns, 0) == (e, 0, [])
  {
  }

  lemma ReadStops(e: Engine, start: nat, count: nat, bad: int, turns: nat -> Reading, k: nat)
    requires e.Valid() && Asks(e, start, count) && k < BlockCount(start, count)
    ensures ReadTurns(e, start, count, bad, turns, k).1 == -1 ==>
      ReadTurns(e, start, count, bad, turns, k + 1) == ReadTurns(e, start, count, bad, turns, k)
  {
    hide ReadTurn, Turn, Known, Key;
  }

  lemma NextRead(e: Engine, start: nat, count: nat, bad: int, turns: nat -> Reading, k: nat)
    requires e.Valid() && Asks(e, start, count) && k < BlockCount(start, count)
    ensures OneBlock(Addr(start, k), Length(start, count, k)) && Addr(start, k) + Length(start, count, k) <= |e.user|
    ensures
      var (f, ret, buf) := ReadTurns(e, start, count, bad, turns, k);
      ret != -1 ==>
        var (g, r, data) := ReadTurn(f, Key(start, k), Addr(start, k), Length(start, count, k), Known(bad, start, k), turns(k));
        ReadTurns(e, start, count, bad, turns, k + 1) ==
          if r == -1 then (g, -1, buf) else (g, if r == 0 then ret else r, buf + data)
  {
    hide ReadTurn, Known, Key, Turn;
    InTurn(start, count, k);
  }

  lemma {:induction false} ReadEnds(e: Engine, start: nat, count: nat, bad: int, turns: nat -> Reading, j: nat, k: nat)
    requires e.Valid() && Asks(e, start, count) && j <= k <= BlockCount(start, count)
    requires ReadTurns(e, start, count, bad, turns, j).1 == -1
    ensures ReadTurns(e, start, count, bad, turns, k) == ReadTurns(e, start, count, bad, turns, j)
    decreases k
  {
    hide ReadTurns, BlockCount;
    if j < k {
      ReadEnds(e, start, count, bad, turns, j, k - 1);
      ReadStops(e, start, count, bad, turns, k - 1);
    }
  }

  // Failure.

  lemma ReadTurnFails(e: Engine, b: nat, at: nat, n: nat, known: bool, a: Reading)
    requires e.Valid() && OneBlock(at, n) && at + n <= |e.user|
    ensures ReadTurn(e, b, at, n, known, a).1 == -1 <==> ReadFails(e, b, known, a)
  {
    hide Find, Create, Pick;
  }

  predicate ReadFailsAt(e: Engine, start: nat, count: nat, bad: int, turns: nat -> Reading, i: nat)
    requires e.Valid() && Asks(e, start, count) && i < BlockCount(start, count)
  {
    var (f, ret, buf) := ReadTurns(e, start, count, bad, turns, i);
    ret != -1 && ReadFails(f, Key(start, i), Known(bad, start, i), turns(i))
  }

  lemma {:induction false} ReadTurnsFail(e: Engine, start: nat, count: nat, bad: int, turns: nat -> Reading, k: nat)
    requires e.Valid() && Asks(e, start, count) && k <= BlockCount(start, count)
    ensures ReadTurns(e, start, count, bad, turns, k).1 == -1 <==> exists i :: 0 <= i < k && ReadFailsAt(e, start, count, bad, turns, i)
    decreases k
  {
    hide ReadTurn, ReadFails, Key, Addr, Known, BlockCount, Length;
    if k > 0 {
      ReadTurnsFail(e, start, count, bad, turns, k - 1);
      InTurn(start, count, k - 1);
      var (f, ret, buf) := ReadTurns(e, start, count, bad, turns, k - 1);
      ReadTurnFails(f, Key(start, k - 1), Addr(start, k - 1), Length(start, count, k - 1), Known(bad, start, k - 1), turns(k - 1));
      if ret != -1 && ReadFailsAt(e, start, count, bad, turns, k - 1) {
        assert 0 <= k - 1 < k;
      }
    }
  }

  /** scsi_swap_core_read returns -1 if and only if the device is dead or a turn fails. */
  lemma ReadFailsIff(e: Engine, start: nat, count: nat, bad: int, dies: bool, turns: nat -> Reading)
    requires e.Valid() && Asks(e, start, count)
    ensures Read(e, start, count, bad, dies, turns).1 == -1 <==>
      e.dead || dies || exists i :: 0 <= i < BlockCount(start, count) && ReadFailsAt(e, start, count, bad, turns, i)
  {
    hide ReadTurns, ReadFailsAt;
    ReadTurnsFail(e, start, count, bad, turns, BlockCount(start, count));
  }

  // What is read.

  /** Turn k from the state the turns before it left. */
  lemma OneRead(e: Engine, start: nat, count: nat, bad: int, turns: nat -> Reading, k: nat)
    returns (f: Engine, g: Engine, at: nat, n: nat, ret: int, data: seq<Sector>)
    requires e.Valid() && Asks(e, start, count) && Fits(start, count) && k < BlockCount(start, count)
    requires ReadTurns(e, start, count, bad, turns, k).1 != -1
    ensures at == Turn(start, count, k) && n == Length(start, count, k) && at + n == Turn(start, count, k + 1)
    ensures OneBlock(at, n) && start <= at && at + n <= start + count && (at == start || at % BLOCK == 0)
    ensures Align(at) == (start / BLOCK + k) * BLOCK && (start / BLOCK + (k + 1)) * BLOCK == Align(at) + BLOCK
    ensures f == ReadTurns(e, start, count, bad, turns, k).0 && f.Valid() && at + n <= |f.user|
    ensures ReadTurned(f, at, n, Known(bad, start, k), turns(k), g, ret, data) && g.Valid() && g.user == f.user
    ensures (g, ret, data) == ReadTurn(f, Align(at), at, n, Known(bad, start, k), turns(k))
    ensures
      var (_, was, buf) := ReadTurns(e, start, count, bad, turns, k);
      ReadTurns(e, start, count, bad, turns, k + 1) ==
        if ret == -1 then (g, -1, buf) else (g, if ret == 0 then was else ret, buf + data)
  {
    hide ReadTurns, ReadTurn, Known, ReadTurned, BlockCount, Key, Turn, Addr, Align, OneBlock;
    TurnShape(start, count, k);
    NextRead(e, start, count, bad, turns, k);
    f, at, n := ReadTurns(e, start, count, bad, turns, k).0, Turn(start, count, k), Length(start, count, k);
    var r := ReadTurn(f, Align(at), at, n, Known(bad, start, k), turns(k));
    g, ret, data := r.0, r.1, r.2;
    ReadTurnFacts(f, at, n, Known(bad, start, k), turns(k));
  }

  /** Turn i gives its block an entry. */
  predicate RemapsAt(e: Engine, start: nat, bad: int, turns: nat -> Reading, i: nat) {
    Remaps(e, (start / BLOCK + i) * BLOCK, Known(bad, start, i), turns(i))
  }

  /** What turn i returns: zeros if it gives its block an entry, else what the disk showed. */
  ghost predicate Delivers(e: Engine, start: nat, count: nat, bad: int, turns: nat -> Reading, i: nat, buf: seq<Sector>) {
    var at, to := Turn(start, count, i), Turn(start, count, i + 1);
    && start <= at <= to <= start + |buf|
    && if RemapsAt(e, start, bad, turns, i) then buf[at - start..to - start] == seq(to - at, i => 0)
       else Carries(e, at, buf[at - start..to - start])
  }

  ghost predicate ReadAdvanced(e: Engine, f: Engine, start: nat, count: nat, buf: seq<Sector>, k: nat) {
    && |buf| == Turn(start, count, k) - start && f.dead == e.dead
    && Progress(e.user, e.infos, f.user, f.infos, start, buf, start + |buf|, (start / BLOCK + k) * BLOCK)
  }

  lemma {:induction false} ReadAdvances(e: Engine, start: nat, count: nat, bad: int, turns: nat -> Reading, k: nat)
    requires e.Valid() && Asks(e, start, count) && Fits(start, count) && k <= BlockCount(start, count)
    ensures
      var (f, ret, buf) := ReadTurns(e, start, count, bad, turns, k);
      && (ret == -1 ==> Untouched(e, f, start, count))
      && (ret != -1 ==> ReadAdvanced(e, f, start, count, buf, k) && f.user == e.user)
    decreases k
  {
    hide ReadTurns, ReadTurn, Turn, BlockCount, Progress, Untouched, Align, ReadTurned, Key, Known, OneBlock;
    NoRead(e, start, count, bad, turns);
    if k == 0 {
      FirstTurn(start, count);
      ProgressStarts(e.user, e.infos, start, []);
    } else {
      ReadAdvances(e, start, count, bad, turns, k - 1);
      ReadStops(e, start, count, bad, turns, k - 1);
      var (_, was, buf) := ReadTurns(e, start, count, bad, turns, k - 1);
      if was != -1 {
        var f, g, at, n, ret, data := OneRead(e, start, count, bad, turns, k - 1);
        ReadStep(e, f, g, start, count, buf, at, n, data, Known(bad, start, k - 1), turns(k - 1), ret);
      }
    }
  }

  lemma ReadStep(e: Engine, f: Engine, g: Engine, start: nat, count: nat, buf: seq<Sector>, at: nat, n: nat, data: seq<Sector>,
                 known: bool, a: Reading, ret: int)
    requires f.Valid() && at == start + |buf| && Progress(e.user, e.infos, f.user, f.infos, start, buf, at, Align(at))
    requires OneBlock(at, n) && at + n <= start + count <= |f.user| && (at == start || at % BLOCK == 0)
    requires ReadTurned(f, at, n, known, a, g, ret, data)
    ensures ret == -1 ==> Untouched(e, g, start, count)
    ensures ret != -1 ==>
      && |data| == n && Progress(e.user, e.infos, g.user, g.infos, start, buf + data, at + n, Align(at) + BLOCK) && g.dead == f.dead
      && (Kept(e, g, start, at + n) <==> Kept(e, f, start, at) && Kept(f, g, at, at + n))
  {
    hide Seen, Entry, Align, ReadFails, Find;
    if ret == -1 {
      ApartLooksSame(f.user, f.infos, g.user, g.infos, Align(at));
      OnlyBlocks(e.user, e.infos, f.user, f.infos, g.user, g.infos, start, at);
      UnderTop(start, count, at);
      Widen(e.user, e.infos, g.user, g.infos, Align(start), Align(at) + BLOCK, Top(start, count));
    } else {
      var all := buf + data;
      assert all[..at - start] == buf[..at - start] && all[at - start..at - start + n] == data;
      AdvanceStep(e, f, g, start, all, at, data, true);
    }
  }

  lemma RemapsAhead(e: Engine, f: Engine, b: nat, known: bool, a: Reading)
    requires e.Valid() && f.Valid() && Ahead(e.user, e.infos, f.user, f.infos, b)
    ensures Remaps(f, b, known, a) <==> Remaps(e, b, known, a)
  {
    hide Find;
    assert Entry(f.infos, b) == Entry(e.infos, b);
  }

  lemma CarriesAhead(e: Engine, f: Engine, at: nat, data: seq<Sector>)
    requires Ahead(e.user, e.infos, f.user, f.infos, Align(at)) && Carries(f, at, data)
    ensures Carries(e, at, data)
  {
    hide Find, Entry;
    forall s | at <= s < at + |data| ensures Seen(e.user, e.infos, s) == data[s - at] {
      assert Seen(f.user, f.infos, s) == data[s - at];
      assert Align(at) <= Align(s);
    }
  }

  /** Turn by turn: what is delivered, what is kept, and whether anything is given an entry. */
  lemma {:induction false} ReadDelivers(e: Engine, start: nat, count: nat, bad: int, turns: nat -> Reading, k: nat)
    requires e.Valid() && Asks(e, start, count) && Fits(start, count) && k <= BlockCount(start, count)
    requires ReadTurns(e, start, count, bad, turns, k).1 != -1
    ensures
      var (f, ret, buf) := ReadTurns(e, start, count, bad, turns, k);
      && (ret == 0 <==> forall i :: 0 <= i < k ==> !RemapsAt(e, start, bad, turns, i)) && (ret == 0 ==> f == e)
      && forall i :: 0 <= i < k ==> Delivers(e, start, count, bad, turns, i, buf)
    decreases k
  {
    hide ReadTurns, ReadTurn, Turn, BlockCount, Progress, Align, ReadTurned, Key, Known, OneBlock, RemapsAt, Delivers;
    NoRead(e, start, count, bad, turns);
    if k > 0 {
      ReadStops(e, start, count, bad, turns, k - 1);
      ReadDelivers(e, start, count, bad, turns, k - 1);
      ReadAdvances(e, start, count, bad, turns, k - 1);
      var (_, was, buf) := ReadTurns(e, start, count, bad, turns, k - 1);
      var f, g, at, n, ret, data := OneRead(e, start, count, bad, turns, k - 1);
      ReadStep(e, f, g, start, count, buf, at, n, data, Known(bad, start, k - 1), turns(k - 1), ret);
      DeliverStep(e, f, g, start, count, bad, turns, k - 1, buf, at, n, data, ret);
      forall i | 0 <= i < k - 1 ensures Delivers(e, start, count, bad, turns, i, buf + data) {
        DeliverMore(e, start, count, bad, turns, i, buf, data);
      }
    }
  }

  lemma DeliverMore(e: Engine, start: nat, count: nat, bad: int, turns: nat -> Reading, i: nat, buf: seq<Sector>, data: seq<Sector>)
    requires Delivers(e, start, count, bad, turns, i, buf)
    ensures Delivers(e, start, count, bad, turns, i, buf + data)
  {
    hide Turn, RemapsAt, Carries;
    var at, to := Turn(start, count, i), Turn(start, count, i + 1);
    assert (buf + data)[at - start..to - start] == buf[at - start..to - start];
  }

  lemma DeliverStep(e: Engine, f: Engine, g: Engine, start: nat, count: nat, bad: int, turns: nat -> Reading, i: nat,
                    buf: seq<Sector>, at: nat, n: nat, data: seq<Sector>, ret: int)
    requires e.Valid() && f.Valid() && ret != -1 && at == start + |buf| == Turn(start, count, i) && at + n == Turn(start, count, i + 1)
    requires Progress(e.user, e.infos, f.user, f.infos, start, buf, at, Align(at)) && Align(at) == (start / BLOCK + i) * BLOCK
    requires OneBlock(at, n) && ReadTurned(f, at, n, Known(bad, start, i), turns(i), g, ret, data)
    ensures Delivers(e, start, count, bad, turns, i, buf + data)
    ensures ret == (if RemapsAt(e, start, bad, turns, i) then -DATA_MAY_DIRTY else 0) && (ret == 0 ==> g == f)
  {
    hide Turn, Known, Find, Carries, Align, Aside, Kept, ReadFails, CreateKeeps;
    assert (buf + data)[at - start..at + n - start] == data;
    ProgressAhead(e, f, start, buf, at);
    RemapsAhead(e, f, Align(at), Known(bad, start, i), turns(i));
    if ret == 0 {
      CarriesAhead(e, f, at, data);
    }
  }

  /**
   Every read that ends by sector 2^32: only blocks of the request are touched; unless -1 it returns, turn
   by turn, what the disk showed, or zeros where it had to give the block an entry, and that is what the
   disk then shows; and 0 means that no block was, and nothing changed at all.
   */
  lemma ReadShows(e: Engine, start: nat, count: nat, bad: int, dies: bool, turns: nat -> Reading)
    requires e.Valid() && Asks(e, start, count) && Fits(start, count)
    ensures
      var (f, ret, buf) := Read(e, start, count, bad, dies, turns);
      && Untouched(e, f, start, count)
      && (ret != -1 ==>
            && |buf| == count && Carries(f, start, buf) && f.dead == e.dead
            && (ret == 0 <==> forall i :: 0 <= i < BlockCount(start, count) ==> !RemapsAt(e, start, bad, turns, i))
            && (ret == 0 ==> f == e)
            && forall i :: 0 <= i < BlockCount(start, count) ==> Delivers(e, start, count, bad, turns, i, buf))
  {
    hide ReadTurns, ReadTurn, Turn, BlockCount, Progress, Touches, Align, Seen, Holds, SameOutside, RemapsAt, Delivers;
    Unchanged(e.user, e.infos, start, count);
    ReadAdvances(e, start, count, bad, turns, BlockCount(start, count));
    LastTurn(start, count);
    var (f, ret, buf) := Read(e, start, count, bad, dies, turns);
    if ret != -1 {
      ReadDelivers(e, start, count, bad, turns, BlockCount(start, count));
      ProgressEnds(e.user, e.infos, f.user, f.infos, start, buf);
    }
  }

  // When everything else is kept.

  predicate ReadKeepsAt(e: Engine, start: nat, count: nat, bad: int, turns: nat -> Reading, i: nat)
    requires count > 0 && i < BlockCount(start, count) && Fits(start, count)
  {
    TurnAddress(start, count, i);
    InTurn(start, count, i);
    RemapsAt(e, start, bad, turns, i) ==> CreateKeeps(e.user, Turn(start, count, i), Length(start, count, i), turns(i).create)
  }

  lemma {:induction false} ReadTurnsKeepIff(e: Engine, start: nat, count: nat, bad: int, turns: nat -> Reading, k: nat)
    requires e.Valid() && Asks(e, start, count) && Fits(start, count) && k <= BlockCount(start, count)
    requires ReadTurns(e, start, count, bad, turns, k).1 != -1
    ensures Kept(e, ReadTurns(e, start, count, bad, turns, k).0, start, Turn(start, count, k)) <==>
      forall i :: 0 <= i < k ==> ReadKeepsAt(e, start, count, bad, turns, i)
    decreases k
  {
    hide ReadTurns, ReadTurn, Turn, BlockCount, Progress, Align, ReadTurned, Key, Known, OneBlock, RemapsAt, CreateKeeps, Kept;
    NoRead(e, start, count, bad, turns);
    if k == 0 {
      FirstTurn(start, count);
      NothingKept(e, start, start);
    } else {
      ReadStops(e, start, count, bad, turns, k - 1);
      ReadTurnsKeepIff(e, start, count, bad, turns, k - 1);
      ReadAdvances(e, start, count, bad, turns, k - 1);
      var (_, was, buf) := ReadTurns(e, start, count, bad, turns, k - 1);
      var f, g, at, n, ret, data := OneRead(e, start, count, bad, turns, k - 1);
      ReadKeepStep(e, f, g, start, count, bad, turns, k - 1, buf, at, n, data, ret);
      LastRead(e, start, count, bad, turns, k);
    }
  }

  lemma ReadKeepStep(e: Engine, f: Engine, g: Engine, start: nat, count: nat, bad: int, turns: nat -> Reading, i: nat,
                     buf: seq<Sector>, at: nat, n: nat, data: seq<Sector>, ret: int)
    requires e.Valid() && f.Valid() && ret != -1 && f.user == e.user && at == start + |buf|
    requires Progress(e.user, e.infos, f.user, f.infos, start, buf, at, Align(at)) && Align(at) == (start / BLOCK + i) * BLOCK
    requires OneBlock(at, n) && at + n <= start + count <= |f.user| && (at == start || at % BLOCK == 0)
    requires ReadTurned(f, at, n, Known(bad, start, i), turns(i), g, ret, data)
    ensures Kept(e, g, start, at + n) <==>
      Kept(e, f, start, at) && (RemapsAt(e, start, bad, turns, i) ==> CreateKeeps(e.user, at, n, turns(i).create))
  {
    hide Known, Find, Carries, Align, Aside, Kept, ReadFails, CreateKeeps, Progress, OneBlock;
    ReadStep(e, f, g, start, count, buf, at, n, data, Known(bad, start, i), turns(i), ret);
    ProgressAhead(e, f, start, buf, at);
    RemapsAhead(e, f, Align(at), Known(bad, start, i), turns(i));
    NothingKept(f, at, at + n);
  }

  lemma LastRead(e: Engine, start: nat, count: nat, bad: int, turns: nat -> Reading, k: nat)
    requires count > 0 && 0 < k <= BlockCount(start, count) && Fits(start, count)
    ensures (forall i :: 0 <= i < k ==> ReadKeepsAt(e, start, count, bad, turns, i)) <==>
      (forall i :: 0 <= i < k - 1 ==> ReadKeepsAt(e, start, count, bad, turns, i)) && ReadKeepsAt(e, start, count, bad, turns, k - 1)
  {
    hide ReadKeepsAt;
  }

  /** A read that does not fail leaves all other sectors alone if and only if each turn does. */
  lemma ReadKeepsIff(e: Engine, start: nat, count: nat, bad: int, dies: bool, turns: nat -> Reading)
    requires e.Valid() && Asks(e, start, count) && Fits(start, count)
    ensures
      var (f, ret, buf) := Read(e, start, count, bad, dies, turns);
      ret != -1 ==>
        (Kept(e, f, start, start + count) <==>
           forall i :: 0 <= i < BlockCount(start, count) ==> ReadKeepsAt(e, start, count, bad, turns, i))
  {
    hide ReadTurns, ReadTurn, Turn, Kept, ReadKeepsAt;
    LastTurn(start, count);
    if Read(e, start, count, bad, dies, turns).1 != -1 {
      ReadTurnsKeepIff(e, start, count, bad, turns, BlockCount(start, count));
    }
  }

  lemma {:induction false} ReadTidy(e: Engine, start: nat, count: nat, bad: int, turns: nat -> Reading, k: nat)
    requires e.Valid() && Asks(e, start, count) && Fits(start, count) && k <= BlockCount(start, count) && Tidy(e)
    ensures Tidy(ReadTurns(e, start, count, bad, turns, k).0)
    decreases k
  {
    hide ReadTurns, ReadTurn, Turn, BlockCount, Align, ReadTurned, Key, Known, Tidy;
    NoRead(e, start, count, bad, turns);
    if k > 0 {
      ReadStops(e, start, count, bad, turns, k - 1);
      ReadTidy(e, start, count, bad, turns, k - 1);
      if ReadTurns(e, start, count, bad, turns, k - 1).1 != -1 {
        var f, g, at, n, ret, data := OneRead(e, start, count, bad, turns, k - 1);
        ReadTurnTidy(f, at, n, Known(bad, start, k - 1), turns(k - 1));
      }
    }
  }
}
