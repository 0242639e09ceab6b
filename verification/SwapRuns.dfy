/**
 The remapping engine (drivers/scsi/swap/core.c) over several calls: what any number of reads and
 writes amounts to, and the runs in which it loses data.
 */
module SwapRuns {
  import opened Common
  import opened SwapView
  import opened SwapEngine
  import opened SwapTurns
  import opened SwapLoops
  import opened SwapReads

  // A plain disk.

  /** The sectors as readers see them, and the blocks that have been given up. */
  datatype Disk = Disk(sectors: seq<Sector>, mapped: set<nat>)

  function Mapped(infos: seq<Info>): set<nat> { set k | 0 <= k < |infos| :: infos[k].src }

  ghost function View(e: Engine): (d: Disk)
    requires e.Valid()
    ensures |d.sectors| == |e.user|
  {
    Disk(seq(|e.user|, (s: nat) requires e.Valid() && s < |e.user| => Seen(e.user, e.infos, s)), Mapped(e.infos))
  }

  datatype Op =
    | Put(start: nat, buf: seq<Sector>, bad: int, dies: bool, writing: nat -> Writing)
    | Fetch(start: nat, n: nat, bad: int, dies: bool, reading: nat -> Reading)
  {
    function Count(): nat { if Put? then |buf| else n }

    predicate Ok(e: Engine) { Asks(e, start, Count()) && Fits(start, Count()) }

    function Turns(): nat { BlockCount(start, Count()) }

    /** Turn i finds its block bad, or is told so. */
    predicate Struck(i: nat) {
      Known(bad, start, i) || if Put? then !writing(i).direct.ok else !reading(i).direct.ok
    }

    /** The answers by themselves promise that sectors around those asked for are kept. */
    predicate Calm() {
      forall i :: 0 <= i < Turns() ==> if Put? then Gentle(start, |buf|, i, writing(i)) else GentleRead(start, n, i, reading(i))
    }

    /** Nothing goes wrong at all. */
    predicate Plain() {
      !dies && forall i :: 0 <= i < Turns() ==> !Struck(i) && (Put? ==> writing(i).rewrite.first.ok)
    }
  }

  predicate GentleRead(start: nat, count: nat, i: nat, a: Reading) {
    var at, n := Turn(start, count, i), Length(start, count, i);
    (at == Align(at) || a.create.front.ok) && (at - Align(at) + n == BLOCK || a.create.back.ok)
  }

  /** The blocks found bad in the first k turns. */
  function Hits(op: Op, k: nat): set<nat> {
    if k == 0 then {} else Hits(op, k - 1) + if op.Struck(k - 1) then {(op.start / BLOCK + (k - 1)) * BLOCK} else {}
  }

  /** A write stores its data; a read loses the sectors it asks for in blocks that are now given up. */
  function After(d: Disk, op: Op): Disk
    requires op.start + op.Count() <= |d.sectors|
  {
    var sectors :=
      if op.Put? then Overlay(d.sectors, op.start, op.buf)
      else seq(|d.sectors|, (s: nat) requires s < |d.sectors| => if Loses(d, op, s) then 0 else d.sectors[s]);
    Disk(sectors, d.mapped + Hits(op, op.Turns()))
  }

  predicate Loses(d: Disk, op: Op, s: nat) {
    op.start <= s < op.start + op.Count() && Align(s) !in d.mapped && op.Struck(s / BLOCK - op.start / BLOCK)
  }

  datatype Reply = Reply(ret: int, data: seq<Sector>)

  function Call(e: Engine, op: Op): (r: (Engine, Reply))
    requires e.Valid() && op.Ok(e)
    ensures r.0.Valid() && |r.0.user| == |e.user|
  {
    match op
    case Put(start, buf, bad, dies, writing) => var (f, ret) := Write(e, start, buf, bad, dies, writing); (f, Reply(ret, []))
    case Fetch(start, n, bad, dies, reading) => var (f, ret, data) := Read(e, start, n, bad, dies, reading); (f, Reply(ret, data))
  }

  lemma MappedFind(infos: seq<Info>, b: nat)
    ensures b in Mapped(infos) <==> Find(infos, b) >= 0
  {
    if Find(infos, b) >= 0 {
      assert infos[Find(infos, b)].src == b;
    }
  }

  /** A turn maps its own block, or none. */
  lemma MappedStep(e: Engine, f: Engine, b: nat, hit: bool)
    requires Aside(e, f, b) && (Find(f.infos, b) >= 0 <==> Find(e.infos, b) >= 0 || hit)
    ensures Mapped(f.infos) == Mapped(e.infos) + if hit then {b} else {}
  {
    var all := Mapped(e.infos) + if hit then {b} else {};
    forall c: nat ensures c in Mapped(f.infos) <==> c in all {
      MappedFind(e.infos, c);
      MappedFind(f.infos, c);
      assert c != b ==> Entry(f.infos, c) == Entry(e.infos, c);
    }
    assert forall c :: c in Mapped(f.infos) <==> c in all;
  }

  lemma {:induction false} WriteMaps(e: Engine, op: Op, k: nat)
    requires e.Valid() && op.Put? && op.Ok(e) && k <= op.Turns()
    requires WriteTurns(e, op.start, op.buf, op.bad, op.writing, k).1 != -1
    ensures Mapped(WriteTurns(e, op.start, op.buf, op.bad, op.writing, k).0.infos) == Mapped(e.infos) + Hits(op, k)
    decreases k
  {
    hide WriteTurns, WriteTurn, Turn, BlockCount, Known, Key, Align, Mapped, WriteTurned, OneBlock, Fits;
    NoWrite(e, op.start, op.buf, op.bad, op.writing);
    if k > 0 {
      WriteStops(e, op.start, op.buf, op.bad, op.writing, k - 1);
      WriteMaps(e, op, k - 1);
      var f, g, at, part, ret := OneTurn(e, op.start, op.buf, op.bad, op.writing, k - 1);
      WriteMapsStep(f, g, at, part, Known(op.bad, op.start, k - 1), op.writing(k - 1), ret);
    }
  }

  lemma WriteMapsStep(f: Engine, g: Engine, at: nat, part: seq<Sector>, known: bool, a: Writing, ret: int)
    requires f.Valid() && OneBlock(at, |part|) && ret != -1 && WriteTurned(f, at, part, known, a, g, ret)
    ensures Mapped(g.infos) == Mapped(f.infos) + if known || !a.direct.ok then {Align(at)} else {}
  {
    hide Mapped, Find, Carries, Kept, Aside, WriteFails, WriteKeeps, Marked;
    MappedStep(f, g, Align(at), known || !a.direct.ok);
  }

  lemma {:induction false} ReadMaps(e: Engine, op: Op, k: nat)
    requires e.Valid() && op.Fetch? && op.Ok(e) && k <= op.Turns()
    requires ReadTurns(e, op.start, op.n, op.bad, op.reading, k).1 != -1
    ensures Mapped(ReadTurns(e, op.start, op.n, op.bad, op.reading, k).0.infos) == Mapped(e.infos) + Hits(op, k)
    decreases k
  {
    hide ReadTurns, ReadTurn, Turn, BlockCount, Known, Key, Align, Mapped, ReadTurned, OneBlock, Fits;
    NoRead(e, op.start, op.n, op.bad, op.reading);
    if k > 0 {
      ReadStops(e, op.start, op.n, op.bad, op.reading, k - 1);
      ReadMaps(e, op, k - 1);
      var f, g, at, n, ret, data := OneRead(e, op.start, op.n, op.bad, op.reading, k - 1);
      ReadMapsStep(f, g, at, n, Known(op.bad, op.start, k - 1), op.reading(k - 1), ret, data);
    }
  }

  lemma ReadMapsStep(f: Engine, g: Engine, at: nat, n: nat, known: bool, a: Reading, ret: int, data: seq<Sector>)
    requires f.Valid() && OneBlock(at, n) && ret != -1 && ReadTurned(f, at, n, known, a, g, ret, data)
    ensures Mapped(g.infos) == Mapped(f.infos) + if known || !a.direct.ok then {Align(at)} else {}
  {
    hide Mapped, Find, Carries, Kept, Aside, ReadFails, CreateKeeps;
    MappedStep(f, g, Align(at), known || !a.direct.ok);
  }

  // One call.

  lemma SeenIn(e: Engine, at: nat, data: seq<Sector>)
    requires e.Valid() && Carries(e, at, data)
    ensures View(e).sectors[at..at + |data|] == data
  {
    forall i | 0 <= i < |data| ensures View(e).sectors[at..at + |data|][i] == data[i] {
      assert Seen(e.user, e.infos, at + i) == data[at + i - at];
    }
  }

  lemma WrittenView(e: Engine, f: Engine, at: nat, data: seq<Sector>)
    requires e.Valid() && f.Valid() && Carries(f, at, data) && Kept(e, f, at, at + |data|)
    ensures View(f).sectors == Overlay(View(e).sectors, at, data)
  {
    hide Seen;
    var now := Overlay(View(e).sectors, at, data);
    forall s | 0 <= s < |e.user| ensures View(f).sectors[s] == now[s] {
      if at <= s < at + |data| {
        assert Seen(f.user, f.infos, s) == data[s - at];
      } else {
        assert Seen(f.user, f.infos, s) == Seen(e.user, e.infos, s);
      }
    }
  }

  /** The turn a sector falls into. */
  lemma TurnOf(start: nat, count: nat, s: nat)
    requires count > 0 && start <= s < start + count
    ensures
      var i := s / BLOCK - start / BLOCK;
      && 0 <= i < BlockCount(start, count) && Turn(start, count, i) <= s < Turn(start, count, i + 1)
      && Align(s) == (start / BLOCK + i) * BLOCK
  {
    var q, i := start / BLOCK, s / BLOCK - start / BLOCK;
    assert (q + i) * BLOCK == Align(s) && (q + i + 1) * BLOCK == Align(s) + BLOCK;
    CountReaches(start, count, i);
  }

  lemma CountReaches(start: nat, count: nat, i: nat)
    requires (start / BLOCK + i) * BLOCK < start + count
    ensures i < BlockCount(start, count)
  {
    var n, q := start + count - Align(start), start / BLOCK;
    assert (q + i) * BLOCK == q * BLOCK + i * BLOCK;
    assert i * BLOCK < n;
  }

  /** What a read returns is what the plain disk holds after it. */
  lemma ReadData(e: Engine, op: Op, data: seq<Sector>, s: nat)
    requires e.Valid() && op.Fetch? && op.Ok(e) && |data| == op.n && op.start <= s < op.start + op.n
    requires forall i :: 0 <= i < op.Turns() ==> Delivers(e, op.start, op.n, op.bad, op.reading, i, data)
    ensures data[s - op.start] == if Loses(View(e), op, s) then 0 else View(e).sectors[s]
  {
    hide BlockCount, Turn, Known, Find, Delivers;
    TurnOf(op.start, op.n, s);
    var i := s / BLOCK - op.start / BLOCK;
    assert Delivers(e, op.start, op.n, op.bad, op.reading, i, data);
    MappedFind(e.infos, Align(s));
    TurnData(e, op, data, i, s);
  }

  lemma TurnData(e: Engine, op: Op, data: seq<Sector>, i: nat, s: nat)
    requires e.Valid() && op.Fetch? && op.Ok(e) && op.start <= s && Turn(op.start, op.n, i) <= s < Turn(op.start, op.n, i + 1)
    requires Delivers(e, op.start, op.n, op.bad, op.reading, i, data) && s < |e.user| && s - op.start < |data|
    ensures data[s - op.start] == if RemapsAt(e, op.start, op.bad, op.reading, i) then 0 else View(e).sectors[s]
  {
    hide Turn, RemapsAt, Seen;
    var at, to := Turn(op.start, op.n, i), Turn(op.start, op.n, i + 1);
    var part := data[at - op.start..to - op.start];
    assert data[s - op.start] == part[s - at];
    if !RemapsAt(e, op.start, op.bad, op.reading, i) {
      assert Seen(e.user, e.infos, s) == part[s - at];
    }
  }

  lemma ReadView(e: Engine, op: Op, f: Engine, data: seq<Sector>)
    requires e.Valid() && f.Valid() && op.Fetch? && op.Ok(e) && |data| == op.n
    requires Carries(f, op.start, data) && Kept(e, f, op.start, op.start + op.n)
    requires forall i :: 0 <= i < op.Turns() ==> Delivers(e, op.start, op.n, op.bad, op.reading, i, data)
    ensures View(f).sectors == After(View(e), op).sectors
  {
    hide Delivers, BlockCount, Hits, View, Loses;
    WrittenView(e, f, op.start, data);
    forall s | 0 <= s < |View(e).sectors| ensures View(f).sectors[s] == After(View(e), op).sectors[s] {
      if op.start <= s < op.start + op.n {
        ReadData(e, op, data, s);
      } else {
        OutsideStays(View(e), op, s);
      }
    }
  }

  lemma OutsideStays(d: Disk, op: Op, s: nat)
    requires !(op.start <= s < op.start + op.Count())
    ensures !Loses(d, op, s)
  {
  }

  lemma CalmRead(e: Engine, op: Op)
    requires e.Valid() && op.Fetch? && op.Ok(e) && op.Calm()
    ensures forall i :: 0 <= i < op.Turns() ==> ReadKeepsAt(e, op.start, op.n, op.bad, op.reading, i)
  {
    hide BlockCount, Turn, RemapsAt, Align;
    forall i | 0 <= i < op.Turns() ensures ReadKeepsAt(e, op.start, op.n, op.bad, op.reading, i) {
      TurnAddress(op.start, op.n, i);
      InTurn(op.start, op.n, i);
      assert GentleRead(op.start, op.n, i, op.reading(i));
    }
  }

  lemma WriteRefines(e: Engine, op: Op)
    requires e.Valid() && op.Put? && op.Ok(e)
    ensures
      var (f, r) := Call(e, op);
      r.ret == 0 || (r.ret != -1 && op.Calm()) ==> View(f) == After(View(e), op)
  {
    hide WriteTurns, View, Mapped, Hits, Gentle, Carries, Kept, BlockCount;
    var (f, r) := Call(e, op);
    if r.ret == 0 || (r.ret != -1 && op.Calm()) {
      WriteShows(e, op.start, op.buf, op.bad, op.dies, op.writing);
      if op.Calm() {
        assert forall i :: 0 <= i < op.Turns() ==> Gentle(op.start, |op.buf|, i, op.writing(i));
        GentleWrite(e, op.start, op.buf, op.bad, op.dies, op.writing);
      }
      WrittenView(e, f, op.start, op.buf);
      WriteMaps(e, op, op.Turns());
      SameMapped(e, f);
    }
  }

  lemma SameMapped(e: Engine, f: Engine)
    requires e.Valid() && f.Valid()
    ensures View(e).mapped == Mapped(e.infos) && View(f).mapped == Mapped(f.infos)
  {
  }

  lemma ReadRefines(e: Engine, op: Op)
    requires e.Valid() && op.Fetch? && op.Ok(e)
    ensures
      var (f, r) := Call(e, op);
      && (r.ret == 0 || (r.ret != -1 && op.Calm()) ==> View(f) == After(View(e), op))
      && (r.ret != -1 ==> r.data == View(f).sectors[op.start..op.start + op.n])
  {
    hide ReadTurns, View, Mapped, Hits, GentleRead, Carries, Kept, BlockCount, Delivers, ReadKeepsAt, RemapsAt;
    var (f, r) := Call(e, op);
    ReadShows(e, op.start, op.n, op.bad, op.dies, op.reading);
    if r.ret != -1 {
      SeenIn(f, op.start, r.data);
    }
    if r.ret == 0 || (r.ret != -1 && op.Calm()) {
      if op.Calm() {
        CalmRead(e, op);
        ReadKeepsIff(e, op.start, op.n, op.bad, op.dies, op.reading);
      } else {
        NothingKept(e, op.start, op.start + op.n);
      }
      ReadView(e, op, f, r.data);
      ReadMaps(e, op, op.Turns());
      SameMapped(e, f);
    }
  }

  /**
   A call that returns 0, or one that does not fail and whose answers are calm, is one operation on the
   plain disk; and every read that does not fail returns what the disk then shows.
   */
  lemma CallRefines(e: Engine, op: Op)
    requires e.Valid() && op.Ok(e)
    ensures
      var (f, r) := Call(e, op);
      && (r.ret == 0 || (r.ret != -1 && op.Calm()) ==> View(f) == After(View(e), op))
      && (op.Fetch? && r.ret != -1 ==> r.data == View(f).sectors[op.start..op.start + op.n])
  {
    hide View, After, Call;
    if op.Put? {
      WriteRefines(e, op);
    } else {
      ReadRefines(e, op);
    }
  }

  // Any number of calls.

  predicate Allowed(e: Engine, ops: seq<Op>) { forall i :: 0 <= i < |ops| ==> ops[i].Ok(e) }

  function Calls(e: Engine, ops: seq<Op>): (r: (Engine, seq<Reply>))
    requires e.Valid() && Allowed(e, ops)
    ensures r.0.Valid() && |r.1| == |ops|
    decreases ops
  {
    if ops == [] then (e, [])
    else
      var (f, reply) := Call(e, ops[0]);
      var (g, replies) := Calls(f, ops[1..]);
      (g, [reply] + replies)
  }

  /** No call fails, and those that do not return 0 have calm answers. */
  predicate Smooth(ops: seq<Op>, replies: seq<Reply>)
    requires |ops| == |replies|
  {
    forall i :: 0 <= i < |ops| ==> replies[i].ret == 0 || (replies[i].ret != -1 && ops[i].Calm())
  }

  predicate Inside(d: Disk, ops: seq<Op>) { forall i :: 0 <= i < |ops| ==> ops[i].start + ops[i].Count() <= |d.sectors| }

  /** What the plain disk becomes, and what it replies to reads. */
  function Runs(d: Disk, ops: seq<Op>): Disk
    requires Inside(d, ops)
    decreases ops
  {
    if ops == [] then d else Runs(After(d, ops[0]), ops[1..])
  }

  predicate Replied(d: Disk, ops: seq<Op>, replies: seq<Reply>)
    requires |ops| == |replies| && Inside(d, ops)
    decreases ops
  {
    ops == [] ||
    var next := After(d, ops[0]);
    && (ops[0].Fetch? ==> replies[0].data == next.sectors[ops[0].start..ops[0].start + ops[0].n])
    && Replied(next, ops[1..], replies[1..])
  }

  /** The disk with its remapped blocks refines the plain disk. */
  lemma {:induction false} CallsRefine(e: Engine, ops: seq<Op>)
    requires e.Valid() && Allowed(e, ops)
    ensures
      var (f, replies) := Calls(e, ops);
      Smooth(ops, replies) ==> View(f) == Runs(View(e), ops) && Replied(View(e), ops, replies)
    decreases ops
  {
    hide View, After, Call, Fits;
    if ops != [] {
      var (f, reply) := Call(e, ops[0]);
      var (g, replies) := Calls(f, ops[1..]);
      CallRefines(e, ops[0]);
      CallsRefine(f, ops[1..]);
      var all := [reply] + replies;
      assert all[1..] == replies && all[0] == reply;
      if Smooth(ops, all) {
        assert all[0].ret == 0 || (all[0].ret != -1 && ops[0].Calm());
        assert forall i :: 0 <= i < |ops[1..]| ==> replies[i] == all[i + 1] && ops[1..][i] == ops[i + 1];
      }
    }
  }

  /** A live device without trouble: the call returns 0 and the device stays alive. */
  lemma PlainCall(e: Engine, op: Op)
    requires e.Valid() && op.Ok(e) && !e.dead && op.Plain()
    ensures var (f, r) := Call(e, op); r.ret == 0 && !f.dead
  {
    hide BlockCount, Known, WriteTurns, ReadTurns;
    if op.Put? {
      assert forall i :: 0 <= i < op.Turns() ==> !op.Struck(i);
      EasyWrite(e, op.start, op.buf, op.bad, op.writing);
    } else {
      forall i | 0 <= i < op.Turns()
        ensures !ReadFailsAt(e, op.start, op.n, op.bad, op.reading, i) && !RemapsAt(e, op.start, op.bad, op.reading, i)
      {
        assert !op.Struck(i);
      }
      ReadFailsIff(e, op.start, op.n, op.bad, op.dies, op.reading);
      ReadShows(e, op.start, op.n, op.bad, op.dies, op.reading);
    }
  }

  /** So does every call of a run without trouble, which therefore is a run of the plain disk. */
  lemma {:induction false} PlainCalls(e: Engine, ops: seq<Op>)
    requires e.Valid() && Allowed(e, ops) && !e.dead && forall i :: 0 <= i < |ops| ==> ops[i].Plain()
    ensures var (f, replies) := Calls(e, ops); !f.dead && forall i :: 0 <= i < |ops| ==> replies[i].ret == 0
    decreases ops
  {
    hide Call;
    if ops != [] {
      PlainCall(e, ops[0]);
      var (f, reply) := Call(e, ops[0]);
      PlainCalls(f, ops[1..]);
      var (g, replies) := Calls(f, ops[1..]);
      forall i | 0 <= i < |ops| ensures ([reply] + replies)[i].ret == 0 {
        assert i > 0 ==> ([reply] + replies)[i] == replies[i - 1];
      }
    }
  }

  /** What was written, once reported as done, is what a clean read gives back, calm or not. */
  lemma WriteThenRead(e: Engine, start: nat, buf: seq<Sector>, bad: int, dies: bool, writing: nat -> Writing,
                      bad': int, dies': bool, reading: nat -> Reading)
    requires e.Valid() && Asks(e, start, |buf|) && Fits(start, |buf|)
    ensures
      var (f, written) := Write(e, start, buf, bad, dies, writing);
      var (g, read, got) := Read(f, start, |buf|, bad', dies', reading);
      written != -1 && read == 0 ==> got == buf
  {
    hide WriteTurns, ReadTurns, BlockCount, Delivers, RemapsAt, Seen, Touches;
    WriteShows(e, start, buf, bad, dies, writing);
    var (f, written) := Write(e, start, buf, bad, dies, writing);
    ReadShows(f, start, |buf|, bad', dies', reading);
    var (g, read, got) := Read(f, start, |buf|, bad', dies', reading);
    if written != -1 && read == 0 {
      SameContents(f.user, f.infos, start, buf, got);
    }
  }
}
