/**
 What one turn of the loops of drivers/scsi/swap/core.c does, when it looks up and addresses the block
 it means: when it fails, what the disk then shows, and exactly when the rest of the block is kept.
 */
module SwapTurns {
  import opened Common
  import opened SwapView
  import opened SwapEngine

  /** Nothing but block b, and the reserved area, differs. */
  ghost predicate Aside(e: Engine, f: Engine, b: nat) { Apart(e.user, e.infos, f.user, f.infos, b) }

  ghost predicate Carries(e: Engine, at: nat, buf: seq<Sector>) {
    AllOk(e.infos) && at + |buf| <= |e.user| && Holds(e.user, e.infos, at, buf)
  }

  /** All sectors but lo..hi look the same. */
  ghost predicate Kept(e: Engine, f: Engine, lo: nat, hi: nat) {
    Comparable(e.user, e.infos, f.user, f.infos) && SameOutside(e.user, e.infos, f.user, f.infos, lo, hi)
  }

  // When the rest of a block survives.

  /** The data an entry has after its block was moved agrees with what it had. */
  predicate MoveKeeps(size: nat, i: Info, at: nat, buf: seq<Sector>, a: Rewriting)
    requires i.Ok() && OneBlock(at, |buf|)
  {
    Agree(size, i.data, Moved(i, at - Align(at), buf, a), at, |buf|)
  }

  /** Both neighbour reads of swap_create deliver what stands on the disk. */
  predicate CreateKeeps(u: seq<Sector>, at: nat, n: nat, a: Creating)
    requires OneBlock(at, n)
  {
    a.front.True(u, Align(at), at - Align(at)) && a.back.True(u, at + n, BLOCK - (at - Align(at)) - n)
  }

  lemma AgreeOverlay(size: nat, x: seq<Sector>, y: seq<Sector>, at: nat, buf: seq<Sector>)
    requires |x| == |y| == BLOCK && OneBlock(at, |buf|)
    ensures Agree(size, x, Overlay(y, at - Align(at), buf), at, |buf|) <==> Agree(size, x, y, at, |buf|)
  {
    var z, off := Overlay(y, at - Align(at), buf), at - Align(at);
    forall j | 0 <= j < BLOCK && !(at <= Align(at) + j < at + |buf|) ensures z[j] == y[j] {
      assert !(off <= j < off + |buf|);
    }
  }

  lemma AgreeSelf(size: nat, x: seq<Sector>, at: nat, buf: seq<Sector>)
    requires |x| == BLOCK && OneBlock(at, |buf|)
    ensures Agree(size, x, Overlay(x, at - Align(at), buf), at, |buf|)
  {
    AgreeOverlay(size, x, x, at, buf);
  }

  lemma GatheredAt(u: seq<Sector>, at: nat, n: nat, a: Creating, j: nat)
    requires OneBlock(at, n) && j < BLOCK && Align(at) + j < |u| && !(at <= Align(at) + j < at + n)
    ensures
      var off := at - Align(at);
      Gathered(u, at, n, a)[j] ==
        if j < off then (if a.front.ok then u[Align(at) + j] else a.front.noise(j))
        else (if a.back.ok then u[Align(at) + j] else a.back.noise(j - off - n))
  {
  }

  lemma GatheredKeeps(u: seq<Sector>, at: nat, n: nat, a: Creating)
    requires OneBlock(at, n)
    ensures Agree(|u|, Stands(u, at, ZEROS), Gathered(u, at, n, a), at, n) <==> CreateKeeps(u, at, n, a)
  {
    hide Gathered;
    var was, now, off := Stands(u, at, ZEROS), Gathered(u, at, n, a), at - Align(at);
    forall j: nat | j < BLOCK && Align(at) + j < |u| && !(at <= Align(at) + j < at + n)
      ensures was[j] == u[Align(at) + j]
      ensures now[j] == if j < off then (if a.front.ok then u[Align(at) + j] else a.front.noise(j))
                        else (if a.back.ok then u[Align(at) + j] else a.back.noise(j - off - n))
    {
      GatheredAt(u, at, n, a, j);
    }
    if Agree(|u|, was, now, at, n) {
      forall i | 0 <= i < off && Align(at) + i < |u| ensures a.front.ok || a.front.noise(i) == u[Align(at) + i] {
        assert was[i] == now[i];
      }
      forall i | 0 <= i < BLOCK - off - n && at + n + i < |u| ensures a.back.ok || a.back.noise(i) == u[at + n + i] {
        assert was[off + n + i] == now[off + n + i];
      }
    }
    if CreateKeeps(u, at, n, a) {
      forall j: nat | j < BLOCK && Align(at) + j < |u| && !(at <= Align(at) + j < at + n) ensures was[j] == now[j] {
        if j >= off {
          assert at + n + (j - off - n) == Align(at) + j;
        }
      }
    }
  }

  lemma GatheredSame(u: seq<Sector>, at: nat, buf: seq<Sector>, a: Creating)
    requires OneBlock(at, |buf|) && at + |buf| <= |u|
    ensures Gathered(Overlay(u, at, buf), at, |buf|, a) == Gathered(u, at, |buf|, a)
  {
    var v, off := Overlay(u, at, buf), at - Align(at);
    assert a.front.Result(v, Align(at), off) == a.front.Result(u, Align(at), off);
    assert a.back.Result(v, at + |buf|, BLOCK - off - |buf|) == a.back.Result(u, at + |buf|, BLOCK - off - |buf|);
  }

  // A block that has an entry.

  lemma ReplacedTurn(e: Engine, f: Engine, i: Info, at: nat, buf: seq<Sector>)
    requires e.Valid() && OneBlock(at, |buf|) && at + |buf| <= |e.user| && i.Ok() && i.src == Align(at)
    requires Find(e.infos, Align(at)) >= 0 && f.user == e.user && f.infos == e.infos[Find(e.infos, Align(at)) := i]
    ensures Aside(e, f, Align(at))
    ensures i.data[at - Align(at)..at - Align(at) + |buf|] == buf ==> Carries(f, at, buf)
    ensures Kept(e, f, at, at + |buf|) <==> Agree(|e.user|, e.infos[Find(e.infos, Align(at))].data, i.data, at, |buf|)
  {
    hide Seen, Find, Entry, Looks, Agree;
    var k := Find(e.infos, Align(at));
    ReplacedApart(e.user, e.infos, i);
    ListedLooks(e.user, e.infos, at);
    ListedLooks(f.user, f.infos, at);
    LooksSame(e.user, e.infos, f.user, f.infos, at, |buf|, e.infos[k].data, i.data);
    if i.data[at - Align(at)..at - Align(at) + |buf|] == buf {
      LooksHolds(f.user, f.infos, at, buf, i.data);
    }
  }

  lemma ListedTurn(e: Engine, at: nat, buf: seq<Sector>, a: Rewriting)
    requires e.Valid() && OneBlock(at, |buf|) && at + |buf| <= |e.user| && Find(e.infos, Align(at)) >= 0
    ensures
      var (f, ret) := WriteListed(e, Align(at), at, buf, a);
      var i := e.infos[Find(e.infos, Align(at))];
      && Aside(e, f, Align(at)) && (ret == -1 <==> RewriteFails(e.num, e.bitmap, a))
      && (ret == 0 <==> a.first.ok || (ret != -1 && |buf| == BLOCK))
      && (ret != -1 ==> Carries(f, at, buf) && f.dead == e.dead && f.num == e.num)
      && (ret == 0 ==> Kept(e, f, at, at + |buf|))
      && (ret != -1 && (a.first.ok || e.bitmap[i.index]) ==>
            (Kept(e, f, at, at + |buf|) <==> a.first.ok || MoveKeeps(|e.user|, i, at, buf, a)))
  {
    hide Find, Rewrite, Agree, Moved, Overlay, Aside, Carries, Kept, Grows, Spares, Pick;
    var k, off := Find(e.infos, Align(at)), at - Align(at);
    var i := e.infos[k];
    RewriteFacts(e, i, off, buf, a);
    var (g, r, ret) := Rewrite(e, i, off, buf, a);
    var (f, ret') := WriteListed(e, Align(at), at, buf, a);
    ReplacedTurn(e, f, r, at, buf);
    AgreeSelf(|e.user|, i.data, at, buf);
    AgreeOverlay(|e.user|, i.data, Moved(i, off, buf, a), at, buf);
    if |buf| == BLOCK {
      AgreeWhole(|e.user|, i.data, r.data, at);
    }
  }

  lemma AgreeWhole(size: nat, x: seq<Sector>, y: seq<Sector>, at: nat)
    requires |x| == |y| == BLOCK && OneBlock(at, BLOCK)
    ensures Agree(size, x, y, at, BLOCK)
  {
  }

  /** The entries keep blocks of their own if and only if the block of this one is not lost. */
  lemma ListedOwners(e: Engine, b: nat, at: nat, buf: seq<Sector>, a: Rewriting)
    requires e.Valid() && OneBlock(at, |buf|) && Find(e.infos, b) >= 0 && Owned(e.infos, e.bitmap) && Separate(e.infos)
    ensures
      var (f, ret) := WriteListed(e, b, at, buf, a);
      && Separate(f.infos) && (Owned(f.infos, f.bitmap) <==> !LosesOwnership(e.num, e.bitmap, a))
      && (LosesOwnership(e.num, e.bitmap, a) ==>
            var (bits, j) := Pick(e.bitmap, a.tries, 0);
            var i := e.infos[Find(e.infos, b)];
            j >= 0 && f.bitmap == bits[j := false] && f.num == e.num && f.user == e.user
            && f.infos == e.infos[Find(e.infos, b) := Info(i.src, j, Moved(i, at - Align(at), buf, a))])
  {
    hide Find, Rewrite, Moved, Overlay, Pick, Spares, Salvaged;
    var k, off := Find(e.infos, b), at - Align(at);
    RewriteFacts(e, e.infos[k], off, buf, a);
    var (g, r, ret) := Rewrite(e, e.infos[k], off, buf, a);
    OwnedReplace(e.infos, k, r, e.bitmap, g.bitmap);
  }

  lemma ListedTidy(e: Engine, b: nat, at: nat, buf: seq<Sector>, a: Rewriting)
    requires e.Valid() && OneBlock(at, |buf|) && Find(e.infos, b) >= 0 && Tidy(e) && !RewriteFails(e.num, e.bitmap, a)
    ensures Tidy(WriteListed(e, b, at, buf, a).0)
  {
    hide Find, Rewrite, Moved, Overlay, Pick, Salvaged;
    var k, off := Find(e.infos, b), at - Align(at);
    RewriteFacts(e, e.infos[k], off, buf, a);
    var (g, r, ret) := Rewrite(e, e.infos[k], off, buf, a);
    TightReplace(e.infos, k, r, e.blocks, e.bitmap, g.blocks, g.bitmap);
  }

  // A block that gets an entry.

  predicate CreateFails(e: Engine, a: Creating, w: Rewriting) { !CanCreate(e, a) || !w.first.ok }

  lemma AppendedTurn(e: Engine, f: Engine, i: Info, at: nat, buf: seq<Sector>)
    requires e.Valid() && OneBlock(at, |buf|) && at + |buf| <= |e.user| && i.Ok() && i.src == Align(at)
    requires Find(e.infos, Align(at)) < 0 && f.user == e.user && f.infos == e.infos + [i]
    ensures Aside(e, f, Align(at))
    ensures i.data[at - Align(at)..at - Align(at) + |buf|] == buf ==> Carries(f, at, buf)
    ensures Kept(e, f, at, at + |buf|) <==> Agree(|e.user|, Stands(e.user, at, ZEROS), i.data, at, |buf|)
  {
    hide Seen, Find, Entry, Looks, Agree;
    AppendedApart(e.user, e.infos, i);
    PlainLooks(e.user, e.infos, at, ZEROS);
    ListedLooks(f.user, f.infos, at);
    LooksSame(e.user, e.infos, f.user, f.infos, at, |buf|, Stands(e.user, at, ZEROS), i.data);
    if i.data[at - Align(at)..at - Align(at) + |buf|] == buf {
      LooksHolds(f.user, f.infos, at, buf, i.data);
    }
  }

  lemma CreatedTurn(e: Engine, at: nat, buf: seq<Sector>, a: Creating, w: Rewriting)
    requires e.Valid() && OneBlock(at, |buf|) && at + |buf| <= |e.user| && Find(e.infos, Align(at)) < 0
    ensures
      var (f, ret) := WriteCreated(e, at, buf, a, w);
      && Aside(e, f, Align(at)) && (ret == -1 <==> CreateFails(e, a, w)) && (ret == -1 ==> f.infos == e.infos)
      && (ret != -1 ==>
            && ret == (if |buf| < BLOCK then -DATA_MAY_DIRTY else 0) && Carries(f, at, buf) && f.dead == e.dead
            && f.infos == e.infos + [Info(Align(at), Pick(e.bitmap, a.tries, 0).1,
                                          Overlay(Gathered(e.user, at, |buf|, a), at - Align(at), buf))]
            && f.num == e.num + 1 && f.bitmap == Pick(e.bitmap, a.tries, 0).0
            && (Kept(e, f, at, at + |buf|) <==> CreateKeeps(e.user, at, |buf|, a))
            && (ret == 0 ==> CreateKeeps(e.user, at, |buf|, a)))
  {
    hide Find, Rewrite, Create, Agree, Gathered, Stands, Overlay, Carries, Kept, Grows, Spares, Pick, Moved;
    SameAside(e, Align(at));
    var (g, made) := Create(e, at, |buf|, a);
    if made.Some? {
      RewriteFacts(g, made.value, at - Align(at), buf, w);
      var (h, r, ret) := Rewrite(g, made.value, at - Align(at), buf, w);
      if ret == 0 {
        AppendedTurn(e, WriteCreated(e, at, buf, a, w).0, r, at, buf);
        GatheredKeeps(e.user, at, |buf|, a);
        AgreeOverlay(|e.user|, Stands(e.user, at, ZEROS), made.value.data, at, buf);
      }
    }
  }

  lemma SameAside(e: Engine, b: nat)
    requires e.Valid()
    ensures forall f: Engine :: f.user == e.user && f.infos == e.infos ==> Aside(e, f, b)
  {
  }

  lemma CreatedTidy(e: Engine, at: nat, buf: seq<Sector>, a: Creating, w: Rewriting)
    requires e.Valid() && OneBlock(at, |buf|) && Tidy(e)
    ensures Tidy(WriteCreated(e, at, buf, a, w).0)
  {
    hide Rewrite, Create, Gathered, Overlay, Pick, Moved;
    var (g, made) := Create(e, at, |buf|, a);
    if made.None? {
      TightKept(e.infos, e.blocks, e.bitmap, g.blocks, g.bitmap);
    } else {
      RewriteFacts(g, made.value, at - Align(at), buf, w);
      var (h, r, ret) := Rewrite(g, made.value, at - Align(at), buf, w);
      if ret == 0 {
        TightAppend(e.infos, r, e.blocks, e.bitmap, h.blocks, h.bitmap);
      } else {
        TightKept(e.infos, e.blocks, e.bitmap, h.blocks, h.bitmap[r.index := false]);
      }
    }
  }

  // One turn of the write loop.

  /** Exactly when a turn fails. */
  predicate WriteFails(e: Engine, b: nat, known: bool, a: Writing) {
    if Find(e.infos, b) >= 0 then RewriteFails(e.num, e.bitmap, a.rewrite)
    else
      && (known || !a.direct.ok)
      && (e.dead || (!known && a.dies1) || !a.ready || a.dies2 || CreateFails(e, a.create, a.rewrite))
  }

  /** Exactly when a turn that succeeds leaves the rest of its block alone. */
  predicate WriteKeeps(e: Engine, at: nat, buf: seq<Sector>, known: bool, a: Writing)
    requires e.Valid() && OneBlock(at, |buf|)
  {
    match Entry(e.infos, Align(at))
    case Some(i) => a.rewrite.first.ok || MoveKeeps(|e.user|, i, at, buf, a.rewrite)
    case None => (!known && a.direct.ok) || CreateKeeps(e.user, at, |buf|, a.create)
  }

  /** The entry of the block, if it has one and its first write fails, has its block marked used. */
  predicate Marked(e: Engine, b: nat, a: Rewriting)
    requires e.Valid()
  {
    Find(e.infos, b) >= 0 ==> a.first.ok || e.bitmap[e.infos[Find(e.infos, b)].index]
  }

  ghost predicate WriteTurned(e: Engine, at: nat, buf: seq<Sector>, known: bool, a: Writing, f: Engine, ret: int)
    requires e.Valid() && OneBlock(at, |buf|)
  {
    var b := Align(at);
    && Aside(e, f, b) && (ret == -1 <==> WriteFails(e, b, known, a))
    && (ret != -1 ==>
          && Carries(f, at, buf) && f.dead == e.dead
          && (Find(f.infos, b) >= 0 <==> Find(e.infos, b) >= 0 || known || !a.direct.ok)
          && (ret == 0 ==> Kept(e, f, at, at + |buf|))
          && (ret != 0 ==> |buf| < BLOCK && !(if Find(e.infos, b) >= 0 then a.rewrite.first.ok else !known && a.direct.ok))
          && (Marked(e, b, a.rewrite) ==> (Kept(e, f, at, at + |buf|) <==> WriteKeeps(e, at, buf, known, a))))
  }

  lemma WriteTurnFacts(e: Engine, at: nat, buf: seq<Sector>, known: bool, a: Writing)
    requires e.Valid() && OneBlock(at, |buf|) && at + |buf| <= |e.user|
    ensures var (f, ret) := WriteTurn(e, Align(at), at, buf, known, a); WriteTurned(e, at, buf, known, a, f, ret)
  {
    hide WriteListed, WriteCreated, RewriteFails, Aside, Carries, Kept, Pick, Gathered, Overlay, MoveKeeps, CreateKeeps;
    var b := Align(at);
    var (f, ret) := WriteTurn(e, b, at, buf, known, a);
    if Find(e.infos, b) >= 0 {
      ListedTurn(e, at, buf, a.rewrite);
      SameKeys(e, b, at, buf, a.rewrite);
    } else if known {
      SameAside(e, b);
      if ret != -1 || !(e.dead || !a.ready || a.dies2) {
        CreatedTurn(e, at, buf, a.create, a.rewrite);
        LastFound(e.infos, f.infos, b);
      }
    } else {
      var g := Stored(e, at, a.direct.Result(buf));
      DirectTurn(e, at, a.direct.Result(buf));
      if !a.direct.ok && !(e.dead || a.dies1 || !a.ready || a.dies2) {
        CreatedTurn(g, at, buf, a.create, a.rewrite);
        TornTurn(e, at, a.direct.Result(buf), f, a.create);
        LastFound(e.infos, f.infos, b);
      } else if !a.direct.ok {
        SameAside(g, b);
        TwiceAside(e, g, f, b);
      }
    }
  }

  lemma SameKeys(e: Engine, b: nat, at: nat, buf: seq<Sector>, a: Rewriting)
    requires e.Valid() && OneBlock(at, |buf|) && Find(e.infos, b) >= 0
    ensures Find(WriteListed(e, b, at, buf, a).0.infos, b) == Find(e.infos, b)
  {
    hide Rewrite, Find;
    var k := Find(e.infos, b);
    RewriteFacts(e, e.infos[k], at - Align(at), buf, a);
    var (g, r, ret) := Rewrite(e, e.infos[k], at - Align(at), buf, a);
    ReplacedApart(e.user, e.infos, r);
  }

  lemma LastFound(es: seq<Info>, es': seq<Info>, b: nat)
    ensures |es'| == |es| + 1 && es' == es + [es'[|es|]] && es'[|es|].src == b ==> Find(es', b) >= 0
  {
  }

  lemma TwiceAside(e: Engine, g: Engine, f: Engine, b: nat)
    requires Aside(e, g, b) && Aside(g, f, b)
    ensures Aside(e, f, b)
  {
    ApartTwice(e.user, e.infos, g.user, g.infos, f.user, f.infos, b);
  }

  lemma DirectTurn(e: Engine, at: nat, data: seq<Sector>)
    requires e.Valid() && OneBlock(at, |data|) && at + |data| <= |e.user| && Find(e.infos, Align(at)) < 0
    ensures var g := Stored(e, at, data);
      Aside(e, g, Align(at)) && Carries(g, at, data) && Kept(e, g, at, at + |data|)
  {
    hide Seen, Find, Entry, Looks, Agree;
    var g := Stored(e, at, data);
    DiskApart(e.user, e.infos, at, data);
    PlainLooks(e.user, e.infos, at, ZEROS);
    PlainLooks(g.user, g.infos, at, ZEROS);
    var was, now := Stands(e.user, at, ZEROS), Stands(g.user, at, ZEROS);
    DirectStands(e.user, at, data);
    LooksSame(e.user, e.infos, g.user, g.infos, at, |data|, was, now);
    LooksHolds(g.user, g.infos, at, data, now);
  }

  lemma DirectStands(u: seq<Sector>, at: nat, data: seq<Sector>)
    requires OneBlock(at, |data|) && at + |data| <= |u|
    ensures
      var now := Stands(Overlay(u, at, data), at, ZEROS);
      Agree(|u|, Stands(u, at, ZEROS), now, at, |data|) && now[at - Align(at)..at - Align(at) + |data|] == data
  {
  }

  /** A direct write that tears first does not change what a new entry keeps. */
  lemma TornTurn(e: Engine, at: nat, torn: seq<Sector>, f: Engine, a: Creating)
    requires e.Valid() && OneBlock(at, |torn|) && at + |torn| <= |e.user| && Find(e.infos, Align(at)) < 0
    requires Aside(Stored(e, at, torn), f, Align(at))
    ensures
      var g := Stored(e, at, torn);
      && Aside(e, f, Align(at)) && (Kept(e, f, at, at + |torn|) <==> Kept(g, f, at, at + |torn|))
      && (CreateKeeps(e.user, at, |torn|, a) <==> CreateKeeps(g.user, at, |torn|, a))
  {
    var g := Stored(e, at, torn);
    DirectTurn(e, at, torn);
    TwiceAside(e, g, f, Align(at));
    KeptThrough(e, g, f, at, at + |torn|);
    TrueSame(e.user, at, torn, a);
  }

  lemma KeptThrough(e: Engine, g: Engine, f: Engine, lo: nat, hi: nat)
    requires Kept(e, g, lo, hi) && Comparable(g.user, g.infos, f.user, f.infos)
    ensures Kept(e, f, lo, hi) <==> Kept(g, f, lo, hi)
  {
    hide Seen;
  }

  lemma TrueSame(u: seq<Sector>, at: nat, torn: seq<Sector>, a: Creating)
    requires OneBlock(at, |torn|) && at + |torn| <= |u|
    ensures CreateKeeps(Overlay(u, at, torn), at, |torn|, a) <==> CreateKeeps(u, at, |torn|, a)
  {
    hide Agree;
    GatheredKeeps(u, at, |torn|, a);
    GatheredKeeps(Overlay(u, at, torn), at, |torn|, a);
    GatheredSame(u, at, torn, a);
    DirectStands(u, at, torn);
    AgreeThrough(|u|, Stands(u, at, ZEROS), Stands(Overlay(u, at, torn), at, ZEROS), Gathered(u, at, |torn|, a), at, |torn|);
  }

  lemma AgreeThrough(size: nat, x: seq<Sector>, y: seq<Sector>, z: seq<Sector>, at: nat, n: nat)
    requires |x| == |y| == |z| == BLOCK && Agree(size, x, y, at, n)
    ensures Agree(size, x, z, at, n) <==> Agree(size, y, z, at, n)
  {
    if Agree(size, y, z, at, n) {
      forall j | 0 <= j < BLOCK && Align(at) + j < size && !(at <= Align(at) + j < at + n) ensures x[j] == z[j] {
        assert x[j] == y[j] && y[j] == z[j];
      }
    }
    if Agree(size, x, z, at, n) {
      forall j | 0 <= j < BLOCK && Align(at) + j < size && !(at <= Align(at) + j < at + n) ensures y[j] == z[j] {
        assert x[j] == y[j] && x[j] == z[j];
      }
    }
  }

  lemma WriteTurnTidy(e: Engine, at: nat, buf: seq<Sector>, known: bool, a: Writing)
    requires e.Valid() && OneBlock(at, |buf|) && at + |buf| <= |e.user| && Tidy(e)
    ensures var (f, ret) := WriteTurn(e, Align(at), at, buf, known, a); ret != -1 ==> Tidy(f)
  {
    hide WriteListed, WriteCreated, Tight, RewriteFails;
    var b := Align(at);
    if Find(e.infos, b) >= 0 {
      ListedTurn(e, at, buf, a.rewrite);
      if !RewriteFails(e.num, e.bitmap, a.rewrite) {
        ListedTidy(e, b, at, buf, a.rewrite);
      }
    } else {
      CreatedTidy(if known then e else Stored(e, at, a.direct.Result(buf)), at, buf, a.create, a.rewrite);
    }
  }

  // One turn of the read loop.

  predicate ReadFails(e: Engine, b: nat, known: bool, a: Reading) {
    && Find(e.infos, b) < 0 && (known || !a.direct.ok)
    && (e.dead || (!known && a.dies1) || !a.ready || a.dies2 || !CanCreate(e, a.create) || !a.flush.ok)
  }

  /** The block gets an entry, and loses the sectors read. */
  predicate Remaps(e: Engine, b: nat, known: bool, a: Reading) { Find(e.infos, b) < 0 && (known || !a.direct.ok) }

  ghost predicate ReadTurned(e: Engine, at: nat, n: nat, known: bool, a: Reading, f: Engine, ret: int, data: seq<Sector>)
    requires e.Valid() && OneBlock(at, n)
  {
    var b := Align(at);
    && Aside(e, f, b) && (ret == -1 <==> ReadFails(e, b, known, a))
    && (ret != -1 ==>
          && |data| == n && Carries(f, at, data) && f.dead == e.dead
          && ret == (if Remaps(e, b, known, a) then -DATA_MAY_DIRTY else 0)
          && (Find(f.infos, b) >= 0 <==> Find(e.infos, b) >= 0 || known || !a.direct.ok)
          && (if Remaps(e, b, known, a) then
                && data == seq(n, i => 0) && (Kept(e, f, at, at + n) <==> CreateKeeps(e.user, at, n, a.create))
              else f == e && Carries(e, at, data)))
  }

  lemma ReadTurnFacts(e: Engine, at: nat, n: nat, known: bool, a: Reading)
    requires e.Valid() && OneBlock(at, n) && at + n <= |e.user|
    ensures var (f, ret, data) := ReadTurn(e, Align(at), at, n, known, a); ReadTurned(e, at, n, known, a, f, ret, data)
  {
    hide ReadCreated, Carries, Kept, Aside, CreateKeeps, CanCreate;
    var b := Align(at);
    SameAside(e, b);
    if Find(e.infos, b) >= 0 {
      ReadListed(e, at, n);
    } else if !known && a.direct.ok {
      ReadPlain(e, at, a.direct.Result(e.user, at, n));
    } else {
      ReadCreatedTurn(e, at, n, a.create, a.flush);
      LastFound(e.infos, ReadCreated(e, at, n, a.create, a.flush).0.infos, b);
    }
  }

  lemma ReadListed(e: Engine, at: nat, n: nat)
    requires e.Valid() && OneBlock(at, n) && at + n <= |e.user| && Find(e.infos, Align(at)) >= 0
    ensures Carries(e, at, e.infos[Find(e.infos, Align(at))].data[at - Align(at)..at - Align(at) + n])
  {
    hide Seen, Find, Looks;
    var i := e.infos[Find(e.infos, Align(at))];
    ListedLooks(e.user, e.infos, at);
    LooksHolds(e.user, e.infos, at, i.data[at - Align(at)..at - Align(at) + n], i.data);
  }

  lemma ReadPlain(e: Engine, at: nat, data: seq<Sector>)
    requires e.Valid() && OneBlock(at, |data|) && at + |data| <= |e.user| && Find(e.infos, Align(at)) < 0
    requires forall i :: 0 <= i < |data| ==> data[i] == e.user[at + i]
    ensures Carries(e, at, data)
  {
    hide Seen, Find, Looks;
    PlainLooks(e.user, e.infos, at, ZEROS);
    var block, off := Stands(e.user, at, ZEROS), at - Align(at);
    forall i | 0 <= i < |data| ensures block[off..off + |data|][i] == data[i] {
      assert block[off + i] == e.user[Align(at) + (off + i)];
    }
    LooksHolds(e.user, e.infos, at, data, block);
  }

  lemma ReadCreatedTurn(e: Engine, at: nat, n: nat, a: Creating, flush: Put)
    requires e.Valid() && OneBlock(at, n) && at + n <= |e.user| && Find(e.infos, Align(at)) < 0
    ensures
      var (f, ret, data) := ReadCreated(e, at, n, a, flush);
      && Aside(e, f, Align(at)) && (ret == -1 <==> !CanCreate(e, a) || !flush.ok) && (ret == -1 ==> f.infos == e.infos)
      && (ret != -1 ==>
            && ret == -DATA_MAY_DIRTY && data == seq(n, i => 0) && Carries(f, at, data) && f.dead == e.dead
            && |f.infos| == |e.infos| + 1 && f.infos == e.infos + [f.infos[|e.infos|]] && f.infos[|e.infos|].src == Align(at)
            && (Kept(e, f, at, at + n) <==> CreateKeeps(e.user, at, n, a)))
  {
    hide Find, Create, Agree, Gathered, Stands, Carries, Kept, Grows, Spares, Pick;
    SameAside(e, Align(at));
    var (g, made) := Create(e, at, n, a);
    if made.Some? && flush.ok {
      AppendedTurn(e, ReadCreated(e, at, n, a, flush).0, made.value, at, seq(n, i => 0));
      GatheredKeeps(e.user, at, n, a);
    }
  }

  lemma ReadTurnTidy(e: Engine, at: nat, n: nat, known: bool, a: Reading)
    requires e.Valid() && OneBlock(at, n) && at + n <= |e.user| && Tidy(e)
    ensures Tidy(ReadTurn(e, Align(at), at, n, known, a).0)
  {
    hide Find, Create, Gathered, Pick;
    var (g, made) := Create(e, at, n, a.create);
    TightKept(e.infos, e.blocks, e.bitmap, g.blocks, g.bitmap);
    if made.Some? {
      var i := made.value;
      var h := g.blocks[i.index := a.flush.Result(i.data)];
      TightKept(e.infos, e.blocks, e.bitmap, h, g.bitmap[i.index := false]);
      if a.flush.ok {
        TightAppend(e.infos, i, e.blocks, e.bitmap, h, g.bitmap);
      }
    }
  }
}
