/**
 What a disk with remapped blocks (drivers/scsi/swap/core.c) looks like to its readers, who owns
 which reserved block, and how one step of the engine changes either.
 */
module SwapView {
  import opened Common

  const BLOCK := 128
  const DATA_BLOCKS := 1024
  const MAX_SWAP_BLOCK_FOR_USE := 128
  const DATA_MAY_DIRTY := 0xaa

  type Sector = int

  /** struct swap_info: the block it stands for, its place in the reserved area, and the copy in memory. */
  datatype Info = Info(src: nat, index: nat, data: seq<Sector>) {
    predicate Ok() { src % BLOCK == 0 && index < DATA_BLOCKS && |data| == BLOCK }
  }

  function Align(s: nat): (b: nat)
    ensures b % BLOCK == 0 && b <= s < b + BLOCK
  {
    s / BLOCK * BLOCK
  }

  /** The place of the first entry for a block in the list, or -1. */
  function Find(infos: seq<Info>, b: nat): (k: int)
    ensures -1 <= k < |infos|
    ensures k >= 0 ==> infos[k].src == b && forall j :: 0 <= j < k ==> infos[j].src != b
    ensures k < 0 ==> forall j :: 0 <= j < |infos| ==> infos[j].src != b
    decreases infos
  {
    if infos == [] then -1
    else if infos[0].src == b then 0
    else var k := Find(infos[1..], b); if k < 0 then -1 else k + 1
  }

  function Entry(infos: seq<Info>, b: nat): Option<Info> {
    var k := Find(infos, b);
    if k >= 0 then Some(infos[k]) else None
  }

  predicate AllOk(infos: seq<Info>) { forall k :: 0 <= k < |infos| ==> infos[k].Ok() }

  /** What a reader of the disk is meant to see in sector s. */
  function Seen(medium: seq<Sector>, infos: seq<Info>, s: nat): Sector
    requires AllOk(infos) && s < |medium|
  {
    match Entry(infos, Align(s))
    case Some(i) => i.data[s - Align(s)]
    case None => medium[s]
  }

  lemma ReplacedEntry(infos: seq<Info>, k: nat, i: Info, b: nat)
    requires k < |infos| && Find(infos, i.src) == k
    ensures Entry(infos[k := i], b) == if b == i.src then Some(i) else Entry(infos, b)
  {
    var j := Find(infos, b);
    assert forall m :: 0 <= m < |infos| ==> infos[k := i][m].src == infos[m].src;
    assert Find(infos[k := i], b) == j;
  }

  lemma AppendedEntry(infos: seq<Info>, i: Info, b: nat)
    requires Find(infos, i.src) < 0
    ensures Entry(infos + [i], b) == if b == i.src then Some(i) else Entry(infos, b)
  {
    var j, all := Find(infos, b), infos + [i];
    if b == i.src {
      assert all[|infos|].src == b && Find(all, b) == |infos|;
    } else if j >= 0 {
      assert all[j].src == b && Find(all, b) == j;
    } else {
      assert Find(all, b) < 0;
    }
  }

  // The reserved area, as blocks with a bitmap.

  predicate Area(blocks: seq<seq<Sector>>, bitmap: seq<bool>) {
    |blocks| == |bitmap| == DATA_BLOCKS && forall j :: 0 <= j < DATA_BLOCKS ==> |blocks[j]| == BLOCK
  }

  /** Every listed entry owns its block, alone, and the block holds the entry's data. */
  predicate Owned(infos: seq<Info>, bitmap: seq<bool>) {
    forall k :: 0 <= k < |infos| ==> infos[k].index < |bitmap| && bitmap[infos[k].index]
  }

  predicate Separate(infos: seq<Info>) {
    forall j, k :: 0 <= j < k < |infos| ==> infos[j].index != infos[k].index
  }

  predicate Mirrored(infos: seq<Info>, blocks: seq<seq<Sector>>) {
    forall k :: 0 <= k < |infos| ==> infos[k].index < |blocks| && blocks[infos[k].index] == infos[k].data
  }

  predicate Tight(infos: seq<Info>, blocks: seq<seq<Sector>>, bitmap: seq<bool>) {
    Owned(infos, bitmap) && Separate(infos) && Mirrored(infos, blocks)
  }

  /** Bits only get set, and only blocks that were free, or block x, get other contents. */
  predicate Grows(bitmap: seq<bool>, bitmap': seq<bool>) {
    |bitmap| == |bitmap'| && forall j :: 0 <= j < |bitmap| ==> bitmap[j] ==> bitmap'[j]
  }

  predicate Spares(blocks: seq<seq<Sector>>, blocks': seq<seq<Sector>>, bitmap: seq<bool>, x: int) {
    && |blocks| == |blocks'| == |bitmap|
    && forall j :: 0 <= j < |bitmap| && bitmap[j] && j != x ==> blocks'[j] == blocks[j]
  }

  /** Putting the entry of a block back after it was worked on, and keeping all the others. */
  lemma TightReplace(infos: seq<Info>, k: nat, i: Info,
                     blocks: seq<seq<Sector>>, bitmap: seq<bool>, blocks': seq<seq<Sector>>, bitmap': seq<bool>)
    requires k < |infos| && Tight(infos, blocks, bitmap) && Grows(bitmap, bitmap')
    requires Spares(blocks, blocks', bitmap, infos[k].index)
    requires i.index < |bitmap'| && bitmap'[i.index] && blocks'[i.index] == i.data
    requires i.index == infos[k].index || !bitmap[i.index]
    ensures Tight(infos[k := i], blocks', bitmap')
  {
  }

  lemma OwnedReplace(infos: seq<Info>, k: nat, i: Info, bitmap: seq<bool>, bitmap': seq<bool>)
    requires k < |infos| && Owned(infos, bitmap) && Separate(infos) && Grows(bitmap, bitmap') && i.index < |bitmap|
    requires i.index == infos[k].index || !bitmap[i.index]
    ensures Separate(infos[k := i]) && (Owned(infos[k := i], bitmap') <==> bitmap'[i.index])
  {
    if !bitmap'[i.index] {
      assert infos[k := i][k] == i;
    }
  }

  lemma TightAppend(infos: seq<Info>, i: Info,
                    blocks: seq<seq<Sector>>, bitmap: seq<bool>, blocks': seq<seq<Sector>>, bitmap': seq<bool>)
    requires Tight(infos, blocks, bitmap) && Grows(bitmap, bitmap') && Spares(blocks, blocks', bitmap, -1)
    requires i.index < |bitmap'| && bitmap'[i.index] && blocks'[i.index] == i.data && !bitmap[i.index]
    ensures Tight(infos + [i], blocks', bitmap')
  {
  }

  lemma TightKept(infos: seq<Info>,
                  blocks: seq<seq<Sector>>, bitmap: seq<bool>, blocks': seq<seq<Sector>>, bitmap': seq<bool>)
    requires Tight(infos, blocks, bitmap) && Grows(bitmap, bitmap') && Spares(blocks, blocks', bitmap, -1)
    ensures Tight(infos, blocks', bitmap')
  {
  }

  /** data with buf laid over it from off on. */
  function Overlay(data: seq<Sector>, off: nat, buf: seq<Sector>): (r: seq<Sector>)
    requires off + |buf| <= |data|
    ensures |r| == |data|
    ensures forall i :: 0 <= i < |data| ==> r[i] == if off <= i < off + |buf| then buf[i - off] else data[i]
  {
    data[..off] + buf + data[off + |buf|..]
  }

  // How changes show to a reader.

  /** Two states of the disk and of the list. */
  predicate Comparable(u: seq<Sector>, es: seq<Info>, u': seq<Sector>, es': seq<Info>) {
    |u| == |u'| && AllOk(es) && AllOk(es')
  }

  /** Other blocks than b are untouched: their sectors and their entries. */
  ghost predicate Apart(u: seq<Sector>, es: seq<Info>, u': seq<Sector>, es': seq<Info>, b: nat) {
    && Comparable(u, es, u', es')
    && (forall c: nat :: c != b ==> Entry(es', c) == Entry(es, c))
    && forall s :: 0 <= s < |u| && Align(s) != b ==> u'[s] == u[s]
  }

  /** Sectors of other blocks than b look the same. */
  predicate SameElsewhere(u: seq<Sector>, es: seq<Info>, u': seq<Sector>, es': seq<Info>, b: nat)
    requires Comparable(u, es, u', es')
  {
    forall s :: 0 <= s < |u| && Align(s) != b ==> Seen(u', es', s) == Seen(u, es, s)
  }

  lemma ApartLooksSame(u: seq<Sector>, es: seq<Info>, u': seq<Sector>, es': seq<Info>, b: nat)
    requires Apart(u, es, u', es', b)
    ensures SameElsewhere(u, es, u', es', b)
  {
    hide Entry;
  }

  /** Sectors outside lo..hi look the same. */
  predicate SameOutside(u: seq<Sector>, es: seq<Info>, u': seq<Sector>, es': seq<Info>, lo: nat, hi: nat)
    requires Comparable(u, es, u', es')
  {
    forall s :: 0 <= s < |u| && !(lo <= s < hi) ==> Seen(u', es', s) == Seen(u, es, s)
  }

  /** From sector at on, the disk looks like buf. */
  predicate Holds(u: seq<Sector>, es: seq<Info>, at: nat, buf: seq<Sector>)
    requires AllOk(es) && at + |buf| <= |u|
  {
    forall s :: at <= s < at + |buf| ==> Seen(u, es, s) == buf[s - at]
  }

  /** Sectors at..at+n lie in one block. */
  predicate OneBlock(at: nat, n: nat) { 0 < n && at - Align(at) + n <= BLOCK }

  lemma AlignWithin(at: nat, n: nat, s: nat)
    requires OneBlock(at, n)
    ensures at <= s < at + n ==> Align(s) == Align(at)
    ensures Align(s) == Align(at) ==> Align(at) <= s < Align(at) + BLOCK
  {
  }

  // One turn of either loop: an entry is replaced, the disk is written, or an entry is added.

  /** The sectors of the block of `at` that are on the disk and outside at..at+n hold the same in both. */
  predicate Agree(size: nat, a: seq<Sector>, b: seq<Sector>, at: nat, n: nat)
    requires |a| == |b| == BLOCK
  {
    forall j :: 0 <= j < BLOCK && Align(at) + j < size && !(at <= Align(at) + j < at + n) ==> a[j] == b[j]
  }

  /** The block of `at` as it stands on the disk; d where the disk has ended. */
  function Stands(u: seq<Sector>, at: nat, d: seq<Sector>): (r: seq<Sector>)
    requires |d| == BLOCK
    ensures |r| == BLOCK
  {
    seq(BLOCK, (j: nat) requires j < BLOCK && |d| == BLOCK => if Align(at) + j < |u| then u[Align(at) + j] else d[j])
  }

  lemma BlockOffset(at: nat, s: nat)
    requires Align(s) == Align(at)
    ensures Align(at) <= s < Align(at) + BLOCK
  {
  }

  lemma InBlock(at: nat, j: nat)
    requires j < BLOCK
    ensures Align(Align(at) + j) == Align(at)
  {
  }

  /** To its readers, the block of `at` holds data. */
  predicate Looks(u: seq<Sector>, es: seq<Info>, at: nat, data: seq<Sector>)
    requires AllOk(es) && |data| == BLOCK
  {
    forall s :: 0 <= s < |u| && Align(s) == Align(at) ==> Seen(u, es, s) == data[s - Align(at)]
  }

  lemma LooksHolds(u: seq<Sector>, es: seq<Info>, at: nat, buf: seq<Sector>, data: seq<Sector>)
    requires AllOk(es) && |data| == BLOCK && Looks(u, es, at, data) && OneBlock(at, |buf|) && at + |buf| <= |u|
    requires data[at - Align(at)..at - Align(at) + |buf|] == buf
    ensures Holds(u, es, at, buf)
  {
    hide Seen;
    forall s | at <= s < at + |buf| ensures Seen(u, es, s) == buf[s - at] {
      AlignWithin(at, |buf|, s);
      assert data[s - Align(at)] == data[at - Align(at)..at - Align(at) + |buf|][s - at];
    }
  }

  lemma LooksSame(u: seq<Sector>, es: seq<Info>, u': seq<Sector>, es': seq<Info>, at: nat, n: nat, was: seq<Sector>, now: seq<Sector>)
    requires Apart(u, es, u', es', Align(at)) && |was| == |now| == BLOCK && OneBlock(at, n)
    requires Looks(u, es, at, was) && Looks(u', es', at, now)
    ensures SameOutside(u, es, u', es', at, at + n) <==> Agree(|u|, was, now, at, n)
  {
    hide Seen, Entry;
    ApartLooksSame(u, es, u', es', Align(at));
    forall s | 0 <= s < |u| ensures at <= s < at + n ==> Align(s) == Align(at) {
      AlignWithin(at, n, s);
    }
    if Agree(|u|, was, now, at, n) {
      forall s | 0 <= s < |u| && !(at <= s < at + n) ensures Seen(u', es', s) == Seen(u, es, s) {
        if Align(s) == Align(at) {
          BlockOffset(at, s);
          assert was[s - Align(at)] == now[s - Align(at)];
        }
      }
    }
    if SameOutside(u, es, u', es', at, at + n) {
      forall j | 0 <= j < BLOCK && Align(at) + j < |u| && !(at <= Align(at) + j < at + n) ensures was[j] == now[j] {
        InBlock(at, j);
        assert Seen(u', es', Align(at) + j) == Seen(u, es, Align(at) + j);
      }
    }
  }

  lemma ListedLooks(u: seq<Sector>, es: seq<Info>, at: nat)
    requires AllOk(es) && Find(es, Align(at)) >= 0
    ensures Looks(u, es, at, es[Find(es, Align(at))].data)
  {
  }

  lemma PlainLooks(u: seq<Sector>, es: seq<Info>, at: nat, d: seq<Sector>)
    requires AllOk(es) && Find(es, Align(at)) < 0 && |d| == BLOCK
    ensures Looks(u, es, at, Stands(u, at, d))
  {
    forall s | 0 <= s < |u| && Align(s) == Align(at) ensures Seen(u, es, s) == Stands(u, at, d)[s - Align(at)] {
      BlockOffset(at, s);
    }
  }

  lemma ReplacedApart(u: seq<Sector>, es: seq<Info>, i: Info)
    requires AllOk(es) && i.Ok() && Find(es, i.src) >= 0
    ensures
      var es' := es[Find(es, i.src) := i];
      Apart(u, es, u, es', i.src) && Find(es', i.src) == Find(es, i.src)
  {
    var k := Find(es, i.src);
    forall b: nat ensures Entry(es[k := i], b) == if b == i.src then Some(i) else Entry(es, b) {
      ReplacedEntry(es, k, i, b);
    }
    assert forall m :: 0 <= m < |es| ==> es[k := i][m].src == es[m].src;
  }

  lemma AppendedApart(u: seq<Sector>, es: seq<Info>, i: Info)
    requires AllOk(es) && i.Ok() && Find(es, i.src) < 0
    ensures Apart(u, es, u, es + [i], i.src) && Find(es + [i], i.src) == |es|
  {
    forall b: nat ensures Entry(es + [i], b) == if b == i.src then Some(i) else Entry(es, b) {
      AppendedEntry(es, i, b);
    }
    assert (es + [i])[|es|] == i;
  }

  lemma DiskApart(u: seq<Sector>, es: seq<Info>, at: nat, buf: seq<Sector>)
    requires AllOk(es) && OneBlock(at, |buf|) && at + |buf| <= |u|
    ensures Apart(u, es, Overlay(u, at, buf), es, Align(at))
  {
    forall s | 0 <= s < |u| ensures at <= s < at + |buf| ==> Align(s) == Align(at) {
      AlignWithin(at, |buf|, s);
    }
  }

  lemma ApartTwice(u: seq<Sector>, es: seq<Info>, u1: seq<Sector>, es1: seq<Info>, u': seq<Sector>, es': seq<Info>, b: nat)
    requires Apart(u, es, u1, es1, b) && Apart(u1, es1, u', es', b)
    ensures Apart(u, es, u', es', b)
  {
    hide Entry;
  }

  // A request, block by block.

  /** The blocks from hi on are as they were. */
  ghost predicate Ahead(u0: seq<Sector>, es0: seq<Info>, u: seq<Sector>, es: seq<Info>, hi: nat) {
    && Comparable(u0, es0, u, es)
    && (forall c: nat :: c >= hi ==> Entry(es, c) == Entry(es0, c))
    && forall s :: hi <= s < |u| ==> u[s] == u0[s]
  }

  /** After the sectors below pos and the blocks below hi: what was written shows, and nothing outside those blocks changed. */
  ghost predicate Progress(u0: seq<Sector>, es0: seq<Info>, u: seq<Sector>, es: seq<Info>,
                           start: nat, buf: seq<Sector>, pos: nat, hi: nat)
  {
    && Comparable(u0, es0, u, es) && start <= pos <= start + |buf| <= |u|
    && Holds(u, es, start, buf[..pos - start])
    && SameOutside(u0, es0, u, es, Align(start), hi)
    && Ahead(u0, es0, u, es, hi)
  }

  lemma HoldsMore(u1: seq<Sector>, es1: seq<Info>, u: seq<Sector>, es: seq<Info>, start: nat, buf: seq<Sector>, pos: nat, n: nat)
    requires Comparable(u1, es1, u, es) && start <= pos && pos + n <= start + |buf| <= |u| && OneBlock(pos, n)
    requires pos == start || pos % BLOCK == 0
    requires Holds(u1, es1, start, buf[..pos - start]) && SameElsewhere(u1, es1, u, es, Align(pos))
    requires Holds(u, es, pos, buf[pos - start..pos - start + n])
    ensures Holds(u, es, start, buf[..pos + n - start])
  {
    forall s | start <= s < pos + n ensures Seen(u, es, s) == buf[..pos + n - start][s - start] {
      if s < pos {
        assert Align(s) <= s < pos;
        assert Seen(u1, es1, s) == buf[..pos - start][s - start];
      } else {
        assert Seen(u, es, s) == buf[pos - start..pos - start + n][s - pos];
      }
    }
  }

  lemma AheadStep(u0: seq<Sector>, es0: seq<Info>, u1: seq<Sector>, es1: seq<Info>, u: seq<Sector>, es: seq<Info>, pos: nat)
    requires Ahead(u0, es0, u1, es1, Align(pos)) && Apart(u1, es1, u, es, Align(pos))
    ensures Ahead(u0, es0, u, es, Align(pos) + BLOCK)
  {
    hide Entry;
    forall s | Align(pos) + BLOCK <= s < |u| ensures u[s] == u0[s] {
      assert Align(s) != Align(pos);
    }
  }

  lemma ProgressStep(u0: seq<Sector>, es0: seq<Info>, u1: seq<Sector>, es1: seq<Info>, u: seq<Sector>, es: seq<Info>,
                     start: nat, buf: seq<Sector>, pos: nat, n: nat)
    requires Progress(u0, es0, u1, es1, start, buf, pos, Align(pos)) && Apart(u1, es1, u, es, Align(pos))
    requires pos + n <= start + |buf| && OneBlock(pos, n) && (pos == start || pos % BLOCK == 0)
    requires Holds(u, es, pos, buf[pos - start..pos - start + n])
    ensures Progress(u0, es0, u, es, start, buf, pos + n, Align(pos) + BLOCK)
  {
    hide Seen, Entry;
    ApartLooksSame(u1, es1, u, es, Align(pos));
    HoldsMore(u1, es1, u, es, start, buf, pos, n);
    OnlyBlocks(u0, es0, u1, es1, u, es, start, pos);
    AheadStep(u0, es0, u1, es1, u, es, pos);
  }

  /** Everything else looks as before exactly if it did before this turn and this turn left it so. */
  lemma KeptStep(u0: seq<Sector>, es0: seq<Info>, u1: seq<Sector>, es1: seq<Info>, u: seq<Sector>, es: seq<Info>, start: nat, pos: nat, n: nat)
    requires Ahead(u0, es0, u1, es1, Align(pos)) && Apart(u1, es1, u, es, Align(pos))
    requires start <= pos && OneBlock(pos, n) && (pos == start || pos % BLOCK == 0)
    ensures SameOutside(u0, es0, u, es, start, pos + n) <==>
      SameOutside(u0, es0, u1, es1, start, pos) && SameOutside(u1, es1, u, es, pos, pos + n)
  {
    hide Entry;
    ApartLooksSame(u1, es1, u, es, Align(pos));
    forall s | 0 <= s < |u| && Align(s) == Align(pos) ensures Seen(u1, es1, s) == Seen(u0, es0, s) {
      BlockOffset(pos, s);
    }
    forall s | 0 <= s < |u| ensures pos <= s < pos + n ==> Align(s) == Align(pos) {
      AlignWithin(pos, n, s);
    }
    forall s | start <= s < pos ensures Align(s) != Align(pos) {
      assert Align(s) <= s < pos;
    }
    KeptApart(u0, es0, u1, es1, u, es, start, pos, n);
  }

  lemma KeptApart(u0: seq<Sector>, es0: seq<Info>, u1: seq<Sector>, es1: seq<Info>, u: seq<Sector>, es: seq<Info>, start: nat, pos: nat, n: nat)
    requires Comparable(u0, es0, u1, es1) && Comparable(u1, es1, u, es) && start <= pos
    requires SameElsewhere(u1, es1, u, es, Align(pos))
    requires forall s :: 0 <= s < |u| && Align(s) == Align(pos) ==> Seen(u1, es1, s) == Seen(u0, es0, s)
    requires forall s :: 0 <= s < |u| ==> pos <= s < pos + n ==> Align(s) == Align(pos)
    requires forall s :: start <= s < pos ==> Align(s) != Align(pos)
    ensures SameOutside(u0, es0, u, es, start, pos + n) <==>
      SameOutside(u0, es0, u1, es1, start, pos) && SameOutside(u1, es1, u, es, pos, pos + n)
  {
    hide Seen, Align;
    if SameOutside(u0, es0, u, es, start, pos + n) {
      forall s | 0 <= s < |u| && !(start <= s < pos) ensures Seen(u1, es1, s) == Seen(u0, es0, s) {
        if Align(s) != Align(pos) {
          assert Seen(u, es, s) == Seen(u1, es1, s);
        }
      }
      forall s | 0 <= s < |u| && !(pos <= s < pos + n) ensures Seen(u, es, s) == Seen(u1, es1, s) {
        if Align(s) == Align(pos) {
          assert Seen(u, es, s) == Seen(u0, es0, s);
        }
      }
    }
  }

  lemma OnlyBlocks(u0: seq<Sector>, es0: seq<Info>, u1: seq<Sector>, es1: seq<Info>, u: seq<Sector>, es: seq<Info>, start: nat, pos: nat)
    requires Comparable(u0, es0, u1, es1) && Comparable(u1, es1, u, es) && start <= pos
    requires SameOutside(u0, es0, u1, es1, Align(start), Align(pos)) && SameElsewhere(u1, es1, u, es, Align(pos))
    ensures SameOutside(u0, es0, u, es, Align(start), Align(pos) + BLOCK)
  {
    hide Seen, Find;
    assert Align(start) <= Align(pos);
  }

  lemma Widen(u0: seq<Sector>, es0: seq<Info>, u: seq<Sector>, es: seq<Info>, lo: nat, hi: nat, hi': nat)
    requires Comparable(u0, es0, u, es) && SameOutside(u0, es0, u, es, lo, hi) && hi <= hi'
    ensures SameOutside(u0, es0, u, es, lo, hi')
  {
  }

  /** The end of the last block a request touches. */
  function Top(start: nat, n: nat): nat
    requires n > 0
  {
    Align(start + n - 1) + BLOCK
  }

  /** Only sectors of the request's blocks may look different. */
  predicate Touches(u0: seq<Sector>, es0: seq<Info>, u: seq<Sector>, es: seq<Info>, start: nat, n: nat)
    requires n > 0
  {
    Comparable(u0, es0, u, es) && SameOutside(u0, es0, u, es, Align(start), Top(start, n))
  }

  lemma Unchanged(u: seq<Sector>, es: seq<Info>, start: nat, n: nat)
    requires AllOk(es) && n > 0
    ensures Touches(u, es, u, es, start, n)
  {
  }

  lemma ProgressStarts(u: seq<Sector>, es: seq<Info>, start: nat, buf: seq<Sector>)
    requires AllOk(es) && start + |buf| <= |u|
    ensures Progress(u, es, u, es, start, buf, start, Align(start))
  {
  }

  lemma ProgressEnds(u0: seq<Sector>, es0: seq<Info>, u: seq<Sector>, es: seq<Info>, start: nat, buf: seq<Sector>)
    requires 0 < |buf| && Progress(u0, es0, u, es, start, buf, start + |buf|, Top(start, |buf|))
    ensures Holds(u, es, start, buf) && Touches(u0, es0, u, es, start, |buf|)
  {
    assert buf[..|buf|] == buf;
  }

  lemma UnderTop(start: nat, n: nat, pos: nat)
    requires start <= pos < start + n
    ensures Align(pos) + BLOCK <= Top(start, n)
  {
  }

  /** get_swap_block_count. */
  function BlockCount(start: nat, count: nat): nat {
    var n := start + count - Align(start);
    n / BLOCK + if n % BLOCK == 0 then 0 else 1
  }

  /** Where turn i of the loop starts. */
  function Turn(start: nat, count: nat, i: nat): nat {
    if i == 0 then start
    else if (start / BLOCK + i) * BLOCK < start + count then (start / BLOCK + i) * BLOCK
    else start + count
  }

  /** Turns follow one another, block by block, and the last one ends with the request. */
  lemma Turns(start: nat, count: nat, i: nat) returns (n: nat)
    requires count > 0 && i < BlockCount(start, count)
    ensures n == Turn(start, count, i + 1) - Turn(start, count, i) && OneBlock(Turn(start, count, i), n)
    ensures Align(Turn(start, count, i)) == (start / BLOCK + i) * BLOCK
    ensures Turn(start, count, i) < start + count && (i > 0 ==> Turn(start, count, i) == (start / BLOCK + i) * BLOCK)
    ensures n == if start + count - Turn(start, count, i) < (start / BLOCK + i + 1) * BLOCK - Turn(start, count, i)
      then start + count - Turn(start, count, i) else (start / BLOCK + i + 1) * BLOCK - Turn(start, count, i)
    ensures i + 1 < BlockCount(start, count) ==> Align(Turn(start, count, i + 1)) == Align(Turn(start, count, i)) + BLOCK
    ensures i + 1 == BlockCount(start, count) ==> Turn(start, count, i + 1) == start + count
  {
    n := Turn(start, count, i + 1) - Turn(start, count, i);
    var q := start / BLOCK;
    assert Align(start) == q * BLOCK;
    assert (q + i) * BLOCK == q * BLOCK + i * BLOCK;
    assert (q + i) * BLOCK < start + count;
  }

  // The arithmetic of the loops is narrower than sector_t: b_start is a u32.

  /** b_start of turn i. */
  function Key(start: nat, i: nat): nat { Wrap((start / BLOCK + i) * BLOCK, U32) }

  /** s_start of turn i. */
  function Addr(start: nat, i: nat): nat { if i == 0 then start else Key(start, i) }

  /** An int, with gcc's wrap-around. */
  function I32(x: int): int { var r := Wrap(x, U32); if r < 0x8000_0000 then r else r - U32 }

  /** i_bad == i_start + i. */
  predicate Known(bad: int, start: nat, i: nat) {
    (if bad == -1 then -1 else I32(bad / BLOCK)) == I32(start / BLOCK + i)
  }

  lemma LookupIs(bad: int, start: nat, i: nat)
    ensures Key(start, i) == Wrap((start / BLOCK + i) * BLOCK, U32)
    ensures Known(bad, start, i) <==> (if bad == -1 then -1 else I32(bad / BLOCK)) == I32(start / BLOCK + i)
  {
  }

  lemma KeyBelow(start: nat, count: nat, i: nat)
    requires count > 0 && i < BlockCount(start, count)
    ensures Key(start, i) % BLOCK == 0 && Key(start, i) <= Align(Turn(start, count, i)) && Addr(start, i) <= Turn(start, count, i)
    ensures Key(start, i) == Align(Turn(start, count, i)) <==> Align(Turn(start, count, i)) < U32
    ensures Addr(start, i) - Align(Addr(start, i)) == Turn(start, count, i) - Align(Turn(start, count, i))
    ensures (Turn(start, count, i) - Addr(start, i)) % U32 == 0
  {
    var n := Turns(start, count, i);
    WrapBlock(start / BLOCK + i);
  }

  lemma WrapBlock(q: nat)
    ensures Wrap(q * BLOCK, U32) % BLOCK == 0 && Wrap(q * BLOCK, U32) <= q * BLOCK
    ensures (q * BLOCK - Wrap(q * BLOCK, U32)) % U32 == 0
  {
    var x := q * BLOCK;
    var d := x / U32;
    assert x == d * U32 + x % U32;
    assert d * U32 == d * 0x200_0000 * BLOCK;
    assert x % U32 == (q - d * 0x200_0000) * BLOCK;
    MultipleOf(q - d * 0x200_0000);
    assert (d * U32) % U32 == 0;
  }

  lemma MultipleOf(q: int)
    ensures (q * BLOCK) % BLOCK == 0
  {
  }

  /** s_count of turn i. */
  function Length(start: nat, count: nat, i: nat): int { Turn(start, count, i + 1) - Turn(start, count, i) }

  lemma InTurn(start: nat, count: nat, i: nat)
    requires count > 0 && i < BlockCount(start, count)
    ensures OneBlock(Addr(start, i), Length(start, count, i)) && Addr(start, i) + Length(start, count, i) <= start + count
    ensures start <= Turn(start, count, i) <= Turn(start, count, i + 1) <= start + count
  {
    var n := Turns(start, count, i);
    KeyBelow(start, count, i);
  }

  lemma WrapShift(x: nat, d: nat)
    requires x < U32 && d % U32 == 0
    ensures Wrap(x + d, U32) == x
  {
    assert d == d / U32 * U32;
    assert x + d == d / U32 * U32 + x;
  }

  /** s_start and s_count of turn i. */
  method Cut(start: nat, count: nat, i: nat, left: nat) returns (at: nat, n: nat)
    requires count > 0 && i < BlockCount(start, count) && left == start + count - Turn(start, count, i)
    ensures at == Addr(start, i) && n == Turn(start, count, i + 1) - Turn(start, count, i)
  {
    ghost var m := Turns(start, count, i);
    KeyBelow(start, count, i);
    at := if i == 0 then start else Wrap((start / BLOCK + i) * BLOCK, U32);
    var room := Wrap((start / BLOCK + i + 1) * BLOCK - at, U32);
    ghost var t := Turn(start, count, i);
    WrapShift((start / BLOCK + i + 1) * BLOCK - t, t - at);
    n := if left < room then left else room;
  }

  lemma FirstTurn(start: nat, count: nat)
    requires count > 0
    ensures Turn(start, count, 0) == start && Align(start) == start / BLOCK * BLOCK
  {
  }

  lemma LastTurn(start: nat, count: nat)
    requires count > 0
    ensures Turn(start, count, BlockCount(start, count)) == start + count
    ensures (start / BLOCK + BlockCount(start, count)) * BLOCK == Top(start, count)
  {
    var k := BlockCount(start, count);
    var q := start / BLOCK;
    assert (q + k) * BLOCK == q * BLOCK + k * BLOCK;
    assert start + count <= (q + k) * BLOCK < start + count + BLOCK;
  }

  lemma SameBoundary(a: nat)
    requires a % BLOCK == 0
    ensures (a + BLOCK) % BLOCK == 0
  {
  }

  lemma NextBlock(a: nat, b: nat)
    requires a % BLOCK == 0 && b % BLOCK == 0 && a < b
    ensures a + BLOCK <= b
  {
  }

  lemma SameContents(u: seq<Sector>, es: seq<Info>, at: nat, a: seq<Sector>, b: seq<Sector>)
    requires AllOk(es) && |a| == |b| && at + |a| <= |u| && Holds(u, es, at, a) && Holds(u, es, at, b)
    ensures a == b
  {
    forall i | 0 <= i < |a| ensures a[i] == b[i] {
      assert Seen(u, es, at + i) == a[at + i - at];
    }
  }
}
