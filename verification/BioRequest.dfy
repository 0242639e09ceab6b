/**
 A request and its chain of bios as blk_update_request and the merge functions change them
 (block/blk-core.c).  The chain is a sequence of records; a bio's segments are walked and
 trimmed as the C code does.
 */
module BioRequest {
  import opened BioItems

  /** A segment of a bio: page, offset and length. */
  datatype Vec = Vec(page: nat, offset: nat, len: nat)

  /** bi_sector, bi_size, bi_idx, bi_io_vec and BIO_UPTODATE. */
  datatype Bio = Bio(id: nat, sector: nat, size: nat, idx: nat, vecs: seq<Vec>, uptodate: bool)

  function VecBytes(v: Vec): seq<Addr> {
    seq(v.len, (i: nat) => (v.page, v.offset + i))
  }

  function AllBytes(vs: seq<Vec>): seq<Addr> {
    if vs == [] then [] else VecBytes(vs[0]) + AllBytes(vs[1..])
  }

  predicate WellFormed(b: Bio) {
    b.size > 0 && b.idx <= |b.vecs| && |AllBytes(b.vecs[b.idx..])| == b.size
  }

  predicate AllWellFormed(bs: seq<Bio>) {
    forall i | 0 <= i < |bs| :: WellFormed(bs[i])
  }

  function View(b: Bio): Item
    requires WellFormed(b)
  {
    Item(b.id, b.sector, AllBytes(b.vecs[b.idx..]), b.uptodate)
  }

  function Views(bs: seq<Bio>): (items: seq<Item>)
    requires AllWellFormed(bs)
    ensures |items| == |bs|
  {
    if bs == [] then [] else [View(bs[0])] + Views(bs[1..])
  }

  /** Bytes in the first k segments that the bio still has. */
  function Passed(b: Bio, k: nat): nat
    requires b.idx + k <= |b.vecs|
  {
    if k == 0 then 0 else Passed(b, k - 1) + b.vecs[b.idx + k - 1].len
  }

  lemma Unfold(vs: seq<Vec>, at: nat)
    requires at < |vs|
    ensures AllBytes(vs[at..]) == VecBytes(vs[at]) + AllBytes(vs[at + 1..])
  {
    assert vs[at..][0] == vs[at] && vs[at..][1..] == vs[at + 1..];
  }

  /** Past k segments, exactly their bytes are gone from the front. */
  lemma {:induction false} Skip(b: Bio, k: nat)
    requires b.idx + k <= |b.vecs|
    ensures Passed(b, k) <= |AllBytes(b.vecs[b.idx..])|
    ensures AllBytes(b.vecs[b.idx + k..]) == AllBytes(b.vecs[b.idx..])[Passed(b, k)..]
  {
    if k > 0 {
      Skip(b, k - 1);
      Unfold(b.vecs, b.idx + k - 1);
    }
  }

  /** The walk over the segments of a bio runs out of them only when its bytes are gone. */
  lemma Walk(b: Bio, k: nat)
    requires WellFormed(b) && b.idx + k <= |b.vecs|
    ensures Passed(b, k) <= b.size && (b.idx + k == |b.vecs| ==> Passed(b, k) == b.size)
  {
    Skip(b, k);
  }

  /** bv_offset and bv_len moved by r drop r bytes of the segment. */
  lemma TrimmedVec(v: Vec, r: nat)
    requires r <= v.len
    ensures VecBytes(Vec(v.page, v.offset + r, v.len - r)) == VecBytes(v)[r..]
  {
  }

  /** bi_idx += skip, and bv_offset and bv_len of the segment now first moved by r. */
  function Advance(b: Bio, skip: nat, r: nat): Bio
    requires b.idx + skip < |b.vecs| && r <= b.vecs[b.idx + skip].len
  {
    var v := b.vecs[b.idx + skip];
    b.(idx := b.idx + skip, vecs := b.vecs[b.idx + skip := Vec(v.page, v.offset + r, v.len - r)])
  }

  /** Skipping k segments and trimming the next by r drops the bytes they held. */
  lemma TrimmedBio(b: Bio, k: nat, r: nat)
    requires b.idx + k < |b.vecs| && r <= b.vecs[b.idx + k].len
    ensures var skipped := Passed(b, k) + r;
            var t := Advance(b, k, r);
            && skipped <= |AllBytes(b.vecs[b.idx..])|
            && AllBytes(t.vecs[t.idx..]) == AllBytes(b.vecs[b.idx..])[skipped..]
  {
    var at := b.idx + k;
    var t := Advance(b, k, r);
    Skip(b, k);
    Unfold(b.vecs, at);
    Unfold(t.vecs, at);
    assert t.vecs[at + 1..] == b.vecs[at + 1..];
    TrimmedVec(b.vecs[at], r);
  }

  /** req_bio_endio: account for nbytes of the bio, and finish it if nothing is left. */
  method ReqBioEndio(b: Bio, nbytes: nat, err: int, flushSeq: bool, swap: Hook) returns (r: Bio, ended: seq<Ended>)
    ensures var n := Min(nbytes, b.size);
            r == b.(size := b.size - n, sector := b.sector + n / 512, uptodate := b.uptodate && err == 0)
    ensures var error := if err != 0 then err else if !b.uptodate then EIO else 0;
            ended == if nbytes >= b.size && !flushSeq then [Ended(b.id, error, swap(b.id, error))] else []
  {
    var error, n := err, nbytes;
    r := b;
    if error != 0 {
      r := r.(uptodate := false);
    } else if !r.uptodate {
      error := EIO;
    }
    if n > r.size {
      n := r.size;
    }
    r := r.(size := r.size - n, sector := r.sector + n / 512);
    ended := [];
    if r.size == 0 && !flushSeq {
      ended := [Ended(r.id, error, swap(r.id, error))];
    }
  }

  /** Completing k more bytes of `chain` completes n bytes of `chain0`; `log` is reported. */
  ghost predicate Progress(chain0: seq<Bio>, n: nat, chain: seq<Bio>, k: nat, log: seq<Ended>,
                           err: int, flushSeq: bool, swap: Hook)
    requires AllWellFormed(chain0) && AllWellFormed(chain)
  {
    && Drop(Views(chain), k, err) == Drop(Views(chain0), n, err)
    && (if flushSeq then log == []
        else log + Log(Views(chain), k, err, swap) == Log(Views(chain0), n, err, swap))
    && n - k + |Flat(Views(chain))| == |Flat(Views(chain0))|
  }

  lemma FirstItem(items: seq<Item>, k: nat, err: int, swap: Hook)
    requires items != [] && 0 < |items[0].bytes| <= k
    ensures Drop(items, k, err) == Drop(items[1..], k - |items[0].bytes|, err)
    ensures Log(items, k, err, swap) == [End(items[0], err, swap)] + Log(items[1..], k - |items[0].bytes|, err, swap)
    ensures |Flat(items)| == |items[0].bytes| + |Flat(items[1..])|
  {
  }

  lemma FirstView(chain: seq<Bio>)
    requires AllWellFormed(chain) && chain != []
    ensures AllWellFormed(chain[1..]) && Views(chain)[0] == View(chain[0]) && Views(chain)[1..] == Views(chain[1..])
    ensures |View(chain[0]).bytes| == chain[0].size > 0
  {
  }

  /** The whole bio at the head is done: one pass of the loop. */
  lemma {:induction false} HeadDone(chain0: seq<Bio>, n: nat, chain: seq<Bio>, k: nat, log: seq<Ended>, ended: seq<Ended>,
                 err: int, flushSeq: bool, swap: Hook)
    requires AllWellFormed(chain0) && AllWellFormed(chain) && chain != [] && k >= chain[0].size
    requires Progress(chain0, n, chain, k, log, err, flushSeq, swap)
    requires ended == if flushSeq then [] else [End(View(chain[0]), err, swap)]
    ensures AllWellFormed(chain[1..])
    ensures Progress(chain0, n, chain[1..], k - chain[0].size, log + ended, err, flushSeq, swap)
  {
    hide Drop, Log, Flat, Views, AllBytes;
    FirstView(chain);
    FirstItem(Views(chain), k, err, swap);
    if !flushSeq {
      var more := Log(Views(chain[1..]), k - chain[0].size, err, swap);
      assert (log + ended) + more == log + (ended + more);
    }
  }

  /** Where the loop stands in the bio at the head of the chain. */
  predicate Inside(chain: seq<Bio>, nextIdx: nat, bioNbytes: nat, nr: nat) {
    if chain == [] then bioNbytes == 0
    else
      && chain[0].idx + nextIdx <= |chain[0].vecs| && bioNbytes == Passed(chain[0], nextIdx)
      && (nextIdx > 0 ==> bioNbytes + nr < chain[0].size)
  }

  /** How the loop ends: in chain[0], nextIdx whole segments and nr bytes further on. */
  ghost predicate Ends(chain0: seq<Bio>, n: nat, chain: seq<Bio>, log: seq<Ended>, total: nat,
                       nextIdx: nat, nr: nat, bioNbytes: nat, err: int, flushSeq: bool, swap: Hook)
    requires AllWellFormed(chain0)
  {
    && AllWellFormed(chain) && Drop(Views(chain), bioNbytes, err) == Drop(Views(chain0), n, err)
    && log == (if flushSeq then [] else Log(Views(chain0), n, err, swap))
    && total == Min(n, |Flat(Views(chain0))|)
    && (chain != [] && bioNbytes != 0 ==>
          && bioNbytes < chain[0].size && chain[0].idx + nextIdx < |chain[0].vecs|
          && nr <= chain[0].vecs[chain[0].idx + nextIdx].len
          && bioNbytes == Passed(chain[0], nextIdx) + nr)
  }

  /** The bytes are used up inside, or right before, the bio at the head. */
  lemma StopsInBio(chain0: seq<Bio>, n: nat, chain: seq<Bio>, log: seq<Ended>, nextIdx: nat, nr: nat, bioNbytes: nat,
                   err: int, flushSeq: bool, swap: Hook)
    requires AllWellFormed(chain0) && AllWellFormed(chain) && chain != []
    requires Progress(chain0, n, chain, bioNbytes, log, err, flushSeq, swap) && bioNbytes < chain[0].size
    requires bioNbytes != 0 ==>
      && chain[0].idx + nextIdx < |chain[0].vecs| && nr <= chain[0].vecs[chain[0].idx + nextIdx].len
      && bioNbytes == Passed(chain[0], nextIdx) + nr
    ensures Ends(chain0, n, chain, log, n, nextIdx, nr, bioNbytes, err, flushSeq, swap)
  {
    assert Views(chain)[0] == View(chain[0]);
    NothingLogged(chain, bioNbytes, err, log, swap);
    HeadFits(chain);
  }

  lemma NothingLogged(chain: seq<Bio>, k: nat, err: int, log: seq<Ended>, swap: Hook)
    requires AllWellFormed(chain) && chain != [] && k < chain[0].size
    ensures log + Log(Views(chain), k, err, swap) == log
  {
    assert Views(chain)[0] == View(chain[0]);
  }

  lemma HeadFits(chain: seq<Bio>)
    requires AllWellFormed(chain) && chain != []
    ensures chain[0].size <= |Flat(Views(chain))|
  {
    assert Views(chain)[0] == View(chain[0]);
  }

  /** The chain is used up. */
  lemma StopsAtEnd(chain0: seq<Bio>, n: nat, k: nat, log: seq<Ended>, nextIdx: nat, nr: nat, err: int, flushSeq: bool, swap: Hook)
    requires AllWellFormed(chain0) && k <= n && Progress(chain0, n, [], k, log, err, flushSeq, swap)
    ensures Ends(chain0, n, [], log, n - k, nextIdx, nr, 0, err, flushSeq, swap)
  {
    assert log + [] == log;
  }

  /** Part of the bio at the head is done: what the code does after its loop. */
  lemma HeadTrimmed(chain: seq<Bio>, skip: nat, r: nat, n: nat, err: int, head: Bio)
    requires AllWellFormed(chain) && chain != [] && 0 < n < chain[0].size
    requires chain[0].idx + skip < |chain[0].vecs| && r <= chain[0].vecs[chain[0].idx + skip].len
    requires n == Passed(chain[0], skip) + r
    requires head == Advance(chain[0].(size := chain[0].size - n, sector := chain[0].sector + n / 512,
                                       uptodate := chain[0].uptodate && err == 0), skip, r)
    ensures AllWellFormed([head] + chain[1..])
    ensures Views([head] + chain[1..]) == Drop(Views(chain), n, err)
  {
    HeadView(chain[0], skip, r, n, err, head);
    ReplacedHead(chain, head);
    assert Views(chain)[0] == View(chain[0]) && Views(chain)[1..] == Views(chain[1..]);
  }

  lemma HeadView(b: Bio, skip: nat, r: nat, n: nat, err: int, head: Bio)
    requires WellFormed(b) && 0 < n < b.size && b.idx + skip < |b.vecs| && r <= b.vecs[b.idx + skip].len
    requires n == Passed(b, skip) + r
    requires head == Advance(b.(size := b.size - n, sector := b.sector + n / 512, uptodate := b.uptodate && err == 0), skip, r)
    ensures WellFormed(head) && View(head) == Trim(View(b), n, err)
  {
    TrimmedBio(b, skip, r);
    var t := Advance(b, skip, r);
    assert head.vecs == t.vecs && head.idx == t.idx;
  }

  lemma ReplacedHead(chain: seq<Bio>, head: Bio)
    requires AllWellFormed(chain) && chain != [] && WellFormed(head)
    ensures AllWellFormed([head] + chain[1..])
    ensures Views([head] + chain[1..]) == [View(head)] + Views(chain[1..])
  {
    assert ([head] + chain[1..])[1..] == chain[1..];
  }

  /** The loop of blk_update_request and the fix-up of the bio it stops in. */
  method CompleteBytes(chain0: seq<Bio>, n: nat, err: int, flushSeq: bool, swap: Hook)
    returns (chain: seq<Bio>, log: seq<Ended>, total: nat, overrun: bool)
    requires AllWellFormed(chain0)
    ensures !overrun && AllWellFormed(chain)
    ensures Views(chain) == Drop(Views(chain0), n, err)
    ensures log == if flushSeq then [] else Log(Views(chain0), n, err, swap)
    ensures total == Min(n, |Flat(Views(chain0))|)
  {
    hide Log, Flat, AllBytes;
    var nextIdx: nat, nr: nat, bioNbytes: nat;
    chain, log, total, overrun, nextIdx, nr, bioNbytes := Consume(chain0, n, err, flushSeq, swap);
    if chain != [] && bioNbytes != 0 {
      var head, _ := ReqBioEndio(chain[0], bioNbytes, err, flushSeq, swap);
      head := Advance(head, nextIdx, nr);
      HeadTrimmed(chain, nextIdx, nr, bioNbytes, err, head);
      chain := [head] + chain[1..];
    }
  }

  /** The state of the loop at its head. */
  ghost predicate Loop(chain0: seq<Bio>, n: nat, chain: seq<Bio>, log: seq<Ended>, total: nat,
                       nextIdx: nat, nr: nat, bioNbytes: nat, err: int, flushSeq: bool, swap: Hook)
    requires AllWellFormed(chain0)
  {
    && AllWellFormed(chain) && total + nr == n
    && Progress(chain0, n, chain, bioNbytes + nr, log, err, flushSeq, swap)
    && Inside(chain, nextIdx, bioNbytes, nr)
  }

  /** One pass: a bio that is covered whole. */
  method TakeBio(ghost chain0: seq<Bio>, ghost n: nat, chain: seq<Bio>, log: seq<Ended>, total: nat, ghost nextIdx: nat, nr: nat,
                 ghost bioNbytes: nat, err: int, flushSeq: bool, swap: Hook)
    returns (stop: bool, chain': seq<Bio>, log': seq<Ended>, total': nat, nr': nat)
    requires AllWellFormed(chain0) && chain != [] && nr >= chain[0].size
    requires Loop(chain0, n, chain, log, total, nextIdx, nr, bioNbytes, err, flushSeq, swap)
    ensures chain' == chain[1..]
    ensures stop ==> Ends(chain0, n, chain', log', total', 0, nr', 0, err, flushSeq, swap)
    ensures !stop ==> Loop(chain0, n, chain', log', total', 0, nr', 0, err, flushSeq, swap)
  {
    hide Drop, Log, Flat, AllBytes;
    AtStart(chain, nextIdx, nr, bioNbytes);
    var _, ended := ReqBioEndio(chain[0], chain[0].size, err, flushSeq, swap);
    HeadDone(chain0, n, chain, nr, log, ended, err, flushSeq, swap);
    chain', log', total', nr' := chain[1..], log + ended, total + chain[0].size, nr - chain[0].size;
    stop := chain' != [] && nr' <= 0;
    if stop {
      StopsInBio(chain0, n, chain', log', 0, nr', 0, err, flushSeq, swap);
    }
  }

  lemma AtStart(chain: seq<Bio>, nextIdx: nat, nr: nat, bioNbytes: nat)
    requires chain != [] && nr >= chain[0].size && Inside(chain, nextIdx, bioNbytes, nr)
    ensures nextIdx == 0 && bioNbytes == 0
  {
  }

  /** One pass: the next segment of a bio that is covered in part. */
  method TakeSegment(ghost chain0: seq<Bio>, ghost n: nat, chain: seq<Bio>, ghost log: seq<Ended>, total: nat, nextIdx: nat, nr: nat,
                     bioNbytes: nat, ghost err: int, ghost flushSeq: bool, ghost swap: Hook)
    returns (stop: bool, overrun: bool, total': nat, nextIdx': nat, nr': nat, bioNbytes': nat)
    requires AllWellFormed(chain0) && chain != [] && nr < chain[0].size
    requires Loop(chain0, n, chain, log, total, nextIdx, nr, bioNbytes, err, flushSeq, swap)
    ensures !overrun
    ensures stop ==> Ends(chain0, n, chain, log, total', nextIdx', nr', bioNbytes', err, flushSeq, swap)
    ensures !stop ==> Loop(chain0, n, chain, log, total', nextIdx', nr', bioNbytes', err, flushSeq, swap)
    ensures !stop ==> nextIdx' == nextIdx + 1
  {
    hide Drop, Log, Flat, Views, AllBytes;
    total', nextIdx', nr', bioNbytes', overrun, stop := total, nextIdx, nr, bioNbytes, false, true;
    SegmentFacts(chain, nextIdx, nr, bioNbytes);
    var idx := chain[0].idx + nextIdx;
    if idx >= |chain[0].vecs| {
      overrun := true;
      return;
    }
    var nbytes := chain[0].vecs[idx].len;
    if nbytes > nr {
      bioNbytes', total' := bioNbytes + nr, total + nr;
      StopsInBio(chain0, n, chain, log, nextIdx, nr, bioNbytes', err, flushSeq, swap);
      return;
    }
    nextIdx', bioNbytes', total', nr' := nextIdx + 1, bioNbytes + nbytes, total + nbytes, nr - nbytes;
    stop := nr' <= 0;
    if stop {
      StopsInBio(chain0, n, chain, log, nextIdx', nr', bioNbytes', err, flushSeq, swap);
    }
  }

  lemma SegmentFacts(chain: seq<Bio>, nextIdx: nat, nr: nat, bioNbytes: nat)
    requires AllWellFormed(chain) && chain != [] && nr < chain[0].size && Inside(chain, nextIdx, bioNbytes, nr)
    ensures bioNbytes + nr < chain[0].size && chain[0].idx + nextIdx < |chain[0].vecs|
    ensures bioNbytes == Passed(chain[0], nextIdx)
    ensures
      var len := chain[0].vecs[chain[0].idx + nextIdx].len;
      len <= nr ==>
        && Inside(chain, nextIdx + 1, bioNbytes + len, nr - len) && bioNbytes + len == Passed(chain[0], nextIdx + 1)
        && chain[0].idx + nextIdx + 1 < |chain[0].vecs|
  {
    InBio(chain, nextIdx, nr, bioNbytes);
    Walk(chain[0], nextIdx + 1);
  }

  lemma InBio(chain: seq<Bio>, nextIdx: nat, nr: nat, bioNbytes: nat)
    requires AllWellFormed(chain) && chain != [] && nr < chain[0].size && Inside(chain, nextIdx, bioNbytes, nr)
    ensures bioNbytes + nr < chain[0].size && chain[0].idx + nextIdx < |chain[0].vecs|
  {
    Walk(chain[0], nextIdx);
  }

  /** The loop alone. */
  method Consume(chain0: seq<Bio>, n: nat, err: int, flushSeq: bool, swap: Hook)
    returns (chain: seq<Bio>, log: seq<Ended>, total: nat, overrun: bool, nextIdx: nat, nr: nat, bioNbytes: nat)
    requires AllWellFormed(chain0)
    ensures !overrun && Ends(chain0, n, chain, log, total, nextIdx, nr, bioNbytes, err, flushSeq, swap)
  {
    chain, log, total, overrun := chain0, [], 0, false;
    nr, bioNbytes, nextIdx := n, 0, 0;
    assert [] + Log(Views(chain0), n, err, swap) == Log(Views(chain0), n, err, swap);
    while chain != []
      invariant !overrun && Loop(chain0, n, chain, log, total, nextIdx, nr, bioNbytes, err, flushSeq, swap)
      decreases |chain|, if chain == [] then 0 else |chain[0].vecs| - nextIdx
    {
      var stop;
      if nr >= chain[0].size {
        stop, chain, log, total, nr := TakeBio(chain0, n, chain, log, total, nextIdx, nr, bioNbytes, err, flushSeq, swap);
        nextIdx, bioNbytes := 0, 0;
      } else {
        InBio(chain, nextIdx, nr, bioNbytes);
        stop, overrun, total, nextIdx, nr, bioNbytes :=
          TakeSegment(chain0, n, chain, log, total, nextIdx, nr, bioNbytes, err, flushSeq, swap);
      }
      if stop {
        return;
      }
    }
    StopsAtEnd(chain0, n, nr, log, nextIdx, nr, err, flushSeq, swap);
  }

  lemma {:induction false} ViewsConcat(a: seq<Bio>, b: seq<Bio>)
    requires AllWellFormed(a) && AllWellFormed(b)
    ensures AllWellFormed(a + b) && Views(a + b) == Views(a) + Views(b)
  {
    hide AllBytes, View, WellFormed;
    if a == [] {
      assert a + b == b;
    } else {
      ViewsConcat(a[1..], b);
      assert (a + b)[1..] == a[1..] + b && (a + b)[0] == a[0];
    }
  }

  lemma ViewOne(b: Bio)
    requires WellFormed(b)
    ensures AllWellFormed([b]) && Views([b]) == [View(b)] && Flat([View(b)]) == View(b).bytes
  {
    assert [b][1..] == [] && [View(b)][1..] == [];
  }

  function Max(a: nat, b: nat): nat { if a < b then b else a }

  class Request {
    var bios: seq<Bio>
    var biotail: nat
    var sector: nat
    var dataLen: nat
    const fs: bool
    const flushSeq: bool
    var ended: seq<Ended>

    ghost predicate Valid()
      reads this
    {
      && AllWellFormed(bios) && dataLen == |Flat(Views(bios))|
      && (bios != [] ==> biotail == bios[|bios| - 1].id)
    }

    ghost function Abs(): Req
      reads this
      requires Valid()
    {
      Req(Views(bios), sector, dataLen)
    }

    /** init_request_from_bio and blk_rq_bio_prep */
    constructor FromBio(bio: Bio, flushSeq: bool)
      requires WellFormed(bio)
      ensures Valid() && Abs() == Req([View(bio)], bio.sector, bio.size) && ended == [] && fs
    {
      fs, this.flushSeq := true, flushSeq;
      sector, dataLen := bio.sector, bio.size;
      bios, biotail := [bio], bio.id;
      ended := [];
      ViewOne(bio);
    }

    /** bio_attempt_back_merge; `ok` is the answer of ll_back_merge_fn. */
    method BackMerge(bio: Bio, ok: bool) returns (merged: bool)
      requires Valid() && WellFormed(bio) && bios != []
      modifies this`bios, this`biotail, this`dataLen
      ensures Valid() && merged == ok
      ensures Abs() == if ok then Do(old(Abs()), Op.BackMerge(View(bio))) else old(Abs())
    {
      if !ok {
        return false;
      }
      ViewOne(bio);
      ViewsConcat(bios, [bio]);
      FlatConcat(Views(bios), [View(bio)]);
      bios := bios + [bio];
      biotail := bio.id;
      dataLen := dataLen + bio.size;
      return true;
    }

    /** bio_attempt_front_merge; `ok` is the answer of ll_front_merge_fn. */
    method FrontMerge(bio: Bio, ok: bool) returns (merged: bool)
      requires Valid() && WellFormed(bio) && bios != []
      modifies this`bios, this`sector, this`dataLen
      ensures Valid() && merged == ok
      ensures Abs() == if ok then Do(old(Abs()), Op.FrontMerge(View(bio))) else old(Abs())
    {
      if !ok {
        return false;
      }
      ViewOne(bio);
      ViewsConcat([bio], bios);
      FlatConcat([View(bio)], Views(bios));
      bios := [bio] + bios;
      sector := bio.sector;
      dataLen := dataLen + bio.size;
      return true;
    }

    /**
     blk_update_request.  `overrun` and `botched` tell whether it reached the branches that
     report "bio idx >= vcnt" and "request botched".
     */
    method Update(err: int, nrBytes: nat, swap: Hook) returns (more: bool, overrun: bool, botched: bool)
      requires Valid()
      modifies this`bios, this`sector, this`dataLen, this`ended
      ensures Valid() && !overrun && !botched
      ensures Views(bios) == Drop(old(Abs()).items, nrBytes, err)
      ensures Flat(Views(bios)) == Flat(old(Abs()).items)[Min(nrBytes, old(dataLen))..]
      ensures more <==> nrBytes < old(dataLen)
      ensures fs ==> Abs() == Do(old(Abs()), Complete(nrBytes, err))
      ensures !fs ==> sector == old(sector)
      ensures dataLen == old(dataLen) - Min(nrBytes, old(dataLen))
      ensures ended == old(ended) + if flushSeq then [] else Log(old(Abs()).items, nrBytes, err, swap)
    {
      hide Drop, Log, Flat, Views, AllBytes;
      if bios == [] {
        NothingToUpdate(nrBytes, err, swap);
        return false, false, false;
      }
      var chain, log, total, over := CompleteBytes(bios, nrBytes, err, flushSeq, swap);
      AfterUpdate(bios, chain, nrBytes, err);
      UpdatedReq(bios, chain, sector, nrBytes, err);
      bios, ended, overrun := chain, ended + log, over;
      if bios == [] {
        dataLen := 0;
        return false, overrun, false;
      }
      if fs {
        sector := sector + total / 512;
      }
      var left: nat, cur: nat := dataLen - total, bios[0].vecs[bios[0].idx].len;
      botched := left < cur;
      dataLen := Max(left, cur);
      more := true;
    }
  }

  lemma {:induction false} FlatConcat(a: seq<Item>, b: seq<Item>)
    ensures Flat(a + b) == Flat(a) + Flat(b)
  {
    if a == [] {
      assert a + b == b;
    } else {
      FlatConcat(a[1..], b);
      assert (a + b)[0] == a[0] && (a + b)[1..] == a[1..] + b;
      Associative(a[0].bytes, Flat(a[1..]), Flat(b));
    }
  }

  lemma Associative(x: seq<Addr>, y: seq<Addr>, z: seq<Addr>)
    ensures (x + y) + z == x + (y + z)
  {
  }

  lemma {:induction false} ViewsNonEmpty(bs: seq<Bio>)
    requires AllWellFormed(bs)
    ensures NonEmpty(Views(bs))
  {
    if bs != [] {
      ViewsNonEmpty(bs[1..]);
    }
  }

  lemma {:induction false} ViewsLast(bs: seq<Bio>)
    requires AllWellFormed(bs) && bs != []
    ensures Views(bs)[|bs| - 1].id == bs[|bs| - 1].id
  {
    if |bs| > 1 {
      ViewsLast(bs[1..]);
    }
  }

  lemma {:induction false} DropKeepsLast(items: seq<Item>, n: nat, err: int)
    requires Drop(items, n, err) != []
    ensures var rest := Drop(items, n, err); items != [] && rest[|rest| - 1].id == items[|items| - 1].id
  {
    if n != 0 && n >= |items[0].bytes| {
      DropKeepsLast(items[1..], n - |items[0].bytes|, err);
    }
  }

  /** What the rest of blk_update_request relies on after its loop. */
  lemma AfterUpdate(bs: seq<Bio>, chain: seq<Bio>, n: nat, err: int)
    requires AllWellFormed(bs) && AllWellFormed(chain) && Views(chain) == Drop(Views(bs), n, err)
    ensures chain == [] <==> n >= |Flat(Views(bs))|
    ensures Flat(Views(chain)) == Flat(Views(bs))[Min(n, |Flat(Views(bs))|)..]
    ensures chain != [] ==>
              && bs != [] && chain[|chain| - 1].id == bs[|bs| - 1].id
              && chain[0].idx < |chain[0].vecs| && chain[0].vecs[chain[0].idx].len <= |Flat(Views(chain))|
  {
    ViewsNonEmpty(bs);
    DropKeepsNonEmpty(Views(bs), n, err);
    DropDropsBytes(Views(bs), n, err);
    if chain != [] {
      DropKeepsLast(Views(bs), n, err);
      ViewsLast(bs);
      ViewsLast(chain);
      FirstVec(chain);
    }
  }

  lemma NothingToUpdate(n: nat, err: int, swap: Hook)
    ensures Views([]) == [] && Flat([]) == [] && Drop([], n, err) == [] && Log([], n, err, swap) == []
  {
  }

  /** What is left of the request, in its three fields. */
  lemma UpdatedReq(bs: seq<Bio>, chain: seq<Bio>, sector: nat, n: nat, err: int)
    requires AllWellFormed(bs) && AllWellFormed(chain) && Views(chain) == Drop(Views(bs), n, err)
    ensures
      var len := |Flat(Views(bs))|;
      var r := Do(Req(Views(bs), sector, len), Complete(n, err));
      && (chain == [] ==> r == Req([], sector, 0))
      && (chain != [] ==> n < len && r == Req(Views(chain), sector + n / 512, len - n) && |Flat(Views(chain))| == len - n)
  {
    ViewsNonEmpty(bs);
    DropKeepsNonEmpty(Views(bs), n, err);
    DropDropsBytes(Views(bs), n, err);
  }

  lemma FirstVec(chain: seq<Bio>)
    requires AllWellFormed(chain) && chain != []
    ensures chain[0].idx < |chain[0].vecs| && chain[0].vecs[chain[0].idx].len <= |Flat(Views(chain))|
  {
    var b := chain[0];
    Walk(b, 0);
    Unfold(b.vecs, b.idx);
    assert Views(chain)[0] == View(b);
  }
}
