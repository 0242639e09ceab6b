/**
 What a request carries, and what completing some of its bytes means (block/blk-core.c).
 An item is a bio seen from outside: where its next byte goes on the device and which
 memory bytes are still to be transferred.  Module BioRequest shows that the in-place
 bookkeeping of blk_update_request implements Drop and Log below.
 */
module BioItems {

  /** A byte of memory: page and offset in it. */
  type Addr = (nat, nat)

  datatype Item = Item(id: nat, sector: nat, bytes: seq<Addr>, uptodate: bool)

  /** How a bio was finished: by bio_endio, or by the swap engine, which will end it later. */
  datatype Ended = Ended(id: nat, error: int, bySwap: bool)

  /** swap_bio as blk_update_request sees it: does it take over this bio with this error? */
  type Hook = (nat, int) -> bool

  const EIO := -5

  /** The error that req_bio_endio reports for a bio it finishes. */
  function Verdict(it: Item, err: int): int {
    if err != 0 then err else if !it.uptodate then EIO else 0
  }

  function End(it: Item, err: int, swap: Hook): Ended {
    Ended(it.id, Verdict(it, err), swap(it.id, Verdict(it, err)))
  }

  /** The item after its first n bytes are done. */
  function Trim(it: Item, n: nat, err: int): Item
    requires n <= |it.bytes|
  {
    Item(it.id, it.sector + n / 512, it.bytes[n..], it.uptodate && err == 0)
  }

  /** What is left after completing n bytes with the given error. */
  function Drop(items: seq<Item>, n: nat, err: int): seq<Item> {
    if items == [] || n == 0 then items
    else if n >= |items[0].bytes| then Drop(items[1..], n - |items[0].bytes|, err)
    else [Trim(items[0], n, err)] + items[1..]
  }

  /** The bios that completing n bytes finishes, in the order in which they are ended. */
  function Log(items: seq<Item>, n: nat, err: int, swap: Hook): seq<Ended> {
    if items == [] || n == 0 || n < |items[0].bytes| then []
    else [End(items[0], err, swap)] + Log(items[1..], n - |items[0].bytes|, err, swap)
  }

  /** All bytes of a request, in transfer order. */
  function Flat(items: seq<Item>): seq<Addr> {
    if items == [] then [] else items[0].bytes + Flat(items[1..])
  }

  predicate NonEmpty(items: seq<Item>) {
    forall i | 0 <= i < |items| :: items[i].bytes != []
  }

  function Min(a: nat, b: nat): nat { if a < b then a else b }

  // ---- Completing bytes drops them -------------------------------------------------

  /** Exactly the first n bytes, or all of them, go away. */
  lemma {:induction false} DropDropsBytes(items: seq<Item>, n: nat, err: int)
    ensures Flat(Drop(items, n, err)) == Flat(items)[Min(n, |Flat(items)|)..]
  {
    if items != [] && n != 0 {
      var h := items[0].bytes;
      if n >= |h| {
        DropDropsBytes(items[1..], n - |h|, err);
      } else {
        assert ([Trim(items[0], n, err)] + items[1..])[1..] == items[1..];
      }
    }
  }

  lemma {:induction false} DropKeepsNonEmpty(items: seq<Item>, n: nat, err: int)
    requires NonEmpty(items)
    ensures NonEmpty(Drop(items, n, err))
    ensures Drop(items, n, err) == [] <==> n >= |Flat(items)|
  {
    if items != [] && n != 0 && n >= |items[0].bytes| {
      DropKeepsNonEmpty(items[1..], n - |items[0].bytes|, err);
    } else if items != [] && n != 0 {
      assert forall i | 0 < i < |items| :: Drop(items, n, err)[i] == items[i];
    }
  }

  /** Two completions leave the bytes that one of their total length would leave. */
  lemma {:induction false} CompletionsCompose(items: seq<Item>, n1: nat, e1: int, n2: nat, e2: int, e: int)
    ensures Flat(Drop(Drop(items, n1, e1), n2, e2)) == Flat(Drop(items, n1 + n2, e))
  {
    hide Drop, Flat;
    DropDropsBytes(items, n1, e1);
    DropDropsBytes(Drop(items, n1, e1), n2, e2);
    DropDropsBytes(items, n1 + n2, e);
    SlicesCompose(Flat(items), Flat(Drop(items, n1, e1)), Flat(Drop(Drop(items, n1, e1), n2, e2)),
                  Flat(Drop(items, n1 + n2, e)), n1, n2);
  }

  lemma {:induction false} SlicesCompose(s: seq<Addr>, t: seq<Addr>, u: seq<Addr>, v: seq<Addr>, a: nat, b: nat)
    requires t == s[Min(a, |s|)..] && u == t[Min(b, |t|)..] && v == s[Min(a + b, |s|)..]
    ensures u == v
  {
  }

  predicate Aligned(items: seq<Item>) {
    forall i | 0 <= i < |items| :: |items[i].bytes| % 512 == 0
  }

  lemma {:induction false} TrimTwice(it: Item, n1: nat, n2: nat, e: int)
    requires n1 % 512 == 0 && n1 + n2 <= |it.bytes|
    ensures Trim(Trim(it, n1, e), n2, e) == Trim(it, n1 + n2, e)
  {
    assert it.bytes[n1..][n2..] == it.bytes[n1 + n2..];
  }

  lemma {:induction false} DropsCompose(items: seq<Item>, n1: nat, n2: nat, e: int)
    requires NonEmpty(items) && Aligned(items) && n1 % 512 == 0
    ensures Drop(Drop(items, n1, e), n2, e) == Drop(items, n1 + n2, e)
  {
    if items != [] && n1 != 0 {
      var h := |items[0].bytes|;
      if n1 >= h {
        DropsCompose(items[1..], n1 - h, n2, e);
      } else {
        DropInside(items, n1, n2, e);
      }
    }
  }

  lemma {:induction false} DropInside(items: seq<Item>, n1: nat, n2: nat, e: int)
    requires items != [] && n1 % 512 == 0 && 0 < n1 < |items[0].bytes|
    ensures Drop(Drop(items, n1, e), n2, e) == Drop(items, n1 + n2, e)
  {
    var rest := Drop(items, n1, e);
    assert rest[0] == Trim(items[0], n1, e) && rest[1..] == items[1..];
    if n1 + n2 < |items[0].bytes| {
      TrimTwice(items[0], n1, n2, e);
    }
  }

  lemma {:induction false} LogsCompose(items: seq<Item>, n1: nat, n2: nat, e: int, swap: Hook)
    requires NonEmpty(items) && Aligned(items) && n1 % 512 == 0
    ensures Log(items, n1, e, swap) + Log(Drop(items, n1, e), n2, e, swap) == Log(items, n1 + n2, e, swap)
  {
    if items == [] || n1 == 0 {
      assert [] + Log(items, n2, e, swap) == Log(items, n2, e, swap);
    } else {
      var h := |items[0].bytes|;
      if n1 >= h {
        LogsCompose(items[1..], n1 - h, n2, e, swap);
        LogFirst(items, n1, n2, e, swap);
      } else {
        LogInside(items, n1, n2, e, swap);
      }
    }
  }

  lemma {:induction false} LogInside(items: seq<Item>, n1: nat, n2: nat, e: int, swap: Hook)
    requires items != [] && 0 < n1 < |items[0].bytes|
    ensures Log(items, n1, e, swap) + Log(Drop(items, n1, e), n2, e, swap) == Log(items, n1 + n2, e, swap)
  {
    var rest := Drop(items, n1, e);
    assert rest[0] == Trim(items[0], n1, e) && rest[1..] == items[1..];
  }

  lemma {:induction false} LogFirst(items: seq<Item>, n1: nat, n2: nat, e: int, swap: Hook)
    requires items != [] && 0 < |items[0].bytes| <= n1
    requires
      var m := n1 - |items[0].bytes|;
      Log(items[1..], m, e, swap) + Log(Drop(items[1..], m, e), n2, e, swap) == Log(items[1..], m + n2, e, swap)
    ensures Log(items, n1, e, swap) + Log(Drop(items, n1, e), n2, e, swap) == Log(items, n1 + n2, e, swap)
  {
    var m, first := n1 - |items[0].bytes|, [End(items[0], e, swap)];
    Regroup(first, Log(items[1..], m, e, swap), Log(Drop(items[1..], m, e), n2, e, swap));
  }

  lemma {:induction false} Regroup(x: seq<Ended>, y: seq<Ended>, z: seq<Ended>)
    ensures (x + y) + z == x + (y + z)
  {
  }

  /** On sector boundaries and with one error code, they agree in every field and every report. */
  lemma {:induction false} AlignedCompletionsCompose(items: seq<Item>, n1: nat, n2: nat, e: int, swap: Hook)
    requires NonEmpty(items) && Aligned(items) && n1 % 512 == 0
    ensures Drop(Drop(items, n1, e), n2, e) == Drop(items, n1 + n2, e)
    ensures Log(items, n1, e, swap) + Log(Drop(items, n1, e), n2, e, swap) == Log(items, n1 + n2, e, swap)
  {
    DropsCompose(items, n1, n2, e);
    LogsCompose(items, n1, n2, e, swap);
  }

  // ---- Every bio is ended once, in order, and with an error if any part of it failed ----

  datatype Completion = Completion(n: nat, err: int)

  /** Reports over a whole sequence of completions. */
  function Reports(items: seq<Item>, cs: seq<Completion>, swap: Hook): seq<Ended>
    decreases cs
  {
    if cs == [] then []
    else Log(items, cs[0].n, cs[0].err, swap) + Reports(Drop(items, cs[0].n, cs[0].err), cs[1..], swap)
  }

  function Total(cs: seq<Completion>): nat { if cs == [] then 0 else cs[0].n + Total(cs[1..]) }

  /** Some failing completion covers one of the bytes lo, lo + 1, ... hi - 1 of the request. */
  predicate Touched(cs: seq<Completion>, lo: int, hi: int) {
    cs != [] &&
    ((cs[0].err != 0 && 0 < hi && lo < cs[0].n && lo < hi && 0 < cs[0].n) || Touched(cs[1..], lo - cs[0].n, hi - cs[0].n))
  }

  lemma {:induction false} NothingTouchesThePast(cs: seq<Completion>, lo: int, hi: int)
    requires hi <= 0
    ensures !Touched(cs, lo, hi)
  {
    if cs != [] {
      NothingTouchesThePast(cs[1..], lo - cs[0].n, hi - cs[0].n);
    }
  }

  lemma {:induction false} PastBytesDoNotMatter(cs: seq<Completion>, lo: int, lo': int, hi: int)
    requires lo <= 0 && lo' <= 0
    ensures Touched(cs, lo, hi) == Touched(cs, lo', hi)
  {
    if hi <= 0 {
      NothingTouchesThePast(cs, lo, hi);
      NothingTouchesThePast(cs, lo', hi);
    } else if cs != [] {
      PastBytesDoNotMatter(cs[1..], lo - cs[0].n, lo' - cs[0].n, hi - cs[0].n);
    }
  }

  /** The error of the completion that covers the last byte before hi. */
  function Finisher(cs: seq<Completion>, hi: int): int {
    if cs == [] then 0 else if hi <= cs[0].n then cs[0].err else Finisher(cs[1..], hi - cs[0].n)
  }

  /**
   The reports are one per bio, in chain order, each failed just when the bio was not up to
   date or some failing completion covered one of its bytes; the items begin at byte `at`.
   The error reported is that of the completion that finishes the bio, or else -EIO (-5), and
   the swap engine has been asked about just this bio and this error.
   */
  predicate ReportsExactly(items: seq<Item>, at: nat, cs: seq<Completion>, swap: Hook, log: seq<Ended>) {
    if items == [] then log == []
    else
      var end := at + |items[0].bytes|;
      var failed := !items[0].uptodate || Touched(cs, at, end);
      && log != [] && log[0].id == items[0].id
      && (log[0].error != 0 <==> failed)
      && (failed ==> log[0].error == if Finisher(cs, end) != 0 then Finisher(cs, end) else -5)
      && (log[0].bySwap <==> swap(items[0].id, log[0].error))
      && ReportsExactly(items[1..], end, cs, swap, log[1..])
  }

  /** A completion of n bytes that lie before the items changes nothing for them. */
  lemma {:induction false} AfterCompletion(items: seq<Item>, at: nat, c: Completion, cs: seq<Completion>, swap: Hook, log: seq<Ended>)
    requires NonEmpty(items) && ReportsExactly(items, at, cs, swap, log)
    ensures ReportsExactly(items, at + c.n, [c] + cs, swap, log)
  {
    assert ([c] + cs)[1..] == cs;
    if items != [] {
      AfterCompletion(items[1..], at + |items[0].bytes|, c, cs, swap, log[1..]);
    }
  }

  /** Nor do the first h bytes of the running completion, if they lie before the items. */
  lemma {:induction false} AfterPartOf(items: seq<Item>, at: nat, h: nat, c: Completion, cs: seq<Completion>, swap: Hook, log: seq<Ended>)
    requires h <= c.n && ReportsExactly(items, at, [Completion(c.n - h, c.err)] + cs, swap, log)
    ensures ReportsExactly(items, at + h, [c] + cs, swap, log)
  {
    assert ([c] + cs)[1..] == cs && ([Completion(c.n - h, c.err)] + cs)[1..] == cs;
    if items != [] {
      AfterPartOf(items[1..], at + |items[0].bytes|, h, c, cs, swap, log[1..]);
    }
  }

  lemma {:induction false} ReportsCons(items: seq<Item>, at: nat, cs: seq<Completion>, swap: Hook, e: Ended, log: seq<Ended>)
    requires items != [] && e.id == items[0].id
    requires e.error != 0 <==> !items[0].uptodate || Touched(cs, at, at + |items[0].bytes|)
    requires e.error != 0 ==>
      var last := Finisher(cs, at + |items[0].bytes|); e.error == if last != 0 then last else -5
    requires e.bySwap <==> swap(e.id, e.error)
    requires ReportsExactly(items[1..], at + |items[0].bytes|, cs, swap, log)
    ensures ReportsExactly(items, at, cs, swap, [e] + log)
  {
    assert ([e] + log)[1..] == log;
  }

  /** Over any completions that cover the request, every bio is ended exactly once and rightly. */
  lemma {:induction false} EveryBioEndsOnce(items: seq<Item>, cs: seq<Completion>, swap: Hook)
    requires NonEmpty(items) && Total(cs) >= |Flat(items)|
    ensures ReportsExactly(items, 0, cs, swap, Reports(items, cs, swap))
    decreases |cs|, |items|
  {
    if items == [] {
      NothingLeft(cs, swap);
    } else if cs[0].n == 0 {
      EveryBioEndsOnce(items, cs[1..], swap);
      NothingDone(items, cs, swap);
    } else if cs[0].n < |items[0].bytes| {
      HeadIsTrimmed(items, cs, swap);
    } else {
      HeadIsEnded(items, cs, swap);
    }
  }

  lemma {:induction false} NothingDone(items: seq<Item>, cs: seq<Completion>, swap: Hook)
    requires NonEmpty(items) && items != [] && cs != [] && cs[0].n == 0
    requires ReportsExactly(items, 0, cs[1..], swap, Reports(items, cs[1..], swap))
    ensures ReportsExactly(items, 0, cs, swap, Reports(items, cs, swap))
  {
    var log := Reports(items, cs[1..], swap);
    assert Reports(items, cs, swap) == [] + log == log;
    StillRight(items, cs, swap, log);
  }

  lemma {:induction false} StillRight(items: seq<Item>, cs: seq<Completion>, swap: Hook, log: seq<Ended>)
    requires NonEmpty(items) && cs != [] && cs[0].n == 0 && ReportsExactly(items, 0, cs[1..], swap, log)
    ensures ReportsExactly(items, 0, cs, swap, log)
  {
    assert cs == [cs[0]] + cs[1..];
    AfterCompletion(items, 0, cs[0], cs[1..], swap, log);
  }

  lemma {:induction false} HeadIsTrimmed(items: seq<Item>, cs: seq<Completion>, swap: Hook)
    requires NonEmpty(items) && items != [] && cs != [] && Total(cs) >= |Flat(items)|
    requires 0 < cs[0].n < |items[0].bytes|
    ensures ReportsExactly(items, 0, cs, swap, Reports(items, cs, swap))
    decreases |cs|, |items|, 0
  {
    var rest := Drop(items, cs[0].n, cs[0].err);
    DropDropsBytes(items, cs[0].n, cs[0].err);
    DropKeepsNonEmpty(items, cs[0].n, cs[0].err);
    EveryBioEndsOnce(rest, cs[1..], swap);
    assert [] + Reports(rest, cs[1..], swap) == Reports(rest, cs[1..], swap);
    TrimmedReports(items, rest, cs, swap, Reports(rest, cs[1..], swap));
  }

  /** Reports that are right for what is left of the first bio are right for the whole of it. */
  lemma {:induction false} TrimmedReports(items: seq<Item>, rest: seq<Item>, cs: seq<Completion>, swap: Hook, log: seq<Ended>)
    requires NonEmpty(items) && items != [] && cs != [] && 0 < cs[0].n < |items[0].bytes|
    requires rest == [Trim(items[0], cs[0].n, cs[0].err)] + items[1..] && ReportsExactly(rest, 0, cs[1..], swap, log)
    ensures ReportsExactly(items, 0, cs, swap, log)
  {
    var n, h := cs[0].n, |items[0].bytes|;
    assert rest[1..] == items[1..] && [cs[0]] + cs[1..] == cs;
    PastBytesDoNotMatter(cs[1..], -(n as int), 0, h - n);
    AfterCompletion(items[1..], h - n, cs[0], cs[1..], swap, log[1..]);
  }

  lemma {:induction false} HeadFirst(items: seq<Item>, c: Completion, cs: seq<Completion>, swap: Hook)
    requires items != [] && 0 < |items[0].bytes| <= c.n
    ensures Reports(items, [c] + cs, swap)
            == [End(items[0], c.err, swap)]
               + Reports(items[1..], [Completion(c.n - |items[0].bytes|, c.err)] + cs, swap)
  {
    var c' := Completion(c.n - |items[0].bytes|, c.err);
    assert ([c] + cs)[1..] == cs && ([c'] + cs)[1..] == cs;
  }

  lemma {:induction false} TouchedFirst(cs: seq<Completion>, h: nat)
    requires cs != [] && 0 < h <= cs[0].n
    ensures Touched(cs, 0, h) <==> cs[0].err != 0
  {
    NothingTouchesThePast(cs[1..], -(cs[0].n as int), h - cs[0].n);
  }

  lemma {:induction false} HeadIsEnded(items: seq<Item>, cs: seq<Completion>, swap: Hook)
    requires NonEmpty(items) && items != [] && cs != [] && Total(cs) >= |Flat(items)|
    requires |items[0].bytes| <= cs[0].n
    ensures ReportsExactly(items, 0, cs, swap, Reports(items, cs, swap))
    decreases |cs|, |items|, 0
  {
    var h, cs' := |items[0].bytes|, cs[1..];
    var c := Completion(cs[0].n - h, cs[0].err);
    assert [cs[0]] + cs' == cs && ([c] + cs')[1..] == cs';
    EveryBioEndsOnce(items[1..], [c] + cs', swap);
    EndedReports(items, c, cs, swap);
  }

  lemma {:induction false} EndedReports(items: seq<Item>, c: Completion, cs: seq<Completion>, swap: Hook)
    requires items != [] && cs != [] && 0 < |items[0].bytes| <= cs[0].n
    requires c == Completion(cs[0].n - |items[0].bytes|, cs[0].err)
    requires ReportsExactly(items[1..], 0, [c] + cs[1..], swap, Reports(items[1..], [c] + cs[1..], swap))
    ensures ReportsExactly(items, 0, cs, swap, Reports(items, cs, swap))
  {
    var h, log := |items[0].bytes|, Reports(items[1..], [c] + cs[1..], swap);
    assert [cs[0]] + cs[1..] == cs;
    HeadFirst(items, cs[0], cs[1..], swap);
    AfterPartOf(items[1..], 0, h, cs[0], cs[1..], swap, log);
    TouchedFirst(cs, h);
    ReportsCons(items, 0, cs, swap, End(items[0], cs[0].err, swap), log);
  }

  lemma {:induction false} NothingLeft(cs: seq<Completion>, swap: Hook)
    ensures Reports([], cs, swap) == []
  {
    if cs != [] {
      NothingLeft(cs[1..], swap);
    }
  }

  // ---- A request covers one run of sectors -------------------------------------------

  /** The items lie one after the other on the device, from sector `at` on, in whole sectors. */
  predicate Contiguous(items: seq<Item>, at: nat) {
    items == [] ||
    (&& items[0].sector == at && items[0].bytes != [] && |items[0].bytes| % 512 == 0
     && Contiguous(items[1..], at + |items[0].bytes| / 512))
  }

  lemma {:induction false} ContiguousIsWholeSectors(items: seq<Item>, at: nat)
    requires Contiguous(items, at)
    ensures |Flat(items)| % 512 == 0 && NonEmpty(items)
  {
    if items != [] {
      ContiguousIsWholeSectors(items[1..], at + |items[0].bytes| / 512);
      assert forall i | 0 < i < |items| :: items[i] == items[1..][i - 1];
    }
  }

  /** Completing whole sectors moves the start of the run and keeps it a run. */
  lemma {:induction false} DropKeepsContiguous(items: seq<Item>, at: nat, n: nat, err: int)
    requires Contiguous(items, at) && n % 512 == 0
    ensures Contiguous(Drop(items, n, err), at + Min(n, |Flat(items)|) / 512)
  {
    ContiguousIsWholeSectors(items, at);
    if items != [] && n != 0 {
      var h := |items[0].bytes|;
      if n >= h {
        DropKeepsContiguous(items[1..], at + h / 512, n - h, err);
      } else {
        assert ([Trim(items[0], n, err)] + items[1..])[1..] == items[1..];
      }
    }
  }

  lemma {:induction false} FlatSnoc(items: seq<Item>, it: Item)
    ensures Flat(items + [it]) == Flat(items) + it.bytes
  {
    if items == [] {
      assert [it][1..] == [] && [] + [it] == [it];
    } else {
      FlatSnoc(items[1..], it);
      assert (items + [it])[1..] == items[1..] + [it];
    }
  }

  lemma {:induction false} WholeSectors(a: nat, b: nat, at: nat)
    requires a % 512 == 0 && b % 512 == 0
    ensures at + (a + b) / 512 == at + a / 512 + b / 512
  {
  }

  /** A back merge of an adjacent bio. */
  lemma {:induction false} AppendKeepsContiguous(items: seq<Item>, at: nat, it: Item)
    requires Contiguous(items, at) && it.bytes != [] && |it.bytes| % 512 == 0
    requires it.sector == at + |Flat(items)| / 512
    ensures Contiguous(items + [it], at)
  {
    if items == [] {
      assert [it][1..] == [] && [] + [it] == [it];
    } else {
      var h := |items[0].bytes|;
      ContiguousIsWholeSectors(items[1..], at + h / 512);
      WholeSectors(h, |Flat(items[1..])|, at);
      AppendKeepsContiguous(items[1..], at + h / 512, it);
      assert (items + [it])[1..] == items[1..] + [it];
    }
  }

  /** A front merge of an adjacent bio. */
  lemma {:induction false} PrependKeepsContiguous(items: seq<Item>, at: nat, it: Item)
    requires Contiguous(items, at) && it.bytes != [] && |it.bytes| % 512 == 0
    requires it.sector + |it.bytes| / 512 == at
    ensures Contiguous([it] + items, it.sector) && Flat([it] + items) == it.bytes + Flat(items)
  {
    assert ([it] + items)[1..] == items;
  }

  // ---- The whole life of a request -----------------------------------------------------

  /** A request of type REQ_TYPE_FS from outside: its bios, __sector and __data_len. */
  datatype Req = Req(items: seq<Item>, sector: nat, dataLen: nat)

  datatype Op = BackMerge(it: Item) | FrontMerge(it: Item) | Complete(n: nat, err: int)

  /** Merges are of adjacent bios in whole sectors; completions are of whole sectors. */
  predicate Allowed(r: Req, op: Op) {
    match op
    case BackMerge(it) =>
      r.items != [] && it.bytes != [] && |it.bytes| % 512 == 0 && it.sector == r.sector + r.dataLen / 512
    case FrontMerge(it) =>
      r.items != [] && it.bytes != [] && |it.bytes| % 512 == 0 && it.sector + |it.bytes| / 512 == r.sector
    case Complete(n, _) => n % 512 == 0
  }

  function Do(r: Req, op: Op): Req {
    match op
    case BackMerge(it) => Req(r.items + [it], r.sector, r.dataLen + |it.bytes|)
    case FrontMerge(it) => Req([it] + r.items, it.sector, r.dataLen + |it.bytes|)
    case Complete(n, err) =>
      var rest := Drop(r.items, n, err);
      if rest == [] then Req([], r.sector, 0) else Req(rest, r.sector + n / 512, if n < r.dataLen then r.dataLen - n else 0)
  }

  /** __sector is where the first bio goes, each bio starts where the last one ended, __data_len is their size. */
  predicate Sound(r: Req) {
    Contiguous(r.items, r.sector) && r.dataLen == |Flat(r.items)|
  }

  lemma {:induction false} OpKeepsSound(r: Req, op: Op)
    requires Sound(r) && Allowed(r, op)
    ensures Sound(Do(r, op))
  {
    match op {
      case BackMerge(it) =>
        AppendKeepsContiguous(r.items, r.sector, it);
        FlatSnoc(r.items, it);
      case FrontMerge(it) => PrependKeepsContiguous(r.items, r.sector, it);
      case Complete(n, err) =>
        ContiguousIsWholeSectors(r.items, r.sector);
        DropKeepsContiguous(r.items, r.sector, n, err);
        DropKeepsNonEmpty(r.items, n, err);
        DropDropsBytes(r.items, n, err);
    }
  }

  predicate AllAllowed(r: Req, ops: seq<Op>)
    decreases ops
  {
    ops == [] || (Allowed(r, ops[0]) && AllAllowed(Do(r, ops[0]), ops[1..]))
  }

  function DoAll(r: Req, ops: seq<Op>): Req
    decreases ops
  {
    if ops == [] then r else DoAll(Do(r, ops[0]), ops[1..])
  }

  /** Any mix of merges and completions keeps the request one run of sectors. */
  lemma {:induction false} LifeKeepsSound(r: Req, ops: seq<Op>)
    requires Sound(r) && AllAllowed(r, ops)
    ensures Sound(DoAll(r, ops))
    decreases ops
  {
    if ops != [] {
      OpKeepsSound(r, ops[0]);
      LifeKeepsSound(Do(r, ops[0]), ops[1..]);
    }
  }
}
