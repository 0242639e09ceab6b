/**
 The per-task plug (block/blk-core.c): requests gather on a list without any queue lock and
 are flushed queue by queue.  A flush is observed as the sequence of its effects.
 */
module PlugList {

  datatype Rq = Rq(id: nat, q: nat, pos: nat)

  datatype Effect =
    | Lock(q: nat)
    | Insert(rq: Rq)                // __elv_add_request
    | EndDead(rq: Rq)               // __blk_end_request_all(rq, -ENODEV)
    | Run(q: nat, depth: nat)       // the run of queue_unplugged
    | Unlock(q: nat)

  // ---- Reading a flush -----------------------------------------------------------------

  /** Which queue lock is held; Broken after a second lock or an effect without its lock. */
  datatype Holding = Free | Holds(q: nat) | Broken

  function Move(h: Holding, e: Effect): Holding {
    match e
    case Lock(q) => if h.Free? then Holds(q) else Broken
    case Insert(rq) => if h == Holds(rq.q) then h else Broken
    case EndDead(rq) => if h == Holds(rq.q) then h else Broken
    case Run(q, _) => if h == Holds(q) then h else Broken
    case Unlock(q) => if h == Holds(q) then Free else Broken
  }

  function After(tr: seq<Effect>): Holding {
    if tr == [] then Free else Move(After(tr[..|tr| - 1]), tr[|tr| - 1])
  }

  /** The requests handled, in order. */
  function Handled(tr: seq<Effect>): seq<Rq> {
    if tr == [] then []
    else
      var e := tr[|tr| - 1];
      Handled(tr[..|tr| - 1]) + if e.Insert? || e.EndDead? then [e.rq] else []
  }

  /** For each request handled, whether it was ended because its queue is dying. */
  function Ends(tr: seq<Effect>): seq<bool> {
    if tr == [] then []
    else
      var e := tr[|tr| - 1];
      Ends(tr[..|tr| - 1]) + if e.Insert? || e.EndDead? then [e.EndDead?] else []
  }

  function Locks(tr: seq<Effect>, q: nat): nat {
    if tr == [] then 0 else Locks(tr[..|tr| - 1], q) + if tr[|tr| - 1] == Lock(q) then 1 else 0
  }

  function Runs(tr: seq<Effect>, q: nat): nat {
    if tr == [] then 0
    else Runs(tr[..|tr| - 1], q) + if tr[|tr| - 1].Run? && tr[|tr| - 1].q == q then 1 else 0
  }

  function Inserted(tr: seq<Effect>, q: nat): nat {
    if tr == [] then 0
    else Inserted(tr[..|tr| - 1], q) + if tr[|tr| - 1].Insert? && tr[|tr| - 1].rq.q == q then 1 else 0
  }

  /** Every run reports as depth what was inserted into its queue up to then. */
  predicate DepthsRight(tr: seq<Effect>) {
    tr == [] ||
    (&& DepthsRight(tr[..|tr| - 1])
     && (tr[|tr| - 1].Run? ==> tr[|tr| - 1].depth == Inserted(tr[..|tr| - 1], tr[|tr| - 1].q)))
  }

  lemma Snoc(tr: seq<Effect>, e: Effect)
    ensures After(tr + [e]) == Move(After(tr), e)
    ensures Handled(tr + [e]) == Handled(tr) + if e.Insert? || e.EndDead? then [e.rq] else []
    ensures Ends(tr + [e]) == Ends(tr) + if e.Insert? || e.EndDead? then [e.EndDead?] else []
    ensures forall q :: Locks(tr + [e], q) == Locks(tr, q) + if e == Lock(q) then 1 else 0
    ensures forall q :: Runs(tr + [e], q) == Runs(tr, q) + if e.Run? && e.q == q then 1 else 0
    ensures forall q :: Inserted(tr + [e], q) == Inserted(tr, q) + if e.Insert? && e.rq.q == q then 1 else 0
    ensures DepthsRight(tr + [e]) <==> DepthsRight(tr) && (e.Run? ==> e.depth == Inserted(tr, e.q))
  {
    assert (tr + [e])[..|tr|] == tr;
  }

  // ---- Sorting -------------------------------------------------------------------------

  /** plug_rq_cmp(a, b) == 0: a stays before b. */
  predicate Before(a: Rq, b: Rq) { a.q < b.q || (a.q == b.q && a.pos < b.pos) }

  /** By queue, and within a queue by position. */
  predicate Sorted(l: seq<Rq>) {
    forall i, j | 0 <= i < j < |l| :: !Before(l[j], l[i])
  }

  function InsertSorted(x: Rq, l: seq<Rq>): seq<Rq> {
    if l != [] && Before(l[0], x) then [l[0]] + InsertSorted(x, l[1..]) else [x] + l
  }

  /** list_sort with plug_rq_cmp. */
  function ListSort(l: seq<Rq>): seq<Rq> {
    if l == [] then [] else InsertSorted(l[0], ListSort(l[1..]))
  }

  lemma {:induction false} InsertKeepsElements(x: Rq, l: seq<Rq>)
    ensures multiset(InsertSorted(x, l)) == multiset{x} + multiset(l)
  {
    if l != [] && Before(l[0], x) {
      InsertKeepsElements(x, l[1..]);
      assert l == [l[0]] + l[1..];
    }
  }

  lemma ConsSorted(x: Rq, l: seq<Rq>)
    requires Sorted(l) && forall y | y in l :: !Before(y, x)
    ensures Sorted([x] + l)
  {
  }

  lemma {:induction false} InsertKeepsSorted(x: Rq, l: seq<Rq>)
    requires Sorted(l)
    ensures Sorted(InsertSorted(x, l))
  {
    if l != [] && Before(l[0], x) {
      var t := InsertSorted(x, l[1..]);
      InsertKeepsSorted(x, l[1..]);
      InsertKeepsElements(x, l[1..]);
      forall y | y in t ensures !Before(y, l[0]) {
        assert y in multiset(t);
      }
      ConsSorted(l[0], t);
    } else {
      ConsSorted(x, l);
    }
  }

  lemma NothingSorted()
    ensures Sorted([])
  {
  }

  /** Queue by queue, and within a queue in ascending position on the disk. */
  lemma SortedMeans(l: seq<Rq>, i: nat, j: nat)
    requires Sorted(l) && i < j < |l|
    ensures l[i].q <= l[j].q && (l[i].q == l[j].q ==> l[i].pos <= l[j].pos)
  {
    assert !Before(l[j], l[i]);
  }

  /** A permutation, sorted by queue. */
  lemma {:induction false} ListSortSorts(l: seq<Rq>)
    ensures Sorted(ListSort(l)) && multiset(ListSort(l)) == multiset(l) && |ListSort(l)| == |l|
  {
    hide Sorted, InsertSorted, Before;
    assert |multiset(ListSort(l))| == |ListSort(l)| && |multiset(l)| == |l|;
    if l == [] {
      NothingSorted();
    } else {
      ListSortSorts(l[1..]);
      InsertKeepsSorted(l[0], ListSort(l[1..]));
      InsertKeepsElements(l[0], ListSort(l[1..]));
      assert l == [l[0]] + l[1..];
    }
  }

  // ---- The plug ------------------------------------------------------------------------

  predicate OneQueue(l: seq<Rq>) {
    forall i, j | 0 <= i < j < |l| :: l[i].q == l[j].q
  }

  function Queues(l: seq<Rq>): set<nat> { set r | r in l :: r.q }

  /** Requests of one queue stand together: a change of queue is a change to a new queue. */
  predicate Grouped(l: seq<Rq>) {
    forall i | 0 <= i < |l| :: Continues(l, i)
  }

  predicate Continues(l: seq<Rq>, i: nat)
    requires i < |l|
  {
    (i > 0 && l[i - 1].q == l[i].q) || l[i].q !in Queues(l[..i])
  }

  /** Where the queue changes, no earlier request is of the new queue. */
  lemma NewQueue(l: seq<Rq>, k: nat, i: nat)
    requires (Sorted(l) || OneQueue(l)) && k < i < |l| && l[i - 1].q != l[i].q
    ensures l[k].q != l[i].q
  {
    if !OneQueue(l) {
      assert !Before(l[i], l[i - 1]);
      assert k < i - 1 ==> !Before(l[i - 1], l[k]);
    }
  }

  lemma NotAmong(l: seq<Rq>, q: nat)
    requires forall r | r in l :: r.q != q
    ensures q !in Queues(l)
  {
  }

  lemma SortedIsGrouped(l: seq<Rq>)
    requires Sorted(l) || OneQueue(l)
    ensures Grouped(l)
  {
    forall i | 0 <= i < |l| ensures Continues(l, i) {
      if !(i > 0 && l[i - 1].q == l[i].q) {
        forall r | r in l[..i] ensures r.q != l[i].q {
          var k :| 0 <= k < i && l[..i][k] == r;
          NewQueue(l, k, i);
        }
        NotAmong(l[..i], l[i].q);
      }
    }
  }

  /** What a flush of the requests l, in that order, may look like while it runs. */
  ghost predicate Flushing(tr: seq<Effect>, done: seq<Rq>, dead: seq<bool>, held: Holding, depth: nat) {
    && After(tr) == held && !held.Broken? && Handled(tr) == done && Ends(tr) == dead && DepthsRight(tr)
    && (held.Holds? ==> held.q in Queues(done) && Inserted(tr, held.q) == depth)
    && (forall q :: Locks(tr, q) == if q in Queues(done) then 1 else 0)
    && (forall q :: Runs(tr, q) == if q in Queues(done) && held != Holds(q) then 1 else 0)
    && (forall q | q !in Queues(done) :: Inserted(tr, q) == 0)
  }

  /** A finished flush: locks balanced, one at a time; every request handled once, in its queue. */
  ghost predicate Flushed(tr: seq<Effect>, l: seq<Rq>, dead: seq<bool>) {
    && After(tr) == Free && Handled(tr) == l && Ends(tr) == dead && DepthsRight(tr)
    && (forall q :: Locks(tr, q) == Runs(tr, q) == if q in Queues(l) then 1 else 0)
  }

  lemma QueuesSnoc(l: seq<Rq>, r: Rq)
    ensures Queues(l + [r]) == Queues(l) + {r.q}
  {
    assert r in l + [r];
  }

  /** queue_unplugged */
  lemma Unplug(tr: seq<Effect>, done: seq<Rq>, dead: seq<bool>, q: nat, depth: nat)
    requires Flushing(tr, done, dead, Holds(q), depth)
    ensures Flushing(tr + [Run(q, depth)] + [Unlock(q)], done, dead, Free, 0)
  {
    Snoc(tr, Run(q, depth));
    Snoc(tr + [Run(q, depth)], Unlock(q));
  }

  lemma HandleUnderLock(tr: seq<Effect>, done: seq<Rq>, dead: seq<bool>, depth: nat, rq: Rq, e: Effect)
    requires Flushing(tr, done, dead, Holds(rq.q), depth) && (e == Insert(rq) || e == EndDead(rq))
    ensures Flushing(tr + [e], done + [rq], dead + [e.EndDead?], Holds(rq.q), depth + if e.Insert? then 1 else 0)
  {
    Snoc(tr, e);
    QueuesSnoc(done, rq);
  }

  lemma HandleInNewQueue(tr: seq<Effect>, done: seq<Rq>, dead: seq<bool>, rq: Rq, e: Effect)
    requires Flushing(tr, done, dead, Free, 0) && rq.q !in Queues(done) && (e == Insert(rq) || e == EndDead(rq))
    ensures Flushing(tr + [Lock(rq.q)] + [e], done + [rq], dead + [e.EndDead?], Holds(rq.q), if e.Insert? then 1 else 0)
  {
    Snoc(tr, Lock(rq.q));
    Snoc(tr + [Lock(rq.q)], e);
    QueuesSnoc(done, rq);
  }

  const BLK_MAX_REQUEST_COUNT := 16

  class Plug {
    var list: seq<Rq>
    var shouldSort: bool

    /** An unsorted plug holds requests of a single queue. */
    predicate Valid()
      reads this
    {
      shouldSort || OneQueue(list)
    }

    /** The plug part of blk_queue_bio; `count` is the request_count of attempt_plug_merge. */
    method Add(rq: Rq, count: nat, dying: seq<bool>) returns (flushed: seq<Effect>)
      requires Valid() && |dying| == |list|
      modifies this
      ensures Valid()
      ensures if old(list) != [] && count >= BLK_MAX_REQUEST_COUNT
              then list == [rq] && exists l :: multiset(l) == multiset(old(list)) && Flushed(flushed, l, dying)
              else list == old(list) + [rq] && flushed == []
      ensures shouldSort <==>
        && !(old(list) != [] && count >= BLK_MAX_REQUEST_COUNT)
        && (old(shouldSort) || (old(list) != [] && old(list)[|old(list)| - 1].q != rq.q))
    {
      flushed := [];
      if list != [] {
        if !shouldSort {
          if list[|list| - 1].q != rq.q {
            shouldSort := true;
          }
        }
        if count >= BLK_MAX_REQUEST_COUNT {
          ghost var l;
          flushed, l := Flush(dying);
        }
      }
      list := list + [rq];
    }

    /** blk_flush_plug_list; dying[i] is what blk_queue_dying says for the i-th request handled. */
    method Flush(dying: seq<bool>) returns (tr: seq<Effect>, ghost order: seq<Rq>)
      requires Valid() && |dying| == |list|
      modifies this
      ensures Valid() && list == [] && !shouldSort
      ensures multiset(order) == multiset(old(list)) && Flushed(tr, order, dying)
      ensures if old(shouldSort) then Sorted(order) else order == old(list)
      ensures old(shouldSort) ==> forall i, j :: 0 <= i < j < |order| ==>
        order[i].q <= order[j].q && (order[i].q == order[j].q ==> order[i].pos <= order[j].pos)
    {
      var l := list;
      list := [];
      if shouldSort {
        ListSortSorts(l);
        l := ListSort(l);
        forall i, j | 0 <= i < j < |l| ensures l[i].q <= l[j].q && (l[i].q == l[j].q ==> l[i].pos <= l[j].pos) {
          SortedMeans(l, i, j);
        }
        shouldSort := false;
      }
      order := l;
      SortedIsGrouped(l);
      tr := FlushList(l, dying);
    }
  }

  /** One pass of the loop of blk_flush_plug_list. */
  method FlushOne(tr0: seq<Effect>, ghost done: seq<Rq>, ghost dead: seq<bool>, q0: Holding, depth0: nat, rq: Rq, dying: bool)
    returns (tr: seq<Effect>, q: Holding, depth: nat)
    requires Flushing(tr0, done, dead, q0, depth0) && (q0.Free? ==> depth0 == 0)
    requires q0 != Holds(rq.q) ==> rq.q !in Queues(done)
    ensures Flushing(tr, done + [rq], dead + [dying], q, depth) && q == Holds(rq.q)
  {
    tr, q, depth := tr0, q0, depth0;
    var e := if dying then EndDead(rq) else Insert(rq);
    if q != Holds(rq.q) {
      if q.Holds? {
        Unplug(tr, done, dead, q.q, depth);
        tr := tr + [Run(q.q, depth)] + [Unlock(q.q)];
      }
      HandleInNewQueue(tr, done, dead, rq, e);
      q, depth := Holds(rq.q), 0;
      tr := tr + [Lock(rq.q)];
    } else {
      HandleUnderLock(tr, done, dead, depth, rq, e);
    }
    tr := tr + [e];
    if !dying {
      depth := depth + 1;
    }
  }

  /** The unplug after the loop. */
  method FlushLast(tr0: seq<Effect>, ghost l: seq<Rq>, ghost dead: seq<bool>, q: Holding, depth: nat)
    returns (tr: seq<Effect>)
    requires Flushing(tr0, l, dead, q, depth)
    ensures Flushed(tr, l, dead)
  {
    tr := tr0;
    if q.Holds? {
      Unplug(tr, l, dead, q.q, depth);
      tr := tr + [Run(q.q, depth)] + [Unlock(q.q)];
    }
  }

  lemma Extend<T>(l: seq<T>, i: nat)
    requires i < |l|
    ensures l[..i] + [l[i]] == l[..i + 1]
  {
  }

  /** The loop of blk_flush_plug_list. */
  method FlushList(l: seq<Rq>, dying: seq<bool>) returns (tr: seq<Effect>)
    requires Grouped(l) && |dying| == |l|
    ensures Flushed(tr, l, dying)
  {
    var q: Holding, depth: nat := Free, 0;
    tr := [];
    for i := 0 to |l|
      invariant Flushing(tr, l[..i], dying[..i], q, depth)
      invariant if i == 0 then q == Free && depth == 0 else q == Holds(l[i - 1].q)
    {
      assert Continues(l, i);
      tr, q, depth := FlushOne(tr, l[..i], dying[..i], q, depth, l[i], dying[i]);
      Extend(l, i);
      Extend(dying, i);
    }
    assert l[..|l|] == l && dying[..|l|] == dying;
    tr := FlushLast(tr, l, dying, q, depth);
  }
}
