/**
 The request queue as block/blk-core.c keeps it: counters, flags and wait queues, updated
 in place.  Each method of the class is one stretch of code under the queue lock and is
 proved to take the step of the same name in module RequestProtocol.  `Valid` says that
 the counters are exact: nr_rqs and count are the slots in allocation plus the live
 requests, nr_rqs_elvpriv those of them that carry REQ_ELVPRIV, and a direction is full
 just when it has reached nr_requests.
 */
module RequestQueueCode {
  import opened RequestProtocol

  /** The fields that the queue and its request list keep for one direction. */
  datatype Counters = Counters(nrRqs: int, count: int, starved: bool, full: bool, congested: bool, wait: nat)

  ghost predicate Image(lim: Limits, l: Lane, c: Counters) {
    && c.nrRqs == c.count == l.Count()
    && (c.full <==> l.Count() >= lim.nr)
    && c.starved == l.starved && c.congested == l.congested && c.wait == l.waiting
  }

  /** How get_request leaves its critical section. */
  datatype Outcome = Slot(elvpriv: bool) | Null | Asleep

  lemma RefusesExactly(lim: Limits, l: Lane, may: MayQueue, batching: bool)
    ensures !l.Refuses(lim, may, batching) <==>
      may != No && l.Count() < 3 * lim.nr / 2 && (l.Count() < lim.nr || may == Must || batching)
  {
  }

  /** __get_request up to the unlock, and the part of get_request that decides to sleep. */
  method GetRequest(lim: Limits, ghost l: Lane, c: Counters, bypass: bool, dying: bool,
                    may: MayQueue, batching: bool, wantsElv: bool, canWait: bool)
    returns (r: Counters, out: Outcome)
    requires lim.Ok() && LaneOk(lim, l) && Image(lim, l, c)
    ensures var l' := l.Do(lim, bypass, dying, Get(may, batching, wantsElv, canWait));
            && Image(lim, l', r)
            && (out.Slot? ==> l'.Count() == l.Count() + 1)
            && l'.Elvpriv() == l.Elvpriv() + (if out.Slot? && out.elvpriv then 1 else 0)
    ensures out.Slot? <==> !dying && !l.Refuses(lim, may, batching)
    ensures out.Slot? <==>
      !dying && may != No && l.Count() < 3 * lim.nr / 2 && (l.Count() < lim.nr || may == Must || batching)
    ensures out.Asleep? <==> !dying && l.Refuses(lim, may, batching) && canWait
  {
    r, out := TryGet(lim, l, c, bypass, dying, may, batching, wantsElv);
    if out.Null? && canWait && !dying {
      r := r.(wait := r.wait + 1);
      out := Asleep;
    }
  }

  /** A sleeper that wakes leaves the wait queue, if it is still on it, and asks as if for the first time. */
  lemma RetryIsGet(lim: Limits, l: Lane, bypass: bool, dying: bool, spurious: bool, may: MayQueue, batching: bool, wantsElv: bool)
    requires l.Can(Retry(spurious, may, batching, wantsElv))
    ensures
      var up := if spurious then l.(waiting := l.waiting - 1) else l.(woken := l.woken - 1);
      l.Do(lim, bypass, dying, Retry(spurious, may, batching, wantsElv)) ==
        up.Do(lim, bypass, dying, Get(may, batching, wantsElv, true))
      && (up.Refuses(lim, may, batching) <==> l.Refuses(lim, may, batching))
  {
  }

  /** get_request after io_schedule: finish_wait and the goto retry. */
  method RetryRequest(lim: Limits, ghost l: Lane, c: Counters, bypass: bool, dying: bool,
                      spurious: bool, may: MayQueue, batching: bool, wantsElv: bool)
    returns (r: Counters, out: Outcome)
    requires lim.Ok() && LaneOk(lim, l) && Image(lim, l, c) && l.Can(Retry(spurious, may, batching, wantsElv))
    ensures var l' := l.Do(lim, bypass, dying, Retry(spurious, may, batching, wantsElv));
            && Image(lim, l', r)
            && l'.Elvpriv() == l.Elvpriv() + (if out.Slot? && out.elvpriv then 1 else 0)
    ensures out.Slot? <==> !dying && !l.Refuses(lim, may, batching)
    ensures out.Slot? <==>
      !dying && may != No && l.Count() < 3 * lim.nr / 2 && (l.Count() < lim.nr || may == Must || batching)
    ensures out.Asleep? <==> !dying && l.Refuses(lim, may, batching)
  {
    RetryIsGet(lim, l, bypass, dying, spurious, may, batching, wantsElv);
    hide Lane.Do, Lane.Refuses;
    if spurious {
      r, out := GetRequest(lim, l.(waiting := l.waiting - 1), c.(wait := c.wait - 1), bypass, dying,
                           may, batching, wantsElv, true);
    } else {
      r, out := GetRequest(lim, l.(woken := l.woken - 1), c, bypass, dying, may, batching, wantsElv, true);
    }
  }

  method TryGet(lim: Limits, ghost l: Lane, c: Counters, bypass: bool, dying: bool,
                may: MayQueue, batching: bool, wantsElv: bool)
    returns (r: Counters, out: Outcome)
    requires lim.Ok() && LaneOk(lim, l) && Image(lim, l, c)
    ensures Image(lim, l.Do(lim, bypass, dying, Get(may, batching, wantsElv, false)), r)
    ensures out == if !dying && !l.Refuses(lim, may, batching) then Slot(wantsElv && !bypass) else Null
    ensures out.Slot? <==>
      !dying && may != No && l.Count() < 3 * lim.nr / 2 && (l.Count() < lim.nr || may == Must || batching)
  {
    RefusesExactly(lim, l, may, batching);
    r := c;
    if dying {
      return r, Null;
    }
    if may == No {
      if r.count == 0 {
        r := r.(starved := true);
      }
      return r, Null;
    }
    if r.count + 1 >= lim.on {
      if r.count + 1 >= lim.nr {
        if !r.full {
          r := r.(full := true);
        } else if may != Must && !batching {
          return r, Null;
        }
      }
      r := r.(congested := true);
    }
    if r.count >= 3 * lim.nr / 2 {
      return r, Null;
    }
    r := r.(nrRqs := r.nrRqs + 1, count := r.count + 1, starved := false);
    out := Slot(wantsElv && !bypass);
  }

  /** __freed_request */
  method FreedOne(lim: Limits, c: Counters) returns (r: Counters)
    ensures r.nrRqs == c.nrRqs && r.count == c.count && r.starved == c.starved
    ensures r.congested <==> c.congested && c.count >= lim.off
    ensures r.full <==> c.full && c.count >= lim.nr
    ensures r.wait == if c.count < lim.nr && c.wait > 0 then c.wait - 1 else c.wait
  {
    r := c;
    if r.count < lim.off {
      r := r.(congested := false);
    }
    if r.count + 1 <= lim.nr {
      if r.wait > 0 {
        r := r.(wait := r.wait - 1);
      }
      r := r.(full := false);
    }
  }

  /** The part of freed_request that concerns the freed direction. */
  method FreedOwn(lim: Limits, ghost l: Lane, ghost rest: Lane, c: Counters) returns (r: Counters)
    requires lim.Ok() && LaneOk(lim, l) && Image(lim, l, c)
    requires l == rest.(allocating := l.allocating, live := l.live) && l.Count() == rest.Count() + 1
    ensures Image(lim, rest.Freed(lim), r)
  {
    r := c.(nrRqs := c.nrRqs - 1, count := c.count - 1);
    r := FreedOne(lim, r);
  }

  /** freed_request for the direction of a request that __blk_put_request frees. */
  method FreeOwn(lim: Limits, ghost l: Lane, c: Counters, ghost bypass: bool, ghost dying: bool, elv: bool)
    returns (r: Counters)
    requires lim.Ok() && LaneOk(lim, l) && Image(lim, l, c) && l.Can(Free(elv))
    ensures var l' := l.Do(lim, bypass, dying, Free(elv));
            Image(lim, l', r) && l'.Elvpriv() == l.Elvpriv() - (if elv then 1 else 0)
  {
    r := FreedOwn(lim, l, l.(live := l.live.Remove(elv)), c);
  }

  /** The fail_alloc label of __get_request, and the sleep of get_request after it. */
  method AllocFailOwn(lim: Limits, ghost l: Lane, c: Counters, ghost bypass: bool, dying: bool, elv: bool, canWait: bool)
    returns (r: Counters)
    requires lim.Ok() && LaneOk(lim, l) && Image(lim, l, c) && l.Can(AllocFail(elv, canWait))
    ensures var l' := l.Do(lim, bypass, dying, AllocFail(elv, canWait));
            Image(lim, l', r) && l'.Elvpriv() == l.Elvpriv() - (if elv then 1 else 0)
  {
    ghost var rest := AllocFailLane(lim, l, bypass, dying, elv, canWait);
    r := FreedOwn(lim, l, rest, c);
    r := Starve(lim, rest.Freed(lim), r, canWait && !dying);
  }

  lemma AllocFailLane(lim: Limits, l: Lane, bypass: bool, dying: bool, elv: bool, canWait: bool) returns (rest: Lane)
    requires l.Can(AllocFail(elv, canWait))
    ensures l == rest.(allocating := l.allocating, live := l.live) && l.Count() == rest.Count() + 1
    ensures
      var l' := l.Do(lim, bypass, dying, AllocFail(elv, canWait));
      l' == rest.Freed(lim).StarveIfEmpty().Sleep(canWait && !dying) && l'.Elvpriv() == l.Elvpriv() - (if elv then 1 else 0)
  {
    rest := l.(allocating := l.allocating.Remove(elv));
    SlotsStay(lim, rest, canWait && !dying);
  }

  lemma SlotsStay(lim: Limits, l: Lane, sleeps: bool)
    ensures var r := l.Freed(lim).StarveIfEmpty().Sleep(sleeps); r.allocating == l.allocating && r.live == l.live
  {
  }

  method Starve(lim: Limits, ghost l: Lane, c: Counters, sleeps: bool) returns (r: Counters)
    requires Image(lim, l, c)
    ensures Image(lim, l.StarveIfEmpty().Sleep(sleeps), r)
  {
    r := c;
    if r.count == 0 {
      r := r.(starved := true);
    }
    if sleeps {
      r := r.(wait := r.wait + 1);
    }
  }

  /** The part of freed_request that concerns the opposite direction. */
  method FreedOther(lim: Limits, ghost l: Lane, c: Counters) returns (r: Counters)
    requires lim.Ok() && LaneOk(lim, l) && Image(lim, l, c)
    ensures Image(lim, l.Notice(), r)
  {
    r := c;
    if c.starved {
      r := FreedOne(lim, c);
    }
  }

  /** The rest of the queue's fields. */
  datatype Life = Life(nrRqsElvpriv: int, bypassDepth: int, bypass: bool, dying: bool, dead: bool, requestFnActive: int)

  ghost predicate LifeImage(s: State, f: Life) {
    && f.nrRqsElvpriv == s.Elvpriv()
    && f.bypassDepth == s.depth && (f.bypass <==> f.bypassDepth > 0)
    && f.dying == s.dying && f.dead == s.dead && f.requestFnActive == s.running
  }

  ghost predicate QueueImage(s: State, lim: Limits, async: Counters, sync: Counters, f: Life) {
    s.lim == lim && Image(lim, s.async, async) && Image(lim, s.sync, sync) && LifeImage(s, f)
  }

  /** Change of nr_rqs_elvpriv that an action calls for. */
  function ElvprivDelta(lim: Limits, bypass: bool, dying: bool, l: Lane, a: Action): int
    requires l.Can(a)
  {
    l.Do(lim, bypass, dying, a).Elvpriv() - l.Elvpriv()
  }

  lemma InImage(s: State, d: Dir, a: Action, async: Counters, sync: Counters, f: Life, own: Counters, other: Counters)
    requires s.At(d).Can(a) && QueueImage(s, s.lim, async, sync, f)
    requires Image(s.lim, s.At(d).Do(s.lim, s.depth > 0, s.dying, a), own)
    requires var o := s.At(d.Other()); Image(s.lim, if a.Releases() then o.Notice() else o, other)
    ensures var f' := f.(nrRqsElvpriv := f.nrRqsElvpriv + ElvprivDelta(s.lim, s.depth > 0, s.dying, s.At(d), a));
            QueueImage(Apply(s, In(d, a)), s.lim, if d == Async then own else other, if d == Async then other else own, f')
  {
    var o := s.At(d.Other());
    assert (if a.Releases() then o.Notice() else o).Elvpriv() == o.Elvpriv();
  }

  /** blk_queue_congestion_threshold */
  method CongestionThreshold(nr: nat) returns (lim: Limits)
    requires nr >= 1
    ensures lim == Thresholds(nr)
  {
    var on := nr - nr / 8 + 1;
    if on > nr {
      on := nr;
    }
    var off := nr - nr / 8 - nr / 16 - 1;
    if off < 1 {
      off := 1;
    }
    lim := Limits(nr, on, off);
  }

  class RequestQueue {
    const lim: Limits
    var async: Counters
    var sync: Counters
    var life: Life
    ghost var abs: State

    ghost predicate Valid()
      reads this
    {
      QueueImage(abs, lim, async, sync, life)
    }

    constructor (nr: nat)
      requires nr >= 1
      ensures Valid() && abs == Initial(nr)
    {
      var l := CongestionThreshold(nr);
      lim := l;
      var none := Counters(0, 0, false, false, false, 0);
      async, sync, life := none, none, Life(0, 1, true, false, false, 0);
      abs := Initial(nr);
    }

    function At(d: Dir): Counters
      reads this
    {
      if d == Async then async else sync
    }

    /** Store what a critical section computed: both directions and the change of nr_rqs_elvpriv. */
    method Commit(d: Dir, ghost a: Action, own: Counters, other: Counters, delta: int)
      requires Valid() && abs.At(d).Can(a)
      requires Image(lim, abs.At(d).Do(lim, abs.depth > 0, abs.dying, a), own)
      requires var o := abs.At(d.Other()); Image(lim, if a.Releases() then o.Notice() else o, other)
      requires delta == ElvprivDelta(lim, abs.depth > 0, abs.dying, abs.At(d), a)
      modifies this
      ensures Valid() && abs == Apply(old(abs), In(d, a))
    {
      InImage(abs, d, a, async, sync, life, own, other);
      if d == Async {
        async, sync := own, other;
      } else {
        sync, async := own, other;
      }
      life := life.(nrRqsElvpriv := life.nrRqsElvpriv + delta);
      abs := Apply(abs, In(d, a));
    }

    /** get_request, from taking the lock to dropping it. */
    method Get(d: Dir, may: MayQueue, batching: bool, wantsElv: bool, canWait: bool) returns (out: Outcome)
      requires Valid() && Inv(abs)
      modifies this
      ensures Valid() && abs == Apply(old(abs), In(d, Action.Get(may, batching, wantsElv, canWait)))
      ensures out.Slot? <==> !old(abs).dying && !old(abs).At(d).Refuses(lim, may, batching)
      ensures
        var n := old(abs).At(d).Count();
        out.Slot? <==> !old(abs).dying && may != No && n < 3 * lim.nr / 2 && (n < lim.nr || may == Must || batching)
      ensures out.Asleep? <==> !old(abs).dying && old(abs).At(d).Refuses(lim, may, batching) && canWait
    {
      hide Lane.Do, LaneOk, LifecycleOk;
      RefusesExactly(lim, abs.At(d), may, batching);
      hide Lane.Refuses;
      var c;
      c, out := GetRequest(lim, abs.At(d), At(d), life.bypass, life.dying, may, batching, wantsElv, canWait);
      Commit(d, Action.Get(may, batching, wantsElv, canWait), c, At(d.Other()),
             if out.Slot? && out.elvpriv then 1 else 0);
    }

    /** get_request after its sleep. */
    method Retry(d: Dir, spurious: bool, may: MayQueue, batching: bool, wantsElv: bool) returns (out: Outcome)
      requires Valid() && Inv(abs) && abs.At(d).Can(Action.Retry(spurious, may, batching, wantsElv))
      modifies this
      ensures Valid() && abs == Apply(old(abs), In(d, Action.Retry(spurious, may, batching, wantsElv)))
      ensures out.Slot? <==> !old(abs).dying && !old(abs).At(d).Refuses(lim, may, batching)
      ensures
        var n := old(abs).At(d).Count();
        out.Slot? <==> !old(abs).dying && may != No && n < 3 * lim.nr / 2 && (n < lim.nr || may == Must || batching)
      ensures out.Asleep? <==> !old(abs).dying && old(abs).At(d).Refuses(lim, may, batching)
    {
      hide Lane.Do, LaneOk, LifecycleOk;
      RefusesExactly(lim, abs.At(d), may, batching);
      hide Lane.Refuses;
      var c;
      c, out := RetryRequest(lim, abs.At(d), At(d), life.bypass, life.dying, spurious, may, batching, wantsElv);
      Commit(d, Action.Retry(spurious, may, batching, wantsElv), c, At(d.Other()),
             if out.Slot? && out.elvpriv then 1 else 0);
    }

    /** __blk_put_request on the last reference. */
    method Free(d: Dir, elv: bool)
      requires Valid() && Inv(abs) && abs.At(d).Can(Action.Free(elv))
      modifies this
      ensures Valid() && abs == Apply(old(abs), In(d, Action.Free(elv)))
    {
      var own := FreeOwn(lim, abs.At(d), At(d), life.bypass, life.dying, elv);
      var other := FreedOther(lim, abs.At(d.Other()), At(d.Other()));
      Commit(d, Action.Free(elv), own, other, if elv then -1 else 0);
    }

    /** The fail_alloc label of __get_request and what get_request does next. */
    method AllocFail(d: Dir, elv: bool, canWait: bool)
      requires Valid() && Inv(abs) && abs.At(d).Can(Action.AllocFail(elv, canWait))
      modifies this
      ensures Valid() && abs == Apply(old(abs), In(d, Action.AllocFail(elv, canWait)))
    {
      var own := AllocFailOwn(lim, abs.At(d), At(d), life.bypass, life.dying, elv, canWait);
      var other := FreedOther(lim, abs.At(d.Other()), At(d.Other()));
      Commit(d, Action.AllocFail(elv, canWait), own, other, if elv then -1 else 0);
    }

    /** The fail_elvpriv label of __get_request. */
    method ElvprivFail(d: Dir)
      requires Valid() && abs.At(d).Can(Action.ElvprivFail)
      modifies this
      ensures Valid() && abs == Apply(old(abs), In(d, Action.ElvprivFail))
    {
      Commit(d, Action.ElvprivFail, At(d), At(d.Other()), -1);
    }

    /** __blk_run_queue_uncond before the call of request_fn. */
    method RunBegin() returns (calls: bool)
      requires Valid()
      modifies this
      ensures calls <==> !old(abs).dead
      ensures Valid() && abs == if calls then Apply(old(abs), Event.RunBegin) else old(abs)
    {
      if life.dead {
        return false;
      }
      life := life.(requestFnActive := life.requestFnActive + 1);
      abs := Apply(abs, Event.RunBegin);
      return true;
    }

    /** __blk_run_queue_uncond after the call of request_fn. */
    method RunEnd()
      requires Valid() && abs.running > 0
      modifies this
      ensures Valid() && abs == Apply(old(abs), Event.RunEnd)
    {
      life := life.(requestFnActive := life.requestFnActive - 1);
      abs := Apply(abs, Event.RunEnd);
    }

    /** The first critical section of blk_queue_bypass_start. */
    method BypassStart() returns (drain: bool)
      requires Valid()
      modifies this
      ensures Valid() && abs == Apply(old(abs), Event.BypassStart)
      ensures drain <==> abs.draining == old(abs).draining + 1
      ensures abs.depth == old(abs).depth + 1 && (drain <==> old(abs).depth == 0)
    {
      drain := life.bypassDepth == 0;
      life := life.(bypassDepth := life.bypassDepth + 1, bypass := true);
      abs := Apply(abs, Event.BypassStart);
    }

    method BypassEnd()
      requires Valid() && Enabled(abs, Event.BypassEnd)
      modifies this
      ensures Valid() && abs == Apply(old(abs), Event.BypassEnd)
      ensures abs.depth == old(abs).depth - 1 && (life.bypass <==> abs.depth > 0)
    {
      life := life.(bypassDepth := life.bypassDepth - 1);
      if life.bypassDepth == 0 {
        life := life.(bypass := false);
      }
      abs := Apply(abs, Event.BypassEnd);
    }

    /** The first critical section of blk_cleanup_queue. */
    method CleanupStart()
      requires Valid()
      modifies this
      ensures Valid() && abs == Apply(old(abs), Event.CleanupStart)
      ensures abs.dying && abs.depth == old(abs).depth + 1 && life.dying && life.bypass
    {
      life := life.(bypassDepth := life.bypassDepth + 1, bypass := true, dying := true);
      abs := Apply(abs, Event.CleanupStart);
    }

    /**
     One pass of __blk_drain_queue that ends in its break, or in msleep.  `busy` stands for
     the queues and counters that only drain_all looks at besides nr_rqs.  Only a queue
     with a request_fn hands out requests, so nobody sleeps on one without.
     */
    method DrainPass(requestFn: bool, drainAll: bool, busy: bool) returns (done: bool)
      requires Valid() && (if drainAll then abs.cleaning else abs.draining) > 0
      requires !requestFn ==> async.wait == sync.wait == 0
      modifies this
      ensures done <==> Enabled(old(abs), if drainAll then CleanupDrained else BypassDrained) && !(drainAll && busy)
      ensures done <==>
        && old(abs).Elvpriv() == 0 && old(abs).running == 0
        && (drainAll ==> old(abs).async.Count() == old(abs).sync.Count() == 0 && !busy)
      ensures Valid() && abs == if !done then old(abs) else Apply(old(abs), if drainAll then CleanupDrained else BypassDrained)
    {
      var drain := life.nrRqsElvpriv != 0 || life.requestFnActive != 0;
      if drainAll {
        drain := drain || busy || async.nrRqs != 0 || sync.nrRqs != 0;
      }
      if drain {
        return false;
      }
      if requestFn {
        async, sync := async.(wait := 0), sync.(wait := 0);
      }
      if drainAll {
        life := life.(dead := true);
        abs := Apply(abs, CleanupDrained);
      } else {
        abs := Apply(abs, BypassDrained);
      }
      return true;
    }
  }
}
