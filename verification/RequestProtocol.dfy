/**
 The life of a block request queue as a protocol of atomic steps, one step for each
 stretch of code that runs under the queue lock (block/blk-core.c).

 A state records populations (who is allocating, which requests are live, who sleeps)
 and no counters: the counters and the `full` flags that the C code keeps are shown, in
 module RequestQueueCode, to be exact images of these populations.  Processes are
 anonymous, so a state says how many of them stand at each point.
 */
module RequestProtocol {

  /** Direction index of the request list: BLK_RW_ASYNC and BLK_RW_SYNC. */
  datatype Dir = Async | Sync {
    function Other(): Dir { if this == Async then Sync else Async }
  }

  /** Answer of elv_may_queue. */
  datatype MayQueue = May | Must | No

  /** nr_requests and the two congestion thresholds; constant over a run. */
  datatype Limits = Limits(nr: nat, on: nat, off: nat) {
    predicate Ok() { 1 <= off <= on <= nr }

    /** Batchers may go half over the limit. */
    function Cap(): nat { 3 * nr / 2 }
  }

  /** blk_queue_congestion_threshold. */
  function Thresholds(nr: nat): (l: Limits)
    requires nr >= 1
    ensures l.nr == nr && l.Ok()
  {
    var on := nr - nr / 8 + 1;
    var off := nr - nr / 8 - nr / 16 - 1;
    Limits(nr, if on > nr then nr else on, if off < 1 then 1 else off)
  }

  /** How far the thresholds lie below nr: an eighth, and another sixteenth, within the limits 1 and nr. */
  lemma ThresholdsAre(a: nat, r: nat)
    requires r < 16 && 16 * a + r >= 1
    ensures
      var l, half := Thresholds(16 * a + r), if r >= 8 then 1 else 0;
      && l.on == (if 16 * a + r < 8 then r else 14 * a + r - half + 1)
      && l.off == (if 13 * a + r - half - 1 < 1 then 1 else 13 * a + r - half - 1)
  {
    var half := if r >= 8 then 1 else 0;
    assert 16 * a + r == 8 * (2 * a + half) + (r - 8 * half);
    assert (16 * a + r) / 8 == 2 * a + half;
    assert (16 * a + r) / 16 == a;
  }

  /** A kind of slot: does the request carry REQ_ELVPRIV? */
  datatype Bag = Bag(plain: nat, elvpriv: nat) {
    function Of(elv: bool): nat { if elv then elvpriv else plain }

    function Add(elv: bool): Bag {
      if elv then this.(elvpriv := elvpriv + 1) else this.(plain := plain + 1)
    }

    function Remove(elv: bool): Bag
      requires Of(elv) > 0
    {
      if elv then this.(elvpriv := elvpriv - 1) else this.(plain := plain - 1)
    }

    function Size(): nat { plain + elvpriv }
  }

  /** One direction of the request list. */
  datatype Lane = Lane(
    allocating: Bag,  // slot counted, queue lock dropped, mempool not yet asked
    live: Bag,        // requests handed to their callers and not yet freed
    waiting: nat,     // processes on the exclusive wait queue
    woken: nat,       // processes taken off it that have yet to retry
    starved: bool,
    congested: bool
  ) {
    function Count(): nat { allocating.Size() + live.Size() }

    function Elvpriv(): nat { allocating.elvpriv + live.elvpriv }

    /** wake_up: the first sleeper leaves the wait queue. */
    function WakeOne(): Lane {
      if waiting > 0 then this.(waiting := waiting - 1, woken := woken + 1) else this
    }

    /** wake_up_all. */
    function WakeAll(): Lane { this.(waiting := 0, woken := woken + waiting) }

    function StarveIfEmpty(): Lane { if Count() == 0 then this.(starved := true) else this }

    function Sleep(canWait: bool): Lane { if canWait then this.(waiting := waiting + 1) else this }

    /** When __get_request turns an allocation away. */
    predicate Refuses(lim: Limits, may: MayQueue, batching: bool) {
      may.No? || (Count() >= lim.nr && !may.Must? && !batching) || Count() >= lim.Cap()
    }

    /** get_request on a queue that is not dying, up to where it drops the lock. */
    function Get(lim: Limits, may: MayQueue, batching: bool, elv: bool, canWait: bool): Lane {
      if Refuses(lim, may, batching) then
        (if may.No? then StarveIfEmpty() else this).Sleep(canWait)
      else
        this.(allocating := allocating.Add(elv), starved := false, congested := congested || Count() + 1 >= lim.on)
    }

    /** __freed_request on the direction that has just lost a slot. */
    function Freed(lim: Limits): Lane {
      var l := this.(congested := congested && Count() >= lim.off);
      if Count() < lim.nr then l.WakeOne() else l
    }

    /** What freed_request does for the opposite direction. */
    function Notice(): Lane { if starved then WakeOne() else this }

    predicate Can(a: Action) {
      match a
      case Get(_, _, _, _) => true
      case Retry(spurious, _, _, _) => (if spurious then waiting else woken) > 0
      case AllocOk(elv) => allocating.Of(elv) > 0
      case AllocFail(elv, _) => allocating.Of(elv) > 0
      case ElvprivFail => allocating.elvpriv > 0
      case Free(elv) => live.Of(elv) > 0
    }

    /** What an action does to its own direction. */
    function Do(lim: Limits, bypass: bool, dying: bool, a: Action): Lane
      requires Can(a)
    {
      match a
      case Get(may, batching, wantsElv, canWait) =>
        if dying then this else Get(lim, may, batching, wantsElv && !bypass, canWait)
      case Retry(spurious, may, batching, wantsElv) =>
        var up := if spurious then this.(waiting := waiting - 1) else this.(woken := woken - 1);
        if dying then up else up.Get(lim, may, batching, wantsElv && !bypass, true)
      case AllocOk(elv) => this.(allocating := allocating.Remove(elv), live := live.Add(elv))
      case AllocFail(elv, canWait) =>
        this.(allocating := allocating.Remove(elv)).Freed(lim).StarveIfEmpty().Sleep(canWait && !dying)
      case ElvprivFail => this.(allocating := allocating.Remove(true), live := live.Add(false))
      case Free(elv) => this.(live := live.Remove(elv)).Freed(lim)
    }
  }

  /** A step of one direction of the request list. */
  datatype Action =
    | Get(may: MayQueue, batching: bool, wantsElv: bool, canWait: bool)
    | Retry(spurious: bool, may: MayQueue, batching: bool, wantsElv: bool)
    | AllocOk(elv: bool)
    | AllocFail(elv: bool, canWait: bool)
    | ElvprivFail
    | Free(elv: bool)
  {
    /** Does the action call freed_request? */
    predicate Releases() { AllocFail? || Free? }
  }

  datatype State = State(
    lim: Limits,
    async: Lane,
    sync: Lane,
    depth: nat,     // bypass_depth
    holders: nat,   // bypass sections entered and not yet left
    draining: nat,  // outermost blk_queue_bypass_start calls still draining
    cleaning: nat,  // blk_cleanup_queue calls still draining
    cleaned: nat,   // blk_cleanup_queue calls past their drain
    dying: bool,
    dead: bool,
    running: nat    // request_fn invocations in progress
  ) {
    function At(d: Dir): Lane { if d == Async then async else sync }

    function With(d: Dir, own: Lane, other: Lane): State {
      if d == Async then this.(async := own, sync := other) else this.(sync := own, async := other)
    }

    function Elvpriv(): nat { async.Elvpriv() + sync.Elvpriv() }

    function Outstanding(): nat { async.Count() + sync.Count() }

    function WakeAll(): State { this.(async := async.WakeAll(), sync := sync.WakeAll()) }
  }

  /** A queue as blk_alloc_queue_node leaves it: one bypass section open. */
  function Initial(nr: nat): State
    requires nr >= 1
  {
    var l := Lane(Bag(0, 0), Bag(0, 0), 0, 0, false, false);
    State(Thresholds(nr), l, l, 1, 1, 0, 0, 0, false, false, 0)
  }

  datatype Event =
    | In(d: Dir, a: Action)
    | RunBegin
    | RunEnd
    | BypassStart
    | BypassDrained
    | BypassEnd
    | MarkDying
    | CleanupStart
    | CleanupDrained

  predicate Enabled(s: State, e: Event) {
    match e
    case In(d, a) => s.At(d).Can(a)
    case RunBegin => !s.dead
    case RunEnd => s.running > 0
    case BypassStart => true
    case BypassDrained => s.draining > 0 && s.Elvpriv() == 0 && s.running == 0
    case BypassEnd => s.holders > 0 && s.depth > 0
    case MarkDying => true
    case CleanupStart => true
    case CleanupDrained => s.cleaning > 0 && s.Outstanding() == 0 && s.Elvpriv() == 0 && s.running == 0
  }

  function Apply(s: State, e: Event): State
    requires Enabled(s, e)
  {
    match e
    case In(d, a) =>
      var other := s.At(d.Other());
      s.With(d, s.At(d).Do(s.lim, s.depth > 0, s.dying, a), if a.Releases() then other.Notice() else other)
    case RunBegin => s.(running := s.running + 1)
    case RunEnd => s.(running := s.running - 1)
    case BypassStart =>
      if s.depth == 0 then s.(depth := 1, draining := s.draining + 1)
      else s.(depth := s.depth + 1, holders := s.holders + 1)
    case BypassDrained => s.(draining := s.draining - 1, holders := s.holders + 1).WakeAll()
    case BypassEnd => s.(holders := s.holders - 1, depth := s.depth - 1)
    case MarkDying => s.(dying := true)
    case CleanupStart => s.(dying := true, depth := s.depth + 1, cleaning := s.cleaning + 1)
    case CleanupDrained => s.(cleaning := s.cleaning - 1, cleaned := s.cleaned + 1, dead := true).WakeAll()
  }

  // ---- Invariants ----------------------------------------------------------------

  /** A sleeper is answerable to a counted request, the starved mark or a woken process. */
  predicate Answerable(l: Lane) {
    l.waiting > 0 ==> l.Count() > 0 || l.starved || l.woken > 0
  }

  predicate LaneOk(lim: Limits, l: Lane) {
    && l.Count() <= lim.Cap()
    && (l.starved ==> l.Count() == 0)
    && (l.Count() >= lim.on ==> l.congested)
    && (l.congested ==> l.Count() >= lim.off)
  }

  /** Nothing is allocated, in flight, running or asleep. */
  predicate Quiet(s: State) {
    s.Outstanding() == 0 && s.Elvpriv() == 0 && s.running == 0 && s.async.waiting == 0 && s.sync.waiting == 0
  }

  predicate LifecycleOk(s: State) {
    && s.depth == s.holders + s.draining + s.cleaning + s.cleaned
    && (s.depth > 0 && s.draining == 0 && s.cleaning == 0 ==> s.Elvpriv() == 0)
    && (s.cleaning + s.cleaned > 0 ==> s.dying)
    && (s.dead <==> s.cleaned > 0)
    && (s.dead ==> Quiet(s))
  }

  predicate Inv(s: State) {
    && s.lim.Ok() && LaneOk(s.lim, s.async) && LaneOk(s.lim, s.sync) && LifecycleOk(s)
    && (!s.dying ==> Answerable(s.async) && Answerable(s.sync))
  }

  lemma InitialInv(nr: nat)
    requires nr >= 1
    ensures Inv(Initial(nr))
  {
  }

  /** What an action leaves of its own lane: l before, r after. */
  predicate Follows(lim: Limits, bypass: bool, dying: bool, l: Lane, r: Lane) {
    && LaneOk(lim, r)
    && (Answerable(l) && !dying ==> Answerable(r))
    && (bypass || dying ==> r.Elvpriv() <= l.Elvpriv())
    && (dying ==> r.Count() <= l.Count() && r.waiting <= l.waiting)
  }

  lemma GetFollows(lim: Limits, bypass: bool, dying: bool, l: Lane, a: Action)
    requires lim.Ok() && LaneOk(lim, l) && a.Get?
    ensures Follows(lim, bypass, dying, l, l.Do(lim, bypass, dying, a))
  {
  }

  /** A retry is a get by a process that has just left the wait queue, and that sleeps again if refused. */
  lemma RetryFollows(lim: Limits, bypass: bool, dying: bool, l: Lane, a: Action)
    requires lim.Ok() && LaneOk(lim, l) && a.Retry? && l.Can(a)
    ensures Follows(lim, bypass, dying, l, l.Do(lim, bypass, dying, a))
  {
    var up := WokenUp(lim, bypass, dying, l, a);
    if !dying {
      RetryGets(lim, up, a.may, a.batching, a.wantsElv && !bypass);
    }
  }

  lemma WokenUp(lim: Limits, bypass: bool, dying: bool, l: Lane, a: Action) returns (up: Lane)
    requires a.Retry? && l.Can(a)
    ensures up.allocating == l.allocating && up.live == l.live && up.starved == l.starved && up.congested == l.congested
    ensures up.waiting <= l.waiting
    ensures l.Do(lim, bypass, dying, a) ==
      if dying then up else up.Get(lim, a.may, a.batching, a.wantsElv && !bypass, true)
  {
    up := if a.spurious then l.(waiting := l.waiting - 1) else l.(woken := l.woken - 1);
  }

  lemma RetryGets(lim: Limits, up: Lane, may: MayQueue, batching: bool, elv: bool)
    requires lim.Ok() && LaneOk(lim, up)
    ensures
      var r := up.Get(lim, may, batching, elv, true);
      LaneOk(lim, r) && Answerable(r) && (!elv ==> r.Elvpriv() <= up.Elvpriv())
  {
  }

  lemma AllocatedFollows(lim: Limits, bypass: bool, dying: bool, l: Lane, a: Action)
    requires lim.Ok() && LaneOk(lim, l) && (a.AllocOk? || a.ElvprivFail?) && l.Can(a)
    ensures Follows(lim, bypass, dying, l, l.Do(lim, bypass, dying, a))
  {
  }

  /** Losing a slot leaves every sleeper answerable, because the last slot wakes one. */
  lemma FreedLane(lim: Limits, l: Lane, rest: Lane)
    requires lim.Ok() && LaneOk(lim, l) && l == rest.(allocating := l.allocating, live := l.live)
    requires l.Count() == rest.Count() + 1
    ensures var r := rest.Freed(lim);
            LaneOk(lim, r) && Answerable(r) && r.Count() == rest.Count() && r.waiting <= l.waiting
  {
  }

  lemma FreeFollows(lim: Limits, bypass: bool, dying: bool, l: Lane, a: Action)
    requires lim.Ok() && LaneOk(lim, l) && a.Free? && l.Can(a)
    ensures Follows(lim, bypass, dying, l, l.Do(lim, bypass, dying, a))
  {
    FreedLane(lim, l, l.(live := l.live.Remove(a.elv)));
  }

  /** The failed allocator adds the starved mark and perhaps its own sleep. */
  lemma BackToSleep(lim: Limits, l: Lane, canWait: bool)
    requires LaneOk(lim, l) && Answerable(l)
    ensures var r := l.StarveIfEmpty().Sleep(canWait);
            LaneOk(lim, r) && Answerable(r) && r.Count() == l.Count() && r.Elvpriv() == l.Elvpriv()
  {
  }

  lemma AllocFailFollows(lim: Limits, bypass: bool, dying: bool, l: Lane, a: Action)
    requires lim.Ok() && LaneOk(lim, l) && a.AllocFail? && l.Can(a)
    ensures Follows(lim, bypass, dying, l, l.Do(lim, bypass, dying, a))
  {
    var rest := l.(allocating := l.allocating.Remove(a.elv));
    FreedLane(lim, l, rest);
    BackToSleep(lim, rest.Freed(lim), a.canWait && !dying);
  }

  lemma ActionFollows(lim: Limits, bypass: bool, dying: bool, l: Lane, a: Action)
    requires lim.Ok() && LaneOk(lim, l) && l.Can(a)
    ensures Follows(lim, bypass, dying, l, l.Do(lim, bypass, dying, a))
  {
    match a {
      case Get(_, _, _, _) => GetFollows(lim, bypass, dying, l, a);
      case Retry(_, _, _, _) => RetryFollows(lim, bypass, dying, l, a);
      case AllocOk(_) => AllocatedFollows(lim, bypass, dying, l, a);
      case ElvprivFail => AllocatedFollows(lim, bypass, dying, l, a);
      case AllocFail(_, _) => AllocFailFollows(lim, bypass, dying, l, a);
      case Free(_) => FreeFollows(lim, bypass, dying, l, a);
    }
  }

  lemma LanesFollow(s: State, d: Dir, own: Lane, other: Lane)
    requires Inv(s)
    requires Follows(s.lim, s.depth > 0, s.dying, s.At(d), own)
    requires Follows(s.lim, true, s.dying, s.At(d.Other()), other)
    ensures Inv(s.With(d, own, other))
  {
  }

  lemma RunKeeps(s: State, e: Event)
    requires Inv(s) && Enabled(s, e) && (e.RunBegin? || e.RunEnd? || e.MarkDying?)
    ensures Inv(Apply(s, e))
  {
  }

  lemma BypassKeeps(s: State, e: Event)
    requires Inv(s) && Enabled(s, e) && (e.BypassStart? || e.BypassEnd? || e.CleanupStart?)
    ensures Inv(Apply(s, e))
  {
  }

  lemma DrainedKeeps(s: State, e: Event)
    requires Inv(s) && Enabled(s, e) && (e.BypassDrained? || e.CleanupDrained?)
    ensures Inv(Apply(s, e))
  {
  }

  lemma LifecycleKeepsInv(s: State, e: Event)
    requires Inv(s) && Enabled(s, e) && !e.In?
    ensures Inv(Apply(s, e))
  {
    if e.RunBegin? || e.RunEnd? || e.MarkDying? {
      RunKeeps(s, e);
    } else if e.BypassStart? || e.BypassEnd? || e.CleanupStart? {
      BypassKeeps(s, e);
    } else {
      DrainedKeeps(s, e);
    }
  }

  /** Every step of the protocol keeps the invariant. */
  lemma StepKeepsInv(s: State, e: Event)
    requires Inv(s) && Enabled(s, e)
    ensures Inv(Apply(s, e))
  {
    if e.In? {
      var other := s.At(e.d.Other());
      ActionFollows(s.lim, s.depth > 0, s.dying, s.At(e.d), e.a);
      LanesFollow(s, e.d, s.At(e.d).Do(s.lim, s.depth > 0, s.dying, e.a),
                  if e.a.Releases() then other.Notice() else other);
    } else {
      LifecycleKeepsInv(s, e);
    }
  }

  // ---- What each step is for ------------------------------------------------------

  /** get_request on a live queue: who gets a slot, who sleeps, and what the slot is. */
  predicate Answers(lim: Limits, l: Lane, r: Lane, may: MayQueue, batching: bool, elv: bool, canWait: bool) {
    if may != No && l.Count() < 3 * lim.nr / 2 && (l.Count() < lim.nr || may == Must || batching) then
      && r.Count() == l.Count() + 1 && r.Elvpriv() == l.Elvpriv() + (if elv then 1 else 0)
      && !r.starved && r.waiting == l.waiting && r.woken == l.woken
      && (r.congested <==> l.congested || r.Count() >= lim.on)
    else
      && r.Count() == l.Count() && r.Elvpriv() == l.Elvpriv() && r.congested == l.congested
      && r.waiting == l.waiting + (if canWait then 1 else 0) && r.woken == l.woken
      && (r.starved <==> l.starved || (may == No && l.Count() == 0))
  }

  /**
   On a live queue a process gets a slot if and only if the elevator does not refuse, fewer than 3/2
   nr_requests are counted, and either fewer than nr_requests are or it must get one or is batching.
   */
  lemma GetGrants(lim: Limits, l: Lane, bypass: bool, may: MayQueue, batching: bool, wantsElv: bool, canWait: bool)
    ensures
      var r := l.Do(lim, bypass, false, Get(may, batching, wantsElv, canWait));
      && Answers(lim, l, r, may, batching, wantsElv && !bypass, canWait)
      && (r.Count() == l.Count() + 1 <==>
            may != No && l.Count() < 3 * lim.nr / 2 && (l.Count() < lim.nr || may == Must || batching))
    ensures l.Do(lim, bypass, true, Get(may, batching, wantsElv, canWait)) == l
  {
  }

  /** So does a process that retries, having left the wait queue. */
  lemma RetryGrants(lim: Limits, l: Lane, bypass: bool, spurious: bool, may: MayQueue, batching: bool, wantsElv: bool)
    requires (if spurious then l.waiting else l.woken) > 0
    ensures
      var r := l.Do(lim, bypass, false, Retry(spurious, may, batching, wantsElv));
      var up := if spurious then l.(waiting := l.waiting - 1) else l.(woken := l.woken - 1);
      && Answers(lim, up, r, may, batching, wantsElv && !bypass, true)
      && (r.Count() == l.Count() + 1 <==>
            may != No && l.Count() < 3 * lim.nr / 2 && (l.Count() < lim.nr || may == Must || batching))
      && l.Do(lim, bypass, true, Retry(spurious, may, batching, wantsElv)) == up
  {
    var up := if spurious then l.(waiting := l.waiting - 1) else l.(woken := l.woken - 1);
    GetGrants(lim, up, bypass, may, batching, wantsElv, true);
  }

  /** The slot is gone and counted out; one sleeper is woken if and only if fewer than nr_requests are left. */
  lemma FreeWakes(lim: Limits, l: Lane, bypass: bool, dying: bool, elv: bool)
    requires l.Can(Free(elv))
    ensures
      var r := l.Do(lim, bypass, dying, Free(elv));
      && r.Count() == l.Count() - 1 && r.Elvpriv() == l.Elvpriv() - (if elv then 1 else 0)
      && r.woken == l.woken + (if l.waiting > 0 && l.Count() - 1 < lim.nr then 1 else 0)
      && r.waiting + r.woken == l.waiting + l.woken && r.starved == l.starved
      && (r.congested <==> l.congested && l.Count() - 1 >= lim.off)
  {
  }

  /** So it is when an allocation fails; the process that failed may sleep in turn, and an empty list is starved. */
  lemma AllocFailWakes(lim: Limits, l: Lane, bypass: bool, dying: bool, elv: bool, canWait: bool)
    requires l.Can(AllocFail(elv, canWait))
    ensures
      var r := l.Do(lim, bypass, dying, AllocFail(elv, canWait));
      && r.Count() == l.Count() - 1 && r.Elvpriv() == l.Elvpriv() - (if elv then 1 else 0)
      && r.woken == l.woken + (if l.waiting > 0 && l.Count() - 1 < lim.nr then 1 else 0)
      && r.waiting + r.woken == l.waiting + l.woken + (if canWait && !dying then 1 else 0)
      && (r.starved <==> l.starved || l.Count() == 1) && (r.congested <==> l.congested && l.Count() - 1 >= lim.off)
  {
    var rest := l.(allocating := l.allocating.Remove(elv));
    FailedThen(rest.Freed(lim), canWait && !dying);
  }

  lemma FailedThen(l: Lane, sleeps: bool)
    ensures
      var r := l.StarveIfEmpty().Sleep(sleeps);
      && r == l.(waiting := r.waiting, starved := r.starved) && r.waiting == l.waiting + (if sleeps then 1 else 0)
      && (r.starved <==> l.starved || l.Count() == 0)
  {
  }

  /** The other direction has one sleeper woken exactly when it is marked starved; allocating wakes nobody there. */
  lemma OtherDirection(s: State, d: Dir, a: Action)
    requires Enabled(s, In(d, a))
    ensures
      var l, r := s.At(d.Other()), Apply(s, In(d, a)).At(d.Other());
      && r == l.(waiting := r.waiting, woken := r.woken) && r.waiting + r.woken == l.waiting + l.woken
      && r.woken == l.woken + (if (a.AllocFail? || a.Free?) && l.starved && l.waiting > 0 then 1 else 0)
  {
  }

  /** A request that was allocated keeps its slot, with or without its elevator data. */
  lemma AllocationKeepsSlot(lim: Limits, l: Lane, bypass: bool, dying: bool, a: Action)
    requires (a.AllocOk? || a.ElvprivFail?) && l.Can(a)
    ensures
      var r := l.Do(lim, bypass, dying, a);
      && r.Count() == l.Count() && r.live.Size() == l.live.Size() + 1
      && r.Elvpriv() == l.Elvpriv() - (if a.ElvprivFail? then 1 else 0)
      && r == l.(allocating := r.allocating, live := r.live)
  {
  }

  /** The end of a drain wakes everybody. */
  lemma DrainWakesAll(s: State)
    ensures forall e :: (e == BypassDrained || e == CleanupDrained) && Enabled(s, e) ==>
      var r := Apply(s, e);
      && r.async.waiting == r.sync.waiting == 0
      && r.async.woken == s.async.woken + s.async.waiting && r.sync.woken == s.sync.woken + s.sync.waiting
  {
  }

  /** A queue marked dying stays so, and counts no request more. */
  lemma {:induction false} DyingForGood(s: State, es: seq<Event>)
    requires Inv(s) && Runs(s, es) && s.dying
    ensures Final(s, es).dying && Final(s, es).Outstanding() <= s.Outstanding()
    decreases |es|
  {
    if es != [] {
      StepKeepsInv(s, es[0]);
      DyingStep(s, es[0]);
      DyingForGood(Apply(s, es[0]), es[1..]);
    }
  }

  lemma DyingStep(s: State, e: Event)
    requires Inv(s) && Enabled(s, e) && s.dying
    ensures Apply(s, e).dying && Apply(s, e).Outstanding() <= s.Outstanding()
  {
    if e.In? {
      ActionFollows(s.lim, s.depth > 0, s.dying, s.At(e.d), e.a);
    }
  }

  /** blk_set_queue_dying and blk_cleanup_queue mark the queue, the end of the latter's drain kills it. */
  lemma MarksQueue(s: State)
    ensures Apply(s, MarkDying).dying && Apply(s, CleanupStart).dying && Apply(s, CleanupStart).depth == s.depth + 1
    ensures Enabled(s, CleanupDrained) ==> Apply(s, CleanupDrained).dead
  {
  }

  // ---- Whole runs ----------------------------------------------------------------

  predicate Steps(s: State, e: Event, s': State) { Enabled(s, e) && Apply(s, e) == s' }

  /** The events can happen one after the other, starting in s. */
  predicate Runs(s: State, es: seq<Event>)
    decreases es
  {
    es == [] || (Enabled(s, es[0]) && Runs(Apply(s, es[0]), es[1..]))
  }

  function Final(s: State, es: seq<Event>): State
    requires Runs(s, es)
    decreases es
  {
    if es == [] then s else Final(Apply(s, es[0]), es[1..])
  }

  lemma {:induction false} RunKeepsInv(s: State, es: seq<Event>)
    requires Inv(s) && Runs(s, es)
    ensures Inv(Final(s, es))
    decreases |es|
  {
    if es != [] {
      StepKeepsInv(s, es[0]);
      RunKeepsInv(Apply(s, es[0]), es[1..]);
    }
  }

  /** What the invariant says of a state, spelled out. */
  predicate Promises(s: State, l: Lane) {
    // no wakeup is lost
    && (!s.dying && l.waiting > 0 ==> l.Count() > 0 || l.starved || l.woken > 0)
    // the cap and the congestion hysteresis
    && l.Count() <= 3 * s.lim.nr / 2
    && (l.Count() >= s.lim.on ==> l.congested)
    && (l.Count() < s.lim.off ==> !l.congested)
    // bypass is counted by those who hold it, and keeps REQ_ELVPRIV out once drained
    && s.depth == s.holders + s.draining + s.cleaning + s.cleaned
    && (s.depth > 0 && s.draining + s.cleaning == 0 ==> s.Elvpriv() == 0)
    && (s.dead ==> Quiet(s))
  }

  /** Every state of every run of a fresh queue, in both directions. */
  lemma ReachableStates(nr: nat, es: seq<Event>)
    requires nr >= 1 && Runs(Initial(nr), es)
    ensures var s := Final(Initial(nr), es);
            s.lim == Thresholds(nr) && Promises(s, s.async) && Promises(s, s.sync)
  {
    var s := Initial(nr);
    assert Inv(s) by { InitialInv(nr); }
    RunKeepsInv(s, es);
    LimitsAreConstant(s, es);
  }

  lemma {:induction false} LimitsAreConstant(s: State, es: seq<Event>)
    requires Runs(s, es)
    ensures Final(s, es).lim == s.lim
    decreases |es|
  {
    if es != [] {
      LimitsAreConstant(Apply(s, es[0]), es[1..]);
    }
  }

  /** Once DEAD is set the queue stays dead and quiet, and no request_fn call begins. */
  lemma {:induction false} DeadStaysQuiet(s: State, es: seq<Event>)
    requires Inv(s) && s.dead && Runs(s, es)
    ensures Final(s, es).dead && Quiet(Final(s, es))
    ensures RunBegin !in es
    decreases |es|
  {
    if es != [] {
      StepKeepsInv(s, es[0]);
      DeadStaysQuiet(Apply(s, es[0]), es[1..]);
      assert es == [es[0]] + es[1..];
    }
  }

  /** The bypass depth is positive in every state of the run before its last. */
  predicate Bypassed(s: State, es: seq<Event>)
    requires Runs(s, es)
    decreases es
  {
    es == [] || (s.depth > 0 && Bypassed(Apply(s, es[0]), es[1..]))
  }

  lemma BypassStepStaysClean(s: State, e: Event)
    requires Inv(s) && Enabled(s, e) && s.depth > 0 && s.Elvpriv() == 0
    ensures Apply(s, e).Elvpriv() == 0
  {
    if e.In? {
      ActionFollows(s.lim, true, s.dying, s.At(e.d), e.a);
    }
  }

  /** Once no request carries REQ_ELVPRIV, none does until the bypass depth is back at 0. */
  lemma {:induction false} BypassStaysClean(s: State, es: seq<Event>)
    requires Inv(s) && Runs(s, es) && s.Elvpriv() == 0 && Bypassed(s, es)
    ensures Final(s, es).Elvpriv() == 0
    decreases |es|
  {
    if es != [] {
      StepKeepsInv(s, es[0]);
      BypassStepStaysClean(s, es[0]);
      BypassStaysClean(Apply(s, es[0]), es[1..]);
    }
  }

  /**
   The comment on blk_queue_bypass_start promises that no request has ELVPRIV set on
   return.  A nested call returns at once, also while the outermost one still drains.
   */
  lemma NestedBypassStartReturnsEarly()
    ensures Steps(Initial(8), BypassEnd, NESTED1)
    ensures Steps(NESTED1, In(Sync, Get(May, false, true, true)), NESTED2)
    ensures Steps(NESTED2, In(Sync, AllocOk(true)), NESTED3)
    ensures Steps(NESTED3, BypassStart, NESTED4)
    ensures Steps(NESTED4, BypassStart, NESTED5)
    ensures NESTED5.holders == NESTED4.holders + 1 && NESTED5.draining == 1 && NESTED5.Elvpriv() == 1
  {
    NestedGet();
    NestedAlloc();
    NestedStarts();
  }

  const IDLE := Lane(Bag(0, 0), Bag(0, 0), 0, 0, false, false)
  const NESTED1 := State(Limits(8, 8, 6), IDLE, IDLE, 0, 0, 0, 0, 0, false, false, 0)
  const NESTED2 := NESTED1.(sync := IDLE.(allocating := Bag(0, 1)))
  const NESTED3 := NESTED1.(sync := IDLE.(live := Bag(0, 1)))
  const NESTED4 := NESTED3.(depth := 1, draining := 1)
  const NESTED5 := NESTED4.(depth := 2, holders := 1)

  lemma NestedGet()
    ensures Steps(Initial(8), BypassEnd, NESTED1)
    ensures Steps(NESTED1, In(Sync, Get(May, false, true, true)), NESTED2)
  {
  }

  lemma NestedAlloc()
    ensures Steps(NESTED2, In(Sync, AllocOk(true)), NESTED3)
  {
  }

  lemma NestedStarts()
    ensures Steps(NESTED3, BypassStart, NESTED4) && Steps(NESTED4, BypassStart, NESTED5)
  {
  }

  /**
   A nested call can only break that promise while a drain is going on.  It need not break it then: a
   drain may be pending with no ELVPRIV request left, because it also waits for request_fn to return, and
   because it only looks again after its sleep.
   */
  lemma NestedBypassStart(s: State)
    requires Inv(s) && s.depth > 0 && Apply(s, BypassStart).Elvpriv() > 0
    ensures s.draining > 0 || s.cleaning > 0
  {
  }

  // ---- Who can still wake a sleeper ----------------------------------------------

  /** Somebody sleeps, nobody is on the way to retry, and no request is left to be freed. */
  predicate Stranded(s: State, d: Dir) {
    s.At(d).waiting > 0 && s.At(d).woken == 0 && s.Outstanding() == 0
  }

  /** The action makes its process sleep although no request is outstanding. */
  predicate SleepsOnIdle(l: Lane, outstanding: nat, a: Action) {
    match a
    case Get(may, _, _, canWait) => may.No? && canWait && outstanding == 0 && l.woken == 0
    case Retry(spurious, may, _, _) => may.No? && outstanding == 0 && l.woken == (if spurious then 0 else 1)
    case AllocFail(_, canWait) => canWait && outstanding == 1 && l.waiting == 0 && l.woken == 0
    case _ => false
  }

  lemma SleepStrands(s: State, d: Dir, a: Action)
    requires Inv(s) && (a.Get? || a.Retry?) && s.At(d).Can(a) && !s.dying && !Stranded(s, d)
    ensures Stranded(Apply(s, In(d, a)), d) <==> SleepsOnIdle(s.At(d), s.Outstanding(), a)
  {
  }

  lemma FreeStrands(s: State, d: Dir, a: Action)
    requires Inv(s) && a.Free? && s.At(d).Can(a) && !s.dying && !Stranded(s, d)
    ensures !Stranded(Apply(s, In(d, a)), d)
  {
  }

  lemma AllocFailStrands(s: State, d: Dir, a: Action)
    requires Inv(s) && a.AllocFail? && s.At(d).Can(a) && !s.dying && !Stranded(s, d)
    ensures Stranded(Apply(s, In(d, a)), d) <==> SleepsOnIdle(s.At(d), s.Outstanding(), a)
  {
  }

  lemma OwnLaneStrands(s: State, d: Dir, a: Action)
    requires Inv(s) && s.At(d).Can(a) && !s.dying && !Stranded(s, d)
    ensures Stranded(Apply(s, In(d, a)), d) <==> SleepsOnIdle(s.At(d), s.Outstanding(), a)
  {
    if a.Get? || a.Retry? {
      SleepStrands(s, d, a);
    } else if a.Free? {
      FreeStrands(s, d, a);
    } else if a.AllocFail? {
      AllocFailStrands(s, d, a);
    }
  }

  lemma OtherLaneNeverStrands(s: State, d: Dir, a: Action)
    requires Inv(s) && s.At(d.Other()).Can(a) && !s.dying && !Stranded(s, d)
    ensures !Stranded(Apply(s, In(d.Other(), a)), d)
  {
  }

  /** Exactly those sleeps strand a process; the starved mark takes care of every other step. */
  lemma StrandsExactly(s: State, e: Event, d: Dir)
    requires Inv(s) && Enabled(s, e) && !s.dying && !Apply(s, e).dying && !Stranded(s, d)
    ensures Stranded(Apply(s, e), d) <==> e.In? && e.d == d && SleepsOnIdle(s.At(d), s.Outstanding(), e.a)
  {
    if e.In? && e.d == d {
      OwnLaneStrands(s, d, e.a);
    } else if e.In? {
      OtherLaneNeverStrands(s, d, e.a);
    }
  }

  /** The first allocation of any queue, refused by the elevator, sleeps with nobody to wake it. */
  lemma RefusedFirstStrands(nr: nat, d: Dir, batching: bool, wantsElv: bool)
    requires nr >= 1
    ensures
      var e := In(d, Get(No, batching, wantsElv, true));
      Enabled(Initial(nr), e) && Stranded(Apply(Initial(nr), e), d)
  {
    hide Apply, LaneOk, LifecycleOk, Answerable;
    var s, e := Initial(nr), In(d, Get(No, batching, wantsElv, true));
    InitialInv(nr);
    NotDying(s, e);
    StrandsExactly(s, e, d);
  }

  lemma NotDying(s: State, e: Event)
    requires e.In? && Enabled(s, e)
    ensures Apply(s, e).dying == s.dying
  {
  }

  /** No step of the run is such a sleep in direction d, and the queue never dies. */
  predicate NeverSleepsOnIdle(s: State, es: seq<Event>, d: Dir)
    requires Runs(s, es)
    decreases es
  {
    && !s.dying
    && (es == [] ||
        (!(es[0].In? && es[0].d == d && SleepsOnIdle(s.At(d), s.Outstanding(), es[0].a))
         && NeverSleepsOnIdle(Apply(s, es[0]), es[1..], d)))
  }

  /** Without such a sleep, every sleeper of a live queue always has somebody to wake it. */
  lemma {:induction false} SleepersHaveWakers(s: State, es: seq<Event>, d: Dir)
    requires Inv(s) && !Stranded(s, d) && Runs(s, es) && NeverSleepsOnIdle(s, es, d)
    ensures !Stranded(Final(s, es), d)
    decreases |es|
  {
    if es != [] {
      StepKeepsInv(s, es[0]);
      StrandsExactly(s, es[0], d);
      SleepersHaveWakers(Apply(s, es[0]), es[1..], d);
    }
  }
}
