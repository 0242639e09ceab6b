/**
 The emergency command of a SCSI host (drivers/scsi/scsi.c) as a protocol. Steps are what
 happens between taking and dropping free_list_lock; allocation may fail at any time.
 Buffers remember the command they were allocated for, so that "its own buffers" can be said.
 */
module CommandReserve {
  import opened Common

  /** struct scsi_cmnd: its two buffers, its device, and everything else. */
  datatype Cmd = Cmd(sense: nat, prot: Option<nat>, device: Option<nat>, rest: nat)

  /** mem, senses and prots are the live allocations; held is with callers, closing is about to be freed. */
  datatype Host = Host(
    dix: bool,
    mem: map<nat, Cmd>,
    senses: map<nat, nat>,
    prots: map<nat, nat>,
    free: seq<nat>,
    held: set<nat>,
    closing: set<nat>)
  {
    ghost predicate SenseOk() {
      && (forall c <- mem :: mem[c].sense in senses && senses[mem[c].sense] == c)
      && (forall s <- senses :: senses[s] in mem && mem[senses[s]].sense == s)
    }

    ghost predicate ProtOk() {
      && (forall c <- mem :: mem[c].prot.Some? == dix)
      && (forall c <- mem :: dix ==> mem[c].prot.value in prots && prots[mem[c].prot.value] == c)
      && (forall p <- prots :: dix && prots[p] in mem && mem[prots[p]].prot == Some(p))
    }

    /** Every live command is in exactly one place, and the reserve is missing only while a caller has one. */
    ghost predicate PlacesOk() {
      && (free == [] || (|free| == 1 && free[0] !in held && free[0] !in closing))
      && held !! closing
      && mem.Keys == held + closing + Reserve()
      && (free == [] ==> held != {})
    }

    ghost function Reserve(): set<nat> { if free == [] then {} else {free[0]} }

    ghost predicate Inv() { SenseOk() && ProtOk() && PlacesOk() }
  }

  function Fresh(dix: bool, s: nat, p: nat): Cmd { Cmd(s, if dix then Some(p) else None, None, 0) }

  /** After scsi_setup_command_freelist. */
  function Setup(dix: bool, c: nat, s: nat, p: nat): Host {
    Host(dix, map[c := Fresh(dix, s, p)], map[s := c], if dix then map[p := c] else map[], [c], {}, {})
  }

  /**
   Alloc: all allocations succeeded. Pop: they did not, and the reserve is taken.
   Refuse: they did not, and the reserve is out. Put keeps the reserve or goes on to Release.
   */
  datatype Event =
    | Alloc(c: nat, s: nat, p: nat, dev: nat, now: nat)
    | Pop(dev: nat, now: nat)
    | Refuse
    | Put(c: nat)
    | Release(c: nat)

  predicate Enabled(h: Host, e: Event) {
    match e
    case Alloc(c, s, p, _, _) => c !in h.mem && s !in h.senses && p !in h.prots
    case Pop(_, _) => h.free != []
    case Refuse => h.free == []
    case Put(c) => c in h.held
    case Release(c) => c in h.closing && c in h.mem
  }

  function Apply(h: Host, e: Event): Host
    requires Enabled(h, e)
  {
    match e
    case Alloc(c, s, p, dev, now) =>
      h.(mem := h.mem[c := Fresh(h.dix, s, p).(device := Some(dev), rest := now)],
         senses := h.senses[s := c],
         prots := if h.dix then h.prots[p := c] else h.prots,
         held := h.held + {c})
    case Pop(dev, now) =>
      var c := h.free[0];
      h.(mem := if c in h.mem then h.mem[c := Cmd(h.mem[c].sense, h.mem[c].prot, Some(dev), now)] else h.mem,
         free := h.free[1..],
         held := h.held + {c})
    case Refuse => h
    case Put(c) =>
      if h.free == [] then h.(free := [c], held := h.held - {c})
      else h.(held := h.held - {c}, closing := h.closing + {c})
    case Release(c) =>
      h.(mem := h.mem - {c},
         senses := h.senses - {h.mem[c].sense},
         prots := if h.mem[c].prot.Some? then h.prots - {h.mem[c].prot.value} else h.prots,
         closing := h.closing - {c})
  }

  lemma SetupInv(dix: bool, c: nat, s: nat, p: nat)
    ensures Setup(dix, c, s, p).Inv()
  {
  }

  lemma SenseStep(h: Host, e: Event)
    requires h.Inv() && Enabled(h, e)
    ensures Apply(h, e).SenseOk()
  {
  }

  lemma ProtStep(h: Host, e: Event)
    requires h.Inv() && Enabled(h, e)
    ensures Apply(h, e).ProtOk()
  {
  }

  lemma PlacesStep(h: Host, e: Event)
    requires h.Inv() && Enabled(h, e)
    ensures Apply(h, e).PlacesOk()
  {
  }

  /** A command that stays allocated keeps its sense and protection buffers whatever happens. */
  lemma BuffersStay(h: Host, e: Event, c: nat)
    requires h.Inv() && Enabled(h, e) && c in h.mem
    ensures e != Release(c) ==>
      c in Apply(h, e).mem && Apply(h, e).mem[c].sense == h.mem[c].sense && Apply(h, e).mem[c].prot == h.mem[c].prot
  {
  }

  predicate Runs(h: Host, es: seq<Event>)
    decreases es
  {
    es == [] || (Enabled(h, es[0]) && Runs(Apply(h, es[0]), es[1..]))
  }

  function Final(h: Host, es: seq<Event>): Host
    requires Runs(h, es)
    decreases es
  {
    if es == [] then h else Final(Apply(h, es[0]), es[1..])
  }

  lemma {:induction false} RunKeepsInv(h: Host, es: seq<Event>)
    requires h.Inv() && Runs(h, es)
    ensures Final(h, es).Inv()
    decreases es
  {
    if es != [] {
      SenseStep(h, es[0]);
      ProtStep(h, es[0]);
      PlacesStep(h, es[0]);
      RunKeepsInv(Apply(h, es[0]), es[1..]);
    }
  }

  lemma Counted(h: Host)
    requires h.PlacesOk()
    ensures |h.mem| == |h.held| + |h.closing| + |h.free|
  {
    var r := h.Reserve();
    assert |h.mem| == |h.mem.Keys|;
    assert |h.held + h.closing + r| == |h.held + h.closing| + |r|;
  }

  /**
   Over every interleaving of gets and puts: at most one command in reserve, none only while one
   is outstanding, every allocation accounted for, and every buffer owned by one live command.
   */
  lemma EmergencyReserve(dix: bool, c: nat, s: nat, p: nat, es: seq<Event>)
    requires Runs(Setup(dix, c, s, p), es)
    ensures
      var h := Final(Setup(dix, c, s, p), es);
      && |h.free| <= 1
      && (h.free == [] ==> |h.held| >= 1)
      && |h.mem| == |h.held| + |h.closing| + |h.free|
      && (Enabled(h, Refuse) ==> |h.held| >= 1)
      && h.SenseOk() && h.ProtOk()
  {
    SetupInv(dix, c, s, p);
    RunKeepsInv(Setup(dix, c, s, p), es);
    var h := Final(Setup(dix, c, s, p), es);
    Counted(h);
    if h.free == [] {
      var x :| x in h.held;
      assert |h.held - {x}| + 1 == |h.held|;
    }
  }

  lemma {:induction false} BuffersStayOverRuns(h: Host, es: seq<Event>, c: nat)
    requires h.Inv() && Runs(h, es) && c in h.mem && Release(c) !in es
    ensures
      var g := Final(h, es);
      c in g.mem && g.mem[c].sense == h.mem[c].sense && g.mem[c].prot == h.mem[c].prot
    decreases es
  {
    if es != [] {
      BuffersStay(h, es[0], c);
      SenseStep(h, es[0]);
      ProtStep(h, es[0]);
      PlacesStep(h, es[0]);
      BuffersStayOverRuns(Apply(h, es[0]), es[1..], c);
    }
  }

  /** With no command out, nothing live but the reserve: two buffers at most, and a get cannot be refused. */
  lemma IdleHost(h: Host)
    requires h.Inv() && h.held == {} && h.closing == {}
    ensures |h.free| == 1 && h.mem.Keys == {h.free[0]}
    ensures h.senses.Keys == {h.mem[h.free[0]].sense}
    ensures h.prots.Keys == if h.dix then {h.mem[h.free[0]].prot.value} else {}
    ensures !Enabled(h, Refuse)
  {
  }
}
