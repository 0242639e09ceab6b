/**
 The functions of drivers/scsi/scsi.c that get and put commands, proved against the steps of
 CommandReserve. The ids a slab would hand out and the failure of each allocation are parameters.
 */
module CommandReserveCode {
  import opened CommandReserve
  import opened Common

  const ENOMEM := 12

  /** What the slabs answer to one attempt: three ids and which of the three allocations fail. */
  datatype Slabs = Slabs(c: nat, s: nat, p: nat, cmdFails: bool, senseFails: bool, protFails: bool) {
    predicate Offers(mem: map<nat, Cmd>, senses: map<nat, nat>, prots: map<nat, nat>) {
      c !in mem && s !in senses && p !in prots
    }

    predicate Fails(dix: bool) { cmdFails || senseFails || (dix && protFails) }
  }

  /** The step a get takes: allocate, else take the reserve, else be refused. */
  ghost function GetStep(h: Host, dev: nat, now: nat, a: Slabs): (e: Event)
    requires a.Offers(h.mem, h.senses, h.prots)
    ensures Enabled(h, e)
  {
    if !a.Fails(h.dix) then Alloc(a.c, a.s, a.p, dev, now) else if h.free != [] then Pop(dev, now) else Refuse
  }

  ghost function GetResult(h: Host, a: Slabs): Option<nat> {
    if !a.Fails(h.dix) then Some(a.c) else if h.free != [] then Some(h.free[0]) else None
  }

  /** A get is refused only while another command is out; otherwise its command is new to the callers. */
  lemma GetDelivers(h: Host, dev: nat, now: nat, a: Slabs)
    requires h.Inv() && a.Offers(h.mem, h.senses, h.prots)
    ensures Apply(h, GetStep(h, dev, now, a)).Inv()
    ensures GetResult(h, a) == None <==> (a.cmdFails || a.senseFails || (h.dix && a.protFails)) && h.free == []
    ensures GetResult(h, a) == None ==> h.held != {} && Apply(h, GetStep(h, dev, now, a)) == h
    ensures GetResult(h, a).Some? ==>
      var g, c := Apply(h, GetStep(h, dev, now, a)), GetResult(h, a).value;
      && c !in h.held && g.held == h.held + {c} && c in g.mem && g.mem[c].device == Some(dev) && g.mem[c].rest == now
      && (if a.cmdFails || a.senseFails || (h.dix && a.protFails) then h.free == [c] && g.mem.Keys == h.mem.Keys else c == a.c && c !in h.mem && g.free == h.free)
      && forall x :: x in h.mem && x != c ==> x in g.mem && g.mem[x] == h.mem[x]
  {
    StepKeepsInv(h, GetStep(h, dev, now, a));
  }

  class ScsiHost {
    const dix: bool
    var mem: map<nat, Cmd>
    var senses: map<nat, nat>
    var prots: map<nat, nat>
    var freeList: seq<nat>
    var pool: bool
    ghost var held: set<nat>
    ghost var closing: set<nat>

    ghost function Abs(): Host
      reads this
    {
      Host(dix, mem, senses, prots, freeList, held, closing)
    }

    constructor (protection: bool)
      ensures dix == protection && !pool && mem == map[] && senses == map[] && prots == map[]
      ensures held == {} && closing == {} && freeList == []
    {
      dix, pool := protection, false;
      mem, senses, prots := map[], map[], map[];
      freeList, held, closing := [], {}, {};
    }

    /** scsi_pool_alloc_command. */
    method PoolAlloc(a: Slabs) returns (r: Option<nat>)
      requires a.Offers(mem, senses, prots)
      modifies this`mem, this`senses
      ensures a.cmdFails || a.senseFails ==> r == None && mem == old(mem) && senses == old(senses)
      ensures !a.cmdFails && !a.senseFails ==>
        r == Some(a.c) && mem == old(mem)[a.c := Cmd(a.s, None, None, 0)] && senses == old(senses)[a.s := a.c]
    {
      if a.cmdFails {
        return None;
      }
      mem := mem[a.c := Cmd(0, None, None, 0)];
      if a.senseFails {
        mem := mem - {a.c};
        return None;
      }
      senses := senses[a.s := a.c];
      mem := mem[a.c := mem[a.c].(sense := a.s)];
      r := Some(a.c);
    }

    /** scsi_pool_free_command. */
    method PoolFree(c: nat)
      requires c in mem
      modifies this`mem, this`senses, this`prots
      ensures mem == old(mem) - {c} && senses == old(senses) - {old(mem)[c].sense}
      ensures prots ==
        if old(mem)[c].prot.Some? then old(prots) - {old(mem)[c].prot.value} else old(prots)
    {
      if mem[c].prot.Some? {
        prots := prots - {mem[c].prot.value};
      }
      senses := senses - {mem[c].sense};
      mem := mem - {c};
    }

    /** scsi_host_alloc_command: all or nothing. */
    method HostAlloc(a: Slabs) returns (r: Option<nat>)
      requires a.Offers(mem, senses, prots)
      modifies this`mem, this`senses, this`prots
      ensures a.Fails(dix) ==> r == None && mem == old(mem) && senses == old(senses) && prots == old(prots)
      ensures !a.Fails(dix) ==>
        && r == Some(a.c) && mem == old(mem)[a.c := Fresh(dix, a.s, a.p)] && senses == old(senses)[a.s := a.c]
        && prots == if dix then old(prots)[a.p := a.c] else old(prots)
    {
      r := PoolAlloc(a);
      if r == None {
        return;
      }
      if dix {
        if a.protFails {
          PoolFree(a.c);
          return None;
        }
        prots := prots[a.p := a.c];
        mem := mem[a.c := mem[a.c].(prot := Some(a.p))];
      }
    }

    /** __scsi_get_command: the reserve, wiped except for its two buffers, when allocation fails. */
    method GetUnlinked(a: Slabs) returns (r: Option<nat>)
      requires Abs().Inv() && a.Offers(mem, senses, prots)
      modifies this`mem, this`senses, this`prots, this`freeList
      ensures !a.Fails(dix) ==>
        && r == Some(a.c) && freeList == old(freeList)
        && mem == old(mem)[a.c := Fresh(dix, a.s, a.p)] && senses == old(senses)[a.s := a.c]
        && prots == if dix then old(prots)[a.p := a.c] else old(prots)
      ensures a.Fails(dix) ==> senses == old(senses) && prots == old(prots)
      ensures a.Fails(dix) && old(freeList) == [] ==> r == None && mem == old(mem) && freeList == []
      ensures a.Fails(dix) && old(freeList) != [] ==>
        var c := old(freeList)[0];
        && r == Some(c) && freeList == old(freeList)[1..] && c in old(mem)
        && mem == old(mem)[c := Cmd(old(mem)[c].sense, old(mem)[c].prot, None, 0)]
    {
      r := HostAlloc(a);
      if r == None {
        if freeList != [] {
          var c := freeList[0];
          freeList := freeList[1..];
          var buf, prot := mem[c].sense, mem[c].prot;
          mem := mem[c := Cmd(0, None, None, 0)];
          mem := mem[c := mem[c].(sense := buf)];
          mem := mem[c := mem[c].(prot := prot)];
          r := Some(c);
        }
      }
    }

    /** The command joins its device's list. */
    method Link(c: nat, dev: nat, now: nat)
      requires c in mem
      modifies this`mem, this`held
      ensures mem == old(mem)[c := Cmd(old(mem)[c].sense, old(mem)[c].prot, Some(dev), now)]
      ensures held == old(held) + {c}
    {
      mem := mem[c := mem[c].(device := Some(dev))];
      held := held + {c};
      mem := mem[c := mem[c].(rest := now)];
    }

    /** scsi_get_command: exactly one step of the protocol. */
    method GetCommand(dev: nat, deviceGone: bool, now: nat, a: Slabs) returns (r: Option<nat>)
      requires Abs().Inv() && a.Offers(mem, senses, prots)
      modifies this
      ensures deviceGone ==> r == None && Abs() == old(Abs())
      ensures !deviceGone ==> Abs() == Apply(old(Abs()), GetStep(old(Abs()), dev, now, a))
      ensures !deviceGone ==> r == GetResult(old(Abs()), a)
      ensures r == None <==> deviceGone || ((a.cmdFails || a.senseFails || (dix && a.protFails)) && old(freeList) == [])
    {
      if deviceGone {
        return None;
      }
      r := GetUnlinked(a);
      if r != None {
        Link(r.value, dev, now);
      }
    }

    /** scsi_put_command, both halves: back into an empty reserve, or freed with its buffers. */
    method PutCommand(c: nat)
      requires Abs().Inv() && c in held
      modifies this
      ensures old(freeList) == [] ==> Abs() == Apply(old(Abs()), Put(c))
      ensures old(freeList) != [] ==> Abs() == Apply(Apply(old(Abs()), Put(c)), Release(c))
    {
      held := held - {c};
      if freeList == [] {
        freeList := [c];
        return;
      }
      closing := closing + {c};
      PoolFree(c);
      closing := closing - {c};
    }

    /** scsi_setup_command_freelist. */
    method SetupFreelist(poolFails: bool, a: Slabs) returns (ret: int)
      requires mem == map[] && senses == map[] && prots == map[] && held == {} && closing == {}
      modifies this
      ensures ret == if poolFails || a.Fails(dix) then -ENOMEM else 0
      ensures ret == 0 ==> pool && Abs() == Setup(dix, a.c, a.s, a.p) && Abs().Inv()
      ensures ret != 0 ==> !pool && mem == map[] && senses == map[] && prots == map[]
    {
      freeList := [];
      pool := !poolFails;
      if !pool {
        return -ENOMEM;
      }
      var r := HostAlloc(a);
      if r == None {
        pool := false;
        return -ENOMEM;
      }
      freeList := [r.value] + freeList;
      SetupInv(dix, a.c, a.s, a.p);
      ret := 0;
    }

    /** scsi_destroy_command_freelist: with every command returned, all memory goes back. */
    method DestroyFreelist()
      requires pool ==> Abs().Inv()
      modifies this
      ensures !pool
      ensures old(pool) ==> freeList == []
      ensures old(pool) && held == {} && closing == {} ==> mem == map[] && senses == map[] && prots == map[]
      ensures held == old(held) && closing == old(closing)
      ensures !old(pool) ==> Abs() == old(Abs())
    {
      if !pool {
        return;
      }
      if held == {} && closing == {} {
        IdleHost(Abs());
      }
      while freeList != []
        invariant |freeList| <= 1 && (freeList != [] ==> Abs() == old(Abs()))
        invariant held == old(held) && closing == old(closing)
        invariant freeList == [] && held == {} && closing == {} ==> mem == map[] && senses == map[] && prots == map[]
        decreases |freeList|
      {
        var c := freeList[0];
        freeList := freeList[1..];
        PoolFree(c);
      }
      pool := false;
    }
  }

  lemma StepKeepsInv(h: Host, e: Event)
    requires h.Inv() && Enabled(h, e)
    ensures Apply(h, e).Inv()
  {
    SenseStep(h, e);
    ProtStep(h, e);
    PlacesStep(h, e);
  }
}
