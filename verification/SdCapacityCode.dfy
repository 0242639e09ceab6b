/** The functions of drivers/scsi/sd.c that update struct scsi_disk, proved against SdCapacity. */
module SdCapacityCode {
  import opened Common
  import opened SdCapacity

  /** The sense data the retry loops look at. */
  datatype Sense = NoSense | MediumMissing | IllegalCdb | BusReset | NotReady | OtherSense

  datatype Reply = Reply(error: bool, sense: Sense, lba: nat, len: nat, badProtection: bool)

  predicate Retried(sixteen: bool, r: Reply) {
    r.error && !r.sense.MediumMissing? && !(sixteen && r.sense.IllegalCdb?)
  }

  function Meaning(sixteen: bool, r: Reply): Answer {
    if r.sense.MediumMissing? then NoMedium
    else if sixteen && r.error && r.sense.IllegalCdb? then Refused
    else if r.error then Failed(r.sense.NotReady?)
    else Reported(r.lba, r.len, r.badProtection)
  }

  /** What the retry loop of read_capacity_16 or read_capacity_10 makes of the replies from number n on. */
  function Asked(sixteen: bool, replies: nat -> Reply, n: nat, retries: nat, resets: nat): Answer
    requires retries >= 1 && resets >= 1
    decreases retries + resets
  {
    var r := replies(n);
    if !Retried(sixteen, r) then Meaning(sixteen, r)
    else if r.sense.BusReset? && resets > 1 then Asked(sixteen, replies, n + 1, retries, resets - 1)
    else if retries == 1 then Meaning(sixteen, r)
    else Asked(sixteen, replies, n + 1, retries - 1, resets)
  }

  const RETRIES := 3
  const READ_CAPACITY_RETRIES_ON_RESET := 10

  function Answered(sixteen: bool, replies: nat -> Reply): Answer {
    Asked(sixteen, replies, 0, RETRIES, READ_CAPACITY_RETRIES_ON_RESET)
  }

  lemma AskedStep(sixteen: bool, replies: nat -> Reply, n: nat, retries: nat, resets: nat)
    requires retries >= 1 && resets >= 1
    ensures
      var r := replies(n);
      Asked(sixteen, replies, n, retries, resets) ==
        if !Retried(sixteen, r) then Meaning(sixteen, r)
        else if r.sense.BusReset? && resets > 1 then Asked(sixteen, replies, n + 1, retries, resets - 1)
        else if retries == 1 then Meaning(sixteen, r)
        else Asked(sixteen, replies, n + 1, retries - 1, resets)
  {
  }

  /** How many of the first n replies report a bus reset. */
  function Resets(replies: nat -> Reply, n: nat): nat {
    if n == 0 then 0 else Resets(replies, n - 1) + if replies(n - 1).sense.BusReset? then 1 else 0
  }

  lemma ResetsStep(replies: nat -> Reply, n: nat)
    ensures Resets(replies, 0) == 0
    ensures Resets(replies, n + 1) == Resets(replies, n) + if replies(n).sense.BusReset? then 1 else 0
  {
  }

  function Least(a: nat, b: nat): nat { if a < b then a else b }

  /**
   The loop itself: three tries, and one more for each of the first nine resets, so at most 12 commands;
   every one but the last is retried, and the last one decides.
   */
  method Ask(sixteen: bool, replies: nat -> Reply) returns (a: Answer, n: nat)
    ensures a == Answered(sixteen, replies)
    ensures 1 <= n <= 12 && a == Meaning(sixteen, replies(n - 1))
    ensures forall i :: 0 <= i < n - 1 ==> Retried(sixteen, replies(i))
    ensures Retried(sixteen, replies(n - 1)) ==> n == 3 + Least(9, Resets(replies, n))
    ensures
      var r := replies(n - 1);
      && (a.NoMedium? <==> r.sense.MediumMissing?) && (a.Refused? <==> sixteen && r.error && r.sense.IllegalCdb?)
      && (a.Failed? ==> r.error && a.notReady == r.sense.NotReady?)
      && (a.Reported? <==> !r.error && !r.sense.MediumMissing?) && (a.Reported? ==> a == Reported(r.lba, r.len, r.badProtection))
  {
    hide Asked, Resets;
    ResetsStep(replies, 0);
    var retries, resets := RETRIES, READ_CAPACITY_RETRIES_ON_RESET;
    n := 0;
    while true
      invariant n == (3 - retries) + (10 - resets) && 1 <= retries <= 3 && 1 <= resets <= 10
      invariant 10 - resets == Least(9, Resets(replies, n))
      invariant forall i :: 0 <= i < n ==> Retried(sixteen, replies(i))
      invariant Answered(sixteen, replies) == Asked(sixteen, replies, n, retries, resets)
      decreases retries + resets
    {
      AskedStep(sixteen, replies, n, retries, resets);
      ResetsStep(replies, n);
      var r := replies(n);
      n := n + 1;
      if r.sense.MediumMissing? {
        return NoMedium, n;
      }
      if sixteen && r.error && r.sense.IllegalCdb? {
        return Refused, n;
      }
      if r.error && r.sense.BusReset? && resets > 1 {
        resets := resets - 1;
      } else {
        if !r.error || retries == 1 {
          a := Meaning(sixteen, r);
          return;
        }
        retries := retries - 1;
      }
    }
  }

  class ScsiDisk {
    const cfg: Config
    var capacity: nat
    var published: nat
    var sectorSize: int
    var use16: bool
    var first: bool
    var media: bool

    ghost function Abs(): Disk
      reads this
    {
      Disk(capacity, published, sectorSize, use16, first, media)
    }

    /** The defaults of sd_probe_async. */
    constructor (c: Config)
      ensures cfg == c && Abs() == PROBED
    {
      cfg := c;
      capacity, published, sectorSize := 0, 0, 512;
      use16, first, media := false, true, true;
    }

    method SetMediaNotPresent()
      modifies this`media, this`capacity
      ensures Abs() == MediaGone(cfg, old(Abs()))
    {
      if cfg.removable {
        media := false;
        capacity := 0;
      }
    }

    method ReadCapacityError(notReady: bool)
      modifies this`media, this`capacity
      ensures Abs() == Broken(cfg, old(Abs()), notReady)
    {
      if notReady {
        SetMediaNotPresent();
      }
      capacity := 0;
    }

    method ReadCapacity16(replies: nat -> Reply) returns (ret: int)
      modifies this`media, this`capacity
      ensures (Abs(), ret) == Read16(cfg, old(Abs()), Answered(true, replies))
    {
      hide Answered;
      if cfg.noRc16 {
        return -EINVAL;
      }
      var a, n := Ask(true, replies);
      match a {
        case NoMedium =>
          SetMediaNotPresent();
          ret := -ENODEV;
        case Refused =>
          ret := -EINVAL;
        case Failed(notReady) =>
          ReadCapacityError(notReady);
          ret := -EINVAL;
        case Reported(lba, len, bad) =>
          if bad {
            capacity := 0;
            return -ENODEV;
          }
          capacity := Wrap(lba + 1, U64);
          ret := Signed32(len);
      }
    }

    method ReadCapacity10(replies: nat -> Reply) returns (ret: int)
      modifies this`media, this`capacity
      ensures (Abs(), ret) == Read10(cfg, old(Abs()), Answered(false, replies))
    {
      hide Answered;
      var a, n := Ask(false, replies);
      match a {
        case NoMedium =>
          SetMediaNotPresent();
          ret := -ENODEV;
        case Refused =>
          assert false;
        case Failed(notReady) =>
          ReadCapacityError(notReady);
          ret := -EINVAL;
        case Reported(lba, len, bad) =>
          if cfg.noRc16 && lba == MAX32 {
            capacity := 0;
            return Signed32(len);
          }
          capacity := Wrap(lba + 1, U64);
          ret := Signed32(len);
      }
    }

    method AdjustCapacity()
      modifies this`capacity
      ensures Abs() == Adjust(cfg, old(Abs()))
    {
      if cfg.fix || (cfg.guess && capacity % 2 == 1) {
        capacity := Wrap(capacity + U64 - 1, U64);
      }
    }

    /** sd_read_capacity up to the label got_data; done means it returned. */
    method Discover(rc16: nat -> Reply, rc10: nat -> Reply) returns (done: bool, size: int)
      modifies this`media, this`capacity
      ensures
        var r := Read(cfg, old(Abs()), Answered(true, rc16), Answered(false, rc10));
        Abs() == r.d && (done <==> r.GaveUp?) && (!done ==> size == r.len)
    {
      hide Answered;
      if cfg.rc16First {
        size := ReadCapacity16(rc16);
        if size == -EOVERFLOW {
          return false, size;
        }
        if size == -ENODEV {
          return true, size;
        }
        if size < 0 {
          size := ReadCapacity10(rc10);
        }
        if size < 0 {
          return true, size;
        }
      } else {
        size := ReadCapacity10(rc10);
        if size == -EOVERFLOW {
          return false, size;
        }
        if size < 0 {
          return true, size;
        }
        if capacity > MAX32 {
          var oldSize := size;
          size := ReadCapacity16(rc16);
          if size < 0 {
            capacity := 1 + MAX32;
            return false, oldSize;
          }
        }
      }
      AdjustCapacity();
      done := false;
    }

    method RescaleCapacity(size: int)
      modifies this`capacity
      ensures capacity == Rescale(old(capacity), size)
    {
      if size == 4096 {
        capacity := Wrap(capacity * 8, U64);
      } else if size == 2048 {
        capacity := Wrap(capacity * 4, U64);
      } else if size == 1024 {
        capacity := Wrap(capacity * 2, U64);
      } else if size == 256 {
        capacity := capacity / 2;
      }
    }

    /** sd_read_capacity from got_data on. */
    method GotData(size: int, oldCapacity: nat)
      modifies this`capacity, this`use16, this`sectorSize
      ensures Abs() == Finish(cfg, oldCapacity, old(Abs()), size)
      ensures
        var raw := Raw(old(Abs()), size);
        if (first || oldCapacity != raw) && raw > cfg.reserved then capacity + cfg.reserved == raw else capacity == raw
    {
      var s := size;
      if s == 0 {
        s := 512;
      }
      if !Supported(s) {
        capacity := 0;
        s := 512;
      }
      use16 := capacity > MAX32;
      RescaleCapacity(s);
      if first || oldCapacity != capacity {
        if cfg.reserved != 0 && capacity > cfg.reserved {
          capacity := capacity - cfg.reserved;
        }
      }
      sectorSize := s;
    }

    /** sd_revalidate_disk, the capacity part; gone is what spinning up found. */
    method Revalidate(skip: bool, gone: bool, rc16: nat -> Reply, rc10: nat -> Reply)
      modifies this
      ensures Abs() == Step(cfg, old(Abs()), Revalidation(skip, gone, rc16, rc10))
      ensures Keeps(cfg, old(Abs()), Revalidation(skip, gone, rc16, rc10), Abs())
    {
      hide Answered, Keeps;
      ghost var d, e := Abs(), Revalidation(skip, gone, rc16, rc10);
      AllKept(cfg, d, e);
      if skip {
        return;
      }
      if gone {
        SetMediaNotPresent();
      }
      if media {
        var oldCapacity := capacity;
        var done, size := Discover(rc16, rc10);
        if !done {
          GotData(size, oldCapacity);
        }
      }
      first := false;
      published := capacity;
    }
  }

  ghost function Revalidation(skip: bool, gone: bool, rc16: nat -> Reply, rc10: nat -> Reply): Event {
    if skip then Skip else Scan(gone, Answered(true, rc16), Answered(false, rc10))
  }

  /**
   What every revalidation without garbled lengths keeps: addresses that fit the commands in use, whole
   device blocks, and, while the raw size stays, the published size, which a completed scan sets.
   */
  ghost predicate Keeps(cfg: Config, d: Disk, e: Event, r: Disk) {
    !Garbled(e) ==>
      && (Addressable(d) ==> Addressable(r))
      && (Formatted(d) && cfg.reserved % 8 == 0 ==> Formatted(r))
      && forall raw: nat :: Steady(cfg, raw, d) && Faithful(cfg, raw, d, e) ==>
           && Steady(cfg, raw, r)
           && (Completes(cfg, d, e) ==> if raw > cfg.reserved then r.published + cfg.reserved == raw else r.published == raw)
  }

  lemma AllKept(cfg: Config, d: Disk, e: Event)
    ensures Keeps(cfg, d, e, Step(cfg, d, e))
  {
    hide Step, Addressable, Formatted, Steady, Faithful, Completes;
    if !Garbled(e) {
      if Addressable(d) {
        AddressableStep(cfg, d, e);
      }
      if Formatted(d) && cfg.reserved % 8 == 0 {
        FormattedStep(cfg, d, e);
      }
      forall raw: nat | Steady(cfg, raw, d) && Faithful(cfg, raw, d, e)
        ensures Steady(cfg, raw, Step(cfg, d, e))
        ensures Completes(cfg, d, e) ==>
          var p := Step(cfg, d, e).published;
          if raw > cfg.reserved then p + cfg.reserved == raw else p == raw
      {
        FaithfulStep(cfg, raw, d, e);
      }
    }
  }
}
