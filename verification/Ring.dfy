/**
 The ring of drivers/scsi/swap/ring.h. Its history of pushes is a ghost: at every moment
 the ring holds the last min(pushes, capacity) items, and Peek counts from the oldest.
 */
module Ring {

  /** The last n items of a history. */
  function LastOf<T>(s: seq<T>, n: nat): (r: seq<T>)
    ensures |r| == if |s| <= n then |s| else n
  {
    if |s| <= n then s else s[|s| - n..]
  }

  /** num and next as any ring shows them. */
  predicate Shape(num: int, next: int, cap: nat) { 0 <= num <= cap && 0 <= next < cap }

  function Slot(j: int, cap: nat): int { if j < cap then j else j - cap }

  /** The occupied slots, oldest first: the num slots before next, around the end. */
  function Window<T>(buf: seq<T>, num: int, next: int): (r: seq<T>)
    ensures Shape(num, next, |buf|) ==> |r| == num
  {
    if Shape(num, next, |buf|) then
      seq(num, (i: nat) requires Shape(num, next, |buf|) && i < num => buf[Slot(next - num + |buf| + i, |buf|)])
    else []
  }

  lemma LastOfWindow<T>(buf: seq<T>, num: int, next: int)
    ensures Shape(num, next, |buf|) ==> LastOf(Window(buf, num, next), |buf|) == Window(buf, num, next)
  {
  }

  lemma PushWhileFilling<T>(buf: seq<T>, num: int, next: int, x: T, pushed: seq<T>)
    requires Shape(num, next, |buf|) && num < |buf| && Window(buf, num, next) == LastOf(pushed, |buf|)
    ensures Window(buf[next := x], num + 1, if next + 1 >= |buf| then 0 else next + 1) == LastOf(pushed + [x], |buf|)
  {
    var next' := if next + 1 >= |buf| then 0 else next + 1;
    var now := Window(buf[next := x], num + 1, next');
    forall i | 0 <= i < num + 1 ensures now[i] == (Window(buf, num, next) + [x])[i] {
      var j := next - num + |buf| + i;
      assert Slot(next' - (num + 1) + |buf| + i, |buf|) == Slot(j, |buf|);
      assert now[i] == buf[next := x][Slot(j, |buf|)] && (i < num ==> Slot(j, |buf|) != next);
    }
  }

  lemma PushWhenFull<T>(buf: seq<T>, next: int, x: T, pushed: seq<T>)
    requires 0 <= next < |buf| && Window(buf, |buf|, next) == LastOf(pushed, |buf|)
    ensures Window(buf[next := x], |buf|, if next + 1 >= |buf| then 0 else next + 1) == LastOf(pushed + [x], |buf|)
  {
    var next' := if next + 1 >= |buf| then 0 else next + 1;
    var now, was := Window(buf[next := x], |buf|, next'), Window(buf, |buf|, next);
    assert LastOf(pushed + [x], |buf|) == was[1..] + [x];
    forall i | 0 <= i < |buf| ensures now[i] == (was[1..] + [x])[i] {
      assert now[i] == buf[next := x][Slot(next' + i, |buf|)];
      assert i + 1 < |buf| ==> was[i + 1] == buf[Slot(next + i + 1, |buf|)];
    }
  }

  /** (pop index + i) mod cap is the slot of the i-th oldest item. */
  lemma PeekSlot<T>(buf: seq<T>, num: int, next: int, i: int)
    requires Shape(num, next, |buf|) && 0 <= i < num
    ensures
      var slot := PeekIndex(num, next, |buf|, i);
      0 <= slot < |buf| && buf[slot] == Window(buf, num, next)[i]
  {
    var cap := |buf|;
    Wraps(next - num + cap, cap);
    Wraps(Slot(next - num + cap, cap) + i, cap);
    assert PeekIndex(num, next, cap, i) == Slot(next - num + cap + i, cap);
  }

  /** The remainder of C: it takes the sign of the dividend. */
  function Rem(a: int, b: int): int
    requires b > 0
  {
    if a >= 0 then a % b else -(-a % b)
  }

  /** cspring_get_pop_index. */
  function PopIndex(num: int, next: int, cap: nat): int
    requires cap > 0
  {
    Rem(next - num + cap, cap)
  }

  /** The slot cspring_peek computes from it. */
  function PeekIndex(num: int, next: int, cap: nat, i: int): int
    requires cap > 0
  {
    Rem(PopIndex(num, next, cap) + i, cap)
  }

  lemma Within(a: int, b: int)
    requires 0 <= a < b
    ensures a % b == a
  {
  }

  /** A peek stays inside the buffer, whatever the two counters are, exactly under this condition. */
  lemma PeekInside(num: int, next: int, cap: nat, i: int)
    requires cap > 0 && i >= 0
    ensures 0 <= PeekIndex(num, next, cap, i) < cap <==> num <= next + cap || i >= (num - next - cap) % cap
  {
    if num > next + cap {
      var m := (num - next - cap) % cap;
      assert PopIndex(num, next, cap) == -m;
      if i < m {
        Within(m - i, cap);
      }
    }
  }

  predicate PeeksInside(num: int, next: int, cap: nat)
    requires cap > 0
  {
    forall i :: 0 <= i < num ==> 0 <= PeekIndex(num, next, cap, i) < cap
  }

  /** The counters that keep the oldest item inside the buffer. */
  predicate Reachable(num: int, next: int, cap: nat)
    requires cap > 0
  {
    num <= next + cap || (num - next - cap) % cap == 0
  }

  /** So every item a ring claims to hold can be peeked at exactly when the oldest one can. */
  lemma AllPeeksInside(num: int, next: int, cap: nat)
    requires cap > 0 && num > 0
    ensures PeeksInside(num, next, cap) <==> Reachable(num, next, cap)
  {
    PeekInside(num, next, cap, 0);
    forall i | 0 <= i < num
      ensures 0 <= PeekIndex(num, next, cap, i) < cap <==> num <= next + cap || i >= (num - next - cap) % cap
    {
      PeekInside(num, next, cap, i);
    }
    assert 0 <= PeekIndex(num, next, cap, 0) < cap <==> num <= next + cap || (num - next - cap) % cap == 0;
  }

  lemma Wraps(k: int, cap: int)
    requires 0 <= k < 2 * cap
    ensures k % cap == if k < cap then k else k - cap
    ensures k == 0 ==> cap % cap == 0
  {
    if k >= cap { assert k == cap + (k - cap); }
  }

  class Ring<T(0)> {
    const buffer: array<T>
    var num: int
    var next: int
    ghost var pushed: seq<T>

    ghost predicate Valid()
      reads this, buffer
    {
      && Shape(num, next, buffer.Length)
      && Window(buffer[..], num, next) == LastOf(pushed, buffer.Length)
    }

    /** cspring_create, once both allocations have succeeded. */
    constructor (cap: nat)
      requires cap > 0
      ensures fresh(buffer) && buffer.Length == cap && Valid() && pushed == []
      ensures num == next == 0
    {
      buffer := new T[cap];
      num, next, pushed := 0, 0, [];
    }

    /** cspring_update. */
    method Update()
      requires buffer.Length > 0
      modifies this`num, this`next
      ensures num == if old(num) > buffer.Length then buffer.Length else old(num)
      ensures next == if old(next) >= buffer.Length || num <= 0 then 0 else old(next)
    {
      if num > buffer.Length {
        num := buffer.Length;
      }
      if next >= buffer.Length {
        next := 0;
      }
      if num <= 0 {
        next := 0;
      }
    }

    /**
     cspring_push: slot is where the item goes, whatever the counters. It goes into the buffer if and only if
     next is below the capacity; after that the counters are those of a ring again.
     */
    method Push(x: T) returns (slot: int, inside: bool)
      requires buffer.Length > 0 && num >= 0 && next >= 0
      modifies this, buffer
      ensures slot == old(next) && (inside <==> old(next) < buffer.Length)
      ensures buffer[..] == if inside then old(buffer[..])[slot := x] else old(buffer[..])
      ensures Valid() && num == (if old(num) < buffer.Length then old(num) + 1 else buffer.Length)
      ensures old(Valid()) ==> inside && pushed == old(pushed) + [x]
    {
      ghost var valid := Valid();
      if valid {
        if num < buffer.Length {
          PushWhileFilling(buffer[..], num, next, x, pushed);
        } else {
          PushWhenFull(buffer[..], next, x, pushed);
        }
      }
      slot := next;
      inside := slot < buffer.Length;
      if inside {
        buffer[slot] := x;
      }
      next := next + 1;
      num := num + 1;
      Update();
      pushed := if valid then pushed + [x] else Window(buffer[..], num, next);
    }

    /** cspring_peek. */
    method Peek(index: int) returns (x: T)
      requires Valid() && 0 <= index
      ensures index < num ==> |LastOf(pushed, buffer.Length)| == num && x == LastOf(pushed, buffer.Length)[index]
    {
      var slot := PeekIndex(num, next, buffer.Length, index);
      PeekInside(num, next, buffer.Length, index);
      if index < num {
        PeekSlot(buffer[..], num, next, index);
      }
      x := buffer[slot];
    }
  }
}
