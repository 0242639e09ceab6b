/**
 generic_make_request (block/blk-core.c): a worklist kept per process stands in for recursion
 through stacked drivers.  A bio is given together with the bios that its driver's
 make_request_fn submits in turn; a bio that the swap hook or generic_make_request_checks
 keeps is not handed on.
 */
module MakeRequest {
  import opened Common

  /** What becomes of a submitted bio before it reaches a driver. */
  datatype Fate =
    | Accepted
    | Swapped          // bio_has_bad_block, and swap_bio took it
    | EndedBadBlock    // bio_has_bad_block, and swap_bio declined
    | EndedByChecks    // ended or throttled by generic_make_request_checks

  datatype Bio = Bio(id: nat, fate: Fate, resubmits: seq<Bio>)

  function Accept(bs: seq<Bio>): seq<Bio> {
    if bs == [] then [] else (if bs[0].fate == Accepted then [bs[0]] else []) + Accept(bs[1..])
  }

  function Size(b: Bio): nat
    decreases b, 1
  {
    1 + Sizes(b.resubmits)
  }

  function Sizes(bs: seq<Bio>): nat
    decreases bs, 0
  {
    if bs == [] then 0 else Size(bs[0]) + Sizes(bs[1..])
  }

  lemma {:induction false} SizesConcat(a: seq<Bio>, b: seq<Bio>)
    ensures Sizes(a + b) == Sizes(a) + Sizes(b)
  {
    if a == [] {
      assert a + b == b;
    } else {
      SizesConcat(a[1..], b);
      assert (a + b)[1..] == a[1..] + b;
    }
  }

  lemma {:induction false} AcceptShrinks(bs: seq<Bio>)
    ensures Sizes(Accept(bs)) <= Sizes(bs)
  {
    if bs != [] {
      AcceptShrinks(bs[1..]);
      if bs[0].fate == Accepted {
        assert Accept(bs)[1..] == Accept(bs[1..]);
      } else {
        assert [] + Accept(bs[1..]) == Accept(bs[1..]);
      }
    }
  }

  lemma NextIsSmaller(q: seq<Bio>)
    requires q != []
    ensures Sizes(q[1..] + Accept(q[0].resubmits)) < Sizes(q)
  {
    SizesConcat(q[1..], Accept(q[0].resubmits));
    AcceptShrinks(q[0].resubmits);
  }

  /** The order in which a worklist serves its bios: first in, first out. */
  function Work(q: seq<Bio>): seq<Bio>
    decreases Sizes(q)
  {
    if q == [] then []
    else
      NextIsSmaller(q);
      [q[0]] + Work(q[1..] + Accept(q[0].resubmits))
  }

  /** Handing over the first bio moves it from what is to come to what was. */
  lemma Served(handed: seq<Bio>, q: seq<Bio>)
    requires q != []
    ensures
      var next := q[1..] + Accept(q[0].resubmits);
      && handed + Work(q) == (handed + [q[0]]) + Work(next)
      && (next == [] ==> handed + Work(q) == handed + [q[0]])
  {
    WorkFirst(q);
    Associative(handed, [q[0]], Work(q[1..] + Accept(q[0].resubmits)));
  }

  lemma WorkFirst(q: seq<Bio>)
    requires q != []
    ensures Work(q) == [q[0]] + Work(q[1..] + Accept(q[0].resubmits))
  {
  }

  // ---- The submitting process ----------------------------------------------------------

  /** The part of struct task_struct that matters, and a record of what drivers saw. */
  class Task {
    var bioList: Option<seq<Bio>>  // current->bio_list
    var handed: seq<Bio>           // calls of make_request_fn so far
    var nested: nat                // make_request_fn calls in progress
    var deepest: nat               // the most there ever were at once

    /** Outside generic_make_request, or inside a driver that it called. */
    predicate Ready()
      reads this
    {
      nested == (if bioList.None? then 0 else 1) && deepest <= 1
    }

    method GenericMakeRequest(b: Bio)
      requires Ready()
      modifies this
      ensures Ready() && bioList.Some? == old(bioList.Some?)
      ensures old(bioList.Some?) ==>
                handed == old(handed) && bioList.value == old(bioList.value) + (if b.fate == Accepted then [b] else [])
      ensures old(bioList.None?) ==> handed == old(handed) + (if b.fate == Accepted then Work([b]) else [])
      decreases if bioList.None? then 2 else 0
    {
      if b.fate != Accepted {
        return;
      }
      if bioList.Some? {
        bioList := Some(bioList.value + [b]);
        return;
      }
      hide Work, Accept, Sizes, Size;
      bioList := Some([]);
      var bio := b;
      ghost var first := handed;
      while true
        invariant bioList.Some? && nested == 0 && deepest <= 1
        invariant handed + Work([bio] + bioList.value) == first + Work([b])
        decreases Sizes([bio] + bioList.value)
      {
        ghost var q := [bio] + bioList.value;
        NextIsSmaller(q);
        Served(handed, q);
        MakeRequestFn(bio);
        assert bioList.value == q[1..] + Accept(q[0].resubmits);
        if bioList.value == [] {
          break;
        }
        bio, bioList := bioList.value[0], Some(bioList.value[1..]);
        assert [bio] + bioList.value == q[1..] + Accept(q[0].resubmits);
      }
      bioList := None;
    }

    /** A driver's make_request_fn: it submits further bios, then returns. */
    method MakeRequestFn(b: Bio)
      requires bioList.Some? && nested == 0 && deepest <= 1
      modifies this
      ensures bioList == Some(old(bioList.value) + Accept(b.resubmits)) && nested == 0 && deepest <= 1
      ensures handed == old(handed) + [b]
      decreases 1
    {
      handed := handed + [b];
      nested := nested + 1;
      if nested > deepest {
        deepest := nested;
      }
      ghost var was := bioList.value;
      assert was + Accept(b.resubmits[..0]) == was;
      for i := 0 to |b.resubmits|
        invariant bioList.Some? && nested == 1 && deepest <= 1 && handed == old(handed) + [b]
        invariant bioList.value == was + Accept(b.resubmits[..i])
      {
        AcceptSnoc(b.resubmits, i);
        GenericMakeRequest(b.resubmits[i]);
      }
      assert b.resubmits[..|b.resubmits|] == b.resubmits;
      nested := nested - 1;
    }
  }

  lemma {:induction false} AcceptConcat(a: seq<Bio>, b: seq<Bio>)
    ensures Accept(a + b) == Accept(a) + Accept(b)
  {
    if a == [] {
      assert a + b == b;
    } else {
      AcceptConcat(a[1..], b);
      AcceptFirst(a, b);
    }
  }

  lemma AcceptFirst(a: seq<Bio>, b: seq<Bio>)
    requires a != [] && Accept(a[1..] + b) == Accept(a[1..]) + Accept(b)
    ensures Accept(a + b) == Accept(a) + Accept(b)
  {
    var first := if a[0].fate == Accepted then [a[0]] else [];
    assert (a + b)[0] == a[0] && (a + b)[1..] == a[1..] + b;
    Associative(first, Accept(a[1..]), Accept(b));
  }

  lemma Associative(x: seq<Bio>, y: seq<Bio>, z: seq<Bio>)
    ensures (x + y) + z == x + (y + z)
  {
  }

  lemma AcceptSnoc(bs: seq<Bio>, i: nat)
    requires i < |bs|
    ensures Accept(bs[..i + 1]) == Accept(bs[..i]) + (if bs[i].fate == Accepted then [bs[i]] else [])
  {
    AcceptConcat(bs[..i], [bs[i]]);
    assert bs[..i] + [bs[i]] == bs[..i + 1];
    assert [bs[i]][1..] == [];
  }

  // ---- The worklist is a breadth-first walk that meets what recursion would meet --------

  /** All bios that the drivers of a whole level submit and that are accepted. */
  function NextLevel(level: seq<Bio>): seq<Bio> {
    if level == [] then [] else Accept(level[0].resubmits) + NextLevel(level[1..])
  }

  lemma {:induction false} NextLevelIsSmaller(level: seq<Bio>)
    ensures Sizes(NextLevel(level)) + |level| <= Sizes(level)
  {
    if level != [] {
      NextLevelIsSmaller(level[1..]);
      AcceptShrinks(level[0].resubmits);
      SizesConcat(Accept(level[0].resubmits), NextLevel(level[1..]));
    }
  }

  /** Breadth first: one level after the other. */
  function LevelOrder(level: seq<Bio>): seq<Bio>
    decreases Sizes(level)
  {
    if level == [] then []
    else
      NextLevelIsSmaller(level);
      level + LevelOrder(NextLevel(level))
  }

  lemma NextLevelFirst(q: seq<Bio>)
    requires q != []
    ensures NextLevel(q) == Accept(q[0].resubmits) + NextLevel(q[1..])
  {
  }

  /** Serving the rest q of a level while the next level r gathers behind it. */
  lemma {:induction false} WorkServesLevel(q: seq<Bio>, r: seq<Bio>)
    ensures Work(q + r) == q + Work(r + NextLevel(q))
    decreases |q|
  {
    if q == [] {
      assert q + r == r && r + [] == r;
    } else {
      var a := Accept(q[0].resubmits);
      WorkServesLevel(q[1..], r + a);
      ServeFirst(q, r, a);
    }
  }

  lemma ServeFirst(q: seq<Bio>, r: seq<Bio>, a: seq<Bio>)
    requires q != [] && a == Accept(q[0].resubmits)
    requires Work(q[1..] + (r + a)) == q[1..] + Work((r + a) + NextLevel(q[1..]))
    ensures Work(q + r) == q + Work(r + NextLevel(q))
  {
    hide Work, Accept, NextLevel, Sizes, Size;
    WorkFirst(q + r);
    NextLevelFirst(q);
    assert (q + r)[0] == q[0] && (q + r)[1..] + a == q[1..] + (r + a);
    Associative(r, a, NextLevel(q[1..]));
    var w := Work(r + NextLevel(q));
    assert [q[0]] + (q[1..] + w) == q + w;
  }

  lemma {:induction false} WorkIsBreadthFirst(level: seq<Bio>)
    ensures Work(level) == LevelOrder(level)
    decreases Sizes(level)
  {
    if level != [] {
      NextLevelIsSmaller(level);
      WorkServesLevel(level, []);
      assert level + [] == level && [] + NextLevel(level) == NextLevel(level);
      WorkIsBreadthFirst(NextLevel(level));
    }
  }

  lemma PartsAreSmaller(bs: seq<Bio>)
    requires bs != []
    ensures Sizes(Accept(bs[0].resubmits)) < Sizes(bs) && Sizes(bs[1..]) < Sizes(bs)
  {
    AcceptShrinks(bs[0].resubmits);
  }

  /** What plain recursion through make_request_fn would hand over, in its own order. */
  function Recursion(bs: seq<Bio>): seq<Bio>
    decreases Sizes(bs)
  {
    if bs == [] then []
    else
      PartsAreSmaller(bs);
      [bs[0]] + Recursion(Accept(bs[0].resubmits)) + Recursion(bs[1..])
  }

  lemma RecursionFirst(bs: seq<Bio>)
    requires bs != []
    ensures Recursion(bs) == [bs[0]] + Recursion(Accept(bs[0].resubmits)) + Recursion(bs[1..])
  {
  }

  lemma {:induction false} RecursionConcat(a: seq<Bio>, b: seq<Bio>)
    ensures Recursion(a + b) == Recursion(a) + Recursion(b)
    decreases |a|
  {
    if a == [] {
      assert a + b == b;
    } else {
      hide Recursion, Accept, Sizes;
      RecursionConcat(a[1..], b);
      RecursionFirst(a);
      RecursionFirst(a + b);
      assert (a + b)[0] == a[0] && (a + b)[1..] == a[1..] + b;
      Associative([a[0]] + Recursion(Accept(a[0].resubmits)), Recursion(a[1..]), Recursion(b));
    }
  }

  /** The worklist hands over the same bios as recursion, each as often: exactly once. */
  lemma {:induction false} WorkMeetsTheSameBios(q: seq<Bio>)
    ensures multiset(Work(q)) == multiset(Recursion(q))
    decreases Sizes(q)
  {
    if q != [] {
      var a := Accept(q[0].resubmits);
      NextIsSmaller(q);
      WorkMeetsTheSameBios(q[1..] + a);
      RecursionConcat(q[1..], a);
      assert multiset(Recursion(q)) == multiset([q[0]]) + multiset(Recursion(a)) + multiset(Recursion(q[1..]));
    }
  }
}
