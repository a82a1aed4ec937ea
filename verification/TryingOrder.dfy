// The order in which a tier's trackers are tried, BEP 12 "Order of Processing"
// (libtransmission/announcer-common.cc).
module TryingOrder {
  import opened Options

  function Iota(n: nat): (r: seq<nat>)
    ensures |r| == n && forall i :: 0 <= i < n ==> r[i] == i
  {
    seq(n, i => i)
  }

  // The trackers 0..n-1, each once.
  ghost predicate IsOrder(order: seq<nat>, n: nat) {
    multiset(order) == multiset(Iota(n))
  }

  lemma {:induction false} IotaCounts(n: nat, x: nat)
    ensures multiset(Iota(n))[x] == if x < n then 1 else 0
  {
    if n > 0 {
      IotaCounts(n - 1, x);
      assert Iota(n) == Iota(n - 1) + [n - 1];
    }
  }

  lemma TwiceIn(order: seq<nat>, i: nat, j: nat)
    requires i < j < |order| && order[i] == order[j]
    ensures multiset(order)[order[i]] >= 2
  {
    assert order == order[..i] + [order[i]] + order[i + 1..j] + [order[j]] + order[j + 1..];
  }

  lemma OrderListsEach(order: seq<nat>, n: nat)
    requires IsOrder(order, n)
    ensures |order| == n
    ensures forall t :: t in order <==> 0 <= t < n
    ensures forall i, j :: 0 <= i < j < n ==> order[i] != order[j]
  {
    assert |multiset(order)| == |order| && |multiset(Iota(n))| == n;
    forall t: nat
      ensures t in order <==> t < n
    {
      IotaCounts(n, t);
      assert t in order <==> t in multiset(order);
    }
    forall i, j | 0 <= i < j < n
      ensures order[i] != order[j]
    {
      if order[i] == order[j] {
        TwiceIn(order, i, j);
        IotaCounts(n, order[i]);
      }
    }
  }

  // ----- stepping

  // advance(), on positions
  function NextPos(n: nat, pos: Option<nat>): Option<nat> {
    if n == 0 then None else if pos == None then Some(0) else Some((pos.value + 1) % n)
  }

  lemma NextWraps(n: nat, p: nat)
    requires p < n
    ensures NextPos(n, Some(p)) == Some(if p + 1 == n then 0 else p + 1)
  {
    if p + 1 < n {
      SmallMod(p + 1, n);
    }
  }

  lemma SmallMod(x: nat, n: nat)
    requires x < n
    ensures x % n == x
  {
  }

  function At(order: seq<nat>, pos: Option<nat>): Option<nat> {
    if pos.Some? && pos.value < |order| then Some(order[pos.value]) else None
  }

  function PosAfter(n: nat, pos: Option<nat>, k: nat): Option<nat> {
    if k == 0 then pos else NextPos(n, PosAfter(n, pos, k - 1))
  }

  // What k consecutive calls of advance() return.
  function Visits(order: seq<nat>, pos: Option<nat>, k: nat): (r: seq<Option<nat>>)
    ensures |r| == k
  {
    if k == 0 then [] else Visits(order, pos, k - 1) + [At(order, PosAfter(|order|, pos, k))]
  }

  function Somes(ts: seq<nat>): (r: seq<Option<nat>>)
    ensures |r| == |ts| && forall i :: 0 <= i < |ts| ==> r[i] == Some(ts[i])
  {
    seq(|ts|, i requires 0 <= i < |ts| => Some(ts[i]))
  }

  lemma {:induction false} PosAfterIs(n: nat, p: nat, k: nat)
    requires p < n && k <= n
    ensures PosAfter(n, Some(p), k) == Some(if p + k < n then p + k else p + k - n)
  {
    if k > 0 {
      PosAfterIs(n, p, k - 1);
      NextWraps(n, if p + (k - 1) < n then p + (k - 1) else p + (k - 1) - n);
    }
  }

  lemma {:induction false} VisitsAre(order: seq<nat>, p: nat, k: nat)
    requires p < |order| && k <= |order|
    ensures Visits(order, Some(p), k) == Somes((order[p + 1..] + order[..p + 1])[..k])
  {
    var turned := order[p + 1..] + order[..p + 1];
    if k > 0 {
      VisitsAre(order, p, k - 1);
      PosAfterIs(|order|, p, k);
      assert turned[k - 1] == order[if p + k < |order| then p + k else p + k - |order|];
      assert turned[..k] == turned[..k - 1] + [turned[k - 1]];
    }
  }

  lemma TurnedCounts(order: seq<nat>, k: nat)
    requires k <= |order|
    ensures multiset(Somes(order[k..] + order[..k])) == multiset(Somes(order))
  {
    var first, rest := Somes(order[..k]), Somes(order[k..]);
    assert Somes(order) == first + rest;
    assert Somes(order[k..] + order[..k]) == rest + first;
  }

  // Main result: as many calls of advance() as there are trackers visit each
  // tracker once and end where they began.
  lemma FullRound(order: seq<nat>, p: nat)
    requires p < |order|
    ensures multiset(Visits(order, Some(p), |order|)) == multiset(Somes(order))
    ensures PosAfter(|order|, Some(p), |order|) == Some(p)
  {
    var turned := order[p + 1..] + order[..p + 1];
    VisitsAre(order, p, |order|);
    PosAfterIs(|order|, p, |order|);
    assert turned[..|order|] == turned;
    TurnedCounts(order, p + 1);
  }

  // From no current tracker, the first round is the order itself.
  lemma {:induction false} FirstRound(order: seq<nat>, k: nat)
    requires k <= |order|
    ensures Visits(order, None, k) == Somes(order[..k])
    ensures k > 0 ==> PosAfter(|order|, None, k) == Some(k - 1)
  {
    if k > 0 {
      FirstRound(order, k - 1);
      if k > 1 {
        NextWraps(|order|, k - 2);
      }
      assert PosAfter(|order|, None, k) == Some(k - 1);
      assert Somes(order[..k]) == Somes(order[..k - 1]) + [Some(order[k - 1])];
    }
  }

  // ----- promoting

  // std::rotate(begin, iter, next(iter)) at position p.
  function Promoted(order: seq<nat>, p: nat): seq<nat>
    requires p < |order|
  {
    [order[p]] + order[..p] + order[p + 1..]
  }

  function Others(order: seq<nat>, t: nat): seq<nat> {
    if order == [] then []
    else
      var last := order[|order| - 1];
      Others(order[..|order| - 1], t) + if last == t then [] else [last]
  }

  lemma {:induction false} OthersConcat(a: seq<nat>, b: seq<nat>, t: nat)
    ensures Others(a + b, t) == Others(a, t) + Others(b, t)
  {
    if b == [] {
      assert a + b == a;
    } else {
      assert (a + b)[..|a + b| - 1] == a + b[..|b| - 1];
      OthersConcat(a, b[..|b| - 1], t);
    }
  }

  // Main result: promoting puts the current tracker first and leaves the others
  // in their order.
  lemma PromotedMeaning(order: seq<nat>, p: nat)
    requires p < |order|
    ensures multiset(Promoted(order, p)) == multiset(order) && Promoted(order, p)[0] == order[p]
    ensures Others(Promoted(order, p), order[p]) == Others(order, order[p])
  {
    var t, a, b := order[p], order[..p], order[p + 1..];
    OrderSplits(order, p);
    OthersMoved(a, t, b);
  }

  lemma OrderSplits(order: seq<nat>, p: nat)
    requires p < |order|
    ensures order == order[..p] + [order[p]] + order[p + 1..]
    ensures multiset(Promoted(order, p)) == multiset(order)
  {
    assert order == order[..p] + [order[p]] + order[p + 1..];
  }

  lemma OthersMoved(a: seq<nat>, t: nat, b: seq<nat>)
    ensures Others([t] + a + b, t) == Others(a + [t] + b, t)
  {
    OthersOfThree(a, [t], b, t);
    OthersOfThree([t], a, b, t);
    OthersOfOne(t);
    var rest := Others(a, t);
    assert [] + rest == rest + [];
  }

  lemma OthersOfThree(a: seq<nat>, b: seq<nat>, c: seq<nat>, t: nat)
    ensures Others(a + b + c, t) == Others(a, t) + Others(b, t) + Others(c, t)
  {
    OthersConcat(a + b, c, t);
    OthersConcat(a, b, t);
  }

  lemma OthersOfOne(t: nat)
    ensures Others([t], t) == []
  {
    assert [t][..0] == [];
  }

  // ----- the class

  class TrackerTryingOrder {
    ghost const count: nat
    var order: seq<nat>
    var pos: Option<nat>

    ghost predicate Valid()
      reads this
    {
      IsOrder(order, count) && |order| == count && (pos.Some? ==> pos.value < |order|)
    }

    // `shuffled` is what std::shuffle() made of 0..n-1.
    constructor (n: nat, shuffled: seq<nat>)
      requires IsOrder(shuffled, n)
      ensures Valid() && count == n && order == shuffled && pos == None
    {
      count, order, pos := n, shuffled, None;
      OrderListsEach(shuffled, n);
    }

    function Current(): Option<nat>
      requires pos.Some? ==> pos.value < |order|
      reads this
    {
      if pos.Some? then Some(order[pos.value]) else None
    }

    method Advance() returns (current: Option<nat>)
      requires Valid()
      modifies this`pos
      ensures Valid() && pos == NextPos(|order|, old(pos)) && current == At(order, pos) == Current()
    {
      if order == [] {
        pos := None;
      } else if pos == None {
        pos := Some(0);
      } else {
        NextWraps(|order|, pos.value);
        pos := Some((pos.value + 1) % |order|);
      }
      current := Current();
    }

    // Keeps the current tracker current.
    method PromoteCurrent()
      requires Valid()
      modifies this
      ensures Valid() && Current() == old(Current())
      ensures old(pos).Some? ==> pos == Some(0) && order == Promoted(old(order), old(pos).value)
      ensures old(pos) == None ==> pos == None && order == old(order)
    {
      if pos.Some? && pos.value != 0 {
        PromotedMeaning(order, pos.value);
        order := [order[pos.value]] + order[..pos.value] + order[pos.value + 1..];
        pos := Some(0);
      } else if pos.Some? {
        assert Promoted(order, 0) == order;
      }
    }

    // The tracker itself, or none if there is no such tracker.
    method SetCurrent(index: Option<nat>)
      requires Valid()
      modifies this`pos
      ensures Valid() && Current() == if index.Some? && index.value < count then index else None
    {
      OrderListsEach(order, count);
      if index.Some? {
        var k := 0;
        while k < |order|
          invariant k <= |order| && index.value !in order[..k]
        {
          if order[k] == index.value {
            assert order[k] in order;
            pos := Some(k);
            return;
          }
          k := k + 1;
        }
        assert order[..|order|] == order;
      }
      pos := None;
    }
  }
}
