// The per-period byte budget as values (libtransmission/bandwidth.cc): what a
// clamp allows along a chain of limiters and what consumption charges to it.
//
// A chain runs from the node doing I/O up to the root. `Id` names the nodes.
module Budget {
  import opened Numbers

  datatype Limit = Limit(limited: bool, honorsParent: bool, bytesLeft: nat)

  ghost predicate Covers<Id>(t: map<Id, Limit>, chain: seq<Id>) {
    forall id :: id in chain ==> id in t
  }

  ghost predicate Distinct<Id>(s: seq<Id>) {
    forall i, j :: 0 <= i < j < |s| ==> s[i] != s[j]
  }

  // clamp(): each limiter lowers the count, up to the first one that ignores
  // its parent or the count that has reached zero.
  function Clamp<Id>(t: map<Id, Limit>, chain: seq<Id>, n: nat): nat
    requires Covers(t, chain)
  {
    if chain == [] then n
    else
      var l := t[chain[0]];
      var m := if l.limited then Min(n, l.bytesLeft) else n;
      if l.honorsParent && m > 0 then Clamp(t, chain[1..], m) else m
  }

  function Charged(l: Limit, n: nat): Limit {
    if l.limited then l.(bytesLeft := l.bytesLeft - Min(l.bytesLeft, n)) else l
  }

  // notify_bandwidth_consumed() for raw bytes: every ancestor is charged,
  // whether or not the nodes below honor it.
  function Charge<Id>(t: map<Id, Limit>, chain: seq<Id>, n: nat): (r: map<Id, Limit>)
    requires Covers(t, chain)
    ensures r.Keys == t.Keys
    decreases |chain|
  {
    if chain == [] then t else Charge(t[chain[0] := Charged(t[chain[0]], n)], chain[1..], n)
  }

  // The part of a chain whose limits bind its leaf: up to and including the
  // first node that ignores its parent.
  ghost function Honored<Id>(t: map<Id, Limit>, chain: seq<Id>): (r: seq<Id>)
    requires Covers(t, chain)
    ensures r <= chain
  {
    if chain == [] then []
    else if t[chain[0]].honorsParent then [chain[0]] + Honored(t, chain[1..])
    else [chain[0]]
  }

  // Clamp is the minimum of the request and of what is left at every limited
  // node of the honored chain.
  lemma {:induction false} ClampIsMinimum<Id>(t: map<Id, Limit>, chain: seq<Id>, n: nat)
    requires Covers(t, chain)
    ensures var r := Clamp(t, chain, n);
            && r <= n
            && (forall id :: id in Honored(t, chain) && t[id].limited ==> r <= t[id].bytesLeft)
            && (r == n || exists id :: id in Honored(t, chain) && t[id].limited && r == t[id].bytesLeft)
  {
    if chain != [] {
      var l := t[chain[0]];
      var m := if l.limited then Min(n, l.bytesLeft) else n;
      assert chain[0] in Honored(t, chain);
      if l.honorsParent {
        ClampIsMinimum(t, chain[1..], m);
        assert forall id :: id in Honored(t, chain[1..]) ==> id in Honored(t, chain);
        assert forall id :: id in Honored(t, chain) ==> id == chain[0] || id in Honored(t, chain[1..]);
      }
    }
  }

  // A charge lowers each limited node of the chain once, floored at zero, and
  // touches nothing else.
  lemma {:induction false} ChargeAt<Id>(t: map<Id, Limit>, chain: seq<Id>, n: nat, id: Id)
    requires Covers(t, chain) && Distinct(chain) && id in t
    ensures Charge(t, chain, n)[id] == if id in chain then Charged(t[id], n) else t[id]
    decreases |chain|
  {
    if chain != [] {
      ChargeAt(t[chain[0] := Charged(t[chain[0]], n)], chain[1..], n, id);
      assert id in chain <==> id == chain[0] || id in chain[1..];
    }
  }

  // has_bandwidth_left() of a peer whose leaf has this chain
  ghost predicate HasLeft<Id>(t: map<Id, Limit>, chain: seq<Id>) {
    Covers(t, chain) && Clamp(t, chain, 1024) > 0
  }

  lemma ChargePointwise<Id>(t: map<Id, Limit>, u: map<Id, Limit>, chain: seq<Id>, n: nat)
    requires Covers(t, chain) && Distinct(chain) && u.Keys == t.Keys
    requires forall id :: id in t ==> u[id] == if id in chain then Charged(t[id], n) else t[id]
    ensures u == Charge(t, chain, n)
  {
    forall id | id in t
      ensures u[id] == Charge(t, chain, n)[id]
    {
      ChargeAt(t, chain, n, id);
    }
  }

  lemma {:induction false} ClampAtMost<Id>(t: map<Id, Limit>, chain: seq<Id>, n: nat)
    requires Covers(t, chain)
    ensures Clamp(t, chain, n) <= n
  {
    if chain != [] {
      var l := t[chain[0]];
      ClampAtMost(t, chain[1..], if l.limited then Min(n, l.bytesLeft) else n);
    }
  }

  // ----- a period

  // One I/O: the leaf's chain, the bytes it asked for and the bytes it moved.
  datatype Io<+Id> = Io(chain: seq<Id>, want: nat, used: nat)

  ghost predicate Fits<Id>(t: map<Id, Limit>, io: Io<Id>) {
    Covers(t, io.chain) && Distinct(io.chain) && io.used <= Clamp(t, io.chain, io.want)
  }

  // The budgets after a sequence of I/Os, each allowed by a clamp at its time.
  ghost predicate Legal<Id>(t: map<Id, Limit>, ios: seq<Io<Id>>)
    decreases |ios|, 0
  {
    ios == [] || (Legal(t, ios[..|ios| - 1]) && Fits(After(t, ios[..|ios| - 1]), ios[|ios| - 1]))
  }

  ghost function After<Id>(t: map<Id, Limit>, ios: seq<Io<Id>>): (r: map<Id, Limit>)
    requires Legal(t, ios)
    ensures r.Keys == t.Keys
    decreases |ios|, 1
  {
    if ios == [] then t
    else Charge(After(t, ios[..|ios| - 1]), ios[|ios| - 1].chain, ios[|ios| - 1].used)
  }

  // Bytes moved by leaves whose honored chain reaches the node.
  ghost function BoundBytes<Id>(t: map<Id, Limit>, ios: seq<Io<Id>>, id: Id): nat
    requires forall io :: io in ios ==> Covers(t, io.chain)
  {
    if ios == [] then 0
    else
      var io := ios[|ios| - 1];
      BoundBytes(t, ios[..|ios| - 1], id) + if id in Honored(t, io.chain) then io.used else 0
  }

  // Bytes moved by all leaves below the node.
  ghost function SubtreeBytes<Id>(ios: seq<Io<Id>>, id: Id): nat {
    if ios == [] then 0
    else
      var io := ios[|ios| - 1];
      SubtreeBytes(ios[..|ios| - 1], id) + if id in io.chain then io.used else 0
  }

  lemma LegalCovers<Id>(t: map<Id, Limit>, ios: seq<Io<Id>>)
    requires Legal(t, ios)
    ensures forall io :: io in ios ==> Covers(t, io.chain)
  {
    if ios != [] {
      LegalCovers(t, ios[..|ios| - 1]);
      assert After(t, ios[..|ios| - 1]).Keys == t.Keys;
      assert ios == ios[..|ios| - 1] + [ios[|ios| - 1]];
    }
  }

  // Limits stay fixed within a period: only bytesLeft moves.
  lemma {:induction false} AfterKeepsLimits<Id>(t: map<Id, Limit>, ios: seq<Io<Id>>, id: Id)
    requires Legal(t, ios) && id in t
    ensures var l := After(t, ios)[id];
            l.limited == t[id].limited && l.honorsParent == t[id].honorsParent
  {
    if ios != [] {
      var last := ios[|ios| - 1];
      AfterKeepsLimits(t, ios[..|ios| - 1], id);
      ChargeAt(After(t, ios[..|ios| - 1]), last.chain, last.used, id);
    }
  }

  lemma {:induction false} SameHonored<Id>(t: map<Id, Limit>, u: map<Id, Limit>, chain: seq<Id>)
    requires Covers(t, chain) && Covers(u, chain)
    requires forall id :: id in chain ==> t[id].honorsParent == u[id].honorsParent
    ensures Honored(t, chain) == Honored(u, chain)
  {
    if chain != [] {
      SameHonored(t, u, chain[1..]);
    }
  }

  lemma LastIoAllowed<Id>(t: map<Id, Limit>, ios: seq<Io<Id>>, id: Id)
    requires Legal(t, ios) && ios != [] && id in t && t[id].limited
    requires Covers(t, ios[|ios| - 1].chain)
    requires id in Honored(t, ios[|ios| - 1].chain)
    ensures ios[|ios| - 1].used <= After(t, ios[..|ios| - 1])[id].bytesLeft
  {
    var before, io := After(t, ios[..|ios| - 1]), ios[|ios| - 1];
    forall x | x in io.chain
      ensures before[x].honorsParent == t[x].honorsParent
    {
      AfterKeepsLimits(t, ios[..|ios| - 1], x);
    }
    SameHonored(t, before, io.chain);
    AfterKeepsLimits(t, ios[..|ios| - 1], id);
    ClampIsMinimum(before, io.chain, io.want);
  }

  // Main result, over every interleaving of clamped I/O and at every limited
  // node at once: what is left plus what bound leaves moved never exceeds the
  // allotment. Leaves that do not honor the node only lower what is left, so it
  // never falls below the allotment minus everything moved underneath either.
  lemma {:induction false} BudgetSafety<Id>(t: map<Id, Limit>, ios: seq<Io<Id>>, id: Id)
    requires Legal(t, ios) && id in t && t[id].limited
    ensures forall io :: io in ios ==> Covers(t, io.chain)
    ensures BoundBytes(t, ios, id) + After(t, ios)[id].bytesLeft <= t[id].bytesLeft
    ensures SubtreeBytes(ios, id) + After(t, ios)[id].bytesLeft >= t[id].bytesLeft
  {
    LegalCovers(t, ios);
    if ios != [] {
      var init, io := ios[..|ios| - 1], ios[|ios| - 1];
      BudgetSafety(t, init, id);
      AfterKeepsLimits(t, init, id);
      ChargeAt(After(t, init), io.chain, io.used, id);
      if id in Honored(t, io.chain) {
        LastIoAllowed(t, ios, id);
      }
    }
  }

  // When every leaf below a limited node is bound by it, the books balance.
  lemma {:induction false} BoundIsSubtree<Id>(t: map<Id, Limit>, ios: seq<Io<Id>>, id: Id)
    requires forall io :: io in ios ==> Covers(t, io.chain)
    requires forall io :: io in ios && id in io.chain ==> id in Honored(t, io.chain)
    ensures BoundBytes(t, ios, id) == SubtreeBytes(ios, id)
  {
    if ios != [] {
      BoundIsSubtree(t, ios[..|ios| - 1], id);
      var io := ios[|ios| - 1];
      assert io in ios;
      assert id in Honored(t, io.chain) ==> id in io.chain;
    }
  }

  lemma ExactConservation<Id>(t: map<Id, Limit>, ios: seq<Io<Id>>, id: Id)
    requires Legal(t, ios) && id in t && t[id].limited
    requires forall io :: io in ios ==> Covers(t, io.chain)
    requires forall io :: io in ios && id in io.chain ==> id in Honored(t, io.chain)
    ensures SubtreeBytes(ios, id) + After(t, ios)[id].bytesLeft == t[id].bytesLeft
  {
    BudgetSafety(t, ios, id);
    BoundIsSubtree(t, ios, id);
  }
}
