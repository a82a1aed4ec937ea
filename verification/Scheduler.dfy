// The round-robin phase of bandwidth allocation and the allocation as a whole
// (tr_bandwidth::phase_one() and allocate() in libtransmission/bandwidth.cc).
module Scheduler {
  import opened Budget
  import opened Forests
  import opened BandwidthTree

  const INCREMENT: nat := 3000

  // ----- traces of I/Os, told apart by the leaf that did them

  ghost predicate Leafed<Id>(trace: seq<Io<Id>>) {
    forall io :: io in trace ==> io.chain != []
  }

  // Bytes a leaf has moved.
  ghost function Moved<Id>(trace: seq<Io<Id>>, leaf: Id): nat
    requires Leafed(trace)
  {
    if trace == [] then 0
    else
      var io := trace[|trace| - 1];
      assert io in trace && forall x :: x in trace[..|trace| - 1] ==> x in trace;
      Moved(trace[..|trace| - 1], leaf) + if io.chain[0] == leaf then io.used else 0
  }

  // Every flush of the leaf used the whole increment.
  ghost predicate Unfinished<Id>(trace: seq<Io<Id>>, leaf: Id)
    requires Leafed(trace)
  {
    forall io :: io in trace && io.chain[0] == leaf ==> io.used == 3000
  }

  // The leaf's last flush was its only short one.
  ghost predicate StoppedShort<Id>(trace: seq<Io<Id>>, leaf: Id)
    requires Leafed(trace)
  {
    exists i :: 0 <= i < |trace| && ShortAt(trace, leaf, i)
  }

  ghost predicate ShortAt<Id>(trace: seq<Io<Id>>, leaf: Id, i: nat)
    requires Leafed(trace) && i < |trace|
  {
    && trace[i].chain[0] == leaf && trace[i].used < 3000
    && (forall j :: 0 <= j < i && trace[j].chain[0] == leaf ==> trace[j].used == 3000)
    && (forall j :: i < j < |trace| ==> trace[j].chain[0] != leaf)
  }

  // After n I/Os, q is at most one increment ahead of p if p could still go on.
  ghost predicate FairAt<Id>(trace: seq<Io<Id>>, n: nat, p: Id, q: Id)
    requires Leafed(trace) && n <= |trace|
  {
    Unfinished(trace[..n], p) ==> Moved(trace[..n], q) <= Moved(trace[..n], p) + 3000
  }

  // At every moment, no leaf is more than one increment ahead of a leaf that
  // could still go on.
  ghost predicate Fair<Id>(trace: seq<Io<Id>>, leaves: set<Id>)
    requires Leafed(trace)
  {
    forall n, p, q {:trigger FairAt(trace, n, p, q)} :: 0 <= n <= |trace| && p in leaves && q in leaves ==>
      FairAt(trace, n, p, q)
  }

  lemma MovedSnoc<Id>(trace: seq<Io<Id>>, io: Io<Id>, leaf: Id)
    requires Leafed(trace) && io.chain != []
    ensures Leafed(trace + [io])
    ensures Moved(trace + [io], leaf) == Moved(trace, leaf) + if io.chain[0] == leaf then io.used else 0
    ensures Unfinished(trace + [io], leaf)
            <==> Unfinished(trace, leaf) && (io.chain[0] == leaf ==> io.used == INCREMENT)
  {
    assert (trace + [io])[..|trace|] == trace;
    assert io in trace + [io] && forall x :: x in trace ==> x in trace + [io];
  }

  // ----- the state of the round robin
  //
  // In pass k, the leaves before i have moved k + 1 increments, the other
  // unfinished ones k, and those from u on have stopped.
  ghost predicate Round<Id>(trace: seq<Io<Id>>, leaves: seq<Id>, u: nat, i: nat, k: nat) {
    && Leafed(trace) && Distinct(leaves) && i <= u <= |leaves|
    && (forall j :: 0 <= j < u ==> Going(trace, leaves[j], if j < i then k + 1 else k))
    && (forall j :: u <= j < |leaves| ==> Stopped(trace, leaves[j], k))
    && Fair(trace, SetOf(leaves))
  }

  ghost predicate Going<Id>(trace: seq<Io<Id>>, leaf: Id, passes: nat)
    requires Leafed(trace)
  {
    Unfinished(trace, leaf) && Moved(trace, leaf) == passes * INCREMENT
  }

  ghost predicate Stopped<Id>(trace: seq<Io<Id>>, leaf: Id, passes: nat)
    requires Leafed(trace)
  {
    StoppedShort(trace, leaf) && Moved(trace, leaf) <= passes * INCREMENT + INCREMENT
  }

  ghost function SetOf<Id>(s: seq<Id>): set<Id> {
    set x | x in s
  }

  lemma OthersUnmoved<Id>(trace: seq<Io<Id>>, io: Io<Id>, leaf: Id, passes: nat)
    requires Leafed(trace) && io.chain != [] && io.chain[0] != leaf
    ensures Leafed(trace + [io])
    ensures Going(trace, leaf, passes) ==> Going(trace + [io], leaf, passes)
    ensures Stopped(trace, leaf, passes) ==> Stopped(trace + [io], leaf, passes)
  {
    MovedSnoc(trace, io, leaf);
    if StoppedShort(trace, leaf) {
      var i :| 0 <= i < |trace| && ShortAt(trace, leaf, i);
      ShortAtStays(trace, io, leaf, i);
    }
  }

  lemma ShortAtStays<Id>(trace: seq<Io<Id>>, io: Io<Id>, leaf: Id, i: nat)
    requires Leafed(trace) && Leafed(trace + [io]) && io.chain != [] && io.chain[0] != leaf
    requires i < |trace| && ShortAt(trace, leaf, i)
    ensures ShortAt(trace + [io], leaf, i)
  {
    var t := trace + [io];
    assert t[|trace|] == io && forall j :: 0 <= j < |trace| ==> t[j] == trace[j];
  }

  lemma ShortStops<Id>(trace: seq<Io<Id>>, io: Io<Id>, passes: nat)
    requires Leafed(trace) && io.chain != [] && Going(trace, io.chain[0], passes) && io.used < INCREMENT
    ensures Leafed(trace + [io]) && Stopped(trace + [io], io.chain[0], passes)
  {
    var leaf := io.chain[0];
    MovedSnoc(trace, io, leaf);
    var t := trace + [io];
    assert t[|trace|] == io;
    assert forall j :: 0 <= j < |trace| ==> t[j] == trace[j] && trace[j] in trace;
    assert ShortAt(t, leaf, |trace|);
  }

  lemma FullGoes<Id>(trace: seq<Io<Id>>, io: Io<Id>, passes: nat)
    requires Leafed(trace) && io.chain != [] && Going(trace, io.chain[0], passes) && io.used == INCREMENT
    ensures Leafed(trace + [io]) && Going(trace + [io], io.chain[0], passes + 1)
  {
    MovedSnoc(trace, io, io.chain[0]);
  }

  // While all going leaves have moved at least k increments and nobody more
  // than k + 1, the trace stays fair.
  lemma StaysFair<Id>(trace: seq<Io<Id>>, io: Io<Id>, leaves: set<Id>, k: nat)
    requires Leafed(trace) && io.chain != [] && Fair(trace, leaves) && Leafed(trace + [io])
    requires forall p :: p in leaves ==> Moved(trace + [io], p) <= k * INCREMENT + INCREMENT
    requires forall p :: p in leaves && Unfinished(trace + [io], p) ==> Moved(trace + [io], p) >= k * INCREMENT
    ensures Fair(trace + [io], leaves)
  {
    var t := trace + [io];
    forall n, p, q | 0 <= n <= |t| && p in leaves && q in leaves
      ensures FairAt(t, n, p, q)
    {
      if n == |t| {
        assert t[..n] == t;
      } else {
        assert t[..n] == trace[..n];
        assert FairAt(trace, n, p, q);
      }
    }
  }

  lemma StoppedIsNotGoing<Id>(trace: seq<Io<Id>>, leaf: Id)
    requires Leafed(trace) && StoppedShort(trace, leaf)
    ensures !Unfinished(trace, leaf)
  {
    var i :| 0 <= i < |trace| && ShortAt(trace, leaf, i);
    assert trace[i] in trace;
  }

  // One turn: leaf i flushes. A full flush moves on to the next leaf, a short
  // one swaps the leaf to the end of the unfinished part.
  lemma RoundFull<Id>(trace: seq<Io<Id>>, io: Io<Id>, leaves: seq<Id>, u: nat, i: nat, k: nat)
    requires Round(trace, leaves, u, i, k) && i < u && io.chain != [] && io.chain[0] == leaves[i]
             && io.used == INCREMENT
    ensures Round(trace + [io], leaves, u, i + 1, k)
  {
    var t := trace + [io];
    FullGoes(trace, io, k);
    forall j | 0 <= j < |leaves| && j != i
      ensures j < u ==> Going(t, leaves[j], if j < i then k + 1 else k)
      ensures j >= u ==> Stopped(t, leaves[j], k)
    {
      OthersUnmoved(trace, io, leaves[j], if j < i then k + 1 else k);
    }
    RoundBounds(t, leaves, u, i + 1, k);
    StaysFair(trace, io, SetOf(leaves), k);
  }

  lemma RoundShort<Id>(trace: seq<Io<Id>>, io: Io<Id>, leaves: seq<Id>, u: nat, i: nat, k: nat, swapped: seq<Id>)
    requires Round(trace, leaves, u, i, k) && i < u && io.chain != [] && io.chain[0] == leaves[i] && io.used < INCREMENT
    requires swapped == leaves[i := leaves[u - 1]][u - 1 := leaves[i]]
    ensures Round(trace + [io], swapped, u - 1, i, k)
  {
    var t := trace + [io];
    ShortStops(trace, io, k);
    forall j | 0 <= j < |leaves| && j != i
      ensures j < u ==> Going(t, leaves[j], if j < i then k + 1 else k)
      ensures j >= u ==> Stopped(t, leaves[j], k)
    {
      OthersUnmoved(trace, io, leaves[j], if j < i then k + 1 else k);
    }
    assert forall j :: 0 <= j < |leaves| ==>
                         swapped[j] == leaves[if j == i then u - 1 else if j == u - 1 then i else j];
    SameSet(leaves, swapped, i, u - 1);
    RoundBounds(t, swapped, u - 1, i, k);
    StaysFair(trace, io, SetOf(leaves), k);
  }

  lemma SameSet<Id>(s: seq<Id>, t: seq<Id>, i: nat, j: nat)
    requires i < |s| && j < |s| && t == s[i := s[j]][j := s[i]]
    ensures SetOf(s) == SetOf(t)
    ensures multiset(s) == multiset(t)
  {
    assert t[i] == s[j] && t[j] == s[i];
    assert forall x :: x in s ==> x in t by {
      forall x | x in s
        ensures x in t
      {
        var n :| 0 <= n < |s| && s[n] == x;
        assert t[if n == i then j else if n == j then i else n] == x;
      }
    }
  }

  lemma RoundBounds<Id>(t: seq<Io<Id>>, leaves: seq<Id>, u: nat, i: nat, k: nat)
    requires Leafed(t) && i <= u <= |leaves|
    requires forall j :: 0 <= j < u ==> Going(t, leaves[j], if j < i then k + 1 else k)
    requires forall j :: u <= j < |leaves| ==> Stopped(t, leaves[j], k)
    ensures forall p :: p in SetOf(leaves) ==> Moved(t, p) <= k * INCREMENT + INCREMENT
    ensures forall p :: p in SetOf(leaves) && Unfinished(t, p) ==> Moved(t, p) >= k * INCREMENT
  {
    forall p | p in leaves
      ensures Moved(t, p) <= k * INCREMENT + INCREMENT
      ensures Unfinished(t, p) ==> Moved(t, p) >= k * INCREMENT
    {
      var j :| 0 <= j < |leaves| && leaves[j] == p;
      if j >= u {
        StoppedIsNotGoing(t, p);
      }
    }
  }

  // A finished pass starts the next one.
  lemma RoundAgain<Id>(trace: seq<Io<Id>>, leaves: seq<Id>, u: nat, k: nat)
    requires Round(trace, leaves, u, u, k)
    ensures Round(trace, leaves, u, 0, k + 1)
  {
  }

  lemma RoundStart<Id>(leaves: seq<Id>)
    requires Distinct(leaves)
    ensures Round([], leaves, |leaves|, 0, 0)
  {
    var none: seq<Io<Id>> := [];
    assert none[..0] == none;
  }

  // ----- phase_one() and allocate()

  // std::shuffle: any permutation may come out.
  method Shuffle(peers: array<PeerIo>)
    modifies peers
    ensures multiset(peers[..]) == multiset(old(peers[..]))
  {
    var n := peers.Length;
    var i := 0;
    while i < n
      invariant 0 <= i <= n
      invariant multiset(peers[..]) == multiset(old(peers[..]))
    {
      var j :| i <= j < n;
      peers[i], peers[j] := peers[j], peers[i];
      i := i + 1;
    }
  }

  function LeavesOf(peers: seq<PeerIo>): (r: seq<Bandwidth>)
    ensures |r| == |peers| && forall j :: 0 <= j < |peers| ==> r[j] == peers[j].bandwidth
  {
    seq(|peers|, j requires 0 <= j < |peers| => peers[j].bandwidth)
  }

  // The budgets went from t to u by this trace of clamped I/Os.
  ghost predicate Played<Id>(t: map<Id, Limit>, u: map<Id, Limit>, trace: seq<Io<Id>>) {
    Legal(t, trace) && u == After(t, trace)
  }

  // One clamped I/O took the budgets from u to v.
  ghost predicate Moves<Id>(u: map<Id, Limit>, io: Io<Id>, v: map<Id, Limit>) {
    Fits(u, io) && v == Charge(u, io.chain, io.used)
  }

  lemma PlayedSnoc<Id>(t: map<Id, Limit>, u: map<Id, Limit>, trace: seq<Io<Id>>, io: Io<Id>, v: map<Id, Limit>)
    requires Played(t, u, trace) && Moves(u, io, v)
    ensures Played(t, v, trace + [io])
  {
    assert (trace + [io])[..|trace|] == trace;
  }

  // The peers of a round robin: each has its own leaf in the tree.
  ghost predicate Roster(peers: seq<PeerIo>, nodes: set<Bandwidth>, ios: set<PeerIo>) {
    && Distinct(LeavesOf(peers))
    && forall p :: p in peers ==> p in ios && p.bandwidth in nodes
  }

  // What a finished round robin guarantees: it was fair at every moment, and
  // every peer stopped at its one short flush.
  ghost predicate RoundRobin(trace: seq<Io<Bandwidth>>, peers: seq<PeerIo>) {
    && Leafed(trace) && Fair(trace, SetOf(LeavesOf(peers)))
    && forall p :: p in peers ==> StoppedShort(trace, p.bandwidth)
  }

  lemma RoundRobinPermuted(trace: seq<Io<Bandwidth>>, a: seq<PeerIo>, b: seq<PeerIo>)
    requires RoundRobin(trace, a) && multiset(a) == multiset(b)
    ensures RoundRobin(trace, b)
  {
    LeavesIn(a);
    LeavesIn(b);
    forall p
      ensures p in a <==> p in b
    {
      assert p in multiset(a) <==> p in multiset(b);
    }
    assert SetOf(LeavesOf(a)) == SetOf(LeavesOf(b));
  }

  lemma LeavesIn(peers: seq<PeerIo>)
    ensures SetOf(LeavesOf(peers)) == set p | p in peers :: p.bandwidth
  {
    forall p | p in peers
      ensures p.bandwidth in LeavesOf(peers)
    {
      var j :| 0 <= j < |peers| && peers[j] == p;
      assert LeavesOf(peers)[j] == p.bandwidth;
    }
  }

  // phase_one()
  method PhaseOne(peers: array<PeerIo>, dir: Dir, now: nat, ghost nodes: set<Bandwidth>, ghost ios: set<PeerIo>)
    returns (ghost trace: seq<Io<Bandwidth>>)
    requires Forest(ShapeOf(nodes)) && Roster(peers[..], nodes, ios)
    modifies peers, nodes`up, nodes`down, ios`sendable, ios`receivable
    ensures multiset(peers[..]) == multiset(old(peers[..]))
    ensures Played(old(LimitsOf(nodes, dir)), LimitsOf(nodes, dir), trace)
    ensures LimitsOf(nodes, Other(dir)) == old(LimitsOf(nodes, Other(dir)))
    ensures RoundRobin(trace, old(peers[..]))
  {
    ghost var t, other := LimitsOf(nodes, dir), LimitsOf(nodes, Other(dir));
    Shuffled(peers, dir, nodes, ios);
    ghost var k := 0;
    trace := [];
    var unfinished := peers.Length;
    while unfinished > 0
      invariant 0 <= unfinished <= peers.Length
      invariant Forest(ShapeOf(nodes)) && Roster(peers[..], nodes, ios)
      invariant multiset(peers[..]) == multiset(old(peers[..]))
      invariant Played(t, LimitsOf(nodes, dir), trace) && LimitsOf(nodes, Other(dir)) == other
      invariant Round(trace, LeavesOf(peers[..]), unfinished, 0, k)
      decreases unfinished, if unfinished > 0 then peers[0].Movable(dir) else 0
    {
      unfinished, trace := OnePass(peers, unfinished, dir, now, t, trace, k, nodes, ios);
      RoundAgain(trace, LeavesOf(peers[..]), unfinished, k);
      k := k + 1;
    }
    AllStopped(trace, peers[..], k);
    RoundRobinPermuted(trace, peers[..], old(peers[..]));
  }

  lemma AllStopped(trace: seq<Io<Bandwidth>>, peers: seq<PeerIo>, k: nat)
    requires Round(trace, LeavesOf(peers), 0, 0, k)
    ensures RoundRobin(trace, peers)
  {
    forall p | p in peers
      ensures StoppedShort(trace, p.bandwidth)
    {
      var j :| 0 <= j < |peers| && peers[j] == p;
      assert Stopped(trace, LeavesOf(peers)[j], k);
    }
  }

  // The start of phase_one().
  method Shuffled(peers: array<PeerIo>, ghost dir: Dir, ghost nodes: set<Bandwidth>, ghost ios: set<PeerIo>)
    requires Roster(peers[..], nodes, ios)
    modifies peers
    ensures Roster(peers[..], nodes, ios) && multiset(peers[..]) == multiset(old(peers[..]))
    ensures Round([], LeavesOf(peers[..]), peers.Length, 0, 0)
    ensures ShapeOf(nodes) == old(ShapeOf(nodes))
    ensures LimitsOf(nodes, dir) == old(LimitsOf(nodes, dir))
            && LimitsOf(nodes, Other(dir)) == old(LimitsOf(nodes, Other(dir)))
  {
    Shuffle(peers);
    RosterPermuted(old(peers[..]), peers[..], nodes, ios);
    RoundStart(LeavesOf(peers[..]));
  }

  // The inner loop: every unfinished peer is flushed once.
  method OnePass(peers: array<PeerIo>, n: nat, dir: Dir, now: nat, ghost t: map<Bandwidth, Limit>,
                 ghost soFar: seq<Io<Bandwidth>>, ghost k: nat, ghost nodes: set<Bandwidth>, ghost ios: set<PeerIo>)
    returns (unfinished: nat, ghost trace: seq<Io<Bandwidth>>)
    requires Forest(ShapeOf(nodes)) && Roster(peers[..], nodes, ios) && 0 < n <= peers.Length
    requires Played(t, LimitsOf(nodes, dir), soFar) && Round(soFar, LeavesOf(peers[..]), n, 0, k)
    modifies peers, nodes`up, nodes`down, ios`sendable, ios`receivable
    ensures Forest(ShapeOf(nodes)) && Roster(peers[..], nodes, ios)
    ensures multiset(peers[..]) == multiset(old(peers[..]))
    ensures Played(t, LimitsOf(nodes, dir), trace)
    ensures LimitsOf(nodes, Other(dir)) == old(LimitsOf(nodes, Other(dir)))
    ensures unfinished <= n && Round(trace, LeavesOf(peers[..]), unfinished, unfinished, k)
    ensures unfinished == n ==> peers[0].Movable(dir) < old(peers[0].Movable(dir))
  {
    unfinished, trace := n, soFar;
    var i := 0;
    while i < unfinished
      invariant 0 <= i <= unfinished <= n
      invariant Forest(ShapeOf(nodes)) && Roster(peers[..], nodes, ios)
      invariant multiset(peers[..]) == multiset(old(peers[..]))
      invariant Played(t, LimitsOf(nodes, dir), trace)
                && LimitsOf(nodes, Other(dir)) == old(LimitsOf(nodes, Other(dir)))
      invariant Round(trace, LeavesOf(peers[..]), unfinished, i, k)
      invariant unfinished == n ==> peers[0] == old(peers[0])
      invariant unfinished == n ==>
                  peers[0].Movable(dir) + (if i > 0 then INCREMENT else 0) <= old(peers[0].Movable(dir))
      decreases unfinished - i
    {
      ghost var before, earlier, at, n0 := peers[..], trace, i, unfinished;
      ghost var u := LimitsOf(nodes, dir);
      ghost var io;
      unfinished, i, io := OneFlush(peers, unfinished, i, dir, now, peers[0], nodes, ios);
      trace := trace + [io];
      PlayedSnoc(t, u, earlier, io, LimitsOf(nodes, dir));
      TurnRound(before, peers[..], at, n0, unfinished, i, earlier, io, k);
      TurnRoster(before, peers[..], at, n0, unfinished, i, io.used, nodes, ios);
    }
  }

  // The body of the inner loop.
  method OneFlush(peers: array<PeerIo>, n: nat, at: nat, dir: Dir, now: nat, ghost first: PeerIo,
                  ghost nodes: set<Bandwidth>, ghost ios: set<PeerIo>)
    returns (unfinished: nat, i: nat, ghost io: Io<Bandwidth>)
    requires Forest(ShapeOf(nodes)) && at < n <= peers.Length
    requires peers[at] in ios && peers[at].bandwidth in nodes
    modifies peers, nodes`up, nodes`down, ios`sendable, ios`receivable
    ensures ShapeOf(nodes) == old(ShapeOf(nodes))
    ensures io.chain != [] && io.chain[0] == old(peers[at]).bandwidth && io.used <= INCREMENT
    ensures Moves(old(LimitsOf(nodes, dir)), io, LimitsOf(nodes, dir))
    ensures LimitsOf(nodes, Other(dir)) == old(LimitsOf(nodes, Other(dir)))
    ensures Turned(old(peers[..]), peers[..], at, n, unfinished, i, io.used)
    ensures first.Movable(dir) == old(first.Movable(dir)) - if first == old(peers[at]) then io.used else 0
  {
    ghost var before := peers[..];
    var used;
    used, io := FlushPeer(peers[at], dir, now, first, nodes, ios);
    assert peers[..] == before;
    unfinished, i := MoveOn(peers, n, at, used, dir, first, nodes);
  }

  function Swapped<T>(s: seq<T>, i: nat, j: nat): seq<T>
    requires i < |s| && j < |s|
  {
    s[i := s[j]][j := s[i]]
  }

  ghost predicate Turned(before: seq<PeerIo>, after: seq<PeerIo>, at: nat, n: nat, u: nat, i: nat, used: nat) {
    && at < n <= |before| && used <= INCREMENT
    && if used == INCREMENT then u == n && i == at + 1 && after == before
       else u == n - 1 && i == at && after == Swapped(before, at, n - 1)
  }

  // After a short flush the peer is done for now: it moves to the end of the
  // unfinished part.
  method MoveOn(peers: array<PeerIo>, n: nat, at: nat, used: nat, ghost dir: Dir, ghost first: PeerIo,
                ghost nodes: set<Bandwidth>)
    returns (unfinished: nat, i: nat)
    requires at < n <= peers.Length && used <= INCREMENT
    modifies peers
    ensures Turned(old(peers[..]), peers[..], at, n, unfinished, i, used)
    ensures first.Movable(dir) == old(first.Movable(dir))
    ensures ShapeOf(nodes) == old(ShapeOf(nodes))
    ensures LimitsOf(nodes, dir) == old(LimitsOf(nodes, dir))
            && LimitsOf(nodes, Other(dir)) == old(LimitsOf(nodes, Other(dir)))
  {
    if used != INCREMENT {
      peers[at], peers[n - 1] := peers[n - 1], peers[at];
      unfinished, i := n - 1, at;
    } else {
      unfinished, i := n, at + 1;
    }
  }

  // What one turn of the inner loop does to the round.
  lemma TurnRound(before: seq<PeerIo>, after: seq<PeerIo>, at: nat, n: nat, u: nat, i: nat, trace: seq<Io<Bandwidth>>,
                  io: Io<Bandwidth>, k: nat)
    requires Turned(before, after, at, n, u, i, io.used)
    requires Round(trace, LeavesOf(before), n, at, k) && io.chain != [] && io.chain[0] == before[at].bandwidth
    ensures Round(trace + [io], LeavesOf(after), u, i, k)
  {
    if io.used == INCREMENT {
      RoundFull(trace, io, LeavesOf(before), n, at, k);
    } else {
      LeavesSwapped(before, at, n - 1);
      RoundShort(trace, io, LeavesOf(before), n, at, k, LeavesOf(after));
    }
  }

  lemma LeavesSwapped(s: seq<PeerIo>, i: nat, j: nat)
    requires i < |s| && j < |s|
    ensures LeavesOf(Swapped(s, i, j)) == Swapped(LeavesOf(s), i, j)
  {
  }

  lemma TurnRoster(before: seq<PeerIo>, after: seq<PeerIo>, at: nat, n: nat, u: nat, i: nat, used: nat,
                   nodes: set<Bandwidth>, ios: set<PeerIo>)
    requires Turned(before, after, at, n, u, i, used) && Roster(before, nodes, ios)
    ensures Roster(after, nodes, ios) && multiset(after) == multiset(before)
    ensures at > 0 ==> before[0] != before[at]
  {
    assert at > 0 ==> LeavesOf(before)[0] != LeavesOf(before)[at];
    if used != INCREMENT {
      SameSet(before, after, at, n - 1);
      RosterPermuted(before, after, nodes, ios);
    }
  }

  // Flushes one peer.
  method FlushPeer(peer: PeerIo, dir: Dir, now: nat, ghost first: PeerIo, ghost nodes: set<Bandwidth>,
                   ghost ios: set<PeerIo>)
    returns (used: nat, ghost io: Io<Bandwidth>)
    requires Forest(ShapeOf(nodes)) && peer in ios && peer.bandwidth in nodes
    modifies nodes`up, nodes`down, peer`sendable, peer`receivable
    ensures ShapeOf(nodes) == old(ShapeOf(nodes))
    ensures io.chain != [] && io.chain[0] == peer.bandwidth && io.used == used <= INCREMENT
    ensures Moves(old(LimitsOf(nodes, dir)), io, LimitsOf(nodes, dir))
    ensures LimitsOf(nodes, Other(dir)) == old(LimitsOf(nodes, Other(dir)))
    ensures first.Movable(dir) == old(first.Movable(dir)) - if first == peer then used else 0
  {
    assert peer.bandwidth.chain != [] && peer.bandwidth.chain[0] == peer.bandwidth by {
      ChainFacts(peer.bandwidth, nodes);
    }
    used, io := peer.Flush(dir, INCREMENT, now, nodes);
  }

  lemma {:induction false} DistinctCountsOne<T>(s: seq<T>, x: T)
    requires Distinct(s)
    ensures multiset(s)[x] <= 1
  {
    if s != [] {
      var init := s[..|s| - 1];
      assert s == init + [s[|s| - 1]];
      DistinctCountsOne(init, x);
    }
  }

  lemma PermutedDistinct<T>(s: seq<T>, t: seq<T>)
    requires Distinct(s) && multiset(s) == multiset(t)
    ensures Distinct(t)
  {
    forall i, j | 0 <= i < j < |t|
      ensures t[i] != t[j]
    {
      assert t == t[..j] + t[j..];
      assert t[i] in t[..j] && t[j] in t[j..];
      DistinctCountsOne(s, t[i]);
    }
  }

  lemma RosterPermuted(s: seq<PeerIo>, t: seq<PeerIo>, nodes: set<Bandwidth>, ios: set<PeerIo>)
    requires Roster(s, nodes, ios) && multiset(s) == multiset(t)
    ensures Roster(t, nodes, ios)
  {
    forall p | p in t
      ensures p in s
    {
      assert p in multiset(t);
      assert p in multiset(s);
    }
    forall i, j | 0 <= i < j < |s|
      ensures s[i] != s[j]
    {
      assert LeavesOf(s)[i] != LeavesOf(s)[j];
    }
    PermutedDistinct(s, t);
    forall i, j | 0 <= i < j < |t|
      ensures t[i].bandwidth != t[j].bandwidth
    {
      assert t[i] in s && t[j] in s;
      var a :| 0 <= a < |s| && s[a] == t[i];
      var b :| 0 <= b < |s| && s[b] == t[j];
      assert LeavesOf(s)[a] != LeavesOf(s)[b];
    }
  }
}
