// tr_bandwidth::allocate() as a whole (libtransmission/bandwidth.cc): refill the
// tree, sort the peers by priority, run the round robins, enable what is left.
module Allocation {
  import opened Options
  import opened Budget
  import opened Forests
  import opened BandwidthTree
  import opened Scheduler

  // The budgets at the start of the period.
  ghost function StartLimits(bands: map<Bandwidth, (Band, Band)>, dir: Dir): map<Bandwidth, Limit> {
    map n | n in bands :: (if dir == Up then bands[n].0 else bands[n].1).Limit()
  }

  lemma LimitsAreStart(nodes: set<Bandwidth>, dir: Dir)
    ensures LimitsOf(nodes, dir) == StartLimits(BandsOf(nodes), dir)
  {
  }

  lemma {:induction false} LegalConcat<Id>(t: map<Id, Limit>, a: seq<Io<Id>>, b: seq<Io<Id>>)
    requires Legal(t, a) && Legal(After(t, a), b)
    ensures Legal(t, a + b) && After(t, a + b) == After(After(t, a), b)
  {
    if b == [] {
      assert a + b == a;
    } else {
      var init := b[..|b| - 1];
      LegalConcat(t, a, init);
      assert (a + b)[..|a + b| - 1] == a + init;
    }
  }

  // The priorities of some peers, by their nodes.
  ghost predicate Ranks(refs: seq<PeerIo>, pri: map<Bandwidth, int>)
    reads refs`priority
  {
    forall p :: p in refs ==> p.bandwidth in pri && pri[p.bandwidth] == p.priority
  }

  // The peers whose priority is one of `wanted`, in order.
  ghost function Matching(refs: seq<PeerIo>, pri: map<Bandwidth, int>, wanted: set<int>): seq<PeerIo> {
    if refs == [] then []
    else
      var last := refs[|refs| - 1];
      Matching(refs[..|refs| - 1], pri, wanted)
      + if last.bandwidth in pri && pri[last.bandwidth] in wanted then [last] else []
  }

  // The peers by priority: each list contains the one before it.
  method Partition(refs: seq<PeerIo>, ghost pri: map<Bandwidth, int>)
    returns (high: seq<PeerIo>, normal: seq<PeerIo>, low: seq<PeerIo>)
    requires Ranks(refs, pri)
    ensures high == Matching(refs, pri, {PRI_HIGH})
    ensures normal == Matching(refs, pri, {PRI_HIGH, PRI_NORMAL})
    ensures low == Matching(refs, pri, {PRI_HIGH, PRI_NORMAL, PRI_LOW})
  {
    high, normal, low := [], [], [];
    var i := 0;
    while i < |refs|
      invariant 0 <= i <= |refs|
      invariant high == Matching(refs[..i], pri, {PRI_HIGH})
      invariant normal == Matching(refs[..i], pri, {PRI_HIGH, PRI_NORMAL})
      invariant low == Matching(refs[..i], pri, {PRI_HIGH, PRI_NORMAL, PRI_LOW})
    {
      assert refs[..i + 1][..i] == refs[..i];
      var io := refs[i];
      if io.priority == PRI_HIGH {
        high, normal, low := high + [io], normal + [io], low + [io];
      } else if io.priority == PRI_NORMAL {
        normal, low := normal + [io], low + [io];
      } else if io.priority == PRI_LOW {
        low := low + [io];
      }
      i := i + 1;
    }
    assert refs[..i] == refs;
  }

  ghost predicate Wanted(p: PeerIo, pri: map<Bandwidth, int>, wanted: set<int>) {
    p.bandwidth in pri && pri[p.bandwidth] in wanted
  }

  lemma {:induction false} MatchingIsPart(refs: seq<PeerIo>, pri: map<Bandwidth, int>, wanted: set<int>)
    ensures forall p :: p in Matching(refs, pri, wanted) ==> p in refs && Wanted(p, pri, wanted)
    ensures forall p :: p in refs && Wanted(p, pri, wanted) ==> p in Matching(refs, pri, wanted)
  {
    if refs != [] {
      var init, last := refs[..|refs| - 1], refs[|refs| - 1];
      assert refs == init + [last];
      MatchingIsPart(init, pri, wanted);
    }
  }

  lemma {:induction false} MatchingDistinct(refs: seq<PeerIo>, pri: map<Bandwidth, int>, wanted: set<int>)
    requires Distinct(refs)
    ensures Distinct(Matching(refs, pri, wanted))
  {
    if refs != [] {
      var init, last := refs[..|refs| - 1], refs[|refs| - 1];
      MatchingDistinct(init, pri, wanted);
      MatchingIsPart(init, pri, wanted);
      assert last !in init;
    }
  }

  lemma {:induction false} MatchingAll(refs: seq<PeerIo>, pri: map<Bandwidth, int>, wanted: set<int>)
    requires forall p :: p in refs ==> Wanted(p, pri, wanted)
    ensures Matching(refs, pri, wanted) == refs
  {
    if refs != [] {
      var init, last := refs[..|refs| - 1], refs[|refs| - 1];
      assert refs == init + [last];
      MatchingAll(init, pri, wanted);
      assert Wanted(last, pri, wanted);
    }
  }

  lemma RosterPart(refs: seq<PeerIo>, part: seq<PeerIo>, nodes: set<Bandwidth>, ios: set<PeerIo>)
    requires Roster(refs, nodes, ios) && Distinct(part) && forall p :: p in part ==> p in refs
    ensures Roster(part, nodes, ios)
  {
    forall i, j | 0 <= i < j < |part|
      ensures part[i].bandwidth != part[j].bandwidth
    {
      assert part[i] in refs && part[j] in refs;
      var a :| 0 <= a < |refs| && refs[a] == part[i];
      var b :| 0 <= b < |refs| && refs[b] == part[j];
      assert LeavesOf(refs)[a] != LeavesOf(refs)[b];
    }
  }

  lemma RosterDistinct(refs: seq<PeerIo>, nodes: set<Bandwidth>, ios: set<PeerIo>)
    requires Roster(refs, nodes, ios)
    ensures Distinct(refs)
  {
    forall i, j | 0 <= i < j < |refs|
      ensures refs[i] != refs[j]
    {
      assert LeavesOf(refs)[i] != LeavesOf(refs)[j];
    }
  }

  lemma MatchingRoster(refs: seq<PeerIo>, pri: map<Bandwidth, int>, wanted: set<int>, nodes: set<Bandwidth>,
                       ios: set<PeerIo>)
    requires Roster(refs, nodes, ios)
    ensures Roster(Matching(refs, pri, wanted), nodes, ios)
  {
    RosterDistinct(refs, nodes, ios);
    MatchingIsPart(refs, pri, wanted);
    MatchingDistinct(refs, pri, wanted);
    RosterPart(refs, Matching(refs, pri, wanted), nodes, ios);
  }

  // high within normal within low
  lemma ListsNest(refs: seq<PeerIo>, pri: map<Bandwidth, int>)
    ensures forall p :: p in Matching(refs, pri, {1}) <==> p in Matching(refs, pri, {1, 0}) && Wanted(p, pri, {1})
    ensures forall p :: p in Matching(refs, pri, {1, 0})
                        <==> p in Matching(refs, pri, {1, 0, -1}) && !Wanted(p, pri, {-1})
  {
    MatchingIsPart(refs, pri, {1});
    MatchingIsPart(refs, pri, {1, 0});
    MatchingIsPart(refs, pri, {1, 0, -1});
  }

  // Every node has one of the four priorities, and a peer's own node is no group.
  ghost predicate ProperPriorities(pri: map<Bandwidth, int>, peers: map<Bandwidth, PeerIo>) {
    && (forall n :: n in pri ==> pri[n] in {-1, 0, 1, 127})
    && (forall n :: n in peers ==> n in pri && pri[n] <= 1)
  }

  lemma {:induction false} PathPriorityProper(priorities: map<Bandwidth, int>, chain: seq<Bandwidth>, top: Bandwidth)
    requires forall n :: n in priorities ==> priorities[n] in {PRI_LOW, PRI_NORMAL, PRI_HIGH, PRI_MAX}
    ensures PathPriority(priorities, chain, top, PRI_MAX) in {PRI_LOW, PRI_NORMAL, PRI_HIGH, PRI_MAX}
    ensures chain != [] && chain[0] in priorities
            ==> PathPriority(priorities, chain, top, PRI_MAX) <= priorities[chain[0]]
  {
    if chain != [] {
      PathPriorityProper(priorities, chain[1..], top);
    }
  }

  lemma {:induction false} PeersIn(peers: map<Bandwidth, PeerIo>, ns: seq<Bandwidth>)
    requires forall n :: n in peers ==> peers[n].bandwidth == n
    ensures forall p :: p in PeersOf(peers, ns)
                        <==> p.bandwidth in ns && p.bandwidth in peers && peers[p.bandwidth] == p
  {
    if ns != [] {
      var init, last := ns[..|ns| - 1], ns[|ns| - 1];
      assert ns == init + [last];
      PeersIn(peers, init);
    }
  }

  // The budgets of both directions were spent by these traces.
  ghost predicate Spent(tUp: map<Bandwidth, Limit>, tDown: map<Bandwidth, Limit>, nodes: set<Bandwidth>,
                        up: seq<Io<Bandwidth>>, down: seq<Io<Bandwidth>>)
    reads nodes`up, nodes`down
  {
    Played(tUp, LimitsOf(nodes, Up), up) && Played(tDown, LimitsOf(nodes, Down), down)
  }

  // One of the lists and what its two round robins moved.
  datatype Phase = Phase(peers: seq<PeerIo>, up: seq<Io<Bandwidth>>, down: seq<Io<Bandwidth>>)

  ghost predicate Finished(phase: Phase) {
    RoundRobin(phase.up, phase.peers) && RoundRobin(phase.down, phase.peers)
  }

  // Both round robins over one of the lists.
  method RunPhases(peers: seq<PeerIo>, now: nat, ghost tUp: map<Bandwidth, Limit>, ghost tDown: map<Bandwidth, Limit>,
                   ghost up0: seq<Io<Bandwidth>>, ghost down0: seq<Io<Bandwidth>>, ghost nodes: set<Bandwidth>,
                   ghost ios: set<PeerIo>)
    returns (ghost phase: Phase)
    requires Forest(ShapeOf(nodes)) && Roster(peers, nodes, ios) && Spent(tUp, tDown, nodes, up0, down0)
    modifies nodes`up, nodes`down, ios`sendable, ios`receivable
    ensures phase.peers == peers && Finished(phase)
    ensures Spent(tUp, tDown, nodes, up0 + phase.up, down0 + phase.down)
    ensures ShapeOf(nodes) == old(ShapeOf(nodes))
  {
    ghost var up, down;
    up := RunPhase(peers, Up, now, nodes, ios);
    LegalConcat(tUp, up0, up);
    down := RunPhase(peers, Down, now, nodes, ios);
    LegalConcat(tDown, down0, down);
    phase := Phase(peers, up, down);
  }

  method RunPhase(peers: seq<PeerIo>, dir: Dir, now: nat, ghost nodes: set<Bandwidth>, ghost ios: set<PeerIo>)
    returns (ghost trace: seq<Io<Bandwidth>>)
    requires Forest(ShapeOf(nodes)) && Roster(peers, nodes, ios)
    modifies nodes`up, nodes`down, ios`sendable, ios`receivable
    ensures RoundRobin(trace, peers)
    ensures Played(old(LimitsOf(nodes, dir)), LimitsOf(nodes, dir), trace)
    ensures LimitsOf(nodes, Other(dir)) == old(LimitsOf(nodes, Other(dir)))
    ensures ShapeOf(nodes) == old(ShapeOf(nodes))
  {
    var list := ListOf(peers, nodes);
    trace := PhaseOne(list, dir, now, nodes, ios);
  }

  method ListOf(peers: seq<PeerIo>, ghost nodes: set<Bandwidth>) returns (list: array<PeerIo>)
    ensures fresh(list) && list[..] == peers
    ensures LimitsOf(nodes, Up) == old(LimitsOf(nodes, Up)) && LimitsOf(nodes, Down) == old(LimitsOf(nodes, Down))
    ensures ShapeOf(nodes) == old(ShapeOf(nodes))
  {
    list := new PeerIo[|peers|](i requires 0 <= i < |peers| => peers[i]);
  }

  // flush_outgoing_protocol_msgs() on every peer; how many bytes of protocol
  // messages are waiting is arbitrary.
  method FlushProtocol(refs: seq<PeerIo>, now: nat, ghost tUp: map<Bandwidth, Limit>,
                       ghost tDown: map<Bandwidth, Limit>, ghost nodes: set<Bandwidth>, ghost ios: set<PeerIo>)
    returns (ghost up: seq<Io<Bandwidth>>)
    requires Forest(ShapeOf(nodes)) && Roster(refs, nodes, ios)
    requires LimitsOf(nodes, Up) == tUp && LimitsOf(nodes, Down) == tDown
    modifies nodes`up, nodes`down, ios`sendable, ios`receivable
    ensures Spent(tUp, tDown, nodes, up, [])
    ensures ShapeOf(nodes) == old(ShapeOf(nodes))
  {
    up := [];
    var i := 0;
    while i < |refs|
      invariant 0 <= i <= |refs|
      invariant Spent(tUp, tDown, nodes, up, [])
      invariant ShapeOf(nodes) == old(ShapeOf(nodes))
    {
      up := FlushOne(refs[i], now, tUp, tDown, up, nodes, ios);
      i := i + 1;
    }
  }

  method FlushOne(io: PeerIo, now: nat, ghost tUp: map<Bandwidth, Limit>, ghost tDown: map<Bandwidth, Limit>,
                  ghost up0: seq<Io<Bandwidth>>, ghost nodes: set<Bandwidth>, ghost ios: set<PeerIo>)
    returns (ghost up: seq<Io<Bandwidth>>)
    requires Forest(ShapeOf(nodes)) && io in ios && io.bandwidth in nodes && Spent(tUp, tDown, nodes, up0, [])
    modifies nodes`up, nodes`down, ios`sendable, ios`receivable
    ensures Spent(tUp, tDown, nodes, up, [])
    ensures ShapeOf(nodes) == old(ShapeOf(nodes))
  {
    var waiting: nat := *;
    var used;
    ghost var moved;
    ghost var u := LimitsOf(nodes, Up);
    ChainFacts(io.bandwidth, nodes);
    used, moved := io.Flush(Up, waiting, now, nodes);
    PlayedSnoc(tUp, u, up0, moved, LimitsOf(nodes, Up));
    up := up0 + [moved];
  }

  lemma {:induction false} PeersRoster(peers: map<Bandwidth, PeerIo>, ns: seq<Bandwidth>, nodes: set<Bandwidth>,
                                       ios: set<PeerIo>)
    requires Distinct(ns)
    requires forall n :: n in peers ==> n in nodes && peers[n].bandwidth == n && peers[n] in ios
    ensures Roster(PeersOf(peers, ns), nodes, ios)
  {
    if ns != [] {
      var init, last := ns[..|ns| - 1], ns[|ns| - 1];
      assert ns == init + [last];
      PeersRoster(peers, init, nodes, ios);
      PeersIn(peers, init);
      if last in peers {
        assert last !in init;
        assert LeavesOf(PeersOf(peers, ns)) == LeavesOf(PeersOf(peers, init)) + [last];
        forall j | 0 <= j < |PeersOf(peers, init)|
          ensures LeavesOf(PeersOf(peers, init))[j] != last
        {
          assert PeersOf(peers, init)[j] in PeersOf(peers, init);
        }
      }
    }
  }

  // allocate_bandwidth() from the root.
  method Gather(root: Bandwidth, periodMsec: nat, ghost nodes: set<Bandwidth>, ghost ios: set<PeerIo>, ghost t: Tree,
                ghost b: Books)
    returns (refs: seq<PeerIo>)
    requires t == TreeOf(nodes) && b == BooksOf(nodes, ios) && Forest(t.shape) && root in nodes
             && OwnPeers(t.peers, ios)
    modifies nodes`up, nodes`down, ios`priority
    ensures TreeOf(nodes) == t && refs == PeersOf(t.peers, Preorder(t.shape, root))
    ensures BooksOf(nodes, ios) == Allocated(t, b, Subtree(t.shape, root), root, PRI_MAX, periodMsec)
  {
    ForestWalkable(t);
    AllocateMeaning(t, b, root, PRI_MAX, periodMsec, []);
    refs := root.AllocateBandwidth(PRI_MAX, periodMsec, [], nodes, ios, t, b);
  }

  lemma GatheredFacts(refs: seq<PeerIo>, root: Bandwidth, nodes: set<Bandwidth>, ios: set<PeerIo>)
    requires Forest(ShapeOf(nodes)) && root in nodes && OwnPeers(PeerMap(nodes), ios)
    requires refs == PeersOf(PeerMap(nodes), Preorder(ShapeOf(nodes), root))
    ensures Roster(refs, nodes, ios) && Ranks(refs, PeerPriorities(nodes, ios))
  {
    PreorderIsSubtree(ShapeOf(nodes), root);
    PeersRoster(PeerMap(nodes), Preorder(ShapeOf(nodes), root), nodes, ios);
    PeersIn(PeerMap(nodes), Preorder(ShapeOf(nodes), root));
  }

  // The first step of allocate(), and what it leaves to the later ones.
  method Collect(root: Bandwidth, periodMsec: nat, ghost nodes: set<Bandwidth>, ghost ios: set<PeerIo>, ghost t: Tree,
                 ghost b: Books)
    returns (refs: seq<PeerIo>)
    requires t == TreeOf(nodes) && b == BooksOf(nodes, ios) && Forest(t.shape) && root in nodes
             && OwnPeers(t.peers, ios)
    modifies nodes`up, nodes`down, ios`priority
    ensures ShapeOf(nodes) == t.shape && refs == PeersOf(t.peers, Preorder(t.shape, root)) && Roster(refs, nodes, ios)
    ensures Ranks(refs, PeerPriorities(nodes, ios))
    ensures PeerPriorities(nodes, ios) == Gathered(t, b, root)
    ensures var bands := Refill(b.bands, Subtree(t.shape, root), periodMsec);
            LimitsOf(nodes, Up) == StartLimits(bands, Up) && LimitsOf(nodes, Down) == StartLimits(bands, Down)
  {
    refs := Gather(root, periodMsec, nodes, ios, t, b);
    GatheredFacts(refs, root, nodes, ios);
    LimitsAreStart(nodes, Up);
    LimitsAreStart(nodes, Down);
  }

  // Every peer below the root has the lowest priority on its way up.
  ghost function Gathered(t: Tree, b: Books, root: Bandwidth): map<Bandwidth, int>
    requires Forest(t.shape) && root in t.shape.chain
  {
    Prioritize(b.peerPriorities, Subtree(t.shape, root), t.shape.chain, t.priorities, root, 127)
  }

  // What enabling peers leaves alone.
  datatype Kept = Kept(shape: Shape<Bandwidth>, up: map<Bandwidth, Limit>, down: map<Bandwidth, Limit>,
                       priorities: map<Bandwidth, int>)

  ghost function KeptOf(nodes: set<Bandwidth>, ios: set<PeerIo>): Kept
    reads nodes, ios`priority
  {
    Kept(ShapeOf(nodes), LimitsOf(nodes, Up), LimitsOf(nodes, Down), PeerPriorities(nodes, ios))
  }

  // Whether a peer of this node has bandwidth left to send and to receive.
  ghost function Leftover(k: Kept, n: Bandwidth): (bool, bool)
    requires n in k.shape.chain
  {
    (HasLeft(k.up, k.shape.chain[n]), HasLeft(k.down, k.shape.chain[n]))
  }

  ghost predicate EnabledByLeftover(p: PeerIo, k: Kept)
    reads p`sendEnabled, p`receiveEnabled
  {
    p.bandwidth in k.shape.chain && (p.sendEnabled, p.receiveEnabled) == Leftover(k, p.bandwidth)
  }

  ghost predicate EnabledUpTo(refs: seq<PeerIo>, i: nat, k: Kept)
    requires i <= |refs|
    reads refs`sendEnabled, refs`receiveEnabled
  {
    forall j :: 0 <= j < i ==> EnabledByLeftover(refs[j], k)
  }

  // The second phase of I/O: on-demand I/O for peers with bandwidth left.
  method EnableLeftover(refs: seq<PeerIo>, ghost nodes: set<Bandwidth>, ghost ios: set<PeerIo>)
    requires Forest(ShapeOf(nodes)) && Distinct(refs)
    requires forall p :: p in refs ==> p in ios && p.bandwidth in nodes
    modifies ios`sendEnabled, ios`receiveEnabled
    ensures KeptOf(nodes, ios) == old(KeptOf(nodes, ios))
    ensures EnabledUpTo(refs, |refs|, KeptOf(nodes, ios))
  {
    ghost var k := KeptOf(nodes, ios);
    var i := 0;
    while i < |refs|
      invariant 0 <= i <= |refs|
      invariant KeptOf(nodes, ios) == k && EnabledUpTo(refs, i, k)
    {
      EnablePeer(refs[i], refs, i, k, nodes, ios);
      i := i + 1;
    }
  }

  method EnablePeer(io: PeerIo, ghost refs: seq<PeerIo>, ghost i: nat, ghost k: Kept, ghost nodes: set<Bandwidth>,
                    ghost ios: set<PeerIo>)
    requires Forest(ShapeOf(nodes)) && KeptOf(nodes, ios) == k
    requires Distinct(refs) && i < |refs| && io == refs[i] && io.bandwidth in nodes && EnabledUpTo(refs, i, k)
    modifies io`sendEnabled, io`receiveEnabled
    ensures KeptOf(nodes, ios) == k && EnabledUpTo(refs, i + 1, k)
  {
    var send, receive := io.HasBandwidthLeft(Up, nodes), io.HasBandwidthLeft(Down, nodes);
    io.SetEnabled(send, receive);
  }

  // Then the last list is all peers: none has a priority the switch does not know.
  lemma LowIsAll(t: Tree, b: Books, root: Bandwidth, refs: seq<PeerIo>, ios: set<PeerIo>)
    requires Forest(t.shape) && root in t.shape.chain && t.priorities.Keys == t.shape.chain.Keys
    requires b.peerPriorities.Keys == t.peers.Keys && OwnPeers(t.peers, ios)
    requires refs == PeersOf(t.peers, Preorder(t.shape, root))
    ensures ProperPriorities(t.priorities, t.peers) ==> ListsBy(refs, Gathered(t, b, root))[2] == refs
  {
    if ProperPriorities(t.priorities, t.peers) {
      var pri := Gathered(t, b, root);
      PreorderIsSubtree(t.shape, root);
      PeersIn(t.peers, Preorder(t.shape, root));
      forall p | p in refs
        ensures Wanted(p, pri, {PRI_HIGH, PRI_NORMAL, PRI_LOW})
      {
        ChainInside(t.shape, p.bandwidth);
        PathPriorityProper(t.priorities, t.shape.chain[p.bandwidth], root);
      }
      MatchingAll(refs, pri, {PRI_HIGH, PRI_NORMAL, PRI_LOW});
    }
  }

  // What the phases moved, in order.
  ghost function UpOf(phases: seq<Phase>): seq<Io<Bandwidth>> {
    if phases == [] then [] else UpOf(phases[..|phases| - 1]) + phases[|phases| - 1].up
  }

  ghost function DownOf(phases: seq<Phase>): seq<Io<Bandwidth>> {
    if phases == [] then [] else DownOf(phases[..|phases| - 1]) + phases[|phases| - 1].down
  }

  ghost predicate AllFinished(phases: seq<Phase>, lists: seq<seq<PeerIo>>) {
    |phases| == |lists| && forall j :: 0 <= j < |phases| ==> phases[j].peers == lists[j] && Finished(phases[j])
  }

  ghost function ListsBy(refs: seq<PeerIo>, pri: map<Bandwidth, int>): seq<seq<PeerIo>> {
    [Matching(refs, pri, {1}), Matching(refs, pri, {1, 0}), Matching(refs, pri, {1, 0, -1})]
  }

  // allocate(). Protocol messages go first; then each list plays one fair round
  // robin up and one down.
  method Allocate(root: Bandwidth, periodMsec: nat, now: nat, ghost nodes: set<Bandwidth>, ghost ios: set<PeerIo>,
                  ghost t: Tree, ghost b: Books)
    returns (refs: seq<PeerIo>, ghost protocol: seq<Io<Bandwidth>>, ghost phases: seq<Phase>)
    requires t == TreeOf(nodes) && b == BooksOf(nodes, ios) && Forest(t.shape) && root in nodes
             && OwnPeers(t.peers, ios)
    modifies nodes`up, nodes`down, ios
    ensures refs == PeersOf(t.peers, Preorder(t.shape, root)) && PeerPriorities(nodes, ios) == Gathered(t, b, root)
    ensures AllFinished(phases, ListsBy(refs, Gathered(t, b, root)))
    ensures ProperPriorities(t.priorities, t.peers) ==> ListsBy(refs, Gathered(t, b, root))[2] == refs
    ensures var bands := Refill(b.bands, Subtree(t.shape, root), periodMsec);
            Spent(StartLimits(bands, Up), StartLimits(bands, Down), nodes, protocol + UpOf(phases), DownOf(phases))
    ensures forall p :: p in refs ==> EnabledByLeftover(p, KeptOf(nodes, ios))
  {
    LowIsAll(t, b, root, PeersOf(t.peers, Preorder(t.shape, root)), ios);
    refs := Collect(root, periodMsec, nodes, ios, t, b);
    ghost var pri := Gathered(t, b, root);
    protocol, phases := PlayPeriod(refs, now, LimitsOf(nodes, Up), LimitsOf(nodes, Down), pri, nodes, ios);
    RosterDistinct(refs, nodes, ios);
    EnableLeftover(refs, nodes, ios);
  }

  // Everything between collecting the peers and enabling the leftover.
  method PlayPeriod(refs: seq<PeerIo>, now: nat, ghost tUp: map<Bandwidth, Limit>, ghost tDown: map<Bandwidth, Limit>,
                    ghost pri: map<Bandwidth, int>, ghost nodes: set<Bandwidth>, ghost ios: set<PeerIo>)
    returns (ghost protocol: seq<Io<Bandwidth>>, ghost phases: seq<Phase>)
    requires Forest(ShapeOf(nodes)) && Roster(refs, nodes, ios) && Ranks(refs, pri) && PeerPriorities(nodes, ios) == pri
    requires LimitsOf(nodes, Up) == tUp && LimitsOf(nodes, Down) == tDown
    modifies nodes`up, nodes`down, ios`sendable, ios`receivable
    ensures AllFinished(phases, ListsBy(refs, pri))
    ensures Spent(tUp, tDown, nodes, protocol + UpOf(phases), DownOf(phases))
    ensures ShapeOf(nodes) == old(ShapeOf(nodes)) && PeerPriorities(nodes, ios) == pri
  {
    var lists := Lists(refs, pri, nodes, ios);
    protocol, phases := PlayLists(refs, lists, now, tUp, tDown, nodes, ios);
  }

  // The protocol messages, then the round robins.
  method PlayLists(refs: seq<PeerIo>, lists: seq<seq<PeerIo>>, now: nat, ghost tUp: map<Bandwidth, Limit>,
                   ghost tDown: map<Bandwidth, Limit>, ghost nodes: set<Bandwidth>, ghost ios: set<PeerIo>)
    returns (ghost protocol: seq<Io<Bandwidth>>, ghost phases: seq<Phase>)
    requires Forest(ShapeOf(nodes)) && Roster(refs, nodes, ios) && (forall l :: l in lists ==> Roster(l, nodes, ios))
    requires LimitsOf(nodes, Up) == tUp && LimitsOf(nodes, Down) == tDown
    modifies nodes`up, nodes`down, ios`sendable, ios`receivable
    ensures AllFinished(phases, lists)
    ensures Spent(tUp, tDown, nodes, protocol + UpOf(phases), DownOf(phases))
    ensures ShapeOf(nodes) == old(ShapeOf(nodes)) && PeerPriorities(nodes, ios) == old(PeerPriorities(nodes, ios))
  {
    protocol := FlushProtocol(refs, now, tUp, tDown, nodes, ios);
    phases := RunLists(lists, now, tUp, tDown, protocol, nodes, ios);
  }

  // The loop over the three lists.
  method RunLists(lists: seq<seq<PeerIo>>, now: nat, ghost tUp: map<Bandwidth, Limit>,
                  ghost tDown: map<Bandwidth, Limit>, ghost protocol: seq<Io<Bandwidth>>,
                  ghost nodes: set<Bandwidth>, ghost ios: set<PeerIo>)
    returns (ghost phases: seq<Phase>)
    requires Forest(ShapeOf(nodes)) && (forall l :: l in lists ==> Roster(l, nodes, ios))
    requires Spent(tUp, tDown, nodes, protocol, [])
    modifies nodes`up, nodes`down, ios`sendable, ios`receivable
    ensures AllFinished(phases, lists)
    ensures Spent(tUp, tDown, nodes, protocol + UpOf(phases), DownOf(phases))
    ensures ShapeOf(nodes) == old(ShapeOf(nodes))
  {
    phases := [];
    assert protocol + UpOf(phases) == protocol;
    var i := 0;
    while i < |lists|
      invariant 0 <= i <= |lists| && AllFinished(phases, lists[..i])
      invariant Spent(tUp, tDown, nodes, protocol + UpOf(phases), DownOf(phases))
      invariant ShapeOf(nodes) == old(ShapeOf(nodes))
    {
      ghost var phase := RunPhases(lists[i], now, tUp, tDown, protocol + UpOf(phases), DownOf(phases), nodes, ios);
      OneMorePhase(protocol, phases, phase);
      phases := phases + [phase];
      i := i + 1;
    }
    assert lists[..i] == lists;
  }

  lemma OneMorePhase(protocol: seq<Io<Bandwidth>>, phases: seq<Phase>, phase: Phase)
    ensures protocol + UpOf(phases + [phase]) == protocol + UpOf(phases) + phase.up
    ensures DownOf(phases + [phase]) == DownOf(phases) + phase.down
  {
    assert (phases + [phase])[..|phases|] == phases;
  }

  method Lists(refs: seq<PeerIo>, ghost pri: map<Bandwidth, int>, ghost nodes: set<Bandwidth>, ghost ios: set<PeerIo>)
    returns (lists: seq<seq<PeerIo>>)
    requires Roster(refs, nodes, ios) && Ranks(refs, pri)
    ensures lists == ListsBy(refs, pri)
    ensures forall l :: l in lists ==> Roster(l, nodes, ios)
  {
    var high, normal, low := Partition(refs, pri);
    MatchingRoster(refs, pri, {PRI_HIGH}, nodes, ios);
    MatchingRoster(refs, pri, {PRI_HIGH, PRI_NORMAL}, nodes, ios);
    MatchingRoster(refs, pri, {PRI_HIGH, PRI_NORMAL, PRI_LOW}, nodes, ios);
    lists := [high, normal, low];
  }

  // Main result for a period, at every limited node below the root at once:
  // what is left plus the bytes moved by leaves bound by the node stays within
  // desired speed times period.
  lemma PeriodIsSafe(bands: map<Bandwidth, (Band, Band)>, subtree: set<Bandwidth>, periodMsec: nat, dir: Dir,
                     ios: seq<Io<Bandwidth>>, n: Bandwidth)
    requires n in bands && n in subtree
    requires var start := StartLimits(Refill(bands, subtree, periodMsec), dir);
             Legal(start, ios) && start[n].limited
    ensures var start := StartLimits(Refill(bands, subtree, periodMsec), dir);
            var band := if dir == Up then bands[n].0 else bands[n].1;
            && (forall io :: io in ios ==> Covers(start, io.chain))
            && BoundBytes(start, ios, n) + After(start, ios)[n].bytesLeft <= band.desiredSpeed * periodMsec / 1000
            && SubtreeBytes(ios, n) + After(start, ios)[n].bytesLeft >= band.desiredSpeed * periodMsec / 1000
  {
    BudgetSafety(StartLimits(Refill(bands, subtree, periodMsec), dir), ios, n);
  }
}
