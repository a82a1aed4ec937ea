// The tree of bandwidth limiters (libtransmission/bandwidth.cc): re-linking it,
// and the recursive walks up (clamp, notify) and down (allocate_bandwidth).
// Forests says what the links mean, Budget what the walks up compute.
module BandwidthTree {
  import opened Options
  import opened Budget
  import opened Forests
  import opened Numbers
  import RateMeter

  datatype Dir = Up | Down

  function Other(dir: Dir): Dir {
    if dir == Up then Down else Up
  }

  // The raw and piece meters appear as the transfers they were notified of;
  // RateMeter says what speed each of them reports.
  datatype Band = Band(limited: bool, honorsParent: bool, bytesLeft: nat, desiredSpeed: nat,
                       raw: seq<RateMeter.Transfer>, piece: seq<RateMeter.Transfer>)
  {
    function Limit(): Limit {
      Budget.Limit(limited, honorsParent, bytesLeft)
    }

    function Notified(bytes: nat, isPiece: bool, now: nat): Band {
      if isPiece then this.(piece := piece + [RateMeter.Transfer(now, bytes)])
      else this.(raw := raw + [RateMeter.Transfer(now, bytes)], bytesLeft := Charged(Limit(), bytes).bytesLeft)
    }

    function Refilled(periodMsec: nat): Band {
      if limited then this.(bytesLeft := desiredSpeed * periodMsec / 1000) else this
    }
  }

  // Piece bytes only go to the piece meter; raw bytes go to the raw meter and
  // lower the budget of a limited band, down to zero.
  predicate Hears(was: Band, after: Band, bytes: nat, isPiece: bool, now: nat) {
    && after.limited == was.limited && after.honorsParent == was.honorsParent && after.desiredSpeed == was.desiredSpeed
    && after.piece == was.piece + (if isPiece then [RateMeter.Transfer(now, bytes)] else [])
    && after.raw == was.raw + (if isPiece then [] else [RateMeter.Transfer(now, bytes)])
    && after.bytesLeft == if isPiece || !was.limited then was.bytesLeft
                          else if was.bytesLeft > bytes then was.bytesLeft - bytes else 0
  }

  lemma NotifiedHears(was: Band, bytes: nat, isPiece: bool, now: nat)
    ensures Hears(was, was.Notified(bytes, isPiece, now), bytes, isPiece, now)
  {
  }

  const FRESH_BAND := Band(false, true, 0, 0, [], [])

  const PRI_LOW := -1
  const PRI_NORMAL := 0
  const PRI_HIGH := 1
  const PRI_MAX := 127

  // A connection to a peer (libtransmission/peer-io.cc). `sendable` and
  // `receivable` are the bytes its buffers and socket can still move.
  class PeerIo {
    const bandwidth: Bandwidth
    var priority: int
    var sendable: nat
    var receivable: nat
    var sendEnabled: bool
    var receiveEnabled: bool

    constructor (bandwidth: Bandwidth)
      ensures this.bandwidth == bandwidth && priority == PRI_NORMAL
    {
      this.bandwidth := bandwidth;
      priority := PRI_NORMAL;
    }

    function Movable(dir: Dir): nat
      reads `sendable, `receivable
    {
      if dir == Up then sendable else receivable
    }

    // flush(): moves what the socket takes, never more than the clamp allows,
    // and charges it. How much the socket takes is arbitrary.
    method Flush(dir: Dir, limit: nat, now: nat, ghost nodes: set<Bandwidth>)
      returns (used: nat, ghost io: Io<Bandwidth>)
      requires Forest(ShapeOf(nodes)) && bandwidth in nodes
      modifies nodes`up, nodes`down, this`sendable, this`receivable
      ensures io.chain == bandwidth.chain && io.used == used <= limit
      ensures Fits(old(LimitsOf(nodes, dir)), io)
      ensures LimitsOf(nodes, dir) == Charge(old(LimitsOf(nodes, dir)), bandwidth.chain, used)
      ensures LimitsOf(nodes, Other(dir)) == old(LimitsOf(nodes, Other(dir)))
      ensures Movable(dir) == old(Movable(dir)) - used
      ensures Movable(Other(dir)) == old(Movable(Other(dir)))
    {
      var movable := Movable(dir);
      var want := if dir == Up then Min(limit, movable) else limit;
      used, io := bandwidth.MoveClamped(dir, want, movable, now, nodes);
      SetMovable(dir, movable - used, nodes);
    }

    // has_bandwidth_left()
    function HasBandwidthLeft(dir: Dir, ghost nodes: set<Bandwidth>): (has: bool)
      requires Forest(ShapeOf(nodes)) && bandwidth in nodes
      reads nodes
      ensures has == HasLeft(LimitsOf(nodes, dir), bandwidth.chain)
    {
      bandwidth.Clamp(dir, 1024, nodes) > 0
    }

    // set_enabled() for both directions
    method SetEnabled(send: bool, receive: bool)
      modifies this`sendEnabled, this`receiveEnabled
      ensures sendEnabled == send && receiveEnabled == receive
    {
      sendEnabled, receiveEnabled := send, receive;
    }

    method SetMovable(dir: Dir, left: nat, ghost nodes: set<Bandwidth>)
      modifies this`sendable, this`receivable
      ensures Movable(dir) == left && Movable(Other(dir)) == old(Movable(Other(dir)))
      ensures LimitsOf(nodes, Up) == old(LimitsOf(nodes, Up)) && LimitsOf(nodes, Down) == old(LimitsOf(nodes, Down))
    {
      if dir == Up {
        sendable := left;
      } else {
        receivable := left;
      }
    }
  }

  class Bandwidth {
    var up: Band
    var down: Band
    var children: seq<Bandwidth>
    var parent: Bandwidth?
    var peer: PeerIo?
    var priority: int
    // This node and its ancestors, up to the root.
    ghost var chain: seq<Bandwidth>

    function BandOf(dir: Dir): Band
      reads `up, `down
    {
      if dir == Up then up else down
    }

    constructor (isGroup: bool)
      ensures parent == null && children == [] && peer == null && chain == [this]
      ensures priority == if isGroup then PRI_MAX else PRI_NORMAL
      ensures up == down == FRESH_BAND
    {
      up, down := FRESH_BAND, FRESH_BAND;
      children, parent, peer := [], null, null;
      priority := if isGroup then PRI_MAX else PRI_NORMAL;
      chain := [this];
    }

    // ----- walking up

    // clamp()
    function Clamp(dir: Dir, n: nat, ghost nodes: set<Bandwidth>): (r: nat)
      requires Forest(ShapeOf(nodes)) && this in nodes
      reads nodes
      ensures Covers(LimitsOf(nodes, dir), chain) && r == Budget.Clamp(LimitsOf(nodes, dir), chain, n)
      decreases |chain|
    {
      ChainFacts(this, nodes);
      var band := BandOf(dir);
      var m := if band.limited then Min(n, band.bytesLeft) else n;
      if parent != null && band.honorsParent && m > 0 then
        assert chain[1..] == parent.chain;
        parent.Clamp(dir, m, nodes)
      else
        assert parent == null ==> chain[1..] == [];
        m
    }

    // notify_bandwidth_consumed(): this node and every ancestor hear of the
    // bytes exactly once, and no other node does.
    method NotifyConsumed(dir: Dir, bytes: nat, isPiece: bool, now: nat, ghost nodes: set<Bandwidth>)
      requires Forest(ShapeOf(nodes)) && this in nodes
      modifies nodes`up, nodes`down
      ensures forall x :: x in nodes ==>
                var was := old(x.BandOf(dir));
                x.BandOf(dir) == if x in chain then was.Notified(bytes, isPiece, now) else was
      ensures forall x :: x in nodes ==> x.BandOf(Other(dir)) == old(x.BandOf(Other(dir)))
      decreases |chain|
    {
      ChainFacts(this, nodes);
      if dir == Up {
        up := up.Notified(bytes, isPiece, now);
      } else {
        down := down.Notified(bytes, isPiece, now);
      }
      if parent != null {
        assert chain == [this] + parent.chain;
        parent.NotifyConsumed(dir, bytes, isPiece, now, nodes);
      }
    }

    // What notifying raw bytes does to the budgets.
    method ConsumeRaw(dir: Dir, bytes: nat, now: nat, ghost nodes: set<Bandwidth>)
      requires Forest(ShapeOf(nodes)) && this in nodes
      requires Covers(LimitsOf(nodes, dir), chain)
      modifies nodes`up, nodes`down
      ensures LimitsOf(nodes, dir) == Charge(old(LimitsOf(nodes, dir)), chain, bytes)
      ensures LimitsOf(nodes, Other(dir)) == old(LimitsOf(nodes, Other(dir)))
    {
      ghost var t := LimitsOf(nodes, dir);
      assert Distinct(chain) by {
        ChainFacts(this, nodes);
      }
      NotifyConsumed(dir, bytes, false, now, nodes);
      ghost var u := LimitsOf(nodes, dir);
      ChargePointwise(t, u, chain, bytes);
    }

    // Asks clamp(), lets the socket move what it likes of that, and charges it.
    method MoveClamped(dir: Dir, want: nat, movable: nat, now: nat, ghost nodes: set<Bandwidth>)
      returns (used: nat, ghost io: Io<Bandwidth>)
      requires Forest(ShapeOf(nodes)) && this in nodes
      modifies nodes`up, nodes`down
      ensures used <= want && used <= movable && io == Io(chain, want, used)
      ensures Fits(old(LimitsOf(nodes, dir)), io)
      ensures LimitsOf(nodes, dir) == Charge(old(LimitsOf(nodes, dir)), chain, used)
      ensures LimitsOf(nodes, Other(dir)) == old(LimitsOf(nodes, Other(dir)))
    {
      ChainFacts(this, nodes);
      ClampAtMost(LimitsOf(nodes, dir), chain, want);
      var most := Min(Clamp(dir, want, nodes), movable);
      used :| 0 <= used <= most;
      io := Io(chain, want, used);
      ConsumeRaw(dir, used, now, nodes);
    }

    // ----- walking down

    // allocate_bandwidth(). AllocateSpec follows the source's steps on values;
    // AllocateMeaning says what they come to.
    method AllocateBandwidth(parentPriority: int, periodMsec: nat, peerPool: seq<PeerIo>,
                             ghost nodes: set<Bandwidth>, ghost ios: set<PeerIo>, ghost t: Tree, ghost b: Books)
      returns (pool: seq<PeerIo>)
      requires t == TreeOf(nodes) && b == BooksOf(nodes, ios) && Walkable(t) && this in nodes && OwnPeers(t.peers, ios)
      modifies nodes`up, nodes`down, ios`priority
      ensures TreeOf(nodes) == t
      ensures (BooksOf(nodes, ios), pool) == AllocateSpec(t, b, this, parentPriority, periodMsec, peerPool)
      decreases |t.shape.chain| - |t.shape.chain[this]|, 2
    {
      var lowest := Min(parentPriority, priority);
      pool := Visit(lowest, periodMsec, peerPool, nodes, ios, t, b);
      pool := AllocateChildren(lowest, periodMsec, pool, nodes, ios, t, VisitSpec(t, b, this, lowest, periodMsec));
    }

    // The loop over the children.
    method AllocateChildren(lowest: int, periodMsec: nat, peerPool: seq<PeerIo>,
                            ghost nodes: set<Bandwidth>, ghost ios: set<PeerIo>, ghost t: Tree, ghost b: Books)
      returns (pool: seq<PeerIo>)
      requires t == TreeOf(nodes) && b == BooksOf(nodes, ios) && Walkable(t) && this in nodes && OwnPeers(t.peers, ios)
      modifies nodes`up, nodes`down, ios`priority
      ensures TreeOf(nodes) == t
      ensures (BooksOf(nodes, ios), pool)
           == AllocateFirst(t, b, this, |t.shape.children[this]|, lowest, periodMsec, peerPool)
      decreases |t.shape.chain| - |t.shape.chain[this]|, 1
    {
      pool := peerPool;
      var i, n := 0, |children|;
      while i < n
        invariant 0 <= i <= n
        invariant TreeOf(nodes) == t
        invariant (BooksOf(nodes, ios), pool) == AllocateFirst(t, b, this, i, lowest, periodMsec, peerPool)
      {
        AllocateFirstStep(t, b, this, i + 1, lowest, periodMsec, peerPool);
        pool := children[i].AllocateBandwidth(lowest, periodMsec, pool, nodes, ios, t, BooksOf(nodes, ios));
        i := i + 1;
      }
    }

    // The part of allocate_bandwidth() before its loop.
    method Visit(lowest: int, periodMsec: nat, peerPool: seq<PeerIo>, ghost nodes: set<Bandwidth>,
                 ghost ios: set<PeerIo>, ghost t: Tree, ghost b: Books)
      returns (pool: seq<PeerIo>)
      requires t == TreeOf(nodes) && b == BooksOf(nodes, ios) && this in nodes && OwnPeers(t.peers, ios)
      modifies this`up, this`down, ios`priority
      ensures TreeOf(nodes) == t && BooksOf(nodes, ios) == VisitSpec(t, b, this, lowest, periodMsec)
      ensures pool == peerPool + OwnPeer(t, this)
    {
      RefillSelf(periodMsec, nodes, ios);
      pool := peerPool;
      if peer != null {
        var io: PeerIo := peer;
        SetPeerPriority(lowest, nodes, ios);
        pool := pool + [io];
      }
    }

    method RefillSelf(periodMsec: nat, ghost nodes: set<Bandwidth>, ghost ios: set<PeerIo>)
      requires this in nodes
      modifies this`up, this`down
      ensures BandsOf(nodes)
              == old(BandsOf(nodes))[this := (old(up).Refilled(periodMsec), old(down).Refilled(periodMsec))]
      ensures TreeOf(nodes) == old(TreeOf(nodes)) && PeerPriorities(nodes, ios) == old(PeerPriorities(nodes, ios))
    {
      up := up.Refilled(periodMsec);
      down := down.Refilled(periodMsec);
    }

    // tr_peerIo::set_priority() on the node's peer
    method SetPeerPriority(lowest: int, ghost nodes: set<Bandwidth>, ghost ios: set<PeerIo>)
      requires this in nodes && OwnPeers(PeerMap(nodes), ios) && peer != null
      modifies ios`priority
      ensures PeerPriorities(nodes, ios) == old(PeerPriorities(nodes, ios))[this := lowest]
      ensures TreeOf(nodes) == old(TreeOf(nodes)) && BandsOf(nodes) == old(BandsOf(nodes))
    {
      assert forall n :: n in nodes && n.peer != null ==> n in PeerMap(nodes) && n.peer.bandwidth == n;
      peer.priority := lowest;
    }

    // ----- changing the tree

    // deparent_helpers::remove_child(): overwrites the child with the last one.
    method RemoveChild(removeMe: Bandwidth)
      requires Distinct(children)
      modifies this`children
      ensures Distinct(children)
      ensures forall c :: c in children <==> c in old(children) && c != removeMe
      ensures removeMe !in old(children) ==> children == old(children)
      ensures removeMe in old(children) ==> |children| == |old(children)| - 1
    {
      var n := |children|;
      var i := 0;
      while i < n && children[i] != removeMe
        invariant 0 <= i <= n && removeMe !in children[..i]
      {
        i := i + 1;
      }
      if i < n {
        ghost var before := children;
        children := children[i := children[n - 1]][..n - 1];
        forall c
          ensures c in children <==> c in before && c != removeMe
        {
          if c in before && c != removeMe {
            var j :| 0 <= j < n && before[j] == c;
            assert children[if j == n - 1 then i else j] == c;
          }
        }
      }
    }

    // deparent()
    method Deparent(ghost nodes: set<Bandwidth>)
      requires Forest(ShapeOf(nodes)) && this in nodes
      modifies nodes`parent, nodes`children, nodes`chain
      ensures Forest(ShapeOf(nodes)) && parent == null && chain == [this]
      ensures Relinked(old(ShapeOf(nodes)), ShapeOf(nodes), this, None)
      ensures forall n :: n in nodes && this !in old(n.chain) ==> n.chain == old(n.chain)
    {
      ghost var s := ShapeOf(nodes);
      ChainFacts(this, nodes);
      if parent != null {
        Unlink(nodes);
      }
      Rebase(None, nodes, s);
      forall n | n in nodes && this !in s.chain[n]
        ensures n.chain == s.chain[n]
      {
        assert ShapeOf(nodes).chain[n] == n.chain;
      }
    }

    method Unlink(ghost nodes: set<Bandwidth>)
      requires Mutual(ShapeOf(nodes)) && this in nodes && parent != null && parent in nodes
      modifies this`parent, parent`children
      ensures Mutual(ShapeOf(nodes)) && parent == null
      ensures ShapeOf(nodes).parent == old(ShapeOf(nodes)).parent[this := None]
    {
      ghost var s, p := ShapeOf(nodes), parent;
      assert ChildrenOk(s, p);
      parent.RemoveChild(this);
      ghost var left := p.children;
      parent := null;
      assert ShapeOf(nodes).children == s.children[p := left];
      UnlinkedMutual(s, ShapeOf(nodes), this, p, left);
    }

    // set_parent(). The source only checks that the new parent is not this node
    // and not its child; the caller must keep the links acyclic.
    method SetParent(newParent: Bandwidth?, ghost nodes: set<Bandwidth>)
      requires Forest(ShapeOf(nodes)) && this in nodes
      requires newParent != null ==> newParent in nodes && this !in newParent.chain
      modifies nodes`parent, nodes`children, nodes`chain
      ensures Forest(ShapeOf(nodes)) && parent == newParent
      ensures ShapeOf(nodes).parent == old(ShapeOf(nodes)).parent[this := AsOption(newParent)]
      ensures newParent != null ==> newParent.children != [] && newParent.children[|newParent.children| - 1] == this
    {
      Deparent(nodes);
      if newParent != null {
        Attach(newParent, nodes);
      }
    }

    // The second half of set_parent().
    method Attach(newParent: Bandwidth, ghost nodes: set<Bandwidth>)
      requires Forest(ShapeOf(nodes)) && this in nodes && parent == null
      requires newParent in nodes && this !in newParent.chain
      modifies nodes`parent, nodes`children, nodes`chain
      ensures Forest(ShapeOf(nodes)) && parent == newParent
      ensures ShapeOf(nodes).parent == old(ShapeOf(nodes)).parent[this := Some(newParent)]
      ensures newParent.children == old(newParent.children) + [this]
    {
      ghost var s := ShapeOf(nodes);
      newParent.children := newParent.children + [this];
      parent := newParent;
      assert ShapeOf(nodes).children == s.children[newParent := newParent.children];
      LinkedMutual(s, ShapeOf(nodes), this, newParent);
      Rebase(Some(newParent), nodes, s);
    }

    // Brings the chains of this node's subtree up to date with its new parent;
    // `s` is the shape before the change.
    ghost method Rebase(newParent: Option<Bandwidth>, nodes: set<Bandwidth>, s: Shape<Bandwidth>)
      requires this in nodes && Rooted(s) && Mutual(ShapeOf(nodes)) && ShapeOf(nodes).chain == s.chain
      requires ShapeOf(nodes).parent == s.parent[this := newParent]
      requires newParent.Some? ==> newParent.value in nodes && this !in s.chain[newParent.value]
      modifies nodes`chain
      ensures Relinked(s, ShapeOf(nodes), this, newParent) && Forest(ShapeOf(nodes))
      ensures chain == [this] + if newParent.Some? then s.chain[newParent.value] else []
    {
      ghost var tail := [this] + if newParent.Some? then newParent.value.chain else [];
      ghost var drop := |chain|;
      ghost var linked := ShapeOf(nodes);
      ChainInside(s, this);
      forall n | n in nodes {
        n.chain := NewChain(n.chain, this, drop, tail);
      }
      RelinkedRooted(s, ShapeOf(nodes), this, newParent);
      SameChildren(linked, ShapeOf(nodes));
    }
  }

  // ----- the tree as values

  function AsOption(n: Bandwidth?): Option<Bandwidth> {
    if n == null then None
    else
      var node: Bandwidth := n;
      Some(node)
  }

  ghost function ShapeOf(nodes: set<Bandwidth>): Shape<Bandwidth>
    reads nodes`parent, nodes`children, nodes`chain
  {
    Shape(map n | n in nodes :: AsOption(n.parent),
          map n | n in nodes :: n.children,
          map n | n in nodes :: n.chain)
  }

  ghost function LimitsOf(nodes: set<Bandwidth>, dir: Dir): map<Bandwidth, Limit>
    reads nodes`up, nodes`down
  {
    map n | n in nodes :: n.BandOf(dir).Limit()
  }

  ghost function BandsOf(nodes: set<Bandwidth>): map<Bandwidth, (Band, Band)>
    reads nodes`up, nodes`down
  {
    map n | n in nodes :: (n.up, n.down)
  }

  ghost function PrioritiesOf(nodes: set<Bandwidth>): map<Bandwidth, int>
    reads nodes`priority
  {
    map n | n in nodes :: n.priority
  }

  // A peer is attached to the node it owns.
  ghost predicate OwnPeers(peers: map<Bandwidth, PeerIo>, ios: set<PeerIo>) {
    forall n :: n in peers ==> peers[n].bandwidth == n && peers[n] in ios
  }

  ghost function PeerMap(nodes: set<Bandwidth>): map<Bandwidth, PeerIo>
    reads nodes`peer
  {
    map n | n in nodes && n.peer != null :: n.peer
  }

  ghost function PeerPriorities(nodes: set<Bandwidth>, ios: set<PeerIo>): map<Bandwidth, int>
    reads nodes`peer, ios`priority
  {
    map n | n in nodes && n.peer != null && n.peer in ios :: n.peer.priority
  }

  // The live peers of some nodes, in order.
  ghost function PeersOf(peers: map<Bandwidth, PeerIo>, ns: seq<Bandwidth>): seq<PeerIo> {
    if ns == [] then []
    else PeersOf(peers, ns[..|ns| - 1]) + if ns[|ns| - 1] in peers then [peers[ns[|ns| - 1]]] else []
  }

  function RefilledBoth(bands: (Band, Band), periodMsec: nat): (Band, Band) {
    (bands.0.Refilled(periodMsec), bands.1.Refilled(periodMsec))
  }

  ghost function Refill(bands: map<Bandwidth, (Band, Band)>, ns: set<Bandwidth>, periodMsec: nat)
    : map<Bandwidth, (Band, Band)>
  {
    map n | n in bands :: if n in ns then RefilledBoth(bands[n], periodMsec) else bands[n]
  }

  // A refill sets what a limited band may move to desired speed times period,
  // rounded down, and changes nothing else.
  lemma RefillMeaning(bands: map<Bandwidth, (Band, Band)>, ns: set<Bandwidth>, periodMsec: nat, n: Bandwidth)
    requires n in bands
    ensures var r := Refill(bands, ns, periodMsec);
            && r.Keys == bands.Keys && (n !in ns ==> r[n] == bands[n])
            && (n in ns ==> Refills(bands[n].0, r[n].0, periodMsec) && Refills(bands[n].1, r[n].1, periodMsec))
  {
  }

  predicate Refills(was: Band, after: Band, periodMsec: nat) {
    && after == was.(bytesLeft := after.bytesLeft)
    && if was.limited then 1000 * after.bytesLeft <= was.desiredSpeed * periodMsec < 1000 * after.bytesLeft + 1000
       else after.bytesLeft == was.bytesLeft
  }

  // Gives every peer of `ns` the lowest priority on its way up to `top`.
  ghost function Prioritize(peers: map<Bandwidth, int>, ns: set<Bandwidth>, chains: map<Bandwidth, seq<Bandwidth>>,
                            priorities: map<Bandwidth, int>, top: Bandwidth, p: int): map<Bandwidth, int>
  {
    map n | n in peers :: if n in ns && n in chains then PathPriority(priorities, chains[n], top, p) else peers[n]
  }

  // What the walk down reads and leaves alone.
  datatype Tree = Tree(shape: Shape<Bandwidth>, peers: map<Bandwidth, PeerIo>, priorities: map<Bandwidth, int>)

  // What it changes.
  datatype Books = Books(bands: map<Bandwidth, (Band, Band)>, peerPriorities: map<Bandwidth, int>)

  ghost function TreeOf(nodes: set<Bandwidth>): Tree
    reads nodes`parent, nodes`children, nodes`chain, nodes`peer, nodes`priority
  {
    Tree(ShapeOf(nodes), PeerMap(nodes), PrioritiesOf(nodes))
  }

  ghost function BooksOf(nodes: set<Bandwidth>, ios: set<PeerIo>): Books
    reads nodes`up, nodes`down, nodes`peer, ios`priority
  {
    Books(BandsOf(nodes), PeerPriorities(nodes, ios))
  }

  // All the walk down needs to terminate: depths grow by one and are bounded.
  ghost predicate Walkable(t: Tree) {
    && t.shape.children.Keys == t.shape.chain.Keys && t.priorities.Keys == t.shape.chain.Keys
    && forall n {:trigger ChildrenDeeperBy1(t, n)} :: n in t.shape.chain ==> ChildrenDeeperBy1(t, n)
  }

  ghost predicate ChildrenDeeperBy1(t: Tree, n: Bandwidth)
    requires n in t.shape.chain && n in t.shape.children
  {
    && |t.shape.chain[n]| <= |t.shape.chain|
    && forall i :: 0 <= i < |t.shape.children[n]| ==>
         var c := t.shape.children[n][i];
         c in t.shape.chain && |t.shape.chain[c]| == |t.shape.chain[n]| + 1 <= |t.shape.chain|
  }

  lemma ForestWalkable(t: Tree)
    requires Forest(t.shape) && t.priorities.Keys == t.shape.chain.Keys
    ensures Walkable(t)
  {
    forall n | n in t.shape.chain
      ensures ChildrenDeeperBy1(t, n)
    {
      ChainDistinct(t.shape, n);
      ChildrenDeeper(t.shape, n);
      forall c | c in t.shape.children[n]
        ensures |t.shape.chain[c]| <= |t.shape.chain|
      {
        ChainDistinct(t.shape, c);
      }
    }
  }

  ghost function OwnPeer(t: Tree, n: Bandwidth): seq<PeerIo> {
    if n in t.peers then [t.peers[n]] else []
  }

  // The walk down on values, step by step as the source does it.
  ghost function VisitSpec(t: Tree, b: Books, n: Bandwidth, lowest: int, periodMsec: nat): Books {
    Books(if n in b.bands then b.bands[n := RefilledBoth(b.bands[n], periodMsec)] else b.bands,
          if n in t.peers then b.peerPriorities[n := lowest] else b.peerPriorities)
  }

  ghost function AllocateSpec(t: Tree, b: Books, top: Bandwidth, p: int, periodMsec: nat, pool: seq<PeerIo>)
    : (Books, seq<PeerIo>)
    requires Walkable(t) && top in t.shape.chain
    decreases |t.shape.chain| - |t.shape.chain[top]|, 1, 0
  {
    assert ChildrenDeeperBy1(t, top);
    var lowest := Min(p, t.priorities[top]);
    AllocateFirst(t, VisitSpec(t, b, top, lowest, periodMsec), top, |t.shape.children[top]|, lowest, periodMsec,
                  pool + OwnPeer(t, top))
  }

  // The walk over the first i children of `top`.
  ghost function AllocateFirst(t: Tree, b: Books, top: Bandwidth, i: nat, p: int, periodMsec: nat, pool: seq<PeerIo>)
    : (Books, seq<PeerIo>)
    requires Walkable(t) && top in t.shape.chain && i <= |t.shape.children[top]|
    decreases |t.shape.chain| - |t.shape.chain[top]|, 0, i
  {
    assert ChildrenDeeperBy1(t, top);
    if i == 0 then (b, pool)
    else
      var (c, before) := AllocateFirst(t, b, top, i - 1, p, periodMsec, pool);
      AllocateSpec(t, c, t.shape.children[top][i - 1], p, periodMsec, before)
  }

  lemma ChainFacts(n: Bandwidth, nodes: set<Bandwidth>)
    requires Rooted(ShapeOf(nodes)) && n in nodes
    ensures n.chain != [] && n.chain[0] == n && Distinct(n.chain)
    ensures forall x :: x in n.chain ==> x in nodes
    ensures n.parent == null ==> n.chain == [n]
    ensures n.parent != null ==> n.parent in nodes && n.chain == [n] + n.parent.chain && n !in n.parent.chain
  {
    var s := ShapeOf(nodes);
    assert LinkOk(s, n);
    ChainInside(s, n);
    ChainDistinct(s, n);
    if n.parent != null {
      forall j | 0 <= j < |n.parent.chain|
        ensures n.parent.chain[j] != n
      {
        assert n.chain[j + 1] == n.parent.chain[j];
      }
    }
  }

  // ----- what the walk down comes to

  // The nodes of `ns` refilled and their peers given the lowest priority on
  // their way up to `top`.
  ghost function Allocated(t: Tree, b: Books, ns: set<Bandwidth>, top: Bandwidth, p: int, periodMsec: nat): Books {
    Books(Refill(b.bands, ns, periodMsec), Prioritize(b.peerPriorities, ns, t.shape.chain, t.priorities, top, p))
  }

  // Main result for allocate_bandwidth(): it refills exactly the subtree, finds
  // its live peers in preorder, each once, and gives each of them the lowest
  // priority on its path.
  lemma {:induction false} AllocateMeaning(t: Tree, b: Books, top: Bandwidth, p: int, periodMsec: nat,
                                           pool: seq<PeerIo>)
    requires Forest(t.shape) && Walkable(t) && top in t.shape.chain && b.peerPriorities.Keys == t.peers.Keys
    ensures AllocateSpec(t, b, top, p, periodMsec, pool)
         == (Allocated(t, b, Subtree(t.shape, top), top, p, periodMsec),
             pool + PeersOf(t.peers, Preorder(t.shape, top)))
    decreases |t.shape.chain| - |t.shape.chain[top]|, 1, 0
  {
    var s, cs := t.shape, t.shape.children[top];
    ChildrenDeeper(s, top);
    SubtreeSplits(s, top);
    var lowest := Min(p, t.priorities[top]);
    var visited := VisitSpec(t, b, top, lowest, periodMsec);
    VisitMeaning(t, b, top, p, periodMsec);
    assert cs[..|cs|] == cs;
    AllocateFirstMeaning(t, visited, top, |cs|, p, periodMsec, pool + OwnPeer(t, top));
    AllocatedTwice(t, b, {top}, Under(s, cs), top, p, periodMsec);
    PeersOfCons(t, top, FirstPreorders(s, top, |cs|), pool);
  }

  lemma VisitMeaning(t: Tree, b: Books, top: Bandwidth, p: int, periodMsec: nat)
    requires Forest(t.shape) && Walkable(t) && top in t.shape.chain && b.peerPriorities.Keys == t.peers.Keys
    ensures VisitSpec(t, b, top, Min(p, t.priorities[top]), periodMsec) == Allocated(t, b, {top}, top, p, periodMsec)
  {
    ChainInside(t.shape, top);
    assert PathPriority(t.priorities, t.shape.chain[top], top, p) == Min(p, t.priorities[top]);
    assert VisitSpec(t, b, top, Min(p, t.priorities[top]), periodMsec).bands == Refill(b.bands, {top}, periodMsec);
  }

  // What the walk over the first i children comes to.
  ghost function FirstAllocated(t: Tree, b: Books, top: Bandwidth, i: nat, p: int, periodMsec: nat, pool: seq<PeerIo>)
    : (Books, seq<PeerIo>)
    requires Forest(t.shape) && top in t.shape.chain && i <= |t.shape.children[top]|
  {
    (Allocated(t, b, Under(t.shape, t.shape.children[top][..i]), top, p, periodMsec),
     pool + PeersOf(t.peers, FirstPreorders(t.shape, top, i)))
  }

  lemma {:induction false} AllocateFirstMeaning(t: Tree, b: Books, top: Bandwidth, i: nat, p: int, periodMsec: nat,
                                                pool: seq<PeerIo>)
    requires Forest(t.shape) && Walkable(t) && top in t.shape.chain && i <= |t.shape.children[top]|
             && b.peerPriorities.Keys == t.peers.Keys
    ensures AllocateFirst(t, b, top, i, Min(p, t.priorities[top]), periodMsec, pool)
         == FirstAllocated(t, b, top, i, p, periodMsec, pool)
    decreases |t.shape.chain| - |t.shape.chain[top]|, 0, i
  {
    if i == 0 {
      FirstAllocatedNone(t, b, top, p, periodMsec, pool);
    } else {
      var lowest, c := Min(p, t.priorities[top]), t.shape.children[top][i - 1];
      assert ChildrenDeeperBy1(t, top);
      AllocateFirstStep(t, b, top, i, lowest, periodMsec, pool);
      AllocateFirstMeaning(t, b, top, i - 1, p, periodMsec, pool);
      var (w, before) := FirstAllocated(t, b, top, i - 1, p, periodMsec, pool);
      AllocateMeaning(t, w, c, lowest, periodMsec, before);
      FirstAllocatedStep(t, b, top, i, p, periodMsec, pool);
    }
  }

  lemma FirstAllocatedNone(t: Tree, b: Books, top: Bandwidth, p: int, periodMsec: nat, pool: seq<PeerIo>)
    requires Forest(t.shape) && top in t.shape.chain
    ensures FirstAllocated(t, b, top, 0, p, periodMsec, pool) == (b, pool)
  {
    assert t.shape.children[top][..0] == [] && Under(t.shape, []) == {};
    AllocatedNothing(t, b, top, p, periodMsec);
    assert pool + [] == pool;
  }

  lemma FirstAllocatedStep(t: Tree, b: Books, top: Bandwidth, i: nat, p: int, periodMsec: nat, pool: seq<PeerIo>)
    requires Forest(t.shape) && Walkable(t) && top in t.shape.chain && 0 < i <= |t.shape.children[top]|
    ensures var c, (w, before) := t.shape.children[top][i - 1], FirstAllocated(t, b, top, i - 1, p, periodMsec, pool);
            c in t.shape.chain
            && (Allocated(t, w, Subtree(t.shape, c), c, Min(p, t.priorities[top]), periodMsec),
                before + PeersOf(t.peers, Preorder(t.shape, c)))
               == FirstAllocated(t, b, top, i, p, periodMsec, pool)
  {
    AllocatedChild(t, b, top, i - 1, p, periodMsec);
    PoolOneMore(t.peers, t.shape, top, i - 1, pool);
  }

  lemma AllocateFirstStep(t: Tree, b: Books, top: Bandwidth, i: nat, p: int, periodMsec: nat, pool: seq<PeerIo>)
    requires Walkable(t) && top in t.shape.chain && 0 < i <= |t.shape.children[top]|
    ensures var c, (w, before) := t.shape.children[top][i - 1], AllocateFirst(t, b, top, i - 1, p, periodMsec, pool);
            c in t.shape.chain && |t.shape.chain[c]| == |t.shape.chain[top]| + 1 <= |t.shape.chain|
            && AllocateFirst(t, b, top, i, p, periodMsec, pool) == AllocateSpec(t, w, c, p, periodMsec, before)
  {
    assert ChildrenDeeperBy1(t, top);
  }

  // The subtrees of the first i children in preorder, one after the other.
  ghost function FirstPreorders(s: Shape<Bandwidth>, top: Bandwidth, i: nat): seq<Bandwidth>
    requires Forest(s) && top in s.chain && i <= |s.children[top]|
  {
    ChildrenDeeper(s, top);
    PreorderAll(s, s.children[top][..i], |s.chain[top]| + 1)
  }

  lemma AllocatedTwice(t: Tree, b: Books, x: set<Bandwidth>, y: set<Bandwidth>, top: Bandwidth, p: int, periodMsec: nat)
    requires x !! y
    ensures Allocated(t, Allocated(t, b, x, top, p, periodMsec), y, top, p, periodMsec)
         == Allocated(t, b, x + y, top, p, periodMsec)
  {
    RefillMore(b.bands, x, y, periodMsec);
    PrioritizeMore(b.peerPriorities, x, y, t.shape.chain, t.priorities, top, p);
  }

  lemma AllocatedNothing(t: Tree, b: Books, top: Bandwidth, p: int, periodMsec: nat)
    ensures Allocated(t, b, {}, top, p, periodMsec) == b
  {
    assert Refill(b.bands, {}, periodMsec) == b.bands;
    assert Prioritize(b.peerPriorities, {}, t.shape.chain, t.priorities, top, p) == b.peerPriorities;
  }

  lemma AllocatedChild(t: Tree, b: Books, top: Bandwidth, i: nat, p: int, periodMsec: nat)
    requires Forest(t.shape) && Walkable(t) && top in t.shape.chain && i < |t.shape.children[top]|
    ensures var s, cs := t.shape, t.shape.children[top];
            Allocated(t, Allocated(t, b, Under(s, cs[..i]), top, p, periodMsec), Subtree(s, cs[i]), cs[i],
                      Min(p, t.priorities[top]), periodMsec)
            == Allocated(t, b, Under(s, cs[..i + 1]), top, p, periodMsec)
  {
    var s, cs := t.shape, t.shape.children[top];
    UnderOneMore(s, top, i);
    RefillMore(b.bands, Under(s, cs[..i]), Subtree(s, cs[i]), periodMsec);
    PrioritizeChild(b.peerPriorities, s, Under(s, cs[..i]), t.priorities, top, p, cs[i]);
  }

  lemma PeersOfCons(t: Tree, top: Bandwidth, rest: seq<Bandwidth>, pool: seq<PeerIo>)
    ensures pool + OwnPeer(t, top) + PeersOf(t.peers, rest) == pool + PeersOf(t.peers, [top] + rest)
  {
    PeersOfConcat(t.peers, [top], rest);
    assert [top][..0] == [];
  }

  lemma PoolOneMore(peers: map<Bandwidth, PeerIo>, s: Shape<Bandwidth>, top: Bandwidth, i: nat, pool: seq<PeerIo>)
    requires Forest(s) && top in s.chain && i < |s.children[top]|
    ensures s.children[top][i] in s.chain
    ensures pool + PeersOf(peers, FirstPreorders(s, top, i + 1))
         == pool + PeersOf(peers, FirstPreorders(s, top, i)) + PeersOf(peers, Preorder(s, s.children[top][i]))
  {
    var cs := s.children[top];
    ChildrenDeeper(s, top);
    assert cs[i] in cs && cs[..i + 1][..i] == cs[..i];
    ChainDistinct(s, cs[i]);
    PeersOfConcat(peers, FirstPreorders(s, top, i), Preorder(s, cs[i]));
  }

  lemma {:induction false} PeersOfConcat(peers: map<Bandwidth, PeerIo>, a: seq<Bandwidth>, b: seq<Bandwidth>)
    ensures PeersOf(peers, a + b) == PeersOf(peers, a) + PeersOf(peers, b)
  {
    if b == [] {
      assert a + b == a;
    } else {
      assert (a + b)[..|a + b| - 1] == a + b[..|b| - 1];
      PeersOfConcat(peers, a, b[..|b| - 1]);
    }
  }

  lemma RefillMore(bands: map<Bandwidth, (Band, Band)>, a: set<Bandwidth>, b: set<Bandwidth>, periodMsec: nat)
    requires a !! b
    ensures Refill(Refill(bands, a, periodMsec), b, periodMsec) == Refill(bands, a + b, periodMsec)
  {
  }

  lemma PrioritizeMore(peers: map<Bandwidth, int>, a: set<Bandwidth>, b: set<Bandwidth>,
                       chains: map<Bandwidth, seq<Bandwidth>>, priorities: map<Bandwidth, int>, top: Bandwidth, p: int)
    ensures Prioritize(Prioritize(peers, a, chains, priorities, top, p), b, chains, priorities, top, p)
         == Prioritize(peers, a + b, chains, priorities, top, p)
  {
  }

  lemma PrioritizeChild(peers: map<Bandwidth, int>, s: Shape<Bandwidth>, a: set<Bandwidth>,
                        priorities: map<Bandwidth, int>, top: Bandwidth, p: int, child: Bandwidth)
    requires Forest(s) && top in s.chain && child in s.children[top] && priorities.Keys == s.chain.Keys
    ensures Prioritize(Prioritize(peers, a, s.chain, priorities, top, p), Subtree(s, child), s.chain, priorities, child,
                       Min(p, priorities[top]))
         == Prioritize(peers, a + Subtree(s, child), s.chain, priorities, top, p)
  {
    forall n | n in Subtree(s, child)
      ensures PathPriority(priorities, s.chain[n], child, Min(p, priorities[top]))
           == PathPriority(priorities, s.chain[n], top, p)
    {
      PathExtends(s, priorities, n, child, top, p);
    }
  }
}
