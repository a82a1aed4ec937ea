// The shape of a set of linked tree nodes, as values: who is whose parent, who
// is among whose children, and the chain of ancestors of every node.
module Forests {
  import opened Options
  import opened Budget
  import opened Numbers

  datatype Shape<Id(==)> = Shape(parent: map<Id, Option<Id>>, children: map<Id, seq<Id>>, chain: map<Id, seq<Id>>)

  // A node's chain is the node followed by the chain of its parent.
  ghost predicate LinkOk<Id>(s: Shape<Id>, n: Id)
    requires n in s.chain && n in s.parent
  {
    match s.parent[n]
    case None => s.chain[n] == [n]
    case Some(p) => p in s.chain && s.chain[n] == [n] + s.chain[p]
  }

  // So the links cannot go round in circles.
  ghost predicate Rooted<Id>(s: Shape<Id>) {
    && s.parent.Keys == s.chain.Keys
    && forall n {:trigger LinkOk(s, n)} :: n in s.chain ==> LinkOk(s, n)
  }

  // A node is among p's children exactly once if its parent is p, and not at
  // all otherwise.
  ghost predicate ChildrenOk<Id>(s: Shape<Id>, p: Id)
    requires p in s.children
  {
    && Distinct(s.children[p])
    && (forall c :: c in s.children[p] ==> c in s.parent)
    && (forall c :: c in s.parent ==> (c in s.children[p] <==> s.parent[c] == Some(p)))
  }

  ghost predicate Mutual<Id>(s: Shape<Id>) {
    && s.parent.Keys == s.children.Keys
    && forall p {:trigger ChildrenOk(s, p)} :: p in s.children ==> ChildrenOk(s, p)
  }

  ghost predicate Forest<Id>(s: Shape<Id>) {
    Rooted(s) && Mutual(s)
  }

  lemma {:induction false} ChainInside<Id>(s: Shape<Id>, n: Id)
    requires Rooted(s) && n in s.chain
    ensures s.chain[n] != [] && s.chain[n][0] == n
    ensures forall i :: 0 <= i < |s.chain[n]| ==> s.chain[n][i] in s.chain && s.chain[s.chain[n][i]] == s.chain[n][i..]
    decreases |s.chain[n]|
  {
    assert LinkOk(s, n);
    if s.parent[n].Some? {
      var c, p := s.chain[n], s.parent[n].value;
      ChainInside(s, p);
      forall i | 0 <= i < |c|
        ensures c[i] in s.chain && s.chain[c[i]] == c[i..]
      {
        if i > 0 {
          assert c[i] == s.chain[p][i - 1];
        }
      }
    }
  }

  lemma ChainDistinct<Id>(s: Shape<Id>, n: Id)
    requires Rooted(s) && n in s.chain
    ensures Distinct(s.chain[n])
    ensures |s.chain[n]| <= |s.chain|
    ensures forall x :: x in s.chain[n] ==> x in s.chain && |s.chain[x]| <= |s.chain[n]|
  {
    ChainInside(s, n);
    var c := s.chain[n];
    forall i, j | 0 <= i < j < |c|
      ensures c[i] != c[j]
    {
      assert |s.chain[c[i]]| != |s.chain[c[j]]|;
    }
    DistinctFits(c, s.chain.Keys);
  }

  lemma {:induction false} DistinctFits<T>(s: seq<T>, bound: set<T>)
    requires Distinct(s) && forall x :: x in s ==> x in bound
    ensures |s| <= |bound|
  {
    if s != [] {
      DistinctFits(s[1..], bound - {s[0]});
    }
  }

  // A chain that goes through x ends with the chain of x.
  lemma ChainThrough<Id>(s: Shape<Id>, n: Id, x: Id)
    requires Rooted(s) && n in s.chain && x in s.chain[n]
    ensures x in s.chain && |s.chain[n]| >= |s.chain[x]|
    ensures s.chain[n] == s.chain[n][..|s.chain[n]| - |s.chain[x]|] + s.chain[x]
  {
    ChainInside(s, n);
    var i :| 0 <= i < |s.chain[n]| && s.chain[n][i] == x;
    assert s.chain[x] == s.chain[n][i..];
  }

  // ----- re-linking a subtree

  // The chains after x has got a new parent: every chain through x keeps its
  // part below x and continues with the new tail.
  ghost function NewChain<Id>(was: seq<Id>, x: Id, drop: nat, tail: seq<Id>): seq<Id> {
    if x in was && drop <= |was| then was[..|was| - drop] + tail else was
  }

  ghost predicate Relinked<Id>(s: Shape<Id>, t: Shape<Id>, x: Id, newParent: Option<Id>)
  {
    && x in s.chain && t.parent == s.parent[x := newParent]
    && (newParent.Some? ==> newParent.value in s.chain)
    && t.chain.Keys == s.chain.Keys
    && var tail := [x] + if newParent.Some? then s.chain[newParent.value] else [];
       forall n :: n in s.chain ==> t.chain[n] == NewChain(s.chain[n], x, |s.chain[x]|, tail)
  }

  lemma NewChainLink<Id>(n: Id, was: seq<Id>, x: Id, drop: nat, tail: seq<Id>)
    requires n != x && (x in was ==> drop <= |was|)
    ensures NewChain([n] + was, x, drop, tail) == [n] + NewChain(was, x, drop, tail)
  {
    assert x in [n] + was <==> x in was;
  }

  lemma RelinkedAt<Id>(s: Shape<Id>, t: Shape<Id>, x: Id, newParent: Option<Id>, n: Id)
    requires Rooted(s) && Relinked(s, t, x, newParent) && n in s.chain && n != x
    requires s.parent[n].Some?
    ensures s.parent[n].value in s.chain && t.chain[n] == [n] + t.chain[s.parent[n].value]
  {
    assert LinkOk(s, n);
    var p := s.parent[n].value;
    if x in s.chain[p] {
      ChainThrough(s, p, x);
    }
    var tail := [x] + if newParent.Some? then s.chain[newParent.value] else [];
    NewChainLink(n, s.chain[p], x, |s.chain[x]|, tail);
  }

  // Re-linking under a node that is not in the moved subtree keeps the chains right.
  lemma RelinkedRooted<Id>(s: Shape<Id>, t: Shape<Id>, x: Id, newParent: Option<Id>)
    requires Rooted(s) && Relinked(s, t, x, newParent)
    requires newParent.Some? ==> x !in s.chain[newParent.value]
    ensures Rooted(t)
  {
    forall n | n in t.chain
      ensures LinkOk(t, n)
    {
      assert LinkOk(s, n);
      if n == x {
        ChainInside(s, x);
        assert x in s.chain[x];
      } else if s.parent[n].Some? {
        RelinkedAt(s, t, x, newParent, n);
      }
    }
  }

  lemma SameChildren<Id>(s: Shape<Id>, t: Shape<Id>)
    requires Mutual(s) && t.parent == s.parent && t.children == s.children
    ensures Mutual(t)
  {
    forall p | p in t.children
      ensures ChildrenOk(t, p)
    {
      assert ChildrenOk(s, p);
    }
  }

  lemma UnlinkedMutual<Id>(s: Shape<Id>, t: Shape<Id>, x: Id, p: Id, left: seq<Id>)
    requires Mutual(s) && x in s.parent && p in s.children && s.parent[x] == Some(p)
    requires t.parent == s.parent[x := None] && t.children == s.children[p := left]
    requires Distinct(left)
    requires forall c :: c in left ==> c in s.children[p] && c != x
    requires forall c :: c in s.children[p] && c != x ==> c in left
    ensures Mutual(t)
  {
    forall q | q in t.children
      ensures ChildrenOk(t, q)
    {
      assert ChildrenOk(s, q) && ChildrenOk(s, p);
    }
  }

  lemma LinkedMutual<Id>(s: Shape<Id>, t: Shape<Id>, x: Id, p: Id)
    requires Mutual(s) && x in s.parent && p in s.children && s.parent[x] == None
    requires t.parent == s.parent[x := Some(p)] && t.children == s.children[p := s.children[p] + [x]]
    ensures Mutual(t)
  {
    forall q | q in t.children
      ensures ChildrenOk(t, q)
    {
      assert ChildrenOk(s, q) && ChildrenOk(s, p);
      assert x !in s.children[p];
    }
  }

  // ----- subtrees

  ghost function Subtree<Id>(s: Shape<Id>, top: Id): set<Id> {
    set n | n in s.chain && top in s.chain[n]
  }

  ghost function Under<Id>(s: Shape<Id>, tops: seq<Id>): set<Id> {
    set n | n in s.chain && exists c :: c in tops && c in s.chain[n]
  }

  // A node properly below `top` is below one of its children: the one just
  // before `top` on the node's chain.
  lemma PathToChild<Id>(s: Shape<Id>, n: Id, top: Id) returns (c: Id)
    requires Forest(s) && top in s.chain && n in s.chain && n != top && top in s.chain[n]
    ensures c in s.children[top] && c in s.chain[n]
  {
    ChainInside(s, n);
    var k :| 0 <= k < |s.chain[n]| && s.chain[n][k] == top;
    c := s.chain[n][k - 1];
    assert s.chain[c] == s.chain[n][k - 1..];
    assert s.chain[c][1] == top;
    assert LinkOk(s, c) && ChildrenOk(s, top);
    if s.parent[c].Some? {
      ChainInside(s, s.parent[c].value);
    }
  }

  lemma ChildOnPath<Id>(s: Shape<Id>, n: Id, c: Id, top: Id)
    requires Forest(s) && top in s.chain && n in s.chain && c in s.children[top] && c in s.chain[n]
    ensures top in s.chain[n] && n != top && c in s.chain && s.chain[c] == [c] + s.chain[top]
    ensures |s.chain[n]| > |s.chain[top]| && s.chain[n][|s.chain[n]| - |s.chain[top]| - 1..] == [c] + s.chain[top]
  {
    ChainInside(s, top);
    assert ChildrenOk(s, top) && LinkOk(s, c);
    ChainThrough(s, n, c);
    var k := |s.chain[n]| - |s.chain[top]| - 1;
    assert s.chain[n][k + 1] == top;
  }

  lemma BelowIsUnder<Id>(s: Shape<Id>, top: Id)
    requires Forest(s) && top in s.chain
    ensures forall n :: n in Subtree(s, top) && n != top ==> n in Under(s, s.children[top])
  {
    forall n | n in Subtree(s, top) && n != top
      ensures n in Under(s, s.children[top])
    {
      var c := PathToChild(s, n, top);
    }
  }

  lemma UnderIsBelow<Id>(s: Shape<Id>, top: Id)
    requires Forest(s) && top in s.chain
    ensures forall n :: n in Under(s, s.children[top]) ==> n in Subtree(s, top) && n != top
  {
    forall n | n in Under(s, s.children[top])
      ensures n in Subtree(s, top) && n != top
    {
      var c :| c in s.children[top] && c in s.chain[n];
      ChildOnPath(s, n, c, top);
    }
  }

  lemma SubtreeSplits<Id>(s: Shape<Id>, top: Id)
    requires Forest(s) && top in s.chain
    ensures Subtree(s, top) == {top} + Under(s, s.children[top])
    ensures top !in Under(s, s.children[top])
  {
    BelowIsUnder(s, top);
    UnderIsBelow(s, top);
    assert top in Subtree(s, top) by {
      ChainInside(s, top);
    }
  }

  lemma SiblingsDisjoint<Id>(s: Shape<Id>, c: Id, d: Id, top: Id)
    requires Forest(s) && top in s.chain && c in s.children[top] && d in s.children[top] && c != d
    ensures Subtree(s, c) !! Subtree(s, d)
  {
    forall n | n in s.chain && c in s.chain[n]
      ensures d !in s.chain[n]
    {
      ChildOnPath(s, n, c, top);
      var k := |s.chain[n]| - |s.chain[top]| - 1;
      assert s.chain[n][k..][0] == c;
      if d in s.chain[n] {
        ChildOnPath(s, n, d, top);
        assert false;
      }
    }
  }

  lemma EarlierDisjoint<Id>(s: Shape<Id>, top: Id, i: nat)
    requires Forest(s) && top in s.chain && i < |s.children[top]|
    ensures Under(s, s.children[top][..i]) !! Subtree(s, s.children[top][i])
  {
    var cs := s.children[top];
    assert ChildrenOk(s, top);
    forall n | n in Under(s, cs[..i])
      ensures n !in Subtree(s, cs[i])
    {
      var d :| d in cs[..i] && d in s.chain[n];
      SiblingsDisjoint(s, d, cs[i], top);
      assert n in Subtree(s, d);
    }
  }

  lemma UnderSnoc<Id>(s: Shape<Id>, tops: seq<Id>, c: Id)
    ensures Under(s, tops + [c]) == Under(s, tops) + Subtree(s, c)
  {
  }

  lemma UnderOneMore<Id>(s: Shape<Id>, top: Id, i: nat)
    requires Forest(s) && top in s.chain && i < |s.children[top]|
    ensures var cs := s.children[top];
            && Under(s, cs[..i + 1]) == Under(s, cs[..i]) + Subtree(s, cs[i])
            && Under(s, cs[..i]) !! Subtree(s, cs[i])
  {
    var cs := s.children[top];
    assert cs[..i + 1] == cs[..i] + [cs[i]];
    UnderSnoc(s, cs[..i], cs[i]);
    EarlierDisjoint(s, top, i);
  }

  // ----- preorder

  // A node first, then the subtrees of its children one after the other.
  ghost function Preorder<Id>(s: Shape<Id>, top: Id): seq<Id>
    requires Forest(s) && top in s.chain
    decreases |s.chain| - |s.chain[top]|, 0
  {
    ChildrenDeeper(s, top);
    [top] + PreorderAll(s, s.children[top], |s.chain[top]| + 1)
  }

  ghost function PreorderAll<Id>(s: Shape<Id>, tops: seq<Id>, depth: nat): seq<Id>
    requires Forest(s) && forall c :: c in tops ==> c in s.chain && |s.chain[c]| == depth
    decreases |s.chain| - depth, |tops| + 1
  {
    if tops == [] then []
    else
      ChainDistinct(s, tops[|tops| - 1]);
      PreorderAll(s, tops[..|tops| - 1], depth) + Preorder(s, tops[|tops| - 1])
  }

  lemma ChildrenDeeper<Id>(s: Shape<Id>, top: Id)
    requires Forest(s) && top in s.chain
    ensures |s.chain[top]| <= |s.chain|
    ensures forall c :: c in s.children[top] ==> c in s.chain && |s.chain[c]| == |s.chain[top]| + 1
  {
    ChainDistinct(s, top);
    assert ChildrenOk(s, top);
    forall c | c in s.children[top]
      ensures c in s.chain && |s.chain[c]| == |s.chain[top]| + 1
    {
      assert LinkOk(s, c);
    }
  }

  // The preorder lists the nodes of the subtree, each exactly once.
  lemma {:induction false} PreorderIsSubtree<Id>(s: Shape<Id>, top: Id)
    requires Forest(s) && top in s.chain
    ensures Lists(Preorder(s, top), Subtree(s, top))
    decreases |s.chain| - |s.chain[top]|, 0, 0
  {
    ChildrenDeeper(s, top);
    SubtreeSplits(s, top);
    PreorderPrefix(s, top, |s.children[top]|);
    var cs := s.children[top];
    assert cs[..|cs|] == cs;
    ListsConcat([top], {top}, PreorderAll(s, cs, |s.chain[top]| + 1), Under(s, cs));
  }

  lemma {:induction false} PreorderPrefix<Id>(s: Shape<Id>, top: Id, i: nat)
    requires Forest(s) && top in s.chain && i <= |s.children[top]|
    requires forall c :: c in s.children[top] ==> c in s.chain && |s.chain[c]| == |s.chain[top]| + 1
    ensures Lists(PreorderAll(s, s.children[top][..i], |s.chain[top]| + 1), Under(s, s.children[top][..i]))
    decreases |s.chain| - |s.chain[top]| - 1, 1, i
  {
    var cs := s.children[top];
    if i > 0 {
      PreorderPrefix(s, top, i - 1);
      ChainDistinct(s, cs[i - 1]);
      PreorderIsSubtree(s, cs[i - 1]);
      UnderOneMore(s, top, i - 1);
      assert cs[..i][..i - 1] == cs[..i - 1];
      ListsConcat(PreorderAll(s, cs[..i - 1], |s.chain[top]| + 1), Under(s, cs[..i - 1]),
                  Preorder(s, cs[i - 1]), Subtree(s, cs[i - 1]));
    }
  }

  // The sequence holds exactly the members of the set, each once.
  ghost predicate Lists<T>(l: seq<T>, members: set<T>) {
    Distinct(l) && (forall n :: n in l ==> n in members) && (forall n :: n in members ==> n in l)
  }

  lemma ListsConcat<T>(a: seq<T>, s: set<T>, b: seq<T>, t: set<T>)
    requires Lists(a, s) && Lists(b, t) && s !! t
    ensures Lists(a + b, s + t)
  {
    forall i, j | 0 <= i < j < |a + b|
      ensures (a + b)[i] != (a + b)[j]
    {
      if i < |a| <= j {
        assert a[i] in s && b[j - |a|] in t;
      }
    }
  }

  // ----- lowest priority on a path

  // The lowest of p and the priorities on the way from a node up to `top`.
  ghost function PathPriority<Id>(priorities: map<Id, int>, chain: seq<Id>, top: Id, p: int): int {
    if chain == [] || chain[0] !in priorities then p
    else if chain[0] == top then Min(p, priorities[top])
    else Min(priorities[chain[0]], PathPriority(priorities, chain[1..], top, p))
  }

  lemma {:induction false} PathThroughChild<Id>(priorities: map<Id, int>, chain: seq<Id>, k: nat, p: int)
    requires k + 1 < |chain| && Distinct(chain) && forall x :: x in chain ==> x in priorities
    ensures PathPriority(priorities, chain, chain[k], Min(p, priorities[chain[k + 1]]))
         == PathPriority(priorities, chain, chain[k + 1], p)
  {
    if k > 0 {
      assert chain[1..][k - 1] == chain[k] && chain[1..][k] == chain[k + 1];
      PathThroughChild(priorities, chain[1..], k - 1, p);
    } else {
      assert chain[1..][0] == chain[1];
    }
  }

  lemma PathExtends<Id>(s: Shape<Id>, priorities: map<Id, int>, n: Id, child: Id, top: Id, p: int)
    requires Forest(s) && top in s.chain && child in s.children[top] && n in s.chain && child in s.chain[n]
    requires priorities.Keys == s.chain.Keys
    ensures PathPriority(priorities, s.chain[n], child, Min(p, priorities[top]))
         == PathPriority(priorities, s.chain[n], top, p)
  {
    ChildOnPath(s, n, child, top);
    ChainDistinct(s, n);
    var k := |s.chain[n]| - |s.chain[top]| - 1;
    ChainInside(s, top);
    assert s.chain[n][k..][0] == child && s.chain[n][k..][1] == top;
    PathThroughChild(priorities, s.chain[n], k, p);
  }

  // PathPriority is the minimum: below p and below every priority on the path,
  // and equal to one of them.
  lemma {:induction false} PathPriorityIsMinimum<Id>(priorities: map<Id, int>, chain: seq<Id>, k: nat, p: int)
    requires k < |chain| && Distinct(chain) && forall x :: x in chain ==> x in priorities
    ensures var r := PathPriority(priorities, chain, chain[k], p);
            && r <= p && (forall i :: 0 <= i <= k ==> r <= priorities[chain[i]])
            && (r == p || exists i :: 0 <= i <= k && r == priorities[chain[i]])
  {
    if k > 0 {
      assert chain[1..][k - 1] == chain[k];
      PathPriorityIsMinimum(priorities, chain[1..], k - 1, p);
      assert forall i :: 1 <= i <= k ==> chain[i] == chain[1..][i - 1];
      var rest := PathPriority(priorities, chain[1..], chain[k], p);
      if rest != p {
        var j :| 0 <= j <= k - 1 && rest == priorities[chain[1..][j]];
        assert rest == priorities[chain[j + 1]];
      }
    }
  }
}
