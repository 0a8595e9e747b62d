/** Directed graphs given by successor sets, and the facts about paths that the
    plan validator and the plan projection rest on. */
module Graphs {

  /** A step id; ids are only ever compared. */
  datatype Id = Id(name: string)

  /** An edge a -> b is present when b in g[a]. */
  type Graph = map<Id, set<Id>>

  /** Every edge leads to a node of the graph. */
  ghost predicate Closed(g: Graph) {
    forall a, b :: a in g && b in g[a] ==> b in g
  }

  /** p is a non-empty walk along edges that stays out of `avoid`. */
  ghost predicate Walk(g: Graph, avoid: set<Id>, p: seq<Id>) {
    && p != []
    && (forall k :: 0 <= k < |p| ==> p[k] in g && p[k] !in avoid)
    && (forall k :: 0 <= k < |p| - 1 ==> p[k + 1] in g[p[k]])
  }

  ghost predicate WalkFromTo(g: Graph, avoid: set<Id>, a: Id, b: Id, p: seq<Id>) {
    Walk(g, avoid, p) && p[0] == a && p[|p| - 1] == b
  }

  /** The reflexive-transitive closure of the edges, restricted to nodes outside `avoid`. */
  ghost predicate Reaches(g: Graph, avoid: set<Id>, a: Id, b: Id) {
    exists p :: WalkFromTo(g, avoid, a, b, p)
  }

  /** The transitive closure: at least one edge is taken. */
  ghost predicate ProperlyReaches(g: Graph, a: Id, b: Id) {
    exists p :: WalkFromTo(g, {}, a, b, p) && |p| >= 2
  }

  ghost predicate Acyclic(g: Graph) {
    forall a :: !ProperlyReaches(g, a, a)
  }

  /** Some walk from s ends on a cycle. */
  ghost predicate LeadsToCycle(g: Graph, s: Id) {
    exists c :: Reaches(g, {}, s, c) && ProperlyReaches(g, c, c)
  }

  function Elems(s: seq<Id>): set<Id> {
    set x | x in s
  }

  ghost predicate NoDuplicates(s: seq<Id>) {
    forall i, j :: 0 <= i < j < |s| ==> s[i] != s[j]
  }

  /** Every node of the order comes once, after all of its successors in g: a step is
      listed after everything it depends on. */
  ghost predicate DependenciesFirst(g: Graph, order: seq<Id>) {
    order == [] ||
    var front, last := order[..|order| - 1], order[|order| - 1];
    DependenciesFirst(g, front) && last in g && last !in front && g[last] <= Elems(front)
  }

  lemma {:induction false} DistinctCount(s: seq<Id>)
    requires NoDuplicates(s)
    ensures |Elems(s)| == |s|
  {
    if s != [] {
      var front := s[..|s| - 1];
      DistinctCount(front);
      assert s == front + [s[|s| - 1]];
      assert Elems(s) == Elems(front) + {s[|s| - 1]};
    }
  }

  lemma SubsetCount(a: set<Id>, b: set<Id>)
    requires a <= b
    ensures |a| <= |b|
    ensures |a| == |b| ==> a == b
  {
    assert b == a + (b - a);
  }

  lemma {:induction false} ElementsAtMostLength(s: seq<Id>)
    ensures |Elems(s)| <= |s|
    ensures |Elems(s)| == |s| ==> NoDuplicates(s)
  {
    if s != [] {
      var front, last := s[..|s| - 1], s[|s| - 1];
      ElementsAtMostLength(front);
      assert s == front + [last];
      assert Elems(s) == Elems(front) + {last};
      if last in Elems(front) { assert Elems(s) == Elems(front); }
    }
  }

  /** A slice of a walk that starts and ends at equal nodes is a cycle. */
  lemma RepeatIsCycle(g: Graph, avoid: set<Id>, p: seq<Id>, i: nat, j: nat)
    requires Walk(g, avoid, p) && i < j < |p| && p[i] == p[j]
    ensures ProperlyReaches(g, p[i], p[i])
    ensures !Acyclic(g)
  {
    var q := p[i..j + 1];
    assert WalkFromTo(g, {}, p[i], p[i], q);
  }

  /** In an acyclic graph no walk is longer than the number of nodes. */
  lemma AcyclicWalkBound(g: Graph, p: seq<Id>)
    requires Acyclic(g) && Walk(g, {}, p)
    ensures NoDuplicates(p) && |p| <= |g|
  {
    forall i, j | 0 <= i < j < |p| ensures p[i] != p[j] {
      if p[i] == p[j] { RepeatIsCycle(g, {}, p, i, j); }
    }
    DistinctCount(p);
    assert Elems(p) <= g.Keys;
    SubsetCount(Elems(p), g.Keys);
  }

  /** In an acyclic graph, what a node properly reaches is what it reaches, less itself. */
  lemma ProperReachIsReachLessSelf(g: Graph, s: Id, x: Id)
    requires Acyclic(g)
    ensures ProperlyReaches(g, s, x) <==> Reaches(g, {}, s, x) && x != s
  {
    if Reaches(g, {}, s, x) && x != s {
      var p :| WalkFromTo(g, {}, s, x, p);
      assert |p| >= 2;
    }
  }

  lemma ReachBySelf(g: Graph, avoid: set<Id>, s: Id)
    requires s in g && s !in avoid
    ensures Reaches(g, avoid, s, s)
  {
    assert WalkFromTo(g, avoid, s, s, [s]);
  }

  lemma ReachByFirstEdge(g: Graph, avoid: set<Id>, less: set<Id>, s: Id, d: Id, x: Id)
    requires s in g && d in g[s] && s !in less && less <= avoid && Reaches(g, avoid, d, x)
    ensures Reaches(g, less, s, x)
  {
    var p :| WalkFromTo(g, avoid, d, x, p);
    var q := [s] + p;
    assert forall k :: 0 <= k < |q| - 1 ==> q[k + 1] in g[q[k]];
    assert WalkFromTo(g, less, s, x, q);
  }

  lemma ReachByLastEdge(g: Graph, avoid: set<Id>, s: Id, x: Id, y: Id)
    requires Reaches(g, avoid, s, x) && y in g && y in g[x] && y !in avoid
    ensures Reaches(g, avoid, s, y)
  {
    var p :| WalkFromTo(g, avoid, s, x, p);
    var q := p + [y];
    assert forall k :: 0 <= k < |q| - 1 ==> q[k + 1] in g[q[k]];
    assert WalkFromTo(g, avoid, s, y, q);
  }

  /** A set that holds s and, outside `avoid`, the successors of each of its members
      holds everything that s reaches without meeting `avoid`. */
  lemma {:induction false} ClosedSetHoldsReach(g: Graph, avoid: set<Id>, inside: set<Id>, p: seq<Id>)
    requires Walk(g, avoid, p) && p[0] in inside
    requires forall x :: x in inside && x !in avoid && x in g ==> g[x] <= inside
    ensures p[|p| - 1] in inside
    decreases |p|
  {
    if |p| > 1 {
      assert p[1] in g[p[0]];
      ClosedSetHoldsReach(g, avoid, inside, p[1..]);
    }
  }

  /** If every node of a finite set has a successor inside the set, then walking on
      from any node of the set must run into a cycle: the pigeonhole argument. */
  lemma {:induction false} StuckSetHasCycle(g: Graph, rest: set<Id>, p: seq<Id>) returns (c: Id)
    requires Walk(g, {}, p) && NoDuplicates(p) && Elems(p) <= rest <= g.Keys
    requires forall s :: s in rest ==> g[s] * rest != {}
    ensures Reaches(g, {}, p[0], c) && ProperlyReaches(g, c, c)
    decreases |rest| - |p|
  {
    assert p[|p| - 1] in Elems(p);
    var d :| d in g[p[|p| - 1]] * rest;
    var q := p + [d];
    ExtendWalk(g, p, d);
    if d in p {
      var i :| 0 <= i < |p| && p[i] == d;
      assert q[i] == q[|p|];
      RepeatIsCycle(g, {}, q, i, |p|);
      c := d;
      assert WalkFromTo(g, {}, p[0], c, q);
    } else {
      ExtendDistinct(p, d, rest);
      c := StuckSetHasCycle(g, rest, q);
    }
  }

  lemma ExtendWalk(g: Graph, p: seq<Id>, d: Id)
    requires Walk(g, {}, p) && d in g && d in g[p[|p| - 1]]
    ensures Walk(g, {}, p + [d])
  {
    var q := p + [d];
    assert forall k :: 0 <= k < |q| - 1 ==> q[k] == p[k];
    assert forall k :: 0 <= k < |q| - 1 ==> q[k + 1] in g[q[k]];
  }

  lemma ExtendDistinct(p: seq<Id>, d: Id, rest: set<Id>)
    requires NoDuplicates(p) && d !in p && Elems(p) <= rest && d in rest
    ensures NoDuplicates(p + [d]) && Elems(p + [d]) <= rest && |p| < |rest|
  {
    assert Elems(p + [d]) == Elems(p) + {d};
    DistinctCount(p + [d]);
    SubsetCount(Elems(p + [d]), rest);
  }

  /** Read off by index: no node twice, and a dependency of the node at i is at some j < i. */
  lemma {:induction false} OrderByIndex(g: Graph, order: seq<Id>)
    requires DependenciesFirst(g, order)
    ensures NoDuplicates(order) && Elems(order) <= g.Keys
    ensures forall i, d :: 0 <= i < |order| && d in g[order[i]] ==> d in order[..i]
  {
    if order != [] {
      var front, last := order[..|order| - 1], order[|order| - 1];
      OrderByIndex(g, front);
      assert order == front + [last];
      forall i, d | 0 <= i < |order| && d in g[order[i]] ensures d in order[..i] {
        if i < |front| { assert order[..i] == front[..i]; } else { assert d in Elems(front); }
      }
    }
  }

  /** Along a walk that starts inside a dependencies-first order, positions strictly fall. */
  lemma {:induction false} OrderDescends(g: Graph, order: seq<Id>, p: seq<Id>, i: nat) returns (j: nat)
    requires DependenciesFirst(g, order) && Walk(g, {}, p)
    requires i < |order| && order[i] == p[0]
    ensures j < |order| && order[j] == p[|p| - 1] && j + |p| - 1 <= i
    decreases |p|
  {
    if |p| == 1 {
      j := i;
    } else {
      OrderByIndex(g, order);
      assert p[1] in g[p[0]];
      var m :| 0 <= m < i && order[..i][m] == p[1];
      j := OrderDescends(g, order, p[1..], m);
    }
  }

  /** A node listed in a dependencies-first order cannot lead into a cycle. */
  lemma OrderedNodeAvoidsCycles(g: Graph, order: seq<Id>, s: Id, c: Id)
    requires DependenciesFirst(g, order) && s in order && Reaches(g, {}, s, c)
    ensures !ProperlyReaches(g, c, c)
  {
    var i :| 0 <= i < |order| && order[i] == s;
    var p :| WalkFromTo(g, {}, s, c, p);
    var j := OrderDescends(g, order, p, i);
    if ProperlyReaches(g, c, c) {
      var q :| WalkFromTo(g, {}, c, c, q) && |q| >= 2;
      var m := OrderDescends(g, order, q, j);
      OrderByIndex(g, order);
    }
  }
}
