/** Finite directed graphs as adjacency maps, walks through them, and the facts about cycles
    that every other part of the job-graph model leans on. */
module Graphs {
  import opened Basics

  /** A graph as the adjacency dictionary the Graph class keeps. */
  type Links<V> = map<V, set<V>>

  predicate Edge<V(==)>(g: Links<V>, x: V, y: V) {
    x in g && y in g[x]
  }

  /** Every neighbour is itself a vertex. */
  ghost predicate Closed<V>(g: Links<V>) {
    forall v | v in g :: g[v] <= g.Keys
  }

  ghost predicate Walk<V>(g: Links<V>, p: seq<V>) {
    |p| > 0 && forall i | 0 <= i < |p| - 1 :: Edge(g, p[i], p[i + 1])
  }

  ghost predicate WalkFromTo<V>(g: Links<V>, p: seq<V>, x: V, y: V) {
    Walk(g, p) && |p| >= 2 && p[0] == x && p[|p| - 1] == y
  }

  /** y can be reached from x in one step or more. */
  ghost predicate Reaches<V(!new)>(g: Links<V>, x: V, y: V) {
    exists p :: WalkFromTo(g, p, x, y)
  }

  ghost predicate ReachesOrIs<V(!new)>(g: Links<V>, x: V, y: V) {
    x == y || Reaches(g, x, y)
  }

  ghost predicate Acyclic<V(!new)>(g: Links<V>) {
    forall x :: !Reaches(g, x, x)
  }

  // ── Walks compose ────────────────────────────────────────────

  lemma EdgeReaches<V(!new)>(g: Links<V>, x: V, y: V)
    requires Edge(g, x, y)
    ensures Reaches(g, x, y)
  {
    assert WalkFromTo(g, [x, y], x, y);
  }

  lemma ReachesTransitive<V(!new)>(g: Links<V>, x: V, y: V, z: V)
    requires Reaches(g, x, y) && ReachesOrIs(g, y, z)
    ensures Reaches(g, x, z)
  {
    if y != z {
      var p :| WalkFromTo(g, p, x, y);
      var q :| WalkFromTo(g, q, y, z);
      var r := p + q[1..];
      forall i | 0 <= i < |r| - 1
        ensures Edge(g, r[i], r[i + 1])
      {
        if i >= |p| - 1 {
          assert r[i] == q[i - (|p| - 1)] && r[i + 1] == q[i + 1 - (|p| - 1)];
        }
      }
      assert WalkFromTo(g, r, x, z);
    }
  }

  lemma StepThenReaches<V(!new)>(g: Links<V>, x: V, y: V, z: V)
    requires Edge(g, x, y) && ReachesOrIs(g, y, z)
    ensures Reaches(g, x, z)
  {
    EdgeReaches(g, x, y);
    ReachesTransitive(g, x, y, z);
  }

  lemma ReachesThenStep<V(!new)>(g: Links<V>, x: V, y: V, z: V)
    requires ReachesOrIs(g, x, y) && Edge(g, y, z)
    ensures Reaches(g, x, z)
  {
    EdgeReaches(g, y, z);
    if x != y {
      ReachesTransitive(g, x, y, z);
    }
  }

  /** A walk of two steps or more splits after its first step. */
  lemma FirstStep<V(!new)>(g: Links<V>, p: seq<V>, x: V, y: V)
    requires WalkFromTo(g, p, x, y)
    ensures Edge(g, x, p[1]) && ReachesOrIs(g, p[1], y)
    ensures |p| > 2 ==> WalkFromTo(g, p[1..], p[1], y)
  {
    assert Edge(g, p[0], p[1]);
    if |p| > 2 {
      assert WalkFromTo(g, p[1..], p[1], y);
    }
  }

  /** The same, taken apart at the far end. */
  lemma LastStep<V(!new)>(g: Links<V>, p: seq<V>, x: V, y: V)
    requires WalkFromTo(g, p, x, y)
    ensures Edge(g, p[|p| - 2], y) && ReachesOrIs(g, x, p[|p| - 2])
    ensures |p| > 2 ==> WalkFromTo(g, p[..|p| - 1], x, p[|p| - 2])
  {
    assert Edge(g, p[|p| - 2], p[|p| - 2 + 1]);
    if |p| > 2 {
      assert WalkFromTo(g, p[..|p| - 1], x, p[|p| - 2]);
    }
  }

  lemma MoreEdgesReachMore<V(!new)>(g: Links<V>, h: Links<V>, x: V, y: V)
    requires forall u, v | Edge(g, u, v) :: Edge(h, u, v)
    requires Reaches(g, x, y)
    ensures Reaches(h, x, y)
  {
    var p :| WalkFromTo(g, p, x, y);
    assert WalkFromTo(h, p, x, y);
  }

  /** A set closed under the edges, holding the start of a walk, holds its end. */
  lemma {:induction false} ClosedSetHoldsReached<V(!new)>(g: Links<V>, s: set<V>, x: V, y: V)
    requires forall u, v | u in s && Edge(g, u, v) :: v in s
    requires x in s && Reaches(g, x, y)
    ensures y in s
  {
    var p :| WalkFromTo(g, p, x, y);
    var i := 0;
    while i < |p| - 1
      invariant 0 <= i < |p|
      invariant p[i] in s
    {
      assert Edge(g, p[i], p[i + 1]);
      i := i + 1;
    }
  }

  /** A walk from inside a set that its edges never leave, each of them an edge of h. */
  lemma ReachesInside<V(!new)>(g: Links<V>, h: Links<V>, within: set<V>, x: V, y: V)
    requires Reaches(g, x, y) && x in within
    requires forall u, v | u in within && Edge(g, u, v) :: v in within && Edge(h, u, v)
    ensures Reaches(h, x, y) && y in within
  {
    var p :| WalkFromTo(g, p, x, y);
    var i := 0;
    while i < |p| - 1
      invariant 0 <= i < |p| && p[i] in within
      invariant forall k | 0 <= k < i :: Edge(h, p[k], p[k + 1])
    {
      assert Edge(g, p[i], p[i + 1]);
      i := i + 1;
    }
    assert WalkFromTo(h, p, x, y);
  }

  /** The same for a set that is never entered: a walk that ends inside began there. */
  lemma ReachesBackInside<V(!new)>(g: Links<V>, h: Links<V>, within: set<V>, x: V, y: V)
    requires Reaches(g, x, y) && y in within
    requires forall u, v | v in within && Edge(g, u, v) :: u in within && Edge(h, u, v)
    ensures Reaches(h, x, y) && x in within
  {
    var p :| WalkFromTo(g, p, x, y);
    var i := |p| - 1;
    while i > 0
      invariant 0 <= i < |p| && p[i] in within
      invariant forall k | i <= k < |p| - 1 :: Edge(h, p[k], p[k + 1])
    {
      assert Edge(g, p[i - 1], p[i - 1 + 1]);
      i := i - 1;
    }
    assert WalkFromTo(h, p, x, y);
  }

  // ── Cycles ───────────────────────────────────────────────────

  lemma {:induction false} DistinctFitsIn<V>(p: seq<V>, s: set<V>)
    requires Distinct(p) && forall v | v in p :: v in s
    ensures |p| <= |s|
  {
    if |p| > 0 {
      var rest := p[1..];
      forall v | v in rest
        ensures v in s - {p[0]}
      {
        var i :| 0 <= i < |rest| && rest[i] == v;
        assert p[i + 1] == v;
      }
      DistinctFitsIn(rest, s - {p[0]});
    }
  }

  /** An edge from inside a walk back to its start closes a cycle, which reaches the end
      of the walk. */
  lemma BackEdgeClosesCycle<V(!new)>(g: Links<V>, p: seq<V>, k: nat)
    requires Walk(g, p) && k < |p| && Edge(g, p[k], p[0])
    ensures Reaches(g, p[k], p[k]) && ReachesOrIs(g, p[k], p[|p| - 1])
  {
    if k > 0 {
      assert WalkFromTo(g, p[..k + 1], p[0], p[k]);
    }
    StepThenReaches(g, p[k], p[0], p[k]);
    if k < |p| - 1 {
      var q := p[k..];
      forall i | 0 <= i < |q| - 1
        ensures Edge(g, q[i], q[i + 1])
      {
        assert Edge(g, p[k + i], p[k + i + 1]);
      }
      assert WalkFromTo(g, q, p[k], p[|p| - 1]);
    }
  }

  ghost predicate HasParentIn<V>(g: Links<V>, s: set<V>, v: V) {
    exists u :: u in s && Edge(g, u, v)
  }

  ghost predicate AllHaveParents<V(!new)>(g: Links<V>, s: set<V>) {
    forall v {:trigger HasParentIn(g, s, v)} :: v in s ==> HasParentIn(g, s, v)
  }

  /** In a finite set whose every member has a parent in the set, walking back from any
      member runs into a cycle. */
  lemma {:induction false} WalkBackFindsCycle<V(!new)>(g: Links<V>, s: set<V>, p: seq<V>) returns (c: V)
    requires Walk(g, p) && Distinct(p) && forall v | v in p :: v in s
    requires AllHaveParents(g, s)
    ensures Reaches(g, c, c) && ReachesOrIs(g, c, p[|p| - 1])
    decreases |s| - |p|
  {
    DistinctFitsIn(p, s);
    assert p[0] in s && HasParentIn(g, s, p[0]);
    var u :| u in s && Edge(g, u, p[0]);
    if u in p {
      var k :| 0 <= k < |p| && p[k] == u;
      BackEdgeClosesCycle(g, p, k);
      c := u;
    } else {
      var q := [u] + p;
      DistinctFitsIn(q, s);
      c := WalkBackFindsCycle(g, s, q);
    }
  }

  /** An acyclic graph has, in every non-empty finite set of vertices, a member with no
      parent in that set. */
  lemma AcyclicHasMinimal<V(!new)>(g: Links<V>, s: set<V>) returns (v: V)
    requires Acyclic(g) && s != {}
    ensures v in s && forall u | u in s :: !Edge(g, u, v)
  {
    if AllHaveParents(g, s) {
      var w :| w in s;
      var c := WalkBackFindsCycle(g, s, [w]);
      assert false;
    }
    v :| v in s && !HasParentIn(g, s, v);
  }
}
