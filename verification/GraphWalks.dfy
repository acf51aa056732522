/** The Graph class of queue_job/delay.py: building a graph edge by edge, Kahn's
    topological sort and the backtracking path search. */
module GraphWalks {
  import opened Basics
  import opened Graphs

  // ── Building ─────────────────────────────────────────────────

  function WithVertex<V>(g: Links<V>, v: V): Links<V> {
    if v in g then g else g[v := {}]
  }

  function WithEdge<V>(g: Links<V>, parent: V, child: V): Links<V> {
    var h := WithVertex(g, child);
    h[parent := (if parent in h then h[parent] else {}) + {child}]
  }

  /** add_edge adds exactly one edge and the two vertices it needs, so it keeps a graph closed. */
  lemma WithEdgeAddsOneEdge<V>(g: Links<V>, parent: V, child: V)
    ensures WithEdge(g, parent, child).Keys == g.Keys + {parent, child}
    ensures forall x, y :: Edge(WithEdge(g, parent, child), x, y) <==> Edge(g, x, y) || (x == parent && y == child)
    ensures Closed(g) ==> Closed(WithEdge(g, parent, child))
  {
  }

  // ── Kahn's order ─────────────────────────────────────────────

  function Parents<V>(g: Links<V>, v: V): set<V> {
    set u | u in g && v in g[u]
  }

  /** v lies on a cycle or downstream of one. */
  ghost predicate BelowCycle<V(!new)>(g: Links<V>, v: V) {
    exists c :: Reaches(g, c, c) && ReachesOrIs(g, c, v)
  }

  ghost predicate ParentsFirst<V(!new)>(g: Links<V>, order: seq<V>) {
    forall i, u | 0 <= i < |order| && Edge(g, u, order[i]) :: u in order[..i]
  }

  /** In an order that lists parents first, every ancestor of a listed vertex is listed
      before it, through any number of steps. */
  lemma {:induction false} AncestorsFirst<V(!new)>(g: Links<V>, order: seq<V>, p: seq<V>, x: V, i: nat)
    requires Distinct(order) && ParentsFirst(g, order)
    requires i < |order| && WalkFromTo(g, p, x, order[i])
    ensures x in order[..i]
    decreases |p|
  {
    LastStep(g, p, x, order[i]);
    var u := p[|p| - 2];
    assert u in order[..i];
    if |p| > 2 {
      var k :| 0 <= k < i && order[k] == u;
      AncestorsFirst(g, order, p[..|p| - 1], x, k);
    }
  }

  lemma ListedIsNotBelowCycle<V(!new)>(g: Links<V>, order: seq<V>, v: V)
    requires Distinct(order) && ParentsFirst(g, order) && v in order
    ensures !BelowCycle(g, v)
  {
    if BelowCycle(g, v) {
      var c :| Reaches(g, c, c) && ReachesOrIs(g, c, v);
      var i :| 0 <= i < |order| && order[i] == v;
      var k := i;
      if c != v {
        var p :| WalkFromTo(g, p, c, v);
        AncestorsFirst(g, order, p, c, i);
        k :| 0 <= k < i && order[k] == c;
      }
      var q :| WalkFromTo(g, q, c, c);
      AncestorsFirst(g, order, q, c, k);
      assert false;
    }
  }

  lemma UnlistedIsBelowCycle<V(!new)>(g: Links<V>, listed: set<V>, v: V)
    requires v in g && v !in listed
    requires forall w | w in g && w !in listed :: !(Parents(g, w) <= listed)
    ensures BelowCycle(g, v)
  {
    var rest := g.Keys - listed;
    forall w | w in rest
      ensures HasParentIn(g, rest, w)
    {
      var u :| u in Parents(g, w) && u !in listed;
      assert u in rest && Edge(g, u, w);
    }
    var c := WalkBackFindsCycle(g, rest, [v]);
  }

  /** depends counts, for each vertex, its parents outside gone, plus one for each vertex
      whose count is about to be lowered. */
  ghost predicate Tallied<V(!new)>(g: Links<V>, depends: map<V, int>, gone: set<V>, owed: set<V>) {
    && depends.Keys == g.Keys
    && forall v | v in g :: depends[v] == |Parents(g, v) - gone| + (if v in owed then 1 else 0)
  }

  /** What Kahn's loop keeps: the vertices issued or queued are, apart from the children
      still to be visited, those whose parents have all been issued. */
  ghost predicate Scheduled<V(!new)>(g: Links<V>, order: seq<V>, issued: set<V>, queue: seq<V>, nodes: set<V>) {
    && Distinct(order + queue)
    && ParentsFirst(g, order)
    && (forall v :: v in issued <==> v in order)
    && (forall v :: v in order + queue <==> v in g && v !in nodes && Parents(g, v) <= issued)
  }

  lemma OneParentFewer<V>(g: Links<V>, gone: set<V>, u: V, v: V)
    requires u in g && u !in gone
    ensures |Parents(g, v) - gone| == |Parents(g, v) - (gone + {u})| + (if v in g[u] then 1 else 0)
  {
    var before, after := Parents(g, v) - gone, Parents(g, v) - (gone + {u});
    if v in g[u] {
      assert before == after + {u};
    } else {
      assert before == after;
    }
  }

  lemma TallyCounts<V(!new)>(g: Links<V>, depends: map<V, int>, counted: map<V, int>, todo: set<V>, u: V)
    requires Tallied(g, depends, todo, {}) && u in todo && u in g
    requires counted.Keys == depends.Keys
    requires forall v | v in depends :: counted[v] == depends[v] + (if v in g[u] then 1 else 0)
    ensures Tallied(g, counted, todo - {u}, {})
  {
    hide Parents;
    assert todo - {u} + {u} == todo;
    forall v | v in g
      ensures counted[v] == |Parents(g, v) - (todo - {u})|
    {
      OneParentFewer(g, todo - {u}, u, v);
    }
  }

  lemma TallyEnds<V(!new)>(g: Links<V>, depends: map<V, int>)
    requires Tallied(g, depends, {}, {})
    ensures forall v | v in g :: depends[v] == |Parents(g, v)|
  {
    assert forall v :: Parents(g, v) - {} == Parents(g, v);
  }

  lemma TallyOnIssue<V(!new)>(g: Links<V>, depends: map<V, int>, issued: set<V>, u: V)
    requires Tallied(g, depends, issued, {}) && u in g && u !in issued
    ensures Tallied(g, depends, issued + {u}, g[u])
  {
    forall v | v in g
      ensures depends[v] == |Parents(g, v) - (issued + {u})| + (if v in g[u] then 1 else 0)
    {
      OneParentFewer(g, issued, u, v);
    }
  }

  lemma ScheduleOnIssue<V(!new)>(g: Links<V>, order: seq<V>, issued: set<V>, queue: seq<V>)
    requires Closed(g) && Scheduled(g, order, issued, queue, {}) && queue != []
    ensures queue[0] in g && queue[0] !in issued
    ensures Scheduled(g, order + [queue[0]], issued + {queue[0]}, queue[1..], g[queue[0]])
  {
    var u := queue[0];
    assert (order + [u]) + queue[1..] == order + queue;
    assert (order + queue)[|order|] == u;
    assert u in order + queue;
    assert u !in order by {
      assert forall k | 0 <= k < |order| :: (order + queue)[k] == order[k];
    }
    forall i, w | 0 <= i < |order + [u]| && Edge(g, w, (order + [u])[i])
      ensures w in (order + [u])[..i]
    {
      if i < |order| {
        assert (order + [u])[..i] == order[..i];
      } else {
        assert w in Parents(g, u);
        assert (order + [u])[..i] == order;
      }
    }
    forall v
      ensures v in order + queue <==> v in g && v !in g[u] && Parents(g, v) <= issued + {u}
    {
      if v in g && v in g[u] {
        assert u in Parents(g, v);
      } else if v in g {
        assert u !in Parents(g, v);
      }
    }
  }

  lemma TallyOnVisit<V(!new)>(g: Links<V>, depends: map<V, int>, issued: set<V>, nodes: set<V>, n: V)
    requires Tallied(g, depends, issued, nodes) && n in nodes && n in g
    ensures Tallied(g, depends[n := depends[n] - 1], issued, nodes - {n})
  {
    var lowered := depends[n := depends[n] - 1];
    assert lowered.Keys == g.Keys;
    var rest := nodes - {n};
    forall v | v in g
      ensures lowered[v] == |Parents(g, v) - issued| + (if v in rest then 1 else 0)
    {
      if v == n {
        assert lowered[n] == depends[n] - 1;
      } else {
        assert lowered[v] == depends[v];
        assert v in rest <==> v in nodes;
      }
    }
  }

  lemma LastParentIssued<V(!new)>(g: Links<V>, depends: map<V, int>, issued: set<V>, nodes: set<V>, n: V)
    requires Tallied(g, depends, issued, nodes) && n in nodes && n in g
    ensures depends[n] == 1 <==> Parents(g, n) <= issued
  {
    EmptyMeansWithin(Parents(g, n), issued);
  }

  lemma EmptyMeansWithin<V>(a: set<V>, b: set<V>)
    ensures |a - b| == 0 <==> a <= b
  {
    assert |a - b| == 0 ==> forall x | x in a :: x !in a - b;
  }

  /** Visiting one child queues it exactly when its last parent has been issued. */
  lemma ScheduleOnVisit<V(!new)>(g: Links<V>, order: seq<V>, issued: set<V>, queue: seq<V>, nodes: set<V>, n: V)
    requires Scheduled(g, order, issued, queue, nodes)
    requires n in nodes && n in g
    ensures Parents(g, n) <= issued ==> Scheduled(g, order, issued, queue + [n], nodes - {n})
    ensures !(Parents(g, n) <= issued) ==> Scheduled(g, order, issued, queue, nodes - {n})
  {
    assert n !in order + queue;
    assert order + (queue + [n]) == (order + queue) + [n];
  }

  /** When the queue runs dry, what was issued is everything not on or below a cycle. */
  lemma ScheduleEnds<V(!new)>(g: Links<V>, order: seq<V>, issued: set<V>)
    requires Scheduled(g, order, issued, [], {})
    ensures Distinct(order) && ParentsFirst(g, order)
    ensures forall v :: v in order <==> v in g && !BelowCycle(g, v)
  {
    assert order + [] == order;
    forall v | v in order {
      ListedIsNotBelowCycle(g, order, v);
    }
    forall v | v in g && v !in order
      ensures BelowCycle(g, v)
    {
      UnlistedIsBelowCycle(g, issued, v);
    }
  }

  // ── Maximal cycle-free paths ─────────────────────────────────

  ghost predicate SimplePath<V(!new)>(g: Links<V>, p: seq<V>) {
    Walk(g, p) && Distinct(p) && p[|p| - 1] in g
  }

  /** A cycle-free path that no neighbour of its end can lengthen. */
  ghost predicate MaximalPath<V(!new)>(g: Links<V>, p: seq<V>) {
    SimplePath(g, p) && forall n | n in g[p[|p| - 1]] :: n in p
  }

  /** A maximal path through p either stops at p or goes on to an unvisited neighbour. */
  lemma MaximalPathGoesOn<V(!new)>(g: Links<V>, p: seq<V>, q: seq<V>)
    requires SimplePath(g, p) && MaximalPath(g, q) && p < q
    ensures q[|p|] in g[p[|p| - 1]] && q[|p|] !in p && p + [q[|p|]] <= q
  {
    assert Edge(g, q[|p| - 1], q[|p| - 1 + 1]);
    assert forall i | 0 <= i < |p| :: p[i] == q[i];
  }

  lemma DeadEndStops<V(!new)>(g: Links<V>, p: seq<V>)
    requires MaximalPath(g, p)
    ensures forall q | MaximalPath(g, q) :: !(p < q)
  {
    forall q | MaximalPath(g, q)
      ensures !(p < q)
    {
      if p < q {
        MaximalPathGoesOn(g, p, q);
        assert false;
      }
    }
  }

  lemma NoMemberMeansEmpty<T(!new)>(s: seq<T>)
    ensures s == [] || exists x :: x in s
  {
    assert s == [] || s[0] in s;
  }

  /** The generator's two closure variables, changed in place while it backtracks. */
  class PathSearch<V(==, !new)> {
    const g: Links<V>
    var path: seq<V>
    var seen: set<V>

    constructor (g: Links<V>, vertex: V)
      ensures this.g == g && path == [vertex] && seen == {vertex}
    {
      this.g := g;
      path := [vertex];
      seen := {vertex};
    }

    ghost predicate Valid()
      reads this
    {
      Closed(g) && SimplePath(g, path) && forall v :: v in seen <==> v in path
    }

    /** Yields each maximal path through the current one exactly once, and leaves the
        closure variables as it found them. */
    method Search() returns (found: seq<seq<V>>)
      requires Valid()
      modifies this
      ensures path == old(path) && seen == old(seen)
      ensures Distinct(found)
      ensures forall q :: q in found <==> MaximalPath(g, q) && path <= q
      decreases g.Keys - seen
    {
      var deadEnd := true;
      found := [];
      ghost var here := path;
      var todo := g[path[|path| - 1]];
      while todo != {}
        invariant path == here && seen == old(seen)
        invariant todo <= g[here[|here| - 1]]
        invariant deadEnd <==> forall n | n in g[here[|here| - 1]] && n !in todo :: n in here
        invariant Distinct(found)
        invariant forall q :: q in found <==> MaximalPath(g, q) && here < q && q[|here|] !in todo
        decreases todo
      {
        var neighbour :| neighbour in todo;
        ghost var before := found;
        if neighbour !in seen {
          deadEnd := false;
          seen := seen + {neighbour};
          path := path + [neighbour];
          assert g.Keys - old(seen) == (g.Keys - seen) + {neighbour};
          var deeper := Search();
          found := found + deeper;
          path := path[..|path| - 1];
          seen := seen - {neighbour};
          NextVertexSplits(g, here, neighbour, todo, before, deeper);
        }
        todo := todo - {neighbour};
      }
      forall q | MaximalPath(g, q) && here < q
        ensures q in found
      {
        MaximalPathGoesOn(g, here, q);
      }
      assert forall q | MaximalPath(g, q) :: here <= q <==> here < q || q == here;
      assert deadEnd <==> MaximalPath(g, here);
      if deadEnd {
        DeadEndStops(g, here);
        NoMemberMeansEmpty(found);
        found := found + [path];
        assert found == [here];
      }
    }
  }

  /** One more neighbour's paths join those already found: none twice, none missed. */
  lemma NextVertexSplits<V(!new)>(g: Links<V>, p: seq<V>, n: V, todo: set<V>, before: seq<seq<V>>, deeper: seq<seq<V>>)
    requires SimplePath(g, p) && n in todo
    requires Distinct(before) && Distinct(deeper)
    requires forall q :: q in before <==> MaximalPath(g, q) && p < q && q[|p|] !in todo
    requires forall q :: q in deeper <==> MaximalPath(g, q) && p + [n] <= q
    ensures Distinct(before + deeper)
    ensures forall q :: q in before + deeper <==> MaximalPath(g, q) && p < q && q[|p|] !in todo - {n}
  {
    forall q | MaximalPath(g, q)
      ensures p + [n] <= q <==> p < q && q[|p|] == n
    {
      if p + [n] <= q {
        assert q[..|p|] == (p + [n])[..|p|] == p;
        assert q[|p|] == (p + [n])[|p|];
      }
      if p < q && q[|p|] == n {
        assert q[..|p| + 1] == p + [n];
      }
    }
    var all := before + deeper;
    forall i, j | 0 <= i < j < |all|
      ensures all[i] != all[j]
    {
      if i < |before| <= j {
        assert all[i] in before && all[j] in deeper;
      }
    }
  }

  class Graph<V(==, !new)> {
    var links: Links<V>

    constructor (initial: Links<V>)
      ensures links == initial
    {
      links := initial;
    }

    method AddVertex(vertex: V)
      modifies this
      ensures links == WithVertex(old(links), vertex)
    {
      if vertex !in links {
        links := links[vertex := {}];
      }
    }

    method AddEdge(parent: V, child: V)
      modifies this
      ensures links == WithEdge(old(links), parent, child)
    {
      AddVertex(child);
      if parent !in links {
        links := links[parent := {}];
      }
      links := links[parent := links[parent] + {child}];
    }

    /** The vertices no edge points to. */
    method RootVertices() returns (roots: set<V>)
      ensures forall v :: v in roots <==> v in links && Parents(links, v) == {}
    {
      var dependencyVertices: set<V> := {};
      var todo := links.Keys;
      while todo != {}
        invariant todo <= links.Keys
        invariant forall v :: v in dependencyVertices <==> exists u :: u in links && u !in todo && v in links[u]
        decreases todo
      {
        var vertex :| vertex in todo;
        dependencyVertices := dependencyVertices + links[vertex];
        todo := todo - {vertex};
      }
      roots := links.Keys - dependencyVertices;
      forall v | v in links
        ensures v in roots <==> Parents(links, v) == {}
      {
        assert forall u :: u in Parents(links, v) <==> u in links && v in links[u];
      }
    }

    /** One more dependency for each of the vertices an edge's source points to. */
    static method CountTails(depends: map<V, int>, neighbours: set<V>) returns (counted: map<V, int>)
      requires neighbours <= depends.Keys
      ensures counted.Keys == depends.Keys
      ensures forall v | v in depends :: counted[v] == depends[v] + (if v in neighbours then 1 else 0)
    {
      counted := depends;
      var tails := neighbours;
      while tails != {}
        invariant tails <= neighbours && counted.Keys == depends.Keys
        invariant forall v | v in depends :: counted[v] == depends[v] + (if v in neighbours - tails then 1 else 0)
        decreases tails
      {
        var tail :| tail in tails;
        counted := counted[tail := counted[tail] + 1];
        tails := tails - {tail};
      }
    }

    /** How many unresolved parents each vertex starts with: one per edge into it. */
    method CountDependencies() returns (depends: map<V, int>)
      requires Closed(links)
      ensures depends.Keys == links.Keys
      ensures forall v | v in links :: depends[v] == |Parents(links, v)|
    {
      depends := map v | v in links :: 0;
      var todo := links.Keys;
      while todo != {}
        invariant todo <= links.Keys
        invariant Tallied(links, depends, todo, {})
        decreases todo
      {
        var vertex :| vertex in todo;
        var counted := CountTails(depends, links[vertex]);
        TallyCounts(links, depends, counted, todo, vertex);
        depends := counted;
        todo := todo - {vertex};
      }
      TallyEnds(links, depends);
    }

    /** Yields no vertex twice and every vertex after all of its parents; leaves out
        exactly the vertices on or below a cycle, so nothing on an acyclic graph. */
    method TopologicalSort() returns (order: seq<V>)
      requires Closed(links)
      ensures Distinct(order)
      ensures ParentsFirst(links, order)
      ensures forall v :: v in order <==> v in links && !BelowCycle(links, v)
      ensures Acyclic(links) ==> forall v :: v in order <==> v in links
    {
      var g := links;
      var depends := CountDependencies();
      var roots := RootVertices();
      var queue := ListRoots(roots);
      order := [];
      ghost var issued: set<V> := {};
      while queue != []
        invariant Tallied(g, depends, issued, {})
        invariant Scheduled(g, order, issued, queue, {})
        decreases g.Keys - issued
      {
        var vertex := queue[0];
        ScheduleOnIssue(g, order, issued, queue);
        TallyOnIssue(g, depends, issued, vertex);
        queue := queue[1..];
        order := order + [vertex];
        issued := issued + {vertex};
        var nodes := g[vertex];
        while nodes != {}
          invariant nodes <= g.Keys
          invariant Tallied(g, depends, issued, nodes)
          invariant Scheduled(g, order, issued, queue, nodes)
          decreases nodes
        {
          var node :| node in nodes;
          TallyOnVisit(g, depends, issued, nodes, node);
          LastParentIssued(g, depends, issued, nodes, node);
          ScheduleOnVisit(g, order, issued, queue, nodes, node);
          depends := depends[node := depends[node] - 1];
          nodes := nodes - {node};
          if depends[node] == 0 {
            queue := queue + [node];
          }
        }
      }
      ScheduleEnds(g, order, issued);
    }

    static method ListRoots(roots: set<V>) returns (queue: seq<V>)
      ensures Distinct(queue) && forall v :: v in queue <==> v in roots
    {
      queue := [];
      var todo := roots;
      while todo != {}
        invariant Distinct(queue) && todo <= roots
        invariant forall v :: v in queue <==> v in roots && v !in todo
        decreases todo
      {
        var root :| root in todo;
        queue := queue + [root];
        todo := todo - {root};
      }
    }

    /** The maximal cycle-free paths from vertex, each exactly once. */
    method Paths(vertex: V) returns (found: seq<seq<V>>)
      requires Closed(links) && vertex in links
      ensures Distinct(found)
      ensures forall q :: q in found <==> MaximalPath(links, q) && q[0] == vertex
    {
      var search := new PathSearch(links, vertex);
      found := search.Search();
      assert forall q | MaximalPath(links, q) :: [vertex] <= q <==> q[0] == vertex;
    }
  }
}
