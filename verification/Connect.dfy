/** The worklist that flattens a web of jobs, chains and groups into one graph of jobs. */
module Connect {
  import opened Graphs
  import opened GraphWalks
  import opened Delayables

  /** Every object's own graph, keyed by the object that owns it. */
  type Web = map<Delayable, Links<Delayable>>

  // ── What merging adds ────────────────────────────────────────

  function HeadsOf(ns: set<Delayable>): set<Delayable> {
    set n, h | n in ns && h in Head(n) :: h
  }

  function WithTails(g: Links<Delayable>, tails: set<Delayable>, heads: set<Delayable>): Links<Delayable> {
    map t | t in g.Keys + tails :: (if t in g then g[t] else {}) + (if t in tails then heads else {})
  }

  /** t is the tail of one of the owners' vertices. */
  ghost predicate FlatVertex(web: Web, owners: set<Delayable>, t: Delayable) {
    exists d, v :: d in owners && d in web && v in web[d] && t in Tail(v)
  }

  /** Some owner's graph leads from a vertex with tail t to a neighbour with head h. */
  ghost predicate FlatEdge(web: Web, owners: set<Delayable>, t: Delayable, h: Delayable) {
    exists d, v, n :: d in owners && d in web && v in web[d] && n in web[d][v] && t in Tail(v) && h in Head(n)
  }

  /** g is the union of what the graphs of the owners contribute, and nothing else. */
  ghost predicate IsUnionOf(g: Links<Delayable>, web: Web, owners: set<Delayable>) {
    && (forall t :: t in g <==> FlatVertex(web, owners, t))
    && (forall t, h :: Edge(g, t, h) <==> FlatEdge(web, owners, t, h))
  }

  /** There is only one such graph: the order the owners are visited in cannot show. */
  lemma UnionIsUnique(g: Links<Delayable>, h: Links<Delayable>, web: Web, owners: set<Delayable>)
    requires IsUnionOf(g, web, owners) && IsUnionOf(h, web, owners)
    ensures g == h
  {
    forall t | t in g
      ensures t in h && g[t] == h[t]
    {
      assert FlatVertex(web, owners, t);
      forall x
        ensures x in g[t] <==> x in h[t]
      {
        assert Edge(g, t, x) <==> FlatEdge(web, owners, t, x);
        assert Edge(h, t, x) <==> FlatEdge(web, owners, t, x);
      }
    }
    forall t | t in h
      ensures t in g
    {
      assert FlatVertex(web, owners, t);
    }
  }

  ghost predicate VertexFrom(other: Links<Delayable>, done: set<Delayable>, t: Delayable) {
    exists v :: v in other && v in done && t in Tail(v)
  }

  ghost predicate EdgeFrom(other: Links<Delayable>, done: set<Delayable>, t: Delayable, h: Delayable) {
    exists v, n :: v in other && v in done && n in other[v] && t in Tail(v) && h in Head(n)
  }

  /** g has, beyond base, what the vertices in done of one graph contribute. */
  ghost predicate HasMerged(g: Links<Delayable>, base: Links<Delayable>, other: Links<Delayable>,
      done: set<Delayable>) {
    && (forall t :: t in g <==> t in base || VertexFrom(other, done, t))
    && (forall t, h :: Edge(g, t, h) <==> Edge(base, t, h) || EdgeFrom(other, done, t, h))
  }

  lemma MergeOneVertex(g: Links<Delayable>, base: Links<Delayable>, other: Links<Delayable>, done: set<Delayable>,
      v: Delayable)
    requires HasMerged(g, base, other, done) && v in other
    ensures HasMerged(WithTails(g, Tail(v), HeadsOf(other[v])), base, other, done + {v})
  {
    var merged := WithTails(g, Tail(v), HeadsOf(other[v]));
    forall t, h
      ensures t in merged <==> t in base || VertexFrom(other, done + {v}, t)
      ensures Edge(merged, t, h) <==> Edge(base, t, h) || EdgeFrom(other, done + {v}, t, h)
    {
      assert Edge(merged, t, h) <==> Edge(g, t, h) || (t in Tail(v) && h in HeadsOf(other[v]));
    }
  }

  lemma MergeOneOwner(g: Links<Delayable>, merged: Links<Delayable>, web: Web, owners: set<Delayable>, d: Delayable)
    requires IsUnionOf(g, web, owners) && d in web
    requires HasMerged(merged, g, web[d], web[d].Keys)
    ensures IsUnionOf(merged, web, owners + {d})
  {
    var more := owners + {d};
    forall t
      ensures t in merged <==> FlatVertex(web, more, t)
    {
      if FlatVertex(web, owners, t) {
        var e, v :| e in owners && e in web && v in web[e] && t in Tail(v);
        assert e in more && e in web && v in web[e] && t in Tail(v);
      }
      if VertexFrom(web[d], web[d].Keys, t) {
        var v :| v in web[d] && t in Tail(v);
        assert d in more && d in web && v in web[d] && t in Tail(v);
      }
    }
    forall t, h
      ensures Edge(merged, t, h) <==> FlatEdge(web, more, t, h)
    {
      if FlatEdge(web, owners, t, h) {
        var e, v, n :| e in owners && e in web && v in web[e] && n in web[e][v] && t in Tail(v) && h in Head(n);
        assert e in more && e in web && v in web[e] && n in web[e][v] && t in Tail(v) && h in Head(n);
      }
      if EdgeFrom(web[d], web[d].Keys, t, h) {
        var v, n :| v in web[d] && n in web[d][v] && t in Tail(v) && h in Head(n);
        assert d in more && d in web && v in web[d] && n in web[d][v] && t in Tail(v) && h in Head(n);
      }
    }
  }

  // ── The worklist ─────────────────────────────────────────────

  /** Every graph's vertices have graphs of their own. */
  ghost predicate KnowsItsVertices(web: Web) {
    forall d | d in web :: web[d].Keys <= web.Keys
  }

  /** From a graph to the graphs of its vertices. */
  ghost function Hops(web: Web): Links<Delayable> {
    map d | d in web :: web[d].Keys
  }

  ghost predicate Within(web: Web, root: Delayable, owners: set<Delayable>) {
    forall d :: d in owners <==> d in web && ReachesOrIs(Hops(web), root, d)
  }

  lemma WithNoTails(g: Links<Delayable>, heads: set<Delayable>)
    ensures WithTails(g, {}, heads) == g
  {
    var same := WithTails(g, {}, heads);
    assert same.Keys == g.Keys;
    forall t | t in g
      ensures same[t] == g[t]
    {
    }
  }

  /** The inner step of a merge: each tail gains an edge to every head. */
  method ConnectTails(graph: Graph<Delayable>, tails: set<Delayable>, heads: set<Delayable>)
    modifies graph
    ensures graph.links == WithTails(old(graph.links), tails, heads)
  {
    ghost var before := graph.links;
    var todo := tails;
    WithNoTails(before, heads);
    assert tails - todo == {};
    while todo != {}
      invariant todo <= tails
      invariant graph.links == WithTails(before, tails - todo, heads)
      decreases todo
    {
      var tail :| tail in todo;
      graph.links := graph.links[tail := (if tail in graph.links then graph.links[tail] else {}) + heads];
      todo := todo - {tail};
    }
    assert tails - todo == tails;
  }

  /** _merge_graph: connects the tails of each vertex with the heads of its neighbours. */
  method MergeGraph(graph: Graph<Delayable>, other: Links<Delayable>)
    modifies graph
    ensures HasMerged(graph.links, old(graph.links), other, other.Keys)
  {
    ghost var base := graph.links;
    var todo := other.Keys;
    ghost var done: set<Delayable> := {};
    while todo != {}
      invariant todo <= other.Keys && done == other.Keys - todo
      invariant HasMerged(graph.links, base, other, done)
      decreases todo
    {
      var vertex :| vertex in todo;
      MergeOneVertex(graph.links, base, other, done, vertex);
      ConnectTails(graph, Tail(vertex), HeadsOf(other[vertex]));
      todo := todo - {vertex};
      done := done + {vertex};
    }
    assert done == other.Keys;
  }

  /** The worklist's books: what is merged is the root and the vertices of what was visited. */
  ghost predicate OnTheWay(web: Web, root: Delayable, merged: set<Delayable>, seen: set<Delayable>,
      queue: seq<Delayable>) {
    && root in merged
    && (forall d | d in merged :: d in web && ReachesOrIs(Hops(web), root, d))
    && (forall d | d in merged :: d in seen || d in queue)
    && (forall d | d in queue :: d in merged)
    && seen <= merged
    && (forall d | d in seen :: web[d].Keys <= merged)
  }

  lemma NextOnTheWay(web: Web, root: Delayable, current: Delayable, vertex: Delayable)
    requires current in web && vertex in web[current] && ReachesOrIs(Hops(web), root, current)
    ensures ReachesOrIs(Hops(web), root, vertex)
  {
    assert Edge(Hops(web), current, vertex);
    ReachesThenStep(Hops(web), root, current, vertex);
  }

  lemma NothingLeft(web: Web, root: Delayable, merged: set<Delayable>, seen: set<Delayable>)
    requires OnTheWay(web, root, merged, seen, [])
    ensures Within(web, root, merged)
  {
    forall d | d in web && ReachesOrIs(Hops(web), root, d)
      ensures d in merged
    {
      if d != root {
        forall u, v | u in merged && Edge(Hops(web), u, v)
          ensures v in merged
        {
        }
        ClosedSetHoldsReached(Hops(web), merged, root, d);
      }
    }
  }

  /** _connect_graphs: terminates on any web, cyclic or not, and returns the union of what
      the graphs reachable from the root contribute. */
  method ConnectGraphs(web: Web, root: Delayable) returns (graph: Graph<Delayable>, ghost owners: set<Delayable>)
    requires KnowsItsVertices(web) && root in web
    ensures fresh(graph)
    ensures Within(web, root, owners) && IsUnionOf(graph.links, web, owners)
  {
    graph := new Graph<Delayable>(map[]);
    MergeGraph(graph, web[root]);
    MergeOneOwner(map[], graph.links, web, {}, root);
    owners := {} + {root};
    var seen: set<Delayable> := {};
    var visitStack := [root];
    while visitStack != []
      invariant fresh(graph)
      invariant IsUnionOf(graph.links, web, owners)
      invariant OnTheWay(web, root, owners, seen, visitStack)
      decreases web.Keys - seen, |visitStack|
    {
      var current := visitStack[0];
      assert current in visitStack && current in owners;
      visitStack := visitStack[1..];
      if current !in seen {
        var vertices := web[current].Keys;
        while vertices != {}
          invariant fresh(graph)
          invariant vertices <= web[current].Keys
          invariant IsUnionOf(graph.links, web, owners)
          invariant forall d | d in owners :: d in web && ReachesOrIs(Hops(web), root, d)
          invariant forall d | d in owners :: d in seen || d == current || d in visitStack
          invariant forall d | d in visitStack :: d in owners
          invariant root in owners && current in owners && seen <= owners
          invariant forall d | d in seen :: web[d].Keys <= owners
          invariant web[current].Keys - vertices <= owners
          decreases vertices
        {
          var vertex :| vertex in vertices;
          ghost var before := graph.links;
          MergeGraph(graph, web[vertex]);
          MergeOneOwner(before, graph.links, web, owners, vertex);
          NextOnTheWay(web, root, current, vertex);
          visitStack := visitStack + [vertex];
          owners := owners + {vertex};
          vertices := vertices - {vertex};
        }
        seen := seen + {current};
      }
    }
    NothingLeft(web, root, owners, seen);
  }
}
