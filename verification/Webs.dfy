/** Building jobs, chains and groups, linking them with on_done, and what flattening the
    result amounts to. */
module Webs {
  import opened Graphs
  import opened GraphWalks
  import opened Delayables
  import opened Connect
  import opened Preservation

  // ── The graph an object is born with ─────────────────────────

  function OwnVertices(d: Delayable): set<Delayable> {
    match d
    case Job(_) => {d}
    case Chain(_, ms) => set m | m in ms
    case Group(_, ms) => set m | m in ms
  }

  ghost predicate OwnEdge(d: Delayable, u: Delayable, v: Delayable) {
    d.Chain? && exists i :: 0 <= i < |d.members| - 1 && u == d.members[i] && v == d.members[i + 1]
  }

  /** The objects an on_done on d hangs its successors from. */
  function Exits(d: Delayable): set<Delayable> {
    match d
    case Job(_) => {d}
    case Chain(_, ms) => if ms == [] then {} else {ms[|ms| - 1]}
    case Group(_, ms) => set m | m in ms
  }

  /** d's graph is the one it was born with, plus an edge from each exit to each successor. */
  ghost predicate GraphOf(g: Links<Delayable>, d: Delayable, successors: set<Delayable>) {
    && g.Keys == OwnVertices(d) + (if Exits(d) == {} then {} else successors)
    && forall u, v :: Edge(g, u, v) <==> OwnEdge(d, u, v) || (u in Exits(d) && v in successors)
  }

  /** What holds of every object once built, whatever on_done adds to it later. */
  ghost predicate ValidWeb(web: Web) {
    forall d | d in web ::
      && Closed(web[d])
      && web[d].Keys <= web.Keys
      && OwnVertices(d) <= web[d].Keys
      && (d.Chain? ==> d.members != [])
  }

  /** What on_done gave each object, all calls on it together. */
  type Successors = map<Delayable, set<Delayable>>

  /** These objects own the graphs they were born with, plus what on_done added. */
  ghost predicate Linked(web: Web, next: Successors, ds: set<Delayable>) {
    && ValidWeb(web)
    && forall d | d in ds :: d in web && d in next && GraphOf(web[d], d, next[d])
  }

  lemma LinkedGains(web: Web, next: Successors, d: Delayable, g: Links<Delayable>, successors: set<Delayable>)
    requires Linked(web, next, web.Keys) && web.Keys == next.Keys && (d.Chain? ==> d.members != [])
    requires Closed(g) && GraphOf(g, d, successors) && g.Keys <= web.Keys + {d}
    ensures Linked(web[d := g], next[d := successors], web.Keys + {d})
    ensures web[d := g].Keys == next[d := successors].Keys == web.Keys + {d}
  {
    GraphHoldsVertices(g, d, successors);
    WebGains(web, d, g);
    hide GraphOf, ValidWeb, Closed;
    var more, after := web[d := g], next[d := successors];
    forall e | e in web.Keys + {d}
      ensures e in more && e in after && GraphOf(more[e], e, after[e])
    {
      if e != d {
        assert more[e] == web[e] && after[e] == next[e];
      }
    }
  }

  lemma GraphHoldsVertices(g: Links<Delayable>, d: Delayable, successors: set<Delayable>)
    requires GraphOf(g, d, successors)
    ensures OwnVertices(d) <= g.Keys
  {
  }

  lemma LinkedAt(web: Web, next: Successors, d: Delayable)
    requires Linked(web, next, web.Keys) && d in web
    ensures d in next && Closed(web[d]) && web[d].Keys <= web.Keys && GraphOf(web[d], d, next[d]) &&
        (d.Chain? ==> d.members != [])
  {
  }

  lemma WebGains(web: Web, d: Delayable, g: Links<Delayable>)
    requires ValidWeb(web) && (d.Chain? ==> d.members != [])
    requires Closed(g) && OwnVertices(d) <= g.Keys <= web.Keys + {d}
    ensures ValidWeb(web[d := g])
  {
  }

  method AddEdges(graph: Graph<Delayable>, parents: set<Delayable>, children: seq<Delayable>)
    modifies graph
    ensures graph.links.Keys == old(graph.links.Keys) + (if children == [] then {} else parents) +
        (if parents == {} then {} else set c | c in children)
    ensures forall u, v :: Edge(graph.links, u, v) <==> Edge(old(graph.links), u, v) || (u in parents && v in children)
    ensures Closed(old(graph.links)) ==> Closed(graph.links)
  {
    var todo := parents;
    while todo != {}
      invariant todo <= parents
      invariant graph.links.Keys == old(graph.links.Keys)
        + (if children == [] then {} else parents - todo) + (if parents - todo == {} then {} else set c | c in children)
      invariant forall u, v :: Edge(graph.links, u, v) <==>
          Edge(old(graph.links), u, v) || (u in parents - todo && v in children)
      invariant Closed(old(graph.links)) ==> Closed(graph.links)
      decreases todo
    {
      var parent :| parent in todo;
      AddChildren(graph, parent, children);
      assert parent in parents - (todo - {parent});
      todo := todo - {parent};
    }
    assert parents - todo == parents;
  }

  method AddChildren(graph: Graph<Delayable>, parent: Delayable, children: seq<Delayable>)
    modifies graph
    ensures graph.links.Keys == old(graph.links.Keys) + (if children == [] then {} else {parent}) +
        (set c | c in children)
    ensures forall u, v :: Edge(graph.links, u, v) <==> Edge(old(graph.links), u, v) || (u == parent && v in children)
    ensures Closed(old(graph.links)) ==> Closed(graph.links)
  {
    hide WithEdge, Edge, Closed;
    for i := 0 to |children|
      invariant graph.links.Keys == old(graph.links.Keys) + (if i == 0 then {} else {parent}) +
          (set c | c in children[..i])
      invariant forall u, v :: Edge(graph.links, u, v) <==>
          Edge(old(graph.links), u, v) || (u == parent && v in children[..i])
      invariant Closed(old(graph.links)) ==> Closed(graph.links)
    {
      WithEdgeAddsOneEdge(graph.links, parent, children[i]);
      graph.AddEdge(parent, children[i]);
      assert children[..i + 1] == children[..i] + [children[i]];
    }
    assert children[..|children|] == children;
  }

  method JobGraph(d: Delayable) returns (graph: Graph<Delayable>)
    requires d.Job?
    ensures fresh(graph) && GraphOf(graph.links, d, {}) && Closed(graph.links)
  {
    graph := new Graph<Delayable>(map[]);
    graph.AddVertex(d);
  }

  method ChainGraph(d: Delayable) returns (graph: Graph<Delayable>)
    requires d.Chain? && d.members != []
    ensures fresh(graph) && GraphOf(graph.links, d, {}) && Closed(graph.links)
  {
    var ms := d.members;
    graph := new Graph<Delayable>(map[]);
    var head := ms[0];
    graph.AddVertex(head);
    for i := 1 to |ms|
      invariant fresh(graph) && head == ms[i - 1]
      invariant graph.links.Keys == set m | m in ms[..i]
      invariant LinksUpTo(graph.links, ms, i)
    {
      assert ms[i - 1] in ms[..i] && ms[..i + 1] == ms[..i] + [ms[i]];
      WithEdgeAddsOneEdge(graph.links, head, ms[i]);
      ChainGrows(graph.links, ms, i);
      graph.AddEdge(head, ms[i]);
      head := ms[i];
    }
    assert ms[..|ms|] == ms;
    ClosedByKeys(graph.links, d);
  }

  method GroupGraph(d: Delayable) returns (graph: Graph<Delayable>)
    requires d.Group?
    ensures fresh(graph) && GraphOf(graph.links, d, {}) && Closed(graph.links)
  {
    var ms := d.members;
    graph := new Graph<Delayable>(map[]);
    for i := 0 to |ms|
      invariant fresh(graph)
      invariant graph.links.Keys == set m | m in ms[..i]
      invariant forall v | v in graph.links :: graph.links[v] == {}
    {
      assert ms[..i + 1] == ms[..i] + [ms[i]];
      graph.AddVertex(ms[i]);
    }
    assert ms[..|ms|] == ms;
  }

  function SetOf(ds: seq<Delayable>): set<Delayable> {
    set d | d in ds
  }

  method BirthGraph(d: Delayable) returns (links: Links<Delayable>)
    requires d.Chain? ==> d.members != []
    ensures Closed(links) && GraphOf(links, d, {}) && links.Keys == OwnVertices(d)
  {
    var graph;
    match d {
      case Job(_) => graph := JobGraph(d);
      case Chain(_, _) => graph := ChainGraph(d);
      case Group(_, _) => graph := GroupGraph(d);
    }
    links := graph.links;
  }

  method LinkSuccessors(before: Links<Delayable>, d: Delayable, ghost successors: set<Delayable>,
      children: seq<Delayable>)
    returns (after: Links<Delayable>)
    requires Closed(before) && GraphOf(before, d, successors)
    ensures Closed(after) && GraphOf(after, d, successors + SetOf(children))
    ensures after.Keys <= before.Keys + SetOf(children)
  {
    var graph := new Graph<Delayable>(before);
    AddEdges(graph, Exits(d), children);
    after := graph.links;
    SuccessorsAdd(before, after, d, successors, SetOf(children), children);
  }

  method WithSuccessors(web: Web, ghost next: Successors, d: Delayable, children: seq<Delayable>) returns (more: Web)
    requires Linked(web, next, web.Keys) && web.Keys == next.Keys && d in web && SetOf(children) <= web.Keys
    ensures more.Keys == web.Keys && more == web[d := more[d]]
    ensures Linked(more, next[d := next[d] + SetOf(children)], more.Keys)
  {
    LinkedAt(web, next, d);
    hide Linked, GraphOf, Closed, SetOf, Exits;
    var graph := LinkSuccessors(web[d], d, next[d], children);
    LinkedGains(web, next, d, graph, next[d] + SetOf(children));
    more := web[d := graph];
    assert more.Keys == web.Keys + {d} == web.Keys;
  }

  /** All the jobs, chains and groups made so far, each with the graph it owns and, for the
      record, the successors it was given. */
  class Objects {
    var graphs: Web
    ghost var next: Successors

    ghost predicate Valid()
      reads this
    {
      graphs.Keys == next.Keys && Linked(graphs, next, graphs.Keys)
    }

    constructor ()
      ensures Valid() && graphs == map[]
    {
      graphs, next := map[], map[];
    }

    /** The constructors of the three classes; an empty chain is refused. */
    method Create(d: Delayable) returns (created: bool)
      requires Valid()
      requires d !in graphs && forall m | m in (if d.Job? then [] else d.members) :: m in graphs
      modifies this
      ensures Valid()
      ensures created <==> !(d.Chain? && d.members == [])
      ensures !created ==> graphs == old(graphs) && next == old(next)
      ensures created ==> d in graphs && graphs == old(graphs)[d := graphs[d]] && next == old(next)[d := {}]
    {
      if d.Chain? && d.members == [] {
        return false;
      }
      hide Linked, GraphOf;
      var graph := BirthGraph(d);
      LinkedGains(graphs, next, d, graph, {});
      graphs, next := graphs[d := graph], next[d := {}];
      return true;
    }

    /** on_done of the three classes: every exit of d gains every child as a successor. */
    method OnDone(d: Delayable, children: seq<Delayable>)
      requires Valid() && d in graphs && forall c | c in children :: c in graphs
      modifies this
      ensures Valid()
      ensures d in graphs && graphs == old(graphs)[d := graphs[d]]
      ensures next == old(next)[d := old(next)[d] + SetOf(children)]
    {
      graphs := WithSuccessors(graphs, next, d, children);
      next := next[d := next[d] + SetOf(children)];
    }
  }

  lemma SuccessorsAdd(before: Links<Delayable>, after: Links<Delayable>, d: Delayable, successors: set<Delayable>,
      more: set<Delayable>, children: seq<Delayable>)
    requires GraphOf(before, d, successors) && more == SetOf(children)
    requires after.Keys == before.Keys + (if children == [] then {} else Exits(d)) +
        (if Exits(d) == {} then {} else more)
    requires forall u, v :: Edge(after, u, v) <==> Edge(before, u, v) || (u in Exits(d) && v in children)
    ensures GraphOf(after, d, successors + more)
    ensures after.Keys <= before.Keys + more
  {
    assert Exits(d) <= OwnVertices(d);
  }

  ghost predicate LinksUpTo(g: Links<Delayable>, ms: seq<Delayable>, n: int)
    requires 1 <= n <= |ms|
  {
    forall u, v :: Edge(g, u, v) <==> exists k :: 0 <= k < n - 1 && u == ms[k] && v == ms[k + 1]
  }

  lemma ChainGrows(g: Links<Delayable>, ms: seq<Delayable>, i: nat)
    requires 1 <= i < |ms| && LinksUpTo(g, ms, i)
    ensures LinksUpTo(WithEdge(g, ms[i - 1], ms[i]), ms, i + 1)
  {
    var after := WithEdge(g, ms[i - 1], ms[i]);
    WithEdgeAddsOneEdge(g, ms[i - 1], ms[i]);
    forall u, v
      ensures Edge(after, u, v) <==> exists k :: 0 <= k < i && u == ms[k] && v == ms[k + 1]
    {
      if u == ms[i - 1] && v == ms[i] {
        assert 0 <= i - 1 < i && u == ms[i - 1] && v == ms[i - 1 + 1];
      }
    }
  }

  lemma ClosedByKeys(g: Links<Delayable>, d: Delayable)
    requires d.Chain? && g.Keys == OwnVertices(d)
    requires forall u, v :: Edge(g, u, v) <==> OwnEdge(d, u, v)
    ensures Closed(g)
  {
    forall u, v | u in g && v in g[u]
      ensures v in g
    {
      assert Edge(g, u, v);
    }
  }
}
