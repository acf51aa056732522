/** delay(): from a flat graph to stored jobs, all of them or none. */
module Delaying {
  import opened Basics
  import opened Graphs
  import opened GraphWalks
  import opened JobProtocol
  import opened JobRuns

  datatype Settings = Settings(identityKey: Option<string>, maxRetries: nat)

  datatype Refusal = ExpectingJobs | SingleJobHasGraph | SeveralGraphs | DependsOnItself

  datatype DelayOutcome = Stored | AlreadyQueued | Refused(why: Refusal)

  /** A value, or why there is none. */
  datatype Attempt<T> = Allowed(value: T) | Denied(error: Refusal)

  // ── One graph uuid for the jobs of one graph ─────────────────

  /** The graph uuids the jobs already carry. */
  function KnownGraphs(ids: map<Uuid, Option<nat>>): set<nat> {
    set u | u in ids && ids[u].Some? :: ids[u].value
  }

  /** Two of the jobs carry graphs, and not the same one. */
  ghost predicate TwoGraphsAmong(ids: map<Uuid, Option<nat>>) {
    exists u, v :: u in ids && v in ids && ids[u].Some? && ids[v].Some? && ids[u] != ids[v]
  }

  ghost predicate NoGraphAmong(ids: map<Uuid, Option<nat>>) {
    forall u | u in ids :: ids[u] == None
  }

  /** _ensure_same_graph_uuid: a job on its own has no graph; several jobs share one, the
      one some of them already have or else a new one; two graphs never merge. */
  method EnsureSameGraphUuid(ids: map<Uuid, Option<nat>>, newGraph: nat) returns (r: Attempt<map<Uuid, Option<nat>>>)
    ensures r.Denied? ==>
      r.error == if |ids| == 0 then ExpectingJobs else if |ids| == 1 then SingleJobHasGraph else SeveralGraphs
    ensures r.Denied? <==> |ids| == 0 || (|ids| == 1 && !NoGraphAmong(ids)) || TwoGraphsAmong(ids)
    ensures r.Allowed? && |ids| == 1 ==> r.value == ids
    ensures r.Allowed? && |ids| > 1 ==>
      exists g ::
        && r.value == (map u | u in ids :: Some(g))
        && (NoGraphAmong(ids) ==> g == newGraph)
        && forall v | v in ids && ids[v].Some? :: ids[v] == Some(g)
  {
    var known: set<nat> := {};
    var todo := ids.Keys;
    while todo != {}
      invariant todo <= ids.Keys
      invariant known == set u | u in ids && u !in todo && ids[u].Some? :: ids[u].value
      decreases todo
    {
      var u :| u in todo;
      if ids[u].Some? {
        known := known + {ids[u].value};
      }
      todo := todo - {u};
    }
    assert known == KnownGraphs(ids);
    GraphsAmong(ids);
    hide KnownGraphs, TwoGraphsAmong, NoGraphAmong;
    if |ids| == 0 {
      return Denied(ExpectingJobs);
    }
    if |ids| == 1 {
      return if known != {} then Denied(SingleJobHasGraph) else Allowed(ids);
    }
    if |known| > 1 {
      return Denied(SeveralGraphs);
    }
    var g := newGraph;
    if known != {} {
      g :| g in known;
      OnlyElement(known, g);
    }
    return Allowed(map u | u in ids :: Some(g));
  }

  lemma GraphsAmong(ids: map<Uuid, Option<nat>>)
    ensures |KnownGraphs(ids)| > 1 <==> TwoGraphsAmong(ids)
    ensures KnownGraphs(ids) == {} <==> NoGraphAmong(ids)
    ensures forall g | KnownGraphs(ids) == {g} :: forall v | v in ids && ids[v].Some? :: ids[v] == Some(g)
    ensures |ids| <= 1 ==> !TwoGraphsAmong(ids)
    ensures KnownGraphs(ids) == {} ==> forall v | v in ids :: ids[v] == None
  {
    var known := KnownGraphs(ids);
    if |known| > 1 {
      var g :| g in known;
      assert |known - {g}| > 0;
      var h :| h in known - {g};
      var u :| u in ids && ids[u] == Some(g);
      var v :| v in ids && ids[v] == Some(h);
    }
    if u, v :| u in ids && v in ids && ids[u].Some? && ids[v].Some? && ids[u] != ids[v] {
      assert {ids[u].value, ids[v].value} <= known;
      SubsetIsNoLarger({ids[u].value, ids[v].value}, known);
      SubsetIsNoLarger({u, v}, ids.Keys);
    }
    if !NoGraphAmong(ids) {
      var u :| u in ids && ids[u] != None;
      assert ids[u].value in known;
    }
    forall g, v | known == {g} && v in ids && ids[v].Some?
      ensures ids[v] == Some(g)
    {
      assert ids[v].value in known;
    }
  }

  lemma SubsetIsNoLarger<T>(s: set<T>, t: set<T>)
    requires s <= t
    ensures |s| <= |t|
  {
    assert t == s + (t - s);
  }

  lemma OnlyElement<T>(s: set<T>, x: T)
    requires x in s && |s| <= 1
    ensures s == {x}
  {
    assert |s - {x}| == 0;
    assert s == s - {x} + {x};
  }

  // ── The jobs a graph generates ───────────────────────────────

  function NewJob(settings: Settings): StoredJob {
    StoredJob(Pending, None, {}, {}, 0, settings.maxRetries, settings.identityKey)
  }

  function GraphUuid(graph: Links<Uuid>, newGraph: nat): Option<nat> {
    if |graph| == 1 then None else Some(newGraph)
  }

  /** The job of a vertex, once it knows these parents and children: it waits if it has a
      parent, since no new job is done. */
  function JobKnowing(settings: Settings, graph: Option<nat>, parents: set<Uuid>, children: set<Uuid>): StoredJob {
    var state := if parents == {} then Pending else WaitDependencies;
    StoredJob(state, graph, parents, children, 0, settings.maxRetries, settings.identityKey)
  }

  function AllKnowing(graph: Links<Uuid>, settings: map<Uuid, Settings>, id: Option<nat>): Store
    requires graph.Keys <= settings.Keys
  {
    map v | v in graph :: JobKnowing(settings[v], id, Parents(graph, v), graph[v])
  }

  function Generated(graph: Links<Uuid>, settings: map<Uuid, Settings>, newGraph: nat): Store
    requires graph.Keys <= settings.Keys
  {
    AllKnowing(graph, settings, GraphUuid(graph, newGraph))
  }

  /** The jobs as _build_job makes them, before any dependency is known. */
  function Blank(graph: Links<Uuid>, settings: map<Uuid, Settings>, id: Option<nat>): Store
    requires graph.Keys <= settings.Keys
  {
    map v | v in graph :: NewJob(settings[v]).(graph := id)
  }

  /** Every job of the graph that has an identity key, and there is one, has a job with the
      same key still to be run. */
  ghost predicate AllAlreadyQueued(jobs: Store, vertices: set<Uuid>, settings: map<Uuid, Settings>)
    requires vertices <= settings.Keys
  {
    && (exists v :: v in vertices && settings[v].identityKey.Some?)
    && (forall v | v in vertices && settings[v].identityKey.Some? :: HasLiveTwin(jobs, settings[v].identityKey))
  }

  predicate IsLiveTwin(job: StoredJob, key: Option<string>) {
    job.identityKey == key && (job.state == WaitDependencies || job.state == Pending || job.state == Enqueued)
  }

  predicate HasLiveTwin(jobs: Store, key: Option<string>) {
    exists j :: j in jobs && IsLiveTwin(jobs[j], key)
  }

  predicate HasSelfEdge(graph: Links<Uuid>) {
    exists v :: v in graph && v in graph[v]
  }

  type Edges = set<(Uuid, Uuid)>

  function ParentsSoFar(graph: Links<Uuid>, owed: Edges, v: Uuid): set<Uuid> {
    set u | u in graph && v in graph[u] && (u, v) !in owed
  }

  function ChildrenSoFar(graph: Links<Uuid>, owed: Edges, v: Uuid): set<Uuid>
    requires v in graph
  {
    set c | c in graph[v] && (v, c) !in owed
  }

  /** Every vertex's job knows the edges of the graph except those still owed. */
  ghost predicate Recorded(jobs: Store, graph: Links<Uuid>, settings: map<Uuid, Settings>, id: Option<nat>, owed: Edges)
    requires graph.Keys <= settings.Keys
  {
    && jobs.Keys == graph.Keys
    && forall v | v in graph :: jobs[v] ==
        JobKnowing(settings[v], id, ParentsSoFar(graph, owed, v), ChildrenSoFar(graph, owed, v))
  }

  /** add_depends, both sides of it; the job waits unless the new parent is done. */
  function WithDependency(jobs: Store, child: Uuid, parent: Uuid): Store
    requires child in jobs && parent in jobs && child != parent
  {
    var c := jobs[child].(dependsOn := jobs[child].dependsOn + {parent});
    var linked := jobs[child := if jobs[parent].state != Done then c.(state := WaitDependencies) else c];
    linked[parent := linked[parent].(reverseDependsOn := linked[parent].reverseDependsOn + {child})]
  }

  /** Both sides know, and the child waits unless the parent is done already. */
  lemma DependencyIsRecorded(jobs: Store, child: Uuid, parent: Uuid)
    requires child in jobs && parent in jobs && child != parent
    ensures
      var later := WithDependency(jobs, child, parent);
      && later[child].dependsOn == jobs[child].dependsOn + {parent}
      && later[parent].reverseDependsOn == jobs[parent].reverseDependsOn + {child}
      && later[child].state == (if jobs[parent].state == Done then jobs[child].state else WaitDependencies)
      && later[parent].state == jobs[parent].state
  {
  }

  lemma OneEdgeLess(graph: Links<Uuid>, owed: Edges, e: (Uuid, Uuid), v: Uuid)
    requires e in owed && Edge(graph, e.0, e.1) && v in graph
    ensures ParentsSoFar(graph, owed - {e}, v) == ParentsSoFar(graph, owed, v) + (if v == e.1 then {e.0} else {})
    ensures ChildrenSoFar(graph, owed - {e}, v) == ChildrenSoFar(graph, owed, v) + (if v == e.0 then {e.1} else {})
  {
  }

  lemma RecordsOneEdge(jobs: Store, graph: Links<Uuid>, settings: map<Uuid, Settings>, id: Option<nat>, owed: Edges,
      e: (Uuid, Uuid))
    requires graph.Keys <= settings.Keys && Closed(graph) && Recorded(jobs, graph, settings, id, owed)
    requires e in owed && Edge(graph, e.0, e.1) && e.0 != e.1
    ensures Recorded(WithDependency(jobs, e.1, e.0), graph, settings, id, owed - {e})
  {
    var after := WithDependency(jobs, e.1, e.0);
    assert after.Keys == graph.Keys;
    forall v | v in graph
      ensures after[v] == JobKnowing(settings[v], id, ParentsSoFar(graph, owed - {e}, v),
          ChildrenSoFar(graph, owed - {e}, v))
    {
      OneEdgeLess(graph, owed, e, v);
    }
  }

  /** Calls add_depends for every edge, in whatever order they come. */
  method RecordEdges(graph: Links<Uuid>, settings: map<Uuid, Settings>, id: Option<nat>) returns (r: Attempt<Store>)
    requires Closed(graph) && graph.Keys <= settings.Keys
    ensures r == if HasSelfEdge(graph) then Denied(DependsOnItself) else Allowed(AllKnowing(graph, settings, id))
  {
    var jobs, owed := Blank(graph, settings, id), AllEdges(graph);
    while owed != {}
      invariant Owed(graph, owed)
      invariant Recorded(jobs, graph, settings, id, owed)
      decreases owed
    {
      var e :| e in owed;
      TakeEdge(graph, owed, e);
      if e.0 == e.1 {
        return Denied(DependsOnItself);
      }
      RecordsOneEdge(jobs, graph, settings, id, owed, e);
      jobs := WithDependency(jobs, e.1, e.0);
      owed := owed - {e};
    }
    AllRecorded(jobs, graph, settings, id);
    return Allowed(jobs);
  }

  /** Only edges of the graph are owed, and a self-edge stays owed until it is refused. */
  ghost predicate Owed(graph: Links<Uuid>, owed: Edges) {
    && (forall e | e in owed :: Edge(graph, e.0, e.1))
    && (forall v | v in graph && v in graph[v] :: (v, v) in owed)
  }

  lemma TakeEdge(graph: Links<Uuid>, owed: Edges, e: (Uuid, Uuid))
    requires Closed(graph) && Owed(graph, owed) && e in owed
    ensures Edge(graph, e.0, e.1) && e.0 in graph && e.1 in graph
    ensures if e.0 == e.1 then HasSelfEdge(graph) else Owed(graph, owed - {e})
  {
  }

  function AllEdges(graph: Links<Uuid>): Edges {
    set u, v | u in graph && v in graph[u] :: (u, v)
  }

  lemma AllRecorded(jobs: Store, graph: Links<Uuid>, settings: map<Uuid, Settings>, id: Option<nat>)
    requires graph.Keys <= settings.Keys && Recorded(jobs, graph, settings, id, {})
    requires Owed(graph, {})
    ensures jobs == AllKnowing(graph, settings, id) && !HasSelfEdge(graph)
  {
    forall v | v in graph
      ensures ParentsSoFar(graph, {}, v) == Parents(graph, v) && ChildrenSoFar(graph, {}, v) == graph[v]
    {
    }
  }

  // ── delay() ──────────────────────────────────────────────────

  ghost function Answer(jobs: Store, graph: Links<Uuid>, settings: map<Uuid, Settings>): DelayOutcome
    requires graph.Keys <= settings.Keys
  {
    if graph == map[] then Refused(ExpectingJobs)
    else if HasSelfEdge(graph) then Refused(DependsOnItself)
    else if AllAlreadyQueued(jobs, graph.Keys, settings) then AlreadyQueued
    else Stored
  }

  /** What delay() leaves in the store when it refuses nothing. */
  ghost function Delayed(s: Store, graph: Links<Uuid>, settings: map<Uuid, Settings>, newGraph: nat): Store
    requires graph.Keys <= settings.Keys
  {
    if AllAlreadyQueued(s, graph.Keys, settings) then s else s + Generated(graph, settings, newGraph)
  }

  /** Stores the whole graph or nothing: nothing when there is no job, when a job would
      depend on itself, or when some job has an identity key and every job that has one is
      queued already, whatever the others are. */
  method Delay(store: JobStore, graph: Links<Uuid>, settings: map<Uuid, Settings>, newGraph: nat)
    returns (outcome: DelayOutcome)
    requires Closed(graph) && graph.Keys <= settings.Keys && graph.Keys !! store.jobs.Keys
    modifies store
    ensures outcome == Answer(old(store.jobs), graph, settings)
    ensures store.jobs == if outcome == Stored then old(store.jobs) + Generated(graph, settings, newGraph)
        else old(store.jobs)
    ensures !outcome.Refused? ==> store.jobs == Delayed(old(store.jobs), graph, settings, newGraph)
  {
    var ids: map<Uuid, Option<nat>> := map v | v in graph :: None;
    assert KnownGraphs(ids) == {};
    SameKeysSameSize(ids, graph);
    var uuids := EnsureSameGraphUuid(ids, newGraph);
    if uuids.Denied? {
      return Refused(ExpectingJobs);
    }
    var id := GraphUuid(graph, newGraph);
    assert uuids.value == map v | v in graph :: id;
    var generated := RecordEdges(graph, settings, id);
    if generated.Denied? {
      return Refused(DependsOnItself);
    }
    var found, missing := LookUpTwins(store.jobs, graph.Keys, settings);
    if found && !missing {
      return AlreadyQueued;
    }
    store.jobs := store.jobs + generated.value;
    return Stored;
  }

  /** The identity keys stand for the jobs that have one, and for no others: a job is neither
      stored nor represented by one that is queued if and only if the graph is taken to be queued
      already and the job itself has no key. One queued key makes every job without one vanish. */
  lemma LostExactlyWhenUnkeyed(s: Store, graph: Links<Uuid>, settings: map<Uuid, Settings>, newGraph: nat, v: Uuid)
    requires graph.Keys <= settings.Keys && graph.Keys !! s.Keys && v in graph
    ensures
      (v !in Delayed(s, graph, settings, newGraph) &&
          !(settings[v].identityKey.Some? && HasLiveTwin(s, settings[v].identityKey))) <==>
      AllAlreadyQueued(s, graph.Keys, settings) && settings[v].identityKey == None
  {
  }

  lemma SameKeysSameSize<A, B, C>(m: map<A, B>, n: map<A, C>)
    requires m.Keys == n.Keys
    ensures |m| == |n|
  {
    assert |m| == |m.Keys| && |n| == |n.Keys|;
  }

  /** Whether some keyed vertex has a live twin, and whether some keyed vertex has none. The
      search stops at the first vertex without one. */
  method LookUpTwins(jobs: Store, vertices: set<Uuid>, settings: map<Uuid, Settings>)
    returns (found: bool, missing: bool)
    requires vertices <= settings.Keys
    ensures found && !missing <==> AllAlreadyQueued(jobs, vertices, settings)
  {
    found, missing := false, false;
    var todo := vertices;
    while todo != {}
      invariant todo <= vertices && !missing
      invariant found <==> exists v :: v in vertices && v !in todo && settings[v].identityKey.Some?
      invariant forall v | v in vertices && v !in todo && settings[v].identityKey.Some? ::
          HasLiveTwin(jobs, settings[v].identityKey)
      decreases todo
    {
      var v :| v in todo;
      todo := todo - {v};
      if settings[v].identityKey.Some? {
        if !HasLiveTwin(jobs, settings[v].identityKey) {
          missing := true;
          return;
        }
        found := true;
      }
    }
  }

  // ── What it stores ───────────────────────────────────────────

  /** The job of a vertex depends on the vertices with an edge to it and waits if there is one; it
      has not been tried, and shares a graph with the others if there are others. */
  lemma GeneratedJobs(graph: Links<Uuid>, settings: map<Uuid, Settings>, newGraph: nat, v: Uuid)
    requires Closed(graph) && graph.Keys <= settings.Keys && v in graph
    ensures Generated(graph, settings, newGraph).Keys == graph.Keys
    ensures
      var job := Generated(graph, settings, newGraph)[v];
      && (forall u :: u in job.dependsOn <==> Edge(graph, u, v))
      && (forall c :: c in job.reverseDependsOn <==> Edge(graph, v, c))
      && job.state == (if exists u :: Edge(graph, u, v) then WaitDependencies else Pending)
      && job.graph == (if graph.Keys == {v} then None else Some(newGraph))
      && job.retry == 0 && job.maxRetries == settings[v].maxRetries && job.identityKey == settings[v].identityKey
  {
    if graph.Keys == {v} {
      assert |graph| == |graph.Keys| == 1;
    } else {
      var u :| u in graph.Keys && u != v;
      TwoKeys(graph, u, v);
    }
    assert forall u :: u in Parents(graph, v) <==> Edge(graph, u, v);
  }

  lemma GeneratedIsValid(s: Store, graph: Links<Uuid>, settings: map<Uuid, Settings>, newGraph: nat)
    requires Inv(s) && Closed(graph) && graph.Keys <= settings.Keys && graph.Keys !! s.Keys && !HasSelfEdge(graph)
    ensures Inv(s + Generated(graph, settings, newGraph))
  {
    var added := Generated(graph, settings, newGraph);
    var t := s + added;
    forall u | u in t
      ensures InvAt(t, u)
    {
      if u in graph {
        assert t[u] == added[u];
        forall p | p in t[u].dependsOn
          ensures p in t && u in t[p].reverseDependsOn && t[p].graph == t[u].graph && t[u].graph.Some? &&
              t[p].state != Done
        {
          assert t[p] == added[p] && p != u;
          TwoKeys(graph, p, u);
        }
        forall c | c in t[u].reverseDependsOn
          ensures c in t && u in t[c].dependsOn
        {
          assert t[c] == added[c];
        }
        if t[u].state == WaitDependencies {
          var p :| p in Parents(graph, u);
          assert p in t[u].dependsOn && p in t && t[p].state != Done;
        }
      } else {
        assert InvAt(s, u) && t[u] == s[u];
        assert forall p | p in s :: t[p] == s[p];
        assert HasUnfinishedParent(s, u) <==> HasUnfinishedParent(t, u);
      }
    }
  }

  lemma TwoKeys<V, W>(m: map<V, W>, x: V, y: V)
    requires x in m && y in m && x != y
    ensures |m| != 1
  {
    assert {x, y} <= m.Keys;
    assert m.Keys == {x, y} + (m.Keys - {x, y});
  }

  /** The dependencies of the new jobs are the edges of their graph, and those of the old
      jobs are untouched, so cycles can only come from the new graph. */
  lemma GeneratedIsAcyclic(s: Store, graph: Links<Uuid>, settings: map<Uuid, Settings>, newGraph: nat)
    requires Inv(s) && Closed(graph) && graph.Keys <= settings.Keys && graph.Keys !! s.Keys
    requires Acyclic(Deps(s)) && Acyclic(graph)
    ensures Acyclic(Deps(s + Generated(graph, settings, newGraph)))
  {
    var g := Deps(s + Generated(graph, settings, newGraph));
    forall x | Reaches(g, x, x)
      ensures false
    {
      var p :| WalkFromTo(g, p, x, x);
      FirstStep(g, p, x, x);
      if x in graph {
        ReachesInside(g, graph, graph.Keys, x, x);
      } else {
        OldEdgesStayOld(s, graph, settings, newGraph);
        ReachesInside(g, Deps(s), s.Keys, x, x);
      }
    }
  }

  lemma OldEdgesStayOld(s: Store, graph: Links<Uuid>, settings: map<Uuid, Settings>, newGraph: nat)
    requires Inv(s) && graph.Keys <= settings.Keys && graph.Keys !! s.Keys
    ensures forall u, v | u in s && Edge(Deps(s + Generated(graph, settings, newGraph)), u, v) ::
        v in s && Edge(Deps(s), u, v)
  {
    forall u, v | u in s && Edge(Deps(s + Generated(graph, settings, newGraph)), u, v)
      ensures v in s && Edge(Deps(s), u, v)
    {
      assert InvAt(s, u);
    }
  }
}
