/** The job graph end to end: what delaying a chain/group term promises about the runs of
    its jobs. */
module Guarantees {
  import opened Basics
  import opened Graphs
  import opened GraphWalks
  import opened Delayables
  import opened Connect
  import opened Preservation
  import opened Webs
  import opened Flattening
  import opened NestedOnDone
  import P = JobProtocol
  import opened JobRuns
  import opened Delaying

  /** delay() on one object of a web: flattens what can be reached from it, then stores all
      of it or none of it. */
  method DelayObject(web: Web, root: Delayable, store: P.JobStore, settings: map<Delayable, Settings>, newGraph: nat)
    returns (outcome: DelayOutcome, ghost g: Links<Delayable>)
    requires ValidWeb(web) && root in web
    requires forall d | d in web && d.Job? :: d in settings && d !in store.jobs
    modifies store
    ensures Closed(g) && g.Keys <= settings.Keys
    ensures exists owners :: Within(web, root, owners) && IsUnionOf(g, web, owners)
    ensures (forall s | s in Subterms(root) :: s in web && GraphOf(web[s], s, {})) ==> g == TermLinks(root)
    ensures outcome == Answer(old(store.jobs), g, settings)
    ensures outcome == Stored ==> store.jobs == old(store.jobs) + Generated(g, settings, newGraph)
    ensures outcome != Stored ==> store.jobs == old(store.jobs)
    ensures P.Inv(old(store.jobs)) ==> P.Inv(store.jobs)
  {
    var graph, owners := ConnectGraphs(web, root);
    g := graph.links;
    FlatGraphIsClosed(web, root, owners, g);
    if forall s | s in Subterms(root) :: s in web && GraphOf(web[s], s, {}) {
      UntouchedTermFlattens(web, root, owners, g);
    }
    outcome := Delay(store, graph.links, settings, newGraph);
    if P.Inv(old(store.jobs)) && outcome == Stored {
      GeneratedIsValid(old(store.jobs), g, settings, newGraph);
    }
  }

  /** t holds the jobs of g, none of them done yet, depending on each other as g says. */
  ghost predicate HoldsFresh(t: P.Store, g: Links<Delayable>) {
    && g.Keys <= t.Keys
    && forall v {:trigger Parents(g, v)} | v in g :: t[v].state != P.Done && t[v].dependsOn == Parents(g, v)
  }

  lemma NoSelfEdge(g: Links<Delayable>)
    requires Acyclic(g)
    ensures !HasSelfEdge(g)
  {
    if v :| v in g && v in g[v] {
      EdgeReaches(g, v, v);
      assert false;
    }
  }

  lemma GeneratedIsFresh(s: P.Store, g: Links<Delayable>, settings: map<Delayable, Settings>, newGraph: nat)
    requires g.Keys <= settings.Keys
    requires forall u | u in s :: s[u].state != P.Failed && s[u].state != P.Cancelled
    ensures
      var t := s + Generated(g, settings, newGraph);
      HoldsFresh(t, g) && forall u | u in t :: t[u].state != P.Failed && t[u].state != P.Cancelled
  {
  }

  /** A closed graph of new jobs, and settings for them. */
  ghost predicate CanBeDelayed(s: P.Store, g: Links<Delayable>, settings: map<Delayable, Settings>) {
    Closed(g) && g.Keys <= settings.Keys && g.Keys !! s.Keys
  }

  lemma DelayedGraphIsFresh(s: P.Store, g: Links<Delayable>, settings: map<Delayable, Settings>, newGraph: nat)
    requires Healthy(s) && Acyclic(Deps(s)) && CanBeDelayed(s, g, settings) && Acyclic(g)
    ensures
      var t := s + Generated(g, settings, newGraph);
      Healthy(t) && Acyclic(Deps(t)) && HoldsFresh(t, g)
  {
    NoSelfEdge(g);
    GeneratedIsValid(s, g, settings, newGraph);
    GeneratedIsAcyclic(s, g, settings, newGraph);
    GeneratedIsFresh(s, g, settings, newGraph);
  }

  /** In any order a successful run can finish jobs in, the ancestors of a new job come
      before it. */
  lemma {:induction false} AncestorsFinishFirst(t: P.Store, g: Links<Delayable>, order: seq<Delayable>, end: P.Store,
      p: seq<Delayable>, x: Delayable, i: nat)
    requires FinishesInOrder(t, order, end) && i < |order|
    requires HoldsFresh(t, g) && Closed(g) && WalkFromTo(g, p, x, order[i])
    ensures x in order[..i]
    decreases |p|
  {
    LastStep(g, p, x, order[i]);
    var u := p[|p| - 2];
    assert order[i] in order && order[i] in g && u in Parents(g, order[i]);
    assert u in t[order[i]].dependsOn;
    assert u in g && Parents(g, u) == Parents(g, u) && t[u].state != P.Done;
    assert u in order[..i];
    if |p| > 2 {
      var k :| 0 <= k < i && order[k] == u;
      AncestorsFinishFirst(t, g, order, end, p[..|p| - 1], x, k);
    }
  }

  lemma {:induction false} AncestorsOfReleasedAreDone(s: P.Store, g: Links<Delayable>, p: seq<Delayable>, x: Delayable,
      y: Delayable)
    requires P.Inv(s) && DoneOnDone(s) && y in s && (P.Runnable(s[y].state) || s[y].state == P.Done)
    requires forall u, v | Edge(g, u, v) :: v in s && u in s[v].dependsOn
    requires WalkFromTo(g, p, x, y)
    ensures x in s && s[x].state == P.Done
    decreases |p|
  {
    LastStep(g, p, x, y);
    var u := p[|p| - 2];
    ParentsOfReleasedAreDone(s, y, u);
    if |p| > 2 {
      AncestorsOfReleasedAreDone(s, g, p[..|p| - 1], x, u);
    }
  }

  /** Through failures, retries, cancellations and requeues alike: no job of a delayed graph is
      released, let alone run, before everything the graph puts before it is done. */
  lemma GraphHoldsJobsBack(s: P.Store, g: Links<Delayable>, settings: map<Delayable, Settings>, newGraph: nat,
      es: seq<P.Event>, x: Delayable, y: Delayable)
    requires P.Inv(s) && DoneOnDone(s) && CanBeDelayed(s, g, settings) && !HasSelfEdge(g)
    requires IsRun(s + Generated(g, settings, newGraph), es) && forall e | e in es :: !e.MarkDone?
    requires Reaches(g, x, y)
    ensures HeldBack(After(s + Generated(g, settings, newGraph), es), x, y)
  {
    var t := s + Generated(g, settings, newGraph);
    GeneratedIsValid(s, g, settings, newGraph);
    GeneratedStandsOnDone(s, g, settings, newGraph);
    GeneratedLinks(s, g, settings, newGraph);
    RunKeepsDoneOnDone(t, es);
    ReleasedAfterAncestors(t, After(t, es), g, x, y);
  }

  /** y is neither released nor done unless x is done. */
  ghost predicate HeldBack(end: P.Store, x: Delayable, y: Delayable) {
    y in end && (P.Runnable(end[y].state) || end[y].state == P.Done ==> x in end && end[x].state == P.Done)
  }

  /** For a chain/group term: everything the term puts before a job. */
  lemma NoJobRunsEarly(s: P.Store, d: Delayable, settings: map<Delayable, Settings>, newGraph: nat, es: seq<P.Event>,
      x: Delayable, y: Delayable)
    requires P.Inv(s) && DoneOnDone(s)
    requires DistinctJobs(d) && SeamsHold(d) && Jobs(d) <= settings.Keys && Jobs(d) !! s.Keys
    requires IsRun(s + Generated(TermLinks(d), settings, newGraph), es) && forall e | e in es :: !e.MarkDone?
    requires Before(d, x, y)
    ensures HeldBack(After(s + Generated(TermLinks(d), settings, newGraph), es), x, y)
  {
    TermGraphIsSound(d);
    NoSelfEdge(TermLinks(d));
    SeamsSuffice(d);
    GraphHoldsJobsBack(s, TermLinks(d), settings, newGraph, es, x, y);
  }

  /** For any web, with on_done on whatever object and to whatever depth: everything the chains
      and the on_done calls together put before a job. */
  lemma NoJobOfAWebRunsEarly(s: P.Store, web: Web, next: Successors, root: Delayable, owners: set<Delayable>,
      g: Links<Delayable>, settings: map<Delayable, Settings>, newGraph: nat, es: seq<P.Event>, x: Delayable,
      y: Delayable)
    requires P.Inv(s) && DoneOnDone(s)
    requires Linked(web, next, owners) && Within(web, root, owners) && IsUnionOf(g, web, owners) &&
        AllSeamsHold(next, owners)
    requires g.Keys <= settings.Keys && g.Keys !! s.Keys && !HasSelfEdge(g)
    requires IsRun(s + Generated(g, settings, newGraph), es) && forall e | e in es :: !e.MarkDone?
    requires Reaches(MeantLinks(next, owners), x, y)
    ensures HeldBack(After(s + Generated(g, settings, newGraph), es), x, y)
  {
    FlatGraphIsClosed(web, root, owners, g);
    LinkedWebMeansItsOrder(web, next, root, owners, g);
    GraphHoldsJobsBack(s, g, settings, newGraph, es, x, y);
  }

  lemma ReleasedAfterAncestors(t: P.Store, end: P.Store, g: Links<Delayable>, x: Delayable, y: Delayable)
    requires P.Inv(end) && DoneOnDone(end) && P.SameLinks(t, end) && Reaches(g, x, y)
    requires forall u, v | Edge(g, u, v) :: v in t && u in t[v].dependsOn
    ensures HeldBack(end, x, y)
  {
    var p :| WalkFromTo(g, p, x, y);
    LastStep(g, p, x, y);
    if P.Runnable(end[y].state) || end[y].state == P.Done {
      AncestorsOfReleasedAreDone(end, g, p, x, y);
    }
  }

  lemma GeneratedStandsOnDone(s: P.Store, g: Links<Delayable>, settings: map<Delayable, Settings>, newGraph: nat)
    requires P.Inv(s) && DoneOnDone(s) && g.Keys <= settings.Keys && g.Keys !! s.Keys
    ensures DoneOnDone(s + Generated(g, settings, newGraph))
  {
    var t := s + Generated(g, settings, newGraph);
    forall u | u in t
      ensures DoneOnDoneAt(t, u)
    {
      if u in s {
        assert P.InvAt(s, u) && DoneOnDoneAt(s, u) && t[u] == s[u];
        assert forall p | p in s :: t[p] == s[p];
      }
    }
  }

  lemma GeneratedLinks(s: P.Store, g: Links<Delayable>, settings: map<Delayable, Settings>, newGraph: nat)
    requires CanBeDelayed(s, g, settings)
    ensures
      var t := s + Generated(g, settings, newGraph);
      forall u, v | Edge(g, u, v) :: v in t && u in t[v].dependsOn
  {
    forall u, v | Edge(g, u, v)
      ensures v in g && u in Parents(g, v)
    {
    }
  }

  /** The jobs in order, each once; what the order puts before one of them comes before it. */
  ghost predicate InOrder(order: seq<Delayable>, g: Links<Delayable>) {
    Distinct(order) && forall x, i | 0 <= i < |order| && Reaches(g, x, order[i]) :: x in order[..i]
  }

  /** An acyclic graph delayed into a healthy store: whatever a run of successful jobs has
      finished, it has finished in the graph's order, each job once; and a run that cannot go
      on has done every job of the graph. */
  lemma GraphRunsInOrder(s: P.Store, g: Links<Delayable>, settings: map<Delayable, Settings>, newGraph: nat,
      es: seq<P.Event>)
    requires Healthy(s) && Acyclic(Deps(s)) && CanBeDelayed(s, g, settings) && Acyclic(g)
    requires IsRun(s + Generated(g, settings, newGraph), es) && forall e | e in es :: IsSuccess(e)
    ensures
      var order, end := Finishes(es), After(s + Generated(g, settings, newGraph), es);
      && InOrder(order, g)
      && ((forall e :: IsSuccess(e) ==> !P.Enabled(end, e)) ==> forall x | x in g :: x in end && end[x].state == P.Done)
  {
    var t, order := s + Generated(g, settings, newGraph), Finishes(es);
    DelayedGraphIsFresh(s, g, settings, newGraph);
    AllSucceedAllDone(t, es);
    assert g.Keys <= t.Keys;
    forall x, i | 0 <= i < |order| && Reaches(g, x, order[i])
      ensures x in order[..i]
    {
      var p :| WalkFromTo(g, p, x, order[i]);
      AncestorsFinishFirst(t, g, order, After(t, es), p, x, i);
    }
  }

  /** For a chain/group term: in the order the term means. */
  lemma DelayedTermRunsInOrder(s: P.Store, d: Delayable, settings: map<Delayable, Settings>, newGraph: nat,
      es: seq<P.Event>)
    requires Healthy(s) && Acyclic(Deps(s))
    requires DistinctJobs(d) && SeamsHold(d) && Jobs(d) <= settings.Keys && Jobs(d) !! s.Keys
    requires IsRun(s + Generated(TermLinks(d), settings, newGraph), es) && forall e | e in es :: IsSuccess(e)
    ensures
      var order, end := Finishes(es), After(s + Generated(TermLinks(d), settings, newGraph), es);
      && Distinct(order)
      && (forall x, i | 0 <= i < |order| && Before(d, x, order[i]) :: x in order[..i])
      && ((forall e :: IsSuccess(e) ==> !P.Enabled(end, e)) ==>
          forall x | x in Jobs(d) :: x in end && end[x].state == P.Done)
  {
    TermGraphIsSound(d);
    SeamsSuffice(d);
    GraphRunsInOrder(s, TermLinks(d), settings, newGraph, es);
  }

  /** For any web whose chains and on_done calls do not contradict each other: in the order they
      mean together. */
  lemma DelayedWebRunsInOrder(s: P.Store, web: Web, next: Successors, root: Delayable, owners: set<Delayable>,
      g: Links<Delayable>, settings: map<Delayable, Settings>, newGraph: nat, es: seq<P.Event>)
    requires Healthy(s) && Acyclic(Deps(s))
    requires Linked(web, next, owners) && Within(web, root, owners) && IsUnionOf(g, web, owners)
    requires AllSeamsHold(next, owners) && Acyclic(MeantLinks(next, owners))
    requires g.Keys <= settings.Keys && g.Keys !! s.Keys
    requires IsRun(s + Generated(g, settings, newGraph), es) && forall e | e in es :: IsSuccess(e)
    ensures
      var order, end := Finishes(es), After(s + Generated(g, settings, newGraph), es);
      && InOrder(order, MeantLinks(next, owners))
      && ((forall e :: IsSuccess(e) ==> !P.Enabled(end, e)) ==>
            forall x | x in JobsAmong(owners) :: x in end && end[x].state == P.Done)
  {
    FlatGraphIsClosed(web, root, owners, g);
    LinkedWebFlattens(web, next, root, owners, g);
    LinkedWebMeansItsOrder(web, next, root, owners, g);
    GraphRunsInOrder(s, g, settings, newGraph, es);
  }

  /** Executing the jobs one after the other in topological order, as delay() does when told
      not to queue them, performs each job of an acyclic graph once, in the graph's order; for
      a term whose seams hold, that is the order the term means. */
  method ExecuteGraphDirect(graph: Graph<Delayable>) returns (performed: seq<Delayable>)
    requires Closed(graph.links) && Acyclic(graph.links)
    ensures InOrder(performed, graph.links) && forall j :: j in performed <==> j in graph.links
    ensures forall d | graph.links == TermLinks(d) && SeamsHold(d) ::
              forall x, i | 0 <= i < |performed| && Before(d, x, performed[i]) :: x in performed[..i]
  {
    performed := graph.TopologicalSort();
    forall x, i | 0 <= i < |performed| && Reaches(graph.links, x, performed[i])
      ensures x in performed[..i]
    {
      var p :| WalkFromTo(graph.links, p, x, performed[i]);
      AncestorsFirst(graph.links, performed, p, x, i);
    }
    forall d | graph.links == TermLinks(d) && SeamsHold(d)
      ensures forall x, i | 0 <= i < |performed| && Before(d, x, performed[i]) :: x in performed[..i]
    {
      SeamsSuffice(d);
    }
  }
}
