/** What identity keys do to a second delay(): it stores nothing as long as every key is held by
    a job that still waits for its turn, and everything once one of them is not. */
module IdentityKeys {
  import opened Basics
  import opened Graphs
  import opened JobProtocol
  import opened JobRuns
  import opened Delaying

  /** Still to be started. */
  predicate AwaitsItsTurn(job: StoredJob) {
    job.state != Started && job.state != Done && job.state != Failed && job.state != Cancelled
  }

  /** Some job of the graph has a key, and every key of it is one of those of the other graph. */
  predicate SameKeys(graph: Links<Uuid>, settings: map<Uuid, Settings>, again: Links<Uuid>, anew: map<Uuid, Settings>)
    requires graph.Keys <= settings.Keys && again.Keys <= anew.Keys
  {
    && (exists a :: a in again && anew[a].identityKey.Some?)
    && forall a | a in again && anew[a].identityKey.Some? ::
         exists v :: v in graph && settings[v].identityKey == anew[a].identityKey
  }

  lemma {:induction false} RunKeepsKeys(s: Store, es: seq<Event>, u: Uuid)
    requires IsRun(s, es) && u in s
    ensures u in After(s, es) && After(s, es)[u].identityKey == s[u].identityKey
  {
    if es != [] {
      StepKeepsKeys(s, es[0]);
      RunKeepsKeys(Step(s, es[0]), es[1..], u);
    }
  }

  lemma StepKeepsKeys(s: Store, e: Event)
    requires Enabled(s, e)
    ensures Step(s, e).Keys == s.Keys && forall u | u in s :: Step(s, e)[u].identityKey == s[u].identityKey
  {
  }

  lemma StoredUnderItsKey(s: Store, graph: Links<Uuid>, settings: map<Uuid, Settings>, newGraph: nat, v: Uuid)
    requires graph.Keys <= settings.Keys && v in graph
    ensures
      var first := s + Generated(graph, settings, newGraph);
      v in first && first[v].identityKey == settings[v].identityKey
  {
    assert v in Generated(graph, settings, newGraph);
  }

  /** Delayed once, a graph with keys is found again: whatever has happened to the store since, a
      second graph with the same keys is answered as queued already, as long as each keyed job
      of the first still awaits its turn. */
  lemma SecondDelayFindsTheFirst(s: Store, graph: Links<Uuid>, settings: map<Uuid, Settings>, newGraph: nat,
      es: seq<Event>, again: Links<Uuid>, anew: map<Uuid, Settings>)
    requires graph.Keys <= settings.Keys && Answer(s, graph, settings) == Stored
    requires IsRun(s + Generated(graph, settings, newGraph), es)
    requires
      var t := After(s + Generated(graph, settings, newGraph), es);
      forall v | v in graph && v in t && settings[v].identityKey.Some? :: AwaitsItsTurn(t[v])
    requires again.Keys <= anew.Keys && SameKeys(graph, settings, again, anew)
    requires forall a | a in again :: a !in again[a]
    ensures Answer(After(s + Generated(graph, settings, newGraph), es), again, anew) == AlreadyQueued
  {
    var first := s + Generated(graph, settings, newGraph);
    var t := After(first, es);
    forall a | a in again && anew[a].identityKey.Some?
      ensures HasLiveTwin(t, anew[a].identityKey)
    {
      var v :| v in graph && settings[v].identityKey == anew[a].identityKey;
      StoredUnderItsKey(s, graph, settings, newGraph, v);
      hide Generated, IsRun, After;
      RunKeepsKeys(first, es, v);
      assert IsLiveTwin(t[v], anew[a].identityKey);
    }
    assert again != map[];
  }

  /** Once one key of the second graph is on no job that awaits its turn, all of it is stored. */
  lemma SpentKeyIsDelayedAgain(t: Store, again: Links<Uuid>, anew: map<Uuid, Settings>, a: Uuid)
    requires again.Keys <= anew.Keys && a in again && anew[a].identityKey.Some?
    requires forall j | j in t && t[j].identityKey == anew[a].identityKey :: !AwaitsItsTurn(t[j])
    requires forall v | v in again :: v !in again[v]
    ensures Answer(t, again, anew) == Stored
  {
    assert !HasLiveTwin(t, anew[a].identityKey);
    assert again != map[];
  }

  /** So is a graph without any key. */
  lemma UnkeyedIsAlwaysStored(t: Store, graph: Links<Uuid>, settings: map<Uuid, Settings>)
    requires graph.Keys <= settings.Keys && graph != map[] && forall v | v in graph :: v !in graph[v]
    requires forall v | v in graph :: settings[v].identityKey == None
    ensures Answer(t, graph, settings) == Stored
  {
  }
}
