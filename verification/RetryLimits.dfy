/** How often a job is tried: what keeps it within its limit, and what goes past it. */
module RetryLimits {
  import opened Basics
  import opened Graphs
  import opened JobProtocol
  import opened JobRuns
  import opened Delaying

  /** A job with a limit keeps to it, and has a try left as long as it has not ended. */
  predicate WithinRetries(job: StoredJob) {
    job.maxRetries > 0 ==>
      && job.retry <= job.maxRetries
      && (Runnable(job.state) || job.state == WaitDependencies ==> job.retry < job.maxRetries)
  }

  ghost predicate AllWithin(s: Store) {
    forall u {:trigger s[u]} | u in s :: WithinRetries(s[u])
  }

  /** The last allowed try of a job ends in a conflict, or with the death of its worker: it is
      counted, and the job is put back without a look at the limit. */
  predicate Overruns(s: Store, e: Event)
    requires Enabled(s, e)
  {
    var job := s[e.uuid];
    && job.state == Started && job.maxRetries > 0 && job.retry + 1 >= job.maxRetries
    && (e.RequeueDead? || (e.Conclude? && e.outcome == Conflict))
  }

  /** All other steps, plain retries among them, keep every job within its limit. */
  lemma StepKeepsLimitsExactlyWhen(s: Store, e: Event)
    requires AllWithin(s) && Enabled(s, e)
    ensures AllWithin(Step(s, e)) <==> !Overruns(s, e)
  {
    var t, u := Step(s, e), e.uuid;
    StepKeepsLinks(s, e);
    OthersKeepTheirTries(s, e);
    assert WithinRetries(s[u]);
    forall v | v in t && v != u
      ensures WithinRetries(t[v])
    {
      assert WithinRetries(s[v]);
    }
    StepOnItsJob(s, e);
    assert AllWithin(t) <==> WithinRetries(t[u]);
  }

  /** Other jobs may only be released or cancelled. */
  lemma OthersKeepTheirTries(s: Store, e: Event)
    requires Enabled(s, e)
    ensures forall v | v in s && v != e.uuid ::
      var job := Step(s, e)[v];
      job.retry == s[v].retry && (job.state == s[v].state || s[v].state == WaitDependencies)
  {
  }

  lemma StepOnItsJob(s: Store, e: Event)
    requires Enabled(s, e) && WithinRetries(s[e.uuid])
    ensures WithinRetries(Step(s, e)[e.uuid]) <==> !Overruns(s, e)
  {
  }

  // ── Over runs ────────────────────────────────────────────────

  ghost predicate WithinThroughout(s: Store, es: seq<Event>)
    requires IsRun(s, es)
  {
    AllWithin(s) && (es == [] || WithinThroughout(Step(s, es[0]), es[1..]))
  }

  ghost predicate NeverOverruns(s: Store, es: seq<Event>)
    requires IsRun(s, es)
  {
    es == [] || (!Overruns(s, es[0]) && NeverOverruns(Step(s, es[0]), es[1..]))
  }

  /** Over any run, every job stays within its limit if and only if no job's last allowed try
      ends in a conflict or with the death of its worker. */
  lemma {:induction false} RunKeepsLimitsExactlyWhen(s: Store, es: seq<Event>)
    requires AllWithin(s) && IsRun(s, es)
    ensures WithinThroughout(s, es) <==> NeverOverruns(s, es)
  {
    if es != [] {
      var t := Step(s, es[0]);
      StepKeepsLimitsExactlyWhen(s, es[0]);
      hide AllWithin, Overruns, Step, Enabled;
      if AllWithin(t) {
        RunKeepsLimitsExactlyWhen(t, es[1..]);
      }
    }
  }

  /** What delay() stores starts within its limits. */
  lemma GeneratedIsWithin(s: Store, graph: Links<Uuid>, settings: map<Uuid, Settings>, newGraph: nat)
    requires AllWithin(s) && graph.Keys <= settings.Keys
    ensures AllWithin(s + Generated(graph, settings, newGraph))
  {
  }

  // ── Past the limit ───────────────────────────────────────────

  /** One try of a pending job that ends in a conflict. */
  function ConflictingTry(u: Uuid): seq<Event> {
    [Enqueue(u), Start(u), Conclude(u, Conflict)]
  }

  function ConflictingTries(u: Uuid, n: nat): seq<Event> {
    if n == 0 then [] else ConflictingTry(u) + ConflictingTries(u, n - 1)
  }

  lemma OneConflict(s: Store, u: Uuid)
    requires Inv(s) && u in s && s[u].state == Pending
    ensures
      var t := s[u := s[u].(retry := s[u].retry + 1)];
      && Inv(t)
      && Enabled(s, Enqueue(u)) && Enabled(Step(s, Enqueue(u)), Start(u))
      && Enabled(Step(Step(s, Enqueue(u)), Start(u)), Conclude(u, Conflict))
      && Step(Step(Step(s, Enqueue(u)), Start(u)), Conclude(u, Conflict)) == t
  {
    assert InvAt(s, u);
    MovingOnKeepsInv(s, u, Pending, s[u].retry + 1);
    assert !HasUnfinishedParent(s, u);
  }

  /** However low its limit, a job that runs into conflicts alone is tried any number of times
      and is still pending. */
  lemma {:induction false} ConflictsNeverFail(s: Store, u: Uuid, n: nat)
    requires Inv(s) && u in s && s[u].state == Pending
    ensures
      var es := ConflictingTries(u, n);
      IsRun(s, es) && After(s, es) == s[u := s[u].(retry := s[u].retry + n)]
  {
    var es := ConflictingTries(u, n);
    if n == 0 {
      assert s == s[u := s[u].(retry := s[u].retry + n)];
    } else {
      var t := s[u := s[u].(retry := s[u].retry + 1)];
      OneConflict(s, u);
      ConflictsNeverFail(t, u, n - 1);
      var rest := ConflictingTries(u, n - 1);
      assert es[1..][1..][1..] == rest;
      hide Step, Enabled, Inv;
      var s1 := Step(s, Enqueue(u));
      var s2 := Step(s1, Start(u));
      assert es[0] == Enqueue(u) && es[1..][0] == Start(u) && es[1..][1..][0] == Conclude(u, Conflict);
      assert IsRun(s2, es[1..][1..]) && After(s2, es[1..][1..]) == After(t, rest);
      assert IsRun(s1, es[1..]) && After(s1, es[1..]) == After(t, rest);
    }
  }

  /** The fifth try of five ends in a conflict: counted and put back, the job waits for a sixth. */
  lemma LastTryIsNotTheLast(u: Uuid)
    ensures
      var s: Store := map[u := StoredJob(Started, None, {}, {}, 4, 5, None)];
      && Inv(s) && AllWithin(s) && Enabled(s, Conclude(u, Conflict))
      && Step(s, Conclude(u, Conflict)) == map[u := StoredJob(Pending, None, {}, {}, 5, 5, None)]
      && !AllWithin(Step(s, Conclude(u, Conflict)))
  {
    var s: Store := map[u := StoredJob(Started, None, {}, {}, 4, 5, None)];
    assert WithinRetries(s[u]) && InvAt(s, u);
    StepKeepsLimitsExactlyWhen(s, Conclude(u, Conflict));
  }
}
