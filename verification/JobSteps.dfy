/** What every step of the protocol does to every stored job, what a job can become in one step,
    how many tries it takes to fail, and that whatever has failed or was cancelled, the whole
    store can still be brought to done. */
module JobSteps {
  import opened Basics
  import opened Graphs
  import opened JobProtocol
  import opened JobRuns

  // ── One step ─────────────────────────────────────────────────

  /** All of c's parents are in this state, u counting as if it were. */
  ghost predicate AllParents(s: Store, c: Uuid, u: Uuid, state: JobState)
    requires c in s
  {
    u in s[c].dependsOn && forall p | p in s[c].dependsOn && p != u :: p in s && s[p].state == state
  }

  /** The waiting jobs that wait for u and otherwise only for jobs in this state move on; no
      other job but u changes. */
  ghost predicate OnlyLastOnesMove(s: Store, t: Store, u: Uuid, required: JobState, to: JobState) {
    && t.Keys == s.Keys
    && forall c | c in s && c != u ::
         t[c] == if s[c].state == WaitDependencies && AllParents(s, c, u, required) then s[c].(state := to) else s[c]
  }

  lemma LastOnesMove(s: Store, u: Uuid, job: StoredJob, required: JobState, to: JobState)
    requires Inv(s) && u in s && job == s[u].(state := required, retry := job.retry)
    requires required != WaitDependencies
    ensures OnlyLastOnesMove(s, UpdateChildren(s[u := job], u, to, required), u, required, to)
    ensures UpdateChildren(s[u := job], u, to, required)[u] == job
  {
    var d := s[u := job];
    forall c | c in d
      ensures LinkedAt(d, c)
    {
      assert InvAt(s, c);
    }
    forall c | c in s && c != u
      ensures Moves(d, u, c, required) <==> s[c].state == WaitDependencies && AllParents(s, c, u, required)
    {
      MovesWhenLinked(d, u, c, required);
      assert InvAt(s, c);
    }
  }

  /** How a try ends: a success is done and releases the last ones waiting for it; a retryable
      error counts and puts the job back, but fails it on its last allowed try; one that is to
      be ignored leaves the count alone; a conflict puts it back whatever the limit; any other
      error fails it. Nothing else changes. */
  lemma EndOfTry(s: Store, u: Uuid, outcome: Outcome)
    requires Inv(s) && u in s && s[u].state == Started
    ensures
      var t, job, tried := Step(s, Conclude(u, outcome)), s[u], s[u].retry + 1;
      && (outcome == Success ==>
            t[u] == job.(state := Done, retry := tried) && OnlyLastOnesMove(s, t, u, Done, Pending))
      && (outcome != Success ==> t == s[u := t[u]])
      && (outcome == Retryable(false) ==>
            var last := job.maxRetries > 0 && tried >= job.maxRetries;
            t[u] == job.(state := if last then Failed else Pending, retry := tried))
      && (outcome == Retryable(true) ==> t[u] == job.(state := Pending))
      && (outcome == Conflict ==> t[u] == job.(state := Pending, retry := tried))
      && (outcome == Error ==> t[u] == job.(state := Failed, retry := tried))
  {
    assert InvAt(s, u) && !HasUnfinishedParent(s, u);
    if outcome == Success {
      var done := s[u].(state := Done, retry := s[u].retry + 1);
      LastOnesMove(s, u, done, Done, Pending);
      assert SetState(s[u := s[u].(retry := s[u].retry + 1)], u, Done) == s[u := done];
    }
  }

  /** The other steps. A requeued job starts counting anew and waits if a parent is not done; a
      dead job is put back, its broken try counted, unless it had gone past its limit. */
  lemma OtherStepsDo(s: Store, e: Event)
    requires Inv(s) && Enabled(s, e) && !e.Conclude?
    ensures
      var t, u, job := Step(s, e), e.uuid, s[e.uuid];
      && (e.Enqueue? ==> t == s[u := job.(state := Enqueued)])
      && (e.Start? ==> t == s[u := job.(state := Started)])
      && (e.MarkDone? ==> t[u] == job.(state := Done) && OnlyLastOnesMove(s, t, u, Done, Pending))
      && (e.Cancel? ==> t[u] == job.(state := Cancelled) && OnlyLastOnesMove(s, t, u, Cancelled, Cancelled))
      && (e.Requeue? ==>
            t == s[u := job.(state := if HasUnfinishedParent(s, u) then WaitDependencies else Pending, retry := 0)])
      && (e.RequeueDead? ==>
            && t == s[u := t[u]]
            && t[u] == job.(
                 state := if 0 < job.maxRetries < job.retry then Failed else Pending,
                 retry := if job.state == Started then job.retry + 1 else job.retry))
  {
    var u := e.uuid;
    if e.MarkDone? {
      LastOnesMove(s, u, s[u].(state := Done), Done, Pending);
    }
    if e.Cancel? {
      LastOnesMove(s, u, s[u].(state := Cancelled), Cancelled, Cancelled);
    }
  }

  /** The worker of a job that was enqueued or started may die, of no other. */
  lemma WhoMayBeFoundDead(s: Store, u: Uuid)
    requires u in s
    ensures Enabled(s, RequeueDead(u)) <==> s[u].state == Enqueued || s[u].state == Started
  {
  }

  // ── What a job can become ────────────────────────────────────

  /** Some step on u takes it to this state. */
  ghost predicate CanBecome(s: Store, u: Uuid, to: JobState) {
    exists e: Event :: e.uuid == u && Enabled(s, e) && Step(s, e)[u].state == to
  }

  ghost predicate Drawn(s: Store, u: Uuid, to: JobState)
    requires u in s
  {
    var state, waits, spent := s[u].state, HasUnfinishedParent(s, u), 0 < s[u].maxRetries < s[u].retry;
    match to
    case Done => true
    case Cancelled => state != Done
    case Enqueued => state == Pending
    case Started => state == Enqueued
    case Pending => Runnable(state) || (!waits && (state == Failed || state == Cancelled))
    case WaitDependencies => waits && (state == Failed || state == Cancelled)
    case Failed => state == Started || (state == Enqueued && spent)
  }

  /** The state diagram: any job can be set to done, any that is not done can be cancelled, only
      a pending one is enqueued and only an enqueued one started; a job goes back to pending from
      everywhere but waiting and done, to waiting only when requeued from its end with a parent
      unfinished, and fails only from a try, or dead past its limit. */
  lemma StateDiagram(s: Store, u: Uuid, to: JobState)
    requires Inv(s) && u in s
    ensures CanBecome(s, u, to) <==> Drawn(s, u, to)
  {
    assert InvAt(s, u);
    var state := s[u].state;
    if to == Done {
      assert Enabled(s, MarkDone(u)) && Step(s, MarkDone(u))[u].state == to;
    }
    if to == Cancelled && state != Done {
      assert Enabled(s, Cancel(u)) && Step(s, Cancel(u))[u].state == to;
    }
    if to == Enqueued && state == Pending {
      assert Enabled(s, Enqueue(u)) && Step(s, Enqueue(u))[u].state == to;
    }
    if to == Started && state == Enqueued {
      assert Enabled(s, Start(u)) && Step(s, Start(u))[u].state == to;
    }
    if Runnable(state) || state == Failed || state == Cancelled {
      assert Enabled(s, Requeue(u));
      assert Step(s, Requeue(u))[u].state == if HasUnfinishedParent(s, u) then WaitDependencies else Pending;
    }
    if to == Failed && state == Started {
      assert Enabled(s, Conclude(u, Error)) && Step(s, Conclude(u, Error))[u].state == to;
    }
    if to == Failed && state == Enqueued && 0 < s[u].maxRetries < s[u].retry {
      assert Enabled(s, RequeueDead(u)) && Step(s, RequeueDead(u))[u].state == to;
    }
    forall e: Event | e.uuid == u && Enabled(s, e) && Step(s, e)[u].state == to
      ensures Drawn(s, u, to)
    {
      if e.Conclude? {
        EndOfTry(s, u, e.outcome);
      } else {
        OtherStepsDo(s, e);
      }
    }
  }

  // ── How many tries it takes ──────────────────────────────────

  function RetriedTries(u: Uuid, n: nat): seq<Event> {
    if n == 0 then [] else [Enqueue(u), Start(u), Conclude(u, Retryable(false))] + RetriedTries(u, n - 1)
  }

  /** One try of a pending job that ends in a plain retryable error. */
  lemma OneRetriedTry(s: Store, u: Uuid)
    requires Inv(s) && u in s && s[u].state == Pending
    ensures
      var tried := s[u].retry + 1;
      var state := if 0 < s[u].maxRetries <= tried then Failed else Pending;
      && Enabled(s, Enqueue(u)) && Enabled(Step(s, Enqueue(u)), Start(u))
      && Enabled(Step(Step(s, Enqueue(u)), Start(u)), Conclude(u, Retryable(false)))
      && Step(Step(Step(s, Enqueue(u)), Start(u)), Conclude(u, Retryable(false))) ==
          s[u := s[u].(state := state, retry := tried)]
  {
    var s1 := Step(s, Enqueue(u));
    StepKeepsInv(s, Enqueue(u));
    var s2 := Step(s1, Start(u));
    StepKeepsInv(s1, Start(u));
    hide Step, Inv;
    OtherStepsDo(s, Enqueue(u));
    OtherStepsDo(s1, Start(u));
    EndOfTry(s2, u, Retryable(false));
  }

  lemma RunAfterThree(s: Store, a: Event, b: Event, c: Event, rest: seq<Event>)
    requires Enabled(s, a) && Enabled(Step(s, a), b) && Enabled(Step(Step(s, a), b), c)
    requires IsRun(Step(Step(Step(s, a), b), c), rest)
    ensures IsRun(s, [a, b, c] + rest) && After(s, [a, b, c] + rest) == After(Step(Step(Step(s, a), b), c), rest)
  {
    hide Step, Enabled;
    var es := [a, b, c] + rest;
    var s1 := Step(s, a);
    var s2 := Step(s1, b);
    assert es[1..][1..][1..] == rest && es[0] == a && es[1..][0] == b && es[1..][1..][0] == c;
    assert IsRun(s2, es[1..][1..]) && After(s2, es[1..][1..]) == After(Step(s2, c), rest);
    assert IsRun(s1, es[1..]) && After(s1, es[1..]) == After(Step(s2, c), rest);
  }

  /** A job that meets nothing but retryable errors stays pending as long as it has tries left,
      and for ever without a limit; the try that reaches the limit, and no earlier one, fails it. */
  lemma {:induction false} FailsOnTheLastTry(s: Store, u: Uuid, n: nat)
    requires Inv(s) && u in s && s[u].state == Pending
    requires s[u].maxRetries == 0 || s[u].retry + n <= s[u].maxRetries
    requires s[u].maxRetries > 0 ==> s[u].retry < s[u].maxRetries
    ensures
      var es, tried := RetriedTries(u, n), s[u].retry + n;
      && IsRun(s, es)
      && After(s, es) == s[u := s[u].(state := if 0 < s[u].maxRetries == tried then Failed
          else Pending, retry := tried)]
  {
    if n == 0 {
      assert s == s[u := s[u].(retry := s[u].retry + n)];
    } else {
      OneRetriedTry(s, u);
      var t := Step(Step(Step(s, Enqueue(u)), Start(u)), Conclude(u, Retryable(false)));
      TriedKeepsInv(s, u);
      hide Step, Enabled, Inv;
      if t[u].state == Pending {
        FailsOnTheLastTry(t, u, n - 1);
      }
      RunAfterThree(s, Enqueue(u), Start(u), Conclude(u, Retryable(false)), RetriedTries(u, n - 1));
    }
  }

  lemma TriedKeepsInv(s: Store, u: Uuid)
    requires Inv(s) && u in s && s[u].state == Pending
    ensures Inv(s[u := s[u].(state := Pending, retry := s[u].retry + 1)])
  {
    MovingOnKeepsInv(s, u, Pending, s[u].retry + 1);
  }

  // ── Nothing is lost for good ─────────────────────────────────

  lemma {:induction false} RunsCompose(s: Store, es: seq<Event>, more: seq<Event>)
    requires IsRun(s, es) && IsRun(After(s, es), more)
    ensures IsRun(s, es + more) && After(s, es + more) == After(After(s, es), more)
    decreases |es|
  {
    hide Step, Enabled;
    if es == [] {
      assert es + more == more;
    } else {
      RunsCompose(Step(s, es[0]), es[1..], more);
      assert (es + more)[1..] == es[1..] + more;
    }
  }

  predicate Ended(state: JobState) {
    state == Failed || state == Cancelled
  }

  /** Every job that failed or was cancelled, requeued. */
  lemma {:induction false} RequeueAllEnded(s: Store, us: set<Uuid>) returns (es: seq<Event>)
    requires Inv(s) && us == set u | u in s && Ended(s[u].state)
    ensures IsRun(s, es) && Healthy(After(s, es)) && SameLinks(s, After(s, es))
    ensures forall e | e in es :: e.Requeue?
    decreases us
  {
    if us == {} {
      assert forall u | u in s :: Ended(s[u].state) ==> u in us;
      return [];
    }
    var u :| u in us;
    var t := Step(s, Requeue(u));
    StepKeepsInv(s, Requeue(u));
    StepKeepsLinks(s, Requeue(u));
    OtherStepsDo(s, Requeue(u));
    hide Step, Inv;
    var rest := RequeueAllEnded(t, us - {u});
    es := [Requeue(u)] + rest;
    assert es[1..] == rest;
  }

  /** From then on, one success after the other. */
  lemma {:induction false} WorkToTheEnd(s: Store, left: nat) returns (es: seq<Event>)
    requires Healthy(s) && Acyclic(Deps(s)) && left == Left(s, s.Keys)
    ensures IsRun(s, es) && forall u | u in s :: u in After(s, es) && After(s, es)[u].state == Done
    ensures forall e | e in es :: IsSuccess(e)
    decreases left
  {
    if forall u | u in s :: s[u].state == Done {
      return [];
    }
    var p := SomethingCanRun(s);
    var e := if s[p].state == Pending then Enqueue(p)
      else if s[p].state == Enqueued then Start(p)
      else Conclude(p, Success);
    var t := Step(s, e);
    SuccessStep(s, e);
    SuccessStepUsesOne(s, e);
    assert Deps(t) == Deps(s);
    hide Step, Healthy, Left, Enabled;
    var rest := WorkToTheEnd(t, Left(t, t.Keys));
    es := [e] + rest;
    assert es[1..] == rest;
  }

  /** Whatever has failed, was cancelled or is still waiting: as long as no jobs depend on each
      other in a circle, some run brings every job of the store to done, without anybody setting
      one to done by hand. */
  lemma EverythingCanStillBeDone(s: Store) returns (es: seq<Event>)
    requires Inv(s) && Acyclic(Deps(s))
    ensures IsRun(s, es) && (forall e | e in es :: !e.MarkDone?)
    ensures forall u | u in s :: u in After(s, es) && After(s, es)[u].state == Done
  {
    var again := RequeueAllEnded(s, set u | u in s && Ended(s[u].state));
    var t := After(s, again);
    assert Deps(t) == Deps(s);
    hide Healthy, Left, Inv;
    var work := WorkToTheEnd(t, Left(t, t.Keys));
    RunsCompose(s, again, work);
    es := again + work;
  }
}
