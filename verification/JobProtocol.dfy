/** Stored jobs, the steps that move them, and what every step keeps. Each SQL update is one
    atomic change of the map from uuid to job. */
module JobProtocol {
  import opened Basics
  import opened Graphs
  import D = Delayables

  /** One job per delayable: the delayable names it. */
  type Uuid = D.Delayable

  datatype JobState = WaitDependencies | Pending | Enqueued | Started | Done | Cancelled | Failed

  datatype StoredJob = StoredJob(
    state: JobState,
    graph: Option<nat>,
    dependsOn: set<Uuid>,
    reverseDependsOn: set<Uuid>,
    retry: nat,
    maxRetries: nat,
    identityKey: Option<string>)

  type Store = map<Uuid, StoredJob>

  // ── The steps ────────────────────────────────────────────────

  function SetState(s: Store, u: Uuid, state: JobState): Store
    requires u in s
  {
    s[u := s[u].(state := state)]
  }

  /** set_pending: a job with an unfinished parent waits for it. */
  function SetPending(s: Store, u: Uuid, resetRetry: bool): Store
    requires u in s
  {
    var state := if exists p :: p in s && p in s[u].dependsOn && s[p].state != Done then WaitDependencies else Pending;
    s[u := s[u].(state := state, retry := if resetRetry then 0 else s[u].retry)]
  }

  /** The parents the shared query joins: stored and in the updated job's graph. */
  function JoinedParents(s: Store, u: Uuid, child: Uuid): set<Uuid>
    requires u in s && child in s
  {
    set p | p in s && p in s[child].dependsOn && s[p].graph == s[u].graph
  }

  predicate IsJoinedChild(s: Store, u: Uuid, child: Uuid)
    requires u in s
  {
    child in s && s[u].graph.Some? && s[child].graph == s[u].graph && child in s[u].reverseDependsOn
  }

  predicate Moves(s: Store, u: Uuid, child: Uuid, required: JobState)
    requires u in s && child in s
  {
    && IsJoinedChild(s, u, child) && s[child].state == WaitDependencies
    && JoinedParents(s, u, child) != {}
    && forall p | p in JoinedParents(s, u, child) :: s[p].state == required
  }

  /** The one UPDATE behind enqueue_waiting and cancel_dependent_jobs: waiting children of u
      whose joined parents are all in state `required` move to state `to`. */
  function UpdateChildren(s: Store, u: Uuid, to: JobState, required: JobState): Store
    requires u in s
  {
    map c | c in s :: if Moves(s, u, c, required) then s[c].(state := to) else s[c]
  }

  /** set_done, stored, then enqueue_waiting. */
  function Finished(s: Store, u: Uuid): Store
    requires u in s
  {
    UpdateChildren(SetState(s, u, Done), u, Pending, Done)
  }

  /** set_cancelled, stored, then cancel_dependent_jobs. */
  function CancelledWithChildren(s: Store, u: Uuid): Store
    requires u in s
  {
    UpdateChildren(SetState(s, u, Cancelled), u, Cancelled, Cancelled)
  }

  /** How the job's own function ended. Conflict: the database refused a concurrent update, an
      OperationalError the controller answers by postponing the job. */
  datatype Outcome = Success | Retryable(ignoreRetry: bool) | Conflict | Error

  /** How perform ended, for the caller that reacts to it. */
  datatype Verdict = Succeeded | Postpone | GiveUp

  /** perform, and what its caller does about it: counts the try, takes it back when asked to,
      and turns the last allowed retry into a failure; no limit at all when max_retries is zero.
      After a conflict nobody looks at the limit. */
  function Perform(job: StoredJob, outcome: Outcome): (StoredJob, Verdict) {
    var tried := job.(retry := job.retry + 1);
    match outcome
    case Success => (tried, Succeeded)
    case Error => (tried, GiveUp)
    case Conflict => (tried, Postpone)
    case Retryable(ignore) =>
      if ignore then (job, Postpone)
      else if tried.maxRetries == 0 then (tried, Postpone)
      else if tried.retry >= tried.maxRetries then (tried, GiveUp)
      else (tried, Postpone)
  }

  /** The end of a run: done, put back in the queue, or failed. */
  function Concluded(s: Store, u: Uuid, outcome: Outcome): Store
    requires u in s
  {
    var (job, verdict) := Perform(s[u], outcome);
    var tried := s[u := job];
    match verdict
    case Succeeded => Finished(tried, u)
    case Postpone => SetPending(tried, u, false)
    case GiveUp => SetState(tried, u, Failed)
  }

  /** requeue_dead_jobs on one job nobody holds the lock of: a try that was cut short counts,
      and a job already past its limit fails. */
  function FoundDead(job: StoredJob): StoredJob {
    var state := if job.maxRetries != 0 && job.retry > job.maxRetries then Failed else Pending;
    job.(state := state, retry := if job.state == Started then job.retry + 1 else job.retry)
  }

  datatype Event =
    | Enqueue(uuid: Uuid)
    | Start(uuid: Uuid)
    | Conclude(uuid: Uuid, outcome: Outcome)
    | MarkDone(uuid: Uuid)
    | Cancel(uuid: Uuid)
    | Requeue(uuid: Uuid)
    | RequeueDead(uuid: Uuid)

  /** When a step may be taken. Users may set any job to done; a done job is neither
      cancelled nor requeued. */
  predicate Enabled(s: Store, e: Event) {
    && e.uuid in s
    && match e
       case Enqueue(u) => s[u].state == Pending
       case Start(u) => s[u].state == Enqueued
       case Conclude(u, _) => s[u].state == Started
       case MarkDone(u) => true
       case Cancel(u) => s[u].state != Done
       case Requeue(u) => s[u].state != WaitDependencies && s[u].state != Done
       case RequeueDead(u) => s[u].state == Enqueued || s[u].state == Started
  }

  function Step(s: Store, e: Event): Store
    requires Enabled(s, e)
  {
    match e
    case Enqueue(u) => SetState(s, u, Enqueued)
    case Start(u) => SetState(s, u, Started)
    case Conclude(u, outcome) => Concluded(s, u, outcome)
    case MarkDone(u) => Finished(s, u)
    case Cancel(u) => CancelledWithChildren(s, u)
    case Requeue(u) => SetPending(s, u, true)
    case RequeueDead(u) => s[u := FoundDead(s[u])]
  }

  // ── What every state keeps ───────────────────────────────────

  predicate Runnable(state: JobState) {
    state == Pending || state == Enqueued || state == Started
  }

  /** Dependencies are recorded on both sides, stay inside one graph, and never name the job
      itself. */
  ghost predicate LinkedAt(s: Store, u: Uuid)
    requires u in s
  {
    && u !in s[u].dependsOn
    && (forall p | p in s[u].dependsOn ::
        p in s && u in s[p].reverseDependsOn && s[p].graph == s[u].graph && s[u].graph.Some?)
    && (forall c | c in s[u].reverseDependsOn :: c in s && u in s[c].dependsOn)
  }

  ghost predicate HasUnfinishedParent(s: Store, u: Uuid)
    requires u in s
  {
    exists p :: p in s[u].dependsOn && p in s && s[p].state != Done
  }

  /** A waiting job has something to wait for; a job that may run has nothing. */
  ghost predicate PacedAt(s: Store, u: Uuid)
    requires u in s
  {
    && (s[u].state == WaitDependencies ==> HasUnfinishedParent(s, u))
    && (Runnable(s[u].state) ==> !HasUnfinishedParent(s, u))
  }

  ghost predicate InvAt(s: Store, u: Uuid)
    requires u in s
  {
    LinkedAt(s, u) && PacedAt(s, u)
  }

  ghost predicate Inv(s: Store) {
    forall u {:trigger InvAt(s, u)} :: u in s ==> InvAt(s, u)
  }

  /** Of the whole store, sound or not: c waits, u names it as a dependent and shares a graph with
      it, and of the jobs c depends on the stored ones of that graph, of which there is one, are
      all in this state. */
  ghost predicate ReadyIn(s: Store, u: Uuid, c: Uuid, required: JobState)
    requires u in s && c in s
  {
    && s[c].state == WaitDependencies && c in s[u].reverseDependsOn
    && s[u].graph.Some? && s[c].graph == s[u].graph
    && (exists p :: p in s[c].dependsOn && p in s && s[p].graph == s[u].graph)
    && forall p | p in s[c].dependsOn && p in s && s[p].graph == s[u].graph :: s[p].state == required
  }

  lemma MovesWhenReady(s: Store, u: Uuid, c: Uuid, required: JobState)
    requires u in s && c in s
    ensures Moves(s, u, c, required) <==> ReadyIn(s, u, c, required)
  {
    if ReadyIn(s, u, c, required) {
      var p :| p in s[c].dependsOn && p in s && s[p].graph == s[u].graph;
      assert p in JoinedParents(s, u, c);
    }
  }

  // ── The store object ─────────────────────────────────────────

  class JobStore {
    var jobs: Store

    constructor (initial: Store)
      ensures jobs == initial
    {
      jobs := initial;
    }

    method EnqueueWaiting(u: Uuid)
      requires u in jobs
      modifies this
      ensures jobs == UpdateChildren(old(jobs), u, Pending, Done)
      ensures jobs.Keys == old(jobs).Keys && forall c | c in jobs ::
          jobs[c] == if ReadyIn(old(jobs), u, c, Done) then old(jobs)[c].(state := Pending) else old(jobs)[c]
    {
      forall c | c in jobs {
        MovesWhenReady(jobs, u, c, Done);
      }
      hide Moves, ReadyIn;
      UpdateDependents(u, Pending, Done);
    }

    method CancelDependentJobs(u: Uuid)
      requires u in jobs
      modifies this
      ensures jobs == UpdateChildren(old(jobs), u, Cancelled, Cancelled)
      ensures jobs.Keys == old(jobs).Keys && forall c | c in jobs ::
          jobs[c] == if ReadyIn(old(jobs), u, c, Cancelled) then old(jobs)[c].(state := Cancelled) else old(jobs)[c]
    {
      forall c | c in jobs {
        MovesWhenReady(jobs, u, c, Cancelled);
      }
      hide Moves, ReadyIn;
      UpdateDependents(u, Cancelled, Cancelled);
    }

    method UpdateDependents(u: Uuid, to: JobState, required: JobState)
      requires u in jobs
      modifies this
      ensures jobs == UpdateChildren(old(jobs), u, to, required)
    {
      hide Moves;
      var s := jobs;
      var todo := s.Keys;
      while todo != {}
        invariant todo <= s.Keys && jobs.Keys == s.Keys
        invariant forall c | c in s :: jobs[c] == if c !in todo && Moves(s, u, c, required) then s[c].(state := to)
            else s[c]
        decreases todo
      {
        var c :| c in todo;
        if Moves(s, u, c, required) {
          jobs := jobs[c := s[c].(state := to)];
        }
        todo := todo - {c};
      }
    }

    method Advance(e: Event)
      requires Enabled(jobs, e)
      modifies this
      ensures jobs == Step(old(jobs), e)
    {
      var u := e.uuid;
      match e {
        case Enqueue(_) =>
          jobs := jobs[u := jobs[u].(state := Enqueued)];
        case Start(_) =>
          jobs := jobs[u := jobs[u].(state := Started)];
        case Conclude(_, outcome) =>
          var (job, verdict) := Perform(jobs[u], outcome);
          jobs := jobs[u := job];
          if verdict == Succeeded {
            jobs := jobs[u := jobs[u].(state := Done)];
            EnqueueWaiting(u);
          } else if verdict == Postpone {
            PutBack(u, false);
          } else {
            jobs := jobs[u := jobs[u].(state := Failed)];
          }
        case MarkDone(_) =>
          jobs := jobs[u := jobs[u].(state := Done)];
          EnqueueWaiting(u);
        case Cancel(_) =>
          jobs := jobs[u := jobs[u].(state := Cancelled)];
          CancelDependentJobs(u);
        case Requeue(_) =>
          PutBack(u, true);
        case RequeueDead(_) =>
          jobs := jobs[u := FoundDead(jobs[u])];
      }
    }

    method PutBack(u: Uuid, resetRetry: bool)
      requires u in jobs
      modifies this
      ensures jobs == SetPending(old(jobs), u, resetRetry)
    {
      var parents := set p | p in jobs[u].dependsOn && p in jobs && jobs[p].state != Done;
      var job := jobs[u];
      if parents != {} {
        var p :| p in parents;
        job := job.(state := WaitDependencies);
      } else {
        assert forall p | p in jobs[u].dependsOn && p in jobs :: p !in parents;
        job := job.(state := Pending);
      }
      if resetRetry {
        job := job.(retry := 0);
      }
      jobs := jobs[u := job];
    }
  }

  // ── Every step keeps the invariant ───────────────────────────

  /** A change of state and tries alone leaves the dependencies as they are. */
  ghost predicate SameLinks(s: Store, t: Store) {
    && s.Keys == t.Keys
    && forall u | u in s ::
         && t[u].dependsOn == s[u].dependsOn && t[u].reverseDependsOn == s[u].reverseDependsOn
         && t[u].graph == s[u].graph && t[u].maxRetries == s[u].maxRetries
  }

  lemma ChildrenOfLinked(s: Store, u: Uuid, c: Uuid)
    requires u in s && c in s && LinkedAt(s, c) && LinkedAt(s, u)
    ensures IsJoinedChild(s, u, c) <==> u in s[c].dependsOn
    ensures u in s[c].dependsOn ==> JoinedParents(s, u, c) == s[c].dependsOn
  {
  }

  ghost predicate AllLinked(s: Store) {
    forall u {:trigger LinkedAt(s, u)} :: u in s ==> LinkedAt(s, u)
  }

  /** Once the dependencies are sound, the joined parents are the parents. */
  lemma MovesWhenLinked(s: Store, u: Uuid, c: Uuid, required: JobState)
    requires AllLinked(s) && u in s && c in s
    ensures Moves(s, u, c, required) <==>
      u in s[c].dependsOn && s[c].state == WaitDependencies &&
          forall p | p in s[c].dependsOn :: p in s && s[p].state == required
  {
    assert LinkedAt(s, u) && LinkedAt(s, c);
    ChildrenOfLinked(s, u, c);
  }

  lemma SetStateKeepsLinks(s: Store, u: Uuid, state: JobState)
    requires u in s && Inv(s)
    ensures SameLinks(s, SetState(s, u, state)) && AllLinked(SetState(s, u, state))
  {
    var d := SetState(s, u, state);
    forall c | c in d
      ensures LinkedAt(d, c)
    {
      assert InvAt(s, c);
    }
  }

  lemma FinishedPaces(s: Store, u: Uuid, c: Uuid)
    requires Inv(s) && u in s && c in s && c != u
    ensures PacedAt(Finished(s, u), c)
  {
    var d, t := SetState(s, u, Done), Finished(s, u);
    SetStateKeepsLinks(s, u, Done);
    MovesWhenLinked(d, u, c, Done);
    assert InvAt(s, c);
    if t[c].state == WaitDependencies {
      var p :| p in s[c].dependsOn && p in s && s[p].state != Done;
      if u in s[c].dependsOn {
        var q :| q in d[c].dependsOn && !(q in d && d[q].state == Done);
        assert q in t && t[q].state != Done;
      } else {
        assert p in t && t[p].state != Done;
      }
    }
    if Runnable(t[c].state) {
      forall p | p in t[c].dependsOn && p in t
        ensures t[p].state == Done
      {
        if Moves(d, u, c, Done) {
          assert d[p].state == Done;
        } else {
          assert s[p].state == Done;
        }
      }
    }
  }

  lemma FinishedKeepsInv(s: Store, u: Uuid)
    requires Inv(s) && u in s
    ensures Inv(Finished(s, u))
  {
    var d, t := SetState(s, u, Done), Finished(s, u);
    SetStateKeepsLinks(s, u, Done);
    forall c | c in t
      ensures InvAt(t, c)
    {
      assert InvAt(s, c);
      if c != u {
        FinishedPaces(s, u, c);
      }
    }
  }

  /** A step that finishes no job and unfinishes none keeps the invariant of every job whose
      new state still fits its parents. */
  lemma NoneFinishedKeepsInv(s: Store, t: Store)
    requires Inv(s) && SameLinks(s, t)
    requires forall p | p in s :: s[p].state == Done <==> t[p].state == Done
    requires forall c | c in s && t[c].state == WaitDependencies ::
        s[c].state == WaitDependencies || HasUnfinishedParent(s, c)
    requires forall c | c in s && Runnable(t[c].state) :: Runnable(s[c].state) || !HasUnfinishedParent(s, c)
    ensures Inv(t)
  {
    forall c | c in t
      ensures InvAt(t, c)
    {
      assert InvAt(s, c);
    }
  }

  lemma CancelKeepsInv(s: Store, u: Uuid)
    requires Inv(s) && u in s && s[u].state != Done
    ensures Inv(CancelledWithChildren(s, u))
  {
    SetStateKeepsLinks(s, u, Cancelled);
    NoneFinishedKeepsInv(s, CancelledWithChildren(s, u));
  }

  /** A job that may run already moves on among the states it may run in, or out of them;
      how often it was tried is nothing to the others. */
  lemma MovingOnKeepsInv(s: Store, u: Uuid, state: JobState, retry: nat)
    requires Inv(s) && u in s && s[u].state != Done && (state == Failed || (Runnable(state) && Runnable(s[u].state)))
    ensures Inv(s[u := s[u].(retry := retry, state := state)])
  {
    NoneFinishedKeepsInv(s, s[u := s[u].(retry := retry, state := state)]);
  }

  /** Putting back a job that was not done. */
  lemma SetPendingKeepsInv(s: Store, u: Uuid, retry: nat, resetRetry: bool)
    requires Inv(s) && u in s && s[u].state != Done
    ensures Inv(SetPending(s[u := s[u].(retry := retry)], u, resetRetry))
  {
    NoneFinishedKeepsInv(s, SetPending(s[u := s[u].(retry := retry)], u, resetRetry));
  }

  lemma ConcludedKeepsInv(s: Store, u: Uuid, outcome: Outcome)
    requires Inv(s) && u in s && s[u].state == Started
    ensures Inv(Concluded(s, u, outcome))
  {
    var (job, verdict) := Perform(s[u], outcome);
    match verdict
    case Succeeded =>
      MovingOnKeepsInv(s, u, Failed, job.retry);
      var failed := s[u := s[u].(retry := job.retry, state := Failed)];
      FinishedKeepsInv(failed, u);
      assert SetState(failed, u, Done) == SetState(s[u := job], u, Done);
    case Postpone =>
      SetPendingKeepsInv(s, u, job.retry, false);
      assert s[u := job] == s[u := s[u].(retry := job.retry)];
    case GiveUp =>
      MovingOnKeepsInv(s, u, Failed, job.retry);
      assert Concluded(s, u, outcome) == s[u := s[u].(retry := job.retry, state := Failed)];
  }

  /** The protocol's invariant is kept by every step. */
  lemma StepKeepsInv(s: Store, e: Event)
    requires Inv(s) && Enabled(s, e)
    ensures Inv(Step(s, e))
  {
    match e
    case Enqueue(u) => MovingOnKeepsInv(s, u, Enqueued, s[u].retry);
    case Start(u) => MovingOnKeepsInv(s, u, Started, s[u].retry);
    case Conclude(u, outcome) => ConcludedKeepsInv(s, u, outcome);
    case MarkDone(u) => FinishedKeepsInv(s, u);
    case Cancel(u) => CancelKeepsInv(s, u);
    case Requeue(u) =>
      SetPendingKeepsInv(s, u, s[u].retry, true);
      assert s[u := s[u].(retry := s[u].retry)] == s;
    case RequeueDead(u) =>
      MovingOnKeepsInv(s, u, FoundDead(s[u]).state, FoundDead(s[u]).retry);
  }

  /** Requeuing a done job is left out of the steps for a reason: it is harmless exactly as
      long as none of its children has been released. */
  lemma RequeuingDoneIsSafeOnlyBeforeRelease(s: Store, u: Uuid)
    requires Inv(s) && u in s && s[u].state == Done
    ensures Inv(SetPending(s, u, true)) <==> forall c | c in s && u in s[c].dependsOn :: !Runnable(s[c].state)
  {
    var t := SetPending(s, u, true);
    assert InvAt(s, u);
    if Inv(t) {
      forall c | c in s && u in s[c].dependsOn
        ensures !Runnable(s[c].state)
      {
        assert InvAt(t, c);
        assert t[u].state != Done;
      }
    }
    if forall c | c in s && u in s[c].dependsOn :: !Runnable(s[c].state) {
      forall c | c in t
        ensures InvAt(t, c)
      {
        assert InvAt(s, c);
        if c != u && t[c].state == WaitDependencies {
          var p :| p in s[c].dependsOn && p in s && s[p].state != Done;
          assert t[p].state != Done;
        }
        if c != u && Runnable(t[c].state) {
          assert forall p | p in t[c].dependsOn && p in t :: t[p] == s[p];
        }
      }
    }
  }
}
