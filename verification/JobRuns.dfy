/** Whole runs of the job protocol: what every run keeps, why a run never gets stuck except
    behind a failure, and what a run in which every job succeeds amounts to. */
module JobRuns {
  import opened Basics
  import opened Graphs
  import opened JobProtocol

  /** Every step of the run may be taken where it is taken. */
  ghost predicate IsRun(s: Store, es: seq<Event>) {
    es == [] || (Enabled(s, es[0]) && IsRun(Step(s, es[0]), es[1..]))
  }

  ghost function After(s: Store, es: seq<Event>): Store
    requires IsRun(s, es)
  {
    if es == [] then s else After(Step(s, es[0]), es[1..])
  }

  lemma {:induction false} RunKeepsInv(s: Store, es: seq<Event>)
    requires Inv(s) && IsRun(s, es)
    ensures Inv(After(s, es))
  {
    if es != [] {
      StepKeepsInv(s, es[0]);
      RunKeepsInv(Step(s, es[0]), es[1..]);
    }
  }

  // ── Nothing runs early ───────────────────────────────────────

  /** What is done stands on what is done. */
  ghost predicate DoneOnDoneAt(s: Store, u: Uuid)
    requires u in s
  {
    s[u].state == Done ==> forall p | p in s[u].dependsOn :: p in s && s[p].state == Done
  }

  ghost predicate DoneOnDone(s: Store) {
    forall u {:trigger DoneOnDoneAt(s, u)} :: u in s ==> DoneOnDoneAt(s, u)
  }

  lemma StepKeepsLinks(s: Store, e: Event)
    requires Enabled(s, e)
    ensures SameLinks(s, Step(s, e))
  {
  }

  /** Only a user setting a job to done by hand can put a done job on an unfinished one. */
  lemma StepKeepsDoneOnDone(s: Store, e: Event)
    requires Inv(s) && DoneOnDone(s) && Enabled(s, e) && !e.MarkDone?
    ensures DoneOnDone(Step(s, e))
  {
    var t := Step(s, e);
    StepKeepsLinks(s, e);
    assert InvAt(s, e.uuid);
    forall u | u in t
      ensures DoneOnDoneAt(t, u)
    {
      assert DoneOnDoneAt(s, u);
      assert t[u].state == Done ==> s[u].state == Done || u == e.uuid;
    }
  }

  lemma {:induction false} RunKeepsDoneOnDone(s: Store, es: seq<Event>)
    requires Inv(s) && DoneOnDone(s) && IsRun(s, es) && forall e | e in es :: !e.MarkDone?
    ensures Inv(After(s, es)) && DoneOnDone(After(s, es)) && SameLinks(s, After(s, es))
  {
    if es != [] {
      assert es[0] in es && forall e | e in es[1..] :: e in es;
      StepKeepsInv(s, es[0]);
      StepKeepsLinks(s, es[0]);
      StepKeepsDoneOnDone(s, es[0]);
      RunKeepsDoneOnDone(Step(s, es[0]), es[1..]);
    }
  }

  /** A job that may run, is running or is done has every job it depends on done. */
  lemma ParentsOfReleasedAreDone(s: Store, u: Uuid, p: Uuid)
    requires Inv(s) && DoneOnDone(s) && u in s && p in s[u].dependsOn
    requires Runnable(s[u].state) || s[u].state == Done
    ensures p in s && s[p].state == Done
  {
    assert InvAt(s, u) && DoneOnDoneAt(s, u);
  }

  // ── Never stuck except behind a failure ──────────────────────

  /** From parents to the jobs that depend on them. */
  ghost function Deps(s: Store): Links<Uuid> {
    map u | u in s :: s[u].reverseDependsOn
  }

  lemma DepsEdge(s: Store, p: Uuid, u: Uuid)
    requires Inv(s) && u in s
    ensures Edge(Deps(s), p, u) <==> p in s[u].dependsOn
  {
    assert InvAt(s, u);
    if p in s {
      assert InvAt(s, p);
    }
  }

  /** Every waiting job has, among its ancestors, one that is not done and not waiting: one
      that can move by itself, or one that failed or was cancelled. */
  lemma WaitingJobHasABlocker(s: Store, w: Uuid) returns (p: Uuid)
    requires Inv(s) && Acyclic(Deps(s)) && w in s && s[w].state == WaitDependencies
    ensures p in s && Reaches(Deps(s), p, w)
    ensures Runnable(s[p].state) || s[p].state == Failed || s[p].state == Cancelled
  {
    var g := Deps(s);
    var upstream := set v | v in s && s[v].state == WaitDependencies && ReachesOrIs(g, v, w);
    assert w in upstream;
    var v := AcyclicHasMinimal(g, upstream);
    assert InvAt(s, v);
    p :| p in s[v].dependsOn && p in s && s[p].state != Done;
    DepsEdge(s, p, v);
    StepThenReaches(g, p, v, w);
    assert p !in upstream;
  }

  /** With no failure and no cancellation about, something can always run until all is done. */
  lemma SomethingCanRun(s: Store) returns (p: Uuid)
    requires Inv(s) && Acyclic(Deps(s))
    requires forall u | u in s :: s[u].state != Failed && s[u].state != Cancelled
    requires exists u :: u in s && s[u].state != Done
    ensures p in s && Runnable(s[p].state)
  {
    var u :| u in s && s[u].state != Done;
    if Runnable(s[u].state) {
      p := u;
    } else {
      p := WaitingJobHasABlocker(s, u);
    }
  }

  // ── Runs in which every job succeeds ─────────────────────────

  predicate IsSuccess(e: Event) {
    match e
    case Enqueue(_) => true
    case Start(_) => true
    case Conclude(_, outcome) => outcome == Success
    case MarkDone(_) => false
    case Cancel(_) => false
    case Requeue(_) => false
    case RequeueDead(_) => false
  }

  ghost predicate Healthy(s: Store) {
    Inv(s) && forall u | u in s :: s[u].state != Failed && s[u].state != Cancelled
  }

  /** The jobs the run finishes, in the order it finishes them. */
  function Finishes(es: seq<Event>): seq<Uuid> {
    if es == [] then []
    else (if es[0].Conclude? && es[0].outcome == Success then [es[0].uuid] else []) + Finishes(es[1..])
  }

  /** Where each job stands after one successful step: only a Conclude finishes a job, only
      the one it names, and nothing done is undone. */
  lemma SuccessStep(s: Store, e: Event)
    requires Healthy(s) && Enabled(s, e) && IsSuccess(e)
    ensures Healthy(Step(s, e)) && SameLinks(s, Step(s, e))
    ensures forall u | u in s :: Step(s, e)[u].state == Done <==> s[u].state == Done || (e.Conclude? && u == e.uuid)
    ensures e.Conclude? ==> s[e.uuid].state == Started
  {
    StepKeepsInv(s, e);
  }

  /** A job is concluded at most once, never when it was done already, and only once all it
      depends on is done; and the run finishes exactly what it leaves done. */
  ghost predicate FinishesInOrder(s: Store, order: seq<Uuid>, t: Store) {
    && Distinct(order)
    && (forall u | u in order :: u in s && s[u].state != Done)
    && (forall i, p | 0 <= i < |order| && order[i] in s && p in s[order[i]].dependsOn ::
          p in s && (s[p].state == Done || p in order[..i]))
    && t.Keys == s.Keys
    && (forall u | u in s :: t[u].state == Done <==> s[u].state == Done || u in order)
  }

  lemma {:induction false} SuccessfulRunFinishesInOrder(s: Store, es: seq<Event>)
    requires Healthy(s) && IsRun(s, es) && forall e | e in es :: IsSuccess(e)
    ensures Healthy(After(s, es)) && SameLinks(s, After(s, es))
    ensures FinishesInOrder(s, Finishes(es), After(s, es))
  {
    if es != [] {
      var e, rest := es[0], es[1..];
      var s1 := Step(s, e);
      assert e in es && forall x | x in rest :: x in es;
      SuccessStep(s, e);
      SuccessfulRunFinishesInOrder(s1, rest);
      if e.Conclude? {
        OneMoreFinished(s, e.uuid, s1, Finishes(rest), After(s, es));
      } else {
        assert Finishes(es) == Finishes(rest);
      }
    }
  }

  lemma OneMoreFinished(s: Store, u: Uuid, s1: Store, later: seq<Uuid>, t: Store)
    requires Inv(s) && u in s && s[u].state == Started && SameLinks(s, s1)
    requires forall v | v in s :: s1[v].state == Done <==> s[v].state == Done || v == u
    requires FinishesInOrder(s1, later, t)
    ensures FinishesInOrder(s, [u] + later, t)
  {
    var order := [u] + later;
    assert InvAt(s, u);
    assert u !in later;
    forall i, p | 0 <= i < |order| && order[i] in s && p in s[order[i]].dependsOn
      ensures p in s && (s[p].state == Done || p in order[..i])
    {
      if i > 0 {
        assert order[i] == later[i - 1] && order[..i] == [u] + later[..i - 1];
      }
    }
    assert forall v | v in order :: v == u || v in later;
  }

  // ── Such runs are finite, and end with everything done ───────

  function StepsLeft(state: JobState): nat {
    match state
    case WaitDependencies => 3
    case Pending => 3
    case Enqueued => 2
    case Started => 1
    case Done => 0
    case Cancelled => 0
    case Failed => 0
  }

  ghost function Left(s: Store, us: set<Uuid>): nat
    requires us <= s.Keys
  {
    if us == {} then 0 else var u :| u in us; StepsLeft(s[u].state) + Left(s, us - {u})
  }

  lemma {:induction false} LeftWithout(s: Store, us: set<Uuid>, u: Uuid)
    requires us <= s.Keys && u in us
    ensures Left(s, us) == StepsLeft(s[u].state) + Left(s, us - {u})
  {
    var v :| v in us && Left(s, us) == StepsLeft(s[v].state) + Left(s, us - {v});
    if v != u {
      LeftWithout(s, us - {v}, u);
      LeftWithout(s, us - {u}, v);
      assert us - {v} - {u} == us - {u} - {v};
    }
  }

  lemma {:induction false} LeftDependsOnStates(s: Store, t: Store, us: set<Uuid>)
    requires us <= s.Keys && us <= t.Keys
    requires forall u | u in us :: StepsLeft(s[u].state) == StepsLeft(t[u].state)
    ensures Left(s, us) == Left(t, us)
  {
    if us != {} {
      var u :| u in us;
      LeftWithout(s, us, u);
      LeftWithout(t, us, u);
      LeftDependsOnStates(s, t, us - {u});
    }
  }

  /** Every successful step uses up exactly one of the steps that are left. */
  lemma SuccessStepUsesOne(s: Store, e: Event)
    requires Healthy(s) && Enabled(s, e) && IsSuccess(e)
    ensures Step(s, e).Keys == s.Keys && Left(s, s.Keys) == 1 + Left(Step(s, e), s.Keys)
  {
    var t, u := Step(s, e), e.uuid;
    SuccessStepIsOne(s, e);
    hide Step, Healthy, Enabled, IsSuccess, StepsLeft;
    LeftWithout(s, s.Keys, u);
    LeftWithout(t, s.Keys, u);
    LeftDependsOnStates(s, t, s.Keys - {u});
  }

  lemma SuccessStepIsOne(s: Store, e: Event)
    requires Healthy(s) && Enabled(s, e) && IsSuccess(e)
    ensures
      var t := Step(s, e);
      && e.uuid in s && t.Keys == s.Keys && StepsLeft(s[e.uuid].state) == 1 + StepsLeft(t[e.uuid].state)
      && forall v | v in s && v != e.uuid :: StepsLeft(s[v].state) == StepsLeft(t[v].state)
  {
  }

  lemma {:induction false} RunUsesItsLength(s: Store, es: seq<Event>)
    requires Healthy(s) && IsRun(s, es) && forall e | e in es :: IsSuccess(e)
    ensures After(s, es).Keys == s.Keys && Left(s, s.Keys) == |es| + Left(After(s, es), s.Keys)
  {
    if es != [] {
      assert es[0] in es && forall x | x in es[1..] :: x in es;
      SuccessStep(s, es[0]);
      SuccessStepUsesOne(s, es[0]);
      RunUsesItsLength(Step(s, es[0]), es[1..]);
    }
  }

  /** If every started job succeeds, no run lasts longer than the work there is, and a run
      that cannot go on has finished every job, exactly once each, after its parents. */
  lemma AllSucceedAllDone(s: Store, es: seq<Event>)
    requires Healthy(s) && Acyclic(Deps(s))
    requires IsRun(s, es) && forall e | e in es :: IsSuccess(e)
    ensures |es| <= Left(s, s.Keys)
    ensures FinishesInOrder(s, Finishes(es), After(s, es))
    ensures (forall e :: IsSuccess(e) ==> !Enabled(After(s, es), e)) <==>
        forall u | u in s :: After(s, es)[u].state == Done
  {
    RunUsesItsLength(s, es);
    SuccessfulRunFinishesInOrder(s, es);
    var t := After(s, es);
    if exists u :: u in t && t[u].state != Done {
      assert Deps(t) == Deps(s);
      var p := SomethingCanRun(t);
      var e := if t[p].state == Pending then Enqueue(p) else if t[p].state == Enqueued then Start(p)
          else Conclude(p, Success);
      assert IsSuccess(e) && Enabled(t, e);
    }
  }
}
