/** What nested on_done means by itself, without the chains it is compared with, and for which
    plans the flat graph has every job and orders them as meant. */
module OnDoneOrder {
  import opened Basics
  import opened Graphs
  import opened Delayables
  import opened Connect
  import opened Preservation
  import opened Webs
  import opened Flattening
  import opened NestedOnDone

  /** The jobs of an object, of what it was given, and so on. */
  function AllJobs(p: Plan): set<Delayable> {
    Jobs(p.term) + set n, j | n in p.next && j in AllJobs(n) :: j
  }

  /** No job is used in two places of the plan. */
  ghost predicate DistinctPlan(p: Plan) {
    && DistinctJobs(p.term)
    && (forall n | n in p.next :: DistinctPlan(n) && Jobs(p.term) !! AllJobs(n))
    && forall i, k | 0 <= i < k < |p.next| :: AllJobs(p.next[i]) !! AllJobs(p.next[k])
  }

  /** Everything behind an object, directly or not, comes after every job of the object. */
  ghost predicate PlanMeans(p: Plan, x: Delayable, y: Delayable) {
    || Before(p.term, x, y)
    || exists n :: n in p.next && ((x in Jobs(p.term) && y in AllJobs(n)) || PlanMeans(n, x, y))
  }

  /** Where there are jobs on both sides: on_done waits for jobs that come last, and holds back
      jobs of its argument that come first. */
  ghost predicate HandoverSound(p: Plan, n: Plan) {
    Jobs(p.term) != {} && AllJobs(n) != {} ==> Jobs(n.term) != {} && ExitsComeLast(p.term) && HeadComesFirst(n.term)
  }

  ghost predicate PlanHolds(p: Plan) {
    && SeamsHold(p.term)
    && if Hands(p) then forall n | n in p.next :: HandoverSound(p, n) && PlanHolds(n)
       else forall n | n in p.next :: AllJobs(n) == {}
  }

  ghost function PlanLinks(p: Plan): Links<Delayable> {
    map t | t in Jobs(Nest(p)) :: set h | h in Jobs(Nest(p)) && PlanEdge(p, t, h)
  }

  lemma EdgesOfPlanLinks(p: Plan, t: Delayable, h: Delayable)
    ensures Edge(PlanLinks(p), t, h) <==> PlanEdge(p, t, h)
  {
    if PlanEdge(p, t, h) {
      PlanEdgeIsInside(p, t, h);
    }
  }

  // ── Where jobs and edges are ─────────────────────────────────

  lemma ChildIsOne(p: Plan, m: Plan, n: Plan, j: Delayable)
    requires DistinctPlan(p) && m in p.next && n in p.next && j in AllJobs(m) && j in AllJobs(n)
    ensures m == n
  {
    var i :| 0 <= i < |p.next| && p.next[i] == m;
    var k :| 0 <= k < |p.next| && p.next[k] == n;
  }

  lemma JobsAreAllJobs(p: Plan)
    ensures Jobs(p.term) <= AllJobs(p) && forall n | n in p.next :: AllJobs(n) <= AllJobs(p)
  {
  }

  lemma {:induction false} NestHasNoOtherJobs(p: Plan, j: Delayable)
    requires j in Jobs(Nest(p))
    ensures j in AllJobs(p)
  {
    if Hands(p) && j !in Jobs(p.term) {
      NestIsFollowed(p);
      FollowedJobs(p.term, p.id, Nests(p.next), j);
      var i :| 0 <= i < |p.next| && j in Jobs(Nests(p.next)[i]);
      NestHasNoOtherJobs(p.next[i], j);
    }
  }

  lemma {:induction false} PlanMeansOfJobs(p: Plan, x: Delayable, y: Delayable)
    requires PlanMeans(p, x, y)
    ensures x in AllJobs(p) && y in AllJobs(p)
  {
    if Before(p.term, x, y) {
      BeforeRelatesJobs(p.term, x, y);
    } else {
      var n :| n in p.next && ((x in Jobs(p.term) && y in AllJobs(n)) || PlanMeans(n, x, y));
      if PlanMeans(n, x, y) {
        PlanMeansOfJobs(n, x, y);
      }
    }
  }

  lemma PlanEdgeOfJobs(p: Plan, t: Delayable, h: Delayable)
    requires PlanEdge(p, t, h)
    ensures t in AllJobs(p) && h in AllJobs(p)
  {
    PlanEdgeIsInside(p, t, h);
    NestHasNoOtherJobs(p, t);
    NestHasNoOtherJobs(p, h);
  }

  /** An edge into the object itself is the object's own. */
  lemma EdgeIntoTerm(p: Plan, t: Delayable, h: Delayable)
    requires DistinctPlan(p) && PlanEdge(p, t, h) && h in Jobs(p.term)
    ensures TermEdge(p.term, t, h) && t in Jobs(p.term)
  {
    if !TermEdge(p.term, t, h) {
      var n :| n in p.next && (HandsTo(p.term, n.term, t, h) || PlanEdge(n, t, h));
      assert h in AllJobs(n) by {
        if HandsTo(p.term, n.term, t, h) {
          HandoverStaysInside(p.term, n.term, t, h);
        } else {
          PlanEdgeOfJobs(n, t, h);
        }
      }
      assert false;
    }
    EdgeStaysInside(p.term, t, h);
  }

  /** An edge out of what was given stays within it. */
  lemma EdgeOutOfChild(p: Plan, n: Plan, t: Delayable, h: Delayable)
    requires DistinctPlan(p) && n in p.next && PlanEdge(p, t, h) && t in AllJobs(n)
    ensures PlanEdge(n, t, h) && h in AllJobs(n)
  {
    if TermEdge(p.term, t, h) {
      EdgeStaysInside(p.term, t, h);
    } else {
      var m :| m in p.next && (HandsTo(p.term, m.term, t, h) || PlanEdge(m, t, h));
      if HandsTo(p.term, m.term, t, h) {
        HandoverStaysInside(p.term, m.term, t, h);
      } else {
        PlanEdgeOfJobs(m, t, h);
        ChildIsOne(p, m, n, t);
      }
    }
  }

  lemma EdgeOutOfTerm(p: Plan, t: Delayable, h: Delayable)
    requires DistinctPlan(p) && PlanEdge(p, t, h) && t in Jobs(p.term) && h !in Jobs(p.term)
    ensures exists n :: n in p.next && HandsTo(p.term, n.term, t, h) && h in AllJobs(n)
  {
    if TermEdge(p.term, t, h) {
      EdgeStaysInside(p.term, t, h);
    } else {
      var n :| n in p.next && (HandsTo(p.term, n.term, t, h) || PlanEdge(n, t, h));
      if HandsTo(p.term, n.term, t, h) {
        HandoverStaysInside(p.term, n.term, t, h);
      } else {
        PlanEdgeOfJobs(n, t, h);
      }
    }
  }

  // ── Nothing is ordered that is not meant ─────────────────────

  lemma {:induction false} PlanEdgeIsMeant(p: Plan, t: Delayable, h: Delayable)
    requires PlanEdge(p, t, h)
    ensures PlanMeans(p, t, h)
  {
    if TermEdge(p.term, t, h) {
      TermEdgeIsBefore(p.term, t, h);
    } else {
      var n :| n in p.next && (HandsTo(p.term, n.term, t, h) || PlanEdge(n, t, h));
      if HandsTo(p.term, n.term, t, h) {
        HandoverStaysInside(p.term, n.term, t, h);
      } else {
        PlanEdgeIsMeant(n, t, h);
      }
    }
  }

  /** What is meant of two jobs of the object, and of two behind it. */
  lemma MeantByPlace(p: Plan, x: Delayable, y: Delayable)
    requires DistinctPlan(p) && PlanMeans(p, x, y)
    ensures y in Jobs(p.term) ==> Before(p.term, x, y)
    ensures forall n | n in p.next && x in AllJobs(n) :: PlanMeans(n, x, y)
  {
    if Before(p.term, x, y) {
      BeforeRelatesJobs(p.term, x, y);
    } else {
      var m :| m in p.next && ((x in Jobs(p.term) && y in AllJobs(m)) || PlanMeans(m, x, y));
      if PlanMeans(m, x, y) {
        PlanMeansOfJobs(m, x, y);
        forall n | n in p.next && x in AllJobs(n)
          ensures PlanMeans(n, x, y)
        {
          ChildIsOne(p, m, n, x);
        }
      }
    }
  }

  lemma {:induction false} PlanMeansIsTransitive(p: Plan, x: Delayable, y: Delayable, z: Delayable)
    requires DistinctPlan(p) && PlanMeans(p, x, y) && PlanMeans(p, y, z)
    ensures PlanMeans(p, x, z)
  {
    MeantByPlace(p, x, y);
    MeantByPlace(p, y, z);
    PlanMeansOfJobs(p, y, z);
    if y in Jobs(p.term) {
      BeforeRelatesJobs(p.term, x, y);
      if Before(p.term, y, z) {
        BeforeIsStrictOrder(p.term, x, y, z);
      } else {
        var n :| n in p.next && ((y in Jobs(p.term) && z in AllJobs(n)) || PlanMeans(n, y, z));
        if PlanMeans(n, y, z) {
          PlanMeansOfJobs(n, y, z);
        }
      }
    } else {
      var n :| n in p.next && y in AllJobs(n);
      PlanMeansOfJobs(n, y, z);
      BehindIsMeant(p, n, x, y);
      if PlanMeans(n, x, y) {
        PlanMeansIsTransitive(n, x, y, z);
      }
    }
  }

  lemma BehindIsMeant(p: Plan, n: Plan, x: Delayable, y: Delayable)
    requires DistinctPlan(p) && n in p.next && PlanMeans(p, x, y) && y in AllJobs(n)
    ensures x in Jobs(p.term) || PlanMeans(n, x, y)
  {
    if Before(p.term, x, y) {
      BeforeRelatesJobs(p.term, x, y);
    } else {
      var m :| m in p.next && ((x in Jobs(p.term) && y in AllJobs(m)) || PlanMeans(m, x, y));
      if PlanMeans(m, x, y) {
        PlanMeansOfJobs(m, x, y);
        ChildIsOne(p, m, n, y);
      }
    }
  }

  lemma {:induction false} WalkIsMeant(p: Plan, w: seq<Delayable>, x: Delayable, y: Delayable)
    requires DistinctPlan(p) && WalkFromTo(PlanLinks(p), w, x, y)
    ensures PlanMeans(p, x, y)
    decreases |w|
  {
    hide PlanMeans, PlanEdge, PlanLinks, DistinctPlan;
    FirstStep(PlanLinks(p), w, x, y);
    EdgesOfPlanLinks(p, x, w[1]);
    PlanEdgeIsMeant(p, x, w[1]);
    if |w| > 2 {
      WalkIsMeant(p, w[1..], w[1], y);
      PlanMeansIsTransitive(p, x, w[1], y);
    }
  }

  // ── Enough ───────────────────────────────────────────────────

  lemma TermIsReached(p: Plan, x: Delayable, y: Delayable)
    requires SeamsHold(p.term) && Before(p.term, x, y)
    ensures Reaches(PlanLinks(p), x, y)
  {
    SeamsSuffice(p.term);
    forall u, v | Edge(TermLinks(p.term), u, v)
      ensures Edge(PlanLinks(p), u, v)
    {
      EdgesOfTermLinks(p.term, u, v);
      EdgesOfPlanLinks(p, u, v);
    }
    MoreEdgesReachMore(TermLinks(p.term), PlanLinks(p), x, y);
  }

  lemma ChildIsReached(p: Plan, n: Plan, x: Delayable, y: Delayable)
    requires Hands(p) && n in p.next && Reaches(PlanLinks(n), x, y)
    ensures Reaches(PlanLinks(p), x, y)
  {
    forall u, v | Edge(PlanLinks(n), u, v)
      ensures Edge(PlanLinks(p), u, v)
    {
      EdgesOfPlanLinks(n, u, v);
      EdgesOfPlanLinks(p, u, v);
    }
    MoreEdgesReachMore(PlanLinks(n), PlanLinks(p), x, y);
  }

  lemma HandoverIsReached(p: Plan, n: Plan, x: Delayable, y: Delayable)
    requires Hands(p) && n in p.next && SeamsHold(p.term) && SeamsHold(n.term)
    requires x in Jobs(p.term) && y in Jobs(n.term) && ExitsComeLast(p.term) && HeadComesFirst(n.term)
    ensures Reaches(PlanLinks(p), x, y)
  {
    var t := x;
    if x !in ExitTails(p.term) {
      t :| t in ExitTails(p.term) && Before(p.term, x, t);
      TermIsReached(p, x, t);
    }
    var h := y;
    if y !in Head(n.term) {
      h :| h in Head(n.term) && Before(n.term, h, y);
      TermIsReached(n, h, y);
      ChildIsReached(p, n, h, y);
    }
    assert HandsTo(p.term, n.term, t, h);
    EdgesOfPlanLinks(p, t, h);
    hide PlanLinks;
    StepThenReaches(PlanLinks(p), t, h, y);
    if x != t {
      ReachesTransitive(PlanLinks(p), x, t, y);
    }
  }

  lemma {:induction false} HoldingPlanIsReached(p: Plan, x: Delayable, y: Delayable)
    requires PlanHolds(p) && PlanMeans(p, x, y)
    ensures Reaches(PlanLinks(p), x, y)
  {
    if Before(p.term, x, y) {
      TermIsReached(p, x, y);
    } else {
      var n :| n in p.next && ((x in Jobs(p.term) && y in AllJobs(n)) || PlanMeans(n, x, y));
      if PlanMeans(n, x, y) {
        PlanMeansOfJobs(n, x, y);
        HoldingPlanIsReached(n, x, y);
        ChildIsReached(p, n, x, y);
      } else {
        var z := y;
        if y !in Jobs(n.term) {
          z :| z in Jobs(n.term);
          var m :| m in n.next && y in AllJobs(m);
          assert PlanMeans(n, z, y);
          HoldingPlanIsReached(n, z, y);
          ChildIsReached(p, n, z, y);
        }
        HandoverIsReached(p, n, x, z);
        ReachesTransitive(PlanLinks(p), x, z, y);
      }
    }
  }

  lemma {:induction false} HoldingPlanHasAllJobs(p: Plan, j: Delayable)
    requires PlanHolds(p) && j in AllJobs(p)
    ensures j in Jobs(Nest(p))
  {
    JobsOfNest(p);
    if j !in Jobs(p.term) {
      var n :| n in p.next && j in AllJobs(n);
      HoldingPlanHasAllJobs(n, j);
    }
  }

  // ── Needed ───────────────────────────────────────────────────

  /** The flat graph has every job and orders whatever is meant. */
  ghost predicate Serves(p: Plan) {
    && AllJobs(p) <= Jobs(Nest(p))
    && forall x, y | PlanMeans(p, x, y) :: Reaches(PlanLinks(p), x, y)
  }

  lemma ReachesWithinTerm(p: Plan, x: Delayable, y: Delayable)
    requires DistinctPlan(p) && Reaches(PlanLinks(p), x, y) && y in Jobs(p.term)
    ensures Reaches(TermLinks(p.term), x, y) && x in Jobs(p.term)
  {
    forall u, v | v in Jobs(p.term) && Edge(PlanLinks(p), u, v)
      ensures u in Jobs(p.term) && Edge(TermLinks(p.term), u, v)
    {
      EdgesOfPlanLinks(p, u, v);
      EdgeIntoTerm(p, u, v);
      EdgesOfTermLinks(p.term, u, v);
    }
    ReachesBackInside(PlanLinks(p), TermLinks(p.term), Jobs(p.term), x, y);
  }

  lemma ReachesWithinChild(p: Plan, n: Plan, x: Delayable, y: Delayable)
    requires DistinctPlan(p) && n in p.next && Reaches(PlanLinks(p), x, y) && x in AllJobs(n)
    ensures Reaches(PlanLinks(n), x, y) && y in AllJobs(n)
  {
    forall u, v | u in AllJobs(n) && Edge(PlanLinks(p), u, v)
      ensures v in AllJobs(n) && Edge(PlanLinks(n), u, v)
    {
      EdgesOfPlanLinks(p, u, v);
      EdgeOutOfChild(p, n, u, v);
      EdgesOfPlanLinks(n, u, v);
    }
    ReachesInside(PlanLinks(p), PlanLinks(n), AllJobs(n), x, y);
  }

  lemma StepOutOfTerm(p: Plan, n: Plan, x: Delayable, z: Delayable, y: Delayable)
    requires DistinctPlan(p) && n in p.next && x in Jobs(p.term) && y in AllJobs(n)
    requires PlanEdge(p, x, z) && z !in Jobs(p.term) && ReachesOrIs(PlanLinks(p), z, y)
    ensures HandsTo(p.term, n.term, x, z)
  {
    EdgeOutOfTerm(p, x, z);
    hide PlanLinks, PlanEdge, Jobs, AllJobs, DistinctPlan, HandsTo, Reaches;
    var m :| m in p.next && HandsTo(p.term, m.term, x, z) && z in AllJobs(m);
    if z != y {
      ReachesWithinChild(p, m, z, y);
    }
    ChildIsOne(p, m, n, y);
  }

  /** A walk from the object to something behind it goes through the handover. */
  lemma {:induction false} WalkCrossesHandover(p: Plan, n: Plan, w: seq<Delayable>, x: Delayable, y: Delayable)
    returns (t: Delayable, h: Delayable)
    requires DistinctPlan(p) && n in p.next && x in Jobs(p.term) && y in AllJobs(n)
    requires WalkFromTo(PlanLinks(p), w, x, y)
    ensures t in ExitTails(p.term) && h in Head(n.term)
    ensures ReachesOrIs(PlanLinks(p), x, t) && ReachesOrIs(PlanLinks(p), h, y)
    decreases |w|
  {
    var g := PlanLinks(p);
    FirstStep(g, w, x, y);
    var z := w[1];
    EdgesOfPlanLinks(p, x, z);
    assert Jobs(p.term) !! AllJobs(n);
    hide PlanLinks, PlanEdge, Jobs, AllJobs, DistinctPlan, Head, ExitTails, WalkFromTo, Reaches;
    if z in Jobs(p.term) {
      t, h := WalkCrossesHandover(p, n, w[1..], z, y);
      StepThenReaches(g, x, z, t);
    } else {
      StepOutOfTerm(p, n, x, z, y);
      t, h := x, z;
    }
  }

  lemma ServingCrosses(p: Plan, n: Plan, x: Delayable, y: Delayable) returns (t: Delayable, h: Delayable)
    requires DistinctPlan(p) && Serves(p) && n in p.next && x in Jobs(p.term) && y in AllJobs(n)
    ensures t in ExitTails(p.term) && h in Head(n.term)
    ensures ReachesOrIs(PlanLinks(p), x, t) && ReachesOrIs(PlanLinks(p), h, y)
  {
    assert PlanMeans(p, x, y);
    var w :| WalkFromTo(PlanLinks(p), w, x, y);
    t, h := WalkCrossesHandover(p, n, w, x, y);
  }

  lemma ServingHandoverIsSound(p: Plan, n: Plan)
    requires DistinctPlan(p) && Serves(p) && n in p.next
    ensures HandoverSound(p, n)
  {
    if Jobs(p.term) != {} && AllJobs(n) != {} {
      var x0 :| x0 in Jobs(p.term);
      var y0 :| y0 in AllJobs(n);
      var t0, h0 := ServingCrosses(p, n, x0, y0);
      HeadAndTailAreJobs(n.term);
      TermGraphIsSound(p.term);
      TermGraphIsSound(n.term);
      forall x | x in Jobs(p.term)
        ensures x in ExitTails(p.term) || exists t :: t in ExitTails(p.term) && Before(p.term, x, t)
      {
        var t, h := ServingCrosses(p, n, x, y0);
        if x != t {
          ExitTailsAreJobs(p.term, t);
          ReachesWithinTerm(p, x, t);
        }
      }
      forall y | y in Jobs(n.term)
        ensures y in Head(n.term) || exists h :: h in Head(n.term) && Before(n.term, h, y)
      {
        var t, h := ServingCrosses(p, n, x0, y);
        if y != h {
          ReachesWithinChild(p, n, h, y);
          ReachesWithinTerm(n, h, y);
        }
      }
    }
  }

  lemma ServingTermIsComplete(p: Plan)
    requires DistinctPlan(p) && Serves(p)
    ensures Complete(p.term)
  {
    forall x, y | Before(p.term, x, y)
      ensures Reaches(TermLinks(p.term), x, y)
    {
      BeforeRelatesJobs(p.term, x, y);
      assert PlanMeans(p, x, y);
      ReachesWithinTerm(p, x, y);
    }
  }

  lemma ServingChildServes(p: Plan, n: Plan)
    requires DistinctPlan(p) && Serves(p) && Hands(p) && n in p.next
    ensures Serves(n)
  {
    forall j | j in AllJobs(n)
      ensures j in Jobs(Nest(n))
    {
      assert j in AllJobs(p) && j !in Jobs(p.term);
      NestIsFollowed(p);
      FollowedJobs(p.term, p.id, Nests(p.next), j);
      var i :| 0 <= i < |p.next| && j in Jobs(Nests(p.next)[i]);
      NestHasNoOtherJobs(p.next[i], j);
      ChildIsOne(p, p.next[i], n, j);
    }
    forall x, y | PlanMeans(n, x, y)
      ensures Reaches(PlanLinks(n), x, y)
    {
      PlanMeansOfJobs(n, x, y);
      assert PlanMeans(p, x, y);
      ReachesWithinChild(p, n, x, y);
    }
  }

  lemma {:induction false} ServingPlanHolds(p: Plan)
    requires DistinctPlan(p) && Serves(p)
    ensures PlanHolds(p)
  {
    ServingTermIsComplete(p);
    SeamsAreNeeded(p.term);
    forall n | n in p.next
      ensures if Hands(p) then HandoverSound(p, n) && PlanHolds(n) else AllJobs(n) == {}
    {
      if Hands(p) {
        ServingHandoverIsSound(p, n);
        ServingChildServes(p, n);
        ServingPlanHolds(n);
      } else {
        assert AllJobs(n) <= AllJobs(p) <= Jobs(p.term);
      }
    }
  }

  // ── Main result ──────────────────────────────────────────────

  /** on_done nested to any depth over distinct jobs: the flat graph orders nothing that is not
      meant; and it has every job and orders all that is meant if and only if no empty group
      was given a job, every seam inside the objects holds, and every handover with jobs on
      both sides waits for jobs that come last and holds back jobs that come first. */
  lemma NestedOnDoneMeansItsOrderExactlyWhen(web: Web, next: Successors, p: Plan, owners: set<Delayable>,
      g: Links<Delayable>)
    requires Linked(web, next, Parts(p)) && Carries(next, p) && Within(web, p.term, owners) && IsUnionOf(g, web, owners)
    requires DistinctPlan(p)
    ensures forall x, y | Reaches(g, x, y) :: PlanMeans(p, x, y)
    ensures (g.Keys == AllJobs(p) && forall x, y :: Reaches(g, x, y) <==> PlanMeans(p, x, y)) <==> PlanHolds(p)
  {
    PlanFlattens(web, next, p, owners, g);
    hide Linked, Carries, Within, IsUnionOf, Parts;
    PlanGraphIs(g, p);
    hide DistinctPlan, PlanHolds, PlanMeans, PlanLinks, AllJobs, Nest;
    forall x, y | Reaches(g, x, y)
      ensures PlanMeans(p, x, y)
    {
      var w :| WalkFromTo(PlanLinks(p), w, x, y);
      WalkIsMeant(p, w, x, y);
    }
    if PlanHolds(p) {
      HoldingPlanServes(p);
    }
    if g.Keys == AllJobs(p) && forall x, y :: Reaches(g, x, y) <==> PlanMeans(p, x, y) {
      ServingPlanHolds(p);
    }
  }

  lemma PlanGraphIs(g: Links<Delayable>, p: Plan)
    requires g.Keys == Jobs(Nest(p)) && forall t, h :: Edge(g, t, h) <==> PlanEdge(p, t, h)
    ensures g == PlanLinks(p)
  {
    forall t | t in g
      ensures g[t] == PlanLinks(p)[t]
    {
      forall h
        ensures h in g[t] <==> h in PlanLinks(p)[t]
      {
        EdgesOfPlanLinks(p, t, h);
        assert Edge(g, t, h) <==> PlanEdge(p, t, h);
      }
    }
  }

  lemma HoldingPlanServes(p: Plan)
    requires PlanHolds(p)
    ensures Jobs(Nest(p)) == AllJobs(p) && forall x, y | PlanMeans(p, x, y) :: Reaches(PlanLinks(p), x, y)
  {
    forall j
      ensures j in Jobs(Nest(p)) <==> j in AllJobs(p)
    {
      if j in Jobs(Nest(p)) {
        NestHasNoOtherJobs(p, j);
      }
      if j in AllJobs(p) {
        HoldingPlanHasAllJobs(p, j);
      }
    }
    forall x, y | PlanMeans(p, x, y)
      ensures Reaches(PlanLinks(p), x, y)
    {
      HoldingPlanIsReached(p, x, y);
    }
  }
}
