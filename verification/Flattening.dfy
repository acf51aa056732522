/** What _connect_graphs returns: a closed graph of jobs for any web; and, with the successors
    on_done gave each object, which edges it has and when they mean what chain() and on_done()
    promise. */
module Flattening {
  import opened Graphs
  import opened Delayables
  import opened Connect
  import opened Preservation
  import opened Webs

  // ── Any web ──────────────────────────────────────────────────

  lemma OwnersHoldVertices(web: Web, root: Delayable, owners: set<Delayable>, d: Delayable, v: Delayable)
    requires ValidWeb(web) && Within(web, root, owners) && d in owners && v in web[d]
    ensures v in owners
  {
    NextOnTheWay(web, root, d, v);
  }

  lemma {:induction false} EndsAreVertices(web: Web, root: Delayable, owners: set<Delayable>, d: Delayable,
      j: Delayable)
    requires ValidWeb(web) && Within(web, root, owners) && d in owners
    requires j in Head(d) || j in Tail(d)
    ensures FlatVertex(web, owners, j) && j in owners
  {
    assert OwnVertices(d) <= web[d].Keys;
    if d.Job? {
      assert d in owners && d in web && d in web[d] && j in Tail(d);
    } else {
      var m;
      if d.Group? {
        m :| m in d.members && (j in Head(m) || j in Tail(m));
      } else if j in Head(d) {
        m := d.members[0];
      } else {
        m := d.members[|d.members| - 1];
      }
      OwnersHoldVertices(web, root, owners, d, m);
      EndsAreVertices(web, root, owners, m, j);
    }
  }

  /** Whatever was linked to whatever, cycles included, every neighbour in the flat graph is
      a vertex of it, and every vertex is a job. */
  lemma FlatGraphIsClosed(web: Web, root: Delayable, owners: set<Delayable>, g: Links<Delayable>)
    requires ValidWeb(web) && Within(web, root, owners) && IsUnionOf(g, web, owners)
    ensures Closed(g) && forall v | v in g :: v.Job? && v in web
  {
    forall t, h | Edge(g, t, h)
      ensures h in g
    {
      assert FlatEdge(web, owners, t, h);
      var d, v, n :| d in owners && d in web && v in web[d] && n in web[d][v] && t in Tail(v) && h in Head(n);
      OwnersHoldVertices(web, root, owners, d, n);
      EndsAreVertices(web, root, owners, n, h);
    }
    forall t, h | t in g && h in g[t]
      ensures h in g
    {
      assert Edge(g, t, h);
    }
    forall t | t in g
      ensures t.Job? && t in web
    {
      assert FlatVertex(web, owners, t);
      var d, v :| d in owners && d in web && v in web[d] && t in Tail(v);
      OwnersHoldVertices(web, root, owners, d, v);
      EndsAreVertices(web, root, owners, v, t);
      HeadAndTailAreJobs(v);
      JobsAreJobs(v);
    }
  }

  // ── Terms ────────────────────────────────────────────────────

  /** d and everything inside it. */
  function Subterms(d: Delayable): set<Delayable> {
    {d} + if d.Job? then {} else set m, s | m in d.members && s in Subterms(m) :: s
  }

  lemma {:induction false} SubtermsNest(d: Delayable, s: Delayable)
    requires s in Subterms(d)
    ensures Subterms(s) <= Subterms(d) && Jobs(s) <= Jobs(d)
  {
    if s != d {
      var m :| m in d.members && s in Subterms(m);
      SubtermsNest(m, s);
    }
  }

  lemma {:induction false} SubtermEdgeIsEdge(d: Delayable, s: Delayable, x: Delayable, y: Delayable)
    requires s in Subterms(d) && TermEdge(s, x, y)
    ensures TermEdge(d, x, y)
  {
    if s != d {
      var m :| m in d.members && s in Subterms(m);
      SubtermEdgeIsEdge(m, s, x, y);
    }
  }

  lemma {:induction false} JobsAreSubterms(d: Delayable, j: Delayable)
    requires j in Jobs(d)
    ensures j in Subterms(d) && j.Job?
  {
    if !d.Job? {
      var m :| m in d.members && j in Jobs(m);
      JobsAreSubterms(m, j);
    }
  }

  lemma SubtermsOfMembers(d: Delayable, m: Delayable)
    requires !d.Job? && m in d.members
    ensures Subterms(m) <= Subterms(d) && m in Subterms(d)
  {
    assert m in Subterms(m);
  }

  // ── Objects and their successors ─────────────────────────────

  /** t -> h joins an exit of d to one of its successors. */
  ghost predicate HandsOver(d: Delayable, successors: set<Delayable>, t: Delayable, h: Delayable) {
    exists e, n :: e in Exits(d) && n in successors && t in Tail(e) && h in Head(n)
  }

  /** An edge of d, seen as a term, or of the handover to its successors. */
  ghost predicate LinkEdge(next: Successors, d: Delayable, t: Delayable, h: Delayable) {
    TermEdge(d, t, h) || (d in next && HandsOver(d, next[d], t, h))
  }

  ghost predicate EdgeAmong(next: Successors, ds: set<Delayable>, t: Delayable, h: Delayable) {
    exists d :: d in ds && LinkEdge(next, d, t, h)
  }

  ghost function JobsAmong(ds: set<Delayable>): set<Delayable> {
    set d, j | d in ds && j in Jobs(d) :: j
  }

  lemma {:induction false} OwnersHoldParts(web: Web, root: Delayable, owners: set<Delayable>, d: Delayable,
      s: Delayable)
    requires ValidWeb(web) && Within(web, root, owners) && d in owners && s in Subterms(d)
    ensures s in owners
  {
    if s != d {
      var m :| m in d.members && s in Subterms(m);
      assert m in OwnVertices(d);
      OwnersHoldVertices(web, root, owners, d, m);
      OwnersHoldParts(web, root, owners, m, s);
    }
  }

  lemma OwnersHoldSuccessors(web: Web, next: Successors, root: Delayable, owners: set<Delayable>, d: Delayable,
      n: Delayable)
    requires Linked(web, next, owners) && Within(web, root, owners)
    requires d in owners && Exits(d) != {} && n in next[d]
    ensures n in owners
  {
    assert n in web[d];
    OwnersHoldVertices(web, root, owners, d, n);
  }

  /** An object's own graph leads to what on_done gave it if and only if the object has an exit,
      that is, unless it is an empty group. */
  lemma GraphLeadsToSuccessorsExactlyWhenThereIsAnExit(web: Web, next: Successors, ds: set<Delayable>,
                                                       d: Delayable, n: Delayable)
    requires Linked(web, next, ds) && d in ds && n in next[d]
    ensures (exists e :: Edge(web[d], e, n)) <==> Exits(d) != {}
    ensures Exits(d) == {} <==> d.Group? && d.members == []
  {
    assert GraphOf(web[d], d, next[d]);
    if Exits(d) != {} {
      var e :| e in Exits(d);
      assert Edge(web[d], e, n);
    }
    if d.Group? && d.members != [] {
      assert d.members[0] in Exits(d);
    }
    if d.Job? {
      assert d in Exits(d);
    }
    if d.Chain? {
      assert d.members[|d.members| - 1] in Exits(d);
    }
  }

  lemma OwnEdgeJoins(d: Delayable, v: Delayable, n: Delayable, t: Delayable, h: Delayable)
    requires OwnEdge(d, v, n) && t in Tail(v) && h in Head(n)
    ensures TermEdge(d, t, h)
  {
    assert Joined(d.members, t, h);
  }

  lemma FlatEdgeIsLinkEdge(web: Web, next: Successors, owners: set<Delayable>, t: Delayable, h: Delayable)
    requires Linked(web, next, owners) && FlatEdge(web, owners, t, h)
    ensures EdgeAmong(next, owners, t, h)
  {
    var d, v, n :| d in owners && d in web && v in web[d] && n in web[d][v] && t in Tail(v) && h in Head(n);
    assert Edge(web[d], v, n);
    if OwnEdge(d, v, n) {
      OwnEdgeJoins(d, v, n, t, h);
    }
    assert LinkEdge(next, d, t, h);
  }

  lemma {:induction false} TermEdgeIsFlatEdge(web: Web, next: Successors, root: Delayable, owners: set<Delayable>,
      d: Delayable, t: Delayable, h: Delayable)
    requires Linked(web, next, owners) && Within(web, root, owners) && d in owners && TermEdge(d, t, h)
    ensures FlatEdge(web, owners, t, h)
  {
    var ms := d.members;
    if exists m :: m in ms && TermEdge(m, t, h) {
      var m :| m in ms && TermEdge(m, t, h);
      SubtermsOfMembers(d, m);
      OwnersHoldParts(web, root, owners, d, m);
      TermEdgeIsFlatEdge(web, next, root, owners, m, t, h);
    } else {
      var i :| 0 <= i < |ms| - 1 && t in Tail(ms[i]) && h in Head(ms[i + 1]);
      assert OwnEdge(d, ms[i], ms[i + 1]);
      assert Edge(web[d], ms[i], ms[i + 1]);
    }
  }

  lemma FlatVerticesAreJobs(web: Web, root: Delayable, owners: set<Delayable>, t: Delayable)
    requires ValidWeb(web) && Within(web, root, owners)
    ensures FlatVertex(web, owners, t) <==> t in JobsAmong(owners)
  {
    if FlatVertex(web, owners, t) {
      var d, v :| d in owners && d in web && v in web[d] && t in Tail(v);
      OwnersHoldVertices(web, root, owners, d, v);
      HeadAndTailAreJobs(v);
    }
    if t in JobsAmong(owners) {
      var d :| d in owners && t in Jobs(d);
      JobsAreSubterms(d, t);
      OwnersHoldParts(web, root, owners, d, t);
      assert t in owners && t in web && t in OwnVertices(t) && t in web[t] && t in Tail(t);
    }
  }

  /** The flat graph of any web, read off its objects and their successors: the jobs of the
      objects that can be reached, and the edges of those objects and their handovers. */
  lemma LinkedWebFlattens(web: Web, next: Successors, root: Delayable, owners: set<Delayable>, g: Links<Delayable>)
    requires Linked(web, next, owners) && Within(web, root, owners) && IsUnionOf(g, web, owners)
    ensures g.Keys == JobsAmong(owners)
    ensures forall t, h :: Edge(g, t, h) <==> EdgeAmong(next, owners, t, h)
  {
    forall t
      ensures t in g <==> t in JobsAmong(owners)
    {
      FlatVerticesAreJobs(web, root, owners, t);
    }
    forall t, h
      ensures Edge(g, t, h) <==> EdgeAmong(next, owners, t, h)
    {
      if FlatEdge(web, owners, t, h) {
        FlatEdgeIsLinkEdge(web, next, owners, t, h);
      }
      if EdgeAmong(next, owners, t, h) {
        var d :| d in owners && LinkEdge(next, d, t, h);
        if TermEdge(d, t, h) {
          TermEdgeIsFlatEdge(web, next, root, owners, d, t, h);
        } else {
          var e, n :| e in Exits(d) && n in next[d] && t in Tail(e) && h in Head(n);
          assert Edge(web[d], e, n);
        }
      }
    }
  }

  // ── What chain() and on_done() mean ──────────────────────────

  /** y is a job of a successor of d, x one of d's own. */
  ghost predicate Follows(next: Successors, d: Delayable, x: Delayable, y: Delayable) {
    x in Jobs(d) && d in next && exists n :: n in next[d] && y in Jobs(n)
  }

  /** Some chain among the objects, or some on_done on one of them, puts x before y. */
  ghost predicate Meant(next: Successors, ds: set<Delayable>, x: Delayable, y: Delayable) {
    exists d :: d in ds && (Before(d, x, y) || Follows(next, d, x, y))
  }

  /** The order they mean together: what can be reached here is meant to come later. */
  ghost function MeantLinks(next: Successors, ds: set<Delayable>): Links<Delayable> {
    map x | x in JobsAmong(ds) :: set y | y in JobsAmong(ds) && Meant(next, ds, x, y)
  }

  lemma MeantIsAmong(web: Web, next: Successors, root: Delayable, owners: set<Delayable>, x: Delayable, y: Delayable)
    requires Linked(web, next, owners) && Within(web, root, owners) && Meant(next, owners, x, y)
    ensures Edge(MeantLinks(next, owners), x, y)
  {
    var d :| d in owners && (Before(d, x, y) || Follows(next, d, x, y));
    if Before(d, x, y) {
      BeforeRelatesJobs(d, x, y);
    } else {
      var n :| n in next[d] && y in Jobs(n);
      JobsNeedExits(d, x);
      OwnersHoldSuccessors(web, next, root, owners, d, n);
    }
  }

  lemma JobsNeedExits(d: Delayable, x: Delayable)
    requires x in Jobs(d)
    ensures Exits(d) != {}
  {
    if !d.Job? {
      var m :| m in d.members && x in Jobs(m);
      assert d.Chain? ==> d.members[|d.members| - 1] in Exits(d);
      assert d.Group? ==> m in Exits(d);
    } else {
      assert d in Exits(d);
    }
  }

  /** The jobs a handover waits for. */
  function ExitTails(d: Delayable): set<Delayable> {
    set e, t | e in Exits(d) && t in Tail(e) :: t
  }

  lemma ExitTailsAreJobs(d: Delayable, t: Delayable)
    requires t in ExitTails(d)
    ensures t in Jobs(d)
  {
    var e :| e in Exits(d) && t in Tail(e);
    HeadAndTailAreJobs(e);
    assert d.Job? || e in d.members;
  }

  lemma LinkEdgeIsMeant(next: Successors, d: Delayable, t: Delayable, h: Delayable)
    requires LinkEdge(next, d, t, h)
    ensures Before(d, t, h) || Follows(next, d, t, h)
  {
    if TermEdge(d, t, h) {
      TermEdgeIsBefore(d, t, h);
    } else {
      var e, n :| e in Exits(d) && n in next[d] && t in Tail(e) && h in Head(n);
      assert t in ExitTails(d);
      ExitTailsAreJobs(d, t);
      HeadAndTailAreJobs(n);
    }
  }

  /** Every job of d is one its successors wait for, or ordered before one. */
  ghost predicate ExitsComeLast(d: Delayable) {
    forall x | x in Jobs(d) :: x in ExitTails(d) || exists t :: t in ExitTails(d) && Before(d, x, t)
  }

  /** A handover waits for all of d and holds back all of n. */
  ghost predicate HandoverHolds(d: Delayable, n: Delayable) {
    Jobs(d) != {} && ExitsComeLast(d) && Jobs(n) != {} && HeadComesFirst(n)
  }

  ghost predicate AllSeamsHold(next: Successors, ds: set<Delayable>) {
    forall d | d in ds :: SeamsHold(d) && (d in next ==> forall n | n in next[d] :: HandoverHolds(d, n))
  }

  lemma {:induction false} ReachesByReaching(g: Links<Delayable>, h: Links<Delayable>, p: seq<Delayable>, x: Delayable,
      y: Delayable)
    requires forall u, v | Edge(g, u, v) :: Reaches(h, u, v)
    requires WalkFromTo(g, p, x, y)
    ensures Reaches(h, x, y)
    decreases |p|
  {
    FirstStep(g, p, x, y);
    if |p| > 2 {
      ReachesByReaching(g, h, p[1..], p[1], y);
      ReachesTransitive(h, x, p[1], y);
    }
  }

  lemma BeforeIsReached(next: Successors, owners: set<Delayable>, g: Links<Delayable>, d: Delayable, x: Delayable,
      y: Delayable)
    requires forall t, h :: Edge(g, t, h) <==> EdgeAmong(next, owners, t, h)
    requires d in owners && SeamsHold(d) && Before(d, x, y)
    ensures Reaches(g, x, y)
  {
    SeamsSuffice(d);
    forall u, v | Edge(TermLinks(d), u, v)
      ensures Edge(g, u, v)
    {
      EdgesOfTermLinks(d, u, v);
      assert LinkEdge(next, d, u, v);
    }
    MoreEdgesReachMore(TermLinks(d), g, x, y);
  }

  lemma FollowsIsReached(next: Successors, owners: set<Delayable>, g: Links<Delayable>, d: Delayable, n: Delayable,
      x: Delayable, y: Delayable)
    requires forall t, h :: Edge(g, t, h) <==> EdgeAmong(next, owners, t, h)
    requires d in owners && n in owners && d in next && n in next[d]
    requires SeamsHold(d) && SeamsHold(n) && HandoverHolds(d, n) && x in Jobs(d) && y in Jobs(n)
    ensures Reaches(g, x, y)
  {
    var t := x;
    if x !in ExitTails(d) {
      t :| t in ExitTails(d) && Before(d, x, t);
      BeforeIsReached(next, owners, g, d, x, t);
    }
    var h := y;
    if y !in Head(n) {
      h :| h in Head(n) && Before(n, h, y);
      BeforeIsReached(next, owners, g, n, h, y);
    }
    var e :| e in Exits(d) && t in Tail(e);
    assert HandsOver(d, next[d], t, h);
    assert LinkEdge(next, d, t, h);
    StepThenReaches(g, t, h, y);
    if x != t {
      ReachesTransitive(g, x, t, y);
    }
  }

  /** Any web, however on_done was used: nothing is ordered that is not meant, so a web whose
      meaning is free of cycles flattens to an acyclic graph; and where every seam and every
      handover holds, all that is meant is ordered. */
  lemma LinkedWebMeansItsOrder(web: Web, next: Successors, root: Delayable, owners: set<Delayable>, g: Links<Delayable>)
    requires Linked(web, next, owners) && Within(web, root, owners) && IsUnionOf(g, web, owners)
    ensures forall x, y | Reaches(g, x, y) :: Reaches(MeantLinks(next, owners), x, y)
    ensures Acyclic(MeantLinks(next, owners)) ==> Acyclic(g)
    ensures AllSeamsHold(next, owners) ==> forall x, y :: Reaches(g, x, y) <==> Reaches(MeantLinks(next, owners), x, y)
  {
    var meant := MeantLinks(next, owners);
    LinkedWebFlattens(web, next, root, owners, g);
    forall t, h | Edge(g, t, h)
      ensures Edge(meant, t, h)
    {
      var d :| d in owners && LinkEdge(next, d, t, h);
      LinkEdgeIsMeant(next, d, t, h);
      MeantIsAmong(web, next, root, owners, t, h);
    }
    forall x, y | Reaches(g, x, y)
      ensures Reaches(meant, x, y)
    {
      MoreEdgesReachMore(g, meant, x, y);
    }
    if AllSeamsHold(next, owners) {
      MeantIsReached(web, next, root, owners, g);
      forall x, y | Reaches(meant, x, y)
        ensures Reaches(g, x, y)
      {
        var p :| WalkFromTo(meant, p, x, y);
        ReachesByReaching(meant, g, p, x, y);
      }
    }
  }

  lemma MeantIsReached(web: Web, next: Successors, root: Delayable, owners: set<Delayable>, g: Links<Delayable>)
    requires Linked(web, next, owners) && Within(web, root, owners) && AllSeamsHold(next, owners)
    requires forall t, h :: Edge(g, t, h) <==> EdgeAmong(next, owners, t, h)
    ensures forall x, y | Edge(MeantLinks(next, owners), x, y) :: Reaches(g, x, y)
  {
    forall x, y | Edge(MeantLinks(next, owners), x, y)
      ensures Reaches(g, x, y)
    {
      var d :| d in owners && (Before(d, x, y) || Follows(next, d, x, y));
      if Before(d, x, y) {
        BeforeIsReached(next, owners, g, d, x, y);
      } else {
        var n :| n in next[d] && y in Jobs(n);
        JobsNeedExits(d, x);
        OwnersHoldSuccessors(web, next, root, owners, d, n);
        FollowsIsReached(next, owners, g, d, n, x, y);
      }
    }
  }
}
