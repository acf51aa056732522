/** on_done nested to any depth, a.on_done(b.on_done(c), ...): its flat graph, and that graph
    against the chains nested the same way, chain(a, group(chain(b, group(c)), ...)). */
module NestedOnDone {
  import opened Basics
  import opened Graphs
  import opened Delayables
  import opened Connect
  import opened Preservation
  import opened Webs
  import opened Flattening

  /** An object and what was given to its on_done, each with successors of its own. id is the
      identity the chain standing for it would have. */
  datatype Plan = Plan(term: Delayable, id: nat, next: seq<Plan>)

  /** The web's successors are those of the plan: every object of it is given the terms that
      follow it, and nothing inside a term was given any. */
  ghost predicate Carries(next: Successors, p: Plan) {
    && p.term in next && next[p.term] == (set n | n in p.next :: n.term)
    && (forall s | s in Subterms(p.term) && s != p.term :: s in next && next[s] == {})
    && (forall n | n in p.next :: Carries(next, n))
  }

  /** One more member at the end of a chain, and a chain of two for a job or a group. Several
      successors count as one group. */
  function Followed(a: Delayable, id: nat, children: seq<Delayable>): Delayable {
    if a.Chain? then Chain(a.id, a.members + [Group(id, children)]) else Chain(id, [a, Group(id, children)])
  }

  /** Has on_done anything to hang from and anything to hang? */
  predicate Hands(p: Plan) {
    p.next != [] && Exits(p.term) != {}
  }

  /** The chains nested as the plan is. */
  function Nest(p: Plan): Delayable {
    if Hands(p) then Followed(p.term, p.id, seq(|p.next|, i requires 0 <= i < |p.next| => Nest(p.next[i])))
    else p.term
  }

  function Nests(ps: seq<Plan>): (ds: seq<Delayable>)
    ensures |ds| == |ps| && forall i | 0 <= i < |ps| :: ds[i] == Nest(ps[i])
  {
    seq(|ps|, i requires 0 <= i < |ps| => Nest(ps[i]))
  }

  lemma NestIsFollowed(p: Plan)
    requires Hands(p)
    ensures Nest(p) == Followed(p.term, p.id, Nests(p.next))
  {
    assert seq(|p.next|, i requires 0 <= i < |p.next| => Nest(p.next[i])) == Nests(p.next);
  }

  // ── The objects of a plan ────────────────────────────────────

  function Parts(p: Plan): set<Delayable> {
    Subterms(p.term) + if Hands(p) then set n, s | n in p.next && s in Parts(n) :: s else {}
  }

  lemma {:induction false} PartsAreClosed(web: Web, next: Successors, p: Plan, u: Delayable, v: Delayable)
    requires Linked(web, next, Parts(p)) && Carries(next, p) && u in Parts(p) && Edge(Hops(web), u, v)
    ensures v in Parts(p)
  {
    if u in Subterms(p.term) {
      assert GraphOf(web[u], u, next[u]);
      if v in OwnVertices(u) {
        if !u.Job? {
          SubtermsOfMembers(u, v);
        }
        SubtermsNest(p.term, u);
        assert v in Subterms(u);
      } else {
        assert u == p.term && v in next[u];
        var n :| n in p.next && n.term == v;
        assert v in Subterms(v) && v in Parts(n);
      }
    } else {
      var n :| n in p.next && u in Parts(n);
      assert Parts(n) <= Parts(p);
      PartsAreClosed(web, next, n, u, v);
    }
  }

  lemma {:induction false} PartsAreHeld(web: Web, next: Successors, p: Plan, root: Delayable, owners: set<Delayable>,
      s: Delayable)
    requires Linked(web, next, owners) && Within(web, root, owners) && Carries(next, p)
    requires p.term in owners && s in Parts(p)
    ensures s in owners
  {
    if s in Subterms(p.term) {
      OwnersHoldParts(web, root, owners, p.term, s);
    } else {
      var n :| n in p.next && s in Parts(n);
      OwnersHoldSuccessors(web, next, root, owners, p.term, n.term);
      PartsAreHeld(web, next, n, root, owners, s);
    }
  }

  lemma OwnersAreParts(web: Web, next: Successors, p: Plan, owners: set<Delayable>)
    requires Linked(web, next, Parts(p)) && Carries(next, p) && Within(web, p.term, owners)
    ensures owners == Parts(p)
  {
    assert p.term in Subterms(p.term);
    forall d | d in owners
      ensures d in Parts(p)
    {
      if d != p.term {
        forall u, v | u in Parts(p) && Edge(Hops(web), u, v)
          ensures v in Parts(p)
        {
          PartsAreClosed(web, next, p, u, v);
        }
        ClosedSetHoldsReached(Hops(web), Parts(p), p.term, d);
      }
    }
    forall s | s in Parts(p)
      ensures s in owners
    {
      PartsAreHeld(web, next, p, p.term, owners, s);
    }
  }

  // ── Its edges ────────────────────────────────────────────────

  ghost predicate HandsTo(d: Delayable, n: Delayable, t: Delayable, h: Delayable) {
    t in ExitTails(d) && h in Head(n)
  }

  ghost predicate PlanEdge(p: Plan, t: Delayable, h: Delayable) {
    || TermEdge(p.term, t, h)
    || (Hands(p) && exists n :: n in p.next && (HandsTo(p.term, n.term, t, h) || PlanEdge(n, t, h)))
  }

  lemma HandsOverToSome(p: Plan, next: Successors, t: Delayable, h: Delayable)
    requires p.term in next && next[p.term] == set n | n in p.next :: n.term
    ensures HandsOver(p.term, next[p.term], t, h) <==> exists n :: n in p.next && HandsTo(p.term, n.term, t, h)
  {
    if HandsOver(p.term, next[p.term], t, h) {
      var e, m :| e in Exits(p.term) && m in next[p.term] && t in Tail(e) && h in Head(m);
      var n :| n in p.next && n.term == m;
      assert HandsTo(p.term, n.term, t, h);
    }
    if n :| n in p.next && HandsTo(p.term, n.term, t, h) {
      var e :| e in Exits(p.term) && t in Tail(e);
      assert n.term in next[p.term];
    }
  }

  lemma {:induction false} EdgesAmongParts(next: Successors, p: Plan, t: Delayable, h: Delayable)
    requires Carries(next, p)
    ensures EdgeAmong(next, Parts(p), t, h) <==> PlanEdge(p, t, h)
  {
    HandsOverToSome(p, next, t, h);
    if EdgeAmong(next, Parts(p), t, h) {
      var d :| d in Parts(p) && LinkEdge(next, d, t, h);
      if d in Subterms(p.term) {
        if TermEdge(d, t, h) {
          SubtermEdgeIsEdge(p.term, d, t, h);
        } else {
          assert d == p.term;
        }
      } else {
        var n :| n in p.next && d in Parts(n);
        EdgesAmongParts(next, n, t, h);
        assert EdgeAmong(next, Parts(n), t, h);
      }
    }
    if PlanEdge(p, t, h) {
      if TermEdge(p.term, t, h) || HandsOver(p.term, next[p.term], t, h) {
        assert p.term in Parts(p) && LinkEdge(next, p.term, t, h);
      } else {
        var n :| n in p.next && PlanEdge(n, t, h);
        EdgesAmongParts(next, n, t, h);
        var d :| d in Parts(n) && LinkEdge(next, d, t, h);
        assert d in Parts(p);
      }
    }
  }

  lemma {:induction false} JobsOfParts(p: Plan)
    ensures JobsAmong(Parts(p)) == Jobs(Nest(p))
  {
    forall j
      ensures j in JobsAmong(Parts(p)) <==> j in Jobs(Nest(p))
    {
      if Hands(p) {
        NestIsFollowed(p);
        FollowedJobs(p.term, p.id, Nests(p.next), j);
      }
      if j in JobsAmong(Parts(p)) {
        var d :| d in Parts(p) && j in Jobs(d);
        if d in Subterms(p.term) {
          SubtermsNest(p.term, d);
        } else {
          var i :| 0 <= i < |p.next| && d in Parts(p.next[i]);
          JobsOfParts(p.next[i]);
          assert Nests(p.next)[i] in Nests(p.next);
        }
      }
      if j in Jobs(Nest(p)) {
        if j in Jobs(p.term) {
          assert p.term in Subterms(p.term);
        } else {
          var i :| 0 <= i < |p.next| && j in Jobs(Nests(p.next)[i]);
          JobsOfParts(p.next[i]);
          var d :| d in Parts(p.next[i]) && j in Jobs(d);
          assert d in Parts(p);
        }
      }
    }
  }

  /** The flat graph of a plan, read off the plan. */
  lemma PlanFlattens(web: Web, next: Successors, p: Plan, owners: set<Delayable>, g: Links<Delayable>)
    requires Linked(web, next, Parts(p)) && Carries(next, p) && Within(web, p.term, owners) && IsUnionOf(g, web, owners)
    ensures g.Keys == Jobs(Nest(p))
    ensures forall t, h :: Edge(g, t, h) <==> PlanEdge(p, t, h)
  {
    OwnersAreParts(web, next, p, owners);
    LinkedWebFlattens(web, next, p.term, owners, g);
    JobsOfParts(p);
    forall t, h
      ensures Edge(g, t, h) <==> PlanEdge(p, t, h)
    {
      EdgesAmongParts(next, p, t, h);
    }
  }

  // ── A term with one more member ──────────────────────────────

  lemma FollowedMembers(a: Delayable, id: nat, children: seq<Delayable>, m: Delayable)
    ensures m in Followed(a, id, children).members <==>
        m == Group(id, children) || (if a.Chain? then m in a.members else m == a)
  {
  }

  lemma FollowedJobs(a: Delayable, id: nat, children: seq<Delayable>, j: Delayable)
    ensures j in Jobs(Followed(a, id, children)) <==> j in Jobs(a) || exists c :: c in children && j in Jobs(c)
  {
    var d, rest := Followed(a, id, children), Group(id, children);
    forall m
      ensures m in d.members <==> m == rest || (if a.Chain? then m in a.members else m == a)
    {
      FollowedMembers(a, id, children, m);
    }
    if j in Jobs(d) {
      var m :| m in d.members && j in Jobs(m);
    }
    if c :| c in children && j in Jobs(c) {
      assert j in Jobs(rest);
    }
  }

  lemma TailsOfExits(a: Delayable, last: Delayable)
    requires Exits(a) != {} && last == if a.Chain? then a.members[|a.members| - 1] else a
    ensures Tail(last) == ExitTails(a)
  {
    if a.Group? {
      forall t
        ensures t in Tail(a) <==> t in ExitTails(a)
      {
        if t in Tail(a) {
          var m :| m in a.members && t in Tail(m);
          assert m in Exits(a);
        }
      }
    } else {
      assert Exits(a) == {last} && last in Exits(a);
    }
  }

  lemma FollowedEdges(a: Delayable, id: nat, children: seq<Delayable>, t: Delayable, h: Delayable)
    requires Exits(a) != {}
    ensures TermEdge(Followed(a, id, children), t, h) <==>
            || TermEdge(a, t, h)
            || (exists c :: c in children && HandsTo(a, c, t, h))
            || (exists c :: c in children && TermEdge(c, t, h))
  {
    hide HandsTo, TermEdge, Followed;
    if TermEdge(Followed(a, id, children), t, h) {
      FollowedEdgeComesFrom(a, id, children, t, h);
    }
    if TermEdge(a, t, h) {
      FollowedKeepsEdges(a, id, children, t, h);
    }
    if c :| c in children && HandsTo(a, c, t, h) {
      FollowedHandsOver(a, id, children, c, t, h);
    }
    if c :| c in children && TermEdge(c, t, h) {
      FollowedKeepsChildren(a, id, children, c, t, h);
    }
  }

  lemma FollowedKeepsEdges(a: Delayable, id: nat, children: seq<Delayable>, t: Delayable, h: Delayable)
    requires TermEdge(a, t, h)
    ensures TermEdge(Followed(a, id, children), t, h)
  {
    var d := Followed(a, id, children);
    if a.Chain? {
      if exists m :: m in a.members && TermEdge(m, t, h) {
        var m :| m in a.members && TermEdge(m, t, h);
        assert m in d.members;
      } else {
        var i :| 0 <= i < |a.members| - 1 && t in Tail(a.members[i]) && h in Head(a.members[i + 1]);
        assert d.members[i] == a.members[i] && d.members[i + 1] == a.members[i + 1];
      }
    } else {
      assert d.members[0] == a && a in d.members;
    }
  }

  lemma FollowedHandsOver(a: Delayable, id: nat, children: seq<Delayable>, c: Delayable, t: Delayable, h: Delayable)
    requires Exits(a) != {} && c in children && HandsTo(a, c, t, h)
    ensures TermEdge(Followed(a, id, children), t, h)
  {
    var d, rest := Followed(a, id, children), Group(id, children);
    var i := |d.members| - 2;
    TailsOfExits(a, d.members[i]);
    assert d.members[i + 1] == rest && h in Head(rest);
    assert Joined(d.members, t, h);
  }

  lemma FollowedKeepsChildren(a: Delayable, id: nat, children: seq<Delayable>, c: Delayable, t: Delayable, h: Delayable)
    requires c in children && TermEdge(c, t, h)
    ensures TermEdge(Followed(a, id, children), t, h)
  {
    var d, rest := Followed(a, id, children), Group(id, children);
    assert TermEdge(rest, t, h) && d.members[|d.members| - 1] == rest;
    assert rest in d.members;
  }

  lemma FollowedEdgeComesFrom(a: Delayable, id: nat, children: seq<Delayable>, t: Delayable, h: Delayable)
    requires Exits(a) != {} && TermEdge(Followed(a, id, children), t, h)
    ensures || TermEdge(a, t, h)
            || (exists c :: c in children && HandsTo(a, c, t, h))
            || (exists c :: c in children && TermEdge(c, t, h))
  {
    var d, rest := Followed(a, id, children), Group(id, children);
    if exists m :: m in d.members && TermEdge(m, t, h) {
      var m :| m in d.members && TermEdge(m, t, h);
      FollowedMembers(a, id, children, m);
      if m == rest {
        var c :| c in children && TermEdge(c, t, h);
      }
    } else {
      var i :| 0 <= i < |d.members| - 1 && t in Tail(d.members[i]) && h in Head(d.members[i + 1]);
      if i < |d.members| - 2 {
        assert Joined(a.members, t, h);
      } else {
        TailsOfExits(a, d.members[i]);
        var c :| c in children && h in Head(c);
        assert HandsTo(a, c, t, h);
      }
    }
  }

  // ── Same effect, and when not ────────────────────────────────

  /** A chain begins with its first member's tail, so a group that is given successors shows
      its tail where it showed its head. */
  predicate KeepsItsHead(p: Plan) {
    Hands(p) && p.term.Group? ==> Head(p.term) == Tail(p.term)
  }

  /** Wherever something waits for a job, what it hands over to keeps its head. */
  predicate HeadsKept(p: Plan) {
    Hands(p) ==> forall n | n in p.next :: HeadsKept(n) && (ExitTails(p.term) != {} ==> KeepsItsHead(n))
  }

  lemma HeadOfNest(p: Plan)
    ensures Head(Nest(p)) == if Hands(p) && p.term.Group? then Tail(p.term) else Head(p.term)
  {
    if Hands(p) {
      NestIsFollowed(p);
      var d := Nest(p);
      assert d.Chain? && d.members != [];
      assert d.members[0] == if p.term.Chain? then p.term.members[0] else p.term;
    }
  }

  lemma {:induction false} NestKeepsEdges(p: Plan, t: Delayable, h: Delayable)
    requires HeadsKept(p)
    ensures PlanEdge(p, t, h) <==> TermEdge(Nest(p), t, h)
  {
    if Hands(p) {
      NestIsFollowed(p);
      var ds := Nests(p.next);
      FollowedEdges(p.term, p.id, ds, t, h);
      forall i | 0 <= i < |p.next|
        ensures HandsTo(p.term, p.next[i].term, t, h) <==> HandsTo(p.term, ds[i], t, h)
        ensures PlanEdge(p.next[i], t, h) <==> TermEdge(ds[i], t, h)
      {
        assert p.next[i] in p.next;
        HeadOfNest(p.next[i]);
        NestKeepsEdges(p.next[i], t, h);
      }
      SomeByPlace(p.next, ds, p.term, t, h);
    }
  }

  lemma SomeByPlace(ps: seq<Plan>, ds: seq<Delayable>, a: Delayable, t: Delayable, h: Delayable)
    requires |ps| == |ds|
    requires forall i | 0 <= i < |ps| :: HandsTo(a, ps[i].term, t, h) <==> HandsTo(a, ds[i], t, h)
    requires forall i | 0 <= i < |ps| :: PlanEdge(ps[i], t, h) <==> TermEdge(ds[i], t, h)
    ensures (exists n :: n in ps && (HandsTo(a, n.term, t, h) || PlanEdge(n, t, h))) <==>
            (exists c :: c in ds && HandsTo(a, c, t, h)) || (exists c :: c in ds && TermEdge(c, t, h))
  {
    if n :| n in ps && (HandsTo(a, n.term, t, h) || PlanEdge(n, t, h)) {
      var i :| 0 <= i < |ps| && ps[i] == n;
      assert ds[i] in ds;
    }
    if c :| c in ds && (HandsTo(a, c, t, h) || TermEdge(c, t, h)) {
      var i :| 0 <= i < |ds| && ds[i] == c;
      assert ps[i] in ps;
    }
  }

  /** Jobs of the object and of what follows it are all apart. */
  lemma FollowedApart(p: Plan)
    requires Hands(p) && DistinctJobs(Nest(p))
    ensures
      var ds := Nests(p.next);
      && (forall i | 0 <= i < |ds| :: DistinctJobs(ds[i]) && Jobs(p.term) !! Jobs(ds[i]))
      && (forall i, k | 0 <= i < k < |ds| :: Jobs(ds[i]) !! Jobs(ds[k]))
  {
    NestIsFollowed(p);
    var d, ds := Nest(p), Nests(p.next);
    var rest, n := Group(p.id, ds), |d.members| - 1;
    assert d.members[n] == rest && rest in d.members;
    forall i | 0 <= i < |ds|
      ensures DistinctJobs(ds[i]) && Jobs(p.term) !! Jobs(ds[i])
    {
      assert ds[i] in ds;
      assert Jobs(ds[i]) <= Jobs(rest);
      forall j | j in Jobs(p.term)
        ensures j !in Jobs(rest)
      {
        var k := 0;
        if p.term.Chain? {
          k := MemberOf(p.term.members, j);
        }
        assert 0 <= k < n && j in Jobs(d.members[k]);
        assert Jobs(d.members[k]) !! Jobs(d.members[n]);
      }
    }
  }

  lemma {:induction false} PlanEdgeIsInside(p: Plan, t: Delayable, h: Delayable)
    requires PlanEdge(p, t, h)
    ensures t in Jobs(Nest(p)) && h in Jobs(Nest(p))
  {
    JobsOfNest(p);
    if TermEdge(p.term, t, h) {
      TermEdgeIsBefore(p.term, t, h);
      BeforeRelatesJobs(p.term, t, h);
    } else {
      var n :| n in p.next && (HandsTo(p.term, n.term, t, h) || PlanEdge(n, t, h));
      if HandsTo(p.term, n.term, t, h) {
        ExitTailsAreJobs(p.term, t);
        HeadAndTailAreJobs(n.term);
        JobsOfNest(n);
      } else {
        PlanEdgeIsInside(n, t, h);
      }
    }
  }

  lemma JobsOfNest(p: Plan)
    ensures Jobs(p.term) <= Jobs(Nest(p))
    ensures Hands(p) ==> forall n | n in p.next :: Jobs(Nest(n)) <= Jobs(Nest(p))
  {
    if Hands(p) {
      NestIsFollowed(p);
      var ds := Nests(p.next);
      forall j | j in Jobs(p.term)
        ensures j in Jobs(Nest(p))
      {
        FollowedJobs(p.term, p.id, ds, j);
      }
      forall n, j | n in p.next && j in Jobs(Nest(n))
        ensures j in Jobs(Nest(p))
      {
        var i :| 0 <= i < |p.next| && p.next[i] == n;
        assert ds[i] in ds;
        FollowedJobs(p.term, p.id, ds, j);
      }
    }
  }

  lemma EdgeStaysInside(d: Delayable, t: Delayable, h: Delayable)
    requires TermEdge(d, t, h)
    ensures t in Jobs(d) && h in Jobs(d)
  {
    TermEdgeIsBefore(d, t, h);
    BeforeRelatesJobs(d, t, h);
  }

  lemma HandoverStaysInside(d: Delayable, n: Delayable, t: Delayable, h: Delayable)
    requires HandsTo(d, n, t, h)
    ensures t in Jobs(d) && h in Jobs(n)
  {
    ExitTailsAreJobs(d, t);
    HeadAndTailAreJobs(n);
  }

  /** What an edge of the chains says about two jobs, one of the object and one of what is
      handed over to, and about two jobs of the latter. */
  lemma NestEdgeByPlace(p: Plan, i: nat, t: Delayable, h: Delayable)
    requires Hands(p) && DistinctJobs(Nest(p)) && i < |p.next| && h in Jobs(Nest(p.next[i]))
    ensures t in Jobs(p.term) ==> (TermEdge(Nest(p), t, h) <==> HandsTo(p.term, Nest(p.next[i]), t, h))
    ensures t in Jobs(Nest(p.next[i])) ==> (TermEdge(Nest(p), t, h) <==> TermEdge(Nest(p.next[i]), t, h))
  {
    NestIsFollowed(p);
    FollowedApart(p);
    var ds := Nests(p.next);
    assert ds[i] in ds;
    FollowedEdges(p.term, p.id, ds, t, h);
    hide TermEdge, HandsTo, Nest, Followed, DistinctJobs, Jobs;
    if TermEdge(p.term, t, h) {
      EdgeStaysInside(p.term, t, h);
    }
    OnlyThatChild(p.term, ds, i, t, h);
  }

  lemma OnlyThatChild(a: Delayable, ds: seq<Delayable>, i: nat, t: Delayable, h: Delayable)
    requires i < |ds| && h in Jobs(ds[i]) && forall i, k | 0 <= i < k < |ds| :: Jobs(ds[i]) !! Jobs(ds[k])
    ensures forall c | c in ds :: HandsTo(a, c, t, h) ==> c == ds[i] && t in Jobs(a)
    ensures forall c | c in ds :: TermEdge(c, t, h) ==> c == ds[i] && t in Jobs(c)
  {
    hide TermEdge, HandsTo, Jobs;
    forall c | c in ds
      ensures HandsTo(a, c, t, h) ==> c == ds[i] && t in Jobs(a)
      ensures TermEdge(c, t, h) ==> c == ds[i] && t in Jobs(c)
    {
      var k :| 0 <= k < |ds| && ds[k] == c;
      if HandsTo(a, c, t, h) {
        HandoverStaysInside(a, c, t, h);
      }
      if TermEdge(c, t, h) {
        EdgeStaysInside(c, t, h);
      }
    }
  }

  lemma PlanEdgeByPlace(p: Plan, i: nat, t: Delayable, h: Delayable)
    requires Hands(p) && DistinctJobs(Nest(p)) && i < |p.next| && h in Jobs(Nest(p.next[i]))
    ensures t in Jobs(p.term) ==> (PlanEdge(p, t, h) <==> HandsTo(p.term, p.next[i].term, t, h))
    ensures t in Jobs(Nest(p.next[i])) ==> (PlanEdge(p, t, h) <==> PlanEdge(p.next[i], t, h))
  {
    FollowedApart(p);
    var ds := Nests(p.next);
    assert p.next[i] in p.next;
    hide TermEdge, HandsTo, Nest, DistinctJobs, Jobs;
    if TermEdge(p.term, t, h) {
      EdgeStaysInside(p.term, t, h);
    }
    forall n | n in p.next
      ensures HandsTo(p.term, n.term, t, h) ==> n == p.next[i] && t in Jobs(p.term)
      ensures PlanEdge(n, t, h) ==> n == p.next[i] && t in Jobs(Nest(n))
    {
      var k :| 0 <= k < |p.next| && p.next[k] == n;
      if HandsTo(p.term, n.term, t, h) {
        HandoverStaysInside(p.term, n.term, t, h);
        JobsOfNest(n);
        assert h in Jobs(ds[k]);
      }
      if PlanEdge(n, t, h) {
        PlanEdgeIsInside(n, t, h);
        assert h in Jobs(ds[k]);
      }
    }
  }

  lemma {:induction false} SameEdgesKeepHeads(p: Plan)
    requires DistinctJobs(Nest(p))
    requires forall t, h :: PlanEdge(p, t, h) <==> TermEdge(Nest(p), t, h)
    ensures HeadsKept(p)
  {
    if Hands(p) {
      FollowedApart(p);
      forall n | n in p.next
        ensures HeadsKept(n) && (ExitTails(p.term) != {} ==> KeepsItsHead(n))
      {
        var i :| 0 <= i < |p.next| && p.next[i] == n;
        assert DistinctJobs(Nests(p.next)[i]);
        forall t, h
          ensures PlanEdge(n, t, h) <==> TermEdge(Nest(n), t, h)
        {
          if PlanEdge(n, t, h) {
            PlanEdgeIsInside(n, t, h);
          }
          if TermEdge(Nest(n), t, h) {
            TermEdgeIsBefore(Nest(n), t, h);
            BeforeRelatesJobs(Nest(n), t, h);
          }
          if t in Jobs(Nest(n)) && h in Jobs(Nest(n)) {
            PlanEdgeByPlace(p, i, t, h);
            NestEdgeByPlace(p, i, t, h);
          }
        }
        SameEdgesKeepHeads(n);
        if t :| t in ExitTails(p.term) {
          SameHandover(p, i, t);
        }
      }
    }
  }

  lemma SameHandover(p: Plan, i: nat, t: Delayable)
    requires Hands(p) && DistinctJobs(Nest(p)) && i < |p.next| && t in ExitTails(p.term)
    requires forall h :: PlanEdge(p, t, h) <==> TermEdge(Nest(p), t, h)
    ensures KeepsItsHead(p.next[i])
  {
    var n := p.next[i];
    ExitTailsAreJobs(p.term, t);
    HeadOfNest(n);
    JobsOfNest(n);
    HeadAndTailAreJobs(n.term);
    forall h | h in Jobs(Nest(n))
      ensures h in Head(n.term) <==> h in Head(Nest(n))
    {
      PlanEdgeByPlace(p, i, t, h);
      NestEdgeByPlace(p, i, t, h);
    }
    HeadAndTailAreJobs(Nest(n));
    assert Head(n.term) == Head(Nest(n));
  }

  lemma SameEdgesSameTerm(g: Links<Delayable>, d: Delayable)
    requires g.Keys == Jobs(d)
    requires forall t, h :: Edge(g, t, h) <==> TermEdge(d, t, h)
    ensures g == TermLinks(d)
  {
    forall t | t in g
      ensures g[t] == TermLinks(d)[t]
    {
      forall h
        ensures h in g[t] <==> h in TermLinks(d)[t]
      {
        EdgesOfTermLinks(d, t, h);
        assert Edge(g, t, h) <==> TermEdge(d, t, h);
      }
    }
  }

  // ── Main results ─────────────────────────────────────────────

  /** Where heads are kept - so at any depth without groups in the middle, and always at depth
      one - on_done flattens to the graph of the chains nested the same way. */
  lemma NestedOnDoneActsAsChain(web: Web, next: Successors, p: Plan, owners: set<Delayable>, g: Links<Delayable>)
    requires Linked(web, next, Parts(p)) && Carries(next, p) && Within(web, p.term, owners) && IsUnionOf(g, web, owners)
    requires HeadsKept(p)
    ensures g == TermLinks(Nest(p))
  {
    PlanFlattens(web, next, p, owners, g);
    forall t, h
      ensures Edge(g, t, h) <==> TermEdge(Nest(p), t, h)
    {
      NestKeepsEdges(p, t, h);
    }
    SameEdgesSameTerm(g, Nest(p));
  }

  /** on_done, nested to any depth, flattens to the graph of the chains nested the same way if and
      only if no group that shows other heads than tails is given successors while something
      waits in front of it. */
  lemma NestedOnDoneActsAsChainExactlyWhenHeadsKept(web: Web, next: Successors, p: Plan, owners: set<Delayable>,
      g: Links<Delayable>)
    requires Linked(web, next, Parts(p)) && Carries(next, p) && Within(web, p.term, owners) && IsUnionOf(g, web, owners)
    requires DistinctJobs(Nest(p))
    ensures g == TermLinks(Nest(p)) <==> HeadsKept(p)
  {
    var d := Nest(p);
    PlanFlattens(web, next, p, owners, g);
    if HeadsKept(p) {
      NestedOnDoneActsAsChain(web, next, p, owners, g);
    }
    if g == TermLinks(d) {
      forall t, h
        ensures PlanEdge(p, t, h) <==> TermEdge(d, t, h)
      {
        EdgesOfTermLinks(d, t, h);
        assert Edge(g, t, h) <==> PlanEdge(p, t, h);
      }
      SameEdgesKeepHeads(p);
    }
  }

  /** An object nobody called on_done on flattens to exactly the graph of the term. */
  lemma UntouchedTermFlattens(web: Web, a: Delayable, owners: set<Delayable>, g: Links<Delayable>)
    requires ValidWeb(web) && forall s | s in Subterms(a) :: s in web && GraphOf(web[s], s, {})
    requires Within(web, a, owners) && IsUnionOf(g, web, owners)
    ensures g == TermLinks(a)
  {
    var next: Successors := map s | s in Subterms(a) :: {};
    assert a in Subterms(a);
    PlanFlattens(web, next, Plan(a, 0, []), owners, g);
    SameEdgesSameTerm(g, a);
  }

  lemma GroupOfOne(d: Delayable, m: Delayable)
    requires d.Group? && d.members == [m]
    ensures Jobs(d) == Jobs(m) && Head(d) == Head(m) && Tail(d) == Tail(m)
    ensures DistinctJobs(d) <==> DistinctJobs(m)
    ensures forall x, y :: Before(d, x, y) <==> Before(m, x, y)
  {
    assert d.members[0] == m && forall k | k in d.members :: k == m;
    assert DisjointMembers(d.members);
  }

  /** job1.on_done(job2.on_done(job3)), as in button_chain_done: three jobs in a row, and a
      plan all of the results here apply to. */
  lemma JobsInARow(a: Delayable, b: Delayable, c: Delayable, p: Plan)
    requires a.Job? && b.Job? && c.Job? && a != b && b != c && a != c
    requires p == Plan(a, 10, [Plan(b, 11, [Plan(c, 12, [])])])
    ensures HeadsKept(p) && DistinctJobs(Nest(p)) && SeamsHold(Nest(p))
    ensures Before(Nest(p), a, b) && Before(Nest(p), b, c)
  {
    var mid := p.next[0];
    NestIsFollowed(mid);
    assert Nests(mid.next) == [c];
    NestIsFollowed(p);
    assert Nests(p.next) == [Nest(mid)];
    assert HeadsKept(p.next[0].next[0]) && HeadsKept(mid) && HeadsKept(p);
    hide HeadsKept, KeepsItsHead, Nest, Nests, Followed;
    assert PlainEnds(c, true) && DistinctJobs(c) && Jobs(c) == {c};
    JobThenGroup(b, Group(11, [c]), c, Nest(mid), true);
    JobThenGroup(a, Group(10, [Nest(mid)]), Nest(mid), Nest(p), false);
    PlainEndsSuffice(Nest(p), false);
  }

  lemma JobThenGroup(a: Delayable, rest: Delayable, m: Delayable, d: Delayable, nested: bool)
    requires a.Job? && rest.Group? && rest.members == [m] && d.Chain? && d.members == [a, rest]
    requires DistinctJobs(m) && a !in Jobs(m) && PlainEnds(m, true) && (nested ==> m.Job?)
    ensures DistinctJobs(d) && PlainEnds(d, nested) && Jobs(d) == {a} + Jobs(m)
    ensures forall y | y in Jobs(m) :: Before(d, a, y)
    ensures forall x, y | Before(m, x, y) :: Before(d, x, y)
  {
    GroupOfOne(rest, m);
    assert Jobs(a) == {a} && DistinctJobs(a);
    ChainOfTwoJobs(d, a, rest);
    ChainOfTwoDistinct(d, a, rest);
    assert d.members[1] == rest && rest in d.members && rest.members[0] == m;
    assert forall k | k in d.members :: k == a || k == rest;
    assert PlainEnds(rest, true);
    forall y | y in Jobs(m)
      ensures Before(d, a, y)
    {
      ChainOfTwoOrder(d, a, rest, a, y);
    }
  }

  /** x.on_done(group(chain(a, b)).on_done(c)): on_done makes a wait for x, the chains nested
      the same way make b wait for it, and a for nothing. */
  lemma GroupInTheMiddleDiffers(x: Delayable, a: Delayable, b: Delayable, c: Delayable, p: Plan)
    requires x.Job? && a.Job? && b.Job? && c.Job? && Distinct([x, a, b, c])
    requires p == Plan(x, 10, [Plan(Group(11, [Chain(12, [a, b])]), 13, [Plan(c, 14, [])])])
    ensures !HeadsKept(p) && PlanEdge(p, x, a) && !TermEdge(Nest(p), x, a)
  {
    var jobs := [x, a, b, c];
    assert jobs[0] != jobs[1] && jobs[0] != jobs[2] && jobs[1] != jobs[2] && jobs[1] != jobs[3];
    var mid, ab := p.next[0], Chain(12, [a, b]);
    ChainOfTwoJobs(ab, a, b);
    GroupOfOne(mid.term, ab);
    assert x in Exits(x) && x in Tail(x);
    assert x in ExitTails(x);
    assert ab in Exits(mid.term);
    assert HandsTo(x, mid.term, x, a);
    HeadOfNest(mid);
    NestIsFollowed(mid);
    NestIsFollowed(p);
    assert Nests(p.next) == [Nest(mid)];
    FollowedEdges(x, 10, [Nest(mid)], x, a);
    assert Head(mid.term) == {a} && Tail(mid.term) == {b};
    assert mid in p.next && Hands(p) && !KeepsItsHead(mid);
    if TermEdge(Nest(mid), x, a) {
      TermEdgeIsBefore(Nest(mid), x, a);
      BeforeRelatesJobs(Nest(mid), x, a);
      assert Nests(mid.next) == [c];
      FollowedJobs(mid.term, 13, [c], x);
    }
  }

  /** What is given to on_done is delayed with the object if and only if the object has an exit:
      an empty group drops every job it was given. */
  lemma SuccessorIsDelayedExactlyWhenThereIsAnExit(web: Web, next: Successors, p: Plan, n: Plan,
                                                   owners: set<Delayable>, g: Links<Delayable>, j: Delayable)
    requires Linked(web, next, Parts(p)) && Carries(next, p) && Within(web, p.term, owners) && IsUnionOf(g, web, owners)
    requires n in p.next && j in Jobs(n.term) && j !in Jobs(p.term)
    ensures j in g <==> Exits(p.term) != {}
  {
    PlanFlattens(web, next, p, owners, g);
    JobsOfNest(p);
    JobsOfNest(n);
  }

  /** What group().on_done(j) leaves behind: an empty group has no exit to hang j from. */
  const NOTHING := Group(1, [])

  function WebOfNothing(j: Delayable): Web {
    map[NOTHING := map[], j := map[j := {}]]
  }

  function NextOfNothing(j: Delayable): Successors {
    map[NOTHING := {j}, j := {}]
  }

  lemma NothingIsLinked(j: Delayable)
    requires j.Job?
    ensures Linked(WebOfNothing(j), NextOfNothing(j), {NOTHING, j})
  {
    assert Exits(NOTHING) == {} && OwnVertices(NOTHING) == {} && OwnVertices(j) == {j};
  }

  lemma NothingIsCarried(j: Delayable)
    requires j.Job?
    ensures
      var p := Plan(NOTHING, 2, [Plan(j, 3, [])]);
      Carries(NextOfNothing(j), p) && Parts(p) == {NOTHING} && Jobs(Nest(p)) == {}
  {
    var p := Plan(NOTHING, 2, [Plan(j, 3, [])]);
    assert Exits(NOTHING) == {} && Subterms(NOTHING) == {NOTHING} && Subterms(j) == {j};
    assert Carries(NextOfNothing(j), p.next[0]);
  }

  /** group().on_done(j): j is no vertex of the flat graph, and is never delayed. */
  lemma EmptyGroupDropsItsSuccessor(j: Delayable, owners: set<Delayable>, g: Links<Delayable>)
    requires j.Job? && Within(WebOfNothing(j), NOTHING, owners) && IsUnionOf(g, WebOfNothing(j), owners)
    ensures Linked(WebOfNothing(j), NextOfNothing(j), {NOTHING, j}) && j in NextOfNothing(j)[NOTHING] && j !in g
  {
    NothingIsLinked(j);
    NothingIsCarried(j);
    hide Carries, Nest, Parts;
    PlanFlattens(WebOfNothing(j), NextOfNothing(j), Plan(NOTHING, 2, [Plan(j, 3, [])]), owners, g);
  }
}
