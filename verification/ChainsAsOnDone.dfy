/** Using chain() has the same effect as using several nested on_done(): when
    m1.on_done(m2.on_done(m3)) flattens to the graph of chain(m1, m2, m3), for members of any
    shape, and when not. */
module ChainsAsOnDone {
  import opened Basics
  import opened Graphs
  import opened Delayables
  import opened Connect
  import opened Preservation
  import opened Webs
  import opened Flattening
  import opened NestedOnDone
  import opened OnDoneOrder

  /** m1.on_done(m2.on_done(...)): each member is handed the next one. */
  function Line(ms: seq<Delayable>): Plan
    requires ms != []
  {
    Plan(ms[0], 0, if |ms| == 1 then [] else [Line(ms[1..])])
  }

  /** Some member hands over to the next. */
  ghost predicate HandedOn(ms: seq<Delayable>, t: Delayable, h: Delayable) {
    exists i :: 0 <= i < |ms| - 1 && HandsTo(ms[i], ms[i + 1], t, h)
  }

  /** Some member has the edge within itself. */
  ghost predicate InsideOne(ms: seq<Delayable>, t: Delayable, h: Delayable) {
    exists m :: m in ms && TermEdge(m, t, h)
  }

  /** Nothing with a job follows a member on_done has no exit to hang it from, that is, an
      empty group. */
  ghost predicate NothingDropped(ms: seq<Delayable>) {
    forall i, k | 0 <= i < k < |ms| && Exits(ms[i]) == {} :: Jobs(ms[k]) == {}
  }

  /** Between two neighbours: nothing to hold back, or on_done waits for the very jobs the
      left one shows as its tail. */
  predicate WaitsForTail(ms: seq<Delayable>, i: int)
    requires 0 <= i < |ms| - 1
  {
    Head(ms[i + 1]) == {} || ExitTails(ms[i]) == Tail(ms[i])
  }

  ghost predicate AllWaitForTails(ms: seq<Delayable>) {
    forall i | 0 <= i < |ms| - 1 :: WaitsForTail(ms, i)
  }

  predicate SameEnds(d: Delayable) {
    Head(d) == Tail(d)
  }

  /** A job and a group show as their tail what on_done waits for, and so does a chain whose
      last member shows the same jobs at both ends. */
  lemma OnlyChainsShowAnotherTail(d: Delayable)
    ensures ExitTails(d) == Tail(d) <==> (d.Chain? && d.members != [] ==> SameEnds(d.members[|d.members| - 1]))
  {
  }

  // ── The graph of a line ──────────────────────────────────────

  lemma LineHands(ms: seq<Delayable>)
    requires ms != []
    ensures Hands(Line(ms)) <==> |ms| > 1 && Exits(ms[0]) != {}
    ensures Jobs(Nest(Line(ms))) == Jobs(ms[0]) + if Hands(Line(ms)) then Jobs(Nest(Line(ms[1..]))) else {}
  {
    var p := Line(ms);
    if Hands(p) {
      NestIsFollowed(p);
      assert Nests(p.next) == [Nest(Line(ms[1..]))];
      forall j
        ensures j in Jobs(Nest(p)) <==> j in Jobs(ms[0]) + Jobs(Nest(Line(ms[1..])))
      {
        FollowedJobs(p.term, p.id, Nests(p.next), j);
      }
    }
  }

  lemma {:induction false} LineHasAllJobs(ms: seq<Delayable>, j: Delayable)
    requires ms != [] && NothingDropped(ms)
    ensures j in Jobs(Nest(Line(ms))) <==> exists m :: m in ms && j in Jobs(m)
  {
    LineHands(ms);
    assert ms[0] in ms && forall m | m in ms[1..] :: m in ms;
    if |ms| > 1 {
      var rest := ms[1..];
      assert NothingDropped(rest) by {
        forall i, k | 0 <= i < k < |rest| && Exits(rest[i]) == {}
          ensures Jobs(rest[k]) == {}
        {
          assert rest[i] == ms[i + 1] && rest[k] == ms[k + 1];
        }
      }
      LineHasAllJobs(rest, j);
      if m :| m in ms && j in Jobs(m) {
        var k :| 0 <= k < |ms| && ms[k] == m;
        if k > 0 {
          assert rest[k - 1] == m && m in rest;
        }
      }
    }
  }

  /** Behind an empty group the line is cut. */
  lemma {:induction false} LineIsCut(ms: seq<Delayable>, i: nat, k: nat, j: Delayable)
    requires DisjointMembers(ms) && i < k < |ms| && Exits(ms[i]) == {} && j in Jobs(ms[k])
    ensures j !in Jobs(Nest(Line(ms)))
  {
    LineHands(ms);
    assert Jobs(ms[0]) !! Jobs(ms[k]);
    if i > 0 {
      var rest := ms[1..];
      assert forall a | 0 <= a < |rest| :: rest[a] == ms[a + 1];
      LineIsCut(rest, i - 1, k - 1, j);
    }
  }

  lemma {:induction false} LineEdges(ms: seq<Delayable>, t: Delayable, h: Delayable)
    requires ms != [] && NothingDropped(ms)
    ensures PlanEdge(Line(ms), t, h) <==> InsideOne(ms, t, h) || HandedOn(ms, t, h)
  {
    var p := Line(ms);
    LineHands(ms);
    assert ms[0] in ms && forall m | m in ms[1..] :: m in ms;
    if Hands(p) {
      var rest := ms[1..];
      assert forall a | 0 <= a < |rest| :: rest[a] == ms[a + 1];
      LineEdges(rest, t, h);
      LineEdgesFromRest(ms, t, h);
      HandedOnFromRest(ms, t, h);
      InsideOneFromRest(ms, t, h);
    } else {
      LineEndsAt(ms, t, h);
    }
  }

  lemma LineEdgesFromRest(ms: seq<Delayable>, t: Delayable, h: Delayable)
    requires ms != [] && Hands(Line(ms))
    ensures PlanEdge(Line(ms), t, h) <==>
        TermEdge(ms[0], t, h) || HandsTo(ms[0], ms[1], t, h) || PlanEdge(Line(ms[1..]), t, h)
  {
    hide TermEdge, HandsTo, Exits;
    var p := Line(ms);
    assert p.next == [Line(ms[1..])] && p.next[0].term == ms[1];
    assert p.next[0] in p.next && forall n | n in p.next :: n == p.next[0];
  }

  lemma HandedOnFromRest(ms: seq<Delayable>, t: Delayable, h: Delayable)
    requires |ms| > 1
    ensures HandedOn(ms, t, h) <==> HandsTo(ms[0], ms[1], t, h) || HandedOn(ms[1..], t, h)
  {
    hide HandsTo;
    var rest := ms[1..];
    assert forall a | 0 <= a < |rest| :: rest[a] == ms[a + 1];
    if HandedOn(ms, t, h) {
      var i :| 0 <= i < |ms| - 1 && HandsTo(ms[i], ms[i + 1], t, h);
      if i > 0 {
        assert HandsTo(rest[i - 1], rest[i - 1 + 1], t, h);
      }
    }
    if HandedOn(rest, t, h) {
      var i :| 0 <= i < |rest| - 1 && HandsTo(rest[i], rest[i + 1], t, h);
      assert HandsTo(ms[i + 1], ms[i + 1 + 1], t, h);
    }
    if HandsTo(ms[0], ms[1], t, h) {
      assert HandsTo(ms[0], ms[0 + 1], t, h);
    }
  }

  lemma InsideOneFromRest(ms: seq<Delayable>, t: Delayable, h: Delayable)
    requires ms != []
    ensures InsideOne(ms, t, h) <==> TermEdge(ms[0], t, h) || InsideOne(ms[1..], t, h)
  {
    hide TermEdge;
    assert ms[0] in ms && forall m | m in ms :: m == ms[0] || m in ms[1..];
  }

  lemma LineEndsAt(ms: seq<Delayable>, t: Delayable, h: Delayable)
    requires ms != [] && NothingDropped(ms) && !Hands(Line(ms))
    ensures !HandedOn(ms, t, h)
    ensures InsideOne(ms, t, h) <==> TermEdge(ms[0], t, h)
  {
    LineHands(ms);
    assert forall k | 0 < k < |ms| :: Jobs(ms[k]) == {};
    hide TermEdge, HandsTo, Jobs, Hands, Nest;
    forall i | 0 <= i < |ms| - 1
      ensures !HandsTo(ms[i], ms[i + 1], t, h)
    {
      if HandsTo(ms[i], ms[i + 1], t, h) {
        HandoverStaysInside(ms[i], ms[i + 1], t, h);
      }
    }
    forall k | 0 < k < |ms|
      ensures !TermEdge(ms[k], t, h)
    {
      if TermEdge(ms[k], t, h) {
        EdgeStaysInside(ms[k], t, h);
      }
    }
    assert ms[0] in ms;
  }

  // ── What a line means ────────────────────────────────────────

  lemma {:induction false} JobsOfLine(ms: seq<Delayable>, j: Delayable)
    requires ms != []
    ensures j in AllJobs(Line(ms)) <==> exists i :: 0 <= i < |ms| && j in Jobs(ms[i])
  {
    if |ms| > 1 {
      var rest := ms[1..];
      JobsOfLine(rest, j);
      assert Line(ms).next == [Line(rest)];
      assert AllJobs(Line(ms)) == Jobs(ms[0]) + AllJobs(Line(rest));
      if i :| 0 <= i < |rest| && j in Jobs(rest[i]) {
        assert rest[i] == ms[i + 1];
      }
      if i :| 0 < i < |ms| && j in Jobs(ms[i]) {
        assert rest[i - 1] == ms[i];
      }
    }
  }

  /** Members handed on to each other mean what the chain of them means, whatever their shape. */
  lemma {:induction false} LineMeansTheChain(ms: seq<Delayable>, id: nat, x: Delayable, y: Delayable)
    requires ms != []
    ensures PlanMeans(Line(ms), x, y) <==> Before(Chain(id, ms), x, y)
  {
    if |ms| > 1 {
      var rest := ms[1..];
      LineMeansTheChain(rest, id, x, y);
      JobsOfLine(rest, y);
      hide AllJobs, PlanMeans;
      LineMeansFromRest(ms, x, y);
      ChainMeansFromRest(ms, id, x, y);
    } else {
      assert forall m | m in ms :: m == ms[0];
    }
  }

  lemma LineMeansFromRest(ms: seq<Delayable>, x: Delayable, y: Delayable)
    requires |ms| > 1
    ensures PlanMeans(Line(ms), x, y) <==>
      Before(ms[0], x, y) || (x in Jobs(ms[0]) && y in AllJobs(Line(ms[1..]))) || PlanMeans(Line(ms[1..]), x, y)
  {
    var p := Line(ms);
    assert p.next == [Line(ms[1..])] && p.next[0] in p.next && forall n | n in p.next :: n == p.next[0];
  }

  lemma ChainMeansFromRest(ms: seq<Delayable>, id: nat, x: Delayable, y: Delayable)
    requires |ms| > 1
    ensures Before(Chain(id, ms), x, y) <==>
      || Before(ms[0], x, y)
      || (x in Jobs(ms[0]) && exists i :: 0 <= i < |ms[1..]| && y in Jobs(ms[1..][i]))
      || Before(Chain(id, ms[1..]), x, y)
  {
    assert ms[0] in ms && forall m | m in ms :: m == ms[0] || m in ms[1..];
    EarlierFromRest(ms, x, y);
    hide EarlierMember, Jobs;
  }

  lemma EarlierFromRest(ms: seq<Delayable>, x: Delayable, y: Delayable)
    requires |ms| > 1
    ensures EarlierMember(ms, x, y) <==>
      || (x in Jobs(ms[0]) && exists i :: 0 <= i < |ms[1..]| && y in Jobs(ms[1..][i]))
      || EarlierMember(ms[1..], x, y)
  {
    hide Jobs;
    var rest := ms[1..];
    assert forall i | 0 <= i < |rest| :: rest[i] == ms[i + 1];
    if EarlierMember(ms, x, y) {
      var i, j :| 0 <= i < j < |ms| && x in Jobs(ms[i]) && y in Jobs(ms[j]);
      assert y in Jobs(rest[j - 1]);
      if i > 0 {
        assert x in Jobs(rest[i - 1]);
      }
    }
    if EarlierMember(rest, x, y) {
      var i, j :| 0 <= i < j < |rest| && x in Jobs(rest[i]) && y in Jobs(rest[j]);
      assert x in Jobs(ms[i + 1]) && y in Jobs(ms[j + 1]);
    }
    if x in Jobs(ms[0]) && exists i :: 0 <= i < |rest| && y in Jobs(rest[i]) {
      var i :| 0 <= i < |rest| && y in Jobs(rest[i]);
      assert x in Jobs(ms[0]) && y in Jobs(ms[i + 1]);
    }
  }

  // ── Against the chain ────────────────────────────────────────

  lemma HandedOnAsJoined(ms: seq<Delayable>, t: Delayable, h: Delayable)
    requires AllWaitForTails(ms)
    ensures HandedOn(ms, t, h) <==> Joined(ms, t, h)
  {
    hide Head, Tail, ExitTails;
    if HandedOn(ms, t, h) {
      var i :| 0 <= i < |ms| - 1 && HandsTo(ms[i], ms[i + 1], t, h);
      assert WaitsForTail(ms, i);
      assert t in Tail(ms[i]) && h in Head(ms[i + 1]);
    }
    if Joined(ms, t, h) {
      var i :| 0 <= i < |ms| - 1 && t in Tail(ms[i]) && h in Head(ms[i + 1]);
      assert WaitsForTail(ms, i);
      assert HandsTo(ms[i], ms[i + 1], t, h);
    }
  }

  /** Over distinct jobs a handover between two jobs of neighbours is the handover there. */
  lemma HandedOnAt(ms: seq<Delayable>, i: nat, t: Delayable, h: Delayable)
    requires DisjointMembers(ms) && i < |ms| - 1 && t in Jobs(ms[i]) && HandedOn(ms, t, h)
    ensures t in ExitTails(ms[i]) && h in Head(ms[i + 1])
  {
    var k :| 0 <= k < |ms| - 1 && HandsTo(ms[k], ms[k + 1], t, h);
    HandoverStaysInside(ms[k], ms[k + 1], t, h);
    assert k == i;
  }

  lemma SameEdgesWaitForTails(d: Delayable, i: nat)
    requires d.Chain? && DistinctJobs(d) && NothingDropped(d.members) && i < |d.members| - 1
    requires forall t, h :: PlanEdge(Line(d.members), t, h) <==> TermEdge(d, t, h)
    ensures WaitsForTail(d.members, i)
  {
    var ms := d.members;
    if Head(ms[i + 1]) != {} {
      var h :| h in Head(ms[i + 1]);
      HeadAndTailAreJobs(ms[i + 1]);
      HeadAndTailAreJobs(ms[i]);
      forall t
        ensures t in ExitTails(ms[i]) <==> t in Tail(ms[i])
      {
        LineEdges(ms, t, h);
        if t in ExitTails(ms[i]) {
          ExitTailsAreJobs(ms[i], t);
          assert HandsTo(ms[i], ms[i + 1], t, h);
          EdgeAcross(d, i, i + 1, t, h);
        }
        if t in Tail(ms[i]) {
          assert Joined(ms, t, h);
          NoMemberEdgeAcross(ms, i, t, h);
          HandedOnAt(ms, i, t, h);
        }
      }
    }
  }

  lemma NoMemberEdgeAcross(ms: seq<Delayable>, i: nat, t: Delayable, h: Delayable)
    requires DisjointMembers(ms) && i < |ms| - 1 && t in Jobs(ms[i]) && h in Jobs(ms[i + 1])
    ensures !InsideOne(ms, t, h)
  {
    if m :| m in ms && TermEdge(m, t, h) {
      TermEdgeIsBefore(m, t, h);
      OrderedInsideOneMember(ms, i, i + 1, t, h);
    }
  }

  lemma JobsOfChain(d: Delayable, j: Delayable)
    requires d.Chain?
    ensures j in Jobs(d) <==> exists m :: m in d.members && j in Jobs(m)
  {
  }

  lemma AllJobsMeansNothingDropped(d: Delayable)
    requires d.Chain? && d.members != [] && DistinctJobs(d) && Jobs(Nest(Line(d.members))) == Jobs(d)
    ensures NothingDropped(d.members)
  {
    var ms := d.members;
    forall i, k | 0 <= i < k < |ms| && Exits(ms[i]) == {}
      ensures Jobs(ms[k]) == {}
    {
      assert Jobs(ms[k]) <= Jobs(d) by {
        assert ms[k] in ms;
      }
      forall j
        ensures j !in Jobs(ms[k])
      {
        if j in Jobs(ms[k]) {
          LineIsCut(ms, i, k, j);
        }
      }
    }
  }

  // ── Main result ──────────────────────────────────────────────

  /** Over distinct jobs, members handed on to each other by on_done flatten to the graph of
      the chain of them if and only if nothing with a job follows an empty group, and each
      member on_done hands something over from shows as its tail what on_done waits for. */
  lemma OnDoneActsAsChainExactlyWhen(web: Web, next: Successors, d: Delayable, owners: set<Delayable>,
      g: Links<Delayable>)
    requires d.Chain? && d.members != [] && DistinctJobs(d)
    requires
      var p := Line(d.members);
      Linked(web, next, Parts(p)) && Carries(next, p) && Within(web, p.term, owners) && IsUnionOf(g, web, owners)
    ensures g == TermLinks(d) <==> NothingDropped(d.members) && AllWaitForTails(d.members)
  {
    var ms := d.members;
    PlanFlattens(web, next, Line(ms), owners, g);
    hide Line, Nest, Parts, Linked, Carries, Within, IsUnionOf, NothingDropped, AllWaitForTails, PlanEdge, TermEdge,
        Jobs, DistinctJobs;
    if NothingDropped(ms) && AllWaitForTails(ms) {
      LineIsTheChain(d, g);
    }
    if g == TermLinks(d) {
      SameGraphSameEdges(d, g);
      hide TermLinks;
      AllJobsMeansNothingDropped(d);
      SameEdgesMeanTails(d);
    }
  }

  lemma SameGraphSameEdges(d: Delayable, g: Links<Delayable>)
    requires d.Chain? && d.members != [] && g == TermLinks(d)
    requires g.Keys == Jobs(Nest(Line(d.members))) && forall t, h :: Edge(g, t, h) <==> PlanEdge(Line(d.members), t, h)
    ensures Jobs(Nest(Line(d.members))) == Jobs(d)
    ensures forall t, h :: PlanEdge(Line(d.members), t, h) <==> TermEdge(d, t, h)
  {
    hide Line, Nest, PlanEdge, TermEdge, Jobs;
    forall t, h
      ensures PlanEdge(Line(d.members), t, h) <==> TermEdge(d, t, h)
    {
      EdgesOfTermLinks(d, t, h);
      assert Edge(g, t, h) <==> PlanEdge(Line(d.members), t, h);
    }
  }

  lemma SameEdgesMeanTails(d: Delayable)
    requires d.Chain? && DistinctJobs(d) && d.members != [] && NothingDropped(d.members)
    requires forall t, h :: PlanEdge(Line(d.members), t, h) <==> TermEdge(d, t, h)
    ensures AllWaitForTails(d.members)
  {
    forall i | 0 <= i < |d.members| - 1
      ensures WaitsForTail(d.members, i)
    {
      SameEdgesWaitForTails(d, i);
    }
  }

  lemma LineIsTheChain(d: Delayable, g: Links<Delayable>)
    requires d.Chain? && d.members != [] && NothingDropped(d.members) && AllWaitForTails(d.members)
    requires g.Keys == Jobs(Nest(Line(d.members)))
    requires forall t, h :: Edge(g, t, h) <==> PlanEdge(Line(d.members), t, h)
    ensures g == TermLinks(d)
  {
    var ms := d.members;
    forall j
      ensures j in Jobs(Nest(Line(ms))) <==> j in Jobs(d)
    {
      LineHasAllJobs(ms, j);
      JobsOfChain(d, j);
    }
    assert g.Keys == Jobs(d);
    forall t, h
      ensures Edge(g, t, h) <==> TermEdge(d, t, h)
    {
      LineEdges(ms, t, h);
      HandedOnAsJoined(ms, t, h);
    }
    SameEdgesSameTerm(g, d);
  }

  /** So for jobs and groups that are not empty, whatever is inside the groups, the documented
      sentence always holds. */
  lemma JobsAndGroupsAlwaysDo(ms: seq<Delayable>)
    requires forall m | m in ms :: m.Job? || (m.Group? && m.members != [])
    ensures NothingDropped(ms) && AllWaitForTails(ms)
  {
    forall i | 0 <= i < |ms|
      ensures Exits(ms[i]) != {} && ExitTails(ms[i]) == Tail(ms[i])
    {
      OnlyChainsShowAnotherTail(ms[i]);
      assert ms[i] in ms;
      if ms[i].Group? {
        assert ms[i].members[0] in Exits(ms[i]);
      } else {
        assert ms[i] in Exits(ms[i]);
      }
    }
  }

  /** x.on_done(chain(a, group(chain(b, c))).on_done(y)) against chain(x, chain(a, ...), y):
      with on_done y waits for c, in the chain it waits for b alone. */
  lemma ChainInTheMiddleDiffers(x: Delayable, a: Delayable, b: Delayable, c: Delayable, y: Delayable, mid: Delayable)
    requires x.Job? && a.Job? && b.Job? && c.Job? && y.Job? && Distinct([x, a, b, c, y])
    requires mid == Chain(11, [a, Group(12, [Chain(13, [b, c])])])
    ensures PlanEdge(Line([x, mid, y]), c, y) && !TermEdge(Chain(20, [x, mid, y]), c, y)
    ensures NothingDropped([x, mid, y]) && !AllWaitForTails([x, mid, y])
  {
    var ms, group, bc := [x, mid, y], Group(12, [Chain(13, [b, c])]), Chain(13, [b, c]);
    MidShowsAnotherTail(a, b, c, mid);
    var jobs := [x, a, b, c, y];
    assert jobs[0] != jobs[3] && jobs[1] != jobs[4] && jobs[2] != jobs[3] && jobs[2] != jobs[4] && jobs[3] != jobs[4];
    assert x in Exits(x) && group in Exits(mid);
    hide Tail, Exits, ExitTails, PlanEdge, TermEdge, Jobs;
    assert NothingDropped(ms);
    LineEdges(ms, c, y);
    assert Head(y) == {y} && HandsTo(ms[1], ms[2], c, y);
    assert !WaitsForTail(ms, 1);
    NotInTheChain(x, y, mid, c, Chain(20, ms));
  }

  lemma GroupedPair(b: Delayable, c: Delayable, group: Delayable)
    requires b.Job? && c.Job? && group == Group(12, [Chain(13, [b, c])])
    ensures Head(group) == {b} && Tail(group) == {c} && Jobs(group) == {b, c}
  {
    var bc := Chain(13, [b, c]);
    ChainOfTwoJobs(bc, b, c);
    assert Head(bc) == {b} && Tail(bc) == {c} && Jobs(bc) == {b, c};
    hide Before, DistinctJobs;
    GroupOfOne(group, bc);
  }

  lemma ExitsOfChainOfTwo(d: Delayable, m: Delayable, n: Delayable)
    requires d.Chain? && d.members == [m, n]
    ensures Exits(d) == {n} && ExitTails(d) == Tail(n)
  {
    hide Tail;
    assert Exits(d) == {n};
  }

  lemma MidShowsAnotherTail(a: Delayable, b: Delayable, c: Delayable, mid: Delayable)
    requires a.Job? && b.Job? && c.Job?
    requires mid == Chain(11, [a, Group(12, [Chain(13, [b, c])])])
    ensures Tail(mid) == {b} && ExitTails(mid) == {c} && Jobs(mid) == {a, b, c}
  {
    var group := Group(12, [Chain(13, [b, c])]);
    GroupedPair(b, c, group);
    assert Jobs(a) == {a};
    hide Head, Tail, Jobs, Exits, ExitTails;
    ChainOfTwoJobs(mid, a, group);
    ExitsOfChainOfTwo(mid, a, group);
  }

  lemma NotInTheChain(x: Delayable, y: Delayable, mid: Delayable, c: Delayable, d: Delayable)
    requires d.Chain? && d.members == [x, mid, y] && x.Job? && y.Job?
    requires c !in Tail(mid) && c != x && y !in Jobs(mid)
    ensures !TermEdge(d, c, y)
  {
    var ms := d.members;
    assert forall m | m in ms :: m == x || m == mid || m == y;
    if TermEdge(mid, c, y) {
      EdgeStaysInside(mid, c, y);
    }
    forall i | 0 <= i < |ms| - 1
      ensures !(c in Tail(ms[i]) && y in Head(ms[i + 1]))
    {
    }
  }
}
