/** What the flat graph of a chain/group term says about the order of its jobs: always
    something the term means, and all of what the term means exactly when every seam between
    two chain members is joined at jobs that really come last and first. */
module Preservation {
  import opened Basics
  import opened Graphs
  import opened Delayables

  /** The edges the members' own graphs contribute: each chain member's tail to the next
      member's head, at every level of the term. */
  ghost predicate TermEdge(d: Delayable, x: Delayable, y: Delayable) {
    match d
    case Job(_) => false
    case Chain(_, ms) => (exists m :: m in ms && TermEdge(m, x, y)) || Joined(ms, x, y)
    case Group(_, ms) => exists m :: m in ms && TermEdge(m, x, y)
  }

  ghost predicate Joined(ms: seq<Delayable>, x: Delayable, y: Delayable) {
    exists i :: 0 <= i < |ms| - 1 && x in Tail(ms[i]) && y in Head(ms[i + 1])
  }

  /** The flat graph of a term. */
  ghost function TermLinks(d: Delayable): Links<Delayable> {
    map x | x in Jobs(d) :: set y | y in Jobs(d) && TermEdge(d, x, y)
  }

  // ── Soundness ────────────────────────────────────────────────

  lemma {:induction false} TermEdgeIsBefore(d: Delayable, x: Delayable, y: Delayable)
    requires TermEdge(d, x, y)
    ensures Before(d, x, y)
  {
    if exists m :: m in d.members && TermEdge(m, x, y) {
      var m :| m in d.members && TermEdge(m, x, y);
      TermEdgeIsBefore(m, x, y);
    } else {
      var i :| 0 <= i < |d.members| - 1 && x in Tail(d.members[i]) && y in Head(d.members[i + 1]);
      HeadAndTailAreJobs(d.members[i]);
      HeadAndTailAreJobs(d.members[i + 1]);
      assert EarlierMember(d.members, x, y);
    }
  }

  lemma EdgesOfTermLinks(d: Delayable, x: Delayable, y: Delayable)
    ensures Edge(TermLinks(d), x, y) <==> TermEdge(d, x, y)
  {
    if TermEdge(d, x, y) {
      TermEdgeIsBefore(d, x, y);
      BeforeRelatesJobs(d, x, y);
    }
  }

  /** Nothing is ordered that the term does not order. */
  lemma {:induction false} ReachedIsBefore(d: Delayable, p: seq<Delayable>, x: Delayable, y: Delayable)
    requires DistinctJobs(d) && WalkFromTo(TermLinks(d), p, x, y)
    ensures Before(d, x, y)
    decreases |p|
  {
    var g := TermLinks(d);
    FirstStep(g, p, x, y);
    EdgesOfTermLinks(d, x, p[1]);
    TermEdgeIsBefore(d, x, p[1]);
    if |p| > 2 {
      ReachedIsBefore(d, p[1..], p[1], y);
      BeforeIsStrictOrder(d, x, p[1], y);
    }
  }

  /** Soundness and acyclicity, for every chain/group term over distinct jobs. */
  lemma TermGraphIsSound(d: Delayable)
    requires DistinctJobs(d)
    ensures forall x, y | Reaches(TermLinks(d), x, y) :: Before(d, x, y)
    ensures Acyclic(TermLinks(d)) && Closed(TermLinks(d))
  {
    forall x, y | Reaches(TermLinks(d), x, y)
      ensures Before(d, x, y)
    {
      var p :| WalkFromTo(TermLinks(d), p, x, y);
      ReachedIsBefore(d, p, x, y);
    }
    forall x
      ensures !Reaches(TermLinks(d), x, x)
    {
      BeforeIsStrictOrder(d, x, x, x);
    }
  }

  // ── When the seams of the chains hold ────────────────────────

  /** Every job of d is in its tail or ordered before a job of its tail. */
  ghost predicate TailComesLast(d: Delayable) {
    forall x | x in Jobs(d) :: x in Tail(d) || exists t :: t in Tail(d) && Before(d, x, t)
  }

  /** Every job of d is in its head or ordered after a job of its head. */
  ghost predicate HeadComesFirst(d: Delayable) {
    forall y | y in Jobs(d) :: y in Head(d) || exists h :: h in Head(d) && Before(d, h, y)
  }

  /** Does any of the members hold a job? */
  ghost predicate AnyJob(ms: seq<Delayable>) {
    exists m :: m in ms && Jobs(m) != {}
  }

  /** The place between members i and i + 1 of a chain, when there are jobs to keep apart on
      both sides of it: neither neighbour may be empty of jobs, the left one must end at its
      tail and the right one must begin at its head. */
  ghost predicate SeamHolds(ms: seq<Delayable>, i: int)
    requires 0 <= i < |ms| - 1
  {
    AnyJob(ms[..i + 1]) && AnyJob(ms[i + 1..]) ==>
      && Jobs(ms[i]) != {} && TailComesLast(ms[i])
      && Jobs(ms[i + 1]) != {} && HeadComesFirst(ms[i + 1])
  }

  ghost predicate SeamsHold(d: Delayable) {
    match d
    case Job(_) => true
    case Chain(_, ms) => (forall m | m in ms :: SeamsHold(m)) && forall i | 0 <= i < |ms| - 1 :: SeamHolds(ms, i)
    case Group(_, ms) => forall m | m in ms :: SeamsHold(m)
  }

  /** Whatever the term orders, the flat graph orders. */
  ghost predicate Complete(d: Delayable) {
    forall x, y | Before(d, x, y) :: Reaches(TermLinks(d), x, y)
  }

  lemma MemberEdgesAreEdges(d: Delayable, m: Delayable, x: Delayable, y: Delayable)
    requires !d.Job? && m in d.members && Reaches(TermLinks(m), x, y)
    ensures Reaches(TermLinks(d), x, y)
  {
    forall u, v | Edge(TermLinks(m), u, v)
      ensures Edge(TermLinks(d), u, v)
    {
      EdgesOfTermLinks(m, u, v);
      EdgesOfTermLinks(d, u, v);
    }
    MoreEdgesReachMore(TermLinks(m), TermLinks(d), x, y);
  }

  // ── Enough ───────────────────────────────────────────────────

  /** Across one seam that holds, every job on the left reaches every job on the right. */
  lemma SeamCarriesOver(d: Delayable, i: nat, x: Delayable, y: Delayable)
    requires d.Chain? && i < |d.members| - 1
    requires x in Jobs(d.members[i]) && y in Jobs(d.members[i + 1])
    requires SeamHolds(d.members, i) && Complete(d.members[i]) && Complete(d.members[i + 1])
    ensures Reaches(TermLinks(d), x, y)
  {
    var ms := d.members;
    var left, right := ms[i], ms[i + 1];
    assert left in ms[..i + 1] by { assert ms[..i + 1][i] == left; }
    assert right in ms[i + 1..] by { assert ms[i + 1..][0] == right; }
    var t := x;
    if x !in Tail(left) {
      t :| t in Tail(left) && Before(left, x, t);
      MemberEdgesAreEdges(d, left, x, t);
    }
    var h := y;
    if y !in Head(right) {
      h :| h in Head(right) && Before(right, h, y);
      MemberEdgesAreEdges(d, right, h, y);
    }
    assert Joined(ms, t, h);
    EdgesOfTermLinks(d, t, h);
    StepThenReaches(TermLinks(d), t, h, y);
    if x != t {
      ReachesTransitive(TermLinks(d), x, t, y);
    }
  }

  lemma {:induction false} SeamsCarryOver(d: Delayable, i: nat, j: nat, x: Delayable, y: Delayable)
    requires d.Chain? && i < j < |d.members|
    requires x in Jobs(d.members[i]) && y in Jobs(d.members[j])
    requires SeamsHold(d) && forall m | m in d.members :: Complete(m)
    ensures Reaches(TermLinks(d), x, y)
    decreases j - i
  {
    var ms := d.members;
    if j == i + 1 {
      SeamCarriesOver(d, i, x, y);
    } else {
      assert ms[i] in ms[..i + 1] by { assert ms[..i + 1][i] == ms[i]; }
      assert ms[j] in ms[i + 1..] by { assert ms[i + 1..][j - i - 1] == ms[j]; }
      assert SeamHolds(ms, i);
      var z :| z in Jobs(ms[i + 1]);
      SeamCarriesOver(d, i, x, z);
      SeamsCarryOver(d, i + 1, j, z, y);
      ReachesTransitive(TermLinks(d), x, z, y);
    }
  }

  lemma {:induction false} SeamsSuffice(d: Delayable)
    requires SeamsHold(d)
    ensures Complete(d)
  {
    if !d.Job? {
      forall m | m in d.members
        ensures Complete(m)
      {
        SeamsSuffice(m);
      }
      forall x, y | Before(d, x, y)
        ensures Reaches(TermLinks(d), x, y)
      {
        if exists m :: m in d.members && Before(m, x, y) {
          var m :| m in d.members && Before(m, x, y);
          MemberEdgesAreEdges(d, m, x, y);
        } else {
          var i, j :| 0 <= i < j < |d.members| && x in Jobs(d.members[i]) && y in Jobs(d.members[j]);
          SeamsCarryOver(d, i, j, x, y);
        }
      }
    }
  }

  // ── Needed ───────────────────────────────────────────────────

  lemma JoinedIsNextMember(ms: seq<Delayable>, a: nat, c: nat, x: Delayable, z: Delayable)
    requires DisjointMembers(ms) && a < |ms| && c < |ms|
    requires x in Jobs(ms[a]) && z in Jobs(ms[c]) && Joined(ms, x, z)
    ensures c == a + 1 && x in Tail(ms[a]) && z in Head(ms[c])
  {
    var k :| 0 <= k < |ms| - 1 && x in Tail(ms[k]) && z in Head(ms[k + 1]);
    HeadAndTailAreJobs(ms[k]);
    HeadAndTailAreJobs(ms[k + 1]);
  }

  /** An edge between two jobs of one member is that member's own. */
  lemma EdgeWithinMember(d: Delayable, i: nat, x: Delayable, y: Delayable)
    requires !d.Job? && i < |d.members| && DistinctJobs(d) && TermEdge(d, x, y)
    requires x in Jobs(d.members[i]) && y in Jobs(d.members[i])
    ensures TermEdge(d.members[i], x, y)
  {
    if exists m :: m in d.members && TermEdge(m, x, y) {
      var m :| m in d.members && TermEdge(m, x, y);
      TermEdgeIsBefore(m, x, y);
      BeforeRelatesJobs(m, x, y);
      var k :| 0 <= k < |d.members| && d.members[k] == m;
      assert k == i;
    } else {
      JoinedIsNextMember(d.members, i, i, x, y);
      assert false;
    }
  }

  /** A walk between two jobs of one member never leaves it. */
  lemma {:induction false} WalkStaysInMember(d: Delayable, i: nat, p: seq<Delayable>, x: Delayable, y: Delayable)
    requires !d.Job? && i < |d.members| && DistinctJobs(d)
    requires x in Jobs(d.members[i]) && y in Jobs(d.members[i])
    requires WalkFromTo(TermLinks(d), p, x, y)
    ensures Reaches(TermLinks(d.members[i]), x, y)
    decreases |p|
  {
    var g, m := TermLinks(d), d.members[i];
    FirstStep(g, p, x, y);
    var z := p[1];
    EdgesOfTermLinks(d, x, z);
    TermEdgeIsBefore(d, x, z);
    BeforeRelatesJobs(d, x, z);
    if |p| > 2 {
      ReachedIsBefore(d, p[1..], z, y);
    }
    var k := MemberOf(d.members, z);
    if k != i {
      BeforeAcrossMembers(d, i, k, x, z);
      BeforeAcrossMembers(d, k, i, z, y);
      assert false;
    }
    EdgeWithinMember(d, i, x, z);
    EdgesOfTermLinks(m, x, z);
    if |p| > 2 {
      WalkStaysInMember(d, i, p[1..], z, y);
    }
    StepThenReaches(TermLinks(m), x, z, y);
  }

  /** Completeness of a term is inherited by its members. */
  lemma CompleteMembers(d: Delayable, i: nat)
    requires !d.Job? && i < |d.members| && DistinctJobs(d) && Complete(d)
    ensures Complete(d.members[i])
  {
    var m := d.members[i];
    forall x, y | Before(m, x, y)
      ensures Reaches(TermLinks(m), x, y)
    {
      BeforeRelatesJobs(m, x, y);
      BeforeWithinMember(d, i, x, y);
      var p :| WalkFromTo(TermLinks(d), p, x, y);
      WalkStaysInMember(d, i, p, x, y);
    }
  }

  lemma MemberAfterHop(d: Delayable, x: Delayable, z: Delayable) returns (c: nat)
    requires !d.Job? && Edge(TermLinks(d), x, z)
    ensures TermEdge(d, x, z) && c < |d.members| && z in Jobs(d.members[c])
  {
    EdgesOfTermLinks(d, x, z);
    TermEdgeIsBefore(d, x, z);
    BeforeRelatesJobs(d, x, z);
    c := MemberOf(d.members, z);
  }

  lemma OneHome(d: Delayable, a: nat, b: nat, x: Delayable)
    requires !d.Job? && DistinctJobs(d) && a < |d.members| && b < |d.members|
    requires x in Jobs(d.members[a]) && x in Jobs(d.members[b])
    ensures a == b
  {
  }

  /** A walk from the left of a seam to its right crosses from the tail of the member just
      before it to the head of the member just after it. */
  lemma {:induction false} WalkCrossesSeam(d: Delayable, i: nat, a: nat, b: nat, p: seq<Delayable>, x: Delayable,
      y: Delayable)
    returns (t: Delayable, h: Delayable)
    requires d.Chain? && DistinctJobs(d) && a <= i < b < |d.members|
    requires x in Jobs(d.members[a]) && y in Jobs(d.members[b])
    requires WalkFromTo(TermLinks(d), p, x, y)
    ensures t in Tail(d.members[i]) && h in Head(d.members[i + 1])
    ensures ReachesOrIs(TermLinks(d), x, t) && ReachesOrIs(TermLinks(d), h, y)
    decreases |p|
  {
    var g := TermLinks(d);
    hide TermLinks, TermEdge, DistinctJobs, Jobs, Head, Tail;
    if x == y {
      OneHome(d, a, b, x);
    }
    FirstStep(g, p, x, y);
    var z := p[1];
    var c := MemberAfterHop(d, x, z);
    if c <= i {
      if z == y {
        OneHome(d, c, b, z);
      }
      t, h := WalkCrossesSeam(d, i, c, b, p[1..], z, y);
      StepThenReaches(g, x, z, t);
    } else {
      EdgeAcross(d, a, c, x, z);
      t, h := x, z;
    }
  }

  /** An edge between two members goes from one to the next, tail to head. */
  lemma EdgeAcross(d: Delayable, a: nat, c: nat, x: Delayable, z: Delayable)
    requires d.Chain? && DistinctJobs(d) && a < |d.members| && c < |d.members| && a != c
    requires x in Jobs(d.members[a]) && z in Jobs(d.members[c]) && TermEdge(d, x, z)
    ensures c == a + 1 && x in Tail(d.members[a]) && z in Head(d.members[c])
  {
    var ms := d.members;
    if exists m :: m in ms && TermEdge(m, x, z) {
      var m :| m in ms && TermEdge(m, x, z);
      TermEdgeIsBefore(m, x, z);
      OrderedInsideOneMember(ms, a, c, x, z);
      assert false;
    }
    JoinedIsNextMember(ms, a, c, x, z);
  }

  /** A complete chain holds at every seam. */
  lemma CompleteChainHoldsAt(d: Delayable, i: nat)
    requires d.Chain? && DistinctJobs(d) && Complete(d) && i < |d.members| - 1
    ensures SeamHolds(d.members, i)
  {
    var ms := d.members;
    if AnyJob(ms[..i + 1]) && AnyJob(ms[i + 1..]) {
      var ma :| ma in ms[..i + 1] && Jobs(ma) != {};
      var mb :| mb in ms[i + 1..] && Jobs(mb) != {};
      var a :| 0 <= a < i + 1 && ms[a] == ma;
      var b' :| 0 <= b' < |ms[i + 1..]| && ms[i + 1..][b'] == mb;
      var b := i + 1 + b';
      var x0 :| x0 in Jobs(ma);
      var y0 :| y0 in Jobs(mb);
      var left, right := ms[i], ms[i + 1];
      var t0, h0 := CompleteCrossing(d, i, a, b, x0, y0);
      HeadAndTailAreJobs(left);
      HeadAndTailAreJobs(right);
      TermGraphIsSound(d);
      forall x | x in Jobs(left)
        ensures x in Tail(left) || exists t :: t in Tail(left) && Before(left, x, t)
      {
        var t, h := CompleteCrossing(d, i, i, i + 1, x, h0);
        if x != t {
          BeforeWithinMember(d, i, x, t);
        }
      }
      forall y | y in Jobs(right)
        ensures y in Head(right) || exists h :: h in Head(right) && Before(right, h, y)
      {
        var t, h := CompleteCrossing(d, i, i, i + 1, t0, y);
        if y != h {
          BeforeWithinMember(d, i + 1, h, y);
        }
      }
    }
  }

  lemma CompleteCrossing(d: Delayable, i: nat, a: nat, b: nat, x: Delayable, y: Delayable)
    returns (t: Delayable, h: Delayable)
    requires d.Chain? && DistinctJobs(d) && Complete(d) && a <= i < b < |d.members|
    requires x in Jobs(d.members[a]) && y in Jobs(d.members[b])
    ensures t in Tail(d.members[i]) && h in Head(d.members[i + 1])
    ensures ReachesOrIs(TermLinks(d), x, t) && ReachesOrIs(TermLinks(d), h, y)
  {
    BeforeAcrossMembers(d, a, b, x, y);
    var p :| WalkFromTo(TermLinks(d), p, x, y);
    t, h := WalkCrossesSeam(d, i, a, b, p, x, y);
  }

  lemma {:induction false} SeamsAreNeeded(d: Delayable)
    requires DistinctJobs(d) && Complete(d)
    ensures SeamsHold(d)
  {
    if !d.Job? {
      forall m | m in d.members
        ensures SeamsHold(m)
      {
        var i :| 0 <= i < |d.members| && d.members[i] == m;
        CompleteMembers(d, i);
        SeamsAreNeeded(m);
      }
      if d.Chain? {
        forall i | 0 <= i < |d.members| - 1
          ensures SeamHolds(d.members, i)
        {
          CompleteChainHoldsAt(d, i);
        }
      }
    }
  }

  /** The flat graph orders two jobs exactly when the term does, for the terms whose seams
      hold and for no others. */
  lemma GraphMeansTermExactlyWhenSeamsHold(d: Delayable)
    requires DistinctJobs(d)
    ensures (forall x, y :: Reaches(TermLinks(d), x, y) <==> Before(d, x, y)) <==> SeamsHold(d)
  {
    TermGraphIsSound(d);
    if SeamsHold(d) {
      SeamsSuffice(d);
    }
    if forall x, y :: Reaches(TermLinks(d), x, y) <==> Before(d, x, y) {
      SeamsAreNeeded(d);
    }
  }

  // ── A shape that is always right, and one that is not ────────

  /** A job, or a group of nothing but jobs. */
  ghost predicate JobOrJobs(d: Delayable) {
    d.Job? || (d.Group? && forall m | m in d.members :: m.Job?)
  }

  /** No group and no chain is empty, and every chain inside another composite begins and
      ends with a job or a group of jobs. */
  ghost predicate PlainEnds(d: Delayable, nested: bool) {
    match d
    case Job(_) => true
    case Chain(_, ms) =>
      && ms != []
      && (nested ==> JobOrJobs(ms[0]) && JobOrJobs(ms[|ms| - 1]))
      && forall m | m in ms :: PlainEnds(m, true)
    case Group(_, ms) => ms != [] && forall m | m in ms :: PlainEnds(m, true)
  }

  lemma {:induction false} JobOrJobsShowsAll(d: Delayable)
    requires JobOrJobs(d)
    ensures Head(d) == Jobs(d) == Tail(d)
  {
    if d.Group? {
      assert forall m | m in d.members :: Head(m) == Jobs(m) == Tail(m) == {m};
    }
  }

  lemma {:induction false} NestedPlainEnds(d: Delayable)
    requires PlainEnds(d, true)
    ensures Jobs(d) != {} && TailComesLast(d) && HeadComesFirst(d)
  {
    if !d.Job? {
      var ms := d.members;
      forall m | m in ms
        ensures Jobs(m) != {} && TailComesLast(m) && HeadComesFirst(m)
      {
        NestedPlainEnds(m);
      }
      assert ms[0] in ms;
      var j :| j in Jobs(ms[0]);
      assert j in Jobs(d);
      if d.Chain? {
        NestedPlainChain(d);
      } else {
        NestedPlainGroup(d);
      }
    }
  }

  lemma NestedPlainGroup(d: Delayable)
    requires d.Group? && forall m | m in d.members :: TailComesLast(m) && HeadComesFirst(m)
    ensures TailComesLast(d) && HeadComesFirst(d)
  {
    forall x | x in Jobs(d)
      ensures x in Tail(d) || exists t :: t in Tail(d) && Before(d, x, t)
      ensures x in Head(d) || exists h :: h in Head(d) && Before(d, h, x)
    {
      var m :| m in d.members && x in Jobs(m);
      if x !in Tail(m) {
        var t :| t in Tail(m) && Before(m, x, t);
        assert t in Tail(d) && Before(d, x, t);
      }
      if x !in Head(m) {
        var h :| h in Head(m) && Before(m, h, x);
        assert h in Head(d) && Before(d, h, x);
      }
    }
  }

  lemma {:induction false} NestedPlainChain(d: Delayable)
    requires d.Chain? && PlainEnds(d, true) && forall m | m in d.members :: Jobs(m) != {}
    ensures TailComesLast(d) && HeadComesFirst(d)
  {
    var ms := d.members;
    var n := |ms| - 1;
    JobOrJobsShowsAll(ms[0]);
    JobOrJobsShowsAll(ms[n]);
    assert ms[0] in ms && ms[n] in ms;
    var first :| first in Jobs(ms[0]);
    var last :| last in Jobs(ms[n]);
    forall x | x in Jobs(d)
      ensures x in Tail(d) || exists t :: t in Tail(d) && Before(d, x, t)
      ensures x in Head(d) || exists h :: h in Head(d) && Before(d, h, x)
    {
      var i := MemberOf(ms, x);
      if i < n {
        assert EarlierMember(ms, x, last);
        assert last in Tail(d) && Before(d, x, last);
      }
      if 0 < i {
        assert EarlierMember(ms, first, x);
        assert first in Head(d) && Before(d, first, x);
      }
    }
  }

  /** Completeness for the shape the documentation's own examples have. */
  lemma {:induction false} PlainEndsSuffice(d: Delayable, nested: bool)
    requires PlainEnds(d, nested)
    ensures SeamsHold(d)
  {
    if !d.Job? {
      forall m | m in d.members
        ensures SeamsHold(m)
      {
        PlainEndsSuffice(m, true);
      }
      if d.Chain? {
        forall i | 0 <= i < |d.members| - 1
          ensures SeamHolds(d.members, i)
        {
          NestedPlainEnds(d.members[i]);
          NestedPlainEnds(d.members[i + 1]);
        }
      }
    }
  }

  /** A chain of two members, spelled out. */
  lemma ChainOfTwoJobs(d: Delayable, m: Delayable, n: Delayable)
    requires d.Chain? && d.members == [m, n]
    ensures Jobs(d) == Jobs(m) + Jobs(n)
    ensures Head(d) == Tail(m) && Tail(d) == Head(n)
  {
    assert d.members[0] == m && d.members[1] == n;
    assert m in d.members && n in d.members;
    assert forall k | k in d.members :: k == m || k == n;
    forall j
      ensures j in Jobs(d) <==> j in Jobs(m) || j in Jobs(n)
    {
    }
  }

  lemma ChainOfTwoDistinct(d: Delayable, m: Delayable, n: Delayable)
    requires d.Chain? && d.members == [m, n]
    requires DistinctJobs(m) && DistinctJobs(n) && Jobs(m) !! Jobs(n)
    ensures DistinctJobs(d)
  {
    assert d.members[0] == m && d.members[1] == n;
    assert forall k | k in d.members :: k == m || k == n;
    assert DisjointMembers(d.members);
  }

  lemma ChainOfTwoEdges(d: Delayable, m: Delayable, n: Delayable, u: Delayable, v: Delayable)
    requires d.Chain? && d.members == [m, n]
    ensures TermEdge(d, u, v) ==> TermEdge(m, u, v) || TermEdge(n, u, v) || (u in Tail(m) && v in Head(n))
  {
    var ms := d.members;
    assert ms[0] == m && ms[1] == n;
    if TermEdge(d, u, v) && !Joined(ms, u, v) {
      var k :| k in ms && TermEdge(k, u, v);
      assert k == m || k == n;
    }
  }

  lemma ChainOfTwoOrder(d: Delayable, m: Delayable, n: Delayable, u: Delayable, v: Delayable)
    requires d.Chain? && d.members == [m, n] && u in Jobs(m) && v in Jobs(n)
    ensures Before(d, u, v)
  {
    assert u in Jobs(d.members[0]) && v in Jobs(d.members[1]);
    assert EarlierMember(d.members, u, v);
  }

  /** chain(x, chain(chain(a, b), c)): the first job of the inner chain does not wait for x. */
  lemma NestedChainLosesItsFirstJob(x: Delayable, a: Delayable, b: Delayable, c: Delayable, d: Delayable)
    requires x.Job? && a.Job? && b.Job? && c.Job? && Distinct([x, a, b, c])
    requires d == Chain(10, [x, Chain(11, [Chain(12, [a, b]), c])])
    ensures DistinctJobs(d) && Before(d, x, a) && !Reaches(TermLinks(d), x, a)
  {
    var jobs := [x, a, b, c];
    assert jobs[0] != jobs[1] && jobs[0] != jobs[2] && jobs[0] != jobs[3];
    assert jobs[1] != jobs[2] && jobs[1] != jobs[3] && jobs[2] != jobs[3];
    var ab := Chain(12, [a, b]);
    var inner := Chain(11, [ab, c]);
    ChainOfTwoJobs(ab, a, b);
    ChainOfTwoDistinct(ab, a, b);
    ChainOfTwoJobs(inner, ab, c);
    ChainOfTwoDistinct(inner, ab, c);
    ChainOfTwoDistinct(d, x, inner);
    ChainOfTwoOrder(d, x, inner, x, a);
    var reached := {x, b, c};
    forall u, v | u in reached && Edge(TermLinks(d), u, v)
      ensures v in reached
    {
      EdgesOfTermLinks(d, u, v);
      ChainOfTwoEdges(ab, a, b, u, v);
      ChainOfTwoEdges(inner, ab, c, u, v);
      ChainOfTwoEdges(d, x, inner, u, v);
    }
    if Reaches(TermLinks(d), x, a) {
      ClosedSetHoldsReached(TermLinks(d), reached, x, a);
    }
  }
}
