/** Jobs, chains and groups, the head and tail each of them shows to its neighbours, and the
    order a reader expects a chain/group term to mean. */
module Delayables {
  import opened Graphs

  /** A chain or a group is identified by the object it is, not by its members: id stands
      for that identity. The members never change after construction. chain() refuses an
      empty argument list, so an empty Chain is never built; it is given no job here. */
  datatype Delayable =
    | Job(id: nat)
    | Chain(id: nat, members: seq<Delayable>)
    | Group(id: nat, members: seq<Delayable>)

  /** _head of the three classes. A chain answers with its first member's tail. */
  function Head(d: Delayable): set<Delayable> {
    match d
    case Job(_) => {d}
    case Chain(_, ms) => if ms == [] then {} else Tail(ms[0])
    case Group(_, ms) => set m, h | m in ms && h in Head(m) :: h
  }

  /** _tail of the three classes. A chain answers with its last member's head. */
  function Tail(d: Delayable): set<Delayable> {
    match d
    case Job(_) => {d}
    case Chain(_, ms) => if ms == [] then {} else Head(ms[|ms| - 1])
    case Group(_, ms) => set m, t | m in ms && t in Tail(m) :: t
  }

  /** Every job inside a term. */
  function Jobs(d: Delayable): set<Delayable> {
    match d
    case Job(_) => {d}
    case Chain(_, ms) => set m, j | m in ms && j in Jobs(m) :: j
    case Group(_, ms) => set m, j | m in ms && j in Jobs(m) :: j
  }

  /** No job is used in two places. */
  ghost predicate DistinctJobs(d: Delayable) {
    match d
    case Job(_) => true
    case Chain(_, ms) => (forall m | m in ms :: DistinctJobs(m)) && DisjointMembers(ms)
    case Group(_, ms) => (forall m | m in ms :: DistinctJobs(m)) && DisjointMembers(ms)
  }

  ghost predicate DisjointMembers(ms: seq<Delayable>) {
    forall i, j | 0 <= i < j < |ms| :: Jobs(ms[i]) !! Jobs(ms[j])
  }

  /** The meaning of a term, stated without heads, tails or edges: in a chain, every job of
      an earlier member comes before every job of a later one. */
  ghost predicate Before(d: Delayable, x: Delayable, y: Delayable) {
    match d
    case Job(_) => false
    case Chain(_, ms) =>
      || (exists m :: m in ms && Before(m, x, y))
      || EarlierMember(ms, x, y)
    case Group(_, ms) => exists m :: m in ms && Before(m, x, y)
  }

  ghost predicate EarlierMember(ms: seq<Delayable>, x: Delayable, y: Delayable) {
    exists i, j :: 0 <= i < j < |ms| && x in Jobs(ms[i]) && y in Jobs(ms[j])
  }

  // ── First facts ──────────────────────────────────────────────

  lemma {:induction false} JobsAreJobs(d: Delayable)
    ensures forall j | j in Jobs(d) :: j.Job?
  {
    if !d.Job? {
      forall m | m in d.members {
        JobsAreJobs(m);
      }
    }
  }

  lemma {:induction false} HeadAndTailAreJobs(d: Delayable)
    ensures Head(d) <= Jobs(d) && Tail(d) <= Jobs(d)
  {
    if !d.Job? {
      forall m | m in d.members {
        HeadAndTailAreJobs(m);
      }
    }
  }

  lemma {:induction false} BeforeRelatesJobs(d: Delayable, x: Delayable, y: Delayable)
    requires Before(d, x, y)
    ensures x in Jobs(d) && y in Jobs(d)
  {
    if !d.Job? {
      forall m | m in d.members && Before(m, x, y) {
        BeforeRelatesJobs(m, x, y);
      }
    }
  }

  /** The member a job sits in, which is unique when no job is used twice. */
  lemma MemberOf(ms: seq<Delayable>, x: Delayable) returns (i: nat)
    requires exists m :: m in ms && x in Jobs(m)
    ensures i < |ms| && x in Jobs(ms[i])
    ensures DisjointMembers(ms) ==> forall k | 0 <= k < |ms| && x in Jobs(ms[k]) :: k == i
  {
    var m :| m in ms && x in Jobs(m);
    i :| 0 <= i < |ms| && ms[i] == m;
  }

  /** Two jobs of one member are ordered by that member alone. */
  lemma BeforeWithinMember(d: Delayable, i: nat, x: Delayable, y: Delayable)
    requires !d.Job? && i < |d.members| && DisjointMembers(d.members)
    requires x in Jobs(d.members[i]) && y in Jobs(d.members[i])
    ensures Before(d, x, y) <==> Before(d.members[i], x, y)
  {
    assert d.members[i] in d.members;
    if Before(d, x, y) {
      if exists m :: m in d.members && Before(m, x, y) {
        var m :| m in d.members && Before(m, x, y);
        BeforeRelatesJobs(m, x, y);
        var k :| 0 <= k < |d.members| && d.members[k] == m;
        assert k == i;
      }
    }
  }

  /** Two jobs of different members are ordered exactly when the members are, in a chain. */
  lemma BeforeAcrossMembers(d: Delayable, i: nat, j: nat, x: Delayable, y: Delayable)
    requires !d.Job? && i < |d.members| && j < |d.members| && i != j && DisjointMembers(d.members)
    requires x in Jobs(d.members[i]) && y in Jobs(d.members[j])
    ensures Before(d, x, y) <==> d.Chain? && i < j
  {
    if exists m :: m in d.members && Before(m, x, y) {
      OrderedInsideOneMember(d.members, i, j, x, y);
      assert false;
    }
  }

  lemma OrderedInsideOneMember(ms: seq<Delayable>, i: nat, j: nat, x: Delayable, y: Delayable)
    requires i < |ms| && j < |ms| && DisjointMembers(ms)
    requires x in Jobs(ms[i]) && y in Jobs(ms[j])
    requires exists m :: m in ms && Before(m, x, y)
    ensures i == j
  {
    var m :| m in ms && Before(m, x, y);
    BeforeRelatesJobs(m, x, y);
    var k :| 0 <= k < |ms| && ms[k] == m;
    assert k == i && k == j;
  }

  /** A term over distinct jobs means a strict partial order. */
  lemma {:induction false} BeforeIsStrictOrder(d: Delayable, x: Delayable, y: Delayable, z: Delayable)
    requires DistinctJobs(d)
    ensures !Before(d, x, x)
    ensures Before(d, x, y) && Before(d, y, z) ==> Before(d, x, z)
    decreases d, 1
  {
    if !d.Job? {
      if Before(d, x, x) {
        BeforeRelatesJobs(d, x, x);
        var i := MemberOf(d.members, x);
        BeforeWithinMember(d, i, x, x);
        BeforeIsStrictOrder(d.members[i], x, x, x);
      }
      if Before(d, x, y) && Before(d, y, z) {
        BeforeRelatesJobs(d, x, y);
        BeforeRelatesJobs(d, y, z);
        var i := MemberOf(d.members, x);
        var j := MemberOf(d.members, y);
        var k := MemberOf(d.members, z);
        ThroughMembers(d, i, j, k, x, y, z);
      }
    }
  }

  lemma {:induction false} ThroughMembers(d: Delayable, i: nat, j: nat, k: nat, x: Delayable, y: Delayable,
      z: Delayable)
    requires !d.Job? && DistinctJobs(d) && Before(d, x, y) && Before(d, y, z)
    requires i < |d.members| && j < |d.members| && k < |d.members|
    requires x in Jobs(d.members[i]) && y in Jobs(d.members[j]) && z in Jobs(d.members[k])
    ensures Before(d, x, z)
    decreases d, 0
  {
    if i == j == k {
      BeforeWithinMember(d, i, x, y);
      BeforeWithinMember(d, i, y, z);
      BeforeIsStrictOrder(d.members[i], x, y, z);
      BeforeWithinMember(d, i, x, z);
    } else {
      if i != j { BeforeAcrossMembers(d, i, j, x, y); }
      if j != k { BeforeAcrossMembers(d, j, k, y, z); }
      BeforeAcrossMembers(d, i, k, x, z);
    }
  }
}
