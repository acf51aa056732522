/** Making up parcels: one press, one parcel per destination among the selected stones, and
    the partial-send rule (contact_stage_bar/models/lgd_inventory_sale_line.py and
    lgd_dispatch.py). Parcel n is the n-th ever made; 0 stands for no parcel. */
module Parcelling {
  import opened Basics

  datatype Stone = Stone(order: nat, destination: nat, toDispatch: bool, parcel: nat, dead: bool, product: bool,
      setIncomplete: bool)

  type Stones = map<nat, Stone>

  datatype Approval = NotRequired | Approved | Pending

  datatype Parcel = Parcel(order: nat, destination: nat, approval: Approval, stones: set<nat>)

  /** _compute_lgd_ready_to_dispatch. */
  predicate Ready(s: Stone) {
    s.toDispatch && s.parcel == 0 && !s.dead
  }

  /** What a press refuses: nothing selected, two orders, or any stone with a problem. */
  predicate Sendable(stones: Stones, selected: seq<nat>, addressed: set<nat>) {
    && selected != []
    && forall i | 0 <= i < |selected| ::
        && selected[i] in stones && selected[0] in stones
        && stones[selected[i]].order == stones[selected[0]].order
        && Ready(stones[selected[i]]) && !stones[selected[i]].setIncomplete
        && stones[selected[i]].destination in addressed
  }

  /** The selected stones going to one destination. */
  function Going(stones: Stones, selected: seq<nat>, d: nat): set<nat> {
    set l | l in selected && l in stones && stones[l].destination == d
  }

  /** The destinations of the selection, in the order they are first met. */
  function Destinations(stones: Stones, selected: seq<nat>): (ds: seq<nat>)
    requires forall l | l in selected :: l in stones
    ensures forall d :: d in ds <==> Going(stones, selected, d) != {}
    ensures forall i, j | 0 <= i < j < |ds| :: ds[i] != ds[j]
  {
    if selected == [] then []
    else
      var n := |selected| - 1;
      var before := Destinations(stones, selected[..n]);
      var d := stones[selected[n]].destination;
      GoingOneMore(stones, selected, n);
      if d in before then before else before + [d]
  }

  lemma GoingOneMore(stones: Stones, selected: seq<nat>, n: nat)
    requires n == |selected| - 1 && selected[n] in stones
    ensures forall d ::
        var extra := if stones[selected[n]].destination == d then {selected[n]} else {};
        Going(stones, selected, d) == Going(stones, selected[..n], d) + extra
  {
    assert selected == selected[..n] + [selected[n]];
  }

  /** The live stones of the order that a parcel for d would leave behind. */
  function Outstanding(stones: Stones, order: nat, d: nat, sending: set<nat>): set<nat> {
    set l | l in stones && stones[l].order == order && l !in sending && stones[l].parcel == 0
            && stones[l].destination == d && !stones[l].dead && stones[l].product
  }

  /** _lgd_approval_state_for. */
  function ApprovalFor(stones: Stones, order: nat, d: nat, sending: set<nat>, partialAllowed: bool): Approval {
    if Outstanding(stones, order, d, sending) == {} then NotRequired
    else if partialAllowed then Approved
    else Pending
  }

  function Assigned(stones: Stones, going: set<nat>, parcel: nat): Stones {
    map l | l in stones :: if l in going then stones[l].(parcel := parcel) else stones[l]
  }

  datatype Vault = Vault(stones: Stones, parcels: seq<Parcel>)

  function ParcelFor(stones: Stones, start: Stones, selected: seq<nat>, order: nat, d: nat,
      partialAllowed: bool): Parcel {
    var going := Going(start, selected, d);
    Parcel(order, d, ApprovalFor(stones, order, d, going, partialAllowed), going)
  }

  function WithParcel(v: Vault, p: Parcel): Vault {
    Vault(Assigned(v.stones, p.stones, |v.parcels| + 1), v.parcels + [p])
  }

  /** The groups taken one after the other, in the order ds: each parcel's approval is read off
      the stones as the earlier parcels have left them. */
  function OneByOne(v: Vault, start: Stones, selected: seq<nat>, order: nat, ds: seq<nat>, partialAllowed: bool): Vault
    decreases |ds|
  {
    if ds == [] then v
    else OneByOne(WithParcel(v, ParcelFor(v.stones, start, selected, order, ds[0], partialAllowed)), start, selected,
        order, ds[1..], partialAllowed)
  }

  // ── The program ──────────────────────────────────────────────

  class Dispatch {
    var stones: Stones
    var parcels: seq<Parcel>
    const addressed: set<nat>
    const partialAllowed: bool

    constructor (stones: Stones, addressed: set<nat>, partialAllowed: bool)
      ensures this.stones == stones && parcels == [] && this.addressed == addressed &&
          this.partialAllowed == partialAllowed
    {
      this.stones, this.addressed, this.partialAllowed, parcels := stones, addressed, partialAllowed, [];
    }

    method Problems(selected: seq<nat>) returns (found: nat)
      requires forall l | l in selected :: l in stones
      ensures found == 0 <==>
              forall i | 0 <= i < |selected| ::
                Ready(stones[selected[i]]) && !stones[selected[i]].setIncomplete &&
                    stones[selected[i]].destination in addressed
    {
      found := 0;
      for i := 0 to |selected|
        invariant found == 0 <==>
                  forall k | 0 <= k < i ::
                    Ready(stones[selected[k]]) && !stones[selected[k]].setIncomplete &&
                        stones[selected[k]].destination in addressed
      {
        var s := stones[selected[i]];
        if !Ready(s) {
          found := found + 1;
        }
        if s.setIncomplete {
          found := found + 1;
        }
        if s.destination !in addressed {
          found := found + 1;
        }
      }
    }

    /** The dictionary of groups: its keys in the order they were first met. */
    method FillGroups(selected: seq<nat>) returns (ds: seq<nat>, groups: map<nat, set<nat>>)
      requires forall l | l in selected :: l in stones
      ensures ds == Destinations(stones, selected)
      ensures forall d :: d in groups <==> d in ds
      ensures forall d | d in ds :: groups[d] == Going(stones, selected, d)
    {
      ds, groups := [], map[];
      for i := 0 to |selected|
        invariant ds == Destinations(stones, selected[..i])
        invariant forall d :: d in groups <==> d in ds
        invariant forall d | d in ds :: groups[d] == Going(stones, selected[..i], d)
      {
        assert selected[..i + 1][..i] == selected[..i];
        GoingOneMore(stones, selected[..i + 1], i);
        var d := stones[selected[i]].destination;
        ghost var before := ds;
        if d !in groups {
          assert Going(stones, selected[..i], d) == {};
          ds := ds + [d];
          groups := groups[d := {}];
        }
        groups := groups[d := groups[d] + {selected[i]}];
        assert forall e :: e in ds <==> e in before || e == d;
      }
      assert selected[..|selected|] == selected;
    }

    /** _lgd_action_make_parcels. */
    method MakeParcels(selected: seq<nat>) returns (ok: bool)
      requires forall l | l in selected :: l in stones
      modifies this
      ensures ok <==> Sendable(old(stones), selected, addressed)
      ensures !ok <==>
        || selected == []
        || exists i, j | 0 <= i < |selected| && 0 <= j < |selected| ::
             var s := old(stones)[selected[i]];
             || s.order != old(stones)[selected[j]].order
             || !s.toDispatch || s.parcel != 0 || s.dead || s.setIncomplete || s.destination !in addressed
      ensures !ok ==> stones == old(stones) && parcels == old(parcels)
      ensures ok ==> Vault(stones, parcels) ==
                     OneByOne(old(Vault(stones, parcels)), old(stones), selected, old(stones)[selected[0]].order,
                              Destinations(old(stones), selected), partialAllowed)
    {
      hide Going, Assigned, Outstanding, Destinations;
      if selected == [] || exists i | 0 <= i < |selected| :: stones[selected[i]].order != stones[selected[0]].order {
        return false;
      }
      var order := stones[selected[0]].order;
      var found := Problems(selected);
      if found > 0 {
        return false;
      }
      var ds, groups := FillGroups(selected);
      ghost var was, now := Vault(stones, parcels), Vault(stones, parcels);
      for i := 0 to |ds|
        invariant now == Vault(stones, parcels)
        invariant OneByOne(now, was.stones, selected, order, ds[i..], partialAllowed)
               == OneByOne(was, was.stones, selected, order, ds, partialAllowed)
      {
        assert ds[i..][1..] == ds[i + 1..] && ds[i] in ds;
        var going := groups[ds[i]];
        var p := Parcel(order, ds[i], ApprovalFor(stones, order, ds[i], going, partialAllowed), going);
        stones := Assigned(stones, going, |parcels| + 1);
        parcels := parcels + [p];
        now := WithParcel(now, p);
      }
      return true;
    }
  }

  // ── What a press leaves behind ───────────────────────────────

  /** Every stone as it was, except that a selected one is now in the parcel that stands at
      its destination's place in ds. */
  ghost predicate SentOut(stones: Stones, later: Stones, selected: seq<nat>, ds: seq<nat>, first: nat) {
    && later.Keys == stones.Keys
    && (forall l | l in stones && (l !in selected || stones[l].destination !in ds) :: later[l] == stones[l])
    && (forall l, k | l in stones && l in selected && 0 <= k < |ds| && ds[k] == stones[l].destination ::
          later[l] == stones[l].(parcel := first + k + 1))
  }

  /** Another destination's parcel changes nothing about what is outstanding for d. */
  lemma OthersDoNotMatter(stones: Stones, start: Stones, selected: seq<nat>, order: nat, d: nat, e: nat, parcel: nat)
    requires d != e && stones.Keys == start.Keys &&
        (forall l | l in stones :: stones[l].destination == start[l].destination)
    ensures
      var later := Assigned(stones, Going(start, selected, e), parcel);
      Outstanding(later, order, d, Going(start, selected, d)) ==
          Outstanding(stones, order, d, Going(start, selected, d))
  {
  }

  /** From position first on, the parcels the destinations ds call for as the stones stand. */
  ghost predicate CalledFor(made: seq<Parcel>, first: nat, stones: Stones, start: Stones, selected: seq<nat>,
      order: nat, ds: seq<nat>, partialAllowed: bool) {
    && |made| == first + |ds|
    && forall k | 0 <= k < |ds| :: made[first + k] == ParcelFor(stones, start, selected, order, ds[k], partialAllowed)
  }

  lemma CalledForFirst(made: seq<Parcel>, first: nat, stones: Stones, next: Stones, start: Stones, selected: seq<nat>,
      order: nat, ds: seq<nat>, partialAllowed: bool)
    requires ds != [] && Distinct(ds) && first < |made|
    requires stones.Keys == start.Keys && forall l | l in stones :: stones[l].destination == start[l].destination
    requires next == Assigned(stones, Going(start, selected, ds[0]), first + 1)
    requires CalledFor(made, first + 1, next, start, selected, order, ds[1..], partialAllowed)
    requires made[first] == ParcelFor(stones, start, selected, order, ds[0], partialAllowed)
    ensures CalledFor(made, first, stones, start, selected, order, ds, partialAllowed)
  {
    hide Outstanding, Going, Assigned;
    forall k | 0 <= k < |ds|
      ensures made[first + k] == ParcelFor(stones, start, selected, order, ds[k], partialAllowed)
    {
      if k > 0 {
        assert ds[1..][k - 1] == ds[k];
        assert made[first + 1 + (k - 1)] == ParcelFor(next, start, selected, order, ds[k], partialAllowed);
        OthersDoNotMatter(stones, start, selected, order, ds[k], ds[0], first + 1);
      }
    }
  }

  /** However the groups are ordered: the parcel of a destination holds exactly the selected
      stones bound for it, and its approval is the one the stones at the start call for. */
  lemma {:induction false} GroupsAreIndependent(v: Vault, start: Stones, selected: seq<nat>, order: nat, ds: seq<nat>,
      partialAllowed: bool)
    requires Distinct(ds) && v.stones.Keys == start.Keys &&
        forall l | l in v.stones :: v.stones[l].destination == start[l].destination
    ensures
      var later := OneByOne(v, start, selected, order, ds, partialAllowed);
      && v.parcels <= later.parcels
      && CalledFor(later.parcels, |v.parcels|, v.stones, start, selected, order, ds, partialAllowed)
      && SentOut(v.stones, later.stones, selected, ds, |v.parcels|)
    decreases |ds|
  {
    hide Outstanding, CalledFor, SentOut;
    if ds == [] {
      NothingSent(v, start, selected, order, partialAllowed);
    } else {
      var next := WithParcel(v, ParcelFor(v.stones, start, selected, order, ds[0], partialAllowed));
      GroupsAreIndependent(next, start, selected, order, ds[1..], partialAllowed);
      var later := OneByOne(v, start, selected, order, ds, partialAllowed);
      CalledForFirst(later.parcels, |v.parcels|, v.stones, next.stones, start, selected, order, ds, partialAllowed);
      SentOutFirst(v.stones, next.stones, later.stones, selected, ds, |v.parcels|);
    }
  }

  lemma NothingSent(v: Vault, start: Stones, selected: seq<nat>, order: nat, partialAllowed: bool)
    ensures CalledFor(v.parcels, |v.parcels|, v.stones, start, selected, order, [], partialAllowed)
    ensures SentOut(v.stones, v.stones, selected, [], |v.parcels|)
  {
  }

  lemma SentOutFirst(stones: Stones, next: Stones, later: Stones, selected: seq<nat>, ds: seq<nat>, first: nat)
    requires ds != [] && Distinct(ds)
    requires next.Keys == stones.Keys && SentOut(next, later, selected, ds[1..], first + 1)
    requires forall l | l in stones :: next[l] == if l in selected && stones[l].destination == ds[0]
        then stones[l].(parcel := first + 1) else stones[l]
    ensures SentOut(stones, later, selected, ds, first)
  {
    assert forall l | l in stones :: next[l].destination == stones[l].destination;
    assert forall d | d in ds :: d == ds[0] || d in ds[1..];
    forall l, k | l in stones && l in selected && 0 <= k < |ds| && ds[k] == stones[l].destination
      ensures later[l] == stones[l].(parcel := first + k + 1)
    {
      if k == 0 {
        assert forall i | 0 <= i < |ds[1..]| :: ds[1..][i] != ds[0];
      } else {
        assert ds[1..][k - 1] == next[l].destination;
      }
    }
  }

  /** A live stone of the order is left without a parcel for this destination. */
  ghost predicate LeftBehind(stones: Stones, order: nat, d: nat) {
    exists l :: l in stones && stones[l].order == order && stones[l].destination == d
      && stones[l].parcel == 0 && !stones[l].dead && stones[l].product
  }

  lemma LeftBehindIsOutstanding(stones: Stones, order: nat, d: nat)
    ensures LeftBehind(stones, order, d) <==> Outstanding(stones, order, d, {}) != {}
  {
    if LeftBehind(stones, order, d) {
      var l :| l in stones && stones[l].order == order && stones[l].destination == d
        && stones[l].parcel == 0 && !stones[l].dead && stones[l].product;
      assert l in Outstanding(stones, order, d, {});
    }
  }

  /** The parcel at place p of a press: not empty, every selected stone of its destination and
      no other, and free of approval exactly when no live stone of the order without a parcel
      remains for its destination; else approved if the order may be sent in part. */
  ghost predicate WellMade(p: nat, parcel: Parcel, later: Stones, selected: seq<nat>, order: nat,
      partialAllowed: bool) {
    && parcel.order == order && parcel.stones != {}
    && parcel.stones == (set l | l in later && later[l].parcel == p + 1 && l in selected)
    && parcel.stones == (set l | l in later && later[l].destination == parcel.destination && l in selected)
    && parcel.approval ==
         if !LeftBehind(later, order, parcel.destination) then NotRequired
         else if partialAllowed then Approved
         else Pending
  }

  /** One press makes one parcel per destination, each well made; every selected stone is in
      one of them, and nothing else moves. */
  lemma OnePressOneParcelPerDestination(v: Vault, selected: seq<nat>, addressed: set<nat>, partialAllowed: bool)
    requires Sendable(v.stones, selected, addressed)
    ensures
      var order := v.stones[selected[0]].order;
      var later := OneByOne(v, v.stones, selected, order, Destinations(v.stones, selected), partialAllowed);
      && v.parcels <= later.parcels && later.stones.Keys == v.stones.Keys
      && (forall p | |v.parcels| <= p < |later.parcels| ::
          WellMade(p, later.parcels[p], later.stones, selected, order, partialAllowed))
      && (forall p, q | |v.parcels| <= p < q < |later.parcels| ::
          later.parcels[p].destination != later.parcels[q].destination)
      && (forall l | l in selected :: |v.parcels| < later.stones[l].parcel <= |later.parcels|)
      && (forall l | l in v.stones && l !in selected :: later.stones[l] == v.stones[l])
  {
    hide Outstanding, Going, OneByOne, WellMade, Ready, CalledFor, SentOut;
    var stones, first := v.stones, |v.parcels|;
    var ds, order := Destinations(stones, selected), stones[selected[0]].order;
    GroupsAreIndependent(v, stones, selected, order, ds, partialAllowed);
    var later := OneByOne(v, stones, selected, order, ds, partialAllowed);
    assert forall l | l in selected :: l in stones;
    AllSentOut(stones, later.stones, selected, ds, first);
    PressIsWellMade(stones, later.stones, later.parcels, selected, order, ds, first, partialAllowed);
  }

  lemma AllSentOut(stones: Stones, later: Stones, selected: seq<nat>, ds: seq<nat>, first: nat)
    requires (forall l | l in selected :: l in stones) && ds == Destinations(stones, selected)
    requires SentOut(stones, later, selected, ds, first)
    ensures later.Keys == stones.Keys
    ensures forall l | l in selected :: stones[l].destination in ds && first < later[l].parcel <= first + |ds|
    ensures forall l | l in stones && l !in selected :: later[l] == stones[l]
  {
    hide Going;
    forall l | l in selected
      ensures stones[l].destination in ds && first < later[l].parcel <= first + |ds|
    {
      AmongItsDestination(stones, selected, l);
      var k :| 0 <= k < |ds| && ds[k] == stones[l].destination;
      assert later[l] == stones[l].(parcel := first + k + 1);
    }
  }

  lemma PressIsWellMade(stones: Stones, later: Stones, made: seq<Parcel>, selected: seq<nat>, order: nat, ds: seq<nat>,
      first: nat, partialAllowed: bool)
    requires (forall l | l in selected :: l in stones) && ds == Destinations(stones, selected)
    requires SentOut(stones, later, selected, ds, first) &&
        CalledFor(made, first, stones, stones, selected, order, ds, partialAllowed)
    ensures |made| == first + |ds|
    ensures forall p | first <= p < |made| :: WellMade(p, made[p], later, selected, order, partialAllowed)
    ensures forall p, q | first <= p < q < |made| :: made[p].destination != made[q].destination
  {
    hide Outstanding, Going, WellMade, SentOut;
    AllSentOut(stones, later, selected, ds, first);
    forall p | first <= p < |made|
      ensures WellMade(p, made[p], later, selected, order, partialAllowed) && made[p].destination == ds[p - first]
    {
      var k := p - first;
      assert made[first + k] == ParcelFor(stones, stones, selected, order, ds[k], partialAllowed);
      assert ds[k] in ds;
      InItsParcel(stones, later, selected, ds, first, k);
      LeftOver(stones, later, selected, ds, first, order, k);
      DestinationsKept(stones, later, selected, ds, first);
      IsWellMade(p, made[p], stones, later, selected, order, partialAllowed);
    }
  }

  lemma DestinationsKept(stones: Stones, later: Stones, selected: seq<nat>, ds: seq<nat>, first: nat)
    requires SentOut(stones, later, selected, ds, first)
    ensures later.Keys == stones.Keys && forall l | l in later :: later[l].destination == stones[l].destination
  {
    forall l | l in later
      ensures later[l].destination == stones[l].destination
    {
      if l in selected && stones[l].destination in ds {
        var k :| 0 <= k < |ds| && ds[k] == stones[l].destination;
        assert later[l] == stones[l].(parcel := first + k + 1);
      }
    }
  }

  lemma IsWellMade(p: nat, parcel: Parcel, stones: Stones, later: Stones, selected: seq<nat>, order: nat,
      partialAllowed: bool)
    requires parcel.order == order && parcel.stones == Going(stones, selected, parcel.destination) != {}
    requires later.Keys == stones.Keys && forall l | l in later :: later[l].destination == stones[l].destination
    requires parcel.stones == set l | l in later && later[l].parcel == p + 1 && l in selected
    requires parcel.approval == if Outstanding(later, order, parcel.destination, {}) == {} then NotRequired
      else if partialAllowed then Approved else Pending
    ensures WellMade(p, parcel, later, selected, order, partialAllowed)
  {
    LeftBehindIsOutstanding(later, order, parcel.destination);
  }

  lemma AmongItsDestination(stones: Stones, selected: seq<nat>, l: nat)
    requires l in selected && forall m | m in selected :: m in stones
    ensures stones[l].destination in Destinations(stones, selected)
  {
    assert l in Going(stones, selected, stones[l].destination);
  }

  lemma InItsParcel(stones: Stones, later: Stones, selected: seq<nat>, ds: seq<nat>, first: nat, k: nat)
    requires SentOut(stones, later, selected, ds, first) && k < |ds| && Distinct(ds)
    requires forall l | l in selected :: l in stones && stones[l].destination in ds
    ensures Going(stones, selected, ds[k]) == set l | l in later && later[l].parcel == first + k + 1 && l in selected
  {
    forall l | l in selected
      ensures later[l].parcel == first + k + 1 <==> stones[l].destination == ds[k]
    {
      var j :| 0 <= j < |ds| && ds[j] == stones[l].destination;
      assert later[l] == stones[l].(parcel := first + j + 1);
    }
  }

  lemma LeftOver(stones: Stones, later: Stones, selected: seq<nat>, ds: seq<nat>, first: nat, order: nat, k: nat)
    requires SentOut(stones, later, selected, ds, first) && k < |ds|
    requires forall l | l in selected :: l in stones && stones[l].destination in ds && later[l].parcel > 0
    ensures Outstanding(stones, order, ds[k], Going(stones, selected, ds[k])) == Outstanding(later, order, ds[k], {})
  {
    forall l | l in stones
      ensures l in Outstanding(stones, order, ds[k], Going(stones, selected, ds[k])) <==>
          l in Outstanding(later, order, ds[k], {})
    {
      if l !in selected {
        assert later[l] == stones[l];
      } else {
        assert later[l].parcel > 0;
        assert stones[l].destination == ds[k] ==> l in Going(stones, selected, ds[k]);
      }
    }
  }
}
