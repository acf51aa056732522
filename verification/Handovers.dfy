/** Handing over an order's sale parcels one after the other; and the parcel whose handover
    leaves something unbilled. */
module Handovers {
  import opened Basics
  import opened Invoicing
  import opened InvoicingRuns

  // ── Several parcels in turn ──────────────────────────────────

  /** A draft sale parcel of the order. Its dead stones, if any, are on a posted invoice and in
      the vault: a handover revives them, and may then neither owe them nor wait for them. */
  ghost predicate SafeParcel(s: State, o: nat, p: nat) {
    && p in s.parcels && s.parcels[p] == Parcel(o, Sale, DraftParcel)
    && forall x | x in ParcelStones(s, p) && s.stones[x].product && s.stones[x].dead ::
        PostedInvoiced(s, x) && s.stones[x].inVault
  }

  ghost predicate MayHandOver(s: State, o: nat, ps: seq<nat>) {
    && Inv(s) && InvoiceReady(s, o)
    && (forall i | 0 <= i < |ps| :: SafeParcel(s, o, ps[i]))
    && (forall i, j | 0 <= i < j < |ps| :: ps[i] != ps[j])
  }

  /** One handover leaves the others as possible as they were. */
  lemma OthersStayPossible(s: State, o: nat, ps: seq<nat>)
    requires ps != [] && MayHandOver(s, o, ps)
    ensures Allowed(s, HandOver(ps[0])) && MayHandOver(Step(s, HandOver(ps[0])), o, ps[1..])
  {
    var p := ps[0];
    assert SafeParcel(s, o, p);
    var t := Step(s, HandOver(p));
    StepKeepsInv(s, HandOver(p));
    HandOverStatuses(s, p);
    StaysReady(s, o, p);
    forall i | 0 <= i < |ps[1..]|
      ensures SafeParcel(t, o, ps[1..][i])
    {
      assert SafeParcel(s, o, ps[i + 1]) && ps[i + 1] != p;
      StaysSafe(s, o, p, ps[i + 1]);
    }
  }

  lemma StaysReady(s: State, o: nat, p: nat)
    requires Inv(s) && InvoiceReady(s, o) && SafeParcel(s, o, p) && Allowed(s, HandOver(p))
    ensures InvoiceReady(Step(s, HandOver(p)), o)
  {
    var t := Step(s, HandOver(p));
    HandOverStatuses(s, p);
    ConfirmedStays(s, p);
    hide Step;
    var x :| x in AutoStones(s, o);
    assert x in AutoStones(t, o);
    forall y | y in AutoStones(t, o)
      ensures t.stones[y].inVault
    {
      assert y in AutoStones(s, o) || (y in ParcelStones(s, p) && s.stones[y].product && s.stones[y].dead);
    }
  }

  lemma ConfirmedStays(s: State, p: nat)
    requires Allowed(s, HandOver(p))
    ensures Step(s, HandOver(p)).confirmed == s.confirmed
  {
    var o := s.parcels[p].order;
    var tried := TryCreated(s, o);
    var narrowed := Narrowed(tried, o, p);
    BillingLeavesGoods(s, o, p, {});
    BillingLeavesGoods(tried, o, p, {});
    BillingLeavesGoods(narrowed, o, p, {});
    var billed := if s.parcels[p].kind == Sale then PostedDraft(narrowed, o) else s;
    BillingLeavesGoods(billed.(parcels := billed.parcels[p := s.parcels[p].(state := HandedOver)]), o, p, {});
  }

  lemma StaysSafe(s: State, o: nat, p: nat, q: nat)
    requires Inv(s) && InvoiceReady(s, o) && SafeParcel(s, o, p) && Allowed(s, HandOver(p)) && SafeParcel(s, o, q) &&
        p != q
    ensures SafeParcel(Step(s, HandOver(p)), o, q)
  {
    var t := Step(s, HandOver(p));
    HandOverStatuses(s, p);
    hide Step;
    forall x | x in ParcelStones(t, q) && t.stones[x].product && t.stones[x].dead
      ensures PostedInvoiced(t, x) && t.stones[x].inVault
    {
      assert x in ParcelStones(s, q);
      HandOverBillsStone(s, p, x);
    }
  }

  ghost function InTurn(s: State, o: nat, ps: seq<nat>): State
    requires MayHandOver(s, o, ps)
    decreases |ps|
  {
    if ps == [] then s
    else
      OthersStayPossible(s, o, ps);
      InTurn(Step(s, HandOver(ps[0])), o, ps[1..])
  }

  /** Handing over any number of safe sale parcels of a ready order, one after the other: every
      stone then live and not out on memo is on exactly one standing invoice; what the parcels
      carried to bill is posted; and nothing is newly posted but what they carried. */
  lemma {:induction false} ConsecutiveHandoversLoseNone(s: State, o: nat, ps: seq<nat>)
    requires MayHandOver(s, o, ps) && ps != []
    ensures
      var u := InTurn(s, o, ps);
      && Inv(u) && u.stones.Keys == s.stones.Keys
      && (forall x | ToBill(u, o, x) :: AlreadyInvoiced(u, x) && forall i, j | Billed(u, x, i) && Billed(u, x, j) ::
          i == j)
      && (forall i, x | 0 <= i < |ps| && x in ParcelStones(s, ps[i]) && ToBill(s, o, x) :: PostedInvoiced(u, x))
      && (forall x | x in s.stones && PostedInvoiced(s, x) :: PostedInvoiced(u, x))
      && (forall x | x in s.stones && PostedInvoiced(u, x) && !PostedInvoiced(s, x) ::
          exists i :: 0 <= i < |ps| && x in ParcelStones(s, ps[i]))
    decreases |ps|
  {
    var p, rest := ps[0], ps[1..];
    assert Inv(s) && InvoiceReady(s, o) && SafeParcel(s, o, p);
    hide InvoiceReady, Inv, SafeParcel, MayHandOver, Allowed;
    OthersStayPossible(s, o, ps);
    var t := Step(s, HandOver(p));
    OneHandover(s, o, p);
    hide Step, ToBill, PostedInvoiced, AlreadyInvoiced, Billed, ParcelStones;
    if rest != [] {
      ConsecutiveHandoversLoseNone(t, o, rest);
      TurnByTurn(s, t, InTurn(t, o, rest), o, ps);
    }
  }

  lemma TurnByTurn(s: State, t: State, u: State, o: nat, ps: seq<nat>)
    requires ps != [] && t.stones.Keys == s.stones.Keys
    requires forall x, q | x in s.stones :: x in ParcelStones(t, q) <==> x in ParcelStones(s, q)
    requires forall x | ToBill(s, o, x) :: ToBill(t, o, x)
    requires forall x | x in ParcelStones(s, ps[0]) && ToBill(s, o, x) :: PostedInvoiced(t, x)
    requires forall x | x in s.stones && PostedInvoiced(s, x) :: PostedInvoiced(t, x)
    requires forall x | x in s.stones && PostedInvoiced(t, x) && !PostedInvoiced(s, x) :: x in ParcelStones(s, ps[0])
    requires forall i, x | 0 <= i < |ps[1..]| && x in ParcelStones(t, ps[1..][i]) && ToBill(t, o, x) ::
        PostedInvoiced(u, x)
    requires forall x | x in t.stones && PostedInvoiced(t, x) :: PostedInvoiced(u, x)
    requires forall x | x in t.stones && PostedInvoiced(u, x) && !PostedInvoiced(t, x) ::
        exists i :: 0 <= i < |ps[1..]| && x in ParcelStones(t, ps[1..][i])
    ensures forall i, x | 0 <= i < |ps| && x in ParcelStones(s, ps[i]) && ToBill(s, o, x) :: PostedInvoiced(u, x)
    ensures forall x | x in s.stones && PostedInvoiced(u, x) && !PostedInvoiced(s, x) ::
        exists i :: 0 <= i < |ps| && x in ParcelStones(s, ps[i])
  {
    var rest := ps[1..];
    assert forall i, x | 0 <= i < |ps| && x in ParcelStones(s, ps[i]) :: x in s.stones;
    hide ToBill, PostedInvoiced, ParcelStones;
    forall i, x | 0 <= i < |ps| && x in ParcelStones(s, ps[i]) && ToBill(s, o, x)
      ensures PostedInvoiced(u, x)
    {
      if i > 0 {
        assert rest[i - 1] == ps[i] && x in ParcelStones(t, rest[i - 1]);
      }
    }
    forall x | x in s.stones && PostedInvoiced(u, x) && !PostedInvoiced(s, x)
      ensures exists i :: 0 <= i < |ps| && x in ParcelStones(s, ps[i])
    {
      if PostedInvoiced(t, x) {
        assert x in ParcelStones(s, ps[0]);
      } else {
        var i :| 0 <= i < |rest| && x in ParcelStones(t, rest[i]);
        assert rest[i] == ps[i + 1] && x in ParcelStones(s, ps[i + 1]);
      }
    }
  }

  lemma OneHandover(s: State, o: nat, p: nat)
    requires Inv(s) && InvoiceReady(s, o) && SafeParcel(s, o, p) && Allowed(s, HandOver(p))
    ensures
      var t := Step(s, HandOver(p));
      && Inv(t) && t.stones.Keys == s.stones.Keys
      && (forall x, q | x in s.stones :: x in ParcelStones(t, q) <==> x in ParcelStones(s, q))
      && (forall x | ToBill(s, o, x) :: ToBill(t, o, x))
      && (forall x | ToBill(t, o, x) :: AlreadyInvoiced(t, x) && forall i, j | Billed(t, x, i) && Billed(t, x, j) ::
          i == j)
      && (forall x | x in ParcelStones(s, p) && ToBill(s, o, x) :: PostedInvoiced(t, x))
      && (forall x | x in s.stones && PostedInvoiced(s, x) :: PostedInvoiced(t, x))
      && (forall x | x in s.stones && PostedInvoiced(t, x) && !PostedInvoiced(s, x) :: x in ParcelStones(s, p))
  {
    var t := Step(s, HandOver(p));
    StepKeepsInv(s, HandOver(p));
    HandOverStatuses(s, p);
    HandOverBillsTheParcel(s, p);
    HandOverBillsAllUnlessItRevives(s, p);
    hide Step;
    forall x | x in s.stones && PostedInvoiced(s, x)
      ensures PostedInvoiced(t, x) && AlreadyInvoiced(s, x)
    {
      HandOverBillsStone(s, p, x);
      NotBothPostedAndDraft(s, x);
    }
  }

  // ── What a handover may leave unbilled ───────────────────────

  /** Order 1 with one stone to deliver and one that died unbilled, both on draft sale parcel 7. */
  function OneDead(): State {
    var stone := Stone(1, true, false, true, Some(7), Undecided);
    State({1}, map[10 := stone, 11 := stone.(dead := true)], map[7 := Parcel(1, Sale, DraftParcel)], map[], 0)
  }

  lemma OneDeadIsReady()
    ensures Inv(OneDead()) && InvoiceReady(OneDead(), 1) && Allowed(OneDead(), HandOver(7))
  {
    assert forall i :: i !in OneDead().invoices;
    assert 10 in AutoStones(OneDead(), 1);
  }

  /** The handover marks both dispatched: the dead one is live again, and on no invoice. */
  lemma HandoverRevivesUnbilledStone()
    ensures
      var s := OneDead();
      && Inv(s) && InvoiceReady(s, 1) && Allowed(s, HandOver(7))
      && ToBill(Step(s, HandOver(7)), 1, 11) && !AlreadyInvoiced(Step(s, HandOver(7)), 11)
  {
    var s := OneDead();
    OneDeadIsReady();
    HandOverStatuses(s, 7);
    HandOverBillsStone(s, 7, 11);
    StepKeepsInv(s, HandOver(7));
    var t := Step(s, HandOver(7));
    hide Step, Allowed, InvoiceReady, Inv;
    NotBothPostedAndDraft(t, 11);
    assert 11 in ParcelStones(s, 7) && 11 !in AutoStones(s, 1);
    assert !PostedInvoiced(s, 11) && !OnDraft(s, 11);
  }
}
