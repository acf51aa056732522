/** What recording a memo return bills: what the client keeps, always; and what came back,
    exactly when closing the parcel as a sale makes it look unsold. */
module MemoReturns {
  import opened Basics
  import opened Invoicing
  import opened InvoicingRuns

  /** The stones of the parcel that came back, in this round or an earlier one. */
  function CameBack(s: State, p: nat, returned: set<nat>): set<nat> {
    set x | x in ParcelStones(s, p) && (x in returned || s.stones[x].outcome == Outcome.Returned)
  }

  /** The books as the closing would leave them, billing apart. */
  function ClosedAsSale(s: State, p: nat, kept: set<nat>, returned: set<nat>, back: set<nat>): State
    requires p in s.parcels
  {
    var stamped := Stamped(s, kept, returned, back);
    stamped.(parcels := s.parcels[p := s.parcels[p].(state := MemoClosed, kind := Sale)])
  }

  /** This round decides the last stones, something was kept now or before, and the order is
      then ready to be invoiced: all there is to look at before recording the round. */
  predicate ClosesIntoReadyOrder(s: State, p: nat, kept: set<nat>, returned: set<nat>, back: set<nat>)
    requires p in s.parcels
  {
    && UndecidedStones(s, p) <= kept + returned
    && (kept != {} || AnyKept(s, p))
    && InvoiceReady(ClosedAsSale(s, p, kept, returned, back), s.parcels[p].order)
  }

  /** A stone that came back and is alive on the order after the round: sent to inspection now,
      or still there from a round before. */
  predicate AliveAgain(s: State, x: nat, returned: set<nat>, back: set<nat>) {
    x in s.stones && s.stones[x].product && if x in returned then x !in back else !s.stones[x].dead
  }

  // ── The round's own invoice ──────────────────────────────────

  lemma StampedStones(s: State, p: nat, kept: set<nat>, returned: set<nat>, back: set<nat>)
    requires Allowed(s, RecordMemoReturn(p, kept, returned, back))
    ensures
      var t := Stamped(s, kept, returned, back);
      && t.invoices == s.invoices && t.nextInvoice == s.nextInvoice && t.confirmed == s.confirmed &&
          t.parcels == s.parcels
      && t.stones.Keys == s.stones.Keys
      && forall x | x in s.stones :: t.stones[x] ==
           if x in kept then s.stones[x].(outcome := Outcome.Kept, dead := false)
           else if x in returned then s.stones[x].(outcome := Outcome.Returned, dead := x in back)
           else s.stones[x]
  {
  }

  /** What is kept was out on approval, so nothing can have billed it yet. */
  lemma KeptIsInvoiceable(s: State, p: nat, kept: set<nat>, returned: set<nat>, back: set<nat>)
    requires Inv(s) && Allowed(s, RecordMemoReturn(p, kept, returned, back))
    ensures Invoiceable(Stamped(s, kept, returned, back), s.parcels[p].order, kept) == kept
  {
    var o, stamped := s.parcels[p].order, Stamped(s, kept, returned, back);
    StampedStones(s, p, kept, returned, back);
    forall x | x in kept
      ensures x in LiveStones(stamped, o) && !AlreadyInvoiced(stamped, x)
    {
      assert x in UndecidedStones(s, p) && ParcelHolds(s, x);
      assert OnApproval(s, x);
      assert !AlreadyInvoiced(s, x);
      NoNewBill(s, stamped, x);
    }
  }

  lemma MemoBills(s: State, p: nat, kept: set<nat>, returned: set<nat>, back: set<nat>)
    requires Inv(s) && Allowed(s, RecordMemoReturn(p, kept, returned, back))
    ensures
      var t, stamped := MemoBilled(s, p, kept, returned, back), Stamped(s, kept, returned, back);
      && (forall x, j :: Billed(t, x, j) <==>
          Billed(s, x, j) || (x in kept && j == Target(stamped, s.parcels[p].order)))
      && (forall x | x in kept :: PostedInvoiced(t, x))
  {
    var o, stamped, t := s.parcels[p].order, Stamped(s, kept, returned, back), MemoBilled(s, p, kept, returned, back);
    StampedStones(s, p, kept, returned, back);
    StampIsQuiet(s, kept, returned, back);
    KeptIsInvoiceable(s, p, kept, returned, back);
    assert forall x, j :: Billed(stamped, x, j) <==> Billed(s, x, j);
    if kept != {} {
      hide Inv, Stamped, Billed;
      PrepareAndPost(stamped, o, kept);
    }
  }

  lemma PrepareAndPost(s: State, o: nat, lines: set<nat>)
    requires Inv(s) && lines != {} && Invoiceable(s, o, lines) == lines
    requires forall x | x in lines :: !OnApproval(s, x)
    ensures
      var t := PostedDraft(Prepared(s, o, lines), o);
      && (forall x, j :: Billed(t, x, j) <==> Billed(s, x, j) || (x in lines && j == Target(s, o)))
      && (forall x | x in lines :: PostedInvoiced(t, x))
  {
    var prepared, i := Prepared(s, o, lines), Target(s, o);
    PreparedBills(s, o, lines);
    PreparedInvoices(s, o, lines);
    PrepareKeepsInv(s, o, lines);
    assert forall x | x in lines :: Billed(prepared, x, i);
    var x :| x in lines;
    assert x in prepared.invoices[i].stones && IsOpenDraft(prepared, o, i);
    DraftOf(prepared, o, i);
    PostingBills(prepared, i, lines);
  }

  lemma PostingBills(s: State, i: nat, lines: set<nat>)
    requires i in s.invoices && s.invoices[i].state == Draft && forall x | x in lines :: Billed(s, x, i)
    ensures
      var t := SetInvoice(s, i, s.invoices[i].(state := Posted));
      && (forall x, j :: Billed(t, x, j) <==> Billed(s, x, j))
      && (forall x | x in lines :: PostedInvoiced(t, x))
  {
    var t := SetInvoice(s, i, s.invoices[i].(state := Posted));
    forall x | x in lines
      ensures PostedInvoiced(t, x)
    {
      assert Billed(s, x, i);
      assert i in t.invoices && t.invoices[i].state == Posted && x in t.invoices[i].stones;
    }
  }

  lemma NoNewBill(s: State, t: State, x: nat)
    requires !AlreadyInvoiced(s, x) && forall i :: Billed(t, x, i) ==> Billed(s, x, i)
    ensures !AlreadyInvoiced(t, x)
  {
  }

  // ── The closing write ────────────────────────────────────────

  lemma SyncBills(s: State, o: nat, x: nat)
    requires Core(s) && OnlyOnDraftOf(s, o) && !AlreadyInvoiced(s, x)
    ensures AlreadyInvoiced(Synced(s, o), x) <==> InvoiceReady(s, o) && x in AutoStones(s, o)
  {
    var w := Withdrawn(s, o);
    WithdrawRestores(s, o);
    BillingLeavesGoods(s, o, 0, {});
    WithdrawnBillsLess(s, o, x);
    if InvoiceReady(w, o) {
      PreparedBills(w, o, AutoStones(w, o));
      var t := Synced(s, o);
      if x in Invoiceable(w, o, AutoStones(w, o)) {
        assert Billed(t, x, Target(w, o));
      } else {
        NoNewBill(w, t, x);
      }
    }
  }

  lemma WithdrawnBillsLess(s: State, o: nat, x: nat)
    requires Core(s) && !AlreadyInvoiced(s, x)
    ensures !AlreadyInvoiced(Withdrawn(s, o), x)
  {
    var w, d := Withdrawn(s, o), OpenDraft(s, o);
    if d.Some? {
      TakeOffKeepsCore(s, d.value, s.invoices[d.value].stones * MemoStones(s, o));
    }
    NoNewBill(s, w, x);
  }

  /** A posted invoice is out of reach of the hooks. */
  lemma SyncLeavesPosted(s: State, o: nat, x: nat)
    requires Core(s) && OnlyOnDraftOf(s, o) && PostedInvoiced(s, x)
    ensures PostedInvoiced(Synced(s, o), x)
  {
    var i :| i in s.invoices && s.invoices[i].state == Posted && x in s.invoices[i].stones;
    var w, t := Withdrawn(s, o), Synced(s, o);
    assert i in w.invoices && w.invoices[i] == s.invoices[i];
    WithdrawRestores(s, o);
    if InvoiceReady(w, o) && Invoiceable(w, o, AutoStones(w, o)) != {} {
      PreparedInvoices(w, o, AutoStones(w, o));
    }
    assert i in t.invoices && t.invoices[i] == w.invoices[i];
  }

  /** After the round's billing the parcel's stones are as stamped, and in the same parcel. */
  lemma BilledStones(s: State, p: nat, kept: set<nat>, returned: set<nat>, back: set<nat>)
    requires Inv(s) && Allowed(s, RecordMemoReturn(p, kept, returned, back))
    ensures
      var t := MemoBilled(s, p, kept, returned, back);
      && t.stones == Stamped(s, kept, returned, back).stones && t.confirmed == s.confirmed && t.parcels == s.parcels
      && ParcelStones(t, p) == ParcelStones(s, p)
  {
    MemoBilledKeepsInv(s, p, kept, returned, back);
    StampedStones(s, p, kept, returned, back);
    hide Inv, MemoBilled, Allowed;
    var t := MemoBilled(s, p, kept, returned, back);
    assert forall x | x in s.stones :: t.stones[x].parcel == s.stones[x].parcel;
  }

  lemma ClosingDecided(s: State, p: nat, kept: set<nat>, returned: set<nat>, back: set<nat>)
    requires Inv(s) && Allowed(s, RecordMemoReturn(p, kept, returned, back))
    ensures
      var t := MemoBilled(s, p, kept, returned, back);
      && (UndecidedStones(t, p) == {} <==> UndecidedStones(s, p) <= kept + returned)
      && (AnyKept(t, p) <==> kept != {} || AnyKept(s, p))
  {
    BilledStones(s, p, kept, returned, back);
    StampedStones(s, p, kept, returned, back);
    assert forall x | x in kept + returned :: x in UndecidedStones(s, p);
    hide Inv, MemoBilled, Allowed, Stamped;
    var t := MemoBilled(s, p, kept, returned, back);
    forall x | x in ParcelStones(s, p)
      ensures x in UndecidedStones(t, p) <==> x in UndecidedStones(s, p) && x !in kept + returned
      ensures t.stones[x].outcome == Outcome.Kept <==> x in kept || s.stones[x].outcome == Outcome.Kept
    {
    }
    if x :| x in kept {
      assert x in ParcelStones(t, p) && t.stones[x].outcome == Outcome.Kept;
    }
  }

  lemma ClosingIsReady(s: State, p: nat, kept: set<nat>, returned: set<nat>, back: set<nat>)
    requires Inv(s) && Allowed(s, RecordMemoReturn(p, kept, returned, back)) &&
        AnyKept(MemoBilled(s, p, kept, returned, back), p)
    ensures
      var t := MemoBilled(s, p, kept, returned, back);
      InvoiceReady(t.(parcels := t.parcels[p := MemoClosing(t, p)]), s.parcels[p].order) <==>
      InvoiceReady(ClosedAsSale(s, p, kept, returned, back), s.parcels[p].order)
  {
    BilledStones(s, p, kept, returned, back);
    StampedStones(s, p, kept, returned, back);
    hide Inv, MemoBilled, Allowed, Stamped, AnyKept;
    var t, o := MemoBilled(s, p, kept, returned, back), s.parcels[p].order;
    var closed, sale := t.(parcels := t.parcels[p := MemoClosing(t, p)]), ClosedAsSale(s, p, kept, returned, back);
    assert closed.parcels == sale.parcels && closed.stones == sale.stones && closed.confirmed == sale.confirmed;
    SameGoodsSameReadiness(closed, sale, o);
  }

  lemma SameGoodsSameReadiness(s: State, t: State, o: nat)
    requires s.parcels == t.parcels && s.stones == t.stones && s.confirmed == t.confirmed
    ensures InvoiceReady(s, o) <==> InvoiceReady(t, o)
  {
    assert AutoStones(s, o) == AutoStones(t, o);
  }

  /** A stone of the parcel that came back belongs on the invoice once the parcel is a sale,
      and not while it is a memo. */
  lemma BackOnTheInvoice(s: State, p: nat, kept: set<nat>, returned: set<nat>, back: set<nat>, x: nat)
    requires Inv(s) && Allowed(s, RecordMemoReturn(p, kept, returned, back)) && x in CameBack(s, p, returned)
    ensures
      var billed, o := MemoBilled(s, p, kept, returned, back), s.parcels[p].order;
      x in AutoStones(billed.(parcels := billed.parcels[p := MemoClosing(billed, p)]), o) <==>
      AnyKept(billed, p) && AliveAgain(s, x, returned, back)
  {
    var o, billed := s.parcels[p].order, MemoBilled(s, p, kept, returned, back);
    MemoBilledKeepsInv(s, p, kept, returned, back);
    StampedStones(s, p, kept, returned, back);
    assert ParcelHolds(s, x) && x !in kept;
    var closed := billed.(parcels := billed.parcels[p := MemoClosing(billed, p)]);
    assert closed.stones[x].parcel == Some(p) && closed.stones[x].order == o;
    assert x in MemoStones(closed, o) <==> closed.parcels[p].kind == Memo;
  }

  // ── Main results ─────────────────────────────────────────────

  /** Recording a memo return: every stone the client keeps is on a posted invoice afterwards;
      and a stone that came back and was not billed becomes so if and only if the round closes
      the parcel into a ready order while that stone is alive on it. */
  lemma MemoReturnBills(s: State, p: nat, kept: set<nat>, returned: set<nat>, back: set<nat>)
    requires Inv(s) && Allowed(s, RecordMemoReturn(p, kept, returned, back))
    ensures
      var t := Step(s, RecordMemoReturn(p, kept, returned, back));
      && (forall x | x in kept :: PostedInvoiced(t, x))
      && (forall x | x in CameBack(s, p, returned) && !AlreadyInvoiced(s, x) ::
            AlreadyInvoiced(t, x) <==>
              ClosesIntoReadyOrder(s, p, kept, returned, back) && AliveAgain(s, x, returned, back))
  {
    var billed, t := MemoBilled(s, p, kept, returned, back), Step(s, RecordMemoReturn(p, kept, returned, back));
    MemoBilledKeepsInv(s, p, kept, returned, back);
    MemoBills(s, p, kept, returned, back);
    ClosingDecided(s, p, kept, returned, back);
    if AnyKept(billed, p) {
      ClosingIsReady(s, p, kept, returned, back);
    }
    var o, closing := s.parcels[p].order, UndecidedStones(billed, p) == {};
    var closed := billed.(parcels := billed.parcels[p := MemoClosing(billed, p)]);
    hide Inv, MemoBilled, InvoiceReady, Synced;
    if closing {
      ParcelWriteLeavesOnlyDraft(billed, p, MemoClosing(billed, p));
    }
    forall x | x in kept
      ensures PostedInvoiced(t, x)
    {
      if closing {
        assert PostedInvoiced(closed, x);
        SyncLeavesPosted(closed, o, x);
      }
    }
    forall x | x in CameBack(s, p, returned) && !AlreadyInvoiced(s, x)
      ensures AlreadyInvoiced(t, x) <==>
          ClosesIntoReadyOrder(s, p, kept, returned, back) && AliveAgain(s, x, returned, back)
    {
      NotYetBilled(s, p, kept, returned, back, x);
      if closing {
        assert !AlreadyInvoiced(closed, x);
        SyncBills(closed, o, x);
        BackOnTheInvoice(s, p, kept, returned, back, x);
      }
    }
  }

  lemma NotYetBilled(s: State, p: nat, kept: set<nat>, returned: set<nat>, back: set<nat>, x: nat)
    requires Inv(s) && Allowed(s, RecordMemoReturn(p, kept, returned, back))
    requires x in CameBack(s, p, returned) && !AlreadyInvoiced(s, x)
    ensures !AlreadyInvoiced(MemoBilled(s, p, kept, returned, back), x)
  {
    var billed := MemoBilled(s, p, kept, returned, back);
    MemoBills(s, p, kept, returned, back);
    assert x !in kept by {
      assert x in kept ==> x in UndecidedStones(s, p);
    }
    NoNewBill(s, billed, x);
  }

  /** So the documented rule, nothing is ever invoiced for a returned stone, holds of a round
      exactly when it does not close the parcel into a ready order or leaves no unbilled stone
      that came back alive. */
  lemma NothingReturnedIsBilledExactlyWhen(s: State, p: nat, kept: set<nat>, returned: set<nat>, back: set<nat>)
    requires Inv(s) && Allowed(s, RecordMemoReturn(p, kept, returned, back))
    ensures
      var t := Step(s, RecordMemoReturn(p, kept, returned, back));
      (forall x | x in CameBack(s, p, returned) && !AlreadyInvoiced(s, x) :: !AlreadyInvoiced(t, x)) <==>
      || !ClosesIntoReadyOrder(s, p, kept, returned, back)
      || (forall x | x in CameBack(s, p, returned) && !AlreadyInvoiced(s, x) :: !AliveAgain(s, x, returned, back))
  {
    hide ClosesIntoReadyOrder, Step, Inv, Allowed, AliveAgain, AlreadyInvoiced, CameBack;
    MemoReturnBills(s, p, kept, returned, back);
  }

  /** Two stones of order 1, in the vault before they went out together on memo parcel 7. */
  function TwoOut(): State {
    var stone := Stone(1, true, false, true, Some(7), Undecided);
    State({1}, map[10 := stone, 11 := stone], map[7 := Parcel(1, Memo, HandedOver)], map[], 0)
  }

  lemma TwoOutMayReturn()
    ensures Inv(TwoOut()) && Allowed(TwoOut(), RecordMemoReturn(7, {10}, {11}, {}))
  {
    assert UndecidedStones(TwoOut(), 7) == {10, 11};
    assert forall i :: i !in TwoOut().invoices;
  }

  /** The client keeps one and the other goes to inspection: the round closes the parcel as a
      sale, and the returned stone is billed. */
  lemma ReturnedStoneIsBilled()
    ensures
      var s := TwoOut();
      && Inv(s) && Allowed(s, RecordMemoReturn(7, {10}, {11}, {}))
      && !AlreadyInvoiced(s, 11) && AlreadyInvoiced(Step(s, RecordMemoReturn(7, {10}, {11}, {})), 11)
  {
    TwoOutMayReturn();
    TwoOutClosesReady();
    hide Step, Allowed, Inv, ClosesIntoReadyOrder;
    MemoReturnBills(TwoOut(), 7, {10}, {11}, {});
    assert 11 in CameBack(TwoOut(), 7, {11}) && AliveAgain(TwoOut(), 11, {11}, {});
  }

  lemma TwoOutClosesReady()
    ensures ClosesIntoReadyOrder(TwoOut(), 7, {10}, {11}, {})
  {
    assert UndecidedStones(TwoOut(), 7) <= {10, 11};
    TwoOutAreSold();
    hide ClosedAsSale, InvoiceReady;
  }

  lemma TwoOutAreSold()
    ensures InvoiceReady(ClosedAsSale(TwoOut(), 7, {10}, {11}, {}), 1)
  {
    TwoOutStamped();
    hide Stamped, InvoiceReady;
    TwoSoldAreReady(ClosedAsSale(TwoOut(), 7, {10}, {11}, {}));
  }

  lemma TwoOutStamped()
    ensures
      var t := Stamped(TwoOut(), {10}, {11}, {});
      t.stones.Keys == {10, 11} && t.confirmed == {1} &&
          forall x | x in t.stones :: t.stones[x] == Stone(1, true, false, true, Some(7), t.stones[x].outcome)
  {
    TwoOutMayReturn();
    StampedStones(TwoOut(), 7, {10}, {11}, {});
    hide Stamped, Allowed, Inv;
  }

  lemma TwoSoldAreReady(s: State)
    requires s.confirmed == {1} && s.stones.Keys == {10, 11} && s.parcels == map[7 := Parcel(1, Sale, MemoClosed)]
    requires forall x | x in s.stones :: s.stones[x] == Stone(1, true, false, true, Some(7), s.stones[x].outcome)
    ensures InvoiceReady(s, 1)
  {
    assert 10 in AutoStones(s, 1);
  }
}
