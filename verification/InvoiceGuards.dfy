/** When a write is refused, read off the invoices alone: no more is refused than what would put a
    posted stone out on memo or post for a quotation, and what is let through takes effect. */
module InvoiceGuards {
  import opened Basics
  import opened Invoicing
  import opened InvoicingRuns
  import opened MemoReturns
  import opened ReturnedStones
  import opened ReturnedRuns

  /** The stone is on an invoice in this state. */
  ghost predicate OnInvoice(s: State, x: nat, state: InvoiceState) {
    exists i :: i in s.invoices && s.invoices[i].state == state && x in s.invoices[i].stones
  }

  /** Moving stones of an order onto a parcel of it, or off every parcel: refused if and only if
      the parcel is a memo and one of them is on a posted invoice. */
  lemma MoveRefusedExactlyWhen(s: State, o: nat, xs: set<nat>, dest: Option<nat>)
    requires forall x | x in xs :: x in s.stones && s.stones[x].order == o
    requires dest.Some? ==> dest.value in s.parcels && s.parcels[dest.value].order == o
    ensures !Allowed(s, MoveStones(o, xs, dest)) <==>
      dest.Some? && s.parcels[dest.value].kind == Memo && exists x :: x in xs && OnInvoice(s, x, Posted)
  {
    assert forall x :: PostedInvoiced(s, x) <==> OnInvoice(s, x, Posted);
  }

  /** Changing a parcel's type: refused if and only if it becomes a memo and one of its stones is
      on a posted invoice. */
  lemma SwitchRefusedExactlyWhen(s: State, p: nat, kind: ParcelKind)
    requires p in s.parcels
    ensures !Allowed(s, SwitchKind(p, kind)) <==>
      && kind == Memo && s.parcels[p].kind == Sale
      && exists x :: x in s.stones && s.stones[x].parcel == Some(p) && OnInvoice(s, x, Posted)
  {
    assert forall x :: PostedInvoiced(s, x) <==> OnInvoice(s, x, Posted);
    assert forall x :: x in ParcelStones(s, p) <==> x in s.stones && s.stones[x].parcel == Some(p);
  }

  /** A stone on the order's draft may go out on memo, and comes off every standing invoice. */
  lemma DraftedStoneGoesOutOnMemo(s: State, o: nat, xs: set<nat>, p: nat, x: nat)
    requires Inv(s) && Allowed(s, MoveStones(o, xs, Some(p))) && x in xs
    requires s.parcels[p].kind == Memo && s.parcels[p].state != CancelledParcel
    ensures
      var t := Step(s, MoveStones(o, xs, Some(p)));
      && x in t.stones && t.stones[x].parcel == Some(p)
      && forall i | i in t.invoices && x in t.invoices[i].stones :: t.invoices[i].state == Cancelled
  {
    var moved, e := WithParcel(s, xs, Some(p)), MoveStones(o, xs, Some(p));
    MoveLeavesOnlyDraft(s, o, xs, Some(p));
    StepLeavesGoods(s, e);
    SameBillsSameStanding(s, moved, x);
    MemoComesOffDraft(moved, o, x);
    var t := Step(s, e);
    forall i | i in t.invoices && x in t.invoices[i].stones
      ensures t.invoices[i].state == Cancelled
    {
      assert !Billed(t, x, i);
    }
  }

  /** The hook leaves no stone that is out on memo on a standing invoice, unless it was posted. */
  lemma MemoComesOffDraft(s: State, o: nat, x: nat)
    requires Core(s) && OnlyOnDraftOf(s, o) && x in MemoStones(s, o) && !PostedInvoiced(s, x)
    ensures forall i :: !Billed(Synced(s, o), x, i)
  {
    var w, d := Withdrawn(s, o), OpenDraft(s, o);
    WithdrawRestores(s, o);
    BillingLeavesGoods(s, o, 0, {});
    forall i
      ensures !Billed(w, x, i)
    {
      if Billed(s, x, i) {
        assert s.invoices[i].state == Draft && IsOpenDraft(s, o, i);
        DraftOf(s, o, i);
      }
      if d.Some? {
        TakeOffKeepsCore(s, d.value, s.invoices[d.value].stones * MemoStones(s, o));
      }
    }
    assert x !in AutoStones(w, o);
    if InvoiceReady(w, o) {
      PreparedBills(w, o, AutoStones(w, o));
    }
  }

  /** Posting from the order: possible if and only if the order is confirmed and has a draft, or
      is ready with some live stone that is neither out on memo nor on a standing invoice. */
  lemma PostingPossibleExactlyWhen(s: State, o: nat)
    requires Inv(s)
    ensures Allowed(s, PostFromOrder(o)) <==>
      && o in s.confirmed
      && (|| (exists x :: x in s.stones && s.stones[x].order == o && OnInvoice(s, x, Draft))
          || (InvoiceReady(s, o) && exists x ::
              x in AutoStones(s, o) && !OnInvoice(s, x, Draft) && !OnInvoice(s, x, Posted)))
  {
    var t := TryCreated(s, o);
    TryCreateKeepsInv(s, o);
    BillingLeavesGoods(s, o, 0, {});
    DraftOfTheOrder(s, o);
    DraftOfTheOrder(t, o);
    if InvoiceReady(s, o) {
      forall x
        ensures OnInvoice(t, x, Draft) <==>
          OnInvoice(s, x, Draft) || (x in AutoStones(s, o) && !OnInvoice(s, x, Posted))
      {
        TryCreateBills(s, o, x);
        assert OnDraft(s, x) <==> OnInvoice(s, x, Draft);
        assert OnDraft(t, x) <==> OnInvoice(t, x, Draft);
        assert PostedInvoiced(s, x) <==> OnInvoice(s, x, Posted);
      }
    }
  }

  lemma DraftOfTheOrder(s: State, o: nat)
    requires Inv(s)
    ensures OpenDraft(s, o).Some? <==> exists x :: x in s.stones && s.stones[x].order == o && OnInvoice(s, x, Draft)
  {
    if OpenDraft(s, o).Some? {
      var i := OpenDraft(s, o).value;
      var x :| x in s.invoices[i].stones && x in s.stones && s.stones[x].order == o;
      assert OnInvoice(s, x, Draft);
    }
    if x :| x in s.stones && s.stones[x].order == o && OnInvoice(s, x, Draft) {
      var i :| i in s.invoices && s.invoices[i].state == Draft && x in s.invoices[i].stones;
      assert IsOpenDraft(s, o, i) && i in OpenDrafts(s, o);
    }
  }

  /** Handing over a parcel still in draft: refused if and only if it is a sale, its order is a
      quotation, and a stone of it is on a draft. */
  lemma HandOverRefusedExactlyWhen(s: State, p: nat)
    requires Inv(s) && p in s.parcels
    ensures Allowed(s, HandOver(p)) <==>
      && s.parcels[p].state == DraftParcel
      && !(&& s.parcels[p].kind == Sale && s.parcels[p].order !in s.confirmed
           && exists x :: x in s.stones && s.stones[x].parcel == Some(p) && OnInvoice(s, x, Draft))
  {
    var o := s.parcels[p].order;
    if o !in s.confirmed {
      assert TryCreated(s, o) == s;
      NarrowKeepsInv(s, o, p);
      BillingLeavesGoods(s, o, p, {});
      DraftOfTheOrder(Narrowed(s, o, p), o);
      NarrowedDraft(s, o, p);
    }
  }

  lemma NarrowedDraft(s: State, o: nat, p: nat)
    requires Inv(s) && p in s.parcels && s.parcels[p].order == o
    ensures (exists x :: x in s.stones && s.stones[x].order == o && OnInvoice(Narrowed(s, o, p), x, Draft)) <==>
            exists x :: x in s.stones && s.stones[x].parcel == Some(p) && OnInvoice(s, x, Draft)
  {
    var n, d := Narrowed(s, o, p), OpenDraft(s, o);
    if x :| x in s.stones && s.stones[x].order == o && OnInvoice(n, x, Draft) {
      var i :| i in n.invoices && n.invoices[i].state == Draft && x in n.invoices[i].stones;
      assert IsOpenDraft(s, o, i);
      DraftOf(s, o, i);
      assert x in ParcelStones(s, p) && OnInvoice(s, x, Draft);
    }
    if x :| x in s.stones && s.stones[x].parcel == Some(p) && OnInvoice(s, x, Draft) {
      var i :| i in s.invoices && s.invoices[i].state == Draft && x in s.invoices[i].stones;
      assert ParcelHolds(s, x) && IsOpenDraft(s, o, i);
      DraftOf(s, o, i);
      assert x in s.invoices[i].stones - (s.invoices[i].stones - ParcelStones(s, p));
      assert i in n.invoices && OnInvoice(n, x, Draft);
    }
  }

  /** A round of a memo return is accepted if and only if the parcel is a memo that has gone out,
      something is recorded, every stone recorded is one of the parcel's goods nobody has decided
      about, none of them is both kept and returned, only returned ones go straight back, and
      nothing is kept for a quotation. */
  lemma RoundAcceptedExactlyWhen(s: State, p: nat, kept: set<nat>, returned: set<nat>, back: set<nat>)
    requires p in s.parcels
    ensures Allowed(s, RecordMemoReturn(p, kept, returned, back)) <==>
      && s.parcels[p].kind == Memo && s.parcels[p].state in {HandedOver, Delivered}
      && (kept != {} || returned != {})
      && (forall x | x in kept || x in returned ::
            x in s.stones && s.stones[x].product && s.stones[x].parcel == Some(p) && s.stones[x].outcome == Undecided)
      && (forall x | x in kept :: x !in returned)
      && (forall x | x in back :: x in returned)
      && (kept == {} || s.parcels[p].order in s.confirmed)
  {
    assert forall x :: x in kept + returned <==> x in kept || x in returned;
    assert kept + returned != {} <==> kept != {} || returned != {} by {
      if x :| x in kept || x in returned {
        assert x in kept + returned;
      }
    }
  }

  /** The other actions: an order is confirmed, statuses change whenever somebody says so; new stones
      and parcels are new; only stones of the order go to its vault; a parcel that is out is
      delivered or comes back, a draft one is cancelled. */
  lemma OthersRefusedExactlyWhen(s: State, e: Event)
    ensures e.Confirm? || e.ChangeStatus? ==> Allowed(s, e)
    ensures e.AddStone? ==>
      (Allowed(s, e) <==> e.stone !in s.stones && e.what.parcel == None && e.what.outcome == Undecided)
    ensures e.PutInVault? ==>
      (Allowed(s, e) <==> forall x :: x in e.xs ==> x in s.stones && s.stones[x].order == e.order)
    ensures e.CancelInvoice? ==> (Allowed(s, e) <==> e.invoice in s.invoices)
    ensures e.CreateParcel? ==> (Allowed(s, e) <==> e.parcel !in s.parcels)
    ensures e.ConfirmDelivery? ==>
      (Allowed(s, e) <==> e.parcel in s.parcels && s.parcels[e.parcel].state == HandedOver)
    ensures e.ReturnOfOrder? ==>
      (Allowed(s, e) <==> e.parcel in s.parcels && s.parcels[e.parcel].state in {HandedOver, Delivered})
    ensures e.CancelParcel? ==>
      (Allowed(s, e) <==> e.parcel in s.parcels && s.parcels[e.parcel].state == DraftParcel)
  {
  }

  /** A round that leaves nothing of the parcel undecided closes it, as a sale if and only if some
      stone of it was kept, now or before; any other round leaves the parcel as it was. */
  lemma RoundLeavesParcel(s: State, p: nat, kept: set<nat>, returned: set<nat>, back: set<nat>)
    requires Inv(s) && Allowed(s, RecordMemoReturn(p, kept, returned, back))
    ensures
      var t := Step(s, RecordMemoReturn(p, kept, returned, back));
      var anyKept := exists x :: x in t.stones && t.stones[x].parcel == Some(p) && t.stones[x].outcome == Outcome.Kept;
      && p in t.parcels && t.parcels == s.parcels[p := t.parcels[p]]
      && t.parcels[p] ==
           if AnyUndecided(t, p) then s.parcels[p]
           else Parcel(s.parcels[p].order, if anyKept then Sale else Memo, MemoClosed)
  {
    RoundLeavesGoods(s, p, kept, returned, back);
    StampedStones(s, p, kept, returned, back);
    var t := Step(s, RecordMemoReturn(p, kept, returned, back));
    hide Inv, MemoReturned, Stamped;
    assert forall x :: x in kept + returned ==> x in UndecidedStones(s, p);
    ClosesWhenNoneUndecided(s, t, p, kept, returned, back);
  }

  lemma ClosesWhenNoneUndecided(s: State, t: State, p: nat, kept: set<nat>, returned: set<nat>, back: set<nat>)
    requires kept + returned <= UndecidedStones(s, p) && kept !! returned && t.stones.Keys == s.stones.Keys
    requires forall x | x in s.stones ::
      t.stones[x] ==
        if x in kept then s.stones[x].(outcome := Outcome.Kept, dead := false)
        else if x in returned then s.stones[x].(outcome := Outcome.Returned, dead := x in back)
        else s.stones[x]
    ensures AnyUndecided(t, p) <==> !Closes(s, p, kept, returned)
    ensures (exists x :: x in t.stones && t.stones[x].parcel == Some(p) && t.stones[x].outcome == Outcome.Kept) <==>
            kept != {} || AnyKept(s, p)
  {
    assert forall x :: x in UndecidedStones(s, p) <==>
      x in s.stones && s.stones[x].product && s.stones[x].parcel == Some(p) && s.stones[x].outcome == Undecided;
    if AnyUndecided(t, p) {
      var x :| x in t.stones && t.stones[x].product && t.stones[x].parcel == Some(p) &&
          t.stones[x].outcome == Undecided;
      assert x in UndecidedStones(s, p) && x !in kept + returned;
    }
    if !Closes(s, p, kept, returned) {
      var x :| x in UndecidedStones(s, p) && x !in kept + returned;
      assert t.stones[x] == s.stones[x];
    }
    if x :| x in kept {
      assert x in UndecidedStones(s, p) && t.stones[x].outcome == Outcome.Kept;
    }
    if AnyKept(s, p) {
      var x :| x in ParcelStones(s, p) && s.stones[x].outcome == Outcome.Kept;
      assert x !in kept + returned && t.stones[x] == s.stones[x];
    }
  }

  // ── What can become of a parcel ──────────────────────────────

  /** The actions on a parcel, its type apart. */
  predicate OnParcel(e: Event, p: nat) {
    || e == HandOver(p) || e == ConfirmDelivery(p) || e == ReturnOfOrder(p) || e == CancelParcel(p)
    || (e.RecordMemoReturn? && e.parcel == p)
  }

  /** One of them leaves it in this state. */
  ghost predicate ParcelCanBecome(s: State, p: nat, to: ParcelState) {
    exists e :: OnParcel(e, p) && Allowed(s, e) && p in ParcelsAfter(s, e) && ParcelsAfter(s, e)[p].state == to
  }

  ghost predicate AnyUndecided(s: State, p: nat) {
    exists x :: x in s.stones && s.stones[x].product && s.stones[x].parcel == Some(p) &&
        s.stones[x].outcome == Undecided
  }

  ghost predicate ParcelDrawn(s: State, p: nat, to: ParcelState)
    requires p in s.parcels
  {
    var parcel := s.parcels[p];
    match to
    case DraftParcel => false
    case HandedOver =>
      || parcel.state == Delivered
      || (&& parcel.state == DraftParcel
          && (parcel.kind == Sale && parcel.order !in s.confirmed ==>
                forall x | x in s.stones && s.stones[x].parcel == Some(p) :: !OnInvoice(s, x, Draft)))
    case Delivered => parcel.state == HandedOver
    case MemoClosed => parcel.kind == Memo && parcel.state in {HandedOver, Delivered} && AnyUndecided(s, p)
    case CancelledParcel => parcel.state == DraftParcel
  }

  lemma EventIsDrawn(s: State, p: nat, e: Event, to: ParcelState)
    requires Inv(s) && p in s.parcels && s.parcels[p].state != to && OnParcel(e, p)
    requires Allowed(s, e) && ParcelsAfter(s, e)[p].state == to
    ensures ParcelDrawn(s, p, to)
  {
    if e.HandOver? {
      HandOverRefusedExactlyWhen(s, p);
    } else if e.RecordMemoReturn? {
      RoundAcceptedExactlyWhen(s, p, e.kept, e.returned, e.back);
      var x :| x in e.kept || x in e.returned;
      assert AnyUndecided(s, p);
    }
    hide Inv, OnInvoice;
  }

  lemma DrawnHappens(s: State, p: nat, to: ParcelState)
    requires Inv(s) && p in s.parcels && s.parcels[p].state != to && ParcelDrawn(s, p, to)
    ensures ParcelCanBecome(s, p, to)
  {
    if to == MemoClosed {
      AllReturnedCloses(s, p);
    } else {
      HandOverRefusedExactlyWhen(s, p);
      hide Inv, BillsAtHandOver, OnInvoice;
      var e := if to == HandedOver then if s.parcels[p].state == Delivered then ReturnOfOrder(p) else HandOver(p)
        else if to == Delivered then ConfirmDelivery(p)
        else CancelParcel(p);
      assert OnParcel(e, p) && Allowed(s, e) && ParcelsAfter(s, e)[p].state == to;
    }
  }

  /** The state diagram of a parcel: a draft one is handed over or cancelled, one that is out is
      delivered or comes back, and a memo that is out closes while somebody has still to decide
      about a stone of it. */
  lemma ParcelDiagram(s: State, p: nat, to: ParcelState)
    requires Inv(s) && p in s.parcels && s.parcels[p].state != to
    ensures ParcelCanBecome(s, p, to) <==> ParcelDrawn(s, p, to)
    ensures ParcelCanBecome(s, p, to) <==>
      exists e :: OnParcel(e, p) && Allowed(s, e) && p in Step(s, e).parcels && Step(s, e).parcels[p].state == to
  {
    hide Inv, Allowed, ParcelsAfter, Step, ParcelDrawn;
    if ParcelDrawn(s, p, to) {
      DrawnHappens(s, p, to);
    }
    forall e | OnParcel(e, p) && Allowed(s, e)
      ensures Step(s, e).parcels == ParcelsAfter(s, e)
      ensures p in ParcelsAfter(s, e) && ParcelsAfter(s, e)[p].state == to ==> ParcelDrawn(s, p, to)
    {
      StepLeavesGoods(s, e);
      if p in ParcelsAfter(s, e) && ParcelsAfter(s, e)[p].state == to {
        EventIsDrawn(s, p, e, to);
      }
    }
  }

  /** The client sends everything back that is left. */
  lemma AllReturnedCloses(s: State, p: nat)
    requires p in s.parcels && s.parcels[p].kind == Memo && s.parcels[p].state in {HandedOver, Delivered} &&
        AnyUndecided(s, p)
    ensures ParcelCanBecome(s, p, MemoClosed)
  {
    var e := RecordMemoReturn(p, {}, UndecidedStones(s, p), {});
    var x :| x in s.stones && s.stones[x].product && s.stones[x].parcel == Some(p) && s.stones[x].outcome == Undecided;
    assert x in UndecidedStones(s, p);
    RoundAcceptedExactlyWhen(s, p, e.kept, e.returned, e.back);
    assert {} + UndecidedStones(s, p) == UndecidedStones(s, p);
    assert OnParcel(e, p) && ParcelsAfter(s, e)[p].state == MemoClosed;
  }
}
