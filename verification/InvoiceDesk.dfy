/** The invoicing actions as the program runs them: fields written in place, the hooks run
    after the write, proved to do what the functions of Invoicing say. */
module InvoiceDesk {
  import opened Basics
  import opened Invoicing
  import opened InvoicingRuns

  class Desk {
    var confirmed: set<nat>
    var stones: map<nat, Stone>
    var parcels: map<nat, Parcel>
    var invoices: map<nat, Invoice>
    var nextInvoice: nat

    function Contents(): State
      reads this
    {
      State(confirmed, stones, parcels, invoices, nextInvoice)
    }

    constructor (s: State)
      ensures Contents() == s
    {
      confirmed, stones, parcels, invoices, nextInvoice := s.confirmed, s.stones, s.parcels, s.invoices, s.nextInvoice;
    }

    /** _lgd_open_draft_invoice. */
    method OpenDraftInvoice(o: nat) returns (d: Option<nat>)
      requires Core(Contents())
      ensures d == OpenDraft(Contents(), o)
    {
      var s := Contents();
      var todo := invoices.Keys;
      while todo != {}
        invariant todo <= invoices.Keys
        invariant forall i | i in invoices && i !in todo :: !IsOpenDraft(s, o, i)
        decreases todo
      {
        var i :| i in todo;
        todo := todo - {i};
        var billed := set x | x in invoices[i].stones && x in stones && stones[x].order == o;
        if invoices[i].state == Draft && billed != {} {
          var x :| x in billed;
          DraftOf(s, o, i);
          return Some(i);
        }
        assert forall x | x in invoices[i].stones && x in stones && stones[x].order == o :: x in billed;
      }
      return None;
    }

    /** _lgd_prepare_invoice_for_lines: refused for a quotation. */
    method PrepareInvoiceForLines(o: nat, lines: set<nat>) returns (prepared: bool)
      requires Core(Contents())
      modifies this
      ensures prepared <==> o in old(confirmed)
      ensures Contents() == if prepared then Prepared(old(Contents()), o, lines) else old(Contents())
    {
      if o !in confirmed {
        return false;
      }
      var s := Contents();
      var adding, todo := {}, lines;
      while todo != {}
        invariant todo <= lines
        invariant adding == set x | x in lines && x !in todo && x in LiveStones(s, o) && !AlreadyInvoiced(s, x)
        decreases todo
      {
        var x :| x in todo;
        if x in LiveStones(s, o) && !AlreadyInvoiced(s, x) {
          adding := adding + {x};
        }
        todo := todo - {x};
      }
      assert adding == Invoiceable(s, o, lines);
      if adding == {} {
        return true;
      }
      var draft := OpenDraftInvoice(o);
      match draft {
        case Some(i) =>
          invoices := invoices[i := invoices[i].(stones := invoices[i].stones + adding)];
        case None =>
          invoices := invoices[nextInvoice := Invoice(Draft, adding)];
          nextInvoice := nextInvoice + 1;
      }
      return true;
    }

    /** _lgd_try_create_invoice. */
    method TryCreateInvoice(o: nat)
      requires Core(Contents())
      modifies this
      ensures Contents() == TryCreated(old(Contents()), o)
    {
      if InvoiceReady(Contents(), o) {
        var prepared := PrepareInvoiceForLines(o, AutoStones(Contents(), o));
      }
    }

    method TakeOffDraft(i: nat, doomed: set<nat>)
      requires i in invoices
      modifies this`invoices
      ensures Contents() == TakeOff(old(Contents()), i, doomed)
    {
      var kept := invoices[i].stones - doomed;
      if kept == {} {
        invoices := invoices - {i};
      } else {
        invoices := invoices[i := invoices[i].(stones := kept)];
      }
    }

    /** _lgd_narrow_draft_to_parcel. */
    method NarrowDraftToParcel(o: nat, p: nat)
      requires Core(Contents())
      modifies this`invoices
      ensures Contents() == Narrowed(old(Contents()), o, p)
    {
      var draft := OpenDraftInvoice(o);
      if draft.Some? {
        TakeOffDraft(draft.value, invoices[draft.value].stones - ParcelStones(Contents(), p));
      }
    }

    /** _lgd_withdraw_memo_lines_from_draft. */
    method WithdrawMemoLinesFromDraft(o: nat)
      requires Core(Contents())
      modifies this`invoices
      ensures Contents() == Withdrawn(old(Contents()), o)
    {
      var draft := OpenDraftInvoice(o);
      if draft.Some? {
        var doomed := invoices[draft.value].stones * MemoStones(Contents(), o);
        if doomed != {} {
          TakeOffDraft(draft.value, doomed);
        }
      }
    }

    /** _lgd_post_with_platform_number, on the order's draft: refused for a quotation. */
    method PostDraft(o: nat) returns (posted: bool)
      requires Core(Contents())
      modifies this`invoices
      ensures posted <==> OpenDraft(old(Contents()), o) == None || o in confirmed
      ensures Contents() == if posted then PostedDraft(old(Contents()), o) else old(Contents())
    {
      var draft := OpenDraftInvoice(o);
      match draft {
        case None => return true;
        case Some(i) =>
          if o !in confirmed {
            return false;
          }
          invoices := invoices[i := invoices[i].(state := Posted)];
          return true;
      }
    }

    /** The hooks: withdraw first, then try to create. */
    method SyncInvoiceScope(o: nat)
      requires Core(Contents()) && OnlyOnDraftOf(Contents(), o)
      modifies this
      ensures Contents() == Synced(old(Contents()), o)
    {
      WithdrawRestores(Contents(), o);
      WithdrawMemoLinesFromDraft(o);
      TryCreateInvoice(o);
    }

    /** The write on the stones' parcel link. */
    method MoveToParcel(o: nat, xs: set<nat>, dest: Option<nat>) returns (moved: bool)
      requires Inv(Contents())
      requires forall x | x in xs :: x in stones && stones[x].order == o
      requires dest.Some? ==> dest.value in parcels && parcels[dest.value].order == o
      modifies this
      ensures moved <==> Allowed(old(Contents()), MoveStones(o, xs, dest))
      ensures !moved <==>
        && dest.Some? && old(parcels)[dest.value].kind == Memo
        && exists x, i :: x in xs && i in old(invoices) && old(invoices)[i].state == Posted &&
            x in old(invoices)[i].stones
      ensures Contents() == if moved then Step(old(Contents()), MoveStones(o, xs, dest)) else old(Contents())
    {
      if !MayMove(Contents(), xs, dest) {
        return false;
      }
      ghost var s := Contents();
      MoveLeavesOnlyDraft(s, o, xs, dest);
      stones := map x | x in stones :: if x in xs then stones[x].(parcel := dest) else stones[x];
      SyncInvoiceScope(o);
      return true;
    }

    /** The write on a parcel's type or state, after its guard. */
    method WriteParcel(p: nat, parcel: Parcel)
      requires Inv(Contents()) && p in parcels && parcel.order == parcels[p].order
      requires parcel.kind == Memo && parcels[p].kind == Sale ==>
          forall x | x in ParcelStones(Contents(), p) :: !PostedInvoiced(Contents(), x)
      requires parcels[p].state == CancelledParcel ==> parcel.state == CancelledParcel
      modifies this
      ensures Contents() == WithParcelWritten(old(Contents()), p, parcel)
    {
      ParcelWriteLeavesOnlyDraft(Contents(), p, parcel);
      parcels := parcels[p := parcel];
      SyncInvoiceScope(parcel.order);
    }

    /** The billing half of a handover. */
    method BillParcel(o: nat, p: nat) returns (billed: bool)
      requires Inv(Contents())
      modifies this
      ensures Inv(Contents()) && SameGoods(old(Contents()), Contents())
      ensures billed <==> OpenDraft(Narrowed(TryCreated(old(Contents()), o), o, p), o) == None || o in confirmed
      ensures billed ==> Contents() == PostedDraft(Narrowed(TryCreated(old(Contents()), o), o, p), o)
    {
      ghost var s := Contents();
      TryCreateKeepsInv(s, o);
      BillingLeavesGoods(s, o, p, {});
      TryCreateInvoice(o);
      NarrowKeepsInv(Contents(), o, p);
      BillingLeavesGoods(Contents(), o, p, {});
      NarrowDraftToParcel(o, p);
      PostKeepsInv(Contents(), o);
      BillingLeavesGoods(Contents(), o, p, {});
      billed := PostDraft(o);
    }

    /** _lgd_action_hand_over, past its paperwork checks: all of it or nothing. */
    method HandOver(p: nat) returns (done: bool)
      requires Inv(Contents()) && p in parcels
      modifies this
      ensures done <==> Allowed(old(Contents()), Event.HandOver(p))
      ensures Contents() == if done then Step(old(Contents()), Event.HandOver(p)) else old(Contents())
    {
      hide Inv, Core, Prepared, Withdrawn, Narrowed, TryCreated, PostedDraft, OpenDraft;
      var s := Contents();
      if parcels[p].state != DraftParcel {
        return false;
      }
      if parcels[p].kind == Sale {
        var billed := BillParcel(parcels[p].order, p);
        if !billed {
          confirmed, stones, parcels, invoices, nextInvoice := s.confirmed, s.stones, s.parcels, s.invoices,
              s.nextInvoice;
          return false;
        }
      }
      WriteParcel(p, parcels[p].(state := HandedOver));
      stones := map x | x in stones :: if x in ParcelStones(Contents(), p) then stones[x].(dead := false)
          else stones[x];
      return true;
    }
  }
}
