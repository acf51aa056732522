/** Whole runs of parcels and invoices, and what handing over a parcel bills. */
module InvoicingRuns {
  import opened Basics
  import opened Invoicing

  /** Orders, stones and parcels as they were. */
  ghost predicate SameGoods(s: State, t: State) {
    t.stones == s.stones && t.parcels == s.parcels && t.confirmed == s.confirmed
  }

  lemma BillingLeavesGoods(s: State, o: nat, p: nat, lines: set<nat>)
    ensures SameGoods(s, Prepared(s, o, lines)) && SameGoods(s, TryCreated(s, o))
    ensures SameGoods(s, Withdrawn(s, o)) && SameGoods(s, Synced(s, o))
    ensures SameGoods(s, Narrowed(s, o, p)) && SameGoods(s, PostedDraft(s, o))
  {
  }

  lemma StatusIsQuiet(s: State, xs: set<nat>, dead: bool)
    requires Inv(s)
    ensures Inv(WithStatus(s, xs, dead))
  {
    var t := WithStatus(s, xs, dead);
    ParcelsStillHold(s, t);
    QuietChangeKeepsInv(s, t);
  }

  lemma StampIsQuiet(s: State, kept: set<nat>, returned: set<nat>, back: set<nat>)
    requires Inv(s)
    ensures Inv(Stamped(s, kept, returned, back))
    ensures forall x | x in kept + returned :: !OnApproval(Stamped(s, kept, returned, back), x)
  {
    var t := WithOutcome(WithOutcome(s, kept, Kept), returned, Returned);
    ParcelsStillHold(s, t);
    QuietChangeKeepsInv(s, t);
    StatusIsQuiet(t, kept + returned - back, false);
    StatusIsQuiet(WithStatus(t, kept + returned - back, false), back, true);
  }

  lemma HandOutKeepsInv(s: State, p: nat)
    requires Inv(s) && p in s.parcels && s.parcels[p].state == DraftParcel
    ensures Inv(HandedOut(s, p))
  {
    var o := s.parcels[p].order;
    var tried := TryCreated(s, o);
    var narrowed := Narrowed(tried, o, p);
    TryCreateKeepsInv(s, o);
    NarrowKeepsInv(tried, o, p);
    PostKeepsInv(narrowed, o);
    BillingLeavesGoods(s, o, p, {});
    BillingLeavesGoods(tried, o, p, {});
    BillingLeavesGoods(narrowed, o, p, {});
    var billed := if s.parcels[p].kind == Sale then PostedDraft(narrowed, o) else s;
    ParcelWriteKeepsInv(billed, p, s.parcels[p].(state := HandedOver));
    var gone := WithParcelWritten(billed, p, s.parcels[p].(state := HandedOver));
    StatusIsQuiet(gone, ParcelStones(gone, p), false);
  }

  lemma MemoReturnKeepsInv(s: State, p: nat, kept: set<nat>, returned: set<nat>, back: set<nat>)
    requires Inv(s) && Allowed(s, RecordMemoReturn(p, kept, returned, back))
    ensures Inv(MemoReturned(s, p, kept, returned, back))
  {
    var billed := MemoBilled(s, p, kept, returned, back);
    MemoBilledKeepsInv(s, p, kept, returned, back);
    if UndecidedStones(billed, p) == {} {
      hide Inv, MemoBilled;
      ParcelWriteKeepsInv(billed, p, MemoClosing(billed, p));
    }
  }

  /** Billing what is kept: orders, stones and parcels are as stamped. */
  lemma MemoBilledKeepsInv(s: State, p: nat, kept: set<nat>, returned: set<nat>, back: set<nat>)
    requires Inv(s) && p in s.parcels
    ensures
      var stamped, billed := Stamped(s, kept, returned, back), MemoBilled(s, p, kept, returned, back);
      Inv(stamped) && Inv(billed) && SameGoods(stamped, billed) && stamped.parcels == s.parcels
  {
    var o, stamped := s.parcels[p].order, Stamped(s, kept, returned, back);
    StampIsQuiet(s, kept, returned, back);
    PrepareKeepsInv(stamped, o, kept);
    PostKeepsInv(Prepared(stamped, o, kept), o);
    BillingLeavesGoods(stamped, o, p, kept);
    BillingLeavesGoods(Prepared(stamped, o, kept), o, p, kept);
  }

  lemma CancelParcelKeepsInv(s: State, p: nat)
    requires Inv(s) && p in s.parcels && s.parcels[p].state == DraftParcel
    ensures Inv(Step(s, CancelParcel(p)))
  {
    var o, xs := s.parcels[p].order, ParcelStones(s, p);
    forall x | x in xs
      ensures x in s.stones && s.stones[x].order == o
    {
      assert ParcelHolds(s, x);
    }
    MoveKeepsInv(s, o, xs, None);
    BillingLeavesGoods(WithParcel(s, xs, None), o, p, {});
    ParcelWriteKeepsInv(Moved(s, o, xs, None), p, s.parcels[p].(state := CancelledParcel));
  }

  lemma ReturnKeepsInv(s: State, p: nat)
    requires Inv(s) && Allowed(s, ReturnOfOrder(p))
    ensures Inv(Step(s, ReturnOfOrder(p)))
  {
    StatusIsQuiet(s, ParcelStones(s, p), false);
    ParcelWriteKeepsInv(WithStatus(s, ParcelStones(s, p), false), p, s.parcels[p].(state := HandedOver));
  }

  /** Everything that holds of the books survives every action. */
  lemma StepKeepsInv(s: State, e: Event)
    requires Inv(s) && Allowed(s, e)
    ensures Inv(Step(s, e))
  {
    match e
    case Confirm(_) =>
      ParcelsStillHold(s, Step(s, e));
      QuietChangeKeepsInv(s, Step(s, e));
    case AddStone(x, what) =>
      NewStoneKeepsInv(s, x, what);
    case PutInVault(o, xs) =>
      ParcelsStillHold(s, WithVault(s, xs));
      QuietChangeKeepsInv(s, WithVault(s, xs));
      TryCreateKeepsInv(WithVault(s, xs), o);
    case ChangeStatus(xs, dead) =>
      StatusIsQuiet(s, xs, dead);
    case PostFromOrder(o) =>
      TryCreateKeepsInv(s, o);
      PostKeepsInv(TryCreated(s, o), o);
    case CancelInvoice(i) =>
      if s.invoices[i].state != Cancelled {
        LeaveDraftKeepsInv(s, i, Cancelled);
      } else {
        assert Step(s, e).invoices == s.invoices;
      }
    case CreateParcel(p, o, kind) =>
      NewParcelKeepsInv(s, p, o, kind);
    case MoveStones(o, xs, dest) =>
      MoveKeepsInv(s, o, xs, dest);
    case SwitchKind(p, kind) =>
      ParcelWriteKeepsInv(s, p, s.parcels[p].(kind := kind));
    case HandOver(p) =>
      HandOutKeepsInv(s, p);
    case ConfirmDelivery(p) =>
      ParcelWriteKeepsInv(s, p, s.parcels[p].(state := Delivered));
      StatusIsQuiet(WithParcelWritten(s, p, s.parcels[p].(state := Delivered)), ParcelStones(s, p), false);
    case ReturnOfOrder(p) =>
      ReturnKeepsInv(s, p);
    case CancelParcel(p) =>
      CancelParcelKeepsInv(s, p);
    case RecordMemoReturn(p, kept, returned, back) =>
      MemoReturnKeepsInv(s, p, kept, returned, back);
  }

  lemma NewStoneKeepsInv(s: State, x: nat, what: Stone)
    requires Inv(s) && x !in s.stones && what.parcel == None
    ensures Inv(s.(stones := s.stones[x := what]))
  {
    var t := s.(stones := s.stones[x := what]);
    forall y | y in t.stones
      ensures ParcelHolds(t, y)
    {
      if y != x {
        assert ParcelHolds(s, y);
      }
    }
    QuietChangeKeepsInv(s, t);
  }

  lemma NewParcelKeepsInv(s: State, p: nat, o: nat, kind: ParcelKind)
    requires Inv(s) && p !in s.parcels
    ensures Inv(Step(s, CreateParcel(p, o, kind)))
  {
    var made := s.(parcels := s.parcels[p := Parcel(o, kind, DraftParcel)]);
    ParcelsStillHold(s, made);
    forall x | x in s.stones && OnApproval(made, x)
      ensures OnApproval(s, x)
    {
      assert ParcelHolds(s, x);
    }
    QuietChangeKeepsInv(s, made);
    assert OnlyOnDraftOf(made, o);
    SyncRestores(made, o);
  }

  // ── Runs ─────────────────────────────────────────────────────

  ghost predicate IsRun(s: State, es: seq<Event>)
    decreases |es|
  {
    hide *;
    es == [] || (Allowed(s, es[0]) && IsRun(Step(s, es[0]), es[1..]))
  }

  ghost function After(s: State, es: seq<Event>): State
    requires IsRun(s, es)
    decreases |es|
  {
    hide Step, Allowed;
    if es == [] then s else After(Step(s, es[0]), es[1..])
  }

  const NOTHING := State({}, map[], map[], map[], 0)

  lemma {:induction false} RunKeepsInv(s: State, es: seq<Event>)
    requires Inv(s) && IsRun(s, es)
    ensures Inv(After(s, es))
    decreases |es|
  {
    hide Step, Allowed, Inv;
    if es != [] {
      StepKeepsInv(s, es[0]);
      RunKeepsInv(Step(s, es[0]), es[1..]);
    }
  }

  /** Over any run from an empty system: no stone is ever on two standing invoices, no order
      ever has two open drafts, and a stone out on a memo nobody has decided about is on no
      draft and no posted invoice. */
  lemma NeverBilledTwiceNorOnApproval(es: seq<Event>)
    requires IsRun(NOTHING, es)
    ensures
      var s := After(NOTHING, es);
      && (forall x, i, j | Billed(s, x, i) && Billed(s, x, j) :: i == j)
      && (forall o, i, j | IsOpenDraft(s, o, i) && IsOpenDraft(s, o, j) :: i == j)
      && (forall x, i | Billed(s, x, i) :: !OnApproval(s, x))
  {
    RunKeepsInv(NOTHING, es);
  }

  // ── Handing over a sale parcel ───────────────────────────────

  /** What the order still has to bill sooner or later: live, not out on memo. */
  predicate ToBill(s: State, o: nat, x: nat) {
    x in AutoStones(s, o)
  }

  /** The invoices of s once the order's draft i has been cut down to these stones and
      posted; a draft with none of them is gone. */
  function DraftPostedFor(s: State, i: nat, kept: set<nat>): map<nat, Invoice> {
    if kept == {} then s.invoices - {i} else s.invoices[i := Invoice(Posted, kept)]
  }

  lemma NoDraftOf(s: State, o: nat)
    requires OpenDrafts(s, o) == {}
    ensures forall i :: !IsOpenDraft(s, o, i)
  {
    assert forall i | IsOpenDraft(s, o, i) :: i in OpenDrafts(s, o);
  }

  lemma DraftOf(s: State, o: nat, i: nat)
    requires Core(s) && IsOpenDraft(s, o, i)
    ensures OpenDraft(s, o) == Some(i)
  {
    assert i in OpenDrafts(s, o);
  }

  /** Narrowing then posting: the draft's stones of the parcel are posted, the others come
      off, and the order is left without a draft. */
  lemma NarrowAndPost(s: State, o: nat, p: nat)
    requires Inv(s)
    ensures
      var t, d := PostedDraft(Narrowed(s, o, p), o), OpenDraft(s, o);
      && SameGoods(s, t) && t.nextInvoice == s.nextInvoice
      && t.invoices == (if d == None then s.invoices
          else DraftPostedFor(s, d.value, s.invoices[d.value].stones * ParcelStones(s, p)))
      && OpenDrafts(t, o) == {}
  {
    var d, n := OpenDraft(s, o), Narrowed(s, o, p);
    NarrowKeepsInv(s, o, p);
    if d.Some? {
      var i := d.value;
      var kept := s.invoices[i].stones * ParcelStones(s, p);
      assert s.invoices[i].stones - (s.invoices[i].stones - ParcelStones(s, p)) == kept;
      if kept == {} {
        forall j | IsOpenDraft(n, o, j)
          ensures false
        {
          assert IsOpenDraft(s, o, j);
        }
      } else {
        var x :| x in kept;
        SoundDraftIsOf(s, o, i, x);
        assert IsOpenDraft(n, o, i);
        DraftOf(n, o, i);
        var t := PostedDraft(n, o);
        forall j | IsOpenDraft(t, o, j)
          ensures false
        {
          assert j != i && IsOpenDraft(s, o, j);
        }
      }
    }
  }

  predicate OnDraft(s: State, x: nat) {
    exists i :: i in s.invoices && s.invoices[i].state == Draft && x in s.invoices[i].stones
  }

  /** Trying to create the invoice of a ready order posts nothing and bills all there is to
      bill. */
  lemma TryCreateBills(s: State, o: nat, x: nat)
    requires Inv(s) && InvoiceReady(s, o)
    ensures PostedInvoiced(TryCreated(s, o), x) <==> PostedInvoiced(s, x)
    ensures OnDraft(TryCreated(s, o), x) <==> OnDraft(s, x) || (x in AutoStones(s, o) && !PostedInvoiced(s, x))
    ensures OnDraft(TryCreated(s, o), x) && !OnDraft(s, x) ==> x in s.stones && s.stones[x].order == o
  {
    var t, auto := TryCreated(s, o), AutoStones(s, o);
    assert AlreadyInvoiced(s, x) <==> PostedInvoiced(s, x) || OnDraft(s, x) by {
      if AlreadyInvoiced(s, x) {
        var i :| i in s.invoices && Billed(s, x, i);
      }
      if i :| i in s.invoices && s.invoices[i].state == Posted && x in s.invoices[i].stones {
        assert Billed(s, x, i);
      }
      if i :| i in s.invoices && s.invoices[i].state == Draft && x in s.invoices[i].stones {
        assert Billed(s, x, i);
      }
    }
    assert x in Invoiceable(s, o, auto) <==> x in auto && !AlreadyInvoiced(s, x);
    if Invoiceable(s, o, auto) != {} {
      PreparedInvoices(s, o, auto);
      PreparedBills(s, o, auto);
      var i := Target(s, o);
      PreparedOnDraft(s, t, i, Invoiceable(s, o, auto), x);
    }
  }

  lemma PreparedOnDraft(s: State, t: State, i: nat, adding: set<nat>, x: nat)
    requires t.invoices.Keys == s.invoices.Keys + {i} && t.invoices[i].state == Draft
    requires i in s.invoices ==> s.invoices[i].state == Draft
    requires forall j | j in s.invoices && j != i :: t.invoices[j] == s.invoices[j]
    requires forall y, j :: Billed(t, y, j) <==> Billed(s, y, j) || (y in adding && j == i)
    ensures PostedInvoiced(t, x) <==> PostedInvoiced(s, x)
    ensures OnDraft(t, x) <==> OnDraft(s, x) || x in adding
  {
    forall j | j in t.invoices && t.invoices[j].state == Draft && x in t.invoices[j].stones
      ensures OnDraft(s, x) || x in adding
    {
      assert Billed(t, x, j);
    }
    forall j | j in s.invoices && s.invoices[j].state == Draft && x in s.invoices[j].stones
      ensures OnDraft(t, x)
    {
      assert Billed(s, x, j);
      assert Billed(t, x, j);
    }
    if x in adding {
      assert Billed(t, x, i);
    }
    forall j | j in t.invoices && t.invoices[j].state == Posted && x in t.invoices[j].stones
      ensures PostedInvoiced(s, x)
    {
      assert s.invoices[j] == t.invoices[j];
    }
  }

  /** What narrowing and posting does to one stone of the order. */
  lemma NarrowAndPostBills(s: State, o: nat, p: nat, x: nat)
    requires Inv(s) && x in s.stones
    ensures
      var t := PostedDraft(Narrowed(s, o, p), o);
      && (PostedInvoiced(t, x) <==>
          PostedInvoiced(s, x) || (OnDraft(s, x) && s.stones[x].order == o && x in ParcelStones(s, p)))
      && (OnDraft(t, x) <==> OnDraft(s, x) && s.stones[x].order != o)
  {
    NarrowAndPost(s, o, p);
    var t, d := PostedDraft(Narrowed(s, o, p), o), OpenDraft(s, o);
    forall i | i in s.invoices && s.invoices[i].state == Draft && x in s.invoices[i].stones
      ensures s.stones[x].order == o <==> d == Some(i)
    {
      if s.stones[x].order == o {
        assert IsOpenDraft(s, o, i);
        DraftOf(s, o, i);
      }
      if d == Some(i) {
        SoundDraftIsOf(s, o, i, x);
      }
    }
    if i :| i in s.invoices && s.invoices[i].state == Posted && x in s.invoices[i].stones {
      assert i in t.invoices && t.invoices[i] == s.invoices[i];
    }
    if i :| i in s.invoices && s.invoices[i].state == Draft && x in s.invoices[i].stones {
      if s.stones[x].order == o {
        assert IsOpenDraft(s, o, i);
        DraftOf(s, o, i);
        if x in ParcelStones(s, p) {
          assert x in s.invoices[i].stones * ParcelStones(s, p);
          assert i in t.invoices && t.invoices[i].state == Posted && x in t.invoices[i].stones;
        }
      } else {
        assert i in t.invoices && t.invoices[i] == s.invoices[i];
      }
    }
  }

  /** Once the order has no draft, the sync after a parcel write bills whatever is left. */
  lemma SyncAfterPosting(s: State, p: nat, parcel: Parcel, x: nat)
    requires Inv(s) && p in s.parcels && s.parcels[p].state == DraftParcel && s.parcels[p].kind == Sale
    requires parcel == s.parcels[p].(state := HandedOver)
    requires OpenDrafts(s, parcel.order) == {} && InvoiceReady(s, parcel.order)
    ensures
      var t, o := WithParcelWritten(s, p, parcel), parcel.order;
      && (PostedInvoiced(t, x) <==> PostedInvoiced(s, x))
      && (OnDraft(t, x) <==> OnDraft(s, x) || (x in AutoStones(s, o) && !PostedInvoiced(s, x)))
  {
    var o := parcel.order;
    var written := s.(parcels := s.parcels[p := parcel]);
    ParcelsStillHold(s, written);
    QuietChangeKeepsInv(s, written);
    assert AutoStones(written, o) == AutoStones(s, o);
    NoDraftOf(s, o);
    assert forall i :: IsOpenDraft(written, o, i) <==> IsOpenDraft(s, o, i);
    assert OpenDrafts(written, o) == {};
    assert Withdrawn(written, o) == written;
    TryCreateBills(written, o, x);
  }

  /** Where each stone of the order ends up when a sale parcel of a ready order is handed
      over. */
  lemma HandOverBillsStone(s: State, p: nat, x: nat)
    requires Inv(s) && Allowed(s, HandOver(p)) && s.parcels[p].kind == Sale && InvoiceReady(s, s.parcels[p].order)
    requires x in s.stones
    ensures
      var t, o := Step(s, HandOver(p)), s.parcels[p].order;
      && (PostedInvoiced(t, x) <==>
          PostedInvoiced(s, x) || (x in ParcelStones(s, p) && (OnDraft(s, x) || x in AutoStones(s, o))))
      && (OnDraft(t, x) <==> if s.stones[x].order == o then x in AutoStones(s, o) && !PostedInvoiced(t, x)
          else OnDraft(s, x))
  {
    var o := s.parcels[p].order;
    var tried := TryCreated(s, o);
    var billed := PostedDraft(Narrowed(tried, o, p), o);
    assert ParcelHolds(s, x);
    BillingLeavesGoods(s, o, p, {});
    TryCreateKeepsInv(s, o);
    TryCreateBills(s, o, x);
    NarrowAndPost(tried, o, p);
    NarrowAndPostBills(tried, o, p, x);
    NarrowKeepsInv(tried, o, p);
    PostKeepsInv(Narrowed(tried, o, p), o);
    assert AutoStones(billed, o) == AutoStones(s, o);
    SyncAfterPosting(billed, p, s.parcels[p].(state := HandedOver), x);
    NotBothPostedAndDraft(s, x);
  }

  lemma NotBothPostedAndDraft(s: State, x: nat)
    requires Inv(s)
    ensures !(PostedInvoiced(s, x) && OnDraft(s, x))
    ensures AlreadyInvoiced(s, x) <==> PostedInvoiced(s, x) || OnDraft(s, x)
  {
    if i :| i in s.invoices && s.invoices[i].state == Posted && x in s.invoices[i].stones {
      assert Billed(s, x, i);
    }
    if i :| i in s.invoices && s.invoices[i].state == Draft && x in s.invoices[i].stones {
      assert Billed(s, x, i);
    }
    if AlreadyInvoiced(s, x) {
      var i :| i in s.invoices && Billed(s, x, i);
    }
  }

  /** Handing over a sale parcel of an invoice-ready order: only stones of the parcel are
      newly posted, and all of its stones still to bill are; every stone still to bill is
      then on exactly one standing invoice, the ones that stay behind on the draft; and no
      stone of another order is billed or unbilled by it. */
  lemma HandOverBillsTheParcel(s: State, p: nat)
    requires Inv(s) && Allowed(s, HandOver(p)) && s.parcels[p].kind == Sale && InvoiceReady(s, s.parcels[p].order)
    ensures
      var t, o := Step(s, HandOver(p)), s.parcels[p].order;
      && (forall x | x in s.stones && PostedInvoiced(t, x) && !PostedInvoiced(s, x) :: x in ParcelStones(s, p))
      && (forall x | ToBill(s, o, x) :: if x in ParcelStones(s, p) || PostedInvoiced(s, x) then PostedInvoiced(t, x)
          else OnDraft(t, x))
      && (forall x | ToBill(s, o, x) :: AlreadyInvoiced(t, x) && forall i, j | Billed(t, x, i) && Billed(t, x, j) ::
          i == j)
      && (forall x | x in s.stones && s.stones[x].order != o ::
          (PostedInvoiced(t, x) <==> PostedInvoiced(s, x)) && (OnDraft(t, x) <==> OnDraft(s, x)))
  {
    var t, o := Step(s, HandOver(p)), s.parcels[p].order;
    StepKeepsInv(s, HandOver(p));
    forall x | x in s.stones
      ensures PostedInvoiced(t, x) && !PostedInvoiced(s, x) ==> x in ParcelStones(s, p)
      ensures ToBill(s, o, x) ==> if x in ParcelStones(s, p) || PostedInvoiced(s, x) then PostedInvoiced(t, x)
          else OnDraft(t, x)
      ensures ToBill(s, o, x) ==> AlreadyInvoiced(t, x)
      ensures s.stones[x].order != o ==>
          (PostedInvoiced(t, x) <==> PostedInvoiced(s, x)) && (OnDraft(t, x) <==> OnDraft(s, x))
    {
      HandOverBillsStone(s, p, x);
      NotBothPostedAndDraft(t, x);
      assert ParcelHolds(s, x);
    }
  }

  /** The handover marks every stone of the parcel dispatched, a dead one included. So after
      it every live stone not out on memo is billed exactly when each dead stone the parcel
      carried had been invoiced before it died. */
  lemma HandOverBillsAllUnlessItRevives(s: State, p: nat)
    requires Inv(s) && Allowed(s, HandOver(p)) && s.parcels[p].kind == Sale && InvoiceReady(s, s.parcels[p].order)
    ensures
      var t, o := Step(s, HandOver(p)), s.parcels[p].order;
      (forall x | ToBill(t, o, x) :: AlreadyInvoiced(t, x)) <==>
      (forall x | x in ParcelStones(s, p) && s.stones[x].product && s.stones[x].dead :: AlreadyInvoiced(s, x))
  {
    var t, o := Step(s, HandOver(p)), s.parcels[p].order;
    HandOverStatuses(s, p);
    forall x | x in s.stones
      ensures ToBill(t, o, x) <==>
          ToBill(s, o, x) || (x in ParcelStones(s, p) && s.stones[x].product && s.stones[x].dead)
      ensures ToBill(s, o, x) ==> AlreadyInvoiced(t, x)
      ensures x in ParcelStones(s, p) && s.stones[x].product && s.stones[x].dead ==>
          (AlreadyInvoiced(t, x) <==> AlreadyInvoiced(s, x))
    {
      HandOverBillsStone(s, p, x);
      StepKeepsInv(s, HandOver(p));
      NotBothPostedAndDraft(s, x);
      NotBothPostedAndDraft(t, x);
      assert ParcelHolds(s, x);
    }
    assert t.stones.Keys == s.stones.Keys;
  }

  lemma HandOverStatuses(s: State, p: nat)
    requires Allowed(s, HandOver(p))
    ensures
      var t := Step(s, HandOver(p));
      && t.parcels == s.parcels[p := s.parcels[p].(state := HandedOver)] && t.confirmed == s.confirmed
      && t.stones.Keys == s.stones.Keys
      && forall x | x in s.stones :: t.stones[x] == if x in ParcelStones(s, p) then s.stones[x].(dead := false)
          else s.stones[x]
  {
    var o := s.parcels[p].order;
    var tried := TryCreated(s, o);
    var narrowed := Narrowed(tried, o, p);
    BillingLeavesGoods(s, o, p, {});
    BillingLeavesGoods(tried, o, p, {});
    BillingLeavesGoods(narrowed, o, p, {});
    var billed := if s.parcels[p].kind == Sale then PostedDraft(narrowed, o) else s;
    BillingLeavesGoods(billed.(parcels := billed.parcels[p := s.parcels[p].(state := HandedOver)]), o, p, {});
  }
}
