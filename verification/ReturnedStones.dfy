/** Which event bills which stone: the invoice hook each event runs, and the order and the goods
    the hook finds, all said before the event. */
module ReturnedStones {
  import opened Basics
  import opened Invoicing
  import opened InvoicingRuns
  import opened MemoReturns

  /** The order whose invoice hook an event runs, and the goods the hook finds. */
  datatype Hook = NoHook | OnOrder(order: nat, books: State)

  function WithParcelAs(s: State, p: nat, parcel: Parcel): State {
    s.(parcels := s.parcels[p := parcel])
  }

  /** The round decides the last stones of the parcel. */
  predicate Closes(s: State, p: nat, kept: set<nat>, returned: set<nat>) {
    UndecidedStones(s, p) <= kept + returned
  }

  /** It closes the parcel as a sale. */
  predicate ClosesAsSale(s: State, p: nat, kept: set<nat>, returned: set<nat>) {
    Closes(s, p, kept, returned) && (kept != {} || AnyKept(s, p))
  }

  /** The parcel as the round leaves it. */
  function ParcelAfterRound(s: State, p: nat, kept: set<nat>, returned: set<nat>): Parcel
    requires p in s.parcels
  {
    if !Closes(s, p, kept, returned) then s.parcels[p]
    else if kept != {} || AnyKept(s, p) then s.parcels[p].(state := MemoClosed, kind := Sale)
    else s.parcels[p].(state := MemoClosed)
  }

  /** What can be said before an event about the hook it will run. */
  ghost function HookOf(s: State, e: Event): Hook
    requires Allowed(s, e)
  {
    match e
    case Confirm(_) => NoHook
    case AddStone(_, _) => NoHook
    case PutInVault(o, xs) =>
      if forall x | x in xs && x in s.stones :: s.stones[x].inVault then NoHook else OnOrder(o, WithVault(s, xs))
    case ChangeStatus(_, _) => NoHook
    case PostFromOrder(o) => OnOrder(o, s)
    case CancelInvoice(_) => NoHook
    case CreateParcel(p, o, kind) =>
      if kind == Memo then OnOrder(o, WithParcelAs(s, p, Parcel(o, kind, DraftParcel))) else NoHook
    case MoveStones(o, xs, dest) => OnOrder(o, WithParcel(s, xs, dest))
    case SwitchKind(p, kind) => OnOrder(s.parcels[p].order, WithParcelAs(s, p, s.parcels[p].(kind := kind)))
    case HandOver(p) => OnOrder(s.parcels[p].order, WithParcelAs(s, p, s.parcels[p].(state := HandedOver)))
    case ConfirmDelivery(p) => OnOrder(s.parcels[p].order, WithParcelAs(s, p, s.parcels[p].(state := Delivered)))
    case ReturnOfOrder(p) =>
      var back := WithStatus(s, ParcelStones(s, p), false);
      if s.parcels[p].state == Delivered
      then OnOrder(s.parcels[p].order, WithParcelAs(back, p, s.parcels[p].(state := HandedOver)))
      else NoHook
    case CancelParcel(p) => OnOrder(s.parcels[p].order, WithParcel(s, ParcelStones(s, p), None))
    case RecordMemoReturn(p, kept, returned, back) =>
      var stamped := Stamped(s, kept, returned, back);
      if Closes(s, p, kept, returned)
      then OnOrder(s.parcels[p].order, WithParcelAs(stamped, p, ParcelAfterRound(s, p, kept, returned)))
      else NoHook
  }

  /** The hook runs on the stone's order, finds it ready, and finds the stone to be billed. */
  predicate Bills(h: Hook, x: nat) {
    h.OnOrder? && InvoiceReady(h.books, h.order) && x in AutoStones(h.books, h.order)
  }

  predicate KeptBy(e: Event, x: nat) {
    e.RecordMemoReturn? && x in e.kept
  }

  // ── Which events bill a stone ────────────────────────────────

  lemma TryBills(s: State, o: nat, x: nat)
    requires Core(s) && !AlreadyInvoiced(s, x)
    ensures AlreadyInvoiced(TryCreated(s, o), x) <==> InvoiceReady(s, o) && x in AutoStones(s, o)
  {
    var t := TryCreated(s, o);
    if InvoiceReady(s, o) {
      PreparedBills(s, o, AutoStones(s, o));
      if x in AutoStones(s, o) {
        assert x in Invoiceable(s, o, AutoStones(s, o));
        assert Billed(t, x, Target(s, o));
      } else {
        NoNewBill(s, t, x);
      }
    }
  }

  lemma SameBillsSameStanding(s: State, t: State, x: nat)
    requires s.invoices == t.invoices
    ensures AlreadyInvoiced(s, x) <==> AlreadyInvoiced(t, x)
  {
    assert forall i :: Billed(s, x, i) <==> Billed(t, x, i);
  }

  lemma StatusBillsNothing(s: State, xs: set<nat>, dead: bool, x: nat)
    ensures AlreadyInvoiced(WithStatus(s, xs, dead), x) <==> AlreadyInvoiced(s, x)
  {
    SameBillsSameStanding(s, WithStatus(s, xs, dead), x);
  }

  lemma PostingBillsNothing(s: State, o: nat, x: nat)
    ensures AlreadyInvoiced(PostedDraft(s, o), x) <==> AlreadyInvoiced(s, x)
  {
    var d, t := OpenDraft(s, o), PostedDraft(s, o);
    if d.Some? {
      PostingBills(s, d.value, {});
      assert forall i :: Billed(s, x, i) <==> Billed(t, x, i);
    }
  }

  lemma NarrowingBillsNothing(s: State, o: nat, p: nat, x: nat)
    requires Core(s) && !AlreadyInvoiced(s, x)
    ensures !AlreadyInvoiced(Narrowed(s, o, p), x)
  {
    var d := OpenDraft(s, o);
    if d.Some? {
      TakeOffKeepsCore(s, d.value, s.invoices[d.value].stones - ParcelStones(s, p));
    }
    NoNewBill(s, Narrowed(s, o, p), x);
  }

  /** The hook takes no stone off the draft that is not on memo. */
  lemma SyncKeepsSold(s: State, o: nat, x: nat)
    requires Core(s) && OnlyOnDraftOf(s, o) && AlreadyInvoiced(s, x) && x !in MemoStones(s, o)
    ensures AlreadyInvoiced(Synced(s, o), x)
  {
    var w, d := Withdrawn(s, o), OpenDraft(s, o);
    var i :| i in s.invoices && Billed(s, x, i);
    if d.Some? {
      TakeOffKeepsCore(s, d.value, s.invoices[d.value].stones * MemoStones(s, o));
    }
    assert Billed(w, x, i);
    WithdrawRestores(s, o);
    PreparedBills(w, o, AutoStones(w, o));
    assert Billed(Synced(s, o), x, i);
  }

  /** A parcel write and its hook. */
  lemma ParcelWriteBills(s: State, p: nat, parcel: Parcel, x: nat)
    requires Inv(s) && p in s.parcels && parcel.order == s.parcels[p].order && !AlreadyInvoiced(s, x)
    requires MaySwitch(s, p, parcel.kind) && (s.parcels[p].state == CancelledParcel ==> parcel.state == CancelledParcel)
    ensures AlreadyInvoiced(WithParcelWritten(s, p, parcel), x) <==>
        Bills(OnOrder(parcel.order, WithParcelAs(s, p, parcel)), x)
  {
    ParcelWriteLeavesOnlyDraft(s, p, parcel);
    SameBillsSameStanding(s, WithParcelAs(s, p, parcel), x);
    SyncBills(WithParcelAs(s, p, parcel), parcel.order, x);
  }

  lemma VaultBills(s: State, o: nat, xs: set<nat>, x: nat)
    requires Inv(s) && Allowed(s, PutInVault(o, xs)) && !AlreadyInvoiced(s, x)
    ensures AlreadyInvoiced(Step(s, PutInVault(o, xs)), x) <==> Bills(HookOf(s, PutInVault(o, xs)), x)
  {
    var stored := WithVault(s, xs);
    ParcelsStillHold(s, stored);
    QuietChangeKeepsInv(s, stored);
    SameBillsSameStanding(s, stored, x);
    TryBills(stored, o, x);
  }

  lemma PostFromOrderBills(s: State, o: nat, x: nat)
    requires Inv(s) && Allowed(s, PostFromOrder(o)) && !AlreadyInvoiced(s, x)
    ensures AlreadyInvoiced(Step(s, PostFromOrder(o)), x) <==> Bills(HookOf(s, PostFromOrder(o)), x)
  {
    TryBills(s, o, x);
    PostingBillsNothing(TryCreated(s, o), o, x);
  }

  lemma NewParcelBills(s: State, p: nat, o: nat, kind: ParcelKind, x: nat)
    requires Inv(s) && Allowed(s, CreateParcel(p, o, kind)) && !AlreadyInvoiced(s, x)
    ensures AlreadyInvoiced(Step(s, CreateParcel(p, o, kind)), x) <==> Bills(HookOf(s, CreateParcel(p, o, kind)), x)
  {
    var made := WithParcelAs(s, p, Parcel(o, kind, DraftParcel));
    ParcelsStillHold(s, made);
    forall y | y in s.stones && OnApproval(made, y)
      ensures OnApproval(s, y)
    {
      assert ParcelHolds(s, y);
    }
    QuietChangeKeepsInv(s, made);
    SameBillsSameStanding(s, made, x);
    assert OnlyOnDraftOf(made, o);
    SyncBills(made, o, x);
  }

  lemma MoveBills(s: State, o: nat, xs: set<nat>, dest: Option<nat>, x: nat)
    requires Inv(s) && Allowed(s, MoveStones(o, xs, dest)) && !AlreadyInvoiced(s, x)
    ensures AlreadyInvoiced(Moved(s, o, xs, dest), x) <==> Bills(OnOrder(o, WithParcel(s, xs, dest)), x)
  {
    MoveLeavesOnlyDraft(s, o, xs, dest);
    SameBillsSameStanding(s, WithParcel(s, xs, dest), x);
    SyncBills(WithParcel(s, xs, dest), o, x);
  }

  /** The draft parcel and the one handed over look the same to the hook. */
  lemma HandingOverMovesNoGoods(s: State, t: State, p: nat)
    requires p in s.parcels && s.parcels[p].state == DraftParcel && SameGoods(s, t)
    ensures
      var o, gone := s.parcels[p].order, WithParcelAs(t, p, s.parcels[p].(state := HandedOver));
      AutoStones(gone, o) == AutoStones(s, o) && (InvoiceReady(gone, o) <==> InvoiceReady(s, o))
  {
    var o, gone := s.parcels[p].order, WithParcelAs(t, p, s.parcels[p].(state := HandedOver));
    assert forall x | x in s.stones :: OnMemo(gone, x) <==> OnMemo(s, x);
    assert AutoStones(gone, o) == AutoStones(s, o);
  }

  lemma HandOverBills(s: State, p: nat, x: nat)
    requires Inv(s) && Allowed(s, HandOver(p)) && x in s.stones && !AlreadyInvoiced(s, x)
    ensures AlreadyInvoiced(Step(s, HandOver(p)), x) <==> Bills(HookOf(s, HandOver(p)), x)
  {
    var o := s.parcels[p].order;
    HandingOverMovesNoGoods(s, s, p);
    if s.parcels[p].kind == Sale && InvoiceReady(s, o) {
      HandOverBillsStone(s, p, x);
      StepKeepsInv(s, HandOver(p));
      hide Inv, Allowed, Step;
      assert ParcelHolds(s, x) by {
        assert Core(s);
      }
      NotBothPostedAndDraft(s, x);
      NotBothPostedAndDraft(Step(s, HandOver(p)), x);
    } else {
      UnreadyHandOverBills(s, p, x);
    }
  }

  lemma UnreadyHandOverBills(s: State, p: nat, x: nat)
    requires Inv(s) && Allowed(s, HandOver(p)) && !AlreadyInvoiced(s, x)
    requires s.parcels[p].kind == Memo || !InvoiceReady(s, s.parcels[p].order)
    ensures AlreadyInvoiced(Step(s, HandOver(p)), x) <==> Bills(HookOf(s, HandOver(p)), x)
  {
    var o, parcel := s.parcels[p].order, s.parcels[p].(state := HandedOver);
    var narrowed := Narrowed(s, o, p);
    var billed := if s.parcels[p].kind == Sale then PostedDraft(narrowed, o) else s;
    NarrowKeepsInv(s, o, p);
    PostKeepsInv(narrowed, o);
    NarrowingBillsNothing(s, o, p, x);
    PostingBillsNothing(narrowed, o, x);
    BillingLeavesGoods(s, o, p, {});
    BillingLeavesGoods(narrowed, o, p, {});
    ParcelWriteBills(billed, p, parcel, x);
    HandingOverMovesNoGoods(s, s, p);
    HandingOverMovesNoGoods(s, billed, p);
    var gone := WithParcelWritten(billed, p, parcel);
    StatusBillsNothing(gone, ParcelStones(gone, p), false, x);
  }

  lemma DeliveryBills(s: State, p: nat, x: nat)
    requires Inv(s) && Allowed(s, ConfirmDelivery(p)) && !AlreadyInvoiced(s, x)
    ensures AlreadyInvoiced(Step(s, ConfirmDelivery(p)), x) <==> Bills(HookOf(s, ConfirmDelivery(p)), x)
  {
    var parcel := s.parcels[p].(state := Delivered);
    ParcelWriteBills(s, p, parcel, x);
    StatusBillsNothing(WithParcelWritten(s, p, parcel), ParcelStones(s, p), false, x);
  }

  lemma ReturnBills(s: State, p: nat, x: nat)
    requires Inv(s) && Allowed(s, ReturnOfOrder(p)) && !AlreadyInvoiced(s, x)
    ensures AlreadyInvoiced(Step(s, ReturnOfOrder(p)), x) <==> Bills(HookOf(s, ReturnOfOrder(p)), x)
  {
    var xs := ParcelStones(s, p);
    var back := WithStatus(s, xs, false);
    StatusIsQuiet(s, xs, false);
    StatusBillsNothing(s, xs, false, x);
    ParcelWriteBills(back, p, s.parcels[p].(state := HandedOver), x);
  }

  lemma CancelParcelBills(s: State, p: nat, x: nat)
    requires Inv(s) && Allowed(s, CancelParcel(p)) && !AlreadyInvoiced(s, x)
    ensures AlreadyInvoiced(Step(s, CancelParcel(p)), x) <==> Bills(HookOf(s, CancelParcel(p)), x)
  {
    var o, xs, parcel := s.parcels[p].order, ParcelStones(s, p), s.parcels[p].(state := CancelledParcel);
    forall y | y in xs
      ensures y in s.stones && s.stones[y].order == o
    {
      assert ParcelHolds(s, y);
    }
    var emptied := Moved(s, o, xs, None);
    MoveKeepsInv(s, o, xs, None);
    MoveBills(s, o, xs, None, x);
    BillingLeavesGoods(WithParcel(s, xs, None), o, p, {});
    EmptyParcelMovesNoGoods(WithParcel(s, xs, None), emptied, p, parcel);
    if AlreadyInvoiced(emptied, x) {
      ParcelWriteLeavesOnlyDraft(emptied, p, parcel);
      SameBillsSameStanding(emptied, WithParcelAs(emptied, p, parcel), x);
      SyncKeepsSold(WithParcelAs(emptied, p, parcel), o, x);
    } else {
      ParcelWriteBills(emptied, p, parcel, x);
    }
  }

  /** Nor does it matter to the hook what becomes of a parcel without stones. */
  lemma EmptyParcelMovesNoGoods(s: State, t: State, p: nat, parcel: Parcel)
    requires SameGoods(s, t) && ParcelStones(s, p) == {}
    ensures
      var gone := WithParcelAs(t, p, parcel);
      && (forall o :: AutoStones(gone, o) == AutoStones(s, o) && (InvoiceReady(gone, o) <==> InvoiceReady(s, o)))
  {
    var gone := WithParcelAs(t, p, parcel);
    forall x | x in s.stones
      ensures OnMemo(gone, x) <==> OnMemo(s, x)
    {
      assert x !in ParcelStones(s, p);
    }
    forall o
      ensures AutoStones(gone, o) == AutoStones(s, o) && (InvoiceReady(gone, o) <==> InvoiceReady(s, o))
    {
      assert AutoStones(gone, o) == AutoStones(s, o);
    }
  }

  lemma SameGoodsSameHook(s: State, t: State, o: nat, x: nat)
    requires s.parcels == t.parcels && s.stones == t.stones && s.confirmed == t.confirmed
    ensures Bills(OnOrder(o, s), x) <==> Bills(OnOrder(o, t), x)
  {
    SameGoodsSameReadiness(s, t, o);
    assert AutoStones(s, o) == AutoStones(t, o);
  }

  lemma RoundBills(s: State, p: nat, kept: set<nat>, returned: set<nat>, back: set<nat>, x: nat)
    requires Inv(s) && Allowed(s, RecordMemoReturn(p, kept, returned, back)) && x !in kept && !AlreadyInvoiced(s, x)
    ensures
      var e := RecordMemoReturn(p, kept, returned, back);
      AlreadyInvoiced(Step(s, e), x) <==> Bills(HookOf(s, e), x)
  {
    var billed, parcel := MemoBilled(s, p, kept, returned, back), ParcelAfterRound(s, p, kept, returned);
    MemoBilledKeepsInv(s, p, kept, returned, back);
    MemoBills(s, p, kept, returned, back);
    NoNewBill(s, billed, x);
    ClosingDecided(s, p, kept, returned, back);
    BilledStones(s, p, kept, returned, back);
    if Closes(s, p, kept, returned) {
      assert MemoClosing(billed, p) == parcel;
      hide MemoBilled, Inv, Stamped, InvoiceReady, AutoStones, AlreadyInvoiced, WithParcelWritten;
      ParcelWriteBills(billed, p, parcel, x);
      var stamped := Stamped(s, kept, returned, back);
      SameGoodsSameHook(WithParcelAs(billed, p, parcel), WithParcelAs(stamped, p, parcel), parcel.order, x);
    }
  }

  /** Whatever happens, a stone that was on no standing invoice and is not kept in a memo return
      comes onto one if and only if the event runs the hook on its order, the order is ready by
      then, and the stone is live and not out on memo. */
  lemma EventBillsExactlyWhen(s: State, e: Event, x: nat)
    requires Inv(s) && Allowed(s, e) && x in s.stones && !AlreadyInvoiced(s, x) && !KeptBy(e, x)
    ensures AlreadyInvoiced(Step(s, e), x) <==> Bills(HookOf(s, e), x)
  {
    hide Inv, InvoiceReady, AutoStones;
    match e
    case Confirm(o) => SameBillsSameStanding(s, Step(s, e), x);
    case AddStone(_, _) => SameBillsSameStanding(s, Step(s, e), x);
    case PutInVault(o, xs) => VaultBills(s, o, xs, x);
    case ChangeStatus(xs, dead) => StatusBillsNothing(s, xs, dead, x);
    case PostFromOrder(o) => PostFromOrderBills(s, o, x);
    case CancelInvoice(i) => NoNewBill(s, Step(s, e), x);
    case CreateParcel(p, o, kind) => NewParcelBills(s, p, o, kind, x);
    case MoveStones(o, xs, dest) => MoveBills(s, o, xs, dest, x);
    case SwitchKind(p, kind) => ParcelWriteBills(s, p, s.parcels[p].(kind := kind), x);
    case HandOver(p) => HandOverBills(s, p, x);
    case ConfirmDelivery(p) => DeliveryBills(s, p, x);
    case ReturnOfOrder(p) => ReturnBills(s, p, x);
    case CancelParcel(p) => CancelParcelBills(s, p, x);
    case RecordMemoReturn(p, kept, returned, back) => RoundBills(s, p, kept, returned, back, x);
  }
}
