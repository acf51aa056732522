/** Customer invoices against dispatch parcels: preparing, narrowing, withdrawing and posting
    an order's invoice, and the hooks that re-scope its draft whenever a stone changes parcel
    or a parcel changes type or state. A stone is billed by one invoice line. */
module Invoicing {
  import opened Basics

  datatype ParcelKind = Sale | Memo

  datatype ParcelState = DraftParcel | HandedOver | Delivered | MemoClosed | CancelledParcel

  datatype InvoiceState = Draft | Posted | Cancelled

  /** What the memo return said of a stone. */
  datatype Outcome = Undecided | Kept | Returned

  /** An order line. dead: its status says it will never go out on this order. */
  datatype Stone = Stone(order: nat, product: bool, dead: bool, inVault: bool, parcel: Option<nat>, outcome: Outcome)

  datatype Parcel = Parcel(order: nat, kind: ParcelKind, state: ParcelState)

  datatype Invoice = Invoice(state: InvoiceState, stones: set<nat>)

  /** confirmed: the orders in an invoiceable state. */
  datatype State = State(
    confirmed: set<nat>,
    stones: map<nat, Stone>,
    parcels: map<nat, Parcel>,
    invoices: map<nat, Invoice>,
    nextInvoice: nat)

  // ── Which stones belong on the invoice ───────────────────────

  function LiveStones(s: State, o: nat): set<nat> {
    set x | x in s.stones && s.stones[x].order == o && s.stones[x].product && !s.stones[x].dead
  }

  predicate OnMemo(s: State, x: nat) {
    && x in s.stones && s.stones[x].parcel.Some? && s.stones[x].parcel.value in s.parcels
    && s.parcels[s.stones[x].parcel.value].kind == Memo
    && s.parcels[s.stones[x].parcel.value].state != CancelledParcel
  }

  function MemoStones(s: State, o: nat): set<nat> {
    set x | x in s.stones && s.stones[x].order == o && OnMemo(s, x)
  }

  function AutoStones(s: State, o: nat): set<nat> {
    LiveStones(s, o) - MemoStones(s, o)
  }

  function ParcelStones(s: State, p: nat): set<nat> {
    set x | x in s.stones && s.stones[x].parcel == Some(p)
  }

  /** Every live stone that is not out on memo is in the vault, and there is one. */
  predicate InvoiceReady(s: State, o: nat) {
    o in s.confirmed && AutoStones(s, o) != {} && forall x | x in AutoStones(s, o) :: s.stones[x].inVault
  }

  /** x is on invoice i, and the invoice stands. */
  predicate Billed(s: State, x: nat, i: nat) {
    i in s.invoices && s.invoices[i].state != Cancelled && x in s.invoices[i].stones
  }

  predicate AlreadyInvoiced(s: State, x: nat) {
    exists i :: i in s.invoices && Billed(s, x, i)
  }

  predicate PostedInvoiced(s: State, x: nat) {
    exists i :: i in s.invoices && s.invoices[i].state == Posted && x in s.invoices[i].stones
  }

  predicate IsOpenDraft(s: State, o: nat, i: nat) {
    && i in s.invoices && s.invoices[i].state == Draft
    && exists x :: x in s.invoices[i].stones && x in s.stones && s.stones[x].order == o
  }

  function OpenDrafts(s: State, o: nat): set<nat> {
    set i | i in s.invoices && IsOpenDraft(s, o, i)
  }

  /** The order's draft invoice, if it has one. */
  ghost function OpenDraft(s: State, o: nat): (d: Option<nat>)
    ensures d.Some? ==> IsOpenDraft(s, o, d.value)
    ensures d == None <==> OpenDrafts(s, o) == {}
  {
    if OpenDrafts(s, o) == {} then None else var i :| i in OpenDrafts(s, o); Some(i)
  }

  // ── The building blocks ──────────────────────────────────────

  function SetInvoice(s: State, i: nat, invoice: Invoice): State {
    s.(invoices := s.invoices[i := invoice])
  }

  /** Takes stones off a draft, and the draft away when nothing is left on it. */
  function TakeOff(s: State, i: nat, doomed: set<nat>): State
    requires i in s.invoices
  {
    var kept := s.invoices[i].stones - doomed;
    if kept == {} then s.(invoices := s.invoices - {i}) else SetInvoice(s, i, s.invoices[i].(stones := kept))
  }

  function Invoiceable(s: State, o: nat, lines: set<nat>): set<nat> {
    set x | x in lines && x in LiveStones(s, o) && !AlreadyInvoiced(s, x)
  }

  /** _lgd_prepare_invoice_for_lines on a confirmed order: onto the open draft, or onto a new
      one. */
  ghost function Prepared(s: State, o: nat, lines: set<nat>): State {
    var adding := Invoiceable(s, o, lines);
    if adding == {} then s
    else match OpenDraft(s, o)
      case Some(i) => SetInvoice(s, i, s.invoices[i].(stones := s.invoices[i].stones + adding))
      case None => SetInvoice(s, s.nextInvoice, Invoice(Draft, adding)).(nextInvoice := s.nextInvoice + 1)
  }

  /** _lgd_try_create_invoice. */
  ghost function TryCreated(s: State, o: nat): State {
    if InvoiceReady(s, o) then Prepared(s, o, AutoStones(s, o)) else s
  }

  /** _lgd_withdraw_memo_lines_from_draft. */
  ghost function Withdrawn(s: State, o: nat): State {
    match OpenDraft(s, o)
    case None => s
    case Some(i) =>
      var doomed := s.invoices[i].stones * MemoStones(s, o);
      if doomed == {} then s else TakeOff(s, i, doomed)
  }

  /** _lgd_narrow_draft_to_parcel. */
  ghost function Narrowed(s: State, o: nat, p: nat): State {
    match OpenDraft(s, o)
    case None => s
    case Some(i) => TakeOff(s, i, s.invoices[i].stones - ParcelStones(s, p))
  }

  /** What the write hooks do after a change of parcel, type or state. */
  ghost function Synced(s: State, o: nat): State {
    TryCreated(Withdrawn(s, o), o)
  }

  /** _lgd_post_with_platform_number on the order's draft, on a confirmed order. */
  ghost function PostedDraft(s: State, o: nat): State {
    match OpenDraft(s, o)
    case None => s
    case Some(i) => SetInvoice(s, i, s.invoices[i].(state := Posted))
  }

  function WithParcel(s: State, xs: set<nat>, dest: Option<nat>): State {
    s.(stones := map x | x in s.stones :: if x in xs then s.stones[x].(parcel := dest) else s.stones[x])
  }

  function WithStatus(s: State, xs: set<nat>, dead: bool): State {
    s.(stones := map x | x in s.stones :: if x in xs then s.stones[x].(dead := dead) else s.stones[x])
  }

  function WithVault(s: State, xs: set<nat>): State {
    s.(stones := map x | x in s.stones :: if x in xs then s.stones[x].(inVault := true) else s.stones[x])
  }

  function WithOutcome(s: State, xs: set<nat>, outcome: Outcome): State {
    s.(stones := map x | x in s.stones :: if x in xs then s.stones[x].(outcome := outcome) else s.stones[x])
  }

  // ── The actions ──────────────────────────────────────────────

  datatype Event =
    | Confirm(order: nat)
    | AddStone(stone: nat, what: Stone)
    | PutInVault(order: nat, xs: set<nat>)
    | ChangeStatus(xs: set<nat>, dead: bool)
    | PostFromOrder(order: nat)
    | CancelInvoice(invoice: nat)
    | CreateParcel(parcel: nat, order: nat, kind: ParcelKind)
    | MoveStones(order: nat, xs: set<nat>, dest: Option<nat>)
    | SwitchKind(parcel: nat, kind: ParcelKind)
    | HandOver(parcel: nat)
    | ConfirmDelivery(parcel: nat)
    | ReturnOfOrder(parcel: nat)
    | CancelParcel(parcel: nat)
    | RecordMemoReturn(parcel: nat, kept: set<nat>, returned: set<nat>, back: set<nat>)

  /** The write on the parcel link: refused when a posted stone would go out on memo. */
  predicate MayMove(s: State, xs: set<nat>, dest: Option<nat>) {
    dest.Some? && dest.value in s.parcels && s.parcels[dest.value].kind == Memo ==>
        forall x | x in xs :: !PostedInvoiced(s, x)
  }

  /** The write on the type: refused when a posted stone would go out on memo. */
  predicate MaySwitch(s: State, p: nat, kind: ParcelKind)
    requires p in s.parcels
  {
    kind == Memo && s.parcels[p].kind != Memo ==> forall x | x in ParcelStones(s, p) :: !PostedInvoiced(s, x)
  }

  ghost function Moved(s: State, o: nat, xs: set<nat>, dest: Option<nat>): State {
    Synced(WithParcel(s, xs, dest), o)
  }

  ghost function WithParcelWritten(s: State, p: nat, parcel: Parcel): State {
    Synced(s.(parcels := s.parcels[p := parcel]), parcel.order)
  }

  function UndecidedStones(s: State, p: nat): set<nat> {
    set x | x in ParcelStones(s, p) && s.stones[x].product && s.stones[x].outcome == Undecided
  }

  /** What each action asks for; a refused action changes nothing. Stones are moved only onto
      parcels of their own order, as making and splitting parcels do, and a cancelled parcel
      stays cancelled. */
  ghost predicate Allowed(s: State, e: Event) {
    match e
    case Confirm(_) => true
    case AddStone(x, what) => x !in s.stones && what.parcel == None && what.outcome == Undecided
    case PutInVault(o, xs) => forall x | x in xs :: x in s.stones && s.stones[x].order == o
    case ChangeStatus(_, _) => true
    case PostFromOrder(o) => o in s.confirmed && OpenDraft(TryCreated(s, o), o).Some?
    case CancelInvoice(i) => i in s.invoices
    case CreateParcel(p, _, _) => p !in s.parcels
    case MoveStones(o, xs, dest) =>
      && (forall x | x in xs :: x in s.stones && s.stones[x].order == o)
      && (dest.Some? ==> dest.value in s.parcels && s.parcels[dest.value].order == o)
      && MayMove(s, xs, dest)
    case SwitchKind(p, kind) => p in s.parcels && MaySwitch(s, p, kind)
    case HandOver(p) => p in s.parcels && s.parcels[p].state == DraftParcel &&
        (BillsAtHandOver(s, p) ==> s.parcels[p].order in s.confirmed)
    case ConfirmDelivery(p) => p in s.parcels && s.parcels[p].state == HandedOver
    case ReturnOfOrder(p) => p in s.parcels && (s.parcels[p].state == HandedOver || s.parcels[p].state == Delivered)
    case CancelParcel(p) => p in s.parcels && s.parcels[p].state == DraftParcel
    case RecordMemoReturn(p, kept, returned, back) =>
      && p in s.parcels && s.parcels[p].kind == Memo
      && (s.parcels[p].state == HandedOver || s.parcels[p].state == Delivered)
      && kept + returned != {} && kept + returned <= UndecidedStones(s, p) && kept !! returned && back <= returned
      && (kept != {} ==> s.parcels[p].order in s.confirmed)
  }

  /** A sale parcel with something to post refuses a quotation. */
  ghost predicate BillsAtHandOver(s: State, p: nat)
    requires p in s.parcels
  {
    var o := s.parcels[p].order;
    s.parcels[p].kind == Sale && OpenDraft(Narrowed(TryCreated(s, o), o, p), o).Some?
  }

  /** _lgd_action_hand_over, past its paperwork checks. */
  ghost function HandedOut(s: State, p: nat): State
    requires p in s.parcels
  {
    var o := s.parcels[p].order;
    var billed := if s.parcels[p].kind == Sale then PostedDraft(Narrowed(TryCreated(s, o), o, p), o) else s;
    var gone := WithParcelWritten(billed, p, s.parcels[p].(state := HandedOver));
    WithStatus(gone, ParcelStones(gone, p), false)
  }

  predicate AnyKept(s: State, p: nat) {
    exists x :: x in ParcelStones(s, p) && s.stones[x].outcome == Kept
  }

  /** Stamps the outcomes: what is kept counts as delivered; of what is returned, some goes
      straight back and is dead to the order, the rest is inspected first. */
  function Stamped(s: State, kept: set<nat>, returned: set<nat>, back: set<nat>): State {
    WithStatus(WithStatus(WithOutcome(WithOutcome(s, kept, Kept), returned, Returned), kept + returned - back, false),
        back, true)
  }

  /** The memo return's invoice: what is kept, on the order's draft, posted. */
  ghost function MemoBilled(s: State, p: nat, kept: set<nat>, returned: set<nat>, back: set<nat>): (t: State)
    requires p in s.parcels
    ensures t.parcels == s.parcels
  {
    var o, stamped := s.parcels[p].order, Stamped(s, kept, returned, back);
    if Invoiceable(stamped, o, kept) == {} then stamped else PostedDraft(Prepared(stamped, o, kept), o)
  }

  /** The parcel closed: as a sale if anything was kept. */
  function MemoClosing(s: State, p: nat): Parcel
    requires p in s.parcels
  {
    var closed := s.parcels[p].(state := MemoClosed);
    if AnyKept(s, p) then closed.(kind := Sale) else closed
  }

  /** action_record of the memo return: stamp the outcomes, bill what is kept, and close the
      parcel once nothing is undecided. */
  ghost function MemoReturned(s: State, p: nat, kept: set<nat>, returned: set<nat>, back: set<nat>): State
    requires p in s.parcels
  {
    var billed := MemoBilled(s, p, kept, returned, back);
    if UndecidedStones(billed, p) != {} then billed
    else WithParcelWritten(billed, p, MemoClosing(billed, p))
  }

  ghost function Step(s: State, e: Event): State
    requires Allowed(s, e)
  {
    match e
    case Confirm(o) => s.(confirmed := s.confirmed + {o})
    case AddStone(x, what) => s.(stones := s.stones[x := what])
    case PutInVault(o, xs) =>
      if forall x | x in xs && x in s.stones :: s.stones[x].inVault then s else TryCreated(WithVault(s, xs), o)
    case ChangeStatus(xs, dead) => WithStatus(s, xs, dead)
    case PostFromOrder(o) => PostedDraft(TryCreated(s, o), o)
    case CancelInvoice(i) => SetInvoice(s, i, s.invoices[i].(state := Cancelled))
    case CreateParcel(p, o, kind) =>
      var made := s.(parcels := s.parcels[p := Parcel(o, kind, DraftParcel)]);
      if kind == Memo then Synced(made, o) else made
    case MoveStones(o, xs, dest) => Moved(s, o, xs, dest)
    case SwitchKind(p, kind) => WithParcelWritten(s, p, s.parcels[p].(kind := kind))
    case HandOver(p) => HandedOut(s, p)
    case ConfirmDelivery(p) => WithStatus(WithParcelWritten(s, p, s.parcels[p].(state := Delivered)),
        ParcelStones(s, p), false)
    case ReturnOfOrder(p) =>
      var back := WithStatus(s, ParcelStones(s, p), false);
      if s.parcels[p].state == Delivered then WithParcelWritten(back, p, s.parcels[p].(state := HandedOver)) else back
    case CancelParcel(p) =>
      var emptied := Moved(s, s.parcels[p].order, ParcelStones(s, p), None);
      WithParcelWritten(emptied, p, s.parcels[p].(state := CancelledParcel))
    case RecordMemoReturn(p, kept, returned, back) => MemoReturned(s, p, kept, returned, back)
  }

  // ── What every state keeps ───────────────────────────────────

  ghost predicate InvoiceSound(s: State, i: nat)
    requires i in s.invoices
  {
    && i < s.nextInvoice
    && s.invoices[i].stones <= s.stones.Keys
    && (forall x, y | x in s.invoices[i].stones && y in s.invoices[i].stones :: s.stones[x].order == s.stones[y].order)
    && (s.invoices[i].state == Draft ==> s.invoices[i].stones != {})
  }

  /** No stone is on two standing invoices. */
  ghost predicate BilledOnce(s: State) {
    forall x, i, j | Billed(s, x, i) && Billed(s, x, j) :: i == j
  }

  /** No order has two open drafts. */
  ghost predicate OneOpenDraft(s: State) {
    forall o, i, j | IsOpenDraft(s, o, i) && IsOpenDraft(s, o, j) :: i == j
  }

  ghost predicate ParcelHolds(s: State, x: nat)
    requires x in s.stones
  {
    s.stones[x].parcel.Some? ==>
      s.stones[x].parcel.value in s.parcels && s.parcels[s.stones[x].parcel.value].order == s.stones[x].order
  }

  ghost predicate Core(s: State) {
    && (forall i {:trigger InvoiceSound(s, i)} :: i in s.invoices ==> InvoiceSound(s, i))
    && BilledOnce(s)
    && OneOpenDraft(s)
    && (forall x {:trigger ParcelHolds(s, x)} :: x in s.stones ==> ParcelHolds(s, x))
  }

  /** Out on memo, and its fate not decided yet. */
  predicate OnApproval(s: State, x: nat) {
    OnMemo(s, x) && s.stones[x].outcome == Undecided
  }

  /** A stone out on approval is on no standing invoice. */
  ghost predicate ApprovalUnbilled(s: State) {
    forall x, i {:trigger Billed(s, x, i)} | Billed(s, x, i) :: !OnApproval(s, x)
  }

  ghost predicate Inv(s: State) {
    Core(s) && ApprovalUnbilled(s)
  }

  /** In the middle of a write: a stone out on approval may still be on order o's draft. */
  ghost predicate OnlyOnDraftOf(s: State, o: nat) {
    forall x, i {:trigger Billed(s, x, i)} | Billed(s, x, i) && OnApproval(s, x) ::
      x in s.stones && s.stones[x].order == o && s.invoices[i].state == Draft
  }

  // ── The building blocks keep it ──────────────────────────────

  lemma TakeOffKeepsCore(s: State, i: nat, doomed: set<nat>)
    requires Core(s) && i in s.invoices && s.invoices[i].state == Draft
    ensures
      var t := TakeOff(s, i, doomed);
      && Core(t)
      && (forall x, j :: Billed(t, x, j) <==> Billed(s, x, j) && !(j == i && x in doomed))
  {
    var t := TakeOff(s, i, doomed);
    assert InvoiceSound(s, i);
    var kept := s.invoices[i].stones - doomed;
    assert forall x | x in s.invoices[i].stones :: x in kept || x in doomed;
    forall x, j
      ensures Billed(t, x, j) <==> Billed(s, x, j) && !(j == i && x in doomed)
    {
    }
    forall j | j in t.invoices
      ensures InvoiceSound(t, j)
    {
      assert InvoiceSound(s, j);
    }
    forall x | x in t.stones
      ensures ParcelHolds(t, x)
    {
      assert ParcelHolds(s, x);
    }
    assert forall o, j :: IsOpenDraft(t, o, j) ==> IsOpenDraft(s, o, j);
  }

  /** The draft the stones go onto: the order's own, or a new one. */
  ghost function Target(s: State, o: nat): nat {
    match OpenDraft(s, o)
    case Some(i) => i
    case None => s.nextInvoice
  }

  lemma FreshInvoiceId(s: State)
    requires Core(s)
    ensures forall i | i in s.invoices :: i < s.nextInvoice
  {
    forall i | i in s.invoices
      ensures i < s.nextInvoice
    {
      assert InvoiceSound(s, i);
    }
  }

  lemma SoundDraftIsOf(s: State, o: nat, i: nat, x: nat)
    requires Core(s) && IsOpenDraft(s, o, i) && x in s.invoices[i].stones
    ensures x in s.stones && s.stones[x].order == o
  {
    assert InvoiceSound(s, i);
  }

  /** Preparing bills the invoiceable stones on one draft and touches no other bill. */
  lemma PreparedBills(s: State, o: nat, lines: set<nat>)
    requires Core(s)
    ensures
      var t, adding := Prepared(s, o, lines), Invoiceable(s, o, lines);
      && t.stones == s.stones && t.parcels == s.parcels && t.confirmed == s.confirmed
      && forall x, j :: Billed(t, x, j) <==> Billed(s, x, j) || (x in adding && j == Target(s, o))
  {
    FreshInvoiceId(s);
  }

  lemma PreparedInvoices(s: State, o: nat, lines: set<nat>)
    requires Core(s) && Invoiceable(s, o, lines) != {}
    ensures
      var t, i := Prepared(s, o, lines), Target(s, o);
      && t.invoices.Keys == s.invoices.Keys + {i}
      && (forall j | j in s.invoices && j != i :: t.invoices[j] == s.invoices[j])
      && t.invoices[i].state == Draft && t.invoices[i].stones != {}
      && (forall x | x in t.invoices[i].stones :: x in s.stones && s.stones[x].order == o)
      && i < t.nextInvoice && s.nextInvoice <= t.nextInvoice
      && (i in s.invoices ==> IsOpenDraft(s, o, i))
      && (i !in s.invoices ==> OpenDrafts(s, o) == {})
  {
    FreshInvoiceId(s);
    var d := OpenDraft(s, o);
    if d.Some? {
      forall x | x in s.invoices[d.value].stones
        ensures x in s.stones && s.stones[x].order == o
      {
        SoundDraftIsOf(s, o, d.value, x);
      }
    }
  }

  lemma PrepareKeepsCore(s: State, o: nat, lines: set<nat>)
    requires Core(s)
    ensures Core(Prepared(s, o, lines))
  {
    var t, i := Prepared(s, o, lines), Target(s, o);
    if Invoiceable(s, o, lines) != {} {
      PreparedBills(s, o, lines);
      PreparedInvoices(s, o, lines);
      forall j | j in t.invoices
        ensures InvoiceSound(t, j)
      {
        if j != i {
          assert InvoiceSound(s, j);
        }
      }
      forall x | x in t.stones
        ensures ParcelHolds(t, x)
      {
        assert ParcelHolds(s, x);
      }
      forall o', j | IsOpenDraft(t, o', j)
        ensures if j == i then o' == o else IsOpenDraft(s, o', j)
      {
      }
      PreparedDrafts(s, t, o, i);
      assert BilledOnce(t);
    }
  }

  lemma PreparedDrafts(s: State, t: State, o: nat, i: nat)
    requires OneOpenDraft(s)
    requires forall o', j | IsOpenDraft(t, o', j) :: if j == i then o' == o else IsOpenDraft(s, o', j)
    requires IsOpenDraft(s, o, i) || OpenDrafts(s, o) == {}
    ensures OneOpenDraft(t)
  {
    assert forall j | IsOpenDraft(s, o, j) :: j in OpenDrafts(s, o);
    forall o', j, k | IsOpenDraft(t, o', j) && IsOpenDraft(t, o', k)
      ensures j == k
    {
    }
  }

  lemma PrepareKeepsInv(s: State, o: nat, lines: set<nat>)
    requires Inv(s) && forall x | x in lines :: !OnApproval(s, x)
    ensures Inv(Prepared(s, o, lines))
  {
    PrepareKeepsCore(s, o, lines);
    PreparedBills(s, o, lines);
  }

  lemma TryCreateKeepsInv(s: State, o: nat)
    requires Inv(s)
    ensures Inv(TryCreated(s, o))
  {
    if InvoiceReady(s, o) {
      PrepareKeepsInv(s, o, AutoStones(s, o));
    }
  }

  /** Withdrawing takes every stone out on approval off the order's draft. */
  lemma WithdrawRestores(s: State, o: nat)
    requires Core(s) && OnlyOnDraftOf(s, o)
    ensures Inv(Withdrawn(s, o))
  {
    var t := Withdrawn(s, o);
    var d := OpenDraft(s, o);
    forall x, i | Billed(s, x, i) && OnApproval(s, x)
      ensures d == Some(i) && x in s.invoices[i].stones * MemoStones(s, o)
    {
      assert IsOpenDraft(s, o, i);
      assert i in OpenDrafts(s, o);
    }
    if d.Some? {
      var doomed := s.invoices[d.value].stones * MemoStones(s, o);
      if doomed != {} {
        TakeOffKeepsCore(s, d.value, doomed);
      }
    }
  }

  lemma SyncRestores(s: State, o: nat)
    requires Core(s) && OnlyOnDraftOf(s, o)
    ensures Inv(Synced(s, o))
  {
    WithdrawRestores(s, o);
    TryCreateKeepsInv(Withdrawn(s, o), o);
  }

  lemma NarrowKeepsInv(s: State, o: nat, p: nat)
    requires Inv(s)
    ensures Inv(Narrowed(s, o, p))
  {
    var d := OpenDraft(s, o);
    if d.Some? {
      TakeOffKeepsCore(s, d.value, s.invoices[d.value].stones - ParcelStones(s, p));
    }
  }

  /** A change of one invoice's state, off draft. */
  lemma LeaveDraftKeepsInv(s: State, i: nat, state: InvoiceState)
    requires Inv(s) && i in s.invoices && state != Draft && s.invoices[i].state != Cancelled
    ensures Inv(SetInvoice(s, i, s.invoices[i].(state := state)))
  {
    var t := SetInvoice(s, i, s.invoices[i].(state := state));
    forall j | j in t.invoices
      ensures InvoiceSound(t, j)
    {
      assert InvoiceSound(s, j);
    }
    forall x | x in t.stones
      ensures ParcelHolds(t, x)
    {
      assert ParcelHolds(s, x);
    }
    assert forall x, j :: Billed(t, x, j) ==> Billed(s, x, j);
    assert forall o, j :: IsOpenDraft(t, o, j) ==> IsOpenDraft(s, o, j);
  }

  lemma PostKeepsInv(s: State, o: nat)
    requires Inv(s)
    ensures Inv(PostedDraft(s, o))
  {
    var d := OpenDraft(s, o);
    if d.Some? {
      LeaveDraftKeepsInv(s, d.value, Posted);
    }
  }

  // ── Changes to stones and parcels ────────────────────────────

  /** The same invoices, the same orders of stones, more stones perhaps. */
  ghost predicate SameBooks(s: State, t: State) {
    && t.invoices == s.invoices && t.nextInvoice == s.nextInvoice
    && s.stones.Keys <= t.stones.Keys
    && (forall x | x in s.stones :: t.stones[x].order == s.stones[x].order)
    && (forall x | x in t.stones :: ParcelHolds(t, x))
  }

  lemma SameBooksKeepCore(s: State, t: State)
    requires Core(s) && SameBooks(s, t)
    ensures Core(t) && forall x, i :: Billed(t, x, i) <==> Billed(s, x, i)
  {
    assert forall x, i :: Billed(t, x, i) <==> Billed(s, x, i);
    forall i | i in t.invoices
      ensures InvoiceSound(t, i)
    {
      assert InvoiceSound(s, i);
    }
    forall o, i | IsOpenDraft(t, o, i)
      ensures IsOpenDraft(s, o, i)
    {
      assert InvoiceSound(s, i);
    }
    assert BilledOnce(t) by {
      forall x, i, j | Billed(t, x, i) && Billed(t, x, j)
        ensures i == j
      {
        assert Billed(s, x, i) && Billed(s, x, j);
      }
    }
  }

  /** Changing what cannot put a billed stone out on approval. */
  lemma QuietChangeKeepsInv(s: State, t: State)
    requires Inv(s) && SameBooks(s, t)
    requires forall x | x in s.stones && OnApproval(t, x) :: OnApproval(s, x)
    ensures Inv(t)
  {
    SameBooksKeepCore(s, t);
    forall x, i | Billed(t, x, i)
      ensures !OnApproval(t, x)
    {
      assert Billed(s, x, i) && InvoiceSound(s, i);
    }
  }

  /** Changing what may put stones of one order out on approval, none of them posted. */
  lemma MovedOntoApproval(s: State, t: State, o: nat)
    requires Inv(s) && SameBooks(s, t)
    requires forall x | x in s.stones && OnApproval(t, x) && !OnApproval(s, x) ::
        s.stones[x].order == o && !PostedInvoiced(s, x)
    ensures Core(t) && OnlyOnDraftOf(t, o)
  {
    SameBooksKeepCore(s, t);
    forall x, i | Billed(t, x, i) && OnApproval(t, x)
      ensures x in t.stones && t.stones[x].order == o && t.invoices[i].state == Draft
    {
      assert Billed(s, x, i) && InvoiceSound(s, i);
    }
  }

  lemma ParcelsStillHold(s: State, t: State)
    requires Core(s) && s.parcels.Keys <= t.parcels.Keys && t.stones.Keys == s.stones.Keys
    requires forall p | p in s.parcels :: t.parcels[p].order == s.parcels[p].order
    requires forall x | x in s.stones ::
        t.stones[x].order == s.stones[x].order && t.stones[x].parcel == s.stones[x].parcel
    ensures forall x | x in t.stones :: ParcelHolds(t, x)
  {
    forall x | x in t.stones
      ensures ParcelHolds(t, x)
    {
      assert ParcelHolds(s, x);
    }
  }

  lemma MoveLeavesOnlyDraft(s: State, o: nat, xs: set<nat>, dest: Option<nat>)
    requires Inv(s) && Allowed(s, MoveStones(o, xs, dest))
    ensures Core(WithParcel(s, xs, dest)) && OnlyOnDraftOf(WithParcel(s, xs, dest), o)
  {
    var t := WithParcel(s, xs, dest);
    forall x | x in t.stones
      ensures ParcelHolds(t, x)
    {
      assert ParcelHolds(s, x);
    }
    MovedOntoApproval(s, t, o);
  }

  lemma ParcelWriteLeavesOnlyDraft(s: State, p: nat, parcel: Parcel)
    requires Inv(s) && p in s.parcels && parcel.order == s.parcels[p].order
    requires parcel.kind == Memo && s.parcels[p].kind == Sale ==>
        forall x | x in ParcelStones(s, p) :: !PostedInvoiced(s, x)
    requires s.parcels[p].state == CancelledParcel ==> parcel.state == CancelledParcel
    ensures
      var t := s.(parcels := s.parcels[p := parcel]);
      Core(t) && OnlyOnDraftOf(t, parcel.order)
  {
    var t := s.(parcels := s.parcels[p := parcel]);
    ParcelsStillHold(s, t);
    forall x | x in s.stones && OnApproval(t, x) && !OnApproval(s, x)
      ensures s.stones[x].order == parcel.order && !PostedInvoiced(s, x)
    {
      assert ParcelHolds(s, x);
      assert x in ParcelStones(s, p);
    }
    MovedOntoApproval(s, t, parcel.order);
  }

  lemma MoveKeepsInv(s: State, o: nat, xs: set<nat>, dest: Option<nat>)
    requires Inv(s) && Allowed(s, MoveStones(o, xs, dest))
    ensures Inv(Moved(s, o, xs, dest))
  {
    MoveLeavesOnlyDraft(s, o, xs, dest);
    SyncRestores(WithParcel(s, xs, dest), o);
  }

  lemma ParcelWriteKeepsInv(s: State, p: nat, parcel: Parcel)
    requires Inv(s) && p in s.parcels && parcel.order == s.parcels[p].order
    requires parcel.kind == Memo && s.parcels[p].kind == Sale ==>
        forall x | x in ParcelStones(s, p) :: !PostedInvoiced(s, x)
    requires s.parcels[p].state == CancelledParcel ==> parcel.state == CancelledParcel
    ensures Inv(WithParcelWritten(s, p, parcel))
  {
    ParcelWriteLeavesOnlyDraft(s, p, parcel);
    SyncRestores(s.(parcels := s.parcels[p := parcel]), parcel.order);
  }
}
