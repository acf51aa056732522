/** Runs with memo returns: when none of them ever bills a returned stone, what a run has to keep
    away from so that none can be billed, and a run of two events that bills one. */
module ReturnedRuns {
  import opened Basics
  import opened Invoicing
  import opened InvoicingRuns
  import opened MemoReturns
  import opened ReturnedStones

  // ── What a step leaves of the goods ──────────────────────────

  ghost function StonesAfter(s: State, e: Event): map<nat, Stone>
    requires Allowed(s, e)
  {
    match e
    case AddStone(x, what) => s.stones[x := what]
    case PutInVault(_, xs) => WithVault(s, xs).stones
    case ChangeStatus(xs, dead) => WithStatus(s, xs, dead).stones
    case MoveStones(_, xs, dest) => WithParcel(s, xs, dest).stones
    case HandOver(p) => WithStatus(s, ParcelStones(s, p), false).stones
    case ConfirmDelivery(p) => WithStatus(s, ParcelStones(s, p), false).stones
    case ReturnOfOrder(p) => WithStatus(s, ParcelStones(s, p), false).stones
    case CancelParcel(p) => WithParcel(s, ParcelStones(s, p), None).stones
    case RecordMemoReturn(p, kept, returned, back) => Stamped(s, kept, returned, back).stones
    case _ => s.stones
  }

  ghost function ParcelsAfter(s: State, e: Event): map<nat, Parcel>
    requires Allowed(s, e)
  {
    match e
    case CreateParcel(p, o, kind) => s.parcels[p := Parcel(o, kind, DraftParcel)]
    case SwitchKind(p, kind) => s.parcels[p := s.parcels[p].(kind := kind)]
    case HandOver(p) => s.parcels[p := s.parcels[p].(state := HandedOver)]
    case ConfirmDelivery(p) => s.parcels[p := s.parcels[p].(state := Delivered)]
    case ReturnOfOrder(p) => s.parcels[p := s.parcels[p].(state := HandedOver)]
    case CancelParcel(p) => s.parcels[p := s.parcels[p].(state := CancelledParcel)]
    case RecordMemoReturn(p, kept, returned, _) => s.parcels[p := ParcelAfterRound(s, p, kept, returned)]
    case _ => s.parcels
  }

  lemma StepLeavesGoods(s: State, e: Event)
    requires Inv(s) && Allowed(s, e)
    ensures Step(s, e).stones == StonesAfter(s, e) && Step(s, e).parcels == ParcelsAfter(s, e)
    ensures Step(s, e).confirmed == if e.Confirm? then s.confirmed + {e.order} else s.confirmed
  {
    hide TryCreated, Prepared, Withdrawn, Synced, PostedDraft, OpenDraft, InvoiceReady, HandedOut, MemoReturned;
    match e
    case Confirm(_) =>
    case AddStone(_, _) =>
    case PutInVault(o, xs) =>
      BillingLeavesGoods(WithVault(s, xs), o, 0, {});
      assert (forall x | x in xs && x in s.stones :: s.stones[x].inVault) ==> WithVault(s, xs).stones == s.stones;
    case ChangeStatus(_, _) =>
    case PostFromOrder(o) =>
      BillingLeavesGoods(s, o, 0, {});
      BillingLeavesGoods(TryCreated(s, o), o, 0, {});
    case CancelInvoice(_) =>
    case CreateParcel(p, o, kind) =>
      BillingLeavesGoods(WithParcelAs(s, p, Parcel(o, kind, DraftParcel)), o, 0, {});
    case MoveStones(o, xs, dest) =>
      BillingLeavesGoods(WithParcel(s, xs, dest), o, 0, {});
    case SwitchKind(p, kind) =>
      BillingLeavesGoods(WithParcelAs(s, p, s.parcels[p].(kind := kind)), s.parcels[p].order, 0, {});
    case HandOver(p) =>
      HandOverStatuses(s, p);
    case ConfirmDelivery(p) =>
      BillingLeavesGoods(WithParcelAs(s, p, s.parcels[p].(state := Delivered)), s.parcels[p].order, 0, {});
    case ReturnOfOrder(p) =>
      var back := WithStatus(s, ParcelStones(s, p), false);
      BillingLeavesGoods(WithParcelAs(back, p, s.parcels[p].(state := HandedOver)), s.parcels[p].order, 0, {});
    case CancelParcel(p) =>
      var o, xs := s.parcels[p].order, ParcelStones(s, p);
      BillingLeavesGoods(WithParcel(s, xs, None), o, 0, {});
      BillingLeavesGoods(WithParcelAs(Moved(s, o, xs, None), p, s.parcels[p].(state := CancelledParcel)), o, 0, {});
    case RecordMemoReturn(p, kept, returned, back) =>
      RoundLeavesGoods(s, p, kept, returned, back);
  }

  lemma RoundLeavesGoods(s: State, p: nat, kept: set<nat>, returned: set<nat>, back: set<nat>)
    requires Inv(s) && Allowed(s, RecordMemoReturn(p, kept, returned, back))
    ensures
      var t := MemoReturned(s, p, kept, returned, back);
      && t.stones == Stamped(s, kept, returned, back).stones
      && t.parcels == s.parcels[p := ParcelAfterRound(s, p, kept, returned)]
      && t.confirmed == s.confirmed
  {
    var billed := MemoBilled(s, p, kept, returned, back);
    BilledStones(s, p, kept, returned, back);
    ClosingDecided(s, p, kept, returned, back);
    hide MemoBilled, Inv, Stamped;
    BillingLeavesGoods(WithParcelAs(billed, p, MemoClosing(billed, p)), s.parcels[p].order, 0, {});
  }

  // ── Runs in which no returned stone is billed ────────────────

  /** A stone that came back, as soon as the event has happened. */
  predicate ReturnedBy(s: State, e: Event, x: nat) {
    x in s.stones && (s.stones[x].outcome == Returned || (e.RecordMemoReturn? && x in e.returned))
  }

  lemma OutcomesAfter(s: State, e: Event, x: nat)
    requires Inv(s) && Allowed(s, e) && x in s.stones
    ensures x in StonesAfter(s, e) && (StonesAfter(s, e)[x].outcome == Returned <==> ReturnedBy(s, e, x))
    ensures ReturnedBy(s, e, x) ==> !KeptBy(e, x)
  {
    if e.RecordMemoReturn? {
      StampedStones(s, e.parcel, e.kept, e.returned, e.back);
      assert x in e.kept ==> x in UndecidedStones(s, e.parcel);
    }
  }

  /** Nothing is invoiced for a returned stone. */
  ghost predicate NoneReturnedBilled(s: State) {
    forall x | x in s.stones && s.stones[x].outcome == Returned :: !AlreadyInvoiced(s, x)
  }

  /** The event's hook finds a returned stone to bill in an order that is ready. */
  ghost predicate FindsReturned(s: State, e: Event)
    requires Allowed(s, e)
  {
    exists x :: ReturnedBy(s, e, x) && Bills(HookOf(s, e), x)
  }

  lemma JustReturnedWasUnbilled(s: State, e: Event, x: nat)
    requires Inv(s) && NoneReturnedBilled(s) && Allowed(s, e) && ReturnedBy(s, e, x)
    ensures !AlreadyInvoiced(s, x)
  {
    if s.stones[x].outcome != Returned {
      assert x in UndecidedStones(s, e.parcel) && OnApproval(s, x);
    }
  }

  lemma StepBillsNoReturnedExactlyWhen(s: State, e: Event)
    requires Inv(s) && NoneReturnedBilled(s) && Allowed(s, e)
    ensures NoneReturnedBilled(Step(s, e)) <==> !FindsReturned(s, e)
  {
    var t := Step(s, e);
    StepLeavesGoods(s, e);
    forall x | x in s.stones && ReturnedBy(s, e, x)
      ensures x in t.stones && t.stones[x].outcome == Returned && (AlreadyInvoiced(t, x) <==> Bills(HookOf(s, e), x))
    {
      OutcomesAfter(s, e, x);
      JustReturnedWasUnbilled(s, e, x);
      EventBillsExactlyWhen(s, e, x);
    }
    forall x | x in t.stones && t.stones[x].outcome == Returned
      ensures ReturnedBy(s, e, x)
    {
      if x in s.stones {
        OutcomesAfter(s, e, x);
      }
    }
  }

  ghost predicate NoneBilledThroughout(s: State, es: seq<Event>)
    requires IsRun(s, es)
    decreases |es|
  {
    hide Step, Allowed;
    NoneReturnedBilled(s) && (es == [] || NoneBilledThroughout(Step(s, es[0]), es[1..]))
  }

  ghost predicate NeverFindsReturned(s: State, es: seq<Event>)
    requires IsRun(s, es)
    decreases |es|
  {
    hide Step, Allowed;
    es == [] || (!FindsReturned(s, es[0]) && NeverFindsReturned(Step(s, es[0]), es[1..]))
  }

  lemma {:induction false} NoReturnedStoneIsBilledExactlyWhen(s: State, es: seq<Event>)
    requires Inv(s) && NoneReturnedBilled(s) && IsRun(s, es)
    ensures NoneBilledThroughout(s, es) <==> NeverFindsReturned(s, es)
    decreases |es|
  {
    hide Step, Allowed, Inv, NoneReturnedBilled, FindsReturned;
    if es != [] {
      StepKeepsInv(s, es[0]);
      StepBillsNoReturnedExactlyWhen(s, es[0]);
      if NoneReturnedBilled(Step(s, es[0])) {
        NoReturnedStoneIsBilledExactlyWhen(Step(s, es[0]), es[1..]);
      }
    }
  }

  // ── Runs in which none can be ────────────────────────────────

  predicate HasReturned(s: State, x: nat) {
    x in s.stones && s.stones[x].product && s.stones[x].outcome == Returned
  }

  /** Live and not out on memo: the next hook that finds the order ready bills it. */
  predicate Exposed(s: State, x: nat) {
    x in s.stones && s.stones[x].product && !s.stones[x].dead && !OnMemo(s, x)
  }

  ghost predicate AllAtRest(s: State) {
    forall x | HasReturned(s, x) :: !Exposed(s, x)
  }

  predicate LiveMemo(s: State, dest: Option<nat>) {
    && dest.Some? && dest.value in s.parcels && s.parcels[dest.value].kind == Memo
    && s.parcels[dest.value].state != CancelledParcel
  }

  predicate AllDead(s: State, xs: set<nat>) {
    forall x | x in xs && HasReturned(s, x) :: s.stones[x].dead
  }

  predicate NoneReturned(s: State, xs: set<nat>) {
    forall x | x in xs :: !HasReturned(s, x)
  }

  /** What an event has to keep away from: closing a parcel as a sale over a returned stone that
      is alive, reviving one that is not out on memo, and taking a live one off its memo. */
  predicate Careful(s: State, e: Event)
  {
    match e
    case ChangeStatus(xs, dead) => dead || forall x | x in xs && HasReturned(s, x) :: OnMemo(s, x)
    case MoveStones(_, xs, dest) => LiveMemo(s, dest) || AllDead(s, xs)
    case SwitchKind(p, kind) => kind == Memo || AllDead(s, ParcelStones(s, p))
    case HandOver(p) => LiveMemo(s, Some(p)) || NoneReturned(s, ParcelStones(s, p))
    case ConfirmDelivery(p) => LiveMemo(s, Some(p)) || NoneReturned(s, ParcelStones(s, p))
    case ReturnOfOrder(p) => LiveMemo(s, Some(p)) || NoneReturned(s, ParcelStones(s, p))
    case CancelParcel(p) => AllDead(s, ParcelStones(s, p))
    case RecordMemoReturn(p, kept, returned, back) =>
      ClosesAsSale(s, p, kept, returned) ==>
          forall x | x in CameBack(s, p, returned) :: !AliveAgain(s, x, returned, back)
    case _ => true
  }

  /** The stone is left exposed by this event. */
  ghost predicate LeftExposed(s: State, e: Event, x: nat)
    requires Allowed(s, e)
  {
    && x in StonesAfter(s, e) && StonesAfter(s, e)[x].outcome == Returned
    && Exposed(s.(stones := StonesAfter(s, e), parcels := ParcelsAfter(s, e)), x)
  }

  lemma ExposedByStatus(s: State, xs: set<nat>, dead: bool, x: nat)
    requires Inv(s) && AllAtRest(s) && Allowed(s, ChangeStatus(xs, dead))
    ensures LeftExposed(s, ChangeStatus(xs, dead), x) <==> HasReturned(s, x) && !dead && x in xs && !OnMemo(s, x)
  {
    assert HasReturned(s, x) ==> !Exposed(s, x);
  }

  lemma ExposedByMove(s: State, o: nat, xs: set<nat>, dest: Option<nat>, x: nat)
    requires Inv(s) && AllAtRest(s) && Allowed(s, MoveStones(o, xs, dest))
    ensures LeftExposed(s, MoveStones(o, xs, dest), x) <==>
        HasReturned(s, x) && !LiveMemo(s, dest) && x in xs && !s.stones[x].dead
  {
    assert HasReturned(s, x) ==> !Exposed(s, x);
  }

  lemma ExposedBySwitch(s: State, p: nat, kind: ParcelKind, x: nat)
    requires Inv(s) && AllAtRest(s) && Allowed(s, SwitchKind(p, kind))
    ensures LeftExposed(s, SwitchKind(p, kind), x) <==>
      HasReturned(s, x) && kind == Sale && x in ParcelStones(s, p) && !s.stones[x].dead
  {
    assert HasReturned(s, x) ==> !Exposed(s, x);
  }

  lemma ExposedByParcel(s: State, e: Event, x: nat)
    requires Inv(s) && AllAtRest(s) && Allowed(s, e) &&
        (e.HandOver? || e.ConfirmDelivery? || e.ReturnOfOrder? || e.CancelParcel?)
    ensures LeftExposed(s, e, x) <==>
      && HasReturned(s, x) && x in ParcelStones(s, e.parcel)
      && if e.CancelParcel? then !s.stones[x].dead else !LiveMemo(s, Some(e.parcel))
  {
    assert x in s.stones ==> ParcelHolds(s, x);
    assert HasReturned(s, x) ==> !Exposed(s, x);
  }

  lemma ExposedByRound(s: State, p: nat, kept: set<nat>, returned: set<nat>, back: set<nat>, x: nat)
    requires Inv(s) && AllAtRest(s) && Allowed(s, RecordMemoReturn(p, kept, returned, back))
    ensures LeftExposed(s, RecordMemoReturn(p, kept, returned, back), x) <==>
      ClosesAsSale(s, p, kept, returned) && x in CameBack(s, p, returned) && AliveAgain(s, x, returned, back)
  {
    StampedStones(s, p, kept, returned, back);
    assert x in s.stones ==> ParcelHolds(s, x);
    assert HasReturned(s, x) ==> !Exposed(s, x);
    assert forall y | y in kept + returned :: y in UndecidedStones(s, p);
    hide Stamped, Inv, AllAtRest, Closes, AnyKept;
  }

  lemma ExposedByOthers(s: State, e: Event, x: nat)
    requires Inv(s) && AllAtRest(s) && Allowed(s, e)
    requires e.Confirm? || e.AddStone? || e.PutInVault? || e.PostFromOrder? || e.CancelInvoice? || e.CreateParcel?
    ensures !LeftExposed(s, e, x)
  {
    assert x in s.stones ==> ParcelHolds(s, x);
    assert HasReturned(s, x) ==> !Exposed(s, x);
  }

  lemma CarefulLeavesNoneExposed(s: State, e: Event)
    requires Inv(s) && AllAtRest(s) && Allowed(s, e)
    ensures (forall x :: !LeftExposed(s, e, x)) <==> Careful(s, e)
  {
    hide LeftExposed, Inv, AllAtRest, Allowed, ClosesAsSale, AliveAgain, CameBack;
    if e.ChangeStatus? {
      forall x { ExposedByStatus(s, e.xs, e.dead, x); }
    } else if e.MoveStones? {
      forall x { ExposedByMove(s, e.order, e.xs, e.dest, x); }
    } else if e.SwitchKind? {
      forall x { ExposedBySwitch(s, e.parcel, e.kind, x); }
    } else if e.HandOver? || e.ConfirmDelivery? || e.ReturnOfOrder? || e.CancelParcel? {
      forall x { ExposedByParcel(s, e, x); }
    } else if e.RecordMemoReturn? {
      forall x { ExposedByRound(s, e.parcel, e.kept, e.returned, e.back, x); }
    } else {
      forall x { ExposedByOthers(s, e, x); }
    }
  }

  /** From books in which every returned stone is dead or out on memo, an event leaves it so if
      and only if it is careful. */
  lemma StepKeepsAtRestExactlyWhen(s: State, e: Event)
    requires Inv(s) && AllAtRest(s) && Allowed(s, e)
    ensures AllAtRest(Step(s, e)) <==> Careful(s, e)
  {
    var t := Step(s, e);
    StepLeavesGoods(s, e);
    CarefulLeavesNoneExposed(s, e);
    hide Inv, Step, Allowed, Careful, StonesAfter, ParcelsAfter;
    assert forall x :: LeftExposed(s, e, x) <==> x in t.stones && t.stones[x].outcome == Returned && Exposed(t, x);
  }

  /** And then its hook finds no returned stone to bill, however ready the order is. */
  lemma FoundIsLeftExposed(s: State, e: Event, x: nat)
    requires Inv(s) && Allowed(s, e) && ReturnedBy(s, e, x) && Bills(HookOf(s, e), x)
    ensures LeftExposed(s, e, x)
  {
    OutcomesAfter(s, e, x);
    var h := HookOf(s, e);
    assert Exposed(h.books, x);
    HookSeesNoMore(s, e, x);
  }

  lemma HookSeesNoMore(s: State, e: Event, x: nat)
    requires Inv(s) && Allowed(s, e) && HookOf(s, e).OnOrder? && Exposed(HookOf(s, e).books, x)
    ensures Exposed(s.(stones := StonesAfter(s, e), parcels := ParcelsAfter(s, e)), x)
  {
  }

  ghost predicate AllCareful(s: State, es: seq<Event>)
    requires IsRun(s, es)
    decreases |es|
  {
    hide Step, Allowed;
    es == [] || (Careful(s, es[0]) && AllCareful(Step(s, es[0]), es[1..]))
  }

  ghost predicate AtRestThroughout(s: State, es: seq<Event>)
    requires IsRun(s, es)
    decreases |es|
  {
    hide Step, Allowed;
    AllAtRest(s) && (es == [] || AtRestThroughout(Step(s, es[0]), es[1..]))
  }

  /** Over any run: no returned stone is ever live off memo if and only if every event is
      careful; and then none is ever billed. */
  lemma {:induction false} CarefulRunsBillNoReturnedStone(s: State, es: seq<Event>)
    requires Inv(s) && AllAtRest(s) && NoneReturnedBilled(s) && IsRun(s, es)
    ensures AtRestThroughout(s, es) <==> AllCareful(s, es)
    ensures AllCareful(s, es) ==> NoneBilledThroughout(s, es)
    decreases |es|
  {
    hide Step, Allowed, Inv, NoneReturnedBilled, FindsReturned, Careful, AllAtRest;
    if es != [] {
      var e, t := es[0], Step(s, es[0]);
      StepKeepsInv(s, e);
      StepKeepsAtRestExactlyWhen(s, e);
      if AllAtRest(t) {
        StepBillsNoReturnedExactlyWhen(s, e);
        AtRestFindsNone(s, e);
        CarefulRunsBillNoReturnedStone(t, es[1..]);
      }
    }
  }

  lemma AtRestFindsNone(s: State, e: Event)
    requires Inv(s) && Allowed(s, e) && AllAtRest(Step(s, e))
    ensures !FindsReturned(s, e)
  {
    var t := Step(s, e);
    StepLeavesGoods(s, e);
    hide Inv, Step, Allowed, StonesAfter, ParcelsAfter, HookOf, Bills;
    assert forall x :: LeftExposed(s, e, x) ==> HasReturned(t, x) && Exposed(t, x);
    forall x | ReturnedBy(s, e, x)
      ensures !Bills(HookOf(s, e), x)
    {
      if Bills(HookOf(s, e), x) {
        FoundIsLeftExposed(s, e, x);
      }
    }
  }

  /** So from an empty system: a run of careful events never invoices a returned stone. */
  lemma CarefulFromNothing(es: seq<Event>)
    requires IsRun(NOTHING, es) && AllCareful(NOTHING, es)
    ensures NoneBilledThroughout(NOTHING, es)
  {
    CarefulRunsBillNoReturnedStone(NOTHING, es);
  }

  // ── A round that bills nothing, and what comes after it ──────

  /** As two stones out on memo, and a third of the order that is not in the vault yet. */
  function OneOutside(): State {
    TwoOut().(stones := TwoOut().stones[12 := Stone(1, true, false, false, None, Undecided)])
  }

  const ROUND := RecordMemoReturn(7, {10}, {11}, {})

  lemma RoundIsAllowed()
    ensures Inv(OneOutside()) && Allowed(OneOutside(), ROUND) && !AlreadyInvoiced(OneOutside(), 11)
  {
    var s := OneOutside();
    assert UndecidedStones(s, 7) == {10, 11};
    assert forall i :: i !in s.invoices;
    forall x | x in s.stones
      ensures ParcelHolds(s, x)
    {
    }
  }

  function AfterRound(): map<nat, Stone> {
    map[
      10 := Stone(1, true, false, true, Some(7), Kept),
      11 := Stone(1, true, false, true, Some(7), Returned),
      12 := Stone(1, true, false, false, None, Undecided)]
  }

  lemma RoundStamps()
    ensures
      var t := Stamped(OneOutside(), {10}, {11}, {});
      t.stones == AfterRound() && t.parcels == OneOutside().parcels
  {
    RoundIsAllowed();
    StampedStones(OneOutside(), 7, {10}, {11}, {});
    hide Stamped, Inv, Allowed, AlreadyInvoiced;
  }

  lemma RoundClosesAsSale()
    ensures ParcelAfterRound(OneOutside(), 7, {10}, {11}) == Parcel(1, Sale, MemoClosed)
  {
    assert UndecidedStones(OneOutside(), 7) == {10, 11};
  }

  /** The three stones after the round: all of them live, and none out on memo. */
  lemma RoundLeaves()
    ensures Allowed(OneOutside(), ROUND)
    ensures
      var t := Step(OneOutside(), ROUND);
      t.stones == AfterRound() && t.parcels == map[7 := Parcel(1, Sale, MemoClosed)] && t.confirmed == {1}
  {
    RoundIsAllowed();
    RoundStamps();
    RoundClosesAsSale();
    hide MemoReturned, Stamped, ParcelAfterRound, Inv, Allowed, AlreadyInvoiced, AfterRound;
    RoundLeavesGoods(OneOutside(), 7, {10}, {11}, {});
    assert OneOutside().parcels[7 := Parcel(1, Sale, MemoClosed)] == map[7 := Parcel(1, Sale, MemoClosed)];
  }

  lemma UnreadyWhileOutside(s: State)
    requires s.stones == AfterRound() && s.parcels == map[7 := Parcel(1, Sale, MemoClosed)]
    ensures !InvoiceReady(s, 1)
  {
    assert 12 in AutoStones(s, 1);
  }

  lemma RoundFindsOrderUnready()
    requires Allowed(OneOutside(), ROUND)
    ensures !Bills(HookOf(OneOutside(), ROUND), 11) && !ClosesIntoReadyOrder(OneOutside(), 7, {10}, {11}, {})
  {
    var s := OneOutside();
    RoundStamps();
    RoundClosesAsSale();
    hide Stamped, Allowed, InvoiceReady, AutoStones, ParcelAfterRound, AfterRound;
    assert s.parcels[7 := Parcel(1, Sale, MemoClosed)] == map[7 := Parcel(1, Sale, MemoClosed)];
    UnreadyWhileOutside(ClosedAsSale(s, 7, {10}, {11}, {}));
    UnreadyWhileOutside(WithParcelAs(Stamped(s, {10}, {11}, {}), 7, ParcelAfterRound(s, 7, {10}, {11})));
  }

  lemma VaultMakesReady(t: State)
    requires t.stones == AfterRound()
    requires t.parcels == map[7 := Parcel(1, Sale, MemoClosed)] && t.confirmed == {1}
    ensures Allowed(t, PutInVault(1, {12})) && Bills(HookOf(t, PutInVault(1, {12})), 11)
  {
    var stored := WithVault(t, {12});
    assert !t.stones[12].inVault;
    assert 11 in AutoStones(stored, 1);
  }

  /** The round itself bills nothing, the order not being ready; putting the third stone in the
      vault afterwards bills the returned one. */
  lemma ReturnedStoneIsBilledLater()
    ensures
      var s := OneOutside();
      && Inv(s) && Allowed(s, ROUND) && !ClosesIntoReadyOrder(s, 7, {10}, {11}, {})
      && var t := Step(s, ROUND);
      && !AlreadyInvoiced(t, 11) && Allowed(t, PutInVault(1, {12}))
      && var u := Step(t, PutInVault(1, {12}));
      && AlreadyInvoiced(u, 11) && 11 in u.stones && u.stones[11].outcome == Returned
  {
    var s := OneOutside();
    RoundIsAllowed();
    RoundLeaves();
    RoundFindsOrderUnready();
    var t := Step(s, ROUND);
    VaultMakesReady(t);
    StepKeepsInv(s, ROUND);
    hide Inv, Step, Allowed, HookOf, Bills, ClosesIntoReadyOrder, AlreadyInvoiced;
    EventBillsExactlyWhen(s, ROUND, 11);
    EventBillsExactlyWhen(t, PutInVault(1, {12}), 11);
    StepLeavesGoods(t, PutInVault(1, {12}));
    assert StonesAfter(t, PutInVault(1, {12}))[11] == t.stones[11];
  }
}
