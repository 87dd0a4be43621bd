/** The cash drawer: the summary derives its content from history; these lemmas
    compare it with the cash that actually went in and out. */
module ShopCash {
  import opened Prelude
  import opened Rounding
  import opened Sums
  import opened Payments
  import opened Shop

  /** Orders and movements refer to shifts that exist. */
  predicate WellFormed(s: Shop) {
    && (forall i :: 0 <= i < |s.orders| ==> s.orders[i].shift < |s.shifts|)
    && (forall i :: 0 <= i < |s.movements| ==> s.movements[i].shift < |s.shifts|)
  }

  /** What one sale leaves in the drawer: cash tendered minus the change the
      screen tells the cashier to give. Without cash the drawer stays shut. */
  function DrawerGain(o: Order): int {
    if CashPaid(o) == 0 then 0 else CashPaid(o) - ComputeChange(CashPaid(o) + NonCashPaid(o), o.total)
  }

  /** Cash in the drawer that the summary does not expect. */
  function Gap(o: Order): int { DrawerGain(o) - NetCash(o) }

  function GapTerm(shift: nat): Order -> int {
    (o: Order) => if o.shift == shift && o.status != Cancelled then Gap(o) else 0
  }

  function GapOf(s: Shop, shift: nat): int { Sum(GapTerm(shift), s.orders) }

  /** The summary is right about one sale exactly when the other means of payment
      do not exceed the total and the overpayment is not a single cent, which
      the change computation swallows. */
  lemma GapIff(o: Order)
    requires CashPaid(o) >= 0
    ensures Gap(o) == 0
       <==> CashPaid(o) == 0 || (NonCashPaid(o) <= o.total && CashPaid(o) + NonCashPaid(o) != o.total + 1)
  {
  }

  /** The cash one event moves in or out of the drawer of `shift`. */
  function CashFlow(s: Shop, e: Event, shift: nat): int {
    var r := Attempt(s, e);
    if r.Err? then 0 else
      match e
      case EvOpen(_, _, initial) => if shift == |s.shifts| then ColumnRound(initial) else 0
      case EvMove(_, at, isInflow, amount) =>
        if at != shift then 0 else if isInflow then ColumnRound(amount) else -ColumnRound(amount)
      case EvCreate(_, sale) =>
        if sale.shift == Some(shift) && |s.orders| < |r.value.orders| then DrawerGain(r.value.orders[|s.orders|]) else 0
      case EvCancelCommit(id, _) =>
        if id < |s.orders| && s.orders[id].shift == shift then -DrawerGain(s.orders[id]) else 0
      case EvPay(p) =>
        if p.kind == Cash && p.shift == Some(shift) && (p.key.None? || FindKey(s.account, p.key.value).None?)
        then ColumnRound(p.amount) else 0
      case _ => 0
  }

  function Drawer(s: Shop, run: seq<Event>, shift: nat): int
  {
    if |run| == 0 then 0 else
      var before := run[..|run| - 1];
      Drawer(s, before, shift) + CashFlow(Exec(s, before), run[|run| - 1], shift)
  }

  lemma AccountMovementKeepsCash(s: Shop, customer: nat, kind: AccountKind, delta: real, order: Option<nat>,
                                 shift: Option<nat>, key: Option<nat>)
    ensures var r := ApplyAccountMovement(s, customer, kind, delta, order, shift, key);
            r.Ok? ==> r.value.orders == s.orders && r.value.shifts == s.shifts && r.value.movements == s.movements
                      && r.value.cancelling == s.cancelling
  {
  }

  lemma NoOrders(s: Shop, shift: nat)
    requires WellFormed(s) && shift >= |s.shifts|
    ensures ExpectedCash(s, shift) == 0 && GapOf(s, shift) == 0
  {
    SumZero(NetCashTerm(shift), s.orders);
    SumZero(GapTerm(shift), s.orders);
    SumZero(InflowTerm(shift), s.movements);
    SumZero(OutflowTerm(shift), s.movements);
  }

  lemma CreateShape(s: Shop, cat: Catalogue, req: SaleRequest)
    requires Create(s, cat, req).Ok?
    ensures var t := Create(s, cat, req).value;
            && req.shift.Some? && req.shift.value < |s.shifts| && s.shifts[req.shift.value].isOpen
            && |t.orders| == |s.orders| + 1 && t.orders == s.orders + [t.orders[|s.orders|]]
            && t.orders[|s.orders|].shift == req.shift.value && t.orders[|s.orders|].status == Completed
            && t.shifts == s.shifts && t.movements == s.movements && t.cancelling == s.cancelling
  {
  }

  lemma CommitShape(s: Shop, id: nat, tracked: set<nat>)
    requires CancelCommit(s, id, tracked).Ok?
    ensures var t := CancelCommit(s, id, tracked).value;
            && id < |s.orders| && s.orders[id].status == Completed && id in s.cancelling
            && t.orders == s.orders[id := s.orders[id].(status := Cancelled)]
            && t.shifts == s.shifts && t.movements == s.movements && t.cancelling == s.cancelling - multiset{id}
  {
  }

  predicate Balanced(s: Shop, e: Event, shift: nat) {
    && WellFormed(Step(s, e))
    && ExpectedCash(Step(s, e), shift) + GapOf(Step(s, e), shift)
       == ExpectedCash(s, shift) + GapOf(s, shift) + CashFlow(s, e, shift)
  }

  /** Events that touch no order, no movement and no opening amount. */
  predicate IsQuiet(e: Event) {
    !e.EvOpen? && !e.EvMove? && !e.EvCreate? && !e.EvCancelCommit? && !e.EvPay?
  }

  lemma QuietShape(s: Shop, e: Event)
    requires IsQuiet(e)
    ensures var t := Step(s, e);
            t.orders == s.orders && t.movements == s.movements && |t.shifts| == |s.shifts|
            && forall i :: 0 <= i < |s.shifts| ==> t.shifts[i].initialAmount == s.shifts[i].initialAmount
  {
  }

  lemma QuietStep(s: Shop, e: Event, shift: nat)
    requires WellFormed(s) && IsQuiet(e)
    ensures Balanced(s, e, shift)
  {
    QuietShape(s, e);
  }

  lemma OpenStep(s: Shop, e: Event, shift: nat)
    requires WellFormed(s) && e.EvOpen?
    ensures Balanced(s, e, shift)
  {
    if Attempt(s, e).Ok? && shift == |s.shifts| { NoOrders(s, shift); }
  }

  lemma MoveStep(s: Shop, e: Event, shift: nat)
    requires WellFormed(s) && e.EvMove?
    ensures Balanced(s, e, shift)
  {
    if Attempt(s, e).Ok? {
      var m := CashMovement(e.shift, e.isInflow, ColumnRound(e.amount));
      SumAppend(InflowTerm(shift), s.movements, m);
      SumAppend(OutflowTerm(shift), s.movements, m);
    }
  }

  lemma CreateStep(s: Shop, cat: Catalogue, sale: SaleRequest, shift: nat)
    requires WellFormed(s)
    ensures Balanced(s, EvCreate(cat, sale), shift)
  {
    if Create(s, cat, sale).Ok? {
      CreateShape(s, cat, sale);
      var t := Create(s, cat, sale).value;
      SumAppend(NetCashTerm(shift), s.orders, t.orders[|s.orders|]);
      SumAppend(GapTerm(shift), s.orders, t.orders[|s.orders|]);
    }
  }

  lemma CommitStep(s: Shop, id: nat, tracked: set<nat>, shift: nat)
    requires WellFormed(s)
    ensures Balanced(s, EvCancelCommit(id, tracked), shift)
  {
    if CancelCommit(s, id, tracked).Ok? {
      CommitShape(s, id, tracked);
      var t := CancelCommit(s, id, tracked).value;
      SumUpdate(NetCashTerm(shift), s.orders, id, t.orders[id]);
      SumUpdate(GapTerm(shift), s.orders, id, t.orders[id]);
    }
  }

  lemma PaymentStep(s: Shop, p: AccountPaymentRequest, shift: nat)
    requires WellFormed(s)
    ensures Balanced(s, EvPay(p), shift)
  {
    if RegisterPayment(s, p).Ok? {
      var t := RegisterPayment(s, p).value;
      AccountMovementKeepsCash(s, p.customer, AccountPayment, PaidDelta(p.amount), None, PaymentDrawer(p), p.key);
      if t.movements != s.movements {
        var m := CashMovement(p.shift.value, true, ColumnRound(p.amount));
        assert t.movements == s.movements + [m];
        SumAppend(InflowTerm(shift), s.movements, m);
        SumAppend(OutflowTerm(shift), s.movements, m);
      }
    }
  }

  /** One step moves the expected cash and the gap by exactly the cash flow. */
  lemma StepMovesDrawer(s: Shop, e: Event, shift: nat)
    requires WellFormed(s)
    ensures Balanced(s, e, shift)
  {
    match e
    case EvOpen(_, _, _) => OpenStep(s, e, shift);
    case EvMove(_, _, _, _) => MoveStep(s, e, shift);
    case EvCreate(cat, sale) => CreateStep(s, cat, sale, shift);
    case EvCancelCommit(id, tracked) => CommitStep(s, id, tracked, shift);
    case EvPay(p) => PaymentStep(s, p, shift);
    case _ => QuietStep(s, e, shift);
  }

  /** In every reachable state, what the summary recomputes from history is the
      content of the drawer minus the gaps of the sales still standing. */
  lemma {:induction false} ExpectedCashIsDrawer(s: Shop, run: seq<Event>, shift: nat)
    requires WellFormed(s)
    ensures WellFormed(Exec(s, run))
    ensures ExpectedCash(Exec(s, run), shift)
         == ExpectedCash(s, shift) + GapOf(s, shift) + Drawer(s, run, shift) - GapOf(Exec(s, run), shift)
    decreases |run|
  {
    if |run| > 0 {
      var before := run[..|run| - 1];
      ExpectedCashIsDrawer(s, before, shift);
      StepMovesDrawer(Exec(s, before), run[|run| - 1], shift);
    }
  }

  predicate CleanTender(o: Order) {
    CashPaid(o) >= 0
    && (CashPaid(o) == 0 || (NonCashPaid(o) <= o.total && CashPaid(o) + NonCashPaid(o) != o.total + 1))
  }

  /** A shift opened in the run and paid cleanly reconciles to the cent. */
  lemma CleanShiftReconciles(s: Shop, run: seq<Event>, shift: nat)
    requires WellFormed(s) && shift >= |s.shifts|
    requires forall i :: 0 <= i < |Exec(s, run).orders| ==>
               Exec(s, run).orders[i].shift == shift && Exec(s, run).orders[i].status == Completed
               ==> CleanTender(Exec(s, run).orders[i])
    ensures ExpectedCash(Exec(s, run), shift) == Drawer(s, run, shift)
  {
    ExpectedCashIsDrawer(s, run, shift);
    NoOrders(s, shift);
    var t := Exec(s, run);
    forall i | 0 <= i < |t.orders|
      ensures GapTerm(shift)(t.orders[i]) == 0
    {
      if t.orders[i].shift == shift && t.orders[i].status == Completed {
        GapIff(t.orders[i]);
      }
    }
    SumZero(GapTerm(shift), t.orders);
  }

  // ----- Closed shifts -----

  /** What a closed shift stored is what computeSummary would still answer. */
  predicate Frozen(s: Shop) {
    forall i :: 0 <= i < |s.shifts| && !s.shifts[i].isOpen ==> s.shifts[i].expectedCash == Some(ExpectedCash(s, i))
  }

  predicate InFlightOpen(s: Shop) {
    forall id :: id in s.cancelling ==>
      id < |s.orders| && s.orders[id].shift < |s.shifts| && s.shifts[s.orders[id].shift].isOpen
  }

  /** No shift is closed while one of its sales is being cancelled. */
  predicate Polite(s: Shop, e: Event) {
    e.EvClose? ==> forall id :: id in s.cancelling && id < |s.orders| ==> s.orders[id].shift != e.shift
  }

  ghost predicate PoliteRun(s: Shop, run: seq<Event>) {
    forall k :: 0 <= k < |run| ==> Polite(Exec(s, run[..k]), run[k])
  }

  /** Outside cancellations, no event moves the expected cash of a closed shift. */
  lemma ClosedShiftUnmoved(s: Shop, e: Event, i: nat)
    requires WellFormed(s) && i < |s.shifts| && !s.shifts[i].isOpen
    requires e.EvCancelCommit? && Attempt(s, e).Ok? ==> s.orders[e.order].shift != i || NetCash(s.orders[e.order]) == 0
    ensures i < |Step(s, e).shifts| && Step(s, e).shifts[i] == s.shifts[i]
    ensures ExpectedCash(Step(s, e), i) == ExpectedCash(s, i)
  {
    var t := Step(s, e);
    if Attempt(s, e).Ok? {
      match e
      case EvMove(actor, at, isInflow, amount) =>
        ClosedShiftGetsNoMovement(s, actor, at, isInflow, amount, i);
      case EvCreate(cat, sale) =>
        ClosedShiftGetsNoSale(s, cat, sale, i);
      case EvCancelCommit(id, tracked) =>
        ClosedShiftLosesNothing(s, id, tracked, i);
      case EvPay(p) =>
        ClosedShiftGetsNoPayment(s, p, i);
      case _ =>
    }
  }

  lemma ClosedShiftGetsNoMovement(s: Shop, actor: Actor, at: nat, isInflow: bool, amount: real, i: nat)
    requires i < |s.shifts| && !s.shifts[i].isOpen && AddMovement(s, actor, at, isInflow, amount).Ok?
    ensures var t := AddMovement(s, actor, at, isInflow, amount).value;
            t.shifts == s.shifts && ExpectedCash(t, i) == ExpectedCash(s, i)
  {
    var m := CashMovement(at, isInflow, ColumnRound(amount));
    SumAppend(InflowTerm(i), s.movements, m);
    SumAppend(OutflowTerm(i), s.movements, m);
  }

  lemma ClosedShiftLosesNothing(s: Shop, id: nat, tracked: set<nat>, i: nat)
    requires CancelCommit(s, id, tracked).Ok? && id < |s.orders| && i < |s.shifts|
    requires s.orders[id].shift != i || NetCash(s.orders[id]) == 0
    ensures var t := CancelCommit(s, id, tracked).value;
            t.shifts == s.shifts && ExpectedCash(t, i) == ExpectedCash(s, i)
  {
    CommitShape(s, id, tracked);
    SumUpdate(NetCashTerm(i), s.orders, id, CancelCommit(s, id, tracked).value.orders[id]);
  }

  lemma ClosedShiftGetsNoSale(s: Shop, cat: Catalogue, req: SaleRequest, i: nat)
    requires i < |s.shifts| && !s.shifts[i].isOpen && Create(s, cat, req).Ok?
    ensures var t := Create(s, cat, req).value; t.shifts == s.shifts && ExpectedCash(t, i) == ExpectedCash(s, i)
  {
    CreateShape(s, cat, req);
    SumAppend(NetCashTerm(i), s.orders, Create(s, cat, req).value.orders[|s.orders|]);
  }

  lemma ClosedShiftGetsNoPayment(s: Shop, p: AccountPaymentRequest, i: nat)
    requires i < |s.shifts| && !s.shifts[i].isOpen && RegisterPayment(s, p).Ok?
    ensures var t := RegisterPayment(s, p).value; t.shifts == s.shifts && ExpectedCash(t, i) == ExpectedCash(s, i)
  {
    var t := RegisterPayment(s, p).value;
    assert t.orders == s.orders && t.shifts == s.shifts;
    if t.movements != s.movements {
      assert t.movements == s.movements + [CashMovement(p.shift.value, true, ColumnRound(p.amount))];
      SumAppend(InflowTerm(i), s.movements, CashMovement(p.shift.value, true, ColumnRound(p.amount)));
      SumAppend(OutflowTerm(i), s.movements, CashMovement(p.shift.value, true, ColumnRound(p.amount)));
    }
  }

  lemma CloseKeepsFrozen(s: Shop, actor: Actor, shift: nat, actualCash: real)
    requires Frozen(s) && Close(s, actor, shift, actualCash).Ok?
    ensures Frozen(Close(s, actor, shift, actualCash).value)
  {
    var t := Close(s, actor, shift, actualCash).value;
    forall i | 0 <= i < |t.shifts| && !t.shifts[i].isOpen
      ensures t.shifts[i].expectedCash == Some(ExpectedCash(t, i))
    {
      assert ExpectedCash(t, i) == ExpectedCash(s, i);
    }
  }

  lemma StepKeepsFrozen(s: Shop, e: Event)
    requires WellFormed(s) && Frozen(s) && InFlightOpen(s)
    ensures Frozen(Step(s, e))
  {
    if Attempt(s, e).Ok? {
      if e.EvClose? {
        CloseKeepsFrozen(s, e.actor, e.shift, e.actualCash);
      } else {
        forall i | 0 <= i < |Step(s, e).shifts| && !Step(s, e).shifts[i].isOpen
          ensures Step(s, e).shifts[i].expectedCash == Some(ExpectedCash(Step(s, e), i))
        {
          FrozenRow(s, e, i);
        }
      }
    }
  }

  lemma FrozenRow(s: Shop, e: Event, i: nat)
    requires WellFormed(s) && Frozen(s) && InFlightOpen(s) && Attempt(s, e).Ok? && !e.EvClose?
    requires i < |Step(s, e).shifts| && !Step(s, e).shifts[i].isOpen
    ensures Step(s, e).shifts[i].expectedCash == Some(ExpectedCash(Step(s, e), i))
  {
    OpenShiftsOnlyAppend(s, e);
    if e.EvCancelCommit? {
      CommitOfOpenShift(s, e.order, e.tracked);
    }
    ClosedShiftUnmoved(s, e, i);
  }

  lemma CommitOfOpenShift(s: Shop, id: nat, tracked: set<nat>)
    requires InFlightOpen(s) && CancelCommit(s, id, tracked).Ok?
    ensures id < |s.orders| && s.orders[id].shift < |s.shifts| && s.shifts[s.orders[id].shift].isOpen
  {
    CommitShape(s, id, tracked);
  }

  lemma OpenShiftsOnlyAppend(s: Shop, e: Event)
    requires !e.EvClose?
    ensures Step(s, e).shifts == s.shifts
         || (|Step(s, e).shifts| == |s.shifts| + 1 && Step(s, e).shifts[..|s.shifts|] == s.shifts
             && Step(s, e).shifts[|s.shifts|].isOpen)
  {
  }

  lemma CloseShape(s: Shop, e: Event)
    requires e.EvClose?
    ensures var t := Step(s, e);
            t.orders == s.orders && t.cancelling == s.cancelling && |t.shifts| == |s.shifts|
            && forall i :: 0 <= i < |s.shifts| && i != e.shift ==> t.shifts[i] == s.shifts[i]
  {
  }

  /** Only cancellations and sales touch the in-flight set and the orders. */
  lemma OtherShape(s: Shop, e: Event)
    requires !e.EvClose? && !e.EvCreate? && !e.EvCancelBegin? && !e.EvCancelAbort? && !e.EvCancelCommit?
    ensures Step(s, e).orders == s.orders && Step(s, e).cancelling == s.cancelling
  {
  }

  lemma BeginKeepsInFlightOpen(s: Shop, id: nat)
    requires InFlightOpen(s) && CancelBegin(s, id).Ok?
    ensures InFlightOpen(CancelBegin(s, id).value)
  {
  }

  lemma CommitKeepsInFlightOpen(s: Shop, id: nat, tracked: set<nat>)
    requires InFlightOpen(s) && CancelCommit(s, id, tracked).Ok?
    ensures InFlightOpen(CancelCommit(s, id, tracked).value)
  {
    CommitShape(s, id, tracked);
  }

  lemma StepKeepsInFlightOpen(s: Shop, e: Event)
    requires InFlightOpen(s) && Polite(s, e)
    ensures InFlightOpen(Step(s, e))
  {
    if Attempt(s, e).Ok? {
      match e
      case EvClose(_, _, _) => CloseShape(s, e);
      case EvCreate(cat, sale) => CreateShape(s, cat, sale);
      case EvCancelBegin(id) => BeginKeepsInFlightOpen(s, id);
      case EvCancelAbort(_) =>
      case EvCancelCommit(id, tracked) => CommitKeepsInFlightOpen(s, id, tracked);
      case _ =>
        OtherShape(s, e);
        OpenShiftsOnlyAppend(s, e);
    }
  }

  /** The arqueo of a closed shift stays true forever, in every run that closes
      no shift in the middle of one of its cancellations. */
  lemma {:induction false} ClosedShiftsStayTrue(s: Shop, run: seq<Event>)
    requires WellFormed(s) && Frozen(s) && InFlightOpen(s) && PoliteRun(s, run)
    ensures WellFormed(Exec(s, run)) && Frozen(Exec(s, run)) && InFlightOpen(Exec(s, run))
    decreases |run|
  {
    if |run| > 0 {
      var n := |run| - 1;
      var before := run[..n];
      assert forall k :: 0 <= k < n ==> before[..k] == run[..k];
      ClosedShiftsStayTrue(s, before);
      var mid := Exec(s, before);
      StepMovesDrawer(mid, run[n], 0);
      StepKeepsFrozen(mid, run[n]);
      assert Polite(mid, run[n]);
      StepKeepsInFlightOpen(mid, run[n]);
    }
  }

  /** The third phase does not look at the shift again, so the law holds through
      it exactly when the shift is still open or the sale left no cash. */
  lemma CommitKeepsFrozenIff(s: Shop, id: nat, tracked: set<nat>)
    requires WellFormed(s) && Frozen(s) && CancelCommit(s, id, tracked).Ok?
    ensures Frozen(CancelCommit(s, id, tracked).value)
       <==> s.shifts[s.orders[id].shift].isOpen || NetCash(s.orders[id]) == 0
  {
    CommitShape(s, id, tracked);
    var t, e := CancelCommit(s, id, tracked).value, EvCancelCommit(id, tracked);
    var sh := s.orders[id].shift;
    if s.shifts[sh].isOpen || NetCash(s.orders[id]) == 0 {
      forall i | 0 <= i < |t.shifts| && !t.shifts[i].isOpen
        ensures t.shifts[i].expectedCash == Some(ExpectedCash(t, i))
      {
        ClosedShiftUnmoved(s, e, i);
      }
    } else {
      SumUpdate(NetCashTerm(sh), s.orders, id, t.orders[id]);
      assert ExpectedCash(t, sh) == ExpectedCash(s, sh) - NetCash(s.orders[id]);
    }
  }

  lemma BeginKeepsFrozen(s: Shop, id: nat)
    requires Frozen(s) && CancelBegin(s, id).Ok?
    ensures Frozen(CancelBegin(s, id).value)
  {
    var t := CancelBegin(s, id).value;
    assert forall i :: ExpectedCash(t, i) == ExpectedCash(s, i);
  }

  /** The race itself: a close between the two phases breaks the stored figure of
      every sale that had left cash in the drawer. */
  lemma CloseDuringCancelBreaks(s: Shop, id: nat, actor: Actor, actualCash: real, tracked: set<nat>)
    requires WellFormed(s) && Frozen(s) && CancelBegin(s, id).Ok? && NetCash(s.orders[id]) != 0
    requires CanOperate(actor, s.shifts[s.orders[id].shift])
    requires CancelCommit(Raced(s, id, actor, actualCash), id, tracked).Ok?
    ensures Frozen(Raced(s, id, actor, actualCash))
    ensures !Frozen(Step(Raced(s, id, actor, actualCash), EvCancelCommit(id, tracked)))
  {
    RacedShape(s, id, actor, actualCash);
    CommitKeepsFrozenIff(Raced(s, id, actor, actualCash), id, tracked);
  }

  /** The first phase of a cancellation, then the close of its shift. */
  function Raced(s: Shop, id: nat, actor: Actor, actualCash: real): Shop
    requires id < |s.orders|
  {
    Step(Step(s, EvCancelBegin(id)), EvClose(actor, s.orders[id].shift, actualCash))
  }

  lemma RacedShape(s: Shop, id: nat, actor: Actor, actualCash: real)
    requires WellFormed(s) && Frozen(s) && CancelBegin(s, id).Ok? && CanOperate(actor, s.shifts[s.orders[id].shift])
    ensures var t := Raced(s, id, actor, actualCash);
            WellFormed(t) && Frozen(t) && t.orders == s.orders && !t.shifts[t.orders[id].shift].isOpen
  {
    BeginKeepsFrozen(s, id);
    CloseKeepsFrozen(CancelBegin(s, id).value, actor, s.orders[id].shift, actualCash);
  }

  lemma ClosedRowStep(s: Shop, e: Event, i: nat)
    requires i < |s.shifts| && !s.shifts[i].isOpen
    ensures i < |Step(s, e).shifts| && Step(s, e).shifts[i] == s.shifts[i]
  {
    if e.EvClose? { CloseShape(s, e); } else { OpenShiftsOnlyAppend(s, e); }
  }

  /** Closing is final: the row of a closed shift is never written again, in any
      run whatever. */
  lemma {:induction false} ClosedRowIsFinal(s: Shop, run: seq<Event>, i: nat)
    requires i < |s.shifts| && !s.shifts[i].isOpen
    ensures i < |Exec(s, run).shifts| && Exec(s, run).shifts[i] == s.shifts[i]
    decreases |run|
  {
    if |run| > 0 {
      ClosedRowIsFinal(s, run[..|run| - 1], i);
      ClosedRowStep(Exec(s, run[..|run| - 1]), run[|run| - 1], i);
    }
  }
}
