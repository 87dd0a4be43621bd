/** The services over the tables they write. Each method runs one transaction: it
    works on local copies where it can fail half-way, and assigns the tables
    only once nothing can throw any more. */
module PointOfSale {
  import opened Prelude
  import opened Rounding
  import opened Sums
  import opened Vat
  import opened Stock
  import opened Payments
  import opened Ledger = Shop
  import Discounts
  import ShopAccount
  import ShopCash
  import ShopTill
  import ShopWrites

  /** The outcome of a method against the step it implements. */
  predicate Outcome(spec: Result<Shop, Error>, before: Shop, after: Shop, error: Option<Error>) {
    match spec
    case Ok(s) => error == None && after == s
    case Err(e) => error == Some(e) && after == before
  }

  /** The laws of the drawer, of open and closed shifts and of the customer accounts. */
  ghost predicate Valid(s: Shop) {
    && ShopCash.WellFormed(s) && ShopCash.Frozen(s) && ShopCash.InFlightOpen(s)
    && ShopTill.Counts(s) && ShopTill.OneOpenEach(s)
    && ShopAccount.AccountLaw(s) && ShopAccount.OrderLaw(s) && ShopAccount.ChargesCancelOut(s)
  }

  /** What they need: no close in the middle of a cancellation, no odd half cents.
      The figures of the counts add up exactly when a close was tidy. */
  ghost predicate Kept(before: Shop, e: Event, after: Shop) {
    && (Valid(before) && ShopCash.Polite(before, e) && ShopAccount.Tidy(e) ==> Valid(after))
    && (ShopTill.Tallied(after) <==> ShopTill.Tallied(before) && ShopTill.TidyClose(before, e))
  }

  lemma OutcomeKeepsValid(before: Shop, e: Event, after: Shop, error: Option<Error>)
    requires Outcome(Attempt(before, e), before, after, error)
    ensures Kept(before, e, after)
  {
    assert after == Step(before, e);
    ShopTill.StepTalliesIff(before, e);
    if Valid(before) && ShopCash.Polite(before, e) && ShopAccount.Tidy(e) {
      ShopCash.StepMovesDrawer(before, e, 0);
      ShopCash.StepKeepsFrozen(before, e);
      ShopCash.StepKeepsInFlightOpen(before, e);
      ShopTill.StepKeepsOneOpen(before, e);
      ShopAccount.StepKeepsAccountLaw(before, e);
      ShopAccount.StepKeepsCharges(before, e);
    }
  }

  class Services {
    var stores: set<nat>
    var registers: map<nat, Register>
    var levels: Levels
    var orders: seq<Order>
    var cancelling: multiset<nat>
    var shifts: seq<Shift>
    var movements: seq<CashMovement>
    var customers: map<nat, Customer>
    var account: seq<AccountMovement>
    var purchases: seq<Purchase>
    var adjustments: seq<LevelChange>
    var webLines: seq<WebLine>

    function State(): Shop
      reads this
    {
      Shop.Shop(stores, registers, levels, orders, cancelling, shifts, movements, customers, account,
                purchases, adjustments, webLines)
    }

    constructor (stores: set<nat>, registers: map<nat, Register>)
      ensures State() == Shop.Shop(stores, registers, map[], [], multiset{}, [], [], map[], [], [], [], [])
    {
      this.stores, this.registers := stores, registers;
      levels, orders, cancelling, shifts, movements := map[], [], multiset{}, [], [];
      customers, account, purchases, adjustments, webLines := map[], [], [], [], [];
    }

    // ----- cash shifts -----

    method OpenShift(register: nat, user: nat, initial: real) returns (error: Option<Error>)
      modifies this
      ensures Outcome(Open(old(State()), register, user, initial), old(State()), State(), error)
    {
      if register !in registers { return Some(RegisterNotFound); }
      if !registers[register].isActive { return Some(RegisterInactive); }
      for i := 0 to |shifts|
        invariant State() == old(State())
        invariant forall j :: 0 <= j < i ==> !(shifts[j].register == register && shifts[j].isOpen)
      {
        if shifts[i].register == register && shifts[i].isOpen { return Some(ShiftAlreadyOpen); }
      }
      shifts := shifts
          + [Shift(registers[register].store, register, user, ColumnRound(initial), true, None, None, None)];
      error := None;
    }

    method RecordMovement(actor: Actor, shift: nat, isInflow: bool, amount: real) returns (error: Option<Error>)
      modifies this
      ensures Outcome(AddMovement(old(State()), actor, shift, isInflow, amount), old(State()), State(), error)
    {
      error := CheckOperate(State(), actor, shift);
      if error.Some? { return; }
      movements := movements + [CashMovement(shift, isInflow, ColumnRound(amount))];
    }

    /** computeCashSalesTotal: the loop over the orders of the shift. */
    method ComputeCashSalesTotal(shift: nat) returns (total: int)
      ensures total == Sum(NetCashTerm(shift), orders)
    {
      total := 0;
      for i := 0 to |orders|
        invariant total == Sum(NetCashTerm(shift), orders[..i])
      {
        assert orders[..i + 1] == orders[..i] + [orders[i]];
        SumAppend(NetCashTerm(shift), orders[..i], orders[i]);
        var order := orders[i];
        if order.shift == shift && order.status != Cancelled {
          var cashPaid := CashPaid(order);
          if cashPaid != 0 {
            var owed := order.total - NonCashPaid(order);
            owed := if owed > 0 then owed else 0;
            total := total + (if cashPaid < owed then cashPaid else owed);
          }
        }
      }
      assert orders[..|orders|] == orders;
    }

    method CloseShift(actor: Actor, shift: nat, actualCash: real) returns (error: Option<Error>)
      modifies this
      ensures Outcome(Close(old(State()), actor, shift, actualCash), old(State()), State(), error)
      ensures error.None? ==>
                shift < |shifts| && ShopTill.Counted(shifts[shift], actualCash, ExpectedCash(old(State()), shift))
    {
      ghost var before := State();
      error := CheckOperate(State(), actor, shift);
      if error.Some? { return; }
      var cashSales := ComputeCashSalesTotal(shift);
      var expected := shifts[shift].initialAmount
                      + Sum(InflowTerm(shift), movements) - Sum(OutflowTerm(shift), movements) + cashSales;
      shifts := shifts[shift := shifts[shift].(isOpen := false, actualCash := Some(ColumnRound(actualCash)),
                                               expectedCash := Some(expected),
                                               difference := Some(ColumnRound(actualCash - expected as real)))];
      ShopTill.CloseCountsTheTill(before, actor, shift, actualCash);
    }

    // ----- customer accounts -----

    /** One guarded UPDATE and one INSERT. */
    method Post(customer: nat, kind: AccountKind, delta: real, order: Option<nat>, shift: Option<nat>, key: Option<nat>)
      returns (error: Option<Error>)
      modifies this
      ensures Outcome(ApplyAccountMovement(old(State()), customer, kind, delta, order, shift, key), old(State()),
                      State(), error)
    {
      if customer !in customers { return Some(CustomerNotFound); }
      var c := customers[customer];
      if !(delta <= 0.0 || c.creditLimit.None? || c.balance as real + delta <= c.creditLimit.value as real) {
        return Some(OverCreditLimit);
      }
      customers := customers[customer := c.(balance := ColumnRound(c.balance as real + delta))];
      account := account
          + [AccountMovement(customer, kind, ColumnRound(delta), customers[customer].balance, order, shift, key)];
      error := None;
    }

    method RegisterAccountPayment(req: AccountPaymentRequest) returns (error: Option<Error>)
      modifies this
      ensures Outcome(RegisterPayment(old(State()), req), old(State()), State(), error)
      ensures error != Some(OverCreditLimit)
      ensures error.None? && ShopWrites.IsNewKey(old(account), req.key) ==>
                ShopWrites.LowersDebt(old(State()), req, State())
    {
      ShopWrites.PaymentLowersDebt(State(), req);
      if req.customer !in customers { return Some(CustomerNotFound); }
      if req.key.Some? && FindKey(account, req.key.value).Some? { return None; }
      var cashShift: Option<nat> := None;
      if req.kind == Cash {
        if req.shift.None? { return Some(ShiftRequired); }
        if req.shift.value >= |shifts| { return Some(ShiftNotFound); }
        if !shifts[req.shift.value].isOpen { return Some(ShiftNotOpen); }
        cashShift := req.shift;
      }
      var amount := if req.amount < 0.0 then -req.amount else req.amount;
      error := Post(req.customer, AccountPayment, -amount, None, cashShift, req.key);
      if error.Some? { return; }
      if cashShift.Some? {
        movements := movements + [CashMovement(cashShift.value, true, ColumnRound(req.amount))];
      }
    }

    method AdjustAccount(customer: nat, delta: real) returns (error: Option<Error>)
      modifies this
      ensures Outcome(RegisterAdjustment(old(State()), customer, delta), old(State()), State(), error)
    {
      error := Post(customer, Adjustment, delta, None, None, None);
    }

    method AddCustomer(id: nat, limit: Option<int>) returns (error: Option<Error>)
      modifies this
      ensures Outcome(NewCustomer(old(State()), id, limit), old(State()), State(), error)
    {
      if id !in customers {
        customers := customers[id := Customer(0, limit)];
      }
      error := None;
    }

    method ChangeLimit(id: nat, limit: Option<int>) returns (error: Option<Error>)
      modifies this
      ensures Outcome(SetCreditLimit(old(State()), id, limit), old(State()), State(), error)
    {
      if id !in customers { return Some(CustomerNotFound); }
      customers := customers[id := customers[id].(creditLimit := limit)];
      error := None;
    }

    // ----- orders -----

    /** The guarded decrements of one line, inside the transaction. */
    method TakeMoves(start: Levels, store: nat, moves: seq<Move>) returns (taken: Option<Levels>)
      ensures taken == Take(start, store, moves)
    {
      var current := start;
      for i := 0 to |moves|
        invariant Take(start, store, moves) == Take(current, store, moves[i..])
      {
        assert moves[i..][1..] == moves[i + 1..];
        var key := Key(store, moves[i].target);
        if !(key in current && current[key] as real >= moves[i].quantity) { return None; }
        current := current[key := ColumnRound(current[key] as real - moves[i].quantity)];
      }
      taken := Some(current);
    }

    /** The item loop of attemptCreate. */
    method PriceItems(cat: Catalogue, store: nat, limit: Option<real>, items: seq<ItemRequest>)
      returns (sold: Result<Sale, Error>)
      ensures sold == SellItems(cat, store, limit, EmptySale(levels), items)
    {
      var current, subtotal, discount, tax, total := levels, 0.0, 0.0, 0.0, 0.0;
      var resolved: seq<Resolved> := [];
      for i := 0 to |items|
        invariant SellItems(cat, store, limit, EmptySale(levels), items)
               == SellItems(cat, store, limit, Sale(current, subtotal, discount, tax, total, resolved), items[i..])
      {
        assert items[i..][1..] == items[i + 1..];
        var it := items[i];
        if it.product !in cat || !cat[it.product].isActive { return Err(ProductNotFound); }
        var product := cat[it.product];
        if it.variant.Some? && it.variant.value !in product.variants { return Err(VariantNotFound); }
        var grossLine := GrossOf(product, it);
        var lineDiscount := Min(Max(it.discount, 0.0), grossLine);
        if !Discounts.WithinLimit(limit, lineDiscount, grossLine) { return Err(DiscountOverLimit); }
        var lineTotal := grossLine - lineDiscount;
        if product.isBundle && |product.components| == 0 { return Err(EmptyBundle); }
        var taken := TakeMoves(current, store, MovesOf(product, it));
        if taken.None? { return Err(InsufficientStock); }
        current := taken.value;
        subtotal := subtotal + grossLine;
        discount := discount + lineDiscount;
        tax := tax + IvaContained(lineTotal, RateOf(product.vat));
        total := total + lineTotal;
        resolved := resolved + [ResolvedOf(product, it)];
      }
      sold := Ok(Sale(current, subtotal, discount, tax, total, resolved));
    }

    method CreateOrder(cat: Catalogue, req: SaleRequest) returns (error: Option<Error>)
      modifies this
      ensures Outcome(Create(old(State()), cat, req), old(State()), State(), error)
      ensures error.None? ==> |orders| == |old(orders)| + 1 && orders[..|old(orders)|] == old(orders)
                              && ShopWrites.OrderFollows(cat, req, orders[|old(orders)|])
    {
      if Create(State(), cat, req).Ok? { ShopWrites.OrderIsAsAsked(State(), cat, req); }
      error := CheckShift(State(), req);
      if error.Some? { return; }
      var sold := PriceItems(cat, req.store, req.limit, req.items);
      if sold.Err? { return Some(sold.error); }
      error := CheckSale(req, sold.value);
      if error.Some? { return; }
      var id, oldLevels, oldOrders := |orders|, levels, orders;
      levels := sold.value.levels;
      orders := orders + [OrderOf(req, sold.value)];
      if OnAccount(req.payments) > 0.0 {
        error := Post(req.customer.value, Charge, OnAccount(req.payments), Some(id), req.shift, None);
        if error.Some? {
          levels, orders := oldLevels, oldOrders;
        }
      }
    }

    method ValidateCancel(id: nat) returns (error: Option<Error>)
      modifies this
      ensures Outcome(CancelBegin(old(State()), id), old(State()), State(), error)
    {
      if id >= |orders| { return Some(OrderNotFound); }
      if orders[id].status == Cancelled { return Some(AlreadyCancelled); }
      if orders[id].shift >= |shifts| || !shifts[orders[id].shift].isOpen { return Some(ShiftAlreadyClosed); }
      cancelling := cancelling + multiset{id};
      error := None;
    }

    method AbortCancel(id: nat) returns (error: Option<Error>)
      modifies this
      ensures Outcome(CancelAbort(old(State()), id), old(State()), State(), error)
    {
      if id !in cancelling { return Some(NotCancelling); }
      cancelling := cancelling - multiset{id};
      error := None;
    }

    /** The restock loop of the third phase. */
    method Restock(start: Levels, store: nat, lines: seq<Snapshot>) returns (after: Levels)
      ensures after == PutBack(start, store, lines)
    {
      after := start;
      for i := 0 to |lines|
        invariant PutBack(start, store, lines) == PutBack(after, store, lines[i..])
      {
        assert lines[i..][1..] == lines[i + 1..];
        after := Incremented(after, Key(store, lines[i].target), lines[i].quantity as real);
      }
    }

    /** The stock returned and the order cancelled. */
    method WriteCancelled(id: nat, tracked: set<nat>)
      requires id < |orders|
      modifies this
      ensures State() == WithCancelled(old(State()), id, tracked)
    {
      var o := orders[id];
      levels := Restock(levels, o.store, RestockLines(o.items, tracked));
      orders := orders[id := o.(status := Cancelled)];
      cancelling := cancelling - multiset{id};
    }

    /** The charge of the sale, if there was one, reversed. */
    method Reverse(charge: Option<AccountMovement>, id: nat) returns (error: Option<Error>)
      modifies this
      ensures Outcome(PostReversal(old(State()), charge, id), old(State()), State(), error)
    {
      if charge.None? { return None; }
      error := Post(charge.value.customer, ChargeReversal, -(charge.value.amount as real), Some(id), None, None);
    }

    method CommitCancel(id: nat, tracked: set<nat>) returns (error: Option<Error>)
      modifies this
      ensures Outcome(CancelCommit(old(State()), id, tracked), old(State()), State(), error)
    {
      if id !in cancelling { return Some(NotCancelling); }
      if id >= |orders| { return Some(OrderNotFound); }
      if orders[id].status == Cancelled { return Some(AlreadyCancelled); }
      var oldLevels, oldOrders, oldCancelling := levels, orders, cancelling;
      WriteCancelled(id, tracked);
      error := Reverse(FindCharge(account, id), id);
      if error.Some? {
        levels, orders, cancelling := oldLevels, oldOrders, oldCancelling;
      }
    }

    // ----- purchases, adjustments and web orders -----

    method ReceivePurchase(cat: Catalogue, store: nat, lines: seq<PurchaseRequest>) returns (error: Option<Error>)
      modifies this
      ensures Outcome(Receive(old(State()), cat, store, lines), old(State()), State(), error)
    {
      if store !in stores { return Some(StoreNotFound); }
      error := CheckPurchase(cat, lines);
      if error.Some? { return; }
      var current, stored: seq<PurchaseLine> := levels, [];
      for i := 0 to |lines|
        invariant State() == old(State())
        invariant current == ReceiveLines(levels, cat, store, lines[..i])
        invariant stored == StoredLines(lines[..i])
      {
        assert lines[..i + 1][..i] == lines[..i];
        var l := lines[i];
        if l.product in cat && cat[l.product].trackStock {
          current := Incremented(current, Key(store, TargetOf(l.product, l.variant)), l.quantity);
        }
        stored := stored + [PurchaseLine(l.product, l.variant, ColumnRound(l.quantity))];
      }
      assert lines[..|lines|] == lines;
      levels := current;
      purchases := purchases + [Purchase(store, stored)];
    }

    method AdjustLevel(cat: Catalogue, store: nat, product: nat, variant: Option<nat>, change: Change)
      returns (error: Option<Error>)
      modifies this
      ensures Outcome(AdjustStock(old(State()), cat, store, product, variant, change), old(State()), State(), error)
    {
      if store !in stores { return Some(StoreNotFound); }
      if product !in cat { return Some(ProductNotFound); }
      if variant.Some? && variant.value !in cat[product].variants { return Some(VariantNotFound); }
      if variant.None? && cat[product].isBundle { return Some(BundleHasNoStock); }
      var key := Key(store, TargetOf(product, variant));
      var previous := LevelOf(levels, key);
      var next := match change
                  case Delta(amount) => ColumnRound(previous as real + amount)
                  case Absolute(quantity) => ColumnRound(quantity)
                  case AlertOnly => previous;
      levels := levels[key := next];
      adjustments := adjustments + [LevelChange(key, previous, next)];
      error := None;
    }

    method ApplyWebOrder(store: nat, lines: seq<Move>) returns (error: Option<Error>)
      modifies this
      ensures Outcome(WebOrder(old(State()), store, lines), old(State()), State(), error)
    {
      var current, shipped: seq<WebLine> := levels, [];
      for i := 0 to |lines|
        invariant State() == old(State())
        invariant current == ShipFreely(levels, store, lines[..i])
        invariant shipped == ShippedLines(store, lines[..i])
      {
        assert lines[..i + 1][..i] == lines[..i];
        var key := Key(store, lines[i].target);
        current := current[key := if key in current then ColumnRound(current[key] as real - lines[i].quantity)
                                  else ColumnRound(-lines[i].quantity)];
        shipped := shipped + [WebLine(key, ColumnRound(lines[i].quantity))];
      }
      assert lines[..|lines|] == lines;
      levels := current;
      webLines := webLines + shipped;
      error := None;
    }

    // ----- any of them -----

    predicate IsStock(e: Event) { e.EvReceive? || e.EvAdjustStock? || e.EvWebOrder? }

    predicate IsSale(e: Event) { e.EvCreate? || e.EvCancelBegin? || e.EvCancelAbort? || e.EvCancelCommit? }

    method DispatchStock(e: Event) returns (error: Option<Error>)
      requires IsStock(e)
      modifies this
      ensures Outcome(Attempt(old(State()), e), old(State()), State(), error)
    {
      match e
      case EvReceive(cat, store, lines) => error := ReceivePurchase(cat, store, lines);
      case EvAdjustStock(cat, store, product, variant, change) =>
        error := AdjustLevel(cat, store, product, variant, change);
      case EvWebOrder(store, shipped) => error := ApplyWebOrder(store, shipped);
    }

    method DispatchSale(e: Event) returns (error: Option<Error>)
      requires IsSale(e)
      modifies this
      ensures Outcome(Attempt(old(State()), e), old(State()), State(), error)
    {
      match e
      case EvCreate(cat, sale) => error := CreateOrder(cat, sale);
      case EvCancelBegin(order) => error := ValidateCancel(order);
      case EvCancelAbort(order) => error := AbortCancel(order);
      case EvCancelCommit(order, tracked) => error := CommitCancel(order, tracked);
    }

    /** The dispatch by kind of request. */
    method Dispatch(e: Event) returns (error: Option<Error>)
      modifies this
      ensures Outcome(Attempt(old(State()), e), old(State()), State(), error)
    {
      if IsStock(e) {
        error := DispatchStock(e);
      } else if IsSale(e) {
        error := DispatchSale(e);
      } else {
        match e
        case EvOpen(register, user, initial) => error := OpenShift(register, user, initial);
        case EvClose(actor, shift, actualCash) => error := CloseShift(actor, shift, actualCash);
        case EvMove(actor, shift, isInflow, amount) => error := RecordMovement(actor, shift, isInflow, amount);
        case EvPay(payment) => error := RegisterAccountPayment(payment);
        case EvAdjust(customer, delta) => error := AdjustAccount(customer, delta);
        case EvNewCustomer(id, limit) => error := AddCustomer(id, limit);
        case EvSetLimit(id, limit) => error := ChangeLimit(id, limit);
      }
    }

    /** Whatever is requested, the drawer, the closed shifts and the accounts still
        add up afterwards. */
    method Process(e: Event) returns (error: Option<Error>)
      modifies this
      ensures Outcome(Attempt(old(State()), e), old(State()), State(), error)
      ensures Kept(old(State()), e, State())
    {
      ghost var before := State();
      error := Dispatch(e);
      OutcomeKeepsValid(before, e, State(), error);
    }
  }
}
