/** Customer accounts: a balance that is updated in place and a list of movements
    that is only appended to. */
module ShopAccount {
  import opened Prelude
  import opened Rounding
  import opened Sums
  import opened Payments
  import opened Shop

  function CustomerTerm(customer: nat): AccountMovement -> int {
    (m: AccountMovement) => if m.customer == customer then m.amount else 0
  }

  function OrderTerm(id: nat): AccountMovement -> int {
    (m: AccountMovement) => if m.order == Some(id) then m.amount else 0
  }

  function Moved(account: seq<AccountMovement>, customer: nat): int { Sum(CustomerTerm(customer), account) }

  /** Every balance is the sum of the movements of its customer. */
  predicate BalancesAddUp(s: Shop) {
    && (forall c :: c in s.customers ==> s.customers[c].balance == Moved(s.account, c))
    && (forall i :: 0 <= i < |s.account| ==> s.account[i].customer in s.customers)
  }

  /** Every balanceAfter is the prefix sum up to and including its movement. */
  predicate PrefixBalances(account: seq<AccountMovement>) {
    forall i :: 0 <= i < |account| ==> account[i].balanceAfter == Moved(account[..i + 1], account[i].customer)
  }

  predicate AccountLaw(s: Shop) { BalancesAddUp(s) && PrefixBalances(s.account) }

  /** Only sales and their cancellations carry an order, and the movements of an
      order net to its charge while it stands and to nothing once cancelled. */
  predicate OrderLaw(s: Shop) {
    forall i :: 0 <= i < |s.account| ==> s.account[i].order.Some? ==> s.account[i].order.value < |s.orders|
  }

  function ChargeAmount(account: seq<AccountMovement>, id: nat): int {
    var c := FindCharge(account, id);
    if c.Some? then c.value.amount else 0
  }

  predicate ChargesCancelOut(s: Shop) {
    forall id :: 0 <= id < |s.orders| ==>
      Sum(OrderTerm(id), s.account) == if s.orders[id].status == Cancelled then 0 else ChargeAmount(s.account, id)
  }

  lemma MovementShape(s: Shop, customer: nat, kind: AccountKind, delta: real, order: Option<nat>, shift: Option<nat>,
                      key: Option<nat>)
    requires ApplyAccountMovement(s, customer, kind, delta, order, shift, key).Ok?
    ensures var t := ApplyAccountMovement(s, customer, kind, delta, order, shift, key).value;
            var m := AccountMovement(customer, kind, ColumnRound(delta),
                                     ColumnRound(s.customers[customer].balance as real + delta),
                                     order, shift, key);
            && t.account == s.account + [m]
            && t.customers == s.customers[customer := s.customers[customer].(balance := m.balanceAfter)]
            && t.orders == s.orders
  {
  }

  /** One movement keeps the law exactly when rounding the delta on its own gives
      what rounding the new balance gave. */
  lemma MovementKeepsLawIff(s: Shop, customer: nat, kind: AccountKind, delta: real, order: Option<nat>,
                            shift: Option<nat>, key: Option<nat>)
    requires AccountLaw(s) && ApplyAccountMovement(s, customer, kind, delta, order, shift, key).Ok?
    ensures AccountLaw(ApplyAccountMovement(s, customer, kind, delta, order, shift, key).value)
       <==> !IsTie(delta) || ((s.customers[customer].balance as real + delta > 0.0) == (delta > 0.0))
  {
    MovementShape(s, customer, kind, delta, order, shift, key);
    var t := ApplyAccountMovement(s, customer, kind, delta, order, shift, key).value;
    var balance, m := s.customers[customer].balance, t.account[|s.account|];
    ColumnAddExact(balance, delta);
    forall c: nat
      ensures Moved(t.account, c) == Moved(s.account, c) + (if c == customer then ColumnRound(delta) else 0)
    {
      SumAppend(CustomerTerm(c), s.account, m);
    }
    assert t.customers[customer].balance == ColumnRound(balance as real + delta);
    if ColumnRound(balance as real + delta) == balance + ColumnRound(delta) {
      forall i | 0 <= i < |t.account|
        ensures t.account[i].balanceAfter == Moved(t.account[..i + 1], t.account[i].customer)
      {
        if i < |s.account| {
          assert t.account[..i + 1] == s.account[..i + 1];
          assert t.account[i] == s.account[i];
        } else {
          assert t.account[..i + 1] == t.account;
        }
      }
    }
  }

  /** The amounts of the event are not odd halves of a cent. */
  predicate Tidy(e: Event) {
    match e
    case EvCreate(_, sale) => !IsTie(OnAccount(sale.payments))
    case EvPay(p) => !IsTie(p.amount)
    case EvAdjust(_, delta) => !IsTie(delta)
    case _ => true
  }

  lemma TidyMovement(s: Shop, customer: nat, kind: AccountKind, delta: real, order: Option<nat>, shift: Option<nat>,
                     key: Option<nat>)
    requires AccountLaw(s) && !IsTie(delta)
    ensures var r := ApplyAccountMovement(s, customer, kind, delta, order, shift, key);
            r.Ok? ==> AccountLaw(r.value)
  {
    if ApplyAccountMovement(s, customer, kind, delta, order, shift, key).Ok? {
      MovementKeepsLawIff(s, customer, kind, delta, order, shift, key);
    }
  }

  lemma WholeMovementIsTidy(amount: int)
    ensures !IsTie(-(amount as real))
  {
    RoundInt(-amount);
    assert -(amount as real) == (-amount) as real;
  }

  lemma PaymentIsTidy(amount: real)
    requires !IsTie(amount)
    ensures !IsTie(PaidDelta(amount))
  {
    if amount >= 0.0 && IsTie(-amount) { TieOdd(-amount); }
  }

  /** Events that leave the accounts alone. */
  predicate NoAccounts(e: Event) {
    !e.EvCreate? && !e.EvCancelCommit? && !e.EvPay? && !e.EvAdjust? && !e.EvNewCustomer? && !e.EvSetLimit?
  }

  lemma NoAccountsShape(s: Shop, e: Event)
    requires NoAccounts(e)
    ensures Step(s, e).account == s.account && Step(s, e).customers == s.customers && Step(s, e).orders == s.orders
  {
  }

  lemma CreatePosts(s: Shop, cat: Catalogue, req: SaleRequest)
    requires Create(s, cat, req).Ok?
    ensures req.shift.Some? && PriceSale(s, cat, req).Ok? && (OnAccount(req.payments) > 0.0 ==> req.customer.Some?)
    ensures var u := WithOrder(s, req, PriceSale(s, cat, req).value);
            && PostCharge(u, req, |s.orders|) == Create(s, cat, req)
            && u.account == s.account && u.customers == s.customers
            && |u.orders| == |s.orders| + 1 && u.orders[..|s.orders|] == s.orders
            && u.orders[|s.orders|].status == Completed
  {
  }

  lemma CommitPosts(s: Shop, id: nat, tracked: set<nat>)
    requires CancelCommit(s, id, tracked).Ok?
    ensures id < |s.orders| && s.orders[id].status == Completed
    ensures var u := WithCancelled(s, id, tracked);
            && PostReversal(u, FindCharge(s.account, id), id) == CancelCommit(s, id, tracked)
            && u.account == s.account && u.customers == s.customers
            && u.orders == s.orders[id := s.orders[id].(status := Cancelled)]
  {
  }

  lemma PayPosts(s: Shop, p: AccountPaymentRequest)
    requires RegisterPayment(s, p).Ok? && !IsReplay(s, p)
    ensures PostPayment(s, p).Ok?
    ensures var t, u := RegisterPayment(s, p).value, PostPayment(s, p).value;
            t.account == u.account && t.customers == u.customers && t.orders == s.orders
  {
  }

  lemma ReversalKeepsLaw(u: Shop, charge: Option<AccountMovement>, id: nat)
    requires AccountLaw(u) && PostReversal(u, charge, id).Ok?
    ensures AccountLaw(PostReversal(u, charge, id).value)
  {
    if charge.Some? {
      WholeMovementIsTidy(charge.value.amount);
      var delta := -(charge.value.amount as real);
      TidyMovement(u, charge.value.customer, ChargeReversal, delta, Some(id), None, None);
      assert PostReversal(u, charge, id)
          == ApplyAccountMovement(u, charge.value.customer, ChargeReversal, delta, Some(id), None, None);
    }
  }

  lemma StepKeepsAccountLaw(s: Shop, e: Event)
    requires AccountLaw(s) && Tidy(e)
    ensures AccountLaw(Step(s, e))
  {
    if Attempt(s, e).Ok? {
      match e
      case EvCreate(cat, sale) =>
        CreatePosts(s, cat, sale);
        if OnAccount(sale.payments) > 0.0 {
          TidyMovement(WithOrder(s, sale, PriceSale(s, cat, sale).value), sale.customer.value, Charge,
                       OnAccount(sale.payments), Some(|s.orders|), sale.shift, None);
        }
      case EvCancelCommit(id, tracked) =>
        CommitPosts(s, id, tracked);
        ReversalKeepsLaw(WithCancelled(s, id, tracked), FindCharge(s.account, id), id);
      case EvPay(p) =>
        if !IsReplay(s, p) {
          PayPosts(s, p);
          PaymentIsTidy(p.amount);
          TidyMovement(s, p.customer, AccountPayment, PaidDelta(p.amount), None, PaymentDrawer(p), p.key);
        }
      case EvAdjust(customer, delta) => TidyMovement(s, customer, Adjustment, delta, None, None, None);
      case EvNewCustomer(id, _) =>
        if id !in s.customers {
          SumZero(CustomerTerm(id), s.account);
        }
      case EvSetLimit(_, _) =>
      case _ => NoAccountsShape(s, e);
    }
  }

  ghost predicate TidyRun(run: seq<Event>) { forall k :: 0 <= k < |run| ==> Tidy(run[k]) }

  /** In every run the balance of each customer is the sum of its movements, and
      each balanceAfter is the sum up to its movement. */
  lemma {:induction false} BalanceIsSumOfMovements(s: Shop, run: seq<Event>)
    requires AccountLaw(s) && TidyRun(run)
    ensures AccountLaw(Exec(s, run))
    decreases |run|
  {
    if |run| > 0 {
      BalanceIsSumOfMovements(s, run[..|run| - 1]);
      StepKeepsAccountLaw(Exec(s, run[..|run| - 1]), run[|run| - 1]);
    }
  }

  /** Half a cent taken off a balance of one cent clears the balance's rounding
      but not the movement's: without tidy amounts the law does break. */
  lemma UntidyAdjustmentBreaksLaw()
    ensures exists s, e :: AccountLaw(s) && !AccountLaw(Step(s, e))
  {
    var m := AccountMovement(7, Adjustment, 1, 1, None, None, None);
    var s := Shop({}, map[], map[], [], multiset{}, [], [], map[7 := Customer(1, None)], [m], [], [], []);
    assert [m] == [] + [m] && [m][..1] == [m];
    SumAppend(CustomerTerm(7), [], m);
    assert AccountLaw(s);
    assert IsTie(-0.5) by { assert (-0.5).Floor == -1; }
    assert RegisterAdjustment(s, 7, -0.5).Ok?;
    MovementKeepsLawIff(s, 7, Adjustment, -0.5, None, None, None);
    assert !AccountLaw(Step(s, EvAdjust(7, -0.5)));
  }

  // ----- Charges of cancelled sales -----

  lemma {:induction false} FindChargeAppend(account: seq<AccountMovement>, m: AccountMovement, id: nat)
    ensures FindCharge(account + [m], id)
         == if FindCharge(account, id).Some? then FindCharge(account, id) else if IsChargeOf(m, id) then Some(m)
             else None
    decreases |account|
  {
    if |account| == 0 {
      assert [] + [m] == [m];
      assert [m][1..] == [];
    } else {
      FindChargeAppend(account[1..], m, id);
      assert (account + [m])[1..] == account[1..] + [m];
    }
  }

  lemma FreshOrderHasNoMovement(s: Shop, id: nat)
    requires OrderLaw(s) && id >= |s.orders|
    ensures Sum(OrderTerm(id), s.account) == 0 && FindCharge(s.account, id).None?
  {
    SumZero(OrderTerm(id), s.account);
  }

  lemma UnrelatedMovement(account: seq<AccountMovement>, m: AccountMovement, id: nat)
    requires m.order != Some(id)
    ensures Sum(OrderTerm(id), account + [m]) == Sum(OrderTerm(id), account)
    ensures ChargeAmount(account + [m], id) == ChargeAmount(account, id)
  {
    SumAppend(OrderTerm(id), account, m);
    FindChargeAppend(account, m, id);
  }

  /** A fresh order with its charge. */
  lemma ChargedOrder(s: Shop, t: Shop, m: AccountMovement)
    requires OrderLaw(s) && ChargesCancelOut(s) && |t.orders| == |s.orders| + 1 && t.orders[..|s.orders|] == s.orders
    requires t.orders[|s.orders|].status != Cancelled && t.account == s.account + [m] && IsChargeOf(m, |s.orders|)
    ensures OrderLaw(t) && ChargesCancelOut(t)
  {
    var n := |s.orders|;
    FreshOrderHasNoMovement(s, n);
    SumAppend(OrderTerm(n), s.account, m);
    FindChargeAppend(s.account, m, n);
    forall id | 0 <= id < n
      ensures Sum(OrderTerm(id), t.account) == if t.orders[id].status == Cancelled then 0
          else ChargeAmount(t.account, id)
    {
      assert t.orders[id] == s.orders[id];
      UnrelatedMovement(s.account, m, id);
    }
  }

  lemma CreateKeepsCharges(s: Shop, cat: Catalogue, req: SaleRequest)
    requires OrderLaw(s) && ChargesCancelOut(s) && Create(s, cat, req).Ok?
    ensures OrderLaw(Create(s, cat, req).value) && ChargesCancelOut(Create(s, cat, req).value)
  {
    CreatePosts(s, cat, req);
    var t, n := Create(s, cat, req).value, |s.orders|;
    FreshOrderHasNoMovement(s, n);
    if OnAccount(req.payments) > 0.0 {
      MovementShape(WithOrder(s, req, PriceSale(s, cat, req).value), req.customer.value, Charge,
                    OnAccount(req.payments), Some(n), req.shift, None);
      ChargedOrder(s, t, t.account[|s.account|]);
    } else {
      assert forall id :: 0 <= id < n ==> t.orders[id] == s.orders[id];
    }
  }

  lemma CommitKeepsCharges(s: Shop, id: nat, tracked: set<nat>)
    requires OrderLaw(s) && ChargesCancelOut(s) && CancelCommit(s, id, tracked).Ok?
    ensures OrderLaw(CancelCommit(s, id, tracked).value) && ChargesCancelOut(CancelCommit(s, id, tracked).value)
  {
    CommitPosts(s, id, tracked);
    var t, charge := CancelCommit(s, id, tracked).value, FindCharge(s.account, id);
    if charge.Some? {
      var delta := -(charge.value.amount as real);
      MovementShape(WithCancelled(s, id, tracked), charge.value.customer, ChargeReversal, delta, Some(id), None, None);
      var m := t.account[|s.account|];
      assert delta == (-charge.value.amount) as real;
      RoundInt(-charge.value.amount);
      SumAppend(OrderTerm(id), s.account, m);
      forall other | 0 <= other < |t.orders| && other != id
        ensures Sum(OrderTerm(other), t.account) == if t.orders[other].status == Cancelled then 0
            else ChargeAmount(t.account, other)
      {
        UnrelatedMovement(s.account, m, other);
      }
    }
  }

  lemma FreeMovementKeepsCharges(s: Shop, t: Shop, m: AccountMovement)
    requires OrderLaw(s) && ChargesCancelOut(s) && t.orders == s.orders && m.order.None?
    requires t.account == s.account + [m]
    ensures OrderLaw(t) && ChargesCancelOut(t)
  {
    forall id | 0 <= id < |t.orders|
      ensures Sum(OrderTerm(id), t.account) == if t.orders[id].status == Cancelled then 0
          else ChargeAmount(t.account, id)
    {
      UnrelatedMovement(s.account, m, id);
    }
  }

  lemma StepKeepsCharges(s: Shop, e: Event)
    requires OrderLaw(s) && ChargesCancelOut(s)
    ensures OrderLaw(Step(s, e)) && ChargesCancelOut(Step(s, e))
  {
    var t := Step(s, e);
    if Attempt(s, e).Ok? {
      match e
      case EvCreate(cat, sale) => CreateKeepsCharges(s, cat, sale);
      case EvCancelCommit(id, tracked) => CommitKeepsCharges(s, id, tracked);
      case EvPay(p) =>
        if !IsReplay(s, p) {
          PayPosts(s, p);
          MovementShape(s, p.customer, AccountPayment, PaidDelta(p.amount), None, PaymentDrawer(p), p.key);
          FreeMovementKeepsCharges(s, t, t.account[|s.account|]);
        }
      case EvAdjust(customer, delta) =>
        MovementShape(s, customer, Adjustment, delta, None, None, None);
        FreeMovementKeepsCharges(s, t, t.account[|s.account|]);
      case EvNewCustomer(_, _) =>
      case EvSetLimit(_, _) =>
      case _ => NoAccountsShape(s, e);
    }
  }

  /** In every run, a cancelled sale leaves no debt behind: its charge and its
      reversal cancel out, and a standing sale owes exactly its charge. */
  lemma {:induction false} CancelledSalesOweNothing(s: Shop, run: seq<Event>)
    requires OrderLaw(s) && ChargesCancelOut(s)
    ensures OrderLaw(Exec(s, run)) && ChargesCancelOut(Exec(s, run))
    decreases |run|
  {
    if |run| > 0 {
      CancelledSalesOweNothing(s, run[..|run| - 1]);
      StepKeepsCharges(Exec(s, run[..|run| - 1]), run[|run| - 1]);
    }
  }

  // ----- Credit limit and idempotency -----

  predicate WithinCredit(s: Shop, m: AccountMovement) {
    m.amount > 0 ==>
      && m.customer in s.customers
      && (s.customers[m.customer].creditLimit.None? || m.balanceAfter <= s.customers[m.customer].creditLimit.value)
  }

  lemma MovementWithinCredit(s: Shop, customer: nat, kind: AccountKind, delta: real, order: Option<nat>,
                             shift: Option<nat>, key: Option<nat>)
    requires ApplyAccountMovement(s, customer, kind, delta, order, shift, key).Ok?
    ensures var t := ApplyAccountMovement(s, customer, kind, delta, order, shift, key).value;
            |t.account| == |s.account| + 1 && WithinCredit(s, t.account[|s.account|])
  {
    MovementShape(s, customer, kind, delta, order, shift, key);
    if ColumnRound(delta) > 0 {
      if delta <= 0.0 { ColumnRoundMonotone(delta, 0.0); RoundInt(0); }
      var c := s.customers[customer];
      if c.creditLimit.Some? {
        ColumnRoundMonotone(c.balance as real + delta, c.creditLimit.value as real);
        RoundInt(c.creditLimit.value);
      }
    }
  }

  predicate Extends(s: Shop, t: Shop) {
    t.account == s.account
    || (|t.account| == |s.account| + 1 && s.account <= t.account && WithinCredit(s, t.account[|s.account|]))
  }

  /** The account only ever grows, by at most one movement a step, and a movement
      that raises the debt never passes the limit in force at that moment. */
  lemma StepExtendsAccount(s: Shop, e: Event)
    ensures Extends(s, Step(s, e))
  {
    if Attempt(s, e).Ok? {
      match e
      case EvCreate(cat, sale) =>
        CreatePosts(s, cat, sale);
        if OnAccount(sale.payments) > 0.0 {
          MovementWithinCredit(WithOrder(s, sale, PriceSale(s, cat, sale).value), sale.customer.value, Charge,
                               OnAccount(sale.payments), Some(|s.orders|), sale.shift, None);
        }
      case EvCancelCommit(id, tracked) =>
        CommitPosts(s, id, tracked);
        var charge := FindCharge(s.account, id);
        if charge.Some? {
          MovementWithinCredit(WithCancelled(s, id, tracked), charge.value.customer, ChargeReversal,
                               -(charge.value.amount as real), Some(id), None, None);
        }
      case EvPay(p) =>
        if !IsReplay(s, p) {
          PayPosts(s, p);
          MovementWithinCredit(s, p.customer, AccountPayment, PaidDelta(p.amount), None, PaymentDrawer(p), p.key);
        }
      case EvAdjust(customer, delta) => MovementWithinCredit(s, customer, Adjustment, delta, None, None, None);
      case EvNewCustomer(_, _) =>
      case EvSetLimit(_, _) =>
      case _ => NoAccountsShape(s, e);
    }
  }

  /** A run, movement by movement: whatever was appended at step k respected the
      credit limit of the state it was appended to. */
  lemma RunWithinCredit(s: Shop, run: seq<Event>, k: nat)
    requires k < |run|
    ensures Extends(Exec(s, run[..k]), Exec(s, run[..k + 1]))
  {
    ExecStep(s, run, k);
    StepExtendsAccount(Exec(s, run[..k]), run[k]);
  }

  lemma ExecStep(s: Shop, run: seq<Event>, k: nat)
    requires k < |run|
    ensures Exec(s, run[..k + 1]) == Step(Exec(s, run[..k]), run[k])
  {
    assert run[..k + 1][..k] == run[..k];
  }

  lemma {:induction false} FindKeyInPrefix(account: seq<AccountMovement>, longer: seq<AccountMovement>, key: nat)
    requires account <= longer && FindKey(account, key).Some?
    ensures FindKey(longer, key) == FindKey(account, key)
    decreases |account|
  {
    if account[0].key != Some(key) {
      FindKeyInPrefix(account[1..], longer[1..], key);
    }
  }

  lemma {:induction false} HistoryIsKept(s: Shop, run: seq<Event>)
    ensures s.account <= Exec(s, run).account && s.customers.Keys <= Exec(s, run).customers.Keys
    decreases |run|
  {
    if |run| > 0 {
      var mid := Exec(s, run[..|run| - 1]);
      HistoryIsKept(s, run[..|run| - 1]);
      StepExtendsAccount(mid, run[|run| - 1]);
      CustomersStay(mid, run[|run| - 1]);
    }
  }

  lemma CustomersStay(s: Shop, e: Event)
    ensures s.customers.Keys <= Step(s, e).customers.Keys
  {
  }

  /** A double click, or a retry days later: once a payment with this key went
      through, sending the key again changes nothing in any later state, not the
      balance and not the drawer, whatever amount or method comes with it. */
  lemma ReplayedPaymentChangesNothing(s: Shop, first: AccountPaymentRequest, run: seq<Event>,
                                      again: AccountPaymentRequest)
    requires first.key.Some? && RegisterPayment(s, first).Ok? && again.key == first.key
    requires again.customer in Exec(RegisterPayment(s, first).value, run).customers
    ensures var later := Exec(RegisterPayment(s, first).value, run); RegisterPayment(later, again) == Ok(later)
  {
    var t := RegisterPayment(s, first).value;
    if FindKey(s.account, first.key.value).None? {
      PaidKeyIsFound(s, first);
    }
    HistoryIsKept(t, run);
    FindKeyInPrefix(t.account, Exec(t, run).account, first.key.value);
  }

  lemma PaidKeyIsFound(s: Shop, p: AccountPaymentRequest)
    requires p.key.Some? && RegisterPayment(s, p).Ok? && FindKey(s.account, p.key.value).None?
    ensures FindKey(RegisterPayment(s, p).value.account, p.key.value).Some?
  {
    var t := RegisterPayment(s, p).value;
    assert |t.account| == |s.account| + 1;
    assert t.account[|s.account|].key == p.key;
  }
}
