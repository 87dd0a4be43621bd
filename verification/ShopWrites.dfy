/** What each operation of the shop writes, in the terms of its request alone: the
    amounts, prices and signs are written out here and not taken from the steps. */
module ShopWrites {
  import opened Prelude
  import opened Rounding
  import opened Sums
  import opened Vat
  import opened Stock
  import opened Payments
  import opened Shop
  import BundleStock
  import Discounts
  import ShopSales

  // ----- Customer accounts -----

  predicate OnlyBalance(before: map<nat, Customer>, after: map<nat, Customer>, customer: nat, balance: int) {
    && after.Keys == before.Keys && customer in before
    && after[customer] == Customer(balance, before[customer].creditLimit)
    && forall c :: c in before && c != customer ==> after[c] == before[c]
  }

  function Abs(x: real): real { if x >= 0.0 then x else -x }

  /** No movement carries the key yet. */
  predicate IsNewKey(account: seq<AccountMovement>, key: Option<nat>) {
    key.None? || forall i :: 0 <= i < |account| ==> account[i].key != key
  }

  /** The debt falls by the amount, whatever the sign it was sent with, and cash
      enters the drawer of the shift. */
  predicate LowersDebt(s: Shop, p: AccountPaymentRequest, t: Shop) {
    && p.customer in s.customers
    && var balance := ColumnRound(s.customers[p.customer].balance as real - Abs(p.amount));
       && OnlyBalance(s.customers, t.customers, p.customer, balance)
       && t.account == s.account
          + [AccountMovement(p.customer, AccountPayment, -ColumnRound(Abs(p.amount)), balance, None,
                             if p.kind == Cash then p.shift else None, p.key)]
       && (p.kind == Cash ==> p.shift.Some?)
       && t.movements == s.movements
          + (if p.kind == Cash then [CashMovement(p.shift.value, true, ColumnRound(p.amount))] else [])
  }

  /** A payment with a new key lowers the debt, and the credit limit refuses none. */
  lemma PaymentLowersDebt(s: Shop, p: AccountPaymentRequest)
    ensures RegisterPayment(s, p) != Err(OverCreditLimit)
    ensures RegisterPayment(s, p).Ok? && IsNewKey(s.account, p.key) ==> LowersDebt(s, p, RegisterPayment(s, p).value)
  {
    ColumnRoundOdd(Abs(p.amount));
  }

  /** An adjustment adds its signed amount. */
  lemma AdjustmentMovesDebt(s: Shop, customer: nat, delta: real)
    requires RegisterAdjustment(s, customer, delta).Ok?
    ensures var t := RegisterAdjustment(s, customer, delta).value;
            var balance := ColumnRound(s.customers[customer].balance as real + delta);
            && OnlyBalance(s.customers, t.customers, customer, balance)
            && t.account == s.account
               + [AccountMovement(customer, Adjustment, ColumnRound(delta), balance, None, None, None)]
  {
  }

  /** A customer starts without debt, and a new limit replaces the old one; the
      debt and the other customers stay. */
  lemma CustomerIsAsAsked(s: Shop, id: nat, limit: Option<int>)
    ensures var t := Step(s, EvNewCustomer(id, limit));
            && t.customers.Keys == s.customers.Keys + {id} && t == s.(customers := t.customers)
            && (forall c :: c in s.customers ==> t.customers[c] == s.customers[c])
            && (id !in s.customers ==> t.customers[id].balance == 0 && t.customers[id].creditLimit == limit)
    ensures id in s.customers ==>
              var t := Step(s, EvSetLimit(id, limit));
              && t.customers.Keys == s.customers.Keys && t == s.(customers := t.customers)
              && t.customers[id].balance == s.customers[id].balance && t.customers[id].creditLimit == limit
              && forall c :: c in s.customers && c != id ==> t.customers[c] == s.customers[c]
  {
    assert (s.customers.Keys + {id}) - s.customers.Keys <= {id};
  }

  // ----- Orders -----

  /** The variant's own price when it has one, otherwise the product's. */
  function AskedGross(p: Product, it: ItemRequest): real {
    (if it.variant.Some? && it.variant.value in p.variants && p.variants[it.variant.value].Some?
     then p.variants[it.variant.value].value else p.price) as real * it.quantity / 1000.0
  }

  /** What was asked for, no less than nothing and no more than the line. */
  function AskedDiscount(p: Product, it: ItemRequest): real {
    var wanted := if it.discount < 0.0 then 0.0 else it.discount;
    if wanted <= AskedGross(p, it) then wanted else AskedGross(p, it)
  }

  function AskedTotal(p: Product, it: ItemRequest): real { AskedGross(p, it) - AskedDiscount(p, it) }

  /** 21 of every 121 and 10.5 of every 110.5. */
  function AskedTax(p: Product, it: ItemRequest): real {
    match p.vat
    case Iva21 => AskedTotal(p, it) * 21.0 / 121.0
    case Iva105 => AskedTotal(p, it) * 21.0 / 221.0
    case _ => 0.0
  }

  /** What so many bundles use of one component. */
  function AskedUse(c: BundleStock.Component, bundles: real): ComponentUse {
    ComponentUse(c.product, c.variant, ColumnRound(c.quantity as real * bundles))
  }

  predicate ComponentsFollow(p: Product, it: ItemRequest, uses: seq<ComponentUse>) {
    && |uses| == (if p.isBundle then |p.components| else 0)
    && forall j :: 0 <= j < |uses| ==> uses[j] == AskedUse(p.components[j], it.quantity / 1000.0)
  }

  predicate LineFollows(p: Product, it: ItemRequest, item: OrderItem) {
    && item.product == it.product && item.variant == it.variant && item.isBundle == p.isBundle && item.vat == p.vat
    && item.quantity == ColumnRound(it.quantity)
    && item.subtotal == ColumnRound(AskedGross(p, it)) && item.discount == ColumnRound(AskedDiscount(p, it))
    && item.total == ColumnRound(AskedTotal(p, it))
    && ComponentsFollow(p, it, item.components)
  }

  predicate LinesFollow(cat: Catalogue, items: seq<ItemRequest>, stored: seq<OrderItem>) {
    && |stored| == |items|
    && forall i :: 0 <= i < |items| ==>
         items[i].product in cat && LineFollows(cat[items[i].product], items[i], stored[i])
  }

  function AskedTerm(cat: Catalogue, f: (Product, ItemRequest) -> real): ItemRequest -> real {
    (it: ItemRequest) => if it.product in cat then f(cat[it.product], it) else 0.0
  }

  function AskedSum(cat: Catalogue, f: (Product, ItemRequest) -> real, items: seq<ItemRequest>): real {
    RealSum(AskedTerm(cat, f), items)
  }

  predicate SumsFollow(cat: Catalogue, items: seq<ItemRequest>, sale: Sale) {
    && sale.subtotal == AskedSum(cat, AskedGross, items) && sale.discount == AskedSum(cat, AskedDiscount, items)
    && sale.total == AskedSum(cat, AskedTotal, items) && sale.tax == AskedSum(cat, AskedTax, items)
  }

  predicate SaleFollows(cat: Catalogue, items: seq<ItemRequest>, sale: Sale) {
    LinesFollow(cat, items, StoredItems(sale.items)) && SumsFollow(cat, items, sale)
  }

  lemma LineAsAsked(p: Product, it: ItemRequest)
    ensures LineOf(p, it).gross == AskedGross(p, it) && LineOf(p, it).discount == AskedDiscount(p, it)
    ensures IvaContained(LineTotal(LineOf(p, it)), RateOf(p.vat)) == AskedTax(p, it)
  {
    var u := UnitPrice(p, it.variant) as real;
    assert u * (it.quantity / 1000.0) == u * it.quantity / 1000.0;
  }

  lemma {:induction false} UsesFollow(components: seq<BundleStock.Component>, bundles: real)
    ensures |UsesOf(components, bundles)| == |components|
    ensures forall j :: 0 <= j < |components| ==> UsesOf(components, bundles)[j] == AskedUse(components[j], bundles)
    decreases |components|
  {
    if |components| > 0 {
      UsesFollow(components[1..], bundles);
      assert UsesOf(components, bundles) == [AskedUse(components[0], bundles)] + UsesOf(components[1..], bundles);
    }
  }

  lemma ItemFollows(p: Product, it: ItemRequest)
    ensures LineFollows(p, it, StoredItem(ResolvedOf(p, it)))
  {
    LineAsAsked(p, it);
    UsesFollow(p.components, it.quantity / 1000.0);
  }

  lemma StoredOneMore(items: seq<Resolved>, r: Resolved)
    ensures StoredItems(items + [r]) == StoredItems(items) + [StoredItem(r)]
  {
    assert (items + [r])[..|items|] == items;
  }

  lemma LinesOneMore(cat: Catalogue, done: seq<ItemRequest>, stored: seq<OrderItem>, it: ItemRequest)
    requires LinesFollow(cat, done, stored) && it.product in cat
    ensures LinesFollow(cat, done + [it], stored + [StoredItem(ResolvedOf(cat[it.product], it))])
  {
    ItemFollows(cat[it.product], it);
  }

  lemma SumsOneMore(cat: Catalogue, store: nat, limit: Option<real>, done: seq<ItemRequest>, sale: Sale,
                    it: ItemRequest)
    requires SumsFollow(cat, done, sale) && SellItem(cat, store, limit, sale, it).Ok?
    ensures SumsFollow(cat, done + [it], SellItem(cat, store, limit, sale, it).value)
  {
    LineAsAsked(cat[it.product], it);
    RealSumAppend(AskedTerm(cat, AskedGross), done, it);
    RealSumAppend(AskedTerm(cat, AskedDiscount), done, it);
    RealSumAppend(AskedTerm(cat, AskedTotal), done, it);
    RealSumAppend(AskedTerm(cat, AskedTax), done, it);
  }

  lemma OneMoreFollows(cat: Catalogue, store: nat, limit: Option<real>, done: seq<ItemRequest>, sale: Sale,
                       it: ItemRequest)
    requires SaleFollows(cat, done, sale) && SellItem(cat, store, limit, sale, it).Ok?
    ensures SaleFollows(cat, done + [it], SellItem(cat, store, limit, sale, it).value)
  {
    SumsOneMore(cat, store, limit, done, sale, it);
    LinesOneMore(cat, done, StoredItems(sale.items), it);
    StoredOneMore(sale.items, ResolvedOf(cat[it.product], it));
  }

  lemma {:induction false} SellItemsFollow(cat: Catalogue, store: nat, limit: Option<real>, done: seq<ItemRequest>,
                                           sale: Sale, items: seq<ItemRequest>)
    requires SaleFollows(cat, done, sale) && SellItems(cat, store, limit, sale, items).Ok?
    ensures SaleFollows(cat, done + items, SellItems(cat, store, limit, sale, items).value)
    decreases |items|
  {
    if |items| == 0 {
      assert done + items == done;
    } else {
      var next := SellItem(cat, store, limit, sale, items[0]).value;
      OneMoreFollows(cat, store, limit, done, sale, items[0]);
      SellItemsFollow(cat, store, limit, done + [items[0]], next, items[1..]);
      Regroup(done, items);
    }
  }

  lemma Regroup(done: seq<ItemRequest>, items: seq<ItemRequest>)
    requires |items| > 0
    ensures done + [items[0]] + items[1..] == done + items
  {
  }

  predicate PaymentsFollow(payments: seq<Payment>, stored: seq<StoredPayment>) {
    && |stored| == |payments|
    && forall i :: 0 <= i < |payments| ==> stored[i] == StoredPayment(payments[i].kind, ColumnRound(payments[i].amount))
  }

  lemma {:induction false} StoredPaymentsFollow(payments: seq<Payment>)
    ensures PaymentsFollow(payments, StoredPayments(payments))
    decreases |payments|
  {
    if |payments| > 0 {
      StoredPaymentsFollow(payments[..|payments| - 1]);
    }
  }

  predicate OrderFollows(cat: Catalogue, req: SaleRequest, o: Order) {
    && o.store == req.store && Some(o.shift) == req.shift && o.customer == req.customer && o.status == Completed
    && LinesFollow(cat, req.items, o.items) && PaymentsFollow(req.payments, o.payments)
    && o.subtotal == ColumnRound(AskedSum(cat, AskedGross, req.items))
    && o.discount == ColumnRound(AskedSum(cat, AskedDiscount, req.items))
    && o.tax == ColumnRound(AskedSum(cat, AskedTax, req.items))
    && o.total == ColumnRound(AskedSum(cat, AskedTotal, req.items))
  }

  /** The order holds what was asked for at the prices of the catalogue: one stored
      item for each requested one, in order. */
  lemma OrderIsAsAsked(s: Shop, cat: Catalogue, req: SaleRequest)
    requires Create(s, cat, req).Ok?
    ensures var t := Create(s, cat, req).value;
            && |t.orders| == |s.orders| + 1 && t.orders[..|s.orders|] == s.orders
            && OrderFollows(cat, req, t.orders[|s.orders|])
  {
    ShopSales.OrderWritten(s, cat, req);
    SellItemsFollow(cat, req.store, req.limit, [], EmptySale(s.levels), req.items);
    assert [] + req.items == req.items;
    StoredPaymentsFollow(req.payments);
  }

  /** The product is for sale, its variant is its own, and the discount is within the
      cap of the role, to a hundredth of a percent. */
  predicate MaySell(cat: Catalogue, limit: Option<real>, it: ItemRequest) {
    && it.product in cat && cat[it.product].isActive
    && (it.variant.Some? ==> it.variant.value in cat[it.product].variants)
    && (cat[it.product].isBundle ==> cat[it.product].components != [])
    && (limit.Some? && AskedGross(cat[it.product], it) > 0.0 && AskedDiscount(cat[it.product], it) > 0.0 ==>
          100.0 * AskedDiscount(cat[it.product], it) <= (limit.value + 0.01) * AskedGross(cat[it.product], it))
  }

  lemma SoldMaySell(cat: Catalogue, store: nat, limit: Option<real>, sale: Sale, it: ItemRequest)
    requires SellItem(cat, store, limit, sale, it).Ok?
    ensures MaySell(cat, limit, it)
  {
    var p := cat[it.product];
    LineAsAsked(p, it);
    if limit.Some? && AskedGross(p, it) > 0.0 {
      Discounts.WithinLimitProduct(limit.value + 0.01, AskedDiscount(p, it), AskedGross(p, it));
    }
  }

  lemma {:induction false} AllMaySell(cat: Catalogue, store: nat, limit: Option<real>, sale: Sale,
                                      items: seq<ItemRequest>)
    requires SellItems(cat, store, limit, sale, items).Ok?
    ensures forall i :: 0 <= i < |items| ==> MaySell(cat, limit, items[i])
    decreases |items|
  {
    if |items| > 0 {
      SoldMaySell(cat, store, limit, sale, items[0]);
      AllMaySell(cat, store, limit, SellItem(cat, store, limit, sale, items[0]).value, items[1..]);
      forall i | 0 <= i < |items|
        ensures MaySell(cat, limit, items[i])
      {
        if i > 0 { assert items[i] == items[1..][i - 1]; }
      }
    }
  }

  function Paid(payments: seq<Payment>): real
  {
    if |payments| == 0 then 0.0 else Paid(payments[..|payments| - 1]) + payments[|payments| - 1].amount
  }

  lemma {:induction false} PaidIsTotal(payments: seq<Payment>)
    ensures TotalPaid(payments) == Paid(payments)
    decreases |payments|
  {
    if |payments| > 0 {
      PaidIsTotal(payments[..|payments| - 1]);
    }
  }

  /** A cashier sells on an open shift of their own in the store. */
  predicate MayOperate(s: Shop, req: SaleRequest) {
    && req.store in s.stores && req.shift.Some? && req.shift.value < |s.shifts|
    && var shift := s.shifts[req.shift.value];
       shift.store == req.store && shift.isOpen && (req.actor.role == Cashier ==> shift.user == req.actor.user)
  }

  /** What every accepted sale fulfils: nothing is sold that may not be, at least
      the total is paid but for a cent, and more than that only with cash. */
  lemma AcceptedSale(s: Shop, cat: Catalogue, req: SaleRequest)
    requires Create(s, cat, req).Ok?
    ensures MayOperate(s, req) && forall i :: 0 <= i < |req.items| ==> MaySell(cat, req.limit, req.items[i])
    ensures var total, paid := AskedSum(cat, AskedTotal, req.items), Paid(req.payments);
            && total - 1.0 <= paid
            && (paid <= total + 1.0 || exists i :: 0 <= i < |req.payments| && req.payments[i].kind == Cash)
  {
    AllMaySell(cat, req.store, req.limit, EmptySale(s.levels), req.items);
    SellItemsFollow(cat, req.store, req.limit, [], EmptySale(s.levels), req.items);
    assert [] + req.items == req.items;
    PaidIsTotal(req.payments);
  }

  /** The part of the payment that goes on account. */
  function AskedCredit(payments: seq<Payment>): real
  {
    if |payments| == 0 then 0.0 else
      var p := payments[|payments| - 1];
      AskedCredit(payments[..|payments| - 1]) + (if p.kind == CurrentAccount then p.amount else 0.0)
  }

  lemma {:induction false} CreditIsAsked(payments: seq<Payment>)
    ensures OnAccount(payments) == AskedCredit(payments)
    decreases |payments|
  {
    if |payments| > 0 {
      CreditIsAsked(payments[..|payments| - 1]);
    }
  }

  /** A sale raises the debt by what is paid on account, and by nothing else. */
  lemma SaleRaisesDebt(s: Shop, cat: Catalogue, req: SaleRequest)
    requires Create(s, cat, req).Ok?
    ensures var t, credit := Create(s, cat, req).value, AskedCredit(req.payments);
            if credit > 0.0 then
              && req.customer.Some? && req.customer.value in s.customers
              && var balance := ColumnRound(s.customers[req.customer.value].balance as real + credit);
                 && OnlyBalance(s.customers, t.customers, req.customer.value, balance)
                 && t.account == s.account + [AccountMovement(req.customer.value, Charge, ColumnRound(credit), balance,
                                                              Some(|s.orders|), req.shift, None)]
            else t.customers == s.customers && t.account == s.account
  {
    CreditIsAsked(req.payments);
    var sale := PriceSale(s, cat, req).value;
    assert PostCharge(WithOrder(s, req, sale), req, |s.orders|) == Create(s, cat, req);
  }

  // ----- Purchases and adjustments of stock -----

  /** The purchase keeps every line, with its quantity as the column stores it. */
  lemma {:induction false} PurchaseIsAsAsked(lines: seq<PurchaseRequest>, i: nat)
    requires i < |lines|
    ensures |StoredLines(lines)| == |lines|
    ensures StoredLines(lines)[i] == PurchaseLine(lines[i].product, lines[i].variant, ColumnRound(lines[i].quantity))
    decreases |lines|
  {
    if |lines| > 1 {
      PurchaseIsAsAsked(lines[..|lines| - 1], if i < |lines| - 1 then i else 0);
    }
  }

  /** A change adds its signed amount, a count replaces the level, and an alert
      leaves it alone; no other level moves. */
  lemma AdjustmentMovesLevel(s: Shop, cat: Catalogue, store: nat, product: nat, variant: Option<nat>, change: Change)
    requires AdjustStock(s, cat, store, product, variant, change).Ok?
    ensures var t := AdjustStock(s, cat, store, product, variant, change).value;
            var key := Key(store, if variant.Some? then VariantTarget(variant.value) else ProductTarget(product));
            && (change.Delta? && IsWhole(change.amount) ==>
                  LevelOf(t.levels, key) as real == LevelOf(s.levels, key) as real + change.amount)
            && (change.Delta? ==>
                  -0.5 <= LevelOf(t.levels, key) as real - LevelOf(s.levels, key) as real - change.amount <= 0.5)
            && (change.Absolute? ==> -0.5 <= LevelOf(t.levels, key) as real - change.quantity <= 0.5)
            && (change.AlertOnly? ==> LevelOf(t.levels, key) == LevelOf(s.levels, key))
            && forall k :: k != key ==> LevelOf(t.levels, k) == LevelOf(s.levels, k)
  {
    if change.Delta? && IsWhole(change.amount) {
      var key := Key(store, TargetOf(product, variant));
      var next := LevelOf(s.levels, key) + change.amount.Floor;
      RoundInt(next);
      assert next as real == LevelOf(s.levels, key) as real + change.amount;
    }
  }

  predicate IsWhole(x: real) { x == x.Floor as real }
}
