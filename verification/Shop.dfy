/** One tenant's shop: its tables, and every operation as one atomic step that
    either commits a new state or fails and leaves the old one. */
module Shop {
  import opened Prelude
  import opened Rounding
  import opened Sums
  import opened Vat
  import opened Stock
  import opened Payments
  import BundleStock
  import Discounts

  // ----- Tables. Money in cents, quantities in thousandths -----

  datatype Role = Cashier | Supervisor

  datatype Actor = Actor(user: nat, role: Role)

  datatype OrderStatus = Completed | Cancelled

  datatype StoredPayment = StoredPayment(kind: Method, amount: int)

  datatype ComponentUse = ComponentUse(product: nat, variant: Option<nat>, quantity: int)

  datatype OrderItem = OrderItem(product: nat, variant: Option<nat>, isBundle: bool, quantity: int,
                                 vat: VatCondition, discount: int, subtotal: int, total: int,
                                 components: seq<ComponentUse>)

  datatype Order = Order(store: nat, shift: nat, customer: Option<nat>, status: OrderStatus,
                         subtotal: int, discount: int, tax: int, total: int,
                         items: seq<OrderItem>, payments: seq<StoredPayment>)

  datatype Register = Register(store: nat, isActive: bool)

  datatype Shift = Shift(store: nat, register: nat, user: nat, initialAmount: int, isOpen: bool,
                         actualCash: Option<int>, expectedCash: Option<int>, difference: Option<int>)

  datatype CashMovement = CashMovement(shift: nat, isInflow: bool, amount: int)

  datatype Customer = Customer(balance: int, creditLimit: Option<int>)

  datatype AccountKind = Charge | AccountPayment | Adjustment | ChargeReversal

  datatype AccountMovement = AccountMovement(customer: nat, kind: AccountKind, amount: int, balanceAfter: int,
                                             order: Option<nat>, shift: Option<nat>, key: Option<nat>)

  datatype PurchaseLine = PurchaseLine(product: nat, variant: Option<nat>, quantity: int)

  datatype Purchase = Purchase(store: nat, lines: seq<PurchaseLine>)

  datatype LevelChange = LevelChange(key: Key, before: int, after: int)

  datatype WebLine = WebLine(key: Key, quantity: int)

  datatype Shop = Shop(
    stores: set<nat>,
    registers: map<nat, Register>,
    levels: Levels,
    orders: seq<Order>,
    cancelling: multiset<nat>,  // orders between the first and the third phase of a cancellation
    shifts: seq<Shift>,
    movements: seq<CashMovement>,
    customers: map<nat, Customer>,
    account: seq<AccountMovement>,
    purchases: seq<Purchase>,
    adjustments: seq<LevelChange>,
    webLines: seq<WebLine>)

  datatype Error =
    | StoreNotFound | RegisterNotFound | RegisterInactive | ShiftRequired | ShiftNotFound | ShiftNotOpen
    | ShiftAlreadyOpen | NotYourShift | ProductNotFound | VariantNotFound | DiscountOverLimit | EmptyBundle
    | InsufficientStock | PaymentTooLow | OverpaidByCard | CustomerRequired | CustomerNotFound | OverCreditLimit
    | OrderNotFound | AlreadyCancelled | ShiftAlreadyClosed | NotCancelling | BundleHasNoStock

  // ----- The catalogue a sale reads -----

  /** Variants carry their own price, or none to use the product's. */
  datatype Product = Product(isActive: bool, isBundle: bool, trackStock: bool, price: int, vat: VatCondition,
                             variants: map<nat, Option<int>>, components: seq<BundleStock.Component>)

  type Catalogue = map<nat, Product>

  datatype ItemRequest = ItemRequest(product: nat, variant: Option<nat>, quantity: real, discount: real)

  datatype SaleRequest = SaleRequest(store: nat, shift: Option<nat>, actor: Actor, customer: Option<nat>,
                                     items: seq<ItemRequest>, payments: seq<Payment>, limit: Option<real>)

  /** What the validation of the request body guarantees. */
  predicate WellFormedItems(items: seq<ItemRequest>) {
    forall i :: 0 <= i < |items| ==> items[i].quantity >= 1.0
  }

  // ----- attemptCreate -----

  /** ResolvedOrderItem: a priced line, not yet rounded by the columns. */
  datatype Resolved = Resolved(request: ItemRequest, isBundle: bool, vat: VatCondition, line: Discounts.Line,
                               components: seq<ComponentUse>)

  datatype Sale = Sale(levels: Levels, subtotal: real, discount: real, tax: real, total: real, items: seq<Resolved>)

  function UnitPrice(p: Product, variant: Option<nat>): int {
    if variant.Some? && variant.value in p.variants && p.variants[variant.value].Some?
    then p.variants[variant.value].value else p.price
  }

  function GrossOf(p: Product, it: ItemRequest): real {
    UnitPrice(p, it.variant) as real * (it.quantity / 1000.0)
  }

  function LineOf(p: Product, it: ItemRequest): Discounts.Line {
    Discounts.Line(GrossOf(p, it), Discounts.LineDiscount(it.discount, GrossOf(p, it)))
  }

  /** Every component is remembered, tracked or not. */
  function UsesOf(components: seq<BundleStock.Component>, k: real): seq<ComponentUse>
  {
    if |components| == 0 then [] else
      var c := components[0];
      [ComponentUse(c.product, c.variant, ColumnRound(c.quantity as real * k))] + UsesOf(components[1..], k)
  }

  function MovesOf(p: Product, it: ItemRequest): seq<Move> {
    if p.isBundle then BundleStock.BundleMoves(p.components, it.quantity / 1000.0)
    else if p.trackStock then [Move(TargetOf(it.product, it.variant), it.quantity)]
    else []
  }

  function ResolvedOf(p: Product, it: ItemRequest): Resolved {
    Resolved(it, p.isBundle, p.vat, LineOf(p, it),
             if p.isBundle then UsesOf(p.components, it.quantity / 1000.0) else [])
  }

  function LineTotal(l: Discounts.Line): real { l.gross - l.discount }

  function SellItem(cat: Catalogue, store: nat, limit: Option<real>, sale: Sale, it: ItemRequest): Result<Sale, Error>
  {
    if it.product !in cat || !cat[it.product].isActive then Err(ProductNotFound) else
      var p := cat[it.product];
      if it.variant.Some? && it.variant.value !in p.variants then Err(VariantNotFound) else
        var line := LineOf(p, it);
        if !Discounts.WithinLimit(limit, line.discount, line.gross) then Err(DiscountOverLimit)
        else if p.isBundle && |p.components| == 0 then Err(EmptyBundle)
        else
          var levels := Take(sale.levels, store, MovesOf(p, it));
          if levels.None? then Err(InsufficientStock) else
            Ok(Sale(levels.value, sale.subtotal + line.gross, sale.discount + line.discount,
                    sale.tax + IvaContained(LineTotal(line), RateOf(p.vat)), sale.total + LineTotal(line),
                    sale.items + [ResolvedOf(p, it)]))
  }

  function SellItems(cat: Catalogue, store: nat, limit: Option<real>, sale: Sale,
                     items: seq<ItemRequest>): Result<Sale, Error>
    decreases |items|
  {
    if |items| == 0 then Ok(sale) else
      var next := SellItem(cat, store, limit, sale, items[0]);
      if next.Err? then next else SellItems(cat, store, limit, next.value, items[1..])
  }

  function StoredItem(r: Resolved): OrderItem {
    OrderItem(r.request.product, r.request.variant, r.isBundle, ColumnRound(r.request.quantity), r.vat,
              ColumnRound(r.line.discount), ColumnRound(r.line.gross), ColumnRound(LineTotal(r.line)), r.components)
  }

  function StoredItems(items: seq<Resolved>): seq<OrderItem>
  {
    if |items| == 0 then [] else StoredItems(items[..|items| - 1]) + [StoredItem(items[|items| - 1])]
  }

  function StoredPayments(payments: seq<Payment>): seq<StoredPayment>
  {
    if |payments| == 0 then [] else
      var p := payments[|payments| - 1];
      StoredPayments(payments[..|payments| - 1]) + [StoredPayment(p.kind, ColumnRound(p.amount))]
  }

  function OnAccountTerm(): Payment -> real { (p: Payment) => if p.kind == CurrentAccount then p.amount else 0.0 }

  function OnAccount(payments: seq<Payment>): real { RealSum(OnAccountTerm(), payments) }

  function EmptySale(levels: Levels): Sale { Sale(levels, 0.0, 0.0, 0.0, 0.0, []) }

  function CheckShift(s: Shop, req: SaleRequest): Option<Error> {
    if req.store !in s.stores then Some(StoreNotFound)
    else if req.shift.None? then Some(ShiftRequired)
    else if req.shift.value >= |s.shifts| || s.shifts[req.shift.value].store != req.store then Some(ShiftNotFound)
    else if !s.shifts[req.shift.value].isOpen then Some(ShiftNotOpen)
    else if req.actor.role == Cashier && s.shifts[req.shift.value].user != req.actor.user then Some(NotYourShift)
    else None
  }

  /** The checks made once the lines are priced. */
  function CheckSale(req: SaleRequest, sale: Sale): Option<Error> {
    if !Discounts.WithinLimit(req.limit, sale.discount, sale.subtotal) then Some(DiscountOverLimit) else
      match ServerVerdict(req.payments, sale.total)
      case Insufficient => Some(PaymentTooLow)
      case OverpaidWithoutCash => Some(OverpaidByCard)
      case Accepted => if OnAccount(req.payments) > 0.0 && req.customer.None? then Some(CustomerRequired) else None
  }

  function OrderOf(req: SaleRequest, sale: Sale): Order
    requires req.shift.Some?
  {
    Order(req.store, req.shift.value, req.customer, Completed, ColumnRound(sale.subtotal), ColumnRound(sale.discount),
          ColumnRound(sale.tax), ColumnRound(sale.total), StoredItems(sale.items), StoredPayments(req.payments))
  }

  /** The stock taken and the order written, before the account is posted. */
  function WithOrder(s: Shop, req: SaleRequest, sale: Sale): Shop
    requires req.shift.Some?
  {
    s.(levels := sale.levels, orders := s.orders + [OrderOf(req, sale)])
  }

  function PostCharge(s: Shop, req: SaleRequest, id: nat): Result<Shop, Error>
    requires OnAccount(req.payments) > 0.0 ==> req.customer.Some?
  {
    if OnAccount(req.payments) > 0.0
    then ApplyAccountMovement(s, req.customer.value, Charge, OnAccount(req.payments), Some(id), req.shift, None)
    else Ok(s)
  }

  function PriceSale(s: Shop, cat: Catalogue, req: SaleRequest): Result<Sale, Error> {
    SellItems(cat, req.store, req.limit, EmptySale(s.levels), req.items)
  }

  function Create(s: Shop, cat: Catalogue, req: SaleRequest): Result<Shop, Error>
  {
    var bad := CheckShift(s, req);
    if bad.Some? then Err(bad.value) else
      var sold := PriceSale(s, cat, req);
      if sold.Err? then Err(sold.error) else
        var refused := CheckSale(req, sold.value);
        if refused.Some? then Err(refused.value) else PostCharge(WithOrder(s, req, sold.value), req, |s.orders|)
  }

  // ----- applyAccountMovement -----

  predicate CreditAllows(c: Customer, delta: real) {
    delta <= 0.0 || c.creditLimit.None? || c.balance as real + delta <= c.creditLimit.value as real
  }

  function ApplyAccountMovement(s: Shop, customer: nat, kind: AccountKind, delta: real, order: Option<nat>,
                                shift: Option<nat>, key: Option<nat>): Result<Shop, Error>
  {
    if customer !in s.customers then Err(CustomerNotFound)
    else if !CreditAllows(s.customers[customer], delta) then Err(OverCreditLimit)
    else
      var c := s.customers[customer];
      var balance := ColumnRound(c.balance as real + delta);
      Ok(s.(customers := s.customers[customer := c.(balance := balance)],
            account := s.account + [AccountMovement(customer, kind, ColumnRound(delta), balance, order, shift, key)]))
  }

  // ----- cancel -----

  function CancelBegin(s: Shop, id: nat): Result<Shop, Error>
  {
    if id >= |s.orders| then Err(OrderNotFound)
    else if s.orders[id].status == Cancelled then Err(AlreadyCancelled)
    else if s.orders[id].shift >= |s.shifts| || !s.shifts[s.orders[id].shift].isOpen then Err(ShiftAlreadyClosed)
    else Ok(s.(cancelling := s.cancelling + multiset{id}))
  }

  /** The authority refused the credit note, or the request died on the way. */
  function CancelAbort(s: Shop, id: nat): Result<Shop, Error>
  {
    if id !in s.cancelling then Err(NotCancelling) else Ok(s.(cancelling := s.cancelling - multiset{id}))
  }

  function UseLines(components: seq<ComponentUse>, tracked: set<nat>): seq<Snapshot>
  {
    if |components| == 0 then [] else
      var c := components[0];
      (if c.product in tracked then [Snapshot(TargetOf(c.product, c.variant), c.quantity)] else [])
      + UseLines(components[1..], tracked)
  }

  /** What cancelling one line returns, given the products that track stock now. */
  function ItemLines(item: OrderItem, tracked: set<nat>): seq<Snapshot> {
    if item.isBundle then UseLines(item.components, tracked)
    else if item.product in tracked then [Snapshot(TargetOf(item.product, item.variant), item.quantity)]
    else []
  }

  function RestockLines(items: seq<OrderItem>, tracked: set<nat>): seq<Snapshot>
  {
    if |items| == 0 then [] else RestockLines(items[..|items| - 1], tracked) + ItemLines(items[|items| - 1], tracked)
  }

  predicate IsChargeOf(m: AccountMovement, id: nat) { m.kind == Charge && m.order == Some(id) }

  function FindCharge(account: seq<AccountMovement>, id: nat): (r: Option<AccountMovement>)
    ensures r.Some? ==> r.value in account && IsChargeOf(r.value, id)
    ensures r.None? ==> forall i :: 0 <= i < |account| ==> !IsChargeOf(account[i], id)
  {
    if |account| == 0 then None
    else if IsChargeOf(account[0], id) then Some(account[0])
    else FindCharge(account[1..], id)
  }

  /** The stock returned and the order cancelled, before the account is posted. */
  function WithCancelled(s: Shop, id: nat, tracked: set<nat>): Shop
    requires id < |s.orders|
  {
    var o := s.orders[id];
    s.(levels := PutBack(s.levels, o.store, RestockLines(o.items, tracked)),
       orders := s.orders[id := o.(status := Cancelled)],
       cancelling := s.cancelling - multiset{id})
  }

  function PostReversal(s: Shop, charge: Option<AccountMovement>, id: nat): Result<Shop, Error> {
    if charge.None? then Ok(s) else
      ApplyAccountMovement(s, charge.value.customer, ChargeReversal, -(charge.value.amount as real), Some(id), None,
                           None)
  }

  /** The third phase: it checks the status again, but not the shift. */
  function CancelCommit(s: Shop, id: nat, tracked: set<nat>): Result<Shop, Error>
  {
    if id !in s.cancelling then Err(NotCancelling)
    else if id >= |s.orders| then Err(OrderNotFound)
    else if s.orders[id].status == Cancelled then Err(AlreadyCancelled)
    else PostReversal(WithCancelled(s, id, tracked), FindCharge(s.account, id), id)
  }

  // ----- cash shifts -----

  function Open(s: Shop, register: nat, user: nat, initial: real): Result<Shop, Error>
  {
    if register !in s.registers then Err(RegisterNotFound)
    else if !s.registers[register].isActive then Err(RegisterInactive)
    else if exists i :: 0 <= i < |s.shifts| && s.shifts[i].register == register && s.shifts[i].isOpen
    then Err(ShiftAlreadyOpen)
    else Ok(s.(shifts := s.shifts + [Shift(s.registers[register].store, register, user, ColumnRound(initial), true,
                                           None, None, None)]))
  }

  predicate CanOperate(actor: Actor, shift: Shift) { actor.role == Cashier ==> shift.user == actor.user }

  function CheckOperate(s: Shop, actor: Actor, shift: nat): Option<Error> {
    if shift >= |s.shifts| then Some(ShiftNotFound)
    else if !CanOperate(actor, s.shifts[shift]) then Some(NotYourShift)
    else if !s.shifts[shift].isOpen then Some(ShiftNotOpen)
    else None
  }

  function AddMovement(s: Shop, actor: Actor, shift: nat, isInflow: bool, amount: real): Result<Shop, Error>
  {
    var bad := CheckOperate(s, actor, shift);
    if bad.Some? then Err(bad.value)
    else Ok(s.(movements := s.movements + [CashMovement(shift, isInflow, ColumnRound(amount))]))
  }

  function CashTerm(): StoredPayment -> int { (p: StoredPayment) => if p.kind == Cash then p.amount else 0 }

  function NonCashTerm(): StoredPayment -> int { (p: StoredPayment) => if p.kind != Cash then p.amount else 0 }

  function CashPaid(o: Order): int { Sum(CashTerm(), o.payments) }

  function NonCashPaid(o: Order): int { Sum(NonCashTerm(), o.payments) }

  /** The cash the summary counts for one order. */
  function NetCash(o: Order): int {
    if CashPaid(o) == 0 then 0 else
      var owed := if o.total - NonCashPaid(o) > 0 then o.total - NonCashPaid(o) else 0;
      if CashPaid(o) < owed then CashPaid(o) else owed
  }

  function NetCashTerm(shift: nat): Order -> int {
    (o: Order) => if o.shift == shift && o.status != Cancelled then NetCash(o) else 0
  }

  function InflowTerm(shift: nat): CashMovement -> int {
    (m: CashMovement) => if m.shift == shift && m.isInflow then m.amount else 0
  }

  function OutflowTerm(shift: nat): CashMovement -> int {
    (m: CashMovement) => if m.shift == shift && !m.isInflow then m.amount else 0
  }

  function InitialAmount(s: Shop, shift: nat): int { if shift < |s.shifts| then s.shifts[shift].initialAmount else 0 }

  /** computeSummary: what should be in the drawer, derived from history. */
  function ExpectedCash(s: Shop, shift: nat): int {
    InitialAmount(s, shift) + Sum(InflowTerm(shift), s.movements) - Sum(OutflowTerm(shift), s.movements)
    + Sum(NetCashTerm(shift), s.orders)
  }

  function Close(s: Shop, actor: Actor, shift: nat, actualCash: real): Result<Shop, Error>
  {
    var bad := CheckOperate(s, actor, shift);
    if bad.Some? then Err(bad.value) else
      var expected := ExpectedCash(s, shift);
      var closed := s.shifts[shift].(isOpen := false, actualCash := Some(ColumnRound(actualCash)),
                                     expectedCash := Some(expected),
                                     difference := Some(ColumnRound(actualCash - expected as real)));
      Ok(s.(shifts := s.shifts[shift := closed]))
  }

  // ----- customer accounts -----

  function FindKey(account: seq<AccountMovement>, key: nat): (r: Option<AccountMovement>)
    ensures r.Some? ==> r.value in account && r.value.key == Some(key)
    ensures r.None? ==> forall i :: 0 <= i < |account| ==> account[i].key != Some(key)
  {
    if |account| == 0 then None
    else if account[0].key == Some(key) then Some(account[0])
    else FindKey(account[1..], key)
  }

  datatype AccountPaymentRequest = AccountPaymentRequest(customer: nat, amount: real, kind: Method,
                                                         shift: Option<nat>, key: Option<nat>)

  /** -Math.abs(amount). */
  function PaidDelta(amount: real): real { -(if amount < 0.0 then -amount else amount) }

  function PaymentDrawer(req: AccountPaymentRequest): Option<nat> { if req.kind == Cash then req.shift else None }

  predicate IsReplay(s: Shop, req: AccountPaymentRequest) {
    req.key.Some? && FindKey(s.account, req.key.value).Some?
  }

  function PostPayment(s: Shop, req: AccountPaymentRequest): Result<Shop, Error> {
    ApplyAccountMovement(s, req.customer, AccountPayment, PaidDelta(req.amount), None, PaymentDrawer(req), req.key)
  }

  /** A key already used returns the earlier result and changes nothing. */
  function RegisterPayment(s: Shop, req: AccountPaymentRequest): Result<Shop, Error>
  {
    if req.customer !in s.customers then Err(CustomerNotFound)
    else if IsReplay(s, req) then Ok(s)
    else if req.kind == Cash && req.shift.None? then Err(ShiftRequired)
    else if req.kind == Cash && req.shift.value >= |s.shifts| then Err(ShiftNotFound)
    else if req.kind == Cash && !s.shifts[req.shift.value].isOpen then Err(ShiftNotOpen)
    else
      var paid := PostPayment(s, req);
      if paid.Err? || PaymentDrawer(req).None? then paid else
        var inflow := CashMovement(PaymentDrawer(req).value, true, ColumnRound(req.amount));
        Ok(paid.value.(movements := s.movements + [inflow]))
  }

  function RegisterAdjustment(s: Shop, customer: nat, delta: real): Result<Shop, Error> {
    ApplyAccountMovement(s, customer, Adjustment, delta, None, None, None)
  }

  function NewCustomer(s: Shop, id: nat, limit: Option<int>): Result<Shop, Error> {
    if id in s.customers then Ok(s) else Ok(s.(customers := s.customers[id := Customer(0, limit)]))
  }

  function SetCreditLimit(s: Shop, id: nat, limit: Option<int>): Result<Shop, Error> {
    if id !in s.customers then Err(CustomerNotFound)
    else Ok(s.(customers := s.customers[id := s.customers[id].(creditLimit := limit)]))
  }

  // ----- purchases, adjustments and web orders -----

  datatype PurchaseRequest = PurchaseRequest(product: nat, variant: Option<nat>, quantity: real)

  function CheckPurchase(cat: Catalogue, lines: seq<PurchaseRequest>): Option<Error>
  {
    if |lines| == 0 then None
    else if lines[0].product !in cat then Some(ProductNotFound)
    else if lines[0].variant.Some? && lines[0].variant.value !in cat[lines[0].product].variants
    then Some(VariantNotFound)
    else CheckPurchase(cat, lines[1..])
  }

  function ReceiveLine(levels: Levels, cat: Catalogue, store: nat, l: PurchaseRequest): Levels {
    if l.product in cat && cat[l.product].trackStock
    then Incremented(levels, Key(store, TargetOf(l.product, l.variant)), l.quantity) else levels
  }

  function ReceiveLines(levels: Levels, cat: Catalogue, store: nat, lines: seq<PurchaseRequest>): Levels
  {
    if |lines| == 0 then levels else
      ReceiveLine(ReceiveLines(levels, cat, store, lines[..|lines| - 1]), cat, store, lines[|lines| - 1])
  }

  function StoredLines(lines: seq<PurchaseRequest>): seq<PurchaseLine>
  {
    if |lines| == 0 then [] else
      var l := lines[|lines| - 1];
      StoredLines(lines[..|lines| - 1]) + [PurchaseLine(l.product, l.variant, ColumnRound(l.quantity))]
  }

  function Receive(s: Shop, cat: Catalogue, store: nat, lines: seq<PurchaseRequest>): Result<Shop, Error>
  {
    if store !in s.stores then Err(StoreNotFound) else
      var bad := CheckPurchase(cat, lines);
      if bad.Some? then Err(bad.value) else
        Ok(s.(levels := ReceiveLines(s.levels, cat, store, lines),
              purchases := s.purchases + [Purchase(store, StoredLines(lines))]))
  }

  datatype Change = Delta(amount: real) | Absolute(quantity: real) | AlertOnly

  function NextQuantity(level: int, change: Change): int {
    match change
    case Delta(amount) => ColumnRound(level as real + amount)
    case Absolute(quantity) => ColumnRound(quantity)
    case AlertOnly => level
  }

  function AdjustStock(s: Shop, cat: Catalogue, store: nat, product: nat, variant: Option<nat>,
                       change: Change): Result<Shop, Error>
  {
    if store !in s.stores then Err(StoreNotFound)
    else if product !in cat then Err(ProductNotFound)
    else if variant.Some? && variant.value !in cat[product].variants then Err(VariantNotFound)
    else if variant.None? && cat[product].isBundle then Err(BundleHasNoStock)
    else
      var key := Key(store, TargetOf(product, variant));
      var next := NextQuantity(LevelOf(s.levels, key), change);
      Ok(s.(levels := s.levels[key := next],
            adjustments := s.adjustments + [LevelChange(key, LevelOf(s.levels, key), next)]))
  }

  function ShipFreely(levels: Levels, store: nat, lines: seq<Move>): Levels
  {
    if |lines| == 0 then levels else
      var l := lines[|lines| - 1];
      DecrementedFreely(ShipFreely(levels, store, lines[..|lines| - 1]), Key(store, l.target), l.quantity)
  }

  function ShippedLines(store: nat, lines: seq<Move>): seq<WebLine>
  {
    if |lines| == 0 then [] else
      var l := lines[|lines| - 1];
      ShippedLines(store, lines[..|lines| - 1]) + [WebLine(Key(store, l.target), ColumnRound(l.quantity))]
  }

  /** The matched lines of one online order, already paid for elsewhere. */
  function WebOrder(s: Shop, store: nat, lines: seq<Move>): Result<Shop, Error> {
    Ok(s.(levels := ShipFreely(s.levels, store, lines), webLines := s.webLines + ShippedLines(store, lines)))
  }

  // ----- Runs -----

  datatype Event =
    | EvOpen(register: nat, user: nat, initial: real)
    | EvClose(actor: Actor, shift: nat, actualCash: real)
    | EvMove(actor: Actor, shift: nat, isInflow: bool, amount: real)
    | EvCreate(cat: Catalogue, sale: SaleRequest)
    | EvCancelBegin(order: nat)
    | EvCancelAbort(order: nat)
    | EvCancelCommit(order: nat, tracked: set<nat>)
    | EvPay(payment: AccountPaymentRequest)
    | EvAdjust(customer: nat, delta: real)
    | EvNewCustomer(id: nat, limit: Option<int>)
    | EvSetLimit(id: nat, limit: Option<int>)
    | EvReceive(cat: Catalogue, store: nat, lines: seq<PurchaseRequest>)
    | EvAdjustStock(cat: Catalogue, store: nat, product: nat, variant: Option<nat>, change: Change)
    | EvWebOrder(store: nat, shipped: seq<Move>)

  function Attempt(s: Shop, e: Event): Result<Shop, Error>
  {
    match e
    case EvOpen(register, user, initial) => Open(s, register, user, initial)
    case EvClose(actor, shift, actualCash) => Close(s, actor, shift, actualCash)
    case EvMove(actor, shift, isInflow, amount) => AddMovement(s, actor, shift, isInflow, amount)
    case EvCreate(cat, sale) => Create(s, cat, sale)
    case EvCancelBegin(order) => CancelBegin(s, order)
    case EvCancelAbort(order) => CancelAbort(s, order)
    case EvCancelCommit(order, tracked) => CancelCommit(s, order, tracked)
    case EvPay(payment) => RegisterPayment(s, payment)
    case EvAdjust(customer, delta) => RegisterAdjustment(s, customer, delta)
    case EvNewCustomer(id, limit) => NewCustomer(s, id, limit)
    case EvSetLimit(id, limit) => SetCreditLimit(s, id, limit)
    case EvReceive(cat, store, lines) => Receive(s, cat, store, lines)
    case EvAdjustStock(cat, store, product, variant, change) => AdjustStock(s, cat, store, product, variant, change)
    case EvWebOrder(store, shipped) => WebOrder(s, store, shipped)
  }

  /** A transaction that throws is rolled back. */
  function Step(s: Shop, e: Event): Shop {
    var r := Attempt(s, e);
    if r.Ok? then r.value else s
  }

  function Exec(s: Shop, run: seq<Event>): Shop
  {
    if |run| == 0 then s else Step(Exec(s, run[..|run| - 1]), run[|run| - 1])
  }
}
