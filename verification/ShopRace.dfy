/** A day at the counter in which a shift is closed while one of its sales is being
    cancelled, from an empty shop on. */
module ShopRace {
  import opened Prelude
  import opened Rounding
  import opened Sums
  import opened Vat
  import opened Stock
  import opened Payments
  import opened Ledger = Shop
  import ShopCash

  function EmptyShop(): Shop {
    Shop.Shop({0}, map[0 := Register(0, true)], map[], [], multiset{}, [], [], map[], [], [], [], [])
  }

  /** One product of one peso, without stock control. */
  function OneProduct(): Catalogue { map[0 := Product(true, false, false, 100, Iva21, map[], [])] }

  function Cashiers(): Actor { Actor(0, Cashier) }

  /** One unit of it, paid in cash. */
  function OneUnit(): SaleRequest {
    SaleRequest(0, Some(0), Cashiers(), None, [ItemRequest(0, None, 1000.0, 0.0)], [Payment(Cash, 100.0)], None)
  }

  function Race(): seq<Event> {
    [EvOpen(0, 0, 0.0), EvCreate(OneProduct(), OneUnit()), EvCancelBegin(0), EvClose(Cashiers(), 0, 0.0),
     EvCancelCommit(0, {})]
  }

  function Opened(): Shop {
    EmptyShop().(shifts := [Shift(0, 0, 0, 0, true, None, None, None)])
  }

  lemma UnitPriced()
    ensures var sold := PriceSale(Opened(), OneProduct(), OneUnit());
            sold.Ok? && sold.value.levels == map[] && sold.value.total == 100.0
  {
    var it := OneUnit().items[0];
    var next := SellItem(OneProduct(), 0, None, EmptySale(map[]), it);
    assert GrossOf(OneProduct()[0], it) == 100.0;
    assert Take(map[], 0, []) == Some(map[]);
    assert next.Ok? && next.value.total == 100.0 && next.value.levels == map[];
    assert OneUnit().items[1..] == [];
    assert SellItems(OneProduct(), 0, None, next.value, []) == next;
  }

  lemma UnitPaid()
    ensures TotalPaid(OneUnit().payments) == 100.0 && OnAccount(OneUnit().payments) == 0.0
    ensures StoredPayments(OneUnit().payments) == [StoredPayment(Cash, 100)]
  {
    var p := Payment(Cash, 100.0);
    assert [p] == [] + [p];
    RealSumAppend(Payments.AmountTerm(), [], p);
    RealSumAppend(OnAccountTerm(), [], p);
    RoundInt(100);
    assert StoredPayments([]) == [];
  }

  lemma CashOnly(o: Order)
    requires o.payments == [StoredPayment(Cash, 100)] && o.total == 100
    ensures NetCash(o) == 100
  {
    var p := StoredPayment(Cash, 100);
    assert [p] == [] + [p];
    SumAppend(CashTerm(), [], p);
    SumAppend(NonCashTerm(), [], p);
  }

  /** The sale goes through and leaves its peso in the drawer. */
  lemma UnitSold()
    ensures var t := Step(Opened(), EvCreate(OneProduct(), OneUnit()));
            && |t.orders| == 1 && t.orders[0].shift == 0 && t.orders[0].status == Completed
            && NetCash(t.orders[0]) == 100
            && t.shifts == Opened().shifts && t.movements == [] && t.cancelling == multiset{} && t.account == []
  {
    UnitPriced();
    UnitPaid();
    var sale := PriceSale(Opened(), OneProduct(), OneUnit()).value;
    assert CheckSale(OneUnit(), sale) == None;
    assert Step(Opened(), EvCreate(OneProduct(), OneUnit())) == WithOrder(Opened(), OneUnit(), sale);
    RoundInt(100);
    CashOnly(OrderOf(OneUnit(), sale));
  }

  lemma FiveSteps(s: Shop, run: seq<Event>)
    requires |run| == 5
    ensures Exec(s, run[..2]) == Step(Step(s, run[0]), run[1])
    ensures Exec(s, run[..4]) == Step(Step(Exec(s, run[..2]), run[2]), run[3])
    ensures Exec(s, run) == Step(Exec(s, run[..4]), run[4])
  {
    assert run[..4][..3] == run[..3] && run[..3][..2] == run[..2] && run[..2][..1] == run[..1] && run[..1][..0] == [];
    assert Exec(s, run[..1]) == Step(s, run[0]);
    assert Exec(s, run[..3]) == Step(Exec(s, run[..2]), run[2]);
  }

  /** Open, sell, start to cancel, close, finish cancelling: up to the close every
      closed shift is right, at the end the closed shift expects a peso too much. */
  lemma CloseDuringCancelHappens()
    ensures ShopCash.Frozen(Exec(EmptyShop(), Race()[..4]))
    ensures !ShopCash.Frozen(Exec(EmptyShop(), Race()))
  {
    RoundInt(0);
    assert Step(EmptyShop(), Race()[0]) == Opened();
    UnitSold();
    FiveSteps(EmptyShop(), Race());
    var s := Exec(EmptyShop(), Race()[..2]);
    assert FindCharge(s.account, 0) == None;
    RaceFrom(s);
  }

  lemma RaceFrom(s: Shop)
    requires |s.orders| == 1 && s.orders[0].shift == 0 && s.orders[0].status == Completed && NetCash(s.orders[0]) == 100
    requires s.shifts == Opened().shifts && s.movements == [] && s.cancelling == multiset{} && s.account == []
    ensures ShopCash.Frozen(ShopCash.Raced(s, 0, Cashiers(), 0.0))
    ensures !ShopCash.Frozen(Step(ShopCash.Raced(s, 0, Cashiers(), 0.0), EvCancelCommit(0, {})))
  {
    ShopCash.RacedShape(s, 0, Cashiers(), 0.0);
    CommitAllowed(s);
    ShopCash.CloseDuringCancelBreaks(s, 0, Cashiers(), 0.0, {});
  }

  lemma CommitAllowed(s: Shop)
    requires |s.orders| == 1 && s.orders[0].shift == 0 && s.orders[0].status == Completed
    requires s.shifts == Opened().shifts && s.cancelling == multiset{} && s.account == []
    ensures CancelCommit(ShopCash.Raced(s, 0, Cashiers(), 0.0), 0, {}).Ok?
  {
    var begun := s.(cancelling := multiset{0});
    assert Step(s, EvCancelBegin(0)) == begun;
    var raced := ShopCash.Raced(s, 0, Cashiers(), 0.0);
    assert raced.cancelling == multiset{0} && raced.orders == s.orders && raced.account == [];
    assert FindCharge(raced.account, 0) == None;
  }
}
