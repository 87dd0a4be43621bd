/** Stock over whole runs: every level is explained by the documents of the shop. */
module ShopStock {
  import opened Prelude
  import opened Rounding
  import opened Sums
  import opened Stock
  import opened Shop
  import BundleStock

  // ----- What the documents say about one level -----

  function SoldTerm(key: Key, tracked: set<nat>): Order -> int {
    (o: Order) =>
      if o.status == Completed && o.store == key.store then Quantity(key.target, RestockLines(o.items, tracked)) else 0
  }

  function BoughtLineTerm(target: Target, tracked: set<nat>): PurchaseLine -> int {
    (l: PurchaseLine) => if l.product in tracked && TargetOf(l.product, l.variant) == target then l.quantity else 0
  }

  function BoughtTerm(key: Key, tracked: set<nat>): Purchase -> int {
    (p: Purchase) => if p.store == key.store then Sum(BoughtLineTerm(key.target, tracked), p.lines) else 0
  }

  function AdjustedTerm(key: Key): LevelChange -> int {
    (c: LevelChange) => if c.key == key then c.after - c.before else 0
  }

  function ShippedTerm(key: Key): WebLine -> int { (l: WebLine) => if l.key == key then l.quantity else 0 }

  /** Purchases plus adjustments, minus the sales that stand, minus web orders. */
  function Documented(s: Shop, key: Key, tracked: set<nat>): int {
    Sum(BoughtTerm(key, tracked), s.purchases) + Sum(AdjustedTerm(key), s.adjustments)
    - Sum(SoldTerm(key, tracked), s.orders) - Sum(ShippedTerm(key), s.webLines)
  }

  /** The stock nothing documents: what was there before the first document. */
  function Opening(s: Shop, key: Key, tracked: set<nat>): int { LevelOf(s.levels, key) - Documented(s, key, tracked) }

  // ----- What each event adds without documenting it -----

  predicate FlagsMatch(cat: Catalogue, tracked: set<nat>) {
    forall p :: p in cat ==>
      && (cat[p].trackStock <==> p in tracked)
      && (forall i :: 0 <= i < |cat[p].components| ==>
            && (cat[p].components[i].trackStock <==> cat[p].components[i].product in tracked)
            && cat[p].components[i].quantity > 0)
  }

  /** The track-stock flags read by the event are the fixed ones. */
  predicate FlagsFixed(e: Event, tracked: set<nat>) {
    match e
    case EvCreate(cat, sale) => FlagsMatch(cat, tracked) && WellFormedItems(sale.items)
    case EvCancelCommit(_, now) => now == tracked
    case EvReceive(cat, _, _) => FlagsMatch(cat, tracked)
    case _ => true
  }

  /** What writing `level + delta` back into the column adds beyond the rounded
      delta that the document keeps. */
  function AddDrift(level: int, delta: real): int { ColumnRound(level as real + delta) - level - ColumnRound(delta) }

  lemma AddDriftIff(level: int, delta: real)
    ensures AddDrift(level, delta) == 0 <==> !IsTie(delta) || ((level as real + delta > 0.0) == (delta > 0.0))
  {
    ColumnAddExact(level, delta);
  }

  /** The odd halves a sale takes from one level. */
  function SaleTies(cat: Catalogue, items: seq<ItemRequest>, target: Target): nat
    decreases |items|
  {
    if |items| == 0 then 0 else
      (if items[0].product in cat then Ties(target, MovesOf(cat[items[0].product], items[0])) else 0)
      + SaleTies(cat, items[1..], target)
  }

  /** One line of a purchase, at the level it meets. */
  function ReceiveLineDrift(levels: Levels, cat: Catalogue, store: nat, l: PurchaseRequest, key: Key): int {
    if l.product in cat && cat[l.product].trackStock && Key(store, TargetOf(l.product, l.variant)) == key
    then AddDrift(LevelOf(levels, key), l.quantity) else 0
  }

  function ReceiveDrift(levels: Levels, cat: Catalogue, store: nat, lines: seq<PurchaseRequest>, key: Key): int
  {
    if |lines| == 0 then 0 else
      var n := |lines| - 1;
      ReceiveDrift(levels, cat, store, lines[..n], key)
      + ReceiveLineDrift(ReceiveLines(levels, cat, store, lines[..n]), cat, store, lines[n], key)
  }

  /** One line of a web order, at the level it meets. */
  function ShipLineDrift(levels: Levels, store: nat, l: Move, key: Key): int {
    if Key(store, l.target) == key then AddDrift(LevelOf(levels, key), -l.quantity) else 0
  }

  function ShipDrift(levels: Levels, store: nat, lines: seq<Move>, key: Key): int
  {
    if |lines| == 0 then 0 else
      var n := |lines| - 1;
      ShipDrift(levels, store, lines[..n], key)
          + ShipLineDrift(ShipFreely(levels, store, lines[..n]), store, lines[n], key)
  }

  function Drift(s: Shop, e: Event, key: Key): int {
    if Attempt(s, e).Err? then 0 else
      match e
      case EvCreate(cat, sale) => if key.store == sale.store then SaleTies(cat, sale.items, key.target) else 0
      case EvReceive(cat, store, lines) => ReceiveDrift(s.levels, cat, store, lines, key)
      case EvWebOrder(store, shipped) => ShipDrift(s.levels, store, shipped, key)
      case _ => 0
  }

  /** The drift of a run on one level. */
  function TotalDrift(s: Shop, run: seq<Event>, key: Key): int
  {
    if |run| == 0 then 0 else
      TotalDrift(s, run[..|run| - 1], key) + Drift(Exec(s, run[..|run| - 1]), run[|run| - 1], key)
  }

  predicate StorableMoves(moves: seq<Move>) { forall i :: 0 <= i < |moves| ==> !IsTie(moves[i].quantity) }

  predicate StorableItems(cat: Catalogue, items: seq<ItemRequest>) {
    forall i :: 0 <= i < |items| && items[i].product in cat ==> StorableMoves(MovesOf(cat[items[i].product], items[i]))
  }

  // ----- Sales -----

  lemma {:induction false} QuantityConcat(target: Target, a: seq<Snapshot>, b: seq<Snapshot>)
    ensures Quantity(target, a + b) == Quantity(target, a) + Quantity(target, b)
    decreases |a|
  {
    if |a| == 0 {
      assert a + b == b;
    } else {
      QuantityConcat(target, a[1..], b);
      assert (a + b)[1..] == a[1..] + b;
    }
  }

  /** What a cancelled bundle line returns is the snapshot of what was taken. */
  lemma {:induction false} UsesAreMoves(components: seq<BundleStock.Component>, k: real, tracked: set<nat>)
    requires forall i :: 0 <= i < |components| ==> (components[i].trackStock <==> components[i].product in tracked)
    ensures UseLines(UsesOf(components, k), tracked) == SnapshotsOf(BundleStock.BundleMoves(components, k))
    decreases |components|
  {
    if |components| > 0 {
      var c, rest := components[0], components[1..];
      UsesAreMoves(rest, k, tracked);
      assert UsesOf(components, k)[1..] == UsesOf(rest, k);
      if c.trackStock {
        var moves := BundleStock.BundleMoves(components, k);
        assert moves[1..] == BundleStock.BundleMoves(rest, k);
      } else {
        assert BundleStock.BundleMoves(components, k) == BundleStock.BundleMoves(rest, k);
      }
    }
  }

  lemma LineSnapshots(cat: Catalogue, it: ItemRequest, tracked: set<nat>)
    requires it.product in cat && FlagsMatch(cat, tracked)
    ensures var p := cat[it.product];
            ItemLines(StoredItem(ResolvedOf(p, it)), tracked) == SnapshotsOf(MovesOf(p, it))
  {
    var p := cat[it.product];
    if p.isBundle {
      UsesAreMoves(p.components, it.quantity / 1000.0, tracked);
    } else if p.trackStock {
      assert MovesOf(p, it)[1..] == [];
      assert SnapshotsOf(MovesOf(p, it)) == [SnapshotOf(MovesOf(p, it)[0])];
    }
  }

  lemma {:induction false} BundleMovesPositive(components: seq<BundleStock.Component>, k: real)
    requires k > 0.0 && forall i :: 0 <= i < |components| ==> components[i].quantity > 0
    ensures PositiveMoves(BundleStock.BundleMoves(components, k))
    decreases |components|
  {
    if |components| > 0 {
      BundleMovesPositive(components[1..], k);
      assert components[0].quantity as real * k > 0.0;
    }
  }

  lemma MovesPositive(cat: Catalogue, it: ItemRequest, tracked: set<nat>)
    requires it.product in cat && FlagsMatch(cat, tracked) && it.quantity >= 1.0
    ensures PositiveMoves(MovesOf(cat[it.product], it))
  {
    var p := cat[it.product];
    if p.isBundle { BundleMovesPositive(p.components, it.quantity / 1000.0); }
  }

  function SoldOf(key: Key, store: nat, items: seq<Resolved>, tracked: set<nat>): int {
    if key.store == store then Quantity(key.target, RestockLines(StoredItems(items), tracked)) else 0
  }

  lemma SellItemTakes(cat: Catalogue, store: nat, limit: Option<real>, sale: Sale, it: ItemRequest, key: Key,
                      tracked: set<nat>)
    requires FlagsMatch(cat, tracked) && it.quantity >= 1.0
    requires SellItem(cat, store, limit, sale, it).Ok?
    ensures var next := SellItem(cat, store, limit, sale, it).value;
            LevelOf(next.levels, key) + SoldOf(key, store, next.items, tracked)
            == LevelOf(sale.levels, key) + SoldOf(key, store, sale.items, tracked)
             + (if key.store == store then Ties(key.target, MovesOf(cat[it.product], it)) else 0)
  {
    var next, p := SellItem(cat, store, limit, sale, it).value, cat[it.product];
    var moves := MovesOf(p, it);
    MovesPositive(cat, it, tracked);
    TakeRemoves(sale.levels, store, moves, key);
    LineSnapshots(cat, it, tracked);
    var r := ResolvedOf(p, it);
    assert next.items[..|sale.items|] == sale.items;
    assert StoredItems(next.items) == StoredItems(sale.items) + [StoredItem(r)];
    assert StoredItems(next.items)[..|StoredItems(sale.items)|] == StoredItems(sale.items);
    QuantityConcat(key.target, RestockLines(StoredItems(sale.items), tracked), ItemLines(StoredItem(r), tracked));
  }

  lemma {:induction false} SellItemsTake(cat: Catalogue, store: nat, limit: Option<real>, sale: Sale,
                                         items: seq<ItemRequest>,
                                         key: Key, tracked: set<nat>)
    requires FlagsMatch(cat, tracked) && WellFormedItems(items)
    requires SellItems(cat, store, limit, sale, items).Ok?
    ensures var next := SellItems(cat, store, limit, sale, items).value;
            LevelOf(next.levels, key) + SoldOf(key, store, next.items, tracked)
            == LevelOf(sale.levels, key) + SoldOf(key, store, sale.items, tracked)
             + (if key.store == store then SaleTies(cat, items, key.target) else 0)
    decreases |items|
  {
    if |items| > 0 {
      SellItemTakes(cat, store, limit, sale, items[0], key, tracked);
      SellItemsTake(cat, store, limit, SellItem(cat, store, limit, sale, items[0]).value, items[1..], key, tracked);
    }
  }

  /** Posting to an account touches no document about stock. */
  lemma PostingKeepsStock(u: Shop, customer: nat, kind: AccountKind, delta: real, order: Option<nat>,
                          shift: Option<nat>, key: Option<nat>)
    ensures var r := ApplyAccountMovement(u, customer, kind, delta, order, shift, key);
            r.Ok? ==> r.value.levels == u.levels && r.value.orders == u.orders && r.value.purchases == u.purchases
                      && r.value.adjustments == u.adjustments && r.value.webLines == u.webLines
  {
  }

  lemma CreateWrites(s: Shop, cat: Catalogue, req: SaleRequest)
    requires Create(s, cat, req).Ok?
    ensures req.shift.Some? && PriceSale(s, cat, req).Ok?
    ensures var t, sold := Create(s, cat, req).value, PriceSale(s, cat, req).value;
            && t.levels == sold.levels && t.orders == s.orders + [OrderOf(req, sold)]
            && t.purchases == s.purchases && t.adjustments == s.adjustments && t.webLines == s.webLines
  {
    var sold := PriceSale(s, cat, req).value;
    var u := WithOrder(s, req, sold);
    assert PostCharge(u, req, |s.orders|) == Create(s, cat, req);
    if OnAccount(req.payments) > 0.0 {
      PostingKeepsStock(u, req.customer.value, Charge, OnAccount(req.payments), Some(|s.orders|), req.shift, None);
    }
  }

  /** A sale leaves behind one undocumented thousandth for each odd half. */
  lemma CreateDrifts(s: Shop, cat: Catalogue, req: SaleRequest, key: Key, tracked: set<nat>)
    requires FlagsFixed(EvCreate(cat, req), tracked) && Create(s, cat, req).Ok?
    ensures Opening(Create(s, cat, req).value, key, tracked)
         == Opening(s, key, tracked) + Drift(s, EvCreate(cat, req), key)
  {
    CreateWrites(s, cat, req);
    SellItemsTake(cat, req.store, req.limit, EmptySale(s.levels), req.items, key, tracked);
    SumAppend(SoldTerm(key, tracked), s.orders, OrderOf(req, PriceSale(s, cat, req).value));
  }

  lemma {:induction false} SaleTiesNone(cat: Catalogue, items: seq<ItemRequest>, target: Target)
    requires StorableItems(cat, items)
    ensures SaleTies(cat, items, target) == 0
    decreases |items|
  {
    if |items| > 0 {
      assert items[0].product in cat ==> StorableMoves(MovesOf(cat[items[0].product], items[0]));
      if items[0].product in cat { TiesNone(MovesOf(cat[items[0].product], items[0]), target); }
      assert forall i :: 0 <= i < |items[1..]| ==> items[1..][i] == items[i + 1];
      SaleTiesNone(cat, items[1..], target);
    }
  }

  lemma {:induction false} SaleTiesSome(cat: Catalogue, items: seq<ItemRequest>, i: nat, j: nat)
    requires i < |items| && items[i].product in cat
    requires var moves := MovesOf(cat[items[i].product], items[i]); j < |moves| && IsTie(moves[j].quantity)
    ensures SaleTies(cat, items, MovesOf(cat[items[i].product], items[i])[j].target) > 0
    decreases |items|
  {
    if i == 0 {
      TiesSome(MovesOf(cat[items[0].product], items[0]), j);
    } else {
      SaleTiesSome(cat, items[1..], i - 1, j);
    }
  }

  /** A sale is documented on every level exactly when no quantity it takes is an
      odd half of a thousandth. */
  lemma CreateDocumentedIff(s: Shop, cat: Catalogue, req: SaleRequest, tracked: set<nat>)
    requires FlagsFixed(EvCreate(cat, req), tracked) && Create(s, cat, req).Ok?
    ensures (forall key :: Opening(Create(s, cat, req).value, key, tracked) == Opening(s, key, tracked))
       <==> StorableItems(cat, req.items)
  {
    if StorableItems(cat, req.items) {
      forall key
        ensures Opening(Create(s, cat, req).value, key, tracked) == Opening(s, key, tracked)
      {
        CreateDrifts(s, cat, req, key, tracked);
        SaleTiesNone(cat, req.items, key.target);
      }
    } else {
      var i :| 0 <= i < |req.items| && req.items[i].product in cat
               && !StorableMoves(MovesOf(cat[req.items[i].product], req.items[i]));
      var moves := MovesOf(cat[req.items[i].product], req.items[i]);
      var j :| 0 <= j < |moves| && IsTie(moves[j].quantity);
      var key := Key(req.store, moves[j].target);
      SaleTiesSome(cat, req.items, i, j);
      CreateDrifts(s, cat, req, key, tracked);
      assert Opening(Create(s, cat, req).value, key, tracked) != Opening(s, key, tracked);
    }
  }

  /** Putting the snapshots back undoes the sale, on every level. */
  lemma CommitKeepsOpening(s: Shop, id: nat, key: Key, tracked: set<nat>)
    requires CancelCommit(s, id, tracked).Ok?
    ensures Opening(CancelCommit(s, id, tracked).value, key, tracked) == Opening(s, key, tracked)
  {
    var o, u, charge := s.orders[id], WithCancelled(s, id, tracked), FindCharge(s.account, id);
    assert PostReversal(u, charge, id) == CancelCommit(s, id, tracked);
    if charge.Some? {
      PostingKeepsStock(u, charge.value.customer, ChargeReversal, -(charge.value.amount as real), Some(id), None, None);
    }
    PutBackAdds(s.levels, o.store, RestockLines(o.items, tracked), key);
    SumUpdate(SoldTerm(key, tracked), s.orders, id, o.(status := Cancelled));
  }

  // ----- Purchases, adjustments and web orders -----

  lemma ReceiveLineAdds(levels: Levels, cat: Catalogue, store: nat, l: PurchaseRequest, key: Key, tracked: set<nat>)
    requires FlagsMatch(cat, tracked) && l.product in cat
    ensures var stored := PurchaseLine(l.product, l.variant, ColumnRound(l.quantity));
            LevelOf(ReceiveLine(levels, cat, store, l), key)
            == LevelOf(levels, key) + (if key.store == store then BoughtLineTerm(key.target, tracked)(stored) else 0)
             + ReceiveLineDrift(levels, cat, store, l, key)
  {
    RoundInt(0);
  }

  /** A received line is documented exactly when rounding it alone gives what
      rounding the new level gave. */
  lemma ReceiveLineDocumentedIff(levels: Levels, cat: Catalogue, store: nat, l: PurchaseRequest)
    requires l.product in cat && cat[l.product].trackStock
    ensures var key := Key(store, TargetOf(l.product, l.variant));
            ReceiveLineDrift(levels, cat, store, l, key) == 0
            <==> !IsTie(l.quantity) || ((LevelOf(levels, key) as real + l.quantity > 0.0) == (l.quantity > 0.0))
  {
    AddDriftIff(LevelOf(levels, Key(store, TargetOf(l.product, l.variant))), l.quantity);
  }

  /** The same for a line of a web order, which is subtracted. */
  lemma ShipLineDocumentedIff(levels: Levels, store: nat, l: Move)
    ensures var key := Key(store, l.target);
            ShipLineDrift(levels, store, l, key) == 0
            <==> !IsTie(-l.quantity) || ((LevelOf(levels, key) as real - l.quantity > 0.0) == (l.quantity < 0.0))
  {
    AddDriftIff(LevelOf(levels, Key(store, l.target)), -l.quantity);
  }

  lemma {:induction false} ReceiveAdds(levels: Levels, cat: Catalogue, store: nat, lines: seq<PurchaseRequest>,
                                       key: Key, tracked: set<nat>)
    requires FlagsMatch(cat, tracked) && forall i :: 0 <= i < |lines| ==> lines[i].product in cat
    ensures LevelOf(ReceiveLines(levels, cat, store, lines), key)
         == LevelOf(levels, key)
             + (if key.store == store then Sum(BoughtLineTerm(key.target, tracked), StoredLines(lines)) else 0)
          + ReceiveDrift(levels, cat, store, lines, key)
    decreases |lines|
  {
    if |lines| > 0 {
      var n := |lines| - 1;
      var l := lines[n];
      ReceiveAdds(levels, cat, store, lines[..n], key, tracked);
      ReceiveLineAdds(ReceiveLines(levels, cat, store, lines[..n]), cat, store, l, key, tracked);
      SumAppend(BoughtLineTerm(key.target, tracked), StoredLines(lines[..n]),
                PurchaseLine(l.product, l.variant, ColumnRound(l.quantity)));
    }
  }

  lemma {:induction false} CheckedLines(cat: Catalogue, lines: seq<PurchaseRequest>)
    requires CheckPurchase(cat, lines).None?
    ensures forall i :: 0 <= i < |lines| ==> lines[i].product in cat
    decreases |lines|
  {
    if |lines| > 0 {
      CheckedLines(cat, lines[1..]);
      assert forall i :: 1 <= i < |lines| ==> lines[i] == lines[1..][i - 1];
    }
  }

  lemma ReceiveDrifts(s: Shop, cat: Catalogue, store: nat, lines: seq<PurchaseRequest>, key: Key, tracked: set<nat>)
    requires FlagsMatch(cat, tracked) && Receive(s, cat, store, lines).Ok?
    ensures Opening(Receive(s, cat, store, lines).value, key, tracked)
         == Opening(s, key, tracked) + ReceiveDrift(s.levels, cat, store, lines, key)
  {
    CheckedLines(cat, lines);
    ReceiveAdds(s.levels, cat, store, lines, key, tracked);
    SumAppend(BoughtTerm(key, tracked), s.purchases, Purchase(store, StoredLines(lines)));
  }

  lemma AdjustKeepsOpening(s: Shop, cat: Catalogue, store: nat, product: nat, variant: Option<nat>, change: Change,
                           key: Key, tracked: set<nat>)
    requires AdjustStock(s, cat, store, product, variant, change).Ok?
    ensures Opening(AdjustStock(s, cat, store, product, variant, change).value, key, tracked)
        == Opening(s, key, tracked)
  {
    var t := AdjustStock(s, cat, store, product, variant, change).value;
    SumAppend(AdjustedTerm(key), s.adjustments, t.adjustments[|s.adjustments|]);
  }

  lemma ShipLineRemoves(levels: Levels, store: nat, l: Move, key: Key)
    ensures LevelOf(DecrementedFreely(levels, Key(store, l.target), l.quantity), key)
         == LevelOf(levels, key) - ShippedTerm(key)(WebLine(Key(store, l.target), ColumnRound(l.quantity)))
          + ShipLineDrift(levels, store, l, key)
  {
    ColumnRoundOdd(l.quantity);
  }

  lemma {:induction false} ShipRemoves(levels: Levels, store: nat, lines: seq<Move>, key: Key)
    ensures LevelOf(ShipFreely(levels, store, lines), key)
         == LevelOf(levels, key) - Sum(ShippedTerm(key), ShippedLines(store, lines))
             + ShipDrift(levels, store, lines, key)
    decreases |lines|
  {
    if |lines| > 0 {
      var n := |lines| - 1;
      var l := lines[n];
      ShipRemoves(levels, store, lines[..n], key);
      ShipLineRemoves(ShipFreely(levels, store, lines[..n]), store, l, key);
      SumAppend(ShippedTerm(key), ShippedLines(store, lines[..n]),
                WebLine(Key(store, l.target), ColumnRound(l.quantity)));
    }
  }

  lemma WebDrifts(s: Shop, store: nat, shipped: seq<Move>, key: Key, tracked: set<nat>)
    ensures Opening(Step(s, EvWebOrder(store, shipped)), key, tracked)
         == Opening(s, key, tracked) + ShipDrift(s.levels, store, shipped, key)
  {
    ShipRemoves(s.levels, store, shipped, key);
    SumConcat(ShippedTerm(key), s.webLines, ShippedLines(store, shipped));
  }

  predicate NoStock(e: Event) {
    !e.EvCreate? && !e.EvCancelCommit? && !e.EvReceive? && !e.EvAdjustStock? && !e.EvWebOrder?
  }

  lemma NoStockShape(s: Shop, e: Event)
    requires NoStock(e)
    ensures var t := Step(s, e);
            t.levels == s.levels && t.orders == s.orders && t.purchases == s.purchases
            && t.adjustments == s.adjustments && t.webLines == s.webLines
  {
  }

  /** Every event changes the undocumented part of a level by exactly its drift. */
  lemma StepDrifts(s: Shop, e: Event, key: Key, tracked: set<nat>)
    requires FlagsFixed(e, tracked)
    ensures Opening(Step(s, e), key, tracked) == Opening(s, key, tracked) + Drift(s, e, key)
  {
    if Attempt(s, e).Ok? {
      match e
      case EvCreate(cat, sale) => CreateDrifts(s, cat, sale, key, tracked);
      case EvCancelCommit(id, _) => CommitKeepsOpening(s, id, key, tracked);
      case EvReceive(cat, store, lines) => ReceiveDrifts(s, cat, store, lines, key, tracked);
      case EvAdjustStock(cat, store, product, variant, change) =>
        AdjustKeepsOpening(s, cat, store, product, variant, change, key, tracked);
      case EvWebOrder(store, shipped) => WebDrifts(s, store, shipped, key, tracked);
      case _ => NoStockShape(s, e);
    }
  }

  /** Over any run, every level equals its opening value plus purchases and
      adjustments, minus the snapshots of the sales that stand, minus web orders,
      plus the drift of the odd halves, event by event. */
  lemma {:induction false} StockIsDocumented(s: Shop, run: seq<Event>, key: Key, tracked: set<nat>)
    requires forall k :: 0 <= k < |run| ==> FlagsFixed(run[k], tracked)
    ensures LevelOf(Exec(s, run).levels, key)
         == Opening(s, key, tracked) + Documented(Exec(s, run), key, tracked) + TotalDrift(s, run, key)
    decreases |run|
  {
    if |run| > 0 {
      var before := run[..|run| - 1];
      StockIsDocumented(s, before, key, tracked);
      StepDrifts(Exec(s, before), run[|run| - 1], key, tracked);
    }
  }

  /** No requested quantity is an odd half of a thousandth. */
  predicate Storable(e: Event) {
    match e
    case EvCreate(cat, sale) => StorableItems(cat, sale.items)
    case EvReceive(_, _, lines) => forall i :: 0 <= i < |lines| ==> !IsTie(lines[i].quantity)
    case EvWebOrder(_, shipped) => StorableMoves(shipped)
    case _ => true
  }

  lemma {:induction false} ReceiveDriftsNowhere(levels: Levels, cat: Catalogue, store: nat,
                                                lines: seq<PurchaseRequest>, key: Key)
    requires forall i :: 0 <= i < |lines| ==> !IsTie(lines[i].quantity)
    ensures ReceiveDrift(levels, cat, store, lines, key) == 0
    decreases |lines|
  {
    if |lines| > 0 {
      var n := |lines| - 1;
      ReceiveDriftsNowhere(levels, cat, store, lines[..n], key);
      AddDriftIff(LevelOf(ReceiveLines(levels, cat, store, lines[..n]), key), lines[n].quantity);
    }
  }

  lemma {:induction false} ShipDriftsNowhere(levels: Levels, store: nat, lines: seq<Move>, key: Key)
    requires StorableMoves(lines)
    ensures ShipDrift(levels, store, lines, key) == 0
    decreases |lines|
  {
    if |lines| > 0 {
      var n := |lines| - 1;
      ShipDriftsNowhere(levels, store, lines[..n], key);
      if IsTie(-lines[n].quantity) { TieOdd(-lines[n].quantity); }
      AddDriftIff(LevelOf(ShipFreely(levels, store, lines[..n]), key), -lines[n].quantity);
    }
  }

  lemma StorableDriftsNowhere(s: Shop, e: Event, key: Key)
    requires Storable(e)
    ensures Drift(s, e, key) == 0
  {
    match e
    case EvCreate(cat, sale) => SaleTiesNone(cat, sale.items, key.target);
    case EvReceive(cat, store, lines) => ReceiveDriftsNowhere(s.levels, cat, store, lines, key);
    case EvWebOrder(store, shipped) => ShipDriftsNowhere(s.levels, store, shipped, key);
    case _ =>
  }

  /** Without odd halves nothing drifts. */
  lemma {:induction false} StorableRunDriftsNowhere(s: Shop, run: seq<Event>, key: Key)
    requires forall k :: 0 <= k < |run| ==> Storable(run[k])
    ensures TotalDrift(s, run, key) == 0
    decreases |run|
  {
    if |run| > 0 {
      StorableRunDriftsNowhere(s, run[..|run| - 1], key);
      StorableDriftsNowhere(Exec(s, run[..|run| - 1]), run[|run| - 1], key);
    }
  }

  // ----- Never below zero -----

  predicate CountedOrders(s: Shop) {
    forall i :: 0 <= i < |s.orders| ==> CountedItems(s.orders[i].items)
  }

  predicate CountedItems(items: seq<OrderItem>) {
    forall i :: 0 <= i < |items| ==>
      items[i].quantity >= 0 && forall j :: 0 <= j < |items[i].components| ==> items[i].components[j].quantity >= 0
  }

  predicate InBlack(s: Shop) { NonNegative(s.levels) && CountedOrders(s) }

  /** Well-formed requests that are neither web orders nor adjustments below zero. */
  predicate Counter(s: Shop, e: Event) {
    match e
    case EvCreate(cat, sale) =>
      WellFormedItems(sale.items) && forall p :: p in cat ==>
        forall i :: 0 <= i < |cat[p].components| ==> cat[p].components[i].quantity > 0
    case EvReceive(_, _, lines) => forall i :: 0 <= i < |lines| ==> lines[i].quantity >= 0.0
    case EvAdjustStock(_, store, product, variant, change) =>
      NextQuantity(LevelOf(s.levels, Key(store, TargetOf(product, variant))), change) >= 0
    case EvWebOrder(_, _) => false
    case _ => true
  }

  lemma {:induction false} UsesCounted(components: seq<BundleStock.Component>, k: real)
    requires k >= 0.0 && forall i :: 0 <= i < |components| ==> components[i].quantity > 0
    ensures |UsesOf(components, k)| == |components|
    ensures forall i :: 0 <= i < |components| ==> UsesOf(components, k)[i].quantity >= 0
    decreases |components|
  {
    if |components| > 0 {
      UsesCounted(components[1..], k);
      assert components[0].quantity as real * k >= 0.0;
    }
  }

  lemma {:induction false} UseLinesCounted(components: seq<ComponentUse>, tracked: set<nat>)
    requires forall i :: 0 <= i < |components| ==> components[i].quantity >= 0
    ensures forall i :: 0 <= i < |UseLines(components, tracked)| ==> UseLines(components, tracked)[i].quantity >= 0
    decreases |components|
  {
    if |components| > 0 {
      UseLinesCounted(components[1..], tracked);
    }
  }

  lemma {:induction false} RestockCounted(items: seq<OrderItem>, tracked: set<nat>)
    requires CountedItems(items)
    ensures forall i :: 0 <= i < |RestockLines(items, tracked)| ==> RestockLines(items, tracked)[i].quantity >= 0
    decreases |items|
  {
    if |items| > 0 {
      var n := |items| - 1;
      RestockCounted(items[..n], tracked);
      UseLinesCounted(items[n].components, tracked);
    }
  }

  lemma LineCounted(p: Product, it: ItemRequest)
    requires it.quantity >= 1.0 && forall i :: 0 <= i < |p.components| ==> p.components[i].quantity > 0
    ensures var item := StoredItem(ResolvedOf(p, it));
            item.quantity >= 0 && forall j :: 0 <= j < |item.components| ==> item.components[j].quantity >= 0
    ensures PositiveMoves(MovesOf(p, it))
  {
    if p.isBundle {
      BundleMovesPositive(p.components, it.quantity / 1000.0);
      UsesCounted(p.components, it.quantity / 1000.0);
    }
  }

  lemma SellItemInBlack(cat: Catalogue, store: nat, limit: Option<real>, sale: Sale, it: ItemRequest)
    requires NonNegative(sale.levels) && CountedItems(StoredItems(sale.items)) && it.quantity >= 1.0
    requires forall p :: p in cat ==> forall i :: 0 <= i < |cat[p].components| ==> cat[p].components[i].quantity > 0
    requires SellItem(cat, store, limit, sale, it).Ok?
    ensures var next := SellItem(cat, store, limit, sale, it).value;
            NonNegative(next.levels) && CountedItems(StoredItems(next.items))
  {
    var next, p := SellItem(cat, store, limit, sale, it).value, cat[it.product];
    LineCounted(p, it);
    TakeStaysNonNegative(sale.levels, store, MovesOf(p, it));
    StoredOneMore(sale.items, ResolvedOf(p, it));
  }

  lemma StoredOneMore(items: seq<Resolved>, r: Resolved)
    ensures StoredItems(items + [r]) == StoredItems(items) + [StoredItem(r)]
  {
    assert (items + [r])[..|items|] == items;
  }

  lemma {:induction false} SellItemsInBlack(cat: Catalogue, store: nat, limit: Option<real>, sale: Sale,
                                            items: seq<ItemRequest>)
    requires NonNegative(sale.levels) && CountedItems(StoredItems(sale.items)) && WellFormedItems(items)
    requires forall p :: p in cat ==> forall i :: 0 <= i < |cat[p].components| ==> cat[p].components[i].quantity > 0
    requires SellItems(cat, store, limit, sale, items).Ok?
    ensures var next := SellItems(cat, store, limit, sale, items).value;
            NonNegative(next.levels) && CountedItems(StoredItems(next.items))
    decreases |items|
  {
    if |items| > 0 {
      SellItemInBlack(cat, store, limit, sale, items[0]);
      SellItemsInBlack(cat, store, limit, SellItem(cat, store, limit, sale, items[0]).value, items[1..]);
    }
  }

  lemma CreateInBlack(s: Shop, cat: Catalogue, req: SaleRequest)
    requires InBlack(s) && Counter(s, EvCreate(cat, req)) && Create(s, cat, req).Ok?
    ensures InBlack(Create(s, cat, req).value)
  {
    var sold := PriceSale(s, cat, req).value;
    var u := WithOrder(s, req, sold);
    assert PostCharge(u, req, |s.orders|) == Create(s, cat, req);
    if OnAccount(req.payments) > 0.0 {
      PostingKeepsStock(u, req.customer.value, Charge, OnAccount(req.payments), Some(|s.orders|), req.shift, None);
    }
    SellItemsInBlack(cat, req.store, req.limit, EmptySale(s.levels), req.items);
    assert u.orders[|s.orders|].items == StoredItems(sold.items);
  }

  lemma CommitInBlack(s: Shop, id: nat, tracked: set<nat>)
    requires InBlack(s) && CancelCommit(s, id, tracked).Ok?
    ensures InBlack(CancelCommit(s, id, tracked).value)
  {
    var o, u, charge := s.orders[id], WithCancelled(s, id, tracked), FindCharge(s.account, id);
    assert PostReversal(u, charge, id) == CancelCommit(s, id, tracked);
    if charge.Some? {
      PostingKeepsStock(u, charge.value.customer, ChargeReversal, -(charge.value.amount as real), Some(id), None, None);
    }
    RestockCounted(o.items, tracked);
    PutBackStaysNonNegative(s.levels, o.store, RestockLines(o.items, tracked));
  }

  lemma {:induction false} ReceiveInBlack(levels: Levels, cat: Catalogue, store: nat, lines: seq<PurchaseRequest>)
    requires NonNegative(levels) && forall i :: 0 <= i < |lines| ==> lines[i].quantity >= 0.0
    ensures NonNegative(ReceiveLines(levels, cat, store, lines))
    decreases |lines|
  {
    if |lines| > 0 {
      ReceiveInBlack(levels, cat, store, lines[..|lines| - 1]);
    }
  }

  /** The counter never sells what is not there: without web orders or negative
      adjustments no level is ever below zero, ties or not. */
  lemma {:induction false} CounterNeverOversells(s: Shop, run: seq<Event>)
    requires InBlack(s)
    requires forall k :: 0 <= k < |run| ==> Counter(Exec(s, run[..k]), run[k])
    ensures InBlack(Exec(s, run))
    decreases |run|
  {
    if |run| > 0 {
      var n := |run| - 1;
      var before := run[..n];
      assert forall k :: 0 <= k < n ==> before[..k] == run[..k];
      CounterNeverOversells(s, before);
      assert run[..n] == before;
      StepInBlack(Exec(s, before), run[n]);
    }
  }

  lemma StepInBlack(s: Shop, e: Event)
    requires InBlack(s) && Counter(s, e)
    ensures InBlack(Step(s, e))
  {
    if Attempt(s, e).Ok? {
      match e
      case EvCreate(cat, sale) => CreateInBlack(s, cat, sale);
      case EvCancelCommit(id, tracked) => CommitInBlack(s, id, tracked);
      case EvReceive(cat, store, lines) => ReceiveInBlack(s.levels, cat, store, lines);
      case EvAdjustStock(_, _, _, _, _) =>
      case _ => NoStockShape(s, e);
    }
  }

  // ----- Flags that change between the sale and its cancellation -----

  datatype Owned = Owned(product: nat, line: Snapshot)

  function UseOwned(components: seq<ComponentUse>): seq<Owned>
  {
    if |components| == 0 then [] else
      var c := components[0];
      [Owned(c.product, Snapshot(TargetOf(c.product, c.variant), c.quantity))] + UseOwned(components[1..])
  }

  function ItemOwned(item: OrderItem): seq<Owned> {
    if item.isBundle then UseOwned(item.components)
    else [Owned(item.product, Snapshot(TargetOf(item.product, item.variant), item.quantity))]
  }

  /** Every line of the order with the product whose flag decides about it. */
  function OwnedLines(items: seq<OrderItem>): seq<Owned>
  {
    if |items| == 0 then [] else OwnedLines(items[..|items| - 1]) + ItemOwned(items[|items| - 1])
  }

  function OwnedTerm(target: Target, tracked: set<nat>): Owned -> int {
    (w: Owned) => if w.product in tracked && w.line.target == target then w.line.quantity else 0
  }

  lemma {:induction false} UsesByOwner(components: seq<ComponentUse>, target: Target, tracked: set<nat>)
    ensures Quantity(target, UseLines(components, tracked)) == Sum(OwnedTerm(target, tracked), UseOwned(components))
    decreases |components|
  {
    if |components| > 0 {
      var c := components[0];
      UsesByOwner(components[1..], target, tracked);
      var head := Owned(c.product, Snapshot(TargetOf(c.product, c.variant), c.quantity));
      SumConcat(OwnedTerm(target, tracked), [head], UseOwned(components[1..]));
      SumAppend(OwnedTerm(target, tracked), [], head);
      assert [head] == [] + [head];
      if c.product in tracked {
        assert UseLines(components, tracked)[1..] == UseLines(components[1..], tracked);
      } else {
        assert UseLines(components, tracked) == UseLines(components[1..], tracked);
      }
    }
  }

  lemma {:induction false} RestockByOwner(items: seq<OrderItem>, target: Target, tracked: set<nat>)
    ensures Quantity(target, RestockLines(items, tracked)) == Sum(OwnedTerm(target, tracked), OwnedLines(items))
    decreases |items|
  {
    if |items| > 0 {
      var n := |items| - 1;
      var item := items[n];
      RestockByOwner(items[..n], target, tracked);
      QuantityConcat(target, RestockLines(items[..n], tracked), ItemLines(item, tracked));
      SumConcat(OwnedTerm(target, tracked), OwnedLines(items[..n]), ItemOwned(item));
      ItemByOwner(item, target, tracked);
    }
  }

  lemma ItemByOwner(item: OrderItem, target: Target, tracked: set<nat>)
    ensures Quantity(target, ItemLines(item, tracked)) == Sum(OwnedTerm(target, tracked), ItemOwned(item))
  {
    if item.isBundle {
      UsesByOwner(item.components, target, tracked);
    } else {
      var w := Owned(item.product, Snapshot(TargetOf(item.product, item.variant), item.quantity));
      SumAppend(OwnedTerm(target, tracked), [], w);
      assert [] + [w] == [w];
    }
  }

  /** A stock target belongs to one product (a variant to its parent). */
  predicate OneOwner(lines: seq<Owned>) {
    forall i, j :: 0 <= i < |lines| && 0 <= j < |lines| && lines[i].line.target == lines[j].line.target ==>
      lines[i].product == lines[j].product
  }

  predicate SameFlags(lines: seq<Owned>, before: set<nat>, now: set<nat>) {
    forall i :: 0 <= i < |lines| && lines[i].line.quantity > 0 ==>
        (lines[i].product in before <==> lines[i].product in now)
  }

  lemma {:induction false} PositivePart(lines: seq<Owned>, i: nat, tracked: set<nat>)
    requires forall j :: 0 <= j < |lines| ==> lines[j].line.quantity >= 0
    requires i < |lines| && lines[i].product in tracked
    ensures Sum(OwnedTerm(lines[i].line.target, tracked), lines) >= lines[i].line.quantity
    decreases |lines|
  {
    var n := |lines| - 1;
    if i < n {
      PositivePart(lines[..n], i, tracked);
    } else {
      SumNonNegative(OwnedTerm(lines[i].line.target, tracked), lines[..n]);
    }
  }

  ghost predicate ReturnsTheSame(items: seq<OrderItem>, before: set<nat>, now: set<nat>) {
    forall target :: Quantity(target, RestockLines(items, now)) == Quantity(target, RestockLines(items, before))
  }

  /** Cancelling reads the track-stock flags of today. It returns exactly what
      the sale took if and only if no product of the sale changed its flag. */
  lemma CancelMatchesSaleIff(items: seq<OrderItem>, before: set<nat>, now: set<nat>)
    requires CountedItems(items) && OneOwner(OwnedLines(items))
    ensures ReturnsTheSame(items, before, now) <==> SameFlags(OwnedLines(items), before, now)
  {
    var lines := OwnedLines(items);
    OwnedCounted(items);
    if SameFlags(lines, before, now) {
      forall target
        ensures Quantity(target, RestockLines(items, now)) == Quantity(target, RestockLines(items, before))
      {
        RestockByOwner(items, target, now);
        RestockByOwner(items, target, before);
        SumAgree(OwnedTerm(target, now), OwnedTerm(target, before), lines);
      }
    } else {
      var i :| 0 <= i < |lines| && lines[i].line.quantity > 0
          && (lines[i].product in before) != (lines[i].product in now);
      var target := lines[i].line.target;
      RestockByOwner(items, target, now);
      RestockByOwner(items, target, before);
      var on, off := if lines[i].product in now then now else before, if lines[i].product in now then before else now;
      PositivePart(lines, i, on);
      SumZero(OwnedTerm(target, off), lines);
      assert Quantity(target, RestockLines(items, now)) != Quantity(target, RestockLines(items, before));
    }
  }

  lemma {:induction false} UseOwnedCounted(components: seq<ComponentUse>)
    requires forall i :: 0 <= i < |components| ==> components[i].quantity >= 0
    ensures forall i :: 0 <= i < |UseOwned(components)| ==> UseOwned(components)[i].line.quantity >= 0
    decreases |components|
  {
    if |components| > 0 {
      UseOwnedCounted(components[1..]);
    }
  }

  lemma {:induction false} OwnedCounted(items: seq<OrderItem>)
    requires CountedItems(items)
    ensures forall i :: 0 <= i < |OwnedLines(items)| ==> OwnedLines(items)[i].line.quantity >= 0
    decreases |items|
  {
    if |items| > 0 {
      OwnedCounted(items[..|items| - 1]);
      UseOwnedCounted(items[|items| - 1].components);
    }
  }

  // ----- A sale and its cancellation -----

  /** Whatever happened to the rest of the shop in between, cancelling an order adds
      to the levels it was sold from the odd halves and what the flags of today
      return beyond the flags of the sale. */
  lemma CancelAfterSale(s: Shop, cat: Catalogue, req: SaleRequest, u: Shop, id: nat, before: set<nat>, now: set<nat>,
                        key: Key)
    requires FlagsFixed(EvCreate(cat, req), before) && Create(s, cat, req).Ok?
    requires var t := Create(s, cat, req).value;
             && |t.orders| == |s.orders| + 1 && u.levels == t.levels && id < |u.orders|
             && u.orders[id] == t.orders[|s.orders|]
    requires CancelCommit(u, id, now).Ok?
    ensures var items := u.orders[id].items;
            LevelOf(CancelCommit(u, id, now).value.levels, key) == LevelOf(s.levels, key)
            + (if key.store != req.store then 0 else
                 SaleTies(cat, req.items, key.target)
                 + Quantity(key.target, RestockLines(items, now)) - Quantity(key.target, RestockLines(items, before)))
  {
    CreateWrites(s, cat, req);
    SellItemsTake(cat, req.store, req.limit, EmptySale(s.levels), req.items, key, before);
    CommitPutsBack(u, id, now);
    PutBackAdds(u.levels, req.store, RestockLines(u.orders[id].items, now), key);
  }

  lemma CommitPutsBack(u: Shop, id: nat, now: set<nat>)
    requires CancelCommit(u, id, now).Ok?
    ensures CancelCommit(u, id, now).value.levels
         == PutBack(u.levels, u.orders[id].store, RestockLines(u.orders[id].items, now))
  {
    var w, charge := WithCancelled(u, id, now), FindCharge(u.account, id);
    assert PostReversal(w, charge, id) == CancelCommit(u, id, now);
    if charge.Some? {
      PostingKeepsStock(w, charge.value.customer, ChargeReversal, -(charge.value.amount as real), Some(id), None, None);
    }
  }

  /** Without odd halves, a cancellation puts every level back to what it was before
      the sale exactly when no product of the sale changed its track-stock flag. */
  lemma CancelRestoresLevelsIff(s: Shop, cat: Catalogue, req: SaleRequest, u: Shop, id: nat, before: set<nat>,
                                now: set<nat>)
    requires FlagsFixed(EvCreate(cat, req), before) && StorableItems(cat, req.items) && Create(s, cat, req).Ok?
    requires var t := Create(s, cat, req).value;
             && |t.orders| == |s.orders| + 1 && u.levels == t.levels && id < |u.orders|
             && u.orders[id] == t.orders[|s.orders|]
    requires CancelCommit(u, id, now).Ok? && CountedItems(u.orders[id].items)
    requires OneOwner(OwnedLines(u.orders[id].items))
    ensures SameLevels(CancelCommit(u, id, now).value.levels, s.levels)
       <==> SameFlags(OwnedLines(u.orders[id].items), before, now)
  {
    var items, after := u.orders[id].items, CancelCommit(u, id, now).value.levels;
    CancelMatchesSaleIff(items, before, now);
    forall key
      ensures LevelOf(after, key) == LevelOf(s.levels, key)
            + (if key.store == req.store then Surplus(items, before, now, key.target) else 0)
    {
      CancelAfterSale(s, cat, req, u, id, before, now, key);
      SaleTiesNone(cat, req.items, key.target);
    }
    SurplusDecides(s.levels, after, req.store, items, before, now);
  }

  ghost predicate SameLevels(a: Levels, b: Levels) { forall key :: LevelOf(a, key) == LevelOf(b, key) }

  function Surplus(items: seq<OrderItem>, before: set<nat>, now: set<nat>, target: Target): int {
    Quantity(target, RestockLines(items, now)) - Quantity(target, RestockLines(items, before))
  }

  lemma SurplusDecides(levels: Levels, after: Levels, store: nat, items: seq<OrderItem>, before: set<nat>,
                       now: set<nat>)
    requires forall key :: LevelOf(after, key)
               == LevelOf(levels, key) + (if key.store == store then Surplus(items, before, now, key.target) else 0)
    ensures SameLevels(after, levels) <==> ReturnsTheSame(items, before, now)
  {
    if SameLevels(after, levels) {
      forall target
        ensures Quantity(target, RestockLines(items, now)) == Quantity(target, RestockLines(items, before))
      {
        assert LevelOf(after, Key(store, target)) == LevelOf(levels, Key(store, target));
        assert Surplus(items, before, now, target) == 0;
      }
    } else {
      var key :| LevelOf(after, key) != LevelOf(levels, key);
      assert Surplus(items, before, now, key.target) != 0;
    }
  }
}
