/** What a priced sale amounts to. */
module ShopSales {
  import opened Prelude
  import opened Rounding
  import opened Sums
  import opened Vat
  import opened Shop
  import Discounts

  predicate PricedCatalogue(cat: Catalogue) {
    forall p :: p in cat ==>
      cat[p].price >= 0 && forall v :: v in cat[p].variants && cat[p].variants[v].Some? ==>
          cat[p].variants[v].value >= 0
  }

  function LinesOf(items: seq<Resolved>): (lines: seq<Discounts.Line>)
    ensures |lines| == |items|
  {
    if |items| == 0 then [] else LinesOf(items[..|items| - 1]) + [items[|items| - 1].line]
  }

  function TaxTerm(): Resolved -> real { (r: Resolved) => IvaContained(LineTotal(r.line), RateOf(r.vat)) }

  /** The accumulators of the item loop against the resolved lines. */
  predicate Accumulated(sale: Sale, limit: Option<real>) {
    var lines := LinesOf(sale.items);
    && sale.subtotal == Discounts.TotalGross(lines)
    && sale.discount == Discounts.TotalDiscount(lines)
    && sale.total == sale.subtotal - sale.discount
    && sale.tax == RealSum(TaxTerm(), sale.items)
    && Discounts.Clamped(lines)
    && Discounts.EveryLineWithin(limit, lines)
  }

  lemma UnitPriceNonNegative(cat: Catalogue, it: ItemRequest)
    requires PricedCatalogue(cat) && it.product in cat && it.quantity >= 1.0
    ensures GrossOf(cat[it.product], it) >= 0.0
  {
    var price := UnitPrice(cat[it.product], it.variant);
    assert price >= 0;
    assert price as real * (it.quantity / 1000.0) >= 0.0;
  }

  /** One iteration of the accumulators. */
  lemma OneMoreLine(sale: Sale, next: Sale, limit: Option<real>, r: Resolved)
    requires Accumulated(sale, limit) && next.items == sale.items + [r]
    requires next.subtotal == sale.subtotal + r.line.gross && next.discount == sale.discount + r.line.discount
    requires next.total == sale.total + LineTotal(r.line) && next.tax == sale.tax + TaxTerm()(r)
    requires 0.0 <= r.line.discount <= r.line.gross && Discounts.WithinLimit(limit, r.line.discount, r.line.gross)
    ensures Accumulated(next, limit)
  {
    var lines := LinesOf(sale.items);
    assert next.items[..|sale.items|] == sale.items;
    assert LinesOf(next.items) == lines + [r.line];
    RealSumAppend(Discounts.GrossTerm(), lines, r.line);
    RealSumAppend(Discounts.DiscountTerm(), lines, r.line);
    RealSumAppend(TaxTerm(), sale.items, r);
  }

  lemma {:induction false} SellItemsAccumulate(cat: Catalogue, store: nat, limit: Option<real>, sale: Sale,
                                               items: seq<ItemRequest>)
    requires PricedCatalogue(cat) && WellFormedItems(items) && Accumulated(sale, limit)
    requires SellItems(cat, store, limit, sale, items).Ok?
    ensures Accumulated(SellItems(cat, store, limit, sale, items).value, limit)
    decreases |items|
  {
    if |items| > 0 {
      var next := SellItem(cat, store, limit, sale, items[0]).value;
      UnitPriceNonNegative(cat, items[0]);
      OneMoreLine(sale, next, limit, ResolvedOf(cat[items[0].product], items[0]));
      SellItemsAccumulate(cat, store, limit, next, items[1..]);
    }
  }

  lemma PricedSale(s: Shop, cat: Catalogue, req: SaleRequest)
    requires PricedCatalogue(cat) && WellFormedItems(req.items) && PriceSale(s, cat, req).Ok?
    ensures Accumulated(PriceSale(s, cat, req).value, req.limit)
  {
    SellItemsAccumulate(cat, req.store, req.limit, EmptySale(s.levels), req.items);
  }

  /** The whole-sale discount check never refuses a sale: if the lines were
      priced, the discount is already within the cap. */
  lemma WholeSaleCheckIsRedundant(s: Shop, cat: Catalogue, req: SaleRequest)
    requires PricedCatalogue(cat) && WellFormedItems(req.items) && PriceSale(s, cat, req).Ok?
    ensures CheckSale(req, PriceSale(s, cat, req).value) != Some(DiscountOverLimit)
  {
    PricedSale(s, cat, req);
    var sale := PriceSale(s, cat, req).value;
    Discounts.LinesImplySale(req.limit, LinesOf(sale.items));
  }

  /** What was given away, before the columns round it, is at most (cap + 0.01)%. */
  lemma AcceptedDiscountBounded(s: Shop, cat: Catalogue, req: SaleRequest)
    requires PricedCatalogue(cat) && WellFormedItems(req.items) && PriceSale(s, cat, req).Ok?
    requires req.limit.Some? && req.limit.value >= 0.0
    ensures var sale := PriceSale(s, cat, req).value;
            sale.discount * 100.0 <= (req.limit.value + Discounts.PERCENT_EPSILON) * sale.subtotal
  {
    PricedSale(s, cat, req);
    Discounts.AcceptedSaleBounded(req.limit.value, LinesOf(PriceSale(s, cat, req).value.items));
  }

  lemma OrderWritten(s: Shop, cat: Catalogue, req: SaleRequest)
    requires Create(s, cat, req).Ok?
    ensures req.shift.Some? && PriceSale(s, cat, req).Ok?
    ensures Create(s, cat, req).value.orders == s.orders + [OrderOf(req, PriceSale(s, cat, req).value)]
  {
    var sale := PriceSale(s, cat, req).value;
    assert PostCharge(WithOrder(s, req, sale), req, |s.orders|) == Create(s, cat, req);
  }

  lemma RoundedDifference(x: real, y: real)
    ensures -1 <= ColumnRound(x) - ColumnRound(y) - ColumnRound(x - y) <= 1
  {
  }

  /** The three figures stored with an order explain each other to a cent. */
  lemma StoredFiguresAgree(s: Shop, cat: Catalogue, req: SaleRequest)
    requires PricedCatalogue(cat) && WellFormedItems(req.items) && Create(s, cat, req).Ok?
    ensures |Create(s, cat, req).value.orders| == |s.orders| + 1
    ensures var o := Create(s, cat, req).value.orders[|s.orders|]; -1 <= o.subtotal - o.discount - o.total <= 1
  {
    OrderWritten(s, cat, req);
    PricedSale(s, cat, req);
    var sale := PriceSale(s, cat, req).value;
    RoundedDifference(sale.subtotal, sale.discount);
  }
}
