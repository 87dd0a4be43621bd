/** computeCartTotals: the figures the cashier sees, with the VAT of the cart
    broken down by condition. */
module CartTotals {
  import opened Prelude
  import opened Rounding
  import opened Sums
  import opened Vat
  import opened Cart

  /** VAT_RATES of the client: a fraction where the server keeps a percentage. */
  function ClientRate(c: VatCondition): real {
    match c
    case Iva21 => 0.21
    case Iva105 => 0.105
    case _ => 0.0
  }

  function ClientNet(gross: real, c: VatCondition): real {
    if ClientRate(c) > 0.0 then gross / (1.0 + ClientRate(c)) else gross
  }

  datatype Entry = Entry(condition: VatCondition, net: int, vat: int, gross: int)

  datatype Totals = Totals(subtotalBruto: int, lineDiscountsTotal: int, globalDiscountAmount: int,
                           totalDiscount: int, vatBreakdown: seq<Entry>, total: int)

  datatype Acc = Acc(net: real, vat: real, gross: real)

  function ConditionOf(): CartItem -> VatCondition { (i: CartItem) => i.vat }

  function GrossIn(f: CartItem -> real, c: VatCondition): CartItem -> real {
    (i: CartItem) => if i.vat == c then f(i) else 0.0
  }

  function NetIn(f: CartItem -> real, c: VatCondition): CartItem -> real {
    (i: CartItem) => if i.vat == c then ClientNet(f(i), i.vat) else 0.0
  }

  /** What one condition accumulates, for line amounts given by `f`. */
  function AccOf(f: CartItem -> real, items: seq<CartItem>, c: VatCondition): Acc {
    var net, gross := RealSum(NetIn(f, c), items), RealSum(GrossIn(f, c), items);
    Acc(net, gross - net, gross)
  }

  function EntryOf(c: VatCondition, a: Acc): Entry { Entry(c, JsRound(a.net), JsRound(a.vat), JsRound(a.gross)) }

  function EntriesOf(f: CartItem -> real, items: seq<CartItem>, cs: seq<VatCondition>): seq<Entry>
  {
    if |cs| == 0 then [] else
      var c := cs[|cs| - 1];
      EntriesOf(f, items, cs[..|cs| - 1]) + [EntryOf(c, AccOf(f, items, c))]
  }

  function TotalsOf(items: seq<CartItem>, global: Option<Discount>): Totals
  {
    var bruto := RealSum(GrossTerm(), items);
    var discounts := RealSum(TotalLineDiscountTerm(items, global), items);
    var ofLines := RealSum(LineDiscountTerm(), items);
    Totals(JsRound(bruto), JsRound(ofLines), JsRound(discounts - ofLines), JsRound(discounts),
           EntriesOf(FinalTerm(items, global), items, FirstSeen(ConditionOf(), items)),
           JsRound(bruto - discounts))
  }

  predicate Grouped(f: CartItem -> real, items: seq<CartItem>, order: seq<VatCondition>, acc: map<VatCondition, Acc>) {
    && order == FirstSeen(ConditionOf(), items)
    && (forall c :: c in acc <==> c in order)
    && (forall c :: c in acc ==> acc[c] == AccOf(f, items, c))
  }

  lemma {:induction false} AbsentIsZero(f: CartItem -> real, items: seq<CartItem>, c: VatCondition)
    requires c !in FirstSeen(ConditionOf(), items)
    ensures AccOf(f, items, c) == Acc(0.0, 0.0, 0.0)
    decreases |items|
  {
    if |items| > 0 {
      AbsentIsZero(f, items[..|items| - 1], c);
    }
  }

  lemma AccGrows(f: CartItem -> real, items: seq<CartItem>, item: CartItem, c: VatCondition)
    ensures var a, net := AccOf(f, items, c), ClientNet(f(item), item.vat);
            AccOf(f, items + [item], c)
            == if item.vat == c then Acc(a.net + net, a.vat + (f(item) - net), a.gross + f(item)) else a
  {
    RealSumAppend(NetIn(f, c), items, item);
    RealSumAppend(GrossIn(f, c), items, item);
  }

  lemma GroupOne(f: CartItem -> real, items: seq<CartItem>, item: CartItem, order: seq<VatCondition>,
                 acc: map<VatCondition, Acc>, before: Acc)
    requires Grouped(f, items, order, acc)
    requires before == if item.vat in acc then acc[item.vat] else Acc(0.0, 0.0, 0.0)
    ensures var net := ClientNet(f(item), item.vat);
            Grouped(f, items + [item], if item.vat in order then order else order + [item.vat],
                    acc[item.vat := Acc(before.net + net, before.vat + (f(item) - net), before.gross + f(item))])
  {
    if item.vat !in acc {
      AbsentIsZero(f, items, item.vat);
    }
    assert (items + [item])[..|items|] == items;
    forall c: VatCondition
      ensures var a, net := AccOf(f, items, c), ClientNet(f(item), item.vat);
              AccOf(f, items + [item], c)
              == if item.vat == c then Acc(a.net + net, a.vat + (f(item) - net), a.gross + f(item)) else a
    {
      AccGrows(f, items, item, c);
    }
  }

  method ComputeCartTotals(items: seq<CartItem>, global: Option<Discount>) returns (t: Totals)
    ensures t == TotalsOf(items, global)
  {
    var f := FinalTerm(items, global);
    var bruto := RealSum(GrossTerm(), items);
    var discounts := RealSum(TotalLineDiscountTerm(items, global), items);
    var ofLines := RealSum(LineDiscountTerm(), items);
    var order: seq<VatCondition>, byCondition: map<VatCondition, Acc> := [], map[];
    for k := 0 to |items|
      invariant Grouped(f, items[..k], order, byCondition)
    {
      var item := items[k];
      assert items[..k + 1] == items[..k] + [item];
      var gross := f(item);
      var net := ClientNet(gross, item.vat);
      var acc := if item.vat in byCondition then byCondition[item.vat] else Acc(0.0, 0.0, 0.0);
      GroupOne(f, items[..k], item, order, byCondition, acc);
      order := if item.vat in order then order else order + [item.vat];
      byCondition := byCondition[item.vat := Acc(acc.net + net, acc.vat + (gross - net), acc.gross + gross)];
    }
    assert items[..|items|] == items;
    var breakdown: seq<Entry> := [];
    for k := 0 to |order|
      invariant breakdown == EntriesOf(f, items, order[..k])
    {
      assert order[..k + 1][..k] == order[..k];
      breakdown := breakdown + [EntryOf(order[k], byCondition[order[k]])];
    }
    assert order[..|order|] == order;
    t := Totals(JsRound(bruto), JsRound(ofLines), JsRound(discounts - ofLines), JsRound(discounts),
                breakdown, JsRound(bruto - discounts));
  }

  /** The breakdown shows the VAT the server will charge on the same amount. */
  lemma ClientVatIsServerVat(gross: real, c: VatCondition)
    ensures gross - ClientNet(gross, c) == IvaContained(gross, RateOf(c))
  {
  }

  /** Every row of the breakdown adds up to within one cent. */
  lemma EntryAddsUp(c: VatCondition, a: Acc)
    requires a.vat == a.gross - a.net
    ensures var e := EntryOf(c, a); -1 <= e.net + e.vat - e.gross <= 1
  {
  }

  function EntryGross(): Entry -> int { (e: Entry) => e.gross }

  function GrossByCondition(f: CartItem -> real, items: seq<CartItem>): VatCondition -> real {
    (c: VatCondition) => AccOf(f, items, c).gross
  }

  lemma {:induction false} GroupsGrow(f: CartItem -> real, items: seq<CartItem>, item: CartItem, cs: seq<VatCondition>)
    requires Distinct(cs)
    ensures RealSum(GrossByCondition(f, items + [item]), cs)
         == RealSum(GrossByCondition(f, items), cs) + (if item.vat in cs then f(item) else 0.0)
    decreases |cs|
  {
    if |cs| > 0 {
      var n := |cs| - 1;
      GroupsGrow(f, items, item, cs[..n]);
      AccGrows(f, items, item, cs[n]);
      assert cs == cs[..n] + [cs[n]];
    }
  }

  lemma {:induction false} GroupsPartition(f: CartItem -> real, items: seq<CartItem>, cs: seq<VatCondition>)
    requires Distinct(cs)
    requires forall i :: 0 <= i < |items| ==> items[i].vat in cs
    ensures RealSum(GrossByCondition(f, items), cs) == RealSum(f, items)
    decreases |items|
  {
    if |items| == 0 {
      NoGroups(f, cs);
    } else {
      var n := |items| - 1;
      assert items == items[..n] + [items[n]];
      GroupsPartition(f, items[..n], cs);
      GroupsGrow(f, items[..n], items[n], cs);
      assert items[n].vat in cs;
    }
  }

  lemma {:induction false} NoGroups(f: CartItem -> real, cs: seq<VatCondition>)
    ensures RealSum(GrossByCondition(f, []), cs) == 0.0
    decreases |cs|
  {
    if |cs| > 0 {
      NoGroups(f, cs[..|cs| - 1]);
    }
  }

  lemma {:induction false} RoundedEntries(f: CartItem -> real, items: seq<CartItem>, cs: seq<VatCondition>)
    ensures |EntriesOf(f, items, cs)| == |cs|
    ensures -0.5 * |cs| as real
         <= Sum(EntryGross(), EntriesOf(f, items, cs)) as real - RealSum(GrossByCondition(f, items), cs)
         <= 0.5 * |cs| as real
    decreases |cs|
  {
    if |cs| > 0 {
      var n := |cs| - 1;
      RoundedEntries(f, items, cs[..n]);
      SumAppend(EntryGross(), EntriesOf(f, items, cs[..n]), EntryOf(cs[n], AccOf(f, items, cs[n])));
    }
  }

  /** The rows of the breakdown add up to the total shown, within half a cent for
      each row and half a cent for the total. */
  lemma BreakdownNearTotal(items: seq<CartItem>, global: Option<Discount>)
    requires Priced(items)
    ensures var t := TotalsOf(items, global);
            var half := 0.5 * (|t.vatBreakdown| + 1) as real;
            -half <= (Sum(EntryGross(), t.vatBreakdown) - t.total) as real <= half
  {
    var f, cs := FinalTerm(items, global), FirstSeen(ConditionOf(), items);
    SeenOnce(ConditionOf(), items);
    SeenAll(ConditionOf(), items);
    assert forall i :: 0 <= i < |items| ==> items[i].vat == ConditionOf()(items[i]);
    GroupsPartition(f, items, cs);
    RoundedEntries(f, items, cs);
    ServerNearFinals(items, global, items);
  }

  /** The two discount rows and the subtotal explain the total, within a cent:
      the unrounded figures do so exactly. */
  lemma DiscountRowsExplainTotal(items: seq<CartItem>, global: Option<Discount>)
    requires Priced(items)
    ensures RealSum(TotalLineDiscountTerm(items, global), items)
         == RealSum(LineDiscountTerm(), items) + GlobalDiscount(items, global)
    ensures var t := TotalsOf(items, global);
            && t.globalDiscountAmount == JsRound(GlobalDiscount(items, global))
            && -1 <= t.subtotalBruto - t.totalDiscount - t.total <= 1
            && -1 <= t.lineDiscountsTotal + t.globalDiscountAmount - t.totalDiscount <= 1
  {
    ProrationConserves(items, global);
    ServerNearFinals(items, global, items);
  }
}
