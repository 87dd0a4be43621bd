/** What the figures on vouchers and screens are, written as plain fractions of the
    amounts sold: 21 of every 121 and 21 of every 221 are VAT. */
module Figures {
  import opened Prelude
  import opened Rounding
  import opened Sums
  import opened Vat
  import FeCae
  import Invoices
  import Cart
  import CartTotals
  import Payments
  import Discounts

  /** To half a cent. */
  predicate Near(figure: int, amount: real) { -0.5 <= figure as real - amount <= 0.5 }

  /** The VAT contained in an amount. */
  function VatIn(amount: real, c: VatCondition): real {
    match c
    case Iva21 => amount * 21.0 / 121.0
    case Iva105 => amount * 21.0 / 221.0
    case _ => 0.0
  }

  lemma ContainedVat(amount: real, c: VatCondition)
    ensures IvaContained(amount, RateOf(c)) == VatIn(amount, c)
  {
  }

  // ----- Vouchers -----

  /** What was sold under one condition. */
  function SoldUnder(items: seq<Item>, c: VatCondition): int
  {
    if |items| == 0 then 0 else
      var last := items[|items| - 1];
      SoldUnder(items[..|items| - 1], c) + (if last.vat == c then last.total else 0)
  }

  function SoldAtAll(items: seq<Item>): int
  {
    if |items| == 0 then 0 else SoldAtAll(items[..|items| - 1]) + items[|items| - 1].total
  }

  function VatUnder(items: seq<Item>, c: VatCondition): real { VatIn(SoldUnder(items, c) as real, c) }

  lemma {:induction false} SoldIsTotal(items: seq<Item>, c: VatCondition)
    ensures FeCae.ConditionTotal(items, c) == SoldUnder(items, c) && Sum(FeCae.TotalTerm(), items) == SoldAtAll(items)
    decreases |items|
  {
    if |items| > 0 {
      SoldIsTotal(items[..|items| - 1], c);
    }
  }

  lemma BaseAndVat(items: seq<Item>, c: VatCondition)
    requires RatesMatch(items)
    ensures FeCae.IvaOf(items, c) == VatUnder(items, c)
    ensures FeCae.BaseOf(items, c) == SoldUnder(items, c) as real - VatUnder(items, c)
  {
    FeCae.ConditionIva(items, c);
    SoldIsTotal(items, c);
    ContainedVat(SoldUnder(items, c) as real, c);
  }

  /** What an invoice declares: exempt and untaxed sales to the cent, the taxed ones
      split into net and VAT, each to half a cent. */
  lemma DeclaredFigures(items: seq<Item>)
    requires RatesMatch(items)
    ensures var a := FeCae.AmountsOf(items);
            && a.importeTotal == SoldAtAll(items)
            && a.importeExento == SoldUnder(items, Exento) && a.importeNoGravado == SoldUnder(items, NoGravado)
            && Near(a.importeIva, VatUnder(items, Iva21) + VatUnder(items, Iva105))
            && Near(a.importeNeto, (SoldUnder(items, Iva21) + SoldUnder(items, Iva105) + SoldUnder(items, Iva0)) as real
                                   - VatUnder(items, Iva21) - VatUnder(items, Iva105))
  {
    BaseAndVat(items, Iva21);
    BaseAndVat(items, Iva105);
    BaseAndVat(items, Iva0);
    BaseAndVat(items, Exento);
    BaseAndVat(items, NoGravado);
    SoldIsTotal(items, Iva21);
    RoundInt(SoldUnder(items, Exento));
    RoundInt(SoldUnder(items, NoGravado));
  }

  /** Code 5 is 21%, code 4 is 10.5% and code 3 is 0%. */
  predicate RowFigures(items: seq<Item>, row: FeCae.Alicuota) {
    3 <= row.id <= 5
    && var c := if row.id == 5 then Iva21 else if row.id == 4 then Iva105 else Iva0;
       && FeCae.Sold(items, c) && Near(row.importe, VatUnder(items, c))
       && Near(row.baseImponible, SoldUnder(items, c) as real - VatUnder(items, c))
  }

  predicate HasRow(rows: seq<FeCae.Alicuota>, id: nat) { exists i :: 0 <= i < |rows| && rows[i].id == id }

  predicate RowsFor(items: seq<Item>, cs: seq<VatCondition>, rows: seq<FeCae.Alicuota>) {
    && (forall i :: 0 <= i < |rows| ==> RowFigures(items, rows[i]))
    && (HasRow(rows, 5) <==> Iva21 in cs) && (HasRow(rows, 4) <==> Iva105 in cs) && (HasRow(rows, 3) <==> Iva0 in cs)
  }

  lemma HasRowAppend(rows: seq<FeCae.Alicuota>, row: FeCae.Alicuota, id: nat)
    ensures HasRow(rows + [row], id) <==> HasRow(rows, id) || row.id == id
  {
    if i :| 0 <= i < |rows| && rows[i].id == id {
      assert (rows + [row])[i].id == id;
    }
    assert (rows + [row])[|rows|] == row;
  }

  lemma RowAppended(items: seq<Item>, cs: seq<VatCondition>, c: VatCondition, rows: seq<FeCae.Alicuota>)
    requires RatesMatch(items) && FeCae.Taxed(c) && FeCae.Sold(items, c) && RowsFor(items, cs, rows)
    ensures RowsFor(items, cs + [c], rows + [FeCae.AlicuotaOf(items, c)])
  {
    BaseAndVat(items, c);
    HasRowAppend(rows, FeCae.AlicuotaOf(items, c), 5);
    HasRowAppend(rows, FeCae.AlicuotaOf(items, c), 4);
    HasRowAppend(rows, FeCae.AlicuotaOf(items, c), 3);
  }

  lemma {:induction false} RowsAre(items: seq<Item>, cs: seq<VatCondition>)
    requires RatesMatch(items) && forall k :: 0 <= k < |cs| ==> FeCae.Sold(items, cs[k])
    ensures RowsFor(items, cs, FeCae.AlicuotasOf(items, cs))
    decreases |cs|
  {
    if |cs| > 0 {
      var before, c := cs[..|cs| - 1], cs[|cs| - 1];
      RowsAre(items, before);
      assert cs == before + [c];
      if FeCae.Taxed(c) {
        RowAppended(items, before, c, FeCae.AlicuotasOf(items, before));
      } else {
        assert FeCae.AlicuotasOf(items, cs) == FeCae.AlicuotasOf(items, before);
      }
    }
  }

  /** One rate row for each taxed condition sold, with its code, base and VAT. */
  lemma RateRowsAre(items: seq<Item>)
    requires RatesMatch(items)
    ensures var rows := FeCae.AmountsOf(items).alicuotas;
            && (forall i :: 0 <= i < |rows| ==> RowFigures(items, rows[i]))
            && (HasRow(rows, 5) <==> FeCae.Sold(items, Iva21))
            && (HasRow(rows, 4) <==> FeCae.Sold(items, Iva105))
            && (HasRow(rows, 3) <==> FeCae.Sold(items, Iva0))
  {
    forall c: VatCondition
      ensures c in FeCae.Seen(items) <==> FeCae.Sold(items, c)
    {
      FeCae.SeenIff(items, c);
    }
    RowsAre(items, FeCae.Seen(items));
  }

  /** A voucher of class C declares its total as net, the others the four parts. */
  lemma AdaptedFigures(items: seq<Item>, cbteTipo: nat)
    requires RatesMatch(items)
    ensures var d := FeCae.AdaptAmountsToCbteTipo(FeCae.AmountsOf(items), cbteTipo);
            if cbteTipo == 11 || cbteTipo == 13 then d == FeCae.Declared(SoldAtAll(items), 0, 0, 0, false)
            else
              && d.incluirIva && d.impOpEx == SoldUnder(items, Exento) && d.impTotConc == SoldUnder(items, NoGravado)
              && Near(d.impIva, VatUnder(items, Iva21) + VatUnder(items, Iva105))
  {
    DeclaredFigures(items);
  }

  /** The figures kept with every voucher: the total of the order and its VAT. */
  lemma VoucherFigures(s: Invoices.Fiscal, k: nat)
    requires Invoices.Declares(s) && k < |s.invoices| && s.invoices[k].order < |s.orders|
    requires RatesMatch(s.orders[s.invoices[k].order].items)
    ensures var items, f := s.orders[s.invoices[k].order].items, s.invoices[k].figures;
            && f.total == SoldAtAll(items) && f.subtotalNeto + f.vatAmount == f.total
            && Near(f.vatAmount, VatUnder(items, Iva21) + VatUnder(items, Iva105))
  {
    DeclaredFigures(s.orders[s.invoices[k].order].items);
    FeCae.AmountsAddUp(s.orders[s.invoices[k].order].items);
  }

  // ----- The report of VAT by rate -----

  /** The VAT contained in a total, at any rate. */
  function VatAt(total: int, rate: real): real
    requires rate >= 0.0
  {
    total as real * rate / (100.0 + rate)
  }

  predicate ReportRow(items: seq<Item>, row: VatEntry) {
    row.rate >= 0.0 && RateTotal(items, row.rate) != 0 && Near(row.amount, VatAt(RateTotal(items, row.rate), row.rate))
  }

  predicate ReportedIn(rows: seq<VatEntry>, rate: real) { exists i :: 0 <= i < |rows| && rows[i].rate == rate }

  lemma RateFraction(total: int, rate: real)
    requires rate >= 0.0
    ensures IvaContained(total as real, rate) == VatAt(total, rate)
  {
    var amount, whole, part := total as real, 100.0 + rate, 1.0 + rate / 100.0;
    assert 100.0 * part == whole;
    var net := amount / part;
    assert net * part == amount;
    assert net * whole == 100.0 * amount;
    assert (amount - net) * whole == amount * rate;
  }

  lemma NewRow(items: seq<Item>, rate: real)
    requires rate >= 0.0 && RateTotal(items, rate) != 0
    ensures ReportRow(items, VatEntry(rate, JsRound(IvaContained(RateTotal(items, rate) as real, rate))))
  {
    RateFraction(RateTotal(items, rate), rate);
    var vat := VatAt(RateTotal(items, rate), rate);
    assert Near(JsRound(vat), vat);
  }

  /** One row for each rate with sales: what of them is VAT, to half a cent. */
  lemma {:induction false} ReportRowsAre(items: seq<Item>, rates: seq<real>)
    requires forall i :: 0 <= i < |rates| ==> rates[i] >= 0.0
    ensures var rows := VatByRate(items, rates);
            && (forall i :: 0 <= i < |rows| ==> ReportRow(items, rows[i]))
            && (forall rate :: ReportedIn(rows, rate) <==> rate in rates && RateTotal(items, rate) != 0)
    decreases |rates|
  {
    if |rates| > 0 {
      var before, r := rates[..|rates| - 1], rates[|rates| - 1];
      ReportRowsAre(items, before);
      assert rates == before + [r];
      var rows := VatByRate(items, before);
      if RateTotal(items, r) != 0 { NewRow(items, r); }
      var row := VatEntry(r, JsRound(IvaContained(RateTotal(items, r) as real, r)));
      forall rate: real
        ensures ReportedIn(rows + [row], rate) <==> ReportedIn(rows, rate) || r == rate
      {
        ReportedAppend(rows, row, rate);
      }
    }
  }

  lemma ReportedAppend(rows: seq<VatEntry>, row: VatEntry, rate: real)
    ensures ReportedIn(rows + [row], rate) <==> ReportedIn(rows, rate) || row.rate == rate
  {
    if i :| 0 <= i < |rows| && rows[i].rate == rate {
      assert (rows + [row])[i].rate == rate;
    }
    assert (rows + [row])[|rows|] == row;
  }

  // ----- The cart -----

  /** A fixed discount takes its own amount: never a negative one, and never more
      than there is. */
  lemma FixedTakes(v: real, base: real)
    requires base >= 0.0
    ensures var amount := Cart.DiscountAmount(Some(Cart.Fixed(v)), base);
            if v <= 0.0 then amount == 0.0 else if v >= base then amount == base else amount == v
  {
  }

  /** A percentage takes its part, between nothing and everything. */
  lemma PercentageTakes(p: real, base: real)
    ensures var amount := Cart.DiscountAmount(Some(Cart.Percentage(p)), base);
            && (base <= 0.0 || p <= 0.0 ==> amount == 0.0)
            && (base > 0.0 && 0.0 <= p <= 100.0 ==> 100.0 * amount == base * p)
            && (base > 0.0 && p >= 100.0 ==> amount == base)
  {
    if base > 0.0 {
      var product := base * p;
      PartOf(base, p, product);
      PartTaken(base, p, product);
    }
  }

  lemma PartTaken(base: real, p: real, product: real)
    requires base > 0.0 && product == base * p
    ensures Cart.DiscountAmount(Some(Cart.Percentage(p)), base) == Min(Max(product / 100.0, 0.0), base)
  {
  }

  lemma SignOf(x: real, y: real)
    requires x >= 0.0 && y >= 0.0
    ensures x * y >= 0.0
  {
  }

  lemma PartOf(base: real, p: real, product: real)
    requires base >= 0.0 && product == base * p
    ensures p <= 0.0 ==> product <= 0.0
    ensures p >= 100.0 ==> product >= 100.0 * base
    ensures 0.0 <= p <= 100.0 ==> 0.0 <= product <= 100.0 * base
  {
    if p >= 100.0 {
      SignOf(base, p - 100.0);
      assert base * (p - 100.0) == product - 100.0 * base;
    } else if p >= 0.0 {
      SignOf(base, p);
      SignOf(base, 100.0 - p);
      assert base * (100.0 - p) == 100.0 * base - product;
    } else {
      SignOf(base, -p);
      assert base * -p == -product;
    }
  }

  /** What is left of the lines of one condition. */
  function LeftUnder(f: Cart.CartItem -> real, items: seq<Cart.CartItem>, c: VatCondition): real
  {
    if |items| == 0 then 0.0 else
      var last := items[|items| - 1];
      LeftUnder(f, items[..|items| - 1], c) + (if last.vat == c then f(last) else 0.0)
  }

  lemma {:induction false} AccIs(f: Cart.CartItem -> real, items: seq<Cart.CartItem>, c: VatCondition)
    ensures var a, left := CartTotals.AccOf(f, items, c), LeftUnder(f, items, c);
            a.gross == left && a.vat == VatIn(left, c) && a.net == left - VatIn(left, c)
    decreases |items|
  {
    if |items| > 0 {
      var n := |items| - 1;
      AccIs(f, items[..n], c);
      assert items == items[..n] + [items[n]];
      CartTotals.AccGrows(f, items[..n], items[n], c);
      CartTotals.ClientVatIsServerVat(f(items[n]), c);
      ContainedVat(f(items[n]), c);
    }
  }

  predicate EntryFigures(f: Cart.CartItem -> real, items: seq<Cart.CartItem>, e: CartTotals.Entry) {
    var left := LeftUnder(f, items, e.condition);
    && Near(e.gross, left) && Near(e.vat, VatIn(left, e.condition)) && Near(e.net, left - VatIn(left, e.condition))
  }

  lemma {:induction false} EntriesAre(f: Cart.CartItem -> real, items: seq<Cart.CartItem>, cs: seq<VatCondition>)
    ensures var rows := CartTotals.EntriesOf(f, items, cs);
            && |rows| == |cs|
            && forall i :: 0 <= i < |cs| ==> rows[i].condition == cs[i] && EntryFigures(f, items, rows[i])
    decreases |cs|
  {
    if |cs| > 0 {
      var n := |cs| - 1;
      EntriesAre(f, items, cs[..n]);
      AccIs(f, items, cs[n]);
    }
  }

  /** The figures of the cart: the subtotal of the lines, what is left of them once
      every discount is off, and one row of net and VAT for each condition, in
      order of appearance. */
  lemma CartFigures(items: seq<Cart.CartItem>, global: Option<Cart.Discount>)
    requires Cart.Priced(items)
    ensures var t, f := CartTotals.TotalsOf(items, global), Cart.FinalTerm(items, global);
            && Near(t.subtotalBruto, RealSum(Cart.GrossTerm(), items)) && Near(t.total, RealSum(f, items))
            && Near(t.lineDiscountsTotal, RealSum(Cart.LineDiscountTerm(), items))
            && Near(t.globalDiscountAmount, Cart.GlobalDiscount(items, global))
            && forall i :: 0 <= i < |t.vatBreakdown| ==> EntryFigures(f, items, t.vatBreakdown[i])
  {
    EntriesAre(Cart.FinalTerm(items, global), items, FirstSeen(CartTotals.ConditionOf(), items));
    Cart.ServerNearFinals(items, global, items);
    Cart.ProrationConserves(items, global);
  }

  // ----- Paying -----

  /** In whole cents, paying exactly what the screen still asks for completes the
      payment, by any means. */
  lemma PayingTheRestIsAccepted(payments: seq<Payments.Payment>, total: int, kind: Payments.Method)
    requires Payments.WholeCents(payments) && Payments.TotalPaid(payments) <= total as real
    ensures var rest := Payments.RemainingToPay(payments, total as real) as real;
            && rest == total as real - Payments.TotalPaid(payments)
            && Payments.ServerVerdict(payments + [Payments.Payment(kind, rest)], total as real) == Payments.Accepted
  {
    Payments.WholeTotal(payments);
    var paid := Payments.TotalPaid(payments).Floor;
    RoundInt(paid);
    RoundInt(total - paid);
    assert total as real - paid as real == (total - paid) as real;
    RealSumAppend(Payments.AmountTerm(), payments, Payments.Payment(kind, (total - paid) as real));
  }

  /** The cap of the role, in hundredths of a percent more than it says. */
  lemma WithinLimitIff(limit: real, discount: real, gross: real)
    ensures Discounts.WithinLimit(Some(limit), discount, gross)
       <==> gross <= 0.0 || discount <= 0.0 || 100.0 * discount <= (limit + 0.01) * gross
  {
    if gross > 0.0 {
      Discounts.WithinLimitProduct(limit + 0.01, discount, gross);
    }
  }
}
