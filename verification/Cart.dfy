/** The cart of the point of sale: line discounts, a global discount spread over
    the lines, and the payload the server rebuilds the sale from. Amounts are in
    cents and unrounded unless they are `int`. */
module Cart {
  import opened Prelude
  import opened Rounding
  import opened Sums
  import opened Vat
  import Payments
  import Discounts

  datatype Discount = Percentage(value: real) | Fixed(value: real)

  /** `gross` is unitPrice * quantity. */
  datatype CartItem = CartItem(gross: real, vat: VatCondition, discount: Option<Discount>)

  predicate Priced(items: seq<CartItem>) {
    forall i :: 0 <= i < |items| ==> items[i].gross >= 0.0
  }

  predicate WholeCents(items: seq<CartItem>) {
    forall i :: 0 <= i < |items| ==> items[i].gross == items[i].gross.Floor as real
  }

  function DiscountAmount(discount: Option<Discount>, base: real): (a: real)
    ensures 0.0 <= a
    ensures base >= 0.0 ==> a <= base
  {
    if discount.None? || base <= 0.0 then 0.0 else
      var amount := match discount.value
                    case Percentage(p) => base * p / 100.0
                    case Fixed(v) => v;
      Min(Max(amount, 0.0), base)
  }

  // ----- computeLines -----

  function NetTerm(): CartItem -> real { (i: CartItem) => i.gross - DiscountAmount(i.discount, i.gross) }

  function GrossTerm(): CartItem -> real { (i: CartItem) => i.gross }

  function LineDiscountTerm(): CartItem -> real { (i: CartItem) => DiscountAmount(i.discount, i.gross) }

  function NetSubtotal(items: seq<CartItem>): real { RealSum(NetTerm(), items) }

  function GlobalDiscount(items: seq<CartItem>, global: Option<Discount>): real {
    DiscountAmount(global, NetSubtotal(items))
  }

  /** The amount left of one line once its part of a global discount `taken`
      from a net subtotal is removed. */
  function FinalAmount(item: CartItem, taken: real, subtotal: real): real {
    var net := NetTerm()(item);
    net - (if subtotal > 0.0 then taken * (net / subtotal) else 0.0)
  }

  function FinalTerm(items: seq<CartItem>, global: Option<Discount>): CartItem -> real {
    (i: CartItem) => FinalAmount(i, GlobalDiscount(items, global), NetSubtotal(items))
  }

  function TotalLineDiscountTerm(items: seq<CartItem>, global: Option<Discount>): CartItem -> real {
    (i: CartItem) => i.gross - FinalTerm(items, global)(i)
  }

  lemma {:induction false} NetBounds(items: seq<CartItem>)
    requires Priced(items)
    ensures 0.0 <= NetSubtotal(items) <= RealSum(GrossTerm(), items)
    ensures NetSubtotal(items) == RealSum(GrossTerm(), items) - RealSum(LineDiscountTerm(), items)
    ensures NetSubtotal(items) == 0.0 ==> forall i :: 0 <= i < |items| ==> NetTerm()(items[i]) == 0.0
    decreases |items|
  {
    if |items| > 0 {
      var n := |items| - 1;
      NetBounds(items[..n]);
      assert forall i :: 0 <= i < n ==> items[..n][i] == items[i];
    }
  }

  lemma {:induction false} SumOfFinals(items: seq<CartItem>, taken: real, subtotal: real, f: CartItem -> real)
    requires subtotal > 0.0
    requires forall i {:trigger f(i)} :: f(i) == FinalAmount(i, taken, subtotal)
    ensures RealSum(f, items) == NetSubtotal(items) - taken * (NetSubtotal(items) / subtotal)
    decreases |items|
  {
    if |items| > 0 {
      var n := |items| - 1;
      SumOfFinals(items[..n], taken, subtotal, f);
      DivAdditive(NetSubtotal(items[..n]), NetTerm()(items[n]), subtotal);
      assert taken * (NetSubtotal(items[..n]) / subtotal + NetTerm()(items[n]) / subtotal)
          == taken * (NetSubtotal(items[..n]) / subtotal) + taken * (NetTerm()(items[n]) / subtotal);
    }
  }

  /** No money appears or disappears in the proration: the line finals add up to
      the subtotal minus the line discounts minus the global discount. */
  lemma ProrationConserves(items: seq<CartItem>, global: Option<Discount>)
    requires Priced(items)
    ensures RealSum(FinalTerm(items, global), items)
         == RealSum(GrossTerm(), items) - RealSum(LineDiscountTerm(), items) - GlobalDiscount(items, global)
  {
    NetBounds(items);
    var s, g := NetSubtotal(items), GlobalDiscount(items, global);
    if s > 0.0 {
      SumOfFinals(items, g, s, FinalTerm(items, global));
      SelfShare(g, s);
    } else {
      ZeroFinals(items, g, s, FinalTerm(items, global));
    }
  }

  lemma SelfShare(g: real, s: real)
    requires s > 0.0
    ensures g * (s / s) == g
  {
    assert s / s * s == s;
    assert s / s == 1.0;
  }

  lemma ShareBounds(g: real, net: real, s: real)
    requires s > 0.0 && 0.0 <= g <= s && net >= 0.0
    ensures 0.0 <= g * (net / s) <= net
  {
    var share := net / s;
    assert share * s == net;
    assert share >= 0.0;
    assert (s - g) * share >= 0.0;
  }

  lemma {:induction false} ZeroFinals(items: seq<CartItem>, taken: real, subtotal: real, f: CartItem -> real)
    requires subtotal <= 0.0
    requires forall i {:trigger f(i)} :: f(i) == FinalAmount(i, taken, subtotal)
    ensures RealSum(f, items) == NetSubtotal(items)
    decreases |items|
  {
    if |items| > 0 {
      ZeroFinals(items[..|items| - 1], taken, subtotal, f);
    }
  }

  lemma FinalAmountWithin(item: CartItem, taken: real, subtotal: real)
    requires item.gross >= 0.0 && 0.0 <= taken && (subtotal > 0.0 ==> taken <= subtotal)
    ensures 0.0 <= FinalAmount(item, taken, subtotal) <= item.gross
  {
    var net := NetTerm()(item);
    if subtotal > 0.0 {
      ShareBounds(taken, net, subtotal);
    }
  }

  /** And no line is charged more than its gross or less than nothing. */
  lemma FinalWithinGross(items: seq<CartItem>, global: Option<Discount>, i: nat)
    requires Priced(items) && i < |items|
    ensures 0.0 <= FinalTerm(items, global)(items[i]) <= items[i].gross
  {
    NetBounds(items);
    FinalAmountWithin(items[i], GlobalDiscount(items, global), NetSubtotal(items));
  }

  // ----- computeOrderItemsPayload and what the server makes of it -----

  /** The discount sent for one line. */
  function PayloadDiscount(items: seq<CartItem>, global: Option<Discount>, item: CartItem): int {
    JsRound(TotalLineDiscountTerm(items, global)(item))
  }

  /** The line total attemptCreate computes from that payload at the same price. */
  function ServerTerm(items: seq<CartItem>, global: Option<Discount>): CartItem -> real {
    (i: CartItem) => i.gross - Discounts.LineDiscount(PayloadDiscount(items, global, i) as real, i.gross)
  }

  function ServerTotal(items: seq<CartItem>, global: Option<Discount>): real {
    RealSum(ServerTerm(items, global), items)
  }

  function ShownTotal(items: seq<CartItem>, global: Option<Discount>): int {
    JsRound(RealSum(GrossTerm(), items) - RealSum(TotalLineDiscountTerm(items, global), items))
  }

  lemma {:induction false} ServerNearFinals(items: seq<CartItem>, global: Option<Discount>, part: seq<CartItem>)
    requires Priced(items) && part <= items
    ensures -0.5 * |part| as real
         <= RealSum(ServerTerm(items, global), part) - RealSum(FinalTerm(items, global), part)
         <= 0.5 * |part| as real
    ensures RealSum(TotalLineDiscountTerm(items, global), part)
         == RealSum(GrossTerm(), part) - RealSum(FinalTerm(items, global), part)
    decreases |part|
  {
    if |part| > 0 {
      var n := |part| - 1;
      ServerNearFinals(items, global, part[..n]);
      assert part[n] == items[n];
      FinalWithinGross(items, global, n);
    }
  }

  /** The total rebuilt by the server from the rounded payload is within
      (n + 1) / 2 cents of the total the customer was shown. */
  lemma RebuiltTotalNearShown(items: seq<CartItem>, global: Option<Discount>)
    requires Priced(items)
    ensures var half := 0.5 * (|items| + 1) as real;
            -half <= ServerTotal(items, global) - ShownTotal(items, global) as real <= half
  {
    ServerNearFinals(items, global, items);
  }

  lemma {:induction false} ServerTotalWhole(items: seq<CartItem>, global: Option<Discount>, part: seq<CartItem>)
    requires WholeCents(part)
    ensures RealSum(ServerTerm(items, global), part) == RealSum(ServerTerm(items, global), part).Floor as real
    decreases |part|
  {
    if |part| > 0 {
      var n := |part| - 1;
      ServerTotalWhole(items, global, part[..n]);
      var g := part[n].gross.Floor;
      var d := PayloadDiscount(items, global, part[n]);
      var line := if d <= 0 && 0 <= g then g else if d <= 0 then 0 else if d <= g then g - d else 0;
      assert ServerTerm(items, global)(part[n]) == line as real;
      var sum := RealSum(ServerTerm(items, global), part[..n]).Floor + line;
      assert RealSum(ServerTerm(items, global), part) == sum as real;
    }
  }

  /** Paying the total shown by card, to the cent. */
  predicate ExactCardPaymentAccepted(items: seq<CartItem>, global: Option<Discount>) {
    Payments.ServerVerdict([Payments.Payment(Payments.DebitCard, ShownTotal(items, global) as real)],
                           ServerTotal(items, global)) == Payments.Accepted
  }

  lemma CardVerdict(items: seq<CartItem>, global: Option<Discount>)
    ensures ExactCardPaymentAccepted(items, global)
       <==> -1.0 <= ShownTotal(items, global) as real - ServerTotal(items, global) <= 1.0
  {
    var p := Payments.Payment(Payments.DebitCard, ShownTotal(items, global) as real);
    RealSumAppend(Payments.AmountTerm(), [], p);
    assert [p] == [] + [p];
    assert Payments.TotalPaid([p]) == p.amount;
  }

  lemma TwoLinesAccepted(items: seq<CartItem>, global: Option<Discount>)
    requires Priced(items) && WholeCents(items) && |items| <= 2
    ensures ExactCardPaymentAccepted(items, global)
  {
    RebuiltTotalNearShown(items, global);
    ServerTotalWhole(items, global, items);
    var server := ServerTotal(items, global).Floor;
    assert -1.5 <= (server - ShownTotal(items, global)) as real <= 1.5;
    assert -1 <= server - ShownTotal(items, global) <= 1;
    CardVerdict(items, global);
  }

  /** Three lines of $298.55 and any number of lines of $10. */
  function AwkwardCart(n: nat): seq<CartItem>
    requires n >= 3
  {
    var odd := CartItem(29855.0, Iva21, None);
    if n == 3 then [odd, odd, odd] else AwkwardCart(n - 1) + [CartItem(1000.0, Iva21, None)]
  }

  lemma ThreeTerms(f: CartItem -> real, x: CartItem)
    ensures RealSum(f, [x, x, x]) == f(x) + f(x) + f(x)
  {
    assert [x, x, x] == [] + [x] + [x] + [x];
    RealSumAppend(f, [], x);
    RealSumAppend(f, [x], x);
    RealSumAppend(f, [x] + [x], x);
  }

  lemma WholeGross(cents: int)
    ensures var g := cents as real; g == g.Floor as real
  {
  }

  lemma {:induction false} AwkwardShape(n: nat)
    requires n >= 3
    ensures Priced(AwkwardCart(n)) && WholeCents(AwkwardCart(n)) && |AwkwardCart(n)| == n
  {
    WholeGross(29855);
    if n > 3 {
      AwkwardShape(n - 1);
      WholeGross(1000);
    }
  }

  lemma UndiscountedNet(gross: real)
    ensures NetTerm()(CartItem(gross, Iva21, None)) == gross
  {
  }

  lemma {:induction false} AwkwardSums(n: nat)
    requires n >= 3
    ensures NetSubtotal(AwkwardCart(n)) == 89565.0 + 1000.0 * (n - 3) as real
  {
    UndiscountedNet(29855.0);
    UndiscountedNet(1000.0);
    if n == 3 {
      ThreeTerms(NetTerm(), CartItem(29855.0, Iva21, None));
    } else {
      AwkwardSums(n - 1);
      RealSumAppend(NetTerm(), AwkwardCart(n - 1), CartItem(1000.0, Iva21, None));
    }
  }

  lemma TenPercentOff(items: seq<CartItem>, item: CartItem)
    requires NetSubtotal(items) > 0.0 && item.discount.None? && item.gross >= 0.0
    ensures FinalTerm(items, Some(Percentage(10.0)))(item) == 0.9 * item.gross
  {
    var s := NetSubtotal(items);
    assert GlobalDiscount(items, Some(Percentage(10.0))) == s / 10.0;
    var share := item.gross / s;
    assert share * s == item.gross;
    assert s / 10.0 * share == item.gross / 10.0;
  }

  /** A tenth off 298.55 is sent as 29.86, a tenth off 10.00 as 1.00. */
  lemma TenthSent(items: seq<CartItem>)
    requires NetSubtotal(items) > 0.0
    ensures ServerTerm(items, Some(Percentage(10.0)))(CartItem(29855.0, Iva21, None)) == 26869.0
    ensures ServerTerm(items, Some(Percentage(10.0)))(CartItem(1000.0, Iva21, None)) == 900.0
  {
    var off, odd, ten := Some(Percentage(10.0)), CartItem(29855.0, Iva21, None), CartItem(1000.0, Iva21, None);
    TenPercentOff(items, odd);
    TenPercentOff(items, ten);
    assert PayloadDiscount(items, off, odd) == 2986;
    RoundInt(100);
    assert PayloadDiscount(items, off, ten) == 100;
  }

  lemma {:induction false} AwkwardServerTotal(items: seq<CartItem>, n: nat)
    requires n >= 3 && NetSubtotal(items) > 0.0
    ensures RealSum(ServerTerm(items, Some(Percentage(10.0))), AwkwardCart(n)) == 80607.0 + 900.0 * (n - 3) as real
  {
    TenthSent(items);
    var f := ServerTerm(items, Some(Percentage(10.0)));
    if n == 3 {
      ThreeTerms(f, CartItem(29855.0, Iva21, None));
    } else {
      AwkwardServerTotal(items, n - 1);
      RealSumAppend(f, AwkwardCart(n - 1), CartItem(1000.0, Iva21, None));
    }
  }

  /** With 10% off, the awkward cart shows two cents more than the server will
      accept: a card paid to the cent is rejected as overpaid. */
  lemma AwkwardCartRejected(n: nat)
    requires n >= 3
    ensures !ExactCardPaymentAccepted(AwkwardCart(n), Some(Percentage(10.0)))
  {
    var items, off := AwkwardCart(n), Some(Percentage(10.0));
    AwkwardShape(n);
    AwkwardSums(n);
    NetBounds(items);
    AwkwardServerTotal(items, n);
    ServerNearFinals(items, off, items);
    ProrationConserves(items, off);
    assert GlobalDiscount(items, off) == NetSubtotal(items) / 10.0;
    var finals := RealSum(FinalTerm(items, off), items);
    assert finals == 80608.5 + 900.0 * (n - 3) as real;
    assert ShownTotal(items, off) == JsRound(finals);
    JsRoundShift(80608 + 900 * (n - 3), 0.5);
    assert finals == (80608 + 900 * (n - 3)) as real + 0.5;
    assert ShownTotal(items, off) == 80609 + 900 * (n - 3);
    CardVerdict(items, off);
  }

  ghost predicate AlwaysAccepted(n: nat) {
    forall items: seq<CartItem>, global: Option<Discount> ::
      |items| == n && Priced(items) && WholeCents(items) ==> ExactCardPaymentAccepted(items, global)
  }

  /** The tolerance of one cent is enough for every whole-cent cart of n lines
      exactly when n is at most two. */
  lemma ToleranceCoversTwoLines(n: nat)
    ensures AlwaysAccepted(n) <==> n <= 2
  {
    if n <= 2 {
      forall items: seq<CartItem>, global: Option<Discount> | |items| == n && Priced(items) && WholeCents(items)
        ensures ExactCardPaymentAccepted(items, global)
      {
        TwoLinesAccepted(items, global);
      }
    } else {
      AwkwardShape(n);
      AwkwardCartRejected(n);
    }
  }

  // ----- A global percentage against the cap of the role -----

  predicate NoLineDiscounts(items: seq<CartItem>) {
    forall i :: 0 <= i < |items| ==> items[i].discount.None?
  }

  /** The server's check on one line, for the discount the client sent. */
  predicate CapAllows(limit: real, sent: int, gross: real) {
    Discounts.WithinLimit(Some(limit), Discounts.LineDiscount(sent as real, gross), gross)
  }

  /** A global percentage within the cap passes the server's check on every line
      of at least $50, in spite of the rounding of the payload. */
  lemma GlobalPercentWithinCap(items: seq<CartItem>, percent: real, limit: real, i: nat, sent: int)
    requires Priced(items) && NoLineDiscounts(items) && percent <= limit
    requires i < |items| && items[i].gross >= 5000.0
    requires sent == PayloadDiscount(items, Some(Percentage(percent)), items[i])
    ensures CapAllows(limit, sent, items[i].gross)
  {
    SentPercent(items, percent, i);
    CappedDiscount(items[i].gross, percent, limit, sent);
  }

  /** The rounded percentage of one line. */
  function PercentOf(gross: real, percent: real): int {
    JsRound(gross * Min(Max(percent, 0.0), 100.0) / 100.0)
  }

  lemma SentPercent(items: seq<CartItem>, percent: real, i: nat)
    requires Priced(items) && NoLineDiscounts(items) && i < |items| && items[i].gross > 0.0
    ensures PayloadDiscount(items, Some(Percentage(percent)), items[i])
         == PercentOf(items[i].gross, percent)
  {
    NetPositive(items, i);
    EffectivePercent(NetSubtotal(items), percent);
    PercentShare(items, Some(Percentage(percent)), items[i], Min(Max(percent, 0.0), 100.0));
  }

  lemma CappedDiscount(g: real, percent: real, limit: real, sent: int)
    requires g >= 5000.0 && percent <= limit && sent == PercentOf(g, percent)
    ensures CapAllows(limit, sent, g)
  {
    if percent <= 0.0 {
      RoundInt(0);
      assert sent == 0;
    } else {
      var e := Min(percent, 100.0);
      Scale(g, 0.0, e);
      RoundedWithinCap(g, e, limit, Discounts.LineDiscount(sent as real, g));
    }
  }

  lemma RoundedWithinCap(g: real, e: real, limit: real, d: real)
    requires g >= 5000.0 && e <= limit && d <= g * e / 100.0 + 0.5
    ensures Discounts.WithinLimit(Some(limit), d, g)
  {
    Scale(g, e, limit);
    assert (limit + 0.01) * g == g * limit + 0.01 * g;
    Discounts.WithinLimitProduct(limit + 0.01, d, g);
  }

  lemma PercentShare(items: seq<CartItem>, global: Option<Discount>, item: CartItem, effective: real)
    requires NetSubtotal(items) > 0.0 && item.discount.None?
    requires GlobalDiscount(items, global) == NetSubtotal(items) * effective / 100.0
    ensures TotalLineDiscountTerm(items, global)(item) == item.gross * effective / 100.0
  {
    var s, g := NetSubtotal(items), item.gross;
    ShareOfPercent(g, s, effective);
    assert FinalTerm(items, global)(item) == FinalAmount(item, GlobalDiscount(items, global), s);
    assert FinalAmount(item, GlobalDiscount(items, global), s) == g - GlobalDiscount(items, global) * (g / s);
  }

  lemma ShareOfPercent(g: real, s: real, e: real)
    requires s > 0.0
    ensures s * e / 100.0 * (g / s) == g * e / 100.0
  {
    var share := g / s;
    assert s * e / 100.0 * share == share * s * e / 100.0;
  }

  lemma EffectivePercent(s: real, percent: real)
    requires s > 0.0
    ensures DiscountAmount(Some(Percentage(percent)), s) == s * Min(Max(percent, 0.0), 100.0) / 100.0
  {
    if percent < 0.0 {
      Scale(s, percent, 0.0);
    } else if percent > 100.0 {
      Scale(s, 100.0, percent);
    } else {
      Scale(s, 0.0, percent);
      Scale(s, percent, 100.0);
    }
  }

  lemma Scale(s: real, x: real, y: real)
    requires s > 0.0 && x <= y
    ensures s * x <= s * y
  {
    assert s * (y - x) >= 0.0;
  }

  lemma {:induction false} NetPositive(items: seq<CartItem>, i: nat)
    requires Priced(items) && NoLineDiscounts(items) && i < |items|
    ensures NetSubtotal(items) >= items[i].gross
    decreases |items|
  {
    var n := |items| - 1;
    NetBounds(items[..n]);
    if i < n {
      NetPositive(items[..n], i);
    }
  }

  /** Below $50 the rounding alone can break the cap: 10% of $33.35 is sent as
      $3.34, which the server reads as 10.015%. */
  lemma SmallLineOverCap()
    ensures var cart := [CartItem(3335.0, Iva21, None)];
            !CapAllows(10.0, PayloadDiscount(cart, Some(Percentage(10.0)), cart[0]), 3335.0)
  {
    var item := CartItem(3335.0, Iva21, None);
    RealSumAppend(NetTerm(), [], item);
    assert [item] == [] + [item];
    TenPercentOff([item], item);
    assert PayloadDiscount([item], Some(Percentage(10.0)), item) == 334;
    Discounts.WithinLimitProduct(10.01, 334.0, 3335.0);
  }
}
