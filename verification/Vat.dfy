/** The VAT contained in a price, computed three times by the program: line by
    line when a sale is made, per VAT condition for the tax authority and per
    rate for the reports. */
module Vat {
  import opened Rounding
  import opened Sums

  datatype VatCondition = Iva21 | Iva105 | Iva0 | Exento | NoGravado

  /** VAT_RATE_MAP: the rate an order snapshots next to the condition. */
  function RateOf(c: VatCondition): real {
    match c
    case Iva21 => 21.0
    case Iva105 => 10.5
    case Iva0 => 0.0
    case Exento => 0.0
    case NoGravado => 0.0
  }

  /** A stored order line: its total is a whole number of cents. */
  datatype Item = Item(total: int, vat: VatCondition, taxRate: real)

  predicate RatesMatch(items: seq<Item>) {
    forall i :: 0 <= i < |items| ==> items[i].taxRate == RateOf(items[i].vat)
  }

  function IvaContained(total: real, rate: real): real {
    if rate > 0.0 then total - total / (1.0 + rate / 100.0) else 0.0
  }

  function IvaTerm(): Item -> real { (i: Item) => IvaContained(i.total as real, i.taxRate) }

  function LineIva(items: seq<Item>): real { RealSum(IvaTerm(), items) }

  function RateTotalTerm(rate: real): Item -> int {
    (i: Item) => if i.taxRate == rate then i.total else 0
  }

  /** `sumTotal` of one group of the report's GROUP BY taxRate. */
  function RateTotal(items: seq<Item>, rate: real): int { Sum(RateTotalTerm(rate), items) }

  function RateIvaTerm(items: seq<Item>): real -> real {
    (rate: real) => IvaContained(RateTotal(items, rate) as real, rate)
  }

  ghost predicate Distinct<T(!new)>(s: seq<T>) {
    forall i, j :: 0 <= i < j < |s| ==> s[i] != s[j]
  }

  /** The conditions of the rows, each once, in order of first appearance: the
      iteration order of the JavaScript Map the rows are grouped into. */
  function FirstSeen<T>(condition: T -> VatCondition, rows: seq<T>): seq<VatCondition>
  {
    if |rows| == 0 then [] else
      var n := |rows| - 1;
      var before := FirstSeen(condition, rows[..n]);
      if condition(rows[n]) in before then before else before + [condition(rows[n])]
  }

  lemma {:induction false} SeenOnce<T>(condition: T -> VatCondition, rows: seq<T>)
    ensures Distinct(FirstSeen(condition, rows))
    decreases |rows|
  {
    if |rows| > 0 {
      SeenOnce(condition, rows[..|rows| - 1]);
    }
  }

  lemma {:induction false} SeenAll<T>(condition: T -> VatCondition, rows: seq<T>)
    ensures forall i :: 0 <= i < |rows| ==> condition(rows[i]) in FirstSeen(condition, rows)
    decreases |rows|
  {
    if |rows| > 0 {
      SeenAll(condition, rows[..|rows| - 1]);
    }
  }

  lemma DivAdditive(x: real, y: real, k: real)
    requires k > 0.0
    ensures (x + y) / k == x / k + y / k
  {
    assert (x / k + y / k) * k == x + y;
  }

  lemma IvaAdditive(x: real, y: real, rate: real)
    ensures IvaContained(x + y, rate) == IvaContained(x, rate) + IvaContained(y, rate)
  {
    if rate > 0.0 {
      DivAdditive(x, y, 1.0 + rate / 100.0);
    }
  }

  /** One more line moves only the group of its own rate. */
  lemma {:induction false} GroupSumGrows(items: seq<Item>, item: Item, rates: seq<real>)
    requires Distinct(rates)
    ensures RealSum(RateIvaTerm(items + [item]), rates)
         == RealSum(RateIvaTerm(items), rates)
          + (if item.taxRate in rates then IvaContained(item.total as real, item.taxRate) else 0.0)
    decreases |rates|
  {
    if |rates| > 0 {
      var n := |rates| - 1;
      var r := rates[n];
      GroupSumGrows(items, item, rates[..n]);
      SumAppend(RateTotalTerm(r), items, item);
      IvaAdditive(RateTotal(items, r) as real, item.total as real, r);
      assert rates == rates[..n] + [r];
    }
  }

  /** Line by line or group by group, the VAT is the same number: whatever the
      rates, in whatever order the database returns the groups. */
  lemma {:induction false} RateGroupsGiveLineIva(items: seq<Item>, rates: seq<real>)
    requires Distinct(rates)
    requires forall i :: 0 <= i < |items| ==> items[i].taxRate in rates
    ensures RealSum(RateIvaTerm(items), rates) == LineIva(items)
    decreases |items|
  {
    if |items| == 0 {
      EmptyGroups(items, rates);
    } else {
      var n := |items| - 1;
      assert items == items[..n] + [items[n]];
      RateGroupsGiveLineIva(items[..n], rates);
      GroupSumGrows(items[..n], items[n], rates);
      assert items[n].taxRate in rates;
    }
  }

  lemma {:induction false} EmptyGroups(items: seq<Item>, rates: seq<real>)
    requires |items| == 0
    ensures RealSum(RateIvaTerm(items), rates) == 0.0
    decreases |rates|
  {
    if |rates| > 0 {
      var n := |rates| - 1;
      EmptyGroups(items, rates[..n]);
      assert RateTotal(items, rates[n]) == 0;
      assert IvaContained(0.0, rates[n]) == 0.0 by {
        IvaAdditive(0.0, 0.0, rates[n]);
      }
    }
  }

  lemma LineIvaIgnoresOrder(items: seq<Item>, shuffled: seq<Item>)
    requires multiset(items) == multiset(shuffled)
    ensures LineIva(items) == LineIva(shuffled)
  {
    RealSumPermutation(IvaTerm(), items, shuffled);
  }

  datatype VatEntry = VatEntry(rate: real, amount: int)

  /** computeVatByRate: groups that sum to zero are dropped, the others rounded. */
  function VatByRate(items: seq<Item>, rates: seq<real>): seq<VatEntry>
  {
    if |rates| == 0 then [] else
      var r := rates[|rates| - 1];
      var before := VatByRate(items, rates[..|rates| - 1]);
      if RateTotal(items, r) == 0 then before
      else before + [VatEntry(r, JsRound(IvaContained(RateTotal(items, r) as real, r)))]
  }

  function AmountTerm(): VatEntry -> int { (e: VatEntry) => e.amount }

  /** The report's rows add up to the VAT charged line by line, within half a
      cent for each row shown. */
  lemma ReportWithinHalfCentPerRow(items: seq<Item>, rates: seq<real>)
    requires Distinct(rates)
    requires forall i :: 0 <= i < |items| ==> items[i].taxRate in rates
    ensures var rows := VatByRate(items, rates);
            -0.5 * |rows| as real <= Sum(AmountTerm(), rows) as real - LineIva(items) <= 0.5 * |rows| as real
  {
    RateGroupsGiveLineIva(items, rates);
    RoundedGroups(items, rates);
  }

  lemma {:induction false} RoundedGroups(items: seq<Item>, rates: seq<real>)
    ensures var rows := VatByRate(items, rates);
            var exact := RealSum(RateIvaTerm(items), rates);
            -0.5 * |rows| as real <= Sum(AmountTerm(), rows) as real - exact <= 0.5 * |rows| as real
    decreases |rates|
  {
    if |rates| > 0 {
      var n := |rates| - 1;
      var r := rates[n];
      RoundedGroups(items, rates[..n]);
      if RateTotal(items, r) == 0 {
        IvaAdditive(0.0, 0.0, r);
      } else {
        SumAppend(AmountTerm(), VatByRate(items, rates[..n]),
                  VatEntry(r, JsRound(IvaContained(RateTotal(items, r) as real, r))));
      }
    }
  }
}
