/** The amounts an invoice declares to the tax authority: the lines of an order
    grouped by VAT condition, with every figure rounded on its own. */
module FeCae {
  import opened Rounding
  import opened Sums
  import opened Vat

  datatype Alicuota = Alicuota(id: nat, baseImponible: int, importe: int)

  datatype Amounts = Amounts(importeTotal: int, importeNeto: int, importeIva: int,
                             importeExento: int, importeNoGravado: int, alicuotas: seq<Alicuota>)

  datatype Acc = Acc(base: real, iva: real)

  predicate Taxed(c: VatCondition) { c != Exento && c != NoGravado }

  /** AFIP_ALICUOTA_ID, defined for the taxed conditions only. */
  function AlicuotaId(c: VatCondition): nat
    requires Taxed(c)
  {
    match c
    case Iva21 => 5
    case Iva105 => 4
    case Iva0 => 3
  }

  // ----- What the figures mean, before rounding -----

  function TotalTerm(): Item -> int { (i: Item) => i.total }

  function ConditionTotalTerm(c: VatCondition): Item -> int { (i: Item) => if i.vat == c then i.total else 0 }

  function ConditionIvaTerm(c: VatCondition): Item -> real {
    (i: Item) => if i.vat == c then IvaContained(i.total as real, i.taxRate) else 0.0
  }

  function ConditionTotal(items: seq<Item>, c: VatCondition): int { Sum(ConditionTotalTerm(c), items) }

  function IvaOf(items: seq<Item>, c: VatCondition): real { RealSum(ConditionIvaTerm(c), items) }

  function BaseOf(items: seq<Item>, c: VatCondition): real { ConditionTotal(items, c) as real - IvaOf(items, c) }

  function NetoOf(items: seq<Item>): real { BaseOf(items, Iva21) + BaseOf(items, Iva105) + BaseOf(items, Iva0) }

  function ImporteIvaOf(items: seq<Item>): real { IvaOf(items, Iva21) + IvaOf(items, Iva105) + IvaOf(items, Iva0) }

  function ConditionOf(): Item -> VatCondition { (i: Item) => i.vat }

  function Seen(items: seq<Item>): seq<VatCondition> { FirstSeen(ConditionOf(), items) }

  function AlicuotaOf(items: seq<Item>, c: VatCondition): Alicuota
    requires Taxed(c)
  {
    Alicuota(AlicuotaId(c), JsRound(BaseOf(items, c)), JsRound(IvaOf(items, c)))
  }

  function AlicuotasOf(items: seq<Item>, cs: seq<VatCondition>): seq<Alicuota>
  {
    if |cs| == 0 then [] else
      var c := cs[|cs| - 1];
      AlicuotasOf(items, cs[..|cs| - 1]) + (if Taxed(c) then [AlicuotaOf(items, c)] else [])
  }

  function AmountsOf(items: seq<Item>): Amounts
  {
    Amounts(Sum(TotalTerm(), items), JsRound(NetoOf(items)), JsRound(ImporteIvaOf(items)),
            JsRound(BaseOf(items, Exento)), JsRound(BaseOf(items, NoGravado)),
            AlicuotasOf(items, Seen(items)))
  }

  // ----- The accumulator loops -----

  /** A running total over conditions already visited. */
  function Visited(f: VatCondition -> real, cs: seq<VatCondition>, taxed: bool): real
  {
    if |cs| == 0 then 0.0 else
      var c := cs[|cs| - 1];
      Visited(f, cs[..|cs| - 1], taxed) + (if Taxed(c) == taxed then f(c) else 0.0)
  }

  lemma {:induction false} VisitedIs(f: VatCondition -> real, cs: seq<VatCondition>)
    requires Distinct(cs)
    ensures Visited(f, cs, true) == (if Iva21 in cs then f(Iva21) else 0.0)
            + (if Iva105 in cs then f(Iva105) else 0.0) + (if Iva0 in cs then f(Iva0) else 0.0)
    decreases |cs|
  {
    if |cs| > 0 {
      var n := |cs| - 1;
      VisitedIs(f, cs[..n]);
      assert cs == cs[..n] + [cs[n]];
      assert cs[n] !in cs[..n];
    }
  }

  function BaseTerm(items: seq<Item>): VatCondition -> real { (c: VatCondition) => BaseOf(items, c) }

  function IvaTermOf(items: seq<Item>): VatCondition -> real { (c: VatCondition) => IvaOf(items, c) }

  lemma {:induction false} AbsentIsZero(items: seq<Item>, c: VatCondition)
    requires forall i :: 0 <= i < |items| ==> items[i].vat != c
    ensures ConditionTotal(items, c) == 0 && IvaOf(items, c) == 0.0 && BaseOf(items, c) == 0.0
    decreases |items|
  {
    if |items| > 0 {
      AbsentIsZero(items[..|items| - 1], c);
    }
  }

  lemma UnseenIsZero(items: seq<Item>, c: VatCondition)
    ensures c !in Seen(items) ==> ConditionTotal(items, c) == 0 && IvaOf(items, c) == 0.0 && BaseOf(items, c) == 0.0
  {
    if c !in Seen(items) {
      SeenAll(ConditionOf(), items);
      forall i | 0 <= i < |items|
        ensures items[i].vat != c
      {
        assert ConditionOf()(items[i]) in Seen(items);
      }
      AbsentIsZero(items, c);
    }
  }

  lemma LoopTotals(items: seq<Item>)
    ensures Visited(BaseTerm(items), Seen(items), true) == NetoOf(items)
    ensures Visited(IvaTermOf(items), Seen(items), true) == ImporteIvaOf(items)
  {
    SeenOnce(ConditionOf(), items);
    VisitedIs(BaseTerm(items), Seen(items));
    VisitedIs(IvaTermOf(items), Seen(items));
    UnseenIsZero(items, Iva21);
    UnseenIsZero(items, Iva105);
    UnseenIsZero(items, Iva0);
  }

  predicate Accumulated(items: seq<Item>, order: seq<VatCondition>, acc: map<VatCondition, Acc>) {
    && order == Seen(items)
    && (forall c :: c in acc <==> c in order)
    && (forall c :: c in acc ==> acc[c] == Acc(BaseOf(items, c), IvaOf(items, c)))
  }

  lemma AccumulateOne(items: seq<Item>, item: Item, c: VatCondition)
    ensures ConditionTotal(items + [item], c) == ConditionTotal(items, c) + (if item.vat == c then item.total else 0)
    ensures IvaOf(items + [item], c)
         == IvaOf(items, c) + (if item.vat == c then IvaContained(item.total as real, item.taxRate) else 0.0)
  {
    SumAppend(ConditionTotalTerm(c), items, item);
    RealSumAppend(ConditionIvaTerm(c), items, item);
  }

  lemma AccumulateItem(items: seq<Item>, item: Item, order: seq<VatCondition>, acc: map<VatCondition, Acc>, before: Acc)
    requires Accumulated(items, order, acc)
    requires before == if item.vat in acc then acc[item.vat] else Acc(0.0, 0.0)
    ensures var iva := IvaContained(item.total as real, item.taxRate);
            Accumulated(items + [item], if item.vat in order then order else order + [item.vat],
                        acc[item.vat := Acc(before.base + (item.total as real - iva), before.iva + iva)])
  {
    SeenAll(ConditionOf(), items);
    if item.vat !in acc {
      AbsentIsZero(items, item.vat);
    }
    assert (items + [item])[..|items|] == items;
    forall c: VatCondition
      ensures ConditionTotal(items + [item], c) == ConditionTotal(items, c) + (if item.vat == c then item.total else 0)
      ensures IvaOf(items + [item], c)
           == IvaOf(items, c) + (if item.vat == c then IvaContained(item.total as real, item.taxRate) else 0.0)
    {
      AccumulateOne(items, item, c);
    }
  }

  /** The first loop of buildFeCaeAmounts: fills the Map of accumulators. */
  method GroupByCondition(items: seq<Item>)
    returns (importeTotal: int, order: seq<VatCondition>, byCondition: map<VatCondition, Acc>)
    ensures importeTotal == Sum(TotalTerm(), items)
    ensures Accumulated(items, order, byCondition)
  {
    importeTotal, order, byCondition := 0, [], map[];
    for k := 0 to |items|
      invariant importeTotal == Sum(TotalTerm(), items[..k])
      invariant Accumulated(items[..k], order, byCondition)
    {
      var item := items[k];
      assert items[..k + 1] == items[..k] + [item];
      SumAppend(TotalTerm(), items[..k], item);
      importeTotal := importeTotal + item.total;
      var iva := IvaContained(item.total as real, item.taxRate);
      var base := item.total as real - iva;
      var acc := if item.vat in byCondition then byCondition[item.vat] else Acc(0.0, 0.0);
      AccumulateItem(items[..k], item, order, byCondition, acc);
      order := if item.vat in order then order else order + [item.vat];
      byCondition := byCondition[item.vat := Acc(acc.base + base, acc.iva + iva)];
    }
    assert items[..|items|] == items;
  }

  /** The running figures of the second loop once some conditions are visited. */
  ghost predicate Progress(items: seq<Item>, done: seq<VatCondition>, neto: real, iva: real, exento: real,
                           noGravado: real, alicuotas: seq<Alicuota>)
  {
    && neto == Visited(BaseTerm(items), done, true) && iva == Visited(IvaTermOf(items), done, true)
    && exento == (if Exento in done then BaseOf(items, Exento) else 0.0)
    && noGravado == (if NoGravado in done then BaseOf(items, NoGravado) else 0.0)
    && alicuotas == AlicuotasOf(items, done)
  }

  lemma ProgressOne(items: seq<Item>, done: seq<VatCondition>, c: VatCondition, neto: real, iva: real, exento: real,
                    noGravado: real, alicuotas: seq<Alicuota>)
    requires Progress(items, done, neto, iva, exento, noGravado, alicuotas) && c !in done
    ensures c == Exento ==> Progress(items, done + [c], neto, iva, exento + BaseOf(items, c), noGravado, alicuotas)
    ensures c == NoGravado ==> Progress(items, done + [c], neto, iva, exento, noGravado + BaseOf(items, c), alicuotas)
    ensures Taxed(c) ==> Progress(items, done + [c], neto + BaseOf(items, c), iva + IvaOf(items, c), exento, noGravado,
                                  alicuotas + [AlicuotaOf(items, c)])
  {
    VisitOne(items, done, c);
  }

  /** The second loop: running totals and rate rows, before rounding the totals. */
  method TotalByKind(items: seq<Item>, order: seq<VatCondition>, byCondition: map<VatCondition, Acc>)
    returns (neto: real, iva: real, exento: real, noGravado: real, alicuotas: seq<Alicuota>)
    requires Accumulated(items, order, byCondition) && Distinct(order)
    ensures Progress(items, order, neto, iva, exento, noGravado, alicuotas)
  {
    neto, iva, exento, noGravado, alicuotas := 0.0, 0.0, 0.0, 0.0, [];
    ghost var done: seq<VatCondition> := [];
    for k := 0 to |order|
      invariant done == order[..k]
      invariant Progress(items, done, neto, iva, exento, noGravado, alicuotas)
    {
      var condition := order[k];
      NotYet(order, k);
      ProgressOne(items, done, condition, neto, iva, exento, noGravado, alicuotas);
      assert condition in byCondition;
      var acc := byCondition[condition];
      assert acc.base == BaseOf(items, condition) && acc.iva == IvaOf(items, condition);
      if condition == Exento {
        exento := exento + acc.base;
      } else if condition == NoGravado {
        noGravado := noGravado + acc.base;
      } else {
        neto := neto + acc.base;
        iva := iva + acc.iva;
        alicuotas := alicuotas + [Alicuota(AlicuotaId(condition), JsRound(acc.base), JsRound(acc.iva))];
      }
      done := done + [condition];
    }
    assert done == order;
  }

  lemma NotYet(order: seq<VatCondition>, k: nat)
    requires Distinct(order) && k < |order|
    ensures order[k] !in order[..k] && order[..k + 1] == order[..k] + [order[k]]
  {
  }

  /** buildFeCaeAmounts. */
  method BuildFeCaeAmounts(items: seq<Item>) returns (amounts: Amounts)
    ensures amounts == AmountsOf(items)
  {
    var importeTotal, order, byCondition := GroupByCondition(items);
    SeenOnce(ConditionOf(), items);
    var neto, iva, exento, noGravado, alicuotas := TotalByKind(items, order, byCondition);
    LoopTotals(items);
    UnseenIsZero(items, Exento);
    UnseenIsZero(items, NoGravado);
    RoundInt(importeTotal);
    amounts := Amounts(JsRound(importeTotal as real), JsRound(neto), JsRound(iva), JsRound(exento),
                       JsRound(noGravado), alicuotas);
  }

  lemma VisitOne(items: seq<Item>, cs: seq<VatCondition>, c: VatCondition)
    ensures Visited(BaseTerm(items), cs + [c], true)
         == Visited(BaseTerm(items), cs, true) + (if Taxed(c) then BaseOf(items, c) else 0.0)
    ensures Visited(IvaTermOf(items), cs + [c], true)
         == Visited(IvaTermOf(items), cs, true) + (if Taxed(c) then IvaOf(items, c) else 0.0)
    ensures AlicuotasOf(items, cs + [c])
         == AlicuotasOf(items, cs) + (if Taxed(c) then [AlicuotaOf(items, c)] else [])
  {
    assert (cs + [c])[..|cs|] == cs;
  }

  // ----- The identities -----

  lemma {:induction false} ConditionIva(items: seq<Item>, c: VatCondition)
    requires RatesMatch(items)
    ensures IvaOf(items, c) == IvaContained(ConditionTotal(items, c) as real, RateOf(c))
    decreases |items|
  {
    if |items| == 0 {
      IvaAdditive(0.0, 0.0, RateOf(c));
    } else {
      var n := |items| - 1;
      ConditionIva(items[..n], c);
      assert items == items[..n] + [items[n]];
      AccumulateOne(items[..n], items[n], c);
      IvaAdditive(ConditionTotal(items[..n], c) as real, items[n].total as real, RateOf(c));
    }
  }

  lemma {:induction false} TotalsPartition(items: seq<Item>)
    ensures Sum(TotalTerm(), items) == ConditionTotal(items, Iva21) + ConditionTotal(items, Iva105)
          + ConditionTotal(items, Iva0) + ConditionTotal(items, Exento) + ConditionTotal(items, NoGravado)
    decreases |items|
  {
    if |items| > 0 {
      TotalsPartition(items[..|items| - 1]);
    }
  }

  /** Net prices over 1.21 and 1.105 are fractions of 121 and 221: odd
      denominators never land on half a cent. */
  lemma NetoIsNeverATie(t21: int, t105: int, t0: int)
    ensures !IsTie(100.0 * t21 as real / 121.0 + 200.0 * t105 as real / 221.0 + t0 as real)
  {
    var n := 22100 * t21 + 24200 * t105 + 26741 * t0;
    var neto := 100.0 * t21 as real / 121.0 + 200.0 * t105 as real / 221.0 + t0 as real;
    assert 26741.0 * neto == n as real;
    OddDenominator(neto, n);
  }

  lemma OddDenominator(x: real, n: int)
    requires 26741.0 * x == n as real
    ensures !IsTie(x)
  {
    assert 2 * n != 26741 * (2 * x.Floor + 1);
  }

  lemma NetoFraction(items: seq<Item>)
    requires RatesMatch(items)
    ensures BaseOf(items, Iva21) == 100.0 * ConditionTotal(items, Iva21) as real / 121.0
    ensures BaseOf(items, Iva105) == 200.0 * ConditionTotal(items, Iva105) as real / 221.0
    ensures BaseOf(items, Iva0) == ConditionTotal(items, Iva0) as real
    ensures BaseOf(items, Exento) == ConditionTotal(items, Exento) as real
    ensures BaseOf(items, NoGravado) == ConditionTotal(items, NoGravado) as real
  {
    forall c: VatCondition
      ensures IvaOf(items, c) == IvaContained(ConditionTotal(items, c) as real, RateOf(c))
    {
      ConditionIva(items, c);
    }
  }

  /** Each figure is rounded on its own and still nothing is lost: net + VAT +
      exempt + untaxed is the total, to the cent, for every mix of conditions. */
  lemma AmountsAddUp(items: seq<Item>)
    requires RatesMatch(items)
    ensures var a := AmountsOf(items);
            a.importeNeto + a.importeIva + a.importeExento + a.importeNoGravado == a.importeTotal
  {
    NetoFraction(items);
    TotalsPartition(items);
    var t21, t105, t0 := ConditionTotal(items, Iva21), ConditionTotal(items, Iva105), ConditionTotal(items, Iva0);
    NetoIsNeverATie(t21, t105, t0);
    SplitExact(t21 + t105 + t0, NetoOf(items));
    RoundInt(ConditionTotal(items, Exento));
    RoundInt(ConditionTotal(items, NoGravado));
  }

  /** The rate rows are exact too: base + VAT is what was sold under that rate. */
  lemma AlicuotaAddsUp(items: seq<Item>, c: VatCondition)
    requires RatesMatch(items) && Taxed(c)
    ensures var a := AlicuotaOf(items, c); a.baseImponible + a.importe == ConditionTotal(items, c)
  {
    NetoFraction(items);
    var t := ConditionTotal(items, c);
    NetoIsNeverATie(if c == Iva21 then t else 0, if c == Iva105 then t else 0, if c == Iva0 then t else 0);
    SplitExact(t, BaseOf(items, c));
  }

  function AlicuotaBases(rows: seq<Alicuota>): int { Sum((a: Alicuota) => a.baseImponible, rows) }

  function RoundedBase(items: seq<Item>, c: VatCondition): int { JsRound(BaseOf(items, c)) }

  lemma {:induction false} BasesOfRows(items: seq<Item>, cs: seq<VatCondition>)
    requires Distinct(cs)
    ensures AlicuotaBases(AlicuotasOf(items, cs)) == (if Iva21 in cs then RoundedBase(items, Iva21) else 0)
          + (if Iva105 in cs then RoundedBase(items, Iva105) else 0)
          + (if Iva0 in cs then RoundedBase(items, Iva0) else 0)
    decreases |cs|
  {
    if |cs| > 0 {
      var n := |cs| - 1;
      BasesOfRows(items, cs[..n]);
      assert cs == cs[..n] + [cs[n]];
      assert cs[n] !in cs[..n];
      var f := (a: Alicuota) => a.baseImponible;
      if Taxed(cs[n]) {
        SumAppend((a: Alicuota) => a.baseImponible, AlicuotasOf(items, cs[..n]), AlicuotaOf(items, cs[n]));
      } else {
        assert AlicuotasOf(items, cs) == AlicuotasOf(items, cs[..n]);
      }
    }
  }

  /** The declared rows against the declared net: they can differ, but never by
      more than one cent, and not at all unless both 21% and 10.5% were sold. */
  lemma AlicuotasNearNeto(items: seq<Item>)
    requires RatesMatch(items)
    ensures var a := AmountsOf(items);
            -1 <= AlicuotaBases(a.alicuotas) - a.importeNeto <= 1
    ensures ConditionTotal(items, Iva21) == 0 || ConditionTotal(items, Iva105) == 0
            ==> AlicuotaBases(AmountsOf(items).alicuotas) == AmountsOf(items).importeNeto
  {
    RowBases(items);
    NetoFraction(items);
    RoundInt(0);
    RoundInt(ConditionTotal(items, Iva0));
    JsRoundShift(ConditionTotal(items, Iva0), BaseOf(items, Iva21) + BaseOf(items, Iva105));
  }

  /** What the division leaves of a rate total, as a fraction of a cent. */
  function Fraction21(total: int): real { (100 * total % 121) as real / 121.0 }

  function Fraction105(total: int): real { (200 * total % 221) as real / 221.0 }

  /** Half up, for what two fractions can add up to. */
  function Up(x: real): int { if x < 0.5 then 0 else if x < 1.5 then 1 else 2 }

  lemma FractionsAre(t21: int, t105: int)
    ensures 100.0 * t21 as real / 121.0 == (100 * t21 / 121) as real + Fraction21(t21)
    ensures 200.0 * t105 as real / 221.0 == (200 * t105 / 221) as real + Fraction105(t105)
  {
    assert 100 * t21 == 121 * (100 * t21 / 121) + 100 * t21 % 121;
    assert 200 * t105 == 221 * (200 * t105 / 221) + 200 * t105 % 221;
  }

  lemma UpIsJsRound(x: real)
    requires 0.0 <= x < 2.0
    ensures JsRound(x) == Up(x)
  {
    assert (x + 0.5).Floor == Up(x);
  }

  /** Rounding two amounts separately or together, from their fractions alone. */
  lemma RoundedTogether(m: int, u: real, n: int, v: real)
    requires 0.0 <= u < 1.0 && 0.0 <= v < 1.0
    ensures JsRound(m as real + u) + JsRound(n as real + v) == JsRound(m as real + u + (n as real + v))
       <==> Up(u) + Up(v) == Up(u + v)
  {
    JsRoundShift(m, u);
    JsRoundShift(n, v);
    JsRoundShift(m + n, u + v);
    assert m as real + u + (n as real + v) == (m + n) as real + (u + v);
    UpIsJsRound(u);
    UpIsJsRound(v);
    UpIsJsRound(u + v);
  }

  /** The declared rows add up to the declared net exactly when rounding the two
      fractions separately is rounding them together: a fact about what was sold
      at 21% and at 10.5%. */
  lemma AlicuotasMatchNetoIff(items: seq<Item>)
    requires RatesMatch(items)
    ensures var u, v := Fraction21(ConditionTotal(items, Iva21)), Fraction105(ConditionTotal(items, Iva105));
            AlicuotaBases(AmountsOf(items).alicuotas) == AmountsOf(items).importeNeto <==> Up(u) + Up(v) == Up(u + v)
  {
    var t21, t105, t0 := ConditionTotal(items, Iva21), ConditionTotal(items, Iva105), ConditionTotal(items, Iva0);
    RowBases(items);
    NetoFraction(items);
    FractionsAre(t21, t105);
    RoundedTogether(100 * t21 / 121, Fraction21(t21), 200 * t105 / 221, Fraction105(t105));
    JsRoundShift(t0, BaseOf(items, Iva21) + BaseOf(items, Iva105));
    RoundInt(t0);
  }

  /** The rows hold the rounded base of each taxed condition. */
  lemma RowBases(items: seq<Item>)
    ensures AlicuotaBases(AmountsOf(items).alicuotas)
         == RoundedBase(items, Iva21) + RoundedBase(items, Iva105) + RoundedBase(items, Iva0)
  {
    SeenOnce(ConditionOf(), items);
    BasesOfRows(items, Seen(items));
    forall c: VatCondition | c !in Seen(items)
      ensures RoundedBase(items, c) == 0
    {
      UnseenIsZero(items, c);
      RoundInt(0);
    }
  }

  /** The one-cent difference does occur: 3 cents at 21% with 6 cents at 10.5%. */
  lemma AlicuotasCanMissNeto()
    ensures exists items ::
              RatesMatch(items) && AlicuotaBases(AmountsOf(items).alicuotas) == AmountsOf(items).importeNeto - 1
  {
    var items := [Item(3, Iva21, 21.0), Item(6, Iva105, 10.5)];
    assert items == [] + [items[0]] + [items[1]];
    forall c: VatCondition
      ensures ConditionTotal(items, c) == if c == Iva21 then 3 else if c == Iva105 then 6 else 0
    {
      AccumulateOne([], items[0], c);
      AccumulateOne([items[0]], items[1], c);
    }
    NetoFraction(items);
    ThreeAndSixRounded();
    RoundInt(0);
    SeenOnce(ConditionOf(), items);
    SeenAll(ConditionOf(), items);
    assert items[0].vat in Seen(items) && items[1].vat in Seen(items);
    BasesOfRows(items, Seen(items));
  }

  lemma ThreeAndSixRounded()
    ensures JsRound(300.0 / 121.0) == 2 && JsRound(1200.0 / 221.0) == 5
    ensures JsRound(300.0 / 121.0 + 1200.0 / 221.0 + 0.0) == 8
  {
    Nearest(300.0 / 121.0, 2);
    Nearest(1200.0 / 221.0, 5);
    Nearest(300.0 / 121.0 + 1200.0 / 221.0, 8);
  }

  /** The VAT declared per condition is the VAT charged line by line. */
  lemma {:induction false} ImporteIvaIsLineIva(items: seq<Item>)
    requires RatesMatch(items)
    ensures ImporteIvaOf(items) == LineIva(items)
    decreases |items|
  {
    if |items| > 0 {
      ImporteIvaIsLineIva(items[..|items| - 1]);
    }
  }

  /** The order in which the lines were scanned does not change what is declared. */
  lemma AmountsIgnoreOrder(items: seq<Item>, shuffled: seq<Item>)
    requires multiset(items) == multiset(shuffled) && RatesMatch(items) && RatesMatch(shuffled)
    ensures var a, b := AmountsOf(items), AmountsOf(shuffled);
            a.importeNeto == b.importeNeto && a.importeIva == b.importeIva && a.importeTotal == b.importeTotal
            && a.importeExento == b.importeExento && a.importeNoGravado == b.importeNoGravado
            && multiset(a.alicuotas) == multiset(b.alicuotas)
  {
    forall c: VatCondition
      ensures ConditionTotal(items, c) == ConditionTotal(shuffled, c)
    {
      IntSumPermutation(ConditionTotalTerm(c), items, shuffled);
    }
    IntSumPermutation(TotalTerm(), items, shuffled);
    forall c: VatCondition
      ensures IvaOf(items, c) == IvaOf(shuffled, c)
    {
      ConditionIva(items, c);
      ConditionIva(shuffled, c);
    }
    SameRows(items, shuffled);
  }

  /** How often a row appears because of one condition. */
  function RowCount(items: seq<Item>, cs: seq<VatCondition>, c: VatCondition, row: Alicuota): nat
    requires Taxed(c)
  {
    if c in cs && row == AlicuotaOf(items, c) then 1 else 0
  }

  function NewRow(items: seq<Item>, last: VatCondition, row: Alicuota): nat {
    if Taxed(last) && row == AlicuotaOf(items, last) then 1 else 0
  }

  lemma OneMoreRow(items: seq<Item>, cs: seq<VatCondition>, last: VatCondition, row: Alicuota)
    ensures multiset(AlicuotasOf(items, cs + [last]))[row]
        == multiset(AlicuotasOf(items, cs))[row] + NewRow(items, last, row)
  {
    VisitOne(items, cs, last);
    if Taxed(last) {
      assert multiset(AlicuotasOf(items, cs + [last]))
          == multiset(AlicuotasOf(items, cs)) + multiset{AlicuotaOf(items, last)};
    }
  }

  lemma RowCountGrows(items: seq<Item>, cs: seq<VatCondition>, last: VatCondition, c: VatCondition, row: Alicuota)
    requires last !in cs && Taxed(c)
    ensures RowCount(items, cs + [last], c, row)
         == RowCount(items, cs, c, row) + (if c == last then NewRow(items, last, row) else 0)
  {
  }

  lemma {:induction false} RowsOf(items: seq<Item>, cs: seq<VatCondition>, row: Alicuota)
    requires Distinct(cs)
    ensures multiset(AlicuotasOf(items, cs))[row]
         == RowCount(items, cs, Iva21, row) + RowCount(items, cs, Iva105, row) + RowCount(items, cs, Iva0, row)
    decreases |cs|
  {
    if |cs| > 0 {
      var before, last := cs[..|cs| - 1], cs[|cs| - 1];
      RowsOf(items, before, row);
      assert cs == before + [last] && last !in before;
      OneMoreRow(items, before, last, row);
      RowCountGrows(items, before, last, Iva21, row);
      RowCountGrows(items, before, last, Iva105, row);
      RowCountGrows(items, before, last, Iva0, row);
      assert last == Iva21 || last == Iva105 || last == Iva0 || NewRow(items, last, row) == 0;
    }
  }

  lemma SameRows(items: seq<Item>, shuffled: seq<Item>)
    requires multiset(items) == multiset(shuffled)
    requires forall c: VatCondition :: BaseOf(items, c) == BaseOf(shuffled, c) && IvaOf(items, c) == IvaOf(shuffled, c)
    ensures multiset(AmountsOf(items).alicuotas) == multiset(AmountsOf(shuffled).alicuotas)
  {
    SeenOnce(ConditionOf(), items);
    SeenOnce(ConditionOf(), shuffled);
    forall c: VatCondition
      ensures c in Seen(items) <==> c in Seen(shuffled)
    {
      SeenIff(items, c);
      SeenIff(shuffled, c);
      SameConditions(items, shuffled, c);
    }
    forall row: Alicuota
      ensures multiset(AmountsOf(items).alicuotas)[row] == multiset(AmountsOf(shuffled).alicuotas)[row]
    {
      RowsOf(items, Seen(items), row);
      RowsOf(shuffled, Seen(shuffled), row);
    }
  }

  predicate Sold(items: seq<Item>, c: VatCondition) { exists i :: 0 <= i < |items| && items[i].vat == c }

  lemma {:induction false} SeenIff(items: seq<Item>, c: VatCondition)
    ensures c in Seen(items) <==> Sold(items, c)
    decreases |items|
  {
    if |items| > 0 {
      var n := |items| - 1;
      SeenIff(items[..n], c);
      assert Seen(items[..n]) == FirstSeen(ConditionOf(), items[..n]);
      if Sold(items[..n], c) {
        var i :| 0 <= i < n && items[..n][i].vat == c;
        assert items[i].vat == c;
      }
    }
  }

  lemma SameConditions(items: seq<Item>, shuffled: seq<Item>, c: VatCondition)
    requires multiset(items) == multiset(shuffled)
    ensures Sold(items, c) <==> Sold(shuffled, c)
  {
    if i :| 0 <= i < |items| && items[i].vat == c {
      assert items[i] in multiset(items);
      assert items[i] in shuffled;
    }
    if i :| 0 <= i < |shuffled| && shuffled[i].vat == c {
      assert shuffled[i] in multiset(shuffled);
      assert shuffled[i] in items;
    }
  }

  lemma IntSumPermutation<T>(f: T -> int, s: seq<T>, t: seq<T>)
    requires multiset(s) == multiset(t)
    ensures Sum(f, s) == Sum(f, t)
  {
    var g := (x: T) => f(x) as real;
    SumAsReal(f, g, s);
    SumAsReal(f, g, t);
    RealSumPermutation(g, s, t);
  }

  lemma {:induction false} SumAsReal<T>(f: T -> int, g: T -> real, s: seq<T>)
    requires forall x {:trigger g(x)} :: g(x) == f(x) as real
    ensures RealSum(g, s) == Sum(f, s) as real
    decreases |s|
  {
    if |s| > 0 {
      SumAsReal(f, g, s[..|s| - 1]);
    }
  }

  // ----- Class C vouchers -----

  datatype Declared = Declared(impNeto: int, impIva: int, impOpEx: int, impTotConc: int, incluirIva: bool)

  /** CBTE_TIPO_CLASE_C: Factura C and Nota de Crédito C. */
  predicate IsClassC(cbteTipo: nat) { cbteTipo == 11 || cbteTipo == 13 }

  function AdaptAmountsToCbteTipo(a: Amounts, cbteTipo: nat): (d: Declared)
  {
    if IsClassC(cbteTipo) then Declared(a.importeTotal, 0, 0, 0, false)
    else Declared(a.importeNeto, a.importeIva, a.importeExento, a.importeNoGravado, true)
  }

  /** Rule 10048 of the authority, for both families: what is declared adds up
      to the total, and class C declares no VAT at all. */
  lemma DeclaredAddsUp(items: seq<Item>, cbteTipo: nat)
    requires RatesMatch(items)
    ensures var a := AmountsOf(items);
            var d := AdaptAmountsToCbteTipo(a, cbteTipo);
            && d.impNeto + d.impIva + d.impOpEx + d.impTotConc == a.importeTotal
            && (IsClassC(cbteTipo) ==> d.impIva == 0 && !d.incluirIva && d.impNeto == a.importeTotal)
  {
    AmountsAddUp(items);
  }
}
