/** The discount cap of the role that sells, checked line by line and again on
    the whole sale. */
module Discounts {
  import opened Prelude
  import opened Rounding
  import opened Sums

  datatype Line = Line(gross: real, discount: real)

  /** AMOUNT_EPSILON read as percentage points. */
  const PERCENT_EPSILON: real := 0.01

  /** assertDiscountWithinLimit does not throw. */
  predicate WithinLimit(limit: Option<real>, discount: real, gross: real) {
    limit.None? || gross <= 0.0 || discount <= 0.0 || discount / gross * 100.0 <= limit.value + PERCENT_EPSILON
  }

  /** The discount attemptCreate takes from what the client sent. */
  function LineDiscount(requested: real, gross: real): (d: real)
    ensures gross >= 0.0 ==> 0.0 <= d <= gross
  {
    Min(Max(requested, 0.0), gross)
  }

  function GrossTerm(): Line -> real { (l: Line) => l.gross }

  function DiscountTerm(): Line -> real { (l: Line) => l.discount }

  function TotalGross(lines: seq<Line>): real { RealSum(GrossTerm(), lines) }

  function TotalDiscount(lines: seq<Line>): real { RealSum(DiscountTerm(), lines) }

  predicate Clamped(lines: seq<Line>) {
    forall i :: 0 <= i < |lines| ==> 0.0 <= lines[i].discount <= lines[i].gross
  }

  predicate EveryLineWithin(limit: Option<real>, lines: seq<Line>) {
    forall i :: 0 <= i < |lines| ==> WithinLimit(limit, lines[i].discount, lines[i].gross)
  }

  lemma WithinLimitProduct(limit: real, discount: real, gross: real)
    requires gross > 0.0
    ensures discount / gross * 100.0 <= limit <==> discount * 100.0 <= limit * gross
  {
    var share := discount / gross;
    assert share * gross == discount;
    if share * 100.0 <= limit {
      assert (limit - share * 100.0) * gross >= 0.0;
    } else {
      assert (share * 100.0 - limit) * gross > 0.0;
    }
  }

  lemma PositiveFactor(x: real, y: real)
    requires x * y > 0.0 && y >= 0.0
    ensures x > 0.0
  {
  }

  /** Line by line the discount stays under the cap, so the sums do too. */
  lemma {:induction false} SumsWithin(cap: real, lines: seq<Line>)
    requires Clamped(lines)
    requires forall i :: 0 <= i < |lines| ==> lines[i].discount > 0.0 ==>
        lines[i].discount * 100.0 <= cap * lines[i].gross
    ensures 0.0 <= TotalDiscount(lines) <= TotalGross(lines)
    ensures TotalDiscount(lines) > 0.0 ==> TotalDiscount(lines) * 100.0 <= cap * TotalGross(lines)
    decreases |lines|
  {
    if |lines| > 0 {
      var n := |lines| - 1;
      var rest := lines[..n];
      SumsWithin(cap, rest);
      var l := lines[n];
      assert cap * (TotalGross(rest) + l.gross) == cap * TotalGross(rest) + cap * l.gross;
      if TotalDiscount(lines) > 0.0 {
        if l.discount > 0.0 {
          assert cap * l.gross > 0.0;
          PositiveFactor(cap, l.gross);
        } else {
          assert TotalDiscount(rest) > 0.0;
          assert cap * TotalGross(rest) > 0.0;
          PositiveFactor(cap, TotalGross(rest));
        }
        assert cap * TotalGross(rest) >= 0.0 && cap * l.gross >= 0.0;
      }
    }
  }

  /** The second check of attemptCreate can never fire: once every line passed,
      the whole sale passes, for any cap and any number of lines. */
  lemma LinesImplySale(limit: Option<real>, lines: seq<Line>)
    requires Clamped(lines) && EveryLineWithin(limit, lines)
    ensures WithinLimit(limit, TotalDiscount(lines), TotalGross(lines))
  {
    if limit.Some? {
      var cap := limit.value + PERCENT_EPSILON;
      forall i | 0 <= i < |lines| && lines[i].discount > 0.0
        ensures lines[i].discount * 100.0 <= cap * lines[i].gross
      {
        assert WithinLimit(limit, lines[i].discount, lines[i].gross);
        WithinLimitProduct(cap, lines[i].discount, lines[i].gross);
      }
      SumsWithin(cap, lines);
      if TotalGross(lines) > 0.0 && TotalDiscount(lines) > 0.0 {
        WithinLimitProduct(cap, TotalDiscount(lines), TotalGross(lines));
      }
    }
  }

  /** So an accepted sale gives away at most (cap + 0.01)% of its subtotal. */
  lemma AcceptedSaleBounded(limit: real, lines: seq<Line>)
    requires limit >= 0.0
    requires Clamped(lines) && EveryLineWithin(Some(limit), lines)
    ensures TotalDiscount(lines) * 100.0 <= (limit + PERCENT_EPSILON) * TotalGross(lines)
  {
    LinesImplySale(Some(limit), lines);
    SumsWithin(100.0, lines);
    var d, g := TotalDiscount(lines), TotalGross(lines);
    if d > 0.0 {
      WithinLimitProduct(limit + PERCENT_EPSILON, d, g);
    } else {
      assert (limit + PERCENT_EPSILON) * g >= 0.0;
    }
  }

  /** The converse fails: 20% off one line and nothing off an equal one is 10%
      of the sale, but the line alone is over a cap of 10%. */
  lemma SaleDoesNotImplyLines()
    ensures exists limit, lines ::
              Clamped(lines) && WithinLimit(limit, TotalDiscount(lines), TotalGross(lines))
                  && !EveryLineWithin(limit, lines)
  {
    var lines := [Line(10000.0, 2000.0), Line(10000.0, 0.0)];
    TwoLines(lines[0], lines[1]);
    WithinLimitProduct(10.0 + PERCENT_EPSILON, 2000.0, 10000.0);
    WithinLimitProduct(10.0 + PERCENT_EPSILON, 2000.0, 20000.0);
    assert !WithinLimit(Some(10.0), lines[0].discount, lines[0].gross);
    assert WithinLimit(Some(10.0), TotalDiscount(lines), TotalGross(lines));
  }

  lemma TwoLines(a: Line, b: Line)
    ensures TotalGross([a, b]) == a.gross + b.gross && TotalDiscount([a, b]) == a.discount + b.discount
  {
    assert [a, b] == [] + [a] + [b];
    RealSumAppend(GrossTerm(), [], a);
    RealSumAppend(GrossTerm(), [a], b);
    RealSumAppend(DiscountTerm(), [], a);
    RealSumAppend(DiscountTerm(), [a], b);
  }
}
