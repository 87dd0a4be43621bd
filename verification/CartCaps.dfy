/** Exactly which lines a global percentage within the cap of the role is safe on.
    The client rounds the discount of each line to a cent, so a small line can end
    over the cap; the answer depends on whether a cap is any number or, as the
    policy table stores it, a whole number of hundredths of a percent. */
module CartCaps {
  import opened Prelude
  import opened Rounding
  import opened Vat
  import opened Cart
  import Discounts

  /** The server accepts the discount sent for one line of a cart with only a
      global percentage. */
  predicate LineAccepted(items: seq<CartItem>, i: nat, percent: real, limit: real) {
    i < |items| && Priced(items) && NoLineDiscounts(items) && 0.0 <= percent <= limit <= 100.0 ==>
      CapAllows(limit, PayloadDiscount(items, Some(Percentage(percent)), items[i]), items[i].gross)
  }

  // ----- Any cap -----

  /** Whatever the rest of the cart, the percentage and the cap above it. */
  ghost predicate GrossIsSafe(gross: int) {
    forall items: seq<CartItem>, i: nat, percent: real, limit: real ::
      i < |items| && items[i].gross == gross as real ==> LineAccepted(items, i, percent, limit)
  }

  /** With any real cap, a global percentage within it is accepted on every line of
      a given whole-cent gross exactly when that gross is at least $50. */
  lemma SafeFromFifty(gross: int)
    requires gross >= 1
    ensures GrossIsSafe(gross) <==> gross >= 5000
  {
    if gross >= 5000 {
      forall items: seq<CartItem>, i: nat, percent: real, limit: real | i < |items| && items[i].gross == gross as real
        ensures LineAccepted(items, i, percent, limit)
      {
        if Priced(items) && NoLineDiscounts(items) && 0.0 <= percent <= limit <= 100.0 {
          SentPercent(items, percent, i);
          CappedDiscount(gross as real, percent, limit, PercentOf(gross as real, percent));
        }
      }
    } else {
      HalfCentOver(gross);
    }
  }

  /** Half a cent is sent as one: 50/g percent of a gross of g cents. */
  lemma HalfCentOver(gross: int)
    requires 1 <= gross < 5000
    ensures !GrossIsSafe(gross)
  {
    var g, item := gross as real, CartItem(gross as real, Iva21, None);
    var percent := 50.0 / g;
    HalfCentPercent(g, percent);
    SentPercent([item], percent, 0);
    OneCentRefused(g, percent);
    assert !LineAccepted([item], 0, percent, percent);
  }

  lemma HalfCentPercent(g: real, percent: real)
    requires g >= 1.0 && percent == 50.0 / g
    ensures 0.0 <= percent <= 50.0 && percent * g == 50.0
    ensures PercentOf(g, percent) == 1
  {
    assert percent * g == 50.0;
    assert percent * (g - 1.0) >= 0.0;
    assert g * percent / 100.0 == 0.5;
    assert JsRound(0.5) == 1;
  }

  lemma OneCentRefused(g: real, percent: real)
    requires 1.0 <= g < 5000.0 && percent * g == 50.0
    ensures !CapAllows(percent, 1, g)
  {
    Discounts.WithinLimitProduct(percent + 0.01, 1.0, g);
    assert (percent + 0.01) * g == 50.0 + 0.01 * g;
  }

  // ----- Caps in hundredths of a percent -----

  predicate AcceptedAtCap(items: seq<CartItem>, i: nat, percent: real, cap: nat) {
    LineAccepted(items, i, percent, cap as real / 100.0)
  }

  ghost predicate GrossIsSafeAtCaps(gross: int) {
    forall items: seq<CartItem>, i: nat, percent: real, cap: nat ::
      i < |items| && items[i].gross == gross as real ==> AcceptedAtCap(items, i, percent, cap)
  }

  /** The largest discount a cap lets the client send for one line. */
  function MostSent(gross: int, cap: nat): int { (gross * cap + 5000) / 10000 }

  predicate CapCovers(gross: int, cap: nat) { MostSent(gross, cap) * 10000 <= gross * (cap + 1) }

  lemma MostSentIs(gross: int, cap: nat)
    requires gross >= 1 && cap <= 10000
    ensures PercentOf(gross as real, cap as real / 100.0) == MostSent(gross, cap)
  {
    var product := gross * cap;
    ShareAsFraction(gross, cap);
    RoundedFraction(product);
  }

  lemma ShareAsFraction(gross: int, cap: nat)
    ensures gross as real * (cap as real / 100.0) / 100.0 == (gross * cap) as real / 10000.0
  {
    assert (gross * cap) as real == gross as real * cap as real;
    assert gross as real * (cap as real / 100.0) == gross as real * cap as real / 100.0;
  }

  lemma RoundedFraction(n: int)
    ensures JsRound(n as real / 10000.0) == (n + 5000) / 10000
  {
    var d := (n + 5000) / 10000;
    assert 10000 * d <= n + 5000 < 10000 * d + 10000;
    assert d as real <= n as real / 10000.0 + 0.5 < d as real + 1.0;
  }

  lemma MostSentWithin(gross: int, cap: nat)
    requires gross >= 1 && cap <= 10000
    ensures 0 <= MostSent(gross, cap) <= gross
  {
    assert 0 <= gross * cap <= gross * 10000;
  }

  lemma CapAllowsIff(gross: int, cap: nat, sent: int)
    requires gross >= 1 && 0 <= sent <= gross
    ensures CapAllows(cap as real / 100.0, sent, gross as real) <==> sent * 10000 <= gross * (cap + 1)
  {
    var g, limit := gross as real, cap as real / 100.0 + 0.01;
    Discounts.WithinLimitProduct(limit, sent as real, g);
    assert limit == (cap + 1) as real / 100.0;
    ShareAsFraction(gross, cap + 1);
    assert limit * g == (gross * (cap + 1)) as real / 100.0;
    assert gross * (cap + 1) >= 0;
  }

  /** The cap covers the line when it covers the most the client may send. */
  lemma CapsCoverMeansSafe(gross: int)
    requires gross >= 1 && forall cap: nat :: cap <= 10000 ==> CapCovers(gross, cap)
    ensures GrossIsSafeAtCaps(gross)
  {
    forall items: seq<CartItem>, i: nat, percent: real, cap: nat | i < |items| && items[i].gross == gross as real
      ensures AcceptedAtCap(items, i, percent, cap)
    {
      if Priced(items) && NoLineDiscounts(items) && 0.0 <= percent <= cap as real / 100.0 <= 100.0 {
        SentPercent(items, percent, i);
        SentAtMost(gross, percent, cap);
        assert CapCovers(gross, cap);
        MostSentWithin(gross, cap);
        CapAllowsIff(gross, cap, PercentOf(gross as real, percent));
      }
    }
  }

  lemma SentAtMost(gross: int, percent: real, cap: nat)
    requires gross >= 1 && 0.0 <= percent <= cap as real / 100.0 && cap <= 10000
    ensures 0 <= PercentOf(gross as real, percent) <= MostSent(gross, cap)
  {
    var g := gross as real;
    MostSentIs(gross, cap);
    Scale(g, 0.0, percent);
    Scale(g, percent, cap as real / 100.0);
    RoundInt(0);
    JsRoundMonotone(0.0, g * percent / 100.0);
    JsRoundMonotone(g * percent / 100.0, g * (cap as real / 100.0) / 100.0);
  }

  lemma CapMisses(gross: int, cap: nat)
    requires gross >= 1 && cap <= 10000 && !CapCovers(gross, cap)
    ensures !GrossIsSafeAtCaps(gross)
  {
    var item, percent := CartItem(gross as real, Iva21, None), cap as real / 100.0;
    SentPercent([item], percent, 0);
    MostSentIs(gross, cap);
    MostSentWithin(gross, cap);
    CapAllowsIff(gross, cap, MostSent(gross, cap));
    assert !AcceptedAtCap([item], 0, percent, cap);
  }

  // ----- Which amounts every cap covers -----

  /** Four amounts below $50 are safe as well. */
  predicate SafeAmount(gross: int) {
    gross >= 5000 || gross == 4000 || gross == 4800 || gross == 4960 || gross == 4992
  }

  lemma SafeAmountsCover(gross: int, cap: nat)
    requires gross >= 1 && SafeAmount(gross)
    ensures CapCovers(gross, cap)
  {
    var d, product := MostSent(gross, cap), gross * cap;
    assert 10000 * d <= product + 5000;
    assert gross * (cap + 1) == product + gross;
    if gross == 4000 {
      assert 10000 * d - product == 2000 * (5 * d - 2 * cap);
    } else if gross == 4800 {
      assert 10000 * d - product == 400 * (25 * d - 12 * cap);
    } else if gross == 4960 {
      assert 10000 * d - product == 80 * (125 * d - 62 * cap);
    } else if gross == 4992 {
      assert 10000 * d - product == 16 * (625 * d - 312 * cap);
    }
  }

  /** The greatest common divisor of two numbers is a combination of them. */
  lemma Bezout(a: nat, b: nat) returns (k: nat, x: int, y: int, p: nat, q: nat)
    requires a > 0 || b > 0
    ensures k > 0 && a == k * p && b == k * q && a * x + b * y == k
    decreases b
  {
    if b == 0 {
      k, x, y, p, q := a, 1, 0, 1, 0;
    } else {
      var n, r := a / b, a % b;
      var x', y', p', q';
      k, x', y', p', q' := Bezout(b, r);
      x, y, p, q := y', x' - n * y', p' * n + q', p';
      BezoutStep(a, b, n, r, k, x', y', p', q');
    }
  }

  lemma BezoutStep(a: nat, b: nat, n: nat, r: nat, k: nat, x: int, y: int, p: nat, q: nat)
    requires a == b * n + r && b == k * p && r == k * q && b * x + r * y == k
    ensures a == k * (p * n + q) && a * y + b * (x - n * y) == k
  {
    assert k * (p * n + q) == k * p * n + k * q;
    assert a * y == b * (n * y) + r * y;
    assert b * (x - n * y) == b * x - b * (n * y);
  }

  lemma OddTimesOdd(a: nat, b: nat)
    requires a % 2 == 1 && b % 2 == 1
    ensures (a * b) % 2 == 1
  {
    var h := a / 2;
    assert a * b == 2 * (h * b) + b;
  }

  lemma HalveEven(k: nat, q: nat, half: nat) returns (h: nat)
    requires k * q == 2 * half && q % 2 == 1
    ensures k == 2 * h && h * q == half
  {
    h := k / 2;
    if k % 2 == 1 {
      OddTimesOdd(k, q);
    }
    TwiceProduct(k, h, q);
  }

  lemma TwiceProduct(k: nat, h: nat, q: nat)
    requires k == 2 * h
    ensures k * q == 2 * (h * q)
  {
  }

  lemma ProductAtLeast(j: nat, q: nat)
    requires j >= 26 && q >= 26
    ensures j * q >= 676
  {
    assert (j - 26) * q >= 0;
  }

  lemma SmallDivisor(j: nat, q: nat)
    requires j <= 25 && j * q == 625
    ensures (j == 1 && q == 625) || (j == 5 && q == 125) || (j == 25 && q == 25)
  {
    if j <= 12 {
      assert j == 0 || j == 1 || j == 2 || j == 3 || j == 4 || j == 5 || j == 6
          || j == 7 || j == 8 || j == 9 || j == 10 || j == 11 || j == 12;
    } else {
      assert j == 13 || j == 14 || j == 15 || j == 16 || j == 17 || j == 18 || j == 19
          || j == 20 || j == 21 || j == 22 || j == 23 || j == 24 || j == 25;
    }
  }

  lemma OddDivisor(j: nat, q: nat)
    requires j * q == 625
    ensures q == 1 || q == 5 || q == 25 || q == 125 || q == 625
  {
    if j <= 25 {
      SmallDivisor(j, q);
    } else if q <= 25 {
      assert q * j == 625;
      SmallDivisor(q, j);
    } else {
      ProductAtLeast(j, q);
    }
  }

  /** If 5000 is no multiple of the shared divisor, few divisors are left. */
  lemma OddQuotient(k: nat, q: nat)
    requires k * q == 10000 && q % 2 == 1
    ensures k == 10000 || k == 2000 || k == 400 || k == 80 || k == 16
  {
    var a := HalveEven(k, q, 5000);
    var b := HalveEven(a, q, 2500);
    var c := HalveEven(b, q, 1250);
    var j := HalveEven(c, q, 625);
    OddDivisor(j, q);
  }

  lemma DivisorAtMost(gross: int, k: nat, p: nat)
    requires gross >= 1 && gross == k * p
    ensures k <= gross && p >= 1
  {
    assert p >= 1;
    assert k * (p - 1) >= 0;
  }

  /** The first multiple of the shared divisor from 5000 on. */
  lemma TargetInRange(gross: int, k: nat, p: nat, q: nat)
    requires 1 <= gross && !SafeAmount(gross) && gross == k * p && 10000 == k * q && k > 0
    ensures 5000 <= k * ((q + 1) / 2) < 10000 - gross
  {
    var t := (q + 1) / 2;
    DivisorAtMost(gross, k, p);
    if q % 2 == 0 {
      assert q == 2 * t;
      assert 2 * (k * t) == 10000;
    } else {
      assert q == 2 * t - 1;
      assert 2 * (k * t) == 10000 + k;
      OddQuotient(k, q);
      OddTarget(gross, k, p);
    }
  }

  lemma OddTarget(gross: int, k: nat, p: nat)
    requires 1 <= gross < 5000 && !SafeAmount(gross) && gross == k * p
    requires k == 2000 || k == 400 || k == 80 || k == 16
    ensures 2 * gross < 10000 - k
  {
    if k == 2000 {
      assert gross == 2000 * p;
    } else if k == 400 {
      assert gross == 400 * p;
    } else if k == 80 {
      assert gross == 80 * p;
    } else {
      assert gross == 16 * p;
    }
  }

  /** Every other amount has a cap that misses: one whose share of the amount is
      that multiple, just above an odd half cent. */
  lemma MissingCap(gross: int) returns (cap: nat)
    requires 1 <= gross && !SafeAmount(gross)
    ensures cap <= 10000 && !CapCovers(gross, cap)
  {
    var k, x, y, p, q := Bezout(gross, 10000);
    var t := (q + 1) / 2;
    TargetInRange(gross, k, p, q);
    cap := (x * t) % 10000;
    var turns := (x * t) / 10000;
    SharesWrap(gross, k, x, y, t, turns, cap);
    var z := -(y * t) - gross * turns;
    assert gross * cap == k * t + 10000 * z;
    assert MostSent(gross, cap) == z + 1;
    assert gross * (cap + 1) == gross * cap + gross;
  }

  lemma SharesWrap(gross: int, k: nat, x: int, y: int, t: nat, turns: int, cap: nat)
    requires gross * x + 10000 * y == k && x * t == 10000 * turns + cap
    ensures gross * cap == k * t + 10000 * (-(y * t) - gross * turns)
  {
    assert gross * (x * t) == gross * x * t;
    assert gross * x * t == (k - 10000 * y) * t == k * t - 10000 * (y * t);
    assert gross * (10000 * turns + cap) == 10000 * (gross * turns) + gross * cap;
  }

  /** With caps in hundredths of a percent, a global percentage within the cap is
      accepted on every line of a given whole-cent gross exactly for the safe
      amounts: $50 and above, $40.00, $48.00, $49.60 and $49.92. */
  lemma SafeWithStoredCapsIff(gross: int)
    requires gross >= 1
    ensures GrossIsSafeAtCaps(gross) <==> SafeAmount(gross)
  {
    if SafeAmount(gross) {
      forall cap: nat | cap <= 10000
        ensures CapCovers(gross, cap)
      {
        SafeAmountsCover(gross, cap);
      }
      CapsCoverMeansSafe(gross);
    } else {
      var cap := MissingCap(gross);
      CapMisses(gross, cap);
    }
  }
}
