/** The two rounding rules the program mixes, on amounts already scaled to the
    smallest stored unit (cents for money, thousandths for quantities).

    `JsRound` is `Math.round` as used by every `round2` helper: half goes up
    (section 21.3.2.28 of ECMA-262). `ColumnRound` is what a `Decimal(12,2)` or
    `Decimal(12,3)` column does to a value written into it: half goes away from
    zero. They differ only on negative halves. */
module Rounding {

  function JsRound(x: real): (r: int)
    ensures x - 0.5 < r as real <= x + 0.5
  {
    (x + 0.5).Floor
  }

  function ColumnRound(x: real): (r: int)
    ensures -0.5 <= x - r as real <= 0.5
  {
    if x < 0.0 then -JsRound(-x) else JsRound(x)
  }

  /** Exactly halfway between two stored values. */
  predicate IsTie(x: real) {
    x - x.Floor as real == 0.5
  }

  function Min(x: real, y: real): real { if x <= y then x else y }

  function Max(x: real, y: real): real { if x >= y then x else y }

  /** An integer within half of `x` is the rounded value, unless `x` is a tie. */
  lemma Nearest(x: real, n: int)
    requires n as real - 0.5 < x < n as real + 0.5
    ensures JsRound(x) == n && ColumnRound(x) == n && !IsTie(x)
  {
    assert x.Floor == n || x.Floor == n - 1;
  }

  lemma RoundInt(n: int)
    ensures JsRound(n as real) == n && ColumnRound(n as real) == n && !IsTie(n as real)
  {
    Nearest(n as real, n);
  }

  lemma JsRoundMonotone(x: real, y: real)
    requires x <= y
    ensures JsRound(x) <= JsRound(y)
  {
  }

  lemma ColumnRoundMonotone(x: real, y: real)
    requires x <= y
    ensures ColumnRound(x) <= ColumnRound(y)
  {
  }

  /** Adding a whole number commutes with half-up rounding, always. */
  lemma JsRoundShift(n: int, x: real)
    ensures JsRound(n as real + x) == n + JsRound(x)
  {
    assert (n as real + x + 0.5).Floor == n + (x + 0.5).Floor;
  }

  /** Splitting a whole amount in two parts and rounding each loses nothing
      exactly when the parts are not ties. */
  lemma SplitExact(whole: int, part: real)
    ensures JsRound(part) + JsRound(whole as real - part) == whole <==> !IsTie(part)
  {
    var f := part.Floor;
    var d := part - f as real;
    assert 0.0 <= d < 1.0;
    JsRoundShift(f, d);
    JsRoundShift(whole - f, -d);
    assert part == f as real + d;
    assert whole as real - part == (whole - f) as real + -d;
    if d < 0.5 {
      Nearest(d, 0);
      Nearest(-d, 0);
    } else if d > 0.5 {
      Nearest(d, 1);
      Nearest(-d, -1);
    } else {
      assert JsRound(0.5) == 1;
      assert JsRound(-0.5) == 0;
    }
  }

  /** What a rounded column does on a tie: it moves half a unit away from zero. */
  lemma ColumnRoundTie(x: real)
    requires IsTie(x)
    ensures x != 0.0
    ensures ColumnRound(x) as real == if x > 0.0 then x + 0.5 else x - 0.5
  {
    var f := x.Floor;
    assert x == f as real + 0.5;
    assert -x == (-f - 1) as real + 0.5;
    assert (x + 0.5).Floor == f + 1;
    assert (-x + 0.5).Floor == -f;
  }

  /** The law behind every running total kept in a rounded column. Writing
      `stored + delta` back into the column gives the same number as adding the
      rounded delta, exactly when the delta is not a tie or does not change the
      sign of what is stored. */
  lemma ColumnAddExact(stored: int, delta: real)
    ensures ColumnRound(stored as real + delta) == stored + ColumnRound(delta)
       <==> !IsTie(delta) || ((stored as real + delta > 0.0) == (delta > 0.0))
  {
    var f := delta.Floor;
    var d := delta - f as real;
    var sum := stored as real + delta;
    assert sum == (stored + f) as real + d;
    assert sum.Floor == stored + f;
    if IsTie(delta) {
      assert IsTie(sum);
      ColumnRoundTie(delta);
      ColumnRoundTie(sum);
    } else if d < 0.5 {
      Nearest(delta, f);
      Nearest(sum, stored + f);
    } else {
      Nearest(delta, f + 1);
      Nearest(sum, stored + f + 1);
    }
  }

  lemma ColumnAddStorable(stored: int, delta: real)
    requires !IsTie(delta)
    ensures ColumnRound(stored as real + delta) == stored + ColumnRound(delta)
  {
    ColumnAddExact(stored, delta);
  }

  lemma ColumnRoundOdd(x: real)
    ensures ColumnRound(-x) == -ColumnRound(x)
  {
    if x == 0.0 {
      RoundInt(0);
    }
  }

  lemma TieOdd(x: real)
    requires IsTie(x)
    ensures IsTie(-x)
  {
    assert -x == (-x.Floor - 1) as real + 0.5;
    assert (-x).Floor == -x.Floor - 1;
  }
}
