/** Sums of a term over the rows of a table, in cents (`int`) and in unrounded
    amounts (`real`). Terms are passed as function values so that one set of
    lemmas serves every table. */
module Sums {

  function Sum<T>(f: T -> int, s: seq<T>): int
  {
    if |s| == 0 then 0 else Sum(f, s[..|s| - 1]) + f(s[|s| - 1])
  }

  lemma SumAppend<T>(f: T -> int, s: seq<T>, x: T)
    ensures Sum(f, s + [x]) == Sum(f, s) + f(x)
  {
    assert (s + [x])[..|s|] == s;
  }

  lemma {:induction false} SumConcat<T>(f: T -> int, s: seq<T>, t: seq<T>)
    ensures Sum(f, s + t) == Sum(f, s) + Sum(f, t)
    decreases |t|
  {
    if |t| == 0 {
      assert s + t == s;
    } else {
      var n := |t| - 1;
      SumConcat(f, s, t[..n]);
      assert s + t == (s + t[..n]) + [t[n]];
      SumAppend(f, s + t[..n], t[n]);
    }
  }

  lemma {:induction false} SumUpdate<T>(f: T -> int, s: seq<T>, i: nat, x: T)
    requires i < |s|
    ensures Sum(f, s[i := x]) == Sum(f, s) - f(s[i]) + f(x)
    decreases |s|
  {
    var n := |s| - 1;
    if i == n {
      assert s[i := x][..n] == s[..n];
    } else {
      SumUpdate(f, s[..n], i, x);
      assert s[i := x][..n] == s[..n][i := x];
    }
  }

  lemma {:induction false} SumAgree<T>(f: T -> int, g: T -> int, s: seq<T>)
    requires forall i :: 0 <= i < |s| ==> f(s[i]) == g(s[i])
    ensures Sum(f, s) == Sum(g, s)
    decreases |s|
  {
    if |s| > 0 {
      SumAgree(f, g, s[..|s| - 1]);
    }
  }

  lemma {:induction false} SumZero<T>(f: T -> int, s: seq<T>)
    requires forall i :: 0 <= i < |s| ==> f(s[i]) == 0
    ensures Sum(f, s) == 0
    decreases |s|
  {
    if |s| > 0 {
      SumZero(f, s[..|s| - 1]);
    }
  }

  lemma {:induction false} SumNonNegative<T>(f: T -> int, s: seq<T>)
    requires forall i :: 0 <= i < |s| ==> f(s[i]) >= 0
    ensures Sum(f, s) >= 0
    decreases |s|
  {
    if |s| > 0 {
      SumNonNegative(f, s[..|s| - 1]);
    }
  }

  function RealSum<T>(f: T -> real, s: seq<T>): real
  {
    if |s| == 0 then 0.0 else RealSum(f, s[..|s| - 1]) + f(s[|s| - 1])
  }

  lemma RealSumAppend<T>(f: T -> real, s: seq<T>, x: T)
    ensures RealSum(f, s + [x]) == RealSum(f, s) + f(x)
  {
    assert (s + [x])[..|s|] == s;
  }

  lemma {:induction false} RealSumConcat<T>(f: T -> real, s: seq<T>, t: seq<T>)
    ensures RealSum(f, s + t) == RealSum(f, s) + RealSum(f, t)
    decreases |t|
  {
    if |t| == 0 {
      assert s + t == s;
    } else {
      var n := |t| - 1;
      RealSumConcat(f, s, t[..n]);
      assert s + t == (s + t[..n]) + [t[n]];
      RealSumAppend(f, s + t[..n], t[n]);
    }
  }

  lemma {:induction false} RealSumPlus<T>(f: T -> real, g: T -> real, h: T -> real, s: seq<T>)
    requires forall i :: 0 <= i < |s| ==> h(s[i]) == f(s[i]) + g(s[i])
    ensures RealSum(h, s) == RealSum(f, s) + RealSum(g, s)
    decreases |s|
  {
    if |s| > 0 {
      RealSumPlus(f, g, h, s[..|s| - 1]);
    }
  }

  /** A sum does not depend on the order of the rows. */
  lemma {:induction false} RealSumPermutation<T>(f: T -> real, s: seq<T>, t: seq<T>)
    requires multiset(s) == multiset(t)
    ensures RealSum(f, s) == RealSum(f, t)
    decreases |s|
  {
    assert |s| == |multiset(s)| == |multiset(t)| == |t|;
    if |s| > 0 {
      var n := |s| - 1;
      var x := s[n];
      assert s == s[..n] + [x];
      assert x in multiset(t);
      var i :| 0 <= i < |t| && t[i] == x;
      assert t == t[..i] + [x] + t[i + 1..];
      var rest := t[..i] + t[i + 1..];
      assert multiset(s) == multiset(s[..n]) + multiset{x};
      assert multiset(t) == multiset(rest) + multiset{x};
      assert multiset(s[..n]) == multiset(s) - multiset{x} == multiset(rest);
      RealSumPermutation(f, s[..n], rest);
      RealSumConcat(f, t[..i], t[i + 1..]);
      RealSumConcat(f, t[..i] + [x], t[i + 1..]);
      RealSumAppend(f, t[..i], x);
    }
  }
}
