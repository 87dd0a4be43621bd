/** How many bundles can be sold: computed from the components, never stored. */
module BundleStock {
  import opened Prelude
  import opened Rounding
  import opened Stock

  /** A component row. The quantity is a `Decimal(12,3)` in thousandths. */
  datatype Component = Component(product: nat, variant: Option<nat>, quantity: int, trackStock: bool)

  datatype StockResult = StockResult(quantity: int, isUnlimited: bool)

  /** Quantities are at least one thousandth, and a bundle lists a component
      product once (unique index on bundle and component product). */
  predicate WellFormed(components: seq<Component>) {
    && (forall i :: 0 <= i < |components| ==> components[i].quantity > 0)
    && (forall i, j :: 0 <= i < j < |components| ==>
          TargetOf(components[i].product, components[i].variant)
          != TargetOf(components[j].product, components[j].variant))
  }

  /** The guarded decrements made to sell `k` bundles. */
  function BundleMoves(components: seq<Component>, k: real): seq<Move>
  {
    if |components| == 0 then [] else
      var c := components[0];
      (if c.trackStock then [Move(TargetOf(c.product, c.variant), c.quantity as real * k)] else [])
      + BundleMoves(components[1..], k)
  }

  /** A sale of `k` bundles goes through: an empty bundle is refused outright. */
  predicate CanSell(levels: Levels, store: nat, components: seq<Component>, k: nat) {
    |components| > 0 && Take(levels, store, BundleMoves(components, k as real)).Some?
  }

  function Possible(levels: Levels, store: nat, c: Component): int
    requires c.quantity > 0
  {
    LevelOf(levels, Key(store, TargetOf(c.product, c.variant))) / c.quantity
  }

  /** One component is enough for `k` bundles. */
  predicate Covers(levels: Levels, store: nat, c: Component, k: nat) {
    c.trackStock ==>
      var key := Key(store, TargetOf(c.product, c.variant));
      key in levels && levels[key] >= c.quantity * k
  }

  predicate CoversAll(levels: Levels, store: nat, components: seq<Component>, k: nat) {
    forall i :: 0 <= i < |components| ==> Covers(levels, store, components[i], k)
  }

  /** `k` whole portions fit in `level` exactly when `k` is at most the floor. */
  lemma Portions(level: int, portion: int, k: int)
    requires portion > 0
    ensures level >= portion * k <==> k <= level / portion
  {
    var q := level / portion;
    assert level == portion * q + level % portion;
    if k <= q {
      Multiples(portion, k, q);
    } else {
      Multiples(portion, q + 1, k);
      assert portion * (q + 1) == portion * q + portion;
    }
  }

  lemma Multiples(portion: int, x: int, y: int)
    requires portion > 0 && x <= y
    ensures portion * x <= portion * y
  {
    assert portion * (y - x) >= 0;
  }

  lemma CoversIffPossible(levels: Levels, store: nat, c: Component, k: nat)
    requires c.quantity > 0 && k >= 1 && c.trackStock
    ensures Covers(levels, store, c, k) <==> k <= Possible(levels, store, c)
  {
    var key := Key(store, TargetOf(c.product, c.variant));
    Portions(LevelOf(levels, key), c.quantity, k);
    if key !in levels {
      Portions(0, c.quantity, k);
      assert c.quantity * k > 0;
    }
  }

  lemma CoversSplits(levels: Levels, store: nat, components: seq<Component>, k: nat)
    requires |components| > 0
    ensures CoversAll(levels, store, components, k)
         == (Covers(levels, store, components[0], k) && CoversAll(levels, store, components[1..], k))
  {
    assert forall i :: 1 <= i < |components| ==> components[i] == components[1..][i - 1];
  }

  /** A level that belongs to no remaining component may change. */
  lemma CoversElsewhere(levels: Levels, store: nat, components: seq<Component>, k: nat, key: Key, level: int)
    requires forall i :: 0 <= i < |components| ==>
        Key(store, TargetOf(components[i].product, components[i].variant)) != key
    ensures CoversAll(levels[key := level], store, components, k) == CoversAll(levels, store, components, k)
  {
    assert forall i :: 0 <= i < |components| ==>
      Covers(levels[key := level], store, components[i], k) == Covers(levels, store, components[i], k);
  }

  /** Components are distinct, so each decrement sees the original level. */
  lemma {:induction false} SaleNeedsEachComponent(levels: Levels, store: nat, components: seq<Component>, k: nat)
    requires WellFormed(components) && k >= 1
    ensures Take(levels, store, BundleMoves(components, k as real)).Some?
       <==> CoversAll(levels, store, components, k)
    decreases |components|
  {
    if |components| > 0 {
      var c, rest := components[0], components[1..];
      assert forall i :: 0 <= i < |rest| ==> rest[i] == components[i + 1];
      CoversSplits(levels, store, components, k);
      if c.trackStock {
        var key := Key(store, TargetOf(c.product, c.variant));
        var moves := BundleMoves(components, k as real);
        assert moves[1..] == BundleMoves(rest, k as real);
        assert c.quantity as real * k as real == (c.quantity * k) as real;
        if Covers(levels, store, c, k) {
          var next := DecrementedGuarded(levels, key, moves[0].quantity).value;
          SaleNeedsEachComponent(next, store, rest, k);
          CoversElsewhere(levels, store, rest, k, key, next[key]);
        }
      } else {
        assert BundleMoves(components, k as real) == BundleMoves(rest, k as real);
        SaleNeedsEachComponent(levels, store, rest, k);
      }
    }
  }

  /** getBundleAvailableStock. The number shown is exactly the largest number of
      bundles the guarded decrements will let through. */
  method GetBundleAvailableStock(levels: Levels, store: nat, components: seq<Component>) returns (r: StockResult)
    requires WellFormed(components)
    ensures r.quantity >= 0
    ensures forall k: nat :: k >= 1 ==> (CanSell(levels, store, components, k) <==> r.isUnlimited || k <= r.quantity)
    ensures r.isUnlimited <==> |components| > 0 && forall i :: 0 <= i < |components| ==> !components[i].trackStock
  {
    if |components| == 0 {
      return StockResult(0, false);
    }
    var minAvailable: Option<int> := None;
    for n := 0 to |components|
      invariant minAvailable.None? <==> forall i :: 0 <= i < n ==> !components[i].trackStock
      invariant forall k: nat :: k >= 1 ==>
                  (CoversAll(levels, store, components[..n], k) <==> minAvailable.None? || k <= minAvailable.value)
    {
      var item := components[n];
      var before := minAvailable;
      if item.trackStock {
        var key := Key(store, TargetOf(item.product, item.variant));
        var componentQty := if key in levels then levels[key] else 0;
        var possibleBundles := componentQty / item.quantity;
        minAvailable := if minAvailable.None? || possibleBundles < minAvailable.value
                        then Some(possibleBundles) else minAvailable;
      }
      var seen := components[..n + 1];
      assert seen == components[..n] + [item];
      forall k: nat | k >= 1
        ensures CoversAll(levels, store, seen, k) <==> minAvailable.None? || k <= minAvailable.value
      {
        assert CoversAll(levels, store, seen, k)
            == (CoversAll(levels, store, components[..n], k) && Covers(levels, store, item, k));
        assert CoversAll(levels, store, components[..n], k) <==> before.None? || k <= before.value;
        if item.trackStock {
          CoversIffPossible(levels, store, item, k);
        }
      }
    }
    assert components[..|components|] == components;
    forall k: nat | k >= 1
      ensures CanSell(levels, store, components, k)
         <==> CoversAll(levels, store, components, k)
    {
      SaleNeedsEachComponent(levels, store, components, k);
    }
    if minAvailable.None? {
      return StockResult(0, true);
    }
    r := StockResult(if minAvailable.value > 0 then minAvailable.value else 0, false);
  }
}
