/** The bulk price update: a snapshot of the targets, then chunks of them, each
    in its own transaction with the recalculation of its bundles. */
module BulkPrice {
  import opened Prelude
  import opened Rounding
  import opened Products

  const CHUNK_SIZE := 200

  /** A percentage, or an amount in currency units. */
  datatype Rule = Percent(value: real) | FixedDelta(value: real)

  datatype Target = Target(id: nat, price: int)

  function NewPrice(price: int, rule: Rule): int {
    var raw := match rule
               case Percent(value) => price as real * (1.0 + value / 100.0)
               case FixedDelta(value) => price as real + value * 100.0;
    if JsRound(raw) < 0 then 0 else JsRound(raw)
  }

  /** A percentage raises or lowers the price by itself, to half a cent, and a fixed
      amount is added to it; neither goes below zero. */
  predicate FollowsRule(price: int, rule: Rule, after: int) {
    match rule
    case Percent(v) =>
      if v < -100.0 then after == 0
      else -50.0 < 100.0 * after as real - price as real * (100.0 + v) <= 50.0
    case FixedDelta(v) =>
      if price as real + 100.0 * v < 0.0 then after == 0
      else -0.5 < after as real - price as real - 100.0 * v <= 0.5
  }

  /** targetsWhere: products in derived mode are left out, whatever their kind. */
  predicate IsTarget(cat: Catalogue, category: Option<nat>, id: nat) {
    && id < |cat.products| && cat.products[id].active && cat.products[id].mode != Derived
    && (category.Some? ==> cat.products[id].category == category)
  }

  /** The snapshot, in whatever order the database returns it. */
  predicate IsSnapshot(cat: Catalogue, category: Option<nat>, targets: seq<Target>) {
    && (forall i :: 0 <= i < |targets| ==>
          IsTarget(cat, category, targets[i].id) && targets[i].price == cat.products[targets[i].id].price)
    && (forall id :: 0 <= id < |cat.products| && IsTarget(cat, category, id) ==>
          exists i :: 0 <= i < |targets| && targets[i].id == id)
    && (forall i, j :: 0 <= i < j < |targets| ==> targets[i].id != targets[j].id)
  }

  function WritesOf(targets: seq<Target>, rule: Rule): (writes: seq<Write>)
    ensures |writes| == |targets|
    ensures forall i :: 0 <= i < |writes| ==> writes[i] == Write(targets[i].id, NewPrice(targets[i].price, rule))
  {
    if |targets| == 0 then [] else
      var t := targets[|targets| - 1];
      WritesOf(targets[..|targets| - 1], rule) + [Write(t.id, NewPrice(t.price, rule))]
  }

  function ApplyChunks(cat: Catalogue, writes: seq<Write>, size: nat): Catalogue
    requires size > 0
    decreases |writes|
  {
    if |writes| == 0 then cat
    else if |writes| <= size then Overwrite(cat, writes)
    else ApplyChunks(Overwrite(cat, writes[..size]), writes[size..], size)
  }

  // ----- Chunks are one pass -----

  predicate SparesDerived(cat: Catalogue, writes: seq<Write>) {
    forall i :: 0 <= i < |writes| ==> !IsDerived(cat, writes[i].id)
  }

  lemma {:induction false} WritePricesConcat(cat: Catalogue, a: seq<Write>, b: seq<Write>)
    ensures WritePrices(cat, a + b) == WritePrices(WritePrices(cat, a), b)
    decreases |b|
  {
    if |b| == 0 {
      assert a + b == a;
    } else {
      var n := |b| - 1;
      assert (a + b)[..|a| + n] == a + b[..n];
      WritePricesConcat(cat, a, b[..n]);
    }
  }

  lemma IdsConcat(a: seq<Write>, b: seq<Write>)
    ensures Ids(a + b) == Ids(a) + Ids(b)
  {
    forall id
      ensures id in Ids(a + b) <==> id in Ids(a) + Ids(b)
    {
      if id in Ids(a) {
        var i :| 0 <= i < |a| && a[i].id == id;
        assert (a + b)[i].id == id;
      }
      if id in Ids(b) {
        var i :| 0 <= i < |b| && b[i].id == id;
        assert (a + b)[|a| + i].id == id;
      }
    }
  }

  predicate SameShape(a: Catalogue, b: Catalogue) {
    a.components == b.components && a.variants == b.variants && |a.products| == |b.products|
  }

  lemma ShapesStay(cat: Catalogue, writes: seq<Write>)
    requires WellFormed(cat)
    ensures WellFormed(WritePrices(cat, writes)) && SameShape(cat, WritePrices(cat, writes))
    ensures WellFormed(Overwrite(cat, writes)) && SameShape(cat, Overwrite(cat, writes))
  {
    WritePricesShape(cat, writes);
    forall id | 0 <= id < |cat.products|
      ensures WritePrices(cat, writes).products[id].kind == cat.products[id].kind
    {
      WritePricesAt(cat, writes, id);
    }
    KindsStay(cat, WritePrices(cat, writes));
    RecalculateForWellFormed(WritePrices(cat, writes), Ids(writes));
  }

  lemma {:induction false} SparedPrice(cat: Catalogue, writes: seq<Write>, id: nat)
    requires SparesDerived(cat, writes) && IsDerived(cat, id)
    ensures LastPrice(writes, id, cat.products[id].price) == cat.products[id].price
  {
    forall i | 0 <= i < |writes|
      ensures writes[i].id != id
    {
      assert !IsDerived(cat, writes[i].id);
    }
    Unwritten(writes, id, cat.products[id].price);
  }

  /** Prices of what is not derived are the same with or without the
      recalculation in between. */
  lemma SamePlainProduct(cat: Catalogue, a: seq<Write>, b: seq<Write>, k: nat)
    requires WellFormed(cat) && k < |cat.products|
    ensures k < |WritePrices(Overwrite(cat, a), b).products| && k < |WritePrices(cat, a + b).products|
    ensures var x, y := WritePrices(Overwrite(cat, a), b).products[k], WritePrices(cat, a + b).products[k];
            x.discount == y.discount && (!IsDerived(cat, k) ==> x == y)
  {
    var first, mid := Overwrite(cat, a), WritePrices(cat, a);
    ShapesStay(cat, a);
    WritePricesConcat(cat, a, b);
    WritePricesAt(cat, a, k);
    RecalculateForAt(mid, Ids(a), k);
    WritePricesAt(first, b, k);
    WritePricesAt(mid, b, k);
  }

  /** So every derived price is the same too. */
  lemma SameDerivedPrices(cat: Catalogue, a: seq<Write>, b: seq<Write>, id: nat)
    requires WellFormed(cat) && id < |cat.products|
    ensures var twice, once := WritePrices(Overwrite(cat, a), b), WritePrices(cat, a + b);
            SameShape(twice, once) && |once.products| == |cat.products|
                && DerivedPrice(twice, id) == DerivedPrice(once, id)
  {
    var twice, once := WritePrices(Overwrite(cat, a), b), WritePrices(cat, a + b);
    ShapesStay(cat, a);
    WritePricesShape(Overwrite(cat, a), b);
    WritePricesShape(cat, a + b);
    SamePlainProduct(cat, a, b, id);
    forall i | 0 <= i < |cat.components|
      ensures UnitPrice(twice, cat.components[i]) == UnitPrice(once, cat.components[i])
    {
      SamePlainProduct(cat, a, b, cat.components[i].product);
    }
    DerivedPriceReads(twice, once, id);
  }

  /** Bundles the second chunk does not touch keep the price the first gave them. */
  lemma UntouchedKeeps(cat: Catalogue, a: seq<Write>, b: seq<Write>, id: nat)
    requires WellFormed(cat) && id < |cat.products| && !UsesOneOf(cat.components, Ids(b), id)
    ensures |WritePrices(cat, a).products| == |cat.products| && |WritePrices(cat, a + b).products| == |cat.products|
    ensures DerivedPrice(WritePrices(cat, a), id) == DerivedPrice(WritePrices(cat, a + b), id)
  {
    ShapesStay(cat, a);
    WritePricesConcat(cat, a, b);
    UnwrittenComponents(WritePrices(cat, a), b, id);
  }

  lemma UnwrittenComponents(cat: Catalogue, writes: seq<Write>, id: nat)
    requires WellFormed(cat) && id < |cat.products| && !UsesOneOf(cat.components, Ids(writes), id)
    ensures |WritePrices(cat, writes).products| == |cat.products|
    ensures DerivedPrice(cat, id) == DerivedPrice(WritePrices(cat, writes), id)
  {
    WritePricesShape(cat, writes);
    WritePricesAt(cat, writes, id);
    forall i | 0 <= i < |cat.components| && cat.components[i].bundle == id
      ensures UnitPrice(cat, cat.components[i]) == UnitPrice(WritePrices(cat, writes), cat.components[i])
    {
      var c := cat.components[i].product;
      WritePricesAt(cat, writes, c);
      Unwritten(writes, c, cat.products[c].price);
    }
    DerivedPriceReads(cat, WritePrices(cat, writes), id);
  }

  lemma TwoPassesAt(cat: Catalogue, a: seq<Write>, b: seq<Write>, id: nat)
    requires WellFormed(cat) && SparesDerived(cat, a) && SparesDerived(cat, b) && id < |cat.products|
    ensures |Overwrite(Overwrite(cat, a), b).products| == |cat.products|
    ensures |Overwrite(cat, a + b).products| == |cat.products|
    ensures Overwrite(Overwrite(cat, a), b).products[id] == Overwrite(cat, a + b).products[id]
  {
    var first := Overwrite(cat, a);
    ShapesStay(cat, a);
    ShapesStay(first, b);
    ShapesStay(cat, a + b);
    if IsDerived(cat, id) {
      DerivedTwice(cat, a, b, id);
    } else {
      SamePlainProduct(cat, a, b, id);
      PlainProductStays(first, b, id);
      PlainProductStays(cat, a + b, id);
      WritePricesAt(cat, a, id);
      RecalculateForAt(WritePrices(cat, a), Ids(a), id);
    }
  }

  /** A recalculation leaves alone what is not derived. */
  lemma PlainProductStays(cat: Catalogue, writes: seq<Write>, id: nat)
    requires WellFormed(cat) && id < |cat.products|
    ensures id < |WritePrices(cat, writes).products| && id < |Overwrite(cat, writes).products|
    ensures !IsDerived(cat, id) ==> Overwrite(cat, writes).products[id] == WritePrices(cat, writes).products[id]
  {
    ShapesStay(cat, writes);
    WritePricesAt(cat, writes, id);
    RecalculateForAt(WritePrices(cat, writes), Ids(writes), id);
  }

  /** A derived bundle after one pass that spares it. */
  lemma DerivedOnce(cat: Catalogue, writes: seq<Write>, id: nat)
    requires WellFormed(cat) && SparesDerived(cat, writes) && IsDerived(cat, id)
    ensures id < |WritePrices(cat, writes).products| && id < |Overwrite(cat, writes).products|
    ensures Overwrite(cat, writes).products[id]
         == (if UsesOneOf(cat.components, Ids(writes), id)
             then cat.products[id].(price := DerivedPrice(WritePrices(cat, writes), id)) else cat.products[id])
  {
    ShapesStay(cat, writes);
    SparedPrice(cat, writes, id);
    WritePricesAt(cat, writes, id);
    RecalculateForAt(WritePrices(cat, writes), Ids(writes), id);
  }

  lemma DerivedTwice(cat: Catalogue, a: seq<Write>, b: seq<Write>, id: nat)
    requires WellFormed(cat) && SparesDerived(cat, a) && SparesDerived(cat, b) && IsDerived(cat, id)
    ensures id < |Overwrite(Overwrite(cat, a), b).products| && id < |Overwrite(cat, a + b).products|
    ensures Overwrite(Overwrite(cat, a), b).products[id] == Overwrite(cat, a + b).products[id]
  {
    ShapesStay(cat, a);
    StillSpares(cat, a, b);
    DerivedOnce(cat, a, id);
    DerivedOnce(Overwrite(cat, a), b, id);
    assert SparesDerived(cat, a + b);
    DerivedOnce(cat, a + b, id);
    SameDerivedPrices(cat, a, b, id);
    IdsConcat(a, b);
    UsesUnion(cat.components, Ids(a), Ids(b), id);
    if !UsesOneOf(cat.components, Ids(b), id) {
      UntouchedKeeps(cat, a, b, id);
    }
  }

  lemma UsesUnion(components: seq<Component>, a: set<nat>, b: set<nat>, bundle: nat)
    ensures UsesOneOf(components, a + b, bundle)
        <==> UsesOneOf(components, a, bundle) || UsesOneOf(components, b, bundle)
  {
  }

  lemma TwoPassesAreOne(cat: Catalogue, a: seq<Write>, b: seq<Write>)
    requires WellFormed(cat) && SparesDerived(cat, a) && SparesDerived(cat, b)
    ensures Overwrite(Overwrite(cat, a), b) == Overwrite(cat, a + b)
  {
    var twice, once := Overwrite(Overwrite(cat, a), b), Overwrite(cat, a + b);
    ShapesStay(cat, a);
    ShapesStay(Overwrite(cat, a), b);
    ShapesStay(cat, a + b);
    forall id | 0 <= id < |cat.products|
      ensures twice.products[id] == once.products[id]
    {
      TwoPassesAt(cat, a, b, id);
    }
    assert twice.products == once.products;
  }

  lemma StillSpares(cat: Catalogue, a: seq<Write>, b: seq<Write>)
    requires WellFormed(cat) && SparesDerived(cat, b)
    ensures WellFormed(Overwrite(cat, a)) && SparesDerived(Overwrite(cat, a), b)
  {
    ShapesStay(cat, a);
    forall i | 0 <= i < |b|
      ensures !IsDerived(Overwrite(cat, a), b[i].id)
    {
      assert !IsDerived(cat, b[i].id);
      if b[i].id < |cat.products| {
        WritePricesAt(cat, a, b[i].id);
        RecalculateForAt(WritePrices(cat, a), Ids(a), b[i].id);
      }
    }
  }

  /** In chunks of any size the update ends in the catalogue of one single pass. */
  lemma {:induction false} ChunksAreOnePass(cat: Catalogue, writes: seq<Write>, size: nat)
    requires WellFormed(cat) && SparesDerived(cat, writes) && size > 0
    ensures ApplyChunks(cat, writes, size) == Overwrite(cat, writes)
    decreases |writes|
  {
    if |writes| == 0 {
      NothingWritten(cat, writes);
    } else if |writes| > size {
      var a, b := writes[..size], writes[size..];
      assert writes == a + b;
      StillSpares(cat, a, b);
      ChunksAreOnePass(Overwrite(cat, a), b, size);
      TwoPassesAreOne(cat, a, b);
    }
  }

  lemma NothingWritten(cat: Catalogue, writes: seq<Write>)
    requires WellFormed(cat) && writes == []
    ensures Overwrite(cat, writes) == cat
  {
    ShapesStay(cat, writes);
    var after := Overwrite(cat, writes);
    forall id | 0 <= id < |cat.products|
      ensures after.products[id] == cat.products[id]
    {
      RecalculateForAt(cat, Ids(writes), id);
    }
    assert after.products == cat.products;
  }

  // ----- What the update does -----

  lemma {:induction false} WrittenOnce(writes: seq<Write>, i: nat, current: int)
    requires i < |writes| && forall j, k :: 0 <= j < k < |writes| ==> writes[j].id != writes[k].id
    ensures LastPrice(writes, writes[i].id, current) == writes[i].price
    decreases |writes|
  {
    if i < |writes| - 1 {
      WrittenOnce(writes[..|writes| - 1], i, current);
    }
  }

  lemma SignOf(x: real, y: real)
    requires x >= 0.0 && y >= 0.0
    ensures x * y >= 0.0
  {
  }

  lemma Scaled(p: real, v: real)
    ensures 100.0 * (p * (1.0 + v / 100.0)) == p * (100.0 + v)
  {
    var factor := 1.0 + v / 100.0;
    assert 100.0 * factor == 100.0 + v;
    assert 100.0 * (p * factor) == p * (100.0 * factor);
  }

  lemma ScaledSign(p: real, v: real)
    requires p >= 0.0
    ensures v >= -100.0 ==> p * (100.0 + v) >= 0.0
    ensures v < -100.0 ==> p * (100.0 + v) <= 0.0
  {
    if v >= -100.0 {
      SignOf(p, 100.0 + v);
    } else {
      SignOf(p, -(100.0 + v));
      assert p * -(100.0 + v) == -(p * (100.0 + v));
    }
  }

  lemma NewPriceFollows(price: int, rule: Rule)
    requires price >= 0
    ensures FollowsRule(price, rule, NewPrice(price, rule))
  {
    if rule.Percent? {
      var raw := price as real * (1.0 + rule.value / 100.0);
      Scaled(price as real, rule.value);
      ScaledSign(price as real, rule.value);
      assert raw - 0.5 < JsRound(raw) as real <= raw + 0.5;
    }
  }

  lemma WritesSpareDerived(cat: Catalogue, category: Option<nat>, targets: seq<Target>, rule: Rule)
    requires IsSnapshot(cat, category, targets)
    ensures SparesDerived(cat, WritesOf(targets, rule))
  {
    var writes := WritesOf(targets, rule);
    forall i | 0 <= i < |writes|
      ensures !IsDerived(cat, writes[i].id)
    {
      assert IsTarget(cat, category, targets[i].id);
    }
  }

  /** Every target follows the rule once, whatever the chunks. */
  lemma TargetsFollowRule(cat: Catalogue, category: Option<nat>, targets: seq<Target>, rule: Rule, size: nat)
    requires WellFormed(cat) && IsSnapshot(cat, category, targets) && size > 0
    ensures var after := ApplyChunks(cat, WritesOf(targets, rule), size);
            && |after.products| == |cat.products|
            && forall i :: 0 <= i < |targets| && targets[i].price >= 0 ==>
                 FollowsRule(targets[i].price, rule, after.products[targets[i].id].price)
  {
    var writes := WritesOf(targets, rule);
    WritesSpareDerived(cat, category, targets, rule);
    ChunksAreOnePass(cat, writes, size);
    ShapesStay(cat, writes);
    forall i | 0 <= i < |targets| && targets[i].price >= 0
      ensures FollowsRule(targets[i].price, rule, Overwrite(cat, writes).products[targets[i].id].price)
    {
      assert IsTarget(cat, category, targets[i].id);
      PlainProductStays(cat, writes, targets[i].id);
      WritePricesAt(cat, writes, targets[i].id);
      WrittenOnce(writes, i, cat.products[targets[i].id].price);
      NewPriceFollows(targets[i].price, rule);
    }
  }

  /** Every target ends at the rule applied once to the price of the snapshot,
      whatever the chunks; every derived bundle at its derived price; nothing
      else changes. */
  lemma BulkUpdateOutcome(cat: Catalogue, category: Option<nat>, targets: seq<Target>, rule: Rule, size: nat, id: nat)
    requires WellFormed(cat) && Consistent(cat) && IsSnapshot(cat, category, targets) && size > 0 && id < |cat.products|
    ensures var after := ApplyChunks(cat, WritesOf(targets, rule), size);
            && WellFormed(after) && Consistent(after) && |after.products| == |cat.products|
            && after.products[id] == cat.products[id].(price :=
                 if IsTarget(cat, category, id) then NewPrice(cat.products[id].price, rule)
                 else if IsDerived(cat, id) then DerivedPrice(after, id)
                 else cat.products[id].price)
            && (IsTarget(cat, category, id) && cat.products[id].price >= 0 ==>
                  FollowsRule(cat.products[id].price, rule, after.products[id].price))
  {
    var writes := WritesOf(targets, rule);
    var after := Overwrite(cat, writes);
    WritesSpareDerived(cat, category, targets, rule);
    ChunksAreOnePass(cat, writes, size);
    ShapesStay(cat, writes);
    OverwriteConsistentIff(cat, writes);
    forall b | 0 <= b < |cat.products|
      ensures !Overruled(cat, writes, b)
    {
      if IsDerived(cat, b) { SparedPrice(cat, writes, b); }
    }
    WritePricesAt(cat, writes, id);
    RecalculateForAt(WritePrices(cat, writes), Ids(writes), id);
    if IsTarget(cat, category, id) {
      var i :| 0 <= i < |targets| && targets[i].id == id;
      assert writes[i].id == id;
      WrittenOnce(writes, i, cat.products[id].price);
      if cat.products[id].price >= 0 { NewPriceFollows(cat.products[id].price, rule); }
    } else {
      forall i | 0 <= i < |writes| ensures writes[i].id != id {
        assert IsTarget(cat, category, targets[i].id);
      }
      Unwritten(writes, id, cat.products[id].price);
      assert Agrees(after, id);
    }
  }

  /** An edit may put a product that is no bundle in derived mode: only bundles
      are checked. It then drops out of every bulk update, although nothing else
      prices it. */
  lemma SimpleInDerivedModeIsSkipped(cat: Catalogue, category: Option<nat>, targets: seq<Target>, rule: Rule,
                                     size: nat, id: nat)
    requires WellFormed(cat) && Consistent(cat) && id < |cat.products| && cat.products[id].kind != Bundle && size > 0
    requires var edited := Update(cat, id, Edit(None, Some(Derived), Keep, Keep, None, Keep));
             edited.Ok? ==> IsSnapshot(edited.value, category, targets)
    ensures var edited := Update(cat, id, Edit(None, Some(Derived), Keep, Keep, None, Keep));
            && edited.Ok? && id < |edited.value.products|
            && var after := ApplyChunks(edited.value, WritesOf(targets, rule), size);
               id < |after.products| && after.products[id].price == cat.products[id].price
  {
    var e := Edit(None, Some(Derived), Keep, Keep, None, Keep);
    var edited := Update(cat, id, e).value;
    assert edited == cat.(products := cat.products[id := cat.products[id].(mode := Derived)]);
    UpdateConsistent(cat, id, e);
    BulkUpdateOutcome(edited, category, targets, rule, size, id);
  }
}
