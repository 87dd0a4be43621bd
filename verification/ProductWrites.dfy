/** What the product operations store, in the terms of the request alone: prices,
    quantities and discounts are written out here and not taken from the steps. */
module ProductWrites {
  import opened Prelude
  import opened Rounding
  import opened Sums
  import opened Products
  import Import

  // ----- The price of a bundle -----

  /** The variant's own price first, then the product's. */
  function AskedUnit(cat: Catalogue, c: Component): int {
    if c.variant.Some? && c.variant.value < |cat.variants| && cat.variants[c.variant.value].Some?
       && cat.variants[c.variant.value].value.price.Some?
    then cat.variants[c.variant.value].value.price.value
    else if c.product < |cat.products| then cat.products[c.product].price else 0
  }

  /** Unit price times quantity, over the components of one bundle. */
  function PartsOf(cat: Catalogue, bundle: nat, components: seq<Component>): int
  {
    if |components| == 0 then 0 else
      var c := components[|components| - 1];
      PartsOf(cat, bundle, components[..|components| - 1])
      + (if c.bundle == bundle then AskedUnit(cat, c) * c.quantity else 0)
  }

  /** Hundredths of a percent, between nothing and the whole price. */
  function Taken(discount: Option<int>): int {
    if discount.None? || discount.value < 0 then 0 else if discount.value > 10_000 then 10_000 else discount.value
  }

  /** The price is the parts less the discount, to half a cent. */
  predicate DiscountTaken(price: int, parts: int, discount: Option<int>) {
    -5_000_000 < 10_000_000 * price - parts * (10_000 - Taken(discount)) <= 5_000_000
  }

  lemma {:induction false} PartsAreSum(cat: Catalogue, bundle: nat, components: seq<Component>)
    ensures Sum(ComponentTerm(cat, bundle), components) == PartsOf(cat, bundle, components)
    decreases |components|
  {
    if |components| > 0 {
      PartsAreSum(cat, bundle, components[..|components| - 1]);
    }
  }

  lemma Scaled(parts: int, left: int)
    ensures 10_000_000.0 * (parts as real / 1000.0 * (left as real / 10_000.0)) == (parts * left) as real
  {
    var p, k := parts as real, left as real;
    assert 10_000_000.0 * (p / 1000.0 * (k / 10_000.0)) == p * k;
    assert p * k == (parts * left) as real;
  }

  lemma LeftOf(discount: Option<int>)
    ensures 1.0 - Percent(discount) / 100.0 == (10_000 - Taken(discount)) as real / 10_000.0
  {
  }

  lemma DiscountedIsTaken(parts: int, discount: Option<int>)
    ensures DiscountTaken(Discounted(parts, discount), parts, discount)
  {
    var left := 10_000 - Taken(discount);
    var x := parts as real / 1000.0 * (left as real / 10_000.0);
    LeftOf(discount);
    Scaled(parts, left);
    assert Discounted(parts, discount) == JsRound(x);
    assert x - 0.5 < JsRound(x) as real <= x + 0.5;
  }

  lemma SumIsTaken(cat: Catalogue, bundle: nat, discount: Option<int>)
    ensures var parts := PartsOf(cat, bundle, cat.components);
            DiscountTaken(Discounted(ComponentSum(cat, bundle), discount), parts, discount)
  {
    PartsAreSum(cat, bundle, cat.components);
    DiscountedIsTaken(PartsOf(cat, bundle, cat.components), discount);
  }

  /** A recalculation of a derived bundle takes the discount off the prices of its
      components, and changes nothing else. */
  lemma RecalculationTakesDiscount(cat: Catalogue, id: nat)
    requires IsDerived(cat, id) && HasComponent(cat, id)
    ensures var after := RecalculateOne(cat, id);
            && |after.products| == |cat.products|
            && after == cat.(products := cat.products[id := cat.products[id].(price := after.products[id].price)])
            && DiscountTaken(after.products[id].price, PartsOf(cat, id, cat.components), cat.products[id].discount)
  {
    SumIsTaken(cat, id, cat.products[id].discount);
  }

  /** In a consistent catalogue every derived bundle costs its parts less its
      discount; nothing off costs the parts, everything off costs nothing. */
  lemma DerivedBundlesCostTheirParts(cat: Catalogue, id: nat)
    requires Consistent(cat) && IsDerived(cat, id)
    ensures var p, parts := cat.products[id], PartsOf(cat, id, cat.components);
            && HasComponent(cat, id) && DiscountTaken(p.price, parts, p.discount)
            && (Taken(p.discount) == 0 ==> -500 < 1000 * p.price - parts <= 500)
            && (Taken(p.discount) == 10_000 ==> p.price == 0)
  {
    assert Agrees(cat, id);
    SumIsTaken(cat, id, cat.products[id].discount);
  }

  // ----- Products -----

  /** A field that is absent stays, one that is null is cleared. */
  predicate Follows<T(==)>(stored: Option<T>, before: Option<T>, patch: Patch<T>) {
    && (patch.Keep? ==> stored == before)
    && (patch.Clear? ==> stored == None)
    && (patch.To? ==> stored == Some(patch.value))
  }

  predicate EditFollows(before: Product, e: Edit, after: Product) {
    && after.sku == before.sku && after.kind == before.kind
    && (e.mode.Some? ==> after.mode == e.mode.value) && (e.mode.None? ==> after.mode == before.mode)
    && (e.active.Some? ==> after.active == e.active.value) && (e.active.None? ==> after.active == before.active)
    && Follows(after.discount, before.discount, e.discount) && Follows(after.barcode, before.barcode, e.barcode)
    && Follows(after.category, before.category, e.category)
  }

  /** The other products keep everything; a derived bundle may be priced anew when a
      price was given. */
  predicate OthersFollow(cat: Catalogue, id: nat, e: Edit, t: Catalogue) {
    && |cat.products| == |t.products|
    && forall b :: 0 <= b < |cat.products| && b != id ==>
         && t.products[b] == cat.products[b].(price := t.products[b].price)
         && (e.price.None? || !IsDerived(cat, b) ==> t.products[b] == cat.products[b])
  }

  /** A given price is stored, and without one the price moves only if the product
      is a bundle that derives it. */
  predicate PriceFollows(cat: Catalogue, id: nat, e: Edit, t: Catalogue) {
    && id < |cat.products| == |t.products|
    && (e.price.Some? ==> t.products[id].price == ColumnRound(e.price.value))
    && (e.price.None? && !IsDerived(t, id) ==> t.products[id].price == cat.products[id].price)
  }

  /** The product of an edit before the other bundles are recalculated. */
  lemma EditedRow(cat: Catalogue, id: nat, e: Edit)
    requires CheckEdit(cat, id, e).None?
    ensures var mid := cat.(products := cat.products[id := Edited(cat.products[id], e)]);
            var own := RecalculateOne(mid, id);
            && EditFollows(cat.products[id], e, own.products[id]) && PriceFollows(cat, id, e, own)
            && own == cat.(products := cat.products[id := own.products[id]]) && (e.price.Some? ==> own == mid)
  {
    var mid := cat.(products := cat.products[id := Edited(cat.products[id], e)]);
    SameComponents(cat, mid, id);
  }

  lemma RepricedAround(own: Catalogue, id: nat, b: nat)
    requires WellFormed(own) && id < |own.products| && b < |own.products|
    ensures var t := RecalculateFor(own, {id});
            && |t.products| == |own.products| && t.components == own.components && t.variants == own.variants
            && t.products[b] == own.products[b].(price := t.products[b].price)
            && (!IsDerived(own, b) || b == id ==> t.products[b] == own.products[b])
  {
    RecalculateForAt(own, {id}, b);
  }

  /** An edit stores what it names, on one product. */
  lemma EditIsAsAsked(cat: Catalogue, id: nat, e: Edit)
    requires WellFormed(cat) && Update(cat, id, e).Ok?
    ensures var t := Update(cat, id, e).value;
            && PriceFollows(cat, id, e, t) && EditFollows(cat.products[id], e, t.products[id])
            && OthersFollow(cat, id, e, t) && t.components == cat.components && t.variants == cat.variants
  {
    var mid := cat.(products := cat.products[id := Edited(cat.products[id], e)]);
    var own := RecalculateOne(mid, id);
    EditedRow(cat, id, e);
    if e.price.Some? {
      KindsStay(cat, own);
      RepricedAround(own, id, id);
      PricedEdit(cat, id, e, own, RecalculateFor(own, {id}));
    }
  }

  lemma PricedEdit(cat: Catalogue, id: nat, e: Edit, own: Catalogue, t: Catalogue)
    requires WellFormed(own) && id < |cat.products| == |own.products| == |t.products| && e.price.Some?
    requires own == cat.(products := cat.products[id := own.products[id]]) && t == RecalculateFor(own, {id})
    ensures OthersFollow(cat, id, e, t)
  {
    forall b | 0 <= b < |cat.products| && b != id
      ensures t.products[b] == cat.products[b].(price := t.products[b].price)
      ensures !IsDerived(cat, b) ==> t.products[b] == cat.products[b]
    {
      RepricedAround(own, id, b);
    }
  }

  predicate ComponentFollows(row: Component, bundle: nat, asked: NewComponent) {
    row == Component(bundle, asked.product, asked.variant, ColumnRound(asked.quantity))
  }

  predicate ComponentsFollow(before: Catalogue, after: Catalogue, bundle: nat, asked: seq<NewComponent>) {
    && |after.components| == |before.components| + |asked|
    && after.components[..|before.components|] == before.components
    && forall k :: 0 <= k < |asked| ==> ComponentFollows(after.components[|before.components| + k], bundle, asked[k])
  }

  lemma {:induction false} InsertedAsAsked(cat: Catalogue, bundle: nat, cs: seq<NewComponent>)
    requires InsertComponents(cat, bundle, cs).Ok?
    ensures var t := InsertComponents(cat, bundle, cs).value;
            t.products == cat.products && t.variants == cat.variants && ComponentsFollow(cat, t, bundle, cs)
    decreases |cs|
  {
    if |cs| > 0 {
      var next := InsertComponent(cat, bundle, cs[0]).value;
      InsertedAsAsked(next, bundle, cs[1..]);
      var t := InsertComponents(cat, bundle, cs).value;
      assert t.components[..|next.components|] == next.components;
      assert t.components[..|cat.components|] == next.components[..|cat.components|] == cat.components;
      assert t.components[|cat.components|] == next.components[|cat.components|];
    }
  }

  predicate VariantsFollow(rows: seq<Option<Variant>>, product: nat, prices: seq<Option<real>>) {
    && |rows| == |prices|
    && forall k :: 0 <= k < |prices| ==>
         && rows[k].Some? && rows[k].value.product == product
         && (prices[k].Some? ==> rows[k].value.price == Some(ColumnRound(prices[k].value)))
         && (prices[k].None? ==> rows[k].value.price == None)
  }

  lemma {:induction false} VariantsAreAsAsked(product: nat, prices: seq<Option<real>>)
    ensures VariantsFollow(StoredVariants(product, prices), product, prices)
    decreases |prices|
  {
    if |prices| > 0 {
      VariantsAreAsAsked(product, prices[..|prices| - 1]);
    }
  }

  /** A new product: one row with the price asked for, in manual mode and without a
      discount, then its variants and its components. */
  lemma CreateIsAsAsked(cat: Catalogue, p: NewProduct)
    requires Create(cat, p).Ok?
    ensures var t, id := Create(cat, p).value, |cat.products|;
            && t.products == cat.products + [Product(p.sku, p.barcode, p.kind, ColumnRound(p.price), Manual, None, true,
                                                     p.category)]
            && |t.variants| == |cat.variants| + |p.variants| && t.variants[..|cat.variants|] == cat.variants
            && VariantsFollow(t.variants[|cat.variants|..], id, p.variants)
            && ComponentsFollow(cat, t, id, p.components)
  {
    var id := |cat.products|;
    var row := Product(p.sku, p.barcode, p.kind, ColumnRound(p.price), Manual, None, true, p.category);
    VariantsAreAsAsked(id, p.variants);
    InsertedAsAsked(cat.(products := cat.products + [row], variants := cat.variants + StoredVariants(id, p.variants)),
                    id, p.components);
    assert (cat.variants + StoredVariants(id, p.variants))[|cat.variants|..] == StoredVariants(id, p.variants);
  }

  // ----- Import -----

  /** What the row says, on the product of its SKU: a barcode that is not given is
      cleared, a category that is not known leaves the old one. */
  predicate RowStored(before: seq<Product>, cats: Import.Categories, row: Import.Row, after: seq<Product>, id: nat) {
    && id < |after| && after[id].sku == row.sku && after[id].barcode == row.barcode
    && ((after[id].kind == Bundle && after[id].mode == Derived) || after[id].price == ColumnRound(row.price))
    && (row.category.Some? && row.category.value in cats ==> after[id].category == Some(cats[row.category.value]))
    && (row.category.None? || row.category.value !in cats ==>
          after[id].category == if id < |before| then before[id].category else None)
    && (id < |before| ==> && after[id].kind == before[id].kind && after[id].mode == before[id].mode
                          && after[id].discount == before[id].discount && after[id].active == before[id].active)
    && (id >= |before| ==> after[id].kind == Simple && after[id].mode == Manual && after[id].discount == None
                           && after[id].active)
  }

  lemma RowIsStored(products: seq<Product>, cats: Import.Categories, rows: seq<Import.Row>, written: seq<Product>,
                    after: seq<Product>, j: nat)
    requires Import.UniqueSkus(products) && Import.DistinctSkus(rows) && j < |rows|
    requires Import.Written(products, cats, rows, written) && Import.SamePlain(after, written)
    ensures Stored(products, cats, rows[j], after)
  {
    var id := WrittenAt(products, cats, rows, written, j);
    assert Import.Plain(after[id]) == Import.Plain(written[id]);
    assert RowStored(products, cats, rows[j], after, id);
  }

  /** The product of one row. */
  lemma WrittenAt(products: seq<Product>, cats: Import.Categories, rows: seq<Import.Row>, written: seq<Product>, j: nat)
    returns (id: nat)
    requires Import.UniqueSkus(products) && Import.DistinctSkus(rows) && j < |rows|
    requires Import.Written(products, cats, rows, written)
    ensures id < |written|
    ensures written[id] == if id < |products| then Import.Rewritten(products[id], cats, rows[j])
                           else Import.Fresh(cats, rows[j])
    ensures id < |products| ==> products[id].sku == rows[j].sku
  {
    Import.RowOfFound(rows, rows[j].sku);
    if Import.HasSku(products, rows[j].sku) {
      id :| 0 <= id < |products| && products[id].sku == rows[j].sku;
    } else {
      Import.NewRowsAre(products, rows, rows[j].sku);
      var news := Import.NewRows(products, rows);
      var k :| 0 <= k < |news| && news[k].sku == rows[j].sku;
      Import.NewRowIsRow(products, rows, k);
      id := |products| + k;
    }
  }

  ghost predicate RowsStored(before: seq<Product>, cats: Import.Categories, rows: seq<Import.Row>,
                             after: seq<Product>)
  {
    forall j :: 0 <= j < |rows| ==> Stored(before, cats, rows[j], after)
  }

  ghost predicate Stored(before: seq<Product>, cats: Import.Categories, row: Import.Row, after: seq<Product>) {
    exists id :: RowStored(before, cats, row, after, id)
  }

  lemma RowsAreStored(products: seq<Product>, cats: Import.Categories, rows: seq<Import.Row>, after: seq<Product>)
    requires Import.UniqueSkus(products) && Import.DistinctSkus(rows)
    requires exists written :: Import.Written(products, cats, rows, written) && Import.SamePlain(after, written)
    ensures RowsStored(products, cats, rows, after)
  {
    var written :| Import.Written(products, cats, rows, written) && Import.SamePlain(after, written);
    forall j | 0 <= j < |rows|
      ensures Stored(products, cats, rows[j], after)
    {
      RowIsStored(products, cats, rows, written, after, j);
    }
  }

  /** After an import that goes through, every row is stored as it was read. */
  lemma ImportStoresRows(cat: Catalogue, cats: Import.Categories, parsed: seq<Import.Parsed>, size: nat)
    requires WellFormed(cat) && Import.UniqueSkus(cat.products) && size > 0
    ensures var rows := Import.ValidRows(cat.products, cats, parsed, |parsed|);
            var (after, done) := Import.CommitChunks(cat, cats, rows, size);
            done ==> RowsStored(cat.products, cats, rows, after.products)
  {
    var rows := Import.ValidRows(cat.products, cats, parsed, |parsed|);
    Import.PreviewIsFaithful(cat, cats, parsed, size);
    if Import.CommitChunks(cat, cats, rows, size).1 {
      RowsAreStored(cat.products, cats, rows, Import.CommitChunks(cat, cats, rows, size).0.products);
    }
  }
}
