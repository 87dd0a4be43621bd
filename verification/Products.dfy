/** The catalogue, with bundles whose price is derived from their components
    and stored next to them: every operation that writes a price has to bring
    the stored prices back in line. Prices are cents, quantities thousandths,
    discounts hundredths of a percent. */
module Products {
  import opened Prelude
  import opened Rounding
  import opened Sums

  datatype Kind = Simple | Variable | Bundle

  datatype Mode = Manual | Derived

  datatype Product = Product(sku: string, barcode: Option<string>, kind: Kind, price: int, mode: Mode,
                             discount: Option<int>, active: bool, category: Option<nat>)

  /** No price of its own means the price of the product. */
  datatype Variant = Variant(product: nat, price: Option<int>)

  datatype Component = Component(bundle: nat, product: nat, variant: Option<nat>, quantity: int)

  /** Rows are numbered as they are created; a deleted variant leaves a hole. */
  datatype Catalogue = Catalogue(products: seq<Product>, variants: seq<Option<Variant>>, components: seq<Component>)

  datatype Error = NotFound | NotABundle | NotVariable | NoComponents | PriceIsDerived | SelfComponent
                 | BundleAsComponent | Conflict

  // ----- BundlePricingService -----

  function VariantPrice(cat: Catalogue, variant: Option<nat>): Option<int> {
    if variant.Some? && variant.value < |cat.variants| && cat.variants[variant.value].Some?
    then cat.variants[variant.value].value.price else None
  }

  function ProductPrice(cat: Catalogue, id: nat): int { if id < |cat.products| then cat.products[id].price else 0 }

  function UnitPrice(cat: Catalogue, c: Component): int {
    var own := VariantPrice(cat, c.variant);
    if own.Some? then own.value else ProductPrice(cat, c.product)
  }

  function ComponentTerm(cat: Catalogue, bundle: nat): Component -> int {
    (c: Component) => if c.bundle == bundle then UnitPrice(cat, c) * c.quantity else 0
  }

  function ComponentSum(cat: Catalogue, bundle: nat): int { Sum(ComponentTerm(cat, bundle), cat.components) }

  function Percent(discount: Option<int>): real {
    if discount.None? then 0.0 else Min(Max(discount.value as real / 100.0, 0.0), 100.0)
  }

  function Discounted(sum: int, discount: Option<int>): int {
    JsRound(sum as real / 1000.0 * (1.0 - Percent(discount) / 100.0))
  }

  function DerivedPrice(cat: Catalogue, bundle: nat): int
    requires bundle < |cat.products|
  {
    Discounted(ComponentSum(cat, bundle), cat.products[bundle].discount)
  }

  predicate HasComponent(cat: Catalogue, bundle: nat) {
    exists i :: 0 <= i < |cat.components| && cat.components[i].bundle == bundle
  }

  predicate IsDerived(cat: Catalogue, id: nat) {
    id < |cat.products| && cat.products[id].kind == Bundle && cat.products[id].mode == Derived
  }

  function SetPrice(cat: Catalogue, id: nat, price: int): Catalogue {
    if id < |cat.products| then cat.(products := cat.products[id := cat.products[id].(price := price)]) else cat
  }

  /** An empty bundle goes back to its last known price. */
  function RecalculateOne(cat: Catalogue, id: nat): Catalogue {
    if !IsDerived(cat, id) then cat
    else if !HasComponent(cat, id) then cat.(products := cat.products[id := cat.products[id].(mode := Manual)])
    else SetPrice(cat, id, DerivedPrice(cat, id))
  }

  /** The bundles in derived mode that use one of the products, each once. */
  function Affected(cat: Catalogue, components: seq<Component>, ids: set<nat>): seq<nat>
  {
    if |components| == 0 then [] else
      var c := components[|components| - 1];
      var before := Affected(cat, components[..|components| - 1], ids);
      if c.product in ids && c.bundle < |cat.products| && cat.products[c.bundle].mode == Derived && c.bundle !in before
      then before + [c.bundle] else before
  }

  function RecalculateAll(cat: Catalogue, bundles: seq<nat>): Catalogue
  {
    if |bundles| == 0 then cat else
      RecalculateOne(RecalculateAll(cat, bundles[..|bundles| - 1]), bundles[|bundles| - 1])
  }

  function RecalculateFor(cat: Catalogue, ids: set<nat>): Catalogue {
    RecalculateAll(cat, Affected(cat, cat.components, ids))
  }

  // ----- ProductsService -----

  datatype NewProduct = NewProduct(sku: string, barcode: Option<string>, kind: Kind, price: real, category: Option<nat>,
                                   variants: seq<Option<real>>, components: seq<NewComponent>)

  datatype NewComponent = NewComponent(product: nat, variant: Option<nat>, quantity: real)

  /** A field that may be absent, null or given. */
  datatype Patch<T> = Keep | Clear | To(value: T)

  function Patched<T>(stored: Option<T>, patch: Patch<T>): Option<T> {
    match patch
    case Keep => stored
    case Clear => None
    case To(value) => Some(value)
  }

  /** Absent fields are left as they are. */
  datatype Edit = Edit(price: Option<real>, mode: Option<Mode>, discount: Patch<int>, barcode: Patch<string>,
                       active: Option<bool>, category: Patch<nat>)

  predicate SkuTaken(cat: Catalogue, sku: string) {
    exists i :: 0 <= i < |cat.products| && cat.products[i].sku == sku
  }

  predicate BarcodeTaken(cat: Catalogue, barcode: Option<string>, own: nat) {
    barcode.Some? && exists i :: 0 <= i < |cat.products| && i != own && cat.products[i].barcode == barcode
  }

  predicate VariantOf(cat: Catalogue, variant: nat, product: nat) {
    variant < |cat.variants| && cat.variants[variant].Some? && cat.variants[variant].value.product == product
  }

  function StoredVariants(product: nat, prices: seq<Option<real>>): (r: seq<Option<Variant>>)
    ensures |r| == |prices|
  {
    if |prices| == 0 then [] else
      var p := prices[|prices| - 1];
      StoredVariants(product, prices[..|prices| - 1])
      + [Some(Variant(product, if p.Some? then Some(ColumnRound(p.value)) else None))]
  }

  /** createBundleItemInTx. */
  function InsertComponent(cat: Catalogue, bundle: nat, c: NewComponent): Result<Catalogue, Error> {
    if c.product == bundle then Err(SelfComponent)
    else if c.product >= |cat.products| then Err(NotFound)
    else if cat.products[c.product].kind == Bundle then Err(BundleAsComponent)
    else if c.variant.Some? && !VariantOf(cat, c.variant.value, c.product) then Err(NotFound)
    else if exists i :: 0 <= i < |cat.components| && cat.components[i].bundle == bundle
                        && cat.components[i].product == c.product
    then Err(Conflict)
    else Ok(cat.(components := cat.components + [Component(bundle, c.product, c.variant, ColumnRound(c.quantity))]))
  }

  function InsertComponents(cat: Catalogue, bundle: nat, cs: seq<NewComponent>): Result<Catalogue, Error>
    decreases |cs|
  {
    if |cs| == 0 then Ok(cat) else
      var next := InsertComponent(cat, bundle, cs[0]);
      if next.Err? then next else InsertComponents(next.value, bundle, cs[1..])
  }

  /** assertTypeShape, for what the model keeps of a product. */
  predicate ShapeAllowed(p: NewProduct) {
    match p.kind
    case Simple => p.variants == [] && p.components == []
    case Variable => p.variants != [] && p.barcode == None && p.components == []
    case Bundle => p.components != [] && p.variants == []
  }

  function Create(cat: Catalogue, p: NewProduct): Result<Catalogue, Error> {
    if !ShapeAllowed(p) then Err(NoComponents)
    else if SkuTaken(cat, p.sku) || BarcodeTaken(cat, p.barcode, |cat.products|) then Err(Conflict)
    else
      var id := |cat.products|;
      var row := Product(p.sku, p.barcode, p.kind, ColumnRound(p.price), Manual, None, true, p.category);
      InsertComponents(cat.(products := cat.products + [row],
                            variants := cat.variants + StoredVariants(id, p.variants)),
                       id, p.components)
  }

  function Edited(p: Product, e: Edit): Product {
    p.(price := if e.price.Some? then ColumnRound(e.price.value) else p.price,
       mode := if e.mode.Some? then e.mode.value else p.mode,
       discount := Patched(p.discount, e.discount),
       barcode := Patched(p.barcode, e.barcode),
       active := if e.active.Some? then e.active.value else p.active,
       category := Patched(p.category, e.category))
  }

  function CheckEdit(cat: Catalogue, id: nat, e: Edit): Option<Error> {
    if id >= |cat.products| then Some(NotFound)
    else if cat.products[id].kind == Bundle && Edited(cat.products[id], e).mode == Derived && !HasComponent(cat, id)
    then Some(NoComponents)
    else if cat.products[id].kind == Bundle && Edited(cat.products[id], e).mode == Derived && e.price.Some?
    then Some(PriceIsDerived)
    else if BarcodeTaken(cat, Patched(None, e.barcode), id) then Some(Conflict)
    else None
  }

  function Update(cat: Catalogue, id: nat, e: Edit): Result<Catalogue, Error> {
    var bad := CheckEdit(cat, id, e);
    if bad.Some? then Err(bad.value) else
      var own := RecalculateOne(cat.(products := cat.products[id := Edited(cat.products[id], e)]), id);
      Ok(if e.price.Some? then RecalculateFor(own, {id}) else own)
  }

  function AddVariant(cat: Catalogue, product: nat, price: Option<real>): Result<Catalogue, Error> {
    if product >= |cat.products| then Err(NotFound)
    else if cat.products[product].kind != Variable then Err(NotVariable)
    else Ok(cat.(variants := cat.variants + StoredVariants(product, [price])))
  }

  function Unlinked(components: seq<Component>, variant: nat): (r: seq<Component>)
    ensures |r| == |components|
    ensures forall i :: 0 <= i < |r| ==>
      r[i] == if components[i].variant == Some(variant) then components[i].(variant := None) else components[i]
  {
    if |components| == 0 then [] else
      var c := components[|components| - 1];
      Unlinked(components[..|components| - 1], variant)
          + [if c.variant == Some(variant) then c.(variant := None) else c]
  }

  /** The foreign key of a component to its variant is set to null on delete, and
      nothing is recalculated. */
  function RemoveVariant(cat: Catalogue, variant: nat): Result<Catalogue, Error> {
    if variant >= |cat.variants| || cat.variants[variant].None? then Err(NotFound)
    else Ok(cat.(variants := cat.variants[variant := None], components := Unlinked(cat.components, variant)))
  }

  function AddBundleItem(cat: Catalogue, bundle: nat, c: NewComponent): Result<Catalogue, Error> {
    if bundle >= |cat.products| then Err(NotFound)
    else if cat.products[bundle].kind != Bundle then Err(NotABundle)
    else
      var added := InsertComponent(cat, bundle, c);
      if added.Err? then added else Ok(RecalculateOne(added.value, bundle))
  }

  function WithoutItem(cat: Catalogue, i: nat): Catalogue
    requires i < |cat.components|
  {
    cat.(components := cat.components[..i] + cat.components[i + 1..])
  }

  function RemoveBundleItem(cat: Catalogue, i: nat): Result<Catalogue, Error> {
    if i >= |cat.components| then Err(NotFound)
    else Ok(RecalculateOne(WithoutItem(cat, i), cat.components[i].bundle))
  }

  // ----- Prices written without looking at the mode: bulk updates and imports -----

  datatype Write = Write(id: nat, price: int)

  function WritePrices(cat: Catalogue, writes: seq<Write>): Catalogue
  {
    if |writes| == 0 then cat else
      var w := writes[|writes| - 1];
      SetPrice(WritePrices(cat, writes[..|writes| - 1]), w.id, w.price)
  }

  function Ids(writes: seq<Write>): (r: set<nat>)
    ensures forall id :: id in r <==> exists i :: 0 <= i < |writes| && writes[i].id == id
  {
    set i | 0 <= i < |writes| :: writes[i].id
  }

  function Overwrite(cat: Catalogue, writes: seq<Write>): Catalogue {
    RecalculateFor(WritePrices(cat, writes), Ids(writes))
  }

  // ----- The invariant -----

  /** A bundle is never a component, and holds each product once. */
  predicate WellFormed(cat: Catalogue) {
    && (forall i :: 0 <= i < |cat.components| ==>
          && cat.components[i].bundle < |cat.products| && cat.products[cat.components[i].bundle].kind == Bundle
          && cat.components[i].product < |cat.products| && cat.products[cat.components[i].product].kind != Bundle
          && (cat.components[i].variant.Some? ==>
              VariantOf(cat, cat.components[i].variant.value, cat.components[i].product)))
    && (forall i, j :: 0 <= i < j < |cat.components| && cat.components[i].bundle == cat.components[j].bundle ==>
          cat.components[i].product != cat.components[j].product)
  }

  predicate Agrees(cat: Catalogue, id: nat) {
    IsDerived(cat, id) ==> HasComponent(cat, id) && cat.products[id].price == DerivedPrice(cat, id)
  }

  /** Every bundle in derived mode has a component, and its stored price is the
      discounted sum of its components. */
  predicate Consistent(cat: Catalogue) { forall id :: 0 <= id < |cat.products| ==> Agrees(cat, id) }

  /** The derived price reads the components and the prices of what is no bundle. */
  lemma DerivedPriceReads(a: Catalogue, b: Catalogue, bundle: nat)
    requires bundle < |a.products| && bundle < |b.products|
    requires a.products[bundle].discount == b.products[bundle].discount
    requires a.components == b.components
    requires forall i :: 0 <= i < |a.components| && a.components[i].bundle == bundle ==>
               UnitPrice(a, a.components[i]) == UnitPrice(b, a.components[i])
    ensures DerivedPrice(a, bundle) == DerivedPrice(b, bundle)
  {
    SumAgree(ComponentTerm(a, bundle), ComponentTerm(b, bundle), a.components);
  }

  // ----- What a recalculation does -----

  predicate Touched(cat: Catalogue, ids: set<nat>, bundle: nat) {
    IsDerived(cat, bundle) && UsesOneOf(cat.components, ids, bundle)
  }

  predicate UsesOneOf(components: seq<Component>, ids: set<nat>, bundle: nat) {
    exists i :: 0 <= i < |components| && components[i].bundle == bundle && components[i].product in ids
  }

  lemma {:induction false} AffectedAreTouched(cat: Catalogue, components: seq<Component>, ids: set<nat>, bundle: nat)
    requires forall i :: 0 <= i < |components| ==>
               components[i].bundle < |cat.products| && cat.products[components[i].bundle].kind == Bundle
    ensures bundle in Affected(cat, components, ids) <==> IsDerived(cat, bundle) && UsesOneOf(components, ids, bundle)
    decreases |components|
  {
    if |components| > 0 {
      var n := |components| - 1;
      AffectedAreTouched(cat, components[..n], ids, bundle);
      if UsesOneOf(components[..n], ids, bundle) {
        var i :| 0 <= i < n && components[..n][i].bundle == bundle && components[..n][i].product in ids;
        assert components[i].bundle == bundle && components[i].product in ids;
      }
    }
  }

  /** Bundles are not components of each other: one price written to a bundle
      changes no derived price. */
  lemma BundlePricesAreNotRead(cat: Catalogue, bundle: nat, price: int, other: nat)
    requires WellFormed(cat) && bundle < |cat.products| && cat.products[bundle].kind == Bundle && other < |cat.products|
    ensures DerivedPrice(SetPrice(cat, bundle, price), other) == DerivedPrice(cat, other)
  {
    DerivedPriceReads(cat, SetPrice(cat, bundle, price), other);
  }

  ghost predicate Settled(cat: Catalogue, bundles: seq<nat>, after: Catalogue) {
    && after.components == cat.components && after.variants == cat.variants && |after.products| == |cat.products|
    && forall id :: 0 <= id < |cat.products| ==>
         after.products[id]
         == if id in bundles then cat.products[id].(price := DerivedPrice(cat, id)) else cat.products[id]
  }

  lemma {:induction false} RecalculateAllSettles(cat: Catalogue, bundles: seq<nat>)
    requires WellFormed(cat) && forall i :: 0 <= i < |bundles| ==>
        IsDerived(cat, bundles[i]) && HasComponent(cat, bundles[i])
    ensures Settled(cat, bundles, RecalculateAll(cat, bundles))
    ensures forall id :: 0 <= id < |cat.products| ==>
        DerivedPrice(RecalculateAll(cat, bundles), id) == DerivedPrice(cat, id)
    decreases |bundles|
  {
    if |bundles| > 0 {
      var n := |bundles| - 1;
      RecalculateAllSettles(cat, bundles[..n]);
      SettleOneMore(cat, bundles, RecalculateAll(cat, bundles[..n]));
    }
  }

  lemma SettleOneMore(cat: Catalogue, bundles: seq<nat>, before: Catalogue)
    requires WellFormed(cat) && |bundles| > 0 && Settled(cat, bundles[..|bundles| - 1], before)
    requires forall id :: 0 <= id < |cat.products| ==> DerivedPrice(before, id) == DerivedPrice(cat, id)
    requires IsDerived(cat, bundles[|bundles| - 1]) && HasComponent(cat, bundles[|bundles| - 1])
    ensures var after := RecalculateOne(before, bundles[|bundles| - 1]);
            Settled(cat, bundles, after)
            && forall id :: 0 <= id < |cat.products| ==> DerivedPrice(after, id) == DerivedPrice(cat, id)
  {
    var n := |bundles| - 1;
    var b := bundles[n];
    KindsStay(cat, before);
    SameComponents(cat, before, b);
    var price := DerivedPrice(cat, b);
    assert RecalculateOne(before, b) == SetPrice(before, b, price);
    forall id | 0 <= id < |cat.products|
      ensures DerivedPrice(SetPrice(before, b, price), id) == DerivedPrice(cat, id)
    {
      BundlePricesAreNotRead(before, b, price, id);
    }
    assert bundles == bundles[..n] + [b];
  }

  /** Well-formedness reads the components and the kinds only. */
  lemma KindsStay(a: Catalogue, b: Catalogue)
    requires WellFormed(a) && a.components == b.components && a.variants == b.variants && |a.products| <= |b.products|
    requires forall id :: 0 <= id < |a.products| ==> a.products[id].kind == b.products[id].kind
    ensures WellFormed(b)
  {
    forall i | 0 <= i < |b.components|
      ensures b.components[i].variant.Some? ==> VariantOf(b, b.components[i].variant.value, b.components[i].product)
    {
      assert a.components[i].variant.Some? ==> VariantOf(a, a.components[i].variant.value, a.components[i].product);
    }
  }

  /** A recalculation sets exactly the touched bundles to their derived price, in
      any order: no fixpoint is needed. */
  lemma RecalculateForAt(cat: Catalogue, ids: set<nat>, id: nat)
    requires WellFormed(cat) && id < |cat.products|
    ensures var after := RecalculateFor(cat, ids);
            && after.components == cat.components && after.variants == cat.variants
            && |after.products| == |cat.products|
            && after.products[id] == (if Touched(cat, ids, id) then cat.products[id].(price := DerivedPrice(cat, id))
                                      else cat.products[id])
            && DerivedPrice(after, id) == DerivedPrice(cat, id)
  {
    var bundles := Affected(cat, cat.components, ids);
    forall i | 0 <= i < |bundles|
      ensures IsDerived(cat, bundles[i]) && HasComponent(cat, bundles[i])
    {
      AffectedAreTouched(cat, cat.components, ids, bundles[i]);
    }
    RecalculateAllSettles(cat, bundles);
    AffectedAreTouched(cat, cat.components, ids, id);
  }

  lemma RecalculateForWellFormed(cat: Catalogue, ids: set<nat>)
    requires WellFormed(cat)
    ensures WellFormed(RecalculateFor(cat, ids))
    ensures RecalculateFor(cat, ids).components == cat.components && RecalculateFor(cat, ids).variants == cat.variants
    ensures |RecalculateFor(cat, ids).products| == |cat.products|
  {
    if |cat.products| > 0 {
      RecalculateForAt(cat, ids, 0);
    } else {
      assert Affected(cat, cat.components, ids) == [];
    }
    forall id | 0 <= id < |cat.products|
      ensures RecalculateFor(cat, ids).products[id].kind == cat.products[id].kind
    {
      RecalculateForAt(cat, ids, id);
    }
    KindsStay(cat, RecalculateFor(cat, ids));
  }

  /** The same recipes, and the same prices outside `ids`. */
  predicate SameBut(before: Catalogue, mid: Catalogue, ids: set<nat>) {
    && mid.components == before.components && mid.variants == before.variants && |before.products| <= |mid.products|
    && forall id :: 0 <= id < |before.products| ==>
         && mid.products[id].kind == before.products[id].kind
         && (id !in ids ==> mid.products[id].price == before.products[id].price)
  }

  lemma SameComponents(a: Catalogue, b: Catalogue, bundle: nat)
    requires a.components == b.components
    ensures HasComponent(a, bundle) == HasComponent(b, bundle)
  {
  }

  /** After prices were written to `ids` and their bundles recalculated, a bundle
      agrees exactly when one of its components was among them, or its own
      stored price was not changed. */
  lemma RecalculationRepairs(before: Catalogue, mid: Catalogue, ids: set<nat>, b: nat)
    requires WellFormed(before) && Agrees(before, b) && IsDerived(before, b) && SameBut(before, mid, ids)
    requires mid.products[b].mode == Derived && mid.products[b].discount == before.products[b].discount
    ensures WellFormed(mid) && |RecalculateFor(mid, ids).products| == |mid.products|
    ensures Agrees(RecalculateFor(mid, ids), b)
       <==> UsesOneOf(before.components, ids, b) || mid.products[b].price == before.products[b].price
  {
    KindsStay(before, mid);
    RecalculateForWellFormed(mid, ids);
    RecalculateForAt(mid, ids, b);
    SameComponents(before, RecalculateFor(mid, ids), b);
    if !UsesOneOf(before.components, ids, b) {
      DerivedPriceReads(before, mid, b);
    }
  }

  // ----- Every operation -----

  lemma RecalculateOneSettles(cat: Catalogue, id: nat)
    requires WellFormed(cat)
    ensures WellFormed(RecalculateOne(cat, id)) && |RecalculateOne(cat, id).products| == |cat.products|
    ensures Agrees(RecalculateOne(cat, id), id)
    ensures forall b :: 0 <= b < |cat.products| && b != id && Agrees(cat, b) ==> Agrees(RecalculateOne(cat, id), b)
  {
    var after := RecalculateOne(cat, id);
    KindsStay(cat, after);
    forall b | 0 <= b < |cat.products|
      ensures DerivedPrice(after, b) == DerivedPrice(cat, b)
      ensures HasComponent(after, b) == HasComponent(cat, b)
    {
      DerivedPriceReads(cat, after, b);
    }
  }

  lemma UpdateConsistent(cat: Catalogue, id: nat, e: Edit)
    requires WellFormed(cat) && Consistent(cat) && Update(cat, id, e).Ok?
    ensures WellFormed(Update(cat, id, e).value) && Consistent(Update(cat, id, e).value)
  {
    var mid := cat.(products := cat.products[id := Edited(cat.products[id], e)]);
    KindsStay(cat, mid);
    RecalculateOneSettles(mid, id);
    var own := RecalculateOne(mid, id);
    if e.price.Some? {
      RecalculateForWellFormed(own, {id});
      PriceEditConsistent(cat, id, e, mid, own);
    } else {
      forall b | 0 <= b < |cat.products| && b != id
        ensures Agrees(mid, b)
      {
        assert Agrees(cat, b);
        UnitPricesStay(cat, mid, b);
      }
    }
  }

  lemma UnitPricesStay(a: Catalogue, b: Catalogue, bundle: nat)
    requires a.components == b.components && a.variants == b.variants && |a.products| == |b.products|
    requires bundle < |a.products| && a.products[bundle].discount == b.products[bundle].discount
    requires forall id :: 0 <= id < |a.products| ==> a.products[id].price == b.products[id].price
    ensures DerivedPrice(a, bundle) == DerivedPrice(b, bundle) && HasComponent(a, bundle) == HasComponent(b, bundle)
  {
    DerivedPriceReads(a, b, bundle);
  }

  lemma PriceEditConsistent(cat: Catalogue, id: nat, e: Edit, mid: Catalogue, own: Catalogue)
    requires WellFormed(cat) && Consistent(cat) && CheckEdit(cat, id, e).None? && e.price.Some?
    requires mid == cat.(products := cat.products[id := Edited(cat.products[id], e)]) && own == RecalculateOne(mid, id)
    requires |RecalculateFor(own, {id}).products| == |cat.products|
    ensures Consistent(RecalculateFor(own, {id}))
  {
    assert own == mid;
    KindsStay(cat, own);
    forall b | 0 <= b < |cat.products|
      ensures Agrees(RecalculateFor(own, {id}), b)
    {
      RecalculateForAt(own, {id}, b);
      if b != id && IsDerived(cat, b) {
        assert Agrees(cat, b);
        RecalculationRepairs(cat, own, {id}, b);
      }
    }
  }

  lemma InsertConsistent(cat: Catalogue, bundle: nat, c: NewComponent)
    requires WellFormed(cat) && bundle < |cat.products| && cat.products[bundle].kind == Bundle
    requires InsertComponent(cat, bundle, c).Ok?
    ensures var after := InsertComponent(cat, bundle, c).value;
            && WellFormed(after) && after.products == cat.products
            && forall b :: 0 <= b < |cat.products| && b != bundle && Agrees(cat, b) ==> Agrees(after, b)
  {
    var after := InsertComponent(cat, bundle, c).value;
    var row := Component(bundle, c.product, c.variant, ColumnRound(c.quantity));
    InsertWellFormed(cat, row);
    forall b | 0 <= b < |cat.products| && b != bundle && Agrees(cat, b)
      ensures Agrees(after, b)
    {
      SumAppend(ComponentTerm(after, b), cat.components, row);
      SumAgree(ComponentTerm(after, b), ComponentTerm(cat, b), cat.components);
      if IsDerived(cat, b) {
        var k :| 0 <= k < |cat.components| && cat.components[k].bundle == b;
        assert after.components[k].bundle == b;
      }
    }
  }

  lemma InsertWellFormed(cat: Catalogue, row: Component)
    requires WellFormed(cat) && row.bundle < |cat.products| && cat.products[row.bundle].kind == Bundle
    requires row.product < |cat.products| && cat.products[row.product].kind != Bundle
    requires row.variant.Some? ==> VariantOf(cat, row.variant.value, row.product)
    requires forall i :: 0 <= i < |cat.components| && cat.components[i].bundle == row.bundle ==>
        cat.components[i].product != row.product
    ensures WellFormed(cat.(components := cat.components + [row]))
  {
    var after := cat.(components := cat.components + [row]);
    forall i | 0 <= i < |after.components|
      ensures after.components[i].variant.Some? ==>
          VariantOf(after, after.components[i].variant.value, after.components[i].product)
    {
      assert i < |cat.components| ==> after.components[i] == cat.components[i];
      assert after.components[i].variant.Some? ==>
          VariantOf(cat, after.components[i].variant.value, after.components[i].product);
    }
  }

  lemma AddBundleItemConsistent(cat: Catalogue, bundle: nat, c: NewComponent)
    requires WellFormed(cat) && Consistent(cat) && AddBundleItem(cat, bundle, c).Ok?
    ensures WellFormed(AddBundleItem(cat, bundle, c).value) && Consistent(AddBundleItem(cat, bundle, c).value)
  {
    InsertConsistent(cat, bundle, c);
    RecalculateOneSettles(InsertComponent(cat, bundle, c).value, bundle);
  }

  lemma SumAround<T>(f: T -> int, a: seq<T>, x: T, b: seq<T>)
    ensures Sum(f, a + [x] + b) == Sum(f, a + b) + f(x)
  {
    SumConcat(f, a, b);
    SumAppend(f, a, x);
    SumConcat(f, a + [x], b);
  }

  lemma Split<T>(s: seq<T>, i: nat)
    requires i < |s|
    ensures s[..i] + [s[i]] + s[i + 1..] == s
  {
  }

  lemma SumWithout<T>(f: T -> int, s: seq<T>, i: nat)
    requires i < |s|
    ensures Sum(f, s[..i] + s[i + 1..]) == Sum(f, s) - f(s[i])
  {
    Split(s, i);
    SumAround(f, s[..i], s[i], s[i + 1..]);
  }

  lemma OtherBundleKeeps(cat: Catalogue, i: nat, b: nat)
    requires i < |cat.components| && b < |cat.products| && b != cat.components[i].bundle
    ensures DerivedPrice(WithoutItem(cat, i), b) == DerivedPrice(cat, b)
    ensures HasComponent(cat, b) ==> HasComponent(WithoutItem(cat, i), b)
  {
    var mid := WithoutItem(cat, i);
    SumWithout(ComponentTerm(mid, b), cat.components, i);
    SumAgree(ComponentTerm(mid, b), ComponentTerm(cat, b), cat.components);
    if k :| 0 <= k < |cat.components| && cat.components[k].bundle == b {
      assert mid.components[if k < i then k else k - 1].bundle == b;
    }
  }

  lemma RemoveBundleItemConsistent(cat: Catalogue, i: nat)
    requires WellFormed(cat) && Consistent(cat) && RemoveBundleItem(cat, i).Ok?
    ensures WellFormed(RemoveBundleItem(cat, i).value) && Consistent(RemoveBundleItem(cat, i).value)
  {
    var mid, bundle := WithoutItem(cat, i), cat.components[i].bundle;
    WithoutWellFormed(cat, i);
    RecalculateOneSettles(mid, bundle);
    forall b | 0 <= b < |cat.products| && b != bundle
      ensures Agrees(mid, b)
    {
      assert Agrees(cat, b);
      OtherBundleKeeps(cat, i, b);
    }
  }

  lemma WithoutWellFormed(cat: Catalogue, i: nat)
    requires WellFormed(cat) && i < |cat.components|
    ensures WellFormed(WithoutItem(cat, i))
  {
    var mid := WithoutItem(cat, i);
    assert forall k :: 0 <= k < |mid.components| ==> mid.components[k] == cat.components[if k < i then k else k + 1];
    forall k | 0 <= k < |mid.components|
      ensures mid.components[k].variant.Some? ==>
          VariantOf(mid, mid.components[k].variant.value, mid.components[k].product)
    {
      assert mid.components[k].variant.Some? ==>
          VariantOf(cat, mid.components[k].variant.value, mid.components[k].product);
    }
  }

  /** New rows that no component refers to yet. */
  lemma GrowConsistent(cat: Catalogue, after: Catalogue)
    requires WellFormed(cat) && Consistent(cat) && after.components == cat.components
    requires cat.products <= after.products && cat.variants <= after.variants
    requires forall id :: |cat.products| <= id < |after.products| ==> after.products[id].mode == Manual
    ensures WellFormed(after) && Consistent(after)
  {
    forall i | 0 <= i < |after.components|
      ensures after.components[i].variant.Some? ==>
          VariantOf(after, after.components[i].variant.value, after.components[i].product)
      ensures UnitPrice(after, after.components[i]) == UnitPrice(cat, cat.components[i])
    {
      assert cat.components[i].variant.Some? ==>
          VariantOf(cat, cat.components[i].variant.value, cat.components[i].product);
    }
    forall b | 0 <= b < |after.products|
      ensures Agrees(after, b)
    {
      if b < |cat.products| {
        assert Agrees(cat, b);
        DerivedPriceReads(cat, after, b);
        assert HasComponent(after, b) == HasComponent(cat, b);
      }
    }
  }

  lemma {:induction false} InsertAllConsistent(cat: Catalogue, bundle: nat, cs: seq<NewComponent>)
    requires WellFormed(cat) && Consistent(cat) && bundle < |cat.products| && cat.products[bundle].mode == Manual
    requires cs == [] || cat.products[bundle].kind == Bundle
    requires InsertComponents(cat, bundle, cs).Ok?
    ensures WellFormed(InsertComponents(cat, bundle, cs).value) && Consistent(InsertComponents(cat, bundle, cs).value)
    decreases |cs|
  {
    if |cs| > 0 {
      InsertConsistent(cat, bundle, cs[0]);
      InsertAllConsistent(InsertComponent(cat, bundle, cs[0]).value, bundle, cs[1..]);
    }
  }

  lemma CreateConsistent(cat: Catalogue, p: NewProduct)
    requires WellFormed(cat) && Consistent(cat) && Create(cat, p).Ok?
    ensures WellFormed(Create(cat, p).value) && Consistent(Create(cat, p).value)
  {
    var id := |cat.products|;
    var row := Product(p.sku, p.barcode, p.kind, ColumnRound(p.price), Manual, None, true, p.category);
    var mid := cat.(products := cat.products + [row], variants := cat.variants + StoredVariants(id, p.variants));
    GrowConsistent(cat, mid);
    InsertAllConsistent(mid, id, p.components);
  }

  // ----- Writes that do not look at the mode -----

  function LastPrice(writes: seq<Write>, id: nat, current: int): int
  {
    if |writes| == 0 then current
    else if writes[|writes| - 1].id == id then writes[|writes| - 1].price
    else LastPrice(writes[..|writes| - 1], id, current)
  }

  lemma {:induction false} WritePricesAt(cat: Catalogue, writes: seq<Write>, id: nat)
    requires id < |cat.products|
    ensures var after := WritePrices(cat, writes);
            && after.components == cat.components && after.variants == cat.variants
            && |after.products| == |cat.products|
            && after.products[id] == cat.products[id].(price := LastPrice(writes, id, cat.products[id].price))
    decreases |writes|
  {
    if |writes| > 0 {
      WritePricesAt(cat, writes[..|writes| - 1], id);
    }
  }

  lemma {:induction false} WritePricesShape(cat: Catalogue, writes: seq<Write>)
    ensures var after := WritePrices(cat, writes);
            after.components == cat.components && after.variants == cat.variants && |after.products| == |cat.products|
    decreases |writes|
  {
    if |writes| > 0 {
      WritePricesShape(cat, writes[..|writes| - 1]);
    }
  }

  lemma {:induction false} Unwritten(writes: seq<Write>, id: nat, current: int)
    requires forall i :: 0 <= i < |writes| ==> writes[i].id != id
    ensures LastPrice(writes, id, current) == current
    decreases |writes|
  {
    if |writes| > 0 {
      Unwritten(writes[..|writes| - 1], id, current);
    }
  }

  lemma WritesSameBut(cat: Catalogue, writes: seq<Write>)
    ensures SameBut(cat, WritePrices(cat, writes), Ids(writes))
  {
    WritePricesShape(cat, writes);
    forall id | 0 <= id < |cat.products|
      ensures var p := WritePrices(cat, writes).products[id];
              p == cat.products[id].(price := p.price) && (id !in Ids(writes) ==> p == cat.products[id])
    {
      WritePricesAt(cat, writes, id);
      if id !in Ids(writes) {
        Unwritten(writes, id, cat.products[id].price);
      }
    }
  }

  /** A derived bundle is given another price while none of its components is. */
  predicate Overruled(cat: Catalogue, writes: seq<Write>, b: nat) {
    && IsDerived(cat, b) && LastPrice(writes, b, cat.products[b].price) != cat.products[b].price
    && !UsesOneOf(cat.components, Ids(writes), b)
  }

  /** One chunk of price writes keeps the stored prices in line exactly when it
      overrules no derived bundle. */
  lemma OverwriteConsistentIff(cat: Catalogue, writes: seq<Write>)
    requires WellFormed(cat) && Consistent(cat)
    ensures WellFormed(Overwrite(cat, writes))
    ensures Consistent(Overwrite(cat, writes)) <==> forall b :: 0 <= b < |cat.products| ==> !Overruled(cat, writes, b)
  {
    var mid, ids := WritePrices(cat, writes), Ids(writes);
    WritesSameBut(cat, writes);
    WritePricesShape(cat, writes);
    KindsStay(cat, mid);
    RecalculateForWellFormed(mid, ids);
    forall b | 0 <= b < |cat.products|
      ensures Agrees(Overwrite(cat, writes), b) <==> !Overruled(cat, writes, b)
    {
      WritePricesAt(cat, writes, b);
      RecalculateForAt(mid, ids, b);
      if IsDerived(cat, b) {
        assert Agrees(cat, b);
        RecalculationRepairs(cat, mid, ids, b);
      }
    }
  }

  // ----- Removing a variant -----

  /** What one component adds when it falls back to its product's price. */
  function Fallback(cat: Catalogue, c: Component): int {
    (ProductPrice(cat, c.product) - UnitPrice(cat, c)) * c.quantity
  }

  /** The price of a bundle once a component falls back to its product's price. */
  function WithoutVariant(cat: Catalogue, i: nat): int
    requires i < |cat.components| && cat.components[i].bundle < |cat.products|
  {
    var c := cat.components[i];
    Discounted(ComponentSum(cat, c.bundle) + Fallback(cat, c), cat.products[c.bundle].discount)
  }

  /** A component of a derived bundle whose price rests on the variant. */
  predicate RestsOn(cat: Catalogue, i: nat, variant: nat) {
    && i < |cat.components| && cat.components[i].variant == Some(variant) && IsDerived(cat, cat.components[i].bundle)
    && WithoutVariant(cat, i) != cat.products[cat.components[i].bundle].price
  }

  lemma {:induction false} SumPointwise<T>(f: T -> int, s: seq<T>, g: T -> int, t: seq<T>)
    requires |s| == |t| && forall i :: 0 <= i < |s| ==> f(s[i]) == g(t[i])
    ensures Sum(f, s) == Sum(g, t)
    decreases |s|
  {
    if |s| > 0 {
      SumPointwise(f, s[..|s| - 1], g, t[..|t| - 1]);
    }
  }

  /** Removing a variant moves the derived price of at most the bundles that name
      it, each by its one component. */
  lemma UnlinkedSum(cat: Catalogue, variant: nat, i: nat)
    requires WellFormed(cat) && RemoveVariant(cat, variant).Ok?
    requires i < |cat.components| && cat.components[i].variant == Some(variant)
    ensures DerivedPrice(RemoveVariant(cat, variant).value, cat.components[i].bundle) == WithoutVariant(cat, i)
  {
    UnlinkedComponentSum(cat, variant, i);
  }

  lemma UnlinkedComponentSum(cat: Catalogue, variant: nat, i: nat)
    requires WellFormed(cat) && RemoveVariant(cat, variant).Ok?
    requires i < |cat.components| && cat.components[i].variant == Some(variant)
    ensures var c := cat.components[i];
            ComponentSum(RemoveVariant(cat, variant).value, c.bundle) == ComponentSum(cat, c.bundle) + Fallback(cat, c)
  {
    UnlinkedIsOneSwap(cat, variant, i);
    SwapSum(cat, i);
  }

  lemma SwapSum(cat: Catalogue, i: nat)
    requires i < |cat.components|
    ensures var c := cat.components[i];
            && Sum(ComponentTerm(cat, c.bundle), cat.components[i := c.(variant := None)])
               == ComponentSum(cat, c.bundle) + Fallback(cat, c)
  {
    var c := cat.components[i];
    SumUpdate(ComponentTerm(cat, c.bundle), cat.components, i, c.(variant := None));
    UnlinkedTerm(cat, c);
  }

  lemma UnlinkedTerm(cat: Catalogue, c: Component)
    ensures ComponentTerm(cat, c.bundle)(c.(variant := None)) == ComponentTerm(cat, c.bundle)(c) + Fallback(cat, c)
  {
  }

  /** For one bundle, unlinking the variant is unlinking its one component. */
  lemma UnlinkedIsOneSwap(cat: Catalogue, variant: nat, i: nat)
    requires WellFormed(cat) && RemoveVariant(cat, variant).Ok?
    requires i < |cat.components| && cat.components[i].variant == Some(variant)
    ensures var b := cat.components[i].bundle;
            && ComponentSum(RemoveVariant(cat, variant).value, b)
               == Sum(ComponentTerm(cat, b), cat.components[i := cat.components[i].(variant := None)])
  {
    var after, b := RemoveVariant(cat, variant).value, cat.components[i].bundle;
    var f, g := ComponentTerm(cat, b), ComponentTerm(after, b);
    var swapped := cat.components[i := cat.components[i].(variant := None)];
    forall k | 0 <= k < |swapped|
      ensures f(swapped[k]) == g(after.components[k])
    {
      if k != i && cat.components[k].bundle == b {
        OnlyOneNames(cat, variant, i, k);
      }
    }
    SumPointwise(f, swapped, g, after.components);
  }

  lemma OnlyOneNames(cat: Catalogue, variant: nat, i: nat, k: nat)
    requires WellFormed(cat) && i < |cat.components| && k < |cat.components| && i != k
    requires cat.components[i].variant == Some(variant) && cat.components[k].bundle == cat.components[i].bundle
    ensures cat.components[k].variant != Some(variant)
  {
    assert cat.components[i].product != cat.components[k].product;
    assert VariantOf(cat, variant, cat.components[i].product);
    var other := cat.components[k].variant;
    assert other.Some? ==> VariantOf(cat, other.value, cat.components[k].product);
  }

  lemma UnnamedStays(cat: Catalogue, variant: nat, b: nat)
    requires WellFormed(cat) && RemoveVariant(cat, variant).Ok? && b < |cat.products|
    requires forall i :: 0 <= i < |cat.components| && cat.components[i].bundle == b ==>
        cat.components[i].variant != Some(variant)
    ensures DerivedPrice(RemoveVariant(cat, variant).value, b) == DerivedPrice(cat, b)
  {
    var after := RemoveVariant(cat, variant).value;
    SumPointwise(ComponentTerm(cat, b), cat.components, ComponentTerm(after, b), after.components);
  }

  lemma RemoveVariantWellFormed(cat: Catalogue, variant: nat)
    requires WellFormed(cat) && RemoveVariant(cat, variant).Ok?
    ensures WellFormed(RemoveVariant(cat, variant).value)
  {
    var after := RemoveVariant(cat, variant).value;
    forall i | 0 <= i < |after.components|
      ensures after.components[i].variant.Some? ==>
          VariantOf(after, after.components[i].variant.value, after.components[i].product)
    {
      assert cat.components[i].variant.Some? ==>
          VariantOf(cat, cat.components[i].variant.value, cat.components[i].product);
    }
  }

  /** Removing a variant keeps the stored prices in line exactly when no derived
      bundle's price rests on it. */
  lemma RemoveVariantConsistentIff(cat: Catalogue, variant: nat)
    requires WellFormed(cat) && Consistent(cat) && RemoveVariant(cat, variant).Ok?
    ensures WellFormed(RemoveVariant(cat, variant).value)
    ensures Consistent(RemoveVariant(cat, variant).value)
       <==> forall i :: 0 <= i < |cat.components| ==> !RestsOn(cat, i, variant)
  {
    RemoveVariantWellFormed(cat, variant);
    var after := RemoveVariant(cat, variant).value;
    forall i | 0 <= i < |cat.components| && RestsOn(cat, i, variant)
      ensures !Agrees(after, cat.components[i].bundle)
    {
      UnlinkedSum(cat, variant, i);
    }
    if forall i :: 0 <= i < |cat.components| ==> !RestsOn(cat, i, variant) {
      forall b | 0 <= b < |cat.products|
        ensures Agrees(after, b)
      {
        NotResting(cat, variant, b);
      }
    }
  }

  lemma NotResting(cat: Catalogue, variant: nat, b: nat)
    requires WellFormed(cat) && Consistent(cat) && RemoveVariant(cat, variant).Ok? && b < |cat.products|
    requires forall i :: 0 <= i < |cat.components| ==> !RestsOn(cat, i, variant)
    ensures Agrees(RemoveVariant(cat, variant).value, b)
  {
    assert Agrees(cat, b);
    if IsDerived(cat, b) {
      var k :| 0 <= k < |cat.components| && cat.components[k].bundle == b;
      assert RemoveVariant(cat, variant).value.components[k].bundle == b;
      if i :| 0 <= i < |cat.components| && cat.components[i].bundle == b && cat.components[i].variant == Some(variant) {
        assert !RestsOn(cat, i, variant);
        UnlinkedSum(cat, variant, i);
      } else {
        UnnamedStays(cat, variant, b);
      }
    }
  }

  /** Such a variant: the bundle keeps charging 15.00 for what now adds up to 10.00. */
  lemma RemoveVariantCanDrift()
    ensures exists cat :: WellFormed(cat) && Consistent(cat) && RemoveVariant(cat, 0).Ok?
                          && !Consistent(RemoveVariant(cat, 0).value)
  {
    var shirt := Product("S", None, Variable, 1000, Manual, None, true, None);
    var pack := Product("P", None, Bundle, 1500, Derived, None, true, None);
    var c := Component(1, 0, Some(0), 1000);
    var cat := Catalogue([shirt, pack], [Some(Variant(0, Some(1500)))], [c]);
    SumAppend(ComponentTerm(cat, 1), [], c);
    assert [] + [c] == cat.components;
    RoundInt(1500);
    RoundInt(1000);
    assert HasComponent(cat, 1) by { assert cat.components[0].bundle == 1; }
    assert cat.products[0].mode == Manual;
    assert Consistent(cat);
    assert RestsOn(cat, 0, 0);
    RemoveVariantConsistentIff(cat, 0);
  }
}
