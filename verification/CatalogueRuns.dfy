/** The derived prices over whole runs of catalogue operations. */
module CatalogueRuns {
  import opened Prelude
  import opened Products
  import Import
  import Rounding

  datatype Event =
    | EvCreate(added: NewProduct)
    | EvUpdate(id: nat, edit: Edit)
    | EvAddItem(bundle: nat, item: NewComponent)
    | EvRemoveItem(index: nat)
    | EvAddVariant(product: nat, price: Option<real>)
    | EvRemoveVariant(variant: nat)
    | EvBulkChunk(writes: seq<Write>)
    | EvImportChunk(cats: Import.Categories, rows: seq<Import.Row>)

  /** Updating a row that does not exist fails. */
  predicate WritesExist(cat: Catalogue, writes: seq<Write>) {
    forall i :: 0 <= i < |writes| ==> writes[i].id < |cat.products|
  }

  function Attempt(cat: Catalogue, e: Event): Result<Catalogue, Error> {
    match e
    case EvCreate(added) => Create(cat, added)
    case EvUpdate(id, edit) => Update(cat, id, edit)
    case EvAddItem(bundle, item) => AddBundleItem(cat, bundle, item)
    case EvRemoveItem(index) => RemoveBundleItem(cat, index)
    case EvAddVariant(product, price) => AddVariant(cat, product, price)
    case EvRemoveVariant(variant) => RemoveVariant(cat, variant)
    case EvBulkChunk(writes) => if WritesExist(cat, writes) then Ok(Overwrite(cat, writes)) else Err(NotFound)
    case EvImportChunk(cats, rows) => Import.ImportChunk(cat, cats, rows)
  }

  function Step(cat: Catalogue, e: Event): Catalogue {
    var r := Attempt(cat, e);
    if r.Ok? then r.value else cat
  }

  function Exec(cat: Catalogue, run: seq<Event>): Catalogue
  {
    if |run| == 0 then cat else Step(Exec(cat, run[..|run| - 1]), run[|run| - 1])
  }

  /** A chunk of an import has each SKU once, as the classification guarantees. */
  predicate Possible(e: Event) { e.EvImportChunk? ==> Import.DistinctSkus(e.rows) }

  /** The three ways a stored derived price can go stale. */
  predicate Drifts(cat: Catalogue, e: Event) {
    match e
    case EvRemoveVariant(variant) =>
      RemoveVariant(cat, variant).Ok? && exists i :: 0 <= i < |cat.components| && RestsOn(cat, i, variant)
    case EvBulkChunk(writes) =>
        WritesExist(cat, writes) && exists b :: 0 <= b < |cat.products| && Overruled(cat, writes, b)
    case EvImportChunk(cats, rows) =>
      && Import.ImportChunk(cat, cats, rows).Ok?
      && exists b :: 0 <= b < |cat.products| && Import.RowOverrules(cat, rows, b)
    case _ => false
  }

  predicate Sound(cat: Catalogue) { WellFormed(cat) && Import.UniqueSkus(cat.products) }

  /** Exactly which operations leave a derived bundle with a stale price. */
  lemma StepConsistentIff(cat: Catalogue, e: Event)
    requires Sound(cat) && Consistent(cat) && Possible(e)
    ensures WellFormed(Step(cat, e))
    ensures Consistent(Step(cat, e)) <==> !Drifts(cat, e)
  {
    if Attempt(cat, e).Ok? {
      match e
      case EvCreate(added) => CreateConsistent(cat, added);
      case EvUpdate(id, edit) => UpdateConsistent(cat, id, edit);
      case EvAddItem(bundle, item) => AddBundleItemConsistent(cat, bundle, item);
      case EvRemoveItem(index) => RemoveBundleItemConsistent(cat, index);
      case EvAddVariant(product, price) => GrowConsistent(cat, AddVariant(cat, product, price).value);
      case EvRemoveVariant(variant) => RemoveVariantConsistentIff(cat, variant);
      case EvBulkChunk(writes) => OverwriteConsistentIff(cat, writes);
      case EvImportChunk(cats, rows) => Import.ImportChunkConsistentIff(cat, cats, rows);
    }
  }

  // ----- SKUs stay unique -----

  predicate SameSkus(a: seq<Product>, b: seq<Product>) {
    |a| == |b| && forall i :: 0 <= i < |a| ==> a[i].sku == b[i].sku
  }

  lemma RecalculateKeepsSkus(cat: Catalogue, ids: set<nat>)
    requires WellFormed(cat)
    ensures SameSkus(RecalculateFor(cat, ids).products, cat.products)
  {
    RecalculateForWellFormed(cat, ids);
    forall id | 0 <= id < |cat.products|
      ensures RecalculateFor(cat, ids).products[id].sku == cat.products[id].sku
    {
      RecalculateForAt(cat, ids, id);
    }
  }

  lemma UpdateKeepsSkus(cat: Catalogue, id: nat, e: Edit)
    requires WellFormed(cat) && Update(cat, id, e).Ok?
    ensures SameSkus(Update(cat, id, e).value.products, cat.products)
  {
    var mid := cat.(products := cat.products[id := Edited(cat.products[id], e)]);
    KindsStay(cat, mid);
    RecalculateOneSettles(mid, id);
    RecalculateKeepsSkus(RecalculateOne(mid, id), {id});
  }

  lemma OverwriteKeepsSkus(cat: Catalogue, writes: seq<Write>)
    requires WellFormed(cat)
    ensures SameSkus(Overwrite(cat, writes).products, cat.products)
  {
    var mid := WritePrices(cat, writes);
    WritePricesShape(cat, writes);
    forall id | 0 <= id < |cat.products|
      ensures mid.products[id].kind == cat.products[id].kind && mid.products[id].sku == cat.products[id].sku
    {
      WritePricesAt(cat, writes, id);
    }
    KindsStay(cat, mid);
    RecalculateKeepsSkus(mid, Ids(writes));
  }

  lemma {:induction false} InsertKeepsProducts(cat: Catalogue, bundle: nat, cs: seq<NewComponent>)
    requires InsertComponents(cat, bundle, cs).Ok?
    ensures InsertComponents(cat, bundle, cs).value.products == cat.products
    decreases |cs|
  {
    if |cs| > 0 {
      InsertKeepsProducts(InsertComponent(cat, bundle, cs[0]).value, bundle, cs[1..]);
    }
  }

  lemma CreateKeepsSkus(cat: Catalogue, p: NewProduct)
    requires Import.UniqueSkus(cat.products) && Create(cat, p).Ok?
    ensures Import.UniqueSkus(Create(cat, p).value.products)
  {
    var id := |cat.products|;
    var row := Product(p.sku, p.barcode, p.kind, Rounding.ColumnRound(p.price), Manual, None, true, p.category);
    InsertKeepsProducts(cat.(products := cat.products + [row],
                             variants := cat.variants + StoredVariants(id, p.variants)),
                        id, p.components);
  }

  lemma StepSound(cat: Catalogue, e: Event)
    requires Sound(cat) && Consistent(cat) && Possible(e)
    ensures Sound(Step(cat, e))
  {
    StepConsistentIff(cat, e);
    if Attempt(cat, e).Ok? {
      match e
      case EvCreate(added) => CreateKeepsSkus(cat, added);
      case EvUpdate(id, edit) => UpdateKeepsSkus(cat, id, edit);
      case EvBulkChunk(writes) => OverwriteKeepsSkus(cat, writes);
      case EvImportChunk(cats, rows) => Import.ChunkSkus(cat, cats, rows);
      case _ =>
    }
  }

  /** In any run without one of those three, every bundle in derived mode has a
      component and its stored price is the rounded, discounted component sum. */
  lemma {:induction false} DerivedPricesStayTrue(cat: Catalogue, run: seq<Event>)
    requires Sound(cat) && Consistent(cat)
    requires forall k :: 0 <= k < |run| ==> Possible(run[k]) && !Drifts(Exec(cat, run[..k]), run[k])
    ensures Sound(Exec(cat, run)) && Consistent(Exec(cat, run))
    decreases |run|
  {
    if |run| > 0 {
      var n := |run| - 1;
      var before := run[..n];
      assert forall k :: 0 <= k < n ==> before[..k] == run[..k];
      DerivedPricesStayTrue(cat, before);
      assert run[..n] == before;
      StepConsistentIff(Exec(cat, before), run[n]);
      StepSound(Exec(cat, before), run[n]);
    }
  }
}
