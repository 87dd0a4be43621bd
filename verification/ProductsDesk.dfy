/** The product services over the tables they write, including what each of them
    pushes to the online stores. */
module ProductsDesk {
  import opened Prelude
  import opened Rounding
  import opened Sums
  import opened Products
  import opened BulkPrice
  import CatalogueRuns
  import Import
  import ProductWrites

  predicate Outcome(spec: Result<Catalogue, Error>, before: Catalogue, after: Catalogue, error: Option<Error>) {
    match spec
    case Ok(s) => error == None && after == s
    case Err(e) => error == Some(e) && after == before
  }

  /** Pushing the reported prices in order tells the stores every change: the last
      report of a product is its stored price, and an unreported one is unchanged. */
  predicate Reported(before: seq<Product>, reports: seq<Write>, after: seq<Product>) {
    && |before| == |after|
    && (forall id :: 0 <= id < |before| ==> LastPrice(reports, id, before[id].price) == after[id].price)
    && forall i :: 0 <= i < |reports| ==> reports[i].id < |after|
  }

  lemma {:induction false} LastPriceConcat(a: seq<Write>, b: seq<Write>, id: nat, current: int)
    ensures LastPrice(a + b, id, current) == LastPrice(b, id, LastPrice(a, id, current))
    decreases |b|
  {
    if |b| == 0 {
      assert a + b == a;
    } else {
      assert (a + b)[..|a| + |b| - 1] == a + b[..|b| - 1];
      LastPriceConcat(a, b[..|b| - 1], id, current);
    }
  }

  lemma ReportedChains(before: seq<Product>, a: seq<Write>, mid: seq<Product>, b: seq<Write>, after: seq<Product>)
    requires Reported(before, a, mid) && Reported(mid, b, after)
    ensures Reported(before, a + b, after)
  {
    forall id | 0 <= id < |before|
      ensures LastPrice(a + b, id, before[id].price) == after[id].price
    {
      LastPriceConcat(a, b, id, before[id].price);
    }
  }

  lemma {:induction false} LastPriceIgnoresCurrent(writes: seq<Write>, id: nat, x: int, y: int)
    requires exists i :: 0 <= i < |writes| && writes[i].id == id
    ensures LastPrice(writes, id, x) == LastPrice(writes, id, y)
    decreases |writes|
  {
    if writes[|writes| - 1].id != id {
      var i :| 0 <= i < |writes| && writes[i].id == id;
      assert writes[..|writes| - 1][i].id == id;
      LastPriceIgnoresCurrent(writes[..|writes| - 1], id, x, y);
    }
  }

  /** `new Map` over the reports: the last price of each product wins. */
  method LastPrices(reports: seq<Write>) returns (last: map<nat, int>)
    ensures forall id :: id in last <==> exists i :: 0 <= i < |reports| && reports[i].id == id
    ensures forall id :: id in last ==> last[id] == LastPrice(reports, id, 0)
  {
    last := map[];
    for k := 0 to |reports|
      invariant forall id :: id in last <==> exists i :: 0 <= i < k && reports[i].id == id
      invariant forall id :: id in last ==> last[id] == LastPrice(reports[..k], id, 0)
    {
      assert reports[..k + 1][..k] == reports[..k];
      last := last[reports[k].id := reports[k].price];
    }
    assert reports[..|reports|] == reports;
  }

  /** Every derived bundle stores its derived price. */
  predicate Valid(cat: Catalogue) { CatalogueRuns.Sound(cat) && Consistent(cat) }

  predicate Kept(before: Catalogue, e: CatalogueRuns.Event, after: Catalogue) {
    Valid(before) && CatalogueRuns.Possible(e) && !CatalogueRuns.Drifts(before, e) ==> Valid(after)
  }

  lemma OutcomeKeepsValid(before: Catalogue, e: CatalogueRuns.Event, after: Catalogue, error: Option<Error>)
    requires Outcome(CatalogueRuns.Attempt(before, e), before, after, error)
    ensures Kept(before, e, after)
  {
    assert after == CatalogueRuns.Step(before, e);
    if Valid(before) && CatalogueRuns.Possible(e) {
      CatalogueRuns.StepConsistentIff(before, e);
      CatalogueRuns.StepSound(before, e);
    }
  }

  class PriceList {
    var products: seq<Product>
    var variants: seq<Option<Variant>>
    var components: seq<Component>

    function State(): Catalogue
      reads this
    {
      Catalogue.Catalogue(products, variants, components)
    }

    constructor ()
      ensures State() == Catalogue.Catalogue([], [], [])
    {
      products, variants, components := [], [], [];
    }

    /** The loop over the components of one bundle. */
    method SumComponents(bundle: nat) returns (sum: int, empty: bool)
      ensures sum == ComponentSum(State(), bundle) && (empty <==> !HasComponent(State(), bundle))
    {
      sum, empty := 0, true;
      for i := 0 to |components|
        invariant sum == Sum(ComponentTerm(State(), bundle), components[..i])
        invariant empty <==> forall j :: 0 <= j < i ==> components[j].bundle != bundle
      {
        assert components[..i + 1] == components[..i] + [components[i]];
        SumAppend(ComponentTerm(State(), bundle), components[..i], components[i]);
        if components[i].bundle == bundle {
          empty := false;
          sum := sum + UnitPrice(State(), components[i]) * components[i].quantity;
        }
      }
      assert components[..|components|] == components;
    }

    /** computeDerivedPrice: nothing for an empty bundle, instead of a price of zero. */
    method ComputeDerivedPrice(bundle: nat, discount: Option<int>) returns (price: Option<int>)
      ensures price == if HasComponent(State(), bundle)
          then Some(Discounted(ComponentSum(State(), bundle), discount)) else None
      ensures price.Some? ==>
                ProductWrites.DiscountTaken(price.value, ProductWrites.PartsOf(State(), bundle, components), discount)
    {
      var sum, empty := SumComponents(bundle);
      ProductWrites.SumIsTaken(State(), bundle, discount);
      price := if empty then None else Some(Discounted(sum, discount));
    }

    method RecalculateBundle(id: nat) returns (reports: seq<Write>)
      modifies this
      ensures State() == RecalculateOne(old(State()), id)
      ensures Reported(old(products), reports, products)
      ensures IsDerived(old(State()), id) && HasComponent(old(State()), id) ==>
                && |products| == |old(products)|
                && var parts := ProductWrites.PartsOf(old(State()), id, components);
                   ProductWrites.DiscountTaken(products[id].price, parts, products[id].discount)
    {
      if IsDerived(State(), id) && HasComponent(State(), id) { ProductWrites.RecalculationTakesDiscount(State(), id); }
      reports := [];
      if id >= |products| || products[id].kind != Bundle || products[id].mode != Derived { return; }
      var price := ComputeDerivedPrice(id, products[id].discount);
      if price.None? {
        products := products[id := products[id].(mode := Manual)];
      } else if products[id].price != price.value {
        products := products[id := products[id].(price := price.value)];
        reports := [Write(id, price.value)];
      }
    }

    method FindAffected(ids: set<nat>) returns (affected: seq<nat>)
      ensures affected == Affected(State(), components, ids)
    {
      affected := [];
      for i := 0 to |components|
        invariant affected == Affected(State(), components[..i], ids)
      {
        assert components[..i + 1][..i] == components[..i];
        var c := components[i];
        if c.product in ids && c.bundle < |products| && products[c.bundle].mode == Derived && c.bundle !in affected {
          affected := affected + [c.bundle];
        }
      }
      assert components[..|components|] == components;
    }

    method RecalculateForComponents(ids: set<nat>) returns (reports: seq<Write>)
      modifies this
      ensures State() == RecalculateFor(old(State()), ids)
      ensures Reported(old(products), reports, products)
    {
      var affected := FindAffected(ids);
      reports := [];
      for i := 0 to |affected|
        invariant State() == RecalculateAll(old(State()), affected[..i])
        invariant Reported(old(products), reports, products)
      {
        assert affected[..i + 1][..i] == affected[..i];
        ghost var mid := products;
        var more := RecalculateBundle(affected[i]);
        ReportedChains(old(products), reports, mid, more, products);
        reports := reports + more;
      }
      assert affected[..|affected|] == affected;
    }

    method UpdateProduct(id: nat, e: Edit) returns (error: Option<Error>)
      modifies this
      ensures Outcome(Update(old(State()), id, e), old(State()), State(), error)
      ensures error.None? && WellFormed(old(State())) ==>
                && ProductWrites.PriceFollows(old(State()), id, e, State())
                && ProductWrites.EditFollows(old(products)[id], e, products[id])
                && ProductWrites.OthersFollow(old(State()), id, e, State())
    {
      if WellFormed(State()) && Update(State(), id, e).Ok? { ProductWrites.EditIsAsAsked(State(), id, e); }
      error := CheckEdit(State(), id, e);
      if error.Some? { return; }
      products := products[id := Edited(products[id], e)];
      var own := RecalculateBundle(id);
      if e.price.Some? {
        var others := RecalculateForComponents({id});
      }
    }

    method CreateProduct(p: NewProduct) returns (error: Option<Error>)
      modifies this
      ensures Outcome(Create(old(State()), p), old(State()), State(), error)
    {
      if !ShapeAllowed(p) { return Some(NoComponents); }
      var id := |products|;
      if SkuTaken(State(), p.sku) || BarcodeTaken(State(), p.barcode, id) { return Some(Conflict); }
      var row := Product(p.sku, p.barcode, p.kind, ColumnRound(p.price), Manual, None, true, p.category);
      var start := State().(products := products + [row], variants := variants + StoredVariants(id, p.variants));
      var current := start;
      for i := 0 to |p.components|
        invariant State() == old(State())
        invariant InsertComponents(start, id, p.components) == InsertComponents(current, id, p.components[i..])
      {
        assert p.components[i..][1..] == p.components[i + 1..];
        var next := InsertComponent(current, id, p.components[i]);
        if next.Err? { return Some(next.error); }
        current := next.value;
      }
      products, variants, components := current.products, current.variants, current.components;
      error := None;
    }

    method CreateVariant(product: nat, price: Option<real>) returns (error: Option<Error>)
      modifies this
      ensures Outcome(AddVariant(old(State()), product, price), old(State()), State(), error)
    {
      if product >= |products| { return Some(NotFound); }
      if products[product].kind != Variable { return Some(NotVariable); }
      variants := variants + StoredVariants(product, [price]);
      error := None;
    }

    method AddItem(bundle: nat, item: NewComponent) returns (error: Option<Error>)
      modifies this
      ensures Outcome(AddBundleItem(old(State()), bundle, item), old(State()), State(), error)
    {
      if bundle >= |products| { return Some(NotFound); }
      if products[bundle].kind != Bundle { return Some(NotABundle); }
      var added := InsertComponent(State(), bundle, item);
      if added.Err? { return Some(added.error); }
      components := added.value.components;
      var moved := RecalculateBundle(bundle);
      error := None;
    }

    method RemoveItem(index: nat) returns (error: Option<Error>)
      modifies this
      ensures Outcome(RemoveBundleItem(old(State()), index), old(State()), State(), error)
    {
      if index >= |components| { return Some(NotFound); }
      var bundle := components[index].bundle;
      components := components[..index] + components[index + 1..];
      var moved := RecalculateBundle(bundle);
      error := None;
    }

    method DeleteVariant(variant: nat) returns (error: Option<Error>)
      modifies this
      ensures Outcome(RemoveVariant(old(State()), variant), old(State()), State(), error)
    {
      if variant >= |variants| || variants[variant].None? { return Some(NotFound); }
      variants := variants[variant := None];
      components := Unlinked(components, variant);
      error := None;
    }

    // ----- Bulk update -----

    method Snapshot(category: Option<nat>) returns (targets: seq<Target>)
      ensures IsSnapshot(State(), category, targets)
    {
      targets := [];
      for id := 0 to |products|
        invariant forall i :: 0 <= i < |targets| ==>
          && targets[i].id < id && IsTarget(State(), category, targets[i].id)
          && targets[i].price == products[targets[i].id].price
        invariant forall k :: 0 <= k < id && IsTarget(State(), category, k) ==>
            exists i :: 0 <= i < |targets| && targets[i].id == k
        invariant forall i, j :: 0 <= i < j < |targets| ==> targets[i].id != targets[j].id
      {
        if IsTarget(State(), category, id) {
          ghost var before := targets;
          targets := targets + [Target(id, products[id].price)];
          assert targets[|before|].id == id;
          assert forall i :: 0 <= i < |before| ==> targets[i] == before[i];
        }
      }
    }

    /** One transaction: the prices of a chunk, then its bundles. */
    method ApplyChunk(chunk: seq<Write>) returns (reports: seq<Write>)
      requires forall i :: 0 <= i < |chunk| ==> chunk[i].id < |products|
      modifies this
      ensures State() == Overwrite(old(State()), chunk)
      ensures Reported(old(products), reports, products)
      ensures |chunk| <= |reports| && reports[..|chunk|] == chunk
    {
      for i := 0 to |chunk|
        invariant |products| == |old(products)|
        invariant State() == WritePrices(old(State()), chunk[..i])
        invariant Reported(old(products), chunk[..i], products)
      {
        assert chunk[..i + 1][..i] == chunk[..i];
        products := products[chunk[i].id := products[chunk[i].id].(price := chunk[i].price)];
      }
      assert chunk[..|chunk|] == chunk;
      ghost var mid := products;
      var moved := RecalculateForComponents(Ids(chunk));
      ReportedChains(old(products), chunk, mid, moved, products);
      reports := chunk + moved;
    }

    /** The chunk loop of apply. */
    method ApplyAll(writes: seq<Write>) returns (updated: nat, reports: seq<Write>)
      requires forall i :: 0 <= i < |writes| ==> writes[i].id < |products|
      modifies this
      ensures State() == ApplyChunks(old(State()), writes, CHUNK_SIZE)
      ensures Reported(old(products), reports, products) && Covers(reports, writes) && updated == |writes|
    {
      reports := [];
      var i := 0;
      updated := 0;
      while i < |writes|
        invariant 0 <= i <= |writes| && updated == i && |products| == |old(products)|
        invariant ApplyChunks(State(), writes[i..], CHUNK_SIZE) == ApplyChunks(old(State()), writes, CHUNK_SIZE)
        invariant Reported(old(products), reports, products)
        invariant Covers(reports, writes[..i])
      {
        var n := if i + CHUNK_SIZE <= |writes| then CHUNK_SIZE else |writes| - i;
        NextChunk(State(), writes, i, n);
        ghost var before := products;
        var more := ApplyChunk(writes[i..i + n]);
        ReportedChains(old(products), reports, before, more, products);
        CoversMore(reports, writes, i, n, more);
        reports := reports + more;
        i := i + n;
        updated := updated + n;
      }
      assert writes[..i] == writes && writes[i..] == [];
    }

    /** apply: every product whose price changed is pushed once, with the price it
        ends with. */
    method ApplyBulk(category: Option<nat>, rule: Rule)
      returns (updated: nat, targets: seq<Target>, pushed: map<nat, int>)
      modifies this
      ensures IsSnapshot(old(State()), category, targets) && updated == |targets|
      ensures State() == ApplyChunks(old(State()), WritesOf(targets, rule), CHUNK_SIZE)
      ensures |products| == |old(products)|
      ensures forall id :: 0 <= id < |products| && products[id].price != old(products)[id].price ==> id in pushed
      ensures forall id :: id in pushed ==> id < |products| && pushed[id] == products[id].price
      ensures forall i :: 0 <= i < |targets| ==> targets[i].id in pushed
      ensures WellFormed(old(State())) ==>
                forall i :: 0 <= i < |targets| && targets[i].price >= 0 ==>
                  FollowsRule(targets[i].price, rule, products[targets[i].id].price)
    {
      ghost var before := State();
      targets := Snapshot(category);
      var writes := WritesOf(targets, rule);
      var reports: seq<Write>;
      updated, reports := ApplyAll(writes);
      pushed := LastPrices(reports);
      PushedAreFinal(old(products), reports, products, pushed);
      forall j | 0 <= j < |targets|
        ensures targets[j].id in pushed
      {
        assert Reports(reports, writes[j].id);
      }
      if WellFormed(before) { TargetsFollowRule(before, category, targets, rule, CHUNK_SIZE); }
    }

    // ----- Import -----

    /** One transaction of the import; a clash of barcodes rolls it back. */
    method ImportRows(cats: Import.Categories, rows: seq<Import.Row>) returns (error: Option<Error>)
      modifies this
      ensures Outcome(Import.ImportChunk(old(State()), cats, rows), old(State()), State(), error)
    {
      var current := products;
      for i := 0 to |rows|
        invariant State() == old(State())
        invariant Import.WriteRows(products, cats, rows[..i]) == Some(current)
      {
        assert rows[..i + 1][..i] == rows[..i];
        var next := Import.WriteRow(current, cats, rows[i]);
        if next.None? {
          StaysRefused(products, cats, rows, i + 1);
          return Some(Conflict);
        }
        current := next.value;
      }
      assert rows[..|rows|] == rows;
      products := current;
      var moved := RecalculateForComponents(Import.Named(products, rows));
      error := None;
    }

    /** commit, once the rows are classified: chunks of 200, stopping at the first
        that fails. */
    method ImportFile(cats: Import.Categories, rows: seq<Import.Row>) returns (done: bool)
      modifies this
      ensures (State(), done) == Import.CommitChunks(old(State()), cats, rows, Import.CHUNK_SIZE)
    {
      var i := 0;
      while i < |rows|
        invariant 0 <= i <= |rows|
        invariant Import.CommitChunks(State(), cats, rows[i..], Import.CHUNK_SIZE)
               == Import.CommitChunks(old(State()), cats, rows, Import.CHUNK_SIZE)
      {
        var n := if i + Import.CHUNK_SIZE <= |rows| then Import.CHUNK_SIZE else |rows| - i;
        assert rows[i..][..n] == rows[i..i + n] && rows[i..][n..] == rows[i + n..];
        var error := ImportRows(cats, rows[i..i + n]);
        if error.Some? { return false; }
        i := i + n;
      }
      done := true;
    }

    // ----- Any of them -----

    /** The dispatch by kind of request. */
    method Dispatch(e: CatalogueRuns.Event) returns (error: Option<Error>)
      modifies this
      ensures Outcome(CatalogueRuns.Attempt(old(State()), e), old(State()), State(), error)
    {
      match e
      case EvCreate(added) => error := CreateProduct(added);
      case EvUpdate(id, edit) => error := UpdateProduct(id, edit);
      case EvAddItem(bundle, item) => error := AddItem(bundle, item);
      case EvRemoveItem(index) => error := RemoveItem(index);
      case EvAddVariant(product, price) => error := CreateVariant(product, price);
      case EvRemoveVariant(variant) => error := DeleteVariant(variant);
      case EvBulkChunk(writes) =>
        if CatalogueRuns.WritesExist(State(), writes) {
          var reports := ApplyChunk(writes);
          error := None;
        } else {
          error := Some(NotFound);
        }
      case EvImportChunk(cats, rows) => error := ImportRows(cats, rows);
    }

    /** Whatever is requested, unless it drifts, every derived bundle still stores
        its derived price. */
    method Process(e: CatalogueRuns.Event) returns (error: Option<Error>)
      modifies this
      ensures Outcome(CatalogueRuns.Attempt(old(State()), e), old(State()), State(), error)
      ensures Kept(old(State()), e, State())
    {
      ghost var before := State();
      error := Dispatch(e);
      OutcomeKeepsValid(before, e, State(), error);
    }
  }

  lemma {:induction false} StaysRefused(products: seq<Product>, cats: Import.Categories, rows: seq<Import.Row>, n: nat)
    requires n <= |rows| && Import.WriteRows(products, cats, rows[..n]).None?
    ensures Import.WriteRows(products, cats, rows).None?
  {
    assert rows == rows[..n] + rows[n..];
    Import.WriteRowsConcat(products, cats, rows[..n], rows[n..]);
  }

  predicate Reports(reports: seq<Write>, id: nat) { exists r :: 0 <= r < |reports| && reports[r].id == id }

  predicate Covers(reports: seq<Write>, writes: seq<Write>) {
    forall j :: 0 <= j < |writes| ==> Reports(reports, writes[j].id)
  }

  lemma CoversMore(reports: seq<Write>, writes: seq<Write>, i: nat, n: nat, more: seq<Write>)
    requires i + n <= |writes| && Covers(reports, writes[..i]) && n <= |more| && more[..n] == writes[i..i + n]
    ensures Covers(reports + more, writes[..i + n])
  {
    var all, done := reports + more, writes[..i + n];
    forall j | 0 <= j < |done|
      ensures Reports(all, done[j].id)
    {
      if j >= i {
        assert more[..n][j - i] == writes[i..i + n][j - i];
        assert all[|reports| + (j - i)].id == done[j].id;
      } else {
        assert Reports(reports, writes[..i][j].id);
        var r :| 0 <= r < |reports| && reports[r].id == done[j].id;
        assert all[r] == reports[r];
      }
    }
  }

  lemma NextChunk(cat: Catalogue, writes: seq<Write>, i: nat, n: nat)
    requires i < |writes| && n == (if i + CHUNK_SIZE <= |writes| then CHUNK_SIZE else |writes| - i)
    ensures ApplyChunks(cat, writes[i..], CHUNK_SIZE)
         == ApplyChunks(Overwrite(cat, writes[i..i + n]), writes[i + n..], CHUNK_SIZE)
  {
    assert writes[i..][..n] == writes[i..i + n] && writes[i..][n..] == writes[i + n..];
    if |writes[i..]| <= CHUNK_SIZE {
      assert writes[i..i + n] == writes[i..];
    }
  }

  lemma PushedAreFinal(before: seq<Product>, reports: seq<Write>, after: seq<Product>, pushed: map<nat, int>)
    requires Reported(before, reports, after)
    requires forall id :: id in pushed <==> exists i :: 0 <= i < |reports| && reports[i].id == id
    requires forall id :: id in pushed ==> pushed[id] == LastPrice(reports, id, 0)
    ensures forall id :: 0 <= id < |after| && after[id].price != before[id].price ==> id in pushed
    ensures forall id :: id in pushed ==> id < |after| && pushed[id] == after[id].price
  {
    forall id | 0 <= id < |after| && id !in pushed
      ensures after[id].price == before[id].price
    {
      Unwritten(reports, id, before[id].price);
    }
    forall id | id in pushed
      ensures id < |after| && pushed[id] == after[id].price
    {
      LastPriceIgnoresCurrent(reports, id, 0, before[id].price);
    }
  }
}
