/** The spreadsheet import: the rows are classified once for the preview and the
    commit, then written by SKU in chunks. */
module Import {
  import opened Prelude
  import opened Rounding
  import opened Products

  const CHUNK_SIZE := 200
  const DEMO_PRODUCT_LIMIT := 20

  /** A parsed row; the category name stands for its lower-case form. */
  datatype Row = Row(sku: string, barcode: Option<string>, category: Option<string>, price: real)

  datatype Parsed = Bad | Good(data: Row)

  datatype Action = CreateRow | UpdateRow | ErrorRow

  type Categories = map<string, nat>

  predicate HasSku(products: seq<Product>, sku: string) {
    exists k :: 0 <= k < |products| && products[k].sku == sku
  }

  predicate SeenBefore(parsed: seq<Parsed>, i: nat)
    requires i < |parsed| && parsed[i].Good?
  {
    exists j :: 0 <= j < i && parsed[j].Good? && parsed[j].data.sku == parsed[i].data.sku
  }

  function ActionOf(products: seq<Product>, cats: Categories, parsed: seq<Parsed>, i: nat): Action
    requires i < |parsed|
  {
    if parsed[i].Bad? || SeenBefore(parsed, i) then ErrorRow else
      var row := parsed[i].data;
      if row.category.Some? && row.category.value !in cats then ErrorRow
      else if HasSku(products, row.sku) then UpdateRow
      else CreateRow
  }

  /** classifyRows. */
  method ClassifyRows(products: seq<Product>, cats: Categories, parsed: seq<Parsed>) returns (results: seq<Action>)
    ensures |results| == |parsed|
    ensures forall i :: 0 <= i < |parsed| ==> results[i] == ActionOf(products, cats, parsed, i)
  {
    var existing := set k | 0 <= k < |products| :: products[k].sku;
    var seen: set<string> := {};
    results := [];
    for i := 0 to |parsed|
      invariant |results| == i
      invariant forall sku :: sku in seen <==> exists j :: 0 <= j < i && parsed[j].Good? && parsed[j].data.sku == sku
      invariant forall j :: 0 <= j < i ==> results[j] == ActionOf(products, cats, parsed, j)
    {
      if parsed[i].Bad? {
        results := results + [ErrorRow];
      } else {
        var row := parsed[i].data;
        assert row.sku in seen <==> SeenBefore(parsed, i);
        assert row.sku in existing <==> HasSku(products, row.sku);
        if row.sku in seen {
          results := results + [ErrorRow];
        } else {
          seen := seen + {row.sku};
          if row.category.Some? && row.category.value !in cats {
            results := results + [ErrorRow];
          } else {
            results := results + [if row.sku in existing then UpdateRow else CreateRow];
          }
        }
      }
    }
  }

  function Count(products: seq<Product>, cats: Categories, parsed: seq<Parsed>, action: Action, n: nat): nat
    requires n <= |parsed|
  {
    if n == 0 then 0 else
      Count(products, cats, parsed, action, n - 1)
          + (if ActionOf(products, cats, parsed, n - 1) == action then 1 else 0)
  }

  /** The rows the commit writes, out of the first n. */
  function ValidRows(products: seq<Product>, cats: Categories, parsed: seq<Parsed>, n: nat): seq<Row>
    requires n <= |parsed|
  {
    if n == 0 then [] else
      ValidRows(products, cats, parsed, n - 1)
      + (if ActionOf(products, cats, parsed, n - 1) != ErrorRow then [parsed[n - 1].data] else [])
  }

  // ----- Writing -----

  /** findFirst by SKU. */
  function FindSku(products: seq<Product>, sku: string): Option<nat>
  {
    if |products| == 0 then None else
      var n := |products| - 1;
      var before := FindSku(products[..n], sku);
      if before.Some? then before else if products[n].sku == sku then Some(n) else None
  }

  function CategoryOf(cats: Categories, row: Row): Option<nat> {
    if row.category.Some? && row.category.value in cats then Some(cats[row.category.value]) else None
  }

  /** A category the row does not give is left as it was; a barcode is not. */
  function Rewritten(p: Product, cats: Categories, row: Row): Product {
    p.(barcode := row.barcode, price := ColumnRound(row.price),
       category := if CategoryOf(cats, row).Some? then CategoryOf(cats, row) else p.category)
  }

  function Fresh(cats: Categories, row: Row): Product {
    Product(row.sku, row.barcode, Simple, ColumnRound(row.price), Manual, None, true, CategoryOf(cats, row))
  }

  predicate Clashes(products: seq<Product>, row: Row, own: nat) {
    row.barcode.Some? && exists k :: 0 <= k < |products| && k != own && products[k].barcode == row.barcode
  }

  /** The unique index on the barcode makes the statement, and so the chunk, fail. */
  function WriteRow(products: seq<Product>, cats: Categories, row: Row): Option<seq<Product>> {
    var found := FindSku(products, row.sku);
    var id := if found.Some? && found.value < |products| then found.value else |products|;
    if Clashes(products, row, id) then None
    else if id < |products| then Some(products[id := Rewritten(products[id], cats, row)])
    else Some(products + [Fresh(cats, row)])
  }

  function WriteRows(products: seq<Product>, cats: Categories, rows: seq<Row>): Option<seq<Product>>
  {
    if |rows| == 0 then Some(products) else
      var before := WriteRows(products, cats, rows[..|rows| - 1]);
      if before.None? then None else WriteRow(before.value, cats, rows[|rows| - 1])
  }

  /** The products the rows name. */
  function Named(products: seq<Product>, rows: seq<Row>): set<nat> {
    set id | 0 <= id < |products| && exists i :: 0 <= i < |rows| && rows[i].sku == products[id].sku
  }

  function ImportChunk(cat: Catalogue, cats: Categories, rows: seq<Row>): Result<Catalogue, Error> {
    var written := WriteRows(cat.products, cats, rows);
    if written.None? then Err(Conflict)
    else Ok(RecalculateFor(cat.(products := written.value), Named(written.value, rows)))
  }

  /** Chunk by chunk; a chunk that fails keeps the chunks before it. */
  function CommitChunks(cat: Catalogue, cats: Categories, rows: seq<Row>, size: nat): (Catalogue, bool)
    requires size > 0
    decreases |rows|
  {
    if |rows| == 0 then (cat, true) else
      var n := if |rows| <= size then |rows| else size;
      var chunk := ImportChunk(cat, cats, rows[..n]);
      if chunk.Err? then (cat, false) else CommitChunks(chunk.value, cats, rows[n..], size)
  }

  /** assertImportQuota, with the products counted before anything is written. */
  predicate WithinQuota(isDemo: bool, products: nat, adding: nat) {
    !isDemo || adding == 0 || products + adding <= DEMO_PRODUCT_LIMIT
  }

  // ----- Classification -----

  lemma {:induction false} CountsAddUp(products: seq<Product>, cats: Categories, parsed: seq<Parsed>, n: nat)
    requires n <= |parsed|
    ensures Count(products, cats, parsed, CreateRow, n) + Count(products, cats, parsed, UpdateRow, n)
          + Count(products, cats, parsed, ErrorRow, n) == n
  {
    if n > 0 {
      CountsAddUp(products, cats, parsed, n - 1);
    }
  }

  predicate DistinctSkus(rows: seq<Row>) {
    forall i, j :: 0 <= i < j < |rows| ==> rows[i].sku != rows[j].sku
  }

  predicate UniqueSkus(products: seq<Product>) {
    forall i, j :: 0 <= i < j < |products| ==> products[i].sku != products[j].sku
  }

  lemma {:induction false} ValidRowsComeFrom(products: seq<Product>, cats: Categories, parsed: seq<Parsed>, n: nat,
                                             k: nat)
    requires n <= |parsed| && k < |ValidRows(products, cats, parsed, n)|
    ensures exists i :: 0 <= i < n && parsed[i].Good? && parsed[i].data == ValidRows(products, cats, parsed, n)[k]
  {
    if k < |ValidRows(products, cats, parsed, n - 1)| {
      ValidRowsComeFrom(products, cats, parsed, n - 1, k);
    } else {
      assert parsed[n - 1].data == ValidRows(products, cats, parsed, n)[k];
    }
  }

  /** Every SKU is valid in at most one row. */
  lemma {:induction false} ValidSkusAreDistinct(products: seq<Product>, cats: Categories, parsed: seq<Parsed>, n: nat)
    requires n <= |parsed|
    ensures DistinctSkus(ValidRows(products, cats, parsed, n))
  {
    if n > 0 {
      ValidSkusAreDistinct(products, cats, parsed, n - 1);
      var before := ValidRows(products, cats, parsed, n - 1);
      if ActionOf(products, cats, parsed, n - 1) != ErrorRow {
        forall k | 0 <= k < |before|
          ensures before[k].sku != parsed[n - 1].data.sku
        {
          ValidRowsComeFrom(products, cats, parsed, n - 1, k);
        }
      }
    }
  }

  /** The rows whose SKU the catalogue does not have yet. */
  function NewRows(products: seq<Product>, rows: seq<Row>): seq<Row>
  {
    if |rows| == 0 then [] else
      NewRows(products, rows[..|rows| - 1])
          + (if HasSku(products, rows[|rows| - 1].sku) then [] else [rows[|rows| - 1]])
  }

  lemma {:induction false} CreateCount(products: seq<Product>, cats: Categories, parsed: seq<Parsed>, n: nat)
    requires n <= |parsed|
    ensures |NewRows(products, ValidRows(products, cats, parsed, n))| == Count(products, cats, parsed, CreateRow, n)
  {
    if n > 0 {
      CreateCount(products, cats, parsed, n - 1);
      var before, after := ValidRows(products, cats, parsed, n - 1), ValidRows(products, cats, parsed, n);
      if ActionOf(products, cats, parsed, n - 1) != ErrorRow {
        assert after[..|after| - 1] == before;
      } else {
        assert after == before;
      }
    }
  }

  // ----- What the rows do to the products -----

  lemma {:induction false} FindSkuFound(products: seq<Product>, sku: string)
    ensures var r := FindSku(products, sku);
            && (r.Some? ==> r.value < |products| && products[r.value].sku == sku)
            && (r.None? <==> !HasSku(products, sku))
    decreases |products|
  {
    if |products| > 0 {
      var n := |products| - 1;
      FindSkuFound(products[..n], sku);
      if HasSku(products[..n], sku) {
        var k :| 0 <= k < n && products[..n][k].sku == sku;
        assert products[k].sku == sku;
      }
    }
  }

  predicate AnySku(rows: seq<Row>, sku: string) { exists j :: 0 <= j < |rows| && rows[j].sku == sku }

  lemma AnyAppend(rows: seq<Row>, row: Row, sku: string)
    ensures AnySku(rows + [row], sku) <==> AnySku(rows, sku) || row.sku == sku
  {
    if j :| 0 <= j < |rows| && rows[j].sku == sku {
      assert (rows + [row])[j].sku == sku;
    }
    assert (rows + [row])[|rows|] == row;
  }

  function RowOf(rows: seq<Row>, sku: string): Option<Row>
  {
    if |rows| == 0 then None
    else if rows[|rows| - 1].sku == sku then Some(rows[|rows| - 1])
    else RowOf(rows[..|rows| - 1], sku)
  }

  lemma {:induction false} RowOfFound(rows: seq<Row>, sku: string)
    ensures RowOf(rows, sku).Some? <==> AnySku(rows, sku)
    ensures RowOf(rows, sku).Some? ==>
        exists j :: 0 <= j < |rows| && rows[j].sku == sku && RowOf(rows, sku).value == rows[j]
    decreases |rows|
  {
    if |rows| > 0 {
      RowOfFound(rows[..|rows| - 1], sku);
      AnyAppend(rows[..|rows| - 1], rows[|rows| - 1], sku);
      assert rows == rows[..|rows| - 1] + [rows[|rows| - 1]];
    }
  }

  /** The products after the rows: each existing one rewritten by its own row, the
      new ones appended in the order of their rows. */
  ghost predicate Written(products: seq<Product>, cats: Categories, rows: seq<Row>, after: seq<Product>) {
    && |after| == |products| + |NewRows(products, rows)|
    && (forall id :: 0 <= id < |products| ==>
          after[id] == if RowOf(rows, products[id].sku).Some?
              then Rewritten(products[id], cats, RowOf(rows, products[id].sku).value)
                       else products[id])
    && forall k :: 0 <= k < |NewRows(products, rows)| ==>
        after[|products| + k] == Fresh(cats, NewRows(products, rows)[k])
  }

  lemma {:induction false} NewRowsAre(products: seq<Product>, rows: seq<Row>, sku: string)
    ensures AnySku(NewRows(products, rows), sku) <==> !HasSku(products, sku) && AnySku(rows, sku)
    decreases |rows|
  {
    if |rows| > 0 {
      var n := |rows| - 1;
      NewRowsAre(products, rows[..n], sku);
      AnyAppend(rows[..n], rows[n], sku);
      AnyAppend(NewRows(products, rows[..n]), rows[n], sku);
      assert rows == rows[..n] + [rows[n]];
      if HasSku(products, rows[n].sku) {
        assert NewRows(products, rows) == NewRows(products, rows[..n]);
        assert rows[n].sku == sku ==> HasSku(products, sku);
      } else {
        assert NewRows(products, rows) == NewRows(products, rows[..n]) + [rows[n]];
        assert rows[n].sku == sku ==> !HasSku(products, sku);
      }
    }
  }

  lemma WrittenSkus(products: seq<Product>, cats: Categories, rows: seq<Row>, after: seq<Product>, sku: string)
    requires Written(products, cats, rows, after)
    ensures HasSku(after, sku) <==> HasSku(products, sku) || AnySku(rows, sku)
  {
    NewRowsAre(products, rows, sku);
    if id :| 0 <= id < |products| && products[id].sku == sku {
      assert after[id].sku == sku;
    }
    if k :| 0 <= k < |NewRows(products, rows)| && NewRows(products, rows)[k].sku == sku {
      assert after[|products| + k].sku == sku;
    }
    if id :| 0 <= id < |after| && after[id].sku == sku {
      WrittenSkuIs(products, cats, rows, after, id);
    }
  }

  lemma WrittenSkuIs(products: seq<Product>, cats: Categories, rows: seq<Row>, after: seq<Product>, id: nat)
    requires Written(products, cats, rows, after) && id < |after|
    ensures after[id].sku == if id < |products| then products[id].sku else NewRows(products, rows)[id - |products|].sku
    ensures id >= |products| ==> AnySku(NewRows(products, rows), after[id].sku) && !HasSku(products, after[id].sku)
  {
    if id >= |products| {
      var k := id - |products|;
      assert after[|products| + k] == Fresh(cats, NewRows(products, rows)[k]);
      assert NewRows(products, rows)[k].sku == after[id].sku;
      NewRowsAre(products, rows, after[id].sku);
    }
  }

  lemma WrittenUnique(products: seq<Product>, cats: Categories, rows: seq<Row>, after: seq<Product>)
    requires UniqueSkus(products) && DistinctSkus(rows) && Written(products, cats, rows, after)
    ensures UniqueSkus(after)
  {
    NewRowsDistinct(products, rows);
    forall i, j | 0 <= i < j < |after|
      ensures after[i].sku != after[j].sku
    {
      WrittenSkuIs(products, cats, rows, after, i);
      WrittenSkuIs(products, cats, rows, after, j);
    }
  }

  lemma {:induction false} WriteRowsAre(products: seq<Product>, cats: Categories, rows: seq<Row>)
    requires UniqueSkus(products) && DistinctSkus(rows) && WriteRows(products, cats, rows).Some?
    ensures Written(products, cats, rows, WriteRows(products, cats, rows).value)
    decreases |rows|
  {
    if |rows| > 0 {
      var n := |rows| - 1;
      WriteRowsAre(products, cats, rows[..n]);
      OneMoreRow(products, cats, rows, WriteRows(products, cats, rows[..n]).value);
    }
  }

  lemma OneMoreRow(products: seq<Product>, cats: Categories, rows: seq<Row>, before: seq<Product>)
    requires UniqueSkus(products) && DistinctSkus(rows) && |rows| > 0
    requires Written(products, cats, rows[..|rows| - 1], before) && WriteRow(before, cats, rows[|rows| - 1]).Some?
    ensures Written(products, cats, rows, WriteRow(before, cats, rows[|rows| - 1]).value)
  {
    var n := |rows| - 1;
    var row := rows[n];
    FindSkuFound(before, row.sku);
    WrittenSkus(products, cats, rows[..n], before, row.sku);
    assert HasSku(before, row.sku) <==> HasSku(products, row.sku);
    RowOfFound(rows[..n], row.sku);
    if HasSku(products, row.sku) {
      WrittenSkuIs(products, cats, rows[..n], before, FindSku(before, row.sku).value);
    }
  }

  // ----- When the commit goes through -----

  /** The barcodes of the file against the catalogue, in the order of the rows:
      a barcode is free if no earlier row has it, and whoever has it now is the
      row's own product or was rewritten by an earlier row. */
  predicate BarcodeFree(products: seq<Product>, rows: seq<Row>, i: nat)
    requires i < |rows|
  {
    rows[i].barcode.Some? ==>
      && (forall j :: 0 <= j < i ==> rows[j].barcode != rows[i].barcode)
      && (forall id :: 0 <= id < |products| && products[id].barcode == rows[i].barcode ==>
            products[id].sku == rows[i].sku || RowOf(rows[..i], products[id].sku).Some?)
  }

  predicate NoClash(products: seq<Product>, rows: seq<Row>) {
    forall i :: 0 <= i < |rows| ==> BarcodeFree(products, rows, i)
  }

  lemma {:induction false} RowIsWritten(products: seq<Product>, cats: Categories, rows: seq<Row>, after: seq<Product>,
                                        j: nat)
    requires UniqueSkus(products) && DistinctSkus(rows) && Written(products, cats, rows, after) && j < |rows|
    ensures exists id :: 0 <= id < |after| && after[id].sku == rows[j].sku && after[id].barcode == rows[j].barcode
  {
    RowOfFound(rows, rows[j].sku);
    if HasSku(products, rows[j].sku) {
      var id :| 0 <= id < |products| && products[id].sku == rows[j].sku;
      assert after[id].barcode == rows[j].barcode;
    } else {
      NewRowsAre(products, rows, rows[j].sku);
      var k :| 0 <= k < |NewRows(products, rows)| && NewRows(products, rows)[k].sku == rows[j].sku;
      NewRowIsRow(products, rows, k);
      assert after[|products| + k] == Fresh(cats, NewRows(products, rows)[k]);
    }
  }

  lemma {:induction false} NewRowIsRow(products: seq<Product>, rows: seq<Row>, k: nat)
    requires k < |NewRows(products, rows)|
    ensures exists j :: 0 <= j < |rows| && rows[j] == NewRows(products, rows)[k] && !HasSku(products, rows[j].sku)
    decreases |rows|
  {
    var n := |rows| - 1;
    if k < |NewRows(products, rows[..n])| {
      NewRowIsRow(products, rows[..n], k);
      var j :| 0 <= j < n && rows[..n][j] == NewRows(products, rows)[k] && !HasSku(products, rows[..n][j].sku);
      assert rows[j] == NewRows(products, rows)[k];
    } else {
      assert rows[n] == NewRows(products, rows)[k];
    }
  }

  /** Where a barcode comes from once some rows are written. */
  lemma WrittenBarcode(products: seq<Product>, cats: Categories, rows: seq<Row>, after: seq<Product>, id: nat)
    requires Written(products, cats, rows, after) && id < |after|
    ensures (id < |products| && after[id] == products[id] && RowOf(rows, products[id].sku).None?)
            || HasRow(rows, after[id].sku, after[id].barcode)
  {
    if id < |products| {
      RowOfFound(rows, products[id].sku);
    } else {
      NewBarcode(products, cats, rows, after, id - |products|);
    }
  }

  predicate HasRow(rows: seq<Row>, sku: string, barcode: Option<string>) {
    exists j :: 0 <= j < |rows| && rows[j].sku == sku && rows[j].barcode == barcode
  }

  lemma NewBarcode(products: seq<Product>, cats: Categories, rows: seq<Row>, after: seq<Product>, k: nat)
    requires Written(products, cats, rows, after) && |products| + k < |after|
    ensures HasRow(rows, after[|products| + k].sku, after[|products| + k].barcode)
  {
    assert after[|products| + k] == Fresh(cats, NewRows(products, rows)[k]);
    NewRowIsRow(products, rows, k);
  }

  lemma LastRowClashes(products: seq<Product>, cats: Categories, rows: seq<Row>, before: seq<Product>)
    requires UniqueSkus(products) && DistinctSkus(rows) && |rows| > 0
    requires Written(products, cats, rows[..|rows| - 1], before)
    ensures WriteRow(before, cats, rows[|rows| - 1]).Some? <==> BarcodeFree(products, rows, |rows| - 1)
  {
    var n := |rows| - 1;
    var row, earlier := rows[n], rows[..n];
    FindSkuFound(before, row.sku);
    var found := FindSku(before, row.sku);
    var own := if found.Some? then found.value else |before|;
    if Clashes(before, row, own) {
      var id :| 0 <= id < |before| && id != own && before[id].barcode == row.barcode;
      WrittenBarcode(products, cats, earlier, before, id);
      WrittenUnique(products, cats, earlier, before);
      assert before[id].sku != row.sku;
    } else if row.barcode.Some? {
      forall j | 0 <= j < n
        ensures rows[j].barcode != row.barcode
      {
        RowIsWritten(products, cats, earlier, before, j);
        assert earlier[j].sku != row.sku;
      }
      forall id | 0 <= id < |products| && products[id].barcode == row.barcode
        ensures products[id].sku == row.sku || RowOf(earlier, products[id].sku).Some?
      {
        assert before[id].sku == products[id].sku;
        assert id == own || before[id].barcode != row.barcode;
      }
    }
  }

  /** All the rows can be written exactly when no barcode clashes, a fact about the
      file and the catalogue before the import. */
  lemma {:induction false} WriteRowsIff(products: seq<Product>, cats: Categories, rows: seq<Row>)
    requires UniqueSkus(products) && DistinctSkus(rows)
    ensures WriteRows(products, cats, rows).Some? <==> NoClash(products, rows)
    decreases |rows|
  {
    if |rows| > 0 {
      var n := |rows| - 1;
      WriteRowsIff(products, cats, rows[..n]);
      forall i | 0 <= i < n
        ensures BarcodeFree(products, rows[..n], i) <==> BarcodeFree(products, rows, i)
      {
        assert rows[..n][..i] == rows[..i];
      }
      if NoClash(products, rows[..n]) {
        WriteRowsAre(products, cats, rows[..n]);
        LastRowClashes(products, cats, rows, WriteRows(products, cats, rows[..n]).value);
      }
    }
  }

  // ----- Chunks -----

  /** The product without the price that is derived. */
  function Plain(p: Product): Product { if p.kind == Bundle && p.mode == Derived then p.(price := 0) else p }

  predicate SamePlain(a: seq<Product>, b: seq<Product>) {
    |a| == |b| && forall i :: 0 <= i < |a| ==> Plain(a[i]) == Plain(b[i])
  }

  lemma {:induction false} FindSkuSame(a: seq<Product>, b: seq<Product>, sku: string)
    requires SamePlain(a, b)
    ensures FindSku(a, sku) == FindSku(b, sku)
    decreases |a|
  {
    if |a| > 0 {
      assert Plain(a[|a| - 1]).sku == a[|a| - 1].sku && Plain(b[|b| - 1]).sku == b[|b| - 1].sku;
      FindSkuSame(a[..|a| - 1], b[..|b| - 1], sku);
    }
  }

  lemma WriteRowSame(a: seq<Product>, b: seq<Product>, cats: Categories, row: Row)
    requires SamePlain(a, b)
    ensures var x, y := WriteRow(a, cats, row), WriteRow(b, cats, row);
            x.Some? == y.Some? && (x.Some? ==> SamePlain(x.value, y.value))
  {
    FindSkuSame(a, b, row.sku);
    FindSkuFound(a, row.sku);
    var found := FindSku(a, row.sku);
    var id := if found.Some? then found.value else |a|;
    ClashesSame(a, b, row, id);
    if id < |a| {
      assert Plain(a[id]) == Plain(b[id]);
      assert Plain(Rewritten(a[id], cats, row)) == Plain(Rewritten(b[id], cats, row));
    }
  }

  lemma ClashesSame(a: seq<Product>, b: seq<Product>, row: Row, own: nat)
    requires SamePlain(a, b)
    ensures Clashes(a, row, own) == Clashes(b, row, own)
  {
    assert forall k :: 0 <= k < |a| ==> Plain(a[k]).barcode == a[k].barcode && Plain(b[k]).barcode == b[k].barcode;
  }

  lemma {:induction false} WriteRowsSame(a: seq<Product>, b: seq<Product>, cats: Categories, rows: seq<Row>)
    requires SamePlain(a, b)
    ensures var x, y := WriteRows(a, cats, rows), WriteRows(b, cats, rows);
            x.Some? == y.Some? && (x.Some? ==> SamePlain(x.value, y.value))
    decreases |rows|
  {
    if |rows| > 0 {
      var n := |rows| - 1;
      WriteRowsSame(a, b, cats, rows[..n]);
      if WriteRows(a, cats, rows[..n]).Some? {
        WriteRowSame(WriteRows(a, cats, rows[..n]).value, WriteRows(b, cats, rows[..n]).value, cats, rows[n]);
      }
    }
  }

  lemma {:induction false} WriteRowsConcat(products: seq<Product>, cats: Categories, a: seq<Row>, b: seq<Row>)
    ensures WriteRows(products, cats, a + b)
         == (if WriteRows(products, cats, a).None? then None
             else WriteRows(WriteRows(products, cats, a).value, cats, b))
    decreases |b|
  {
    if |b| == 0 {
      assert a + b == a;
    } else {
      var n := |b| - 1;
      assert (a + b)[..|a| + n] == a + b[..n];
      WriteRowsConcat(products, cats, a, b[..n]);
    }
  }

  lemma {:induction false} WriteRowsKinds(products: seq<Product>, cats: Categories, rows: seq<Row>)
    requires WriteRows(products, cats, rows).Some?
    ensures var after := WriteRows(products, cats, rows).value;
            && |products| <= |after|
            && (forall id :: 0 <= id < |products| ==>
                  && after[id].kind == products[id].kind && after[id].mode == products[id].mode
                  && after[id].sku == products[id].sku && after[id].discount == products[id].discount)
            && forall id :: |products| <= id < |after| ==> after[id].kind == Simple
    decreases |rows|
  {
    if |rows| > 0 {
      WriteRowsKinds(products, cats, rows[..|rows| - 1]);
      var before := WriteRows(products, cats, rows[..|rows| - 1]).value;
      FindSkuFound(before, rows[|rows| - 1].sku);
    }
  }

  lemma ChunkWellFormed(cat: Catalogue, cats: Categories, rows: seq<Row>)
    requires WellFormed(cat) && ImportChunk(cat, cats, rows).Ok?
    ensures WellFormed(ImportChunk(cat, cats, rows).value)
    ensures SamePlain(ImportChunk(cat, cats, rows).value.products, WriteRows(cat.products, cats, rows).value)
  {
    var mid := cat.(products := WriteRows(cat.products, cats, rows).value);
    var ids := Named(mid.products, rows);
    WriteRowsKinds(cat.products, cats, rows);
    KindsStay(cat, mid);
    RecalculateForWellFormed(mid, ids);
    forall id | 0 <= id < |mid.products|
      ensures Plain(RecalculateFor(mid, ids).products[id]) == Plain(mid.products[id])
    {
      RecalculateForAt(mid, ids, id);
    }
  }

  /** Chunks of any size write the same products, derived prices aside, and go
      through together or not at all to the end. */
  lemma {:induction false} CommitIsWriteRows(cat: Catalogue, cats: Categories, rows: seq<Row>, size: nat)
    requires WellFormed(cat) && size > 0
    ensures var (after, done) := CommitChunks(cat, cats, rows, size);
            && WellFormed(after) && |after.products| >= |cat.products|
            && (done <==> WriteRows(cat.products, cats, rows).Some?)
            && (done ==> SamePlain(after.products, WriteRows(cat.products, cats, rows).value))
    decreases |rows|
  {
    if |rows| > 0 {
      var n := if |rows| <= size then |rows| else size;
      assert rows == rows[..n] + rows[n..];
      WriteRowsConcat(cat.products, cats, rows[..n], rows[n..]);
      var chunk := ImportChunk(cat, cats, rows[..n]);
      if chunk.Ok? {
        ChunkWellFormed(cat, cats, rows[..n]);
        WriteRowsKinds(cat.products, cats, rows[..n]);
        CommitIsWriteRows(chunk.value, cats, rows[n..], size);
        WriteRowsSame(chunk.value.products, WriteRows(cat.products, cats, rows[..n]).value, cats, rows[n..]);
      }
    }
  }

  /** The preview tells the truth about the commit, and the commit goes through,
      exactly when no barcode clashes. Then one product is created for every row
      marked so, in order, every row marked as an update rewrites the product of
      its SKU, and no other product changes but for its derived price. */
  lemma PreviewIsFaithful(cat: Catalogue, cats: Categories, parsed: seq<Parsed>, size: nat)
    requires WellFormed(cat) && UniqueSkus(cat.products) && size > 0
    ensures var rows := ValidRows(cat.products, cats, parsed, |parsed|);
            var (after, done) := CommitChunks(cat, cats, rows, size);
            && DistinctSkus(rows)
            && (done <==> NoClash(cat.products, rows))
            && (done ==>
                  && |after.products| == |cat.products| + Count(cat.products, cats, parsed, CreateRow, |parsed|)
                  && exists written :: Written(cat.products, cats, rows, written) && SamePlain(after.products, written))
  {
    var rows := ValidRows(cat.products, cats, parsed, |parsed|);
    ValidSkusAreDistinct(cat.products, cats, parsed, |parsed|);
    CreateCount(cat.products, cats, parsed, |parsed|);
    CommitIsWriteRows(cat, cats, rows, size);
    WriteRowsIff(cat.products, cats, rows);
    if NoClash(cat.products, rows) {
      WriteRowsAre(cat.products, cats, rows);
    }
  }

  /** A chunk never adds more products than it has new rows, even when a later
      one fails: a demo that imports new products ends with at most twenty. */
  lemma DemoStaysWithinQuota(cat: Catalogue, cats: Categories, parsed: seq<Parsed>, size: nat)
    requires WellFormed(cat) && UniqueSkus(cat.products) && size > 0
    requires Count(cat.products, cats, parsed, CreateRow, |parsed|) > 0
    requires WithinQuota(true, |cat.products|, Count(cat.products, cats, parsed, CreateRow, |parsed|))
    ensures |CommitChunks(cat, cats, ValidRows(cat.products, cats, parsed, |parsed|),
                          size).0.products| <= DEMO_PRODUCT_LIMIT
  {
    var rows := ValidRows(cat.products, cats, parsed, |parsed|);
    ValidSkusAreDistinct(cat.products, cats, parsed, |parsed|);
    CreateCount(cat.products, cats, parsed, |parsed|);
    CommitGrowth(cat, cats, rows, size);
  }

  lemma {:induction false} NewRowsConcat(products: seq<Product>, a: seq<Row>, b: seq<Row>)
    ensures NewRows(products, a + b) == NewRows(products, a) + NewRows(products, b)
    decreases |b|
  {
    if |b| == 0 {
      assert a + b == a;
    } else {
      assert (a + b)[..|a| + |b| - 1] == a + b[..|b| - 1];
      NewRowsConcat(products, a, b[..|b| - 1]);
    }
  }

  lemma {:induction false} FewerNewRows(before: seq<Product>, after: seq<Product>, rows: seq<Row>)
    requires forall sku :: HasSku(before, sku) ==> HasSku(after, sku)
    ensures |NewRows(after, rows)| <= |NewRows(before, rows)|
    decreases |rows|
  {
    if |rows| > 0 {
      FewerNewRows(before, after, rows[..|rows| - 1]);
    }
  }

  lemma {:induction false} CommitGrowth(cat: Catalogue, cats: Categories, rows: seq<Row>, size: nat)
    requires WellFormed(cat) && UniqueSkus(cat.products) && DistinctSkus(rows) && size > 0
    ensures |CommitChunks(cat, cats, rows, size).0.products| <= |cat.products| + |NewRows(cat.products, rows)|
    decreases |rows|
  {
    if |rows| > 0 {
      var n := if |rows| <= size then |rows| else size;
      var a, b := rows[..n], rows[n..];
      assert rows == a + b;
      var chunk := ImportChunk(cat, cats, a);
      if chunk.Ok? {
        ChunkWellFormed(cat, cats, a);
        WriteRowsAre(cat.products, cats, a);
        ChunkSkus(cat, cats, a);
        CommitGrowth(chunk.value, cats, b, size);
        NewRowsConcat(cat.products, a, b);
        FewerNewRows(cat.products, chunk.value.products, b);
      }
    }
  }

  lemma ChunkSkus(cat: Catalogue, cats: Categories, rows: seq<Row>)
    requires WellFormed(cat) && UniqueSkus(cat.products) && DistinctSkus(rows) && ImportChunk(cat, cats, rows).Ok?
    ensures UniqueSkus(ImportChunk(cat, cats, rows).value.products)
    ensures forall sku :: HasSku(cat.products, sku) ==> HasSku(ImportChunk(cat, cats, rows).value.products, sku)
  {
    var written, after := WriteRows(cat.products, cats, rows).value, ImportChunk(cat, cats, rows).value.products;
    ChunkWellFormed(cat, cats, rows);
    WriteRowsAre(cat.products, cats, rows);
    WrittenUnique(cat.products, cats, rows, written);
    forall id | 0 <= id < |after|
      ensures after[id].sku == written[id].sku
    {
      assert Plain(after[id]).sku == Plain(written[id]).sku;
    }
    forall sku | HasSku(cat.products, sku)
      ensures HasSku(after, sku)
    {
      var k :| 0 <= k < |cat.products| && cat.products[k].sku == sku;
      assert written[k].sku == sku && after[k].sku == sku;
    }
  }

  lemma {:induction false} NewRowsDistinct(products: seq<Product>, rows: seq<Row>)
    requires DistinctSkus(rows)
    ensures DistinctSkus(NewRows(products, rows))
    decreases |rows|
  {
    if |rows| > 0 {
      var n := |rows| - 1;
      NewRowsDistinct(products, rows[..n]);
      var before := NewRows(products, rows[..n]);
      forall k | 0 <= k < |before|
        ensures before[k].sku != rows[n].sku
      {
        NewRowIsRow(products, rows[..n], k);
      }
    }
  }

  // ----- Derived prices -----

  predicate NamesComponent(cat: Catalogue, rows: seq<Row>, b: nat) {
    exists k :: 0 <= k < |cat.components| && cat.components[k].bundle == b && cat.components[k].product < |cat.products|
                && RowOf(rows, cat.products[cat.components[k].product].sku).Some?
  }

  /** A row names a derived bundle with another price than it has, and no row of
      the chunk names one of its components. */
  predicate RowOverrules(cat: Catalogue, rows: seq<Row>, b: nat) {
    && IsDerived(cat, b)
    && (exists i :: 0 <= i < |rows| && rows[i].sku == cat.products[b].sku
                    && ColumnRound(rows[i].price) != cat.products[b].price)
    && !NamesComponent(cat, rows, b)
  }

  lemma NamedBefore(cat: Catalogue, written: seq<Product>, rows: seq<Row>, id: nat)
    requires id < |cat.products| <= |written| && written[id].sku == cat.products[id].sku
    ensures id in Named(written, rows) <==> RowOf(rows, cat.products[id].sku).Some?
  {
    RowOfFound(rows, cat.products[id].sku);
  }

  lemma RowAgreesIff(cat: Catalogue, cats: Categories, rows: seq<Row>, b: nat)
    requires WellFormed(cat) && Consistent(cat) && UniqueSkus(cat.products) && DistinctSkus(rows)
    requires ImportChunk(cat, cats, rows).Ok? && IsDerived(cat, b)
    ensures b < |ImportChunk(cat, cats, rows).value.products|
    ensures Agrees(ImportChunk(cat, cats, rows).value, b) <==> !RowOverrules(cat, rows, b)
  {
    var mid := cat.(products := WriteRows(cat.products, cats, rows).value);
    var ids := Named(mid.products, rows);
    ChunkReprices(cat, cats, rows, mid, ids);
    assert Agrees(cat, b);
    RecalculationRepairs(cat, mid, ids, b);
    NamedComponents(cat, rows, mid, ids, b);
    RowOfFound(rows, cat.products[b].sku);
  }

  lemma ChunkReprices(cat: Catalogue, cats: Categories, rows: seq<Row>, mid: Catalogue, ids: set<nat>)
    requires WellFormed(cat) && UniqueSkus(cat.products) && DistinctSkus(rows) && ImportChunk(cat, cats, rows).Ok?
    requires mid == cat.(products := WriteRows(cat.products, cats, rows).value) && ids == Named(mid.products, rows)
    ensures SameBut(cat, mid, ids)
    ensures forall id :: 0 <= id < |cat.products| ==>
              && mid.products[id].mode == cat.products[id].mode
              && mid.products[id].discount == cat.products[id].discount
              && (id in ids <==> RowOf(rows, cat.products[id].sku).Some?)
              && (id in ids ==> mid.products[id].price == ColumnRound(RowOf(rows, cat.products[id].sku).value.price))
  {
    WriteRowsAre(cat.products, cats, rows);
    forall id | 0 <= id < |cat.products|
      ensures id in ids <==> RowOf(rows, cat.products[id].sku).Some?
    {
      NamedBefore(cat, mid.products, rows, id);
    }
  }

  lemma NamedComponents(cat: Catalogue, rows: seq<Row>, mid: Catalogue, ids: set<nat>, b: nat)
    requires WellFormed(cat)
    requires forall id :: 0 <= id < |cat.products| ==> (id in ids <==> RowOf(rows, cat.products[id].sku).Some?)
    ensures UsesOneOf(cat.components, ids, b) <==> NamesComponent(cat, rows, b)
  {
    if UsesOneOf(cat.components, ids, b) {
      var k :| 0 <= k < |cat.components| && cat.components[k].bundle == b && cat.components[k].product in ids;
      assert RowOf(rows, cat.products[cat.components[k].product].sku).Some?;
    }
  }

  /** An import chunk keeps the stored prices in line exactly when no row
      overrules a derived bundle. */
  lemma ImportChunkConsistentIff(cat: Catalogue, cats: Categories, rows: seq<Row>)
    requires WellFormed(cat) && Consistent(cat) && UniqueSkus(cat.products) && DistinctSkus(rows)
    requires ImportChunk(cat, cats, rows).Ok?
    ensures WellFormed(ImportChunk(cat, cats, rows).value)
    ensures Consistent(ImportChunk(cat, cats, rows).value)
        <==> forall b :: 0 <= b < |cat.products| ==> !RowOverrules(cat, rows, b)
  {
    ChunkWellFormed(cat, cats, rows);
    var after := ImportChunk(cat, cats, rows).value;
    WriteRowsKinds(cat.products, cats, rows);
    forall id | 0 <= id < |after.products|
      ensures IsDerived(after, id) ==> IsDerived(cat, id)
    {
      assert Plain(after.products[id]) == Plain(WriteRows(cat.products, cats, rows).value[id]);
    }
    forall b | 0 <= b < |cat.products| && IsDerived(cat, b)
      ensures Agrees(after, b) <==> !RowOverrules(cat, rows, b)
    {
      RowAgreesIff(cat, cats, rows, b);
    }
  }
}
