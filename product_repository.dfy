/** ProductRepository (src/repositories/ProductRepository.cpp): the writes
    to the products table and the queries over it. The LEFT JOIN with the
    categories table is not modelled, so a product read back carries an
    empty categoryName. */
module ProductRepository {
  import opened Common
  import opened ProductModel
  import opened Database

  // ---------------------------------------------------------------------------
  // Ordering (ORDER BY name / ORDER BY current_stock)
  // ---------------------------------------------------------------------------

  /** SQLite's BINARY collation: code point by code point, a prefix first. */
  predicate TextLe(a: string, b: string)
    decreases |a|
  {
    a == [] || (b != [] && (a[0] < b[0] || (a[0] == b[0] && TextLe(a[1..], b[1..]))))
  }

  lemma {:induction false} TextLeTotal(a: string, b: string)
    ensures TextLe(a, b) || TextLe(b, a)
    decreases |a|
  {
    if a != [] && b != [] && a[0] == b[0] {
      TextLeTotal(a[1..], b[1..]);
    }
  }

  datatype Order = ByName | ByStock

  predicate Le(o: Order, x: Product, y: Product) {
    match o
    case ByName => TextLe(x.name, y.name)
    case ByStock => x.currentStock <= y.currentStock
  }

  lemma LeTotal(o: Order, x: Product, y: Product)
    ensures Le(o, x, y) || Le(o, y, x)
  {
    if o == ByName {
      TextLeTotal(x.name, y.name);
    }
  }

  predicate Sorted(o: Order, s: seq<Product>) {
    forall i :: 0 <= i < |s| - 1 ==> Le(o, s[i], s[i + 1])
  }

  function Insert(o: Order, x: Product, s: seq<Product>): (r: seq<Product>)
    requires Sorted(o, s)
    ensures Sorted(o, r)
    ensures multiset(r) == multiset(s) + multiset{x}
    ensures r[0] == x || (s != [] && r[0] == s[0])
  {
    if s == [] then [x]
    else if Le(o, x, s[0]) then [x] + s
    else
      LeTotal(o, x, s[0]);
      var rest := Insert(o, x, s[1..]);
      assert s == [s[0]] + s[1..];
      [s[0]] + rest
  }

  /** A stable sort: rows that compare equal keep their table (rowid) order. */
  function Sort(o: Order, s: seq<Product>): (r: seq<Product>)
    ensures Sorted(o, r)
    ensures multiset(r) == multiset(s)
  {
    if s == [] then []
    else
      assert s == [s[0]] + s[1..];
      Insert(o, s[0], Sort(o, s[1..]))
  }

  lemma SameElements(a: seq<Product>, b: seq<Product>)
    requires multiset(a) == multiset(b)
    ensures forall x :: x in a <==> x in b
  {
    forall x ensures x in a <==> x in b {
      assert x in a <==> x in multiset(a);
      assert x in b <==> x in multiset(b);
    }
  }

  /** The rows that pass a WHERE clause, in table order. */
  function Select(s: seq<Product>, keep: Product -> bool): (r: seq<Product>)
    ensures forall x :: x in r <==> x in s && keep(x)
    ensures |r| <= |s|
  {
    if s == [] then []
    else (if keep(s[0]) then [s[0]] else []) + Select(s[1..], keep)
  }

  // ---------------------------------------------------------------------------
  // Queries
  // ---------------------------------------------------------------------------

  function FindById(t: Tables, id: int): (r: Option<Product>)
    ensures r.Some? <==> exists i :: 0 <= i < |t.products| && t.products[i].id == id
    ensures r.Some? ==> r.value in t.products && r.value.id == id
  {
    var k := ProductIndex(t.products, id);
    if k < |t.products| then Some(t.products[k]) else None
  }

  /** WHERE sku = :sku; a NULL sku equals nothing, so "" finds nothing. */
  function FindBySku(t: Tables, sku: string): Option<Product> {
    if sku == [] then None else FirstWithSku(t.products, sku)
  }

  function FirstWithSku(s: seq<Product>, sku: string): Option<Product> {
    if s == [] then None
    else if s[0].sku == sku then Some(s[0])
    else FirstWithSku(s[1..], sku)
  }

  /** findBySku finds a product exactly when a row holds the (non-empty)
      sku, and what it finds is such a row. */
  lemma FindBySkuSpec(t: Tables, sku: string)
    ensures var r := FindBySku(t, sku);
      (r.Some? <==> sku != [] && exists i :: 0 <= i < |t.products| && t.products[i].sku == sku) &&
      (r.Some? ==> r.value in t.products && r.value.sku == sku)
  {
    if sku != [] {
      FirstWithSkuSpec(t.products, sku);
    }
  }

  lemma {:induction false} FirstWithSkuSpec(s: seq<Product>, sku: string)
    ensures var r := FirstWithSku(s, sku);
      (r.Some? <==> exists i :: 0 <= i < |s| && s[i].sku == sku) &&
      (r.Some? ==> r.value in s && r.value.sku == sku)
    decreases |s|
  {
    if s != [] && s[0].sku != sku {
      FirstWithSkuSpec(s[1..], sku);
      assert forall i :: 1 <= i < |s| ==> s[i] == s[1..][i - 1];
    }
  }

  /** WHERE barcode = :barcode; "" finds nothing. */
  function FindByBarcode(t: Tables, barcode: string): Option<Product> {
    if barcode == [] then None else FirstWithBarcode(t.products, barcode)
  }

  function FirstWithBarcode(s: seq<Product>, barcode: string): Option<Product> {
    if s == [] then None
    else if s[0].barcode == barcode then Some(s[0])
    else FirstWithBarcode(s[1..], barcode)
  }

  /** findByBarcode finds a product exactly when a row holds the
      (non-empty) barcode, and what it finds is such a row. */
  lemma FindByBarcodeSpec(t: Tables, barcode: string)
    ensures var r := FindByBarcode(t, barcode);
      (r.Some? <==> barcode != [] && exists i :: 0 <= i < |t.products| && t.products[i].barcode == barcode) &&
      (r.Some? ==> r.value in t.products && r.value.barcode == barcode)
  {
    if barcode != [] {
      FirstWithBarcodeSpec(t.products, barcode);
    }
  }

  lemma {:induction false} FirstWithBarcodeSpec(s: seq<Product>, barcode: string)
    ensures var r := FirstWithBarcode(s, barcode);
      (r.Some? <==> exists i :: 0 <= i < |s| && s[i].barcode == barcode) &&
      (r.Some? ==> r.value in s && r.value.barcode == barcode)
    decreases |s|
  {
    if s != [] && s[0].barcode != barcode {
      FirstWithBarcodeSpec(s[1..], barcode);
      assert forall i :: 1 <= i < |s| ==> s[i] == s[1..][i - 1];
    }
  }

  /** findAll: every product, or only the active ones, ordered by name. */
  function FindAll(t: Tables, activeOnly: bool): (r: seq<Product>)
    ensures Sorted(ByName, r)
    ensures forall x :: x in r <==> x in t.products && (activeOnly ==> x.active)
    ensures activeOnly ==> multiset(r) == multiset(Select(t.products, (p: Product) => p.active))
    ensures !activeOnly ==> multiset(r) == multiset(t.products)
  {
    if activeOnly then
      var s := Select(t.products, (p: Product) => p.active);
      var r := Sort(ByName, s);
      SameElements(r, s);
      r
    else
      var r := Sort(ByName, t.products);
      SameElements(r, t.products);
      r
  }

  /** The name matches `name LIKE '%term%'`: LIKE ignores the case of ASCII
      letters only. */
  predicate NameMatches(p: Product, term: string) {
    Contains(AsciiLower(p.name), AsciiLower(term))
  }

  /** searchByName: the active products whose name contains the term, by name. */
  function SearchByName(t: Tables, term: string): (r: seq<Product>)
    ensures Sorted(ByName, r)
    ensures forall x :: x in r <==> x in t.products && x.active && NameMatches(x, term)
  {
    var s := Select(t.products, (p: Product) => p.active && NameMatches(p, term));
    var r := Sort(ByName, s);
    SameElements(r, s);
    r
  }

  /** findByCategory: the active products of one category, by name. A stored
      NULL category (0 here) equals no id. */
  function FindByCategory(t: Tables, categoryId: int): (r: seq<Product>)
    ensures Sorted(ByName, r)
    ensures forall x :: x in r <==> x in t.products && x.active && categoryId > 0 && x.categoryId == categoryId
  {
    var s := Select(t.products, (p: Product) => p.active && categoryId > 0 && p.categoryId == categoryId);
    var r := Sort(ByName, s);
    SameElements(r, s);
    r
  }

  /** findLowStock: the active products at or under their minimum, by
      stock; the comparison is the query's own, not Product::isLowStock. */
  function FindLowStock(t: Tables): (r: seq<Product>)
    ensures Sorted(ByStock, r)
    ensures forall x :: x in r <==> x in t.products && x.active && x.currentStock <= x.minimumStock
    ensures multiset(r) == multiset(Select(t.products, (p: Product) => p.active && p.currentStock <= p.minimumStock))
  {
    var s := Select(t.products, (p: Product) => p.active && p.currentStock <= p.minimumStock);
    var r := Sort(ByStock, s);
    SameElements(r, s);
    r
  }

  /** The low-stock query and Product::isLowStock agree: a stored active
      product is listed exactly when it reports low stock, and one whose
      stock equals its minimum is listed. */
  lemma LowStockQueryMatchesIsLowStock(t: Tables, p: Product)
    requires p in t.products && p.active
    ensures p in FindLowStock(t) <==> IsLowStock(p)
    ensures p.currentStock == p.minimumStock ==> p in FindLowStock(t)
    ensures forall x :: x in FindLowStock(t) ==> x.active && IsLowStock(x)
  {
  }

  /** count: the number of active products. */
  function Count(t: Tables): (n: nat)
    ensures n <= |t.products|
    ensures n == |FindAll(t, true)|
  {
    var s := Select(t.products, (p: Product) => p.active);
    assert |FindAll(t, true)| == |multiset(FindAll(t, true))| == |multiset(s)| == |s|;
    |s|
  }

  // ---------------------------------------------------------------------------
  // Writes
  // ---------------------------------------------------------------------------

  /** The row as bound by create/update: a category id <= 0 becomes NULL (0);
      an empty sku or barcode becomes NULL, which is "" here already. */
  function AsStored(p: Product): Product {
    p.(categoryId := if p.categoryId > 0 then p.categoryId else 0, categoryName := "")
  }

  /** The categories the first migration seeds, with ids 1 to 3; no part of
      the program adds another, so the foreign key of products.category_id
      accepts only these ids (or NULL). */
  const CategoryCount: int := 3

  /** The product names a category that does not exist. */
  predicate UnknownCategory(p: Product) {
    p.categoryId > CategoryCount
  }

  /** Some row other than the one at `except` already holds the product's
      non-empty sku or barcode, so a UNIQUE constraint rejects the write. */
  predicate Clashes(products: seq<Product>, p: Product, except: int) {
    exists i :: 0 <= i < |products| && i != except &&
      ((p.sku != [] && products[i].sku == p.sku) || (p.barcode != [] && products[i].barcode == p.barcode))
  }

  /** create: the new id and the tables after the INSERT; 0 and no change
      when the statement fails. */
  function Created(t: Tables, failing: set<Statement>, p: Product): (r: (int, Tables)) {
    if InsertProduct in failing || UnknownCategory(p) || Clashes(t.products, p, -1) then (0, t)
    else (t.nextProductId, AppendProduct(t, AsStored(p)))
  }

  /** create keeps the tables well formed. */
  lemma CreatedWellFormed(t: Tables, failing: set<Statement>, p: Product)
    requires WellFormed(t)
    ensures WellFormed(Created(t, failing, p).1)
  {
  }

  /** update: rewrites every editable column of the row with the product's
      id, but never current_stock; false when no row has that id. */
  function Updated(t: Tables, failing: set<Statement>, p: Product): (r: (bool, Tables))
    ensures WellFormed(t) ==> WellFormed(r.1)
  {
    var k := ProductIndex(t.products, p.id);
    if UpdateProductRow in failing || k == |t.products| || UnknownCategory(p) || Clashes(t.products, p, k) then (false, t)
    else (true, ReplaceProduct(t, k, AsStored(p).(currentStock := t.products[k].currentStock)))
  }

  /** remove: a soft delete that clears `active` and keeps the row. */
  function Removed(t: Tables, failing: set<Statement>, id: int): (r: (bool, Tables))
    ensures WellFormed(t) ==> WellFormed(r.1)
  {
    var k := ProductIndex(t.products, id);
    if DeactivateProduct in failing || k == |t.products| then (false, t)
    else (true, ReplaceProduct(t, k, t.products[k].(active := false)))
  }

  /** updateStock: sets current_stock of one row. */
  function StockUpdated(t: Tables, failing: set<Statement>, id: int, stock: real): (r: (bool, Tables))
    ensures WellFormed(t) ==> WellFormed(r.1)
  {
    var k := ProductIndex(t.products, id);
    if UpdateStock in failing || k == |t.products| then (false, t)
    else (true, ReplaceProduct(t, k, t.products[k].(currentStock := stock)))
  }

  // ---------------------------------------------------------------------------
  // What the writes promise
  // ---------------------------------------------------------------------------

  /** create fails, returning 0 and writing nothing, exactly when the engine
      rejects the INSERT, the category does not exist or the sku or barcode
      is taken; on success it returns a fresh id, under which the stored row
      is the product with NULLs for an empty sku, barcode or non-positive
      category, and every old row stays. */
  lemma CreateResult(t: Tables, failing: set<Statement>, p: Product)
    requires WellFormed(t)
    ensures var (id, t') := Created(t, failing, p);
      (id == 0 <==> t' == t) &&
      (id == 0 <==> InsertProduct in failing || UnknownCategory(p) || Clashes(t.products, p, -1)) &&
      (id != 0 ==>
        id == t.nextProductId && FindById(t, id).None? &&
        FindById(t', id) == Some(AsStored(p).(id := id)) &&
        (AsStored(p).categoryId == 0 <==> p.categoryId <= 0) &&
        t'.products[..|t.products|] == t.products &&
        (p.sku != [] ==> FindBySku(t', p.sku).Some?))
  {
    var (id, t') := Created(t, failing, p);
    if id != 0 {
      var row := AsStored(p).(id := id);
      assert t'.products == t.products + [row];
      var k := ProductIndex(t'.products, id);
      RowsBelow(t);
      assert forall i :: 0 <= i < |t.products| ==> t'.products[i].id < id;
      assert t'.products[|t.products|] == row;
      assert k == |t.products|;
      if p.sku != [] {
        assert t'.products[|t.products|].sku == p.sku;
        FindBySkuSpec(t', p.sku);
      }
    }
  }

  /** An update that succeeds names an existing category (or none), never
      writes current_stock and leaves every other row alone. */
  lemma UpdateKeepsStock(t: Tables, failing: set<Statement>, p: Product)
    requires Updated(t, failing, p).0
    ensures var t' := Updated(t, failing, p).1;
      var k := ProductIndex(t.products, p.id);
      !UnknownCategory(p) &&
      k < |t.products| && |t'.products| == |t.products| &&
      t'.products[k] == AsStored(p).(id := t.products[k].id, currentStock := t.products[k].currentStock) &&
      (forall i :: 0 <= i < |t.products| && i != k ==> t'.products[i] == t.products[i]) &&
      t'.movements == t.movements && t'.sales == t.sales && t'.saleItems == t.saleItems
  {
  }

  /** updateStock changes the current_stock of the one row and nothing else. */
  lemma UpdateStockOnlyStock(t: Tables, failing: set<Statement>, id: int, stock: real)
    requires StockUpdated(t, failing, id, stock).0
    ensures var t' := StockUpdated(t, failing, id, stock).1;
      var k := ProductIndex(t.products, id);
      k < |t.products| && |t'.products| == |t.products| &&
      t'.products[k] == t.products[k].(currentStock := stock) &&
      (forall i :: 0 <= i < |t.products| && i != k ==> t'.products[i] == t.products[i]) &&
      t'.movements == t.movements && t'.sales == t.sales && t'.saleItems == t.saleItems
  {
  }

  /** update, remove and updateStock affect no row, and so report false,
      when no product has the id. */
  lemma UnknownIdFails(t: Tables, failing: set<Statement>, p: Product, id: int, stock: real)
    requires FindById(t, id).None? && FindById(t, p.id).None?
    ensures Updated(t, failing, p) == (false, t)
    ensures Removed(t, failing, id) == (false, t)
    ensures StockUpdated(t, failing, id, stock) == (false, t)
  {
  }

  /** remove is a soft delete: the row stays, findById and findBySku still
      return it, now inactive, and findAll(true) no longer lists it. */
  lemma RemoveIsSoft(t: Tables, failing: set<Statement>, id: int)
    requires WellFormed(t)
    requires Removed(t, failing, id).0
    ensures var t' := Removed(t, failing, id).1;
      |t'.products| == |t.products| &&
      FindById(t', id).Some? && !FindById(t', id).value.active &&
      FindById(t', id).value == FindById(t, id).value.(active := false) &&
      (forall x :: x in FindAll(t', true) ==> x.id != id)
  {
    var t' := Removed(t, failing, id).1;
    var k := ProductIndex(t.products, id);
    ProductIdsOrdered(t);
    assert t'.products[k].id == id;
    assert ProductIndex(t'.products, id) == k by {
      forall i | 0 <= i < k ensures t'.products[i].id != id { assert t'.products[i] == t.products[i]; }
    }
    forall x | x in FindAll(t', true) ensures x.id != id {
      var i :| 0 <= i < |t'.products| && t'.products[i] == x;
      if i != k {
        assert t'.products[i] == t.products[i];
        assert t.products[i].id != t.products[k].id;
      }
    }
  }

  /** Once removed, a product still holds its sku: findBySku finds it. */
  lemma RemovedSkuStillFound(t: Tables, failing: set<Statement>, id: int)
    requires Removed(t, failing, id).0
    requires FindById(t, id).value.sku != []
    ensures FindBySku(Removed(t, failing, id).1, FindById(t, id).value.sku).Some?
  {
    var k := ProductIndex(t.products, id);
    assert Removed(t, failing, id).1.products[k].sku == t.products[k].sku;
    FindBySkuSpec(Removed(t, failing, id).1, FindById(t, id).value.sku);
  }

  // ---------------------------------------------------------------------------
  // The repository's methods on the shared connection
  // ---------------------------------------------------------------------------

  /** ProductRepository::create; `stored` is the argument with the new id
      written into it on success. */
  method Create(db: Connection, product: Product) returns (id: int, stored: Product)
    requires db.Valid()
    modifies db
    ensures db.Valid() && db.snapshot == old(db.snapshot)
    ensures (id, db.tables) == Created(old(db.tables), db.failing, product)
    ensures stored == if id != 0 then product.(id := id) else product
  {
    if InsertProduct in db.failing || UnknownCategory(product) || Clashes(db.tables.products, product, -1) {
      return 0, product;
    }
    id := db.tables.nextProductId;
    db.tables := AppendProduct(db.tables, AsStored(product));
    stored := product.(id := id);
  }

  /** ProductRepository::update. */
  method Update(db: Connection, product: Product) returns (ok: bool)
    requires db.Valid()
    modifies db
    ensures db.Valid() && db.snapshot == old(db.snapshot)
    ensures (ok, db.tables) == Updated(old(db.tables), db.failing, product)
  {
    var k := ProductIndex(db.tables.products, product.id);
    if UpdateProductRow in db.failing || k == |db.tables.products| || UnknownCategory(product) || Clashes(db.tables.products, product, k) {
      return false;
    }
    var row := AsStored(product).(currentStock := db.tables.products[k].currentStock);
    db.tables := ReplaceProduct(db.tables, k, row);
    ok := true;
  }

  /** ProductRepository::remove. */
  method Remove(db: Connection, id: int) returns (ok: bool)
    requires db.Valid()
    modifies db
    ensures db.Valid() && db.snapshot == old(db.snapshot)
    ensures (ok, db.tables) == Removed(old(db.tables), db.failing, id)
  {
    var k := ProductIndex(db.tables.products, id);
    if DeactivateProduct in db.failing || k == |db.tables.products| {
      return false;
    }
    db.tables := ReplaceProduct(db.tables, k, db.tables.products[k].(active := false));
    ok := true;
  }

  /** ProductRepository::updateStock. */
  method SetStock(db: Connection, id: int, stock: real) returns (ok: bool)
    requires db.Valid()
    modifies db
    ensures db.Valid() && db.snapshot == old(db.snapshot)
    ensures (ok, db.tables) == StockUpdated(old(db.tables), db.failing, id, stock)
  {
    var k := ProductIndex(db.tables.products, id);
    if UpdateStock in db.failing || k == |db.tables.products| {
      return false;
    }
    db.tables := ReplaceProduct(db.tables, k, db.tables.products[k].(currentStock := stock));
    ok := true;
  }
}
