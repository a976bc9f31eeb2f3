/** The SQLite store behind DatabaseManager, reduced to what the services use:
    four tables kept in rowid order, AUTOINCREMENT counters, and one
    transaction that can be begun, committed or rolled back
    (src/database/DatabaseManager.cpp:83-99). A transaction is a snapshot of
    the tables that a rollback restores. SQLite refuses a BEGIN while a
    transaction is open, and the model says so.

    Statements can fail for reasons outside the program (a full disk, a locked
    file). The model makes this explicit: `failing` names the kinds of
    statement the engine rejects, and a rejected statement changes nothing. */
module Database {
  import opened Common
  import opened Calendar
  import opened ProductModel
  import opened SaleModel
  import opened StockMovementModel

  /** The kinds of statement the services send to the engine. */
  datatype Statement =
    | BeginTransaction
    | CommitTransaction
    | InsertProduct
    | UpdateProductRow
    | DeactivateProduct
    | UpdateStock
    | InsertMovement
    | InsertSale
    | InsertSaleItem
    | UpdateSaleStatus

  /** A row of the sales table. Ids 0 stand for NULL in the two foreign keys;
      `createdOn` is the date part of the `created_at` default. */
  datatype SaleRow = SaleRow(
    id: int,
    invoiceNumber: string,
    customerId: int,
    subtotal: real,
    tax: real,
    discount: real,
    total: real,
    paymentMethodId: int,
    status: string,
    notes: string,
    createdBy: string,
    createdOn: Date)

  /** The tables, each in insertion (rowid) order, with the next AUTOINCREMENT
      id of each. A product's NULL sku or barcode is stored as "" and a NULL
      category as 0, which is also how the program reads them back. */
  datatype Tables = Tables(
    products: seq<Product>,
    nextProductId: int,
    movements: seq<StockMovement>,
    nextMovementId: int,
    sales: seq<SaleRow>,
    nextSaleId: int,
    saleItems: seq<SaleItem>,
    nextSaleItemId: int)

  const EmptyTables: Tables := Tables([], 1, [], 1, [], 1, [], 1)

  /** Strictly increasing numbers all below `bound`, stated from the last
      one back: each is below the bound its successor sets. */
  predicate Ascending(ids: seq<int>, bound: int)
    decreases |ids|
  {
    ids == [] || (ids[|ids| - 1] < bound && Ascending(ids[..|ids| - 1], ids[|ids| - 1]))
  }

  /** Ascending numbers are pairwise ordered and below the bound. */
  lemma {:induction false} AscendingPairs(ids: seq<int>, bound: int)
    requires Ascending(ids, bound)
    ensures forall i :: 0 <= i < |ids| ==> ids[i] < bound
    ensures forall i, j :: 0 <= i < j < |ids| ==> ids[i] < ids[j]
    decreases |ids|
  {
    if ids != [] {
      var n := |ids| - 1;
      var front := ids[..n];
      AscendingPairs(front, ids[n]);
      forall i | 0 <= i < |ids| ensures ids[i] < bound {
        if i < n {
          assert front[i] < ids[n];
        }
      }
      forall i, j | 0 <= i < j < |ids| ensures ids[i] < ids[j] {
        if j < n {
          assert front[i] < front[j];
        } else {
          assert front[i] < ids[n];
        }
      }
    }
  }

  /** One more number keeps the run ascending below `bound` exactly when it
      is below `bound` and above the rest. */
  lemma AscendingAppend(ids: seq<int>, x: int, bound: int)
    ensures Ascending(ids + [x], bound) <==> x < bound && Ascending(ids, x)
  {
    assert (ids + [x])[..|ids|] == ids;
  }

  /** Numbers all below a bound, stated from the last one back. */
  predicate AllBelow(refs: seq<int>, bound: int)
    decreases |refs|
  {
    refs == [] || (refs[|refs| - 1] < bound && AllBelow(refs[..|refs| - 1], bound))
  }

  lemma {:induction false} AllBelowEach(refs: seq<int>, bound: int)
    requires AllBelow(refs, bound)
    ensures forall i :: 0 <= i < |refs| ==> refs[i] < bound
    decreases |refs|
  {
    if refs != [] {
      var n := |refs| - 1;
      AllBelowEach(refs[..n], bound);
      assert forall i :: 0 <= i < n ==> refs[..n][i] == refs[i];
    }
  }

  /** A raised bound keeps numbers below it. */
  lemma {:induction false} AllBelowRaise(refs: seq<int>, bound: int, higher: int)
    ensures AllBelow(refs, bound) && bound <= higher ==> AllBelow(refs, higher)
    decreases |refs|
  {
    if refs != [] {
      AllBelowRaise(refs[..|refs| - 1], bound, higher);
    }
  }

  lemma AllBelowAppend(refs: seq<int>, x: int, bound: int)
    ensures AllBelow(refs + [x], bound) <==> x < bound && AllBelow(refs, bound)
  {
    assert (refs + [x])[..|refs|] == refs;
  }

  /** The id column of each table, in row order. */
  function ProductIds(rows: seq<Product>): (ids: seq<int>)
    ensures |ids| == |rows| && forall i {:trigger ids[i]} :: 0 <= i < |rows| ==> ids[i] == rows[i].id
  {
    seq(|rows|, i requires 0 <= i < |rows| => rows[i].id)
  }

  function MovementIds(rows: seq<StockMovement>): (ids: seq<int>)
    ensures |ids| == |rows| && forall i {:trigger ids[i]} :: 0 <= i < |rows| ==> ids[i] == rows[i].id
  {
    seq(|rows|, i requires 0 <= i < |rows| => rows[i].id)
  }

  function SaleIds(rows: seq<SaleRow>): (ids: seq<int>)
    ensures |ids| == |rows| && forall i {:trigger ids[i]} :: 0 <= i < |rows| ==> ids[i] == rows[i].id
  {
    seq(|rows|, i requires 0 <= i < |rows| => rows[i].id)
  }

  function SaleItemIds(rows: seq<SaleItem>): (ids: seq<int>)
    ensures |ids| == |rows| && forall i {:trigger ids[i]} :: 0 <= i < |rows| ==> ids[i] == rows[i].id
  {
    seq(|rows|, i requires 0 <= i < |rows| => rows[i].id)
  }

  /** The sale each item row points at, in row order. */
  function ItemSaleRefs(rows: seq<SaleItem>): (refs: seq<int>)
    ensures |refs| == |rows| && forall i {:trigger refs[i]} :: 0 <= i < |rows| ==> refs[i] == rows[i].saleId
  {
    seq(|rows|, i requires 0 <= i < |rows| => rows[i].saleId)
  }

  /** Every id is below its table's counter, and ids grow along each table
      (AUTOINCREMENT never reuses an id); every item points at a sale id
      already handed out. */
  predicate WellFormed(t: Tables) {
    t.nextProductId >= 1 && t.nextMovementId >= 1 && t.nextSaleId >= 1 && t.nextSaleItemId >= 1
    && Ascending(ProductIds(t.products), t.nextProductId)
    && Ascending(MovementIds(t.movements), t.nextMovementId)
    && Ascending(SaleIds(t.sales), t.nextSaleId)
    && Ascending(SaleItemIds(t.saleItems), t.nextSaleItemId)
    && AllBelow(ItemSaleRefs(t.saleItems), t.nextSaleId)
  }

  /** In a well-formed table every id is below its counter. */
  lemma RowsBelow(t: Tables)
    requires WellFormed(t)
    ensures forall i :: 0 <= i < |t.products| ==> t.products[i].id < t.nextProductId
    ensures forall i :: 0 <= i < |t.movements| ==> t.movements[i].id < t.nextMovementId
    ensures forall i :: 0 <= i < |t.sales| ==> t.sales[i].id < t.nextSaleId
    ensures forall i :: 0 <= i < |t.saleItems| ==>
      t.saleItems[i].id < t.nextSaleItemId && t.saleItems[i].saleId < t.nextSaleId
  {
    AscendingPairs(ProductIds(t.products), t.nextProductId);
    AscendingPairs(MovementIds(t.movements), t.nextMovementId);
    AscendingPairs(SaleIds(t.sales), t.nextSaleId);
    AscendingPairs(SaleItemIds(t.saleItems), t.nextSaleItemId);
    AllBelowEach(ItemSaleRefs(t.saleItems), t.nextSaleId);
    forall i | 0 <= i < |t.products| ensures t.products[i].id < t.nextProductId {
      assert ProductIds(t.products)[i] < t.nextProductId;
    }
    forall i | 0 <= i < |t.movements| ensures t.movements[i].id < t.nextMovementId {
      assert MovementIds(t.movements)[i] < t.nextMovementId;
    }
    forall i | 0 <= i < |t.sales| ensures t.sales[i].id < t.nextSaleId {
      assert SaleIds(t.sales)[i] < t.nextSaleId;
    }
    forall i | 0 <= i < |t.saleItems|
      ensures t.saleItems[i].id < t.nextSaleItemId && t.saleItems[i].saleId < t.nextSaleId
    {
      assert SaleItemIds(t.saleItems)[i] < t.nextSaleItemId;
      assert ItemSaleRefs(t.saleItems)[i] < t.nextSaleId;
    }
  }

  /** In a well-formed table a row's id tells it apart from every other. */
  lemma ProductIdsOrdered(t: Tables)
    requires WellFormed(t)
    ensures forall i, j :: 0 <= i < j < |t.products| ==> t.products[i].id < t.products[j].id
  {
    var ids := ProductIds(t.products);
    AscendingPairs(ids, t.nextProductId);
    forall i, j | 0 <= i < j < |t.products| ensures t.products[i].id < t.products[j].id {
      assert ids[i] < ids[j];
    }
  }

  lemma SaleIdsOrdered(t: Tables)
    requires WellFormed(t)
    ensures forall i, j :: 0 <= i < j < |t.sales| ==> t.sales[i].id < t.sales[j].id
  {
    var ids := SaleIds(t.sales);
    AscendingPairs(ids, t.nextSaleId);
    forall i, j | 0 <= i < j < |t.sales| ensures t.sales[i].id < t.sales[j].id {
      assert ids[i] < ids[j];
    }
  }

  // ---------------------------------------------------------------------------
  // Row lookups (reads never fail in this model)
  // ---------------------------------------------------------------------------

  /** Position of the first product with this id, or |products|. */
  function ProductIndex(products: seq<Product>, id: int): (k: nat)
    ensures k <= |products|
    ensures k < |products| ==> products[k].id == id
    ensures forall i :: 0 <= i < k ==> products[i].id != id
  {
    if products == [] then 0
    else if products[0].id == id then 0
    else 1 + ProductIndex(products[1..], id)
  }

  /** Position of the first sale with this id, or |sales|. */
  function SaleIndex(sales: seq<SaleRow>, id: int): (k: nat)
    ensures k <= |sales|
    ensures k < |sales| ==> sales[k].id == id
    ensures forall i :: 0 <= i < k ==> sales[i].id != id
  {
    if sales == [] then 0
    else if sales[0].id == id then 0
    else 1 + SaleIndex(sales[1..], id)
  }

  /** Appending a row extends its table's id columns by the row's own. */
  lemma ProductColumnsAppend(rows: seq<Product>, x: Product)
    ensures ProductIds(rows + [x]) == ProductIds(rows) + [x.id]
  {
    assert (rows + [x])[..|rows|] == rows;
  }

  lemma MovementColumnsAppend(rows: seq<StockMovement>, x: StockMovement)
    ensures MovementIds(rows + [x]) == MovementIds(rows) + [x.id]
  {
    assert (rows + [x])[..|rows|] == rows;
  }

  lemma SaleColumnsAppend(rows: seq<SaleRow>, x: SaleRow)
    ensures SaleIds(rows + [x]) == SaleIds(rows) + [x.id]
  {
    assert (rows + [x])[..|rows|] == rows;
  }

  lemma SaleItemColumnsAppend(rows: seq<SaleItem>, x: SaleItem)
    ensures SaleItemIds(rows + [x]) == SaleItemIds(rows) + [x.id]
    ensures ItemSaleRefs(rows + [x]) == ItemSaleRefs(rows) + [x.saleId]
  {
    assert (rows + [x])[..|rows|] == rows;
  }

  /** Overwriting a row with one of the same id keeps the id column. */
  lemma ProductIdsKept(rows: seq<Product>, k: int, p: Product)
    requires 0 <= k < |rows| && p.id == rows[k].id
    ensures ProductIds(rows[k := p]) == ProductIds(rows)
  {
    assert ProductIds(rows[k := p]) == ProductIds(rows);
  }

  lemma SaleIdsKept(rows: seq<SaleRow>, k: int, s: SaleRow)
    requires 0 <= k < |rows| && s.id == rows[k].id
    ensures SaleIds(rows[k := s]) == SaleIds(rows)
  {
    assert SaleIds(rows[k := s]) == SaleIds(rows);
  }

  /** SaleIndex is the one position with no earlier row of that id and the
      row itself of that id (or past the end). */
  lemma SaleIndexAt(sales: seq<SaleRow>, id: int, k: nat)
    requires k <= |sales| && forall i :: 0 <= i < k ==> sales[i].id != id
    requires k < |sales| ==> sales[k].id == id
    ensures SaleIndex(sales, id) == k
  {
  }

  // ---------------------------------------------------------------------------
  // Row writes
  // ---------------------------------------------------------------------------

  /** Appends a product under the next id. */
  function AppendProduct(t: Tables, p: Product): (r: Tables)
    ensures WellFormed(t) ==> WellFormed(r)
  {
    ProductColumnsAppend(t.products, p.(id := t.nextProductId));
    AscendingAppend(ProductIds(t.products), t.nextProductId, t.nextProductId + 1);
    t.(products := t.products + [p.(id := t.nextProductId)], nextProductId := t.nextProductId + 1)
  }

  /** Replaces the product at position k, keeping its id. */
  function ReplaceProduct(t: Tables, k: int, p: Product): (r: Tables)
    requires 0 <= k < |t.products|
    ensures WellFormed(t) ==> WellFormed(r)
  {
    ProductIdsKept(t.products, k, p.(id := t.products[k].id));
    t.(products := t.products[k := p.(id := t.products[k].id)])
  }

  function AppendMovement(t: Tables, m: StockMovement): (r: Tables)
    ensures WellFormed(t) ==> WellFormed(r)
  {
    MovementColumnsAppend(t.movements, m.(id := t.nextMovementId));
    AscendingAppend(MovementIds(t.movements), t.nextMovementId, t.nextMovementId + 1);
    t.(movements := t.movements + [m.(id := t.nextMovementId)], nextMovementId := t.nextMovementId + 1)
  }

  function AppendSale(t: Tables, s: SaleRow): (r: Tables)
    ensures WellFormed(t) ==> WellFormed(r)
  {
    SaleColumnsAppend(t.sales, s.(id := t.nextSaleId));
    AscendingAppend(SaleIds(t.sales), t.nextSaleId, t.nextSaleId + 1);
    AllBelowRaise(ItemSaleRefs(t.saleItems), t.nextSaleId, t.nextSaleId + 1);
    t.(sales := t.sales + [s.(id := t.nextSaleId)], nextSaleId := t.nextSaleId + 1)
  }

  /** Appends a sale item under the next id; its sale must already exist. */
  function AppendSaleItem(t: Tables, item: SaleItem): (r: Tables)
    requires item.saleId < t.nextSaleId
    ensures WellFormed(t) ==> WellFormed(r)
  {
    SaleItemColumnsAppend(t.saleItems, item.(id := t.nextSaleItemId));
    AscendingAppend(SaleItemIds(t.saleItems), t.nextSaleItemId, t.nextSaleItemId + 1);
    AllBelowAppend(ItemSaleRefs(t.saleItems), item.saleId, t.nextSaleId);
    t.(saleItems := t.saleItems + [item.(id := t.nextSaleItemId)], nextSaleItemId := t.nextSaleItemId + 1)
  }

  function ReplaceSale(t: Tables, k: int, s: SaleRow): (r: Tables)
    requires 0 <= k < |t.sales|
    ensures WellFormed(t) ==> WellFormed(r)
  {
    SaleIdsKept(t.sales, k, s.(id := t.sales[k].id));
    t.(sales := t.sales[k := s.(id := t.sales[k].id)])
  }

  // ---------------------------------------------------------------------------
  // Transactions
  // ---------------------------------------------------------------------------

  /** What the connection holds: the tables, and the snapshot taken by BEGIN
      while a transaction is open. */
  datatype State = State(tables: Tables, snapshot: Option<Tables>)

  predicate StateWellFormed(s: State) {
    WellFormed(s.tables) && (s.snapshot.Some? ==> WellFormed(s.snapshot.value))
  }

  datatype Outcome = Outcome(ok: bool, state: State)

  /** DatabaseManager::beginTransaction: fails while a transaction is open
      (SQLite does not nest BEGIN) and when the engine rejects it. */
  function Begin(s: State, failing: set<Statement>): (r: Outcome)
    ensures r.ok <==> s.snapshot.None? && BeginTransaction !in failing
    ensures r.ok ==> r.state == State(s.tables, Some(s.tables))
    ensures !r.ok ==> r.state == s
  {
    if s.snapshot.None? && BeginTransaction !in failing then Outcome(true, State(s.tables, Some(s.tables)))
    else Outcome(false, s)
  }

  /** DatabaseManager::commit: keeps the tables and closes the transaction.
      A failed COMMIT leaves the transaction open. */
  function Commit(s: State, failing: set<Statement>): (r: Outcome)
    ensures r.ok <==> s.snapshot.Some? && CommitTransaction !in failing
    ensures r.ok ==> r.state == State(s.tables, None)
    ensures !r.ok ==> r.state == s
  {
    if s.snapshot.Some? && CommitTransaction !in failing then Outcome(true, State(s.tables, None))
    else Outcome(false, s)
  }

  /** DatabaseManager::rollback: restores the snapshot and closes the transaction. */
  function Rollback(s: State): (r: Outcome)
    ensures r.ok <==> s.snapshot.Some?
    ensures r.ok ==> r.state == State(s.snapshot.value, None)
    ensures !r.ok ==> r.state == s
  {
    if s.snapshot.Some? then Outcome(true, State(s.snapshot.value, None)) else Outcome(false, s)
  }

  /** Whatever happened inside a transaction, rolling it back gives the
      tables as they were when it began. */
  lemma RollbackUndoesAll(s: State, failing: set<Statement>, inner: Tables)
    requires Begin(s, failing).ok
    ensures Rollback(State(inner, Begin(s, failing).state.snapshot)).state == State(s.tables, None)
  {
  }

  /** A second BEGIN inside an open transaction fails and changes nothing. */
  lemma NestedBeginFails(s: State, failing: set<Statement>)
    requires Begin(s, failing).ok
    ensures !Begin(Begin(s, failing).state, failing).ok
    ensures Begin(Begin(s, failing).state, failing).state == Begin(s, failing).state
  {
  }

  /** The connection object the repositories share. `failing` and `today`
      stand for the engine's faults and the clock, fixed per connection. */
  class Connection {
    var tables: Tables
    var snapshot: Option<Tables>
    const failing: set<Statement>
    const today: Date

    ghost predicate Valid()
      reads this
    {
      StateWellFormed(State(tables, snapshot)) && Calendar.Valid(today)
    }

    function Current(): State
      reads this
    {
      State(tables, snapshot)
    }

    constructor (faults: set<Statement>, clock: Date)
      requires Calendar.Valid(clock)
      ensures Valid() && tables == EmptyTables && snapshot == None
      ensures failing == faults && today == clock
    {
      tables := EmptyTables;
      snapshot := None;
      failing := faults;
      today := clock;
    }

    method BeginTransaction() returns (ok: bool)
      requires Valid()
      modifies this
      ensures Valid()
      ensures Outcome(ok, Current()) == Begin(old(Current()), failing)
    {
      ok := snapshot.None? && Statement.BeginTransaction !in failing;
      if ok {
        snapshot := Some(tables);
      }
    }

    method CommitTransaction() returns (ok: bool)
      requires Valid()
      modifies this
      ensures Valid()
      ensures Outcome(ok, Current()) == Commit(old(Current()), failing)
    {
      ok := snapshot.Some? && Statement.CommitTransaction !in failing;
      if ok {
        snapshot := None;
      }
    }

    method RollbackTransaction() returns (ok: bool)
      requires Valid()
      modifies this
      ensures Valid()
      ensures Outcome(ok, Current()) == Rollback(old(Current()))
    {
      ok := snapshot.Some?;
      if ok {
        tables := snapshot.value;
        snapshot := None;
      }
    }
  }
}
