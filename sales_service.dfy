/** SalesService (src/services/SalesService.cpp): validating a sale, moving
    stock for its items, and storing or cancelling it inside one transaction
    of the shared connection. */
module SalesService {
  import opened Common
  import opened Calendar
  import opened ProductModel
  import opened SaleModel
  import opened Database
  import PS = ProductService
  import SR = SaleRepository
  import Repo = ProductRepository

  /** Why a sale operation stopped; each stands for the message the service
      writes into its error string. */
  datatype SaleFailure =
    | NoItems                                        // "La venta debe tener al menos un item"
    | NonPositiveTotal                               // "El total de la venta debe ser mayor a cero"
    | InvalidQuantity(product: string)               // "Cantidad inválida para producto: %1"
    | InvalidPrice(product: string)                  // "Precio inválido para producto: %1"
    | BeginFailed                                    // "Error iniciando transacción"
    | StockNotUpdated(product: string, cause: PS.Failure)   // "Error actualizando stock de '%1': %2"
    | StockNotReverted(product: string, cause: PS.Failure)  // "Error revirtiendo stock de '%1': %2"
    | SaveFailed                                     // "Error guardando la venta"
    | CommitFailed                                   // "Error confirmando la venta"
    | SaleNotFound                                   // "Venta no encontrada"
    | AlreadyCancelled                               // "La venta ya está cancelada"
    | CancelFailed                                   // "Error cancelando la venta"
    | CancelCommitFailed                             // "Error confirmando la cancelación"

  datatype SaleResult = Ok | Err(why: SaleFailure)

  // ---------------------------------------------------------------------------
  // validateSale
  // ---------------------------------------------------------------------------

  predicate ItemOk(x: SaleItem) {
    x.quantity > 0.0 && x.unitPrice >= 0.0
  }

  /** The complaint about a bad line: the quantity is checked first. */
  function ItemFailure(x: SaleItem): SaleFailure {
    if x.quantity <= 0.0 then InvalidQuantity(x.productName) else InvalidPrice(x.productName)
  }

  /** The per-item loop of validateSale: the complaint about the first bad line. */
  function ItemProblem(items: seq<SaleItem>): (r: Option<SaleFailure>)
    ensures r.None? <==> forall i :: 0 <= i < |items| ==> ItemOk(items[i])
    ensures r.Some? ==> exists i :: 0 <= i < |items| && !ItemOk(items[i]) && r.value == ItemFailure(items[i]) &&
                           forall j :: 0 <= j < i ==> ItemOk(items[j])
  {
    if items == [] then None
    else if !ItemOk(items[0]) then Some(ItemFailure(items[0]))
    else
      var rest := ItemProblem(items[1..]);
      assert forall i :: 1 <= i < |items| ==> items[i] == items[1..][i - 1];
      rest
  }

  /** SalesService::validateSale on the sale as the caller passes it: no
      items, then a total that is not positive, then the first bad line. */
  function ValidateSale(s: Sale): (r: Option<SaleFailure>)
    ensures r.None? <==> s.items != [] && s.total > 0.0 && forall i :: 0 <= i < |s.items| ==> ItemOk(s.items[i])
    ensures r == Some(NoItems) <==> s.items == []
    ensures r == Some(NonPositiveTotal) <==> s.items != [] && s.total <= 0.0
  {
    if s.items == [] then Some(NoItems)
    else if s.total <= 0.0 then Some(NonPositiveTotal)
    else ItemProblem(s.items)
  }

  // ---------------------------------------------------------------------------
  // updateStockForSale / revertStockForSale
  // ---------------------------------------------------------------------------

  /** Selling takes stock out; cancelling a sale gives it back. */
  datatype Direction = Sell | Return

  function MovementCode(d: Direction): string {
    match d
    case Sell => "VENTA"
    case Return => "DEVOLUCION_VENTA"
  }

  function MovementNotes(d: Direction, invoice: string): string {
    match d
    case Sell => "Venta #" + invoice
    case Return => "Cancelación venta #" + invoice
  }

  function StockFailure(d: Direction, product: string, cause: PS.Failure): SaleFailure {
    match d
    case Sell => StockNotUpdated(product, cause)
    case Return => StockNotReverted(product, cause)
  }

  /** The change a quantity makes to the stock in the given direction. */
  function Signed(d: Direction, q: real): real {
    if d == Sell then -q else q
  }

  /** One stock movement per item, in order, with the invoice as reference;
      the first that fails stops the loop with the product's name and the
      cause, and the writes before it stand. */
  function MovedStock(t: Tables, failing: set<Statement>, items: seq<SaleItem>, d: Direction, invoice: string)
    : (r: (Option<SaleFailure>, Tables))
    decreases |items|
  {
    if items == [] then (None, t)
    else
      var x := items[0];
      var reg := PS.Registered(t, failing, x.productId, MovementCode(d), x.quantity, x.unitPrice,
                               invoice, MovementNotes(d, invoice));
      if reg.0.Failed? then (Some(StockFailure(d, x.productName, reg.0.why)), reg.1)
      else MovedStock(reg.1, failing, items[1..], d, invoice)
  }

  /** Moving stock keeps the tables well formed, however far it gets. */
  lemma {:induction false} MovedStockWellFormed(t: Tables, failing: set<Statement>, items: seq<SaleItem>,
                                                d: Direction, invoice: string)
    requires WellFormed(t)
    ensures WellFormed(MovedStock(t, failing, items, d, invoice).1)
    decreases |items|
  {
    if items != [] {
      var x := items[0];
      var reg := PS.Registered(t, failing, x.productId, MovementCode(d), x.quantity, x.unitPrice,
                               invoice, MovementNotes(d, invoice));
      MovedStockWellFormed(reg.1, failing, items[1..], d, invoice);
    }
  }

  /** MovedStock after its first item, given that item's registration. */
  lemma MovedStockStep(t: Tables, failing: set<Statement>, items: seq<SaleItem>, d: Direction, invoice: string,
                       status: PS.Status, t1: Tables)
    requires items != []
    requires (status, t1) == PS.Registered(t, failing, items[0].productId, MovementCode(d), items[0].quantity,
                                           items[0].unitPrice, invoice, MovementNotes(d, invoice))
    ensures MovedStock(t, failing, items, d, invoice) ==
      if status.Failed? then (Some(StockFailure(d, items[0].productName, status.why)), t1)
      else MovedStock(t1, failing, items[1..], d, invoice)
  {
  }

  /** Total quantity of the lines for one product. */
  function QuantityOf(items: seq<SaleItem>, productId: int): real {
    if items == [] then 0.0
    else (if items[0].productId == productId then items[0].quantity else 0.0) + QuantityOf(items[1..], productId)
  }

  /** Lines with the same products and quantities move the same stock. */
  lemma {:induction false} QuantityOfSameLines(a: seq<SaleItem>, b: seq<SaleItem>, productId: int)
    requires |a| == |b|
    requires forall j :: 0 <= j < |a| ==> a[j].productId == b[j].productId && a[j].quantity == b[j].quantity
    ensures QuantityOf(a, productId) == QuantityOf(b, productId)
  {
    if a != [] {
      QuantityOfSameLines(a[1..], b[1..], productId);
    }
  }

  /** The stock change one registered movement makes in the given direction. */
  lemma MovementSign(d: Direction, previous: real, quantity: real)
    ensures PS.MovementTypeId(MovementCode(d)) != 0
    ensures PS.StockAfter(previous, MovementCode(d), quantity) == previous + Signed(d, quantity)
  {
    PS.MovementSignsAsSeeded();
  }

  /** When every item's movement goes through, each product's stock has moved
      by the total quantity of its lines (down when selling, up when
      returning), nothing else about the products changes, one ledger row
      is appended per line, and the sales tables are untouched. */
  lemma {:induction false} MovedStockEffect(t: Tables, failing: set<Statement>, items: seq<SaleItem>,
                                            d: Direction, invoice: string)
    requires WellFormed(t)
    requires MovedStock(t, failing, items, d, invoice).0.None?
    ensures var t' := MovedStock(t, failing, items, d, invoice).1;
      Shifted(t.products, t'.products, items, d) &&
      |t'.movements| == |t.movements| + |items| &&
      t'.sales == t.sales && t'.saleItems == t.saleItems
    decreases |items|
  {
    if items == [] {
      return;
    }
    var x := items[0];
    var reg := PS.Registered(t, failing, x.productId, MovementCode(d), x.quantity, x.unitPrice,
                             invoice, MovementNotes(d, invoice));
    MovedStockStep(t, failing, items, d, invoice, reg.0, reg.1);
    MovedStockEffect(reg.1, failing, items[1..], d, invoice);
    FirstLineMoved(t, failing, items, d, invoice, reg.1, MovedStock(reg.1, failing, items[1..], d, invoice).1);
  }

  /** The first line's registration, followed by the effect of the others. */
  lemma FirstLineMoved(t: Tables, failing: set<Statement>, items: seq<SaleItem>, d: Direction, invoice: string,
                       t1: Tables, t2: Tables)
    requires WellFormed(t) && items != []
    requires (PS.Success, t1) == PS.Registered(t, failing, items[0].productId, MovementCode(d), items[0].quantity,
                                               items[0].unitPrice, invoice, MovementNotes(d, invoice))
    requires Shifted(t1.products, t2.products, items[1..], d)
    requires |t2.movements| == |t1.movements| + |items[1..]| && t2.sales == t1.sales && t2.saleItems == t1.saleItems
    ensures Shifted(t.products, t2.products, items, d)
    ensures |t2.movements| == |t.movements| + |items| && t2.sales == t.sales && t2.saleItems == t.saleItems
  {
    var k := LineMoved(t, failing, items[0], d, invoice, t1);
    FirstLineThenRest(t, t1, t2, items, d, k);
  }

  /** `t1` is `t` after one line's movement: the stock of the product at
      position `k`, the line's product, has moved by the signed quantity, one
      ledger row is appended and the sales tables are as they were. */
  ghost predicate MovedOne(t: Tables, t1: Tables, x: SaleItem, d: Direction, k: nat) {
    k < |t.products| && t.products[k].id == x.productId &&
    t1.products == t.products[k := t.products[k].(currentStock := t.products[k].currentStock + Signed(d, x.quantity))] &&
    |t1.movements| == |t.movements| + 1 && t1.sales == t.sales && t1.saleItems == t.saleItems
  }

  /** The inductive step of MovedStockEffect: the first line's movement
      followed by the effect of the others. */
  lemma FirstLineThenRest(t: Tables, t1: Tables, t2: Tables, items: seq<SaleItem>, d: Direction, k: nat)
    requires WellFormed(t) && items != []
    requires MovedOne(t, t1, items[0], d, k)
    requires Shifted(t1.products, t2.products, items[1..], d)
    requires |t2.movements| == |t1.movements| + |items[1..]| && t2.sales == t1.sales && t2.saleItems == t1.saleItems
    ensures Shifted(t.products, t2.products, items, d)
    ensures |t2.movements| == |t.movements| + |items| && t2.sales == t.sales && t2.saleItems == t.saleItems
  {
    OnlyRowWithId(t, k);
    StockComposes(t.products, t1.products, t2.products, items, d, k);
  }

  /** `after` is `before` with each product's stock moved by the signed
      total quantity of its lines. */
  ghost predicate Shifted(before: seq<Product>, after: seq<Product>, items: seq<SaleItem>, d: Direction) {
    |after| == |before| &&
    forall i :: 0 <= i < |before| ==>
      after[i] == before[i].(currentStock := before[i].currentStock + Signed(d, QuantityOf(items, before[i].id)))
  }

  /** The stock change of the first line followed by that of the rest is the
      change of all the lines. */
  lemma StockComposes(p: seq<Product>, p1: seq<Product>, p2: seq<Product>, items: seq<SaleItem>, d: Direction, k: nat)
    requires items != [] && k < |p| && p[k].id == items[0].productId
    requires forall i :: 0 <= i < |p| && i != k ==> p[i].id != items[0].productId
    requires p1 == p[k := p[k].(currentStock := p[k].currentStock + Signed(d, items[0].quantity))]
    requires Shifted(p1, p2, items[1..], d)
    ensures Shifted(p, p2, items, d)
  {
    forall i | 0 <= i < |p|
      ensures p2[i] == p[i].(currentStock := p[i].currentStock + Signed(d, QuantityOf(items, p[i].id)))
    {
      if i != k {
        assert p1[i] == p[i];
      }
    }
  }

  /** One line whose movement goes through changes only its product's stock,
      at position `k`, by the signed quantity, appends one ledger row and
      leaves the sales tables alone. */
  lemma LineMoved(t: Tables, failing: set<Statement>, x: SaleItem, d: Direction, invoice: string, t1: Tables)
    returns (k: nat)
    requires (PS.Success, t1) == PS.Registered(t, failing, x.productId, MovementCode(d), x.quantity, x.unitPrice,
                                               invoice, MovementNotes(d, invoice))
    ensures MovedOne(t, t1, x, d, k)
  {
    var code := MovementCode(d);
    var notes := MovementNotes(d, invoice);
    PS.RegisterSuccess(t, failing, x.productId, code, x.quantity, x.unitPrice, invoice, notes);
    k := ProductIndex(t.products, x.productId);
    var before := t.products[k];
    assert Repo.FindById(t, x.productId) == Some(before);
    MovementSign(d, before.currentStock, x.quantity);
  }

  /** Ids are unique in a well-formed products table. */
  lemma OnlyRowWithId(t: Tables, k: nat)
    requires WellFormed(t) && k < |t.products|
    ensures forall i :: 0 <= i < |t.products| && i != k ==> t.products[i].id != t.products[k].id
  {
    ProductIdsOrdered(t);
  }

  // ---------------------------------------------------------------------------
  // createSale
  // ---------------------------------------------------------------------------

  /** The sale createSale goes on with once it is valid: an invoice number
      is generated only when the caller gave none, then the totals are
      recomputed from the lines. */
  function Prepared(t: Tables, s: Sale, today: Date): Sale
    requires Calendar.Valid(today)
  {
    var numbered := if s.invoiceNumber == [] then s.(invoiceNumber := SR.NextInvoiceNumber(t, today)) else s;
    WithTotals(numbered)
  }

  /** Where createSale stands before the sale is written: stopped with a
      failure (the connection as it was, or rolled back), or with the
      transaction open and the stock of every line moved. */
  datatype Stage =
    | Refused(why: SaleFailure, state: State, sale: Sale)
    | Ready(state: State, sale: Sale)

  /** createSale up to the stock update: validate, prepare, BEGIN, move the
      stock, and roll back if a movement fails. */
  function StockMovedForSale(st: State, failing: set<Statement>, s: Sale, today: Date): (r: Stage)
    requires Calendar.Valid(today)
  {
    match ValidateSale(s)
    case Some(why) => Refused(why, st, s)
    case None =>
      var prepared := Prepared(st.tables, s, today);
      var b := Begin(st, failing);
      if !b.ok then Refused(BeginFailed, st, prepared)
      else
        var moved := MovedStock(st.tables, failing, prepared.items, Sell, prepared.invoiceNumber);
        var open := State(moved.1, b.state.snapshot);
        if moved.0.Some? then Refused(moved.0.value, Rollback(open).state, prepared)
        else Ready(open, prepared)
  }

  /** createSale as written: the repository's create runs inside the open
      transaction and issues a BEGIN of its own. */
  function CreatedSaleAsWritten(st: State, failing: set<Statement>, s: Sale, today: Date): (r: (SaleResult, State, Sale))
    requires Calendar.Valid(today)
  {
    match StockMovedForSale(st, failing, s, today)
    case Refused(why, st', s') => (Err(why), st', s')
    case Ready(open, prepared) =>
      var created := SR.Created(open, failing, prepared, today);
      if created.0 == 0 then (Err(SaveFailed), Rollback(created.1).state, created.2)
      else
        var c := Commit(created.1, failing);
        if !c.ok then (Err(CommitFailed), Rollback(c.state).state, created.2) else (Ok, c.state, created.2)
  }

  /** createSale with the sale's rows written inside the service's own
      transaction: any failure rolls everything back, success commits. */
  function CreatedSale(st: State, failing: set<Statement>, s: Sale, today: Date): (r: (SaleResult, State, Sale))
    requires Calendar.Valid(today)
  {
    match StockMovedForSale(st, failing, s, today)
    case Refused(why, st', s') => (Err(why), st', s')
    case Ready(open, prepared) =>
      var ins := SR.InsertedRows(open.tables, failing, prepared, today);
      var written := State(ins.tables, open.snapshot);
      if ins.id == 0 then (Err(SaveFailed), Rollback(written).state, ins.sale)
      else
        var c := Commit(written, failing);
        if !c.ok then (Err(CommitFailed), Rollback(c.state).state, ins.sale) else (Ok, c.state, ins.sale)
  }

  /** Before the sale is written: a refusal leaves the tables as they were
      and no transaction open (when none was open before); readiness means
      the transaction holds the tables from before the sale. */
  lemma StockMovedStage(st: State, failing: set<Statement>, s: Sale, today: Date)
    requires Calendar.Valid(today)
    ensures var r := StockMovedForSale(st, failing, s, today);
      (r.Refused? ==> r.state.tables == st.tables && r.state.snapshot == st.snapshot) &&
      (r.Ready? ==> st.snapshot.None? && r.state.snapshot == Some(st.tables) &&
                    ValidateSale(s).None? && r.sale == Prepared(st.tables, s, today) &&
                    (MovedStock(st.tables, failing, r.sale.items, Sell, r.sale.invoiceNumber) == (None, r.state.tables)))
  {
  }

  /** The transaction of createSale as written can never store a sale: the
      repository's BEGIN meets the open transaction, create returns 0, and
      the sale is refused with "Error guardando la venta" after a rollback
      that undoes the stock movements. */
  lemma AsWrittenNeverSaves(st: State, failing: set<Statement>, s: Sale, today: Date)
    requires Calendar.Valid(today)
    ensures var (result, st', _) := CreatedSaleAsWritten(st, failing, s, today);
      result.Err? && st'.tables == st.tables && st'.snapshot == st.snapshot &&
      (StockMovedForSale(st, failing, s, today).Ready? ==> result == Err(SaveFailed))
  {
    StockMovedStage(st, failing, s, today);
    var stage := StockMovedForSale(st, failing, s, today);
    if stage.Ready? {
      SR.CreateInsideTransaction(stage.state, failing, stage.sale, today);
    }
  }

  /** Every sale the corrected createSale stores, the code as written refuses. */
  lemma AsWrittenRefusesWhatCorrectedStores(st: State, failing: set<Statement>, s: Sale, today: Date)
    requires Calendar.Valid(today)
    requires CreatedSale(st, failing, s, today).0 == Ok
    ensures CreatedSaleAsWritten(st, failing, s, today).0 == Err(SaveFailed)
  {
    AsWrittenNeverSaves(st, failing, s, today);
  }

  /** createSale is all or nothing: a refused sale leaves the tables as they
      were, a stored one leaves the stock moved and the sale's rows written;
      either way no transaction is left open. */
  lemma CreateSaleAllOrNothing(st: State, failing: set<Statement>, s: Sale, today: Date)
    requires Calendar.Valid(today) && st.snapshot.None?
    ensures var (result, st', stored) := CreatedSale(st, failing, s, today);
      var prepared := Prepared(st.tables, s, today);
      st'.snapshot.None? &&
      (result.Err? ==> st'.tables == st.tables) &&
      (result == Ok ==>
         var moved := MovedStock(st.tables, failing, prepared.items, Sell, prepared.invoiceNumber);
         moved.0.None? &&
         SR.InsertedRows(moved.1, failing, prepared, today) == SR.Insertion(stored.id, st'.tables, stored))
  {
    StockMovedStage(st, failing, s, today);
  }

  /** createSale keeps the connection well formed, whatever its outcome. */
  lemma CreatedSaleWellFormed(st: State, failing: set<Statement>, s: Sale, today: Date)
    requires Calendar.Valid(today) && StateWellFormed(st)
    ensures StateWellFormed(CreatedSale(st, failing, s, today).1)
  {
    StockMovedStage(st, failing, s, today);
    var stage := StockMovedForSale(st, failing, s, today);
    if stage.Ready? {
      MovedStockWellFormed(st.tables, failing, stage.sale.items, Sell, stage.sale.invoiceNumber);
      assert WellFormed(stage.state.tables) && stage.state.snapshot == Some(st.tables);
      var ins := SR.InsertedRows(stage.state.tables, failing, stage.sale, today);
      assert WellFormed(ins.tables);
    }
  }

  /** The prepared sale keeps the caller's lines and status, takes the
      caller's invoice number or else the next one of the day, and has its
      totals recomputed from the lines. */
  lemma PreparedShape(t: Tables, s: Sale, today: Date)
    requires Calendar.Valid(today)
    ensures var p := Prepared(t, s, today);
      p.items == s.items && p.status == s.status &&
      p.invoiceNumber == (if s.invoiceNumber == [] then SR.NextInvoiceNumber(t, today) else s.invoiceNumber) &&
      p.total == SumSubtotals(s.items) + s.tax - s.discount
  {
    TotalsShape(if s.invoiceNumber == [] then s.(invoiceNumber := SR.NextInvoiceNumber(t, today)) else s);
  }

  /** A stored sale went through every step: the stock of the prepared
      lines moved, the rows were inserted, and the result is what the
      insertion wrote. */
  lemma CreatedSaleOk(st: State, failing: set<Statement>, s: Sale, today: Date)
    requires Calendar.Valid(today)
    requires CreatedSale(st, failing, s, today).0 == Ok
    ensures var prepared := Prepared(st.tables, s, today);
      var moved := MovedStock(st.tables, failing, prepared.items, Sell, prepared.invoiceNumber);
      var ins := SR.InsertedRows(moved.1, failing, prepared, today);
      var (_, st', stored) := CreatedSale(st, failing, s, today);
      moved.0.None? && ins.id != 0 && st'.tables == ins.tables && stored == ins.sale
  {
    StockMovedStage(st, failing, s, today);
  }

  /** What a stored sale looks like: the caller's invoice number, or the
      next one of the day when the caller gave none; totals recomputed from
      the lines; and it reads back with its lines and status. */
  lemma CreateSaleEffect(st: State, failing: set<Statement>, s: Sale, today: Date)
    requires Calendar.Valid(today) && WellFormed(st.tables)
    requires CreatedSale(st, failing, s, today).0 == Ok
    ensures var (_, st', stored) := CreatedSale(st, failing, s, today);
      var t := st.tables;
      var t' := st'.tables;
      stored.invoiceNumber == (if s.invoiceNumber == [] then SR.NextInvoiceNumber(t, today) else s.invoiceNumber) &&
      stored.total == SumSubtotals(s.items) + s.tax - s.discount &&
      stored.status == s.status &&
      SR.FindById(t', stored.id).Some? && SR.FindById(t', stored.id).value.items == stored.items &&
      SR.FindById(t', stored.id).value.status == s.status
  {
    CreatedSaleOk(st, failing, s, today);
    PreparedShape(st.tables, s, today);
    var prepared := Prepared(st.tables, s, today);
    var moved := MovedStock(st.tables, failing, prepared.items, Sell, prepared.invoiceNumber);
    MovedStockWellFormed(st.tables, failing, prepared.items, Sell, prepared.invoiceNumber);
    SR.InsertedRowsSucceed(moved.1, failing, prepared, today);
    SR.InsertedSaleReadsBack(moved.1, failing, prepared, today);
  }

  /** A stored sale lowers every product's stock by the quantity sold, and
      adds one ledger row per line and one sale header. */
  lemma CreateSaleMovesStock(st: State, failing: set<Statement>, s: Sale, today: Date)
    requires Calendar.Valid(today) && WellFormed(st.tables)
    requires CreatedSale(st, failing, s, today).0 == Ok
    ensures var t := st.tables;
      var t' := CreatedSale(st, failing, s, today).1.tables;
      Shifted(t.products, t'.products, s.items, Sell) &&
      |t'.movements| == |t.movements| + |s.items| &&
      |t'.sales| == |t.sales| + 1
  {
    CreatedSaleOk(st, failing, s, today);
    PreparedShape(st.tables, s, today);
    var prepared := Prepared(st.tables, s, today);
    MovedStockEffect(st.tables, failing, prepared.items, Sell, prepared.invoiceNumber);
    var moved := MovedStock(st.tables, failing, prepared.items, Sell, prepared.invoiceNumber);
    SR.InsertedRowsSucceed(moved.1, failing, prepared, today);
  }

  /** Validation looks at the total the caller passes, before the totals
      are recomputed: a sale whose lines sum to zero passes when its stated
      total is positive. */
  lemma ValidationPrecedesTotals()
    ensures var s := NewSale.(total := 1.0, items := [NewItem.(productName := "x", quantity := 1.0)]);
      ValidateSale(s).None? && WithTotals(s).total == 0.0
  {
    var s := NewSale.(total := 1.0, items := [NewItem.(productName := "x", quantity := 1.0)]);
    assert SumSubtotals(s.items) == SumSubtotals([]) + 0.0;
  }

  /** Sale::isValid and validateSale ask the same of the lines and the
      total; isValid also asks for an invoice number, which createSale
      supplies before the sale is written, so the prepared sale is valid
      exactly when its recomputed total is positive. */
  lemma ValidationMatchesIsValid(t: Tables, s: Sale, today: Date)
    requires Calendar.Valid(today)
    ensures SaleModel.IsValid(s) <==>
      s.invoiceNumber != [] && ValidateSale(s) != Some(NoItems) && ValidateSale(s) != Some(NonPositiveTotal)
    ensures ValidateSale(s).None? && s.invoiceNumber != [] ==> SaleModel.IsValid(s)
    ensures ValidateSale(s).None? ==>
      (SaleModel.IsValid(Prepared(t, s, today)) <==> SumSubtotals(s.items) + s.tax - s.discount > 0.0)
  {
    PreparedShape(t, s, today);
    if s.invoiceNumber == [] {
      var r := SR.NextInvoiceNumber(t, today);
      assert |r| >= |SR.DatePrefix(today) + "-"| >= 1;
    }
  }

  // ---------------------------------------------------------------------------
  // cancelSale
  // ---------------------------------------------------------------------------

  /** SalesService::cancelSale: the sale must exist and not be cancelled
      already; then, in one transaction, the stock of its lines goes back
      and its status becomes CANCELLED. */
  function CancelledSale(st: State, failing: set<Statement>, saleId: int): (r: (SaleResult, State))
  {
    match SR.FindById(st.tables, saleId)
    case None => (Err(SaleNotFound), st)
    case Some(sale) =>
      if sale.status == Cancelled then (Err(AlreadyCancelled), st)
      else
        var b := Begin(st, failing);
        if !b.ok then (Err(BeginFailed), st)
        else
          var moved := MovedStock(st.tables, failing, sale.items, Return, sale.invoiceNumber);
          if moved.0.Some? then (Err(moved.0.value), Rollback(State(moved.1, b.state.snapshot)).state)
          else
            var cancelled := SR.CancelRow(moved.1, failing, saleId);
            if !cancelled.0 then (Err(CancelFailed), Rollback(State(cancelled.1, b.state.snapshot)).state)
            else
              var c := Commit(State(cancelled.1, b.state.snapshot), failing);
              if !c.ok then (Err(CancelCommitFailed), Rollback(c.state).state) else (Ok, c.state)
  }

  /** cancelSale refuses an unknown or already cancelled sale without
      touching anything, and a failure after BEGIN rolls back to the tables
      from before; either way no transaction is left open. */
  lemma CancelSaleAllOrNothing(st: State, failing: set<Statement>, saleId: int)
    requires st.snapshot.None?
    ensures var (result, st') := CancelledSale(st, failing, saleId);
      st'.snapshot.None? &&
      (SR.FindById(st.tables, saleId).None? ==> result == Err(SaleNotFound) && st' == st) &&
      (SR.FindById(st.tables, saleId).Some? && SR.FindById(st.tables, saleId).value.status == Cancelled ==>
         result == Err(AlreadyCancelled) && st' == st) &&
      (result.Err? ==> st'.tables == st.tables)
  {
  }

  /** cancelSale keeps the connection well formed, whatever its outcome. */
  lemma CancelledSaleWellFormed(st: State, failing: set<Statement>, saleId: int)
    requires StateWellFormed(st)
    ensures StateWellFormed(CancelledSale(st, failing, saleId).1)
  {
    match SR.FindById(st.tables, saleId)
    case None =>
    case Some(sale) =>
      MovedStockWellFormed(st.tables, failing, sale.items, Return, sale.invoiceNumber);
  }

  /** A cancelled sale gives back the stock of each of its lines, reads back
      CANCELLED, and keeps its lines. */
  lemma CancelSaleEffect(st: State, failing: set<Statement>, saleId: int)
    requires WellFormed(st.tables)
    requires CancelledSale(st, failing, saleId).0 == Ok
    ensures var t := st.tables;
      var t' := CancelledSale(st, failing, saleId).1.tables;
      SR.FindById(t, saleId).Some? && SR.FindById(t, saleId).value.status != Cancelled &&
      SR.FindById(t', saleId) == Some(SR.FindById(t, saleId).value.(status := Cancelled)) &&
      Shifted(t.products, t'.products, SR.FindById(t, saleId).value.items, Return) &&
      |t'.movements| == |t.movements| + |SR.FindById(t, saleId).value.items|
  {
    var sale := SR.FindById(st.tables, saleId).value;
    MovedStockWellFormed(st.tables, failing, sale.items, Return, sale.invoiceNumber);
    MovedStockEffect(st.tables, failing, sale.items, Return, sale.invoiceNumber);
    var moved := MovedStock(st.tables, failing, sale.items, Return, sale.invoiceNumber);
    SR.CancelEffect(moved.1, failing, saleId);
    assert SR.FindById(moved.1, saleId) == SR.FindById(st.tables, saleId);
  }

  /** Taking out the quantities of some lines and giving back those of lines
      with the same products and quantities restores every product. */
  lemma SellThenReturn(p0: seq<Product>, p1: seq<Product>, p2: seq<Product>, sold: seq<SaleItem>, returned: seq<SaleItem>)
    requires Shifted(p0, p1, sold, Sell) && Shifted(p1, p2, returned, Return)
    requires |sold| == |returned|
    requires forall j :: 0 <= j < |sold| ==>
      sold[j].productId == returned[j].productId && sold[j].quantity == returned[j].quantity
    ensures p2 == p0
  {
    forall i | 0 <= i < |p0| ensures p2[i] == p0[i] {
      QuantityOfSameLines(sold, returned, p0[i].id);
    }
  }

  /** Selling and then cancelling the sale leaves every product exactly as
      it was, with two ledger rows per line. */
  lemma CreateThenCancelRestoresStock(st: State, failing: set<Statement>, s: Sale, today: Date)
    requires Calendar.Valid(today) && WellFormed(st.tables) && st.snapshot.None?
    requires CreatedSale(st, failing, s, today).0 == Ok
    requires CancelledSale(CreatedSale(st, failing, s, today).1, failing, CreatedSale(st, failing, s, today).2.id).0 == Ok
    ensures var (_, st1, stored) := CreatedSale(st, failing, s, today);
      var st2 := CancelledSale(st1, failing, stored.id).1;
      st2.tables.products == st.tables.products &&
      |st2.tables.movements| == |st.tables.movements| + 2 * |s.items| &&
      st2.snapshot.None? &&
      SR.FindById(st2.tables, stored.id).Some? && SR.FindById(st2.tables, stored.id).value.status == Cancelled
  {
    var (_, st1, stored) := CreatedSale(st, failing, s, today);
    CreateSaleEffect(st, failing, s, today);
    CreateSaleMovesStock(st, failing, s, today);
    CreateSaleAllOrNothing(st, failing, s, today);
    CreatedSaleWellFormed(st, failing, s, today);
    StoredLines(st, failing, s, today);
    CancelSaleEffect(st1, failing, stored.id);
    CancelSaleAllOrNothing(st1, failing, stored.id);
    var st2 := CancelledSale(st1, failing, stored.id).1;
    SellThenReturn(st.tables.products, st1.tables.products, st2.tables.products, s.items, stored.items);
  }

  /** The lines of a stored sale carry the caller's products and quantities. */
  lemma StoredLines(st: State, failing: set<Statement>, s: Sale, today: Date)
    requires Calendar.Valid(today)
    requires CreatedSale(st, failing, s, today).0 == Ok
    ensures var stored := CreatedSale(st, failing, s, today).2;
      |stored.items| == |s.items| &&
      forall j :: 0 <= j < |s.items| ==>
        stored.items[j].productId == s.items[j].productId && stored.items[j].quantity == s.items[j].quantity
  {
    StockMovedStage(st, failing, s, today);
    PreparedShape(st.tables, s, today);
    var prepared := Prepared(st.tables, s, today);
    var moved := MovedStock(st.tables, failing, prepared.items, Sell, prepared.invoiceNumber);
    SR.InsertedRowsSucceed(moved.1, failing, prepared, today);
  }

  // ---------------------------------------------------------------------------
  // The service's methods on the shared connection
  // ---------------------------------------------------------------------------

  /** updateStockForSale (Sell) and revertStockForSale (Return): the loop
      over the items. */
  method MoveStock(db: Connection, items: seq<SaleItem>, d: Direction, invoice: string) returns (failure: Option<SaleFailure>)
    requires db.Valid()
    modifies db
    ensures db.Valid() && db.snapshot == old(db.snapshot)
    ensures (failure, db.tables) == MovedStock(old(db.tables), db.failing, items, d, invoice)
  {
    var i := 0;
    while i < |items|
      invariant 0 <= i <= |items|
      invariant db.Valid() && db.snapshot == old(db.snapshot)
      invariant MovedStock(old(db.tables), db.failing, items, d, invoice) == MovedStock(db.tables, db.failing, items[i..], d, invoice)
    {
      var x := items[i];
      assert items[i..][0] == x && items[i..][1..] == items[i + 1..];
      ghost var before := db.tables;
      var status := PS.RegisterStockMovement(db, x.productId, MovementCode(d), x.quantity, x.unitPrice,
                                             invoice, MovementNotes(d, invoice));
      MovedStockStep(before, db.failing, items[i..], d, invoice, status, db.tables);
      if status.Failed? {
        return Some(StockFailure(d, x.productName, status.why));
      }
      i := i + 1;
    }
    return None;
  }

  /** createSale up to the stock update. */
  method MoveStockForSale(db: Connection, sale: Sale) returns (stage: Stage)
    requires db.Valid()
    modifies db
    ensures db.Valid()
    ensures stage == StockMovedForSale(old(db.Current()), db.failing, sale, db.today)
    ensures db.Current() == stage.state
  {
    var problem := ValidateSale(sale);
    if problem.Some? {
      return Refused(problem.value, db.Current(), sale);
    }
    var prepared := sale;
    if sale.invoiceNumber == [] {
      prepared := prepared.(invoiceNumber := SR.NextInvoiceNumber(db.tables, db.today));
    }
    prepared := CalculateTotals(prepared);
    var begun := db.BeginTransaction();
    if !begun {
      return Refused(BeginFailed, db.Current(), prepared);
    }
    var failure := MoveStock(db, prepared.items, Sell, prepared.invoiceNumber);
    if failure.Some? {
      var _ := db.RollbackTransaction();
      return Refused(failure.value, db.Current(), prepared);
    }
    return Ready(db.Current(), prepared);
  }

  /** SalesService::createSale as written, calling the repository's create. */
  method CreateSaleAsWritten(db: Connection, sale: Sale) returns (result: SaleResult, stored: Sale)
    requires db.Valid()
    modifies db
    ensures db.Valid()
    ensures (result, db.Current(), stored) == CreatedSaleAsWritten(old(db.Current()), db.failing, sale, db.today)
  {
    var stage := MoveStockForSale(db, sale);
    if stage.Refused? {
      return Err(stage.why), stage.sale;
    }
    var id;
    id, stored := SR.Create(db, stage.sale);
    if id == 0 {
      var _ := db.RollbackTransaction();
      return Err(SaveFailed), stored;
    }
    var committed := db.CommitTransaction();
    if !committed {
      var _ := db.RollbackTransaction();
      return Err(CommitFailed), stored;
    }
    result := Ok;
  }

  /** SalesService::createSale, with the sale's rows written inside its
      transaction. */
  method CreateSale(db: Connection, sale: Sale) returns (result: SaleResult, stored: Sale)
    requires db.Valid()
    modifies db
    ensures db.Valid()
    ensures (result, db.Current(), stored) == CreatedSale(old(db.Current()), db.failing, sale, db.today)
  {
    var stage := MoveStockForSale(db, sale);
    if stage.Refused? {
      return Err(stage.why), stage.sale;
    }
    var id;
    id, stored := SR.InsertWithinTransaction(db, stage.sale);
    if id == 0 {
      var _ := db.RollbackTransaction();
      return Err(SaveFailed), stored;
    }
    var committed := db.CommitTransaction();
    if !committed {
      var _ := db.RollbackTransaction();
      return Err(CommitFailed), stored;
    }
    result := Ok;
  }

  /** SalesService::cancelSale. */
  method CancelSale(db: Connection, saleId: int) returns (result: SaleResult)
    requires db.Valid()
    modifies db
    ensures db.Valid()
    ensures (result, db.Current()) == CancelledSale(old(db.Current()), db.failing, saleId)
  {
    var found := SR.FindById(db.tables, saleId);
    if found.None? {
      return Err(SaleNotFound);
    }
    var sale := found.value;
    if sale.status == Cancelled {
      return Err(AlreadyCancelled);
    }
    var begun := db.BeginTransaction();
    if !begun {
      return Err(BeginFailed);
    }
    var failure := MoveStock(db, sale.items, Return, sale.invoiceNumber);
    if failure.Some? {
      var _ := db.RollbackTransaction();
      return Err(failure.value);
    }
    var ok := SR.Cancel(db, saleId);
    if !ok {
      var _ := db.RollbackTransaction();
      return Err(CancelFailed);
    }
    var committed := db.CommitTransaction();
    if !committed {
      var _ := db.RollbackTransaction();
      return Err(CancelCommitFailed);
    }
    result := Ok;
  }
}
