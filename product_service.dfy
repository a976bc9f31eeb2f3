/** ProductService (src/services/ProductService.cpp): validation of products,
    their creation, update and removal, and the stock ledger (kardex): every
    change of stock goes through registerStockMovement, which writes the new
    stock and appends a movement recording it. The service neither begins
    nor ends a transaction; its caller does. */
module ProductService {
  import opened Common
  import opened ProductModel
  import opened StockMovementModel
  import opened Database
  import Repo = ProductRepository

  // ---------------------------------------------------------------------------
  // Movement types
  // ---------------------------------------------------------------------------

  /** The movement types the schema seeds, in id order (ids 1 to 6), and the
      sign each applies to the stock (src/database/DatabaseManager.cpp:217-223). */
  const MovementCodes: seq<string> :=
    ["COMPRA", "VENTA", "AJUSTE_POSITIVO", "AJUSTE_NEGATIVO", "DEVOLUCION_COMPRA", "DEVOLUCION_VENTA"]
  const MovementSigns: seq<int> := [1, -1, 1, -1, -1, 1]

  /** getMovementTypeId: the id of the type with this code, 0 when there is none. */
  function MovementTypeId(code: string): (id: int)
    ensures 0 <= id <= |MovementCodes|
    ensures id > 0 ==> MovementCodes[id - 1] == code
    ensures id == 0 <==> code !in MovementCodes
  {
    if code == MovementCodes[0] then 1
    else if code == MovementCodes[1] then 2
    else if code == MovementCodes[2] then 3
    else if code == MovementCodes[3] then 4
    else if code == MovementCodes[4] then 5
    else if code == MovementCodes[5] then 6
    else 0
  }

  /** affects_stock of a movement type: +1 adds the quantity, -1 takes it away. */
  function AffectsStock(typeId: int): (sign: int)
    requires 1 <= typeId <= |MovementCodes|
    ensures sign == 1 || sign == -1
  {
    MovementSigns[typeId - 1]
  }

  /** Purchases, positive adjustments and sale returns add stock; sales,
      negative adjustments and purchase returns take it away. A sale and its
      return, and a purchase and its return, move stock in opposite directions. */
  lemma MovementSignsAsSeeded()
    ensures MovementTypeId("COMPRA") == 1 && MovementTypeId("VENTA") == 2
    ensures MovementTypeId("AJUSTE_POSITIVO") == 3 && MovementTypeId("AJUSTE_NEGATIVO") == 4
    ensures MovementTypeId("DEVOLUCION_COMPRA") == 5 && MovementTypeId("DEVOLUCION_VENTA") == 6
    ensures AffectsStock(MovementTypeId("COMPRA")) == 1
    ensures AffectsStock(MovementTypeId("VENTA")) == -1
    ensures AffectsStock(MovementTypeId("AJUSTE_POSITIVO")) == 1
    ensures AffectsStock(MovementTypeId("AJUSTE_NEGATIVO")) == -1
    ensures AffectsStock(MovementTypeId("DEVOLUCION_COMPRA")) == -1
    ensures AffectsStock(MovementTypeId("DEVOLUCION_VENTA")) == 1
    ensures MovementTypeId("ENTRADA") == 0 && MovementTypeId("") == 0
  {
  }

  // ---------------------------------------------------------------------------
  // Outcomes
  // ---------------------------------------------------------------------------

  /** The errors the service reports, one per message it writes. */
  datatype Failure =
    | NameRequired
    | NegativeSalePrice
    | NegativePurchasePrice
    | NegativeMinimumStock
    | SkuInUse(sku: string)
    | BarcodeInUse(barcode: string)
    | ProductNotFound
    | InvalidMovementType
    | InsufficientStock(current: real, requested: real)
    | StockUpdateFailed
    | MovementLogFailed
    | SaveFailed
    | UpdateFailed
    | DeleteFailed

  datatype Status = Success | Failed(why: Failure)

  /** The message the service writes for each failure. The numbers of an
      insufficient-stock message are not rendered. */
  function Message(f: Failure): string {
    match f
    case NameRequired => "El nombre del producto es obligatorio"
    case NegativeSalePrice => "El precio de venta no puede ser negativo"
    case NegativePurchasePrice => "El precio de compra no puede ser negativo"
    case NegativeMinimumStock => "El stock mínimo no puede ser negativo"
    case SkuInUse(sku) => "El SKU '" + sku + "' ya está en uso"
    case BarcodeInUse(barcode) => "El código de barras '" + barcode + "' ya está en uso"
    case ProductNotFound => "Producto no encontrado"
    case InvalidMovementType => "Tipo de movimiento inválido"
    case InsufficientStock(_, _) => "Stock insuficiente"
    case StockUpdateFailed => "Error actualizando stock"
    case MovementLogFailed => "Error registrando movimiento"
    case SaveFailed => "Error al guardar el producto en la base de datos"
    case UpdateFailed => "Error al actualizar el producto"
    case DeleteFailed => "Error al eliminar el producto"
  }

  // ---------------------------------------------------------------------------
  // Validation
  // ---------------------------------------------------------------------------

  /** isSkuUnique: an empty sku is always free; otherwise the sku is free when
      no product holds it or the one found is the product being edited. */
  function IsSkuUnique(t: Tables, sku: string, excludeId: int): bool {
    sku == [] || Repo.FindBySku(t, sku).None? || Repo.FindBySku(t, sku).value.id == excludeId
  }

  /** isBarcodeUnique, likewise for barcodes. */
  function IsBarcodeUnique(t: Tables, barcode: string, excludeId: int): bool {
    barcode == [] || Repo.FindByBarcode(t, barcode).None? || Repo.FindByBarcode(t, barcode).value.id == excludeId
  }

  /** No two rows share a non-empty sku: what the UNIQUE constraint keeps. */
  predicate SkusDistinct(t: Tables) {
    forall i, j :: 0 <= i < j < |t.products| && t.products[i].sku != [] ==> t.products[i].sku != t.products[j].sku
  }

  /** With distinct skus, isSkuUnique holds exactly when no product other
      than the excluded one holds the (non-empty) sku. */
  lemma SkuUniqueMeansNoOtherHolder(t: Tables, sku: string, excludeId: int)
    requires SkusDistinct(t)
    ensures IsSkuUnique(t, sku, excludeId) <==>
      forall i :: 0 <= i < |t.products| && sku != [] && t.products[i].sku == sku ==> t.products[i].id == excludeId
  {
    Repo.FindBySkuSpec(t, sku);
    if sku != [] && Repo.FindBySku(t, sku).Some? {
      var found := Repo.FindBySku(t, sku).value;
      var k :| 0 <= k < |t.products| && t.products[k] == found;
    }
  }

  /** validateProduct: the first failing check, or None. */
  function ValidateProduct(t: Tables, p: Product): (r: Option<Failure>)
    ensures r.None? <==>
      Trim(p.name) != [] && p.salePrice >= 0.0 && p.purchasePrice >= 0.0 && p.minimumStock >= 0.0 &&
      IsSkuUnique(t, p.sku, p.id) && IsBarcodeUnique(t, p.barcode, p.id)
    ensures r == Some(NameRequired) <==> Trim(p.name) == []
    ensures r == Some(NegativeSalePrice) <==> Trim(p.name) != [] && p.salePrice < 0.0
    ensures r == Some(NegativePurchasePrice) <==>
      Trim(p.name) != [] && p.salePrice >= 0.0 && p.purchasePrice < 0.0
    ensures r == Some(NegativeMinimumStock) <==>
      Trim(p.name) != [] && p.salePrice >= 0.0 && p.purchasePrice >= 0.0 && p.minimumStock < 0.0
    ensures r == Some(SkuInUse(p.sku)) <==>
      Trim(p.name) != [] && p.salePrice >= 0.0 && p.purchasePrice >= 0.0 && p.minimumStock >= 0.0 &&
      !IsSkuUnique(t, p.sku, p.id)
    ensures r == Some(BarcodeInUse(p.barcode)) <==>
      Trim(p.name) != [] && p.salePrice >= 0.0 && p.purchasePrice >= 0.0 && p.minimumStock >= 0.0 &&
      IsSkuUnique(t, p.sku, p.id) && !IsBarcodeUnique(t, p.barcode, p.id)
  {
    if Trim(p.name) == [] then Some(NameRequired)
    else if p.salePrice < 0.0 then Some(NegativeSalePrice)
    else if p.purchasePrice < 0.0 then Some(NegativePurchasePrice)
    else if p.minimumStock < 0.0 then Some(NegativeMinimumStock)
    else if p.sku != [] && !IsSkuUnique(t, p.sku, p.id) then Some(SkuInUse(p.sku))
    else if p.barcode != [] && !IsBarcodeUnique(t, p.barcode, p.id) then Some(BarcodeInUse(p.barcode))
    else None
  }

  /** Empty sku and barcode never clash, and a product never clashes with
      itself: re-validating a stored product checks only its fields. */
  lemma OwnCodesPass(t: Tables, p: Product)
    requires Repo.FindBySku(t, p.sku).Some? ==> Repo.FindBySku(t, p.sku).value.id == p.id
    requires Repo.FindByBarcode(t, p.barcode).Some? ==> Repo.FindByBarcode(t, p.barcode).value.id == p.id
    ensures ValidateProduct(t, p).None? <==>
      Trim(p.name) != [] && p.salePrice >= 0.0 && p.purchasePrice >= 0.0 && p.minimumStock >= 0.0
  {
  }

  // ---------------------------------------------------------------------------
  // The ledger
  // ---------------------------------------------------------------------------

  /** logStockMovement: the INSERT into stock_movements; it fails when the
      engine rejects it or a foreign key (product, type) names no row. */
  function Logged(t: Tables, failing: set<Statement>, m: StockMovement): (r: (bool, Tables))
    ensures r.1.products == t.products && r.1.sales == t.sales && r.1.saleItems == t.saleItems
    ensures r.0 ==> r.1.movements == t.movements + [m.(id := t.nextMovementId)]
    ensures !r.0 ==> r.1 == t
  {
    if InsertMovement in failing || ProductIndex(t.products, m.productId) == |t.products|
      || !(1 <= m.movementTypeId <= |MovementCodes|)
    then (false, t)
    else (true, AppendMovement(t, m))
  }

  /** logStockMovement keeps the tables well formed. */
  lemma LoggedWellFormed(t: Tables, failing: set<Statement>, m: StockMovement)
    requires WellFormed(t)
    ensures WellFormed(Logged(t, failing, m).1)
  {
  }

  /** registerStockMovement: looks the product and the movement type up,
      computes the new stock, refuses a negative one, then writes the stock
      and appends the movement, in that order and with nothing undone if the
      second write fails. */
  function Registered(t: Tables, failing: set<Statement>, productId: int, code: string,
                      quantity: real, unitPrice: real, reference: string, notes: string): (r: (Status, Tables))
    ensures WellFormed(t) ==> WellFormed(r.1)
  {
    var found := Repo.FindById(t, productId);
    if found.None? then (Failed(ProductNotFound), t)
    else
      var typeId := MovementTypeId(code);
      if typeId == 0 then (Failed(InvalidMovementType), t)
      else
        var previous := found.value.currentStock;
        var next := StockAfter(previous, code, quantity);
        if next < 0.0 then (Failed(InsufficientStock(previous, quantity)), t)
        else
          var updated := Repo.StockUpdated(t, failing, productId, next);
          if !updated.0 then (Failed(StockUpdateFailed), updated.1)
          else
            var logged := Logged(updated.1, failing, MovementOf(productId, typeId, quantity, previous, next, unitPrice, reference, notes));
            (if logged.0 then Success else Failed(MovementLogFailed), logged.1)
  }

  /** The ledger row registerStockMovement appends (no id yet, no author). */
  function MovementOf(productId: int, typeId: int, quantity: real, previous: real, next: real,
                      unitPrice: real, reference: string, notes: string): StockMovement {
    StockMovement(0, productId, typeId, quantity, previous, next, unitPrice, reference, notes, "")
  }

  /** The stock a registered movement leads to. */
  function StockAfter(previous: real, code: string, quantity: real): real
    requires MovementTypeId(code) != 0
  {
    previous + quantity * AffectsStock(MovementTypeId(code)) as real
  }

  /** A movement fails before any write, leaving the tables as they were,
      when the product is missing, the code is unknown, or the stock would
      go below zero. */
  lemma RegisterRefusals(t: Tables, failing: set<Statement>, productId: int, code: string,
                         quantity: real, unitPrice: real, reference: string, notes: string)
    ensures var (status, t') := Registered(t, failing, productId, code, quantity, unitPrice, reference, notes);
      (Repo.FindById(t, productId).None? ==> status == Failed(ProductNotFound) && t' == t) &&
      (Repo.FindById(t, productId).Some? && MovementTypeId(code) == 0 ==> status == Failed(InvalidMovementType) && t' == t) &&
      (Repo.FindById(t, productId).Some? && MovementTypeId(code) != 0 &&
       StockAfter(Repo.FindById(t, productId).value.currentStock, code, quantity) < 0.0 ==>
         status == Failed(InsufficientStock(Repo.FindById(t, productId).value.currentStock, quantity)) && t' == t)
  {
  }

  /** On success the product's stock is the new stock, exactly one movement
      is appended recording the old and the new stock, and nothing else
      changes; success needs both writes to go through. */
  lemma RegisterSuccess(t: Tables, failing: set<Statement>, productId: int, code: string,
                        quantity: real, unitPrice: real, reference: string, notes: string)
    requires Registered(t, failing, productId, code, quantity, unitPrice, reference, notes).0 == Success
    ensures var t' := Registered(t, failing, productId, code, quantity, unitPrice, reference, notes).1;
      var before := Repo.FindById(t, productId).value;
      var typeId := MovementTypeId(code);
      var next := StockAfter(before.currentStock, code, quantity);
      typeId != 0 && next >= 0.0 && UpdateStock !in failing && InsertMovement !in failing &&
      Repo.FindById(t', productId) == Some(before.(currentStock := next)) &&
      t'.products == t.products[ProductIndex(t.products, productId) := before.(currentStock := next)] &&
      (forall i :: 0 <= i < |t.products| && t.products[i].id != productId ==> t'.products[i] == t.products[i]) &&
      t'.movements == t.movements +
        [StockMovement(t.nextMovementId, productId, typeId, quantity, before.currentStock, next, unitPrice, reference, notes, "")] &&
      t'.sales == t.sales && t'.saleItems == t.saleItems
  {
    var k := ProductIndex(t.products, productId);
    var t1 := Repo.StockUpdated(t, failing, productId, StockAfter(t.products[k].currentStock, code, quantity)).1;
    Repo.UpdateStockOnlyStock(t, failing, productId, StockAfter(t.products[k].currentStock, code, quantity));
    assert ProductIndex(t1.products, productId) == k by {
      forall i | 0 <= i < k ensures t1.products[i].id != productId { assert t1.products[i] == t.products[i]; }
    }
  }

  /** When the movement cannot be logged the stock write stands: the product
      has its new stock but the ledger has no entry for it. */
  lemma RegisterStockStands(t: Tables, failing: set<Statement>, productId: int, code: string,
                            quantity: real, unitPrice: real, reference: string, notes: string)
    requires Registered(t, failing, productId, code, quantity, unitPrice, reference, notes).0 == Failed(MovementLogFailed)
    ensures var t' := Registered(t, failing, productId, code, quantity, unitPrice, reference, notes).1;
      t'.movements == t.movements &&
      Repo.FindById(t', productId).Some? &&
      Repo.FindById(t', productId).value.currentStock == StockAfter(Repo.FindById(t, productId).value.currentStock, code, quantity)
  {
    var k := ProductIndex(t.products, productId);
    var next := StockAfter(t.products[k].currentStock, code, quantity);
    var t1 := Repo.StockUpdated(t, failing, productId, next).1;
    Repo.UpdateStockOnlyStock(t, failing, productId, next);
    assert ProductIndex(t1.products, productId) == k by {
      forall i | 0 <= i < k ensures t1.products[i].id != productId { assert t1.products[i] == t.products[i]; }
    }
  }

  /** adjustStock: no movement when the stock already has the requested
      value; otherwise a positive or negative adjustment by the difference. */
  function Adjusted(t: Tables, failing: set<Statement>, productId: int, newStock: real, reason: string): (r: (Status, Tables))
    ensures WellFormed(t) ==> WellFormed(r.1)
  {
    var found := Repo.FindById(t, productId);
    if found.None? then (Failed(ProductNotFound), t)
    else
      var difference := newStock - found.value.currentStock;
      if difference == 0.0 then (Success, t)
      else
        var code := if difference > 0.0 then "AJUSTE_POSITIVO" else "AJUSTE_NEGATIVO";
        Registered(t, failing, productId, code, if difference >= 0.0 then difference else -difference, 0.0, reason, "")
  }

  /** An adjustment that changes the stock is a registered movement of the
      difference, positive or negative. */
  lemma AdjustedRegisters(t: Tables, failing: set<Statement>, productId: int, newStock: real, reason: string)
    requires Repo.FindById(t, productId).Some? && Repo.FindById(t, productId).value.currentStock != newStock
    ensures var d := newStock - Repo.FindById(t, productId).value.currentStock;
      Adjusted(t, failing, productId, newStock, reason)
        == Registered(t, failing, productId, if d > 0.0 then "AJUSTE_POSITIVO" else "AJUSTE_NEGATIVO",
                      if d >= 0.0 then d else -d, 0.0, reason, "")
  {
  }

  /** After a successful adjustment the product's stock is the requested
      value, and a negative target is never written. */
  lemma AdjustReachesTarget(t: Tables, failing: set<Statement>, productId: int, newStock: real, reason: string)
    ensures var (status, t') := Adjusted(t, failing, productId, newStock, reason);
      (status == Success ==> Repo.FindById(t', productId).Some? && Repo.FindById(t', productId).value.currentStock == newStock) &&
      (newStock < 0.0 ==> status != Success || t' == t)
  {
    var found := Repo.FindById(t, productId);
    if found.Some? && newStock != found.value.currentStock {
      var difference := newStock - found.value.currentStock;
      var code := if difference > 0.0 then "AJUSTE_POSITIVO" else "AJUSTE_NEGATIVO";
      AdjustArithmetic(found.value.currentStock, newStock);
      AdjustedRegisters(t, failing, productId, newStock, reason);
      RegisterReaches(t, failing, productId, code, if difference >= 0.0 then difference else -difference, 0.0, reason, "", newStock);
    }
  }

  /** An adjustment to the current value succeeds and writes nothing. */
  lemma AdjustToCurrentWritesNothing(t: Tables, failing: set<Statement>, productId: int, newStock: real, reason: string)
    requires Repo.FindById(t, productId).Some? && Repo.FindById(t, productId).value.currentStock == newStock
    ensures Adjusted(t, failing, productId, newStock, reason) == (Success, t)
  {
  }

  /** A movement whose stock arithmetic lands on `target` leaves the product
      at `target` when it succeeds, and is refused for a negative target. */
  lemma RegisterReaches(t: Tables, failing: set<Statement>, productId: int, code: string,
                        quantity: real, unitPrice: real, reference: string, notes: string, target: real)
    requires Repo.FindById(t, productId).Some? && MovementTypeId(code) != 0
    requires StockAfter(Repo.FindById(t, productId).value.currentStock, code, quantity) == target
    ensures var (status, t') := Registered(t, failing, productId, code, quantity, unitPrice, reference, notes);
      (status == Success ==> Repo.FindById(t', productId).Some? && Repo.FindById(t', productId).value.currentStock == target) &&
      (target < 0.0 ==> status != Success)
  {
    RegisterRefusals(t, failing, productId, code, quantity, unitPrice, reference, notes);
    if Registered(t, failing, productId, code, quantity, unitPrice, reference, notes).0 == Success {
      RegisterSuccess(t, failing, productId, code, quantity, unitPrice, reference, notes);
    }
  }

  /** The adjustment movement takes the stock exactly to the requested value. */
  lemma AdjustArithmetic(previous: real, newStock: real)
    requires newStock != previous
    ensures var d := newStock - previous;
      var code := if d > 0.0 then "AJUSTE_POSITIVO" else "AJUSTE_NEGATIVO";
      MovementTypeId(code) != 0 && StockAfter(previous, code, if d >= 0.0 then d else -d) == newStock
  {
    MovementSignsAsSeeded();
  }

  // ---------------------------------------------------------------------------
  // Products
  // ---------------------------------------------------------------------------

  /** createProduct: validate, insert, then log the opening stock as a
      positive adjustment from 0 when it is positive; the log's own outcome
      is not looked at. The product's new id is returned with the outcome. */
  function CreatedProduct(t: Tables, failing: set<Statement>, p: Product): (r: (Status, Tables, int))
  {
    var invalid := ValidateProduct(t, p);
    if invalid.Some? then (Failed(invalid.value), t, p.id)
    else
      var (id, t1) := Repo.Created(t, failing, p);
      if id == 0 then (Failed(SaveFailed), t1, p.id)
      else if p.currentStock > 0.0 then
        var m := StockMovement(0, id, MovementTypeId("AJUSTE_POSITIVO"), p.currentStock, 0.0, p.currentStock,
                               p.purchasePrice, "Stock inicial", "", "");
        (Success, Logged(t1, failing, m).1, id)
      else (Success, t1, id)
  }

  /** createProduct keeps the tables well formed, whatever its outcome. */
  lemma CreatedProductWellFormed(t: Tables, failing: set<Statement>, p: Product)
    requires WellFormed(t)
    ensures WellFormed(CreatedProduct(t, failing, p).1)
  {
    Repo.CreatedWellFormed(t, failing, p);
    var (id, t1) := Repo.Created(t, failing, p);
    if id != 0 && p.currentStock > 0.0 {
      var m := StockMovement(0, id, MovementTypeId("AJUSTE_POSITIVO"), p.currentStock, 0.0, p.currentStock,
                             p.purchasePrice, "Stock inicial", "", "");
      LoggedWellFormed(t1, failing, m);
    }
  }

  /** The created product reads back with the stock it was given. */
  lemma CreatedWithItsStock(t: Tables, failing: set<Statement>, p: Product)
    requires WellFormed(t)
    requires CreatedProduct(t, failing, p).0 == Success
    ensures var (_, t', id) := CreatedProduct(t, failing, p);
      Repo.FindById(t', id).Some? && Repo.FindById(t', id).value.currentStock == p.currentStock
  {
    Repo.CreateResult(t, failing, p);
    var (id, t1) := Repo.Created(t, failing, p);
    var t' := CreatedProduct(t, failing, p).1;
    assert t'.products == t1.products;
  }

  /** A created product with positive stock gets exactly one opening
      movement, a positive adjustment from 0 to that stock at the purchase
      price (unless the ledger rejects it, which does not undo the creation);
      with no stock there is no movement. */
  lemma CreateLogsOpeningStock(t: Tables, failing: set<Statement>, p: Product)
    requires WellFormed(t)
    requires CreatedProduct(t, failing, p).0 == Success
    ensures var (_, t', id) := CreatedProduct(t, failing, p);
      (p.currentStock <= 0.0 || InsertMovement in failing ==> t'.movements == t.movements) &&
      (p.currentStock > 0.0 && InsertMovement !in failing ==>
        t'.movements == t.movements +
          [StockMovement(t.nextMovementId, id, 3, p.currentStock, 0.0, p.currentStock, p.purchasePrice, "Stock inicial", "", "")])
  {
    MovementSignsAsSeeded();
    var (id, t1) := Repo.Created(t, failing, p);
    var m := StockMovement(0, id, MovementTypeId("AJUSTE_POSITIVO"), p.currentStock, 0.0, p.currentStock,
                           p.purchasePrice, "Stock inicial", "", "");
    assert CreatedProduct(t, failing, p) == (Success, if p.currentStock > 0.0 then Logged(t1, failing, m).1 else t1, id);
    assert t1 == AppendProduct(t, Repo.AsStored(p));
    assert t1.movements == t.movements && t1.nextMovementId == t.nextMovementId;
    assert t1.products[|t.products|].id == id;
    assert ProductIndex(t1.products, id) < |t1.products|;
  }

  /** An invalid product is refused before anything is written. */
  lemma InvalidNotCreated(t: Tables, failing: set<Statement>, p: Product)
    requires ValidateProduct(t, p).Some?
    ensures CreatedProduct(t, failing, p) == (Failed(ValidateProduct(t, p).value), t, p.id)
  {
  }

  /** updateProduct: validate, find the stored product, rewrite it. */
  function UpdatedProduct(t: Tables, failing: set<Statement>, p: Product): (r: (Status, Tables))
    ensures WellFormed(t) ==> WellFormed(r.1)
  {
    var invalid := ValidateProduct(t, p);
    if invalid.Some? then (Failed(invalid.value), t)
    else if Repo.FindById(t, p.id).None? then (Failed(ProductNotFound), t)
    else
      var (ok, t1) := Repo.Updated(t, failing, p);
      if ok then (Success, t1) else (Failed(UpdateFailed), t1)
  }

  /** updateProduct never changes stock and logs no movement, whatever
      currentStock the caller passes in. */
  lemma UpdateNeverMovesStock(t: Tables, failing: set<Statement>, p: Product)
    ensures var t' := UpdatedProduct(t, failing, p).1;
      t'.movements == t.movements && |t'.products| == |t.products| &&
      (forall i :: 0 <= i < |t.products| ==> t'.products[i].currentStock == t.products[i].currentStock)
  {
  }

  /** deleteProduct: find the product, then soft-delete it. */
  function DeletedProduct(t: Tables, failing: set<Statement>, id: int): (r: (Status, Tables))
    ensures WellFormed(t) ==> WellFormed(r.1)
  {
    if Repo.FindById(t, id).None? then (Failed(ProductNotFound), t)
    else
      var (ok, t1) := Repo.Removed(t, failing, id);
      if ok then (Success, t1) else (Failed(DeleteFailed), t1)
  }

  /** A deleted product stays in the table, inactive, with its stock. */
  lemma DeleteKeepsRow(t: Tables, failing: set<Statement>, id: int)
    requires WellFormed(t)
    requires DeletedProduct(t, failing, id).0 == Success
    ensures var t' := DeletedProduct(t, failing, id).1;
      Repo.FindById(t', id).Some? && !Repo.FindById(t', id).value.active &&
      Repo.FindById(t', id).value.currentStock == Repo.FindById(t, id).value.currentStock
  {
    Repo.RemoveIsSoft(t, failing, id);
  }

  // ---------------------------------------------------------------------------
  // The service's methods on the shared connection
  // ---------------------------------------------------------------------------

  /** ProductService::logStockMovement. */
  method LogStockMovement(db: Connection, m: StockMovement) returns (ok: bool)
    requires db.Valid()
    modifies db
    ensures db.Valid() && db.snapshot == old(db.snapshot)
    ensures (ok, db.tables) == Logged(old(db.tables), db.failing, m)
  {
    if InsertMovement in db.failing || ProductIndex(db.tables.products, m.productId) == |db.tables.products|
      || !(1 <= m.movementTypeId <= |MovementCodes|)
    {
      return false;
    }
    db.tables := AppendMovement(db.tables, m);
    ok := true;
  }

  /** ProductService::registerStockMovement. */
  method RegisterStockMovement(db: Connection, productId: int, code: string, quantity: real,
                               unitPrice: real, reference: string, notes: string) returns (status: Status)
    requires db.Valid()
    modifies db
    ensures db.Valid() && db.snapshot == old(db.snapshot)
    ensures (status, db.tables) == Registered(old(db.tables), db.failing, productId, code, quantity, unitPrice, reference, notes)
  {
    var found := Repo.FindById(db.tables, productId);
    if found.None? {
      return Failed(ProductNotFound);
    }
    var typeId := MovementTypeId(code);
    if typeId == 0 {
      return Failed(InvalidMovementType);
    }
    var previous := found.value.currentStock;
    var next := StockAfter(previous, code, quantity);
    if next < 0.0 {
      return Failed(InsufficientStock(previous, quantity));
    }
    ghost var t0 := db.tables;
    var stored := Repo.SetStock(db, productId, next);
    if !stored {
      return Failed(StockUpdateFailed);
    }
    ghost var t1 := db.tables;
    assert t1 == Repo.StockUpdated(t0, db.failing, productId, next).1;
    var logged := LogStockMovement(db, MovementOf(productId, typeId, quantity, previous, next, unitPrice, reference, notes));
    status := if logged then Success else Failed(MovementLogFailed);
  }

  /** ProductService::adjustStock. */
  method AdjustStock(db: Connection, productId: int, newStock: real, reason: string) returns (status: Status)
    requires db.Valid()
    modifies db
    ensures db.Valid() && db.snapshot == old(db.snapshot)
    ensures (status, db.tables) == Adjusted(old(db.tables), db.failing, productId, newStock, reason)
  {
    var found := Repo.FindById(db.tables, productId);
    if found.None? {
      return Failed(ProductNotFound);
    }
    var difference := newStock - found.value.currentStock;
    if difference == 0.0 {
      return Success;
    }
    var code := if difference > 0.0 then "AJUSTE_POSITIVO" else "AJUSTE_NEGATIVO";
    var quantity := if difference >= 0.0 then difference else -difference;
    AdjustedRegisters(db.tables, db.failing, productId, newStock, reason);
    status := RegisterStockMovement(db, productId, code, quantity, 0.0, reason, "");
  }

  /** ProductService::createProduct; `stored` is the product with its new id. */
  method CreateProduct(db: Connection, product: Product) returns (status: Status, stored: Product)
    requires db.Valid()
    modifies db
    ensures db.Valid() && db.snapshot == old(db.snapshot)
    ensures (status, db.tables, stored.id) == CreatedProduct(old(db.tables), db.failing, product)
    ensures stored == product.(id := stored.id)
  {
    var invalid := ValidateProduct(db.tables, product);
    if invalid.Some? {
      return Failed(invalid.value), product;
    }
    var id;
    id, stored := Repo.Create(db, product);
    if id == 0 {
      return Failed(SaveFailed), stored;
    }
    if product.currentStock > 0.0 {
      var _ := LogStockMovement(db, StockMovement(0, id, MovementTypeId("AJUSTE_POSITIVO"), product.currentStock, 0.0,
                                                  product.currentStock, product.purchasePrice, "Stock inicial", "", ""));
    }
    status := Success;
  }

  /** ProductService::updateProduct. */
  method UpdateProduct(db: Connection, product: Product) returns (status: Status)
    requires db.Valid()
    modifies db
    ensures db.Valid() && db.snapshot == old(db.snapshot)
    ensures (status, db.tables) == UpdatedProduct(old(db.tables), db.failing, product)
  {
    var invalid := ValidateProduct(db.tables, product);
    if invalid.Some? {
      return Failed(invalid.value);
    }
    if Repo.FindById(db.tables, product.id).None? {
      return Failed(ProductNotFound);
    }
    var ok := Repo.Update(db, product);
    status := if ok then Success else Failed(UpdateFailed);
  }

  /** ProductService::deleteProduct. */
  method DeleteProduct(db: Connection, id: int) returns (status: Status)
    requires db.Valid()
    modifies db
    ensures db.Valid() && db.snapshot == old(db.snapshot)
    ensures (status, db.tables) == DeletedProduct(old(db.tables), db.failing, id)
  {
    if Repo.FindById(db.tables, id).None? {
      return Failed(ProductNotFound);
    }
    var ok := Repo.Remove(db, id);
    status := if ok then Success else Failed(DeleteFailed);
  }
}
