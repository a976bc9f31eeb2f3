/** The product list behind the inventory screens: the products on show, the
    form data the screens send as QVariantMap values, its validation, and the
    create / update / delete calls into ProductService that reload the list
    when they succeed. */
module ProductListModel {
  import opened Common
  import opened ProductModel
  import opened Database
  import PS = ProductService
  import Repo = ProductRepository

  // ---------------------------------------------------------------------------
  // Form data
  // ---------------------------------------------------------------------------

  /** A QVariant as the screens fill a form: text, a whole number, a number
      with a fraction, or a flag. */
  datatype Value = Text(s: string) | Whole(n: int) | Number(x: real) | Flag(b: bool)

  type VariantMap = map<string, Value>

  /** QVariantMap::value(key, default). A missing key without a default is
      an invalid QVariant, which reads as the empty text. */
  function Get(data: VariantMap, key: string, default: Value): Value {
    if key in data then data[key] else default
  }

  /** qRound: half away from zero. */
  function Round(x: real): int {
    if x >= 0.0 then (x + 0.5).Floor else -((-x + 0.5).Floor)
  }

  /** QVariant::toString. A fractional number's shortest decimal form is not
      modelled; such a value reads as the empty text. */
  function AsText(v: Value): string {
    match v
    case Text(s) => s
    case Whole(n) => IntToString(n)
    case Number(x) => if x.Floor as real == x then IntToString(x.Floor) else []
    case Flag(b) => if b then "true" else "false"
  }

  /** QVariant::toDouble. */
  function AsReal(v: Value): real {
    match v
    case Text(s) => ToReal(s)
    case Whole(n) => n as real
    case Number(x) => x
    case Flag(b) => if b then 1.0 else 0.0
  }

  /** QVariant::toInt. */
  function AsInt(v: Value): int {
    match v
    case Text(s) => ToInt(s)
    case Whole(n) => n
    case Number(x) => Round(x)
    case Flag(b) => if b then 1 else 0
  }

  /** productToVariantMap: every field under its own key, the category's name
      under "category" and the low-stock query under "isLowStock". */
  function AsMap(p: Product): (m: VariantMap)
    ensures m != map[]
  {
    var m := map["id" := Whole(p.id), "name" := Text(p.name), "sku" := Text(p.sku), "barcode" := Text(p.barcode),
        "categoryId" := Whole(p.categoryId), "category" := Text(p.categoryName),
        "currentStock" := Number(p.currentStock), "minimumStock" := Number(p.minimumStock),
        "purchasePrice" := Number(p.purchasePrice), "salePrice" := Number(p.salePrice),
        "description" := Text(p.description), "active" := Flag(p.active), "isLowStock" := Flag(IsLowStock(p))];
    assert "id" in m;
    m
  }

  // ---------------------------------------------------------------------------
  // validateProductData
  // ---------------------------------------------------------------------------

  function NameOf(data: VariantMap): string { Trim(AsText(Get(data, "name", Text("")))) }
  function SkuOf(data: VariantMap): string { Trim(AsText(Get(data, "sku", Text("")))) }
  /** A missing sale price counts as -1, so it is refused. */
  function SalePriceOf(data: VariantMap): real { AsReal(Get(data, "salePrice", Number(-1.0))) }
  function StockOf(data: VariantMap): real { AsReal(Get(data, "currentStock", Number(0.0))) }
  function PurchasePriceOf(data: VariantMap): real { AsReal(Get(data, "purchasePrice", Number(0.0))) }

  /** The checks validateProductData makes, in its order. */
  datatype FormProblem = MissingName | MissingSku | SalePriceNotPositive | NegativeStock | NegativePurchasePrice

  function FormMessage(p: FormProblem): (message: string)
    ensures message != []
  {
    match p
    case MissingName => "El nombre del producto es obligatorio"
    case MissingSku => "El código SKU es obligatorio"
    case SalePriceNotPositive => "El precio de venta debe ser mayor a 0"
    case NegativeStock => "El stock no puede ser negativo"
    case NegativePurchasePrice => "El precio de compra no puede ser negativo"
  }

  /** The form passes every check. */
  predicate FormValid(data: VariantMap) {
    NameOf(data) != [] && SkuOf(data) != [] && SalePriceOf(data) > 0.0 &&
    StockOf(data) >= 0.0 && PurchasePriceOf(data) >= 0.0
  }

  /** The first check the form fails, if any. */
  function FirstProblem(data: VariantMap): (r: Option<FormProblem>)
    ensures r.None? <==> FormValid(data)
    ensures r == Some(MissingName) <==> NameOf(data) == []
    ensures r == Some(MissingSku) <==> NameOf(data) != [] && SkuOf(data) == []
    ensures r == Some(SalePriceNotPositive) <==> NameOf(data) != [] && SkuOf(data) != [] && SalePriceOf(data) <= 0.0
    ensures r == Some(NegativeStock) <==>
      NameOf(data) != [] && SkuOf(data) != [] && SalePriceOf(data) > 0.0 && StockOf(data) < 0.0
  {
    if NameOf(data) == [] then Some(MissingName)
    else if SkuOf(data) == [] then Some(MissingSku)
    else if SalePriceOf(data) <= 0.0 then Some(SalePriceNotPositive)
    else if StockOf(data) < 0.0 then Some(NegativeStock)
    else if PurchasePriceOf(data) < 0.0 then Some(NegativePurchasePrice)
    else None
  }

  /** validateProductData: the message of the first failing check, or the
      empty text when there is none. */
  function ValidateProductData(data: VariantMap): (message: string)
    ensures message == [] <==> FormValid(data)
    ensures FirstProblem(data).Some? ==> message == FormMessage(FirstProblem(data).value)
  {
    match FirstProblem(data)
    case None => []
    case Some(p) => FormMessage(p)
  }

  /** A sale price of 0, sent or defaulted, is refused by the form although
      the service accepts it; a missing sale price is refused too. */
  lemma SalePriceMustBePositive(data: VariantMap)
    requires NameOf(data) != [] && SkuOf(data) != []
    requires "salePrice" !in data || SalePriceOf(data) == 0.0
    ensures ValidateProductData(data) == FormMessage(SalePriceNotPositive)
  {
  }

  // ---------------------------------------------------------------------------
  // The product addProduct builds, and updateProduct's merge
  // ---------------------------------------------------------------------------

  /** addProduct's product: the trimmed texts and the numbers of the form,
      0 for a missing number, and active. */
  function NewProduct(data: VariantMap): Product {
    Default.(name := NameOf(data), sku := SkuOf(data),
             barcode := Trim(AsText(Get(data, "barcode", Text("")))),
             categoryId := AsInt(Get(data, "categoryId", Whole(0))),
             currentStock := StockOf(data),
             minimumStock := AsReal(Get(data, "minimumStock", Number(0.0))),
             purchasePrice := PurchasePriceOf(data),
             salePrice := AsReal(Get(data, "salePrice", Number(0.0))),
             description := Trim(AsText(Get(data, "description", Text("")))),
             active := true)
  }

  /** updateProduct's merge: each field takes the form's value when its key
      is present and keeps the current one otherwise; texts are trimmed
      either way. */
  function Merged(current: Product, data: VariantMap): Product {
    current.(name := Trim(AsText(Get(data, "name", Text(current.name)))),
             sku := Trim(AsText(Get(data, "sku", Text(current.sku)))),
             barcode := Trim(AsText(Get(data, "barcode", Text(current.barcode)))),
             categoryId := AsInt(Get(data, "categoryId", Whole(current.categoryId))),
             currentStock := AsReal(Get(data, "currentStock", Number(current.currentStock))),
             minimumStock := AsReal(Get(data, "minimumStock", Number(current.minimumStock))),
             purchasePrice := AsReal(Get(data, "purchasePrice", Number(current.purchasePrice))),
             salePrice := AsReal(Get(data, "salePrice", Number(current.salePrice))),
             description := Trim(AsText(Get(data, "description", Text(current.description)))))
  }

  /** Texts with no white space at either end. */
  predicate Trimmed(p: Product) {
    Trim(p.name) == p.name && Trim(p.sku) == p.sku && Trim(p.barcode) == p.barcode &&
    Trim(p.description) == p.description
  }

  /** A missing key keeps the current value (its text trimmed); the id, the
      image, the category's name and the active flag never change; every
      text of the result is already trimmed. */
  lemma MergeKeepsMissing(current: Product, data: VariantMap)
    ensures var r := Merged(current, data);
      r.id == current.id && r.imagePath == current.imagePath && r.categoryName == current.categoryName &&
      r.active == current.active && Trimmed(r) &&
      ("name" !in data ==> r.name == Trim(current.name)) &&
      ("sku" !in data ==> r.sku == Trim(current.sku)) &&
      ("barcode" !in data ==> r.barcode == Trim(current.barcode)) &&
      ("description" !in data ==> r.description == Trim(current.description)) &&
      ("categoryId" !in data ==> r.categoryId == current.categoryId) &&
      ("currentStock" !in data ==> r.currentStock == current.currentStock) &&
      ("minimumStock" !in data ==> r.minimumStock == current.minimumStock) &&
      ("purchasePrice" !in data ==> r.purchasePrice == current.purchasePrice) &&
      ("salePrice" !in data ==> r.salePrice == current.salePrice)
  {
    var r := Merged(current, data);
    TrimIdempotent(AsText(Get(data, "name", Text(current.name))));
    TrimIdempotent(AsText(Get(data, "sku", Text(current.sku))));
    TrimIdempotent(AsText(Get(data, "barcode", Text(current.barcode))));
    TrimIdempotent(AsText(Get(data, "description", Text(current.description))));
  }

  /** Saving the edit form unchanged: merging a trimmed product with its own
      map gives the product back. */
  lemma MergeOwnMap(p: Product)
    requires Trimmed(p)
    ensures Merged(p, AsMap(p)) == p
  {
    var m := AsMap(p);
    assert Get(m, "name", Text(p.name)) == Text(p.name);
    assert Get(m, "sku", Text(p.sku)) == Text(p.sku);
    assert Get(m, "barcode", Text(p.barcode)) == Text(p.barcode);
    assert Get(m, "description", Text(p.description)) == Text(p.description);
    assert Get(m, "categoryId", Whole(p.categoryId)) == Whole(p.categoryId);
    assert Get(m, "currentStock", Number(p.currentStock)) == Number(p.currentStock);
    assert Get(m, "minimumStock", Number(p.minimumStock)) == Number(p.minimumStock);
    assert Get(m, "purchasePrice", Number(p.purchasePrice)) == Number(p.purchasePrice);
    assert Get(m, "salePrice", Number(p.salePrice)) == Number(p.salePrice);
  }

  /** Adding a product from another product's map copies its trimmed texts
      and its numbers; the new product is active, with no id, image or
      category name yet. */
  lemma NewFromOwnMap(p: Product)
    requires Trimmed(p)
    ensures NewProduct(AsMap(p)) == p.(id := 0, categoryName := [], imagePath := [], active := true)
  {
    var m := AsMap(p);
    assert Get(m, "name", Text("")) == Text(p.name);
    assert Get(m, "sku", Text("")) == Text(p.sku);
    assert Get(m, "barcode", Text("")) == Text(p.barcode);
    assert Get(m, "description", Text("")) == Text(p.description);
    assert Get(m, "categoryId", Whole(0)) == Whole(p.categoryId);
    assert Get(m, "currentStock", Number(0.0)) == Number(p.currentStock);
    assert Get(m, "minimumStock", Number(0.0)) == Number(p.minimumStock);
    assert Get(m, "purchasePrice", Number(0.0)) == Number(p.purchasePrice);
    assert Get(m, "salePrice", Number(0.0)) == Number(p.salePrice);
  }

  /** A form that passes validation builds a product the service's own field
      checks accept up to the minimum stock, which the form does not check:
      the service can still refuse it only for a negative minimum stock or a
      sku or barcode already in use. */
  lemma ValidFormMeetsServiceChecks(t: Tables, data: VariantMap)
    requires FormValid(data)
    ensures PS.ValidateProduct(t, NewProduct(data)) !in
      {Some(PS.NameRequired), Some(PS.NegativeSalePrice), Some(PS.NegativePurchasePrice)}
  {
    TrimIdempotent(AsText(Get(data, "name", Text(""))));
    assert "salePrice" in data;
  }

  // ---------------------------------------------------------------------------
  // Roles
  // ---------------------------------------------------------------------------

  /** The roles `data` answers, and any other role number. */
  datatype Role =
    | IdRole | NameRole | SkuRole | BarcodeRole | CategoryRole | CurrentStockRole | MinimumStockRole
    | PurchasePriceRole | SalePriceRole | DescriptionRole | ActiveRole | IsLowStockRole
    | OtherRole(code: int)

  /** The field a role shows. */
  function Field(p: Product, role: Role): Option<Value> {
    match role
    case IdRole => Some(Whole(p.id))
    case NameRole => Some(Text(p.name))
    case SkuRole => Some(Text(p.sku))
    case BarcodeRole => Some(Text(p.barcode))
    case CategoryRole => Some(Text(p.categoryName))
    case CurrentStockRole => Some(Number(p.currentStock))
    case MinimumStockRole => Some(Number(p.minimumStock))
    case PurchasePriceRole => Some(Number(p.purchasePrice))
    case SalePriceRole => Some(Number(p.salePrice))
    case DescriptionRole => Some(Text(p.description))
    case ActiveRole => Some(Flag(p.active))
    case IsLowStockRole => Some(Flag(IsLowStock(p)))
    case OtherRole(_) => None
  }

  /** The key of productToVariantMap that holds a role's field. */
  function MapKey(role: Role): string
    requires !role.OtherRole?
  {
    match role
    case IdRole => "id"
    case NameRole => "name"
    case SkuRole => "sku"
    case BarcodeRole => "barcode"
    case CategoryRole => "category"
    case CurrentStockRole => "currentStock"
    case MinimumStockRole => "minimumStock"
    case PurchasePriceRole => "purchasePrice"
    case SalePriceRole => "salePrice"
    case DescriptionRole => "description"
    case ActiveRole => "active"
    case IsLowStockRole => "isLowStock"
  }

  /** What a delegate reads through a role is what getProduct's map holds
      under the role's key. */
  lemma FieldInMap(p: Product, role: Role)
    requires !role.OtherRole?
    ensures MapKey(role) in AsMap(p) && Field(p, role) == Some(AsMap(p)[MapKey(role)])
  {
  }

  // ---------------------------------------------------------------------------
  // getProductForEdit
  // ---------------------------------------------------------------------------

  /** getProductForEdit: the first listed product with the id, else the
      stored one, else the empty map. */
  function ForEdit(products: seq<Product>, t: Tables, productId: int): (m: VariantMap)
    ensures m == map[] <==>
      (forall i :: 0 <= i < |products| ==> products[i].id != productId) && Repo.FindById(t, productId).None?
  {
    var k := ProductIndex(products, productId);
    if k < |products| then AsMap(products[k])
    else if Repo.FindById(t, productId).Some? then AsMap(Repo.FindById(t, productId).value)
    else map[]
  }

  /** A listed product is shown as listed, even if the store has changed
      since the list was loaded; an unlisted one is looked up. */
  lemma ListedFirst(products: seq<Product>, t: Tables, productId: int, i: nat)
    requires i < |products| && products[i].id == productId
    requires forall j :: 0 <= j < i ==> products[j].id != productId
    ensures ForEdit(products, t, productId) == AsMap(products[i])
  {
    assert ProductIndex(products, productId) == i;
  }

  // ---------------------------------------------------------------------------
  // The list
  // ---------------------------------------------------------------------------

  /** What the screen is told: errorOccurred or operationSucceeded with its
      message. */
  datatype Notice = ErrorOccurred(message: string) | OperationSucceeded(message: string)

  const NotFoundMessage: string := "Producto no encontrado"
  const CreatedMessage: string := "Producto creado exitosamente"
  const UpdatedMessage: string := "Producto actualizado exitosamente"
  const DeletedMessage: string := "Producto eliminado exitosamente"

  class ProductList {
    var products: seq<Product>
    var isLoading: bool

    constructor ()
      ensures products == [] && !isLoading
    {
      products := [];
      isLoading := false;
    }

    /** rowCount, also the `count` property. */
    function RowCount(): nat
      reads this
    {
      |products|
    }

    /** data: nothing for a row outside the list or a role it does not
        answer, otherwise the row's field for the role. */
    function Data(row: int, role: Role): (v: Option<Value>)
      reads this
      ensures v.None? <==> row < 0 || row >= RowCount() || role.OtherRole?
      ensures v.Some? ==> v == Field(products[row], role)
    {
      if row < 0 || row >= |products| then None else Field(products[row], role)
    }

    /** getProduct: the empty map for an index outside the list. */
    function GetProduct(index: int): (m: VariantMap)
      reads this
      ensures m == map[] <==> index < 0 || index >= RowCount()
      ensures 0 <= index < RowCount() ==> m == AsMap(products[index])
    {
      if index < 0 || index >= |products| then map[] else AsMap(products[index])
    }

    /** loadProducts: every active product, ordered by name. */
    method LoadProducts(db: Connection)
      modifies this
      ensures products == Repo.FindAll(db.tables, true) && !isLoading
    {
      isLoading := true;
      products := Repo.FindAll(db.tables, true);
      isLoading := false;
    }

    /** searchProducts. */
    method SearchProducts(db: Connection, searchTerm: string)
      modifies this
      ensures products == Repo.SearchByName(db.tables, searchTerm) && !isLoading
    {
      isLoading := true;
      products := Repo.SearchByName(db.tables, searchTerm);
      isLoading := false;
    }

    /** filterByCategory. */
    method FilterByCategory(db: Connection, categoryId: int)
      modifies this
      ensures products == Repo.FindByCategory(db.tables, categoryId) && !isLoading
    {
      isLoading := true;
      products := Repo.FindByCategory(db.tables, categoryId);
      isLoading := false;
    }

    /** filterLowStock. */
    method FilterLowStock(db: Connection)
      modifies this
      ensures products == Repo.FindLowStock(db.tables) && !isLoading
    {
      isLoading := true;
      products := Repo.FindLowStock(db.tables);
      isLoading := false;
    }

    /** addProduct: a form that fails validation reaches neither the service
        nor the list; otherwise the service creates the product built from
        the form, and the list is reloaded when it succeeds. */
    method AddProduct(db: Connection, data: VariantMap) returns (added: bool, notice: Notice)
      requires db.Valid()
      modifies this, db
      ensures db.Valid() && db.snapshot == old(db.snapshot)
      ensures !FormValid(data) ==>
        !added && notice == ErrorOccurred(ValidateProductData(data)) &&
        db.tables == old(db.tables) && products == old(products)
      ensures FormValid(data) ==>
        var r := PS.CreatedProduct(old(db.tables), db.failing, NewProduct(data));
        db.tables == r.1 && (added <==> r.0.Success?) &&
        (added ==> products == Repo.FindAll(db.tables, true) && notice == OperationSucceeded(CreatedMessage)) &&
        (!added ==> products == old(products) && notice == ErrorOccurred(PS.Message(r.0.why)))
    {
      var validationError := ValidateProductData(data);
      if validationError != [] {
        return false, ErrorOccurred(validationError);
      }
      var status, stored := PS.CreateProduct(db, NewProduct(data));
      if status.Success? {
        LoadProducts(db);
        return true, OperationSucceeded(CreatedMessage);
      }
      return false, ErrorOccurred(PS.Message(status.why));
    }

    /** updateProduct: after validation, the stored product is merged with
        the form and handed to the service; an unknown id is reported before
        the service is asked to save. */
    method UpdateProduct(db: Connection, productId: int, data: VariantMap) returns (updated: bool, notice: Notice)
      requires db.Valid()
      modifies this, db
      ensures db.Valid() && db.snapshot == old(db.snapshot)
      ensures !FormValid(data) ==>
        !updated && notice == ErrorOccurred(ValidateProductData(data)) &&
        db.tables == old(db.tables) && products == old(products)
      ensures FormValid(data) && Repo.FindById(old(db.tables), productId).None? ==>
        !updated && notice == ErrorOccurred(NotFoundMessage) &&
        db.tables == old(db.tables) && products == old(products)
      ensures FormValid(data) && Repo.FindById(old(db.tables), productId).Some? ==>
        var r := PS.UpdatedProduct(old(db.tables), db.failing,
                                   Merged(Repo.FindById(old(db.tables), productId).value, data));
        db.tables == r.1 && (updated <==> r.0.Success?) &&
        (updated ==> products == Repo.FindAll(db.tables, true) && notice == OperationSucceeded(UpdatedMessage)) &&
        (!updated ==> products == old(products) && notice == ErrorOccurred(PS.Message(r.0.why)))
    {
      var validationError := ValidateProductData(data);
      if validationError != [] {
        return false, ErrorOccurred(validationError);
      }
      var currentProduct := Repo.FindById(db.tables, productId);
      if currentProduct.None? {
        return false, ErrorOccurred(NotFoundMessage);
      }
      var status := PS.UpdateProduct(db, Merged(currentProduct.value, data));
      if status.Success? {
        LoadProducts(db);
        return true, OperationSucceeded(UpdatedMessage);
      }
      return false, ErrorOccurred(PS.Message(status.why));
    }

    /** deleteProduct. */
    method DeleteProduct(db: Connection, productId: int) returns (deleted: bool, notice: Notice)
      requires db.Valid()
      modifies this, db
      ensures db.Valid() && db.snapshot == old(db.snapshot)
      ensures var r := PS.DeletedProduct(old(db.tables), db.failing, productId);
        db.tables == r.1 && (deleted <==> r.0.Success?) &&
        (deleted ==> products == Repo.FindAll(db.tables, true) && notice == OperationSucceeded(DeletedMessage)) &&
        (!deleted ==> products == old(products) && notice == ErrorOccurred(PS.Message(r.0.why)))
    {
      var status := PS.DeleteProduct(db, productId);
      if status.Success? {
        LoadProducts(db);
        return true, OperationSucceeded(DeletedMessage);
      }
      return false, ErrorOccurred(PS.Message(status.why));
    }

    /** getProductForEdit: the listed products are searched first. */
    method GetProductForEdit(db: Connection, productId: int) returns (m: VariantMap)
      ensures m == ForEdit(products, db.tables, productId)
    {
      var i := 0;
      while i < |products|
        invariant 0 <= i <= |products|
        invariant forall j :: 0 <= j < i ==> products[j].id != productId
      {
        if products[i].id == productId {
          assert ProductIndex(products, productId) == i;
          return AsMap(products[i]);
        }
        i := i + 1;
      }
      var product := Repo.FindById(db.tables, productId);
      if product.Some? {
        return AsMap(product.value);
      }
      return map[];
    }
  }
}
