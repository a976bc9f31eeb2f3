/** The point-of-sale cart: the list model that holds the lines being sold and
    the view model that looks products up, checks their stock and hands the
    finished cart to the sales service. */
module SalesCart {
  import opened Common
  import opened ProductModel
  import opened SaleModel
  import opened Database
  import Calendar
  import Repo = ProductRepository
  import SS = SalesService

  // ---------------------------------------------------------------------------
  // CartItemModel as a value
  // ---------------------------------------------------------------------------

  /** The cart's lines and, per product on a line, the largest quantity the
      line may reach. */
  datatype Cart = Cart(items: seq<SaleItem>, maxQuantities: map<int, real>)

  const EmptyCart: Cart := Cart([], map[])

  /** What a cart operation announces. */
  datatype CartSignal =
    | Silent
    | StockError(available: real)   // "Stock insuficiente. Disponible: %1"
    | ItemAdded(name: string)
    | ItemRemoved(name: string)
    | QuantityUpdated(index: int)

  /** m_maxQuantities.value(productId, 0.0). */
  function MaxFor(c: Cart, productId: int): real {
    if productId in c.maxQuantities then c.maxQuantities[productId] else 0.0
  }

  /** Index of the first line holding the product, or |items| when none does. */
  function LineOf(items: seq<SaleItem>, productId: int): (k: nat)
    ensures k <= |items|
    ensures k < |items| ==> items[k].productId == productId
    ensures forall j :: 0 <= j < k ==> items[j].productId != productId
  {
    if items == [] then 0
    else if items[0].productId == productId then 0
    else 1 + LineOf(items[1..], productId)
  }

  /** Quantity of the product already in the cart (first matching line), else 0. */
  function InCart(items: seq<SaleItem>, productId: int): (q: real)
    ensures LineOf(items, productId) == |items| ==> q == 0.0
    ensures LineOf(items, productId) < |items| ==> q == items[LineOf(items, productId)].quantity
  {
    var k := LineOf(items, productId);
    if k < |items| then items[k].quantity else 0.0
  }

  /** The invariant the cart's operations keep: one line per product, a
      maximum recorded for exactly the products on a line, every line's
      subtotal up to date and within its maximum. */
  ghost predicate WellKept(c: Cart) {
    DistinctLines(c.items) &&
    (forall i :: 0 <= i < |c.items| ==> LineKept(c, c.items[i])) &&
    (forall pid :: pid in c.maxQuantities ==> HasLine(c.items, pid))
  }

  ghost predicate HasLine(items: seq<SaleItem>, productId: int) {
    exists i :: 0 <= i < |items| && items[i].productId == productId
  }

  ghost predicate DistinctLines(items: seq<SaleItem>) {
    forall i, j :: 0 <= i < j < |items| ==> items[i].productId != items[j].productId
  }

  /** A line whose subtotal is up to date and whose quantity is within the
      maximum recorded for its product. */
  ghost predicate LineKept(c: Cart, x: SaleItem) {
    x.productId in c.maxQuantities &&
    x.subtotal == x.quantity * x.unitPrice &&
    x.quantity <= c.maxQuantities[x.productId]
  }

  /** removeItem: an index outside the cart changes nothing; otherwise the line
      and its product's maximum go. */
  function RemovedAt(c: Cart, index: int): (Cart, CartSignal) {
    if index < 0 || index >= |c.items| then (c, Silent)
    else
      (Cart(c.items[..index] + c.items[index + 1..], c.maxQuantities - {c.items[index].productId}),
       ItemRemoved(c.items[index].productName))
  }

  /** updateQuantity: above the line's maximum is refused, zero or less
      removes the line, anything else replaces the quantity and subtotal. */
  function QuantitySet(c: Cart, index: int, quantity: real): (Cart, CartSignal) {
    if index < 0 || index >= |c.items| then (c, Silent)
    else
      var max := MaxFor(c, c.items[index].productId);
      if quantity > max then (c, StockError(max))
      else if quantity <= 0.0 then RemovedAt(c, index)
      else
        (Cart(c.items[index := CalculateSubtotal(c.items[index].(quantity := quantity))], c.maxQuantities),
         QuantityUpdated(index))
  }

  /** The line addItem appends for a product not yet in the cart. */
  function NewLine(productId: int, name: string, quantity: real, unitPrice: real): (x: SaleItem)
    ensures x.productId == productId && x.productName == name
    ensures x.quantity == quantity && x.unitPrice == unitPrice
    ensures x.subtotal == quantity * unitPrice
  {
    CalculateSubtotal(NewItem.(productId := productId, productName := name,
                               quantity := quantity, unitPrice := unitPrice))
  }

  /** addItem: a product already on a line has its quantity raised through
      updateQuantity, unless the sum exceeds maxQuantity; a new product is
      appended with maxQuantity recorded, unless quantity exceeds it. */
  function ItemAddedTo(c: Cart, productId: int, name: string, quantity: real, unitPrice: real,
                       maxQuantity: real): (Cart, CartSignal)
  {
    var k := LineOf(c.items, productId);
    if k < |c.items| then
      var newQuantity := c.items[k].quantity + quantity;
      if newQuantity > maxQuantity then (c, StockError(maxQuantity))
      else QuantitySet(c, k, newQuantity)
    else if quantity > maxQuantity then (c, StockError(maxQuantity))
    else
      (Cart(c.items + [NewLine(productId, name, quantity, unitPrice)], c.maxQuantities[productId := maxQuantity]),
       ItemAdded(name))
  }

  // ---------------------------------------------------------------------------
  // Properties of the cart operations
  // ---------------------------------------------------------------------------

  /** Removing keeps the other lines in their order, drops exactly that
      product's maximum and lowers the subtotal by the line's. */
  lemma RemoveEffect(c: Cart, index: int)
    requires 0 <= index < |c.items|
    ensures var (c', signal) := RemovedAt(c, index);
      |c'.items| == |c.items| - 1 &&
      (forall j :: 0 <= j < index ==> c'.items[j] == c.items[j]) &&
      (forall j :: index < j < |c.items| ==> c'.items[j - 1] == c.items[j]) &&
      c.items[index].productId !in c'.maxQuantities &&
      (forall pid :: pid != c.items[index].productId ==> MaxFor(c', pid) == MaxFor(c, pid)) &&
      SumSubtotals(c'.items) == SumSubtotals(c.items) - c.items[index].subtotal &&
      signal == ItemRemoved(c.items[index].productName)
  {
    DropLine(c.items, index);
    SumRemove(c.items, index);
  }

  /** Removing a line keeps the cart well kept. */
  lemma RemoveKeepsWellKept(c: Cart, index: int)
    requires WellKept(c) && 0 <= index < |c.items|
    ensures WellKept(RemovedAt(c, index).0)
  {
    var gone := c.items[index].productId;
    var c' := Cart(c.items[..index] + c.items[index + 1..], c.maxQuantities - {gone});
    assert RemovedAt(c, index).0 == c';
    DropLine(c.items, index);
    forall i, j | 0 <= i < j < |c'.items|
      ensures c'.items[i].productId != c'.items[j].productId
    {
      var i0 := if i < index then i else i + 1;
      var j0 := if j < index then j else j + 1;
      assert c'.items[i] == c.items[i0] && c'.items[j] == c.items[j0];
    }
    forall i | 0 <= i < |c'.items|
      ensures LineKept(c', c'.items[i])
    {
      var i0 := if i < index then i else i + 1;
      assert c'.items[i] == c.items[i0] && LineKept(c, c.items[i0]);
      assert c.items[i0].productId != gone;
    }
    forall q | q in c'.maxQuantities
      ensures HasLine(c'.items, q)
    {
      var m :| 0 <= m < |c.items| && c.items[m].productId == q;
      assert m != index;
      var w := if m < index then m else m - 1;
      assert c'.items[w].productId == q;
    }
  }

  /** Indices of a sequence with one element taken out. */
  lemma DropLine(s: seq<SaleItem>, k: int)
    requires 0 <= k < |s|
    ensures |s[..k] + s[k + 1..]| == |s| - 1
    ensures forall j :: 0 <= j < k ==> (s[..k] + s[k + 1..])[j] == s[j]
    ensures forall j :: k < j < |s| ==> (s[..k] + s[k + 1..])[j - 1] == s[j]
  {
  }

  /** Setting a quantity: out of range changes nothing, above the maximum is
      refused, zero or less removes the line, otherwise only that line changes
      and the subtotal moves by the line's difference. */
  lemma QuantitySetEffect(c: Cart, index: int, quantity: real)
    ensures var (c', signal) := QuantitySet(c, index, quantity);
      (index < 0 || index >= |c.items| ==> c' == c && signal == Silent) &&
      (0 <= index < |c.items| ==>
        var max := MaxFor(c, c.items[index].productId);
        (quantity > max ==> c' == c && signal == StockError(max)) &&
        (quantity <= max && quantity <= 0.0 ==> (c', signal) == RemovedAt(c, index)) &&
        (quantity <= max && quantity > 0.0 ==>
           c'.maxQuantities == c.maxQuantities &&
           |c'.items| == |c.items| &&
           c'.items[index].quantity == quantity &&
           c'.items[index].subtotal == quantity * c.items[index].unitPrice &&
           (forall j :: 0 <= j < |c.items| && j != index ==> c'.items[j] == c.items[j]) &&
           SumSubtotals(c'.items) == SumSubtotals(c.items) - c.items[index].subtotal + quantity * c.items[index].unitPrice &&
           signal == QuantityUpdated(index)))
  {
    if 0 <= index < |c.items| {
      var max := MaxFor(c, c.items[index].productId);
      if quantity <= max && quantity > 0.0 {
        SumReplace(c.items, index, CalculateSubtotal(c.items[index].(quantity := quantity)));
      }
    }
  }

  /** Setting a quantity keeps the cart well kept, whichever way it goes. */
  lemma QuantitySetKeepsWellKept(c: Cart, index: int, quantity: real)
    requires WellKept(c)
    ensures WellKept(QuantitySet(c, index, quantity).0)
  {
    if 0 <= index < |c.items| {
      var max := MaxFor(c, c.items[index].productId);
      if quantity <= max && quantity <= 0.0 {
        RemoveKeepsWellKept(c, index);
      } else if quantity <= max {
        SetKeepsWellKept(c, index, quantity);
      }
    }
  }

  lemma SetKeepsWellKept(c: Cart, index: int, quantity: real)
    requires WellKept(c) && 0 <= index < |c.items|
    requires 0.0 < quantity <= MaxFor(c, c.items[index].productId)
    ensures WellKept(QuantitySet(c, index, quantity).0)
  {
    var y := CalculateSubtotal(c.items[index].(quantity := quantity));
    var c' := Cart(c.items[index := y], c.maxQuantities);
    assert QuantitySet(c, index, quantity).0 == c';
    forall i, j | 0 <= i < j < |c'.items|
      ensures c'.items[i].productId != c'.items[j].productId
    {
      assert c'.items[i].productId == c.items[i].productId;
      assert c'.items[j].productId == c.items[j].productId;
    }
    forall i | 0 <= i < |c'.items|
      ensures LineKept(c', c'.items[i])
    {
      if i != index {
        assert c'.items[i] == c.items[i] && LineKept(c, c.items[i]);
      } else {
        assert LineKept(c, c.items[i]);
      }
    }
    forall q | q in c'.maxQuantities
      ensures HasLine(c'.items, q)
    {
      var m :| 0 <= m < |c.items| && c.items[m].productId == q;
      assert c'.items[m].productId == q;
    }
  }

  /** Adding a product that is not in the cart: a quantity above maxQuantity is
      refused and nothing changes; otherwise one line is appended at the end
      with the product's name, quantity, price and subtotal, its maximum is
      recorded, and the subtotal grows by quantity times price. */
  lemma AddNewProduct(c: Cart, productId: int, name: string, quantity: real, unitPrice: real, maxQuantity: real)
    requires LineOf(c.items, productId) == |c.items|
    ensures var (c', signal) := ItemAddedTo(c, productId, name, quantity, unitPrice, maxQuantity);
      (quantity > maxQuantity ==> c' == c && signal == StockError(maxQuantity)) &&
      (quantity <= maxQuantity ==>
         c'.items[..|c.items|] == c.items && |c'.items| == |c.items| + 1 &&
         c'.items[|c.items|].productId == productId &&
         c'.items[|c.items|].productName == name &&
         c'.items[|c.items|].quantity == quantity &&
         c'.items[|c.items|].unitPrice == unitPrice &&
         MaxFor(c', productId) == maxQuantity &&
         SumSubtotals(c'.items) == SumSubtotals(c.items) + quantity * unitPrice &&
         signal == ItemAdded(name))
  {
    if quantity <= maxQuantity {
      SumAppend(c.items, NewLine(productId, name, quantity, unitPrice));
    }
  }

  lemma AppendKeepsWellKept(c: Cart, productId: int, name: string, quantity: real, unitPrice: real, maxQuantity: real)
    requires WellKept(c) && LineOf(c.items, productId) == |c.items| && quantity <= maxQuantity
    ensures WellKept(ItemAddedTo(c, productId, name, quantity, unitPrice, maxQuantity).0)
  {
    var x := NewLine(productId, name, quantity, unitPrice);
    var c' := Cart(c.items + [x], c.maxQuantities[productId := maxQuantity]);
    assert ItemAddedTo(c, productId, name, quantity, unitPrice, maxQuantity).0 == c';
    var n := |c.items|;
    forall i, j | 0 <= i < j < n + 1
      ensures c'.items[i].productId != c'.items[j].productId
    {
      if j < n {
        assert c'.items[i] == c.items[i] && c'.items[j] == c.items[j];
      } else {
        assert c'.items[i] == c.items[i] && c'.items[j] == x;
      }
    }
    forall i | 0 <= i < n + 1
      ensures LineKept(c', c'.items[i])
    {
      if i < n {
        assert c'.items[i] == c.items[i] && LineKept(c, c.items[i]);
      } else {
        assert c'.items[i] == x;
      }
    }
    forall q | q in c'.maxQuantities
      ensures HasLine(c'.items, q)
    {
      if q != productId {
        var m :| 0 <= m < n && c.items[m].productId == q;
        assert c'.items[m] == c.items[m];
      } else {
        assert c'.items[n] == x;
      }
    }
  }

  /** Adding a product that already has a line never appends: when the summed
      quantity exceeds the caller's maxQuantity nothing changes; otherwise the
      result is that of setting the line to the sum, which the line's own
      recorded maximum may still refuse. */
  lemma AddExistingProduct(c: Cart, productId: int, name: string, quantity: real, unitPrice: real, maxQuantity: real)
    requires LineOf(c.items, productId) < |c.items|
    ensures var k := LineOf(c.items, productId);
      var newQuantity := c.items[k].quantity + quantity;
      var (c', signal) := ItemAddedTo(c, productId, name, quantity, unitPrice, maxQuantity);
      |c'.items| <= |c.items| &&
      (newQuantity > maxQuantity ==> c' == c && signal == StockError(maxQuantity)) &&
      (newQuantity <= maxQuantity && newQuantity <= MaxFor(c, productId) && newQuantity > 0.0 ==>
         |c'.items| == |c.items| &&
         c'.items[k].quantity == newQuantity &&
         c'.items[k].unitPrice == c.items[k].unitPrice &&
         (forall j :: 0 <= j < |c.items| && j != k ==> c'.items[j] == c.items[j]) &&
         signal == QuantityUpdated(k))
  {
    var k := LineOf(c.items, productId);
    var newQuantity := c.items[k].quantity + quantity;
    if newQuantity <= maxQuantity {
      assert ItemAddedTo(c, productId, name, quantity, unitPrice, maxQuantity) == QuantitySet(c, k, newQuantity);
      QuantitySetEffect(c, k, newQuantity);
      if newQuantity <= MaxFor(c, productId) && newQuantity <= 0.0 {
        RemoveEffect(c, k);
      }
    }
  }

  /** Adding a product keeps the cart well kept, whichever way it goes. */
  lemma AddKeepsWellKept(c: Cart, productId: int, name: string, quantity: real, unitPrice: real, maxQuantity: real)
    requires WellKept(c)
    ensures WellKept(ItemAddedTo(c, productId, name, quantity, unitPrice, maxQuantity).0)
  {
    var k := LineOf(c.items, productId);
    if k < |c.items| {
      var newQuantity := c.items[k].quantity + quantity;
      if newQuantity <= maxQuantity {
        assert ItemAddedTo(c, productId, name, quantity, unitPrice, maxQuantity) == QuantitySet(c, k, newQuantity);
        QuantitySetKeepsWellKept(c, k, newQuantity);
      }
    } else if quantity <= maxQuantity {
      AppendKeepsWellKept(c, productId, name, quantity, unitPrice, maxQuantity);
    }
  }

  // ---------------------------------------------------------------------------
  // CartItemModel
  // ---------------------------------------------------------------------------

  class CartItemModel {
    var items: seq<SaleItem>
    var maxQuantities: map<int, real>

    function Contents(): Cart
      reads this
    {
      Cart(items, maxQuantities)
    }

    ghost predicate Valid()
      reads this
    {
      WellKept(Contents())
    }

    constructor ()
      ensures Valid() && Contents() == EmptyCart
    {
      items := [];
      maxQuantities := map[];
    }

    /** rowCount for the root index. */
    function RowCount(): (n: nat)
      reads this
      ensures n == |items|
    {
      |items|
    }

    /** subtotal(): the stored line subtotals added up front to back. */
    method Subtotal() returns (sum: real)
      ensures sum == SumSubtotals(items)
    {
      sum := 0.0;
      var i := 0;
      while i < |items|
        invariant 0 <= i <= |items|
        invariant sum == SumSubtotals(items[..i])
      {
        SumAppend(items[..i], items[i]);
        assert items[..i + 1] == items[..i] + [items[i]];
        sum := sum + items[i].subtotal;
        i := i + 1;
      }
      assert items[..i] == items;
    }

    /** total(): no taxes yet, so the subtotal. */
    method Total() returns (total: real)
      ensures total == SumSubtotals(items)
    {
      total := Subtotal();
    }

    method RemoveItem(index: int) returns (signal: CartSignal)
      requires Valid()
      modifies this
      ensures Valid()
      ensures (Contents(), signal) == RemovedAt(old(Contents()), index)
    {
      if index < 0 || index >= |items| {
        return Silent;
      }
      RemoveEffect(Contents(), index);
      RemoveKeepsWellKept(Contents(), index);
      var name := items[index].productName;
      var productId := items[index].productId;
      items := items[..index] + items[index + 1..];
      maxQuantities := maxQuantities - {productId};
      signal := ItemRemoved(name);
    }

    method UpdateQuantity(index: int, quantity: real) returns (signal: CartSignal)
      requires Valid()
      modifies this
      ensures Valid()
      ensures (Contents(), signal) == QuantitySet(old(Contents()), index, quantity)
    {
      if index < 0 || index >= |items| {
        return Silent;
      }
      QuantitySetEffect(Contents(), index, quantity);
      QuantitySetKeepsWellKept(Contents(), index, quantity);
      var maxQty := if items[index].productId in maxQuantities then maxQuantities[items[index].productId] else 0.0;
      if quantity > maxQty {
        return StockError(maxQty);
      }
      if quantity <= 0.0 {
        signal := RemoveItem(index);
        return;
      }
      items := items[index := CalculateSubtotal(items[index].(quantity := quantity))];
      signal := QuantityUpdated(index);
    }

    method AddItem(productId: int, productName: string, sku: string, barcode: string,
                   quantity: real, unitPrice: real, maxQuantity: real) returns (signal: CartSignal)
      requires Valid()
      modifies this
      ensures Valid()
      ensures (Contents(), signal) == ItemAddedTo(old(Contents()), productId, productName, quantity, unitPrice, maxQuantity)
    {
      var i := 0;
      while i < |items|
        invariant 0 <= i <= |items|
        invariant forall j :: 0 <= j < i ==> items[j].productId != productId
      {
        if items[i].productId == productId {
          assert LineOf(items, productId) == i;
          var newQuantity := items[i].quantity + quantity;
          if newQuantity > maxQuantity {
            return StockError(maxQuantity);
          }
          signal := UpdateQuantity(i, newQuantity);
          return;
        }
        i := i + 1;
      }
      assert LineOf(items, productId) == |items|;
      if quantity > maxQuantity {
        return StockError(maxQuantity);
      }
      AddNewProduct(Contents(), productId, productName, quantity, unitPrice, maxQuantity);
      AppendKeepsWellKept(Contents(), productId, productName, quantity, unitPrice, maxQuantity);
      items := items + [NewLine(productId, productName, quantity, unitPrice)];
      maxQuantities := maxQuantities[productId := maxQuantity];
      signal := ItemAdded(productName);
    }

    method Clear()
      requires Valid()
      modifies this
      ensures Valid() && Contents() == EmptyCart
    {
      if items == [] {
        EmptyLinesEmptyCart(Contents());
        return;
      }
      items := [];
      maxQuantities := map[];
    }
  }

  /** A well-kept cart with no lines has no recorded maxima either, so clear's
      early return on an empty cart leaves the same state as clearing. */
  lemma EmptyLinesEmptyCart(c: Cart)
    requires WellKept(c) && c.items == []
    ensures c == EmptyCart
  {
    var none: map<int, real> := map[];
    assert forall pid :: pid in c.maxQuantities <==> pid in none;
  }

  // ---------------------------------------------------------------------------
  // SalesCartViewModel as functions
  // ---------------------------------------------------------------------------

  /** Why validateStock refuses a product. */
  datatype StockIssue =
    | Inactive              // "El producto no está activo"
    | NotEnough(stock: real) // "Stock insuficiente. Disponible: %1"

  /** validateStock: an inactive product first, then a stock below the request. */
  function StockProblem(p: Product, quantity: real): (r: Option<StockIssue>)
    ensures r.None? <==> p.active && p.currentStock >= quantity
    ensures r == Some(Inactive) <==> !p.active
  {
    if !p.active then Some(Inactive)
    else if p.currentStock < quantity then Some(NotEnough(p.currentStock))
    else None
  }

  /** What the view model announces. */
  datatype CartNotice =
    | ProductNotFound(code: string)
    | InsufficientStock(name: string, stock: real, requested: real)
    | ProductAdded(name: string, quantity: real, cart: CartSignal)

  /** addProductById: the product must exist and pass validateStock; the cart
      is then asked to add it with the stock minus what the cart already holds
      as the line's maximum, and the call reports success whatever the cart
      did with the request. */
  function AddedById(c: Cart, t: Tables, productId: int, quantity: real): (bool, CartNotice, Cart) {
    match Repo.FindById(t, productId)
    case None => (false, ProductNotFound(IntToString(productId)), c)
    case Some(p) =>
      if StockProblem(p, quantity).Some? then (false, InsufficientStock(p.name, p.currentStock, quantity), c)
      else
        var available := p.currentStock - InCart(c.items, productId);
        var (c', signal) := ItemAddedTo(c, p.id, p.name, quantity, p.salePrice, available);
        (true, ProductAdded(p.name, quantity, signal), c')
  }

  /** searchAndAddProduct: an empty code finds nothing; otherwise the code is
      tried as a barcode and then as a SKU. */
  function SearchedAndAdded(c: Cart, t: Tables, code: string, quantity: real): (bool, CartNotice, Cart) {
    if code == [] then (false, ProductNotFound(code), c)
    else
      var found := match Repo.FindByBarcode(t, code)
        case Some(p) => Some(p)
        case None => Repo.FindBySku(t, code);
      match found
      case None => (false, ProductNotFound(code), c)
      case Some(p) => AddedById(c, t, p.id, quantity)
  }

  /** The sale processSale hands to the service: the cart's lines and the
      caller's customer, payment, discount and notes, totals recomputed. */
  function SaleFromCart(c: Cart, customerId: int, customerName: string, paymentMethodId: int,
                        paymentMethodName: string, discount: real, notes: string): Sale
  {
    WithTotals(NewSale.(customerId := customerId, customerName := customerName,
                        paymentMethodId := paymentMethodId, paymentMethodName := paymentMethodName,
                        discount := discount, notes := notes, items := c.items))
  }

  /** How processSale ends. */
  datatype ProcessOutcome =
    | EmptyCartRefused                         // "El carrito está vacío"
    | SaleFailed(why: SS.SaleFailure)
    | SaleCompleted(invoiceNumber: string, total: real)

  /** The view model's state that processSale touches. */
  datatype Till = Till(cart: Cart, lastInvoiceNumber: string)

  /** processSale: an empty cart is refused before the service is called; on
      success the last invoice number is the stored sale's and the cart is
      cleared, on failure the cart and last invoice number stay. With
      `asWritten` the service's createSale is the program's, which never
      stores a sale; otherwise it is the corrected one. */
  function SaleProcessed(till: Till, st: State, failing: set<Statement>, today: Calendar.Date,
                         customerId: int, customerName: string, paymentMethodId: int,
                         paymentMethodName: string, discount: real, notes: string,
                         asWritten: bool): (ProcessOutcome, Till, State)
    requires Calendar.Valid(today)
  {
    if till.cart.items == [] then (EmptyCartRefused, till, st)
    else
      var s := SaleFromCart(till.cart, customerId, customerName, paymentMethodId, paymentMethodName, discount, notes);
      var (result, st', stored) :=
        if asWritten then SS.CreatedSaleAsWritten(st, failing, s, today) else SS.CreatedSale(st, failing, s, today);
      if result == SS.Ok then
        (SaleCompleted(stored.invoiceNumber, stored.total), Till(EmptyCart, stored.invoiceNumber), st')
      else (SaleFailed(result.why), till, st')
  }

  // ---------------------------------------------------------------------------
  // Properties of the view model
  // ---------------------------------------------------------------------------

  /** An unknown id or a product that fails validateStock is reported as such
      and leaves the cart alone; a known, active product with enough stock is
      reported added, and if it was not yet in the cart it now has a line with
      the requested quantity, its sale price and its whole stock as maximum. */
  lemma AddByIdOutcomes(c: Cart, t: Tables, productId: int, quantity: real)
    ensures var (added, notice, c') := AddedById(c, t, productId, quantity);
      (Repo.FindById(t, productId).None? ==> !added && c' == c && notice == ProductNotFound(IntToString(productId))) &&
      (Repo.FindById(t, productId).Some? ==>
         var p := Repo.FindById(t, productId).value;
         (added <==> p.active && p.currentStock >= quantity) &&
         (!added ==> c' == c && notice == InsufficientStock(p.name, p.currentStock, quantity)) &&
         (added && LineOf(c.items, productId) == |c.items| ==>
            |c'.items| == |c.items| + 1 && c'.items[..|c.items|] == c.items &&
            c'.items[|c.items|].productId == productId &&
            c'.items[|c.items|].quantity == quantity &&
            c'.items[|c.items|].unitPrice == p.salePrice &&
            MaxFor(c', productId) == p.currentStock))
  {
    match Repo.FindById(t, productId)
    case None =>
    case Some(p) =>
      if StockProblem(p, quantity).None? {
        var available := p.currentStock - InCart(c.items, productId);
        if LineOf(c.items, productId) == |c.items| {
          AddNewProduct(c, p.id, p.name, quantity, p.salePrice, available);
        }
      }
  }

  /** Adding by id keeps the cart well kept. */
  lemma AddByIdKeepsWellKept(c: Cart, t: Tables, productId: int, quantity: real)
    requires WellKept(c)
    ensures WellKept(AddedById(c, t, productId, quantity).2)
  {
    match Repo.FindById(t, productId)
    case None =>
    case Some(p) =>
      if StockProblem(p, quantity).None? {
        var available := p.currentStock - InCart(c.items, productId);
        AddKeepsWellKept(c, p.id, p.name, quantity, p.salePrice, available);
      }
  }

  /** Adding more of a product already on a line with quantity a counts the
      line twice: the cart is asked for at most stock - a more on top of a, so
      the request is refused once 2a + quantity exceeds the stock even though
      a + quantity is still within it; and the call still reports success. */
  lemma AddByIdCountsCartTwice(c: Cart, t: Tables, productId: int, quantity: real)
    requires Repo.FindById(t, productId).Some?
    requires LineOf(c.items, productId) < |c.items|
    ensures var p := Repo.FindById(t, productId).value;
      var a := c.items[LineOf(c.items, productId)].quantity;
      var (added, notice, c') := AddedById(c, t, productId, quantity);
      (p.active && a + quantity <= p.currentStock < 2.0 * a + quantity ==>
         added && c' == c && notice == ProductAdded(p.name, quantity, StockError(p.currentStock - a)))
  {
  }

  /** A code that is some product's barcode adds that product, even when the
      same code is another product's SKU; a code that is no barcode falls back
      to the SKU lookup; an empty code finds nothing. */
  lemma SearchPrefersBarcode(c: Cart, t: Tables, code: string, quantity: real)
    ensures code == [] ==> SearchedAndAdded(c, t, code, quantity) == (false, ProductNotFound(code), c)
    ensures Repo.FindByBarcode(t, code).Some? ==>
      SearchedAndAdded(c, t, code, quantity) == AddedById(c, t, Repo.FindByBarcode(t, code).value.id, quantity)
    ensures Repo.FindByBarcode(t, code).None? && Repo.FindBySku(t, code).Some? ==>
      SearchedAndAdded(c, t, code, quantity) == AddedById(c, t, Repo.FindBySku(t, code).value.id, quantity)
    ensures Repo.FindByBarcode(t, code).None? && Repo.FindBySku(t, code).None? ==>
      SearchedAndAdded(c, t, code, quantity) == (false, ProductNotFound(code), c)
  {
  }

  /** The sale built from the cart carries the cart's lines and the caller's
      discount, has no tax, totals the line subtotals less the discount, and
      recomputing its totals changes nothing. */
  lemma SaleFromCartShape(c: Cart, customerId: int, customerName: string, paymentMethodId: int,
                          paymentMethodName: string, discount: real, notes: string)
    ensures var s := SaleFromCart(c, customerId, customerName, paymentMethodId, paymentMethodName, discount, notes);
      s.items == c.items && s.customerId == customerId && s.paymentMethodId == paymentMethodId &&
      s.tax == 0.0 && s.discount == discount && s.invoiceNumber == [] &&
      s.total == SumSubtotals(c.items) - discount &&
      WithTotals(s) == s
  {
    var s := SaleFromCart(c, customerId, customerName, paymentMethodId, paymentMethodName, discount, notes);
    TotalsIdempotent(NewSale.(customerId := customerId, customerName := customerName,
                              paymentMethodId := paymentMethodId, paymentMethodName := paymentMethodName,
                              discount := discount, notes := notes, items := c.items));
  }

  /** With the corrected createSale, processSale clears the cart only when the
      service stored the sale: an empty cart is refused with nothing touched;
      a failed sale keeps the cart and the last invoice number and leaves the
      tables as they were; a completed one records the invoice number and
      empties the cart. */
  lemma ProcessSaleClearsOnlyOnSuccess(till: Till, st: State, failing: set<Statement>, today: Calendar.Date,
                                       customerId: int, customerName: string, paymentMethodId: int,
                                       paymentMethodName: string, discount: real, notes: string)
    requires Calendar.Valid(today) && st.snapshot.None?
    ensures var (outcome, till', st') := SaleProcessed(till, st, failing, today, customerId, customerName,
                                                       paymentMethodId, paymentMethodName, discount, notes, false);
      (till.cart.items == [] ==> outcome == EmptyCartRefused && till' == till && st' == st) &&
      (outcome.SaleFailed? ==> till' == till && st'.tables == st.tables && st'.snapshot.None?) &&
      (outcome.SaleCompleted? ==> till.cart.items != [] && till'.cart == EmptyCart &&
                                  till'.lastInvoiceNumber == outcome.invoiceNumber)
  {
    if till.cart.items != [] {
      var s := SaleFromCart(till.cart, customerId, customerName, paymentMethodId, paymentMethodName, discount, notes);
      SS.CreateSaleAllOrNothing(st, failing, s, today);
    }
  }

  /** As written, processSale never completes a sale: a non-empty cart ends
      in a failure, and the cart, the last invoice number and the tables are
      all left as they were. */
  lemma ProcessSaleAsWrittenKeepsCart(till: Till, st: State, failing: set<Statement>, today: Calendar.Date,
                                      customerId: int, customerName: string, paymentMethodId: int,
                                      paymentMethodName: string, discount: real, notes: string)
    requires Calendar.Valid(today)
    ensures var (outcome, till', st') := SaleProcessed(till, st, failing, today, customerId, customerName,
                                                       paymentMethodId, paymentMethodName, discount, notes, true);
      !outcome.SaleCompleted? && till' == till && st'.tables == st.tables && st'.snapshot == st.snapshot &&
      (till.cart.items != [] ==> outcome.SaleFailed?)
  {
    if till.cart.items != [] {
      var s := SaleFromCart(till.cart, customerId, customerName, paymentMethodId, paymentMethodName, discount, notes);
      SS.AsWrittenNeverSaves(st, failing, s, today);
    }
  }

  // ---------------------------------------------------------------------------
  // SalesCartViewModel
  // ---------------------------------------------------------------------------

  class SalesCartViewModel {
    const cart: CartItemModel
    var lastInvoiceNumber: string

    ghost predicate Valid()
      reads this, cart
    {
      cart.Valid()
    }

    constructor ()
      ensures Valid() && fresh(cart) && cart.Contents() == EmptyCart && lastInvoiceNumber == []
    {
      cart := new CartItemModel();
      lastInvoiceNumber := [];
    }

    function Current(): Till
      reads this, cart
    {
      Till(cart.Contents(), lastInvoiceNumber)
    }

    method AddProductById(db: Connection, productId: int, quantity: real) returns (added: bool, notice: CartNotice)
      requires Valid()
      modifies cart
      ensures Valid()
      ensures (added, notice, cart.Contents()) == AddedById(old(cart.Contents()), db.tables, productId, quantity)
    {
      var product := Repo.FindById(db.tables, productId);
      if product.None? {
        return false, ProductNotFound(IntToString(productId));
      }
      var p := product.value;
      if StockProblem(p, quantity).Some? {
        return false, InsufficientStock(p.name, p.currentStock, quantity);
      }
      var i := 0;
      while i < |cart.items| && cart.items[i].productId != productId
        invariant 0 <= i <= |cart.items|
        invariant forall j :: 0 <= j < i ==> cart.items[j].productId != productId
      {
        i := i + 1;
      }
      var alreadyInCart := 0.0;
      if i < |cart.items| {
        alreadyInCart := cart.items[i].quantity;
      }
      assert alreadyInCart == InCart(cart.items, productId);
      var signal := cart.AddItem(p.id, p.name, p.sku, p.barcode, quantity, p.salePrice, p.currentStock - alreadyInCart);
      added, notice := true, ProductAdded(p.name, quantity, signal);
    }

    method SearchAndAddProduct(db: Connection, code: string, quantity: real) returns (added: bool, notice: CartNotice)
      requires Valid()
      modifies cart
      ensures Valid()
      ensures (added, notice, cart.Contents()) == SearchedAndAdded(old(cart.Contents()), db.tables, code, quantity)
    {
      if code == [] {
        return false, ProductNotFound(code);
      }
      var product := Repo.FindByBarcode(db.tables, code);
      if product.None? {
        product := Repo.FindBySku(db.tables, code);
      }
      if product.None? {
        return false, ProductNotFound(code);
      }
      added, notice := AddProductById(db, product.value.id, quantity);
    }

    /** processSale, calling the sales service's createSale as the program
        has it; by ProcessSaleAsWrittenKeepsCart it never completes a sale
        from a non-empty cart. */
    method ProcessSale(db: Connection, customerId: int, customerName: string, paymentMethodId: int,
                       paymentMethodName: string, discount: real, notes: string) returns (outcome: ProcessOutcome)
      requires Valid() && db.Valid()
      modifies this, cart, db
      ensures Valid() && db.Valid()
      ensures (outcome, Current(), db.Current()) ==
        SaleProcessed(old(Current()), old(db.Current()), db.failing, db.today, customerId, customerName,
                      paymentMethodId, paymentMethodName, discount, notes, true)
    {
      if cart.items == [] {
        return EmptyCartRefused;
      }
      var sale := SaleFromCart(cart.Contents(), customerId, customerName, paymentMethodId, paymentMethodName, discount, notes);
      var result, stored := SS.CreateSaleAsWritten(db, sale);
      if result == SS.Ok {
        lastInvoiceNumber := stored.invoiceNumber;
        outcome := SaleCompleted(stored.invoiceNumber, stored.total);
        cart.Clear();
      } else {
        outcome := SaleFailed(result.why);
      }
    }

    /** cancelSale: the cart is emptied; nothing reaches the database. */
    method CancelSale()
      requires Valid()
      modifies cart
      ensures Valid() && cart.Contents() == EmptyCart
    {
      cart.Clear();
    }
  }
}
