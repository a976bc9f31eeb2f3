/** The Sale and SaleItem records (src/models/Sale.h) and their arithmetic. */
module SaleModel {

  /** One line of a sale; `productName` is a snapshot taken when the sale is made. */
  datatype SaleItem = SaleItem(
    id: int,
    saleId: int,
    productId: int,
    productName: string,
    quantity: real,
    unitPrice: real,
    subtotal: real)

  const NewItem: SaleItem := SaleItem(0, 0, 0, "", 0.0, 0.0, 0.0)

  /** SaleItem::calculateSubtotal: the line's subtotal becomes quantity times
      unit price; no other field changes. */
  function CalculateSubtotal(item: SaleItem): (r: SaleItem)
    ensures r.subtotal == item.quantity * item.unitPrice
    ensures r.(subtotal := item.subtotal) == item
  {
    item.(subtotal := item.quantity * item.unitPrice)
  }

  const Completed: string := "COMPLETED"
  const Cancelled: string := "CANCELLED"

  /** A sale header with its items. `customerName` and `paymentMethodName`
      are filled by joins; the creation timestamp is not part of this record. */
  datatype Sale = Sale(
    id: int,
    invoiceNumber: string,
    customerId: int,
    customerName: string,
    subtotal: real,
    tax: real,
    discount: real,
    total: real,
    paymentMethodId: int,
    paymentMethodName: string,
    status: string,
    notes: string,
    createdBy: string,
    items: seq<SaleItem>)

  /** A default-constructed Sale. */
  const NewSale: Sale :=
    Sale(0, "", 0, "", 0.0, 0.0, 0.0, 0.0, 0, "", Completed, "", "", [])

  /** Sum of the stored line subtotals, accumulated front to back. */
  function SumSubtotals(items: seq<SaleItem>): real {
    if items == [] then 0.0
    else SumSubtotals(items[..|items| - 1]) + items[|items| - 1].subtotal
  }

  /** Sum of the line quantities, accumulated front to back. */
  function SumQuantities(items: seq<SaleItem>): real {
    if items == [] then 0.0
    else SumQuantities(items[..|items| - 1]) + items[|items| - 1].quantity
  }

  /** The sale after Sale::calculateTotals. */
  function WithTotals(s: Sale): Sale {
    var subtotal := SumSubtotals(s.items);
    s.(subtotal := subtotal, total := subtotal + s.tax - s.discount)
  }

  predicate IsValid(s: Sale) {
    s.invoiceNumber != [] && s.items != [] && s.total > 0.0
  }

  function ItemCount(s: Sale): int {
    |s.items|
  }

  /** Sale::calculateTotals: the loop over the items. */
  method CalculateTotals(s: Sale) returns (r: Sale)
    ensures r == WithTotals(s)
  {
    var sum := 0.0;
    var i := 0;
    while i < |s.items|
      invariant 0 <= i <= |s.items|
      invariant sum == SumSubtotals(s.items[..i])
    {
      assert s.items[..i + 1][..i] == s.items[..i];
      sum := sum + s.items[i].subtotal;
      i := i + 1;
    }
    assert s.items[..i] == s.items;
    r := s.(subtotal := sum, total := sum + s.tax - s.discount);
  }

  /** Sale::totalQuantity. */
  method TotalQuantity(s: Sale) returns (sum: real)
    ensures sum == SumQuantities(s.items)
  {
    sum := 0.0;
    var i := 0;
    while i < |s.items|
      invariant 0 <= i <= |s.items|
      invariant sum == SumQuantities(s.items[..i])
    {
      assert s.items[..i + 1][..i] == s.items[..i];
      sum := sum + s.items[i].quantity;
      i := i + 1;
    }
    assert s.items[..i] == s.items;
  }

  /** calculateTotals sums the subtotals already stored in the items and
      recomputes none of them; afterwards total = subtotal + tax - discount,
      and only `subtotal` and `total` have changed. */
  lemma TotalsShape(s: Sale)
    ensures WithTotals(s).items == s.items
    ensures WithTotals(s).subtotal == SumSubtotals(s.items)
    ensures WithTotals(s).total == WithTotals(s).subtotal + s.tax - s.discount
    ensures WithTotals(s).(subtotal := s.subtotal, total := s.total) == s
  {
  }

  /** Calculating the totals twice gives the same sale as calculating them once. */
  lemma TotalsIdempotent(s: Sale)
    ensures WithTotals(WithTotals(s)) == WithTotals(s)
  {
  }

  /** A new Sale is COMPLETED, has every amount at 0 and no items, so it is
      not valid; calculating its totals leaves it as it is. */
  lemma NewSaleDefaults()
    ensures NewSale.status == Completed && ItemCount(NewSale) == 0
    ensures NewSale.subtotal == 0.0 && NewSale.tax == 0.0
    ensures NewSale.discount == 0.0 && NewSale.total == 0.0
    ensures !IsValid(NewSale) && WithTotals(NewSale) == NewSale
  {
  }

  // ---------------------------------------------------------------------------
  // How the sums react to changes in the list of lines
  // ---------------------------------------------------------------------------

  lemma SumAppend(items: seq<SaleItem>, x: SaleItem)
    ensures SumSubtotals(items + [x]) == SumSubtotals(items) + x.subtotal
  {
    assert (items + [x])[..|items|] == items;
  }

  /** The sum of the subtotals splits at any position. */
  lemma {:induction false} SumConcat(a: seq<SaleItem>, b: seq<SaleItem>)
    ensures SumSubtotals(a + b) == SumSubtotals(a) + SumSubtotals(b)
    decreases |b|
  {
    if b == [] {
      assert a + b == a;
    } else {
      var b' := b[..|b| - 1];
      assert (a + b)[..|a + b| - 1] == a + b';
      SumConcat(a, b');
    }
  }

  /** Replacing one line changes the sum by the difference of the two subtotals. */
  lemma SumReplace(items: seq<SaleItem>, k: int, x: SaleItem)
    requires 0 <= k < |items|
    ensures SumSubtotals(items[k := x]) == SumSubtotals(items) - items[k].subtotal + x.subtotal
  {
    assert items == items[..k] + ([items[k]] + items[k + 1..]);
    assert items[k := x] == items[..k] + ([x] + items[k + 1..]);
    SumConcat(items[..k], [items[k]] + items[k + 1..]);
    SumConcat(items[..k], [x] + items[k + 1..]);
    SumConcat([items[k]], items[k + 1..]);
    SumConcat([x], items[k + 1..]);
    assert SumSubtotals([x]) == x.subtotal by { assert [x][..0] == []; }
    assert SumSubtotals([items[k]]) == items[k].subtotal by { assert [items[k]][..0] == []; }
  }

  /** Removing one line lowers the sum by that line's subtotal. */
  lemma SumRemove(items: seq<SaleItem>, k: int)
    requires 0 <= k < |items|
    ensures SumSubtotals(items[..k] + items[k + 1..]) == SumSubtotals(items) - items[k].subtotal
  {
    var front, back := items[..k], items[k + 1..];
    var one := [items[k]];
    assert items == front + (one + back);
    SumConcat(front, one + back);
    SumConcat(front, back);
    SumConcat(one, back);
    assert SumSubtotals(one) == items[k].subtotal by { assert one[..0] == []; }
  }
}
