/** The Product record (src/models/Product.h) and its three queries. */
module ProductModel {
  import opened Common

  /** A product as the program passes it around. `categoryName` is filled by a
      join with the categories table; the timestamps are not modelled. */
  datatype Product = Product(
    id: int,
    name: string,
    sku: string,
    barcode: string,
    categoryId: int,
    categoryName: string,
    currentStock: real,
    minimumStock: real,
    purchasePrice: real,
    salePrice: real,
    description: string,
    imagePath: string,
    active: bool)

  /** A default-constructed Product. */
  const Default: Product :=
    Product(0, "", "", "", 0, "", 0.0, 0.0, 0.0, 0.0, "", "", true)

  predicate IsValid(p: Product) {
    p.name != [] && p.salePrice >= 0.0
  }

  predicate IsLowStock(p: Product) {
    p.currentStock <= p.minimumStock
  }

  /** Profit margin in percent over the purchase price; 0 when there is no
      positive purchase price. */
  function ProfitMargin(p: Product): (r: real)
    ensures p.purchasePrice <= 0.0 ==> r == 0.0
    ensures p.purchasePrice > 0.0 ==> (r > 0.0 <==> p.salePrice > p.purchasePrice)
    ensures p.purchasePrice > 0.0 ==> (r == 0.0 <==> p.salePrice == p.purchasePrice)
    ensures p.purchasePrice > 0.0 ==> r * p.purchasePrice == (p.salePrice - p.purchasePrice) * 100.0
  {
    if p.purchasePrice <= 0.0 then 0.0
    else
      var r := ((p.salePrice - p.purchasePrice) / p.purchasePrice) * 100.0;
      PercentChangeSign(p.salePrice - p.purchasePrice, p.purchasePrice);
      r
  }

  /** A default Product is active, counts as low on stock (0 <= 0) and is
      invalid, because its name is empty. */
  lemma DefaultProduct()
    ensures Default.active && IsLowStock(Default) && !IsValid(Default)
    ensures ProfitMargin(Default) == 0.0
  {
  }
}
