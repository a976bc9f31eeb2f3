/** The StockMovement record of the kardex (src/models/StockMovement.h). */
module StockMovementModel {

  /** One row of the stock ledger. The type's name and code come from a join
      with the movement types and the timestamp from the database clock; none
      of the three is part of this record. */
  datatype StockMovement = StockMovement(
    id: int,
    productId: int,
    movementTypeId: int,
    quantity: real,
    previousStock: real,
    newStock: real,
    unitPrice: real,
    reference: string,
    notes: string,
    createdBy: string)

  const Default: StockMovement := StockMovement(0, 0, 0, 0.0, 0.0, 0.0, 0.0, "", "", "")

  predicate IsValid(m: StockMovement) {
    m.productId > 0 && m.movementTypeId > 0 && m.quantity != 0.0
  }

  function TotalValue(m: StockMovement): real {
    m.quantity * m.unitPrice
  }

  /** A default-constructed movement is not valid and is worth nothing. */
  lemma DefaultInvalid()
    ensures !IsValid(Default) && TotalValue(Default) == 0.0
  {
  }

  /** Validity and value depend only on product, type, quantity and unit
      price: stock snapshots, reference and notes play no part. */
  lemma QueriesIgnoreSnapshot(a: StockMovement, b: StockMovement)
    requires a.productId == b.productId && a.movementTypeId == b.movementTypeId
    requires a.quantity == b.quantity && a.unitPrice == b.unitPrice
    ensures IsValid(a) == IsValid(b) && TotalValue(a) == TotalValue(b)
  {
  }
}
