/** The Customer record (src/models/Customer.h). */
module CustomerModel {

  datatype Customer = Customer(
    id: int,
    name: string,
    documentType: string,
    documentNumber: string,
    email: string,
    phone: string,
    address: string)

  /** A default-constructed Customer: id 0 and every text empty. */
  const Default: Customer := Customer(0, [], [], [], [], [], [])

  predicate IsValid(c: Customer) {
    c.name != []
  }

  /** Validity asks for a name only: a default customer is invalid, the
      document number plays no part, and a valid customer's display name is
      never empty; without a document number the display name is empty
      exactly for an invalid customer. */
  lemma CustomerValidity(c: Customer, number: string)
    ensures !IsValid(Default)
    ensures IsValid(c.(documentNumber := number)) <==> IsValid(c)
    ensures IsValid(c) ==> DisplayName(c) != []
    ensures c.documentNumber == [] ==> (IsValid(c) <==> DisplayName(c) != [])
  {
  }

  /** The name, followed by the document number in parentheses when there is one. */
  function DisplayName(c: Customer): (r: string)
    ensures |r| >= |c.name| && r[..|c.name|] == c.name
    ensures c.documentNumber == [] ==> r == c.name
    ensures c.documentNumber != [] ==>
      |r| == |c.name| + |c.documentNumber| + 3 &&
      r[|c.name|..] == " (" + c.documentNumber + ")"
  {
    if c.documentNumber != [] then c.name + " (" + c.documentNumber + ")" else c.name
  }

  /** The display name tells whether a document number is on file. */
  lemma DisplayNameLength(c: Customer)
    ensures |DisplayName(c)| == |c.name| <==> c.documentNumber == []
  {
  }
}
