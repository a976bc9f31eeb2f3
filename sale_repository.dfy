/** SaleRepository (src/repositories/SaleRepository.cpp): storing a sale with
    its items, cancelling it, numbering invoices and the sales totals of a
    range of days. The joins that fill customerName and paymentMethodName are
    not modelled, so a sale read back carries both empty. */
module SaleRepository {
  import opened Common
  import opened Calendar
  import opened SaleModel
  import opened Database

  /** The payment methods the schema seeds, with ids 1 to 5; the foreign key
      of sales.payment_method_id accepts only these. */
  const PaymentMethodCount: int := 5

  /** No part of the program inserts a customer, so the customers table stays
      empty and the foreign key of sales.customer_id accepts only NULL. */
  const CustomerCount: int := 0

  // ---------------------------------------------------------------------------
  // Storing a sale
  // ---------------------------------------------------------------------------

  /** The header row bound by create: a customer or payment method id <= 0
      becomes NULL (0); the day comes from the database clock. */
  function HeaderRow(s: Sale, today: Date): SaleRow {
    SaleRow(0, s.invoiceNumber,
      if s.customerId > 0 then s.customerId else 0,
      s.subtotal, s.tax, s.discount, s.total,
      if s.paymentMethodId > 0 then s.paymentMethodId else 0,
      s.status, s.notes, s.createdBy, today)
  }

  /** The header INSERT fails: the engine rejects it, the invoice number is
      already taken (UNIQUE), or the customer or the payment method does not
      exist (foreign keys are on). */
  predicate HeaderRejected(t: Tables, failing: set<Statement>, s: Sale) {
    InsertSale in failing
    || (exists i :: 0 <= i < |t.sales| && t.sales[i].invoiceNumber == s.invoiceNumber)
    || s.customerId > CustomerCount
    || s.paymentMethodId > PaymentMethodCount
  }

  /** An item INSERT fails: the engine rejects it or the product does not exist. */
  predicate ItemRejected(t: Tables, failing: set<Statement>, item: SaleItem) {
    InsertSaleItem in failing || ProductIndex(t.products, item.productId) == |t.products|
  }

  /** Position of the first item whose INSERT fails, or |items|. */
  function FirstRejected(t: Tables, failing: set<Statement>, items: seq<SaleItem>): (k: nat)
    ensures k <= |items|
    ensures forall j :: 0 <= j < k ==> !ItemRejected(t, failing, items[j])
    ensures k < |items| ==> ItemRejected(t, failing, items[k])
  {
    if items == [] then 0
    else if ItemRejected(t, failing, items[0]) then 0
    else 1 + FirstRejected(t, failing, items[1..])
  }

  /** The items as stored: ids from `firstId` on, in order, under `saleId`. */
  function StampItems(items: seq<SaleItem>, saleId: int, firstId: int): (r: seq<SaleItem>)
    ensures |r| == |items|
    ensures forall j :: 0 <= j < |r| ==> r[j] == items[j].(id := firstId + j, saleId := saleId)
  {
    seq(|items|, j requires 0 <= j < |items| => items[j].(id := firstId + j, saleId := saleId))
  }

  /** The sale_items table after inserting `items` under `saleId`, one
      INSERT after another. */
  function AppendItems(t: Tables, items: seq<SaleItem>, saleId: int): (r: Tables)
    requires saleId < t.nextSaleId
    ensures r.products == t.products && r.nextSaleId == t.nextSaleId
    ensures r.nextSaleItemId == t.nextSaleItemId + |items|
    decreases |items|
  {
    if items == [] then t
    else AppendSaleItem(AppendItems(t, items[..|items| - 1], saleId), items[|items| - 1].(saleId := saleId))
  }

  /** Inserting items keeps the tables well formed. */
  lemma {:induction false} AppendItemsWellFormed(t: Tables, items: seq<SaleItem>, saleId: int)
    requires saleId < t.nextSaleId
    ensures WellFormed(t) ==> WellFormed(AppendItems(t, items, saleId))
    decreases |items|
  {
    if items != [] {
      AppendItemsWellFormed(t, items[..|items| - 1], saleId);
    }
  }

  /** The item store after one more item. */
  lemma ItemStep(t: Tables, items: seq<SaleItem>, i: nat, saleId: int)
    requires i < |items| && saleId < t.nextSaleId
    ensures AppendItems(t, items[..i + 1], saleId)
         == AppendSaleItem(AppendItems(t, items[..i], saleId), items[i].(saleId := saleId))
  {
    assert items[..i + 1][..i] == items[..i];
  }

  /** Inserting the items one by one appends them stamped with consecutive
      ids from the table's counter on, and changes nothing else. */
  lemma {:induction false} AppendItemsRows(t: Tables, items: seq<SaleItem>, saleId: int)
    requires saleId < t.nextSaleId
    ensures AppendItems(t, items, saleId)
         == t.(saleItems := t.saleItems + StampItems(items, saleId, t.nextSaleItemId),
               nextSaleItemId := t.nextSaleItemId + |items|)
    decreases |items|
  {
    if items != [] {
      var n := |items| - 1;
      AppendItemsRows(t, items[..n], saleId);
      var x := items[n].(id := t.nextSaleItemId + n, saleId := saleId);
      assert StampItems(items, saleId, t.nextSaleItemId) == StampItems(items[..n], saleId, t.nextSaleItemId) + [x];
      AppendAssoc(t.saleItems, StampItems(items[..n], saleId, t.nextSaleItemId), [x]);
    }
  }

  /** The caller's items with the first k stamped and the rest as given. */
  lemma StampedPrefix(items: seq<SaleItem>, stamped: seq<SaleItem>, k: nat, saleId: int, firstId: int)
    requires k <= |items| == |stamped|
    requires forall j :: 0 <= j < k ==> stamped[j] == items[j].(id := firstId + j, saleId := saleId)
    requires forall j :: k <= j < |items| ==> stamped[j] == items[j]
    ensures stamped == StampItems(items[..k], saleId, firstId) + items[k..]
  {
  }

  /** An item accepted past the ones already inserted moves the first
      rejected position further on; the inserts so far leave the products
      as they were. */
  lemma ItemAccepted(t: Tables, failing: set<Statement>, items: seq<SaleItem>, i: nat, now: Tables)
    requires i < |items| && i <= FirstRejected(t, failing, items)
    requires now.products == t.products && !ItemRejected(now, failing, items[i])
    ensures i + 1 <= FirstRejected(t, failing, items)
  {
  }

  /** FirstRejected is the one position with every item before it accepted
      and itself rejected or past the end. */
  lemma FirstRejectedAt(t: Tables, failing: set<Statement>, items: seq<SaleItem>, k: nat)
    requires k <= |items| && forall j :: 0 <= j < k ==> !ItemRejected(t, failing, items[j])
    requires k < |items| ==> ItemRejected(t, failing, items[k])
    ensures FirstRejected(t, failing, items) == k
  {
  }

  /** The outcome of the header and item INSERTs: the new sale id (0 when a
      statement failed), the tables as the statements that ran left them, and
      the caller's sale with the ids written into it so far. */
  datatype Insertion = Insertion(id: int, tables: Tables, sale: Sale)

  /** The INSERTs of create, with no transaction handling of their own:
      the header, then each item in order until one fails. */
  function InsertedRows(t: Tables, failing: set<Statement>, s: Sale, today: Date): (r: Insertion)
    ensures WellFormed(t) ==> WellFormed(r.tables)
  {
    if HeaderRejected(t, failing, s) then Insertion(0, t, s)
    else
      var saleId := t.nextSaleId;
      var t1 := AppendSale(t, HeaderRow(s, today));
      var k := FirstRejected(t1, failing, s.items);
      var t2 := AppendItems(t1, s.items[..k], saleId);
      AppendItemsWellFormed(t1, s.items[..k], saleId);
      var stored := s.(id := saleId, items := StampItems(s.items[..k], saleId, t1.nextSaleItemId) + s.items[k..]);
      Insertion(if k < |s.items| then 0 else saleId, t2, stored)
  }

  /** SaleRepository::create as written: it opens a transaction of its own,
      runs the INSERTs, and commits; any failure after BEGIN rolls back. */
  function Created(st: State, failing: set<Statement>, s: Sale, today: Date): (r: (int, State, Sale))
    ensures StateWellFormed(st) ==> StateWellFormed(r.1)
  {
    var b := Begin(st, failing);
    if !b.ok then (0, st, s)
    else
      var ins := InsertedRows(st.tables, failing, s, today);
      var open := State(ins.tables, b.state.snapshot);
      if ins.id == 0 then (0, Rollback(open).state, ins.sale)
      else
        var c := Commit(open, failing);
        if c.ok then (ins.id, c.state, ins.sale) else (0, Rollback(c.state).state, ins.sale)
  }

  /** The items stored under a sale, in id order (loadSaleItems). */
  function ItemsOf(items: seq<SaleItem>, saleId: int): (r: seq<SaleItem>)
    ensures |r| <= |items|
  {
    if items == [] then []
    else (if items[0].saleId == saleId then [items[0]] else []) + ItemsOf(items[1..], saleId)
  }

  /** The items read back are exactly the stored items of that sale. */
  lemma {:induction false} ItemsOfMembers(items: seq<SaleItem>, saleId: int)
    ensures forall x :: x in ItemsOf(items, saleId) <==> x in items && x.saleId == saleId
  {
    if items != [] {
      ItemsOfMembers(items[1..], saleId);
      assert items == [items[0]] + items[1..];
    }
  }

  lemma {:induction false} ItemsOfConcat(a: seq<SaleItem>, b: seq<SaleItem>, saleId: int)
    ensures ItemsOf(a + b, saleId) == ItemsOf(a, saleId) + ItemsOf(b, saleId)
  {
    if a == [] {
      assert a + b == b;
    } else {
      assert (a + b)[0] == a[0];
      assert (a + b)[1..] == a[1..] + b;
      ItemsOfConcat(a[1..], b, saleId);
      AppendAssoc(if a[0].saleId == saleId then [a[0]] else [], ItemsOf(a[1..], saleId), ItemsOf(b, saleId));
    }
  }

  lemma {:induction false} ItemsOfNone(items: seq<SaleItem>, saleId: int)
    requires forall j :: 0 <= j < |items| ==> items[j].saleId != saleId
    ensures ItemsOf(items, saleId) == []
  {
    if items != [] {
      ItemsOfNone(items[1..], saleId);
    }
  }

  lemma {:induction false} ItemsOfAll(items: seq<SaleItem>, saleId: int)
    requires forall j :: 0 <= j < |items| ==> items[j].saleId == saleId
    ensures ItemsOf(items, saleId) == items
  {
    if items != [] {
      ItemsOfAll(items[1..], saleId);
      assert items == [items[0]] + items[1..];
    }
  }

  /** The header row of a sale, if any (findById without the joins). */
  function FindSaleRow(t: Tables, id: int): (r: Option<SaleRow>)
    ensures r.Some? <==> exists i :: 0 <= i < |t.sales| && t.sales[i].id == id
    ensures r.Some? ==> r.value in t.sales && r.value.id == id
  {
    var k := SaleIndex(t.sales, id);
    if k < |t.sales| then Some(t.sales[k]) else None
  }

  /** SaleRepository::findById: the header read back as a Sale with its items. */
  function FindById(t: Tables, id: int): (r: Option<Sale>)
    ensures r.Some? <==> FindSaleRow(t, id).Some?
    ensures r.Some? ==> r.value.id == id && r.value.items == ItemsOf(t.saleItems, id)
  {
    match FindSaleRow(t, id)
    case None => None
    case Some(h) =>
      Some(Sale(h.id, h.invoiceNumber, h.customerId, "", h.subtotal, h.tax, h.discount, h.total,
        h.paymentMethodId, "", h.status, h.notes, h.createdBy, ItemsOf(t.saleItems, id)))
  }

  /** A successful insert adds exactly one header under the next sale id,
      with the sale's own fields and today's date, and one row per item in
      order under that id; products and movements are untouched. */
  lemma InsertedRowsSucceed(t: Tables, failing: set<Statement>, s: Sale, today: Date)
    requires InsertedRows(t, failing, s, today).id != 0
    ensures var r := InsertedRows(t, failing, s, today);
      var id := t.nextSaleId;
      var stamped := StampItems(s.items, id, t.nextSaleItemId);
      r.id == id && !HeaderRejected(t, failing, s) &&
      (forall j :: 0 <= j < |s.items| ==> !ItemRejected(t, failing, s.items[j])) &&
      r.tables.products == t.products && r.tables.movements == t.movements &&
      r.tables.sales == t.sales + [HeaderRow(s, today).(id := id)] &&
      r.tables.saleItems == t.saleItems + stamped &&
      r.sale == s.(id := id, items := stamped)
  {
    var t1 := AppendSale(t, HeaderRow(s, today));
    var k := FirstRejected(t1, failing, s.items);
    assert k == |s.items|;
    assert s.items[..k] == s.items;
    assert s.items[k..] == [];
    AppendItemsRows(t1, s.items, t.nextSaleId);
    forall j | 0 <= j < |s.items| ensures !ItemRejected(t, failing, s.items[j]) {
      assert !ItemRejected(t1, failing, s.items[j]);
    }
  }

  /** Reading a freshly inserted sale back gives its invoice, its status and
      its items with their new ids, and no item of any earlier sale. */
  lemma InsertedSaleReadsBack(t: Tables, failing: set<Statement>, s: Sale, today: Date)
    requires WellFormed(t)
    requires InsertedRows(t, failing, s, today).id != 0
    ensures var r := InsertedRows(t, failing, s, today);
      FindById(r.tables, r.id).Some? &&
      FindById(r.tables, r.id).value.items == r.sale.items &&
      FindById(r.tables, r.id).value.status == s.status &&
      FindById(r.tables, r.id).value.invoiceNumber == s.invoiceNumber
  {
    InsertedRowsSucceed(t, failing, s, today);
    var r := InsertedRows(t, failing, s, today);
    var id := t.nextSaleId;
    var stamped := StampItems(s.items, id, t.nextSaleItemId);
    ItemsOfConcat(t.saleItems, stamped, id);
    NoItemsYet(t);
    StampedItemsOf(s.items, id, t.nextSaleItemId);
    NewSaleFound(t, HeaderRow(s, today), r.tables.sales);
  }

  /** No stored item points at the next sale id. */
  lemma NoItemsYet(t: Tables)
    requires WellFormed(t)
    ensures ItemsOf(t.saleItems, t.nextSaleId) == []
  {
    RowsBelow(t);
    ItemsOfNone(t.saleItems, t.nextSaleId);
  }

  /** Freshly stamped items all read back under their sale. */
  lemma StampedItemsOf(items: seq<SaleItem>, saleId: int, firstId: int)
    ensures ItemsOf(StampItems(items, saleId, firstId), saleId) == StampItems(items, saleId, firstId)
  {
    ItemsOfAll(StampItems(items, saleId, firstId), saleId);
  }

  /** A header appended under the next sale id is the one found by that id. */
  lemma NewSaleFound(t: Tables, h: SaleRow, sales: seq<SaleRow>)
    requires WellFormed(t) && sales == t.sales + [h.(id := t.nextSaleId)]
    ensures SaleIndex(sales, t.nextSaleId) == |t.sales|
  {
    RowsBelow(t);
    forall i | 0 <= i < |t.sales| ensures sales[i].id != t.nextSaleId {
      assert sales[i] == t.sales[i];
    }
    SaleIndexAt(sales, t.nextSaleId, |t.sales|);
  }

  /** The insert reports 0 exactly when the header or one of the items is
      rejected; in particular every sale with a customer id > 0 is refused,
      since no customer row exists. */
  lemma InsertedRowsFail(t: Tables, failing: set<Statement>, s: Sale, today: Date)
    requires WellFormed(t)
    ensures InsertedRows(t, failing, s, today).id == 0 <==>
      HeaderRejected(t, failing, s) || exists j :: 0 <= j < |s.items| && ItemRejected(t, failing, s.items[j])
    ensures s.customerId > 0 ==> InsertedRows(t, failing, s, today).id == 0
  {
    if InsertedRows(t, failing, s, today).id != 0 {
      InsertedRowsSucceed(t, failing, s, today);
    } else if !HeaderRejected(t, failing, s) {
      var t1 := AppendSale(t, HeaderRow(s, today));
      var k := FirstRejected(t1, failing, s.items);
      assert k < |s.items|;
      assert ItemRejected(t1, failing, s.items[k]);
      assert ItemRejected(t, failing, s.items[k]);
    }
  }

  /** create returns 0 and leaves the connection as it was when BEGIN fails,
      and in particular whenever a transaction is already open. */
  lemma CreateInsideTransaction(st: State, failing: set<Statement>, s: Sale, today: Date)
    requires st.snapshot.Some? || BeginTransaction in failing
    ensures Created(st, failing, s, today) == (0, st, s)
  {
  }

  /** Outside a transaction, create either stores the sale and commits, or
      returns 0 with the tables exactly as before; either way no transaction
      is left open. */
  lemma CreateAllOrNothing(st: State, failing: set<Statement>, s: Sale, today: Date)
    requires st.snapshot.None? && BeginTransaction !in failing
    ensures var (id, st', _) := Created(st, failing, s, today);
      st'.snapshot.None? &&
      (id == 0 ==> st'.tables == st.tables) &&
      (id != 0 ==> id == InsertedRows(st.tables, failing, s, today).id &&
                   st'.tables == InsertedRows(st.tables, failing, s, today).tables)
  {
  }

  // ---------------------------------------------------------------------------
  // Cancelling
  // ---------------------------------------------------------------------------

  /** SaleRepository::cancel: the UPDATE of the status; true only when a row
      was affected. */
  function CancelRow(t: Tables, failing: set<Statement>, saleId: int): (r: (bool, Tables))
    ensures WellFormed(t) ==> WellFormed(r.1)
  {
    var k := SaleIndex(t.sales, saleId);
    if UpdateSaleStatus in failing || k == |t.sales| then (false, t)
    else (true, ReplaceSale(t, k, t.sales[k].(status := Cancelled)))
  }

  /** cancel succeeds exactly for an existing sale (and a working engine),
      after which the sale reads back CANCELLED with its items unchanged; no
      other row of any table changes. */
  lemma CancelEffect(t: Tables, failing: set<Statement>, saleId: int)
    ensures CancelRow(t, failing, saleId).0 <==> UpdateSaleStatus !in failing && FindSaleRow(t, saleId).Some?
    ensures !CancelRow(t, failing, saleId).0 ==> CancelRow(t, failing, saleId).1 == t
    ensures CancelRow(t, failing, saleId).0 ==>
      var t' := CancelRow(t, failing, saleId).1;
      FindById(t', saleId).Some? && FindById(t', saleId).value.status == Cancelled &&
      FindById(t', saleId).value == FindById(t, saleId).value.(status := Cancelled) &&
      t'.products == t.products && t'.movements == t.movements && t'.saleItems == t.saleItems &&
      |t'.sales| == |t.sales| &&
      (forall i :: 0 <= i < |t.sales| && t.sales[i].id != saleId ==> t'.sales[i] == t.sales[i])
  {
    var k := SaleIndex(t.sales, saleId);
    if CancelRow(t, failing, saleId).0 {
      var t' := CancelRow(t, failing, saleId).1;
      assert t'.sales == t.sales[k := t.sales[k].(status := Cancelled)];
      forall i | 0 <= i < k ensures t'.sales[i].id != saleId { assert t'.sales[i] == t.sales[i]; }
      SaleIndexAt(t'.sales, saleId, k);
    }
  }

  // ---------------------------------------------------------------------------
  // Invoice numbers
  // ---------------------------------------------------------------------------

  /** QDate::toString("yyyyMMdd"): four-digit year (a minus sign in front of
      a negative one), two-digit month, two-digit day. */
  function DatePrefix(d: Date): (r: string)
    requires Valid(d)
  {
    var year := if d.year >= 0 then PadLeft(NatToString(d.year), 4, '0')
                else "-" + PadLeft(NatToString(-d.year), 4, '0');
    year + PadLeft(NatToString(d.month), 2, '0') + PadLeft(NatToString(d.day), 2, '0')
  }

  lemma PaddedDigits(n: nat, width: nat)
    ensures AllDigits(PadLeft(NatToString(n), width, '0'))
  {
    var d := NatToString(n);
    var p := PadLeft(d, width, '0');
    assert p == p[..|p| - |d|] + d;
    LeadingZeros(p[..|p| - |d|], d);
  }

  lemma DigitsHaveNoDash(s: string)
    requires AllDigits(s)
    ensures '-' !in s
  {
    forall i | 0 <= i < |s| ensures s[i] != '-' {
      assert IsDigit(s[i]);
    }
  }

  /** A date of a non-negative year prints as at least eight digits. */
  lemma DatePrefixDigits(d: Date)
    requires Valid(d) && d.year >= 0
    ensures AllDigits(DatePrefix(d)) && |DatePrefix(d)| >= 8 && '-' !in DatePrefix(d)
  {
    PaddedDigits(d.year, 4);
    PaddedDigits(d.month, 2);
    PaddedDigits(d.day, 2);
    var a, b, c := PadLeft(NatToString(d.year), 4, '0'), PadLeft(NatToString(d.month), 2, '0'), PadLeft(NatToString(d.day), 2, '0');
    assert DatePrefix(d) == a + b + c;
    assert AllDigits(a + b + c) by {
      forall i | 0 <= i < |a + b + c| ensures IsDigit((a + b + c)[i]) {
        if i < |a| { assert (a + b + c)[i] == a[i]; }
        else if i < |a| + |b| { assert (a + b + c)[i] == b[i - |a|]; }
        else { assert (a + b + c)[i] == c[i - |a| - |b|]; }
      }
    }
    DigitsHaveNoDash(DatePrefix(d));
  }

  /** QString::arg(n, 4, 10, '0'): at least four digits, zero-padded. */
  function SequenceText(n: int): (r: string)
  {
    if n >= 0 then PadLeft(NatToString(n), 4, '0') else "-" + NatToString(-n)
  }

  /** The invoice number of a prefix and a sequence: "prefix-NNNN". */
  function Invoice(prefix: string, n: int): string {
    prefix + "-" + SequenceText(n)
  }

  /** The sequence that follows the latest invoice of the day: one more than
      its number when it reads as today's "prefix-N", otherwise 1. One more
      than the largest int wraps around, as a C++ int does. */
  function NextSequence(last: string, prefix: string): (n: int)
    ensures IntMin <= n <= IntMax
  {
    var parts := Split(last, '-');
    if |parts| == 2 && parts[0] == prefix then
      var v := ToInt(parts[1]) + 1;
      if v > IntMax then IntMin else v
    else 1
  }

  /** Position of the last sale stored on `day`, or -1. Rows are kept in id
      order, so this is the sale of that day with the largest id. */
  function LastOn(sales: seq<SaleRow>, day: Date): (k: int)
    ensures -1 <= k < |sales|
    ensures k >= 0 ==> sales[k].createdOn == day
    ensures forall i :: k < i < |sales| ==> sales[i].createdOn != day
  {
    if sales == [] then -1
    else if sales[|sales| - 1].createdOn == day then |sales| - 1
    else LastOn(sales[..|sales| - 1], day)
  }

  /** SaleRepository::generateNextInvoiceNumber. */
  function NextInvoiceNumber(t: Tables, today: Date): (r: string)
    requires Valid(today)
    ensures StartsWith(r, DatePrefix(today) + "-")
  {
    var prefix := DatePrefix(today);
    var k := LastOn(t.sales, today);
    var n := if k < 0 then 1 else NextSequence(t.sales[k].invoiceNumber, prefix);
    var r := Invoice(prefix, n);
    assert r[..|prefix + "-"|] == prefix + "-";
    r
  }

  /** Among the sales of one day, the one LastOn picks has the largest id. */
  lemma LastOnIsLatest(t: Tables, day: Date)
    requires WellFormed(t)
    ensures var k := LastOn(t.sales, day);
      forall i :: 0 <= i < |t.sales| && t.sales[i].createdOn == day ==> k >= 0 && t.sales[i].id <= t.sales[k].id
  {
    SaleIdsOrdered(t);
  }

  /** Splitting a generated invoice number at '-' gives back today's prefix
      and the zero-padded sequence, which reads back as the sequence. */
  lemma InvoiceRoundTrip(today: Date, n: nat)
    requires Valid(today) && today.year >= 0 && n <= IntMax
    ensures var prefix := DatePrefix(today);
      Split(Invoice(prefix, n), '-') == [prefix, SequenceText(n)] &&
      ToInt(SequenceText(n)) == n && |SequenceText(n)| >= 4
  {
    DatePrefixDigits(today);
    PaddedDigits(n, 4);
    DigitsHaveNoDash(SequenceText(n));
    SplitTwo(DatePrefix(today), SequenceText(n), '-');
    PaddedRoundTrip(n, 4);
  }

  /** With no sale today the first invoice of the day ends in -0001. */
  lemma FirstOfTheDay(t: Tables, today: Date)
    requires Valid(today)
    requires forall i :: 0 <= i < |t.sales| ==> t.sales[i].createdOn != today
    ensures NextInvoiceNumber(t, today) == DatePrefix(today) + "-0001"
  {
    assert NatToString(1) == "1";
  }

  /** When the latest sale of today carries today's invoice number n, the
      next number is n + 1: successive sales get -0001, -0002, ... */
  lemma SuccessiveInvoices(t: Tables, today: Date, n: nat)
    requires Valid(today) && today.year >= 0 && n < IntMax
    requires LastOn(t.sales, today) >= 0
    requires t.sales[LastOn(t.sales, today)].invoiceNumber == Invoice(DatePrefix(today), n)
    ensures NextInvoiceNumber(t, today) == Invoice(DatePrefix(today), n + 1)
  {
    var prefix := DatePrefix(today);
    InvoiceRoundTrip(today, n);
    SequenceAfter(prefix, n);
  }

  lemma SequenceAfter(prefix: string, n: nat)
    requires n < IntMax
    requires Split(Invoice(prefix, n), '-') == [prefix, SequenceText(n)]
    requires ToInt(SequenceText(n)) == n
    ensures NextSequence(Invoice(prefix, n), prefix) == n + 1
  {
  }

  /** An invoice of another format, or of another day, restarts at 1. */
  lemma ForeignInvoiceRestarts(last: string, prefix: string)
    requires |Split(last, '-')| != 2 || Split(last, '-')[0] != prefix
    ensures NextSequence(last, prefix) == 1
  {
  }

  // ---------------------------------------------------------------------------
  // Sales totals of a range of days
  // ---------------------------------------------------------------------------

  /** DATE(created_at) compared as ISO text, which orders days by year,
      then month, then day. */
  predicate OnOrBefore(a: Date, b: Date) {
    a.year < b.year || (a.year == b.year && (a.month < b.month || (a.month == b.month && a.day <= b.day)))
  }

  predicate Counted(s: SaleRow, from: Date, to: Date) {
    s.status == Completed && OnOrBefore(from, s.createdOn) && OnOrBefore(s.createdOn, to)
  }

  function CountIn(sales: seq<SaleRow>, from: Date, to: Date): (n: nat)
    ensures n <= |sales|
  {
    if sales == [] then 0
    else CountIn(sales[..|sales| - 1], from, to) + (if Counted(sales[|sales| - 1], from, to) then 1 else 0)
  }

  function SumIn(sales: seq<SaleRow>, from: Date, to: Date): real {
    if sales == [] then 0.0
    else SumIn(sales[..|sales| - 1], from, to) + (if Counted(sales[|sales| - 1], from, to) then sales[|sales| - 1].total else 0.0)
  }

  datatype SalesStats = SalesStats(totalSales: real, totalTransactions: int, averageTicket: real)

  /** SaleRepository::getStatsForDateRange. */
  function StatsForRange(t: Tables, from: Date, to: Date): (r: SalesStats)
    ensures r.totalTransactions >= 0
    ensures r.totalTransactions == 0 ==> r.averageTicket == 0.0
    ensures r.totalTransactions > 0 ==> r.averageTicket * r.totalTransactions as real == r.totalSales
  {
    var n := CountIn(t.sales, from, to);
    var total := SumIn(t.sales, from, to);
    SalesStats(total, n, if n > 0 then total / n as real else 0.0)
  }

  /** Changing one row that is counted into one that is not (a cancelled
      sale, for one) lowers the count by one and the sum by its total. */
  lemma {:induction false} UncountOne(sales: seq<SaleRow>, k: nat, row: SaleRow, from: Date, to: Date)
    requires k < |sales| && Counted(sales[k], from, to) && !Counted(row, from, to)
    ensures CountIn(sales[k := row], from, to) + 1 == CountIn(sales, from, to)
    ensures SumIn(sales[k := row], from, to) + sales[k].total == SumIn(sales, from, to)
    decreases |sales|
  {
    var last := |sales| - 1;
    var s' := sales[k := row];
    if k == last {
      assert s'[..last] == sales[..last];
    } else {
      assert s'[..last] == sales[..last][k := row];
      UncountOne(sales[..last], k, row, from, to);
    }
  }

  /** Cancelling a completed sale of the range removes it from the totals:
      one transaction fewer, its total less. */
  lemma CancelLeavesStats(t: Tables, failing: set<Statement>, saleId: int, from: Date, to: Date)
    requires CancelRow(t, failing, saleId).0
    requires Counted(FindSaleRow(t, saleId).value, from, to)
    ensures var after := StatsForRange(CancelRow(t, failing, saleId).1, from, to);
      var before := StatsForRange(t, from, to);
      after.totalTransactions + 1 == before.totalTransactions &&
      after.totalSales + FindSaleRow(t, saleId).value.total == before.totalSales
  {
    var k := SaleIndex(t.sales, saleId);
    var t' := CancelRow(t, failing, saleId).1;
    assert t'.sales == t.sales[k := t.sales[k].(status := Cancelled)];
    UncountOne(t.sales, k, t.sales[k].(status := Cancelled), from, to);
  }

  // ---------------------------------------------------------------------------
  // The repository's methods on the shared connection
  // ---------------------------------------------------------------------------

  /** The INSERTs of create without its BEGIN and COMMIT: the header, then the
      items one by one, stamping each stored item with its id and sale id. */
  method InsertWithinTransaction(db: Connection, sale: Sale) returns (id: int, stored: Sale)
    requires db.Valid()
    modifies db
    ensures db.Valid() && db.snapshot == old(db.snapshot)
    ensures Insertion(id, db.tables, stored) == InsertedRows(old(db.tables), db.failing, sale, db.today)
  {
    if HeaderRejected(db.tables, db.failing, sale) {
      return 0, sale;
    }
    ghost var t0 := db.tables;
    var saleId := db.tables.nextSaleId;
    db.tables := AppendSale(db.tables, HeaderRow(sale, db.today));
    var stopped, items := InsertItems(db, sale.items, saleId);
    InsertedRowsStop(t0, db.failing, sale, db.today, stopped);
    stored := sale.(id := saleId, items := items);
    id := if stopped < |sale.items| then 0 else saleId;
  }

  /** One sale_items INSERT: fails as ItemRejected says, otherwise stores the
      item under the sale and reports the id it was given (lastInsertId). */
  method InsertItem(db: Connection, item: SaleItem, saleId: int) returns (ok: bool, itemId: int)
    requires saleId < db.tables.nextSaleId
    modifies db
    ensures db.snapshot == old(db.snapshot)
    ensures ok == !ItemRejected(old(db.tables), db.failing, item)
    ensures db.tables == if ok then AppendSaleItem(old(db.tables), item.(saleId := saleId)) else old(db.tables)
    ensures ok ==> itemId == old(db.tables).nextSaleItemId
  {
    if ItemRejected(db.tables, db.failing, item) {
      return false, 0;
    }
    itemId := db.tables.nextSaleItemId;
    db.tables := AppendSaleItem(db.tables, item.(saleId := saleId));
    ok := true;
  }

  /** The item loop of create: each item is inserted under the sale in turn,
      and its new id and the sale id are written into the caller's copy; the
      first failure stops the loop. */
  method InsertItems(db: Connection, items: seq<SaleItem>, saleId: int) returns (stopped: nat, stamped: seq<SaleItem>)
    requires db.Valid() && saleId < db.tables.nextSaleId
    modifies db
    ensures db.Valid() && db.snapshot == old(db.snapshot)
    ensures stopped == FirstRejected(old(db.tables), db.failing, items)
    ensures db.tables == AppendItems(old(db.tables), items[..stopped], saleId)
    ensures stamped == StampItems(items[..stopped], saleId, old(db.tables).nextSaleItemId) + items[stopped..]
  {
    ghost var t1 := db.tables;
    stamped := items;
    var i := 0;
    while i < |items|
      invariant 0 <= i <= |items|
      invariant db.snapshot == old(db.snapshot)
      invariant i <= FirstRejected(t1, db.failing, items)
      invariant db.tables == AppendItems(t1, items[..i], saleId)
      invariant |stamped| == |items|
      invariant forall j :: 0 <= j < i ==> stamped[j] == items[j].(id := t1.nextSaleItemId + j, saleId := saleId)
      invariant forall j :: i <= j < |items| ==> stamped[j] == items[j]
    {
      ghost var now := db.tables;
      var ok, itemId := InsertItem(db, items[i], saleId);
      if !ok {
        FirstRejectedAt(t1, db.failing, items, i);
        StampedPrefix(items, stamped, i, saleId, t1.nextSaleItemId);
        AppendItemsWellFormed(t1, items[..i], saleId);
        return i, stamped;
      }
      ItemAccepted(t1, db.failing, items, i, now);
      ItemStep(t1, items, i, saleId);
      stamped := stamped[i := items[i].(id := itemId, saleId := saleId)];
      i := i + 1;
    }
    StampedPrefix(items, stamped, i, saleId, t1.nextSaleItemId);
    AppendItemsWellFormed(t1, items[..i], saleId);
    return i, stamped;
  }

  /** InsertedRows in terms of the item at which the inserts stop. */
  lemma InsertedRowsStop(t: Tables, failing: set<Statement>, s: Sale, today: Date, k: nat)
    requires !HeaderRejected(t, failing, s) && k <= |s.items|
    requires forall j :: 0 <= j < k ==> !ItemRejected(AppendSale(t, HeaderRow(s, today)), failing, s.items[j])
    requires k < |s.items| ==> ItemRejected(AppendSale(t, HeaderRow(s, today)), failing, s.items[k])
    ensures var t1 := AppendSale(t, HeaderRow(s, today));
      InsertedRows(t, failing, s, today) ==
        Insertion(if k < |s.items| then 0 else t.nextSaleId,
          AppendItems(t1, s.items[..k], t.nextSaleId),
          s.(id := t.nextSaleId, items := StampItems(s.items[..k], t.nextSaleId, t1.nextSaleItemId) + s.items[k..]))
  {
    var t1 := AppendSale(t, HeaderRow(s, today));
    var f := FirstRejected(t1, failing, s.items);
    assert f == k;
  }

  /** SaleRepository::create. */
  method Create(db: Connection, sale: Sale) returns (id: int, stored: Sale)
    requires db.Valid()
    modifies db
    ensures db.Valid()
    ensures (id, db.Current(), stored) == Created(old(db.Current()), db.failing, sale, db.today)
  {
    var begun := db.BeginTransaction();
    if !begun {
      return 0, sale;
    }
    id, stored := InsertWithinTransaction(db, sale);
    if id == 0 {
      var _ := db.RollbackTransaction();
      return 0, stored;
    }
    var committed := db.CommitTransaction();
    if !committed {
      var _ := db.RollbackTransaction();
      return 0, stored;
    }
  }

  /** SaleRepository::cancel. */
  method Cancel(db: Connection, saleId: int) returns (ok: bool)
    requires db.Valid()
    modifies db
    ensures db.Valid() && db.snapshot == old(db.snapshot)
    ensures (ok, db.tables) == CancelRow(old(db.tables), db.failing, saleId)
  {
    var k := SaleIndex(db.tables.sales, saleId);
    if UpdateSaleStatus in db.failing || k == |db.tables.sales| {
      return false;
    }
    db.tables := ReplaceSale(db.tables, k, db.tables.sales[k].(status := Cancelled));
    ok := true;
  }
}
