/** Importing products from a spreadsheet: the header row gives the columns,
    each column may be mapped to a product field, and every data row is read
    through the mapping, checked, turned into a Product and created through
    the product service. The workbook is a parameter: `None` is a file that
    does not load. */
module ExcelImportService {
  import opened Common
  import opened ProductModel
  import opened Database
  import PS = ProductService

  // ---------------------------------------------------------------------------
  // Cells, sheets and mappings
  // ---------------------------------------------------------------------------

  /** A cell value: empty, text, or a number together with the text Qt
      renders for it. */
  datatype Cell = Null | Text(text: string) | Number(value: real, text: string)

  /** QVariant::toString. */
  function CellText(c: Cell): string {
    match c
    case Null => []
    case Text(s) => s
    case Number(_, s) => s
  }

  /** QVariant::toDouble: 0 for an empty cell or text that is not a number. */
  function CellNumber(c: Cell): real {
    match c
    case Null => 0.0
    case Text(s) => ToReal(s)
    case Number(v, _) => v
  }

  /** The loaded worksheet: its used range and its non-empty cells by (row, column), 1-based. */
  datatype Sheet = Sheet(lastRow: int, lastColumn: int, cells: map<(int, int), Cell>)

  function Read(sheet: Sheet, row: int, column: int): Cell {
    if (row, column) in sheet.cells then sheet.cells[(row, column)] else Null
  }

  datatype ColumnMapping = ColumnMapping(excelColumn: string, fieldName: string, columnIndex: int, isMapped: bool)

  /** getAvailableFields: the field names the import understands. */
  const AvailableFields: seq<string> :=
    ["name", "sku", "barcode", "category", "stock", "minimum_stock", "purchase_price", "sale_price", "description"]

  const NumericFields: set<string> := {"stock", "minimum_stock", "purchase_price", "sale_price"}

  /** getFieldDisplayName: the Spanish label of a known field, else the name itself. */
  function FieldDisplayName(fieldName: string): string {
    if fieldName == "name" then "Nombre"
    else if fieldName == "sku" then "SKU"
    else if fieldName == "barcode" then "Código de Barras"
    else if fieldName == "category" then "Categoría"
    else if fieldName == "stock" then "Stock Actual"
    else if fieldName == "minimum_stock" then "Stock Mínimo"
    else if fieldName == "purchase_price" then "Precio de Compra"
    else if fieldName == "sale_price" then "Precio de Venta"
    else if fieldName == "description" then "Descripción"
    else fieldName
  }

  /** Exactly the available fields have a label of their own; every other
      name is shown as it is. */
  lemma DisplayNameKnown(fieldName: string)
    ensures FieldDisplayName(fieldName) != fieldName <==> fieldName in AvailableFields
    ensures fieldName !in AvailableFields ==> FieldDisplayName(fieldName) == fieldName
  {
  }

  // ---------------------------------------------------------------------------
  // Headers
  // ---------------------------------------------------------------------------

  /** The header of one column, if the first row has a non-empty cell there. */
  function HeaderAt(sheet: Sheet, column: int): seq<string> {
    var c := Read(sheet, 1, column);
    if c != Null && CellText(c) != [] then [Trim(CellText(c))] else []
  }

  /** The headers of columns `column` to lastColumn, left to right. */
  function Headers(sheet: Sheet, column: int): seq<string>
    decreases sheet.lastColumn - column + 1
  {
    if column > sheet.lastColumn then [] else HeaderAt(sheet, column) + Headers(sheet, column + 1)
  }

  /** At most one header per column, each without surrounding white space. */
  lemma {:induction false} HeadersShape(sheet: Sheet, column: int)
    requires 1 <= column
    ensures |Headers(sheet, column)| <= if column > sheet.lastColumn then 0 else sheet.lastColumn - column + 1
    ensures forall i :: 0 <= i < |Headers(sheet, column)| ==> Trim(Headers(sheet, column)[i]) == Headers(sheet, column)[i]
    decreases sheet.lastColumn - column + 1
  {
    if column <= sheet.lastColumn {
      HeadersShape(sheet, column + 1);
      var h := HeaderAt(sheet, column);
      if h != [] {
        TrimIdempotent(CellText(Read(sheet, 1, column)));
      }
      var all := h + Headers(sheet, column + 1);
      forall i | 0 <= i < |all|
        ensures Trim(all[i]) == all[i]
      {
        if i >= |h| {
          assert all[i] == Headers(sheet, column + 1)[i - |h|];
        }
      }
    }
  }

  /** loadExcelFile: the trimmed texts of the non-empty header cells; nothing
      when the file does not load. */
  method LoadExcelFile(book: Option<Sheet>) returns (columns: seq<string>)
    ensures book.None? ==> columns == []
    ensures book.Some? ==> columns == Headers(book.value, 1)
  {
    columns := [];
    if book.None? {
      return;
    }
    var sheet := book.value;
    var column := 1;
    while column <= sheet.lastColumn
      invariant columns + Headers(sheet, column) == Headers(sheet, 1)
      decreases sheet.lastColumn - column + 1
    {
      var cellValue := Read(sheet, 1, column);
      assert Headers(sheet, column) == HeaderAt(sheet, column) + Headers(sheet, column + 1);
      AppendAssoc(columns, HeaderAt(sheet, column), Headers(sheet, column + 1));
      if cellValue != Null && CellText(cellValue) != [] {
        columns := columns + [Trim(CellText(cellValue))];
      } else {
        assert columns + HeaderAt(sheet, column) == columns;
      }
      column := column + 1;
    }
    assert Headers(sheet, column) == [];
    assert columns + [] == columns;
  }

  // ---------------------------------------------------------------------------
  // Reading and converting a row
  // ---------------------------------------------------------------------------

  type Row = map<string, Cell>

  /** QMap::value: an absent key reads as an empty cell. */
  function Value(row: Row, key: string): Cell {
    if key in row then row[key] else Null
  }

  /** convertValue: an empty cell stays empty; the four numeric fields become
      numbers; anything else becomes trimmed text. */
  function Converted(fieldName: string, v: Cell): Cell {
    if v == Null then Null
    else if fieldName in NumericFields then Number(CellNumber(v), CellText(v))
    else Text(Trim(CellText(v)))
  }

  /** Converting a converted value again changes nothing, and a numeric
      field's value is the number the cell reads as. */
  lemma ConvertIdempotent(fieldName: string, v: Cell)
    ensures Converted(fieldName, Converted(fieldName, v)) == Converted(fieldName, v)
    ensures v != Null && fieldName in NumericFields ==> CellNumber(Converted(fieldName, v)) == CellNumber(v)
    ensures v != Null && fieldName !in NumericFields ==> CellText(Converted(fieldName, v)) == Trim(CellText(v))
  {
    if v != Null && fieldName !in NumericFields {
      TrimIdempotent(CellText(v));
    }
  }

  /** readRow: for each mapped column with a non-negative index, in order,
      the converted cell under its field name; a later mapping to the same
      field overwrites an earlier one. */
  function RowRead(sheet: Sheet, rowIndex: int, mappings: seq<ColumnMapping>): Row
    decreases |mappings|
  {
    if mappings == [] then map[]
    else
      var r := RowRead(sheet, rowIndex, mappings[..|mappings| - 1]);
      var m := mappings[|mappings| - 1];
      if !m.isMapped || m.columnIndex < 0 then r
      else r[m.fieldName := Converted(m.fieldName, Read(sheet, rowIndex, m.columnIndex + 1))]
  }

  /** A mapping that readRow reads under field name f. */
  predicate ReadsField(m: ColumnMapping, f: string) {
    m.isMapped && m.columnIndex >= 0 && m.fieldName == f
  }

  /** The row read holds a value under a field name exactly when some mapped
      column with a non-negative index carries that name. */
  lemma {:induction false} RowReadHas(sheet: Sheet, rowIndex: int, mappings: seq<ColumnMapping>, f: string)
    ensures f in RowRead(sheet, rowIndex, mappings) <==>
      exists i :: 0 <= i < |mappings| && ReadsField(mappings[i], f)
    decreases |mappings|
  {
    if mappings != [] {
      var n := |mappings| - 1;
      RowReadHas(sheet, rowIndex, mappings[..n], f);
      assert forall i :: 0 <= i < n ==> mappings[i] == mappings[..n][i];
    }
  }

  /** The value under a field name is the converted cell of the last column
      read under that name. */
  lemma {:induction false} RowReadValue(sheet: Sheet, rowIndex: int, mappings: seq<ColumnMapping>, f: string, i: int)
    requires 0 <= i < |mappings| && ReadsField(mappings[i], f)
    requires forall j :: i < j < |mappings| ==> !ReadsField(mappings[j], f)
    ensures f in RowRead(sheet, rowIndex, mappings)
    ensures RowRead(sheet, rowIndex, mappings)[f] == Converted(f, Read(sheet, rowIndex, mappings[i].columnIndex + 1))
    decreases |mappings|
  {
    var n := |mappings| - 1;
    var m := mappings[n];
    if i < n {
      var prefix := mappings[..n];
      assert prefix[i] == mappings[i];
      forall j | i < j < n
        ensures !ReadsField(prefix[j], f)
      {
        assert prefix[j] == mappings[j];
      }
      RowReadValue(sheet, rowIndex, prefix, f, i);
      assert !ReadsField(m, f);
    }
  }

  // ---------------------------------------------------------------------------
  // validateProductData
  // ---------------------------------------------------------------------------

  datatype RowProblem =
    | NameRequired                 // "El nombre del producto es obligatorio"
    | NegativeSalePrice            // "El precio de venta no puede ser negativo"
    | NotCreated(why: PS.Failure)  // the product service's own message

  /** validateProductData: a name is required, then a sale price that is not
      negative; both are read under the service's own field names. */
  function ValidateProductData(row: Row): (r: Option<RowProblem>)
    ensures r.None? <==> Trim(CellText(Value(row, "name"))) != [] && CellNumber(Value(row, "sale_price")) >= 0.0
    ensures r == Some(NameRequired) <==> Trim(CellText(Value(row, "name"))) == []
    ensures r.Some? ==> r.value != NameRequired ==> r.value == NegativeSalePrice
  {
    if Trim(CellText(Value(row, "name"))) == [] then Some(NameRequired)
    else if CellNumber(Value(row, "sale_price")) < 0.0 then Some(NegativeSalePrice)
    else None
  }

  // ---------------------------------------------------------------------------
  // mapRowToProduct
  // ---------------------------------------------------------------------------

  /** The product mapRowToProduct starts from. */
  const Blank: Product := Default.(active := true)

  /** The effect of one mapping: a mapped field among the eight the service
      knows overwrites its product field; "category", unknown names and
      unmapped columns change nothing. */
  function Applied(p: Product, row: Row, m: ColumnMapping): Product {
    if !m.isMapped then p
    else
      var v := Value(row, m.fieldName);
      if m.fieldName == "name" then p.(name := Trim(CellText(v)))
      else if m.fieldName == "sku" then p.(sku := Trim(CellText(v)))
      else if m.fieldName == "barcode" then p.(barcode := Trim(CellText(v)))
      else if m.fieldName == "stock" then p.(currentStock := CellNumber(v))
      else if m.fieldName == "minimum_stock" then p.(minimumStock := CellNumber(v))
      else if m.fieldName == "purchase_price" then p.(purchasePrice := CellNumber(v))
      else if m.fieldName == "sale_price" then p.(salePrice := CellNumber(v))
      else if m.fieldName == "description" then p.(description := CellText(v))
      else p
  }

  function MappedFrom(p: Product, row: Row, mappings: seq<ColumnMapping>): Product
    decreases |mappings|
  {
    if mappings == [] then p else MappedFrom(Applied(p, row, mappings[0]), row, mappings[1..])
  }

  function MapRowToProduct(row: Row, mappings: seq<ColumnMapping>): Product {
    MappedFrom(Blank, row, mappings)
  }

  /** The field names of the mapped columns. */
  function MappedNames(mappings: seq<ColumnMapping>): set<string>
    decreases |mappings|
  {
    if mappings == [] then {}
    else (if mappings[0].isMapped then {mappings[0].fieldName} else {}) + MappedNames(mappings[1..])
  }

  /** The text fields come from the row value under the service's field
      name when some mapped column carries that name (trimmed for name, sku
      and barcode, as it is for description), and keep their starting
      value otherwise. */
  lemma {:induction false} MappedTexts(p: Product, row: Row, mappings: seq<ColumnMapping>)
    ensures var r := MappedFrom(p, row, mappings);
      r.name == (if "name" in MappedNames(mappings) then Trim(CellText(Value(row, "name"))) else p.name) &&
      r.sku == (if "sku" in MappedNames(mappings) then Trim(CellText(Value(row, "sku"))) else p.sku) &&
      r.barcode == (if "barcode" in MappedNames(mappings) then Trim(CellText(Value(row, "barcode"))) else p.barcode) &&
      r.description == (if "description" in MappedNames(mappings) then CellText(Value(row, "description")) else p.description)
    decreases |mappings|
  {
    if mappings != [] {
      var m := mappings[0];
      MappedTexts(Applied(p, row, m), row, mappings[1..]);
      AppliedTexts(p, row, m);
      assert MappedNames(mappings) == (if m.isMapped then {m.fieldName} else {}) + MappedNames(mappings[1..]);
    }
  }

  /** The four amounts come from the row value, read as a number, under the
      service's field name when some mapped column carries that name, and
      keep their starting value otherwise. */
  lemma {:induction false} MappedAmounts(p: Product, row: Row, mappings: seq<ColumnMapping>)
    ensures var r := MappedFrom(p, row, mappings);
      r.currentStock == (if "stock" in MappedNames(mappings) then CellNumber(Value(row, "stock")) else p.currentStock) &&
      r.minimumStock == (if "minimum_stock" in MappedNames(mappings) then CellNumber(Value(row, "minimum_stock")) else p.minimumStock) &&
      r.purchasePrice == (if "purchase_price" in MappedNames(mappings) then CellNumber(Value(row, "purchase_price")) else p.purchasePrice) &&
      r.salePrice == (if "sale_price" in MappedNames(mappings) then CellNumber(Value(row, "sale_price")) else p.salePrice)
    decreases |mappings|
  {
    if mappings != [] {
      var m := mappings[0];
      MappedAmounts(Applied(p, row, m), row, mappings[1..]);
      AppliedAmounts(p, row, m);
      assert MappedNames(mappings) == (if m.isMapped then {m.fieldName} else {}) + MappedNames(mappings[1..]);
    }
  }

  /** The id, category, image, active flag and timestamps are never touched. */
  lemma {:induction false} MappedKeepsOthers(p: Product, row: Row, mappings: seq<ColumnMapping>)
    ensures var r := MappedFrom(p, row, mappings);
      r.(name := p.name, sku := p.sku, barcode := p.barcode, currentStock := p.currentStock,
         minimumStock := p.minimumStock, purchasePrice := p.purchasePrice, salePrice := p.salePrice,
         description := p.description) == p
    decreases |mappings|
  {
    if mappings != [] {
      MappedKeepsOthers(Applied(p, row, mappings[0]), row, mappings[1..]);
    }
  }

  lemma AppliedTexts(p: Product, row: Row, m: ColumnMapping)
    ensures var r := Applied(p, row, m);
      r.name == (if m.isMapped && m.fieldName == "name" then Trim(CellText(Value(row, "name"))) else p.name) &&
      r.sku == (if m.isMapped && m.fieldName == "sku" then Trim(CellText(Value(row, "sku"))) else p.sku) &&
      r.barcode == (if m.isMapped && m.fieldName == "barcode" then Trim(CellText(Value(row, "barcode"))) else p.barcode) &&
      r.description == (if m.isMapped && m.fieldName == "description" then CellText(Value(row, "description")) else p.description)
  {
  }

  lemma AppliedAmounts(p: Product, row: Row, m: ColumnMapping)
    ensures var r := Applied(p, row, m);
      r.currentStock == (if m.isMapped && m.fieldName == "stock" then CellNumber(Value(row, "stock")) else p.currentStock) &&
      r.minimumStock == (if m.isMapped && m.fieldName == "minimum_stock" then CellNumber(Value(row, "minimum_stock")) else p.minimumStock) &&
      r.purchasePrice == (if m.isMapped && m.fieldName == "purchase_price" then CellNumber(Value(row, "purchase_price")) else p.purchasePrice) &&
      r.salePrice == (if m.isMapped && m.fieldName == "sale_price" then CellNumber(Value(row, "sale_price")) else p.salePrice)
  {
  }

  /** Mapped columns whose names the service does not handle are ignored:
      with none of the eight handled names mapped, every row yields the blank
      active product. */
  lemma UnhandledNamesIgnored(row: Row, mappings: seq<ColumnMapping>)
    requires forall f :: f in MappedNames(mappings) ==> f !in HandledFields
    ensures MapRowToProduct(row, mappings) == Blank
  {
    MappedTexts(Blank, row, mappings);
    MappedAmounts(Blank, row, mappings);
    MappedKeepsOthers(Blank, row, mappings);
    assert "name" !in MappedNames(mappings) && "sku" !in MappedNames(mappings);
    assert "barcode" !in MappedNames(mappings) && "stock" !in MappedNames(mappings);
    assert "minimum_stock" !in MappedNames(mappings) && "purchase_price" !in MappedNames(mappings);
    assert "sale_price" !in MappedNames(mappings) && "description" !in MappedNames(mappings);
  }

  /** The names mapRowToProduct acts on: the available fields but "category". */
  const HandledFields: set<string> :=
    {"name", "sku", "barcode", "stock", "minimum_stock", "purchase_price", "sale_price", "description"}

  /** mapRowToProduct; it reports no error of its own. */
  method MapRow(row: Row, mappings: seq<ColumnMapping>) returns (product: Product)
    ensures product == MapRowToProduct(row, mappings)
  {
    product := Blank;
    var i := 0;
    while i < |mappings|
      invariant 0 <= i <= |mappings|
      invariant MappedFrom(product, row, mappings[i..]) == MapRowToProduct(row, mappings)
    {
      assert mappings[i..][1..] == mappings[i + 1..];
      product := Applied(product, row, mappings[i]);
      i := i + 1;
    }
  }

  // ---------------------------------------------------------------------------
  // getPreview
  // ---------------------------------------------------------------------------

  datatype PreviewData = PreviewData(columnMappings: seq<ColumnMapping>, rows: seq<Row>, totalRows: int,
                                     hasErrors: bool)

  /** getPreview: the data rows below the header, at most maxRows of them,
      read from sheet row 2 on; totalRows excludes the header row. */
  method GetPreview(book: Option<Sheet>, mappings: seq<ColumnMapping>, maxRows: int) returns (preview: PreviewData)
    ensures preview.columnMappings == mappings
    ensures preview.hasErrors <==> book.None?
    ensures book.None? ==> preview.rows == [] && preview.totalRows == 0
    ensures book.Some? ==>
      preview.totalRows == book.value.lastRow - 1 &&
      |preview.rows| == Max(0, Min(maxRows, book.value.lastRow - 1)) &&
      forall i :: 0 <= i < |preview.rows| ==> preview.rows[i] == RowRead(book.value, i + 2, mappings)
  {
    if book.None? {
      return PreviewData(mappings, [], 0, true);
    }
    var sheet := book.value;
    var totalRows := sheet.lastRow;
    var rowsToRead := Min(maxRows, totalRows - 1);
    var rows: seq<Row> := [];
    var i := 0;
    while i < rowsToRead
      invariant 0 <= i == |rows| <= Max(0, rowsToRead)
      invariant forall j :: 0 <= j < i ==> rows[j] == RowRead(sheet, j + 2, mappings)
    {
      rows := rows + [RowRead(sheet, i + 2, mappings)];
      i := i + 1;
    }
    preview := PreviewData(mappings, rows, totalRows - 1, false);
  }

  // ---------------------------------------------------------------------------
  // importProducts
  // ---------------------------------------------------------------------------

  datatype ImportError =
    | LoadFailed                                  // "Error cargando archivo Excel"
    | RowError(row: int, problem: RowProblem)     // "Fila %1: %2"

  datatype ImportResult = ImportResult(totalRows: int, importedRows: nat, failedRows: nat,
                                       errors: seq<ImportError>, success: bool)

  lemma DivisionUnique(n: int, d: int, q: int, r: int)
    requires d > 0 && n == q * d + r && 0 <= r < d
    ensures n / d == q
  {
    var q0, r0 := n / d, n % d;
    assert (q - q0) * d == r0 - r;
    MultipleBounds(q - q0, d);
  }

  lemma MultipleBounds(x: int, d: int)
    requires d > 0
    ensures x >= 1 ==> x * d >= d
    ensures x <= -1 ==> x * d <= -d
  {
  }

  /** The percentage announced before the k-th of total rows:
      (k * 100) / total in C++ integer division. */
  function Progress(k: int, total: int): nat
    requires 1 <= k <= total
  {
    (k * 100) / total
  }

  /** The announced percentages stay within 0..100, never go down, and reach
      100 exactly at the last row. */
  lemma ProgressBounds(k: int, j: int, total: int)
    requires 1 <= k <= j <= total
    ensures 0 <= Progress(k, total) <= Progress(j, total) <= 100
    ensures Progress(total, total) == 100
    ensures Progress(k, total) == 100 <==> k == total
  {
    DivMonotone(k * 100, j * 100, total);
    DivMonotone(j * 100, total * 100, total);
    DivisionUnique(total * 100, total, 100, 0);
    if k < total {
      assert (k * 100) / total < 100 by {
        assert (k * 100) / total * total <= k * 100 < total * 100;
        MulCancel((k * 100) / total, 100, total);
      }
    }
  }

  lemma DivMonotone(a: int, b: int, d: int)
    requires 0 <= a <= b && d > 0
    ensures a / d <= b / d
  {
    assert (a / d) * d <= a <= b < (b / d + 1) * d;
    MulCancel(a / d, b / d + 1, d);
  }

  lemma MulCancel(x: int, y: int, d: int)
    requires d > 0 && x * d < y * d
    ensures x < y
  {
  }

  /** What happens to one data row: read, validated, mapped and created.
      mapRowToProduct sets no error, so its check is never the reason. */
  function RowImported(t: Tables, failing: set<Statement>, sheet: Sheet, mappings: seq<ColumnMapping>,
                       rowIndex: int): (r: (Option<RowProblem>, Tables))
    ensures r.0.Some? ==> r.0.value.NotCreated? || r.1 == t
  {
    var row := RowRead(sheet, rowIndex, mappings);
    var invalid := ValidateProductData(row);
    if invalid.Some? then (invalid, t)
    else
      var (status, t', _) := PS.CreatedProduct(t, failing, MapRowToProduct(row, mappings));
      if status.Success? then (None, t') else (Some(NotCreated(status.why)), t')
  }

  /** Rows rowIndex to lastRow, each imported into the tables the one before
      left: what happened to each row, in order, and the final tables. */
  function RowsImported(t: Tables, failing: set<Statement>, sheet: Sheet, mappings: seq<ColumnMapping>,
                        rowIndex: int): (r: (seq<Option<RowProblem>>, Tables))
    ensures |r.0| == if rowIndex > sheet.lastRow then 0 else sheet.lastRow - rowIndex + 1
    decreases sheet.lastRow - rowIndex + 1
  {
    if rowIndex > sheet.lastRow then ([], t)
    else
      var first := RowImported(t, failing, sheet, mappings, rowIndex);
      var rest := RowsImported(first.1, failing, sheet, mappings, rowIndex + 1);
      ([first.0] + rest.0, rest.1)
  }

  /** Rows startRow to rowIndex - 1 imported one after another, seen from
      the front: the outcomes so far and the tables they left. */
  function ImportedSoFar(t: Tables, failing: set<Statement>, sheet: Sheet, mappings: seq<ColumnMapping>,
                         startRow: int, rowIndex: int): (r: (seq<Option<RowProblem>>, Tables))
    requires startRow <= rowIndex
    ensures |r.0| == rowIndex - startRow
    decreases rowIndex - startRow
  {
    if rowIndex == startRow then ([], t)
    else
      var before := ImportedSoFar(t, failing, sheet, mappings, startRow, rowIndex - 1);
      var last := RowImported(before.1, failing, sheet, mappings, rowIndex - 1);
      (before.0 + [last.0], last.1)
  }

  /** The rows imported so far followed by the rows still to come are the
      whole import. */
  lemma {:induction false} ImportedSplit(t: Tables, failing: set<Statement>, sheet: Sheet,
                                         mappings: seq<ColumnMapping>, startRow: int, rowIndex: int)
    requires startRow <= rowIndex <= Max(startRow, sheet.lastRow + 1)
    ensures var sofar := ImportedSoFar(t, failing, sheet, mappings, startRow, rowIndex);
      var rest := RowsImported(sofar.1, failing, sheet, mappings, rowIndex);
      RowsImported(t, failing, sheet, mappings, startRow) == (sofar.0 + rest.0, rest.1)
    decreases rowIndex - startRow
  {
    if rowIndex == startRow {
      var rest := RowsImported(t, failing, sheet, mappings, rowIndex);
      assert [] + rest.0 == rest.0;
    } else {
      ImportedSplit(t, failing, sheet, mappings, startRow, rowIndex - 1);
      var before := ImportedSoFar(t, failing, sheet, mappings, startRow, rowIndex - 1);
      var last := RowImported(before.1, failing, sheet, mappings, rowIndex - 1);
      var rest := RowsImported(last.1, failing, sheet, mappings, rowIndex);
      AppendAssoc(before.0, [last.0], rest.0);
    }
  }

  /** The counters and the error list importProducts keeps. */
  datatype Tally = Tally(imported: nat, failed: nat, errors: seq<ImportError>)

  /** One more row counted: imported, or failed with an error naming it. */
  function Counted(tally: Tally, row: int, problem: Option<RowProblem>): Tally {
    match problem
    case None => tally.(imported := tally.imported + 1)
    case Some(why) => tally.(failed := tally.failed + 1, errors := tally.errors + [RowError(row, why)])
  }

  /** The tally over the outcomes of consecutive rows from firstRow on. */
  function TallyOf(problems: seq<Option<RowProblem>>, firstRow: int): Tally
    decreases |problems|
  {
    if problems == [] then Tally(0, 0, [])
    else Counted(TallyOf(problems[..|problems| - 1], firstRow), firstRow + |problems| - 1, problems[|problems| - 1])
  }

  /** Every row is counted once, as imported or as failed, with one error
      per failed row; no row fails exactly when every outcome is a success. */
  lemma {:induction false} TallyCounts(problems: seq<Option<RowProblem>>, firstRow: int)
    ensures var tally := TallyOf(problems, firstRow);
      tally.imported + tally.failed == |problems| &&
      |tally.errors| == tally.failed &&
      (tally.failed == 0 <==> forall i :: 0 <= i < |problems| ==> problems[i].None?)
    decreases |problems|
  {
    if problems != [] {
      var before := problems[..|problems| - 1];
      TallyCounts(before, firstRow);
      assert forall i :: 0 <= i < |before| ==> problems[i] == before[i];
    }
  }

  /** Each error names a row that failed, with its problem, and the errors
      come in row order. */
  ghost predicate NamesFailedRows(errors: seq<ImportError>, problems: seq<Option<RowProblem>>, firstRow: int) {
    (forall i :: 0 <= i < |errors| ==>
       errors[i].RowError? && firstRow <= errors[i].row < firstRow + |problems| &&
       problems[errors[i].row - firstRow] == Some(errors[i].problem)) &&
    (forall i, j :: 0 <= i < j < |errors| ==> errors[i].row < errors[j].row)
  }

  lemma {:induction false} TallyErrors(problems: seq<Option<RowProblem>>, firstRow: int)
    ensures NamesFailedRows(TallyOf(problems, firstRow).errors, problems, firstRow)
    decreases |problems|
  {
    if problems != [] {
      var before := problems[..|problems| - 1];
      TallyErrors(before, firstRow);
      var earlier := TallyOf(before, firstRow).errors;
      assert forall i :: 0 <= i < |before| ==> problems[i] == before[i];
      match problems[|problems| - 1]
      case None =>
        assert TallyOf(problems, firstRow).errors == earlier;
      case Some(why) =>
        var errors := earlier + [RowError(firstRow + |before|, why)];
        assert TallyOf(problems, firstRow).errors == errors;
        forall i | 0 <= i < |errors|
          ensures errors[i].RowError? && firstRow <= errors[i].row < firstRow + |problems|
          ensures problems[errors[i].row - firstRow] == Some(errors[i].problem)
        {
          if i < |earlier| {
            assert errors[i] == earlier[i];
          }
        }
        forall i, j | 0 <= i < j < |errors|
          ensures errors[i].row < errors[j].row
        {
          assert errors[i] == earlier[i];
          if j < |earlier| {
            assert errors[j] == earlier[j];
          }
        }
    }
  }

  /** The percentages announced before the first k of `total` rows. */
  function Announced(k: nat, total: int): (ps: seq<nat>)
    requires k <= Max(0, total)
    ensures |ps| == k
  {
    seq(k, i requires 0 <= i < k => Progress(i + 1, total))
  }

  /** emit importProgress before row k + 1 of total: its percentage joins
      those announced before. */
  method EmitProgress(announced: seq<nat>, k: nat, total: int) returns (next: seq<nat>)
    requires k < Max(0, total) && announced == Announced(k, total)
    ensures next == Announced(k + 1, total)
  {
    var progress := ((k + 1) * 100) / total;
    next := announced + [progress];
    assert forall i :: 0 <= i < k ==> next[i] == Announced(k + 1, total)[i];
  }

  /** The percentages announced before the rows, one per row, for `total` rows. */
  function Percentages(total: int): (ps: seq<nat>)
    ensures |ps| == Max(0, total)
  {
    Announced(Max(0, total), total)
  }

  /** The percentages announced run from 0 to 100, never go down, and reach
      100 exactly at the last row. */
  lemma PercentagesRise(total: int)
    ensures var ps := Percentages(total);
      (forall i :: 0 <= i < |ps| ==> ps[i] <= 100) &&
      (forall i, j :: 0 <= i <= j < |ps| ==> ps[i] <= ps[j]) &&
      (forall i :: 0 <= i < |ps| ==> (ps[i] == 100 <==> i == |ps| - 1))
  {
    var ps := Percentages(total);
    forall i, j | 0 <= i <= j < |ps|
      ensures ps[i] <= ps[j] <= 100 && (ps[i] == 100 <==> i == |ps| - 1)
    {
      ProgressBounds(i + 1, j + 1, total);
    }
  }

  /** importProducts: nothing but the load error when the file does not load;
      otherwise every row from startRow (2 when the header row is skipped) to
      the last is imported in turn, with 0 announced first and 100 last. */
  function Imported(t: Tables, failing: set<Statement>, book: Option<Sheet>, mappings: seq<ColumnMapping>,
                    skipFirstRow: bool): (ImportResult, seq<int>, Tables)
  {
    if book.None? then (ImportResult(0, 0, 0, [LoadFailed], false), [], t)
    else
      var sheet := book.value;
      var startRow := if skipFirstRow then 2 else 1;
      var total := sheet.lastRow - startRow + 1;
      var rows := RowsImported(t, failing, sheet, mappings, startRow);
      var tally := TallyOf(rows.0, startRow);
      (ImportResult(total, tally.imported, tally.failed, tally.errors, tally.imported > 0),
       [0] + Percentages(total) + [100], rows.1)
  }

  /** importedRows + failedRows = totalRows whenever there is at least one
      row to read, errors are one per failed row, and success means at least
      one product was created; a file that does not load changes nothing. */
  lemma ImportAccounting(t: Tables, failing: set<Statement>, book: Option<Sheet>, mappings: seq<ColumnMapping>,
                         skipFirstRow: bool)
    ensures var r := Imported(t, failing, book, mappings, skipFirstRow);
      (r.0.success <==> r.0.importedRows > 0) &&
      (book.None? ==> r.0.errors == [LoadFailed] && r.1 == [] && r.2 == t) &&
      (book.Some? ==>
         r.0.totalRows == book.value.lastRow - (if skipFirstRow then 2 else 1) + 1 &&
         r.0.importedRows + r.0.failedRows == Max(0, r.0.totalRows) &&
         |r.0.errors| == r.0.failedRows)
  {
    if book.Some? {
      var startRow := if skipFirstRow then 2 else 1;
      TallyCounts(RowsImported(t, failing, book.value, mappings, startRow).0, startRow);
    }
  }

  /** A loaded file announces 0, then one percentage per row, then 100, and
      the announcements never go down. */
  lemma ImportProgress(t: Tables, failing: set<Statement>, book: Option<Sheet>, mappings: seq<ColumnMapping>,
                       skipFirstRow: bool)
    requires book.Some?
    ensures var progress := Imported(t, failing, book, mappings, skipFirstRow).1;
      |progress| == Max(0, book.value.lastRow - (if skipFirstRow then 2 else 1) + 1) + 2 &&
      progress[0] == 0 && progress[|progress| - 1] == 100 &&
      (forall i, j :: 0 <= i <= j < |progress| ==> progress[i] <= progress[j] <= 100)
  {
    var total := book.value.lastRow - (if skipFirstRow then 2 else 1) + 1;
    var ps := Percentages(total);
    PercentagesRise(total);
    var progress := [0] + ps + [100];
    assert progress == Imported(t, failing, book, mappings, skipFirstRow).1;
    forall i, j | 0 <= i <= j < |progress|
      ensures progress[i] <= progress[j] <= 100
    {
      if 1 <= i && j < |progress| - 1 {
        assert progress[i] == ps[i - 1] && progress[j] == ps[j - 1];
      } else if 1 <= i < |progress| - 1 {
        assert progress[i] == ps[i - 1];
      } else if 1 <= j < |progress| - 1 {
        assert progress[j] == ps[j - 1];
      }
    }
  }

  /** One row through the product service, as importProducts handles it. */
  method ImportRow(db: Connection, sheet: Sheet, mappings: seq<ColumnMapping>, rowIndex: int, tally: Tally)
    returns (counted: Tally)
    requires db.Valid()
    modifies db
    ensures db.Valid() && db.snapshot == old(db.snapshot)
    ensures var row := RowImported(old(db.tables), db.failing, sheet, mappings, rowIndex);
      counted == Counted(tally, rowIndex, row.0) && db.tables == row.1
  {
    var rowData := RowRead(sheet, rowIndex, mappings);
    var problem := ValidateProductData(rowData);
    if problem.None? {
      var product := MapRow(rowData, mappings);
      var status, _ := PS.CreateProduct(db, product);
      problem := if status.Success? then None else Some(NotCreated(status.why));
    }
    counted := Counted(tally, rowIndex, problem);
  }

  /** One more outcome at the end of the tally. */
  lemma TallyStep(problems: seq<Option<RowProblem>>, problem: Option<RowProblem>, firstRow: int)
    ensures TallyOf(problems + [problem], firstRow) == Counted(TallyOf(problems, firstRow), firstRow + |problems|, problem)
  {
    assert (problems + [problem])[..|problems|] == problems;
  }

  /** One more row imported: the tables it leaves and the tally with its
      outcome counted. */
  lemma ImportRowStep(t0: Tables, failing: set<Statement>, sheet: Sheet, mappings: seq<ColumnMapping>,
                      startRow: int, rowIndex: int)
    requires startRow <= rowIndex
    ensures var sofar := ImportedSoFar(t0, failing, sheet, mappings, startRow, rowIndex);
      var row := RowImported(sofar.1, failing, sheet, mappings, rowIndex);
      var next := ImportedSoFar(t0, failing, sheet, mappings, startRow, rowIndex + 1);
      next.1 == row.1 &&
      TallyOf(next.0, startRow) == Counted(TallyOf(sofar.0, startRow), rowIndex, row.0)
  {
    var sofar := ImportedSoFar(t0, failing, sheet, mappings, startRow, rowIndex);
    TallyStep(sofar.0, RowImported(sofar.1, failing, sheet, mappings, rowIndex).0, startRow);
  }

  /** The next row of the loop: the import so far grows by one row. The
      starting state's validity is required as one fact (`== true`), so the
      caller's loop checks it once rather than conjunct by conjunct. */
  method ImportNext(db: Connection, sheet: Sheet, mappings: seq<ColumnMapping>, ghost t0: Tables,
                    startRow: int, rowIndex: int, tally: Tally) returns (counted: Tally)
    requires (StateWellFormed(State(t0, db.snapshot)) && Calendar.Valid(db.today)) == true
    requires startRow <= rowIndex
    requires db.tables == ImportedSoFar(t0, db.failing, sheet, mappings, startRow, rowIndex).1
    requires tally == TallyOf(ImportedSoFar(t0, db.failing, sheet, mappings, startRow, rowIndex).0, startRow)
    modifies db
    ensures db.snapshot == old(db.snapshot)
    ensures db.tables == ImportedSoFar(t0, db.failing, sheet, mappings, startRow, rowIndex + 1).1
    ensures counted == TallyOf(ImportedSoFar(t0, db.failing, sheet, mappings, startRow, rowIndex + 1).0, startRow)
  {
    ImportedSoFarWellFormed(t0, db.failing, sheet, mappings, startRow, rowIndex);
    ImportRowStep(t0, db.failing, sheet, mappings, startRow, rowIndex);
    counted := ImportRow(db, sheet, mappings, rowIndex, tally);
  }

  /** Importing rows keeps the tables well formed. */
  lemma {:induction false} ImportedSoFarWellFormed(t: Tables, failing: set<Statement>, sheet: Sheet,
                                                   mappings: seq<ColumnMapping>, startRow: int, rowIndex: int)
    requires WellFormed(t) && startRow <= rowIndex
    ensures WellFormed(ImportedSoFar(t, failing, sheet, mappings, startRow, rowIndex).1)
    decreases rowIndex - startRow
  {
    if rowIndex > startRow {
      ImportedSoFarWellFormed(t, failing, sheet, mappings, startRow, rowIndex - 1);
      var before := ImportedSoFar(t, failing, sheet, mappings, startRow, rowIndex - 1);
      var row := RowRead(sheet, rowIndex - 1, mappings);
      PS.CreatedProductWellFormed(before.1, failing, MapRowToProduct(row, mappings));
    }
  }

  /** A loaded sheet imports as its rows, from the start row to the last,
      imported one after another from the front. */
  lemma ImportedFromFront(t: Tables, failing: set<Statement>, sheet: Sheet, mappings: seq<ColumnMapping>,
                          skipFirstRow: bool, startRow: int, totalRows: int)
    requires startRow == (if skipFirstRow then 2 else 1) && totalRows == sheet.lastRow - startRow + 1
    ensures var rows := ImportedSoFar(t, failing, sheet, mappings, startRow, Max(startRow, sheet.lastRow + 1));
      var tally := TallyOf(rows.0, startRow);
      Imported(t, failing, Some(sheet), mappings, skipFirstRow) ==
        (ImportResult(totalRows, tally.imported, tally.failed, tally.errors, tally.imported > 0),
         [0] + Percentages(totalRows) + [100], rows.1)
  {
    ImportedSplit(t, failing, sheet, mappings, startRow, Max(startRow, sheet.lastRow + 1));
    var sofar := ImportedSoFar(t, failing, sheet, mappings, startRow, Max(startRow, sheet.lastRow + 1));
    assert sofar.0 + [] == sofar.0;
  }

  /** importProducts; `progress` is the sequence of percentages announced. */
  method ImportProducts(db: Connection, book: Option<Sheet>, mappings: seq<ColumnMapping>, skipFirstRow: bool)
    returns (result: ImportResult, progress: seq<int>)
    requires db.Valid()
    modifies db
    ensures db.Valid() && db.snapshot == old(db.snapshot)
    ensures (result, progress, db.tables) == Imported(old(db.tables), db.failing, book, mappings, skipFirstRow)
  {
    if book.None? {
      return ImportResult(0, 0, 0, [LoadFailed], false), [];
    }
    var sheet := book.value;
    var startRow := if skipFirstRow then 2 else 1;
    var totalRows := sheet.lastRow - startRow + 1;
    var tally, announced := ImportRows(db, sheet, mappings, startRow, totalRows);
    ImportedSoFarWellFormed(old(db.tables), db.failing, sheet, mappings, startRow, Max(startRow, sheet.lastRow + 1));
    ImportedFromFront(old(db.tables), db.failing, sheet, mappings, skipFirstRow, startRow, totalRows);
    result := ImportResult(totalRows, tally.imported, tally.failed, tally.errors, tally.imported > 0);
    progress := [0] + announced + [100];
  }

  /** The row loop of importProducts: rows startRow to lastRow in turn, each
      announced and then imported. */
  method ImportRows(db: Connection, sheet: Sheet, mappings: seq<ColumnMapping>, startRow: int, totalRows: int)
    returns (tally: Tally, announced: seq<nat>)
    requires db.Valid() && totalRows == sheet.lastRow - startRow + 1
    modifies db
    ensures db.snapshot == old(db.snapshot)
    ensures var rows := ImportedSoFar(old(db.tables), db.failing, sheet, mappings, startRow, Max(startRow, sheet.lastRow + 1));
      tally == TallyOf(rows.0, startRow) && db.tables == rows.1
    ensures announced == Percentages(totalRows)
  {
    ghost var t0 := db.tables;
    ghost var snapshot := db.snapshot;
    ghost var endRow := Max(startRow, sheet.lastRow + 1);
    assert endRow - startRow == Max(0, totalRows);
    tally := Tally(0, 0, []);
    announced := [];
    var rowIndex := startRow;
    while rowIndex <= sheet.lastRow
      invariant db.snapshot == snapshot
      invariant startRow <= rowIndex <= endRow
      invariant tally == TallyOf(ImportedSoFar(t0, db.failing, sheet, mappings, startRow, rowIndex).0, startRow)
      invariant db.tables == ImportedSoFar(t0, db.failing, sheet, mappings, startRow, rowIndex).1
      invariant announced == Announced(rowIndex - startRow, totalRows)
      decreases sheet.lastRow - rowIndex + 1
    {
      var k := rowIndex - startRow;
      announced := EmitProgress(announced, k, totalRows);
      tally := ImportNext(db, sheet, mappings, t0, startRow, rowIndex, tally);
      rowIndex := rowIndex + 1;
      assert rowIndex - startRow == k + 1;
    }
    assert rowIndex == endRow && t0 == old(db.tables);
    assert rowIndex - startRow == Max(0, totalRows);
  }
}
