/** The view model behind the Excel import screen: it loads a workbook's
    header row, proposes a product field for each column, lets the user change
    that mapping, previews the first data rows and runs the import, keeping
    the screen's state in fields it updates in place. The file system is a
    map from path to workbook fixed when the view model is built; the product
    tables the import writes are the database connection passed in. */
module ExcelImportViewModel {
  import opened Common
  import opened Database
  import PS = ProductService
  import EIS = ExcelImportService

  type ColumnMapping = EIS.ColumnMapping

  /** availableFields: the fields offered on screen, under the view model's
      own names. */
  const AvailableFields: seq<string> :=
    ["name", "sku", "barcode", "currentStock", "minimumStock", "purchasePrice", "salePrice", "description"]

  /** What autoMapColumn answers, and the screen offers, for "no field". */
  const Unmapped: string := "ninguno"

  const FilePrefix: string := "file:///"
  const NoColumnsMessage: string := "No se pudieron leer las columnas del archivo Excel"
  const NoFileMessage: string := "No hay archivo cargado"
  const LoadErrorMessage: string := "Error cargando archivo Excel"
  const MissingFieldsMessage: string := "Debes mapear al menos: Nombre y SKU (campos obligatorios)"
  const SummaryHeader: string := "Error en la importación:\n"
  const Bullet: char := '•'

  // ---------------------------------------------------------------------------
  // autoMapColumn
  // ---------------------------------------------------------------------------

  /** autoMapColumn: the header is lower-cased and the first rule whose
      keywords it contains names the field. The minimum-stock rule reads
      `mín || (min && (stock || existencia))`, because && binds tighter than
      || in the condition as written. */
  function AutoMapColumn(columnName: string): (field: string)
    ensures field == Unmapped || field in AvailableFields
  {
    var h := ToLower(columnName);
    if Contains(h, "nombre") || Contains(h, "name") || Contains(h, "producto") then "name"
    else if Contains(h, "sku") || Contains(h, "codigo") then "sku"
    else if Contains(h, "barr") || Contains(h, "ean") || Contains(h, "upc") then "barcode"
    else if Contains(h, "mín") || (Contains(h, "min") && (Contains(h, "stock") || Contains(h, "existencia")))
    then "minimumStock"
    else if Contains(h, "stock") || Contains(h, "existencia") || Contains(h, "cantidad") then "currentStock"
    else if Contains(h, "compra") || Contains(h, "costo") then "purchasePrice"
    else if Contains(h, "venta") || Contains(h, "precio") || Contains(h, "pvp") then "salePrice"
    else if Contains(h, "desc") || Contains(h, "detalle") then "description"
    else Unmapped
  }

  /** The keywords of the eight rules; "min" is left out, since it counts
      only together with "stock" or "existencia". */
  const Keywords: set<string> :=
    {"nombre", "name", "producto", "sku", "codigo", "barr", "ean", "upc", "mín", "stock", "existencia",
     "cantidad", "compra", "costo", "venta", "precio", "pvp", "desc", "detalle"}

  /** A header is left unmapped exactly when it contains none of the
      keywords, once lower-cased. */
  lemma AutoMapUnmapped(columnName: string)
    ensures AutoMapColumn(columnName) == Unmapped <==>
      forall k :: k in Keywords ==> !Contains(ToLower(columnName), k)
  {
  }

  // ---------------------------------------------------------------------------
  // Field names: the view model's and the service's
  // ---------------------------------------------------------------------------

  /** The service's name for a field the screen offers: the four amounts are
      spelled in snake case there, the other names agree. */
  function ServiceField(field: string): (name: string)
    ensures field in AvailableFields ==> name in EIS.HandledFields
  {
    if field == "currentStock" then "stock"
    else if field == "minimumStock" then "minimum_stock"
    else if field == "purchasePrice" then "purchase_price"
    else if field == "salePrice" then "sale_price"
    else field
  }

  /** The mappings under the service's field names: the corrected hand-over,
      which the screen as written does not make. */
  function ServiceMappings(mappings: seq<ColumnMapping>): (r: seq<ColumnMapping>)
    ensures |r| == |mappings|
    ensures forall i :: 0 <= i < |r| ==>
      r[i] == mappings[i].(fieldName := ServiceField(mappings[i].fieldName))
  {
    seq(|mappings|, i requires 0 <= i < |mappings| => mappings[i].(fieldName := ServiceField(mappings[i].fieldName)))
  }

  /** As written, an auto-mapped amount column reaches the service under the
      view model's camel-case name, which mapRowToProduct does not handle: the
      column is dropped and the product keeps the blank value. */
  lemma AutoMappedAmountIgnored(columnName: string, row: EIS.Row)
    requires AutoMapColumn(columnName) in {"currentStock", "minimumStock", "purchasePrice", "salePrice"}
    ensures EIS.MapRowToProduct(row, [MappingFor(columnName, 0)]) == EIS.Blank
  {
    var m := MappingFor(columnName, 0);
    assert EIS.MappedNames([m]) == {AutoMapColumn(columnName)};
    EIS.UnhandledNamesIgnored(row, [m]);
  }

  /** A header reading "Precio" in any case is auto-mapped to the sale
      price, and as written the import then reads no sale price from it. */
  lemma PrecioColumnIgnored(columnName: string, row: EIS.Row)
    requires ToLower(columnName) == "precio"
    ensures AutoMapColumn(columnName) == "salePrice"
    ensures EIS.MapRowToProduct(row, [MappingFor(columnName, 0)]).salePrice == 0.0
  {
    PrecioIsSalePrice(columnName);
    AutoMappedAmountIgnored(columnName, row);
  }

  lemma PrecioIsSalePrice(columnName: string)
    requires ToLower(columnName) == "precio"
    ensures AutoMapColumn(columnName) == "salePrice"
  {
    var h := ToLower(columnName);
    ContainsAt(h, "precio", 0);
    BeforeSalePrice(h);
  }

  /** The letters of "precio". */
  predicate PrecioLetters(h: string) {
    forall i :: 0 <= i < |h| ==> h[i] in {'p', 'r', 'e', 'c', 'i', 'o'}
  }

  /** A lower-cased header spelt with the letters of "precio" matches none of
      the rules before the sale-price rule. */
  lemma BeforeSalePrice(h: string)
    requires PrecioLetters(h)
    ensures !Contains(h, "nombre") && !Contains(h, "name") && !Contains(h, "producto")
    ensures !Contains(h, "sku") && !Contains(h, "codigo")
    ensures !Contains(h, "barr") && !Contains(h, "ean") && !Contains(h, "upc")
    ensures !Contains(h, "mín") && !Contains(h, "min")
    ensures !Contains(h, "stock") && !Contains(h, "existencia") && !Contains(h, "cantidad")
    ensures !Contains(h, "compra") && !Contains(h, "costo")
  {
    NotNameOrSku(h);
    NotBarcode(h);
    NotStock(h);
    NotPurchasePrice(h);
  }

  lemma NotNameOrSku(h: string)
    requires PrecioLetters(h)
    ensures !Contains(h, "nombre") && !Contains(h, "name") && !Contains(h, "producto")
    ensures !Contains(h, "sku") && !Contains(h, "codigo")
  {
    assert 'n' !in h && 'd' !in h && 's' !in h;
    NotContainsByChar(h, "nombre", 0);
    NotContainsByChar(h, "name", 0);
    NotContainsByChar(h, "producto", 3);
    NotContainsByChar(h, "sku", 0);
    NotContainsByChar(h, "codigo", 2);
  }

  lemma NotBarcode(h: string)
    requires PrecioLetters(h)
    ensures !Contains(h, "barr") && !Contains(h, "ean") && !Contains(h, "upc")
  {
    assert 'b' !in h && 'a' !in h && 'u' !in h;
    NotContainsByChar(h, "barr", 0);
    NotContainsByChar(h, "ean", 1);
    NotContainsByChar(h, "upc", 0);
  }

  lemma NotStock(h: string)
    requires PrecioLetters(h)
    ensures !Contains(h, "mín") && !Contains(h, "min")
    ensures !Contains(h, "stock") && !Contains(h, "existencia") && !Contains(h, "cantidad")
  {
    assert 'm' !in h && 's' !in h && 'x' !in h && 'a' !in h;
    NotContainsByChar(h, "mín", 0);
    NotContainsByChar(h, "min", 0);
    NotContainsByChar(h, "stock", 0);
    NotContainsByChar(h, "existencia", 1);
    NotContainsByChar(h, "cantidad", 1);
  }

  lemma NotPurchasePrice(h: string)
    requires PrecioLetters(h)
    ensures !Contains(h, "compra") && !Contains(h, "costo")
  {
    assert 'm' !in h && 's' !in h;
    NotContainsByChar(h, "compra", 2);
    NotContainsByChar(h, "costo", 2);
  }

  /** Under the service's names every mapped column the screen offers is one
      mapRowToProduct handles: an auto-mapped sale-price column sets the
      product's sale price from the row. */
  lemma ServiceMappingReadsAmount(columnName: string, row: EIS.Row)
    requires AutoMapColumn(columnName) == "salePrice"
    ensures EIS.MapRowToProduct(row, ServiceMappings([MappingFor(columnName, 0)])).salePrice ==
      EIS.CellNumber(EIS.Value(row, "sale_price"))
  {
    var ms := ServiceMappings([MappingFor(columnName, 0)]);
    assert ms[0].fieldName == "sale_price" && ms[0].isMapped;
    assert EIS.MappedNames(ms) == {"sale_price"};
    EIS.MappedAmounts(EIS.Blank, row, ms);
  }

  // ---------------------------------------------------------------------------
  // Mappings
  // ---------------------------------------------------------------------------

  /** The mapping loadFile creates for the column at `index`: mapped to the
      auto-mapped field, or unmapped with no field name. */
  function MappingFor(column: string, index: int): (m: ColumnMapping)
    ensures m.excelColumn == column && m.columnIndex == index
    ensures m.isMapped <==> AutoMapColumn(column) != Unmapped
    ensures m.isMapped ==> m.fieldName == AutoMapColumn(column)
  {
    var field := AutoMapColumn(column);
    if field != Unmapped then EIS.ColumnMapping(column, field, index, true)
    else EIS.ColumnMapping(column, "", index, false)
  }

  function InitialMappings(columns: seq<string>): (ms: seq<ColumnMapping>)
    ensures |ms| == |columns|
  {
    seq(|columns|, i requires 0 <= i < |columns| => MappingFor(columns[i], i))
  }

  /** loadFile's loop: one auto-mapped entry per column, in column order. */
  method AutoMapped(columns: seq<string>) returns (mappings: seq<ColumnMapping>)
    ensures mappings == InitialMappings(columns)
  {
    mappings := [];
    var i := 0;
    while i < |columns|
      invariant 0 <= i <= |columns| && |mappings| == i
      invariant forall j :: 0 <= j < i ==> mappings[j] == MappingFor(columns[j], j)
    {
      mappings := mappings + [MappingFor(columns[i], i)];
      i := i + 1;
    }
  }

  /** A mapped entry names a field other than "ninguno"; an unmapped one
      names none. */
  predicate Coherent(m: ColumnMapping) {
    if m.isMapped then m.fieldName != [] && m.fieldName != Unmapped else m.fieldName == []
  }

  /** Every entry is coherent and carries its own position as column index. */
  predicate WellNumbered(ms: seq<ColumnMapping>) {
    forall i :: 0 <= i < |ms| ==> ms[i].columnIndex == i && Coherent(ms[i])
  }

  /** The mappings loadFile creates are numbered by position and coherent. */
  lemma InitialWellNumbered(columns: seq<string>)
    ensures WellNumbered(InitialMappings(columns))
  {
    var ms := InitialMappings(columns);
    forall i | 0 <= i < |ms|
      ensures ms[i].columnIndex == i && Coherent(ms[i])
    {
      assert ms[i] == MappingFor(columns[i], i);
    }
  }

  /** setColumnMapping's change to the entry it finds: "" or "ninguno"
      unmaps it and clears its field, any other name maps it to that field. */
  function Assigned(m: ColumnMapping, fieldName: string): ColumnMapping {
    if fieldName == [] || fieldName == Unmapped then m.(fieldName := [], isMapped := false)
    else m.(fieldName := fieldName, isMapped := true)
  }

  /** The position of the first entry from `from` on for the column, or the
      length when there is none. */
  function FirstWith(ms: seq<ColumnMapping>, column: string, from: nat): (k: nat)
    requires from <= |ms|
    ensures from <= k <= |ms|
    ensures k < |ms| ==> ms[k].excelColumn == column
    ensures forall j :: from <= j < k ==> ms[j].excelColumn != column
    decreases |ms| - from
  {
    if from == |ms| then |ms|
    else if ms[from].excelColumn == column then from
    else FirstWith(ms, column, from + 1)
  }

  /** setColumnMapping: only the first entry for the column changes. */
  function Remapped(ms: seq<ColumnMapping>, column: string, fieldName: string): seq<ColumnMapping> {
    var k := FirstWith(ms, column, 0);
    if k < |ms| then ms[k := Assigned(ms[k], fieldName)] else ms
  }

  /** Remapping changes the first entry for the column as Assigned says and
      no other entry; a column with no entry changes nothing; the mappings
      stay numbered and coherent. */
  lemma RemappedEffect(ms: seq<ColumnMapping>, column: string, fieldName: string)
    requires WellNumbered(ms)
    ensures var r := Remapped(ms, column, fieldName);
      |r| == |ms| && WellNumbered(r) &&
      (forall i :: 0 <= i < |ms| && ms[i].excelColumn != column ==> r[i] == ms[i]) &&
      (forall i :: 0 <= i < |ms| && ms[i].excelColumn == column ==>
         r[i] == (if i == FirstWith(ms, column, 0) then Assigned(ms[i], fieldName) else ms[i])) &&
      ((forall i :: 0 <= i < |ms| ==> ms[i].excelColumn != column) ==> r == ms)
  {
    var k := FirstWith(ms, column, 0);
    var r := Remapped(ms, column, fieldName);
    forall i | 0 <= i < |r|
      ensures r[i].columnIndex == i && Coherent(r[i])
    {
      assert r[i] == if i == k then Assigned(ms[i], fieldName) else ms[i];
    }
  }

  /** getCurrentMapping over the first n entries: each mapped entry in turn
      sets its column's key, so a later entry for the same column wins. */
  function MappingUpTo(ms: seq<ColumnMapping>, n: nat): map<string, string>
    requires n <= |ms|
  {
    if n == 0 then map[]
    else
      var r := MappingUpTo(ms, n - 1);
      if ms[n - 1].isMapped then r[ms[n - 1].excelColumn := ms[n - 1].fieldName] else r
  }

  function CurrentMapping(ms: seq<ColumnMapping>): map<string, string> {
    MappingUpTo(ms, |ms|)
  }

  /** The keys are exactly the columns of the mapped entries. */
  lemma {:induction false} MappingUpToKeys(ms: seq<ColumnMapping>, n: nat, column: string)
    requires n <= |ms|
    ensures column in MappingUpTo(ms, n) <==> exists i :: 0 <= i < n && ms[i].isMapped && ms[i].excelColumn == column
  {
    if n > 0 {
      MappingUpToKeys(ms, n - 1, column);
      if ms[n - 1].isMapped && ms[n - 1].excelColumn == column {
        assert column in MappingUpTo(ms, n);
      }
    }
  }

  /** A column's value is the field of its last mapped entry. */
  lemma {:induction false} MappingUpToValue(ms: seq<ColumnMapping>, n: nat, i: nat)
    requires i < n <= |ms| && ms[i].isMapped
    requires forall j :: i < j < n ==> !(ms[j].isMapped && ms[j].excelColumn == ms[i].excelColumn)
    ensures ms[i].excelColumn in MappingUpTo(ms, n)
    ensures MappingUpTo(ms, n)[ms[i].excelColumn] == ms[i].fieldName
  {
    if i < n - 1 {
      MappingUpToValue(ms, n - 1, i);
    }
  }

  /** getCurrentMapping contains exactly the mapped columns, each with the
      field of its last mapped entry. */
  lemma CurrentMappingSpec(ms: seq<ColumnMapping>, column: string)
    ensures column in CurrentMapping(ms) <==>
      exists i :: 0 <= i < |ms| && ms[i].isMapped && ms[i].excelColumn == column
    ensures forall i :: (0 <= i < |ms| && ms[i].isMapped && ms[i].excelColumn == column &&
      (forall j :: i < j < |ms| ==> !(ms[j].isMapped && ms[j].excelColumn == column))) ==>
      CurrentMapping(ms)[column] == ms[i].fieldName
  {
    MappingUpToKeys(ms, |ms|, column);
    forall i | 0 <= i < |ms| && ms[i].isMapped && ms[i].excelColumn == column &&
      (forall j :: i < j < |ms| ==> !(ms[j].isMapped && ms[j].excelColumn == column))
      ensures CurrentMapping(ms)[column] == ms[i].fieldName
    {
      MappingUpToValue(ms, |ms|, i);
    }
  }

  /** With one entry per column, setting a column's field and then reading
      the current mapping gives that field, or no key when the field was ""
      or "ninguno". */
  lemma RemapThenRead(ms: seq<ColumnMapping>, column: string, fieldName: string, k: nat)
    requires k < |ms| && ms[k].excelColumn == column
    requires forall j :: 0 <= j < |ms| && j != k ==> ms[j].excelColumn != column
    ensures var r := CurrentMapping(Remapped(ms, column, fieldName));
      (column in r <==> fieldName != [] && fieldName != Unmapped) &&
      (column in r ==> r[column] == fieldName)
  {
    var r := Remapped(ms, column, fieldName);
    assert FirstWith(ms, column, 0) == k;
    assert r[k] == Assigned(ms[k], fieldName);
    CurrentMappingSpec(r, column);
    if fieldName != [] && fieldName != Unmapped {
      assert r[k].isMapped && r[k].excelColumn == column;
    }
  }

  /** Some mapped entry names the field. */
  predicate HasField(ms: seq<ColumnMapping>, field: string) {
    exists i :: 0 <= i < |ms| && ms[i].isMapped && ms[i].fieldName == field
  }

  /** A field is mapped exactly when it is among the names the import service
      collects from the mapped entries. */
  lemma {:induction false} HasFieldMappedName(ms: seq<ColumnMapping>, field: string)
    ensures HasField(ms, field) <==> field in EIS.MappedNames(ms)
    decreases |ms|
  {
    if ms != [] {
      HasFieldMappedName(ms[1..], field);
      if HasField(ms[1..], field) {
        var i :| 0 <= i < |ms[1..]| && ms[1..][i].isMapped && ms[1..][i].fieldName == field;
        assert ms[i + 1] == ms[1..][i];
      }
      if HasField(ms, field) {
        var i :| 0 <= i < |ms| && ms[i].isMapped && ms[i].fieldName == field;
        if i > 0 {
          assert ms[1..][i - 1] == ms[i];
        }
      }
    }
  }

  // ---------------------------------------------------------------------------
  // The import's error summary
  // ---------------------------------------------------------------------------

  function ProblemText(p: EIS.RowProblem): string {
    match p
    case NameRequired => "El nombre del producto es obligatorio"
    case NegativeSalePrice => "El precio de venta no puede ser negativo"
    case NotCreated(why) => PS.Message(why)
  }

  /** The text of one import error: the load error, or "Fila N: " and the
      row's problem. */
  function ErrorText(e: EIS.ImportError): string {
    match e
    case LoadFailed => LoadErrorMessage
    case RowError(row, problem) => "Fila " + IntToString(row) + ": " + ProblemText(problem)
  }

  function ErrorTexts(errors: seq<EIS.ImportError>): (texts: seq<string>)
    ensures |texts| == |errors|
  {
    seq(|errors|, i requires 0 <= i < |errors| => ErrorText(errors[i]))
  }

  /** One bullet line per error, for the first n errors. */
  function Bullets(errors: seq<string>, n: nat): string
    requires n <= |errors|
  {
    if n == 0 then [] else Bullets(errors, n - 1) + "\n" + [Bullet] + " " + errors[n - 1]
  }

  /** The message startImport shows when nothing was imported: a header, the
      first five errors as bullets, and how many more there were. */
  function ErrorSummary(errors: seq<string>): string {
    SummaryHeader + Bullets(errors, Min(5, |errors|)) +
    (if |errors| > 5 then "\n... y " + IntToString(|errors| - 5) + " errores más" else [])
  }

  /** How often a character occurs in a string. */
  function Count(s: string, c: char): nat
    decreases |s|
  {
    if s == [] then 0 else Count(s[..|s| - 1], c) + (if s[|s| - 1] == c then 1 else 0)
  }

  lemma {:induction false} CountAppend(a: string, b: string, c: char)
    ensures Count(a + b, c) == Count(a, c) + Count(b, c)
    decreases |b|
  {
    if b == [] {
      assert a + b == a;
    } else {
      assert (a + b)[..|a + b| - 1] == a + b[..|b| - 1];
      assert (a + b)[|a + b| - 1] == b[|b| - 1];
      CountAppend(a, b[..|b| - 1], c);
    }
  }

  lemma {:induction false} CountAbsent(s: string, c: char)
    requires c !in s
    ensures Count(s, c) == 0
    decreases |s|
  {
    if s != [] {
      assert forall x :: x in s[..|s| - 1] ==> x in s;
      CountAbsent(s[..|s| - 1], c);
    }
  }

  /** Each bullet line adds exactly one bullet when the errors carry none. */
  lemma {:induction false} BulletsCount(errors: seq<string>, n: nat)
    requires n <= |errors|
    requires forall i :: 0 <= i < |errors| ==> Bullet !in errors[i]
    ensures Count(Bullets(errors, n), Bullet) == n
  {
    if n > 0 {
      BulletsCount(errors, n - 1);
      var line := "\n" + [Bullet] + " " + errors[n - 1];
      CountAppend(Bullets(errors, n - 1), line, Bullet);
      CountAppend("\n" + [Bullet] + " ", errors[n - 1], Bullet);
      CountAbsent(errors[n - 1], Bullet);
      BulletLineCount();
      assert Bullets(errors, n) == Bullets(errors, n - 1) + line;
    }
  }

  lemma BulletLineCount()
    ensures Count("\n" + [Bullet] + " ", Bullet) == 1
  {
    var line := "\n" + [Bullet] + " ";
    assert line[..2][..1][..0] == [];
    assert Count(line[..2][..1], Bullet) == 0;
    assert Count(line[..2], Bullet) == 1;
  }

  /** The summary's fixed texts carry no bullet. */
  lemma FixedTextsHaveNoBullet()
    ensures Count(SummaryHeader, Bullet) == 0
    ensures Count("\n... y ", Bullet) == 0 && Count(" errores más", Bullet) == 0
  {
    assert Bullet !in SummaryHeader;
    CountAbsent(SummaryHeader, Bullet);
    CountAbsent("\n... y ", Bullet);
    CountAbsent(" errores más", Bullet);
  }

  /** The summary lists at most five errors: it holds one bullet per error up
      to five, whatever the number of errors. */
  lemma SummaryListsAtMostFive(errors: seq<string>)
    requires forall i :: 0 <= i < |errors| ==> Bullet !in errors[i]
    ensures Count(ErrorSummary(errors), Bullet) == Min(5, |errors|)
  {
    var more := if |errors| > 5 then "\n... y " + IntToString(|errors| - 5) + " errores más" else [];
    BulletsCount(errors, Min(5, |errors|));
    CountAppend(SummaryHeader, Bullets(errors, Min(5, |errors|)), Bullet);
    CountAppend(SummaryHeader + Bullets(errors, Min(5, |errors|)), more, Bullet);
    FixedTextsHaveNoBullet();
    if |errors| > 5 {
      var n := IntToString(|errors| - 5);
      assert Bullet !in n by {
        if |errors| - 5 >= 0 {
          assert n == NatToString(|errors| - 5);
        }
      }
      CountAppend("\n... y ", n, Bullet);
      CountAppend("\n... y " + n, " errores más", Bullet);
      CountAbsent(n, Bullet);
    } else {
      CountAbsent(more, Bullet);
    }
  }

  /** Summaries agree whenever the first five errors and the number of errors
      do: the errors past the fifth are only counted. */
  lemma SummaryDependsOnFirstFive(a: seq<string>, b: seq<string>)
    requires |a| == |b| && a[..Min(5, |a|)] == b[..Min(5, |b|)]
    ensures ErrorSummary(a) == ErrorSummary(b)
  {
    var n := Min(5, |a|);
    forall i | 0 <= i < n ensures a[i] == b[i] {
      assert a[..n][i] == a[i] && b[..n][i] == b[i];
    }
    BulletsAgree(a, b, n);
  }

  lemma {:induction false} BulletsAgree(a: seq<string>, b: seq<string>, n: nat)
    requires n <= |a| && n <= |b| && forall i :: 0 <= i < n ==> a[i] == b[i]
    ensures Bullets(a, n) == Bullets(b, n)
  {
    if n > 0 {
      BulletsAgree(a, b, n - 1);
    }
  }

  /** The summary as startImport builds it, one bullet at a time. */
  method Summarize(errors: seq<string>) returns (message: string)
    ensures message == ErrorSummary(errors)
  {
    message := SummaryHeader;
    var maxErrors := Min(5, |errors|);
    var i := 0;
    while i < maxErrors
      invariant 0 <= i <= maxErrors
      invariant message == SummaryHeader + Bullets(errors, i)
    {
      message := message + "\n" + [Bullet] + " " + errors[i];
      i := i + 1;
    }
    if |errors| > 5 {
      message := message + "\n... y " + IntToString(|errors| - 5) + " errores más";
    }
  }

  // ---------------------------------------------------------------------------
  // Paths
  // ---------------------------------------------------------------------------

  /** loadFile turns a file:/// URL into a local path by dropping its first
      eight characters. */
  function LocalPath(filePath: string): string {
    if StartsWith(filePath, FilePrefix) then filePath[8..] else filePath
  }

  /** Putting the prefix back gives the URL; a path without it is kept. */
  lemma LocalPathRestores(filePath: string)
    ensures StartsWith(filePath, FilePrefix) ==> FilePrefix + LocalPath(filePath) == filePath
    ensures !StartsWith(filePath, FilePrefix) ==> LocalPath(filePath) == filePath
  {
    if StartsWith(filePath, FilePrefix) {
      assert filePath == filePath[..8] + filePath[8..];
    }
  }

  /** The headers loadExcelFile reads from a workbook, none when it does not
      load. */
  function ColumnsOf(book: Option<EIS.Sheet>): seq<string> {
    if book.None? then [] else EIS.Headers(book.value, 1)
  }

  /** The last percentage announced, the screen's progress once the import
      is over; with none announced it stays at the 0 set before. */
  function LastProgress(progress: seq<int>): int {
    if progress == [] then 0 else progress[|progress| - 1]
  }

  // ---------------------------------------------------------------------------
  // The view model
  // ---------------------------------------------------------------------------

  class ImportScreen {
    const files: map<string, EIS.Sheet>
    var excelColumns: seq<string>
    var columnMappings: seq<ColumnMapping>
    var currentFilePath: string
    var totalRows: int
    var previewRows: seq<EIS.Row>
    var isLoading: bool
    var errorMessage: string
    var importProgress: int

    /** Between calls nothing is loading and the mappings are numbered by
        position and coherent. */
    ghost predicate Valid()
      reads this
    {
      !isLoading && WellNumbered(columnMappings)
    }

    /** The workbook at a path, if one loads from it. */
    function Book(path: string): Option<EIS.Sheet>
      reads this
    {
      if path in files then Some(files[path]) else None
    }

    predicate HasFile()
      reads this
    {
      currentFilePath != []
    }

    constructor (workbooks: map<string, EIS.Sheet>)
      ensures Valid() && files == workbooks
      ensures excelColumns == [] && columnMappings == [] && currentFilePath == [] && previewRows == []
      ensures totalRows == 0 && importProgress == 0 && errorMessage == []
    {
      files := workbooks;
      excelColumns := [];
      columnMappings := [];
      currentFilePath := [];
      totalRows := 0;
      previewRows := [];
      isLoading := false;
      errorMessage := [];
      importProgress := 0;
    }

    /** loadFile: the path is kept even when no column is read, which leaves
        the previous mappings in place; otherwise each column gets its
        auto-mapped entry. */
    method LoadFile(filePath: string) returns (loaded: bool)
      requires Valid()
      modifies this
      ensures Valid()
      ensures currentFilePath == LocalPath(filePath)
      ensures excelColumns == ColumnsOf(Book(LocalPath(filePath)))
      ensures loaded <==> excelColumns != []
      ensures loaded ==> columnMappings == InitialMappings(excelColumns) && errorMessage == []
      ensures !loaded ==> columnMappings == old(columnMappings) && errorMessage == NoColumnsMessage
      ensures totalRows == old(totalRows) && previewRows == old(previewRows)
      ensures importProgress == old(importProgress)
    {
      isLoading := true;
      errorMessage := [];
      var localPath := filePath;
      if StartsWith(localPath, FilePrefix) {
        assert |FilePrefix| == 8;
        localPath := localPath[8..];
      }
      currentFilePath := localPath;
      var columns := EIS.LoadExcelFile(Book(localPath));
      excelColumns := columns;
      if columns == [] {
        errorMessage := NoColumnsMessage;
        isLoading := false;
        return false;
      }
      columnMappings := AutoMapped(columns);
      InitialWellNumbered(columns);
      isLoading := false;
      return true;
    }

    /** setColumnMapping. */
    method SetColumnMapping(excelColumnName: string, fieldName: string)
      requires Valid()
      modifies this
      ensures Valid()
      ensures columnMappings == Remapped(old(columnMappings), excelColumnName, fieldName)
      ensures excelColumns == old(excelColumns) && currentFilePath == old(currentFilePath)
      ensures errorMessage == old(errorMessage) && previewRows == old(previewRows)
      ensures totalRows == old(totalRows) && importProgress == old(importProgress)
    {
      RemappedEffect(columnMappings, excelColumnName, fieldName);
      var i := 0;
      while i < |columnMappings|
        invariant 0 <= i <= |columnMappings| && columnMappings == old(columnMappings)
        invariant FirstWith(columnMappings, excelColumnName, i) == FirstWith(columnMappings, excelColumnName, 0)
      {
        if columnMappings[i].excelColumn == excelColumnName {
          columnMappings := columnMappings[i := Assigned(columnMappings[i], fieldName)];
          break;
        }
        i := i + 1;
      }
    }

    /** getCurrentMapping. */
    method GetCurrentMapping() returns (mapping: map<string, string>)
      ensures mapping == CurrentMapping(columnMappings)
    {
      mapping := map[];
      var i := 0;
      while i < |columnMappings|
        invariant 0 <= i <= |columnMappings| && mapping == MappingUpTo(columnMappings, i)
      {
        var m := columnMappings[i];
        if m.isMapped {
          mapping := mapping[m.excelColumn := m.fieldName];
        }
        i := i + 1;
      }
    }

    /** loadPreview: the previous preview is dropped first; without a file the
        error says so, a workbook that does not load reports the service's
        error, and otherwise the rows and the count below the header are
        taken from the service. */
    method LoadPreview(maxRows: int)
      requires Valid()
      modifies this
      ensures Valid()
      ensures old(currentFilePath) == [] ==>
        errorMessage == NoFileMessage && previewRows == [] && totalRows == old(totalRows)
      ensures old(currentFilePath) != [] && Book(currentFilePath).None? ==>
        errorMessage == LoadErrorMessage && previewRows == [] && totalRows == old(totalRows)
      ensures old(currentFilePath) != [] && Book(currentFilePath).Some? ==>
        var sheet := Book(currentFilePath).value;
        errorMessage == [] && totalRows == sheet.lastRow - 1 &&
        |previewRows| == Max(0, Min(maxRows, sheet.lastRow - 1)) &&
        forall i :: 0 <= i < |previewRows| ==> previewRows[i] == EIS.RowRead(sheet, i + 2, columnMappings)
      ensures excelColumns == old(excelColumns) && columnMappings == old(columnMappings)
      ensures currentFilePath == old(currentFilePath) && importProgress == old(importProgress)
    {
      previewRows := [];
      if currentFilePath == [] {
        errorMessage := NoFileMessage;
        return;
      }
      isLoading := true;
      errorMessage := [];
      var preview := EIS.GetPreview(Book(currentFilePath), columnMappings, maxRows);
      if preview.hasErrors {
        errorMessage := LoadErrorMessage;
        isLoading := false;
        return;
      }
      totalRows := preview.totalRows;
      previewRows := preview.rows;
      isLoading := false;
    }

    /** The two required fields, looked for among the mapped entries. */
    method RequiredFields() returns (hasName: bool, hasSku: bool)
      ensures hasName == HasField(columnMappings, "name") && hasSku == HasField(columnMappings, "sku")
    {
      hasName, hasSku := false, false;
      var i := 0;
      while i < |columnMappings|
        invariant 0 <= i <= |columnMappings|
        invariant hasName <==> exists j :: 0 <= j < i && columnMappings[j].isMapped && columnMappings[j].fieldName == "name"
        invariant hasSku <==> exists j :: 0 <= j < i && columnMappings[j].isMapped && columnMappings[j].fieldName == "sku"
      {
        var m := columnMappings[i];
        if m.isMapped {
          if m.fieldName == "name" {
            hasName := true;
          }
          if m.fieldName == "sku" {
            hasSku := true;
          }
        }
        i := i + 1;
      }
    }

    /** startImport: without a file, or without both a name and a sku column
        mapped, only the error message changes. Otherwise the import runs
        with the header row skipped and the mappings handed over as they are,
        under the screen's camel-case names (so an amount column is dropped,
        see AutoMappedAmountIgnored); every percentage it announces overwrites
        the screen's progress, and when nothing was imported the message
        summarises the errors. */
    method StartImport(db: Connection)
      requires Valid() && db.Valid()
      modifies this, db
      ensures Valid() && db.Valid()
      ensures excelColumns == old(excelColumns) && columnMappings == old(columnMappings)
      ensures currentFilePath == old(currentFilePath) && previewRows == old(previewRows)
      ensures totalRows == old(totalRows)
      ensures currentFilePath == [] ==>
        errorMessage == NoFileMessage && db.tables == old(db.tables) && importProgress == old(importProgress)
      ensures currentFilePath != [] && !(HasField(columnMappings, "name") && HasField(columnMappings, "sku")) ==>
        errorMessage == MissingFieldsMessage && db.tables == old(db.tables) && importProgress == old(importProgress)
      ensures currentFilePath != [] && HasField(columnMappings, "name") && HasField(columnMappings, "sku") ==>
        var r := EIS.Imported(old(db.tables), db.failing, Book(currentFilePath), columnMappings, true);
        db.tables == r.2 && importProgress == LastProgress(r.1) &&
        errorMessage == (if !r.0.success && r.0.importedRows == 0 then ErrorSummary(ErrorTexts(r.0.errors))
                         else old(errorMessage))
    {
      if currentFilePath == [] {
        errorMessage := NoFileMessage;
      } else {
        var hasName, hasSku := RequiredFields();
        if !hasName || !hasSku {
          errorMessage := MissingFieldsMessage;
        } else {
          RunImport(db);
        }
      }
    }

    /** The import itself, once a file is loaded and its name and sku columns
        are mapped. */
    method RunImport(db: Connection)
      requires Valid() && db.Valid()
      modifies this, db
      ensures Valid() && db.Valid()
      ensures excelColumns == old(excelColumns) && columnMappings == old(columnMappings)
      ensures currentFilePath == old(currentFilePath) && previewRows == old(previewRows)
      ensures totalRows == old(totalRows)
      ensures var r := EIS.Imported(old(db.tables), db.failing, Book(currentFilePath), columnMappings, true);
        db.tables == r.2 && importProgress == LastProgress(r.1) &&
        errorMessage == (if !r.0.success && r.0.importedRows == 0 then ErrorSummary(ErrorTexts(r.0.errors))
                         else old(errorMessage))
    {
      isLoading := true;
      importProgress := 0;
      var result, progress := EIS.ImportProducts(db, Book(currentFilePath), columnMappings, true);
      importProgress := LastProgress(progress);
      if !result.success && result.importedRows == 0 {
        errorMessage := Summarize(ErrorTexts(result.errors));
      }
      isLoading := false;
    }

    /** clear: the file, columns, mappings and counters are dropped; the
        preview rows are kept. */
    method Clear()
      modifies this
      ensures currentFilePath == [] && excelColumns == [] && columnMappings == []
      ensures totalRows == 0 && importProgress == 0 && errorMessage == []
      ensures previewRows == old(previewRows) && isLoading == old(isLoading)
    {
      currentFilePath := [];
      excelColumns := [];
      columnMappings := [];
      totalRows := 0;
      importProgress := 0;
      errorMessage := [];
    }

    /** resetImport: as clear, and the preview rows go too. */
    method ResetImport()
      modifies this
      ensures currentFilePath == [] && excelColumns == [] && columnMappings == [] && previewRows == []
      ensures totalRows == 0 && importProgress == 0 && errorMessage == []
      ensures isLoading == old(isLoading)
    {
      currentFilePath := [];
      excelColumns := [];
      columnMappings := [];
      previewRows := [];
      totalRows := 0;
      importProgress := 0;
      errorMessage := [];
    }

    /** onImportProgress: the percentage announced becomes the screen's. */
    method OnImportProgress(progress: int)
      modifies this
      ensures importProgress == progress
      ensures excelColumns == old(excelColumns) && columnMappings == old(columnMappings)
      ensures currentFilePath == old(currentFilePath) && previewRows == old(previewRows)
      ensures totalRows == old(totalRows) && errorMessage == old(errorMessage) && isLoading == old(isLoading)
    {
      importProgress := progress;
    }
  }

  /** A loaded workbook whose name and sku columns are mapped ends the import
      with the screen's progress at 100. */
  lemma ImportEndsAtHundred(t: Tables, failing: set<Statement>, sheet: EIS.Sheet, mappings: seq<ColumnMapping>)
    ensures LastProgress(EIS.Imported(t, failing, Some(sheet), mappings, true).1) == 100
  {
    EIS.ImportProgress(t, failing, Some(sheet), mappings, true);
  }
}
