/**
 * The Motos y Equipos adapter: turns one row of the supplier's CSV export into a
 * staged item (code, name, brand, warehouse, integer stock, price in pesos and the
 * raw reception date), or skips the row when it has neither code nor name.
 */
module MotosYEquiposAdapter {
  import opened Wrappers
  import opened JsText
  import opened JsNumber
  import opened StagedItems
  import opened ImportUtils
  import opened Validators
  import opened RawRows

  /** The headers each field is read from, in the order they are tried. */
  const SkuAliases: seq<string> := ["cod. com", "cod com", "codigo", "codigo com"]
  const NameAliases: seq<string> := ["descrip.", "descrip", "descripcion", "descripci\U{F3}n"]
  const BrandAliases: seq<string> := ["marca"]
  const WarehouseAliases: seq<string> := ["almacen", "almac\U{E9}n"]
  const StockAliases: seq<string> := ["disp.", "disp", "disponible", "disponibilidad"]
  const PriceAliases: seq<string> := ["precio.", "precio", "precio "]
  const ReceivedAtAliases: seq<string> := ["fec. rec.", "fec rec", "fecha rec", "fecha recepcion"]

  /** A character the stock cleaner keeps: a digit or `-` (the complement of `[^\d-]`). */
  predicate IsStockChar(c: char)
  {
    IsDigit(c) || c == '-'
  }

  /** `replace(/[^\d-]/g, '')`: keeps the digits and minus signs, in order. */
  function KeepStockChars(s: string): (r: string)
    ensures |r| <= |s|
    ensures forall i :: 0 <= i < |r| ==> IsStockChar(r[i])
  {
    if s == [] then []
    else if IsStockChar(s[0]) then [s[0]] + KeepStockChars(s[1..])
    else KeepStockChars(s[1..])
  }

  /**
   * The stock of a row: `null` when the column is empty or its cleaned text does
   * not start with a number, else `parseInt` of the cleaned text.
   */
  function ParseStock(stockStr: string): (r: Field<Number>)
    ensures r.Null? || (r.Value? && r.value.IsInteger())
  {
    if stockStr == "" then Null
    else
      var stockNum := ParseInt(KeepStockChars(stockStr));
      if stockNum.NaN? then Null else Value(stockNum)
  }

  /** What `parseRow` makes of a normalized record. */
  function Parse(m: Record, rowIndex: nat): (r: Option<StagedItem>)
    ensures r.None? <==> Lookup(m, SkuAliases) == "" && Lookup(m, NameAliases) == ""
    ensures r.Some? ==> r.value.providerCode == MotosYEquipos && r.value.providerSku != [] && r.value.name != []
    ensures r.Some? && Lookup(m, SkuAliases) != "" ==> r.value.providerSku == Lookup(m, SkuAliases)
    ensures r.Some? && Lookup(m, NameAliases) != "" ==> r.value.name == Lookup(m, NameAliases)
  {
    var providerSku := Lookup(m, SkuAliases);
    var name := Lookup(m, NameAliases);
    var brand := Lookup(m, BrandAliases);
    var warehouse := Lookup(m, WarehouseAliases);
    var stockStr := Lookup(m, StockAliases);
    var priceStr := Lookup(m, PriceAliases);
    var receivedAtRaw := Lookup(m, ReceivedAtAliases);
    if providerSku == "" && name == "" then None
    else
      Some(StagedItem(
        providerCode := MotosYEquipos,
        providerSku := if providerSku == "" then UnknownSku(rowIndex) else providerSku,
        name := if name == "" then NoName else name,
        description := None,
        brand := OrUndefined(brand),
        model := None,
        category := None,
        unit := None,
        warehouse := OrUndefined(warehouse),
        stock := ParseStock(stockStr),
        price := if priceStr == "" then None else SanitizePrice(priceStr),
        priceDiscounted := Undefined,
        msrp := Undefined,
        currency := Mxn,
        extra := if receivedAtRaw == "" then None else Some(map["receivedAtRaw" := receivedAtRaw]),
        imageHints := None))
  }

  /** `parseRow`: normalizes the row, resolves each field through its aliases and builds the item. */
  method ParseRow(row: RawRow, rowIndex: nat) returns (staged: Option<StagedItem>)
    ensures staged == Parse(Normalized(row), rowIndex)
  {
    var normalizedRow := NormalizeRow(row);
    var providerSku := Lookup(normalizedRow, SkuAliases);
    var name := Lookup(normalizedRow, NameAliases);
    var brand := Lookup(normalizedRow, BrandAliases);
    var warehouse := Lookup(normalizedRow, WarehouseAliases);
    var stockStr := Lookup(normalizedRow, StockAliases);
    var priceStr := Lookup(normalizedRow, PriceAliases);
    var receivedAtRaw := Lookup(normalizedRow, ReceivedAtAliases);
    if providerSku == "" && name == "" {
      return None;
    }
    var stock: Field<Number> := Null;
    if stockStr != "" {
      var stockNum := ParseInt(KeepStockChars(stockStr));
      if !stockNum.NaN? {
        stock := Value(stockNum);
      }
    }
    var price := if priceStr != "" then SanitizePrice(priceStr) else None;
    staged := Some(StagedItem(
      providerCode := MotosYEquipos,
      providerSku := if providerSku != "" then providerSku else UnknownSku(rowIndex),
      name := if name != "" then name else NoName,
      description := None,
      brand := OrUndefined(brand),
      model := None,
      category := None,
      unit := None,
      warehouse := OrUndefined(warehouse),
      stock := stock,
      price := price,
      priceDiscounted := Undefined,
      msrp := Undefined,
      currency := Mxn,
      extra := if receivedAtRaw != "" then Some(map["receivedAtRaw" := receivedAtRaw]) else None,
      imageHints := None));
  }

  /** `validateRow`: the shared validator. */
  method ValidateRow(staged: StagedItem) returns (valid: bool, errors: seq<string>)
    ensures errors == Errors(staged)
    ensures valid <==> errors == []
  {
    valid, errors := ValidateStagedItem(staged);
  }

  // ------------------------------------------------------------ properties

  /** A row is skipped exactly when none of the code headers and none of the name headers has a value. */
  lemma SkippedIff(m: Record, rowIndex: nat)
    ensures Parse(m, rowIndex).None? <==>
      (forall i :: 0 <= i < |SkuAliases| ==> !Hit(m, SkuAliases[i])) &&
      (forall i :: 0 <= i < |NameAliases| ==> !Hit(m, NameAliases[i]))
  {
  }

  /** A row whose cells are all missing or blank (the empty object included) is skipped. */
  lemma BlankRowSkipped(row: RawRow, rowIndex: nat)
    requires forall j :: 0 <= j < |row| ==> NormalizeValue(row[j].1) == ""
    ensures Parse(Normalized(row), rowIndex) == None
  {
    BlankRowLooksUpNothing(row, SkuAliases);
    BlankRowLooksUpNothing(row, NameAliases);
  }

  /**
   * Every item the adapter builds is a Motos y Equipos item in pesos with a non-blank
   * code and name, a stock that is `null` or an integer, a price that is `null` or a
   * number, and no discounted price or suggested price.
   */
  lemma ParsedShape(row: RawRow, rowIndex: nat, item: StagedItem)
    requires Parse(Normalized(row), rowIndex) == Some(item)
    ensures item.providerCode == MotosYEquipos && item.currency == Mxn
    ensures !IsBlank(item.providerSku) && !IsBlank(item.name)
    ensures item.stock.Null? || (item.stock.Value? && item.stock.value.IsInteger())
    ensures item.price.None? || !item.price.value.NaN?
    ensures item.priceDiscounted == Undefined && item.msrp == Undefined
    ensures item.extra.Some? <==> Lookup(Normalized(row), ReceivedAtAliases) != ""
    ensures item.extra.Some? ==> item.extra.value == map["receivedAtRaw" := Lookup(Normalized(row), ReceivedAtAliases)]
  {
    var m := Normalized(row);
    LookupTrimmed(m, SkuAliases);
    LookupTrimmed(m, NameAliases);
    assert !IsWhitespace(item.providerSku[0]);
    assert !IsWhitespace(item.name[0]);
  }

  /**
   * The only rule a Motos y Equipos item can break is the non-negative stock rule:
   * its errors are that message when the stock is negative, and none otherwise.
   */
  lemma ParsedErrors(row: RawRow, rowIndex: nat, item: StagedItem)
    requires Parse(Normalized(row), rowIndex) == Some(item)
    ensures Errors(item) == if item.stock.Value? && item.stock.value.IsNegative() then [Message(StockNonNegative)] else []
  {
    ParsedShape(row, rowIndex, item);
    OnlyStockSignCanFail(item);
  }

  /**
   * The alias `'precio '` can never hit: normalized headers are trimmed, so the
   * price is read from `'precio.'` and `'precio'` alone.
   */
  lemma TrailingSpaceAliasIsDead(row: RawRow)
    ensures Lookup(Normalized(row), PriceAliases) == Lookup(Normalized(row), ["precio.", "precio"])
  {
    UntrimmedAliasNeverHits(row, "precio ");
    LookupSkips(Normalized(row), ["precio.", "precio"], "precio ", []);
    assert PriceAliases == ["precio.", "precio"] + ["precio "] + [];
    assert ["precio.", "precio"] + [] == ["precio.", "precio"];
  }

  lemma {:induction false} KeepStockCharsOfClean(s: string)
    requires forall i :: 0 <= i < |s| ==> IsStockChar(s[i])
    ensures KeepStockChars(s) == s
  {
    if s != [] {
      KeepStockCharsOfClean(s[1..]);
    }
  }

  /** A stock column holding a run of digits is that number. */
  lemma StockOfDigits(s: string)
    requires s != [] && AllDigits(s)
    ensures ParseStock(s) == Value(Finite(DigitsValue(s) as real))
  {
    KeepStockCharsOfClean(s);
    DigitsParseInt(s);
  }

  /** The cleaner works character by character, so it distributes over concatenation. */
  lemma {:induction false} KeepStockCharsAppend(a: string, b: string)
    ensures KeepStockChars(a + b) == KeepStockChars(a) + KeepStockChars(b)
  {
    if a != [] {
      assert (a + b)[1..] == a[1..] + b;
      KeepStockCharsAppend(a[1..], b);
    } else {
      assert a + b == b;
    }
  }

  /** Cleaning `whole.frac` removes just the decimal point. */
  lemma CleanedDecimal(whole: string, frac: string)
    requires AllDigits(whole) && AllDigits(frac)
    ensures KeepStockChars(whole + "." + frac) == whole + frac
  {
    KeepStockCharsOfClean(whole);
    KeepStockCharsOfClean(frac);
    assert KeepStockChars(".") == [];
    KeepStockCharsAppend(whole, ".");
    assert KeepStockChars(whole + ".") == whole;
    KeepStockCharsAppend(whole + ".", frac);
  }

  /** Two non-empty stock columns that clean to the same text give the same stock. */
  lemma SameCleanedSameStock(s: string, t: string)
    requires s != "" && t != "" && KeepStockChars(s) == KeepStockChars(t)
    ensures ParseStock(s) == ParseStock(t)
  {
  }

  /**
   * The cleaner deletes a decimal point along with everything else that is not a
   * digit or a minus sign, so `"1.5"` is read as fifteen units: a stock written
   * `whole.frac` is the number the digits `whole` and `frac` spell together.
   */
  lemma StockDropsDecimalPoint(whole: string, frac: string)
    requires whole + frac != [] && AllDigits(whole) && AllDigits(frac)
    ensures ParseStock(whole + "." + frac) == Value(Finite(DigitsValue(whole + frac) as real))
  {
    CleanedDecimal(whole, frac);
    KeepStockCharsOfClean(whole + frac);
    SameCleanedSameStock(whole + "." + frac, whole + frac);
    StockOfDigits(whole + frac);
  }

  // ------------------------------------------- which column fills which field

  /**
   * With at most one code column `c` and at most one name column `n`, a row is
   * skipped exactly when both are blank; otherwise the code is the text of `c`, or
   * `UNKNOWN-<rowIndex>` when it is blank, and the name the text of `n`, or
   * `Sin nombre`.
   */
  lemma CodeAndNameColumns(row: RawRow, rowIndex: nat, c: int, n: int)
    requires SoleColumn(row, SkuAliases, c) && SoleColumn(row, NameAliases, n)
    ensures Parse(Normalized(row), rowIndex).None? <==>
      ColumnText(row, SkuAliases, c) == "" && ColumnText(row, NameAliases, n) == ""
    ensures Parse(Normalized(row), rowIndex).Some? ==>
      var code := ColumnText(row, SkuAliases, c);
      var name := ColumnText(row, NameAliases, n);
      Parse(Normalized(row), rowIndex).value.providerSku == (if code == "" then UnknownSku(rowIndex) else code) &&
      Parse(Normalized(row), rowIndex).value.name == (if name == "" then NoName else name)
  {
    SoleColumnLookup(row, SkuAliases, c);
    SoleColumnLookup(row, NameAliases, n);
  }

  /** The brand and the warehouse are the text of their one column, or absent when it is blank or missing. */
  lemma BrandAndWarehouseColumns(row: RawRow, rowIndex: nat, item: StagedItem, b: int, w: int)
    requires Parse(Normalized(row), rowIndex) == Some(item)
    requires SoleColumn(row, BrandAliases, b) && SoleColumn(row, WarehouseAliases, w)
    ensures item.brand == OrUndefined(ColumnText(row, BrandAliases, b))
    ensures item.warehouse == OrUndefined(ColumnText(row, WarehouseAliases, w))
  {
    SoleColumnLookup(row, BrandAliases, b);
    SoleColumnLookup(row, WarehouseAliases, w);
  }

  /** The stock is read from its one column through the stock cleaner and `parseInt`. */
  lemma StockColumn(row: RawRow, rowIndex: nat, item: StagedItem, k: int)
    requires Parse(Normalized(row), rowIndex) == Some(item)
    requires SoleColumn(row, StockAliases, k)
    ensures item.stock == ParseStock(ColumnText(row, StockAliases, k))
  {
    SoleColumnLookup(row, StockAliases, k);
  }

  /** The price is `sanitizePrice` of its one column, and `null` when that column is blank or missing. */
  lemma PriceColumn(row: RawRow, rowIndex: nat, item: StagedItem, p: int)
    requires Parse(Normalized(row), rowIndex) == Some(item)
    requires SoleColumn(row, PriceAliases, p)
    ensures item.price == SanitizePrice(ColumnText(row, PriceAliases, p))
  {
    SoleColumnLookup(row, PriceAliases, p);
  }

  /** `extra` holds the raw reception date exactly when its column has one. */
  lemma ReceivedAtColumn(row: RawRow, rowIndex: nat, item: StagedItem, d: int)
    requires Parse(Normalized(row), rowIndex) == Some(item)
    requires SoleColumn(row, ReceivedAtAliases, d)
    ensures item.extra ==
      if ColumnText(row, ReceivedAtAliases, d) == "" then None
      else Some(map["receivedAtRaw" := ColumnText(row, ReceivedAtAliases, d)])
  {
    SoleColumnLookup(row, ReceivedAtAliases, d);
  }

  // ------------------------------------------------------------ sample rows

  /** A complete export row, with the export's own header spellings. */
  const FullRow: RawRow := [
    ("Cod. com", Text("SKU123")), ("Descrip.", Text("Test Product")), ("Marca", Text("Test Brand")),
    ("Almacen", Text("Warehouse A")), ("Disp.", Text("10")), ("Precio.", Text("$1,234.56")),
    ("Fec. Rec.", Text("2025-01-01"))]

  /** `row` has the complete row's headers, in its order. */
  predicate FullRowHeaders(row: RawRow)
  {
    |row| == 7 && row[0].0 == "Cod. com" && row[1].0 == "Descrip." && row[2].0 == "Marca" && row[3].0 == "Almacen" &&
    row[4].0 == "Disp." && row[5].0 == "Precio." && row[6].0 == "Fec. Rec."
  }

  /** The complete row's headers, normalized. */
  const FullRowKeys: seq<string> := ["cod. com", "descrip.", "marca", "almacen", "disp.", "precio.", "fec. rec."]

  /** The complete row is kept. */
  lemma FullRowKept(row: RawRow)
    requires row == FullRow
    ensures Parse(Normalized(row), 0).Some?
  {
    FullRowColumns(row);
    CodeAndNameColumns(row, 0, 0, 1);
  }

  /** The complete row becomes a peso item of this provider, under code SKU123 and its own name. */
  lemma FullRowCodeAndName(row: RawRow, item: StagedItem)
    requires row == FullRow && Parse(Normalized(row), 0) == Some(item)
    ensures item.providerCode == MotosYEquipos && item.currency == Mxn
    ensures item.providerSku == "SKU123" && item.name == "Test Product"
  {
    FullRowColumns(row);
    CodeAndNameColumns(row, 0, 0, 1);
    ParsedShape(row, 0, item);
  }

  /** The complete row's brand and warehouse are its own. */
  lemma FullRowBrandAndWarehouse(row: RawRow, item: StagedItem)
    requires row == FullRow && Parse(Normalized(row), 0) == Some(item)
    ensures item.brand == Some("Test Brand") && item.warehouse == Some("Warehouse A")
  {
    FullRowColumns(row);
    BrandAndWarehouseColumns(row, 0, item, 2, 3);
  }

  /** The complete row has 10 in stock. */
  lemma FullRowStock(row: RawRow, item: StagedItem)
    requires row == FullRow && Parse(Normalized(row), 0) == Some(item)
    ensures item.stock == Value(Finite(10.0))
  {
    FullRowColumns(row);
    StockColumn(row, 0, item, 4);
    StockSample(ColumnText(row, StockAliases, 4));
  }

  /** The complete row's price, written `$1,234.56`, is 1234.56 pesos. */
  lemma FullRowPrice(row: RawRow, item: StagedItem)
    requires row == FullRow && Parse(Normalized(row), 0) == Some(item)
    ensures item.price == Some(Finite(1234.56))
  {
    FullRowColumns(row);
    PriceColumn(row, 0, item, 5);
    GroupedPriceSample(ColumnText(row, PriceAliases, 5));
  }

  /** A stock of `10` is the number 10. */
  lemma StockSample(s: string)
    requires s == "10"
    ensures ParseStock(s) == Value(Finite(10.0))
  {
    TenDigits(s);
    StockOfDigits(s);
  }

  lemma TenDigits(s: string)
    requires s == "10"
    ensures s != [] && AllDigits(s) && DigitsValue(s) == 10
  {
    assert s[..|s| - 1] == "1";
    assert DigitsValue("1") == 1;
  }

  /** Each field of the complete row has its own column, holding the row's text. */
  lemma FullRowColumns(row: RawRow)
    requires row == FullRow
    ensures SoleColumn(row, SkuAliases, 0) && ColumnText(row, SkuAliases, 0) == "SKU123"
    ensures SoleColumn(row, NameAliases, 1) && ColumnText(row, NameAliases, 1) == "Test Product"
    ensures SoleColumn(row, BrandAliases, 2) && ColumnText(row, BrandAliases, 2) == "Test Brand"
    ensures SoleColumn(row, WarehouseAliases, 3) && ColumnText(row, WarehouseAliases, 3) == "Warehouse A"
    ensures SoleColumn(row, StockAliases, 4) && ColumnText(row, StockAliases, 4) == "10"
    ensures SoleColumn(row, PriceAliases, 5) && ColumnText(row, PriceAliases, 5) == "$1,234.56"
  {
    FullRowTexts(row);
    FullRowHeaderKeys(row);
    FullRowSoleColumns(row);
  }

  lemma FullRowSoleColumns(row: RawRow)
    requires |FullRowKeys| == |row| && forall j :: 0 <= j < |row| ==> NormalizeKey(row[j].0) == FullRowKeys[j]
    ensures SoleColumn(row, SkuAliases, 0) && SoleColumn(row, NameAliases, 1)
    ensures SoleColumn(row, BrandAliases, 2) && SoleColumn(row, WarehouseAliases, 3)
    ensures SoleColumn(row, StockAliases, 4) && SoleColumn(row, PriceAliases, 5)
  {
    FullRowAliasesApart(FullRowKeys);
    SoleColumnOfKeys(row, NormalizeKey, FullRowKeys, SkuAliases, 0);
    SoleColumnOfKeys(row, NormalizeKey, FullRowKeys, NameAliases, 1);
    SoleColumnOfKeys(row, NormalizeKey, FullRowKeys, BrandAliases, 2);
    SoleColumnOfKeys(row, NormalizeKey, FullRowKeys, WarehouseAliases, 3);
    SoleColumnOfKeys(row, NormalizeKey, FullRowKeys, StockAliases, 4);
    SoleColumnOfKeys(row, NormalizeKey, FullRowKeys, PriceAliases, 5);
  }

  lemma FullRowTexts(row: RawRow)
    requires |row| > 5 && row[0] == ("Cod. com", Text("SKU123")) && row[1] == ("Descrip.", Text("Test Product"))
    requires row[2] == ("Marca", Text("Test Brand")) && row[3] == ("Almacen", Text("Warehouse A"))
    requires row[4] == ("Disp.", Text("10")) && row[5] == ("Precio.", Text("$1,234.56"))
    ensures ColumnText(row, SkuAliases, 0) == "SKU123"
    ensures ColumnText(row, NameAliases, 1) == "Test Product"
    ensures ColumnText(row, BrandAliases, 2) == "Test Brand"
    ensures ColumnText(row, WarehouseAliases, 3) == "Warehouse A"
    ensures ColumnText(row, StockAliases, 4) == "10"
    ensures ColumnText(row, PriceAliases, 5) == "$1,234.56"
  {
    FullRowText0(row);
    FullRowText1(row);
    FullRowText2(row);
    FullRowText3(row);
    FullRowText4(row);
    FullRowText5(row);
  }

  lemma FullRowText0(row: RawRow)
    requires |row| > 0 && row[0] == ("Cod. com", Text("SKU123"))
    ensures ColumnText(row, SkuAliases, 0) == "SKU123"
  {
    FullRowHeaderCode(row);
    ColumnTextOf(row, SkuAliases, 0, row[0].0, "cod. com", "SKU123");
  }

  lemma FullRowText1(row: RawRow)
    requires |row| > 1 && row[1] == ("Descrip.", Text("Test Product"))
    ensures ColumnText(row, NameAliases, 1) == "Test Product"
  {
    FullRowHeaderName(row);
    ColumnTextOf(row, NameAliases, 1, row[1].0, "descrip.", "Test Product");
  }

  lemma FullRowText2(row: RawRow)
    requires |row| > 2 && row[2] == ("Marca", Text("Test Brand"))
    ensures ColumnText(row, BrandAliases, 2) == "Test Brand"
  {
    FullRowHeaderBrand(row);
    ColumnTextOf(row, BrandAliases, 2, row[2].0, "marca", "Test Brand");
  }

  lemma FullRowText3(row: RawRow)
    requires |row| > 3 && row[3] == ("Almacen", Text("Warehouse A"))
    ensures ColumnText(row, WarehouseAliases, 3) == "Warehouse A"
  {
    FullRowHeaderWarehouse(row);
    ColumnTextOf(row, WarehouseAliases, 3, row[3].0, "almacen", "Warehouse A");
  }

  lemma FullRowText4(row: RawRow)
    requires |row| > 4 && row[4] == ("Disp.", Text("10"))
    ensures ColumnText(row, StockAliases, 4) == "10"
  {
    FullRowHeaderStock(row);
    ColumnTextOf(row, StockAliases, 4, row[4].0, "disp.", "10");
  }

  lemma FullRowText5(row: RawRow)
    requires |row| > 5 && row[5] == ("Precio.", Text("$1,234.56"))
    ensures ColumnText(row, PriceAliases, 5) == "$1,234.56"
  {
    FullRowHeaderPrice(row);
    ColumnTextOf(row, PriceAliases, 5, row[5].0, "precio.", "$1,234.56");
  }

  /** The complete row's headers normalize to `FullRowKeys`. */
  lemma FullRowHeaderKeys(row: RawRow)
    requires FullRowHeaders(row)
    ensures |FullRowKeys| == |row| && forall j :: 0 <= j < |row| ==> NormalizeKey(row[j].0) == FullRowKeys[j]
  {
    FullRowHeaderCode(row);
    FullRowHeaderName(row);
    FullRowHeaderBrand(row);
    FullRowHeaderWarehouse(row);
    FullRowHeaderStock(row);
    FullRowHeaderPrice(row);
    FullRowHeaderReceivedAt(row);
    FullRowKeysBy(row, NormalizeKey);
  }

  lemma FullRowHeaderCode(row: RawRow)
    requires |row| > 0 && row[0].0 == "Cod. com"
    ensures NormalizeKey(row[0].0) == "cod. com"
  {
    CodComHeader(row[0].0);
  }

  lemma FullRowHeaderName(row: RawRow)
    requires |row| > 1 && row[1].0 == "Descrip."
    ensures NormalizeKey(row[1].0) == "descrip."
  {
    DescripHeader(row[1].0);
  }

  lemma FullRowHeaderBrand(row: RawRow)
    requires |row| > 2 && row[2].0 == "Marca"
    ensures NormalizeKey(row[2].0) == "marca"
  {
    MarcaHeader(row[2].0);
  }

  lemma FullRowHeaderWarehouse(row: RawRow)
    requires |row| > 3 && row[3].0 == "Almacen"
    ensures NormalizeKey(row[3].0) == "almacen"
  {
    AlmacenHeader(row[3].0);
  }

  lemma FullRowHeaderStock(row: RawRow)
    requires |row| > 4 && row[4].0 == "Disp."
    ensures NormalizeKey(row[4].0) == "disp."
  {
    DispHeader(row[4].0);
  }

  lemma FullRowHeaderPrice(row: RawRow)
    requires |row| > 5 && row[5].0 == "Precio."
    ensures NormalizeKey(row[5].0) == "precio."
  {
    PrecioHeader(row[5].0);
  }

  lemma FullRowHeaderReceivedAt(row: RawRow)
    requires |row| > 6 && row[6].0 == "Fec. Rec."
    ensures NormalizeKey(row[6].0) == "fec. rec."
  {
    FecRecHeader(row[6].0);
  }

  /** Read through `key`, the complete row's headers are `FullRowKeys`. */
  lemma FullRowKeysBy(row: RawRow, key: string -> string)
    requires |row| == 7
    requires key(row[0].0) == "cod. com" && key(row[1].0) == "descrip." && key(row[2].0) == "marca"
    requires key(row[3].0) == "almacen" && key(row[4].0) == "disp." && key(row[5].0) == "precio."
    requires key(row[6].0) == "fec. rec."
    ensures |FullRowKeys| == |row| && forall j :: 0 <= j < |row| ==> key(row[j].0) == FullRowKeys[j]
  {
  }

  /** Each field's aliases name one header of the complete row and no other. */
  lemma FullRowAliasesApart(keys: seq<string>)
    requires keys == FullRowKeys
    ensures forall j :: 0 <= j < |keys| && j != 0 ==> keys[j] !in SkuAliases
    ensures forall j :: 0 <= j < |keys| && j != 1 ==> keys[j] !in NameAliases
    ensures forall j :: 0 <= j < |keys| && j != 2 ==> keys[j] !in BrandAliases
    ensures forall j :: 0 <= j < |keys| && j != 3 ==> keys[j] !in WarehouseAliases
    ensures forall j :: 0 <= j < |keys| && j != 4 ==> keys[j] !in StockAliases
    ensures forall j :: 0 <= j < |keys| && j != 5 ==> keys[j] !in PriceAliases
  {
  }

  /** A row with only a code, a name and a price. */
  const SparseRow: RawRow := [("Cod. com", Text("SKU456")), ("Descrip.", Text("Product Name")), ("Precio.", Text("500"))]

  /** The sparse row's headers, normalized. */
  const SparseRowKeys: seq<string> := ["cod. com", "descrip.", "precio."]

  /** A row without brand, warehouse or stock columns is kept, with those fields absent and the stock `null`. */
  lemma SparseRowMissingFields(row: RawRow, item: StagedItem)
    requires row == SparseRow && Parse(Normalized(row), 0) == Some(item)
    ensures item.brand.None? && item.warehouse.None? && item.stock.Null?
  {
    SparseRowSoleColumns(row);
    BrandAndWarehouseColumns(row, 0, item, -1, -1);
    StockColumn(row, 0, item, -1);
  }

  /** The sparse row is kept, under code SKU456. */
  lemma SparseRowKept(row: RawRow)
    requires row == SparseRow
    ensures Parse(Normalized(row), 0).Some?
    ensures Parse(Normalized(row), 0).value.providerSku == "SKU456"
  {
    SparseRowSoleColumns(row);
    SparseRowCode(row);
    CodeAndNameColumns(row, 0, 0, 1);
  }

  lemma SparseRowCode(row: RawRow)
    requires |row| > 0 && row[0] == ("Cod. com", Text("SKU456"))
    ensures ColumnText(row, SkuAliases, 0) == "SKU456"
  {
    FullRowHeaderCode(row);
    ColumnTextOf(row, SkuAliases, 0, row[0].0, "cod. com", "SKU456");
  }

  /** The sparse row's code and name have their own columns, and its other fields have none. */
  lemma SparseRowSoleColumns(row: RawRow)
    requires row == SparseRow
    ensures SoleColumn(row, SkuAliases, 0) && SoleColumn(row, NameAliases, 1)
    ensures SoleColumn(row, BrandAliases, -1) && SoleColumn(row, WarehouseAliases, -1)
    ensures SoleColumn(row, StockAliases, -1)
  {
    SparseRowHeaderKeys(row);
    SparseRowAliasesApart(SparseRowKeys);
    SoleColumnOfKeys(row, NormalizeKey, SparseRowKeys, SkuAliases, 0);
    SoleColumnOfKeys(row, NormalizeKey, SparseRowKeys, NameAliases, 1);
    SoleColumnOfKeys(row, NormalizeKey, SparseRowKeys, BrandAliases, -1);
    SoleColumnOfKeys(row, NormalizeKey, SparseRowKeys, WarehouseAliases, -1);
    SoleColumnOfKeys(row, NormalizeKey, SparseRowKeys, StockAliases, -1);
  }

  /** The sparse row's headers normalize to `SparseRowKeys`. */
  lemma SparseRowHeaderKeys(row: RawRow)
    requires row == SparseRow
    ensures |SparseRowKeys| == |row| && forall j :: 0 <= j < |row| ==> NormalizeKey(row[j].0) == SparseRowKeys[j]
  {
    FullRowHeaderCode(row);
    FullRowHeaderName(row);
    SparseRowHeaderPrice(row);
    SparseRowKeysBy(row, NormalizeKey);
  }

  lemma SparseRowKeysBy(row: RawRow, key: string -> string)
    requires row == SparseRow
    requires key(row[0].0) == "cod. com" && key(row[1].0) == "descrip." && key(row[2].0) == "precio."
    ensures |SparseRowKeys| == |row| && forall j :: 0 <= j < |row| ==> key(row[j].0) == SparseRowKeys[j]
  {
  }

  lemma SparseRowAliasesApart(keys: seq<string>)
    requires keys == SparseRowKeys
    ensures forall j :: 0 <= j < |keys| && j != 0 ==> keys[j] !in SkuAliases
    ensures forall j :: 0 <= j < |keys| && j != 1 ==> keys[j] !in NameAliases
    ensures forall j :: 0 <= j < |keys| ==> keys[j] !in BrandAliases
    ensures forall j :: 0 <= j < |keys| ==> keys[j] !in WarehouseAliases
    ensures forall j :: 0 <= j < |keys| ==> keys[j] !in StockAliases
  {
  }

  lemma SparseRowHeaderPrice(row: RawRow)
    requires |row| > 2 && row[2].0 == "Precio."
    ensures NormalizeKey(row[2].0) == "precio."
  {
    PrecioHeader(row[2].0);
  }

  // The export's header spellings and the keys they normalize to, one at a time.
  lemma CodComHeader(h: string)
    requires h == "Cod. com"
    ensures NormalizeKey(h) == "cod. com"
  {
    KeyOfLowered("Cod. com", "cod. com");
  }
  lemma DescripHeader(h: string)
    requires h == "Descrip."
    ensures NormalizeKey(h) == "descrip."
  {
    KeyOfLowered("Descrip.", "descrip.");
  }
  lemma MarcaHeader(h: string)
    requires h == "Marca"
    ensures NormalizeKey(h) == "marca"
  {
    KeyOfLowered("Marca", "marca");
  }
  lemma AlmacenHeader(h: string)
    requires h == "Almacen"
    ensures NormalizeKey(h) == "almacen"
  {
    KeyOfLowered("Almacen", "almacen");
  }
  lemma DispHeader(h: string)
    requires h == "Disp."
    ensures NormalizeKey(h) == "disp."
  {
    KeyOfLowered("Disp.", "disp.");
  }
  lemma PrecioHeader(h: string)
    requires h == "Precio."
    ensures NormalizeKey(h) == "precio."
  {
    KeyOfLowered("Precio.", "precio.");
  }
  lemma FecRecHeader(h: string)
    requires h == "Fec. Rec."
    ensures NormalizeKey(h) == "fec. rec."
  {
    KeyOfLowered("Fec. Rec.", "fec. rec.");
  }

}
