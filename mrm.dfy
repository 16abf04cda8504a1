/**
 * The MRM adapter: turns one row of the supplier's price-list spreadsheet into a
 * staged item (code, name, brand, model, unit, product line, list, discounted and
 * suggested prices, and the former code), or skips the row when it has neither
 * code nor name. MRM lists carry no stock and no warehouse.
 */
module MrmAdapter {
  import opened Wrappers
  import opened JsText
  import opened JsNumber
  import opened StagedItems
  import opened ImportUtils
  import opened Validators
  import opened RawRows

  /** The headers each field is read from, in the order they are tried. */
  const SkuAliases: seq<string> := ["c\U{F3}digo", "codigo", "code"]
  const NameAliases: seq<string> := ["descripci\U{F3}n", "descripcion", "descrip", "description"]
  const BrandAliases: seq<string> := ["moto", "marca", "brand"]
  const ModelAliases: seq<string> := ["modelo", "model"]
  const UnitAliases: seq<string> := ["unidad", "unit"]
  const CategoryAliases: seq<string> := ["l\U{ED}nea", "linea", "line", "categoria", "categor\U{ED}a"]
  const PriceAliases: seq<string> := ["precio", "price"]
  const DiscountAliases: seq<string> := ["prec. desc.", "prec desc", "precio desc", "precio descuento", "price discounted"]
  const MsrpAliases: seq<string> := ["precio sugerido", "precio_sugerido", "msrp", "precio sugerido"]
  const OldCodeAliases: seq<string> := ["c\U{F3}digo anterior", "codigo anterior", "old code", "codigo_anterior"]

  /**
   * `text ? sanitizePrice(text) : undefined`: an empty column leaves the price out,
   * text that is not a price gives `null`, and a price is never NaN.
   */
  function OptionalPrice(text: string): (r: Field<Number>)
    ensures r.Undefined? <==> text == ""
    ensures r.Value? ==> !r.value.NaN?
  {
    if text == "" then Undefined
    else match SanitizePrice(text)
      case None => Null
      case Some(n) => Value(n)
  }

  /** What `parseRow` makes of a normalized record. */
  function Parse(m: Record, rowIndex: nat): (r: Option<StagedItem>)
    ensures r.None? <==> Lookup(m, SkuAliases) == "" && Lookup(m, NameAliases) == ""
    ensures r.Some? ==> r.value.providerCode == Mrm && r.value.providerSku != [] && r.value.name != []
    ensures r.Some? && Lookup(m, SkuAliases) != "" ==> r.value.providerSku == Lookup(m, SkuAliases)
    ensures r.Some? && Lookup(m, NameAliases) != "" ==> r.value.name == Lookup(m, NameAliases)
  {
    var providerSku := Lookup(m, SkuAliases);
    var name := Lookup(m, NameAliases);
    var priceStr := Lookup(m, PriceAliases);
    var oldCode := Lookup(m, OldCodeAliases);
    if providerSku == "" && name == "" then None
    else
      Some(StagedItem(
        providerCode := Mrm,
        providerSku := if providerSku == "" then UnknownSku(rowIndex) else providerSku,
        name := if name == "" then NoName else name,
        description := None,
        brand := OrUndefined(Lookup(m, BrandAliases)),
        model := OrUndefined(Lookup(m, ModelAliases)),
        category := OrUndefined(Lookup(m, CategoryAliases)),
        unit := OrUndefined(Lookup(m, UnitAliases)),
        warehouse := None,
        stock := Undefined,
        price := if priceStr == "" then None else SanitizePrice(priceStr),
        priceDiscounted := OptionalPrice(Lookup(m, DiscountAliases)),
        msrp := OptionalPrice(Lookup(m, MsrpAliases)),
        currency := Mxn,
        extra := if oldCode == "" then None else Some(map["oldCode" := oldCode]),
        imageHints := None))
  }

  /**
   * `parseRow`: normalizes the row, resolves each field through its aliases, parses
   * the three prices, fills `extra` only with a former code, and builds the item.
   */
  method ParseRow(row: RawRow, rowIndex: nat) returns (staged: Option<StagedItem>)
    ensures staged == Parse(Normalized(row), rowIndex)
  {
    var normalizedRow := NormalizeRow(row);
    var providerSku := Lookup(normalizedRow, SkuAliases);
    var name := Lookup(normalizedRow, NameAliases);
    var brand := Lookup(normalizedRow, BrandAliases);
    var model := Lookup(normalizedRow, ModelAliases);
    var unit := Lookup(normalizedRow, UnitAliases);
    var category := Lookup(normalizedRow, CategoryAliases);
    var priceStr := Lookup(normalizedRow, PriceAliases);
    var priceDiscountedStr := Lookup(normalizedRow, DiscountAliases);
    var msrpStr := Lookup(normalizedRow, MsrpAliases);
    var oldCode := Lookup(normalizedRow, OldCodeAliases);
    if providerSku == "" && name == "" {
      return None;
    }
    var price := if priceStr != "" then SanitizePrice(priceStr) else None;
    var priceDiscounted := OptionalPrice(priceDiscountedStr);
    var msrp := OptionalPrice(msrpStr);
    var extra: map<string, string> := map[];
    if oldCode != "" {
      extra := extra["oldCode" := oldCode];
      assert "oldCode" in extra;
    }
    assert |extra| > 0 <==> oldCode != "";
    staged := Some(StagedItem(
      providerCode := Mrm,
      providerSku := if providerSku != "" then providerSku else UnknownSku(rowIndex),
      name := if name != "" then name else NoName,
      description := None,
      brand := OrUndefined(brand),
      model := OrUndefined(model),
      category := OrUndefined(category),
      unit := OrUndefined(unit),
      warehouse := None,
      stock := Undefined,
      price := price,
      priceDiscounted := priceDiscounted,
      msrp := msrp,
      currency := Mxn,
      extra := if |extra| > 0 then Some(extra) else None,
      imageHints := None));
  }

  /** `validateRow`: the shared validator. */
  method ValidateRow(staged: StagedItem) returns (valid: bool, errors: seq<string>)
    ensures errors == Errors(staged)
    ensures valid <==> errors == []
  {
    valid, errors := ValidateStagedItem(staged);
  }

  // ------------------------------------------------------------ properties

  /** A row is skipped exactly when none of the code headers and none of the name headers has a value. */
  lemma SkippedIff(m: Record, rowIndex: nat)
    ensures Parse(m, rowIndex).None? <==>
      (forall i :: 0 <= i < |SkuAliases| ==> !Hit(m, SkuAliases[i])) &&
      (forall i :: 0 <= i < |NameAliases| ==> !Hit(m, NameAliases[i]))
  {
  }

  /** A row whose cells are all missing or blank (the empty object included) is skipped. */
  lemma BlankRowSkipped(row: RawRow, rowIndex: nat)
    requires forall j :: 0 <= j < |row| ==> NormalizeValue(row[j].1) == ""
    ensures Parse(Normalized(row), rowIndex) == None
  {
    BlankRowLooksUpNothing(row, SkuAliases);
    BlankRowLooksUpNothing(row, NameAliases);
  }

  /**
   * Every item the adapter builds is an MRM item in pesos with a non-blank code and
   * name, no stock, and prices that are never NaN.
   */
  lemma ParsedShape(row: RawRow, rowIndex: nat, item: StagedItem)
    requires Parse(Normalized(row), rowIndex) == Some(item)
    ensures item.providerCode == Mrm && item.currency == Mxn
    ensures !IsBlank(item.providerSku) && !IsBlank(item.name)
    ensures item.stock == Undefined && item.warehouse == None
    ensures item.price.None? || !item.price.value.NaN?
    ensures !IsNaNField(item.priceDiscounted) && !IsNaNField(item.msrp)
    ensures item.extra.Some? <==> Lookup(Normalized(row), OldCodeAliases) != ""
    ensures item.extra.Some? ==> item.extra.value == map["oldCode" := Lookup(Normalized(row), OldCodeAliases)]
  {
    var m := Normalized(row);
    LookupTrimmed(m, SkuAliases);
    LookupTrimmed(m, NameAliases);
    assert !IsWhitespace(item.providerSku[0]);
    assert !IsWhitespace(item.name[0]);
  }

  /** Every item the MRM adapter builds passes validation. */
  lemma ParsedIsValid(row: RawRow, rowIndex: nat, item: StagedItem)
    requires Parse(Normalized(row), rowIndex) == Some(item)
    ensures Errors(item) == []
  {
    ParsedShape(row, rowIndex, item);
    OnlyStockSignCanFail(item);
  }

  /** The suggested-price header `'precio sugerido'` is listed twice; the second listing never matters. */
  lemma RepeatedMsrpAliasIsRedundant(m: Record)
    ensures Lookup(m, MsrpAliases) == Lookup(m, ["precio sugerido", "precio_sugerido", "msrp"])
  {
    var pre := ["precio sugerido", "precio_sugerido", "msrp"];
    LookupSkips(m, pre, "precio sugerido", []);
    assert MsrpAliases == pre + ["precio sugerido"] + [];
    assert pre + [] == pre;
  }

  // ------------------------------------------------------------ columns

  /**
   * Read through the row's columns: when the code aliases name column `c` only and
   * the name aliases column `n` only, the row is skipped exactly when both columns
   * are blank or missing, the code is the text of `c` or `UNKNOWN-<rowIndex>`, and
   * the name the text of `n` or `Sin nombre`.
   */
  lemma CodeAndNameColumns(row: RawRow, rowIndex: nat, c: int, n: int)
    requires SoleColumn(row, SkuAliases, c) && SoleColumn(row, NameAliases, n)
    ensures Parse(Normalized(row), rowIndex).None? <==>
      ColumnText(row, SkuAliases, c) == "" && ColumnText(row, NameAliases, n) == ""
    ensures Parse(Normalized(row), rowIndex).Some? ==>
      var code := ColumnText(row, SkuAliases, c);
      var name := ColumnText(row, NameAliases, n);
      Parse(Normalized(row), rowIndex).value.providerSku == (if code == "" then UnknownSku(rowIndex) else code) &&
      Parse(Normalized(row), rowIndex).value.name == (if name == "" then NoName else name)
  {
    SoleColumnLookup(row, SkuAliases, c);
    SoleColumnLookup(row, NameAliases, n);
  }

  /** Brand, model, unit and product line are the text of their one column, or absent when it is blank or missing. */
  lemma DescriptiveColumns(row: RawRow, rowIndex: nat, item: StagedItem, b: int, mo: int, u: int, l: int)
    requires Parse(Normalized(row), rowIndex) == Some(item)
    requires SoleColumn(row, BrandAliases, b) && SoleColumn(row, ModelAliases, mo)
    requires SoleColumn(row, UnitAliases, u) && SoleColumn(row, CategoryAliases, l)
    ensures item.brand == OrUndefined(ColumnText(row, BrandAliases, b))
    ensures item.model == OrUndefined(ColumnText(row, ModelAliases, mo))
    ensures item.unit == OrUndefined(ColumnText(row, UnitAliases, u))
    ensures item.category == OrUndefined(ColumnText(row, CategoryAliases, l))
  {
    SoleColumnLookup(row, BrandAliases, b);
    SoleColumnLookup(row, ModelAliases, mo);
    SoleColumnLookup(row, UnitAliases, u);
    SoleColumnLookup(row, CategoryAliases, l);
  }

  /**
   * The list price is `sanitizePrice` of its one column and absent when that column is
   * blank or missing; the discounted and suggested prices are left out when blank,
   * `null` when not a price, and the price otherwise.
   */
  lemma PriceColumns(row: RawRow, rowIndex: nat, item: StagedItem, p: int, d: int, r: int)
    requires Parse(Normalized(row), rowIndex) == Some(item)
    requires SoleColumn(row, PriceAliases, p) && SoleColumn(row, DiscountAliases, d) && SoleColumn(row, MsrpAliases, r)
    ensures item.price == SanitizePrice(ColumnText(row, PriceAliases, p))
    ensures item.priceDiscounted == OptionalPrice(ColumnText(row, DiscountAliases, d))
    ensures item.msrp == OptionalPrice(ColumnText(row, MsrpAliases, r))
  {
    SoleColumnLookup(row, PriceAliases, p);
    SoleColumnLookup(row, DiscountAliases, d);
    SoleColumnLookup(row, MsrpAliases, r);
  }

  /** `extra` holds the former code exactly when its column has one. */
  lemma OldCodeColumn(row: RawRow, rowIndex: nat, item: StagedItem, o: int)
    requires Parse(Normalized(row), rowIndex) == Some(item)
    requires SoleColumn(row, OldCodeAliases, o)
    ensures item.extra ==
      if ColumnText(row, OldCodeAliases, o) == "" then None
      else Some(map["oldCode" := ColumnText(row, OldCodeAliases, o)])
  {
    SoleColumnLookup(row, OldCodeAliases, o);
  }

  // ------------------------------------------------------------ sample rows

  /** `row` is a complete price-list row, with the list's own header spellings. */
  predicate FullRowCells(row: RawRow)
  {
    |row| == 10 &&
    row[0] == ("C\U{D3}DIGO", Text("MRM001")) &&
    row[1] == ("DESCRIPCI\U{D3}N", Text("Test Product")) &&
    row[2] == ("MOTO", Text("Honda")) &&
    row[3] == ("MODELO", Text("CBR600")) &&
    row[4] == ("UNIDAD", Text("PZA")) &&
    row[5] == ("L\U{CD}NEA", Text("Repuestos")) &&
    row[6] == ("PRECIO", Text("1500.00")) &&
    row[7] == ("PREC. DESC.", Text("1200.00")) &&
    row[8] == ("PRECIO SUGERIDO", Text("1600.00")) &&
    row[9] == ("C\U{D3}DIGO ANTERIOR", Text("OLD001"))
  }

  /** `row` has the complete row's headers, in its order. */
  predicate FullRowHeaders(row: RawRow)
  {
    |row| == 10 && row[0].0 == "C\U{D3}DIGO" && row[1].0 == "DESCRIPCI\U{D3}N" && row[2].0 == "MOTO" && row[3].0 == "MODELO" &&
    row[4].0 == "UNIDAD" && row[5].0 == "L\U{CD}NEA" && row[6].0 == "PRECIO" && row[7].0 == "PREC. DESC." &&
    row[8].0 == "PRECIO SUGERIDO" && row[9].0 == "C\U{D3}DIGO ANTERIOR"
  }

  /** The complete row's headers, normalized. */
  const FullRowKeys: seq<string> := [
    "c\U{F3}digo", "descripci\U{F3}n", "moto", "modelo", "unidad",
    "l\U{ED}nea", "precio", "prec. desc.", "precio sugerido", "c\U{F3}digo anterior"]

  /** The complete row is kept. */
  lemma FullRowKept(row: RawRow)
    requires FullRowCells(row)
    ensures Parse(Normalized(row), 0).Some?
  {
    FullRowTextCode(row);
    FullRowHeaderKeys(row);
    FullRowSoleColumns(row);
    CodeAndNameColumns(row, 0, 0, 1);
  }

  /** The complete row becomes a peso item of MRM, under code MRM001 and its own name. */
  lemma FullRowCodeAndName(row: RawRow, item: StagedItem)
    requires FullRowCells(row) && Parse(Normalized(row), 0) == Some(item)
    ensures item.providerCode == Mrm && item.currency == Mxn
    ensures item.providerSku == "MRM001" && item.name == "Test Product"
  {
    FullRowTextCode(row);
    FullRowTextName(row);
    FullRowHeaderKeys(row);
    FullRowSoleColumns(row);
    CodeAndNameColumns(row, 0, 0, 1);
    ParsedShape(row, 0, item);
  }

  /** The complete row's brand, model, unit and product line are its own. */
  lemma FullRowDescriptive(row: RawRow, item: StagedItem)
    requires FullRowCells(row) && Parse(Normalized(row), 0) == Some(item)
    ensures item.brand == Some("Honda") && item.model == Some("CBR600")
    ensures item.unit == Some("PZA") && item.category == Some("Repuestos")
  {
    FullRowTextBrand(row);
    FullRowTextModel(row);
    FullRowTextUnit(row);
    FullRowTextCategory(row);
    FullRowHeaderKeys(row);
    FullRowSoleColumns(row);
    DescriptiveColumns(row, 0, item, 2, 3, 4, 5);
  }

  /** The complete row lists at 1500 pesos. */
  lemma FullRowListPrice(row: RawRow, item: StagedItem)
    requires FullRowCells(row) && Parse(Normalized(row), 0) == Some(item)
    ensures item.price == Some(Finite(1500.0))
  {
    FullRowTextPrice(row);
    FullRowHeaderKeys(row);
    FullRowSoleColumns(row);
    PriceColumns(row, 0, item, 6, 7, 8);
    ListPriceSample(ColumnText(row, PriceAliases, 6));
  }

  /** The complete row is discounted to 1200 pesos. */
  lemma FullRowDiscountedPrice(row: RawRow, item: StagedItem)
    requires FullRowCells(row) && Parse(Normalized(row), 0) == Some(item)
    ensures item.priceDiscounted == Value(Finite(1200.0))
  {
    FullRowTextDiscount(row);
    FullRowHeaderKeys(row);
    FullRowSoleColumns(row);
    PriceColumns(row, 0, item, 6, 7, 8);
    DiscountSample(ColumnText(row, DiscountAliases, 7));
  }

  /** The complete row's suggested price is 1600 pesos. */
  lemma FullRowSuggestedPrice(row: RawRow, item: StagedItem)
    requires FullRowCells(row) && Parse(Normalized(row), 0) == Some(item)
    ensures item.msrp == Value(Finite(1600.0))
  {
    FullRowTextMsrp(row);
    FullRowHeaderKeys(row);
    FullRowSoleColumns(row);
    PriceColumns(row, 0, item, 6, 7, 8);
    MsrpSample(ColumnText(row, MsrpAliases, 8));
  }

  /** The complete row keeps its former code OLD001 in `extra`. */
  lemma FullRowOldCode(row: RawRow, item: StagedItem)
    requires FullRowCells(row) && Parse(Normalized(row), 0) == Some(item)
    ensures item.extra == Some(map["oldCode" := "OLD001"])
  {
    FullRowTextOldCode(row);
    FullRowHeaderKeys(row);
    FullRowSoleColumns(row);
    OldCodeColumn(row, 0, item, 9);
  }

  /** The list's three sample amounts. */
  lemma ListPriceSample(s: string)
    requires s == "1500.00"
    ensures SanitizePrice(s) == Some(Finite(1500.0))
  {
    SampleSpelling(s, '1', '5');
    HundredsSample(s, '1', '5');
  }

  lemma DiscountSample(s: string)
    requires s == "1200.00"
    ensures SanitizePrice(s) == Some(Finite(1200.0))
  {
    SampleSpelling(s, '1', '2');
    HundredsSample(s, '1', '2');
  }

  lemma MsrpSample(s: string)
    requires s == "1600.00"
    ensures SanitizePrice(s) == Some(Finite(1600.0))
  {
    SampleSpelling(s, '1', '6');
    HundredsSample(s, '1', '6');
  }

  /** The three sample amounts, character by character. */
  lemma SampleSpelling(s: string, a: char, b: char)
    requires (s == "1500.00" && b == '5') || (s == "1200.00" && b == '2') || (s == "1600.00" && b == '6')
    requires a == '1'
    ensures s == [a, b, '0', '0', '.', '0', '0']
  {
  }

  /** `ab00.00` is the price `ab00`. */
  lemma HundredsSample(s: string, a: char, b: char)
    requires IsDigit(a) && IsDigit(b) && s == [a, b, '0', '0', '.', '0', '0']
    ensures SanitizePrice(s) == Some(Finite((DigitValue(a) * 1000 + DigitValue(b) * 100) as real))
  {
    var w := [a, b, '0', '0'];
    assert s == w + "." + "00";
    HundredsMantissa(w, a, b);
    SanitizePlainDecimal(s, w, "00");
  }

  lemma HundredsMantissa(w: string, a: char, b: char)
    requires IsDigit(a) && IsDigit(b) && w == [a, b, '0', '0']
    ensures w != [] && AllDigits(w) && AllDigits("00")
    ensures Mantissa(w, "00") == (DigitValue(a) * 1000 + DigitValue(b) * 100) as real
  {
    assert w[..3] == [a, b, '0'] && w[..3][..2] == [a, b] && [a, b][..1] == [a] && [a][..0] == [];
    assert "00"[..1] == "0" && "0"[..0] == "";
    assert DigitsValue("00") == 0;
    assert DigitsValue([a]) == DigitValue(a);
    assert DigitsValue([a, b]) == DigitValue(a) * 10 + DigitValue(b);
    assert DigitsValue([a, b, '0']) == DigitValue(a) * 100 + DigitValue(b) * 10;
    assert DigitsValue(w) == DigitValue(a) * 1000 + DigitValue(b) * 100;
    assert Pow10(2) == 100.0;
  }

  /** Each field of the complete row has its own column. */
  lemma FullRowSoleColumns(row: RawRow)
    requires |FullRowKeys| == |row| && forall j :: 0 <= j < |row| ==> NormalizeKey(row[j].0) == FullRowKeys[j]
    ensures SoleColumn(row, SkuAliases, 0)
    ensures SoleColumn(row, NameAliases, 1)
    ensures SoleColumn(row, BrandAliases, 2)
    ensures SoleColumn(row, ModelAliases, 3)
    ensures SoleColumn(row, UnitAliases, 4)
    ensures SoleColumn(row, CategoryAliases, 5)
    ensures SoleColumn(row, PriceAliases, 6)
    ensures SoleColumn(row, DiscountAliases, 7)
    ensures SoleColumn(row, MsrpAliases, 8)
    ensures SoleColumn(row, OldCodeAliases, 9)
  {
    FullRowAliasesApartFront(FullRowKeys);
    FullRowAliasesApartBack(FullRowKeys);
    SoleColumnOfKeys(row, NormalizeKey, FullRowKeys, SkuAliases, 0);
    SoleColumnOfKeys(row, NormalizeKey, FullRowKeys, NameAliases, 1);
    SoleColumnOfKeys(row, NormalizeKey, FullRowKeys, BrandAliases, 2);
    SoleColumnOfKeys(row, NormalizeKey, FullRowKeys, ModelAliases, 3);
    SoleColumnOfKeys(row, NormalizeKey, FullRowKeys, UnitAliases, 4);
    SoleColumnOfKeys(row, NormalizeKey, FullRowKeys, CategoryAliases, 5);
    SoleColumnOfKeys(row, NormalizeKey, FullRowKeys, PriceAliases, 6);
    SoleColumnOfKeys(row, NormalizeKey, FullRowKeys, DiscountAliases, 7);
    SoleColumnOfKeys(row, NormalizeKey, FullRowKeys, MsrpAliases, 8);
    SoleColumnOfKeys(row, NormalizeKey, FullRowKeys, OldCodeAliases, 9);
  }

  lemma FullRowTextCode(row: RawRow)
    requires |row| > 0 && row[0] == ("C\U{D3}DIGO", Text("MRM001"))
    ensures ColumnText(row, SkuAliases, 0) == "MRM001"
  {
    FullRowHeaderCode(row);
    ColumnTextOf(row, SkuAliases, 0, row[0].0, "c\U{F3}digo", "MRM001");
  }

  lemma FullRowTextName(row: RawRow)
    requires |row| > 1 && row[1] == ("DESCRIPCI\U{D3}N", Text("Test Product"))
    ensures ColumnText(row, NameAliases, 1) == "Test Product"
  {
    FullRowHeaderName(row);
    ColumnTextOf(row, NameAliases, 1, row[1].0, "descripci\U{F3}n", "Test Product");
  }

  lemma FullRowTextBrand(row: RawRow)
    requires |row| > 2 && row[2] == ("MOTO", Text("Honda"))
    ensures ColumnText(row, BrandAliases, 2) == "Honda"
  {
    FullRowHeaderBrand(row);
    ColumnTextOf(row, BrandAliases, 2, row[2].0, "moto", "Honda");
  }

  lemma FullRowTextModel(row: RawRow)
    requires |row| > 3 && row[3] == ("MODELO", Text("CBR600"))
    ensures ColumnText(row, ModelAliases, 3) == "CBR600"
  {
    FullRowHeaderModel(row);
    ColumnTextOf(row, ModelAliases, 3, row[3].0, "modelo", "CBR600");
  }

  lemma FullRowTextUnit(row: RawRow)
    requires |row| > 4 && row[4] == ("UNIDAD", Text("PZA"))
    ensures ColumnText(row, UnitAliases, 4) == "PZA"
  {
    FullRowHeaderUnit(row);
    ColumnTextOf(row, UnitAliases, 4, row[4].0, "unidad", "PZA");
  }

  lemma FullRowTextCategory(row: RawRow)
    requires |row| > 5 && row[5] == ("L\U{CD}NEA", Text("Repuestos"))
    ensures ColumnText(row, CategoryAliases, 5) == "Repuestos"
  {
    FullRowHeaderCategory(row);
    ColumnTextOf(row, CategoryAliases, 5, row[5].0, "l\U{ED}nea", "Repuestos");
  }

  lemma FullRowTextPrice(row: RawRow)
    requires |row| > 6 && row[6] == ("PRECIO", Text("1500.00"))
    ensures ColumnText(row, PriceAliases, 6) == "1500.00"
  {
    FullRowHeaderPrice(row);
    ColumnTextOf(row, PriceAliases, 6, row[6].0, "precio", "1500.00");
  }

  lemma FullRowTextDiscount(row: RawRow)
    requires |row| > 7 && row[7] == ("PREC. DESC.", Text("1200.00"))
    ensures ColumnText(row, DiscountAliases, 7) == "1200.00"
  {
    FullRowHeaderDiscount(row);
    ColumnTextOf(row, DiscountAliases, 7, row[7].0, "prec. desc.", "1200.00");
  }

  lemma FullRowTextMsrp(row: RawRow)
    requires |row| > 8 && row[8] == ("PRECIO SUGERIDO", Text("1600.00"))
    ensures ColumnText(row, MsrpAliases, 8) == "1600.00"
  {
    FullRowHeaderMsrp(row);
    ColumnTextOf(row, MsrpAliases, 8, row[8].0, "precio sugerido", "1600.00");
  }

  lemma FullRowTextOldCode(row: RawRow)
    requires |row| > 9 && row[9] == ("C\U{D3}DIGO ANTERIOR", Text("OLD001"))
    ensures ColumnText(row, OldCodeAliases, 9) == "OLD001"
  {
    FullRowHeaderOldCode(row);
    ColumnTextOf(row, OldCodeAliases, 9, row[9].0, "c\U{F3}digo anterior", "OLD001");
  }

  /** The complete row's headers normalize to `FullRowKeys`. */
  lemma FullRowHeaderKeys(row: RawRow)
    requires FullRowHeaders(row)
    ensures |FullRowKeys| == |row| && forall j :: 0 <= j < |row| ==> NormalizeKey(row[j].0) == FullRowKeys[j]
  {
    FullRowHeaderCode(row);
    FullRowHeaderName(row);
    FullRowHeaderBrand(row);
    FullRowHeaderModel(row);
    FullRowHeaderUnit(row);
    FullRowHeaderCategory(row);
    FullRowHeaderPrice(row);
    FullRowHeaderDiscount(row);
    FullRowHeaderMsrp(row);
    FullRowHeaderOldCode(row);
    FullRowKeysBy(row, NormalizeKey);
  }

  /** Read through `key`, the complete row's headers are `FullRowKeys`. */
  lemma FullRowKeysBy(row: RawRow, key: string -> string)
    requires |row| == 10
    requires key(row[0].0) == "c\U{F3}digo"
    requires key(row[1].0) == "descripci\U{F3}n"
    requires key(row[2].0) == "moto"
    requires key(row[3].0) == "modelo"
    requires key(row[4].0) == "unidad"
    requires key(row[5].0) == "l\U{ED}nea"
    requires key(row[6].0) == "precio"
    requires key(row[7].0) == "prec. desc."
    requires key(row[8].0) == "precio sugerido"
    requires key(row[9].0) == "c\U{F3}digo anterior"
    ensures |FullRowKeys| == |row| && forall j :: 0 <= j < |row| ==> key(row[j].0) == FullRowKeys[j]
  {
  }

  /** Each field's aliases name one header of the complete row and no other. */
  lemma FullRowAliasesApartFront(keys: seq<string>)
    requires keys == FullRowKeys
    ensures forall j :: 0 <= j < |keys| && j != 0 ==> keys[j] !in SkuAliases
    ensures forall j :: 0 <= j < |keys| && j != 1 ==> keys[j] !in NameAliases
    ensures forall j :: 0 <= j < |keys| && j != 2 ==> keys[j] !in BrandAliases
    ensures forall j :: 0 <= j < |keys| && j != 3 ==> keys[j] !in ModelAliases
    ensures forall j :: 0 <= j < |keys| && j != 4 ==> keys[j] !in UnitAliases
  {
  }

  lemma FullRowAliasesApartBack(keys: seq<string>)
    requires keys == FullRowKeys
    ensures forall j :: 0 <= j < |keys| && j != 5 ==> keys[j] !in CategoryAliases
    ensures forall j :: 0 <= j < |keys| && j != 6 ==> keys[j] !in PriceAliases
    ensures forall j :: 0 <= j < |keys| && j != 7 ==> keys[j] !in DiscountAliases
    ensures forall j :: 0 <= j < |keys| && j != 8 ==> keys[j] !in MsrpAliases
    ensures forall j :: 0 <= j < |keys| && j != 9 ==> keys[j] !in OldCodeAliases
  {
  }

  lemma FullRowHeaderCode(row: RawRow)
    requires |row| > 0 && row[0].0 == "C\U{D3}DIGO"
    ensures NormalizeKey(row[0].0) == "c\U{F3}digo"
  {
    CodigoHeader(row[0].0);
  }

  lemma FullRowHeaderName(row: RawRow)
    requires |row| > 1 && row[1].0 == "DESCRIPCI\U{D3}N"
    ensures NormalizeKey(row[1].0) == "descripci\U{F3}n"
  {
    DescripcionHeader(row[1].0);
  }

  lemma FullRowHeaderBrand(row: RawRow)
    requires |row| > 2 && row[2].0 == "MOTO"
    ensures NormalizeKey(row[2].0) == "moto"
  {
    MotoHeader(row[2].0);
  }

  lemma FullRowHeaderModel(row: RawRow)
    requires |row| > 3 && row[3].0 == "MODELO"
    ensures NormalizeKey(row[3].0) == "modelo"
  {
    ModeloHeader(row[3].0);
  }

  lemma FullRowHeaderUnit(row: RawRow)
    requires |row| > 4 && row[4].0 == "UNIDAD"
    ensures NormalizeKey(row[4].0) == "unidad"
  {
    UnidadHeader(row[4].0);
  }

  lemma FullRowHeaderCategory(row: RawRow)
    requires |row| > 5 && row[5].0 == "L\U{CD}NEA"
    ensures NormalizeKey(row[5].0) == "l\U{ED}nea"
  {
    LineaHeader(row[5].0);
  }

  lemma FullRowHeaderPrice(row: RawRow)
    requires |row| > 6 && row[6].0 == "PRECIO"
    ensures NormalizeKey(row[6].0) == "precio"
  {
    PrecioHeader(row[6].0);
  }

  lemma FullRowHeaderDiscount(row: RawRow)
    requires |row| > 7 && row[7].0 == "PREC. DESC."
    ensures NormalizeKey(row[7].0) == "prec. desc."
  {
    PrecDescHeader(row[7].0);
  }

  lemma FullRowHeaderMsrp(row: RawRow)
    requires |row| > 8 && row[8].0 == "PRECIO SUGERIDO"
    ensures NormalizeKey(row[8].0) == "precio sugerido"
  {
    PrecioSugeridoHeader(row[8].0);
  }

  lemma FullRowHeaderOldCode(row: RawRow)
    requires |row| > 9 && row[9].0 == "C\U{D3}DIGO ANTERIOR"
    ensures NormalizeKey(row[9].0) == "c\U{F3}digo anterior"
  {
    CodigoAnteriorHeader(row[9].0);
  }

  /** A row with only a code, a name and a price. */
  const SparseRow: RawRow := [("C\U{D3}DIGO", Text("MRM002")), ("DESCRIPCI\U{D3}N", Text("Product Name")), ("PRECIO", Text("500"))]

  /** The sparse row's headers, normalized. */
  const SparseRowKeys: seq<string> := ["c\U{F3}digo", "descripci\U{F3}n", "precio"]

  /** A row without brand, model or discount columns is kept, with those fields left out. */
  lemma SparseRowMissingFields(row: RawRow, item: StagedItem)
    requires row == SparseRow && Parse(Normalized(row), 0) == Some(item)
    ensures item.brand.None? && item.model.None? && item.priceDiscounted.Undefined?
  {
    SparseRowSoleColumns(row);
    DescriptiveColumns(row, 0, item, -1, -1, -1, -1);
    PriceColumns(row, 0, item, 2, -1, -1);
  }

  /** The sparse row is kept, under code MRM002. */
  lemma SparseRowKept(row: RawRow)
    requires row == SparseRow
    ensures Parse(Normalized(row), 0).Some?
    ensures Parse(Normalized(row), 0).value.providerSku == "MRM002"
  {
    SparseRowCode(row);
    SparseRowSoleColumns(row);
    CodeAndNameColumns(row, 0, 0, 1);
  }

  lemma SparseRowCode(row: RawRow)
    requires |row| > 0 && row[0] == ("C\U{D3}DIGO", Text("MRM002"))
    ensures ColumnText(row, SkuAliases, 0) == "MRM002"
  {
    FullRowHeaderCode(row);
    ColumnTextOf(row, SkuAliases, 0, row[0].0, "c\U{F3}digo", "MRM002");
  }

  /** The sparse row's code, name and price have their own columns, and its other fields have none. */
  lemma SparseRowSoleColumns(row: RawRow)
    requires row == SparseRow
    ensures SoleColumn(row, SkuAliases, 0) && SoleColumn(row, NameAliases, 1) && SoleColumn(row, PriceAliases, 2)
    ensures SoleColumn(row, BrandAliases, -1) && SoleColumn(row, ModelAliases, -1)
    ensures SoleColumn(row, UnitAliases, -1) && SoleColumn(row, CategoryAliases, -1)
    ensures SoleColumn(row, DiscountAliases, -1) && SoleColumn(row, MsrpAliases, -1)
  {
    SparseRowHeaderKeys(row);
    SparseRowSole(row);
  }

  lemma SparseRowSole(row: RawRow)
    requires |SparseRowKeys| == |row| && forall j :: 0 <= j < |row| ==> NormalizeKey(row[j].0) == SparseRowKeys[j]
    ensures SoleColumn(row, SkuAliases, 0) && SoleColumn(row, NameAliases, 1) && SoleColumn(row, PriceAliases, 2)
    ensures SoleColumn(row, BrandAliases, -1) && SoleColumn(row, ModelAliases, -1)
    ensures SoleColumn(row, UnitAliases, -1) && SoleColumn(row, CategoryAliases, -1)
    ensures SoleColumn(row, DiscountAliases, -1) && SoleColumn(row, MsrpAliases, -1)
  {
    SparseRowAliasesApart(SparseRowKeys);
    SoleColumnOfKeys(row, NormalizeKey, SparseRowKeys, SkuAliases, 0);
    SoleColumnOfKeys(row, NormalizeKey, SparseRowKeys, NameAliases, 1);
    SoleColumnOfKeys(row, NormalizeKey, SparseRowKeys, PriceAliases, 2);
    SoleColumnOfKeys(row, NormalizeKey, SparseRowKeys, BrandAliases, -1);
    SoleColumnOfKeys(row, NormalizeKey, SparseRowKeys, ModelAliases, -1);
    SoleColumnOfKeys(row, NormalizeKey, SparseRowKeys, UnitAliases, -1);
    SoleColumnOfKeys(row, NormalizeKey, SparseRowKeys, CategoryAliases, -1);
    SoleColumnOfKeys(row, NormalizeKey, SparseRowKeys, DiscountAliases, -1);
    SoleColumnOfKeys(row, NormalizeKey, SparseRowKeys, MsrpAliases, -1);
  }

  /** The sparse row's headers normalize to `SparseRowKeys`. */
  lemma SparseRowHeaderKeys(row: RawRow)
    requires row == SparseRow
    ensures |SparseRowKeys| == |row| && forall j :: 0 <= j < |row| ==> NormalizeKey(row[j].0) == SparseRowKeys[j]
  {
    FullRowHeaderCode(row);
    FullRowHeaderName(row);
    SparseRowHeaderPrice(row);
    SparseRowKeysBy(row, NormalizeKey);
  }

  lemma SparseRowKeysBy(row: RawRow, key: string -> string)
    requires |row| == 3
    requires key(row[0].0) == "c\U{F3}digo" && key(row[1].0) == "descripci\U{F3}n" && key(row[2].0) == "precio"
    ensures |SparseRowKeys| == |row| && forall j :: 0 <= j < |row| ==> key(row[j].0) == SparseRowKeys[j]
  {
  }

  lemma SparseRowAliasesApart(keys: seq<string>)
    requires keys == SparseRowKeys
    ensures forall j :: 0 <= j < |keys| && j != 0 ==> keys[j] !in SkuAliases
    ensures forall j :: 0 <= j < |keys| && j != 1 ==> keys[j] !in NameAliases
    ensures forall j :: 0 <= j < |keys| && j != 2 ==> keys[j] !in PriceAliases
    ensures forall j :: 0 <= j < |keys| ==> keys[j] !in BrandAliases && keys[j] !in ModelAliases
    ensures forall j :: 0 <= j < |keys| ==> keys[j] !in UnitAliases && keys[j] !in CategoryAliases
    ensures forall j :: 0 <= j < |keys| ==> keys[j] !in DiscountAliases && keys[j] !in MsrpAliases
  {
  }

  lemma SparseRowHeaderPrice(row: RawRow)
    requires |row| > 2 && row[2].0 == "PRECIO"
    ensures NormalizeKey(row[2].0) == "precio"
  {
    PrecioHeader(row[2].0);
  }

  // The list's header spellings and the keys they normalize to, one at a time.
  lemma CodigoHeader(h: string)
    requires h == "C\U{D3}DIGO"
    ensures NormalizeKey(h) == "c\U{F3}digo"
  {
    KeyOfLowered("C\U{D3}DIGO", "c\U{F3}digo");
  }

  lemma DescripcionHeader(h: string)
    requires h == "DESCRIPCI\U{D3}N"
    ensures NormalizeKey(h) == "descripci\U{F3}n"
  {
    KeyOfLowered("DESCRIPCI\U{D3}N", "descripci\U{F3}n");
  }

  lemma MotoHeader(h: string)
    requires h == "MOTO"
    ensures NormalizeKey(h) == "moto"
  {
    KeyOfLowered("MOTO", "moto");
  }

  lemma ModeloHeader(h: string)
    requires h == "MODELO"
    ensures NormalizeKey(h) == "modelo"
  {
    KeyOfLowered("MODELO", "modelo");
  }

  lemma UnidadHeader(h: string)
    requires h == "UNIDAD"
    ensures NormalizeKey(h) == "unidad"
  {
    KeyOfLowered("UNIDAD", "unidad");
  }

  lemma LineaHeader(h: string)
    requires h == "L\U{CD}NEA"
    ensures NormalizeKey(h) == "l\U{ED}nea"
  {
    KeyOfLowered("L\U{CD}NEA", "l\U{ED}nea");
  }

  lemma PrecioHeader(h: string)
    requires h == "PRECIO"
    ensures NormalizeKey(h) == "precio"
  {
    KeyOfLowered("PRECIO", "precio");
  }

  lemma PrecDescHeader(h: string)
    requires h == "PREC. DESC."
    ensures NormalizeKey(h) == "prec. desc."
  {
    KeyOfLowered("PREC. DESC.", "prec. desc.");
  }

  lemma PrecioSugeridoHeader(h: string)
    requires h == "PRECIO SUGERIDO"
    ensures NormalizeKey(h) == "precio sugerido"
  {
    KeyOfLowered("PRECIO SUGERIDO", "precio sugerido");
  }

  lemma CodigoAnteriorHeader(h: string)
    requires h == "C\U{D3}DIGO ANTERIOR"
    ensures NormalizeKey(h) == "c\U{F3}digo anterior"
  {
    KeyOfLowered("C\U{D3}DIGO ANTERIOR", "c\U{F3}digo anterior");
  }

}
