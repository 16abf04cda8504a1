# Supplier bulk import: staging, in Dafny

This project models the staging half of the store's supplier bulk import, and the
product list's pagination control. The import reads a supplier price list (a
Motos y Equipos CSV export or an MRM spreadsheet) and runs each data row through
that supplier's adapter. Each adapter turns a row into a *staged item*. The shared
validator checks the item, and a canonical hash is computed for it. The items are
then written in chunks of 400 into the staging table of a new import batch. The
batch ends `staged`, or `failed` when no row survives.

Modules (one file each):

| file | module | models |
|---|---|---|
| `wrappers.dfy` | `Wrappers` | `Option` |
| `js_text.dfy` | `JsText` | the JavaScript string operations the source relies on: `toLowerCase`/`toUpperCase` (ASCII and Latin-1), `trim` with JavaScript's whitespace set, `includes`, `startsWith`/`endsWith`, decimal rendering of an index |
| `js_number.dfy` | `JsNumber` | JavaScript numbers (finite as exact reals, `NaN`, infinities), `parseFloat` and `parseInt(_, 10)` |
| `staged_item.dfy` | `StagedItems` | the staged item record: present / `null` / `undefined` fields, provider codes, currency |
| `import_utils.dfy` | `ImportUtils` | `sanitizePrice`, `computeRowHash` (digest as a parameter), `batchArray`, `slugify`, `generateSku` |
| `validators.dfy` | `Validators` | `validateStagedItem` as a rule table plus the step-by-step method |
| `raw_rows.dfy` | `RawRows` | the header/value normalization loop both adapters share, and the first-alias-that-has-a-value lookup |
| `motos_y_equipos.dfy` | `MotosYEquiposAdapter` | `parseRow` / `validateRow` of the Motos y Equipos adapter |
| `mrm.dfy` | `MrmAdapter` | `parseRow` / `validateRow` of the MRM adapter |
| `detect.dfy` | `ProviderDetection` | `detectProvider`, as written and as evidently intended |
| `imports_route.dfy` | `ImportsRoute` | `POST /api/imports`: request checks, batch record (a class), file type, row staging, item building, chunked inserts, final status and response |
| `pagination.dfy` | `Pagination` | `getPageNumbers`, the item range shown, the `totalPages <= 1` guard and the arrow buttons |

The route handler's outside world is passed in as parameters:
- whether the batch insert succeeds, and the new batch's id;
- the downloaded bytes, or none when the fetch fails;
- the CSV and spreadsheet readers, as functions from bytes to rows (or none when they throw);
- the SHA-256 digest;
- which chunk inserts succeed;
- whether each write of the batch status succeeds: the `failed` status after a failed download, a failed parse, an empty file or a failed item insert, and the final status. A write that fails leaves the status as it was.

The batch row and the rows written for it form an `ImportBatch` object. Its methods
change it the way the source's `update` and `insert` calls change the database.

## Model

| member | source | states |
|---|---|---|
| JsText.LowerChar | src/lib/adapters/motos_y_equipos.ts:25 | a lower-cased character is never an ASCII capital, and it is whitespace exactly when the original was |
| JsText.TrimStart | src/lib/adapters/motos_y_equipos.ts:25 | the result is a suffix that starts with a non-space, and everything dropped is whitespace |
| JsText.TrimEnd | src/lib/adapters/motos_y_equipos.ts:25 | the result is a prefix that ends with a non-space, and everything dropped is whitespace |
| JsText.TrimProperties | src/lib/adapters/motos_y_equipos.ts:25-26 | a trimmed string has no whitespace at either end, and trimming again changes nothing |
| JsText.TrimEmptyIff | src/lib/adapters/validators.ts:16 | `s.trim() === ''` exactly when `s` is all whitespace |
| JsText.TrimLowerCommute | src/lib/utils/import.ts:70-71 | lower-casing and trimming can be done in either order |
| JsText.LowerIdempotent | src/lib/adapters/detect.ts:8 | lower-casing twice is lower-casing once |
| JsText.ContainsOccurs | src/lib/adapters/detect.ts:13 | `includes` is true exactly when the text has a slice equal to the needle |
| JsText.NatToString | src/lib/adapters/motos_y_equipos.ts:93 | a row index renders as non-empty decimal digits with no leading zero |
| JsText.NatToStringInjective | src/lib/adapters/motos_y_equipos.ts:93 | different indices render differently |
| JsNumber.ParseInt | src/lib/adapters/motos_y_equipos.ts:81 | `parseInt` gives `NaN` or an integer |
| JsNumber.DigitsParse | src/lib/utils/import.ts:22 | `parseFloat` and `parseInt` read a run of digits as its decimal value |
| JsNumber.DecimalParse | src/lib/utils/import.ts:22 | `parseFloat` reads `whole.frac` as the exact decimal it writes |
| JsNumber.DigitStart | src/lib/utils/import.ts:22 | text starting with a digit is read as an unsigned decimal, never as `Infinity` |
| ImportUtils.StripPriceNoise | src/lib/utils/import.ts:14-15 | the cleaned text is no longer than the input and holds no `$`, comma or whitespace |
| ImportUtils.SanitizePrice | src/lib/utils/import.ts:8-24 | empty text gives `null`, and a price is never `NaN` |
| ImportUtils.SanitizeNullIff | src/lib/utils/import.ts:13-23 | the result is `null` exactly when nothing is left after deleting `$`, `,` and whitespace or `parseFloat` of the rest is NaN; otherwise it is that number |
| ImportUtils.SanitizeRejectsNonNumeric | src/lib/utils/import.ts:22-23 | a cleaned text starting with a character no number starts with (as in `abc`) gives `null` |
| JsNumber.NoNumericStartIsNaN | src/lib/utils/import.ts:22 | `parseFloat` of text starting with neither whitespace, a sign, a digit, a point nor `I` is NaN |
| JsNumber.ParseFloat | src/lib/utils/import.ts:22 | blank text is `NaN`, and a finite number is read only from text that holds a digit |
| ImportUtils.SanitizeSeesOnlyCleaned | src/lib/utils/import.ts:14-22 | the price depends only on the text with `$`, commas and whitespace removed |
| ImportUtils.SanitizeDecimal | src/lib/utils/import.ts:6-23 | `"$1,234.00"`-style text gives the decimal its digits spell |
| ImportUtils.SanitizePlainDecimal | src/lib/utils/import.ts:8-24 | a plain amount `whole.frac` (as `1234.56` or `1500.00`) is the decimal it spells |
| ImportUtils.SanitizeGroupedDollars | src/lib/utils/import.ts:14-22 | an amount `$a,b.c` is the decimal `ab.c`: the dollar sign and the thousands comma are dropped |
| ImportUtils.GroupedPriceSample | src/lib/utils/__tests__/import.test.ts:7 | `$1,234.56` is 1234.56 |
| ImportUtils.Slugify | src/lib/utils/import.ts:68-75 | the slug holds only lower-case word characters and single hyphens, with none at either end |
| ImportUtils.KeepSlugChars | src/lib/utils/import.ts:72 | deleting `[^\w\s-]` never lengthens the text, leaves only word characters, whitespace and hyphens, and changes nothing when there is nothing to delete |
| ImportUtils.CollapseSeparators | src/lib/utils/import.ts:73 | replacing runs of `[\s_-]` by one hyphen never lengthens the text and empties only empty text; a leading separator becomes a hyphen; every separator left is a hyphen, and no two are adjacent |
| ImportUtils.SlugifyKeepsLettersAndDigits | src/lib/utils/import.ts:68-75 | the letters and digits of the slug, in order, are those of the lower-cased text; the slug is empty exactly when there are none |
| ImportUtils.SlugifySampleName | src/lib/utils/__tests__/import.test.ts:82 | `Test Product Name` gives `test-product-name` |
| ImportUtils.SlugifySamplePunctuation | src/lib/utils/__tests__/import.test.ts:86 | `Test & Product!` gives `test-product` |
| ImportUtils.SlugifySampleSpaces | src/lib/utils/__tests__/import.test.ts:90 | `Test    Product` gives `test-product` |
| ImportUtils.SlugOfCollapsed | src/lib/utils/import.ts:69-74 | the four replace stages, applied in order, produce a slug |
| ImportUtils.SlugStagesFix | src/lib/utils/import.ts:69-74 | every stage leaves an existing slug unchanged |
| ImportUtils.SlugifyIdempotent | src/lib/utils/import.ts:68-75 | slugifying a slug changes nothing |
| ImportUtils.SlugIsTrimmed | src/lib/utils/import.ts:71 | a slug has no surrounding whitespace |
| ImportUtils.SkuChars | src/lib/utils/import.ts:81 | the result holds only `[\w-]`, one character per UTF-16 code unit of the input |
| ImportUtils.SkuUnits | src/lib/utils/import.ts:81 | a character of `[\w-]` is kept; any other becomes one `-` per code unit |
| ImportUtils.SkuCharsOfBmp | src/lib/utils/import.ts:81 | within the Basic Multilingual Plane, every character outside `[\w-]` becomes `-`, position by position |
| ImportUtils.AstralGivesTwoHyphens | src/lib/utils/import.ts:81 | a character outside the Basic Multilingual Plane becomes `--`, since the pattern has no `u` flag |
| ImportUtils.CleanCodeIsSkuPart | src/lib/utils/import.ts:81 | a code already in `[A-Z0-9_-]` passes `trim`, `toUpperCase` and the replacement unchanged |
| ImportUtils.SkuPart | src/lib/utils/import.ts:81 | the SKU part holds only `[\w-]`, has no lower-case letter, and is at least as long as the trimmed supplier code |
| ImportUtils.Prefix | src/lib/utils/import.ts:82-83 | `substring(0, n)` is a prefix of at most `n` characters, and the whole string when it is short enough |
| ImportUtils.GenerateSku | src/lib/utils/import.ts:80-84 | a SKU is at most 100 characters of word characters and hyphens |
| ImportUtils.GenerateSkuKeepsCleanCode | src/lib/utils/import.ts:81-83 | a short supplier code made of upper-case letters, digits, `_` and `-` starts the SKU unchanged, followed by `-` |
| ImportUtils.BatchArray | src/lib/utils/import.ts:57-63 | the slices are the chunks of the list; they concatenate back to it; there are `ceil(n / size)` of them |
| ImportUtils.Chunks | src/lib/utils/import.ts:59-60 | every chunk is non-empty and at most `size` long, and all but the last are exactly `size` long |
| ImportUtils.ChunkAt | src/lib/utils/import.ts:60 | chunk `k` is the slice starting at `k * size` |
| ImportUtils.ChunksConcat | src/lib/utils/import.ts:57-63 | the chunks concatenate back to the list |
| ImportUtils.ChunksCount | src/lib/utils/import.ts:59 | the number of chunks is just enough to hold the list |
| ImportUtils.Hex | src/lib/utils/import.ts:51 | hex text is twice as long as the bytes and uses lower-case hex digits only |
| ImportUtils.HexInjective | src/lib/utils/import.ts:51 | different digests have different hex text |
| ImportUtils.ComputeRowHash | src/lib/utils/import.ts:30-52 | the row hash is 64 lower-case hex digits |
| ImportUtils.RowHashMatchesDigest | src/lib/utils/import.ts:48-51 | two items get the same row hash exactly when the digests of their canonical records agree |
| ImportUtils.CanonicalIgnoresIncidentals | src/lib/utils/import.ts:32-45 | currency, description, extra and image hints never affect the hash; a zero, `null` or missing stock hash alike; so do an empty and a missing brand |
| ImportUtils.Canonical | src/lib/utils/import.ts:31-44 | the canonical record keeps the supplier code, SKU, name and price; brand, model, category, unit and warehouse are the item's text or `''` when missing or empty; discounted price, list price and stock are the item's number when it is truthy and `null` otherwise |
| RawRows.NormalizeRow | src/lib/adapters/motos_y_equipos.ts:23-27 | the normalization loop builds the record the specification function describes |
| RawRows.NormalizedKeys | src/lib/adapters/motos_y_equipos.ts:24-25 | a key is in the record exactly when some column's header normalizes to it |
| RawRows.NormalizedLastWins | src/lib/adapters/motos_y_equipos.ts:26 | a normalized key holds the trimmed text of the last column that maps to it |
| RawRows.Normalized | src/lib/adapters/motos_y_equipos.ts:23-27 | every key and every value of the normalized record is trimmed |
| RawRows.LookupFirstHit | src/lib/adapters/motos_y_equipos.ts:30-35 | the chain of alternatives gives the value of the first alias that is present and non-empty |
| RawRows.Lookup | src/lib/adapters/motos_y_equipos.ts:30-35 | the chain gives `''` exactly when no alias is present with a non-empty value; otherwise it gives the value of some such alias |
| RawRows.SoleColumnLookup | src/lib/adapters/motos_y_equipos.ts:23-35 | when at most one column's header normalizes to one of the aliases, the chain gives that column's trimmed text, or `''` when there is no such column |
| RawRows.SoleColumnOfKeys | src/lib/adapters/motos_y_equipos.ts:24-25 | a column is the only one for the aliases when no other column's header normalizes to one of them |
| RawRows.ColumnTextOf | src/lib/adapters/motos_y_equipos.ts:25-26 | a column whose header normalizes to an alias and whose text is trimmed gives that text |
| RawRows.LookupSkips | src/lib/adapters/mrm.ts:83-88 | an alias that never has a value, or that repeats an earlier one, can be removed from the chain |
| RawRows.UntrimmedAliasNeverHits | src/lib/adapters/motos_y_equipos.ts:63 | an alias with surrounding whitespace is never a key of the record |
| RawRows.BlankRowLooksUpNothing | src/lib/adapters/motos_y_equipos.ts:73-76 | in a row of blank cells, every lookup gives `''` |
| RawRows.UnknownSku | src/lib/adapters/motos_y_equipos.ts:93 | the placeholder code is non-empty and does not start with whitespace |
| RawRows.UnknownSkuInjective | src/lib/adapters/mrm.ts:116 | placeholder codes of different rows differ |
| Validators.ValidateStagedItem | src/lib/adapters/validators.ts:12-85 | the errors are the messages of the broken rules in the source's order, and the item is valid exactly when there are none |
| Validators.CheckRequired | src/lib/adapters/validators.ts:15-22 | appends the code and name messages exactly when those fields are blank |
| Validators.CheckPrice | src/lib/adapters/validators.ts:24-27 | appends the price message exactly when a present price is `NaN` |
| Validators.CheckStock | src/lib/adapters/validators.ts:29-37 | appends the integer and the sign messages independently for a present stock |
| Validators.CheckCurrency | src/lib/adapters/validators.ts:39-42 | appends the currency message exactly when the currency is not MXN |
| Validators.CheckOptionalPrices | src/lib/adapters/validators.ts:69-75 | appends each optional-price message exactly when that price is present and `NaN` |
| Validators.Errors | src/lib/adapters/validators.ts:15-75 | a rule's message is among the errors exactly when the item breaks that rule, and there is at most one message per rule |
| Validators.ErrorsEmpty | src/lib/adapters/validators.ts:81-84 | no errors exactly when no rule is broken, and never more than eight messages |
| Validators.AllRulesListed | src/lib/adapters/validators.ts:15-75 | the rules are checked in the source's order |
| Validators.MessageInjective | src/lib/adapters/validators.ts:17-74 | distinct rules have distinct messages |
| Validators.OnlyStockSignCanFail | src/lib/adapters/validators.ts:29-37 | for an item with code, name, numeric prices, integer stock and MXN, the only possible error is a negative stock |
| Validators.MinimalItemIsValid | src/lib/adapters/validators.ts:15-42 | an item with just a code, a name and MXN is valid |
| Validators.NegativeFractionalStock | src/lib/adapters/validators.ts:30-36 | a stock of -1.5 draws both stock messages |
| MotosYEquiposAdapter.KeepStockChars | src/lib/adapters/motos_y_equipos.ts:81 | the cleaned stock text keeps only digits and minus signs, and is no longer than the input |
| MotosYEquiposAdapter.Parse | src/lib/adapters/motos_y_equipos.ts:29-101 | a row is skipped exactly when it has neither a code nor a name; a kept row is a Motos y Equipos item whose code and name are the row's when present and non-empty placeholders otherwise |
| MotosYEquiposAdapter.ParseStock | src/lib/adapters/motos_y_equipos.ts:79-85 | the stock is `null` or an integer |
| MotosYEquiposAdapter.ParseRow | src/lib/adapters/motos_y_equipos.ts:20-103 | the method builds exactly the item (or skip) the row specification gives |
| MotosYEquiposAdapter.ValidateRow | src/lib/adapters/motos_y_equipos.ts:110-112 | the adapter's validation is the shared validator |
| MotosYEquiposAdapter.SkippedIff | src/lib/adapters/motos_y_equipos.ts:74-76 | a row is skipped exactly when no code alias and no name alias has a value |
| MotosYEquiposAdapter.BlankRowSkipped | src/lib/adapters/motos_y_equipos.ts:73-76 | a row of blank cells is skipped |
| MotosYEquiposAdapter.ParsedShape | src/lib/adapters/motos_y_equipos.ts:91-101 | a built item is a Motos y Equipos item in MXN, with a non-blank code and name, a `null` or integer stock, a non-`NaN` price and no optional prices; `extra` holds the raw reception date exactly when there is one |
| MotosYEquiposAdapter.ParsedErrors | src/lib/adapters/motos_y_equipos.ts:110-112 | a built item's only possible error is the negative-stock message |
| MotosYEquiposAdapter.TrailingSpaceAliasIsDead | src/lib/adapters/motos_y_equipos.ts:60-64 | the `'precio '` alias never matters, because keys are trimmed |
| MotosYEquiposAdapter.StockOfDigits | src/lib/adapters/motos_y_equipos.ts:81 | a stock column of digits is that number |
| MotosYEquiposAdapter.StockDropsDecimalPoint | src/lib/adapters/motos_y_equipos.ts:81 | the decimal point is dropped: a stock written `whole.frac` is the number its digits spell together, so `"1.5"` is 15 |
| MotosYEquiposAdapter.CodeAndNameColumns | src/lib/adapters/motos_y_equipos.ts:30-94 | with one code column and one name column, a row is skipped exactly when both are blank; otherwise the code and name are their texts, or `UNKNOWN-<row>` and `Sin nombre` |
| MotosYEquiposAdapter.BrandAndWarehouseColumns | src/lib/adapters/motos_y_equipos.ts:44-51 | brand and warehouse are the text of their column, or `undefined` when it is blank or missing |
| MotosYEquiposAdapter.StockColumn | src/lib/adapters/motos_y_equipos.ts:53-85 | the stock is the stock column read through the cleaner and `parseInt` |
| MotosYEquiposAdapter.PriceColumn | src/lib/adapters/motos_y_equipos.ts:60-88 | the price is `sanitizePrice` of the price column, `null` when it is blank or missing |
| MotosYEquiposAdapter.ReceivedAtColumn | src/lib/adapters/motos_y_equipos.ts:66-100 | `extra` holds the reception date column's text exactly when it is not blank |
| MotosYEquiposAdapter.FullRowKept | src/lib/adapters/__tests__/motos_y_equipos.test.ts:7-20 | the complete sample row, with the export's own headers, is kept |
| MotosYEquiposAdapter.FullRowCodeAndName | src/lib/adapters/__tests__/motos_y_equipos.test.ts:21-28 | it becomes a Motos y Equipos item in MXN with code `SKU123` and name `Test Product` |
| MotosYEquiposAdapter.FullRowBrandAndWarehouse | src/lib/adapters/__tests__/motos_y_equipos.test.ts:24-25 | its brand is `Test Brand` and its warehouse `Warehouse A` |
| MotosYEquiposAdapter.FullRowStock | src/lib/adapters/__tests__/motos_y_equipos.test.ts:26 | its stock is 10 |
| MotosYEquiposAdapter.FullRowPrice | src/lib/adapters/__tests__/motos_y_equipos.test.ts:27 | its price, written `$1,234.56`, is 1234.56 |
| MotosYEquiposAdapter.SparseRowKept | src/lib/adapters/__tests__/motos_y_equipos.test.ts:31-40 | a row with only code, name and price columns is kept, with code `SKU456` |
| MotosYEquiposAdapter.SparseRowMissingFields | src/lib/adapters/__tests__/motos_y_equipos.test.ts:41-43 | that row has no brand and no warehouse, and a `null` stock |
| MrmAdapter.OptionalPrice | src/lib/adapters/mrm.ts:104-105 | an empty column leaves the price undefined, and a present price is never `NaN` |
| MrmAdapter.Parse | src/lib/adapters/mrm.ts:32-127 | a row is skipped exactly when it has neither a code nor a name; a kept row is an MRM item whose code and name are the row's when present and non-empty placeholders otherwise |
| MrmAdapter.ParseRow | src/lib/adapters/mrm.ts:23-129 | the method builds exactly the item (or skip) the row specification gives |
| MrmAdapter.ValidateRow | src/lib/adapters/mrm.ts:136-138 | the adapter's validation is the shared validator |
| MrmAdapter.SkippedIff | src/lib/adapters/mrm.ts:97-100 | a row is skipped exactly when no code alias and no name alias has a value |
| MrmAdapter.BlankRowSkipped | src/lib/adapters/mrm.ts:97-100 | a row of blank cells is skipped |
| MrmAdapter.ParsedShape | src/lib/adapters/mrm.ts:107-127 | a built item is an MRM item in MXN, with a non-blank code and name, no stock or warehouse, and no `NaN` price; `extra` holds the former code exactly when there is one |
| MrmAdapter.ParsedIsValid | src/lib/adapters/mrm.ts:136-138 | every item the MRM adapter builds passes validation |
| MrmAdapter.RepeatedMsrpAliasIsRedundant | src/lib/adapters/mrm.ts:83-88 | the second `'precio sugerido'` alias never matters |
| MrmAdapter.CodeAndNameColumns | src/lib/adapters/mrm.ts:33-117 | with one code column and one name column, a row is skipped exactly when both are blank; otherwise the code and name are their texts, or `UNKNOWN-<row>` and `Sin nombre` |
| MrmAdapter.DescriptiveColumns | src/lib/adapters/mrm.ts:46-121 | brand, model, unit and product line are the text of their column, or `undefined` when it is blank or missing |
| MrmAdapter.PriceColumns | src/lib/adapters/mrm.ts:70-105 | the list price is `sanitizePrice` of its column; the discounted and suggested prices are too, and `undefined` when their column is blank or missing |
| MrmAdapter.OldCodeColumn | src/lib/adapters/mrm.ts:90-126 | `extra` is `{ oldCode }` exactly when the former-code column is not blank, and absent otherwise |
| MrmAdapter.FullRowKept | src/lib/adapters/__tests__/mrm.test.ts:7-23 | the complete sample row, with the spreadsheet's accented headers, is kept |
| MrmAdapter.FullRowCodeAndName | src/lib/adapters/__tests__/mrm.test.ts:24-34 | it becomes an MRM item in MXN with code `MRM001` and name `Test Product` |
| MrmAdapter.FullRowDescriptive | src/lib/adapters/__tests__/mrm.test.ts:27-30 | its brand, model, unit and product line are `Honda`, `CBR600`, `PZA` and `Repuestos` |
| MrmAdapter.FullRowListPrice | src/lib/adapters/__tests__/mrm.test.ts:31 | its price, written `1500.00`, is 1500 |
| MrmAdapter.FullRowDiscountedPrice | src/lib/adapters/__tests__/mrm.test.ts:32 | its discounted price is 1200 |
| MrmAdapter.FullRowSuggestedPrice | src/lib/adapters/__tests__/mrm.test.ts:33 | its suggested price is 1600 |
| MrmAdapter.FullRowOldCode | src/lib/adapters/__tests__/mrm.test.ts:35 | its former code `OLD001` is kept in `extra` |
| MrmAdapter.SparseRowKept | src/lib/adapters/__tests__/mrm.test.ts:38-47 | a row with only code, name and price columns is kept, with code `MRM002` |
| MrmAdapter.SparseRowMissingFields | src/lib/adapters/__tests__/mrm.test.ts:48-50 | that row has no brand and no model, and an `undefined` discounted price |
| ProviderDetection.MapEach | src/lib/adapters/detect.ts:8 | `map` keeps the length and applies the function at each position |
| ProviderDetection.AnyContainsIff | src/lib/adapters/detect.ts:13 | `some(includes)` holds exactly when some header contains the indicator |
| ProviderDetection.MatchesIff | src/lib/adapters/detect.ts:12-14 | an indicator is among the matches exactly when some header contains it, lower-cased |
| ProviderDetection.MatchesBound | src/lib/adapters/detect.ts:12-14 | there are never more matches than indicators |
| ProviderDetection.MatchesDependOnlyOnPresence | src/lib/adapters/detect.ts:12-20 | the matches depend only on which indicators occur in the headers |
| ProviderDetection.MatchesCountHits | src/lib/adapters/detect.ts:12-14 | the number of matches is the number of indicator positions whose indicator occurs, lower-cased, in some header |
| ProviderDetection.DetectAmong | src/lib/adapters/detect.ts:22-30 | Motos y Equipos when at least three of its indicators occur; otherwise MRM when at least three of its own do; otherwise no supplier |
| ProviderDetection.DetectProvider | src/lib/adapters/detect.ts:7-31 | the same decision on the lower-cased, trimmed headers, with the indicators as written |
| ProviderDetection.DetectProviderIntended | src/lib/adapters/detect.ts:7-31 | the same decision with the MRM indicators spelled as intended |
| ProviderDetection.SameMembersSameMatches | src/lib/adapters/detect.ts:12-14 | header lists with the same members have the same matches |
| ProviderDetection.HeaderOrderIrrelevant | src/lib/adapters/detect.ts:7-31 | the detected supplier ignores the order and repetition of the headers |
| ProviderDetection.NormalizeHeadersIdempotent | src/lib/adapters/detect.ts:8 | normalizing headers twice is normalizing them once |
| ProviderDetection.DetectIgnoresRenormalizing | src/lib/adapters/detect.ts:8 | detection on already-normalized headers agrees with detection on the raw ones |
| ProviderDetection.MrmIndicatorsLayout | src/lib/adapters/detect.ts:17 | three MRM indicators carry the characters `³` and soft hyphen; the other four are plain words |
| ProviderDetection.MisspelledNeverCount | src/lib/adapters/detect.ts:17-20 | indicators holding a character no header has never match, so only the plain ones count |
| ProviderDetection.MrmIndicatorsAsWritten | src/lib/adapters/detect.ts:17-20 | against ordinary headers, the MRM matches are those of the four plain indicators |
| ProviderDetection.AsWrittenMissesAccentedHeaders | src/lib/adapters/detect.ts:17-28 | headers with fewer than three plain MRM words are never detected as MRM, whatever accented words they hold |
| ProviderDetection.IntendedFindsAccentedHeaders | src/lib/adapters/detect.ts:17-28 | with correct spelling, `código`, `descripción` and `línea` headers are detected as MRM unless Motos y Equipos wins first |
| ProviderDetection.ThreeHitsDetectMrm | src/lib/adapters/detect.ts:18-28 | headers holding three MRM indicators and fewer than three Motos y Equipos indicators are detected as MRM |
| Pagination.Range | src/components/products/Pagination.tsx:44-46 | the pages `lo..hi`, in order, and nothing when `hi < lo` |
| Pagination.PushRange | src/components/products/Pagination.tsx:61-63 | the counting loop appends exactly the pages `lo..hi` |
| Pagination.GetPageNumbers | src/components/products/Pagination.tsx:38-76 | the method builds exactly the window the specification function gives |
| Pagination.SmallShowsAll | src/components/products/Pagination.tsx:42-46 | up to seven pages, every page is listed in order |
| Pagination.Window | src/components/products/Pagination.tsx:42-72 | every page up to seven pages, else exactly seven entries; the first entry is page 1 and the last the last page |
| Pagination.NearBeginning | src/components/products/Pagination.tsx:51-57 | near the start: pages 1 to 5, a gap, the last page |
| Pagination.NearEnd | src/components/products/Pagination.tsx:58-63 | near the end: page 1, a gap, the last five pages |
| Pagination.InTheMiddle | src/components/products/Pagination.tsx:64-72 | in the middle: page 1, a gap, the current page with its neighbours, a gap, the last page |
| Pagination.WindowWellFormed | src/components/products/Pagination.tsx:38-76 | at most seven entries; the pages rise strictly and lie in `1..totalPages`; each gap hides at least one page |
| Pagination.CurrentPageShown | src/components/products/Pagination.tsx:38-76 | a valid current page is listed exactly once |
| Pagination.StartItem | src/components/products/Pagination.tsx:78 | the first item shown follows a whole number of full pages: `currentPage - 1` of them |
| Pagination.EndItem | src/components/products/Pagination.tsx:79 | the last item shown is the smaller of the page's end and the item count |
| Pagination.ItemRange | src/components/products/Pagination.tsx:78-79 | on a page that has items, the range shown is within `1..totalItems` and at most one page long |
| Pagination.PagesTile | src/components/products/Pagination.tsx:78-79 | consecutive full pages show adjacent ranges |
| Pagination.ArrowsAtTheEnds | src/components/products/Pagination.tsx:94-139 | on the first page only "previous" is disabled, on the last only "next" |
| Pagination.Render | src/components/products/Pagination.tsx:78-139 | nothing is rendered exactly when there is at most one page; otherwise the page list is the window, "previous" is disabled exactly on page 1 and "next" exactly on the last page |
| ImportsRoute.ImportBatch.constructor | src/app/api/imports/route.ts:67-76 | a new batch starts `uploaded`, with no items and no image rows |
| ImportsRoute.ImportBatch.SetStatus | src/app/api/imports/route.ts:224-227 | a status update that the database accepts sets the status, one that fails leaves it as it was; nothing else changes |
| ImportsRoute.ImportBatch.InsertItems | src/app/api/imports/route.ts:218-222 | an item insert appends the whole chunk, or on error nothing |
| ImportsRoute.ImportBatch.InsertImageMappings | src/app/api/imports/route.ts:246-250 | an image insert appends the whole chunk, or on error nothing |
| ImportsRoute.ProviderOf | src/app/api/imports/route.ts:59 | only the exact codes `motos_y_equipos` and `mrm` name a supplier |
| ImportsRoute.RequestError | src/app/api/imports/route.ts:51-64 | a request passes exactly when both fields are non-empty and the code names a supplier |
| ImportsRoute.FileTypeOf | src/app/api/imports/route.ts:97-110 | a `.csv` URL is read as CSV; otherwise the file is a spreadsheet exactly when its URL ends in `.xlsx` or `.xls` (in any case) or its bytes start with the ZIP signature `PK` |
| ImportsRoute.ContentDecidesOnlyWithoutExtension | src/app/api/imports/route.ts:97-110 | the file's bytes matter only when the URL ends in none of `.csv`, `.xlsx`, `.xls` |
| ImportsRoute.FileTypeIgnoresCase | src/app/api/imports/route.ts:97-100 | the extension is matched without regard to case |
| ImportsRoute.ParseRowWith | src/app/api/imports/route.ts:124 | the supplier's adapter parses the row |
| ImportsRoute.ValidateRowWith | src/app/api/imports/route.ts:202 | the supplier's adapter validates with the shared validator |
| ImportsRoute.CollectStaged | src/app/api/imports/route.ts:136-141 | the `forEach` collects exactly the rows the specification function stages |
| ImportsRoute.StagedRowsSound | src/app/api/imports/route.ts:136-141 | every staged item is the parse of the row its index names |
| ImportsRoute.StagedRows | src/app/api/imports/route.ts:137-141 | at most one staged item per row; every index is the position of a row of this sheet, and the indices rise strictly |
| ImportsRoute.StagedRowsComplete | src/app/api/imports/route.ts:136-141 | every row the adapter accepts is staged |
| ImportsRoute.StagedAfterSkipTrace | src/app/api/imports/route.ts:159-166 | after `slice(skipRows)`, an item's index is its row's position in the whole sheet |
| ImportsRoute.DataOffset | src/app/api/imports/route.ts:150-159 | the data starts after seven title rows exactly for an MRM spreadsheet, and at the first row otherwise |
| ImportsRoute.StagedFromFile | src/app/api/imports/route.ts:127-166 | nothing when the reader throws; otherwise each staged item's index is its row's position in the whole file and the item is the adapter's parse of that row |
| ImportsRoute.ReadStaged | src/app/api/imports/route.ts:127-178 | reading the file stages what the specification function says, and nothing when the reader throws |
| ImportsRoute.JoinMentions | src/app/api/imports/route.ts:210 | every message occurs in the joined text |
| ImportsRoute.Join | src/app/api/imports/route.ts:210 | `join` of no messages is empty; the joined text starts with the first message and ends with the last |
| ImportsRoute.JoinContainsAll | src/app/api/imports/route.ts:210 | every message occurs in the joined text |
| ImportsRoute.ErrorText | src/app/api/imports/route.ts:210 | the error text is `null` exactly when there are no errors, and otherwise contains every error message |
| ImportsRoute.ImportItems | src/app/api/imports/route.ts:201-213 | one item row per staged item, in order |
| ImportsRoute.ToImportItem | src/app/api/imports/route.ts:201-212 | the item keeps the batch id, the supplier SKU and the parsed item; it is `staged` exactly when the item breaks no rule and `failed` otherwise; its error text is `null` exactly when it is `staged` and otherwise mentions the message of every rule it breaks; the row hash is 64 lower-case hex digits |
| ImportsRoute.BuildImportItems | src/app/api/imports/route.ts:201-213 | the loop builds exactly the item rows the specification function gives |
| ImportsRoute.CountStage | src/app/api/imports/route.ts:258-259 | a stage count is at most the number of items |
| ImportsRoute.CountsAddUp | src/app/api/imports/route.ts:258-259 | staged and failed counts add up to the item count |
| ImportsRoute.CountAllIff | src/app/api/imports/route.ts:263-264 | a stage's count is the item count exactly when every item is in that stage |
| ImportsRoute.FinalStatus | src/app/api/imports/route.ts:258-264 | the batch ends `failed` exactly when every item failed, and `staged` exactly when some item did not fail; with no items it is `failed` |
| ImportsRoute.CompletedCounts | src/app/api/imports/route.ts:258-273 | valid and failed rows add up to the total, and the batch ends `failed` exactly when every row breaks a rule |
| ImportsRoute.FirstFailing | src/app/api/imports/route.ts:217-233 | every chunk before the first failing insert succeeds |
| ImportsRoute.InsertItemChunks | src/app/api/imports/route.ts:216-233 | the chunks up to the first failure are written in order; on a failure the loop stops and the batch is marked `failed`, unless that status write itself fails |
| ImportsRoute.WrittenPrefix | src/app/api/imports/route.ts:216-233 | after a failed insert, the items written are a prefix of all the items |
| ImportsRoute.AllAccepted | src/app/api/imports/route.ts:244-254 | when every image insert succeeds, every image row is written |
| ImportsRoute.InsertImageChunks | src/app/api/imports/route.ts:244-254 | failed image chunks are skipped, and the status and items are untouched |
| ImportsRoute.ImageMappingsFor | src/app/api/imports/route.ts:237-242 | one image row per uploaded file, in order, with an empty product code |
| ImportsRoute.WriteStaged | src/app/api/imports/route.ts:201-273 | writes the items chunk by chunk; on success, the image rows, the final status and the counts |
| ImportsRoute.WrittenAsStaged | src/app/api/imports/route.ts:216-273 | the items written are always a prefix of the items built from the staged rows; a completed response has valid and failed rows adding up to the total, which is the number of staged rows |
| ImportsRoute.Post | src/app/api/imports/route.ts:47-274 | each error path gives its status and message and leaves no image rows. Before the download the batch is absent. A failed download, an unreadable file or a file without rows leaves it `failed` with no items. A failed item chunk leaves it `failed` with only the chunks before it written. On success all items are written, and the response carries the counts and the final status |

## Left out

- Authentication and the admin-role check (route.ts:28-45), the outer `catch` (route.ts:275-281) and every `console.error`: they need the database session. The handler starts after the role check.
- The database, the download, Papa Parse and SheetJS are parameters. The model does not parse CSV or spreadsheet text. A reader that throws is `None`. Rows are lists of (header, cell) pairs in column order.
- SHA-256 and `JSON.stringify` are not modelled: the digest is a function parameter over the canonical record, and only the hex step is modelled. So the lemmas say when two hashes agree in terms of digests, not text.
- Floating point: numbers are exact reals. `parseFloat` results are not rounded to doubles.
- The `typeof` checks for string and array fields (validators.ts:45-67, 77) are left out. The record's types already rule out those values, so the checks can never fire.
- `toLowerCase`/`toUpperCase` cover ASCII and Latin-1 only. Mappings outside that range, and mappings that change a string's length, are left out.
- `updatePage` and the rendered markup of the pagination control (Pagination.tsx:26-36, 85-147) are left out: they are routing and UI. `Render` keeps what the markup shows: the item range, the page entries and the arrows' disabled flags.
- ImportsRoute.ImportBatch.InsertItems: a failing insert is taken to write nothing. The database's partial-write behaviour is not modelled.
- A failed download, whether an HTTP error status or a network error, is one `None`. The file type is decided only once the bytes have arrived, as in the source.
- The row loop takes the adapter's `parseRow` as a function value (`ParserOf(code)`), and `ParseRowWith` shows that the adapter's method computes that same function.
- A row with no price is staged, not failed: validators.ts:25 accepts a `null` price, and both adapters leave the price `null` when its column is empty.
- The adapters' `try/catch` that turns an exception into `null` (motos_y_equipos.ts:20,104-107; mrm.ts:23,130-133) is left out. With every cell given as text, nothing in `parseRow` can throw.
- ImportUtils.CanonicalIgnoresIncidentals: `JSON.stringify` writes NaN and ±Infinity as `null`, so in the source an `Infinity` price hashes like a `null` price. The model's canonical record keeps the two apart.
- JsNumber.ParseInt: `parseInt` and `parseFloat` overflow to Infinity past the largest double. A stock of 400 digits is Infinity in the source and draws "Stock must be an integer"; in the model it is a finite integer and passes that rule.
- Detecting the supplier from headers (`detectProvider`) has no caller in the staging route; the supplier code comes from the request.
- ImportUtils.BatchArray: requires a positive chunk size. For a size of zero or less the source's loop (import.ts:59) never ends on a non-empty array; every caller passes 400.

## Findings

| source | as written | input that shows it | evidently intended | confidence | as-written member | corrected member |
|---|---|---|---|---|---|---|
| src/lib/adapters/detect.ts:17 | three MRM indicators are the UTF-8 bytes of `código`, `descripción` and `línea` read as Latin-1 (`cÃ³digo`, `descripciÃ³n`, `lÃ­nea`), so after lower-casing no real header can contain them | headers `Código`, `Descripción`, `Línea`: no supplier is detected | the accented words, spelled correctly, so these headers are detected as MRM | not executed | ProviderDetection.AsWrittenMissesAccentedHeaders | ProviderDetection.IntendedFindsAccentedHeaders |
