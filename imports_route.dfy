/**
 * `POST /api/imports`, the staging phase of a supplier import: it checks the
 * request, opens an import batch in state `uploaded`, picks CSV or spreadsheet,
 * runs every data row through the supplier's adapter, validates and hashes each
 * staged item, writes the items in chunks of 400, records the uploaded image
 * files, and leaves the batch `staged` or `failed`.
 *
 * The database, the download and the CSV and spreadsheet readers are inputs: a
 * flag for the batch insert, the downloaded bytes (or none), the two readers as
 * functions from bytes to rows (or none, when they throw), and the outcome of each
 * chunk insert as a function of the chunk's position.
 */
module ImportsRoute {
  import opened Wrappers
  import opened JsText
  import opened StagedItems
  import opened ImportUtils
  import opened Validators
  import opened RawRows
  import MotosYEquiposAdapter
  import MrmAdapter

  /** How many rows each insert writes. */
  const BatchSize: nat := 400

  /** The state of a batch, and the stage of an item (`staged` or `failed`). */
  datatype Status = Uploaded | Staged | Failed

  datatype FileType = Csv | Xlsx

  /**
   * The five `update({ status })` calls of the handler. The handler never reads
   * their errors, so each may fail and leave the status as it was while the answer
   * goes out unchanged.
   */
  datatype StatusWrite = DownloadFailedWrite | ParseFailedWrite | NoRowsWrite | InsertFailedWrite | FinalWrite

  /** An image file uploaded with the price list. */
  datatype UploadedFile = UploadedFile(fileName: string, url: string)

  /** The request body; a missing `providerCode` or `fileUrl` is the empty string. */
  datatype Request = Request(providerCode: string, fileUrl: string, uploadThingFiles: seq<UploadedFile>)

  /** An adapter's item together with the index of the row it came from. */
  datatype StagedRow = StagedRow(item: StagedItem, rowIndex: nat)

  /** A row of `import_item`. */
  datatype ImportItem = ImportItem(
    batchId: nat,
    providerSku: string,
    stagedJson: StagedItem,
    stage: Status,
    errorText: Option<string>,
    rowHash: string)

  /** A row of `image_map`; the product code is filled in later. */
  datatype ImageMapping = ImageMapping(batchId: nat, providerSku: string, uploadthingFilename: string, url: string)

  /** The JSON answer: an error with its HTTP status, or the summary of a staged batch. */
  datatype Response =
    | Rejected(httpStatus: nat, error: string)
    | Completed(batchId: nat, totalRows: nat, validRows: nat, failedRows: nat, status: Status)

  /**
   * The `import_batch` row of one import, with the `import_item` and `image_map`
   * rows written for it.
   */
  class ImportBatch {
    const id: nat
    const providerCode: ProviderCode
    var status: Status
    var items: seq<ImportItem>
    var imageMappings: seq<ImageMapping>

    /** The insert that opens the batch in state `uploaded`. */
    constructor (id: nat, providerCode: ProviderCode)
      ensures this.id == id && this.providerCode == providerCode
      ensures status == Uploaded && items == [] && imageMappings == []
    {
      this.id := id;
      this.providerCode := providerCode;
      status := Uploaded;
      items := [];
      imageMappings := [];
    }

    /** `update({ status })` on the batch: the new status when the write succeeds, the old one when it fails. */
    method SetStatus(s: Status, ok: bool)
      modifies this
      ensures status == if ok then s else old(status)
      ensures items == old(items) && imageMappings == old(imageMappings)
    {
      if ok {
        status := s;
      }
    }

    /** One insert into `import_item`: all of the chunk is written, or, on error, none of it. */
    method InsertItems(chunk: seq<ImportItem>, ok: bool) returns (error: bool)
      modifies this
      ensures error == !ok
      ensures items == if ok then old(items) + chunk else old(items)
      ensures status == old(status) && imageMappings == old(imageMappings)
    {
      if ok {
        items := items + chunk;
      }
      error := !ok;
    }

    /** One insert into `image_map`: all of the chunk is written, or, on error, none of it. */
    method InsertImageMappings(chunk: seq<ImageMapping>, ok: bool) returns (error: bool)
      modifies this
      ensures error == !ok
      ensures imageMappings == if ok then old(imageMappings) + chunk else old(imageMappings)
      ensures status == old(status) && items == old(items)
    {
      if ok {
        imageMappings := imageMappings + chunk;
      }
      error := !ok;
    }
  }

  // ------------------------------------------------------------ the request

  /** The supplier a request names, when it names one of the two. */
  function ProviderOf(text: string): (r: Option<ProviderCode>)
    ensures forall p :: r == Some(p) <==> text == ProviderCodeText(p)
  {
    if text == "motos_y_equipos" then Some(MotosYEquipos)
    else if text == "mrm" then Some(Mrm)
    else None
  }

  /** The message of the 400 answer a request gets before any batch exists, if any. */
  function RequestError(request: Request): (r: Option<string>)
    ensures r.None? <==> request.providerCode != "" && request.fileUrl != "" && ProviderOf(request.providerCode).Some?
  {
    if request.providerCode == "" || request.fileUrl == "" then Some("providerCode and fileUrl are required")
    else if ProviderOf(request.providerCode).None? then Some("Invalid provider code")
    else None
  }

  // ------------------------------------------------------------ the file type

  /** The first two bytes of a ZIP archive, which an `.xlsx` file is. */
  predicate IsZipMagic(content: seq<bv8>)
  {
    |content| >= 2 && content[0] == 0x50 && content[1] == 0x4B
  }

  predicate HasSpreadsheetExtension(url: string)
  {
    EndsWith(Lower(url), ".xlsx") || EndsWith(Lower(url), ".xls")
  }

  /** CSV for a `.csv` URL, spreadsheet for `.xlsx` or `.xls`, else decided by the ZIP signature. */
  function FileTypeOf(fileUrl: string, content: seq<bv8>): (t: FileType)
    ensures EndsWith(Lower(fileUrl), ".csv") ==> t == Csv
    ensures t == Xlsx <==> !EndsWith(Lower(fileUrl), ".csv") && (HasSpreadsheetExtension(fileUrl) || IsZipMagic(content))
  {
    if EndsWith(Lower(fileUrl), ".csv") then Csv
    else if HasSpreadsheetExtension(fileUrl) then Xlsx
    else if IsZipMagic(content) then Xlsx
    else Csv
  }

  /** The bytes are looked at only when the URL has none of the three extensions. */
  lemma ContentDecidesOnlyWithoutExtension(fileUrl: string, content1: seq<bv8>, content2: seq<bv8>)
    ensures FileTypeOf(fileUrl, content1) != FileTypeOf(fileUrl, content2) ==>
      !EndsWith(Lower(fileUrl), ".csv") && !HasSpreadsheetExtension(fileUrl) && IsZipMagic(content1) != IsZipMagic(content2)
  {
  }

  /** The extension is matched without regard to case. */
  lemma FileTypeIgnoresCase(fileUrl: string, content: seq<bv8>)
    ensures FileTypeOf(Lower(fileUrl), content) == FileTypeOf(fileUrl, content)
  {
    LowerIdempotent(fileUrl);
  }

  // ------------------------------------------------------------ the rows

  /** `getAdapter(code).parseRow`, as a specification. */
  function ParseWith(code: ProviderCode, row: RawRow, rowIndex: nat): Option<StagedItem>
  {
    match code
    case MotosYEquipos => MotosYEquiposAdapter.Parse(Normalized(row), rowIndex)
    case Mrm => MrmAdapter.Parse(Normalized(row), rowIndex)
  }

  /** `getAdapter(code).parseRow`. */
  method ParseRowWith(code: ProviderCode, row: RawRow, rowIndex: nat) returns (staged: Option<StagedItem>)
    ensures staged == ParseWith(code, row, rowIndex)
  {
    match code
    case MotosYEquipos => staged := MotosYEquiposAdapter.ParseRow(row, rowIndex);
    case Mrm => staged := MrmAdapter.ParseRow(row, rowIndex);
  }

  /** `getAdapter(code).validateRow`. */
  method ValidateRowWith(code: ProviderCode, item: StagedItem) returns (valid: bool, errors: seq<string>)
    ensures errors == Errors(item)
    ensures valid <==> errors == []
  {
    match code
    case MotosYEquipos => valid, errors := MotosYEquiposAdapter.ValidateRow(item);
    case Mrm => valid, errors := MrmAdapter.ValidateRow(item);
  }

  /** A row parser: the adapter's `parseRow` as a function of the row and its index. */
  type Parser = (RawRow, nat) -> Option<StagedItem>

  /** `getAdapter(code).parseRow` as a value. */
  function ParserOf(code: ProviderCode): Parser
  {
    (row: RawRow, rowIndex: nat) => ParseWith(code, row, rowIndex)
  }

  /**
   * The staged items of a list of data rows whose first row has index `offset`:
   * each row the parser does not turn into `null`, in order, with its index.
   */
  function StagedRows(parse: Parser, rows: seq<RawRow>, offset: nat): (r: seq<StagedRow>)
    ensures |r| <= |rows|
    ensures forall k :: 0 <= k < |r| ==> offset <= r[k].rowIndex < offset + |rows|
    ensures forall k, l :: 0 <= k < l < |r| ==> r[k].rowIndex < r[l].rowIndex
  {
    if rows == [] then []
    else
      var i := |rows| - 1;
      StagedRows(parse, rows[..i], offset) +
        match parse(rows[i], i + offset)
        case None => []
        case Some(item) => [StagedRow(item, i + offset)]
  }

  /** One more row adds its staged item, if any, at the end. */
  lemma StagedRowsStep(parse: Parser, rows: seq<RawRow>, offset: nat, index: nat)
    requires index < |rows|
    ensures StagedRows(parse, rows[..index + 1], offset) ==
      StagedRows(parse, rows[..index], offset) +
        match parse(rows[index], index + offset)
        case None => []
        case Some(item) => [StagedRow(item, index + offset)]
  {
    assert rows[..index + 1][..index] == rows[..index];
  }

  /**
   * The `forEach` over the data rows that pushes every non-null result of the
   * adapter's `parseRow` (`parse`, which `ReadStaged` sets to `ParserOf(code)`).
   */
  method CollectStaged(parse: Parser, rows: seq<RawRow>, offset: nat) returns (stagedItems: seq<StagedRow>)
    ensures stagedItems == StagedRows(parse, rows, offset)
  {
    stagedItems := [];
    var index := 0;
    while index < |rows|
      invariant 0 <= index <= |rows|
      invariant stagedItems == StagedRows(parse, rows[..index], offset)
    {
      var staged := parse(rows[index], index + offset);
      StagedRowsStep(parse, rows, offset, index);
      if staged.Some? {
        stagedItems := stagedItems + [StagedRow(staged.value, index + offset)];
      }
      index := index + 1;
    }
    assert rows[..|rows|] == rows;
  }

  /** Every staged item is the parser's result for the data row its index names. */
  lemma {:induction false} StagedRowsSound(parse: Parser, rows: seq<RawRow>, offset: nat)
    ensures forall k :: 0 <= k < |StagedRows(parse, rows, offset)| ==>
      parse(rows[StagedRows(parse, rows, offset)[k].rowIndex - offset], StagedRows(parse, rows, offset)[k].rowIndex)
        == Some(StagedRows(parse, rows, offset)[k].item)
  {
    if rows != [] {
      var i := |rows| - 1;
      StagedRowsSound(parse, rows[..i], offset);
      assert forall j :: 0 <= j < i ==> rows[..i][j] == rows[j];
    }
  }

  /** Every data row the parser accepts is staged: only the `null` results are dropped. */
  lemma {:induction false} StagedRowsComplete(parse: Parser, rows: seq<RawRow>, offset: nat, i: nat)
    requires i < |rows| && parse(rows[i], i + offset).Some?
    ensures exists k :: 0 <= k < |StagedRows(parse, rows, offset)| && StagedRows(parse, rows, offset)[k].rowIndex == i + offset
  {
    var last := |rows| - 1;
    var s := StagedRows(parse, rows, offset);
    if i == last {
      assert s[|s| - 1].rowIndex == i + offset;
    } else {
      assert rows[..last][i] == rows[i];
      StagedRowsComplete(parse, rows[..last], offset, i);
      var k :| 0 <= k < |StagedRows(parse, rows[..last], offset)| && StagedRows(parse, rows[..last], offset)[k].rowIndex == i + offset;
      assert s[k] == StagedRows(parse, rows[..last], offset)[k];
    }
  }

  /** The rows a reader produced, or none when it threw. */
  function FileRows(fileType: FileType, content: seq<bv8>, parseCsv: seq<bv8> -> Option<seq<RawRow>>,
                    parseXlsx: seq<bv8> -> Option<seq<RawRow>>): Option<seq<RawRow>>
  {
    if fileType == Csv then parseCsv(content) else parseXlsx(content)
  }

  /** The rows of an MRM spreadsheet before the data: its title block. */
  const MrmTitleRows: nat := 7

  /** Where the data rows start: after the title block of an MRM spreadsheet, else at the first row. */
  function DataOffset(code: ProviderCode, fileType: FileType): (n: nat)
    ensures n == 0 || n == MrmTitleRows
    ensures n == MrmTitleRows <==> fileType == Xlsx && code == Mrm
  {
    if fileType == Xlsx && code == Mrm then MrmTitleRows else 0
  }

  /**
   * The staged items of a downloaded file, or none when its reader threw. Each
   * staged item's index is its row's position in the whole file, and the item is
   * what the adapter makes of that row; so an MRM spreadsheet never stages any of
   * its first seven rows.
   */
  function StagedFromFile(code: ProviderCode, fileType: FileType, content: seq<bv8>,
                          parseCsv: seq<bv8> -> Option<seq<RawRow>>, parseXlsx: seq<bv8> -> Option<seq<RawRow>>): (r: Option<seq<StagedRow>>)
    ensures match FileRows(fileType, content, parseCsv, parseXlsx)
      case None => r.None?
      case Some(rows) =>
        r.Some? && forall k :: 0 <= k < |r.value| ==>
          DataOffset(code, fileType) <= r.value[k].rowIndex < |rows| &&
          ParseWith(code, rows[r.value[k].rowIndex], r.value[k].rowIndex) == Some(r.value[k].item)
  {
    match FileRows(fileType, content, parseCsv, parseXlsx)
    case None => None
    case Some(rows) =>
      var skip := DataOffset(code, fileType);
      StagedAfterSkipSound(code, rows, skip);
      Some(StagedRows(ParserOf(code), rows[Min(skip, |rows|)..], skip))
  }

  /**
   * After skipping the first `skip` rows, each staged item's index is its row's
   * position in the whole list, and the item is what the parser makes of that row.
   */
  lemma {:induction false} StagedAfterSkipTrace(parse: Parser, rows: seq<RawRow>, skip: nat, k: nat)
    requires k < |StagedRows(parse, rows[Min(skip, |rows|)..], skip)|
    ensures var s := StagedRows(parse, rows[Min(skip, |rows|)..], skip)[k];
      skip <= s.rowIndex < |rows| && parse(rows[s.rowIndex], s.rowIndex) == Some(s.item)
  {
    var dataRows := rows[Min(skip, |rows|)..];
    StagedRowsSound(parse, dataRows, skip);
    var s := StagedRows(parse, dataRows, skip)[k];
    assert dataRows[s.rowIndex - skip] == rows[s.rowIndex];
  }

  /** `StagedAfterSkipTrace` for every item an adapter stages. */
  lemma StagedAfterSkipSound(code: ProviderCode, rows: seq<RawRow>, skip: nat)
    ensures forall k :: 0 <= k < |StagedRows(ParserOf(code), rows[Min(skip, |rows|)..], skip)| ==>
      var s := StagedRows(ParserOf(code), rows[Min(skip, |rows|)..], skip)[k];
      skip <= s.rowIndex < |rows| && ParseWith(code, rows[s.rowIndex], s.rowIndex) == Some(s.item)
  {
    var staged := StagedRows(ParserOf(code), rows[Min(skip, |rows|)..], skip);
    forall k | 0 <= k < |staged|
      ensures skip <= staged[k].rowIndex < |rows| && ParseWith(code, rows[staged[k].rowIndex], staged[k].rowIndex) == Some(staged[k].item)
    {
      StagedAfterSkipTrace(ParserOf(code), rows, skip, k);
    }
  }

  // ------------------------------------------------------------ the items

  /** The item breaks none of the validator's rules. */
  predicate PassesAllRules(item: StagedItem)
  {
    forall rule :: !Violates(item, rule)
  }

  /** `errors.join(sep)`. */
  function Join(parts: seq<string>, sep: string): (r: string)
    ensures parts == [] ==> r == ""
    ensures parts != [] ==> |parts[0]| <= |r| && r[..|parts[0]|] == parts[0]
    ensures parts != [] ==> |parts[|parts| - 1]| <= |r| && r[|r| - |parts[|parts| - 1]|..] == parts[|parts| - 1]
  {
    if parts == [] then ""
    else if |parts| == 1 then parts[0]
    else parts[0] + sep + Join(parts[1..], sep)
  }

  /** Every part occurs in the joined text. */
  lemma {:induction false} JoinMentions(parts: seq<string>, sep: string, k: nat)
    requires k < |parts|
    ensures exists i :: OccursAt(Join(parts, sep), parts[k], i)
  {
    var j := Join(parts, sep);
    if k == 0 {
      assert j[0..|parts[0]|] == parts[0];
      assert OccursAt(j, parts[0], 0);
    } else {
      JoinMentions(parts[1..], sep, k - 1);
      var rest := Join(parts[1..], sep);
      var i :| OccursAt(rest, parts[1..][k - 1], i);
      var d := |parts[0]| + |sep|;
      assert j == parts[0] + sep + rest;
      assert j[d + i .. d + i + |parts[k]|] == rest[i .. i + |parts[k]|];
      assert OccursAt(j, parts[k], d + i);
    }
  }

  /** Every part is found in the joined text. */
  lemma JoinContainsAll(parts: seq<string>, sep: string)
    ensures forall k :: 0 <= k < |parts| ==> Contains(Join(parts, sep), parts[k])
  {
    forall k | 0 <= k < |parts|
      ensures Contains(Join(parts, sep), parts[k])
    {
      JoinMentions(parts, sep, k);
      ContainsOccurs(Join(parts, sep), parts[k]);
    }
  }

  /** `errors.length > 0 ? errors.join('; ') : null`: `null` for no errors, else a text naming each of them. */
  function ErrorText(errors: seq<string>): (r: Option<string>)
    ensures r.None? <==> errors == []
    ensures r.Some? ==> forall k :: 0 <= k < |errors| ==> Contains(r.value, errors[k])
  {
    if |errors| > 0 then
      JoinContainsAll(errors, "; ");
      Some(Join(errors, "; "))
    else None
  }

  /**
   * The `import_item` row for a staged item. It is `staged` exactly when the item
   * breaks no rule, and `failed` otherwise; its error text is `null` exactly when
   * it is `staged`, and otherwise names every rule the item breaks. Its hash is 64
   * lower-case hex digits.
   */
  function ToImportItem(batchId: nat, s: StagedRow, sha256: CanonicalRecord -> Digest): (r: ImportItem)
    ensures r.batchId == batchId && r.providerSku == s.item.providerSku && r.stagedJson == s.item
    ensures r.stage == Staged <==> PassesAllRules(s.item)
    ensures r.stage in {Staged, Failed}
    ensures r.errorText.None? <==> r.stage == Staged
    ensures forall rule :: Violates(s.item, rule) ==> Contains(r.errorText.value, Message(rule))
    ensures |r.rowHash| == 64 && forall i :: 0 <= i < |r.rowHash| ==> IsLowerHexChar(r.rowHash[i])
  {
    var errors := Errors(s.item);
    ErrorsEmpty(s.item);
    ImportItem(
      batchId,
      s.item.providerSku,
      s.item,
      if errors == [] then Staged else Failed,
      ErrorText(errors),
      ComputeRowHash(s.item, sha256))
  }

  /** The `import_item` rows of all staged items, in order. */
  function ImportItems(batchId: nat, staged: seq<StagedRow>, sha256: CanonicalRecord -> Digest): (r: seq<ImportItem>)
    ensures |r| == |staged|
  {
    seq(|staged|, k requires 0 <= k < |staged| => ToImportItem(batchId, staged[k], sha256))
  }

  /** The `for` loop that validates and hashes each staged item. */
  method BuildImportItems(code: ProviderCode, batchId: nat, stagedItems: seq<StagedRow>, sha256: CanonicalRecord -> Digest)
    returns (importItems: seq<ImportItem>)
    ensures importItems == ImportItems(batchId, stagedItems, sha256)
  {
    importItems := [];
    var k := 0;
    while k < |stagedItems|
      invariant 0 <= k <= |stagedItems|
      invariant importItems == ImportItems(batchId, stagedItems[..k], sha256)
    {
      var s := stagedItems[k];
      var valid, errors := ValidateRowWith(code, s.item);
      var rowHash := ComputeRowHash(s.item, sha256);
      importItems := importItems + [ImportItem(
        batchId,
        s.item.providerSku,
        s.item,
        if valid then Staged else Failed,
        if |errors| > 0 then Some(Join(errors, "; ")) else None,
        rowHash)];
      k := k + 1;
    }
    assert stagedItems[..|stagedItems|] == stagedItems;
  }

  /** How many items are in the given stage (`filter(...).length`). */
  function CountStage(items: seq<ImportItem>, stage: Status): (r: nat)
    ensures r <= |items|
  {
    if items == [] then 0
    else (if items[0].stage == stage then 1 else 0) + CountStage(items[1..], stage)
  }

  /** Items that are all `staged` or `failed` are counted once each. */
  lemma {:induction false} CountsAddUp(items: seq<ImportItem>)
    requires forall k :: 0 <= k < |items| ==> items[k].stage in {Staged, Failed}
    ensures CountStage(items, Staged) + CountStage(items, Failed) == |items|
  {
    if items != [] {
      assert forall k :: 0 <= k < |items| - 1 ==> items[1..][k] == items[k + 1];
      CountsAddUp(items[1..]);
    }
  }

  /** The count of a stage is the whole list exactly when every item is in it. */
  lemma {:induction false} CountAllIff(items: seq<ImportItem>, stage: Status)
    ensures CountStage(items, stage) == |items| <==> forall k :: 0 <= k < |items| ==> items[k].stage == stage
  {
    if items != [] {
      assert forall k :: 0 <= k < |items| - 1 ==> items[1..][k] == items[k + 1];
      CountAllIff(items[1..], stage);
    }
  }

  /** `failedCount === importItems.length ? 'failed' : 'staged'`. */
  function FinalStatus(items: seq<ImportItem>): (r: Status)
    ensures r == Failed <==> forall k :: 0 <= k < |items| ==> items[k].stage == Failed
    ensures r == Staged <==> exists k :: 0 <= k < |items| && items[k].stage != Failed
  {
    CountAllIff(items, Failed);
    if CountStage(items, Failed) == |items| then Failed else Staged
  }

  /**
   * For the items of staged rows: valid and failed counts add up to the row count,
   * and the batch ends `failed` exactly when every row breaks some rule.
   */
  lemma CompletedCounts(batchId: nat, staged: seq<StagedRow>, sha256: CanonicalRecord -> Digest)
    ensures var items := ImportItems(batchId, staged, sha256);
      CountStage(items, Staged) + CountStage(items, Failed) == |staged|
    ensures FinalStatus(ImportItems(batchId, staged, sha256)) == Failed <==>
      forall k :: 0 <= k < |staged| ==> !PassesAllRules(staged[k].item)
  {
    var items := ImportItems(batchId, staged, sha256);
    forall k | 0 <= k < |items|
      ensures items[k].stage in {Staged, Failed}
      ensures items[k].stage == Failed <==> !PassesAllRules(staged[k].item)
    {
      assert items[k] == ToImportItem(batchId, staged[k], sha256);
    }
    CountsAddUp(items);
    CountAllIff(items, Failed);
  }

  // ------------------------------------------------------------ the inserts

  /** The position of the first chunk whose insert fails, or `n` when none does. */
  function FirstFailing(n: nat, ok: nat -> bool): (r: nat)
    ensures r <= n
    ensures forall k :: 0 <= k < r ==> ok(k)
    ensures r < n ==> !ok(r)
  {
    if n == 0 then 0
    else
      var r := FirstFailing(n - 1, ok);
      if r < n - 1 then r else if ok(n - 1) then n else n - 1
  }

  /** The concatenation of the first `i + 1` chunks extends that of the first `i` by chunk `i`. */
  lemma ConcatSnoc<T>(chunks: seq<seq<T>>, i: nat)
    requires i < |chunks|
    ensures Concat(chunks[..i + 1]) == Concat(chunks[..i]) + chunks[i]
  {
    assert chunks[..i + 1] == chunks[..i] + [chunks[i]];
    ConcatAppend(chunks[..i], [chunks[i]]);
    assert Concat([chunks[i]]) == chunks[i] + Concat([]);
  }

  /**
   * The loop over the item chunks: inserts them in order and, at the first
   * failure, marks the batch `failed` and stops, keeping the chunks already written.
   */
  method InsertItemChunks(batch: ImportBatch, chunks: seq<seq<ImportItem>>, ok: nat -> bool, statusOk: bool)
    returns (failed: bool)
    modifies batch
    ensures failed <==> FirstFailing(|chunks|, ok) < |chunks|
    ensures batch.items == old(batch.items) + Concat(chunks[..FirstFailing(|chunks|, ok)])
    ensures batch.status == if failed && statusOk then Failed else old(batch.status)
    ensures batch.imageMappings == old(batch.imageMappings)
  {
    var i := 0;
    while i < |chunks|
      invariant 0 <= i <= |chunks|
      invariant forall k :: 0 <= k < i ==> ok(k)
      invariant batch.items == old(batch.items) + Concat(chunks[..i])
      invariant batch.status == old(batch.status) && batch.imageMappings == old(batch.imageMappings)
    {
      var error := batch.InsertItems(chunks[i], ok(i));
      if error {
        assert chunks[..i] == chunks[..FirstFailing(|chunks|, ok)];
        batch.SetStatus(Failed, statusOk);
        return true;
      }
      ConcatSnoc(chunks, i);
      i := i + 1;
    }
    assert chunks[..i] == chunks[..FirstFailing(|chunks|, ok)];
    return false;
  }

  /** The chunks whose insert succeeds, concatenated in order. */
  function AcceptedChunks<T>(chunks: seq<seq<T>>, ok: nat -> bool): seq<T>
  {
    if chunks == [] then []
    else AcceptedChunks(chunks[..|chunks| - 1], ok) + (if ok(|chunks| - 1) then chunks[|chunks| - 1] else [])
  }

  /** Every chunk is accepted when every insert succeeds. */
  lemma {:induction false} AllAccepted<T>(chunks: seq<seq<T>>, ok: nat -> bool)
    requires forall k :: 0 <= k < |chunks| ==> ok(k)
    ensures AcceptedChunks(chunks, ok) == Concat(chunks)
  {
    if chunks != [] {
      var i := |chunks| - 1;
      assert forall k :: 0 <= k < i ==> ok(k);
      AllAccepted(chunks[..i], ok);
      ConcatSnoc(chunks, i);
      assert chunks[..i + 1] == chunks;
    }
  }

  /** The loop over the image chunks: a failed insert is skipped and never changes the batch's status. */
  method InsertImageChunks(batch: ImportBatch, chunks: seq<seq<ImageMapping>>, ok: nat -> bool)
    modifies batch
    ensures batch.imageMappings == old(batch.imageMappings) + AcceptedChunks(chunks, ok)
    ensures batch.status == old(batch.status) && batch.items == old(batch.items)
  {
    var i := 0;
    while i < |chunks|
      invariant 0 <= i <= |chunks|
      invariant batch.imageMappings == old(batch.imageMappings) + AcceptedChunks(chunks[..i], ok)
      invariant batch.status == old(batch.status) && batch.items == old(batch.items)
    {
      var error := batch.InsertImageMappings(chunks[i], ok(i));
      assert chunks[..i + 1][..i] == chunks[..i];
      i := i + 1;
    }
    assert chunks[..i] == chunks;
  }

  /** The `image_map` rows for the uploaded files, in order, with no product code yet. */
  function ImageMappingsFor(batchId: nat, files: seq<UploadedFile>): (r: seq<ImageMapping>)
    ensures |r| == |files|
    ensures forall k :: 0 <= k < |r| ==>
      r[k].batchId == batchId && r[k].providerSku == "" &&
      r[k].uploadthingFilename == files[k].fileName && r[k].url == files[k].url
  {
    if files == [] then []
    else [ImageMapping(batchId, "", files[0].fileName, files[0].url)] + ImageMappingsFor(batchId, files[1..])
  }

  // ------------------------------------------------------------ the handler

  /**
   * What the batch holds and what the answer is once the staged rows have been
   * validated and written: the items of the chunks up to the first failing insert;
   * on a failure the batch holds no image rows, is `failed` if that status write
   * succeeds, and the answer is a 500; otherwise all items, the accepted image
   * chunks, the final status if its write succeeds, and the counts. A failed status
   * write leaves the batch `uploaded`.
   */
  predicate WrittenAsStaged(batch: ImportBatch, staged: seq<StagedRow>, files: seq<UploadedFile>,
                            sha256: CanonicalRecord -> Digest, itemChunkOk: nat -> bool, imageChunkOk: nat -> bool,
                            statusOk: StatusWrite -> bool, response: Response)
    reads batch
    ensures WrittenAsStaged(batch, staged, files, sha256, itemChunkOk, imageChunkOk, statusOk, response) ==>
      batch.items <= ImportItems(batch.id, staged, sha256)
    ensures WrittenAsStaged(batch, staged, files, sha256, itemChunkOk, imageChunkOk, statusOk, response) && response.Completed? ==>
      response.validRows + response.failedRows == response.totalRows == |staged|
  {
    var items := ImportItems(batch.id, staged, sha256);
    var chunks := Chunks(items, BatchSize);
    var written := FirstFailing(|chunks|, itemChunkOk);
    WrittenPrefix(items, written);
    CompletedCounts(batch.id, staged, sha256);
    batch.items == Concat(chunks[..written]) &&
    if written < |chunks| then
      batch.status == (if statusOk(InsertFailedWrite) then Failed else Uploaded) &&
      batch.imageMappings == [] && response == Rejected(500, "Failed to insert import items")
    else
      batch.items == items &&
      batch.imageMappings == AcceptedChunks(Chunks(ImageMappingsFor(batch.id, files), BatchSize), imageChunkOk) &&
      batch.status == (if statusOk(FinalWrite) then FinalStatus(items) else Uploaded) &&
      response == Completed(batch.id, |staged|, CountStage(items, Staged), CountStage(items, Failed), FinalStatus(items))
  }

  /**
   * The part of `POST` after parsing: builds the items, writes them in chunks,
   * records the image files, counts and sets the batch's final status.
   */
  method WriteStaged(batch: ImportBatch, stagedItems: seq<StagedRow>, files: seq<UploadedFile>,
                     sha256: CanonicalRecord -> Digest, itemChunkOk: nat -> bool, imageChunkOk: nat -> bool,
                     statusOk: StatusWrite -> bool)
    returns (response: Response)
    requires batch.status == Uploaded && batch.items == [] && batch.imageMappings == []
    modifies batch
    ensures WrittenAsStaged(batch, stagedItems, files, sha256, itemChunkOk, imageChunkOk, statusOk, response)
  {
    var importItems := BuildImportItems(batch.providerCode, batch.id, stagedItems, sha256);

    var batches := BatchArray(importItems, BatchSize);
    var insertFailed := InsertItemChunks(batch, batches, itemChunkOk, statusOk(InsertFailedWrite));
    if insertFailed {
      return Rejected(500, "Failed to insert import items");
    }
    ChunksConcat(importItems, BatchSize);
    assert batches[..|batches|] == batches;

    var imageMappings := ImageMappingsFor(batch.id, files);
    if |files| > 0 {
      var imageBatches := BatchArray(imageMappings, BatchSize);
      InsertImageChunks(batch, imageBatches, imageChunkOk);
    } else {
      assert Chunks(imageMappings, BatchSize) == [];
    }

    var validCount := CountStage(importItems, Staged);
    var failedCount := CountStage(importItems, Failed);
    var status := if failedCount == |importItems| then Failed else Staged;
    batch.SetStatus(status, statusOk(FinalWrite));
    response := Completed(batch.id, |stagedItems|, validCount, failedCount, status);
  }

  /** The data rows of a parsed file, run through the supplier's adapter. */
  method ReadStaged(code: ProviderCode, fileType: FileType, content: seq<bv8>,
                    parseCsv: seq<bv8> -> Option<seq<RawRow>>, parseXlsx: seq<bv8> -> Option<seq<RawRow>>)
    returns (stagedItems: Option<seq<StagedRow>>)
    ensures stagedItems == StagedFromFile(code, fileType, content, parseCsv, parseXlsx)
  {
    var rows := if fileType == Csv then parseCsv(content) else parseXlsx(content);
    if rows.None? {
      return None;
    }
    var staged;
    if fileType == Csv {
      staged := CollectStaged(ParserOf(code), rows.value, 0);
      assert rows.value[Min(0, |rows.value|)..] == rows.value;
    } else {
      var skipRows := if code == Mrm then MrmTitleRows else 0;
      staged := CollectStaged(ParserOf(code), rows.value[Min(skipRows, |rows.value|)..], skipRows);
    }
    return Some(staged);
  }

  /**
   * `POST`: the whole staging phase. `batchCreated` is whether the batch insert
   * succeeds and `batchId` the id it is given; `download` is the file's bytes, or
   * none when the fetch throws or answers with an error status; the readers answer
   * none when they throw; `itemChunkOk` and `imageChunkOk` say which chunk inserts
   * succeed; `statusOk` says which status writes succeed; `sha256` is the digest.
   * A failed status write changes only the batch, never the answer.
   */
  method Post(request: Request, batchCreated: bool, batchId: nat, download: Option<seq<bv8>>,
              parseCsv: seq<bv8> -> Option<seq<RawRow>>, parseXlsx: seq<bv8> -> Option<seq<RawRow>>,
              sha256: CanonicalRecord -> Digest, itemChunkOk: nat -> bool, imageChunkOk: nat -> bool,
              statusOk: StatusWrite -> bool)
    returns (response: Response, batch: ImportBatch?)
    // Before a batch exists: a bad request, or a failed batch insert.
    ensures RequestError(request).Some? ==> batch == null && response == Rejected(400, RequestError(request).value)
    ensures RequestError(request).None? && !batchCreated ==>
      batch == null && response == Rejected(500, "Failed to create import batch")
    ensures RequestError(request).None? && batchCreated ==>
      batch != null && fresh(batch) && batch.id == batchId && batch.providerCode == ProviderOf(request.providerCode).value
    // The download fails.
    ensures batch != null && download.None? ==>
      batch.status == (if statusOk(DownloadFailedWrite) then Failed else Uploaded) &&
      batch.items == [] && batch.imageMappings == [] &&
      response == Rejected(500, "Failed to download file")
    // After the download: the file is parsed, and its rows staged and written.
    ensures batch != null && download.Some? ==>
      match StagedFromFile(batch.providerCode, FileTypeOf(request.fileUrl, download.value), download.value, parseCsv, parseXlsx)
      case None =>
        batch.status == (if statusOk(ParseFailedWrite) then Failed else Uploaded) &&
        batch.items == [] && batch.imageMappings == [] &&
        response == Rejected(500, "Failed to parse file")
      case Some(staged) =>
        if staged == [] then
          batch.status == (if statusOk(NoRowsWrite) then Failed else Uploaded) &&
          batch.items == [] && batch.imageMappings == [] &&
          response == Rejected(400, "No valid rows found in file")
        else
          WrittenAsStaged(batch, staged, request.uploadThingFiles, sha256, itemChunkOk, imageChunkOk, statusOk, response)
  {
    var requestError := RequestError(request);
    if requestError.Some? {
      return Rejected(400, requestError.value), null;
    }
    var code := ProviderOf(request.providerCode).value;
    if !batchCreated {
      return Rejected(500, "Failed to create import batch"), null;
    }
    batch := new ImportBatch(batchId, code);

    if download.None? {
      batch.SetStatus(Failed, statusOk(DownloadFailedWrite));
      return Rejected(500, "Failed to download file"), batch;
    }
    var fileContent := download.value;
    var fileType := FileTypeOf(request.fileUrl, fileContent);

    var stagedItems := ReadStaged(code, fileType, fileContent, parseCsv, parseXlsx);
    if stagedItems.None? {
      batch.SetStatus(Failed, statusOk(ParseFailedWrite));
      return Rejected(500, "Failed to parse file"), batch;
    }
    if |stagedItems.value| == 0 {
      batch.SetStatus(Failed, statusOk(NoRowsWrite));
      return Rejected(400, "No valid rows found in file"), batch;
    }
    response := WriteStaged(batch, stagedItems.value, request.uploadThingFiles, sha256, itemChunkOk, imageChunkOk, statusOk);
  }

  /**
   * On the failing path of the chunk loop the items written are the first ones of
   * the batch, in order: a prefix of all the items.
   */
  lemma WrittenPrefix(items: seq<ImportItem>, written: nat)
    requires written <= |Chunks(items, BatchSize)|
    ensures Concat(Chunks(items, BatchSize)[..written]) <= items
  {
    var chunks := Chunks(items, BatchSize);
    assert chunks == chunks[..written] + chunks[written..];
    ConcatAppend(chunks[..written], chunks[written..]);
    ChunksConcat(items, BatchSize);
  }
}
