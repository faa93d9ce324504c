# Waybill extractor: OCR normalisation and spreadsheet export, modelled in Dafny

The waybill extractor is a small web service. A client uploads photographs of
waybills and names an extraction model. The service checks the request and
sends each image to one of two OCR back ends:

- a geometric OCR service, which answers with a flat list of typed blocks
  (PAGE, LINE, WORD, TABLE, CELL, KEY_VALUE_SET) linked by CHILD and VALUE
  relationships;
- a markdown OCR service, which answers with one markdown text per page.

The service stores each normalised result. It then answers with a download
link that carries the new waybill ids as a comma-separated `ids` parameter.
The export endpoint reads that parameter back and builds a spreadsheet: a
Summary sheet, one sheet per waybill holding its extracted fields, and one
sheet per extracted table.

The project models the logic of that pipeline and proves what it does:

| file | module | what it models |
|---|---|---|
| `common.dfy` | `Common` | `Option`, `" ".join`, concatenation, and an insertion-ordered dictionary (`Dict`) with Python's "assignment to an existing key keeps its place" rule |
| `strings.dfy` | `Strings` | `str.strip`, `str.lower`, `in`, `str.split(sep)`, `str.isdigit`, `int()` and `str()` of naturals |
| `blocks.dfy` | `Blocks` | the OCR block list and `blocks_map` |
| `rowgroup.dfy` | `RowGrouping` | sorting a table's cells by (RowIndex, ColumnIndex) and cutting them into rows |
| `textract.dfy` | `Textract` | `extract_with_textract`: word text resolution, tables, form fields, raw text |
| `tableextraction.dfy` | `TableExtraction` | the experimental geometric table reconstruction: word/cell overlap, cell text resolution in place, the dense grid |
| `mistral.dfy` | `Mistral` | `extract_with_mistral`: text assembly and the keyword line classifier |
| `dispatch.dfy` | `Dispatch` | `bulk_upload`'s request checks and back-end choice |
| `ids.dfy` | `WaybillIds` | the `ids` parameter: formatting after upload, parsing at export |
| `flatten.dfy` | `Flatten` | `flatten_dict` over JSON values, against a reference "last leaf wins" definition |
| `export.dfy` | `Export` | `download_excel`: the workbook as a class whose sheets the export methods fill cell by cell |

The source's loops take one of two forms here.

- Loops that build a result step by step are Dafny methods with `while` or
  `for` loops. Each is proved equal to a specification function, and the
  properties are lemmas about that function. They are:
  - the block loop of the geometric path (`Textract.ExtractWithTextract`),
    the cell-collecting loop (`Textract.CollectCells`), the row-grouping
    loop (`Textract.GroupRows`) and the VALUE loop of a form field
    (`Textract.ResolveFormField`);
  - the page and line loops of the markdown path (`Mistral.AssembleText`,
    `Mistral.ClassifyText`);
  - the word-overlap loop of the experimental cell-text helper
    (`TableExtraction.GetTextForCell`), the in-place cell resolution over an
    array (`TableExtraction.GetTableCells`), the cell-recording loop
    (`TableExtraction.RecordCells`) and the grid fill into `array2` values
    (`TableExtraction.LayoutGrid`);
  - the workbook writers (`Export.WriteWorkbook` and the methods it calls),
    which update the `titles` and `sheets` of the `Workbook` class.
- Loops inside helpers that only compute a value are recursive functions:
  - the child-word loop of `get_text_by_block_id` (`Textract.WordTexts`);
  - the two nested loops of `flatten_dict` (`Flatten.MembersItems`,
    `Flatten.ListItems`);
  - the id-parsing comprehension (`WaybillIds.ParseTokens`).

## Model

| member | source | states |
|---|---|---|
| Blocks.BlocksMap | backend/waybill/views.py:98 | the map's keys are exactly the block ids; each entry is filed under its own id and is one of the blocks |
| Blocks.BlocksMapLastWins | backend/waybill/views.py:98 | a block that no later block shares its id with is the one kept under that id: the last write wins |
| Blocks.BlocksMapFindsEachBlock | backend/waybill/views.py:98 | with unique ids, each block is found under its own id |
| Strings.Strip | backend/waybill/views.py:439 | the stripped text is the slice of the text between leading and trailing whitespace; it is empty iff the text is all whitespace, otherwise it starts and ends with a non-space; text without surrounding whitespace is unchanged |
| Strings.LowerIdempotent | backend/waybill/views.py:318 | lower-casing twice is lower-casing once |
| Strings.Split | backend/waybill/views.py:248 | `split` yields at least one piece, no piece holds the separator, and joining the pieces gives back the text |
| Strings.SplitJoinRoundTrip | backend/waybill/views.py:404 | splitting a join of separator-free pieces gives back the pieces |
| Strings.DigitsValueOfDecimal | backend/waybill/views.py:439 | `int(str(n)) == n` |
| Textract.TextById | backend/waybill/views.py:83-95 | `get_text_by_block_id`: only a WORD, CELL or LINE block yields text; its cases are Textract.TextByIdCases |
| Textract.WordTextsAreWords | backend/waybill/views.py:87-94 | at most one word per id; empty iff no child is a WORD; every word is the Text of a WORD child |
| Textract.WordTextsAppend | backend/waybill/views.py:89-93 | the child words follow relationship order over concatenated id lists |
| Textract.TextByIdCases | backend/waybill/views.py:83-95 | unknown ids and block types other than WORD, CELL and LINE give ""; a WORD gives its Text; a CELL or LINE without WORD children gives "" |
| Textract.TextSplitsIntoWords | backend/waybill/views.py:87-94 | splitting a CELL or LINE text at spaces recovers its words when no word holds a space |
| Textract.CellsOfIds | backend/waybill/views.py:106-112 | the collected cells are CELL blocks reached from the table's CHILD ids, no more of them than there are ids |
| Textract.CollectCells | backend/waybill/views.py:106-112 | the cell-collecting loop yields the CELL children in relationship order |
| RowGrouping.Insert | backend/waybill/views.py:115 | inserting into a sorted list keeps it sorted and adds exactly that cell |
| RowGrouping.SortByPosition | backend/waybill/views.py:115 | the sorted cells are ordered by (RowIndex, ColumnIndex) and are a permutation of the input |
| RowGrouping.GroupRuns | backend/waybill/views.py:117-138 | every run is non-empty and the last run ends with the last cell |
| RowGrouping.RunsPartitionCells | backend/waybill/views.py:117-138 | concatenating the rows gives back every cell, in order: nothing lost, nothing duplicated |
| RowGrouping.RunsShareRow | backend/waybill/views.py:123-133 | every row holds cells of one RowIndex, each taken from the input |
| RowGrouping.RunsCoverRows | backend/waybill/views.py:123-133 | every RowIndex that occurs has a row |
| RowGrouping.RunsAscendByRow | backend/waybill/views.py:115-138 | on sorted cells, rows come in strictly ascending RowIndex |
| RowGrouping.RunsAscendByColumn | backend/waybill/views.py:115-138 | on sorted cells, each row is in ascending ColumnIndex |
| Textract.GroupRows | backend/waybill/views.py:118-138 | the running `current_row_index` loop yields exactly the texts and confidences of the RowIndex runs |
| Textract.RowTextsAt | backend/waybill/views.py:131-132 | place j of a row holds the text of the row's j-th cell |
| Textract.RowScoresAt | backend/waybill/views.py:133 | place j of a confidence row holds that cell's Confidence, 0 when absent |
| Textract.TableShape | backend/waybill/views.py:101-140 | one non-empty row per distinct RowIndex, rows ascending, columns ascending within a row, every CELL child exactly once, confidences of the same shape |
| Textract.TableCells | backend/waybill/views.py:122-138 | row k, place j holds the text and the confidence of the j-th cell of the k-th row |
| Textract.ProcessTable | backend/waybill/views.py:102-140 | the TABLE branch produces the table entry of the block |
| Textract.FormConfidenceIsLastSet | backend/waybill/views.py:147-155 | the confidence is the last VALUE block's that has one, else the KEY block's own (0 when absent) |
| Textract.FormsAreLastPairs | backend/waybill/views.py:143-161 | `forms` has unique keys and each key holds its last recorded entry |
| Textract.FormsOf | backend/waybill/views.py:143-161 | the `forms` dict after the loop has unique keys; Textract.FormsAreLastPairs says which entry each key holds |
| Textract.FormPairsNonEmpty | backend/waybill/views.py:157-161 | only non-empty keys with non-empty values are recorded |
| Textract.NoPairsAsWritten | backend/waybill/views.py:143-161 | as written, no KEY block records a pair when its id names a KEY_VALUE_SET block |
| Textract.FormsAlwaysEmpty | backend/waybill/views.py:143-161 | with unique block ids, `forms` is always empty as written |
| Textract.IntendedFormsRecordKeys | backend/waybill/views.py:143-161 | resolving KEY_VALUE_SET blocks through their words, every KEY block with non-empty key and value texts ends up as a key of `forms` |
| Textract.ExampleFormFields | backend/waybill/views.py:143-161 | on a one-field response ("Name" -> "Alice"), as written `forms` is empty; corrected it holds "Name" -> ("Alice", 0.9) |
| Textract.ResolveFormField | backend/waybill/views.py:144-155 | the VALUE loop leaves the last VALUE text and the last confidence set |
| Textract.RecordFormField | backend/waybill/views.py:143-161 | a KEY block sets `forms[key]` exactly when both texts are non-empty; other blocks leave `forms` unchanged |
| Textract.RawTextAppend | backend/waybill/views.py:163-167 | the raw text of a concatenation is the concatenation of the raw texts |
| Textract.RawTextOf | backend/waybill/views.py:163-167 | `raw_text` after the loop, one LINE text and a newline per LINE block; its properties are Textract.RawTextAppend, RawTextIsJoin and RawTextSplitsIntoLines |
| Textract.RawTextIsJoin | backend/waybill/views.py:163-167 | `raw_text` is the LINE texts joined by newlines, with a final newline |
| Textract.RawTextSplitsIntoLines | backend/waybill/views.py:163-167 | splitting `raw_text` at newlines recovers the LINE texts plus a final empty piece |
| Textract.TableBlocks | backend/waybill/views.py:101-102 | the TABLE blocks picked out are TABLE blocks of the response |
| Textract.TablesOf | backend/waybill/views.py:101-140 | `tables` has at most one entry per block; Textract.OneTablePerTableBlock gives exactly one per TABLE block |
| Textract.OneTablePerTableBlock | backend/waybill/views.py:101-140 | exactly one table entry per TABLE block, in block order |
| Textract.ExtractStep | backend/waybill/views.py:101-167 | one more block extends the tables, forms and raw text only by its own contribution |
| Textract.ExtractWithTextract | backend/waybill/views.py:74-169 | the block loop yields the tables, forms and raw text of the whole response |
| TableExtraction.Kept | experiments/waybill_extraction.py:32-53 | the overlap test keeps only WORD blocks; TableExtraction.WordInsideIsKept and TableExtraction.NeverKept say which words it keeps |
| TableExtraction.WordInsideIsKept | experiments/waybill_extraction.py:26-53 | a WORD of positive area inside the cell box grown by 0.005 on each side is kept |
| TableExtraction.NeverKept | experiments/waybill_extraction.py:33 | a block that is not a WORD never contributes |
| TableExtraction.KeptTextsAppend | experiments/waybill_extraction.py:32-53 | the kept words of a concatenation are the kept words of each part, in order |
| TableExtraction.GetTextForCell | experiments/waybill_extraction.py:17-55 | a cell's own Text wins; otherwise the texts of the kept words, in block order; "" when no word is kept |
| TableExtraction.KeptTextsSameWords | experiments/waybill_extraction.py:32-53 | the kept words depend only on the WORD blocks, so resolving cells does not change another cell's text |
| TableExtraction.ResolvedAt | experiments/waybill_extraction.py:69-73 | resolution keeps each block's type and id |
| TableExtraction.CellsPrefix | experiments/waybill_extraction.py:68-73 | the collected cells are the table's CELL children, each carrying a Text |
| TableExtraction.NoChildrenNoCells | experiments/waybill_extraction.py:60-66 | a table without CHILD ids has no cells and changes no block |
| TableExtraction.ResolvedKeepsWords | experiments/waybill_extraction.py:69-73 | resolution never changes a WORD block or any block's type |
| TableExtraction.ResolveIdempotent | experiments/waybill_extraction.py:69-73 | resolving twice changes nothing more, and the second pass returns the same cells |
| TableExtraction.ResolveStep | experiments/waybill_extraction.py:69-73 | a cell's text computed mid-loop, over the partly resolved list, equals its text over the original list |
| TableExtraction.GetTableCells | experiments/waybill_extraction.py:58-75 | the array afterwards is the resolved block list and the cells are the table's cells, with their texts, in block order |
| TableExtraction.DoubleQuotes | experiments/waybill_extraction.py:95 | the result is one character longer per `"` in the text; with UndoubleDoubled, every `"` is doubled and nothing else changes |
| TableExtraction.QuoteCountIsMultiplicity | experiments/waybill_extraction.py:95 | the number of characters `replace('"', '""')` adds is the multiplicity of `"` in the text |
| TableExtraction.UndoubleDoubled | experiments/waybill_extraction.py:95 | doubling the quotes can be undone |
| TableExtraction.Escape | experiments/waybill_extraction.py:92-96 | the stored text is empty iff the cell text is all whitespace; otherwise it is `'` followed by the stripped text with every `"` doubled |
| TableExtraction.EscapeRoundTrip | experiments/waybill_extraction.py:92-96 | un-escaping the stored text recovers the stripped cell text |
| TableExtraction.TextMap | experiments/waybill_extraction.py:87-99 | `cells` has a key for exactly the positions of the table's cells |
| TableExtraction.ConfMap | experiments/waybill_extraction.py:102 | `confidence_scores` has a key for exactly the same positions |
| TableExtraction.LastTextWins | experiments/waybill_extraction.py:99 | a position holds the escaped text of the last cell there |
| TableExtraction.LastConfidenceWins | experiments/waybill_extraction.py:102 | a position holds the confidence of the last cell there, 0 when absent |
| TableExtraction.LastCellWins | experiments/waybill_extraction.py:98-102 | both maps agree on the last cell at each position |
| TableExtraction.RecordCells | experiments/waybill_extraction.py:86-102 | the loop yields both maps; they share their keys, and are empty iff there is no cell |
| TableExtraction.MaxRow | experiments/waybill_extraction.py:108 | the largest RowIndex: an upper bound that some cell attains |
| TableExtraction.MaxCol | experiments/waybill_extraction.py:109 | the largest ColumnIndex: an upper bound that some cell attains |
| TableExtraction.CellsPositionsFromOne | experiments/waybill_extraction.py:118-122 | the cells' positions are 1-based when the table's CELL children are |
| TableExtraction.RecordedInsideGrid | experiments/waybill_extraction.py:107-119 | every recorded position lies inside the `max_row` by `max_col` grid |
| TableExtraction.LayoutGrid | experiments/waybill_extraction.py:111-122 | both grids are `max_row` by `max_col`; each recorded position holds its value and every other place is empty |
| TableExtraction.ExtractTableData | experiments/waybill_extraction.py:78-124 | no cells gives two empty frames; otherwise both grids are sized by the largest indices and filled from the cells, last cell winning |
| Mistral.PagesTextIsJoin | backend/waybill/views.py:234-236 | the text is the pages joined by newlines, with a final newline |
| Mistral.PagesTextSplitsIntoPages | backend/waybill/views.py:234-236 | splitting the text at newlines recovers the pages plus a final empty piece |
| Mistral.AssembleText | backend/waybill/views.py:234-236 | the page loop builds that text; with any page it ends in a newline |
| Mistral.RuleOf | backend/waybill/views.py:251-270 | a line is only ever filed under a field one of whose keywords it holds; Mistral.RulePriority gives the order |
| Mistral.WithField | backend/waybill/views.py:252-270 | filing a line sets that field to the line and leaves the other fields; a `shipment` key is appended on its first assignment and keeps its place |
| Mistral.RulePriority | backend/waybill/views.py:251-270 | sender/from beats recipient/to, which beats tracking/waybill, which beats date, which beats weight; unfiled iff none of the eight keywords occurs |
| Mistral.FileLineTouchesOneField | backend/waybill/views.py:249-270 | a line changes only the field of its first matching rule, storing its stripped self |
| Mistral.UnmatchedLineKeepsAnalysis | backend/waybill/views.py:249-270 | a line matching no rule leaves the analysis as it was |
| Mistral.Classify | backend/waybill/views.py:247-270 | every field present holds the stripped text of a line filed under it |
| Mistral.FiledFieldPresent | backend/waybill/views.py:249-270 | once a line is filed under a field, the field is present |
| Mistral.UnfiledFieldAbsent | backend/waybill/views.py:249-270 | a field stays absent iff no line is filed under it |
| Mistral.LastMatchWins | backend/waybill/views.py:249-270 | a field holds the stripped last line filed under it |
| Mistral.ClassifyText | backend/waybill/views.py:247-270 | the loop over the lines of the text yields the analysis of those lines |
| Mistral.ShipmentKeysInFilingOrder | backend/waybill/views.py:240-270 | the `shipment` dict has unique keys, in the order in which lines were first filed under them |
| Mistral.ExtractWithMistral | backend/waybill/views.py:233-270 | the result carries the page text and its analysis, whose `shipment` dict lists its keys in the order lines were first filed under them (Mistral.ShipmentKeysInFilingOrder) |
| Mistral.TotalWeightFiledAsRecipient | backend/waybill/views.py:255 | "Total weight: 5 kg" is filed as recipient info, because "to" occurs in "total" |
| Dispatch.SelectBackend | backend/waybill/views.py:356-371 | the geometric service is chosen iff the lower-cased name is "aws textract"; every other name goes to the markdown service |
| Dispatch.CheckUpload | backend/waybill/views.py:303-334 | a missing image is refused first and only then; a passed upload has an image and a model, and has the credentials when the name selects the geometric service |
| Dispatch.StatusOf | backend/waybill/views.py:303-334 | every refusal is 400 or 503, and 400 iff images or model are missing |
| Dispatch.AcceptedUploads | backend/waybill/views.py:303-334 | an upload passes iff it has an image, names a model, and an explicitly named back end has its credentials; a passed upload that selects the geometric service has them |
| Dispatch.NoImagesFirst | backend/waybill/views.py:303-306 | a missing image is reported first, whatever else is wrong |
| Dispatch.SelectionIgnoresCase | backend/waybill/views.py:356-371 | the back-end choice ignores letter case |
| Dispatch.FallbackNameSkipsCredentialCheck | backend/waybill/views.py:316-371 | an unknown model name goes to the markdown service and is accepted without its credentials |
| WaybillIds.FormatIds | backend/waybill/views.py:403-405 | the `ids` parameter is empty iff no waybill was uploaded; WaybillIds.FormatParseRoundTrip reads it back |
| WaybillIds.ParseTokens | backend/waybill/views.py:438-440 | at most one id per comma-separated token |
| WaybillIds.SelectWaybills | backend/waybill/views.py:437-446 | all waybills iff the parameter is empty; otherwise no more ids than tokens |
| WaybillIds.Decimals | backend/waybill/views.py:404 | one decimal form per id |
| WaybillIds.ParseToken | backend/waybill/views.py:439 | a token yields at most one id |
| WaybillIds.ParseTokensAppend | backend/waybill/views.py:438-440 | tokens are parsed independently and stay in order |
| WaybillIds.NonDigitTokenDropped | backend/waybill/views.py:439 | a token that is not all digits once stripped is dropped |
| WaybillIds.DigitTokenKept | backend/waybill/views.py:439 | a digit token is appended as its number |
| WaybillIds.ParseDecimal | backend/waybill/views.py:439 | `str(n)` is already stripped, is all digits and reads back as n |
| WaybillIds.ParseDecimals | backend/waybill/views.py:438-440 | reading back the decimal forms gives the ids |
| WaybillIds.DecimalsAreDigits | backend/waybill/views.py:404 | every formatted id is all digits |
| WaybillIds.FormatParseRoundTrip | backend/waybill/views.py:437-441 | the parameter formatted after an upload selects exactly the uploaded ids, in order |
| WaybillIds.EmptyIdsSelectAll | backend/waybill/views.py:437-446 | an empty parameter selects every waybill |
| WaybillIds.SeparatorsOnlySelectNone | backend/waybill/views.py:437-441 | "," selects no waybill |
| Flatten.FlattenDict | backend/waybill/views.py:545-565 | `flatten_dict` returns a dict with unique keys; Flatten.FlattenIsLastLeaf says what each key holds |
| Flatten.FlattenIsLastLeaf | backend/waybill/views.py:545-565 | the flattened dict has unique keys, and each path holds the value of the last leaf at that path |
| Flatten.MembersItemsAgree | backend/waybill/views.py:545-565 | the recursive items and the reference leaves agree on every path's last value |
| Flatten.FlattenedPathsUnderParent | backend/waybill/views.py:548 | under a non-empty parent, every path starts with the parent and a dot |
| Flatten.EmptyContainersVanish | backend/waybill/views.py:549-558 | empty dicts and lists leave no row |
| Flatten.DottedKeyCollision | backend/waybill/views.py:545-565 | a key holding a dot collides with a nested path: `{"p.q": x, "p": {"q": y}}` flattens to the single row ("p.q", str(y)) |
| Export.Workbook.constructor | backend/waybill/views.py:427-428 | a new workbook holds one empty sheet |
| Export.Workbook.Rename | backend/waybill/views.py:429 | renaming changes one title only |
| Export.Workbook.CreateSheet | backend/waybill/views.py:475 | a new empty sheet is appended with its title |
| Export.Workbook.Put | backend/waybill/views.py:432 | a cell write changes that one cell of that one sheet |
| Export.ApplyAppend | backend/waybill/views.py:568-571 | writing a then b is writing a + b |
| Export.LookupSnoc | backend/waybill/views.py:504-507 | after one more write the written cell holds its value and every other cell is unchanged |
| Export.GridSheetLayout | backend/waybill/views.py:568-571 | a sheet written row by row holds line i, entry j at (i + 1, j + 1) and nothing elsewhere |
| Export.GridAppend | backend/waybill/views.py:568-571 | writing some rows and then the rows below them is writing them all |
| Export.WriteLine | backend/waybill/views.py:461-468 | one row's writes, from column A |
| Export.WriteLines | backend/waybill/views.py:568-571 | consecutive rows written from a top row down |
| Export.MinWidth | backend/waybill/views.py:516-517 | `zip(*scores)` yields no more columns than any confidence row has |
| Export.MinWidthAttained | backend/waybill/views.py:516-517 | that width is the length of some confidence row, 0 without rows |
| Export.TableSheetLayout | backend/waybill/views.py:499-524 | written column by column, the scores land where a row-by-row reading puts them: the sheet holds exactly its lines |
| Export.ScoreCell | backend/waybill/views.py:516-524 | the score block holds each score as a percentage at its row and column |
| Export.TableSheetIsGrid | backend/waybill/views.py:499-524 | a table sheet is its zipped data rows, a blank row, the label and the score rows |
| Export.WriteDataRows | backend/waybill/views.py:499-507 | the data loop writes the zipped rows from row 1 |
| Export.WriteColumn | backend/waybill/views.py:519-524 | one column of scores, from the row below the label down |
| Export.WriteScores | backend/waybill/views.py:516-524 | the score loop writes every column `zip(*...)` yields |
| Export.WriteTableSheet | backend/waybill/views.py:494-524 | a table adds one sheet, titled as given, holding the table's layout |
| Export.LabelRowWithData | backend/waybill/views.py:510-515 | for a table with a row, the source's label row is the model's, two rows below the data |
| Export.EmptyTableLabelAsWritten | backend/waybill/views.py:499-515 | for a table without rows the label row is unbound or stale as written; the model puts it on row 2 |
| Export.SelectedMembers | backend/waybill/views.py:437-446 | a waybill is exported iff it exists and the selection names it (or names all) |
| Export.DownloadAfterUpload | backend/waybill/views.py:437-441 | the upload's download link exports exactly the uploaded waybills |
| Export.SummaryRowOfWaybill | backend/waybill/views.py:459-469 | waybill i is on row 6 + i: id, upload date, model name or "N/A", "Yes"/"No", nothing in column E |
| Export.SummaryEndsAfterWaybills | backend/waybill/views.py:459-469 | nothing is written below the last waybill |
| Export.NoWaybillsSummary | backend/waybill/views.py:432-450 | with no waybill the summary holds exactly four cells |
| Export.MissingDataSheet | backend/waybill/views.py:577-579 | without a stored result a waybill's sheet holds only the notice |
| Export.TextractSheetRows | backend/waybill/views.py:526-537 | form field k is on row 4 + k: key, value and confidence percentage |
| Export.TextractRawTextRows | backend/waybill/views.py:539-541 | after K fields, two blank rows, "Raw Text" on row 6 + K and the raw text on 7 + K |
| Export.FlattenedSheetRows | backend/waybill/views.py:567-571 | row 2 + k holds the k-th path and the value of its last leaf; no path has two rows |
| Export.RawDataSheet | backend/waybill/views.py:572-575 | a result that is not a dict gives exactly the header and one "Raw Data" row |
| Export.TitlesInOrder | backend/waybill/views.py:471-496 | "Summary", then each waybill's own title followed by its table titles, waybill by waybill |
| Export.SheetsInOrder | backend/waybill/views.py:471-496 | the sheets line up with the titles, each waybill's own sheet followed by its table sheets |
| Export.WriteTables | backend/waybill/views.py:493-524 | the tables loop appends one titled sheet per table, in order |
| Export.TextractBodyWrites | backend/waybill/views.py:526-541 | the rows of a geometric result below the header are the form block's writes |
| Export.WriteFormBlock | backend/waybill/views.py:526-541 | the form block is written from row 2 |
| Export.WriteTextractBody | backend/waybill/views.py:491-541 | a geometric result adds its table sheets and writes its form block and raw text |
| Export.WriteDictBody | backend/waybill/views.py:543-571 | any other dict writes its flattened pairs from row 2 |
| Export.WriteRawBody | backend/waybill/views.py:572-575 | data that is not a dict writes one "Raw Data" row |
| Export.WriteBody | backend/waybill/views.py:489-575 | the body of a waybill's sheet, by kind of stored data |
| Export.WriteWaybill | backend/waybill/views.py:472-579 | a waybill adds its own sheet and its table sheets, holding their layouts |
| Export.WriteSummaryBody | backend/waybill/views.py:448-469 | rows 4 onwards of the Summary: the list or the notice |
| Export.WriteSummary | backend/waybill/views.py:427-469 | the Summary sheet holds its title, generation time and list |
| Export.WaybillLoopStep | backend/waybill/views.py:472-579 | one more waybill extends the titles and sheets by its own |
| Export.WriteWorkbook | backend/waybill/views.py:427-579 | the workbook holds the Summary and then every waybill's sheets, in order |
| Export.DownloadExcel | backend/waybill/views.py:421-579 | the export of a query is the workbook of the waybills it selects |

## Left out

- I/O is not modelled: the database, the file system, the OCR service calls,
  HTTP requests and responses, and `wb.save`. An OCR response is a
  parameter: the block list, or the pages' markdown. The waybills in the
  database are a parameter, in the order the database returns them.
- The clock is a parameter. `datetime.now()` and `uploaded_at.strftime(...)`
  arrive as ready-made strings.
- `str()` of the scalars in a stored JSON value is a parameter (`show`). The
  `f"{x:.2f}%"` formatting is kept as a `Percent(x)` cell. Reals are exact,
  with no floating-point rounding.
- `Strings.Lower` and `Strings.IsDigit` cover ASCII only. Python's Unicode
  case mapping and Unicode digits are not modelled. `Strings.IsSpace` is
  Python's whitespace set for `str.strip`.
- The demo data returned without credentials and the error fallback of the
  markdown path (backend/waybill/views.py:40-60, 172-192, 274-296) are
  constant dicts and are not modelled. Neither is the `ocr_info`/`pages`
  copy of the response (backend/waybill/views.py:215-231).
- The top-level `confidence_scores` entry of the geometric result is always
  an empty dict and is not modelled.
- `bulk_upload`'s per-image loop is not modelled as a loop: it creates
  records, calls the back end and deletes the record on failure. Its checks,
  its back-end choice and its link are modelled.
- Exceptions are not modelled as paths. Where the source indexes without a
  default and would raise `KeyError`, the model states the lookup as a
  precondition instead:
  - `Textract.TextResolves`, `TableTraversable` and `FormReady`;
  - `TableExtraction.TableReady` and `KeptHaveText`.
- Textract.GroupRows: requires RowIndex to be non-decreasing and at least 1. Sorting gives the first; the OCR service's 1-based indices give the second. A cell with RowIndex 0 would be merged into row 1 by the source, and the model does not cover that.
- TableExtraction.ExtractTableData: requires every CELL child's indices to be at least 1, as the OCR service gives them. pandas' negative `iloc` index for a 0 index is not modelled.
- RowGrouping.SortByPosition: its definition is stable, like Python's sort, but stability is not stated as a property.
- The pandas DataFrames are `array2<Option<…>>` grids, with `None` for
  `NaN`. Their `index`/`columns` labels are not kept; they are always the
  1-based positions.
- The `Flatten.Json` values allow an object to hold the same member key
  twice, which a stored JSON object never does. The lemmas hold for such
  objects too; no lemma relies on it.
- The export takes any stored dict with a "tables" key to have the shape the
  geometric path stores (`Export.StoredData.TextractData`). A dict of another
  shape that has such a key would be read through `.get` defaults or would
  raise. That case is not modelled.

## Findings

| source | as written | input that shows it | evidently intended | confidence | as-written member | corrected member |
|---|---|---|---|---|---|---|
| backend/waybill/views.py:145 | the KEY text is looked up through the KEY_VALUE_SET block's own id, and `get_text_by_block_id` joins words only for CELL and LINE blocks, so every key is "" and `forms` is always empty | a KEY block over the word "Name" whose VALUE block holds the word "Alice" | KEY and VALUE texts are the join of their CHILD words, so `forms` gets "Name" -> ("Alice", 0.9) | high; not executed | Textract.FormsAlwaysEmpty | Textract.IntendedFormsRecordKeys |
| backend/waybill/views.py:510 | `confidence_row = row_idx + 3` reads the row loop's variable after the loop. A table with no rows never binds it: as the first table the export fails with `UnboundLocalError`, and after a three-row table the label goes to row 5 | `{"rows": [], "confidence_scores": []}`, the entry a TABLE block without CELL children produces | the label two rows below the table's own data: row 2 for an empty table | high; not executed | Export.EmptyTableLabelAsWritten | Export.TableSheetLayout |

Both rows have a flag or a definition in the model.

- **Forms.** `Textract.ExtractWithTextract` takes a `resolveKeyValue` flag.
  With `false` it is the source as written; with `true` it is the corrected
  reading. `Textract.ExampleFormFields` shows both results on the example.
- **Table label.** The table sheets of `Export.WriteTableSheet` use the
  corrected label row, which is `Export.TableSheetLayout`'s layout.
  `Export.LabelRowWithData` proves that this matches the source for every
  table that has a row.
