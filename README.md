# Investment Execution Converter, modelled in Dafny

The converter reads an Estonian broker's CSV statements and turns them into one spreadsheet of trades. Each row becomes a ledger entry with the following fields:
- the trade date;
- the account, taken from the file name;
- an asset type from a symbol table;
- Buy or Sell, from the TEHING column;
- the symbol, the security name and the currency;
- four numbers.

The ledger is sorted by date. It is written as a grid whose first column is the day serial of the 1900 date system.

Symbols the table does not know are shown to the user in a dialog. The user's choices are written to the session table and to a database the browser keeps across sessions. The run waits until the user saves.

The model has these modules:

- `Wrappers`: `Option`.
- `Text`: the JavaScript string operations the converter relies on:
  - `trim`;
  - `toUpperCase` and `toLowerCase`, exact for U+0000..U+00FF;
  - `includes`, `startsWith` and `split(sep)[0]`.
- `JsNumber`: `parseFloat` as a longest-prefix reader over the reals, with `Infinity`, and the `parseFloat(x) || 0` idiom.
- `CivilDate`:
  - `new Date(text)` for the ISO date-only forms, as days since 1970-01-01;
  - calendar order;
  - `dateToExcelNumber`.
- `Symbols`:
  - the database record;
  - seeding the database from the static table `SYMBOL_MAPPINGS`;
  - the lookup;
  - the unknown-symbol filter;
  - the dialog choices.
- `Transactions`:
  - a CSV row as a map from header to text;
  - the account name taken from the file name;
  - the empty-row filter;
  - the buy/sell decision;
  - `transformRow`.
- `Batch`:
  - the `.csv` filter;
  - `splice`-based file removal;
  - the two passes of `processFiles`, as folds over the files.
- `Ledger`: the date sort of `displayResults`, as a stable insertion sort.
- `Export`:
  - the decimal-separator setting;
  - the grid of `exportToExcel`;
  - reading the ledger back from that grid.
- `Converter`: the `InvestmentConverter` class as a Dafny class. It has the following fields: the file list, the session lookup, the database, what storage holds, the ledger, the unknown symbols, a flag for a run suspended on the dialog, and the page state. Its methods update those fields in place. Each loop is proved against the fold that specifies it.
- `TestDouble`: the copy of the class in `tests/app.test.js`, used by the Node tests:
  - its database keeps insertion order, and `updateSymbolMappings` rebuilds the lookup from it in that order;
  - its constructor leaves the lookup empty;
  - it guesses a type from the symbol's shape;
  - it takes Buy or Sell from the account name;
  - its `transformRow` falls back to "Other" and reads the name from a misspelt column.

External inputs are parameters:
- the stored database text (`Converter.Stored`);
- the selected files with their parsed records or a parse failure (`Batch.SourceFile`);
- the dialog's choices;
- the checked separator button;
- the current time.

## Model

| member | source | states |
|---|---|---|
| Symbols.Seeded | app.ts:286-294 | the seeded database has the old keys plus the static keys; an existing record is kept; a missing static symbol gets a record with its type and the current time |
| Symbols.SeedIdempotent | app.ts:286-294 | seeding again at any later time changes nothing, so a reload keeps earlier records and timestamps |
| Symbols.SeedInParts | app.ts:286-294 | the order in which static symbols are visited does not matter: seeding part of the table first, then the whole, equals seeding the whole |
| Symbols.UnknownSymbols | app.ts:370-372 | a symbol is listed exactly when it is in the input and its upper-case form has no truthy type; the list keeps input order |
| Symbols.LookupType | app.ts:450-459 | a type is returned exactly when the upper-case symbol has a truthy type, and it is that type; otherwise null |
| Symbols.LookupIgnoresCase | app.ts:450-455 | the lookup gives the same answer for a symbol and for its lower- or upper-case form |
| Symbols.UnknownIffNoLookup | app.ts:368-372 | a symbol is escalated to the dialog exactly when the lookup has no type for it |
| Symbols.LastChoice | app.ts:424-439 | the choice for a key is absent exactly when every selector for it is empty; otherwise it is a non-empty choice made for that key |
| Symbols.ApplyChoices | app.ts:424-439 | saving keeps every key of the lookup, and every key it adds is the upper-case form of a listed symbol |
| Symbols.RecordChoices | app.ts:424-439 | saving keeps every record key of the database, and every key it adds is the upper-case form of a listed symbol |
| Symbols.ChoicesStep | app.ts:426-438 | one more selector writes its non-empty choice under the upper-case symbol in both tables, and an empty one changes neither |
| Symbols.ApplyChoicesEffect | app.ts:428-430 | after saving, a key with a choice maps to the last choice made for it, and every other key keeps its type |
| Symbols.RecordChoicesEffect | app.ts:433-437 | after saving, a chosen key holds a fresh record with the upper-case symbol, the choice and the time, and every other record is unchanged |
| Symbols.NoChoiceChangesNothing | app.ts:428 | when every selector is empty, neither the lookup nor the database changes |
| Symbols.ChosenBecomesKnown | app.ts:428-430 | a symbol given a type in the dialog is known to the lookup afterwards |
| Transactions.StripExtension | app.ts:535 | the name without its extension is a prefix of the file name |
| Transactions.StripAddedExtension | app.ts:535 | removing the extension undoes adding one made of characters other than `/` and `.` |
| Transactions.StripWithoutDot | app.ts:535 | a name with no `.` is kept whole |
| Transactions.AccountName | app.ts:535-536 | the account is a prefix of the file name and contains no `_` |
| Transactions.AccountOfExportName | app.ts:535-536 | for `<account>_<rest>.<ext>` with no `_` in the account, the account is recovered exactly |
| Transactions.AccountNameExample | app.ts:535-536 | "LHV_2025_Metallid.csv" belongs to account "LHV" |
| Transactions.AccountNameTestExample | app.ts:535-536 | "TestAccount_transactions.csv" belongs to account "TestAccount" |
| Transactions.KeepRow | app.ts:538 | a row is kept exactly when its trade date and its symbol are both non-empty text |
| Transactions.ActionOf | app.ts:541-542 | a row is a Buy exactly when it has a TEHING column whose text, trimmed and lower-cased in either order, is "ost"; every other row is a Sell |
| Transactions.ActionOfOst | app.ts:541-542 | a row whose kind is "ost" is a Buy |
| Transactions.ActionOfCapitalOst | app.ts:541-542 | "OST" is a Buy too, since the kind is lower-cased |
| Transactions.ActionOfPaddedOst | app.ts:541-542 | " Ost " is a Buy, since the kind is trimmed |
| Transactions.ActionOfSale | app.ts:541-542 | "müük" is a Sell |
| Transactions.ActionOfOtherKind | app.ts:541-542 | an empty or unrecognised kind is a Sell |
| Transactions.ActionOfMissingKind | app.ts:541-542 | a row without a TEHING column is a Sell |
| Text.TrimOfLower | app.ts:541 | trimming and lower-casing commute for every text, so `toLowerCase().trim()` equals `trim().toLowerCase()` |
| Transactions.TypeOf | app.ts:558 | the type is never empty; it is the truthy type the lookup holds for the symbol, or "Missing" |
| Transactions.CanonicalSymbol | app.ts:557 | the symbol is the SÜMBOL field trimmed and upper-cased, so already in upper case, and "" for a row without that column |
| Transactions.TransformRow | app.ts:556-573 | the entry's symbol is the row's canonical symbol; its type is the lookup's truthy type for that symbol when there is one and "Missing" otherwise; its date is the trade date read as an ISO date; the name and currency are their fields or ""; the quantity, price, net sum and fee are their fields read by `parseFloat` with NaN taken as 0, so an absent, empty or non-numeric field gives 0; the account and action are the ones given |
| Transactions.TransformRowIgnoresSymbolCase | app.ts:557-558 | trimming and lower-casing the SÜMBOL field leaves the entry's symbol and type unchanged |
| Transactions.CanonicalSymbolExample | app.ts:557 | the symbol " aapl " is read as "AAPL" |
| Transactions.KeptRows | app.ts:538 | the filter never adds rows |
| Transactions.KeptRowsMembers | app.ts:538 | a row is kept exactly when its trade date and its symbol are both non-empty |
| Transactions.KeptRowsInOrder | app.ts:538 | the kept rows keep the file's order |
| Transactions.KeptRowsAppend | app.ts:538 | filtering distributes over concatenation |
| Transactions.Entry | app.ts:539-543 | the `map` step: a kept row becomes TransformRow of that row with the file's account and the row's own buy/sell decision |
| Transactions.NormalizeRows | app.ts:537-544 | a file gives at most one entry per row |
| Transactions.NormalizeAt | app.ts:537-544 | entry `i` is the `i`-th kept row transformed with that row's own buy/sell decision |
| Transactions.NormalizeAccount | app.ts:536-543 | every entry of a file carries the file's account |
| Transactions.NormalizeAppend | app.ts:537-544 | normalising distributes over concatenation of rows |
| Transactions.EmptyRowsDropped | app.ts:538 | rows with an empty or missing trade date or symbol give no entry |
| JsNumber.ParseFloat | app.ts:568-571 | text starting with a digit is read as its longest unsigned literal prefix; a `-` before a digit negates the literal after it, and a `+` before a digit is dropped |
| JsNumber.ParseFloatTrimStart | app.ts:568-571 | leading white space does not change the number read |
| JsNumber.ParseFloatNegates | app.ts:570 | a leading `-` negates the number |
| JsNumber.ParseFloatOfSigned | app.ts:570 | a `-` followed by a digit-led rest gives the rest's number negated |
| JsNumber.ParseDecimal | app.ts:568-571 | a plain decimal `i.f` is read as `i + f / 10^len(f)` |
| JsNumber.UnsignedInteger | app.ts:568 | an unsigned digit string is read whole as its value |
| JsNumber.UnsignedFraction | app.ts:568 | an unsigned `i.f` is read whole |
| JsNumber.UnsignedDecimal | app.ts:568 | the unsigned literal `i` or `i.f` is read whole |
| JsNumber.NoUnsignedPrefix | app.ts:568 | text with no digit and no `I` has no numeric prefix |
| JsNumber.CoerceNonNumeric | app.ts:568-571 | text with no digit and no `I` is NaN, so the cell falls back to 0 |
| JsNumber.Coerce | app.ts:568-571 | an absent column and text with no numeric prefix (NaN) give 0; otherwise the number read |
| JsNumber.CoerceFraction | app.ts:568 | "10.5" is 10.5 |
| JsNumber.ParseWholeAmount | app.ts:570 | "1500.00" is 1500 |
| JsNumber.CoerceNegative | app.ts:570 | "-1500.00" is -1500 |
| CivilDate.ParseIsoFields | app.ts:561 | a date-only text that parses gives a valid calendar date with a year from 0 to 9999 |
| CivilDate.ParseIsoDate | app.ts:561 | a time value is only ever the day number of a valid calendar date with a year from 0 to 9999 |
| CivilDate.ParseFormat | app.ts:561 | writing a date as YYYY-MM-DD and reading it back gives the date, and its day number |
| CivilDate.FormatParse | app.ts:561 | a 10-character text that parses is exactly the YYYY-MM-DD text of its date |
| CivilDate.ParseIsoDateExample | app.ts:561 | "2021-02-10" is day 18668 after 1970-01-01 |
| CivilDate.ParseLeapDay | app.ts:561 | "2024-02-29" is a date |
| CivilDate.InvalidDayOfMonth | app.ts:561 | "2021-02-30" is an Invalid Date |
| CivilDate.InvalidLeapDay | app.ts:561 | "2023-02-29" is an Invalid Date |
| CivilDate.InvalidIsoForms | app.ts:561 | "10.02.2021" and "" are Invalid Dates |
| CivilDate.NextDayNumber | app.ts:561 | the day after a date has the next day number |
| CivilDate.DayNumberOrder | app.ts:584 | valid dates compare by time value exactly as they compare on the calendar, and two dates have equal time values only if they are the same date |
| CivilDate.DateToExcelNumber | app.ts:669-676 | an Invalid Date gives NaN and a valid date gives a serial |
| CivilDate.DateToExcelNumberAt | app.ts:669-676 | the code's serial at a given offset from UTC is NaN exactly for an Invalid Date |
| CivilDate.ExcelNumberEastOfUtc | app.ts:669-676 | at UTC and east of it, the code's serial is the calendar serial |
| CivilDate.ExcelNumberWestOfUtc | app.ts:671-672 | west of UTC, every serial the code writes is one less than the calendar serial |
| CivilDate.ExcelNumberNextDay | app.ts:669-676 | consecutive days get consecutive serials |
| CivilDate.ExcelNumberAnchors | app.ts:670-675 | the serial of 1900-01-01 is 2, of 1900-03-01 is 61, of 1970-01-01 is 25569, and of 2021-02-10 is 44237 |
| Batch.IsCsv | app.ts:312 | a file is selected when its name ends in ".csv" |
| Batch.CsvFiles | app.ts:312 | the filter never adds files |
| Batch.CsvFilesMembers | app.ts:312 | a file is kept exactly when it was selected and its name ends in ".csv" |
| Batch.CsvFilesInOrder | app.ts:312 | the kept files keep the selection order |
| Batch.CsvFilesAppend | app.ts:312 | filtering a selection is filtering its parts and concatenating, so each file keeps its place and its multiplicity |
| Batch.SpliceStart | app.ts:347 | `splice` starts within the list: a negative index counts from the end, and a large one is clamped |
| Batch.RemoveAt | app.ts:347 | one file fewer when the start position is inside the list and none otherwise; no file is added |
| Batch.RemoveListed | app.ts:347 | removing a listed index makes the list one shorter and shifts the later files down by one |
| Batch.RemoveOne | app.ts:347 | removal takes out exactly one file, the one at the start position |
| Batch.RemoveLast | app.ts:347 | index -1 removes the last file |
| Batch.RemovePastEnd | app.ts:347 | an index at or past the end removes nothing |
| Batch.ParseFile | app.ts:527-549 | a file reads as `None` exactly when the parser fails on it, and otherwise gives at most one entry per record |
| Batch.Readings | app.ts:502-503 | there is one reading per file |
| Batch.ReadingAt | app.ts:503 | a file's reading fails exactly when the parser fails on it |
| Batch.ReadingsFail | app.ts:527-549 | some reading fails exactly when some file is unreadable |
| Batch.ReadingsSnoc | app.ts:511-512 | reading one more file adds its result at the end |
| Batch.SymbolsOf | app.ts:504 | there is one symbol per entry: symbol `i` is entry `i`'s |
| Batch.SymbolsOfAppend | app.ts:504 | the symbols of concatenated entries are the concatenated symbols |
| Batch.SymbolsOfEntries | app.ts:539-557 | the symbols of transformed rows are the rows' canonical symbols |
| Batch.SymbolsIgnoreLookup | app.ts:557 | the symbols read from a file do not depend on the lookup, so both passes see the same symbols |
| Batch.AddSymbol | app.ts:504 | `Set.add`: the symbol is in the set afterwards, the earlier members keep their places, at most one member is added, and no member is repeated |
| Batch.Collected | app.ts:501-505 | adding to the set never shrinks it |
| Batch.CollectedMembers | app.ts:504 | the collected set holds exactly the symbols seen before and those added |
| Batch.CollectedDistinct | app.ts:501-504 | each symbol is held once, and earlier symbols keep their positions |
| Batch.CollectedAppend | app.ts:502-505 | adding two runs of symbols is the same as adding their concatenation |
| Batch.PassesFail | app.ts:499-521 | both passes fail exactly when some file fails to read |
| Batch.PassesFailOnUnreadable | app.ts:519-521 | when any file fails to read, the first pass fails and the second is incomplete |
| Batch.FirstPass | app.ts:500-505 | the first pass fails exactly when some file cannot be read |
| Batch.SecondPass | app.ts:510-514 | the second pass completes exactly when every file can be read |
| Batch.JoinedAppend | app.ts:511-514 | after a complete prefix, the second pass concatenates in file order |
| Batch.SecondPassAppend | app.ts:511-514 | when every file of a first part is read, the second pass over the part and a rest is their entries concatenated in file order |
| Batch.SecondPassSnoc | app.ts:511-514 | after a complete prefix, one more file either appends its entries or stops the pass |
| Batch.JoinedStops | app.ts:511-514 | once a file fails, nothing more is pushed |
| Batch.SecondPassStops | app.ts:511-514 | the files after the first failure do not change the second pass |
| Batch.DiscoveredCoversJoined | app.ts:500-514 | what the first pass collects is the distinct symbols of what the second pass pushes |
| Batch.FirstPassCoversSecond | app.ts:500-514 | every symbol the ledger gets was offered for classification, whatever the lookup was in each pass |
| Batch.FirstPassSnoc | app.ts:502-505 | one more file either adds its symbols or fails the first pass |
| Batch.FirstPassStops | app.ts:502-505 | once a file fails, the first pass fails whatever follows |
| Batch.FirstPassStep | app.ts:502-505 | the first pass over the files up to a readable one adds that file's symbols |
| Batch.SecondPassStep | app.ts:511-514 | the second pass over the files up to a readable one appends that file's entries |
| Batch.SecondPassStopsAt | app.ts:511-514 | the second pass ends at the first unreadable file with what the files before it gave |
| Ledger.SortByDate | app.ts:584 | the sort keeps the number of entries |
| Ledger.SortPermutes | app.ts:584 | the sort rearranges the entries: none is lost, added or duplicated |
| Ledger.SortedOfDated | app.ts:584 | when every date is valid, the ledger is in date order |
| Ledger.SortStable | app.ts:584 | entries with the same date keep their relative order (Invalid Dates included) |
| Export.DecimalSeparator | app.ts:697-708 | the separator is the period exactly when the "period" button is checked; otherwise it is the comma |
| Export.HeaderRow | app.ts:621-623 | the header row is the eleven column names |
| Export.Grid | app.ts:621-642 | the grid has one row per entry plus the header |
| Export.RoundCents | app.ts:678-695 | the number of hundredths is within half a hundredth of the value, on the value's side of zero |
| Export.Shown | app.ts:678-695 | a finite number is shown within half a hundredth of its value; an infinity is shown as it is |
| Export.Written | app.ts:629-641 | the entry as its row shows it keeps the date and every text field, and each finite number moves by at most half a hundredth |
| Export.Row | app.ts:625-641 | a row has one cell per column; the first is the serial of the trade date, and the last four are numbers written with the chosen separator |
| Export.GridRows | app.ts:625-642 | row 0 is the header and row `i + 1` is entry `i`'s row |
| Export.GridIsRectangular | app.ts:621-642 | every row has one cell per column |
| Export.ReadRowOfRow | app.ts:629-641 | the entry can be read back from its row apart from the rounding of its numbers: what is read is exactly the entry as written |
| Export.ReadGridOfGrid | app.ts:621-642 | the grid holds the whole ledger, in ledger order, each entry as its row shows it |
| Text.Trim | app.ts:541 | `String.prototype.trim`, as the leading and then the trailing white space cut away; its properties are TrimShape, TrimEdges and TrimIdempotent |
| Text.TrimStartIdempotent | app.ts:557 | cutting the leading white space twice is cutting it once |
| Text.TrimShape | app.ts:557 | trim returns the part between the leading and trailing white space |
| Text.TrimEdges | app.ts:557 | a trimmed text neither starts nor ends with white space |
| Text.TrimUnpadded | app.ts:557 | a text with no white space at its ends is its own trim |
| Text.TrimPadded | app.ts:557 | one blank on each side is trimmed away |
| Text.TrimIdempotent | app.ts:557 | trimming twice is trimming once |
| Text.ToUpper | app.ts:557 | `String.prototype.toUpperCase`: the result is at least as long as the text, and every code point of it is one that upper-casing keeps |
| Text.ToLower | app.ts:541 | `String.prototype.toLowerCase`: one code point for each of the text's, each already in lower case |
| Text.ToUpperIdempotent | app.ts:557 | upper-casing twice is upper-casing once |
| Text.ToUpperOfToLower | app.ts:451 | a text and its lower-case form have the same upper-case form |
| Text.ToUpperAppend | app.ts:557 | upper-casing works code point by code point, so it distributes over concatenation |
| Text.StartsWith | tests/app.test.js:88-89 | `startsWith`: the text's first code points are the prefix; ContainsAt relates it to `includes` |
| Text.EndsWith | app.ts:312 | `endsWith`: the text's last code points are the suffix |
| Text.Contains | tests/app.test.js:88 | `includes`: a contained part is no longer than the text; ContainsAt and ContainsFound give both directions of "found at some offset" |
| Text.ContainsAt | tests/app.test.js:88 | a text contains every part found at some offset of it |
| Text.ContainsFound | tests/app.test.js:120 | a text that contains a part has it at some offset |
| Text.ContainsNeedsChar | tests/app.test.js:88 | a text that lacks one of a part's characters does not contain the part |
| Text.BeforeFirst | app.ts:536 | `split(sep)[0]`: never longer than the text; BeforeFirstShape says which prefix it is |
| Text.BeforeFirstShape | app.ts:536 | the first field is the longest prefix with no separator, and the separator follows it |
| Text.BeforeFirstOfJoin | app.ts:536 | the first field of `a + sep + b` is `a` when `a` has no separator |
| Text.BeforeFirstWithout | app.ts:536 | a text with no separator is its own first field |
| Converter.ChoiceKeepsConsistent | app.ts:428-437 | writing a non-empty choice to both tables keeps the lookup consistent with the static table and the database |
| Converter.AddSymbols | app.ts:504 | the loop adds the entries' symbols to the insertion-ordered set |
| Converter.ApplySelections | app.ts:424-439 | the selector loop gives the lookup and the database that `ApplyChoices` and `RecordChoices` specify, and keeps them consistent |
| Converter.InvestmentConverter.constructor | app.ts:245-249 | the lookup is a copy of the static table; the database is the stored one, or empty for no or unparsable text, seeded with the static table; nothing else is set |
| Converter.InvestmentConverter.LoadSymbolDatabase | app.ts:352-362 | parsed text replaces the database; no text keeps it as it is; unparsable text empties it |
| Converter.InvestmentConverter.LoadAdditionalSymbolMappings | app.ts:280-301 | the lookup becomes the static table; the database is seeded with it and written to storage |
| Converter.InvestmentConverter.HandleFileSelect | app.ts:303-315 | the file list becomes the selected files ending in ".csv", in order |
| Converter.InvestmentConverter.RemoveFile | app.ts:346-350 | the list after `splice(index, 1)`: exactly one file leaves when the start is inside the list, and nothing changes past the end |
| Converter.InvestmentConverter.DetectSymbolTypes | app.ts:368-378 | the unknown symbols are recorded; the run is suspended on the dialog, which lists them, exactly when there are any |
| Converter.InvestmentConverter.CloseClassificationModal | app.ts:416-419 | the dialog is hidden and nothing else changes; a suspended run stays suspended |
| Converter.InvestmentConverter.SaveClassification | app.ts:421-448 | the dialog's choices are written to the lookup, the database and storage, and the dialog is hidden; a suspended run resumes and concludes |
| Converter.InvestmentConverter.ProcessFiles | app.ts:493-525 | nothing happens without files; a failed first pass alerts and stops loading; unknown symbols suspend the run; otherwise the run concludes with the sorted ledger exported |
| Converter.InvestmentConverter.CollectSymbols | app.ts:500-505 | the first-pass loop computes the first pass: the distinct symbols of all files, or a failure |
| Converter.InvestmentConverter.ReadAll | app.ts:510-514 | the second-pass loop computes the second pass: the entries pushed, and whether every file was read |
| Converter.InvestmentConverter.ContinueProcessing | app.ts:510-524 | the ledger gets the second pass's entries; when complete it is sorted and exported, otherwise the user is alerted; loading stops |
| Converter.InvestmentConverter.DisplayResults | app.ts:575-584 | the ledger is rearranged into date order, stably, and the results are shown |
| Converter.InvestmentConverter.ExportToExcel | app.ts:617-642 | an empty ledger gives no download; otherwise one workbook, "Combined Transactions", holding the ledger's grid with the checked separator |
| TestDouble.OrderedAppend | tests/app.test.js:33-38 | a record under a new key appends that key to the insertion order |
| TestDouble.Table | tests/app.test.js:32-40 | every listed symbol is in the table, and every symbol of the table is listed with the type the table gives it |
| TestDouble.TableAt | tests/app.test.js:32-40 | a symbol not listed before gets the type listed for it, which for the distinct symbols of a parsed object is every listing |
| TestDouble.SeedDbKeys | tests/app.test.js:32-40 | seeding adds exactly the listed symbols |
| TestDouble.SeedDb | tests/app.test.js:32-40 | seeding keeps every record the database holds, and a record it adds is filed under its own symbol and stamped with the current time |
| TestDouble.SeedDbIsSeeded | tests/app.test.js:32-40 | visiting the listing in order seeds the database exactly as the browser class seeds it |
| TestDouble.Seed | tests/app.test.js:32-40 | the loop appends each new listed symbol to the key order, with a record stamped with the current time, and keeps the order in step with the keys |
| TestDouble.SeedingStep | tests/app.test.js:32-40 | one visit of the loop keeps the key order in step with the database seeded so far |
| TestDouble.SeedingListing | tests/app.test.js:32-40 | one more listing adds its symbol with a fresh record when the database lacks it, and appends it to the new keys |
| TestDouble.RebuiltKeys | tests/app.test.js:59-63 | the rebuilt lookup has an entry for exactly the records' symbols |
| TestDouble.RebuiltFirstTyped | tests/app.test.js:59-63 | a symbol's type comes from its first record with a non-empty type, in database order |
| TestDouble.RebuiltUntyped | tests/app.test.js:59-63 | a symbol none of whose records has a type maps to "" |
| TestDouble.Rebuilt | tests/app.test.js:59-63 | every symbol of the rebuilt lookup has a record of that symbol with the type it maps to |
| TestDouble.RebuiltSnoc | tests/app.test.js:60-62 | one more record sets its symbol's type unless the lookup already holds a truthy one |
| TestDouble.InvestmentConverter.Records | tests/app.test.js:59 | the records are listed in key order, one per key |
| TestDouble.InvestmentConverter.constructor | tests/app.test.js:2-13 | the lookup is left empty, because it is rebuilt before the mappings file is merged in; the database is seeded from the file, or stays empty when the file cannot be read |
| TestDouble.InvestmentConverter.LoadSymbolDatabase | tests/app.test.js:66-69 | the mock starts from an empty database |
| TestDouble.InvestmentConverter.UpdateSymbolMappings | tests/app.test.js:54-64 | the lookup is rebuilt from the records in database order |
| TestDouble.InvestmentConverter.LoadAdditionalSymbolMappings | tests/app.test.js:24-47 | the listed symbols the database lacks are added in listing order, with their listed types and the current time, and an unreadable file changes nothing |
| TestDouble.IsTicker | tests/app.test.js:99 | `/^[A-Z0-9]+$/`: such a name is not empty and holds no blank |
| TestDouble.LooksLikeEtf | tests/app.test.js:88-89 | the fund patterns; a name that has one is at least two code points long |
| TestDouble.LooksLikeBond | tests/app.test.js:94 | the bond patterns; a name that has one is at least four code points long |
| TestDouble.DetectSymbolTypeByPattern | tests/app.test.js:79-104 | the checks are made in the code's order: Crypto exactly for the ten crypto tickers; ETF exactly for a fund pattern in a name that is no crypto ticker; Bond exactly for a bond pattern in a name that is neither; Stock exactly for a ticker of at most 10 letters and digits that is none of these; the guess is one of the four types or null |
| TestDouble.PatternNone | tests/app.test.js:79-104 | no guess is made exactly when the upper-cased symbol is no crypto ticker, has no fund or bond pattern, and is not a ticker of at most 10 letters and digits |
| TestDouble.PatternIgnoresCase | tests/app.test.js:80 | the guess ignores case |
| TestDouble.CryptoBeforeStock | tests/app.test.js:83-100 | a crypto ticker is guessed Crypto, though it also has a Stock's shape |
| TestDouble.PatternOfEtfName | tests/app.test.js:88-89 | "SPY ETF" is an ETF |
| TestDouble.PatternOfTreasury | tests/app.test.js:94 | "US_TREASURY" is a Bond |
| TestDouble.PatternOfPlainTicker | tests/app.test.js:99-100 | "UNKNOWN1" is a Stock |
| TestDouble.PatternOfLowerCrypto | tests/app.test.js:80-84 | "btc" is Crypto |
| TestDouble.PatternOfDottedTicker | tests/app.test.js:99-103 | "BRK.B" matches no pattern and gives null |
| TestDouble.AccountActionOfInfix | tests/app.test.js:120 | an account name containing "buy" in any case gives Buy for the whole file |
| TestDouble.AccountActionWithoutB | tests/app.test.js:120 | an account name without a b gives Sell |
| TestDouble.AccountAction | tests/app.test.js:120 | the file is a Buy exactly when some three consecutive characters of the account name lower-case to "buy" |
| TestDouble.BuyFound | tests/app.test.js:120 | `includes('buy')` on the lower-cased name holds exactly when some three consecutive characters of the name lower-case to "buy" |
| TestDouble.TypeOrOther | tests/app.test.js:135 | the type is the truthy type the lookup holds, or "Other" |
| TestDouble.TransformRow | tests/app.test.js:133-150 | the entry's symbol is the row's canonical symbol; its type is the lookup's truthy type when there is one and "Other" otherwise; its date is the trade date read as an ISO date; the name is the VÄRTPABER field and the currency its field, or ""; the quantity, price, net sum and fee are their fields read by `parseFloat` with NaN taken as 0, so an absent, empty or non-numeric field gives 0; the account and action are the ones given |
| TestDouble.TransformRowVersusBrowser | tests/app.test.js:133-150 | the entry equals the browser class's, except that the type is "Other" where the browser has "Missing" and the name is read from VÄRTPABER; a row with only the broker's VÄÄRTPABER column gets an empty name |
| TestDouble.ParseRows | tests/app.test.js:117-124 | a file gives at most one entry per row |
| TestDouble.ParseRowsUniform | tests/app.test.js:117-124 | every entry carries the file's account and the one decision drawn from it; under the lookup the constructor leaves, every type is "Other" |
| TestDouble.ParseFile | tests/app.test.js:106-131 | a file gives at most the two mock entries |
| TestDouble.MockRowsKept | tests/app.test.js:109-114 | both mock rows pass the empty-row filter |
| TestDouble.MockFileEntries | tests/app.test.js:108-124 | every file reads as the two mock rows, transformed in order with its account and decision |

## Behaviour of the code worth knowing

- Cancelling the dialog only hides it (app.ts:416-419). The suspended run does not resume and stays suspended until the next save.
- The results table shows quantities with six fraction digits and prices with four (app.ts:608-611). The sheet writes all four numbers with exactly two (app.ts:678-695).
- The date cell holds the day serial (app.ts:627-630, 669-676). The suite in tests/test-runner.js:264-265 expects an `=DATE(y;m;d)` formula there instead.
- `parseFloat` can give Infinity, so entry numbers are not always finite.
- When the second pass fails, the `catch` alerts (app.ts:519-521). The ledger keeps the entries pushed before the failure, and it is neither sorted nor exported.
- The constructor loads the stored database, but the session lookup is a copy of the static table only (app.ts:283). A symbol the user classified in an earlier session is escalated again.
- The serial of 1900-01-01 is 2, and every date before 1900-03-01 is one above the 1900 system's serial. The code adds 2 to the day count (app.ts:675).

## Left out

- The page itself is left out. That covers the DOM, drag-and-drop, the file list, the results table, the loading indicator and `alert`. Only the state the model needs is kept, as `Converter.Page`.
- The CSV parser, the XLSX library and the download file name (which contains a timestamp) are left out. Parsed files and workbooks are values.
- The pass over the date column that gives each cell the `dd.mm.yyyy` format and turns the serial text back into a number (app.ts:648-660) is left out. The model's date cell holds the serial itself.
- The browser's storage is left out, along with the JSON text of the database. `Converter.Stored` says whether there is text, and whether it parses to a database. JSON `null` and non-record values are not modelled.
- The Intl number formatting in `formatEstonianNumber`, `formatFileSize` and the API stubs are left out, because they concern presentation or are unused.
- Export.Row: a numeric cell carries the rounded number and the separator, not the localised text.
- Export.Row: the date cell holds the calendar serial of the trade date (`CivilDate.DateToExcelNumber`). This equals the code's serial at UTC and east of it (`CivilDate.ExcelNumberEastOfUtc`). West of UTC the code writes a serial one lower (see Findings).
- Export.Shown: thousands grouping, the text of the separators and the sign of a rounded negative zero are not modelled.
- Ledger.SortByDate: the model fixes one order for every ledger, stable by date. When valid and Invalid Dates are mixed, the code's comparator returns NaN for some pairs. It is then not a consistent comparator, and ECMAScript leaves the order the browser's sort produces up to the implementation. The model's order is one possible result.
- Text.ToUpper, Text.ToLower: case mapping is exact only for U+0000..U+00FF.
- JsNumber.ParseFloat: values are exact reals, not binary64 doubles.
- CivilDate.ParseIsoDate: only the ISO date-only forms are read. Other text, including date-time forms and V8's lenient legacy formats, is an Invalid Date. V8 rolls an overflowing day over into the next month; the model treats that as invalid.
- Time zones: the offset from UTC is a parameter of `CivilDate.DateToExcelNumberAt`, the code's `dateToExcelNumber`. The export uses the calendar serial instead (see Export.Row above).
- Converter.InvestmentConverter.ProcessFiles: the passes are sequential. A second file event arriving while `parseFile` is pending is not modelled.
- One `now` is used for each call that stamps records.
- JavaScript's rule that integer-like keys come first in object order is left out. Key order matters only in the test double, which keeps insertion order.
- The model reads each file with the same result in both passes. A file that fails only on the second read is not covered.
- Converter.InvestmentConverter.SaveClassification: the loop over the dialog's selectors is the module-level `Converter.ApplySelections`. The loops of `processFiles` are `CollectSymbols` and `ReadAll`. Each is run by the class method that owns it.
- Converter.InvestmentConverter.constructor: the static table is a constant field copied into the lookup. Its 191 entries are not reasoned about one by one.
- TestDouble.ParseFile: the fields of the mock entries are not computed one by one; the lemmas state that they are the two mock rows transformed.
- TestDouble.InvestmentConverter.LoadAdditionalSymbolMappings: the listing is what `Object.entries` yields, so its symbols are distinct. A key the mappings file repeats is resolved by `JSON.parse`, which keeps the last value; that parse is not modelled.
- TestDouble.InvestmentConverter: `detectSymbolTypes`, `saveSymbolDatabase` and the other empty test stubs are not modelled.

## Findings

| source | as written | input that shows it | evidently intended | confidence | as-written member | corrected member |
|---|---|---|---|---|---|---|
| app.ts:669-676 | whole days between the trade date's time value (UTC midnight) and `new Date(1900, 0, 1)` (local midnight), plus 2 | trade date "2021-02-10" on a machine west of UTC: the serial is 44236, which the sheet shows as 09.02.2021 (CivilDate.ExcelNumberWestOfUtc) | the serial of the trade date's calendar day, 44237 | not executed | CivilDate.DateToExcelNumberAt | CivilDate.DateToExcelNumber |
