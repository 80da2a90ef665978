/** The `InvestmentConverter` object of the page: its file list, its symbol
    tables, the classification dialog, and the run that reads the files,
    asks the user about unknown symbols, sorts the combined ledger and hands
    the workbook to the download. */
module Converter {
  import opened Wrappers
  import Text
  import Symbols
  import Batch
  import Ledger
  import Export

  type Entry = Batch.Entry

  /** What the browser's storage holds under the database key: nothing (or
      the empty string), text that is not JSON, or a parsed database. */
  datatype Stored = Absent | Unparsable | Parsed(db: Symbols.Database)

  /** A workbook handed to the download: one sheet and its grid of cells. */
  datatype Workbook = Workbook(sheet: string, grid: seq<seq<Export.Cell>>)

  /** What the page shows: the classification dialog (the symbols it lists,
      one selector each, and whether it is open), the loading indicator, the
      results table, the error alerts raised so far and the workbooks handed
      to the download, in order. */
  datatype Page = Page(dialogSymbols: seq<string>, dialogVisible: bool, loading: bool,
                       displayed: bool, alerts: nat, downloads: seq<Workbook>)

  /** The workbooks `exportToExcel` writes for a ledger: none for an empty
      ledger, else one sheet of the ledger's grid. */
  function Exported(ledger: seq<Entry>, sep: Export.Separator): seq<Workbook>
  {
    if ledger == [] then [] else [Workbook(Export.SheetName, Export.Grid(ledger, sep))]
  }

  /** The session lookup `m` agrees with the static table and the database:
      it has every static symbol, the database has a record for each, and
      each entry of `m` is either the static type or the non-empty type of
      the record saved under that symbol. */
  predicate Consistent(statics: Symbols.Mapping, m: Symbols.Mapping, db: Symbols.Database)
  {
    statics.Keys <= db.Keys &&
    statics.Keys <= m.Keys &&
    forall k :: k in m ==>
      (k in statics && m[k] == statics[k]) ||
      (k in db && db[k].symbol == k && db[k].kind == m[k] && m[k] != "")
  }

  /** Writing a non-empty choice for `u` to both tables keeps them consistent. */
  lemma ChoiceKeepsConsistent(statics: Symbols.Mapping, m: Symbols.Mapping, db: Symbols.Database, u: string, t: string, now: int)
    requires Consistent(statics, m, db) && t != ""
    ensures Consistent(statics, m[u := t], db[u := Symbols.SymbolInfo(u, t, now)])
  {
  }

  /** `transactions.forEach(t => allSymbols.add(t.Symbol))`: the entries'
      symbols are added in turn to the insertion-ordered set `seen`. */
  method AddSymbols(seen: seq<string>, ts: seq<Entry>) returns (r: seq<string>)
    ensures r == Batch.Collected(seen, Batch.SymbolsOf(ts))
  {
    r := seen;
    var j := 0;
    while j < |ts|
      invariant 0 <= j <= |ts|
      invariant r == Batch.Collected(seen, Batch.SymbolsOf(ts[..j]))
    {
      assert ts[..j + 1][..j] == ts[..j];
      r := Batch.AddSymbol(r, ts[j].symbol);
      j := j + 1;
    }
    assert ts[..j] == ts;
  }

  /** The `forEach` over the dialog's selectors in `saveClassification`:
      for each symbol given a type, the type is written to the lookup `m0`
      and a record stamped `now` to the database `db0`, under the symbol's
      upper-case form; the tables stay consistent with the static table. */
  method ApplySelections(statics: Symbols.Mapping, m0: Symbols.Mapping, db0: Symbols.Database,
                         symbols: seq<string>, types: seq<string>, now: int)
      returns (m: Symbols.Mapping, db: Symbols.Database)
    requires |types| == |symbols| && Consistent(statics, m0, db0)
    ensures m == Symbols.ApplyChoices(m0, symbols, types)
    ensures db == Symbols.RecordChoices(db0, symbols, types, now)
    ensures Consistent(statics, m, db)
  {
    m, db := m0, db0;
    var i := 0;
    while i < |symbols|
      invariant 0 <= i <= |symbols|
      invariant m == Symbols.ApplyChoices(m0, symbols[..i], types[..i])
      invariant db == Symbols.RecordChoices(db0, symbols[..i], types[..i], now)
      invariant Consistent(statics, m, db)
    {
      Symbols.ChoicesStep(m0, db0, symbols, types, now, i);
      if types[i] != "" {
        var u := Text.ToUpper(symbols[i]);
        ChoiceKeepsConsistent(statics, m, db, u, types[i], now);
        m := m[u := types[i]];
        db := db[u := Symbols.SymbolInfo(u, types[i], now)];
      }
      i := i + 1;
    }
    assert symbols[..i] == symbols && types[..i] == types;
  }

  class InvestmentConverter {
    /** The static table `SYMBOL_MAPPINGS` the object is built from. */
    const statics: Symbols.Mapping
    /** The selected `.csv` files. */
    var files: seq<Batch.SourceFile>
    /** `symbolTypeMapping`: upper-case symbol to type, for this session. */
    var symbolTypeMapping: Symbols.Mapping
    /** `symbolDatabase`: the records kept across sessions. */
    var symbolDatabase: Symbols.Database
    /** What was last written to the browser's storage. */
    var storage: Symbols.Database
    /** `processedData`: the ledger of the last run. */
    var processedData: seq<Entry>
    /** `unknownSymbols`: the symbols the last detection found unknown. */
    var unknownSymbols: seq<string>
    /** `classificationResolve` is pending: a run is suspended on the
        dialog's promise and resumes on save. */
    var awaiting: bool
    var page: Page

    predicate Valid()
      reads this
    {
      storage == symbolDatabase && Consistent(statics, symbolTypeMapping, symbolDatabase)
    }

    /** The state a run reaches once its second pass has run with the lookup
        as it is now, from the ledger `data0` and the page `page0`: when
        every file is read, the ledger is the pushed entries sorted by date,
        and it is shown and exported with the decimal separator `checked`
        asks for; when a file cannot be read, the entries pushed before it
        stay, unsorted, and one alert is raised. Either way the loading
        indicator is hidden and the dialog is as it was. */
    predicate Concluded(data0: seq<Entry>, page0: Page, checked: Option<string>)
      reads this
    {
      var p := Batch.SecondPass(symbolTypeMapping, files);
      if p.complete then
        processedData == Ledger.SortByDate(data0 + p.entries) &&
        page == page0.(loading := false, displayed := true,
                       downloads := page0.downloads + Exported(processedData, Export.DecimalSeparator(checked)))
      else
        processedData == data0 + p.entries &&
        page == page0.(loading := false, alerts := page0.alerts + 1)
    }

    /** `constructor`: the stored database is loaded, then the static table
        becomes the session lookup and seeds the database, which is written
        back. */
    constructor (stored: Stored, now: int)
      ensures Valid()
      ensures statics == Symbols.StaticMappings && symbolTypeMapping == Symbols.StaticMappings
      ensures symbolDatabase == Symbols.Seeded(if stored.Parsed? then stored.db else map[], Symbols.StaticMappings, now)
      ensures files == [] && processedData == [] && unknownSymbols == [] && !awaiting
      ensures page == Page([], false, false, false, 0, [])
    {
      statics := Symbols.StaticMappings;
      files := [];
      symbolTypeMapping := map[];
      symbolDatabase := map[];
      storage := map[];
      processedData := [];
      unknownSymbols := [];
      awaiting := false;
      page := Page([], false, false, false, 0, []);
      new;
      LoadSymbolDatabase(stored);
      LoadAdditionalSymbolMappings(now);
    }

    /** `loadSymbolDatabase`: a parsed database replaces the current one, text
        that does not parse empties it, and nothing stored leaves it as it
        is. */
    method LoadSymbolDatabase(stored: Stored)
      modifies this`symbolDatabase
      ensures symbolDatabase == match stored
                                case Absent => old(symbolDatabase)
                                case Unparsable => map[]
                                case Parsed(db) => db
    {
      match stored
      case Absent =>
      case Unparsable =>
        symbolDatabase := map[];
      case Parsed(db) =>
        symbolDatabase := db;
    }

    /** `loadAdditionalSymbolMappings`: the lookup becomes a copy of the
        static table; every static symbol without a record gets one stamped
        `now`, records already there are kept, in whatever order the table
        is visited; and the database is saved. */
    method LoadAdditionalSymbolMappings(now: int)
      modifies this`symbolTypeMapping, this`symbolDatabase, this`storage
      ensures Valid()
      ensures symbolTypeMapping == statics
      ensures symbolDatabase == Symbols.Seeded(old(symbolDatabase), statics, now)
    {
      symbolTypeMapping := statics;
      var db := symbolDatabase;
      var todo := statics.Keys;
      ghost var done: set<string> := {};
      while todo != {}
        invariant todo <= statics.Keys && done == statics.Keys - todo
        invariant db == Symbols.Seeded(old(symbolDatabase), map k | k in done :: statics[k], now)
        decreases todo
      {
        var k :| k in todo;
        if k !in db {
          db := db[k := Symbols.SymbolInfo(k, statics[k], now)];
        }
        todo := todo - {k};
        done := done + {k};
      }
      assert (map k | k in done :: statics[k]) == statics;
      symbolDatabase := db;
      storage := db;
    }

    /** `handleFileSelect`: the file list becomes the selected files that end
        in `.csv`, in the order given. */
    method HandleFileSelect(selected: seq<Batch.SourceFile>)
      modifies this`files
      ensures files == Batch.CsvFiles(selected)
      ensures forall f :: f in files <==> f in selected && Batch.IsCsv(f)
    {
      files := Batch.CsvFiles(selected);
      forall f
        ensures f in files <==> f in selected && Batch.IsCsv(f)
      {
        Batch.CsvFilesMembers(selected, f);
      }
    }

    /** `removeFile`: `splice(index, 1)`. An index inside the list removes
        that file and keeps the others in order; a negative index counts
        from the end; an index past the end changes nothing. */
    method RemoveFile(index: int)
      modifies this`files
      ensures files == Batch.RemoveAt(old(files), index)
      ensures index >= |old(files)| ==> files == old(files)
      ensures Batch.SpliceStart(|old(files)|, index) < |old(files)| ==>
                multiset(files) + multiset{old(files)[Batch.SpliceStart(|old(files)|, index)]} == multiset(old(files))
    {
      var before := files;
      files := Batch.RemoveAt(files, index);
      if index >= |before| {
        Batch.RemovePastEnd(before, index);
      }
      if Batch.SpliceStart(|before|, index) < |before| {
        Batch.RemoveOne(before, index);
      }
    }

    /** `detectSymbolTypes`: the symbols the lookup has no type for are
        recorded; when there are any, the dialog lists them and the caller is
        suspended until the user saves. */
    method DetectSymbolTypes(symbols: seq<string>) returns (suspended: bool)
      modifies this`unknownSymbols, this`awaiting, this`page
      ensures unknownSymbols == Symbols.UnknownSymbols(symbolTypeMapping, symbols)
      ensures suspended <==> unknownSymbols != []
      ensures suspended ==> awaiting && page == old(page).(dialogSymbols := unknownSymbols, dialogVisible := true)
      ensures !suspended ==> awaiting == old(awaiting) && page == old(page)
    {
      unknownSymbols := Symbols.UnknownSymbols(symbolTypeMapping, symbols);
      suspended := unknownSymbols != [];
      if suspended {
        page := page.(dialogSymbols := unknownSymbols, dialogVisible := true);
        awaiting := true;
      }
    }

    /** `closeClassificationModal` (the cancel button): the dialog is hidden
        and nothing else happens; a suspended run stays suspended. */
    method CloseClassificationModal()
      modifies this`page
      ensures page == old(page).(dialogVisible := false)
    {
      page := page.(dialogVisible := false);
    }

    /** `saveClassification`: each selector with a type writes that type to
        the lookup and a record stamped `now` to the database, in dialog
        order; the database is saved, the dialog hidden, and a suspended run
        resumes with the new lookup. */
    method SaveClassification(types: seq<string>, now: int, checked: Option<string>)
      requires Valid() && |types| == |page.dialogSymbols|
      modifies this`symbolTypeMapping, this`symbolDatabase, this`storage, this`awaiting
      modifies this`processedData, this`page
      ensures Valid()
      ensures symbolTypeMapping == Symbols.ApplyChoices(old(symbolTypeMapping), old(page.dialogSymbols), types)
      ensures symbolDatabase == Symbols.RecordChoices(old(symbolDatabase), old(page.dialogSymbols), types, now)
      ensures !awaiting
      ensures old(awaiting) ==> Concluded(old(processedData), old(page).(dialogVisible := false), checked)
      ensures !old(awaiting) ==> processedData == old(processedData) && page == old(page).(dialogVisible := false)
    {
      var m, db := ApplySelections(statics, symbolTypeMapping, symbolDatabase, page.dialogSymbols, types, now);
      symbolTypeMapping := m;
      symbolDatabase := db;
      storage := db;
      page := page.(dialogVisible := false);
      if awaiting {
        awaiting := false;
        ContinueProcessing(checked);
      }
    }

    /** `processFiles`. With no files, nothing happens. Otherwise the ledger
        is emptied and the loading indicator shown; the first pass collects
        the files' distinct symbols (a file that cannot be read raises an
        alert and ends the run); the unknown ones are escalated, which
        suspends the run, and with none unknown the run goes on at once. */
    method ProcessFiles(checked: Option<string>)
      modifies this`processedData, this`unknownSymbols, this`awaiting, this`page
      ensures old(files) == [] ==>
                processedData == old(processedData) && unknownSymbols == old(unknownSymbols) &&
                awaiting == old(awaiting) && page == old(page)
      ensures old(files) != [] && Batch.FirstPass(symbolTypeMapping, files).None? ==>
                processedData == [] && unknownSymbols == old(unknownSymbols) && awaiting == old(awaiting) &&
                page == old(page).(loading := false, alerts := old(page).alerts + 1)
      ensures old(files) != [] && Batch.FirstPass(symbolTypeMapping, files).Some? ==>
                unknownSymbols == Symbols.UnknownSymbols(symbolTypeMapping, Batch.FirstPass(symbolTypeMapping, files).value)
      ensures old(files) != [] && Batch.FirstPass(symbolTypeMapping, files).Some? && unknownSymbols != [] ==>
                processedData == [] && awaiting &&
                page == old(page).(loading := true, dialogSymbols := unknownSymbols, dialogVisible := true)
      ensures old(files) != [] && Batch.FirstPass(symbolTypeMapping, files).Some? && unknownSymbols == [] ==>
                awaiting == old(awaiting) && Concluded([], old(page), checked)
    {
      if files == [] {
        return;
      }
      page := page.(loading := true);
      processedData := [];
      var first := CollectSymbols();
      if first.None? {
        page := page.(loading := false, alerts := page.alerts + 1);
        return;
      }
      var suspended := DetectSymbolTypes(first.value);
      if suspended {
        return;
      }
      ContinueProcessing(checked);
    }

    /** The first pass of `processFiles`: every file is read in turn and the
        symbols of its entries are added to a set that keeps insertion
        order; a file that cannot be read ends the pass with no result. */
    method CollectSymbols() returns (r: Option<seq<string>>)
      ensures r == Batch.FirstPass(symbolTypeMapping, files)
    {
      var seen: seq<string> := [];
      var i := 0;
      while i < |files|
        invariant 0 <= i <= |files|
        invariant Batch.FirstPass(symbolTypeMapping, files[..i]) == Some(seen)
      {
        var read := Batch.ParseFile(symbolTypeMapping, files[i]);
        if read.None? {
          Batch.PassesFailOnUnreadable(symbolTypeMapping, files, i);
          return None;
        }
        Batch.FirstPassStep(symbolTypeMapping, files, i, seen);
        seen := AddSymbols(seen, read.value);
        i := i + 1;
      }
      assert files[..i] == files;
      return Some(seen);
    }

    /** The second pass of `processFiles`: every file is read in turn and its
        entries are pushed, until a file cannot be read. */
    method ReadAll() returns (p: Batch.Pass)
      ensures p == Batch.SecondPass(symbolTypeMapping, files)
    {
      var entries: seq<Entry> := [];
      var i := 0;
      while i < |files|
        invariant 0 <= i <= |files|
        invariant Batch.SecondPass(symbolTypeMapping, files[..i]) == Batch.Pass(entries, true)
      {
        var read := Batch.ParseFile(symbolTypeMapping, files[i]);
        if read.None? {
          Batch.SecondPassStopsAt(symbolTypeMapping, files, i, entries);
          return Batch.Pass(entries, false);
        }
        Batch.SecondPassStep(symbolTypeMapping, files, i, entries);
        entries := entries + read.value;
        i := i + 1;
      }
      assert files[..i] == files;
      return Batch.Pass(entries, true);
    }

    /** What follows `await this.detectSymbolTypes(...)` in `processFiles`:
        the second pass reads every file again with the current lookup and
        pushes its entries onto the ledger; then the ledger is sorted, shown
        and exported, or, when a file cannot be read, an alert is raised.
        The loading indicator is hidden in both cases. */
    method ContinueProcessing(checked: Option<string>)
      modifies this`processedData, this`page
      ensures Concluded(old(processedData), old(page), checked)
    {
      var p := ReadAll();
      processedData := processedData + p.entries;
      if p.complete {
        DisplayResults();
        ExportToExcel(checked);
      } else {
        page := page.(alerts := page.alerts + 1);
      }
      page := page.(loading := false);
    }

    /** The sort in `displayResults`: the ledger is put in date order, as a
        stable sort (entries with the same date keep their order), without
        losing or adding an entry; the results are shown. */
    method DisplayResults()
      modifies this`processedData, this`page
      ensures processedData == Ledger.SortByDate(old(processedData))
      ensures multiset(processedData) == multiset(old(processedData))
      ensures Ledger.Dated(old(processedData)) ==> Ledger.Sorted(processedData)
      ensures forall d :: Ledger.OnDate(processedData, d) == Ledger.OnDate(old(processedData), d)
      ensures page == old(page).(displayed := true)
    {
      var before := processedData;
      processedData := Ledger.SortByDate(before);
      page := page.(displayed := true);
      Ledger.SortPermutes(before);
      if Ledger.Dated(before) {
        Ledger.SortedOfDated(before);
      }
      forall d
        ensures Ledger.OnDate(processedData, d) == Ledger.OnDate(before, d)
      {
        Ledger.SortStable(before, d);
      }
    }

    /** The grid part of `exportToExcel`: nothing for an empty ledger;
        otherwise the header row and one row per entry, in ledger order,
        make the one sheet of the workbook handed to the download. */
    method ExportToExcel(checked: Option<string>)
      modifies this`page
      ensures page == old(page).(downloads := old(page).downloads + Exported(processedData, Export.DecimalSeparator(checked)))
    {
      if processedData == [] {
        return;
      }
      var sep := Export.DecimalSeparator(checked);
      var grid := [Export.HeaderRow()];
      var i := 0;
      while i < |processedData|
        invariant 0 <= i <= |processedData|
        invariant grid == Export.Grid(processedData[..i], sep)
      {
        assert processedData[..i + 1][..i] == processedData[..i];
        grid := grid + [Export.Row(processedData[i], sep)];
        i := i + 1;
      }
      assert processedData[..i] == processedData;
      page := page.(downloads := page.downloads + [Workbook(Export.SheetName, grid)]);
    }
  }
}
