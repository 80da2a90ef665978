/** One broker CSV file's rows turned into ledger transactions: the account
    name taken from the file name, the filter that drops empty rows, the
    buy/sell decision, and `transformRow`. A parsed CSV row is a map from
    column header to field text; a header the row lacks is `undefined`. */
module Transactions {
  import opened Wrappers
  import Text
  import JsNumber
  import CivilDate
  import Symbols
  import Sequences

  /** A CSV record as the parser hands it over, keyed by column header. */
  type RawRow = map<string, string>

  const TradeDateColumn := "TEHINGUPÄEV"
  const KindColumn := "TEHING"
  const SymbolColumn := "SÜMBOL"
  const NameColumn := "VÄÄRTPABER"
  const CurrencyColumn := "VALUUTA"
  const AmountColumn := "KOGUS"
  const PriceColumn := "HIND"
  const NetColumn := "NETOSUMMA"
  const FeeColumn := "TEENUSTASU"

  datatype Action = Buy | Sell

  /** A ledger entry (`ProcessedTransaction`). `date` is the day number of the
      trade date, `None` for an Invalid Date. */
  datatype Transaction = Transaction(
    date: Option<int>,
    account: string,
    assetType: string,
    action: Action,
    symbol: string,
    name: string,
    currency: string,
    amount: JsNumber.Num,
    price: JsNumber.Num,
    cost: JsNumber.Num,
    fee: JsNumber.Num)

  function Field(row: RawRow, column: string): Option<string>
  {
    if column in row then Some(row[column]) else None
  }

  /** `row[column] || ''`. */
  function TextOf(row: RawRow, column: string): string
  {
    Field(row, column).GetOr("")
  }

  /** A field JavaScript treats as true: present and not empty. */
  predicate Filled(row: RawRow, column: string)
  {
    column in row && row[column] != ""
  }

  // ---------------------------------------------------------------------
  // Account name

  predicate IsExtensionChar(c: char)
  {
    c != '/' && c != '.'
  }

  /** The length of the longest suffix of `s` free of `/` and `.`. */
  function ExtensionRun(s: string): (n: nat)
    ensures n <= |s|
  {
    if |s| > 0 && IsExtensionChar(s[|s| - 1]) then 1 + ExtensionRun(s[..|s| - 1]) else 0
  }

  /** `name.replace(/\.[^/.]+$/, '')`: a final `.` followed by one or more
      characters other than `/` and `.` is removed; otherwise the name is
      kept. */
  function StripExtension(name: string): (r: string)
    ensures Text.StartsWith(name, r)
  {
    var n := ExtensionRun(name);
    if 0 < n < |name| && name[|name| - n - 1] == '.' then name[..|name| - n - 1] else name
  }

  /** The file name of the test suite's export. */
  lemma AccountNameTestExample()
    ensures AccountName("TestAccount_transactions.csv") == "TestAccount"
  {
    var stem := "TestAccount" + "_" + "transactions";
    assert stem == "TestAccount_transactions";
    assert stem + "." + "csv" == "TestAccount_transactions.csv";
    AccountOfExportName("TestAccount", "transactions", "csv");
  }

  /** Removing the extension inverts adding one. */
  lemma StripAddedExtension(stem: string, ext: string)
    requires ext != [] && forall i :: 0 <= i < |ext| ==> IsExtensionChar(ext[i])
    ensures StripExtension(stem + "." + ext) == stem
  {
    var s := stem + "." + ext;
    ExtensionRunOf(stem + ".", ext);
    assert s == (stem + ".") + ext;
    assert s[|s| - |ext| - 1] == '.';
    assert s[..|s| - |ext| - 1] == stem;
  }

  lemma {:induction false} ExtensionRunOf(front: string, ext: string)
    requires front != [] && !IsExtensionChar(front[|front| - 1])
    requires forall i :: 0 <= i < |ext| ==> IsExtensionChar(ext[i])
    ensures ExtensionRun(front + ext) == |ext|
  {
    var s := front + ext;
    if ext == [] {
      assert s == front;
    } else {
      assert s[..|s| - 1] == front + ext[..|ext| - 1];
      ExtensionRunOf(front, ext[..|ext| - 1]);
    }
  }

  /** A name without an extension to remove is kept whole: one with no `.`
      at all, for example. */
  lemma StripWithoutDot(name: string)
    requires '.' !in name
    ensures StripExtension(name) == name
  {
  }

  /** The account a file's rows belong to: the text before the first `_` of
      the file name without its extension. It is a prefix of the file name
      and holds no `_`. */
  function AccountName(fileName: string): (r: string)
    ensures '_' !in r
    ensures Text.StartsWith(fileName, r)
  {
    var stem := StripExtension(fileName);
    Text.BeforeFirstShape(stem, '_');
    var r := Text.BeforeFirst(stem, '_');
    assert fileName[..|r|] == stem[..|r|];
    r
  }

  /** For a broker export named `<account>_<rest>.<ext>` the account is
      `<account>`. */
  lemma AccountOfExportName(account: string, rest: string, ext: string)
    requires '_' !in account
    requires ext != [] && forall i :: 0 <= i < |ext| ==> IsExtensionChar(ext[i])
    ensures AccountName(account + "_" + rest + "." + ext) == account
  {
    StripAddedExtension(account + "_" + rest, ext);
    assert account + "_" + rest == account + ['_'] + rest;
    Text.BeforeFirstOfJoin(account, '_', rest);
  }

  /** The file name of a broker export. */
  lemma AccountNameExample()
    ensures AccountName("LHV_2025_Metallid.csv") == "LHV"
  {
    var stem := "LHV" + "_" + "2025_Metallid";
    assert stem == "LHV_2025_Metallid";
    assert stem + "." + "csv" == "LHV_2025_Metallid.csv";
    AccountOfExportName("LHV", "2025_Metallid", "csv");
  }

  // ---------------------------------------------------------------------
  // Rows

  /** A row is kept when both its trade date and its symbol are filled:
      exactly when both fields read as non-empty text. */
  predicate KeepRow(row: RawRow): (r: bool)
    ensures r <==> TextOf(row, TradeDateColumn) != "" && TextOf(row, SymbolColumn) != ""
  {
    Filled(row, TradeDateColumn) && Filled(row, SymbolColumn)
  }

  /** `(row.TEHING || '').toLowerCase().trim() === 'ost' ? 'Buy' : 'Sell'`:
      a purchase exactly when the row has a kind whose trimmed text is "ost"
      in some mix of cases. */
  function ActionOf(row: RawRow): (r: Action)
    ensures r == Buy <==> KindColumn in row && Text.ToLower(Text.Trim(row[KindColumn])) == "ost"
  {
    Text.TrimOfLower(TextOf(row, KindColumn));
    if Text.Trim(Text.ToLower(TextOf(row, KindColumn))) == "ost" then Buy else Sell
  }

  /** "ost" is a purchase. */
  lemma ActionOfOst()
    ensures ActionOf(map[KindColumn := "ost"]) == Buy
  {
    Text.TrimUnpadded("ost");
  }

  /** "OST" in capitals is a purchase too. */
  lemma ActionOfCapitalOst()
    ensures ActionOf(map[KindColumn := "OST"]) == Buy
  {
    assert Text.ToLower("OST") == "ost";
    Text.TrimUnpadded("ost");
  }

  /** So is "ost" between blanks. */
  lemma ActionOfPaddedOst()
    ensures ActionOf(map[KindColumn := " Ost "]) == Buy
  {
    assert Text.ToLower(" Ost ") == " " + "ost" + " ";
    Text.TrimPadded("ost");
    Text.TrimUnpadded("ost");
  }

  /** A sale ("müük") is a sale. */
  lemma ActionOfSale()
    ensures ActionOf(map[KindColumn := "müük"]) == Sell
  {
    assert Text.ToLower("müük") == "müük";
    Text.TrimUnpadded("müük");
  }

  /** An empty or unrecognised kind is a sale. */
  lemma ActionOfOtherKind()
    ensures ActionOf(map[KindColumn := ""]) == Sell
    ensures ActionOf(map[KindColumn := "unknown"]) == Sell
  {
    assert Text.ToLower("unknown") == "unknown";
    Text.TrimUnpadded("unknown");
  }

  /** A row without a transaction kind is a sale. */
  lemma ActionOfMissingKind()
    ensures ActionOf(map[]) == Sell
  {
  }

  /** `row.SÜMBOL?.trim().toUpperCase() || ''`: already in upper case, and
      empty when the row has no symbol. */
  function CanonicalSymbol(row: RawRow): (r: string)
    ensures Text.ToUpper(r) == r
    ensures SymbolColumn in row ==> r == Text.ToUpper(Text.Trim(row[SymbolColumn]))
    ensures SymbolColumn !in row ==> r == ""
  {
    match Field(row, SymbolColumn)
    case None => ""
    case Some(s) =>
      Text.ToUpperIdempotent(Text.Trim(s));
      Text.ToUpper(Text.Trim(s))
  }

  /** `symbolTypeMapping[symbol] || 'Missing'`. */
  function TypeOf(m: Symbols.Mapping, symbol: string): (r: string)
    ensures r != ""
    ensures r == "Missing" || (Symbols.Known(m, symbol) && r == m[symbol])
    ensures Symbols.Known(m, symbol) ==> r == m[symbol]
  {
    if Symbols.Known(m, symbol) then m[symbol] else "Missing"
  }

  /** `transformRow`: the symbol is the row's canonical one, the type is the
      lookup's truthy type and otherwise "Missing", the date is the trade
      date read as an ISO date, each number is its column coerced by
      `parseFloat(..) || 0` (so an absent, empty or non-numeric field is 0),
      and the account and the action are the given ones. */
  function TransformRow(m: Symbols.Mapping, row: RawRow, account: string, action: Action): (t: Transaction)
    ensures t.symbol == CanonicalSymbol(row) && Text.ToUpper(t.symbol) == t.symbol
    ensures Symbols.Known(m, t.symbol) ==> t.assetType == m[t.symbol]
    ensures !Symbols.Known(m, t.symbol) ==> t.assetType == "Missing"
    ensures t.date == CivilDate.ParseIsoDate(TextOf(row, TradeDateColumn))
    ensures t.account == account && t.action == action
    ensures t.name == TextOf(row, NameColumn) && t.currency == TextOf(row, CurrencyColumn)
    ensures t.amount == JsNumber.Coerce(Field(row, AmountColumn))
    ensures t.price == JsNumber.Coerce(Field(row, PriceColumn))
    ensures t.cost == JsNumber.Coerce(Field(row, NetColumn))
    ensures t.fee == JsNumber.Coerce(Field(row, FeeColumn))
    ensures NameColumn !in row ==> t.name == ""
    ensures CurrencyColumn !in row ==> t.currency == ""
    ensures AmountColumn !in row ==> t.amount == JsNumber.Finite(0.0)
    ensures PriceColumn !in row ==> t.price == JsNumber.Finite(0.0)
    ensures NetColumn !in row ==> t.cost == JsNumber.Finite(0.0)
    ensures FeeColumn !in row ==> t.fee == JsNumber.Finite(0.0)
  {
    var symbol := CanonicalSymbol(row);
    Transaction(
      CivilDate.ParseIsoDate(TextOf(row, TradeDateColumn)),
      account,
      TypeOf(m, symbol),
      action,
      symbol,
      TextOf(row, NameColumn),
      TextOf(row, CurrencyColumn),
      JsNumber.Coerce(Field(row, AmountColumn)),
      JsNumber.Coerce(Field(row, PriceColumn)),
      JsNumber.Coerce(Field(row, NetColumn)),
      JsNumber.Coerce(Field(row, FeeColumn)))
  }

  /** The symbol lookup of `transformRow` ignores the case and the blanks of
      the symbol field. */
  lemma TransformRowIgnoresSymbolCase(m: Symbols.Mapping, row: RawRow, account: string, action: Action)
    requires SymbolColumn in row
    ensures var t := TransformRow(m, row, account, action);
            var u := TransformRow(m, row[SymbolColumn := Text.ToLower(Text.Trim(row[SymbolColumn]))], account, action);
            t.symbol == u.symbol && t.assetType == u.assetType
  {
    var s := Text.Trim(row[SymbolColumn]);
    Text.TrimIdempotent(row[SymbolColumn]);
    Text.TrimOfLower(s);
    Text.ToUpperOfToLower(s);
  }

  /** The symbol of the test suite's row, " aapl ", is read as AAPL. */
  lemma CanonicalSymbolExample(row: RawRow)
    requires row == map[SymbolColumn := " aapl "]
    ensures CanonicalSymbol(row) == "AAPL"
  {
    TrimExample(row[SymbolColumn]);
    UpperExample("aapl");
  }

  lemma TrimExample(s: string)
    requires s == " aapl "
    ensures Text.Trim(s) == "aapl"
  {
    assert s == " " + "aapl" + " ";
    Text.TrimPadded("aapl");
  }

  lemma UpperExample(s: string)
    requires s == "aapl"
    ensures Text.ToUpper(s) == "AAPL"
  {
    assert s[3..] == "l" && Text.ToUpper(s[3..]) == "L";
    assert s[2..] == "pl" && Text.ToUpper(s[2..]) == "PL";
    assert s[1..] == "apl" && Text.ToUpper(s[1..]) == "APL";
  }

  /** The rows `parseFile` keeps, in order: those with a filled trade date
      and symbol. */
  function KeptRows(rows: seq<RawRow>): (r: seq<RawRow>)
    ensures |r| <= |rows|
  {
    if rows == [] then []
    else if KeepRow(rows[0]) then [rows[0]] + KeptRows(rows[1..])
    else KeptRows(rows[1..])
  }

  /** The kept rows are exactly the rows with a filled trade date and symbol. */
  lemma {:induction false} KeptRowsMembers(rows: seq<RawRow>, row: RawRow)
    ensures row in KeptRows(rows) <==> row in rows && KeepRow(row)
  {
    if rows != [] {
      KeptRowsMembers(rows[1..], row);
      assert rows == [rows[0]] + rows[1..];
    }
  }

  /** The kept rows keep the order of the file. */
  lemma {:induction false} KeptRowsInOrder(rows: seq<RawRow>)
    ensures Sequences.Subsequence(KeptRows(rows), rows)
  {
    if rows != [] {
      KeptRowsInOrder(rows[1..]);
      if KeepRow(rows[0]) {
        assert KeptRows(rows)[1..] == KeptRows(rows[1..]);
      } else {
        Sequences.SubsequenceDrop(KeptRows(rows), rows);
      }
    }
  }

  /** Filtering distributes over concatenation of row lists. */
  lemma {:induction false} KeptRowsAppend(a: seq<RawRow>, b: seq<RawRow>)
    ensures KeptRows(a + b) == KeptRows(a) + KeptRows(b)
  {
    if a == [] {
      assert a + b == b;
    } else {
      assert (a + b)[0] == a[0];
      assert (a + b)[1..] == a[1..] + b;
      KeptRowsAppend(a[1..], b);
    }
  }

  /** The `map` step of `parseFile`: a kept row becomes an entry of the
      file's account, with the row's own buy/sell decision and symbol. */
  function Entry(m: Symbols.Mapping, account: string): RawRow -> Transaction
  {
    row => TransformRow(m, row, account, ActionOf(row))
  }

  /** The rows of one file as ledger entries: empty rows dropped, the rest
      transformed in order (the body of `parseFile`). */
  function NormalizeRows(m: Symbols.Mapping, account: string, rows: seq<RawRow>): (r: seq<Transaction>)
    ensures |r| <= |rows|
  {
    Sequences.Map(Entry(m, account), KeptRows(rows))
  }

  /** One entry per kept row, in row order, each the kept row transformed
      with its own buy/sell decision. */
  lemma NormalizeAt(m: Symbols.Mapping, account: string, rows: seq<RawRow>, i: nat)
    requires i < |NormalizeRows(m, account, rows)|
    ensures var row := KeptRows(rows)[i];
            NormalizeRows(m, account, rows)[i] == TransformRow(m, row, account, ActionOf(row))
  {
    Sequences.MapAt(Entry(m, account), KeptRows(rows), i);
  }

  /** Every entry of a file belongs to the file's account. */
  lemma NormalizeAccount(m: Symbols.Mapping, account: string, rows: seq<RawRow>, i: nat)
    requires i < |NormalizeRows(m, account, rows)|
    ensures NormalizeRows(m, account, rows)[i].account == account
  {
    NormalizeAt(m, account, rows, i);
  }

  /** Normalising distributes over concatenation of row lists. */
  lemma NormalizeAppend(m: Symbols.Mapping, account: string, a: seq<RawRow>, b: seq<RawRow>)
    ensures NormalizeRows(m, account, a + b) == NormalizeRows(m, account, a) + NormalizeRows(m, account, b)
  {
    KeptRowsAppend(a, b);
    Sequences.MapAppend(Entry(m, account), KeptRows(a), KeptRows(b));
  }

  /** Rows without a filled trade date or symbol give no entry; the examples
      of the test suite. */
  lemma EmptyRowsDropped()
    ensures NormalizeRows(map[], "A", [map[TradeDateColumn := "", SymbolColumn := ""]]) == []
    ensures NormalizeRows(map[], "A", [map[SymbolColumn := "AAPL"]]) == []
    ensures NormalizeRows(map[], "A", [map[TradeDateColumn := "2021-02-10"]]) == []
  {
  }
}
