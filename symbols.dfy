/** The symbol tables of the converter: the static symbol-to-type table, the
    persisted symbol database it seeds, the session lookup table, the list of
    symbols the lookup does not know, and the user's classification choices. */
module Symbols {
  import opened Wrappers
  import Text
  import Sequences

  /** A database record: the symbol, its type, and when it was last written
      (milliseconds since 1970-01-01, supplied by the caller). */
  datatype SymbolInfo = SymbolInfo(symbol: string, kind: string, lastUpdated: int)

  /** Symbol to type, as `symbolTypeMapping` and the static table hold it. */
  type Mapping = map<string, string>

  /** Symbol to record, as `symbolDatabase` holds it. */
  type Database = map<string, SymbolInfo>

  /** The static table of known symbols and their types, `SYMBOL_MAPPINGS`. */
  const StaticMappings: Mapping := map[
    "APG1L" := "Stock",
    "ARC1T" := "Stock",
    "BRKB" := "Stock",
    "CPA1T" := "Stock",
    "DGRB100028A" := "Bond",
    "ECAR" := "ETF",
    "EGR1T" := "Stock",
    "ESP0" := "ETF",
    "EXSA" := "ETF",
    "EXXT" := "ETF",
    "GREG100027A" := "Bond",
    "HAE1T" := "Stock",
    "HAGEN" := "Stock",
    "HAGENBHT2" := "Stock",
    "INRG" := "ETF",
    "LHV01SR" := "Stock",
    "LHV1T" := "Stock",
    "LHVB105033A" := "Bond",
    "LHVST" := "Stock",
    "MAGIC" := "Stock",
    "MRK1T" := "Stock",
    "NCN1T" := "Stock",
    "NHCBHFFT" := "ETF",
    "SABB077034A" := "Bond",
    "SPYD" := "ETF",
    "STOH100026A" := "Bond",
    "SXR8" := "ETF",
    "TAL11" := "Stock",
    "TAL1T" := "Stock",
    "TKM1T" := "Stock",
    "TSM1T" := "Stock",
    "TVE1T" := "Stock",
    "WISE" := "Stock",
    "XAD5" := "ETF",
    "XAD6" := "ETF",
    "BTC" := "Crypto",
    "ETH" := "Crypto",
    "BNB" := "Crypto",
    "XRP" := "Crypto",
    "ADA" := "Crypto",
    "SOL" := "Crypto",
    "DOGE" := "Crypto",
    "DOT" := "Crypto",
    "MATIC" := "Crypto",
    "SHIB" := "Crypto",
    "AVAX" := "Crypto",
    "LINK" := "Crypto",
    "UNI" := "Crypto",
    "ATOM" := "Crypto",
    "LTC" := "Crypto",
    "BCH" := "Crypto",
    "XLM" := "Crypto",
    "VET" := "Crypto",
    "FIL" := "Crypto",
    "TRX" := "Crypto",
    "ETC" := "Crypto",
    "XMR" := "Crypto",
    "THETA" := "Crypto",
    "ICP" := "Crypto",
    "EOS" := "Crypto",
    "AAPL" := "Stock",
    "MSFT" := "Stock",
    "GOOGL" := "Stock",
    "GOOG" := "Stock",
    "AMZN" := "Stock",
    "META" := "Stock",
    "TSLA" := "Stock",
    "NVDA" := "Stock",
    "NFLX" := "Stock",
    "DIS" := "Stock",
    "ADBE" := "Stock",
    "CRM" := "Stock",
    "INTC" := "Stock",
    "AMD" := "Stock",
    "CSCO" := "Stock",
    "PEP" := "Stock",
    "COST" := "Stock",
    "AVGO" := "Stock",
    "TXN" := "Stock",
    "QCOM" := "Stock",
    "TMUS" := "Stock",
    "AMAT" := "Stock",
    "SBUX" := "Stock",
    "INTU" := "Stock",
    "JPM" := "Stock",
    "BAC" := "Stock",
    "WFC" := "Stock",
    "GS" := "Stock",
    "MS" := "Stock",
    "C" := "Stock",
    "AXP" := "Stock",
    "BLK" := "Stock",
    "SPGI" := "Stock",
    "V" := "Stock",
    "MA" := "Stock",
    "PLTR" := "Stock",
    "COIN" := "Stock",
    "JNJ" := "Stock",
    "PFE" := "Stock",
    "UNH" := "Stock",
    "ABBV" := "Stock",
    "TMO" := "Stock",
    "ABT" := "Stock",
    "MRK" := "Stock",
    "DHR" := "Stock",
    "BMY" := "Stock",
    "AMGN" := "Stock",
    "GILD" := "Stock",
    "CVS" := "Stock",
    "CI" := "Stock",
    "BIIB" := "Stock",
    "MRNA" := "Stock",
    "XOM" := "Stock",
    "CVX" := "Stock",
    "COP" := "Stock",
    "EOG" := "Stock",
    "SLB" := "Stock",
    "HAL" := "Stock",
    "PSX" := "Stock",
    "VLO" := "Stock",
    "MPC" := "Stock",
    "OXY" := "Stock",
    "SPY" := "ETF",
    "QQQ" := "ETF",
    "VTI" := "ETF",
    "VOO" := "ETF",
    "IVV" := "ETF",
    "GLD" := "ETF",
    "SLV" := "ETF",
    "HYG" := "ETF",
    "LQD" := "ETF",
    "AGG" := "ETF",
    "BND" := "ETF",
    "VT" := "ETF",
    "VEA" := "ETF",
    "VWO" := "ETF",
    "IEMG" := "ETF",
    "EFA" := "ETF",
    "EEM" := "ETF",
    "XLF" := "ETF",
    "XLE" := "ETF",
    "XLK" := "ETF",
    "XLI" := "ETF",
    "XLV" := "ETF",
    "XLU" := "ETF",
    "XLP" := "ETF",
    "XLY" := "ETF",
    "XLB" := "ETF",
    "XLC" := "ETF",
    "XLRE" := "ETF",
    "GDX" := "ETF",
    "USO" := "ETF",
    "DBC" := "ETF",
    "QQQM" := "ETF",
    "SPYI" := "ETF",
    "SCHD" := "ETF",
    "TLT" := "Bond",
    "IEF" := "Bond",
    "SHY" := "Bond",
    "JNK" := "Bond",
    "MUB" := "Bond",
    "VTEB" := "Bond",
    "BRK.A" := "Stock",
    "BRK.B" := "Stock",
    "WMT" := "Stock",
    "HD" := "Stock",
    "KO" := "Stock",
    "MCD" := "Stock",
    "NKE" := "Stock",
    "UBER" := "Stock",
    "LYFT" := "Stock",
    "ROKU" := "Stock",
    "SNAP" := "Stock",
    "TWTR" := "Stock",
    "ZM" := "Stock",
    "DOCU" := "Stock",
    "SHOP" := "Stock",
    "TTWO" := "Stock",
    "EA" := "Stock",
    "ATVI" := "Stock",
    "NTDOY" := "Stock",
    "SONY" := "Stock",
    "TCEHY" := "Stock",
    "BABA" := "Stock",
    "JD" := "Stock",
    "PDD" := "Stock",
    "NIO" := "Stock",
    "XPEV" := "Stock",
    "LI" := "Stock",
    "RIVN" := "Stock",
    "LCID" := "Stock"
  ]

  /** A lookup `m[k]` that JavaScript treats as true: present and not empty. */
  predicate Known(m: Mapping, k: string)
  {
    k in m && m[k] != ""
  }

  // ---------------------------------------------------------------------
  // Seeding the database from the static table

  /** The database after the static table is merged in: every static symbol
      that has no record gets one, with its static type and the time `now`;
      every record already there, a learned or overriding one included, stays
      as it is. */
  function Seeded(db: Database, statics: Mapping, now: int): (r: Database)
    ensures r.Keys == db.Keys + statics.Keys
    ensures forall k :: k in db ==> r[k] == db[k]
    ensures forall k :: k in statics && k !in db ==> r[k] == SymbolInfo(k, statics[k], now)
  {
    map k | k in db.Keys + statics.Keys :: if k in db then db[k] else SymbolInfo(k, statics[k], now)
  }

  /** Seeding again, at any later time, changes nothing: a reload keeps the
      timestamps of the first seeding. */
  lemma SeedIdempotent(db: Database, statics: Mapping, now: int, later: int)
    ensures Seeded(Seeded(db, statics, now), statics, later) == Seeded(db, statics, now)
  {
  }

  /** Seeding does not depend on the order in which the static symbols are
      visited: merging a part of the table and then the rest is merging all of
      it. */
  lemma SeedInParts(db: Database, part: set<string>, statics: Mapping, now: int)
    requires part <= statics.Keys
    ensures Seeded(Seeded(db, map k | k in part :: statics[k], now), statics, now) == Seeded(db, statics, now)
  {
  }

  // ---------------------------------------------------------------------
  // Symbols the lookup does not know

  /** The symbols whose upper-case form has no type in `m`, in input order
      (`detectSymbolTypes`). */
  function UnknownSymbols(m: Mapping, symbols: seq<string>): (r: seq<string>)
    ensures forall x :: x in r <==> x in symbols && !Known(m, Text.ToUpper(x))
    ensures Sequences.Subsequence(r, symbols)
  {
    if symbols == [] then []
    else if Known(m, Text.ToUpper(symbols[0])) then UnknownSymbols(m, symbols[1..])
    else [symbols[0]] + UnknownSymbols(m, symbols[1..])
  }

  /** `detectSymbolTypeByPattern`: the type the lookup gives the upper-case
      form of `symbol`, or `None` (`null`). */
  function LookupType(m: Mapping, symbol: string): (r: Option<string>)
    ensures r.Some? <==> Known(m, Text.ToUpper(symbol))
    ensures r.Some? ==> r.value == m[Text.ToUpper(symbol)] && r.value != ""
  {
    var u := Text.ToUpper(symbol);
    if Known(m, u) then Some(m[u]) else None
  }

  /** The lookup ignores case. */
  lemma LookupIgnoresCase(m: Mapping, symbol: string)
    ensures LookupType(m, Text.ToLower(symbol)) == LookupType(m, symbol)
    ensures LookupType(m, Text.ToUpper(symbol)) == LookupType(m, symbol)
  {
    Text.ToUpperOfToLower(symbol);
    Text.ToUpperIdempotent(symbol);
  }

  /** A symbol is escalated to the user exactly when the lookup has no type for
      it. */
  lemma UnknownIffNoLookup(m: Mapping, symbols: seq<string>, x: string)
    requires x in symbols
    ensures x in UnknownSymbols(m, symbols) <==> LookupType(m, x) == None
  {
  }

  // ---------------------------------------------------------------------
  // The user's choices

  /** The type chosen last for the upper-case key `k`: the `types[i]` of the
      greatest `i` with `symbols[i]` upper-casing to `k` and a non-empty
      choice, or `None` when there is no such `i`. */
  function LastChoice(symbols: seq<string>, types: seq<string>, k: string): (r: Option<string>)
    requires |symbols| == |types|
    ensures r.None? <==> forall i :: 0 <= i < |symbols| && Text.ToUpper(symbols[i]) == k ==> types[i] == ""
    ensures r.Some? ==> exists i :: 0 <= i < |symbols| && Text.ToUpper(symbols[i]) == k && types[i] == r.value != ""
  {
    var n := |symbols|;
    if n == 0 then None
    else if Text.ToUpper(symbols[n - 1]) == k && types[n - 1] != "" then Some(types[n - 1])
    else LastChoice(symbols[..n - 1], types[..n - 1], k)
  }

  /** The lookup table after the choices `types` for the listed `symbols` are
      written, one after the other; an empty choice is skipped. */
  function ApplyChoices(m: Mapping, symbols: seq<string>, types: seq<string>): (r: Mapping)
    requires |symbols| == |types|
    ensures m.Keys <= r.Keys
    ensures forall k :: k in r && k !in m ==> exists i :: 0 <= i < |symbols| && k == Text.ToUpper(symbols[i])
  {
    var n := |symbols|;
    if n == 0 then m
    else
      var before := ApplyChoices(m, symbols[..n - 1], types[..n - 1]);
      if types[n - 1] == "" then before else before[Text.ToUpper(symbols[n - 1]) := types[n - 1]]
  }

  /** The database after the same choices, each written as a fresh record
      stamped `now`. */
  function RecordChoices(db: Database, symbols: seq<string>, types: seq<string>, now: int): (r: Database)
    requires |symbols| == |types|
    ensures db.Keys <= r.Keys
    ensures forall k :: k in r && k !in db ==> exists i :: 0 <= i < |symbols| && k == Text.ToUpper(symbols[i])
  {
    var n := |symbols|;
    if n == 0 then db
    else
      var before := RecordChoices(db, symbols[..n - 1], types[..n - 1], now);
      var u := Text.ToUpper(symbols[n - 1]);
      if types[n - 1] == "" then before else before[u := SymbolInfo(u, types[n - 1], now)]
  }

  /** One more selector: its non-empty choice is written under the
      upper-case symbol, in both tables. */
  lemma ChoicesStep(m: Mapping, db: Database, symbols: seq<string>, types: seq<string>, now: int, i: nat)
    requires |symbols| == |types| && i < |symbols|
    ensures var u, before := Text.ToUpper(symbols[i]), ApplyChoices(m, symbols[..i], types[..i]);
            ApplyChoices(m, symbols[..i + 1], types[..i + 1]) == if types[i] == "" then before else before[u := types[i]]
    ensures var u, before := Text.ToUpper(symbols[i]), RecordChoices(db, symbols[..i], types[..i], now);
            RecordChoices(db, symbols[..i + 1], types[..i + 1], now)
            == if types[i] == "" then before else before[u := SymbolInfo(u, types[i], now)]
  {
    assert symbols[..i + 1][..i] == symbols[..i] && types[..i + 1][..i] == types[..i];
  }

  /** Saving is a frame update of the lookup: a key with a non-empty choice
      gets the last such choice, every other key keeps its entry, and no other
      key appears. */
  lemma {:induction false} ApplyChoicesEffect(m: Mapping, symbols: seq<string>, types: seq<string>, k: string)
    requires |symbols| == |types|
    ensures var r := ApplyChoices(m, symbols, types);
            match LastChoice(symbols, types, k)
            case Some(t) => k in r && r[k] == t
            case None => (k in r <==> k in m) && (k in m ==> r[k] == m[k])
  {
    var n := |symbols|;
    if n > 0 {
      ApplyChoicesEffect(m, symbols[..n - 1], types[..n - 1], k);
    }
  }

  /** The same frame update of the database: a chosen key gets the record
      `{k, last choice, now}`, every other record stays. */
  lemma {:induction false} RecordChoicesEffect(db: Database, symbols: seq<string>, types: seq<string>, now: int, k: string)
    requires |symbols| == |types|
    ensures var r := RecordChoices(db, symbols, types, now);
            match LastChoice(symbols, types, k)
            case Some(t) => k in r && r[k] == SymbolInfo(k, t, now)
            case None => (k in r <==> k in db) && (k in db ==> r[k] == db[k])
  {
    var n := |symbols|;
    if n > 0 {
      RecordChoicesEffect(db, symbols[..n - 1], types[..n - 1], now, k);
    }
  }

  /** When every choice is empty nothing changes in either table. */
  lemma NoChoiceChangesNothing(m: Mapping, db: Database, symbols: seq<string>, types: seq<string>, now: int)
    requires |symbols| == |types|
    requires forall i :: 0 <= i < |types| ==> types[i] == ""
    ensures ApplyChoices(m, symbols, types) == m
    ensures RecordChoices(db, symbols, types, now) == db
  {
    forall k
      ensures LastChoice(symbols, types, k).None?
    {
    }
    if ApplyChoices(m, symbols, types) != m {
      var r := ApplyChoices(m, symbols, types);
      var k :| (k in r) != (k in m) || (k in r && k in m && r[k] != m[k]);
      ApplyChoicesEffect(m, symbols, types, k);
    }
    if RecordChoices(db, symbols, types, now) != db {
      var r := RecordChoices(db, symbols, types, now);
      var k :| (k in r) != (k in db) || (k in r && k in db && r[k] != db[k]);
      RecordChoicesEffect(db, symbols, types, now, k);
    }
  }

  /** After saving, every chosen symbol is known to the lookup under its
      upper-case form, so it is not escalated again. */
  lemma ChosenBecomesKnown(m: Mapping, symbols: seq<string>, types: seq<string>, i: int)
    requires |symbols| == |types| && 0 <= i < |symbols| && types[i] != ""
    ensures Known(ApplyChoices(m, symbols, types), Text.ToUpper(symbols[i]))
  {
    var k := Text.ToUpper(symbols[i]);
    ApplyChoicesEffect(m, symbols, types, k);
  }
}
