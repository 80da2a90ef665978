/** The Node test double of the converter (`tests/app.test.js`): a copy of the
    class with the DOM and storage mocked away. It differs from the browser
    class in ways the tests depend on: the symbol database keeps insertion
    order and is rebuilt into the mapping by a loop where the first record of
    a symbol wins, the constructor rebuilds the mapping before the static
    table is merged in, the type guess uses name patterns, the buy/sell
    decision comes from the account name, and `transformRow` falls back to
    "Other" and reads the name from a misspelt column. */
module TestDouble {
  import opened Wrappers
  import Text
  import Symbols
  import Transactions
  import CivilDate
  import JsNumber
  import Sequences

  // ---------------------------------------------------------------------
  // The ordered symbol database

  /** `keys` lists the keys of `db` once each, in insertion order: the order
      `Object.values` visits the records in. */
  predicate Ordered(keys: seq<string>, db: Symbols.Database)
  {
    && (forall i, j :: 0 <= i < j < |keys| ==> keys[i] != keys[j])
    && (forall k :: k in db ==> k in keys)
    && (forall i :: 0 <= i < |keys| ==> keys[i] in db)
  }

  /** Adding a record under a new key appends the key to the order. */
  lemma OrderedAppend(keys: seq<string>, db: Symbols.Database, k: string, info: Symbols.SymbolInfo)
    requires Ordered(keys, db) && k !in db
    ensures Ordered(keys + [k], db[k := info])
  {
    assert k !in keys;
  }

  /** The listing is what `Object.entries` yields for a parsed JSON object:
      each symbol once (for a key the file repeats, `JSON.parse` has already
      kept the last value). */
  predicate Distinct(entries: seq<(string, string)>)
  {
    forall i, j :: 0 <= i < j < |entries| ==> entries[i].0 != entries[j].0
  }

  /** The static table a listing denotes: every listed symbol with the type
      listed for it. The listing never repeats a symbol; should it, the
      first listing would be kept, as the loop's `if (!db[symbol])` keeps
      it. */
  function Table(entries: seq<(string, string)>): (r: Symbols.Mapping)
    ensures forall i :: 0 <= i < |entries| ==> entries[i].0 in r
    ensures forall k :: k in r ==> exists i :: 0 <= i < |entries| && entries[i] == (k, r[k])
  {
    if entries == [] then map[]
    else
      var m := Table(entries[..|entries| - 1]);
      var (symbol, kind) := entries[|entries| - 1];
      if symbol in m then m else m[symbol := kind]
  }

  /** The symbols seeding appends to the database's key order: each listed
      symbol the database lacks, at its first listing. */
  function NewKeys(db: Symbols.Database, entries: seq<(string, string)>): seq<string>
  {
    if entries == [] then []
    else
      var init := entries[..|entries| - 1];
      var symbol := entries[|entries| - 1].0;
      if symbol in db || symbol in Table(init) then NewKeys(db, init)
      else NewKeys(db, init) + [symbol]
  }

  /** Listing one more entry, as the `forEach` visits it. */
  lemma ListingSnoc(db: Symbols.Database, init: seq<(string, string)>, symbol: string, kind: string)
    ensures var t := Table(init);
            Table(init + [(symbol, kind)]) == if symbol in t then t else t[symbol := kind]
    ensures NewKeys(db, init + [(symbol, kind)])
            == if symbol in db || symbol in Table(init) then NewKeys(db, init) else NewKeys(db, init) + [symbol]
  {
    assert (init + [(symbol, kind)])[..|init|] == init;
  }

  /** A symbol not listed before is in the table with the type listed for
      it; on a listing of distinct symbols that is every listed symbol. */
  lemma {:induction false} TableAt(entries: seq<(string, string)>, i: nat)
    requires i < |entries|
    requires forall j :: 0 <= j < i ==> entries[j].0 != entries[i].0
    ensures entries[i].0 in Table(entries)
    ensures Table(entries)[entries[i].0] == entries[i].1
  {
    var init := entries[..|entries| - 1];
    if i < |entries| - 1 {
      TableAt(init, i);
    }
  }

  /** One step of seeding: merging one more listing into the table adds the
      symbol's record unless the database already holds one. */
  lemma SeedStep(db: Symbols.Database, table: Symbols.Mapping, symbol: string, kind: string, now: int)
    ensures var d := Symbols.Seeded(db, table, now);
            Symbols.Seeded(db, if symbol in table then table else table[symbol := kind], now)
            == if symbol in d then d else d[symbol := Symbols.SymbolInfo(symbol, kind, now)]
  {
    var d := Symbols.Seeded(db, table, now);
    var t := if symbol in table then table else table[symbol := kind];
    var e := if symbol in d then d else d[symbol := Symbols.SymbolInfo(symbol, kind, now)];
    assert Symbols.Seeded(db, t, now).Keys == e.Keys;
  }

  /** The database after the listed entries are visited in order, each
      listed symbol the database lacks added with the current time. */
  function SeedDb(db: Symbols.Database, entries: seq<(string, string)>, now: int): (r: Symbols.Database)
    ensures db.Keys <= r.Keys
    ensures forall k :: k in db ==> r[k] == db[k]
    ensures forall k :: k in r && k !in db ==> r[k].symbol == k && r[k].lastUpdated == now
  {
    if entries == [] then db
    else
      var d := SeedDb(db, entries[..|entries| - 1], now);
      var (symbol, kind) := entries[|entries| - 1];
      if symbol in d then d else d[symbol := Symbols.SymbolInfo(symbol, kind, now)]
  }

  /** Visiting the listing adds exactly the listed symbols. */
  lemma {:induction false} SeedDbKeys(db: Symbols.Database, entries: seq<(string, string)>, now: int, k: string)
    ensures k in SeedDb(db, entries, now) <==> k in db || k in Table(entries)
  {
    if entries != [] {
      SeedDbKeys(db, entries[..|entries| - 1], now, k);
    }
  }

  /** Visiting the listing in order seeds the database with the table the
      listing denotes, exactly as the browser class seeds it. */
  lemma {:induction false} SeedDbIsSeeded(db: Symbols.Database, entries: seq<(string, string)>, now: int)
    ensures SeedDb(db, entries, now) == Symbols.Seeded(db, Table(entries), now)
  {
    if entries == [] {
      assert Symbols.Seeded(db, map[], now) == db;
    } else {
      var init := entries[..|entries| - 1];
      SeedDbIsSeeded(db, init, now);
      SeedStep(db, Table(init), entries[|entries| - 1].0, entries[|entries| - 1].1, now);
    }
  }

  /** `db` rebuilt into a mapping in key order: a record sets its symbol's
      type unless an earlier record already set a truthy one. */
  function Rebuilt(infos: seq<Symbols.SymbolInfo>): (r: Symbols.Mapping)
    ensures forall k :: k in r ==> exists i :: 0 <= i < |infos| && infos[i].symbol == k && infos[i].kind == r[k]
  {
    if infos == [] then map[]
    else
      var m := Rebuilt(infos[..|infos| - 1]);
      var info := infos[|infos| - 1];
      if Symbols.Known(m, info.symbol) then m else m[info.symbol := info.kind]
  }

  /** One more record, as the `forEach` visits it. */
  lemma RebuiltSnoc(infos: seq<Symbols.SymbolInfo>, i: nat)
    requires i < |infos|
    ensures var m := Rebuilt(infos[..i]);
            Rebuilt(infos[..i + 1]) == if Symbols.Known(m, infos[i].symbol) then m else m[infos[i].symbol := infos[i].kind]
  {
    assert infos[..i + 1][..i] == infos[..i];
  }

  /** No records rebuild into the empty mapping. */
  lemma RebuiltEmpty(infos: seq<Symbols.SymbolInfo>)
    requires infos == []
    ensures Rebuilt(infos) == map[]
  {
  }

  /** The rebuilt mapping has an entry for exactly the records' symbols,
      whatever key the records are filed under. */
  lemma {:induction false} RebuiltKeys(infos: seq<Symbols.SymbolInfo>, k: string)
    ensures k in Rebuilt(infos) <==> exists i :: 0 <= i < |infos| && infos[i].symbol == k
  {
    if infos != [] {
      var init := infos[..|infos| - 1];
      RebuiltKeys(init, k);
      if exists i :: 0 <= i < |init| && init[i].symbol == k {
        var i :| 0 <= i < |init| && init[i].symbol == k;
        assert infos[i] == init[i];
      }
      if exists i :: 0 <= i < |infos| && infos[i].symbol == k {
        var i :| 0 <= i < |infos| && infos[i].symbol == k;
        if i < |init| {
          assert init[i] == infos[i];
        }
      }
    }
  }

  /** A symbol's type is that of its first record with a non-empty type. */
  lemma {:induction false} RebuiltFirstTyped(infos: seq<Symbols.SymbolInfo>, i: nat)
    requires i < |infos| && infos[i].kind != ""
    requires forall j :: 0 <= j < i && infos[j].symbol == infos[i].symbol ==> infos[j].kind == ""
    ensures infos[i].symbol in Rebuilt(infos)
    ensures Rebuilt(infos)[infos[i].symbol] == infos[i].kind
  {
    var init := infos[..|infos| - 1];
    if i < |infos| - 1 {
      RebuiltFirstTyped(init, i);
    } else {
      RebuiltUntyped(init, infos[i].symbol);
    }
  }

  /** A symbol none of whose records has a type maps to the empty type. */
  lemma {:induction false} RebuiltUntyped(infos: seq<Symbols.SymbolInfo>, k: string)
    requires forall j :: 0 <= j < |infos| && infos[j].symbol == k ==> infos[j].kind == ""
    ensures k in Rebuilt(infos) ==> Rebuilt(infos)[k] == ""
  {
    if infos != [] {
      var init := infos[..|infos| - 1];
      RebuiltUntyped(init, k);
    }
  }

  class InvestmentConverter {
    /** The database's keys in insertion order. */
    var keys: seq<string>
    var symbolDatabase: Symbols.Database
    var symbolTypeMapping: Symbols.Mapping

    predicate Valid()
      reads this`keys, this`symbolDatabase
    {
      Ordered(keys, symbolDatabase)
    }

    /** `Object.values(this.symbolDatabase)`. */
    function Records(): (r: seq<Symbols.SymbolInfo>)
      reads this`keys, this`symbolDatabase
      requires Valid()
      ensures |r| == |keys|
      ensures forall i :: 0 <= i < |keys| ==> r[i] == symbolDatabase[keys[i]]
    {
      var ks, db := keys, symbolDatabase;
      assert forall i :: 0 <= i < |ks| ==> ks[i] in db;
      seq(|ks|, i requires 0 <= i < |ks| => db[ks[i]])
    }

    /** The constructor: an empty database, the mapping rebuilt from it, then
        the mappings file (`None` when it cannot be read) merged into the
        database. The mapping is left empty. */
    constructor(mappingsFile: Option<seq<(string, string)>>, now: int)
      requires mappingsFile.Some? ==> Distinct(mappingsFile.value)
      ensures Valid()
      ensures symbolTypeMapping == map[]
      ensures mappingsFile.None? ==> keys == [] && symbolDatabase == map[]
      ensures mappingsFile.Some? ==>
                && symbolDatabase == Symbols.Seeded(map[], Table(mappingsFile.value), now)
                && keys == NewKeys(map[], mappingsFile.value)
    {
      keys := [];
      symbolDatabase := map[];
      symbolTypeMapping := map[];
      new;
      LoadSymbolDatabase();
      UpdateSymbolMappings();
      RebuiltEmpty(Records());
      assert symbolTypeMapping == map[];
      LoadAdditionalSymbolMappings(mappingsFile, now);
      if mappingsFile.Some? {
        assert [] + NewKeys(map[], mappingsFile.value) == NewKeys(map[], mappingsFile.value);
      }
    }

    /** `loadSymbolDatabase`: the mock starts from an empty database. */
    method LoadSymbolDatabase()
      modifies this`keys, this`symbolDatabase
      ensures keys == [] && symbolDatabase == map[]
      ensures Valid()
    {
      keys := [];
      symbolDatabase := map[];
    }

    /** `updateSymbolMappings`: the mapping rebuilt from the records in
        database order. */
    method UpdateSymbolMappings()
      requires Valid()
      modifies this`symbolTypeMapping
      ensures symbolTypeMapping == Rebuilt(Records())
    {
      var rs := Records();
      var m: Symbols.Mapping := map[];
      var i := 0;
      while i < |keys|
        invariant 0 <= i <= |keys|
        invariant m == Rebuilt(rs[..i])
      {
        var info := symbolDatabase[keys[i]];
        RebuiltSnoc(rs, i);
        if !Symbols.Known(m, info.symbol) {
          m := m[info.symbol := info.kind];
        }
        i := i + 1;
      }
      assert rs[..|keys|] == rs;
      symbolTypeMapping := m;
    }

    /** `loadAdditionalSymbolMappings`: each listed symbol the database lacks
        is added with the current time, in listing order; an unreadable file
        changes nothing. */
    method LoadAdditionalSymbolMappings(mappingsFile: Option<seq<(string, string)>>, now: int)
      requires Valid()
      requires mappingsFile.Some? ==> Distinct(mappingsFile.value)
      modifies this`keys, this`symbolDatabase
      ensures Valid()
      ensures mappingsFile.None? ==> keys == old(keys) && symbolDatabase == old(symbolDatabase)
      ensures mappingsFile.Some? ==>
                && symbolDatabase == Symbols.Seeded(old(symbolDatabase), Table(mappingsFile.value), now)
                && keys == old(keys) + NewKeys(old(symbolDatabase), mappingsFile.value)
    {
      match mappingsFile {
        case None =>
        case Some(entries) =>
          var ks, db := Seed(keys, symbolDatabase, entries, now);
          keys := ks;
          symbolDatabase := db;
      }
    }
  }

  /** What the seeding loop keeps after visiting the first `i` entries. */
  predicate Seeding(keys0: seq<string>, db0: Symbols.Database, entries: seq<(string, string)>, now: int,
                    i: nat, keys: seq<string>, db: Symbols.Database)
  {
    && i <= |entries|
    && Ordered(keys, db)
    && db == SeedDb(db0, entries[..i], now)
    && keys == keys0 + NewKeys(db0, entries[..i])
  }

  /** One visit of the seeding loop keeps its invariant. */
  lemma SeedingStep(keys0: seq<string>, db0: Symbols.Database, entries: seq<(string, string)>, now: int,
                    i: nat, keys: seq<string>, db: Symbols.Database)
    requires i < |entries| && Seeding(keys0, db0, entries, now, i, keys, db)
    ensures var (symbol, kind) := entries[i];
            if symbol in db then Seeding(keys0, db0, entries, now, i + 1, keys, db)
            else Seeding(keys0, db0, entries, now, i + 1, keys + [symbol], db[symbol := Symbols.SymbolInfo(symbol, kind, now)])
  {
    var (symbol, kind) := entries[i];
    var pre := entries[..i];
    assert entries[..i + 1] == pre + [(symbol, kind)];
    SeedingListing(db0, pre, symbol, kind, now, db);
    if symbol !in db {
      SeedingAdd(keys0, db0, pre, symbol, kind, now, keys, db);
    }
  }

  /** A symbol the database lacks is appended to the key order with a
      fresh record. */
  lemma SeedingAdd(keys0: seq<string>, db0: Symbols.Database, pre: seq<(string, string)>, symbol: string, kind: string,
                   now: int, keys: seq<string>, db: Symbols.Database)
    requires Ordered(keys, db) && keys == keys0 + NewKeys(db0, pre) && symbol !in db
    ensures Ordered(keys + [symbol], db[symbol := Symbols.SymbolInfo(symbol, kind, now)])
    ensures keys + [symbol] == keys0 + (NewKeys(db0, pre) + [symbol])
  {
    OrderedAppend(keys, db, symbol, Symbols.SymbolInfo(symbol, kind, now));
  }

  /** The database and the new keys after one more listing, given the
      database seeded so far. */
  lemma SeedingListing(db0: Symbols.Database, pre: seq<(string, string)>, symbol: string, kind: string, now: int,
                       db: Symbols.Database)
    requires db == SeedDb(db0, pre, now)
    ensures SeedDb(db0, pre + [(symbol, kind)], now)
            == if symbol in db then db else db[symbol := Symbols.SymbolInfo(symbol, kind, now)]
    ensures NewKeys(db0, pre + [(symbol, kind)])
            == if symbol in db then NewKeys(db0, pre) else NewKeys(db0, pre) + [symbol]
  {
    ListingSnoc(db0, pre, symbol, kind);
    assert (pre + [(symbol, kind)])[..|pre|] == pre;
    SeedDbKeys(db0, pre, now, symbol);
  }

  /** The `forEach` of `loadAdditionalSymbolMappings` over the listed
      entries, on the database and its key order. */
  method Seed(keys0: seq<string>, db0: Symbols.Database, entries: seq<(string, string)>, now: int)
    returns (keys: seq<string>, db: Symbols.Database)
    requires Ordered(keys0, db0)
    ensures Ordered(keys, db)
    ensures db == Symbols.Seeded(db0, Table(entries), now)
    ensures keys == keys0 + NewKeys(db0, entries)
  {
    keys, db := keys0, db0;
    var i := 0;
    assert keys0 + [] == keys0;
    while i < |entries|
      invariant Seeding(keys0, db0, entries, now, i, keys, db)
    {
      var symbol, kind := entries[i].0, entries[i].1;
      SeedingStep(keys0, db0, entries, now, i, keys, db);
      if symbol !in db {
        keys := keys + [symbol];
        db := db[symbol := Symbols.SymbolInfo(symbol, kind, now)];
      }
      i := i + 1;
    }
    assert entries[..|entries|] == entries;
    SeedDbIsSeeded(db0, entries, now);
  }

  // ---------------------------------------------------------------------
  // Guessing a type from the symbol's shape

  /** The crypto tickers recognised by name. */
  const CryptoTickers: seq<string> := ["BTC", "ETH", "ADA", "DOT", "LINK", "UNI", "SOL", "AVAX", "MATIC", "ATOM"]

  predicate IsTickerChar(c: char)
  {
    ('A' <= c <= 'Z') || ('0' <= c <= '9')
  }

  /** `/^[A-Z0-9]+$/`: such a name is not empty and holds no blank. */
  predicate IsTicker(u: string): (b: bool)
    ensures b ==> |u| > 0 && !Text.Contains(u, " ")
  {
    if |u| > 0 && forall i :: 0 <= i < |u| ==> IsTickerChar(u[i]) then
      assert !IsTickerChar(' ');
      Text.ContainsNeedsChar(u, " ", ' ');
      true
    else false
  }

  /** The fund patterns: "ETF" anywhere, or a name that starts like VO, SPY,
      QQQ, DIA or VTI, so at least two code points long. */
  predicate LooksLikeEtf(u: string): (b: bool)
    ensures b ==> |u| >= 2
  {
    || Text.Contains(u, "ETF")
    || Text.StartsWith(u, "VO") || Text.StartsWith(u, "SPY") || Text.StartsWith(u, "QQQ")
    || Text.StartsWith(u, "DIA") || Text.StartsWith(u, "VTI")
  }

  /** The bond patterns, found anywhere in the name, each at least four
      code points long. */
  predicate LooksLikeBond(u: string): (b: bool)
    ensures b ==> |u| >= 4
  {
    Text.Contains(u, "BOND") || Text.Contains(u, "TREASURY") || Text.Contains(u, "TBILL")
  }

  /** `detectSymbolTypeByPattern` of the test double: crypto tickers, then
      ETF, then bond name patterns, then a short alphanumeric ticker as a
      stock; `None` for `null`. */
  function DetectSymbolTypeByPattern(symbol: string): (r: Option<string>)
    ensures r.Some? ==> r.value in ["Crypto", "ETF", "Bond", "Stock"]
    ensures r == Some("Crypto") <==> Text.ToUpper(symbol) in CryptoTickers
    ensures var u := Text.ToUpper(symbol);
            r == Some("ETF") <==> u !in CryptoTickers && LooksLikeEtf(u)
    ensures var u := Text.ToUpper(symbol);
            r == Some("Bond") <==> u !in CryptoTickers && !LooksLikeEtf(u) && LooksLikeBond(u)
    ensures var u := Text.ToUpper(symbol);
            r == Some("Stock") <==>
              u !in CryptoTickers && !LooksLikeEtf(u) && !LooksLikeBond(u) && |u| <= 10 && IsTicker(u)
  {
    var u := Text.ToUpper(symbol);
    if u in CryptoTickers then Some("Crypto")
    else if LooksLikeEtf(u) then Some("ETF")
    else if LooksLikeBond(u) then Some("Bond")
    else if |u| <= 10 && IsTicker(u) && !Text.Contains(u, " ") then Some("Stock")
    else None
  }

  /** No guess is made exactly when the upper-cased symbol is no crypto
      ticker, has no fund or bond pattern, and is not a ticker of at most ten
      letters and digits (a ticker has no space, so the `includes(' ')` test
      never decides). */
  lemma PatternNone(symbol: string)
    ensures var u := Text.ToUpper(symbol);
            DetectSymbolTypeByPattern(symbol) == None <==>
              u !in CryptoTickers && !LooksLikeEtf(u) && !LooksLikeBond(u) && !(|u| <= 10 && IsTicker(u))
  {
  }

  /** The guess ignores case. */
  lemma PatternIgnoresCase(s: string)
    ensures DetectSymbolTypeByPattern(Text.ToLower(s)) == DetectSymbolTypeByPattern(s)
    ensures DetectSymbolTypeByPattern(Text.ToUpper(s)) == DetectSymbolTypeByPattern(s)
  {
    Text.ToUpperOfToLower(s);
    Text.ToUpperIdempotent(s);
  }

  /** A crypto ticker is never taken for a stock, though it has a ticker's shape. */
  lemma CryptoBeforeStock(s: string)
    requires Text.ToUpper(s) in CryptoTickers
    ensures DetectSymbolTypeByPattern(s) == Some("Crypto")
    ensures IsTicker(Text.ToUpper(s)) && |Text.ToUpper(s)| <= 10
  {
    CryptoTickersAreTickers();
  }

  lemma CryptoTickersAreTickers()
    ensures forall t :: t in CryptoTickers ==> IsTicker(t) && |t| <= 10
  {
    forall t | t in CryptoTickers
      ensures IsTicker(t) && |t| <= 10
    {
      var i :| 0 <= i < |CryptoTickers| && CryptoTickers[i] == t;
    }
  }

  /** The test suite's examples: a name with "ETF" in it, an exchange-traded
      fund ticker prefix, a treasury, a plain ticker, a lower-case crypto
      ticker, and a dotted ticker that matches no pattern. */
  lemma PatternOfEtfName(s: string)
    requires s == "SPY ETF"
    ensures DetectSymbolTypeByPattern(s) == Some("ETF")
  {
    Text.ToUpperOfFixed(s);
    assert Text.StartsWith(s, "SPY");
  }

  lemma PatternOfTreasury(s: string)
    requires s == "US_TREASURY"
    ensures DetectSymbolTypeByPattern(s) == Some("Bond")
  {
    UpperCaseTreasury(s);
    NoEtfInTreasury(s);
    TreasuryInTreasury(s);
  }

  lemma NoEtfInTreasury(s: string)
    requires s == "US_TREASURY"
    ensures !LooksLikeEtf(s)
  {
    Text.ContainsNeedsChar(s, "ETF", 'F');
    assert s[..2] != "VO" && s[..3] != "SPY" && s[..3] != "QQQ" && s[..3] != "DIA" && s[..3] != "VTI" by {
      assert s[0] == 'U';
    }
  }

  lemma TreasuryInTreasury(s: string)
    requires s == "US_TREASURY"
    ensures Text.Contains(s, "TREASURY")
  {
    assert s[3..11] == "TREASURY";
    Text.ContainsAt(s, 3, "TREASURY");
  }

  lemma UpperCaseTreasury(s: string)
    requires s == "US_TREASURY"
    ensures Text.ToUpper(s) == s
  {
    Text.ToUpperOfFixed(s);
  }

  lemma PatternOfPlainTicker(s: string)
    requires s == "UNKNOWN1"
    ensures DetectSymbolTypeByPattern(s) == Some("Stock")
  {
    UpperCasePlainTicker(s);
    NoPatternInPlainTicker(s);
  }

  lemma UpperCasePlainTicker(s: string)
    requires s == "UNKNOWN1"
    ensures Text.ToUpper(s) == s && IsTicker(s)
  {
    Text.ToUpperOfFixed(s);
    assert forall i :: 0 <= i < |s| ==> IsTickerChar(s[i]);
  }

  lemma NoPatternInPlainTicker(s: string)
    requires s == "UNKNOWN1"
    ensures !LooksLikeEtf(s) && !LooksLikeBond(s) && !Text.Contains(s, " ")
  {
    NoEtfInPlainTicker(s);
    NoBondInPlainTicker(s);
    Text.ContainsNeedsChar(s, " ", ' ');
  }

  lemma NoEtfInPlainTicker(s: string)
    requires s == "UNKNOWN1"
    ensures !LooksLikeEtf(s)
  {
    Text.ContainsNeedsChar(s, "ETF", 'F');
    assert s[..2] != "VO" && s[..3] != "SPY" && s[..3] != "QQQ" && s[..3] != "DIA" && s[..3] != "VTI" by {
      assert s[0] == 'U';
    }
  }

  lemma NoBondInPlainTicker(s: string)
    requires s == "UNKNOWN1"
    ensures !LooksLikeBond(s)
  {
    Text.ContainsNeedsChar(s, "BOND", 'B');
    Text.ContainsNeedsChar(s, "TREASURY", 'T');
    Text.ContainsNeedsChar(s, "TBILL", 'T');
  }

  lemma PatternOfLowerCrypto(s: string)
    requires s == "btc"
    ensures DetectSymbolTypeByPattern(s) == Some("Crypto")
  {
    assert s == Text.ToLower("BTC");
    Text.ToUpperOfFixed("BTC");
    PatternIgnoresCase("BTC");
  }

  lemma PatternOfDottedTicker(s: string)
    requires s == "BRK.B"
    ensures DetectSymbolTypeByPattern(s) == None
  {
    UpperCaseDottedTicker(s);
    NoPatternInDottedTicker(s);
    assert !IsTickerChar(s[3]);
  }

  lemma UpperCaseDottedTicker(s: string)
    requires s == "BRK.B"
    ensures Text.ToUpper(s) == s
  {
    Text.ToUpperOfFixed(s);
  }

  lemma NoPatternInDottedTicker(s: string)
    requires s == "BRK.B"
    ensures !LooksLikeEtf(s) && !LooksLikeBond(s)
  {
    Text.ContainsNeedsChar(s, "ETF", 'F');
    Text.ContainsNeedsChar(s, "BOND", 'O');
    Text.ContainsNeedsChar(s, "TREASURY", 'T');
    Text.ContainsNeedsChar(s, "TBILL", 'T');
  }

  // ---------------------------------------------------------------------
  // Rows

  /** The header the test double reads the security name from, which lacks
      the second "Ä" of the broker's "VÄÄRTPABER". */
  const MisspeltNameColumn := "VÄRTPABER"

  /** The buy/sell decision of the test double's `parseFile`: one decision
      for the whole file, "Buy" when the account name contains "buy" in any
      case. */
  function AccountAction(account: string): (r: Transactions.Action)
    ensures r == Transactions.Buy <==> exists i :: 0 <= i <= |account| && Text.StartsWith(Text.ToLower(account[i..]), "buy")
  {
    BuyFound(account);
    if Text.Contains(Text.ToLower(account), "buy") then Transactions.Buy else Transactions.Sell
  }

  /** The lower-cased account name contains "buy" exactly when some three
      consecutive characters of the name lower-case to "buy". */
  lemma BuyFound(account: string)
    ensures Text.Contains(Text.ToLower(account), "buy") <==>
            exists i :: 0 <= i <= |account| && Text.StartsWith(Text.ToLower(account[i..]), "buy")
  {
    var low := Text.ToLower(account);
    if Text.Contains(low, "buy") {
      Text.ContainsFound(low, "buy");
      var i :| 0 <= i <= |low| && Text.StartsWith(low[i..], "buy");
      assert low[i..] == Text.ToLower(account[i..]);
    }
    if exists i :: 0 <= i <= |account| && Text.StartsWith(Text.ToLower(account[i..]), "buy") {
      var i :| 0 <= i <= |account| && Text.StartsWith(Text.ToLower(account[i..]), "buy");
      assert low[i..] == Text.ToLower(account[i..]);
      assert low[i..i + 3] == low[i..][..3];
      Text.ContainsAt(low, i, "buy");
    }
  }

  /** An account name with "buy" in it, in any case, gives buying rows, and
      one without gives selling rows. */
  lemma {:induction false} AccountActionOfInfix(before: string, word: string, after: string)
    requires Text.ToLower(word) == "buy"
    ensures AccountAction(before + word + after) == Transactions.Buy
  {
    var low := Text.ToLower(before + word + after);
    assert low[|before|..|before| + 3] == Text.ToLower(word);
    Text.ContainsAt(low, |before|, "buy");
  }

  lemma AccountActionWithoutB(account: string)
    requires 'b' !in Text.ToLower(account)
    ensures AccountAction(account) == Transactions.Sell
  {
    Text.ContainsNeedsChar(Text.ToLower(account), "buy", 'b');
  }

  /** The type the test double records: the mapping's truthy type, or "Other". */
  function TypeOrOther(m: Symbols.Mapping, symbol: string): (r: string)
    ensures r != ""
    ensures Symbols.Known(m, symbol) ==> r == m[symbol]
    ensures !Symbols.Known(m, symbol) ==> r == "Other"
  {
    if Symbols.Known(m, symbol) then m[symbol] else "Other"
  }

  /** `transformRow` of the test double: as the browser's, except that an
      unknown symbol's type is "Other" and the name is read from the misspelt
      column. */
  function TransformRow(m: Symbols.Mapping, row: Transactions.RawRow, account: string, action: Transactions.Action): (t: Transactions.Transaction)
    ensures t.symbol == Transactions.CanonicalSymbol(row) && Text.ToUpper(t.symbol) == t.symbol
    ensures Symbols.Known(m, t.symbol) ==> t.assetType == m[t.symbol]
    ensures !Symbols.Known(m, t.symbol) ==> t.assetType == "Other"
    ensures t.date == CivilDate.ParseIsoDate(Transactions.TextOf(row, Transactions.TradeDateColumn))
    ensures t.account == account && t.action == action
    ensures t.name == Transactions.TextOf(row, MisspeltNameColumn)
    ensures t.currency == Transactions.TextOf(row, Transactions.CurrencyColumn)
    ensures t.amount == JsNumber.Coerce(Transactions.Field(row, Transactions.AmountColumn))
    ensures t.price == JsNumber.Coerce(Transactions.Field(row, Transactions.PriceColumn))
    ensures t.cost == JsNumber.Coerce(Transactions.Field(row, Transactions.NetColumn))
    ensures t.fee == JsNumber.Coerce(Transactions.Field(row, Transactions.FeeColumn))
    ensures MisspeltNameColumn !in row ==> t.name == ""
    ensures Transactions.CurrencyColumn !in row ==> t.currency == ""
    ensures Transactions.AmountColumn !in row ==> t.amount == JsNumber.Finite(0.0)
    ensures Transactions.PriceColumn !in row ==> t.price == JsNumber.Finite(0.0)
    ensures Transactions.NetColumn !in row ==> t.cost == JsNumber.Finite(0.0)
    ensures Transactions.FeeColumn !in row ==> t.fee == JsNumber.Finite(0.0)
  {
    var symbol := Transactions.CanonicalSymbol(row);
    Transactions.Transaction(
      CivilDate.ParseIsoDate(Transactions.TextOf(row, Transactions.TradeDateColumn)),
      account,
      TypeOrOther(m, symbol),
      action,
      symbol,
      Transactions.TextOf(row, MisspeltNameColumn),
      Transactions.TextOf(row, Transactions.CurrencyColumn),
      JsNumber.Coerce(Transactions.Field(row, Transactions.AmountColumn)),
      JsNumber.Coerce(Transactions.Field(row, Transactions.PriceColumn)),
      JsNumber.Coerce(Transactions.Field(row, Transactions.NetColumn)),
      JsNumber.Coerce(Transactions.Field(row, Transactions.FeeColumn)))
  }

  /** The test double's entry is the browser class's with two fields
      replaced: the type defaults to "Other" where the browser says
      "Missing", and the name comes from the misspelt column, so a broker
      file's names come out empty. */
  lemma TransformRowVersusBrowser(m: Symbols.Mapping, row: Transactions.RawRow, account: string, action: Transactions.Action)
    ensures var t := Transactions.TransformRow(m, row, account, action);
            && TransformRow(m, row, account, action)
               == t.(assetType := if t.assetType == "Missing" && !Symbols.Known(m, t.symbol) then "Other" else t.assetType,
                     name := Transactions.TextOf(row, MisspeltNameColumn))
            && (MisspeltNameColumn !in row ==> TransformRow(m, row, account, action).name == "")
  {
  }

  /** The test double's `parseFile` on given rows: the empty rows dropped
      and the rest transformed with the file's account and its one
      buy/sell decision. */
  function ParseRows(m: Symbols.Mapping, fileName: string, rows: seq<Transactions.RawRow>): (r: seq<Transactions.Transaction>)
    ensures |r| <= |rows|
  {
    var account := Transactions.AccountName(fileName);
    Sequences.Map((row: Transactions.RawRow) => TransformRow(m, row, account, AccountAction(account)),
                  Transactions.KeptRows(rows))
  }

  /** The two rows the mocked CSV parser hands over for every file. */
  const MockRows: seq<Transactions.RawRow> := [
    map[Transactions.TradeDateColumn := "2024-10-30", Transactions.SymbolColumn := "XAD5",
        MisspeltNameColumn := "db Physical Gold ETC (EUR)", Transactions.CurrencyColumn := "EUR",
        Transactions.AmountColumn := "0.080", Transactions.PriceColumn := "247.66",
        Transactions.NetColumn := "-19.80", Transactions.FeeColumn := "-0.20"],
    map[Transactions.TradeDateColumn := "2024-10-30", Transactions.SymbolColumn := "XAD6",
        MisspeltNameColumn := "Xtrackers Physical Silver ETC EUR", Transactions.CurrencyColumn := "EUR",
        Transactions.AmountColumn := "0.067", Transactions.PriceColumn := "296.60",
        Transactions.NetColumn := "-19.80", Transactions.FeeColumn := "-0.20"]]

  /** `parseFile` of the test double: the mock rows read as the named file. */
  function ParseFile(m: Symbols.Mapping, fileName: string): (r: seq<Transactions.Transaction>)
    ensures |r| <= 2
  {
    ParseRows(m, fileName, MockRows)
  }

  /** Both mock rows have a trade date and a symbol, so every file gives two
      entries. */
  lemma MockRowsKept()
    ensures Transactions.KeptRows(MockRows) == MockRows
  {
    var rows := MockRows;
    assert Transactions.KeepRow(rows[0]) && Transactions.KeepRow(rows[1]);
    assert rows[1..][1..] == [];
  }

  /** Every file reads as the two mock rows transformed in order, with the
      file's account and its one buy/sell decision. */
  lemma MockFileEntries(m: Symbols.Mapping, fileName: string)
    ensures var r := ParseFile(m, fileName);
            var account := Transactions.AccountName(fileName);
            && |r| == 2
            && r[0] == TransformRow(m, MockRows[0], account, AccountAction(account))
            && r[1] == TransformRow(m, MockRows[1], account, AccountAction(account))
  {
    MockRowsKept();
    var account := Transactions.AccountName(fileName);
    var f := (row: Transactions.RawRow) => TransformRow(m, row, account, AccountAction(account));
    Sequences.MapAt(f, MockRows, 0);
    Sequences.MapAt(f, MockRows, 1);
  }

  /** Every entry of a file carries the file's account and the one decision
      drawn from it; with the mapping the constructor leaves, every type is
      "Other". */
  lemma ParseRowsUniform(m: Symbols.Mapping, fileName: string, rows: seq<Transactions.RawRow>, i: nat)
    requires i < |ParseRows(m, fileName, rows)|
    ensures var t := ParseRows(m, fileName, rows)[i];
            var account := Transactions.AccountName(fileName);
            && t.account == account
            && t.action == AccountAction(account)
            && (m == map[] ==> t.assetType == "Other")
  {
    var account := Transactions.AccountName(fileName);
    Sequences.MapAt((row: Transactions.RawRow) => TransformRow(m, row, account, AccountAction(account)),
                    Transactions.KeptRows(rows), i);
  }
}
