/** The files of a run and the two passes `processFiles` makes over them:
    the `.csv` filter of `handleFileSelect`, the `splice` of `removeFile`,
    the reading of one file (`parseFile`), the discovery pass that collects
    the distinct symbols, and the materialisation pass that concatenates the
    files' entries. */
module Batch {
  import opened Wrappers
  import Text
  import Symbols
  import Transactions
  import Sequences

  type Entry = Transactions.Transaction

  /** What the CSV parser makes of a file: its records, or an error (the
      parser's `error` callback), which rejects `parseFile`. */
  datatype Contents = Records(rows: seq<Transactions.RawRow>) | Unreadable

  datatype SourceFile = SourceFile(name: string, contents: Contents)

  // ---------------------------------------------------------------------
  // The file list

  /** `file.name.endsWith('.csv')`. */
  predicate IsCsv(f: SourceFile)
  {
    Text.EndsWith(f.name, ".csv")
  }

  /** `files.filter(file => file.name.endsWith('.csv'))`. */
  function CsvFiles(files: seq<SourceFile>): (r: seq<SourceFile>)
    ensures |r| <= |files|
  {
    if files == [] then []
    else if IsCsv(files[0]) then [files[0]] + CsvFiles(files[1..])
    else CsvFiles(files[1..])
  }

  /** Filtering a selection is filtering its parts: every file keeps its
      place and its multiplicity. */
  lemma {:induction false} CsvFilesAppend(a: seq<SourceFile>, b: seq<SourceFile>)
    ensures CsvFiles(a + b) == CsvFiles(a) + CsvFiles(b)
  {
    if a != [] {
      assert (a + b)[1..] == a[1..] + b;
      CsvFilesAppend(a[1..], b);
    } else {
      assert a + b == b;
    }
  }

  /** The filter keeps exactly the files whose name ends in ".csv" (case
      matters). */
  lemma {:induction false} CsvFilesMembers(files: seq<SourceFile>, f: SourceFile)
    ensures f in CsvFiles(files) <==> f in files && IsCsv(f)
  {
    if files != [] {
      CsvFilesMembers(files[1..], f);
      assert files == [files[0]] + files[1..];
    }
  }

  /** The filter keeps the order of the selection. */
  lemma {:induction false} CsvFilesInOrder(files: seq<SourceFile>)
    ensures Sequences.Subsequence(CsvFiles(files), files)
  {
    if files != [] {
      CsvFilesInOrder(files[1..]);
      if IsCsv(files[0]) {
        assert CsvFiles(files)[1..] == CsvFiles(files[1..]);
      } else {
        Sequences.SubsequenceDrop(CsvFiles(files), files);
      }
    }
  }

  /** The position `splice(index, 1)` starts at: a negative index counts
      from the end, and both ends are clamped to the list. */
  function SpliceStart(len: nat, index: int): (k: nat)
    ensures k <= len
  {
    if index < 0 then (if len + index < 0 then 0 else len + index)
    else if index > len then len
    else index
  }

  /** `files.splice(index, 1)`: the file at the start position is removed;
      an index past the end removes nothing. */
  function RemoveAt(files: seq<SourceFile>, index: int): (r: seq<SourceFile>)
    ensures |r| == if SpliceStart(|files|, index) < |files| then |files| - 1 else |files|
    ensures forall f :: f in r ==> f in files
  {
    var k := SpliceStart(|files|, index);
    if k < |files| then files[..k] + files[k + 1..] else files
  }

  /** Removing a listed file drops that file and shifts the later ones down. */
  lemma RemoveListed(files: seq<SourceFile>, index: int, j: nat)
    requires 0 <= index < |files|
    requires j < |files| - 1
    ensures |RemoveAt(files, index)| == |files| - 1
    ensures RemoveAt(files, index)[j] == if j < index then files[j] else files[j + 1]
  {
  }

  /** The removal takes out exactly one file, the one at the start position. */
  lemma RemoveOne(files: seq<SourceFile>, index: int)
    requires SpliceStart(|files|, index) < |files|
    ensures multiset(RemoveAt(files, index)) + multiset{files[SpliceStart(|files|, index)]} == multiset(files)
  {
    var k := SpliceStart(|files|, index);
    assert files == files[..k] + [files[k]] + files[k + 1..];
  }

  /** A negative index counts from the end: -1 removes the last file. */
  lemma RemoveLast(files: seq<SourceFile>)
    requires files != []
    ensures RemoveAt(files, -1) == files[..|files| - 1]
  {
  }

  /** An index at or past the end removes nothing. */
  lemma RemovePastEnd(files: seq<SourceFile>, index: int)
    requires index >= |files|
    ensures RemoveAt(files, index) == files
  {
  }

  // ---------------------------------------------------------------------
  // Reading one file

  /** `parseFile`: the file's entries under the lookup `m`, or `None` when
      the parser fails. */
  function ParseFile(m: Symbols.Mapping, f: SourceFile): (r: Option<seq<Entry>>)
    ensures r.None? <==> f.contents.Unreadable?
    ensures r.Some? ==> |r.value| <= |f.contents.rows|
  {
    match f.contents
    case Unreadable => None
    case Records(rows) => Some(Transactions.NormalizeRows(m, Transactions.AccountName(f.name), rows))
  }

  /** What reading each file gives, in file order. */
  function Readings(m: Symbols.Mapping, files: seq<SourceFile>): (r: seq<Option<seq<Entry>>>)
    ensures |r| == |files|
  {
    Sequences.Map((f: SourceFile) => ParseFile(m, f), files)
  }

  /** A file reads as `None` exactly when the parser fails on it. */
  lemma ReadingAt(m: Symbols.Mapping, files: seq<SourceFile>, i: nat)
    requires i < |files|
    ensures Readings(m, files)[i] == ParseFile(m, files[i])
    ensures Readings(m, files)[i].None? <==> files[i].contents.Unreadable?
  {
    Sequences.MapAt((f: SourceFile) => ParseFile(m, f), files, i);
  }

  /** The parser reads every one of the files. */
  predicate AllReadable(files: seq<SourceFile>)
  {
    forall i :: 0 <= i < |files| ==> files[i].contents.Records?
  }

  /** Some reading failed exactly when some file is unreadable. */
  lemma ReadingsFail(m: Symbols.Mapping, files: seq<SourceFile>)
    ensures (exists i :: 0 <= i < |files| && Readings(m, files)[i].None?) <==> !AllReadable(files)
  {
    forall i | 0 <= i < |files|
      ensures Readings(m, files)[i].None? <==> files[i].contents.Unreadable?
    {
      ReadingAt(m, files, i);
    }
  }

  /** Reading one more file adds its result at the end. */
  lemma ReadingsSnoc(m: Symbols.Mapping, files: seq<SourceFile>, f: SourceFile)
    ensures Readings(m, files + [f]) == Readings(m, files) + [ParseFile(m, f)]
  {
    Sequences.MapAppend((f: SourceFile) => ParseFile(m, f), files, [f]);
  }

  /** The symbols of a list of entries, in order. */
  function SymbolsOf(ts: seq<Entry>): (r: seq<string>)
    ensures |r| == |ts|
    ensures forall i :: 0 <= i < |ts| ==> r[i] == ts[i].symbol
  {
    if ts == [] then [] else SymbolsOf(ts[..|ts| - 1]) + [ts[|ts| - 1].symbol]
  }

  lemma {:induction false} SymbolsOfAppend(a: seq<Entry>, b: seq<Entry>)
    ensures SymbolsOf(a + b) == SymbolsOf(a) + SymbolsOf(b)
  {
    if b != [] {
      assert (a + b)[..|a + b| - 1] == a + b[..|b| - 1];
      SymbolsOfAppend(a, b[..|b| - 1]);
    } else {
      assert a + b == a;
    }
  }

  /** The symbols of transformed rows are the rows' canonical symbols,
      whatever the lookup. */
  lemma {:induction false} SymbolsOfEntries(m: Symbols.Mapping, account: string, rows: seq<Transactions.RawRow>)
    ensures SymbolsOf(Sequences.Map(Transactions.Entry(m, account), rows)) == CanonicalSymbols(rows)
  {
    var n := |rows|;
    if n > 0 {
      var f := Transactions.Entry(m, account);
      Sequences.MapAppend(f, rows[..n - 1], [rows[n - 1]]);
      assert rows[..n - 1] + [rows[n - 1]] == rows;
      SymbolsOfEntries(m, account, rows[..n - 1]);
      var last := Sequences.Map(f, [rows[n - 1]]);
      Sequences.MapAt(f, [rows[n - 1]], 0);
      SymbolsOfAppend(Sequences.Map(f, rows[..n - 1]), last);
      assert SymbolsOf(last) == [last[0].symbol] by {
        assert last[..0] == [];
      }
    }
  }

  /** The canonical symbols of rows, in order. */
  function CanonicalSymbols(rows: seq<Transactions.RawRow>): seq<string>
  {
    if rows == [] then [] else CanonicalSymbols(rows[..|rows| - 1]) + [Transactions.CanonicalSymbol(rows[|rows| - 1])]
  }

  /** The symbols of a file's entries do not depend on the lookup. */
  lemma SymbolsIgnoreLookup(m: Symbols.Mapping, m2: Symbols.Mapping, f: SourceFile)
    requires f.contents.Records?
    ensures SymbolsOf(ParseFile(m, f).value) == SymbolsOf(ParseFile(m2, f).value)
  {
    var account := Transactions.AccountName(f.name);
    var kept := Transactions.KeptRows(f.contents.rows);
    SymbolsOfEntries(m, account, kept);
    SymbolsOfEntries(m2, account, kept);
  }

  // ---------------------------------------------------------------------
  // The discovery pass

  /** `Set.add` on an insertion-ordered set: `x` is in it afterwards, the
      earlier members keep their places, nothing else is added and no
      member is repeated. */
  function AddSymbol(seen: seq<string>, x: string): (r: seq<string>)
    ensures x in r && |seen| <= |r| <= |seen| + 1 && r[..|seen|] == seen
    ensures NoDuplicates(seen) ==> NoDuplicates(r)
  {
    if x in seen then seen else seen + [x]
  }

  /** The set `seen` after every symbol of `xs` is added, in order. */
  function Collected(seen: seq<string>, xs: seq<string>): (r: seq<string>)
    ensures |seen| <= |r|
  {
    if xs == [] then seen else AddSymbol(Collected(seen, xs[..|xs| - 1]), xs[|xs| - 1])
  }

  predicate NoDuplicates(s: seq<string>)
  {
    forall i, j :: 0 <= i < j < |s| ==> s[i] != s[j]
  }

  /** The collected symbols are those seen before and those added. */
  lemma {:induction false} CollectedMembers(seen: seq<string>, xs: seq<string>, x: string)
    ensures x in Collected(seen, xs) <==> x in seen || x in xs
  {
    if xs != [] {
      CollectedMembers(seen, xs[..|xs| - 1], x);
      assert xs == xs[..|xs| - 1] + [xs[|xs| - 1]];
    }
  }

  /** Each symbol is collected once, and the symbols seen before keep their
      places in front. */
  lemma {:induction false} CollectedDistinct(seen: seq<string>, xs: seq<string>)
    requires NoDuplicates(seen)
    ensures NoDuplicates(Collected(seen, xs))
    ensures Collected(seen, xs)[..|seen|] == seen
  {
    if xs != [] {
      CollectedDistinct(seen, xs[..|xs| - 1]);
      var before := Collected(seen, xs[..|xs| - 1]);
      var x := xs[|xs| - 1];
      if x !in before {
        assert (before + [x])[..|seen|] == before[..|seen|];
      }
    }
  }

  /** Adding two runs of symbols is adding their concatenation. */
  lemma {:induction false} CollectedAppend(seen: seq<string>, xs: seq<string>, ys: seq<string>)
    ensures Collected(Collected(seen, xs), ys) == Collected(seen, xs + ys)
  {
    if ys != [] {
      CollectedAppend(seen, xs, ys[..|ys| - 1]);
      assert (xs + ys)[..|xs + ys| - 1] == xs + ys[..|ys| - 1];
    } else {
      assert xs + ys == xs;
    }
  }

  /** The symbols the first pass collects from the readings `rs`, or `None`
      as soon as one file could not be read. */
  function Discovered(rs: seq<Option<seq<Entry>>>): Option<seq<string>>
  {
    if rs == [] then Some([])
    else
      match Discovered(rs[..|rs| - 1])
      case None => None
      case Some(seen) =>
        match rs[|rs| - 1]
        case None => None
        case Some(ts) => Some(Collected(seen, SymbolsOf(ts)))
  }

  /** `processFiles`'s first pass: the distinct symbols of all the files'
      entries, in order of first appearance. */
  function FirstPass(m: Symbols.Mapping, files: seq<SourceFile>): (r: Option<seq<string>>)
    ensures r.None? <==> !AllReadable(files)
  {
    PassesFail(Readings(m, files));
    ReadingsFail(m, files);
    Discovered(Readings(m, files))
  }

  // ---------------------------------------------------------------------
  // The materialisation pass

  /** The entries pushed so far, and whether every file was read. */
  datatype Pass = Pass(entries: seq<Entry>, complete: bool)

  /** The entries of the readings `rs` concatenated in order, up to the first
      file that could not be read. */
  function Joined(rs: seq<Option<seq<Entry>>>): Pass
  {
    if rs == [] then Pass([], true)
    else
      var before := Joined(rs[..|rs| - 1]);
      if !before.complete then before
      else
        match rs[|rs| - 1]
        case None => Pass(before.entries, false)
        case Some(ts) => Pass(before.entries + ts, true)
  }

  /** `processFiles`'s second pass under the lookup as it is by then. */
  function SecondPass(m: Symbols.Mapping, files: seq<SourceFile>): (r: Pass)
    ensures r.complete <==> AllReadable(files)
  {
    PassesFail(Readings(m, files));
    ReadingsFail(m, files);
    Joined(Readings(m, files))
  }

  /** Both passes fail exactly when some reading failed. */
  lemma {:induction false} PassesFail(rs: seq<Option<seq<Entry>>>)
    ensures Discovered(rs).None? <==> exists i :: 0 <= i < |rs| && rs[i].None?
    ensures Joined(rs).complete <==> Discovered(rs).Some?
  {
    var n := |rs|;
    if n > 0 {
      var init := rs[..n - 1];
      PassesFail(init);
      if exists i :: 0 <= i < |init| && init[i].None? {
        var i :| 0 <= i < |init| && init[i].None?;
        assert rs[i].None?;
      }
      if exists i :: 0 <= i < n && rs[i].None? {
        var i :| 0 <= i < n && rs[i].None?;
        if i < n - 1 {
          assert init[i].None?;
        }
      }
    }
  }

  /** A run is stopped by the first file the parser fails on: on that
      file or later, neither pass completes. */
  lemma PassesFailOnUnreadable(m: Symbols.Mapping, files: seq<SourceFile>, i: nat)
    requires i < |files| && files[i].contents.Unreadable?
    ensures FirstPass(m, files).None?
    ensures !SecondPass(m, files).complete
  {
    ReadingAt(m, files, i);
    PassesFail(Readings(m, files));
  }

  /** The second pass is a concatenation in file order: reading `a + b` is
      reading `a` and then `b`. */
  lemma {:induction false} JoinedAppend(a: seq<Option<seq<Entry>>>, b: seq<Option<seq<Entry>>>)
    requires Joined(a).complete
    ensures Joined(a + b) == Pass(Joined(a).entries + Joined(b).entries, Joined(b).complete)
  {
    if b == [] {
      assert a + b == a;
    } else {
      var n := |b|;
      JoinedAppend(a, b[..n - 1]);
      assert (a + b)[..|a + b| - 1] == a + b[..n - 1];
      var pa, pb := Joined(a), Joined(b[..n - 1]);
      if pb.complete && b[n - 1].Some? {
        assert pa.entries + pb.entries + b[n - 1].value == pa.entries + (pb.entries + b[n - 1].value);
      }
    }
  }

  /** With every file readable, the second pass is every file's entries in
      file order. */
  lemma SecondPassAppend(m: Symbols.Mapping, a: seq<SourceFile>, b: seq<SourceFile>)
    requires SecondPass(m, a).complete
    ensures SecondPass(m, a + b) == Pass(SecondPass(m, a).entries + SecondPass(m, b).entries, SecondPass(m, b).complete)
  {
    Sequences.MapAppend((f: SourceFile) => ParseFile(m, f), a, b);
    JoinedAppend(Readings(m, a), Readings(m, b));
  }

  /** What the first pass collects is the distinct symbols of what the second
      pass pushes, whatever the lookup was changed to in between. */
  lemma {:induction false} DiscoveredCoversJoined(rs: seq<Option<seq<Entry>>>, rs2: seq<Option<seq<Entry>>>)
    requires |rs| == |rs2|
    requires forall i :: 0 <= i < |rs| ==> rs[i].Some? == rs2[i].Some?
    requires forall i :: 0 <= i < |rs| && rs[i].Some? ==> SymbolsOf(rs[i].value) == SymbolsOf(rs2[i].value)
    requires Joined(rs2).complete
    ensures Discovered(rs) == Some(Collected([], SymbolsOf(Joined(rs2).entries)))
  {
    var n := |rs|;
    if n > 0 {
      DiscoveredCoversJoined(rs[..n - 1], rs2[..n - 1]);
      var p := Joined(rs2[..n - 1]);
      var ts := rs2[n - 1].value;
      SymbolsOfAppend(p.entries, ts);
      CollectedAppend([], SymbolsOf(p.entries), SymbolsOf(ts));
    }
  }

  /** Every symbol the second pass puts in the ledger was offered for
      classification by the first pass over the same files. */
  lemma FirstPassCoversSecond(m: Symbols.Mapping, m2: Symbols.Mapping, files: seq<SourceFile>)
    requires SecondPass(m2, files).complete
    ensures FirstPass(m, files) == Some(Collected([], SymbolsOf(SecondPass(m2, files).entries)))
  {
    var rs, rs2 := Readings(m, files), Readings(m2, files);
    forall i | 0 <= i < |rs|
      ensures rs[i].Some? == rs2[i].Some?
      ensures rs[i].Some? ==> SymbolsOf(rs[i].value) == SymbolsOf(rs2[i].value)
    {
      ReadingAt(m, files, i);
      ReadingAt(m2, files, i);
      if files[i].contents.Records? {
        SymbolsIgnoreLookup(m, m2, files[i]);
      }
    }
    DiscoveredCoversJoined(rs, rs2);
  }

  /** Once a file fails, the second pass pushes nothing more: what follows
      the failure is not read. */
  lemma {:induction false} JoinedStops(a: seq<Option<seq<Entry>>>, b: seq<Option<seq<Entry>>>)
    requires !Joined(a).complete
    ensures Joined(a + b) == Joined(a)
  {
    if b == [] {
      assert a + b == a;
    } else {
      JoinedStops(a, b[..|b| - 1]);
      assert (a + b)[..|a + b| - 1] == a + b[..|b| - 1];
    }
  }

  /** The files after the first failure do not change the second pass. */
  lemma SecondPassStops(m: Symbols.Mapping, a: seq<SourceFile>, b: seq<SourceFile>)
    requires !SecondPass(m, a).complete
    ensures SecondPass(m, a + b) == SecondPass(m, a)
  {
    Sequences.MapAppend((f: SourceFile) => ParseFile(m, f), a, b);
    JoinedStops(Readings(m, a), Readings(m, b));
  }

  /** The second pass over one more file, after every earlier file was read:
      that file's entries are pushed, or the pass stops at it. */
  lemma SecondPassSnoc(m: Symbols.Mapping, a: seq<SourceFile>, f: SourceFile)
    requires SecondPass(m, a).complete
    ensures SecondPass(m, a + [f]) ==
              match ParseFile(m, f)
              case None => Pass(SecondPass(m, a).entries, false)
              case Some(ts) => Pass(SecondPass(m, a).entries + ts, true)
  {
    ReadingsSnoc(m, a, f);
    var rs := Readings(m, a) + [ParseFile(m, f)];
    assert rs[..|rs| - 1] == Readings(m, a);
  }

  /** The first pass over one more file: that file's symbols are added to
      the set, or the pass fails at it. */
  lemma FirstPassSnoc(m: Symbols.Mapping, a: seq<SourceFile>, f: SourceFile)
    requires FirstPass(m, a).Some?
    ensures FirstPass(m, a + [f]) ==
              match ParseFile(m, f)
              case None => None
              case Some(ts) => Some(Collected(FirstPass(m, a).value, SymbolsOf(ts)))
  {
    ReadingsSnoc(m, a, f);
    var rs := Readings(m, a) + [ParseFile(m, f)];
    assert rs[..|rs| - 1] == Readings(m, a);
  }

  /** The first pass over the files up to and including a readable one. */
  lemma FirstPassStep(m: Symbols.Mapping, files: seq<SourceFile>, i: nat, seen: seq<string>)
    requires i < |files| && files[i].contents.Records?
    requires FirstPass(m, files[..i]) == Some(seen)
    ensures FirstPass(m, files[..i + 1]) == Some(Collected(seen, SymbolsOf(ParseFile(m, files[i]).value)))
  {
    var before, f := files[..i], files[i];
    assert files[..i + 1] == before + [f];
    assert ParseFile(m, f) == Some(ParseFile(m, f).value);
    FirstPassSnoc(m, before, f);
  }

  /** The second pass over the files up to and including a readable one,
      after every earlier file was read. */
  lemma SecondPassStep(m: Symbols.Mapping, files: seq<SourceFile>, i: nat, entries: seq<Entry>)
    requires i < |files| && files[i].contents.Records?
    requires SecondPass(m, files[..i]) == Pass(entries, true)
    ensures SecondPass(m, files[..i + 1]) == Pass(entries + ParseFile(m, files[i]).value, true)
  {
    var before, f := files[..i], files[i];
    assert files[..i + 1] == before + [f];
    assert ParseFile(m, f) == Some(ParseFile(m, f).value);
    SecondPassSnoc(m, before, f);
  }

  /** The second pass ends at the first unreadable file with what the
      files before it gave. */
  lemma SecondPassStopsAt(m: Symbols.Mapping, files: seq<SourceFile>, i: nat, entries: seq<Entry>)
    requires i < |files| && files[i].contents.Unreadable?
    requires SecondPass(m, files[..i]) == Pass(entries, true)
    ensures SecondPass(m, files) == Pass(entries, false)
  {
    SecondPassFailsAt(m, files, i, entries);
    SecondPassStops(m, files[..i + 1], files[i + 1..]);
    assert files[..i + 1] + files[i + 1..] == files;
  }

  /** The unreadable file itself ends the pass with what came before it. */
  lemma SecondPassFailsAt(m: Symbols.Mapping, files: seq<SourceFile>, i: nat, entries: seq<Entry>)
    requires i < |files| && files[i].contents.Unreadable?
    requires SecondPass(m, files[..i]) == Pass(entries, true)
    ensures SecondPass(m, files[..i + 1]) == Pass(entries, false)
  {
    var before, f := files[..i], files[i];
    assert files[..i + 1] == before + [f];
    assert ParseFile(m, f) == None;
    SecondPassSnoc(m, before, f);
  }

  /** Once a file fails, the first pass fails whatever follows. */
  lemma FirstPassStops(m: Symbols.Mapping, a: seq<SourceFile>, b: seq<SourceFile>)
    requires FirstPass(m, a).None?
    ensures FirstPass(m, a + b).None?
  {
    var rs := Readings(m, a);
    PassesFail(rs);
    var i :| 0 <= i < |rs| && rs[i].None?;
    Sequences.MapAppend((f: SourceFile) => ParseFile(m, f), a, b);
    var all := Readings(m, a + b);
    assert all[i] == rs[i];
    PassesFail(all);
  }
}
