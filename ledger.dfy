/** The ledger order of `displayResults`: the entries are sorted by trade
    date with the comparator `a.Date.getTime() - b.Date.getTime()`. */
module Ledger {
  import opened Wrappers
  import Transactions

  type Entry = Transactions.Transaction

  /** The comparator is negative: `a` is a valid date strictly earlier than
      the valid date `b`. An Invalid Date makes the difference NaN, which the
      sort reads as "equal". */
  predicate Before(a: Option<int>, b: Option<int>)
  {
    a.Some? && b.Some? && a.value < b.value
  }

  /** `x` placed in front of the first entry that is not strictly earlier. */
  function Inserted(x: Entry, s: seq<Entry>): (r: seq<Entry>)
    ensures |r| == |s| + 1
  {
    if s == [] then [x]
    else if Before(s[0].date, x.date) then [s[0]] + Inserted(x, s[1..])
    else [x] + s
  }

  /** The sorted ledger: a stable insertion sort under the comparator. */
  function SortByDate(s: seq<Entry>): (r: seq<Entry>)
    ensures |r| == |s|
  {
    if s == [] then [] else Inserted(s[0], SortByDate(s[1..]))
  }

  /** No entry comes after one with a later date. */
  predicate Sorted(s: seq<Entry>)
  {
    forall i, j :: 0 <= i < j < |s| ==> !Before(s[j].date, s[i].date)
  }

  /** Every entry has a valid trade date. */
  predicate Dated(s: seq<Entry>)
  {
    forall t :: t in s ==> t.date.Some?
  }

  /** The entries of `s` with trade date `d`, in order. */
  function OnDate(s: seq<Entry>, d: Option<int>): seq<Entry>
  {
    if s == [] then []
    else if s[0].date == d then [s[0]] + OnDate(s[1..], d)
    else OnDate(s[1..], d)
  }

  lemma {:induction false} InsertedPermutes(x: Entry, s: seq<Entry>)
    ensures multiset(Inserted(x, s)) == multiset{x} + multiset(s)
  {
    if s != [] && Before(s[0].date, x.date) {
      InsertedPermutes(x, s[1..]);
      assert s == [s[0]] + s[1..];
    }
  }

  /** Sorting rearranges the entries: none is lost, added or duplicated. */
  lemma {:induction false} SortPermutes(s: seq<Entry>)
    ensures multiset(SortByDate(s)) == multiset(s)
  {
    if s != [] {
      SortPermutes(s[1..]);
      InsertedPermutes(s[0], SortByDate(s[1..]));
      assert s == [s[0]] + s[1..];
    }
  }

  lemma {:induction false} InsertedSorted(x: Entry, s: seq<Entry>)
    requires Sorted(s) && Dated(s) && x.date.Some?
    ensures Sorted(Inserted(x, s))
  {
    if s != [] && Before(s[0].date, x.date) {
      InsertedSorted(x, s[1..]);
      InsertedPermutes(x, s[1..]);
      var r := Inserted(x, s[1..]);
      forall k | 0 <= k < |r|
        ensures !Before(r[k].date, s[0].date)
      {
        assert r[k] in multiset(r);
        if r[k] != x {
          assert r[k] in s[1..];
        }
      }
    }
  }

  /** When every entry has a valid date, the ledger is in date order. */
  lemma {:induction false} SortedOfDated(s: seq<Entry>)
    requires Dated(s)
    ensures Sorted(SortByDate(s))
  {
    if s != [] {
      SortedOfDated(s[1..]);
      SortPermutes(s[1..]);
      var r := SortByDate(s[1..]);
      forall t | t in r
        ensures t.date.Some?
      {
        assert t in multiset(r);
      }
      InsertedSorted(s[0], r);
    }
  }

  lemma {:induction false} InsertedOnDate(x: Entry, s: seq<Entry>, d: Option<int>)
    ensures OnDate(Inserted(x, s), d) == if x.date == d then [x] + OnDate(s, d) else OnDate(s, d)
  {
    if s != [] && Before(s[0].date, x.date) {
      InsertedOnDate(x, s[1..], d);
    } else if s != [] {
      assert ([x] + s)[1..] == s;
    }
  }

  /** The sort is stable: entries with the same trade date (all Invalid Dates
      among them) keep the order they were read in. */
  lemma {:induction false} SortStable(s: seq<Entry>, d: Option<int>)
    ensures OnDate(SortByDate(s), d) == OnDate(s, d)
  {
    if s != [] {
      SortStable(s[1..], d);
      InsertedOnDate(s[0], SortByDate(s[1..]), d);
    }
  }
}
