/** The second phase of ProcessDataset: Buys.Sort and Sells.Sort with a
    comparison of Day. List.Sort is not stable, so entries of the same day may
    come out in any order; the model takes any ordering by Day. */
module Sorting {
  import opened Dates
  import opened Ledger

  /** Non-decreasing Day, ties in any order. */
  predicate SortedByDay(s: seq<LedgerEntry>) {
    forall i, j :: 0 <= i < j < |s| ==> AtOrBefore(s[i].day, s[j].day)
  }

  /** The same on the contents of entries. */
  predicate LotsSortedByDay(s: seq<Lot>) {
    forall i, j :: 0 <= i < j < |s| ==> AtOrBefore(s[i].day, s[j].day)
  }

  lemma SortedViews(s: seq<LedgerEntry>)
    requires SortedByDay(s)
    ensures LotsSortedByDay(Views(s))
  {
  }

  /** x placed before the first entry of s dated on or after it. */
  function InsertByDay(x: LedgerEntry, s: seq<LedgerEntry>): (t: seq<LedgerEntry>)
    requires SortedByDay(s)
    ensures SortedByDay(t)
    ensures multiset(t) == multiset(s) + multiset{x}
    ensures t[0] == x || (s != [] && t[0] == s[0])
  {
    if s == [] then [x]
    else if AtOrBefore(x.day, s[0].day) then
      SortedCons(x, s);
      [x] + s
    else
      var rest := InsertByDay(x, s[1..]);
      BeforeTotal(x.day, s[0].day);
      assert AtOrBefore(s[0].day, rest[0].day);
      SortedCons(s[0], rest);
      assert s == [s[0]] + s[1..];
      [s[0]] + rest
  }

  /** An entry dated no later than the head of a sorted list can go in front. */
  lemma SortedCons(a: LedgerEntry, s: seq<LedgerEntry>)
    requires SortedByDay(s)
    requires s != [] ==> AtOrBefore(a.day, s[0].day)
    ensures SortedByDay([a] + s)
  {
    var t := [a] + s;
    forall i, j | 0 <= i < j < |t| ensures AtOrBefore(t[i].day, t[j].day) {
      if i == 0 && j > 1 {
        BeforeTransitive(a.day, s[0].day, s[j - 1].day);
      }
    }
  }

  /** List.Sort((x, y) => x.Day.CompareTo(y.Day)), computed by insertion.
      The contract admits every rearrangement ordered by Day, which is all
      the unstable List.Sort promises. */
  method SortEntries(s: seq<LedgerEntry>) returns (t: seq<LedgerEntry>)
    ensures SortedByDay(t) && multiset(t) == multiset(s)
  {
    t := [];
    var i := 0;
    while i < |s|
      invariant 0 <= i <= |s|
      invariant SortedByDay(t) && multiset(t) == multiset(s[..i])
    {
      assert s[..i + 1] == s[..i] + [s[i]];
      t := InsertByDay(s[i], t);
      i := i + 1;
    }
    assert s[..i] == s;
  }
}
