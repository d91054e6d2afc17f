/** ProcessDataset from end to end: parse the ledger, sort both lists by Day,
    match every sale against the buys, split the gains into long-term and
    short-term, and write the two gain files and the remainder file. */
module Engine {
  import opened Wrappers
  import opened Text
  import opened Decimals
  import opened Ledger
  import opened Parsing
  import opened Sorting
  import opened Matching
  import opened MatchingFacts
  import opened Classify
  import opened Report

  /** The files a run writes. A gain file is absent when its list is empty;
      the remainder file is always written. */
  datatype Reports = Reports(longTerm: Option<seq<string>>, shortTerm: Option<seq<string>>, remainder: seq<string>)

  /** A gain file is written only for a non-empty list. */
  function GainFileOf(entries: seq<CapGainEntry>): Option<seq<string>> {
    if entries == [] then None else Some(GainLines(entries))
  }

  /** The files written once every sale has been matched: gains are the
      CapitalGains list and buys the Buys list as the matching left them. */
  function ReportsOf(gains: seq<CapGainEntry>, buys: seq<Lot>): Reports {
    Reports(GainFileOf(LongTermGains(gains)), GainFileOf(ShortTermGains(gains)),
            [RemainderHeader] + Rows(LedgerRow, RemainderLots(buys)))
  }

  /** The run on one ordering of the two lists. */
  function RunWith(sells: seq<Lot>, buys: seq<Lot>): Result<Reports, Error> {
    match SettleAll(sells, buys)
    case Err(e) => Err(e)
    case Ok(o) => Ok(ReportsOf(o.gains, o.buys))
  }

  /** sells and buys are the two lists of the ledger, each rearranged by Day. */
  ghost predicate SortedOrders(dataSet: seq<string>, sells: seq<Lot>, buys: seq<Lot>) {
    && LotsSortedByDay(sells) && multiset(sells) == multiset(SellLots(dataSet))
    && LotsSortedByDay(buys) && multiset(buys) == multiset(BuyLots(dataSet))
  }

  /** What ProcessDataset may do with a ledger: stop at a line with fewer than
      four fields, or else match some ordering by Day of the two lists. The
      sort is not stable, so entries of one day may come in any order. */
  ghost predicate IsRun(dataSet: seq<string>, r: Result<Reports, Error>) {
    if HasShortRow(dataSet) then r == Err(IndexOutOfRange)
    else exists sells, buys :: SortedOrders(dataSet, sells, buys) && r == RunWith(sells, buys)
  }

  /** ProcessDataset. Its only ways out are the exceptions it raises: an
      index out of range on a short line, and BadData from the matching. */
  method ProcessDataset(dataSet: seq<string>) returns (r: Result<Reports, Error>)
    ensures IsRun(dataSet, r)
  {
    var lists := ParseDataset(dataSet);
    if lists.Err? {
      return Err(lists.error);
    }
    assert Loaded(dataSet, lists.value.buys, lists.value.sells);
    var buys := SortEntries(lists.value.buys);
    var sells := SortEntries(lists.value.sells);
    Reordered(lists.value.sells, lists.value.buys, sells, buys);
    ghost var sv, bv := Views(sells), Views(buys);
    assert SortedOrders(dataSet, sv, bv);
    r := MatchAndWrite(sells, buys);
    assert r == RunWith(sv, bv);
  }

  /** The matching loop over the sorted lists, then the files. */
  method MatchAndWrite(sells: seq<LedgerEntry>, buys: seq<LedgerEntry>) returns (r: Result<Reports, Error>)
    requires Distinct(sells) && Distinct(buys) && Disjoint(sells, buys)
    modifies Members(sells), Members(buys)
    ensures r == RunWith(old(Views(sells)), old(Views(buys)))
  {
    ghost var sv, bv := Views(sells), Views(buys);
    var matched := MatchSells(sells, buys);
    if matched.Err? {
      return Err(matched.error);
    }
    GainsWellFormed(sv, bv);
    var reports := WriteReports(matched.value, buys);
    return Ok(reports);
  }

  /** The classification foreach and the three files. */
  method WriteReports(gains: seq<CapGainEntry>, buys: seq<LedgerEntry>) returns (reports: Reports)
    requires forall i :: 0 <= i < |gains| ==> WellFormed(gains[i])
    ensures reports == ReportsOf(gains, Views(buys))
  {
    var longTerm, shortTerm := ClassifyGains(gains);
    ClassifiedWellFormed(gains);
    TotalsAgree(longTerm);
    TotalsAgree(shortTerm);
    var longFile := WriteGainFile(longTerm);
    var shortFile := WriteGainFile(shortTerm);
    assert longFile.Ok? && shortFile.Ok?;
    var remainder := RemainderFile(buys);
    reports := Reports(longFile.value, shortFile.value, remainder);
  }

  /** The sorted lists keep the entries of the parsed ones, so they are still
      distinct, disjoint and fresh, and their contents are rearranged alike. */
  lemma Reordered(sells: seq<LedgerEntry>, buys: seq<LedgerEntry>, sells': seq<LedgerEntry>, buys': seq<LedgerEntry>)
    requires Distinct(sells) && Distinct(buys) && Disjoint(buys, sells)
    requires multiset(sells') == multiset(sells) && multiset(buys') == multiset(buys)
    ensures Distinct(sells') && Distinct(buys') && Disjoint(sells', buys')
    ensures Members(sells') == Members(sells) && Members(buys') == Members(buys)
    ensures multiset(Views(sells')) == multiset(Views(sells)) && multiset(Views(buys')) == multiset(Views(buys))
  {
    DistinctPermutation(sells, sells');
    DistinctPermutation(buys, buys');
    DisjointPermutation(buys, sells, buys', sells');
    DisjointSwap(buys', sells');
    MembersPermutation(sells, sells');
    MembersPermutation(buys, buys');
    ViewsPermutation(sells, sells');
    ViewsPermutation(buys, buys');
  }

  lemma DisjointSwap(a: seq<LedgerEntry>, b: seq<LedgerEntry>)
    requires Disjoint(a, b)
    ensures Disjoint(b, a)
  {
  }

  /** The if (LongTerm.Count > 0) and if (ShortTerm.Count > 0) blocks. */
  method WriteGainFile(entries: seq<CapGainEntry>) returns (r: Result<Option<seq<string>>, Error>)
    ensures r.Err? <==> entries != [] && !SameValue(Sub(TotalProceeds(entries), TotalCostBasis(entries)), TotalGains(entries))
    ensures r.Err? ==> r.error == TotalsMismatch
    ensures r.Ok? ==> r.value == GainFileOf(entries)
  {
    if entries == [] {
      return Ok(None);
    }
    var lines := GainFile(entries);
    if lines.Err? {
      return Err(lines.error);
    }
    return Ok(Some(lines.value));
  }

  /** Every entry the matching records is exact. */
  lemma GainsWellFormed(sells: seq<Lot>, buys: seq<Lot>)
    requires SettleAll(sells, buys).Ok?
    ensures var gains := SettleAll(sells, buys).value.gains;
      forall i :: 0 <= i < |gains| ==> WellFormed(gains[i])
  {
    var gains := SettleAll(sells, buys).value.gains;
    SettleAllEntries(sells, buys);
    forall j | 0 <= j < |gains| ensures WellFormed(gains[j]) {
      var s, k :| 0 <= s < |sells| && 0 <= k < |buys| && EntryOf(gains[j], sells[s], buys[k]);
    }
  }

  /** Classifying keeps only entries of gains, so GetTotalsRow never throws. */
  lemma ClassifiedWellFormed(gains: seq<CapGainEntry>)
    requires forall i :: 0 <= i < |gains| ==> WellFormed(gains[i])
    ensures forall i :: 0 <= i < |LongTermGains(gains)| ==> WellFormed(LongTermGains(gains)[i])
    ensures forall i :: 0 <= i < |ShortTermGains(gains)| ==> WellFormed(ShortTermGains(gains)[i])
  {
    forall ce | ce in LongTermGains(gains) || ce in ShortTermGains(gains) ensures WellFormed(ce) {
      ClassifyMembership(gains, ce);
    }
  }
}
