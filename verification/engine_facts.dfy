/** What a whole run of ProcessDataset guarantees, stated against the ledger
    it was given rather than against the order the sort happened to choose. */
module EngineFacts {
  import opened Wrappers
  import opened Text
  import opened Decimals
  import opened Ledger
  import opened Parsing
  import opened Sorting
  import opened Matching
  import opened MatchingFacts
  import opened Classify
  import opened Report
  import opened Engine

  /** The error is BadData naming a sale of the ledger that has a buy of its
      security dated after it, with a positive quantity no larger than the
      sale's. */
  ghost predicate LateSale(dataSet: seq<string>, e: Error) {
    var sells, buys := SellLots(dataSet), BuyLots(dataSet);
    && e.BadData?
    && exists i, k :: 0 <= i < |sells| && 0 <= k < |buys| && Late(sells[i], buys[k])
         && e.security == sells[i].security && e.day == sells[i].day
         && 0.0 < Val(e.qty) <= Val(sells[i].qty)
  }

  /** Every lot of a rearranged list is a lot of the original. */
  lemma Rearranged(s: seq<Lot>, t: seq<Lot>, i: nat)
    requires multiset(s) == multiset(t) && i < |s|
    ensures exists j :: 0 <= j < |t| && t[j] == s[i]
  {
    assert s[i] in multiset(s);
  }

  /** The sorted lists hold parsed lots: no quantity is negative. */
  lemma OrdersNonNeg(dataSet: seq<string>, sells: seq<Lot>, buys: seq<Lot>)
    requires SortedOrders(dataSet, sells, buys)
    ensures NonNeg(sells) && NonNeg(buys)
    ensures forall k :: 0 <= k < |sells| ==> ',' !in sells[k].security
    ensures forall k :: 0 <= k < |buys| ==> ',' !in buys[k].security
  {
    forall k | 0 <= k < |sells| ensures Val(sells[k].qty) >= 0.0 && ',' !in sells[k].security {
      Rearranged(sells, SellLots(dataSet), k);
    }
    forall k | 0 <= k < |buys| ensures Val(buys[k].qty) >= 0.0 && ',' !in buys[k].security {
      Rearranged(buys, BuyLots(dataSet), k);
    }
  }

  /** A run ends in IndexOutOfRange exactly when some line has fewer than four
      fields; any other failure is BadData for a sale of the ledger that meets
      a later buy of its security, raised with what that sale has left at the
      first buy where it is uncovered in the sorted lists; GetTotalsRow never
      throws. */
  lemma RunErrors(dataSet: seq<string>, r: Result<Reports, Error>)
    requires IsRun(dataSet, r)
    ensures (r.Err? && r.error == IndexOutOfRange) <==> HasShortRow(dataSet)
    ensures r.Err? && !HasShortRow(dataSet) ==> LateSale(dataSet, r.error)
    ensures r.Err? && !HasShortRow(dataSet) ==>
      exists sells, buys :: SortedOrders(dataSet, sells, buys) && r == RunWith(sells, buys)
        && RaisedInWalk(sells, buys, r.error)
    ensures r.Err? ==> r.error != TotalsMismatch
  {
    if !HasShortRow(dataSet) {
      var sells: seq<Lot>, buys: seq<Lot> :| SortedOrders(dataSet, sells, buys) && r == RunWith(sells, buys);
      if r.Err? {
        WalkBadData(dataSet, sells, buys);
      }
    }
  }

  /** A failed matching of the sorted lists fails with BadData for a sale of
      the ledger. */
  lemma WalkBadData(dataSet: seq<string>, sells: seq<Lot>, buys: seq<Lot>)
    requires SortedOrders(dataSet, sells, buys) && SettleAll(sells, buys).Err?
    ensures LateSale(dataSet, SettleAll(sells, buys).error)
    ensures RaisedInWalk(sells, buys, SettleAll(sells, buys).error)
  {
    OrdersNonNeg(dataSet, sells, buys);
    SettleAllBadData(sells, buys);
    var e := SettleAll(sells, buys).error;
    var i: nat, k: nat :| i < |sells| && k < |buys| && Late(sells[i], buys[k])
      && e.security == sells[i].security && e.day == sells[i].day
      && 0.0 < Val(e.qty) <= Val(sells[i].qty);
    Rearranged(sells, SellLots(dataSet), i);
    Rearranged(buys, BuyLots(dataSet), k);
  }

  /** Without a short line and without a sale that meets a later buy of its
      security, the run writes its files. */
  lemma RunCompletes(dataSet: seq<string>, r: Result<Reports, Error>)
    requires IsRun(dataSet, r) && !HasShortRow(dataSet)
    requires forall i, k :: 0 <= i < |SellLots(dataSet)| && 0 <= k < |BuyLots(dataSet)| ==>
      !Late(SellLots(dataSet)[i], BuyLots(dataSet)[k])
    ensures r.Ok?
  {
    RunErrors(dataSet, r);
  }

  /** Lots left over from buys of the ledger: each still holds a positive
      quantity and has the security, date and price of a buy of the ledger. */
  ghost predicate LeftOver(lots: seq<Lot>, buys: seq<Lot>) {
    forall i :: 0 <= i < |lots| ==>
      Val(lots[i].qty) > 0.0 && exists k :: 0 <= k < |buys| && SameLot(lots[i], buys[k])
  }

  /** The remainder file is its header and then one line per buy left with
      quantity, each a line the ledger parser reads back as that buy. */
  lemma RunRemainder(dataSet: seq<string>, r: Result<Reports, Error>)
    requires IsRun(dataSet, r) && r.Ok?
    ensures exists lots ::
      && r.value.remainder == [RemainderHeader] + Rows(LedgerRow, lots)
      && LeftOver(lots, BuyLots(dataSet))
      && (forall i :: 0 <= i < |lots| ==> ParseRow(Rows(LedgerRow, lots)[i]) == Accepted(Buy, lots[i]))
  {
    var sells: seq<Lot>, buys: seq<Lot> :| SortedOrders(dataSet, sells, buys) && r == RunWith(sells, buys);
    var o := SettleAll(sells, buys).value;
    OrdersNonNeg(dataSet, sells, buys);
    RemainderReadBack(o.buys);
    LeftOverFrom(dataSet, sells, buys, o.buys);
    assert r.value.remainder == [RemainderHeader] + Rows(LedgerRow, RemainderLots(o.buys));
  }

  lemma LeftOverFrom(dataSet: seq<string>, sells: seq<Lot>, buys: seq<Lot>, left: seq<Lot>)
    requires SortedOrders(dataSet, sells, buys)
    requires |left| == |buys| && forall k :: 0 <= k < |buys| ==> SameLot(left[k], buys[k])
    ensures LeftOver(RemainderLots(left), BuyLots(dataSet))
  {
    var lots := RemainderLots(left);
    forall i | 0 <= i < |lots|
      ensures Val(lots[i].qty) > 0.0 && exists k :: 0 <= k < |BuyLots(dataSet)| && SameLot(lots[i], BuyLots(dataSet)[k])
    {
      var l := lots[i];
      RemainderMembership(left, l);
      var k :| 0 <= k < |left| && left[k] == l;
      Rearranged(buys, BuyLots(dataSet), k);
    }
  }

  /** The entries a gain file is written from: realised, long-term or not as
      the file says, each between a sale and a buy of the ledger. */
  ghost predicate FileEntries(entries: seq<CapGainEntry>, sells: seq<Lot>, buys: seq<Lot>, long: bool) {
    forall i :: 0 <= i < |entries| ==>
      && Realised(entries[i]) && LongTermEntry(entries[i]) == long
      && FromLedger(entries[i], sells, buys) && ',' !in entries[i].security
  }

  /** Every row of the entries splits back into that entry's eight fields. */
  predicate ReadsBack(entries: seq<CapGainEntry>) {
    forall i :: 0 <= i < |entries| ==> Split(GainRows(entries)[i], ',') == GainFields(entries[i])
  }

  /** The totals row's gain is exactly its proceeds less its cost basis. */
  predicate Balanced(entries: seq<CapGainEntry>) {
    Val(TotalGains(entries)) == Val(TotalProceeds(entries)) - Val(TotalCostBasis(entries))
  }

  /** lines is the gain file written for a non-empty list of such entries:
      the header, one row per entry, the blank row and the totals. */
  ghost predicate FileOf(lines: seq<string>, entries: seq<CapGainEntry>, sells: seq<Lot>, buys: seq<Lot>, long: bool) {
    && lines == GainLines(entries) && entries != []
    && FileEntries(entries, sells, buys, long) && ReadsBack(entries) && Balanced(entries)
  }

  ghost predicate GainFileFrom(lines: seq<string>, sells: seq<Lot>, buys: seq<Lot>, long: bool) {
    exists entries :: FileOf(lines, entries, sells, buys, long)
  }

  lemma GainLinesFrom(entries: seq<CapGainEntry>, sells: seq<Lot>, buys: seq<Lot>, long: bool)
    requires entries != [] && FileEntries(entries, sells, buys, long)
    ensures GainFileFrom(GainLines(entries), sells, buys, long)
  {
    GainRowsFrom(entries, sells, buys, long);
    TotalsBalance(entries, sells, buys, long);
    assert FileOf(GainLines(entries), entries, sells, buys, long);
  }

  lemma GainRowsFrom(entries: seq<CapGainEntry>, sells: seq<Lot>, buys: seq<Lot>, long: bool)
    requires FileEntries(entries, sells, buys, long)
    ensures ReadsBack(entries)
  {
    RowsInOrder(CapGainRow, entries);
    forall i | 0 <= i < |entries| ensures Split(GainRows(entries)[i], ',') == GainFields(entries[i]) {
      CapGainRowFields(entries[i]);
    }
  }

  /** The totals of entries between lots of the ledger balance exactly. */
  lemma TotalsBalance(entries: seq<CapGainEntry>, sells: seq<Lot>, buys: seq<Lot>, long: bool)
    requires FileEntries(entries, sells, buys, long)
    ensures Balanced(entries)
  {
    forall i | 0 <= i < |entries| ensures WellFormed(entries[i]) {
      var s, k :| 0 <= s < |sells| && 0 <= k < |buys| && EntryOf(entries[i], sells[s], buys[k]);
    }
    var p, c, g := TotalProceeds(entries), TotalCostBasis(entries), TotalGains(entries);
    TotalsAgree(entries);
    SubVal(p, c);
    CompareVal(Sub(p, c), g);
  }

  /** An entry between lots of the sorted lists is one between lots of the ledger. */
  lemma FromLedgerRearranged(ce: CapGainEntry, dataSet: seq<string>, sells: seq<Lot>, buys: seq<Lot>)
    requires SortedOrders(dataSet, sells, buys) && FromLedger(ce, sells, buys)
    ensures FromLedger(ce, SellLots(dataSet), BuyLots(dataSet))
    ensures ',' !in ce.security
  {
    var i, k :| 0 <= i < |sells| && 0 <= k < |buys| && EntryOf(ce, sells[i], buys[k]);
    Rearranged(sells, SellLots(dataSet), i);
    Rearranged(buys, BuyLots(dataSet), k);
  }

  /** The two lists classification builds hold entries of the ledger. */
  lemma ClassifiedEntries(dataSet: seq<string>, sells: seq<Lot>, buys: seq<Lot>)
    requires SortedOrders(dataSet, sells, buys) && SettleAll(sells, buys).Ok?
    ensures var gains := SettleAll(sells, buys).value.gains;
      && FileEntries(LongTermGains(gains), SellLots(dataSet), BuyLots(dataSet), true)
      && FileEntries(ShortTermGains(gains), SellLots(dataSet), BuyLots(dataSet), false)
  {
    var gains := SettleAll(sells, buys).value.gains;
    SettleAllEntries(sells, buys);
    forall ce | ce in gains ensures FromLedger(ce, SellLots(dataSet), BuyLots(dataSet)) && ',' !in ce.security {
      FromLedgerRearranged(ce, dataSet, sells, buys);
    }
    ClassifiedFrom(gains, SellLots(dataSet), BuyLots(dataSet));
  }

  lemma ClassifiedFrom(gains: seq<CapGainEntry>, sells: seq<Lot>, buys: seq<Lot>)
    requires forall ce :: ce in gains ==> FromLedger(ce, sells, buys) && ',' !in ce.security
    ensures FileEntries(LongTermGains(gains), sells, buys, true)
    ensures FileEntries(ShortTermGains(gains), sells, buys, false)
  {
    forall ce | ce in LongTermGains(gains) || ce in ShortTermGains(gains)
      ensures ce in gains && Realised(ce) && (ce in LongTermGains(gains) <==> LongTermEntry(ce))
    {
      ClassifyMembership(gains, ce);
    }
  }

  /** Each gain file that is written holds, between its header and its totals,
      rows for realised entries of the ledger of its own kind, and a totals
      row that balances. */
  lemma RunGainFiles(dataSet: seq<string>, r: Result<Reports, Error>)
    requires IsRun(dataSet, r) && r.Ok?
    ensures r.value.longTerm.Some? ==>
      GainFileFrom(r.value.longTerm.value, SellLots(dataSet), BuyLots(dataSet), true)
    ensures r.value.shortTerm.Some? ==>
      GainFileFrom(r.value.shortTerm.value, SellLots(dataSet), BuyLots(dataSet), false)
  {
    var sells: seq<Lot>, buys: seq<Lot> :| SortedOrders(dataSet, sells, buys) && r == RunWith(sells, buys);
    var gains := SettleAll(sells, buys).value.gains;
    ClassifiedEntries(dataSet, sells, buys);
    if LongTermGains(gains) != [] {
      GainLinesFrom(LongTermGains(gains), SellLots(dataSet), BuyLots(dataSet), true);
    }
    if ShortTermGains(gains) != [] {
      GainLinesFrom(ShortTermGains(gains), SellLots(dataSet), BuyLots(dataSet), false);
    }
  }
}
