/** The first phase of ProcessDataset: each ledger line becomes a buy, a sell
    or nothing. */
module Parsing {
  import opened Wrappers
  import opened Text
  import opened Decimals
  import opened Dates
  import opened Ledger

  datatype Side = Buy | Sell

  /** What one ledger line turns into. */
  datatype RowOutcome =
    | TooShort                          // fewer than four fields: cells[1..3] is out of range
    | Skipped                           // a date or a number that does not parse
    | Accepted(side: Side, lot: Lot)

  /** A buy keeps its parsed quantity, which is not negative. */
  predicate IsBuyLot(l: Lot) {
    Val(l.qty) >= 0.0 && ',' !in l.security
  }

  /** A sell holds its parsed quantity times -1, which is positive. */
  predicate IsSellLot(l: Lot) {
    Val(l.qty) > 0.0 && ',' !in l.security
  }

  /** The fields of a ledger line. */
  function Cells(row: string): seq<string> {
    Split(row, ',')
  }

  /** cells[1], cells[2] and cells[3] exist. */
  predicate IsShort(row: string) {
    |Cells(row)| < 4
  }

  /** One pass of the first loop of ProcessDataset: split on ',', read the
      date and the two numbers, and route the row by the sign of its quantity. */
  function ParseRow(row: string): (r: RowOutcome)
    ensures r.TooShort? <==> IsShort(row)
    ensures r.Accepted? && r.side == Buy ==> IsBuyLot(r.lot)
    ensures r.Accepted? && r.side == Sell ==> IsSellLot(r.lot)
  {
    var cells := Cells(row);
    if |cells| < 4 then TooShort
    else ParseFields(cells[0], cells[1], cells[2], cells[3])
  }

  /** The row once its first four fields are known to exist. */
  function ParseFields(security: string, dayText: string, qtyText: string, priceText: string): (r: RowOutcome)
    requires ',' !in security
    ensures !r.TooShort?
    ensures r.Accepted? ==> r.lot.security == security
    ensures r.Accepted? && r.side == Buy ==> IsBuyLot(r.lot)
    ensures r.Accepted? && r.side == Sell ==> IsSellLot(r.lot)
    ensures r.Accepted? <==>
      ParseDate(dayText).Some? && ParseDecimal(qtyText).Some? && ParseDecimal(priceText).Some?
    ensures r.Accepted? ==>
      && Some(r.lot.day) == ParseDate(dayText)
      && Some(r.lot.price) == ParseDecimal(priceText)
      && (r.side == Sell <==> Val(ParseDecimal(qtyText).value) < 0.0)
      && Val(r.lot.qty) == AbsR(Val(ParseDecimal(qtyText).value))
  {
    var day := ParseDate(dayText);
    var qty := ParseDecimal(qtyText);
    var price := ParseDecimal(priceText);
    if day.None? || qty.None? || price.None? then Skipped
    else if IsNegative(qty.value) then
      SignVal(qty.value);
      TimesMinusOne(qty.value);
      NegVal(qty.value);
      Accepted(Sell, Lot(security, day.value, Mul(qty.value, MinusOne), price.value))
    else
      SignVal(qty.value);
      Accepted(Buy, Lot(security, day.value, qty.value, price.value))
  }

  /** Some line of the data set has fewer than four fields. */
  predicate HasShortRow(rows: seq<string>) {
    exists i :: 0 <= i < |rows| && IsShort(rows[i])
  }

  /** The Buys list after the first loop: the accepted buy rows, in line order. */
  function BuyLots(rows: seq<string>): (lots: seq<Lot>)
    ensures forall i :: 0 <= i < |lots| ==> IsBuyLot(lots[i])
    ensures |lots| <= |rows|
  {
    if rows == [] then []
    else
      var r := ParseRow(rows[|rows| - 1]);
      BuyLots(rows[..|rows| - 1]) + (if r.Accepted? && r.side == Buy then [r.lot] else [])
  }

  /** The Sells list after the first loop: the accepted sell rows, in line order. */
  function SellLots(rows: seq<string>): (lots: seq<Lot>)
    ensures forall i :: 0 <= i < |lots| ==> IsSellLot(lots[i])
    ensures |lots| <= |rows|
  {
    if rows == [] then []
    else
      var r := ParseRow(rows[|rows| - 1]);
      SellLots(rows[..|rows| - 1]) + (if r.Accepted? && r.side == Sell then [r.lot] else [])
  }

  /** The lots of all accepted lines, in line order. */
  function AcceptedLots(rows: seq<string>): seq<Lot> {
    if rows == [] then []
    else
      var r := ParseRow(rows[|rows| - 1]);
      AcceptedLots(rows[..|rows| - 1]) + (if r.Accepted? then [r.lot] else [])
  }

  /** Every accepted line lands in exactly one of the two lists. */
  lemma {:induction false} EveryRowRouted(rows: seq<string>)
    ensures multiset(BuyLots(rows)) + multiset(SellLots(rows)) == multiset(AcceptedLots(rows))
  {
    if rows != [] {
      var n := |rows| - 1;
      EveryRowRouted(rows[..n]);
      var r := ParseRow(rows[n]);
      RoutedStep(BuyLots(rows[..n]), SellLots(rows[..n]), AcceptedLots(rows[..n]), r);
    }
  }

  /** Routing one more outcome keeps the two lists together equal to the
      accepted lots. */
  lemma RoutedStep(b: seq<Lot>, s: seq<Lot>, a: seq<Lot>, r: RowOutcome)
    requires multiset(b) + multiset(s) == multiset(a)
    ensures multiset(b + (if r.Accepted? && r.side == Buy then [r.lot] else []))
      + multiset(s + (if r.Accepted? && r.side == Sell then [r.lot] else []))
      == multiset(a + (if r.Accepted? then [r.lot] else []))
  {
  }

  /** The pair of lists the first loop builds. */
  datatype Lists = Lists(buys: seq<LedgerEntry>, sells: seq<LedgerEntry>)

  /** The two lists hold, as distinct entries, what the lines read so far
      parse to, and none of those lines is short. */
  ghost predicate Loaded(rows: seq<string>, buys: seq<LedgerEntry>, sells: seq<LedgerEntry>)
    reads buys, sells
  {
    && !HasShortRow(rows)
    && Views(buys) == BuyLots(rows) && Views(sells) == SellLots(rows)
    && Distinct(buys) && Distinct(sells) && Disjoint(buys, sells)
  }

  /** The first loop of ProcessDataset: one fresh LedgerEntry per accepted line.
      A short line aborts the run with IndexOutOfRange. */
  method ParseDataset(dataSet: seq<string>) returns (r: Result<Lists, Error>)
    ensures r.Err? <==> HasShortRow(dataSet)
    ensures r.Err? ==> r.error == IndexOutOfRange
    ensures r.Ok? ==> Loaded(dataSet, r.value.buys, r.value.sells)
    ensures r.Ok? ==> fresh(Members(r.value.buys)) && fresh(Members(r.value.sells))
  {
    var buys: seq<LedgerEntry> := [];
    var sells: seq<LedgerEntry> := [];
    var i := 0;
    while i < |dataSet|
      invariant 0 <= i <= |dataSet|
      invariant Loaded(dataSet[..i], buys, sells)
      invariant fresh(Members(buys)) && fresh(Members(sells))
    {
      var short;
      short, buys, sells := ParseLine(dataSet, i, buys, sells);
      if short {
        return Err(IndexOutOfRange);
      }
      i := i + 1;
    }
    assert dataSet[..i] == dataSet;
    return Ok(Lists(buys, sells));
  }

  /** One turn of the first loop: line i either has fewer than four fields,
      which ends the run, or extends the lists by what it parses to. */
  method ParseLine(dataSet: seq<string>, i: nat, buys: seq<LedgerEntry>, sells: seq<LedgerEntry>)
    returns (short: bool, buys': seq<LedgerEntry>, sells': seq<LedgerEntry>)
    requires i < |dataSet| && Loaded(dataSet[..i], buys, sells)
    ensures short <==> HasShortRow(dataSet[..i + 1])
    ensures !short ==> Loaded(dataSet[..i + 1], buys', sells')
    ensures fresh(Members(buys') - Members(buys)) && fresh(Members(sells') - Members(sells))
  {
    var row := ParseRow(dataSet[i]);
    RowStep(dataSet, i);
    short := row.TooShort?;
    buys', sells' := buys, sells;
    if !short {
      buys', sells' := Route(row, buys, sells);
    }
  }

  /** The body of the first loop once the line has four fields: an accepted
      line becomes a new LedgerEntry at the end of the list its side names. */
  method Route(row: RowOutcome, buys: seq<LedgerEntry>, sells: seq<LedgerEntry>)
    returns (buys': seq<LedgerEntry>, sells': seq<LedgerEntry>)
    requires Distinct(buys) && Distinct(sells) && Disjoint(buys, sells)
    ensures Distinct(buys') && Distinct(sells') && Disjoint(buys', sells')
    ensures Views(buys') == old(Views(buys)) + (if row.Accepted? && row.side == Buy then [row.lot] else [])
    ensures Views(sells') == old(Views(sells)) + (if row.Accepted? && row.side == Sell then [row.lot] else [])
    ensures fresh(Members(buys') - Members(buys)) && fresh(Members(sells') - Members(sells))
  {
    buys', sells' := buys, sells;
    if row.Accepted? {
      var entry := new LedgerEntry(row.lot);
      if row.side == Sell {
        AppendFresh(sells, entry);
        sells' := sells + [entry];
      } else {
        AppendFresh(buys, entry);
        buys' := buys + [entry];
      }
    }
  }

  /** How the two lists and the short-row test grow by one line. */
  lemma RowStep(rows: seq<string>, i: nat)
    requires i < |rows|
    ensures var r := ParseRow(rows[i]);
      && BuyLots(rows[..i + 1]) == BuyLots(rows[..i]) + (if r.Accepted? && r.side == Buy then [r.lot] else [])
      && SellLots(rows[..i + 1]) == SellLots(rows[..i]) + (if r.Accepted? && r.side == Sell then [r.lot] else [])
      && (HasShortRow(rows[..i + 1]) <==> HasShortRow(rows[..i]) || IsShort(rows[i]))
  {
    var p := rows[..i + 1];
    assert p[..i] == rows[..i];
    assert p[i] == rows[i];
    ShortStep(rows, i);
  }

  lemma ShortStep(rows: seq<string>, i: nat)
    requires i < |rows|
    ensures HasShortRow(rows[..i + 1]) <==> HasShortRow(rows[..i]) || IsShort(rows[i])
  {
    var p := rows[..i + 1];
    if HasShortRow(p) && !IsShort(rows[i]) {
      var k :| 0 <= k < |p| && IsShort(p[k]);
      assert p[k] == rows[..i][k];
    }
    if HasShortRow(rows[..i]) {
      var k :| 0 <= k < i && IsShort(rows[..i][k]);
      assert p[k] == rows[..i][k];
    }
    if IsShort(rows[i]) {
      assert p[i] == rows[i];
    }
  }

  /** Appending an entry the list did not hold keeps it free of repeats. */
  lemma AppendFresh(s: seq<LedgerEntry>, e: LedgerEntry)
    requires Distinct(s) && e !in s
    ensures Distinct(s + [e])
    ensures Views(s + [e]) == Views(s) + [e.View()]
  {
    assert (s + [e])[..|s|] == s;
  }
}
