/** The last phase of ProcessDataset: the lines of the long-term and
    short-term Form 8949 files (header, one CapGainRow per entry, a blank
    row, the GetTotalsRow line) and of the remainder file (header, one
    LedgerRow per buy with quantity left). */
module Report {
  import opened Wrappers
  import opened Text
  import opened Decimals
  import opened Dates
  import opened Ledger
  import opened Parsing

  /** The columns of a gain file, as its header names them. */
  const GainColumns: seq<string> :=
    ["DESCRIPTION OF PROPERTY", "DATE ACQUIRED", "DATE SOLD OR DISPOSED", "PROCEEDS",
     "COST OR OTHER BASIS", "CODE(S) FROM INSTRUCTIONS", "AMOUNT OF ADJUSTMENT", "GAIN OR (LOSS)"]

  const GainHeader: string := Join(GainColumns, ',')

  /** The blank row between the entries and the totals: nine empty fields. */
  const BlankRow: string := Join(["", "", "", "", "", "", "", "", ""], ',')

  /** The columns of the remainder file. */
  const RemainderColumns: seq<string> := ["DESCRIPTION OF PROPERTY", "DATE ACQUIRED", "QUANTITY", "UNIT PRICE"]

  const RemainderHeader: string := Join(RemainderColumns, ',')

  /** An amount as the reports print it: rounded to cents, half away from zero. */
  function Cents(d: Dec): string {
    ToText(Round(d, 2))
  }

  /** The gain column: the rounded gain, or for a loss its rounded magnitude
      in parentheses. */
  function GainText(g: Dec): string {
    if !IsNegative(g) then Cents(g)
    else "(" + ToText(Mul(Round(g, 2), MinusOne)) + ")"
  }

  /** The fields of CapGainRow: quantity and security, the two dates,
      proceeds and basis, two empty columns, the gain. */
  function GainFields(ce: CapGainEntry): seq<string> {
    [ToText(ce.unitQty) + " " + ce.security, DateToText(ce.acqDate), DateToText(ce.saleDate),
     Cents(ce.proceeds), Cents(ce.costBasis), "", "", GainText(ce.capitalGain)]
  }

  function CapGainRow(ce: CapGainEntry): string {
    Join(GainFields(ce), ',')
  }

  /** The fields of LedgerRow: security, date, remaining quantity and unit
      price, unrounded. */
  function LedgerFields(l: Lot): seq<string> {
    [l.security, DateToText(l.day), ToText(l.qty), ToText(l.price)]
  }

  function LedgerRow(l: Lot): string {
    Join(LedgerFields(l), ',')
  }

  /** The fields of the last line of a gain file: the three totals rounded to
      cents. The total gain is printed with its sign, not in parentheses. */
  function TotalsFields(proceeds: Dec, costBasis: Dec, gains: Dec): seq<string> {
    ["TOTALS", "", "", Cents(proceeds), Cents(costBasis), "", "", Cents(gains)]
  }

  function TotalsRow(proceeds: Dec, costBasis: Dec, gains: Dec): string {
    Join(TotalsFields(proceeds, costBasis, gains), ',')
  }

  // ---------------------------------------------------------------------
  // Reading the rows back

  lemma DateTextHasNoComma(d: DateTime)
    ensures ',' !in DateToText(d)
  {
    var t := DateToText(d);
    forall i | 0 <= i < |t| ensures t[i] != ',' {
      if i < 4 {
        assert t[i] == t[..4][i];
      } else if 5 <= i < 7 {
        assert t[i] == t[5..7][i - 5];
      } else if 8 <= i {
        assert t[i] == t[8..][i - 8];
      }
    }
  }

  /** A non-negative gain is printed as its rounded value; a loss as "("
      followed by its rounded magnitude and ")". Either way the number reads
      back exactly and carries no comma. */
  lemma GainTextReadBack(g: Dec)
    ensures ',' !in GainText(g)
    ensures Val(g) >= 0.0 ==> ParseDecimal(GainText(g)) == Some(Round(g, 2))
    ensures Val(g) < 0.0 ==>
      var t := GainText(g);
      && |t| >= 2 && t[0] == '(' && t[|t| - 1] == ')'
      && ParseDecimal(t[1..|t| - 1]) == Some(Round(Neg(g), 2))
      && Val(Round(Neg(g), 2)) >= 0.0
  {
    SignVal(g);
    var r := Round(g, 2);
    if Val(g) >= 0.0 {
      ToTextHasNoComma(r);
      ParseToText(r);
    } else {
      TimesMinusOne(r);
      RoundNeg(g, 2);
      NegVal(g);
      RoundNonNegative(Neg(g), 2);
      var u := ToText(Neg(r));
      ToTextHasNoComma(Neg(r));
      ParseToText(Neg(r));
      var t := GainText(g);
      assert t == "(" + u + ")";
      assert t[1..|t| - 1] == u;
      assert t[0] == '(' && t[|t| - 1] == ')';
    }
  }

  /** Eight fields with two empty ones in the adjustment columns, none
      holding a comma, split back out of their join. */
  lemma SplitEight(a: string, b: string, c: string, d: string, e: string, h: string)
    requires ',' !in a && ',' !in b && ',' !in c && ',' !in d && ',' !in e && ',' !in h
    ensures Split(Join([a, b, c, d, e, "", "", h], ','), ',') == [a, b, c, d, e, "", "", h]
  {
    SplitJoin([a, b, c, d, e, "", "", h], ',');
  }

  lemma SplitFour(a: string, b: string, c: string, d: string)
    requires ',' !in a && ',' !in b && ',' !in c && ',' !in d
    ensures Split(Join([a, b, c, d], ','), ',') == [a, b, c, d]
  {
    SplitJoin([a, b, c, d], ',');
  }

  /** A CapGainRow of an entry whose security has no comma splits back
      into its eight fields, one per column of the header. */
  lemma CapGainRowFields(ce: CapGainEntry)
    requires ',' !in ce.security
    ensures Split(CapGainRow(ce), ',') == GainFields(ce)
    ensures |GainFields(ce)| == |GainColumns|
  {
    var q := ToText(ce.unitQty);
    ToTextHasNoComma(ce.unitQty);
    assert ',' !in q + " " + ce.security;
    DateTextHasNoComma(ce.acqDate);
    DateTextHasNoComma(ce.saleDate);
    ToTextHasNoComma(Round(ce.proceeds, 2));
    ToTextHasNoComma(Round(ce.costBasis, 2));
    GainTextReadBack(ce.capitalGain);
    SplitEight(q + " " + ce.security, DateToText(ce.acqDate), DateToText(ce.saleDate),
               Cents(ce.proceeds), Cents(ce.costBasis), GainText(ce.capitalGain));
  }

  /** An amount column reads back as the amount rounded to cents. */
  lemma CentsReadBack(d: Dec)
    ensures ',' !in Cents(d)
    ensures ParseDecimal(Cents(d)) == Some(Round(d, 2))
  {
    ToTextHasNoComma(Round(d, 2));
    ParseToText(Round(d, 2));
  }

  /** The totals line splits back into the eight columns of the header:
      the label, two empty columns, the proceeds and the basis, two empty
      columns, the gain. */
  lemma TotalsRowFields(proceeds: Dec, costBasis: Dec, gains: Dec)
    ensures Split(TotalsRow(proceeds, costBasis, gains), ',') == TotalsFields(proceeds, costBasis, gains)
    ensures |TotalsFields(proceeds, costBasis, gains)| == |GainColumns|
  {
    ToTextHasNoComma(Round(proceeds, 2));
    ToTextHasNoComma(Round(costBasis, 2));
    ToTextHasNoComma(Round(gains, 2));
    assert ',' !in "TOTALS" && ',' !in "";
    SplitEight("TOTALS", "", "", Cents(proceeds), Cents(costBasis), Cents(gains));
  }

  /** A LedgerRow of a lot with quantity left, read as a ledger line, is the
      same buy again: the remainder file is a valid ledger. */
  lemma LedgerRowReadBack(l: Lot)
    requires ',' !in l.security && Val(l.qty) > 0.0
    ensures ParseRow(LedgerRow(l)) == Accepted(Buy, l)
  {
    ToTextHasNoComma(l.qty);
    ToTextHasNoComma(l.price);
    DateTextHasNoComma(l.day);
    SplitFour(l.security, DateToText(l.day), ToText(l.qty), ToText(l.price));
    ParseDateToText(l.day);
    ParseToText(l.qty);
    ParseToText(l.price);
    SignVal(l.qty);
  }

  // ---------------------------------------------------------------------
  // GetTotalsRow

  /** The running totals of the loop of GetTotalsRow, from a decimal 0. */
  function TotalProceeds(entries: seq<CapGainEntry>): Dec {
    if entries == [] then Zero else Add(TotalProceeds(entries[..|entries| - 1]), entries[|entries| - 1].proceeds)
  }

  function TotalCostBasis(entries: seq<CapGainEntry>): Dec {
    if entries == [] then Zero else Add(TotalCostBasis(entries[..|entries| - 1]), entries[|entries| - 1].costBasis)
  }

  function TotalGains(entries: seq<CapGainEntry>): Dec {
    if entries == [] then Zero else Add(TotalGains(entries[..|entries| - 1]), entries[|entries| - 1].capitalGain)
  }

  /** The exact sums, as real numbers. */
  function SumProceeds(entries: seq<CapGainEntry>): real {
    if entries == [] then 0.0 else SumProceeds(entries[..|entries| - 1]) + Val(entries[|entries| - 1].proceeds)
  }

  function SumCostBasis(entries: seq<CapGainEntry>): real {
    if entries == [] then 0.0 else SumCostBasis(entries[..|entries| - 1]) + Val(entries[|entries| - 1].costBasis)
  }

  function SumGains(entries: seq<CapGainEntry>): real {
    if entries == [] then 0.0 else SumGains(entries[..|entries| - 1]) + Val(entries[|entries| - 1].capitalGain)
  }

  /** Decimal addition loses nothing: the running totals are the exact sums. */
  lemma {:induction false} TotalsExact(entries: seq<CapGainEntry>)
    ensures Val(TotalProceeds(entries)) == SumProceeds(entries)
    ensures Val(TotalCostBasis(entries)) == SumCostBasis(entries)
    ensures Val(TotalGains(entries)) == SumGains(entries)
  {
    if entries != [] {
      var n := |entries| - 1;
      TotalsExact(entries[..n]);
      AddVal(TotalProceeds(entries[..n]), entries[n].proceeds);
      AddVal(TotalCostBasis(entries[..n]), entries[n].costBasis);
      AddVal(TotalGains(entries[..n]), entries[n].capitalGain);
    }
  }

  /** When every entry's gain is its proceeds less its basis, the sum of the
      gains is the sum of the proceeds less the sum of the bases. */
  lemma {:induction false} SumsAgree(entries: seq<CapGainEntry>)
    requires forall i :: 0 <= i < |entries| ==> WellFormed(entries[i])
    ensures SumGains(entries) == SumProceeds(entries) - SumCostBasis(entries)
  {
    if entries != [] {
      var n := |entries| - 1;
      SumsAgree(entries[..n]);
      SubVal(entries[n].proceeds, entries[n].costBasis);
    }
  }

  /** The consistency check of GetTotalsRow never throws on entries built by
      the matching loop. */
  lemma TotalsAgree(entries: seq<CapGainEntry>)
    requires forall i :: 0 <= i < |entries| ==> WellFormed(entries[i])
    ensures SameValue(Sub(TotalProceeds(entries), TotalCostBasis(entries)), TotalGains(entries))
  {
    var p, c, g := TotalProceeds(entries), TotalCostBasis(entries), TotalGains(entries);
    TotalsExact(entries);
    SumsAgree(entries);
    SubVal(p, c);
    CompareVal(Sub(p, c), g);
  }

  /** GetTotalsRow: sum the three columns, throw when the proceeds less the
      basis differ from the gains, else print the totals line. */
  method GetTotalsRow(entries: seq<CapGainEntry>) returns (r: Result<string, Error>)
    ensures r.Err? <==> !SameValue(Sub(TotalProceeds(entries), TotalCostBasis(entries)), TotalGains(entries))
    ensures r.Err? ==> r.error == TotalsMismatch
    ensures r.Ok? ==> r.value == TotalsRow(TotalProceeds(entries), TotalCostBasis(entries), TotalGains(entries))
  {
    var proceeds, costBasis, gains := Zero, Zero, Zero;
    var i := 0;
    while i < |entries|
      invariant 0 <= i <= |entries|
      invariant proceeds == TotalProceeds(entries[..i])
      invariant costBasis == TotalCostBasis(entries[..i])
      invariant gains == TotalGains(entries[..i])
    {
      assert entries[..i + 1][..i] == entries[..i];
      proceeds := Add(proceeds, entries[i].proceeds);
      costBasis := Add(costBasis, entries[i].costBasis);
      gains := Add(gains, entries[i].capitalGain);
      i := i + 1;
    }
    assert entries[..i] == entries;
    if !SameValue(Sub(proceeds, costBasis), gains) {
      return Err(TotalsMismatch);
    }
    return Ok(TotalsRow(proceeds, costBasis, gains));
  }

  // ---------------------------------------------------------------------
  // The files

  /** One printed row per item, in list order. */
  function Rows<T>(render: T -> string, items: seq<T>): (rows: seq<string>)
    ensures |rows| == |items|
  {
    if items == [] then []
    else Rows(render, items[..|items| - 1]) + [render(items[|items| - 1])]
  }

  lemma RowsSnoc<T>(render: T -> string, items: seq<T>, x: T)
    ensures Rows(render, items + [x]) == Rows(render, items) + [render(x)]
  {
    assert (items + [x])[..|items|] == items;
  }

  /** One more item of a prefix renders one more row. */
  lemma RowsPrefix<T>(render: T -> string, items: seq<T>, i: nat)
    requires i < |items|
    ensures Rows(render, items[..i + 1]) == Rows(render, items[..i]) + [render(items[i])]
  {
    assert items[..i + 1][..i] == items[..i];
  }

  /** Row k is the rendering of item k. */
  lemma {:induction false} RowsInOrder<T>(render: T -> string, items: seq<T>)
    ensures forall k :: 0 <= k < |items| ==> Rows(render, items)[k] == render(items[k])
  {
    if items != [] {
      var n := |items| - 1;
      RowsInOrder(render, items[..n]);
      assert items == items[..n] + [items[n]];
    }
  }

  /** The rows of a gain file between its header and the blank row. */
  function GainRows(entries: seq<CapGainEntry>): seq<string> {
    Rows(CapGainRow, entries)
  }

  /** The foreach over the entries of a gain file. */
  method CapGainRows(entries: seq<CapGainEntry>) returns (rows: seq<string>)
    ensures rows == GainRows(entries)
  {
    rows := [];
    var i := 0;
    while i < |entries|
      invariant 0 <= i <= |entries|
      invariant rows == GainRows(entries[..i])
    {
      var ce := entries[i];
      RowsPrefix(CapGainRow, entries, i);
      rows := rows + [CapGainRow(ce)];
      i := i + 1;
    }
    assert entries[..i] == entries;
  }

  /** The lines of a long-term or short-term file: the header, the rows of
      the entries, the blank row and the totals. */
  function GainLines(entries: seq<CapGainEntry>): seq<string> {
    [GainHeader] + GainRows(entries)
    + [BlankRow, TotalsRow(TotalProceeds(entries), TotalCostBasis(entries), TotalGains(entries))]
  }

  /** Writing one gain file: it fails exactly when GetTotalsRow throws. */
  method GainFile(entries: seq<CapGainEntry>) returns (r: Result<seq<string>, Error>)
    ensures r.Err? <==> !SameValue(Sub(TotalProceeds(entries), TotalCostBasis(entries)), TotalGains(entries))
    ensures r.Err? ==> r.error == TotalsMismatch
    ensures r.Ok? ==> r.value == GainLines(entries)
  {
    var rows := CapGainRows(entries);
    var totals := GetTotalsRow(entries);
    if totals.Err? {
      return Err(totals.error);
    }
    return Ok([GainHeader] + rows + [BlankRow, totals.value]);
  }

  /** The buys that still hold quantity, in list order. */
  function RemainderLots(lots: seq<Lot>): seq<Lot> {
    if lots == [] then []
    else
      var l := lots[|lots| - 1];
      RemainderLots(lots[..|lots| - 1]) + (if IsPositive(l.qty) then [l] else [])
  }

  lemma RemainderSnoc(lots: seq<Lot>, i: nat)
    requires i < |lots|
    ensures RemainderLots(lots[..i + 1]) ==
      RemainderLots(lots[..i]) + (if IsPositive(lots[i].qty) then [lots[i]] else [])
  {
    assert lots[..i + 1][..i] == lots[..i];
  }

  /** A lot is listed exactly when it is one of the buys and holds a
      positive quantity. */
  lemma {:induction false} RemainderMembership(lots: seq<Lot>, l: Lot)
    ensures l in RemainderLots(lots) <==> l in lots && Val(l.qty) > 0.0
  {
    SignVal(l.qty);
    if lots != [] {
      var n := |lots| - 1;
      RemainderMembership(lots[..n], l);
      assert lots == lots[..n] + [lots[n]];
    }
  }

  /** The remainder file: the header, then a LedgerRow for every buy with
      UnitQty > 0, in list order. */
  method RemainderFile(buys: seq<LedgerEntry>) returns (lines: seq<string>)
    ensures lines == [RemainderHeader] + Rows(LedgerRow, RemainderLots(Views(buys)))
  {
    ghost var lots := Views(buys);
    var rows: seq<string> := [];
    var i := 0;
    while i < |buys|
      invariant 0 <= i <= |buys|
      invariant rows == Rows(LedgerRow, RemainderLots(lots[..i]))
    {
      var le := buys[i];
      var l := le.View();
      assert l == lots[i];
      RemainderSnoc(lots, i);
      if IsPositive(le.unitQty) {
        RowsSnoc(LedgerRow, RemainderLots(lots[..i]), l);
        rows := rows + [LedgerRow(l)];
      } else {
        assert RemainderLots(lots[..i + 1]) == RemainderLots(lots[..i]);
      }
      i := i + 1;
    }
    assert lots[..i] == lots;
    lines := [RemainderHeader] + rows;
  }

  /** Every line of the remainder file after its header reads back as the
      buy it lists. */
  lemma RemainderReadBack(lots: seq<Lot>)
    requires forall k :: 0 <= k < |lots| ==> ',' !in lots[k].security
    ensures var rows := Rows(LedgerRow, RemainderLots(lots));
      forall i :: 0 <= i < |rows| ==> ParseRow(rows[i]) == Accepted(Buy, RemainderLots(lots)[i])
  {
    RowsInOrder(LedgerRow, RemainderLots(lots));
    forall i | 0 <= i < |RemainderLots(lots)|
      ensures ParseRow(LedgerRow(RemainderLots(lots)[i])) == Accepted(Buy, RemainderLots(lots)[i])
    {
      var l := RemainderLots(lots)[i];
      RemainderMembership(lots, l);
      LedgerRowReadBack(l);
    }
  }
}
