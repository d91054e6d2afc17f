/** What the matching loops guarantee, proved on Settle and SettleAll (and so,
    through the contracts of MatchSale and MatchSells, on the loops): quantity
    is conserved per security, nothing goes negative, entries are exact and
    never draw on a buy dated after the sale, BadData is raised exactly when a
    sale still has quantity at a later buy of its security, and each security's
    buys are drawn down first in, first out. */
module MatchingFacts {
  import opened Wrappers
  import opened Decimals
  import opened Dates
  import opened Ledger
  import opened Matching
  import opened Sorting

  /** The quantity a lot holds of security sec. */
  function Own(l: Lot, sec: string): real {
    if l.security == sec then Val(l.qty) else 0.0
  }

  /** The total quantity of security sec in a list of lots. */
  function Held(lots: seq<Lot>, sec: string): real {
    if lots == [] then 0.0 else Own(lots[0], sec) + Held(lots[1..], sec)
  }

  /** The total quantity of security sec that a list of entries realised. */
  function Drawn(gains: seq<CapGainEntry>, sec: string): real {
    if gains == [] then 0.0
    else (if gains[0].security == sec then Val(gains[0].unitQty) else 0.0) + Drawn(gains[1..], sec)
  }

  /** The quantity one meeting takes from both sides. */
  function Taken(e: Option<CapGainEntry>): real {
    if e.Some? then Val(e.value.unitQty) else 0.0
  }

  /** No lot holds a negative quantity: what parsing leaves in both lists. */
  predicate NonNeg(lots: seq<Lot>) {
    forall k :: 0 <= k < |lots| ==> Val(lots[k].qty) >= 0.0
  }

  /** The entry records the sale and the buy it came from, with exact amounts. */
  predicate EntryOf(ce: CapGainEntry, sale: Lot, buy: Lot) {
    && WellFormed(ce)
    && ce.security == sale.security && ce.security == buy.security
    && ce.saleDate == sale.day && ce.unitSellPrice == sale.price
    && ce.acqDate == buy.day && ce.unitBuyPrice == buy.price
  }

  // ---------------------------------------------------------------------
  // One meeting of a sale and a buy

  /** m is what a meeting of sale and buy may leave: only quantities change,
      both sides lose the same quantity, and an entry of that quantity, exact
      and between the two, is recorded when any is taken. */
  predicate Met(sale: Lot, buy: Lot, m: Meeting) {
    && SameLot(m.sale, sale) && SameLot(m.buy, buy)
    && Val(sale.qty) == Val(m.sale.qty) + Taken(m.entry)
    && Val(buy.qty) == Val(m.buy.qty) + Taken(m.entry)
    && (m.entry.None? ==> m.sale == sale && m.buy == buy)
    && (m.entry.Some? ==> EntryOf(m.entry.value, sale, buy) && IsPositive(buy.qty))
  }

  /** A meeting changes only quantities, takes the same quantity from both
      sides, and records an exact entry of that quantity when it takes any. */
  lemma MeetFacts(sale: Lot, buy: Lot)
    requires Meet(sale, buy).Ok?
    ensures Met(sale, buy, Meet(sale, buy).value)
  {
    var m := Meet(sale, buy).value;
    if m.entry.Some? {
      var ce := m.entry.value;
      MulVal(ce.unitQty, buy.price);
      if Less(buy.qty, sale.qty) {
        SubVal(sale.qty, buy.qty);
        assert Val(Zero) == 0.0;
      } else {
        SubVal(buy.qty, sale.qty);
        assert Val(Zero) == 0.0;
      }
    }
  }

  /** With nothing negative going in, a meeting takes the smaller of the two
      quantities, leaves neither side negative, and empties one of them. */
  lemma MeetBounds(sale: Lot, buy: Lot)
    requires Meet(sale, buy).Ok?
    requires Val(sale.qty) >= 0.0 && Val(buy.qty) >= 0.0
    ensures var m := Meet(sale, buy).value;
      && Val(m.sale.qty) >= 0.0 && Val(m.buy.qty) >= 0.0 && Taken(m.entry) >= 0.0
      && (m.entry.Some? ==>
            && Taken(m.entry) == (if Val(buy.qty) < Val(sale.qty) then Val(buy.qty) else Val(sale.qty))
            && (Val(m.sale.qty) == 0.0 || Val(m.buy.qty) == 0.0))
  {
    MeetFacts(sale, buy);
    CompareVal(buy.qty, sale.qty);
  }

  /** What is left of the sale after a buy: the sale less the buy's holding
      of its security, or nothing when the buy covers it. */
  lemma MeetRemaining(sale: Lot, buy: Lot)
    requires Meet(sale, buy).Ok?
    requires Val(sale.qty) >= 0.0 && Val(buy.qty) >= 0.0
    ensures var left := Val(Meet(sale, buy).value.sale.qty);
      var own := Own(buy, sale.security);
      left == if Val(sale.qty) > own then Val(sale.qty) - own else 0.0
  {
    MeetFacts(sale, buy);
    MeetBounds(sale, buy);
    SignVal(buy.qty);
  }

  /** An entry with a positive quantity comes from a buy dated on or before
      the sale: a sale with quantity left never passes a later buy. */
  lemma MeetChronology(sale: Lot, buy: Lot)
    requires Meet(sale, buy).Ok?
    requires Taken(Meet(sale, buy).value.entry) > 0.0
    ensures AtOrBefore(buy.day, sale.day)
  {
    MeetFacts(sale, buy);
    CompareVal(buy.qty, sale.qty);
    SignVal(sale.qty);
    SignVal(buy.qty);
    BeforeTotal(sale.day, buy.day);
  }

  /** A meeting splits the sale's and the buy's holding of any security into
      what is left and what the entry drew. */
  lemma MeetOwn(sale: Lot, buy: Lot, sec: string)
    requires Meet(sale, buy).Ok?
    ensures var m := Meet(sale, buy).value;
      && Own(sale, sec) == Own(m.sale, sec) + Drawn(Entries(m.entry), sec)
      && Own(buy, sec) == Own(m.buy, sec) + Drawn(Entries(m.entry), sec)
  {
    MeetFacts(sale, buy);
    var m := Meet(sale, buy).value;
    var d := Entries(m.entry);
    if m.entry.Some? {
      assert d[1..] == [];
    }
  }

  // ---------------------------------------------------------------------
  // List shapes

  lemma HeldCons(x: Lot, rest: seq<Lot>, sec: string)
    ensures Held([x] + rest, sec) == Own(x, sec) + Held(rest, sec)
  {
    assert ([x] + rest)[1..] == rest;
  }

  lemma {:induction false} DrawnAppend(a: seq<CapGainEntry>, b: seq<CapGainEntry>, sec: string)
    ensures Drawn(a + b, sec) == Drawn(a, sec) + Drawn(b, sec)
  {
    if a != [] {
      assert (a + b)[1..] == a[1..] + b;
      DrawnAppend(a[1..], b, sec);
    } else {
      assert a + b == b;
    }
  }

  /** Settle on a non-empty list: the first meeting, then the rest. */
  lemma SettleCons(sale: Lot, buys: seq<Lot>)
    requires buys != [] && Settle(sale, buys).Ok?
    ensures Meet(sale, buys[0]).Ok?
    ensures var m := Meet(sale, buys[0]).value;
      && Settle(m.sale, buys[1..]).Ok?
      && var rest := Settle(m.sale, buys[1..]).value;
      && Settle(sale, buys).value == After(m, rest)
  {
  }

  /** The outcome of a sale: its first meeting, then the outcome of the rest. */
  function After(m: Meeting, rest: SaleOutcome): SaleOutcome {
    SaleOutcome(rest.sale, [m.buy] + rest.buys, Entries(m.entry) + rest.gains)
  }

  // ---------------------------------------------------------------------
  // One sale against the whole buy list

  /** Per security, what the sale had is what is left of it plus what its
      entries drew, and what the buys held is what they hold now plus the same. */
  lemma {:induction false} SettleConserves(sale: Lot, buys: seq<Lot>, sec: string)
    requires Settle(sale, buys).Ok?
    ensures var o := Settle(sale, buys).value;
      && Own(sale, sec) == Own(o.sale, sec) + Drawn(o.gains, sec)
      && Held(buys, sec) == Held(o.buys, sec) + Drawn(o.gains, sec)
    decreases |buys|
  {
    if buys != [] {
      SettleCons(sale, buys);
      var m := Meet(sale, buys[0]).value;
      var rest := Settle(m.sale, buys[1..]).value;
      MeetOwn(sale, buys[0], sec);
      SettleConserves(m.sale, buys[1..], sec);
      HeldCons(m.buy, rest.buys, sec);
      DrawnAppend(Entries(m.entry), rest.gains, sec);
    }
  }

  /** Nothing goes negative, and quantities only go down. */
  predicate Shrinks(sale: Lot, buys: seq<Lot>, o: SaleOutcome) {
    && |o.buys| == |buys|
    && 0.0 <= Val(o.sale.qty) <= Val(sale.qty)
    && NonNeg(o.buys)
    && (forall k :: 0 <= k < |buys| ==> Val(o.buys[k].qty) <= Val(buys[k].qty))
    && (forall i :: 0 <= i < |o.gains| ==> Val(o.gains[i].unitQty) >= 0.0)
  }

  lemma {:induction false} SettleNonNeg(sale: Lot, buys: seq<Lot>)
    requires Settle(sale, buys).Ok?
    requires Val(sale.qty) >= 0.0 && NonNeg(buys)
    ensures Shrinks(sale, buys, Settle(sale, buys).value)
    decreases |buys|
  {
    if buys != [] {
      SettleCons(sale, buys);
      var m := Meet(sale, buys[0]).value;
      MeetFacts(sale, buys[0]);
      MeetBounds(sale, buys[0]);
      SettleNonNeg(m.sale, buys[1..]);
      ShrinksCons(sale, buys, m, Settle(m.sale, buys[1..]).value);
    }
  }

  lemma ShrinksCons(sale: Lot, buys: seq<Lot>, m: Meeting, rest: SaleOutcome)
    requires buys != [] && Met(sale, buys[0], m)
    requires Val(m.sale.qty) >= 0.0 && Val(m.buy.qty) >= 0.0 && Taken(m.entry) >= 0.0
    requires Shrinks(m.sale, buys[1..], rest)
    ensures Shrinks(sale, buys, After(m, rest))
  {
    var o := After(m, rest);
    forall k | 0 <= k < |buys| ensures Val(o.buys[k].qty) <= Val(buys[k].qty) && Val(o.buys[k].qty) >= 0.0 {
      if k > 0 {
        assert o.buys[k] == rest.buys[k - 1] && buys[k] == buys[1..][k - 1];
      }
    }
    forall i | 0 <= i < |o.gains| ensures Val(o.gains[i].unitQty) >= 0.0 {
      if i >= |Entries(m.entry)| {
        assert o.gains[i] == rest.gains[i - |Entries(m.entry)|];
      }
    }
  }

  /** Some buy of the list produced the entry. */
  predicate FromBuy(ce: CapGainEntry, sale: Lot, buys: seq<Lot>) {
    exists k :: 0 <= k < |buys| && EntryOf(ce, sale, buys[k])
  }

  /** Every entry is exact, belongs to the sale, and comes from a buy of the
      same security. */
  predicate AllFromBuy(gains: seq<CapGainEntry>, sale: Lot, buys: seq<Lot>) {
    forall i :: 0 <= i < |gains| ==> FromBuy(gains[i], sale, buys)
  }

  lemma {:induction false} SettleEntries(sale: Lot, buys: seq<Lot>)
    requires Settle(sale, buys).Ok?
    ensures AllFromBuy(Settle(sale, buys).value.gains, sale, buys)
    decreases |buys|
  {
    if buys != [] {
      SettleCons(sale, buys);
      var m := Meet(sale, buys[0]).value;
      MeetFacts(sale, buys[0]);
      SettleEntries(m.sale, buys[1..]);
      EntriesCons(sale, buys, m, Settle(m.sale, buys[1..]).value);
    }
  }

  lemma EntriesCons(sale: Lot, buys: seq<Lot>, m: Meeting, rest: SaleOutcome)
    requires buys != [] && Met(sale, buys[0], m)
    requires AllFromBuy(rest.gains, m.sale, buys[1..])
    ensures AllFromBuy(After(m, rest).gains, sale, buys)
  {
    var o := After(m, rest);
    var d := Entries(m.entry);
    forall i | 0 <= i < |o.gains| ensures FromBuy(o.gains[i], sale, buys) {
      if i < |d| {
        assert EntryOf(o.gains[i], sale, buys[0]);
      } else {
        assert o.gains[i] == rest.gains[i - |d|];
        FromBuyCons(o.gains[i], m.sale, sale, buys);
      }
    }
  }

  /** An entry from a buy of the tail, seen from a sale that differs only in
      its quantity, comes from a buy of the whole list. */
  lemma FromBuyCons(ce: CapGainEntry, sale': Lot, sale: Lot, buys: seq<Lot>)
    requires buys != [] && SameLot(sale', sale) && FromBuy(ce, sale', buys[1..])
    ensures FromBuy(ce, sale, buys)
  {
    var k :| 0 <= k < |buys[1..]| && EntryOf(ce, sale', buys[1..][k]);
    assert EntryOf(ce, sale, buys[k + 1]);
  }

  /** An entry that draws anything comes from a buy dated on or before the sale. */
  predicate Chronological(gains: seq<CapGainEntry>) {
    forall i :: 0 <= i < |gains| && Val(gains[i].unitQty) > 0.0 ==> AtOrBefore(gains[i].acqDate, gains[i].saleDate)
  }

  lemma {:induction false} SettleChronology(sale: Lot, buys: seq<Lot>)
    requires Settle(sale, buys).Ok?
    ensures Chronological(Settle(sale, buys).value.gains)
    decreases |buys|
  {
    if buys != [] {
      SettleCons(sale, buys);
      var m := Meet(sale, buys[0]).value;
      MeetFacts(sale, buys[0]);
      if Taken(m.entry) > 0.0 {
        MeetChronology(sale, buys[0]);
      }
      SettleChronology(m.sale, buys[1..]);
      ChronologyCons(sale, buys[0], m, Settle(m.sale, buys[1..]).value);
    }
  }

  lemma ChronologyCons(sale: Lot, buy: Lot, m: Meeting, rest: SaleOutcome)
    requires Met(sale, buy, m) && Chronological(rest.gains)
    requires Taken(m.entry) > 0.0 ==> AtOrBefore(buy.day, sale.day)
    ensures Chronological(After(m, rest).gains)
  {
    var o := After(m, rest);
    var d := Entries(m.entry);
    forall i | 0 <= i < |o.gains| && Val(o.gains[i].unitQty) > 0.0
      ensures AtOrBefore(o.gains[i].acqDate, o.gains[i].saleDate)
    {
      if i >= |d| {
        assert o.gains[i] == rest.gains[i - |d|];
      }
    }
  }

  /** A buy of the sale's security dated after the sale. */
  predicate Late(sale: Lot, buy: Lot) {
    buy.security == sale.security && Before(sale.day, buy.day)
  }

  /** The buy at j is later than the sale, and the buys before it do not
      cover the sale: it still has quantity when it reaches that buy. */
  predicate Uncovered(sale: Lot, buys: seq<Lot>, j: int) {
    0 <= j < |buys| && Late(sale, buys[j]) && Val(sale.qty) > Held(buys[..j], sale.security)
  }

  lemma HeldNonNeg(lots: seq<Lot>, sec: string)
    requires NonNeg(lots)
    ensures Held(lots, sec) >= 0.0
  {
  }

  /** j is the first buy of the list at which the sale is uncovered. */
  predicate FirstUncovered(sale: Lot, buys: seq<Lot>, j: int) {
    Uncovered(sale, buys, j) && forall i :: 0 <= i < j ==> !Uncovered(sale, buys, i)
  }

  /** e is the BadDataException the sale raises at the first buy where it is
      uncovered: it names the sale's security and day, and the quantity the
      sale still has there, which is its own less what the buys before held. */
  ghost predicate RaisedAt(sale: Lot, buys: seq<Lot>, e: Error) {
    && e.BadData? && e.security == sale.security && e.day == sale.day
    && exists j :: FirstUncovered(sale, buys, j) && Val(e.qty) == Val(sale.qty) - Held(buys[..j], sale.security)
  }

  /** The BadDataException condition: a sale fails exactly when it still has
      quantity at a later buy of its security, and the error names the sale
      and the quantity it has left at the first such buy. */
  lemma {:induction false} SettleBadData(sale: Lot, buys: seq<Lot>)
    requires Val(sale.qty) >= 0.0 && NonNeg(buys)
    ensures Settle(sale, buys).Err? <==> exists j :: Uncovered(sale, buys, j)
    ensures Settle(sale, buys).Err? ==> RaisedAt(sale, buys, Settle(sale, buys).error)
    decreases |buys|
  {
    if buys != [] {
      var b := buys[0];
      SignVal(sale.qty);
      if Meet(sale, b).Ok? {
        var m := Meet(sale, b).value;
        MeetFacts(sale, b);
        MeetBounds(sale, b);
        MeetRemaining(sale, b);
        SettleBadData(m.sale, buys[1..]);
        UncoveredStep(sale, buys, m);
        UncoveredCons(sale, buys, m);
        if Settle(m.sale, buys[1..]).Err? {
          RaisedCons(sale, buys, m, Settle(m.sale, buys[1..]).error);
        }
      } else {
        assert buys[..0] == [];
        assert FirstUncovered(sale, buys, 0);
      }
    }
  }

  /** After a meeting that raised nothing, the sale is uncovered at the buy
      j of the whole list exactly when what is left of it is uncovered at the
      buy j - 1 of the rest, and never at the first buy. */
  lemma UncoveredStep(sale: Lot, buys: seq<Lot>, m: Meeting)
    requires buys != [] && Met(sale, buys[0], m) && NonNeg(buys) && Val(sale.qty) >= 0.0
    requires !(Late(sale, buys[0]) && Val(sale.qty) > 0.0)
    requires var own := Own(buys[0], sale.security);
      Val(m.sale.qty) == if Val(sale.qty) > own then Val(sale.qty) - own else 0.0
    ensures !Uncovered(sale, buys, 0)
    ensures forall j :: 1 <= j < |buys| ==>
      (Uncovered(sale, buys, j) <==> Uncovered(m.sale, buys[1..], j - 1))
  {
    var b, tail := buys[0], buys[1..];
    assert buys[..0] == [];
    forall j | 1 <= j < |buys|
      ensures Uncovered(sale, buys, j) <==> Uncovered(m.sale, tail, j - 1)
    {
      assert buys[..j] == [b] + tail[..j - 1];
      HeldCons(b, tail[..j - 1], sale.security);
      HeldNonNeg(tail[..j - 1], sale.security);
      assert buys[j] == tail[j - 1];
    }
  }

  /** After a meeting that raised nothing, the sale meets a later buy with
      quantity left in the rest of the list exactly when it did in the whole. */
  lemma UncoveredCons(sale: Lot, buys: seq<Lot>, m: Meeting)
    requires buys != [] && !Uncovered(sale, buys, 0)
    requires forall j :: 1 <= j < |buys| ==>
      (Uncovered(sale, buys, j) <==> Uncovered(m.sale, buys[1..], j - 1))
    ensures (exists j :: Uncovered(sale, buys, j)) <==> (exists j :: Uncovered(m.sale, buys[1..], j))
  {
    var tail := buys[1..];
    if exists j :: Uncovered(sale, buys, j) {
      var j :| Uncovered(sale, buys, j);
      assert Uncovered(m.sale, tail, j - 1);
    }
    if exists j :: Uncovered(m.sale, tail, j) {
      var j :| Uncovered(m.sale, tail, j);
      assert Uncovered(sale, buys, j + 1);
    }
  }

  /** The error the rest of the list raises for what is left of the sale is
      the one the whole list raises for the sale: one buy further on, and
      with the same quantity left. */
  lemma RaisedCons(sale: Lot, buys: seq<Lot>, m: Meeting, e: Error)
    requires buys != [] && NonNeg(buys) && m.sale.security == sale.security && m.sale.day == sale.day
    requires var own := Own(buys[0], sale.security);
      Val(m.sale.qty) == if Val(sale.qty) > own then Val(sale.qty) - own else 0.0
    requires !Uncovered(sale, buys, 0)
    requires forall j :: 1 <= j < |buys| ==>
      (Uncovered(sale, buys, j) <==> Uncovered(m.sale, buys[1..], j - 1))
    requires RaisedAt(m.sale, buys[1..], e)
    ensures RaisedAt(sale, buys, e)
  {
    var b, tail := buys[0], buys[1..];
    var j :| FirstUncovered(m.sale, tail, j) && Val(e.qty) == Val(m.sale.qty) - Held(tail[..j], sale.security);
    HeldNonNeg(tail[..j], sale.security);
    assert Uncovered(sale, buys, j + 1);
    forall i | 0 <= i < j + 1 ensures !Uncovered(sale, buys, i) {
      if i > 0 {
        assert !Uncovered(m.sale, tail, i - 1);
      }
    }
    assert buys[..j + 1] == [b] + tail[..j];
    HeldCons(b, tail[..j], sale.security);
    assert FirstUncovered(sale, buys, j + 1);
  }

  /** A meeting of a sale of the buy's security that leaves the sale with
      quantity empties the buy. */
  lemma MeetDrains(sale: Lot, buy: Lot)
    requires Meet(sale, buy).Ok? && buy.security == sale.security
    requires Val(sale.qty) >= 0.0 && Val(buy.qty) >= 0.0
    requires Val(Meet(sale, buy).value.sale.qty) > 0.0
    ensures Val(Meet(sale, buy).value.buy.qty) == 0.0
  {
    MeetFacts(sale, buy);
    MeetBounds(sale, buy);
    SignVal(buy.qty);
  }

  /** A sale with nothing left meets a buy without error, keeps nothing
      back from it, and records at most an entry that draws nothing. */
  lemma MeetIdle(sale: Lot, buy: Lot)
    requires Val(sale.qty) == 0.0
    ensures Meet(sale, buy).Ok?
    ensures var m := Meet(sale, buy).value;
      Val(m.sale.qty) == 0.0 && Val(m.buy.qty) == Val(buy.qty) && Taken(m.entry) == 0.0
  {
    SignVal(sale.qty);
    SignVal(buy.qty);
    CompareVal(buy.qty, sale.qty);
    MeetFacts(sale, buy);
  }

  /** A sale with nothing left passes every buy: no error, every buy keeps
      its quantity, and the entries it records draw nothing. */
  lemma {:induction false} SettleIdle(sale: Lot, buys: seq<Lot>)
    requires Val(sale.qty) == 0.0
    ensures Settle(sale, buys).Ok?
    ensures var o := Settle(sale, buys).value;
      && Val(o.sale.qty) == 0.0
      && (forall k :: 0 <= k < |buys| ==> Val(o.buys[k].qty) == Val(buys[k].qty))
      && (forall i :: 0 <= i < |o.gains| ==> Val(o.gains[i].unitQty) == 0.0)
    decreases |buys|
  {
    if buys != [] {
      MeetIdle(sale, buys[0]);
      var m := Meet(sale, buys[0]).value;
      SettleIdle(m.sale, buys[1..]);
      var rest := Settle(m.sale, buys[1..]).value;
      var o := SaleOutcome(rest.sale, [m.buy] + rest.buys, Entries(m.entry) + rest.gains);
      assert Settle(sale, buys) == Ok(o);
      forall k | 1 <= k < |buys| ensures Val(o.buys[k].qty) == Val(buys[k].qty) {
        assert o.buys[k] == rest.buys[k - 1] && buys[k] == buys[1..][k - 1];
      }
      forall i | 0 <= i < |o.gains| ensures Val(o.gains[i].unitQty) == 0.0 {
        if i >= |Entries(m.entry)| {
          assert o.gains[i] == rest.gains[i - |Entries(m.entry)|];
        }
      }
    }
  }

  /** What is left of the sale: its quantity less what the buys held of its
      security, or nothing when they covered it. */
  lemma {:induction false} SettleRemaining(sale: Lot, buys: seq<Lot>)
    requires Settle(sale, buys).Ok?
    requires Val(sale.qty) >= 0.0 && NonNeg(buys)
    ensures var held := Held(buys, sale.security);
      Val(Settle(sale, buys).value.sale.qty) ==
        if Val(sale.qty) > held then Val(sale.qty) - held else 0.0
    decreases |buys|
  {
    if buys != [] {
      SettleCons(sale, buys);
      var m := Meet(sale, buys[0]).value;
      MeetFacts(sale, buys[0]);
      MeetBounds(sale, buys[0]);
      MeetRemaining(sale, buys[0]);
      SettleRemaining(m.sale, buys[1..]);
      HeldNonNeg(buys[1..], sale.security);
    }
  }

  /** A sale that ends with quantity left has emptied every buy of its security. */
  predicate Drained(sale: Lot, buys: seq<Lot>, o: SaleOutcome)
    requires |o.buys| == |buys|
  {
    forall k :: 0 <= k < |buys| && buys[k].security == sale.security ==> Val(o.buys[k].qty) == 0.0
  }

  lemma {:induction false} SettleLeftover(sale: Lot, buys: seq<Lot>)
    requires Settle(sale, buys).Ok?
    requires Val(sale.qty) >= 0.0 && NonNeg(buys)
    requires Val(Settle(sale, buys).value.sale.qty) > 0.0
    ensures Drained(sale, buys, Settle(sale, buys).value)
    decreases |buys|
  {
    if buys != [] {
      SettleCons(sale, buys);
      var m := Meet(sale, buys[0]).value;
      MeetFacts(sale, buys[0]);
      MeetBounds(sale, buys[0]);
      SettleNonNeg(m.sale, buys[1..]);
      SettleLeftover(m.sale, buys[1..]);
      if buys[0].security == sale.security {
        MeetDrains(sale, buys[0]);
      }
      DrainedCons(sale, buys, m, Settle(m.sale, buys[1..]).value);
    }
  }

  lemma DrainedCons(sale: Lot, buys: seq<Lot>, m: Meeting, rest: SaleOutcome)
    requires buys != [] && |rest.buys| == |buys| - 1 && m.sale.security == sale.security
    requires buys[0].security == sale.security ==> Val(m.buy.qty) == 0.0
    requires Drained(m.sale, buys[1..], rest)
    ensures Drained(sale, buys, After(m, rest))
  {
    var o := After(m, rest);
    forall k | 1 <= k < |buys| && buys[k].security == sale.security
      ensures Val(o.buys[k].qty) == 0.0
    {
      assert o.buys[k] == rest.buys[k - 1] && buys[k] == buys[1..][k - 1];
    }
  }

  /** First in, first out: a sale draws on a buy only once every earlier buy
      of its security is empty. */
  predicate FirstInFirstOut(sale: Lot, buys: seq<Lot>, o: SaleOutcome)
    requires |o.buys| == |buys|
  {
    forall k, j ::
      (0 <= k < j < |buys| && buys[k].security == sale.security && Val(o.buys[j].qty) < Val(buys[j].qty))
      ==> Val(o.buys[k].qty) == 0.0
  }

  lemma {:induction false} SettleFifo(sale: Lot, buys: seq<Lot>)
    requires Settle(sale, buys).Ok?
    requires Val(sale.qty) >= 0.0 && NonNeg(buys)
    ensures FirstInFirstOut(sale, buys, Settle(sale, buys).value)
    decreases |buys|
  {
    if buys != [] {
      SettleCons(sale, buys);
      var m := Meet(sale, buys[0]).value;
      var tail := buys[1..];
      MeetFacts(sale, buys[0]);
      MeetBounds(sale, buys[0]);
      SettleFifo(m.sale, tail);
      if Val(m.sale.qty) == 0.0 {
        SettleIdle(m.sale, tail);
      } else if buys[0].security == sale.security {
        MeetDrains(sale, buys[0]);
      }
      FifoCons(sale, buys, m, Settle(m.sale, tail).value);
    }
  }

  lemma FifoCons(sale: Lot, buys: seq<Lot>, m: Meeting, rest: SaleOutcome)
    requires buys != [] && |rest.buys| == |buys| - 1 && m.sale.security == sale.security
    requires Val(m.sale.qty) == 0.0 ==>
      forall i :: 0 <= i < |rest.buys| ==> Val(rest.buys[i].qty) == Val(buys[1..][i].qty)
    requires Val(m.sale.qty) != 0.0 && buys[0].security == sale.security ==> Val(m.buy.qty) == 0.0
    requires FirstInFirstOut(m.sale, buys[1..], rest)
    ensures FirstInFirstOut(sale, buys, After(m, rest))
  {
    var o := After(m, rest);
    forall k, j | 0 <= k < j < |buys| && buys[k].security == sale.security && Val(o.buys[j].qty) < Val(buys[j].qty)
      ensures Val(o.buys[k].qty) == 0.0
    {
      assert o.buys[j] == rest.buys[j - 1] && buys[j] == buys[1..][j - 1];
      if Val(m.sale.qty) == 0.0 {
        assert false;
      }
      if k > 0 {
        assert o.buys[k] == rest.buys[k - 1] && buys[k] == buys[1..][k - 1];
      }
    }
  }

  /** With the buys in date order, no entry of a sale is dated before the
      first buy. */
  lemma SettleAcqAfter(sale: Lot, buys: seq<Lot>)
    requires Settle(sale, buys).Ok? && LotsSortedByDay(buys)
    ensures var gains := Settle(sale, buys).value.gains;
      forall i :: 0 <= i < |gains| ==> AtOrBefore(buys[0].day, gains[i].acqDate)
  {
    SettleEntries(sale, buys);
    var gains := Settle(sale, buys).value.gains;
    forall i | 0 <= i < |gains| ensures AtOrBefore(buys[0].day, gains[i].acqDate) {
      var k :| 0 <= k < |buys| && EntryOf(gains[i], sale, buys[k]);
    }
  }

  /** With the buys in date order, a sale's entries come in date order of
      acquisition. */
  predicate AcqOrdered(gains: seq<CapGainEntry>) {
    forall i, j :: 0 <= i < j < |gains| ==> AtOrBefore(gains[i].acqDate, gains[j].acqDate)
  }

  lemma {:induction false} SettleAcqOrder(sale: Lot, buys: seq<Lot>)
    requires Settle(sale, buys).Ok? && LotsSortedByDay(buys)
    ensures AcqOrdered(Settle(sale, buys).value.gains)
    decreases |buys|
  {
    if buys != [] {
      SettleCons(sale, buys);
      var m := Meet(sale, buys[0]).value;
      var tail := buys[1..];
      MeetFacts(sale, buys[0]);
      SettleAcqOrder(m.sale, tail);
      if tail != [] {
        SettleAcqAfter(m.sale, tail);
      }
      AcqOrderCons(sale, buys, m, Settle(m.sale, tail).value);
    }
  }

  lemma AcqOrderCons(sale: Lot, buys: seq<Lot>, m: Meeting, rest: SaleOutcome)
    requires buys != [] && LotsSortedByDay(buys) && Met(sale, buys[0], m)
    requires AcqOrdered(rest.gains)
    requires |buys| == 1 ==> rest.gains == []
    requires |buys| > 1 ==> forall i :: 0 <= i < |rest.gains| ==> AtOrBefore(buys[1].day, rest.gains[i].acqDate)
    ensures AcqOrdered(After(m, rest).gains)
  {
    var o := After(m, rest);
    var d := Entries(m.entry);
    forall i, j | 0 <= i < j < |o.gains| ensures AtOrBefore(o.gains[i].acqDate, o.gains[j].acqDate) {
      if i >= |d| {
        assert o.gains[i] == rest.gains[i - |d|] && o.gains[j] == rest.gains[j - |d|];
      } else {
        assert o.gains[i] == m.entry.value && o.gains[j] == rest.gains[j - |d|];
        BeforeTransitive(buys[0].day, buys[1].day, rest.gains[j - |d|].acqDate);
      }
    }
  }

  /** A sale changes only buys of its own security. */
  lemma {:induction false} SettleOwnSecurity(sale: Lot, buys: seq<Lot>, k: nat)
    requires Settle(sale, buys).Ok? && k < |buys|
    requires Settle(sale, buys).value.buys[k] != buys[k]
    ensures buys[k].security == sale.security
    decreases |buys|
  {
    SettleCons(sale, buys);
    var m := Meet(sale, buys[0]).value;
    MeetFacts(sale, buys[0]);
    if k > 0 {
      var rest := Settle(m.sale, buys[1..]).value;
      assert Settle(sale, buys).value.buys[k] == rest.buys[k - 1] && buys[k] == buys[1..][k - 1];
      SettleOwnSecurity(m.sale, buys[1..], k - 1);
    }
  }

  // ---------------------------------------------------------------------
  // Every sale in turn

  /** The outcome of the whole walk from the first sale's outcome and the
      outcome of the rest. */
  function Then(o: SaleOutcome, rest: Outcome): Outcome {
    Outcome([o.sale] + rest.sells, rest.buys, o.gains + rest.gains)
  }

  /** SettleAll on a non-empty list of sales: the first sale, then the rest. */
  lemma SettleAllCons(sells: seq<Lot>, buys: seq<Lot>)
    requires sells != [] && SettleAll(sells, buys).Ok?
    ensures Settle(sells[0], buys).Ok?
    ensures var o := Settle(sells[0], buys).value;
      && SettleAll(sells[1..], o.buys).Ok?
      && SettleAll(sells, buys).value == Then(o, SettleAll(sells[1..], o.buys).value)
  {
  }

  /** Per security, what the sales had is what is left of them plus what
      the entries drew, and the same for the buys. */
  lemma {:induction false} SettleAllConserves(sells: seq<Lot>, buys: seq<Lot>, sec: string)
    requires SettleAll(sells, buys).Ok?
    ensures var r := SettleAll(sells, buys).value;
      && Held(sells, sec) == Held(r.sells, sec) + Drawn(r.gains, sec)
      && Held(buys, sec) == Held(r.buys, sec) + Drawn(r.gains, sec)
    decreases |sells|
  {
    if sells != [] {
      SettleAllCons(sells, buys);
      var o := Settle(sells[0], buys).value;
      var rest := SettleAll(sells[1..], o.buys).value;
      SettleConserves(sells[0], buys, sec);
      SettleAllConserves(sells[1..], o.buys, sec);
      HeldCons(sells[0], sells[1..], sec);
      assert sells == [sells[0]] + sells[1..];
      HeldCons(o.sale, rest.sells, sec);
      DrawnAppend(o.gains, rest.gains, sec);
    }
  }

  /** Nothing goes negative over the whole walk, and quantities only go down. */
  predicate AllShrink(sells: seq<Lot>, buys: seq<Lot>, r: Outcome) {
    && |r.sells| == |sells| && |r.buys| == |buys|
    && NonNeg(r.sells) && NonNeg(r.buys)
    && (forall k :: 0 <= k < |sells| ==> Val(r.sells[k].qty) <= Val(sells[k].qty))
    && (forall k :: 0 <= k < |buys| ==> Val(r.buys[k].qty) <= Val(buys[k].qty))
    && (forall i :: 0 <= i < |r.gains| ==> Val(r.gains[i].unitQty) >= 0.0)
  }

  lemma {:induction false} SettleAllNonNeg(sells: seq<Lot>, buys: seq<Lot>)
    requires SettleAll(sells, buys).Ok? && NonNeg(sells) && NonNeg(buys)
    ensures AllShrink(sells, buys, SettleAll(sells, buys).value)
    decreases |sells|
  {
    if sells != [] {
      SettleAllCons(sells, buys);
      var o := Settle(sells[0], buys).value;
      SettleNonNeg(sells[0], buys);
      assert NonNeg(sells[1..]);
      SettleAllNonNeg(sells[1..], o.buys);
      AllShrinkCons(sells, buys, o, SettleAll(sells[1..], o.buys).value);
    }
  }

  lemma AllShrinkCons(sells: seq<Lot>, buys: seq<Lot>, o: SaleOutcome, rest: Outcome)
    requires sells != [] && Shrinks(sells[0], buys, o)
    requires AllShrink(sells[1..], o.buys, rest)
    ensures AllShrink(sells, buys, Then(o, rest))
  {
    var r := Then(o, rest);
    forall k | 0 <= k < |sells|
      ensures Val(r.sells[k].qty) >= 0.0 && Val(r.sells[k].qty) <= Val(sells[k].qty)
    {
      if k > 0 {
        assert r.sells[k] == rest.sells[k - 1] && sells[k] == sells[1..][k - 1];
      }
    }
    forall i | 0 <= i < |r.gains| ensures Val(r.gains[i].unitQty) >= 0.0 {
      if i >= |o.gains| {
        assert r.gains[i] == rest.gains[i - |o.gains|];
      }
    }
  }

  /** Some sale and some buy of the ledger produced the entry. */
  predicate FromLedger(ce: CapGainEntry, sells: seq<Lot>, buys: seq<Lot>) {
    exists i, k :: 0 <= i < |sells| && 0 <= k < |buys| && EntryOf(ce, sells[i], buys[k])
  }

  /** An entry from the ledger as a sale left it comes from the original ledger. */
  lemma FromLedgerCons(ce: CapGainEntry, sells: seq<Lot>, buys: seq<Lot>, buys': seq<Lot>)
    requires sells != [] && |buys'| == |buys|
    requires forall k :: 0 <= k < |buys| ==> SameLot(buys'[k], buys[k])
    requires FromLedger(ce, sells[1..], buys')
    ensures FromLedger(ce, sells, buys)
  {
    var i, k :| 0 <= i < |sells[1..]| && 0 <= k < |buys'| && EntryOf(ce, sells[1..][i], buys'[k]);
    assert EntryOf(ce, sells[i + 1], buys[k]);
  }

  /** Every entry is exact and pairs a sale and a buy of the same security from
      the ledger; one that draws anything is dated on or after its acquisition. */
  predicate AllFromLedger(gains: seq<CapGainEntry>, sells: seq<Lot>, buys: seq<Lot>) {
    forall i :: 0 <= i < |gains| ==>
      && FromLedger(gains[i], sells, buys)
      && (Val(gains[i].unitQty) > 0.0 ==> AtOrBefore(gains[i].acqDate, gains[i].saleDate))
  }

  lemma {:induction false} SettleAllEntries(sells: seq<Lot>, buys: seq<Lot>)
    requires SettleAll(sells, buys).Ok?
    ensures AllFromLedger(SettleAll(sells, buys).value.gains, sells, buys)
    decreases |sells|
  {
    if sells != [] {
      SettleAllCons(sells, buys);
      var o := Settle(sells[0], buys).value;
      SettleEntries(sells[0], buys);
      SettleChronology(sells[0], buys);
      SettleAllEntries(sells[1..], o.buys);
      AllFromLedgerCons(sells, buys, o, SettleAll(sells[1..], o.buys).value);
    }
  }

  lemma AllFromLedgerCons(sells: seq<Lot>, buys: seq<Lot>, o: SaleOutcome, rest: Outcome)
    requires sells != [] && |o.buys| == |buys|
    requires forall k :: 0 <= k < |buys| ==> SameLot(o.buys[k], buys[k])
    requires AllFromBuy(o.gains, sells[0], buys) && Chronological(o.gains)
    requires AllFromLedger(rest.gains, sells[1..], o.buys)
    ensures AllFromLedger(Then(o, rest).gains, sells, buys)
  {
    var r := Then(o, rest);
    forall i | 0 <= i < |r.gains|
      ensures FromLedger(r.gains[i], sells, buys)
      ensures Val(r.gains[i].unitQty) > 0.0 ==> AtOrBefore(r.gains[i].acqDate, r.gains[i].saleDate)
    {
      if i < |o.gains| {
        assert FromBuy(o.gains[i], sells[0], buys);
        var k :| 0 <= k < |buys| && EntryOf(o.gains[i], sells[0], buys[k]);
        assert EntryOf(r.gains[i], sells[0], buys[k]);
      } else {
        assert r.gains[i] == rest.gains[i - |o.gains|];
        FromLedgerCons(r.gains[i], sells, buys, o.buys);
      }
    }
  }

  /** later is the buy list as earlier sales may leave it: the same lots,
      none negative, none holding more than before. */
  predicate LeftBy(later: seq<Lot>, buys: seq<Lot>) {
    && |later| == |buys| && NonNeg(later)
    && forall k :: 0 <= k < |buys| ==> SameLot(later[k], buys[k]) && Val(later[k].qty) <= Val(buys[k].qty)
  }

  /** e is the BadDataException some sale raises against the buys as the
      sales before it left them. */
  ghost predicate RaisedInWalk(sells: seq<Lot>, buys: seq<Lot>, e: Error) {
    exists i, later :: 0 <= i < |sells| && LeftBy(later, buys) && RaisedAt(sells[i], later, e)
  }

  /** A run that stops with an error stops with BadData for some sale of the
      ledger that has a buy of its security dated after it, carrying a
      positive quantity no larger than the sale's: without such a pair the
      walk always completes. The quantity is what that sale has left at the
      first buy where it is uncovered, in the buy list the earlier sales left. */
  lemma SettleAllBadData(sells: seq<Lot>, buys: seq<Lot>)
    requires NonNeg(sells) && NonNeg(buys)
    requires SettleAll(sells, buys).Err?
    ensures var e := SettleAll(sells, buys).error;
      && e.BadData?
      && exists i, k :: 0 <= i < |sells| && 0 <= k < |buys| && Late(sells[i], buys[k])
           && e.security == sells[i].security && e.day == sells[i].day
           && 0.0 < Val(e.qty) <= Val(sells[i].qty)
    ensures RaisedInWalk(sells, buys, SettleAll(sells, buys).error)
  {
    var e := SettleAll(sells, buys).error;
    SettleAllRaised(sells, buys);
    var i, later :| 0 <= i < |sells| && LeftBy(later, buys) && RaisedAt(sells[i], later, e);
    var j :| FirstUncovered(sells[i], later, j) && Val(e.qty) == Val(sells[i].qty) - Held(later[..j], sells[i].security);
    assert NonNeg(later[..j]);
    HeldNonNeg(later[..j], sells[i].security);
    assert Late(sells[i], buys[j]);
  }

  lemma {:induction false} SettleAllRaised(sells: seq<Lot>, buys: seq<Lot>)
    requires NonNeg(sells) && NonNeg(buys)
    requires SettleAll(sells, buys).Err?
    ensures RaisedInWalk(sells, buys, SettleAll(sells, buys).error)
    decreases |sells|
  {
    var s := sells[0];
    var e := SettleAll(sells, buys).error;
    SettleBadData(s, buys);
    if Settle(s, buys).Err? {
      assert LeftBy(buys, buys);
      assert RaisedAt(sells[0], buys, e);
    } else {
      var o := Settle(s, buys).value;
      SettleNonNeg(s, buys);
      assert NonNeg(sells[1..]);
      SettleAllRaised(sells[1..], o.buys);
      var i, later :| 0 <= i < |sells[1..]| && LeftBy(later, o.buys) && RaisedAt(sells[1..][i], later, e);
      LeftByTrans(later, o.buys, buys);
      assert sells[1..][i] == sells[i + 1];
    }
  }

  lemma LeftByTrans(c: seq<Lot>, b: seq<Lot>, a: seq<Lot>)
    requires LeftBy(c, b) && |b| == |a|
    requires forall k :: 0 <= k < |a| ==> SameLot(b[k], a[k]) && Val(b[k].qty) <= Val(a[k].qty)
    ensures LeftBy(c, a)
  {
  }

  /** First in, first out over the whole walk: once any sale has drawn on a
      buy, every earlier buy of the same security is empty at the end. */
  predicate AllFirstInFirstOut(buys: seq<Lot>, final: seq<Lot>)
    requires |final| == |buys|
  {
    forall k, j ::
      (0 <= k < j < |buys| && buys[k].security == buys[j].security && Val(final[j].qty) < Val(buys[j].qty))
      ==> Val(final[k].qty) == 0.0
  }

  lemma {:induction false} SettleAllFifo(sells: seq<Lot>, buys: seq<Lot>)
    requires SettleAll(sells, buys).Ok? && NonNeg(sells) && NonNeg(buys)
    ensures AllFirstInFirstOut(buys, SettleAll(sells, buys).value.buys)
    decreases |sells|
  {
    if sells != [] {
      SettleAllCons(sells, buys);
      var o := Settle(sells[0], buys).value;
      SettleNonNeg(sells[0], buys);
      SettleFifo(sells[0], buys);
      forall k | 0 <= k < |buys| && o.buys[k] != buys[k] ensures buys[k].security == sells[0].security {
        SettleOwnSecurity(sells[0], buys, k);
      }
      assert NonNeg(sells[1..]);
      SettleAllNonNeg(sells[1..], o.buys);
      SettleAllFifo(sells[1..], o.buys);
      AllFifoCons(sells[0], buys, o, SettleAll(sells[1..], o.buys).value.buys);
    }
  }

  lemma AllFifoCons(sale: Lot, buys: seq<Lot>, o: SaleOutcome, final: seq<Lot>)
    requires Shrinks(sale, buys, o) && |final| == |buys|
    requires forall k :: 0 <= k < |buys| ==> SameLot(o.buys[k], buys[k])
    requires forall k :: 0 <= k < |buys| && o.buys[k] != buys[k] ==> buys[k].security == sale.security
    requires FirstInFirstOut(sale, buys, o)
    requires NonNeg(final) && forall k :: 0 <= k < |buys| ==> Val(final[k].qty) <= Val(o.buys[k].qty)
    requires AllFirstInFirstOut(o.buys, final)
    ensures AllFirstInFirstOut(buys, final)
  {
    forall k, j | 0 <= k < j < |buys| && buys[k].security == buys[j].security && Val(final[j].qty) < Val(buys[j].qty)
      ensures Val(final[k].qty) == 0.0
    {
      if Val(o.buys[j].qty) < Val(buys[j].qty) {
        assert o.buys[j] != buys[j];
      } else {
        assert o.buys[k].security == o.buys[j].security;
      }
    }
  }
}
