/** The third phase of ProcessDataset: every sale, in list order, walks the
    whole buy list, drawing from buys of its security and mutating the
    remaining UnitQty of both sides in place. Settle and SettleAll state on
    values what one sale and the whole walk compute; MatchSale and MatchSells
    are the loops, proved equal to them. */
module Matching {
  import opened Wrappers
  import opened Decimals
  import opened Dates
  import opened Ledger

  /** The entry the loop records when a sale draws qty units from a buy:
      security and sale side from the sale, acquisition side from the buy,
      basis, proceeds and gain computed exactly. */
  function MakeEntry(sale: Lot, buy: Lot, qty: Dec): CapGainEntry {
    var cost := Mul(qty, buy.price);
    var proceeds := Mul(qty, sale.price);
    CapGainEntry(sale.security, buy.day, sale.day, qty, buy.price, sale.price,
                 cost, proceeds, Sub(proceeds, cost))
  }

  /** The sale and the buy after they meet, and the entry recorded, if any. */
  datatype Meeting = Meeting(sale: Lot, buy: Lot, entry: Option<CapGainEntry>)

  /** One pass of the inner foreach. A sale with quantity left that meets a
      later buy of its security is bad data (even when that buy is used up).
      Otherwise a buy of another security, or one with nothing left, is passed
      over; else the smaller side is used up and the other reduced by it. */
  function Meet(sale: Lot, buy: Lot): Result<Meeting, Error> {
    if sale.security == buy.security && IsPositive(sale.qty) && Before(sale.day, buy.day) then
      Err(BadData(sale.security, sale.day, sale.qty))
    else if !IsPositive(buy.qty) || sale.security != buy.security then
      Ok(Meeting(sale, buy, None))
    else if Less(buy.qty, sale.qty) then
      Ok(Meeting(sale.(qty := Sub(sale.qty, buy.qty)), buy.(qty := Zero),
                 Some(MakeEntry(sale, buy, buy.qty))))
    else
      Ok(Meeting(sale.(qty := Zero), buy.(qty := Sub(buy.qty, sale.qty)),
                 Some(MakeEntry(sale, buy, sale.qty))))
  }

  function Entries(e: Option<CapGainEntry>): seq<CapGainEntry> {
    if e.Some? then [e.value] else []
  }

  /** What is left of one sale, the buy list after it, and its entries. */
  datatype SaleOutcome = SaleOutcome(sale: Lot, buys: seq<Lot>, gains: seq<CapGainEntry>)

  /** Two lots that differ at most in their remaining quantity. */
  predicate SameLot(a: Lot, b: Lot) {
    a.security == b.security && a.day == b.day && a.price == b.price
  }

  /** The walk after one meeting: the met buy goes in front of the buys the
      rest of the walk leaves, and its entry in front of the entries. */
  function Continue(m: Meeting, rest: Result<SaleOutcome, Error>): Result<SaleOutcome, Error> {
    match rest
    case Err(e) => Err(e)
    case Ok(o) => Ok(SaleOutcome(o.sale, [m.buy] + o.buys, Entries(m.entry) + o.gains))
  }

  /** The inner foreach over the whole buy list for one sale. */
  function Settle(sale: Lot, buys: seq<Lot>): (r: Result<SaleOutcome, Error>)
    ensures r.Ok? ==> |r.value.buys| == |buys| && SameLot(r.value.sale, sale)
    ensures r.Ok? ==> forall k :: 0 <= k < |buys| ==> SameLot(r.value.buys[k], buys[k])
    decreases |buys|
  {
    if buys == [] then Ok(SaleOutcome(sale, [], []))
    else
      match Meet(sale, buys[0])
      case Err(e) => Err(e)
      case Ok(m) => Continue(m, Settle(m.sale, buys[1..]))
  }

  /** The sells after matching, the buys after matching, and all entries. */
  datatype Outcome = Outcome(sells: seq<Lot>, buys: seq<Lot>, gains: seq<CapGainEntry>)

  /** The outer foreach: every sale in turn, each meeting the buys as the
      sales before it left them. */
  function SettleAll(sells: seq<Lot>, buys: seq<Lot>): (r: Result<Outcome, Error>)
    ensures r.Ok? ==> |r.value.sells| == |sells| && |r.value.buys| == |buys|
    ensures r.Ok? ==> forall k :: 0 <= k < |buys| ==> SameLot(r.value.buys[k], buys[k])
    ensures r.Ok? ==> forall k :: 0 <= k < |sells| ==> SameLot(r.value.sells[k], sells[k])
    decreases |sells|
  {
    if sells == [] then Ok(Outcome([], buys, []))
    else
      match Settle(sells[0], buys)
      case Err(e) => Err(e)
      case Ok(o) =>
        match SettleAll(sells[1..], o.buys)
        case Err(e) => Err(e)
        case Ok(rest) => Ok(Outcome([o.sale] + rest.sells, rest.buys, o.gains + rest.gains))
  }

  /** One sale's outcome with the buys already visited and the entries
      already recorded put in front. */
  function ResumeSale(done: seq<Lot>, gains: seq<CapGainEntry>, r: Result<SaleOutcome, Error>): Result<SaleOutcome, Error> {
    if r.Err? then r else Ok(SaleOutcome(r.value.sale, done + r.value.buys, gains + r.value.gains))
  }

  /** The outcome with the sales already settled and their entries put in front. */
  function Resume(done: seq<Lot>, gains: seq<CapGainEntry>, r: Result<Outcome, Error>): Result<Outcome, Error> {
    if r.Err? then r else Ok(Outcome(done + r.value.sells, r.value.buys, gains + r.value.gains))
  }

  lemma SettleStep(sale: Lot, buys: seq<Lot>, j: nat, done: seq<Lot>, gains: seq<CapGainEntry>)
    requires j < |buys|
    requires Meet(sale, buys[j]).Ok?
    ensures var m := Meet(sale, buys[j]).value;
      ResumeSale(done, gains, Settle(sale, buys[j..]))
      == ResumeSale(done + [m.buy], gains + Entries(m.entry), Settle(m.sale, buys[j + 1..]))
  {
    var m := Meet(sale, buys[j]).value;
    var t := buys[j..];
    assert t[0] == buys[j] && t[1..] == buys[j + 1..];
    assert Settle(sale, t) == Continue(m, Settle(m.sale, buys[j + 1..]));
    ResumeContinue(done, gains, m, Settle(m.sale, buys[j + 1..]));
  }

  lemma ResumeContinue(done: seq<Lot>, gains: seq<CapGainEntry>, m: Meeting, rest: Result<SaleOutcome, Error>)
    ensures ResumeSale(done, gains, Continue(m, rest)) == ResumeSale(done + [m.buy], gains + Entries(m.entry), rest)
  {
    if rest.Ok? {
      var o := rest.value;
      assert done + ([m.buy] + o.buys) == (done + [m.buy]) + o.buys;
      assert gains + (Entries(m.entry) + o.gains) == (gains + Entries(m.entry)) + o.gains;
    }
  }

  lemma SettleAllStep(sells: seq<Lot>, i: nat, buys: seq<Lot>, done: seq<Lot>, gains: seq<CapGainEntry>)
    requires i < |sells|
    requires Settle(sells[i], buys).Ok?
    ensures var o := Settle(sells[i], buys).value;
      Resume(done, gains, SettleAll(sells[i..], buys))
      == Resume(done + [o.sale], gains + o.gains, SettleAll(sells[i + 1..], o.buys))
  {
    var o := Settle(sells[i], buys).value;
    assert sells[i..][0] == sells[i];
    assert sells[i..][1..] == sells[i + 1..];
    var rest := SettleAll(sells[i + 1..], o.buys);
    if rest.Ok? {
      var t := rest.value;
      assert SettleAll(sells[i..], buys) == Ok(Outcome([o.sale] + t.sells, t.buys, o.gains + t.gains));
      assert done + ([o.sale] + t.sells) == (done + [o.sale]) + t.sells;
      assert gains + (o.gains + t.gains) == (gains + o.gains) + t.gains;
    }
  }

  /** The body of the inner foreach on the two entries themselves. */
  method MeetEntries(sale: LedgerEntry, buy: LedgerEntry) returns (r: Result<Option<CapGainEntry>, Error>)
    requires sale != buy
    modifies sale, buy
    ensures var m := Meet(old(sale.View()), old(buy.View()));
      && (r.Err? <==> m.Err?)
      && (r.Err? ==> r.error == m.error)
      && (r.Ok? ==> r.value == m.value.entry && sale.View() == m.value.sale && buy.View() == m.value.buy)
  {
    if sale.security == buy.security && IsPositive(sale.unitQty) && Before(sale.day, buy.day) {
      return Err(BadData(sale.security, sale.day, sale.unitQty));
    }
    if !IsPositive(buy.unitQty) || sale.security != buy.security {
      return Ok(None);
    }
    var qty: Dec;
    var saleBefore, buyBefore := sale.View(), buy.View();
    if Less(buy.unitQty, sale.unitQty) {
      sale.unitQty := Sub(sale.unitQty, buy.unitQty);
      qty := buy.unitQty;
      buy.unitQty := Zero;
    } else {
      qty := sale.unitQty;
      buy.unitQty := Sub(buy.unitQty, sale.unitQty);
      sale.unitQty := Zero;
    }
    return Ok(Some(MakeEntry(saleBefore, buyBefore, qty)));
  }

  /** One pass of the inner foreach, seen on the whole buy list: only the
      sale and the buy at j change. */
  method MeetAt(sale: LedgerEntry, buys: seq<LedgerEntry>, j: nat) returns (r: Result<Option<CapGainEntry>, Error>)
    requires j < |buys| && Distinct(buys) && sale !in buys
    modifies sale, buys[j]
    ensures var m := Meet(old(sale.View()), old(Views(buys))[j]);
      && (r.Err? <==> m.Err?)
      && (r.Err? ==> r.error == m.error)
      && (r.Ok? ==> r.value == m.value.entry && sale.View() == m.value.sale
                    && Views(buys) == old(Views(buys))[j := m.value.buy])
  {
    r := MeetEntries(sale, buys[j]);
    if r.Ok? {
      forall k | 0 <= k < |buys| && k != j
        ensures buys[k].View() == old(buys[k].View())
      {
        assert buys[k] != buys[j];
      }
    }
  }

  /** The inner foreach: one sale against every buy, in list order. */
  method MatchSale(sale: LedgerEntry, buys: seq<LedgerEntry>) returns (r: Result<seq<CapGainEntry>, Error>)
    requires Distinct(buys) && sale !in buys
    modifies sale, buys
    ensures var spec := Settle(old(sale.View()), old(Views(buys)));
      && (r.Err? <==> spec.Err?)
      && (r.Err? ==> r.error == spec.error)
      && (r.Ok? ==> r.value == spec.value.gains && sale.View() == spec.value.sale
                    && Views(buys) == spec.value.buys)
  {
    ghost var start := Views(buys);
    ghost var spec := Settle(sale.View(), start);
    ghost var done: seq<Lot> := [];
    var gains: seq<CapGainEntry> := [];
    var j := 0;
    ResumeNothing(start, spec);
    while j < |buys|
      invariant 0 <= j <= |buys| == |start| && |done| == j
      invariant Views(buys) == done + start[j..]
      invariant spec == ResumeSale(done, gains, Settle(sale.View(), start[j..]))
    {
      var e;
      e, done := MatchStep(sale, buys, j, start, done, gains, spec);
      if e.Err? {
        return Err(e.error);
      }
      gains := gains + Entries(e.value);
      j := j + 1;
    }
    assert done + start[j..] == done;
    return Ok(gains);
  }

  /** The body of the inner foreach, with what it does to the sale's outcome. */
  method MatchStep(sale: LedgerEntry, buys: seq<LedgerEntry>, j: nat, ghost start: seq<Lot>,
                   ghost done: seq<Lot>, gains: seq<CapGainEntry>, ghost spec: Result<SaleOutcome, Error>)
    returns (e: Result<Option<CapGainEntry>, Error>, ghost done': seq<Lot>)
    requires j < |buys| == |start| && |done| == j && Distinct(buys) && sale !in buys
    requires Views(buys) == done + start[j..]
    requires spec == ResumeSale(done, gains, Settle(sale.View(), start[j..]))
    modifies sale, buys[j]
    ensures e.Err? ==> spec == Err(e.error)
    ensures e.Ok? ==>
      && |done'| == j + 1 && Views(buys) == done' + start[j + 1..]
      && spec == ResumeSale(done', gains + Entries(e.value), Settle(sale.View(), start[j + 1..]))
  {
    ghost var now := sale.View();
    UpdateAt(done, j, start[j], start);
    e := MeetAt(sale, buys, j);
    if e.Err? {
      SettleFails(now, start, j, done, gains);
      done' := done;
      return;
    }
    ghost var m := Meet(now, start[j]).value;
    SettleStep(now, start, j, done, gains);
    UpdateAt(done, j, m.buy, start);
    done' := done + [m.buy];
  }

  /** One pass of the outer foreach, seen on both lists: the sale at i and
      the buys change, no other sale does. */
  method SettleAt(sells: seq<LedgerEntry>, buys: seq<LedgerEntry>, i: nat) returns (r: Result<seq<CapGainEntry>, Error>)
    requires i < |sells| && Distinct(sells) && Distinct(buys) && Disjoint(sells, buys)
    modifies sells[i], buys
    ensures var o := Settle(old(Views(sells))[i], old(Views(buys)));
      && (r.Err? <==> o.Err?)
      && (r.Err? ==> r.error == o.error)
      && (r.Ok? ==> r.value == o.value.gains && Views(buys) == o.value.buys
                    && Views(sells) == old(Views(sells))[i := o.value.sale])
  {
    r := MatchSale(sells[i], buys);
    if r.Ok? {
      forall k | 0 <= k < |sells| && k != i
        ensures sells[k].View() == old(sells[k].View())
      {
        assert sells[k] != sells[i];
        assert sells[k] !in buys;
      }
    }
  }

  /** The outer foreach at sale i: the sales before i are settled into done,
      and spec is what settling the rest against the buys as they now stand
      adds to what was recorded so far. */
  ghost predicate Walking(sells: seq<LedgerEntry>, buys: seq<LedgerEntry>, i: nat, start: seq<Lot>,
                          done: seq<Lot>, gains: seq<CapGainEntry>, spec: Result<Outcome, Error>)
    reads sells, buys
  {
    && i <= |sells| == |start| && |done| == i
    && Views(sells) == done + start[i..]
    && spec == Resume(done, gains, SettleAll(start[i..], Views(buys)))
  }

  /** The outer foreach: every sale, in list order, settled against the buys. */
  method MatchSells(sells: seq<LedgerEntry>, buys: seq<LedgerEntry>) returns (r: Result<seq<CapGainEntry>, Error>)
    requires Distinct(sells) && Distinct(buys) && Disjoint(sells, buys)
    modifies sells, buys
    ensures var spec := SettleAll(old(Views(sells)), old(Views(buys)));
      && (r.Err? <==> spec.Err?)
      && (r.Err? ==> r.error == spec.error)
      && (r.Ok? ==> r.value == spec.value.gains && Views(sells) == spec.value.sells
                    && Views(buys) == spec.value.buys)
  {
    ghost var start := Views(sells);
    ghost var spec := SettleAll(start, Views(buys));
    ghost var done: seq<Lot> := [];
    var gains: seq<CapGainEntry> := [];
    var i := 0;
    ResumeNone(start, spec);
    while i < |sells|
      invariant Walking(sells, buys, i, start, done, gains, spec)
    {
      var e;
      e, done := SettleStepAt(sells, buys, i, start, done, gains, spec);
      if e.Err? {
        return Err(e.error);
      }
      gains := gains + e.value;
      i := i + 1;
    }
    assert done + start[i..] == done;
    return Ok(gains);
  }

  /** The body of the outer foreach, with what it does to the overall outcome. */
  method SettleStepAt(sells: seq<LedgerEntry>, buys: seq<LedgerEntry>, i: nat, ghost start: seq<Lot>,
                      ghost done: seq<Lot>, gains: seq<CapGainEntry>, ghost spec: Result<Outcome, Error>)
    returns (e: Result<seq<CapGainEntry>, Error>, ghost done': seq<Lot>)
    requires i < |sells| && Walking(sells, buys, i, start, done, gains, spec)
    requires Distinct(sells) && Distinct(buys) && Disjoint(sells, buys)
    modifies sells[i], buys
    ensures e.Err? ==> spec == Err(e.error)
    ensures e.Ok? ==> Walking(sells, buys, i + 1, start, done', gains + e.value, spec)
  {
    ghost var left := Views(buys);
    UpdateAt(done, i, start[i], start);
    e := SettleAt(sells, buys, i);
    if e.Err? {
      SettleAllFails(start, i, left, done, gains);
      done' := done;
      return;
    }
    ghost var o := Settle(start[i], left).value;
    SettleAllStep(start, i, left, done, gains);
    UpdateAt(done, i, o.sale, start);
    done' := done + [o.sale];
  }

  lemma ResumeNone(start: seq<Lot>, r: Result<Outcome, Error>)
    ensures start[..0] == [] && start[0..] == start
    ensures Resume([], [], r) == r
  {
    if r.Ok? {
      assert [] + r.value.sells == r.value.sells;
      assert [] + r.value.gains == r.value.gains;
    }
  }

  lemma SettleAllFails(sells: seq<Lot>, i: nat, buys: seq<Lot>, done: seq<Lot>, gains: seq<CapGainEntry>)
    requires i < |sells| && Settle(sells[i], buys).Err?
    ensures Resume(done, gains, SettleAll(sells[i..], buys)) == Err(Settle(sells[i], buys).error)
  {
    assert sells[i..][0] == sells[i];
  }

  lemma ResumeNothing(start: seq<Lot>, r: Result<SaleOutcome, Error>)
    ensures start[..0] == [] && start[0..] == start
    ensures ResumeSale([], [], r) == r
  {
    if r.Ok? {
      assert [] + r.value.buys == r.value.buys;
      assert [] + r.value.gains == r.value.gains;
    }
  }

  /** Replacing the first unvisited element of done + start[j..]. */
  lemma UpdateAt(done: seq<Lot>, j: nat, x: Lot, start: seq<Lot>)
    requires |done| == j < |start|
    ensures (done + start[j..])[j] == start[j]
    ensures (done + start[j..])[j := x] == (done + [x]) + start[j + 1..]
  {
    assert start[j..][0] == start[j];
  }

  lemma SettleFails(sale: Lot, buys: seq<Lot>, j: nat, done: seq<Lot>, gains: seq<CapGainEntry>)
    requires j < |buys| && Meet(sale, buys[j]).Err?
    ensures ResumeSale(done, gains, Settle(sale, buys[j..])) == Err(Meet(sale, buys[j]).error)
  {
    assert buys[j..][0] == buys[j];
  }
}
