/** The records the engine works on: LedgerEntry (a buy or a sell whose
    remaining quantity is decremented in place while matching), CapGainEntry
    (one realised match) and the ways a run can fail. */
module Ledger {
  import opened Decimals
  import opened Dates

  /** The contents of a LedgerEntry at one moment. */
  datatype Lot = Lot(security: string, day: DateTime, qty: Dec, price: Dec)

  /** A transaction from the ledger. Only UnitQty changes after parsing. */
  class LedgerEntry {
    const security: string
    const day: DateTime
    const unitPrice: Dec
    var unitQty: Dec

    constructor (lot: Lot)
      ensures View() == lot
    {
      security := lot.security;
      day := lot.day;
      unitPrice := lot.price;
      unitQty := lot.qty;
    }

    function View(): Lot
      reads this
    {
      Lot(security, day, unitQty, unitPrice)
    }
  }

  /** One realised gain: unitQty units bought on acqDate and sold on saleDate. */
  datatype CapGainEntry = CapGainEntry(
    security: string,
    acqDate: DateTime,
    saleDate: DateTime,
    unitQty: Dec,
    unitBuyPrice: Dec,
    unitSellPrice: Dec,
    costBasis: Dec,
    proceeds: Dec,
    capitalGain: Dec)

  /** The amounts of an entry are computed from its quantity and prices exactly,
      with no rounding: basis and proceeds are products, the gain their difference. */
  predicate WellFormed(ce: CapGainEntry) {
    && ce.costBasis == Mul(ce.unitQty, ce.unitBuyPrice)
    && ce.proceeds == Mul(ce.unitQty, ce.unitSellPrice)
    && ce.capitalGain == Sub(ce.proceeds, ce.costBasis)
  }

  /** Why a run stops without reports: a row with fewer than four fields (the
      IndexOutOfRangeException of cells[1..3]), a BadDataException for a sale
      that meets a later buy while it still has quantity, and the plain
      Exception GetTotalsRow throws when its totals disagree. */
  datatype Error =
    | IndexOutOfRange
    | BadData(security: string, day: DateTime, qty: Dec)
    | TotalsMismatch

  /** The contents of a list of entries. */
  function Views(s: seq<LedgerEntry>): (v: seq<Lot>)
    reads s
    ensures |v| == |s|
    ensures forall i :: 0 <= i < |s| ==> v[i] == s[i].View()
  {
    seq(|s|, i requires 0 <= i < |s| reads s => s[i].View())
  }

  /** No entry appears twice in the list. */
  predicate Distinct(s: seq<LedgerEntry>) {
    forall i, j :: 0 <= i < j < |s| ==> s[i] != s[j]
  }

  /** The entries a list holds. */
  function Members(s: seq<LedgerEntry>): set<LedgerEntry> {
    set e | e in s
  }

  /** Rearranging a list keeps the entries it holds. */
  lemma MembersPermutation(s: seq<LedgerEntry>, t: seq<LedgerEntry>)
    requires multiset(s) == multiset(t)
    ensures Members(s) == Members(t)
  {
    forall e ensures e in s <==> e in t {
      assert e in s <==> e in multiset(s);
    }
  }

  /** No entry is in both lists. */
  predicate Disjoint(a: seq<LedgerEntry>, b: seq<LedgerEntry>) {
    forall i, j :: 0 <= i < |a| && 0 <= j < |b| ==> a[i] != b[j]
  }

  lemma ViewsAppend(a: seq<LedgerEntry>, b: seq<LedgerEntry>)
    ensures Views(a + b) == Views(a) + Views(b)
  {
  }

  /** Rearranging the entries rearranges their contents the same way. */
  lemma {:induction false} ViewsPermutation(s: seq<LedgerEntry>, t: seq<LedgerEntry>)
    requires multiset(s) == multiset(t)
    ensures multiset(Views(s)) == multiset(Views(t))
    decreases |s|
  {
    if s != [] {
      var n := |s| - 1;
      var x := s[n];
      assert x in multiset(t);
      var k :| 0 <= k < |t| && t[k] == x;
      var t' := t[..k] + t[k + 1..];
      RemoveAt(t, k);
      RemoveAt(s, n);
      assert s[..n] + s[n + 1..] == s[..n];
      forall y ensures multiset(s[..n])[y] == multiset(t')[y] {
        assert multiset(s)[y] == multiset(t)[y];
      }
      assert multiset(s[..n]) == multiset(t');
      ViewsPermutation(s[..n], t');
      ViewsRemoveAt(t, k);
      ViewsRemoveAt(s, n);
    }
  }

  /** Taking out the element at k takes one copy of it out of the multiset. */
  lemma RemoveAt<T>(t: seq<T>, k: nat)
    requires k < |t|
    ensures multiset(t) == multiset(t[..k] + t[k + 1..]) + multiset{t[k]}
  {
    assert t == t[..k] + [t[k]] + t[k + 1..];
  }

  lemma ViewsRemoveAt(t: seq<LedgerEntry>, k: nat)
    requires k < |t|
    ensures multiset(Views(t)) == multiset(Views(t[..k] + t[k + 1..])) + multiset{t[k].View()}
  {
    var v := Views(t);
    var u := t[..k] + t[k + 1..];
    var w := v[..k] + v[k + 1..];
    RemoveAt(v, k);
    assert |w| == |u|;
    forall i | 0 <= i < |u| ensures w[i] == Views(u)[i] {
      if i < k {
        assert w[i] == v[i] && u[i] == t[i];
      } else {
        assert w[i] == v[i + 1] && u[i] == t[i + 1];
      }
    }
    assert w == Views(u);
  }

  /** A rearrangement of a list without repeats has no repeats. */
  lemma DistinctPermutation(s: seq<LedgerEntry>, t: seq<LedgerEntry>)
    requires Distinct(s) && multiset(s) == multiset(t)
    ensures Distinct(t)
  {
    forall x | x in multiset(s) ensures multiset(s)[x] == 1 {
      MultiplicityOfDistinct(s, x);
    }
    forall i, j | 0 <= i < j < |t| ensures t[i] != t[j] {
      assert t == t[..i] + [t[i]] + t[i + 1..j] + [t[j]] + t[j + 1..];
      assert multiset(t)[t[i]] == 1;
    }
  }

  lemma {:induction false} MultiplicityOfDistinct(s: seq<LedgerEntry>, x: LedgerEntry)
    requires Distinct(s) && x in s
    ensures multiset(s)[x] == 1
  {
    var n := |s| - 1;
    assert s == s[..n] + [s[n]];
    if s[n] == x {
      assert x !in s[..n];
    } else {
      MultiplicityOfDistinct(s[..n], x);
    }
  }

  lemma DisjointPermutation(a: seq<LedgerEntry>, b: seq<LedgerEntry>, a': seq<LedgerEntry>, b': seq<LedgerEntry>)
    requires Disjoint(a, b) && multiset(a) == multiset(a') && multiset(b) == multiset(b')
    ensures Disjoint(a', b')
  {
    forall i, j | 0 <= i < |a'| && 0 <= j < |b'| ensures a'[i] != b'[j] {
      assert a'[i] in multiset(a);
      assert b'[j] in multiset(b);
    }
  }
}
