/** The fourth phase of ProcessDataset: the entries with a positive quantity
    are split, in order, into a long-term and a short-term list by the
    holding-period test; entries that drew nothing are dropped. */
module Classify {
  import opened Decimals
  import opened Dates
  import opened Ledger

  /** The entry realised something: ce.UnitQty > 0. */
  predicate Realised(ce: CapGainEntry) {
    IsPositive(ce.unitQty)
  }

  predicate LongTermEntry(ce: CapGainEntry) {
    IsLongTerm(ce.acqDate, ce.saleDate)
  }

  /** The LongTerm list: realised long-term entries, in the order of gains. */
  function LongTermGains(gains: seq<CapGainEntry>): seq<CapGainEntry> {
    if gains == [] then []
    else
      var ce := gains[|gains| - 1];
      LongTermGains(gains[..|gains| - 1]) + (if Realised(ce) && LongTermEntry(ce) then [ce] else [])
  }

  /** The ShortTerm list: realised entries that fail the test, in the order of gains. */
  function ShortTermGains(gains: seq<CapGainEntry>): seq<CapGainEntry> {
    if gains == [] then []
    else
      var ce := gains[|gains| - 1];
      ShortTermGains(gains[..|gains| - 1]) + (if Realised(ce) && !LongTermEntry(ce) then [ce] else [])
  }

  /** The foreach over CapitalGains. */
  method ClassifyGains(gains: seq<CapGainEntry>) returns (longTerm: seq<CapGainEntry>, shortTerm: seq<CapGainEntry>)
    ensures longTerm == LongTermGains(gains)
    ensures shortTerm == ShortTermGains(gains)
  {
    longTerm, shortTerm := [], [];
    var i := 0;
    while i < |gains|
      invariant 0 <= i <= |gains|
      invariant longTerm == LongTermGains(gains[..i])
      invariant shortTerm == ShortTermGains(gains[..i])
    {
      var ce := gains[i];
      assert gains[..i + 1][..i] == gains[..i];
      if IsPositive(ce.unitQty) {
        if IsLongTerm(ce.acqDate, ce.saleDate) {
          longTerm := longTerm + [ce];
        } else {
          shortTerm := shortTerm + [ce];
        }
      }
      i := i + 1;
    }
    assert gains[..i] == gains;
  }

  /** An entry is in the long-term list exactly when it is a realised
      long-term entry of gains, and in the short-term list exactly when it
      is a realised entry that is not long-term; so no entry is in both and
      an entry that drew nothing is in neither. */
  lemma {:induction false} ClassifyMembership(gains: seq<CapGainEntry>, ce: CapGainEntry)
    ensures ce in LongTermGains(gains) <==> ce in gains && Realised(ce) && LongTermEntry(ce)
    ensures ce in ShortTermGains(gains) <==> ce in gains && Realised(ce) && !LongTermEntry(ce)
  {
    if gains != [] {
      var n := |gains| - 1;
      ClassifyMembership(gains[..n], ce);
      assert gains == gains[..n] + [gains[n]];
    }
  }

  /** Every realised entry lands in exactly one list as often as it occurs,
      and the dropped ones are exactly those that drew nothing. */
  lemma {:induction false} ClassifyPartition(gains: seq<CapGainEntry>)
    ensures multiset(LongTermGains(gains)) + multiset(ShortTermGains(gains)) == multiset(RealisedGains(gains))
    ensures |LongTermGains(gains)| + |ShortTermGains(gains)| + |IdleGains(gains)| == |gains|
  {
    if gains != [] {
      ClassifyPartition(gains[..|gains| - 1]);
    }
  }

  /** The realised entries, in order. */
  function RealisedGains(gains: seq<CapGainEntry>): seq<CapGainEntry> {
    if gains == [] then []
    else
      var ce := gains[|gains| - 1];
      RealisedGains(gains[..|gains| - 1]) + (if Realised(ce) then [ce] else [])
  }

  /** The entries that drew nothing, in order. */
  function IdleGains(gains: seq<CapGainEntry>): seq<CapGainEntry> {
    if gains == [] then []
    else
      var ce := gains[|gains| - 1];
      IdleGains(gains[..|gains| - 1]) + (if Realised(ce) then [] else [ce])
  }

  /** The lists keep the order of gains: classifying two runs of entries one
      after the other gives the two results one after the other. */
  lemma {:induction false} ClassifyAppend(a: seq<CapGainEntry>, b: seq<CapGainEntry>)
    ensures LongTermGains(a + b) == LongTermGains(a) + LongTermGains(b)
    ensures ShortTermGains(a + b) == ShortTermGains(a) + ShortTermGains(b)
    decreases |b|
  {
    if b == [] {
      assert a + b == a;
    } else {
      var n := |b| - 1;
      assert (a + b)[..|a + b| - 1] == a + b[..n];
      ClassifyAppend(a, b[..n]);
    }
  }

  /** Every long-term entry was sold on or after the first anniversary of
      its acquisition. */
  lemma LongTermHeldAYear(gains: seq<CapGainEntry>)
    ensures forall ce :: ce in LongTermGains(gains) ==>
      AtOrBefore(Anniversary(ce.acqDate), ce.saleDate) && Before(ce.acqDate, ce.saleDate)
  {
    forall ce | ce in LongTermGains(gains)
      ensures AtOrBefore(Anniversary(ce.acqDate), ce.saleDate) && Before(ce.acqDate, ce.saleDate)
    {
      ClassifyMembership(gains, ce);
      LongTermAfterAnniversary(ce.acqDate, ce.saleDate);
    }
  }
}
