/** Calendar dates as the ledger engine holds them in System.DateTime (the
    time of day is always midnight), the exact "yyyy-MM-dd" format it reads
    and writes, and the anniversary rule that separates long-term from
    short-term gains. */
module Dates {
  import opened Wrappers
  import opened Text

  datatype Date = Date(year: nat, month: nat, day: nat)

  predicate IsLeapYear(y: nat) {
    y % 4 == 0 && (y % 100 != 0 || y % 400 == 0)
  }

  function DaysInMonth(y: nat, m: nat): (n: nat)
    requires 1 <= m <= 12
    ensures 28 <= n <= 31
  {
    if m == 2 then (if IsLeapYear(y) then 29 else 28)
    else if m == 4 || m == 6 || m == 9 || m == 11 then 30
    else 31
  }

  /** A day of the proleptic Gregorian calendar between 0001-01-01 and
      9999-12-31, the range of DateTime. */
  predicate IsValid(d: Date) {
    1 <= d.year <= 9999 && 1 <= d.month <= 12 && 1 <= d.day <= DaysInMonth(d.year, d.month)
  }

  type DateTime = d: Date | IsValid(d) witness Date(1, 1, 1)

  /** a < b on DateTime, which compares instants: year, then month, then day. */
  predicate Before(a: Date, b: Date) {
    a.year < b.year
    || (a.year == b.year && (a.month < b.month || (a.month == b.month && a.day < b.day)))
  }

  /** a <= b on DateTime. */
  predicate AtOrBefore(a: Date, b: Date) {
    Before(a, b) || a == b
  }

  /** Two dates are ordered one way or the other, or are the same day. */
  lemma BeforeTotal(a: Date, b: Date)
    ensures Before(a, b) || Before(b, a) || a == b
    ensures !(Before(a, b) && Before(b, a))
  {
  }

  lemma BeforeTransitive(a: Date, b: Date, c: Date)
    requires AtOrBefore(a, b) && AtOrBefore(b, c)
    ensures AtOrBefore(a, c)
    ensures Before(a, b) || Before(b, c) ==> Before(a, c)
  {
  }

  /** DateToText (MainForm.cs): the year with four digits, the month and the
      day with two, separated by '-'. */
  function DateToText(d: DateTime): (t: string)
    ensures |t| == 10 && t[4] == '-' && t[7] == '-'
    ensures AllDigits(t[..4]) && AllDigits(t[5..7]) && AllDigits(t[8..])
    ensures DigitsValue(t[..4]) == d.year
    ensures DigitsValue(t[5..7]) == d.month && DigitsValue(t[8..]) == d.day
  {
    var y := PadLeft(NatToText(d.year), 4);
    var m := PadLeft(NatToText(d.month), 2);
    var dd := PadLeft(NatToText(d.day), 2);
    NatToTextLength(d.year, 4);
    NatToTextLength(d.month, 2);
    NatToTextLength(d.day, 2);
    PadLeftValue(NatToText(d.year), 4);
    PadLeftValue(NatToText(d.month), 2);
    PadLeftValue(NatToText(d.day), 2);
    var t := y + "-" + m + "-" + dd;
    assert t[..4] == y && t[5..7] == m && t[8..] == dd;
    t
  }

  /** DateTime.TryParseExact(s, "yyyy-MM-dd", CultureInfo.InvariantCulture,
      DateTimeStyles.None): exactly four digits, '-', two digits, '-', two
      digits, naming a day that exists. */
  function ParseDate(s: string): (r: Option<DateTime>)
    ensures r.Some? ==> |s| == 10 && s[4] == '-' && s[7] == '-'
  {
    if |s| == 10 && s[4] == '-' && s[7] == '-'
       && AllDigits(s[..4]) && AllDigits(s[5..7]) && AllDigits(s[8..]) then
      var d := Date(DigitsValue(s[..4]), DigitsValue(s[5..7]), DigitsValue(s[8..]));
      if IsValid(d) then Some(d) else None
    else None
  }

  /** What DateToText writes, ParseDate reads back as the same day. */
  lemma ParseDateToText(d: DateTime)
    ensures ParseDate(DateToText(d)) == Some(d)
  {
  }

  /** ParseDate accepts only the texts DateToText writes: a date field that
      parses is already in its printed form. */
  lemma DateTextCanonical(s: string)
    requires ParseDate(s).Some?
    ensures DateToText(ParseDate(s).value) == s
  {
    var d := ParseDate(s).value;
    var t := DateToText(d);
    DigitsUnique(s[..4], t[..4]);
    DigitsUnique(s[5..7], t[5..7]);
    DigitsUnique(s[8..], t[8..]);
    forall i | 0 <= i < 10 ensures s[i] == t[i] {
      if i < 4 { assert s[i] == s[..4][i] && t[i] == t[..4][i]; }
      else if 5 <= i < 7 { assert s[i] == s[5..7][i - 5] && t[i] == t[5..7][i - 5]; }
      else if 8 <= i { assert s[i] == s[8..][i - 8] && t[i] == t[8..][i - 8]; }
    }
  }

  /** The holding-period test of the classifier: sold in a later year than
      the year after acquisition, or in a later year on a month and a day
      that are each at least the acquisition's. */
  predicate IsLongTerm(acq: Date, sale: Date) {
    sale.year > acq.year + 1
    || (sale.year > acq.year && sale.month >= acq.month && sale.day >= acq.day)
  }

  /** The first anniversary of a date, month and day unchanged. */
  function Anniversary(d: Date): (a: Date)
    ensures a.year == d.year + 1 && Before(d, a)
  {
    Date(d.year + 1, d.month, d.day)
  }

  /** A long-term sale is on or after the first anniversary of the
      acquisition, so strictly after the acquisition. */
  lemma LongTermAfterAnniversary(acq: Date, sale: Date)
    requires IsLongTerm(acq, sale)
    ensures AtOrBefore(Anniversary(acq), sale) && Before(acq, sale)
  {
  }

  /** A sale before the first anniversary is short-term. */
  lemma ShortTermBeforeAnniversary(acq: Date, sale: Date)
    requires Before(sale, Anniversary(acq))
    ensures !IsLongTerm(acq, sale)
  {
  }

  /** A sale on the anniversary itself is long-term. */
  lemma AnniversaryIsLongTerm(acq: Date)
    ensures IsLongTerm(acq, Anniversary(acq))
  {
  }

  /** The rule compares month and day separately, so some sales well after the
      first anniversary are short-term: acquired 2020-01-31, sold 2021-02-01. */
  lemma LateSaleShortTerm()
    ensures Before(Anniversary(Date(2020, 1, 31)), Date(2021, 2, 1))
    ensures !IsLongTerm(Date(2020, 1, 31), Date(2021, 2, 1))
  {
  }
}
