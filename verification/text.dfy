/** Decimal digit strings and comma-separated fields: the pieces of
    text handling that the ledger parser and the report writer rely on. */
module Text {

  /** 10 raised to the n-th power. */
  function Pow10(n: nat): (p: nat)
    ensures p >= 1
  {
    if n == 0 then 1 else 10 * Pow10(n - 1)
  }

  lemma {:induction false} Pow10Add(a: nat, b: nat)
    ensures Pow10(a + b) == Pow10(a) * Pow10(b)
  {
    if a > 0 {
      Pow10Add(a - 1, b);
      calc {
        Pow10(a + b);
        10 * Pow10(a - 1 + b);
        10 * (Pow10(a - 1) * Pow10(b));
        (10 * Pow10(a - 1)) * Pow10(b);
      }
    }
  }

  lemma {:induction false} Pow10Monotone(a: nat, b: nat)
    requires a <= b
    ensures Pow10(a) <= Pow10(b)
  {
    if a < b {
      Pow10Monotone(a, b - 1);
    }
  }

  /** Integer division and remainder, kept behind functions so that the
      solver meets them only through DivMod (never next to Pow10's definition). */
  function DivNat(a: nat, p: nat): nat
    requires p >= 1
  {
    a / p
  }

  function ModNat(a: nat, p: nat): (r: nat)
    requires p >= 1
    ensures r < p
  {
    a % p
  }

  lemma DivMod(a: nat, p: nat)
    requires p >= 1
    ensures a == p * DivNat(a, p) + ModNat(a, p)
  {
  }

  predicate IsDigit(c: char) {
    '0' <= c <= '9'
  }

  predicate AllDigits(s: string) {
    forall i :: 0 <= i < |s| ==> IsDigit(s[i])
  }

  function DigitValue(c: char): (n: nat)
    requires IsDigit(c)
    ensures n < 10
  {
    c as int - '0' as int
  }

  function DigitChar(n: nat): (c: char)
    requires n < 10
    ensures IsDigit(c) && DigitValue(c) == n
  {
    (n + '0' as int) as char
  }

  /** The number a string of decimal digits spells, most significant digit first. */
  function DigitsValue(s: string): nat
    requires AllDigits(s)
  {
    if s == [] then 0 else 10 * DigitsValue(s[..|s| - 1]) + DigitValue(s[|s| - 1])
  }

  /** Int32.ToString() of a non-negative number: no leading zeros, "0" for zero. */
  function NatToText(n: nat): (s: string)
    ensures |s| >= 1 && AllDigits(s)
    ensures DigitsValue(s) == n
  {
    if n < 10 then [DigitChar(n)]
    else
      var s := NatToText(n / 10) + [DigitChar(n % 10)];
      assert s[..|s| - 1] == NatToText(n / 10);
      s
  }

  function Zeros(k: nat): (s: string)
    ensures |s| == k && AllDigits(s)
  {
    if k == 0 then [] else Zeros(k - 1) + ['0']
  }

  /** Left-pads s with '0' up to width w; the effect of a "00"/"0000" custom format. */
  function PadLeft(s: string, w: nat): (r: string)
    ensures |r| == if |s| < w then w else |s|
  {
    if |s| < w then Zeros(w - |s|) + s else s
  }

  lemma AllDigitsAppend(a: string, b: string)
    requires AllDigits(a) && AllDigits(b)
    ensures AllDigits(a + b)
  {
    forall i | 0 <= i < |a + b| ensures IsDigit((a + b)[i]) {
      if i < |a| { assert (a + b)[i] == a[i]; } else { assert (a + b)[i] == b[i - |a|]; }
    }
  }

  lemma ShiftDigit(x: int, y: int, z: int, w: int)
    ensures 10 * (x * y + z) + w == x * (10 * y) + (10 * z + w)
  {
  }

  lemma {:induction false} DigitsValueAppend(a: string, b: string)
    requires AllDigits(a) && AllDigits(b)
    ensures AllDigits(a + b)
    ensures DigitsValue(a + b) == DigitsValue(a) * Pow10(|b|) + DigitsValue(b)
  {
    AllDigitsAppend(a, b);
    if b != [] {
      var b' := b[..|b| - 1];
      var last := b[|b| - 1];
      assert (a + b)[..|a + b| - 1] == a + b';
      assert (a + b)[|a + b| - 1] == last;
      AllDigitsAppend(a, b');
      DigitsValueAppend(a, b');
      assert DigitsValue(a + b) == 10 * DigitsValue(a + b') + DigitValue(last);
      assert DigitsValue(b) == 10 * DigitsValue(b') + DigitValue(last);
      assert Pow10(|b|) == 10 * Pow10(|b'|);
      ShiftDigit(DigitsValue(a), Pow10(|b'|), DigitsValue(b'), DigitValue(last));
    } else {
      assert a + b == a;
    }
  }

  lemma {:induction false} ZerosValue(k: nat)
    ensures DigitsValue(Zeros(k)) == 0
  {
    if k > 0 {
      assert Zeros(k)[..k - 1] == Zeros(k - 1);
      ZerosValue(k - 1);
    }
  }

  /** Leading zeros do not change the value of a digit string. */
  lemma PadLeftValue(s: string, w: nat)
    requires AllDigits(s)
    ensures AllDigits(PadLeft(s, w)) && DigitsValue(PadLeft(s, w)) == DigitsValue(s)
  {
    if |s| < w {
      DigitsValueAppend(Zeros(w - |s|), s);
      ZerosValue(w - |s|);
    }
  }

  /** A number below 10^w needs at most w digits. */
  lemma {:induction false} NatToTextLength(n: nat, w: nat)
    requires 1 <= w && n < Pow10(w)
    ensures |NatToText(n)| <= w
  {
    if n >= 10 {
      assert n / 10 < Pow10(w - 1);
      NatToTextLength(n / 10, w - 1);
    }
  }

  /** A string of w digits spells a number below 10^w. */
  lemma {:induction false} DigitsValueBound(s: string)
    requires AllDigits(s)
    ensures DigitsValue(s) < Pow10(|s|)
  {
    if s != [] {
      DigitsValueBound(s[..|s| - 1]);
    }
  }

  /** Two digit strings of the same length that spell the same number are equal. */
  lemma {:induction false} DigitsUnique(a: string, b: string)
    requires AllDigits(a) && AllDigits(b) && |a| == |b|
    requires DigitsValue(a) == DigitsValue(b)
    ensures a == b
  {
    if a != [] {
      var n := |a| - 1;
      var a', b' := a[..n], b[..n];
      assert AllDigits(a') && AllDigits(b');
      assert DigitsValue(a) == 10 * DigitsValue(a') + DigitValue(a[n]);
      assert DigitsValue(b) == 10 * DigitsValue(b') + DigitValue(b[n]);
      LastDigit(DigitsValue(a'), DigitsValue(b'), DigitValue(a[n]), DigitValue(b[n]));
      DigitsUnique(a', b');
      assert a == a' + [a[n]] && b == b' + [b[n]];
    }
  }

  /** The last digit and the digits before it are determined by the value. */
  lemma LastDigit(x: int, y: int, d: int, e: int)
    requires 0 <= d < 10 && 0 <= e < 10 && 10 * x + d == 10 * y + e
    ensures x == y && d == e
  {
  }

  /** The longest prefix of s made of digits. */
  function TakeDigits(s: string): (d: string)
    ensures AllDigits(d) && |d| <= |s| && d == s[..|d|]
    ensures |d| < |s| ==> !IsDigit(s[|d|])
  {
    if s == [] || !IsDigit(s[0]) then [] else [s[0]] + TakeDigits(s[1..])
  }

  lemma {:induction false} TakeDigitsOf(a: string, b: string)
    requires AllDigits(a)
    requires b == [] || !IsDigit(b[0])
    ensures TakeDigits(a + b) == a
  {
    if a != [] {
      assert (a + b)[1..] == a[1..] + b;
      TakeDigitsOf(a[1..], b);
    } else {
      assert a + b == b;
    }
  }

  /** Position of the first occurrence of c in s. */
  function IndexOf(s: string, c: char): (i: nat)
    requires c in s
    ensures i < |s| && s[i] == c && c !in s[..i]
  {
    if s[0] == c then 0 else
      assert c in s[1..] by { assert s == [s[0]] + s[1..]; }
      var j := IndexOf(s[1..], c);
      assert s[..j + 1] == [s[0]] + s[1..][..j];
      j + 1
  }

  /** The fields of s around each separator; what String.Split(char) returns. */
  function Split(s: string, sep: char): (fields: seq<string>)
    ensures |fields| >= 1
    ensures forall i :: 0 <= i < |fields| ==> sep !in fields[i]
    ensures Join(fields, sep) == s
    decreases |s|
  {
    if sep !in s then [s]
    else
      var i := IndexOf(s, sep);
      var rest := Split(s[i + 1..], sep);
      assert s == s[..i] + [sep] + s[i + 1..];
      [s[..i]] + rest
  }

  /** The fields joined by the separator; String.Join. */
  function Join(fields: seq<string>, sep: char): string
    requires |fields| >= 1
  {
    if |fields| == 1 then fields[0] else fields[0] + [sep] + Join(fields[1..], sep)
  }

  /** Splitting a join of separator-free fields gives the fields back. */
  lemma {:induction false} SplitJoin(fields: seq<string>, sep: char)
    requires |fields| >= 1
    requires forall i :: 0 <= i < |fields| ==> sep !in fields[i]
    ensures Split(Join(fields, sep), sep) == fields
  {
    if |fields| > 1 {
      var first, tail := fields[0], fields[1..];
      var rest := Join(tail, sep);
      var s := first + [sep] + rest;
      assert Join(fields, sep) == s;
      FirstSeparator(first, sep, rest);
      SplitJoin(tail, sep);
      assert Split(s, sep) == [first] + Split(rest, sep);
      assert fields == [first] + tail;
    }
  }

  /** The first separator of first + [sep] + rest is the one after first. */
  lemma FirstSeparator(first: string, sep: char, rest: string)
    requires sep !in first
    ensures var s := first + [sep] + rest;
      && sep in s && IndexOf(s, sep) == |first|
      && s[..|first|] == first && s[|first| + 1..] == rest
  {
    var s := first + [sep] + rest;
    assert s[|first|] == sep;
    assert forall j :: 0 <= j < |first| ==> s[j] == first[j];
    assert s[..|first|] == first;
    assert s[|first| + 1..] == rest;
  }
}
