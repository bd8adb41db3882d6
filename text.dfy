/** Decimal rendering of numbers as JavaScript's `String(n)` and
    `padStart(2, "0")` produce it, and the digit parsing that reads it back. */
module Text {

  predicate IsDigit(c: char)
  {
    '0' <= c <= '9'
  }

  predicate AllDigits(s: string)
  {
    forall i :: 0 <= i < |s| ==> IsDigit(s[i])
  }

  function DigitChar(d: int): (c: char)
    requires 0 <= d <= 9
    ensures IsDigit(c)
  {
    ('0' as int + d) as char
  }

  function CharDigit(c: char): (d: int)
    requires IsDigit(c)
    ensures 0 <= d <= 9
  {
    c as int - '0' as int
  }

  /** `String(n)` for a non-negative integer: its decimal digits without
      leading zeros. */
  function NatToString(n: nat): (s: string)
    ensures |s| >= 1 && AllDigits(s)
    ensures n < 10 <==> |s| == 1
    decreases n
  {
    if n < 10 then [DigitChar(n)] else NatToString(n / 10) + [DigitChar(n % 10)]
  }

  /** `String(i)` for any integer. */
  function IntToString(i: int): (s: string)
    ensures |s| >= 1
    ensures i >= 0 ==> AllDigits(s)
    ensures i < 0 ==> s[0] == '-'
  {
    if i < 0 then "-" + NatToString(-i) else NatToString(i)
  }

  /** The value of a string of decimal digits (leading zeros allowed). */
  function DigitsValue(s: string): (n: nat)
    requires AllDigits(s)
  {
    if s == [] then 0 else DigitsValue(s[..|s| - 1]) * 10 + CharDigit(s[|s| - 1])
  }

  /** Reading back what NatToString writes gives the number again. */
  lemma {:induction false} NatToStringRoundTrip(n: nat)
    ensures DigitsValue(NatToString(n)) == n
    decreases n
  {
    var s := NatToString(n);
    if n >= 10 {
      NatToStringRoundTrip(n / 10);
      assert s[..|s| - 1] == NatToString(n / 10);
    } else {
      assert s[..|s| - 1] == [];
    }
  }

  /** Two-digit numbers have two digits, four-digit numbers four. */
  lemma NatToStringLength(n: nat)
    ensures 10 <= n < 100 ==> |NatToString(n)| == 2
    ensures 1000 <= n < 10000 ==> |NatToString(n)| == 4
  {
    if 10 <= n < 100 {
      assert n / 10 < 10;
    } else if 1000 <= n < 10000 {
      var q := n / 10;
      assert 100 <= q < 1000;
      assert 10 <= q / 10 < 100 && q / 10 / 10 < 10;
      assert |NatToString(q / 10)| == 2;
    }
  }

  /** A leading zero does not change the value. */
  lemma {:induction false} LeadingZero(s: string)
    requires AllDigits(s)
    ensures DigitsValue("0" + s) == DigitsValue(s)
  {
    if s != [] {
      assert ("0" + s)[..|"0" + s| - 1] == "0" + s[..|s| - 1];
      LeadingZero(s[..|s| - 1]);
    } else {
      assert ("0" + s)[..|"0" + s| - 1] == [];
    }
  }

  /** `String(n).padStart(2, "0")`. */
  function Pad2(n: nat): (s: string)
    ensures AllDigits(s) && |s| >= 2
    ensures n < 100 ==> |s| == 2
  {
    NatToStringLength(n);
    var digits := NatToString(n);
    if |digits| < 2 then "0" + digits else digits
  }

  /** Padding keeps the number readable: the two digits of a number below
      100 read back as that number. */
  lemma Pad2RoundTrip(n: nat)
    ensures DigitsValue(Pad2(n)) == n
  {
    NatToStringRoundTrip(n);
    if |NatToString(n)| < 2 {
      LeadingZero(NatToString(n));
    }
  }

  /** `${year}-${pad(month)}-${pad(day)}`, the date format both the calendar
      and the dashboard write. */
  function DateText(year: int, month: nat, day: nat): string
  {
    IntToString(year) + "-" + Pad2(month) + "-" + Pad2(day)
  }

  /** For a four-digit year and a month and day below 100, the date string
      is ten characters whose fields read back as the year, month and day. */
  lemma DateTextFields(year: int, month: nat, day: nat)
    requires 1000 <= year <= 9999 && month < 100 && day < 100
    ensures var s := DateText(year, month, day);
      |s| == 10 && s[4] == '-' && s[7] == '-' &&
      AllDigits(s[..4]) && AllDigits(s[5..7]) && AllDigits(s[8..]) &&
      DigitsValue(s[..4]) == year && DigitsValue(s[5..7]) == month && DigitsValue(s[8..]) == day
  {
    var y := IntToString(year);
    NatToStringLength(year);
    NatToStringRoundTrip(year);
    Pad2RoundTrip(month);
    Pad2RoundTrip(day);
    var s := DateText(year, month, day);
    assert s[..4] == y;
    assert s[5..7] == Pad2(month);
    assert s[8..] == Pad2(day);
  }
}
