/** `formatAge`: a day count rendered as "n days", "Xm Yd", "X months",
    "Xy Zm" or "X years". A month is 30.44 days, taken exactly as 761/25. */
module AgeFormat {

  predicate IsDigit(c: char)
  {
    '0' <= c <= '9'
  }

  function DigitChar(d: nat): (c: char)
    requires d < 10
    ensures IsDigit(c) && c as int - '0' as int == d
  {
    ('0' as int + d) as char
  }

  /** Decimal digits of `n`, as JavaScript's template literals print a
      non-negative integer. */
  function NatToString(n: nat): (s: string)
    ensures |s| >= 1
    ensures forall i :: 0 <= i < |s| ==> IsDigit(s[i])
    ensures s[0] == '0' <==> n == 0
  {
    if n < 10 then [DigitChar(n)] else NatToString(n / 10) + [DigitChar(n % 10)]
  }

  /** The number a string of decimal digits denotes. */
  function DigitsValue(s: string): nat
    requires forall i :: 0 <= i < |s| ==> IsDigit(s[i])
  {
    if s == [] then 0
    else
      assert IsDigit(s[|s| - 1]);
      DigitsValue(s[..|s| - 1]) * 10 + (s[|s| - 1] as int - '0' as int)
  }

  lemma {:induction false} NatToStringRoundTrip(n: nat)
    ensures DigitsValue(NatToString(n)) == n
  {
    if n >= 10 {
      var s := NatToString(n);
      assert s[..|s| - 1] == NatToString(n / 10);
      NatToStringRoundTrip(n / 10);
    }
  }

  lemma NatToStringInjective(a: nat, b: nat)
    requires NatToString(a) == NatToString(b)
    ensures a == b
  {
    NatToStringRoundTrip(a);
    NatToStringRoundTrip(b);
  }

  /** `Math.floor(days / 30.44)`: the whole months in `days`. */
  function MonthsIn(days: nat): (m: nat)
    ensures 761 * m <= 25 * days < 761 * (m + 1)
  {
    25 * days / 761
  }

  /** `Math.floor(days % 30.44)`: the whole days left after `MonthsIn(days)` months. */
  function DaysLeftOver(days: nat): (d: nat)
    ensures 25 * d <= 25 * days - 761 * MonthsIn(days) < 25 * (d + 1)
    ensures d <= 30
  {
    (25 * days - 761 * MonthsIn(days)) / 25
  }

  function Plural(n: nat): string
  {
    if n == 1 then "" else "s"
  }

  function FormatAge(ageInDays: int): (r: string)
    ensures ageInDays < 0 ==> r == "0 days"
    ensures 0 <= ageInDays < 30 ==>
      (r == NatToString(ageInDays) + " day" <==> ageInDays == 1) &&
      (r == NatToString(ageInDays) + " days" <==> ageInDays != 1)
  {
    if ageInDays < 0 then "0 days"
    else if ageInDays < 30 then NatToString(ageInDays) + " day" + Plural(ageInDays)
    else
      var months := MonthsIn(ageInDays);
      var remainingDays := DaysLeftOver(ageInDays);
      if months < 12 then
        if remainingDays == 0 then NatToString(months) + " month" + Plural(months)
        else NatToString(months) + "m " + NatToString(remainingDays) + "d"
      else
        var years := months / 12;
        var remainingMonths := months % 12;
        if remainingMonths == 0 then NatToString(years) + " year" + Plural(years)
        else NatToString(years) + "y " + NatToString(remainingMonths) + "m"
  }

  /** From 30 days on, the month forms are used exactly up to day 365. */
  lemma MonthFormsThroughDay365(days: nat)
    requires days >= 30
    ensures MonthsIn(days) < 12 <==> days <= 365
  {
  }

  /** Days 30 to 365: `m` whole 30.44-day months and `d` whole days over. */
  lemma FormatAgeMonths(days: nat, m: nat, d: nat)
    requires 30 <= days <= 365
    requires 761 * m <= 25 * days < 761 * (m + 1)
    requires 25 * d <= 25 * days - 761 * m < 25 * (d + 1)
    ensures m < 12 && d <= 30
    ensures FormatAge(days) ==
      if d == 0 then NatToString(m) + " month" + Plural(m)
      else NatToString(m) + "m " + NatToString(d) + "d"
  {
    assert m == MonthsIn(days);
    assert d == DaysLeftOver(days);
  }

  /** From day 366 on: `m` whole months, shown as years and months. */
  lemma FormatAgeYears(days: nat, m: nat)
    requires days > 365
    requires 761 * m <= 25 * days < 761 * (m + 1)
    ensures m >= 12
    ensures FormatAge(days) ==
      if m % 12 == 0 then NatToString(m / 12) + " year" + Plural(m / 12)
      else NatToString(m / 12) + "y " + NatToString(m % 12) + "m"
  {
    assert m == MonthsIn(days);
  }

  lemma FormatAgeDayExamples()
    ensures FormatAge(-5) == "0 days"
    ensures FormatAge(1) == "1 day"
    ensures FormatAge(15) == "15 days"
  {
  }

  /** What the code prints for two month ages its unit tests use ("1m 0d"
      and "1m 15d" are expected for 30 and 45). */
  lemma FormatAgeTestedMonthExamples()
    ensures FormatAge(30) == "0m 30d"
    ensures FormatAge(45) == "1m 14d"
  {
  }

  /** The one tested month age where code and test agree. */
  lemma FormatAgeNinetyDays()
    ensures FormatAge(90) == "2m 29d"
  {
  }

  /** What the code prints for the year ages its unit tests use ("1y 0m" and
      "1y 1m" are expected for 365 and 395). */
  lemma FormatAgeTestedYearExamples()
    ensures FormatAge(365) == "11m 30d"
    ensures FormatAge(395) == "1 year"
  {
  }

  /** The singular and plural whole months. */
  lemma FormatAgeWholeMonthExamples()
    ensures FormatAge(31) == "1 month"
    ensures FormatAge(61) == "2 months"
  {
  }

  /** A year form with months, and the plural whole years. */
  lemma FormatAgeWholeYearExamples()
    ensures FormatAge(730) == "1y 11m"
    ensures FormatAge(731) == "2 years"
  {
  }
}
