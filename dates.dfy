/**
  The calendar date supplied by the clock, and its strftime('%Y_%m_%d') text.
 */
module Dates {
  import opened Text

  datatype CivilDate = CivilDate(year: int, month: int, day: int)

  predicate IsLeapYear(y: int) {
    y % 4 == 0 && (y % 100 != 0 || y % 400 == 0)
  }

  function DaysInMonth(y: int, m: int): int {
    if m == 2 then (if IsLeapYear(y) then 29 else 28)
    else if m in {4, 6, 9, 11} then 30
    else 31
  }

  /** The dates Python's datetime can represent. */
  predicate IsValidDate(d: CivilDate) {
    1 <= d.year <= 9999 && 1 <= d.month <= 12 && 1 <= d.day <= DaysInMonth(d.year, d.month)
  }

  type Date = d: CivilDate | IsValidDate(d) witness CivilDate(1970, 1, 1)

  /** strftime('%Y_%m_%d'): four-digit year, two-digit month and day, '_' between. */
  function Format(d: Date): (s: string)
    ensures |s| == 10 && s[4] == '_' && s[7] == '_'
    ensures forall i :: 0 <= i < 10 && i != 4 && i != 7 ==> IsDigit(s[i])
  {
    FixedDigits(d.year, 4) + "_" + FixedDigits(d.month, 2) + "_" + FixedDigits(d.day, 2)
  }

  /** Reads a YYYY_MM_DD text back into its three fields. */
  function Parse(s: string): CivilDate
    requires |s| == 10
  {
    CivilDate(ParseNat(s[..4]), ParseNat(s[5..7]), ParseNat(s[8..]))
  }

  lemma FormatRoundTrip(d: Date)
    ensures Parse(Format(d)) == d
  {
    var s := Format(d);
    assert s[..4] == FixedDigits(d.year, 4);
    assert s[5..7] == FixedDigits(d.month, 2);
    assert s[8..] == FixedDigits(d.day, 2);
    assert Pow10(2) == 100 && Pow10(4) == 10000;
    ParseFixedDigits(d.year, 4);
    ParseFixedDigits(d.month, 2);
    ParseFixedDigits(d.day, 2);
  }

  /** Two dates share a formatted text only if they are the same date. */
  lemma FormatInjective(d1: Date, d2: Date)
    ensures Format(d1) == Format(d2) <==> d1 == d2
  {
    FormatRoundTrip(d1);
    FormatRoundTrip(d2);
  }
}
