/**
 * The date keys the screens build with date-fns `format`: `yyyy-MM` for a
 * month and `yyyy-MM-dd` for a day. Reads filter records by these keys as
 * string prefixes, so their shape decides which records a screen sees.
 */
module CalendarKeys {
  import opened Wrappers
  import opened Numerals

  /** A calendar month; `month` runs from 1 to 12. */
  datatype YearMonth = YearMonth(year: int, month: int)

  predicate ValidMonth(ym: YearMonth)
  {
    1 <= ym.month <= 12
  }

  /** Months counted from January of year 0, so consecutive months differ by 1. */
  function MonthIndex(ym: YearMonth): int
  {
    ym.year * 12 + ym.month - 1
  }

  /** `subMonths(date, 1)` as far as the month is concerned: January steps back to December. */
  function PreviousMonth(ym: YearMonth): (prev: YearMonth)
    requires ValidMonth(ym)
    ensures ValidMonth(prev)
    ensures MonthIndex(prev) == MonthIndex(ym) - 1
    ensures ym.month == 1 ==> prev == YearMonth(ym.year - 1, 12)
  {
    if ym.month == 1 then YearMonth(ym.year - 1, 12) else YearMonth(ym.year, ym.month - 1)
  }

  /** `format(date, 'yyyy-MM')`: the year padded to four digits, the month to two. */
  function MonthKey(ym: YearMonth): (key: string)
    requires ValidMonth(ym) && ym.year >= 0
    ensures 0 <= ym.year <= 9999 ==> |key| == 7
  {
    NatToDigitsLength(ym.month, 2);
    assert ym.year <= 9999 ==> |NatToDigits(ym.year)| <= 4 by {
      if ym.year <= 9999 { NatToDigitsLength(ym.year, 4); }
    }
    ZeroPad(NatToDigits(ym.year), 4) + "-" + ZeroPad(NatToDigits(ym.month), 2)
  }

  /** Reads a `yyyy-MM` key back; anything of another shape, or month outside 1–12, is None. */
  function ParseMonthKey(key: string): (r: Option<YearMonth>)
    ensures r.Some? ==> ValidMonth(r.value) && r.value.year >= 0
  {
    if |key| == 7 && key[4] == '-' && AllDigits(key[..4]) && AllDigits(key[5..])
       && 1 <= DigitsValue(key[5..]) <= 12
    then Some(YearMonth(DigitsValue(key[..4]), DigitsValue(key[5..])))
    else None
  }

  /** Every month of years 0–9999 has a key that reads back as that month, so keys of different months differ. */
  lemma {:induction false} MonthKeyRoundTrip(ym: YearMonth)
    requires ValidMonth(ym) && 0 <= ym.year <= 9999
    ensures ParseMonthKey(MonthKey(ym)) == Some(ym)
  {
    var y := ZeroPad(NatToDigits(ym.year), 4);
    var m := ZeroPad(NatToDigits(ym.month), 2);
    PaddedValue(ym.year, 4);
    PaddedValue(ym.month, 2);
    var key := MonthKey(ym);
    assert key[..4] == y && key[5..] == m && key[4] == '-';
  }

  /** `format(date, 'yyyy-MM-dd')` */
  function DayKey(ym: YearMonth, day: nat): (key: string)
    requires ValidMonth(ym) && ym.year >= 0
    ensures MonthKey(ym) <= key
  {
    MonthKey(ym) + "-" + ZeroPad(NatToDigits(day), 2)
  }
}
