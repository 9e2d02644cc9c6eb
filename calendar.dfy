/** Calendar dates as the app sees them after `pd.to_datetime(...).dt.normalize()`
    (a day, no time of day), the monthly period key `to_period('M')`, its
    "YYYY-MM" text form (`astype(str)`, parsed back by `pd.Period`) and the
    ISO text a date is written to the sheet as (`str(trans_date)`). */
module Calendar {
  import opened Text
  import opened Wrappers

  datatype Date = Date(year: int, month: int, day: int)

  /** Python's `datetime.date` range. */
  const MIN_YEAR := 1
  const MAX_YEAR := 9999

  predicate IsLeapYear(y: int) {
    y % 4 == 0 && (y % 100 != 0 || y % 400 == 0)
  }

  function DaysInMonth(y: int, m: int): int
    requires 1 <= m <= 12
  {
    if m == 2 then (if IsLeapYear(y) then 29 else 28)
    else if m == 4 || m == 6 || m == 9 || m == 11 then 30
    else 31
  }

  predicate ValidDate(d: Date) {
    && MIN_YEAR <= d.year <= MAX_YEAR
    && 1 <= d.month <= 12
    && 1 <= d.day <= DaysInMonth(d.year, d.month)
  }

  // ---------------------------------------------------------------------------
  // Month keys: the ordinal of a pandas monthly Period, months since 1970-01.

  function KeyYear(k: int): int {
    1970 + k / 12
  }

  function KeyMonth(k: int): int {
    k % 12 + 1
  }

  /** `df['Date'].dt.to_period('M')`: the key decodes back to the date's year
      and month, so two dates share a key exactly when they share both. */
  function MonthKey(d: Date): (k: int)
    ensures 1 <= d.month <= 12 ==> KeyYear(k) == d.year && KeyMonth(k) == d.month
  {
    (d.year - 1970) * 12 + (d.month - 1)
  }

  lemma SameMonthKey(a: Date, b: Date)
    requires 1 <= a.month <= 12 && 1 <= b.month <= 12
    ensures MonthKey(a) == MonthKey(b) <==> a.year == b.year && a.month == b.month
  {
  }

  /** The last day of March shares its key with the first of March and not
      with the first of April. */
  lemma MonthKeyExamples()
    ensures MonthKey(Date(2024, 3, 1)) == MonthKey(Date(2024, 3, 31))
    ensures MonthKey(Date(2024, 3, 31)) != MonthKey(Date(2024, 4, 1))
  {
    SameMonthKey(Date(2024, 3, 1), Date(2024, 3, 31));
    SameMonthKey(Date(2024, 3, 31), Date(2024, 4, 1));
  }

  predicate ValidKey(k: int) {
    MIN_YEAR <= KeyYear(k) <= MAX_YEAR
  }

  lemma ValidDateHasValidKey(d: Date)
    requires ValidDate(d)
    ensures ValidKey(MonthKey(d))
  {
  }

  // ---------------------------------------------------------------------------
  // Month labels: `str(Period)` is "YYYY-MM"; `pd.Period(label)` reads it back.

  function MonthLabel(k: int): (s: string)
    requires ValidKey(k)
    ensures |s| == 7 && s[4] == '-'
  {
    Pad(KeyYear(k), 4) + "-" + Pad(KeyMonth(k), 2)
  }

  /** `pd.Period(label)` on the selector's labels: the key read from a label
      has the label's year and month. */
  function ParseMonthLabel(s: string): (r: Option<int>)
    ensures r.Some? ==> |s| == 7 && AllDigits(s[..4]) && s[4] == '-' && AllDigits(s[5..])
    ensures r.Some? ==> KeyYear(r.value) == Number(s[..4]) && KeyMonth(r.value) == Number(s[5..])
  {
    if |s| == 7 && AllDigits(s[..4]) && s[4] == '-' && AllDigits(s[5..]) then
      var y, m := Number(s[..4]), Number(s[5..]);
      if 1 <= m <= 12 then Some((y - 1970) * 12 + (m - 1)) else None
    else None
  }

  /** The only text that reads as a month of years 1 to 9999 is that month's
      label. */
  lemma MonthLabelCanonical(s: string)
    requires ParseMonthLabel(s).Some? && ValidKey(ParseMonthLabel(s).value)
    ensures MonthLabel(ParseMonthLabel(s).value) == s
  {
    var k := ParseMonthLabel(s).value;
    DigitsOrder(Pad(KeyYear(k), 4), s[..4]);
    DigitsOrder(Pad(KeyMonth(k), 2), s[5..]);
    assert s == s[..4] + "-" + s[5..];
  }

  /** `pd.Period(str(p)) == p`. */
  lemma MonthLabelRoundTrip(k: int)
    requires ValidKey(k)
    ensures ParseMonthLabel(MonthLabel(k)) == Some(k)
  {
    var s := MonthLabel(k);
    assert s[..4] == Pad(KeyYear(k), 4);
    assert s[5..] == Pad(KeyMonth(k), 2);
  }

  lemma MonthLabelInjective(k: int, k': int)
    requires ValidKey(k) && ValidKey(k')
    ensures MonthLabel(k) == MonthLabel(k') <==> k == k'
  {
    MonthLabelRoundTrip(k);
    MonthLabelRoundTrip(k');
  }

  /** Sorting the labels as strings puts the months in calendar order. */
  lemma MonthLabelOrder(k: int, k': int)
    requires ValidKey(k) && ValidKey(k')
    ensures LexLess(MonthLabel(k), MonthLabel(k')) <==> k < k'
  {
    var y, y' := Pad(KeyYear(k), 4), Pad(KeyYear(k'), 4);
    var m, m' := Pad(KeyMonth(k), 2), Pad(KeyMonth(k'), 2);
    assert MonthLabel(k) == y + ("-" + m);
    assert MonthLabel(k') == y' + ("-" + m');
    LexAppend(y, "-" + m, y', "-" + m');
    LexAfterDash(m, m');
    DigitsOrder(y, y');
    DigitsOrder(m, m');
    KeyOrder(k, k');
  }

  lemma LexAfterDash(m: string, m': string)
    ensures LexLess("-" + m, "-" + m') <==> LexLess(m, m')
  {
    assert ("-" + m)[1..] == m && ("-" + m')[1..] == m';
  }

  /** Keys compare as (year, month) pairs. */
  lemma KeyOrder(k: int, k': int)
    ensures k < k' <==>
      KeyYear(k) < KeyYear(k') || (KeyYear(k) == KeyYear(k') && KeyMonth(k) < KeyMonth(k'))
  {
    assert k == (KeyYear(k) - 1970) * 12 + (KeyMonth(k) - 1);
    assert k' == (KeyYear(k') - 1970) * 12 + (KeyMonth(k') - 1);
  }

  // ---------------------------------------------------------------------------
  // Dates as text: `str(datetime.date)` is ISO "YYYY-MM-DD".

  function FormatDate(d: Date): (s: string)
    requires ValidDate(d)
    ensures |s| == 10 && s[4] == '-' && s[7] == '-'
  {
    Pad(d.year, 4) + "-" + Pad(d.month, 2) + "-" + Pad(d.day, 2)
  }

  /** The ISO dates `pd.to_datetime` reads; anything else is rejected. */
  function ParseDate(s: string): (r: Option<Date>)
    ensures r.Some? ==> ValidDate(r.value)
  {
    if |s| == 10 && AllDigits(s[..4]) && s[4] == '-' && AllDigits(s[5..7])
       && s[7] == '-' && AllDigits(s[8..])
    then
      var d := Date(Number(s[..4]), Number(s[5..7]), Number(s[8..]));
      if ValidDate(d) then Some(d) else None
    else None
  }

  /** A date written to the sheet reads back as the same date. */
  lemma DateRoundTrip(d: Date)
    requires ValidDate(d)
    ensures ParseDate(FormatDate(d)) == Some(d)
  {
    var s := FormatDate(d);
    assert s[..4] == Pad(d.year, 4);
    assert s[5..7] == Pad(d.month, 2);
    assert s[8..] == Pad(d.day, 2);
  }

  /** The only text that reads as a date is that date's own ISO form. */
  lemma ParseDateCanonical(s: string)
    requires ParseDate(s).Some?
    ensures FormatDate(ParseDate(s).value) == s
  {
    var d := ParseDate(s).value;
    var t := FormatDate(d);
    assert t[..4] == Pad(d.year, 4) && t[5..7] == Pad(d.month, 2) && t[8..] == Pad(d.day, 2);
    DigitsOrder(s[..4], t[..4]);
    DigitsOrder(s[5..7], t[5..7]);
    DigitsOrder(s[8..], t[8..]);
    assert s == s[..4] + s[4..5] + s[5..7] + s[7..8] + s[8..];
    assert t == t[..4] + t[4..5] + t[5..7] + t[7..8] + t[8..];
  }
}
