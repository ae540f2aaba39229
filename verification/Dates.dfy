/** Calendar dates, their `2006-01-02` form, and the month window of the usage reader. */
module Dates {
  import opened Text

  datatype Date = Date(year: nat, month: nat, day: nat)

  predicate Leap(year: nat) {
    year % 4 == 0 && (year % 100 != 0 || year % 400 == 0)
  }

  function DaysIn(year: nat, month: nat): (n: nat)
    ensures 28 <= n <= 31
  {
    if month == 2 then (if Leap(year) then 29 else 28)
    else if month in {4, 6, 9, 11} then 30
    else 31
  }

  predicate ValidDate(d: Date) {
    d.year < 10000 && 1 <= d.month <= 12 && 1 <= d.day <= DaysIn(d.year, d.month)
  }

  function FormatDate(d: Date): (s: string)
    requires ValidDate(d)
    ensures |s| == 10 && ':' !in s
  {
    Two(d.year / 100) + Two(d.year % 100) + "-" + Two(d.month) + "-" + Two(d.day)
  }

  /** time.Parse("2006-01-02", s) */
  function ParseDate(s: string): (r: Option<Date>)
    ensures r.Some? ==> ValidDate(r.value)
  {
    if |s| == 10 && s[4] == '-' && s[7] == '-'
       && AllDigits(s[..4]) && AllDigits(s[5..7]) && AllDigits(s[8..10])
    then
      var d := Date(100 * TwoValue(s[..2]) + TwoValue(s[2..4]), TwoValue(s[5..7]), TwoValue(s[8..10]));
      if ValidDate(d) then Some(d) else None
    else None
  }

  lemma {:induction false} DateRoundTrip(d: Date)
    requires ValidDate(d)
    ensures ParseDate(FormatDate(d)) == Some(d)
  {
    var s := FormatDate(d);
    assert s[..2] == Two(d.year / 100) && s[2..4] == Two(d.year % 100);
    assert s[5..7] == Two(d.month) && s[8..10] == Two(d.day);
  }

  /** A string that parses is the form of its date, so no two strings parse to one day. */
  lemma {:induction false} ParsedDatePrints(s: string)
    requires ParseDate(s).Some?
    ensures FormatDate(ParseDate(s).value) == s
  {
    var d := ParseDate(s).value;
    TwoOfValue(s[..2]);
    TwoOfValue(s[2..4]);
    TwoOfValue(s[5..7]);
    TwoOfValue(s[8..10]);
    assert d.year / 100 == TwoValue(s[..2]) && d.year % 100 == TwoValue(s[2..4]);
    assert s == s[..2] + s[2..4] + [s[4]] + s[5..7] + [s[7]] + s[8..10];
  }

  lemma {:induction false} TwoOfValue(s: string)
    requires |s| == 2 && IsDigit(s[0]) && IsDigit(s[1])
    ensures Two(TwoValue(s)) == s
  {
  }

  predicate Before(a: Date, b: Date) {
    a.year < b.year || (a.year == b.year && (a.month < b.month || (a.month == b.month && a.day < b.day)))
  }

  function MonthStart(today: Date): Date {
    Date(today.year, today.month, 1)
  }

  /** The day of the last second before the next month begins. */
  function MonthEnd(today: Date): Date {
    Date(today.year, today.month, DaysIn(today.year, today.month))
  }

  /** The reader's test: neither before the month's first instant nor after its last. */
  predicate InCurrentMonth(d: Date, today: Date) {
    !Before(d, MonthStart(today)) && !Before(MonthEnd(today), d)
  }

  /** The two comparisons select exactly the dates that share the year and the month. */
  lemma {:induction false} InCurrentMonthIffSame(d: Date, today: Date)
    requires ValidDate(d)
    ensures InCurrentMonth(d, today) <==> d.year == today.year && d.month == today.month
  {
  }

  /** Year, month and day in that order, with dashes and leading zeros. */
  lemma {:induction false} DateExample()
    ensures FormatDate(Date(2024, 3, 5)) == "2024-03-05"
  {
  }
}
