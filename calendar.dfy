/** Gregorian calendar facts, calendar-month keys and their text forms.
    A month key is the pair (year, month); the client renders it as the
    label "MM/YYYY" and sorts by it, the server turns it into the window of
    its first and last day. */
module Calendar {
  import opened Common
  import Sorting

  /** The year range of the server's date type. */
  const MIN_YEAR := 1
  const MAX_YEAR := 9999

  predicate IsLeap(y: int)
  {
    y % 4 == 0 && (y % 100 != 0 || y % 400 == 0)
  }

  /** The length of month `m` of year `y`, leap years included. */
  function DaysInMonth(y: int, m: int): (r: int)
    requires 1 <= m <= 12
    ensures 28 <= r <= 31
    ensures r == 29 <==> m == 2 && IsLeap(y)
    ensures r == 28 <==> m == 2 && !IsLeap(y)
    ensures r == 30 <==> m in {4, 6, 9, 11}
  {
    if m == 2 then (if IsLeap(y) then 29 else 28)
    else if m == 4 || m == 6 || m == 9 || m == 11 then 30
    else 31
  }

  /** The days of months 1 .. n of year `y`, added up. */
  function DaysThrough(y: int, n: int): int
    requires 0 <= n <= 12
  {
    if n == 0 then 0 else DaysThrough(y, n - 1) + DaysInMonth(y, n)
  }

  /** The twelve month lengths add up to the length of the year. */
  lemma YearLength(y: int)
    ensures DaysThrough(y, 12) == if IsLeap(y) then 366 else 365
  {
    assert DaysThrough(y, 1) == 31;
    assert DaysThrough(y, 2) == 31 + DaysInMonth(y, 2);
    assert DaysThrough(y, 3) == 62 + DaysInMonth(y, 2);
    assert DaysThrough(y, 4) == 92 + DaysInMonth(y, 2);
    assert DaysThrough(y, 5) == 123 + DaysInMonth(y, 2);
    assert DaysThrough(y, 6) == 153 + DaysInMonth(y, 2);
    assert DaysThrough(y, 7) == 184 + DaysInMonth(y, 2);
    assert DaysThrough(y, 8) == 215 + DaysInMonth(y, 2);
    assert DaysThrough(y, 9) == 245 + DaysInMonth(y, 2);
    assert DaysThrough(y, 10) == 276 + DaysInMonth(y, 2);
    assert DaysThrough(y, 11) == 306 + DaysInMonth(y, 2);
    assert DaysThrough(y, 12) == 337 + DaysInMonth(y, 2);
  }

  predicate ValidDate(d: Date)
  {
    && MIN_YEAR <= d.year <= MAX_YEAR
    && 1 <= d.month <= 12
    && 1 <= d.day <= DaysInMonth(d.year, d.month)
  }

  /** Chronological order of dates: by year, then month, then day. */
  predicate DateBefore(a: Date, b: Date)
  {
    a.year < b.year
    || (a.year == b.year && a.month < b.month)
    || (a.year == b.year && a.month == b.month && a.day < b.day)
  }

  predicate DateAtMost(a: Date, b: Date)
  {
    a == b || DateBefore(a, b)
  }

  /** The first and last day of a month. */
  function FirstDay(y: int, m: int): Date
  {
    Date(y, m, 1)
  }

  function LastDay(y: int, m: int): Date
    requires 1 <= m <= 12
  {
    Date(y, m, DaysInMonth(y, m))
  }

  /** A valid date lies in the window [first day, last day] of a month
      exactly when it belongs to that month. */
  lemma WindowIsMonth(y: int, m: int, d: Date)
    requires 1 <= m <= 12
    requires ValidDate(d)
    ensures DateAtMost(FirstDay(y, m), d) && DateAtMost(d, LastDay(y, m))
        <==> d.year == y && d.month == m
  {
  }

  /** A calendar month, the grouping key of the client's month views. */
  datatype MonthKey = MonthKey(year: int, month: int)

  function MonthOfDate(d: Date): MonthKey
  {
    MonthKey(d.year, d.month)
  }

  function MonthOf(tx: Transaction): MonthKey
  {
    MonthOfDate(tx.date)
  }

  /** Lexicographic order on (year, month): chronological order of months. */
  predicate KeyBefore(a: MonthKey, b: MonthKey)
  {
    a.year < b.year || (a.year == b.year && a.month < b.month)
  }

  lemma KeyBeforeIsStrictTotalOrder()
    ensures Sorting.StrictTotalOrder(KeyBefore)
  {
  }

  // Text forms: `String(n)`, `padStart(2, "0")` and the "MM/YYYY" label.

  predicate IsDigit(c: char)
  {
    '0' <= c <= '9'
  }

  function DigitChar(d: int): (c: char)
    requires 0 <= d <= 9
    ensures IsDigit(c)
  {
    ('0' as int + d) as char
  }

  /** The decimal text of a natural number, without leading zeros. */
  function NatText(n: nat): (s: string)
    ensures |s| >= 1
    ensures forall i :: 0 <= i < |s| ==> IsDigit(s[i])
  {
    if n < 10 then [DigitChar(n)] else NatText(n / 10) + [DigitChar(n % 10)]
  }

  /** The decimal text of an integer, as JavaScript's `String(n)` writes it. */
  function IntText(n: int): string
  {
    if n < 0 then "-" + NatText(-n) else NatText(n)
  }

  /** `s.padStart(2, "0")`. */
  function PadStart2(s: string): string
  {
    if |s| == 0 then "00" else if |s| == 1 then "0" + s else s
  }

  /** The label of a month group: zero-padded month, a slash, the year. */
  function Label(k: MonthKey): (s: string)
    ensures 1 <= k.month <= 12 ==> |s| >= 4 && s[2] == '/' && DigitsValue(s[..2]) == k.month
    ensures 1 <= k.month <= 12 ==> IsDigit(s[0]) && IsDigit(s[1])
    ensures 1 <= k.month <= 12 ==> s[3..] == IntText(k.year)
  {
    var p := PadStart2(IntText(k.month));
    var s := p + "/" + IntText(k.year);
    if 1 <= k.month <= 12 then
      MonthTextRoundTrip(k.month);
      assert s[..2] == p && s[3..] == IntText(k.year);
      s
    else s
  }

  /** The value of a string of decimal digits. */
  function DigitsValue(s: string): int
  {
    if s == [] then 0 else DigitsValue(s[..|s| - 1]) * 10 + (s[|s| - 1] as int - '0' as int)
  }

  function ParseInt(s: string): int
  {
    if |s| > 0 && s[0] == '-' then -DigitsValue(s[1..]) else DigitsValue(s)
  }

  /** Reads a month key back from a label. */
  function ParseLabel(s: string): MonthKey
    requires |s| >= 3
  {
    MonthKey(ParseInt(s[3..]), DigitsValue(s[..2]))
  }

  lemma {:induction false} NatTextRoundTrip(n: nat)
    ensures DigitsValue(NatText(n)) == n
  {
    if n >= 10 {
      NatTextRoundTrip(n / 10);
      var s := NatText(n);
      assert s[..|s| - 1] == NatText(n / 10);
    }
  }

  lemma IntTextRoundTrip(n: int)
    ensures ParseInt(IntText(n)) == n
  {
    if n < 0 {
      NatTextRoundTrip(-n);
      assert IntText(n)[1..] == NatText(-n);
    } else {
      NatTextRoundTrip(n);
    }
  }

  /** The month part of a label is two digits that read back as the month. */
  lemma MonthTextRoundTrip(m: int)
    requires 1 <= m <= 12
    ensures |PadStart2(IntText(m))| == 2
    ensures forall i :: 0 <= i < 2 ==> IsDigit(PadStart2(IntText(m))[i])
    ensures DigitsValue(PadStart2(IntText(m))) == m
  {
    NatTextRoundTrip(m);
    if m >= 10 {
      assert |NatText(m / 10)| == 1;
    } else {
      var p := PadStart2(IntText(m));
      assert p[..1] == "0";
      assert p[..|p| - 1] == "0";
    }
  }

  /** A label determines its month: the label is zero-padded "MM/YYYY" and
      reading it back gives the key it was made from. */
  lemma LabelRoundTrip(k: MonthKey)
    requires 1 <= k.month <= 12
    ensures |Label(k)| >= 4 && Label(k)[2] == '/'
    ensures ParseLabel(Label(k)) == k
  {
    IntTextRoundTrip(k.year);
  }

  /** Distinct months have distinct labels. */
  lemma LabelInjective(a: MonthKey, b: MonthKey)
    requires 1 <= a.month <= 12 && 1 <= b.month <= 12
    requires Label(a) == Label(b)
    ensures a == b
  {
    LabelRoundTrip(a);
    LabelRoundTrip(b);
  }
}
