/**
 * The proleptic Gregorian calendar of Python's `datetime.date`.  A calendar day is
 * represented by its day number: the count of days since 0001-01-01 (that is,
 * `date.toordinal() - 1`), so that adding one day is adding 1.
 */
module Calendar {
  import opened Text

  datatype Date = Date(year: nat, month: nat, day: nat)

  /** Days since 0001-01-01. */
  type DayNumber = nat

  predicate IsLeapYear(y: nat)
  {
    y % 4 == 0 && (y % 100 != 0 || y % 400 == 0)
  }

  function DaysInMonth(y: nat, m: nat): (n: nat)
    requires 1 <= m <= 12
    ensures 28 <= n <= 31
  {
    if m == 2 then (if IsLeapYear(y) then 29 else 28)
    else if m == 4 || m == 6 || m == 9 || m == 11 then 30
    else 31
  }

  function DaysInYear(y: nat): nat
  {
    if IsLeapYear(y) then 366 else 365
  }

  ghost predicate Valid(d: Date)
  {
    d.year >= 1 && 1 <= d.month <= 12 && 1 <= d.day <= DaysInMonth(d.year, d.month)
  }

  /** Calendar order of dates. */
  ghost predicate Before(a: Date, b: Date)
  {
    a.year < b.year
    || (a.year == b.year && a.month < b.month)
    || (a.year == b.year && a.month == b.month && a.day < b.day)
  }

  /** `d + timedelta(days=1)`. */
  function NextDay(d: Date): (r: Date)
    requires Valid(d)
    ensures Valid(r) && Before(d, r)
  {
    if d.day < DaysInMonth(d.year, d.month) then d.(day := d.day + 1)
    else if d.month < 12 then Date(d.year, d.month + 1, 1)
    else Date(d.year + 1, 1, 1)
  }

  /** The date with day number `n`. */
  function DateOf(n: DayNumber): (d: Date)
    ensures Valid(d)
  {
    if n == 0 then Date(1, 1, 1) else NextDay(DateOf(n - 1))
  }

  /** Days from 0001-01-01 to the first of January of year `y`. */
  ghost function DaysBeforeYear(y: nat): nat
  {
    if y <= 1 then 0 else DaysBeforeYear(y - 1) + DaysInYear(y - 1)
  }

  /** Days from the first of January of `y` to the first of month `m`. */
  ghost function DaysBeforeMonth(y: nat, m: nat): nat
    requires 1 <= m <= 12
  {
    [0, 31, 59, 90, 120, 151, 181, 212, 243, 273, 304, 334][m - 1]
      + (if m > 2 && IsLeapYear(y) then 1 else 0)
  }

  /** The day number of a valid date, counted independently of `DateOf`. */
  ghost function DayNumberOf(d: Date): int
    requires Valid(d)
  {
    DaysBeforeYear(d.year) + DaysBeforeMonth(d.year, d.month) + d.day - 1
  }

  lemma DaysBeforeNextMonth(y: nat, m: nat)
    requires 1 <= m < 12
    ensures DaysBeforeMonth(y, m + 1) == DaysBeforeMonth(y, m) + DaysInMonth(y, m)
  {
  }

  lemma DaysBeforeDecemberEnd(y: nat)
    ensures DaysBeforeMonth(y, 12) + DaysInMonth(y, 12) == DaysInYear(y)
  {
  }

  /** Moving to the next day advances the day number by exactly one. */
  lemma NextDayNumber(d: Date)
    requires Valid(d)
    ensures DayNumberOf(NextDay(d)) == DayNumberOf(d) + 1
  {
    if d.day < DaysInMonth(d.year, d.month) {
    } else if d.month < 12 {
      DaysBeforeNextMonth(d.year, d.month);
    } else {
      DaysBeforeDecemberEnd(d.year);
    }
  }

  /** Day numbers and dates correspond one to one: `DateOf` is inverted by `DayNumberOf`. */
  lemma {:induction false} DayNumberOfDateOf(n: DayNumber)
    ensures DayNumberOf(DateOf(n)) == n
  {
    if n > 0 {
      DayNumberOfDateOf(n - 1);
      NextDayNumber(DateOf(n - 1));
    }
  }

  lemma DateOfInjective(m: DayNumber, n: DayNumber)
    requires DateOf(m) == DateOf(n)
    ensures m == n
  {
    DayNumberOfDateOf(m);
    DayNumberOfDateOf(n);
  }

  /** `str(d)`: ISO 8601 `YYYY-MM-DD`. */
  function IsoDate(d: Date): string
  {
    Pad(d.year, 4) + "-" + Pad(d.month, 2) + "-" + Pad(d.day, 2)
  }

  /** `YYYYMMDD`, the form a task name carries. */
  function CompactDate(d: Date): string
  {
    Pad(d.year, 4) + Pad(d.month, 2) + Pad(d.day, 2)
  }

  /** Reads `YYYYMMDD` back into a date. */
  function ParseCompactDate(s: string): Date
    requires |s| == 8
  {
    Date(ParseNat(s[..4]), ParseNat(s[4..6]), ParseNat(s[6..]))
  }

  lemma DigitsHaveNoDash(s: string)
    requires AllDigits(s)
    ensures '-' !in s
  {
  }

  /** Removing `'-'` from a dash followed by dash-free text leaves that text. */
  lemma DropLeadingDash(s: string)
    requires '-' !in s
    ensures RemoveChar("-" + s, '-') == s
  {
    var t := "-" + s;
    assert t[0] == '-' && t[1..] == s;
    RemoveCharAbsent(s, '-');
  }

  /** Removing every `'-'` from the ISO form gives the compact form. */
  lemma IsoWithoutDashes(d: Date)
    ensures RemoveChar(IsoDate(d), '-') == CompactDate(d)
  {
    var y, m, dd := Pad(d.year, 4), Pad(d.month, 2), Pad(d.day, 2);
    DigitsHaveNoDash(y);
    DigitsHaveNoDash(m);
    DigitsHaveNoDash(dd);
    RemoveCharAbsent(y, '-');
    var ym := y + ("-" + m);
    assert IsoDate(d) == ym + ("-" + dd);
    RemoveCharConcat(ym, "-" + dd, '-');
    DropLeadingDash(dd);
    RemoveCharConcat(y, "-" + m, '-');
    DropLeadingDash(m);
    assert CompactDate(d) == (y + m) + dd;
  }

  /** Every date Python can represent (years up to 9999) survives the compact form. */
  lemma CompactDateRoundTrip(d: Date)
    requires Valid(d) && d.year <= 9999
    ensures |CompactDate(d)| == 8
    ensures ParseCompactDate(CompactDate(d)) == d
  {
    PadRoundTrip(d.year, 4);
    PadRoundTrip(d.month, 2);
    PadRoundTrip(d.day, 2);
    var s := CompactDate(d);
    assert s[..4] == Pad(d.year, 4);
    assert s[4..6] == Pad(d.month, 2);
    assert s[6..] == Pad(d.day, 2);
  }
}
