/** The wall-clock label of a reporting window: the calendar date of an instant, and why two
    windows never share a header. */
module DigestCalendar {
  import opened PythonText
  import opened DigestExecutions
  import opened DigestMessages

  // -------------------------------------------------------------- calendar

  predicate IsLeap(year: int) {
    year % 4 == 0 && (year % 100 != 0 || year % 400 == 0)
  }

  /** Days from the first of January of year 1 to that of `year`. */
  function DaysBeforeYear(year: int): int {
    var y := year - 1;
    y * 365 + y / 4 - y / 100 + y / 400
  }

  function DaysInMonth(year: int, month: int): (n: int)
    requires 1 <= month <= 12
    ensures 28 <= n <= 31
  {
    if month == 2 then if IsLeap(year) then 29 else 28
    else if month in {4, 6, 9, 11} then 30
    else 31
  }

  function DaysBeforeMonth(year: int, month: int): int
    requires 1 <= month <= 13
    decreases month
  {
    if month == 1 then 0 else DaysBeforeMonth(year, month - 1) + DaysInMonth(year, month - 1)
  }

  /** `date.toordinal`: the first of January of year 1 is day 1. */
  function Ordinal(year: int, month: int, day: int): int
    requires 1 <= month <= 12
  {
    DaysBeforeYear(year) + DaysBeforeMonth(year, month) + day
  }

  const MIN_ORDINAL := 1
  const MAX_ORDINAL := 3_652_059
  const EPOCH_ORDINAL := 719_163

  lemma YearLength(year: int)
    ensures DaysBeforeYear(year + 1) - DaysBeforeYear(year) == if IsLeap(year) then 366 else 365
  {
    assert year / 4 - (year - 1) / 4 == if year % 4 == 0 then 1 else 0;
    assert year / 100 - (year - 1) / 100 == if year % 100 == 0 then 1 else 0;
    assert year / 400 - (year - 1) / 400 == if year % 400 == 0 then 1 else 0;
    LeapByHundreds(year);
  }

  lemma LeapByHundreds(year: int)
    ensures year % 400 == 0 ==> year % 100 == 0
    ensures year % 100 == 0 ==> year % 4 == 0
  {
    if year % 400 == 0 {
      Hundreds(4 * (year / 400));
    }
    if year % 100 == 0 {
      Fours(25 * (year / 100));
    }
  }

  lemma Hundreds(q: int)
    ensures 100 * q % 100 == 0
  {
  }

  lemma Fours(q: int)
    ensures 4 * q % 4 == 0
  {
  }

  /** The year of a day, counting up from `year`. */
  function YearFrom(ordinal: int, year: int): (y: int)
    requires 1 <= year <= 9999 && DaysBeforeYear(year) < ordinal <= MAX_ORDINAL
    ensures year <= y <= 9999 && DaysBeforeYear(y) < ordinal <= DaysBeforeYear(y + 1)
    decreases 9999 - year
  {
    if ordinal <= DaysBeforeYear(year + 1) then year
    else if year == 9999 then assert false; year
    else YearFrom(ordinal, year + 1)
  }

  /** The month of a day of the year, counting up from `month`. */
  function MonthFrom(year: int, dayOfYear: int, month: int): (m: int)
    requires 1 <= month <= 12 && DaysBeforeMonth(year, month) < dayOfYear <= DaysBeforeMonth(year, 13)
    ensures 1 <= m <= 12
    ensures DaysBeforeMonth(year, m) < dayOfYear <= DaysBeforeMonth(year, m) + DaysInMonth(year, m)
    decreases 12 - month
  {
    if dayOfYear <= DaysBeforeMonth(year, month) + DaysInMonth(year, month) then month
    else MonthFrom(year, dayOfYear, month + 1)
  }

  lemma MonthsFillTheYear(year: int)
    ensures DaysBeforeMonth(year, 13) == if IsLeap(year) then 366 else 365
  {
    assert DaysBeforeMonth(year, 2) == 31;
    assert DaysBeforeMonth(year, 4) == DaysBeforeMonth(year, 3) + 31;
    assert DaysBeforeMonth(year, 6) == DaysBeforeMonth(year, 4) + 61;
    assert DaysBeforeMonth(year, 8) == DaysBeforeMonth(year, 6) + 61;
    assert DaysBeforeMonth(year, 10) == DaysBeforeMonth(year, 8) + 61;
    assert DaysBeforeMonth(year, 12) == DaysBeforeMonth(year, 10) + 61;
  }

  datatype Date = Date(year: int, month: int, day: int)

  /** `date.fromordinal`. */
  function DateOf(ordinal: int): (d: Date)
    requires MIN_ORDINAL <= ordinal <= MAX_ORDINAL
    ensures 1 <= d.year <= 9999 && 1 <= d.month <= 12 && 1 <= d.day <= DaysInMonth(d.year, d.month)
    ensures Ordinal(d.year, d.month, d.day) == ordinal
  {
    var year := YearFrom(ordinal, 1);
    var dayOfYear := ordinal - DaysBeforeYear(year);
    MonthsFillTheYear(year);
    YearLength(year);
    var month := MonthFrom(year, dayOfYear, 1);
    Date(year, month, dayOfYear - DaysBeforeMonth(year, month))
  }

  // --------------------------------------------------------------- stamps

  /** Instants count from the Unix epoch. */
  function LocalDay(t: int): int {
    (t + ZONE) / DAY + EPOCH_ORDINAL
  }

  /** The minute of the local day. */
  function LocalMinute(t: int): (m: nat)
    ensures m < 1440
  {
    var m := (t + ZONE) % DAY / MINUTE;
    assert 0 <= (t + ZONE) % DAY < 1440 * MINUTE;
    m
  }

  /** An instant that a local date and time can name. */
  predicate IsInstant(t: int) {
    MIN_ORDINAL <= LocalDay(t) <= MAX_ORDINAL
  }

  /** The local minute of an instant. */
  function StampOf(t: int): Stamp
    requires IsInstant(t)
  {
    var date := DateOf(LocalDay(t));
    Stamp(date.year, date.month, date.day, LocalMinute(t) / 60, LocalMinute(t) % 60)
  }

  function WindowLabel(w: Window): string
    requires IsInstant(w.start) && IsInstant(w.end)
  {
    Label(StampOf(w.start), StampOf(w.end))
  }

  // ------------------------------------------------------------ injectivity

  lemma TwoDigitsInjective(m: nat, n: nat)
    requires m < 100 && n < 100 && TwoDigits(m) == TwoDigits(n)
    ensures m == n
  {
    assert TwoDigits(m)[0] == Digit(m / 10) && TwoDigits(m)[1] == Digit(m % 10);
    assert TwoDigits(n)[0] == Digit(n / 10) && TwoDigits(n)[1] == Digit(n % 10);
  }

  /** The twelve characters after the year. */
  function AfterYear(s: Stamp): (r: string)
    ensures |r| == 12
  {
    "-" + TwoDigits(s.month) + "-" + TwoDigits(s.day) + " " + TwoDigits(s.hour) + ":" + TwoDigits(s.minute)
  }

  lemma StampTextParts(s: Stamp)
    ensures StampText(s) == Decimal(s.year) + AfterYear(s)
  {
  }

  lemma AfterYearInjective(s: Stamp, t: Stamp)
    requires AfterYear(s) == AfterYear(t)
    ensures s.month == t.month && s.day == t.day && s.hour == t.hour && s.minute == t.minute
  {
    var a, b := AfterYear(s), AfterYear(t);
    assert a[1..3] == TwoDigits(s.month) && b[1..3] == TwoDigits(t.month);
    assert a[4..6] == TwoDigits(s.day) && b[4..6] == TwoDigits(t.day);
    assert a[7..9] == TwoDigits(s.hour) && b[7..9] == TwoDigits(t.hour);
    assert a[10..12] == TwoDigits(s.minute) && b[10..12] == TwoDigits(t.minute);
    TwoDigitsInjective(s.month, t.month);
    TwoDigitsInjective(s.day, t.day);
    TwoDigitsInjective(s.hour, t.hour);
    TwoDigitsInjective(s.minute, t.minute);
  }

  lemma EqualTails(a: string, b: string, c: string, d: string)
    requires a + b == c + d && |b| == |d|
    ensures a == c && b == d
  {
    assert a == (a + b)[..|a|] && c == (c + d)[..|c|];
    assert b == (a + b)[|a|..] && d == (c + d)[|c|..];
  }

  lemma StampTextInjective(s: Stamp, t: Stamp)
    requires StampText(s) == StampText(t)
    ensures s == t
  {
    StampTextParts(s);
    StampTextParts(t);
    EqualTails(Decimal(s.year), AfterYear(s), Decimal(t.year), AfterYear(t));
    DecimalInjective(s.year, t.year);
    AfterYearInjective(s, t);
  }

  /** What comes before the first `c`. */
  lemma FrontsEqual(a: string, b: string, r: string, s: string, c: char)
    requires a + [c] + r == b + [c] + s && c !in a && c !in b
    ensures a == b
  {
    assert a + [c] + r == a + ([c] + r) && b + [c] + s == b + ([c] + s);
    IndexOfIs(a, c, [c] + r);
    IndexOfIs(b, c, [c] + s);
    assert a == (a + ([c] + r))[..|a|] && b == (b + ([c] + s))[..|b|];
  }

  lemma StampCharacters(s: Stamp)
    ensures '~' !in StampText(s) && '】' !in StampText(s)
  {
    DecimalIsDigits(s.year);
  }

  /** Labels name their windows: two report windows with one label are one window. */
  lemma LabelNamesWindow(v: Window, w: Window)
    requires IsReportWindow(v) && IsReportWindow(w)
    requires IsInstant(v.start) && IsInstant(v.end) && IsInstant(w.start) && IsInstant(w.end)
    requires WindowLabel(v) == WindowLabel(w)
    ensures v == w
  {
    var s, t := StampOf(v.start), StampOf(w.start);
    StampCharacters(s);
    StampCharacters(t);
    assert "~" == ['~'];
    FrontsEqual(StampText(s), StampText(t), StampText(StampOf(v.end)), StampText(StampOf(w.end)), '~');
    StampTextInjective(s, t);
    assert DateOf(LocalDay(v.start)) == DateOf(LocalDay(w.start));
    SameDayStart(v, w);
  }

  lemma SameDayStart(v: Window, w: Window)
    requires IsReportWindow(v) && IsReportWindow(w) && LocalDay(v.start) == LocalDay(w.start)
    ensures v == w
  {
    var i, j := (v.end + ZONE) / DAY, (w.end + ZONE) / DAY;
    assert v.end + ZONE == i * DAY + REPORT_HOUR && w.end + ZONE == j * DAY + REPORT_HOUR;
    DayOf(v.start + ZONE, i - 1);
    DayOf(w.start + ZONE, j - 1);
  }

  lemma DayOf(x: int, day: int)
    requires x == day * DAY + REPORT_HOUR
    ensures x / DAY == day
  {
  }

  /** No header of one window's digest is a header of another's, whichever parts they mark. */
  lemma HeaderNamesWindow(v: Window, w: Window, p: PartNumber, q: PartNumber)
    requires IsReportWindow(v) && IsReportWindow(w)
    requires IsInstant(v.start) && IsInstant(v.end) && IsInstant(w.start) && IsInstant(w.end)
    requires Header(WindowLabel(v), p) == Header(WindowLabel(w), q)
    ensures v == w
  {
    LabelCharacters(v);
    LabelCharacters(w);
    var r := HeaderParts(WindowLabel(v), p);
    var s := HeaderParts(WindowLabel(w), q);
    HeaderFronts(WindowLabel(v), WindowLabel(w), r, s);
    LabelNamesWindow(v, w);
  }

  lemma LabelCharacters(w: Window)
    requires IsInstant(w.start) && IsInstant(w.end)
    ensures '】' !in WindowLabel(w)
  {
    StampCharacters(StampOf(w.start));
    StampCharacters(StampOf(w.end));
  }

  /** A header is its opening, its label, the closing bracket and its part marker, if any. */
  lemma HeaderParts(title: string, part: PartNumber) returns (rest: string)
    ensures Header(title, part) == OPENING + (title + (CLOSING + rest))
  {
    match part
    case Whole =>
      rest := "";
      assert Header(title, part) == OPENING + title + CLOSING;
    case Part(index, total) =>
      rest := PART + Decimal(index) + "/" + Decimal(total) + PART_END;
      Regroup(title, Decimal(index), Decimal(total));
  }

  lemma Regroup(title: string, index: string, total: string)
    ensures Numbered(Front(title), index, total, PART_END) ==
            OPENING + (title + (CLOSING + (PART + index + "/" + total + PART_END)))
  {
    Associates(OPENING, title, CLOSING, PART, index, "/", total, PART_END);
  }

  lemma Associates(a: string, b: string, c: string, d: string, e: string, f: string, g: string, h: string)
    ensures (a + b + c + d) + e + f + g + h == a + (b + (c + (d + e + f + g + h)))
  {
    var tail := d + e + f + g + h;
    assert (a + b + c + d) + e + f + g + h == (a + b + c) + tail;
    assert (a + b + c) + tail == a + (b + (c + tail));
  }

  lemma HeaderFronts(a: string, b: string, r: string, s: string)
    requires OPENING + (a + (CLOSING + r)) == OPENING + (b + (CLOSING + s))
    requires '】' !in a && '】' !in b
    ensures a == b
  {
    assert a + (CLOSING + r) == (OPENING + (a + (CLOSING + r)))[|OPENING|..];
    assert b + (CLOSING + s) == (OPENING + (b + (CLOSING + s)))[|OPENING|..];
    assert a + ['】'] + r == a + (CLOSING + r);
    assert b + ['】'] + s == b + (CLOSING + s);
    FrontsEqual(a, b, r, s, '】');
  }
}
