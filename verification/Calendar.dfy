/** Billing boundaries on the UTC calendar: one interval ahead, restored to the day the customer was opened on. */
module Calendar {
  import opened Core

  const DAY_MS := 86_400_000

  const EPOCH_YEAR := 1970

  datatype Interval = Month | Year

  datatype Civil = Civil(year: int, month: int, day: int)

  // ----- month lengths and leap years: section 5.7 and Appendix C of RFC 3339 -----

  predicate IsLeap(year: int) {
    year % 4 == 0 && (year % 100 != 0 || year % 400 == 0)
  }

  function DaysInMonth(year: int, month: int): (n: int)
    requires 1 <= month <= 12
    ensures 28 <= n <= 31
  {
    if month == 2 then if IsLeap(year) then 29 else 28
    else if month in {4, 6, 9, 11} then 30
    else 31
  }

  predicate ValidDate(c: Civil) {
    1 <= c.month <= 12 && 1 <= c.day <= DaysInMonth(c.year, c.month)
  }

  function DaysInYear(year: int): int {
    if IsLeap(year) then 366 else 365
  }

  /** Days from the epoch to the first of January; negative before 1970. */
  function DaysBeforeYear(year: int): int
    decreases if year < EPOCH_YEAR then EPOCH_YEAR - year else year - EPOCH_YEAR
  {
    if year == EPOCH_YEAR then 0
    else if year > EPOCH_YEAR then DaysBeforeYear(year - 1) + DaysInYear(year - 1)
    else DaysBeforeYear(year + 1) - DaysInYear(year)
  }

  function DaysBeforeMonth(year: int, month: int): (n: int)
    requires 1 <= month <= 13
    ensures 28 * (month - 1) <= n <= 31 * (month - 1)
    decreases month
  {
    if month == 1 then 0 else DaysBeforeMonth(year, month - 1) + DaysInMonth(year, month - 1)
  }

  function DayNumber(c: Civil): int
    requires ValidDate(c)
  {
    DaysBeforeYear(c.year) + DaysBeforeMonth(c.year, c.month) + c.day - 1
  }

  /** Where each month starts; month 13 is the length of the year. */
  lemma {:induction false} MonthStarts(year: int, month: int)
    requires 1 <= month <= 13
    ensures DaysBeforeMonth(year, month) == MONTH_STARTS[month - 1] + if month > 2 && IsLeap(year) then 1 else 0
    decreases month
  {
    hide DaysInMonth, IsLeap;
    if month > 1 {
      MonthStarts(year, month - 1);
      MonthSpans(year, month - 1);
    }
  }

  /** The first days of the months of a common year, and its length. */
  const MONTH_STARTS: seq<int> := [0, 31, 59, 90, 120, 151, 181, 212, 243, 273, 304, 334, 365]

  lemma MonthSpans(year: int, month: int)
    requires 1 <= month <= 12
    ensures |MONTH_STARTS| == 13
    ensures DaysInMonth(year, month) ==
            MONTH_STARTS[month] - MONTH_STARTS[month - 1] + if month == 2 && IsLeap(year) then 1 else 0
  {
  }

  lemma YearLength(year: int)
    ensures DaysBeforeYear(year + 1) == DaysBeforeYear(year) + DaysBeforeMonth(year, 13)
    ensures DaysBeforeMonth(year, 13) == DaysInYear(year)
  {
    MonthStarts(year, 13);
  }

  lemma {:induction false} YearsAscend(a: int, b: int)
    requires a <= b
    ensures DaysBeforeYear(a) + 365 * (b - a) <= DaysBeforeYear(b)
    decreases b - a
  {
    if a < b {
      YearLength(a);
      YearsAscend(a + 1, b);
    }
  }

  lemma {:induction false} MonthsAscend(year: int, a: int, b: int)
    requires 1 <= a <= b <= 13
    ensures DaysBeforeMonth(year, a) + 28 * (b - a) <= DaysBeforeMonth(year, b)
    decreases b
  {
    if a < b {
      MonthsAscend(year, a, b - 1);
    }
  }

  lemma MonthEnds(year: int, month: int)
    requires 1 <= month <= 12
    ensures DaysBeforeMonth(year, month + 1) == DaysBeforeMonth(year, month) + DaysInMonth(year, month)
  {
  }

  lemma FirstMonth(year: int)
    ensures DaysBeforeMonth(year, 1) == 0
  {
  }

  predicate Before(a: Civil, b: Civil) {
    a.year < b.year || (a.year == b.year && (a.month < b.month || (a.month == b.month && a.day < b.day)))
  }

  /** The day count orders dates exactly as the calendar does. */
  lemma DayNumberAscends(a: Civil, b: Civil)
    requires ValidDate(a) && ValidDate(b) && Before(a, b)
    ensures DayNumber(a) < DayNumber(b)
  {
    hide DaysBeforeYear, DaysBeforeMonth;
    MonthEnds(a.year, a.month);
    MonthEnds(b.year, b.month);
    MonthsAscend(a.year, a.month + 1, 13);
    MonthsAscend(b.year, 1, b.month);
    FirstMonth(b.year);
    YearLength(a.year);
    if a.year < b.year {
      YearsAscend(a.year + 1, b.year);
    } else if a.month < b.month {
      MonthsAscend(a.year, a.month + 1, b.month);
    }
  }

  lemma DayNumberInjective(a: Civil, b: Civil)
    requires ValidDate(a) && ValidDate(b) && DayNumber(a) == DayNumber(b)
    ensures a == b
  {
    if Before(a, b) {
      DayNumberAscends(a, b);
    } else if Before(b, a) {
      DayNumberAscends(b, a);
    }
  }

  function YearFrom(day: int, guess: int): (year: int)
    requires DaysBeforeYear(guess) <= day
    ensures DaysBeforeYear(year) <= day < DaysBeforeYear(year + 1)
    decreases day - DaysBeforeYear(guess)
  {
    YearLength(guess);
    if day < DaysBeforeYear(guess + 1) then guess else YearFrom(day, guess + 1)
  }

  /** A year that begins on or before the day, looking back from `guess`. */
  function YearAtOrBefore(day: int, guess: int): (year: int)
    ensures DaysBeforeYear(year) <= day
    decreases DaysBeforeYear(guess) - day
  {
    YearLength(guess - 1);
    if DaysBeforeYear(guess) <= day then guess else YearAtOrBefore(day, guess - 1)
  }

  function MonthFrom(year: int, dayOfYear: int, guess: int): (month: int)
    requires 1 <= guess <= 12
    requires DaysBeforeMonth(year, guess) <= dayOfYear < DaysBeforeMonth(year, 13)
    ensures 1 <= month <= 12
    ensures DaysBeforeMonth(year, month) <= dayOfYear < DaysBeforeMonth(year, month + 1)
    decreases 12 - guess
  {
    if dayOfYear < DaysBeforeMonth(year, guess + 1) then guess
    else MonthFrom(year, dayOfYear, guess + 1)
  }

  /** The date of a day count; with `DayNumberInjective` the two are inverse. */
  function CivilOf(number: int): (c: Civil)
    ensures ValidDate(c)
    ensures DayNumber(c) == number
  {
    var year := YearFrom(number, YearAtOrBefore(number, EPOCH_YEAR));
    var dayOfYear := number - DaysBeforeYear(year);
    YearLength(year);
    var month := MonthFrom(year, dayOfYear, 1);
    Civil(year, month, dayOfYear - DaysBeforeMonth(year, month) + 1)
  }

  function DateOf(instant: int): (c: Civil)
    ensures ValidDate(c)
  {
    CivilOf(instant / DAY_MS)
  }

  function Instant(c: Civil, timeOfDay: int): int
    requires ValidDate(c)
  {
    DayNumber(c) * DAY_MS + timeOfDay
  }

  lemma InstantRoundTrip(c: Civil, timeOfDay: int)
    requires ValidDate(c) && 0 <= timeOfDay < DAY_MS
    ensures DateOf(Instant(c, timeOfDay)) == c
    ensures Instant(c, timeOfDay) % DAY_MS == timeOfDay
  {
    assert Instant(c, timeOfDay) / DAY_MS == DayNumber(c);
    DayNumberInjective(DateOf(Instant(c, timeOfDay)), c);
  }

  // ----- Temporal's month and year addition, with `constrain` overflow -----

  function Clamp(year: int, month: int, day: int): (c: Civil)
    requires 1 <= month <= 12 && 1 <= day
    ensures ValidDate(c)
  {
    Civil(year, month, Min(day, DaysInMonth(year, month)))
  }

  /** `count` intervals added in one go, clamped once. */
  function Plus(c: Civil, interval: Interval, count: nat): (r: Civil)
    requires ValidDate(c)
    ensures ValidDate(r)
  {
    match interval
    case Month =>
      var months := c.month - 1 + count;
      Clamp(c.year + months / 12, months % 12 + 1, c.day)
    case Year =>
      Clamp(c.year + count, c.month, c.day)
  }

  function PlusIntervals(from: int, interval: Interval, count: nat): int {
    Instant(Plus(DateOf(from), interval, count), from % DAY_MS)
  }

  function AddInterval(from: int, interval: Interval): int {
    PlusIntervals(from, interval, 1)
  }

  /** One interval after `from`, its day restored to the anchor's (constrained to the month reached). */
  function NextPeriodEnd(anchor: int, from: int, interval: Interval): int {
    var stepped := Plus(DateOf(from), interval, 1);
    Instant(Clamp(stepped.year, stepped.month, DateOf(anchor).day), from % DAY_MS)
  }

  /** The boundary reached by renewing `count` times from the anchor. */
  function Boundary(anchor: int, interval: Interval, count: nat): int {
    if count == 0 then anchor
    else NextPeriodEnd(anchor, Boundary(anchor, interval, count - 1), interval)
  }

  lemma InstantsAscend(a: Civil, b: Civil, s: int, t: int)
    requires ValidDate(a) && ValidDate(b) && Before(a, b)
    requires 0 <= s < DAY_MS && 0 <= t < DAY_MS
    ensures Instant(a, s) < Instant(b, t)
  {
    DayNumberAscends(a, b);
  }

  /** Every boundary lies strictly after the instant it is counted from, whatever the anchor. */
  lemma NextPeriodEndLater(anchor: int, from: int, interval: Interval)
    ensures NextPeriodEnd(anchor, from, interval) > from
  {
    var c := DateOf(from);
    var stepped := Plus(c, interval, 1);
    InstantsAscend(c, Clamp(stepped.year, stepped.month, DateOf(anchor).day), from % DAY_MS, from % DAY_MS);
  }

  lemma AddIntervalLater(from: int, interval: Interval)
    ensures AddInterval(from, interval) > from
  {
    var c := DateOf(from);
    InstantsAscend(c, Plus(c, interval, 1), from % DAY_MS, from % DAY_MS);
  }

  lemma NextMonth(m: nat)
    ensures (m + 1) / 12 == m / 12 + (m % 12 + 1) / 12 && (m + 1) % 12 == (m % 12 + 1) % 12
  {
    var q, r := m / 12, m % 12;
    assert m == 12 * q + r && m + 1 == 12 * q + (r + 1);
  }

  /** One more interval from a clamped date, restored to the original day, is one more interval from the original. */
  lemma RestoredStep(c: Civil, interval: Interval, count: nat)
    requires ValidDate(c)
    ensures var stepped := Plus(Plus(c, interval, count), interval, 1);
            Clamp(stepped.year, stepped.month, c.day) == Plus(c, interval, count + 1)
  {
    hide DaysInMonth;
    if interval.Month? {
      NextMonth(c.month - 1 + count);
    }
  }

  lemma NextFromDate(anchor: int, from: Civil, time: int, interval: Interval)
    requires ValidDate(from) && 0 <= time < DAY_MS
    ensures var stepped := Plus(from, interval, 1);
            NextPeriodEnd(anchor, Instant(from, time), interval) ==
              Instant(Clamp(stepped.year, stepped.month, DateOf(anchor).day), time)
  {
    InstantRoundTrip(from, time);
  }

  lemma NothingAdded(from: int, interval: Interval)
    ensures PlusIntervals(from, interval, 0) == from
  {
    hide CivilOf, DayNumber;
    var c := DateOf(from);
    assert from / DAY_MS * DAY_MS + from % DAY_MS == from;
    assert (c.month - 1) / 12 == 0 && (c.month - 1) % 12 == c.month - 1;
  }

  lemma OneMoreInterval(anchor: int, interval: Interval, count: nat)
    ensures NextPeriodEnd(anchor, PlusIntervals(anchor, interval, count), interval) ==
            PlusIntervals(anchor, interval, count + 1)
  {
    hide CivilOf, DayNumber, Plus;
    var day := DateOf(anchor);
    NextFromDate(anchor, Plus(day, interval, count), anchor % DAY_MS, interval);
    RestoredStep(day, interval, count);
  }

  /** No drift: renewing interval by interval reaches what adding all the intervals once, with one clamp, reaches. */
  lemma {:induction false} RenewalsDoNotDrift(anchor: int, interval: Interval, count: nat)
    ensures Boundary(anchor, interval, count) == PlusIntervals(anchor, interval, count)
  {
    hide NextPeriodEnd, PlusIntervals;
    if count == 0 {
      NothingAdded(anchor, interval);
    } else {
      RenewalsDoNotDrift(anchor, interval, count - 1);
      OneMoreInterval(anchor, interval, count - 1);
    }
  }

  lemma MonthSpan(year: int, month: int, day: int, next: int)
    requires 1 <= month <= 11 && 1 <= day <= DaysInMonth(year, month) && 1 <= next <= DaysInMonth(year, month + 1)
    ensures DayNumber(Civil(year, month + 1, next)) - DayNumber(Civil(year, month, day)) ==
            DaysInMonth(year, month) + next - day
  {
  }

  lemma DecemberSpan(year: int, day: int, next: int)
    requires 1 <= day <= 31 && 1 <= next <= 31
    ensures DayNumber(Civil(year + 1, 1, next)) - DayNumber(Civil(year, 12, day)) == 31 + next - day
  {
    YearLength(year);
  }

  lemma YearSpan(year: int, month: int, day: int)
    requires 1 <= month <= 12 && 1 <= day
    ensures 365 <= DayNumber(Clamp(year + 1, month, day)) - DayNumber(Clamp(year, month, day)) <= 366
  {
    YearLength(year);
    MonthStarts(year, month);
    MonthStarts(year + 1, month);
  }

  /** A monthly period from `from`, itself clamped from `day`, to the same day one month ahead. */
  lemma MonthAhead(from: Civil, day: int)
    requires ValidDate(from) && from.day == Min(day, DaysInMonth(from.year, from.month))
    ensures var stepped := Plus(from, Month, 1);
            28 <= DayNumber(Clamp(stepped.year, stepped.month, day)) - DayNumber(from) <= 31
  {
    hide DayNumber;
    var stepped := Plus(from, Month, 1);
    var to := Clamp(stepped.year, stepped.month, day);
    if from.month == 12 {
      DecemberSpan(from.year, from.day, to.day);
    } else {
      MonthSpan(from.year, from.month, from.day, to.day);
    }
  }

  lemma PlusSpan(c: Civil, interval: Interval, count: nat)
    requires ValidDate(c)
    ensures var days := DayNumber(Plus(c, interval, count + 1)) - DayNumber(Plus(c, interval, count));
            if interval.Month? then 28 <= days <= 31 else 365 <= days <= 366
  {
    hide DayNumber;
    RestoredStep(c, interval, count);
    match interval
    case Month => MonthAhead(Plus(c, interval, count), c.day);
    case Year => YearSpan(c.year + count, c.month, c.day);
  }

  /** Consecutive boundaries of one anchor: monthly periods last 28 to 31 whole days, yearly ones 365 or 366. */
  lemma PeriodLength(anchor: int, interval: Interval, count: nat) returns (days: int)
    ensures Boundary(anchor, interval, count + 1) == Boundary(anchor, interval, count) + days * DAY_MS
    ensures if interval.Month? then 28 <= days <= 31 else 365 <= days <= 366
  {
    RenewalsDoNotDrift(anchor, interval, count);
    RenewalsDoNotDrift(anchor, interval, count + 1);
    var c := DateOf(anchor);
    PlusSpan(c, interval, count);
    days := DayNumber(Plus(c, interval, count + 1)) - DayNumber(Plus(c, interval, count));
  }
}
