/** The stored-time layout shared by the queue and the history (queue.go, history.go): a civil UTC
    time written in fixed-width fields, compared by SQLite as text. Instants here are nanoseconds
    from the start of year 0 of the proleptic Gregorian calendar. */
module StoredTime {
  import opened Basics
  import opened Envelopes
  import opened Strings

  // ---------------------------------------------------------------------------
  // The calendar
  // ---------------------------------------------------------------------------

  predicate Leap(year: nat) {
    year % 4 == 0 && (year % 100 != 0 || year % 400 == 0)
  }

  function DaysIn(year: nat, month: int): int {
    if month == 2 then (if Leap(year) then 29 else 28)
    else if month == 4 || month == 6 || month == 9 || month == 11 then 30
    else 31
  }

  /** Days from the start of year 0 to the start of `year`. */
  function YearStart(year: nat): (days: nat)
    ensures days >= 365 * year
  {
    365 * year + (year + 3) / 4 - (year + 99) / 100 + (year + 399) / 400
  }

  /** Days from the start of the year to the start of `month`. */
  function MonthStart(year: nat, month: int): (days: nat)
    requires 1 <= month <= 13
    decreases month
  {
    if month == 1 then 0 else MonthStart(year, month - 1) + DaysIn(year, month - 1)
  }

  function YearDays(year: nat): int {
    if Leap(year) then 366 else 365
  }

  lemma TwelveMonths(year: nat)
    ensures MonthStart(year, 13) == YearDays(year)
  {
    assert MonthStart(year, 3) == 31 + DaysIn(year, 2);
    assert MonthStart(year, 8) == MonthStart(year, 3) + 153;
    assert MonthStart(year, 13) == MonthStart(year, 8) + 153;
  }

  lemma NextQuotient(x: nat, k: nat)
    requires k > 0
    ensures (x + 1) / k == x / k + if (x + 1) % k == 0 then 1 else 0
  {
    var q, r := x / k, x % k;
    assert x == k * q + r;
    if r + 1 < k {
      QuotientIs(x + 1, k, q, r + 1);
    } else {
      assert k * q + k == k * (q + 1);
      QuotientIs(x + 1, k, q + 1, 0);
    }
  }

  lemma QuotientIs(n: nat, d: nat, q: nat, r: nat)
    requires n == d * q + r && r < d
    ensures n / d == q && n % d == r
  {
    var k, l := n / d, n % d;
    assert d * (k - q) == r - l by {
      assert n == d * k + l;
    }
    if k != q {
      MultiplesAreFar(d, k - q);
    }
  }

  lemma MultiplesAreFar(d: int, m: int)
    requires d > 0 && m != 0
    ensures d * m >= d || d * m <= 0 - d
    decreases if m > 0 then m else 0 - m
  {
    if m > 1 {
      MultiplesAreFar(d, m - 1);
      assert d * m == d * (m - 1) + d;
    } else if m < -1 {
      MultiplesAreFar(d, m + 1);
      assert d * m == d * (m + 1) - d;
    } else if m == 1 {
      assert d * m == d;
    } else {
      assert d * m == 0 - d;
    }
  }

  lemma DivisorsOf(year: nat)
    ensures year % 400 == 0 ==> year % 100 == 0
    ensures year % 100 == 0 ==> year % 4 == 0
  {
    if year % 400 == 0 {
      QuotientIs(year, 100, 4 * (year / 400), 0);
    }
    if year % 100 == 0 {
      QuotientIs(year, 4, 25 * (year / 100), 0);
    }
  }

  lemma NextMultiple(year: nat, k: nat)
    requires k > 0
    ensures (year + k) / k == (year + k - 1) / k + if year % k == 0 then 1 else 0
  {
    NextQuotient(year + k - 1, k);
    assert year + k == k * (year / k + 1) + year % k;
    QuotientIs(year + k, k, year / k + 1, year % k);
  }

  lemma YearLength(year: nat)
    ensures YearStart(year + 1) == YearStart(year) + YearDays(year)
  {
    NextMultiple(year, 4);
    NextMultiple(year, 100);
    NextMultiple(year, 400);
    DivisorsOf(year);
    LeapRule(year);
  }

  lemma LeapRule(year: nat)
    requires year % 400 == 0 ==> year % 100 == 0
    requires year % 100 == 0 ==> year % 4 == 0
    ensures (if year % 4 == 0 then 1 else 0) - (if year % 100 == 0 then 1 else 0) + (if year % 400 == 0 then 1 else 0)
         == YearDays(year) - 365
  {
  }

  datatype Civil = Civil(year: nat, month: nat, day: nat, hour: nat, minute: nat, second: nat, nano: nat)

  predicate Valid(c: Civil) {
    && 1 <= c.month <= 12 && 1 <= c.day <= DaysIn(c.year, c.month)
    && 0 <= c.hour < 24 && 0 <= c.minute < 60 && 0 <= c.second < 60 && 0 <= c.nano < SECOND
  }

  const SECOND: int := 1_000_000_000
  const DAY: int := 86_400 * SECOND

  function DayOf(c: Civil): int
    requires Valid(c)
  {
    YearStart(c.year) + MonthStart(c.year, c.month) + c.day - 1
  }

  function ClockOf(c: Civil): int {
    ((c.hour * 60 + c.minute) * 60 + c.second) * SECOND + c.nano
  }

  function InstantOf(c: Civil): Instant
    requires Valid(c)
  {
    DayOf(c) * DAY + ClockOf(c)
  }

  /** The year the day falls in, searched upwards from `y`. */
  function YearOf(day: nat, y: nat): (year: nat)
    requires YearStart(y) <= day
    ensures YearStart(year) <= day < YearStart(year + 1)
    decreases day - YearStart(y)
  {
    YearLength(y);
    if day < YearStart(y + 1) then y else YearOf(day, y + 1)
  }

  function MonthOf(year: nat, day: nat, m: int): (month: int)
    requires 1 <= m <= 12 && MonthStart(year, m) <= day < MonthStart(year, 13)
    ensures m <= month <= 12 && MonthStart(year, month) <= day < MonthStart(year, month + 1)
    decreases 13 - m
  {
    if day < MonthStart(year, m + 1) then m else MonthOf(year, day, m + 1)
  }

  /** The date at a time of day. */
  function WithClock(date: Civil, clock: nat): (c: Civil)
    requires Valid(date) && clock < DAY
    ensures Valid(c) && DayOf(c) == DayOf(date) && ClockOf(c) == clock
  {
    var seconds := clock / SECOND;
    assert seconds < 86_400;
    assert seconds / 60 / 60 == seconds / 3600;
    date.(hour := seconds / 3600, minute := seconds / 60 % 60, second := seconds % 60, nano := clock % SECOND)
  }

  /** The date of a day. */
  function DateOf(day: nat): (c: Civil)
    ensures Valid(c) && DayOf(c) == day && c.hour == c.minute == c.second == c.nano == 0
  {
    var year := YearOf(day, 0);
    YearLength(year);
    TwelveMonths(year);
    var inYear := day - YearStart(year);
    var month := MonthOf(year, inYear, 1);
    Civil(year, month, inYear - MonthStart(year, month) + 1, 0, 0, 0, 0)
  }

  /** Quotient and remainder. */
  function Split(t: nat, unit: nat): (r: (nat, nat))
    requires unit > 0
    ensures r.0 * unit + r.1 == t && r.1 < unit
  {
    (t / unit, t % unit)
  }

  lemma Assembled(t: Instant, day: int, clock: int, c: Civil)
    requires Valid(c) && DayOf(c) == day && ClockOf(c) == clock && day * DAY + clock == t
    ensures InstantOf(c) == t
  {
  }

  /** The civil time of an instant. */
  function CivilOf(t: Instant): (c: Civil)
    requires t >= 0
    ensures Valid(c) && InstantOf(c) == t
  {
    var (day, clock) := Split(t, DAY);
    var c := WithClock(DateOf(day), clock);
    Assembled(t, day, clock, c);
    c
  }

  // ---------------------------------------------------------------------------
  // Civil times are ordered field by field
  // ---------------------------------------------------------------------------

  predicate DateBefore(c: Civil, d: Civil) {
    c.year < d.year || (c.year == d.year && (c.month < d.month || (c.month == d.month && c.day < d.day)))
  }

  predicate ClockBefore(c: Civil, d: Civil) {
    || c.hour < d.hour
    || (c.hour == d.hour && (c.minute < d.minute
        || (c.minute == d.minute && (c.second < d.second || (c.second == d.second && c.nano < d.nano)))))
  }

  predicate SameDate(c: Civil, d: Civil) {
    c.year == d.year && c.month == d.month && c.day == d.day
  }

  predicate Before(c: Civil, d: Civil) {
    DateBefore(c, d) || (SameDate(c, d) && ClockBefore(c, d))
  }

  lemma {:induction false} LaterYear(y: nat, z: nat)
    requires y < z
    ensures YearStart(y + 1) <= YearStart(z)
    decreases z
  {
    if y + 1 < z {
      LaterYear(y, z - 1);
      YearLength(z - 1);
    }
  }

  lemma {:induction false} LaterMonth(year: nat, m: int, n: int)
    requires 1 <= m < n <= 13
    ensures MonthStart(year, m) + DaysIn(year, m) <= MonthStart(year, n)
    decreases n
  {
    if m + 1 < n {
      LaterMonth(year, m, n - 1);
    }
  }

  lemma DayIsInItsYear(c: Civil)
    requires Valid(c)
    ensures YearStart(c.year) <= DayOf(c) < YearStart(c.year + 1)
  {
    LaterMonth(c.year, c.month, 13);
    TwelveMonths(c.year);
    YearLength(c.year);
  }

  lemma EarlierDate(c: Civil, d: Civil)
    requires Valid(c) && Valid(d) && DateBefore(c, d)
    ensures DayOf(c) < DayOf(d)
  {
    if c.year < d.year {
      DayIsInItsYear(c);
      DayIsInItsYear(d);
      LaterYear(c.year, d.year);
    } else if c.month < d.month {
      LaterMonth(c.year, c.month, d.month);
    }
  }

  lemma ClockFitsInADay(c: Civil)
    requires Valid(c)
    ensures 0 <= ClockOf(c) < DAY
  {
  }

  lemma EarlierClock(c: Civil, d: Civil)
    requires Valid(c) && Valid(d) && ClockBefore(c, d)
    ensures ClockOf(c) < ClockOf(d)
  {
  }

  lemma BeforeIsEarlier(c: Civil, d: Civil)
    requires Valid(c) && Valid(d) && Before(c, d)
    ensures InstantOf(c) < InstantOf(d)
  {
    ClockFitsInADay(c);
    ClockFitsInADay(d);
    if DateBefore(c, d) {
      EarlierDate(c, d);
      assert DayOf(c) * DAY + DAY <= DayOf(d) * DAY;
    } else {
      EarlierClock(c, d);
    }
  }

  lemma OrderedByFields(t: Instant, u: Instant)
    requires t >= 0 && u >= 0
    ensures t < u <==> Before(CivilOf(t), CivilOf(u))
  {
    var c, d := CivilOf(t), CivilOf(u);
    if Before(c, d) { BeforeIsEarlier(c, d); }
    if Before(d, c) { BeforeIsEarlier(d, c); }
  }

  // ---------------------------------------------------------------------------
  // Decimal fields
  // ---------------------------------------------------------------------------

  function Pow10(w: nat): (p: nat)
    ensures p >= 1
  {
    if w == 0 then 1 else 10 * Pow10(w - 1)
  }

  function Digit(d: int): char
    requires 0 <= d < 10
  {
    '0' + d as char
  }

  /** The low `w` decimal digits of n, zero-padded. */
  function Digits(n: nat, w: nat): (s: string)
    ensures |s| == w
  {
    if w == 0 then "" else Digits(n / 10, w - 1) + [Digit(n % 10)]
  }

  lemma DigitOrder(a: int, b: int)
    requires 0 <= a < 10 && 0 <= b < 10
    ensures Less([Digit(a)], [Digit(b)]) <==> a < b
    ensures Digit(a) == Digit(b) <==> a == b
  {
  }

  lemma {:induction false} DigitsOrder(a: nat, b: nat, w: nat)
    requires a < Pow10(w) && b < Pow10(w)
    ensures Less(Digits(a, w), Digits(b, w)) <==> a < b
    ensures Digits(a, w) == Digits(b, w) <==> a == b
  {
    if w > 0 {
      DigitsOrder(a / 10, b / 10, w - 1);
      DigitOrder(a % 10, b % 10);
      FieldByField(Digits(a / 10, w - 1), Digits(b / 10, w - 1), [Digit(a % 10)], [Digit(b % 10)]);
      var x, y := Digits(a, w), Digits(b, w);
      assert x[..w - 1] == Digits(a / 10, w - 1) && y[..w - 1] == Digits(b / 10, w - 1);
      assert x[w - 1] == Digit(a % 10) && y[w - 1] == Digit(b % 10);
    }
  }

  // ---------------------------------------------------------------------------
  // The layout
  // ---------------------------------------------------------------------------

  /** A fixed-width field followed by its separator. */
  function Field(n: nat, w: nat, separator: char, rest: string): string {
    Digits(n, w) + [separator] + rest
  }

  /** Four digits at least; later years simply need more. */
  function YearWidth(year: nat): (w: nat)
    ensures w >= 4 && year < Pow10(w)
  {
    FourDigits();
    if year < 10_000 then 4 else WidthFrom(year, 4)
  }

  lemma FourDigits()
    ensures Pow10(4) == 10_000
  {
    assert Pow10(2) == 100;
  }

  function WidthFrom(n: nat, w: nat): (r: nat)
    ensures r >= w && n < Pow10(r)
    ensures n >= Pow10(w) ==> r > w
    decreases if n >= Pow10(w) then n - Pow10(w) + 1 else 0
  {
    if n < Pow10(w) then w else WidthFrom(n, w + 1)
  }

  function Text(c: Civil): string {
    Field(c.year, YearWidth(c.year), '-', Field(c.month, 2, '-', Field(c.day, 2, 'T', ClockText(c))))
  }

  function ClockText(c: Civil): string {
    Field(c.hour, 2, ':', Field(c.minute, 2, ':', Field(c.second, 2, '.', Field(c.nano, 9, 'Z', ""))))
  }

  /** The calendar repeats every 400 years. */
  const CYCLE: int := 146_097 * DAY

  lemma WithinCycle(t: Instant)
    requires 0 <= t < CYCLE
    ensures CivilOf(t).year < 400
  {
    assert YearStart(400) == 146_097;
    YearsAndInstants(t, 400);
  }

  lemma NoFullCycle(t: nat, unit: nat)
    requires t < unit
    ensures Split(t, unit) == (0, t)
  {
    QuotientIs(t, unit, 0, t);
  }

  /** Whole cycles back from year 0, and the place in the cycle before them. */
  function CyclesBack(t: Instant): (r: (nat, nat))
    requires t < 0
    ensures r.1 < CYCLE
    ensures t >= 0 - CYCLE ==> r == (0, CYCLE + t)
  {
    var back := 0 - t - 1;
    var (cycles, beforeEnd) := Split(back, CYCLE);
    assert back < CYCLE ==> cycles == 0 && beforeEnd == back by {
      if back < CYCLE { NoFullCycle(back, CYCLE); }
    }
    (cycles, CYCLE - 1 - beforeEnd)
  }

  /** The civil time of an instant before year 0, its year counted backwards: year -y has year y. */
  function BackCivil(t: Instant): Civil
    requires t < 0
  {
    var (cycles, inCycle) := CyclesBack(t);
    WithinCycle(inCycle);
    var c := CivilOf(inCycle);
    c.(year := 400 * (cycles + 1) - c.year)
  }

  /** formatStoredTime. A year before year 0 is written with a sign. */
  function Format(t: Instant): string {
    if t >= 0 then Text(CivilOf(t)) else "-" + Text(BackCivil(t))
  }

  lemma FieldOrder(a: nat, b: nat, w: nat, separator: char, x: string, y: string)
    requires a < Pow10(w) && b < Pow10(w)
    ensures Less(Field(a, w, separator, x), Field(b, w, separator, y)) <==> a < b || (a == b && Less(x, y))
  {
    DigitsOrder(a, b, w);
    FieldByField([separator], [separator], x, y);
    FieldByField(Digits(a, w), Digits(b, w), [separator] + x, [separator] + y);
    assert Field(a, w, separator, x) == Digits(a, w) + ([separator] + x);
    assert Field(b, w, separator, y) == Digits(b, w) + ([separator] + y);
    Irreflexive([separator]);
  }

  lemma Widths()
    ensures Pow10(2) == 100 && Pow10(4) == 10_000 && Pow10(9) == SECOND
  {
    assert Pow10(5) == 100_000;
  }

  lemma ClockTextOrder(c: Civil, d: Civil)
    requires Valid(c) && Valid(d)
    ensures Less(ClockText(c), ClockText(d)) <==> ClockBefore(c, d)
  {
    Widths();
    var nc, nd := Field(c.nano, 9, 'Z', ""), Field(d.nano, 9, 'Z', "");
    var sc, sd := Field(c.second, 2, '.', nc), Field(d.second, 2, '.', nd);
    var mc, md := Field(c.minute, 2, ':', sc), Field(d.minute, 2, ':', sd);
    FieldOrder(c.nano, d.nano, 9, 'Z', "", "");
    FieldOrder(c.second, d.second, 2, '.', nc, nd);
    FieldOrder(c.minute, d.minute, 2, ':', sc, sd);
    FieldOrder(c.hour, d.hour, 2, ':', mc, md);
  }

  lemma TextOrder(c: Civil, d: Civil)
    requires Valid(c) && Valid(d) && c.year < 10_000 && d.year < 10_000
    ensures Less(Text(c), Text(d)) <==> Before(c, d)
  {
    Widths();
    var kc, kd := ClockText(c), ClockText(d);
    var dc, dd := Field(c.day, 2, 'T', kc), Field(d.day, 2, 'T', kd);
    var mc, md := Field(c.month, 2, '-', dc), Field(d.month, 2, '-', dd);
    ClockTextOrder(c, d);
    FieldOrder(c.day, d.day, 2, 'T', kc, kd);
    FieldOrder(c.month, d.month, 2, '-', dc, dd);
    FieldOrder(c.year, d.year, 4, '-', mc, md);
  }

  /** The first instant whose year needs five digits. */
  const END: Instant := YearStart(10_000) * DAY

  lemma YearsAndDays(c: Civil, year: nat)
    requires Valid(c)
    ensures c.year < year <==> DayOf(c) < YearStart(year)
  {
    DayIsInItsYear(c);
    if c.year < year {
      LaterYear(c.year, year);
    } else if c.year > year {
      LaterYear(year, c.year);
      YearLength(year);
    }
  }

  lemma DaysAndInstants(c: Civil, day: int)
    requires Valid(c)
    ensures DayOf(c) < day <==> InstantOf(c) < day * DAY
  {
    ClockFitsInADay(c);
    if DayOf(c) < day {
      assert (DayOf(c) + 1) * DAY <= day * DAY;
    } else {
      assert DayOf(c) * DAY >= day * DAY;
    }
  }

  lemma YearsAndInstants(t: Instant, year: nat)
    requires t >= 0
    ensures CivilOf(t).year < year <==> t < YearStart(year) * DAY
  {
    YearsAndDays(CivilOf(t), year);
    DaysAndInstants(CivilOf(t), YearStart(year));
  }

  /** Through year 9999, text order is chronological order. */
  lemma TextOrderIsTimeOrder(t: Instant, u: Instant)
    requires 0 <= t < END && 0 <= u < END
    ensures Less(Format(t), Format(u)) <==> t < u
    ensures Format(t) == Format(u) <==> t == u
    ensures AtMost(Format(t), Format(u)) <==> t <= u
  {
    YearsAndInstants(t, 10_000);
    YearsAndInstants(u, 10_000);
    TextOrder(CivilOf(t), CivilOf(u));
    TextOrder(CivilOf(u), CivilOf(t));
    OrderedByFields(t, u);
    OrderedByFields(u, t);
    Irreflexive(Format(t));
  }

  /** The cutoff of a comparison may even lie before year 0. */
  lemma CutoffOrder(cutoff: Instant, t: Instant)
    requires cutoff < END && 0 <= t < END
    ensures AtMost(Format(t), Format(cutoff)) <==> t <= cutoff
  {
    if cutoff >= 0 {
      TextOrderIsTimeOrder(t, cutoff);
    } else {
      SignSortsFirst(CivilOf(t), Format(cutoff));
    }
  }

  lemma SignSortsFirst(c: Civil, signed: string)
    requires signed != "" && signed[0] == '-'
    ensures Less(signed, Text(c)) && !AtMost(Text(c), signed)
  {
    var w := YearWidth(c.year);
    DigitsAreDigits(c.year, w);
    assert Text(c)[0] == Digits(c.year, w)[0];
  }

  ghost predicate SortsChronologically(lo: Instant, hi: Instant) {
    forall t: Instant, u: Instant | lo <= t < hi && lo <= u < hi :: Less(Format(t), Format(u)) <==> t < u
  }

  // ---------------------------------------------------------------------------
  // Year -1
  // ---------------------------------------------------------------------------

  /** The first instant of year -1, which has no leap day. */
  const BEGIN: Instant := 0 - 365 * DAY

  lemma BackInOneCycle(t: Instant, inCycle: Instant)
    requires 0 <= inCycle < CYCLE && t == inCycle - CYCLE
    ensures CivilOf(inCycle).year < 400
    ensures BackCivil(t) == CivilOf(inCycle).(year := 400 - CivilOf(inCycle).year)
  {
    WithinCycle(inCycle);
  }

  lemma CycleEnds()
    ensures YearStart(399) * DAY == CYCLE + BEGIN && YearStart(400) * DAY == CYCLE
  {
    assert YearStart(399) == 145_732 && YearStart(400) == 146_097;
  }

  lemma YearMinusOne(t: Instant, inCycle: Instant)
    requires BEGIN <= t < 0 && inCycle == CYCLE + t
    ensures inCycle >= 0 && CivilOf(inCycle).year == 399 && BackCivil(t) == CivilOf(inCycle).(year := 1)
  {
    CycleEnds();
    BackInOneCycle(t, inCycle);
    YearsBound(inCycle, 399);
  }

  lemma YearAlone(c: Civil, d: Civil)
    requires Valid(c) && Valid(d) && c.year == d.year == 399
    ensures Less(Text(c.(year := 1)), Text(d.(year := 1))) <==> Before(c, d)
  {
    TextOrder(c.(year := 1), d.(year := 1));
  }

  lemma SignedOrder(c: Civil, d: Civil)
    ensures Less("-" + Text(c), "-" + Text(d)) <==> Less(Text(c), Text(d))
  {
    FieldByField("-", "-", Text(c), Text(d));
    Irreflexive("-");
  }

  lemma YearMinusOneSorts(t: Instant, u: Instant, tc: Instant, uc: Instant)
    requires BEGIN <= t < 0 && BEGIN <= u < 0 && tc == CYCLE + t && uc == CYCLE + u
    ensures Less(Format(t), Format(u)) <==> t < u
  {
    YearMinusOne(t, tc);
    YearMinusOne(u, uc);
    YearAlone(CivilOf(tc), CivilOf(uc));
    SignedOrder(BackCivil(t), BackCivil(u));
    OrderedByFields(tc, uc);
  }

  /** From year -1 through year 9999, text order is chronological order. */
  lemma TextOrderSinceYearMinusOne(t: Instant, u: Instant)
    requires BEGIN <= t < END && BEGIN <= u < END
    ensures Less(Format(t), Format(u)) <==> t < u
  {
    if t >= 0 && u >= 0 {
      TextOrderIsTimeOrder(t, u);
    } else if t < 0 && u < 0 {
      YearMinusOneSorts(t, u, CYCLE + t, CYCLE + u);
    } else if t < 0 {
      SignSortsFirst(CivilOf(u), Format(t));
    } else {
      SignSortsFirst(CivilOf(t), Format(u));
    }
  }

  /** The end of year -2 is written with the larger number, so it sorts after the beginning of year -1. */
  lemma YearMinusTwoMisorders(last: Instant, inCycle: Instant)
    requires last + 1 == BEGIN && inCycle == CYCLE + last
    ensures Less(Format(last + 1), Format(last))
  {
    CycleEnds();
    LastOfYear(inCycle, 398);
    BackInOneCycle(last, inCycle);
    YearMinusOne(last + 1, inCycle + 1);
    SignedOrder(BackCivil(last + 1), BackCivil(last));
    YearDecides(BackCivil(last + 1), BackCivil(last));
  }

  lemma YearDecides(c: Civil, d: Civil)
    requires c.year < d.year < 10_000
    ensures Less(Text(c), Text(d))
  {
    Widths();
    FieldOrder(c.year, d.year, 4, '-',
      Field(c.month, 2, '-', Field(c.day, 2, 'T', ClockText(c))),
      Field(d.month, 2, '-', Field(d.day, 2, 'T', ClockText(d))));
  }

  // ---------------------------------------------------------------------------
  // Year 10000
  // ---------------------------------------------------------------------------

  lemma YearsBound(t: Instant, year: nat)
    requires t >= 0 && YearStart(year) * DAY <= t < YearStart(year + 1) * DAY
    ensures CivilOf(t).year == year
  {
    YearsAndInstants(t, year);
    YearsAndInstants(t, year + 1);
  }

  lemma LaterDay(day: nat, later: nat)
    requires day < later
    ensures 0 <= day * DAY && day * DAY + DAY <= later * DAY
  {
  }

  lemma YearGrows(year: nat)
    ensures YearStart(year) < YearStart(year + 1)
    ensures 0 <= YearStart(year) * DAY < YearStart(year + 1) * DAY
  {
    YearLength(year);
    LaterDay(YearStart(year), YearStart(year + 1));
  }

  lemma LastOfYear(t: Instant, year: nat)
    requires t + 1 == YearStart(year + 1) * DAY
    ensures t >= 0 && CivilOf(t).year == year
  {
    YearGrows(year);
    YearsBound(t, year);
  }

  lemma FirstOfYear(t: Instant, year: nat)
    requires t == YearStart(year) * DAY
    ensures t >= 0 && CivilOf(t).year == year
  {
    YearGrows(year);
    YearsBound(t, year);
  }

  lemma LastInstantAndNext(last: Instant)
    requires last + 1 == END
    ensures last >= 0 && Less(Format(last + 1), Format(last))
  {
    LastOfYear(last, 9999);
    FirstOfYear(last + 1, 10_000);
    FiveDigitYears(CivilOf(last), CivilOf(last + 1));
  }

  /** Around year 0 the layout sorts chronologically from the start of year -1 to the end of year 9999,
      and no further on either side: one instant earlier the sign turns the years around, one instant
      later the fifth digit sorts before its predecessors. */
  lemma SortsExactlyThroughYear9999(lo: Instant, hi: Instant)
    requires lo <= 0 < hi
    ensures SortsChronologically(lo, hi) <==> BEGIN <= lo && hi <= END
  {
    if BEGIN <= lo && hi <= END {
      forall t: Instant, u: Instant | lo <= t < hi && lo <= u < hi
        ensures Less(Format(t), Format(u)) <==> t < u
      {
        TextOrderSinceYearMinusOne(t, u);
      }
    } else if hi > END {
      var last: Instant :| last == END - 1;
      LastInstantAndNext(last);
    } else {
      var last: Instant :| last == BEGIN - 1;
      YearMinusTwoMisorders(last, CYCLE + last);
    }
  }

  lemma FiveDigits(n: nat)
    requires 10_000 <= n < 100_000
    ensures YearWidth(n) == 5
  {
    FourDigits();
    assert Pow10(5) == 10 * Pow10(4);
    assert WidthFrom(n, 5) == 5;
    assert WidthFrom(n, 4) == WidthFrom(n, 5);
  }

  /** A number of five digits against one of four, whatever follows: when its first four digits tie, its
      fifth sorts after the separator. */
  lemma FiveAgainstFour(high: nat, last: char, four: nat, x: string, y: string)
    requires high < Pow10(4) && four < Pow10(4) && last > '-'
    ensures Less(Digits(high, 4) + ([last] + y), Digits(four, 4) + (['-'] + x)) <==> high < four
    ensures Digits(high, 4) + ([last] + y) != Digits(four, 4) + (['-'] + x)
  {
    DigitsOrder(high, four, 4);
    FieldByField(Digits(high, 4), Digits(four, 4), [last] + y, ['-'] + x);
    assert !Less([last] + y, ['-'] + x);
    var a, b := Digits(high, 4) + ([last] + y), Digits(four, 4) + (['-'] + x);
    assert a[4] == last && b[4] == '-';
  }

  function AfterYear(c: Civil): string {
    Field(c.month, 2, '-', Field(c.day, 2, 'T', ClockText(c)))
  }

  lemma FourDigitText(c: Civil)
    requires c.year < 10_000
    ensures Text(c) == Digits(c.year, 4) + (['-'] + AfterYear(c))
  {
  }

  lemma FiveDigitText(d: Civil)
    requires 10_000 <= d.year < 100_000
    ensures Text(d) == Digits(d.year / 10, 4) + ([Digit(d.year % 10)] + (['-'] + AfterYear(d)))
  {
    FiveDigits(d.year);
  }

  /** Beyond, a five-digit year sorts as its first four digits do. */
  lemma FiveDigitYears(c: Civil, d: Civil)
    requires c.year < 10_000 <= d.year < 100_000
    ensures Less(Text(d), Text(c)) <==> d.year / 10 < c.year
    ensures Text(d) != Text(c)
  {
    FourDigits();
    FourDigitText(c);
    FiveDigitText(d);
    FiveAgainstFour(d.year / 10, Digit(d.year % 10), c.year, AfterYear(c), ['-'] + AfterYear(d));
  }

  /** So a bound in a five-digit year admits the years up to its first four digits, and no later one. */
  lemma LateBound(t: Instant, bound: Instant)
    requires 0 <= t < END && bound >= 0 && 10_000 <= CivilOf(bound).year < 100_000
    ensures AtMost(Format(t), Format(bound)) <==> CivilOf(t).year <= CivilOf(bound).year / 10
  {
    YearsAndInstants(t, 10_000);
    FiveDigitYears(CivilOf(t), CivilOf(bound));
    Total(Format(t), Format(bound));
    if Less(Format(t), Format(bound)) && Less(Format(bound), Format(t)) {
      Transitive(Format(t), Format(bound), Format(t));
      Irreflexive(Format(t));
    }
  }

  /** A bound before year 0 lies before every time from year 0 on. */
  lemma EarlyBound(bound: Instant, t: Instant)
    requires bound < 0 <= t
    ensures Less(Format(bound), Format(t)) && !AtMost(Format(t), Format(bound))
  {
    SignSortsFirst(CivilOf(t), Format(bound));
  }

  // ---------------------------------------------------------------------------
  // Reading it back
  // ---------------------------------------------------------------------------

  function DigitValue(ch: char): Option<nat> {
    if '0' <= ch <= '9' then Some((ch - '0') as int) else None
  }

  function Number(s: string): (n: Option<nat>) {
    if s == "" then Some(0)
    else
      var high, low := Number(s[..|s| - 1]), DigitValue(s[|s| - 1]);
      if high.Some? && low.Some? then Some(10 * high.value + low.value) else None
  }

  datatype Read = Read(value: nat, rest: string)

  /** One field of exactly `w` digits and its separator. */
  function ReadField(s: string, w: nat, separator: char): Option<Read> {
    if |s| <= w || s[w] != separator then None
    else
      var n := Number(s[..w]);
      if n.Some? then Some(Read(n.value, s[w + 1..])) else None
  }

  function ReadClock(s: string): Option<(int, int, int, int)> {
    var h := ReadField(s, 2, ':');
    if h.None? then None else
    var m := ReadField(h.value.rest, 2, ':');
    if m.None? then None else
    var sec := ReadField(m.value.rest, 2, '.');
    if sec.None? then None else
    var n := ReadField(sec.value.rest, 9, 'Z');
    if n.None? || n.value.rest != "" then None
    else Some((h.value.value, m.value.value, sec.value.value, n.value.value))
  }

  function ReadCivil(s: string): Option<Civil> {
    var y := ReadField(s, 4, '-');
    if y.None? then None else
    var m := ReadField(y.value.rest, 2, '-');
    if m.None? then None else
    var d := ReadField(m.value.rest, 2, 'T');
    if d.None? then None else
    var k := ReadClock(d.value.rest);
    if k.None? then None
    else Some(Civil(y.value.value, m.value.value, d.value.value, k.value.0, k.value.1, k.value.2, k.value.3))
  }

  /** parseStoredTime: a well-formed text naming a time that exists. */
  function Parse(s: string): Option<Instant> {
    var c := ReadCivil(s);
    if c.Some? && Valid(c.value) then Some(InstantOf(c.value)) else None
  }

  lemma {:induction false} NumberReadsDigits(n: nat, w: nat)
    requires n < Pow10(w)
    ensures Number(Digits(n, w)) == Some(n)
  {
    if w > 0 {
      NumberReadsDigits(n / 10, w - 1);
      var s := Digits(n, w);
      assert s[..w - 1] == Digits(n / 10, w - 1) && s[w - 1] == Digit(n % 10);
    }
  }

  lemma FieldReadsBack(n: nat, w: nat, separator: char, rest: string)
    requires n < Pow10(w)
    ensures ReadField(Field(n, w, separator, rest), w, separator) == Some(Read(n, rest))
  {
    NumberReadsDigits(n, w);
    var s := Field(n, w, separator, rest);
    assert s[..w] == Digits(n, w) && s[w] == separator && s[w + 1..] == rest;
  }

  lemma ClockReadsBack(c: Civil)
    requires Valid(c)
    ensures ReadClock(ClockText(c)) == Some((c.hour, c.minute, c.second, c.nano))
  {
    Widths();
    var n := Field(c.nano, 9, 'Z', "");
    var s := Field(c.second, 2, '.', n);
    var m := Field(c.minute, 2, ':', s);
    FieldReadsBack(c.nano, 9, 'Z', "");
    FieldReadsBack(c.second, 2, '.', n);
    FieldReadsBack(c.minute, 2, ':', s);
    FieldReadsBack(c.hour, 2, ':', m);
  }

  lemma ReadsBack(t: Instant)
    requires 0 <= t < END
    ensures Parse(Format(t)) == Some(t)
  {
    YearsAndInstants(t, 10_000);
    var c := CivilOf(t);
    Widths();
    ClockReadsBack(c);
    var d := Field(c.day, 2, 'T', ClockText(c));
    var m := Field(c.month, 2, '-', d);
    FieldReadsBack(c.day, 2, 'T', ClockText(c));
    FieldReadsBack(c.month, 2, '-', d);
    FieldReadsBack(c.year, 4, '-', m);
    assert ReadCivil(Text(c)) == Some(c);
  }

  lemma {:induction false} DigitsAreDigits(n: nat, w: nat)
    ensures forall i | 0 <= i < w :: '0' <= Digits(n, w)[i] <= '9'
  {
    if w > 0 { DigitsAreDigits(n / 10, w - 1); }
  }

  lemma LongYearIsRefused(c: Civil)
    requires c.year >= 10_000
    ensures Parse(Text(c)) == None
  {
    FourDigits();
    var w := YearWidth(c.year);
    assert w > 4;
    DigitsAreDigits(c.year, w);
    assert Text(c)[4] == Digits(c.year, w)[4];
  }

  lemma {:induction false} SignIsNoNumber(s: string)
    requires s != "" && s[0] == '-'
    ensures Number(s) == None
  {
    if |s| > 1 { SignIsNoNumber(s[..|s| - 1]); }
  }

  /** Go's zero time.Time, which stands for an absent stamp: the start of year 1. */
  const ZERO_TIME: Instant := YearStart(1) * DAY

  /** An absent stamp is stored and read back like any other time. */
  lemma ZeroTimeReadsBack(zero: Instant)
    requires zero == ZERO_TIME
    ensures 0 <= zero < END && Parse(Format(zero)) == Some(zero)
  {
    YearOneIsInRange();
    ReadsBack(zero);
  }

  lemma YearOneIsInRange()
    ensures 0 <= ZERO_TIME < END
  {
    assert YearStart(1) == 366 && YearStart(10_000) == 3_652_425;
  }

  lemma SignedIsRefused(s: string)
    requires s != "" && s[0] == '-'
    ensures Parse(s) == None
  {
    if |s| > 4 { SignIsNoNumber(s[..4]); }
  }

  /** A stored time reads back as the instant it was written for, to the nanosecond, exactly for years
      0 to 9999; any other is refused. */
  lemma ParseInvertsFormat(t: Instant)
    ensures Parse(Format(t)) == if 0 <= t < END then Some(t) else None
  {
    if t < 0 {
      SignedIsRefused(Format(t));
    } else if t < END {
      ReadsBack(t);
    } else {
      YearsAndInstants(t, 10_000);
      LongYearIsRefused(CivilOf(t));
    }
  }
}
