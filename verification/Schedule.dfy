/** When a report runs next (server/api_reports.go, server/reports/scheduler.go).

    Instants are numbers of nanoseconds since the beginning of year 0; a time zone
    is a fixed offset. Days and months are counted from the same beginning, in the
    Gregorian calendar. */
module Schedule {
  const MINUTE := 60_000_000_000
  const HOUR := 3_600_000_000_000
  const DAY := 86_400_000_000_000

  datatype Frequency = Daily | Weekly | Monthly | Other

  /** hour and minute are what scanning the schedule's time of day yields. */
  datatype Schedule = Schedule(frequency: Frequency, hour: int, minute: int, dayOfWeek: int, dayOfMonth: int)

  // ----- the calendar -----

  predicate Leap(year: int) {
    year % 4 == 0 && (year % 100 != 0 || year % 400 == 0)
  }

  /** Months are numbered through: month k is month k % 12 + 1 of year k / 12. */
  function DaysIn(k: int): (n: int)
    ensures 28 <= n <= 31
  {
    var m := k % 12;
    if m == 1 then if Leap(k / 12) then 29 else 28
    else if m == 3 || m == 5 || m == 8 || m == 10 then 30
    else 31
  }

  /** The first day of a month. */
  function MonthStart(k: int): int
    decreases if k < 0 then -k else k
  {
    if k == 0 then 0
    else if k > 0 then MonthStart(k - 1) + DaysIn(k - 1)
    else MonthStart(k + 1) - DaysIn(k)
  }

  lemma MonthStartNext(k: int)
    ensures MonthStart(k + 1) == MonthStart(k) + DaysIn(k)
  {
  }

  predicate InMonth(d: int, k: int) {
    MonthStart(k) <= d < MonthStart(k) + DaysIn(k)
  }

  function FindMonth(d: int, from: int): (k: int)
    ensures InMonth(d, k)
    decreases d < MonthStart(from), if d < MonthStart(from) then MonthStart(from) - d else d - MonthStart(from)
  {
    MonthStartNext(from);
    MonthStartNext(from - 1);
    if d < MonthStart(from) then FindMonth(d, from - 1)
    else if d >= MonthStart(from) + DaysIn(from) then FindMonth(d, from + 1)
    else from
  }

  function MonthOf(d: int): (k: int)
    ensures InMonth(d, k)
  {
    FindMonth(d, d / 31)
  }

  function DayOfMonth(d: int): (n: int)
    ensures 1 <= n <= DaysIn(MonthOf(d))
  {
    d - MonthStart(MonthOf(d)) + 1
  }

  /** Sunday is 0; the first day of year 0 was a Saturday. */
  function Weekday(d: int): (w: int)
    ensures 0 <= w < 7
  {
    (d + 6) % 7
  }

  // ----- the calendar is the Gregorian one -----

  /** Each day has the weekday after that of the day before, from Saturday on to
      Sunday again. */
  lemma WeekdaysFollow(d: int)
    ensures Weekday(d + 1) == if Weekday(d) == 6 then 0 else Weekday(d) + 1
    ensures Weekday(d + 7) == Weekday(d)
  {
  }

  /** The lengths of the twelve months of a year. */
  lemma MonthLengths(y: int)
    ensures DaysIn(12 * y) == 31 && DaysIn(12 * y + 2) == 31 && DaysIn(12 * y + 3) == 30 && DaysIn(12 * y + 4) == 31
    ensures DaysIn(12 * y + 5) == 30 && DaysIn(12 * y + 6) == 31 && DaysIn(12 * y + 7) == 31 && DaysIn(12 * y + 8) == 30
    ensures DaysIn(12 * y + 9) == 31 && DaysIn(12 * y + 10) == 30 && DaysIn(12 * y + 11) == 31
    ensures DaysIn(12 * y + 1) == if y % 4 == 0 && (y % 100 != 0 || y % 400 == 0) then 29 else 28
  {
    hide DaysIn;
    MonthLength(y, 0);
    MonthLength(y, 1);
    MonthLength(y, 2);
    MonthLength(y, 3);
    MonthLength(y, 4);
    MonthLength(y, 5);
    MonthLength(y, 6);
    MonthLength(y, 7);
    MonthLength(y, 8);
    MonthLength(y, 9);
    MonthLength(y, 10);
    MonthLength(y, 11);
  }

  lemma MonthLength(y: int, m: int)
    requires 0 <= m < 12
    ensures DaysIn(12 * y + m) ==
            if m == 1 then (if Leap(y) then 29 else 28) else if m == 3 || m == 5 || m == 8 || m == 10 then 30 else 31
  {
    assert (12 * y + m) % 12 == m && (12 * y + m) / 12 == y;
  }

  function YearStart(y: int): int {
    MonthStart(12 * y)
  }

  /** A year has 366 days if it is divisible by 4 and not by 100, or by 400, and
      365 otherwise. */
  lemma YearLength(y: int)
    ensures YearStart(y + 1) - YearStart(y) == if y % 4 == 0 && (y % 100 != 0 || y % 400 == 0) then 366 else 365
  {
    hide DaysIn, MonthStart;
    var k := 12 * y;
    MonthLengths(y);
    MonthStartNext(k);
    MonthStartNext(k + 1);
    MonthStartNext(k + 2);
    MonthStartNext(k + 3);
    MonthStartNext(k + 4);
    MonthStartNext(k + 5);
    MonthStartNext(k + 6);
    MonthStartNext(k + 7);
    MonthStartNext(k + 8);
    MonthStartNext(k + 9);
    MonthStartNext(k + 10);
    MonthStartNext(k + 11);
    assert 12 * (y + 1) == k + 12;
  }

  /** The leap years from year 0 up to y. */
  function LeapYears(y: int): int {
    (y + 3) / 4 - (y + 99) / 100 + (y + 399) / 400
  }

  lemma LeapYearsNext(y: int)
    ensures LeapYears(y + 1) == LeapYears(y) + if y % 4 == 0 && (y % 100 != 0 || y % 400 == 0) then 1 else 0
  {
    By4(y);
    By100(y);
    By400(y);
  }

  lemma By4(y: int)
    ensures (y + 4) / 4 == (y + 3) / 4 + if y % 4 == 0 then 1 else 0
  {
  }

  lemma By100(y: int)
    ensures (y + 100) / 100 == (y + 99) / 100 + if y % 100 == 0 then 1 else 0
    ensures y % 100 == 0 ==> y % 4 == 0
  {
  }

  lemma By400(y: int)
    ensures (y + 400) / 400 == (y + 399) / 400 + if y % 400 == 0 then 1 else 0
    ensures y % 400 == 0 ==> y % 100 == 0
  {
  }

  lemma {:induction false} YearStartValue(y: nat)
    ensures YearStart(y) == 365 * y + LeapYears(y)
  {
    hide LeapYears, YearStart;
    if y == 0 {
      YearZero();
    } else {
      YearStartValue(y - 1);
      YearLength(y - 1);
      LeapYearsNext(y - 1);
    }
  }

  lemma YearZero()
    ensures YearStart(0) == 0 && LeapYears(0) == 0
  {
  }

  lemma {:induction false} YearsFrom(y: int, n: nat)
    ensures YearStart(y + n) - YearStart(y) == 365 * n + LeapYears(y + n) - LeapYears(y)
  {
    hide LeapYears, YearStart;
    if n > 0 {
      YearsFrom(y, n - 1);
      YearLength(y + n - 1);
      LeapYearsNext(y + n - 1);
      assert y + n == y + n - 1 + 1;
    }
  }

  /** Any 400 years have 146097 days, a whole number of weeks. */
  lemma FourCenturies(y: int)
    ensures YearStart(y + 400) - YearStart(y) == 146097 && 146097 % 7 == 0
  {
    hide YearStart;
    YearsFrom(y, 400);
    assert LeapYears(y + 400) == LeapYears(y) + 97;
  }

  /** The first of January 2000 was day 730485, a Saturday. */
  lemma NewYear2000(y: int)
    requires y == 2000
    ensures YearStart(y) == 730485 && Weekday(YearStart(y)) == 6
  {
    hide YearStart;
    YearStartValue(y);
  }

  /** A clock shows hour and minute exactly if these are what divides the instant. */
  lemma ShowsTimeIff(x: int, hour: int, minute: int)
    ensures ShowsTime(x, hour, minute) <==>
              x % 60_000_000_000 == 0 && x / 60_000_000_000 % 60 == minute && x / 3_600_000_000_000 % 24 == hour
  {
    ClockParts(x);
    if ShowsTime(x, hour, minute) {
      ClockOf(DayOf(x), hour, minute);
    }
  }

  lemma ClockParts(x: int)
    ensures var d, h, m, r := DayOf(x), x / HOUR % 24, x / MINUTE % 60, x % MINUTE;
            x == d * DAY + h * HOUR + m * MINUTE + r && 0 <= h < 24 && 0 <= m < 60
  {
    Nested(x / MINUTE, x);
  }

  lemma Nested(n: int, x: int)
    requires n == x / MINUTE
    ensures x / HOUR == n / 60 && x / DAY == n / 1440 && n / 1440 == n / 60 / 24
    ensures n == n / 60 * 60 + n % 60 && n / 60 == n / 1440 * 24 + n / 60 % 24
  {
  }

  lemma ClockOf(d: int, hour: int, minute: int)
    requires ValidTime(hour, minute)
    ensures var x := At(d, hour, minute); x % MINUTE == 0 && x / MINUTE % 60 == minute && x / HOUR % 24 == hour
  {
    var x := At(d, hour, minute);
    var n := d * 1440 + hour * 60 + minute;
    assert x == n * MINUTE;
    assert x / MINUTE == n;
    Nested(n, x);
    assert n / 60 == d * 24 + hour && n % 60 == minute;
  }

  lemma {:induction false} MonthsAreOrdered(j: int, k: int)
    requires j < k
    ensures MonthStart(j) + DaysIn(j) <= MonthStart(k)
    decreases k - j
  {
    MonthStartNext(k - 1);
    if j < k - 1 {
      MonthsAreOrdered(j, k - 1);
    }
  }

  lemma MonthIsUnique(d: int, k: int)
    requires InMonth(d, k)
    ensures MonthOf(d) == k
  {
    if MonthOf(d) < k {
      MonthsAreOrdered(MonthOf(d), k);
    } else if k < MonthOf(d) {
      MonthsAreOrdered(k, MonthOf(d));
    }
  }

  function DayOf(x: int): (d: int)
    ensures d * DAY <= x < (d + 1) * DAY
  {
    x / DAY
  }

  function At(d: int, hour: int, minute: int): int {
    d * DAY + hour * HOUR + minute * MINUTE
  }

  predicate ValidTime(hour: int, minute: int) {
    0 <= hour < 24 && 0 <= minute < 60
  }

  lemma DayIsUnique(x: int, d: int)
    requires d * DAY <= x < (d + 1) * DAY
    ensures DayOf(x) == d
  {
  }

  lemma DayOfAt(d: int, hour: int, minute: int)
    requires ValidTime(hour, minute)
    ensures DayOf(At(d, hour, minute)) == d
  {
    DayIsUnique(At(d, hour, minute), d);
  }

  // ----- the calculation, on the zone's own clock -----

  /** Go's %, which has the sign of its first operand. */
  function GoMod(a: int, n: int): int
    requires n > 0
  {
    if a >= 0 then a % n else -((-a) % n)
  }

  /** time.AddDate(0, 1, 0): the same day number a month on, with any excess
      running over into the month after. */
  function AddMonth(x: int): int {
    var d := DayOf(x);
    (MonthStart(MonthOf(d) + 1) + DayOfMonth(d) - 1) * DAY + (x - d * DAY)
  }

  /** `bound` is the earliest instant that will do: now, or just after now. */
  function LocalNext(s: Schedule, now: int, bound: int): int {
    match s.frequency
    case Daily =>
      var next := At(DayOf(now), s.hour, s.minute);
      if next < bound then next + DAY else next
    case Weekly =>
      var next := At(DayOf(now), s.hour, s.minute);
      var days := GoMod(s.dayOfWeek - Weekday(DayOf(next)) + 7, 7);
      next + (if days == 0 && next < bound then 7 else days) * DAY
    case Monthly =>
      var next := At(MonthStart(MonthOf(DayOf(now))) + s.dayOfMonth - 1, s.hour, s.minute);
      if next < bound then AddMonth(next) else next
    case Other => now + DAY
  }

  /** The first run of a new schedule, which may be now. */
  function InitialRun(s: Schedule, now: int, offset: int): int {
    LocalNext(s, now + offset, now + offset) - offset
  }

  /** The run after the one that has just ended, which may not be now. */
  function FollowingRun(s: Schedule, now: int, offset: int): int {
    LocalNext(s, now + offset, now + offset + 1) - offset
  }

  // ----- what a schedule asks for -----

  predicate ShowsTime(x: int, hour: int, minute: int) {
    ValidTime(hour, minute) && x == At(DayOf(x), hour, minute)
  }

  /** On the zone's clock and calendar, instant `x` is one the schedule names. */
  predicate LocallyNamed(s: Schedule, x: int) {
    && ShowsTime(x, s.hour, s.minute)
    && match s.frequency
       case Daily => true
       case Weekly => Weekday(DayOf(x)) == s.dayOfWeek
       case Monthly => DayOfMonth(DayOf(x)) == s.dayOfMonth
       case Other => false
  }

  ghost predicate LocallyLeast(s: Schedule, x: int, bound: int) {
    LocallyNamed(s, x) && x >= bound && forall y | LocallyNamed(s, y) && y >= bound :: x <= y
  }

  predicate Named(s: Schedule, x: int, offset: int) {
    LocallyNamed(s, x + offset)
  }

  ghost predicate Least(s: Schedule, x: int, bound: int, offset: int) {
    Named(s, x, offset) && x >= bound && forall y | Named(s, y, offset) && y >= bound :: x <= y
  }

  predicate AtTime(x: int, hour: int, minute: int) {
    x % 60_000_000_000 == 0 && x / 60_000_000_000 % 60 == minute && x / 3_600_000_000_000 % 24 == hour
  }

  /** The instants a weekly schedule names: those on its clock's hour and minute, so
      many days after Saturday the first of January 2000 as its weekday is after
      Saturday, or whole weeks more or less. */
  lemma WeeklyNames(s: Schedule, x: int, offset: int)
    requires s.frequency == Weekly
    ensures Named(s, x, offset) <==>
              && AtTime(x + offset, s.hour, s.minute) && 0 <= s.dayOfWeek <= 6
              && ((x + offset) / 86_400_000_000_000 - 730485) % 7 == (s.dayOfWeek + 1) % 7
  {
    ShowsTimeIff(x + offset, s.hour, s.minute);
    WeekdayFrom2000(DayOf(x + offset), s.dayOfWeek);
  }

  lemma WeekdayFrom2000(d: int, w: int)
    ensures Weekday(d) == w <==> 0 <= w <= 6 && (d - 730485) % 7 == (w + 1) % 7
  {
  }

  lemma DailyNames(s: Schedule, x: int, offset: int)
    requires s.frequency == Daily
    ensures Named(s, x, offset) <==> AtTime(x + offset, s.hour, s.minute)
  {
    ShowsTimeIff(x + offset, s.hour, s.minute);
  }

  /** A monthly schedule names the day that comes dayOfMonth - 1 days after the
      first of a month that has it. */
  lemma MonthlyNames(s: Schedule, x: int, offset: int)
    requires s.frequency == Monthly
    ensures Named(s, x, offset) <==>
              && AtTime(x + offset, s.hour, s.minute)
              && exists k: int :: (x + offset) / 86_400_000_000_000 == MonthStart(k) + s.dayOfMonth - 1
                                  && 1 <= s.dayOfMonth <= DaysIn(k)
  {
    hide MonthStart, DaysIn, DayOfMonth, MonthOf;
    ShowsTimeIff(x + offset, s.hour, s.minute);
    var d := DayOf(x + offset);
    DayInItsMonth(d);
    forall k: int | d == MonthStart(k) + s.dayOfMonth - 1 && 1 <= s.dayOfMonth <= DaysIn(k)
      ensures DayOfMonth(d) == s.dayOfMonth
    {
      DayOfMonthAfter(k, s.dayOfMonth);
    }
  }

  lemma DayInItsMonth(d: int)
    ensures d == MonthStart(MonthOf(d)) + DayOfMonth(d) - 1 && 1 <= DayOfMonth(d) <= DaysIn(MonthOf(d))
  {
  }

  lemma LeastIsLocal(s: Schedule, x: int, bound: int, offset: int)
    ensures Least(s, x, bound, offset) <==> LocallyLeast(s, x + offset, bound + offset)
  {
    if Least(s, x, bound, offset) {
      forall y | LocallyNamed(s, y) && y >= bound + offset ensures x + offset <= y {
        assert Named(s, y - offset, offset);
      }
    }
  }

  // ----- daily and weekly -----

  lemma DailyIsLeast(s: Schedule, now: int, bound: int)
    requires s.frequency == Daily && ValidTime(s.hour, s.minute) && now <= bound <= now + 1
    ensures LocallyLeast(s, LocalNext(s, now, bound), bound)
  {
    var d := DayOf(now);
    DayOfAt(d, s.hour, s.minute);
    DayOfAt(d + 1, s.hour, s.minute);
  }

  lemma WeekdayAfter(d: int, e: int, days: int)
    requires e >= d && 0 <= days < 7 && (Weekday(d) + days) % 7 == Weekday(e)
    ensures e >= d + days && (e > d && days == 0 ==> e >= d + 7)
  {
  }

  lemma WeekdayOfTarget(d: int, target: int)
    requires 0 <= target < 7
    ensures var days := GoMod(target - Weekday(d) + 7, 7);
            0 <= days < 7 && (Weekday(d) + days) % 7 == target && Weekday(d + days) == target && Weekday(d + 7) == Weekday(d)
  {
  }

  lemma WeeklyIsLeast(s: Schedule, now: int, bound: int)
    requires s.frequency == Weekly && ValidTime(s.hour, s.minute) && 0 <= s.dayOfWeek < 7 && now <= bound <= now + 1
    ensures LocallyLeast(s, LocalNext(s, now, bound), bound)
  {
    hide Weekday, DayOf, GoMod;
    var d, next := DayOf(now), At(DayOf(now), s.hour, s.minute);
    DayOfAt(d, s.hour, s.minute);
    WeekdayOfTarget(d, s.dayOfWeek);
    var days := GoMod(s.dayOfWeek - Weekday(d) + 7, 7);
    DayOfAt(d + days, s.hour, s.minute);
    DayOfAt(d + 7, s.hour, s.minute);
    var x := LocalNext(s, now, bound);
    forall y | LocallyNamed(s, y) && y >= bound ensures x <= y {
      WeekdayAfter(d, DayOf(y), days);
    }
  }

  // ----- monthly -----

  /** The month the calculation aims at. */
  function TargetMonth(s: Schedule, now: int, bound: int): int {
    var k := MonthOf(DayOf(now));
    if At(MonthStart(k) + s.dayOfMonth - 1, s.hour, s.minute) < bound then k + 1 else k
  }

  /** How far after the beginning of a month the calculation aims; the time of day
      may be any two numbers. */
  function Lead(s: Schedule): int {
    At(s.dayOfMonth - 1, s.hour, s.minute)
  }

  lemma AddMonthWithin(x: int, k: int)
    requires InMonth(DayOf(x), k)
    ensures AddMonth(x) == x + (MonthStart(k + 1) - MonthStart(k)) * DAY
  {
    hide DayOf, MonthOf, DayOfMonth, DaysIn, MonthStart;
    var d := DayOf(x);
    MonthIsUnique(d, k);
    DayOfMonthIn(d, k);
  }

  lemma MonthlyAim(s: Schedule, now: int, bound: int)
    requires s.frequency == Monthly && now <= bound <= now + 1 && Lead(s) >= 0
    ensures var t := TargetMonth(s, now, bound);
            LocalNext(s, now, bound) == MonthStart(t) * DAY + Lead(s) && LocalNext(s, now, bound) >= bound
  {
    hide DayOf, MonthOf, DayOfMonth, DaysIn, MonthStart, AddMonth;
    var k := MonthOf(DayOf(now));
    var next := At(MonthStart(k) + s.dayOfMonth - 1, s.hour, s.minute);
    assert next == MonthStart(k) * DAY + Lead(s);
    if next < bound {
      assert MonthStart(k) <= DayOf(next) <= DayOf(now);
      AddMonthWithin(next, k);
      MonthStartNext(k);
    }
  }

  lemma DayOfMonthIn(d: int, k: int)
    requires InMonth(d, k)
    ensures DayOfMonth(d) == d - MonthStart(k) + 1
  {
    MonthIsUnique(d, k);
  }

  lemma DayOfMonthAfter(k: int, day: int)
    ensures 1 <= day <= DaysIn(k) ==> DayOfMonth(MonthStart(k) + day - 1) == day
  {
    hide MonthOf, DaysIn, MonthStart, DayOfMonth;
    if 1 <= day <= DaysIn(k) {
      DayOfMonthIn(MonthStart(k) + day - 1, k);
    }
  }

  lemma DayTooLarge(k: int, day: int)
    requires day > DaysIn(k)
    ensures DayOfMonth(MonthStart(k) + day - 1) != day
  {
    hide MonthOf, DaysIn, MonthStart;
    var d := MonthStart(k) + day - 1;
    var j := MonthOf(d);
    if j < k {
      MonthsAreOrdered(j, k);
    } else if j > k {
      MonthsAreOrdered(k, j);
    }
  }

  /** No day earlier than the target has that number in its month. */
  lemma NoEarlierDay(k: int, day: int, t: int, e: int)
    requires 1 <= day <= DaysIn(t) && (t == k || t == k + 1) && DayOfMonth(e) == day
    requires e >= MonthStart(k) && (t == k + 1 ==> e > MonthStart(k) + day - 1)
    ensures e >= MonthStart(t) + day - 1
  {
    hide MonthOf, DaysIn, MonthStart;
    var j := MonthOf(e);
    if j < t {
      MonthsAreOrdered(j, t);
      if j < k {
        MonthsAreOrdered(j, k);
      }
    } else if j > t {
      MonthsAreOrdered(t, j);
    }
  }

  lemma MonthlyIsLeast(s: Schedule, now: int, bound: int)
    requires s.frequency == Monthly && ValidTime(s.hour, s.minute) && now <= bound <= now + 1
    requires 1 <= s.dayOfMonth <= DaysIn(TargetMonth(s, now, bound))
    ensures LocallyLeast(s, LocalNext(s, now, bound), bound)
  {
    hide DayOf, MonthOf, DayOfMonth, DaysIn, MonthStart, LocalNext;
    MonthlyAim(s, now, bound);
    var k, t := MonthOf(DayOf(now)), TargetMonth(s, now, bound);
    var x := LocalNext(s, now, bound);
    DayOfAt(MonthStart(t) + s.dayOfMonth - 1, s.hour, s.minute);
    DayOfMonthAfter(t, s.dayOfMonth);
    forall y | LocallyNamed(s, y) && y >= bound ensures x <= y {
      NoEarlierDay(k, s.dayOfMonth, t, DayOf(y));
    }
  }

  lemma MonthlyMisses(s: Schedule, now: int, bound: int)
    requires s.frequency == Monthly && now <= bound <= now + 1
    requires !(1 <= s.dayOfMonth <= DaysIn(TargetMonth(s, now, bound)))
    ensures !LocallyNamed(s, LocalNext(s, now, bound))
  {
    hide DayOf, MonthOf, DayOfMonth, DaysIn, MonthStart, LocalNext;
    if ValidTime(s.hour, s.minute) && s.dayOfMonth >= 1 {
      var t := TargetMonth(s, now, bound);
      MonthlyAim(s, now, bound);
      DayOfAt(MonthStart(t) + s.dayOfMonth - 1, s.hour, s.minute);
      DayTooLarge(t, s.dayOfMonth);
    }
  }

  // ----- the main results -----

  /** The guard a caller could check: the time exists, and so does the day. */
  predicate DayExists(s: Schedule, now: int, bound: int) {
    && ValidTime(s.hour, s.minute)
    && match s.frequency
       case Daily => true
       case Weekly => 0 <= s.dayOfWeek < 7
       case Monthly => 1 <= s.dayOfMonth <= DaysIn(TargetMonth(s, now, bound))
       case Other => false
  }

  lemma NextIsLeastIff(s: Schedule, now: int, bound: int)
    requires now <= bound <= now + 1
    ensures LocallyLeast(s, LocalNext(s, now, bound), bound) <==> DayExists(s, now, bound)
  {
    hide LocalNext, TargetMonth, DaysIn, DayOf, Weekday;
    if DayExists(s, now, bound) {
      match s.frequency
      case Daily => DailyIsLeast(s, now, bound);
      case Weekly => WeeklyIsLeast(s, now, bound);
      case Monthly => MonthlyIsLeast(s, now, bound);
      case Other =>
    } else if s.frequency == Monthly {
      if ValidTime(s.hour, s.minute) {
        MonthlyMisses(s, now, bound);
      }
    }
  }

  /** The first run is the least instant the schedule names that is not before
      now, exactly when the day exists in the month aimed at. */
  lemma InitialRunIsLeastIff(s: Schedule, now: int, offset: int)
    ensures Least(s, InitialRun(s, now, offset), now, offset) <==> DayExists(s, now + offset, now + offset)
  {
    hide LocalNext, DayExists, LocallyLeast, Least;
    NextIsLeastIff(s, now + offset, now + offset);
    LeastIsLocal(s, InitialRun(s, now, offset), now, offset);
  }

  /** The following run is the least named instant after now, on the same terms. */
  lemma FollowingRunIsLeastIff(s: Schedule, now: int, offset: int)
    ensures Least(s, FollowingRun(s, now, offset), now + 1, offset) <==> DayExists(s, now + offset, now + offset + 1)
  {
    hide LocalNext, DayExists, LocallyLeast, Least;
    NextIsLeastIff(s, now + offset, now + offset + 1);
    LeastIsLocal(s, FollowingRun(s, now, offset), now + 1, offset);
  }

  /** Some day of March is the 31st, and nothing asked for before the beginning of
      a month and moved on by a month comes after it. */
  lemma EarlyAimFallsBehind(s: Schedule, k: int)
    requires s.frequency == Monthly && Lead(s) < 0 && k % 12 == 2
    ensures var now := (MonthStart(k) + 31) * DAY - 1; LocalNext(s, now, now) < now
  {
    hide MonthOf, DayOf, MonthStart, DaysIn, DayOfMonth, AddMonth;
    var now := (MonthStart(k) + 31) * DAY - 1;
    var last := MonthStart(k) + 30;
    MarchAndFebruary(k);
    DayIsUnique(now, last);
    MonthIsUnique(last, k);
    var next := At(MonthStart(k) + s.dayOfMonth - 1, s.hour, s.minute);
    assert next == MonthStart(k) * DAY + Lead(s);
    var d := DayOf(next);
    assert d < MonthStart(k);
    var j := MonthOf(d);
    AddMonthWithin(next, j);
    MonthStartNext(k - 1);
    MonthStartNext(j);
    if j > k { MonthsAreOrdered(k, j); }
    assert j < k;
    if j < k - 1 {
      if j + 1 < k - 1 { MonthsAreOrdered(j + 1, k - 1); }
    }
  }

  lemma MarchAndFebruary(k: int)
    requires k % 12 == 2
    ensures DaysIn(k) == 31 && DaysIn(k - 1) <= 29
  {
  }

  /** A schedule of any other kind runs a day from now. */
  lemma OtherRunsTomorrow(s: Schedule, now: int, offset: int)
    requires s.frequency == Other
    ensures InitialRun(s, now, offset) == FollowingRun(s, now, offset) == now + 86_400_000_000_000
  {
  }

  /** A monthly schedule is never due in the past, whatever the day it was made
      on, exactly when it does not aim before the beginning of the month: days 29
      to 31 run over into the next month, day 0 and below can fall behind. */
  lemma MonthlyNeverInThePastIff(s: Schedule, offset: int)
    requires s.frequency == Monthly
    ensures (forall now :: InitialRun(s, now, offset) >= now) <==> Lead(s) >= 0
    ensures ValidTime(s.hour, s.minute) ==> (Lead(s) >= 0 <==> s.dayOfMonth >= 1)
  {
    hide LocalNext, TargetMonth, MonthStart, DaysIn;
    if Lead(s) >= 0 {
      forall now ensures InitialRun(s, now, offset) >= now {
        MonthlyAim(s, now + offset, now + offset);
      }
    } else {
      assert 2 % 12 == 2;
      var k: int :| k % 12 == 2;
      EarlyAimFallsBehind(s, k);
      var now := (MonthStart(k) + 31) * DAY - 1 - offset;
      assert InitialRun(s, now, offset) < now;
    }
  }

  // ----- a schedule's whole life -----

  /** Run i falls due at due[i] and is over at done[i]; only then is the next one
      calculated. */
  ghost predicate Life(s: Schedule, created: int, due: seq<int>, done: seq<int>, offset: int) {
    && |due| == |done| + 1 && due[0] == InitialRun(s, created, offset)
    && (forall i | 0 <= i < |done| :: done[i] >= due[i])
    && (forall i {:trigger done[i]} | 0 <= i < |done| :: due[i + 1] == FollowingRun(s, done[i], offset))
  }

  /** Whenever a run is calculated, the day exists in the month aimed at. */
  ghost predicate AimsExist(s: Schedule, created: int, done: seq<int>, offset: int) {
    && DayExists(s, created + offset, created + offset)
    && forall i | 0 <= i < |done| :: DayExists(s, done[i] + offset, done[i] + offset + 1)
  }

  /** A schedule whose days and times exist in every month. */
  predicate Regular(s: Schedule) {
    && ValidTime(s.hour, s.minute)
    && match s.frequency
       case Daily => true
       case Weekly => 0 <= s.dayOfWeek < 7
       case Monthly => 1 <= s.dayOfMonth <= 28
       case Other => false
  }

  /** Schedules on days that every month has are always served. */
  lemma RegularAimsExist(s: Schedule, created: int, done: seq<int>, offset: int)
    requires Regular(s)
    ensures AimsExist(s, created, done, offset)
  {
  }

  ghost predicate Overtaken(x: int, due: seq<int>, done: seq<int>)
    requires |due| == |done| + 1
  {
    exists i | 0 <= i < |done| :: due[i] < x <= done[i]
  }

  lemma EachRunIsLeast(s: Schedule, created: int, due: seq<int>, done: seq<int>, offset: int, i: nat)
    requires AimsExist(s, created, done, offset) && Life(s, created, due, done, offset) && i < |due|
    ensures Least(s, due[i], if i == 0 then created else done[i - 1] + 1, offset)
  {
    hide *;
    LifeParts(s, created, due, done, offset);
    AimParts(s, created, done, offset);
    if i == 0 {
      InitialRunIsLeastIff(s, created, offset);
    } else {
      var t := done[i - 1];
      FollowingRunIsLeastIff(s, t, offset);
    }
  }

  lemma AimParts(s: Schedule, created: int, done: seq<int>, offset: int)
    requires AimsExist(s, created, done, offset)
    ensures DayExists(s, created + offset, created + offset)
    ensures forall i | 0 <= i < |done| :: DayExists(s, done[i] + offset, done[i] + offset + 1)
  {
  }

  lemma LifeParts(s: Schedule, created: int, due: seq<int>, done: seq<int>, offset: int)
    requires Life(s, created, due, done, offset)
    ensures |due| == |done| + 1 && due[0] == InitialRun(s, created, offset)
    ensures forall i | 0 <= i < |done| :: done[i] >= due[i]
    ensures forall i {:trigger done[i]} | 0 <= i < |done| :: due[i + 1] == FollowingRun(s, done[i], offset)
  {
  }

  lemma RunsFollow(s: Schedule, created: int, due: seq<int>, done: seq<int>, offset: int, i: nat)
    requires AimsExist(s, created, done, offset) && Life(s, created, due, done, offset) && i < |done| < |due|
    ensures due[i] <= done[i] < due[i + 1]
  {
    hide *;
    LifeParts(s, created, due, done, offset);
    EachRunIsLeast(s, created, due, done, offset, i + 1);
    LeastIsInTime(s, due[i + 1], done[i] + 1, offset);
  }

  lemma LeastIsInTime(s: Schedule, x: int, bound: int, offset: int)
    requires Least(s, x, bound, offset)
    ensures x >= bound
  {
  }

  lemma {:induction false} RunsAreOrdered(s: Schedule, created: int, due: seq<int>, done: seq<int>, offset: int, i: nat, j: nat)
    requires AimsExist(s, created, done, offset) && Life(s, created, due, done, offset) && i < j < |due|
    ensures due[i] < due[j] && i < |done| && due[i] <= done[i] < due[i + 1]
    decreases j
  {
    hide *;
    LifeParts(s, created, due, done, offset);
    RunsFollow(s, created, due, done, offset, i);
    RunsFollow(s, created, due, done, offset, j - 1);
    if i < j - 1 {
      RunsAreOrdered(s, created, due, done, offset, i, j - 1);
    }
  }

  /** Over the whole life of a schedule whose days exist the runs fall due at named
      instants only, one after the other. */
  lemma RunsAreNamed(s: Schedule, created: int, due: seq<int>, done: seq<int>, offset: int)
    requires AimsExist(s, created, done, offset) && Life(s, created, due, done, offset)
    ensures forall i | 0 <= i < |due| :: Named(s, due[i], offset) && due[i] >= created
    ensures forall i, j | 0 <= i < j < |due| :: due[i] < due[j]
  {
    hide DayExists, Life, Named;
    forall i, j | 0 <= i < j < |due| ensures due[i] < due[j] {
      RunsAreOrdered(s, created, due, done, offset, i, j);
    }
    forall i | 0 <= i < |due| ensures Named(s, due[i], offset) && due[i] >= created {
      EachRunIsLeast(s, created, due, done, offset, i);
      EachRunIsLeast(s, created, due, done, offset, 0);
      if i > 0 {
        RunsAreOrdered(s, created, due, done, offset, 0, i);
      }
    }
  }

  /** Every instant such a schedule names, up to the last run calculated, is a
      run, unless it passed while an earlier run was still going on. */
  lemma {:induction false} EveryNamedInstantRuns(s: Schedule, created: int, due: seq<int>, done: seq<int>, offset: int, x: int)
    requires AimsExist(s, created, done, offset) && Life(s, created, due, done, offset)
    requires Named(s, x, offset) && created <= x <= due[|due| - 1]
    ensures x in due <==> !Overtaken(x, due, done)
    decreases |done|
  {
    hide *;
    LifeParts(s, created, due, done, offset);
    if done == [] {
      EachRunIsLeast(s, created, due, done, offset, 0);
      OnlyRun(s, x, created, due, done, offset);
    } else {
      var m := |done|;
      if x <= due[m - 1] {
        LifePrefix(s, created, due, done, offset);
        EveryNamedInstantRuns(s, created, due[..m], done[..m - 1], offset, x);
      }
      forall i, j | 0 <= i < j < |due| ensures due[i] < due[j] {
        RunsAreOrdered(s, created, due, done, offset, i, j);
      }
      forall i {:trigger done[i]} | 0 <= i < m ensures done[i] < due[i + 1] {
        RunsFollow(s, created, due, done, offset, i);
      }
      EachRunIsLeast(s, created, due, done, offset, m);
      NamedInstant(s, x, due, done, offset);
    }
  }

  lemma OnlyRun(s: Schedule, x: int, created: int, due: seq<int>, done: seq<int>, offset: int)
    requires |due| == 1 && done == [] && Least(s, due[0], created, offset)
    requires Named(s, x, offset) && created <= x <= due[0]
    ensures x in due && !Overtaken(x, due, done)
  {
    hide Named;
    assert x == due[0];
    NothingOvertaken(x, due, done);
  }

  lemma NothingOvertaken(x: int, due: seq<int>, done: seq<int>)
    requires |due| == 1 && done == []
    ensures !Overtaken(x, due, done)
  {
  }

  lemma LifePrefix(s: Schedule, created: int, due: seq<int>, done: seq<int>, offset: int)
    requires Life(s, created, due, done, offset) && done != []
    ensures Life(s, created, due[..|done|], done[..|done| - 1], offset)
    ensures AimsExist(s, created, done, offset) ==> AimsExist(s, created, done[..|done| - 1], offset)
  {
    hide InitialRun, FollowingRun, DayExists;
  }

  lemma NamedInstant(s: Schedule, x: int, due: seq<int>, done: seq<int>, offset: int)
    requires |due| == |done| + 1 && |done| > 0
    requires forall i, j | 0 <= i < j < |due| :: due[i] < due[j]
    requires forall i | 0 <= i < |done| :: done[i] >= due[i]
    requires forall i {:trigger done[i]} | 0 <= i < |done| :: done[i] < due[i + 1]
    requires Named(s, x, offset) && x <= due[|done|]
    requires Least(s, due[|done|], done[|done| - 1] + 1, offset)
    requires x <= due[|done| - 1] ==> (x in due[..|done|] <==> !Overtaken(x, due[..|done|], done[..|done| - 1]))
    ensures x in due <==> !Overtaken(x, due, done)
  {
    var m := |done|;
    var due', done' := due[..m], done[..m - 1];
    assert due == due' + [due[m]];
    if x <= due[m - 1] {
      assert Overtaken(x, due, done) <==> Overtaken(x, due', done') by {
        if i :| 0 <= i < m && due[i] < x <= done[i] {
          assert due'[i] < x <= done'[i];
        }
        if i :| 0 <= i < m - 1 && due'[i] < x <= done'[i] {
          assert due[i] < x <= done[i];
        }
      }
    } else if x <= done[m - 1] {
      assert due[m - 1] < x <= done[m - 1];
    } else {
      assert x == due[m];
    }
  }
}
