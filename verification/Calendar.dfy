/** Calendar dates: apps/api/src/domain/dates.ts.

    A date is a day of a month of the proleptic Gregorian calendar, months being counted from
    January of the year 0.  `DayNumber` and `FromDayNumber` are inverse bijections between dates
    and integers (proved below), and the `YYYY-MM-DD` strings of the source are `Iso`. */
module Calendar {

  predicate Leap(y: int) {
    y % 4 == 0 && (y % 100 != 0 || y % 400 == 0)
  }

  function DaysIn(y: int, m: int): (r: int)
    ensures 28 <= r <= 31
  {
    if m == 2 then (if Leap(y) then 29 else 28)
    else if m == 4 || m == 6 || m == 9 || m == 11 then 30
    else 31
  }

  /** The length of a month.  The calendar repeats after 400 years, which is how the recursion
      reaches the years 0 to 399; `MonthDaysValue` gives the closed form. */
  function MonthDays(month: int): (r: int)
    ensures 28 <= r <= 31
    decreases month < 0, if month < 0 then -month else month, 1
  {
    if month < 0 then MonthDays(month + 4800) else CycleDays(month)
  }

  function CycleDays(month: nat): (r: int)
    ensures 28 <= r <= 31
    decreases false, month, 0
  {
    if month >= 4800 then MonthDays(month - 4800) else DaysIn(month / 12, month % 12 + 1)
  }

  lemma {:induction false} MonthDaysValue(month: int)
    ensures MonthDays(month) == DaysIn(month / 12, month % 12 + 1)
    decreases month < 0, if month < 0 then -month else month
  {
    if month < 0 {
      MonthDaysValue(month + 4800);
      SameInNextCycle(month);
    } else if month >= 4800 {
      MonthDaysValue(month - 4800);
      SameInNextCycle(month - 4800);
    }
  }

  lemma SameInNextCycle(month: int)
    ensures DaysIn((month + 4800) / 12, (month + 4800) % 12 + 1) == DaysIn(month / 12, month % 12 + 1)
  {
    var y := month / 12;
    assert (month + 4800) / 12 == y + 400 && (month + 4800) % 12 == month % 12;
    assert (y + 400) % 4 == y % 4 && (y + 400) % 100 == y % 100 && (y + 400) % 400 == y % 400;
  }

  datatype Raw = Raw(month: int, day: int)

  type Date = x: Raw | 1 <= x.day <= MonthDays(x.month) witness Raw(0, 1)

  function Year(x: Date): int {
    x.month / 12
  }

  function Month(x: Date): (m: int)
    ensures 1 <= m <= 12
  {
    x.month % 12 + 1
  }

  /** Chronological order. */
  predicate Lt(a: Date, b: Date) {
    a.month < b.month || (a.month == b.month && a.day < b.day)
  }

  predicate Le(a: Date, b: Date) {
    a == b || Lt(a, b)
  }

  // ---------------------------------------------------------------- day numbers

  /** The day after. */
  function NextDay(x: Date): Date {
    if x.day < MonthDays(x.month) then Raw(x.month, x.day + 1) else Raw(x.month + 1, 1)
  }

  /** Days before the first of a month, counted from 0000-01-01. */
  function MonthStart(month: int): int
    decreases if month < 0 then -month else month
  {
    if month == 0 then 0
    else if month > 0 then MonthStart(month - 1) + MonthDays(month - 1)
    else MonthStart(month + 1) - MonthDays(month)
  }

  /** Days since 0000-01-01. */
  function DayNumber(x: Date): int {
    MonthStart(x.month) + x.day - 1
  }

  lemma MonthLength(month: int)
    ensures MonthStart(month + 1) == MonthStart(month) + MonthDays(month)
  {}

  /** The month that day number `n` falls in, searched from month `i`. */
  function FindMonth(n: int, i: int): (r: int)
    ensures MonthStart(r) <= n < MonthStart(r) + MonthDays(r)
    decreases n < MonthStart(i), if n < MonthStart(i) then MonthStart(i) - n else n - MonthStart(i)
  {
    MonthLength(i);
    MonthLength(i - 1);
    if n < MonthStart(i) then FindMonth(n, i - 1)
    else if n >= MonthStart(i) + MonthDays(i) then FindMonth(n, i + 1)
    else i
  }

  function FromDayNumber(n: int): (r: Date)
    ensures DayNumber(r) == n
  {
    var month := FindMonth(n, 0);
    Raw(month, n - MonthStart(month) + 1)
  }

  lemma {:induction false} MonthsGrow(a: int, b: int)
    requires a <= b
    ensures MonthStart(b) - MonthStart(a) >= 28 * (b - a)
    decreases b - a
  {
    if a < b {
      MonthsGrow(a, b - 1);
      MonthLength(b - 1);
    }
  }

  lemma LtDayNumber(a: Date, b: Date)
    requires Lt(a, b)
    ensures DayNumber(a) < DayNumber(b)
  {
    if a.month < b.month {
      MonthLength(a.month);
      MonthsGrow(a.month + 1, b.month);
    }
  }

  /** Dates are ordered as their day numbers are. */
  lemma Chronological(a: Date, b: Date)
    ensures Lt(a, b) <==> DayNumber(a) < DayNumber(b)
    ensures a == b <==> DayNumber(a) == DayNumber(b)
    ensures Le(a, b) <==> DayNumber(a) <= DayNumber(b)
  {
    if Lt(a, b) { LtDayNumber(a, b); }
    if Lt(b, a) { LtDayNumber(b, a); }
  }

  /** `DayNumber` and `FromDayNumber` are inverse to each other, and numbers follow the calendar. */
  lemma DayNumberBijection(x: Date, n: int)
    ensures FromDayNumber(DayNumber(x)) == x
    ensures DayNumber(FromDayNumber(n)) == n
    ensures DayNumber(NextDay(x)) == DayNumber(x) + 1
    ensures FromDayNumber(n + 1) == NextDay(FromDayNumber(n))
  {
    Chronological(FromDayNumber(DayNumber(x)), x);
    NextDayNumber(x);
    NextDayNumber(FromDayNumber(n));
    Chronological(FromDayNumber(n + 1), NextDay(FromDayNumber(n)));
  }

  lemma NextDayNumber(x: Date)
    ensures DayNumber(NextDay(x)) == DayNumber(x) + 1
  {
    MonthLength(x.month);
  }

  // ---------------------------------------------------------------- the `YYYY-MM-DD` strings

  function Digit(k: int): char {
    '0' + (k % 10) as char
  }

  /** The ten characters of an ISO date; years 0 to 9999. */
  function Iso(x: Date): (s: string)
    ensures |s| == 10
  {
    [Digit(Year(x) / 1000), Digit(Year(x) / 100), Digit(Year(x) / 10), Digit(Year(x)), '-',
     Digit(Month(x) / 10), Digit(Month(x)), '-', Digit(x.day / 10), Digit(x.day)]
  }

  /** ECMAScript `<` on strings. */
  predicate StringLt(a: string, b: string) {
    if a == [] || b == [] then a == [] && b != []
    else a[0] < b[0] || (a[0] == b[0] && StringLt(a[1..], b[1..]))
  }

  /** Two strings are first different at `i`, where `a` is the lesser. */
  ghost predicate LessAt(a: string, b: string, i: nat) {
    i < |a| && i < |b| && a[i] < b[i] && forall j :: 0 <= j < i ==> a[j] == b[j]
  }

  ghost predicate Begins(a: string, b: string) {
    |a| < |b| && forall j :: 0 <= j < |a| ==> a[j] == b[j]
  }

  lemma LessLater(a: string, b: string, i: nat)
    requires a != [] && b != [] && a[0] == b[0]
    ensures LessAt(a, b, i + 1) <==> LessAt(a[1..], b[1..], i)
    ensures Begins(a, b) <==> Begins(a[1..], b[1..])
  {
    assert forall j :: 0 <= j < |a[1..]| ==> a[1..][j] == a[j + 1];
    assert forall j :: 0 <= j < |b[1..]| ==> b[1..][j] == b[j + 1];
    if LessAt(a, b, i + 1) {
      forall j | 0 <= j < i ensures a[1..][j] == b[1..][j] { assert a[j + 1] == b[j + 1]; }
    }
    if Begins(a, b) {
      forall j | 0 <= j < |a[1..]| ensures a[1..][j] == b[1..][j] { assert a[j + 1] == b[j + 1]; }
    }
  }

  /** The first difference decides, and a string that begins another one is less. */
  lemma {:induction false} StringLtExactly(a: string, b: string)
    ensures StringLt(a, b) <==> Begins(a, b) || exists i: nat :: LessAt(a, b, i)
  {
    if a != [] && b != [] {
      if a[0] == b[0] {
        StringLtExactly(a[1..], b[1..]);
        LessLater(a, b, 0);
        if i: nat :| LessAt(a, b, i) { LessLater(a, b, i - 1); }
        if i: nat :| LessAt(a[1..], b[1..], i) { LessLater(a, b, i); }
      } else if a[0] < b[0] {
        assert LessAt(a, b, 0);
      }
    }
  }

  lemma {:induction false} StringLtSkip(p: string, a: string, b: string)
    ensures StringLt(p + a, p + b) == StringLt(a, b)
  {
    if p == [] {
      assert p + a == a && p + b == b;
    } else {
      StringLtSkip(p[1..], a, b);
      assert (p + a)[1..] == p[1..] + a && (p + b)[1..] == p[1..] + b;
    }
  }

  function TwoDigits(k: int): (s: string)
    ensures |s| == 2
  {
    [Digit(k / 10), Digit(k)]
  }

  lemma DigitsDecide(a: nat, b: nat)
    ensures a < b <==> a / 10 < b / 10 || (a / 10 == b / 10 && a % 10 < b % 10)
    ensures a == b <==> a / 10 == b / 10 && a % 10 == b % 10
  {
    assert a == 10 * (a / 10) + a % 10 && b == 10 * (b / 10) + b % 10;
  }

  /** Two digits in front decide, unless they are equal. */
  lemma TwoDigitsLt(a: int, b: int, s: string, t: string)
    requires 0 <= a < 100 && 0 <= b < 100
    ensures StringLt(TwoDigits(a) + s, TwoDigits(b) + t) <==> a < b || (a == b && StringLt(s, t))
    ensures TwoDigits(a) == TwoDigits(b) <==> a == b
  {
    var u, v := TwoDigits(a) + s, TwoDigits(b) + t;
    assert u[1..][1..] == s && v[1..][1..] == t;
    DigitsDecide(a, b);
  }

  lemma YearDigits(y: int)
    requires 0 <= y <= 9999
    ensures y / 100 / 10 == y / 1000 && y % 100 / 10 == y / 10 % 10 && y % 100 % 10 == y % 10
  {
    var a, r := y / 1000, y % 1000;
    var b, q := r / 100, r % 100;
    assert y == 1000 * a + 100 * b + q;
    assert y / 100 == 10 * a + b;
    assert y % 100 == q;
    assert y / 10 == 100 * a + 10 * b + q / 10;
  }

  lemma IsoParts(x: Date)
    requires 0 <= Year(x) <= 9999
    ensures Iso(x) == TwoDigits(Year(x) / 100) + (TwoDigits(Year(x) % 100)
                      + (['-'] + (TwoDigits(Month(x)) + (['-'] + (TwoDigits(x.day) + [])))))
  {
    YearDigits(Year(x));
    assert TwoDigits(Year(x) / 100) == [Digit(Year(x) / 1000), Digit(Year(x) / 100)];
    assert TwoDigits(Year(x) % 100) == [Digit(Year(x) / 10), Digit(Year(x))];
  }

  lemma IsoLt(a: Date, b: Date)
    requires 0 <= Year(a) <= 9999 && 0 <= Year(b) <= 9999
    ensures StringLt(Iso(a), Iso(b)) <==> Lt(a, b)
  {
    IsoParts(a);
    IsoParts(b);
    var da, db := TwoDigits(a.day) + [], TwoDigits(b.day) + [];
    var ma, mb := TwoDigits(Month(a)) + (['-'] + da), TwoDigits(Month(b)) + (['-'] + db);
    var ya, yb := TwoDigits(Year(a) % 100) + (['-'] + ma), TwoDigits(Year(b) % 100) + (['-'] + mb);
    TwoDigitsLt(a.day, b.day, [], []);
    StringLtSkip(['-'], da, db);
    TwoDigitsLt(Month(a), Month(b), ['-'] + da, ['-'] + db);
    StringLtSkip(['-'], ma, mb);
    TwoDigitsLt(Year(a) % 100, Year(b) % 100, ['-'] + ma, ['-'] + mb);
    TwoDigitsLt(Year(a) / 100, Year(b) / 100, ya, yb);
  }

  /** For four-digit years the strings compare as the dates do. */
  lemma IsoOrder(a: Date, b: Date)
    requires 0 <= Year(a) <= 9999 && 0 <= Year(b) <= 9999
    ensures StringLt(Iso(a), Iso(b)) <==> Lt(a, b)
    ensures Iso(a) == Iso(b) <==> a == b
  {
    IsoLt(a, b);
    IsoLt(b, a);
    Irreflexive(Iso(a));
  }

  lemma {:induction false} Irreflexive(s: string)
    ensures !StringLt(s, s)
  {
    if s != [] { Irreflexive(s[1..]); }
  }

  // ---------------------------------------------------------------- operations

  /** `new Date(Date.UTC(year, month1to12, 0)).getUTCDate()` for the year and month of `month`;
      `Date.UTC` takes the years 0 to 99 for 1900 to 1999. */
  function DaysInMonth(month: int): (r: int)
    ensures 28 <= r <= 31
  {
    if 0 <= month < 1200 then MonthDays(month + 22800) else MonthDays(month)
  }

  /** It is the length of the month, except in February of the year 0. */
  lemma DaysInMonthIsLength(month: int)
    ensures DaysInMonth(month) == MonthDays(month) <==> month != 1
    ensures DaysInMonth(month) <= MonthDays(month)
  {
    if 0 <= month < 1200 {
      MonthDaysValue(month);
      MonthDaysValue(month + 22800);
      CenturyShift(month / 12, month % 12 + 1);
      assert (month + 22800) / 12 == month / 12 + 1900 && (month + 22800) % 12 == month % 12;
    }
  }

  lemma CenturyShift(y: int, m: int)
    requires 0 <= y <= 99
    ensures DaysIn(y + 1900, m) == DaysIn(y, m) <==> !(y == 0 && m == 2)
    ensures DaysIn(y + 1900, m) <= DaysIn(y, m)
  {
    assert (y + 1900) % 4 == y % 4 && (y + 1900) % 100 == y;
    if y == 0 { assert (y + 1900) % 400 == 300; }
  }

  /** Day `day` of a month, or its last day if the month is shorter. */
  function Clamped(month: int, day: int): (r: Date)
    requires 1 <= day <= 31
    ensures r.month == month && r.day <= day
  {
    DaysInMonthIsLength(month);
    Raw(month, if day < DaysInMonth(month) then day else DaysInMonth(month))
  }

  function AddDays(x: Date, days: int): (r: Date)
    ensures DayNumber(r) == DayNumber(x) + days
  {
    FromDayNumber(DayNumber(x) + days)
  }

  function AddMonths(x: Date, months: int): Date {
    Clamped(x.month + months, x.day)
  }

  function DaysBetweenInclusive(start: Date, end: Date): int {
    DayNumber(end) - DayNumber(start) + 1
  }

  function StartOfMonth(x: Date): Date {
    Raw(x.month, 1)
  }

  /** `getUTCDay` from a day number: Sunday is 0; 0000-01-01 was a Saturday. */
  function UtcDay(n: int): int {
    (n + 6) % 7
  }

  /** Days since the last Monday: `(getUTCDay() + 6) % 7`. */
  function SinceMonday(n: int): (k: int)
    ensures 0 <= k <= 6 && (n - k) % 7 == 2
  {
    (UtcDay(n) + 6) % 7
  }

  function WeekStart(x: Date): (r: Date)
    ensures DayNumber(r) == DayNumber(x) - SinceMonday(DayNumber(x))
  {
    AddDays(x, -SinceMonday(DayNumber(x)))
  }

  /** Adding months moves by exactly that many months, keeps the day or clamps it to the end of
      the month, and advances strictly. */
  lemma AddMonthsLaws(x: Date, months: int)
    ensures AddMonths(x, months).month == x.month + months
    ensures var r := AddMonths(x, months); r.day == x.day || (r.day < x.day && r.day == DaysInMonth(r.month))
    ensures months > 0 ==> Lt(x, AddMonths(x, months))
    ensures months < 0 ==> Lt(AddMonths(x, months), x)
  {}

  lemma SameWeek(a: int, b: int, y: int)
    requires a % 7 == 2 && b % 7 == 2 && b <= y <= b + 6
    ensures (a == b <==> a <= y <= a + 6) && (a + 6) % 7 == 1
  {}

  lemma MondayNumbers(n: int, m: int)
    ensures UtcDay(n - SinceMonday(n)) == 1
    ensures var monday := n - SinceMonday(n);
            monday == m - SinceMonday(m) <==> monday <= m <= monday + 6
  {
    SameWeek(n - SinceMonday(n), m - SinceMonday(m), m);
  }

  lemma WeekNumber(x: Date)
    ensures DayNumber(WeekStart(x)) == DayNumber(x) - SinceMonday(DayNumber(x))
  {}

  lemma SameDate(a: Date, b: Date)
    ensures a == b <==> DayNumber(a) == DayNumber(b)
  {
    Chronological(a, b);
  }

  /** `weekRange(x).start` is a Monday, and two dates share it exactly when the second falls in
      the week that starts there. */
  lemma WeekStartIsMonday(x: Date, y: Date)
    ensures var a := WeekStart(x);
            UtcDay(DayNumber(a)) == 1 && (a == WeekStart(y) <==> DayNumber(a) <= DayNumber(y) <= DayNumber(a) + 6)
  {
    WeekNumber(x);
    WeekNumber(y);
    MondayNumbers(DayNumber(x), DayNumber(y));
    SameDate(WeekStart(x), WeekStart(y));
  }

  /** A date starts its week exactly when it is a Monday. */
  lemma StartsWeek(x: Date)
    ensures WeekStart(x) == x <==> SinceMonday(DayNumber(x)) == 0
  {
    WeekNumber(x);
    SameDate(WeekStart(x), x);
  }

  function YearFrom(month: int): int {
    MonthStart(month + 12) - MonthStart(month)
  }

  lemma YearFromNext(month: int)
    ensures YearFrom(month + 1) == YearFrom(month) + MonthDays(month + 12) - MonthDays(month)
  {
    MonthLength(month);
    MonthLength(month + 12);
  }

  lemma FirstYear()
    ensures MonthStart(12) == 366
  {
    assert MonthDays(0) == 31 && MonthDays(1) == 29 && MonthDays(2) == 31 && MonthDays(3) == 30;
    assert MonthDays(4) == 31 && MonthDays(5) == 30 && MonthDays(6) == 31 && MonthDays(7) == 31;
    assert MonthDays(8) == 30 && MonthDays(9) == 31 && MonthDays(10) == 30 && MonthDays(11) == 31;
    assert MonthStart(1) == 31 && MonthStart(2) == 60 && MonthStart(3) == 91 && MonthStart(4) == 121;
    assert MonthStart(5) == 152 && MonthStart(6) == 182 && MonthStart(7) == 213 && MonthStart(8) == 244;
    assert MonthStart(9) == 274 && MonthStart(10) == 305 && MonthStart(11) == 335;
  }

  lemma SameMonthNextYear(month: int)
    ensures month % 12 != 1 ==> MonthDays(month + 12) == MonthDays(month) && (month + 11) / 12 == (month + 10) / 12
    ensures month % 12 == 1 ==> (month + 10) / 12 == month / 12 && (month + 11) / 12 == month / 12 + 1
    ensures month % 12 == 1 ==>
            MonthDays(month) == (if Leap(month / 12) then 29 else 28)
            && MonthDays(month + 12) == (if Leap(month / 12 + 1) then 29 else 28)
  {
    MonthDaysValue(month);
    MonthDaysValue(month + 12);
    assert (month + 12) / 12 == month / 12 + 1 && (month + 12) % 12 == month % 12;
  }

  function YearDays(month: int): int {
    if Leap((month + 10) / 12) then 366 else 365
  }

  lemma YearStep(month: int)
    ensures YearFrom(month + 1) - YearFrom(month) == YearDays(month + 1) - YearDays(month)
  {
    YearFromNext(month);
    SameMonthNextYear(month);
  }

  /** A span of twelve months has 365 days, and one more if its February is a leap one. */
  lemma {:induction false} YearSpan(month: int)
    ensures YearFrom(month) == YearDays(month)
    decreases if month < 0 then -month else month
  {
    if month == 0 {
      FirstYear();
    } else if month > 0 {
      YearSpan(month - 1);
      YearStep(month - 1);
    } else {
      YearSpan(month + 1);
      YearStep(month);
    }
  }

  /** How many years from 0 up to `y`, or below 0 down to `y` and then negative, `d` divides. */
  function Multiples(y: int, d: int): int
    requires d > 0
    decreases if y < 0 then -y else y
  {
    if y == 0 then 0
    else if y > 0 then Multiples(y - 1, d) + (if (y - 1) % d == 0 then 1 else 0)
    else Multiples(y + 1, d) - (if y % d == 0 then 1 else 0)
  }

  lemma OneMultipleMore(y: int, d: int)
    requires d > 0
    ensures Multiples(y + 1, d) == Multiples(y, d) + if y % d == 0 then 1 else 0
  {}

  lemma QuotientStep(y: int, d: int)
    requires d in {4, 100, 400}
    ensures (y + d) / d == (y + d - 1) / d + if y % d == 0 then 1 else 0
  {}

  lemma {:induction false} MultiplesIs(y: int, d: int)
    requires d in {4, 100, 400}
    ensures Multiples(y, d) == (y + d - 1) / d
    decreases if y < 0 then -y else y
  {
    if y > 0 {
      MultiplesIs(y - 1, d);
      QuotientStep(y - 1, d);
    } else if y < 0 {
      MultiplesIs(y + 1, d);
      QuotientStep(y, d);
    }
  }

  /** Days before 1 January of a year. */
  function YearStart(y: int): int {
    MonthStart(12 * y)
  }

  function LeapDays(y: int): int {
    Multiples(y, 4) - Multiples(y, 100) + Multiples(y, 400)
  }

  lemma Hundreds(y: int)
    ensures y % 400 == 0 ==> y % 100 == 0
    ensures y % 100 == 0 ==> y % 4 == 0
  {}

  lemma LeapExactly(y: int)
    ensures LeapDays(y + 1) == LeapDays(y) + if Leap(y) then 1 else 0
  {
    OneMultipleMore(y, 4);
    OneMultipleMore(y, 100);
    OneMultipleMore(y, 400);
    Hundreds(y);
  }

  lemma YearAdds(y: int)
    ensures YearStart(y + 1) - LeapDays(y + 1) == YearStart(y) - LeapDays(y) + 365
  {
    var month := 12 * y;
    YearSpan(month);
    LeapExactly(y);
    assert (month + 10) / 12 == y && 12 * (y + 1) == month + 12;
  }

  lemma YearZero(y: int)
    requires y == 0
    ensures YearStart(y) == LeapDays(y)
  {}

  /** The Gregorian rule: every fourth year has a leap day, but of the hundredth ones only every fourth. */
  lemma {:induction false} YearStartIs(y: int)
    ensures YearStart(y) == 365 * y + LeapDays(y)
    decreases if y < 0 then -y else y
  {
    if y > 0 {
      YearStartIs(y - 1);
      YearAdds(y - 1);
    } else if y < 0 {
      YearStartIs(y + 1);
      YearAdds(y);
    } else {
      YearZero(y);
    }
  }

  lemma YearStartClosed(y: int)
    ensures YearStart(y) == 365 * y + (y + 3) / 4 - (y + 99) / 100 + (y + 399) / 400
  {
    YearStartIs(y);
    MultiplesIs(y, 4);
    MultiplesIs(y, 100);
    MultiplesIs(y, 400);
  }

  /** 1 January 1970, the origin of ECMAScript time, has day number 719528 and was a Thursday. */
  lemma TheEpoch(epoch: Date)
    requires Year(epoch) == 1970 && Month(epoch) == 1 && epoch.day == 1
    ensures DayNumber(epoch) == 719528 && UtcDay(DayNumber(epoch)) == 4
  {
    YearStartClosed(Year(epoch));
    assert epoch.month == 12 * Year(epoch);
  }

  // ---------------------------------------------------------------- step by step, as in dates.ts

  /** An ECMAScript `Date` at midnight UTC, with the setters that dates.ts uses. */
  class UtcDate {
    var date: Date

    constructor (x: Date)
      ensures date == x
    {
      date := x;
    }

    /** Day `n` of the current month, counting on into its neighbours. */
    method SetUTCDate(n: int)
      modifies this
      ensures DayNumber(date) == MonthStart(old(date).month) + n - 1
      ensures 1 <= n <= MonthDays(old(date).month) ==> date == Raw(old(date).month, n)
    {
      ghost var month := date.month;
      date := FromDayNumber(MonthStart(date.month) + n - 1);
      if 1 <= n <= MonthDays(month) { SameDate(date, Raw(month, n)); }
    }

    /** Month `n` (January is 0) counted from the current year; the source calls it on the
        first of a month only, where no day can overflow. */
    method SetUTCMonth(n: int)
      requires date.day == 1
      modifies this
      ensures date == Raw(12 * Year(old(date)) + n, 1)
    {
      date := Raw(12 * Year(date) + n, 1);
    }
  }

  method AddDaysInPlace(x: Date, days: int) returns (r: Date)
    ensures r == AddDays(x, days)
  {
    var d := new UtcDate(x);
    d.SetUTCDate(d.date.day + days);
    r := d.date;
    SameDate(r, AddDays(x, days));
  }

  method AddMonthsInPlace(x: Date, months: int) returns (r: Date)
    ensures r == AddMonths(x, months)
  {
    var d := new UtcDate(x);
    var targetDay := d.date.day;
    d.SetUTCDate(1);
    d.SetUTCMonth(Month(d.date) - 1 + months);
    DaysInMonthIsLength(d.date.month);
    var lastDay := DaysInMonth(d.date.month);
    d.SetUTCDate(if targetDay < lastDay then targetDay else lastDay);
    r := d.date;
  }
}
