/** Scheduled obligations: apps/api/src/domain/scheduled/schedule.ts. */
module Schedule {
  import opened Common
  import opened Calendar

  datatype Cadence = Weekly | Fortnightly | Monthly | Quarterly | Yearly

  datatype ScheduledTransaction = ScheduledTransaction(
    amount: int, cadence: Cadence, startDate: Date, endDate: Option<Date>, reminderDays: int, archived: bool)

  datatype Occurrence = Occurrence(date: Date, due: bool, daysUntil: int)

  const MAX_ITERATIONS: nat := 1000

  function DayStep(c: Cadence): nat {
    match c case Weekly => 7 case Fortnightly => 14 case _ => 0
  }

  function MonthStep(c: Cadence): nat {
    match c case Monthly => 1 case Quarterly => 3 case Yearly => 12 case _ => 0
  }

  /** The occurrence with index `index`, anchored to the day of month of the start. */
  function OccurrenceAt(s: ScheduledTransaction, index: nat): Date {
    if index == 0 then s.startDate
    else if DayStep(s.cadence) > 0 then AddDays(s.startDate, DayStep(s.cadence) * index)
    else
      var advanced := AddMonths(StartOfMonth(s.startDate), MonthStep(s.cadence) * index);
      Clamped(advanced.month, s.startDate.day)
  }

  /** What a call asks for: the dates from `today` to `horizon`, not past the end. */
  datatype Window = Window(today: Date, horizon: Date, end: Option<Date>, reminderDays: int) {
    predicate Has(date: Date) {
      !Lt(date, today) && !Past(date)
    }

    predicate Past(date: Date) {
      Lt(horizon, date) || (end.Some? && Lt(end.value, date))
    }

    function Entry(date: Date): Occurrence {
      var daysUntil := DayNumber(date) - DayNumber(today);
      Occurrence(date, daysUntil <= reminderDays, daysUntil)
    }
  }

  function WindowOf(s: ScheduledTransaction, today: Date, days: int): Window {
    Window(today, AddDays(today, days), s.endDate, s.reminderDays)
  }

  /** The first `n` occurrences. */
  function Dates(s: ScheduledTransaction, n: nat): (r: seq<Date>)
    ensures |r| == n && forall i :: 0 <= i < n ==> r[i] == OccurrenceAt(s, i)
  {
    seq(n, i requires 0 <= i < n => OccurrenceAt(s, i))
  }

  /** Those of `dates` that fall in the window, in order. */
  function Listed(w: Window, dates: seq<Date>): seq<Occurrence> {
    if dates == [] then []
    else
      var init, last := Listed(w, dates[..|dates| - 1]), dates[|dates| - 1];
      if w.Has(last) then init + [w.Entry(last)] else init
  }

  /** The occurrences of index below 1000 in the window, in order. */
  function Upcoming(s: ScheduledTransaction, today: Date, days: int): seq<Occurrence> {
    if s.archived then [] else Listed(WindowOf(s, today, days), Dates(s, MAX_ITERATIONS))
  }

  // ---------------------------------------------------------------- the shape of a schedule

  lemma DayOccurrence(s: ScheduledTransaction, index: nat)
    requires DayStep(s.cadence) > 0
    ensures DayNumber(OccurrenceAt(s, index)) == DayNumber(s.startDate) + DayStep(s.cadence) * index
  {}

  /** A month-based occurrence: its month, and the day of the start clamped to that month. */
  lemma MonthOccurrence(s: ScheduledTransaction, index: nat)
    requires DayStep(s.cadence) == 0
    ensures var month := s.startDate.month + MonthStep(s.cadence) * index;
            OccurrenceAt(s, index).month == month
            && (index > 0 ==> OccurrenceAt(s, index) == Clamped(month, s.startDate.day))
  {}

  /** How far a day of the month moves over one step. */
  lemma StepGap(a: Date, b: Date, step: int)
    requires step in {1, 3, 12} && b.month == a.month + step && b.day <= a.day + 3
    ensures step < 12 ==> DayNumber(b) - DayNumber(a) <= 366
    ensures b.day <= a.day ==> DayNumber(b) - DayNumber(a) <= 366
  {
    if step == 12 {
      YearSpan(a.month);
    } else {
      MonthLength(a.month);
      MonthLength(a.month + 1);
      MonthLength(a.month + 2);
    }
  }

  /** From one year to the next a clamped day only moves in February. */
  lemma YearGap(a: Date, b: Date, day: int)
    requires 1 <= day <= 31 && b == Clamped(a.month + 12, day) && a.day >= Clamped(a.month, day).day
    ensures DayNumber(b) - DayNumber(a) <= 366
  {
    YearSpan(a.month);
    SameMonthNextYear(a.month);
    DaysInMonthIsLength(a.month);
    DaysInMonthIsLength(a.month + 12);
  }

  lemma MonthGap(s: ScheduledTransaction, index: nat)
    requires DayStep(s.cadence) == 0
    ensures DayNumber(OccurrenceAt(s, index + 1)) - DayNumber(OccurrenceAt(s, index)) <= 366
  {
    var a, b, step := OccurrenceAt(s, index), OccurrenceAt(s, index + 1), MonthStep(s.cadence);
    MonthOccurrence(s, index);
    MonthOccurrence(s, index + 1);
    assert b.month == a.month + step by {
      assert step * (index + 1) == step * index + step;
    }
    if step == 12 { YearGap(a, b, s.startDate.day); } else { StepGap(a, b, step); }
  }

  /** Occurrences increase strictly, with gaps of at most 366 days. */
  lemma OccurrencesAdvance(s: ScheduledTransaction, index: nat)
    ensures Lt(OccurrenceAt(s, index), OccurrenceAt(s, index + 1))
    ensures DayNumber(OccurrenceAt(s, index + 1)) - DayNumber(OccurrenceAt(s, index)) <= 366
  {
    var a, b := OccurrenceAt(s, index), OccurrenceAt(s, index + 1);
    if DayStep(s.cadence) > 0 {
      DayOccurrence(s, index);
      DayOccurrence(s, index + 1);
      Chronological(a, b);
    } else {
      MonthOccurrence(s, index);
      MonthOccurrence(s, index + 1);
      assert MonthStep(s.cadence) * (index + 1) == MonthStep(s.cadence) * index + MonthStep(s.cadence);
      MonthGap(s, index);
    }
  }

  lemma LtTransitive(a: Date, b: Date, c: Date)
    requires Lt(a, b) && Lt(b, c)
    ensures Lt(a, c)
  {}

  lemma {:induction false} OccurrencesIncrease(s: ScheduledTransaction, i: nat, j: nat)
    requires i < j
    ensures Lt(OccurrenceAt(s, i), OccurrenceAt(s, j))
    decreases j - i
  {
    OccurrencesAdvance(s, j - 1);
    if i < j - 1 {
      OccurrencesIncrease(s, i, j - 1);
      LtTransitive(OccurrenceAt(s, i), OccurrenceAt(s, j - 1), OccurrenceAt(s, j));
    }
  }

  ghost predicate Increasing(dates: seq<Date>) {
    forall i, j :: 0 <= i < j < |dates| ==> Lt(dates[i], dates[j])
  }

  lemma DatesIncrease(s: ScheduledTransaction, n: nat)
    ensures Increasing(Dates(s, n))
  {
    forall i: nat, j: nat | i < j < n ensures Lt(Dates(s, n)[i], Dates(s, n)[j]) {
      OccurrencesIncrease(s, i, j);
    }
  }

  /** The day of `start`, or the last day of the month if that month is shorter. */
  ghost predicate KeepsDay(date: Date, start: Date) {
    && date.day <= start.day && date.day <= DaysInMonth(date.month)
    && (date.day == start.day || date.day == DaysInMonth(date.month))
  }

  /** A date `months` after `start`, on its day as far as the month has one; `start` itself for 0. */
  ghost predicate MonthsOn(date: Date, start: Date, months: nat) {
    && date.month == start.month + months
    && (if months == 0 then date == start else KeepsDay(date, start))
  }

  /** The occurrences in numbers: 7 or 14 days, or 1, 3 or 12 months, for every index passed. */
  lemma OccursByCadence(s: ScheduledTransaction, index: nat)
    ensures var date, start := OccurrenceAt(s, index), s.startDate;
      match s.cadence {
        case Weekly => DayNumber(date) == DayNumber(start) + 7 * index
        case Fortnightly => DayNumber(date) == DayNumber(start) + 14 * index
        case Monthly => MonthsOn(date, start, index)
        case Quarterly => MonthsOn(date, start, 3 * index)
        case Yearly => MonthsOn(date, start, 12 * index)
      }
  {
    if DayStep(s.cadence) > 0 { DayOccurrence(s, index); } else { MonthOccurrence(s, index); }
  }

  // ---------------------------------------------------------------- the window

  /** `Listed` is exactly the occurrences of the window: all of them, nothing else, in
      strictly increasing order. */
  lemma {:induction false} ListedExactly(w: Window, dates: seq<Date>)
    requires Increasing(dates)
    ensures var l := Listed(w, dates);
      && (forall j :: 0 <= j < |l| ==> l[j].date in dates && w.Has(l[j].date) && l[j] == w.Entry(l[j].date))
      && (forall d :: d in dates && w.Has(d) ==> w.Entry(d) in l)
      && (forall j, k :: 0 <= j < k < |l| ==> Lt(l[j].date, l[k].date))
  {
    if dates != [] { ListedExactly(w, dates[..|dates| - 1]); }
  }

  /** Past the window nothing more is listed. */
  lemma {:induction false} NothingAfter(w: Window, dates: seq<Date>, i: nat)
    requires Increasing(dates) && i < |dates| && w.Past(dates[i])
    ensures Listed(w, dates) == Listed(w, dates[..i])
  {
    var init := dates[..|dates| - 1];
    if i < |init| {
      NothingAfter(w, init, i);
      assert init[..i] == dates[..i];
    } else {
      assert init == dates[..i];
    }
  }

  /** Before `today` nothing is listed. */
  lemma {:induction false} NothingBefore(w: Window, dates: seq<Date>)
    requires forall d :: d in dates ==> Lt(d, w.today)
    ensures Listed(w, dates) == []
  {
    if dates != [] {
      assert dates[|dates| - 1] in dates;
      NothingBefore(w, dates[..|dates| - 1]);
    }
  }

  lemma {:induction false} ListedPrefix(w: Window, dates: seq<Date>, i: nat)
    requires i <= |dates|
    ensures Listed(w, dates[..i]) <= Listed(w, dates)
  {
    if i < |dates| {
      var init := dates[..|dates| - 1];
      ListedPrefix(w, init, i);
      assert init[..i] == dates[..i];
    } else {
      assert dates[..i] == dates;
    }
  }

  lemma ListedNext(w: Window, dates: seq<Date>, i: nat)
    requires i < |dates|
    ensures var l := Listed(w, dates[..i]);
            Listed(w, dates[..i + 1]) == if w.Has(dates[i]) then l + [w.Entry(dates[i])] else l
  {
    assert dates[..i + 1][..i] == dates[..i];
  }

  /** What the loop has listed after `n` occurrences. */
  function ListedUpto(w: Window, dates: seq<Date>, n: nat): seq<Occurrence>
    requires n <= |dates|
  {
    Listed(w, dates[..n])
  }

  lemma ListStep(s: ScheduledTransaction, w: Window, i: nat, date: Date)
    requires i < MAX_ITERATIONS && date == OccurrenceAt(s, i)
    ensures var dates := Dates(s, MAX_ITERATIONS);
            && (w.Past(date) ==> ListedUpto(w, dates, i) == Listed(w, dates))
            && ListedUpto(w, dates, i + 1)
               == if w.Has(date) then ListedUpto(w, dates, i) + [w.Entry(date)] else ListedUpto(w, dates, i)
  {
    var dates := Dates(s, MAX_ITERATIONS);
    DatesIncrease(s, MAX_ITERATIONS);
    ListedNext(w, dates, i);
    if w.Past(date) { NothingAfter(w, dates, i); }
  }

  lemma ListedAll(w: Window, dates: seq<Date>)
    ensures ListedUpto(w, dates, 0) == [] && ListedUpto(w, dates, |dates|) == Listed(w, dates)
  {
    assert dates[..|dates|] == dates;
  }

  /** The loop, with its two breaks. */
  method ListWindow(s: ScheduledTransaction, w: Window) returns (occurrences: seq<Occurrence>)
    ensures occurrences == Listed(w, Dates(s, MAX_ITERATIONS))
  {
    ghost var dates := Dates(s, MAX_ITERATIONS);
    ListedAll(w, dates);
    occurrences := [];
    for index := 0 to MAX_ITERATIONS
      invariant occurrences == ListedUpto(w, dates, index)
    {
      var date := OccurrenceAt(s, index);
      ListStep(s, w, index, date);
      if Lt(w.horizon, date) { return; }
      if w.end.Some? && Lt(w.end.value, date) { return; }
      if Lt(date, w.today) { continue; }
      var daysUntil := DayNumber(date) - DayNumber(w.today);
      occurrences := occurrences + [Occurrence(date, daysUntil <= w.reminderDays, daysUntil)];
    }
  }

  method UpcomingOccurrences(s: ScheduledTransaction, today: Date, days: int)
    returns (occurrences: seq<Occurrence>)
    ensures occurrences == Upcoming(s, today, days)
  {
    if s.archived { return []; }
    occurrences := ListWindow(s, Window(today, AddDays(today, days), s.endDate, s.reminderDays));
  }

  /** What it takes to be listed, in day numbers: from today to `days` later, not past the end. */
  ghost predicate Awaited(s: ScheduledTransaction, today: Date, days: int, date: Date) {
    && DayNumber(today) <= DayNumber(date) <= DayNumber(today) + days
    && (s.endDate.Some? ==> DayNumber(date) <= DayNumber(s.endDate.value))
  }

  lemma AwaitedIs(s: ScheduledTransaction, today: Date, days: int, date: Date)
    ensures WindowOf(s, today, days).Has(date) == Awaited(s, today, days, date)
  {
    Chronological(date, today);
    Chronological(AddDays(today, days), date);
    if s.endDate.Some? { Chronological(s.endDate.value, date); }
  }

  /** How an awaited date is shown. */
  ghost predicate Shows(s: ScheduledTransaction, today: Date, date: Date, o: Occurrence) {
    && o.date == date
    && o.daysUntil == DayNumber(date) - DayNumber(today)
    && (o.due <==> DayNumber(date) <= DayNumber(today) + s.reminderDays)
  }

  /** The occurrence of some index below 1000 is awaited and shown as `o`. */
  ghost predicate Presents(s: ScheduledTransaction, today: Date, days: int, i: nat, o: Occurrence) {
    i < 1000 && Awaited(s, today, days, OccurrenceAt(s, i)) && Shows(s, today, OccurrenceAt(s, i), o)
  }

  lemma ListedPresents(s: ScheduledTransaction, today: Date, days: int, o: Occurrence)
    requires !s.archived && o in Upcoming(s, today, days)
    ensures exists i: nat :: Presents(s, today, days, i, o)
  {
    var w, dates := WindowOf(s, today, days), Dates(s, MAX_ITERATIONS);
    DatesIncrease(s, MAX_ITERATIONS);
    ListedExactly(w, dates);
    var l := Listed(w, dates);
    var j :| 0 <= j < |l| && l[j] == o;
    assert l[j].date in dates && w.Has(l[j].date) && l[j] == w.Entry(l[j].date);
    var i: nat :| i < |dates| && dates[i] == o.date;
    AwaitedIs(s, today, days, o.date);
    assert Presents(s, today, days, i, o);
  }

  lemma PresentIsListed(s: ScheduledTransaction, today: Date, days: int, i: nat, o: Occurrence)
    requires Presents(s, today, days, i, o) && !s.archived
    ensures o in Upcoming(s, today, days)
  {
    var w, dates := WindowOf(s, today, days), Dates(s, MAX_ITERATIONS);
    DatesIncrease(s, MAX_ITERATIONS);
    ListedExactly(w, dates);
    AwaitedIs(s, today, days, o.date);
    assert dates[i] in dates;
    assert o == w.Entry(dates[i]);
  }

  /** Upcoming is exactly the awaited dates of an unarchived schedule among its first 1000, each
      shown with the days until it and whether a reminder is due. */
  lemma UpcomingExactly(s: ScheduledTransaction, today: Date, days: int, o: Occurrence)
    ensures o in Upcoming(s, today, days) <==> !s.archived && exists i: nat :: Presents(s, today, days, i, o)
  {
    if !s.archived {
      if o in Upcoming(s, today, days) { ListedPresents(s, today, days, o); }
      forall i: nat | Presents(s, today, days, i, o) ensures o in Upcoming(s, today, days) {
        PresentIsListed(s, today, days, i, o);
      }
    }
  }

  /** The indices below `n` of awaited occurrences. */
  ghost function AwaitedBelow(s: ScheduledTransaction, today: Date, days: int, n: nat): set<nat> {
    set i: nat | i < n && Awaited(s, today, days, OccurrenceAt(s, i))
  }

  lemma OneMoreAwaited(s: ScheduledTransaction, today: Date, days: int, n: nat)
    ensures |AwaitedBelow(s, today, days, n + 1)|
         == |AwaitedBelow(s, today, days, n)| + if Awaited(s, today, days, OccurrenceAt(s, n)) then 1 else 0
  {
    var before := AwaitedBelow(s, today, days, n);
    assert AwaitedBelow(s, today, days, n + 1)
        == if Awaited(s, today, days, OccurrenceAt(s, n)) then before + {n} else before;
  }

  lemma OneMoreListed(s: ScheduledTransaction, w: Window, n: nat)
    ensures |Listed(w, Dates(s, n + 1))| == |Listed(w, Dates(s, n))| + if w.Has(OccurrenceAt(s, n)) then 1 else 0
  {
    assert Dates(s, n + 1)[..n] == Dates(s, n);
  }

  lemma {:induction false} ListedCount(s: ScheduledTransaction, today: Date, days: int, n: nat)
    ensures |Listed(WindowOf(s, today, days), Dates(s, n))| == |AwaitedBelow(s, today, days, n)|
  {
    if n == 0 {
      assert AwaitedBelow(s, today, days, n) == {};
    } else {
      ListedCount(s, today, days, n - 1);
      OneMoreListed(s, WindowOf(s, today, days), n - 1);
      OneMoreAwaited(s, today, days, n - 1);
      AwaitedIs(s, today, days, OccurrenceAt(s, n - 1));
    }
  }

  // ---------------------------------------------------------------- the next occurrence

  /** Index `k` is the first whose occurrence is not before `today`. */
  ghost predicate FirstFrom(s: ScheduledTransaction, today: Date, k: nat) {
    !Lt(OccurrenceAt(s, k), today) && (k > 0 ==> Lt(OccurrenceAt(s, k - 1), today))
  }

  /** Every schedule has such an index. */
  lemma FirstFromExists(s: ScheduledTransaction, today: Date) returns (k: nat)
    ensures FirstFrom(s, today, k)
  {
    k := 0;
    while Lt(OccurrenceAt(s, k), today)
      invariant k > 0 ==> Lt(OccurrenceAt(s, k - 1), today)
      decreases DayNumber(today) - DayNumber(OccurrenceAt(s, k))
    {
      OccurrencesAdvance(s, k);
      Chronological(OccurrenceAt(s, k), OccurrenceAt(s, k + 1));
      Chronological(OccurrenceAt(s, k), today);
      k := k + 1;
    }
  }

  /** When the next occurrence is found: it has index below 1000, it is not past the end of the
      schedule, and the schedule starts within 366 days. */
  predicate Found(s: ScheduledTransaction, today: Date, k: nat) {
    && !s.archived && k < MAX_ITERATIONS
    && (s.endDate.Some? ==> !Lt(s.endDate.value, OccurrenceAt(s, k)))
    && DayNumber(s.startDate) <= DayNumber(today) + 366
  }

  lemma HorizonReached(s: ScheduledTransaction, today: Date, k: nat)
    requires FirstFrom(s, today, k)
    ensures !Lt(AddDays(today, 366), OccurrenceAt(s, k)) <==> DayNumber(s.startDate) <= DayNumber(today) + 366
  {
    Chronological(AddDays(today, 366), OccurrenceAt(s, k));
    if k > 0 {
      OccurrencesAdvance(s, k - 1);
      if k > 1 { OccurrencesIncrease(s, 0, k - 1); }
      Chronological(OccurrenceAt(s, k - 1), today);
      Chronological(s.startDate, OccurrenceAt(s, k - 1));
    }
  }

  lemma BeforeFirst(s: ScheduledTransaction, today: Date, k: nat, dates: seq<Date>)
    requires FirstFrom(s, today, k) && dates <= Dates(s, k)
    ensures forall d :: d in dates ==> Lt(d, today)
  {
    forall i: nat | i < |dates| ensures Lt(dates[i], today) {
      if i < k - 1 { OccurrencesIncrease(s, i, k - 1); }
    }
  }

  lemma FirstListed(s: ScheduledTransaction, today: Date, k: nat)
    requires FirstFrom(s, today, k) && !s.archived
    ensures var l := Upcoming(s, today, 366);
            if Found(s, today, k) then l != [] && l[0].date == OccurrenceAt(s, k) else l == []
  {
    var w, dates := WindowOf(s, today, 366), Dates(s, MAX_ITERATIONS);
    HorizonReached(s, today, k);
    DatesIncrease(s, MAX_ITERATIONS);
    var early := dates[..if k < MAX_ITERATIONS then k else MAX_ITERATIONS];
    BeforeFirst(s, today, k, early);
    NothingBefore(w, early);
    if k >= MAX_ITERATIONS {
      assert early == dates;
    } else if Found(s, today, k) {
      assert dates[..k + 1][..k] == early;
      ListedPrefix(w, dates, k + 1);
    } else {
      NothingAfter(w, dates, k);
    }
  }

  /** The least occurrence on or after `today`, if and only if `Found`. */
  method NextOccurrence(s: ScheduledTransaction, today: Date) returns (r: Option<Date>)
    ensures forall k: nat :: FirstFrom(s, today, k) ==>
              r == if Found(s, today, k) then Some(OccurrenceAt(s, k)) else None
  {
    var upcoming := UpcomingOccurrences(s, today, 366);
    r := if upcoming == [] then None else Some(upcoming[0].date);
    forall k: nat | FirstFrom(s, today, k)
      ensures r == if Found(s, today, k) then Some(OccurrenceAt(s, k)) else None
    {
      if !s.archived { FirstListed(s, today, k); }
    }
  }

  // ---------------------------------------------------------------- committed outflow

  function Outflow(s: ScheduledTransaction, today: Date, days: int): int {
    if s.amount >= 0 then 0 else -s.amount * |Upcoming(s, today, days)|
  }

  /** An unarchived payment is counted once for every awaited occurrence. */
  lemma OutflowCounts(s: ScheduledTransaction, today: Date, days: int)
    ensures Outflow(s, today, days)
         == if s.archived || s.amount >= 0 then 0 else -s.amount * |AwaitedBelow(s, today, days, 1000)|
  {
    ListedCount(s, today, days, MAX_ITERATIONS);
  }

  function TotalOutflow(schedules: seq<ScheduledTransaction>, today: Date, days: int): int {
    if schedules == [] then 0
    else TotalOutflow(schedules[..|schedules| - 1], today, days)
         + Outflow(schedules[|schedules| - 1], today, days)
  }

  method CommittedOutflow(schedules: seq<ScheduledTransaction>, today: Date, days: int) returns (total: int)
    ensures total == TotalOutflow(schedules, today, days)
  {
    total := 0;
    for i := 0 to |schedules|
      invariant total == TotalOutflow(schedules[..i], today, days)
    {
      var schedule := schedules[i];
      assert schedules[..i + 1][..i] == schedules[..i];
      if schedule.amount >= 0 { continue; }
      var upcoming := UpcomingOccurrences(schedule, today, days);
      total := total + (if schedule.amount < 0 then -schedule.amount else schedule.amount) * |upcoming|;
    }
    assert schedules[..|schedules|] == schedules;
  }
}
