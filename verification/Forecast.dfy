/** The cash-flow forecast and the purchase simulator: cash-flow-forecast.ts and
    purchase-simulator.ts of apps/api/src/domain/insights. What was detected as recurring is input;
    the cadence that detection gives it is not. */
module Forecast {
  import opened Common
  import opened Sorting
  import opened Calendar

  datatype Cadence = Weekly | Biweekly | Semimonthly | Monthly | Quarterly | Yearly

  datatype Result<T> = Ok(value: T) | InvalidDays | InvalidAmount | InvalidDate

  // ---------------------------------------------------------------- cadences

  datatype Window = Window(cadence: Cadence, days: int, tolerance: nat)

  const INCOME_WINDOWS: seq<Window> := [
    Window(Weekly, 7, 2), Window(Biweekly, 14, 2), Window(Monthly, 30, 5), Window(Quarterly, 91, 10),
    Window(Yearly, 365, 20)]

  const CADENCE_WINDOWS: seq<Window> := [
    Window(Weekly, 7, 2), Window(Monthly, 30, 5), Window(Quarterly, 91, 10), Window(Yearly, 365, 20)]

  predicate Fits(w: Window, intervalDays: int) {
    Abs(intervalDays - w.days) <= w.tolerance
  }

  /** The cadence of the first window the interval fits. */
  function CadenceIn(windows: seq<Window>, intervalDays: int): Option<Cadence> {
    if windows == [] then None
    else if Fits(windows[0], intervalDays) then Some(windows[0].cadence)
    else CadenceIn(windows[1..], intervalDays)
  }

  /** The loop of `incomeCadenceFor` and of `classifyCadence`. */
  method CadenceFor(windows: seq<Window>, intervalDays: int) returns (r: Option<Cadence>)
    ensures r == CadenceIn(windows, intervalDays)
  {
    for i := 0 to |windows|
      invariant CadenceIn(windows, intervalDays) == CadenceIn(windows[i..], intervalDays)
    {
      assert windows[i..][1..] == windows[i + 1..];
      if Fits(windows[i], intervalDays) { return Some(windows[i].cadence); }
    }
    r := None;
  }

  lemma {:induction false} CadenceOfWindow(windows: seq<Window>, intervalDays: int, k: nat)
    requires k < |windows| && Fits(windows[k], intervalDays)
    requires forall i :: 0 <= i < |windows| && i != k ==> !Fits(windows[i], intervalDays)
    ensures CadenceIn(windows, intervalDays) == Some(windows[k].cadence)
  {
    if k > 0 { CadenceOfWindow(windows[1..], intervalDays, k - 1); }
  }

  lemma {:induction false} CadenceOfNone(windows: seq<Window>, intervalDays: int)
    requires forall i :: 0 <= i < |windows| ==> !Fits(windows[i], intervalDays)
    ensures CadenceIn(windows, intervalDays) == None
  {
    if windows != [] { CadenceOfNone(windows[1..], intervalDays); }
  }

  /** What the windows, which do not overlap, make of every interval. */
  lemma IncomeCadences(n: int)
    ensures CadenceIn(INCOME_WINDOWS, n)
         == if 5 <= n <= 9 then Some(Weekly) else if 12 <= n <= 16 then Some(Biweekly)
            else if 25 <= n <= 35 then Some(Monthly) else if 81 <= n <= 101 then Some(Quarterly)
            else if 345 <= n <= 385 then Some(Yearly) else None
  {
    var ws := INCOME_WINDOWS;
    if 5 <= n <= 9 { CadenceOfWindow(ws, n, 0); }
    else if 12 <= n <= 16 { CadenceOfWindow(ws, n, 1); }
    else if 25 <= n <= 35 { CadenceOfWindow(ws, n, 2); }
    else if 81 <= n <= 101 { CadenceOfWindow(ws, n, 3); }
    else if 345 <= n <= 385 { CadenceOfWindow(ws, n, 4); }
    else { CadenceOfNone(ws, n); }
  }

  /** A bill is never biweekly. */
  lemma BillCadences(n: int)
    ensures CadenceIn(CADENCE_WINDOWS, n)
         == if 5 <= n <= 9 then Some(Weekly) else if 25 <= n <= 35 then Some(Monthly)
            else if 81 <= n <= 101 then Some(Quarterly) else if 345 <= n <= 385 then Some(Yearly) else None
  {
    var ws := CADENCE_WINDOWS;
    if 5 <= n <= 9 { CadenceOfWindow(ws, n, 0); }
    else if 25 <= n <= 35 { CadenceOfWindow(ws, n, 1); }
    else if 81 <= n <= 101 { CadenceOfWindow(ws, n, 2); }
    else if 345 <= n <= 385 { CadenceOfWindow(ws, n, 3); }
    else { CadenceOfNone(ws, n); }
  }

  /** A recurring income or bill. */
  datatype Recurring = Recurring(merchant: string, amount: int, cadence: Cadence, intervalDays: int, date: Date)

  /** What `detectRecurringIncome` gives a series: semimonthly when its pay days look so. */
  function IncomeSeries(merchant: string, amount: int, semimonthly: bool, intervalDays: int, lastSeen: Date)
    : Option<Recurring>
  {
    var cadence := if semimonthly then Some(Semimonthly) else CadenceIn(INCOME_WINDOWS, intervalDays);
    if cadence.None? then None else Some(Recurring(merchant, amount, cadence.value, intervalDays, lastSeen))
  }

  /** What `detectSubscriptions` gives one, the next date being projected from the last. */
  function BillSeries(merchant: string, amount: int, intervalDays: int, lastSeen: Date): Option<Recurring> {
    var cadence := CadenceIn(CADENCE_WINDOWS, intervalDays);
    if cadence.None? then None
    else Some(Recurring(merchant, amount, cadence.value, intervalDays,
                        NextOccurrence(lastSeen, cadence.value, intervalDays)))
  }

  /** What the rest of the forecast relies on. */
  predicate Detected(r: Recurring) {
    && (r.cadence == Weekly ==> 5 <= r.intervalDays <= 9)
    && (r.cadence == Biweekly ==> 12 <= r.intervalDays <= 16)
  }

  /** Every series that detection lets through meets it. */
  lemma DetectionHolds(merchant: string, amount: int, semimonthly: bool, intervalDays: int, lastSeen: Date)
    ensures var income := IncomeSeries(merchant, amount, semimonthly, intervalDays, lastSeen);
            income.Some? ==> Detected(income.value)
    ensures var bill := BillSeries(merchant, amount, intervalDays, lastSeen);
            bill.Some? ==> Detected(bill.value)
  {
    IncomeCadences(intervalDays);
    BillCadences(intervalDays);
  }

  /** What detection says of a series: twice a month when the pay days look so, otherwise by its interval;
      an income keeps its last day, a bill the day after it by its cadence. */
  lemma SeriesDetected(merchant: string, amount: int, semimonthly: bool, n: int, lastSeen: Date)
    ensures var income := IncomeSeries(merchant, amount, semimonthly, n, lastSeen);
      && (income.Some? <==> semimonthly || 5 <= n <= 9 || 12 <= n <= 16 || 25 <= n <= 35 || 81 <= n <= 101
                            || 345 <= n <= 385)
      && (income.Some? ==>
            && Describes(income.value, merchant, amount, n) && income.value.date == lastSeen
            && income.value.cadence
               == if semimonthly then Semimonthly else if n <= 9 then Weekly else if n <= 16 then Biweekly
                  else if n <= 35 then Monthly else if n <= 101 then Quarterly else Yearly)
    ensures var bill := BillSeries(merchant, amount, n, lastSeen);
      && (bill.Some? <==> 5 <= n <= 9 || 25 <= n <= 35 || 81 <= n <= 101 || 345 <= n <= 385)
      && (bill.Some? ==>
            && Describes(bill.value, merchant, amount, n) && bill.value.date == After(bill.value, lastSeen)
            && bill.value.cadence
               == if n <= 9 then Weekly else if n <= 35 then Monthly else if n <= 101 then Quarterly else Yearly)
  {
    IncomeCadences(n);
    BillCadences(n);
  }

  predicate Describes(r: Recurring, merchant: string, amount: int, intervalDays: int) {
    r.merchant == merchant && r.amount == amount && r.intervalDays == intervalDays
  }

  ghost predicate AllDetected(rs: seq<Recurring>) {
    forall i :: 0 <= i < |rs| ==> Detected(rs[i])
  }

  function NextOccurrence(x: Date, cadence: Cadence, intervalDays: int): Date {
    match cadence
    case Weekly => AddDays(x, intervalDays)
    case Biweekly => AddDays(x, intervalDays)
    case Semimonthly => if x.day <= 7 then Raw(x.month, 15) else Raw(AddMonths(Raw(x.month, 1), 1).month, 1)
    case Monthly => AddMonths(x, 1)
    case Quarterly => AddMonths(x, 3)
    case Yearly => AddMonths(x, 12)
  }

  function After(r: Recurring, x: Date): Date {
    NextOccurrence(x, r.cadence, r.intervalDays)
  }

  /** Every cadence moves on. */
  lemma Advances(r: Recurring, x: Date)
    requires Detected(r)
    ensures Lt(x, After(r, x)) && DayNumber(x) < DayNumber(After(r, x))
  {
    Chronological(x, After(r, x));
    AddMonthsLaws(x, 1);
    AddMonthsLaws(x, 3);
    AddMonthsLaws(x, 12);
  }

  /** The next occurrence, by cadence. */
  lemma NextByCadence(r: Recurring, x: Date)
    ensures r.cadence in {Weekly, Biweekly} ==> DayNumber(After(r, x)) == DayNumber(x) + r.intervalDays
    ensures r.cadence == Monthly ==> MonthsOn(x, After(r, x), 1)
    ensures r.cadence == Quarterly ==> MonthsOn(x, After(r, x), 3)
    ensures r.cadence == Yearly ==> MonthsOn(x, After(r, x), 12)
    ensures r.cadence == Semimonthly && x.day <= 7 ==> After(r, x).month == x.month && After(r, x).day == 15
    ensures r.cadence == Semimonthly && x.day > 7 ==> After(r, x).month == x.month + 1 && After(r, x).day == 1
  {}

  /** So many months later, on the same day or the last of the month. */
  ghost predicate MonthsOn(a: Date, b: Date, months: int) {
    b.month == a.month + months && b.day == if a.day <= DaysInMonth(b.month) then a.day else DaysInMonth(b.month)
  }

  function DaysLeft(x: Date, last: Date): nat {
    var n := DayNumber(last) - DayNumber(x) + 1;
    if n > 0 then n else 0
  }

  lemma FewerDaysLeft(r: Recurring, x: Date, last: Date)
    requires Detected(r) && Le(x, last)
    ensures DaysLeft(After(r, x), last) < DaysLeft(x, last)
  {
    Advances(r, x);
    Chronological(x, last);
  }

  // ---------------------------------------------------------------- events

  datatype Event = Event(date: Date, amount: int, merchant: string, income: bool)

  /** The first occurrence from `x` on that is after `asOf`. */
  function Upcoming(r: Recurring, x: Date, asOf: Date): Date
    requires Detected(r)
    decreases DaysLeft(x, asOf)
  {
    if Le(x, asOf) then
      FewerDaysLeft(r, x, asOf);
      Upcoming(r, After(r, x), asOf)
    else x
  }

  function EventOf(r: Recurring, income: bool, x: Date): Event {
    Event(x, if income then r.amount else -r.amount, r.merchant, income)
  }

  function EventsFrom(r: Recurring, income: bool, x: Date, end: Date): seq<Event>
    requires Detected(r)
    decreases DaysLeft(x, end)
  {
    if Le(x, end) then
      FewerDaysLeft(r, x, end);
      [EventOf(r, income, x)] + EventsFrom(r, income, After(r, x), end)
    else []
  }

  /** An income was last seen on its date; a bill is next expected on it. */
  function FirstDate(r: Recurring, income: bool): Date {
    if income then After(r, r.date) else r.date
  }

  function EventsOf(r: Recurring, income: bool, asOf: Date, end: Date): seq<Event>
    requires Detected(r)
  {
    EventsFrom(r, income, Upcoming(r, FirstDate(r, income), asOf), end)
  }

  function AllEvents(rs: seq<Recurring>, income: bool, asOf: Date, end: Date): seq<Event>
    requires AllDetected(rs)
  {
    if rs == [] then []
    else
      assert Detected(rs[|rs| - 1]);
      AllEvents(rs[..|rs| - 1], income, asOf, end) + EventsOf(rs[|rs| - 1], income, asOf, end)
  }

  function ByDateThenAmount(): (Event, Event) -> bool {
    (a: Event, b: Event) => Lt(a.date, b.date) || (a.date == b.date && a.amount >= b.amount)
  }

  lemma SkipOne(r: Recurring, x: Date, asOf: Date)
    requires Detected(r) && Le(x, asOf)
    ensures Upcoming(r, x, asOf) == Upcoming(r, After(r, x), asOf) && DaysLeft(After(r, x), asOf) < DaysLeft(x, asOf)
  {
    FewerDaysLeft(r, x, asOf);
  }

  /** The loop past the occurrences up to `asOf`. */
  method SkipPast(r: Recurring, first: Date, asOf: Date) returns (date: Date)
    requires Detected(r)
    ensures date == Upcoming(r, first, asOf)
  {
    date := first;
    while Le(date, asOf)
      invariant Upcoming(r, date, asOf) == Upcoming(r, first, asOf)
      decreases DaysLeft(date, asOf)
    {
      SkipOne(r, date, asOf);
      date := After(r, date);
    }
  }

  lemma CollectOne(r: Recurring, income: bool, x: Date, end: Date)
    requires Detected(r) && Le(x, end)
    ensures EventsFrom(r, income, x, end) == [EventOf(r, income, x)] + EventsFrom(r, income, After(r, x), end)
    ensures DaysLeft(After(r, x), end) < DaysLeft(x, end)
  {
    FewerDaysLeft(r, x, end);
  }

  lemma Reassociate(a: seq<Event>, b: seq<Event>, c: seq<Event>)
    ensures a + (b + c) == (a + b) + c
  {}

  /** The loop over the occurrences up to `end`. */
  method CollectFrom(r: Recurring, income: bool, first: Date, end: Date) returns (events: seq<Event>)
    requires Detected(r)
    ensures events == EventsFrom(r, income, first, end)
  {
    var date: Date := first;
    events := [];
    while Le(date, end)
      invariant events + EventsFrom(r, income, date, end) == EventsFrom(r, income, first, end)
      decreases DaysLeft(date, end)
    {
      CollectOne(r, income, date, end);
      Reassociate(events, [EventOf(r, income, date)], EventsFrom(r, income, After(r, date), end));
      events := events + [EventOf(r, income, date)];
      date := After(r, date);
    }
  }

  /** The two loops over one series. */
  method CollectSeries(r: Recurring, income: bool, asOf: Date, end: Date) returns (events: seq<Event>)
    requires Detected(r)
    ensures events == EventsOf(r, income, asOf, end)
  {
    var date := SkipPast(r, FirstDate(r, income), asOf);
    events := CollectFrom(r, income, date, end);
  }

  method CollectEvents(rs: seq<Recurring>, income: bool, asOf: Date, end: Date) returns (events: seq<Event>)
    requires AllDetected(rs)
    ensures events == AllEvents(rs, income, asOf, end)
  {
    events := [];
    for i := 0 to |rs|
      invariant events == AllEvents(rs[..i], income, asOf, end)
    {
      assert rs[..i + 1][..i] == rs[..i];
      var more := CollectSeries(rs[i], income, asOf, end);
      events := events + more;
    }
    assert rs[..|rs|] == rs;
  }

  // ---------------------------------------------------------------- which events there are

  /** The n-th occurrence counted from `x`. */
  function Nth(r: Recurring, x: Date, n: nat): Date
    decreases n
  {
    if n == 0 then x else Nth(r, After(r, x), n - 1)
  }

  ghost predicate Occurs(r: Recurring, x: Date, day: Date) {
    exists n: nat :: Nth(r, x, n) == day
  }

  lemma OccursNext(r: Recurring, x: Date, day: Date)
    ensures Occurs(r, x, day) <==> day == x || Occurs(r, After(r, x), day)
  {
    assert Nth(r, x, 0) == x;
    if n: nat :| Nth(r, x, n) == day && n > 0 { assert Nth(r, After(r, x), n - 1) == day; }
    if n: nat :| Nth(r, After(r, x), n) == day { assert Nth(r, x, n + 1) == day; }
  }

  lemma {:induction false} OccursLater(r: Recurring, x: Date, n: nat)
    requires Detected(r)
    ensures DayNumber(Nth(r, x, n)) >= DayNumber(x) + n
    decreases n
  {
    if n > 0 {
      Advances(r, x);
      OccursLater(r, After(r, x), n - 1);
    }
  }

  lemma NoneBefore(r: Recurring, x: Date, day: Date)
    requires Detected(r) && Occurs(r, x, day)
    ensures Le(x, day)
  {
    var n: nat :| Nth(r, x, n) == day;
    OccursLater(r, x, n);
    Chronological(x, day);
  }

  /** Skipping loses nothing after `asOf`. */
  lemma {:induction false} UpcomingLaws(r: Recurring, x: Date, asOf: Date, day: Date)
    requires Detected(r)
    ensures Lt(asOf, Upcoming(r, x, asOf))
    ensures Occurs(r, Upcoming(r, x, asOf), day) <==> Occurs(r, x, day) && Lt(asOf, day)
    decreases DaysLeft(x, asOf)
  {
    if Le(x, asOf) {
      FewerDaysLeft(r, x, asOf);
      UpcomingLaws(r, After(r, x), asOf, day);
      OccursNext(r, x, day);
    } else if Occurs(r, x, day) {
      NoneBefore(r, x, day);
    }
  }

  /** The event of a series on one of its dates: money in for an income, out for a bill. */
  ghost predicate Announces(e: Event, r: Recurring, income: bool) {
    e.income == income && e.merchant == r.merchant && e.amount == if income then r.amount else -r.amount
  }

  lemma {:induction false} EventsFromLaws(r: Recurring, income: bool, x: Date, end: Date, e: Event)
    requires Detected(r)
    ensures e in EventsFrom(r, income, x, end)
            <==> Announces(e, r, income) && Occurs(r, x, e.date) && Le(e.date, end)
    decreases DaysLeft(x, end)
  {
    OccursNext(r, x, e.date);
    if Le(x, end) {
      FewerDaysLeft(r, x, end);
      EventsFromLaws(r, income, After(r, x), end, e);
    } else if Occurs(r, x, e.date) {
      NoneBefore(r, x, e.date);
    }
  }

  /** The events of an income are its occurrences in (asOf, end] behind the last one seen, each with its
      amount; those of a bill are its occurrences from the next one expected on, each with minus its amount. */
  lemma EventsOfExactly(r: Recurring, income: bool, asOf: Date, end: Date, e: Event)
    requires Detected(r)
    ensures e in EventsOf(r, income, asOf, end)
       <==> Announces(e, r, income) && Lt(asOf, e.date) && Le(e.date, end)
            && Occurs(r, if income then After(r, r.date) else r.date, e.date)
  {
    UpcomingLaws(r, FirstDate(r, income), asOf, e.date);
    EventsFromLaws(r, income, Upcoming(r, FirstDate(r, income), asOf), end, e);
  }

  /** Each of them once, in order of date. */
  lemma {:induction false} EventsFromIncrease(r: Recurring, income: bool, x: Date, end: Date, i: nat, j: nat)
    requires Detected(r) && i < j < |EventsFrom(r, income, x, end)|
    ensures Lt(EventsFrom(r, income, x, end)[i].date, EventsFrom(r, income, x, end)[j].date)
    decreases DaysLeft(x, end)
  {
    FewerDaysLeft(r, x, end);
    var rest := EventsFrom(r, income, After(r, x), end);
    if i > 0 {
      EventsFromIncrease(r, income, After(r, x), end, i - 1, j - 1);
    } else {
      var e := rest[j - 1];
      assert e in rest;
      EventsFromLaws(r, income, After(r, x), end, e);
      NoneBefore(r, After(r, x), e.date);
      Advances(r, x);
    }
  }

  lemma {:induction false} AllEventsExactly(rs: seq<Recurring>, income: bool, asOf: Date, end: Date, e: Event)
    requires AllDetected(rs)
    ensures e in AllEvents(rs, income, asOf, end) <==>
              exists i :: 0 <= i < |rs| && Detected(rs[i]) && e in EventsOf(rs[i], income, asOf, end)
  {
    if rs != [] {
      var init, last := rs[..|rs| - 1], rs[|rs| - 1];
      assert Detected(last);
      AllEventsExactly(init, income, asOf, end, e);
      assert forall i :: 0 <= i < |init| ==> init[i] == rs[i];
    }
  }

  /** Every event is after `asOf` and not after `end`. */
  ghost predicate InWindow(events: seq<Event>, asOf: Date, end: Date) {
    forall e :: e in events ==> Lt(asOf, e.date) && Le(e.date, end)
  }

  lemma AllEventsInWindow(rs: seq<Recurring>, income: bool, asOf: Date, end: Date)
    requires AllDetected(rs)
    ensures InWindow(AllEvents(rs, income, asOf, end), asOf, end)
  {
    forall e | e in AllEvents(rs, income, asOf, end) ensures Lt(asOf, e.date) && Le(e.date, end) {
      AllEventsExactly(rs, income, asOf, end, e);
      var i :| 0 <= i < |rs| && Detected(rs[i]) && e in EventsOf(rs[i], income, asOf, end);
      EventsOfExactly(rs[i], income, asOf, end, e);
    }
  }

  /** How many occurrences from `x` on are after `asOf` and not after `date`. */
  function TimesIn(r: Recurring, x: Date, asOf: Date, date: Date): nat
    requires Detected(r)
    decreases DaysLeft(x, date)
  {
    if Le(x, date) then
      FewerDaysLeft(r, x, date);
      (if Lt(asOf, x) then 1 else 0) + TimesIn(r, After(r, x), asOf, date)
    else 0
  }

  /** The n-th occurrence of a series in days and months. */
  lemma {:induction false} NthByCadence(r: Recurring, x: Date, n: nat)
    ensures r.cadence in {Weekly, Biweekly} ==> DayNumber(Nth(r, x, n)) == DayNumber(x) + n * r.intervalDays
    ensures r.cadence == Monthly ==> Nth(r, x, n).month == x.month + n
    ensures r.cadence == Quarterly ==> Nth(r, x, n).month == x.month + 3 * n
    ensures r.cadence == Yearly ==> Nth(r, x, n).month == x.month + 12 * n
    decreases n
  {
    if n > 0 {
      NextByCadence(r, x);
      NthByCadence(r, After(r, x), n - 1);
      assert (n - 1) * r.intervalDays + r.intervalDays == n * r.intervalDays;
    }
  }

  /** Pay days twice a month: the 15th and the 1st in turn. */
  lemma {:induction false} NthSemimonthly(r: Recurring, x: Date, n: nat)
    requires r.cadence == Semimonthly
    ensures n > 0 && x.day <= 7 && n % 2 == 1 ==> Nth(r, x, n) == Raw(x.month + n / 2, 15)
    ensures n > 0 && x.day <= 7 && n % 2 == 0 ==> Nth(r, x, n) == Raw(x.month + n / 2, 1)
    ensures n > 0 && x.day > 7 && n % 2 == 1 ==> Nth(r, x, n) == Raw(x.month + (n + 1) / 2, 1)
    ensures n > 0 && x.day > 7 && n % 2 == 0 ==> Nth(r, x, n) == Raw(x.month + n / 2, 15)
    decreases n
  {
    if n > 0 {
      NextByCadence(r, x);
      assert Nth(r, After(r, x), 0) == After(r, x);
      NthSemimonthly(r, After(r, x), n - 1);
    }
  }

  // ---------------------------------------------------------------- balances

  datatype Account = Account(currency: string, kind: string, balanceCurrent: int)

  predicate Spendable(a: Account, currency: string) {
    a.currency == currency && (a.kind == "checking" || a.kind == "savings" || a.kind == "cash")
  }

  function StartingBalance(accounts: seq<Account>, currency: string): int {
    if accounts == [] then 0
    else (if Spendable(accounts[0], currency) then accounts[0].balanceCurrent else 0)
         + StartingBalance(accounts[1..], currency)
  }

  function SumOn(events: seq<Event>, date: Date): int {
    if events == [] then 0
    else SumOn(events[..|events| - 1], date)
         + (if events[|events| - 1].date == date then events[|events| - 1].amount else 0)
  }

  /** All events dated on or before `date`. */
  function SumUpto(events: seq<Event>, date: Date): int {
    if events == [] then 0
    else SumUpto(events[..|events| - 1], date)
         + (if Le(events[|events| - 1].date, date) then events[|events| - 1].amount else 0)
  }

  lemma {:induction false} SumNextDay(events: seq<Event>, x: Date, y: Date)
    requires DayNumber(y) == DayNumber(x) + 1
    ensures SumUpto(events, y) == SumUpto(events, x) + SumOn(events, y)
  {
    if events != [] {
      var e := events[|events| - 1];
      SumNextDay(events[..|events| - 1], x, y);
      Chronological(e.date, x);
      Chronological(e.date, y);
    }
  }

  lemma {:induction false} SumOfNone(events: seq<Event>, x: Date)
    requires forall e :: e in events ==> Lt(x, e.date)
    ensures SumUpto(events, x) == 0
  {
    if events != [] {
      assert events[|events| - 1] in events && forall e :: e in events[..|events| - 1] ==> e in events;
      SumOfNone(events[..|events| - 1], x);
    }
  }

  lemma {:induction false} SumAppend(a: seq<Event>, b: seq<Event>, date: Date)
    ensures SumUpto(a + b, date) == SumUpto(a, date) + SumUpto(b, date)
  {
    if b == [] {
      assert a + b == a;
    } else {
      assert (a + b)[..|a + b| - 1] == a + b[..|b| - 1];
      SumAppend(a, b[..|b| - 1], date);
    }
  }

  function Without(events: seq<Event>, k: nat): seq<Event>
    requires k < |events|
  {
    events[..k] + events[k + 1..]
  }

  lemma SumWithout(events: seq<Event>, k: nat, date: Date)
    requires k < |events|
    ensures SumUpto(events, date) == SumUpto(Without(events, k), date) + SumUpto([events[k]], date)
  {
    assert events == events[..k] + ([events[k]] + events[k + 1..]);
    SumAppend(events[..k], [events[k]] + events[k + 1..], date);
    SumAppend([events[k]], events[k + 1..], date);
    SumAppend(events[..k], events[k + 1..], date);
  }

  lemma WithoutOne(events: seq<Event>, k: nat)
    requires k < |events|
    ensures multiset(Without(events, k)) == multiset(events) - multiset{events[k]}
  {
    assert events == events[..k] + [events[k]] + events[k + 1..];
  }

  /** A sum does not depend on the order. */
  lemma {:induction false} SumPermutes(a: seq<Event>, b: seq<Event>, date: Date)
    requires multiset(a) == multiset(b)
    ensures SumUpto(a, date) == SumUpto(b, date)
    decreases |a|
  {
    if a == [] {
      assert |multiset(b)| == 0;
    } else {
      assert a[0] in multiset(a);
      var k :| 0 <= k < |b| && b[k] == a[0];
      WithoutOne(a, 0);
      WithoutOne(b, k);
      SumPermutes(Without(a, 0), Without(b, k), date);
      SumWithout(a, 0, date);
      SumWithout(b, k, date);
    }
  }

  /** What so many events of a series come to. */
  function Worth(r: Recurring, income: bool, times: nat): int
    decreases times
  {
    if times == 0 then 0 else (if income then r.amount else -r.amount) + Worth(r, income, times - 1)
  }

  lemma {:induction false} WorthIs(r: Recurring, income: bool, times: nat)
    ensures Worth(r, income, times) == if income then r.amount * times else -(r.amount * times)
    decreases times
  {
    if times > 0 {
      WorthIs(r, income, times - 1);
      assert r.amount * times == r.amount * (times - 1) + r.amount;
    }
  }

  lemma TimesStep(r: Recurring, x: Date, asOf: Date, date: Date)
    requires Detected(r) && Lt(asOf, x)
    ensures TimesIn(r, x, asOf, date) == if Le(x, date) then 1 + TimesIn(r, After(r, x), asOf, date) else 0
    ensures Lt(asOf, After(r, x)) && (!Le(x, date) ==> TimesIn(r, After(r, x), asOf, date) == 0)
  {
    Advances(r, x);
    Chronological(asOf, x);
    Chronological(asOf, After(r, x));
    Chronological(x, date);
    Chronological(After(r, x), date);
  }

  lemma OneEvent(r: Recurring, income: bool, x: Date, date: Date)
    ensures SumUpto([EventOf(r, income, x)], date)
         == if Le(x, date) then (if income then r.amount else -r.amount) else 0
  {
    assert [EventOf(r, income, x)][..0] == [];
  }

  lemma PastEnd(x: Date, date: Date, end: Date)
    requires Le(date, end)
    ensures !Le(x, end) ==> !Le(x, date)
  {
    Chronological(x, end);
    Chronological(date, end);
    Chronological(x, date);
  }

  lemma {:induction false} SeriesSum(r: Recurring, income: bool, x: Date, asOf: Date, end: Date, date: Date)
    requires Detected(r) && Lt(asOf, x) && Le(date, end)
    ensures SumUpto(EventsFrom(r, income, x, end), date) == Worth(r, income, TimesIn(r, x, asOf, date))
    decreases DaysLeft(x, end)
  {
    TimesStep(r, x, asOf, date);
    PastEnd(x, date, end);
    if Le(x, end) {
      CollectOne(r, income, x, end);
      SeriesSum(r, income, After(r, x), asOf, end, date);
      SumAppend([EventOf(r, income, x)], EventsFrom(r, income, After(r, x), end), date);
      OneEvent(r, income, x, date);
    }
  }

  /** Occurrences up to `asOf` do not count. */
  lemma {:induction false} TimesFromUpcoming(r: Recurring, x: Date, asOf: Date, date: Date)
    requires Detected(r)
    ensures TimesIn(r, x, asOf, date) == TimesIn(r, Upcoming(r, x, asOf), asOf, date)
    decreases DaysLeft(x, asOf)
  {
    if Le(x, asOf) {
      FewerDaysLeft(r, x, asOf);
      TimesFromUpcoming(r, After(r, x), asOf, date);
      Chronological(x, asOf);
      Chronological(x, date);
      Chronological(asOf, x);
      if !Le(x, date) { LaterStill(r, x, asOf, date); }
    }
  }

  lemma LaterStill(r: Recurring, x: Date, asOf: Date, date: Date)
    requires Detected(r) && !Le(x, date)
    ensures TimesIn(r, After(r, x), asOf, date) == 0 == TimesIn(r, x, asOf, date)
  {
    Advances(r, x);
    Chronological(x, date);
    Chronological(After(r, x), date);
  }

  lemma SeriesTotal(r: Recurring, income: bool, asOf: Date, end: Date, date: Date)
    requires Detected(r) && Le(date, end)
    ensures SumUpto(EventsOf(r, income, asOf, end), date)
         == if income then r.amount * TimesIn(r, After(r, r.date), asOf, date)
            else -(r.amount * TimesIn(r, r.date, asOf, date))
  {
    var first := FirstDate(r, income);
    UpcomingLaws(r, first, asOf, first);
    SeriesSum(r, income, Upcoming(r, first, asOf), asOf, end, date);
    TimesFromUpcoming(r, first, asOf, date);
    WorthIs(r, income, TimesIn(r, first, asOf, date));
  }

  /** What the incomes bring in after `asOf` and not after `date`. */
  function Incoming(rs: seq<Recurring>, asOf: Date, date: Date): int
    requires AllDetected(rs)
  {
    if rs == [] then 0
    else
      var last := rs[|rs| - 1];
      assert Detected(last);
      Incoming(rs[..|rs| - 1], asOf, date) + last.amount * TimesIn(last, After(last, last.date), asOf, date)
  }

  /** What the bills take. */
  function Outgoing(rs: seq<Recurring>, asOf: Date, date: Date): int
    requires AllDetected(rs)
  {
    if rs == [] then 0
    else
      var last := rs[|rs| - 1];
      assert Detected(last);
      Outgoing(rs[..|rs| - 1], asOf, date) + last.amount * TimesIn(last, last.date, asOf, date)
  }

  lemma {:induction false} AllTotal(rs: seq<Recurring>, income: bool, asOf: Date, end: Date, date: Date)
    requires AllDetected(rs) && Le(date, end)
    ensures SumUpto(AllEvents(rs, income, asOf, end), date)
         == if income then Incoming(rs, asOf, date) else -Outgoing(rs, asOf, date)
  {
    if rs != [] {
      var init, last := rs[..|rs| - 1], rs[|rs| - 1];
      assert Detected(last);
      AllTotal(init, income, asOf, end, date);
      SeriesTotal(last, income, asOf, end, date);
      SumAppend(AllEvents(init, income, asOf, end), EventsOf(last, income, asOf, end), date);
    }
  }

  datatype Point = Point(date: Date, balance: int)

  datatype CashFlow = CashFlow(startingBalance: int, points: seq<Point>, events: seq<Event>, lowBalanceDates: seq<Date>)

  /** One point for each of the `days` days after `asOf`, with the starting balance and all events
      dated on or before it. */
  ghost predicate Adds(points: seq<Point>, startingBalance: int, events: seq<Event>, asOf: Date, days: nat) {
    && |points| == days
    && forall k :: 0 <= k < days ==>
         points[k].date == AddDays(asOf, k + 1)
           && points[k].balance == startingBalance + SumUpto(events, points[k].date)
  }

  function LowDates(points: seq<Point>): seq<Date> {
    if points == [] then []
    else LowDates(points[..|points| - 1])
         + (if points[|points| - 1].balance < 0 then [points[|points| - 1].date] else [])
  }

  /** `eventsByDate.get(date) ?? 0` */
  function Entry(byDate: map<Date, int>, date: Date): int {
    if date in byDate then byDate[date] else 0
  }

  ghost predicate SumsByDate(byDate: map<Date, int>, events: seq<Event>) {
    forall d: Date :: Entry(byDate, d) == SumOn(events, d)
  }

  lemma SumsOneMore(byDate: map<Date, int>, events: seq<Event>, e: Event)
    requires SumsByDate(byDate, events)
    ensures SumsByDate(byDate[e.date := Entry(byDate, e.date) + e.amount], events + [e])
  {
    var more := byDate[e.date := Entry(byDate, e.date) + e.amount];
    assert (events + [e])[..|events|] == events;
    forall d: Date ensures Entry(more, d) == SumOn(events + [e], d) {
      assert Entry(byDate, d) == SumOn(events, d);
    }
  }

  method SumByDate(events: seq<Event>) returns (byDate: map<Date, int>)
    ensures SumsByDate(byDate, events)
  {
    byDate := map[];
    for i := 0 to |events|
      invariant SumsByDate(byDate, events[..i])
    {
      assert events[..i + 1] == events[..i] + [events[i]];
      SumsOneMore(byDate, events[..i], events[i]);
      byDate := byDate[events[i].date := Entry(byDate, events[i].date) + events[i].amount];
    }
    assert events[..|events|] == events;
  }

  /** The balance carried to the next day. */
  lemma NextBalance(byDate: map<Date, int>, events: seq<Event>, startingBalance: int, today: Date, date: Date)
    requires SumsByDate(byDate, events) && DayNumber(date) == DayNumber(today) + 1
    ensures startingBalance + SumUpto(events, today) + Entry(byDate, date) == startingBalance + SumUpto(events, date)
  {
    assert Entry(byDate, date) == SumOn(events, date);
    SumNextDay(events, today, date);
  }

  lemma NextPoint(points: seq<Point>, startingBalance: int, events: seq<Event>, asOf: Date, k: nat, p: Point)
    requires Adds(points, startingBalance, events, asOf, k)
    requires p.date == AddDays(asOf, k + 1) && p.balance == startingBalance + SumUpto(events, p.date)
    ensures Adds(points + [p], startingBalance, events, asOf, k + 1)
    ensures LowDates(points + [p]) == LowDates(points) + (if p.balance < 0 then [p.date] else [])
  {
    assert (points + [p])[..|points|] == points;
  }

  method RunBalances(startingBalance: int, events: seq<Event>, asOf: Date, days: nat)
    returns (points: seq<Point>, lowBalanceDates: seq<Date>)
    requires forall e :: e in events ==> Lt(asOf, e.date)
    ensures Adds(points, startingBalance, events, asOf, days) && lowBalanceDates == LowDates(points)
  {
    var eventsByDate := SumByDate(events);
    points, lowBalanceDates := [], [];
    var balance := startingBalance;
    SumOfNone(events, asOf);
    ghost var today := asOf;
    for offset := 1 to days + 1
      invariant DayNumber(today) == DayNumber(asOf) + offset - 1
      invariant balance == startingBalance + SumUpto(events, today)
      invariant Adds(points, startingBalance, events, asOf, offset - 1)
      invariant lowBalanceDates == LowDates(points)
    {
      var date := AddDays(asOf, offset);
      NextBalance(eventsByDate, events, startingBalance, today, date);
      balance := balance + Entry(eventsByDate, date);
      NextPoint(points, startingBalance, events, asOf, offset - 1, Point(date, balance));
      points := points + [Point(date, balance)];
      if balance < 0 { lowBalanceDates := lowBalanceDates + [date]; }
      today := date;
    }
  }

  /** The events of the forecast: exactly the occurrences in (asOf, asOf + days], in order of date,
      larger amounts first. */
  ghost predicate Expected(events: seq<Event>, incomes: seq<Recurring>, bills: seq<Recurring>, asOf: Date, end: Date)
    requires AllDetected(incomes) && AllDetected(bills)
  {
    && Sorted(ByDateThenAmount(), events)
    && multiset(events) == multiset(AllEvents(incomes, true, asOf, end) + AllEvents(bills, false, asOf, end))
  }

  /** Each balance of a forecast is the starting balance with every income added, and every bill taken off,
      as often as it occurs after `asOf` and not after that day. */
  lemma BalancesExplained(flow: CashFlow, incomes: seq<Recurring>, bills: seq<Recurring>, asOf: Date, days: nat,
                          k: nat)
    requires AllDetected(incomes) && AllDetected(bills) && k < days
    requires Expected(flow.events, incomes, bills, asOf, AddDays(asOf, days))
    requires Adds(flow.points, flow.startingBalance, flow.events, asOf, days)
    ensures DayNumber(flow.points[k].date) == DayNumber(asOf) + k + 1
    ensures flow.points[k].balance == flow.startingBalance + Incoming(incomes, asOf, flow.points[k].date)
                                      - Outgoing(bills, asOf, flow.points[k].date)
  {
    var end, date := AddDays(asOf, days), flow.points[k].date;
    var income, expense := AllEvents(incomes, true, asOf, end), AllEvents(bills, false, asOf, end);
    Chronological(date, end);
    SumPermutes(flow.events, income + expense, date);
    SumAppend(income, expense, date);
    AllTotal(incomes, true, asOf, end, date);
    AllTotal(bills, false, asOf, end, date);
  }

  /** The events come in order of date, larger amounts first on the same day. */
  lemma EventsInOrder(events: seq<Event>, incomes: seq<Recurring>, bills: seq<Recurring>, asOf: Date, end: Date,
                      i: nat, j: nat)
    requires AllDetected(incomes) && AllDetected(bills) && Expected(events, incomes, bills, asOf, end)
    requires i < j < |events|
    ensures DayNumber(events[i].date) <= DayNumber(events[j].date)
    ensures events[i].date == events[j].date ==> events[i].amount >= events[j].amount
  {
    assert ByDateThenAmount()(events[i], events[j]);
    Chronological(events[i].date, events[j].date);
  }

  /** A low date is the date of a point below zero. */
  lemma {:induction false} LowDatesAre(points: seq<Point>, date: Date)
    ensures date in LowDates(points)
       <==> exists k :: 0 <= k < |points| && points[k].date == date && points[k].balance < 0
  {
    if points != [] {
      var init, last := points[..|points| - 1], points[|points| - 1];
      LowDatesAre(init, date);
      assert points == init + [last];
      assert last == points[|points| - 1];
      forall k | 0 <= k < |init| ensures init[k] == points[k] {}
    }
  }

  /** The starting balance adds up the checking, savings and cash accounts of the currency. */
  lemma {:induction false} StartsWith(accounts: seq<Account>, a: Account, currency: string)
    ensures StartingBalance([], currency) == 0
    ensures StartingBalance(accounts + [a], currency)
         == StartingBalance(accounts, currency)
            + (if a.currency == currency && a.kind in {"checking", "savings", "cash"} then a.balanceCurrent else 0)
  {
    if accounts == [] {
      assert [] + [a] == [a] && [a][1..] == [];
    } else {
      assert (accounts + [a])[1..] == accounts[1..] + [a];
      StartsWith(accounts[1..], a, currency);
    }
  }

  method ForecastCashFlow(accounts: seq<Account>, incomes: seq<Recurring>, bills: seq<Recurring>, asOf: Date,
                          days: int, currency: string)
    returns (r: Result<CashFlow>)
    requires AllDetected(incomes) && AllDetected(bills)
    ensures r.Ok? <==> 1 <= days <= 90
    ensures !r.Ok? ==> r == InvalidDays
    ensures r.Ok? ==>
              && r.value.startingBalance == StartingBalance(accounts, currency)
              && Expected(r.value.events, incomes, bills, asOf, AddDays(asOf, days))
              && InWindow(r.value.events, asOf, AddDays(asOf, days))
              && Adds(r.value.points, r.value.startingBalance, r.value.events, asOf, days)
              && r.value.lowBalanceDates == LowDates(r.value.points)
  {
    if days < 1 || days > 90 { return InvalidDays; }
    var startingBalance := StartingBalance(accounts, currency);
    var end := AddDays(asOf, days);
    var income := CollectEvents(incomes, true, asOf, end);
    var expense := CollectEvents(bills, false, asOf, end);
    var events := SortBy(ByDateThenAmount(), income + expense);
    EventsSorted(income, expense, asOf, end, incomes, bills);
    var points, low := RunBalances(startingBalance, events, asOf, days);
    r := Ok(CashFlow(startingBalance, points, events, low));
  }

  lemma DateThenAmountOrders(events: seq<Event>)
    ensures Orders(ByDateThenAmount(), events)
  {}

  lemma SortKeepsWindow(events: seq<Event>, asOf: Date, end: Date)
    requires InWindow(events, asOf, end)
    ensures var sorted := SortBy(ByDateThenAmount(), events);
            InWindow(sorted, asOf, end) && Sorted(ByDateThenAmount(), sorted) && multiset(sorted) == multiset(events)
  {
    DateThenAmountOrders(events);
    SortElements(ByDateThenAmount(), events);
    SameElements(SortBy(ByDateThenAmount(), events), events);
    SortSorted(ByDateThenAmount(), events);
  }

  lemma EventsSorted(income: seq<Event>, expense: seq<Event>, asOf: Date, end: Date, incomes: seq<Recurring>,
                     bills: seq<Recurring>)
    requires AllDetected(incomes) && AllDetected(bills)
    requires income == AllEvents(incomes, true, asOf, end) && expense == AllEvents(bills, false, asOf, end)
    ensures Expected(SortBy(ByDateThenAmount(), income + expense), incomes, bills, asOf, end)
    ensures InWindow(SortBy(ByDateThenAmount(), income + expense), asOf, end)
  {
    AllEventsInWindow(incomes, true, asOf, end);
    AllEventsInWindow(bills, false, asOf, end);
    SortKeepsWindow(income + expense, asOf, end);
  }

  // ---------------------------------------------------------------- a purchase

  datatype Scenario = Scenario(
    baseline: CashFlow, points: seq<Point>, balanceBeforePurchase: int, balanceAfterPurchase: int,
    endingBalance: int, lowBalanceDates: seq<Date>)

  const MAX_SAFE_INTEGER := 9_007_199_254_740_991

  function Bought(points: seq<Point>, amount: int, purchaseDate: Date): (r: seq<Point>)
    ensures |r| == |points|
  {
    seq(|points|, i requires 0 <= i < |points| =>
      Point(points[i].date, if Le(purchaseDate, points[i].date) then points[i].balance - amount else points[i].balance))
  }

  /** The purchase as one more event. */
  function Purchase(amount: int, date: Date): Event {
    Event(date, -amount, "", false)
  }

  lemma BoughtAdds(points: seq<Point>, startingBalance: int, events: seq<Event>, asOf: Date, days: nat, amount: int,
                   date: Date)
    requires Adds(points, startingBalance, events, asOf, days)
    ensures Adds(Bought(points, amount, date), startingBalance, events + [Purchase(amount, date)], asOf, days)
  {
    assert (events + [Purchase(amount, date)])[..|events|] == events;
  }

  method SimulatePurchase(accounts: seq<Account>, incomes: seq<Recurring>, bills: seq<Recurring>, asOf: Date, days: int,
                          amount: int, purchaseDate: Date, currency: string)
    returns (r: Result<Scenario>)
    requires AllDetected(incomes) && AllDetected(bills)
    ensures r.Ok? <==> (0 < amount <= 9_007_199_254_740_991 && 1 <= days <= 90
                        && Lt(asOf, purchaseDate) && Le(purchaseDate, AddDays(asOf, days)))
    ensures r.Ok? ==>
              var events := r.value.baseline.events + [Purchase(amount, purchaseDate)];
              && Expected(r.value.baseline.events, incomes, bills, asOf, AddDays(asOf, days))
              && Adds(r.value.points, StartingBalance(accounts, currency), events, asOf, days)
              && r.value.balanceAfterPurchase == StartingBalance(accounts, currency) + SumUpto(events, purchaseDate)
              && r.value.balanceBeforePurchase == r.value.balanceAfterPurchase + amount
              && r.value.endingBalance == r.value.points[days - 1].balance
              && |r.value.baseline.points| == days
              && (forall k :: 0 <= k < days ==>
                    r.value.points[k].date == r.value.baseline.points[k].date
                    && r.value.points[k].balance == r.value.baseline.points[k].balance
                       - (if Le(purchaseDate, r.value.points[k].date) then amount else 0))
              && r.value.lowBalanceDates == LowDates(r.value.points)
  {
    if amount > MAX_SAFE_INTEGER || amount <= 0 { return InvalidAmount; }
    var forecast := ForecastCashFlow(accounts, incomes, bills, asOf, days, currency);
    if !forecast.Ok? { return InvalidDays; }
    var baseline := forecast.value;
    var firstDate := AddDays(asOf, 1);
    var lastDate := baseline.points[|baseline.points| - 1].date;
    WindowOfDates(asOf, days, purchaseDate);
    if Lt(purchaseDate, firstDate) || Lt(lastDate, purchaseDate) { return InvalidDate; }
    var at := 0;
    while baseline.points[at].date != purchaseDate
      invariant 0 <= at < |baseline.points| && at <= DayNumber(purchaseDate) - DayNumber(asOf) - 1
      decreases |baseline.points| - at
    {
      SameDate(baseline.points[at].date, purchaseDate);
      at := at + 1;
    }
    var points := Bought(baseline.points, amount, purchaseDate);
    BoughtAdds(baseline.points, baseline.startingBalance, baseline.events, asOf, days, amount, purchaseDate);
    assert points[at].date == purchaseDate;
    r := Ok(Scenario(baseline, points, baseline.points[at].balance, baseline.points[at].balance - amount,
                     points[|points| - 1].balance, LowDates(points)));
  }

  lemma WindowOfDates(asOf: Date, days: nat, date: Date)
    ensures Lt(date, AddDays(asOf, 1)) <==> !Lt(asOf, date)
    ensures Lt(AddDays(asOf, days), date) <==> !Le(date, AddDays(asOf, days))
    ensures Lt(asOf, date) <==> DayNumber(asOf) < DayNumber(date)
    ensures Le(date, AddDays(asOf, days)) <==> DayNumber(date) <= DayNumber(asOf) + days
  {
    Chronological(date, AddDays(asOf, 1));
    Chronological(asOf, date);
    Chronological(AddDays(asOf, days), date);
    Chronological(date, AddDays(asOf, days));
  }
}
