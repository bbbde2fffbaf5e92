/** The trend series and its totals: apps/api/src/domain/insights/analytics.ts, lines 116-262. */
module Trend {
  import opened Sorting
  import opened Calendar

  // ---------------------------------------------------------------- buckets of time

  datatype Bucket = Daily | Weekly | Monthly

  function TrendBucket(start: Date, end: Date): Bucket {
    var days := DaysBetweenInclusive(start, end);
    if days <= 62 then Daily else if days <= 370 then Weekly else Monthly
  }

  function BucketStart(x: Date, b: Bucket): Date {
    match b
    case Daily => x
    case Weekly => WeekStart(x)
    case Monthly => StartOfMonth(x)
  }

  function NextBucket(x: Date, b: Bucket): Date {
    match b
    case Daily => AddDays(x, 1)
    case Weekly => AddDays(x, 7)
    case Monthly => AddMonths(x, 1)
  }

  predicate IsStart(s: Date, b: Bucket) {
    BucketStart(s, b) == s
  }

  lemma NextOf(s: Date, b: Bucket)
    ensures b == Monthly && IsStart(s, b) ==> NextBucket(s, b) == Raw(s.month + 1, 1)
    ensures b != Monthly ==> DayNumber(NextBucket(s, b)) == DayNumber(s) + (if b == Daily then 1 else 7)
    ensures Lt(s, NextBucket(s, b))
  {
    Chronological(s, NextBucket(s, b));
    AddMonthsLaws(s, 1);
  }

  /** A bucket holds the dates from its start up to the start of the next one. */
  lemma Cell(s: Date, x: Date, b: Bucket)
    requires IsStart(s, b)
    ensures BucketStart(x, b) == s <==> Le(s, x) && Lt(x, NextBucket(s, b))
  {
    NextOf(s, b);
    Chronological(s, x);
    Chronological(x, NextBucket(s, b));
    if b == Weekly { WeekStartIsMonday(s, x); }
  }

  lemma StartsAreStarts(x: Date, b: Bucket)
    ensures IsStart(BucketStart(x, b), b) && Le(BucketStart(x, b), x)
    ensures IsStart(x, b) ==> IsStart(NextBucket(x, b), b)
  {
    if b == Weekly {
      WeekStartIsMonday(x, WeekStart(x));
      Chronological(WeekStart(x), x);
      if IsStart(x, b) { NextWeek(x); }
    }
  }

  lemma NextWeek(s: Date)
    requires WeekStart(s) == s
    ensures WeekStart(AddDays(s, 7)) == AddDays(s, 7)
  {
    StartsWeek(s);
    WeekAhead(DayNumber(s));
    StartsWeek(AddDays(s, 7));
  }

  lemma WeekAhead(n: int)
    ensures SinceMonday(n + 7) == SinceMonday(n)
  {}

  /** Between a start and the next there is no other start. */
  lemma NoneBetween(s: Date, t: Date, b: Bucket)
    requires IsStart(s, b) && IsStart(t, b) && Lt(s, t)
    ensures Le(NextBucket(s, b), t)
  {
    Cell(s, t, b);
  }

  lemma StartMonotone(x: Date, y: Date, b: Bucket)
    requires Le(x, y)
    ensures Le(BucketStart(x, b), BucketStart(y, b))
  {
    var s, t := BucketStart(x, b), BucketStart(y, b);
    StartsAreStarts(x, b);
    StartsAreStarts(y, b);
    if Lt(t, s) {
      NoneBetween(t, s, b);
      Cell(t, y, b);
    }
  }

  // ---------------------------------------------------------------- rows and points

  datatype Kind = Expense | Income | Transfer | Special | NoKind

  /** `kindOf` stands for the category table. */
  type Kinds = string -> Kind

  datatype Transaction = Transaction(
    postedAt: Date, amount: int, categorySlug: string, currency: string, pending: bool, excluded: bool)

  datatype Point = Point(date: Date, income: int, expenses: int, refunds: int, net: int)

  predicate IsIncome(t: Transaction, kindOf: Kinds) {
    kindOf(t.categorySlug) == Income && t.amount > 0 && t.categorySlug != "refunds"
  }

  predicate IsRefund(t: Transaction) {
    t.categorySlug == "refunds" && t.amount > 0
  }

  predicate IsSpending(t: Transaction, kindOf: Kinds) {
    kindOf(t.categorySlug) == Expense && t.amount < 0
  }

  function ExpenseAmount(t: Transaction): int {
    if -t.amount > 0 then -t.amount else 0
  }

  function EmptyPoint(date: Date): Point {
    Point(date, 0, 0, 0, 0)
  }

  function Netted(p: Point): Point {
    p.(net := p.income + p.refunds - p.expenses)
  }

  function Added(p: Point, t: Transaction, kindOf: Kinds): Point {
    Netted(if IsIncome(t, kindOf) then p.(income := p.income + t.amount)
           else if IsRefund(t) then p.(refunds := p.refunds + t.amount)
           else if IsSpending(t, kindOf) then p.(expenses := p.expenses + ExpenseAmount(t))
           else p)
  }

  /** `points` is a JavaScript `Map` by date, in insertion order. */
  function AddTo(points: seq<Point>, key: Date, t: Transaction, kindOf: Kinds): seq<Point> {
    if points == [] then [Added(EmptyPoint(key), t, kindOf)]
    else if points[0].date == key then [Added(points[0], t, kindOf)] + points[1..]
    else [points[0]] + AddTo(points[1..], key, t, kindOf)
  }

  function FillAll(points: seq<Point>, rows: seq<Transaction>, b: Bucket, kindOf: Kinds): seq<Point>
    decreases rows
  {
    if rows == [] then points
    else FillAll(AddTo(points, BucketStart(rows[0].postedAt, b), rows[0], kindOf), rows[1..], b, kindOf)
  }

  function Gap(from: Date, end: Date): nat {
    var n := DayNumber(end) - DayNumber(from) + 1;
    if n > 0 then n else 0
  }

  lemma GapShrinks(from: Date, end: Date, b: Bucket)
    requires Le(from, end)
    ensures Gap(NextBucket(from, b), end) < Gap(from, end)
  {
    NextOf(from, b);
    Chronological(from, end);
    Chronological(from, NextBucket(from, b));
  }

  /** An empty point for every bucket from one start to another. */
  function Empties(from: Date, end: Date, b: Bucket): seq<Point>
    decreases Gap(from, end)
  {
    if Le(from, end) then
      GapShrinks(from, end, b);
      [EmptyPoint(from)] + Empties(NextBucket(from, b), end, b)
    else []
  }

  function ByDate(): (Point, Point) -> bool {
    (p: Point, q: Point) => Le(p.date, q.date)
  }

  function Series(rows: seq<Transaction>, start: Date, end: Date, kindOf: Kinds): seq<Point> {
    var b := TrendBucket(start, end);
    SortBy(ByDate(), FillAll(Empties(BucketStart(start, b), BucketStart(end, b), b), rows, b, kindOf))
  }

  method BuildTrend(rows: seq<Transaction>, start: Date, end: Date, kindOf: Kinds) returns (r: seq<Point>)
    ensures r == Series(rows, start, end, kindOf)
  {
    var b := TrendBucket(start, end);
    var points: seq<Point> := [];
    var date := BucketStart(start, b);
    var last := BucketStart(end, b);
    ghost var all := Empties(date, last, b);
    while Le(date, last)
      invariant all == points + Empties(date, last, b)
      decreases Gap(date, last)
    {
      GapShrinks(date, last, b);
      points := points + [EmptyPoint(date)];
      date := NextBucket(date, b);
    }
    assert points == all && rows[0..] == rows;
    for i := 0 to |rows|
      invariant FillAll(all, rows, b, kindOf) == FillAll(points, rows[i..], b, kindOf)
    {
      assert rows[i..][1..] == rows[i + 1..];
      var key := BucketStart(rows[i].postedAt, b);
      points := AddTo(points, key, rows[i], kindOf);
    }
    r := SortBy(ByDate(), points);
  }

  // ---------------------------------------------------------------- gap-free

  /** One point per bucket: the first of the period, the one after each, the last of the period. */
  ghost predicate GapFree(points: seq<Point>, from: Date, end: Date, b: Bucket) {
    && (points == [] <==> Lt(end, from))
    && (points != [] ==> points[0].date == from && points[|points| - 1].date == end)
    && (forall i :: 0 <= i < |points| - 1 ==> points[i + 1].date == NextBucket(points[i].date, b))
    && (forall i :: 0 <= i < |points| ==> IsStart(points[i].date, b))
  }

  lemma ConsGapFree(p: Point, rest: seq<Point>, end: Date, b: Bucket)
    requires IsStart(p.date, b) && GapFree(rest, NextBucket(p.date, b), end, b)
    requires Lt(end, NextBucket(p.date, b)) ==> p.date == end
    ensures Le(p.date, end) ==> GapFree([p] + rest, p.date, end, b)
  {
    var points := [p] + rest;
    forall i | 0 <= i < |points| - 1 ensures points[i + 1].date == NextBucket(points[i].date, b) {
      if i > 0 { assert rest[i - 1 + 1].date == NextBucket(rest[i - 1].date, b); }
    }
  }

  lemma {:induction false} EmptiesGapFree(from: Date, end: Date, b: Bucket)
    requires IsStart(from, b) && IsStart(end, b)
    ensures GapFree(Empties(from, end, b), from, end, b)
    decreases Gap(from, end)
  {
    if Le(from, end) {
      GapShrinks(from, end, b);
      StartsAreStarts(from, b);
      if from != end { NoneBetween(from, end, b); }
      EmptiesGapFree(NextBucket(from, b), end, b);
      ConsGapFree(EmptyPoint(from), Empties(NextBucket(from, b), end, b), end, b);
    }
  }

  /** So a later point has a later date. */
  lemma {:induction false} GapFreeIncreases(points: seq<Point>, from: Date, end: Date, b: Bucket, i: nat, j: nat)
    requires GapFree(points, from, end, b) && i < j < |points|
    ensures Lt(points[i].date, points[j].date)
  {
    NextOf(points[j - 1].date, b);
    if i < j - 1 { GapFreeIncreases(points, from, end, b, i, j - 1); }
  }

  /** And no start in between is missing. */
  lemma {:induction false} GapFreeCovers(points: seq<Point>, from: Date, end: Date, b: Bucket, s: Date, k: nat)
    requires GapFree(points, from, end, b) && IsStart(s, b) && k < |points|
    requires Le(points[k].date, s) && Le(s, end)
    ensures exists i :: k <= i < |points| && points[i].date == s
    decreases |points| - k
  {
    if points[k].date != s {
      if k + 1 < |points| {
        NoneBetween(points[k].date, s, b);
        GapFreeCovers(points, from, end, b, s, k + 1);
      }
    }
  }

  /** How far the points of a gap-free series are apart. */
  lemma {:induction false} GapFreeSpacing(points: seq<Point>, from: Date, end: Date, b: Bucket, k: nat)
    requires GapFree(points, from, end, b) && k < |points| && b != Monthly
    ensures DayNumber(points[k].date) == DayNumber(from) + (if b == Daily then k else 7 * k)
  {
    if k > 0 {
      GapFreeSpacing(points, from, end, b, k - 1);
      assert points[k - 1 + 1].date == NextBucket(points[k - 1].date, b);
      NextOf(points[k - 1].date, b);
    }
  }

  /** The chart stays readable: one point a day for up to 62 days, at most 54 for up to 370. */
  lemma PointsAreFew(points: seq<Point>, start: Date, end: Date, b: Bucket)
    requires b == TrendBucket(start, end) && GapFree(points, BucketStart(start, b), BucketStart(end, b), b)
    ensures b == Daily && Le(start, end) ==> |points| == DaysBetweenInclusive(start, end) <= 62
    ensures b == Weekly ==> |points| <= 54
  {
    Chronological(start, end);
    if b != Monthly && points != [] {
      GapFreeSpacing(points, BucketStart(start, b), BucketStart(end, b), b, |points| - 1);
    }
  }

  // ---------------------------------------------------------------- money in, money out

  datatype Tally = Tally(income: int, expenses: int, refunds: int)

  const ZERO := Tally(0, 0, 0)

  function Plus(a: Tally, b: Tally): Tally {
    Tally(a.income + b.income, a.expenses + b.expenses, a.refunds + b.refunds)
  }

  function TallyOf(t: Transaction, kindOf: Kinds): Tally {
    if IsIncome(t, kindOf) then Tally(t.amount, 0, 0)
    else if IsRefund(t) then Tally(0, 0, t.amount)
    else if IsSpending(t, kindOf) then Tally(0, -t.amount, 0)
    else ZERO
  }

  function TallyAll(rows: seq<Transaction>, kindOf: Kinds): Tally {
    if rows == [] then ZERO else Plus(TallyOf(rows[0], kindOf), TallyAll(rows[1..], kindOf))
  }

  /** The rows of one bucket. */
  function TallyIn(rows: seq<Transaction>, date: Date, b: Bucket, kindOf: Kinds): Tally {
    if rows == [] then ZERO
    else Plus(if BucketStart(rows[0].postedAt, b) == date then TallyOf(rows[0], kindOf) else ZERO,
              TallyIn(rows[1..], date, b, kindOf))
  }

  function Raised(p: Point, y: Tally): Point {
    Netted(Point(p.date, p.income + y.income, p.expenses + y.expenses, p.refunds + y.refunds, 0))
  }

  lemma AddedIsRaised(p: Point, t: Transaction, kindOf: Kinds)
    ensures Added(p, t, kindOf) == Raised(p, TallyOf(t, kindOf))
  {}

  ghost predicate DistinctDates(points: seq<Point>) {
    forall i, j :: 0 <= i < j < |points| ==> points[i].date != points[j].date
  }

  ghost predicate HasDate(points: seq<Point>, date: Date) {
    exists i :: 0 <= i < |points| && points[i].date == date
  }

  lemma {:induction false} AddToAt(points: seq<Point>, k: nat, t: Transaction, kindOf: Kinds)
    requires k < |points| && DistinctDates(points)
    ensures AddTo(points, points[k].date, t, kindOf) == points[k := Added(points[k], t, kindOf)]
  {
    if k > 0 {
      assert points[0].date != points[k].date;
      AddToAt(points[1..], k - 1, t, kindOf);
    }
  }

  /** Each point of `after` is the point of `before` raised by the rows of its bucket. */
  ghost predicate RaisedBy(before: seq<Point>, after: seq<Point>, rows: seq<Transaction>, b: Bucket, kindOf: Kinds) {
    && |after| == |before|
    && forall i :: 0 <= i < |before| ==>
         after[i] == Raised(before[i], TallyIn(rows, before[i].date, b, kindOf))
  }

  ghost predicate AllNetted(points: seq<Point>) {
    forall i :: 0 <= i < |points| ==> Netted(points[i]) == points[i]
  }

  ghost predicate AllPlaced(points: seq<Point>, rows: seq<Transaction>, b: Bucket) {
    forall t :: t in rows ==> HasDate(points, BucketStart(t.postedAt, b))
  }

  lemma RaisedTwice(p: Point, y: Tally, z: Tally)
    ensures Raised(Raised(p, y), z) == Raised(p, Plus(y, z)) && Plus(ZERO, z) == z
  {}

  lemma TallyHead(rows: seq<Transaction>, date: Date, b: Bucket, kindOf: Kinds)
    requires rows != []
    ensures BucketStart(rows[0].postedAt, b) == date ==>
              TallyIn(rows, date, b, kindOf) == Plus(TallyOf(rows[0], kindOf), TallyIn(rows[1..], date, b, kindOf))
    ensures BucketStart(rows[0].postedAt, b) != date
            ==> TallyIn(rows, date, b, kindOf) == TallyIn(rows[1..], date, b, kindOf)
  {
    RaisedTwice(EmptyPoint(date), ZERO, TallyIn(rows[1..], date, b, kindOf));
  }

  lemma RaiseStep(before: seq<Point>, middle: seq<Point>, after: seq<Point>, k: nat, rows: seq<Transaction>,
                  b: Bucket, kindOf: Kinds)
    requires rows != [] && k < |before| && before[k].date == BucketStart(rows[0].postedAt, b) && DistinctDates(before)
    requires AllNetted(before) && middle == before[k := Added(before[k], rows[0], kindOf)]
    requires RaisedBy(middle, after, rows[1..], b, kindOf)
    ensures RaisedBy(before, after, rows, b, kindOf)
  {
    AddedIsRaised(before[k], rows[0], kindOf);
    forall i | 0 <= i < |before|
      ensures after[i] == Raised(before[i], TallyIn(rows, before[i].date, b, kindOf))
    {
      var date := before[i].date;
      assert middle[i].date == date;
      TallyHead(rows, date, b, kindOf);
      if i == k {
        RaisedTwice(before[k], TallyOf(rows[0], kindOf), TallyIn(rows[1..], date, b, kindOf));
      } else {
        assert date != before[k].date;
      }
    }
  }

  lemma {:induction false} FillRaises(points: seq<Point>, rows: seq<Transaction>, b: Bucket, kindOf: Kinds)
    requires DistinctDates(points) && AllNetted(points) && AllPlaced(points, rows, b)
    ensures RaisedBy(points, FillAll(points, rows, b, kindOf), rows, b, kindOf)
    decreases rows
  {
    if rows != [] {
      var key := BucketStart(rows[0].postedAt, b);
      assert HasDate(points, key);
      var k :| 0 <= k < |points| && points[k].date == key;
      AddToAt(points, k, rows[0], kindOf);
      var middle := points[k := Added(points[k], rows[0], kindOf)];
      StillPlaced(points, middle, rows, b);
      FillRaises(middle, rows[1..], b, kindOf);
      RaiseStep(points, middle, FillAll(middle, rows[1..], b, kindOf), k, rows, b, kindOf);
    }
  }

  lemma StillPlaced(points: seq<Point>, middle: seq<Point>, rows: seq<Transaction>, b: Bucket)
    requires rows != [] && AllPlaced(points, rows, b) && |middle| == |points|
    requires forall i :: 0 <= i < |points| ==> middle[i].date == points[i].date
    ensures AllPlaced(middle, rows[1..], b)
  {
    forall t | t in rows[1..] ensures HasDate(middle, BucketStart(t.postedAt, b)) {
      assert t in rows && HasDate(points, BucketStart(t.postedAt, b));
      var i :| 0 <= i < |points| && points[i].date == BucketStart(t.postedAt, b);
      assert middle[i].date == BucketStart(t.postedAt, b);
    }
  }

  ghost predicate Increasing(points: seq<Point>) {
    forall i, j :: 0 <= i < j < |points| ==> Lt(points[i].date, points[j].date)
  }

  lemma {:induction false} SortIncreasing(points: seq<Point>)
    requires Increasing(points)
    ensures SortBy(ByDate(), points) == points
  {
    if points != [] {
      SortIncreasing(points[1..]);
      assert |points| > 1 ==> Lt(points[0].date, points[1].date);
    }
  }

  ghost predicate Within(rows: seq<Transaction>, start: Date, end: Date) {
    forall t :: t in rows ==> Le(start, t.postedAt) && Le(t.postedAt, end)
  }

  lemma AfterAll(a: Date, b: Date, c: Date)
    requires Le(a, b) && Le(b, c)
    ensures Le(a, c)
  {}

  lemma RowsArePlaced(rows: seq<Transaction>, points: seq<Point>, start: Date, end: Date, b: Bucket)
    requires Within(rows, start, end) && GapFree(points, BucketStart(start, b), BucketStart(end, b), b)
    ensures AllPlaced(points, rows, b)
  {
    forall t | t in rows ensures HasDate(points, BucketStart(t.postedAt, b)) {
      var s := BucketStart(t.postedAt, b);
      StartMonotone(start, t.postedAt, b);
      StartMonotone(t.postedAt, end, b);
      AfterAll(BucketStart(start, b), s, BucketStart(end, b));
      StartsAreStarts(t.postedAt, b);
      GapFreeCovers(points, BucketStart(start, b), BucketStart(end, b), b, s, 0);
    }
  }

  lemma GapFreeIsIncreasing(points: seq<Point>, from: Date, end: Date, b: Bucket)
    requires GapFree(points, from, end, b)
    ensures Increasing(points) && DistinctDates(points)
  {
    forall i, j | 0 <= i < j < |points| ensures Lt(points[i].date, points[j].date) {
      GapFreeIncreases(points, from, end, b, i, j);
    }
  }

  lemma {:induction false} EmptiesAreEmpty(from: Date, end: Date, b: Bucket)
    ensures forall p :: p in Empties(from, end, b) ==> p == EmptyPoint(p.date)
    decreases Gap(from, end)
  {
    if Le(from, end) {
      GapShrinks(from, end, b);
      EmptiesAreEmpty(NextBucket(from, b), end, b);
    }
  }

  /** One point per bucket of the period without a gap, and each point adds up the rows of its
      bucket. */
  ghost predicate Faithful(points: seq<Point>, rows: seq<Transaction>, start: Date, end: Date, b: Bucket,
                           kindOf: Kinds) {
    && GapFree(points, BucketStart(start, b), BucketStart(end, b), b)
    && (forall i :: 0 <= i < |points| ==>
          points[i] == Raised(EmptyPoint(points[i].date), TallyIn(rows, points[i].date, b, kindOf)))
  }

  lemma SameDatesGapFree(a: seq<Point>, c: seq<Point>, from: Date, end: Date, b: Bucket)
    requires GapFree(a, from, end, b) && |a| == |c| && forall i :: 0 <= i < |a| ==> a[i].date == c[i].date
    ensures GapFree(c, from, end, b)
  {
    forall i | 0 <= i < |c| - 1 ensures c[i + 1].date == NextBucket(c[i].date, b) {
      assert a[i + 1].date == NextBucket(a[i].date, b);
    }
  }

  lemma TrendIsFaithful(rows: seq<Transaction>, start: Date, end: Date, kindOf: Kinds)
    requires Within(rows, start, end)
    ensures Faithful(Series(rows, start, end, kindOf), rows, start, end, TrendBucket(start, end), kindOf)
    ensures AllPlaced(Series(rows, start, end, kindOf), rows, TrendBucket(start, end))
  {
    var b := TrendBucket(start, end);
    var from, last := BucketStart(start, b), BucketStart(end, b);
    var empties := Empties(from, last, b);
    StartsAreStarts(start, b);
    StartsAreStarts(end, b);
    EmptiesGapFree(from, last, b);
    EmptiesAreEmpty(from, last, b);
    GapFreeIsIncreasing(empties, from, last, b);
    RowsArePlaced(rows, empties, start, end, b);
    FillRaises(empties, rows, b, kindOf);
    var filled := FillAll(empties, rows, b, kindOf);
    assert forall i :: 0 <= i < |empties| ==> filled[i].date == empties[i].date && empties[i] in empties;
    SameDatesGapFree(empties, filled, from, last, b);
    GapFreeIsIncreasing(filled, from, last, b);
    SortIncreasing(filled);
    RowsArePlaced(rows, filled, start, end, b);
  }

  // ---------------------------------------------------------------- the series and the totals

  /** The sums over a series. */
  function Totals(points: seq<Point>): Tally {
    if points == [] then ZERO
    else Plus(Tally(points[0].income, points[0].expenses, points[0].refunds), Totals(points[1..]))
  }

  function NetTotal(points: seq<Point>): int {
    if points == [] then 0 else points[0].net + NetTotal(points[1..])
  }

  /** The rows of all buckets of `points`, bucket by bucket. */
  function Across(points: seq<Point>, rows: seq<Transaction>, b: Bucket, kindOf: Kinds): Tally {
    if points == [] then ZERO
    else Plus(TallyIn(rows, points[0].date, b, kindOf), Across(points[1..], rows, b, kindOf))
  }

  lemma {:induction false} AcrossElsewhere(points: seq<Point>, rows: seq<Transaction>, b: Bucket, kindOf: Kinds)
    requires rows != [] && forall i :: 0 <= i < |points| ==> points[i].date != BucketStart(rows[0].postedAt, b)
    ensures Across(points, rows, b, kindOf) == Across(points, rows[1..], b, kindOf)
  {
    if points != [] {
      TallyHead(rows, points[0].date, b, kindOf);
      AcrossElsewhere(points[1..], rows, b, kindOf);
    }
  }

  lemma {:induction false} AcrossFirst(points: seq<Point>, rows: seq<Transaction>, b: Bucket, kindOf: Kinds)
    requires rows != [] && DistinctDates(points) && points != [] && points[0].date == BucketStart(rows[0].postedAt, b)
    ensures Across(points, rows, b, kindOf) == Plus(TallyOf(rows[0], kindOf), Across(points, rows[1..], b, kindOf))
  {
    var date := points[0].date;
    TallyHead(rows, date, b, kindOf);
    AcrossElsewhere(points[1..], rows, b, kindOf);
    PlusLaws(TallyOf(rows[0], kindOf), TallyIn(rows[1..], date, b, kindOf), Across(points[1..], rows[1..], b, kindOf));
  }

  lemma {:induction false} AcrossLater(points: seq<Point>, rows: seq<Transaction>, b: Bucket, kindOf: Kinds, x: Tally)
    requires rows != [] && points != [] && points[0].date != BucketStart(rows[0].postedAt, b)
    requires Across(points[1..], rows, b, kindOf) == Plus(x, Across(points[1..], rows[1..], b, kindOf))
    ensures Across(points, rows, b, kindOf) == Plus(x, Across(points, rows[1..], b, kindOf))
  {
    var date := points[0].date;
    TallyHead(rows, date, b, kindOf);
    PlusLaws(x, TallyIn(rows[1..], date, b, kindOf), Across(points[1..], rows[1..], b, kindOf));
  }

  /** Each row counts in the one bucket that has its date. */
  lemma {:induction false} AcrossAt(points: seq<Point>, k: nat, rows: seq<Transaction>, b: Bucket, kindOf: Kinds)
    requires rows != [] && DistinctDates(points) && k < |points| && points[k].date == BucketStart(rows[0].postedAt, b)
    ensures Across(points, rows, b, kindOf) == Plus(TallyOf(rows[0], kindOf), Across(points, rows[1..], b, kindOf))
  {
    if k == 0 {
      AcrossFirst(points, rows, b, kindOf);
    } else {
      assert points[0].date != points[k].date;
      AcrossAt(points[1..], k - 1, rows, b, kindOf);
      AcrossLater(points, rows, b, kindOf, TallyOf(rows[0], kindOf));
    }
  }

  lemma PlusLaws(x: Tally, y: Tally, z: Tally)
    ensures Plus(Plus(x, y), z) == Plus(x, Plus(y, z)) == Plus(y, Plus(x, z))
  {}

  lemma {:induction false} AcrossIsAll(points: seq<Point>, rows: seq<Transaction>, b: Bucket, kindOf: Kinds)
    requires DistinctDates(points) && AllPlaced(points, rows, b)
    ensures Across(points, rows, b, kindOf) == TallyAll(rows, kindOf)
    decreases rows
  {
    if rows == [] {
      AcrossNothing(points, b, kindOf);
    } else {
      assert HasDate(points, BucketStart(rows[0].postedAt, b)) && forall t :: t in rows[1..] ==> t in rows;
      var k :| 0 <= k < |points| && points[k].date == BucketStart(rows[0].postedAt, b);
      AcrossAt(points, k, rows, b, kindOf);
      AcrossIsAll(points, rows[1..], b, kindOf);
    }
  }

  lemma {:induction false} AcrossNothing(points: seq<Point>, b: Bucket, kindOf: Kinds)
    ensures Across(points, [], b, kindOf) == ZERO
  {
    if points != [] { AcrossNothing(points[1..], b, kindOf); }
  }

  lemma {:induction false} TotalsAcross(points: seq<Point>, rows: seq<Transaction>, b: Bucket, kindOf: Kinds)
    requires forall i :: 0 <= i < |points| ==>
               points[i] == Raised(EmptyPoint(points[i].date), TallyIn(rows, points[i].date, b, kindOf))
    ensures Totals(points) == Across(points, rows, b, kindOf)
    ensures NetTotal(points) == Totals(points).income + Totals(points).refunds - Totals(points).expenses
  {
    if points != [] { TotalsAcross(points[1..], rows, b, kindOf); }
  }

  /** The sums over the points are the totals of the period's rows. */
  lemma TrendReconciles(rows: seq<Transaction>, start: Date, end: Date, kindOf: Kinds)
    requires Within(rows, start, end)
    ensures var s, all := Series(rows, start, end, kindOf), TallyAll(rows, kindOf);
            Totals(s) == all && NetTotal(s) == all.income + all.refunds - all.expenses
  {
    var b := TrendBucket(start, end);
    var s := Series(rows, start, end, kindOf);
    TrendIsFaithful(rows, start, end, kindOf);
    GapFreeIsIncreasing(s, BucketStart(start, b), BucketStart(end, b), b);
    TotalsAcross(s, rows, b, kindOf);
    AcrossIsAll(s, rows, b, kindOf);
  }

  // ---------------------------------------------------------------- the totals of the report

  predicate Counts(t: Transaction, currency: string, start: Date, end: Date) {
    t.currency == currency && !t.pending && !t.excluded && Le(start, t.postedAt) && Le(t.postedAt, end)
  }

  function RowsOf(transactions: seq<Transaction>, currency: string, start: Date, end: Date): (r: seq<Transaction>)
    ensures Within(r, start, end)
  {
    if transactions == [] then []
    else (if Counts(transactions[0], currency, start, end) then [transactions[0]] else [])
         + RowsOf(transactions[1..], currency, start, end)
  }

  /** The rows of the report, in numbers: posted, not excluded, of the currency, and not before the first
      nor after the last day; each as often as it is in the ledger. */
  ghost predicate Reported(t: Transaction, currency: string, start: Date, end: Date) {
    && t.currency == currency && !t.pending && !t.excluded
    && DayNumber(start) <= DayNumber(t.postedAt) <= DayNumber(end)
  }

  lemma {:induction false} RowsReported(ts: seq<Transaction>, currency: string, start: Date, end: Date, t: Transaction)
    ensures multiset(RowsOf(ts, currency, start, end))[t]
         == if Reported(t, currency, start, end) then multiset(ts)[t] else 0
  {
    if ts != [] {
      RowsReported(ts[1..], currency, start, end, t);
      Chronological(start, ts[0].postedAt);
      Chronological(ts[0].postedAt, end);
      assert ts == [ts[0]] + ts[1..];
    }
  }

  datatype Heading = MoneyIn | MoneyBack | MoneyOut

  /** Money that came in under an income category other than the refunds, money that came back as a refund,
      and money that went out under an expense category. */
  ghost predicate Under(t: Transaction, heading: Heading, kindOf: Kinds) {
    match heading
    case MoneyIn => t.amount > 0 && kindOf(t.categorySlug) == Income && t.categorySlug != "refunds"
    case MoneyBack => t.amount > 0 && t.categorySlug == "refunds"
    case MoneyOut => t.amount < 0 && kindOf(t.categorySlug) == Expense
  }

  /** What the amounts of the rows under a heading add up to. */
  ghost function AmountUnder(rows: seq<Transaction>, heading: Heading, kindOf: Kinds): int {
    if rows == [] then 0
    else (if Under(rows[0], heading, kindOf) then rows[0].amount else 0) + AmountUnder(rows[1..], heading, kindOf)
  }

  ghost function Headed(rows: seq<Transaction>, kindOf: Kinds): Tally {
    Tally(AmountUnder(rows, MoneyIn, kindOf), -AmountUnder(rows, MoneyOut, kindOf),
          AmountUnder(rows, MoneyBack, kindOf))
  }

  lemma HeadedFirst(rows: seq<Transaction>, kindOf: Kinds)
    requires rows != []
    ensures Headed(rows, kindOf) == Plus(TallyOf(rows[0], kindOf), Headed(rows[1..], kindOf))
  {}

  /** The totals of the report, and with them the sums over the trend, are the amounts under the three
      headings. */
  lemma {:induction false} TallyAmounts(rows: seq<Transaction>, kindOf: Kinds)
    ensures TallyAll(rows, kindOf) == Headed(rows, kindOf)
  {
    if rows != [] {
      HeadedFirst(rows, kindOf);
      TallyAmounts(rows[1..], kindOf);
    }
  }

  /** A period of up to 62 days has a point a day, one of up to 370 a point a week, from Monday to Monday,
      and a longer one a point a month, for the first of it. */
  lemma SeriesSpacing(rows: seq<Transaction>, start: Date, end: Date, kindOf: Kinds, k: nat)
    requires Within(rows, start, end) && k + 1 < |Series(rows, start, end, kindOf)|
    ensures var s, days := Series(rows, start, end, kindOf), DayNumber(end) - DayNumber(start) + 1;
      if days <= 62 then DayNumber(s[k + 1].date) == DayNumber(s[k].date) + 1
      else if days <= 370 then DayNumber(s[k + 1].date) == DayNumber(s[k].date) + 7 && UtcDay(DayNumber(s[k].date)) == 1
      else s[k + 1].date == Raw(s[k].date.month + 1, 1) && s[k].date.day == 1
  {
    var s, b := Series(rows, start, end, kindOf), TrendBucket(start, end);
    TrendIsFaithful(rows, start, end, kindOf);
    assert s[k + 1].date == NextBucket(s[k].date, b) && IsStart(s[k].date, b);
    NextOf(s[k].date, b);
    WeekStartIsMonday(s[k].date, s[k].date);
  }

  function Sum(amounts: seq<int>): int {
    if amounts == [] then 0 else amounts[0] + Sum(amounts[1..])
  }

  lemma {:induction false} SumAppend(a: seq<int>, x: int)
    ensures Sum(a + [x]) == Sum(a) + x
  {
    if a == [] { assert a + [x] == [x]; }
    else { SumAppend(a[1..], x); assert (a + [x])[1..] == a[1..] + [x]; }
  }

  lemma {:induction false} SumInsert(le: (int, int) -> bool, x: int, s: seq<int>)
    ensures Sum(Insert(le, x, s)) == x + Sum(s)
  {
    if s != [] && !le(x, s[0]) { SumInsert(le, x, s[1..]); }
  }

  lemma {:induction false} SumSorted(le: (int, int) -> bool, s: seq<int>)
    ensures Sum(SortBy(le, s)) == Sum(s)
  {
    if s != [] {
      SumSorted(le, s[1..]);
      SumInsert(le, s[0], SortBy(le, s[1..]));
    }
  }

  lemma {:induction false} TallyAppend(rows: seq<Transaction>, t: Transaction, kindOf: Kinds)
    ensures TallyAll(rows + [t], kindOf) == Plus(TallyAll(rows, kindOf), TallyOf(t, kindOf))
  {
    if rows == [] { assert rows + [t] == [t]; }
    else { TallyAppend(rows[1..], t, kindOf); assert (rows + [t])[1..] == rows[1..] + [t]; }
  }

  /** The totals of `computeAnalytics` and its trend agree. */
  method ComputeAnalytics(transactions: seq<Transaction>, start: Date, end: Date, currency: string, kindOf: Kinds)
    returns (totalIncome: int, refunds: int, grossExpenses: int, trend: seq<Point>)
    ensures Faithful(trend, RowsOf(transactions, currency, start, end), start, end, TrendBucket(start, end), kindOf)
    ensures Totals(trend) == Tally(totalIncome, grossExpenses, refunds)
                          == Headed(RowsOf(transactions, currency, start, end), kindOf)
    ensures NetTotal(trend) == totalIncome + refunds - grossExpenses
  {
    var rows := RowsOf(transactions, currency, start, end);
    var expenseAmounts: seq<int> := [];
    totalIncome, refunds := 0, 0;
    for i := 0 to |rows|
      invariant TallyAll(rows[..i], kindOf) == Tally(totalIncome, Sum(expenseAmounts), refunds)
    {
      var t := rows[i];
      assert rows[..i + 1] == rows[..i] + [t];
      TallyAppend(rows[..i], t, kindOf);
      SumAppend(expenseAmounts, ExpenseAmount(t));
      if IsSpending(t, kindOf) { expenseAmounts := expenseAmounts + [ExpenseAmount(t)]; }
      if IsIncome(t, kindOf) { totalIncome := totalIncome + t.amount; }
      if IsRefund(t) { refunds := refunds + t.amount; }
    }
    assert rows[..|rows|] == rows;
    var ascending := (a: int, b: int) => a <= b;
    SumSorted(ascending, expenseAmounts);
    grossExpenses := Sum(SortBy(ascending, expenseAmounts));
    trend := BuildTrend(rows, start, end, kindOf);
    TrendIsFaithful(rows, start, end, kindOf);
    TrendReconciles(rows, start, end, kindOf);
    TallyAmounts(rows, kindOf);
  }
}
