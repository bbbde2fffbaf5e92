/** `list` of the transaction store and its keyset cursor: apps/api/src/infra/in-memory-store.ts,
    lines 148-194. */
module Paging {
  import opened Common
  import opened Sorting
  import opened Ledger
  import Calendar

  datatype Cursor = Cursor(postedAt: int, id: string)

  /** An empty string or a zero limit is falsy, and asks for nothing. */
  datatype Query = Query(
    accountId: string, categorySlug: string, range: Option<(int, int)>, before: Option<Cursor>,
    pending: Option<bool>, recurring: Option<bool>, amountMin: Option<int>, amountMax: Option<int>, limit: nat)

  /** Every filter but the cursor. `extra` stands for the filters on category kind, text and tag. */
  predicate Matches(q: Query, extra: Transaction -> bool, t: Transaction) {
    && (q.accountId != "" ==> t.accountId == q.accountId)
    && (q.categorySlug != "" ==> t.categorySlug == q.categorySlug)
    && (q.range.Some? ==> q.range.value.0 <= t.postedAt <= q.range.value.1)
    && extra(t)
    && (q.pending.Some? ==> t.pending == q.pending.value)
    && (q.recurring.Some? ==> t.isRecurring == q.recurring.value)
    && (q.amountMin.Some? ==> Abs(t.amount) >= q.amountMin.value)
    && (q.amountMax.Some? ==> Abs(t.amount) <= q.amountMax.value)
  }

  /** The cursor compares ids with `<`. */
  predicate Older(t: Transaction, c: Cursor) {
    t.postedAt < c.postedAt || (t.postedAt == c.postedAt && Calendar.StringLt(t.id, c.id))
  }

  predicate PastCursor(q: Query, t: Transaction) {
    q.before.Some? ==> Older(t, q.before.value)
  }

  function Filter(q: Query, extra: Transaction -> bool): Transaction -> bool {
    t => Matches(q, extra, t) && PastCursor(q, t)
  }

  /** The sort compares ids with `localeCompare`; `le` is its order. Newest first. */
  function NewestFirst(le: (string, string) -> bool): (Transaction, Transaction) -> bool {
    (a: Transaction, b: Transaction) => a.postedAt > b.postedAt || (a.postedAt == b.postedAt && le(b.id, a.id))
  }

  function Limited(rows: seq<Transaction>, limit: nat): seq<Transaction> {
    if limit == 0 || |rows| <= limit then rows else rows[..limit]
  }

  /** The list without its limit. */
  function Full(rows: seq<Transaction>, q: Query, extra: Transaction -> bool,
                le: (string, string) -> bool): seq<Transaction> {
    SortBy(NewestFirst(le), Where(rows, Filter(q, extra)))
  }

  function Page(rows: seq<Transaction>, q: Query, extra: Transaction -> bool,
                le: (string, string) -> bool): seq<Transaction> {
    Limited(Full(rows, q, extra, le), q.limit)
  }

  // ---------------------------------------------------------------- orders

  ghost predicate IdsUnique(rows: seq<Transaction>) {
    Distinct(rows) && forall a, b :: a in rows && b in rows && a.id == b.id ==> a == b
  }

  /** On ids that share a day, `<` is the strict part of the sorting order. */
  ghost predicate OrdersAgree(rows: seq<Transaction>, le: (string, string) -> bool) {
    forall a, b :: a in rows && b in rows && a.postedAt == b.postedAt && a != b ==>
      (Calendar.StringLt(a.id, b.id) <==> le(a.id, b.id))
  }

  lemma OrdersRows(le: (string, string) -> bool, rows: seq<Transaction>)
    requires TotalOrder(le) && IdsUnique(rows)
    ensures Orders(NewestFirst(le), rows) && Antisymmetric(NewestFirst(le), rows)
  {}

  lemma {:induction false} StringLtTransitive(a: string, b: string, c: string)
    requires Calendar.StringLt(a, b) && Calendar.StringLt(b, c)
    ensures Calendar.StringLt(a, c)
  {
    if a != "" && a[0] == b[0] && b[0] == c[0] { StringLtTransitive(a[1..], b[1..], c[1..]); }
  }

  function CursorOf(t: Transaction): Cursor {
    Cursor(t.postedAt, t.id)
  }

  lemma OlderTransitive(t: Transaction, u: Transaction, c: Cursor)
    requires Older(t, CursorOf(u)) && Older(u, c)
    ensures Older(t, c)
  {
    if t.postedAt == u.postedAt == c.postedAt { StringLtTransitive(t.id, u.id, c.id); }
  }

  lemma NotOlderThanItself(t: Transaction)
    ensures !Older(t, CursorOf(t))
  {
    Calendar.Irreflexive(t.id);
  }

  // ---------------------------------------------------------------- filters

  /** A row that answers the query: of the account and the category asked for, if any, in the range of days,
      with the marks asked for, of an amount in the range whatever its sign, and behind the cursor. */
  ghost predicate Answers(q: Query, extra: Transaction -> bool, t: Transaction) {
    && (q.accountId == t.accountId || q.accountId == "") && (q.categorySlug == t.categorySlug || q.categorySlug == "")
    && (match q.range case None => true case Some(days) => days.0 <= t.postedAt <= days.1)
    && (q.pending == None || q.pending == Some(t.pending))
       && (q.recurring == None || q.recurring == Some(t.isRecurring))
    && (match q.amountMin case None => true case Some(least) => least <= t.amount || least <= -t.amount)
    && (match q.amountMax case None => true case Some(most) => -most <= t.amount <= most)
    && (match q.before case None => true
        case Some(c) => t.postedAt < c.postedAt || (t.postedAt == c.postedAt && Calendar.StringLt(t.id, c.id)))
    && extra(t)
  }

  lemma FilterAnswers(q: Query, extra: Transaction -> bool, t: Transaction)
    ensures Filter(q, extra)(t) == Answers(q, extra, t)
  {}

  /** The list without its limit has every row that answers the query as often as the store, and no other. */
  lemma ListedExactly(rows: seq<Transaction>, q: Query, extra: Transaction -> bool, le: (string, string) -> bool,
                      t: Transaction)
    ensures multiset(Full(rows, q, extra, le))[t] == if Answers(q, extra, t) then multiset(rows)[t] else 0
  {
    FilterAnswers(q, extra, t);
    WhereCounts(rows, Filter(q, extra), t);
    SortElements(NewestFirst(le), Where(rows, Filter(q, extra)));
  }

  lemma WhereCons(x: Transaction, rest: seq<Transaction>, keep: Transaction -> bool)
    ensures Where([x] + rest, keep) == (if keep(x) then [x] + Where(rest, keep) else Where(rest, keep))
  {
    assert ([x] + rest)[1..] == rest;
  }

  lemma {:induction false} WhereTwice(rows: seq<Transaction>, p: Transaction -> bool, q: Transaction -> bool,
                                      both: Transaction -> bool)
    requires forall t :: both(t) == (p(t) && q(t))
    ensures Where(Where(rows, p), q) == Where(rows, both)
  {
    if rows != [] {
      var x, rest := rows[0], rows[1..];
      assert rows == [x] + rest;
      WhereCons(x, rest, p);
      WhereCons(x, rest, both);
      WhereCons(x, Where(rest, p), q);
      WhereTwice(rest, p, q, both);
    }
  }

  lemma {:induction false} WhereCounts(rows: seq<Transaction>, keep: Transaction -> bool, t: Transaction)
    ensures multiset(Where(rows, keep))[t] == if keep(t) then multiset(rows)[t] else 0
  {
    if rows != [] {
      WhereCounts(rows[1..], keep, t);
      assert rows == [rows[0]] + rows[1..];
    }
  }

  lemma WherePermutes(a: seq<Transaction>, b: seq<Transaction>, keep: Transaction -> bool)
    requires multiset(a) == multiset(b)
    ensures multiset(Where(a, keep)) == multiset(Where(b, keep))
  {
    forall t ensures multiset(Where(a, keep))[t] == multiset(Where(b, keep))[t] {
      WhereCounts(a, keep, t);
      WhereCounts(b, keep, t);
    }
  }

  lemma {:induction false} WhereNone(rows: seq<Transaction>, keep: Transaction -> bool)
    requires forall i :: 0 <= i < |rows| ==> !keep(rows[i])
    ensures Where(rows, keep) == []
  {
    if rows != [] { WhereNone(rows[1..], keep); }
  }

  /** A filter that turns on at `n` and stays on keeps a suffix. */
  lemma {:induction false} WhereSuffix(rows: seq<Transaction>, keep: Transaction -> bool, n: nat)
    requires n <= |rows|
    requires forall i :: 0 <= i < |rows| ==> (keep(rows[i]) <==> i >= n)
    ensures Where(rows, keep) == rows[n..]
  {
    if n == 0 {
      WhereEvery(rows, keep);
    } else {
      WhereSuffix(rows[1..], keep, n - 1);
      assert rows[1..][n - 1..] == rows[n..];
    }
  }

  // ---------------------------------------------------------------- one page after another

  function OlderThan(c: Cursor): Transaction -> bool {
    t => Older(t, c)
  }

  /** The next request: the same query behind the last row of the page. */
  function NextQuery(q: Query, page: seq<Transaction>): Query
    requires page != []
  {
    q.(before := Some(CursorOf(page[|page| - 1])))
  }

  /** Sorted, without ties. */
  ghost predicate InOrder(rows: seq<Transaction>, le: (string, string) -> bool) {
    Sorted(NewestFirst(le), rows) && Antisymmetric(NewestFirst(le), rows) && Orders(NewestFirst(le), rows)
  }

  lemma SortedRows(kept: seq<Transaction>, all: seq<Transaction>, le: (string, string) -> bool)
    requires TotalOrder(le) && IdsUnique(kept) && all == SortBy(NewestFirst(le), kept)
    ensures InOrder(all, le) && multiset(all) == multiset(kept) && forall t :: t in all <==> t in kept
    ensures IdsUnique(all)
  {
    OrdersRows(le, kept);
    SortDistinct(NewestFirst(le), kept);
    SortSorted(NewestFirst(le), kept);
    SortElements(NewestFirst(le), kept);
    SameElements(all, kept);
    OrdersFewer(NewestFirst(le), kept, all);
  }

  lemma KeptRows(rows: seq<Transaction>, keep: Transaction -> bool)
    requires IdsUnique(rows)
    ensures IdsUnique(Where(rows, keep)) && forall t :: t in Where(rows, keep) ==> t in rows && keep(t)
  {
    WhereMembers(rows, keep);
    DistinctCounts(rows);
    DistinctCounts(Where(rows, keep));
    forall t | t in Where(rows, keep) ensures multiset(Where(rows, keep))[t] == 1 { WhereCounts(rows, keep, t); }
  }

  lemma FullLaws(rows: seq<Transaction>, q: Query, extra: Transaction -> bool, le: (string, string) -> bool)
    requires TotalOrder(le) && IdsUnique(rows)
    ensures var all := Full(rows, q, extra, le);
            && InOrder(all, le) && IdsUnique(all) && multiset(all) == multiset(Where(rows, Filter(q, extra)))
            && forall t :: t in all ==> t in rows && PastCursor(q, t)
  {
    var keep := Filter(q, extra);
    KeptRows(rows, keep);
    SortedRows(Where(rows, keep), Full(rows, q, extra, le), le);
  }

  /** What the cursor lets through, whatever page it came from: the rows older than the last one. */
  lemma NextFilter(rows: seq<Transaction>, q: Query, extra: Transaction -> bool, last: Transaction)
    requires PastCursor(q, last)
    ensures Where(rows, Filter(q.(before := Some(CursorOf(last))), extra))
         == Where(Where(rows, Filter(q, extra)), OlderThan(CursorOf(last)))
  {
    var next := q.(before := Some(CursorOf(last)));
    forall t ensures Filter(next, extra)(t) == (Filter(q, extra)(t) && OlderThan(CursorOf(last))(t)) {
      if q.before.Some? && Older(t, CursorOf(last)) { OlderTransitive(t, last, q.before.value); }
    }
    WhereTwice(rows, Filter(q, extra), OlderThan(CursorOf(last)), Filter(next, extra));
  }

  lemma OlderPart(all: seq<Transaction>, kept: seq<Transaction>, older: Transaction -> bool,
                  le: (string, string) -> bool)
    requires multiset(all) == multiset(kept) && InOrder(all, le)
    ensures SortBy(NewestFirst(le), Where(kept, older)) == SortBy(NewestFirst(le), Where(all, older))
  {
    WherePermutes(all, kept, older);
    WhereMembers(all, older);
    OrdersFewer(NewestFirst(le), all, Where(all, older));
    SortOfPermutation(NewestFirst(le), Where(all, older), Where(kept, older));
  }

  /** The list behind a row is sorted from the rows of the list that are older than it. */
  lemma NextFull(rows: seq<Transaction>, q: Query, extra: Transaction -> bool, le: (string, string) -> bool,
                 last: Transaction)
    requires TotalOrder(le) && IdsUnique(rows) && last in Full(rows, q, extra, le)
    ensures Full(rows, q.(before := Some(CursorOf(last))), extra, le)
         == SortBy(NewestFirst(le), Where(Full(rows, q, extra, le), OlderThan(CursorOf(last))))
  {
    FullLaws(rows, q, extra, le);
    NextFilter(rows, q, extra, last);
    OlderPart(Full(rows, q, extra, le), Where(rows, Filter(q, extra)), OlderThan(CursorOf(last)), le);
  }

  // ---------------------------------------------------------------- when the pages add up

  lemma SortInOrder(rows: seq<Transaction>, le: (string, string) -> bool)
    requires InOrder(rows, le)
    ensures SortBy(NewestFirst(le), rows) == rows
  {
    SortSorted(NewestFirst(le), rows);
    SortElements(NewestFirst(le), rows);
    SortedUnique(NewestFirst(le), rows, SortBy(NewestFirst(le), rows));
  }

  lemma InOrderSuffix(rows: seq<Transaction>, n: nat, le: (string, string) -> bool)
    requires InOrder(rows, le) && n <= |rows|
    ensures InOrder(rows[n..], le)
  {
    assert forall t :: t in rows[n..] ==> t in rows;
    OrdersFewer(NewestFirst(le), rows, rows[n..]);
  }

  /** Where the two orders agree, the rows older than one are the rows listed after it. */
  lemma OlderIsLater(all: seq<Transaction>, le: (string, string) -> bool, m: nat, i: nat)
    requires InOrder(all, le) && IdsUnique(all) && OrdersAgree(all, le) && TotalOrder(le)
    requires m < |all| && i < |all|
    ensures Older(all[i], CursorOf(all[m])) <==> i > m
  {
    var a, b := all[i], all[m];
    if i == m {
      NotOlderThanItself(a);
    } else {
      assert a in all && b in all && a != b;
      if i > m { assert NewestFirst(le)(b, a); } else { assert NewestFirst(le)(a, b); }
    }
  }

  lemma NextIsRest(rows: seq<Transaction>, q: Query, extra: Transaction -> bool, le: (string, string) -> bool, m: nat)
    requires TotalOrder(le) && IdsUnique(rows) && m < |Full(rows, q, extra, le)|
    requires OrdersAgree(Full(rows, q, extra, le), le)
    ensures var all := Full(rows, q, extra, le);
            Full(rows, q.(before := Some(CursorOf(all[m]))), extra, le) == all[m + 1..]
  {
    var all := Full(rows, q, extra, le);
    FullLaws(rows, q, extra, le);
    NextFull(rows, q, extra, le, all[m]);
    var older := OlderThan(CursorOf(all[m]));
    forall i | 0 <= i < |all| ensures older(all[i]) <==> i >= m + 1 { OlderIsLater(all, le, m, i); }
    WhereSuffix(all, older, m + 1);
    InOrderSuffix(all, m + 1, le);
    SortInOrder(all[m + 1..], le);
  }

  lemma {:induction false} WhereShorter(rows: seq<Transaction>, keep: Transaction -> bool, t: Transaction)
    requires t in rows && !keep(t)
    ensures |Where(rows, keep)| < |rows|
  {
    if rows[0] != t { WhereShorter(rows[1..], keep, t); }
  }

  /** Every page moves the cursor on, whichever order sorted it. */
  lemma PageShrinks(rows: seq<Transaction>, q: Query, extra: Transaction -> bool, le: (string, string) -> bool)
    requires Page(rows, q, extra, le) != []
    ensures |Where(rows, Filter(NextQuery(q, Page(rows, q, extra, le)), extra))| < |Where(rows, Filter(q, extra))|
  {
    var kept := Where(rows, Filter(q, extra));
    var page := Page(rows, q, extra, le);
    var last := page[|page| - 1];
    SortElements(NewestFirst(le), kept);
    SameElements(Full(rows, q, extra, le), kept);
    assert last in Full(rows, q, extra, le);
    WhereMembers(rows, Filter(q, extra));
    NextFilter(rows, q, extra, last);
    NotOlderThanItself(last);
    WhereShorter(kept, OlderThan(CursorOf(last)), last);
  }

  /** Asking page after page, each behind the last row of the one before, until one is empty. */
  ghost function AllPages(rows: seq<Transaction>, q: Query, extra: Transaction -> bool,
                          le: (string, string) -> bool): seq<Transaction>
    decreases |Where(rows, Filter(q, extra))|
  {
    var page := Page(rows, q, extra, le);
    if page == [] then []
    else
      PageShrinks(rows, q, extra, le);
      page + AllPages(rows, NextQuery(q, page), extra, le)
  }

  lemma FewerAgree(rows: seq<Transaction>, all: seq<Transaction>, le: (string, string) -> bool)
    requires OrdersAgree(rows, le) && forall t :: t in all ==> t in rows
    ensures OrdersAgree(all, le)
  {}

  lemma LimitedSplits(all: seq<Transaction>, limit: nat)
    requires Limited(all, limit) != []
    ensures var page := Limited(all, limit);
            |page| <= |all| && page[|page| - 1] == all[|page| - 1] && all == page + all[|page|..]
  {}

  lemma PageThenRest(rows: seq<Transaction>, q: Query, extra: Transaction -> bool, le: (string, string) -> bool)
    requires TotalOrder(le) && IdsUnique(rows) && OrdersAgree(rows, le) && Page(rows, q, extra, le) != []
    ensures var page := Page(rows, q, extra, le);
            Full(rows, q, extra, le) == page + Full(rows, NextQuery(q, page), extra, le)
  {
    var all := Full(rows, q, extra, le);
    FullLaws(rows, q, extra, le);
    FewerAgree(rows, all, le);
    LimitedSplits(all, q.limit);
    NextIsRest(rows, q, extra, le, |Limited(all, q.limit)| - 1);
  }

  /** For any filter and any page size the pages make up the whole list, no row skipped or repeated. */
  lemma {:induction false} PagesMakeTheList(rows: seq<Transaction>, q: Query, extra: Transaction -> bool,
                                            le: (string, string) -> bool)
    requires TotalOrder(le) && IdsUnique(rows) && OrdersAgree(rows, le)
    ensures AllPages(rows, q, extra, le) == Full(rows, q, extra, le)
    decreases |Where(rows, Filter(q, extra))|
  {
    var page := Page(rows, q, extra, le);
    if page != [] {
      PageShrinks(rows, q, extra, le);
      PageThenRest(rows, q, extra, le);
      PagesMakeTheList(rows, NextQuery(q, page), extra, le);
    }
  }

  /** Behind every row of the list the cursor finds exactly the rest of the list. */
  ghost predicate CursorIsExact(rows: seq<Transaction>, q: Query, extra: Transaction -> bool,
                                le: (string, string) -> bool) {
    var all := Full(rows, q, extra, le);
    forall m :: 0 <= m < |all| ==> Full(rows, q.(before := Some(CursorOf(all[m]))), extra, le) == all[m + 1..]
  }

  lemma ExactAt(rows: seq<Transaction>, q: Query, extra: Transaction -> bool, le: (string, string) -> bool, m: nat,
                i: nat)
    requires TotalOrder(le) && IdsUnique(rows)
    requires m < |Full(rows, q, extra, le)| && i < |Full(rows, q, extra, le)| && CursorIsExact(rows, q, extra, le)
    ensures Older(Full(rows, q, extra, le)[i], CursorOf(Full(rows, q, extra, le)[m])) <==> i > m
  {
    var all := Full(rows, q, extra, le);
    FullLaws(rows, q, extra, le);
    NextFull(rows, q, extra, le, all[m]);
    var older := OlderThan(CursorOf(all[m]));
    WhereMembers(all, older);
    SortElements(NewestFirst(le), Where(all, older));
    SameElements(SortBy(NewestFirst(le), Where(all, older)), Where(all, older));
    assert all[i] in all;
    assert all[i] in all[m + 1..] <==> i > m by {
      if i > m { assert all[m + 1..][i - m - 1] == all[i]; }
    }
  }

  lemma AgreeAt(rows: seq<Transaction>, q: Query, extra: Transaction -> bool, le: (string, string) -> bool, i: nat,
                j: nat)
    requires TotalOrder(le) && IdsUnique(rows) && CursorIsExact(rows, q, extra, le)
    requires i < |Full(rows, q, extra, le)| && j < |Full(rows, q, extra, le)| && i != j
    ensures var a, b := Full(rows, q, extra, le)[i], Full(rows, q, extra, le)[j];
            a.postedAt == b.postedAt ==> (Calendar.StringLt(a.id, b.id) <==> le(a.id, b.id))
  {
    var all := Full(rows, q, extra, le);
    FullLaws(rows, q, extra, le);
    ExactAt(rows, q, extra, le, j, i);
    assert all[i] in all && all[j] in all;
    if i > j { assert NewestFirst(le)(all[j], all[i]); } else { assert NewestFirst(le)(all[i], all[j]); }
  }

  /** The cursor is exact exactly when `<` and the sorting order agree on the ids of each day. */
  lemma ExactIffOrdersAgree(rows: seq<Transaction>, q: Query, extra: Transaction -> bool, le: (string, string) -> bool)
    requires TotalOrder(le) && IdsUnique(rows)
    ensures CursorIsExact(rows, q, extra, le) <==> OrdersAgree(Full(rows, q, extra, le), le)
  {
    var all := Full(rows, q, extra, le);
    if OrdersAgree(all, le) {
      forall m | 0 <= m < |all|
        ensures Full(rows, q.(before := Some(CursorOf(all[m]))), extra, le) == all[m + 1..]
      {
        NextIsRest(rows, q, extra, le, m);
      }
    }
    if CursorIsExact(rows, q, extra, le) {
      forall a, b | a in all && b in all && a.postedAt == b.postedAt && a != b
        ensures Calendar.StringLt(a.id, b.id) <==> le(a.id, b.id)
      {
        var i :| 0 <= i < |all| && all[i] == a;
        var j :| 0 <= j < |all| && all[j] == b;
        AgreeAt(rows, q, extra, le, i, j);
      }
    }
  }

  // ---------------------------------------------------------------- exactly when the pages add up

  /** The cursor behind row `m` of the list cuts it there: it lets the later rows through and no other. */
  ghost predicate CutsAt(all: seq<Transaction>, m: nat)
    requires m < |all|
  {
    forall i :: 0 <= i < |all| ==> (Older(all[i], CursorOf(all[m])) <==> i > m)
  }

  /** It does so behind the last row of every page of the list. */
  ghost predicate PagesFit(all: seq<Transaction>, limit: nat) {
    all == [] ||
      var n := |Limited(all, limit)|;
      CutsAt(all, n - 1) && PagesFit(all[n..], limit)
  }

  lemma CutIsRest(rows: seq<Transaction>, q: Query, extra: Transaction -> bool, le: (string, string) -> bool, m: nat)
    requires TotalOrder(le) && IdsUnique(rows) && m < |Full(rows, q, extra, le)| && CutsAt(Full(rows, q, extra, le), m)
    ensures var all := Full(rows, q, extra, le);
            Full(rows, q.(before := Some(CursorOf(all[m]))), extra, le) == all[m + 1..]
  {
    var all := Full(rows, q, extra, le);
    FullLaws(rows, q, extra, le);
    NextFull(rows, q, extra, le, all[m]);
    WhereSuffix(all, OlderThan(CursorOf(all[m])), m + 1);
    InOrderSuffix(all, m + 1, le);
    SortInOrder(all[m + 1..], le);
  }

  lemma NextMembers(rows: seq<Transaction>, q: Query, extra: Transaction -> bool, le: (string, string) -> bool, m: nat)
    requires TotalOrder(le) && IdsUnique(rows) && m < |Full(rows, q, extra, le)|
    ensures var all := Full(rows, q, extra, le);
            forall t :: t in Full(rows, q.(before := Some(CursorOf(all[m]))), extra, le)
                   <==> t in all && Older(t, CursorOf(all[m]))
  {
    var all := Full(rows, q, extra, le);
    NextFull(rows, q, extra, le, all[m]);
    var older := Where(all, OlderThan(CursorOf(all[m])));
    WhereMembers(all, OlderThan(CursorOf(all[m])));
    SortElements(NewestFirst(le), older);
    SameElements(SortBy(NewestFirst(le), older), older);
  }

  lemma PageOf(rows: seq<Transaction>, q: Query, extra: Transaction -> bool, le: (string, string) -> bool)
    requires Full(rows, q, extra, le) != []
    ensures var all, n := Full(rows, q, extra, le), |Page(rows, q, extra, le)|;
            && 0 < n <= |all| && Page(rows, q, extra, le) == all[..n]
            && NextQuery(q, Page(rows, q, extra, le)) == q.(before := Some(CursorOf(all[n - 1])))
            && AllPages(rows, q, extra, le) == all[..n] + AllPages(rows, NextQuery(q, all[..n]), extra, le)
  {
    var page := Page(rows, q, extra, le);
    assert page != [] && page == Full(rows, q, extra, le)[..|page|];
  }

  /** The pages hold nothing that is not on the list, and start as it starts. */
  lemma {:induction false} PagesAreListed(rows: seq<Transaction>, q: Query, extra: Transaction -> bool,
                                          le: (string, string) -> bool)
    requires TotalOrder(le) && IdsUnique(rows)
    ensures forall t :: t in AllPages(rows, q, extra, le) ==> t in Full(rows, q, extra, le)
    ensures Full(rows, q, extra, le) != [] ==>
              AllPages(rows, q, extra, le) != [] && AllPages(rows, q, extra, le)[0] == Full(rows, q, extra, le)[0]
    decreases |Where(rows, Filter(q, extra))|
  {
    var all := Full(rows, q, extra, le);
    if all != [] {
      PageOf(rows, q, extra, le);
      var n := |Page(rows, q, extra, le)|;
      PageShrinks(rows, q, extra, le);
      PagesAreListed(rows, NextQuery(q, all[..n]), extra, le);
      NextMembers(rows, q, extra, le, n - 1);
    }
  }

  lemma StandsBehind(all: seq<Transaction>, le: (string, string) -> bool, i: nat, j: nat)
    requires InOrder(all, le) && IdsUnique(all) && i < |all| && j < |all|
    ensures NewestFirst(le)(all[j], all[i]) ==> j <= i
  {
    if i < j {
      assert NewestFirst(le)(all[i], all[j]);
      assert all[i] in all && all[j] in all && all[i] != all[j];
    }
  }

  lemma FirstIsFirst(rest: seq<Transaction>, le: (string, string) -> bool, t: Transaction)
    requires InOrder(rest, le) && t in rest
    ensures NewestFirst(le)(rest[0], t)
  {
    var k :| 0 <= k < |rest| && rest[k] == t;
    if k > 0 { assert NewestFirst(le)(rest[0], rest[k]); } else { assert rest[0] in rest; }
  }

  /** A later row that the cursor does not let through is on none of the pages to come. */
  lemma LaterIsLost(all: seq<Transaction>, rest: seq<Transaction>, pages: seq<Transaction>, m: nat, i: nat)
    requires m < i < |all| && all[i] !in rest && forall t :: t in pages ==> t in rest
    ensures pages != all[m + 1..]
  {
    assert all[m + 1..][i - m - 1] == all[i];
  }

  /** If it lets an earlier row through, the pages to come start with an earlier row. */
  lemma EarlierReturns(all: seq<Transaction>, rest: seq<Transaction>, pages: seq<Transaction>,
                       le: (string, string) -> bool, m: nat, i: nat)
    requires InOrder(all, le) && IdsUnique(all) && InOrder(rest, le) && i <= m < |all|
    requires all[i] in rest && (forall t :: t in rest ==> t in all)
    requires pages != [] && pages[0] == rest[0]
    ensures pages != all[m + 1..]
  {
    var j :| 0 <= j < |all| && all[j] == rest[0];
    FirstIsFirst(rest, le, all[i]);
    StandsBehind(all, le, i, j);
    if m + 1 < |all| { assert all[m + 1] != all[j]; }
  }

  /** When the cursor does not cut the list behind row `m`, what comes next is not the rest of it. */
  lemma WrongCut(rows: seq<Transaction>, q: Query, extra: Transaction -> bool, le: (string, string) -> bool, m: nat)
    requires TotalOrder(le) && IdsUnique(rows) && m < |Full(rows, q, extra, le)| && !CutsAt(Full(rows, q, extra, le), m)
    ensures var all := Full(rows, q, extra, le);
            AllPages(rows, q.(before := Some(CursorOf(all[m]))), extra, le) != all[m + 1..]
  {
    var all := Full(rows, q, extra, le);
    var next := q.(before := Some(CursorOf(all[m])));
    FullLaws(rows, q, extra, le);
    FullLaws(rows, next, extra, le);
    NextMembers(rows, q, extra, le, m);
    PagesAreListed(rows, next, extra, le);
    var i :| 0 <= i < |all| && !(Older(all[i], CursorOf(all[m])) <==> i > m);
    if i > m {
      LaterIsLost(all, Full(rows, next, extra, le), AllPages(rows, next, extra, le), m, i);
    } else {
      EarlierReturns(all, Full(rows, next, extra, le), AllPages(rows, next, extra, le), le, m, i);
    }
  }

  lemma SplitAt(all: seq<Transaction>, n: nat, rest: seq<Transaction>)
    requires n <= |all|
    ensures all[..n] + rest == all <==> rest == all[n..]
  {
    assert (all[..n] + rest)[n..] == rest && all == all[..n] + all[n..];
  }

  lemma FitStep(all: seq<Transaction>, limit: nat, n: nat)
    requires all != [] && n == |Limited(all, limit)|
    ensures 0 < n <= |all| && PagesFit(all, limit) == (CutsAt(all, n - 1) && PagesFit(all[n..], limit))
  {}

  /** The pages make up the list. */
  ghost predicate Complete(rows: seq<Transaction>, q: Query, extra: Transaction -> bool, le: (string, string) -> bool) {
    AllPages(rows, q, extra, le) == Full(rows, q, extra, le)
  }

  lemma CompleteStep(rows: seq<Transaction>, q: Query, extra: Transaction -> bool, le: (string, string) -> bool, n: nat)
    requires TotalOrder(le) && IdsUnique(rows)
    requires Full(rows, q, extra, le) != [] && n == |Page(rows, q, extra, le)|
    ensures var all := Full(rows, q, extra, le);
            && 0 < n <= |all|
            && var next := NextQuery(q, all[..n]);
               Complete(rows, q, extra, le)
               <==> CutsAt(all, n - 1) && Full(rows, next, extra, le) == all[n..] && Complete(rows, next, extra, le)
  {
    var all := Full(rows, q, extra, le);
    PageOf(rows, q, extra, le);
    SplitAt(all, n, AllPages(rows, NextQuery(q, all[..n]), extra, le));
    if CutsAt(all, n - 1) {
      CutIsRest(rows, q, extra, le, n - 1);
    } else {
      WrongCut(rows, q, extra, le, n - 1);
    }
  }

  /** The pages make up the list if and only if the cursor cuts it behind the last row of every page. */
  lemma {:induction false} PagesExactly(rows: seq<Transaction>, q: Query, extra: Transaction -> bool,
                                        le: (string, string) -> bool)
    requires TotalOrder(le) && IdsUnique(rows)
    ensures Complete(rows, q, extra, le) <==> PagesFit(Full(rows, q, extra, le), q.limit)
    decreases |Where(rows, Filter(q, extra))|
  {
    var all := Full(rows, q, extra, le);
    if all == [] {
      NothingToShow(rows, q, extra, le);
    } else {
      var n := |Page(rows, q, extra, le)|;
      FitStep(all, q.limit, n);
      CompleteStep(rows, q, extra, le, n);
      if CutsAt(all, n - 1) {
        PageOf(rows, q, extra, le);
        CutIsRest(rows, q, extra, le, n - 1);
        PageShrinks(rows, q, extra, le);
        PagesExactly(rows, NextQuery(q, all[..n]), extra, le);
      }
    }
  }

  lemma NothingToShow(rows: seq<Transaction>, q: Query, extra: Transaction -> bool, le: (string, string) -> bool)
    requires Full(rows, q, extra, le) == []
    ensures Complete(rows, q, extra, le)
  {}

  lemma TwoRows(x: Transaction, y: Transaction, q: Query, extra: Transaction -> bool, le: (string, string) -> bool)
    requires Filter(q, extra)(x) && Filter(q, extra)(y) && NewestFirst(le)(x, y)
    ensures Full([x, y], q, extra, le) == [x, y]
  {
    WhereEvery([x, y], Filter(q, extra));
    assert [x, y][1..] == [y] && [y][1..] == [];
    assert SortBy(NewestFirst(le), [y]) == [y];
  }

  lemma OnlyFirst(x: Transaction, y: Transaction, q: Query, extra: Transaction -> bool, le: (string, string) -> bool)
    requires Matches(q, extra, x) && Matches(q, extra, y)
    requires q.before.Some? && !Older(x, q.before.value) && !Older(y, q.before.value)
    ensures Full([x, y], q, extra, le) == [] && AllPages([x, y], q, extra, le) == []
  {
    WhereNone([x, y], Filter(q, extra));
  }

  /** Two rows of one day that `<` and the sorting order rank differently, such as "B" and "a": in pages
      of one the second is skipped. */
  lemma RowIsSkipped(x: Transaction, y: Transaction, q: Query, extra: Transaction -> bool,
                     le: (string, string) -> bool)
    requires x.postedAt == y.postedAt && Calendar.StringLt(x.id, y.id) && le(y.id, x.id)
    requires Matches(q, extra, x) && Matches(q, extra, y) && q.before.None? && q.limit == 1
    ensures Full([x, y], q, extra, le) == [x, y] && AllPages([x, y], q, extra, le) == [x]
  {
    TwoRows(x, y, q, extra, le);
    PageOf([x, y], q, extra, le);
    assert [x, y][..1] == [x];
    NotBothLess(x.id, y.id);
    NotOlderThanItself(x);
    OnlyFirst(x, y, NextQuery(q, [x]), extra, le);
  }

  lemma {:induction false} NotBothLess(a: string, b: string)
    requires Calendar.StringLt(a, b)
    ensures !Calendar.StringLt(b, a)
  {
    if Calendar.StringLt(b, a) {
      StringLtTransitive(a, b, a);
      Calendar.Irreflexive(a);
    }
  }
}
