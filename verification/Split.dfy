/** Shared expenses: apps/api/src/domain/split/split.ts, and the balance check of `removeMember`
    in apps/api/src/infra/in-memory-store.ts. */
module Split {
  import opened Sorting

  datatype Share = Share(userId: string, amount: int)

  datatype Expense = Expense(amount: int, currency: string, paidBy: string, participants: seq<Share>)

  datatype Settlement = Settlement(from: string, to: string, amount: int, currency: string)

  datatype Suggestion = Suggestion(from: string, to: string, amount: int)

  datatype Result<T> = Ok(value: T) | RangeError

  function Total(shares: seq<Share>): int {
    if shares == [] then 0 else shares[0].amount + Total(shares[1..])
  }

  /** What `shares` hold for one user. */
  function HeldBy(shares: seq<Share>, user: string): int {
    if shares == [] then 0
    else (if shares[0].userId == user then shares[0].amount else 0) + HeldBy(shares[1..], user)
  }

  ghost predicate DistinctUsers(shares: seq<Share>) {
    forall i, j :: 0 <= i < j < |shares| ==> shares[i].userId != shares[j].userId
  }

  ghost predicate Positive(shares: seq<Share>) {
    forall s :: s in shares ==> s.amount > 0
  }

  lemma {:induction false} TotalAppend(a: seq<Share>, b: seq<Share>)
    ensures Total(a + b) == Total(a) + Total(b)
  {
    if a == [] { assert a + b == b; }
    else { TotalAppend(a[1..], b); assert (a + b)[1..] == a[1..] + b; }
  }

  lemma {:induction false} HeldByAppend(a: seq<Share>, b: seq<Share>, user: string)
    ensures HeldBy(a + b, user) == HeldBy(a, user) + HeldBy(b, user)
  {
    if a == [] { assert a + b == b; }
    else { HeldByAppend(a[1..], b, user); assert (a + b)[1..] == a[1..] + b; }
  }

  // ---------------------------------------------------------------- dividing an expense

  /** Shares in member order, at most one minor unit apart, the larger ones first, adding up to
      the amount. */
  ghost predicate FairlySplit(amount: int, members: seq<string>, shares: seq<Share>) {
    && |shares| == |members| > 0
    && (forall i :: 0 <= i < |members| ==> shares[i].userId == members[i])
    && (forall i, j :: 0 <= i < j < |shares| ==> shares[j].amount <= shares[i].amount <= shares[j].amount + 1)
    && Total(shares) == amount
  }

  method SplitEqually(amount: int, members: seq<string>) returns (r: Result<seq<Share>>)
    ensures r.Ok? <==> amount > 0 && members != []
    ensures r.Ok? ==> FairlySplit(amount, members, r.value)
  {
    if amount <= 0 { return RangeError; }
    if |members| == 0 { return RangeError; }
    var n := |members|;
    var base := amount / n;
    var remainder := amount - base * n;
    ghost var extras := remainder;
    assert 0 <= remainder < n by { assert amount == n * (amount / n) + amount % n; }
    var shares: seq<Share> := [];
    for i := 0 to n
      invariant |shares| == i && remainder == (if i < extras then extras - i else 0)
      invariant forall k :: 0 <= k < i ==>
                  shares[k] == Share(members[k], base + (if k < extras then 1 else 0))
      invariant Total(shares) == base * i + extras - remainder
    {
      var extra := if remainder > 0 then 1 else 0;
      remainder := remainder - extra;
      TotalAppend(shares, [Share(members[i], base + extra)]);
      shares := shares + [Share(members[i], base + extra)];
      assert base * (i + 1) == base * i + base;
    }
    r := Ok(shares);
  }

  method AssertSharesReconcile(amount: int, shares: seq<Share>) returns (r: Result<()>)
    ensures r.Ok? <==> Positive(shares) && DistinctUsers(shares) && Total(shares) == amount
  {
    var seen: set<string> := {};
    var total := 0;
    for i := 0 to |shares|
      invariant Positive(shares[..i]) && DistinctUsers(shares[..i])
      invariant forall u :: u in seen <==> exists k :: 0 <= k < i && shares[k].userId == u
      invariant total == Total(shares[..i])
    {
      assert shares[..i + 1] == shares[..i] + [shares[i]];
      TotalAppend(shares[..i], [shares[i]]);
      if shares[i].amount <= 0 { assert shares[i] in shares; return RangeError; }
      if shares[i].userId in seen { return RangeError; }
      seen := seen + {shares[i].userId};
      total := total + shares[i].amount;
    }
    assert shares[..|shares|] == shares;
    r := if total != amount then RangeError else Ok(());
  }

  // ---------------------------------------------------------------- net balances

  /** A JavaScript `Map` from users to amounts, in insertion order. */
  function Get(balances: seq<Share>, user: string): int {
    if balances == [] then 0
    else if balances[0].userId == user then balances[0].amount
    else Get(balances[1..], user)
  }

  function Bump(balances: seq<Share>, user: string, delta: int): seq<Share> {
    if balances == [] then [Share(user, delta)]
    else if balances[0].userId == user then [Share(user, balances[0].amount + delta)] + balances[1..]
    else [balances[0]] + Bump(balances[1..], user, delta)
  }

  function BumpAll(balances: seq<Share>, participants: seq<Share>): seq<Share>
    decreases participants
  {
    if participants == [] then balances
    else BumpAll(Bump(balances, participants[0].userId, -participants[0].amount), participants[1..])
  }

  function AfterExpense(balances: seq<Share>, e: Expense, currency: string): seq<Share> {
    if e.currency != currency then balances
    else BumpAll(Bump(balances, e.paidBy, e.amount), e.participants)
  }

  function AfterSettlement(balances: seq<Share>, s: Settlement, currency: string): seq<Share> {
    if s.currency != currency then balances
    else Bump(Bump(balances, s.from, s.amount), s.to, -s.amount)
  }

  function AfterExpenses(expenses: seq<Expense>, currency: string): seq<Share> {
    if expenses == [] then []
    else AfterExpense(AfterExpenses(expenses[..|expenses| - 1], currency), expenses[|expenses| - 1], currency)
  }

  function NetBalances(expenses: seq<Expense>, settlements: seq<Settlement>, currency: string): seq<Share> {
    if settlements == [] then AfterExpenses(expenses, currency)
    else AfterSettlement(NetBalances(expenses, settlements[..|settlements| - 1], currency),
                         settlements[|settlements| - 1], currency)
  }

  method ComputeNetBalances(expenses: seq<Expense>, settlements: seq<Settlement>, currency: string)
    returns (balances: seq<Share>)
    ensures balances == NetBalances(expenses, settlements, currency)
  {
    balances := [];
    for i := 0 to |expenses|
      invariant balances == AfterExpenses(expenses[..i], currency)
    {
      assert expenses[..i + 1][..i] == expenses[..i];
      var e := expenses[i];
      if e.currency != currency { continue; }
      balances := Bump(balances, e.paidBy, e.amount);
      ghost var before := balances;
      for j := 0 to |e.participants|
        invariant BumpAll(before, e.participants) == BumpAll(balances, e.participants[j..])
      {
        assert e.participants[j..][1..] == e.participants[j + 1..];
        balances := Bump(balances, e.participants[j].userId, -e.participants[j].amount);
      }
    }
    assert expenses[..|expenses|] == expenses;
    for i := 0 to |settlements|
      invariant balances == NetBalances(expenses, settlements[..i], currency)
    {
      assert settlements[..i + 1][..i] == settlements[..i];
      var s := settlements[i];
      if s.currency != currency { continue; }
      balances := Bump(balances, s.from, s.amount);
      balances := Bump(balances, s.to, -s.amount);
    }
    assert settlements[..|settlements|] == settlements;
  }

  /** The running sum of `removeMember`, for one user and one currency. */
  function NetOf(expenses: seq<Expense>, settlements: seq<Settlement>, currency: string, user: string): int {
    NetOfExpenses(expenses, currency, user) + NetOfSettlements(settlements, currency, user)
  }

  function NetOfExpenses(expenses: seq<Expense>, currency: string, user: string): int {
    if expenses == [] then 0 else
    var e := expenses[|expenses| - 1];
    NetOfExpenses(expenses[..|expenses| - 1], currency, user) +
    (if e.currency != currency then 0
     else (if e.paidBy == user then e.amount else 0) - HeldBy(e.participants, user))
  }

  function NetOfSettlements(settlements: seq<Settlement>, currency: string, user: string): int {
    if settlements == [] then 0 else
    var s := settlements[|settlements| - 1];
    NetOfSettlements(settlements[..|settlements| - 1], currency, user) +
    (if s.currency != currency then 0
     else (if s.from == user then s.amount else 0) - (if s.to == user then s.amount else 0))
  }

  /** The check `removeMember` makes before it lets a member go. */
  method MemberNet(expenses: seq<Expense>, settlements: seq<Settlement>, currency: string, user: string)
    returns (net: int)
    ensures net == NetOf(expenses, settlements, currency, user)
  {
    net := 0;
    for i := 0 to |expenses|
      invariant net == NetOfExpenses(expenses[..i], currency, user)
    {
      assert expenses[..i + 1][..i] == expenses[..i];
      var e := expenses[i];
      if e.currency != currency { continue; }
      if e.paidBy == user { net := net + e.amount; }
      ghost var before := net;
      for j := 0 to |e.participants|
        invariant net == before - HeldBy(e.participants[..j], user)
      {
        assert e.participants[..j + 1] == e.participants[..j] + [e.participants[j]];
        HeldByAppend(e.participants[..j], [e.participants[j]], user);
        if e.participants[j].userId == user { net := net - e.participants[j].amount; }
      }
      assert e.participants[..|e.participants|] == e.participants;
    }
    assert expenses[..|expenses|] == expenses;
    for i := 0 to |settlements|
      invariant net == NetOfExpenses(expenses, currency, user) + NetOfSettlements(settlements[..i], currency, user)
    {
      assert settlements[..i + 1][..i] == settlements[..i];
      var s := settlements[i];
      if s.currency != currency { continue; }
      if s.from == user { net := net + s.amount; }
      if s.to == user { net := net - s.amount; }
    }
    assert settlements[..|settlements|] == settlements;
  }

  lemma {:induction false} BumpLaws(balances: seq<Share>, user: string, delta: int, other: string)
    ensures var b := Bump(balances, user, delta);
            && Get(b, other) == Get(balances, other) + (if other == user then delta else 0)
            && Total(b) == Total(balances) + delta
  {
    if balances != [] && balances[0].userId != user { BumpLaws(balances[1..], user, delta, other); }
  }

  ghost predicate Lacks(balances: seq<Share>, user: string) {
    forall s :: s in balances ==> s.userId != user
  }

  lemma {:induction false} BumpLacks(balances: seq<Share>, user: string, delta: int, other: string)
    requires Lacks(balances, other) && other != user
    ensures Lacks(Bump(balances, user, delta), other)
  {
    if balances != [] && balances[0].userId != user {
      assert forall s :: s in balances[1..] ==> s in balances;
      BumpLacks(balances[1..], user, delta, other);
    }
  }

  lemma {:induction false} BumpDistinct(balances: seq<Share>, user: string, delta: int)
    requires DistinctUsers(balances)
    ensures DistinctUsers(Bump(balances, user, delta))
  {
    if balances != [] && balances[0].userId != user {
      BumpDistinct(balances[1..], user, delta);
      BumpLacks(balances[1..], user, delta, balances[0].userId);
    }
  }

  lemma {:induction false} BumpAllGet(balances: seq<Share>, participants: seq<Share>, user: string)
    ensures Get(BumpAll(balances, participants), user) == Get(balances, user) - HeldBy(participants, user)
    decreases participants
  {
    if participants != [] {
      var p := participants[0];
      BumpLaws(balances, p.userId, -p.amount, user);
      BumpAllGet(Bump(balances, p.userId, -p.amount), participants[1..], user);
    }
  }

  lemma {:induction false} BumpAllTotal(balances: seq<Share>, participants: seq<Share>)
    requires DistinctUsers(balances)
    ensures DistinctUsers(BumpAll(balances, participants))
    ensures Total(BumpAll(balances, participants)) == Total(balances) - Total(participants)
    decreases participants
  {
    if participants != [] {
      var p := participants[0];
      BumpLaws(balances, p.userId, -p.amount, p.userId);
      BumpDistinct(balances, p.userId, -p.amount);
      BumpAllTotal(Bump(balances, p.userId, -p.amount), participants[1..]);
    }
  }

  lemma {:induction false} ExpensesLaws(expenses: seq<Expense>, currency: string, user: string)
    ensures var b := AfterExpenses(expenses, currency);
            DistinctUsers(b) && Get(b, user) == NetOfExpenses(expenses, currency, user)
    ensures (forall e :: e in expenses ==> Total(e.participants) == e.amount)
            ==> Total(AfterExpenses(expenses, currency)) == 0
  {
    if expenses != [] {
      var init, e := expenses[..|expenses| - 1], expenses[|expenses| - 1];
      ExpensesLaws(init, currency, user);
      assert e in expenses && forall x :: x in init ==> x in expenses;
      var b := AfterExpenses(init, currency);
      BumpLaws(b, e.paidBy, e.amount, user);
      BumpDistinct(b, e.paidBy, e.amount);
      BumpAllGet(Bump(b, e.paidBy, e.amount), e.participants, user);
      BumpAllTotal(Bump(b, e.paidBy, e.amount), e.participants);
    }
  }

  lemma SettlementLaws(b: seq<Share>, s: Settlement, currency: string, user: string)
    requires DistinctUsers(b)
    ensures var after := AfterSettlement(b, s, currency);
            && DistinctUsers(after) && Total(after) == Total(b)
            && Get(after, user) == Get(b, user) + NetOfSettlements([s], currency, user)
  {
    assert [s][..0] == [];
    var paid := Bump(b, s.from, s.amount);
    BumpLaws(b, s.from, s.amount, user);
    BumpDistinct(b, s.from, s.amount);
    BumpLaws(paid, s.to, -s.amount, user);
    BumpDistinct(paid, s.to, -s.amount);
  }

  lemma {:induction false} NetOfAppend(a: seq<Settlement>, b: seq<Settlement>, currency: string, user: string)
    ensures NetOfSettlements(a + b, currency, user)
         == NetOfSettlements(a, currency, user) + NetOfSettlements(b, currency, user)
  {
    if b == [] {
      assert a + b == a;
    } else {
      assert (a + b)[..|a + b| - 1] == a + b[..|b| - 1];
      NetOfAppend(a, b[..|b| - 1], currency, user);
    }
  }

  /** The balances are the per-member sums that `removeMember` computes on its own. */
  lemma {:induction false} BalanceIsMemberNet(expenses: seq<Expense>, settlements: seq<Settlement>, currency: string,
                                              user: string)
    ensures var b := NetBalances(expenses, settlements, currency);
            DistinctUsers(b) && Get(b, user) == NetOf(expenses, settlements, currency, user)
    ensures Total(NetBalances(expenses, settlements, currency)) == Total(AfterExpenses(expenses, currency))
  {
    if settlements == [] {
      ExpensesLaws(expenses, currency, user);
    } else {
      var init, s := settlements[..|settlements| - 1], settlements[|settlements| - 1];
      BalanceIsMemberNet(expenses, init, currency, user);
      SettlementLaws(NetBalances(expenses, init, currency), s, currency, user);
      assert settlements == init + [s];
      NetOfAppend(init, [s], currency, user);
    }
  }

  /** When every expense is divided exactly, the balances add up to zero, settlements or not. */
  lemma BalancesAreZeroSum(expenses: seq<Expense>, settlements: seq<Settlement>, currency: string)
    requires forall e :: e in expenses ==> Total(e.participants) == e.amount
    ensures Total(NetBalances(expenses, settlements, currency)) == 0
  {
    BalanceIsMemberNet(expenses, settlements, currency, "");
    ExpensesLaws(expenses, currency, "");
  }

  // ---------------------------------------------------------------- suggesting payments

  /** Sorting order of both queues: largest amount first, ties in place. */
  predicate Larger(a: Share, b: Share) {
    a.amount >= b.amount
  }

  function LargestFirst(shares: seq<Share>): (r: seq<Share>)
    ensures |r| == |shares|
  {
    SortElements(Larger, shares);
    SameElements(SortBy(Larger, shares), shares);
    SortBy(Larger, shares)
  }

  function Creditors(balances: seq<Share>): seq<Share> {
    if balances == [] then []
    else (if balances[0].amount > 0 then [balances[0]] else []) + Creditors(balances[1..])
  }

  function Debtors(balances: seq<Share>): seq<Share> {
    if balances == [] then []
    else (if balances[0].amount < 0 then [Share(balances[0].userId, -balances[0].amount)] else [])
         + Debtors(balances[1..])
  }

  /** The head of a queue pays `amount`, and leaves the queue when that is all it holds. */
  function Reduced(shares: seq<Share>, amount: int): seq<Share>
    requires shares != []
  {
    if shares[0].amount == amount then shares[1..]
    else [Share(shares[0].userId, shares[0].amount - amount)] + shares[1..]
  }

  function Smaller(a: int, b: int): int {
    if a <= b then a else b
  }

  datatype Plan = Plan(suggestions: seq<Suggestion>, creditors: seq<Share>, debtors: seq<Share>)

  /** The payments of the greedy loop, and what it leaves in its two queues. */
  function Settle(creditors: seq<Share>, debtors: seq<Share>): Plan
    decreases |creditors| + |debtors|
  {
    if creditors == [] || debtors == [] then Plan([], creditors, debtors)
    else
      var cs, ds := LargestFirst(creditors), LargestFirst(debtors);
      var amount := Smaller(cs[0].amount, ds[0].amount);
      var rest := Settle(Reduced(cs, amount), Reduced(ds, amount));
      rest.(suggestions := [Suggestion(ds[0].userId, cs[0].userId, amount)] + rest.suggestions)
  }

  function Suggested(balances: seq<Share>): Plan {
    Settle(Creditors(balances), Debtors(balances))
  }

  lemma SettleStep(creditors: seq<Share>, debtors: seq<Share>, cs: seq<Share>, ds: seq<Share>, amount: int)
    requires creditors != [] && debtors != [] && cs == LargestFirst(creditors) && ds == LargestFirst(debtors)
    requires amount == Smaller(cs[0].amount, ds[0].amount)
    ensures Settle(creditors, debtors).suggestions
         == [Suggestion(ds[0].userId, cs[0].userId, amount)]
            + Settle(Reduced(cs, amount), Reduced(ds, amount)).suggestions
    ensures |Reduced(cs, amount)| + |Reduced(ds, amount)| < |creditors| + |debtors|
  {}

  lemma Reassociate(a: seq<Suggestion>, b: seq<Suggestion>, c: seq<Suggestion>)
    ensures a + (b + c) == (a + b) + c
  {}

  method SuggestSettlements(balances: seq<Share>) returns (suggestions: seq<Suggestion>)
    ensures suggestions == Suggested(balances).suggestions
  {
    var creditors, debtors := Creditors(balances), Debtors(balances);
    ghost var all := Settle(creditors, debtors).suggestions;
    suggestions := [];
    while creditors != [] && debtors != []
      invariant all == suggestions + Settle(creditors, debtors).suggestions
      decreases |creditors| + |debtors|
    {
      ghost var cs, ds := creditors, debtors;
      creditors := LargestFirst(creditors);
      debtors := LargestFirst(debtors);
      var creditor, debtor := creditors[0], debtors[0];
      var amount := Smaller(creditor.amount, debtor.amount);
      SettleStep(cs, ds, creditors, debtors, amount);
      var next := Suggestion(debtor.userId, creditor.userId, amount);
      creditors := Reduced(creditors, amount);
      debtors := Reduced(debtors, amount);
      Reassociate(suggestions, [next], Settle(creditors, debtors).suggestions);
      suggestions := suggestions + [next];
    }
  }

  // ---------------------------------------------------------------- what the payments achieve

  function Sent(suggestions: seq<Suggestion>, user: string): int {
    if suggestions == [] then 0
    else (if suggestions[0].from == user then suggestions[0].amount else 0) + Sent(suggestions[1..], user)
  }

  function Received(suggestions: seq<Suggestion>, user: string): int {
    if suggestions == [] then 0
    else (if suggestions[0].to == user then suggestions[0].amount else 0) + Received(suggestions[1..], user)
  }

  lemma {:induction false} HeldByNonNegative(shares: seq<Share>, user: string)
    requires Positive(shares)
    ensures HeldBy(shares, user) >= 0 && Total(shares) >= |shares|
    ensures shares != [] ==> HeldBy(shares, shares[0].userId) > 0
  {
    if shares != [] {
      assert forall s :: s in shares[1..] ==> s in shares;
      HeldByNonNegative(shares[1..], user);
      HeldByNonNegative(shares[1..], shares[0].userId);
    }
  }

  lemma {:induction false} InsertHeld(x: Share, s: seq<Share>, user: string)
    ensures var r := Insert(Larger, x, s);
            HeldBy(r, user) == HeldBy(s, user) + (if x.userId == user then x.amount else 0)
              && Total(r) == Total(s) + x.amount
  {
    if s != [] && !Larger(x, s[0]) { InsertHeld(x, s[1..], user); }
  }

  lemma {:induction false} SortHeld(s: seq<Share>, user: string)
    ensures HeldBy(SortBy(Larger, s), user) == HeldBy(s, user) && Total(SortBy(Larger, s)) == Total(s)
  {
    if s != [] {
      SortHeld(s[1..], user);
      InsertHeld(s[0], SortBy(Larger, s[1..]), user);
    }
  }

  lemma LargestFirstLaws(s: seq<Share>, user: string)
    ensures var r := LargestFirst(s);
            HeldBy(r, user) == HeldBy(s, user) && Total(r) == Total(s) && (Positive(s) ==> Positive(r))
  {
    SortHeld(s, user);
    SortElements(Larger, s);
    SameElements(SortBy(Larger, s), s);
  }

  lemma ReducedLaws(s: seq<Share>, amount: int, user: string)
    requires s != [] && Positive(s) && 0 < amount <= s[0].amount
    ensures var r := Reduced(s, amount);
            && HeldBy(r, user) == HeldBy(s, user) - (if s[0].userId == user then amount else 0)
            && Total(r) == Total(s) - amount && Positive(r)
            && |r| == (if amount == s[0].amount then |s| - 1 else |s|)
  {
    assert forall x :: x in s[1..] ==> x in s;
  }

  /** One round of the loop: the larger queue heads trade `amount`. */
  lemma RoundLaws(creditors: seq<Share>, debtors: seq<Share>, cs: seq<Share>, ds: seq<Share>, amount: int, user: string)
    requires creditors != [] && debtors != [] && cs == LargestFirst(creditors) && ds == LargestFirst(debtors)
    requires Positive(creditors) && Positive(debtors) && amount == Smaller(cs[0].amount, ds[0].amount)
    ensures Positive(Reduced(cs, amount)) && Positive(Reduced(ds, amount)) && amount > 0
    ensures HeldBy(Reduced(cs, amount), user) == HeldBy(creditors, user) - (if cs[0].userId == user then amount else 0)
    ensures HeldBy(Reduced(ds, amount), user) == HeldBy(debtors, user) - (if ds[0].userId == user then amount else 0)
    ensures Total(Reduced(cs, amount)) - Total(Reduced(ds, amount)) == Total(creditors) - Total(debtors)
    ensures |Reduced(cs, amount)| + |Reduced(ds, amount)| < |creditors| + |debtors|
    ensures HeldBy(creditors, cs[0].userId) > 0 && HeldBy(debtors, ds[0].userId) > 0
  {
    LargestFirstLaws(creditors, user);
    LargestFirstLaws(debtors, user);
    assert cs[0] in cs && ds[0] in ds;
    ReducedLaws(cs, amount, user);
    ReducedLaws(ds, amount, user);
    LargestFirstLaws(creditors, cs[0].userId);
    LargestFirstLaws(debtors, ds[0].userId);
    HeldByNonNegative(cs, user);
    HeldByNonNegative(ds, user);
  }

  /** Every user's claim is received or still queued, every debt is sent or still queued, and one
      of the two queues runs dry. */
  lemma {:induction false} SettleConserves(creditors: seq<Share>, debtors: seq<Share>, user: string)
    requires Positive(creditors) && Positive(debtors)
    ensures var p := Settle(creditors, debtors);
            && HeldBy(creditors, user) == Received(p.suggestions, user) + HeldBy(p.creditors, user)
            && HeldBy(debtors, user) == Sent(p.suggestions, user) + HeldBy(p.debtors, user)
            && Positive(p.creditors) && Positive(p.debtors) && (p.creditors == [] || p.debtors == [])
            && Total(p.creditors) - Total(p.debtors) == Total(creditors) - Total(debtors)
    decreases |creditors| + |debtors|
  {
    if creditors != [] && debtors != [] {
      var cs, ds := LargestFirst(creditors), LargestFirst(debtors);
      var amount := Smaller(cs[0].amount, ds[0].amount);
      RoundLaws(creditors, debtors, cs, ds, amount, user);
      SettleConserves(Reduced(cs, amount), Reduced(ds, amount), user);
    }
  }

  /** Every suggestion is a positive payment from a debtor to a creditor, and there are fewer of
      them than people involved. */
  ghost predicate Sensible(suggestions: seq<Suggestion>, creditors: seq<Share>, debtors: seq<Share>) {
    && (forall s :: s in suggestions ==> s.amount > 0 && HeldBy(debtors, s.from) > 0 && HeldBy(creditors, s.to) > 0)
    && (suggestions == [] || |suggestions| < |creditors| + |debtors|)
  }

  lemma {:induction false} SuggestionsAreSensible(creditors: seq<Share>, debtors: seq<Share>)
    requires Positive(creditors) && Positive(debtors)
    ensures Sensible(Settle(creditors, debtors).suggestions, creditors, debtors)
    decreases |creditors| + |debtors|
  {
    if creditors != [] && debtors != [] {
      var cs, ds := LargestFirst(creditors), LargestFirst(debtors);
      var amount := Smaller(cs[0].amount, ds[0].amount);
      RoundLaws(creditors, debtors, cs, ds, amount, "");
      var rest := Settle(Reduced(cs, amount), Reduced(ds, amount)).suggestions;
      SuggestionsAreSensible(Reduced(cs, amount), Reduced(ds, amount));
      forall s | s in rest ensures HeldBy(debtors, s.from) > 0 && HeldBy(creditors, s.to) > 0 {
        RoundLaws(creditors, debtors, cs, ds, amount, s.from);
        RoundLaws(creditors, debtors, cs, ds, amount, s.to);
      }
    }
  }

  function Above(n: int): int {
    if n > 0 then n else 0
  }

  lemma {:induction false} GetOfLacking(b: seq<Share>, user: string)
    requires Lacks(b, user)
    ensures Get(b, user) == 0
  {
    if b != [] {
      assert b[0] in b && forall s :: s in b[1..] ==> s in b;
      GetOfLacking(b[1..], user);
    }
  }

  lemma {:induction false} CreditorsOf(b: seq<Share>, user: string)
    requires DistinctUsers(b)
    ensures HeldBy(Creditors(b), user) == Above(Get(b, user))
  {
    if b != [] {
      assert forall s :: s in b[1..] ==> s.userId != b[0].userId;
      GetOfLacking(b[1..], b[0].userId);
      CreditorsOf(b[1..], user);
      HeldByAppend(if b[0].amount > 0 then [b[0]] else [], Creditors(b[1..]), user);
    }
  }

  lemma {:induction false} DebtorsOf(b: seq<Share>, user: string)
    requires DistinctUsers(b)
    ensures HeldBy(Debtors(b), user) == Above(-Get(b, user))
  {
    if b != [] {
      assert forall s :: s in b[1..] ==> s.userId != b[0].userId;
      GetOfLacking(b[1..], b[0].userId);
      DebtorsOf(b[1..], user);
      HeldByAppend(if b[0].amount < 0 then [Share(b[0].userId, -b[0].amount)] else [], Debtors(b[1..]), user);
    }
  }

  lemma {:induction false} QueueTotals(b: seq<Share>)
    ensures Positive(Creditors(b)) && Positive(Debtors(b)) && Total(Creditors(b)) - Total(Debtors(b)) == Total(b)
  {
    if b != [] {
      QueueTotals(b[1..]);
      TotalAppend(if b[0].amount > 0 then [b[0]] else [], Creditors(b[1..]));
      TotalAppend(if b[0].amount < 0 then [Share(b[0].userId, -b[0].amount)] else [], Debtors(b[1..]));
    }
  }

  /** A balance list splits into its two queues. */
  lemma QueuesOf(b: seq<Share>, user: string)
    requires DistinctUsers(b)
    ensures HeldBy(Creditors(b), user) == Above(Get(b, user)) && HeldBy(Debtors(b), user) == Above(-Get(b, user))
    ensures Positive(Creditors(b)) && Positive(Debtors(b)) && Total(Creditors(b)) - Total(Debtors(b)) == Total(b)
  {
    CreditorsOf(b, user);
    DebtorsOf(b, user);
    QueueTotals(b);
  }

  /** The suggestions recorded as payments in the group's currency. */
  function Recorded(suggestions: seq<Suggestion>, currency: string): seq<Settlement> {
    if suggestions == [] then []
    else [Settlement(suggestions[0].from, suggestions[0].to, suggestions[0].amount, currency)]
         + Recorded(suggestions[1..], currency)
  }

  lemma {:induction false} NetOfRecorded(suggestions: seq<Suggestion>, currency: string, user: string)
    ensures NetOfSettlements(Recorded(suggestions, currency), currency, user)
         == Sent(suggestions, user) - Received(suggestions, user)
  {
    if suggestions != [] {
      var s := suggestions[0];
      var first := [Settlement(s.from, s.to, s.amount, currency)];
      assert first[..0] == [];
      NetOfRecorded(suggestions[1..], currency, user);
      NetOfAppend(first, Recorded(suggestions[1..], currency), currency, user);
    }
  }

  function Balance(expenses: seq<Expense>, settlements: seq<Settlement>, currency: string, user: string): int {
    Get(NetBalances(expenses, settlements, currency), user)
  }

  lemma PlanOf(b: seq<Share>, user: string)
    requires DistinctUsers(b)
    ensures var p := Suggested(b);
            && Get(b, user) == Received(p.suggestions, user) - Sent(p.suggestions, user)
                               + HeldBy(p.creditors, user) - HeldBy(p.debtors, user)
            && (p.creditors == [] || p.debtors == []) && Positive(p.creditors) && Positive(p.debtors)
            && Total(p.creditors) - Total(p.debtors) == Total(b)
  {
    QueuesOf(b, user);
    SettleConserves(Creditors(b), Debtors(b), user);
  }

  /** Recording the suggestions leaves each member exactly what the loop left in the queues. */
  lemma AfterPaying(expenses: seq<Expense>, settlements: seq<Settlement>, currency: string, user: string)
    ensures var p := Suggested(NetBalances(expenses, settlements, currency));
            (Balance(expenses, settlements + Recorded(p.suggestions, currency), currency, user)
            == HeldBy(p.creditors, user) - HeldBy(p.debtors, user))
  {
    var b := NetBalances(expenses, settlements, currency);
    BalanceIsMemberNet(expenses, settlements, currency, user);
    PlanOf(b, user);
    var p := Suggested(b);
    var paid := Recorded(p.suggestions, currency);
    NetOfRecorded(p.suggestions, currency, user);
    NetOfAppend(settlements, paid, currency, user);
    BalanceIsMemberNet(expenses, settlements + paid, currency, user);
  }

  ghost predicate EveryoneIsEven(balances: seq<Share>) {
    forall user :: Get(balances, user) == 0
  }

  lemma {:induction false} EvenMeansZeroSum(b: seq<Share>)
    requires DistinctUsers(b) && EveryoneIsEven(b)
    ensures Total(b) == 0
  {
    if b != [] {
      assert Get(b, b[0].userId) == 0;
      forall user ensures Get(b[1..], user) == 0 {
        assert Get(b, user) == 0;
        if user == b[0].userId { GetOfLacking(b[1..], user); }
      }
      EvenMeansZeroSum(b[1..]);
    }
  }

  lemma NothingQueued(p: Plan)
    requires Positive(p.creditors) && Positive(p.debtors) && (p.creditors == [] || p.debtors == [])
    requires Total(p.creditors) == Total(p.debtors)
    ensures p.creditors == [] && p.debtors == []
  {
    HeldByNonNegative(p.creditors, "");
    HeldByNonNegative(p.debtors, "");
  }

  /** Paying what is suggested brings every member to zero exactly when the balances add up to zero. */
  lemma PayingSettlesEveryone(expenses: seq<Expense>, settlements: seq<Settlement>, currency: string)
    ensures var b := NetBalances(expenses, settlements, currency);
            var paid := Recorded(Suggested(b).suggestions, currency);
            EveryoneIsEven(NetBalances(expenses, settlements + paid, currency)) <==> Total(b) == 0
  {
    var b := NetBalances(expenses, settlements, currency);
    var p := Suggested(b);
    var paid := Recorded(p.suggestions, currency);
    var after := NetBalances(expenses, settlements + paid, currency);
    BalanceIsMemberNet(expenses, settlements, currency, "");
    BalanceIsMemberNet(expenses, settlements + paid, currency, "");
    if Total(b) == 0 {
      PlanOf(b, "");
      NothingQueued(p);
      forall user ensures Get(after, user) == 0 { AfterPaying(expenses, settlements, currency, user); }
    }
    if EveryoneIsEven(after) { EvenMeansZeroSum(after); }
  }

  /** At most one payment fewer than there are members with a non-zero balance, each positive,
      from someone who owes to someone who is owed. */
  ghost predicate SensibleFor(b: seq<Share>, suggestions: seq<Suggestion>) {
    && (forall s :: s in suggestions ==> s.amount > 0 && Get(b, s.from) < 0 < Get(b, s.to))
    && (suggestions == [] || |suggestions| < |Creditors(b)| + |Debtors(b)|)
  }

  lemma SuggestionsOf(b: seq<Share>)
    requires DistinctUsers(b)
    ensures SensibleFor(b, Suggested(b).suggestions)
  {
    QueuesOf(b, "");
    var suggestions := Suggested(b).suggestions;
    SuggestionsAreSensible(Creditors(b), Debtors(b));
    forall s | s in suggestions ensures Get(b, s.from) < 0 < Get(b, s.to) {
      QueuesOf(b, s.from);
      QueuesOf(b, s.to);
    }
  }

  lemma SuggestionsLaws(expenses: seq<Expense>, settlements: seq<Settlement>, currency: string)
    ensures var b := NetBalances(expenses, settlements, currency); SensibleFor(b, Suggested(b).suggestions)
  {
    BalanceIsMemberNet(expenses, settlements, currency, "");
    SuggestionsOf(NetBalances(expenses, settlements, currency));
  }
}
