/** How far the suggestions of `suggestSettlements` are from the fewest payments, which the comment on
    it promises: apps/api/src/domain/split/split.ts, lines 105-132. */
module Fewest {
  import opened Sorting
  import opened Split

  // ---------------------------------------------------------------- how few payments would do

  /** Payments after which nobody owes anything. */
  ghost predicate Settles(plan: seq<Suggestion>, b: seq<Share>) {
    && (forall s :: s in plan ==> s.amount > 0)
    && (forall user :: Get(b, user) == Received(plan, user) - Sent(plan, user))
  }

  function Payers(plan: seq<Suggestion>): (r: set<string>)
    ensures |r| <= |plan|
  {
    if plan == [] then {} else {plan[0].from} + Payers(plan[1..])
  }

  function Payees(plan: seq<Suggestion>): (r: set<string>)
    ensures |r| <= |plan|
  {
    if plan == [] then {} else {plan[0].to} + Payees(plan[1..])
  }

  lemma {:induction false} PaymentsAdd(plan: seq<Suggestion>, user: string)
    requires forall s :: s in plan ==> s.amount > 0
    ensures Sent(plan, user) >= 0 && (user !in Payers(plan) ==> Sent(plan, user) == 0)
    ensures Received(plan, user) >= 0 && (user !in Payees(plan) ==> Received(plan, user) == 0)
  {
    if plan != [] {
      assert plan[0] in plan && forall s :: s in plan[1..] ==> s in plan;
      PaymentsAdd(plan[1..], user);
    }
  }

  function Names(shares: seq<Share>): set<string> {
    if shares == [] then {} else {shares[0].userId} + Names(shares[1..])
  }

  lemma {:induction false} DebtorNames(b: seq<Share>)
    requires DistinctUsers(b)
    ensures |Names(Debtors(b))| == |Debtors(b)| && forall u :: u in Names(Debtors(b)) ==> Get(b, u) < 0
  {
    if b != [] {
      DebtorNames(b[1..]);
      GetOfLacking(b[1..], b[0].userId);
      if b[0].amount < 0 {
        assert Debtors(b)[1..] == Debtors(b[1..]);
      } else {
        assert Debtors(b) == Debtors(b[1..]);
      }
    }
  }

  lemma {:induction false} CreditorNames(b: seq<Share>)
    requires DistinctUsers(b)
    ensures |Names(Creditors(b))| == |Creditors(b)| && forall u :: u in Names(Creditors(b)) ==> Get(b, u) > 0
  {
    if b != [] {
      CreditorNames(b[1..]);
      GetOfLacking(b[1..], b[0].userId);
      if b[0].amount > 0 {
        assert Creditors(b)[1..] == Creditors(b[1..]);
      } else {
        assert Creditors(b) == Creditors(b[1..]);
      }
    }
  }

  lemma SubsetSize(a: set<string>, b: set<string>)
    requires a <= b
    ensures |a| <= |b|
  {
    assert b == a + (b - a);
    assert |b| == |a| + |b - a|;
  }

  // ---------------------------------------------------------------- groups that balance on their own

  /** What the members of a group are owed, less what they owe. */
  function Part(b: seq<Share>, group: set<string>): int {
    if b == [] then 0 else (if b[0].userId in group then b[0].amount else 0) + Part(b[1..], group)
  }

  /** The members with a balance other than zero. */
  function Involved(b: seq<Share>): set<string> {
    Names(Creditors(b)) + Names(Debtors(b))
  }

  ghost predicate Disjoint(groups: seq<set<string>>) {
    forall i, j :: 0 <= i < j < |groups| ==> groups[i] !! groups[j]
  }

  function Union(groups: seq<set<string>>): set<string> {
    if groups == [] then {} else Union(groups[..|groups| - 1]) + groups[|groups| - 1]
  }

  /** A group of involved members whose balances add up to zero. */
  ghost predicate Balances(b: seq<Share>, group: set<string>) {
    group != {} && group <= Involved(b) && Part(b, group) == 0
  }

  /** The involved members divided into such groups. */
  ghost predicate Divides(groups: seq<set<string>>, b: seq<Share>) {
    && Disjoint(groups) && Union(groups) == Involved(b)
    && forall i :: 0 <= i < |groups| ==> Balances(b, groups[i])
  }

  lemma {:induction false} InvolvedAre(b: seq<Share>)
    requires DistinctUsers(b)
    ensures |Involved(b)| == |Creditors(b)| + |Debtors(b)|
    ensures forall u :: u in Involved(b) <==> Get(b, u) != 0
  {
    DebtorNames(b);
    CreditorNames(b);
    assert Names(Creditors(b)) !! Names(Debtors(b));
    forall u | Get(b, u) != 0 ensures u in Involved(b) { NamedBySign(b, u); }
  }

  lemma {:induction false} NamedBySign(b: seq<Share>, user: string)
    ensures Get(b, user) > 0 ==> user in Names(Creditors(b))
    ensures Get(b, user) < 0 ==> user in Names(Debtors(b))
  {
    if b != [] {
      NamedBySign(b[1..], user);
      NamesCons(if b[0].amount > 0 then [b[0]] else [], Creditors(b[1..]));
      NamesCons(if b[0].amount < 0 then [Share(b[0].userId, -b[0].amount)] else [], Debtors(b[1..]));
    }
  }

  lemma NamesCons(first: seq<Share>, rest: seq<Share>)
    requires |first| <= 1
    ensures Names(first + rest) == (if first == [] then {} else {first[0].userId}) + Names(rest)
  {
    if first == [] { assert first + rest == rest; } else { assert (first + rest)[1..] == rest; }
  }

  // ---------------------------------------------------------------- payments leave groups

  /** The entries of the members that `tag` puts under `l`, added up. */
  function Under(b: seq<Share>, tag: string -> string, l: string): int {
    if b == [] then 0 else (if tag(b[0].userId) == l then b[0].amount else 0) + Under(b[1..], tag, l)
  }

  lemma {:induction false} UnderBump(b: seq<Share>, user: string, delta: int, tag: string -> string, l: string)
    ensures Under(Bump(b, user, delta), tag, l) == Under(b, tag, l) + (if tag(user) == l then delta else 0)
  {
    if b != [] && b[0].userId != user { UnderBump(b[1..], user, delta, tag, l); }
  }

  /** No payment crosses from one tag to another. */
  ghost predicate Closes(tag: string -> string, plan: seq<Suggestion>) {
    forall s :: s in plan ==> tag(s.from) == tag(s.to)
  }

  /** The balances after one payment. */
  function Paid(b: seq<Share>, s: Suggestion): seq<Share> {
    Bump(Bump(b, s.from, s.amount), s.to, -s.amount)
  }

  lemma PaidSettles(b: seq<Share>, plan: seq<Suggestion>)
    requires DistinctUsers(b) && plan != [] && Settles(plan, b)
    ensures DistinctUsers(Paid(b, plan[0])) && Settles(plan[1..], Paid(b, plan[0]))
  {
    var s := plan[0];
    BumpDistinct(b, s.from, s.amount);
    BumpDistinct(Bump(b, s.from, s.amount), s.to, -s.amount);
    forall user ensures Get(Paid(b, s), user) == Received(plan[1..], user) - Sent(plan[1..], user) {
      BumpLaws(b, s.from, s.amount, user);
      BumpLaws(Bump(b, s.from, s.amount), s.to, -s.amount, user);
    }
  }

  lemma {:induction false} EvenUnder(b: seq<Share>, tag: string -> string, l: string)
    requires DistinctUsers(b) && EveryoneIsEven(b)
    ensures Under(b, tag, l) == 0
  {
    if b != [] {
      assert Get(b, b[0].userId) == 0;
      forall user ensures Get(b[1..], user) == 0 {
        assert Get(b, user) == 0;
        if user == b[0].userId { GetOfLacking(b[1..], user); }
      }
      EvenUnder(b[1..], tag, l);
    }
  }

  /** So the members under one tag balance on their own. */
  lemma {:induction false} LabelsBalance(b: seq<Share>, plan: seq<Suggestion>, tag: string -> string, l: string)
    requires DistinctUsers(b) && Settles(plan, b) && Closes(tag, plan)
    ensures Under(b, tag, l) == 0
    decreases |plan|
  {
    if plan == [] {
      forall user ensures Get(b, user) == 0 { assert Get(b, user) == Received(plan, user) - Sent(plan, user); }
      EvenUnder(b, tag, l);
    } else {
      var s := plan[0];
      assert s in plan && forall t :: t in plan[1..] ==> t in plan;
      PaidSettles(b, plan);
      LabelsBalance(Paid(b, s), plan[1..], tag, l);
      UnderBump(b, s.from, s.amount, tag, l);
      UnderBump(Bump(b, s.from, s.amount), s.to, -s.amount, tag, l);
    }
  }

  function Labels(users: set<string>, tag: string -> string): set<string> {
    set u | u in users :: tag(u)
  }

  function Renamed(tag: string -> string, a: string, c: string): string -> string {
    u => if tag(u) == a then c else tag(u)
  }

  /** Each payment joins at most two labels. */
  lemma {:induction false} LabelsOf(users: set<string>, plan: seq<Suggestion>) returns (tag: string -> string)
    ensures Closes(tag, plan) && |Labels(users, tag)| >= |users| - |plan|
  {
    if plan == [] {
      tag := u => u;
      assert Labels(users, tag) == users by {
        forall u | u in users ensures u in Labels(users, tag) { assert tag(u) == u; }
      }
    } else {
      var before := LabelsOf(users, plan[1..]);
      var a, c := before(plan[0].from), before(plan[0].to);
      tag := Renamed(before, a, c);
      forall s | s in plan ensures tag(s.from) == tag(s.to) {
        if s != plan[0] { assert s in plan[1..]; }
      }
      RenamingLosesOne(users, before, a, c);
    }
  }

  lemma RenamingLosesOne(users: set<string>, tag: string -> string, a: string, c: string)
    ensures |Labels(users, Renamed(tag, a, c))| >= |Labels(users, tag)| - 1
  {
    var all, after := Labels(users, tag), Labels(users, Renamed(tag, a, c));
    forall l | l in all - {a} ensures l in after {
      var u :| u in users && tag(u) == l;
      assert Renamed(tag, a, c)(u) == l;
    }
    SubsetSize(all - {a}, after);
  }

  // ---------------------------------------------------------------- from payments to groups

  function Class(users: set<string>, tag: string -> string, l: string): set<string> {
    set u | u in users && tag(u) == l
  }

  function Classes(users: set<string>, tag: string -> string, labels: seq<string>): seq<set<string>> {
    seq(|labels|, i requires 0 <= i < |labels| => Class(users, tag, labels[i]))
  }

  lemma {:induction false} Listing(labels: set<string>) returns (list: seq<string>)
    ensures |list| == |labels| && Distinct(list) && forall l :: l in list <==> l in labels
  {
    if labels == {} {
      list := [];
    } else {
      var l :| l in labels;
      var rest := Listing(labels - {l});
      list := rest + [l];
    }
  }

  lemma {:induction false} UnionHas(groups: seq<set<string>>, user: string)
    ensures user in Union(groups) <==> exists i :: 0 <= i < |groups| && user in groups[i]
  {
    if groups != [] { UnionHas(groups[..|groups| - 1], user); }
  }

  lemma {:induction false} PartOfClass(b: seq<Share>, all: seq<Share>, tag: string -> string, l: string)
    requires forall s :: s in b ==> s.userId in Involved(all) || s.amount == 0
    ensures Part(b, Class(Involved(all), tag, l)) == Under(b, tag, l)
  {
    if b != [] {
      assert b[0] in b && forall s :: s in b[1..] ==> s in b;
      PartOfClass(b[1..], all, tag, l);
    }
  }

  lemma {:induction false} GetOfEntry(b: seq<Share>, s: Share)
    requires DistinctUsers(b) && s in b
    ensures Get(b, s.userId) == s.amount
  {
    if b[0] != s {
      var i :| 0 <= i < |b| && b[i] == s;
      assert b[0].userId != b[i].userId && s in b[1..];
      GetOfEntry(b[1..], s);
    }
  }

  /** Whatever payments bring everyone to zero, the members fall apart into groups that balance, one
      group fewer at most with every payment. */
  lemma GroupsOf(b: seq<Share>, plan: seq<Suggestion>) returns (groups: seq<set<string>>)
    requires DistinctUsers(b) && Settles(plan, b)
    ensures Divides(groups, b) && |groups| >= |Involved(b)| - |plan|
  {
    var users := Involved(b);
    var tag := LabelsOf(users, plan);
    var labels := Listing(Labels(users, tag));
    groups := Classes(users, tag, labels);
    InvolvedAre(b);
    forall i | 0 <= i < |groups| ensures Balances(b, groups[i]) {
      assert labels[i] in Labels(users, tag);
      var u :| u in users && tag(u) == labels[i];
      assert u in groups[i];
      forall s | s in b ensures s.userId in users || s.amount == 0 { GetOfEntry(b, s); }
      PartOfClass(b, b, tag, labels[i]);
      LabelsBalance(b, plan, tag, labels[i]);
    }
    forall u ensures u in Union(groups) <==> u in users {
      UnionHas(groups, u);
      if u in users {
        assert tag(u) in Labels(users, tag);
        var i :| 0 <= i < |labels| && labels[i] == tag(u);
        assert u in groups[i];
      }
    }
  }

  // ---------------------------------------------------------------- from groups to payments

  /** The entries of a group. */
  function Only(b: seq<Share>, group: set<string>): seq<Share> {
    if b == [] then [] else (if b[0].userId in group then [b[0]] else []) + Only(b[1..], group)
  }

  lemma {:induction false} OnlyLaws(b: seq<Share>, group: set<string>, user: string)
    requires DistinctUsers(b)
    ensures Get(Only(b, group), user) == if user in group then Get(b, user) else 0
    ensures Total(Only(b, group)) == Part(b, group)
  {
    if b != [] {
      OnlyLaws(b[1..], group, user);
      GetOfLacking(b[1..], b[0].userId);
      if b[0].userId in group {
        assert Only(b, group)[1..] == Only(b[1..], group);
      } else {
        assert Only(b, group) == Only(b[1..], group);
      }
    }
  }

  lemma {:induction false} OnlyDistinct(b: seq<Share>, group: set<string>)
    requires DistinctUsers(b)
    ensures DistinctUsers(Only(b, group)) && forall s :: s in Only(b, group) ==> s in b
  {
    if b != [] {
      OnlyDistinct(b[1..], group);
      var rest := Only(b[1..], group);
      forall j | 0 <= j < |rest| ensures rest[j].userId != b[0].userId {
        assert rest[j] in rest;
        var k :| 0 <= k < |b[1..]| && b[1..][k] == rest[j];
        assert b[k + 1] == rest[j];
      }
    }
  }

  lemma OnlyInvolves(b: seq<Share>, group: set<string>)
    requires DistinctUsers(b) && group <= Involved(b)
    ensures Involved(Only(b, group)) == group
  {
    OnlyDistinct(b, group);
    InvolvedAre(b);
    InvolvedAre(Only(b, group));
    forall u ensures u in Involved(Only(b, group)) <==> u in group { OnlyLaws(b, group, u); }
  }

  lemma GreedySettles(b: seq<Share>)
    requires DistinctUsers(b) && Total(b) == 0
    ensures Settles(Suggested(b).suggestions, b)
  {
    SuggestionsOf(b);
    PlanOf(b, "");
    NothingQueued(Suggested(b));
    var plan := Suggested(b).suggestions;
    forall user ensures Get(b, user) == Received(plan, user) - Sent(plan, user) { PlanOf(b, user); }
  }

  lemma GroupPlan(b: seq<Share>, group: set<string>) returns (plan: seq<Suggestion>)
    requires DistinctUsers(b) && Balances(b, group)
    ensures Settles(plan, Only(b, group)) && |plan| < |group|
  {
    var part := Only(b, group);
    OnlyDistinct(b, group);
    OnlyLaws(b, group, "");
    OnlyInvolves(b, group);
    InvolvedAre(part);
    GreedySettles(part);
    SuggestionsOf(part);
    plan := Suggested(part).suggestions;
  }

  lemma {:induction false} PaymentsAppend(a: seq<Suggestion>, c: seq<Suggestion>, user: string)
    ensures Sent(a + c, user) == Sent(a, user) + Sent(c, user)
    ensures Received(a + c, user) == Received(a, user) + Received(c, user)
  {
    if a == [] {
      assert a + c == c;
    } else {
      assert (a + c)[1..] == a[1..] + c;
      PaymentsAppend(a[1..], c, user);
    }
  }

  lemma DisjointSize(a: set<string>, c: set<string>)
    requires a !! c
    ensures |a + c| == |a| + |c|
  {}

  /** The groups one after the other, each with its own payments. */
  lemma {:induction false} PlanOfGroups(b: seq<Share>, groups: seq<set<string>>) returns (plan: seq<Suggestion>)
    requires DistinctUsers(b) && Disjoint(groups) && forall i :: 0 <= i < |groups| ==> Balances(b, groups[i])
    ensures Settles(plan, Only(b, Union(groups))) && |plan| + |groups| <= |Union(groups)|
  {
    if groups == [] {
      plan := [];
      forall user ensures Get(Only(b, {}), user) == 0 { OnlyLaws(b, {}, user); }
    } else {
      var n := |groups| - 1;
      var init, last := groups[..n], groups[n];
      var before := PlanOfGroups(b, init);
      var more := GroupPlan(b, last);
      plan := before + more;
      forall u ensures u !in Union(init) || u !in last { UnionHas(init, u); }
      DisjointSize(Union(init), last);
      forall user ensures Get(Only(b, Union(groups)), user) == Received(plan, user) - Sent(plan, user) {
        PaymentsAppend(before, more, user);
        OnlyLaws(b, Union(init), user);
        OnlyLaws(b, last, user);
        OnlyLaws(b, Union(groups), user);
      }
    }
  }

  lemma PlanFor(b: seq<Share>, groups: seq<set<string>>) returns (plan: seq<Suggestion>)
    requires DistinctUsers(b) && Divides(groups, b)
    ensures Settles(plan, b) && |plan| <= |Involved(b)| - |groups|
  {
    plan := PlanOfGroups(b, groups);
    InvolvedAre(b);
    forall user ensures Get(b, user) == Received(plan, user) - Sent(plan, user) {
      OnlyLaws(b, Union(groups), user);
    }
  }

  /** The fewest payments: `n` will do if and only if the involved members can be divided into so many
      groups that balance on their own that `n` and the groups add up to at least the members. */
  lemma FewestPayments(b: seq<Share>, n: nat)
    requires DistinctUsers(b)
    ensures (exists plan :: Settles(plan, b) && |plan| <= n)
       <==> (exists groups :: Divides(groups, b) && |groups| + n >= |Involved(b)|)
  {
    if plan :| Settles(plan, b) && |plan| <= n {
      var groups := GroupsOf(b, plan);
    }
    if groups :| Divides(groups, b) && |groups| + n >= |Involved(b)| {
      var plan := PlanFor(b, groups);
    }
  }

  // ---------------------------------------------------------------- when the suggestions are the fewest

  /** The rounds of the greedy loop that empty both queue heads at once. */
  function Ties(creditors: seq<Share>, debtors: seq<Share>): nat
    decreases |creditors| + |debtors|
  {
    if creditors == [] || debtors == [] then 0
    else
      var cs, ds := LargestFirst(creditors), LargestFirst(debtors);
      var amount := Smaller(cs[0].amount, ds[0].amount);
      (if cs[0].amount == ds[0].amount then 1 else 0) + Ties(Reduced(cs, amount), Reduced(ds, amount))
  }

  lemma {:induction false} EveryRoundEmpties(creditors: seq<Share>, debtors: seq<Share>)
    ensures var p := Settle(creditors, debtors);
            |p.suggestions| + Ties(creditors, debtors) + |p.creditors| + |p.debtors| == |creditors| + |debtors|
    decreases |creditors| + |debtors|
  {
    if creditors != [] && debtors != [] {
      var cs, ds := LargestFirst(creditors), LargestFirst(debtors);
      var amount := Smaller(cs[0].amount, ds[0].amount);
      EveryRoundEmpties(Reduced(cs, amount), Reduced(ds, amount));
    }
  }

  function TiesOf(b: seq<Share>): nat {
    Ties(Creditors(b), Debtors(b))
  }

  lemma SuggestionsAndTies(b: seq<Share>)
    requires DistinctUsers(b) && Total(b) == 0
    ensures |Suggested(b).suggestions| + TiesOf(b) == |Involved(b)|
  {
    InvolvedAre(b);
    PlanOf(b, "");
    NothingQueued(Suggested(b));
    EveryRoundEmpties(Creditors(b), Debtors(b));
  }

  lemma {:induction false} PaidTotal(b: seq<Share>, plan: seq<Suggestion>)
    requires DistinctUsers(b) && Settles(plan, b)
    ensures Total(b) == 0
    decreases |plan|
  {
    if plan == [] {
      forall user ensures Get(b, user) == 0 { assert Get(b, user) == Received(plan, user) - Sent(plan, user); }
      EvenMeansZeroSum(b);
    } else {
      var s := plan[0];
      PaidSettles(b, plan);
      PaidTotal(Paid(b, s), plan[1..]);
      BumpLaws(b, s.from, s.amount, "");
      BumpLaws(Bump(b, s.from, s.amount), s.to, -s.amount, "");
    }
  }

  /** No payments that bring everyone to zero are fewer than the suggestions. */
  ghost predicate Fewest(b: seq<Share>) {
    forall plan :: Settles(plan, b) ==> |Suggested(b).suggestions| <= |plan|
  }

  /** The suggestions are the fewest if and only if the involved members cannot be divided into more
      groups that balance on their own than the greedy loop has rounds that empty both heads. */
  lemma FewestExactly(b: seq<Share>)
    requires DistinctUsers(b)
    ensures Fewest(b) <==> forall groups :: Divides(groups, b) ==> |groups| <= TiesOf(b)
  {
    if Fewest(b) {
      forall groups | Divides(groups, b) ensures |groups| <= TiesOf(b) {
        var plan := PlanFor(b, groups);
        PaidTotal(b, plan);
        SuggestionsAndTies(b);
      }
    }
    if forall groups :: Divides(groups, b) ==> |groups| <= TiesOf(b) {
      forall plan | Settles(plan, b) ensures |Suggested(b).suggestions| <= |plan| {
        var groups := GroupsOf(b, plan);
        PaidTotal(b, plan);
        SuggestionsAndTies(b);
      }
    }
  }

  /** No involved members balance on their own but all of them together. */
  ghost predicate Indivisible(b: seq<Share>) {
    forall group :: Balances(b, group) ==> group == Involved(b)
  }

  lemma TwoOverlap(b: seq<Share>, first: set<string>, second: set<string>)
    requires Indivisible(b) && Balances(b, first) && Balances(b, second)
    ensures !(first !! second)
  {
    assert first == second;
  }

  lemma OneGroup(b: seq<Share>, groups: seq<set<string>>)
    requires Indivisible(b) && Divides(groups, b)
    ensures |groups| <= 1
  {
    if |groups| >= 2 { TwoOverlap(b, groups[0], groups[1]); }
  }

  /** Then the suggestions are the fewest. */
  lemma IndivisibleIsFewest(b: seq<Share>)
    requires DistinctUsers(b) && Indivisible(b)
    ensures Fewest(b)
  {
    forall groups | Divides(groups, b) ensures |groups| <= TiesOf(b) {
      OneGroup(b, groups);
      var plan := PlanFor(b, groups);
      PaidTotal(b, plan);
      SuggestionsAndTies(b);
      SuggestionsOf(b);
      InvolvedAre(b);
    }
    FewestExactly(b);
  }

  // ---------------------------------------------------------------- how far off they can be

  /** Everyone who owes has to pay, and everyone who is owed has to be paid. */
  lemma EveryPlanIsAsLong(b: seq<Share>, plan: seq<Suggestion>)
    requires DistinctUsers(b) && Settles(plan, b)
    ensures |Debtors(b)| <= |plan| && |Creditors(b)| <= |plan|
  {
    DebtorNames(b);
    CreditorNames(b);
    forall u | u in Names(Debtors(b)) ensures u in Payers(plan) { PaymentsAdd(plan, u); }
    forall u | u in Names(Creditors(b)) ensures u in Payees(plan) { PaymentsAdd(plan, u); }
    SubsetSize(Names(Debtors(b)), Payers(plan));
    SubsetSize(Names(Creditors(b)), Payees(plan));
  }

  /** So the greedy suggestions are fewer than twice as many as any other payments that do. */
  lemma LessThanTwiceTheFewest(b: seq<Share>, plan: seq<Suggestion>)
    requires DistinctUsers(b) && Settles(plan, b)
    ensures var suggestions := Suggested(b).suggestions; suggestions == [] || |suggestions| < 2 * |plan|
  {
    EveryPlanIsAsLong(b, plan);
    SuggestionsOf(b);
  }

  // ---------------------------------------------------------------- five members for whom they are not

  lemma SortOne(x: Share)
    ensures LargestFirst([x]) == [x]
  {
    assert [x][1..] == [];
    assert SortBy(Larger, [x][1..]) == [];
  }

  lemma SortTwo(x: Share, y: Share)
    ensures LargestFirst([x, y]) == if x.amount >= y.amount then [x, y] else [y, x]
  {
    SortOne(y);
    assert [x, y][1..] == [y];
    assert [y][1..] == [] && Insert(Larger, x, []) == [x];
  }

  lemma SortThree(x: Share, y: Share, z: Share)
    requires x.amount >= y.amount >= z.amount
    ensures LargestFirst([x, y, z]) == [x, y, z]
  {
    SortTwo(y, z);
    assert [x, y, z][1..] == [y, z];
  }

  /** What three debtors and two creditors of these amounts are told to pay. */
  lemma FourSuggestions(a: string, b: string, c: string, d: string, e: string)
    ensures Settle([Share(a, 5), Share(b, 4)], [Share(c, 4), Share(d, 3), Share(e, 2)]).suggestions
         == [Suggestion(c, a, 4), Suggestion(d, b, 3), Suggestion(e, b, 1), Suggestion(e, a, 1)]
  {
    SortTwo(Share(a, 5), Share(b, 4));
    SortThree(Share(c, 4), Share(d, 3), Share(e, 2));
    assert Reduced([Share(a, 5), Share(b, 4)], 4) == [Share(a, 1), Share(b, 4)];
    assert Reduced([Share(c, 4), Share(d, 3), Share(e, 2)], 4) == [Share(d, 3), Share(e, 2)];
    SortTwo(Share(a, 1), Share(b, 4));
    SortTwo(Share(d, 3), Share(e, 2));
    assert Reduced([Share(b, 4), Share(a, 1)], 3) == [Share(b, 1), Share(a, 1)];
    assert Reduced([Share(d, 3), Share(e, 2)], 3) == [Share(e, 2)];
    SortTwo(Share(b, 1), Share(a, 1));
    SortOne(Share(e, 2));
    assert Reduced([Share(b, 1), Share(a, 1)], 1) == [Share(a, 1)];
    assert Reduced([Share(e, 2)], 1) == [Share(e, 1)];
    SortOne(Share(a, 1));
    SortOne(Share(e, 1));
    assert Reduced([Share(a, 1)], 1) == [] && Reduced([Share(e, 1)], 1) == [];
    assert Settle([Share(a, 1)], [Share(e, 1)]).suggestions == [Suggestion(e, a, 1)];
    assert Settle([Share(b, 1), Share(a, 1)], [Share(e, 2)]).suggestions == [Suggestion(e, b, 1), Suggestion(e, a, 1)];
    assert Settle([Share(a, 1), Share(b, 4)], [Share(d, 3), Share(e, 2)]).suggestions
        == [Suggestion(d, b, 3), Suggestion(e, b, 1), Suggestion(e, a, 1)];
  }

  function Five(a: string, b: string, c: string, d: string, e: string): seq<Share> {
    [Share(a, 5), Share(b, 4), Share(c, -4), Share(d, -3), Share(e, -2)]
  }

  lemma FiveQueues(a: string, b: string, c: string, d: string, e: string)
    ensures Creditors(Five(a, b, c, d, e)) == [Share(a, 5), Share(b, 4)]
    ensures Debtors(Five(a, b, c, d, e)) == [Share(c, 4), Share(d, 3), Share(e, 2)]
  {
    var last, owing := [Share(e, -2)], [Share(d, -3), Share(e, -2)];
    assert last[1..] == [] && Debtors(last) == [Share(e, 2)] && Creditors(last) == [];
    assert owing[1..] == last && Debtors(owing) == [Share(d, 3), Share(e, 2)] && Creditors(owing) == [];
    var three := [Share(c, -4)] + owing;
    assert three[1..] == owing && Debtors(three) == [Share(c, 4), Share(d, 3), Share(e, 2)] && Creditors(three) == [];
    var four := [Share(b, 4)] + three;
    assert four[1..] == three && Debtors(four) == Debtors(three) && Creditors(four) == [Share(b, 4)];
    assert Five(a, b, c, d, e)[1..] == four;
  }

  lemma GetFirst(x: Share, rest: seq<Share>, user: string)
    ensures Get([x] + rest, user) == if x.userId == user then x.amount else Get(rest, user)
  {
    assert ([x] + rest)[1..] == rest;
  }

  lemma PaidFirst(x: Suggestion, rest: seq<Suggestion>, user: string)
    ensures Sent([x] + rest, user) == (if x.from == user then x.amount else 0) + Sent(rest, user)
    ensures Received([x] + rest, user) == (if x.to == user then x.amount else 0) + Received(rest, user)
  {
    assert ([x] + rest)[1..] == rest;
  }

  lemma GetOfFive(a: string, b: string, c: string, d: string, e: string, user: string)
    ensures Get(Five(a, b, c, d, e), user)
         == if user == a then 5 else if user == b then 4 else if user == c then -4 else if user == d then -3
            else if user == e then -2 else 0
  {
    var five := Five(a, b, c, d, e);
    assert five == [five[0]] + ([five[1]] + ([five[2]] + ([five[3]] + ([five[4]] + []))));
    GetFirst(five[4], [], user);
    GetFirst(five[3], [five[4]] + [], user);
    GetFirst(five[2], [five[3]] + ([five[4]] + []), user);
    GetFirst(five[1], [five[2]] + ([five[3]] + ([five[4]] + [])), user);
    GetFirst(five[0], [five[1]] + ([five[2]] + ([five[3]] + ([five[4]] + []))), user);
  }

  function Three(a: string, b: string, c: string, d: string, e: string): seq<Suggestion> {
    [Suggestion(c, b, 4), Suggestion(d, a, 3), Suggestion(e, a, 2)]
  }

  lemma ThreePaymentsDo(a: string, b: string, c: string, d: string, e: string)
    requires DistinctUsers(Five(a, b, c, d, e))
    ensures Settles(Three(a, b, c, d, e), Five(a, b, c, d, e))
  {
    var plan, five := Three(a, b, c, d, e), Five(a, b, c, d, e);
    assert plan == [plan[0]] + ([plan[1]] + ([plan[2]] + []));
    assert five[0].userId == a && five[1].userId == b && five[2].userId == c && five[3].userId == d
           && five[4].userId == e;
    forall user ensures Get(five, user) == Received(plan, user) - Sent(plan, user) {
      GetOfFive(a, b, c, d, e, user);
      PaidFirst(plan[2], [], user);
      PaidFirst(plan[1], [plan[2]] + [], user);
      PaidFirst(plan[0], [plan[1]] + ([plan[2]] + []), user);
    }
  }

  /** The greedy suggestions are not the fewest: five members for whom they are four and three do. */
  lemma GreedyIsNotTheFewest(a: string, b: string, c: string, d: string, e: string)
    requires DistinctUsers(Five(a, b, c, d, e))
    ensures |Suggested(Five(a, b, c, d, e)).suggestions| == 4
    ensures exists plan :: Settles(plan, Five(a, b, c, d, e)) && |plan| == 3
  {
    FiveQueues(a, b, c, d, e);
    FourSuggestions(a, b, c, d, e);
    ThreePaymentsDo(a, b, c, d, e);
    assert |Three(a, b, c, d, e)| == 3;
  }
}
