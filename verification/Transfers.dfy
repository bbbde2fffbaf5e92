/** Pairing transfers between a user's own accounts:
    apps/api/src/domain/transactions/internal-transfers.ts. */
module Transfers {
  import opened Common
  import opened Sorting

  /** `day` is the day number of `postedAt`; ISO dates compare as their day numbers do
      (`Calendar.IsoOrder`, `Calendar.Chronological`). */
  datatype Transaction = Transaction(
    id: string, accountId: string, day: int, amount: int, currency: string, pending: bool)

  datatype Pair = Pair(outflowId: string, inflowId: string, amount: int, currency: string, daysApart: nat)

  const DEFAULT_WINDOW_DAYS: int := 3

  function Gap(a: Transaction, b: Transaction): nat {
    Abs(a.day - b.day)
  }

  function ByDateThenId(le: (string, string) -> bool): (Transaction, Transaction) -> bool {
    (a: Transaction, b: Transaction) => if a.day == b.day then le(a.id, b.id) else a.day < b.day
  }

  /** Zero and pending rows are on neither side. */
  predicate On(t: Transaction, out: bool) {
    !t.pending && if out then t.amount < 0 else t.amount > 0
  }

  /** The outflows, or the inflows, in the order given. */
  function Side(txns: seq<Transaction>, out: bool): seq<Transaction> {
    if txns == [] then []
    else
      var init, last := Side(txns[..|txns| - 1], out), txns[|txns| - 1];
      if On(last, out) then init + [last] else init
  }

  /** The other side of the same movement. */
  predicate Eligible(o: Transaction, i: Transaction, window: int) {
    i.amount == Abs(o.amount) && i.currency == o.currency && i.accountId != o.accountId && Gap(o, i) <= window
  }

  predicate Free(o: Transaction, i: Transaction, window: int, claimed: set<string>) {
    i.id !in claimed && Eligible(o, i, window)
  }

  /** The first, among the free inflows, of those nearest in time. */
  function Nearest(o: Transaction, inflows: seq<Transaction>, window: int, claimed: set<string>): Option<Transaction> {
    if inflows == [] then None else
    var best, last := Nearest(o, inflows[..|inflows| - 1], window, claimed), inflows[|inflows| - 1];
    if Free(o, last, window, claimed) && (best.None? || Gap(o, last) < Gap(o, best.value)) then Some(last)
    else best
  }

  function PairOf(o: Transaction, i: Transaction): Pair {
    Pair(o.id, i.id, Abs(o.amount), o.currency, Gap(o, i))
  }

  /** Each outflow in turn takes its nearest free inflow. */
  function Match(outflows: seq<Transaction>, inflows: seq<Transaction>, window: int, claimed: set<string>): seq<Pair> {
    if outflows == [] then [] else
    var best := Nearest(outflows[0], inflows, window, claimed);
    if best.None? then Match(outflows[1..], inflows, window, claimed)
    else [PairOf(outflows[0], best.value)]
         + Match(outflows[1..], inflows, window, claimed + {best.value.id, outflows[0].id})
  }

  function Detected(txns: seq<Transaction>, window: int, le: (string, string) -> bool): seq<Pair> {
    Match(SortedSide(le, txns, true), SortedSide(le, txns, false), window, {})
  }

  // ---------------------------------------------------------------- the loops

  /** Once a same-day inflow is found, the rest cannot be nearer. */
  lemma {:induction false} SameDayIsFinal(o: Transaction, inflows: seq<Transaction>, k: nat, window: int,
                                          claimed: set<string>)
    requires k <= |inflows|
    requires var best := Nearest(o, inflows[..k], window, claimed); best.Some? && Gap(o, best.value) == 0
    ensures Nearest(o, inflows, window, claimed) == Nearest(o, inflows[..k], window, claimed)
  {
    if k == |inflows| {
      assert inflows[..k] == inflows;
    } else {
      var init := inflows[..|inflows| - 1];
      assert init[..k] == inflows[..k];
      SameDayIsFinal(o, init, k, window, claimed);
    }
  }

  method FindNearest(o: Transaction, inflows: seq<Transaction>, window: int, claimed: set<string>)
    returns (best: Option<Transaction>)
    ensures best == Nearest(o, inflows, window, claimed)
  {
    var amount := Abs(o.amount);
    best := None;
    for k := 0 to |inflows|
      invariant best == Nearest(o, inflows[..k], window, claimed)
    {
      assert inflows[..k + 1][..k] == inflows[..k];
      var inflow := inflows[k];
      if inflow.id in claimed { continue; }
      if inflow.amount != amount { continue; }
      if inflow.currency != o.currency { continue; }
      if inflow.accountId == o.accountId { continue; }
      var gap := Gap(o, inflow);
      if gap > window { continue; }
      if best.None? || gap < Gap(o, best.value) { best := Some(inflow); }
      if Gap(o, best.value) == 0 {
        SameDayIsFinal(o, inflows, k + 1, window, claimed);
        return;
      }
    }
    assert inflows[..|inflows|] == inflows;
  }

  method DetectInternalTransfers(txns: seq<Transaction>, windowDays: Option<int>, le: (string, string) -> bool)
    returns (pairs: seq<Pair>)
    ensures pairs == Detected(txns, if windowDays.Some? then windowDays.value else 3, le)
  {
    var window := if windowDays.Some? then windowDays.value else DEFAULT_WINDOW_DAYS;
    var outflows: seq<Transaction>, inflows: seq<Transaction> := [], [];
    for k := 0 to |txns|
      invariant outflows == Side(txns[..k], true) && inflows == Side(txns[..k], false)
    {
      assert txns[..k + 1][..k] == txns[..k];
      var txn := txns[k];
      if txn.pending { continue; }
      if txn.amount < 0 { outflows := outflows + [txn]; }
      else if txn.amount > 0 { inflows := inflows + [txn]; }
    }
    assert txns[..|txns|] == txns;
    outflows := SortBy(ByDateThenId(le), outflows);
    inflows := SortBy(ByDateThenId(le), inflows);
    var claimed: set<string> := {};
    pairs := [];
    for k := 0 to |outflows|
      invariant Match(outflows, inflows, window, {}) == pairs + Match(outflows[k..], inflows, window, claimed)
    {
      var outflow := outflows[k];
      assert outflows[k..][1..] == outflows[k + 1..];
      var best := FindNearest(outflow, inflows, window, claimed);
      if best.None? { continue; }
      claimed := claimed + {best.value.id, outflow.id};
      pairs := pairs + [PairOf(outflow, best.value)];
    }
  }

  method InternalTransferIds(pairs: seq<Pair>) returns (ids: set<string>)
    ensures ids == IdsOf(pairs)
  {
    ids := {};
    for k := 0 to |pairs|
      invariant ids == IdsOf(pairs[..k])
    {
      assert pairs[..k + 1] == pairs[..k] + [pairs[k]];
      ids := ids + {pairs[k].outflowId};
      ids := ids + {pairs[k].inflowId};
    }
    assert pairs[..|pairs|] == pairs;
  }

  function IdsOf(pairs: seq<Pair>): set<string> {
    (set p | p in pairs :: p.outflowId) + (set p | p in pairs :: p.inflowId)
  }

  // ---------------------------------------------------------------- what is matched

  ghost predicate DistinctIds(txns: seq<Transaction>) {
    forall i, j :: 0 <= i < j < |txns| ==> txns[i].id != txns[j].id
  }

  lemma {:induction false} NearestIsNearest(o: Transaction, inflows: seq<Transaction>, window: int,
                                            claimed: set<string>)
    ensures var best := Nearest(o, inflows, window, claimed);
      && (best.Some? ==> best.value in inflows && Free(o, best.value, window, claimed))
      && (forall i :: i in inflows && Free(o, i, window, claimed) ==>
            best.Some? && Gap(o, best.value) <= Gap(o, i))
  {
    if inflows != [] {
      NearestIsNearest(o, inflows[..|inflows| - 1], window, claimed);
    }
  }

  /** A pair joins an outflow and an inflow of the list that are eligible for each other. */
  ghost predicate Joins(p: Pair, outflows: seq<Transaction>, inflows: seq<Transaction>, window: int) {
    exists o, i :: o in outflows && i in inflows && Eligible(o, i, window) && p == PairOf(o, i)
  }

  /** Every pair is sound, and no id is used twice. */
  lemma {:induction false} MatchIsSound(outflows: seq<Transaction>, inflows: seq<Transaction>, window: int,
                                        claimed: set<string>)
    ensures var ps := Match(outflows, inflows, window, claimed);
      && (forall p :: p in ps ==> Joins(p, outflows, inflows, window) && p.inflowId !in claimed)
      && (forall i, j :: 0 <= i < j < |ps| ==> ps[i].inflowId != ps[j].inflowId && ps[i].outflowId != ps[j].inflowId)
  {
    if outflows != [] {
      var o, rest := outflows[0], outflows[1..];
      var best := Nearest(o, inflows, window, claimed);
      NearestIsNearest(o, inflows, window, claimed);
      MatchIsSound(rest, inflows, window, if best.None? then claimed else claimed + {best.value.id, o.id});
    }
  }

  lemma IdsOfCons(first: Pair, rest: seq<Pair>)
    ensures IdsOf([first] + rest) == {first.outflowId, first.inflowId} + IdsOf(rest)
  {
    assert first in [first] + rest && forall p :: p in rest ==> p in [first] + rest;
  }

  /** No outflow is left alone next to a free inflow. */
  lemma {:induction false} MatchIsMaximal(outflows: seq<Transaction>, inflows: seq<Transaction>, window: int,
                                          claimed: set<string>, o: Transaction, i: Transaction)
    requires o in outflows && i in inflows && Eligible(o, i, window) && i.id !in claimed
    ensures var ids := IdsOf(Match(outflows, inflows, window, claimed)); o.id in ids || i.id in ids
  {
    var first, rest := outflows[0], outflows[1..];
    var best := Nearest(first, inflows, window, claimed);
    NearestIsNearest(first, inflows, window, claimed);
    if best.None? {
      MatchIsMaximal(rest, inflows, window, claimed, o, i);
    } else {
      var claimed' := claimed + {best.value.id, first.id};
      IdsOfCons(PairOf(first, best.value), Match(rest, inflows, window, claimed'));
      if o.id != first.id && i.id !in claimed' { MatchIsMaximal(rest, inflows, window, claimed', o, i); }
    }
  }

  // ---------------------------------------------------------------- the whole detection

  lemma {:induction false} SideElements(txns: seq<Transaction>, out: bool, t: Transaction)
    ensures multiset(Side(txns, out))[t] == if On(t, out) then multiset(txns)[t] else 0
  {
    if txns != [] {
      var init, last := txns[..|txns| - 1], txns[|txns| - 1];
      SideElements(init, out, t);
      assert txns == init + [last];
    }
  }

  /** Distinct ids, in a form that permutations keep. */
  ghost predicate Identified(txns: seq<Transaction>) {
    && (forall a, b :: a in txns && b in txns && a.id == b.id ==> a == b)
    && (forall a :: a in txns ==> multiset(txns)[a] == 1)
  }

  lemma {:induction false} DistinctIdentified(txns: seq<Transaction>)
    requires DistinctIds(txns)
    ensures Identified(txns)
  {
    forall a | a in txns ensures multiset(txns)[a] == 1 {
      var i :| 0 <= i < |txns| && txns[i] == a;
      assert txns == txns[..i] + [txns[i]] + txns[i + 1..];
      assert a !in txns[..i] && a !in txns[i + 1..];
    }
  }

  lemma TwoOccurrences(txns: seq<Transaction>, i: nat, j: nat)
    requires i < j < |txns| && txns[i] == txns[j]
    ensures multiset(txns)[txns[i]] >= 2
  {
    assert txns == txns[..j] + txns[j..];
    assert txns[i] in txns[..j] && txns[j] in txns[j..];
  }

  lemma IdentifiedDistinct(txns: seq<Transaction>)
    requires Identified(txns)
    ensures DistinctIds(txns)
  {
    forall i, j | 0 <= i < j < |txns| ensures txns[i].id != txns[j].id {
      if txns[i] == txns[j] { TwoOccurrences(txns, i, j); }
    }
  }

  function SortedSide(le: (string, string) -> bool, txns: seq<Transaction>, out: bool): seq<Transaction> {
    SortBy(ByDateThenId(le), Side(txns, out))
  }

  lemma SideIdentified(txns: seq<Transaction>, out: bool)
    requires Identified(txns)
    ensures Identified(Side(txns, out)) && forall t :: t in Side(txns, out) <==> t in txns && On(t, out)
  {
    var side := Side(txns, out);
    forall t ensures t in side <==> t in txns && On(t, out)
             ensures t in side ==> multiset(side)[t] == 1
    {
      SideElements(txns, out, t);
      assert t in side <==> t in multiset(side);
      assert t in txns <==> t in multiset(txns);
    }
  }

  /** The two lists the matching runs on. */
  lemma SortedSides(txns: seq<Transaction>, le: (string, string) -> bool, out: bool)
    requires Identified(txns)
    ensures var s := SortedSide(le, txns, out);
            Identified(s) && forall t :: t in s <==> t in txns && On(t, out)
  {
    SideIdentified(txns, out);
    SortElements(ByDateThenId(le), Side(txns, out));
    SameElements(SortedSide(le, txns, out), Side(txns, out));
  }

  lemma OrdersTransactions(le: (string, string) -> bool, txns: seq<Transaction>)
    requires TotalOrder(le) && Identified(txns)
    ensures Orders(ByDateThenId(le), txns) && Antisymmetric(ByDateThenId(le), txns)
  {}

  lemma SideOrderIndependent(a: seq<Transaction>, b: seq<Transaction>, le: (string, string) -> bool, out: bool)
    requires multiset(a) == multiset(b) && Identified(a) && TotalOrder(le)
    ensures SortedSide(le, a, out) == SortedSide(le, b, out)
  {
    forall t ensures multiset(Side(a, out))[t] == multiset(Side(b, out))[t] {
      SideElements(a, out, t);
      SideElements(b, out, t);
    }
    assert multiset(Side(a, out)) == multiset(Side(b, out));
    SideIdentified(a, out);
    OrdersTransactions(le, Side(a, out));
    SortOfPermutation(ByDateThenId(le), Side(a, out), Side(b, out));
  }

  /** The result does not depend on the order the rows came in. */
  lemma OrderIndependent(a: seq<Transaction>, b: seq<Transaction>, window: int, le: (string, string) -> bool)
    requires multiset(a) == multiset(b) && DistinctIds(a) && TotalOrder(le)
    ensures Detected(a, window, le) == Detected(b, window, le)
  {
    DistinctIdentified(a);
    SideOrderIndependent(a, b, le, true);
    SideOrderIndependent(a, b, le, false);
  }

  ghost predicate HasId(txns: seq<Transaction>, id: string) {
    exists t :: t in txns && t.id == id
  }

  lemma HasIdCons(txns: seq<Transaction>, id: string)
    requires txns != [] && HasId(txns[1..], id)
    ensures HasId(txns, id)
  {
    var t :| t in txns[1..] && t.id == id;
    assert t in txns;
  }

  ghost predicate OutflowsDiffer(ps: seq<Pair>) {
    forall i, j :: 0 <= i < j < |ps| ==> ps[i].outflowId != ps[j].outflowId
  }

  ghost predicate OutflowsAmong(ps: seq<Pair>, outflows: seq<Transaction>) {
    forall p :: p in ps ==> HasId(outflows, p.outflowId)
  }

  lemma AmongCons(o: Transaction, rest: seq<Transaction>, ps: seq<Pair>)
    requires OutflowsAmong(ps, rest)
    ensures OutflowsAmong(ps, [o] + rest)
  {
    forall p | p in ps ensures HasId([o] + rest, p.outflowId) { HasIdCons([o] + rest, p.outflowId); }
  }

  lemma OnePairMore(o: Transaction, rest: seq<Transaction>, pair: Pair, more: seq<Pair>)
    requires DistinctIds([o] + rest) && pair.outflowId == o.id
    requires OutflowsDiffer(more) && OutflowsAmong(more, rest)
    ensures OutflowsDiffer([pair] + more) && OutflowsAmong([pair] + more, [o] + rest)
  {
    var all := [o] + rest;
    assert o in all;
    AmongCons(o, rest, more);
    forall p | p in more ensures p.outflowId != o.id {
      var t :| t in rest && t.id == p.outflowId;
      var k :| 0 <= k < |rest| && rest[k] == t;
      assert all[0].id != all[k + 1].id;
    }
    forall i, j | 0 <= i < j < |[pair] + more| ensures ([pair] + more)[i].outflowId != ([pair] + more)[j].outflowId {
      assert more[j - 1] in more;
      if i > 0 { assert more[i - 1].outflowId != more[j - 1].outflowId; }
    }
  }

  /** Every outflow id is used at most once. */
  lemma {:induction false} OutflowsOnce(outflows: seq<Transaction>, inflows: seq<Transaction>, window: int,
                                        claimed: set<string>)
    requires DistinctIds(outflows)
    ensures OutflowsAmong(Match(outflows, inflows, window, claimed), outflows)
    ensures OutflowsDiffer(Match(outflows, inflows, window, claimed))
  {
    if outflows != [] {
      var o, rest := outflows[0], outflows[1..];
      assert outflows == [o] + rest;
      var best := Nearest(o, inflows, window, claimed);
      var claimed' := if best.None? then claimed else claimed + {best.value.id, o.id};
      OutflowsOnce(rest, inflows, window, claimed');
      var more := Match(rest, inflows, window, claimed');
      AmongCons(o, rest, more);
      if best.Some? { OnePairMore(o, rest, PairOf(o, best.value), more); }
      assert Match(outflows, inflows, window, claimed) == if best.None? then more else [PairOf(o, best.value)] + more;
    }
  }

  /** A pair of two transactions of the ledger, one leaving an account and one arriving in another. */
  ghost predicate Transfer(p: Pair, txns: seq<Transaction>, window: int) {
    exists o, i :: o in txns && i in txns && IsTransfer(o, i, window) && p == PairOf(o, i)
  }

  predicate IsTransfer(o: Transaction, i: Transaction, window: int) {
    && !o.pending && !i.pending && o.amount < 0 && i.amount == -o.amount
    && i.currency == o.currency && i.accountId != o.accountId && Gap(o, i) <= window
  }

  /** The detection is a one-to-one matching of transfers, and it is maximal: of the two sides of
      any transfer at least one is paired. */
  lemma MaximalMatching(txns: seq<Transaction>, window: int, le: (string, string) -> bool)
    requires DistinctIds(txns)
    ensures var ps := Detected(txns, window, le);
      && (forall p :: p in ps ==> Transfer(p, txns, window))
      && OneToOne(ps)
      && (forall o, i :: o in txns && i in txns && IsTransfer(o, i, window) ==>
            o.id in IdsOf(ps) || i.id in IdsOf(ps))
  {
    DistinctIdentified(txns);
    var outs, ins := SortedSide(le, txns, true), SortedSide(le, txns, false);
    SortedSides(txns, le, true);
    SortedSides(txns, le, false);
    IdentifiedDistinct(outs);
    MatchIsSound(outs, ins, window, {});
    OutflowsOnce(outs, ins, window, {});
    var ps := Detected(txns, window, le);
    forall i, j | 0 <= i < |ps| && 0 <= j < |ps| ensures ps[i].outflowId != ps[j].inflowId {
      assert Joins(ps[i], outs, ins, window) && Joins(ps[j], outs, ins, window);
    }
    forall p | p in ps ensures Transfer(p, txns, window) {
      var o, i :| o in outs && i in ins && Eligible(o, i, window) && p == PairOf(o, i);
      assert IsTransfer(o, i, window);
    }
    forall o, i | o in txns && i in txns && IsTransfer(o, i, window)
      ensures o.id in IdsOf(ps) || i.id in IdsOf(ps)
    {
      MatchIsMaximal(outs, ins, window, {}, o, i);
    }
  }

  // ---------------------------------------------------------------- which one is taken

  /** What a pair says of the two rows it joins. */
  ghost predicate Describes(p: Pair, o: Transaction, i: Transaction) {
    && p.outflowId == o.id && p.inflowId == i.id
    && 0 < p.amount == i.amount == -o.amount && p.currency == o.currency == i.currency
    && p.daysApart == if i.day < o.day then o.day - i.day else i.day - o.day
  }

  /** `a` comes before `b`: earlier in time, or on the same day with the lesser id. */
  predicate Precedes(le: (string, string) -> bool, a: Transaction, b: Transaction) {
    a.day < b.day || (a.day == b.day && le(a.id, b.id))
  }

  /** `i` is nearer to `o` than `j`, or as near and before it. */
  predicate Preferred(le: (string, string) -> bool, o: Transaction, i: Transaction, j: Transaction) {
    Gap(o, i) < Gap(o, j) || (Gap(o, i) == Gap(o, j) && Precedes(le, i, j))
  }

  ghost predicate Ordered(le: (string, string) -> bool, txns: seq<Transaction>) {
    forall a, b :: 0 <= a < b < |txns| ==> Precedes(le, txns[a], txns[b])
  }

  /** The free inflow taken by `o`: none of the free ones is preferred to it. */
  ghost predicate Takes(le: (string, string) -> bool, o: Transaction, i: Transaction, inflows: seq<Transaction>,
                        window: int, claimed: set<string>) {
    && i in inflows && Free(o, i, window, claimed)
    && forall j :: j in inflows && Free(o, j, window, claimed) && j != i ==> Preferred(le, o, i, j)
  }

  lemma {:induction false} NearestIsTaken(o: Transaction, inflows: seq<Transaction>, window: int,
                                          claimed: set<string>, le: (string, string) -> bool)
    requires Ordered(le, inflows)
    ensures var best := Nearest(o, inflows, window, claimed);
            best.Some? ==> Takes(le, o, best.value, inflows, window, claimed)
  {
    NearestIsNearest(o, inflows, window, claimed);
    if inflows != [] {
      var init, last := inflows[..|inflows| - 1], inflows[|inflows| - 1];
      NearestIsTaken(o, init, window, claimed, le);
      NearestIsNearest(o, init, window, claimed);
    }
  }

  /** Pair `k` is what its outflow takes once the pairs before it are made. */
  ghost predicate TakenInTurn(le: (string, string) -> bool, ps: seq<Pair>, k: nat, outflows: seq<Transaction>,
                              inflows: seq<Transaction>, window: int, claimed: set<string>)
    requires k < |ps|
  {
    exists o, i :: o in outflows && ps[k] == PairOf(o, i)
                   && Takes(le, o, i, inflows, window, claimed + IdsOf(ps[..k]))
  }

  lemma TakenLater(le: (string, string) -> bool, first: Pair, more: seq<Pair>, k: nat, outflows: seq<Transaction>,
                   inflows: seq<Transaction>, window: int, claimed: set<string>)
    requires outflows != [] && k < |more|
    requires TakenInTurn(le, more, k, outflows[1..], inflows, window, claimed + {first.inflowId, first.outflowId})
    ensures TakenInTurn(le, [first] + more, k + 1, outflows, inflows, window, claimed)
  {
    var ps := [first] + more;
    var before := claimed + {first.inflowId, first.outflowId} + IdsOf(more[..k]);
    var o, i :| o in outflows[1..] && more[k] == PairOf(o, i) && Takes(le, o, i, inflows, window, before);
    assert ps[..k + 1] == [first] + more[..k];
    IdsOfCons(first, more[..k]);
    assert before == claimed + IdsOf(ps[..k + 1]);
    assert o in outflows && ps[k + 1] == PairOf(o, i);
  }

  lemma {:induction false} MatchTakesInTurn(outflows: seq<Transaction>, inflows: seq<Transaction>, window: int,
                                            claimed: set<string>, le: (string, string) -> bool, k: nat)
    requires Ordered(le, inflows) && k < |Match(outflows, inflows, window, claimed)|
    ensures TakenInTurn(le, Match(outflows, inflows, window, claimed), k, outflows, inflows, window, claimed)
    decreases |outflows|
  {
    var o, rest := outflows[0], outflows[1..];
    var best := Nearest(o, inflows, window, claimed);
    var ps := Match(outflows, inflows, window, claimed);
    if best.None? {
      MatchTakesInTurn(rest, inflows, window, claimed, le, k);
    } else if k == 0 {
      NearestIsTaken(o, inflows, window, claimed, le);
      assert claimed + IdsOf(ps[..0]) == claimed && ps[0] == PairOf(o, best.value);
    } else {
      var claimed' := claimed + {best.value.id, o.id};
      MatchTakesInTurn(rest, inflows, window, claimed', le, k - 1);
      TakenLater(le, PairOf(o, best.value), Match(rest, inflows, window, claimed'), k - 1, outflows, inflows, window,
                 claimed);
    }
  }

  lemma SidesAreOrdered(txns: seq<Transaction>, le: (string, string) -> bool, out: bool)
    requires DistinctIds(txns) && TotalOrder(le)
    ensures Ordered(le, SortedSide(le, txns, out))
  {
    DistinctIdentified(txns);
    SideIdentified(txns, out);
    OrdersTransactions(le, Side(txns, out));
    SortSorted(ByDateThenId(le), Side(txns, out));
  }

  /** Pair `k` joins an outflow with, of all transfers of it whose inflow no earlier pair uses, the one
      nearest in time; of several, the earliest; of several on one day, the one with the least id. */
  ghost predicate BestChoice(le: (string, string) -> bool, txns: seq<Transaction>, ps: seq<Pair>, k: nat, window: int)
    requires k < |ps|
  {
    exists o, i :: o in txns && i in txns && Describes(ps[k], o, i) && IsTransfer(o, i, window)
      && i.id !in IdsOf(ps[..k])
      && forall j :: j in txns && IsTransfer(o, j, window) && j.id !in IdsOf(ps[..k]) && j != i ==>
           Preferred(le, o, i, j)
  }

  lemma EachPairIsBest(txns: seq<Transaction>, window: int, le: (string, string) -> bool, k: nat)
    requires DistinctIds(txns) && TotalOrder(le) && k < |Detected(txns, window, le)|
    ensures BestChoice(le, txns, Detected(txns, window, le), k, window)
  {
    var outs, ins, ps := SortedSide(le, txns, true), SortedSide(le, txns, false), Detected(txns, window, le);
    DistinctIdentified(txns);
    SortedSides(txns, le, true);
    SortedSides(txns, le, false);
    SidesAreOrdered(txns, le, false);
    MatchTakesInTurn(outs, ins, window, {}, le, k);
    assert {} + IdsOf(ps[..k]) == IdsOf(ps[..k]);
    var o, i :| o in outs && ps[k] == PairOf(o, i) && Takes(le, o, i, ins, window, IdsOf(ps[..k]));
    assert Describes(ps[k], o, i) && IsTransfer(o, i, window);
    forall j | j in txns && IsTransfer(o, j, window) && j.id !in IdsOf(ps[..k]) && j != i
      ensures Preferred(le, o, i, j)
    {
      assert j in ins && Free(o, j, window, IdsOf(ps[..k]));
    }
  }

  /** The pairs come in the order of their outflows. */
  ghost predicate InOrder(le: (string, string) -> bool, txns: seq<Transaction>, p: Pair, q: Pair) {
    exists a, b :: a in txns && b in txns && a.id == p.outflowId && b.id == q.outflowId && Precedes(le, a, b)
  }

  lemma HeadInOrder(outflows: seq<Transaction>, le: (string, string) -> bool, p: Pair, q: Pair)
    requires outflows != [] && Ordered(le, outflows) && p.outflowId == outflows[0].id
    requires HasId(outflows[1..], q.outflowId)
    ensures InOrder(le, outflows, p, q)
  {
    var b :| b in outflows[1..] && b.id == q.outflowId;
    var k :| 0 <= k < |outflows[1..]| && outflows[1..][k] == b;
    assert Precedes(le, outflows[0], outflows[k + 1]);
  }

  ghost predicate AllInOrder(le: (string, string) -> bool, txns: seq<Transaction>, ps: seq<Pair>) {
    forall j, k :: 0 <= j < k < |ps| ==> InOrder(le, txns, ps[j], ps[k])
  }

  lemma OrderGrows(le: (string, string) -> bool, few: seq<Transaction>, many: seq<Transaction>, ps: seq<Pair>)
    requires AllInOrder(le, few, ps) && forall t :: t in few ==> t in many
    ensures AllInOrder(le, many, ps)
  {
    forall j, k | 0 <= j < k < |ps| ensures InOrder(le, many, ps[j], ps[k]) {
      assert InOrder(le, few, ps[j], ps[k]);
    }
  }

  lemma FirstInOrder(le: (string, string) -> bool, outflows: seq<Transaction>, first: Pair, more: seq<Pair>)
    requires outflows != [] && Ordered(le, outflows) && first.outflowId == outflows[0].id
    requires OutflowsAmong(more, outflows[1..]) && AllInOrder(le, outflows, more)
    ensures AllInOrder(le, outflows, [first] + more)
  {
    var ps := [first] + more;
    forall j, k | 0 <= j < k < |ps| ensures InOrder(le, outflows, ps[j], ps[k]) {
      if j == 0 {
        assert more[k - 1] in more;
        HeadInOrder(outflows, le, first, more[k - 1]);
      } else {
        assert InOrder(le, outflows, more[j - 1], more[k - 1]);
      }
    }
  }

  lemma {:induction false} MatchInOrder(outflows: seq<Transaction>, inflows: seq<Transaction>, window: int,
                                        claimed: set<string>, le: (string, string) -> bool)
    requires Ordered(le, outflows) && DistinctIds(outflows)
    ensures AllInOrder(le, outflows, Match(outflows, inflows, window, claimed))
  {
    if outflows != [] {
      var o, rest := outflows[0], outflows[1..];
      var best := Nearest(o, inflows, window, claimed);
      var claimed' := if best.None? then claimed else claimed + {best.value.id, o.id};
      var more := Match(rest, inflows, window, claimed');
      MatchInOrder(rest, inflows, window, claimed', le);
      OrderGrows(le, rest, outflows, more);
      OutflowsOnce(rest, inflows, window, claimed');
      if best.Some? { FirstInOrder(le, outflows, PairOf(o, best.value), more); }
    }
  }

  lemma PairsInOrder(txns: seq<Transaction>, window: int, le: (string, string) -> bool)
    requires DistinctIds(txns) && TotalOrder(le)
    ensures AllInOrder(le, txns, Detected(txns, window, le))
  {
    var outs := SortedSide(le, txns, true);
    DistinctIdentified(txns);
    SortedSides(txns, le, true);
    IdentifiedDistinct(outs);
    SidesAreOrdered(txns, le, true);
    MatchInOrder(outs, SortedSide(le, txns, false), window, {}, le);
    OrderGrows(le, outs, txns, Detected(txns, window, le));
  }

  // ---------------------------------------------------------------- excluding them from totals

  /** What the transactions with these ids add up to. */
  function NetOf(txns: seq<Transaction>, ids: set<string>): int {
    if txns == [] then 0
    else NetOf(txns[1..], ids) + (if txns[0].id in ids then txns[0].amount else 0)
  }

  lemma {:induction false} NetOfOneMore(txns: seq<Transaction>, ids: set<string>, t: Transaction)
    requires DistinctIds(txns) && t.id !in ids
    ensures NetOf(txns, ids + {t.id}) == NetOf(txns, ids) + (if t in txns then t.amount else 0)
         || (t !in txns && exists u :: u in txns && u.id == t.id)
  {
    if txns != [] {
      assert DistinctIds(txns[1..]) && txns == [txns[0]] + txns[1..];
      NetOfOneMore(txns[1..], ids, t);
      if t in txns[1..] { assert t.id != txns[0].id; }
    }
  }

  lemma {:induction false} NetOfNone(txns: seq<Transaction>)
    ensures NetOf(txns, {}) == 0
  {
    if txns != [] { NetOfNone(txns[1..]); }
  }

  /** No id is used twice. */
  ghost predicate OneToOne(ps: seq<Pair>) {
    forall i, j :: 0 <= i < |ps| && 0 <= j < |ps| ==>
      ps[i].outflowId != ps[j].inflowId
      && (i != j ==> ps[i].outflowId != ps[j].outflowId && ps[i].inflowId != ps[j].inflowId)
  }

  lemma FreshPair(ps: seq<Pair>)
    requires ps != [] && OneToOne(ps)
    ensures var init, last := ps[..|ps| - 1], ps[|ps| - 1];
            && last.outflowId !in IdsOf(init) && last.inflowId !in IdsOf(init) && last.outflowId != last.inflowId
            && IdsOf(ps) == IdsOf(init) + {last.outflowId} + {last.inflowId}
  {
    var init, last := ps[..|ps| - 1], ps[|ps| - 1];
    forall p | p in init
      ensures p.outflowId !in {last.outflowId, last.inflowId} && p.inflowId !in {last.outflowId, last.inflowId}
    {
      var k :| 0 <= k < |init| && init[k] == p;
      assert ps[k] == p;
    }
    assert ps == init + [last];
  }

  lemma {:induction false} NetOfPairs(txns: seq<Transaction>, ps: seq<Pair>, window: int)
    requires DistinctIds(txns) && OneToOne(ps) && forall p :: p in ps ==> Transfer(p, txns, window)
    ensures NetOf(txns, IdsOf(ps)) == 0
  {
    if ps == [] {
      assert IdsOf(ps) == {};
      NetOfNone(txns);
    } else {
      var init, last := ps[..|ps| - 1], ps[|ps| - 1];
      NetOfPairs(txns, init, window);
      FreshPair(ps);
      assert last in ps;
      var o, i :| o in txns && i in txns && IsTransfer(o, i, window) && last == PairOf(o, i);
      NetOfOneMore(txns, IdsOf(init), o);
      NetOfOneMore(txns, IdsOf(init) + {o.id}, i);
    }
  }

  /** Leaving the detected transfers out changes no net total: together they add up to zero. */
  lemma TransfersCancel(txns: seq<Transaction>, window: int, le: (string, string) -> bool)
    requires DistinctIds(txns)
    ensures NetOf(txns, IdsOf(Detected(txns, window, le))) == 0
  {
    MaximalMatching(txns, window, le);
    NetOfPairs(txns, Detected(txns, window, le), window);
  }

  // ---------------------------------------------------------------- how many it can miss

  lemma SetSizes(ps: seq<Pair>)
    ensures |IdsOf(ps)| <= 2 * |ps|
    decreases |ps|
  {
    if ps == [] {
      assert IdsOf(ps) == {};
    } else {
      var init, last := ps[..|ps| - 1], ps[|ps| - 1];
      assert ps == init + [last];
      SetSizes(init);
      assert IdsOf(ps) == IdsOf(init) + {last.outflowId, last.inflowId};
    }
  }

  lemma SubsetSize(a: set<string>, b: set<string>)
    requires a <= b
    ensures |a| <= |b|
  {
    assert b == a + (b - a);
    assert |b| == |a| + |b - a|;
  }

  ghost predicate EachHits(qs: seq<Pair>, ids: set<string>) {
    forall k :: 0 <= k < |qs| ==> qs[k].outflowId in ids || qs[k].inflowId in ids
  }

  lemma InitIsOneToOne(qs: seq<Pair>, ids: set<string>)
    requires qs != [] && OneToOne(qs) && EachHits(qs, ids)
    ensures OneToOne(qs[..|qs| - 1]) && EachHits(qs[..|qs| - 1], ids)
  {}

  /** One id of each pair, where each has one among `ids`. */
  lemma {:induction false} OneIdEach(qs: seq<Pair>, ids: set<string>) returns (chosen: set<string>)
    requires OneToOne(qs) && EachHits(qs, ids)
    ensures chosen <= ids && chosen <= IdsOf(qs) && |chosen| == |qs|
  {
    if qs == [] {
      chosen := {};
    } else {
      var last := qs[|qs| - 1];
      InitIsOneToOne(qs, ids);
      var before := OneIdEach(qs[..|qs| - 1], ids);
      FreshPair(qs);
      var one := if last.outflowId in ids then last.outflowId else last.inflowId;
      assert one in ids && one !in before;
      chosen := before + {one};
    }
  }

  /** No set of transfers that uses every transaction at most once has more than twice as many pairs. */
  lemma AtLeastHalf(txns: seq<Transaction>, window: int, le: (string, string) -> bool, qs: seq<Pair>)
    requires DistinctIds(txns) && OneToOne(qs) && forall q :: q in qs ==> Transfer(q, txns, window)
    ensures |qs| <= 2 * |Detected(txns, window, le)|
  {
    var ps := Detected(txns, window, le);
    MaximalMatching(txns, window, le);
    forall k | 0 <= k < |qs| ensures qs[k].outflowId in IdsOf(ps) || qs[k].inflowId in IdsOf(ps) {
      assert Transfer(qs[k], txns, window);
      var o, i :| o in txns && i in txns && IsTransfer(o, i, window) && qs[k] == PairOf(o, i);
    }
    var chosen := OneIdEach(qs, IdsOf(ps));
    SubsetSize(chosen, IdsOf(ps));
    SetSizes(ps);
  }

  /** Two payments out and two in, of which the first one out is next to the only one in that the second
      one out can pair with. */
  ghost predicate Contested(o: Transaction, p: Transaction, i: Transaction, j: Transaction) {
    && DistinctIds([o, p, i, j]) && !o.pending && !p.pending && !i.pending && !j.pending
    && o.amount == p.amount < 0 && i.amount == j.amount == -o.amount
    && o.currency == p.currency == i.currency == j.currency
    && o.accountId == p.accountId && i.accountId == j.accountId && o.accountId != i.accountId
    && j.day == o.day - 3 && i.day == o.day + 1 && p.day == o.day + 4
  }

  lemma SideSnoc(init: seq<Transaction>, t: Transaction)
    ensures Side(init + [t], true) == Side(init, true) + (if On(t, true) then [t] else [])
    ensures Side(init + [t], false) == Side(init, false) + (if On(t, false) then [t] else [])
  {
    assert (init + [t])[..|init|] == init;
  }

  lemma ContestedSides(o: Transaction, p: Transaction, i: Transaction, j: Transaction, le: (string, string) -> bool)
    requires Contested(o, p, i, j)
    ensures SortedSide(le, [o, p, i, j], true) == [o, p] && SortedSide(le, [o, p, i, j], false) == [j, i]
  {
    assert Side([], true) == [] && Side([], false) == [];
    assert [] + [o] == [o] && [o] + [p] == [o, p] && [o, p] + [i] == [o, p, i] && [o, p, i] + [j] == [o, p, i, j];
    SideSnoc([], o);
    SideSnoc([o], p);
    SideSnoc([o, p], i);
    SideSnoc([o, p, i], j);
    SortPair(le, o, p);
    SortPair(le, i, j);
  }

  lemma SortPair(le: (string, string) -> bool, a: Transaction, b: Transaction)
    requires a.day != b.day
    ensures SortBy(ByDateThenId(le), [a, b]) == if a.day < b.day then [a, b] else [b, a]
  {
    assert [a, b][1..] == [b] && [b][1..] == [];
    assert SortBy(ByDateThenId(le), [b]) == [b];
    assert Insert(ByDateThenId(le), a, []) == [a];
  }

  lemma ContestedNearest(o: Transaction, p: Transaction, i: Transaction, j: Transaction)
    requires Contested(o, p, i, j)
    ensures Nearest(o, [j, i], 3, {}) == Some(i) && Nearest(p, [j, i], 3, {i.id, o.id}) == None
  {
    var all := [o, p, i, j];
    assert all[0].id == o.id && all[1].id == p.id && all[2].id == i.id && all[3].id == j.id;
    assert [j, i][..1] == [j] && [j][..0] == [];
    assert Nearest(o, [j], 3, {}) == Some(j) && Nearest(p, [j], 3, {i.id, o.id}) == None;
  }

  /** Then one transfer is found of two: the bound is met. */
  lemma HalfIsFound(o: Transaction, p: Transaction, i: Transaction, j: Transaction, le: (string, string) -> bool)
    requires Contested(o, p, i, j)
    ensures |Detected([o, p, i, j], 3, le)| == 1
    ensures var qs := [PairOf(o, j), PairOf(p, i)];
            OneToOne(qs) && forall q :: q in qs ==> Transfer(q, [o, p, i, j], 3)
  {
    var all := [o, p, i, j];
    ContestedSides(o, p, i, j, le);
    ContestedNearest(o, p, i, j);
    assert [o, p][1..] == [p] && [p][1..] == [];
    assert {} + {i.id, o.id} == {i.id, o.id};
    assert Match([p], [j, i], 3, {i.id, o.id}) == [];
    assert all[0].id == o.id && all[1].id == p.id && all[2].id == i.id && all[3].id == j.id;
    assert o in all && p in all && i in all && j in all;
    assert IsTransfer(o, j, 3) && IsTransfer(p, i, 3);
  }
}
