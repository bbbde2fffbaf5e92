/** The transaction store: apps/api/src/infra/in-memory-store.ts, lines 145-289. A posting date is a
    day number; the order of the date strings is the order of the days (Calendar.IsoOrder). */
module Ledger {
  import opened Common

  datatype CategorySource = UserManual | UserRule | Rule | Provider | Model | Unknown

  /** `provided` stands for the fields every sync overwrites: descriptors, merchant, currency. */
  datatype Transaction = Transaction(
    id: string, accountId: string, providerTxnId: string, postedAt: int, amount: int, pending: bool, provided: string,
    categorySlug: string, categorySource: CategorySource, categoryConfidence: real,
    merchantOverride: Option<string>, note: Option<string>, excludedFromAnalytics: Option<bool>,
    isRecurring: bool, recurringOverride: Option<bool>, duplicateReported: Option<bool>,
    tags: Option<seq<string>>, importBatchId: Option<string>)

  // ---------------------------------------------------------------- upsert

  datatype Key = Key(accountId: string, providerTxnId: string)

  function KeyOf(t: Transaction): Key {
    Key(t.accountId, t.providerTxnId)
  }

  /** Index of the first row with this key, or the length. */
  function IndexOf(rows: seq<Transaction>, key: Key): (k: nat)
    ensures k <= |rows| && (k < |rows| ==> KeyOf(rows[k]) == key)
    ensures forall j :: 0 <= j < k ==> KeyOf(rows[j]) != key
  {
    if rows == [] || KeyOf(rows[0]) == key then 0 else 1 + IndexOf(rows[1..], key)
  }

  predicate UserChose(t: Transaction) {
    t.categorySource == UserManual || t.categorySource == UserRule
  }

  function OrElse<T>(o: Option<T>, otherwise: T): T {
    if o.Some? then o.value else otherwise
  }

  /** A row sent again. Its marks outlive that; the category, and with it the note, the merchant name
      and the exclusion, only if the user chose the category. */
  function Merge(existing: Transaction, t: Transaction): Transaction {
    var kept := t.(id := existing.id, recurringOverride := existing.recurringOverride,
                   duplicateReported := existing.duplicateReported, tags := existing.tags,
                   isRecurring := OrElse(existing.recurringOverride, t.isRecurring));
    if UserChose(existing) then
      kept.(merchantOverride := existing.merchantOverride, note := existing.note,
            excludedFromAnalytics := existing.excludedFromAnalytics, categorySlug := existing.categorySlug,
            categorySource := existing.categorySource, categoryConfidence := existing.categoryConfidence)
    else kept
  }

  function Upsert(rows: seq<Transaction>, t: Transaction): seq<Transaction> {
    var k := IndexOf(rows, KeyOf(t));
    if k < |rows| then rows[k := Merge(rows[k], t)] else rows + [t]
  }

  function UpsertAll(rows: seq<Transaction>, batch: seq<Transaction>): seq<Transaction>
    decreases batch
  {
    if batch == [] then rows else UpsertAll(Upsert(rows, batch[0]), batch[1..])
  }

  /** How many rows of the batch are new when their turn comes. */
  function Inserted(rows: seq<Transaction>, batch: seq<Transaction>): (n: nat)
    ensures n <= |batch|
    decreases batch
  {
    if batch == [] then 0
    else (if IndexOf(rows, KeyOf(batch[0])) < |rows| then 0 else 1) + Inserted(Upsert(rows, batch[0]), batch[1..])
  }

  datatype Patch = Patch(
    categorySlug: Option<string>, categorySource: Option<CategorySource>, categoryConfidence: Option<real>,
    note: Option<Option<string>>, merchantOverride: Option<Option<string>>, recurringOverride: Option<Option<bool>>,
    isRecurring: Option<bool>, tags: Option<Option<seq<string>>>, excludedFromAnalytics: Option<Option<bool>>,
    duplicateReported: Option<Option<bool>>)

  function Patched(t: Transaction, p: Patch): Transaction {
    t.(categorySlug := OrElse(p.categorySlug, t.categorySlug),
       categorySource := OrElse(p.categorySource, t.categorySource),
       categoryConfidence := OrElse(p.categoryConfidence, t.categoryConfidence), note := OrElse(p.note, t.note),
       merchantOverride := OrElse(p.merchantOverride, t.merchantOverride),
       recurringOverride := OrElse(p.recurringOverride, t.recurringOverride),
       isRecurring := OrElse(p.isRecurring, t.isRecurring), tags := OrElse(p.tags, t.tags),
       excludedFromAnalytics := OrElse(p.excludedFromAnalytics, t.excludedFromAnalytics),
       duplicateReported := OrElse(p.duplicateReported, t.duplicateReported))
  }

  function IndexOfId(rows: seq<Transaction>, id: string): (k: nat)
    ensures k <= |rows| && (k < |rows| ==> rows[k].id == id)
    ensures forall j :: 0 <= j < k ==> rows[j].id != id
  {
    if rows == [] || rows[0].id == id then 0 else 1 + IndexOfId(rows[1..], id)
  }

  function Updated(rows: seq<Transaction>, id: string, p: Patch): seq<Transaction> {
    var k := IndexOfId(rows, id);
    if k < |rows| then rows[k := Patched(rows[k], p)] else rows
  }

  /** The rows that pass a test, in order: `Array.prototype.filter`. */
  function Where(rows: seq<Transaction>, keep: Transaction -> bool): (r: seq<Transaction>)
    ensures |r| <= |rows|
  {
    if rows == [] then [] else (if keep(rows[0]) then [rows[0]] else []) + Where(rows[1..], keep)
  }

  /** What a removal leaves. */
  datatype Removal = ByProviderIds(ids: seq<string>) | ByImportBatch(batch: string)

  predicate Spares(removal: Removal, t: Transaction) {
    match removal
    case ByProviderIds(ids) => t.providerTxnId !in ids
    case ByImportBatch(batch) => t.importBatchId != Some(batch)
  }

  function Survivors(removal: Removal): Transaction -> bool {
    t => Spares(removal, t)
  }

  lemma {:induction false} WhereMembers(rows: seq<Transaction>, keep: Transaction -> bool)
    ensures forall t :: t in Where(rows, keep) <==> t in rows && keep(t)
  {
    if rows != [] { WhereMembers(rows[1..], keep); }
  }

  /** The rows when the backward loop has come down to `n`. */
  function SplicedFrom(rows: seq<Transaction>, keep: Transaction -> bool, n: nat): seq<Transaction>
    requires n <= |rows|
  {
    rows[..n] + Where(rows[n..], keep)
  }

  lemma SpliceEnds(rows: seq<Transaction>, keep: Transaction -> bool)
    ensures SplicedFrom(rows, keep, |rows|) == rows && SplicedFrom(rows, keep, 0) == Where(rows, keep)
  {
    assert rows[..|rows|] == rows && rows[|rows|..] == [] && rows[0..] == rows;
  }

  lemma SpliceOne(rows: seq<Transaction>, keep: Transaction -> bool, n: nat)
    requires n < |rows|
    ensures var now := SplicedFrom(rows, keep, n + 1);
            && |now| > n && now[n] == rows[n]
            && SplicedFrom(rows, keep, n) == if keep(rows[n]) then now else now[..n] + now[n + 1..]
  {
    assert rows[n..] == [rows[n]] + rows[n + 1..];
  }

  /** One user's rows, changed in place. */
  class TransactionBucket {
    var rows: seq<Transaction>

    constructor ()
      ensures rows == []
    {
      rows := [];
    }

    method UpsertMany(transactions: seq<Transaction>) returns (inserted: nat, updated: nat)
      modifies this
      ensures rows == UpsertAll(old(rows), transactions)
      ensures inserted == Inserted(old(rows), transactions) && inserted + updated == |transactions|
    {
      inserted, updated := 0, 0;
      ghost var before := rows;
      for i := 0 to |transactions|
        invariant UpsertAll(before, transactions) == UpsertAll(rows, transactions[i..])
        invariant Inserted(before, transactions) == inserted + Inserted(rows, transactions[i..])
        invariant inserted + updated == i
      {
        assert transactions[i..][1..] == transactions[i + 1..];
        var t := transactions[i];
        var index := IndexOf(rows, KeyOf(t));
        if index < |rows| {
          rows := rows[index := Merge(rows[index], t)];
          updated := updated + 1;
        } else {
          rows := rows + [t];
          inserted := inserted + 1;
        }
      }
    }

    method Update(id: string, patch: Patch) returns (r: Option<Transaction>)
      modifies this
      ensures rows == Updated(old(rows), id, patch)
      ensures r.None? <==> forall t :: t in old(rows) ==> t.id != id
      ensures r.Some? ==> r.value.id == id && r.value in rows
    {
      var index := IndexOfId(rows, id);
      if index == |rows| { return None; }
      var next := Patched(rows[index], patch);
      rows := rows[index := next];
      assert rows[index] == next;
      r := Some(next);
    }

    /** `removeByProviderIds` and `removeByImportBatch`: the same backward loop with another test. */
    method Remove(removal: Removal) returns (removed: nat)
      modifies this
      ensures rows == Where(old(rows), Survivors(removal))
      ensures removed == |old(rows)| - |rows|
    {
      removed := 0;
      ghost var before, keep := rows, Survivors(removal);
      SpliceEnds(before, keep);
      var index := |rows|;
      while index > 0
        invariant 0 <= index <= |before|
        invariant rows == SplicedFrom(before, keep, index)
        invariant removed == |before| - |rows|
      {
        index := index - 1;
        SpliceOne(before, keep, index);
        if !Spares(removal, rows[index]) {
          rows := rows[..index] + rows[index + 1..];
          removed := removed + 1;
        }
      }
    }
  }

  // ---------------------------------------------------------------- edits and removals, field by field

  /** A field takes what the patch has for it, or stays. */
  ghost predicate Takes<T>(after: T, before: T, patch: Option<T>) {
    match patch case Some(value) => after == value case None => after == before
  }

  /** The ten editable fields take the patch; the others stay. */
  ghost predicate Edited(after: Transaction, before: Transaction, p: Patch) {
    && Takes(after.categorySlug, before.categorySlug, p.categorySlug)
    && Takes(after.categorySource, before.categorySource, p.categorySource)
    && Takes(after.categoryConfidence, before.categoryConfidence, p.categoryConfidence)
    && Takes(after.note, before.note, p.note)
    && Takes(after.merchantOverride, before.merchantOverride, p.merchantOverride)
    && Takes(after.recurringOverride, before.recurringOverride, p.recurringOverride)
    && Takes(after.isRecurring, before.isRecurring, p.isRecurring)
    && Takes(after.tags, before.tags, p.tags)
    && Takes(after.excludedFromAnalytics, before.excludedFromAnalytics, p.excludedFromAnalytics)
    && Takes(after.duplicateReported, before.duplicateReported, p.duplicateReported)
    && after.id == before.id && KeyOf(after) == KeyOf(before) && after.postedAt == before.postedAt
    && after.amount == before.amount && after.pending == before.pending && after.provided == before.provided
    && after.importBatchId == before.importBatchId
  }

  /** An update edits the first row with the id and leaves every other row. */
  lemma UpdateDoes(rows: seq<Transaction>, id: string, p: Patch, k: nat)
    requires k < |rows|
    ensures var after := Updated(rows, id, p);
      && |after| == |rows|
      && (if rows[k].id == id && forall j :: 0 <= j < k ==> rows[j].id != id then Edited(after[k], rows[k], p)
          else after[k] == rows[k])
  {}

  /** A row sent again: what the provider tells is taken over, the id and the user's marks stay, and the
      category with its companions stays if a user or a user's rule chose it. */
  ghost predicate SentAgain(after: Transaction, before: Transaction, t: Transaction) {
    && after.accountId == t.accountId && after.providerTxnId == t.providerTxnId && after.postedAt == t.postedAt
    && after.amount == t.amount && after.pending == t.pending && after.provided == t.provided
    && after.importBatchId == t.importBatchId
    && after.id == before.id && after.recurringOverride == before.recurringOverride
    && after.duplicateReported == before.duplicateReported && after.tags == before.tags
    && (match before.recurringOverride
        case Some(recurring) => after.isRecurring == recurring
        case None => after.isRecurring == t.isRecurring)
    && var keeper := if before.categorySource.UserManual? || before.categorySource.UserRule? then before else t;
       && after.categorySlug == keeper.categorySlug && after.categorySource == keeper.categorySource
       && after.categoryConfidence == keeper.categoryConfidence && after.merchantOverride == keeper.merchantOverride
       && after.note == keeper.note && after.excludedFromAnalytics == keeper.excludedFromAnalytics
  }

  /** A row sent meets the first one of its account and provider id, or is added. */
  lemma UpsertDoes(rows: seq<Transaction>, t: Transaction, k: nat)
    requires k < |rows|
    ensures var after := Upsert(rows, t);
      && (if rows[k].accountId == t.accountId && rows[k].providerTxnId == t.providerTxnId
             && forall j :: 0 <= j < k ==> rows[j].accountId != t.accountId || rows[j].providerTxnId != t.providerTxnId
          then |after| == |rows| && SentAgain(after[k], rows[k], t)
          else |rows| <= |after| && after[k] == rows[k])
  {
    var i := IndexOf(rows, KeyOf(t));
    if i < k { assert KeyOf(rows[i]) == KeyOf(t); }
  }

  lemma UpsertAdds(rows: seq<Transaction>, t: Transaction)
    ensures (forall u :: u in rows ==> u.accountId != t.accountId || u.providerTxnId != t.providerTxnId)
            <==> Upsert(rows, t) == rows + [t]
  {
    var i := IndexOf(rows, KeyOf(t));
    if i < |rows| { assert rows[i] in rows && |Upsert(rows, t)| == |rows|; }
  }

  /** A removal by provider ids or by import takes exactly the rows with one of these ids or of that
      import, wherever they are. */
  lemma RemovalTakes(rows: seq<Transaction>, ids: seq<string>, batch: string, t: Transaction)
    ensures t in Where(rows, Survivors(ByProviderIds(ids))) <==> t in rows && t.providerTxnId !in ids
    ensures t in Where(rows, Survivors(ByImportBatch(batch))) <==> t in rows && t.importBatchId != Some(batch)
  {
    WhereMembers(rows, Survivors(ByProviderIds(ids)));
    WhereMembers(rows, Survivors(ByImportBatch(batch)));
  }

  // ---------------------------------------------------------------- what every run keeps

  ghost predicate KeysUnique(rows: seq<Transaction>) {
    forall i, j :: 0 <= i < j < |rows| ==> KeyOf(rows[i]) != KeyOf(rows[j])
  }

  /** The row with this key, if any. */
  function Lookup(rows: seq<Transaction>, key: Key): Option<Transaction> {
    var k := IndexOf(rows, key);
    if k < |rows| then Some(rows[k]) else None
  }

  lemma {:induction false} IndexAppend(rows: seq<Transaction>, t: Transaction, key: Key)
    ensures IndexOf(rows + [t], key)
         == if IndexOf(rows, key) < |rows| then IndexOf(rows, key) else if KeyOf(t) == key then |rows| else |rows| + 1
  {
    if rows == [] {
      assert rows + [t] == [t];
    } else {
      assert (rows + [t])[1..] == rows[1..] + [t];
      IndexAppend(rows[1..], t, key);
    }
  }

  lemma {:induction false} IndexReplace(rows: seq<Transaction>, k: nat, t: Transaction, key: Key)
    requires k < |rows| && KeyOf(t) == KeyOf(rows[k])
    ensures IndexOf(rows[k := t], key) == IndexOf(rows, key)
  {
    if k > 0 {
      assert rows[k := t][1..] == rows[1..][k - 1 := t];
      IndexReplace(rows[1..], k - 1, t, key);
    } else {
      assert rows[k := t][1..] == rows[1..];
    }
  }

  /** An upsert changes the row of its own key and no other. */
  lemma UpsertLookup(rows: seq<Transaction>, t: Transaction, key: Key)
    ensures Lookup(Upsert(rows, t), key)
         == if key != KeyOf(t) then Lookup(rows, key)
            else if Lookup(rows, key).Some? then Some(Merge(Lookup(rows, key).value, t)) else Some(t)
  {
    var k := IndexOf(rows, KeyOf(t));
    if k < |rows| { IndexReplace(rows, k, Merge(rows[k], t), key); }
    else { IndexAppend(rows, t, key); }
  }

  lemma UpsertUnique(rows: seq<Transaction>, t: Transaction)
    requires KeysUnique(rows)
    ensures KeysUnique(Upsert(rows, t))
  {}

  lemma {:induction false} UpsertAllUnique(rows: seq<Transaction>, batch: seq<Transaction>)
    requires KeysUnique(rows)
    ensures KeysUnique(UpsertAll(rows, batch))
    decreases batch
  {
    if batch != [] {
      UpsertUnique(rows, batch[0]);
      UpsertAllUnique(Upsert(rows, batch[0]), batch[1..]);
    }
  }

  lemma {:induction false} WhereUnique(rows: seq<Transaction>, keep: Transaction -> bool)
    requires KeysUnique(rows)
    ensures KeysUnique(Where(rows, keep))
  {
    if rows != [] {
      WhereUnique(rows[1..], keep);
      WhereMembers(rows[1..], keep);
      var rest := Where(rows[1..], keep);
      forall j | 0 <= j < |rest| ensures KeyOf(rows[0]) != KeyOf(rest[j]) { assert rest[j] in rest; }
    }
  }

  datatype Action = Sync(batch: seq<Transaction>) | Edit(id: string, patch: Patch) | Drop(removal: Removal)

  function After(rows: seq<Transaction>, action: Action): seq<Transaction> {
    match action
    case Sync(batch) => UpsertAll(rows, batch)
    case Edit(id, patch) => Updated(rows, id, patch)
    case Drop(removal) => Where(rows, Survivors(removal))
  }

  /** (accountId, providerTxnId) stays unique. */
  lemma StepUnique(rows: seq<Transaction>, action: Action)
    requires KeysUnique(rows)
    ensures KeysUnique(After(rows, action))
  {
    match action
    case Sync(batch) => UpsertAllUnique(rows, batch);
    case Edit(_, _) =>
    case Drop(removal) => WhereUnique(rows, Survivors(removal));
  }

  /** What the user decided about a row. */
  ghost predicate SameChoices(a: Transaction, b: Transaction) {
    && a.id == b.id && a.categorySlug == b.categorySlug && a.categorySource == b.categorySource
    && a.categoryConfidence == b.categoryConfidence && a.note == b.note && a.merchantOverride == b.merchantOverride
    && a.excludedFromAnalytics == b.excludedFromAnalytics && a.recurringOverride == b.recurringOverride
    && a.duplicateReported == b.duplicateReported && a.tags == b.tags
    && (a.recurringOverride.Some? && a.isRecurring == a.recurringOverride.value ==> b.isRecurring == a.isRecurring)
  }

  /** A row after everything in `batch` with its key has been sent again. */
  function Resent(e: Transaction, batch: seq<Transaction>, key: Key): Transaction
    decreases batch
  {
    if batch == [] then e
    else Resent(if KeyOf(batch[0]) == key then Merge(e, batch[0]) else e, batch[1..], key)
  }

  lemma {:induction false} SyncLookup(rows: seq<Transaction>, batch: seq<Transaction>, key: Key)
    requires Lookup(rows, key).Some?
    ensures Lookup(UpsertAll(rows, batch), key) == Some(Resent(Lookup(rows, key).value, batch, key))
    decreases batch
  {
    if batch != [] {
      UpsertLookup(rows, batch[0], key);
      SyncLookup(Upsert(rows, batch[0]), batch[1..], key);
    }
  }

  lemma {:induction false} ResentAppend(e: Transaction, a: seq<Transaction>, b: seq<Transaction>, key: Key)
    ensures Resent(e, a + b, key) == Resent(Resent(e, a, key), b, key)
    decreases a
  {
    if a == [] {
      assert a + b == b;
    } else {
      assert (a + b)[1..] == a[1..] + b;
      ResentAppend(if KeyOf(a[0]) == key then Merge(e, a[0]) else e, a[1..], b, key);
    }
  }

  lemma {:induction false} ResentKeepsChoices(e: Transaction, batch: seq<Transaction>, key: Key)
    requires UserChose(e)
    ensures SameChoices(e, Resent(e, batch, key))
    decreases batch
  {
    if batch != [] {
      ResentKeepsChoices(if KeyOf(batch[0]) == key then Merge(e, batch[0]) else e, batch[1..], key);
    }
  }

  lemma {:induction false} LookupWhere(rows: seq<Transaction>, keep: Transaction -> bool, key: Key)
    requires KeysUnique(rows)
    ensures Lookup(Where(rows, keep), key)
         == if Lookup(rows, key).Some? && keep(Lookup(rows, key).value) then Lookup(rows, key) else None
  {
    WhereMembers(rows, keep);
    WhereUnique(rows, keep);
    var kept := Where(rows, keep);
    var i, k := IndexOf(rows, key), IndexOf(kept, key);
    if k < |kept| { assert kept[k] in kept; }
    if i < |rows| && keep(rows[i]) {
      assert rows[i] in kept;
      var j :| 0 <= j < |kept| && kept[j] == rows[i];
    }
  }

  /** What a step that does not edit a row makes of it. */
  lemma StepLookup(rows: seq<Transaction>, action: Action, key: Key)
    requires KeysUnique(rows) && Lookup(rows, key).Some?
    requires action.Edit? ==> action.id != Lookup(rows, key).value.id
    ensures var before, after := Lookup(rows, key).value, Lookup(After(rows, action), key);
            match action
            case Sync(batch) => after == Some(Resent(before, batch, key))
            case Edit(_, _) => after == Some(before)
            case Drop(removal) => after == if Spares(removal, before) then Some(before) else None
  {
    match action
    case Sync(batch) => SyncLookup(rows, batch, key);
    case Edit(id, patch) =>
      var k := IndexOfId(rows, id);
      if k < |rows| { IndexReplace(rows, k, Patched(rows[k], patch), key); }
    case Drop(removal) => LookupWhere(rows, Survivors(removal), key);
  }

  /** A category the user chose survives every step that does not edit that row or remove it. */
  lemma StepKeepsChoices(rows: seq<Transaction>, action: Action, key: Key)
    requires KeysUnique(rows) && Lookup(rows, key).Some? && UserChose(Lookup(rows, key).value)
    requires action.Edit? ==> action.id != Lookup(rows, key).value.id
    ensures var after := Lookup(After(rows, action), key);
            if action.Drop? && !Spares(action.removal, Lookup(rows, key).value) then after.None?
            else after.Some? && SameChoices(Lookup(rows, key).value, after.value)
  {
    StepLookup(rows, action, key);
    if action.Sync? { ResentKeepsChoices(Lookup(rows, key).value, action.batch, key); }
  }

  ghost predicate Follows(states: seq<seq<Transaction>>, actions: seq<Action>, i: nat)
    requires |states| == |actions| + 1 && i < |actions|
  {
    states[i + 1] == After(states[i], actions[i])
  }

  ghost predicate Run(states: seq<seq<Transaction>>, actions: seq<Action>) {
    && |states| == |actions| + 1
    && KeysUnique(states[0])
    && forall i: nat :: i < |actions| ==> Follows(states, actions, i)
  }

  lemma {:induction false} RunUnique(states: seq<seq<Transaction>>, actions: seq<Action>, i: nat)
    requires Run(states, actions) && i < |states|
    ensures KeysUnique(states[i])
  {
    if i > 0 {
      RunUnique(states, actions, i - 1);
      assert Follows(states, actions, i - 1);
      StepUnique(states[i - 1], actions[i - 1]);
    }
  }

  /** Everything sent in the first `n` steps of a run. */
  function SentIn(actions: seq<Action>, n: nat): seq<Transaction>
    requires n <= |actions|
  {
    if n == 0 then [] else SentIn(actions, n - 1) + (if actions[n - 1].Sync? then actions[n - 1].batch else [])
  }

  /** In the first `n` steps the row is there and is not edited. */
  ghost predicate LeftAlone(states: seq<seq<Transaction>>, actions: seq<Action>, key: Key, n: nat) {
    && n < |states| && n <= |actions|
    && (forall i: nat :: i <= n ==> Lookup(states[i], key).Some?)
    && (forall i :: 0 <= i < n && actions[i].Edit? ==> actions[i].id != Lookup(states[0], key).value.id)
  }

  lemma {:induction false} ResentId(e: Transaction, batch: seq<Transaction>, key: Key)
    ensures Resent(e, batch, key).id == e.id
    decreases batch
  {
    if batch != [] { ResentId(if KeyOf(batch[0]) == key then Merge(e, batch[0]) else e, batch[1..], key); }
  }

  /** A row that is left alone depends only on what was sent, however other rows change meanwhile. */
  lemma {:induction false} RunRow(states: seq<seq<Transaction>>, actions: seq<Action>, key: Key, n: nat)
    requires Run(states, actions) && LeftAlone(states, actions, key, n)
    ensures Lookup(states[n], key).value == Resent(Lookup(states[0], key).value, SentIn(actions, n), key)
    ensures Lookup(states[n], key).value.id == Lookup(states[0], key).value.id
  {
    if n > 0 {
      RunRow(states, actions, key, n - 1);
      RunUnique(states, actions, n - 1);
      assert Follows(states, actions, n - 1);
      StepLookup(states[n - 1], actions[n - 1], key);
      if actions[n - 1].Sync? {
        ResentAppend(Lookup(states[0], key).value, SentIn(actions, n - 1), actions[n - 1].batch, key);
        ResentId(Lookup(states[n - 1], key).value, actions[n - 1].batch, key);
      } else {
        assert SentIn(actions, n) == SentIn(actions, n - 1);
      }
    }
  }

  /** While its row is neither edited nor removed, a category the user chose is never undone, nor is
      anything else the user set on that row, however often the provider sends the transaction again. */
  lemma RunKeepsChoices(states: seq<seq<Transaction>>, actions: seq<Action>, key: Key, n: nat)
    requires Run(states, actions) && LeftAlone(states, actions, key, n)
    requires UserChose(Lookup(states[0], key).value)
    ensures SameChoices(Lookup(states[0], key).value, Lookup(states[n], key).value)
  {
    RunRow(states, actions, key, n);
    ResentKeepsChoices(Lookup(states[0], key).value, SentIn(actions, n), key);
  }

  // ---------------------------------------------------------------- what the user notes on a row

  /** What `updatePreferences` sets without touching the category. */
  datatype Private = Private(
    merchantOverride: Option<string>, note: Option<string>, excludedFromAnalytics: Option<bool>)

  function PrivateOf(t: Transaction): Private {
    Private(t.merchantOverride, t.note, t.excludedFromAnalytics)
  }

  /** The first row sent with this key whose category the user chose, or else the last one sent. */
  ghost predicate Decides(batch: seq<Transaction>, key: Key, i: nat) {
    && i < |batch| && KeyOf(batch[i]) == key
    && (forall j :: 0 <= j < i && KeyOf(batch[j]) == key ==> !UserChose(batch[j]))
    && (UserChose(batch[i]) || forall j :: i < j < |batch| ==> KeyOf(batch[j]) != key)
  }

  ghost predicate Absent(batch: seq<Transaction>, key: Key) {
    forall i :: 0 <= i < |batch| ==> KeyOf(batch[i]) != key
  }

  lemma {:induction false} ResentAbsent(e: Transaction, batch: seq<Transaction>, key: Key)
    requires Absent(batch, key)
    ensures Resent(e, batch, key) == e
    decreases batch
  {
    if batch != [] { ResentAbsent(e, batch[1..], key); }
  }

  lemma {:induction false} SomeDecides(batch: seq<Transaction>, key: Key) returns (i: nat)
    requires !Absent(batch, key)
    ensures Decides(batch, key, i)
  {
    if KeyOf(batch[0]) == key && (UserChose(batch[0]) || Absent(batch[1..], key)) {
      i := 0;
    } else {
      i := SomeDecides(batch[1..], key);
      i := i + 1;
    }
  }

  /** The user's notes on a row are those of the row that decides, unless its category was chosen. */
  lemma {:induction false} DecidedPrivate(e: Transaction, batch: seq<Transaction>, key: Key, i: nat)
    requires Decides(batch, key, i)
    ensures PrivateOf(Resent(e, batch, key)) == PrivateOf(if UserChose(e) then e else batch[i])
    decreases batch
  {
    var merged := if KeyOf(batch[0]) == key then Merge(e, batch[0]) else e;
    if UserChose(e) {
      ResentKeepsChoices(e, batch, key);
    } else if i > 0 {
      DecidedPrivate(merged, batch[1..], key, i - 1);
    } else if UserChose(batch[0]) {
      ResentKeepsChoices(merged, batch[1..], key);
    } else {
      ResentAbsent(merged, batch[1..], key);
    }
  }

  /** Whether sending `batch` again leaves the user's notes on a row as they are. */
  ghost predicate Respects(e: Transaction, batch: seq<Transaction>, key: Key) {
    UserChose(e) || forall i: nat :: Decides(batch, key, i) ==> PrivateOf(batch[i]) == PrivateOf(e)
  }

  lemma ResentPrivate(e: Transaction, batch: seq<Transaction>, key: Key)
    ensures PrivateOf(Resent(e, batch, key)) == PrivateOf(e) <==> Respects(e, batch, key)
  {
    if Absent(batch, key) {
      ResentAbsent(e, batch, key);
    } else {
      var i := SomeDecides(batch, key);
      DecidedPrivate(e, batch, key, i);
      forall j: nat | Decides(batch, key, j)
        ensures PrivateOf(Resent(e, batch, key)) == PrivateOf(if UserChose(e) then e else batch[j])
      {
        DecidedPrivate(e, batch, key, j);
      }
    }
  }

  /** A sync keeps the note, the merchant name and the exclusion of a row if and only if the user chose
      its category, or the row that decides in the batch, if there is one, carries the same three. */
  lemma SyncKeepsPrivateExactly(rows: seq<Transaction>, batch: seq<Transaction>, key: Key)
    requires Lookup(rows, key).Some?
    ensures var before, after := Lookup(rows, key).value, Lookup(UpsertAll(rows, batch), key);
            after.Some? && (PrivateOf(after.value) == PrivateOf(before) <==> Respects(before, batch, key))
  {
    SyncLookup(rows, batch, key);
    ResentPrivate(Lookup(rows, key).value, batch, key);
  }

  /** The same over a run, with everything sent in it. */
  lemma RunKeepsPrivateExactly(states: seq<seq<Transaction>>, actions: seq<Action>, key: Key, n: nat)
    requires Run(states, actions) && LeftAlone(states, actions, key, n)
    ensures var before, after := Lookup(states[0], key).value, Lookup(states[n], key).value;
            PrivateOf(after) == PrivateOf(before) <==> Respects(before, SentIn(actions, n), key)
  {
    RunRow(states, actions, key, n);
    ResentPrivate(Lookup(states[0], key).value, SentIn(actions, n), key);
  }

  /** `updatePreferences` with a note only. */
  function NotePatch(text: string): Patch {
    Patch(None, None, None, Some(Some(text)), None, None, None, None, None, None)
  }

  /** A note on a row whose category the user did not choose is gone when the provider, which sends no
      notes, sends the transaction again. */
  lemma NoteIsErased(e: Transaction, t: Transaction, text: string)
    requires KeyOf(e) == KeyOf(t) && !UserChose(e) && t.note == None
    ensures var noted := After([e], Edit(e.id, NotePatch(text)));
            && Lookup(noted, KeyOf(e)).Some? && Lookup(noted, KeyOf(e)).value.note == Some(text)
            && Lookup(After(noted, Sync([t])), KeyOf(e)).Some?
            && Lookup(After(noted, Sync([t])), KeyOf(e)).value.note == None
  {
    var noted := Patched(e, NotePatch(text));
    assert [e][0 := noted] == [noted];
    assert After([e], Edit(e.id, NotePatch(text))) == [noted];
    UpsertLookup([noted], t, KeyOf(e));
    assert UpsertAll([noted], [t]) == UpsertAll(Upsert([noted], t), []);
  }

  // ---------------------------------------------------------------- sending a batch twice

  ghost predicate KeysDistinct(batch: seq<Transaction>) {
    forall i, j :: 0 <= i < j < |batch| ==> KeyOf(batch[i]) != KeyOf(batch[j])
  }

  lemma {:induction false} BatchSkips(rows: seq<Transaction>, batch: seq<Transaction>, key: Key)
    requires Absent(batch, key)
    ensures Lookup(UpsertAll(rows, batch), key) == Lookup(rows, key)
    decreases batch
  {
    if batch != [] {
      UpsertLookup(rows, batch[0], key);
      BatchSkips(Upsert(rows, batch[0]), batch[1..], key);
    }
  }

  /** The row of one member of a batch afterwards. */
  lemma {:induction false} BatchLookup(rows: seq<Transaction>, batch: seq<Transaction>, i: nat)
    requires KeysDistinct(batch) && i < |batch|
    ensures var before, after := Lookup(rows, KeyOf(batch[i])), Lookup(UpsertAll(rows, batch), KeyOf(batch[i]));
            after == Some(if before.Some? then Merge(before.value, batch[i]) else batch[i])
    decreases batch
  {
    UpsertLookup(rows, batch[0], KeyOf(batch[i]));
    if i == 0 {
      BatchSkips(Upsert(rows, batch[0]), batch[1..], KeyOf(batch[0]));
    } else {
      assert KeyOf(batch[0]) != KeyOf(batch[i]) && batch[1..][i - 1] == batch[i];
      BatchLookup(Upsert(rows, batch[0]), batch[1..], i - 1);
    }
  }

  /** What the provider says about a transaction, and what only the user says about it. */
  ghost predicate SameEvidence(a: Transaction, b: Transaction) {
    && KeyOf(a) == KeyOf(b) && a.postedAt == b.postedAt && a.amount == b.amount && a.pending == b.pending
    && a.provided == b.provided && a.importBatchId == b.importBatchId
  }

  ghost predicate SameMarks(a: Transaction, b: Transaction) {
    a.id == b.id && a.recurringOverride == b.recurringOverride && a.duplicateReported == b.duplicateReported
      && a.tags == b.tags
  }

  /** After a sync every row of the batch shows what the provider sent, under the id and with the
      marks it had before; rows not in the batch are untouched. */
  lemma SyncShowsEvidence(rows: seq<Transaction>, batch: seq<Transaction>, key: Key)
    requires KeysDistinct(batch)
    ensures var before, after := Lookup(rows, key), Lookup(UpsertAll(rows, batch), key);
            && (forall t :: t in batch && KeyOf(t) == key ==> after.Some? && SameEvidence(after.value, t))
            && (before.Some? ==> after.Some? && SameMarks(before.value, after.value))
            && ((forall t :: t in batch ==> KeyOf(t) != key) ==> after == before)
  {
    if i :| 0 <= i < |batch| && KeyOf(batch[i]) == key {
      BatchLookup(rows, batch, i);
      assert batch[i] in batch;
      forall t | t in batch && KeyOf(t) == key ensures t == batch[i] {
        var j :| 0 <= j < |batch| && batch[j] == t;
      }
    } else {
      BatchSkips(rows, batch, key);
    }
  }

  /** Sending `t` again changes nothing. */
  ghost predicate Settled(rows: seq<Transaction>, t: Transaction) {
    Lookup(rows, KeyOf(t)).Some? && Merge(Lookup(rows, KeyOf(t)).value, t) == Lookup(rows, KeyOf(t)).value
  }

  lemma {:induction false} SettledBatch(rows: seq<Transaction>, batch: seq<Transaction>)
    requires forall t :: t in batch ==> Settled(rows, t)
    ensures UpsertAll(rows, batch) == rows
    decreases batch
  {
    if batch != [] {
      assert Settled(rows, batch[0]);
      assert Upsert(rows, batch[0]) == rows;
      SettledBatch(rows, batch[1..]);
    }
  }

  lemma {:induction false} NothingNew(rows: seq<Transaction>, batch: seq<Transaction>)
    requires forall t :: t in batch ==> Lookup(rows, KeyOf(t)).Some?
    ensures Inserted(rows, batch) == 0
    decreases batch
  {
    if batch != [] {
      assert batch[0] in batch;
      forall t | t in batch[1..] ensures Lookup(Upsert(rows, batch[0]), KeyOf(t)).Some? {
        UpsertLookup(rows, batch[0], KeyOf(t));
        assert t in batch;
      }
      NothingNew(Upsert(rows, batch[0]), batch[1..]);
    }
  }

  /** `isRecurring` says what the override says. */
  predicate Coherent(t: Transaction) {
    t.recurringOverride.Some? ==> t.isRecurring == t.recurringOverride.value
  }

  lemma OnceSettled(rows: seq<Transaction>, batch: seq<Transaction>, t: Transaction)
    requires KeysDistinct(batch) && t in batch
    ensures Lookup(UpsertAll(rows, batch), KeyOf(t)).Some?
    ensures Settled(UpsertAll(rows, batch), t) <==> (Lookup(rows, KeyOf(t)).None? ==> Coherent(t))
  {
    var i :| 0 <= i < |batch| && batch[i] == t;
    BatchLookup(rows, batch, i);
  }

  lemma UnchangedIsSettled(once: seq<Transaction>, batch: seq<Transaction>, t: Transaction)
    requires KeysDistinct(batch) && t in batch && UpsertAll(once, batch) == once && Lookup(once, KeyOf(t)).Some?
    ensures Settled(once, t)
  {
    var i :| 0 <= i < |batch| && batch[i] == t;
    BatchLookup(once, batch, i);
  }

  /** Repeating a batch inserts nothing, and leaves the store as it is exactly when the rows the
      first sending inserted are coherent. */
  lemma RepeatedBatch(rows: seq<Transaction>, batch: seq<Transaction>)
    requires KeysDistinct(batch)
    ensures var once := UpsertAll(rows, batch);
            && Inserted(once, batch) == 0
            && (UpsertAll(once, batch) == once
                <==> forall t :: t in batch && Lookup(rows, KeyOf(t)).None? ==> Coherent(t))
  {
    var once := UpsertAll(rows, batch);
    forall t | t in batch
      ensures Lookup(once, KeyOf(t)).Some?
      ensures Settled(once, t) <==> (Lookup(rows, KeyOf(t)).None? ==> Coherent(t))
    {
      OnceSettled(rows, batch, t);
    }
    NothingNew(once, batch);
    if UpsertAll(once, batch) == once {
      forall t | t in batch ensures Settled(once, t) { UnchangedIsSettled(once, batch, t); }
    }
    if forall t :: t in batch && Lookup(rows, KeyOf(t)).None? ==> Coherent(t) { SettledBatch(once, batch); }
  }

  // ---------------------------------------------------------------- undoing an import

  function KeysOf(batch: seq<Transaction>): set<Key> {
    set t | t in batch :: KeyOf(t)
  }

  /** The rows an undo spares that the batch did not carry. */
  function Untouched(batch: seq<Transaction>, removal: Removal): Transaction -> bool {
    t => Spares(removal, t) && KeyOf(t) !in KeysOf(batch)
  }

  lemma {:induction false} WhereAppend(rows: seq<Transaction>, t: Transaction, keep: Transaction -> bool)
    ensures Where(rows + [t], keep) == Where(rows, keep) + (if keep(t) then [t] else [])
  {
    if rows == [] {
      assert rows + [t] == [t];
    } else {
      assert (rows + [t])[1..] == rows[1..] + [t];
      WhereAppend(rows[1..], t, keep);
    }
  }

  /** Two filters that differ on row `k` only, which goes either way. */
  lemma {:induction false} WhereReplaced(rows: seq<Transaction>, k: nat, t: Transaction,
                                         now: Transaction -> bool, before: Transaction -> bool)
    requires k < |rows| && !now(t) && !before(rows[k])
    requires forall i :: 0 <= i < |rows| && i != k ==> now(rows[i]) == before(rows[i])
    ensures Where(rows[k := t], now) == Where(rows, before)
  {
    if k == 0 {
      assert rows[k := t][1..] == rows[1..];
      WhereAlike(rows[1..], now, before);
    } else {
      assert rows[k := t][1..] == rows[1..][k - 1 := t];
      WhereReplaced(rows[1..], k - 1, t, now, before);
    }
  }

  lemma {:induction false} WhereAlike(rows: seq<Transaction>, p: Transaction -> bool, q: Transaction -> bool)
    requires forall i :: 0 <= i < |rows| ==> p(rows[i]) == q(rows[i])
    ensures Where(rows, p) == Where(rows, q)
  {
    if rows != [] { WhereAlike(rows[1..], p, q); }
  }

  lemma KeysOfFirst(batch: seq<Transaction>)
    requires batch != []
    ensures KeysOf(batch) == {KeyOf(batch[0])} + KeysOf(batch[1..])
  {
    assert batch == [batch[0]] + batch[1..];
  }

  lemma UndoOne(rows: seq<Transaction>, batch: seq<Transaction>, removal: Removal)
    requires KeysUnique(rows) && batch != [] && !Spares(removal, batch[0]) && removal.ByImportBatch?
    ensures Where(Upsert(rows, batch[0]), Untouched(batch[1..], removal)) == Where(rows, Untouched(batch, removal))
  {
    var t := batch[0];
    var now, before := Untouched(batch[1..], removal), Untouched(batch, removal);
    var k := IndexOf(rows, KeyOf(t));
    KeysOfFirst(batch);
    if k < |rows| {
      WhereReplaced(rows, k, Merge(rows[k], t), now, before);
    } else {
      WhereAppend(rows, t, now);
      WhereAlike(rows, now, before);
    }
  }

  /** Undoing an import just made leaves the rows whose keys it did not carry, and no others: a row it
      found is gone with it. */
  lemma {:induction false} UndoLeaves(rows: seq<Transaction>, batch: seq<Transaction>, id: string)
    requires KeysUnique(rows) && forall t :: t in batch ==> t.importBatchId == Some(id)
    ensures Where(UpsertAll(rows, batch), Survivors(ByImportBatch(id)))
         == Where(rows, Untouched(batch, ByImportBatch(id)))
    decreases batch
  {
    var removal := ByImportBatch(id);
    if batch == [] {
      WhereAlike(rows, Survivors(removal), Untouched(batch, removal));
    } else {
      assert batch[0] in batch && forall t :: t in batch[1..] ==> t in batch;
      UpsertUnique(rows, batch[0]);
      UndoLeaves(Upsert(rows, batch[0]), batch[1..], id);
      UndoOne(rows, batch, removal);
    }
  }

  lemma {:induction false} WhereEvery(rows: seq<Transaction>, keep: Transaction -> bool)
    requires forall i :: 0 <= i < |rows| ==> keep(rows[i])
    ensures Where(rows, keep) == rows
  {
    if rows != [] { WhereEvery(rows[1..], keep); }
  }

  lemma WhereAll(rows: seq<Transaction>, keep: Transaction -> bool)
    ensures Where(rows, keep) == rows <==> forall t :: t in rows ==> keep(t)
  {
    WhereMembers(rows, keep);
    if forall t :: t in rows ==> keep(t) { WhereEvery(rows, keep); }
  }

  /** It restores the ledger if and only if no row was held under one of its keys, or under its id. */
  lemma UndoRestoresExactly(rows: seq<Transaction>, batch: seq<Transaction>, id: string)
    requires KeysUnique(rows) && forall t :: t in batch ==> t.importBatchId == Some(id)
    ensures Where(UpsertAll(rows, batch), Survivors(ByImportBatch(id))) == rows
       <==> forall e :: e in rows ==> KeyOf(e) !in KeysOf(batch) && e.importBatchId != Some(id)
  {
    UndoLeaves(rows, batch, id);
    WhereAll(rows, Untouched(batch, ByImportBatch(id)));
  }

  /** So it takes away a row that came from elsewhere, if the import held the same transaction. */
  lemma UndoReachesOthers(e: Transaction, t: Transaction, id: string)
    requires KeyOf(e) == KeyOf(t) && e.importBatchId != Some(id) && t.importBatchId == Some(id)
    ensures Where(UpsertAll([e], [t]), Survivors(ByImportBatch(id))) == []
  {
    UndoLeaves([e], [t], id);
    assert t in [t] && [e][1..] == [];
  }
}
