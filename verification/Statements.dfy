/** The statement-import job store: apps/api/src/infra/statement-import-store.ts. Times are
    milliseconds. An encrypted source is ASCII text, one byte to a character. */
module Statements {
  import opened Common
  import opened Sorting

  datatype Status = Queued | Processing | Ready | Approved | Failed | Deleted

  datatype Decision = Include | Exclude | NeedsReview

  datatype Row = Row(
    id: string, importId: string, content: string, flags: seq<string>, decision: Decision, editedAt: Option<int>)

  datatype RowPatch = RowPatch(content: Option<string>, flags: Option<seq<string>>, decision: Option<Decision>)

  datatype EventKind =
    | Created | Processed | RowEdited | RowSplit | RowsMerged | Approval | SourceDeleted | Deletion | Failure

  datatype Event = Event(id: string, importId: string, kind: EventKind, createdAt: int)

  datatype Counts = Counts(total: nat, included: nat, excluded: nat, needsReview: nat)

  datatype Statement = Statement(
    id: string, accountId: string, statementHash: string, status: Status, counts: Counts, createdAt: int,
    processedAt: Option<int>, approvedAt: Option<int>, sourceDeletedAt: Option<int>, error: Option<string>,
    encryptedSource: Option<string>, rows: seq<Row>, events: seq<Event>, attempts: nat,
    processingStartedAt: Option<int>, sourceExpiresAt: Option<int>)

  const MAX_STAGED_SOURCE_BYTES := 64 * 1024 * 1024
  const MAX_ACTIVE_IMPORTS := 5
  const SOURCE_RETENTION_MS := 90 * 24 * 60 * 60 * 1000
  const STALE_MS := 5 * 60_000
  const MAX_ATTEMPTS := 3

  // ---------------------------------------------------------------- derived values

  function CountOf(rows: seq<Row>, decision: Decision): nat {
    if rows == [] then 0 else (if rows[0].decision == decision then 1 else 0) + CountOf(rows[1..], decision)
  }

  function Tally(rows: seq<Row>): Counts {
    Counts(|rows|, CountOf(rows, Include), CountOf(rows, Exclude), CountOf(rows, NeedsReview))
  }

  /** The three decisions partition the rows. */
  lemma {:induction false} TallyPartitions(rows: seq<Row>)
    ensures var c := Tally(rows); c.total == c.included + c.excluded + c.needsReview
  {
    if rows != [] { TallyPartitions(rows[1..]); }
  }

  function Recalculate(s: Statement): Statement {
    s.(counts := Tally(s.rows))
  }

  predicate HasSource(s: Statement) {
    s.encryptedSource.Some? && s.encryptedSource.value != ""
  }

  predicate Active(s: Statement) {
    s.status == Queued || s.status == Processing
  }

  function Bytes(bucket: seq<Statement>): nat {
    if bucket == [] then 0
    else (if HasSource(bucket[0]) then |bucket[0].encryptedSource.value| else 0) + Bytes(bucket[1..])
  }

  function ActiveCount(bucket: seq<Statement>): nat {
    if bucket == [] then 0 else (if Active(bucket[0]) then 1 else 0) + ActiveCount(bucket[1..])
  }

  predicate QuotaAllows(bucket: seq<Statement>, encryptedSource: string, countActive: bool) {
    && Bytes(bucket) + |encryptedSource| <= MAX_STAGED_SOURCE_BYTES
    && (countActive ==> ActiveCount(bucket) < MAX_ACTIVE_IMPORTS)
  }

  predicate Clashes(a: Statement, b: Statement) {
    && a.accountId == b.accountId && a.statementHash == b.statementHash
    && a.status != Deleted && a.status != Failed
  }

  predicate IsDuplicate(bucket: seq<Statement>, s: Statement) {
    exists k :: 0 <= k < |bucket| && Clashes(bucket[k], s)
  }

  /** Index of the first statement with this id, or the length. */
  function Find(bucket: seq<Statement>, id: string): (k: nat)
    ensures k <= |bucket| && (k < |bucket| ==> bucket[k].id == id)
    ensures forall j :: 0 <= j < k ==> bucket[j].id != id
  {
    if bucket == [] || bucket[0].id == id then 0 else 1 + Find(bucket[1..], id)
  }

  function FindRow(rows: seq<Row>, id: string): (k: nat)
    ensures k <= |rows| && (k < |rows| ==> rows[k].id == id)
    ensures forall j :: 0 <= j < k ==> rows[j].id != id
  {
    if rows == [] || rows[0].id == id then 0 else 1 + FindRow(rows[1..], id)
  }

  function Selected(rows: seq<Row>, ids: seq<string>): seq<Row> {
    if rows == [] then [] else (if rows[0].id in ids then [rows[0]] else []) + Selected(rows[1..], ids)
  }

  // ---------------------------------------------------------------- operations on one statement

  datatype Edit =
    | Complete(newRows: seq<Row>, at: int, event: Event)
    | Fail(error: string, at: int, event: Event)
    | UpdateRow(rowId: string, patch: RowPatch, event: Event)
    | Decide(rowIds: seq<string>, decision: Decision, event: Event)
    | SplitRow(rowId: string, parts: seq<Row>, event: Event)
    | MergeRows(rowIds: seq<string>, merged: Row, event: Event)
    | DeleteSource(at: int, event: Event)
    | Delete(at: int, event: Event)

  predicate Applies(s: Statement, edit: Edit) {
    match edit
    case Complete(_, _, _) => s.status == Processing
    case Fail(_, _, _) => s.status == Processing
    case UpdateRow(rowId, _, _) => s.status == Ready && FindRow(s.rows, rowId) < |s.rows|
    case Decide(rowIds, _, _) => s.status == Ready && rowIds != [] && |Selected(s.rows, rowIds)| == |rowIds|
    case SplitRow(rowId, _, _) => s.status == Ready && FindRow(s.rows, rowId) < |s.rows|
    case MergeRows(rowIds, _, _) => s.status == Ready && |rowIds| >= 2 && |Selected(s.rows, rowIds)| == |rowIds|
    case DeleteSource(_, _) => s.status != Deleted
    case Delete(_, _) => s.status != Deleted
  }

  function Patched(row: Row, importId: string, patch: RowPatch, at: int): Row {
    Row(row.id, importId, if patch.content.Some? then patch.content.value else row.content,
        if patch.flags.Some? then patch.flags.value else row.flags,
        if patch.decision.Some? then patch.decision.value else row.decision, Some(at))
  }

  function Decided(rows: seq<Row>, ids: seq<string>, decision: Decision, at: int): (r: seq<Row>)
    ensures |r| == |rows|
  {
    seq(|rows|, i requires 0 <= i < |rows| =>
      if rows[i].id in ids then rows[i].(decision := decision, editedAt := Some(at)) else rows[i])
  }

  function Retired(row: Row, flag: string, at: int): Row {
    row.(decision := Exclude, flags := row.flags + [flag], editedAt := Some(at))
  }

  function MergedAway(rows: seq<Row>, ids: seq<string>, at: int): (r: seq<Row>)
    ensures |r| == |rows|
  {
    seq(|rows|, i requires 0 <= i < |rows| =>
      if rows[i].id in ids then Retired(rows[i], "merged_parent", at) else rows[i])
  }

  function Truncated(text: string): string {
    if |text| <= 500 then text else text[..500]
  }

  function Logged(s: Statement, event: Event): Statement {
    s.(events := s.events + [event])
  }

  function Edited(s: Statement, edit: Edit): Statement
    requires Applies(s, edit)
  {
    match edit
    case Complete(rows, at, event) =>
      Logged(Recalculate(s.(rows := rows, status := Ready, processedAt := Some(at), error := None,
                            processingStartedAt := None)), event)
    case Fail(error, at, event) =>
      Logged(s.(status := Failed, error := Some(Truncated(error)), processingStartedAt := None,
                processedAt := Some(at)), event)
    case UpdateRow(rowId, patch, event) =>
      var k := FindRow(s.rows, rowId);
      Logged(Recalculate(s.(rows := s.rows[k := Patched(s.rows[k], s.id, patch, event.createdAt)])), event)
    case Decide(rowIds, decision, event) =>
      Logged(Recalculate(s.(rows := Decided(s.rows, rowIds, decision, event.createdAt))), event)
    case SplitRow(rowId, parts, event) =>
      var k := FindRow(s.rows, rowId);
      Logged(Recalculate(s.(rows := s.rows[k := Retired(s.rows[k], "split_parent", event.createdAt)] + parts)), event)
    case MergeRows(rowIds, merged, event) =>
      Logged(Recalculate(s.(rows := MergedAway(s.rows, rowIds, event.createdAt) + [merged])), event)
    case DeleteSource(at, event) =>
      Logged(s.(encryptedSource := None, sourceDeletedAt := Some(at)), event)
    case Delete(at, event) =>
      Logged(s.(status := Deleted, processingStartedAt := None, sourceDeletedAt := Some(at)), event.(createdAt := at))
  }

  /** The second half of `finalize`, which checks nothing. */
  function ApprovedBy(s: Statement, event: Event): Statement {
    Logged(s.(status := Approved, processingStartedAt := None, approvedAt := Some(event.createdAt)), event)
  }

  // ---------------------------------------------------------------- claiming

  predicate Expired(s: Statement, now: int) {
    HasSource(s) && s.sourceExpiresAt.Some? && s.sourceExpiresAt.value <= now
  }

  predicate Stale(s: Statement, now: int) {
    s.status == Processing && s.processingStartedAt.Some? && s.processingStartedAt.value < now - STALE_MS
  }

  predicate Exhausted(s: Statement, now: int) {
    Stale(s, now) && s.attempts >= MAX_ATTEMPTS
  }

  function Expire(s: Statement, now: int): Statement {
    var gone := Logged(s.(encryptedSource := None, sourceDeletedAt := Some(now), sourceExpiresAt := None),
                       Event("evt_source_expired_" + s.id, s.id, SourceDeleted, now));
    if Active(s) then
      gone.(status := Failed, error := Some("The encrypted source retention period expired."),
            processingStartedAt := None, processedAt := Some(now))
    else gone
  }

  function Exhaust(s: Statement, now: int): Statement {
    Logged(s.(status := Failed, error := Some("The statement job exceeded the retry limit."),
              encryptedSource := None, sourceDeletedAt := Some(now), sourceExpiresAt := None,
              processingStartedAt := None),
           Event("evt_retry_exhausted_" + s.id, s.id, Failure, now))
  }

  function Sweep(s: Statement, now: int): Statement {
    if Expired(s, now) then Expire(s, now)
    else if Exhausted(s, now) then Exhaust(s, now)
    else s
  }

  predicate Claimable(s: Statement, now: int) {
    (s.status == Queued && s.encryptedSource.Some?) || Stale(s, now)
  }

  function Claimed(s: Statement, now: int): Statement {
    s.(status := Processing, processingStartedAt := Some(now), attempts := s.attempts + 1)
  }

  /** A JavaScript `Map`: its keys in insertion order, and what they are mapped to. */
  datatype Store = Store(users: seq<string>, byUser: map<string, seq<Statement>>)

  ghost predicate Valid(store: Store) {
    && (forall u :: u in store.users <==> u in store.byUser)
    && (forall i, j :: 0 <= i < j < |store.users| ==> store.users[i] != store.users[j])
  }

  /** Where a statement is stored. */
  datatype Slot = Slot(user: string, index: nat)

  predicate InStore(store: Store, slot: Slot) {
    slot.user in store.byUser && slot.index < |store.byUser[slot.user]|
  }

  function At(store: Store, slot: Slot): Statement
    requires InStore(store, slot)
  {
    store.byUser[slot.user][slot.index]
  }

  function SweptBucket(bucket: seq<Statement>, now: int): (r: seq<Statement>)
    ensures |r| == |bucket|
  {
    seq(|bucket|, k requires 0 <= k < |bucket| => Sweep(bucket[k], now))
  }

  function Swept(store: Store, now: int): Store {
    Store(store.users, map u | u in store.byUser :: SweptBucket(store.byUser[u], now))
  }

  /** The claimable slots of the first `n` statements of one bucket. */
  function ClaimableIn(user: string, bucket: seq<Statement>, n: nat, now: int): seq<Slot>
    requires n <= |bucket|
  {
    if n == 0 then []
    else ClaimableIn(user, bucket, n - 1, now) + (if Claimable(bucket[n - 1], now) then [Slot(user, n - 1)] else [])
  }

  function ClaimableOf(users: seq<string>, byUser: map<string, seq<Statement>>, now: int): seq<Slot>
    requires forall u :: u in users ==> u in byUser
  {
    if users == [] then []
    else
      var last := users[|users| - 1];
      ClaimableOf(users[..|users| - 1], byUser, now) + ClaimableIn(last, byUser[last], |byUser[last]|, now)
  }

  function CreatedAt(store: Store, slot: Slot): int {
    if InStore(store, slot) then At(store, slot).createdAt else 0
  }

  function NoNewer(store: Store): (Slot, Slot) -> bool {
    (a, b) => CreatedAt(store, a) <= CreatedAt(store, b)
  }

  /** What one claim takes from a store that has been swept: the oldest claimable statements. */
  function Batch(store: Store, limit: int, now: int): seq<Slot>
    requires Valid(store)
  {
    Sliced(SortBy(NoNewer(store), ClaimableOf(store.users, store.byUser, now)), limit)
  }

  function BatchSize(limit: int): nat {
    var capped := if limit < 100 then limit else 100;
    if capped > 1 then capped else 1
  }

  function Sliced(slots: seq<Slot>, limit: int): seq<Slot> {
    if |slots| <= BatchSize(limit) then slots else slots[..BatchSize(limit)]
  }

  function Marked(store: Store, slots: seq<Slot>, now: int): Store {
    Store(store.users, map u | u in store.byUser ::
      seq(|store.byUser[u]|, k requires 0 <= k < |store.byUser[u]| =>
        if Slot(u, k) in slots then Claimed(store.byUser[u][k], now) else store.byUser[u][k]))
  }

  function Claim(store: Store, limit: int, now: int): Store
    requires Valid(store)
  {
    Marked(Swept(store, now), Batch(Swept(store, now), limit, now), now)
  }

  // ---------------------------------------------------------------- one step of the store

  /** `bucket`: reading a user's list creates it. */
  function Opened(store: Store, user: string): (r: Store)
    ensures user in r.byUser
  {
    if user in store.byUser then store else Store(store.users + [user], store.byUser[user := []])
  }

  function Replaced(store: Store, user: string, bucket: seq<Statement>): Store {
    Store(store.users, store.byUser[user := bucket])
  }

  function Expiry(createdAt: int): int {
    createdAt + SOURCE_RETENTION_MS
  }

  function Staged(s: Statement, encryptedSource: string, rows: seq<Row>, events: seq<Event>): Statement {
    s.(encryptedSource := Some(encryptedSource), rows := rows, events := events, attempts := 0,
       processingStartedAt := None, sourceExpiresAt := Some(Expiry(s.createdAt)))
  }

  function CreationEvent(s: Statement): Event {
    Event("evt_" + s.id + "_created", s.id, Created, s.createdAt)
  }

  function ProcessedEvent(s: Statement): Event {
    Event("evt_" + s.id + "_processed", s.id, Processed,
          if s.processedAt.Some? then s.processedAt.value else s.createdAt)
  }

  function Without(users: seq<string>, user: string): seq<string> {
    if users == [] then [] else (if users[0] == user then [] else [users[0]]) + Without(users[1..], user)
  }

  datatype Action =
    | Creating(user: string, statement: Statement, encryptedSource: string, rows: seq<Row>)
    | Enqueuing(user: string, statement: Statement, encryptedSource: string)
    | Claiming(limit: int, now: int)
    | Editing(user: string, id: string, edit: Edit)
    | Approving(slot: Slot, event: Event)
    | Looking(user: string)
    | Purging(user: string)

  function AfterAdd(store: Store, user: string, s: Statement, encryptedSource: string, countActive: bool): Store {
    var o := Opened(store, user);
    var bucket := o.byUser[user];
    if QuotaAllows(bucket, encryptedSource, countActive) && !IsDuplicate(bucket, s)
    then Replaced(o, user, bucket + [s]) else o
  }

  function AfterEdit(store: Store, user: string, id: string, edit: Edit): Store {
    var o := Opened(store, user);
    var bucket := o.byUser[user];
    var k := Find(bucket, id);
    if k < |bucket| && Applies(bucket[k], edit) then Replaced(o, user, bucket[k := Edited(bucket[k], edit)]) else o
  }

  /** `finalize` writes to the statement it found before it awaited the ledger, whatever has become
      of it since. */
  function AfterApproval(store: Store, slot: Slot, event: Event): Store {
    if InStore(store, slot) then
      var bucket := store.byUser[slot.user];
      Replaced(store, slot.user, bucket[slot.index := ApprovedBy(bucket[slot.index], event)])
    else store
  }

  /** What `finalize` finds: a ready import, and where it is. */
  function ReadyAt(store: Store, user: string, id: string): Option<Slot> {
    if user !in store.byUser then None
    else
      var bucket := store.byUser[user];
      var k := Find(bucket, id);
      if k < |bucket| && bucket[k].status == Ready then Some(Slot(user, k)) else None
  }

  function Next(store: Store, action: Action): Store
    requires Valid(store)
  {
    match action
    case Creating(user, s, source, rows) =>
      AfterAdd(store, user, Staged(s, source, rows, [CreationEvent(s), ProcessedEvent(s)]), source, false)
    case Enqueuing(user, s, source) =>
      AfterAdd(store, user, Staged(s, source, [], [CreationEvent(s)]), source, true)
    case Claiming(limit, now) => Claim(store, limit, now)
    case Editing(user, id, edit) => AfterEdit(store, user, id, edit)
    case Approving(slot, event) => AfterApproval(store, slot, event)
    case Looking(user) => Opened(store, user)
    case Purging(user) => Store(Without(store.users, user), store.byUser - {user})
  }

  // ---------------------------------------------------------------- the class

  datatype Added = Stored(statement: Statement) | QuotaExceeded | DuplicateStatement

  datatype Job = Job(id: string, userId: string, accountId: string, attempts: nat)

  function JobOf(store: Store, slot: Slot): Job
    requires InStore(store, slot)
  {
    var s := At(store, slot);
    Job(s.id, slot.user, s.accountId, s.attempts + 1)
  }

  /** What `assertQuota` and the duplicate check say. */
  function Verdict(bucket: seq<Statement>, s: Statement, encryptedSource: string, countActive: bool): Added {
    if !QuotaAllows(bucket, encryptedSource, countActive) then QuotaExceeded
    else if IsDuplicate(bucket, s) then DuplicateStatement
    else Stored(s)
  }

  function JobsOf(store: Store, slots: seq<Slot>): seq<Job> {
    if slots == [] then []
    else
      var last := slots[|slots| - 1];
      JobsOf(store, slots[..|slots| - 1]) + (if InStore(store, last) then [JobOf(store, last)] else [])
  }

  function PrefixSwept(bucket: seq<Statement>, n: nat, now: int): (r: seq<Statement>)
    ensures |r| == |bucket|
  {
    seq(|bucket|, k requires 0 <= k < |bucket| => if k < n then Sweep(bucket[k], now) else bucket[k])
  }

  lemma SweepOne(bucket: seq<Statement>, n: nat, now: int)
    ensures n < |bucket| ==> PrefixSwept(bucket, n + 1, now) == PrefixSwept(bucket, n, now)[n := Sweep(bucket[n], now)]
    ensures PrefixSwept(bucket, 0, now) == bucket && PrefixSwept(bucket, |bucket|, now) == SweptBucket(bucket, now)
  {}

  function PartlySwept(store: Store, done: seq<string>, now: int): map<string, seq<Statement>> {
    map u | u in store.byUser :: if u in done then SweptBucket(store.byUser[u], now) else store.byUser[u]
  }

  /** The claimable slots of the first `n` users. */
  function Gathered(store: Store, n: nat, now: int): seq<Slot>
    requires n <= |store.users| && forall u :: u in store.users ==> u in store.byUser
  {
    ClaimableOf(store.users[..n], store.byUser, now)
  }

  lemma GatherOne(store: Store, n: nat, now: int)
    requires Valid(store)
    ensures Gathered(store, 0, now) == []
    ensures Gathered(store, |store.users|, now) == ClaimableOf(store.users, store.byUser, now)
    ensures n < |store.users| ==> var u := store.users[n];
            Gathered(store, n + 1, now)
              == Gathered(store, n, now) + ClaimableIn(u, store.byUser[u], |store.byUser[u]|, now)
  {
    assert store.users[..|store.users|] == store.users;
    if n < |store.users| { assert store.users[..n + 1][..n] == store.users[..n]; }
  }

  /** The first `n` users' statements swept. */
  function SweptUpto(store: Store, n: nat, now: int): Store
    requires n <= |store.users|
  {
    Store(store.users, PartlySwept(store, store.users[..n], now))
  }

  lemma PartlyOne(store: Store, done: seq<string>, u: string, now: int)
    requires u in store.byUser
    ensures PartlySwept(store, done + [u], now) == PartlySwept(store, done, now)[u := SweptBucket(store.byUser[u], now)]
  {}

  lemma SweepEnds(store: Store, now: int)
    requires Valid(store)
    ensures SweptUpto(store, 0, now) == store && SweptUpto(store, |store.users|, now) == Swept(store, now)
  {
    assert PartlySwept(store, [], now) == store.byUser;
    assert store.users[..|store.users|] == store.users;
    assert PartlySwept(store, store.users, now) == Swept(store, now).byUser;
  }

  lemma SweepUser(store: Store, n: nat, now: int)
    requires Valid(store) && n < |store.users|
    ensures var u := store.users[n];
            && u in store.byUser && SweptUpto(store, n, now).byUser[u] == store.byUser[u]
            && SweptUpto(store, n + 1, now) == Replaced(SweptUpto(store, n, now), u, SweptBucket(store.byUser[u], now))
  {
    assert store.users[..n + 1] == store.users[..n] + [store.users[n]];
    PartlyOne(store, store.users[..n], store.users[n], now);
  }

  /** The first `n` users' statements swept, and their claimable slots. */
  lemma SweepAndGather(store: Store, n: nat, now: int)
    requires Valid(store) && n < |store.users|
    ensures var u := store.users[n];
            && u in store.byUser && SweptUpto(store, n, now).byUser[u] == store.byUser[u]
            && SweptUpto(store, n + 1, now) == Replaced(SweptUpto(store, n, now), u, SweptBucket(store.byUser[u], now))
    ensures var u, swept := store.users[n], Swept(store, now);
            && Valid(swept)
            && Gathered(swept, n + 1, now) == Gathered(swept, n, now)
               + ClaimableIn(u, SweptBucket(store.byUser[u], now), |SweptBucket(store.byUser[u], now)|, now)
  {
    SweepUser(store, n, now);
    GatherOne(Swept(store, now), n, now);
  }

  lemma SweepAndGatherEnds(store: Store, now: int)
    requires Valid(store)
    ensures SweptUpto(store, 0, now) == store && SweptUpto(store, |store.users|, now) == Swept(store, now)
    ensures var swept := Swept(store, now);
            && Valid(swept) && Gathered(swept, 0, now) == []
            && Gathered(swept, |swept.users|, now) == ClaimableOf(swept.users, swept.byUser, now)
  {
    SweepEnds(store, now);
    GatherOne(Swept(store, now), 0, now);
  }

  lemma MarkOne(store: Store, slots: seq<Slot>, slot: Slot, now: int)
    requires InStore(store, slot) && slot !in slots
    ensures var m := Marked(store, slots, now);
            && InStore(m, slot) && At(m, slot) == At(store, slot)
            && Marked(store, slots + [slot], now)
            == Replaced(m, slot.user, m.byUser[slot.user][slot.index := Claimed(At(store, slot), now)])
  {
    var m := Marked(store, slots, now);
    var after := Marked(store, slots + [slot], now);
    var bucket := m.byUser[slot.user][slot.index := Claimed(At(store, slot), now)];
    assert after.byUser[slot.user] == bucket;
    forall u | u in store.byUser && u != slot.user ensures after.byUser[u] == m.byUser[u] {}
  }

  /** The first `n` of `slots` claimed. */
  function MarkedUpto(store: Store, slots: seq<Slot>, n: nat, now: int): Store
    requires n <= |slots|
  {
    Marked(store, slots[..n], now)
  }

  function JobsUpto(store: Store, slots: seq<Slot>, n: nat): seq<Job>
    requires n <= |slots|
  {
    JobsOf(store, slots[..n])
  }

  lemma MarkNone(store: Store, slots: seq<Slot>, now: int)
    ensures MarkedUpto(store, slots, 0, now) == store && JobsUpto(store, slots, 0) == []
  {
    forall u | u in store.byUser ensures Marked(store, [], now).byUser[u] == store.byUser[u] {}
  }

  lemma MarkNext(store: Store, slots: seq<Slot>, n: nat, now: int)
    requires n < |slots| && Distinct(slots) && InStore(store, slots[n])
    ensures var slot, m := slots[n], MarkedUpto(store, slots, n, now);
            && InStore(m, slot) && At(m, slot) == At(store, slot)
            && MarkedUpto(store, slots, n + 1, now)
            == Replaced(m, slot.user, m.byUser[slot.user][slot.index := Claimed(At(store, slot), now)])
            && JobsUpto(store, slots, n + 1) == JobsUpto(store, slots, n) + [JobOf(store, slot)]
  {
    assert slots[..n + 1] == slots[..n] + [slots[n]];
    MarkOne(store, slots[..n], slots[n], now);
  }

  ghost predicate IsClaimable(store: Store, slot: Slot, now: int) {
    InStore(store, slot) && Claimable(At(store, slot), now)
  }

  lemma {:induction false} ClaimableInLaws(user: string, bucket: seq<Statement>, n: nat, now: int)
    requires n <= |bucket|
    ensures var r := ClaimableIn(user, bucket, n, now);
            && Distinct(r)
            && forall s :: s in r <==> s.user == user && s.index < n && Claimable(bucket[s.index], now)
  {
    if n > 0 {
      ClaimableInLaws(user, bucket, n - 1, now);
      if Claimable(bucket[n - 1], now) { DistinctSnoc(ClaimableIn(user, bucket, n - 1, now), [Slot(user, n - 1)]); }
    }
  }

  lemma DistinctSnoc<T(!new)>(a: seq<T>, b: seq<T>)
    requires Distinct(a) && Distinct(b) && forall x :: x in a ==> x !in b
    ensures Distinct(a + b)
  {
    forall i, j | 0 <= i < j < |a + b| ensures (a + b)[i] != (a + b)[j] {
      if i < |a| <= j { assert a[i] in a && b[j - |a|] in b; }
    }
  }

  lemma {:induction false} ClaimableOfLaws(users: seq<string>, byUser: map<string, seq<Statement>>, now: int)
    requires Distinct(users) && forall u :: u in users ==> u in byUser
    ensures var r := ClaimableOf(users, byUser, now);
            && Distinct(r)
            && forall s :: s in r <==> s.user in users && IsClaimable(Store(users, byUser), s, now)
  {
    if users != [] {
      var init, last := users[..|users| - 1], users[|users| - 1];
      assert users == init + [last];
      ClaimableOfLaws(init, byUser, now);
      var a, b := ClaimableOf(init, byUser, now), ClaimableIn(last, byUser[last], |byUser[last]|, now);
      ClaimableInLaws(last, byUser[last], |byUser[last]|, now);
      assert last !in init;
      forall x | x in a ensures x !in b { assert x.user in init; }
      DistinctSnoc(a, b);
      forall s ensures s in a + b <==> s.user in users && IsClaimable(Store(users, byUser), s, now) {
        assert IsClaimable(Store(users, byUser), s, now) <==> IsClaimable(Store(init, byUser), s, now);
        assert s.user in users <==> s.user in init || s.user == last;
      }
    }
  }

  ghost predicate Allowed(store: Store, batch: seq<Slot>, now: int) {
    Distinct(batch) && forall s :: s in batch ==> IsClaimable(store, s, now)
  }

  lemma CandidatesLaws(store: Store, now: int)
    requires Valid(store)
    ensures var sorted := SortBy(NoNewer(store), ClaimableOf(store.users, store.byUser, now));
            && Distinct(sorted) && Sorted(NoNewer(store), sorted)
            && forall s :: s in sorted <==> IsClaimable(store, s, now)
  {
    var le := NoNewer(store);
    var all := ClaimableOf(store.users, store.byUser, now);
    assert store == Store(store.users, store.byUser);
    ClaimableOfLaws(store.users, store.byUser, now);
    SortElements(le, all);
    SameElements(SortBy(le, all), all);
    SortDistinct(le, all);
    SortSorted(le, all);
  }

  lemma BatchAllowed(store: Store, limit: int, now: int)
    requires Valid(store)
    ensures Allowed(store, Batch(store, limit, now), now) && |Batch(store, limit, now)| <= BatchSize(limit)
  {
    CandidatesLaws(store, now);
  }

  lemma InPrefix<T>(s: seq<T>, n: nat, i: nat)
    requires i < |s| && n <= |s|
    ensures i < n ==> s[i] in s[..n]
  {
    if i < n { assert s[..n][i] == s[i]; }
  }

  /** A claim stops short of its limit only when nothing claimable is left. */
  lemma BatchIsFull(store: Store, limit: int, now: int, left: Slot)
    requires Valid(store) && IsClaimable(store, left, now) && left !in Batch(store, limit, now)
    ensures |Batch(store, limit, now)| == BatchSize(limit)
  {
    CandidatesLaws(store, now);
  }

  /** And it leaves nothing older than what it takes. */
  lemma BatchIsOldest(store: Store, limit: int, now: int, left: Slot, taken: Slot)
    requires Valid(store) && IsClaimable(store, left, now)
    requires left !in Batch(store, limit, now) && taken in Batch(store, limit, now)
    ensures At(store, left).createdAt >= CreatedAt(store, taken)
  {
    CandidatesLaws(store, now);
    var batch := Batch(store, limit, now);
    var sorted := SortBy(NoNewer(store), ClaimableOf(store.users, store.byUser, now));
    var i :| 0 <= i < |sorted| && sorted[i] == left;
    var j :| 0 <= j < |batch| && batch[j] == taken;
    InPrefix(sorted, |batch|, i);
    assert sorted[j] == taken;
    assert NoNewer(store)(sorted[j], sorted[i]);
  }

  /** What an operation on one import answers with, when it applies: the import afterwards. */
  function Answer(store: Store, user: string, id: string, edit: Edit): Option<Statement> {
    var bucket := Opened(store, user).byUser[user];
    var k := Find(bucket, id);
    if k < |bucket| && Applies(bucket[k], edit) then Some(Edited(bucket[k], edit)) else None
  }

  lemma {:induction false} FindRowKept(rows: seq<Row>, k: nat, row: Row)
    requires k < |rows| && k == FindRow(rows, row.id)
    ensures FindRow(rows[k := row], row.id) == k
  {
    if k > 0 {
      assert rows[k := row][1..] == rows[1..][k - 1 := row];
      FindRowKept(rows[1..], k - 1, row);
    }
  }

  class InMemoryStatementImportStore {
    var users: seq<string>
    var byUser: map<string, seq<Statement>>

    function State(): Store
      reads this
    {
      Store(users, byUser)
    }

    constructor ()
      ensures State() == Store([], map[])
    {
      users, byUser := [], map[];
    }

    method Bucket(user: string) returns (bucket: seq<Statement>)
      modifies this
      ensures State() == Opened(old(State()), user) && bucket == byUser[user]
    {
      if user !in byUser {
        byUser := byUser[user := []];
        users := users + [user];
      }
      bucket := byUser[user];
    }

    method Add(user: string, s: Statement, encryptedSource: string, countActive: bool) returns (r: Added)
      modifies this
      ensures State() == AfterAdd(old(State()), user, s, encryptedSource, countActive)
      ensures r == Verdict(Opened(old(State()), user).byUser[user], s, encryptedSource, countActive)
    {
      var bucket := Bucket(user);
      if !QuotaAllows(bucket, encryptedSource, countActive) { return QuotaExceeded; }
      for k := 0 to |bucket|
        invariant forall j :: 0 <= j < k ==> !Clashes(bucket[j], s)
      {
        if Clashes(bucket[k], s) { return DuplicateStatement; }
      }
      byUser := byUser[user := bucket + [s]];
      r := Stored(s);
    }

    method Create(user: string, s: Statement, encryptedSource: string, rows: seq<Row>) returns (r: Added)
      requires Valid(State())
      modifies this
      ensures State() == Next(old(State()), Creating(user, s, encryptedSource, rows))
      ensures r == Verdict(Opened(old(State()), user).byUser[user],
                           Staged(s, encryptedSource, rows, [CreationEvent(s), ProcessedEvent(s)]),
                           encryptedSource, false)
    {
      r := Add(user, Staged(s, encryptedSource, rows, [CreationEvent(s), ProcessedEvent(s)]), encryptedSource, false);
    }

    method Enqueue(user: string, s: Statement, encryptedSource: string) returns (r: Added)
      requires Valid(State())
      modifies this
      ensures State() == Next(old(State()), Enqueuing(user, s, encryptedSource))
      ensures r == Verdict(Opened(old(State()), user).byUser[user],
                           Staged(s, encryptedSource, [], [CreationEvent(s)]), encryptedSource, true)
    {
      r := Add(user, Staged(s, encryptedSource, [], [CreationEvent(s)]), encryptedSource, true);
    }

    /** The private `find`, with the place found. */
    method Lookup(user: string, id: string) returns (bucket: seq<Statement>, k: nat)
      modifies this
      ensures State() == Opened(old(State()), user) && bucket == byUser[user]
      ensures k == Find(bucket, id)
    {
      bucket := Bucket(user);
      k := 0;
      while k < |bucket| && bucket[k].id != id
        invariant k <= |bucket| && Find(bucket, id) == k + Find(bucket[k..], id)
      {
        assert bucket[k..][1..] == bucket[k + 1..];
        k := k + 1;
      }
    }

    method CompleteProcessing(user: string, id: string, rows: seq<Row>, at: int, event: Event)
      returns (r: Option<Statement>)
      requires Valid(State())
      modifies this
      ensures State() == Next(old(State()), Editing(user, id, Complete(rows, at, event)))
      ensures r == Answer(old(State()), user, id, Complete(rows, at, event))
    {
      var bucket, k := Lookup(user, id);
      if k == |bucket| || bucket[k].status != Processing { return None; }
      var s := bucket[k];
      s := s.(rows := rows, status := Ready, processedAt := Some(at), error := None, processingStartedAt := None);
      s := Recalculate(s);
      s := s.(events := s.events + [event]);
      byUser := byUser[user := bucket[k := s]];
      r := Some(s);
    }

    method FailProcessing(user: string, id: string, error: string, at: int, event: Event) returns (ok: bool)
      requires Valid(State())
      modifies this
      ensures State() == Next(old(State()), Editing(user, id, Fail(error, at, event)))
      ensures ok <==> Answer(old(State()), user, id, Fail(error, at, event)).Some?
    {
      var bucket, k := Lookup(user, id);
      if k == |bucket| || bucket[k].status != Processing { return false; }
      var s := bucket[k];
      s := s.(status := Failed, error := Some(Truncated(error)), processingStartedAt := None, processedAt := Some(at));
      s := s.(events := s.events + [event]);
      byUser := byUser[user := bucket[k := s]];
      ok := true;
    }

    method UpdateStatementRow(user: string, id: string, rowId: string, patch: RowPatch, event: Event)
      returns (r: Option<Row>)
      requires Valid(State())
      modifies this
      ensures State() == Next(old(State()), Editing(user, id, UpdateRow(rowId, patch, event)))
      ensures var answer := Answer(old(State()), user, id, UpdateRow(rowId, patch, event));
              && (r.Some? <==> answer.Some?)
              && (r.Some? ==> var rows := answer.value.rows;
                    FindRow(rows, rowId) < |rows| && r.value == rows[FindRow(rows, rowId)]
                    && r.value.importId == id && r.value.editedAt == Some(event.createdAt))
    {
      var bucket, k := Lookup(user, id);
      if k == |bucket| { return None; }
      var s := bucket[k];
      var j := FindRow(s.rows, rowId);
      if j == |s.rows| || s.status != Ready { return None; }
      var row := Patched(s.rows[j], s.id, patch, event.createdAt);
      FindRowKept(s.rows, j, row);
      s := s.(rows := s.rows[j := row]);
      s := Recalculate(s);
      s := s.(events := s.events + [event]);
      byUser := byUser[user := bucket[k := s]];
      r := Some(row);
    }

    method UpdateRowsDecision(user: string, id: string, rowIds: seq<string>, decision: Decision, event: Event)
      returns (r: Option<seq<Row>>)
      requires Valid(State())
      modifies this
      ensures State() == Next(old(State()), Editing(user, id, Decide(rowIds, decision, event)))
      ensures var answer := Answer(old(State()), user, id, Decide(rowIds, decision, event));
              r == if answer.Some? then Some(Selected(answer.value.rows, rowIds)) else None
    {
      var bucket, k := Lookup(user, id);
      if k == |bucket| || bucket[k].status != Ready || rowIds == [] { return None; }
      var s := bucket[k];
      if |Selected(s.rows, rowIds)| != |rowIds| { return None; }
      var rows := s.rows;
      for i := 0 to |rows|
        invariant |rows| == |s.rows|
        invariant forall j :: 0 <= j < |rows| ==>
          rows[j] == if j < i then Decided(s.rows, rowIds, decision, event.createdAt)[j] else s.rows[j]
      {
        if rows[i].id in rowIds {
          rows := rows[i := rows[i].(decision := decision, editedAt := Some(event.createdAt))];
        }
      }
      assert rows == Decided(s.rows, rowIds, decision, event.createdAt);
      s := s.(rows := rows);
      s := Recalculate(s);
      s := s.(events := s.events + [event]);
      byUser := byUser[user := bucket[k := s]];
      r := Some(Selected(rows, rowIds));
    }

    method SplitStatementRow(user: string, id: string, rowId: string, parts: seq<Row>, event: Event)
      returns (r: Option<seq<Row>>)
      requires Valid(State())
      modifies this
      ensures State() == Next(old(State()), Editing(user, id, SplitRow(rowId, parts, event)))
      ensures r == if Answer(old(State()), user, id, SplitRow(rowId, parts, event)).Some? then Some(parts) else None
    {
      var bucket, k := Lookup(user, id);
      if k == |bucket| { return None; }
      var s := bucket[k];
      var j := FindRow(s.rows, rowId);
      if j == |s.rows| || s.status != Ready { return None; }
      s := s.(rows := s.rows[j := Retired(s.rows[j], "split_parent", event.createdAt)]);
      s := s.(rows := s.rows + parts);
      s := Recalculate(s);
      s := s.(events := s.events + [event]);
      byUser := byUser[user := bucket[k := s]];
      r := Some(parts);
    }

    method MergeStatementRows(user: string, id: string, rowIds: seq<string>, merged: Row, event: Event)
      returns (r: Option<Row>)
      requires Valid(State())
      modifies this
      ensures State() == Next(old(State()), Editing(user, id, MergeRows(rowIds, merged, event)))
      ensures r == if Answer(old(State()), user, id, MergeRows(rowIds, merged, event)).Some? then Some(merged) else None
    {
      var bucket, k := Lookup(user, id);
      if k == |bucket| || bucket[k].status != Ready || |rowIds| < 2 { return None; }
      var s := bucket[k];
      if |Selected(s.rows, rowIds)| != |rowIds| { return None; }
      s := s.(rows := MergedAway(s.rows, rowIds, event.createdAt));
      s := s.(rows := s.rows + [merged]);
      s := Recalculate(s);
      s := s.(events := s.events + [event]);
      byUser := byUser[user := bucket[k := s]];
      r := Some(merged);
    }

    /** `finalize` up to the point where it awaits the ledger. */
    method BeginFinalize(user: string, id: string) returns (r: Option<Slot>)
      requires Valid(State())
      modifies this
      ensures State() == Next(old(State()), Looking(user))
      ensures r == ReadyAt(old(State()), user, id)
    {
      var bucket, k := Lookup(user, id);
      if k == |bucket| || bucket[k].status != Ready { return None; }
      r := Some(Slot(user, k));
    }

    /** `finalize` from there on; no purge has come in between, and the statement found is still
        where it was. */
    method CommitFinalize(slot: Slot, event: Event) returns (r: Statement)
      requires Valid(State()) && InStore(State(), slot)
      modifies this
      ensures State() == Next(old(State()), Approving(slot, event))
      ensures r == ApprovedBy(At(old(State()), slot), event)
    {
      var bucket := byUser[slot.user];
      var s := bucket[slot.index];
      s := s.(status := Approved, processingStartedAt := None, approvedAt := Some(event.createdAt));
      s := s.(events := s.events + [event]);
      byUser := byUser[slot.user := bucket[slot.index := s]];
      r := s;
    }

    method DeleteStagedSource(user: string, id: string, at: int, event: Event) returns (ok: bool)
      requires Valid(State())
      modifies this
      ensures State() == Next(old(State()), Editing(user, id, DeleteSource(at, event)))
      ensures ok <==> Answer(old(State()), user, id, DeleteSource(at, event)).Some?
    {
      var bucket, k := Lookup(user, id);
      if k == |bucket| || bucket[k].status == Deleted { return false; }
      var s := bucket[k];
      s := s.(encryptedSource := None, sourceDeletedAt := Some(at));
      s := s.(events := s.events + [event]);
      byUser := byUser[user := bucket[k := s]];
      ok := true;
    }

    method DeleteImport(user: string, id: string, at: int, event: Event) returns (ok: bool)
      requires Valid(State())
      modifies this
      ensures State() == Next(old(State()), Editing(user, id, Delete(at, event)))
      ensures ok <==> Answer(old(State()), user, id, Delete(at, event)).Some?
    {
      var bucket, k := Lookup(user, id);
      if k == |bucket| || bucket[k].status == Deleted { return false; }
      var s := bucket[k];
      s := s.(status := Deleted, processingStartedAt := None, sourceDeletedAt := Some(at));
      s := s.(events := s.events + [event.(createdAt := at)]);
      byUser := byUser[user := bucket[k := s]];
      ok := true;
    }

    method SweepBucket(user: string, now: int) returns (slots: seq<Slot>)
      requires user in byUser
      modifies this
      ensures users == old(users) && byUser == old(byUser)[user := SweptBucket(old(byUser[user]), now)]
      ensures slots == ClaimableIn(user, byUser[user], |byUser[user]|, now)
    {
      slots := [];
      ghost var before, swept := byUser, SweptBucket(byUser[user], now);
      var n := |byUser[user]|;
      SweepOne(before[user], 0, now);
      assert byUser == before[user := before[user]];
      for k := 0 to n
        invariant users == old(users) && byUser == before[user := PrefixSwept(before[user], k, now)]
        invariant slots == ClaimableIn(user, swept, k, now)
      {
        SweepOne(before[user], k, now);
        var bucket := byUser[user];
        var s := Sweep(bucket[k], now);
        byUser := byUser[user := bucket[k := s]];
        if Claimable(s, now) { slots := slots + [Slot(user, k)]; }
      }
    }

    method SweepAll(now: int) returns (candidates: seq<Slot>)
      requires Valid(State())
      modifies this
      ensures State() == Swept(old(State()), now)
      ensures candidates == ClaimableOf(users, byUser, now)
    {
      ghost var before, swept := State(), Swept(State(), now);
      candidates := [];
      SweepAndGatherEnds(before, now);
      for i := 0 to |users|
        invariant State() == SweptUpto(before, i, now)
        invariant candidates == Gathered(swept, i, now)
      {
        SweepAndGather(before, i, now);
        var u := users[i];
        ghost var bucket := SweptBucket(before.byUser[u], now);
        var slots := SweepBucket(u, now);
        assert State() == Replaced(SweptUpto(before, i, now), u, bucket);
        assert slots == ClaimableIn(u, bucket, |bucket|, now);
        candidates := candidates + slots;
      }
    }

    method ClaimJobs(limit: int, now: int) returns (jobs: seq<Job>)
      requires Valid(State())
      modifies this
      ensures State() == Next(old(State()), Claiming(limit, now))
      ensures jobs == JobsOf(Swept(old(State()), now), Batch(Swept(old(State()), now), limit, now))
    {
      var candidates := SweepAll(now);
      BatchAllowed(State(), limit, now);
      candidates := SortBy(NoNewer(State()), candidates);
      candidates := Sliced(candidates, limit);
      jobs := MarkAll(candidates, now);
    }

    method MarkAll(slots: seq<Slot>, now: int) returns (jobs: seq<Job>)
      requires Distinct(slots) && forall s :: s in slots ==> InStore(State(), s)
      modifies this
      ensures State() == Marked(old(State()), slots, now)
      ensures jobs == JobsOf(old(State()), slots)
    {
      ghost var before := State();
      jobs := [];
      MarkNone(before, slots, now);
      for i := 0 to |slots|
        invariant State() == MarkedUpto(before, slots, i, now)
        invariant jobs == JobsUpto(before, slots, i)
      {
        MarkNext(before, slots, i, now);
        var slot := slots[i];
        var bucket := byUser[slot.user];
        var s := bucket[slot.index];
        s := s.(status := Processing, processingStartedAt := Some(now), attempts := s.attempts + 1);
        byUser := byUser[slot.user := bucket[slot.index := s]];
        jobs := jobs + [Job(s.id, slot.user, s.accountId, s.attempts)];
      }
      assert slots[..|slots|] == slots;
    }

    method PurgeUser(user: string)
      requires Valid(State())
      modifies this
      ensures State() == Next(old(State()), Purging(user))
    {
      byUser := byUser - {user};
      users := Without(users, user);
    }
  }
}
