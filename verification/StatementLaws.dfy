/** What the operations of the statement-import store do to an import, field by field. */
module StatementLaws {
  import opened Common
  import opened Sorting
  import opened Statements
  import opened StatementRuns

  // ---------------------------------------------------------------- what a claim finds and takes

  /** Waiting with a source, or leased for more than five minutes. */
  ghost predicate Due(s: Statement, now: int) {
    || (s.status == Queued && s.encryptedSource != None)
    || (s.status == Processing && s.processingStartedAt != None && now - s.processingStartedAt.value > 300_000)
  }

  ghost predicate DueAt(store: Store, slot: Slot, now: int) {
    InStore(store, slot) && Due(At(store, slot), now)
  }

  lemma DueIsClaimable(store: Store, slot: Slot, now: int)
    ensures DueAt(store, slot, now) <==> IsClaimable(store, slot, now)
  {}

  ghost predicate Lists(list: seq<Slot>, store: Store, now: int) {
    Distinct(list) && forall slot :: slot in list <==> DueAt(store, slot, now)
  }

  function AtLeastOne(n: int): nat {
    if n >= 1 then n else 1
  }

  function AtMost(n: int, most: int): int {
    if n <= most then n else most
  }

  /** From a store that has been swept a claim takes as many imports as are due, up to its limit, which
      is at least 1 and at most 100, and it takes the oldest. */
  lemma BatchExactly(store: Store, limit: int, now: int) returns (due: seq<Slot>)
    requires Valid(store)
    ensures Lists(due, store, now)
    ensures var batch := Batch(store, limit, now);
            && Distinct(batch) && |batch| == AtMost(|due|, AtLeastOne(AtMost(limit, 100)))
            && batch == due[..|batch|]
            && forall i, j :: 0 <= i < j < |due| ==> CreatedAt(store, due[i]) <= CreatedAt(store, due[j])
  {
    due := SortBy(NoNewer(store), ClaimableOf(store.users, store.byUser, now));
    CandidatesLaws(store, now);
    forall slot ensures slot in due <==> DueAt(store, slot, now) { DueIsClaimable(store, slot, now); }
    OldestFirst(store, due);
    assert due[..|due|] == due;
  }

  lemma OldestFirst(store: Store, due: seq<Slot>)
    requires Sorted(NoNewer(store), due)
    ensures forall i, j :: 0 <= i < j < |due| ==> CreatedAt(store, due[i]) <= CreatedAt(store, due[j])
  {
    forall i, j | 0 <= i < j < |due| ensures CreatedAt(store, due[i]) <= CreatedAt(store, due[j]) {
      assert NoNewer(store)(due[i], due[j]);
    }
  }

  /** So one that is due is taken unless as many as the limit are due that are not younger. */
  lemma DueIsTaken(store: Store, limit: int, now: int, slot: Slot)
    requires Valid(store) && DueAt(store, slot, now)
    requires forall other :: DueAt(store, other, now) && other != slot ==>
               CreatedAt(store, other) > CreatedAt(store, slot)
    ensures slot in Batch(store, limit, now) && Batch(store, limit, now)[0] == slot
  {
    var due := BatchExactly(store, limit, now);
    var k :| 0 <= k < |due| && due[k] == slot;
    var first := due[0];
    assert first in due && DueAt(store, first, now);
    assert first == slot || CreatedAt(store, first) <= CreatedAt(store, slot);
  }

  /** The staged source has outlived its ninety days. */
  ghost predicate Outlived(s: Statement, now: int) {
    && s.encryptedSource != None && s.encryptedSource.value != ""
    && s.sourceExpiresAt != None && s.sourceExpiresAt.value <= now
  }

  /** Given up by its worker, for the third time. */
  ghost predicate GivenUp(s: Statement, now: int) {
    && s.status == Processing && s.processingStartedAt != None && now - s.processingStartedAt.value > 300_000
    && s.attempts >= 3
  }

  ghost predicate SameContent(a: Statement, b: Statement) {
    a.id == b.id && a.accountId == b.accountId && a.statementHash == b.statementHash && a.createdAt == b.createdAt
    && a.rows == b.rows && a.counts == b.counts && a.approvedAt == b.approvedAt
  }

  /** The log has one more event, of this kind and time, about this import. */
  ghost predicate OneEventMore(a: Statement, b: Statement, kind: EventKind, at: int) {
    && |b.events| == |a.events| + 1 && a.events <= b.events
    && b.events[|a.events|].kind == kind && b.events[|a.events|].createdAt == at
    && b.events[|a.events|].importId == a.id
  }

  ghost predicate SourceDropped(a: Statement, b: Statement, at: int) {
    SameContent(a, b) && b.encryptedSource == None && b.sourceExpiresAt == None && b.sourceDeletedAt == Some(at)
    && b.attempts == a.attempts
  }

  lemma OutlivedGoes(s: Statement, now: int)
    requires Outlived(s, now)
    ensures var t := Sweep(s, now);
            && SourceDropped(s, t, now) && OneEventMore(s, t, SourceDeleted, now)
            && t.status == (if s.status == Queued || s.status == Processing then Failed else s.status)
            && (t.status != s.status ==>
                  t.processingStartedAt == None && t.processedAt == Some(now) && t.error != None)
            && (t.status == s.status ==> t.error == s.error && t.processedAt == s.processedAt)
  {}

  lemma GivenUpFails(s: Statement, now: int)
    requires !Outlived(s, now) && GivenUp(s, now)
    ensures var t := Sweep(s, now);
            SourceDropped(s, t, now) && t.status == Failed && t.processingStartedAt == None && t.error != None
    ensures OneEventMore(s, Sweep(s, now), Failure, now)
  {
    assert Sweep(s, now) == Exhaust(s, now);
  }

  lemma OthersStay(s: Statement, now: int)
    requires !Outlived(s, now) && !GivenUp(s, now)
    ensures Sweep(s, now) == s
  {}

  lemma SweepEndsDue(s: Statement, now: int)
    ensures Due(Sweep(s, now), now) ==> Sweep(s, now) == s && !Outlived(s, now) && !GivenUp(s, now)
  {
    if Outlived(s, now) { OutlivedGoes(s, now); }
    else if GivenUp(s, now) { GivenUpFails(s, now); }
    else { OthersStay(s, now); }
  }

  lemma TakenIsDue(store: Store, limit: int, now: int, slot: Slot)
    requires StoreSound(store) && InStore(store, slot) && Takes(store, limit, now, slot)
    ensures Due(At(store, slot), now) && !Outlived(At(store, slot), now) && !GivenUp(At(store, slot), now)
  {
    ClaimAt(store, limit, now, slot);
    SweepEndsDue(At(store, slot), now);
  }

  /** A claim drops the sources that have outlived their retention, fails what was given up for the third
      time, leases what it takes, with one attempt more, and leaves everything else as it is. */
  lemma ClaimDoes(store: Store, limit: int, now: int, slot: Slot)
    requires StoreSound(store) && InStore(store, slot)
    ensures InStore(Claim(store, limit, now), slot)
    ensures var s, t := At(store, slot), At(Claim(store, limit, now), slot);
            if Outlived(s, now) || GivenUp(s, now) then t == Sweep(s, now) && !Takes(store, limit, now, slot)
            else if Takes(store, limit, now, slot) then
              && Due(s, now) && SameContent(s, t) && t.status == Processing && t.processingStartedAt == Some(now)
              && t.attempts == s.attempts + 1 && t.encryptedSource == s.encryptedSource
              && t.sourceExpiresAt == s.sourceExpiresAt && t.events == s.events && t.error == s.error
            else t == s
  {
    var s := At(store, slot);
    ClaimAt(store, limit, now, slot);
    if !Outlived(s, now) && !GivenUp(s, now) { OthersStay(s, now); }
    if Takes(store, limit, now, slot) { TakenIsDue(store, limit, now, slot); }
  }

  /** Nothing due is older than the import in `slot`, or as old. */
  ghost predicate NothingOlder(store: Store, now: int, slot: Slot) {
    forall other :: DueAt(store, other, now) && other != slot ==> CreatedAt(store, other) > CreatedAt(store, slot)
  }

  lemma SweptKeeps(store: Store, now: int, slot: Slot)
    requires InStore(store, slot)
    ensures InStore(Swept(store, now), slot) && At(Swept(store, now), slot) == Sweep(At(store, slot), now)
  {}

  /** An import that is due, whose source is still kept and whose attempts are not used up, is leased by
      the next claim when nothing older is due. */
  lemma DueIsLeased(store: Store, limit: int, now: int, slot: Slot)
    requires StoreSound(store) && DueAt(store, slot, now)
    requires !Outlived(At(store, slot), now) && !GivenUp(At(store, slot), now)
    requires NothingOlder(Swept(store, now), now, slot)
    ensures InStore(Claim(store, limit, now), slot)
    ensures var s, t := At(store, slot), At(Claim(store, limit, now), slot);
            && t.status == Processing && t.processingStartedAt == Some(now) && t.attempts == s.attempts + 1
            && t.encryptedSource == s.encryptedSource
  {
    SweptValid(store, now);
    SweptKeeps(store, now, slot);
    OthersStay(At(store, slot), now);
    DueIsTaken(Swept(store, now), limit, now, slot);
    ClaimDoes(store, limit, now, slot);
  }

  /** A lease of more than five minutes is renewed while attempts are left, and failed when three are used
      up. */
  lemma StaleLeaseEnds(store: Store, limit: int, now: int, slot: Slot)
    requires StoreSound(store) && InStore(store, slot) && At(store, slot).status == Processing
    requires At(store, slot).processingStartedAt != None && now - At(store, slot).processingStartedAt.value > 300_000
    requires !Outlived(At(store, slot), now) && NothingOlder(Swept(store, now), now, slot)
    ensures InStore(Claim(store, limit, now), slot)
    ensures var s, t := At(store, slot), At(Claim(store, limit, now), slot);
            if s.attempts < 3 then
              t.status == Processing && t.processingStartedAt == Some(now) && t.attempts == s.attempts + 1
            else t.status == Failed && t.encryptedSource == None && t.attempts == s.attempts
  {
    if At(store, slot).attempts < 3 {
      DueIsLeased(store, limit, now, slot);
    } else {
      ClaimDoes(store, limit, now, slot);
      GivenUpFails(At(store, slot), now);
    }
  }

  // ---------------------------------------------------------------- from upload to lease

  /** The user's imports before an upload. */
  function Before(store: Store, user: string): seq<Statement> {
    if user in store.byUser then store.byUser[user] else []
  }

  ghost predicate HasRoom(bucket: seq<Statement>, source: string) {
    Bytes(bucket) + |source| <= 64 * 1024 * 1024 && ActiveCount(bucket) <= 4
  }

  /** No import of this file and account that is neither deleted nor failed. */
  ghost predicate IsNew(bucket: seq<Statement>, s: Statement) {
    forall k :: 0 <= k < |bucket| && bucket[k].status != Deleted && bucket[k].status != Failed ==>
      bucket[k].accountId != s.accountId || bucket[k].statementHash != s.statementHash
  }

  /** An upload for which there is room and which is new is queued behind the others. */
  lemma EnqueueStores(store: Store, user: string, s: Statement, source: string)
    requires Valid(store) && HasRoom(Before(store, user), source) && IsNew(Before(store, user), s)
    ensures var after, slot := Next(store, Enqueuing(user, s, source)), Slot(user, |Before(store, user)|);
            && InStore(after, slot) && Before(after, user) == Before(store, user) + [At(after, slot)]
            && var t := At(after, slot);
               t.id == s.id && t.accountId == s.accountId && t.statementHash == s.statementHash
               && t.status == s.status && t.createdAt == s.createdAt && t.encryptedSource == Some(source)
               && t.rows == [] && t.attempts == 0 && t.processingStartedAt == None
               && t.sourceExpiresAt == Some(s.createdAt + 7_776_000_000)
               && |t.events| == 1 && t.events[0].kind == Created && t.events[0].importId == s.id
  {}

  /** It is refused when there is no room or it is not new, and nothing changes. */
  lemma EnqueueRefuses(store: Store, user: string, s: Statement, source: string)
    requires Valid(store) && !(HasRoom(Before(store, user), source) && IsNew(Before(store, user), s))
    ensures Before(Next(store, Enqueuing(user, s, source)), user) == Before(store, user)
  {
    if HasRoom(Before(store, user), source) {
      var bucket := Before(store, user);
      var k :| 0 <= k < |bucket| && bucket[k].accountId == s.accountId && bucket[k].statementHash == s.statementHash
               && bucket[k].status != Deleted && bucket[k].status != Failed;
      assert Clashes(bucket[k], Staged(s, source, [], [CreationEvent(s)]));
    }
  }

  /** An import takes the length of its source from the room there is, and a place while it is queued or
      processed. */
  lemma {:induction false} RoomTaken(bucket: seq<Statement>, s: Statement)
    ensures Bytes([]) == 0 && ActiveCount([]) == 0
    ensures Bytes(bucket + [s]) == Bytes(bucket) + (match s.encryptedSource case Some(x) => |x| case None => 0)
    ensures ActiveCount(bucket + [s])
         == ActiveCount(bucket) + (match s.status case Queued => 1 case Processing => 1 case _ => 0)
    decreases |bucket|
  {
    if bucket == [] {
      assert bucket + [s] == [s] && [s][1..] == [];
    } else {
      assert (bucket + [s])[1..] == bucket[1..] + [s];
      RoomTaken(bucket[1..], s);
    }
  }

  /** `create` adds an import that is ready at once, with its rows and two events, under the same conditions
      but for the number of active imports. */
  lemma CreateStores(store: Store, user: string, s: Statement, source: string, rows: seq<Row>)
    requires Valid(store) && Bytes(Before(store, user)) + |source| <= 67_108_864 && IsNew(Before(store, user), s)
    ensures var after, slot := Next(store, Creating(user, s, source, rows)), Slot(user, |Before(store, user)|);
            && InStore(after, slot) && Before(after, user) == Before(store, user) + [At(after, slot)]
            && var t := At(after, slot);
               t.id == s.id && t.accountId == s.accountId && t.statementHash == s.statementHash
               && t.status == s.status && t.createdAt == s.createdAt && t.encryptedSource == Some(source)
               && t.rows == rows && t.attempts == 0 && t.processingStartedAt == None
               && t.sourceExpiresAt == Some(s.createdAt + 7_776_000_000)
               && |t.events| == 2 && t.events[0].kind == Created && t.events[0].importId == s.id
               && t.events[0].createdAt == s.createdAt && t.events[1].kind == Processed && t.events[1].importId == s.id
               && t.events[1].createdAt == match s.processedAt case Some(at) => at case None => s.createdAt
  {}

  lemma CreateRefuses(store: Store, user: string, s: Statement, source: string, rows: seq<Row>)
    requires Valid(store)
    requires Bytes(Before(store, user)) + |source| > 67_108_864 || !IsNew(Before(store, user), s)
    ensures Before(Next(store, Creating(user, s, source, rows)), user) == Before(store, user)
  {
    if Bytes(Before(store, user)) + |source| <= 67_108_864 {
      var bucket := Before(store, user);
      var k :| 0 <= k < |bucket| && bucket[k].accountId == s.accountId && bucket[k].statementHash == s.statementHash
               && bucket[k].status != Deleted && bucket[k].status != Failed;
      assert Clashes(bucket[k], Staged(s, source, rows, [CreationEvent(s), ProcessedEvent(s)]));
    }
  }

  lemma UploadIsDue(store: Store, user: string, s: Statement, source: string, now: int)
    requires StoreSound(store) && s.status == Queued && s.counts == Tally([])
    requires HasRoom(Before(store, user), source) && IsNew(Before(store, user), s) && now < s.createdAt + 7_776_000_000
    ensures var queued, slot := Next(store, Enqueuing(user, s, source)), Slot(user, |Before(store, user)|);
            && StoreSound(queued) && DueAt(queued, slot, now)
            && !Outlived(At(queued, slot), now) && !GivenUp(At(queued, slot), now)
  {
    EnqueueStores(store, user, s, source);
    ActionKeeps(store, Enqueuing(user, s, source));
  }

  /** And leased by the next claim within ninety days, when nothing older is due. */
  lemma UploadIsLeased(store: Store, user: string, s: Statement, source: string, limit: int, now: int)
    requires StoreSound(store) && s.status == Queued && s.counts == Tally([])
    requires HasRoom(Before(store, user), source) && IsNew(Before(store, user), s) && now < s.createdAt + 7_776_000_000
    requires NothingOlder(Swept(Next(store, Enqueuing(user, s, source)), now), now, Slot(user, |Before(store, user)|))
    ensures var queued, slot := Next(store, Enqueuing(user, s, source)), Slot(user, |Before(store, user)|);
            && StoreSound(queued) && InStore(Claim(queued, limit, now), slot)
            && var t := At(Claim(queued, limit, now), slot);
               t.status == Processing && t.attempts == 1 && t.processingStartedAt == Some(now)
               && t.encryptedSource == Some(source)
  {
    EnqueueStores(store, user, s, source);
    UploadIsDue(store, user, s, source, now);
    DueIsLeased(Next(store, Enqueuing(user, s, source)), limit, now, Slot(user, |Before(store, user)|));
  }

  lemma {:induction false} DistinctSize(due: seq<Slot>)
    requires Distinct(due)
    ensures |set slot | slot in due| == |due|
  {
    if due == [] {
      assert (set slot | slot in due) == {};
    } else {
      var init, last := due[..|due| - 1], due[|due| - 1];
      assert due == init + [last];
      DistinctSize(init);
      assert (set slot | slot in due) == (set slot | slot in init) + {last} && last !in init;
    }
  }

  lemma OnlyOne(due: seq<Slot>, slot: Slot)
    requires Distinct(due) && slot in due && forall other :: other in due ==> other == slot
    ensures due == [slot]
  {
    DistinctSize(due);
    assert (set other | other in due) == {slot};
    assert due[0] in due;
  }

  lemma BatchOfOne(store: Store, limit: int, now: int, slot: Slot)
    requires Valid(store) && DueAt(store, slot, now) && forall other :: DueAt(store, other, now) ==> other == slot
    ensures Batch(store, limit, now) == [slot]
  {
    var due := BatchExactly(store, limit, now);
    assert slot in due;
    OnlyOne(due, slot);
    assert [slot][..1] == [slot];
  }

  lemma JobsOfOne(store: Store, slot: Slot)
    requires InStore(store, slot)
    ensures JobsOf(store, [slot])
         == [Job(At(store, slot).id, slot.user, At(store, slot).accountId, At(store, slot).attempts + 1)]
  {
    assert [slot][..0] == [] && JobsOf(store, []) == [];
  }

  /** In a swept store in which one import is due, a claim returns that one job. */
  lemma OnlyJob(store: Store, limit: int, now: int, slot: Slot)
    requires Valid(store) && DueAt(store, slot, now) && forall other :: DueAt(store, other, now) ==> other == slot
    ensures JobsOf(store, Batch(store, limit, now))
         == [Job(At(store, slot).id, slot.user, At(store, slot).accountId, At(store, slot).attempts + 1)]
  {
    BatchOfOne(store, limit, now, slot);
    JobsOfOne(store, slot);
  }

  // ---------------------------------------------------------------- the operations on one import

  ghost predicate FirstWith(bucket: seq<Statement>, id: string, k: nat) {
    k < |bucket| && bucket[k].id == id && forall j :: 0 <= j < k ==> bucket[j].id != id
  }

  /** An operation changes the first import with the id, if its condition holds there, and nothing else. */
  lemma EditLands(store: Store, user: string, id: string, edit: Edit, k: nat)
    requires FirstWith(Before(store, user), id, k)
    ensures var a := Before(store, user);
            Before(AfterEdit(store, user, id, edit), user)
            == if Applies(a[k], edit) then a[k := Edited(a[k], edit)] else a
    ensures forall other :: other != user ==> Before(AfterEdit(store, user, id, edit), other) == Before(store, other)
  {}

  /** And without such an import it changes nothing. */
  lemma EditMisses(store: Store, user: string, id: string, edit: Edit)
    requires forall k :: 0 <= k < |Before(store, user)| ==> Before(store, user)[k].id != id
    ensures forall u :: Before(AfterEdit(store, user, id, edit), u) == Before(store, u)
  {}

  function Decisions(rows: seq<Row>): seq<Decision> {
    seq(|rows|, i requires 0 <= i < |rows| => rows[i].decision)
  }

  lemma {:induction false} CountIsNumber(rows: seq<Row>, decision: Decision)
    ensures CountOf(rows, decision) == multiset(Decisions(rows))[decision]
  {
    if rows != [] {
      CountIsNumber(rows[1..], decision);
      assert Decisions(rows) == [rows[0].decision] + Decisions(rows[1..]);
    }
  }

  /** The four counters count the rows, and those of each decision. */
  ghost predicate Counted(s: Statement) {
    var decisions := multiset(Decisions(s.rows));
    && s.counts.total == |s.rows| && s.counts.included == decisions[Include]
    && s.counts.excluded == decisions[Exclude] && s.counts.needsReview == decisions[NeedsReview]
  }

  lemma TallyCounts(s: Statement)
    requires s.counts == Tally(s.rows)
    ensures Counted(s)
  {
    CountIsNumber(s.rows, Include);
    CountIsNumber(s.rows, Exclude);
    CountIsNumber(s.rows, NeedsReview);
  }

  ghost predicate SameSource(a: Statement, b: Statement) {
    a.encryptedSource == b.encryptedSource && a.sourceExpiresAt == b.sourceExpiresAt
    && a.sourceDeletedAt == b.sourceDeletedAt
  }

  /** What operations on its rows leave alone. */
  ghost predicate SameFrame(a: Statement, b: Statement) {
    && SameImport(a, b) && SameSource(a, b) && a.attempts == b.attempts && a.approvedAt == b.approvedAt
    && a.status == b.status && a.error == b.error && a.processedAt == b.processedAt
    && a.processingStartedAt == b.processingStartedAt
  }

  lemma CompleteDoes(s: Statement, rows: seq<Row>, at: int, event: Event)
    ensures Applies(s, Complete(rows, at, event)) <==> s.status == Processing
    ensures s.status == Processing ==>
              var t := Edited(s, Complete(rows, at, event));
              && t.status == Ready && t.rows == rows && Counted(t) && t.error == None && t.processedAt == Some(at)
              && t.processingStartedAt == None && t.events == s.events + [event]
              && SameImport(s, t) && SameSource(s, t) && t.attempts == s.attempts && t.approvedAt == s.approvedAt
  {
    if s.status == Processing { TallyCounts(Edited(s, Complete(rows, at, event))); }
  }

  lemma FailDoes(s: Statement, error: string, at: int, event: Event)
    ensures Applies(s, Fail(error, at, event)) <==> s.status == Processing
    ensures s.status == Processing ==>
              var t := Edited(s, Fail(error, at, event));
              && t.status == Failed && t.rows == s.rows && t.counts == s.counts && t.processedAt == Some(at)
              && t.processingStartedAt == None && t.events == s.events + [event]
              && t.error.Some? && t.error.value <= error && |t.error.value| == AtMost(|error|, 500)
              && SameImport(s, t) && SameSource(s, t) && t.attempts == s.attempts && t.approvedAt == s.approvedAt
  {}

  ghost predicate FirstRow(rows: seq<Row>, id: string, k: nat) {
    k < |rows| && rows[k].id == id && forall j :: 0 <= j < k ==> rows[j].id != id
  }

  ghost predicate HasRow(rows: seq<Row>, id: string) {
    exists k :: 0 <= k < |rows| && rows[k].id == id
  }

  lemma UpdateDoes(s: Statement, rowId: string, patch: RowPatch, event: Event, k: nat)
    requires FirstRow(s.rows, rowId, k)
    ensures Applies(s, UpdateRow(rowId, patch, event)) <==> s.status == Ready
    ensures s.status == Ready ==>
              var t := Edited(s, UpdateRow(rowId, patch, event));
              && SameFrame(s, t) && Counted(t) && t.events == s.events + [event] && |t.rows| == |s.rows|
              && (forall i :: 0 <= i < |s.rows| && i != k ==> t.rows[i] == s.rows[i])
              && var before, after := s.rows[k], t.rows[k];
                 after.id == before.id && after.importId == s.id && after.editedAt == Some(event.createdAt)
                 && after.content == (if patch.content == None then before.content else patch.content.value)
                 && after.flags == (if patch.flags == None then before.flags else patch.flags.value)
                 && after.decision == (if patch.decision == None then before.decision else patch.decision.value)
  {
    if s.status == Ready { TallyCounts(Edited(s, UpdateRow(rowId, patch, event))); }
  }

  lemma RowMissing(s: Statement, rowId: string, patch: RowPatch, parts: seq<Row>, event: Event)
    requires !HasRow(s.rows, rowId)
    ensures !Applies(s, UpdateRow(rowId, patch, event)) && !Applies(s, SplitRow(rowId, parts, event))
  {}

  /** The parent of a split is excluded and says so; its parts follow at the end. */
  lemma SplitDoes(s: Statement, rowId: string, parts: seq<Row>, event: Event, k: nat)
    requires FirstRow(s.rows, rowId, k)
    ensures Applies(s, SplitRow(rowId, parts, event)) <==> s.status == Ready
    ensures s.status == Ready ==>
              var t := Edited(s, SplitRow(rowId, parts, event));
              && SameFrame(s, t) && Counted(t) && t.events == s.events + [event]
              && |t.rows| == |s.rows| + |parts| && t.rows[|s.rows|..] == parts
              && (forall i :: 0 <= i < |s.rows| && i != k ==> t.rows[i] == s.rows[i])
              && ExcludedFor("split_parent", s.rows[k], t.rows[k], event.createdAt)
  {
    if s.status == Ready { TallyCounts(Edited(s, SplitRow(rowId, parts, event))); }
  }

  ghost predicate ExcludedFor(flag: string, before: Row, after: Row, at: int) {
    && after.id == before.id && after.importId == before.importId && after.content == before.content
    && after.decision == Exclude && after.flags == before.flags + [flag] && after.editedAt == Some(at)
  }

  function Naming(rows: seq<Row>, ids: seq<string>): seq<bool> {
    seq(|rows|, i requires 0 <= i < |rows| => rows[i].id in ids)
  }

  /** How many rows have one of these ids. */
  function Named(rows: seq<Row>, ids: seq<string>): nat {
    multiset(Naming(rows, ids))[true]
  }

  lemma {:induction false} SelectedNumber(rows: seq<Row>, ids: seq<string>)
    ensures |Selected(rows, ids)| == Named(rows, ids)
  {
    if rows != [] {
      SelectedNumber(rows[1..], ids);
      assert Naming(rows, ids) == [rows[0].id in ids] + Naming(rows[1..], ids);
    }
  }

  /** Merged rows are all excluded and say so; the merged row follows at the end. */
  lemma MergeDoes(s: Statement, ids: seq<string>, merged: Row, event: Event)
    ensures Applies(s, MergeRows(ids, merged, event))
       <==> s.status == Ready && |ids| >= 2 && Named(s.rows, ids) == |ids|
    ensures Applies(s, MergeRows(ids, merged, event)) ==>
              var t := Edited(s, MergeRows(ids, merged, event));
              && SameFrame(s, t) && Counted(t) && t.events == s.events + [event]
              && |t.rows| == |s.rows| + 1 && t.rows[|s.rows|] == merged
              && forall i :: 0 <= i < |s.rows| ==>
                   if s.rows[i].id in ids then ExcludedFor("merged_parent", s.rows[i], t.rows[i], event.createdAt)
                   else t.rows[i] == s.rows[i]
  {
    SelectedNumber(s.rows, ids);
    if Applies(s, MergeRows(ids, merged, event)) { TallyCounts(Edited(s, MergeRows(ids, merged, event))); }
  }

  lemma DecideDoes(s: Statement, ids: seq<string>, decision: Decision, event: Event)
    ensures Applies(s, Decide(ids, decision, event))
       <==> s.status == Ready && ids != [] && Named(s.rows, ids) == |ids|
    ensures Applies(s, Decide(ids, decision, event)) ==>
              var t := Edited(s, Decide(ids, decision, event));
              && SameFrame(s, t) && Counted(t) && t.events == s.events + [event] && |t.rows| == |s.rows|
              && forall i :: 0 <= i < |s.rows| ==>
                   if s.rows[i].id in ids then DecidedOnly(decision, s.rows[i], t.rows[i], event.createdAt)
                   else t.rows[i] == s.rows[i]
  {
    SelectedNumber(s.rows, ids);
    if Applies(s, Decide(ids, decision, event)) { TallyCounts(Edited(s, Decide(ids, decision, event))); }
  }

  ghost predicate DecidedOnly(decision: Decision, before: Row, after: Row, at: int) {
    && after.id == before.id && after.importId == before.importId && after.content == before.content
    && after.flags == before.flags && after.decision == decision && after.editedAt == Some(at)
  }

  ghost predicate SameRows(a: Statement, b: Statement) {
    a.rows == b.rows && a.counts == b.counts && a.attempts == b.attempts && a.error == b.error
    && a.processedAt == b.processedAt && a.approvedAt == b.approvedAt
  }

  lemma DeletionsDo(s: Statement, at: int, event: Event)
    ensures Applies(s, DeleteSource(at, event)) <==> s.status != Deleted
    ensures Applies(s, Delete(at, event)) <==> s.status != Deleted
    ensures s.status != Deleted ==>
              var t := Edited(s, DeleteSource(at, event));
              && SameImport(s, t) && SameRows(s, t) && t.status == s.status && t.events == s.events + [event]
              && t.encryptedSource == None && t.sourceDeletedAt == Some(at) && t.sourceExpiresAt == s.sourceExpiresAt
              && t.processingStartedAt == s.processingStartedAt
    ensures s.status != Deleted ==>
              var t := Edited(s, Delete(at, event));
              && SameImport(s, t) && SameRows(s, t) && t.status == Deleted && t.processingStartedAt == None
              && t.events == s.events + [event.(createdAt := at)]
              && t.encryptedSource == s.encryptedSource && t.sourceExpiresAt == s.sourceExpiresAt
              && t.sourceDeletedAt == Some(at)
  {}

  /** `finalize` approves what it comes back to, and changes nothing else about it. */
  lemma ApprovalDoes(s: Statement, event: Event)
    ensures var t := ApprovedBy(s, event);
            && SameImport(s, t) && SameSource(s, t) && t.rows == s.rows && t.counts == s.counts
            && t.attempts == s.attempts && t.error == s.error && t.processedAt == s.processedAt
            && t.status == Approved && t.approvedAt == Some(event.createdAt) && t.processingStartedAt == None
            && t.events == s.events + [event]
  {}
}
