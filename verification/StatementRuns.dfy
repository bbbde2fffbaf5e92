/** What every run of the statement-import store keeps.  `finalize` checks an import, awaits the
    ledger and then approves it, so a run is made of its two halves and of the other operations,
    which do not await anything. */
module StatementRuns {
  import opened Common
  import opened Sorting
  import opened Statements

  // ---------------------------------------------------------------- one statement

  /** One step of an import's life, the second half of `finalize` aside. */
  ghost predicate Arrow(a: Status, b: Status) {
    a == b || match a
    case Queued => b == Processing || b == Failed || b == Deleted
    case Processing => b == Ready || b == Failed || b == Deleted
    case Ready => b == Deleted
    case Approved => b == Deleted
    case Failed => b == Deleted
    case Deleted => false
  }

  ghost predicate Closed(s: Status) {
    s == Approved || s == Failed || s == Deleted
  }

  ghost predicate SameImport(a: Statement, b: Statement) {
    a.id == b.id && a.accountId == b.accountId && a.statementHash == b.statementHash && a.createdAt == b.createdAt
  }

  /** What never goes back: the audit log only grows, a source is only ever dropped, a closed import
      keeps its rows, its counters and its attempts, and one that is approved or deleted stays so. */
  ghost predicate Ages(a: Statement, b: Statement) {
    && SameImport(a, b)
    && a.events <= b.events
    && a.attempts <= b.attempts
    && (b.encryptedSource == a.encryptedSource || b.encryptedSource == None)
    && (Closed(a.status) ==> Closed(b.status) && b.rows == a.rows && b.counts == a.counts && b.attempts == a.attempts)
    && (a.status == Approved || a.status == Deleted ==> b.status == Approved || b.status == Deleted)
    && (b.status == Queued ==> a.status == Queued)
    && (Active(b) ==> Active(a))
  }

  ghost predicate Evolves(a: Statement, b: Statement) {
    Ages(a, b) && Arrow(a.status, b.status)
  }

  /** The stored counters are the counts of the stored rows, and attempts stay within the limit. */
  ghost predicate Sound(s: Statement) {
    && s.counts == Tally(s.rows)
    && s.attempts <= MAX_ATTEMPTS
    && (s.status == Queued ==> s.attempts == 0)
    && (s.status == Processing ==> s.processingStartedAt.Some?)
  }

  lemma EditEvolves(s: Statement, edit: Edit)
    requires Sound(s) && Applies(s, edit)
    ensures Sound(Edited(s, edit)) && Evolves(s, Edited(s, edit))
  {}

  lemma ExpireEvolves(s: Statement, now: int)
    requires Sound(s)
    ensures Sound(Expire(s, now)) && Evolves(s, Expire(s, now)) && !Active(Expire(s, now)) && !HasSource(Expire(s, now))
  {}

  lemma ExhaustEvolves(s: Statement, now: int)
    requires Sound(s) && Exhausted(s, now)
    ensures Sound(Exhaust(s, now)) && Evolves(s, Exhaust(s, now)) && !Active(Exhaust(s, now))
            && !HasSource(Exhaust(s, now))
  {}

  lemma SweepEvolves(s: Statement, now: int)
    requires Sound(s)
    ensures Sound(Sweep(s, now)) && Evolves(s, Sweep(s, now)) && Sweep(s, now).attempts == s.attempts
    ensures !Expired(Sweep(s, now), now)
  {
    if Expired(s, now) { ExpireEvolves(s, now); }
    else if Exhausted(s, now) { ExhaustEvolves(s, now); }
  }

  lemma ClaimEvolves(s: Statement, now: int)
    requires Sound(s) && Claimable(Sweep(s, now), now)
    ensures Sweep(s, now) == s
    ensures Sound(Claimed(s, now)) && Evolves(s, Claimed(s, now))
  {}

  /** What a ready import can have become by the time its `finalize` resumes. */
  predicate Awaited(s: Statement) {
    s.status == Ready || s.status == Approved || s.status == Deleted
  }

  lemma ApprovalAges(s: Statement, event: Event)
    requires Sound(s) && Awaited(s)
    ensures Sound(ApprovedBy(s, event)) && Ages(s, ApprovedBy(s, event))
  {}

  // ---------------------------------------------------------------- one user's statements

  ghost predicate BucketSound(bucket: seq<Statement>) {
    && (forall k :: 0 <= k < |bucket| ==> Sound(bucket[k]))
    && Bytes(bucket) <= MAX_STAGED_SOURCE_BYTES
    && ActiveCount(bucket) <= MAX_ACTIVE_IMPORTS
  }

  ghost predicate BucketAges(a: seq<Statement>, b: seq<Statement>) {
    |a| == |b| && forall k :: 0 <= k < |a| ==> Ages(a[k], b[k])
  }

  lemma {:induction false} AgingShrinks(a: seq<Statement>, b: seq<Statement>)
    requires BucketAges(a, b)
    ensures Bytes(b) <= Bytes(a) && ActiveCount(b) <= ActiveCount(a)
  {
    if a != [] {
      assert Ages(a[0], b[0]);
      AgingShrinks(a[1..], b[1..]);
    }
  }

  lemma AgingKeeps(a: seq<Statement>, b: seq<Statement>)
    requires BucketSound(a) && BucketAges(a, b) && forall k :: 0 <= k < |b| ==> Sound(b[k])
    ensures BucketSound(b)
  {
    AgingShrinks(a, b);
  }

  lemma {:induction false} TotalsAppend(bucket: seq<Statement>, s: Statement)
    ensures Bytes(bucket + [s]) == Bytes(bucket) + Bytes([s])
            && ActiveCount(bucket + [s]) == ActiveCount(bucket) + ActiveCount([s])
  {
    if bucket == [] {
      assert bucket + [s] == [s];
    } else {
      assert (bucket + [s])[1..] == bucket[1..] + [s];
      TotalsAppend(bucket[1..], s);
    }
  }

  lemma AddKeeps(bucket: seq<Statement>, s: Statement, source: string, countActive: bool)
    requires BucketSound(bucket) && Sound(s) && s.encryptedSource == Some(source)
    requires QuotaAllows(bucket, source, countActive) && (Active(s) ==> countActive)
    ensures BucketSound(bucket + [s])
  {
    TotalsAppend(bucket, s);
    assert Bytes([s]) <= |source| && ActiveCount([s]) == (if Active(s) then 1 else 0);
  }

  // ---------------------------------------------------------------- the whole store

  ghost predicate StoreSound(store: Store) {
    Valid(store) && forall u :: u in store.byUser ==> BucketSound(store.byUser[u])
  }

  lemma OpenKeeps(store: Store, user: string)
    requires StoreSound(store)
    ensures StoreSound(Opened(store, user))
  {
    assert BucketSound([]);
  }

  lemma ReplaceKeeps(store: Store, user: string, bucket: seq<Statement>)
    requires StoreSound(store) && user in store.byUser && BucketSound(bucket)
    ensures StoreSound(Replaced(store, user, bucket))
  {}

  lemma AddStepKeeps(store: Store, user: string, s: Statement, source: string, countActive: bool)
    requires StoreSound(store) && Sound(s) && s.encryptedSource == Some(source) && (Active(s) ==> countActive)
    ensures StoreSound(AfterAdd(store, user, s, source, countActive))
  {
    OpenKeeps(store, user);
    var o := Opened(store, user);
    var bucket := o.byUser[user];
    if QuotaAllows(bucket, source, countActive) && !IsDuplicate(bucket, s) {
      AddKeeps(bucket, s, source, countActive);
      ReplaceKeeps(o, user, bucket + [s]);
    }
  }

  lemma OneAges(bucket: seq<Statement>, k: nat, s: Statement)
    requires BucketSound(bucket) && k < |bucket| && Ages(bucket[k], s) && Sound(s)
    ensures BucketSound(bucket[k := s])
  {
    AgingKeeps(bucket, bucket[k := s]);
  }

  lemma EditStepKeeps(store: Store, user: string, id: string, edit: Edit)
    requires StoreSound(store)
    ensures StoreSound(AfterEdit(store, user, id, edit))
  {
    OpenKeeps(store, user);
    var o := Opened(store, user);
    var bucket := o.byUser[user];
    var k := Find(bucket, id);
    if k < |bucket| && Applies(bucket[k], edit) {
      EditEvolves(bucket[k], edit);
      OneAges(bucket, k, Edited(bucket[k], edit));
      ReplaceKeeps(o, user, bucket[k := Edited(bucket[k], edit)]);
    }
  }

  lemma ApprovalStepKeeps(store: Store, slot: Slot, event: Event)
    requires StoreSound(store) && InStore(store, slot) && Awaited(At(store, slot))
    ensures StoreSound(AfterApproval(store, slot, event))
  {
    var bucket := store.byUser[slot.user];
    ApprovalAges(bucket[slot.index], event);
    OneAges(bucket, slot.index, ApprovedBy(bucket[slot.index], event));
    ReplaceKeeps(store, slot.user, bucket[slot.index := ApprovedBy(bucket[slot.index], event)]);
  }

  /** Whether a claim takes the statement in `slot`. */
  ghost predicate Takes(store: Store, limit: int, now: int, slot: Slot)
    requires Valid(store)
  {
    slot in Batch(Swept(store, now), limit, now)
  }

  lemma SweptValid(store: Store, now: int)
    requires Valid(store)
    ensures Valid(Swept(store, now))
  {}

  /** What a claim does to one statement. */
  lemma ClaimAt(store: Store, limit: int, now: int, slot: Slot)
    requires StoreSound(store) && InStore(store, slot)
    ensures var after := Claim(store, limit, now);
            && InStore(after, slot)
            && At(after, slot)
               == (if Takes(store, limit, now, slot) then Claimed(At(store, slot), now)
                   else Sweep(At(store, slot), now))
            && (Takes(store, limit, now, slot)
                ==> Claimable(At(store, slot), now) && Sweep(At(store, slot), now) == At(store, slot))
            && Sound(At(after, slot)) && Evolves(At(store, slot), At(after, slot))
  {
    var s := At(store, slot);
    assert Sound(s) by { assert BucketSound(store.byUser[slot.user]); }
    SweepEvolves(s, now);
    SweptValid(store, now);
    assert At(Swept(store, now), slot) == Sweep(s, now);
    BatchAllowed(Swept(store, now), limit, now);
    if Takes(store, limit, now, slot) {
      assert IsClaimable(Swept(store, now), slot, now);
      ClaimEvolves(s, now);
    }
  }

  lemma ClaimBucket(store: Store, limit: int, now: int, u: string)
    requires StoreSound(store) && u in store.byUser
    ensures BucketSound(Claim(store, limit, now).byUser[u])
  {
    var a, b := store.byUser[u], Claim(store, limit, now).byUser[u];
    forall k | 0 <= k < |a| ensures Sound(b[k]) && Ages(a[k], b[k]) {
      ClaimAt(store, limit, now, Slot(u, k));
    }
    AgingKeeps(a, b);
  }

  lemma ClaimValid(store: Store, limit: int, now: int)
    requires Valid(store)
    ensures Valid(Claim(store, limit, now)) && Claim(store, limit, now).byUser.Keys == store.byUser.Keys
  {}

  lemma ClaimStepKeeps(store: Store, limit: int, now: int)
    requires StoreSound(store)
    ensures StoreSound(Claim(store, limit, now))
  {
    var after := Claim(store, limit, now);
    ClaimValid(store, limit, now);
    forall u | u in after.byUser ensures BucketSound(after.byUser[u]) {
      ClaimBucket(store, limit, now, u);
    }
  }

  lemma {:induction false} WithoutLaws(users: seq<string>, user: string)
    requires Distinct(users)
    ensures Distinct(Without(users, user)) && forall u :: u in Without(users, user) <==> u in users && u != user
  {
    if users != [] {
      assert users == [users[0]] + users[1..];
      WithoutLaws(users[1..], user);
      assert users[0] !in users[1..];
    }
  }

  lemma PurgeKeeps(store: Store, user: string)
    requires StoreSound(store)
    ensures StoreSound(Store(Without(store.users, user), store.byUser - {user}))
  {
    WithoutLaws(store.users, user);
  }

  // ---------------------------------------------------------------- requests under way

  /** A `finalize` that has found its import ready and awaits the ledger. */
  datatype Suspended = Suspended(slot: Slot, event: Event)

  datatype State = State(store: Store, suspended: map<nat, Suspended>)

  datatype Step =
    | Do(action: Action)
    | BeginFinalize(request: nat, user: string, id: string, event: Event)
    | CommitFinalize(request: nat)

  /** A purge takes the statements away, so that a request suspended on one writes to nothing. */
  function Unpurged(suspended: map<nat, Suspended>, user: string): map<nat, Suspended> {
    map q | q in suspended && suspended[q].slot.user != user :: suspended[q]
  }

  /** A request number is in use by one request at a time. */
  function Move(st: State, step: Step): State
    requires Valid(st.store)
  {
    match step
    case Do(action) =>
      State(Next(st.store, action), if action.Purging? then Unpurged(st.suspended, action.user) else st.suspended)
    case BeginFinalize(q, user, id, event) =>
      var found := ReadyAt(st.store, user, id);
      State(Next(st.store, Looking(user)),
            if found.Some? && q !in st.suspended then st.suspended[q := Suspended(found.value, event)]
            else st.suspended)
    case CommitFinalize(q) =>
      if q !in st.suspended then st
      else State(Next(st.store, Approving(st.suspended[q].slot, st.suspended[q].event)), st.suspended - {q})
  }

  /** Consistent inputs: a created import is ready and counts its rows, a queued one has none; and
      only a `finalize` approves. */
  predicate Proper(step: Step) {
    step.Do? ==>
      match step.action
      case Creating(_, s, _, rows) => s.status == Ready && s.counts == Tally(rows)
      case Enqueuing(_, s, _) => s.status == Queued && s.counts == Tally([])
      case Approving(_, _) => false
      case _ => true
  }

  ghost predicate Inv(st: State) {
    && StoreSound(st.store)
    && forall q :: q in st.suspended ==>
         InStore(st.store, st.suspended[q].slot) && Awaited(At(st.store, st.suspended[q].slot))
  }

  lemma ActionKeeps(store: Store, action: Action)
    requires StoreSound(store) && Proper(Do(action))
    ensures StoreSound(Next(store, action))
  {
    match action
    case Creating(user, s, source, rows) =>
      AddStepKeeps(store, user, Staged(s, source, rows, [CreationEvent(s), ProcessedEvent(s)]), source, false);
    case Enqueuing(user, s, source) =>
      AddStepKeeps(store, user, Staged(s, source, [], [CreationEvent(s)]), source, true);
    case Claiming(limit, now) => ClaimStepKeeps(store, limit, now);
    case Editing(user, id, edit) => EditStepKeeps(store, user, id, edit);
    case Looking(user) => OpenKeeps(store, user);
    case Purging(user) => PurgeKeeps(store, user);
  }

  // ---------------------------------------------------------------- one statement through one step

  /** What a step does to one stored statement: leases it, approves it, or neither. */
  datatype Touch = Nothing | Lease(now: int) | Approve(event: Event)

  ghost function TouchOf(st: State, step: Step, slot: Slot): Touch
    requires Valid(st.store)
  {
    match step
    case Do(Claiming(limit, now)) => if Takes(st.store, limit, now, slot) then Lease(now) else Nothing
    case CommitFinalize(q) =>
      if q in st.suspended && st.suspended[q].slot == slot then Approve(st.suspended[q].event) else Nothing
    case _ => Nothing
  }

  /** Only a claim starts or restarts an attempt, and only an approval leaves the arrows. */
  ghost predicate Changes(a: Statement, b: Statement, touch: Touch) {
    && Ages(a, b)
    && match touch
       case Nothing =>
         Arrow(a.status, b.status) && b.attempts == a.attempts
         && (b.status == Processing ==> a.status == Processing && b.processingStartedAt == a.processingStartedAt)
       case Lease(now) => Claimable(a, now) && b == Claimed(a, now)
       case Approve(event) => Awaited(a) && b == ApprovedBy(a, event)
  }

  ghost predicate Effect(a: Store, b: Store, slot: Slot, touch: Touch)
    requires InStore(a, slot)
  {
    InStore(b, slot) && Changes(At(a, slot), At(b, slot), touch)
  }

  lemma SameEffect(a: Store, b: Store, slot: Slot)
    requires InStore(a, slot) && InStore(b, slot) && At(a, slot) == At(b, slot)
    ensures Effect(a, b, slot, Nothing)
  {}

  lemma SoundAt(store: Store, slot: Slot)
    requires StoreSound(store) && InStore(store, slot)
    ensures Sound(At(store, slot))
  {
    assert BucketSound(store.byUser[slot.user]);
  }

  lemma ClaimChanges(a: Statement, b: Statement, claimed: bool, now: int)
    requires Evolves(a, b) && b == if claimed then Claimed(a, now) else Sweep(a, now)
    requires claimed ==> Claimable(a, now)
    ensures Changes(a, b, if claimed then Lease(now) else Nothing)
  {}

  lemma ClaimEffect(store: Store, limit: int, now: int, slot: Slot)
    requires StoreSound(store) && InStore(store, slot)
    ensures Effect(store, Claim(store, limit, now), slot,
                   if Takes(store, limit, now, slot) then Lease(now) else Nothing)
  {
    ClaimAt(store, limit, now, slot);
    var after := Claim(store, limit, now);
    ClaimChanges(At(store, slot), At(after, slot), Takes(store, limit, now, slot), now);
  }

  lemma EditAt(store: Store, user: string, id: string, edit: Edit, slot: Slot)
    requires InStore(store, slot)
    ensures var after := AfterEdit(store, user, id, edit);
            && InStore(after, slot)
            && (At(after, slot) == At(store, slot)
                || (slot.user == user && Applies(At(store, slot), edit)
                    && At(after, slot) == Edited(At(store, slot), edit)))
  {}

  lemma EditChanges(s: Statement, edit: Edit)
    requires Sound(s) && Applies(s, edit)
    ensures Changes(s, Edited(s, edit), Nothing) && (Edited(s, edit).status == Deleted ==> edit.Delete?)
  {}

  lemma EditEffect(store: Store, user: string, id: string, edit: Edit, slot: Slot)
    requires StoreSound(store) && InStore(store, slot)
    ensures var after := AfterEdit(store, user, id, edit);
            && Effect(store, after, slot, Nothing)
            && (At(store, slot).status != Deleted && At(after, slot).status == Deleted
                ==> edit.Delete? && slot.user == user)
  {
    var s := At(store, slot);
    SoundAt(store, slot);
    EditAt(store, user, id, edit, slot);
    if Applies(s, edit) { EditChanges(s, edit); }
  }

  lemma AddEffect(store: Store, user: string, s: Statement, source: string, countActive: bool, slot: Slot)
    requires InStore(store, slot)
    ensures Effect(store, AfterAdd(store, user, s, source, countActive), slot, Nothing)
  {
    SameEffect(store, AfterAdd(store, user, s, source, countActive), slot);
  }

  predicate Purges(step: Step, user: string) {
    step.Do? && step.action.Purging? && step.action.user == user
  }

  lemma ActionEffect(store: Store, action: Action, slot: Slot)
    requires StoreSound(store) && InStore(store, slot) && Proper(Do(action)) && !Purges(Do(action), slot.user)
    requires !action.Claiming? && !action.Editing?
    ensures Effect(store, Next(store, action), slot, Nothing) && At(Next(store, action), slot) == At(store, slot)
  {
    match action
    case Creating(user, s, source, rows) =>
      AddEffect(store, user, Staged(s, source, rows, [CreationEvent(s), ProcessedEvent(s)]), source, false, slot);
    case Enqueuing(user, s, source) =>
      AddEffect(store, user, Staged(s, source, [], [CreationEvent(s)]), source, true, slot);
    case Looking(user) => SameEffect(store, Opened(store, user), slot);
    case Purging(user) => SameEffect(store, Next(store, action), slot);
  }

  /** A step that deletes an import. */
  ghost predicate Deletes(step: Step, user: string) {
    step.Do? && step.action.Editing? && step.action.edit.Delete? && step.action.user == user
  }

  ghost predicate TurnsDeleted(a: Store, b: Store, slot: Slot)
    requires InStore(a, slot)
  {
    InStore(b, slot) && At(a, slot).status != Deleted && At(b, slot).status == Deleted
  }

  lemma ApprovalAt(store: Store, at: Slot, event: Event, slot: Slot)
    requires InStore(store, at) && InStore(store, slot)
    ensures var after := AfterApproval(store, at, event);
            InStore(after, slot)
            && At(after, slot) == (if at == slot then ApprovedBy(At(store, slot), event) else At(store, slot))
  {}

  lemma ApprovalChanges(s: Statement, event: Event)
    requires Sound(s) && Awaited(s)
    ensures Changes(s, ApprovedBy(s, event), Approve(event)) && ApprovedBy(s, event).status == Approved
  {
    ApprovalAges(s, event);
  }

  lemma ApprovalEffect(store: Store, at: Slot, event: Event, slot: Slot)
    requires StoreSound(store) && InStore(store, at) && InStore(store, slot) && Awaited(At(store, at))
    ensures Effect(store, AfterApproval(store, at, event), slot, if at == slot then Approve(event) else Nothing)
    ensures !TurnsDeleted(store, AfterApproval(store, at, event), slot)
  {
    ApprovalAt(store, at, event, slot);
    if at == slot {
      SoundAt(store, slot);
      ApprovalChanges(At(store, slot), event);
    } else {
      SameEffect(store, AfterApproval(store, at, event), slot);
    }
  }

  lemma SweepDeletesNothing(s: Statement, now: int)
    ensures Sweep(s, now).status == Deleted ==> s.status == Deleted
    ensures Claimed(s, now).status != Deleted
  {}

  lemma ClaimDeletesNothing(store: Store, limit: int, now: int, slot: Slot)
    requires StoreSound(store) && InStore(store, slot)
    ensures !TurnsDeleted(store, Claim(store, limit, now), slot)
  {
    ClaimAt(store, limit, now, slot);
    SweepDeletesNothing(At(store, slot), now);
  }

  ghost predicate Touches(st: State, step: Step, slot: Slot)
    requires Valid(st.store) && InStore(st.store, slot)
  {
    && Effect(st.store, Move(st, step).store, slot, TouchOf(st, step, slot))
    && (TurnsDeleted(st.store, Move(st, step).store, slot) ==> Deletes(step, slot.user))
  }

  lemma ActionTouches(st: State, action: Action, slot: Slot)
    requires Inv(st) && Proper(Do(action)) && InStore(st.store, slot) && !Purges(Do(action), slot.user)
    ensures Touches(st, Do(action), slot)
  {
    if action.Claiming? {
      ClaimEffect(st.store, action.limit, action.now, slot);
      ClaimDeletesNothing(st.store, action.limit, action.now, slot);
    } else if action.Editing? {
      EditEffect(st.store, action.user, action.id, action.edit, slot);
    } else {
      ActionEffect(st.store, action, slot);
    }
  }

  lemma CommitIs(st: State, q: nat, slot: Slot)
    requires Valid(st.store) && q in st.suspended
    ensures Move(st, CommitFinalize(q)).store == AfterApproval(st.store, st.suspended[q].slot, st.suspended[q].event)
    ensures TouchOf(st, CommitFinalize(q), slot)
         == if st.suspended[q].slot == slot then Approve(st.suspended[q].event) else Nothing
  {}

  lemma CommitTouches(st: State, q: nat, slot: Slot)
    requires Inv(st) && InStore(st.store, slot)
    ensures Touches(st, CommitFinalize(q), slot)
  {
    if q in st.suspended {
      CommitIs(st, q, slot);
      ApprovalEffect(st.store, st.suspended[q].slot, st.suspended[q].event, slot);
    } else {
      SameEffect(st.store, st.store, slot);
    }
  }

  /** A stored statement stays where it is; a lease, an approval and a deletion have one cause each. */
  lemma StepEffect(st: State, step: Step, slot: Slot)
    requires Inv(st) && Proper(step) && InStore(st.store, slot) && !Purges(step, slot.user)
    ensures Touches(st, step, slot)
  {
    match step
    case Do(action) => ActionTouches(st, action, slot);
    case BeginFinalize(q, user, id, event) => SameEffect(st.store, Opened(st.store, user), slot);
    case CommitFinalize(q) => CommitTouches(st, q, slot);
  }

  /** After a claim no source outlives its retention. */
  lemma ClaimEndsRetention(store: Store, limit: int, now: int, slot: Slot)
    requires StoreSound(store) && InStore(store, slot)
    ensures InStore(Claim(store, limit, now), slot) && !Expired(At(Claim(store, limit, now), slot), now)
  {
    ClaimAt(store, limit, now, slot);
    SoundAt(store, slot);
    SweepEvolves(At(store, slot), now);
  }

  lemma AwaitedLasts(a: Statement, b: Statement, touch: Touch)
    requires Awaited(a) && Changes(a, b, touch)
    ensures Awaited(b)
  {}

  ghost predicate Waiting(st: State, q: nat) {
    q in st.suspended && InStore(st.store, st.suspended[q].slot) && Awaited(At(st.store, st.suspended[q].slot))
  }

  lemma FoundReady(store: Store, user: string, id: string)
    ensures var found := ReadyAt(store, user, id);
            found.Some? ==>
              found.value.user == user && InStore(store, found.value) && At(store, found.value).status == Ready
  {}

  /** Whoever awaits the ledger after the step still has an import to return to. */
  lemma WaitingLasts(st: State, step: Step, q: nat)
    requires Inv(st) && Proper(step) && q in Move(st, step).suspended
    ensures Waiting(Move(st, step), q)
  {
    if q in st.suspended {
      var slot := st.suspended[q].slot;
      assert Move(st, step).suspended[q].slot == slot && !Purges(step, slot.user);
      StepEffect(st, step, slot);
      AwaitedLasts(At(st.store, slot), At(Move(st, step).store, slot), TouchOf(st, step, slot));
    } else {
      FoundReady(st.store, step.user, step.id);
    }
  }

  lemma CommitKeeps(st: State, q: nat)
    requires Inv(st)
    ensures StoreSound(Move(st, CommitFinalize(q)).store)
  {
    if q in st.suspended {
      var waiting := st.suspended[q];
      assert Waiting(st, q);
      ApprovalStepKeeps(st.store, waiting.slot, waiting.event);
      CommitIs(st, q, waiting.slot);
    }
  }

  lemma StoreKeeps(st: State, step: Step)
    requires Inv(st) && Proper(step)
    ensures StoreSound(Move(st, step).store)
  {
    match step
    case Do(action) => ActionKeeps(st.store, action);
    case BeginFinalize(q, user, id, event) => OpenKeeps(st.store, user);
    case CommitFinalize(q) => CommitKeeps(st, q);
  }

  /** Whatever step is taken, counters are the counts of the rows, attempts stay within their limit,
      quotas are kept, and a suspended `finalize` returns to a ready, approved or deleted import. */
  lemma StepKeeps(st: State, step: Step)
    requires Inv(st) && Proper(step)
    ensures Inv(Move(st, step))
  {
    StoreKeeps(st, step);
    forall q | q in Move(st, step).suspended ensures Waiting(Move(st, step), q) {
      WaitingLasts(st, step, q);
    }
  }

  // ---------------------------------------------------------------- runs

  ghost predicate Follows(states: seq<State>, steps: seq<Step>, i: nat)
    requires |states| == |steps| + 1 && i < |steps|
  {
    Proper(steps[i]) && Valid(states[i].store) && states[i + 1] == Move(states[i], steps[i])
  }

  /** Nothing is under way when a run starts. */
  ghost predicate Run(states: seq<State>, steps: seq<Step>) {
    && |states| == |steps| + 1
    && Inv(states[0]) && states[0].suspended == map[]
    && forall i: nat :: i < |steps| ==> Follows(states, steps, i)
  }

  lemma EmptyStoreStarts()
    ensures Inv(State(Store([], map[]), map[]))
  {}

  lemma {:induction false} RunKeeps(states: seq<State>, steps: seq<Step>, i: nat)
    requires Run(states, steps) && i < |states|
    ensures Inv(states[i])
  {
    if i > 0 {
      RunKeeps(states, steps, i - 1);
      assert Follows(states, steps, i - 1);
      StepKeeps(states[i - 1], steps[i - 1]);
    }
  }

  /** What step `i` does to the statement in `slot`. */
  ghost function TouchAt(states: seq<State>, steps: seq<Step>, i: nat, slot: Slot): Touch {
    if i < |steps| && i < |states| && Valid(states[i].store) then TouchOf(states[i], steps[i], slot) else Nothing
  }

  /** The user's data is not purged in steps `i` up to `j`. */
  ghost predicate Spared(steps: seq<Step>, user: string, i: nat, j: nat) {
    forall m :: i <= m < j && m < |steps| ==> !Purges(steps[m], user)
  }

  lemma RunEffect(states: seq<State>, steps: seq<Step>, slot: Slot, i: nat)
    requires Run(states, steps) && i < |steps| && InStore(states[i].store, slot) && Spared(steps, slot.user, i, i + 1)
    ensures Effect(states[i].store, states[i + 1].store, slot, TouchAt(states, steps, i, slot))
    ensures TurnsDeleted(states[i].store, states[i + 1].store, slot) ==> Deletes(steps[i], slot.user)
  {
    RunKeeps(states, steps, i);
    assert Follows(states, steps, i);
    StepEffect(states[i], steps[i], slot);
  }

  /** Over any stretch of a run an import only ages: a closed one is frozen, the audit log grows. */
  lemma {:induction false} RunAges(states: seq<State>, steps: seq<Step>, slot: Slot, i: nat, j: nat)
    requires Run(states, steps) && i <= j < |states|
    requires InStore(states[i].store, slot) && Spared(steps, slot.user, i, j)
    ensures InStore(states[j].store, slot) && Ages(At(states[i].store, slot), At(states[j].store, slot))
    decreases j
  {
    if i < j {
      RunAges(states, steps, slot, i, j - 1);
      RunEffect(states, steps, slot, j - 1);
      AgesTransitively(At(states[i].store, slot), At(states[j - 1].store, slot), At(states[j].store, slot));
    }
  }

  lemma AgesTransitively(a: Statement, b: Statement, c: Statement)
    requires Ages(a, b) && Ages(b, c)
    ensures Ages(a, c)
  {}

  /** A statement claimed at `t` has not been waiting since an earlier time. */
  ghost predicate LeasedSince(s: Statement, t: int) {
    s.status != Queued && (s.status == Processing ==> s.processingStartedAt.Some? && s.processingStartedAt.value >= t)
  }

  lemma LeaseStep(a: Statement, b: Statement, touch: Touch, t: int)
    requires LeasedSince(a, t) && Changes(a, b, touch)
    ensures LeasedSince(b, t)
  {}

  lemma LeaseLasts(states: seq<State>, steps: seq<Step>, slot: Slot, m: nat, t: int)
    requires Run(states, steps) && m < |steps| && InStore(states[m].store, slot) && !Purges(steps[m], slot.user)
    requires LeasedSince(At(states[m].store, slot), t)
    ensures InStore(states[m + 1].store, slot) && LeasedSince(At(states[m + 1].store, slot), t)
  {
    RunEffect(states, steps, slot, m);
    LeaseStep(At(states[m].store, slot), At(states[m + 1].store, slot), TouchAt(states, steps, m, slot), t);
  }

  lemma ClaimedThen(states: seq<State>, steps: seq<Step>, slot: Slot, i: nat)
    requires Run(states, steps) && i < |steps| && InStore(states[i].store, slot)
             && TouchAt(states, steps, i, slot).Lease?
    ensures Claimable(At(states[i].store, slot), TouchAt(states, steps, i, slot).now)
    ensures InStore(states[i + 1].store, slot)
         && LeasedSince(At(states[i + 1].store, slot), TouchAt(states, steps, i, slot).now)
  {
    RunEffect(states, steps, slot, i);
    LeaseIsClaim(states[i].store, states[i + 1].store, slot, TouchAt(states, steps, i, slot));
  }

  lemma {:induction false} LeaseHolds(states: seq<State>, steps: seq<Step>, slot: Slot, i: nat, j: nat)
    requires Run(states, steps) && i < j < |states|
    requires InStore(states[i].store, slot) && Spared(steps, slot.user, i, j) && TouchAt(states, steps, i, slot).Lease?
    ensures InStore(states[j].store, slot)
            && LeasedSince(At(states[j].store, slot), TouchAt(states, steps, i, slot).now)
    decreases j
  {
    if i < j - 1 {
      LeaseHolds(states, steps, slot, i, j - 1);
      LeaseLasts(states, steps, slot, j - 1, TouchAt(states, steps, i, slot).now);
    } else {
      ClaimedThen(states, steps, slot, i);
    }
  }

  lemma LeaseRunsOut(s: Statement, t: int, now: int)
    requires LeasedSince(s, t) && Claimable(s, now)
    ensures now - t > STALE_MS
  {}

  lemma LeaseIsClaim(a: Store, b: Store, slot: Slot, touch: Touch)
    requires InStore(a, slot) && Effect(a, b, slot, touch) && touch.Lease?
    ensures Claimable(At(a, slot), touch.now) && At(b, slot) == Claimed(At(a, slot), touch.now)
  {}

  /** Two claims of one import are more than five minutes apart. */
  lemma ClaimsAreSpaced(states: seq<State>, steps: seq<Step>, slot: Slot, i: nat, j: nat)
    requires Run(states, steps) && i < j < |steps| && InStore(states[i].store, slot) && Spared(steps, slot.user, i, j)
    requires TouchAt(states, steps, i, slot).Lease? && TouchAt(states, steps, j, slot).Lease?
    ensures TouchAt(states, steps, j, slot).now - TouchAt(states, steps, i, slot).now > STALE_MS
  {
    LeaseHolds(states, steps, slot, i, j);
    ClaimedThen(states, steps, slot, j);
    LeaseRunsOut(At(states[j].store, slot), TouchAt(states, steps, i, slot).now, TouchAt(states, steps, j, slot).now);
  }

  ghost function ClaimCount(states: seq<State>, steps: seq<Step>, slot: Slot, i: nat, j: nat): nat
    requires i <= j
    decreases j
  {
    if i == j then 0
    else ClaimCount(states, steps, slot, i, j - 1) + (if TouchAt(states, steps, j - 1, slot).Lease? then 1 else 0)
  }

  /** `attempts` counts the claims, and no import is claimed more than three times. */
  lemma {:induction false} ClaimsAreCounted(states: seq<State>, steps: seq<Step>, slot: Slot, i: nat, j: nat)
    requires Run(states, steps) && i <= j <= |steps|
    requires InStore(states[i].store, slot) && Spared(steps, slot.user, i, j)
    ensures InStore(states[j].store, slot)
    ensures At(states[j].store, slot).attempts
         == At(states[i].store, slot).attempts + ClaimCount(states, steps, slot, i, j) <= MAX_ATTEMPTS
    decreases j
  {
    if i < j {
      ClaimsAreCounted(states, steps, slot, i, j - 1);
      RunEffect(states, steps, slot, j - 1);
    }
    RunKeeps(states, steps, j);
    SoundAt(states[j].store, slot);
  }
}
