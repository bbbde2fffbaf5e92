/** What awaiting the ledger in the middle of `finalize` makes possible: when a deleted import comes
    back, and when two live imports of one file and account exist side by side. */
module StatementRevivals {
  import opened Common
  import opened Statements
  import opened StatementRuns

  // ---------------------------------------------------------------- deleted imports that come back

  /** The request `q` finds the import in `slot` ready and starts to await the ledger. */
  ghost predicate Begins(st: State, step: Step, q: nat, slot: Slot) {
    && step.BeginFinalize? && step.request == q && q !in st.suspended
    && ReadyAt(st.store, step.user, step.id) == Some(slot)
  }

  predicate Commits(step: Step, q: nat) {
    step.CommitFinalize? && step.request == q
  }

  /** The request `q`, started in step `i`, has not come back before step `j`. */
  ghost predicate OnItsWay(states: seq<State>, steps: seq<Step>, slot: Slot, i: nat, j: nat, q: nat) {
    && i < j <= |steps| && j < |states|
    && Begins(states[i], steps[i], q, slot)
    && Spared(steps, slot.user, i, j)
    && forall m :: i < m < j ==> !Commits(steps[m], q)
  }

  lemma BegunIs(st: State, step: Step, q: nat, slot: Slot)
    requires Valid(st.store) && Begins(st, step, q, slot)
    ensures InStore(st.store, slot) && At(st.store, slot).status == Ready
    ensures InStore(Move(st, step).store, slot) && At(Move(st, step).store, slot) == At(st.store, slot)
    ensures q in Move(st, step).suspended && Move(st, step).suspended[q].slot == slot
  {
    FoundReady(st.store, step.user, step.id);
  }

  /** Where a request comes back to. */
  ghost predicate Awaits(st: State, q: nat, slot: Slot) {
    q in st.suspended && st.suspended[q].slot == slot
  }

  lemma AwaitsOn(st: State, step: Step, q: nat, slot: Slot)
    requires Valid(st.store)
    ensures Awaits(Move(st, step), q, slot)
       <==> (Awaits(st, q, slot) && !Commits(step, q) && !Purges(step, slot.user)) || Begins(st, step, q, slot)
  {
    if step.BeginFinalize? { FoundReady(st.store, step.user, step.id); }
  }

  lemma {:induction false} AwaitedSince(states: seq<State>, steps: seq<Step>, slot: Slot, i: nat, j: nat, q: nat)
    requires Run(states, steps) && OnItsWay(states, steps, slot, i, j, q)
    ensures Awaits(states[j], q, slot)
    decreases j
  {
    assert Follows(states, steps, j - 1);
    if i < j - 1 {
      AwaitedSince(states, steps, slot, i, j - 1, q);
      AwaitsOn(states[j - 1], steps[j - 1], q, slot);
    } else {
      BegunIs(states[i], steps[i], q, slot);
    }
  }

  lemma {:induction false} BegunSomewhere(states: seq<State>, steps: seq<Step>, slot: Slot, j: nat, q: nat)
    returns (i: nat)
    requires Run(states, steps) && j < |states| && Awaits(states[j], q, slot)
    ensures OnItsWay(states, steps, slot, i, j, q)
  {
    assert j > 0;
    assert Follows(states, steps, j - 1);
    AwaitsOn(states[j - 1], steps[j - 1], q, slot);
    if Begins(states[j - 1], steps[j - 1], q, slot) {
      i := j - 1;
    } else {
      i := BegunSomewhere(states, steps, slot, j - 1, q);
    }
  }

  ghost predicate StatusAt(states: seq<State>, j: nat, slot: Slot, status: Status) {
    j < |states| && InStore(states[j].store, slot) && At(states[j].store, slot).status == status
  }

  /** Step `j` makes a deleted import a live one. */
  ghost predicate Revives(states: seq<State>, j: nat, slot: Slot) {
    StatusAt(states, j, slot, Deleted) && j + 1 < |states| && InStore(states[j + 1].store, slot)
    && At(states[j + 1].store, slot).status != Deleted
  }

  lemma DeletedTouch(a: Statement, b: Statement, touch: Touch)
    requires Changes(a, b, touch) && a.status == Deleted
    ensures b.status == (if touch.Approve? then Approved else Deleted)
  {}

  /** Only an approval brings a deleted import back, and every one does. */
  lemma RevivedByApproval(states: seq<State>, steps: seq<Step>, slot: Slot, j: nat)
    requires Run(states, steps) && j < |steps| && StatusAt(states, j, slot, Deleted) && !Purges(steps[j], slot.user)
    ensures InStore(states[j + 1].store, slot)
    ensures At(states[j + 1].store, slot).status
         == (if TouchAt(states, steps, j, slot).Approve? then Approved else Deleted)
  {
    RunEffect(states, steps, slot, j);
    DeletedTouch(At(states[j].store, slot), At(states[j + 1].store, slot), TouchAt(states, steps, j, slot));
  }

  ghost predicate Unapproved(states: seq<State>, steps: seq<Step>, slot: Slot, d: nat, j: nat) {
    forall m :: d < m < j ==> !TouchAt(states, steps, m, slot).Approve?
  }

  /** A deletion in step `d` that is not undone before step `j`. */
  ghost predicate DeletedSince(states: seq<State>, steps: seq<Step>, slot: Slot, d: nat, j: nat) {
    && d < j <= |steps| && d + 1 < |states| && j < |states|
    && Deletes(steps[d], slot.user)
    && InStore(states[d].store, slot) && TurnsDeleted(states[d].store, states[d + 1].store, slot)
    && Unapproved(states, steps, slot, d, j)
  }

  lemma {:induction false} StaysDeleted(states: seq<State>, steps: seq<Step>, slot: Slot, d: nat, j: nat)
    requires Run(states, steps) && DeletedSince(states, steps, slot, d, j) && Spared(steps, slot.user, d, j)
    ensures StatusAt(states, j, slot, Deleted)
    decreases j
  {
    if d + 1 < j {
      StaysDeleted(states, steps, slot, d, j - 1);
      RevivedByApproval(states, steps, slot, j - 1);
    }
  }

  lemma {:induction false} DeletedSomewhere(states: seq<State>, steps: seq<Step>, slot: Slot, i: nat, j: nat)
    returns (d: nat)
    requires Run(states, steps) && i <= j && j < |states| && Spared(steps, slot.user, i, j)
    requires InStore(states[i].store, slot) && At(states[i].store, slot).status != Deleted
    requires StatusAt(states, j, slot, Deleted)
    ensures i <= d < j && DeletedSince(states, steps, slot, d, j)
    decreases j
  {
    assert i < j;
    RunAges(states, steps, slot, i, j - 1);
    if At(states[j - 1].store, slot).status == Deleted {
      RevivedByApproval(states, steps, slot, j - 1);
      d := DeletedSomewhere(states, steps, slot, i, j - 1);
    } else {
      RunEffect(states, steps, slot, j - 1);
      d := j - 1;
    }
  }

  /** A `finalize` of the import in `slot` begins in step `i` and comes back in step `j`; in between
      step `d` deletes the import, and no other `finalize` of it comes back after that. */
  ghost predicate Interleaving(states: seq<State>, steps: seq<Step>, slot: Slot, i: nat, d: nat, j: nat, q: nat) {
    && i < d < j < |steps| && Commits(steps[j], q)
    && OnItsWay(states, steps, slot, i, j, q)
    && DeletedSince(states, steps, slot, d, j)
  }

  lemma InterleavingRevives(states: seq<State>, steps: seq<Step>, slot: Slot, i: nat, d: nat, j: nat, q: nat)
    requires Run(states, steps) && Interleaving(states, steps, slot, i, d, j, q)
    ensures Revives(states, j, slot) && At(states[j + 1].store, slot).status == Approved
  {
    AwaitedSince(states, steps, slot, i, j, q);
    StaysDeleted(states, steps, slot, d, j);
    assert Follows(states, steps, j);
    RevivedByApproval(states, steps, slot, j);
  }

  lemma RevivalInterleaves(states: seq<State>, steps: seq<Step>, slot: Slot, j: nat) returns (i: nat, d: nat, q: nat)
    requires Run(states, steps) && Revives(states, j, slot)
    ensures Interleaving(states, steps, slot, i, d, j, q)
  {
    assert Follows(states, steps, j);
    NotPurged(states[j], steps[j], slot);
    RevivedByApproval(states, steps, slot, j);
    q := steps[j].request;
    i := BegunSomewhere(states, steps, slot, j, q);
    assert Follows(states, steps, i);
    BegunIs(states[i], steps[i], q, slot);
    d := DeletedSomewhere(states, steps, slot, i + 1, j);
  }

  lemma NotPurged(st: State, step: Step, slot: Slot)
    requires Valid(st.store) && InStore(Move(st, step).store, slot)
    ensures !Purges(step, slot.user)
  {}

  /** A deleted import comes back in step `j` if and only if a `finalize` that began before the
      deletion comes back then. */
  lemma RevivedExactly(states: seq<State>, steps: seq<Step>, slot: Slot, j: nat)
    requires Run(states, steps)
    ensures Revives(states, j, slot) <==> exists i, d, q :: Interleaving(states, steps, slot, i, d, j, q)
  {
    if Revives(states, j, slot) {
      var i, d, q := RevivalInterleaves(states, steps, slot, j);
    }
    forall i, d, q | Interleaving(states, steps, slot, i, d, j, q) ensures Revives(states, j, slot) {
      InterleavingRevives(states, steps, slot, i, d, j, q);
    }
  }

  // ---------------------------------------------------------------- imports that stay closed

  /** No `finalize` of the import in `slot` is under way. */
  ghost predicate Quiet(st: State, slot: Slot) {
    forall q :: q in st.suspended ==> !Awaits(st, q, slot)
  }

  lemma QuietLasts(st: State, step: Step, slot: Slot)
    requires Inv(st) && Proper(step) && InStore(st.store, slot) && At(st.store, slot).status != Ready && Quiet(st, slot)
    ensures Quiet(Move(st, step), slot) && !TouchOf(st, step, slot).Approve?
  {
    forall q ensures !Awaits(Move(st, step), q, slot) {
      AwaitsOn(st, step, q, slot);
      if Begins(st, step, q, slot) { BegunIs(st, step, q, slot); }
    }
  }

  lemma ClosedStep(a: Statement, b: Statement, touch: Touch)
    requires Changes(a, b, touch) && Closed(a.status) && !touch.Approve?
    ensures b.status == a.status || b.status == Deleted
  {}

  /** A closed import of which no `finalize` is under way stays as it is or is deleted, for good. */
  lemma {:induction false} QuietIsFinal(states: seq<State>, steps: seq<Step>, slot: Slot, i: nat, j: nat)
    requires Run(states, steps) && i <= j < |states|
    requires InStore(states[i].store, slot) && Spared(steps, slot.user, i, j)
    requires Closed(At(states[i].store, slot).status) && Quiet(states[i], slot)
    ensures InStore(states[j].store, slot) && Quiet(states[j], slot)
    ensures At(states[j].store, slot).status in {At(states[i].store, slot).status, Deleted}
    decreases j
  {
    if i < j {
      QuietIsFinal(states, steps, slot, i, j - 1);
      assert Follows(states, steps, j - 1);
      RunKeeps(states, steps, j - 1);
      QuietLasts(states[j - 1], steps[j - 1], slot);
      RunEffect(states, steps, slot, j - 1);
      ClosedStep(At(states[j - 1].store, slot), At(states[j].store, slot), TouchAt(states, steps, j - 1, slot));
    }
  }

  /** A failed import is never anything but failed or deleted again. */
  lemma FailedIsFinal(states: seq<State>, steps: seq<Step>, slot: Slot, i: nat, j: nat)
    requires Run(states, steps) && i <= j < |states| && Spared(steps, slot.user, i, j)
    requires StatusAt(states, i, slot, Failed)
    ensures StatusAt(states, j, slot, Failed) || StatusAt(states, j, slot, Deleted)
  {
    RunKeeps(states, steps, i);
    QuietIsFinal(states, steps, slot, i, j);
  }

  /** An approved import leaves that status only when it is deleted. */
  lemma ApprovedLeavesForDeleted(states: seq<State>, steps: seq<Step>, slot: Slot, i: nat)
    requires Run(states, steps) && i < |steps| && StatusAt(states, i, slot, Approved) && !Purges(steps[i], slot.user)
    ensures StatusAt(states, i + 1, slot, Approved) || StatusAt(states, i + 1, slot, Deleted)
  {
    RunEffect(states, steps, slot, i);
  }

  // ---------------------------------------------------------------- two live imports of one file

  predicate Live(s: Statement) {
    s.status != Deleted && s.status != Failed
  }

  predicate LiveAt(store: Store, slot: Slot) {
    InStore(store, slot) && Live(At(store, slot))
  }

  /** In `other` there is a live import of the file and account of the one in `slot`. */
  predicate Rivals(store: Store, slot: Slot, other: Slot) {
    && InStore(store, slot) && LiveAt(store, other) && slot.user == other.user && slot != other
    && Clashes(At(store, other), At(store, slot))
  }

  predicate Twins(store: Store, a: Slot, b: Slot) {
    Rivals(store, a, b) && Live(At(store, a))
  }

  ghost predicate NoTwins(store: Store) {
    forall a, b :: !Twins(store, a, b)
  }

  /** A `finalize` comes back to a deleted import while its file has a live one. */
  ghost predicate Doubles(st: State, step: Step, slot: Slot, other: Slot) {
    && step.CommitFinalize? && Awaits(st, step.request, slot)
    && Rivals(st.store, slot, other) && At(st.store, slot).status == Deleted
  }

  lemma LivedBefore(a: Statement, b: Statement, touch: Touch)
    requires Changes(a, b, touch) && Live(b)
    ensures Live(a) || (touch.Approve? && a.status == Deleted)
  {}

  lemma AddedAt(store: Store, user: string, s: Statement, source: string, countActive: bool, newcomer: Slot,
                other: Slot)
    requires var after := AfterAdd(store, user, s, source, countActive);
             && InStore(after, newcomer) && !InStore(store, newcomer)
             && InStore(after, other) && other.user == newcomer.user && other != newcomer
    ensures InStore(store, other)
    ensures var after := AfterAdd(store, user, s, source, countActive);
            At(after, other) == At(store, other) && !Clashes(At(after, other), At(after, newcomer))
  {}

  predicate Adds(step: Step) {
    step.Do? && (step.action.Creating? || step.action.Enqueuing?)
  }

  lemma ClaimAddsNone(store: Store, limit: int, now: int, slot: Slot)
    requires Valid(store) && InStore(Claim(store, limit, now), slot)
    ensures InStore(store, slot)
  {}

  lemma EditAddsNone(store: Store, user: string, id: string, edit: Edit, slot: Slot)
    requires InStore(AfterEdit(store, user, id, edit), slot)
    ensures InStore(store, slot)
  {}

  lemma ActionAddsNone(store: Store, action: Action, slot: Slot)
    requires Valid(store) && InStore(Next(store, action), slot) && !Adds(Do(action))
    ensures InStore(store, slot)
  {
    if action.Claiming? { ClaimAddsNone(store, action.limit, action.now, slot); }
    else if action.Editing? { EditAddsNone(store, action.user, action.id, action.edit, slot); }
  }

  lemma OnlyAddsAdd(st: State, step: Step, slot: Slot)
    requires Inv(st) && InStore(Move(st, step).store, slot) && !InStore(st.store, slot)
    ensures Adds(step)
  {
    if step.Do? && !Adds(step) { ActionAddsNone(st.store, step.action, slot); }
  }

  /** A new import clashes with none that is there. */
  lemma NewcomerIsAlone(st: State, step: Step, newcomer: Slot, other: Slot)
    requires Inv(st) && Proper(step)
    requires InStore(Move(st, step).store, newcomer) && !InStore(st.store, newcomer)
    requires InStore(Move(st, step).store, other) && other.user == newcomer.user && other != newcomer
    ensures InStore(st.store, other)
    ensures At(Move(st, step).store, other) == At(st.store, other)
    ensures !Clashes(At(Move(st, step).store, other), At(Move(st, step).store, newcomer))
  {
    OnlyAddsAdd(st, step, newcomer);
    match step.action
    case Creating(user, s, source, rows) =>
      var staged := Staged(s, source, rows, [CreationEvent(s), ProcessedEvent(s)]);
      AddedAt(st.store, user, staged, source, false, newcomer, other);
    case Enqueuing(user, s, source) =>
      AddedAt(st.store, user, Staged(s, source, [], [CreationEvent(s)]), source, true, newcomer, other);
  }

  lemma TwinsAreBothWays(store: Store, a: Slot, b: Slot)
    requires Twins(store, a, b)
    ensures Twins(store, b, a) && Clashes(At(store, a), At(store, b)) && Clashes(At(store, b), At(store, a))
  {}

  /** Whatever the step did, the two were twins before unless one of them came back. */
  lemma TwinsBefore(a: Statement, b: Statement, c: Statement, d: Statement, ta: Touch, tb: Touch)
    requires Changes(a, c, ta) && Changes(b, d, tb) && Clashes(c, d) && Clashes(d, c)
    requires !(ta.Approve? && tb.Approve?)
    ensures (Clashes(a, b) && Clashes(b, a))
         || (ta.Approve? && a.status == Deleted && Clashes(b, a))
            || (tb.Approve? && b.status == Deleted && Clashes(a, b))
  {
    LivedBefore(a, c, ta);
    LivedBefore(b, d, tb);
  }

  lemma ChangesAt(st: State, step: Step, slot: Slot)
    requires Inv(st) && Proper(step) && InStore(st.store, slot) && InStore(Move(st, step).store, slot)
    ensures Changes(At(st.store, slot), At(Move(st, step).store, slot), TouchOf(st, step, slot))
  {
    NotPurged(st, step, slot);
    StepEffect(st, step, slot);
  }

  lemma ApprovedAlone(st: State, step: Step, slot: Slot)
    requires Valid(st.store) && TouchOf(st, step, slot).Approve?
    ensures step.CommitFinalize? && Awaits(st, step.request, slot)
  {}

  lemma RivalsBy(store: Store, slot: Slot, other: Slot)
    requires InStore(store, slot) && InStore(store, other) && slot.user == other.user && slot != other
    ensures Rivals(store, slot, other) <==> Clashes(At(store, other), At(store, slot))
  {}

  lemma OldTwinsComeFrom(st: State, step: Step, a: Slot, b: Slot)
    requires Inv(st) && Proper(step) && NoTwins(st.store) && Twins(Move(st, step).store, a, b)
    requires InStore(st.store, a) && InStore(st.store, b)
    ensures Doubles(st, step, a, b) || Doubles(st, step, b, a)
  {
    var ta, tb := TouchOf(st, step, a), TouchOf(st, step, b);
    TwinsAreBothWays(Move(st, step).store, a, b);
    ChangesAt(st, step, a);
    ChangesAt(st, step, b);
    if ta.Approve? { ApprovedAlone(st, step, a); }
    if tb.Approve? { ApprovedAlone(st, step, b); }
    TwinsBefore(At(st.store, a), At(st.store, b), At(Move(st, step).store, a), At(Move(st, step).store, b), ta, tb);
    RivalsBy(st.store, a, b);
    RivalsBy(st.store, b, a);
    assert !Twins(st.store, a, b);
  }

  lemma TwinsComeFrom(st: State, step: Step, a: Slot, b: Slot)
    requires Inv(st) && Proper(step) && NoTwins(st.store) && Twins(Move(st, step).store, a, b)
    ensures Doubles(st, step, a, b) || Doubles(st, step, b, a)
  {
    TwinsAreBothWays(Move(st, step).store, a, b);
    if !InStore(st.store, a) {
      NewcomerIsAlone(st, step, a, b);
    } else if !InStore(st.store, b) {
      NewcomerIsAlone(st, step, b, a);
    } else {
      OldTwinsComeFrom(st, step, a, b);
    }
  }

  lemma DoublingMakesTwins(st: State, step: Step, slot: Slot, other: Slot)
    requires Inv(st) && Doubles(st, step, slot, other)
    ensures Twins(Move(st, step).store, slot, other)
  {
    var event := st.suspended[step.request].event;
    CommitIs(st, step.request, slot);
    ApprovalAt(st.store, slot, event, slot);
    ApprovalAt(st.store, slot, event, other);
  }

  /** A step makes the first twins if and only if it is a `finalize` coming back to an import deleted
      in the meantime, of whose file and account there is a live one. */
  lemma TwinsAriseExactly(st: State, step: Step)
    requires Inv(st) && Proper(step) && NoTwins(st.store)
    ensures NoTwins(Move(st, step).store) <==> !exists slot, other :: Doubles(st, step, slot, other)
  {
    forall a, b | Twins(Move(st, step).store, a, b) ensures Doubles(st, step, a, b) || Doubles(st, step, b, a) {
      TwinsComeFrom(st, step, a, b);
    }
    forall slot, other | Doubles(st, step, slot, other) ensures Twins(Move(st, step).store, slot, other) {
      DoublingMakesTwins(st, step, slot, other);
    }
  }

  /** The import in `other` comes into being, or comes back, in step `m`. */
  ghost predicate Enters(states: seq<State>, m: nat, other: Slot) {
    && m + 1 < |states| && LiveAt(states[m + 1].store, other)
    && (!InStore(states[m].store, other) || Revives(states, m, other))
  }

  lemma DeadBefore(states: seq<State>, steps: seq<Step>, other: Slot, m: nat)
    requires Run(states, steps) && m < |steps|
    requires LiveAt(states[m + 1].store, other) && !LiveAt(states[m].store, other)
    ensures Enters(states, m, other)
  {
    if InStore(states[m].store, other) {
      assert Follows(states, steps, m);
      NotPurged(states[m], steps[m], other);
      RunEffect(states, steps, other, m);
      LivedBefore(At(states[m].store, other), At(states[m + 1].store, other), TouchAt(states, steps, m, other));
    }
  }

  lemma {:induction false} EntersSomewhere(states: seq<State>, steps: seq<Step>, other: Slot, d: nat, j: nat)
    returns (m: nat)
    requires Run(states, steps) && d <= j < |states|
    requires !LiveAt(states[d].store, other) && LiveAt(states[j].store, other)
    ensures d <= m < j && Enters(states, m, other)
    decreases j
  {
    assert d < j;
    if LiveAt(states[j - 1].store, other) {
      m := EntersSomewhere(states, steps, other, d, j - 1);
    } else {
      DeadBefore(states, steps, other, j - 1);
      m := j - 1;
    }
  }

  ghost predicate TwinFreeUpto(states: seq<State>, j: nat) {
    forall m :: 0 <= m <= j && m < |states| ==> NoTwins(states[m].store)
  }

  /** The import in `slot` comes back in step `j`, and a live import of its file and account has
      entered after the deletion. */
  ghost predicate Replacement(states: seq<State>, steps: seq<Step>, slot: Slot, other: Slot,
                              i: nat, d: nat, m: nat, j: nat, q: nat) {
    && Interleaving(states, steps, slot, i, d, j, q)
    && d < m < j && Enters(states, m, other)
    && Rivals(states[j].store, slot, other)
  }

  lemma ReplacementDoubles(states: seq<State>, steps: seq<Step>, slot: Slot, other: Slot,
                           i: nat, d: nat, m: nat, j: nat, q: nat)
    requires Run(states, steps) && Replacement(states, steps, slot, other, i, d, m, j, q)
    ensures Doubles(states[j], steps[j], slot, other)
  {
    AwaitedSince(states, steps, slot, i, j, q);
    StaysDeleted(states, steps, slot, d, j);
  }

  /** Until it is deleted, an import that a `finalize` is to come back to is live. */
  lemma LiveUntilDeleted(states: seq<State>, steps: seq<Step>, slot: Slot, i: nat, d: nat, j: nat, q: nat)
    requires Run(states, steps) && Interleaving(states, steps, slot, i, d, j, q)
    ensures LiveAt(states[d].store, slot)
  {
    AwaitedSince(states, steps, slot, i, d, q);
    RunKeeps(states, steps, d);
  }

  lemma SameImportAt(states: seq<State>, steps: seq<Step>, slot: Slot, d: nat, j: nat)
    requires Run(states, steps) && d <= j < |states| && InStore(states[d].store, slot) && Spared(steps, slot.user, d, j)
    ensures InStore(states[j].store, slot) && SameImport(At(states[d].store, slot), At(states[j].store, slot))
  {
    RunAges(states, steps, slot, d, j);
  }

  lemma RivalsThen(states: seq<State>, steps: seq<Step>, slot: Slot, other: Slot, d: nat, j: nat)
    requires Run(states, steps) && d <= j < |states| && Spared(steps, slot.user, d, j)
    requires LiveAt(states[d].store, slot) && LiveAt(states[d].store, other) && Rivals(states[j].store, slot, other)
    ensures Twins(states[d].store, slot, other)
  {
    SameImportAt(states, steps, slot, d, j);
    SameImportAt(states, steps, other, d, j);
  }

  lemma NotYetLive(states: seq<State>, steps: seq<Step>, slot: Slot, other: Slot, i: nat, d: nat, j: nat, q: nat)
    requires Run(states, steps) && Interleaving(states, steps, slot, i, d, j, q)
    requires NoTwins(states[d].store) && Rivals(states[j].store, slot, other)
    ensures !LiveAt(states[d].store, other)
  {
    LiveUntilDeleted(states, steps, slot, i, d, j, q);
    if LiveAt(states[d].store, other) { RivalsThen(states, steps, slot, other, d, j); }
  }

  /** A deletion lets nothing in. */
  lemma DeletionAdmitsNone(states: seq<State>, steps: seq<Step>, slot: Slot, other: Slot, d: nat)
    requires Run(states, steps) && d < |steps| && Deletes(steps[d], slot.user) && !LiveAt(states[d].store, other)
    ensures !LiveAt(states[d + 1].store, other)
  {
    assert Follows(states, steps, d);
    if LiveAt(states[d + 1].store, other) {
      DeadBefore(states, steps, other, d);
      RunKeeps(states, steps, d);
      if !InStore(states[d].store, other) {
        OnlyAddsAdd(states[d], steps[d], other);
      } else {
        RevivedByApproval(states, steps, other, d);
      }
    }
  }

  lemma DoublingReplaces(states: seq<State>, steps: seq<Step>, slot: Slot, other: Slot, j: nat)
    returns (i: nat, d: nat, m: nat, q: nat)
    requires Run(states, steps) && j < |steps| && TwinFreeUpto(states, j) && Doubles(states[j], steps[j], slot, other)
    ensures Replacement(states, steps, slot, other, i, d, m, j, q)
  {
    assert Follows(states, steps, j);
    RevivedByApproval(states, steps, slot, j);
    i, d, q := RevivalInterleaves(states, steps, slot, j);
    NotYetLive(states, steps, slot, other, i, d, j, q);
    DeletionAdmitsNone(states, steps, slot, other, d);
    m := EntersSomewhere(states, steps, other, d + 1, j);
  }

  /** The first twins of a run arise in step `j` if and only if a deleted import comes back then whose
      file and account another import has taken over since the deletion. */
  lemma FirstTwinsExactly(states: seq<State>, steps: seq<Step>, j: nat)
    requires Run(states, steps) && j < |steps| && TwinFreeUpto(states, j)
    ensures !NoTwins(states[j + 1].store)
       <==> exists slot, other, i, d, m, q :: Replacement(states, steps, slot, other, i, d, m, j, q)
  {
    assert Follows(states, steps, j);
    RunKeeps(states, steps, j);
    assert NoTwins(states[j].store);
    TwinsAriseExactly(states[j], steps[j]);
    if !NoTwins(states[j + 1].store) {
      var slot, other :| Doubles(states[j], steps[j], slot, other);
      var i, d, m, q := DoublingReplaces(states, steps, slot, other, j);
    }
    forall slot, other, i, d, m, q | Replacement(states, steps, slot, other, i, d, m, j, q)
      ensures Doubles(states[j], steps[j], slot, other)
    {
      ReplacementDoubles(states, steps, slot, other, i, d, m, j, q);
    }
  }

  // ---------------------------------------------------------------- a store without a ledger

  /** Every `finalize` comes back at once, as when there is no ledger to await. */
  predicate AtOnce(steps: seq<Step>) {
    forall i :: 0 <= i < |steps| - 1 && steps[i].BeginFinalize? ==> Commits(steps[i + 1], steps[i].request)
  }

  lemma CommitsNext(steps: seq<Step>, i: nat, q: nat)
    requires AtOnce(steps) && i + 1 < |steps| && steps[i].BeginFinalize? && steps[i].request == q
    ensures Commits(steps[i + 1], q)
  {}

  lemma NothingComesBack(states: seq<State>, steps: seq<Step>, slot: Slot, j: nat)
    requires Run(states, steps) && AtOnce(steps)
    ensures !Revives(states, j, slot)
  {
    if Revives(states, j, slot) {
      var i, d, q := RevivalInterleaves(states, steps, slot, j);
      CommitsNext(steps, i, q);
    }
  }

  /** Then a deleted import stays deleted, and twins never arise. */
  lemma {:induction false} WithoutAwaitNoTwins(states: seq<State>, steps: seq<Step>, j: nat)
    requires Run(states, steps) && AtOnce(steps) && NoTwins(states[0].store) && j < |states|
    ensures TwinFreeUpto(states, j) && forall slot :: !Revives(states, j, slot)
  {
    forall slot ensures !Revives(states, j, slot) { NothingComesBack(states, steps, slot, j); }
    if j > 0 {
      WithoutAwaitNoTwins(states, steps, j - 1);
      FirstTwinsExactly(states, steps, j - 1);
      if !NoTwins(states[j].store) {
        var slot, other, i, d, m, q :| Replacement(states, steps, slot, other, i, d, m, j - 1, q);
        InterleavingRevives(states, steps, slot, i, d, j - 1, q);
      }
    }
  }

  // ---------------------------------------------------------------- such a run

  /** An import is created, its `finalize` starts, it is deleted, the same file is uploaded again, and
      the `finalize` comes back. */
  function UploadedAgain(user: string, s: Statement, t: Statement, source: string, event: Event, at: int): seq<Step> {
    [Do(Creating(user, s, source, [])), BeginFinalize(0, user, s.id, event),
     Do(Editing(user, s.id, Delete(at, event))), Do(Enqueuing(user, t, source)), CommitFinalize(0)]
  }

  /** A store of one user. */
  function Holding(user: string, imports: seq<Statement>): Store {
    Store([user], map[user := imports])
  }

  lemma FirstAdded(user: string, s: Statement, source: string)
    requires |source| <= MAX_STAGED_SOURCE_BYTES
    ensures AfterAdd(Store([], map[]), user, s, source, false) == Holding(user, [s])
  {
    assert Opened(Store([], map[]), user) == Holding(user, []);
    assert [] + [s] == [s];
  }

  lemma FoundFirst(user: string, s: Statement)
    ensures Find([s], s.id) == 0
    ensures s.status == Ready ==> ReadyAt(Holding(user, [s]), user, s.id) == Some(Slot(user, 0))
  {}

  lemma FirstDeleted(user: string, s: Statement, edit: Edit)
    requires Applies(s, edit)
    ensures AfterEdit(Holding(user, [s]), user, s.id, edit) == Holding(user, [Edited(s, edit)])
  {
    FoundFirst(user, s);
    assert [s][0 := Edited(s, edit)] == [Edited(s, edit)];
  }

  lemma SecondAdded(user: string, s: Statement, t: Statement, source: string)
    requires s.status == Deleted && s.encryptedSource == Some(source) && 2 * |source| <= MAX_STAGED_SOURCE_BYTES
    ensures AfterAdd(Holding(user, [s]), user, t, source, true) == Holding(user, [s, t])
  {
    assert [s][1..] == [] && Bytes([s]) <= |source| && ActiveCount([s]) == 0;
    assert [s] + [t] == [s, t];
  }

  lemma FirstApproved(user: string, s: Statement, t: Statement, event: Event)
    ensures AfterApproval(Holding(user, [s, t]), Slot(user, 0), event) == Holding(user, [ApprovedBy(s, event), t])
  {
    assert [s, t][0 := ApprovedBy(s, event)] == [ApprovedBy(s, event), t];
  }

  function FirstStaged(s: Statement, source: string): Statement {
    Staged(s, source, [], [CreationEvent(s), ProcessedEvent(s)])
  }

  function SecondStaged(t: Statement, source: string): Statement {
    Staged(t, source, [], [CreationEvent(t)])
  }

  function FirstGone(s: Statement, source: string, event: Event, at: int): Statement
    requires s.status == Ready
  {
    Edited(FirstStaged(s, source), Delete(at, event))
  }

  /** The state after each step. */
  function AfterUploads(user: string, s: Statement, t: Statement, source: string, event: Event, at: int): seq<State>
    requires s.status == Ready
  {
    var a, b, gone := FirstStaged(s, source), SecondStaged(t, source), FirstGone(s, source, event, at);
    var waiting := map[0 as nat := Suspended(Slot(user, 0), event)];
    [State(Store([], map[]), map[]), State(Holding(user, [a]), map[]), State(Holding(user, [a]), waiting),
     State(Holding(user, [gone]), waiting), State(Holding(user, [gone, b]), waiting),
     State(Holding(user, [ApprovedBy(gone, event), b]), map[])]
  }

  lemma FirstSteps(user: string, s: Statement, t: Statement, source: string, event: Event, at: int)
    requires s.status == Ready && s.counts == Tally([]) && |source| <= MAX_STAGED_SOURCE_BYTES
    ensures var steps := UploadedAgain(user, s, t, source, event, at);
            var states := AfterUploads(user, s, t, source, event, at);
            Follows(states, steps, 0) && Follows(states, steps, 1)
  {
    FirstAdded(user, FirstStaged(s, source), source);
    FoundFirst(user, FirstStaged(s, source));
  }

  lemma MiddleSteps(user: string, s: Statement, t: Statement, source: string, event: Event, at: int)
    requires s.status == Ready && t.status == Queued && t.counts == Tally([])
    requires 2 * |source| <= MAX_STAGED_SOURCE_BYTES
    ensures var steps := UploadedAgain(user, s, t, source, event, at);
            var states := AfterUploads(user, s, t, source, event, at);
            Follows(states, steps, 2) && Follows(states, steps, 3)
  {
    FirstDeleted(user, FirstStaged(s, source), Delete(at, event));
    SecondAdded(user, FirstGone(s, source, event, at), SecondStaged(t, source), source);
  }

  lemma LastStep(user: string, s: Statement, t: Statement, source: string, event: Event, at: int)
    requires s.status == Ready
    ensures var steps := UploadedAgain(user, s, t, source, event, at);
            var states := AfterUploads(user, s, t, source, event, at);
            Follows(states, steps, 4)
  {
    FirstApproved(user, FirstGone(s, source, event, at), SecondStaged(t, source), event);
  }

  /** Whatever the file, this is a run: in its state 3 the first import is deleted, in its state 5 it is
      approved and the second one is live as well. */
  lemma DeletedImportComesBack(user: string, s: Statement, t: Statement, source: string, event: Event, at: int)
    requires s.status == Ready && t.status == Queued && s.counts == t.counts == Tally([])
    requires s.accountId == t.accountId && s.statementHash == t.statementHash
    requires 2 * |source| <= MAX_STAGED_SOURCE_BYTES
    ensures var steps := UploadedAgain(user, s, t, source, event, at);
            var states := AfterUploads(user, s, t, source, event, at);
            && Run(states, steps)
            && StatusAt(states, 3, Slot(user, 0), Deleted) && StatusAt(states, 5, Slot(user, 0), Approved)
            && Twins(states[5].store, Slot(user, 0), Slot(user, 1))
  {
    var steps, states := UploadedAgain(user, s, t, source, event, at), AfterUploads(user, s, t, source, event, at);
    EmptyStoreStarts();
    FirstSteps(user, s, t, source, event, at);
    MiddleSteps(user, s, t, source, event, at);
    LastStep(user, s, t, source, event, at);
    forall i: nat | i < |steps| ensures Follows(states, steps, i) {
      assert i == 0 || i == 1 || i == 2 || i == 3 || i == 4;
    }
  }
}
