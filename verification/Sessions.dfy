/** Refresh-token rotation: `evaluateRefresh` of apps/api/src/domain/auth/session.ts and the
    session store of apps/api/src/infra/auth/in-memory-auth-stores.ts. */
module Sessions {
  import opened Common

  datatype Reason = Rotated | Logout | LogoutAll | ReuseDetected | Admin

  datatype Session = Session(
    id: string, userId: string, familyId: string, tokenHash: string, issuedAt: int, expiresAt: int,
    lastUsedAt: Option<int>, revokedAt: Option<int>, revokedReason: Option<Reason>)

  datatype RefreshOutcome =
    | Valid(session: Session) | NotFound | Expired | Revoked | Reuse(familyId: string, userId: string)

  function EvaluateRefresh(session: Option<Session>, now: int): RefreshOutcome {
    if session.None? then NotFound
    else
      var s := session.value;
      if s.revokedAt.Some? then
        (if s.revokedReason == Some(Rotated) then Reuse(s.familyId, s.userId) else Revoked)
      else if s.expiresAt <= now then Expired
      else Valid(s)
  }

  predicate IsSessionActive(s: Session, now: int) {
    s.revokedAt.None? && s.expiresAt > now
  }

  /** Sessions by id. */
  type Store = map<string, Session>

  predicate Live(s: Session) {
    s.revokedAt.None?
  }

  function Stamp(s: Session, reason: Reason, at: int): Session {
    s.(revokedAt := Some(at), revokedReason := Some(reason))
  }

  // ---------------------------------------------------------------- what each operation does

  predicate CanRotate(store: Store, id: string) {
    id in store && Live(store[id])
  }

  function Rotate(store: Store, id: string, successor: Session, at: int): Store {
    if CanRotate(store, id) then store[id := Stamp(store[id], Rotated, at)][successor.id := successor]
    else store
  }

  function Revoke(store: Store, id: string, reason: Reason, at: int): Store {
    if id in store && Live(store[id]) then store[id := Stamp(store[id], reason, at)] else store
  }

  /** Whom a bulk revocation is aimed at. */
  datatype Target = Family(id: string) | User(id: string) {
    predicate Hits(s: Session) {
      Live(s) && match this case Family(f) => s.familyId == f case User(u) => s.userId == u
    }
  }

  function RevokeWithin(store: Store, target: Target, ids: set<string>, reason: Reason, at: int): Store {
    map id | id in store :: if id in ids && target.Hits(store[id]) then Stamp(store[id], reason, at) else store[id]
  }

  function RevokeAll(store: Store, target: Target, reason: Reason, at: int): Store {
    RevokeWithin(store, target, store.Keys, reason, at)
  }

  function Touch(store: Store, id: string, at: int): Store {
    if id in store then store[id := store[id].(lastUsedAt := Some(at))] else store
  }

  function DeleteExpired(store: Store, before: int): Store {
    map id | id in store && !(store[id].expiresAt < before) :: store[id]
  }

  function Purge(store: Store, userId: string): Store {
    map id | id in store && store[id].userId != userId :: store[id]
  }

  ghost predicate Keyed(store: Store) {
    forall id :: id in store ==> store[id].id == id
  }

  /** No two stored sessions have the same token hash. */
  ghost predicate HashesDiffer(store: Store) {
    forall a, b :: a in store && b in store && store[a].tokenHash == store[b].tokenHash ==> a == b
  }

  ghost function Lookup(store: Store, tokenHash: string): (r: Option<Session>)
    ensures r.Some? ==> r.value.tokenHash == tokenHash && exists id :: id in store && store[id] == r.value
    ensures r.None? ==> forall id :: id in store ==> store[id].tokenHash != tokenHash
  {
    if id: string :| id in store && store[id].tokenHash == tokenHash then Some(store[id]) else None
  }

  /** A session is active exactly when a refresh of it succeeds. */
  lemma ActiveRefreshes(s: Session, now: int)
    ensures IsSessionActive(s, now) <==> EvaluateRefresh(Some(s), now) == Valid(s)
  {}

  /** What a bulk revocation does to a session: stamped when it is aimed at and not yet revoked,
      otherwise as before. */
  ghost predicate Stamped(before: Session, after: Session, aimed: bool, reason: Reason, at: int) {
    if aimed && before.revokedAt.None? then
      after.revokedAt == Some(at) && after.revokedReason == Some(reason)
      && after.(revokedAt := before.revokedAt, revokedReason := before.revokedReason) == before
    else after == before
  }

  /** Revoking a family or a user reaches the sessions of that family or user, and drops none. */
  lemma BulkRevokes(store: Store, target: Target, reason: Reason, at: int, id: string)
    ensures id in RevokeAll(store, target, reason, at) <==> id in store
    ensures id in store ==>
              Stamped(store[id], RevokeAll(store, target, reason, at)[id],
                      if target.Family? then store[id].familyId == target.id else store[id].userId == target.id,
                      reason, at)
  {}

  /** A purged user has no session left, and nobody else has lost one. */
  lemma PurgeEmpties(store: Store, user: string, id: string)
    ensures id in Purge(store, user) <==> id in store && store[id].userId != user
    ensures id in Purge(store, user) ==> Purge(store, user)[id] == store[id]
  {}

  lemma OneMore(store: Store, target: Target, done: set<string>, id: string, reason: Reason, at: int)
    requires id in store && id !in done
    ensures RevokeWithin(store, target, done, reason, at)[id] == store[id]
    ensures var sofar := RevokeWithin(store, target, done, reason, at);
            RevokeWithin(store, target, done + {id}, reason, at)
            == if target.Hits(store[id]) then sofar[id := Stamp(store[id], reason, at)] else sofar
  {}

  class InMemorySessionStore {
    var byId: Store

    constructor ()
      ensures byId == map[]
    {
      byId := map[];
    }

    method Create(session: Session) returns (r: Session)
      modifies this
      ensures byId == old(byId)[session.id := session] && r == session
    {
      byId := byId[session.id := session];
      r := session;
    }

    method RotateSession(sessionId: string, successor: Session, at: int) returns (ok: bool)
      modifies this
      ensures ok == CanRotate(old(byId), sessionId)
      ensures byId == Rotate(old(byId), sessionId, successor, at)
    {
      if sessionId !in byId || byId[sessionId].revokedAt.Some? { return false; }
      var current := byId[sessionId];
      byId := byId[sessionId := current.(revokedAt := Some(at), revokedReason := Some(Rotated))];
      byId := byId[successor.id := successor];
      ok := true;
    }

    method FindByTokenHash(tokenHash: string) returns (r: Option<Session>)
      ensures r.Some? ==> r.value in byId.Values && r.value.tokenHash == tokenHash
      ensures r.None? ==> forall s :: s in byId.Values ==> s.tokenHash != tokenHash
      ensures HashesDiffer(byId) ==> r == Lookup(byId, tokenHash)
    {
      var rest := byId.Values;
      while rest != {}
        invariant rest <= byId.Values
        invariant forall s :: s in byId.Values && s !in rest ==> s.tokenHash != tokenHash
        decreases rest
      {
        var session :| session in rest;
        if session.tokenHash == tokenHash { return Some(session); }
        rest := rest - {session};
      }
      r := None;
    }

    method RevokeSession(sessionId: string, reason: Reason, at: int)
      modifies this
      ensures byId == Revoke(old(byId), sessionId, reason, at)
    {
      if sessionId in byId && byId[sessionId].revokedAt.None? {
        byId := byId[sessionId := byId[sessionId].(revokedAt := Some(at), revokedReason := Some(reason))];
      }
    }

    /** `revokeFamily` and `revokeAllForUser`: the same loop with another test.  `hit` lists
        the sessions revoked, each once. */
    method RevokeMatching(target: Target, reason: Reason, at: int) returns (count: nat, ghost hit: seq<string>)
      requires Keyed(byId)
      modifies this
      ensures byId == RevokeAll(old(byId), target, reason, at)
      ensures count == |hit| && (forall i, j :: 0 <= i < j < |hit| ==> hit[i] != hit[j])
      ensures forall id :: id in hit <==> id in old(byId) && target.Hits(old(byId)[id])
    {
      ghost var before, done: set<string> := byId, {};
      count, hit := 0, [];
      var rest := byId.Keys;
      while rest != {}
        invariant done !! rest && done + rest == before.Keys
        invariant byId == RevokeWithin(before, target, done, reason, at)
        invariant count == |hit| && (forall i, j :: 0 <= i < j < |hit| ==> hit[i] != hit[j])
        invariant forall id :: id in hit <==> id in done && target.Hits(before[id])
        decreases rest
      {
        var id :| id in rest;
        var session := byId[id];
        OneMore(before, target, done, id, reason, at);
        if target.Hits(session) {
          byId := byId[session.id := session.(revokedAt := Some(at), revokedReason := Some(reason))];
          count, hit := count + 1, hit + [id];
        }
        rest, done := rest - {id}, done + {id};
      }
      assert done == before.Keys;
    }

    method TouchSession(sessionId: string, at: int)
      modifies this
      ensures byId == Touch(old(byId), sessionId, at)
    {
      if sessionId in byId { byId := byId[sessionId := byId[sessionId].(lastUsedAt := Some(at))]; }
    }

    method DeleteExpiredSessions(before: int) returns (count: nat)
      modifies this
      ensures byId == DeleteExpired(old(byId), before)
      ensures count == |set id | id in old(byId) && old(byId)[id].expiresAt < before|
    {
      var gone := set id | id in byId && byId[id].expiresAt < before;
      byId := byId - gone;
      count := |gone|;
    }
  }

  // ---------------------------------------------------------------- concurrent requests

  /** Where a refresh request of auth.service.ts is between two of its store calls: it has seen a
      valid session and will rotate it; its rotation was refused and it will look again; it has
      seen a replay and will revoke the family. */
  datatype Phase =
    | Rotating(tokenHash: string, session: Session, now: int)
    | LookingAgain(tokenHash: string, now: int)
    | Revoking(familyId: string, now: int)

  /** The store, the requests under way, and a history: every id, token hash and family ever
      issued, the ids rotated so far, the families revoked for a replay. */
  datatype State = State(
    store: Store, requests: map<nat, Phase>,
    ids: set<string>, hashes: set<string>, families: set<string>,
    rotated: seq<string>, caught: set<string>)

  const INITIAL: State := State(map[], map[], {}, {}, {}, [], {})

  datatype Step =
    | Login(session: Session)
    | Begin(request: nat, tokenHash: string, now: int)
    | CommitRotation(request: nat, successor: Session)
    | LookAgain(request: nat)
    | CommitRevocation(request: nat)
    | RevokeOne(id: string, reason: Reason, at: int)
    | RevokeUser(userId: string, reason: Reason, at: int)
    | TouchOne(id: string, at: int)
    | DeleteOld(before: int)
    | PurgeUser(userId: string)

  /** A new session, whose id and token nobody has had before. */
  predicate Fresh(st: State, s: Session) {
    s.id !in st.ids && s.tokenHash !in st.hashes && s.revokedAt.None? && s.revokedReason.None?
  }

  predicate Enabled(st: State, step: Step) {
    match step
    case Login(s) => Fresh(st, s) && s.familyId !in st.families
    case Begin(q, _, _) => q !in st.requests
    case CommitRotation(q, s) =>
      q in st.requests && st.requests[q].Rotating? && Fresh(st, s)
      && s.familyId == st.requests[q].session.familyId && s.userId == st.requests[q].session.userId
    case LookAgain(q) => q in st.requests && st.requests[q].LookingAgain?
    case CommitRevocation(q) => q in st.requests && st.requests[q].Revoking?
    case _ => true
  }

  function Issue(st: State, s: Session): State {
    st.(ids := st.ids + {s.id}, hashes := st.hashes + {s.tokenHash}, families := st.families + {s.familyId})
  }

  /** What a request does on seeing an outcome. */
  function Proceed(st: State, q: nat, tokenHash: string, now: int, outcome: RefreshOutcome, first: bool): State {
    match outcome
    case Reuse(family, _) => st.(requests := st.requests[q := Revoking(family, now)])
    case Valid(s) => if first then st.(requests := st.requests[q := Rotating(tokenHash, s, now)])
                     else st.(requests := st.requests - {q})
    case _ => st.(requests := st.requests - {q})
  }

  ghost function Next(st: State, step: Step): State
    requires Enabled(st, step)
  {
    match step
    case Login(s) => Issue(st.(store := st.store[s.id := s]), s)
    case Begin(q, hash, now) => Proceed(st, q, hash, now, EvaluateRefresh(Lookup(st.store, hash), now), true)
    case CommitRotation(q, s) =>
      var Rotating(hash, current, now) := st.requests[q];
      if CanRotate(st.store, current.id) then
        Issue(st.(store := Rotate(st.store, current.id, s, now), requests := st.requests - {q},
                  rotated := st.rotated + [current.id]), s)
      else st.(requests := st.requests[q := LookingAgain(hash, now)])
    case LookAgain(q) =>
      var LookingAgain(hash, now) := st.requests[q];
      Proceed(st, q, hash, now, EvaluateRefresh(Lookup(st.store, hash), now), false)
    case CommitRevocation(q) =>
      var Revoking(family, now) := st.requests[q];
      st.(store := RevokeAll(st.store, Family(family), ReuseDetected, now),
          requests := st.requests - {q}, caught := st.caught + {family})
    case RevokeOne(id, reason, at) => st.(store := Revoke(st.store, id, reason, at))
    case RevokeUser(user, reason, at) => st.(store := RevokeAll(st.store, User(user), reason, at))
    case TouchOne(id, at) => st.(store := Touch(st.store, id, at))
    case DeleteOld(before) => st.(store := DeleteExpired(st.store, before))
    case PurgeUser(user) => st.(store := Purge(st.store, user))
  }

  // ---------------------------------------------------------------- invariants

  ghost predicate StoreOk(st: State) {
    && (forall id :: id in st.store ==>
          st.store[id].id == id && id in st.ids && st.store[id].tokenHash in st.hashes
          && st.store[id].familyId in st.families)
    && HashesDiffer(st.store)
  }

  predicate Rivals(a: Session, b: Session) {
    Live(a) && Live(b) && a.familyId == b.familyId
  }

  /** Each family has at most one session that is not revoked. */
  ghost predicate OneLivePerFamily(store: Store) {
    forall a, b :: a in store && b in store && Rivals(store[a], store[b]) ==> a == b
  }

  ghost predicate NoneLive(store: Store, family: string) {
    forall id :: id in store && store[id].familyId == family ==> !Live(store[id])
  }

  /** What a request remembers still agrees with the store. */
  ghost predicate RequestsOk(st: State) {
    forall q :: q in st.requests ==>
      match st.requests[q]
      case Rotating(hash, s, _) =>
        s.id in st.ids && s.familyId in st.families
        && (s.id in st.store ==> st.store[s.id].familyId == s.familyId && st.store[s.id].tokenHash == hash)
      case Revoking(family, _) => family in st.families
      case LookingAgain(_, _) => true
  }

  /** No id is rotated twice, and a rotated session that is still stored says so. */
  ghost predicate RotatedOk(st: State) {
    && (forall i, j :: 0 <= i < j < |st.rotated| ==> st.rotated[i] != st.rotated[j])
    && (forall id :: id in st.rotated ==> id in st.ids)
    && (forall id :: id in st.rotated && id in st.store ==>
          !Live(st.store[id]) && st.store[id].revokedReason == Some(Rotated))
  }

  ghost predicate CaughtOk(st: State) {
    forall f :: f in st.caught ==> f in st.families && NoneLive(st.store, f)
  }

  ghost predicate Inv(st: State) {
    StoreOk(st) && OneLivePerFamily(st.store) && RequestsOk(st) && RotatedOk(st) && CaughtOk(st)
  }

  // ---------------------------------------------------------------- every step keeps them

  /** How stored sessions may change: a store that only stamps, touches and drops. */
  ghost predicate Ages(before: Store, after: Store) {
    forall id :: id in after ==> id in before && Older(before[id], after[id])
  }

  /** The same session later: once revoked, its stamp stays. */
  predicate Older(a: Session, b: Session) {
    && b.id == a.id && b.userId == a.userId && b.familyId == a.familyId && b.tokenHash == a.tokenHash
    && (!Live(a) ==> b.revokedAt == a.revokedAt && b.revokedReason == a.revokedReason)
  }

  /** Steps that issue no session only age the store. */
  lemma StampsAge(store: Store, id: string, target: Target, reason: Reason, at: int)
    requires Keyed(store)
    ensures Ages(store, Revoke(store, id, reason, at))
    ensures Ages(store, RevokeAll(store, target, reason, at))
  {}

  lemma OthersAge(store: Store, id: string, at: int)
    requires Keyed(store)
    ensures Ages(store, Touch(store, id, at)) && Ages(store, DeleteExpired(store, at)) && Ages(store, Purge(store, id))
  {}

  lemma AgingKeeps(st: State, st': State)
    requires Inv(st) && Ages(st.store, st'.store) && st' == st.(store := st'.store)
    ensures Inv(st')
  {
    forall id | id in st'.store ensures Older(st.store[id], st'.store[id]) {}
  }

  lemma IssueKeeps(st: State, s: Session)
    requires Inv(st) && Fresh(st, s) && NoneLive(st.store, s.familyId) && s.familyId !in st.caught
    ensures Inv(Issue(st.(store := st.store[s.id := s]), s))
  {}

  lemma RequestKeeps(st: State, q: nat, phase: Phase)
    requires Inv(st) && RequestsOk(st.(requests := map[q := phase]))
    ensures Inv(st.(requests := st.requests[q := phase]))
  {
    var one := st.(requests := map[q := phase]);
    assert q in one.requests;
  }

  lemma RequestDone(st: State, q: nat)
    requires Inv(st)
    ensures Inv(st.(requests := st.requests - {q}))
  {}

  lemma ProceedKeeps(st: State, q: nat, hash: string, now: int, first: bool)
    requires Inv(st)
    ensures Inv(Proceed(st, q, hash, now, EvaluateRefresh(Lookup(st.store, hash), now), first))
  {
    var found := Lookup(st.store, hash);
    RequestDone(st, q);
    match EvaluateRefresh(found, now) {
      case Reuse(family, _) => RequestKeeps(st, q, Revoking(family, now));
      case Valid(s) => RequestKeeps(st, q, Rotating(hash, s, now));
      case _ =>
    }
  }

  lemma RotationKeeps(st: State, q: nat, s: Session)
    requires Inv(st) && Enabled(st, CommitRotation(q, s))
    ensures Inv(Next(st, CommitRotation(q, s)))
  {
    var Rotating(hash, current, now) := st.requests[q];
    if CanRotate(st.store, current.id) {
      var stamped := st.(store := st.store[current.id := Stamp(st.store[current.id], Rotated, now)],
                         requests := st.requests - {q}, rotated := st.rotated + [current.id]);
      StampRotates(st, q, current.id, now);
      IssueKeeps(stamped, s);
    } else {
      RequestKeeps(st, q, LookingAgain(hash, now));
    }
  }

  /** Spending the live session of a family leaves the family without one. */
  lemma StampRotates(st: State, q: nat, id: string, now: int)
    requires Inv(st) && CanRotate(st.store, id)
    ensures var stamped := st.(store := st.store[id := Stamp(st.store[id], Rotated, now)],
                               requests := st.requests - {q}, rotated := st.rotated + [id]);
            Inv(stamped) && NoneLive(stamped.store, st.store[id].familyId) && st.store[id].familyId !in st.caught
  {
    var store' := st.store[id := Stamp(st.store[id], Rotated, now)];
    forall a | a in store' && store'[a].familyId == st.store[id].familyId ensures !Live(store'[a]) {
      if a != id { assert !Rivals(st.store[a], st.store[id]); }
    }
    RequestDone(st, q);
    AgingKeeps(st.(requests := st.requests - {q}), st.(requests := st.requests - {q}, store := store'));
  }

  lemma RevocationKeeps(st: State, q: nat)
    requires Inv(st) && Enabled(st, CommitRevocation(q))
    ensures Inv(Next(st, CommitRevocation(q)))
  {
    var Revoking(family, now) := st.requests[q];
    var store' := RevokeAll(st.store, Family(family), ReuseDetected, now);
    var aged := st.(requests := st.requests - {q}, store := store');
    RequestDone(st, q);
    StampsAge(st.store, "", Family(family), ReuseDetected, now);
    AgingKeeps(st.(requests := st.requests - {q}), aged);
    assert NoneLive(store', family);
  }

  /** The invariant survives every step. */
  lemma StepKeeps(st: State, step: Step)
    requires Inv(st) && Enabled(st, step)
    ensures Inv(Next(st, step))
  {
    match step {
      case Login(s) => IssueKeeps(st, s);
      case Begin(q, hash, now) => ProceedKeeps(st, q, hash, now, true);
      case CommitRotation(q, s) => RotationKeeps(st, q, s);
      case LookAgain(q) => ProceedKeeps(st, q, st.requests[q].tokenHash, st.requests[q].now, false);
      case CommitRevocation(q) => RevocationKeeps(st, q);
      case RevokeOne(id, reason, at) =>
        StampsAge(st.store, id, User(id), reason, at);
        AgingKeeps(st, Next(st, step));
      case RevokeUser(user, reason, at) =>
        StampsAge(st.store, user, User(user), reason, at);
        AgingKeeps(st, Next(st, step));
      case TouchOne(id, at) => OthersAge(st.store, id, at); AgingKeeps(st, Next(st, step));
      case DeleteOld(before) => OthersAge(st.store, "", before); AgingKeeps(st, Next(st, step));
      case PurgeUser(user) => OthersAge(st.store, user, 0); AgingKeeps(st, Next(st, step));
    }
  }

  /** The history only grows. */
  lemma HistoryGrows(st: State, step: Step)
    requires Enabled(st, step)
    ensures var st' := Next(st, step);
            st.ids <= st'.ids && st.caught <= st'.caught && st.rotated <= st'.rotated
  {}

  /** What a step does to the sessions issued before it. */
  lemma StepAges(st: State, step: Step)
    requires Inv(st) && Enabled(st, step)
    ensures forall id :: id in st.ids && id in Next(st, step).store ==>
              id in st.store && Older(st.store[id], Next(st, step).store[id])
  {
    match step {
      case CommitRevocation(q) =>
        StampsAge(st.store, "", Family(st.requests[q].familyId), ReuseDetected, st.requests[q].now);
      case RevokeOne(id, reason, at) => StampsAge(st.store, id, User(id), reason, at);
      case RevokeUser(user, reason, at) => StampsAge(st.store, user, User(user), reason, at);
      case TouchOne(id, at) => OthersAge(st.store, id, at);
      case DeleteOld(before) => OthersAge(st.store, "", before);
      case PurgeUser(user) => OthersAge(st.store, user, 0);
      case _ =>
    }
  }

  /** A family belongs to one user, in the store and among the sessions being rotated. */
  ghost predicate OneUser(st: State) {
    && (forall a, b :: a in st.store && b in st.store && st.store[a].familyId == st.store[b].familyId ==>
          st.store[a].userId == st.store[b].userId)
    && (forall q, a :: q in st.requests && st.requests[q].Rotating? && a in st.store
                       && st.store[a].familyId == st.requests[q].session.familyId ==>
          st.store[a].userId == st.requests[q].session.userId)
  }

  lemma AgingKeepsUser(st: State, st': State)
    requires Inv(st) && OneUser(st) && Ages(st.store, st'.store)
    requires forall q :: q in st'.requests ==> q in st.requests && st'.requests[q] == st.requests[q]
    ensures OneUser(st')
  {
    forall id | id in st'.store ensures Older(st.store[id], st'.store[id]) {}
  }

  lemma RotationKeepsUser(st: State, q: nat, s: Session)
    requires Inv(st) && OneUser(st) && Enabled(st, CommitRotation(q, s))
    ensures OneUser(Next(st, CommitRotation(q, s)))
  {
    var current := st.requests[q].session;
    if CanRotate(st.store, current.id) {
      assert st.store[current.id].familyId == current.familyId;
      assert st.store[current.id].userId == s.userId;
    }
  }

  lemma LoginKeepsUser(st: State, s: Session)
    requires Inv(st) && OneUser(st) && Enabled(st, Login(s))
    ensures OneUser(Next(st, Login(s)))
  {}

  lemma ProceedKeepsUser(st: State, q: nat, hash: string, now: int, first: bool)
    requires Inv(st) && OneUser(st)
    ensures OneUser(Proceed(st, q, hash, now, EvaluateRefresh(Lookup(st.store, hash), now), first))
  {}

  lemma StepKeepsUser(st: State, step: Step)
    requires Inv(st) && OneUser(st) && Enabled(st, step)
    ensures OneUser(Next(st, step))
  {
    match step {
      case Login(s) => LoginKeepsUser(st, s);
      case Begin(q, hash, now) => ProceedKeepsUser(st, q, hash, now, true);
      case CommitRotation(q, s) => RotationKeepsUser(st, q, s);
      case LookAgain(q) => ProceedKeepsUser(st, q, st.requests[q].tokenHash, st.requests[q].now, false);
      case CommitRevocation(q) =>
        StampsAge(st.store, "", Family(st.requests[q].familyId), ReuseDetected, st.requests[q].now);
        AgingKeepsUser(st, Next(st, step));
      case RevokeOne(id, reason, at) =>
        StampsAge(st.store, id, User(id), reason, at);
        AgingKeepsUser(st, Next(st, step));
      case RevokeUser(user, reason, at) =>
        StampsAge(st.store, user, User(user), reason, at);
        AgingKeepsUser(st, Next(st, step));
      case TouchOne(id, at) => OthersAge(st.store, id, at); AgingKeepsUser(st, Next(st, step));
      case DeleteOld(before) => OthersAge(st.store, "", before); AgingKeepsUser(st, Next(st, step));
      case PurgeUser(user) => OthersAge(st.store, user, 0); AgingKeepsUser(st, Next(st, step));
    }
  }

  /** `after` has the session under `id` exactly when `kept`, and as it was. */
  ghost predicate Keeps(before: Store, after: Store, id: string, kept: bool) {
    (id in after <==> id in before && kept) && (id in after ==> after[id] == before[id])
  }

  ghost predicate Stamps(before: Store, after: Store, id: string, aimed: bool, reason: Reason, at: int) {
    (id in after <==> id in before) && (id in before ==> Stamped(before[id], after[id], aimed, reason, at))
  }

  /** What the other calls of the store do to a session in the middle of whatever requests are under way. */
  lemma CallsDo(st: State, step: Step, id: string)
    requires Inv(st) && Enabled(st, step)
    ensures var before, after := st.store, Next(st, step).store;
      match step {
        case Login(s) => if id == s.id then id in after && after[id] == s else Keeps(before, after, id, true)
        case RevokeOne(target, reason, at) => Stamps(before, after, id, id == target, reason, at)
        case RevokeUser(user, reason, at) =>
          Stamps(before, after, id, id in before && before[id].userId == user, reason, at)
        case CommitRevocation(q) =>
          q !in Next(st, step).requests
          && Stamps(before, after, id, id in before && before[id].familyId == st.requests[q].familyId, ReuseDetected,
                    st.requests[q].now)
        case DeleteOld(time) => Keeps(before, after, id, id in before && before[id].expiresAt >= time)
        case PurgeUser(user) => Keeps(before, after, id, id in before && before[id].userId != user)
        case TouchOne(target, at) =>
          if id == target && id in before then id in after && after[id] == before[id].(lastUsedAt := Some(at))
          else Keeps(before, after, id, true)
        case _ => true
      }
  {}

  // ---------------------------------------------------------------- whole runs

  /** A run: its states, each got from the one before by an enabled step. */
  ghost predicate IsRun(states: seq<State>, steps: seq<Step>) {
    && |states| == |steps| + 1 && states[0] == INITIAL
    && (forall i :: 0 <= i < |steps| ==> Enabled(states[i], steps[i]) && states[i + 1] == Next(states[i], steps[i]))
  }

  lemma {:induction false} RunKeeps(states: seq<State>, steps: seq<Step>, n: nat)
    requires IsRun(states, steps) && n < |states|
    ensures Inv(states[n])
  {
    if n > 0 {
      RunKeeps(states, steps, n - 1);
      StepKeeps(states[n - 1], steps[n - 1]);
    }
  }

  /** So what a replay revokes belongs to the user of the replayed token. */
  lemma {:induction false} FamilyHasOneUser(states: seq<State>, steps: seq<Step>, n: nat)
    requires IsRun(states, steps) && n < |states|
    ensures OneUser(states[n])
  {
    if n > 0 {
      FamilyHasOneUser(states, steps, n - 1);
      RunKeeps(states, steps, n - 1);
      StepKeepsUser(states[n - 1], steps[n - 1]);
    }
  }

  lemma {:induction false} RunAges(states: seq<State>, steps: seq<Step>, i: nat, j: nat)
    requires IsRun(states, steps) && i <= j < |states|
    ensures forall id :: id in states[i].ids && id in states[j].store ==>
              id in states[i].store && Older(states[i].store[id], states[j].store[id])
    ensures states[i].ids <= states[j].ids && states[i].caught <= states[j].caught
    ensures states[i].rotated <= states[j].rotated
    decreases j
  {
    if i < j {
      RunAges(states, steps, i, j - 1);
      RunKeeps(states, steps, j - 1);
      StepAges(states[j - 1], steps[j - 1]);
      HistoryGrows(states[j - 1], steps[j - 1]);
    }
  }

  /** Safety of every interleaving: one live session per family, no session rotated twice, and a
      stamp that never changes while the session is stored. */
  lemma FamilySafety(states: seq<State>, steps: seq<Step>, i: nat, j: nat)
    requires IsRun(states, steps) && i <= j < |states|
    ensures OneLivePerFamily(states[j].store)
    ensures forall a, b :: 0 <= a < b < |states[j].rotated| ==> states[j].rotated[a] != states[j].rotated[b]
    ensures forall id :: id in states[i].store && !Live(states[i].store[id]) && id in states[j].store ==>
              states[j].store[id].revokedAt == states[i].store[id].revokedAt
              && states[j].store[id].revokedReason == states[i].store[id].revokedReason
  {
    RunKeeps(states, steps, i);
    RunKeeps(states, steps, j);
    RunAges(states, steps, i, j);
    forall id | id in states[i].store && id in states[j].store
      ensures Older(states[i].store[id], states[j].store[id])
    {
      assert id in states[i].ids;
    }
  }

  /** Once a replay has revoked a family, no session of it is ever active again. */
  lemma CaughtStaysDead(states: seq<State>, steps: seq<Step>, i: nat, j: nat, q: nat, now: int)
    requires IsRun(states, steps) && i < j < |states| && steps[i] == CommitRevocation(q)
    ensures forall id :: id in states[j].store && IsSessionActive(states[j].store[id], now) ==>
              states[j].store[id].familyId != states[i].requests[q].familyId
  {
    RunAges(states, steps, i + 1, j);
    RunKeeps(states, steps, j);
    assert states[i + 1] == Next(states[i], steps[i]);
    assert states[i].requests[q].familyId in states[j].caught;
  }

  /** The request whose turn a step is. */
  predicate Of(step: Step, q: nat) {
    match step
    case Begin(r, _, _) => r == q
    case CommitRotation(r, _) => r == q
    case LookAgain(r) => r == q
    case CommitRevocation(r) => r == q
    case _ => false
  }

  ghost predicate Idle(steps: seq<Step>, q: nat, i: nat, j: nat) {
    forall m :: i <= m < j && m < |steps| ==> !Of(steps[m], q)
  }

  lemma {:induction false} RequestWaits(states: seq<State>, steps: seq<Step>, q: nat, i: nat, j: nat)
    requires IsRun(states, steps) && i <= j < |states| && q in states[i].requests && Idle(steps, q, i, j)
    ensures q in states[j].requests && states[j].requests[q] == states[i].requests[q]
    decreases j
  {
    if i < j {
      RequestWaits(states, steps, q, i, j - 1);
      assert states[j] == Next(states[j - 1], steps[j - 1]) && !Of(steps[j - 1], q);
    }
  }

  lemma FoundRotated(st: State, id: string, now: int)
    requires Inv(st) && id in st.rotated && id in st.store
    ensures EvaluateRefresh(Lookup(st.store, st.store[id].tokenHash), now)
         == Reuse(st.store[id].familyId, st.store[id].userId)
  {
    assert Lookup(st.store, st.store[id].tokenHash) == Some(st.store[id]);
  }

  /** A rotated token that comes back is recognised as long as its session is stored. */
  lemma ReplayIsCaught(states: seq<State>, steps: seq<Step>, j: nat, id: string, q: nat, now: int)
    requires IsRun(states, steps) && j + 1 < |states| && id in states[j].rotated && id in states[j].store
    requires steps[j] == Begin(q, states[j].store[id].tokenHash, now)
    ensures q in states[j + 1].requests
         && states[j + 1].requests[q] == Revoking(states[j].store[id].familyId, now)
  {
    RunKeeps(states, steps, j);
    FoundRotated(states[j], id, now);
    assert states[j + 1] == Next(states[j], steps[j]);
  }

  /** When the request comes to revoke, every live session of that family is stamped and none is left. */
  ghost predicate FamilyRevoked(before: Store, after: Store, family: string, now: int) {
    && NoneLive(after, family)
    && (forall id :: id in before && before[id].familyId == family && Live(before[id]) ==>
          id in after && after[id] == Stamp(before[id], ReuseDetected, now))
  }

  lemma RevokingRevokes(states: seq<State>, steps: seq<Step>, j: nat, m: nat, q: nat, family: string, now: int)
    requires IsRun(states, steps) && j <= m < |steps| && Idle(steps, q, j, m) && steps[m] == CommitRevocation(q)
    requires q in states[j].requests && states[j].requests[q] == Revoking(family, now)
    ensures FamilyRevoked(states[m].store, states[m + 1].store, family, now) && family in states[m + 1].caught
  {
    RequestWaits(states, steps, q, j, m);
    assert states[m + 1] == Next(states[m], steps[m]);
  }

  /** So a replayed token takes its family with it. */
  lemma ReplayRevokesTheFamily(states: seq<State>, steps: seq<Step>, j: nat, m: nat, id: string, q: nat, now: int)
    requires IsRun(states, steps) && j < m < |steps| && id in states[j].rotated && id in states[j].store
    requires steps[j] == Begin(q, states[j].store[id].tokenHash, now)
    requires Idle(steps, q, j + 1, m) && steps[m] == CommitRevocation(q)
    ensures FamilyRevoked(states[m].store, states[m + 1].store, states[j].store[id].familyId, now)
  {
    ReplayIsCaught(states, steps, j, id, q, now);
    RevokingRevokes(states, steps, j + 1, m, q, states[j].store[id].familyId, now);
  }

  // ---------------------------------------------------------------- what a refresh request meets

  predicate Underway(st: State, q: nat) {
    q in st.requests
  }

  /** A request for a stored token goes on to rotate it exactly while the session is neither revoked nor
      expired, and to revoke the family exactly when the session was rotated; otherwise it is over. */
  lemma BeginDecides(st: State, q: nat, id: string, now: int)
    requires Inv(st) && q !in st.requests && id in st.store
    ensures var s, after := st.store[id], Next(st, Begin(q, st.store[id].tokenHash, now));
            && after.store == st.store
            && (Underway(after, q) && after.requests[q].Rotating? <==> s.revokedAt.None? && now < s.expiresAt)
            && (Underway(after, q) && after.requests[q].Revoking?
                <==> s.revokedAt.Some? && s.revokedReason == Some(Rotated))
            && (Underway(after, q) ==>
                  after.requests[q] in {Rotating(s.tokenHash, s, now), Revoking(s.familyId, now)})
  {
    assert Lookup(st.store, st.store[id].tokenHash) == Some(st.store[id]);
  }

  /** The second look only ever leads to a revocation, under the same condition. */
  lemma LookAgainDecides(st: State, q: nat, id: string)
    requires Inv(st) && Enabled(st, LookAgain(q))
    requires id in st.store && st.store[id].tokenHash == st.requests[q].tokenHash
    ensures var s, now, after := st.store[id], st.requests[q].now, Next(st, LookAgain(q));
            && after.store == st.store
            && (Underway(after, q) <==> s.revokedAt.Some? && s.revokedReason == Some(Rotated))
            && (Underway(after, q) ==> after.requests[q] == Revoking(s.familyId, now))
  {
    assert Lookup(st.store, st.requests[q].tokenHash) == Some(st.store[id]);
  }

  /** A token nobody holds ends its request at once. */
  lemma UnknownTokenEnds(st: State, q: nat, hash: string, now: int)
    requires Inv(st) && q !in st.requests && forall id :: id in st.store ==> st.store[id].tokenHash != hash
    ensures Next(st, Begin(q, hash, now)) == st
  {
    assert Lookup(st.store, hash) == None;
    assert st.requests - {q} == st.requests;
  }

  /** Request `q` found the session `id` in step `i` and rotated it in step `k`. */
  ghost predicate Refreshes(states: seq<State>, steps: seq<Step>, i: nat, k: nat, q: nat, id: string) {
    && i < k < |steps| && |states| == |steps| + 1
    && steps[i].Begin? && steps[i].request == q && id in states[i].store
    && states[i].store[id].tokenHash == steps[i].tokenHash
    && Idle(steps, q, i + 1, k) && steps[k].CommitRotation? && steps[k].request == q
  }

  /** A request is rotating after a step because it was, or because the step began it. */
  lemma RotatingBegins(st: State, step: Step, q: nat)
    requires Enabled(st, step) && q in Next(st, step).requests && Next(st, step).requests[q].Rotating?
    ensures if Of(step, q) then step.Begin? && step.request == q
            else q in st.requests && Next(st, step).requests[q] == st.requests[q]
  {}

  lemma {:induction false} BegunBefore(states: seq<State>, steps: seq<Step>, k: nat, q: nat) returns (i: nat)
    requires IsRun(states, steps) && k < |states| && q in states[k].requests && states[k].requests[q].Rotating?
    ensures i < k && steps[i].Begin? && steps[i].request == q && Idle(steps, q, i + 1, k)
    ensures q in states[i + 1].requests && states[i + 1].requests[q] == states[k].requests[q]
  {
    assert k > 0 && states[k] == Next(states[k - 1], steps[k - 1]);
    RotatingBegins(states[k - 1], steps[k - 1], q);
    if Of(steps[k - 1], q) {
      i := k - 1;
    } else {
      i := BegunBefore(states, steps, k - 1, q);
    }
  }

  /** The session a rotating request holds is the one it found, alive, when it began. */
  lemma FoundAlive(states: seq<State>, steps: seq<Step>, i: nat, q: nat)
    requires IsRun(states, steps) && i < |steps| && steps[i].Begin? && steps[i].request == q
    requires q in states[i + 1].requests && states[i + 1].requests[q].Rotating?
    ensures var s := states[i + 1].requests[q].session;
            && s.id in states[i].store && states[i].store[s.id] == s && s.tokenHash == steps[i].tokenHash
            && s.revokedAt.None? && steps[i].now < s.expiresAt
  {
    RunKeeps(states, steps, i);
    assert states[i + 1] == Next(states[i], steps[i]);
    if id :| id in states[i].store && states[i].store[id].tokenHash == steps[i].tokenHash {
      BeginDecides(states[i], q, id, steps[i].now);
    } else {
      UnknownTokenEnds(states[i], q, steps[i].tokenHash, steps[i].now);
    }
  }

  lemma {:induction false} RotatedByStep(states: seq<State>, steps: seq<Step>, j: nat, id: string) returns (k: nat)
    requires IsRun(states, steps) && j < |states| && id in states[j].rotated
    ensures k < j && steps[k].CommitRotation? && steps[k].request in states[k].requests
    ensures states[k].requests[steps[k].request].Rotating?
         && states[k].requests[steps[k].request].session.id == id && CanRotate(states[k].store, id)
  {
    assert j > 0 && states[j] == Next(states[j - 1], steps[j - 1]);
    if id in states[j - 1].rotated {
      k := RotatedByStep(states, steps, j - 1, id);
    } else {
      k := j - 1;
    }
  }

  /** Whatever was rotated in a run was a live session, neither revoked nor expired when its request
      began, and still not revoked when it was rotated. */
  lemma RotatedWasLive(states: seq<State>, steps: seq<Step>, j: nat, id: string) returns (i: nat, k: nat, q: nat)
    requires IsRun(states, steps) && j < |states| && id in states[j].rotated
    ensures k < j && Refreshes(states, steps, i, k, q, id)
    ensures states[i].store[id].revokedAt.None? && steps[i].now < states[i].store[id].expiresAt
    ensures id in states[k].store && states[k].store[id].revokedAt.None?
  {
    k := RotatedByStep(states, steps, j, id);
    q := steps[k].request;
    i := BegunBefore(states, steps, k, q);
    FoundAlive(states, steps, i, q);
  }

  /** A refresh of a live token that nobody has revoked meanwhile is granted: its successor is stored,
      and the session it replaces is stamped as rotated. */
  lemma UncontestedRefresh(states: seq<State>, steps: seq<Step>, i: nat, k: nat, q: nat, id: string)
    requires IsRun(states, steps) && Refreshes(states, steps, i, k, q, id)
    requires states[i].store[id].revokedAt.None? && steps[i].now < states[i].store[id].expiresAt
    requires id in states[k].store && states[k].store[id].revokedAt.None?
    ensures var successor, now, after := steps[k].successor, steps[i].now, states[k + 1];
            && successor.id in after.store && after.store[successor.id] == successor && successor.revokedAt.None?
            && id in after.store && after.store[id].revokedAt == Some(now)
            && after.store[id].revokedReason == Some(Rotated) && after.store[id].familyId == successor.familyId
            && q !in after.requests && id in after.rotated
  {
    RunKeeps(states, steps, i);
    RunKeeps(states, steps, k);
    assert states[i + 1] == Next(states[i], steps[i]);
    BeginDecides(states[i], q, id, steps[i].now);
    RequestWaits(states, steps, q, i + 1, k);
    assert states[k + 1] == Next(states[k], steps[k]);
  }

  // ---------------------------------------------------------------- two requests for one token

  /** In state `i` two requests have both found the session valid; `p` rotates it in step `j`, and `q`
      comes to rotate it in step `k`. */
  ghost predicate Race(states: seq<State>, steps: seq<Step>, i: nat, j: nat, k: nat, p: nat, q: nat) {
    && i <= j < k < |steps| && |states| == |steps| + 1 && p != q
    && p in states[i].requests && q in states[i].requests
    && states[i].requests[p].Rotating? && states[i].requests[q].Rotating?
    && states[i].requests[p].session.id == states[i].requests[q].session.id
    && Idle(steps, p, i, j) && steps[j].CommitRotation? && steps[j].request == p
    && CanRotate(states[j].store, states[i].requests[p].session.id)
    && Idle(steps, q, i, k) && steps[k].CommitRotation? && steps[k].request == q
  }

  lemma WinnerRotates(states: seq<State>, steps: seq<Step>, i: nat, j: nat, k: nat, p: nat, q: nat)
    requires IsRun(states, steps) && Race(states, steps, i, j, k, p, q)
    ensures states[i].requests[q].session.id in states[j + 1].rotated
  {
    RequestWaits(states, steps, p, i, j);
    assert states[j + 1] == Next(states[j], steps[j]);
  }

  /** The second rotation is refused, and its request looks the token up again. */
  lemma LoserIsRefused(states: seq<State>, steps: seq<Step>, i: nat, j: nat, k: nat, p: nat, q: nat)
    requires IsRun(states, steps) && Race(states, steps, i, j, k, p, q)
    ensures var Rotating(hash, s, now) := states[i].requests[q];
            && states[k + 1].store == states[k].store
            && q in states[k + 1].requests && states[k + 1].requests[q] == LookingAgain(hash, now)
            && (s.id in states[k].store ==> states[k].store[s.id].tokenHash == hash)
  {
    WinnerRotates(states, steps, i, j, k, p, q);
    RunAges(states, steps, j + 1, k);
    RunKeeps(states, steps, k);
    RequestWaits(states, steps, q, i, k);
    assert states[k + 1] == Next(states[k], steps[k]);
  }

  /** If the session is still stored when it does, the family is going to be revoked. */
  lemma LoserIsCaught(states: seq<State>, steps: seq<Step>, i: nat, j: nat, k: nat, l: nat, p: nat, q: nat)
    requires IsRun(states, steps) && Race(states, steps, i, j, k, p, q)
    requires k < l < |steps| && Idle(steps, q, k + 1, l) && steps[l] == LookAgain(q)
    ensures var Rotating(_, s, now) := states[i].requests[q];
            s.id in states[l].store ==>
              q in states[l + 1].requests && states[l + 1].requests[q] == Revoking(states[l].store[s.id].familyId, now)
  {
    var Rotating(hash, s, now) := states[i].requests[q];
    WinnerRotates(states, steps, i, j, k, p, q);
    LoserIsRefused(states, steps, i, j, k, p, q);
    RequestWaits(states, steps, q, k + 1, l);
    RunAges(states, steps, j + 1, l);
    RunKeeps(states, steps, l);
    if s.id in states[l].store {
      RunKeeps(states, steps, k);
      RunAges(states, steps, j + 1, k);
      RunAges(states, steps, k, l);
      assert s.id in states[k].ids;
      FoundRotated(states[l], s.id, now);
      assert states[l + 1] == Next(states[l], steps[l]);
    }
  }

  /** And once it is, no session of the family is left, the winner's included. */
  lemma RaceEndsTheFamily(states: seq<State>, steps: seq<Step>, i: nat, j: nat, k: nat, l: nat, m: nat, p: nat, q: nat)
    requires IsRun(states, steps) && Race(states, steps, i, j, k, p, q)
    requires k < l < m < |steps| && Idle(steps, q, k + 1, l) && steps[l] == LookAgain(q)
    requires states[i].requests[q].session.id in states[l].store
    requires Idle(steps, q, l + 1, m) && steps[m] == CommitRevocation(q)
    ensures var Rotating(_, s, now) := states[i].requests[q];
            FamilyRevoked(states[m].store, states[m + 1].store, states[l].store[s.id].familyId, now)
  {
    var Rotating(_, s, now) := states[i].requests[q];
    LoserIsCaught(states, steps, i, j, k, l, p, q);
    RevokingRevokes(states, steps, l + 1, m, q, states[l].store[s.id].familyId, now);
  }
}
