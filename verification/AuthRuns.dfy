/** What the session protocol guarantees over every run from an empty database. */
module AuthRuns {
  import opened Wrappers
  import opened AuthSpec
  import opened RefreshChains
  import opened AuthInvariant

  // -------------------------------------------------------- nothing is undone

  ghost predicate TokensPersist(a: RefreshTable, b: RefreshTable) {
    forall id :: id in a ==> id in b && SameRow(a[id], b[id]) && (a[id].revokedAt.Some? ==> b[id] == a[id])
  }

  ghost predicate DeathsPersist(a: RefreshTable, b: RefreshTable) {
    forall f :: Dead(a, f) ==> Dead(b, f)
  }

  ghost predicate ResetsPersist(a: ResetTable, b: ResetTable) {
    forall id :: id in a ==> id in b && a[id].(consumedAt := None) == b[id].(consumedAt := None)
                             && (a[id].consumedAt.Some? ==> b[id] == a[id])
  }

  /** Every later state still shows everything that happened before. */
  ghost predicate Later(s: State, t: State) {
    && t.settings == s.settings && s.now <= t.now && s.minted <= t.minted && s.audit <= t.audit
    && UsersMove(s.users, t.users)
    && TokensPersist(s.refreshTokens, t.refreshTokens)
    && DeathsPersist(s.refreshTokens, t.refreshTokens)
    && ResetsPersist(s.resetTokens, t.resetTokens)
  }

  predicate CredentialEvent(e: Event) {
    e.ChangePasswordEvent? || e.ResetPasswordEvent?
  }

  lemma AccountUsers(s: State, e: Event)
    requires e.UpdateUserEvent? || e.DeactivateUserEvent?
    ensures UsersMove(s.users, Step(s, e).0.users)
  {
  }

  lemma AdministrativeUsers(s: State, e: Event)
    requires Enabled(s, e) && (e.CreateUserEvent? || e.ReplaceRolesEvent?)
    ensures UsersMove(s.users, Step(s, e).0.users)
  {
  }

  lemma CredentialUsers(s: State, e: Event)
    requires CredentialEvent(e)
    ensures UsersMove(s.users, Step(s, e).0.users)
  {
  }

  lemma OtherUsers(s: State, e: Event)
    requires Enabled(s, e) && !Administrative(e) && !CredentialEvent(e)
    ensures UsersMove(s.users, Step(s, e).0.users)
  {
  }

  lemma StepUsers(s: State, e: Event)
    requires Enabled(s, e)
    ensures UsersMove(s.users, Step(s, e).0.users)
  {
    if e.UpdateUserEvent? || e.DeactivateUserEvent? {
      AccountUsers(s, e);
    } else if Administrative(e) {
      AdministrativeUsers(s, e);
    } else if CredentialEvent(e) {
      CredentialUsers(s, e);
    } else {
      OtherUsers(s, e);
    }
  }

  lemma StepResets(s: State, e: Event)
    requires Enabled(s, e)
    ensures ResetsPersist(s.resetTokens, Step(s, e).0.resetTokens)
  {
  }

  lemma StepLogs(s: State, e: Event)
    ensures var t := Step(s, e).0;
            t.settings == s.settings && s.now <= t.now && s.minted <= t.minted && s.audit <= t.audit
  {
  }

  lemma BulkRevocationPersists(ts: RefreshTable, f: Id, organizationId: Id, userId: Id, at: Time)
    ensures TokensPersist(ts, RevokeFamily(ts, f, at))
    ensures TokensPersist(ts, RevokeUserSessions(ts, organizationId, userId, at))
  {
  }

  lemma ReplacePersists(ts: RefreshTable, id: Id, next: Id, row: RefreshToken, at: Time)
    requires id in ts && next !in ts && ts[id].revokedAt.None?
    ensures TokensPersist(ts, Replace(ts, id, next, row, at))
  {
  }

  lemma RotateTokens(s: State, raw: Secret, draw: Draw)
    requires FreshToken(s, draw)
    ensures TokensPersist(s.refreshTokens, Rotate(s, raw, draw).0.refreshTokens)
  {
    var found := FindToken(s.refreshTokens, Hash(raw));
    if found.Some? {
      var id := found.value;
      BulkRevocationPersists(s.refreshTokens, s.refreshTokens[id].familyId, 0, 0, s.now);
      if s.refreshTokens[id].revokedAt.None? {
        ReplacePersists(s.refreshTokens, id, draw.tokenId, Replacement(s, s.refreshTokens[id], draw), s.now);
      }
    }
  }

  /** Steps that present a refresh token or open a session. */
  predicate TokenEvent(e: Event) {
    e.RotateEvent? || e.LogoutEvent? || e.LoginEvent? || e.RegisterEvent?
  }

  /** The user whose sessions a credential change or a deactivation is about. */
  ghost function Subject(s: State, e: Event): Option<Id> {
    match e
    case ChangePasswordEvent(_, userId, _, _, _) => Some(userId)
    case DeactivateUserEvent(_, userId) => Some(userId)
    case UpdateUserEvent(_, userId, _, isActive) =>
      if userId in s.users && s.users[userId].isActive && !isActive then Some(userId) else None
    case ResetPasswordEvent(raw, _, _) =>
      var found := FindReset(s.resetTokens, Hash(raw));
      if found.Some? then Some(s.resetTokens[found.value].userId) else None
    case _ => None
  }

  /** The user all of whose sessions a step ends, if it completes and does. */
  ghost function EndedUser(s: State, e: Event): Option<Id> {
    if Step(s, e).1 == Done then Subject(s, e) else None
  }

  /** Such a step revokes exactly that user's tokens. */
  lemma EndedUserTable(s: State, e: Event)
    requires EndedUser(s, e).Some?
    ensures var u := EndedUser(s, e).value;
            && u in s.users
            && Step(s, e).0.refreshTokens == RevokeUserSessions(s.refreshTokens, s.users[u].organizationId, u, s.now)
  {
  }

  lemma UntouchedTable(s: State, e: Event)
    requires !TokenEvent(e) && EndedUser(s, e).None?
    ensures Step(s, e).0.refreshTokens == s.refreshTokens
  {
  }

  lemma LogoutTokens(s: State, raw: Secret)
    ensures TokensPersist(s.refreshTokens, Logout(s, raw).0.refreshTokens)
  {
    var found := FindToken(s.refreshTokens, Hash(raw));
    if found.Some? {
      BulkRevocationPersists(s.refreshTokens, s.refreshTokens[found.value].familyId, 0, 0, s.now);
    }
  }

  lemma OpeningTokens(s: State, e: Event)
    requires Enabled(s, e) && (e.LoginEvent? || e.RegisterEvent?)
    ensures TokensPersist(s.refreshTokens, Step(s, e).0.refreshTokens)
  {
  }

  lemma StepTokens(s: State, e: Event)
    requires Enabled(s, e)
    ensures TokensPersist(s.refreshTokens, Step(s, e).0.refreshTokens)
  {
    if e.RotateEvent? {
      RotateTokens(s, e.raw, e.draw);
    } else if e.LogoutEvent? {
      LogoutTokens(s, e.raw);
    } else if TokenEvent(e) {
      OpeningTokens(s, e);
    } else if EndedUser(s, e).Some? {
      var u := EndedUser(s, e).value;
      EndedUserTable(s, e);
      BulkRevocationPersists(s.refreshTokens, 0, s.users[u].organizationId, u, s.now);
    } else {
      UntouchedTable(s, e);
    }
  }

  ghost predicate HasLiveToken(ts: RefreshTable, f: Id, now: Time) {
    exists id :: id in ts && ts[id].familyId == f && LiveAt(ts[id], now)
  }

  /** A token that appears in a family already in use replaces a live token of that family. */
  lemma StepNewToken(s: State, e: Event, id: Id)
    requires Enabled(s, e) && id in Step(s, e).0.refreshTokens && id !in s.refreshTokens
    ensures var f := Step(s, e).0.refreshTokens[id].familyId;
            FamilyUsed(s.refreshTokens, f) ==> HasLiveToken(s.refreshTokens, f, s.now)
  {
  }

  lemma StepDeaths(s: State, e: Event)
    requires Enabled(s, e)
    ensures DeathsPersist(s.refreshTokens, Step(s, e).0.refreshTokens)
  {
    StepTokens(s, e);
    var a, b := s.refreshTokens, Step(s, e).0.refreshTokens;
    forall f | Dead(a, f) ensures Dead(b, f) {
      var k :| k in a && a[k].familyId == f;
      assert k in b && b[k].familyId == f;
      forall id | id in b && b[id].familyId == f ensures b[id].revokedAt.Some? {
        if id !in a {
          StepNewToken(s, e, id);
        }
      }
    }
  }

  lemma StepLater(s: State, e: Event)
    requires Enabled(s, e)
    ensures Later(s, Step(s, e).0)
  {
    StepUsers(s, e);
    StepResets(s, e);
    StepLogs(s, e);
    StepTokens(s, e);
    StepDeaths(s, e);
  }

  lemma LaterTransitive(s: State, t: State, v: State)
    requires Later(s, t) && Later(t, v)
    ensures Later(s, v)
  {
  }

  /** Every run only adds to what happened, and keeps the invariant. */
  lemma {:induction false} RunKeeps(s: State, events: seq<Event>)
    requires Inv(s) && Admissible(s, events)
    ensures Inv(Run(s, events)) && Later(s, Run(s, events))
    decreases |events|
  {
    if events != [] {
      var t := Step(s, events[0]).0;
      StepKeeps(s, events[0]);
      StepLater(s, events[0]);
      RunKeeps(t, events[1..]);
      LaterTransitive(s, t, Run(s, events));
    }
  }

  lemma ReachableInv(s: State, events: seq<Event>)
    requires Init(s) && Admissible(s, events)
    ensures Inv(Run(s, events))
  {
    InitInv(s);
    RunKeeps(s, events);
  }
}
