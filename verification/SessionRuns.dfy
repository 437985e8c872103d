/** Families over runs: one linear chain each, a fixed absolute lifetime, and death that is final. */
module SessionRuns {
  import opened Wrappers
  import opened AuthSpec
  import opened RefreshChains
  import opened AuditTrail
  import opened AuthInvariant
  import opened AuthRuns

  predicate RotatesFamily(outcome: Outcome, e: Event, f: Id) {
    e.RotateEvent? && outcome.SessionOpened? && outcome.claims.sid == f
  }

  /** How many times a run rotated family `f` successfully. */
  ghost function Rotations(s: State, events: seq<Event>, f: Id): nat
    decreases |events|
  {
    if events == [] then 0
    else
      var (t, outcome) := Step(s, events[0]);
      (if RotatesFamily(outcome, events[0], f) then 1 else 0) + Rotations(t, events[1..], f)
  }

  lemma RotationAddsOne(s: State, raw: Secret, draw: Draw, f: Id)
    requires FreshToken(s, draw)
    ensures FamilyIds(Rotate(s, raw, draw).0.refreshTokens, f) == FamilyIds(s.refreshTokens, f)
              + if RotatesFamily(Rotate(s, raw, draw).1, RotateEvent(raw, draw), f) then {draw.tokenId} else {}
  {
  }

  lemma RotationIsOfUsedFamily(s: State, raw: Secret, draw: Draw, f: Id)
    requires RotatesFamily(Rotate(s, raw, draw).1, RotateEvent(raw, draw), f)
    ensures FamilyUsed(s.refreshTokens, f)
  {
  }

  /** Steps that open no session leave every family's tokens in place. */
  lemma OtherStepsKeepFamilies(s: State, e: Event, f: Id)
    requires !e.RotateEvent? && !e.RegisterEvent? && !e.LoginEvent?
    ensures FamilyIds(Step(s, e).0.refreshTokens, f) == FamilyIds(s.refreshTokens, f)
  {
  }

  lemma LoginFamily(s: State, e: Event, f: Id)
    requires Enabled(s, e) && e.LoginEvent?
    ensures var ids := FamilyIds(Step(s, e).0.refreshTokens, f);
            ids == FamilyIds(s.refreshTokens, f) || (ids == {e.draw.tokenId} && !FamilyUsed(s.refreshTokens, f))
  {
  }

  lemma RegisterFamily(s: State, e: Event, f: Id)
    requires Enabled(s, e) && e.RegisterEvent?
    ensures var ids := FamilyIds(Step(s, e).0.refreshTokens, f);
            ids == FamilyIds(s.refreshTokens, f) || (ids == {e.draw.tokenId} && !FamilyUsed(s.refreshTokens, f))
  {
  }

  /** Each step adds at most one token to a family, and to a family in use only by a rotation. */
  lemma StepFamily(s: State, e: Event, f: Id)
    requires Enabled(s, e)
    ensures var (t, outcome) := Step(s, e);
            && (RotatesFamily(outcome, e, f) ==> FamilyUsed(s.refreshTokens, f))
            && |FamilyIds(t.refreshTokens, f)| ==
                 if RotatesFamily(outcome, e, f) then |FamilyIds(s.refreshTokens, f)| + 1
                 else if FamilyUsed(s.refreshTokens, f) then |FamilyIds(s.refreshTokens, f)|
                 else if FamilyUsed(t.refreshTokens, f) then 1 else 0
  {
    UnusedIsEmpty(s.refreshTokens, f);
    UnusedIsEmpty(Step(s, e).0.refreshTokens, f);
    if e.RotateEvent? {
      RotationAddsOne(s, e.raw, e.draw, f);
      if RotatesFamily(Rotate(s, e.raw, e.draw).1, e, f) {
        RotationIsOfUsedFamily(s, e.raw, e.draw, f);
      }
    } else if e.LoginEvent? {
      LoginFamily(s, e, f);
    } else if e.RegisterEvent? {
      RegisterFamily(s, e, f);
    } else {
      OtherStepsKeepFamilies(s, e, f);
    }
  }

  lemma {:induction false} RunFamily(s: State, events: seq<Event>, f: Id)
    requires Inv(s) && Admissible(s, events)
    ensures FamilyUsed(s.refreshTokens, f) ==>
              |FamilyIds(Run(s, events).refreshTokens, f)| == |FamilyIds(s.refreshTokens, f)| + Rotations(s, events, f)
    ensures !FamilyUsed(s.refreshTokens, f) && FamilyUsed(Run(s, events).refreshTokens, f) ==>
              |FamilyIds(Run(s, events).refreshTokens, f)| == 1 + Rotations(s, events, f)
    decreases |events|
  {
    if events != [] {
      var t := Step(s, events[0]).0;
      StepKeeps(s, events[0]);
      StepFamily(s, events[0], f);
      UnusedIsEmpty(s.refreshTokens, f);
      UnusedIsEmpty(t.refreshTokens, f);
      RunFamily(t, events[1..], f);
    }
  }

  lemma ChainOfSize(ts: RefreshTable, settings: Settings, now: Time, f: Id)
    requires TableInv(ts, settings, now) && FamilyUsed(ts, f)
    ensures exists c :: ScheduledChain(ts, f, c, settings, now) && |c| == |FamilyIds(ts, f)|
  {
    ChainExists(ts, settings, now, f);
    var c :| ScheduledChain(ts, f, c, settings, now);
    ChainCountsFamily(ts, f, c);
  }

  /**
   In every reachable state the tokens of a family form one finite chain under `replacedById`,
   without repeats or branches, every token but the last revoked, and exactly one longer than the
   number of successful rotations of the family. All of them share the absolute deadline fixed at the
   first, and idle deadlines stay below it and never move back along the chain.
   */
  lemma FamiliesAreChains(s: State, events: seq<Event>, f: Id)
    requires Init(s) && Admissible(s, events) && FamilyUsed(Run(s, events).refreshTokens, f)
    ensures exists c :: ScheduledChain(Run(s, events).refreshTokens, f, c, Run(s, events).settings, Run(s, events).now)
                        && |c| == Rotations(s, events, f) + 1
  {
    ReachableInv(s, events);
    InitInv(s);
    RunFamily(s, events, f);
    ChainOfSize(Run(s, events).refreshTokens, Run(s, events).settings, Run(s, events).now, f);
  }

  /** An active session is younger than the absolute lifetime, whichever of its tokens the age is counted from. */
  lemma SessionEndsByTtl(s: State, organizationId: Id, userId: Id, f: Id, id: Id)
    requires Inv(s) && SessionIsActive(s, organizationId, userId, f)
    requires id in s.refreshTokens && s.refreshTokens[id].familyId == f
    ensures s.now < s.refreshTokens[id].createdAt + s.settings.ttl
    ensures s.refreshTokens[id].absoluteExpiresAt <= s.refreshTokens[id].createdAt + s.settings.ttl
  {
    var live :| live in s.refreshTokens && s.refreshTokens[live].familyId == f && LiveAt(s.refreshTokens[live], s.now);
    assert LiveAt(s.refreshTokens[live], s.now);
    AgeBound(s.refreshTokens, s.settings, s.now, live, id);
    AgeBound(s.refreshTokens, s.settings, s.now, id, id);
  }

  // ------------------------------------------------------------ dead families

  /** A family without a live token stays that way in every run, and no access claim of it is accepted again. */
  lemma DeadForever(s: State, events: seq<Event>, f: Id, c: Claims)
    requires Inv(s) && Admissible(s, events) && Dead(s.refreshTokens, f) && c.sid == f
    ensures Dead(Run(s, events).refreshTokens, f) && !Accepted(Run(s, events), c)
  {
    RunKeeps(s, events);
    assert Dead(Run(s, events).refreshTokens, f);
  }

  /** The family exists, and no token of it is unrevoked with both deadlines ahead. */
  ghost predicate Lapsed(s: State, f: Id) {
    FamilyUsed(s.refreshTokens, f) && !HasLiveToken(s.refreshTokens, f, s.now)
  }

  lemma StepLapsed(s: State, e: Event, f: Id)
    requires Enabled(s, e) && Lapsed(s, f)
    ensures Lapsed(Step(s, e).0, f)
  {
    StepTokens(s, e);
    StepLogs(s, e);
    var a, t := s.refreshTokens, Step(s, e).0;
    var k :| k in a && a[k].familyId == f;
    assert k in t.refreshTokens && t.refreshTokens[k].familyId == f;
    forall id | id in t.refreshTokens && t.refreshTokens[id].familyId == f ensures !LiveAt(t.refreshTokens[id], t.now) {
      if id in a {
        assert !LiveAt(a[id], s.now);
      } else {
        StepNewToken(s, e, id);
      }
    }
  }

  /**
   A session that ran out is over, whether or not its token is ever presented: in every later state of
   every run the family still has no live token, is not active for anyone, and none of its claims is accepted.
   */
  lemma {:induction false} LapsedForever(s: State, events: seq<Event>, f: Id, organizationId: Id, userId: Id, c: Claims)
    requires Admissible(s, events) && Lapsed(s, f) && c.sid == f
    ensures Lapsed(Run(s, events), f)
    ensures !SessionIsActive(Run(s, events), organizationId, userId, f) && !Accepted(Run(s, events), c)
    decreases |events|
  {
    if events != [] {
      StepLapsed(s, events[0], f);
      LapsedForever(Step(s, events[0]).0, events[1..], f, organizationId, userId, c);
    }
  }

  /** The row can be exchanged: current, both deadlines ahead, user and organization not disabled. */
  ghost predicate Renewable(s: State, id: Id) {
    && id in s.refreshTokens && s.refreshTokens[id].revokedAt.None?
    && s.refreshTokens[id].expiresAt > s.now && s.refreshTokens[id].absoluteExpiresAt > s.now
    && s.refreshTokens[id].userId in s.users && s.users[s.refreshTokens[id].userId].isActive
    && s.refreshTokens[id].organizationId in s.organizations
    && s.organizations[s.refreshTokens[id].organizationId].isActive
  }

  /** A known token is exchanged if and only if it is renewable, for a session and claim of the same owner. */
  lemma RenewsExactly(s: State, raw: Secret, draw: Draw, id: Id)
    requires Inv(s) && id in s.refreshTokens && s.refreshTokens[id].tokenHash == Hash(raw)
    ensures var (row, reply) := (s.refreshTokens[id], Rotate(s, raw, draw).1);
            && (reply.SessionOpened? <==> Renewable(s, id))
            && (reply.SessionOpened? ==>
                  reply.secret == draw.secret && reply.claims.sub == row.userId
                  && reply.claims.org == row.organizationId && reply.claims.sid == row.familyId)
            && (!reply.SessionOpened? ==> reply.Refused?)
  {
    UniqueFind(s.refreshTokens, Hash(raw), id);
  }

  /** No rotation, whatever its outcome, writes to the audit log; reuse included. */
  lemma RotationIsNotAudited(s: State, raw: Secret, draw: Draw)
    ensures Rotate(s, raw, draw).0.audit == s.audit
    ensures Rotate(s, raw, draw).1 == Refused(RefreshTokenReused) ==>
              Rotate(s, raw, draw).0 == s.(refreshTokens := Rotate(s, raw, draw).0.refreshTokens)
  {
  }

  /** Presenting a token with any answer but a new session or "unknown" leaves its family dead. */
  lemma RefusedRotationKills(s: State, raw: Secret, draw: Draw, id: Id)
    requires Inv(s) && id in s.refreshTokens && s.refreshTokens[id].tokenHash == Hash(raw)
    requires Rotate(s, raw, draw).1.Refused?
    ensures Dead(Rotate(s, raw, draw).0.refreshTokens, s.refreshTokens[id].familyId)
  {
    var found := FindToken(s.refreshTokens, Hash(raw));
    UniqueFind(s.refreshTokens, Hash(raw), id);
    var f := s.refreshTokens[id].familyId;
    assert FamilyUsed(s.refreshTokens, f);
    if Rotate(s, raw, draw).1.code == RefreshTokenExpired {
      RevokeTailKills(s.refreshTokens, s.settings, s.now, id);
    } else {
      RevokeFamilyKills(s.refreshTokens, f, s.now);
    }
  }

  lemma LogoutKills(s: State, raw: Secret, id: Id)
    requires Inv(s) && id in s.refreshTokens && s.refreshTokens[id].tokenHash == Hash(raw)
    ensures Dead(Logout(s, raw).0.refreshTokens, s.refreshTokens[id].familyId)
  {
    UniqueFind(s.refreshTokens, Hash(raw), id);
    assert FamilyUsed(s.refreshTokens, s.refreshTokens[id].familyId);
    RevokeFamilyKills(s.refreshTokens, s.refreshTokens[id].familyId, s.now);
  }

  /** A completed credential change or deactivation, by whichever call, kills every family of its user. */
  lemma ChangeKills(s: State, e: Event, id: Id)
    requires Inv(s) && id in s.refreshTokens && EndedUser(s, e) == Some(s.refreshTokens[id].userId)
    ensures Dead(Step(s, e).0.refreshTokens, s.refreshTokens[id].familyId)
  {
    var u := s.refreshTokens[id].userId;
    EndedUserTable(s, e);
    assert OwnedBy(s.users, s.refreshTokens[id].organizationId, u);
    RevokeUserKills(s.refreshTokens, s.users[u].organizationId, u, s.now);
  }

  /** It also moves the user to the next version and stamps its audit entry with that version. */
  lemma ChangeMovesVersion(s: State, e: Event)
    requires EndedUser(s, e).Some?
    ensures var (u, t) := (EndedUser(s, e).value, Step(s, e).0);
            && u in s.users && u in t.users
            && t.users[u].authVersion == s.users[u].authVersion + 1
            && |t.audit| == |s.audit| + 1 && s.audit < t.audit
            && Bumps(t.audit[|s.audit|], u) && t.audit[|s.audit|].newVersion == Some(t.users[u].authVersion)
  {
  }

  /** Disabling an account by either call moves its version, stamps both versions, and ends every session it has. */
  lemma DisablingEndsSessions(s: State, e: Event, u: Id)
    requires Inv(s) && (e.UpdateUserEvent? || e.DeactivateUserEvent?) && EndedUser(s, e) == Some(u)
    ensures var t := Step(s, e).0;
            && u in s.users && u in t.users && !t.users[u].isActive
            && t.users[u].authVersion == s.users[u].authVersion + 1
            && |t.audit| == |s.audit| + 1 && s.audit < t.audit
            && t.audit[|s.audit|].entityId == u
            && t.audit[|s.audit|].previousVersion == Some(s.users[u].authVersion)
            && t.audit[|s.audit|].newVersion == Some(t.users[u].authVersion)
    ensures forall id :: id in s.refreshTokens && s.refreshTokens[id].userId == u ==>
              Dead(Step(s, e).0.refreshTokens, s.refreshTokens[id].familyId)
  {
    forall id | id in s.refreshTokens && s.refreshTokens[id].userId == u
      ensures Dead(Step(s, e).0.refreshTokens, s.refreshTokens[id].familyId)
    {
      ChangeKills(s, e, id);
    }
  }

  /** No administrator disables their own account or replaces their own roles. */
  lemma NobodyActsOnThemselves(s: State, e: Event)
    requires (e.UpdateUserEvent? && !e.isActive) || e.DeactivateUserEvent? || e.ReplaceRolesEvent?
    ensures e.userId == e.actorId ==> Step(s, e).0 == s && Step(s, e).1.Refused?
  {
  }

  /** Rotation and logout change no token of any user but the owner of the presented one. */
  lemma OthersUntouched(s: State, e: Event, id: Id, other: Id)
    requires Inv(s) && Enabled(s, e) && (e.RotateEvent? || e.LogoutEvent?)
    requires id in s.refreshTokens && s.refreshTokens[id].tokenHash == Hash(e.raw)
    requires other in s.refreshTokens && Step(s, e).0.refreshTokens[other] != s.refreshTokens[other]
    ensures s.refreshTokens[other].userId == s.refreshTokens[id].userId
    ensures s.refreshTokens[other].organizationId == s.refreshTokens[id].organizationId
    ensures s.refreshTokens[other].familyId == s.refreshTokens[id].familyId
  {
    UniqueFind(s.refreshTokens, Hash(e.raw), id);
    assert s.refreshTokens[other].familyId == s.refreshTokens[id].familyId ==>
             SameOwner(s.refreshTokens[other], s.refreshTokens[id]);
  }
}
