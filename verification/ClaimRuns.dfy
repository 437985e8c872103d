/** Access claims over runs: what ends their acceptance, and when they are current. */
module ClaimRuns {
  import opened Wrappers
  import opened AuthSpec
  import opened RefreshChains
  import opened AuditTrail
  import opened AuthInvariant
  import opened AuthRuns
  import opened SessionMachine
  import opened SessionRuns

  lemma ClaimIsNotAhead(s: State, c: Claims)
    requires Inv(s) && c in s.minted
    ensures c.sub in s.users && c.av <= s.users[c.sub].authVersion
  {
  }

  lemma VersionOnlyGrows(s: State, events: seq<Event>, u: Id)
    requires Inv(s) && Admissible(s, events) && u in s.users
    ensures u in Run(s, events).users && s.users[u].authVersion <= Run(s, events).users[u].authVersion
  {
    RunKeeps(s, events);
  }

  /** No claim signed before its user's version moved is accepted at any later point of any run. */
  lemma NewVersionEndsClaims(s: State, e: Event, events: seq<Event>, c: Claims)
    requires Inv(s) && Admissible(Step(s, e).0, events) && c in s.minted
    requires c.sub in s.users ==>
               c.sub in Step(s, e).0.users && Step(s, e).0.users[c.sub].authVersion > s.users[c.sub].authVersion
    ensures !Accepted(Run(Step(s, e).0, events), c)
  {
    ClaimIsNotAhead(s, c);
    StepKeeps(s, e);
    VersionOnlyGrows(Step(s, e).0, events, c.sub);
  }

  /** In particular none from before a completed password change, password reset or deactivation. */
  lemma ChangeEndsClaims(s: State, e: Event, events: seq<Event>, c: Claims)
    requires Inv(s) && EndedUser(s, e) == Some(c.sub)
    requires Admissible(Step(s, e).0, events) && c in s.minted
    ensures !Accepted(Run(Step(s, e).0, events), c)
  {
    ChangeMovesVersion(s, e);
    StepUsers(s, e);
    NewVersionEndsClaims(s, e, events, c);
  }

  predicate RolesReplaced(e: AuditEntry, u: Id) {
    e.action == RolesUpdated && e.entityId == u
  }

  /** A role replacement of `u` is recorded after the log reached version `v`. */
  predicate RolesReplacedSince(log: seq<AuditEntry>, u: Id, v: nat) {
    exists i :: 0 <= i < |log| && RolesReplaced(log[i], u) && VersionAfter(log[..i + 1], u) > v
  }

  lemma {:induction false} PrefixVersion(log: seq<AuditEntry>, u: Id, i: nat)
    requires i <= |log|
    ensures VersionAfter(log[..i], u) <= VersionAfter(log, u)
  {
    if i == |log| {
      assert log[..i] == log;
    } else {
      PrefixVersion(log[..|log| - 1], u, i);
      assert log[..|log| - 1][..i] == log[..i];
    }
  }

  lemma {:induction false} OutdatedHasReplacement(log: seq<AuditEntry>, u: Id, v: nat)
    requires RolesOnlySince(log, u, v) && VersionAfter(log, u) > v >= 1
    ensures RolesReplacedSince(log, u, v)
  {
    var n := |log| - 1;
    assert log[..n + 1] == log;
    if !Bumps(log[n], u) {
      OutdatedHasReplacement(log[..n], u, v);
      var i :| 0 <= i < n && RolesReplaced(log[..n][i], u) && VersionAfter(log[..n][..i + 1], u) > v;
      assert log[..n][..i + 1] == log[..i + 1];
    }
  }

  lemma OutdatedByRoles(log: seq<AuditEntry>, u: Id, v: nat)
    requires RolesOnlySince(log, u, v) && v >= 1
    ensures VersionAfter(log, u) > v <==> RolesReplacedSince(log, u, v)
  {
    if VersionAfter(log, u) > v {
      OutdatedHasReplacement(log, u, v);
    } else {
      forall i | 0 <= i < |log| && log[i].action == RolesUpdated ensures VersionAfter(log[..i + 1], u) <= v {
        PrefixVersion(log, u, i + 1);
      }
    }
  }

  /**
   While a session has a live token, a claim of it carries its user's current version exactly when
   no role replacement of that user has been recorded since the version it carries.
   */
  lemma LiveClaimsAreCurrent(s: State, c: Claims)
    requires Inv(s) && c in s.minted && !AllRevoked(s.refreshTokens, c.sid)
    ensures c.av == s.users[c.sub].authVersion <==> !RolesReplacedSince(s.audit, c.sub, c.av)
  {
    assert ClaimInv(s, c);
    OutdatedByRoles(s.audit, c.sub, c.av);
    assert VersionAfter(s.audit, c.sub) == s.users[c.sub].authVersion;
  }

  /**
   Exactly when a signed claim is accepted: within its lifetime and the leeway, while the rows of its user and its
   organization are both active, its session runs, and no roles of the user were replaced since its version.
   */
  lemma AcceptedExactly(s: State, c: Claims)
    requires Inv(s) && c in s.minted
    ensures Accepted(s, c) <==>
              && s.now < c.iat + s.settings.accessTtl + s.settings.leeway
              && c.sub in s.users && s.users[c.sub].isActive
              && c.org in s.organizations && s.organizations[c.org].isActive
              && Running(Abstract(s.refreshTokens), c.org, c.sub, c.sid, s.now)
              && !RolesReplacedSince(s.audit, c.sub, c.av)
  {
    assert ClaimInv(s, c);
    ActiveIffLive(s, c.org, c.sub, c.sid);
    if SessionIsActive(s, c.org, c.sub, c.sid) {
      LiveClaimsAreCurrent(s, c);
    }
  }

  /** No claim is accepted later than its lifetime and the leeway after the call that signed it. */
  lemma ClaimsExpire(s: State, e: Event, events: seq<Event>)
    requires Inv(s) && Enabled(s, e) && Step(s, e).1.SessionOpened? && Admissible(Step(s, e).0, events)
    requires Run(Step(s, e).0, events).now >= s.now + s.settings.accessTtl + s.settings.leeway
    ensures !Accepted(Run(Step(s, e).0, events), Step(s, e).1.claims)
  {
    var t, c := Step(s, e).0, Step(s, e).1.claims;
    StepKeeps(s, e);
    StepLogs(s, e);
    RunKeeps(t, events);
    SignedNow(s, e);
    AcceptedExactly(Run(t, events), c);
  }

  lemma SignedNow(s: State, e: Event)
    requires Step(s, e).1.SessionOpened?
    ensures Step(s, e).1.claims.iat == s.now && Step(s, e).1.claims in Step(s, e).0.minted
  {
  }

  // ------------------------------------------------------- disabled organizations

  predicate OrganizationOff(s: State, o: Id) {
    o in s.organizations && !s.organizations[o].isActive
  }

  lemma StaysOff(s: State, e: Event, o: Id)
    requires Enabled(s, e) && OrganizationOff(s, o) && e != SetOrganizationActiveEvent(o, true)
    ensures OrganizationOff(Step(s, e).0, o)
  {
  }

  /** What nobody of a disabled organization can do: use a claim, open or renew a session, reset a password. */
  ghost predicate ShutOut(s: State, o: Id) {
    && (forall c: Claims :: c.org == o ==> !Accepted(s, c))
    && (forall e: Event :: Enabled(s, e) && Step(s, e).1.SessionOpened? ==> Step(s, e).1.claims.org != o)
    && (forall e: Event :: e.RequestResetEvent? && Step(s, e).1.ResetDispatched? ==>
          s.users[Step(s, e).1.userId].organizationId != o)
    && (forall e: Event, id :: id in s.resetTokens && s.resetTokens[id].organizationId == o && e.ResetPasswordEvent?
                               && FindReset(s.resetTokens, Hash(e.raw)) == Some(id) ==>
          Step(s, e) == (s, Refused(InvalidResetToken)))
  }

  lemma OffOpensNoSession(s: State, e: Event, o: Id)
    requires OrganizationOff(s, o) && Enabled(s, e) && Step(s, e).1.SessionOpened?
    ensures Step(s, e).1.claims.org != o
  {
  }

  lemma OffResetsNothing(s: State, e: Event, o: Id)
    requires OrganizationOff(s, o)
    ensures e.RequestResetEvent? && Step(s, e).1.ResetDispatched? ==> s.users[Step(s, e).1.userId].organizationId != o
    ensures e.ResetPasswordEvent? ==>
              forall id :: id in s.resetTokens && s.resetTokens[id].organizationId == o
                           && FindReset(s.resetTokens, Hash(e.raw)) == Some(id) ==>
                Step(s, e) == (s, Refused(InvalidResetToken))
  {
  }

  lemma OffIsShutOut(s: State, o: Id)
    requires OrganizationOff(s, o)
    ensures ShutOut(s, o)
  {
    forall e: Event | Enabled(s, e) && Step(s, e).1.SessionOpened? ensures Step(s, e).1.claims.org != o {
      OffOpensNoSession(s, e, o);
    }
    forall e: Event | e.RequestResetEvent? || e.ResetPasswordEvent?
      ensures e.RequestResetEvent? && Step(s, e).1.ResetDispatched? ==> s.users[Step(s, e).1.userId].organizationId != o
      ensures e.ResetPasswordEvent? ==>
                forall id :: id in s.resetTokens && s.resetTokens[id].organizationId == o
                             && FindReset(s.resetTokens, Hash(e.raw)) == Some(id) ==>
                  Step(s, e) == (s, Refused(InvalidResetToken))
    {
      OffResetsNothing(s, e, o);
    }
  }

  /** From the moment an organization is disabled until it is enabled again its users are shut out. */
  lemma {:induction false} DisabledOrganizationStaysOut(s: State, events: seq<Event>, o: Id)
    requires Inv(s) && Admissible(s, events) && OrganizationOff(s, o)
    requires forall i :: 0 <= i < |events| ==> events[i] != SetOrganizationActiveEvent(o, true)
    ensures OrganizationOff(Run(s, events), o) && ShutOut(Run(s, events), o)
    decreases |events|
  {
    if events == [] {
      OffIsShutOut(s, o);
    } else {
      StepKeeps(s, events[0]);
      StaysOff(s, events[0], o);
      DisabledOrganizationStaysOut(Step(s, events[0]).0, events[1..], o);
    }
  }

  /** The call that disables it is such a moment. */
  lemma DisablingShutsOut(s: State, events: seq<Event>, o: Id)
    requires Inv(s) && o in s.organizations && Admissible(SetOrganizationActive(s, o, false).0, events)
    requires forall i :: 0 <= i < |events| ==> events[i] != SetOrganizationActiveEvent(o, true)
    ensures ShutOut(Run(SetOrganizationActive(s, o, false).0, events), o)
  {
    SetOrganizationActiveKeeps(s, o, false);
    DisabledOrganizationStaysOut(SetOrganizationActive(s, o, false).0, events, o);
  }

  // --------------------------------------------------------------- disabled users

  predicate UserOff(s: State, u: Id) {
    u in s.users && !s.users[u].isActive
  }

  /** The one call that enables a user again. */
  predicate Enables(e: Event, u: Id) {
    e.UpdateUserEvent? && e.userId == u && e.isActive
  }

  lemma UserStaysOff(s: State, e: Event, u: Id)
    requires Enabled(s, e) && UserOff(s, u) && !Enables(e, u)
    ensures UserOff(Step(s, e).0, u)
  {
  }

  ghost predicate UserShutOut(s: State, u: Id) {
    && (forall c: Claims :: c.sub == u ==> !Accepted(s, c))
    && (forall e: Event :: Enabled(s, e) && Step(s, e).1.SessionOpened? ==> Step(s, e).1.claims.sub != u)
    && (forall e: Event :: e.RequestResetEvent? && Step(s, e).1.ResetDispatched? ==> Step(s, e).1.userId != u)
    && (forall e: Event :: e.ChangePasswordEvent? && e.userId == u ==> Step(s, e) == (s, Refused(SessionRevoked)))
  }

  lemma OffUserIsShutOut(s: State, u: Id)
    requires UserOff(s, u)
    ensures UserShutOut(s, u)
  {
  }

  /** A disabled user is shut out until an administrator enables the account again. */
  lemma {:induction false} DisabledUserStaysOut(s: State, events: seq<Event>, u: Id)
    requires Admissible(s, events) && UserOff(s, u)
    requires forall i :: 0 <= i < |events| ==> !Enables(events[i], u)
    ensures UserOff(Run(s, events), u) && UserShutOut(Run(s, events), u)
    decreases |events|
  {
    if events == [] {
      OffUserIsShutOut(s, u);
    } else {
      UserStaysOff(s, events[0], u);
      DisabledUserStaysOut(Step(s, events[0]).0, events[1..], u);
    }
  }

  /** A granted role replacement is that case: the session survives it, its claims do not. */
  lemma RoleReplacementOutdatesClaims(s: State, actorId: Id, c: Claims)
    requires Inv(s) && c in s.minted && !AllRevoked(s.refreshTokens, c.sid) && actorId != c.sub
    ensures var t := ReplaceRoles(s, actorId, c.sub).0;
            !AllRevoked(t.refreshTokens, c.sid) && c.av < t.users[c.sub].authVersion && !Accepted(t, c)
  {
  }

  lemma FreshSessionAccepted(s: State, userId: Id, draw: Draw)
    requires s.settings.Sound() && userId in s.users && AccountEnabled(s, s.users[userId].organizationId, userId)
    ensures Accepted(CreateSession(s, userId, draw).0, CreateSession(s, userId, draw).1.claims)
  {
    var t := CreateSession(s, userId, draw).0;
    assert LiveAt(t.refreshTokens[draw.tokenId], t.now);
  }

  lemma RotatedSessionAccepted(s: State, raw: Secret, draw: Draw)
    requires s.settings.Sound() && FreshToken(s, draw) && Rotate(s, raw, draw).1.SessionOpened?
    ensures Accepted(Rotate(s, raw, draw).0, Rotate(s, raw, draw).1.claims)
  {
    var t := Rotate(s, raw, draw).0;
    assert LiveAt(t.refreshTokens[draw.tokenId], t.now);
  }

  /** Every reply that opens a session carries a claim the acceptance test passes at once. */
  lemma OpenedSessionsAreAccepted(s: State, e: Event)
    requires Inv(s) && Enabled(s, e) && Step(s, e).1.SessionOpened?
    ensures Accepted(Step(s, e).0, Step(s, e).1.claims)
  {
    if e.RotateEvent? {
      RotatedSessionAccepted(s, e.raw, e.draw);
    } else if e.LoginEvent? {
      LoginAccepted(s, e);
    } else {
      FreshSessionAccepted(Found(s, e.slug, e.email, e.hash, e.organizationId, e.userId), e.userId, e.draw);
    }
  }

  lemma LoginAccepted(s: State, e: Event)
    requires s.settings.Sound() && e.LoginEvent? && Step(s, e).1.SessionOpened?
    ensures Accepted(Step(s, e).0, Step(s, e).1.claims)
  {
    var id := FindAccount(s, e.slug, e.email).value;
    var user := s.users[id];
    var hash := if e.rehash.Some? then PasswordHash(e.password, e.rehash.value) else user.passwordHash;
    FreshSessionAccepted(s.(users := s.users[id := user.(passwordHash := hash, lastLoginAt := Some(s.now))]), id,
                         e.draw);
  }
}
