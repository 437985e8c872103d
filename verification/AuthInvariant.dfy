/** The invariant of the session protocol, kept by every step from every state that has it. */
module AuthInvariant {
  import opened Wrappers
  import opened AuthSpec
  import opened RefreshChains
  import opened AuditTrail

  // ------------------------------------------------------------ the invariant

  /** The unique and foreign keys of the tables. */
  ghost predicate Keys(s: State) {
    && (forall a, b {:trigger SameSlug(s.organizations[a], s.organizations[b])} ::
          a in s.organizations && b in s.organizations && SameSlug(s.organizations[a], s.organizations[b]) ==> a == b)
    && (forall u :: u in s.users ==> s.users[u].organizationId in s.organizations)
    && (forall a, b {:trigger SameAddress(s.users[a], s.users[b])} ::
          a in s.users && b in s.users && SameAddress(s.users[a], s.users[b]) ==> a == b)
    && (forall id :: id in s.refreshTokens ==>
          OwnedBy(s.users, s.refreshTokens[id].organizationId, s.refreshTokens[id].userId))
  }

  ghost predicate SameSlug(a: Organization, b: Organization) {
    a.slug == b.slug
  }

  ghost predicate SameAddress(a: User, b: User) {
    a.organizationId == b.organizationId && a.email == b.email
  }

  ghost predicate OwnedBy(users: map<Id, User>, organizationId: Id, userId: Id) {
    userId in users && users[userId].organizationId == organizationId
  }

  ghost predicate Unconsumed(r: ResetToken) {
    r.consumedAt.None?
  }

  /** At most one unconsumed reset token per user. */
  ghost predicate ResetInv(users: map<Id, User>, rs: ResetTable) {
    && (forall id :: id in rs ==> OwnedBy(users, rs[id].organizationId, rs[id].userId))
    && (forall a, b :: a in rs && b in rs && rs[a].tokenHash == rs[b].tokenHash ==> a == b)
    && (forall a, b :: a in rs && b in rs && rs[a].userId == rs[b].userId && Unconsumed(rs[a]) && Unconsumed(rs[b]) ==>
          a == b)
  }

  /** The audit log explains every stored version. */
  ghost predicate AuditInv(users: map<Id, User>, log: seq<AuditEntry>) {
    && TrueLog(log)
    && forall u: Id :: VersionAfter(log, u) == if u in users then users[u].authVersion else 1
  }

  /**
   A signed claim names a real session of its user, and only role replacements can outdate it while that session
   lives.
   */
  ghost predicate ClaimInv(s: State, c: Claims) {
    && OwnedBy(s.users, c.org, c.sub)
    && FamilyUsed(s.refreshTokens, c.sid)
    && (forall id :: id in s.refreshTokens && s.refreshTokens[id].familyId == c.sid ==>
          s.refreshTokens[id].userId == c.sub && s.refreshTokens[id].organizationId == c.org)
    && 1 <= c.av <= s.users[c.sub].authVersion
    && c.iat <= s.now && c.exp == c.iat + s.settings.accessTtl
    && (AllRevoked(s.refreshTokens, c.sid) || RolesOnlySince(s.audit, c.sub, c.av))
  }

  ghost predicate Inv(s: State) {
    && s.settings.Sound()
    && Keys(s)
    && TableInv(s.refreshTokens, s.settings, s.now)
    && ResetInv(s.users, s.resetTokens)
    && AuditInv(s.users, s.audit)
    && forall c :: c in s.minted ==> ClaimInv(s, c)
  }

  lemma InitInv(s: State)
    requires Init(s)
    ensures Inv(s)
  {
  }

  // ------------------------------------------------ the bulk updates as changes

  lemma RevokeFamilyKills(ts: RefreshTable, f: Id, at: Time)
    ensures Kills(ts, RevokeFamily(ts, f, at))
    ensures FamilyUsed(ts, f) ==> Dead(RevokeFamily(ts, f, at), f)
  {
  }

  lemma RevokeUserKills(ts: RefreshTable, organizationId: Id, userId: Id, at: Time)
    requires FamiliesAgree(ts)
    ensures Kills(ts, RevokeUserSessions(ts, organizationId, userId, at))
    ensures forall id :: id in ts && ts[id].organizationId == organizationId && ts[id].userId == userId ==>
              Dead(RevokeUserSessions(ts, organizationId, userId, at), ts[id].familyId)
  {
    var after := RevokeUserSessions(ts, organizationId, userId, at);
    forall id | id in ts && ts[id].organizationId == organizationId && ts[id].userId == userId
      ensures Dead(after, ts[id].familyId)
    {
      assert id in after && after[id].familyId == ts[id].familyId;
      forall k | k in after && after[k].familyId == ts[id].familyId ensures after[k].revokedAt.Some? {
        assert k in ts && SameOwner(ts[k], ts[id]);
      }
    }
  }

  /** Revoking the one live token of a family kills the family. */
  lemma RevokeTailKills(ts: RefreshTable, settings: Settings, now: Time, id: Id)
    requires TableInv(ts, settings, now) && id in ts && ts[id].revokedAt.None?
    ensures Kills(ts, ts[id := ts[id].(revokedAt := Some(now))])
    ensures Dead(ts[id := ts[id].(revokedAt := Some(now))], ts[id].familyId)
  {
    var after := ts[id := ts[id].(revokedAt := Some(now))];
    assert id in after && after[id].familyId == ts[id].familyId;
    forall k | k in after && after[k].familyId == ts[id].familyId ensures after[k].revokedAt.Some? {
      if k != id && ts[k].revokedAt.None? {
        OneLiveTokenPerFamily(ts, settings, now, k, id);
      }
    }
  }

  // ------------------------------------------------- the parts, step by step

  /** Users keep their organization and never go back to an earlier version. */
  ghost predicate UsersMove(a: map<Id, User>, b: map<Id, User>) {
    forall u :: u in a ==> u in b && b[u].organizationId == a[u].organizationId && b[u].authVersion >= a[u].authVersion
  }

  /** The log is unchanged or one entry longer; an entry that is not a role replacement killed its user's sessions. */
  ghost predicate LogMoves(s: State, t: State) {
    || t.audit == s.audit
    || (exists e :: t.audit == s.audit + [e] && KillsSubject(t.refreshTokens, e))
  }

  ghost predicate KillsSubject(ts: RefreshTable, e: AuditEntry) {
    Bumps(e, e.entityId) && e.action != RolesUpdated ==>
      forall id :: id in ts && ts[id].userId == e.entityId ==> AllRevoked(ts, ts[id].familyId)
  }

  /** What every step does to the state, whichever call it is. */
  ghost predicate Progress(s: State, t: State) {
    && t.settings == s.settings && s.now <= t.now && s.minted <= t.minted
    && Moves(s.refreshTokens, t.refreshTokens, s.settings, s.now)
    && UsersMove(s.users, t.users)
    && LogMoves(s, t)
  }

  lemma OldClaimsKept(s: State, t: State, c: Claims)
    requires Inv(s) && Progress(s, t) && c in s.minted
    ensures ClaimInv(t, c)
  {
    var before, after := s.refreshTokens, t.refreshTokens;
    MovesKeepsRows(before, after, s.settings, s.now);
    var k :| k in before && before[k].familyId == c.sid;
    assert k in after && after[k].familyId == c.sid;
    forall id | id in after && after[id].familyId == c.sid
      ensures after[id].userId == c.sub && after[id].organizationId == c.org
    {
      if id !in before {
        MovesKeepsOwners(before, after, s.settings, s.now, id);
      }
    }
    if AllRevoked(before, c.sid) {
      DeadStays(before, after, s.settings, s.now, c.sid);
    } else if t.audit != s.audit {
      var e :| t.audit == s.audit + [e] && KillsSubject(after, e);
      Append(s.audit, e, c.sub);
      if Bumps(e, c.sub) && e.action != RolesUpdated {
        assert AllRevoked(after, after[k].familyId);
      }
    }
  }

  lemma NewClaimHolds(t: State, c: Claims)
    requires OwnedBy(t.users, c.org, c.sub) && AuditInv(t.users, t.audit)
    requires FamilyUsed(t.refreshTokens, c.sid)
    requires forall id :: id in t.refreshTokens && t.refreshTokens[id].familyId == c.sid ==>
               t.refreshTokens[id].userId == c.sub && t.refreshTokens[id].organizationId == c.org
    requires c.av == t.users[c.sub].authVersion && c.iat == t.now && c.exp == t.now + t.settings.accessTtl
    ensures ClaimInv(t, c)
  {
    VersionPositive(t.audit, c.sub);
    NothingAfterCurrent(t.audit, c.sub, c.av);
  }

  lemma ConsumeKeeps(users: map<Id, User>, rs: ResetTable, organizationId: Id, userId: Id, at: Time)
    requires ResetInv(users, rs) && OwnedBy(users, organizationId, userId)
    ensures ResetInv(users, ConsumeResets(rs, organizationId, userId, at))
    ensures forall id :: id in rs && rs[id].userId == userId ==>
              ConsumeResets(rs, organizationId, userId, at)[id].consumedAt.Some?
  {
  }

  lemma UsersMoveKeepsResets(a: map<Id, User>, b: map<Id, User>, rs: ResetTable)
    requires UsersMove(a, b) && ResetInv(a, rs)
    ensures ResetInv(b, rs)
  {
  }

  /** Progress plus the parts that are particular to a call give the whole invariant. */
  lemma Assemble(s: State, t: State)
    requires Inv(s) && Progress(s, t)
    requires Keys(t) && ResetInv(t.users, t.resetTokens) && AuditInv(t.users, t.audit)
    requires forall c :: c in t.minted && c !in s.minted ==> ClaimInv(t, c)
    ensures Inv(t)
  {
    MovesKeeps(s.refreshTokens, t.refreshTokens, s.settings, s.now);
    ClockKeeps(t.refreshTokens, s.settings, s.now, t.now);
    forall c | c in t.minted ensures ClaimInv(t, c) {
      if c in s.minted {
        OldClaimsKept(s, t, c);
      }
    }
  }

  // -------------------------------------------------------------- the steps

  lemma CreateSessionOpens(s: State, userId: Id, draw: Draw)
    requires userId in s.users && FreshToken(s, draw) && FreshFamily(s, draw.familyId)
    ensures var t := CreateSession(s, userId, draw).0;
            Opens(s.refreshTokens, t.refreshTokens, draw.tokenId, t.refreshTokens[draw.tokenId], s.settings, s.now)
    ensures Progress(s, CreateSession(s, userId, draw).0)
  {
  }

  lemma CreateSessionClaim(s: State, userId: Id, draw: Draw)
    requires Inv(s) && userId in s.users && FreshFamily(s, draw.familyId)
    ensures ClaimInv(CreateSession(s, userId, draw).0, Mint(s, userId, draw.familyId))
  {
    var t := CreateSession(s, userId, draw).0;
    assert t.refreshTokens[draw.tokenId].familyId == draw.familyId;
    NewClaimHolds(t, Mint(s, userId, draw.familyId));
  }

  lemma CreateSessionKeeps(s: State, userId: Id, draw: Draw)
    requires Inv(s) && userId in s.users && FreshToken(s, draw) && FreshFamily(s, draw.familyId)
    ensures Inv(CreateSession(s, userId, draw).0)
  {
    CreateSessionOpens(s, userId, draw);
    CreateSessionClaim(s, userId, draw);
    Assemble(s, CreateSession(s, userId, draw).0);
  }

  /** An appended entry agrees with the one user row it is about. */
  lemma AuditAppended(users: map<Id, User>, users': map<Id, User>, log: seq<AuditEntry>, e: AuditEntry)
    requires AuditInv(users, log)
    requires StampedTruly(log, e)
    requires forall u: Id :: (if u in users' then users'[u].authVersion else 1)
               == (if u in users then users[u].authVersion else 1) + if Bumps(e, u) then 1 else 0
    ensures AuditInv(users', log + [e])
  {
    forall u: Id ensures VersionAfter(log + [e], u) == if u in users' then users'[u].authVersion else 1 {
      Append(log, e, u);
    }
    Append(log, e, e.entityId);
  }

  /** A step that adds one audit row and touches only organizations and users. */
  lemma DirectoryKeeps(s: State, t: State, e: AuditEntry)
    requires Inv(s) && Keys(t)
    requires t == s.(organizations := t.organizations, users := t.users, audit := s.audit + [e])
    requires UsersMove(s.users, t.users) && StampedTruly(s.audit, e)
    requires Bumps(e, e.entityId) ==> e.action == RolesUpdated
    requires forall u: Id :: (if u in t.users then t.users[u].authVersion else 1)
               == (if u in s.users then s.users[u].authVersion else 1) + if Bumps(e, u) then 1 else 0
    ensures Inv(t)
  {
    AuditAppended(s.users, t.users, s.audit, e);
    UsersMoveKeepsResets(s.users, t.users, s.resetTokens);
    assert KillsSubject(t.refreshTokens, e);
    Assemble(s, t);
  }

  lemma FoundKeys(s: State, t: State, slug: string, organizationId: Id, userId: Id)
    requires Keys(s) && organizationId !in s.organizations && userId !in s.users && !SlugTaken(s, slug)
    requires t.organizations == s.organizations[organizationId := Organization(slug, true)]
    requires userId in t.users && t.users[userId].organizationId == organizationId
    requires t.users == s.users[userId := t.users[userId]]
    requires t.refreshTokens == s.refreshTokens
    ensures Keys(t)
  {
  }

  lemma FoundKeeps(s: State, slug: string, email: string, hash: PasswordHash, organizationId: Id, userId: Id)
    requires Inv(s) && organizationId !in s.organizations && userId !in s.users && !SlugTaken(s, slug)
    ensures Inv(Found(s, slug, email, hash, organizationId, userId))
  {
    var t := Found(s, slug, email, hash, organizationId, userId);
    FoundKeys(s, t, slug, organizationId, userId);
    DirectoryKeeps(s, t, AuditEntry(OrganizationCreated, Some(userId), organizationId, None, None));
  }

  lemma RegisterKeeps(s: State, slug: string, email: string, hash: PasswordHash, organizationId: Id, userId: Id,
                      draw: Draw)
    requires Inv(s) && Enabled(s, RegisterEvent(slug, email, hash, organizationId, userId, draw))
    ensures Inv(Register(s, slug, email, hash, organizationId, userId, draw).0)
  {
    if s.settings.allowRegistration && !SlugTaken(s, slug) {
      FoundKeeps(s, slug, email, hash, organizationId, userId);
      CreateSessionKeeps(Found(s, slug, email, hash, organizationId, userId), userId, draw);
    }
  }

  /** One user row rewritten without moving it to another organization or onto a taken address. */
  lemma UserRowKeys(s: State, t: State, userId: Id)
    requires Keys(s) && userId in s.users && t.organizations == s.organizations
    requires userId in t.users && t.users == s.users[userId := t.users[userId]]
    requires t.users[userId].organizationId == s.users[userId].organizationId
    requires !EmailTaken(s, s.users[userId].organizationId, t.users[userId].email, Some(userId))
    requires t.refreshTokens == s.refreshTokens || Kills(s.refreshTokens, t.refreshTokens)
    ensures Keys(t)
  {
  }

  lemma OwnAddressIsFree(s: State, userId: Id)
    requires Keys(s) && userId in s.users
    ensures !EmailTaken(s, s.users[userId].organizationId, s.users[userId].email, Some(userId))
  {
    forall id | id in s.users && SameAddress(s.users[id], s.users[userId]) ensures id == userId {
    }
  }

  lemma SeenKeeps(s: State, t: State, userId: Id)
    requires Inv(s) && userId in s.users && Keys(t) && userId in t.users
    requires t == s.(users := s.users[userId := t.users[userId]])
    requires t.users[userId].organizationId == s.users[userId].organizationId
    requires t.users[userId].authVersion == s.users[userId].authVersion
    ensures Inv(t)
  {
  }

  lemma LoginKeeps(s: State, slug: string, email: string, password: string, rehash: Option<nat>, draw: Draw)
    requires Inv(s) && Enabled(s, LoginEvent(slug, email, password, rehash, draw))
    ensures Inv(Login(s, slug, email, password, rehash, draw).0)
  {
    var found := FindAccount(s, slug, email);
    if found.Some? && Login(s, slug, email, password, rehash, draw).1.SessionOpened? {
      var id := found.value;
      var user := s.users[id];
      var hash := if rehash.Some? then PasswordHash(password, rehash.value) else user.passwordHash;
      var seen := s.(users := s.users[id := user.(passwordHash := hash, lastLoginAt := Some(s.now))]);
      OwnAddressIsFree(s, id);
      UserRowKeys(s, seen, id);
      SeenKeeps(s, seen, id);
      CreateSessionKeeps(seen, id, draw);
    }
  }

  /** A table that only lost rows to revocation, everything else unchanged. */
  lemma KilledKeeps(s: State, t: State)
    requires Inv(s) && t == s.(refreshTokens := t.refreshTokens) && Kills(s.refreshTokens, t.refreshTokens)
    ensures Inv(t)
  {
    Assemble(s, t);
  }

  lemma RotateKeeps(s: State, raw: Secret, draw: Draw)
    requires Inv(s) && Enabled(s, RotateEvent(raw, draw))
    ensures Inv(Rotate(s, raw, draw).0)
  {
    var found := FindToken(s.refreshTokens, Hash(raw));
    if found.Some? {
      var (t, outcome) := Rotate(s, raw, draw);
      var stored := s.refreshTokens[found.value];
      if outcome.SessionOpened? {
        RotationKeeps(s, raw, draw, found.value);
      } else if outcome.code == RefreshTokenExpired {
        RevokeTailKills(s.refreshTokens, s.settings, s.now, found.value);
        KilledKeeps(s, t);
      } else {
        RevokeFamilyKills(s.refreshTokens, stored.familyId, s.now);
        KilledKeeps(s, t);
      }
    }
  }

  lemma RotationRotates(s: State, raw: Secret, draw: Draw, id: Id)
    requires Inv(s) && FreshToken(s, draw) && FindToken(s.refreshTokens, Hash(raw)) == Some(id)
    requires Rotate(s, raw, draw).1.SessionOpened?
    ensures Rotates(s.refreshTokens, Rotate(s, raw, draw).0.refreshTokens, id, draw.tokenId,
                    Replacement(s, s.refreshTokens[id], draw), s.settings, s.now)
    ensures Progress(s, Rotate(s, raw, draw).0)
  {
  }

  lemma RotationClaim(s: State, raw: Secret, draw: Draw, id: Id)
    requires Inv(s) && FreshToken(s, draw) && FindToken(s.refreshTokens, Hash(raw)) == Some(id)
    requires Rotate(s, raw, draw).1.SessionOpened?
    ensures var stored := s.refreshTokens[id];
            OwnedBy(s.users, stored.organizationId, stored.userId)
            && ClaimInv(Rotate(s, raw, draw).0, Mint(s, stored.userId, stored.familyId))
  {
    var t := Rotate(s, raw, draw).0;
    var stored := s.refreshTokens[id];
    var claims := Mint(s, stored.userId, stored.familyId);
    assert t.refreshTokens[id].familyId == stored.familyId;
    forall k | k in t.refreshTokens && t.refreshTokens[k].familyId == claims.sid
      ensures t.refreshTokens[k].userId == claims.sub && t.refreshTokens[k].organizationId == claims.org
    {
      assert k in s.refreshTokens ==> SameOwner(s.refreshTokens[k], stored);
    }
    NewClaimHolds(t, claims);
  }

  lemma RotationKeys(s: State, t: State, id: Id, next: Id, row: RefreshToken)
    requires Keys(s) && t.users == s.users && t.organizations == s.organizations
    requires Rotates(s.refreshTokens, t.refreshTokens, id, next, row, s.settings, s.now)
    ensures Keys(t)
  {
  }

  lemma RotationKeeps(s: State, raw: Secret, draw: Draw, id: Id)
    requires Inv(s) && FreshToken(s, draw) && FindToken(s.refreshTokens, Hash(raw)) == Some(id)
    requires Rotate(s, raw, draw).1.SessionOpened?
    ensures Inv(Rotate(s, raw, draw).0)
  {
    var t := Rotate(s, raw, draw).0;
    RotationRotates(s, raw, draw, id);
    RotationClaim(s, raw, draw, id);
    RotationKeys(s, t, id, draw.tokenId, Replacement(s, s.refreshTokens[id], draw));
    Assemble(s, t);
  }

  lemma LogoutKeeps(s: State, raw: Secret)
    requires Inv(s)
    ensures Inv(Logout(s, raw).0)
  {
    var found := FindToken(s.refreshTokens, Hash(raw));
    if found.Some? {
      RevokeFamilyKills(s.refreshTokens, s.refreshTokens[found.value].familyId, s.now);
      KilledKeeps(s, Logout(s, raw).0);
    }
  }

  lemma UserSessionsDead(s: State, t: State, userId: Id, e: AuditEntry)
    requires Inv(s) && userId in s.users && e.entityId == userId
    requires t.refreshTokens == RevokeUserSessions(s.refreshTokens, s.users[userId].organizationId, userId, s.now)
    ensures Kills(s.refreshTokens, t.refreshTokens) && KillsSubject(t.refreshTokens, e)
  {
    RevokeUserKills(s.refreshTokens, s.users[userId].organizationId, userId, s.now);
    forall id | id in t.refreshTokens && t.refreshTokens[id].userId == userId
      ensures AllRevoked(t.refreshTokens, t.refreshTokens[id].familyId)
    {
      assert id in s.refreshTokens && s.refreshTokens[id].userId == userId;
    }
  }

  /** A user row moved to its next version, with every session of the user revoked. */
  lemma BumpKeeps(s: State, t: State, userId: Id, e: AuditEntry)
    requires Inv(s) && userId in s.users && userId in t.users && Keys(t) && ResetInv(s.users, t.resetTokens)
    requires t == s.(users := s.users[userId := t.users[userId]], resetTokens := t.resetTokens, audit := s.audit + [e],
                     refreshTokens := RevokeUserSessions(s.refreshTokens, s.users[userId].organizationId, userId,
                                                         s.now))
    requires t.users[userId].organizationId == s.users[userId].organizationId
    requires t.users[userId].authVersion == s.users[userId].authVersion + 1
    requires Bumps(e, userId) && e.newVersion == Some(t.users[userId].authVersion)
    requires e.previousVersion.Some? ==> e.previousVersion.value == s.users[userId].authVersion
    ensures Inv(t) && Progress(s, t)
  {
    UserSessionsDead(s, t, userId, e);
    BumpAudit(s.users, t.users, s.audit, userId, e);
    UsersMoveKeepsResets(s.users, t.users, t.resetTokens);
    Assemble(s, t);
  }

  lemma BumpAudit(users: map<Id, User>, users': map<Id, User>, log: seq<AuditEntry>, userId: Id, e: AuditEntry)
    requires AuditInv(users, log) && userId in users && userId in users' && users' == users[userId := users'[userId]]
    requires users'[userId].authVersion == users[userId].authVersion + 1
    requires Bumps(e, userId) && e.newVersion == Some(users'[userId].authVersion)
    requires e.previousVersion.Some? ==> e.previousVersion.value == users[userId].authVersion
    ensures AuditInv(users', log + [e])
  {
  }

  lemma ReplaceCredentialKeeps(s: State, userId: Id, hash: PasswordHash, e: AuditEntry)
    requires Inv(s) && userId in s.users
    requires e.entityId == userId && (e.action == PasswordChanged || e.action == ResetCompleted)
    requires e.previousVersion.None? && e.newVersion == Some(s.users[userId].authVersion + 1)
    ensures Inv(ReplaceCredential(s, userId, hash, e))
    ensures Progress(s, ReplaceCredential(s, userId, hash, e))
  {
    var t := ReplaceCredential(s, userId, hash, e);
    RevokeUserKills(s.refreshTokens, s.users[userId].organizationId, userId, s.now);
    OwnAddressIsFree(s, userId);
    UserRowKeys(s, t, userId);
    ConsumeKeeps(s.users, s.resetTokens, s.users[userId].organizationId, userId, s.now);
    BumpKeeps(s, t, userId, e);
  }

  lemma RequestResetTable(s: State, id: Id, resetId: Id, row: ResetToken)
    requires ResetInv(s.users, s.resetTokens)
    requires OwnedBy(s.users, row.organizationId, id) && row.userId == id
    requires forall k :: k in s.resetTokens ==> s.resetTokens[k].tokenHash != row.tokenHash
    ensures ResetInv(s.users, ConsumeResets(s.resetTokens, row.organizationId, id, s.now)[resetId := row])
  {
    ConsumeKeeps(s.users, s.resetTokens, row.organizationId, id, s.now);
  }

  lemma RequestResetKeeps(s: State, slug: string, email: string, resetId: Id, secret: Secret)
    requires Inv(s) && Enabled(s, RequestResetEvent(slug, email, resetId, secret))
    ensures Inv(RequestReset(s, slug, email, resetId, secret).0)
  {
    var found := FindAccount(s, slug, email);
    if found.Some? {
      var t := RequestReset(s, slug, email, resetId, secret).0;
      if t != s {
        var id := found.value;
        var e := AuditEntry(ResetRequested, None, id, None, Some(s.users[id].authVersion));
        RequestResetTable(s, id, resetId, t.resetTokens[resetId]);
        LoggedKeeps(s, t, e);
      }
    }
  }

  lemma LoggedKeeps(s: State, t: State, e: AuditEntry)
    requires Inv(s) && t == s.(resetTokens := t.resetTokens, audit := s.audit + [e]) && ResetInv(s.users, t.resetTokens)
    requires e.entityId in s.users && e.action == ResetRequested
    requires e.previousVersion.None? && e.newVersion == Some(s.users[e.entityId].authVersion)
    ensures Inv(t)
  {
  }

  /** A reset that completes is a credential change of its link's user, and any other outcome changes nothing. */
  lemma ResetOutcome(s: State, raw: Secret, next: string, salt: nat)
    ensures var (t, outcome) := ResetPassword(s, raw, next, salt);
            if outcome != Done then t == s
            else
              var u := s.resetTokens[FindReset(s.resetTokens, Hash(raw)).value].userId;
              && u in s.users
              && t == ReplaceCredential(s, u, PasswordHash(next, salt), ResetEntry(u, s.users[u].authVersion + 1))
  {
  }

  function ResetEntry(userId: Id, version: nat): AuditEntry {
    AuditEntry(ResetCompleted, None, userId, None, Some(version))
  }

  lemma ResetPasswordKeeps(s: State, raw: Secret, next: string, salt: nat)
    requires Inv(s)
    ensures Inv(ResetPassword(s, raw, next, salt).0)
  {
    ResetOutcome(s, raw, next, salt);
    if ResetPassword(s, raw, next, salt).1 == Done {
      var u := s.resetTokens[FindReset(s.resetTokens, Hash(raw)).value].userId;
      ReplaceCredentialKeeps(s, u, PasswordHash(next, salt), ResetEntry(u, s.users[u].authVersion + 1));
    }
  }

  lemma ChangePasswordKeeps(s: State, organizationId: Id, userId: Id, current: string, next: string, salt: nat)
    requires Inv(s)
    ensures Inv(ChangePassword(s, organizationId, userId, current, next, salt).0)
  {
    if ChangePassword(s, organizationId, userId, current, next, salt).1 == Done {
      ReplaceCredentialKeeps(s, userId, PasswordHash(next, salt),
                             AuditEntry(PasswordChanged, Some(userId), userId, None,
                                        Some(s.users[userId].authVersion + 1)));
    }
  }

  lemma DisableKeeps(s: State, userId: Id, user: User, e: AuditEntry)
    requires Inv(s) && userId in s.users && user.organizationId == s.users[userId].organizationId
    requires user.authVersion == s.users[userId].authVersion + 1
    requires !EmailTaken(s, user.organizationId, user.email, Some(userId))
    requires e.entityId == userId && (e.action == UserDeactivated || e.action == UserUpdated)
    requires e.previousVersion == Some(s.users[userId].authVersion) && e.newVersion == Some(user.authVersion)
    ensures Inv(Disable(s, userId, user, e)) && Progress(s, Disable(s, userId, user, e))
  {
    var t := Disable(s, userId, user, e);
    RevokeUserKills(s.refreshTokens, user.organizationId, userId, s.now);
    UserRowKeys(s, t, userId);
    BumpKeeps(s, t, userId, e);
  }

  lemma CreatedUserKeys(s: State, t: State, userId: Id)
    requires Keys(s) && userId !in s.users && t.organizations == s.organizations && t.refreshTokens == s.refreshTokens
    requires userId in t.users && t.users == s.users[userId := t.users[userId]]
    requires t.users[userId].organizationId in s.organizations
    requires !EmailTaken(s, t.users[userId].organizationId, t.users[userId].email, None)
    ensures Keys(t)
  {
  }

  lemma CreateUserKeeps(s: State, actorId: Id, organizationId: Id, email: string, hash: PasswordHash, isActive: bool,
                        userId: Id)
    requires Inv(s) && userId !in s.users
    ensures Inv(CreateUser(s, actorId, organizationId, email, hash, isActive, userId).0)
  {
    var (t, outcome) := CreateUser(s, actorId, organizationId, email, hash, isActive, userId);
    if outcome == Done {
      var e := AuditEntry(UserCreated, Some(actorId), userId, None, Some(1));
      CreatedUserKeys(s, t, userId);
      Append(s.audit, e, userId);
      DirectoryKeeps(s, t, e);
    }
  }

  lemma UpdateUserKeeps(s: State, actorId: Id, userId: Id, email: string, isActive: bool)
    requires Inv(s)
    ensures Inv(UpdateUser(s, actorId, userId, email, isActive).0)
  {
    var (t, outcome) := UpdateUser(s, actorId, userId, email, isActive);
    if outcome == Done {
      var user := s.users[userId];
      if user.isActive && !isActive {
        DisableKeeps(s, userId, user.(email := email, isActive := false, authVersion := user.authVersion + 1),
                     AuditEntry(UserUpdated, Some(actorId), userId, Some(user.authVersion),
                                Some(user.authVersion + 1)));
      } else {
        var e := AuditEntry(UserUpdated, Some(actorId), userId, Some(user.authVersion), Some(user.authVersion));
        EditKeeps(s, t, userId, e);
      }
    }
  }

  /** A user row edited at its current version. */
  lemma EditKeeps(s: State, t: State, userId: Id, e: AuditEntry)
    requires Inv(s) && userId in s.users && userId in t.users
    requires t == s.(users := s.users[userId := t.users[userId]], audit := s.audit + [e])
    requires t.users[userId].organizationId == s.users[userId].organizationId
    requires t.users[userId].authVersion == s.users[userId].authVersion
    requires !EmailTaken(s, s.users[userId].organizationId, t.users[userId].email, Some(userId))
    requires e.entityId == userId && e.action == UserUpdated
    requires e.previousVersion == e.newVersion == Some(s.users[userId].authVersion)
    ensures Inv(t)
  {
    UserRowKeys(s, t, userId);
    Append(s.audit, e, userId);
    DirectoryKeeps(s, t, e);
  }

  lemma DeactivateUserKeeps(s: State, actorId: Id, userId: Id)
    requires Inv(s)
    ensures Inv(DeactivateUser(s, actorId, userId).0)
  {
    if DeactivateUser(s, actorId, userId).1 == Done {
      var user := s.users[userId];
      OwnAddressIsFree(s, userId);
      DisableKeeps(s, userId, user.(isActive := false, authVersion := user.authVersion + 1),
                   AuditEntry(UserDeactivated, Some(actorId), userId, Some(user.authVersion),
                              Some(user.authVersion + 1)));
    }
  }

  lemma ReplaceRolesKeeps(s: State, actorId: Id, userId: Id)
    requires Inv(s)
    ensures Inv(ReplaceRoles(s, actorId, userId).0)
    ensures var (t, outcome) := ReplaceRoles(s, actorId, userId);
            && t.refreshTokens == s.refreshTokens
            && (outcome == Done ==>
                  && userId in s.users && userId in t.users
                  && t.users[userId] == s.users[userId].(authVersion := s.users[userId].authVersion + 1)
                  && VersionAfter(t.audit, userId) == t.users[userId].authVersion)
  {
    var (t, outcome) := ReplaceRoles(s, actorId, userId);
    if outcome == Done {
      var e := AuditEntry(RolesUpdated, Some(actorId), userId, None, None);
      OwnAddressIsFree(s, userId);
      UserRowKeys(s, t, userId);
      DirectoryKeeps(s, t, e);
    }
  }

  lemma SetOrganizationActiveKeeps(s: State, organizationId: Id, isActive: bool)
    requires Inv(s)
    ensures Inv(SetOrganizationActive(s, organizationId, isActive).0)
  {
    var t := SetOrganizationActive(s, organizationId, isActive).0;
    forall a, b | a in t.organizations && b in t.organizations && SameSlug(t.organizations[a], t.organizations[b])
      ensures a == b
    {
      assert SameSlug(s.organizations[a], s.organizations[b]);
    }
    Assemble(s, t);
  }

  lemma AdvanceKeeps(s: State, seconds: nat)
    requires Inv(s)
    ensures Inv(Advance(s, seconds).0)
  {
    Assemble(s, Advance(s, seconds).0);
  }

  predicate Administrative(e: Event) {
    e.CreateUserEvent? || e.UpdateUserEvent? || e.DeactivateUserEvent? || e.ReplaceRolesEvent?
  }

  lemma AdministrativeStepKeeps(s: State, e: Event)
    requires Inv(s) && Enabled(s, e) && Administrative(e)
    ensures Inv(Step(s, e).0)
  {
    match e
    case CreateUserEvent(actorId, organizationId, email, hash, isActive, userId) =>
      CreateUserKeeps(s, actorId, organizationId, email, hash, isActive, userId);
    case UpdateUserEvent(actorId, userId, email, isActive) => UpdateUserKeeps(s, actorId, userId, email, isActive);
    case DeactivateUserEvent(actorId, userId) => DeactivateUserKeeps(s, actorId, userId);
    case ReplaceRolesEvent(actorId, userId) => ReplaceRolesKeeps(s, actorId, userId);
  }

  predicate Environmental(e: Event) {
    e.Tick? || e.SetOrganizationActiveEvent?
  }

  lemma EnvironmentStepKeeps(s: State, e: Event)
    requires Inv(s) && Environmental(e)
    ensures Inv(Step(s, e).0)
  {
    if e.Tick? {
      AdvanceKeeps(s, e.seconds);
    } else {
      SetOrganizationActiveKeeps(s, e.organizationId, e.isActive);
    }
  }

  lemma AuthStepKeeps(s: State, e: Event)
    requires Inv(s) && Enabled(s, e) && !Administrative(e) && !Environmental(e)
    ensures Inv(Step(s, e).0)
  {
    match e
    case RegisterEvent(slug, email, hash, organizationId, userId, draw) =>
      RegisterKeeps(s, slug, email, hash, organizationId, userId, draw);
    case LoginEvent(slug, email, password, rehash, draw) => LoginKeeps(s, slug, email, password, rehash, draw);
    case RotateEvent(raw, draw) => RotateKeeps(s, raw, draw);
    case LogoutEvent(raw) => LogoutKeeps(s, raw);
    case ChangePasswordEvent(organizationId, userId, current, next, salt) =>
      ChangePasswordKeeps(s, organizationId, userId, current, next, salt);
    case RequestResetEvent(slug, email, resetId, secret) => RequestResetKeeps(s, slug, email, resetId, secret);
    case ResetPasswordEvent(raw, next, salt) => ResetPasswordKeeps(s, raw, next, salt);
  }

  /** Every enabled step keeps the invariant. */
  lemma StepKeeps(s: State, e: Event)
    requires Inv(s) && Enabled(s, e)
    ensures Inv(Step(s, e).0)
  {
    if Administrative(e) {
      AdministrativeStepKeeps(s, e);
    } else if Environmental(e) {
      EnvironmentStepKeeps(s, e);
    } else {
      AuthStepKeeps(s, e);
    }
  }
}
