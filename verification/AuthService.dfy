/**
 backend/app/services/auth.py in its own form: one object holding the tables, and one method per
 call that updates rows in place. Random values are parameters and the clock is a field. Every
 method is proved to take the abstract state to exactly the state its specification names, to give
 that reply, and to keep the invariant.
 */
module AuthService {
  import opened Wrappers
  import opened AuthSpec
  import opened RefreshChains
  import opened AuthInvariant
  import opened ClaimRuns
  import opened SessionMachine

  predicate SessionRow(t: RefreshToken, organizationId: Id, userId: Id, familyId: Id, now: Time) {
    t.organizationId == organizationId && t.userId == userId && t.familyId == familyId && LiveAt(t, now)
  }

  class Service {
    const settings: Settings
    var now: Time
    var organizations: map<Id, Organization>
    var users: map<Id, User>
    var refreshTokens: RefreshTable
    var resetTokens: ResetTable
    var audit: seq<AuditEntry>
    ghost var minted: set<Claims>

    /** The content of the tables as a value. */
    ghost function Contents(): State
      reads this
    {
      State(settings, now, organizations, users, refreshTokens, resetTokens, audit, minted)
    }

    ghost predicate Valid()
      reads this
    {
      Inv(Contents())
    }

    constructor (settings: Settings, now: Time)
      requires settings.Sound()
      ensures Init(Contents()) && Valid() && this.settings == settings && this.now == now
    {
      this.settings := settings;
      this.now := now;
      organizations, users, refreshTokens, resetTokens := map[], map[], map[], map[];
      audit, minted := [], {};
      new;
      InitInv(Contents());
    }

    method FindTokenRow(hash: Digest) returns (found: Option<Id>)
      requires Valid()
      ensures found == FindToken(refreshTokens, hash)
    {
      found := None;
      if id :| id in refreshTokens && refreshTokens[id].tokenHash == hash {
        UniqueFind(refreshTokens, hash, id);
        found := Some(id);
      }
    }

    method FindResetRow(hash: Digest) returns (found: Option<Id>)
      requires Valid()
      ensures found == FindReset(resetTokens, hash)
    {
      found := None;
      if id :| id in resetTokens && resetTokens[id].tokenHash == hash {
        found := Some(id);
      }
    }

    predicate Addressed(id: Id, slug: string, email: string)
      reads this
      ensures Addressed(id, slug, email) == HasAddress(Contents(), id, slug, email)
    {
      && id in users && users[id].email == email
      && users[id].organizationId in organizations && organizations[users[id].organizationId].slug == slug
    }

    method FindUserRow(slug: string, email: string) returns (found: Option<Id>)
      requires Valid()
      ensures found == FindAccount(Contents(), slug, email)
    {
      found := None;
      if id :| id in users && Addressed(id, slug, email) {
        ghost var other := FindAccount(Contents(), slug, email);
        assert Addressed(id, slug, email) && other.Some? && HasAddress(Contents(), other.value, slug, email);
        assert SameSlug(organizations[users[id].organizationId], organizations[users[other.value].organizationId]);
        assert SameAddress(users[id], users[other.value]);
        found := Some(id);
      } else {
        assert forall id :: !Addressed(id, slug, email);
      }
    }

    predicate IsEnabled(organizationId: Id, userId: Id)
      reads this
      ensures IsEnabled(organizationId, userId) == AccountEnabled(Contents(), organizationId, userId)
    {
      && userId in users && users[userId].organizationId == organizationId && users[userId].isActive
      && organizationId in organizations && organizations[organizationId].isActive
    }

    /** Signs an access token for a session of `userId`. */
    method CreateAccessToken(userId: Id, familyId: Id) returns (claims: Claims)
      requires userId in users
      modifies this`minted
      ensures claims == Mint(old(Contents()), userId, familyId)
      ensures Contents() == old(Contents()).(minted := old(minted) + {claims})
    {
      var user := users[userId];
      claims := Claims(userId, user.organizationId, familyId, user.authVersion, now, now + settings.accessTtl);
      minted := minted + {claims};
    }

    method OpenSession(userId: Id, draw: Draw) returns (outcome: Outcome)
      requires userId in users
      modifies this`refreshTokens, this`minted
      ensures (Contents(), outcome) == CreateSession(old(Contents()), userId, draw)
    {
      var absoluteExpiresAt := now + settings.ttl;
      var expiresAt := Min(now + settings.idle, absoluteExpiresAt);
      var row := RefreshToken(users[userId].organizationId, userId, Hash(draw.secret), draw.familyId,
                              expiresAt, absoluteExpiresAt, None, None, now);
      refreshTokens := refreshTokens[draw.tokenId := row];
      var claims := CreateAccessToken(userId, draw.familyId);
      outcome := SessionOpened(draw.secret, claims);
    }

    method AddOrganization(slug: string, email: string, hash: PasswordHash, organizationId: Id, userId: Id)
      modifies this`organizations, this`users, this`audit
      ensures Contents() == Found(old(Contents()), slug, email, hash, organizationId, userId)
    {
      organizations := organizations[organizationId := Organization(slug, true)];
      users := users[userId := User(organizationId, email, hash, 1, true, None)];
      audit := audit + [AuditEntry(OrganizationCreated, Some(userId), organizationId, None, None)];
    }

    method RegisterOrganization(slug: string, email: string, hash: PasswordHash, organizationId: Id, userId: Id,
                                draw: Draw)
      returns (outcome: Outcome)
      requires Valid() && Enabled(Contents(), RegisterEvent(slug, email, hash, organizationId, userId, draw))
      modifies this
      ensures (Contents(), outcome) == Register(old(Contents()), slug, email, hash, organizationId, userId, draw)
      ensures Valid()
    {
      RegisterKeeps(Contents(), slug, email, hash, organizationId, userId, draw);
      if !settings.allowRegistration {
        return Refused(RegistrationDisabled);
      }
      if exists id :: id in organizations && organizations[id].slug == slug {
        return Refused(OrganizationExists);
      }
      AddOrganization(slug, email, hash, organizationId, userId);
      outcome := OpenSession(userId, draw);
    }

    method LogIn(slug: string, email: string, password: string, rehash: Option<nat>, draw: Draw)
      returns (outcome: Outcome)
      requires Valid() && Enabled(Contents(), LoginEvent(slug, email, password, rehash, draw))
      modifies this
      ensures (Contents(), outcome) == Login(old(Contents()), slug, email, password, rehash, draw)
      ensures Valid()
    {
      LoginKeeps(Contents(), slug, email, password, rehash, draw);
      var found := FindUserRow(slug, email);
      if found.None? {
        return Refused(InvalidCredentials);
      }
      var id, user := found.value, users[found.value];
      if !VerifyPassword(password, user.passwordHash) || !IsEnabled(user.organizationId, id) {
        return Refused(InvalidCredentials);
      }
      if rehash.Some? {
        user := user.(passwordHash := PasswordHash(password, rehash.value));
      }
      users := users[id := user.(lastLoginAt := Some(now))];
      outcome := OpenSession(id, draw);
    }

    /** Adds the replacement row, then closes the replaced one and links it. */
    method ReplaceToken(id: Id, next: Id, replacement: RefreshToken)
      requires id in refreshTokens && next !in refreshTokens
      modifies this`refreshTokens
      ensures refreshTokens == Replace(old(refreshTokens), id, next, replacement, now)
    {
      refreshTokens := refreshTokens[next := replacement];
      refreshTokens := refreshTokens[id := refreshTokens[id].(revokedAt := Some(now))];
      refreshTokens := refreshTokens[id := refreshTokens[id].(replacedById := Some(next))];
    }

    /** Closes the token in favour of one with a new secret and signs the next access token. */
    method RenewSession(id: Id, draw: Draw) returns (outcome: Outcome)
      requires id in refreshTokens && draw.tokenId !in refreshTokens && refreshTokens[id].userId in users
      requires users[refreshTokens[id].userId].organizationId == refreshTokens[id].organizationId
      modifies this`refreshTokens, this`minted
      ensures var stored := old(refreshTokens)[id];
              && refreshTokens == Replace(old(refreshTokens), id, draw.tokenId,
                                          Replacement(old(Contents()), stored, draw), now)
              && outcome == SessionOpened(draw.secret, Mint(old(Contents()), stored.userId, stored.familyId))
              && minted == old(minted) + {outcome.claims}
    {
      var stored := refreshTokens[id];
      var user := users[stored.userId];
      var replacementExpiresAt := Min(now + settings.idle, stored.absoluteExpiresAt);
      var replacement := RefreshToken(user.organizationId, stored.userId, Hash(draw.secret), stored.familyId,
                                      replacementExpiresAt, stored.absoluteExpiresAt, None, None, now);
      ReplaceToken(id, draw.tokenId, replacement);
      var claims := CreateAccessToken(stored.userId, stored.familyId);
      outcome := SessionOpened(draw.secret, claims);
    }

    /** The three answers to a known token that end its session, in order; none when the token is good. */
    method RefuseToken(id: Id) returns (refusal: Option<Code>)
      requires id in refreshTokens
      modifies this`refreshTokens
      ensures var (s, stored) := (old(Contents()), old(refreshTokens)[id]);
              if stored.revokedAt.Some? then
                refusal == Some(RefreshTokenReused)
                && refreshTokens == RevokeFamily(s.refreshTokens, stored.familyId, now)
              else if stored.expiresAt <= now || stored.absoluteExpiresAt <= now then
                refusal == Some(RefreshTokenExpired)
                && refreshTokens == s.refreshTokens[id := stored.(revokedAt := Some(now))]
              else if !AccountEnabled(s, stored.organizationId, stored.userId) then
                refusal == Some(AccountDisabled) && refreshTokens == RevokeFamily(s.refreshTokens, stored.familyId, now)
              else
                refusal == None && refreshTokens == s.refreshTokens
    {
      var stored := refreshTokens[id];
      if stored.revokedAt.Some? {
        refreshTokens := RevokeFamily(refreshTokens, stored.familyId, now);
        return Some(RefreshTokenReused);
      }
      if stored.expiresAt <= now || stored.absoluteExpiresAt <= now {
        refreshTokens := refreshTokens[id := stored.(revokedAt := Some(now))];
        return Some(RefreshTokenExpired);
      }
      if !IsEnabled(stored.organizationId, stored.userId) {
        refreshTokens := RevokeFamily(refreshTokens, stored.familyId, now);
        return Some(AccountDisabled);
      }
      refusal := None;
    }

    method RotateKnownToken(id: Id, raw: Secret, draw: Draw) returns (outcome: Outcome)
      requires FindToken(refreshTokens, Hash(raw)) == Some(id) && draw.tokenId !in refreshTokens
      modifies this`refreshTokens, this`minted
      ensures (Contents(), outcome) == Rotate(old(Contents()), raw, draw)
    {
      var refusal := RefuseToken(id);
      if refusal.Some? {
        return Refused(refusal.value);
      }
      outcome := RenewSession(id, draw);
    }

    method RotateRefreshToken(raw: Secret, draw: Draw) returns (outcome: Outcome)
      requires Valid() && FreshToken(Contents(), draw)
      modifies this`refreshTokens, this`minted
      ensures (Contents(), outcome) == Rotate(old(Contents()), raw, draw)
      ensures Valid()
    {
      RotateKeeps(Contents(), raw, draw);
      var found := FindTokenRow(Hash(raw));
      if found.None? {
        return Refused(InvalidRefreshToken);
      }
      outcome := RotateKnownToken(found.value, raw, draw);
    }

    method RevokeRefreshToken(raw: Secret)
      requires Valid()
      modifies this`refreshTokens
      ensures Contents() == Logout(old(Contents()), raw).0
      ensures Valid()
    {
      LogoutKeeps(Contents(), raw);
      var found := FindTokenRow(Hash(raw));
      if found.Some? {
        refreshTokens := RevokeFamily(refreshTokens, refreshTokens[found.value].familyId, now);
      }
    }

    /** `_revoke_user_sessions` and `_consume_password_reset_tokens` after the row's own two columns. */
    method SetCredential(userId: Id, hash: PasswordHash, entry: AuditEntry)
      requires userId in users
      modifies this`users, this`refreshTokens, this`resetTokens, this`audit
      ensures Contents() == ReplaceCredential(old(Contents()), userId, hash, entry)
    {
      users := users[userId := users[userId].(passwordHash := hash)];
      users := users[userId := users[userId].(authVersion := users[userId].authVersion + 1)];
      refreshTokens := RevokeUserSessions(refreshTokens, users[userId].organizationId, userId, now);
      resetTokens := ConsumeResets(resetTokens, users[userId].organizationId, userId, now);
      audit := audit + [entry];
    }

    method ChangeUserPassword(organizationId: Id, userId: Id, current: string, next: string, salt: nat)
      returns (outcome: Outcome)
      requires Valid()
      modifies this`users, this`refreshTokens, this`resetTokens, this`audit
      ensures (Contents(), outcome) == ChangePassword(old(Contents()), organizationId, userId, current, next, salt)
      ensures Valid()
    {
      ChangePasswordKeeps(Contents(), organizationId, userId, current, next, salt);
      if userId !in users || users[userId].organizationId != organizationId || !users[userId].isActive {
        return Refused(SessionRevoked);
      }
      if !VerifyPassword(current, users[userId].passwordHash) {
        return Refused(CurrentPasswordInvalid);
      }
      if VerifyPassword(next, users[userId].passwordHash) {
        return Refused(PasswordReuseNotAllowed);
      }
      var entry := AuditEntry(PasswordChanged, Some(userId), userId, None, Some(users[userId].authVersion + 1));
      SetCredential(userId, PasswordHash(next, salt), entry);
      outcome := Done;
    }

    /** Consumes the links a user has, adds one, and logs the request at the version the user has. */
    method AddResetLink(id: Id, resetId: Id, secret: Secret)
      requires id in users
      modifies this`resetTokens, this`audit
      ensures var (s, user) := (old(Contents()), users[id]);
              && resetTokens == ConsumeResets(s.resetTokens, user.organizationId, id, now)
                   [resetId := ResetToken(user.organizationId, id, Hash(secret), now + settings.resetTtl, None)]
              && audit == s.audit + [AuditEntry(ResetRequested, None, id, None, Some(user.authVersion))]
    {
      var user := users[id];
      resetTokens := ConsumeResets(resetTokens, user.organizationId, id, now);
      var link := ResetToken(user.organizationId, id, Hash(secret), now + settings.resetTtl, None);
      resetTokens := resetTokens[resetId := link];
      audit := audit + [AuditEntry(ResetRequested, None, id, None, Some(user.authVersion))];
    }

    method RequestPasswordReset(slug: string, email: string, resetId: Id, secret: Secret) returns (outcome: Outcome)
      requires Valid() && Enabled(Contents(), RequestResetEvent(slug, email, resetId, secret))
      modifies this`resetTokens, this`audit
      ensures (Contents(), outcome) == RequestReset(old(Contents()), slug, email, resetId, secret)
      ensures Valid()
    {
      RequestResetKeeps(Contents(), slug, email, resetId, secret);
      var found := FindUserRow(slug, email);
      if found.None? || !IsEnabled(users[found.value].organizationId, found.value) {
        return Done;
      }
      AddResetLink(found.value, resetId, secret);
      outcome := ResetDispatched(secret, found.value);
    }

    method CompletePasswordReset(raw: Secret, next: string, salt: nat) returns (outcome: Outcome)
      requires Valid()
      modifies this`users, this`refreshTokens, this`resetTokens, this`audit
      ensures (Contents(), outcome) == ResetPassword(old(Contents()), raw, next, salt)
      ensures Valid()
    {
      ResetPasswordKeeps(Contents(), raw, next, salt);
      var found := FindResetRow(Hash(raw));
      if found.None? {
        return Refused(InvalidResetToken);
      }
      var stored := resetTokens[found.value];
      if stored.consumedAt.Some? || stored.expiresAt <= now || !IsEnabled(stored.organizationId, stored.userId) {
        return Refused(InvalidResetToken);
      }
      var id := stored.userId;
      if VerifyPassword(next, users[id].passwordHash) {
        return Refused(PasswordReuseNotAllowed);
      }
      var entry := AuditEntry(ResetCompleted, None, id, None, Some(users[id].authVersion + 1));
      SetCredential(id, PasswordHash(next, salt), entry);
      outcome := Done;
    }

    /**
     `session_is_active`: looks for a live token of the session and stops at the first. In a valid state
     the answer is the session machine's: the session has not ended, is this user's, and both its deadlines
     lie ahead.
     */
    method IsSessionActive(organizationId: Id, userId: Id, familyId: Id) returns (active: bool)
      ensures active == SessionIsActive(Contents(), organizationId, userId, familyId)
      ensures Valid() ==> (active <==> Running(Abstract(refreshTokens), organizationId, userId, familyId, now))
    {
      active := false;
      var rest := refreshTokens.Keys;
      while rest != {} && !active
        invariant rest <= refreshTokens.Keys
        invariant active <==> exists id :: id in refreshTokens.Keys - rest
                                && SessionRow(refreshTokens[id], organizationId, userId, familyId, now)
        decreases |rest|
      {
        var id :| id in rest;
        active := SessionRow(refreshTokens[id], organizationId, userId, familyId, now);
        rest := rest - {id};
      }
      if Valid() {
        ActiveIffLive(Contents(), organizationId, userId, familyId);
      }
    }

    /**
     `get_current_user` on a token whose signature verified. In a valid state that is a token within its lifetime and
     the leeway, of an active user of an active organization, whose session runs and whose roles were not replaced
     since.
     */
    method GetCurrentUser(claims: Claims) returns (user: Option<Id>)
      requires claims in minted
      ensures user == if Accepted(Contents(), claims) then Some(claims.sub) else None
      ensures Valid() ==>
                (user.Some? <==>
                   && now < claims.iat + settings.accessTtl + settings.leeway
                   && claims.sub in users && users[claims.sub].isActive
                   && claims.org in organizations && organizations[claims.org].isActive
                   && Running(Abstract(refreshTokens), claims.org, claims.sub, claims.sid, now)
                   && !RolesReplacedSince(audit, claims.sub, claims.av))
    {
      if Valid() {
        AcceptedExactly(Contents(), claims);
      }
      user := None;
      if claims.iat <= now + settings.leeway && now - settings.leeway < claims.exp
         && IsEnabled(claims.org, claims.sub) && users[claims.sub].authVersion == claims.av
      {
        var active := IsSessionActive(claims.org, claims.sub, claims.sid);
        if active {
          user := Some(claims.sub);
        }
      }
    }
  }
}
