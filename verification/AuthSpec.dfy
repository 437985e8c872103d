/**
 The session and credential protocol of backend/app/services/auth.py on values.

 A `State` is the content of the tables the protocol reads and writes, together with the clock
 and the set of access claims signed so far. Every service call is one transaction, so each is a
 function from a state to the next state and the reply. The administrative calls of
 backend/app/services/organization.py and rbac.py that touch the same columns are steps too,
 so that "every run" includes them.
 */
module AuthSpec {
  import opened Wrappers

  type Id = nat
  type Time = int

  /** A raw random token. */
  datatype Secret = Secret(value: nat)

  /** SHA-256 of a raw token, taken to be injective. */
  datatype Digest = Digest(of: Secret)

  function Hash(raw: Secret): Digest {
    Digest(raw)
  }

  /** A salted password hash. */
  datatype PasswordHash = PasswordHash(password: string, salt: nat)

  predicate VerifyPassword(password: string, hash: PasswordHash) {
    hash.password == password
  }

  /** Durations in seconds; `Sound` is what backend/app/core/config.py enforces. */
  datatype Settings = Settings(
    idle: nat, ttl: nat, resetTtl: nat, accessTtl: nat, leeway: nat, allowRegistration: bool)
  {
    predicate Sound() {
      0 < idle <= ttl && 0 < resetTtl && 0 < accessTtl
    }
  }

  datatype Organization = Organization(slug: string, isActive: bool)

  datatype User = User(
    organizationId: Id, email: string, passwordHash: PasswordHash,
    authVersion: nat, isActive: bool, lastLoginAt: Option<Time>)

  datatype RefreshToken = RefreshToken(
    organizationId: Id, userId: Id, tokenHash: Digest, familyId: Id,
    expiresAt: Time, absoluteExpiresAt: Time,
    revokedAt: Option<Time>, replacedById: Option<Id>, createdAt: Time)

  datatype ResetToken = ResetToken(
    organizationId: Id, userId: Id, tokenHash: Digest, expiresAt: Time, consumedAt: Option<Time>)

  datatype Action =
    | OrganizationCreated
    | UserCreated
    | UserUpdated
    | UserDeactivated
    | RolesUpdated
    | PasswordChanged
    | ResetRequested
    | ResetCompleted

  /** An audit row; the versions are the `auth_version` fields of the stored snapshots, if any. */
  datatype AuditEntry = AuditEntry(
    action: Action, actorId: Option<Id>, entityId: Id,
    previousVersion: Option<nat>, newVersion: Option<nat>)

  /** The signed content of an access token. */
  datatype Claims = Claims(sub: Id, org: Id, sid: Id, av: nat, iat: Time, exp: Time)

  type RefreshTable = map<Id, RefreshToken>
  type ResetTable = map<Id, ResetToken>

  datatype State = State(
    settings: Settings,
    now: Time,
    organizations: map<Id, Organization>,
    users: map<Id, User>,
    refreshTokens: RefreshTable,
    resetTokens: ResetTable,
    audit: seq<AuditEntry>,
    minted: set<Claims>)

  datatype Code =
    | RegistrationDisabled
    | OrganizationExists
    | InvalidCredentials
    | InvalidRefreshToken
    | RefreshTokenReused
    | RefreshTokenExpired
    | AccountDisabled
    | SessionRevoked
    | CurrentPasswordInvalid
    | PasswordReuseNotAllowed
    | InvalidResetToken
    | UserEmailExists
    | SelfChangeNotAllowed
    | NotFound

  datatype Outcome =
    | SessionOpened(secret: Secret, claims: Claims)
    | ResetDispatched(token: Secret, userId: Id)
    | Done
    | Refused(code: Code)

  /** The random values one session-opening call draws. */
  datatype Draw = Draw(tokenId: Id, familyId: Id, secret: Secret)

  function Min(a: Time, b: Time): Time {
    if a <= b then a else b
  }

  // ------------------------------------------------------------------ queries

  ghost function FindToken(tokens: RefreshTable, hash: Digest): (r: Option<Id>)
    ensures r.Some? ==> r.value in tokens && tokens[r.value].tokenHash == hash
    ensures r.None? ==> forall id :: id in tokens ==> tokens[id].tokenHash != hash
  {
    if exists id :: id in tokens && tokens[id].tokenHash == hash then
      var id :| id in tokens && tokens[id].tokenHash == hash;
      Some(id)
    else
      None
  }

  ghost function FindReset(tokens: ResetTable, hash: Digest): (r: Option<Id>)
    ensures r.Some? ==> r.value in tokens && tokens[r.value].tokenHash == hash
    ensures r.None? ==> forall id :: id in tokens ==> tokens[id].tokenHash != hash
  {
    if exists id :: id in tokens && tokens[id].tokenHash == hash then
      var id :| id in tokens && tokens[id].tokenHash == hash;
      Some(id)
    else
      None
  }

  predicate HasAddress(s: State, id: Id, slug: string, email: string) {
    && id in s.users
    && s.users[id].email == email
    && s.users[id].organizationId in s.organizations
    && s.organizations[s.users[id].organizationId].slug == slug
  }

  ghost function FindAccount(s: State, slug: string, email: string): (r: Option<Id>)
    ensures r.Some? ==> HasAddress(s, r.value, slug, email)
    ensures r.None? ==> forall id :: !HasAddress(s, id, slug, email)
  {
    if exists id :: HasAddress(s, id, slug, email) then
      var id :| HasAddress(s, id, slug, email);
      Some(id)
    else
      None
  }

  predicate OrganizationEnabled(s: State, id: Id) {
    id in s.organizations && s.organizations[id].isActive
  }

  /** The user row joined on both columns, active, in an active organization. */
  predicate AccountEnabled(s: State, organizationId: Id, userId: Id) {
    && userId in s.users
    && s.users[userId].organizationId == organizationId
    && s.users[userId].isActive
    && OrganizationEnabled(s, organizationId)
  }

  predicate EmailTaken(s: State, organizationId: Id, email: string, except: Option<Id>) {
    exists id :: id in s.users && s.users[id].organizationId == organizationId
                 && s.users[id].email == email && Some(id) != except
  }

  predicate LiveAt(t: RefreshToken, now: Time) {
    t.revokedAt.None? && t.expiresAt > now && t.absoluteExpiresAt > now
  }

  predicate SessionIsActive(s: State, organizationId: Id, userId: Id, familyId: Id) {
    exists id :: id in s.refreshTokens
                 && s.refreshTokens[id].organizationId == organizationId
                 && s.refreshTokens[id].userId == userId
                 && s.refreshTokens[id].familyId == familyId
                 && LiveAt(s.refreshTokens[id], s.now)
  }

  /** A bearer token verifies when it was signed here and is inside its validity period. */
  predicate TokenVerifies(s: State, c: Claims) {
    c in s.minted && c.iat <= s.now + s.settings.leeway && s.now - s.settings.leeway < c.exp
  }

  /** The acceptance test of `get_current_user`. */
  predicate Accepted(s: State, c: Claims) {
    && TokenVerifies(s, c)
    && AccountEnabled(s, c.org, c.sub)
    && s.users[c.sub].authVersion == c.av
    && SessionIsActive(s, c.org, c.sub, c.sid)
  }

  // ------------------------------------------------------------- bulk updates

  function RevokeFamily(tokens: RefreshTable, familyId: Id, at: Time): RefreshTable {
    map id | id in tokens ::
      if tokens[id].familyId == familyId && tokens[id].revokedAt.None?
      then tokens[id].(revokedAt := Some(at)) else tokens[id]
  }

  function RevokeUserSessions(tokens: RefreshTable, organizationId: Id, userId: Id, at: Time): RefreshTable {
    map id | id in tokens ::
      if tokens[id].organizationId == organizationId && tokens[id].userId == userId && tokens[id].revokedAt.None?
      then tokens[id].(revokedAt := Some(at)) else tokens[id]
  }

  function ConsumeResets(tokens: ResetTable, organizationId: Id, userId: Id, at: Time): ResetTable {
    map id | id in tokens ::
      if tokens[id].organizationId == organizationId && tokens[id].userId == userId && tokens[id].consumedAt.None?
      then tokens[id].(consumedAt := Some(at)) else tokens[id]
  }

  // -------------------------------------------------------------- auth.py steps

  function Mint(s: State, userId: Id, familyId: Id): Claims
    requires userId in s.users
  {
    Claims(userId, s.users[userId].organizationId, familyId, s.users[userId].authVersion,
           s.now, s.now + s.settings.accessTtl)
  }

  function CreateSession(s: State, userId: Id, draw: Draw): (State, Outcome)
    requires userId in s.users
  {
    var hard := s.now + s.settings.ttl;
    var row := RefreshToken(s.users[userId].organizationId, userId, Hash(draw.secret), draw.familyId,
                            Min(s.now + s.settings.idle, hard), hard, None, None, s.now);
    var claims := Mint(s, userId, draw.familyId);
    (s.(refreshTokens := s.refreshTokens[draw.tokenId := row], minted := s.minted + {claims}),
     SessionOpened(draw.secret, claims))
  }

  predicate SlugTaken(s: State, slug: string) {
    exists id :: id in s.organizations && s.organizations[id].slug == slug
  }

  /** A new organization with its first administrator. */
  function Found(s: State, slug: string, email: string, hash: PasswordHash, organizationId: Id, userId: Id): State {
    s.(organizations := s.organizations[organizationId := Organization(slug, true)],
       users := s.users[userId := User(organizationId, email, hash, 1, true, None)],
       audit := s.audit + [AuditEntry(OrganizationCreated, Some(userId), organizationId, None, None)])
  }

  function Register(s: State, slug: string, email: string, hash: PasswordHash,
                    organizationId: Id, userId: Id, draw: Draw): (State, Outcome)
  {
    if !s.settings.allowRegistration then
      (s, Refused(RegistrationDisabled))
    else if SlugTaken(s, slug) then
      (s, Refused(OrganizationExists))
    else
      CreateSession(Found(s, slug, email, hash, organizationId, userId), userId, draw)
  }

  ghost function Login(s: State, slug: string, email: string, password: string,
                       rehash: Option<nat>, draw: Draw): (State, Outcome)
  {
    match FindAccount(s, slug, email)
    case None => (s, Refused(InvalidCredentials))
    case Some(id) =>
      var user := s.users[id];
      if !VerifyPassword(password, user.passwordHash) || !AccountEnabled(s, user.organizationId, id) then
        (s, Refused(InvalidCredentials))
      else
        var hash := if rehash.Some? then PasswordHash(password, rehash.value) else user.passwordHash;
        var seen := s.(users := s.users[id := user.(passwordHash := hash, lastLoginAt := Some(s.now))]);
        CreateSession(seen, id, draw)
  }

  function Replacement(s: State, stored: RefreshToken, draw: Draw): RefreshToken {
    RefreshToken(stored.organizationId, stored.userId, Hash(draw.secret), stored.familyId,
                 Min(s.now + s.settings.idle, stored.absoluteExpiresAt), stored.absoluteExpiresAt,
                 None, None, s.now)
  }

  /** `row` takes over from the token `id`. */
  function Replace(tokens: RefreshTable, id: Id, next: Id, row: RefreshToken, at: Time): RefreshTable
    requires id in tokens
  {
    tokens[next := row][id := tokens[id].(revokedAt := Some(at), replacedById := Some(next))]
  }

  ghost function Rotate(s: State, raw: Secret, draw: Draw): (State, Outcome) {
    match FindToken(s.refreshTokens, Hash(raw))
    case None => (s, Refused(InvalidRefreshToken))
    case Some(id) =>
      var stored := s.refreshTokens[id];
      if stored.revokedAt.Some? then
        (s.(refreshTokens := RevokeFamily(s.refreshTokens, stored.familyId, s.now)), Refused(RefreshTokenReused))
      else if stored.expiresAt <= s.now || stored.absoluteExpiresAt <= s.now then
        (s.(refreshTokens := s.refreshTokens[id := stored.(revokedAt := Some(s.now))]), Refused(RefreshTokenExpired))
      else if !AccountEnabled(s, stored.organizationId, stored.userId) then
        (s.(refreshTokens := RevokeFamily(s.refreshTokens, stored.familyId, s.now)), Refused(AccountDisabled))
      else
        var claims := Mint(s, stored.userId, stored.familyId);
        (s.(refreshTokens := Replace(s.refreshTokens, id, draw.tokenId, Replacement(s, stored, draw), s.now),
            minted := s.minted + {claims}),
         SessionOpened(draw.secret, claims))
  }

  ghost function Logout(s: State, raw: Secret): (State, Outcome) {
    match FindToken(s.refreshTokens, Hash(raw))
    case None => (s, Done)
    case Some(id) =>
      (s.(refreshTokens := RevokeFamily(s.refreshTokens, s.refreshTokens[id].familyId, s.now)), Done)
  }

  /** A new password: next version, every session revoked, every reset link consumed, one audit row. */
  function ReplaceCredential(s: State, userId: Id, hash: PasswordHash, entry: AuditEntry): State
    requires userId in s.users
  {
    var user := s.users[userId];
    s.(users := s.users[userId := user.(passwordHash := hash, authVersion := user.authVersion + 1)],
       refreshTokens := RevokeUserSessions(s.refreshTokens, user.organizationId, userId, s.now),
       resetTokens := ConsumeResets(s.resetTokens, user.organizationId, userId, s.now),
       audit := s.audit + [entry])
  }

  function ChangePassword(s: State, organizationId: Id, userId: Id, current: string, next: string, salt: nat)
    : (State, Outcome)
  {
    if userId !in s.users || s.users[userId].organizationId != organizationId || !s.users[userId].isActive then
      (s, Refused(SessionRevoked))
    else if !VerifyPassword(current, s.users[userId].passwordHash) then
      (s, Refused(CurrentPasswordInvalid))
    else if VerifyPassword(next, s.users[userId].passwordHash) then
      (s, Refused(PasswordReuseNotAllowed))
    else
      var entry := AuditEntry(PasswordChanged, Some(userId), userId, None, Some(s.users[userId].authVersion + 1));
      (ReplaceCredential(s, userId, PasswordHash(next, salt), entry), Done)
  }

  ghost function RequestReset(s: State, slug: string, email: string, resetId: Id, secret: Secret): (State, Outcome) {
    match FindAccount(s, slug, email)
    case None => (s, Done)
    case Some(id) =>
      var user := s.users[id];
      if !AccountEnabled(s, user.organizationId, id) then
        (s, Done)
      else
        var row := ResetToken(user.organizationId, id, Hash(secret), s.now + s.settings.resetTtl, None);
        (s.(resetTokens := ConsumeResets(s.resetTokens, user.organizationId, id, s.now)[resetId := row],
            audit := s.audit + [AuditEntry(ResetRequested, None, id, None, Some(user.authVersion))]),
         ResetDispatched(secret, id))
  }

  ghost function ResetPassword(s: State, raw: Secret, next: string, salt: nat): (State, Outcome) {
    match FindReset(s.resetTokens, Hash(raw))
    case None => (s, Refused(InvalidResetToken))
    case Some(id) =>
      var stored := s.resetTokens[id];
      if stored.consumedAt.Some? || stored.expiresAt <= s.now
         || !AccountEnabled(s, stored.organizationId, stored.userId) then
        (s, Refused(InvalidResetToken))
      else if VerifyPassword(next, s.users[stored.userId].passwordHash) then
        (s, Refused(PasswordReuseNotAllowed))
      else
        var entry := AuditEntry(ResetCompleted, None, stored.userId, None,
                                Some(s.users[stored.userId].authVersion + 1));
        (ReplaceCredential(s, stored.userId, PasswordHash(next, salt), entry), Done)
  }

  // ---------------------------------------------------- administrative steps

  function CreateUser(s: State, actorId: Id, organizationId: Id, email: string, hash: PasswordHash,
                      isActive: bool, userId: Id): (State, Outcome)
  {
    if organizationId !in s.organizations then
      (s, Refused(NotFound))
    else if EmailTaken(s, organizationId, email, None) then
      (s, Refused(UserEmailExists))
    else
      (s.(users := s.users[userId := User(organizationId, email, hash, 1, isActive, None)],
          audit := s.audit + [AuditEntry(UserCreated, Some(actorId), userId, None, Some(1))]),
       Done)
  }

  /** Ends every session of `user` when the account goes from active to inactive or is deactivated again. */
  function Disable(s: State, userId: Id, user: User, entry: AuditEntry): State {
    s.(users := s.users[userId := user],
       refreshTokens := RevokeUserSessions(s.refreshTokens, user.organizationId, userId, s.now),
       audit := s.audit + [entry])
  }

  function UpdateUser(s: State, actorId: Id, userId: Id, email: string, isActive: bool): (State, Outcome) {
    if userId !in s.users then
      (s, Refused(NotFound))
    else
      var user := s.users[userId];
      if userId == actorId && !isActive then
        (s, Refused(SelfChangeNotAllowed))
      else if EmailTaken(s, user.organizationId, email, Some(userId)) then
        (s, Refused(UserEmailExists))
      else if user.isActive && !isActive then
        var entry := AuditEntry(UserUpdated, Some(actorId), userId, Some(user.authVersion), Some(user.authVersion + 1));
        (Disable(s, userId, user.(email := email, isActive := false, authVersion := user.authVersion + 1), entry), Done)
      else
        var entry := AuditEntry(UserUpdated, Some(actorId), userId, Some(user.authVersion), Some(user.authVersion));
        (s.(users := s.users[userId := user.(email := email, isActive := isActive)],
            audit := s.audit + [entry]), Done)
  }

  function DeactivateUser(s: State, actorId: Id, userId: Id): (State, Outcome) {
    if userId !in s.users then
      (s, Refused(NotFound))
    else if userId == actorId then
      (s, Refused(SelfChangeNotAllowed))
    else
      var user := s.users[userId];
      var entry := AuditEntry(UserDeactivated, Some(actorId), userId, Some(user.authVersion),
                              Some(user.authVersion + 1));
      (Disable(s, userId, user.(isActive := false, authVersion := user.authVersion + 1), entry), Done)
  }

  /** A granted role replacement: the version moves but the sessions stay. */
  function ReplaceRoles(s: State, actorId: Id, userId: Id): (State, Outcome) {
    if userId == actorId then
      (s, Refused(SelfChangeNotAllowed))
    else if userId !in s.users then
      (s, Refused(NotFound))
    else
      var user := s.users[userId];
      (s.(users := s.users[userId := user.(authVersion := user.authVersion + 1)],
          audit := s.audit + [AuditEntry(RolesUpdated, Some(actorId), userId, None, None)]), Done)
  }

  function SetOrganizationActive(s: State, organizationId: Id, isActive: bool): (State, Outcome) {
    if organizationId !in s.organizations then (s, Refused(NotFound))
    else
      var organization := s.organizations[organizationId].(isActive := isActive);
      (s.(organizations := s.organizations[organizationId := organization]), Done)
  }

  function Advance(s: State, seconds: nat): (State, Outcome) {
    (s.(now := s.now + seconds), Done)
  }

  // ---------------------------------------------------------------------- runs

  datatype Event =
    | Tick(seconds: nat)
    | RegisterEvent(slug: string, email: string, hash: PasswordHash, organizationId: Id, userId: Id, draw: Draw)
    | LoginEvent(slug: string, email: string, password: string, rehash: Option<nat>, draw: Draw)
    | RotateEvent(raw: Secret, draw: Draw)
    | LogoutEvent(raw: Secret)
    | ChangePasswordEvent(organizationId: Id, userId: Id, current: string, next: string, salt: nat)
    | RequestResetEvent(slug: string, email: string, resetId: Id, secret: Secret)
    | ResetPasswordEvent(raw: Secret, next: string, salt: nat)
    | CreateUserEvent(actorId: Id, organizationId: Id, email: string, hash: PasswordHash, isActive: bool, userId: Id)
    | UpdateUserEvent(actorId: Id, userId: Id, email: string, isActive: bool)
    | DeactivateUserEvent(actorId: Id, userId: Id)
    | ReplaceRolesEvent(actorId: Id, userId: Id)
    | SetOrganizationActiveEvent(organizationId: Id, isActive: bool)

  ghost function Step(s: State, e: Event): (State, Outcome) {
    match e
    case Tick(seconds) => Advance(s, seconds)
    case RegisterEvent(slug, email, hash, organizationId, userId, draw) =>
      Register(s, slug, email, hash, organizationId, userId, draw)
    case LoginEvent(slug, email, password, rehash, draw) => Login(s, slug, email, password, rehash, draw)
    case RotateEvent(raw, draw) => Rotate(s, raw, draw)
    case LogoutEvent(raw) => Logout(s, raw)
    case ChangePasswordEvent(organizationId, userId, current, next, salt) =>
      ChangePassword(s, organizationId, userId, current, next, salt)
    case RequestResetEvent(slug, email, resetId, secret) => RequestReset(s, slug, email, resetId, secret)
    case ResetPasswordEvent(raw, next, salt) => ResetPassword(s, raw, next, salt)
    case CreateUserEvent(actorId, organizationId, email, hash, isActive, userId) =>
      CreateUser(s, actorId, organizationId, email, hash, isActive, userId)
    case UpdateUserEvent(actorId, userId, email, isActive) => UpdateUser(s, actorId, userId, email, isActive)
    case DeactivateUserEvent(actorId, userId) => DeactivateUser(s, actorId, userId)
    case ReplaceRolesEvent(actorId, userId) => ReplaceRoles(s, actorId, userId)
    case SetOrganizationActiveEvent(organizationId, isActive) => SetOrganizationActive(s, organizationId, isActive)
  }

  predicate FreshSecret(s: State, secret: Secret) {
    forall id :: id in s.refreshTokens ==> s.refreshTokens[id].tokenHash != Hash(secret)
  }

  predicate FreshFamily(s: State, familyId: Id) {
    && (forall id :: id in s.refreshTokens ==> s.refreshTokens[id].familyId != familyId)
    && (forall c :: c in s.minted ==> c.sid != familyId)
  }

  predicate FreshToken(s: State, draw: Draw) {
    draw.tokenId !in s.refreshTokens && FreshSecret(s, draw.secret)
  }

  /** What the model assumes of the random values an event carries: they were never drawn before. */
  predicate Enabled(s: State, e: Event) {
    match e
    case RegisterEvent(_, _, _, organizationId, userId, draw) =>
      && organizationId !in s.organizations && userId !in s.users
      && FreshToken(s, draw) && FreshFamily(s, draw.familyId)
    case LoginEvent(_, _, _, _, draw) => FreshToken(s, draw) && FreshFamily(s, draw.familyId)
    case RotateEvent(_, draw) => FreshToken(s, draw)
    case RequestResetEvent(_, _, resetId, secret) =>
      && resetId !in s.resetTokens
      && forall id :: id in s.resetTokens ==> s.resetTokens[id].tokenHash != Hash(secret)
    case CreateUserEvent(_, _, _, _, _, userId) => userId !in s.users
    case _ => true
  }

  /** The empty database of a new deployment. */
  predicate Init(s: State) {
    && s.settings.Sound()
    && s.organizations == map[] && s.users == map[]
    && s.refreshTokens == map[] && s.resetTokens == map[]
    && s.audit == [] && s.minted == {}
  }

  ghost function Run(s: State, events: seq<Event>): State
    decreases |events|
  {
    if events == [] then s else Run(Step(s, events[0]).0, events[1..])
  }

  ghost predicate Admissible(s: State, events: seq<Event>)
    decreases |events|
  {
    events == [] || (Enabled(s, events[0]) && Admissible(Step(s, events[0]).0, events[1..]))
  }
}
