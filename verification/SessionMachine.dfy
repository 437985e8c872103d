/**
 The refresh-token table refines a small machine that knows nothing of rows: per family either the
 current secret with its two deadlines or the fact that it ended, and for every secret ever issued
 the family it was issued for.
 */
module SessionMachine {
  import opened Wrappers
  import opened AuthSpec
  import opened RefreshChains
  import opened AuthInvariant
  import opened AuthRuns

  datatype Session =
    | Live(organizationId: Id, userId: Id, current: Digest, idle: Time, hard: Time)
    | Ended

  datatype Machine = Machine(sessions: map<Id, Session>, issued: map<Digest, Id>)

  datatype Verdict = Unknown | Reused | Expired | Disabled | Renewed

  /** What a step means to the machine. */
  datatype Label =
    | Quiet
    | Open(family: Id, organizationId: Id, userId: Id, first: Digest, at: Time)
    | Present(secret: Digest, next: Digest, at: Time, enabled: set<Id>)
    | EndFamilyOf(secret: Digest)
    | EndUser(user: Id)

  // -------------------------------------------------------------- the machine

  function EndOne(m: Machine, f: Id): Machine {
    m.(sessions := map g | g in m.sessions :: if g == f then Ended else m.sessions[g])
  }

  function EndUserSessions(m: Machine, user: Id): Machine {
    m.(sessions := map g | g in m.sessions ::
        if m.sessions[g].Live? && m.sessions[g].userId == user then Ended else m.sessions[g])
  }

  /** Presenting a secret: only the current secret of a live session of an enabled account renews it. */
  function PresentSecret(m: Machine, secret: Digest, next: Digest, at: Time, enabled: set<Id>,
                         settings: Settings): (Machine, Verdict) {
    if secret !in m.issued || m.issued[secret] !in m.sessions then (m, Unknown)
    else
      var f := m.issued[secret];
      match m.sessions[f]
      case Ended => (m, Reused)
      case Live(organizationId, userId, current, idle, hard) =>
        if secret != current then (EndOne(m, f), Reused)
        else if idle <= at || hard <= at then (EndOne(m, f), Expired)
        else if userId !in enabled then (EndOne(m, f), Disabled)
        else
          (Machine(m.sessions[f := Live(organizationId, userId, next, Min(at + settings.idle, hard), hard)],
                   m.issued[next := f]), Renewed)
  }

  function Apply(m: Machine, l: Label, settings: Settings): Machine {
    match l
    case Quiet => m
    case Open(f, organizationId, userId, first, at) =>
      Machine(m.sessions[f := Live(organizationId, userId, first, Min(at + settings.idle, at + settings.ttl),
                                   at + settings.ttl)],
              m.issued[first := f])
    case Present(secret, next, at, enabled) => PresentSecret(m, secret, next, at, enabled, settings).0
    case EndFamilyOf(secret) => if secret in m.issued then EndOne(m, m.issued[secret]) else m
    case EndUser(user) => EndUserSessions(m, user)
  }

  /** The session has not ended, belongs to this user, and both its deadlines lie ahead. */
  predicate Running(m: Machine, organizationId: Id, userId: Id, f: Id, now: Time) {
    && f in m.sessions && m.sessions[f].Live?
    && m.sessions[f].organizationId == organizationId && m.sessions[f].userId == userId
    && m.sessions[f].idle > now && m.sessions[f].hard > now
  }

  // ---------------------------------------------------- the table as a machine

  ghost predicate IsLive(ts: RefreshTable, f: Id, id: Id) {
    id in ts && ts[id].familyId == f && ts[id].revokedAt.None?
  }

  function LiveRow(row: RefreshToken): Session {
    Live(row.organizationId, row.userId, row.tokenHash, row.expiresAt, row.absoluteExpiresAt)
  }

  ghost function SessionOf(ts: RefreshTable, f: Id): Session {
    if exists id :: IsLive(ts, f, id) then
      var id :| IsLive(ts, f, id);
      LiveRow(ts[id])
    else
      Ended
  }

  ghost function Sessions(ts: RefreshTable): map<Id, Session> {
    map f | f in (set id | id in ts :: ts[id].familyId) :: SessionOf(ts, f)
  }

  ghost function Issued(ts: RefreshTable): map<Digest, Id> {
    map h | h in (set id | id in ts :: ts[id].tokenHash) :: FamilyOf(ts, h)
  }

  ghost function FamilyOf(ts: RefreshTable, h: Digest): Id {
    var found := FindToken(ts, h);
    if found.Some? then ts[found.value].familyId else 0
  }

  ghost function Abstract(ts: RefreshTable): Machine {
    Machine(Sessions(ts), Issued(ts))
  }

  /** What makes an abstraction well defined: one live token per family, one token per secret. */
  ghost predicate Functional(ts: RefreshTable) {
    && UniqueHashes(ts)
    && forall f, a, b :: IsLive(ts, f, a) && IsLive(ts, f, b) ==> a == b
  }

  lemma InvIsFunctional(s: State)
    requires Inv(s)
    ensures Functional(s.refreshTokens)
  {
    forall f, a, b | IsLive(s.refreshTokens, f, a) && IsLive(s.refreshTokens, f, b) ensures a == b {
      OneLiveTokenPerFamily(s.refreshTokens, s.settings, s.now, a, b);
    }
  }

  lemma FamilyOfToken(ts: RefreshTable, id: Id)
    requires UniqueHashes(ts) && id in ts
    ensures ts[id].tokenHash in Issued(ts) && Issued(ts)[ts[id].tokenHash] == ts[id].familyId
  {
    UniqueFind(ts, ts[id].tokenHash, id);
  }

  lemma LiveSession(ts: RefreshTable, f: Id, id: Id)
    requires Functional(ts) && IsLive(ts, f, id)
    ensures f in Sessions(ts)
    ensures Sessions(ts)[f] == LiveRow(ts[id])
  {
  }

  lemma DeadSession(ts: RefreshTable, f: Id)
    requires AllRevoked(ts, f)
    ensures SessionOf(ts, f) == Ended
  {
  }

  // --------------------------------------------------------- change by change

  /** A row the change left alone, or a dead family, shows the same session. */
  lemma SessionFrame(a: RefreshTable, b: RefreshTable, f: Id)
    requires Functional(a)
    requires forall id :: IsLive(a, f, id) ==> IsLive(b, f, id) && SameRow(a[id], b[id])
    requires forall id :: IsLive(b, f, id) ==> IsLive(a, f, id)
    ensures SessionOf(a, f) == SessionOf(b, f)
  {
  }

  lemma KillsSessions(a: RefreshTable, b: RefreshTable, f: Id)
    requires Kills(a, b) && Functional(a) && Functional(b)
    ensures SessionOf(b, f) == if AllRevoked(b, f) then Ended else SessionOf(a, f)
  {
    if AllRevoked(b, f) {
      DeadSession(b, f);
    } else {
      forall id | IsLive(a, f, id) ensures IsLive(b, f, id) && SameRow(a[id], b[id]) {
      }
      SessionFrame(a, b, f);
    }
  }

  lemma KillsIssued(a: RefreshTable, b: RefreshTable)
    requires Kills(a, b) && UniqueHashes(a) && UniqueHashes(b)
    ensures Issued(b) == Issued(a) && Sessions(b).Keys == Sessions(a).Keys
  {
    assert (set id | id in a :: a[id].tokenHash) == (set id | id in b :: b[id].tokenHash) by {
      forall id | id in a ensures a[id].tokenHash == b[id].tokenHash && a[id].familyId == b[id].familyId {
      }
    }
    forall h | h in Issued(a) ensures Issued(b)[h] == Issued(a)[h] {
      var id :| id in a && a[id].tokenHash == h;
      FamilyOfToken(a, id);
      FamilyOfToken(b, id);
    }
    forall id | id in a ensures a[id].familyId == b[id].familyId {
    }
  }

  /** Revoking all of one family ends its session and no other. */
  lemma KillFamilyRefines(a: RefreshTable, b: RefreshTable, f: Id)
    requires Kills(a, b) && Functional(a) && Functional(b) && AllRevoked(b, f)
    requires forall id :: id in a && a[id].familyId != f ==> b[id] == a[id]
    ensures Abstract(b) == EndOne(Abstract(a), f)
  {
    KillsIssued(a, b);
    forall g | g in Sessions(a) ensures Sessions(b)[g] == EndOne(Abstract(a), f).sessions[g] {
      KillsSessions(a, b, g);
      if g != f && AllRevoked(b, g) {
        DeadSession(a, g);
      }
    }
  }

  /** Revoking all of one user's tokens ends exactly that user's sessions. */
  lemma KillUserRefines(a: RefreshTable, b: RefreshTable, user: Id)
    requires Kills(a, b) && Functional(a) && Functional(b)
    requires forall id :: id in a && a[id].userId == user ==> b[id].revokedAt.Some?
    requires forall id :: id in a && a[id].userId != user ==> b[id] == a[id]
    ensures Abstract(b) == EndUserSessions(Abstract(a), user)
  {
    KillsIssued(a, b);
    forall g | g in Sessions(a) ensures Sessions(b)[g] == EndUserSessions(Abstract(a), user).sessions[g] {
      KillsSessions(a, b, g);
      if id :| IsLive(a, g, id) {
        LiveSession(a, g, id);
        if a[id].userId == user {
          forall k | k in b && b[k].familyId == g ensures b[k].revokedAt.Some? {
            assert k in a && a[k].familyId == a[id].familyId;
          }
        } else {
          assert IsLive(b, g, id);
        }
      }
    }
  }

  /** One more row adds its family and its secret. */
  lemma AddedRow(a: RefreshTable, b: RefreshTable, id: Id, row: RefreshToken)
    requires b.Keys == a.Keys + {id} && b[id] == row && UniqueHashes(a) && UniqueHashes(b)
    requires forall k :: k in a ==> SameRow(a[k], b[k])
    ensures Sessions(b).Keys == Sessions(a).Keys + {row.familyId}
    ensures Issued(b) == Issued(a)[row.tokenHash := row.familyId]
  {
    forall h | h in Issued(b) ensures h in Issued(a)[row.tokenHash := row.familyId]
    {
      var k :| k in b && b[k].tokenHash == h;
      assert k != id ==> k in a && a[k].tokenHash == h;
    }
    forall h | h in Issued(a)[row.tokenHash := row.familyId]
      ensures h in Issued(b) && Issued(b)[h] == Issued(a)[row.tokenHash := row.familyId][h]
    {
      FamilyOfToken(b, id);
      if h != row.tokenHash {
        var k :| k in a && a[k].tokenHash == h;
        FamilyOfToken(a, k);
        FamilyOfToken(b, k);
      }
    }
    forall f | f in Sessions(a) ensures f in Sessions(b) {
      var k :| k in a && a[k].familyId == f;
      assert k in b && b[k].familyId == f;
    }
    forall f | f in Sessions(b) ensures f in Sessions(a) || f == row.familyId {
      var k :| k in b && b[k].familyId == f;
      assert k != id ==> k in a && a[k].familyId == f;
    }
  }

  lemma OtherSessions(a: RefreshTable, b: RefreshTable, id: Id, f: Id, g: Id)
    requires Functional(a) && Functional(b) && f != g
    requires b.Keys == a.Keys + {id} && b[id].familyId == f
    requires forall k :: k in a ==> SameRow(a[k], b[k]) && (a[k].familyId != f ==> b[k] == a[k])
    ensures SessionOf(b, g) == SessionOf(a, g)
  {
    SessionFrame(a, b, g);
  }

  /** A new unrevoked row shows as its family's session; families it is not in show what they showed. */
  lemma AddedSessions(a: RefreshTable, b: RefreshTable, id: Id, row: RefreshToken)
    requires Functional(a) && Functional(b) && row.revokedAt.None?
    requires id !in a && b.Keys == a.Keys + {id} && b[id] == row
    requires forall k :: k in a ==> SameRow(a[k], b[k]) && (a[k].familyId != row.familyId ==> b[k] == a[k])
    ensures Sessions(b) == Sessions(a)[row.familyId := LiveRow(row)]
  {
    var f := row.familyId;
    assert IsLive(b, f, id);
    LiveSession(b, f, id);
    forall g | g in Sessions(a) && g != f ensures Sessions(b)[g] == Sessions(a)[g] {
      OtherSessions(a, b, id, f, g);
    }
  }

  lemma AddedSession(a: RefreshTable, b: RefreshTable, id: Id, row: RefreshToken)
    requires Functional(a) && Functional(b) && row.revokedAt.None?
    requires id !in a && b.Keys == a.Keys + {id} && b[id] == row
    requires forall k :: k in a ==> SameRow(a[k], b[k]) && (a[k].familyId != row.familyId ==> b[k] == a[k])
    ensures Abstract(b) == Machine(Sessions(a)[row.familyId := LiveRow(row)], Issued(a)[row.tokenHash := row.familyId])
  {
    AddedRow(a, b, id, row);
    AddedSessions(a, b, id, row);
  }

  lemma OpensRefines(a: RefreshTable, b: RefreshTable, id: Id, row: RefreshToken, settings: Settings, now: Time)
    requires Opens(a, b, id, row, settings, now) && Functional(a) && Functional(b)
    ensures Abstract(b)
              == Apply(Abstract(a), Open(row.familyId, row.organizationId, row.userId, row.tokenHash, now), settings)
  {
    AddedSession(a, b, id, row);
  }

  lemma RotatesRefines(a: RefreshTable, b: RefreshTable, id: Id, next: Id, row: RefreshToken, settings: Settings,
                       now: Time)
    requires Rotates(a, b, id, next, row, settings, now) && Functional(a) && Functional(b)
    ensures Abstract(b) == Machine(
      Sessions(a)[row.familyId := LiveRow(row)],
      Issued(a)[row.tokenHash := row.familyId])
  {
    AddedSession(a, b, next, row);
  }

  // ------------------------------------------------------------ the simulation

  ghost function EnabledUsers(s: State): set<Id> {
    set u | u in s.users && AccountEnabled(s, s.users[u].organizationId, u)
  }

  ghost function LabelOf(s: State, e: Event): Label {
    var outcome := Step(s, e).1;
    match e
    case RotateEvent(raw, draw) => Present(Hash(raw), Hash(draw.secret), s.now, EnabledUsers(s))
    case LogoutEvent(raw) => EndFamilyOf(Hash(raw))
    case _ =>
      if outcome.SessionOpened? then Open(outcome.claims.sid, outcome.claims.org, outcome.claims.sub,
                                          Hash(outcome.secret), s.now)
      else if EndedUser(s, e).Some? then EndUser(EndedUser(s, e).value)
      else Quiet
  }

  function VerdictOf(outcome: Outcome): Verdict {
    match outcome
    case SessionOpened(_, _) => Renewed
    case Refused(RefreshTokenReused) => Reused
    case Refused(RefreshTokenExpired) => Expired
    case Refused(AccountDisabled) => Disabled
    case _ => Unknown
  }

  /** `session_is_active` is exactly the machine's view: live, owned, and both deadlines ahead. */
  lemma ActiveIffLive(s: State, organizationId: Id, userId: Id, f: Id)
    requires Inv(s)
    ensures SessionIsActive(s, organizationId, userId, f) <==>
              Running(Abstract(s.refreshTokens), organizationId, userId, f, s.now)
  {
    InvIsFunctional(s);
    ActiveMeansLive(s, organizationId, userId, f);
  }

  lemma ActiveMeansLive(s: State, organizationId: Id, userId: Id, f: Id)
    requires Functional(s.refreshTokens)
    ensures SessionIsActive(s, organizationId, userId, f) <==>
              Running(Abstract(s.refreshTokens), organizationId, userId, f, s.now)
  {
    var ts := s.refreshTokens;
    if id :| IsLive(ts, f, id) {
      LiveSession(ts, f, id);
      forall k | k in ts && ts[k].familyId == f && LiveAt(ts[k], s.now) ensures k == id {
        assert IsLive(ts, f, k);
      }
    } else {
      NoneLive(ts, f);
    }
  }

  lemma NoneLive(ts: RefreshTable, f: Id)
    requires forall id :: !IsLive(ts, f, id)
    ensures SessionOf(ts, f) == Ended && AllRevoked(ts, f)
  {
    forall id | id in ts && ts[id].familyId == f ensures ts[id].revokedAt.Some? {
      assert !IsLive(ts, f, id);
    }
  }

  // -------------------------------------------------------------- per call

  lemma UserIsEnabled(s: State, organizationId: Id, userId: Id)
    requires OwnedBy(s.users, organizationId, userId)
    ensures userId in EnabledUsers(s) <==> AccountEnabled(s, organizationId, userId)
  {
  }

  /** The machine ends the family of every secret it knows but does not renew. */
  lemma RefusedSecretEndsFamily(m: Machine, secret: Digest, next: Digest, at: Time, enabled: set<Id>,
                                settings: Settings)
    requires secret in m.issued
    requires PresentSecret(m, secret, next, at, enabled, settings).1 != Renewed
    ensures PresentSecret(m, secret, next, at, enabled, settings).0 == EndOne(m, m.issued[secret])
  {
  }

  /** The part of the invariant the simulation of a rotation needs. */
  ghost predicate Presentable(s: State, secret: Digest, id: Id) {
    && Functional(s.refreshTokens)
    && FindToken(s.refreshTokens, secret) == Some(id)
    && OwnedBy(s.users, s.refreshTokens[id].organizationId, s.refreshTokens[id].userId)
  }

  lemma InvPresentable(s: State, secret: Digest)
    requires Inv(s) && FindToken(s.refreshTokens, secret).Some?
    ensures Presentable(s, secret, FindToken(s.refreshTokens, secret).value)
  {
    InvIsFunctional(s);
  }

  lemma KnownSecret(s: State, secret: Digest, id: Id)
    requires Presentable(s, secret, id)
    ensures secret in Issued(s.refreshTokens) && Issued(s.refreshTokens)[secret] == s.refreshTokens[id].familyId
    ensures s.refreshTokens[id].familyId in Sessions(s.refreshTokens)
  {
  }

  /** Table and machine give the same answer to a presented secret. */
  lemma VerdictsAgree(s: State, raw: Secret, draw: Draw, id: Id)
    requires Presentable(s, Hash(raw), id)
    ensures PresentSecret(Abstract(s.refreshTokens), Hash(raw), Hash(draw.secret), s.now, EnabledUsers(s), s.settings).1
              == VerdictOf(Rotate(s, raw, draw).1)
  {
    var stored := s.refreshTokens[id];
    var f := stored.familyId;
    KnownSecret(s, Hash(raw), id);
    UserIsEnabled(s, stored.organizationId, stored.userId);
    if IsLive(s.refreshTokens, f, id) {
      LiveSession(s.refreshTokens, f, id);
    } else if k :| IsLive(s.refreshTokens, f, k) {
      LiveSession(s.refreshTokens, f, k);
      assert !SameHash(s.refreshTokens[k], stored);
    } else {
      NoneLive(s.refreshTokens, f);
    }
  }

  lemma RenewRefines(s: State, raw: Secret, draw: Draw, id: Id)
    requires Presentable(s, Hash(raw), id) && Functional(Rotate(s, raw, draw).0.refreshTokens)
    requires Rotate(s, raw, draw).1.SessionOpened?
    requires Rotates(s.refreshTokens, Rotate(s, raw, draw).0.refreshTokens, id, draw.tokenId,
                     Replacement(s, s.refreshTokens[id], draw), s.settings, s.now)
    ensures PresentSecret(Abstract(s.refreshTokens), Hash(raw), Hash(draw.secret), s.now, EnabledUsers(s), s.settings).0
              == Abstract(Rotate(s, raw, draw).0.refreshTokens)
  {
    var stored := s.refreshTokens[id];
    KnownSecret(s, Hash(raw), id);
    VerdictsAgree(s, raw, draw, id);
    RotatesRefines(s.refreshTokens, Rotate(s, raw, draw).0.refreshTokens, id, draw.tokenId,
                   Replacement(s, stored, draw), s.settings, s.now);
    assert IsLive(s.refreshTokens, stored.familyId, id);
    LiveSession(s.refreshTokens, stored.familyId, id);
  }

  /** A refusal ends the family, which the machine may already have known. */
  lemma RefusalEnds(s: State, raw: Secret, draw: Draw, id: Id)
    requires TableInv(s.refreshTokens, s.settings, s.now) && FindToken(s.refreshTokens, Hash(raw)) == Some(id)
    requires Rotate(s, raw, draw).1.Refused?
    ensures var t := Rotate(s, raw, draw).0;
            && Kills(s.refreshTokens, t.refreshTokens)
            && AllRevoked(t.refreshTokens, s.refreshTokens[id].familyId)
            && (forall k :: k in s.refreshTokens && s.refreshTokens[k].familyId != s.refreshTokens[id].familyId ==>
                  t.refreshTokens[k] == s.refreshTokens[k])
  {
    if Rotate(s, raw, draw).1.code == RefreshTokenExpired {
      RevokeTailKills(s.refreshTokens, s.settings, s.now, id);
    } else {
      RevokeFamilyKills(s.refreshTokens, s.refreshTokens[id].familyId, s.now);
    }
  }

  /** Ending the presented secret's family in the table is ending it in the machine. */
  lemma RefusalRefines(a: RefreshTable, b: RefreshTable, id: Id)
    requires Functional(a) && Functional(b) && id in a
    requires Kills(a, b) && AllRevoked(b, a[id].familyId)
    requires forall k :: k in a && a[k].familyId != a[id].familyId ==> b[k] == a[k]
    ensures a[id].tokenHash in Issued(a)
    ensures Abstract(b) == EndOne(Abstract(a), Issued(a)[a[id].tokenHash])
  {
    FamilyOfToken(a, id);
    KillFamilyRefines(a, b, a[id].familyId);
  }

  lemma UnknownSecret(ts: RefreshTable, secret: Digest)
    requires FindToken(ts, secret).None?
    ensures secret !in Issued(ts)
  {
  }

  lemma RefusedRotationRefines(s: State, raw: Secret, draw: Draw, id: Id, b: RefreshTable)
    requires Presentable(s, Hash(raw), id) && Functional(b)
    requires PresentSecret(Abstract(s.refreshTokens), Hash(raw), Hash(draw.secret), s.now, EnabledUsers(s),
                           s.settings).1 != Renewed
    requires Kills(s.refreshTokens, b) && AllRevoked(b, s.refreshTokens[id].familyId)
    requires forall k :: k in s.refreshTokens && s.refreshTokens[k].familyId != s.refreshTokens[id].familyId ==>
               b[k] == s.refreshTokens[k]
    ensures PresentSecret(Abstract(s.refreshTokens), Hash(raw), Hash(draw.secret), s.now, EnabledUsers(s), s.settings).0
              == Abstract(b)
  {
    KnownSecret(s, Hash(raw), id);
    RefusalRefines(s.refreshTokens, b, id);
    RefusedSecretEndsFamily(Abstract(s.refreshTokens), Hash(raw), Hash(draw.secret), s.now, EnabledUsers(s),
                            s.settings);
  }

  lemma StepIsFunctional(s: State, e: Event)
    requires Inv(s) && Enabled(s, e)
    ensures Functional(s.refreshTokens) && Functional(Step(s, e).0.refreshTokens)
  {
    StepKeeps(s, e);
    InvIsFunctional(s);
    InvIsFunctional(Step(s, e).0);
  }

  /** Rotation is the machine's `Present`, with the same verdict. */
  lemma RotateRefines(s: State, raw: Secret, draw: Draw)
    requires Inv(s) && FreshToken(s, draw)
    ensures PresentSecret(Abstract(s.refreshTokens), Hash(raw), Hash(draw.secret), s.now, EnabledUsers(s), s.settings)
              == (Abstract(Rotate(s, raw, draw).0.refreshTokens), VerdictOf(Rotate(s, raw, draw).1))
  {
    var found := FindToken(s.refreshTokens, Hash(raw));
    if found.None? {
      UnknownSecret(s.refreshTokens, Hash(raw));
    } else {
      InvPresentable(s, Hash(raw));
      VerdictsAgree(s, raw, draw, found.value);
      KnownRotationRefines(s, raw, draw, found.value);
    }
  }

  lemma KnownRotationRefines(s: State, raw: Secret, draw: Draw, id: Id)
    requires Inv(s) && FreshToken(s, draw) && Presentable(s, Hash(raw), id)
    ensures PresentSecret(Abstract(s.refreshTokens), Hash(raw), Hash(draw.secret), s.now, EnabledUsers(s), s.settings).0
              == Abstract(Rotate(s, raw, draw).0.refreshTokens)
  {
    StepIsFunctional(s, RotateEvent(raw, draw));
    if Rotate(s, raw, draw).1.SessionOpened? {
      RotationRotates(s, raw, draw, id);
      RenewRefines(s, raw, draw, id);
    } else {
      EndedRotationRefines(s, raw, draw, id);
    }
  }

  lemma RefusedNotRenewed(s: State, raw: Secret, draw: Draw, id: Id)
    requires Presentable(s, Hash(raw), id) && Rotate(s, raw, draw).1.Refused?
    ensures PresentSecret(Abstract(s.refreshTokens), Hash(raw), Hash(draw.secret), s.now, EnabledUsers(s), s.settings).1
              != Renewed
  {
    VerdictsAgree(s, raw, draw, id);
  }

  lemma EndedRotationRefines(s: State, raw: Secret, draw: Draw, id: Id)
    requires TableInv(s.refreshTokens, s.settings, s.now) && Presentable(s, Hash(raw), id)
    requires Functional(Rotate(s, raw, draw).0.refreshTokens) && Rotate(s, raw, draw).1.Refused?
    ensures PresentSecret(Abstract(s.refreshTokens), Hash(raw), Hash(draw.secret), s.now, EnabledUsers(s), s.settings).0
              == Abstract(Rotate(s, raw, draw).0.refreshTokens)
  {
    RefusalEnds(s, raw, draw, id);
    RefusedNotRenewed(s, raw, draw, id);
    RefusedRotationRefines(s, raw, draw, id, Rotate(s, raw, draw).0.refreshTokens);
  }

  lemma LogoutRefines(s: State, raw: Secret)
    requires Functional(s.refreshTokens) && Functional(Logout(s, raw).0.refreshTokens)
    ensures Abstract(Logout(s, raw).0.refreshTokens)
              == Apply(Abstract(s.refreshTokens), EndFamilyOf(Hash(raw)), s.settings)
  {
    var found := FindToken(s.refreshTokens, Hash(raw));
    if found.None? {
      UnknownSecret(s.refreshTokens, Hash(raw));
    } else {
      EndFamilyRefines(s.refreshTokens, found.value, s.now);
    }
  }

  lemma EndFamilyRefines(a: RefreshTable, id: Id, at: Time)
    requires id in a && Functional(a) && Functional(RevokeFamily(a, a[id].familyId, at))
    ensures a[id].tokenHash in Issued(a)
    ensures Abstract(RevokeFamily(a, a[id].familyId, at)) == EndOne(Abstract(a), Issued(a)[a[id].tokenHash])
  {
    RevokeFamilyKills(a, a[id].familyId, at);
    RefusalRefines(a, RevokeFamily(a, a[id].familyId, at), id);
  }

  lemma OneUserPerFamily(s: State)
    requires Inv(s)
    ensures forall id, k :: id in s.refreshTokens && k in s.refreshTokens
                            && s.refreshTokens[id].familyId == s.refreshTokens[k].familyId ==>
              s.refreshTokens[id].userId == s.refreshTokens[k].userId
    ensures forall id :: id in s.refreshTokens ==>
              OwnedBy(s.users, s.refreshTokens[id].organizationId, s.refreshTokens[id].userId)
  {
    forall id, k | id in s.refreshTokens && k in s.refreshTokens
                   && s.refreshTokens[id].familyId == s.refreshTokens[k].familyId
      ensures s.refreshTokens[id].userId == s.refreshTokens[k].userId
    {
      assert SameOwner(s.refreshTokens[id], s.refreshTokens[k]);
    }
  }

  lemma UserEndRefines(s: State, t: State, u: Id)
    requires Inv(s) && Inv(t) && u in s.users
    requires t.refreshTokens == RevokeUserSessions(s.refreshTokens, s.users[u].organizationId, u, s.now)
    ensures Abstract(t.refreshTokens) == EndUserSessions(Abstract(s.refreshTokens), u)
  {
    InvIsFunctional(s);
    InvIsFunctional(t);
    OneUserPerFamily(s);
    RevokeUserKills(s.refreshTokens, s.users[u].organizationId, u, s.now);
    KillUserRefines(s.refreshTokens, t.refreshTokens, u);
  }

  lemma OpenRefines(s: State, userId: Id, draw: Draw)
    requires Inv(s) && userId in s.users && FreshToken(s, draw) && FreshFamily(s, draw.familyId)
    ensures var (t, outcome) := CreateSession(s, userId, draw);
            Abstract(t.refreshTokens) ==
              Apply(Abstract(s.refreshTokens),
                    Open(outcome.claims.sid, outcome.claims.org, outcome.claims.sub, Hash(outcome.secret), s.now),
                    s.settings)
  {
    var t := CreateSession(s, userId, draw).0;
    InvIsFunctional(s);
    CreateSessionKeeps(s, userId, draw);
    InvIsFunctional(t);
    CreateSessionOpens(s, userId, draw);
    OpensRefines(s.refreshTokens, t.refreshTokens, draw.tokenId, t.refreshTokens[draw.tokenId], s.settings, s.now);
  }

  lemma LoginRefines(s: State, e: Event)
    requires Inv(s) && Enabled(s, e) && e.LoginEvent?
    ensures Abstract(Step(s, e).0.refreshTokens) == Apply(Abstract(s.refreshTokens), LabelOf(s, e), s.settings)
  {
    if Step(s, e).1.SessionOpened? {
      var id := FindAccount(s, e.slug, e.email).value;
      var user := s.users[id];
      var hash := if e.rehash.Some? then PasswordHash(e.password, e.rehash.value) else user.passwordHash;
      var seen := s.(users := s.users[id := user.(passwordHash := hash, lastLoginAt := Some(s.now))]);
      OwnAddressIsFree(s, id);
      UserRowKeys(s, seen, id);
      SeenKeeps(s, seen, id);
      OpenRefines(seen, id, e.draw);
    }
  }

  lemma RegisterRefines(s: State, e: Event)
    requires Inv(s) && Enabled(s, e) && e.RegisterEvent?
    ensures Abstract(Step(s, e).0.refreshTokens) == Apply(Abstract(s.refreshTokens), LabelOf(s, e), s.settings)
  {
    if Step(s, e).1.SessionOpened? {
      FoundKeeps(s, e.slug, e.email, e.hash, e.organizationId, e.userId);
      OpenRefines(Found(s, e.slug, e.email, e.hash, e.organizationId, e.userId), e.userId, e.draw);
    }
  }

  lemma OtherStepRefines(s: State, e: Event)
    requires Inv(s) && !TokenEvent(e)
    ensures Abstract(Step(s, e).0.refreshTokens) == Apply(Abstract(s.refreshTokens), LabelOf(s, e), s.settings)
  {
    var t := Step(s, e).0;
    OtherLabels(s, e);
    if EndedUser(s, e).Some? {
      EndedUserTable(s, e);
      StepKeeps(s, e);
      UserEndRefines(s, t, EndedUser(s, e).value);
    } else {
      UntouchedTable(s, e);
    }
  }

  lemma OtherLabels(s: State, e: Event)
    requires !TokenEvent(e)
    ensures !Step(s, e).1.SessionOpened?
    ensures LabelOf(s, e) == if EndedUser(s, e).Some? then EndUser(EndedUser(s, e).value) else Quiet
  {
  }

  /**
   Every step of the service is the machine's step under the matching label; a presented token also
   gets the machine's verdict.
   */
  lemma StepRefines(s: State, e: Event)
    requires Inv(s) && Enabled(s, e)
    ensures Abstract(Step(s, e).0.refreshTokens) == Apply(Abstract(s.refreshTokens), LabelOf(s, e), s.settings)
    ensures e.RotateEvent? ==>
              PresentSecret(Abstract(s.refreshTokens), Hash(e.raw), Hash(e.draw.secret), s.now, EnabledUsers(s),
                            s.settings).1
                == VerdictOf(Step(s, e).1)
  {
    if e.RotateEvent? {
      RotateRefines(s, e.raw, e.draw);
    } else if e.LogoutEvent? {
      StepIsFunctional(s, e);
      LogoutRefines(s, e.raw);
    } else if e.LoginEvent? {
      LoginRefines(s, e);
    } else if e.RegisterEvent? {
      RegisterRefines(s, e);
    } else {
      OtherStepRefines(s, e);
    }
  }

  ghost function Labels(s: State, events: seq<Event>): seq<Label>
    decreases |events|
  {
    if events == [] then [] else [LabelOf(s, events[0])] + Labels(Step(s, events[0]).0, events[1..])
  }

  function ApplyAll(m: Machine, labels: seq<Label>, settings: Settings): Machine
    decreases |labels|
  {
    if labels == [] then m else ApplyAll(Apply(m, labels[0], settings), labels[1..], settings)
  }

  /** Whole runs refine runs of the machine. */
  lemma {:induction false} RunRefines(s: State, events: seq<Event>)
    requires Inv(s) && Admissible(s, events)
    ensures Abstract(Run(s, events).refreshTokens) == ApplyAll(Abstract(s.refreshTokens), Labels(s, events), s.settings)
    decreases |events|
  {
    if events != [] {
      var e, rest := events[0], events[1..];
      StepRefines(s, e);
      StepKeeps(s, e);
      StepLogs(s, e);
      RunRefines(Step(s, e).0, rest);
      assert Labels(s, events)[1..] == Labels(Step(s, e).0, rest);
    }
  }
}
