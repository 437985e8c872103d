/** Accounts over runs: who founded them, which password is theirs, and exactly who can sign in. */
module CredentialRuns {
  import opened Wrappers
  import opened AuthSpec
  import opened AuthInvariant
  import opened AuthRuns

  // ------------------------------------------------------- the password set last

  /** The user whose password a completed call sets, with that password, as call and reply show it. */
  ghost function PasswordSet(s: State, e: Event): Option<(Id, string)> {
    var reply := Step(s, e).1;
    match e
    case RegisterEvent(_, _, hash, _, userId, _) =>
      if reply.SessionOpened? then Some((userId, hash.password)) else None
    case CreateUserEvent(_, _, _, hash, _, userId) => if reply == Done then Some((userId, hash.password)) else None
    case ChangePasswordEvent(_, userId, _, next, _) => if reply == Done then Some((userId, next)) else None
    case ResetPasswordEvent(raw, next, _) =>
      if reply == Done then Some((s.resetTokens[FindReset(s.resetTokens, Hash(raw)).value].userId, next)) else None
    case _ => None
  }

  ghost function Sets(s: State, e: Event, u: Id): Option<string> {
    var setting := PasswordSet(s, e);
    if setting.Some? && setting.value.0 == u then Some(setting.value.1) else None
  }

  /** The password a run leaves `u` with: the one set last, or the one from before. */
  ghost function LastPassword(s: State, events: seq<Event>, u: Id, before: Option<string>): Option<string>
    decreases |events|
  {
    if events == [] then before
    else
      var now := Sets(s, events[0], u);
      LastPassword(Step(s, events[0]).0, events[1..], u, if now.Some? then now else before)
  }

  /** `password` and no other verifies against the stored hash of `u`; none is given for an unknown user. */
  ghost predicate HasPassword(users: map<Id, User>, u: Id, password: Option<string>) {
    if u in users then
      password.Some? && forall p: string :: VerifyPassword(p, users[u].passwordHash) <==> p == password.value
    else password.None?
  }

  ghost predicate SamePasswords(a: map<Id, User>, b: map<Id, User>) {
    && a.Keys == b.Keys
    && forall u :: u in a ==> b[u].passwordHash.password == a[u].passwordHash.password
  }

  lemma SignInKeepsPasswords(s: State, e: Event)
    requires e.LoginEvent?
    ensures SamePasswords(s.users, Step(s, e).0.users)
  {
  }

  lemma UpdatesKeepPasswords(s: State, e: Event)
    requires e.UpdateUserEvent?
    ensures SamePasswords(s.users, Step(s, e).0.users)
  {
  }

  lemma DeactivationsKeepPasswords(s: State, e: Event)
    requires e.DeactivateUserEvent?
    ensures SamePasswords(s.users, Step(s, e).0.users)
  {
  }

  lemma CreationsKeepPasswords(s: State, e: Event)
    requires e.CreateUserEvent? && Step(s, e).1 != Done
    ensures SamePasswords(s.users, Step(s, e).0.users)
  {
  }

  lemma OthersKeepPasswords(s: State, e: Event)
    requires e.ReplaceRolesEvent? || Environmental(e)
    ensures SamePasswords(s.users, Step(s, e).0.users)
  {
  }

  lemma RefusalsKeepPasswords(s: State, e: Event)
    requires PasswordSet(s, e).None? && !Administrative(e) && !Environmental(e) && !e.LoginEvent?
    ensures SamePasswords(s.users, Step(s, e).0.users)
  {
  }

  lemma OtherStepsKeepPasswords(s: State, e: Event)
    requires PasswordSet(s, e).None?
    ensures SamePasswords(s.users, Step(s, e).0.users)
  {
    if e.LoginEvent? {
      SignInKeepsPasswords(s, e);
    } else if e.UpdateUserEvent? {
      UpdatesKeepPasswords(s, e);
    } else if e.DeactivateUserEvent? {
      DeactivationsKeepPasswords(s, e);
    } else if e.CreateUserEvent? {
      CreationsKeepPasswords(s, e);
    } else if e.ReplaceRolesEvent? || Environmental(e) {
      OthersKeepPasswords(s, e);
    } else {
      RefusalsKeepPasswords(s, e);
    }
  }

  lemma SettingStores(s: State, e: Event)
    requires PasswordSet(s, e).Some?
    ensures var (u, p) := PasswordSet(s, e).value;
            && u in Step(s, e).0.users
            && HasPassword(Step(s, e).0.users, u, Some(p))
            && SamePasswords(s.users - {u}, Step(s, e).0.users - {u})
  {
  }

  lemma PasswordKept(a: map<Id, User>, b: map<Id, User>, u: Id, password: Option<string>)
    requires HasPassword(a, u, password)
    requires u in a <==> u in b
    requires u in a ==> b[u].passwordHash.password == a[u].passwordHash.password
    ensures HasPassword(b, u, password)
  {
    if u in a {
      forall p: string ensures VerifyPassword(p, b[u].passwordHash) <==> p == password.value {
        assert VerifyPassword(p, a[u].passwordHash) <==> p == password.value;
      }
    }
  }

  lemma StepPassword(s: State, e: Event, u: Id, before: Option<string>)
    requires HasPassword(s.users, u, before)
    ensures HasPassword(Step(s, e).0.users, u, if Sets(s, e, u).Some? then Sets(s, e, u) else before)
  {
    var after := Step(s, e).0.users;
    if PasswordSet(s, e).Some? {
      SettingStores(s, e);
      var changed := PasswordSet(s, e).value.0;
      if changed != u {
        assert u in s.users - {changed} <==> u in s.users;
        PasswordKept(s.users, after, u, before);
      }
    } else {
      OtherStepsKeepPasswords(s, e);
      PasswordKept(s.users, after, u, before);
    }
  }

  /** In every later state exactly the password set last verifies, whatever happened in between. */
  lemma {:induction false} PasswordIsLastSet(s: State, events: seq<Event>, u: Id, before: Option<string>)
    requires HasPassword(s.users, u, before)
    ensures HasPassword(Run(s, events).users, u, LastPassword(s, events, u, before))
    decreases |events|
  {
    if events != [] {
      StepPassword(s, events[0], u, before);
      PasswordIsLastSet(Step(s, events[0]).0, events[1..], u,
                        if Sets(s, events[0], u).Some? then Sets(s, events[0], u) else before);
    }
  }

  // ------------------------------------------------------------------ signing in

  /** `u` has this address, and neither the account nor its organization is disabled. */
  predicate MayEnter(s: State, u: Id, slug: string, email: string) {
    && u in s.users && s.users[u].email == email && s.users[u].isActive
    && s.users[u].organizationId in s.organizations
    && s.organizations[s.users[u].organizationId].slug == slug
    && s.organizations[s.users[u].organizationId].isActive
  }

  lemma UniqueAccount(s: State, u: Id, slug: string, email: string)
    requires Keys(s) && HasAddress(s, u, slug, email)
    ensures FindAccount(s, slug, email) == Some(u)
  {
    var found := FindAccount(s, slug, email).value;
    assert SameSlug(s.organizations[s.users[u].organizationId], s.organizations[s.users[found].organizationId]);
    assert SameAddress(s.users[u], s.users[found]);
  }

  /** Only the row of the user who signs in changes, in its time of last login and at most the salt of its hash. */
  ghost predicate SignedIn(s: State, t: State, u: Id, claims: Claims) {
    && u in s.users && u in t.users && t.users == s.users[u := t.users[u]]
    && t.users[u] == s.users[u].(passwordHash := t.users[u].passwordHash, lastLoginAt := Some(s.now))
    && t.users[u].passwordHash.password == s.users[u].passwordHash.password
    && claims.sub == u && claims.org == s.users[u].organizationId
  }

  lemma KnownAccountSignsIn(s: State, u: Id, slug: string, email: string, password: string, rehash: Option<nat>,
                            draw: Draw)
    requires Keys(s) && HasAddress(s, u, slug, email)
    ensures var (t, reply) := Login(s, slug, email, password, rehash, draw);
            && (reply.SessionOpened? <==>
                  MayEnter(s, u, slug, email) && VerifyPassword(password, s.users[u].passwordHash))
            && (reply.SessionOpened? ==> SignedIn(s, t, u, reply.claims))
  {
    UniqueAccount(s, u, slug, email);
  }

  /**
   A login opens a session if and only if the address is that of an enabled account of an enabled organization
   and the password is the one last set for it; any other login changes nothing.
   */
  lemma SignsInExactly(s: State, events: seq<Event>, slug: string, email: string, password: string,
                       rehash: Option<nat>, draw: Draw)
    requires Init(s) && Admissible(s, events)
    ensures var t := Run(s, events);
            var (after, reply) := Login(t, slug, email, password, rehash, draw);
            && (reply.SessionOpened? <==>
                  exists u :: MayEnter(t, u, slug, email) && LastPassword(s, events, u, None) == Some(password))
            && (reply.SessionOpened? ==>
                  && SignedIn(t, after, reply.claims.sub, reply.claims)
                  && MayEnter(t, reply.claims.sub, slug, email)
                  && LastPassword(s, events, reply.claims.sub, None) == Some(password))
            && (!reply.SessionOpened? ==> after == t && reply == Refused(InvalidCredentials))
  {
    var t := Run(s, events);
    ReachableInv(s, events);
    forall u | HasAddress(t, u, slug, email)
      ensures var (after, reply) := Login(t, slug, email, password, rehash, draw);
              && (reply.SessionOpened? <==>
                    MayEnter(t, u, slug, email) && LastPassword(s, events, u, None) == Some(password))
              && (reply.SessionOpened? ==> SignedIn(t, after, u, reply.claims))
    {
      KnownAccountSignsIn(t, u, slug, email, password, rehash, draw);
      PasswordIsLastSet(s, events, u, None);
    }
  }

  /** Whoever's password a call has just set signs in with that password and with no other. */
  lemma SetPasswordSignsIn(s: State, e: Event, slug: string, email: string, password: string, rehash: Option<nat>,
                           draw: Draw)
    requires Inv(s) && Enabled(s, e) && PasswordSet(s, e).Some?
    requires HasAddress(Step(s, e).0, PasswordSet(s, e).value.0, slug, email)
    ensures var (u, p) := PasswordSet(s, e).value;
            Login(Step(s, e).0, slug, email, password, rehash, draw).1.SessionOpened?
            <==> MayEnter(Step(s, e).0, u, slug, email) && password == p
  {
    StepKeeps(s, e);
    SettingStores(s, e);
    KnownAccountSignsIn(Step(s, e).0, PasswordSet(s, e).value.0, slug, email, password, rehash, draw);
  }

  // ----------------------------------------------------------- changing a password

  /** The reply of `change_password`, by the password last set. */
  function ChangeReply(s: State, organizationId: Id, u: Id, current: string, next: string, stored: Option<string>)
    : Outcome
  {
    if u !in s.users || s.users[u].organizationId != organizationId || !s.users[u].isActive then
      Refused(SessionRevoked)
    else if stored != Some(current) then Refused(CurrentPasswordInvalid)
    else if next == current then Refused(PasswordReuseNotAllowed)
    else Done
  }

  lemma ChangesExactly(s: State, events: seq<Event>, organizationId: Id, u: Id, current: string, next: string,
                       salt: nat)
    ensures Init(s) && Admissible(s, events) ==>
              var t := Run(s, events);
              var (after, reply) := ChangePassword(t, organizationId, u, current, next, salt);
              && reply == ChangeReply(t, organizationId, u, current, next, LastPassword(s, events, u, None))
              && (if reply == Done then HasPassword(after.users, u, Some(next)) else after == t)
  {
    if Init(s) {
      PasswordIsLastSet(s, events, u, None);
    }
  }

  // ------------------------------------------------------------------ registering

  predicate SlugUsed(s: State, slug: string) {
    exists o :: o in s.organizations && s.organizations[o].slug == slug
  }

  /**
   Registration is open to every unused slug while the setting allows it, and founds an active organization with
   one active user at version 1; otherwise it changes nothing.
   */
  lemma RegistersExactly(s: State, e: Event)
    requires e.RegisterEvent?
    ensures var (t, reply) := Step(s, e);
            && (reply.SessionOpened? <==> s.settings.allowRegistration && !SlugUsed(s, e.slug))
            && (reply.SessionOpened? ==>
                  && t.organizations == s.organizations[e.organizationId := Organization(e.slug, true)]
                  && t.users == s.users[e.userId := User(e.organizationId, e.email, e.hash, 1, true, None)]
                  && reply.claims.sub == e.userId && reply.claims.org == e.organizationId)
            && (!reply.SessionOpened? ==> t == s)
            && (!reply.SessionOpened? ==>
                  reply == Refused(if s.settings.allowRegistration then OrganizationExists else RegistrationDisabled))
  {
  }

  // --------------------------------------------------------------- administration

  predicate EmailUsed(s: State, organizationId: Id, email: string, except: set<Id>) {
    exists id :: id in s.users && id !in except && s.users[id].organizationId == organizationId
                 && s.users[id].email == email
  }

  /** A user is created in an existing organization under an unused address, at version 1. */
  lemma CreatesExactly(s: State, e: Event)
    requires e.CreateUserEvent?
    ensures var (t, reply) := Step(s, e);
            && (reply == Done <==> e.organizationId in s.organizations && !EmailUsed(s, e.organizationId, e.email, {}))
            && t.users == (if reply == Done
                           then s.users[e.userId := User(e.organizationId, e.email, e.hash, 1, e.isActive, None)]
                           else s.users)
  {
  }

  /** An update gives a known user the address and the state asked for, unless another user has the address. */
  lemma UpdatesExactly(s: State, e: Event)
    requires e.UpdateUserEvent?
    ensures var (t, reply) := Step(s, e);
            && (reply == Done <==>
                  && e.userId in s.users && (e.userId == e.actorId ==> e.isActive)
                  && !EmailUsed(s, s.users[e.userId].organizationId, e.email, {e.userId}))
            && (reply == Done ==>
                  && e.userId in t.users && t.users.Keys == s.users.Keys
                  && t.users[e.userId] == s.users[e.userId].(email := e.email, isActive := e.isActive,
                                                             authVersion := t.users[e.userId].authVersion)
                  && (forall u :: u in s.users && u != e.userId ==> t.users[u] == s.users[u]))
            && (reply != Done ==> t == s)
  {
  }
}
