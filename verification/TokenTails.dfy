/** Tokens that end their chain, and what one server step may do to them. */
module TokenTails {
  import opened Wrappers
  import opened AuthSpec
  import opened RefreshChains
  import opened AuthInvariant
  import opened AuthRuns

  ghost predicate TailRow(ts: RefreshTable, id: Id) {
    && id in ts && ts[id].replacedById == None
    && (ts[id].revokedAt.Some? ==> AllRevoked(ts, ts[id].familyId))
  }

  /** The token of `raw` ends its chain: it is the live one, or the whole session has ended. */
  ghost predicate Tail(ts: RefreshTable, raw: Secret) {
    exists id :: id in ts && ts[id].tokenHash == Hash(raw) && TailRow(ts, id)
  }

  ghost predicate RotatesPresented(a: RefreshTable, b: RefreshTable, raw: Secret, next: Id, settings: Settings,
                                   now: Time) {
    exists id, row :: id in a && a[id].tokenHash == Hash(raw) && Rotates(a, b, id, next, row, settings, now)
  }

  /** How one step changes the refresh-token table, naming the token a rotation replaces. */
  ghost predicate StepChange(s: State, e: Event) {
    var t := Step(s, e).0;
    || t.refreshTokens == s.refreshTokens
    || Kills(s.refreshTokens, t.refreshTokens)
    || (exists id, row :: Opens(s.refreshTokens, t.refreshTokens, id, row, s.settings, s.now))
    || (e.RotateEvent? && RotatesPresented(s.refreshTokens, t.refreshTokens, e.raw, e.draw.tokenId, s.settings, s.now))
  }

  lemma RotateChange(s: State, e: Event)
    requires Inv(s) && Enabled(s, e) && e.RotateEvent?
    ensures StepChange(s, e)
  {
    var found := FindToken(s.refreshTokens, Hash(e.raw));
    if found.Some? {
      var stored := s.refreshTokens[found.value];
      if Rotate(s, e.raw, e.draw).1.SessionOpened? {
        RotationRotates(s, e.raw, e.draw, found.value);
      } else if Rotate(s, e.raw, e.draw).1.code == RefreshTokenExpired {
        RevokeTailKills(s.refreshTokens, s.settings, s.now, found.value);
      } else {
        RevokeFamilyKills(s.refreshTokens, stored.familyId, s.now);
      }
    }
  }

  lemma LoginChange(s: State, e: Event)
    requires Enabled(s, e) && e.LoginEvent?
    ensures StepChange(s, e)
  {
    if Step(s, e).1.SessionOpened? {
      var t := Step(s, e).0;
      assert Opens(s.refreshTokens, t.refreshTokens, e.draw.tokenId, t.refreshTokens[e.draw.tokenId], s.settings,
                   s.now);
    }
  }

  lemma RegisterChange(s: State, e: Event)
    requires Enabled(s, e) && e.RegisterEvent?
    ensures StepChange(s, e)
  {
    if Step(s, e).1.SessionOpened? {
      var t := Step(s, e).0;
      assert Opens(s.refreshTokens, t.refreshTokens, e.draw.tokenId, t.refreshTokens[e.draw.tokenId], s.settings,
                   s.now);
    }
  }

  lemma LogoutChange(s: State, e: Event)
    requires e.LogoutEvent?
    ensures StepChange(s, e)
  {
    var found := FindToken(s.refreshTokens, Hash(e.raw));
    if found.Some? {
      RevokeFamilyKills(s.refreshTokens, s.refreshTokens[found.value].familyId, s.now);
    }
  }

  lemma OtherChange(s: State, e: Event)
    requires FamiliesAgree(s.refreshTokens) && !TokenEvent(e)
    ensures StepChange(s, e)
  {
    if EndedUser(s, e).Some? {
      var u := EndedUser(s, e).value;
      EndedUserTable(s, e);
      RevokeUserKills(s.refreshTokens, s.users[u].organizationId, u, s.now);
    } else {
      UntouchedTable(s, e);
    }
  }

  lemma ChangeOf(s: State, e: Event)
    requires Inv(s) && Enabled(s, e)
    ensures StepChange(s, e)
  {
    if e.RotateEvent? {
      RotateChange(s, e);
    } else if e.LoginEvent? {
      LoginChange(s, e);
    } else if e.RegisterEvent? {
      RegisterChange(s, e);
    } else if e.LogoutEvent? {
      LogoutChange(s, e);
    } else {
      OtherChange(s, e);
    }
  }

  lemma KillsKeepsTail(a: RefreshTable, b: RefreshTable, id: Id)
    requires Kills(a, b) && TailRow(a, id)
    ensures TailRow(b, id) && b[id].tokenHash == a[id].tokenHash
  {
  }

  lemma OpensKeepsTail(a: RefreshTable, b: RefreshTable, id: Id, next: Id, row: RefreshToken, settings: Settings,
                       now: Time)
    requires Opens(a, b, next, row, settings, now) && TailRow(a, id)
    ensures TailRow(b, id) && b[id] == a[id]
  {
  }

  lemma RotatesKeepsOtherTail(a: RefreshTable, b: RefreshTable, id: Id, rotated: Id, next: Id, row: RefreshToken,
                              settings: Settings, now: Time)
    requires Rotates(a, b, rotated, next, row, settings, now)
    requires TailRow(a, id) && id != rotated
    ensures TailRow(b, id) && b[id] == a[id]
  {
  }

  /** Only presenting a token itself can stop it from being the end of its chain. */
  lemma TailStays(s: State, e: Event, raw: Secret)
    requires Inv(s) && Enabled(s, e) && Tail(s.refreshTokens, raw)
    requires e.RotateEvent? ==> e.raw != raw
    ensures Tail(Step(s, e).0.refreshTokens, raw)
  {
    ChangeOf(s, e);
    TableTailStays(s.refreshTokens, s.settings, s.now, Step(s, e).0.refreshTokens, raw,
                   if e.RotateEvent? then Some(e.raw) else None, if e.RotateEvent? then e.draw.tokenId else 0);
  }

  lemma TableTailStays(a: RefreshTable, settings: Settings, now: Time, b: RefreshTable, raw: Secret,
                       rotated: Option<Secret>, next: Id)
    requires TableInv(a, settings, now) && Tail(a, raw) && rotated != Some(raw)
    requires b == a || Kills(a, b)
          || (exists id, row :: Opens(a, b, id, row, settings, now))
          || (rotated.Some? && RotatesPresented(a, b, rotated.value, next, settings, now))
    ensures Tail(b, raw)
  {
    var id :| id in a && a[id].tokenHash == Hash(raw) && TailRow(a, id);
    if b == a {
    } else if Kills(a, b) {
      KillsKeepsTail(a, b, id);
    } else if k, row :| Opens(a, b, k, row, settings, now) {
      OpensKeepsTail(a, b, id, k, row, settings, now);
    } else {
      var k, row :| k in a && a[k].tokenHash == Hash(rotated.value) && Rotates(a, b, k, next, row, settings, now);
      RotatesKeepsOtherTail(a, b, id, k, next, row, settings, now);
    }
    assert id in b && b[id].tokenHash == Hash(raw) && TailRow(b, id);
  }
}
