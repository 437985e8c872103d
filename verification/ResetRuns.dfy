/** Reset links over runs: one open link per user, each good for at most one reset. */
module ResetRuns {
  import opened Wrappers
  import opened AuthSpec
  import opened AuthInvariant
  import opened AuthRuns
  import opened CredentialRuns

  ghost predicate Spent(rs: ResetTable, raw: Secret) {
    exists id :: id in rs && rs[id].tokenHash == Hash(raw) && rs[id].consumedAt.Some?
  }

  /** In every reachable state a user has at most one unconsumed reset link. */
  lemma OneOpenLinkPerUser(s: State, events: seq<Event>, a: Id, b: Id)
    requires Init(s) && Admissible(s, events)
    requires var rs := Run(s, events).resetTokens;
             a in rs && b in rs && rs[a].userId == rs[b].userId && rs[a].consumedAt.None? && rs[b].consumedAt.None?
    ensures a == b
  {
    ReachableInv(s, events);
    var rs := Run(s, events).resetTokens;
    assert Unconsumed(rs[a]) && Unconsumed(rs[b]);
  }

  /** A spent reset link is refused in every later state. */
  lemma SpentForever(s: State, events: seq<Event>, raw: Secret, next: string, salt: nat)
    requires Inv(s) && Admissible(s, events) && Spent(s.resetTokens, raw)
    ensures Spent(Run(s, events).resetTokens, raw)
    ensures ResetPassword(Run(s, events), raw, next, salt) == (Run(s, events), Refused(InvalidResetToken))
  {
    RunKeeps(s, events);
    var rs := Run(s, events).resetTokens;
    var id :| id in s.resetTokens && s.resetTokens[id].tokenHash == Hash(raw) && s.resetTokens[id].consumedAt.Some?;
    assert rs[id] == s.resetTokens[id];
    assert FindReset(rs, Hash(raw)) == Some(id);
  }

  /** A newer request, a password change or a completed reset spends every earlier link of the user, used or not. */
  lemma SupersededLinksAreSpent(s: State, e: Event, id: Id, raw: Secret)
    requires Inv(s) && Enabled(s, e) && id in s.resetTokens && s.resetTokens[id].tokenHash == Hash(raw)
    requires (CredentialEvent(e) && EndedUser(s, e) == Some(s.resetTokens[id].userId))
          || (e.RequestResetEvent? && Step(s, e).1.ResetDispatched? && Step(s, e).1.userId == s.resetTokens[id].userId)
    ensures Spent(Step(s, e).0.resetTokens, raw)
  {
    var u := s.resetTokens[id].userId;
    ResetOwner(s, id);
    StepResets(s, e);
    ConsumedTable(s, e, u);
    var consumed := ConsumeResets(s.resetTokens, s.users[u].organizationId, u, s.now);
    assert consumed[id].consumedAt.Some? && consumed[id].tokenHash == Hash(raw);
    assert Step(s, e).0.resetTokens[id] == consumed[id];
  }

  lemma ResetOwner(s: State, id: Id)
    requires Inv(s) && id in s.resetTokens
    ensures s.resetTokens[id].userId in s.users
    ensures s.users[s.resetTokens[id].userId].organizationId == s.resetTokens[id].organizationId
  {
  }

  /** The bulk consumption is part of each of the three calls. */
  lemma ConsumedTable(s: State, e: Event, u: Id)
    requires Enabled(s, e)
    requires (CredentialEvent(e) && EndedUser(s, e) == Some(u))
          || (e.RequestResetEvent? && Step(s, e).1.ResetDispatched? && Step(s, e).1.userId == u)
    ensures forall id :: id in s.resetTokens ==>
              id in Step(s, e).0.resetTokens
              && Step(s, e).0.resetTokens[id] == ConsumeResets(s.resetTokens, s.users[u].organizationId, u, s.now)[id]
  {
  }

  /** Each reset link completes at most one reset in any run. */
  lemma LinkResetsOnce(s: State, raw: Secret, first: string, salt: nat, events: seq<Event>, second: string, salt': nat)
    requires Inv(s) && ResetPassword(s, raw, first, salt).1 == Done
    requires Admissible(ResetPassword(s, raw, first, salt).0, events)
    ensures var t := Run(ResetPassword(s, raw, first, salt).0, events);
            ResetPassword(t, raw, second, salt') == (t, Refused(InvalidResetToken))
  {
    var e := ResetPasswordEvent(raw, first, salt);
    var id := FindReset(s.resetTokens, Hash(raw)).value;
    StepKeeps(s, e);
    SupersededLinksAreSpent(s, e, id, raw);
    SpentForever(Step(s, e).0, events, raw, second, salt');
  }

  // --------------------------------------------------- the fate of a dispatched link

  /** The step spends the links of `u`: a completed change or reset, or a newer link. */
  ghost predicate SpendsLinks(s: State, e: Event, u: Id) {
    || (CredentialEvent(e) && EndedUser(s, e) == Some(u))
    || (e.RequestResetEvent? && Step(s, e).1.ResetDispatched? && Step(s, e).1.userId == u)
  }

  /** Whether some step of a run does. */
  ghost predicate LinksSpentIn(s: State, events: seq<Event>, u: Id)
    decreases |events|
  {
    events != [] && (SpendsLinks(s, events[0], u) || LinksSpentIn(Step(s, events[0]).0, events[1..], u))
  }

  /** The row of a link nobody has used or superseded. */
  ghost predicate OpenLink(s: State, id: Id, raw: Secret, u: Id, deadline: Time) {
    && id in s.resetTokens && s.resetTokens[id].tokenHash == Hash(raw) && s.resetTokens[id].userId == u
    && s.resetTokens[id].expiresAt == deadline && s.resetTokens[id].consumedAt.None?
  }

  lemma DispatchOpensLink(s: State, e: Event)
    requires e.RequestResetEvent? && Step(s, e).1.ResetDispatched?
    ensures var (t, reply) := Step(s, e);
            && reply.token == e.secret && HasAddress(s, reply.userId, e.slug, e.email)
            && OpenLink(t, e.resetId, e.secret, reply.userId, s.now + s.settings.resetTtl)
  {
  }

  /** The links of another user, consumed. */
  lemma ConsumingOthersKeepsLink(s: State, rs: ResetTable, id: Id, raw: Secret, u: Id, deadline: Time, other: Id)
    requires OpenLink(s, id, raw, u, deadline) && other != u && other in s.users
    requires forall k :: k in s.resetTokens ==>
               k in rs && rs[k] == ConsumeResets(s.resetTokens, s.users[other].organizationId, other, s.now)[k]
    ensures id in rs && rs[id] == s.resetTokens[id]
  {
  }

  lemma OtherTablesStay(s: State, e: Event)
    requires !e.RequestResetEvent? && !CredentialEvent(e)
    ensures Step(s, e).0.resetTokens == s.resetTokens
  {
  }

  lemma RefusedChangesKeepLinks(s: State, e: Event)
    requires CredentialEvent(e) && EndedUser(s, e).None?
    ensures Step(s, e).0.resetTokens == s.resetTokens
  {
  }

  lemma UnansweredRequestsKeepLinks(s: State, e: Event)
    requires e.RequestResetEvent?
    ensures if Step(s, e).1.ResetDispatched? then Step(s, e).1.userId in s.users
            else Step(s, e).0.resetTokens == s.resetTokens
  {
  }

  /** A step that spends no link of `u` leaves the row alone. */
  lemma OtherStepsKeepLink(s: State, e: Event, id: Id, raw: Secret, u: Id, deadline: Time)
    requires Enabled(s, e) && OpenLink(s, id, raw, u, deadline) && !SpendsLinks(s, e, u)
    ensures OpenLink(Step(s, e).0, id, raw, u, deadline)
  {
    var t := Step(s, e).0;
    if e.RequestResetEvent? {
      UnansweredRequestsKeepLinks(s, e);
      if Step(s, e).1.ResetDispatched? {
        ConsumedTable(s, e, Step(s, e).1.userId);
        ConsumingOthersKeepsLink(s, t.resetTokens, id, raw, u, deadline, Step(s, e).1.userId);
      }
    } else if CredentialEvent(e) {
      if EndedUser(s, e).Some? {
        EndedUserTable(s, e);
        ConsumedTable(s, e, EndedUser(s, e).value);
        ConsumingOthersKeepsLink(s, t.resetTokens, id, raw, u, deadline, EndedUser(s, e).value);
      } else {
        RefusedChangesKeepLinks(s, e);
      }
    } else {
      OtherTablesStay(s, e);
    }
  }

  /** A dispatched link stays open exactly until a step of the run spends it. */
  lemma {:induction false} LinkOpenExactly(s: State, events: seq<Event>, id: Id, raw: Secret, u: Id, deadline: Time)
    requires Inv(s) && Admissible(s, events) && OpenLink(s, id, raw, u, deadline)
    ensures if LinksSpentIn(s, events, u) then Spent(Run(s, events).resetTokens, raw)
            else OpenLink(Run(s, events), id, raw, u, deadline)
    decreases |events|
  {
    if events != [] {
      var t := Step(s, events[0]).0;
      StepKeeps(s, events[0]);
      if SpendsLinks(s, events[0], u) {
        SupersededLinksAreSpent(s, events[0], id, raw);
        SpentForever(t, events[1..], raw, [], 0);
      } else {
        OtherStepsKeepLink(s, events[0], id, raw, u, deadline);
        LinkOpenExactly(t, events[1..], id, raw, u, deadline);
      }
    }
  }

  predicate Active(s: State, u: Id) {
    && u in s.users && s.users[u].isActive
    && s.users[u].organizationId in s.organizations && s.organizations[s.users[u].organizationId].isActive
  }

  lemma OpenLinkResets(s: State, id: Id, raw: Secret, u: Id, deadline: Time, next: string, salt: nat)
    requires Inv(s) && OpenLink(s, id, raw, u, deadline)
    ensures var (t, reply) := ResetPassword(s, raw, next, salt);
            && u in s.users
            && reply == (if deadline <= s.now || !Active(s, u) then Refused(InvalidResetToken)
                         else if VerifyPassword(next, s.users[u].passwordHash) then Refused(PasswordReuseNotAllowed)
                         else Done)
            && (if reply == Done then u in t.users && t.users[u].passwordHash.password == next else t == s)
  {
    var found := FindReset(s.resetTokens, Hash(raw)).value;
    assert s.resetTokens[found].tokenHash == s.resetTokens[id].tokenHash;
    ResetOwner(s, id);
  }

  /**
   What a dispatched link is good for after any run: it resets the password of its user before its deadline unless a
   newer link, a change or a reset has spent it, the account or organization is disabled, or the password is the
   present one; in every other case it changes nothing.
   */
  lemma LinkResetsExactly(s: State, e: Event, events: seq<Event>, next: string, salt: nat)
    requires Inv(s) && Enabled(s, e) && e.RequestResetEvent? && Step(s, e).1.ResetDispatched?
    requires Admissible(Step(s, e).0, events)
    ensures var (t, u) := (Step(s, e).0, Step(s, e).1.userId);
            var v := Run(t, events);
            var (after, reply) := ResetPassword(v, e.secret, next, salt);
            && reply == (if v.now >= s.now + s.settings.resetTtl || LinksSpentIn(t, events, u) || !Active(v, u)
                         then Refused(InvalidResetToken)
                         else if VerifyPassword(next, v.users[u].passwordHash) then Refused(PasswordReuseNotAllowed)
                         else Done)
            && (if reply == Done then u in after.users && after.users[u].passwordHash.password == next else after == v)
  {
    var (t, u) := (Step(s, e).0, Step(s, e).1.userId);
    var deadline := s.now + s.settings.resetTtl;
    StepKeeps(s, e);
    DispatchOpensLink(s, e);
    LinkOpenExactly(t, events, e.resetId, e.secret, u, deadline);
    RunKeeps(t, events);
    if LinksSpentIn(t, events, u) {
      SpentForever(Run(t, events), [], e.secret, next, salt);
    } else {
      OpenLinkResets(Run(t, events), e.resetId, e.secret, u, deadline, next, salt);
    }
  }

  /** A link is sent exactly for the address of an enabled account; any other request changes nothing. */
  lemma DispatchesExactly(s: State, e: Event)
    requires Inv(s) && e.RequestResetEvent?
    ensures var (t, reply) := Step(s, e);
            && (reply.ResetDispatched? <==> exists u :: HasAddress(s, u, e.slug, e.email) && Active(s, u))
            && (!reply.ResetDispatched? ==> t == s && reply == Done)
  {
    forall u: Id | HasAddress(s, u, e.slug, e.email) ensures FindAccount(s, e.slug, e.email) == Some(u) {
      UniqueAccount(s, u, e.slug, e.email);
    }
  }
}
