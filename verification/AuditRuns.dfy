/** The audit log over runs: it numbers the versions of every user. */
module AuditRuns {
  import opened Wrappers
  import opened AuthSpec
  import opened AuditTrail
  import opened AuthInvariant
  import opened AuthRuns

  /** In every reachable state the i-th entry about a user carries the version reached by the transactions up to it. */
  lemma AuditExplainsVersions(s: State, events: seq<Event>, i: nat, u: Id)
    requires Init(s) && Admissible(s, events)
    ensures var t := Run(s, events);
            && (u in t.users ==> t.users[u].authVersion == VersionAfter(t.audit, u))
            && Increasing(CredentialVersions(t.audit, u))
            && (i < |t.audit| && AboutUser(t.audit[i]) && t.audit[i].newVersion.Some? ==>
                  t.audit[i].newVersion.value == VersionAfter(t.audit[..i + 1], t.audit[i].entityId))
  {
    ReachableInv(s, events);
    var t := Run(s, events);
    assert VersionAfter(t.audit, u) == if u in t.users then t.users[u].authVersion else 1;
    CredentialVersionsIncrease(t.audit, u);
    if i < |t.audit| && AboutUser(t.audit[i]) && t.audit[i].newVersion.Some? {
      EntryCarriesItsVersion(t.audit, i);
    }
  }

  /**
   In every reachable state the completed changes of a user carry 2, 3, ..., current if and only if no
   administrator ever moved the user.
   */
  lemma CredentialChangesAreGapless(s: State, events: seq<Event>, u: Id)
    requires Init(s) && Admissible(s, events) && u in Run(s, events).users
    ensures Run(s, events).users[u].authVersion >= 1
    ensures var t := Run(s, events);
            CredentialVersions(t.audit, u) == UpTo(t.users[u].authVersion) <==> OnlyCredentialBumps(t.audit, u)
  {
    ReachableInv(s, events);
    var t := Run(s, events);
    GaplessExactly(t.audit, u);
    assert VersionAfter(t.audit, u) == t.users[u].authVersion;
  }

  /** One granted role replacement, or one deactivation, breaks the numbering of that user for ever. */
  lemma AdministratorLeavesGap(s: State, e: Event, events: seq<Event>, u: Id)
    requires Inv(s) && Enabled(s, e) && Admissible(Step(s, e).0, events) && Administrative(e)
    requires u in s.users && u in Step(s, e).0.users
    requires Step(s, e).0.users[u].authVersion > s.users[u].authVersion
    ensures var t := Run(Step(s, e).0, events);
            && u in t.users && t.users[u].authVersion >= 1
            && CredentialVersions(t.audit, u) != UpTo(t.users[u].authVersion)
  {
    var first := Step(s, e).0;
    var t := Run(first, events);
    StepKeeps(s, e);
    RunKeeps(first, events);
    GaplessExactly(t.audit, u);
    AdministratorEntry(s, e, u);
    assert t.audit[|s.audit|] == first.audit[|s.audit|];
    assert VersionAfter(t.audit, u) == t.users[u].authVersion;
  }

  /** The entry of an administrative move is not a credential change. */
  lemma AdministratorEntry(s: State, e: Event, u: Id)
    requires Enabled(s, e) && Administrative(e) && u in s.users
    requires Step(s, e).0.users[u].authVersion > s.users[u].authVersion
    ensures var t := Step(s, e).0;
            && |t.audit| == |s.audit| + 1 && Bumps(t.audit[|s.audit|], u) && !CredentialEntry(t.audit[|s.audit|])
  {
  }

  // ------------------------------------------------------------- a run with a gap

  function Old(): PasswordHash {
    PasswordHash("old", 1)
  }

  const FOUNDING := RegisterEvent("acme", "admin@acme", Old(), 10, 11, Draw(12, 13, Secret(14)))
  const HIRING := CreateUserEvent(11, 10, "user@acme", Old(), true, 20)
  const PROMOTION := ReplaceRolesEvent(11, 20)
  const CHANGE := ChangePasswordEvent(10, 20, "old", "new", 2)

  lemma Founded(s: State)
    requires Init(s) && s.settings.allowRegistration
    ensures Enabled(s, FOUNDING)
    ensures var t := Step(s, FOUNDING).0;
            && t.organizations == map[10 := Organization("acme", true)]
            && t.users == map[11 := User(10, "admin@acme", Old(), 1, true, None)]
            && t.audit == [AuditEntry(OrganizationCreated, Some(11), 10, None, None)]
  {
  }

  lemma HiredAndPromoted(s: State)
    requires s.organizations == map[10 := Organization("acme", true)]
    requires s.users == map[11 := User(10, "admin@acme", Old(), 1, true, None)]
    ensures Enabled(s, HIRING) && Enabled(Step(s, HIRING).0, PROMOTION)
    ensures var t := Step(Step(s, HIRING).0, PROMOTION).0;
            && 20 in t.users && t.users[20] == User(10, "user@acme", Old(), 2, true, None)
            && t.audit == s.audit + [AuditEntry(UserCreated, Some(11), 20, None, Some(1))]
                                  + [AuditEntry(RolesUpdated, Some(11), 20, None, None)]
  {
  }

  lemma ChangedAfterwards(s: State)
    requires 20 in s.users && s.users[20] == User(10, "user@acme", Old(), 2, true, None)
    ensures Enabled(s, CHANGE)
    ensures var t := Step(s, CHANGE).0;
            && 20 in t.users && t.users[20].authVersion == 3
            && t.audit == s.audit + [AuditEntry(PasswordChanged, Some(20), 20, None, Some(3))]
  {
  }

  lemma VersionsSnoc(log: seq<AuditEntry>, e: AuditEntry, u: Id)
    ensures CredentialVersions(log + [e], u)
              == CredentialVersions(log, u) + if CompletesCredential(e, u) then [e.newVersion.value] else []
  {
    assert (log + [e])[..|log|] == log;
  }

  function GapRun(): seq<Event> {
    [FOUNDING] + ([HIRING] + ([PROMOTION] + [CHANGE]))
  }

  lemma RunCons(s: State, e: Event, events: seq<Event>)
    ensures Run(s, [e] + events) == Run(Step(s, e).0, events)
    ensures Admissible(s, [e] + events) <==> Enabled(s, e) && Admissible(Step(s, e).0, events)
  {
    assert ([e] + events)[1..] == events;
  }

  /**
   A user is created, is moved to other roles and changes the password: the only completed change of
   that user carries 3.
   */
  lemma GapExample(s: State)
    requires Init(s) && s.settings.allowRegistration
    ensures Admissible(s, GapRun())
    ensures var t := Run(s, GapRun());
            20 in t.users && t.users[20].authVersion == 3 && CredentialVersions(t.audit, 20) == [3]
  {
    var t1 := Step(s, FOUNDING).0;
    var t3 := Step(Step(t1, HIRING).0, PROMOTION).0;
    Founded(s);
    HiredAndPromoted(t1);
    ChangedAfterwards(t3);
    GapRunSteps(s);
    GapVersions();
  }

  lemma GapRunSteps(s: State)
    ensures var t1 := Step(s, FOUNDING).0;
            var t2 := Step(t1, HIRING).0;
            var t3 := Step(t2, PROMOTION).0;
            && Run(s, GapRun()) == Step(t3, CHANGE).0
            && (Admissible(s, GapRun()) <==>
                  Enabled(s, FOUNDING) && Enabled(t1, HIRING) && Enabled(t2, PROMOTION) && Enabled(t3, CHANGE))
  {
    var t1 := Step(s, FOUNDING).0;
    var t2 := Step(t1, HIRING).0;
    var t3 := Step(t2, PROMOTION).0;
    RunCons(s, FOUNDING, [HIRING] + ([PROMOTION] + [CHANGE]));
    RunCons(t1, HIRING, [PROMOTION] + [CHANGE]);
    RunCons(t2, PROMOTION, [CHANGE]);
    RunCons(t3, CHANGE, []);
    assert [CHANGE] == [CHANGE] + [];
  }

  lemma GapVersions()
    ensures var log := [AuditEntry(OrganizationCreated, Some(11), 10, None, None)]
                       + [AuditEntry(UserCreated, Some(11), 20, None, Some(1))]
                       + [AuditEntry(RolesUpdated, Some(11), 20, None, None)]
                       + [AuditEntry(PasswordChanged, Some(20), 20, None, Some(3))];
            CredentialVersions(log, 20) == [3]
  {
    var a := [AuditEntry(OrganizationCreated, Some(11), 10, None, None)];
    var b := a + [AuditEntry(UserCreated, Some(11), 20, None, Some(1))];
    var c := b + [AuditEntry(RolesUpdated, Some(11), 20, None, None)];
    assert a == [] + a;
    VersionsSnoc([], a[0], 20);
    VersionsSnoc(a, AuditEntry(UserCreated, Some(11), 20, None, Some(1)), 20);
    VersionsSnoc(b, AuditEntry(RolesUpdated, Some(11), 20, None, None), 20);
    VersionsSnoc(c, AuditEntry(PasswordChanged, Some(20), 20, None, Some(3)), 20);
  }
}
