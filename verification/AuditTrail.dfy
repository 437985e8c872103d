/** The append-only audit log read as the history of every user's `auth_version`. */
module AuditTrail {
  import opened AuthSpec

  /** The entry was written by a transaction that moved user `u` to the next version. */
  predicate Bumps(e: AuditEntry, u: Id) {
    e.entityId == u
    && match e.action
       case PasswordChanged => true
       case ResetCompleted => true
       case RolesUpdated => true
       case UserDeactivated => true
       case UserUpdated => e.previousVersion != e.newVersion
       case _ => false
  }

  /** The version user `u` has after the transactions recorded in `log`. */
  function VersionAfter(log: seq<AuditEntry>, u: Id): nat {
    if log == [] then 1
    else VersionAfter(log[..|log| - 1], u) + if Bumps(log[|log| - 1], u) then 1 else 0
  }

  predicate AboutUser(e: AuditEntry) {
    e.action != OrganizationCreated
  }

  predicate CredentialEntry(e: AuditEntry) {
    e.action == PasswordChanged || e.action == ResetCompleted
  }

  /** The versions stored in an entry are the ones before and after its own transaction; a credential change has one. */
  predicate StampedTruly(before: seq<AuditEntry>, e: AuditEntry) {
    AboutUser(e) ==>
      && (e.newVersion.Some? ==> e.newVersion.value == VersionAfter(before + [e], e.entityId))
      && (e.previousVersion.Some? ==> e.previousVersion.value == VersionAfter(before, e.entityId))
      && (CredentialEntry(e) ==> e.newVersion.Some?)
  }

  predicate TrueLog(log: seq<AuditEntry>) {
    log == [] || (TrueLog(log[..|log| - 1]) && StampedTruly(log[..|log| - 1], log[|log| - 1]))
  }

  /** Every entry that moved `u` past version `v` is a role replacement. */
  predicate RolesOnlySince(log: seq<AuditEntry>, u: Id, v: nat) {
    log == []
    || (RolesOnlySince(log[..|log| - 1], u, v)
        && (Bumps(log[|log| - 1], u) && VersionAfter(log, u) > v ==> log[|log| - 1].action == RolesUpdated))
  }

  lemma Append(log: seq<AuditEntry>, e: AuditEntry, u: Id)
    ensures VersionAfter(log + [e], u) == VersionAfter(log, u) + if Bumps(e, u) then 1 else 0
    ensures TrueLog(log + [e]) <==> TrueLog(log) && StampedTruly(log, e)
    ensures forall v: nat :: RolesOnlySince(log + [e], u, v) <==>
              RolesOnlySince(log, u, v) && (Bumps(e, u) && VersionAfter(log + [e], u) > v ==> e.action == RolesUpdated)
  {
  }

  lemma {:induction false} NothingAfterCurrent(log: seq<AuditEntry>, u: Id, v: nat)
    requires VersionAfter(log, u) <= v
    ensures RolesOnlySince(log, u, v)
  {
    if log != [] {
      NothingAfterCurrent(log[..|log| - 1], u, v);
    }
  }

  /** In a true log the i-th entry carries exactly the version reached by the first i + 1 transactions. */
  lemma {:induction false} EntryCarriesItsVersion(log: seq<AuditEntry>, i: nat)
    requires TrueLog(log) && i < |log| && AboutUser(log[i]) && log[i].newVersion.Some?
    ensures log[i].newVersion.value == VersionAfter(log[..i + 1], log[i].entityId)
  {
    var n := |log| - 1;
    if i == n {
      assert log[..i + 1] == log && log[..n] + [log[n]] == log;
    } else {
      EntryCarriesItsVersion(log[..n], i);
      assert log[..n][..i + 1] == log[..i + 1];
    }
  }

  predicate CompletesCredential(e: AuditEntry, u: Id) {
    e.entityId == u && CredentialEntry(e) && e.newVersion.Some?
  }

  /** The versions in the completed credential changes of `u`, in log order. */
  function CredentialVersions(log: seq<AuditEntry>, u: Id): seq<nat> {
    if log == [] then []
    else
      var e := log[|log| - 1];
      CredentialVersions(log[..|log| - 1], u) + if CompletesCredential(e, u) then [e.newVersion.value] else []
  }

  function UpTo(n: nat): seq<nat>
    requires n >= 1
    ensures |UpTo(n)| == n - 1 && forall k :: 0 <= k < n - 1 ==> UpTo(n)[k] == k + 2
  {
    if n == 1 then [] else UpTo(n - 1) + [n]
  }

  lemma {:induction false} VersionPositive(log: seq<AuditEntry>, u: Id)
    ensures VersionAfter(log, u) >= 1
  {
    if log != [] {
      VersionPositive(log[..|log| - 1], u);
    }
  }

  /** No entry of role management or of account administration ever moved `u`. */
  predicate OnlyCredentialBumps(log: seq<AuditEntry>, u: Id) {
    forall i :: 0 <= i < |log| && Bumps(log[i], u) ==> CredentialEntry(log[i])
  }

  lemma OnlyCredentialBumpsSnoc(log: seq<AuditEntry>, e: AuditEntry, u: Id)
    ensures OnlyCredentialBumps(log + [e], u) ==
              (OnlyCredentialBumps(log, u) && (Bumps(e, u) ==> CredentialEntry(e)))
  {
    var more := log + [e];
    assert more[|log|] == e && forall i :: 0 <= i < |log| ==> more[i] == log[i];
  }

  /** Never more completed changes than moves, and as many only when every move is one. */
  lemma {:induction false} ChangesAreMoves(log: seq<AuditEntry>, u: Id)
    requires TrueLog(log)
    ensures |CredentialVersions(log, u)| < VersionAfter(log, u)
    ensures |CredentialVersions(log, u)| + 1 == VersionAfter(log, u) <==> OnlyCredentialBumps(log, u)
  {
    if log != [] {
      var before, e := log[..|log| - 1], log[|log| - 1];
      assert before + [e] == log;
      ChangesAreMoves(before, u);
      OnlyCredentialBumpsSnoc(before, e, u);
    }
  }

  lemma {:induction false} CredentialVersionsAreConsecutive(log: seq<AuditEntry>, u: Id)
    requires TrueLog(log) && OnlyCredentialBumps(log, u)
    ensures VersionAfter(log, u) >= 1 && CredentialVersions(log, u) == UpTo(VersionAfter(log, u))
  {
    VersionPositive(log, u);
    if log != [] {
      var before, e := log[..|log| - 1], log[|log| - 1];
      assert before + [e] == log;
      OnlyCredentialBumpsSnoc(before, e, u);
      CredentialVersionsAreConsecutive(before, u);
    }
  }

  /**
   The completed credential changes of a user carry 2, 3, ... up to the current version, in order, with no
   gap and no repeat, if and only if nothing but completed credential changes moved the user.
   */
  lemma GaplessExactly(log: seq<AuditEntry>, u: Id)
    requires TrueLog(log)
    ensures VersionAfter(log, u) >= 1
    ensures CredentialVersions(log, u) == UpTo(VersionAfter(log, u)) <==> OnlyCredentialBumps(log, u)
  {
    VersionPositive(log, u);
    ChangesAreMoves(log, u);
    if OnlyCredentialBumps(log, u) {
      CredentialVersionsAreConsecutive(log, u);
    }
  }

  predicate Increasing(s: seq<nat>) {
    forall i, j :: 0 <= i < j < |s| ==> s[i] < s[j]
  }

  /** In any true log they are strictly increasing and never exceed the current version. */
  lemma {:induction false} CredentialVersionsIncrease(log: seq<AuditEntry>, u: Id)
    requires TrueLog(log)
    ensures Increasing(CredentialVersions(log, u))
    ensures forall v :: v in CredentialVersions(log, u) ==> 2 <= v <= VersionAfter(log, u)
  {
    VersionPositive(log, u);
    if log != [] {
      var before, e := log[..|log| - 1], log[|log| - 1];
      assert before + [e] == log;
      VersionPositive(before, u);
      CredentialVersionsIncrease(before, u);
      if CompletesCredential(e, u) {
        var earlier := CredentialVersions(before, u);
        assert forall i :: 0 <= i < |earlier| ==> earlier[i] in earlier;
        assert e.newVersion.value == VersionAfter(before, u) + 1;
      }
    }
  }
}
