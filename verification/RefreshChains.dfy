/**
 What the refresh-token table alone keeps: every family is one finite chain under `replacedById`
 whose earlier links are all revoked, and every deadline in it is derived from the family's start.

 The service only ever changes the table in three ways, so the table invariant is proved for those.
 */
module RefreshChains {
  import opened Wrappers
  import opened AuthSpec

  ghost predicate SameHash(a: RefreshToken, b: RefreshToken) {
    a.tokenHash == b.tokenHash
  }

  ghost predicate UniqueHashes(ts: RefreshTable) {
    forall a, b {:trigger SameHash(ts[a], ts[b])} :: a in ts && b in ts && SameHash(ts[a], ts[b]) ==> a == b
  }

  ghost predicate SameOwner(a: RefreshToken, b: RefreshToken) {
    a.organizationId == b.organizationId && a.userId == b.userId && a.absoluteExpiresAt == b.absoluteExpiresAt
  }

  ghost predicate FamiliesAgree(ts: RefreshTable) {
    forall a, b {:trigger SameOwner(ts[a], ts[b])} ::
      a in ts && b in ts && ts[a].familyId == ts[b].familyId ==> SameOwner(ts[a], ts[b])
  }

  /** The columns of a row that no step ever changes. */
  ghost predicate SameRow(a: RefreshToken, b: RefreshToken) {
    && SameOwner(a, b) && a.familyId == b.familyId && a.tokenHash == b.tokenHash
    && a.expiresAt == b.expiresAt && a.createdAt == b.createdAt
  }

  /** A lookup by hash finds the only row with that hash. */
  lemma UniqueFind(ts: RefreshTable, hash: Digest, id: Id)
    requires UniqueHashes(ts) && id in ts && ts[id].tokenHash == hash
    ensures FindToken(ts, hash) == Some(id)
  {
    var found := FindToken(ts, hash);
    assert SameHash(ts[found.value], ts[id]);
  }

  ghost predicate FamilyUsed(ts: RefreshTable, f: Id) {
    exists id :: id in ts && ts[id].familyId == f
  }

  ghost predicate AllRevoked(ts: RefreshTable, f: Id) {
    forall id :: id in ts && ts[id].familyId == f ==> ts[id].revokedAt.Some?
  }

  /** The family exists and none of its tokens can be used again. */
  ghost predicate Dead(ts: RefreshTable, f: Id) {
    FamilyUsed(ts, f) && AllRevoked(ts, f)
  }

  /** Always true: the term that statements about all families are triggered by. */
  ghost predicate Family(f: Id) {
    true
  }

  /** `c` lists the tokens of family `f`, each once, in replacement order. */
  ghost predicate IsChain(ts: RefreshTable, f: Id, c: seq<Id>) {
    && |c| > 0
    && (forall i :: 0 <= i < |c| ==> c[i] in ts && ts[c[i]].familyId == f)
    && (forall id :: id in ts && ts[id].familyId == f ==> id in c)
    && (forall i, j :: 0 <= i < j < |c| ==> c[i] != c[j])
    && (forall i :: 0 <= i < |c| - 1 ==> ts[c[i]].revokedAt.Some? && ts[c[i]].replacedById == Some(c[i + 1]))
    && ts[c[|c| - 1]].replacedById == None
  }

  /** One deadline for the whole chain, fixed at its first token; idle deadlines never move back. */
  ghost predicate OnSchedule(ts: RefreshTable, c: seq<Id>, settings: Settings, now: Time)
    requires |c| > 0 && forall i :: 0 <= i < |c| ==> c[i] in ts
  {
    && (forall i :: 0 <= i < |c| ==>
          && ts[c[i]].absoluteExpiresAt == ts[c[0]].createdAt + settings.ttl
          && ts[c[i]].expiresAt <= ts[c[i]].absoluteExpiresAt
          && ts[c[i]].expiresAt <= now + settings.idle
          && ts[c[i]].createdAt <= now)
    && (forall i, j :: 0 <= i < j < |c| ==>
          ts[c[i]].expiresAt <= ts[c[j]].expiresAt && ts[c[i]].createdAt <= ts[c[j]].createdAt)
  }

  ghost predicate ScheduledChain(ts: RefreshTable, f: Id, c: seq<Id>, settings: Settings, now: Time) {
    IsChain(ts, f, c) && OnSchedule(ts, c, settings, now)
  }

  ghost predicate Linear(ts: RefreshTable, settings: Settings, now: Time) {
    forall f {:trigger Family(f)} :: Family(f) && FamilyUsed(ts, f) ==>
                                       exists c :: ScheduledChain(ts, f, c, settings, now)
  }

  ghost predicate TableInv(ts: RefreshTable, settings: Settings, now: Time) {
    UniqueHashes(ts) && FamiliesAgree(ts) && Linear(ts, settings, now)
  }

  // ------------------------------------------------------- the three changes

  /** A first token of a family that had none. */
  ghost predicate Opens(before: RefreshTable, after: RefreshTable, id: Id, row: RefreshToken, settings: Settings,
                        now: Time) {
    && id !in before && after == before[id := row]
    && !FamilyUsed(before, row.familyId)
    && (forall k :: k in before ==> before[k].tokenHash != row.tokenHash)
    && row.revokedAt == None && row.replacedById == None && row.createdAt == now
    && row.absoluteExpiresAt == now + settings.ttl
    && row.expiresAt == Min(now + settings.idle, row.absoluteExpiresAt)
  }

  ghost predicate RowRevoked(a: RefreshToken, b: RefreshToken) {
    a.revokedAt.None? && b.revokedAt.Some? && b == a.(revokedAt := b.revokedAt)
  }

  /** Some rows become revoked, and a family that loses a row to this has none left. */
  ghost predicate Kills(before: RefreshTable, after: RefreshTable) {
    && after.Keys == before.Keys
    && (forall id :: id in before ==> after[id] == before[id] || RowRevoked(before[id], after[id]))
    && (forall id :: id in before && after[id] != before[id] ==> AllRevoked(after, before[id].familyId))
  }

  /** The unrevoked token `id` is revoked in favour of a new token `next` of its family. */
  ghost predicate Rotates(before: RefreshTable, after: RefreshTable, id: Id, next: Id, row: RefreshToken,
                          settings: Settings, now: Time) {
    && id in before && next !in before && before[id].revokedAt.None?
    && after == Replace(before, id, next, row, now)
    && (forall k :: k in before ==> before[k].tokenHash != row.tokenHash)
    && row.familyId == before[id].familyId && SameOwner(row, before[id])
    && row.revokedAt == None && row.replacedById == None && row.createdAt == now
    && row.expiresAt == Min(now + settings.idle, row.absoluteExpiresAt)
  }

  /** A family none of whose rows changed keeps its chain. */
  lemma ChainFrame(before: RefreshTable, after: RefreshTable, f: Id, settings: Settings, now: Time)
    requires Linear(before, settings, now) && FamilyUsed(after, f)
    requires forall k :: k in after && after[k].familyId == f ==> k in before && before[k] == after[k]
    requires forall k :: k in before && before[k].familyId == f ==> k in after && before[k] == after[k]
    ensures exists c :: ScheduledChain(after, f, c, settings, now)
  {
    var k :| k in after && after[k].familyId == f;
    assert k in before && before[k].familyId == f;
    assert Family(f) && FamilyUsed(before, f);
    var c :| ScheduledChain(before, f, c, settings, now);
    assert ScheduledChain(after, f, c, settings, now);
  }

  lemma OpensKeepsKeys(before: RefreshTable, after: RefreshTable, id: Id, row: RefreshToken, settings: Settings,
                       now: Time)
    requires UniqueHashes(before) && FamiliesAgree(before) && Opens(before, after, id, row, settings, now)
    ensures UniqueHashes(after) && FamiliesAgree(after)
  {
  }

  lemma OpensKeeps(before: RefreshTable, after: RefreshTable, id: Id, row: RefreshToken, settings: Settings, now: Time)
    requires TableInv(before, settings, now) && Opens(before, after, id, row, settings, now)
    ensures TableInv(after, settings, now)
    ensures IsChain(after, row.familyId, [id])
  {
    OpensKeepsKeys(before, after, id, row, settings, now);
    forall k | k in before ensures before[k].familyId != row.familyId {
      assert before[k].familyId == row.familyId ==> FamilyUsed(before, row.familyId);
    }
    assert IsChain(after, row.familyId, [id]);
    assert ScheduledChain(after, row.familyId, [id], settings, now);
    forall f | Family(f) && FamilyUsed(after, f) ensures exists c :: ScheduledChain(after, f, c, settings, now) {
      if f != row.familyId {
        ChainFrame(before, after, f, settings, now);
      }
    }
  }

  lemma KillsKeepsLinks(before: RefreshTable, after: RefreshTable, f: Id, c: seq<Id>)
    requires Kills(before, after) && IsChain(before, f, c)
    ensures IsChain(after, f, c)
  {
  }

  lemma KillsKeepsChain(before: RefreshTable, after: RefreshTable, f: Id, c: seq<Id>, settings: Settings, now: Time)
    requires Kills(before, after) && ScheduledChain(before, f, c, settings, now)
    ensures ScheduledChain(after, f, c, settings, now)
  {
    KillsKeepsLinks(before, after, f, c);
    forall i | 0 <= i < |c|
      ensures after[c[i]].createdAt == before[c[i]].createdAt && after[c[i]].expiresAt == before[c[i]].expiresAt
      ensures after[c[i]].absoluteExpiresAt == before[c[i]].absoluteExpiresAt
    {
      assert c[i] in before;
    }
  }

  lemma SameRowsKeepKeys(before: RefreshTable, after: RefreshTable)
    requires UniqueHashes(before) && FamiliesAgree(before)
    requires forall k :: k in after ==> k in before && SameRow(after[k], before[k])
    ensures UniqueHashes(after) && FamiliesAgree(after)
  {
    forall a, b | a in after && b in after && SameHash(after[a], after[b]) ensures a == b {
      assert SameHash(before[a], before[b]);
    }
    forall a, b | a in after && b in after && after[a].familyId == after[b].familyId
      ensures SameOwner(after[a], after[b])
    {
      assert SameOwner(before[a], before[b]);
    }
  }

  lemma KillsKeeps(before: RefreshTable, after: RefreshTable, settings: Settings, now: Time)
    requires TableInv(before, settings, now) && Kills(before, after)
    ensures TableInv(after, settings, now)
  {
    SameRowsKeepKeys(before, after);
    forall f | Family(f) && FamilyUsed(after, f) ensures exists c :: ScheduledChain(after, f, c, settings, now) {
      assert FamilyUsed(before, f);
      var c :| ScheduledChain(before, f, c, settings, now);
      KillsKeepsChain(before, after, f, c, settings, now);
    }
  }

  /** The only token of a chain that can be unrevoked is its last. */
  lemma UnrevokedIsTail(ts: RefreshTable, f: Id, c: seq<Id>, id: Id)
    requires IsChain(ts, f, c) && id in ts && ts[id].familyId == f && ts[id].revokedAt.None?
    ensures id == c[|c| - 1] && ts[id].replacedById == None
  {
  }

  lemma RotatesExtendsChain(before: RefreshTable, after: RefreshTable, id: Id, next: Id, row: RefreshToken,
                            settings: Settings, now: Time, c: seq<Id>)
    requires Rotates(before, after, id, next, row, settings, now)
    requires IsChain(before, row.familyId, c)
    ensures IsChain(after, row.familyId, c + [next])
  {
    UnrevokedIsTail(before, row.familyId, c, id);
    var d := c + [next];
    forall k | k in after && after[k].familyId == row.familyId ensures k in d {
      if k == next { assert d[|c|] == k; } else { var i :| 0 <= i < |c| && c[i] == k; assert d[i] == k; }
    }
    forall i | 0 <= i < |d| - 1 ensures after[d[i]].revokedAt.Some? && after[d[i]].replacedById == Some(d[i + 1]) {
      if i < |c| - 1 {
        assert d[i] == c[i] && d[i + 1] == c[i + 1];
      }
    }
  }

  /** Rotation changes no deadline and no creation time of an earlier token. */
  lemma RotatesKeepsTimes(before: RefreshTable, after: RefreshTable, id: Id, next: Id, row: RefreshToken,
                          settings: Settings, now: Time, k: Id)
    requires Rotates(before, after, id, next, row, settings, now) && k in before
    ensures k in after && after[k].expiresAt == before[k].expiresAt
    ensures after[k].absoluteExpiresAt == before[k].absoluteExpiresAt && after[k].createdAt == before[k].createdAt
  {
  }

  lemma RotatesKeepsSchedule(before: RefreshTable, after: RefreshTable, id: Id, next: Id, row: RefreshToken,
                             settings: Settings, now: Time, c: seq<Id>)
    requires Rotates(before, after, id, next, row, settings, now)
    requires ScheduledChain(before, row.familyId, c, settings, now)
    ensures ScheduledChain(after, row.familyId, c + [next], settings, now)
  {
    RotatesExtendsChain(before, after, id, next, row, settings, now, c);
    UnrevokedIsTail(before, row.familyId, c, id);
    forall i | 0 <= i < |c|
      ensures c[i] in after && after[c[i]].expiresAt == before[c[i]].expiresAt
      ensures after[c[i]].absoluteExpiresAt == before[c[i]].absoluteExpiresAt
      ensures after[c[i]].createdAt == before[c[i]].createdAt
    {
      RotatesKeepsTimes(before, after, id, next, row, settings, now, c[i]);
    }
    assert after[next] == row && SameOwner(row, before[id]);
    ScheduleExtends(before, after, c, id, next, settings, now);
  }

  lemma ScheduleExtends(before: RefreshTable, after: RefreshTable, c: seq<Id>, id: Id, next: Id, settings: Settings,
                        now: Time)
    requires |c| > 0 && c[|c| - 1] == id && next in after
    requires forall i :: 0 <= i < |c| ==> c[i] in before && c[i] in after
    requires OnSchedule(before, c, settings, now)
    requires forall i :: 0 <= i < |c| ==>
               && after[c[i]].expiresAt == before[c[i]].expiresAt && after[c[i]].createdAt == before[c[i]].createdAt
               && after[c[i]].absoluteExpiresAt == before[c[i]].absoluteExpiresAt
    requires after[next].createdAt == now && after[next].absoluteExpiresAt == before[id].absoluteExpiresAt
    requires after[next].expiresAt == Min(now + settings.idle, after[next].absoluteExpiresAt)
    ensures OnSchedule(after, c + [next], settings, now)
  {
    var d := c + [next];
    assert forall i :: 0 <= i < |c| ==> d[i] == c[i];
    assert d[|c|] == next;
  }

  lemma RotatesKeepsKeys(before: RefreshTable, after: RefreshTable, id: Id, next: Id, row: RefreshToken,
                         settings: Settings, now: Time)
    requires UniqueHashes(before) && FamiliesAgree(before) && Rotates(before, after, id, next, row, settings, now)
    ensures UniqueHashes(after) && FamiliesAgree(after)
  {
    forall a, b | a in after && b in after && SameHash(after[a], after[b]) ensures a == b {
      if a != next && b != next {
        assert SameHash(before[a], before[b]);
      }
    }
    forall a, b | a in after && b in after && after[a].familyId == after[b].familyId
      ensures SameOwner(after[a], after[b])
    {
      var a', b' := if a == next then id else a, if b == next then id else b;
      assert SameOwner(before[a'], before[b']);
    }
  }

  lemma RotatesKeeps(before: RefreshTable, after: RefreshTable, id: Id, next: Id, row: RefreshToken,
                     settings: Settings, now: Time)
    requires TableInv(before, settings, now) && Rotates(before, after, id, next, row, settings, now)
    ensures TableInv(after, settings, now)
  {
    RotatesKeepsKeys(before, after, id, next, row, settings, now);
    forall f | Family(f) && FamilyUsed(after, f) ensures exists c :: ScheduledChain(after, f, c, settings, now) {
      if f == row.familyId {
        assert FamilyUsed(before, f);
        var c :| ScheduledChain(before, f, c, settings, now);
        RotatesKeepsSchedule(before, after, id, next, row, settings, now, c);
      } else {
        ChainFrame(before, after, f, settings, now);
      }
    }
  }

  lemma ClockKeeps(ts: RefreshTable, settings: Settings, now: Time, later: Time)
    requires TableInv(ts, settings, now) && now <= later
    ensures TableInv(ts, settings, later)
  {
    forall f | Family(f) && FamilyUsed(ts, f) ensures exists c :: ScheduledChain(ts, f, c, settings, later) {
      var c :| ScheduledChain(ts, f, c, settings, now);
      assert ScheduledChain(ts, f, c, settings, later);
    }
  }

  /** Any of the changes the service makes to the table in one step. */
  ghost predicate Moves(before: RefreshTable, after: RefreshTable, settings: Settings, now: Time) {
    || after == before
    || Kills(before, after)
    || (exists id, row :: Opens(before, after, id, row, settings, now))
    || (exists id, next, row :: Rotates(before, after, id, next, row, settings, now))
  }

  lemma MovesKeeps(before: RefreshTable, after: RefreshTable, settings: Settings, now: Time)
    requires settings.Sound() && TableInv(before, settings, now) && Moves(before, after, settings, now)
    ensures TableInv(after, settings, now)
  {
    if after == before {
    } else if Kills(before, after) {
      KillsKeeps(before, after, settings, now);
    } else if id, row :| Opens(before, after, id, row, settings, now) {
      OpensKeeps(before, after, id, row, settings, now);
    } else {
      var id, next, row :| Rotates(before, after, id, next, row, settings, now);
      RotatesKeeps(before, after, id, next, row, settings, now);
    }
  }

  /** Rows are never dropped, keep their identity, and never become unrevoked. */
  lemma MovesKeepsRows(before: RefreshTable, after: RefreshTable, settings: Settings, now: Time)
    requires Moves(before, after, settings, now)
    ensures forall id :: id in before ==> id in after && SameRow(before[id], after[id])
    ensures forall id :: id in before && before[id].revokedAt.Some? ==> id in after && after[id] == before[id]
  {
  }

  /** A row that appears in a used family belongs to the family's owner, and that family was alive. */
  lemma MovesKeepsOwners(before: RefreshTable, after: RefreshTable, settings: Settings, now: Time, id: Id)
    requires Moves(before, after, settings, now)
    requires id in after && id !in before && FamilyUsed(before, after[id].familyId)
    ensures exists k :: k in before && before[k].familyId == after[id].familyId
                        && before[k].revokedAt.None? && SameOwner(before[k], after[id])
  {
  }

  /** A dead family stays dead. */
  lemma DeadStays(before: RefreshTable, after: RefreshTable, settings: Settings, now: Time, f: Id)
    requires Moves(before, after, settings, now) && Dead(before, f)
    ensures Dead(after, f)
  {
    MovesKeepsRows(before, after, settings, now);
    forall id | id in after && after[id].familyId == f ensures after[id].revokedAt.Some? {
      if id !in before {
        MovesKeepsOwners(before, after, settings, now, id);
      }
    }
    var k :| k in before && before[k].familyId == f;
    assert k in after && after[k].familyId == f;
  }

  // ---------------------------------------------------------- consequences

  /** At most one token of a family is unrevoked, and it has no successor. */
  lemma OneLiveTokenPerFamily(ts: RefreshTable, settings: Settings, now: Time, a: Id, b: Id)
    requires TableInv(ts, settings, now)
    requires a in ts && b in ts && ts[a].familyId == ts[b].familyId
    requires ts[a].revokedAt.None? && ts[b].revokedAt.None?
    ensures a == b && ts[a].replacedById == None
  {
    var f := ts[a].familyId;
    assert Family(f) && FamilyUsed(ts, f);
    var c :| ScheduledChain(ts, f, c, settings, now);
    UnrevokedIsTail(ts, f, c, a);
    UnrevokedIsTail(ts, f, c, b);
  }

  lemma ChainExists(ts: RefreshTable, settings: Settings, now: Time, f: Id)
    requires TableInv(ts, settings, now) && FamilyUsed(ts, f)
    ensures exists c :: ScheduledChain(ts, f, c, settings, now)
  {
    assert Family(f);
  }

  /** No token of a family expires later than `ttl` after any token of the family was created. */
  lemma AgeBound(ts: RefreshTable, settings: Settings, now: Time, id: Id, other: Id)
    requires TableInv(ts, settings, now) && id in ts && other in ts && ts[id].familyId == ts[other].familyId
    ensures ts[id].expiresAt <= ts[id].absoluteExpiresAt <= ts[other].createdAt + settings.ttl
  {
    var f := ts[id].familyId;
    assert Family(f) && FamilyUsed(ts, f);
    var c :| ScheduledChain(ts, f, c, settings, now);
    var i :| 0 <= i < |c| && c[i] == id;
    var j :| 0 <= j < |c| && c[j] == other;
    assert ts[c[0]].createdAt <= ts[c[j]].createdAt;
  }

  /** The place in its chain of a token that has a successor. */
  lemma PlaceInChain(ts: RefreshTable, f: Id, c: seq<Id>, id: Id) returns (i: nat)
    requires IsChain(ts, f, c) && id in ts && ts[id].familyId == f && ts[id].replacedById.Some?
    ensures i + 1 < |c| && c[i] == id && ts[id].replacedById == Some(c[i + 1])
  {
    i :| 0 <= i < |c| && c[i] == id;
  }

  lemma SuccessorFamily(ts: RefreshTable, settings: Settings, now: Time, id: Id, next: Id)
    requires TableInv(ts, settings, now) && id in ts && ts[id].replacedById == Some(next)
    ensures next in ts && next != id && ts[next].familyId == ts[id].familyId
  {
    var f := ts[id].familyId;
    ChainExists(ts, settings, now, f);
    var c :| ScheduledChain(ts, f, c, settings, now);
    var i := PlaceInChain(ts, f, c, id);
  }

  /** Replacement never branches: a token is the successor of at most one other token, of its own family. */
  lemma NoBranching(ts: RefreshTable, settings: Settings, now: Time, a: Id, b: Id, next: Id)
    requires TableInv(ts, settings, now) && a in ts && b in ts
    requires ts[a].replacedById == Some(next) && ts[b].replacedById == Some(next)
    ensures a == b && next in ts && next != a && ts[next].familyId == ts[a].familyId
  {
    SuccessorFamily(ts, settings, now, a, next);
    SuccessorFamily(ts, settings, now, b, next);
    var f := ts[next].familyId;
    ChainExists(ts, settings, now, f);
    var c :| ScheduledChain(ts, f, c, settings, now);
    var i := PlaceInChain(ts, f, c, a);
    var j := PlaceInChain(ts, f, c, b);
  }

  ghost function FamilyIds(ts: RefreshTable, f: Id): set<Id> {
    set id | id in ts && ts[id].familyId == f
  }

  lemma UnusedIsEmpty(ts: RefreshTable, f: Id)
    ensures FamilyUsed(ts, f) <==> FamilyIds(ts, f) != {}
  {
    if FamilyUsed(ts, f) {
      var id :| id in ts && ts[id].familyId == f;
      assert id in FamilyIds(ts, f);
    }
  }

  ghost function Elements(c: seq<Id>): set<Id> {
    set x | x in c
  }

  lemma DistinctCount(c: seq<Id>)
    requires forall i, j :: 0 <= i < j < |c| ==> c[i] != c[j]
    ensures |Elements(c)| == |c|
  {
    if c != [] {
      var front, last := c[..|c| - 1], c[|c| - 1];
      assert c == front + [last];
      DistinctCount(front);
      assert last !in Elements(front);
      assert Elements(c) == Elements(front) + {last};
    }
  }

  /** A chain is as long as its family is large. */
  lemma ChainCountsFamily(ts: RefreshTable, f: Id, c: seq<Id>)
    requires IsChain(ts, f, c)
    ensures |c| == |FamilyIds(ts, f)|
  {
    assert FamilyIds(ts, f) == Elements(c);
    DistinctCount(c);
  }
}
