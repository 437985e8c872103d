/** What the browser and the server keep in every interleaving, and what follows for the session. */
module Browser {
  import opened Wrappers
  import opened AuthSpec
  import opened BrowserSpec
  import opened RefreshChains
  import opened AuthInvariant
  import opened AuthRuns
  import opened SessionRuns
  import opened TokenTails

  // --------------------------------------------------------------- invariant

  ghost predicate Known(ts: RefreshTable, raw: Secret) {
    exists id :: id in ts && ts[id].tokenHash == Hash(raw)
  }

  ghost predicate UsedUp(ts: RefreshTable, raw: Secret) {
    exists id :: id in ts && ts[id].tokenHash == Hash(raw) && ts[id].revokedAt.Some?
  }

  /**
   The secrets the browser may still present: each ends its chain, and no two places hold the same undelivered
   one.
   */
  ghost predicate Holdings(ts: RefreshTable, c: Client) {
    && (c.cookie.Some? ==>
          c.cookie.value in c.held && c.cookie.value !in c.logins && (c.refresh.Renewed? || Tail(ts, c.cookie.value)))
    && (c.refresh.Sent? && c.refresh.presented.Some? ==>
          && c.refresh.presented.value in c.held && c.refresh.presented.value !in c.logins
          && Tail(ts, c.refresh.presented.value))
    && (c.refresh.Renewed? ==>
          c.refresh.cookie in c.held && c.refresh.cookie !in c.logins && Tail(ts, c.refresh.cookie))
    && (forall l :: l in c.logins ==> l in c.held && Tail(ts, l))
  }

  ghost predicate Histories(ts: RefreshTable, c: Client) {
    && (forall h :: h in c.held ==> Known(ts, h))
    && (forall p :: p in c.presented ==> UsedUp(ts, p))
  }

  /** Whoever waits for a refresh waits for one that is on its way. */
  ghost predicate NobodyStranded(c: Client) {
    forall id :: id in c.calls && c.calls[id].AwaitingRefresh? ==> !c.refresh.Idle?
  }

  ghost predicate WorldInv(w: World) {
    && Inv(w.server)
    && Holdings(w.server.refreshTokens, w.client)
    && Histories(w.server.refreshTokens, w.client)
    && NobodyStranded(w.client)
  }

  /** A browser that has never signed in. */
  ghost predicate NewBrowser(c: Client) {
    c == Client(None, None, Idle, map[], map[], {}, {})
  }

  lemma NewBrowserInv(w: World)
    requires Inv(w.server) && NewBrowser(w.client)
    ensures WorldInv(w)
  {
  }

  // ------------------------------------------------------------ move by move

  /** A server step that does not present what the browser holds leaves all the browser relies on in place. */
  lemma ServerStepKeeps(s: State, e: Event, c: Client)
    requires Inv(s) && Enabled(s, e) && Holdings(s.refreshTokens, c) && Histories(s.refreshTokens, c)
    requires e.RotateEvent? ==> e.raw !in c.held
    ensures Inv(Step(s, e).0)
    ensures Holdings(Step(s, e).0.refreshTokens, c) && Histories(Step(s, e).0.refreshTokens, c)
  {
    StepKeeps(s, e);
    var t := Step(s, e).0;
    forall h | h in c.held && Tail(s.refreshTokens, h) ensures Tail(t.refreshTokens, h) {
      TailStays(s, e, h);
    }
    StepTokens(s, e);
    HistoriesPersist(s.refreshTokens, t.refreshTokens, c);
  }

  lemma HistoriesPersist(a: RefreshTable, b: RefreshTable, c: Client)
    requires TokensPersist(a, b) && Histories(a, c)
    ensures Histories(b, c)
  {
  }

  lemma FreshIsUnheld(s: State, c: Client, secret: Secret)
    requires FreshSecret(s, secret) && Histories(s.refreshTokens, c)
    ensures secret !in c.held
  {
  }

  /** A session opened for the browser starts at the end of its chain. */
  lemma LoginTail(s: State, e: Event)
    requires e.LoginEvent? && Step(s, e).1.SessionOpened?
    ensures Step(s, e).1.secret == e.draw.secret && Tail(Step(s, e).0.refreshTokens, e.draw.secret)
  {
    assert TailRow(Step(s, e).0.refreshTokens, e.draw.tokenId);
  }

  lemma LoginHoldings(s: State, e: Event, c: Client)
    requires Enabled(s, e) && e.LoginEvent? && Step(s, e).1.SessionOpened? && e.draw.secret !in c.held
    requires Holdings(Step(s, e).0.refreshTokens, c) && Histories(Step(s, e).0.refreshTokens, c)
    ensures var d := WithLogin(c, Step(s, e).1.secret, Step(s, e).1.claims);
            Holdings(Step(s, e).0.refreshTokens, d) && Histories(Step(s, e).0.refreshTokens, d)
  {
    LoginTail(s, e);
  }

  function WithLogin(c: Client, secret: Secret, claims: Claims): Client {
    c.(logins := c.logins[secret := claims], held := c.held + {secret})
  }

  lemma SubmitLoginKeeps(w: World, m: Move)
    requires WorldInv(w) && m.SubmitLogin? && Possible(w, m)
    ensures WorldInv(Do(w, m))
  {
    var e := LoginEvent(m.slug, m.email, m.password, m.rehash, m.draw);
    ServerStepKeeps(w.server, e, w.client);
    FreshIsUnheld(w.server, w.client, m.draw.secret);
    if Step(w.server, e).1.SessionOpened? {
      LoginHoldings(w.server, e, w.client);
    }
  }

  /** After a rotation the presented token is used up; a renewed one is the new end of the chain. */
  lemma RotationTails(s: State, raw: Secret, draw: Draw)
    requires Inv(s) && FreshToken(s, draw) && Tail(s.refreshTokens, raw)
    ensures UsedUp(Rotate(s, raw, draw).0.refreshTokens, raw)
    ensures Rotate(s, raw, draw).1.SessionOpened? ==>
              Rotate(s, raw, draw).1.secret == draw.secret && Tail(Rotate(s, raw, draw).0.refreshTokens, draw.secret)
    ensures Rotate(s, raw, draw).1.SessionOpened? || Rotate(s, raw, draw).1.Refused?
  {
    var (t, outcome) := Rotate(s, raw, draw);
    var id :| id in s.refreshTokens && s.refreshTokens[id].tokenHash == Hash(raw) && TailRow(s.refreshTokens, id);
    UniqueFind(s.refreshTokens, Hash(raw), id);
    assert id in t.refreshTokens && t.refreshTokens[id].tokenHash == Hash(raw) && t.refreshTokens[id].revokedAt.Some?;
    if outcome.SessionOpened? {
      assert TailRow(t.refreshTokens, draw.tokenId);
    }
  }

  /** A refused rotation only revokes, so every chain keeps its end, the presented one included. */
  lemma RefusalKeepsTails(s: State, raw: Secret, draw: Draw, held: Secret)
    requires Inv(s) && Rotate(s, raw, draw).1.Refused? && Tail(s.refreshTokens, held)
    ensures Tail(Rotate(s, raw, draw).0.refreshTokens, held)
  {
    RefusalOnlyKills(s, raw, draw);
    TableTailStays(s.refreshTokens, s.settings, s.now, Rotate(s, raw, draw).0.refreshTokens, held, None, 0);
  }

  lemma RefusalOnlyKills(s: State, raw: Secret, draw: Draw)
    requires Inv(s) && Rotate(s, raw, draw).1.Refused?
    ensures var ts := Rotate(s, raw, draw).0.refreshTokens;
            ts == s.refreshTokens || Kills(s.refreshTokens, ts)
  {
    var found := FindToken(s.refreshTokens, Hash(raw));
    if found.Some? {
      if Rotate(s, raw, draw).1.code == RefreshTokenExpired {
        RevokeTailKills(s.refreshTokens, s.settings, s.now, found.value);
      } else {
        RevokeFamilyKills(s.refreshTokens, s.refreshTokens[found.value].familyId, s.now);
      }
    }
  }

  lemma ServeRefreshHoldings(w: World, draw: Draw, raw: Secret)
    requires WorldInv(w) && FreshToken(w.server, draw) && w.client.refresh == Sent(Some(raw))
    ensures Holdings(Answer(w, draw).server.refreshTokens, Answer(w, draw).client)
  {
    var s, c := w.server, w.client;
    RotationTails(s, raw, draw);
    FreshIsUnheld(s, c, draw.secret);
    if Rotate(s, raw, draw).1.SessionOpened? {
      forall l | l in c.logins ensures Tail(Rotate(s, raw, draw).0.refreshTokens, l) {
        LoginsSurvive(s, raw, draw, l);
      }
    } else {
      forall l | l in c.held && Tail(s.refreshTokens, l) ensures Tail(Rotate(s, raw, draw).0.refreshTokens, l) {
        RefusalKeepsTails(s, raw, draw, l);
      }
    }
  }

  lemma LoginsSurvive(s: State, raw: Secret, draw: Draw, other: Secret)
    requires Inv(s) && FreshToken(s, draw) && Tail(s.refreshTokens, other) && other != raw
    ensures Tail(Rotate(s, raw, draw).0.refreshTokens, other)
  {
    TailStays(s, RotateEvent(raw, draw), other);
  }

  lemma ServeRefreshHistories(w: World, draw: Draw, raw: Secret)
    requires WorldInv(w) && FreshToken(w.server, draw) && w.client.refresh == Sent(Some(raw))
    ensures Histories(Answer(w, draw).server.refreshTokens, Answer(w, draw).client)
  {
    var s, c := w.server, w.client;
    var t := Rotate(s, raw, draw).0;
    RotationTails(s, raw, draw);
    RotateTokens(s, raw, draw);
    HistoriesPersist(s.refreshTokens, t.refreshTokens, c);
    if Rotate(s, raw, draw).1.SessionOpened? {
      assert Known(t.refreshTokens, draw.secret);
    }
  }

  lemma ServeRefreshKeeps(w: World, draw: Draw)
    requires WorldInv(w) && w.client.refresh.Sent? && FreshToken(w.server, draw)
    ensures WorldInv(Answer(w, draw))
  {
    if w.client.refresh.presented.Some? {
      var raw := w.client.refresh.presented.value;
      RotateKeeps(w.server, raw, draw);
      ServeRefreshHoldings(w, draw, raw);
      ServeRefreshHistories(w, draw, raw);
    }
  }

  /** Every possible move keeps the invariant of browser and server together. */
  lemma MoveKeeps(w: World, m: Move)
    requires WorldInv(w) && Possible(w, m)
    ensures WorldInv(Do(w, m))
  {
    match m
    case Elsewhere(e) => ServerStepKeeps(w.server, e, w.client);
    case SubmitLogin(_, _, _, _, _) => SubmitLoginKeeps(w, m);
    case ServeRefresh(draw) => ServeRefreshKeeps(w, draw);
    case ServeLogout(raw) => ServerStepKeeps(w.server, LogoutEvent(raw), w.client);
    case _ => ClientMoveKeeps(w, m);
  }

  predicate ClientMove(m: Move) {
    !m.Elsewhere? && !m.SubmitLogin? && !m.ServeRefresh? && !m.ServeLogout?
  }

  lemma ClientMoveKeeps(w: World, m: Move)
    requires WorldInv(w) && Possible(w, m) && ClientMove(m)
    ensures WorldInv(Do(w, m))
  {
    ClientMoveIsLocal(w, m);
    ClientMoveHoldings(w.server.refreshTokens, w, m);
    ClientMoveStrandsNobody(w, m);
  }

  lemma ClientMoveIsLocal(w: World, m: Move)
    requires Possible(w, m) && ClientMove(m)
    ensures Do(w, m).server == w.server
    ensures Do(w, m).client.held == w.client.held && Do(w, m).client.presented == w.client.presented
  {
  }

  lemma ClientMoveHoldings(ts: RefreshTable, w: World, m: Move)
    requires Holdings(ts, w.client) && Possible(w, m) && ClientMove(m)
    ensures Holdings(ts, Do(w, m).client)
  {
  }

  lemma ClientMoveStrandsNobody(w: World, m: Move)
    requires NobodyStranded(w.client) && Possible(w, m)
    ensures NobodyStranded(Do(w, m).client)
  {
  }

  // -------------------------------------------------------------------- runs

  ghost function DoAll(w: World, moves: seq<Move>): World
    requires AllPossible(w, moves)
    decreases |moves|
  {
    if moves == [] then w else DoAll(Do(w, moves[0]), moves[1..])
  }

  ghost predicate AllPossible(w: World, moves: seq<Move>)
    decreases |moves|
  {
    moves == [] || (Possible(w, moves[0]) && AllPossible(Do(w, moves[0]), moves[1..]))
  }

  lemma {:induction false} MovesKeep(w: World, moves: seq<Move>)
    requires WorldInv(w) && AllPossible(w, moves)
    ensures WorldInv(DoAll(w, moves))
    decreases |moves|
  {
    if moves != [] {
      MoveKeeps(w, moves[0]);
      MovesKeep(Do(w, moves[0]), moves[1..]);
    }
  }

  /** The state of any interleaving of one new browser with everyone else, on a database with any history. */
  ghost predicate Interleaving(s: State, events: seq<Event>, c: Client, moves: seq<Move>, w: World) {
    && Init(s) && Admissible(s, events) && NewBrowser(c)
    && AllPossible(World(Run(s, events), c), moves) && w == DoAll(World(Run(s, events), c), moves)
  }

  lemma InterleavingInv(s: State, events: seq<Event>, c: Client, moves: seq<Move>, w: World)
    requires Interleaving(s, events, c, moves, w)
    ensures WorldInv(w)
  {
    ReachableInv(s, events);
    NewBrowserInv(World(Run(s, events), c));
    MovesKeep(World(Run(s, events), c), moves);
  }

  // ----------------------------------------------------------- what it gives

  lemma TailOfDead(ts: RefreshTable, raw: Secret, id: Id)
    requires UniqueHashes(ts) && Tail(ts, raw) && id in ts && ts[id].tokenHash == Hash(raw)
    ensures TailRow(ts, id)
    ensures ts[id].revokedAt.Some? ==> Dead(ts, ts[id].familyId)
  {
    var k :| k in ts && ts[k].tokenHash == Hash(raw) && TailRow(ts, k);
    assert SameHash(ts[k], ts[id]);
    assert FamilyUsed(ts, ts[id].familyId);
  }

  /**
   In every interleaving the server answers the browser's refresh with "reused" only when the whole
   session had already ended, and then that answer changes nothing.
   */
  lemma BrowserNeverTripsReuse(s: State, events: seq<Event>, c: Client, moves: seq<Move>, w: World, raw: Secret,
                               draw: Draw)
    requires Interleaving(s, events, c, moves, w)
    requires w.client.refresh == Sent(Some(raw))
    requires Rotate(w.server, raw, draw).1 == Refused(RefreshTokenReused)
    ensures exists id :: id in w.server.refreshTokens && w.server.refreshTokens[id].tokenHash == Hash(raw)
              && Dead(w.server.refreshTokens, w.server.refreshTokens[id].familyId)
    ensures Rotate(w.server, raw, draw).0 == w.server
  {
    InterleavingInv(s, events, c, moves, w);
    ReuseOnDead(w.server, raw, draw);
  }

  lemma ReuseOnDead(s: State, raw: Secret, draw: Draw)
    requires UniqueHashes(s.refreshTokens) && Tail(s.refreshTokens, raw)
    requires Rotate(s, raw, draw).1 == Refused(RefreshTokenReused)
    ensures exists id :: id in s.refreshTokens && s.refreshTokens[id].tokenHash == Hash(raw)
              && Dead(s.refreshTokens, s.refreshTokens[id].familyId)
    ensures Rotate(s, raw, draw).0 == s
  {
    var id := FindToken(s.refreshTokens, Hash(raw)).value;
    TailOfDead(s.refreshTokens, raw, id);
    assert RevokeFamily(s.refreshTokens, s.refreshTokens[id].familyId, s.now) == s.refreshTokens;
  }

  /** A refresh token is presented a second time only after its session has ended. */
  lemma PresentedOnceWhileAlive(s: State, events: seq<Event>, c: Client, moves: seq<Move>, w: World, raw: Secret,
                                id: Id)
    requires Interleaving(s, events, c, moves, w)
    requires w.client.refresh == Sent(Some(raw)) && raw in w.client.presented
    requires id in w.server.refreshTokens && w.server.refreshTokens[id].tokenHash == Hash(raw)
    ensures Dead(w.server.refreshTokens, w.server.refreshTokens[id].familyId)
  {
    InterleavingInv(s, events, c, moves, w);
    UsedTailIsDead(w.server.refreshTokens, raw, id);
  }

  lemma UsedTailIsDead(ts: RefreshTable, raw: Secret, id: Id)
    requires UniqueHashes(ts) && Tail(ts, raw) && UsedUp(ts, raw) && id in ts && ts[id].tokenHash == Hash(raw)
    ensures Dead(ts, ts[id].familyId)
  {
    var k :| k in ts && ts[k].tokenHash == Hash(raw) && ts[k].revokedAt.Some?;
    assert SameHash(ts[k], ts[id]);
    TailOfDead(ts, raw, id);
  }

  /** With no refresh in flight the cookie is known to the server and is the last token of its family's chain. */
  lemma CookieIsTailAtRest(s: State, events: seq<Event>, c: Client, moves: seq<Move>, w: World)
    requires Interleaving(s, events, c, moves, w)
    requires w.client.refresh.Idle? && w.client.cookie.Some?
    ensures exists id, chain :: EndsChain(w.server.refreshTokens, w.client.cookie.value, id, chain)
  {
    InterleavingInv(s, events, c, moves, w);
    TailEndsChain(w.server.refreshTokens, w.server.settings, w.server.now, w.client.cookie.value);
  }

  /** The token of `raw` is the last of `chain`, which is its family's. */
  ghost predicate EndsChain(ts: RefreshTable, raw: Secret, id: Id, chain: seq<Id>) {
    && id in ts && ts[id].tokenHash == Hash(raw)
    && IsChain(ts, ts[id].familyId, chain) && chain[|chain| - 1] == id
  }

  lemma TailEndsChain(ts: RefreshTable, settings: Settings, now: Time, raw: Secret)
    requires TableInv(ts, settings, now) && Tail(ts, raw)
    ensures exists id, chain :: EndsChain(ts, raw, id, chain)
  {
    var id :| id in ts && ts[id].tokenHash == Hash(raw) && TailRow(ts, id);
    ChainExists(ts, settings, now, ts[id].familyId);
    var chain :| ScheduledChain(ts, ts[id].familyId, chain, settings, now);
    LastLink(ts, id, chain);
    assert EndsChain(ts, raw, id, chain);
  }

  lemma LastLink(ts: RefreshTable, id: Id, chain: seq<Id>)
    requires id in ts && IsChain(ts, ts[id].familyId, chain) && ts[id].replacedById == None
    ensures chain[|chain| - 1] == id
  {
    EarlierLinksReplaced(ts, ts[id].familyId, chain);
    var i :| 0 <= i < |chain| && chain[i] == id;
  }

  lemma EarlierLinksReplaced(ts: RefreshTable, f: Id, chain: seq<Id>)
    requires IsChain(ts, f, chain)
    ensures forall i :: 0 <= i < |chain| - 1 ==> chain[i] in ts && ts[chain[i]].replacedById.Some?
  {
    forall i | 0 <= i < |chain| - 1 ensures chain[i] in ts && ts[chain[i]].replacedById.Some? {
      assert chain[i + 1] in chain;
    }
  }

  /** `ids` calls answered 401 one after the other. */
  function AllUnauthorized(c: Client, ids: seq<nat>): Client
    requires forall i :: 0 <= i < |ids| ==> ids[i] in c.calls
    decreases |ids|
  {
    if ids == [] then c else AllUnauthorized(OnUnauthorized(c, ids[0]), ids[1..])
  }

  /** Any number of concurrent 401s while signed in share one refresh, sent with one cookie. */
  lemma {:induction false} SingleFlight(c: Client, ids: seq<nat>)
    requires forall i :: 0 <= i < |ids| ==> ids[i] in c.calls && c.calls[ids[i]].First?
    requires forall i, j :: 0 <= i < j < |ids| ==> ids[i] != ids[j]
    requires c.activeSession.Some?
    ensures var d := AllUnauthorized(c, ids);
            && d.refresh == (if ids != [] && c.refresh.Idle? then Sent(c.cookie) else c.refresh)
            && d.cookie == c.cookie && d.activeSession == c.activeSession && d.calls.Keys == c.calls.Keys
            && (forall id :: id in c.calls && id !in ids ==> d.calls[id] == c.calls[id])
            && (forall i :: 0 <= i < |ids| ==> d.calls[ids[i]].AwaitingRefresh?)
    decreases |ids|
  {
    if ids != [] {
      var b := OnUnauthorized(c, ids[0]);
      SingleFlight(b, ids[1..]);
      var d := AllUnauthorized(c, ids);
      forall i | 0 <= i < |ids| ensures d.calls[ids[i]].AwaitingRefresh? {
        if i > 0 {
          assert ids[1..][i - 1] == ids[i];
        } else {
          assert ids[0] !in ids[1..];
        }
      }
    }
  }

  /**
   Why one flight matters: whoever presents a just-rotated token again, because an answer was lost or a
   second tab kept the old cookie, ends the session for everyone, the newest token included, and leaves
   no trace in the audit log.
   */
  lemma PresentingTwiceEndsSession(s: State, raw: Secret, draw: Draw, again: Draw, id: Id)
    requires Inv(s) && FreshToken(s, draw) && Rotate(s, raw, draw).1.SessionOpened?
    requires FindToken(s.refreshTokens, Hash(raw)) == Some(id)
    ensures var t := Rotate(s, raw, draw).0;
            && !AllRevoked(t.refreshTokens, s.refreshTokens[id].familyId)
            && Rotate(t, raw, again).1 == Refused(RefreshTokenReused)
            && Dead(Rotate(t, raw, again).0.refreshTokens, s.refreshTokens[id].familyId)
            && Rotate(t, raw, again).0.audit == s.audit
  {
    var t := Rotate(s, raw, draw).0;
    RotationIsNotAudited(s, raw, draw);
    RotationIsNotAudited(t, raw, again);
    RotateKeeps(s, raw, draw);
    RotatedIsRevoked(s, raw, draw, id);
    UniqueFind(t.refreshTokens, Hash(raw), id);
    RefusedRotationKills(t, raw, again, id);
  }

  lemma RotatedIsRevoked(s: State, raw: Secret, draw: Draw, id: Id)
    requires FreshToken(s, draw) && Rotate(s, raw, draw).1.SessionOpened?
    requires FindToken(s.refreshTokens, Hash(raw)) == Some(id)
    ensures var ts := Rotate(s, raw, draw).0.refreshTokens;
            && id in ts && ts[id].tokenHash == Hash(raw) && ts[id].familyId == s.refreshTokens[id].familyId
            && ts[id].revokedAt.Some? && !AllRevoked(ts, ts[id].familyId)
  {
    var ts := Rotate(s, raw, draw).0.refreshTokens;
    assert ts[draw.tokenId].revokedAt.None? && ts[draw.tokenId].familyId == s.refreshTokens[id].familyId;
  }
}
