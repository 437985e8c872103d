/**
 The calls and the tokens of the browser: what becomes of a call that waits for a refresh, and that every
 token it holds or sends was signed by the server for the session of its cookie.
 */
module BrowserCalls {
  import opened Wrappers
  import opened AuthSpec
  import opened AuthInvariant
  import opened AuthRuns
  import opened Browser
  import opened BrowserSpec
  import opened ClaimRuns
  import opened RefreshChains
  import opened SessionRuns
  import opened TokenTails

  // --------------------------------------------------------- one call, move by move

  /** The stages a call can reach from `a` in one move: it is retried at most once, and a retry never waits. */
  predicate Follows(a: Call, b: Call) {
    || b == a
    || (a.First? && (b.AwaitingRefresh? || b.Finished?))
    || (a.AwaitingRefresh? && (b.Retry? || b.Finished?))
    || (a.Retry? && b.Finished?)
  }

  lemma CallMoves(w: World, m: Move, id: nat)
    requires Possible(w, m) && !m.Reload? && id in w.client.calls
    ensures id in Do(w, m).client.calls && Follows(w.client.calls[id], Do(w, m).client.calls[id])
  {
  }

  /** Why a call ends: its answer, a 401 that no refresh can help, or the failure of the refresh it waited for. */
  lemma CallEnds(w: World, m: Move, id: nat)
    requires Possible(w, m) && !m.Reload? && id in w.client.calls && !w.client.calls[id].Finished?
    ensures var (c, call) := (w.client, w.client.calls[id]);
            id in Do(w, m).client.calls
            && (Do(w, m).client.calls[id].Finished? <==>
                  || m == ReceiveSuccess(id)
                  || (m == ReceiveUnauthorized(id) && (call.Retry? || c.activeSession.None?))
                  || (m.ReceiveRefresh? && call.AwaitingRefresh? && c.refresh.Failed?))
  {
  }

  /**
   A call that waits for a refresh goes on waiting until the refresh is answered: renewed, the browser
   holds the new session and sends the call again with its token; failed, it is signed out and the call
   ends with it.
   */
  lemma WaitingCall(w: World, m: Move, id: nat)
    requires NobodyStranded(w.client) && Possible(w, m)
    requires id in w.client.calls && w.client.calls[id].AwaitingRefresh?
    ensures var (c, d) := (w.client, Do(w, m).client);
            && id in d.calls
            && (if !m.ReceiveRefresh? then d.calls[id].AwaitingRefresh?
                else if c.refresh.Renewed? then
                  && d.calls[id] == Retry(c.refresh.session)
                  && d.activeSession == Some(c.refresh.session) && d.cookie == Some(c.refresh.cookie)
                else
                  d.calls[id].Finished? && d.activeSession.None?)
  {
  }

  /** What a run without reloads makes of a call: the stages in order, and one retry with one token. */
  predicate Reaches(a: Call, b: Call) {
    match a
    case First(_) => b == a || !b.First?
    case AwaitingRefresh => !b.First?
    case Retry(_) => b == a || b.Finished?
    case Finished => b.Finished?
  }

  lemma {:induction false} CallsRunForward(w: World, moves: seq<Move>, id: nat)
    requires AllPossible(w, moves) && id in w.client.calls
    requires forall i :: 0 <= i < |moves| ==> !moves[i].Reload?
    ensures id in DoAll(w, moves).client.calls
    ensures Reaches(w.client.calls[id], DoAll(w, moves).client.calls[id])
    decreases |moves|
  {
    if moves != [] {
      CallMoves(w, moves[0], id);
      CallsRunForward(Do(w, moves[0]), moves[1..], id);
    }
  }

  /** A request is sent with the session of that moment; a refresh starts with the cookie of that moment. */
  lemma SendsWhatItHolds(w: World, m: Move)
    requires Possible(w, m)
    ensures m.SendCall? ==> Do(w, m).client.calls == w.client.calls[m.id := First(w.client.activeSession)]
    ensures w.client.refresh.Idle? && !Do(w, m).client.refresh.Idle? ==>
              Do(w, m).client.refresh == Sent(w.client.cookie)
    ensures w.client.refresh.Idle? && (m.CallRefresh? || (m.ReceiveUnauthorized? && w.client.activeSession.Some?
                                                          && w.client.calls[m.id].First?)) ==>
              Do(w, m).client.refresh.Sent?
  {
  }

  // ------------------------------------------------------------ tokens and cookies

  /** The refresh token and the access claim belong to one session of one user. */
  ghost predicate OfSession(ts: RefreshTable, raw: Secret, c: Claims) {
    exists id :: id in ts && ts[id].tokenHash == Hash(raw)
                 && ts[id].familyId == c.sid && ts[id].userId == c.sub && ts[id].organizationId == c.org
  }

  ghost predicate Carries(call: Call, signed: set<Claims>) {
    match call
    case First(bearer) => bearer.Some? ==> bearer.value in signed
    case Retry(token) => token in signed
    case _ => true
  }

  /** Whatever token the browser holds or has sent was signed by the server, and for the cookie beside it. */
  ghost predicate TokensMatch(s: State, c: Client) {
    && (c.activeSession.Some? ==>
          && c.cookie.Some? && c.activeSession.value in s.minted
          && OfSession(s.refreshTokens, c.cookie.value, c.activeSession.value))
    && (c.refresh.Renewed? ==>
          c.refresh.session in s.minted && OfSession(s.refreshTokens, c.refresh.cookie, c.refresh.session))
    && (forall l :: l in c.logins ==> c.logins[l] in s.minted && OfSession(s.refreshTokens, l, c.logins[l]))
    && (forall id :: id in c.calls ==> Carries(c.calls[id], s.minted))
  }

  lemma ServerStepMatches(s: State, e: Event, c: Client)
    requires Enabled(s, e) && TokensMatch(s, c)
    ensures TokensMatch(Step(s, e).0, c)
  {
    StepTokens(s, e);
    StepLogs(s, e);
    MatchPersists(s, Step(s, e).0, c);
  }

  lemma MatchPersists(s: State, t: State, c: Client)
    requires TokensPersist(s.refreshTokens, t.refreshTokens) && s.minted <= t.minted && TokensMatch(s, c)
    ensures TokensMatch(t, c)
  {
    forall raw, claims | OfSession(s.refreshTokens, raw, claims) ensures OfSession(t.refreshTokens, raw, claims) {
      var id :| id in s.refreshTokens && s.refreshTokens[id].tokenHash == Hash(raw)
             && s.refreshTokens[id].familyId == claims.sid && s.refreshTokens[id].userId == claims.sub
             && s.refreshTokens[id].organizationId == claims.org;
      assert id in t.refreshTokens && SameRow(s.refreshTokens[id], t.refreshTokens[id]);
    }
  }

  /** A reply that opens a session carries a token and a claim of that one session. */
  lemma ReplyMatches(s: State, e: Event)
    requires Enabled(s, e) && (e.LoginEvent? || e.RotateEvent?) && Step(s, e).1.SessionOpened?
    ensures var (t, reply) := Step(s, e);
            reply.claims in t.minted && OfSession(t.refreshTokens, reply.secret, reply.claims)
  {
    assert e.draw.tokenId in Step(s, e).0.refreshTokens;
  }

  lemma SubmitLoginMatches(w: World, m: Move)
    requires TokensMatch(w.server, w.client) && m.SubmitLogin? && Possible(w, m)
    ensures TokensMatch(Do(w, m).server, Do(w, m).client)
  {
    var e := LoginEvent(m.slug, m.email, m.password, m.rehash, m.draw);
    ServerStepMatches(w.server, e, w.client);
    if Step(w.server, e).1.SessionOpened? {
      ReplyMatches(w.server, e);
    }
  }

  lemma AnswerMatches(w: World, draw: Draw)
    requires TokensMatch(w.server, w.client) && w.client.refresh.Sent? && FreshToken(w.server, draw)
    ensures TokensMatch(Answer(w, draw).server, Answer(w, draw).client)
  {
    if w.client.refresh.presented.Some? {
      var e := RotateEvent(w.client.refresh.presented.value, draw);
      ServerStepMatches(w.server, e, w.client);
      if Step(w.server, e).1.SessionOpened? {
        ReplyMatches(w.server, e);
      }
    }
  }

  lemma ClientMoveMatches(w: World, m: Move)
    requires TokensMatch(w.server, w.client) && Possible(w, m) && ClientMove(m)
    ensures TokensMatch(Do(w, m).server, Do(w, m).client)
  {
  }

  lemma MoveMatches(w: World, m: Move)
    requires TokensMatch(w.server, w.client) && Possible(w, m)
    ensures TokensMatch(Do(w, m).server, Do(w, m).client)
  {
    match m
    case Elsewhere(e) => ServerStepMatches(w.server, e, w.client);
    case SubmitLogin(_, _, _, _, _) => SubmitLoginMatches(w, m);
    case ServeRefresh(draw) => AnswerMatches(w, draw);
    case ServeLogout(raw) => ServerStepMatches(w.server, LogoutEvent(raw), w.client);
    case _ => ClientMoveMatches(w, m);
  }

  lemma {:induction false} MovesMatch(w: World, moves: seq<Move>)
    requires TokensMatch(w.server, w.client) && AllPossible(w, moves)
    ensures TokensMatch(DoAll(w, moves).server, DoAll(w, moves).client)
    decreases |moves|
  {
    if moves != [] {
      MoveMatches(w, moves[0]);
      MovesMatch(Do(w, moves[0]), moves[1..]);
    }
  }

  /**
   In every interleaving each bearer token the browser sends, first attempts and retries alike, was signed by the
   server, and the session it shows belongs to the cookie it holds.
   */
  lemma BrowserHoldsOneSession(s: State, events: seq<Event>, c: Client, moves: seq<Move>, w: World)
    requires Interleaving(s, events, c, moves, w)
    ensures TokensMatch(w.server, w.client)
  {
    MovesMatch(World(Run(s, events), c), moves);
  }

  // ------------------------------------------------------- the answer to a refresh

  /** The server renews what the browser presents exactly while that session can be renewed. */
  ghost predicate CanRenew(s: State, presented: Option<Secret>) {
    && presented.Some?
    && exists id :: id in s.refreshTokens && s.refreshTokens[id].tokenHash == Hash(presented.value) && Renewable(s, id)
  }

  lemma AnswersExactly(w: World, draw: Draw)
    requires WorldInv(w) && w.client.refresh.Sent? && FreshToken(w.server, draw)
    ensures var d := Answer(w, draw);
            if CanRenew(w.server, w.client.refresh.presented) then
              && d.client.refresh.Renewed? && d.client.refresh.cookie == draw.secret
              && OfSession(w.server.refreshTokens, w.client.refresh.presented.value, d.client.refresh.session)
              && Accepted(d.server, d.client.refresh.session)
            else d.client.refresh.Failed?
  {
    var presented := w.client.refresh.presented;
    if presented.Some? {
      var id :| id in w.server.refreshTokens && w.server.refreshTokens[id].tokenHash == Hash(presented.value)
             && TailRow(w.server.refreshTokens, id);
      RenewsExactly(w.server, presented.value, draw, id);
      forall k | k in w.server.refreshTokens && w.server.refreshTokens[k].tokenHash == Hash(presented.value)
        ensures k == id
      {
        assert SameHash(w.server.refreshTokens[k], w.server.refreshTokens[id]);
      }
      if Rotate(w.server, presented.value, draw).1.SessionOpened? {
        RotatedSessionAccepted(w.server, presented.value, draw);
      }
    }
  }

  /**
   The whole refresh, from the server's answer to its arrival: while the session of the presented cookie can be
   renewed, every call that waited is sent again with a token of that session which the server accepts; otherwise
   every such call ends and the browser is signed out.
   */
  lemma RefreshServesWaitingCalls(s: State, events: seq<Event>, c: Client, moves: seq<Move>, w: World, draw: Draw,
                                  id: nat)
    requires Interleaving(s, events, c, moves, w) && Possible(w, ServeRefresh(draw))
    requires id in w.client.calls && w.client.calls[id].AwaitingRefresh?
    ensures var v := Do(w, ServeRefresh(draw));
            && Possible(v, ReceiveRefresh)
            && var (d, presented) := (Do(v, ReceiveRefresh), w.client.refresh.presented);
            && id in d.client.calls
            && if CanRenew(w.server, presented) then
                 && d.client.calls[id].Retry?
                 && d.client.activeSession == Some(d.client.calls[id].token)
                 && OfSession(w.server.refreshTokens, presented.value, d.client.calls[id].token)
                 && Accepted(d.server, d.client.calls[id].token)
               else
                 d.client.calls[id].Finished? && d.client.activeSession.None?
  {
    InterleavingInv(s, events, c, moves, w);
    AnswersExactly(w, draw);
    WaitingCall(w, ServeRefresh(draw), id);
    MoveKeeps(w, ServeRefresh(draw));
    WaitingCall(Do(w, ServeRefresh(draw)), ReceiveRefresh, id);
  }

  /** Signing in: when the server opens a session the browser comes to hold it, and the next call is accepted. */
  lemma SignInServesNextCall(w: World, m: Move, id: nat)
    requires Inv(w.server) && m.SubmitLogin? && Possible(w, m) && id !in w.client.calls
    requires Login(w.server, m.slug, m.email, m.password, m.rehash, m.draw).1.SessionOpened?
    ensures var v := Do(w, m);
            && Possible(v, ReceiveLogin(m.draw.secret))
            && var d := Do(v, ReceiveLogin(m.draw.secret));
            && d.client.cookie == Some(m.draw.secret) && d.client.activeSession.Some?
            && OfSession(d.server.refreshTokens, m.draw.secret, d.client.activeSession.value)
            && Possible(d, SendCall(id)) && id in Do(d, SendCall(id)).client.calls
            && var call := Do(d, SendCall(id)).client.calls[id];
            && call.First? && call.bearer.Some? && Accepted(Do(d, SendCall(id)).server, call.bearer.value)
  {
    var e := LoginEvent(m.slug, m.email, m.password, m.rehash, m.draw);
    OpenedSessionsAreAccepted(w.server, e);
    ReplyMatches(w.server, e);
  }

  lemma LogoutEndsSession(s: State, raw: Secret, claims: Claims)
    requires Inv(s) && OfSession(s.refreshTokens, raw, claims)
    ensures Dead(Logout(s, raw).0.refreshTokens, claims.sid) && !Accepted(Logout(s, raw).0, claims)
  {
    var k :| k in s.refreshTokens && s.refreshTokens[k].tokenHash == Hash(raw)
          && s.refreshTokens[k].familyId == claims.sid && s.refreshTokens[k].userId == claims.sub
          && s.refreshTokens[k].organizationId == claims.org;
    LogoutKills(s, raw, k);
  }

  lemma ClearedBrowserSendsNothing(w: World, id: nat)
    requires w.client.refresh.Idle? && id !in w.client.calls
    ensures var d := Do(w, ClearSession);
            && d.server == w.server && d.client.calls == w.client.calls
            && Do(d, SendCall(id)).client.calls[id] == First(None)
            && Do(d, CallRefresh).client.refresh == Sent(None)
  {
  }

  /**
   Signing out: the server ends the session of the cookie, and once its answer has cleared the browser no claim of that
   session is accepted, the next call goes out without a token, and the next refresh presents nothing.
   */
  lemma SignOutEndsSession(s: State, events: seq<Event>, c: Client, moves: seq<Move>, w: World, id: nat, claims: Claims)
    requires Interleaving(s, events, c, moves, w) && w.client.refresh.Idle? && id !in w.client.calls
    requires w.client.cookie.Some? && OfSession(w.server.refreshTokens, w.client.cookie.value, claims)
    ensures var d := Do(Do(w, ServeLogout(w.client.cookie.value)), ClearSession);
            && Dead(d.server.refreshTokens, claims.sid) && !Accepted(d.server, claims)
            && Do(d, SendCall(id)).client.calls[id] == First(None)
            && Do(d, CallRefresh).client.refresh == Sent(None)
  {
    InterleavingInv(s, events, c, moves, w);
    LogoutEndsSession(w.server, w.client.cookie.value, claims);
    ClearedBrowserSendsNothing(Do(w, ServeLogout(w.client.cookie.value)), id);
  }
}
