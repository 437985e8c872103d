/**
 The browser half of the protocol, frontend/lib/api.ts, composed with the server.

 The module-level variables `activeSession` and `refreshPromise` and the cookie jar are the client
 state. A fetch is split into the moment it is sent, which fixes the cookie it carries, the moment the
 server handles it, and the moment its answer arrives, which stores the answer's cookie; other moves
 may come in between. Answers to a refresh always arrive.
 */
module BrowserSpec {
  import opened Wrappers
  import opened AuthSpec

  /** `refreshPromise`: none, a request on its way, or an answer on its way back. */
  datatype Refresh =
    | Idle
    | Sent(presented: Option<Secret>)
    | Renewed(cookie: Secret, session: Claims)
    | Failed

  /** One `apiRequest`: its first attempt, its wait for the shared refresh, its one retry, its end. */
  datatype Call =
    | First(bearer: Option<Claims>)
    | AwaitingRefresh
    | Retry(token: Claims)
    | Finished

  datatype Client = Client(
    cookie: Option<Secret>,
    activeSession: Option<Claims>,
    refresh: Refresh,
    logins: map<Secret, Claims>,
    calls: map<nat, Call>,
    held: set<Secret>,
    presented: set<Secret>)

  datatype World = World(server: State, client: Client)

  datatype Move =
    | Elsewhere(event: Event)
    | SubmitLogin(slug: string, email: string, password: string, rehash: Option<nat>, draw: Draw)
    | ReceiveLogin(secret: Secret)
    | SendCall(id: nat)
    | ReceiveSuccess(id: nat)
    | ReceiveUnauthorized(id: nat)
    | CallRefresh
    | ServeRefresh(draw: Draw)
    | RejectRefresh
    | ReceiveRefresh
    | ServeLogout(raw: Secret)
    | ClearSession
    | DropSession
    | Reload

  // ------------------------------------------------------------------ api.ts

  /** `refreshSession`: join the refresh in flight, or send one with the cookie of this moment. */
  function RefreshSession(c: Client): Client {
    if c.refresh.Idle? then c.(refresh := Sent(c.cookie)) else c
  }

  /** A 401 on a first attempt while signed in waits for a refresh; any other 401 is final. */
  function OnUnauthorized(c: Client, id: nat): Client
    requires id in c.calls
  {
    if c.calls[id].First? && c.activeSession.Some? then
      RefreshSession(c.(calls := c.calls[id := AwaitingRefresh]))
    else
      c.(calls := c.calls[id := Finished])
  }

  /** The shared promise settles: every waiting call is retried with the new token, or fails. */
  function SettleRefresh(c: Client): Client
    requires c.refresh.Renewed? || c.refresh.Failed?
  {
    if c.refresh.Renewed? then
      c.(cookie := Some(c.refresh.cookie), activeSession := Some(c.refresh.session), refresh := Idle,
         calls := map id | id in c.calls ::
           if c.calls[id].AwaitingRefresh? then Retry(c.refresh.session) else c.calls[id])
    else
      c.(activeSession := None, refresh := Idle,
         calls := map id | id in c.calls :: if c.calls[id].AwaitingRefresh? then Finished else c.calls[id])
  }

  /** The server's answer to the refresh in flight. */
  ghost function Answer(w: World, draw: Draw): World
    requires w.client.refresh.Sent?
  {
    match w.client.refresh.presented
    case None => w.(client := w.client.(refresh := Failed))
    case Some(raw) =>
      var (t, outcome) := Rotate(w.server, raw, draw);
      World(t, w.client.(
        refresh := if outcome.SessionOpened? then Renewed(outcome.secret, outcome.claims) else Failed,
        held := if outcome.SessionOpened? then w.client.held + {outcome.secret} else w.client.held,
        presented := w.client.presented + {raw}))
  }

  ghost predicate Possible(w: World, m: Move) {
    match m
    case Elsewhere(e) => Enabled(w.server, e) && (e.RotateEvent? ==> e.raw !in w.client.held)
    case SubmitLogin(slug, email, password, rehash, draw) =>
      Enabled(w.server, LoginEvent(slug, email, password, rehash, draw))
    case ReceiveLogin(secret) => secret in w.client.logins
    case SendCall(id) => id !in w.client.calls
    case ReceiveSuccess(id) => id in w.client.calls && (w.client.calls[id].First? || w.client.calls[id].Retry?)
    case ReceiveUnauthorized(id) => id in w.client.calls && (w.client.calls[id].First? || w.client.calls[id].Retry?)
    case ServeRefresh(draw) => w.client.refresh.Sent? && FreshToken(w.server, draw)
    case RejectRefresh => w.client.refresh.Sent?
    case ReceiveRefresh => w.client.refresh.Renewed? || w.client.refresh.Failed?
    case Reload => w.client.refresh.Idle? && w.client.logins == map[]
    case _ => true
  }

  ghost function Do(w: World, m: Move): World
    requires Possible(w, m)
  {
    var c := w.client;
    match m
    case Elsewhere(e) => w.(server := Step(w.server, e).0)
    case SubmitLogin(slug, email, password, rehash, draw) =>
      var (t, outcome) := Login(w.server, slug, email, password, rehash, draw);
      if outcome.SessionOpened? then
        World(t, c.(logins := c.logins[outcome.secret := outcome.claims], held := c.held + {outcome.secret}))
      else
        World(t, c)
    case ReceiveLogin(secret) =>
      w.(client := c.(cookie := Some(secret), activeSession := Some(c.logins[secret]), logins := c.logins - {secret}))
    case SendCall(id) => w.(client := c.(calls := c.calls[id := First(c.activeSession)]))
    case ReceiveSuccess(id) => w.(client := c.(calls := c.calls[id := Finished]))
    case ReceiveUnauthorized(id) => w.(client := OnUnauthorized(c, id))
    case CallRefresh => w.(client := RefreshSession(c))
    case ServeRefresh(draw) => Answer(w, draw)
    case RejectRefresh => w.(client := c.(refresh := Failed))
    case ReceiveRefresh => w.(client := SettleRefresh(c))
    case ServeLogout(raw) => w.(server := Logout(w.server, raw).0)
    case ClearSession => w.(client := c.(cookie := None, activeSession := None))
    case DropSession => w.(client := c.(activeSession := None))
    case Reload => w.(client := c.(activeSession := None, calls := map[]))
  }
}
