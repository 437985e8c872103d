# Verification model of the Real Estate CRM

A Dafny model of the parts of the CRM whose correctness depends on state, histories or exact bytes, with
proofs of what those parts promise. `dafny verify dfyconfig.toml` checks all of it.

## The components

**Sessions and credentials** (`backend/app/services/auth.py` with `dependencies.py`, `security.py` and the
account calls of `organization.py` and `rbac.py`). `AuthSpec` gives every service call as a function from
the content of the tables to the next content and the reply; a run is any sequence of calls, clock ticks
and administrative changes from an empty database. `AuthService` is the service in its own form, a class
that updates rows in place, each method proved to reach exactly the state its function names.
`RefreshChains`, `AuditTrail` and `AuthInvariant` hold the invariant: the tokens of a family form one
replacement chain on one schedule, a user has one open reset link, the audit log explains every
`auth_version`, and every signed claim names a session of its own user. `SessionRuns`, `CredentialRuns`,
`ClaimRuns`, `ResetRuns` and `AuditRuns` draw the consequences over all runs. `SessionMachine` shows that the table
refines a machine that knows only, per session, the current secret and two deadlines. `BrowserSpec` composes
the server with `frontend/lib/api.ts`: a client whose requests are sent, handled and answered at separate
moments, interleaved with everybody else. `TokenTails`, `Browser` and `BrowserCalls` prove what every
interleaving keeps and what becomes of every call.

**Quotation PDF** (`backend/app/documents/quotation_pdf.py`). `PdfEscape`, `MoneyText`, `PdfFile`, `PdfWriter`
and `QuotationPdf` are the renderer, loops over pages, objects and offsets included. `PdfReader` is a
random-access reader after ISO 32000-1, sections 7.3 and 7.5, that demands the header, starts at the end of
the file, parses objects with `PdfObjects`, follows references under their keys, and with `PdfGraphics` reads
content streams operator by operator into strings with font, size and place. `PdfValues`, `PdfContents`,
`PdfRoundTrip`, `PdfDocuments` and `QuotationPdf` prove that the reader gets every row back in its place,
`QuotationReading` that it finds every field and amount; `PdfSizes` bounds the size of a file by its rows.

**Rate limiter** (`backend/app/core/rate_limit.py`). `RateLimiter` is the dictionary of pruned deques and
the counter path in place; `RateLimitSpec` states both beside a limiter that keeps the whole history;
`RateLimit` proves them equal and bounds windows, deques and the number of keys.

**Smaller pieces.** `Permissions` (grant tests, portal boundary, route guards), `PricingValidation` (discount
matrix, component codes) and `Instream` (upload framing for the malware scanner).

## What the code does differently from what is written about it

- An access claim does not always carry its user's current version while its session lives. Replacing a
  user's roles (`backend/app/services/rbac.py:381`) moves `auth_version` and revokes no session, so
  `ClaimRuns.LiveClaimsAreCurrent` gives the exact condition and `ClaimRuns.RoleReplacementOutdatesClaims`
  the failing case. For the same reason the completed credential changes of a user carry 2, 3, ... without a
  gap if and only if no administrator ever moved the user (`AuditRuns.CredentialChangesAreGapless`; a run with
  a gap is `AuditRuns.GapExample`); in general they are strictly increasing (`AuditRuns.AuditExplainsVersions`).
- `ARCHITECTURE.md:292` says that reuse of a revoked token emits an audit event. No rotation writes one, whatever
  its outcome (`SessionRuns.RotationIsNotAudited`); `Browser.PresentingTwiceEndsSession` is the input.
- The bound of 10,000 keys in the in-memory limiter holds on all runs exactly when the limit is at least
  one; with a lower limit nothing is accepted, and eviction follows only acceptance
  (`RateLimit.KeyBoundExactly`).
- Within one window length the counter path can accept up to twice its limit less one, a bound that is
  reached (`RateLimit.CounterBoundIsReached`).
- The grant tests of server and browser differ on codes that start with a dot when `.manage` itself is held
  (`Permissions.BrowserAgreesExactly`).
- A row with a character outside Latin-1 or with a carriage return is not what the reader gets back
  (`PdfEscape.TextSurvivesExactly`).

## Assumptions

Random values (row ids, secrets, salts) are parameters that were not drawn before; SHA-256 is injective;
access tokens cannot be forged, so only signed claims verify; the clock does not go back; settings satisfy
the check at `backend/app/core/config.py:86` and are positive. Each service call is one atomic step. Rows
are found by keys the database declares unique.

## Model

| member | source | states |
|---|---|---|
| AuthService.Service.RegisterOrganization | backend/app/services/auth.py:133-226 | In place, reaches the specified state and reply, refusals included, and keeps the invariant |
| AuthService.Service.LogIn | backend/app/services/auth.py:229-257 | The same for signing in: one refusal for unknown, wrong and disabled, otherwise the row update and a new session |
| AuthService.Service.OpenSession | backend/app/services/auth.py:260-297 | Adds one row of a new family with both deadlines and signs one claim at the user's current version |
| AuthService.Service.RotateRefreshToken | backend/app/services/auth.py:300-376 | The four refusals, each with what it revokes, and the replacement, in that order of precedence; invariant kept |
| AuthService.Service.RefuseToken | backend/app/services/auth.py:315-343 | Reuse, expiry and a disabled account in this order, each with exactly the rows it revokes; a good token changes nothing |
| AuthService.Service.RenewSession | backend/app/services/auth.py:345-376 | The new token inherits owner, family and absolute deadline, replaces the old one, and one claim is signed |
| AuthService.Service.ReplaceToken | backend/app/services/auth.py:360-364 | The three row writes of a rotation together are one replacement in the table |
| AuthService.Service.RevokeRefreshToken | backend/app/services/auth.py:379-391 | Logging out revokes the whole family of a known token and does nothing for an unknown one |
| AuthService.Service.IsSessionActive | backend/app/services/auth.py:394-410 | The search that stops at the first live row answers, in every valid state, what the session machine says: not ended, this user's, both deadlines ahead |
| AuthService.Service.ChangeUserPassword | backend/app/services/auth.py:413-456 | Three refusals without effect, otherwise password, version, sessions, reset links and audit row in one step |
| AuthService.Service.RequestPasswordReset | backend/app/services/auth.py:459-508 | Silent for unknown or disabled accounts, otherwise consumes older links, adds one and logs the unchanged version |
| AuthService.Service.CompletePasswordReset | backend/app/services/auth.py:511-564 | Refuses used, expired or disabled without effect, otherwise the same five changes as a password change |
| AuthService.Service.SetCredential | backend/app/services/auth.py:567-588 | The row writes and the two bulk updates together are the specified credential replacement |
| AuthService.Service.GetCurrentUser | backend/app/api/dependencies.py:54-81 | In place, the acceptance test; in every valid state it accepts a signed claim if and only if it is within lifetime and leeway, user and organization rows are active, the session runs, and no roles were replaced since its version |
| AuthInvariant.StepKeeps | backend/app/services/auth.py:133-588 | Every step of the service, of administration and of the clock keeps the whole invariant |
| CredentialRuns.PasswordIsLastSet | backend/app/services/auth.py:413-456 | After every run exactly the password set last for a user, by registration, creation, change or reset, verifies against the stored hash |
| CredentialRuns.SignsInExactly | backend/app/services/auth.py:229-257 | In every reachable state a login opens a session if and only if the address is that of an active user of an active organization and the password is the one set last; it is that user's session, and any other login changes nothing |
| CredentialRuns.SetPasswordSignsIn | backend/app/services/auth.py:443-447 | Directly after registration, creation, a completed change or a completed reset the new password signs its user in and no other does |
| CredentialRuns.ChangesExactly | backend/app/services/auth.py:413-456 | Each reply of a password change by account, password last set and new password; a completed change leaves exactly the new password, any other changes nothing |
| CredentialRuns.RegistersExactly | backend/app/services/auth.py:133-226 | Registration founds an active organization with one active user at version 1 if and only if the setting allows it and the slug is unused, and changes nothing otherwise |
| CredentialRuns.CreatesExactly | backend/app/services/organization.py:437-471 | A user is created in an existing organization under an unused address, at version 1, and otherwise nothing |
| CredentialRuns.UpdatesExactly | backend/app/services/organization.py:474-505 | An update gives exactly a known user the address and state asked for, unless another user has the address or it is a self-deactivation |
| SessionRuns.DisablingEndsSessions | backend/app/services/organization.py:488-535 | Disabling an account by either call moves its version, stamps the version before and after in the audit row, and leaves every session of the user dead |
| AuthInvariant.ReplaceRolesKeeps | backend/app/services/rbac.py:381-397 | A granted replacement moves the version by one, which the audit log accounts for, changes no session, and keeps the invariant |
| AuthInvariant.RevokeUserKills | backend/app/services/auth.py:567-576 | The bulk update ends every family of its user and changes no family in part |
| AuthInvariant.RevokeTailKills | backend/app/services/auth.py:324-327 | Revoking only the expired token ends its family, since it was the last one alive |
| AuthRuns.RunKeeps | backend/app/services/auth.py:133-588 | Over every run the invariant holds and nothing is undone: rows stay, revoked stays revoked, dead families and consumed links stay so, versions and log only grow |
| RefreshChains.OneLiveTokenPerFamily | backend/app/services/auth.py:345-364 | At most one token of a family is unrevoked, and it has no successor |
| RefreshChains.NoBranching | backend/app/services/auth.py:362-363 | A token is the successor of at most one other, never of itself, and is in the same family |
| RefreshChains.AgeBound | backend/app/services/auth.py:346-358 | No token of a family expires later than the lifetime counted from any token of that family |
| SessionRuns.FamiliesAreChains | backend/app/services/auth.py:260-376 | In every reachable state each family is one finite acyclic chain, one longer than its successful rotations, all but the last revoked, one absolute deadline, idle deadlines below it and never decreasing |
| SessionRuns.SessionEndsByTtl | backend/app/services/auth.py:268-283 | A session is never active at or after creation plus the lifetime, however often it was rotated |
| SessionRuns.DeadForever | backend/app/services/auth.py:315-343 | A family without a live token has none in any later state of any run, reactivation included, and none of its claims is accepted |
| SessionRuns.LapsedForever | backend/app/services/auth.py:394-410 | A session that ran out is over in every later state of every run, whether or not its token is ever presented |
| SessionRuns.RotationIsNotAudited | backend/app/services/auth.py:315-322 | No rotation writes an audit row; on reuse nothing changes but the token table |
| SessionRuns.RenewsExactly | backend/app/services/auth.py:300-376 | A known token is exchanged if and only if it is unrevoked, both deadlines lie ahead, and the rows of its user and organization are active; secret and claim are of the same owner and family |
| SessionRuns.NobodyActsOnThemselves | backend/app/services/organization.py:488-535 | No administrator disables the own account or replaces the own roles |
| SessionRuns.RefusedRotationKills | backend/app/services/auth.py:315-343 | Reuse, expiry and a disabled account each leave the presented token's family dead |
| SessionRuns.LogoutKills | backend/app/services/auth.py:379-391 | So does logging out |
| SessionRuns.ChangeKills | backend/app/services/auth.py:446 | A completed credential change or deactivation, through whichever call, leaves every family of the user dead |
| SessionRuns.ChangeMovesVersion | backend/app/services/auth.py:443-455 | It also moves the user to the next version, and its one new audit row is stamped with it |
| SessionRuns.OthersUntouched | backend/app/services/auth.py:316-320 | A family-wide revocation or a rotation changes only tokens of the presented token's own user and family |
| ClaimRuns.NewVersionEndsClaims | backend/app/api/dependencies.py:61-74 | No claim signed before its user's version moved is accepted at any later point of any run |
| ClaimRuns.ChangeEndsClaims | backend/app/services/auth.py:443-447 | In particular none from before a completed password change, reset or deactivation, through whichever call |
| ClaimRuns.LiveClaimsAreCurrent | backend/app/services/auth.py:286-291 | While its session has a live token a claim is at the current version if and only if no role replacement was recorded since |
| ClaimRuns.RoleReplacementOutdatesClaims | backend/app/services/rbac.py:381 | The failing family: a granted role replacement outdates the claims of every live session and ends none |
| ClaimRuns.OpenedSessionsAreAccepted | backend/app/services/auth.py:365-376 | Every reply that opens a session carries a claim that is accepted at once |
| ClaimRuns.AcceptedExactly | backend/app/api/dependencies.py:54-81 | Under the invariant a signed claim is accepted if and only if it is within lifetime and leeway, the rows of its user and organization are active, its session runs in the machine, and no role replacement was recorded since its version |
| ClaimRuns.ClaimsExpire | backend/app/core/security.py:30-50 | No claim is accepted in any later state from lifetime plus leeway after the call that signed it |
| ClaimRuns.DisabledOrganizationStaysOut | backend/app/api/dependencies.py:60-66 | While an organization is disabled, over every run without the call that enables it, no claim of it is accepted, no session of it opened or renewed, no link sent and no password reset |
| ClaimRuns.DisablingShutsOut | backend/app/api/dependencies.py:60-66 | That holds from the call that disables it on |
| ClaimRuns.DisabledUserStaysOut | backend/app/api/dependencies.py:60-66 | The same for a disabled user until an administrator enables the account |
| ResetRuns.SpentForever | backend/app/services/auth.py:537-543 | A consumed reset link is refused without effect in every later state |
| ResetRuns.OneOpenLinkPerUser | backend/app/services/auth.py:483-493 | In every reachable state a user has at most one unconsumed reset link |
| ResetRuns.SupersededLinksAreSpent | backend/app/services/auth.py:579-588 | A newer request, a password change or a completed reset consumes every earlier link of the user |
| ResetRuns.LinkResetsOnce | backend/app/services/auth.py:511-564 | A link completes at most one reset in any run |
| ResetRuns.LinkResetsExactly | backend/app/services/auth.py:511-564 | The reply to a dispatched link after any run: invalid from its deadline on, once spent by a newer link, a change or a reset, or when user or organization is disabled; refused for the present password; otherwise it resets the password of the user it was sent for |
| ResetRuns.DispatchesExactly | backend/app/services/auth.py:459-508 | A link is sent if and only if the address is that of an active user of an active organization; any other request changes nothing |
| AuditTrail.GaplessExactly | backend/app/services/auth.py:591-610 | In a log whose stamps are true, the completed credential changes of a user carry 2, 3, ..., current if and only if no other entry moved the user |
| AuditRuns.AuditExplainsVersions | backend/app/services/auth.py:591-610 | In every reachable state each stamped entry carries the version its own prefix of the log adds up to, and the log adds up to the stored version |
| AuditRuns.CredentialChangesAreGapless | backend/app/services/auth.py:444-455 | In every reachable state the completed changes of a user carry 2, 3, ..., current if and only if no administrator ever moved the user |
| AuditRuns.AdministratorLeavesGap | backend/app/services/rbac.py:381 | One administrative move of a user breaks the numbering in every later state of every run |
| AuditRuns.GapExample | backend/app/services/rbac.py:381-397 | A run of four calls after which the only completed change of a user carries 3 |
| SessionMachine.ActiveIffLive | backend/app/services/auth.py:394-410 | The query agrees with the machine: live, owned, both deadlines in the future |
| SessionMachine.RotateRefines | backend/app/services/auth.py:300-376 | A presented token gets the machine's verdict and the table becomes the machine's next state |
| SessionMachine.StepRefines | backend/app/services/auth.py:260-410 | Every step is a step of the machine |
| SessionMachine.RunRefines | backend/app/services/auth.py:260-410 | Every run is a run of the machine |
| Browser.MoveKeeps | frontend/lib/api.ts:551-597 | Sending, handling and answering in any order keep: what the browser may present ends its chain, and no call waits for a refresh that is not on its way |
| Browser.SingleFlight | frontend/lib/api.ts:551-567 | Any number of concurrent 401s share one refresh, sent with the cookie of that moment, and other calls are not touched |
| BrowserCalls.WaitingCall | frontend/lib/api.ts:551-596 | Over every possible move a call that waits goes on waiting until the refresh is answered: renewed, it is sent again with the token the browser now holds; failed, it ends and the browser is signed out |
| BrowserCalls.CallEnds | frontend/lib/api.ts:581-596 | A call ends exactly by its answer, by a 401 to a retry or without a session, or by the failure of the refresh it waited for |
| BrowserCalls.CallsRunForward | frontend/lib/api.ts:569-597 | Over every run without a reload a call goes through its stages in order: at most one retry, with one token, that never waits again |
| BrowserCalls.BrowserHoldsOneSession | frontend/lib/api.ts:540-567 | In every interleaving each bearer token sent, first attempts and retries alike, was signed by the server, and the session the browser shows is that of its cookie |
| BrowserCalls.RefreshServesWaitingCalls | frontend/lib/api.ts:551-596 | In every interleaving, while the session of the presented cookie can be renewed, the answer lets every waiting call be sent again with a token of that session which the server accepts; otherwise every such call ends and the browser is signed out |
| BrowserCalls.SignInServesNextCall | frontend/components/auth-provider.tsx:61-69 | A successful login makes the browser hold that session, and the next call carries a token the server accepts |
| BrowserCalls.SignOutEndsSession | frontend/components/auth-provider.tsx:88-94 | Signing out ends the session of the cookie at the server; none of its claims is accepted, the next call carries no token and the next refresh no cookie |
| BrowserCalls.SendsWhatItHolds | frontend/lib/api.ts:569-580 | A call carries the session of the moment it is sent, and a refresh starts with the cookie of that moment |
| Browser.BrowserNeverTripsReuse | frontend/lib/api.ts:551-597 | In every interleaving the browser is answered "reused" only when the session had already ended, and then nothing changes |
| Browser.PresentedOnceWhileAlive | frontend/components/auth-provider.tsx:39-59 | Whatever mount, timer and 401 refreshes coincide, a token is presented again only after its session ended |
| Browser.CookieIsTailAtRest | backend/app/api/v1/auth.py:129-146 | With no refresh in flight the server knows the cookie, and it is the last token of its family's chain |
| Browser.PresentingTwiceEndsSession | backend/app/services/auth.py:315-322 | The converse: presenting a just-rotated token again ends the live session and leaves no audit row |
| PdfEscape.EscapeIsOnePass | backend/app/documents/quotation_pdf.py:34-36 | The three replacements in sequence equal escaping each character once |
| PdfEscape.LiteralRoundTrip | backend/app/documents/quotation_pdf.py:96-98 | For every text a literal-string reader stops exactly at the writer's closing parenthesis with the Latin-1 text, ends of line normalised |
| PdfEscape.TextSurvivesExactly | backend/app/documents/quotation_pdf.py:34-36 | That is the original text if and only if it is Latin-1 without carriage returns |
| PdfText.PaddedFits | backend/app/documents/quotation_pdf.py:118-119 | A number below 10^w fills w columns and reads back as itself |
| PdfObjects.ParsePrint | backend/app/documents/quotation_pdf.py:84-107 | For every object of names, numbers, references, arrays and dictionaries, a parser that allows any white space reads back what was printed and stops right behind it |
| PdfValues.PagesPrinted | backend/app/documents/quotation_pdf.py:86-89 | The page tree is the printed dictionary of type, kids in order and their number |
| PdfValues.PagePrinted | backend/app/documents/quotation_pdf.py:101-104 | A page is the printed dictionary of its five keys, its content reference included |
| PdfValues.LengthPrinted | backend/app/documents/quotation_pdf.py:105-107 | A stream is the printed dictionary of its true length and then its bytes |
| PdfValues.TrailerPrinted | backend/app/documents/quotation_pdf.py:120-124 | The trailer is the printed dictionary of size and root |
| PdfContents.ReadsContent | backend/app/documents/quotation_pdf.py:95-100 | An operator-by-operator reader that keeps the text state finds exactly the rows of the page, in 10 point F1 at x = 42, the first at y = 800 and each 14 below the one before |
| PdfFile.WriteObjects | backend/app/documents/quotation_pdf.py:108-114 | The loop writes all objects in order and records where each begins |
| PdfRoundTrip.StartsAsPdf | backend/app/documents/quotation_pdf.py:108 | Every file starts with a version line and a comment line of at least four bytes from 128 up, as section 7.5.2 of ISO 32000-1 asks |
| PdfFile.WriteFile | backend/app/documents/quotation_pdf.py:108-125 | Objects, table, trailer and start offset come out as the specified file |
| PdfWriter.PageContent | backend/app/documents/quotation_pdf.py:95-100 | The command loop yields the specified content stream |
| PdfWriter.AddPage | backend/app/documents/quotation_pdf.py:92-107 | One pass of the page loop adds the two objects of that page |
| PdfWriter.FillTable | backend/app/documents/quotation_pdf.py:83-107 | The page loop yields the specified object table |
| PdfWriter.ObjectsLookup | backend/app/documents/quotation_pdf.py:92-107 | Object numbers never collide: every page and every stream stands under its own number |
| PdfWriter.BuildPdf | backend/app/documents/quotation_pdf.py:82-125 | The method yields the specified file |
| PdfWriter.PaginationKeepsRows | backend/app/documents/quotation_pdf.py:76-79 | The pages joined are the rows, and every page but the last is full |
| PdfRoundTrip.ReadsEntry | backend/app/documents/quotation_pdf.py:118-119 | Every entry is twenty bytes and reads back as its offset |
| PdfRoundTrip.OpensWritten | backend/app/documents/quotation_pdf.py:115-124 | From the end of the file a reader finds the table, one entry per object at the object's offset, and the catalog |
| PdfRoundTrip.FindsObject | backend/app/documents/quotation_pdf.py:110-114 | The entry of each id leads to the header of that id and generation, with its body behind it |
| PdfDocuments.ReadsStream | backend/app/documents/quotation_pdf.py:105-107 | /Length is the true stream length |
| PdfDocuments.PdfRoundTrips | backend/app/documents/quotation_pdf.py:82-125 | For every list of pages a reader that demands the header and follows the table, the trailer and the references under their keys recovers all rows of all pages in order, each in 10 point Helvetica at its place on an A4 page |
| PdfDocuments.FindsFont | backend/app/documents/quotation_pdf.py:90 | The name the rows are set in leads through the resources of the page to a Type 1 font with the base font Helvetica |
| PdfSizes.ModerateRowsFit | backend/app/documents/quotation_pdf.py:108-119 | Twice the characters plus 20 for each row plus 1000 below 10^10 suffices for every offset to fit its ten digits |
| QuotationPdf.CutPages | backend/app/documents/quotation_pdf.py:76-79 | The slicing loop yields the specified pages |
| QuotationPdf.ListRows | backend/app/documents/quotation_pdf.py:49-75 | The row list grows to the specified rows |
| QuotationPdf.Render | backend/app/documents/quotation_pdf.py:48-80 | The method yields the file of the quotation's pages |
| QuotationPdf.RowPlace | backend/app/documents/quotation_pdf.py:76-79 | Row r stands on page r / 42 at line r % 42 |
| MoneyText.AmountRoundTrips | backend/app/documents/quotation_pdf.py:39-40 | An amount's text gives back its sign and its hundredths |
| MoneyText.CentsAreNearest | backend/app/documents/quotation_pdf.py:39-40 | The hundredths printed are nearest to the amount, the even ones of two equally near |
| MoneyText.TrailingZero | backend/app/documents/quotation_pdf.py:39-40 | However an amount is written, with more or fewer zeros at its end, it prints the same |
| MoneyText.HundredthsAreExact | backend/app/documents/quotation_pdf.py:39-40 | An amount in hundredths is printed as it is |
| MoneyText.CommasByThree | backend/app/documents/quotation_pdf.py:39-40 | Commas stand exactly at every fourth place from the right of the whole part |
| QuotationPdf.QuotationRoundTrips | backend/app/documents/quotation_pdf.py:48-125 | The reader gets the rows of any quotation in order, none missing, at most 42 on a page, all inside the page and none over another |
| QuotationPdf.ModerateQuotationRoundTrips | backend/app/documents/quotation_pdf.py:48-125 | The same from the lengths of the rows alone, without looking at the file |
| QuotationReading.QuotationReads | backend/app/documents/quotation_pdf.py:49-75 | A reader of the file finds every field of the quotation behind its label, the caption and the cents of every line in order, and behind each of the five total labels sign and cents of that total |
| RateLimiter.Limiter.EnforceFallback | backend/app/core/rate_limit.py:19-32 | The loop over the deque, the append and the eviction reach the specified table and answer |
| RateLimiter.Limiter.IncrementCounter | backend/app/core/rate_limit.py:42-44 | The counter restarts with a new expiry when absent or expired, else counts on |
| RateLimiter.Limiter.Check | backend/app/core/rate_limit.py:34-49 | Each path decides by its own table and leaves the other alone |
| RateLimit.PruningIsInvisible | backend/app/core/rate_limit.py:19-32 | Over every run the pruned deques give exactly the answers of the whole history |
| RateLimit.ExactWithoutEviction | backend/app/core/rate_limit.py:24-28 | While an entry is not evicted: accepted iff fewer than the limit of all acceptances ever lie in the window, and no window anywhere holds more |
| RateLimit.EntryWindowBound | backend/app/core/rate_limit.py:24-28 | No window of any position holds more than the limit of an entry's acceptances |
| RateLimit.RejectionIsDeserved | backend/app/core/rate_limit.py:26-32 | Eviction never causes a rejection: the refused key did use up its window |
| RateLimit.KeysDoNotInterfere | backend/app/core/rate_limit.py:23-28 | Without eviction a key's history depends on its own requests only |
| RateLimit.EvictionSparesCurrentKey | backend/app/core/rate_limit.py:29-32 | Whenever the map is over its size the current key was just inserted and is not the oldest, so the guard is true |
| RateLimit.ListedByAge | backend/app/core/rate_limit.py:30 | Keys are listed by the age of their entries, so eviction takes the oldest |
| RateLimit.RunSized | backend/app/core/rate_limit.py:23-32 | On all runs keys are listed once, deques stay within the limit, and with a limit of at least one the map within 10,000 keys |
| RateLimit.KeyBoundExactly | backend/app/core/rate_limit.py:26-32 | The bound on keys holds on all runs if and only if the limit is at least one |
| RateLimit.EvictsExactly | backend/app/core/rate_limit.py:29-32 | Only an accepted new key that finds 10,000 others evicts one, the first listed; any other call keeps every key |
| RateLimit.FewKeysAreExact | backend/app/core/rate_limit.py:19-32 | On every ordered run with at most 10,000 different keys the limiter is exact for each of them |
| RateLimit.CounterWindowBound | backend/app/core/rate_limit.py:41-49 | At most the limit per counter lifetime and at most twice the limit less one in any half-open window |
| RateLimit.CounterBoundIsReached | backend/app/core/rate_limit.py:41-49 | For every limit there is a run that reaches that bound |
| Permissions.BrowserAgreesExactly | frontend/lib/api.ts:515-520 | Both grant tests agree if and only if the code has a module, or is held itself, or `.manage` is not held |
| Permissions.GrantedExactly | backend/app/core/authorization.py:347-351 | A code is granted if and only if it is held or `manage` of its module is; one without a dot only if it is held |
| Permissions.EffectiveExactly | backend/app/services/auth.py:94-114 | Every effective code comes from an assigned role; with a staff role all of them count, without one only those the table names for an assigned role |
| Permissions.PortalCodes | backend/app/core/authorization.py:243-260 | The three portal roles and the codes open to each, by name |
| Permissions.EffectiveMonotone | backend/app/services/auth.py:94-114 | For any tables one more role never takes a code away, also across the portal boundary |
| Permissions.PortalUserPassesExactly | backend/app/core/authorization.py:347-351 | A portal-only user passes exactly for codes a role gives and the allowlists of its roles name |
| Permissions.PortalBoundaryExactly | backend/app/core/authorization.py:243-260 | Some portal-only user can pass a guard if and only if each of its groups has a code from the allowlists |
| Permissions.GroupsGeneralize | backend/app/api/dependencies.py:124-165 | Both forms of the code list guard, its error included, are cases of the group guard |
| Permissions.MoreRolesNeverLockOut | backend/app/api/dependencies.py:144-165 | A caller a guard admits is admitted after any further role is assigned |
| PricingValidation.ValidMatrix | backend/app/schemas/quotations.py:76-88 | The loop over the sorted list reports the first fault, and none exactly when all intervals are well formed and pairwise disjoint |
| PricingValidation.MatrixExactly | backend/app/schemas/quotations.py:78-87 | Comparing sorted neighbours decides the quadratic condition on the list as given |
| PricingValidation.OrderedSorts | backend/app/schemas/quotations.py:78 | The order used is ascending, has the same levels, and keeps disjointness both ways |
| PricingValidation.OneLevelPerPercent | backend/app/schemas/quotations.py:84-87 | In an accepted matrix every discount falls to at most one level |
| PricingValidation.UniqueCodesExactly | backend/app/schemas/quotations.py:132-149 | Accepted iff no component code repeats within or across the four groups and no tax code repeats, with the error that applies |
| Instream.SendFile | backend/app/security/malware.py:28-34 | Whatever sizes the reads have, the bytes after the command decode to the file and no earlier cut is complete |
| Instream.FramesRoundTrip | backend/app/security/malware.py:30-34 | For every chunking the receiver gets the file and stops exactly behind the terminator |
| Instream.CutStreamIsIncomplete | backend/app/security/malware.py:31-34 | No proper prefix is complete, so no data frame is taken for the terminator |

## Left out

- PdfDocuments.PdfRoundTrips: holds for files whose part before the table is below 10^10 bytes, the most ten-digit offsets can address; `PdfSizes.ModerateRowsFit` gives a bound on the rows. The reader covers what the writer uses: one cross-reference section, a flat page tree, a direct /Length, no filters, no negative or real numbers.
- QuotationPdf.QuotationRoundTrips: under the same bound on the size of the file. Amounts are finite decimals; NaN and infinity are not part of this model.
- QuotationReading.QuotationReads: under the same bound; a text outside Latin-1 or with carriage returns is found as `PdfEscape.TextSurvivesExactly` says.
- BrowserCalls.RefreshServesWaitingCalls: accepted when the answer arrives at once; what the server accepts after any delay is `ClaimRuns.AcceptedExactly`, since every token sent was signed by it (`BrowserCalls.BrowserHoldsOneSession`).
- Browser.BrowserNeverTripsReuse: one tab, whose refresh answers arrive; a reload happens while no refresh or sign-in is on its way. What a lost answer or a second tab does is `Browser.PresentingTwiceEndsSession`. Downloads, which refresh in the same way, are not separate calls.
- RateLimit.CounterWindowBound: both INCR and EXPIRE succeed; a Redis failure between them is not modelled, and a failure of the pair is the in-memory path.
- SessionRuns.DisablingEndsSessions: the administrative calls are steps on values, not methods of the class, and leave out tenant lookup, branch and permission checks, which only refuse.
- AuthInvariant.ReplaceRolesKeeps: the granted replacement only; the assignments themselves and the last-administrator check belong to role management.
- AuthInvariant.StepKeeps: a call is one transaction; interleaving inside a call, locks and rollback are not modelled.
- The `family_id` argument of `_create_session` is never passed by any caller, so every session opens a new family.
- Time stamps are exact numbers; rounding of `time.monotonic()` differences and of database columns is not modelled.
- SQLAlchemy, FastAPI, MySQL, cookies' attributes and origin checks, rate limiting of the auth routes.
- Password hashing, SHA-256 and JWT encoding: secrets are opaque, tokens are records of claims; the claims `nbf`, `jti`, `iss`, `aud` and `type` are constant and left out.
- User agent, IP address, request id and other columns that nothing reads back.
- The permission catalogue and the staff role templates: constants without behaviour.
- Field lengths, patterns and single-comparison validators of the schemas.
- Sockets, the scanner's verdict, file storage, mail, metrics, logging and middleware.
- Booking, hold, collection, lease and partner workflows, migrations, and all React components.
