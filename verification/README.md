# lucos_aithne: a verified model

lucos_aithne is a small OpenID Provider: a Go service over one SQLite file, with two in-memory timed
maps beside it. This project models what makes it hard to reason about, the timed, concurrent state
machine behind its token, enrolment and signing-key code, and proves its promises about every run.
`dafny verify dfyconfig.toml` checks everything.

## How the model is laid out

`World.dfy` is the running service as a state machine. `store.Open` allows one connection
(store/store.go:138), so one SQL statement, or one committed transaction, is one step; a transaction
holds the connection from Begin to Commit or Rollback. A `Run` is any legal sequence of steps by any
number of requests, with clock ticks and restarts between them. What a request keeps from one
statement to decide a later write is part of the world, under the request's number.

`Service.dfy` is the program: a class whose methods are the Store methods and the request handlers,
statement by statement. Before each statement is a `Yield`, at which any other requests may take any
number of steps until the connection is free; before a clock reading or a use of the in-memory maps,
which need no connection, is a `Drift`, which may leave another request's transaction open. Each
handler is proved to leave a run that shows, world by world, what it read and in what order, and, when
it refuses, the read that justifies the refusal; its contract says so on the columns of the rows read
and of the rows it leaves. The theorems about all runs are in the `*Runs.dfy` files and speak about
exactly those descriptions.

| file | contents |
|---|---|
| Wrappers.dfy, Ordering.dfy | Option and Result; ORDER BY |
| Rfc3339.dfy | whole-second timestamps, the calendar, RFC 3339 text and SQL text comparison |
| Schema.dfy, World.dfy, Steps.dfy | tables, the transition system, one-step effects |
| RowRuns.dfy | what stays: every row, until a statement names it |
| KeyRuns.dfy, KeyMaintenance.dfy | signing-key lifecycle; KEK migration and rekeying |
| GrantRuns.dfy, GrantQueries.dfy | the grants table as a set of triples; grant queries |
| CodeRuns.dfy, SessionRuns.dfy, TokenRuns.dfy | authorization codes, IdP sessions, the four mint paths |
| EnrolmentRuns.dfy | invite-gated enrolment, and how late a swap can land |
| CeremonyRuns.dfy | the pending enrolments of a run as operations on the ceremony store |
| Service.dfy, Bootstrap.dfy | store methods, handlers, startup and admin bootstrap |
| RateLimit.dfy, Ceremonies.dfy | the two timed maps, against history specifications |
| Scopes.dfy, ClientKeys.dfy, Reconcile.dfy, Base64Url.dfy | scope strings, CLIENT_KEYS, manifest reconcile, base64url |

## Assumptions

- `HashToken` and the secret hashes are injective (`Digest`), and generated identifiers and tokens
  were never generated before (`Fresh`).
- AES-GCM is ideal: a box opens under the KEK that sealed it and no other. A PKCS8 parse succeeds
  exactly on a raw key blob, and what a box holds is such a key. A token is what was minted: signing
  is unforgeable.
- The clock is an `int` of nanoseconds that never goes back and stays within four-digit years.
  Stored times are floored to the second; a code's expiry is formatted with the local offset
  (oidc.go:255), which names the same instant.
- The claims of a `Token` keep nanoseconds; a JWT truncates `iat` and `exp` to the second. Upper bounds
  on a token's life are proved for the longer, untruncated one. Where a bound is claimed exact, `exp` is
  the truncated claim (KeyRuns.Expiry) and must be in the future (docs/local-verification-contract.md:144).
- Library calls and other services (WebAuthn verification, session-cookie parsing, URI classification,
  the contact's e-mail address) are parameters: the result is given, any result is allowed. A failure
  inside a transaction is the parameter `fault`.
- `UpdateCredentialData` writes only rows that were read as passkeys, as its one caller does
  (webauthn.go:523-548). A run is of one binary, so its vocabulary does not change.

## Findings

- store/signing_key.go:46-60: `GetOrCreateActiveSigningKey` alone can leave two active keys
  (KeyRuns.TwoActiveKeysWithoutStartup). Exactly one active key in every reachable world is equivalent
  to having exactly one and no such call past its SELECT (KeyRuns.ServingIsExact). Startup establishes
  that on any table with at most one, and on one with more if and only if it rotates (Bootstrap.Boot).
- token/token.go:33-46: 30 minutes of verification window for 15 minutes of token life leave 15 for
  the delay from key read to stamp and the verifier's slack. Exactly: the delay rounded up to a whole
  second, plus slack, may be 15 minutes and one second, which flooring `exp` and the cutoff gives back.
  One nanosecond more, and a key read in the last nanosecond of a second is unlisted while a verifier
  still takes a token of it (KeyRuns.OverlapIff, and per instant KeyRuns.OverlapAtIff).
- store/grant.go:128-132: the first revoker's name on a grant can be lost only when two revocations
  overlap, and then it is (GrantRuns.RevokersOverlap, GrantRuns.OverlapOverwritesAttribution).
- store/store.go:666-671: the swap re-checks `used_at` but not the expiry, so an enrolment begun on a
  valid invite can consume it after its expiry. It lands at most 60 seconds and the two handlers' own
  delays after the begin's expiry check, and is in time for certain if and only if that much was left
  (EnrolmentRuns.SwapDeadline, EnrolmentRuns.InTimeIff).
- ratelimit.go:91-102: for one window the limiter lets through at most 2 * limit - 1 calls, one fewer
  than a fixed window is usually credited with, and for every limit and window some calls reach that
  (RateLimit.RateBoundIsTight).

## Model

| member | source | states |
|---|---|---|
| Rfc3339.TextOrder | store/signing_key.go:66-74 | SQLite's comparison of two RFC 3339 texts agrees with the order of the instants floored to the second, for all representable times |
| Rfc3339.StoredInstant | store/store.go:612-619 | parseTime of a stored timestamp, in either of its two formats, is the instant floored to the second |
| Rfc3339.WrongSeparator | store/store.go:614-618 | the RFC 3339 layout rejects the plain SQL format, so the fallback decides it |
| Rfc3339.DayNumberInvertsDateOf | store/store.go:614-619 | the calendar dates of the timestamps number the days without gap or repetition |
| World.RunEvolves | store/store.go:163-288 | over any run rows change only monotonically: use, revocation and retirement are never undone, owners, types, hashes and times do not change, identifiers are not reused |
| RowRuns.PrincipalStands | store/store.go:373-389 | a principal row is the same in every later world until it is deleted |
| RowRuns.CredentialStands | store/store.go:445-507 | a credential row is the same until it is itself revoked, deleted or its sign count stored, its principal deleted, or, for a passkey, its own principal re-enrolled |
| RowRuns.GrantStands | store/grant.go:126-137 | a grant row is the same until its own revocation or its principal's deletion |
| RowRuns.KeyStands | store/signing_key.go:86-112 | a key row is the same until a rotation, and a retired one for ever |
| RowRuns.SessionStands | store/store.go:782-821 | a session row is the same until it is revoked itself, or with all of its own principal's, or that principal is deleted |
| RowRuns.InviteStands | store/enrolment_invite.go:102-133 | an invite row is the same until its own revocation or a swap made for it |
| RowRuns.DeletionCascades | store/store.go:373-389 | deleting a principal deletes its credentials, grants, sessions and codes |
| Services.Service.GetOrCreateActiveSigningKey | store/signing_key.go:44-60 | the key returned was active in a world with the connection free; alone at startup it turns no active key into one and leaves one alone |
| Services.Service.CreateKey | store/signing_key.go:137-180 | the slow path inserts an active key sealed under the KEK, whatever ran between SELECT and INSERT |
| Services.Service.ListVerificationKeys | store/signing_key.go:62-80 | the answer is exactly the keys published at its query for the cutoff computed at its start, each once, newest first, or names a key that does not open |
| Services.Service.RotateSigningKey | store/signing_key.go:82-112 | exactly the new key is active at the commit |
| Services.Service.RotateSigningKeyIfOlderThan | store/signing_key.go:114-135 | rotates if and only if the key read is older than the limit at the check, with the caller's sub-second creation time or the stored second |
| Services.Service.StartSigningKeys | main.go:1704-1722 | on any table, exactly one active key results if and only if there was at most one or startup rotated; it rotates if and only if the active key it read, one of those on the table or the first, is older than 30 days by the clock read after; it cannot fail when every key opens |
| KeyRuns.RotationLeavesOne | store/signing_key.go:98-103 | a rotation leaves one active key whatever was active before |
| KeyRuns.OneActiveKeyForever | store/signing_key.go:46-60 | every world reachable from a started service, through any requests, rotations and restarts, has exactly one active key |
| KeyRuns.ServingIsExact | store/signing_key.go:46-60 | every run from a world has exactly one active key throughout if and only if the world has one and no request is about to insert another |
| KeyRuns.TwoActiveKeysWithoutStartup | store/signing_key.go:46-60 | without the startup sequence four steps of two requests give two active keys |
| KeyRuns.RetiredForever | store/signing_key.go:98-103 | a retired key never changes again |
| KeyRuns.NoGapForever | store/signing_key.go:86-112 | from an active key's created_at on, every instant lies in some key's stored [created_at, retired_at], in every later world |
| KeyRuns.NoGapSinceCreation | store/signing_key.go:86-112 | the same from the creation of any key in the run, the first one included |
| KeyRuns.PublishedMatchesText | store/signing_key.go:66-73 | the WHERE clause on texts selects exactly the rows of the clause on whole seconds |
| KeyRuns.RetiredAfterRead | store/signing_key.go:86-103 | a key read as active is retired, if ever, with a timestamp no older than the read |
| KeyRuns.Overlap | token/token.go:33-46 | the overlap theorem: a key read as active and used within `delay` is in every listing until token expiry + slack, in every interleaving, if delay + slack <= 15 min |
| KeyRuns.OverlapAtIff | store/signing_key.go:65-74 | for a key read at instant t, in every run from a sound database every listing computed before a token's whole-second exp + slack has the key, if and only if the second of t + delay, plus slack, is at most the second of t plus 15 min and 1 s |
| KeyRuns.OverlapIff | token/token.go:33-46 | over all instants that holds if and only if the delay rounded up to a whole second, plus slack, is at most 15 min and 1 s |
| KeyRuns.RetiredKeyLeaves | store/signing_key.go:62-80 | a retired key is listed until 30 minutes after retirement and gone 30 minutes and one second after |
| KeyMaintenance.SigningKeyTable.ReadPlaintext | store/signing_key.go:232-272 | the read loop queues exactly the plaintext rows, once each, or stops at a row that is neither sealed nor PKCS8 |
| KeyMaintenance.SigningKeyTable.UpdateQueued | store/signing_key.go:274-282 | after any number of updates exactly the rows updated are sealed, with their plaintext kept |
| KeyMaintenance.SigningKeyTable.MigrateSigningKeyEncryption | store/signing_key.go:220-283 | keeps the id-to-DER map cut short or not; an unreadable row aborts before any write, and only it does; completion seals every row and counts the plaintext rows; a rerun on a sealed table changes nothing and returns 0 |
| KeyMaintenance.SigningKeyTable.MigrateAcrossCrashes | store/signing_key.go:220-283 | crash after crash, the attempts' updates add up to the plaintext rows at the start and the last leaves every row sealed |
| KeyMaintenance.PlaintextLeft | store/signing_key.go:274-283 | after any prefix of the updates the plaintext rows left are the rest, and the keys are the same |
| KeyMaintenance.SigningKeyTable.StageRekey | store/signing_key.go:306-350 | stages a re-sealed blob with the same plaintext for every row if and only if all rows open and no scan fails |
| KeyMaintenance.SigningKeyTable.ApplyPending | store/signing_key.go:352-371 | all staged blobs are written or the table is unchanged, decided by the transaction's faults |
| KeyMaintenance.SigningKeyTable.RekeySigningKeys | store/signing_key.go:285-372 | all or nothing: every row opens under the new KEK to the same DER with all other columns kept, or nothing changed; success if and only if every row opened and no fault struck |
| KeyMaintenance.RekeyComposes | store/signing_key.go:301-372 | rekeyings compose, so a rekey there and back restores every plaintext |
| KeyMaintenance.KeysStayReadable | store/signing_key.go:146-180 | in any run from a sealed table every key opens under the service's KEK |
| Services.Service.CreateGrant | store/grant.go:73-109 | adds exactly one row, with these columns, and one triple to the set in force, or refuses with the reason: unknown scope, no principal, an active row for the triple |
| Services.Service.RevokeGrant | store/grant.go:111-137 | the SELECT decides between the errors and the UPDATE, which sets revoker and time on that row, whatever happened in between, and on no other |
| Services.Service.RevokeCredential | store/store.go:445-471 | the same two steps on a credential, and again on no other row |
| Services.Service.GetActiveScopes | store/grant.go:194-206 | returns each scope in force at its read exactly once, oldest grant first |
| GrantRuns.GrantTableRefinesSet | store/grant.go:77-137 | each step changes the set of triples in force exactly as the abstract operation does |
| GrantRuns.UniqueActiveForever | store/store.go:205-209 | at most one active row per (principal, scope, environment), in every reachable world |
| GrantRuns.InVocabularyForever | store/grant.go:77-80 | every grant in every reachable world is of a scope in the vocabulary |
| GrantRuns.NotGrantedUntilRegrant | store/grant.go:114-137 | a triple not in force stays so until an explicit grant of it |
| GrantRuns.DelayedRevokeSparesRegrant | store/grant.go:114-137 | a revocation delayed past a re-grant leaves the new row as it is |
| GrantRuns.AttributionStands | store/grant.go:128-132 | revoked_by and revoked_at stand until another UPDATE names the row |
| GrantRuns.RevokersOverlap | store/grant.go:114-137 | a second revoker's SELECT that sees the row active came before the first one's UPDATE |
| GrantRuns.OverlapOverwritesAttribution | store/grant.go:128-132 | when two revocations overlap the second name replaces the first |
| GrantQueries.ListGrants | store/grant.go:139-184 | returns exactly the selected rows, once each, with granted_at nondecreasing |
| GrantQueries.ActiveScopesExact | store/grant.go:194-206 | in one environment the scopes of the active rows are duplicate-free and are the triples in force |
| GrantQueries.ActiveScopes | store/grant.go:194-206 | the loop returns the scope of each active row of the principal and environment, once each, oldest first |
| GrantQueries.BlankEnvironmentRepeats | store/grant.go:139-184 | with a blank environment a scope held in two environments is listed twice |
| Services.Service.CreatePrincipal | store/store.go:302-324 | registers (class, external id) unless it is registered |
| Services.Service.GetPrincipalByExternalID | store/store.go:335-343 | finds the principal of that class and external id if and only if there is one at the read |
| Services.Service.ListCredentialsByPrincipal | store/store.go:431-443 | every row of the principal once, revoked ones included, and no other, oldest first |
| Services.Service.CreateIDPSession | store/store.go:707-736 | one new session for the principal, of 72 hours, or None when it is gone; no other row changes |
| Services.Service.GetIDPSessionByToken | store/store.go:738-780 | not found, revoked, expired or valid, as the row read and the clock read after it say |
| Services.Service.RevokeIDPSessionsForPrincipal | store/store.go:782-802 | exactly the sessions of that principal that were live become revoked, at the time taken, and are counted; every other session, and every other table, is as it was |
| Services.Service.RevokeIDPSessionByToken | store/store.go:804-821 | that session is revoked at return, unless it was already, and no other row changes |
| SessionRuns.RevokedForever | store/store.go:787-821 | a revoked session is never valid again |
| SessionRuns.SessionWasOpened | store/store.go:710-736 | a session row that was not there at the start was opened by a login |
| SessionRuns.OpenedOnce | store/store.go:710-736 | and by one only |
| SessionRuns.SessionAsCreated | store/store.go:705-736 | a session read anywhere is the one created, expiring 72 hours on, floored |
| SessionRuns.SessionStaysValid | store/store.go:705-780 | a session not revoked, alone or with its principal's, and whose principal is not deleted, is as the login left it, and its expiry check passes for 72 hours, floored |
| Services.SessionServes | remint.go:92-106 | so a re-mint refuses no such session before then: revoking another principal's sessions ends nobody else's |
| Services.Service.HasRedirectURI | store/oidc.go:42-49 | true if and only if the URI is registered, character by character |
| Services.Service.CheckAuthorize | oidc.go:126-197 | each refusal names what is wrong with the request; BadClient, the one not sent to the redirect URI, is exactly an unregistered client or URI, so no error goes to an unregistered URI |
| Services.Service.HandleAuthorize | oidc.go:104-269 | a well-formed signed-in request to a registered URI gets a code bound to client, URI, scope, nonce and the principal its session names, expiring five minutes after issue, unless that principal is gone; every other request gets exactly the refusal that applies |
| Services.Service.CreateOIDCAuthCode | store/oidc.go:174-192 | one fresh code row with exactly these columns |
| Services.Service.GetOIDCAuthCode | store/oidc.go:194-242 | reads without consuming; the error is the row's and the clock's |
| Services.Service.ConsumeOIDCAuthCode | store/oidc.go:244-314 | success is one commit on an unused, unexpired row; on failure no event consumes and the row shows why |
| CodeRuns.SingleUse | store/oidc.go:296-308 | a code is consumed at most once in any run |
| CodeRuns.CodeWasIssued | store/oidc.go:177-192 | a code row that was not there at the start was issued by an authorize request |
| CodeRuns.IssuedOnce | store/oidc.go:177-192 | and by one only |
| CodeRuns.BoundAtIssue | store/oidc.go:177-192 | a code row read anywhere is the one issued, except for used_at |
| CodeRuns.CheckedIsConsumed | oidc.go:359-390 | the row checked on the earlier read is the row consumed |
| CodeRuns.ConsumedInTime | store/oidc.go:292-294 | consumption passes its expiry check at most five minutes after issue |
| CodeRuns.CodeWaits | oidc.go:359-361 | until consumed or its principal deleted, a code stays as it is, whatever was rejected |
| CodeRuns.Redeemable | oidc.go:359-361 | a waiting code can be consumed up to one second short of five minutes |
| CodeRuns.ExpiryIsExact | store/oidc.go:185-186 | the expiry check compares with the stored second exactly |
| Services.Service.CheckCode | oidc.go:317-387 | every rejection before consumption, with the read that shows it, and nothing written |
| Services.Service.HandleAuthCodeGrant | oidc.go:271-496 | client id and secret come from the Basic header, in that order, or from the form, never both; success means they are a registered client's own and is a complete exchange (TokenRuns.Exchanged) of a code of that client and redirect URI, with the e-mail claim for people who asked; each refusal before consumption shows the column that justifies it and consumes nothing; after consumption only the principal's deletion or an unreadable key stops the mint |
| Services.Service.ReadForCode | oidc.go:404-452 | the ordered intersection of requested and granted scopes, and of requested and OIDC scopes |
| TokenRuns.OneExchangePerCode | oidc.go:389-402 | two exchanges of one code are the same consumption by the same request |
| TokenRuns.ExchangeIsBound | oidc.go:359-496 | exactly one authorize request issued the exchanged code, and client, redirect URI, principal (class and subject of both tokens), nonce and scopes are those bound there, consumed within five minutes |
| TokenRuns.OidcClaims | oidc.go:439-467 | the token keeps which of openid, profile and email the request asked for, and the e-mail claim is the contact's address if "email" is one of them and the principal is human, and empty otherwise |
| Services.Service.MintSession | token/token.go:105-170 | a token of this key, principal and scopes, expiring 15 minutes after its stamp |
| Services.Service.KeyAndMint | oidc.go:469-484 | the tail all paths share: key read before stamp, scopes in force at the scope read, or the key unreadable |
| Services.BlockedKeyIsUnreadable | store/signing_key.go:203-218 | when a path stops for its signing key, an active key read there does not open under the KEK |
| TokenRuns.RevocationTakesEffect | token/token.go:28-31 | once every grant row of a triple is revoked or gone, its scope is in no session token of any mint path unexpired 15 min + delay later, unless it is granted again, where delay bounds the time from scope read to stamp |
| TokenRuns.TokenKeyStaysPublished | token/token.go:33-46 | the key of any minted session token is in every listing until slack past its expiry, if the delay from key read to its stamp and slack are at most 15 min |
| TokenRuns.RevocationReachesIdToken | oidc.go:486-491 | the same for the scopes a relying party gates on: no ID token unexpired 15 min + delay later carries the scope, where delay bounds the time to the ID token's own, later stamp |
| TokenRuns.IdTokenKeyStaysPublished | token/token.go:312-360 | the key that signed an ID token is in every listing until slack past that token's own expiry, if the delay from key read to its stamp and slack are at most 15 min |
| Services.Service.Revalidate | remint.go:92-162 | the re-validation reads, in order, or the first that fails |
| Services.Service.HandleReMint | remint.go:71-195 | success if the session, principal and passkey rows passed their checks in order and the token carries exactly the scopes then in force (TokenRuns.ReMinted); otherwise the first failing check and the row that fails it; only a signing key may be written |
| Services.Service.AnyActiveWebAuthn | remint.go:150-156 | the flag is set if and only if some listed passkey is active |
| TokenRuns.NoReMintAfterRevocation | remint.go:101-106 | a successful re-mint read its session before any revocation of it |
| TokenRuns.NoPasskeyUntilEnrolment | store/store.go:637-664 | a principal without an active passkey stays so until an enrolment gives it one |
| TokenRuns.NoReMintWithoutPasskey | remint.go:142-162 | no re-mint reads credentials after every passkey of the principal is revoked or gone, short of a new enrolment |
| TokenRuns.SessionCeiling | store/store.go:701-717 | exactly one login opened the session of a re-minted token, which expires by 72 h + delay + 15 min after it |
| Services.Service.AuthenticateAgent | machine_credentials.go:171-209 | an agent of that slug with an unrevoked machine key of that hash; None only if there is no such agent, or every machine key it has of that hash is revoked |
| Services.Service.ReadAgentScopes | machine_credentials.go:211-233 | accepted if and only if every requested scope is granted; the refused scope is requested and not granted |
| Services.Service.HandleClientCredentials | machine_credentials.go:143-259 | a token for that agent on an unrevoked machine key of that hash, with the requested scopes, or the whole grant when the parameter is blank, and a scope field that parses back to them given a vocabulary without white space; each refusal with the rows that justify it |
| TokenRuns.ResponseScopeParses | machine_credentials.go:211-258 | in every run the scope field of a client_credentials response parses to exactly the scopes minted, given a vocabulary without white space |
| TokenRuns.NoKeyUntilProvisioned | machine_credentials.go:191-204 | an agent without an active machine key of this secret stays so until one is provisioned |
| TokenRuns.NoAgentTokenWithoutKey | machine_credentials.go:191-204 | no agent token comes from a credential read after every machine key of the agent with that hash is revoked or gone, short of provisioning it again |
| Services.Service.FinishLogin | webauthn.go:459-503 | sign count stored, token minted for the principal the ceremony read with exactly its scopes then in force, IdP session opened for it; only a deleted principal loses the session |
| Services.Service.CreateInvite | store/enrolment_invite.go:37-61 | one new invite for the contact, unused and good for 24 hours; no other row changes |
| Services.Service.GetInviteByRawToken | store/enrolment_invite.go:63-86 | not found, used, expired or valid, as the row and the later clock say; no table changes |
| Services.Service.RevokeInviteByHash | store/enrolment_invite.go:102-133 | success is the guarded UPDATE of that invite and of no other row; a lost race reports used |
| Services.Service.HandleEnrolBegin | enrolment.go:513-601 | success leaves a pending ceremony with the invite's own contact for 60 seconds; no table changes; each refusal with its reason |
| Services.Service.TakeCeremony | webauthn.go:155-169 | one-time: the contact of the pending unexpired ceremony, gone afterwards |
| Services.Service.HandleEnrolFinish | enrolment.go:603-675 | success is the whole swap for this token (EnrolmentRuns.Swapped); any failure changes no table and has its reason in the rows read |
| Services.Service.ReplaceWebAuthnCredentialAndConsumeInvite | store/store.go:628-697 | one commit that swaps and consumes, or no change at all |
| EnrolmentRuns.OneTerminalEvent | store/store.go:666-683 | an invite ends at most once, by finish or by revocation, in any interleaving |
| EnrolmentRuns.BoundThroughout | webauthn.go:68-75 | every in-flight and pending ceremony carries its own invite's contact, in every reachable world |
| EnrolmentRuns.ReplaceSwaps | store/store.go:628-697 | the contact's human principal has exactly the new passkey, machine keys and other principals untouched, one invite used, no other table changed |
| EnrolmentRuns.PasskeysComeFromInvites | store/store.go:628-697 | every passkey row that appears in any run came with such a swap |
| EnrolmentRuns.SwapHasCeremony | enrolment.go:545-669 | every swap in a run ends one ceremony: a begin that passed its checks put it, this finish took it within 60 seconds |
| EnrolmentRuns.SwapDeadline | store/enrolment_invite.go:77-84 | the swap lands at most 60 seconds and the two delays after the begin's expiry check, so as much after the expiry |
| EnrolmentRuns.InTimeIff | store/store.go:666-671 | from a valid invite no run swaps after its expiry if and only if 60 seconds and both delays are left at the begin's check |
| RateLimit.KeyedLimiter.Allow | ratelimit.go:87-102 | decision and count are a function of this key's own call times |
| RateLimit.KeyedLimiter.SweepExpired | ratelimit.go:104-115 | deletes exactly the expired entries |
| RateLimit.Simulation | ratelimit.go:91-115 | a swept map and one never swept agree on a key up to expired entries, after any operations |
| RateLimit.SweepsAndOtherKeysUnobservable | ratelimit.go:87-115 | inserting or removing sweeps, or changing other keys' calls, changes no answer a key gets |
| RateLimit.CountIsCallsInWindow | ratelimit.go:87-102 | the count is exactly the number of calls since the window opened |
| RateLimit.NeverRefusedWithinLimit | ratelimit.go:77-102 | a key that never makes more than limit calls in a closed window-long interval is never refused |
| RateLimit.FreshWindow | ratelimit.go:91-98 | a call with no earlier one within the window is allowed and counts as the first, whatever the limit |
| RateLimit.RateBound | ratelimit.go:77-102 | at most limit * (ceil(L/W) + 1) - 1 allowed calls in any closed interval of length L > 0 |
| RateLimit.RateBoundOverRuns | ratelimit.go:77-115 | the same over any operations of the limiter, sweeps and other keys' calls included |
| RateLimit.RateBoundIsTight | ratelimit.go:91-102 | for every limit and window some calls reach the bound for one window, 2 * limit - 1 |
| Ceremonies.CeremonyStore.Put | webauthn.go:104-117 | replaces any pending ceremony of the key; its cleanup and the other map are unobservable |
| Ceremonies.CeremonyStore.Take | webauthn.go:119-134 | returns v if and only if v is the latest put, not taken since, at most 60 seconds old |
| Ceremonies.CeremonyStore.PutEnrol | webauthn.go:136-153 | the same for enrolments, carrying the contact |
| Ceremonies.CeremonyStore.TakeEnrol | webauthn.go:155-169 | the same for enrolments |
| Ceremonies.CeremonyStore.SweepExpired | webauthn.go:84-102 | removes exactly the expired entries of both maps |
| Ceremonies.AgreesStep | webauthn.go:88-169 | every operation, at any clock readings, keeps a map in agreement with its history |
| Ceremonies.LoginHistory | webauthn.go:104-134 | what a login take is due follows call by call: a put makes its value due for 60 seconds, a take leaves nothing due, any other call changes nothing |
| Ceremonies.EnrolHistory | webauthn.go:136-169 | the same for enrolments |
| Ceremonies.SweepsUnobservable | webauthn.go:84-117 | the same puts and takes get the same answers whatever is swept between them |
| CeremonyRuns.PendingFollowsStore | webauthn.go:84-169 | between restarts the pending enrolments of a run are the enrolment map after the store operations of its requests |
| CeremonyRuns.PendingIsDue | webauthn.go:155-169 | so a finish finds a contact exactly when the latest put of its invite carried it, untaken and at most 60 seconds old |
| Bootstrap.BootstrapAdmin | main.go:247-300 | ends with the principal and, unless it has a passkey row, revoked or not, or the vocabulary lacks the scope, an active aithne:admin grant; grants are untouched in the other case, and the other tables always |
| Bootstrap.BootstrapTwice | main.go:247-300 | bootstrapping twice leaves the tables of bootstrapping once |
| Bootstrap.RowsDecideGate | main.go:270-284 | the gate looks at every passkey row, revoked ones included |
| Bootstrap.ThroughGateShows | main.go:270-298 | each grant a startup makes is of aithne:admin, by "bootstrap", to a principal without a passkey row at an earlier read of that startup |
| Bootstrap.SettledShows | main.go:247-300 | what a startup with a bootstrap contact leaves: that human principal, with a passkey row or an active aithne:admin grant in this environment, if the vocabulary has the scope |
| Bootstrap.GateStaysClosed | main.go:270-284 | once there is a passkey row only a deletion opens the gate: revocation and re-enrolment do not |
| Bootstrap.RevokedAdminStaysRevoked | main.go:252-300 | from then on no number of restarts brings a revoked aithne:admin back without an explicit grant |
| Bootstrap.FirstBootIsSound | store/store.go:163-246 | a fresh database meets every condition the theorems put on the start of a run |
| Bootstrap.Startup | main.go:1704-1733 | keys, bootstrap, clients, then listening; it rotates if and only if the active key read is older than 30 days, and serves with one active key if and only if there was at most one or it rotated, with the bootstrap settled and the clients reconciled |
| Bootstrap.Boot | main.go:1692-1733 | migration included, a process starts if and only if every key row is sealed under the KEK or legacy plaintext, and rotates by the age of an active key of the table it was given |
| Bootstrap.RestartService | main.go:1692-1733 | a restart inside a run always comes back on a sealed table, rotates by the same rule, and grants only through the gate |
| Reconcile.FilterRedirectURIsForEnvironment | main.go:376-398 | drops exactly the loopback URIs, and none in development |
| Reconcile.ClientTable.UpsertOIDCClient | store/oidc.go:94-120 | inserts or overwrites the row, keeping created_at |
| Reconcile.ClientTable.ReconcileOIDCClients | main.go:400-451 | an unparseable or empty manifest changes nothing; otherwise the entries whose upsert does not fail are applied in order |
| Reconcile.NeverWipes | main.go:403-412 | ids only grow, and a client without an eligible entry is not touched |
| Reconcile.RowIsLastEligible | main.go:425-451 | a reconciled row is what the last eligible entry says, with created_at kept |
| Reconcile.ReconciledColumns | main.go:425-451 | column by column: the hash of the CLIENT_KEYS secret of that client, the name, the redirect URIs that the filter keeps in manifest order, and created_at kept |
| Reconcile.ReconcileLeavesAlone | main.go:425-451 | a client none of whose entries has a secret, a redirect URI left and a successful upsert keeps its row or stays unregistered |
| Bootstrap.DeclaredSecretAuthenticates | main.go:419-445 | after a startup such a client authenticates at the token endpoint with the secret CLIENT_KEYS gives it and with no other |
| Reconcile.NoLoopbackOutsideDevelopment | main.go:376-398 | outside development no reconciled row holds a loopback URI |
| Reconcile.ReconcileIsIdempotent | store/oidc.go:94-120 | running twice is running once, duplicates in the manifest included |
| ClientKeys.ParseClientKeysBySystem | main.go:319-354 | the loop computes the fold of the entry parser over the split string |
| ClientKeys.ParseConcat | main.go:328-354 | parse(a + ";" + b) is parse(a) overridden by parse(b), for all strings |
| ClientKeys.EntryFields | main.go:331-352 | any entry with a colon before its first equals sign gives the trimmed text before the first colon and the trimmed text after the first equals sign up to a bar, and is dropped exactly when one of them is blank |
| ClientKeys.EntryWithoutFields | main.go:331-343 | any other entry is dropped |
| ClientKeys.TrimCore | main.go:331-346 | trimming removes exactly the white space at both ends |
| ClientKeys.ParseInvertsRenderAll | main.go:319-354 | a rendered list of well-formed entries, with any white space around their fields, parses back to the trimmed ones, the last of a system winning |
| ClientKeys.LastEntryWins | main.go:352 | the secret kept for a system is its last entry's |
| Scopes.ParseScopeParam | machine_credentials.go:115-132 | the loop computes the first occurrences of the fields |
| Scopes.FieldsAreRuns | machine_credentials.go:115-132 | on any string the fields are its maximal runs of characters that are not white space, in order, and all of them |
| Scopes.ParseKeepsOrder | machine_credentials.go:115-132 | a token seen before another's first occurrence is listed before it |
| Scopes.ParseInvertsJoinIff | machine_credentials.go:115-132 | a scope list joined with spaces parses back to itself if and only if it is duplicate-free and its items are non-empty and free of white space |
| Scopes.ParseIdempotent | machine_credentials.go:115-132 | parsing its own output changes nothing; the result is duplicate-free and has the fields of the string |
| Scopes.IntersectScopes | oidc.go:430-452 | the ordered intersection |
| Scopes.NarrowElements | oidc.go:425-437 | the result holds exactly the scopes both requested and granted, none twice |
| Scopes.NarrowKeepsOrder | oidc.go:425-452 | and exactly at the positions of the request that are granted, in order |
| Scopes.ClientScopes | machine_credentials.go:219-233 | success on scope if and only if requested is a subset of granted |
| Base64Url.B64urlToBytes | static/aithne.js:5-12 | the padding loop ends at a length divisible by four and the bytes are what atob makes of it |
| Base64Url.BytesToB64url | static/aithne.js:14-19 | the URL-safe text of the bytes, unpadded |
| Base64Url.GroupIsBigEndian | static/aithne.js:14-19 | three bytes, read as one big-endian number, are four base-64 digits (section 4 of RFC 4648) |
| Base64Url.UrlAlphabetStep | static/aithne.js:14-19 | character by character, - stands for +, _ for / and padding is dropped |
| Base64Url.PaddingRestored | static/aithne.js:5-19 | decoding restores exactly the '=' stripped, and the text is URL-safe |
| Base64Url.RoundTrip | static/aithne.js:5-19 | every byte sequence survives the round trip |
| Base64Url.DecodesIff | static/aithne.js:5-12 | a URL-alphabet text decodes if and only if its length is not one over a multiple of four |
| Base64Url.EncodesBackIff | static/aithne.js:5-19 | re-encoding gives the same text if and only if no bits were left over |

## Left out

- Services.Service.GetOrCreateActiveSigningKey: which of several active keys `LIMIT 1` returns is left open; any will do.
- The rate limiter inside the handlers: a refused call returns before any statement.
- Driver and entropy errors outside the faults named above, and scan errors.
- The oidc_clients table is written at startup only; the handlers see it as a constant, as no route writes it.
- `IsValid` on invites and sessions, `GetCredential`, `GetGrant`, `ListPrincipals`, the admin listings and `scopes.yaml`: field copying.
- JWT, ECDSA, CBOR and JSON encodings, `BuildVerificationKeySet`, cookies, CORS, redirects, templates, page scripts and logging.
- Who is named on a credential when two revocations overlap; the statements are those for grants.
