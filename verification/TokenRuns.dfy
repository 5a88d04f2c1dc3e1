/** What a minted token says about the run it was minted in, on each of the four mint paths,
    and the revocation bounds that follow. A path is described by the worlds its reads saw. */
module TokenRuns {
  import opened Wrappers
  import opened Rfc3339
  import opened Schema
  import opened Scopes
  import opened World
  import opened Steps
  import opened KeyRuns
  import opened GrantRuns
  import opened CodeRuns
  import opened SessionRuns

  datatype Token = Token(kid: Id, subject: string, klass: PrincipalClass, scopes: seq<string>,
                         oidcScopes: seq<string>, issuedAt: int, expiresAt: int)

  datatype IdToken = IdToken(kid: Id, subject: string, audience: string, klass: PrincipalClass, nonce: string,
                             scopes: seq<string>, email: string, issuedAt: int, expiresAt: int)

  /** Worlds in which the grants were read, the active key was read, and `iat` was taken. */
  datatype MintPoints = MintPoints(scopes: nat, key: nat, mint: nat)

  /** GetActiveScopes' answer as a set: each scope in force once. */
  ghost predicate ScopesInForce(grants: map<Id, Grant>, p: Id, environment: string, scopes: seq<string>) {
    NoDuplicates(scopes) && forall s :: s in scopes <==> Granted(grants, p, s, environment)
  }

  /** What the four paths share: read the grants, read the key, stamp. */
  ghost predicate Minted(run: Run, at: MintPoints, p: Id, environment: string, tok: Token) {
    && at.scopes <= at.key <= at.mint < |run.worlds|
    && (forall s :: s in tok.scopes ==> Granted(run.worlds[at.scopes].db.grants, p, s, environment))
    && run.worlds[at.key].tx == None && ActiveKey(run.worlds[at.key].db.keys, tok.kid)
    && tok.issuedAt == run.worlds[at.mint].now && tok.expiresAt == tok.issuedAt + TOKEN_TTL
  }

  predicate Names(w: World, p: Id, klass: PrincipalClass, externalId: string) {
    p in w.db.principals && w.db.principals[p] == Principal(klass, externalId)
  }

  // ---- Revocation window ----

  /** A grant revoked, or never made, at world `r` and not re-granted since is in no token that is
      unexpired 15 min + delay after `r`, where `delay` bounds the time from scope read to stamp. */
  lemma RevocationTakesEffect(run: Run, r: nat, at: MintPoints, p: Id, scope: string, environment: string,
                              tok: Token, delay: int)
    requires run.Legal() && r < |run.worlds| && AllIssued(run.worlds[0])
    requires var grants := run.worlds[r].db.grants;
      forall id | id in grants && grants[id].principal == p && grants[id].scope == scope
                  && grants[id].environment == environment :: grants[id].revoked.Some?
    requires forall k | r <= k < |run.events| && run.events[k].step.AddGrant? ::
      run.events[k].step.principal != p || run.events[k].step.scope != scope
      || run.events[k].step.environment != environment
    requires Minted(run, at, p, environment, tok) && scope in tok.scopes
    requires tok.issuedAt <= run.worlds[at.scopes].now + delay
    ensures at.scopes < r
    ensures tok.expiresAt <= run.worlds[r].now + 15 * MINUTE + delay
  {
    hide Apply, Enabled;
    AllIssuedThroughout(run, 0, r);
    assert !Granted(run.worlds[r].db.grants, p, scope, environment);
    if r <= at.scopes {
      NotGrantedUntilRegrant(run, r, at.scopes, p, scope, environment);
    } else {
      AllIssuedThroughout(run, 0, at.scopes);
      RunEvolves(run, at.scopes, r);
    }
  }

  /** Every scope of a token unexpired at `t` was in force at an instant after t - 15 min - delay. */
  lemma UnexpiredScopeWasInForce(run: Run, at: MintPoints, p: Id, environment: string, tok: Token, t: int, delay: int)
    requires Minted(run, at, p, environment, tok) && t < tok.expiresAt
    requires tok.issuedAt <= run.worlds[at.scopes].now + delay
    ensures t - 15 * MINUTE - delay < run.worlds[at.scopes].now
    ensures forall s :: s in tok.scopes ==> Triple(p, s, environment) in InForce(run.worlds[at.scopes].db.grants)
  {
    forall s | s in tok.scopes ensures Triple(p, s, environment) in InForce(run.worlds[at.scopes].db.grants) {
      InForceIsGranted(run.worlds[at.scopes].db.grants, p, s, environment);
    }
  }

  /** The key that signed a token is in every key listing until `slack` past the token's expiry. */
  lemma TokenKeyStaysPublished(run: Run, at: MintPoints, p: Id, environment: string, tok: Token,
                               c: nat, q: nat, delay: int, slack: int)
    requires run.Legal() && AllIssued(run.worlds[0]) && Minted(run, at, p, environment, tok)
    requires tok.issuedAt <= run.worlds[at.key].now + delay && delay + slack <= 15 * MINUTE
    requires c <= q < |run.worlds| && at.key <= q && run.worlds[c].now <= tok.expiresAt + slack
    ensures tok.kid in run.worlds[q].db.keys && Published(run.worlds[q].db.keys[tok.kid], run.worlds[c].now)
  {
    hide Apply, Enabled;
    AllIssuedThroughout(run, 0, at.key);
    RunEvolves(run, at.key, q);
    assert Uses(run, at.key, at.mint, c, q, tok.kid, run.worlds[at.key].now, delay, slack);
    Overlap(run, at.key, at.mint, c, q, tok.kid, delay, slack);
  }

  // ---- Silent re-mint ----

  datatype ReMintPoints = ReMintPoints(session: nat, clock: nat, principal: nat, credentials: nat, mint: MintPoints)

  /** The synchronous re-validation: the session read unrevoked, unexpired by a later clock, its
      principal present, and one of the principal's passkeys active. */
  ghost predicate Revalidated(run: Run, at: ReMintPoints, raw: string, p: Id, klass: PrincipalClass,
                              externalId: string) {
    && at.session <= at.clock <= at.principal <= at.credentials < |run.worlds|
    && Digest(raw) in run.worlds[at.session].db.sessions
    && var s := run.worlds[at.session].db.sessions[Digest(raw)];
    && s.principal == p && s.revokedAt == None && run.worlds[at.clock].now <= s.expiresAt
    && Names(run.worlds[at.principal], p, klass, externalId)
    && HasActiveWebAuthn(run.worlds[at.credentials].db.credentials, p)
  }

  ghost predicate ReMinted(run: Run, at: ReMintPoints, raw: string, p: Id, environment: string, tok: Token) {
    && Revalidated(run, at, raw, p, tok.klass, tok.subject)
    && at.credentials <= at.mint.scopes < |run.worlds|
    && ScopesInForce(run.worlds[at.mint.scopes].db.grants, p, environment, tok.scopes)
    && tok.oidcScopes == []
    && Minted(run, at.mint, p, environment, tok)
  }

  /** A successful re-mint read its session before any revocation of it. */
  lemma NoReMintAfterRevocation(run: Run, r: nat, at: ReMintPoints, raw: string, p: Id, environment: string, tok: Token)
    requires run.Legal() && r < |run.worlds| && AllIssued(run.worlds[0])
    requires Digest(raw) in run.worlds[r].db.sessions && run.worlds[r].db.sessions[Digest(raw)].revokedAt.Some?
    requires ReMinted(run, at, raw, p, environment, tok)
    ensures at.session < r
  {
    hide Apply, Enabled;
    if r <= at.session {
      RevokedForever(run, r, at.session, Digest(raw));
    }
  }

  predicate ReplacesPasskeyOf(w: World, e: Event, p: Id) {
    e.step.CommitReplace? && e.actor in w.locals && w.locals[e.actor].ReplacingPasskey?
    && w.locals[e.actor].principal == p
  }

  lemma NoPasskeyStep(w: World, e: Event, p: Id)
    requires AllIssued(w) && Enabled(w, e) && !HasActiveWebAuthn(w.db.credentials, p)
    ensures ReplacesPasskeyOf(w, e, p) || !HasActiveWebAuthn(Apply(w, e).db.credentials, p)
  {
    hide Apply, Enabled;
    var after := Apply(w, e).db.credentials;
    forall id | id in after && ActiveWebAuthn(after[id], p) ensures ReplacesPasskeyOf(w, e, p) {
      if e.step.CommitReplace? {
        ReplaceCredentials(w, e);
      } else {
        OtherCredentials(w, e, id);
      }
      assert id in w.db.credentials ==> !ActiveWebAuthn(w.db.credentials[id], p);
    }
  }

  lemma {:induction false} NoPasskeyUntilEnrolment(run: Run, r: nat, i: nat, p: Id)
    requires run.Legal() && r <= i < |run.worlds| && AllIssued(run.worlds[r])
    requires !HasActiveWebAuthn(run.worlds[r].db.credentials, p)
    requires forall k | r <= k < i :: !ReplacesPasskeyOf(run.worlds[k], run.events[k], p)
    ensures !HasActiveWebAuthn(run.worlds[i].db.credentials, p)
  {
    hide Apply, Enabled;
    if r < i {
      NoPasskeyUntilEnrolment(run, r, i - 1, p);
      AllIssuedThroughout(run, r, i - 1);
      NoPasskeyStep(run.worlds[i - 1], run.events[i - 1], p);
    }
  }

  /** Once a principal's last active passkey is gone, only a new enrolment lets a re-mint succeed. */
  lemma NoReMintWithoutPasskey(run: Run, r: nat, at: ReMintPoints, raw: string, p: Id, environment: string, tok: Token)
    requires run.Legal() && r < |run.worlds| && AllIssued(run.worlds[0])
    requires ReMinted(run, at, raw, p, environment, tok)
    requires var credentials := run.worlds[r].db.credentials;
      forall id | id in credentials && credentials[id].principal == p && credentials[id].kind == WebAuthn ::
        credentials[id].revoked.Some?
    requires forall k | r <= k < |run.events| :: !ReplacesPasskeyOf(run.worlds[k], run.events[k], p)
    ensures at.credentials < r
  {
    hide Apply, Enabled;
    assert !HasActiveWebAuthn(run.worlds[r].db.credentials, p);
    if r <= at.credentials {
      AllIssuedThroughout(run, 0, r);
      NoPasskeyUntilEnrolment(run, r, at.credentials, p);
    }
  }

  /** Every token re-minted from a session was opened by exactly one login, and expires by 72 h + delay
      + 15 min after it. */
  lemma SessionCeiling(run: Run, at: ReMintPoints, raw: string, p: Id, environment: string, tok: Token, delay: int)
    returns (k: nat)
    requires run.Legal() && AllIssued(run.worlds[0]) && Digest(raw) !in run.worlds[0].db.sessions
    requires ReMinted(run, at, raw, p, environment, tok)
    requires tok.issuedAt <= run.worlds[at.clock].now + delay
    ensures k < at.session && Opens(run.events[k].step, Digest(raw)) && run.events[k].step.principal == p
    ensures forall j | 0 <= j < |run.events| && Opens(run.events[j].step, Digest(raw)) :: j == k
    ensures tok.expiresAt <= run.events[k].step.at + 72 * HOUR + delay + 15 * MINUTE
  {
    hide Apply, Enabled;
    k := SessionWasOpened(run, at.session, Digest(raw));
    SessionAsCreated(run, k, at.session);
    forall j | 0 <= j < |run.events| && Opens(run.events[j].step, Digest(raw))
      ensures j == k
    {
      OpenedOnce(run, j, k, Digest(raw));
    }
  }

  // ---- Authorization-code exchange ----

  const OIDC_SCOPES: seq<string> := ["openid", "profile", "email"]

  datatype TokenRequest = TokenRequest(code: string, client: string, secret: string, redirectUri: string)

  /** `consume` is an event of the run; the others are worlds. `granted` is what GetActiveScopes returned,
      `email` the contact's primary email, "" if the contacts service has none or does not answer. */
  datatype ExchangePoints = ExchangePoints(read: nat, clock: nat, consume: nat, principal: nat,
                                           granted: seq<string>, email: string, mint: MintPoints, idMint: nat)

  /** The email claim is for people who asked for it. */
  function EmailClaim(klass: PrincipalClass, oidcScopes: seq<string>, email: string): string {
    if klass == Human && "email" in oidcScopes then email else ""
  }

  /** What is minted for a consumed row: the ordered intersection of requested and granted scopes
      in both tokens, the ID token for the client, with the nonce of the request. */
  ghost predicate CodeTokens(run: Run, row: Code, client: string, environment: string, principal: nat,
                             granted: seq<string>,
                             email: string, mint: MintPoints, idMint: nat, tok: Token, idTok: IdToken) {
    && principal <= mint.scopes <= mint.mint <= idMint < |run.worlds|
    && Names(run.worlds[principal], row.principal, tok.klass, tok.subject)
    && ScopesInForce(run.worlds[mint.scopes].db.grants, row.principal, environment, granted)
    && tok.scopes == Narrow(ParseScope(row.scope), granted)
    && tok.oidcScopes == Narrow(ParseScope(row.scope), OIDC_SCOPES)
    && Minted(run, mint, row.principal, environment, tok)
    && idTok == IdToken(tok.kid, tok.subject, client, tok.klass, row.nonce, tok.scopes,
                        EmailClaim(tok.klass, tok.oidcScopes, email),
                        run.worlds[idMint].now, run.worlds[idMint].now + TOKEN_TTL)
  }

  ghost predicate Exchanged(run: Run, at: ExchangePoints, actor: nat, request: TokenRequest, environment: string,
                            tok: Token, idTok: IdToken) {
    && at.read <= at.clock <= at.consume < at.principal < |run.worlds| && |run.worlds| == |run.events| + 1
    && Digest(request.code) in run.worlds[at.read].db.codes
    && var row := run.worlds[at.read].db.codes[Digest(request.code)];
    && row.usedAt == None && run.worlds[at.clock].now <= row.expiresAt
    && row.client == request.client && row.redirectUri == request.redirectUri
    && run.events[at.consume].actor == actor && Consumes(run.events[at.consume].step, Digest(request.code))
    && CodeTokens(run, row, request.client, environment, at.principal, at.granted, at.email, at.mint,
                  at.idMint, tok, idTok)
  }

  /** The principal whose code an exchange consumed. */
  ghost function ExchangedFor(run: Run, at: ExchangePoints, request: TokenRequest): Id
    requires at.read < |run.worlds| && Digest(request.code) in run.worlds[at.read].db.codes
  {
    run.worlds[at.read].db.codes[Digest(request.code)].principal
  }

  /** Where the scopes and the key of the ID token were read, and where its own `iat` was taken. */
  function IdMintPoints(at: ExchangePoints): MintPoints { at.mint.(mint := at.idMint) }

  /** The ID token's scopes, key and times are those of a session token stamped at its own `iat`. */
  lemma IdTokenIsMinted(run: Run, at: ExchangePoints, actor: nat, request: TokenRequest, environment: string,
                        tok: Token, idTok: IdToken)
    requires Exchanged(run, at, actor, request, environment, tok, idTok)
    ensures var stamped := tok.(issuedAt := idTok.issuedAt, expiresAt := idTok.expiresAt);
      && idTok.scopes == stamped.scopes && idTok.kid == stamped.kid
      && Minted(run, IdMintPoints(at), ExchangedFor(run, at, request), environment, stamped)
  {
  }

  /** A relying party authenticates by the ID token, and its clock is later: a revoked scope is in no ID
      token unexpired 15 min + delay after the revocation, where `delay` bounds the time from scope read
      to the ID token's own stamp. */
  lemma RevocationReachesIdToken(run: Run, r: nat, at: ExchangePoints, actor: nat, request: TokenRequest,
                                 environment: string, tok: Token, idTok: IdToken, scope: string, delay: int)
    requires run.Legal() && r < |run.worlds| && AllIssued(run.worlds[0])
    requires Exchanged(run, at, actor, request, environment, tok, idTok) && scope in idTok.scopes
    requires var grants := run.worlds[r].db.grants;
      forall id | id in grants && grants[id].principal == ExchangedFor(run, at, request)
                  && grants[id].scope == scope && grants[id].environment == environment :: grants[id].revoked.Some?
    requires forall k | r <= k < |run.events| && run.events[k].step.AddGrant? ::
      run.events[k].step.principal != ExchangedFor(run, at, request) || run.events[k].step.scope != scope
      || run.events[k].step.environment != environment
    requires idTok.issuedAt <= run.worlds[at.mint.scopes].now + delay
    ensures at.mint.scopes < r
    ensures idTok.expiresAt <= run.worlds[r].now + 15 * MINUTE + delay
  {
    hide Apply, Enabled;
    IdTokenIsMinted(run, at, actor, request, environment, tok, idTok);
    RevocationTakesEffect(run, r, IdMintPoints(at), ExchangedFor(run, at, request), scope, environment,
                          tok.(issuedAt := idTok.issuedAt, expiresAt := idTok.expiresAt), delay);
  }

  /** The key that signed an ID token is in every key listing until `slack` past that token's expiry. */
  lemma IdTokenKeyStaysPublished(run: Run, at: ExchangePoints, actor: nat, request: TokenRequest,
                                 environment: string, tok: Token, idTok: IdToken,
                                 c: nat, q: nat, delay: int, slack: int)
    requires run.Legal() && AllIssued(run.worlds[0])
    requires Exchanged(run, at, actor, request, environment, tok, idTok)
    requires idTok.issuedAt <= run.worlds[at.mint.key].now + delay && delay + slack <= 15 * MINUTE
    requires c <= q < |run.worlds| && at.mint.key <= q && run.worlds[c].now <= idTok.expiresAt + slack
    ensures idTok.kid in run.worlds[q].db.keys
    ensures Published(run.worlds[q].db.keys[idTok.kid], run.worlds[c].now)
  {
    hide Apply, Enabled;
    IdTokenIsMinted(run, at, actor, request, environment, tok, idTok);
    TokenKeyStaysPublished(run, IdMintPoints(at), ExchangedFor(run, at, request), environment,
                           tok.(issuedAt := idTok.issuedAt, expiresAt := idTok.expiresAt), c, q, delay, slack);
  }

  /** One code, one exchange, whatever the interleaving of the token requests that present it. */
  lemma OneExchangePerCode(run: Run, at1: ExchangePoints, actor1: nat, request1: TokenRequest, tok1: Token,
                           id1: IdToken,
                           at2: ExchangePoints, actor2: nat, request2: TokenRequest, tok2: Token, id2: IdToken,
                           environment: string)
    requires run.Legal() && AllIssued(run.worlds[0]) && request1.code == request2.code
    requires Exchanged(run, at1, actor1, request1, environment, tok1, id1)
    requires Exchanged(run, at2, actor2, request2, environment, tok2, id2)
    ensures at1.consume == at2.consume && actor1 == actor2
  {
    hide Apply, Enabled;
    SingleUse(run, at1.consume, at2.consume, Digest(request1.code));
  }

  /** The exchange is bound to what one authorize request issued: client, redirect URI, principal,
      scope and nonce, on the row as it is consumed, and within five minutes of issue. */
  lemma ExchangeIsBound(run: Run, at: ExchangePoints, actor: nat, request: TokenRequest, environment: string,
                        tok: Token, idTok: IdToken) returns (k: nat)
    requires run.Legal() && AllIssued(run.worlds[0]) && Digest(request.code) !in run.worlds[0].db.codes
    requires Exchanged(run, at, actor, request, environment, tok, idTok)
    ensures k < at.read && Issues(run.events[k].step, Digest(request.code))
    ensures forall j | 0 <= j < |run.events| && Issues(run.events[j].step, Digest(request.code)) :: j == k
    ensures var issued := run.events[k].step.row;
      && request.client == issued.client && request.redirectUri == issued.redirectUri
      && Digest(request.code) in run.worlds[at.consume].db.codes
      && run.worlds[at.consume].db.codes[Digest(request.code)] == issued
      && issued.principal in run.worlds[at.principal].db.principals
      && run.worlds[at.principal].db.principals[issued.principal] == Principal(tok.klass, tok.subject)
      && run.worlds[at.principal].db.principals[issued.principal] == Principal(idTok.klass, idTok.subject)
      && idTok.audience == issued.client && idTok.nonce == issued.nonce
      && (forall s :: s in tok.scopes
           <==> s in Fields(issued.scope)
                && Granted(run.worlds[at.mint.scopes].db.grants, issued.principal, s, environment))
      && run.events[at.consume].step.checked <= run.events[k].step.issuedAt + 5 * MINUTE
  {
    hide Apply, Enabled;
    k := CodeWasIssued(run, at.read, Digest(request.code));
    forall j | 0 <= j < |run.events| && Issues(run.events[j].step, Digest(request.code))
      ensures j == k
    {
      IssuedOnce(run, j, k, Digest(request.code));
    }
    BoundAtIssue(run, k, at.read);
    IssueStep(run.worlds[k], run.events[k]);
    CheckedIsConsumed(run, at.read, at.consume, Digest(request.code));
    ConsumedInTime(run, k, at.consume);
    ParseIdempotent(run.events[k].step.row.scope);
    NarrowElements(ParseScope(run.events[k].step.row.scope), at.granted);
  }

  /** The OIDC side of an exchange: the session token keeps which of the three OIDC scopes the code's row asked
      for, and the ID token has the contact's address if "email" is one of them and the principal is human. */
  lemma OidcClaims(run: Run, at: ExchangePoints, actor: nat, request: TokenRequest, environment: string,
                   tok: Token, idTok: IdToken)
    requires Exchanged(run, at, actor, request, environment, tok, idTok)
    ensures at.read < |run.worlds| && Digest(request.code) in run.worlds[at.read].db.codes
    ensures var scope := run.worlds[at.read].db.codes[Digest(request.code)].scope;
      && (forall s :: s in tok.oidcScopes <==> s in Fields(scope) && s in {"openid", "profile", "email"})
      && idTok.email == if tok.klass == Human && "email" in Fields(scope) then at.email else ""
  {
    hide Fields, FirstOccurrences, ScopesInForce, Minted;
    var scope := run.worlds[at.read].db.codes[Digest(request.code)].scope;
    ParseIdempotent(scope);
    NarrowElements(ParseScope(scope), OIDC_SCOPES);
  }

  // ---- Client credentials ----

  datatype AgentPoints = AgentPoints(principal: nat, id: Id, credentials: nat, granted: seq<string>, mint: MintPoints)

  predicate MatchingKey(c: Credential, p: Id, secret: string) {
    c.principal == p && c.kind == MachineKey && c.revoked == None && c.data == Hex(Digest(secret))
  }

  predicate MachineKeyMatches(credentials: map<Id, Credential>, p: Id, secret: string) {
    exists id :: id in credentials && MatchingKey(credentials[id], p, secret)
  }

  ghost predicate AgentMinted(run: Run, at: AgentPoints, slug: string, secret: string, parameter: string,
                              environment: string, tok: Token) {
    && at.principal <= at.credentials <= at.mint.scopes < |run.worlds|
    && tok.klass == Agent && tok.subject == slug && Names(run.worlds[at.principal], at.id, tok.klass, tok.subject)
    && MachineKeyMatches(run.worlds[at.credentials].db.credentials, at.id, secret)
    && ScopesInForce(run.worlds[at.mint.scopes].db.grants, at.id, environment, at.granted)
    && tok.scopes == (if Fields(parameter) == [] then at.granted else ParseScope(parameter))
    && tok.oidcScopes == []
    && Minted(run, at.mint, at.id, environment, tok)
  }

  predicate ProvisionsKey(step: Step, p: Id, secret: string) {
    step.AddMachineKey? && step.principal == p && step.data == Hex(Digest(secret))
  }

  lemma NewCredentialStep(w: World, e: Event, id: Id)
    requires AllIssued(w) && Enabled(w, e) && id in Apply(w, e).db.credentials
    ensures id in w.issued || Apply(w, e).db.credentials[id].kind == WebAuthn || (e.step.AddMachineKey?
      && Apply(w, e).db.credentials[id].principal == e.step.principal
      && Apply(w, e).db.credentials[id].data == e.step.data)
  {
  }

  lemma NoKeyStep(w: World, e: Event, p: Id, secret: string)
    requires AllIssued(w) && Enabled(w, e) && !MachineKeyMatches(w.db.credentials, p, secret)
    ensures ProvisionsKey(e.step, p, secret) || !MachineKeyMatches(Apply(w, e).db.credentials, p, secret)
  {
    hide Apply, Enabled;
    StepCredentialsEvolve(w, e);
    var after := Apply(w, e).db.credentials;
    if id :| id in after && MatchingKey(after[id], p, secret) {
      NewCredentialStep(w, e, id);
    }
  }

  lemma {:induction false} NoKeyUntilProvisioned(run: Run, r: nat, i: nat, p: Id, secret: string)
    requires run.Legal() && r <= i < |run.worlds| && AllIssued(run.worlds[r])
    requires !MachineKeyMatches(run.worlds[r].db.credentials, p, secret)
    requires forall k | r <= k < i :: !ProvisionsKey(run.events[k].step, p, secret)
    ensures !MachineKeyMatches(run.worlds[i].db.credentials, p, secret)
  {
    hide Apply, Enabled;
    if r < i {
      NoKeyUntilProvisioned(run, r, i - 1, p, secret);
      AllIssuedThroughout(run, r, i - 1);
      NoKeyStep(run.worlds[i - 1], run.events[i - 1], p, secret);
    }
  }

  /** Once every machine key of an agent with this secret is revoked or deleted, a token is minted from it
      only if the credentials were read before, or the key was provisioned again. */
  lemma NoAgentTokenWithoutKey(run: Run, r: nat, at: AgentPoints, slug: string, secret: string, parameter: string,
                               environment: string, tok: Token)
    requires run.Legal() && r < |run.worlds| && AllIssued(run.worlds[0])
    requires AgentMinted(run, at, slug, secret, parameter, environment, tok)
    requires var credentials := run.worlds[r].db.credentials;
      forall id | id in credentials && credentials[id].principal == at.id && credentials[id].kind == MachineKey
                  && credentials[id].data == Hex(Digest(secret)) :: credentials[id].revoked.Some?
    requires forall k | r <= k < |run.events| && run.events[k].step.AddMachineKey? ::
      run.events[k].step.principal != at.id || run.events[k].step.data != Hex(Digest(secret))
    ensures at.credentials < r
  {
    hide Apply, Enabled;
    assert !MachineKeyMatches(run.worlds[r].db.credentials, at.id, secret);
    if r <= at.credentials {
      AllIssuedThroughout(run, 0, r);
      NoKeyUntilProvisioned(run, r, at.credentials, at.id, secret);
    }
  }

  ghost predicate WhiteSpaceFree(vocabulary: set<string>) { forall s :: s in vocabulary ==> IsToken(s) }

  /** The scope field of the token response parses back to exactly the scopes minted, given a vocabulary
      without white space. */
  lemma ResponseScopeParses(run: Run, at: AgentPoints, slug: string, secret: string, parameter: string,
                            environment: string, tok: Token)
    requires run.Legal() && AllIssued(run.worlds[0]) && InVocabulary(run.worlds[0])
    requires WhiteSpaceFree(run.worlds[0].vocabulary)
    requires AgentMinted(run, at, slug, secret, parameter, environment, tok)
    ensures ParseScope(Join(tok.scopes)) == tok.scopes
  {
    hide Apply, Enabled, ParseScope, Fields, Join;
    if Fields(parameter) == [] {
      InVocabularyForever(run, 0, at.mint.scopes);
      var grants := run.worlds[at.mint.scopes].db.grants;
      forall i | 0 <= i < |tok.scopes|
        ensures IsToken(tok.scopes[i])
      {
        assert tok.scopes[i] in at.granted;
        var id :| id in grants && ActiveGrant(grants[id], at.id, tok.scopes[i], environment);
      }
      ParseInvertsJoin(tok.scopes);
    } else {
      ParseIdempotent(parameter);
    }
  }

  // ---- Login: the path after the WebAuthn library has verified the assertion ----

  /** `named` is the world in which the ceremony loaded the principal; `session` is the event that opened
      the IdP session, when opening it succeeded. */
  datatype LoginPoints = LoginPoints(named: nat, mint: MintPoints, session: Option<nat>)

  ghost predicate LoggedIn(run: Run, at: LoginPoints, p: Id, environment: string, tok: Token, cookie: Option<string>) {
    && at.named <= at.mint.scopes < |run.worlds| && Names(run.worlds[at.named], p, tok.klass, tok.subject)
    && ScopesInForce(run.worlds[at.mint.scopes].db.grants, p, environment, tok.scopes)
    && tok.oidcScopes == []
    && Minted(run, at.mint, p, environment, tok)
    && (cookie.Some? <==> at.session.Some?)
    && (at.session.Some? ==> (
      && at.mint.mint <= at.session.value < |run.events|
      && run.events[at.session.value].step.AddSession?
      && run.events[at.session.value].step.raw == cookie.value
      && run.events[at.session.value].step.principal == p
      && tok.issuedAt <= run.events[at.session.value].step.at))
  }
}
