/** The Store methods and the request handlers. Each handler runs its statements in order and
    yields before each one, when any other requests may run any number of their own steps. */
module Services {
  import opened Wrappers
  import opened Rfc3339
  import opened Schema
  import opened Scopes
  import opened World
  import opened KeyRuns
  import opened GrantRuns
  import opened CodeRuns
  import opened SessionRuns
  import opened TokenRuns
  import opened EnrolmentRuns
  import opened Steps
  import opened Ordering
  import GrantQueries

  ghost predicate EndsAt(run: Run, w: World) {
    |run.worlds| == |run.events| + 1 && run.worlds[|run.events|] == w
  }

  lemma SoundKept(w: World, e: Event)
    requires Sound(w) && Enabled(w, e)
    ensures Sound(Apply(w, e))
  {
    hide Apply, Enabled;
    AllIssuedKept(w, e);
    UniqueExternalIdsKept(w, e);
    UniqueActiveKept(w, e);
    KeyTimesKept(w, e);
  }

  /** A request that keeps nothing from an earlier statement and holds no transaction. */
  predicate Idle(w: World, me: nat) { me !in w.locals && !Owns(w, me) }

  /** Nothing is in flight. */
  predicate Unattended(w: World) { w.tx == None && w.locals == map[] }

  predicate AtMostOneActive(keys: map<Id, KeyRow>) { NoActiveKey(keys) || OneActiveKey(keys) }

  /** The keys are as they were, or the first active one was created. */
  predicate FirstKeyOnly(w: World, v: World) {
    if NoActiveKey(w.db.keys) then OneActiveKey(v.db.keys) else v.db.keys == w.db.keys && v.kek == w.kek
  }

  ghost predicate AllReadable(w: World) { forall id :: !Unreadable(w, id) }

  /** One more key, under the same KEK. */
  predicate KeyAdded(w: World, v: World, id: Id) {
    id !in w.db.keys && id in v.db.keys && v.db.keys == w.db.keys[id := v.db.keys[id]] && v.kek == w.kek
  }

  lemma SoundFreshKey(w: World, id: Id)
    requires Sound(w) && Fresh(w, id)
    ensures id !in w.db.keys
  {
  }

  lemma SoundFreshInvite(w: World, raw: string)
    requires Sound(w) && Fresh(w, raw)
    ensures Digest(raw) !in w.db.invites
  {
  }

  lemma ReadableWithKey(w: World, v: World, id: Id)
    requires NoActiveKey(w.db.keys) && KeyAdded(w, v, id) && v.db.keys[id].status == Active
    requires Open(v.kek, v.db.keys[id].blob).Some?
    ensures OneActiveKey(v.db.keys) && (AllReadable(w) ==> AllReadable(v))
  {
    forall other | AllReadable(w)
      ensures !Unreadable(v, other)
    {
      assert !Unreadable(w, other);
    }
    assert OnlyActiveKey(v.db.keys, id);
  }

  lemma ActiveIsReadable(w: World, id: Id)
    requires id in w.db.keys
    ensures AllReadable(w) ==> Open(w.kek, w.db.keys[id].blob).Some?
  {
    if AllReadable(w) {
      assert !Unreadable(w, id);
    }
  }

  lemma StillReadable(w: World, v: World)
    requires v.db.keys == w.db.keys && v.kek == w.kek
    ensures AllReadable(v) <==> AllReadable(w)
  {
    if AllReadable(w) {
      forall id ensures !Unreadable(v, id) { assert !Unreadable(w, id); }
    }
    if AllReadable(v) {
      forall id ensures !Unreadable(w, id) { assert !Unreadable(v, id); }
    }
  }

  /** What other requests cannot change under me: my locals, and while I hold the connection the database. */
  predicate Mine(me: nat, w: World, v: World) {
    && (me in w.locals <==> me in v.locals) && (me in w.locals ==> v.locals[me] == w.locals[me])
    && (Owns(w, me) ==> v.tx == w.tx && v.db == w.db && v.issued == w.issued)
    && (!Owns(w, me) ==> !Owns(v, me))
    && w.kek == v.kek && w.vocabulary == v.vocabulary && w.now <= v.now
  }

  lemma OthersKeepMine(me: nat, w: World, e: Event)
    requires Enabled(w, e) && e.actor != me && !e.step.Restart?
    ensures Mine(me, w, Apply(w, e))
  {
  }

  lemma AddGrantStep(w: World, me: nat, id: Id, p: Id, scope: string, env: string, grantor: string, at: int)
    requires Sound(w) && w.tx == None && Fresh(w, id) && p in w.db.principals && at <= w.now
    requires scope in w.vocabulary && !Granted(w.db.grants, p, scope, env)
    ensures var e := Event(me, AddGrant(id, p, scope, env, grantor, at));
      Enabled(w, e) && Apply(w, e) == w.(issued := w.issued + {id}, db := w.db.(grants :=
        w.db.grants[id := Grant(p, scope, env, grantor, Stamp(at), None)]))
      && InForce(Apply(w, e).db.grants) == InForce(w.db.grants) + {Triple(p, scope, env)}
  {
    GrantTableRefinesSet(w, Event(me, AddGrant(id, p, scope, env, grantor, at)));
  }

  lemma GrantedRow(grants: map<Id, Grant>, p: Id, scope: string, env: string)
    requires Granted(grants, p, scope, env)
    ensures exists id ::
      id in grants && grants[id].principal == p && grants[id].scope == scope && grants[id].environment == env
      && grants[id].revoked == None
  {
  }

  /** Nothing that happened from event `since` on was mine. */
  ghost predicate Quiet(run: Run, me: nat, since: nat) {
    forall k | since <= k < |run.events| :: run.events[k].actor != me
  }

  /** My own events from `since` on are at most the creation of a signing key. */
  ghost predicate KeyStepsOnly(run: Run, me: nat, since: nat) {
    forall k | since <= k < |run.events| ::
      run.events[k].actor == me ==> run.events[k].step.SelectNoActiveKey? || run.events[k].step.InsertKey?
  }

  /** A key as callers see it: created_at read back, or the instant just generated. */
  datatype SigningKey = SigningKey(id: Id, createdAt: int)

  predicate Unreadable(w: World, id: Id) { id in w.db.keys && Open(w.kek, w.db.keys[id].blob) == None }

  lemma SoundTimes(w: World)
    requires Sound(w)
    ensures VERIFICATION_WINDOW <= w.now && Representable(w.now - VERIFICATION_WINDOW)
    ensures forall id :: id in w.db.keys && w.db.keys[id].retiredAt.Some? ==>
      Representable(w.db.keys[id].retiredAt.value) && w.db.keys[id].retiredAt.value % SECOND == 0
  {
    RepresentableBelow(w.now - VERIFICATION_WINDOW, w.horizon);
  }

  lemma StampOfStamp(t: int)
    ensures Stamp(Stamp(t)) == Stamp(t)
  {
  }

  lemma SoundUnique(w: World)
    requires Sound(w)
    ensures UniqueActive(w.db.grants)
  {
  }

  predicate CredentialRows(credentials: map<Id, Credential>, p: Id, rows: seq<Credential>) {
    (forall c :: c in rows ==> c.principal == p && c in credentials.Values)
    && (forall id :: id in credentials && credentials[id].principal == p ==> credentials[id] in rows)
  }

  function CredentialsOf(credentials: map<Id, Credential>, p: Id): set<Id> {
    set id | id in credentials && credentials[id].principal == p
  }

  function Created(credentials: map<Id, Credential>): map<Id, int> {
    map id | id in credentials :: credentials[id].createdAt
  }

  /** The rows, oldest first, each once. */
  ghost predicate CredentialsInOrder(credentials: map<Id, Credential>, p: Id, rows: seq<Credential>) {
    exists ids :: Ordered(ids, CredentialsOf(credentials, p), Created(credentials)) && AreRows(credentials, ids, rows)
  }

  predicate AreRows(credentials: map<Id, Credential>, ids: seq<Id>, rows: seq<Credential>) {
    |rows| == |ids| && forall i | 0 <= i < |ids| :: ids[i] in credentials && rows[i] == credentials[ids[i]]
  }

  lemma RowsAreThose(credentials: map<Id, Credential>, p: Id, ids: seq<Id>, rows: seq<Credential>)
    requires Ordered(ids, CredentialsOf(credentials, p), Created(credentials)) && AreRows(credentials, ids, rows)
    ensures CredentialRows(credentials, p, rows)
  {
    forall c | c in rows
      ensures c.principal == p && c in credentials.Values
    {
      var i :| 0 <= i < |rows| && rows[i] == c;
      assert ids[i] in ids;
    }
    forall id | id in credentials && credentials[id].principal == p
      ensures credentials[id] in rows
    {
      assert id in ids;
      var i :| 0 <= i < |ids| && ids[i] == id;
      assert rows[i] in rows;
    }
  }

  datatype SessionError = SessionNotFound | SessionRevoked | SessionExpired

  predicate SessionRead(sessions: map<Digest, Session>, h: Digest, now: int, r: Result<Session, SessionError>) {
    match r
    case Ok(s) => h in sessions && sessions[h] == s && s.revokedAt == None && now <= s.expiresAt
    case Err(SessionNotFound) => h !in sessions
    case Err(SessionRevoked) => h in sessions && sessions[h].revokedAt.Some?
    case Err(SessionExpired) => h in sessions && sessions[h].revokedAt == None && sessions[h].expiresAt < now
  }

  datatype CodeError = CodeNotFound | CodeUsed | CodeExpired

  predicate CodeRead(codes: map<Digest, Code>, h: Digest, now: int, r: Result<Code, CodeError>) {
    match r
    case Ok(row) => h in codes && codes[h] == row && row.usedAt == None && now <= row.expiresAt
    case Err(CodeNotFound) => h !in codes
    case Err(CodeUsed) => h in codes && codes[h].usedAt.Some?
    case Err(CodeExpired) => h in codes && codes[h].usedAt == None && codes[h].expiresAt < now
  }

  /** None of my events from `since` on consumes an authorization code. */
  ghost predicate ConsumesNothing(run: Run, me: nat, since: nat) {
    forall k | since <= k < |run.events| :: run.events[k].actor == me ==> !run.events[k].step.CommitConsume?
  }

  /** The last event of the run is my consumption of `h`, and `row` is the row it found unused. */
  ghost predicate JustConsumed(run: Run, me: nat, h: Digest, row: Code) {
    && |run.worlds| == |run.events| + 1 && |run.events| > 0
    && var k := |run.events| - 1;
    && run.events[k].actor == me && Consumes(run.events[k].step, h)
    && h in run.worlds[k].db.codes && run.worlds[k].db.codes[h] == row && row.usedAt == None
  }

  /** The active key read in that world does not open under the service's KEK. */
  ghost predicate KeyBlocked(run: Run, k: nat) {
    k < |run.worlds| && exists id :: ActiveKey(run.worlds[k].db.keys, id) && Unreadable(run.worlds[k], id)
  }

  datatype AuthorizeError = BadClient | BadResponseType | NoOpenidScope | LoginRequired | AuthorizeServerError

  datatype Denial = NoCookie | BadSession(error: SessionError) | PrincipalGone | NoActivePasskey | KeyUnreadable

  /** Why a re-mint was refused. The session was read, and found valid, before every later refusal. */
  ghost predicate ReMintDenied(run: Run, at: ReMintPoints, raw: string, denial: Denial)
    requires |run.worlds| > 0
  {
    && at.session <= at.clock < |run.worlds|
    && var sessions := run.worlds[at.session].db.sessions;
    match denial
    case NoCookie => false
    case BadSession(error) => SessionRead(sessions, Digest(raw), run.worlds[at.clock].now, Err(error))
    case PrincipalGone =>
      Digest(raw) in sessions && at.principal < |run.worlds|
      && sessions[Digest(raw)].principal !in run.worlds[at.principal].db.principals
    case NoActivePasskey =>
      Digest(raw) in sessions && at.credentials < |run.worlds|
      && !HasActiveWebAuthn(run.worlds[at.credentials].db.credentials, sessions[Digest(raw)].principal)
    case KeyUnreadable => KeyBlocked(run, at.mint.key)
  }

  ghost predicate SessionStands(run: Run, at: ReMintPoints, raw: string, p: Id, klass: PrincipalClass,
                                externalId: string) {
    && at.session <= at.clock <= at.principal < |run.worlds|
    && Digest(raw) in run.worlds[at.session].db.sessions
    && var s := run.worlds[at.session].db.sessions[Digest(raw)];
    && s.principal == p && s.revokedAt == None && run.worlds[at.clock].now <= s.expiresAt
    && Names(run.worlds[at.principal], p, klass, externalId)
  }

  lemma RevalidatedWith(early: Run, run: Run, at: ReMintPoints, raw: string, p: Id, klass: PrincipalClass,
                        externalId: string, credentials: nat)
    requires early.Prefix(run) && |early.worlds| == |early.events| + 1 && |early.events| <= credentials < |run.worlds|
    requires SessionStands(early, at, raw, p, klass, externalId)
    ensures if HasActiveWebAuthn(run.worlds[credentials].db.credentials, p)
      then Revalidated(run, at.(credentials := credentials), raw, p, klass, externalId)
      else ReMintDenied(run, at.(credentials := credentials), raw, NoActivePasskey)
  {
  }

  lemma BlockedReMint(early: Run, run: Run, at: ReMintPoints, raw: string, p: Id, klass: PrincipalClass,
                      externalId: string, mint: MintPoints)
    requires early.Prefix(run) && |run.worlds| > 0
    requires Revalidated(early, at, raw, p, klass, externalId) && KeyBlocked(run, mint.key)
    ensures ReMintDenied(run, at.(mint := mint), raw, KeyUnreadable)
  {
  }

  /** What a successful re-mint read, column by column. */
  lemma ReMintedShows(run: Run, at: ReMintPoints, raw: string, p: Id, environment: string, tok: Token)
    requires ReMinted(run, at, raw, p, environment, tok)
    ensures at.session <= at.clock <= at.principal <= at.credentials <= at.mint.scopes < |run.worlds|
    ensures var w, sessions, h := run.worlds[at.principal], run.worlds[at.session].db.sessions, Digest(raw);
      && h in sessions && sessions[h].principal == p && sessions[h].revokedAt == None
      && run.worlds[at.clock].now <= sessions[h].expiresAt
      && p in w.db.principals && w.db.principals[p] == Principal(tok.klass, tok.subject)
    ensures exists id :: id in run.worlds[at.credentials].db.credentials &&
              var c := run.worlds[at.credentials].db.credentials[id];
              c.principal == p && c.kind == WebAuthn && c.revoked == None
    ensures forall s :: s in tok.scopes <==> Granted(run.worlds[at.mint.scopes].db.grants, p, s, environment)
  {
    hide Granted, Minted;
  }

  lemma DenialShows(run: Run, at: ReMintPoints, raw: string, denial: Denial)
    requires |run.worlds| > 0 && ReMintDenied(run, at, raw, denial)
    ensures at.session <= at.clock < |run.worlds|
    ensures var sessions, h, now := run.worlds[at.session].db.sessions, Digest(raw), run.worlds[at.clock].now;
      match denial
      case BadSession(SessionNotFound) => h !in sessions
      case BadSession(SessionRevoked) => h in sessions && sessions[h].revokedAt.Some?
      case BadSession(SessionExpired) => h in sessions && sessions[h].revokedAt == None && sessions[h].expiresAt < now
      case PrincipalGone => (
        h in sessions && at.principal < |run.worlds|
        && sessions[h].principal !in run.worlds[at.principal].db.principals)
      case NoActivePasskey => (
        h in sessions && at.credentials < |run.worlds|
        && var credentials := run.worlds[at.credentials].db.credentials;
        forall id | id in credentials && credentials[id].principal == sessions[h].principal
                    && credentials[id].kind == WebAuthn :: credentials[id].revoked.Some?)
      case KeyUnreadable => KeyBlocked(run, at.mint.key)
      case NoCookie => false
  {
    hide KeyBlocked;
    if denial == NoActivePasskey {
      var credentials, h := run.worlds[at.credentials].db.credentials, Digest(raw);
      var p := run.worlds[at.session].db.sessions[h].principal;
      forall id | id in credentials && credentials[id].principal == p && credentials[id].kind == WebAuthn
        ensures credentials[id].revoked.Some?
      {
        assert !ActiveWebAuthn(credentials[id], p);
      }
    }
  }

  /** A session that a login opened, and that nothing of its own ended, is not refused before its 72 hours
      are up, floored: revoking other people's sessions does not touch it. */
  lemma SessionServes(run: Run, k: nat, at: ReMintPoints, denial: Denial)
    requires run.Legal() && AllIssued(run.worlds[0]) && k < at.session < |run.worlds|
    requires run.events[k].step.AddSession? && ReMintDenied(run, at, run.events[k].step.raw, denial)
    requires forall m | k < m < at.session ::
      run.events[m].step.RevokeSession? ==> run.events[m].step.session != Digest(run.events[k].step.raw)
    requires forall m | k < m < at.session ::
      run.events[m].step.RevokeSessions? ==> run.events[m].step.principal != run.events[k].step.principal
    requires forall m | k < m < at.session ::
      run.events[m].step != DeletePrincipal(run.events[k].step.principal)
    ensures denial.BadSession? ==>
      denial.error == SessionExpired
      && run.events[k].step.at + 72 * HOUR - SECOND < run.worlds[at.clock].now
  {
    hide Apply, Enabled;
    DenialShows(run, at, run.events[k].step.raw, denial);
    SessionStaysValid(run, k, at.session, run.worlds[at.clock].now);
  }

  lemma RevalidatedBounds(run: Run, at: ReMintPoints, raw: string, p: Id, klass: PrincipalClass, externalId: string)
    requires Revalidated(run, at, raw, p, klass, externalId)
    ensures at.credentials < |run.worlds|
  {
  }

  lemma RevalidatedStands(early: Run, run: Run, at: ReMintPoints, raw: string, p: Id, klass: PrincipalClass,
                          externalId: string, mint: MintPoints)
    requires early.Prefix(run) && Revalidated(early, at, raw, p, klass, externalId)
    ensures Revalidated(run, at.(mint := mint), raw, p, klass, externalId)
  {
  }

  lemma ActiveRowsExact(credentials: map<Id, Credential>, p: Id, rows: seq<Credential>)
    requires CredentialRows(credentials, p, rows)
    ensures HasActiveWebAuthn(credentials, p) <==> exists c :: c in rows && c.kind == WebAuthn && c.revoked == None
  {
    if HasActiveWebAuthn(credentials, p) {
      var id :| id in credentials && ActiveWebAuthn(credentials[id], p);
      assert credentials[id] in rows;
    }
    if c :| c in rows && c.kind == WebAuthn && c.revoked == None {
      var id :| id in credentials && credentials[id] == c;
      assert ActiveWebAuthn(credentials[id], p);
    }
  }

  datatype TokenError = InvalidRequest | InvalidClient | BadCode(error: CodeError) | ClientMismatch
      | RedirectMismatch | TokenServerError

  predicate ClientAuthenticates(clients: map<string, Client>, request: TokenRequest) {
    request.client in clients && clients[request.client].secretHash == Digest(request.secret)
  }

  predicate BlankField(request: TokenRequest) {
    request.code == "" || request.client == "" || request.secret == "" || request.redirectUri == ""
  }

  /** Why a code was not consumed: each refusal, with the read that shows it. */
  ghost predicate TokenRefused(run: Run, read: nat, clock: nat, clients: map<string, Client>, request: TokenRequest,
                               e: TokenError) {
    && read <= clock < |run.worlds|
    && var codes, h := run.worlds[read].db.codes, Digest(request.code);
    match e
    case InvalidRequest => BlankField(request)
    case InvalidClient => !BlankField(request) && !ClientAuthenticates(clients, request)
    case BadCode(error) => CodeRead(codes, h, run.worlds[clock].now, Err(error))
    case ClientMismatch => h in codes && codes[h].usedAt == None && codes[h].client != request.client
    case RedirectMismatch =>
      h in codes && codes[h].usedAt == None && codes[h].client == request.client
      && codes[h].redirectUri != request.redirectUri
    case TokenServerError => h !in codes
  }

  /** The same, case by case on the columns read. */
  lemma RefusalShows(run: Run, read: nat, clock: nat, clients: map<string, Client>, request: TokenRequest,
                     e: TokenError)
    requires TokenRefused(run, read, clock, clients, request, e)
    ensures read <= clock < |run.worlds|
    ensures var codes, h, now := run.worlds[read].db.codes, Digest(request.code), run.worlds[clock].now;
      match e
      case InvalidRequest =>
        request.code == "" || request.client == "" || request.secret == "" || request.redirectUri == ""
      case InvalidClient =>
        request.client !in clients || clients[request.client].secretHash != Digest(request.secret)
      case BadCode(CodeNotFound) => h !in codes
      case BadCode(CodeUsed) => h in codes && codes[h].usedAt.Some?
      case BadCode(CodeExpired) => h in codes && codes[h].usedAt == None && codes[h].expiresAt < now
      case ClientMismatch => h in codes && codes[h].client != request.client
      case RedirectMismatch =>
        h in codes && codes[h].client == request.client && codes[h].redirectUri != request.redirectUri
      case TokenServerError => h !in codes
  {
  }

  /** And what stops a mint. */
  lemma StopShows(run: Run, at: ExchangePoints, h: Digest)
    requires MintStopped(run, at, h)
    ensures at.consume < |run.events| && at.principal < |run.worlds| && |run.worlds| == |run.events| + 1
    ensures run.events[at.consume].step.CommitConsume? && run.events[at.consume].step.digest == h
    ensures h in run.worlds[at.consume].db.codes
    ensures run.worlds[at.consume].db.codes[h].principal !in run.worlds[at.principal].db.principals
      || KeyBlocked(run, at.mint.key)
  {
  }

  lemma BlockedKeyIsUnreadable(run: Run, k: nat)
    requires KeyBlocked(run, k)
    ensures k < |run.worlds| && exists id ::
      ActiveKey(run.worlds[k].db.keys, id) && Open(run.worlds[k].kek, run.worlds[k].db.keys[id].blob) == None
  {
    var id :| ActiveKey(run.worlds[k].db.keys, id) && Unreadable(run.worlds[k], id);
    assert Open(run.worlds[k].kek, run.worlds[k].db.keys[id].blob) == None;
  }

  /** After consumption only the principal's deletion or an unreadable key stops the mint. */
  ghost predicate MintStopped(run: Run, at: ExchangePoints, h: Digest) {
    && at.consume < |run.events| && at.consume < at.principal < |run.worlds| && |run.worlds| == |run.events| + 1
    && Consumes(run.events[at.consume].step, h) && h in run.worlds[at.consume].db.codes
    && (|| run.worlds[at.consume].db.codes[h].principal !in run.worlds[at.principal].db.principals
        || KeyBlocked(run, at.mint.key))
  }

  lemma MintedStands(early: Run, run: Run, at: MintPoints, p: Id, environment: string, tok: Token)
    requires early.Prefix(run) && Minted(early, at, p, environment, tok)
    ensures Minted(run, at, p, environment, tok) && at.scopes <= at.key <= at.mint < |early.worlds|
  {
  }

  lemma InForceAreGranted(grants: map<Id, Grant>, p: Id, environment: string, scopes: seq<string>)
    requires ScopesInForce(grants, p, environment, scopes)
    ensures forall s :: s in scopes ==> Granted(grants, p, s, environment)
  {
  }

  /** A stamp taken earlier in the run is no later than its last world. */
  lemma MintedBy(run: Run, at: MintPoints, p: Id, environment: string, tok: Token)
    requires run.Legal() && Sound(run.worlds[0]) && Minted(run, at, p, environment, tok)
    ensures tok.issuedAt <= run.Last().now
  {
    hide Apply, Enabled;
    AllIssuedThroughout(run, 0, at.mint);
    RunEvolves(run, at.mint, |run.worlds| - 1);
  }

  lemma MatchingRowsExact(credentials: map<Id, Credential>, p: Id, rows: seq<Credential>, secret: string)
    requires CredentialRows(credentials, p, rows)
    ensures (exists c :: c in rows && c.kind == MachineKey && c.revoked == None && c.data == Hex(Digest(secret)))
      <==> exists id :: id in credentials && credentials[id].principal == p && credentials[id].kind == MachineKey
                        && credentials[id].revoked == None && credentials[id].data == Hex(Digest(secret))
  {
    if c :| c in rows && c.kind == MachineKey && c.revoked == None && c.data == Hex(Digest(secret)) {
      var id :| id in credentials && credentials[id] == c;
    }
    if id :| id in credentials && credentials[id].principal == p && credentials[id].kind == MachineKey
             && credentials[id].revoked == None && credentials[id].data == Hex(Digest(secret)) {
      assert credentials[id] in rows;
    }
  }

  ghost predicate AgentToken(run: Run, p: Id, slug: string, parameter: string, environment: string,
                             granted: seq<string>, mint: MintPoints, tok: Token) {
    && tok.klass == Agent && tok.subject == slug && tok.oidcScopes == []
    && tok.scopes == (if Fields(parameter) == [] then granted else ParseScope(parameter))
    && Minted(run, mint, p, environment, tok)
  }

  lemma AgentAssembled(early: Run, run: Run, at: AgentPoints, slug: string, secret: string, parameter: string,
                       environment: string, tok: Token)
    requires early.Prefix(run) && |early.worlds| == |early.events| + 1
    requires at.principal <= at.credentials < |early.worlds| && |early.events| <= at.mint.scopes < |run.worlds|
    requires at.id in early.worlds[at.principal].db.principals
    requires early.worlds[at.principal].db.principals[at.id] == Principal(Agent, slug)
    requires var credentials := early.worlds[at.credentials].db.credentials;
      exists id :: id in credentials && credentials[id].principal == at.id && credentials[id].kind == MachineKey
                   && credentials[id].revoked == None && credentials[id].data == Hex(Digest(secret))
    requires ScopesInForce(run.worlds[at.mint.scopes].db.grants, at.id, environment, at.granted)
    requires AgentToken(run, at.id, slug, parameter, environment, at.granted, at.mint, tok)
    ensures AgentMinted(run, at, slug, secret, parameter, environment, tok)
  {
    hide Minted, ScopesInForce, MachineKeyMatches, Fields, ParseScope;
    AssembledMatches(early.worlds[at.credentials].db.credentials, at.id, secret);
  }

  lemma AssembledMatches(credentials: map<Id, Credential>, p: Id, secret: string)
    requires exists id :: id in credentials && credentials[id].principal == p && credentials[id].kind == MachineKey
                          && credentials[id].revoked == None && credentials[id].data == Hex(Digest(secret))
    ensures MachineKeyMatches(credentials, p, secret)
  {
    var id :| id in credentials && credentials[id].principal == p && credentials[id].kind == MachineKey
              && credentials[id].revoked == None && credentials[id].data == Hex(Digest(secret));
    assert MatchingKey(credentials[id], p, secret);
  }

  /** What a minted agent token carries. */
  lemma AgentMintedShows(run: Run, at: AgentPoints, slug: string, secret: string, parameter: string,
                         environment: string, tok: Token)
    requires AgentMinted(run, at, slug, secret, parameter, environment, tok)
    ensures at.principal <= at.credentials <= at.mint.scopes < |run.worlds|
    ensures tok.klass == Agent && tok.subject == slug && tok.oidcScopes == [] && NoDuplicates(tok.scopes)
    ensures var grants := run.worlds[at.mint.scopes].db.grants;
      && (forall s :: s in tok.scopes ==> Granted(grants, at.id, s, environment))
      && (forall s :: s in tok.scopes <==>
            if Fields(parameter) == [] then Granted(grants, at.id, s, environment) else s in Fields(parameter))
  {
    hide Fields, ParseScope, Granted, MachineKeyMatches, NoDuplicates;
    ParseIdempotent(parameter);
  }

  lemma NotInForce(grants: map<Id, Grant>, p: Id, environment: string, granted: seq<string>)
    requires ScopesInForce(grants, p, environment, granted)
    ensures forall s :: s !in granted ==> !Granted(grants, p, s, environment)
  {
  }

  lemma ScopeFieldParses(run: Run, at: AgentPoints, slug: string, secret: string, parameter: string,
                         environment: string, tok: Token)
    requires run.Legal() && Sound(run.worlds[0]) && AgentMinted(run, at, slug, secret, parameter, environment, tok)
    ensures InVocabulary(run.worlds[0]) && WhiteSpaceFree(run.Last().vocabulary) ==>
      ParseScope(Join(tok.scopes)) == tok.scopes
  {
    hide Apply, Enabled, ParseScope, Join;
    RunEvolves(run, 0, |run.worlds| - 1);
    if InVocabulary(run.worlds[0]) && WhiteSpaceFree(run.Last().vocabulary) {
      ResponseScopeParses(run, at, slug, secret, parameter, environment, tok);
    }
  }

  ghost predicate OwnToken(run: Run, p: Id, principal: Principal, environment: string, mint: MintPoints, tok: Token) {
    && mint.scopes < |run.worlds| && ScopesInForce(run.worlds[mint.scopes].db.grants, p, environment, tok.scopes)
    && tok.subject == principal.externalId && tok.klass == principal.klass && tok.oidcScopes == []
    && mint.mint < |run.worlds| && Minted(run, mint, p, environment, tok)
  }

  predicate OpenedFor(step: Step, cookie: string, p: Id, tok: Token) {
    step.AddSession? && step.raw == cookie && step.principal == p && tok.issuedAt <= step.at
  }

  lemma LoginAssembled(early: Run, run: Run, at: LoginPoints, p: Id, principal: Principal, environment: string,
                       tok: Token, cookie: Option<string>)
    requires early.Prefix(run) && |early.worlds| == |early.events| + 1 && at.named <= at.mint.scopes
    requires at.named < |early.worlds| && Names(early.worlds[at.named], p, principal.klass, principal.externalId)
    requires OwnToken(early, p, principal, environment, at.mint, tok)
    requires cookie.Some? <==> at.session.Some?
    requires at.session.Some? ==> |early.events| <= at.session.value < |run.events|
    requires at.session.Some? ==> OpenedFor(run.events[at.session.value].step, cookie.value, p, tok)
    ensures LoggedIn(run, at, p, environment, tok, cookie)
    ensures tok.subject == principal.externalId && tok.klass == principal.klass
  {
    hide ScopesInForce, Minted;
    MintedStands(early, run, at.mint, p, environment, tok);
  }

  lemma LoggedInShows(run: Run, at: LoginPoints, p: Id, environment: string, tok: Token, cookie: Option<string>)
    requires LoggedIn(run, at, p, environment, tok, cookie)
    ensures at.mint.scopes < |run.worlds| && tok.oidcScopes == []
    ensures forall s :: s in tok.scopes <==> Granted(run.worlds[at.mint.scopes].db.grants, p, s, environment)
    ensures cookie.Some? ==> at.session.Some? && at.session.value < |run.events|
    ensures cookie.Some? ==>
      var step := run.events[at.session.value].step;
      step.AddSession? && step == AddSession(cookie.value, p, step.at) && tok.issuedAt <= step.at
  {
    hide Granted, Minted;
  }

  /** A passkey read earlier is still a passkey, if it is still there. */
  lemma StillWebAuthn(early: Run, run: Run, seen: nat, id: Id)
    requires run.Legal() && Sound(run.worlds[0]) && early.Prefix(run) && seen < |early.worlds|
    requires id in early.worlds[seen].db.credentials && early.worlds[seen].db.credentials[id].kind == WebAuthn
    ensures id in run.Last().db.credentials ==> run.Last().db.credentials[id].kind == WebAuthn
  {
    hide Apply, Enabled;
    AllIssuedThroughout(run, 0, seen);
    RunEvolves(run, seen, |run.worlds| - 1);
  }

  datatype AgentError = BadAgent | ScopeRefused(scope: string) | AgentServerError

  lemma NarrowedAreGranted(grants: map<Id, Grant>, p: Id, environment: string, scope: string, granted: seq<string>)
    requires ScopesInForce(grants, p, environment, granted)
    ensures forall s :: s in Narrow(ParseScope(scope), granted) ==> Granted(grants, p, s, environment)
  {
    ParseIdempotent(scope);
    NarrowElements(ParseScope(scope), granted);
  }

  /** The row consumed is the row checked earlier: nothing but its use can have changed. */
  lemma SameRow(run: Run, read: nat, consume: nat, h: Digest)
    requires run.Legal() && Sound(run.worlds[0]) && read <= consume < |run.events|
    requires h in run.worlds[read].db.codes && Consumes(run.events[consume].step, h)
    ensures h in run.worlds[consume].db.codes && run.worlds[consume].db.codes[h] == run.worlds[read].db.codes[h]
  {
    hide Apply, Enabled;
    CheckedIsConsumed(run, read, consume, h);
  }

  /** The two tokens of one exchange, for a principal and scopes read before. */
  ghost predicate BothSigned(run: Run, row: Code, client: string, environment: string, email: string,
                             principal: Principal,
                             effective: seq<string>, oidc: seq<string>, scopesAt: nat, mint: MintPoints, idMint: nat,
                             toks: (Token, IdToken)) {
    && mint.scopes == scopesAt <= mint.mint <= idMint < |run.worlds|
    && Minted(run, mint, row.principal, environment, toks.0)
    && toks.0.subject == principal.externalId && toks.0.klass == principal.klass
    && toks.0.scopes == effective && toks.0.oidcScopes == oidc
    && toks.1 == IdToken(toks.0.kid, principal.externalId, client, principal.klass, row.nonce, effective,
                         EmailClaim(principal.klass, oidc, email),
                         run.worlds[idMint].now, run.worlds[idMint].now + TOKEN_TTL)
  }

  lemma ExchangedRow(run: Run, at: ExchangePoints, me: nat, request: TokenRequest, environment: string,
                     tok: Token, idTok: IdToken)
    requires Exchanged(run, at, me, request, environment, tok, idTok)
    ensures at.read < |run.worlds| && Digest(request.code) in run.worlds[at.read].db.codes
    ensures var row := run.worlds[at.read].db.codes[Digest(request.code)];
      row.client == request.client && row.redirectUri == request.redirectUri
  {
    hide CodeTokens;
  }

  lemma ExchangeAssembled(spent: Run, run: Run, at: ExchangePoints, me: nat, request: TokenRequest, environment: string,
                          row: Code, tok: Token, idTok: IdToken)
    requires run.Legal() && spent.Prefix(run) && |spent.worlds| == |spent.events| + 1
    requires at.read <= at.clock <= at.consume < |spent.events| <= at.principal
    requires CodeRead(run.worlds[at.read].db.codes, Digest(request.code), run.worlds[at.clock].now, Ok(row))
    requires row.client == request.client && row.redirectUri == request.redirectUri
    requires run.events[at.consume].actor == me && Consumes(run.events[at.consume].step, Digest(request.code))
    requires CodeTokens(run, row, request.client, environment, at.principal, at.granted, at.email,
               at.mint, at.idMint, tok, idTok)
    ensures Exchanged(run, at, me, request, environment, tok, idTok)
  {
    hide Apply, Enabled;
  }

  /** Why a finish failed after taking the ceremony at world `took`: the registration did not verify,
      the transaction failed, or at world `at` the contact had no principal, the resolved principal
      was gone, or the invite was used. */
  ghost predicate FinishBlocked(run: Run, me: nat, took: nat, at: nat, h: Digest, verified: bool, fault: bool) {
    && took <= at < |run.worlds| && h in run.worlds[took].pending
    && (|| !verified || fault
        || !Registered(run.worlds[at].db, Human, run.worlds[took].pending[h].contact)
        || SwapBlocked(run.worlds[at], me, h))
  }

  lemma BlockShows(run: Run, me: nat, took: nat, at: nat, h: Digest, verified: bool, fault: bool)
    requires FinishBlocked(run, me, took, at, h, verified, fault)
    ensures took <= at < |run.worlds| && h in run.worlds[took].pending
    ensures var w, contact := run.worlds[at], run.worlds[took].pending[h].contact;
      || !verified || fault
      || (forall p :: p in w.db.principals ==> w.db.principals[p] != Principal(Human, contact))
      || h !in w.db.invites || w.db.invites[h].usedAt.Some?
      || (me in w.locals && w.locals[me].ReplacingPasskey? && w.locals[me].principal !in w.db.principals)
  {
  }

  /** A committed swap: the whole of Swapped, given that the run started with every ceremony bound. */
  lemma SwapShows(run: Run, me: nat, h: Digest, id: Id, data: string)
    requires run.Legal() && Sound(run.worlds[0]) && JustReplaced(run, me, h, id, data)
    ensures |run.events| > 0 && |run.worlds| == |run.events| + 1
    ensures var w, e := run.worlds[|run.events| - 1], run.events[|run.events| - 1];
      && e.step.CommitReplace? && e == Event(me, CommitReplace(id, data, e.step.at))
      && me in w.locals && w.locals[me].ReplacingPasskey? && w.locals[me].invite == h
      && (Bound(run.worlds[0]) ==> Swapped(w, run.Last(), h, w.locals[me].principal, id, data, e.step.at))
  {
    hide Apply, Enabled, Bound, Swapped;
    if Bound(run.worlds[0]) {
      var k := |run.events| - 1;
      AllIssuedThroughout(run, 0, k);
      BoundThroughout(run, 0, k);
      ReplaceSwaps(run.worlds[k], run.events[k]);
    }
  }

  lemma UntouchedShows(run: Run, me: nat, since: nat)
    requires TablesUntouched(run, me, since)
    ensures |run.worlds| == |run.events| + 1
    ensures forall k | since <= k < |run.events| && run.events[k].actor == me ::
      run.worlds[k + 1].db == run.worlds[k].db
  {
  }

  /** The transaction's own checks fail for this request: the invite is gone or used, or the principal
      it is about to give a passkey is gone. */
  predicate SwapBlocked(w: World, me: nat, h: Digest) {
    || h !in w.db.invites || w.db.invites[h].usedAt.Some?
    || (me in w.locals && w.locals[me].ReplacingPasskey? && w.locals[me].principal !in w.db.principals)
  }

  datatype InviteError = InviteNotFound | InviteUsed | InviteExpired

  datatype EnrolError = MissingToken | BadInvite(error: InviteError) | NoCeremony | EnrolServerError

  /** None of my events from `since` on changed any table. */
  ghost predicate TablesUntouched(run: Run, me: nat, since: nat) {
    |run.worlds| == |run.events| + 1
    && forall k | since <= k < |run.events| :: run.events[k].actor == me ==> run.worlds[k + 1].db == run.worlds[k].db
  }

  lemma NothingTouched(run: Run, me: nat)
    requires |run.worlds| == |run.events| + 1
    ensures TablesUntouched(run, me, |run.events|)
  {
  }

  lemma UntouchedTogether(early: Run, run: Run, me: nat, since: nat)
    requires early.Prefix(run) && since <= |early.events|
    requires TablesUntouched(early, me, since) && TablesUntouched(run, me, |early.events|)
    ensures TablesUntouched(run, me, since)
  {
    forall k | since <= k < |run.events| && run.events[k].actor == me
      ensures run.worlds[k + 1].db == run.worlds[k].db
    {
      if k < |early.events| {
        assert run.events[k] == early.events[k] && run.worlds[k + 1] == early.worlds[k + 1];
      }
    }
  }

  /** The last event of the run is my swap for invite `h`. */
  ghost predicate JustReplaced(run: Run, me: nat, h: Digest, id: Id, data: string) {
    && |run.worlds| == |run.events| + 1 && |run.events| > 0
    && var k := |run.events| - 1;
    && run.events[k].actor == me && run.events[k].step.CommitReplace?
    && run.events[k].step.id == id && run.events[k].step.data == data
    && CanReplace(run.worlds[k], me) && run.worlds[k].locals[me].invite == h
  }

  /** None of my events from `since` on grants anything. */
  ghost predicate NoGrantsOfMine(run: Run, me: nat, since: nat) {
    forall k | since <= k < |run.events| :: run.events[k].actor == me ==> !run.events[k].step.AddGrant?
  }

  /** The only difference between the two databases is this new principal. */
  ghost predicate PrincipalAdded(w: World, v: World, id: Id, klass: PrincipalClass, externalId: string) {
    v == w.(now := v.now, issued := v.issued,
             db := w.db.(principals := w.db.principals[id := Principal(klass, externalId)]))
  }

  lemma SoundIssued(w: World, id: Id)
    requires Sound(w) && Fresh(w, id)
    ensures id !in w.db.principals
  {
  }

  datatype GrantError = UnknownScope | NoSuchPrincipal | DuplicateGrant

  datatype RevokeError = NoSuchRow | AlreadyRevoked

  class Service {
    const environment: string
    var clients: map<string, Client>   // reconciled at startup, constant afterwards
    var listening: bool   // false until main calls ListenAndServe: no other request runs
    var world: World
    ghost var run: Run

    ghost predicate Valid()
      reads this
    {
      run.Legal() && EndsAt(run, world) && Sound(run.worlds[0]) && Sound(world) && environment != ""
    }

    constructor (world: World, environment: string, clients: map<string, Client>)
      requires Sound(world) && environment != ""
      ensures Valid() && this.world == world && run == Run([world], []) && !listening
      ensures this.environment == environment && this.clients == clients
    {
      this.world, this.environment, this.clients := world, environment, clients;
      listening, run := false, Run([world], []);
    }

    // ---- Steps and interleaving ----

    method Do(actor: nat, step: Step)
      requires Valid() && Enabled(world, Event(actor, step))
      modifies this`world, this`run
      ensures Valid() && world == Apply(old(world), Event(actor, step))
      ensures old(run).Prefix(run) && run.events == old(run).events + [Event(actor, step)]
    {
      hide Apply, Enabled, Sound;
      ThenIsLegal(run, Event(actor, step));
      SoundKept(world, Event(actor, step));
      run := run.Then(Event(actor, step));
      world := Apply(world, Event(actor, step));
    }

    /** One step of another request, if it can happen now; before main listens, only the clock moves. */
    method Interfere(me: nat, e: Event)
      requires Valid() && e.actor != me
      modifies this`world, this`run
      ensures Valid() && old(run).Prefix(run) && Quiet(run, me, |old(run).events|)
      ensures Mine(me, old(world), world)
      ensures !listening ==> world == old(world).(now := world.now)
    {
      hide Apply, Enabled, Sound, Run.Legal;
      if !e.step.Restart? && (listening || e.step.Tick?) && Enabled(world, e) {
        OthersKeepMine(me, world, e);
        TickMovesClock(world, e);
        Do(e.actor, e.step);
      }
    }

    /** Any interleaving of other requests, one of which may be left holding the connection. */
    method Drift(me: nat)
      requires Valid()
      modifies this`world, this`run
      ensures Valid() && old(run).Prefix(run) && Quiet(run, me, |old(run).events|)
      ensures Mine(me, old(world), world)
      ensures !listening ==> world == old(world).(now := world.now)
    {
      hide Apply, Enabled, Sound, Run.Legal;
      var others: seq<Event> := *;
      for i := 0 to |others|
        invariant Valid() && old(run).Prefix(run) && Quiet(run, me, |old(run).events|) && Mine(me, old(world), world)
        invariant !listening ==> world == old(world).(now := world.now)
      {
        if others[i].actor != me {
          Interfere(me, others[i]);
        }
      }
    }

    /** The wait for the connection before a statement: until it is mine or free. */
    method Yield(me: nat)
      requires Valid()
      modifies this`world, this`run
      ensures Valid() && old(run).Prefix(run) && Quiet(run, me, |old(run).events|)
      ensures Mine(me, old(world), world)
      ensures Owns(world, me) || world.tx == None
      ensures !listening && (old(world).tx == None || Owns(old(world), me)) ==> world == old(world).(now := world.now)
    {
      hide Apply, Enabled, Sound, Run.Legal;
      Drift(me);
      if world.tx.Some? && !Owns(world, me) {
        var e := Event(world.tx.value.owner, Rollback);
        RollbackStep(world, e);
        OthersKeepMine(me, world, e);
        Do(e.actor, e.step);
      }
    }

    /** uuid.NewRandom, generateRawToken: any string never generated before. */
    method NewId() returns (id: string)
      requires Valid()
      ensures Fresh(world, id)
    {
      id := *;
      while id in world.issued
        decreases |AtLeast(world.issued, |id|)|
      {
        StrictSubsetSmaller(AtLeast(world.issued, |id| + 1), AtLeast(world.issued, |id|), id);
        id := id + "0";
      }
    }

    // ---- store/signing_key.go ----

    /** `at` is a world in which the connection was free and the returned key active. */
    method GetOrCreateActiveSigningKey(me: nat) returns (r: Result<SigningKey, Id>, ghost at: nat)
      requires Valid() && Idle(world, me)
      modifies this`world, this`run
      ensures Valid() && old(run).Prefix(run) && Idle(world, me) && KeyStepsOnly(run, me, |old(run).events|)
      ensures |old(run).events| <= at < |run.worlds| && run.worlds[at].tx == None
      ensures var key := if r.Ok? then r.value.id else r.error;
        ActiveKey(run.worlds[at].db.keys, key)
        && (r.Ok? <==> Open(run.worlds[at].kek, run.worlds[at].db.keys[key].blob).Some?)
      ensures r.Ok? ==> Stamp(r.value.createdAt) == Stamp(run.worlds[at].db.keys[r.value.id].createdAt)
      ensures !listening && Unattended(old(world)) ==> Unattended(world) && FirstKeyOnly(old(world), world)
      ensures !listening && Unattended(old(world)) ==> run.worlds[at].db.keys == world.db.keys
      ensures !listening && Unattended(old(world)) && AllReadable(old(world)) ==> r.Ok? && AllReadable(world)
    {
      hide Apply, Enabled, Sound, Run.Legal, AllReadable, Stamp, OneActiveKey;
      Yield(me);
      at := |run.events|;
      ghost var before := world;
      if !listening && Unattended(old(world)) {
        StillReadable(old(world), before);
      }
      if id :| id in world.db.keys && world.db.keys[id].status == Active {
        var row := world.db.keys[id];
        ActiveIsReadable(before, id);
        r := if Open(world.kek, row.blob).Some? then Ok(SigningKey(id, row.createdAt)) else Err(id);
      } else {
        var id, created := CreateKey(me);
        at := |run.events|;
        StampOfStamp(created);
        if !listening && Unattended(old(world)) {
          ReadableWithKey(before, world, id);
        }
        r := Ok(SigningKey(id, created));
      }
    }

    /** The slow path: the SELECT found nothing. */
    method CreateKey(me: nat) returns (id: Id, created: int)
      requires Valid() && Idle(world, me) && world.tx == None && NoActiveKey(world.db.keys)
      modifies this`world, this`run
      ensures Valid() && old(run).Prefix(run) && Idle(world, me) && KeyStepsOnly(run, me, |old(run).events|)
      ensures |old(run).events| < |run.events|
      ensures world.tx == None && ActiveKey(world.db.keys, id) && world.db.keys[id].createdAt == Stamp(created)
      ensures Open(world.kek, world.db.keys[id].blob).Some?
      ensures !listening && old(world).locals == map[] ==> world.locals == map[] && KeyAdded(old(world), world, id)
    {
      hide Apply, Enabled, Sound, Run.Legal, Stamp;
      SelectNoActiveKeyStep(world, me);
      Do(me, SelectNoActiveKey);
      id, created := GenerateSigningKey(me);
    }

    /** Generate, then INSERT. */
    method GenerateSigningKey(me: nat) returns (id: Id, created: int)
      requires Valid() && Holds(world, me, CreatingKey) && !Owns(world, me) && world.tx == None
      modifies this`world, this`run
      ensures Valid() && old(run).Prefix(run) && Idle(world, me) && KeyStepsOnly(run, me, |old(run).events|)
      ensures |old(run).events| < |run.events|
      ensures world.tx == None && ActiveKey(world.db.keys, id) && world.db.keys[id].createdAt == Stamp(created)
      ensures Open(world.kek, world.db.keys[id].blob).Some?
      ensures !listening ==> world.locals == old(world).locals - {me} && KeyAdded(old(world), world, id)
    {
      hide Apply, Enabled, Sound, Run.Legal, Stamp;
      Drift(me);
      created := world.now;
      Yield(me);
      id := NewId();
      SoundFreshKey(world, id);
      var nonce: string, der: string := *, *;
      var blob := Sealed(world.kek, nonce, der);
      InsertKeyStep(world, me, id, blob, created);
      Do(me, InsertKey(id, blob, created));
    }

    /** `c` is where the cutoff is computed, `q` where the query runs. The error names a row that
        does not open under the service's KEK. */
    method ListVerificationKeys(me: nat) returns (r: Result<seq<Id>, Id>, ghost c: nat, ghost q: nat)
      requires Valid() && Idle(world, me)
      modifies this`world, this`run
      ensures Valid() && old(run).Prefix(run) && Idle(world, me) && Quiet(run, me, |old(run).events|)
      ensures |old(run).events| <= c <= q < |run.worlds| && run.worlds[q].tx == None
      ensures r.Ok? ==> forall id :: id in r.value <==>
        id in run.worlds[q].db.keys && Published(run.worlds[q].db.keys[id], run.worlds[c].now)
      ensures r.Ok? ==> NoDuplicates(r.value) && forall i, j | 0 <= i < j < |r.value| ::
        run.worlds[q].db.keys[r.value[j]].createdAt <= run.worlds[q].db.keys[r.value[i]].createdAt
      ensures r.Err? ==> var keys := run.worlds[q].db.keys;
        r.error in keys && Open(run.worlds[q].kek, keys[r.error].blob) == None
        && Published(keys[r.error], run.worlds[c].now)
    {
      hide Apply, Enabled, Sound, Run.Legal;
      Drift(me);
      c := |run.events|;
      var clock := world.now;
      SoundTimes(world);
      Yield(me);
      q := |run.events|;
      SoundTimes(world);
      var listed := SelectPublished(world, clock);
      if listed.Err? {
        return Err(listed.error), c, q;
      }
      var ids := OrderBy(listed.value, map id | id in world.db.keys :: -world.db.keys[id].createdAt);
      assert forall i | 0 <= i < |ids| :: ids[i] in ids;
      r := Ok(ids);
    }

    /** The query, with SQLite comparing texts, and collectSigningKeys' decryption of each row. */
    static method SelectPublished(w: World, clock: int) returns (r: Result<set<Id>, Id>)
      requires Representable(clock - VERIFICATION_WINDOW)
      requires forall id :: id in w.db.keys && w.db.keys[id].retiredAt.Some? ==>
        Representable(w.db.keys[id].retiredAt.value) && w.db.keys[id].retiredAt.value % SECOND == 0
      ensures r.Ok? ==> forall id :: id in r.value <==> id in w.db.keys && Published(w.db.keys[id], clock)
      ensures r.Ok? ==> forall id :: id in r.value ==> !Unreadable(w, id)
      ensures r.Err? ==> Unreadable(w, r.error) && Published(w.db.keys[r.error], clock)
    {
      hide Representable, Stamp, Text;
      var keys, left, listed := w.db.keys, w.db.keys.Keys, {};
      while left != {}
        invariant left <= keys.Keys
        invariant forall id :: id in listed <==> id in keys && id !in left && Published(keys[id], clock)
        invariant forall id :: id in listed ==> !Unreadable(w, id)
        decreases left
      {
        var id :| id in left;
        left := left - {id};
        PublishedMatchesText(keys[id], clock);
        if PublishedByText(keys[id], clock) {
          if Open(w.kek, keys[id].blob) == None {
            return Err(id);
          }
          listed := listed + {id};
        }
      }
      r := Ok(listed);
    }

    /** Two clock readings inside a transaction, with time passing around them. */
    method TakeTwoTimes(me: nat) returns (first: int, second: int)
      requires Valid() && Owns(world, me)
      modifies this`world, this`run
      ensures Valid() && old(run).Prefix(run) && Quiet(run, me, |old(run).events|) && Mine(me, old(world), world)
      ensures old(world).now <= first <= second <= world.now
      ensures !listening ==> world.locals == old(world).locals
    {
      hide Apply, Enabled, Sound, Run.Legal;
      Drift(me);
      first := world.now;
      Drift(me);
      second := world.now;
      Drift(me);
    }

    method RotateSigningKey(me: nat) returns (id: Id)
      requires Valid() && Idle(world, me)
      modifies this`world, this`run
      ensures Valid() && old(run).Prefix(run) && Idle(world, me) && world.tx == None
      ensures OnlyActiveKey(world.db.keys, id)
      ensures |old(run).events| < |run.events| && run.events[|run.events| - 1].actor == me
        && run.events[|run.events| - 1].step.CommitRotation? && run.events[|run.events| - 1].step.id == id
      ensures !listening && old(world).tx == None ==> world.locals == old(world).locals
      ensures NoGrantsOfMine(run, me, |old(run).events|)
    {
      hide Apply, Enabled, Sound, Run.Legal;
      Yield(me);
      BeginStep(world, me);
      Do(me, Begin);
      var created, retired := TakeTwoTimes(me);
      id := NewId();
      var nonce: string, der: string := *, *;
      var blob := Sealed(world.kek, nonce, der);
      CommitRotationStep(world, me, id, blob, created, retired);
      Do(me, CommitRotation(id, blob, created, retired));
    }

    /** Rotates exactly when the key read is older than maxAge at the instant of the check. */
    method RotateSigningKeyIfOlderThan(me: nat, maxAge: int)
      returns (r: Result<Option<Id>, Id>, ghost key: SigningKey, ghost read: nat, ghost clock: nat)
      requires Valid() && Idle(world, me)
      modifies this`world, this`run
      ensures Valid() && old(run).Prefix(run) && Idle(world, me)
      ensures |old(run).events| <= read <= clock < |run.worlds|
      ensures r.Ok? ==> ActiveKey(run.worlds[read].db.keys, key.id)
      ensures r.Ok? ==> Stamp(key.createdAt) == Stamp(run.worlds[read].db.keys[key.id].createdAt)
      ensures r.Ok? ==> (r.value.Some? <==> maxAge < run.worlds[clock].now - key.createdAt)
      ensures r.Ok? && r.value.Some? ==> OnlyActiveKey(world.db.keys, r.value.value)
      ensures r.Err? ==> Unreadable(run.worlds[read], r.error) && ActiveKey(run.worlds[read].db.keys, r.error)
      ensures !listening && Unattended(old(world)) ==> Unattended(world)
      ensures !listening && Unattended(old(world)) ==>
        NoActiveKey(old(world).db.keys) || run.worlds[read].db.keys == old(world).db.keys
      ensures !listening && Unattended(old(world)) && (r.Err? || r.value.None?) ==> FirstKeyOnly(old(world), world)
      ensures !listening && Unattended(old(world)) && AllReadable(old(world)) ==> r.Ok?
      ensures NoGrantsOfMine(run, me, |old(run).events|)
    {
      hide Apply, Enabled, Sound, Run.Legal, AllReadable, OneActiveKey, OnlyActiveKey, NoActiveKey, Stamp;
      var k;
      k, read := GetOrCreateActiveSigningKey(me);
      clock := |run.events|;
      if k.Err? {
        return Err(k.error), SigningKey(k.error, 0), read, clock;
      }
      key := k.value;
      Drift(me);
      clock := |run.events|;
      if world.now - k.value.createdAt <= maxAge {
        return Ok(None), key, read, clock;
      }
      var id := RotateSigningKey(me);
      r := Ok(Some(id));
    }

    // ---- main: the signing-key part of the startup sequence ----

    /** Before listening: get or create the active key, then rotate it if it is older than 30 days at
        `clock`. That key is an active key of the table startup found, or the first one. On any table at
        all, exactly one active key results if and only if there was at most one, or it rotated. */
    method StartSigningKeys(me: nat)
      returns (r: Result<Option<Id>, Id>, ghost key: SigningKey, ghost read: nat, ghost clock: nat)
      requires Valid() && !listening && Unattended(world)
      modifies this`world, this`run
      ensures Valid() && old(run).Prefix(run) && Unattended(world)
      ensures r.Ok? ==> |old(run).events| <= read <= clock < |run.worlds|
      ensures r.Ok? ==> var keys := run.worlds[read].db.keys;
        && key.id in keys && keys[key.id].status == Active && Stamp(key.createdAt) == Stamp(keys[key.id].createdAt)
        && (NoActiveKey(old(world).db.keys) || keys == old(world).db.keys)
      ensures r.Ok? ==> (r.value.Some? <==> 30 * 24 * HOUR < run.worlds[clock].now - key.createdAt)
      ensures r.Ok? && r.value.Some? ==> OnlyActiveKey(world.db.keys, r.value.value)
      ensures r.Ok? && r.value.None? ==> NoActiveKey(old(world).db.keys) || world.db.keys == old(world).db.keys
      ensures r.Ok? ==> (OneActiveKey(world.db.keys) <==> AtMostOneActive(old(world).db.keys) || r.value.Some?)
      ensures AllReadable(old(world)) ==> r.Ok?
      ensures NoGrantsOfMine(run, me, |old(run).events|)
    {
      hide Apply, Enabled, Sound, Run.Legal, AllReadable;
      var k;
      k, read := GetOrCreateActiveSigningKey(me);
      if k.Err? {
        return Err(k.error), SigningKey(k.error, 0), read, read;
      }
      r, key, read, clock := RotateSigningKeyIfOlderThan(me, ROTATION_INTERVAL);
    }

    // ---- store/store.go: principals, credentials, sessions ----

    method GetPrincipalByID(me: nat, id: Id) returns (r: Option<Principal>, ghost at: nat)
      requires Valid() && Idle(world, me)
      modifies this`world, this`run
      ensures Valid() && old(run).Prefix(run) && Idle(world, me) && Quiet(run, me, |old(run).events|)
      ensures |old(run).events| <= at < |run.worlds|
      ensures r == if id in run.worlds[at].db.principals then Some(run.worlds[at].db.principals[id]) else None
    {
      hide Apply, Enabled, Sound, Run.Legal;
      Yield(me);
      at := |run.events|;
      r := if id in world.db.principals then Some(world.db.principals[id]) else None;
    }

    method GetPrincipalByExternalID(me: nat, klass: PrincipalClass, externalId: string)
      returns (r: Option<Id>, ghost at: nat)
      requires Valid() && Idle(world, me)
      modifies this`world, this`run
      ensures Valid() && old(run).Prefix(run) && Idle(world, me) && Quiet(run, me, |old(run).events|)
      ensures |old(run).events| <= at < |run.worlds|
      ensures run.worlds[at].now <= world.now
      ensures !listening && old(world).tx == None ==> run.worlds[at] == world == old(world).(now := world.now)
      ensures var principals := run.worlds[at].db.principals;
        match r
        case Some(id) => id in principals && principals[id] == Principal(klass, externalId)
        case None => forall id :: id in principals ==> principals[id] != Principal(klass, externalId)
    {
      hide Apply, Enabled, Sound, Run.Legal;
      Yield(me);
      at := |run.events|;
      if id :| id in world.db.principals && world.db.principals[id] == Principal(klass, externalId) {
        r := Some(id);
      } else {
        r := None;
      }
    }

    method CreatePrincipal(me: nat, klass: PrincipalClass, externalId: string) returns (r: Option<Id>)
      requires Valid() && Idle(world, me)
      modifies this`world, this`run
      ensures Valid() && old(run).Prefix(run) && Idle(world, me)
      ensures r.None? ==> Quiet(run, me, |old(run).events|) && exists id ::
        id in world.db.principals && world.db.principals[id] == Principal(klass, externalId)
      ensures r.Some? ==> |old(run).events| < |run.events| && var w := run.worlds[|run.events| - 1];
        world.db == w.db.(principals := w.db.principals[r.value := Principal(klass, externalId)])
        && r.value !in w.db.principals
        && forall id :: id in w.db.principals ==> w.db.principals[id] != Principal(klass, externalId)
      ensures NoGrantsOfMine(run, me, |old(run).events|)
      ensures !listening && old(world).tx == None && r.None? ==> world == old(world).(now := world.now)
      ensures !listening && old(world).tx == None && r.Some? ==>
        r.value !in old(world).db.principals && PrincipalAdded(old(world), world, r.value, klass, externalId)
    {
      hide Apply, Enabled, Sound, Run.Legal;
      Yield(me);
      if Registered(world.db, klass, externalId) {
        return None;
      }
      var id := NewId();
      assert id !in world.db.principals by { SoundIssued(world, id); }
      AddPrincipalStep(world, me, id, klass, externalId);
      Do(me, AddPrincipal(id, klass, externalId));
      r := Some(id);
    }

    method ListCredentialsByPrincipal(me: nat, p: Id) returns (rows: seq<Credential>, ghost at: nat)
      requires Valid() && Idle(world, me)
      modifies this`world, this`run
      ensures Valid() && old(run).Prefix(run) && Idle(world, me) && Quiet(run, me, |old(run).events|)
      ensures |old(run).events| <= at < |run.worlds|
      ensures !listening && old(world).tx == None ==> run.worlds[at] == world == old(world).(now := world.now)
      ensures CredentialRows(run.worlds[at].db.credentials, p, rows)
      ensures var credentials := run.worlds[at].db.credentials; exists ids ::
        NoDuplicates(ids) && (forall id :: id in ids <==> id in credentials && credentials[id].principal == p)
        && |rows| == |ids| && (forall i | 0 <= i < |ids| :: rows[i] == credentials[ids[i]])
        && (forall i, j | 0 <= i < j < |ids| :: rows[i].createdAt <= rows[j].createdAt)
    {
      hide Apply, Enabled, Sound, Run.Legal;
      Yield(me);
      at := |run.events|;
      rows := CollectCredentials(world.db.credentials, p);
    }

    static method CollectCredentials(credentials: map<Id, Credential>, p: Id) returns (rows: seq<Credential>)
      ensures CredentialRows(credentials, p, rows) && CredentialsInOrder(credentials, p, rows)
    {
      var ids := OrderBy(CredentialsOf(credentials, p), Created(credentials));
      rows := [];
      for i := 0 to |ids|
        invariant AreRows(credentials, ids[..i], rows)
      {
        assert ids[i] in ids && ids[..i + 1] == ids[..i] + [ids[i]];
        rows := rows + [credentials[ids[i]]];
      }
      assert ids[..|ids|] == ids;
      RowsAreThose(credentials, p, ids, rows);
    }

    method CreateIDPSession(me: nat, p: Id) returns (r: Option<string>)
      requires Valid() && Idle(world, me)
      modifies this`world, this`run
      ensures Valid() && old(run).Prefix(run) && Idle(world, me) && |old(run).events| <= |run.events|
      ensures r.None? ==> Quiet(run, me, |old(run).events|) && p !in world.db.principals
      ensures r.Some? ==> |old(run).events| < |run.events| && var e := run.events[|run.events| - 1];
        e.actor == me && e.step.AddSession? && e.step.raw == r.value && e.step.principal == p
        && old(world).now <= e.step.at && var w := run.worlds[|run.events| - 1];
        world.db == w.db.(sessions := w.db.sessions[Digest(r.value) :=
          Session(p, Stamp(e.step.at), Stamp(e.step.at + 72 * HOUR), None)])
    {
      hide Apply, Enabled, Sound, Run.Legal;
      Drift(me);
      var now := world.now;
      Yield(me);
      if p !in world.db.principals {
        return None;
      }
      var raw := NewId();
      AddSessionEnabled(world, me, raw, p, now);
      Do(me, AddSession(raw, p, now));
      r := Some(raw);
    }

    method GetIDPSessionByToken(me: nat, raw: string)
      returns (r: Result<Session, SessionError>, ghost at: nat, ghost clock: nat)
      requires Valid() && Idle(world, me)
      modifies this`world, this`run
      ensures Valid() && old(run).Prefix(run) && Idle(world, me) && Quiet(run, me, |old(run).events|)
      ensures |old(run).events| <= at <= clock < |run.worlds|
      ensures var sessions, h := run.worlds[at].db.sessions, Digest(raw);
        match r
        case Ok(s) => h in sessions && sessions[h] == s && s.revokedAt == None && run.worlds[clock].now <= s.expiresAt
        case Err(SessionNotFound) => h !in sessions
        case Err(SessionRevoked) => h in sessions && sessions[h].revokedAt.Some?
        case Err(SessionExpired) => (
          h in sessions && sessions[h].revokedAt == None && sessions[h].expiresAt < run.worlds[clock].now)
    {
      hide Apply, Enabled, Sound, Run.Legal;
      Yield(me);
      at, clock := |run.events|, |run.events|;
      if Digest(raw) !in world.db.sessions {
        return Err(SessionNotFound), at, clock;
      }
      var s := world.db.sessions[Digest(raw)];
      if s.revokedAt.Some? {
        return Err(SessionRevoked), at, clock;
      }
      Drift(me);
      clock := |run.events|;
      if s.expiresAt < world.now {
        return Err(SessionExpired), at, clock;
      }
      r := Ok(s);
    }

    /** Revokes every session of a principal at once; the count is of those it revoked. */
    method RevokeIDPSessionsForPrincipal(me: nat, p: Id) returns (n: nat)
      requires Valid() && Idle(world, me)
      modifies this`world, this`run
      ensures Valid() && old(run).Prefix(run) && Idle(world, me)
      ensures |old(run).events| < |run.events| && var e := run.events[|run.events| - 1];
        e.actor == me && e.step.RevokeSessions? && e.step.principal == p && old(world).now <= e.step.at
      ensures var sessions := run.worlds[|run.events| - 1].db.sessions;
        n == |set h | h in sessions && sessions[h].principal == p && sessions[h].revokedAt == None|
      ensures var before, at := run.worlds[|run.events| - 1], run.events[|run.events| - 1].step.at;
        world == before.(db := before.db.(sessions := world.db.sessions))
        && world.db.sessions.Keys == before.db.sessions.Keys
        && forall h :: h in before.db.sessions ==>
          var s := before.db.sessions[h];
          world.db.sessions[h]
          == if s.principal == p && s.revokedAt == None then s.(revokedAt := Some(Stamp(at))) else s
    {
      hide Apply, Enabled, Sound, Run.Legal;
      Drift(me);
      var now := world.now;
      Yield(me);
      n := |set h | h in world.db.sessions && world.db.sessions[h].principal == p
                     && world.db.sessions[h].revokedAt == None|;
      RevokeSessionsStep(world, me, p, now);
      Do(me, RevokeSessions(p, now));
    }

    method RevokeIDPSessionByToken(me: nat, raw: string)
      requires Valid() && Idle(world, me)
      modifies this`world, this`run
      ensures Valid() && old(run).Prefix(run) && Idle(world, me)
      ensures |old(run).events| < |run.events| && var e := run.events[|run.events| - 1];
        e.actor == me && e.step.RevokeSession? && e.step.session == Digest(raw) && old(world).now <= e.step.at
      ensures var before, h := run.worlds[|run.events| - 1], Digest(raw);
        world == before.(db := before.db.(sessions :=
          if h in before.db.sessions && before.db.sessions[h].revokedAt == None
          then before.db.sessions[h :=
                 before.db.sessions[h].(revokedAt := Some(Stamp(run.events[|run.events| - 1].step.at)))]
          else before.db.sessions))
    {
      hide Apply, Enabled, Sound, Run.Legal;
      Drift(me);
      var now := world.now;
      Yield(me);
      RevokeSessionStep(world, me, Digest(raw), now);
      Do(me, RevokeSession(Digest(raw), now));
    }

    // ---- store/grant.go ----

    method CreateGrant(me: nat, p: Id, scope: string, env: string, grantor: string) returns (r: Result<Id, GrantError>)
      requires Valid() && Idle(world, me)
      modifies this`world, this`run
      ensures Valid() && old(run).Prefix(run) && Idle(world, me)
      ensures r.Err? ==> Quiet(run, me, |old(run).events|)
      ensures r == Err(UnknownScope) <==> scope !in world.vocabulary
      ensures r == Err(NoSuchPrincipal) ==> p !in world.db.principals
      ensures r == Err(DuplicateGrant) ==> p in world.db.principals && exists id ::
        id in world.db.grants && world.db.grants[id].principal == p && world.db.grants[id].scope == scope
        && world.db.grants[id].environment == env && world.db.grants[id].revoked == None
      ensures r.Ok? ==> |old(run).events| < |run.events| && var w := run.worlds[|run.events| - 1];
        && scope in w.vocabulary && p in w.db.principals && !Granted(w.db.grants, p, scope, env)
        && InForce(world.db.grants) == InForce(w.db.grants) + {Triple(p, scope, env)}
      ensures r.Ok? ==> forall k | |old(run).events| <= k < |run.events| - 1 :: run.events[k].actor != me
      ensures r.Ok? ==> var w, e := run.worlds[|run.events| - 1], run.events[|run.events| - 1];
        e.step.AddGrant? && e == Event(me, AddGrant(r.value, p, scope, env, grantor, e.step.at))
        && world == w.(issued := world.issued, db := w.db.(grants :=
                       w.db.grants[r.value := Grant(p, scope, env, grantor, Stamp(e.step.at), None)]))
      ensures !listening && old(world).tx == None && r.Err? ==> world == old(world).(now := world.now)
      ensures !listening && old(world).tx == None && r.Ok? ==>
        var w := run.worlds[|run.events| - 1]; w == old(world).(now := w.now)
    {
      hide Apply, Enabled, Sound, Run.Legal, InForce, Granted;
      if scope !in world.vocabulary {
        return Err(UnknownScope);
      }
      Drift(me);
      var now := world.now;
      Yield(me);
      r := InsertGrant(me, p, scope, env, grantor, now);
    }

    /** Its INSERT: the foreign key and idx_grants_active decide. */
    method InsertGrant(me: nat, p: Id, scope: string, env: string, grantor: string, now: int)
      returns (r: Result<Id, GrantError>)
      requires Valid() && Idle(world, me) && world.tx == None && scope in world.vocabulary && now <= world.now
      modifies this`world, this`run
      ensures Valid() && old(run).Prefix(run) && Idle(world, me)
      ensures match r
        case Ok(id) => (
          && p in old(world).db.principals && !Granted(old(world).db.grants, p, scope, env)
          && run.events == old(run).events + [Event(me, AddGrant(id, p, scope, env, grantor, now))]
          && world == old(world).(issued := world.issued, db := old(world).db.(grants :=
                        old(world).db.grants[id := Grant(p, scope, env, grantor, Stamp(now), None)]))
          && InForce(world.db.grants) == InForce(old(world).db.grants) + {Triple(p, scope, env)})
        case Err(NoSuchPrincipal) => run == old(run) && world == old(world) && p !in world.db.principals
        case Err(DuplicateGrant) => (
          && run == old(run) && world == old(world) && p in world.db.principals
          && exists id :: id in world.db.grants && world.db.grants[id].principal == p
                          && world.db.grants[id].scope == scope && world.db.grants[id].environment == env
                          && world.db.grants[id].revoked == None)
        case Err(UnknownScope) => false
    {
      hide Apply, Enabled, Sound, Run.Legal, InForce, Granted;
      if p !in world.db.principals {
        return Err(NoSuchPrincipal);
      }
      if Granted(world.db.grants, p, scope, env) {
        GrantedRow(world.db.grants, p, scope, env);
        return Err(DuplicateGrant);
      }
      var id := NewId();
      AddGrantStep(world, me, id, p, scope, env, grantor, now);
      Do(me, AddGrant(id, p, scope, env, grantor, now));
      r := Ok(id);
    }

    /** SELECT, then an UPDATE with no guard on revoked_at. */
    method RevokeGrant(me: nat, id: Id, revoker: string) returns (r: Result<int, RevokeError>, ghost select: nat)
      requires Valid() && Idle(world, me)
      modifies this`world, this`run
      ensures Valid() && old(run).Prefix(run) && Idle(world, me)
      ensures |old(run).events| <= select < |run.worlds|
      ensures var grants := run.worlds[select].db.grants;
        match r
        case Err(AlreadyRevoked) => id in grants && grants[id].revoked.Some? && Quiet(run, me, |old(run).events|)
        case Err(NoSuchRow) => id !in grants && Quiet(run, me, |old(run).events|)
        case Ok(at) => (
          && id in grants && grants[id].revoked == None && select < |run.events|
          && run.events[|run.events| - 1] == Event(me, RevokeGrantRow(id, revoker, at))
          && var w := run.worlds[|run.events| - 1];
          world == w.(db := w.db.(grants := if id in w.db.grants
            then w.db.grants[id := w.db.grants[id].(revoked := Some(Revocation(revoker, Stamp(at))))]
            else w.db.grants)))
    {
      hide Apply, Enabled, Sound, Run.Legal;
      Yield(me);
      select := |run.events|;
      if id !in world.db.grants {
        return Err(NoSuchRow), select;
      }
      if world.db.grants[id].revoked.Some? {
        return Err(AlreadyRevoked), select;
      }
      Drift(me);
      var now := world.now;
      Yield(me);
      RevokeGrantStep(world, me, id, revoker, now);
      Do(me, RevokeGrantRow(id, revoker, now));
      r := Ok(now);
    }

    /** The same two steps on the credentials table. */
    method RevokeCredential(me: nat, id: Id, revoker: string) returns (r: Result<int, RevokeError>, ghost select: nat)
      requires Valid() && Idle(world, me)
      modifies this`world, this`run
      ensures Valid() && old(run).Prefix(run) && Idle(world, me)
      ensures |old(run).events| <= select < |run.worlds|
      ensures var credentials := run.worlds[select].db.credentials;
        match r
        case Err(AlreadyRevoked) =>
          id in credentials && credentials[id].revoked.Some? && Quiet(run, me, |old(run).events|)
        case Err(NoSuchRow) => id !in credentials && Quiet(run, me, |old(run).events|)
        case Ok(at) => (
          && id in credentials && credentials[id].revoked == None && select < |run.events|
          && run.events[|run.events| - 1] == Event(me, RevokeCredentialRow(id, revoker, at))
          && var w := run.worlds[|run.events| - 1];
          world == w.(db := w.db.(credentials := if id in w.db.credentials
            then w.db.credentials[id := w.db.credentials[id].(revoked := Some(Revocation(revoker, Stamp(at))))]
            else w.db.credentials)))
    {
      hide Apply, Enabled, Sound, Run.Legal;
      Yield(me);
      select := |run.events|;
      if id !in world.db.credentials {
        return Err(NoSuchRow), select;
      }
      if world.db.credentials[id].revoked.Some? {
        return Err(AlreadyRevoked), select;
      }
      Drift(me);
      var now := world.now;
      Yield(me);
      RevokeCredentialStep(world, me, id, revoker, now);
      Do(me, RevokeCredentialRow(id, revoker, now));
      r := Ok(now);
    }

    /** ListGrants and the loop of GetActiveScopes; `env` may be "" in ListGrants only. */
    method GetActiveScopes(me: nat, p: Id) returns (scopes: seq<string>, ghost at: nat)
      requires Valid() && Idle(world, me)
      modifies this`world, this`run
      ensures Valid() && old(run).Prefix(run) && Idle(world, me) && Quiet(run, me, |old(run).events|)
      ensures |old(run).events| <= at < |run.worlds|
      ensures ScopesInForce(run.worlds[at].db.grants, p, environment, scopes) && NoDuplicates(scopes)
      ensures var grants := run.worlds[at].db.grants; exists ids ::
        NoDuplicates(ids)
        && (forall id :: id in ids <==>
              id in grants && grants[id].principal == p && grants[id].environment == environment
              && grants[id].revoked == None)
        && |scopes| == |ids| && (forall i | 0 <= i < |ids| :: scopes[i] == grants[ids[i]].scope)
        && (forall i, j | 0 <= i < j < |ids| :: grants[ids[i]].grantedAt <= grants[ids[j]].grantedAt)
    {
      hide Apply, Enabled, Sound, Run.Legal;
      Yield(me);
      at := |run.events|;
      SoundUnique(world);
      scopes := GrantQueries.ActiveScopes(world.db.grants, p, environment);
    }

    // ---- store/oidc.go ----

    method GetOIDCAuthCode(me: nat, raw: string) returns (r: Result<Code, CodeError>, ghost at: nat, ghost clock: nat)
      requires Valid() && Idle(world, me)
      modifies this`world, this`run
      ensures Valid() && old(run).Prefix(run) && Idle(world, me) && Quiet(run, me, |old(run).events|)
      ensures |old(run).events| <= at <= clock < |run.worlds|
      ensures var codes, h := run.worlds[at].db.codes, Digest(raw);
        match r
        case Ok(row) => h in codes && codes[h] == row && row.usedAt == None && run.worlds[clock].now <= row.expiresAt
        case Err(CodeNotFound) => h !in codes
        case Err(CodeUsed) => h in codes && codes[h].usedAt.Some?
        case Err(CodeExpired) => h in codes && codes[h].usedAt == None && codes[h].expiresAt < run.worlds[clock].now
    {
      hide Apply, Enabled, Sound, Run.Legal;
      Yield(me);
      at, clock := |run.events|, |run.events|;
      if Digest(raw) !in world.db.codes {
        return Err(CodeNotFound), at, clock;
      }
      var row := world.db.codes[Digest(raw)];
      if row.usedAt.Some? {
        return Err(CodeUsed), at, clock;
      }
      Drift(me);
      clock := |run.events|;
      if row.expiresAt < world.now {
        return Err(CodeExpired), at, clock;
      }
      r := Ok(row);
    }

    /** The transaction. On success its commit is the last event; on failure none of my events is one. */
    method ConsumeOIDCAuthCode(me: nat, raw: string) returns (r: Result<Code, CodeError>, ghost read: nat)
      requires Valid() && Idle(world, me)
      modifies this`world, this`run
      ensures Valid() && old(run).Prefix(run) && Idle(world, me)
      ensures r.Ok? ==> |old(run).events| < |run.events| && JustConsumed(run, me, Digest(raw), r.value)
      ensures r.Ok? ==> var w, e, h := run.worlds[|run.events| - 1], run.events[|run.events| - 1], Digest(raw);
        && e.actor == me && e.step.CommitConsume? && e.step.digest == h && e.step.checked <= r.value.expiresAt
        && h in w.db.codes && w.db.codes[h] == r.value && r.value.usedAt == None
        && world == w.(tx := None, db := w.db.(codes := w.db.codes[h := r.value.(usedAt := Some(Stamp(e.step.at)))]))
      ensures r.Err? ==> forall k | |old(run).events| <= k < |run.events| && run.events[k].actor == me ::
        !run.events[k].step.CommitConsume?
      ensures |old(run).events| <= read < |run.worlds|
      ensures r.Err? ==> var codes, h, now := run.worlds[read].db.codes, Digest(raw), run.worlds[read].now;
        match r.error
        case CodeNotFound => h !in codes
        case CodeUsed => h in codes && codes[h].usedAt.Some?
        case CodeExpired => h in codes && codes[h].usedAt == None && codes[h].expiresAt < now
    {
      hide Apply, Enabled, Sound, Run.Legal, Stamp;
      Yield(me);
      BeginStep(world, me);
      Do(me, Begin);
      Yield(me);
      read := |run.events|;
      r := ConsumeInTx(me, Digest(raw));
    }

    /** SELECT, expiry check and guarded UPDATE, then Commit or Rollback. */
    method ConsumeInTx(me: nat, h: Digest) returns (r: Result<Code, CodeError>)
      requires Valid() && me !in world.locals && Owns(world, me) && world.tx.value.began <= world.now
      modifies this`world, this`run
      ensures Valid() && old(run).Prefix(run) && Idle(world, me)
      ensures r.Ok? ==> |old(run).events| < |run.events| && JustConsumed(run, me, h, r.value)
      ensures r.Ok? ==> var w, e := run.worlds[|run.events| - 1], run.events[|run.events| - 1];
        e.step.checked <= r.value.expiresAt
        && world == w.(tx := None, db := w.db.(codes := w.db.codes[h := r.value.(usedAt := Some(Stamp(e.step.at)))]))
      ensures r.Err? ==> ConsumesNothing(run, me, |old(run).events|)
      ensures r.Err? ==> CodeRead(old(world).db.codes, h, old(world).now, r)
    {
      hide Apply, Enabled, Sound, Run.Legal;
      var checked := world.now;
      if h !in world.db.codes || world.db.codes[h].usedAt.Some? || world.db.codes[h].expiresAt < checked {
        r := Err(if h !in world.db.codes then CodeNotFound
                 else if world.db.codes[h].usedAt.Some? then CodeUsed else CodeExpired);
        RollbackStep(world, Event(me, Rollback));
        Do(me, Rollback);
        return;
      }
      var row := world.db.codes[h];
      Yield(me);
      CommitConsumeStep(world, me, h, checked, world.now);
      Do(me, CommitConsume(h, checked, world.now));
      r := Ok(row);
    }

    /** One INSERT; None when the principal has gone (a foreign key violation). */
    method CreateOIDCAuthCode(me: nat, client: string, p: Id, uri: string, scope: string, nonce: string, issuedAt: int)
      returns (r: Option<string>)
      requires Valid() && Idle(world, me) && issuedAt <= world.now
      modifies this`world, this`run
      ensures Valid() && old(run).Prefix(run) && Idle(world, me)
      ensures r.None? ==> Quiet(run, me, |old(run).events|) && p !in world.db.principals
      ensures r.Some? ==> |old(run).events| < |run.events|
      ensures r.Some? ==> run.events[|run.events| - 1] == Event(me, AddCode(r.value,
        Code(client, p, uri, scope, nonce, Stamp(issuedAt + 5 * MINUTE), None), issuedAt))
    {
      hide Apply, Enabled, Sound, Run.Legal;
      Yield(me);
      if p !in world.db.principals {
        return None;
      }
      var raw := NewId();
      var row := Code(client, p, uri, scope, nonce, Stamp(issuedAt + CODE_TTL), None);
      AddCodeStep(world, me, raw, row, issuedAt);
      Do(me, AddCode(raw, row, issuedAt));
      r := Some(raw);
    }

    /** HasRedirectURI: exact comparison with each registered URI. */
    static method HasRedirectURI(client: Client, uri: string) returns (found: bool)
      ensures found <==> uri in client.redirectUris
    {
      for i := 0 to |client.redirectUris|
        invariant uri !in client.redirectUris[..i]
      {
        if client.redirectUris[i] == uri {
          return true;
        }
      }
      assert client.redirectUris[..|client.redirectUris|] == client.redirectUris;
      found := false;
    }

    // ---- oidc.go: /oauth2/authorize ----

    /** Phases 1 and 2. Anything wrong with the client or the redirect URI is BadClient, the one refusal
        that is not sent to the redirect URI; the others come only with a URI registered for the client. */
    method CheckAuthorize(clientId: string, uri: string, responseType: string, scope: string)
      returns (r: Option<AuthorizeError>)
      ensures var registered :=
          clientId != "" && clientId in clients && uri != "" && uri in clients[clientId].redirectUris;
        match r
        case Some(BadClient) => !registered
        case Some(BadResponseType) => registered && responseType != "code"
        case Some(NoOpenidScope) => registered && responseType == "code" && "openid" !in Fields(scope)
        case None => registered && responseType == "code" && "openid" in Fields(scope)
        case Some(_) => false
    {
      if clientId == "" || clientId !in clients || uri == "" {
        return Some(BadClient);
      }
      var registered := HasRedirectURI(clients[clientId], uri);
      if !registered {
        return Some(BadClient);
      }
      if responseType != "code" {
        return Some(BadResponseType);
      }
      var requested := ParseScopeParam(scope);
      ParseIdempotent(scope);
      r := if "openid" in requested then None else Some(NoOpenidScope);
    }

    /** `claims` is what a valid session cookie says, None without one. A code is issued only to a
        registered redirect URI, for the signed-in principal, bound to exactly the request. */
    method HandleAuthorize(me: nat, clientId: string, uri: string, responseType: string, scope: string, nonce: string,
                           claims: Option<(PrincipalClass, string)>)
      returns (r: Result<string, AuthorizeError>, ghost p: Id, ghost issuedAt: int, ghost at: nat)
      requires Valid() && Idle(world, me)
      modifies this`world, this`run
      ensures Valid() && old(run).Prefix(run) && Idle(world, me)
      ensures r.Err? ==> forall k | |old(run).events| <= k < |run.events| :: run.events[k].actor != me
      ensures var registered :=
          clientId != "" && clientId in clients && uri != "" && uri in clients[clientId].redirectUris;
        match r
        case Err(BadClient) => !registered
        case Err(BadResponseType) => registered && responseType != "code"
        case Err(NoOpenidScope) => registered && responseType == "code" && "openid" !in Fields(scope)
        case Err(LoginRequired) => registered && responseType == "code" && "openid" in Fields(scope) && claims.None?
        case _ => registered && responseType == "code" && "openid" in Fields(scope) && claims.Some?
      ensures r.Ok? ==> |old(run).events| <= at < |run.worlds| && var principals := run.worlds[at].db.principals;
        && p in principals && principals[p] == Principal(claims.value.0, claims.value.1)
        && run.worlds[at].now <= issuedAt && |run.events| > 0
        && run.events[|run.events| - 1] == Event(me, AddCode(r.value,
             Code(clientId, p, uri, scope, nonce, Stamp(issuedAt + 5 * MINUTE), None), issuedAt))
      ensures r == Err(AuthorizeServerError) ==> |old(run).events| <= at < |run.worlds|
      ensures r == Err(AuthorizeServerError) ==>
        var principals, named := run.worlds[at].db.principals, Principal(claims.value.0, claims.value.1);
        || (forall id :: id in principals ==> principals[id] != named)
        || (p in principals && principals[p] == named && p !in world.db.principals)
    {
      hide Apply, Enabled, Sound, Run.Legal, Fields, Stamp;
      p, issuedAt, at := "", 0, 0;
      var refusal := CheckAuthorize(clientId, uri, responseType, scope);
      if refusal.Some? {
        return Err(refusal.value), p, issuedAt, at;
      }
      if claims.None? {
        return Err(LoginRequired), p, issuedAt, at;
      }
      r, p, issuedAt, at := IssueCode(me, clientId, uri, scope, nonce, claims.value);
    }

    /** The principal lookup and the INSERT. */
    method IssueCode(me: nat, clientId: string, uri: string, scope: string, nonce: string,
                     claims: (PrincipalClass, string))
      returns (r: Result<string, AuthorizeError>, ghost p: Id, ghost issuedAt: int, ghost at: nat)
      requires Valid() && Idle(world, me)
      modifies this`world, this`run
      ensures Valid() && old(run).Prefix(run) && Idle(world, me)
      ensures r.Err? ==> Quiet(run, me, |old(run).events|) && r.error == AuthorizeServerError
      ensures |old(run).events| <= at < |run.worlds|
      ensures var principals, named := run.worlds[at].db.principals, Principal(claims.0, claims.1);
        match r
        case Ok(raw) => (
          && p in principals && principals[p] == named && run.worlds[at].now <= issuedAt
          && |run.events| > 0 && run.events[|run.events| - 1] == Event(me, AddCode(raw,
               Code(clientId, p, uri, scope, nonce, Stamp(issuedAt + 5 * MINUTE), None), issuedAt)))
        case Err(_) => (
          || (forall id :: id in principals ==> principals[id] != named)
          || (p in principals && principals[p] == named && p !in world.db.principals))
    {
      hide Apply, Enabled, Sound, Run.Legal, Stamp;
      p, issuedAt := "", 0;
      var found;
      found, at := GetPrincipalByExternalID(me, claims.0, claims.1);
      if found.None? {
        return Err(AuthorizeServerError), p, issuedAt, at;
      }
      p := found.value;
      Drift(me);
      issuedAt := world.now;
      var now := world.now;
      var raw := CreateOIDCAuthCode(me, clientId, found.value, uri, scope, nonce, now);
      r := if raw.Some? then Ok(raw.value) else Err(AuthorizeServerError);
    }

    // ---- token/token.go ----

    /** MintSession: `at` is the world whose clock becomes `iat`. */
    method MintSession(me: nat, principal: Principal, scopes: seq<string>, oidcScopes: seq<string>, key: SigningKey)
      returns (tok: Token, ghost at: nat)
      requires Valid() && Idle(world, me)
      modifies this`world, this`run
      ensures Valid() && old(run).Prefix(run) && Idle(world, me) && Quiet(run, me, |old(run).events|)
      ensures |old(run).events| <= at < |run.worlds|
      ensures tok == Token(key.id, principal.externalId, principal.klass, scopes, oidcScopes,
                           run.worlds[at].now, run.worlds[at].now + 15 * MINUTE)
    {
      hide Apply, Enabled, Sound, Run.Legal;
      Drift(me);
      at := |run.events|;
      tok := Token(key.id, principal.externalId, principal.klass, scopes, oidcScopes, world.now, world.now + TOKEN_TTL);
    }

    /** The tail all four paths share: key, then stamp. */
    method KeyAndMint(me: nat, ghost p: Id, principal: Principal, scopes: seq<string>, oidcScopes: seq<string>,
                      ghost scopesAt: nat)
      returns (r: Result<(Token, SigningKey), Id>, ghost mint: MintPoints)
      requires Valid() && Idle(world, me) && scopesAt <= |run.events|
      requires forall s :: s in scopes ==> Granted(run.worlds[scopesAt].db.grants, p, s, environment)
      modifies this`world, this`run
      ensures Valid() && old(run).Prefix(run) && Idle(world, me) && KeyStepsOnly(run, me, |old(run).events|)
      ensures r.Ok? ==> mint.scopes == scopesAt && |old(run).events| <= mint.mint
      ensures r.Ok? ==> Minted(run, mint, p, environment, r.value.0)
      ensures r.Ok? ==> r.value.0.subject == principal.externalId && r.value.0.klass == principal.klass
      ensures r.Ok? ==>
        r.value.0.scopes == scopes && r.value.0.oidcScopes == oidcScopes && r.value.0.kid == r.value.1.id
      ensures r.Err? ==> |old(run).events| <= mint.key && KeyBlocked(run, mint.key)
    {
      hide Apply, Enabled, Sound, Run.Legal;
      var key, keyAt := GetOrCreateActiveSigningKey(me);
      mint := MintPoints(scopesAt, keyAt, keyAt);
      if key.Err? {
        assert ActiveKey(run.worlds[keyAt].db.keys, key.error) && Unreadable(run.worlds[keyAt], key.error);
        return Err(key.error), mint;
      }
      var tok, at := MintSession(me, principal, scopes, oidcScopes, key.value);
      mint := MintPoints(scopesAt, keyAt, at);
      r := Ok((tok, key.value));
    }

    /** For a principal acting for itself, at a re-mint or a login: all its scopes in force, then key and token. */
    method MintForPrincipal(me: nat, p: Id, principal: Principal) returns (r: Result<Token, Id>, ghost mint: MintPoints)
      requires Valid() && Idle(world, me)
      modifies this`world, this`run
      ensures Valid() && old(run).Prefix(run) && Idle(world, me) && KeyStepsOnly(run, me, |old(run).events|)
      ensures r.Ok? ==> |old(run).events| <= mint.scopes && OwnToken(run, p, principal, environment, mint, r.value)
      ensures r.Ok? ==> r.value.issuedAt <= world.now
      ensures r.Err? ==> KeyBlocked(run, mint.key)
    {
      hide Apply, Enabled, Sound, Run.Legal, ScopesInForce, Minted, Granted, Stamp, KeyBlocked;
      ghost var gAt;
      var scopes, minted;
      scopes, gAt := GetActiveScopes(me, p);
      InForceAreGranted(run.worlds[gAt].db.grants, p, environment, scopes);
      minted, mint := KeyAndMint(me, p, principal, scopes, [], gAt);
      if minted.Err? {
        return Err(minted.error), mint;
      }
      MintedBy(run, mint, p, environment, minted.value.0);
      MintedStands(run, run, mint, p, environment, minted.value.0);
      r := Ok(minted.value.0);
    }

    // ---- remint.go ----

    /** The session, then its principal. */
    method CheckSession(me: nat, raw: string) returns (r: Result<(Id, Principal), Denial>, ghost at: ReMintPoints)
      requires Valid() && Idle(world, me)
      modifies this`world, this`run
      ensures Valid() && old(run).Prefix(run) && Idle(world, me) && Quiet(run, me, |old(run).events|)
      ensures |old(run).events| <= at.session && at.mint == MintPoints(0, 0, 0)
      ensures r.Ok? ==> SessionStands(run, at, raw, r.value.0, r.value.1.klass, r.value.1.externalId)
      ensures r.Err? ==> ReMintDenied(run, at, raw, r.error)
    {
      hide Apply, Enabled, Sound, Run.Legal, HasActiveWebAuthn;
      ghost var sAt, clock, pAt;
      var sess, principal;
      sess, sAt, clock := GetIDPSessionByToken(me, raw);
      at := ReMintPoints(sAt, clock, clock, clock, MintPoints(0, 0, 0));
      if sess.Err? {
        return Err(BadSession(sess.error)), at;
      }
      principal, pAt := GetPrincipalByID(me, sess.value.principal);
      at := at.(principal := pAt);
      r := if principal.None? then Err(PrincipalGone) else Ok((sess.value.principal, principal.value));
    }

    /** The checks before minting, each on its own read. */
    method Revalidate(me: nat, raw: string) returns (r: Result<(Id, Principal), Denial>, ghost at: ReMintPoints)
      requires Valid() && Idle(world, me)
      modifies this`world, this`run
      ensures Valid() && old(run).Prefix(run) && Idle(world, me) && Quiet(run, me, |old(run).events|)
      ensures |old(run).events| <= at.session
      ensures r.Ok? ==> Revalidated(run, at, raw, r.value.0, r.value.1.klass, r.value.1.externalId)
      ensures r.Err? ==> ReMintDenied(run, at, raw, r.error)
    {
      hide Apply, Enabled, Sound, Run.Legal, HasActiveWebAuthn, CredentialRows, CredentialsInOrder,
      ReMintDenied, SessionStands;
      r, at := CheckSession(me, raw);
      if r.Err? {
        return;
      }
      ghost var early := run;
      var rows;
      ghost var cAt;
      rows, cAt := ListCredentialsByPrincipal(me, r.value.0);
      var hasActiveCredential := AnyActiveWebAuthn(rows);
      ActiveRowsExact(run.worlds[cAt].db.credentials, r.value.0, rows);
      RevalidatedWith(early, run, at, raw, r.value.0, r.value.1.klass, r.value.1.externalId, cAt);
      at := at.(credentials := cAt);
      if !hasActiveCredential {
        r := Err(NoActivePasskey);
      }
    }

    /** Success means the run shows every check passed in order (ReMinted); a refusal names the
        first check that failed and the world in which it failed. No row but a signing key is written. */
    method HandleReMint(me: nat, cookie: Option<string>)
      returns (r: Result<Token, Denial>, ghost p: Id, ghost at: ReMintPoints)
      requires Valid() && Idle(world, me)
      modifies this`world, this`run
      ensures Valid() && old(run).Prefix(run) && Idle(world, me)
      ensures forall k | |old(run).events| <= k < |run.events| && run.events[k].actor == me ::
        run.events[k].step.SelectNoActiveKey? || run.events[k].step.InsertKey?
      ensures r.Ok? ==>
        cookie.Some? && |old(run).events| <= at.session && ReMinted(run, at, cookie.value, p, environment, r.value)
      ensures r.Ok? ==>
        var w, sessions, h := run.worlds[at.principal], run.worlds[at.session].db.sessions, Digest(cookie.value);
        && h in sessions && sessions[h].principal == p && sessions[h].revokedAt == None
        && run.worlds[at.clock].now <= sessions[h].expiresAt
        && p in w.db.principals && w.db.principals[p] == Principal(r.value.klass, r.value.subject)
        && (exists id :: id in run.worlds[at.credentials].db.credentials &&
             var c := run.worlds[at.credentials].db.credentials[id];
             c.principal == p && c.kind == WebAuthn && c.revoked == None)
        && (forall s :: s in r.value.scopes <==> Granted(run.worlds[at.mint.scopes].db.grants, p, s, environment))
      ensures r == Err(NoCookie) <==> cookie.None?
      ensures r.Err? && cookie.Some? ==>
        |old(run).events| <= at.session <= at.clock < |run.worlds| &&
        var sessions, h, now := run.worlds[at.session].db.sessions, Digest(cookie.value), run.worlds[at.clock].now;
        match r.error
        case BadSession(SessionNotFound) => h !in sessions
        case BadSession(SessionRevoked) => h in sessions && sessions[h].revokedAt.Some?
        case BadSession(SessionExpired) => (
          h in sessions && sessions[h].revokedAt == None && sessions[h].expiresAt < now)
        case PrincipalGone => (
          h in sessions && at.principal < |run.worlds|
          && sessions[h].principal !in run.worlds[at.principal].db.principals)
        case NoActivePasskey => (
          h in sessions && at.credentials < |run.worlds|
          && var credentials := run.worlds[at.credentials].db.credentials;
          forall id | id in credentials && credentials[id].principal == sessions[h].principal
                      && credentials[id].kind == WebAuthn :: credentials[id].revoked.Some?)
        case KeyUnreadable => KeyBlocked(run, at.mint.key)
        case NoCookie => false
    {
      hide Apply, Enabled, Sound, Run.Legal, ReMinted, ReMintDenied;
      p, at := "", ReMintPoints(0, 0, 0, 0, MintPoints(0, 0, 0));
      if cookie.None? {
        return Err(NoCookie), p, at;
      }
      r, p, at := ReMint(me, cookie.value);
      if r.Ok? {
        ReMintedShows(run, at, cookie.value, p, environment, r.value);
      } else {
        DenialShows(run, at, cookie.value, r.error);
      }
    }

    /** The rest of the handler, with a cookie. */
    method ReMint(me: nat, cookie: string) returns (r: Result<Token, Denial>, ghost p: Id, ghost at: ReMintPoints)
      requires Valid() && Idle(world, me)
      modifies this`world, this`run
      ensures Valid() && old(run).Prefix(run) && Idle(world, me) && KeyStepsOnly(run, me, |old(run).events|)
      ensures |old(run).events| <= at.session
      ensures r.Ok? ==> ReMinted(run, at, cookie, p, environment, r.value)
      ensures r.Err? ==> ReMintDenied(run, at, cookie, r.error)
    {
      hide Apply, Enabled, Sound, Run.Legal, ReMintDenied, Revalidated, ScopesInForce, Granted,
      Minted, KeyBlocked, Stamp;
      p := "";
      var checked;
      checked, at := Revalidate(me, cookie);
      if checked.Err? {
        return Err(checked.error), p, at;
      }
      ghost var early, mint := run, MintPoints(0, 0, 0);
      var minted;
      RevalidatedBounds(early, at, cookie, checked.value.0, checked.value.1.klass, checked.value.1.externalId);
      minted, mint := MintForPrincipal(me, checked.value.0, checked.value.1);
      if minted.Err? {
        BlockedReMint(early, run, at, cookie, checked.value.0, checked.value.1.klass,
                      checked.value.1.externalId, mint);
        return Err(KeyUnreadable), p, at.(mint := mint);
      }
      p := checked.value.0;
      RevalidatedStands(early, run, at, cookie, p, checked.value.1.klass, checked.value.1.externalId, mint);
      at := at.(mint := mint);
      r := Ok(minted.value);
    }

    /** The flag-setting loop of handleReMint. */
    static method AnyActiveWebAuthn(rows: seq<Credential>) returns (found: bool)
      ensures found <==> exists c :: c in rows && c.kind == WebAuthn && c.revoked == None
    {
      for i := 0 to |rows|
        invariant forall c :: c in rows[..i] ==> !(c.kind == WebAuthn && c.revoked == None)
      {
        if rows[i].kind == WebAuthn && rows[i].revoked == None {
          return true;
        }
      }
      assert rows[..|rows|] == rows;
      found := false;
    }

    // ---- oidc.go: the authorization_code grant ----

    /** Client authentication and the read-only checks, none of which consumes the code. */
    method CheckCode(me: nat, request: TokenRequest)
      returns (r: Result<Code, TokenError>, ghost read: nat, ghost clock: nat)
      requires Valid() && Idle(world, me)
      modifies this`world, this`run
      ensures Valid() && old(run).Prefix(run) && Idle(world, me) && Quiet(run, me, |old(run).events|)
      ensures |old(run).events| <= read <= clock < |run.worlds|
      ensures r == Err(InvalidRequest) <==>
        request.code == "" || request.client == "" || request.secret == "" || request.redirectUri == ""
      ensures r.Ok? ==> request.client in clients && clients[request.client].secretHash == Digest(request.secret)
      ensures r.Ok? ==> CodeRead(run.worlds[read].db.codes, Digest(request.code), run.worlds[clock].now, Ok(r.value))
      ensures r.Ok? ==> r.value.client == request.client && r.value.redirectUri == request.redirectUri
      ensures r.Err? ==> r.error != TokenServerError && TokenRefused(run, read, clock, clients, request, r.error)
    {
      hide Apply, Enabled, Sound, Run.Legal;
      read, clock := |run.events|, |run.events|;
      if request.code == "" || request.client == "" || request.secret == "" || request.redirectUri == "" {
        return Err(InvalidRequest), read, clock;
      }
      if request.client !in clients || clients[request.client].secretHash != Digest(request.secret) {
        return Err(InvalidClient), read, clock;
      }
      var pending;
      pending, read, clock := GetOIDCAuthCode(me, request.code);
      if pending.Err? {
        return Err(BadCode(pending.error)), read, clock;
      }
      if pending.value.client != request.client {
        return Err(ClientMismatch), read, clock;
      }
      if pending.value.redirectUri != request.redirectUri {
        return Err(RedirectMismatch), read, clock;
      }
      r := Ok(pending.value);
    }

    /** The two narrowing loops: aithne scopes against the grants, OIDC scopes against the advertised set. */
    static method NarrowForCode(scope: string, granted: seq<string>) returns (effective: seq<string>, oidc: seq<string>)
      ensures effective == Narrow(ParseScope(scope), granted) && oidc == Narrow(ParseScope(scope), OIDC_SCOPES)
    {
      var requested := ParseScopeParam(scope);
      effective := IntersectScopes(requested, granted);
      oidc := IntersectScopes(requested, OIDC_SCOPES);
    }

    /** The reads after consumption: principal, then scopes, narrowed to the request. */
    method ReadForCode(me: nat, row: Code)
      returns (r: Option<(Principal, seq<string>, seq<string>)>, ghost principalAt: nat,
               ghost granted: seq<string>, ghost scopesAt: nat)
      requires Valid() && Idle(world, me)
      modifies this`world, this`run
      ensures Valid() && old(run).Prefix(run) && Idle(world, me) && Quiet(run, me, |old(run).events|)
      ensures |old(run).events| <= principalAt <= scopesAt < |run.worlds|
      ensures r.None? ==> row.principal !in run.worlds[principalAt].db.principals
      ensures r.Some? ==> Names(run.worlds[principalAt], row.principal, r.value.0.klass, r.value.0.externalId)
      ensures r.Some? ==> ScopesInForce(run.worlds[scopesAt].db.grants, row.principal, environment, granted)
      ensures r.Some? ==>
        forall s :: s in r.value.1 ==> Granted(run.worlds[scopesAt].db.grants, row.principal, s, environment)
      ensures r.Some? ==> r.value.1 == Narrow(ParseScope(row.scope), granted)
      ensures r.Some? ==> r.value.2 == Narrow(ParseScope(row.scope), OIDC_SCOPES)
    {
      hide Apply, Enabled, Sound, Run.Legal, Narrow, ParseScope, ScopesInForce;
      granted := [];
      var principal, scopes;
      principal, principalAt := GetPrincipalByID(me, row.principal);
      scopesAt := principalAt;
      if principal.None? {
        return None, principalAt, granted, scopesAt;
      }
      scopes, scopesAt := GetActiveScopes(me, row.principal);
      granted := scopes;
      var effective, oidc := NarrowForCode(row.scope, scopes);
      NarrowedAreGranted(run.worlds[scopesAt].db.grants, row.principal, environment, row.scope, scopes);
      r := Some((principal.value, effective, oidc));
    }

    /** The email claim, the key, both tokens. */
    method SignForCode(me: nat, row: Code, client: string, email: string, principal: Principal, effective: seq<string>,
                       oidc: seq<string>, ghost scopesAt: nat)
      returns (r: Result<(Token, IdToken), Id>, ghost mint: MintPoints, ghost idMint: nat)
      requires Valid() && Idle(world, me) && scopesAt <= |run.events|
      requires forall s :: s in effective ==> Granted(run.worlds[scopesAt].db.grants, row.principal, s, environment)
      modifies this`world, this`run
      ensures Valid() && old(run).Prefix(run) && Idle(world, me) && KeyStepsOnly(run, me, |old(run).events|)
      ensures r.Ok? ==>
        BothSigned(run, row, client, environment, email, principal, effective, oidc, scopesAt, mint, idMint, r.value)
      ensures r.Err? ==> KeyBlocked(run, mint.key)
    {
      hide Apply, Enabled, Sound, Run.Legal, Minted, Granted, KeyBlocked;
      var claim := "";
      if principal.klass == Human && "email" in oidc {
        claim := email;
      }
      var minted;
      minted, mint := KeyAndMint(me, row.principal, principal, effective, oidc, scopesAt);
      idMint := 0;
      if minted.Err? {
        return Err(minted.error), mint, idMint;
      }
      ghost var early := run;
      Drift(me);
      MintedStands(early, run, mint, row.principal, environment, minted.value.0);
      idMint := |run.events|;
      var idTok := IdToken(minted.value.1.id, principal.externalId, client, principal.klass, row.nonce, effective,
                           claim, world.now, world.now + TOKEN_TTL);
      r := Ok((minted.value.0, idTok));
    }

    /** After consumption: reads, key, both tokens. */
    method MintForCode(me: nat, row: Code, client: string, email: string)
      returns (r: Result<(Token, IdToken), TokenError>, ghost principalAt: nat, ghost granted: seq<string>,
               ghost mint: MintPoints, ghost idMint: nat)
      requires Valid() && Idle(world, me)
      modifies this`world, this`run
      ensures Valid() && old(run).Prefix(run) && Idle(world, me) && KeyStepsOnly(run, me, |old(run).events|)
      ensures r.Ok? ==> |old(run).events| <= principalAt
      ensures r.Ok? ==>
        CodeTokens(run, row, client, environment, principalAt, granted, email, mint, idMint, r.value.0, r.value.1)
      ensures r.Err? ==> r.error == TokenServerError && |old(run).events| <= principalAt < |run.worlds|
      ensures r.Err? ==> row.principal !in run.worlds[principalAt].db.principals || KeyBlocked(run, mint.key)
    {
      hide Apply, Enabled, Sound, Run.Legal, Narrow, ParseScope, Minted, ScopesInForce, Granted, KeyBlocked, EmailClaim;
      mint, idMint := MintPoints(0, 0, 0), 0;
      var found, signed;
      ghost var scopesAt;
      found, principalAt, granted, scopesAt := ReadForCode(me, row);
      if found.None? {
        return Err(TokenServerError), principalAt, granted, mint, idMint;
      }
      var (principal, effective, oidc) := found.value;
      signed, mint, idMint := SignForCode(me, row, client, email, principal, effective, oidc, scopesAt);
      r := if signed.Ok? then Ok(signed.value) else Err(TokenServerError);
    }

    /** Client credentials come in the Authorization header, id first, or in the form, not in both (section
        2.3 of RFC 6749). Success means that they are the client's own and that the run shows the whole
        exchange (Exchanged). A refusal before consumption comes with `consumed` false, and then none of
        this request's events consumes any code. */
    method HandleAuthCodeGrant(me: nat, form: TokenRequest, basic: Option<(string, string)>, email: string)
      returns (r: Result<(Token, IdToken), TokenError>, ghost at: ExchangePoints, ghost consumed: bool)
      requires Valid() && Idle(world, me)
      modifies this`world, this`run
      ensures Valid() && old(run).Prefix(run) && Idle(world, me)
      ensures !consumed ==> r.Err? && forall k | |old(run).events| <= k < |run.events| && run.events[k].actor == me ::
        !run.events[k].step.CommitConsume?
      ensures basic.Some? && (form.client != "" || form.secret != "") ==> r == Err(InvalidRequest) && !consumed
      ensures r.Ok? ==> consumed && |old(run).events| <= at.read && at.email == email
      ensures r.Ok? ==>
        var (client, secret) := if basic.Some? then basic.value else (form.client, form.secret);
        && client in clients && clients[client].secretHash == Digest(secret)
        && Exchanged(run, at, me, TokenRequest(form.code, client, secret, form.redirectUri), environment,
                     r.value.0, r.value.1)
        && var row := run.worlds[at.read].db.codes[Digest(form.code)];
        row.client == client && row.redirectUri == form.redirectUri
      ensures !consumed && (basic.None? || (form.client == "" && form.secret == "")) ==>
        at.read <= at.clock < |run.worlds| &&
        var (client, secret) := if basic.Some? then basic.value else (form.client, form.secret);
        var codes, h, now := run.worlds[at.read].db.codes, Digest(form.code), run.worlds[at.clock].now;
        match r.error
        case InvalidRequest => form.code == "" || client == "" || secret == "" || form.redirectUri == ""
        case InvalidClient => client !in clients || clients[client].secretHash != Digest(secret)
        case BadCode(CodeNotFound) => h !in codes
        case BadCode(CodeUsed) => h in codes && codes[h].usedAt.Some?
        case BadCode(CodeExpired) => h in codes && codes[h].usedAt == None && codes[h].expiresAt < now
        case ClientMismatch => h in codes && codes[h].client != client
        case RedirectMismatch => h in codes && codes[h].client == client && codes[h].redirectUri != form.redirectUri
        case TokenServerError => h !in codes
      ensures consumed && r.Err? ==>
        && r.error == TokenServerError && at.consume < |run.events| && at.principal < |run.worlds|
        && run.events[at.consume].step.CommitConsume? && run.events[at.consume].step.digest == Digest(form.code)
        && var codes := run.worlds[at.consume].db.codes;
        Digest(form.code) in codes
        && (codes[Digest(form.code)].principal !in run.worlds[at.principal].db.principals
            || KeyBlocked(run, at.mint.key))
    {
      hide Apply, Enabled, Sound, Run.Legal, Exchanged, MintStopped, TokenRefused;
      var request := form;
      if basic.Some? {
        if form.client != "" || form.secret != "" {
          return Err(InvalidRequest), ExchangePoints(0, 0, 0, 0, [], email, MintPoints(0, 0, 0), 0), false;
        }
        request := form.(client := basic.value.0, secret := basic.value.1);
      }
      r, at, consumed := ExchangeCode(me, request, email);
      if r.Ok? {
        ExchangedRow(run, at, me, request, environment, r.value.0, r.value.1);
      } else if consumed {
        StopShows(run, at, Digest(form.code));
      } else {
        RefusalShows(run, at.read, at.clock, clients, request, r.error);
      }
    }

    /** The rest of the handler, with one set of client credentials. */
    method ExchangeCode(me: nat, request: TokenRequest, email: string)
      returns (r: Result<(Token, IdToken), TokenError>, ghost at: ExchangePoints, ghost consumed: bool)
      requires Valid() && Idle(world, me)
      modifies this`world, this`run
      ensures Valid() && old(run).Prefix(run) && Idle(world, me)
      ensures r.Ok? ==> consumed && |old(run).events| <= at.read && at.email == email
      ensures r.Ok? ==> Exchanged(run, at, me, request, environment, r.value.0, r.value.1)
      ensures r.Ok? ==> ClientAuthenticates(clients, request)
      ensures !consumed ==> r.Err? && ConsumesNothing(run, me, |old(run).events|)
      ensures !consumed ==> TokenRefused(run, at.read, at.clock, clients, request, r.error)
      ensures consumed && r.Err? ==> r.error == TokenServerError && MintStopped(run, at, Digest(request.code))
    {
      hide Apply, Enabled, Sound, Run.Legal, Exchanged, MintStopped, TokenRefused, CodeRead;
      var pending;
      ghost var read, clock;
      pending, read, clock := CheckCode(me, request);
      if pending.Err? {
        return Err(pending.error), ExchangePoints(read, clock, 0, 0, [], email, MintPoints(0, 0, 0), 0), false;
      }
      r, at, consumed := RedeemCode(me, request, email, pending.value, read, clock);
    }

    /** Consume, then mint. */
    method RedeemCode(me: nat, request: TokenRequest, email: string, pending: Code, ghost read: nat, ghost clock: nat)
      returns (r: Result<(Token, IdToken), TokenError>, ghost at: ExchangePoints, ghost consumed: bool)
      requires Valid() && Idle(world, me) && read <= clock <= |run.events|
      requires CodeRead(run.worlds[read].db.codes, Digest(request.code), run.worlds[clock].now, Ok(pending))
      requires pending.client == request.client && pending.redirectUri == request.redirectUri
      modifies this`world, this`run
      ensures Valid() && old(run).Prefix(run) && Idle(world, me)
      ensures r.Ok? ==> consumed && at.read == read && at.email == email
      ensures r.Ok? ==> Exchanged(run, at, me, request, environment, r.value.0, r.value.1)
      ensures !consumed ==> r.Err? && ConsumesNothing(run, me, |old(run).events|)
      ensures !consumed ==> TokenRefused(run, at.read, at.clock, clients, request, r.error)
      ensures consumed && r.Err? ==> r.error == TokenServerError && MintStopped(run, at, Digest(request.code))
    {
      hide Apply, Enabled, Sound, Run.Legal, CodeTokens, Minted, Stamp, KeyBlocked;
      var row;
      ghost var again;
      row, again := ConsumeOIDCAuthCode(me, request.code);
      if row.Err? {
        r := Err(if row.error == CodeNotFound then TokenServerError else BadCode(row.error));
        return r, ExchangePoints(again, again, 0, 0, [], email, MintPoints(0, 0, 0), 0), false;
      }
      consumed := true;
      ghost var consume, spent := |run.events| - 1, run;
      SameRow(run, read, consume, Digest(request.code));
      ghost var pAt, granted, mint, idMint;
      r, pAt, granted, mint, idMint := MintForCode(me, row.value, request.client, email);
      at := ExchangePoints(read, clock, consume, pAt, granted, email, mint, idMint);
      if r.Ok? {
        ExchangeAssembled(spent, run, at, me, request, environment, row.value, r.value.0, r.value.1);
      }
    }

    // ---- machine_credentials.go ----

    /** The hash comparison loop over the listed credentials. */
    static method AnyMatchingMachineKey(rows: seq<Credential>, secret: string) returns (matched: bool)
      ensures matched <==>
        exists c :: c in rows && c.kind == MachineKey && c.revoked == None && c.data == Hex(Digest(secret))
    {
      for i := 0 to |rows|
        invariant forall c :: c in rows[..i] ==>
          !(c.kind == MachineKey && c.revoked == None && c.data == Hex(Digest(secret)))
      {
        if rows[i].kind == MachineKey && rows[i].revoked == None && rows[i].data == Hex(Digest(secret)) {
          return true;
        }
      }
      assert rows[..|rows|] == rows;
      matched := false;
    }

    method AuthenticateAgent(me: nat, slug: string, secret: string)
      returns (r: Option<Id>, ghost principalAt: nat, ghost credentialsAt: nat)
      requires Valid() && Idle(world, me)
      modifies this`world, this`run
      ensures Valid() && old(run).Prefix(run) && Idle(world, me) && Quiet(run, me, |old(run).events|)
      ensures |old(run).events| <= principalAt <= credentialsAt < |run.worlds|
      ensures r.Some? ==> var principals, credentials :=
          run.worlds[principalAt].db.principals, run.worlds[credentialsAt].db.credentials;
        && r.value in principals && principals[r.value] == Principal(Agent, slug)
        && exists id :: id in credentials && credentials[id].principal == r.value && credentials[id].kind == MachineKey
                        && credentials[id].revoked == None && credentials[id].data == Hex(Digest(secret))
      ensures r.None? ==> var principals, credentials :=
          run.worlds[principalAt].db.principals, run.worlds[credentialsAt].db.credentials;
        || (forall id :: id in principals ==> principals[id] != Principal(Agent, slug))
        || exists p :: p in principals && principals[p] == Principal(Agent, slug) &&
             forall id | id in credentials && credentials[id].principal == p && credentials[id].kind == MachineKey
                         && credentials[id].data == Hex(Digest(secret)) :: credentials[id].revoked.Some?
    {
      hide Apply, Enabled, Sound, Run.Legal;
      var rows;
      r, principalAt := GetPrincipalByExternalID(me, Agent, slug);
      credentialsAt := principalAt;
      if r.None? {
        return;
      }
      rows, credentialsAt := ListCredentialsByPrincipal(me, r.value);
      var matched := AnyMatchingMachineKey(rows, secret);
      MatchingRowsExact(run.worlds[credentialsAt].db.credentials, r.value, rows, secret);
      if !matched {
        r := None;
      }
    }

    /** Success on scope exactly when every requested scope is in force at the read. */
    method ReadAgentScopes(me: nat, p: Id, parameter: string)
      returns (r: Result<seq<string>, string>, ghost granted: seq<string>, ghost at: nat)
      requires Valid() && Idle(world, me)
      modifies this`world, this`run
      ensures Valid() && old(run).Prefix(run) && Idle(world, me) && Quiet(run, me, |old(run).events|)
      ensures |old(run).events| <= at < |run.worlds|
      ensures ScopesInForce(run.worlds[at].db.grants, p, environment, granted)
      ensures r.Ok? <==> forall x | x in Fields(parameter) :: x in granted
      ensures r.Ok? ==> r.value == if Fields(parameter) == [] then granted else ParseScope(parameter)
      ensures r.Ok? ==> forall s :: s in r.value ==> Granted(run.worlds[at].db.grants, p, s, environment)
      ensures r.Err? ==> r.error in Fields(parameter) && r.error !in granted
    {
      hide Apply, Enabled, Sound, Run.Legal, Fields, ScopesInForce, Granted;
      var scopes;
      scopes, at := GetActiveScopes(me, p);
      granted := scopes;
      r := ClientScopes(scopes, parameter);
      ParseIdempotent(parameter);
      InForceAreGranted(run.worlds[at].db.grants, p, environment, scopes);
    }

    /** Scopes, key, token, for an authenticated agent. */
    method MintForAgent(me: nat, p: Id, slug: string, parameter: string)
      returns (r: Result<Token, AgentError>, ghost granted: seq<string>, ghost mint: MintPoints)
      requires Valid() && Idle(world, me)
      modifies this`world, this`run
      ensures Valid() && old(run).Prefix(run) && Idle(world, me) && KeyStepsOnly(run, me, |old(run).events|)
      ensures |old(run).events| <= mint.scopes < |run.worlds|
      ensures ScopesInForce(run.worlds[mint.scopes].db.grants, p, environment, granted)
      ensures (r.Err? && r.error.ScopeRefused?) <==> exists x | x in Fields(parameter) :: x !in granted
      ensures r.Err? && r.error.ScopeRefused? ==> r.error.scope in Fields(parameter) && r.error.scope !in granted
      ensures r.Err? && !r.error.ScopeRefused? ==> r.error.AgentServerError? && KeyBlocked(run, mint.key)
      ensures r.Ok? ==> AgentToken(run, p, slug, parameter, environment, granted, mint, r.value)
    {
      hide Apply, Enabled, Sound, Run.Legal, Minted, ScopesInForce, Granted, Fields, ParseScope, KeyBlocked;
      var effective, minted;
      ghost var gAt;
      effective, granted, gAt := ReadAgentScopes(me, p, parameter);
      mint := MintPoints(gAt, gAt, gAt);
      if effective.Err? {
        return Err(ScopeRefused(effective.error)), granted, mint;
      }
      minted, mint := KeyAndMint(me, p, Principal(Agent, slug), effective.value, [], gAt);
      mint := MintPoints(gAt, mint.key, mint.mint);
      r := if minted.Ok? then Ok(minted.value.0) else Err(AgentServerError);
    }

    /** The token carries the requested scopes, or the whole grant when the parameter is blank; the
        response's scope field prints them. */
    method HandleClientCredentials(me: nat, slug: string, secret: string, parameter: string)
      returns (r: Result<(Token, string), AgentError>, ghost at: AgentPoints)
      requires Valid() && Idle(world, me)
      modifies this`world, this`run
      ensures Valid() && old(run).Prefix(run) && Idle(world, me)
      ensures forall k | |old(run).events| <= k < |run.events| && run.events[k].actor == me ::
        run.events[k].step.SelectNoActiveKey? || run.events[k].step.InsertKey?
      ensures r.Ok? ==> |old(run).events| <= at.principal
      ensures r.Ok? ==> AgentMinted(run, at, slug, secret, parameter, environment, r.value.0)
      ensures r.Ok? ==> var principals, credentials :=
          run.worlds[at.principal].db.principals, run.worlds[at.credentials].db.credentials;
        && at.id in principals && principals[at.id] == Principal(Agent, slug)
        && exists id :: id in credentials && credentials[id].principal == at.id && credentials[id].kind == MachineKey
                        && credentials[id].revoked == None && credentials[id].data == Hex(Digest(secret))
      ensures r.Ok? ==> var tok, grants := r.value.0, run.worlds[at.mint.scopes].db.grants;
        && tok.klass == Agent && tok.subject == slug && tok.oidcScopes == [] && NoDuplicates(tok.scopes)
        && (forall s :: s in tok.scopes ==> Granted(grants, at.id, s, environment))
        && (forall s :: s in tok.scopes <==>
              if Fields(parameter) == [] then Granted(grants, at.id, s, environment) else s in Fields(parameter))
      ensures r.Ok? ==> r.value.1 == Join(r.value.0.scopes)
      ensures r.Ok? && InVocabulary(run.worlds[0]) && WhiteSpaceFree(world.vocabulary) ==>
        ParseScope(r.value.1) == r.value.0.scopes
      ensures slug == "" || secret == "" ==> r == Err(BadAgent)
      ensures r == Err(BadAgent) && slug != "" && secret != "" ==> at.principal < |run.worlds|
      ensures r == Err(BadAgent) && slug != "" && secret != "" ==> at.credentials < |run.worlds|
      ensures r == Err(BadAgent) && slug != "" && secret != "" ==> var principals, credentials :=
          run.worlds[at.principal].db.principals, run.worlds[at.credentials].db.credentials;
        || (forall id :: id in principals ==> principals[id] != Principal(Agent, slug))
        || exists p :: p in principals && principals[p] == Principal(Agent, slug) &&
             forall id | id in credentials && credentials[id].principal == p && credentials[id].kind == MachineKey
                         && credentials[id].data == Hex(Digest(secret)) :: credentials[id].revoked.Some?
      ensures r.Err? && r.error.AgentServerError? ==> KeyBlocked(run, at.mint.key)
      ensures r.Err? && r.error.ScopeRefused? ==>
        at.principal < |run.worlds| && at.id in run.worlds[at.principal].db.principals
        && run.worlds[at.principal].db.principals[at.id] == Principal(Agent, slug)
        && at.mint.scopes < |run.worlds| && r.error.scope in Fields(parameter)
        && !Granted(run.worlds[at.mint.scopes].db.grants, at.id, r.error.scope, environment)
    {
      hide Apply, Enabled, Sound, Run.Legal, Names, MachineKeyMatches, ScopesInForce, AgentToken, Fields, ParseScope;
      hide KeyBlocked, Join, InVocabulary, WhiteSpaceFree, AgentMinted, Granted, NoDuplicates;
      at := AgentPoints(0, "", 0, [], MintPoints(0, 0, 0));
      if slug == "" || secret == "" {
        return Err(BadAgent), at;
      }
      ghost var pAt, cAt, granted, mint;
      var p, minted;
      p, pAt, cAt := AuthenticateAgent(me, slug, secret);
      if p.None? {
        return Err(BadAgent), AgentPoints(pAt, "", cAt, [], MintPoints(0, 0, 0));
      }
      ghost var early := run;
      minted, granted, mint := MintForAgent(me, p.value, slug, parameter);
      at := AgentPoints(pAt, p.value, cAt, granted, mint);
      if minted.Err? {
        NotInForce(run.worlds[mint.scopes].db.grants, p.value, environment, granted);
        return Err(minted.error), at;
      }
      AgentAssembled(early, run, at, slug, secret, parameter, environment, minted.value);
      AgentMintedShows(run, at, slug, secret, parameter, environment, minted.value);
      ScopeFieldParses(run, at, slug, secret, parameter, environment, minted.value);
      r := Ok((minted.value, Join(minted.value.scopes)));
    }

    // ---- webauthn.go: login after verification ----

    method UpdateCredentialData(me: nat, id: Id, data: string, ghost seen: nat)
      requires Valid() && Idle(world, me)
      requires seen < |run.worlds| && id in run.worlds[seen].db.credentials
      requires run.worlds[seen].db.credentials[id].kind == WebAuthn
      modifies this`world, this`run
      ensures Valid() && old(run).Prefix(run) && Idle(world, me)
      ensures id in world.db.credentials ==> world.db.credentials[id].data == data
      ensures |old(run).events| < |run.events| && run.events[|run.events| - 1] == Event(me, SetCredentialData(id, data))
    {
      hide Apply, Enabled, Sound, Run.Legal;
      ghost var early := run;
      Yield(me);
      StillWebAuthn(early, run, seen, id);
      SetCredentialDataStep(world, me, id, data);
      Do(me, SetCredentialData(id, data));
    }

    /** The tail of handleLoginFinish, once the library has verified the assertion for the principal read
        at world `named`; `update` is a passkey row read at world `seen`, with its new sign count. Failing
        to open the IdP session is not fatal. */
    method FinishLogin(me: nat, p: Id, principal: Principal, update: Option<(Id, string)>, ghost named: nat,
                       ghost seen: nat)
      returns (r: Result<(Token, Option<string>), Id>, ghost at: LoginPoints, ghost stored: nat)
      requires Valid() && Idle(world, me)
      requires named < |run.worlds| && p in run.worlds[named].db.principals
      requires run.worlds[named].db.principals[p] == principal
      requires update.Some? ==> seen < |run.worlds| && update.value.0 in run.worlds[seen].db.credentials
      requires update.Some? ==> run.worlds[seen].db.credentials[update.value.0].kind == WebAuthn
      modifies this`world, this`run
      ensures Valid() && old(run).Prefix(run) && Idle(world, me)
      ensures r.Ok? ==> at.named == named && |old(run).events| <= at.mint.scopes
      ensures r.Ok? ==> LoggedIn(run, at, p, environment, r.value.0, r.value.1)
      ensures r.Ok? ==> at.mint.scopes < |run.worlds| && var tok := r.value.0;
        && tok.subject == principal.externalId && tok.klass == principal.klass && tok.oidcScopes == []
        && forall s :: s in tok.scopes <==> Granted(run.worlds[at.mint.scopes].db.grants, p, s, environment)
      ensures r.Ok? && r.value.1.Some? ==> |run.events| > 0 && var e := run.events[|run.events| - 1];
        e.step.AddSession? && e == Event(me, AddSession(r.value.1.value, p, e.step.at))
        && r.value.0.issuedAt <= e.step.at
      ensures r.Ok? && r.value.1.None? ==> p !in world.db.principals
      ensures r.Err? ==> KeyBlocked(run, at.mint.key)
      ensures update.Some? ==> |old(run).events| <= stored < |run.events|
      ensures update.Some? ==> run.events[stored] == Event(me, SetCredentialData(update.value.0, update.value.1))
    {
      hide Apply, Enabled, Sound, Run.Legal, LoggedIn, KeyBlocked;
      stored := 0;
      if update.Some? {
        UpdateCredentialData(me, update.value.0, update.value.1, seen);
        stored := |run.events| - 1;
      }
      r, at := MintAndOpenSession(me, p, principal, named);
      if r.Ok? {
        LoggedInShows(run, at, p, environment, r.value.0, r.value.1);
      }
    }

    /** Then the IdP session. */
    method MintAndOpenSession(me: nat, p: Id, principal: Principal, ghost named: nat)
      returns (r: Result<(Token, Option<string>), Id>, ghost at: LoginPoints)
      requires Valid() && Idle(world, me)
      requires named < |run.worlds| && Names(run.worlds[named], p, principal.klass, principal.externalId)
      modifies this`world, this`run
      ensures Valid() && old(run).Prefix(run) && Idle(world, me)
      ensures r.Ok? ==> at.named == named && |old(run).events| <= at.mint.scopes
      ensures r.Ok? ==> LoggedIn(run, at, p, environment, r.value.0, r.value.1)
      ensures r.Ok? ==> r.value.0.subject == principal.externalId && r.value.0.klass == principal.klass
      ensures r.Ok? && r.value.1.Some? ==> |run.events| > 0 && run.events[|run.events| - 1].actor == me
      ensures r.Ok? && r.value.1.Some? ==> at.session == Some(|run.events| - 1)
      ensures r.Ok? && r.value.1.None? ==> p !in world.db.principals
      ensures r.Err? ==> KeyBlocked(run, at.mint.key)
    {
      hide Apply, Enabled, Sound, Run.Legal, Stamp, KeyBlocked, OwnToken, LoggedIn;
      ghost var mint, early;
      var minted;
      minted, mint := MintForPrincipal(me, p, principal);
      if minted.Err? {
        return Err(minted.error), LoginPoints(named, mint, None);
      }
      early := run;
      var cookie := CreateIDPSession(me, p);
      at := LoginPoints(named, mint, if cookie.Some? then Some(|run.events| - 1) else None);
      LoginAssembled(early, run, at, p, principal, environment, minted.value, cookie);
      r := Ok((minted.value, cookie));
    }

    // ---- enrolment.go, store/enrolment_invite.go ----

    /** A new invite for the contact, unused and good for 24 hours. */
    method CreateInvite(me: nat, contact: string) returns (raw: string, ghost at: int)
      requires Valid() && Idle(world, me)
      modifies this`world, this`run
      ensures Valid() && old(run).Prefix(run) && Idle(world, me)
      ensures |old(run).events| < |run.events| && run.events[|run.events| - 1] == Event(me, AddInvite(raw, contact, at))
      ensures old(world).now <= at <= world.now
      ensures var w := run.worlds[|run.events| - 1];
        Digest(raw) !in w.db.invites && world == w.(issued := world.issued, db := w.db.(invites :=
          w.db.invites[Digest(raw) := Invite(contact, Stamp(at + 24 * HOUR), None)]))
    {
      hide Apply, Enabled, Sound, Run.Legal, Stamp;
      Drift(me);
      var now := world.now;
      Yield(me);
      at := now;
      raw := NewId();
      SoundFreshInvite(world, raw);
      AddInviteStep(world, me, raw, contact, now);
      Do(me, AddInvite(raw, contact, now));
    }

    /** GetInviteByRawToken. Success keeps the invite's contact for this request, and when it was checked. */
    method GetInviteByRawToken(me: nat, h: Digest)
      returns (r: Result<string, InviteError>, ghost read: nat, ghost clock: nat)
      requires Valid() && Idle(world, me)
      modifies this`world, this`run
      ensures Valid() && old(run).Prefix(run) && !Owns(world, me) && TablesUntouched(run, me, |old(run).events|)
      ensures |old(run).events| <= read <= clock < |run.worlds|
      ensures var invites, now := run.worlds[read].db.invites, run.worlds[clock].now;
        match r
        case Ok(contact) =>
          h in invites && invites[h].contact == contact && invites[h].usedAt == None && now <= invites[h].expiresAt
        case Err(InviteNotFound) => h !in invites
        case Err(InviteUsed) => h in invites && invites[h].usedAt.Some?
        case Err(InviteExpired) => h in invites && invites[h].usedAt == None && invites[h].expiresAt < now
      ensures if r.Ok? then Holds(world, me, BeginningEnrolment(h, r.value, run.worlds[clock].now)) else Idle(world, me)
    {
      hide Apply, Enabled, Sound, Run.Legal, TablesUntouched;
      var row;
      row, read := SelectInvite(me, h);
      clock := |run.events|;
      if row.Err? {
        return Err(row.error), read, clock;
      }
      ghost var selected := run;
      var valid;
      valid, clock := CheckExpiry(me, h, row.value.contact, row.value.expiresAt);
      UntouchedTogether(selected, run, me, |old(run).events|);
      r := if valid then Ok(row.value.contact) else Err(InviteExpired);
    }

    /** Its clock reading, and the comparison with the expiry. */
    method CheckExpiry(me: nat, h: Digest, contact: string, expiresAt: int) returns (valid: bool, ghost clock: nat)
      requires Valid() && Holds(world, me, InviteFound(h, contact, expiresAt)) && !Owns(world, me)
      modifies this`world, this`run
      ensures Valid() && old(run).Prefix(run) && !Owns(world, me) && TablesUntouched(run, me, |old(run).events|)
      ensures |old(run).events| <= clock < |run.worlds| && (valid <==> run.worlds[clock].now <= expiresAt)
      ensures if valid then Holds(world, me, BeginningEnrolment(h, contact, run.worlds[clock].now)) else Idle(world, me)
    {
      hide Apply, Enabled, Sound, Run.Legal;
      Drift(me);
      clock := |run.events|;
      if expiresAt < world.now {
        GiveUp(me);
        return false, clock;
      }
      CheckInviteStep(world, me, h, contact, expiresAt);
      Do(me, CheckInvite);
      valid := true;
    }

    /** Its SELECT, and the checks that need no clock. */
    method SelectInvite(me: nat, h: Digest) returns (r: Result<Invite, InviteError>, ghost read: nat)
      requires Valid() && Idle(world, me)
      modifies this`world, this`run
      ensures Valid() && old(run).Prefix(run) && !Owns(world, me) && TablesUntouched(run, me, |old(run).events|)
      ensures |old(run).events| <= read < |run.worlds|
      ensures r.Ok? ==>
        h in run.worlds[read].db.invites && run.worlds[read].db.invites[h] == r.value && r.value.usedAt == None
      ensures r.Ok? ==> Holds(world, me, InviteFound(h, r.value.contact, r.value.expiresAt))
      ensures r.Err? ==> Idle(world, me) && var invites := run.worlds[read].db.invites;
        if h in invites then r.error == InviteUsed && invites[h].usedAt.Some? else r.error == InviteNotFound
    {
      hide Apply, Enabled, Sound, Run.Legal;
      Yield(me);
      read := |run.events|;
      if h !in world.db.invites {
        return Err(InviteNotFound), read;
      }
      var invite := world.db.invites[h];
      if invite.usedAt.Some? {
        return Err(InviteUsed), read;
      }
      ReadInviteStep(world, me, h);
      Do(me, ReadInvite(h));
      r := Ok(invite);
    }

    /** The invite check, the principal check, and the ceremony put; `verified` is whether the
        library could begin the registration. Success leaves a pending ceremony carrying the
        invite's own contact for 60 seconds. No table changes in any case. */
    method HandleEnrolBegin(me: nat, raw: string, verified: bool)
      returns (r: Result<string, EnrolError>, ghost read: nat, ghost clock: nat, ghost at: nat)
      requires Valid() && Idle(world, me)
      modifies this`world, this`run
      ensures Valid() && old(run).Prefix(run) && Idle(world, me) && TablesUntouched(run, me, |old(run).events|)
      ensures |old(run).events| <= read <= clock < |run.worlds|
      ensures r == Err(MissingToken) <==> raw == ""
      ensures r == Err(EnrolServerError) ==> at < |run.worlds|
      ensures var invites, h, now := run.worlds[read].db.invites, Digest(raw), run.worlds[clock].now;
        match r
        case Ok(contact) => (
          && h in invites && invites[h].contact == contact && invites[h].usedAt == None
          && now <= invites[h].expiresAt && verified
          && h in world.pending && world.pending[h] == Pending(contact, world.now + 60 * SECOND))
        case Err(BadInvite(InviteNotFound)) => h !in invites
        case Err(BadInvite(InviteUsed)) => h in invites && invites[h].usedAt.Some?
        case Err(BadInvite(InviteExpired)) => (
          h in invites && invites[h].usedAt == None && invites[h].expiresAt < now)
        case Err(EnrolServerError) => (
          && h in invites && invites[h].usedAt == None && now <= invites[h].expiresAt
          && (!verified || forall p :: p in run.worlds[at].db.principals ==>
                run.worlds[at].db.principals[p] != Principal(Human, invites[h].contact)))
        case Err(NoCeremony) => false
        case Err(MissingToken) => true
    {
      hide Apply, Enabled, Sound, Run.Legal, Unexpired;
      if raw == "" {
        return Err(MissingToken), |run.events|, |run.events|, 0;
      }
      var invite;
      invite, read, clock := GetInviteByRawToken(me, Digest(raw));
      at := read;
      if invite.Err? {
        return Err(BadInvite(invite.error)), read, clock, at;
      }
      var begun;
      begun, at := BeginCeremony(me, Digest(raw), invite.value, run.worlds[clock].now, verified);
      r := if begun then Ok(invite.value) else Err(EnrolServerError);
    }

    /** Abandon what this request kept; no table is involved. */
    method GiveUp(me: nat)
      requires Valid() && me in world.locals && !Owns(world, me)
      modifies this`world, this`run
      ensures Valid() && old(run).Prefix(run) && Idle(world, me) && world.db == old(world).db
      ensures |run.events| == |old(run).events| + 1 && TablesUntouched(run, me, |old(run).events|)
    {
      hide Apply, Enabled, Sound, Run.Legal;
      AbandonStep(world, me);
      Do(me, Abandon);
    }

    method BeginCeremony(me: nat, h: Digest, contact: string, ghost checked: int, verified: bool)
      returns (begun: bool, ghost at: nat)
      requires Valid() && Holds(world, me, BeginningEnrolment(h, contact, checked)) && !Owns(world, me)
      modifies this`world, this`run
      ensures Valid() && old(run).Prefix(run) && Idle(world, me) && TablesUntouched(run, me, |old(run).events|)
      ensures begun ==> h in world.pending && world.pending[h] == Pending(contact, world.now + 60 * SECOND)
      ensures |old(run).events| <= at < |run.worlds|
      ensures begun <==> verified && Registered(run.worlds[at].db, Human, contact)
    {
      hide Apply, Enabled, Sound, Run.Legal, Unexpired, Registered;
      Yield(me);
      at := |run.events|;
      if !Registered(world.db, Human, contact) || !verified {
        GiveUp(me);
        return false, at;
      }
      Drift(me);
      PutEnrolmentStep(world, me, h, contact, checked);
      Do(me, PutEnrolment);
      begun := true;
    }

    /** takeEnrol: one-time, and only within the 60 seconds. */
    method TakeCeremony(me: nat, h: Digest) returns (contact: Option<string>, ghost at: nat)
      requires Valid() && Idle(world, me)
      modifies this`world, this`run
      ensures Valid() && old(run).Prefix(run) && !Owns(world, me) && TablesUntouched(run, me, |old(run).events|)
      ensures if contact.Some? then Holds(world, me, FinishingEnrolment(h, contact.value)) else Idle(world, me)
      ensures h !in world.pending && |old(run).events| <= at < |run.worlds|
      ensures var w := run.worlds[at];
        contact == if h in w.pending && w.now <= w.pending[h].expiresAt then Some(w.pending[h].contact) else None
    {
      hide Apply, Enabled, Sound, Run.Legal;
      Drift(me);
      at := |run.events|;
      if h !in world.pending {
        return None, at;
      }
      if world.pending[h].expiresAt < world.now {
        DropEnrolmentStep(world, me, h);
        Do(me, DropEnrolment(h));
        return None, at;
      }
      contact := Some(world.pending[h].contact);
      TakeEnrolmentStep(world, me, h);
      Do(me, TakeEnrolment(h));
    }

    /** Take the ceremony, resolve its contact to a principal, and swap the passkey in one
        transaction. On success the last event is the swap (see EnrolmentRuns.ReplaceSwaps); on any
        failure, `fault` inside the transaction included, no event of mine changed any table. */
    method HandleEnrolFinish(me: nat, raw: string, verified: bool, data: string, fault: bool)
      returns (r: Result<Id, EnrolError>, ghost took: nat, ghost at: nat)
      requires Valid() && Idle(world, me)
      modifies this`world, this`run
      ensures Valid() && old(run).Prefix(run) && Idle(world, me)
      ensures r.Ok? ==> |old(run).events| < |run.events| && verified && !fault
      ensures r.Ok? ==> var w, e, h := run.worlds[|run.events| - 1], run.events[|run.events| - 1], Digest(raw);
        && e.step.CommitReplace? && e == Event(me, CommitReplace(r.value, data, e.step.at))
        && me in w.locals && w.locals[me].ReplacingPasskey? && w.locals[me].invite == h
        && (Bound(run.worlds[0]) ==> Swapped(w, world, h, w.locals[me].principal, r.value, data, e.step.at))
      ensures r.Err? ==> forall k | |old(run).events| <= k < |run.events| && run.events[k].actor == me ::
        run.worlds[k + 1].db == run.worlds[k].db
      ensures |old(run).events| <= took < |run.worlds|
      ensures r == Err(MissingToken) <==> raw == ""
      ensures raw != "" ==> (r == Err(NoCeremony) <==>
        !(Digest(raw) in run.worlds[took].pending
          && run.worlds[took].now <= run.worlds[took].pending[Digest(raw)].expiresAt))
      ensures r.Err? ==> r.error in {MissingToken, NoCeremony, EnrolServerError}
      ensures r == Err(EnrolServerError) ==> took <= at < |run.worlds| && Digest(raw) in run.worlds[took].pending
      ensures r == Err(EnrolServerError) ==>
        var w, h, contact := run.worlds[at], Digest(raw), run.worlds[took].pending[Digest(raw)].contact;
        || !verified || fault
        || (forall p :: p in w.db.principals ==> w.db.principals[p] != Principal(Human, contact))
        || h !in w.db.invites || w.db.invites[h].usedAt.Some?
        || (me in w.locals && w.locals[me].ReplacingPasskey? && w.locals[me].principal !in w.db.principals)
    {
      hide Apply, Enabled, Sound, Run.Legal, JustReplaced, SwapBlocked, TablesUntouched, Swapped, Bound;
      r, took, at := FinishEnrolment(me, raw, verified, data, fault);
      if r.Ok? {
        SwapShows(run, me, Digest(raw), r.value, data);
      } else {
        UntouchedShows(run, me, |old(run).events|);
        if r.error == EnrolServerError {
          BlockShows(run, me, took, at, Digest(raw), verified, fault);
        }
      }
    }

    method FinishEnrolment(me: nat, raw: string, verified: bool, data: string, fault: bool)
      returns (r: Result<Id, EnrolError>, ghost took: nat, ghost at: nat)
      requires Valid() && Idle(world, me)
      modifies this`world, this`run
      ensures Valid() && old(run).Prefix(run) && Idle(world, me)
      ensures r.Ok? ==>
        |old(run).events| < |run.events| && verified && !fault && JustReplaced(run, me, Digest(raw), r.value, data)
      ensures r.Err? ==> TablesUntouched(run, me, |old(run).events|)
      ensures |old(run).events| <= took < |run.worlds|
      ensures r == Err(MissingToken) <==> raw == ""
      ensures raw != "" ==> (r == Err(NoCeremony) <==>
        !(Digest(raw) in run.worlds[took].pending
          && run.worlds[took].now <= run.worlds[took].pending[Digest(raw)].expiresAt))
      ensures r.Err? ==> r.error in {MissingToken, NoCeremony, EnrolServerError}
      ensures r == Err(EnrolServerError) ==> FinishBlocked(run, me, took, at, Digest(raw), verified, fault)
    {
      hide Apply, Enabled, Sound, Run.Legal, JustReplaced, SwapBlocked, Registered, TablesUntouched;
      ghost var since := |run.events|;
      if raw == "" {
        NothingTouched(run, me);
        return Err(MissingToken), since, since;
      }
      var contact, p;
      contact, took := TakeCeremony(me, Digest(raw));
      at := took;
      if contact.None? {
        return Err(NoCeremony), took, at;
      }
      ghost var taken := run;
      p, at := ResolveContact(me, Digest(raw), contact.value, verified);
      UntouchedTogether(taken, run, me, since);
      if p.None? {
        return Err(EnrolServerError), took, at;
      }
      ghost var resolved := run;
      r, at := ReplaceWebAuthnCredentialAndConsumeInvite(me, Digest(raw), p.value, data, fault);
      if r.Err? {
        UntouchedTogether(resolved, run, me, since);
      }
    }

    method ResolveContact(me: nat, h: Digest, contact: string, verified: bool) returns (p: Option<Id>, ghost at: nat)
      requires Valid() && Holds(world, me, FinishingEnrolment(h, contact)) && !Owns(world, me)
      modifies this`world, this`run
      ensures Valid() && old(run).Prefix(run) && !Owns(world, me) && TablesUntouched(run, me, |old(run).events|)
      ensures p.Some? ==> verified && Holds(world, me, ReplacingPasskey(h, p.value))
      ensures p.None? ==> Idle(world, me)
      ensures |old(run).events| <= at < |run.worlds|
      ensures p.Some? <==> verified && Registered(run.worlds[at].db, Human, contact)
    {
      hide Apply, Enabled, Sound, Run.Legal;
      Yield(me);
      at := |run.events|;
      if id :| id in world.db.principals && world.db.principals[id] == Principal(Human, contact) {
        ResolveEnrolmentStep(world, me, h, contact, id);
        Do(me, ResolveEnrolment(id));
        if verified {
          return Some(id), at;
        }
      }
      GiveUp(me);
      p := None;
    }

    /** The deferred Rollback, and the error response. */
    method RollBackAndGiveUp(me: nat)
      requires Valid() && Owns(world, me) && me in world.locals
      modifies this`world, this`run
      ensures Valid() && old(run).Prefix(run) && Idle(world, me)
      ensures TablesUntouched(run, me, |old(run).events|)
    {
      hide Apply, Enabled, Sound, Run.Legal;
      RollbackStep(world, Event(me, Rollback));
      Do(me, Rollback);
      GiveUp(me);
    }

    method ReplaceWebAuthnCredentialAndConsumeInvite(me: nat, h: Digest, p: Id, data: string, fault: bool)
      returns (r: Result<Id, EnrolError>, ghost at: nat)
      requires Valid() && Holds(world, me, ReplacingPasskey(h, p)) && !Owns(world, me)
      modifies this`world, this`run
      ensures Valid() && old(run).Prefix(run) && Idle(world, me)
      ensures r.Ok? ==> |old(run).events| < |run.events| && !fault && JustReplaced(run, me, h, r.value, data)
      ensures r.Err? ==> TablesUntouched(run, me, |old(run).events|) && r.error == EnrolServerError
      ensures |old(run).events| <= at < |run.worlds| && (r.Err? ==> fault || SwapBlocked(run.worlds[at], me, h))
    {
      hide Apply, Enabled, Sound, Run.Legal, JustReplaced, SwapBlocked, TablesUntouched;
      var now := BeginSwap(me);
      ghost var begun := run;
      r, at := SwapInTx(me, h, p, data, fault, now);
      if r.Err? {
        UntouchedTogether(begun, run, me, |old(run).events|);
      }
    }

    /** Begin, and the clock reading inside the transaction. */
    method BeginSwap(me: nat) returns (now: int)
      requires Valid() && me in world.locals && !Owns(world, me)
      modifies this`world, this`run
      ensures Valid() && old(run).Prefix(run) && TablesUntouched(run, me, |old(run).events|)
      ensures Owns(world, me) && me in world.locals && world.locals[me] == old(world).locals[me]
      ensures world.tx.value.began <= now <= world.now
    {
      hide Apply, Enabled, Sound, Run.Legal;
      Yield(me);
      BeginStep(world, me);
      Do(me, Begin);
      var second;
      now, second := TakeTwoTimes(me);
    }

    /** DELETE, INSERT and the guarded UPDATE, then Commit or Rollback. */
    method SwapInTx(me: nat, h: Digest, p: Id, data: string, fault: bool, now: int)
      returns (r: Result<Id, EnrolError>, ghost at: nat)
      requires Valid() && Holds(world, me, ReplacingPasskey(h, p)) && Owns(world, me)
      requires world.tx.value.began <= now <= world.now
      modifies this`world, this`run
      ensures Valid() && old(run).Prefix(run) && Idle(world, me)
      ensures r.Ok? ==> |old(run).events| < |run.events| && !fault && JustReplaced(run, me, h, r.value, data)
      ensures r.Err? ==> TablesUntouched(run, me, |old(run).events|) && r.error == EnrolServerError
      ensures at == |old(run).events| < |run.worlds| && (r.Err? ==> fault || SwapBlocked(run.worlds[at], me, h))
    {
      hide Apply, Enabled, Sound, Run.Legal, TablesUntouched;
      at := |run.events|;
      if fault || p !in world.db.principals || h !in world.db.invites || world.db.invites[h].usedAt.Some? {
        RollBackAndGiveUp(me);
        return Err(EnrolServerError), at;
      }
      var id := NewId();
      CommitReplaceStep(world, me, id, data, now);
      Do(me, CommitReplace(id, data, now));
      r := Ok(id);
    }

    /** The admin's revocation: read, then the guarded UPDATE and its rows-affected check. */
    method RevokeInviteByHash(me: nat, h: Digest) returns (r: Result<int, InviteError>, ghost read: nat)
      requires Valid() && Idle(world, me)
      modifies this`world, this`run
      ensures Valid() && old(run).Prefix(run) && Idle(world, me)
      ensures |old(run).events| <= read < |run.worlds|
      ensures r.Ok? ==>
        |old(run).events| < |run.events| && run.events[|run.events| - 1] == Event(me, UseInvite(h, r.value))
      ensures r.Ok? ==> var w := run.worlds[|run.events| - 1];
        && h in w.db.invites && w.db.invites[h].usedAt == None
        && world == w.(db := w.db.(invites := w.db.invites[h :=
                       w.db.invites[h].(usedAt := Some(Stamp(r.value)))]))
      ensures r.Err? ==> Quiet(run, me, |old(run).events|)
      ensures r == Err(InviteNotFound) <==> h !in run.worlds[read].db.invites
      ensures r == Err(InviteUsed) ==> h in world.db.invites ==> world.db.invites[h].usedAt.Some?
      ensures r != Err(InviteExpired)
    {
      hide Apply, Enabled, Sound, Run.Legal;
      Yield(me);
      read := |run.events|;
      if h !in world.db.invites {
        return Err(InviteNotFound), read;
      }
      if world.db.invites[h].usedAt.Some? {
        return Err(InviteUsed), read;
      }
      Drift(me);
      var now := world.now;
      Yield(me);
      var updated := UpdateUnused(me, h, now);
      r := if updated then Ok(now) else Err(InviteUsed);
    }

    /** UPDATE ... WHERE used_at IS NULL, and whether it affected a row. */
    method UpdateUnused(me: nat, h: Digest, now: int) returns (updated: bool)
      requires Valid() && Idle(world, me) && world.tx == None && now <= world.now
      modifies this`world, this`run
      ensures Valid() && old(run).Prefix(run) && Idle(world, me)
      ensures updated <==> h in old(world).db.invites && old(world).db.invites[h].usedAt == None
      ensures updated ==> run.events == old(run).events + [Event(me, UseInvite(h, now))]
      ensures updated ==> world == old(world).(db := old(world).db.(invites :=
        old(world).db.invites[h := old(world).db.invites[h].(usedAt := Some(Stamp(now)))]))
      ensures !updated ==> world == old(world) && run == old(run)
    {
      hide Apply, Enabled, Sound, Run.Legal, Stamp;
      updated := h in world.db.invites && world.db.invites[h].usedAt == None;
      if updated {
        UseInviteStep(world, me, h, now);
        Do(me, UseInvite(h, now));
      }
    }
  }
}
