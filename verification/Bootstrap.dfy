/** The end of main's startup sequence, and the admin bootstrap: a human principal that has no
    WebAuthn credential row gets the aithne:admin grant. Nothing else runs before main listens. */
module Bootstrap {
  import opened Wrappers
  import opened Schema
  import opened World
  import opened KeyRuns
  import opened GrantRuns
  import opened TokenRuns
  import opened Services
  import opened EnrolmentRuns
  import opened KeyMaintenance
  import opened Reconcile
  import opened ClientKeys
  import opened Steps
  import opened Rfc3339

  const ADMIN_SCOPE := "aithne:admin"
  const BOOTSTRAP_GRANTOR := "bootstrap"

  /** The credential gate was found open at some read from `since` on, before event k. */
  ghost predicate GateWasOpen(run: Run, since: nat, k: nat, p: Id) {
    exists r: nat :: since <= r <= k < |run.worlds| && NoPasskeyRowAt(run, r, p)
  }

  ghost predicate NoPasskeyRowAt(run: Run, r: nat, p: Id) {
    r < |run.worlds| && !HasWebAuthnRow(run.worlds[r].db.credentials, p)
  }

  /** A grant event that is the bootstrap's: it is of aithne:admin, and made through the gate. */
  ghost predicate IsBootstrap(run: Run, since: nat, k: nat) {
    k < |run.events| && run.events[k].step.AddGrant?
    && run.events[k].step.scope == ADMIN_SCOPE && run.events[k].step.grantor == BOOTSTRAP_GRANTOR
    && GateWasOpen(run, since, k, run.events[k].step.principal)
  }

  lemma RowsDecideGate(credentials: map<Id, Credential>, p: Id, rows: seq<Credential>)
    requires CredentialRows(credentials, p, rows)
    ensures HasWebAuthnRow(credentials, p) <==> exists i | 0 <= i < |rows| :: rows[i].kind == WebAuthn
  {
    if HasWebAuthnRow(credentials, p) {
      var id :| id in credentials && credentials[id].principal == p && credentials[id].kind == WebAuthn;
      assert credentials[id] in rows;
    }
    if i :| 0 <= i < |rows| && rows[i].kind == WebAuthn {
      assert rows[i] in rows;
      var id :| id in credentials && credentials[id] == rows[i];
    }
  }

  /** The rows the loop visits, revoked or not. */
  method AnyWebAuthn(creds: seq<Credential>) returns (found: bool)
    ensures found <==> exists i | 0 <= i < |creds| :: creds[i].kind == WebAuthn
  {
    for i := 0 to |creds|
      invariant forall j | 0 <= j < i :: creds[j].kind != WebAuthn
    {
      if creds[i].kind == WebAuthn {
        return true;
      }
    }
    found := false;
  }

  method EnsurePrincipal(s: Service, me: nat, contactId: string) returns (p: Id)
    requires s.Valid() && Idle(s.world, me) && !s.listening && s.world.tx == None
    modifies s`world, s`run
    ensures s.Valid() && old(s.run).Prefix(s.run) && Idle(s.world, me) && s.world.tx == None
    ensures Names(s.world, p, Human, contactId) && NoGrantsOfMine(s.run, me, |old(s.run).events|)
    ensures Registered(old(s.world).db, Human, contactId) ==> s.world == old(s.world).(now := s.world.now)
    ensures !Registered(old(s.world).db, Human, contactId) ==>
      p !in old(s.world).db.principals && PrincipalAdded(old(s.world), s.world, p, Human, contactId)
  {
    hide Apply, Enabled, Sound, Run.Legal;
    var found, at := s.GetPrincipalByExternalID(me, Human, contactId);
    if found.None? {
      var created := s.CreatePrincipal(me, Human, contactId);
      if created.None? {
        assert false;
        p := "";
      } else {
        p := created.value;
      }
    } else {
      p := found.value;
    }
  }

  /** aithne:admin is in force afterwards, unless the gate is closed or the vocabulary lacks it; no
      other grant changed, and none at all if there was nothing to do. */
  ghost predicate AdminGranted(w: World, v: World, p: Id, environment: string) {
    var idle := HasWebAuthnRow(w.db.credentials, p) || ADMIN_SCOPE !in w.vocabulary;
    && v == w.(now := v.now, issued := v.issued, db := w.db.(grants := v.db.grants))
    && InForce(v.db.grants) == InForce(w.db.grants) + (if idle then {} else {Triple(p, ADMIN_SCOPE, environment)})
    && (idle || Triple(p, ADMIN_SCOPE, environment) in InForce(w.db.grants) ==> v.db.grants == w.db.grants)
  }

  lemma AdminAdded(w: World, before: World, v: World, p: Id, environment: string)
    requires before == w.(now := before.now)
    requires v == before.(issued := v.issued, db := before.db.(grants := v.db.grants))
    requires InForce(v.db.grants) == InForce(before.db.grants) + {Triple(p, ADMIN_SCOPE, environment)}
    requires !HasWebAuthnRow(w.db.credentials, p) && ADMIN_SCOPE in w.vocabulary
    requires !Granted(before.db.grants, p, ADMIN_SCOPE, environment)
    ensures AdminGranted(w, v, p, environment)
  {
    hide InForce, Granted;
    InForceIsGranted(w.db.grants, p, ADMIN_SCOPE, environment);
  }

  lemma AdminUnchanged(w: World, v: World, p: Id, environment: string)
    requires v == w.(now := v.now)
    requires HasWebAuthnRow(w.db.credentials, p) || ADMIN_SCOPE !in w.vocabulary
      || Granted(w.db.grants, p, ADMIN_SCOPE, environment)
    ensures AdminGranted(w, v, p, environment)
  {
    hide InForce, Granted, HasWebAuthnRow;
    InForceIsGranted(w.db.grants, p, ADMIN_SCOPE, environment);
    var before := InForce(w.db.grants);
    assert before + {} == before;
    if Triple(p, ADMIN_SCOPE, environment) in before {
      assert before + {Triple(p, ADMIN_SCOPE, environment)} == before;
    }
  }

  lemma GrantedSince(w: World, u: World, v: World, p: Id, environment: string)
    requires u == w.(now := u.now) && AdminGranted(u, v, p, environment)
    ensures AdminGranted(w, v, p, environment)
  {
  }

  method GrantUnlessEnrolled(s: Service, me: nat, p: Id)
    requires s.Valid() && Idle(s.world, me) && !s.listening && s.world.tx == None && p in s.world.db.principals
    modifies s`world, s`run
    ensures s.Valid() && old(s.run).Prefix(s.run) && Idle(s.world, me)
    ensures s.world.tx == None && s.world.locals == old(s.world).locals
    ensures AdminGranted(old(s.world), s.world, p, s.environment)
    ensures ThroughGate(s.run, me, |old(s.run).events|)
  {
    hide Apply, Enabled, Sound, Run.Legal, InForce, Granted, HasWebAuthnRow, AdminGranted, CredentialRows,
    ThroughGate;
    var creds, read := s.ListCredentialsByPrincipal(me, p);
    RowsDecideGate(s.world.db.credentials, p, creds);
    var enrolled := AnyWebAuthn(creds);
    if enrolled {
      AdminUnchanged(old(s.world), s.world, p, s.environment);
      NoGrantsThroughGate(s.run, me, |old(s.run).events|);
      return;
    }
    assert NoPasskeyRowAt(s.run, read, p);
    ghost var open := s.world;
    GrantAdmin(s, me, p, |old(s.run).events|, read);
    GrantedSince(old(s.world), open, s.world, p, s.environment);
  }

  /** The grant itself, once the gate was found open at world `read`. */
  method GrantAdmin(s: Service, me: nat, p: Id, ghost since: nat, ghost read: nat)
    requires s.Valid() && Idle(s.world, me) && !s.listening && s.world.tx == None && p in s.world.db.principals
    requires since <= read <= |s.run.events| && NoPasskeyRowAt(s.run, read, p) && NoGrantsOfMine(s.run, me, since)
    requires !HasWebAuthnRow(s.world.db.credentials, p)
    modifies s`world, s`run
    ensures s.Valid() && old(s.run).Prefix(s.run) && Idle(s.world, me)
    ensures s.world.tx == None && s.world.locals == old(s.world).locals
    ensures AdminGranted(old(s.world), s.world, p, s.environment)
    ensures ThroughGate(s.run, me, since)
  {
    hide Apply, Enabled, Sound, Run.Legal, InForce, Granted, HasWebAuthnRow, AdminGranted;
    var r := s.CreateGrant(me, p, ADMIN_SCOPE, s.environment, BOOTSTRAP_GRANTOR);
    if r.Ok? {
      assert NoPasskeyRowAt(s.run, read, p);
      assert IsBootstrap(s.run, since, |s.run.events| - 1);
      AdminAdded(old(s.world), s.run.worlds[|s.run.events| - 1], s.world, p, s.environment);
    } else {
      assert r.error != NoSuchPrincipal;
      if r.error == DuplicateGrant {
        RowGranted(s.world.db.grants, p, ADMIN_SCOPE, s.environment);
      }
      AdminUnchanged(old(s.world), s.world, p, s.environment);
    }
  }

  lemma RowGranted(grants: map<Id, Grant>, p: Id, scope: string, environment: string)
    requires exists id :: id in grants && grants[id].principal == p && grants[id].scope == scope
                          && grants[id].environment == environment && grants[id].revoked == None
    ensures Granted(grants, p, scope, environment)
  {
    var id :| id in grants && grants[id].principal == p && grants[id].scope == scope
              && grants[id].environment == environment && grants[id].revoked == None;
    assert ActiveGrant(grants[id], p, scope, environment);
  }

  /** Each of my grants from `since` on is the bootstrap's, through the gate. */
  ghost predicate ThroughGate(run: Run, me: nat, since: nat) {
    forall k | since <= k < |run.events| && run.events[k].actor == me ::
      run.events[k].step.AddGrant? ==> IsBootstrap(run, since, k)
  }

  lemma ThroughGateTogether(run: Run, middle: Run, me: nat, since: nat)
    requires middle.Prefix(run) && since <= |middle.events|
    requires NoGrantsOfMine(middle, me, since) && ThroughGate(run, me, |middle.events|)
    ensures ThroughGate(run, me, since)
  {
    forall k | since <= k < |run.events| && run.events[k].actor == me && run.events[k].step.AddGrant?
      ensures IsBootstrap(run, since, k)
    {
      if k >= |middle.events| {
        assert IsBootstrap(run, |middle.events|, k);
      }
    }
  }

  /** The contact's principal exists, and is enrolled, or an admin as far as the vocabulary allows. */
  ghost predicate AdminSettled(w: World, p: Id, contactId: string, environment: string) {
    && Names(w, p, Human, contactId)
    && (HasWebAuthnRow(w.db.credentials, p) || ADMIN_SCOPE !in w.vocabulary
        || Granted(w.db.grants, p, ADMIN_SCOPE, environment))
  }

  /** What the bootstrap leaves: the principal and its grant. */
  ghost predicate Bootstrapped(w: World, v: World, p: Id, contactId: string, environment: string) {
    && Names(v, p, Human, contactId)
    && v.db.principals == (if Registered(w.db, Human, contactId) then w.db.principals
                                  else w.db.principals[p := Principal(Human, contactId)])
    && AdminGranted(w.(db := w.db.(principals := v.db.principals)), v, p, environment)
  }

  method BootstrapAdmin(s: Service, me: nat, contactId: string) returns (p: Id)
    requires s.Valid() && Idle(s.world, me) && !s.listening && s.world.tx == None
    modifies s`world, s`run
    ensures s.Valid() && old(s.run).Prefix(s.run) && Idle(s.world, me)
    ensures s.world.tx == None && s.world.locals == old(s.world).locals
    ensures Bootstrapped(old(s.world), s.world, p, contactId, s.environment)
    ensures var w, v := old(s.world), s.world;
      var enrolled := exists id :: id in w.db.credentials && w.db.credentials[id].principal == p
                                   && w.db.credentials[id].kind == WebAuthn;
      && p in v.db.principals && v.db.principals[p] == Principal(Human, contactId)
      && (enrolled || "aithne:admin" !in w.vocabulary ==> v.db.grants == w.db.grants)
      && (!enrolled && "aithne:admin" in w.vocabulary ==> exists id ::
            id in v.db.grants && v.db.grants[id].principal == p && v.db.grants[id].scope == "aithne:admin"
            && v.db.grants[id].environment == s.environment && v.db.grants[id].revoked == None)
      && v.db == w.db.(principals := v.db.principals, grants := v.db.grants)
    ensures ThroughGate(s.run, me, |old(s.run).events|)
  {
    hide Apply, Enabled, Sound, Run.Legal, InForce, ThroughGate, Bootstrapped, AdminGranted;
    p := EnsurePrincipal(s, me, contactId);
    ghost var middle, named := s.run, s.world;
    GrantUnlessEnrolled(s, me, p);
    ThroughGateTogether(s.run, middle, me, |old(s.run).events|);
    BootstrapComposed(old(s.world), named, s.world, p, contactId, s.environment);
    BootstrappedShows(old(s.world), s.world, p, contactId, s.environment);
  }

  lemma BootstrapComposed(w: World, named: World, v: World, p: Id, contactId: string, environment: string)
    requires Names(named, p, Human, contactId) && AdminGranted(named, v, p, environment)
    requires if Registered(w.db, Human, contactId) then named == w.(now := named.now)
             else p !in w.db.principals && PrincipalAdded(w, named, p, Human, contactId)
    ensures Bootstrapped(w, v, p, contactId, environment)
  {
    hide InForce;
  }

  /** What a bootstrap leaves, in the words of the schema. */
  lemma BootstrappedShows(w: World, v: World, p: Id, contactId: string, environment: string)
    requires Bootstrapped(w, v, p, contactId, environment)
    ensures var enrolled := exists id :: id in w.db.credentials && w.db.credentials[id].principal == p
                                         && w.db.credentials[id].kind == WebAuthn;
      && p in v.db.principals && v.db.principals[p] == Principal(Human, contactId)
      && (enrolled || "aithne:admin" !in w.vocabulary ==> v.db.grants == w.db.grants)
      && (!enrolled && "aithne:admin" in w.vocabulary ==> exists id ::
            id in v.db.grants && v.db.grants[id].principal == p && v.db.grants[id].scope == "aithne:admin"
            && v.db.grants[id].environment == environment && v.db.grants[id].revoked == None)
      && v.db == w.db.(principals := v.db.principals, grants := v.db.grants)
  {
    hide InForce;
    InForceIsGranted(v.db.grants, p, ADMIN_SCOPE, environment);
  }

  /** Bootstrapping what a bootstrap left changes no table. */
  lemma BootstrapIsIdempotent(u: World, v: World, w: World, p: Id, q: Id, contactId: string, environment: string)
    requires Bootstrapped(u, v, p, contactId, environment) && Bootstrapped(v, w, q, contactId, environment)
    requires UniqueExternalIds(v)
    ensures w.db == v.db && q == p
  {
    assert Registered(v.db, Human, contactId);
    InForceIsGranted(v.db.grants, p, ADMIN_SCOPE, environment);
  }

  /** Idempotent: the second start of the service leaves every table as the first did. */
  method BootstrapTwice(s: Service, me: nat, contactId: string) returns (p: Id, ghost first: World)
    requires s.Valid() && Idle(s.world, me) && !s.listening && s.world.tx == None
    modifies s`world, s`run
    ensures s.Valid() && Bootstrapped(old(s.world), first, p, contactId, s.environment) && s.world.db == first.db
  {
    hide Apply, Enabled, Sound, Run.Legal, InForce, ThroughGate, Bootstrapped;
    p := BootstrapAdmin(s, me, contactId);
    first := s.world;
    SoundExternalIds(first);
    var q := BootstrapAdmin(s, me, contactId);
    BootstrapIsIdempotent(old(s.world), first, s.world, p, q, contactId, s.environment);
  }

  lemma SoundExternalIds(w: World)
    requires Sound(w)
    ensures UniqueExternalIds(w)
  {
  }

  // ---- The gate over whole runs ----

  /** The steps that can take a principal's last WebAuthn row away; revoking is not one of them. */
  ghost predicate DeletesCredentials(w: World, step: Step, p: Id) {
    (step.DeletePrincipal? && step.id == p)
    || (step.DeleteCredential? && step.id in w.db.credentials && w.db.credentials[step.id].principal == p)
  }

  lemma GateStaysClosedStep(w: World, e: Event, p: Id)
    requires AllIssued(w) && Enabled(w, e) && HasWebAuthnRow(w.db.credentials, p)
    ensures DeletesCredentials(w, e.step, p) || HasWebAuthnRow(Apply(w, e).db.credentials, p)
  {
    hide Apply, Enabled;
    var id :| id in w.db.credentials && w.db.credentials[id].principal == p && w.db.credentials[id].kind == WebAuthn;
    StepCredentialsEvolve(w, e);
    PasskeyRowStep(w, e, id);
  }

  /** A passkey row goes only with a deletion, or in a swap that puts another in its place. */
  lemma PasskeyRowStep(w: World, e: Event, id: Id)
    requires Enabled(w, e) && id in w.db.credentials && w.db.credentials[id].kind == WebAuthn
    ensures var p, after := w.db.credentials[id].principal, Apply(w, e).db.credentials;
      id in after || DeletesCredentials(w, e.step, p)
      || (e.step.CommitReplace? && e.step.id in after && PasskeyOf(after[e.step.id], p))
  {
  }

  lemma {:induction false} GateStaysClosed(run: Run, i: nat, j: nat, p: Id)
    requires run.Legal() && i <= j < |run.worlds| && AllIssued(run.worlds[i])
    requires HasWebAuthnRow(run.worlds[i].db.credentials, p)
    requires forall k | i <= k < j :: !DeletesCredentials(run.worlds[k], run.events[k].step, p)
    ensures HasWebAuthnRow(run.worlds[j].db.credentials, p)
  {
    hide Apply, Enabled;
    if i < j {
      GateStaysClosed(run, i, j - 1, p);
      AllIssuedThroughout(run, i, j - 1);
      GateStaysClosedStep(run.worlds[j - 1], run.events[j - 1], p);
    }
  }

  /** From a world in which the principal has a passkey row, however often the service restarts and
      bootstraps: as long as nobody deletes the row or grants aithne:admin explicitly, a grant that
      is revoked stays revoked. */
  lemma RevokedAdminStaysRevoked(run: Run, i: nat, r: nat, j: nat, p: Id, environment: string)
    requires run.Legal() && i <= r <= j < |run.worlds| && AllIssued(run.worlds[i])
    requires HasWebAuthnRow(run.worlds[i].db.credentials, p)
    requires forall k | i <= k < j :: !DeletesCredentials(run.worlds[k], run.events[k].step, p)
    requires !Granted(run.worlds[r].db.grants, p, ADMIN_SCOPE, environment)
    requires forall k | r <= k < j ::
      GrantsTriple(run.events[k].step, p, ADMIN_SCOPE, environment) ==> IsBootstrap(run, i, k)
    ensures !Granted(run.worlds[j].db.grants, p, ADMIN_SCOPE, environment)
  {
    hide Apply, Enabled;
    AllIssuedThroughout(run, i, r);
    forall k | r <= k < j
      ensures !GrantsTriple(run.events[k].step, p, ADMIN_SCOPE, environment)
    {
      if GrantsTriple(run.events[k].step, p, ADMIN_SCOPE, environment) {
        var read: nat :| i <= read <= k && NoPasskeyRowAt(run, read, p);
        GateStaysClosed(run, i, read, p);
        assert false;
      }
    }
    NotGrantedUntilRegrant(run, r, j, p, ADMIN_SCOPE, environment);
  }

  // ---- The startup sequence ----

  /** A fresh database file at first boot. */
  function FirstBoot(kek: Kek, now: int, horizon: int, vocabulary: set<string>): World {
    World(kek, horizon, vocabulary, now, None, {},
          Tables(map[], map[], map[], map[], map[], map[], map[]), map[], map[])
  }

  /** First boot meets every condition the theorems put on the start of a run. */
  lemma FirstBootIsSound(kek: Kek, now: int, horizon: int, vocabulary: set<string>)
    requires VERIFICATION_WINDOW <= now <= horizon && Representable(horizon)
    ensures var w := FirstBoot(kek, now, horizon, vocabulary);
      Sound(w) && Bound(w) && InVocabulary(w) && NoActiveKey(w.db.keys)
      && AllSealed(kek, w.db.keys) && w.pending == map[]
  {
  }

  /** Signing keys, then the bootstrap if a contact is configured (None is an empty environment
      variable), then the clients, then listen. The migration is already done. */
  method Startup(s: Service, me: nat, adminContact: Option<string>, d: Declaration)
    returns (ok: bool, rotated: bool, ghost key: SigningKey, ghost read: nat, ghost clock: nat)
    requires s.Valid() && !s.listening && Unattended(s.world) && Timed(d)
    modifies s
    ensures s.Valid() && old(s.run).Prefix(s.run) && ThroughGate(s.run, me, |old(s.run).events|)
    ensures ok <==> s.listening
    ensures AllReadable(old(s.world)) ==> ok
    ensures ok ==> (Serving(s.world) <==> AtMostOneActive(old(s.world).db.keys) || rotated)
    ensures ok ==> |old(s.run).events| <= read <= clock < |s.run.worlds| && key.id in s.run.worlds[read].db.keys
    ensures ok ==> var keys := s.run.worlds[read].db.keys;
      && keys[key.id].status == Active && Stamp(key.createdAt) == Stamp(keys[key.id].createdAt)
      && (NoActiveKey(old(s.world).db.keys) || keys == old(s.world).db.keys)
    ensures ok ==> (rotated <==> 30 * 24 * HOUR < s.run.worlds[clock].now - key.createdAt)
    ensures ok ==> s.clients == RowsAfter(old(s.clients), d, s.environment)
    ensures ok && adminContact.Some? ==> exists p ::
      AdminSettled(s.world, p, adminContact.value, s.environment)
  {
    hide Apply, Enabled, Sound, Run.Legal, InForce, AllReadable, OneActiveKey, ThroughGate, AdminSettled;
    rotated := false;
    var keys;
    keys, key, read, clock := s.StartSigningKeys(me);
    ghost var middle := s.run;
    if keys.Err? {
      NoGrantsThroughGate(s.run, me, |old(s.run).events|);
      return false, false, key, read, clock;
    }
    rotated := keys.value.Some?;
    ghost var started := s.world;
    NoGrantsThroughGate(s.run, me, |old(s.run).events|);
    if adminContact.Some? {
      var p := BootstrapAdmin(s, me, adminContact.value);
      ThroughGateTogether(s.run, middle, me, |old(s.run).events|);
      SettledAfter(started, s.world, p, adminContact.value, s.environment);
    }
    ServedWhenOneActive(s.world);
    var table := new ClientTable(s.clients);
    table.ReconcileOIDCClients(d, s.environment);
    s.clients := table.rows;
    s.listening := true;
    ok := true;
  }

  /** Each grant a startup makes is of aithne:admin, by "bootstrap", to a principal that had no passkey row,
      revoked or not, at a world the startup read before. */
  lemma ThroughGateShows(run: Run, me: nat, since: nat, k: nat) returns (r: nat)
    requires ThroughGate(run, me, since) && since <= k < |run.events|
    requires run.events[k].actor == me && run.events[k].step.AddGrant?
    ensures run.events[k].step.scope == "aithne:admin" && run.events[k].step.grantor == "bootstrap"
    ensures since <= r <= k && r < |run.worlds| && var credentials := run.worlds[r].db.credentials;
      forall id | id in credentials && credentials[id].principal == run.events[k].step.principal ::
        credentials[id].kind != WebAuthn
  {
    assert IsBootstrap(run, since, k);
    r :| since <= r <= k < |run.worlds| && NoPasskeyRowAt(run, r, run.events[k].step.principal);
  }

  /** After a startup with this manifest, a client whose entry reached the table authenticates at the token
      endpoint with the secret that CLIENT_KEYS gives it, and with no other. */
  lemma DeclaredSecretAuthenticates(before: map<string, Client>, clients: map<string, Client>, d: Declaration,
                                    environment: string, i: nat, request: TokenRequest)
    requires Timed(d) && clients == RowsAfter(before, d, environment)
    requires d.manifest.Some? && i < |d.manifest.value| && i !in d.fails
    requires d.manifest.value[i].clientId == request.client && request.client in Parse(d.clientKeysRaw)
    requires d.manifest.value[i].redirectUris == [] || exists uri ::
      uri in d.manifest.value[i].redirectUris && (environment == "development" || !d.loopback(uri))
    requires var m := d.manifest.value;
      forall j | i < j < |m| && j !in d.fails && m[j].clientId == m[i].clientId ::
        environment != "development" && m[j].redirectUris != []
        && forall uri :: uri in m[j].redirectUris ==> d.loopback(uri)
    ensures request.client in clients
    ensures clients[request.client].secretHash == Digest(request.secret)
      <==> request.secret == Parse(d.clientKeysRaw)[request.client]
    ensures ClientAuthenticates(clients, request) <==> request.secret == Parse(d.clientKeysRaw)[request.client]
  {
    hide Parse, RowsAfter;
    var _ := ReconciledColumns(before, d, environment, i);
  }

  lemma NoGrantsThroughGate(run: Run, me: nat, since: nat)
    requires NoGrantsOfMine(run, me, since)
    ensures ThroughGate(run, me, since)
  {
  }

  /** Settled, in the words of the schema. */
  lemma SettledShows(w: World, p: Id, contactId: string, environment: string)
    requires AdminSettled(w, p, contactId, environment)
    ensures p in w.db.principals && w.db.principals[p] == Principal(Human, contactId)
    ensures "aithne:admin" in w.vocabulary ==>
      || (exists id :: id in w.db.credentials && w.db.credentials[id].principal == p
                       && w.db.credentials[id].kind == WebAuthn)
      || (exists id :: id in w.db.grants && w.db.grants[id].principal == p && w.db.grants[id].scope == "aithne:admin"
                       && w.db.grants[id].environment == environment && w.db.grants[id].revoked == None)
  {
  }

  lemma SettledAfter(w: World, v: World, p: Id, contactId: string, environment: string)
    requires Bootstrapped(w, v, p, contactId, environment)
    ensures AdminSettled(v, p, contactId, environment) && v.db.keys == w.db.keys && v.locals == w.locals && v.tx == w.tx
  {
    InForceIsGranted(v.db.grants, p, ADMIN_SCOPE, environment);
  }

  lemma ServedWhenOneActive(w: World)
    requires Unattended(w)
    ensures Serving(w) <==> OneActiveKey(w.db.keys)
  {
  }

  lemma MigratedWorld(w: World, rows: map<Id, KeyRow>)
    requires Sound(w) && SameKeys(w.kek, w.db.keys, rows) && AllSealed(w.kek, rows)
    ensures var v := w.(db := w.db.(keys := rows));
      Sound(v) && AllReadable(v) && (AtMostOneActive(rows) <==> AtMostOneActive(w.db.keys))
  {
    var v := w.(db := w.db.(keys := rows));
    assert Sound(v) by {
      assert AllIssued(v) && UniqueExternalIds(v) && UniqueActive(v.db.grants) && KeyTimesStored(v);
    }
    forall id ensures !Unreadable(v, id) {
    }
    SameStatuses(w.kek, w.db.keys, rows);
    SameStatuses(w.kek, rows, w.db.keys);
  }

  lemma SameStatuses(kek: Kek, a: map<Id, KeyRow>, b: map<Id, KeyRow>)
    requires a.Keys == b.Keys && forall id :: id in a ==> a[id].status == b[id].status
    ensures AtMostOneActive(a) ==> AtMostOneActive(b)
  {
    if OneActiveKey(a) {
      var id :| id in a && OnlyActiveKey(a, id);
      assert OnlyActiveKey(b, id);
    }
  }

  /** The whole startup of a process on a database: migrate, keys, bootstrap, reconcile, listen. It fails
      if and only if some key row is neither sealed under the KEK nor a legacy plaintext key. */
  method Boot(w: World, environment: string, clients: map<string, Client>, me: nat, adminContact: Option<string>,
              d: Declaration)
    returns (s: Service?, rotated: bool, ghost key: SigningKey, ghost read: nat, ghost clock: nat)
    requires Sound(w) && Unattended(w) && environment != "" && Timed(d)
    ensures s == null <==> exists id :: id in w.db.keys && Der(w.kek, w.db.keys[id].blob) == None
    ensures s != null ==> s.Valid() && s.listening && s.environment == environment
    ensures s != null ==> (Serving(s.world) <==> AtMostOneActive(w.db.keys) || rotated)
    ensures s != null ==> read <= clock < |s.run.worlds| && key.id in s.run.worlds[read].db.keys
    ensures s != null ==> var row := s.run.worlds[read].db.keys[key.id];
      && row.status == Active && Stamp(key.createdAt) == Stamp(row.createdAt)
      && (NoActiveKey(w.db.keys) || (key.id in w.db.keys && row == w.db.keys[key.id].(blob := row.blob)))
    ensures s != null ==> (rotated <==> 30 * 24 * HOUR < s.run.worlds[clock].now - key.createdAt)
    ensures s != null ==> s.clients == RowsAfter(clients, d, environment)
    ensures s != null && adminContact.Some? ==> exists p :: AdminSettled(s.world, p, adminContact.value, environment)
  {
    hide Apply, Enabled, Sound, Run.Legal, AllReadable, OneActiveKey, Serving, AdminSettled;
    rotated, key, read, clock := false, SigningKey("", 0), 0, 0;
    var table := new SigningKeyTable(w.kek, w.db.keys);
    var migration := table.MigrateSigningKeyEncryption(None);
    if migration.UnreadableRow? {
      return null, false, key, read, clock;
    }
    MigratedWorld(w, table.rows);
    var service := new Service(w.(db := w.db.(keys := table.rows)), environment, clients);
    var ok;
    ok, rotated, key, read, clock := Startup(service, me, adminContact, d);
    SameActive(w.db.keys, table.rows);
    s := service;
  }

  lemma SameActive(a: map<Id, KeyRow>, b: map<Id, KeyRow>)
    requires a.Keys == b.Keys && forall id :: id in a ==> a[id].status == b[id].status
    ensures NoActiveKey(b) <==> NoActiveKey(a)
  {
  }

  /** A restart inside the run: what was in flight is lost, and on a sealed table the migration has nothing
      to do, so the service always comes back, granting only through the gate. */
  method RestartService(s: Service, me: nat, adminContact: Option<string>, d: Declaration)
    returns (rotated: bool, ghost key: SigningKey, ghost read: nat, ghost clock: nat)
    requires s.Valid() && AllSealed(s.world.kek, s.world.db.keys) && Timed(d)
    modifies s
    ensures s.Valid() && s.listening && old(s.run).Prefix(s.run) && ThroughGate(s.run, me, |old(s.run).events|)
    ensures Serving(s.world) <==> AtMostOneActive(old(s.world).db.keys) || rotated
    ensures read <= clock < |s.run.worlds| && key.id in s.run.worlds[read].db.keys
    ensures s.run.worlds[read].db.keys[key.id].status == Active
      && (NoActiveKey(old(s.world).db.keys) || s.run.worlds[read].db.keys == old(s.world).db.keys)
    ensures rotated <==> 30 * 24 * HOUR < s.run.worlds[clock].now - key.createdAt
    ensures s.clients == RowsAfter(old(s.clients), d, s.environment)
    ensures adminContact.Some? ==> exists p :: AdminSettled(s.world, p, adminContact.value, s.environment)
  {
    hide Apply, Enabled, Sound, Run.Legal, AllReadable, OneActiveKey, Serving, AdminSettled, AllSealed, ThroughGate;
    RestartStep(s.world, me);
    s.Do(me, Restart);
    s.listening := false;
    ghost var down := s.run;
    var table := new SigningKeyTable(s.world.kek, s.world.db.keys);
    var migration := table.MigrateSigningKeyEncryption(None);
    SealedIsReadable(s.world);
    var ok;
    ok, rotated, key, read, clock := Startup(s, me, adminContact, d);
    OnlyRestarted(old(s.run), down, me);
    ThroughGateTogether(s.run, down, me, |old(s.run).events|);
  }

  lemma SealedIsReadable(w: World)
    requires AllSealed(w.kek, w.db.keys)
    ensures AllReadable(w)
  {
  }

  lemma OnlyRestarted(early: Run, run: Run, me: nat)
    requires run.events == early.events + [Event(me, Restart)]
    ensures NoGrantsOfMine(run, me, |early.events|)
  {
  }
}
