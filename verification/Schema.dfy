/** The SQLite tables and their rows, and what single statements do to them.
    Timestamps are the whole seconds that the stored text keeps (see Rfc3339.Stamp). */
module Schema {
  import opened Wrappers
  import opened Rfc3339

  type Id = string
  type Kek = string

  /** SHA-256 of a raw token, idealised as injective. */
  datatype Digest = Digest(raw: string)

  /** Its hex text, as stored in credentials.data for a machine key. */
  function Hex(d: Digest): string { "sha256:" + d.raw }

  /** A private_key BLOB: legacy PKCS8 bytes, an AES-GCM box, or bytes that are neither.
      AES-GCM is idealised: a box opens under the key that sealed it and under no other. */
  datatype Blob = Pkcs8(der: string) | Sealed(kek: Kek, nonce: string, box: string) | Junk(bytes: string)

  function Open(kek: Kek, blob: Blob): Option<string> {
    if blob.Sealed? && blob.kek == kek then Some(blob.box) else None
  }

  datatype PrincipalClass = Human | Agent
  datatype Principal = Principal(klass: PrincipalClass, externalId: string)

  datatype Revocation = Revocation(revoker: string, at: int)

  datatype CredentialType = WebAuthn | MachineKey
  datatype Credential = Credential(principal: Id, kind: CredentialType, data: string, createdAt: int,
                                   revoked: Option<Revocation>)

  datatype Grant = Grant(principal: Id, scope: string, environment: string, grantedBy: string,
                         grantedAt: int, revoked: Option<Revocation>)

  datatype KeyStatus = Active | Retired
  datatype KeyRow = KeyRow(blob: Blob, status: KeyStatus, createdAt: int, retiredAt: Option<int>)

  datatype Session = Session(principal: Id, createdAt: int, expiresAt: int, revokedAt: Option<int>)

  datatype Code = Code(client: string, principal: Id, redirectUri: string, scope: string, nonce: string,
                       expiresAt: int, usedAt: Option<int>)

  /** A row of oidc_clients. The table is written at startup only (see Reconcile). */
  datatype Client = Client(secretHash: Digest, redirectUris: seq<string>, name: string, createdAt: int)

  datatype Invite = Invite(contact: string, expiresAt: int, usedAt: Option<int>)

  datatype Tables = Tables(
    principals: map<Id, Principal>,
    credentials: map<Id, Credential>,
    grants: map<Id, Grant>,
    keys: map<Id, KeyRow>,
    sessions: map<Digest, Session>,
    codes: map<Digest, Code>,
    invites: map<Digest, Invite>)

  const SESSION_TTL: int := 72 * HOUR
  const CODE_TTL: int := 5 * MINUTE
  const INVITE_TTL: int := 24 * HOUR
  const CHALLENGE_TTL: int := 60 * SECOND
  const TOKEN_TTL: int := 15 * MINUTE
  const VERIFICATION_WINDOW: int := 30 * MINUTE
  const ROTATION_INTERVAL: int := 30 * 24 * HOUR

  // ---- principals ----

  predicate Registered(db: Tables, klass: PrincipalClass, externalId: string) {
    exists id :: id in db.principals && db.principals[id] == Principal(klass, externalId)
  }

  // ON DELETE CASCADE: what DELETE FROM principals leaves of each referencing table.

  function CredentialsWithout(credentials: map<Id, Credential>, p: Id): map<Id, Credential> {
    map id | id in credentials && credentials[id].principal != p :: credentials[id]
  }

  function GrantsWithout(grants: map<Id, Grant>, p: Id): map<Id, Grant> {
    map id | id in grants && grants[id].principal != p :: grants[id]
  }

  function SessionsWithout(sessions: map<Digest, Session>, p: Id): map<Digest, Session> {
    map h | h in sessions && sessions[h].principal != p :: sessions[h]
  }

  function CodesWithout(codes: map<Digest, Code>, p: Id): map<Digest, Code> {
    map h | h in codes && codes[h].principal != p :: codes[h]
  }

  // ---- credentials ----

  predicate ActiveWebAuthn(c: Credential, p: Id) {
    c.principal == p && c.kind == WebAuthn && c.revoked == None
  }

  predicate HasActiveWebAuthn(credentials: map<Id, Credential>, p: Id) {
    exists id :: id in credentials && ActiveWebAuthn(credentials[id], p)
  }

  predicate HasWebAuthnRow(credentials: map<Id, Credential>, p: Id) {
    exists id :: id in credentials && credentials[id].principal == p && credentials[id].kind == WebAuthn
  }

  function WithoutWebAuthn(credentials: map<Id, Credential>, p: Id): map<Id, Credential> {
    map id | id in credentials && !(credentials[id].principal == p && credentials[id].kind == WebAuthn)
    :: credentials[id]
  }

  // ---- grants ----

  predicate ActiveGrant(g: Grant, p: Id, scope: string, environment: string) {
    g.principal == p && g.scope == scope && g.environment == environment && g.revoked == None
  }

  predicate Granted(grants: map<Id, Grant>, p: Id, scope: string, environment: string) {
    exists id :: id in grants && ActiveGrant(grants[id], p, scope, environment)
  }

  datatype Triple = Triple(principal: Id, scope: string, environment: string)

  function TripleOf(g: Grant): Triple { Triple(g.principal, g.scope, g.environment) }

  /** idx_grants_active: at most one active row per triple. */
  predicate UniqueActive(grants: map<Id, Grant>) {
    forall i, j | i in grants && j in grants ::
      grants[i].revoked == None && grants[j].revoked == None && TripleOf(grants[i]) == TripleOf(grants[j]) ==> i == j
  }

  // ---- signing keys ----

  predicate ActiveKey(keys: map<Id, KeyRow>, id: Id) {
    id in keys && keys[id].status == Active
  }

  predicate NoActiveKey(keys: map<Id, KeyRow>) {
    forall id :: id in keys ==> keys[id].status == Retired
  }

  predicate OnlyActiveKey(keys: map<Id, KeyRow>, id: Id) {
    ActiveKey(keys, id) && forall other :: other in keys && other != id ==> keys[other].status == Retired
  }

  predicate OneActiveKey(keys: map<Id, KeyRow>) {
    exists id :: id in keys && OnlyActiveKey(keys, id)
  }

  /** The retiring UPDATE of a rotation: every active row but the new one. */
  function RetireOthers(keys: map<Id, KeyRow>, id: Id, retiredAt: int): map<Id, KeyRow> {
    map k | k in keys :: if keys[k].status == Active && k != id
                         then keys[k].(status := Retired, retiredAt := Some(retiredAt)) else keys[k]
  }

  // ---- sessions ----

  function RevokedSession(s: Session, at: int): Session {
    if s.revokedAt == None then s.(revokedAt := Some(at)) else s
  }

  function RevokeSessionsOf(sessions: map<Digest, Session>, p: Id, at: int): map<Digest, Session> {
    map h | h in sessions :: if sessions[h].principal == p then RevokedSession(sessions[h], at) else sessions[h]
  }
}
