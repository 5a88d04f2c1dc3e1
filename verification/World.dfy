/** The running service as a state machine. One SQL statement, or one committed transaction,
    is one step: the pool holds a single connection. Everything a request keeps between two
    of its statements and that decides a later write is in `locals`, under the request's number. */
module World {
  import opened Wrappers
  import opened Rfc3339
  import opened Schema

  /** A transaction holds the only connection from Begin to Commit or Rollback. */
  datatype Tx = Tx(owner: nat, began: int)

  /** What an in-flight request has read and will write from. */
  datatype Local =
    | CreatingKey                                  // GetOrCreateActiveSigningKey found no active row
    | InviteFound(invite: Digest, contact: string, expiresAt: int)       // an unused row, its expiry not yet checked
    | BeginningEnrolment(invite: Digest, contact: string, checked: int)  // the clock reading that passed the check
    | FinishingEnrolment(invite: Digest, contact: string)
    | ReplacingPasskey(invite: Digest, principal: Id)

  /** A pending enrolment ceremony in memory. */
  datatype Pending = Pending(contact: string, expiresAt: int)

  datatype World = World(
    kek: Kek,
    horizon: int,                 // the clock stays within four-digit years
    vocabulary: set<string>,      // scopes.yaml, embedded in the binary
    now: int,
    tx: Option<Tx>,
    issued: set<string>,          // every UUID and random token ever generated
    db: Tables,
    locals: map<nat, Local>,
    pending: map<Digest, Pending>)

  datatype Step =
    | Tick(to: int)
    | Restart
    | Begin
    | Rollback
    | Abandon
    | AddPrincipal(id: Id, klass: PrincipalClass, externalId: string)
    | DeletePrincipal(id: Id)
    | AddMachineKey(id: Id, principal: Id, data: string, at: int)
    | SetCredentialData(id: Id, data: string)
    | RevokeCredentialRow(id: Id, revoker: string, at: int)
    | DeleteCredential(id: Id)
    | AddGrant(id: Id, principal: Id, scope: string, environment: string, grantor: string, at: int)
    | RevokeGrantRow(id: Id, revoker: string, at: int)
    | SelectNoActiveKey
    | InsertKey(id: Id, blob: Blob, at: int)
    | CommitRotation(id: Id, blob: Blob, created: int, retired: int)
    | AddSession(raw: string, principal: Id, at: int)
    | RevokeSession(session: Digest, at: int)
    | RevokeSessions(principal: Id, at: int)
    | AddCode(raw: string, row: Code, issuedAt: int)
    | CommitConsume(digest: Digest, checked: int, at: int)
    | AddInvite(raw: string, contact: string, at: int)
    | UseInvite(invite: Digest, at: int)
    | ReadInvite(invite: Digest)
    | CheckInvite
    | PutEnrolment
    | TakeEnrolment(invite: Digest)
    | DropEnrolment(invite: Digest)
    | SweepEnrolments
    | ResolveEnrolment(principal: Id)
    | CommitReplace(id: Id, data: string, at: int)

  datatype Event = Event(actor: nat, step: Step)

  predicate Fresh(w: World, s: string) { s !in w.issued }

  function AtLeast(s: set<string>, n: nat): set<string> { set x | x in s && n <= |x| }

  lemma StrictSubsetSmaller<T>(a: set<T>, b: set<T>, x: T)
    requires a <= b && x in b && x !in a
    ensures |a| < |b|
  {
    assert b == a + (b - a);
    assert x in b - a;
  }

  /** There is always a string never generated before. */
  lemma NewString(issued: set<string>) returns (id: string)
    ensures id !in issued
  {
    id := "";
    while id in issued
      decreases |AtLeast(issued, |id|)|
    {
      StrictSubsetSmaller(AtLeast(issued, |id| + 1), AtLeast(issued, |id|), id);
      id := id + "0";
    }
  }

  predicate Owns(w: World, actor: nat) { w.tx.Some? && w.tx.value.owner == actor }

  predicate Holds(w: World, actor: nat, local: Local) { actor in w.locals && w.locals[actor] == local }

  function Unexpired(pending: map<Digest, Pending>, now: int): map<Digest, Pending> {
    map h | h in pending && now <= pending[h].expiresAt :: pending[h]
  }

  predicate CanReplace(w: World, actor: nat) {
    actor in w.locals && w.locals[actor].ReplacingPasskey?
    && w.locals[actor].principal in w.db.principals
    && w.locals[actor].invite in w.db.invites && w.db.invites[w.locals[actor].invite].usedAt == None
  }

  /** When a step can happen: the statement's guard and the constraints of the schema. Statements
      wait for the connection; a commit is made by the transaction's owner. The one caller of
      UpdateCredentialData writes the sign count of a passkey it has read. */
  predicate Enabled(w: World, e: Event) {
    var s := e.step;
    && (s.Tick? ==> w.now <= s.to <= w.horizon)
    && (IsStatement(s) ==> w.tx == None)
    && (IsCommit(s) ==> Owns(w, e.actor))
    && (s.Abandon? ==> e.actor in w.locals)
    && (s.AddPrincipal? ==> Fresh(w, s.id) && !Registered(w.db, s.klass, s.externalId))
    && (s.AddMachineKey? ==> Fresh(w, s.id) && s.principal in w.db.principals && s.at <= w.now)
    && (s.RevokeCredentialRow? ==> s.at <= w.now)
    && (s.SetCredentialData? ==> s.id in w.db.credentials ==> w.db.credentials[s.id].kind == WebAuthn)
    && (s.AddGrant? ==> s.scope in w.vocabulary && Fresh(w, s.id) && s.principal in w.db.principals && s.at <= w.now
                        && !Granted(w.db.grants, s.principal, s.scope, s.environment))
    && (s.RevokeGrantRow? ==> s.at <= w.now)
    && (s.SelectNoActiveKey? ==> e.actor !in w.locals && NoActiveKey(w.db.keys))
    && (s.InsertKey? ==> Holds(w, e.actor, CreatingKey) && Fresh(w, s.id) && Open(w.kek, s.blob).Some? && s.at <= w.now)
    && (s.CommitRotation? ==> Fresh(w, s.id) && Open(w.kek, s.blob).Some?
                              && w.tx.value.began <= s.created <= s.retired <= w.now)
    && (s.AddSession? ==> Fresh(w, s.raw) && s.principal in w.db.principals && s.at <= w.now)
    && (s.RevokeSession? ==> s.at <= w.now)
    && (s.RevokeSessions? ==> s.at <= w.now)
    && (s.AddCode? ==> Fresh(w, s.raw) && s.row.principal in w.db.principals && s.issuedAt <= w.now
                       && s.row.expiresAt == Stamp(s.issuedAt + CODE_TTL) && s.row.usedAt == None)
    && (s.CommitConsume? ==> s.digest in w.db.codes && w.db.codes[s.digest].usedAt == None
                             && w.tx.value.began <= s.checked <= s.at <= w.now
                             && s.checked <= w.db.codes[s.digest].expiresAt)
    && (s.AddInvite? ==> Fresh(w, s.raw) && s.at <= w.now)
    && (s.UseInvite? ==> s.invite in w.db.invites && w.db.invites[s.invite].usedAt == None && s.at <= w.now)
    && (s.ReadInvite? ==> e.actor !in w.locals && s.invite in w.db.invites && w.db.invites[s.invite].usedAt == None)
    && (s.CheckInvite? ==> e.actor in w.locals && w.locals[e.actor].InviteFound?
                           && w.now <= w.locals[e.actor].expiresAt)
    && (s.PutEnrolment? ==> e.actor in w.locals && w.locals[e.actor].BeginningEnrolment?)
    && (s.TakeEnrolment? ==> e.actor !in w.locals && s.invite in w.pending && w.now <= w.pending[s.invite].expiresAt)
    && (s.DropEnrolment? ==> s.invite in w.pending && w.pending[s.invite].expiresAt < w.now)
    && (s.ResolveEnrolment? ==> e.actor in w.locals && w.locals[e.actor].FinishingEnrolment?
                                && s.principal in w.db.principals
                                && w.db.principals[s.principal] == Principal(Human, w.locals[e.actor].contact))
    && (s.CommitReplace? ==> Fresh(w, s.id) && CanReplace(w, e.actor) && w.tx.value.began <= s.at <= w.now)
  }

  /** Begin, and the single statements that run outside a transaction. */
  predicate IsStatement(s: Step) {
    !IsCommit(s) && !s.Tick? && !s.Restart? && !s.Abandon? && !s.CheckInvite?
    && !s.PutEnrolment? && !s.TakeEnrolment? && !s.DropEnrolment? && !s.SweepEnrolments?
  }

  predicate IsCommit(s: Step) { s.Rollback? || s.CommitRotation? || s.CommitConsume? || s.CommitReplace? }

  // ---- What each part of the world becomes ----

  function Generated(s: Step): set<string> {
    match s
    case AddPrincipal(id, _, _) => {id}
    case AddMachineKey(id, _, _, _) => {id}
    case AddGrant(id, _, _, _, _, _) => {id}
    case InsertKey(id, _, _) => {id}
    case CommitRotation(id, _, _, _) => {id}
    case AddSession(raw, _, _) => {raw}
    case AddCode(raw, _, _) => {raw}
    case AddInvite(raw, _, _) => {raw}
    case CommitReplace(id, _, _) => {id}
    case _ => {}
  }

  function TxAfter(w: World, e: Event): Option<Tx> {
    if e.step.Begin? then Some(Tx(e.actor, w.now))
    else if e.step.Restart? || IsCommit(e.step) then None
    else w.tx
  }

  function PrincipalsAfter(w: World, e: Event): map<Id, Principal> {
    match e.step
    case AddPrincipal(id, klass, externalId) => w.db.principals[id := Principal(klass, externalId)]
    case DeletePrincipal(id) => w.db.principals - {id}
    case _ => w.db.principals
  }

  function CredentialsAfter(w: World, e: Event): map<Id, Credential>
    requires Enabled(w, e)
  {
    var credentials := w.db.credentials;
    match e.step
    case AddMachineKey(id, principal, data, at) =>
      credentials[id := Credential(principal, MachineKey, data, Stamp(at), None)]
    case SetCredentialData(id, data) =>
      if id in credentials then credentials[id := credentials[id].(data := data)] else credentials
    case RevokeCredentialRow(id, revoker, at) =>
      if id in credentials then credentials[id := credentials[id].(revoked := Some(Revocation(revoker, Stamp(at))))]
      else credentials
    case DeleteCredential(id) => credentials - {id}
    case DeletePrincipal(p) => CredentialsWithout(credentials, p)
    case CommitReplace(id, data, at) =>
      var p := w.locals[e.actor].principal;
      WithoutWebAuthn(credentials, p)[id := Credential(p, WebAuthn, data, Stamp(at), None)]
    case _ => credentials
  }

  function GrantsAfter(w: World, e: Event): map<Id, Grant> {
    var grants := w.db.grants;
    match e.step
    case AddGrant(id, principal, scope, environment, grantor, at) =>
      grants[id := Grant(principal, scope, environment, grantor, Stamp(at), None)]
    case RevokeGrantRow(id, revoker, at) =>
      if id in grants then grants[id := grants[id].(revoked := Some(Revocation(revoker, Stamp(at))))] else grants
    case DeletePrincipal(p) => GrantsWithout(grants, p)
    case _ => grants
  }

  function KeysAfter(w: World, e: Event): map<Id, KeyRow> {
    match e.step
    case InsertKey(id, blob, at) => w.db.keys[id := KeyRow(blob, Active, Stamp(at), None)]
    case CommitRotation(id, blob, created, retired) =>
      RetireOthers(w.db.keys[id := KeyRow(blob, Active, Stamp(created), None)], id, Stamp(retired))
    case _ => w.db.keys
  }

  function SessionsAfter(w: World, e: Event): map<Digest, Session> {
    var sessions := w.db.sessions;
    match e.step
    case AddSession(raw, principal, at) =>
      sessions[Digest(raw) := Session(principal, Stamp(at), Stamp(at + SESSION_TTL), None)]
    case RevokeSession(h, at) =>
      if h in sessions then sessions[h := RevokedSession(sessions[h], Stamp(at))] else sessions
    case RevokeSessions(principal, at) => RevokeSessionsOf(sessions, principal, Stamp(at))
    case DeletePrincipal(p) => SessionsWithout(sessions, p)
    case _ => sessions
  }

  function CodesAfter(w: World, e: Event): map<Digest, Code>
    requires Enabled(w, e)
  {
    var codes := w.db.codes;
    match e.step
    case AddCode(raw, row, _) => codes[Digest(raw) := row]
    case CommitConsume(h, _, at) => codes[h := codes[h].(usedAt := Some(Stamp(at)))]
    case DeletePrincipal(p) => CodesWithout(codes, p)
    case _ => codes
  }

  function InvitesAfter(w: World, e: Event): map<Digest, Invite>
    requires Enabled(w, e)
  {
    var invites := w.db.invites;
    match e.step
    case AddInvite(raw, contact, at) => invites[Digest(raw) := Invite(contact, Stamp(at + INVITE_TTL), None)]
    case UseInvite(h, at) => invites[h := invites[h].(usedAt := Some(Stamp(at)))]
    case CommitReplace(_, _, at) =>
      var h := w.locals[e.actor].invite;
      invites[h := invites[h].(usedAt := Some(Stamp(at)))]
    case _ => invites
  }

  function LocalsAfter(w: World, e: Event): map<nat, Local>
    requires Enabled(w, e)
  {
    var me := e.actor;
    match e.step
    case Restart => map[]
    case Abandon => w.locals - {me}
    case SelectNoActiveKey => w.locals[me := CreatingKey]
    case InsertKey(_, _, _) => w.locals - {me}
    case ReadInvite(h) => w.locals[me := InviteFound(h, w.db.invites[h].contact, w.db.invites[h].expiresAt)]
    case CheckInvite => w.locals[me := BeginningEnrolment(w.locals[me].invite, w.locals[me].contact, w.now)]
    case PutEnrolment => w.locals - {me}
    case TakeEnrolment(h) => w.locals[me := FinishingEnrolment(h, w.pending[h].contact)]
    case ResolveEnrolment(principal) => w.locals[me := ReplacingPasskey(w.locals[me].invite, principal)]
    case CommitReplace(_, _, _) => w.locals - {me}
    case _ => w.locals
  }

  function PendingAfter(w: World, e: Event): map<Digest, Pending>
    requires Enabled(w, e)
  {
    match e.step
    case Restart => map[]
    case PutEnrolment =>
      var l := w.locals[e.actor];
      Unexpired(w.pending[l.invite := Pending(l.contact, w.now + CHALLENGE_TTL)], w.now)
    case TakeEnrolment(h) => w.pending - {h}
    case DropEnrolment(h) => w.pending - {h}
    case SweepEnrolments => Unexpired(w.pending, w.now)
    case _ => w.pending
  }

  function Apply(w: World, e: Event): World
    requires Enabled(w, e)
  {
    World(w.kek, w.horizon, w.vocabulary, if e.step.Tick? then e.step.to else w.now,
          TxAfter(w, e), w.issued + Generated(e.step),
          Tables(PrincipalsAfter(w, e), CredentialsAfter(w, e), GrantsAfter(w, e), KeysAfter(w, e),
                 SessionsAfter(w, e), CodesAfter(w, e), InvitesAfter(w, e)),
          LocalsAfter(w, e), PendingAfter(w, e))
  }

  // ---- Runs: every interleaving of every number of requests ----

  datatype Run = Run(worlds: seq<World>, events: seq<Event>) {
    ghost predicate Legal() {
      |worlds| == |events| + 1
      && forall i | 0 <= i < |events| :: Enabled(worlds[i], events[i]) && worlds[i + 1] == Apply(worlds[i], events[i])
    }

    function Last(): World
      requires |worlds| > 0
    {
      worlds[|worlds| - 1]
    }

    function Then(e: Event): Run
      requires |worlds| > 0 && Enabled(Last(), e)
    {
      Run(worlds + [Apply(Last(), e)], events + [e])
    }

    ghost predicate Prefix(longer: Run) {
      |worlds| <= |longer.worlds| && |events| <= |longer.events|
      && (forall i | 0 <= i < |worlds| :: longer.worlds[i] == worlds[i])
      && (forall i | 0 <= i < |events| :: longer.events[i] == events[i])
    }
  }

  lemma StartIsLegal(w: World)
    ensures Run([w], []).Legal()
  {
  }

  lemma ThenIsLegal(run: Run, e: Event)
    requires run.Legal() && Enabled(run.Last(), e)
    ensures run.Then(e).Legal() && run.Prefix(run.Then(e)) && run.Then(e).Last() == Apply(run.Last(), e)
  {
    hide Apply, Enabled;
    var longer := run.Then(e);
    forall i | 0 <= i < |longer.events|
      ensures Enabled(longer.worlds[i], longer.events[i])
      ensures longer.worlds[i + 1] == Apply(longer.worlds[i], longer.events[i])
    {
      if i < |run.events| {
        assert longer.events[i] == run.events[i];
      }
    }
  }

  // ---- What every step keeps ----

  /** Every identifier and token stored was generated. */
  ghost predicate AllIssued(w: World) {
    (forall id :: id in w.db.principals ==> id in w.issued)
    && (forall id :: id in w.db.credentials ==> id in w.issued)
    && (forall id :: id in w.db.grants ==> id in w.issued)
    && (forall id :: id in w.db.keys ==> id in w.issued)
    && (forall h :: h in w.db.sessions ==> h.raw in w.issued)
    && (forall h :: h in w.db.codes ==> h.raw in w.issued)
    && (forall h :: h in w.db.invites ==> h.raw in w.issued)
  }

  lemma AllIssuedKept(w: World, e: Event)
    requires AllIssued(w) && Enabled(w, e)
    ensures AllIssued(Apply(w, e)) && w.issued <= Apply(w, e).issued
  {
  }

  predicate SameGrant(g: Grant, h: Grant) {
    h.(revoked := g.revoked) == g && (g.revoked.Some? ==> h.revoked.Some?)
  }

  predicate SameKey(k: KeyRow, l: KeyRow) {
    l.blob == k.blob && l.createdAt == k.createdAt && (k.status == Retired ==> l == k)
  }

  predicate SameSession(s: Session, t: Session) {
    t.(revokedAt := s.revokedAt) == s && (s.revokedAt.Some? ==> t == s)
  }

  predicate SameCode(c: Code, d: Code) {
    d.(usedAt := c.usedAt) == c && (c.usedAt.Some? ==> d == c)
  }

  predicate SameInvite(i: Invite, j: Invite) {
    j.(usedAt := i.usedAt) == i && (i.usedAt.Some? ==> j == i)
  }

  /** A credential keeps its owner, type and creation time, a machine key its hash, and once revoked it
      stays revoked. */
  predicate SameCredential(c: Credential, d: Credential) {
    d.principal == c.principal && d.kind == c.kind && d.createdAt == c.createdAt
    && (c.revoked.Some? ==> d.revoked.Some?) && (c.kind == MachineKey ==> d.data == c.data)
  }

  ghost predicate PrincipalsEvolve(w: World, v: World) {
    forall id :: id in v.db.principals && id in w.issued ==>
      id in w.db.principals && v.db.principals[id] == w.db.principals[id]
  }

  ghost predicate CredentialsEvolve(w: World, v: World) {
    forall id :: id in v.db.credentials && id in w.issued ==>
      id in w.db.credentials && SameCredential(w.db.credentials[id], v.db.credentials[id])
  }

  ghost predicate GrantsEvolve(w: World, v: World) {
    forall id :: id in v.db.grants && id in w.issued ==>
      id in w.db.grants && SameGrant(w.db.grants[id], v.db.grants[id])
  }

  ghost predicate KeysEvolve(w: World, v: World) {
    (forall id :: id in w.db.keys ==> id in v.db.keys && SameKey(w.db.keys[id], v.db.keys[id]))
    && (forall id :: id in v.db.keys && id in w.issued ==> id in w.db.keys)
  }

  ghost predicate SessionsEvolve(w: World, v: World) {
    forall h :: h in v.db.sessions && h.raw in w.issued ==>
      h in w.db.sessions && SameSession(w.db.sessions[h], v.db.sessions[h])
  }

  ghost predicate CodesEvolve(w: World, v: World) {
    forall h :: h in v.db.codes && h.raw in w.issued ==> h in w.db.codes && SameCode(w.db.codes[h], v.db.codes[h])
  }

  ghost predicate InvitesEvolve(w: World, v: World) {
    (forall h :: h in w.db.invites ==> h in v.db.invites && SameInvite(w.db.invites[h], v.db.invites[h]))
    && (forall h :: h in v.db.invites && h.raw in w.issued ==> h in w.db.invites)
  }

  /** The clock runs forward, identifiers are not reused, and rows change only monotonically:
      revocation, retirement and use are never undone, and besides them only a passkey's data and the
      name and time of a revocation can change. */
  ghost predicate Evolves(w: World, v: World) {
    w.now <= v.now && w.kek == v.kek && w.vocabulary == v.vocabulary && w.issued <= v.issued
    && PrincipalsEvolve(w, v) && CredentialsEvolve(w, v) && GrantsEvolve(w, v) && KeysEvolve(w, v)
    && SessionsEvolve(w, v) && CodesEvolve(w, v) && InvitesEvolve(w, v)
  }

  lemma StepPrincipalsEvolve(w: World, e: Event)
    requires AllIssued(w) && Enabled(w, e)
    ensures PrincipalsEvolve(w, Apply(w, e))
  {
  }

  lemma StepCredentialsEvolve(w: World, e: Event)
    requires AllIssued(w) && Enabled(w, e)
    ensures CredentialsEvolve(w, Apply(w, e))
  {
  }

  lemma StepGrantsEvolve(w: World, e: Event)
    requires AllIssued(w) && Enabled(w, e)
    ensures GrantsEvolve(w, Apply(w, e))
  {
  }

  lemma StepKeysEvolve(w: World, e: Event)
    requires AllIssued(w) && Enabled(w, e)
    ensures KeysEvolve(w, Apply(w, e))
  {
  }

  lemma StepSessionsEvolve(w: World, e: Event)
    requires AllIssued(w) && Enabled(w, e)
    ensures SessionsEvolve(w, Apply(w, e))
  {
  }

  lemma StepCodesEvolve(w: World, e: Event)
    requires AllIssued(w) && Enabled(w, e)
    ensures CodesEvolve(w, Apply(w, e))
  {
  }

  lemma StepInvitesEvolve(w: World, e: Event)
    requires AllIssued(w) && Enabled(w, e)
    ensures InvitesEvolve(w, Apply(w, e))
  {
  }

  lemma StepEvolves(w: World, e: Event)
    requires AllIssued(w) && Enabled(w, e)
    ensures Evolves(w, Apply(w, e))
  {
    StepPrincipalsEvolve(w, e);
    StepCredentialsEvolve(w, e);
    StepGrantsEvolve(w, e);
    StepKeysEvolve(w, e);
    StepSessionsEvolve(w, e);
    StepCodesEvolve(w, e);
    StepInvitesEvolve(w, e);
    AllIssuedKept(w, e);
  }

  lemma EvolvesTransitive(u: World, v: World, w: World)
    requires Evolves(u, v) && Evolves(v, w)
    ensures Evolves(u, w)
  {
  }

  /** UNIQUE (class, external_id) */
  ghost predicate UniqueExternalIds(w: World) {
    forall i, j | i in w.db.principals && j in w.db.principals :: w.db.principals[i] == w.db.principals[j] ==> i == j
  }

  lemma UniqueExternalIdsKept(w: World, e: Event)
    requires UniqueExternalIds(w) && Enabled(w, e)
    ensures UniqueExternalIds(Apply(w, e))
  {
  }

  /** Key timestamps are whole seconds that RFC 3339 text can hold. */
  ghost predicate KeyTimesStored(w: World) {
    && VERIFICATION_WINDOW <= w.now <= w.horizon && Representable(w.horizon)
    && (w.tx.Some? ==> 0 <= w.tx.value.began)
    && forall id :: id in w.db.keys && w.db.keys[id].retiredAt.Some? ==> (
      var at := w.db.keys[id].retiredAt.value; Representable(at) && at % SECOND == 0)
  }

  /** What the schema and the service's own steps guarantee of every world. */
  ghost predicate Sound(w: World) {
    AllIssued(w) && UniqueExternalIds(w) && UniqueActive(w.db.grants) && KeyTimesStored(w)
  }

  lemma KeyTimesKept(w: World, e: Event)
    requires KeyTimesStored(w) && Enabled(w, e)
    ensures KeyTimesStored(Apply(w, e))
  {
    if e.step.CommitRotation? {
      RepresentableBelow(Stamp(e.step.retired), w.horizon);
    }
  }

  lemma {:induction false} AllIssuedThroughout(run: Run, i: nat, j: nat)
    requires run.Legal() && i <= j < |run.worlds| && AllIssued(run.worlds[i])
    ensures AllIssued(run.worlds[j])
  {
    hide Apply, Enabled;
    if i < j {
      AllIssuedThroughout(run, i, j - 1);
      AllIssuedKept(run.worlds[j - 1], run.events[j - 1]);
    }
  }

  lemma EvolvesReflexive(w: World)
    ensures Evolves(w, w)
  {
  }

  lemma {:induction false} RunEvolves(run: Run, i: nat, j: nat)
    requires run.Legal() && i <= j < |run.worlds| && AllIssued(run.worlds[i])
    ensures Evolves(run.worlds[i], run.worlds[j])
  {
    hide Apply, Enabled, Evolves;
    if i == j {
      EvolvesReflexive(run.worlds[i]);
    } else {
      RunEvolves(run, i, j - 1);
      AllIssuedThroughout(run, i, j - 1);
      StepEvolves(run.worlds[j - 1], run.events[j - 1]);
      EvolvesTransitive(run.worlds[i], run.worlds[j - 1], run.worlds[j]);
    }
  }
}
