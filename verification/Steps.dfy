/** Each step taken by a handler: when it can happen, and its effect, stated one step at a time
    so that the handlers' proofs need not unfold the whole transition function. */
module Steps {
  import opened Wrappers
  import opened Rfc3339
  import opened Schema
  import opened World

  lemma SelectNoActiveKeyStep(w: World, me: nat)
    requires w.tx == None && me !in w.locals && NoActiveKey(w.db.keys)
    ensures var e := Event(me, SelectNoActiveKey);
      Enabled(w, e) && Apply(w, e) == w.(locals := w.locals[me := CreatingKey])
  {
  }

  lemma InsertKeyStep(w: World, me: nat, id: Id, blob: Blob, at: int)
    requires w.tx == None && Holds(w, me, CreatingKey) && Fresh(w, id) && Open(w.kek, blob).Some? && at <= w.now
    ensures var e := Event(me, InsertKey(id, blob, at));
      Enabled(w, e) && Apply(w, e) == w.(issued := w.issued + {id}, locals := w.locals - {me},
        db := w.db.(keys := w.db.keys[id := KeyRow(blob, Active, Stamp(at), None)]))
  {
  }

  lemma BeginStep(w: World, me: nat)
    requires w.tx == None
    ensures Enabled(w, Event(me, Begin)) && Apply(w, Event(me, Begin)) == w.(tx := Some(Tx(me, w.now)))
  {
  }

  lemma CommitRotationStep(w: World, me: nat, id: Id, blob: Blob, created: int, retired: int)
    requires Owns(w, me) && Fresh(w, id) && Open(w.kek, blob).Some?
    requires w.tx.value.began <= created <= retired <= w.now
    ensures var e := Event(me, CommitRotation(id, blob, created, retired));
      Enabled(w, e) && OnlyActiveKey(Apply(w, e).db.keys, id)
      && Apply(w, e).tx == None && Apply(w, e).locals == w.locals && Apply(w, e).kek == w.kek
      && Apply(w, e).now == w.now && Apply(w, e).horizon == w.horizon
      && Apply(w, e).db.keys[id] == KeyRow(blob, Active, Stamp(created), None)
  {
  }

  lemma AddPrincipalStep(w: World, me: nat, id: Id, klass: PrincipalClass, externalId: string)
    requires w.tx == None && Fresh(w, id) && !Registered(w.db, klass, externalId)
    ensures var e := Event(me, AddPrincipal(id, klass, externalId));
      Enabled(w, e) && Apply(w, e) == w.(issued := w.issued + {id},
        db := w.db.(principals := w.db.principals[id := Principal(klass, externalId)]))
  {
  }

  lemma AddSessionEnabled(w: World, me: nat, raw: string, p: Id, at: int)
    requires w.tx == None && Fresh(w, raw) && p in w.db.principals && at <= w.now
    ensures var e := Event(me, AddSession(raw, p, at));
      Enabled(w, e) && Apply(w, e) == w.(issued := w.issued + {raw}, db := w.db.(sessions :=
        w.db.sessions[Digest(raw) := Session(p, Stamp(at), Stamp(at + 72 * HOUR), None)]))
  {
  }

  /** UPDATE ... WHERE principal_id = ? AND revoked_at IS NULL: exactly the live sessions of p change. */
  ghost predicate SessionsOfRevoked(before: map<Digest, Session>, after: map<Digest, Session>, p: Id, at: int) {
    after.Keys == before.Keys
    && forall h :: h in before ==> after[h] == if before[h].principal == p && before[h].revokedAt == None
                                               then before[h].(revokedAt := Some(at)) else before[h]
  }

  lemma RevokeSessionsStep(w: World, me: nat, p: Id, at: int)
    requires w.tx == None && at <= w.now
    ensures var e := Event(me, RevokeSessions(p, at));
      Enabled(w, e) && Apply(w, e) == w.(db := w.db.(sessions := Apply(w, e).db.sessions))
      && SessionsOfRevoked(w.db.sessions, Apply(w, e).db.sessions, p, Stamp(at))
  {
  }

  lemma RevokeSessionStep(w: World, me: nat, h: Digest, at: int)
    requires w.tx == None && at <= w.now
    ensures var e := Event(me, RevokeSession(h, at));
      Enabled(w, e) && Apply(w, e) == w.(db := w.db.(sessions :=
        if h in w.db.sessions && w.db.sessions[h].revokedAt == None
        then w.db.sessions[h := w.db.sessions[h].(revokedAt := Some(Stamp(at)))] else w.db.sessions))
  {
  }

  lemma RevokeGrantStep(w: World, me: nat, id: Id, revoker: string, at: int)
    requires w.tx == None && at <= w.now
    ensures var e := Event(me, RevokeGrantRow(id, revoker, at));
      Enabled(w, e) && Apply(w, e) == w.(db := w.db.(grants := if id in w.db.grants
        then w.db.grants[id := w.db.grants[id].(revoked := Some(Revocation(revoker, Stamp(at))))] else w.db.grants))
  {
  }

  lemma TickStep(w: World, me: nat, to: int)
    requires w.now <= to <= w.horizon
    ensures Enabled(w, Event(me, Tick(to))) && Apply(w, Event(me, Tick(to))) == w.(now := to)
  {
  }

  lemma TickMovesClock(w: World, e: Event)
    requires Enabled(w, e)
    ensures e.step.Tick? ==> Apply(w, e) == w.(now := Apply(w, e).now)
  {
  }

  lemma RollbackStep(w: World, e: Event)
    requires Owns(w, e.actor) && e.step == Rollback
    ensures Enabled(w, e) && Apply(w, e) == w.(tx := None)
  {
  }

  lemma RestartStep(w: World, me: nat)
    ensures Enabled(w, Event(me, Restart))
    ensures Apply(w, Event(me, Restart)) == w.(tx := None, locals := map[], pending := map[])
  {
  }

  lemma AbandonStep(w: World, me: nat)
    requires me in w.locals
    ensures Enabled(w, Event(me, Abandon)) && Apply(w, Event(me, Abandon)) == w.(locals := w.locals - {me})
  {
  }

  lemma RevokeCredentialStep(w: World, me: nat, id: Id, revoker: string, at: int)
    requires w.tx == None && at <= w.now
    ensures var e := Event(me, RevokeCredentialRow(id, revoker, at));
      Enabled(w, e) && Apply(w, e) == w.(db := w.db.(credentials := if id in w.db.credentials
        then w.db.credentials[id := w.db.credentials[id].(revoked := Some(Revocation(revoker, Stamp(at))))]
        else w.db.credentials))
  {
  }

  lemma SetCredentialDataStep(w: World, me: nat, id: Id, data: string)
    requires w.tx == None && (id in w.db.credentials ==> w.db.credentials[id].kind == WebAuthn)
    ensures var e := Event(me, SetCredentialData(id, data));
      Enabled(w, e) && Apply(w, e) == w.(db := w.db.(credentials := if id in w.db.credentials
        then w.db.credentials[id := w.db.credentials[id].(data := data)] else w.db.credentials))
  {
  }

  lemma AddCodeStep(w: World, me: nat, raw: string, row: Code, issuedAt: int)
    requires w.tx == None && Fresh(w, raw) && row.principal in w.db.principals && issuedAt <= w.now
    requires row.expiresAt == Stamp(issuedAt + CODE_TTL) && row.usedAt == None
    ensures var e := Event(me, AddCode(raw, row, issuedAt));
      Enabled(w, e) && Apply(w, e).tx == None && Apply(w, e).locals == w.locals
      && Apply(w, e).db == w.db.(codes := w.db.codes[Digest(raw) := row])
  {
  }

  lemma CommitConsumeStep(w: World, me: nat, h: Digest, checked: int, at: int)
    requires Owns(w, me) && h in w.db.codes && w.db.codes[h].usedAt == None
    requires w.tx.value.began <= checked <= at <= w.now && checked <= w.db.codes[h].expiresAt
    ensures var e := Event(me, CommitConsume(h, checked, at));
      Enabled(w, e) && Apply(w, e) == w.(tx := None, db := w.db.(codes :=
        w.db.codes[h := w.db.codes[h].(usedAt := Some(Stamp(at)))]))
  {
  }

  lemma AddInviteStep(w: World, me: nat, raw: string, contact: string, at: int)
    requires w.tx == None && Fresh(w, raw) && at <= w.now
    ensures var e := Event(me, AddInvite(raw, contact, at));
      Enabled(w, e) && Apply(w, e) == w.(issued := w.issued + {raw},
        db := w.db.(invites := w.db.invites[Digest(raw) := Invite(contact, Stamp(at + INVITE_TTL), None)]))
  {
  }

  lemma ReadInviteStep(w: World, me: nat, h: Digest)
    requires w.tx == None && me !in w.locals && h in w.db.invites && w.db.invites[h].usedAt == None
    ensures var e := Event(me, ReadInvite(h));
      Enabled(w, e) && Apply(w, e)
        == w.(locals := w.locals[me := InviteFound(h, w.db.invites[h].contact, w.db.invites[h].expiresAt)])
  {
  }

  lemma CheckInviteStep(w: World, me: nat, h: Digest, contact: string, expiresAt: int)
    requires Holds(w, me, InviteFound(h, contact, expiresAt)) && w.now <= expiresAt
    ensures var e := Event(me, CheckInvite);
      Enabled(w, e) && Apply(w, e) == w.(locals := w.locals[me := BeginningEnrolment(h, contact, w.now)])
  {
  }

  lemma PutEnrolmentStep(w: World, me: nat, h: Digest, contact: string, checked: int)
    requires Holds(w, me, BeginningEnrolment(h, contact, checked))
    ensures var e := Event(me, PutEnrolment);
      Enabled(w, e) && Apply(w, e).db == w.db && Apply(w, e).tx == w.tx && Apply(w, e).locals == w.locals - {me}
      && Apply(w, e) == w.(locals := w.locals - {me}, pending := Apply(w, e).pending)
      && h in Apply(w, e).pending && Apply(w, e).pending[h] == Pending(contact, w.now + CHALLENGE_TTL)
  {
  }

  lemma TakeEnrolmentStep(w: World, me: nat, h: Digest)
    requires me !in w.locals && h in w.pending && w.now <= w.pending[h].expiresAt
    ensures var e := Event(me, TakeEnrolment(h));
      Enabled(w, e) && Apply(w, e) == w.(locals := w.locals[me := FinishingEnrolment(h, w.pending[h].contact)],
      pending := w.pending - {h})
  {
  }

  lemma DropEnrolmentStep(w: World, me: nat, h: Digest)
    requires h in w.pending && w.pending[h].expiresAt < w.now
    ensures var e := Event(me, DropEnrolment(h));
      Enabled(w, e) && Apply(w, e) == w.(pending := w.pending - {h})
  {
  }

  lemma ResolveEnrolmentStep(w: World, me: nat, h: Digest, contact: string, p: Id)
    requires w.tx == None && Holds(w, me, FinishingEnrolment(h, contact))
    requires p in w.db.principals && w.db.principals[p] == Principal(Human, contact)
    ensures var e := Event(me, ResolveEnrolment(p));
      Enabled(w, e) && Apply(w, e) == w.(locals := w.locals[me := ReplacingPasskey(h, p)])
  {
  }

  lemma CommitReplaceStep(w: World, me: nat, id: Id, data: string, at: int)
    requires Owns(w, me) && Fresh(w, id) && CanReplace(w, me) && w.tx.value.began <= at <= w.now
    ensures var e := Event(me, CommitReplace(id, data, at));
      Enabled(w, e) && Apply(w, e).tx == None && Apply(w, e).locals == w.locals - {me}
  {
  }

  lemma UseInviteStep(w: World, me: nat, h: Digest, at: int)
    requires w.tx == None && h in w.db.invites && w.db.invites[h].usedAt == None && at <= w.now
    ensures var e := Event(me, UseInvite(h, at));
      Enabled(w, e) && Apply(w, e) == w.(db := w.db.(invites :=
        w.db.invites[h := w.db.invites[h].(usedAt := Some(Stamp(at)))]))
  {
  }

  lemma ReplaceCredentials(w: World, e: Event)
    requires Enabled(w, e) && e.step.CommitReplace?
    ensures CanReplace(w, e.actor) && e.step.id in Apply(w, e).db.credentials
    ensures Apply(w, e).db.credentials[e.step.id].principal == w.locals[e.actor].principal
    ensures forall id :: id in Apply(w, e).db.credentials && id != e.step.id ==>
      id in w.db.credentials && Apply(w, e).db.credentials[id] == w.db.credentials[id]
  {
  }

  lemma OtherCredentials(w: World, e: Event, id: Id)
    requires AllIssued(w) && Enabled(w, e) && id in Apply(w, e).db.credentials
    ensures e.step.CommitReplace? || Apply(w, e).db.credentials[id].kind == MachineKey
      || (id in w.db.credentials && SameCredential(w.db.credentials[id], Apply(w, e).db.credentials[id]))
  {
  }
}
