/** What stays: in every run, every row of every table is exactly as it was until a statement that names
    it. Each statement's own effect on the row it names is in Steps. */
module RowRuns {
  import opened Wrappers
  import opened Rfc3339
  import opened Schema
  import opened World
  import opened KeyRuns

  lemma PrincipalStep(w: World, e: Event, id: Id)
    requires AllIssued(w) && Enabled(w, e) && id in w.db.principals
    ensures e.step == DeletePrincipal(id)
      || (id in Apply(w, e).db.principals && Apply(w, e).db.principals[id] == w.db.principals[id])
  {
  }

  /** A principal stays until it is deleted. */
  lemma {:induction false} PrincipalStands(run: Run, i: nat, j: nat, id: Id)
    requires run.Legal() && i <= j < |run.worlds| && AllIssued(run.worlds[i]) && id in run.worlds[i].db.principals
    requires forall m | i <= m < j :: run.events[m].step != DeletePrincipal(id)
    ensures id in run.worlds[j].db.principals && run.worlds[j].db.principals[id] == run.worlds[i].db.principals[id]
  {
    hide Apply, Enabled;
    if i < j {
      PrincipalStands(run, i, j - 1, id);
      AllIssuedThroughout(run, i, j - 1);
      PrincipalStep(run.worlds[j - 1], run.events[j - 1], id);
    }
  }

  lemma CredentialStep(w: World, e: Event, id: Id)
    requires AllIssued(w) && Enabled(w, e) && id in w.db.credentials
    ensures e.step == DeletePrincipal(w.db.credentials[id].principal) || e.step == DeleteCredential(id)
      || (e.step.SetCredentialData? && e.step.id == id) || (e.step.RevokeCredentialRow? && e.step.id == id)
      || (e.step.CommitReplace? && w.db.credentials[id].kind == WebAuthn && e.actor in w.locals
          && w.locals[e.actor] == ReplacingPasskey(w.locals[e.actor].invite, w.db.credentials[id].principal))
      || (id in Apply(w, e).db.credentials && Apply(w, e).db.credentials[id] == w.db.credentials[id])
  {
  }

  /** A credential stays until it is revoked or deleted, its sign count stored, its principal deleted, or,
      if it is a passkey, swapped by an enrolment for its own principal. */
  lemma {:induction false} CredentialStands(run: Run, i: nat, j: nat, id: Id)
    requires run.Legal() && i <= j < |run.worlds| && AllIssued(run.worlds[i]) && id in run.worlds[i].db.credentials
    requires forall m | i <= m < j ::
      run.events[m].step != DeletePrincipal(run.worlds[i].db.credentials[id].principal)
    requires forall m | i <= m < j :: run.events[m].step != DeleteCredential(id)
    requires forall m | i <= m < j :: run.events[m].step.SetCredentialData? ==> run.events[m].step.id != id
    requires forall m | i <= m < j :: run.events[m].step.RevokeCredentialRow? ==> run.events[m].step.id != id
    requires run.worlds[i].db.credentials[id].kind == WebAuthn ==> forall m | i <= m < j ::
      run.events[m].step.CommitReplace? && run.events[m].actor in run.worlds[m].locals ==>
        run.worlds[m].locals[run.events[m].actor].ReplacingPasskey? ==>
          run.worlds[m].locals[run.events[m].actor].principal != run.worlds[i].db.credentials[id].principal
    ensures id in run.worlds[j].db.credentials && run.worlds[j].db.credentials[id] == run.worlds[i].db.credentials[id]
  {
    hide Apply, Enabled;
    if i < j {
      CredentialStands(run, i, j - 1, id);
      AllIssuedThroughout(run, i, j - 1);
      CredentialStep(run.worlds[j - 1], run.events[j - 1], id);
    }
  }

  lemma GrantStep(w: World, e: Event, id: Id)
    requires AllIssued(w) && Enabled(w, e) && id in w.db.grants
    ensures e.step == DeletePrincipal(w.db.grants[id].principal) || (e.step.RevokeGrantRow? && e.step.id == id)
      || (id in Apply(w, e).db.grants && Apply(w, e).db.grants[id] == w.db.grants[id])
  {
  }

  /** A grant stays until its own revocation or its principal's deletion. */
  lemma {:induction false} GrantStands(run: Run, i: nat, j: nat, id: Id)
    requires run.Legal() && i <= j < |run.worlds| && AllIssued(run.worlds[i]) && id in run.worlds[i].db.grants
    requires forall m | i <= m < j :: run.events[m].step != DeletePrincipal(run.worlds[i].db.grants[id].principal)
    requires forall m | i <= m < j :: run.events[m].step.RevokeGrantRow? ==> run.events[m].step.id != id
    ensures id in run.worlds[j].db.grants && run.worlds[j].db.grants[id] == run.worlds[i].db.grants[id]
  {
    hide Apply, Enabled;
    if i < j {
      GrantStands(run, i, j - 1, id);
      AllIssuedThroughout(run, i, j - 1);
      GrantStep(run.worlds[j - 1], run.events[j - 1], id);
    }
  }

  /** A key stays as it is until a rotation. */
  lemma {:induction false} KeyStands(run: Run, i: nat, j: nat, id: Id)
    requires run.Legal() && i <= j < |run.worlds| && AllIssued(run.worlds[i]) && id in run.worlds[i].db.keys
    requires run.worlds[i].db.keys[id].status == Active ==>
      forall m | i <= m < j :: !run.events[m].step.CommitRotation?
    ensures id in run.worlds[j].db.keys && run.worlds[j].db.keys[id] == run.worlds[i].db.keys[id]
  {
    hide Apply, Enabled;
    if i < j {
      KeyStands(run, i, j - 1, id);
      AllIssuedThroughout(run, i, j - 1);
      RetirementStep(run.worlds[j - 1], run.events[j - 1], id);
    }
  }

  lemma SessionStep(w: World, e: Event, h: Digest)
    requires AllIssued(w) && Enabled(w, e) && h in w.db.sessions
    ensures (e.step.RevokeSession? && e.step.session == h)
      || (e.step.RevokeSessions? && e.step.principal == w.db.sessions[h].principal)
      || e.step == DeletePrincipal(w.db.sessions[h].principal)
      || (h in Apply(w, e).db.sessions && Apply(w, e).db.sessions[h] == w.db.sessions[h])
  {
  }

  /** A session stays until it is revoked by name or with all of its own principal's, or that principal is
      deleted: revoking another principal's sessions, or another session, leaves it as it is. */
  lemma {:induction false} SessionStands(run: Run, i: nat, j: nat, h: Digest)
    requires run.Legal() && i <= j < |run.worlds| && AllIssued(run.worlds[i]) && h in run.worlds[i].db.sessions
    requires forall m | i <= m < j :: run.events[m].step.RevokeSession? ==> run.events[m].step.session != h
    requires forall m | i <= m < j :: run.events[m].step.RevokeSessions? ==>
      run.events[m].step.principal != run.worlds[i].db.sessions[h].principal
    requires forall m | i <= m < j :: run.events[m].step != DeletePrincipal(run.worlds[i].db.sessions[h].principal)
    ensures h in run.worlds[j].db.sessions && run.worlds[j].db.sessions[h] == run.worlds[i].db.sessions[h]
  {
    hide Apply, Enabled;
    if i < j {
      SessionStands(run, i, j - 1, h);
      AllIssuedThroughout(run, i, j - 1);
      SessionStep(run.worlds[j - 1], run.events[j - 1], h);
    }
  }

  lemma InviteStep(w: World, e: Event, h: Digest)
    requires AllIssued(w) && Enabled(w, e) && h in w.db.invites
    ensures h in Apply(w, e).db.invites
    ensures (e.step.UseInvite? && e.step.invite == h)
      || (e.step.CommitReplace? && e.actor in w.locals
          && w.locals[e.actor].ReplacingPasskey? && w.locals[e.actor].invite == h)
      || Apply(w, e).db.invites[h] == w.db.invites[h]
  {
  }

  /** An invite stays until its revocation or a swap made for it; neither removes the row. */
  lemma {:induction false} InviteStands(run: Run, i: nat, j: nat, h: Digest)
    requires run.Legal() && i <= j < |run.worlds| && AllIssued(run.worlds[i]) && h in run.worlds[i].db.invites
    requires forall m | i <= m < j :: run.events[m].step.UseInvite? ==> run.events[m].step.invite != h
    requires forall m | i <= m < j ::
      run.events[m].step.CommitReplace? && run.events[m].actor in run.worlds[m].locals ==>
        run.worlds[m].locals[run.events[m].actor].ReplacingPasskey? ==>
          run.worlds[m].locals[run.events[m].actor].invite != h
    ensures h in run.worlds[j].db.invites && run.worlds[j].db.invites[h] == run.worlds[i].db.invites[h]
  {
    hide Apply, Enabled;
    if i < j {
      InviteStands(run, i, j - 1, h);
      AllIssuedThroughout(run, i, j - 1);
      InviteStep(run.worlds[j - 1], run.events[j - 1], h);
    }
  }

  /** Deleting a principal deletes its rows. */
  lemma DeletionCascades(w: World, e: Event)
    requires Enabled(w, e) && e.step.DeletePrincipal?
    ensures var p, v := e.step.id, Apply(w, e);
      && p !in v.db.principals
      && (forall id :: id in v.db.credentials ==> v.db.credentials[id].principal != p)
      && (forall id :: id in v.db.grants ==> v.db.grants[id].principal != p)
      && (forall h :: h in v.db.sessions ==> v.db.sessions[h].principal != p)
      && (forall h :: h in v.db.codes ==> v.db.codes[h].principal != p)
  {
  }
}
