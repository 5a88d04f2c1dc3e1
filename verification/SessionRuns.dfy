/** IdP sessions over whole runs (ADR-0003). */
module SessionRuns {
  import opened Wrappers
  import opened Rfc3339
  import opened Schema
  import opened World
  import opened RowRuns

  lemma AddSessionStep(w: World, e: Event)
    requires Enabled(w, e) && e.step.AddSession?
    ensures var h := Digest(e.step.raw);
      h in Apply(w, e).db.sessions && h.raw in Apply(w, e).issued
      && Apply(w, e).db.sessions[h] == Session(e.step.principal, Stamp(e.step.at), Stamp(e.step.at + 72 * HOUR), None)
  {
  }

  predicate Opens(step: Step, h: Digest) { step.AddSession? && Digest(step.raw) == h }

  lemma NewSessionStep(w: World, e: Event, h: Digest)
    requires Enabled(w, e) && h in Apply(w, e).db.sessions
    ensures h in w.db.sessions || Opens(e.step, h)
  {
  }

  /** A session that was not there at the start was opened by a login. */
  lemma {:induction false} SessionWasOpened(run: Run, i: nat, h: Digest) returns (k: nat)
    requires run.Legal() && i < |run.worlds| && h !in run.worlds[0].db.sessions && h in run.worlds[i].db.sessions
    ensures k < i && Opens(run.events[k].step, h)
  {
    hide Apply, Enabled;
    NewSessionStep(run.worlds[i - 1], run.events[i - 1], h);
    if h in run.worlds[i - 1].db.sessions {
      k := SessionWasOpened(run, i - 1, h);
    } else {
      k := i - 1;
    }
  }

  lemma OpeningIsFresh(w: World, e: Event, h: Digest)
    requires Enabled(w, e) && Opens(e.step, h)
    ensures h.raw !in w.issued && h.raw in Apply(w, e).issued
  {
  }

  /** And opened once. */
  lemma OpenedOnce(run: Run, k1: nat, k2: nat, h: Digest)
    requires run.Legal() && AllIssued(run.worlds[0]) && k1 < |run.events| && k2 < |run.events|
    requires Opens(run.events[k1].step, h) && Opens(run.events[k2].step, h)
    ensures k1 == k2
  {
    hide Apply, Enabled;
    OpeningIsFresh(run.worlds[k1], run.events[k1], h);
    OpeningIsFresh(run.worlds[k2], run.events[k2], h);
    if k1 < k2 {
      AllIssuedThroughout(run, 0, k1 + 1);
      RunEvolves(run, k1 + 1, k2);
    } else if k2 < k1 {
      AllIssuedThroughout(run, 0, k2 + 1);
      RunEvolves(run, k2 + 1, k1);
    }
  }

  /** Revocation of a session is never undone: a later read finds it revoked, or not at all. */
  lemma RevokedForever(run: Run, r: nat, i: nat, h: Digest)
    requires run.Legal() && r <= i < |run.worlds| && AllIssued(run.worlds[0])
    requires h in run.worlds[r].db.sessions && run.worlds[r].db.sessions[h].revokedAt.Some?
    ensures h in run.worlds[i].db.sessions ==> run.worlds[i].db.sessions[h].revokedAt.Some?
  {
    hide Apply, Enabled;
    AllIssuedThroughout(run, 0, r);
    RunEvolves(run, r, i);
  }

  /** A session read anywhere in the run is the one created, with its expiry 72 hours on. */
  lemma SessionAsCreated(run: Run, k: nat, i: nat)
    requires run.Legal() && k < |run.events| && k < i < |run.worlds| && AllIssued(run.worlds[0])
    requires run.events[k].step.AddSession?
    ensures var s, h := run.events[k].step, Digest(run.events[k].step.raw);
      h in run.worlds[i].db.sessions ==>
        run.worlds[i].db.sessions[h].(revokedAt := None)
        == Session(s.principal, Stamp(s.at), Stamp(s.at + 72 * HOUR), None)
  {
    hide Apply, Enabled;
    AddSessionStep(run.worlds[k], run.events[k]);
    AllIssuedThroughout(run, 0, k + 1);
    RunEvolves(run, k + 1, i);
  }

  /** Nothing but its own revocation, a revocation of all its principal's sessions, or that principal's
      deletion ends a session early: otherwise the row is as the login left it, and the expiry check passes
      for 72 hours, less the fraction of a second that the stored time drops. */
  lemma SessionStaysValid(run: Run, k: nat, i: nat, clock: int)
    requires run.Legal() && k < i < |run.worlds| && AllIssued(run.worlds[0])
    requires run.events[k].step.AddSession?
    requires forall m | k < m < i ::
      run.events[m].step.RevokeSession? ==> run.events[m].step.session != Digest(run.events[k].step.raw)
    requires forall m | k < m < i ::
      run.events[m].step.RevokeSessions? ==> run.events[m].step.principal != run.events[k].step.principal
    requires forall m | k < m < i :: run.events[m].step != DeletePrincipal(run.events[k].step.principal)
    ensures var s, h, sessions := run.events[k].step, Digest(run.events[k].step.raw), run.worlds[i].db.sessions;
      && h in sessions && sessions[h] == Session(s.principal, Stamp(s.at), Stamp(s.at + 72 * HOUR), None)
      && (clock <= s.at + 72 * HOUR - SECOND ==> clock <= sessions[h].expiresAt)
      && (s.at + 72 * HOUR < clock ==> sessions[h].expiresAt < clock)
  {
    hide Apply, Enabled;
    AddSessionStep(run.worlds[k], run.events[k]);
    AllIssuedThroughout(run, 0, k + 1);
    SessionStands(run, k + 1, i, Digest(run.events[k].step.raw));
  }
}
