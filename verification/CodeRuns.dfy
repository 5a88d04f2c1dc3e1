/** Authorization codes over whole runs (sections 4.1.2 and 4.1.3 of RFC 6749). */
module CodeRuns {
  import opened Wrappers
  import opened Rfc3339
  import opened Schema
  import opened World

  predicate Consumes(step: Step, h: Digest) { step.CommitConsume? && step.digest == h }

  lemma ConsumeStep(w: World, e: Event)
    requires Enabled(w, e) && e.step.CommitConsume?
    ensures e.step.digest in w.db.codes && w.db.codes[e.step.digest].usedAt == None
    ensures e.step.checked <= w.db.codes[e.step.digest].expiresAt
    ensures e.step.digest in Apply(w, e).db.codes && Apply(w, e).db.codes[e.step.digest].usedAt.Some?
  {
  }

  lemma IssueStep(w: World, e: Event)
    requires Enabled(w, e) && e.step.AddCode?
    ensures var h := Digest(e.step.raw);
      h in Apply(w, e).db.codes && Apply(w, e).db.codes[h] == e.step.row && h.raw in Apply(w, e).issued
    ensures e.step.row.usedAt == None && e.step.row.expiresAt == Stamp(e.step.issuedAt + CODE_TTL)
  {
  }

  predicate Issues(step: Step, h: Digest) { step.AddCode? && Digest(step.raw) == h }

  lemma NewCodeStep(w: World, e: Event, h: Digest)
    requires Enabled(w, e) && h in Apply(w, e).db.codes
    ensures h in w.db.codes || Issues(e.step, h)
  {
  }

  /** A code row that was not there at the start was issued. */
  lemma {:induction false} CodeWasIssued(run: Run, i: nat, h: Digest) returns (k: nat)
    requires run.Legal() && i < |run.worlds| && h !in run.worlds[0].db.codes && h in run.worlds[i].db.codes
    ensures k < i && Issues(run.events[k].step, h)
  {
    hide Apply, Enabled;
    NewCodeStep(run.worlds[i - 1], run.events[i - 1], h);
    if h in run.worlds[i - 1].db.codes {
      k := CodeWasIssued(run, i - 1, h);
    } else {
      k := i - 1;
    }
  }

  lemma IssueIsFresh(w: World, e: Event, h: Digest)
    requires Enabled(w, e) && Issues(e.step, h)
    ensures h.raw !in w.issued && h.raw in Apply(w, e).issued
  {
  }

  /** And issued once. */
  lemma IssuedOnce(run: Run, k1: nat, k2: nat, h: Digest)
    requires run.Legal() && AllIssued(run.worlds[0]) && k1 < |run.events| && k2 < |run.events|
    requires Issues(run.events[k1].step, h) && Issues(run.events[k2].step, h)
    ensures k1 == k2
  {
    hide Apply, Enabled;
    IssueIsFresh(run.worlds[k1], run.events[k1], h);
    IssueIsFresh(run.worlds[k2], run.events[k2], h);
    if k1 < k2 {
      AllIssuedThroughout(run, 0, k1 + 1);
      RunEvolves(run, k1 + 1, k2);
    } else if k2 < k1 {
      AllIssuedThroughout(run, 0, k2 + 1);
      RunEvolves(run, k2 + 1, k1);
    }
  }

  /** At most one consumption of a given code in any interleaving. */
  lemma SingleUse(run: Run, j1: nat, j2: nat, h: Digest)
    requires run.Legal() && j1 < |run.events| && j2 < |run.events| && AllIssued(run.worlds[0])
    requires Consumes(run.events[j1].step, h) && Consumes(run.events[j2].step, h)
    ensures j1 == j2
  {
    hide Apply, Enabled;
    ConsumeStep(run.worlds[j1], run.events[j1]);
    ConsumeStep(run.worlds[j2], run.events[j2]);
    if j1 < j2 {
      UsedAfter(run, j1, j2, h);
    } else if j2 < j1 {
      UsedAfter(run, j2, j1, h);
    }
  }

  lemma UsedAfter(run: Run, j1: nat, i: nat, h: Digest)
    requires run.Legal() && j1 < |run.events| && j1 < i < |run.worlds| && AllIssued(run.worlds[0])
    requires Consumes(run.events[j1].step, h)
    ensures h in run.worlds[i].db.codes ==> run.worlds[i].db.codes[h].usedAt.Some?
  {
    hide Apply, Enabled;
    ConsumeStep(run.worlds[j1], run.events[j1]);
    AllIssuedThroughout(run, 0, j1 + 1);
    RunEvolves(run, j1 + 1, i);
  }

  /** A code row read between issue and consumption carries exactly the binding made at issue. */
  lemma BoundAtIssue(run: Run, k: nat, i: nat)
    requires run.Legal() && k < |run.events| && k < i < |run.worlds| && AllIssued(run.worlds[0])
    requires run.events[k].step.AddCode?
    ensures var h := Digest(run.events[k].step.raw);
      h in run.worlds[i].db.codes ==> run.worlds[i].db.codes[h].(usedAt := None) == run.events[k].step.row
  {
    hide Apply, Enabled;
    var h := Digest(run.events[k].step.raw);
    AllIssuedThroughout(run, 0, k + 1);
    IssueStep(run.worlds[k], run.events[k]);
    RunEvolves(run, k + 1, i);
  }

  /** The row checked on the earlier read is the row consumed, except that it is now used. */
  lemma CheckedIsConsumed(run: Run, i: nat, j: nat, h: Digest)
    requires run.Legal() && i <= j < |run.events| && AllIssued(run.worlds[0])
    requires h in run.worlds[i].db.codes && Consumes(run.events[j].step, h)
    ensures h in run.worlds[j].db.codes && run.worlds[j].db.codes[h] == run.worlds[i].db.codes[h]
    ensures run.worlds[i].db.codes[h].usedAt == None
  {
    hide Apply, Enabled;
    ConsumeStep(run.worlds[j], run.events[j]);
    AllIssuedThroughout(run, 0, i);
    AllIssuedThroughout(run, 0, j);
    RunEvolves(run, i, j);
  }

  /** Consumption passes its expiry check at most five minutes after the code was issued. */
  lemma ConsumedInTime(run: Run, k: nat, j: nat)
    requires run.Legal() && k < j < |run.events| && AllIssued(run.worlds[0])
    requires run.events[k].step.AddCode? && Consumes(run.events[j].step, Digest(run.events[k].step.raw))
    ensures run.events[j].step.checked <= run.events[k].step.issuedAt + 5 * MINUTE
  {
    hide Apply, Enabled;
    ConsumeStep(run.worlds[j], run.events[j]);
    IssueStep(run.worlds[k], run.events[k]);
    BoundAtIssue(run, k, j);
  }

  /** Until it is consumed or its principal is deleted, a code stays as it is. */
  lemma {:induction false} CodeWaits(run: Run, i: nat, j: nat, h: Digest)
    requires run.Legal() && i <= j < |run.worlds| && AllIssued(run.worlds[i]) && h in run.worlds[i].db.codes
    requires forall m | i <= m < j :: !Consumes(run.events[m].step, h)
    requires forall m | i <= m < j :: run.events[m].step != DeletePrincipal(run.worlds[i].db.codes[h].principal)
    ensures h in run.worlds[j].db.codes && run.worlds[j].db.codes[h] == run.worlds[i].db.codes[h]
  {
    hide Apply, Enabled;
    if i < j {
      CodeWaits(run, i, j - 1, h);
      AllIssuedThroughout(run, i, j - 1);
      CodeStep(run.worlds[j - 1], run.events[j - 1], h);
    }
  }

  lemma CodeStep(w: World, e: Event, h: Digest)
    requires AllIssued(w) && Enabled(w, e) && h in w.db.codes
    ensures Consumes(e.step, h) || e.step == DeletePrincipal(w.db.codes[h].principal)
      || (h in Apply(w, e).db.codes && Apply(w, e).db.codes[h] == w.db.codes[h])
  {
  }

  /** Redeemability: a waiting code can be consumed at any instant up to one second short of its
      five minutes. Storing whole seconds costs the holder less than that second. */
  lemma Redeemable(run: Run, k: nat, j: nat, actor: nat)
    requires run.Legal() && k < j < |run.worlds| && AllIssued(run.worlds[0])
    requires run.events[k].step.AddCode?
    requires forall m | k < m < j :: !Consumes(run.events[m].step, Digest(run.events[k].step.raw))
    requires forall m | k < m < j :: run.events[m].step != DeletePrincipal(run.events[k].step.row.principal)
    requires Owns(run.worlds[j], actor) && run.worlds[j].tx.value.began <= run.worlds[j].now
    requires run.worlds[j].now <= run.events[k].step.issuedAt + 5 * MINUTE - SECOND
    ensures Enabled(run.worlds[j],
      Event(actor, CommitConsume(Digest(run.events[k].step.raw), run.worlds[j].now, run.worlds[j].now)))
  {
    var h := Digest(run.events[k].step.raw);
    AllIssuedThroughout(run, 0, k + 1);
    IssueStep(run.worlds[k], run.events[k]);
    CodeWaits(run, k + 1, j, h);
  }

  /** The expiry check is exact on the stored second. */
  lemma ExpiryIsExact(run: Run, k: nat, i: nat, clock: int)
    requires run.Legal() && k < |run.events| && k < i < |run.worlds| && AllIssued(run.worlds[0])
    requires run.events[k].step.AddCode? && Digest(run.events[k].step.raw) in run.worlds[i].db.codes
    ensures clock <= run.worlds[i].db.codes[Digest(run.events[k].step.raw)].expiresAt
      <==> clock <= Stamp(run.events[k].step.issuedAt + 5 * MINUTE)
  {
    hide Apply, Enabled;
    IssueStep(run.worlds[k], run.events[k]);
    BoundAtIssue(run, k, i);
  }
}
