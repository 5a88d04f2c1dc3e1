/** The grants table over whole runs: a set of (principal, scope, environment) triples, with
    an audit trail that is never rewritten out of order. */
module GrantRuns {
  import opened Wrappers
  import opened Rfc3339
  import opened Schema
  import opened World
  import opened Steps

  /** The abstract table: the triples in force. */
  function InForce(grants: map<Id, Grant>): set<Triple> {
    set id | id in grants && grants[id].revoked == None :: TripleOf(grants[id])
  }

  lemma InForceIsGranted(grants: map<Id, Grant>, p: Id, scope: string, environment: string)
    ensures Triple(p, scope, environment) in InForce(grants) <==> Granted(grants, p, scope, environment)
  {
    if Granted(grants, p, scope, environment) {
      var id :| id in grants && ActiveGrant(grants[id], p, scope, environment);
      assert TripleOf(grants[id]) == Triple(p, scope, environment);
    }
  }

  lemma UniqueActiveKept(w: World, e: Event)
    requires AllIssued(w) && Enabled(w, e) && UniqueActive(w.db.grants)
    ensures UniqueActive(Apply(w, e).db.grants)
  {
    hide Apply, Enabled;
    var after := Apply(w, e).db.grants;
    StepGrantsEvolve(w, e);
    forall i, j | i in after && j in after && after[i].revoked == None && after[j].revoked == None
      && TripleOf(after[i]) == TripleOf(after[j])
      ensures i == j
    {
      NewGrantStep(w, e, i);
      NewGrantStep(w, e, j);
      var g := after[i];
      if i !in w.issued || j !in w.issued {
        AddGrantGuard(w, e);
        assert i in w.issued ==> !ActiveGrant(w.db.grants[i], g.principal, g.scope, g.environment);
        assert j in w.issued ==> !ActiveGrant(w.db.grants[j], g.principal, g.scope, g.environment);
      }
    }
  }

  lemma AddGrantGuard(w: World, e: Event)
    requires Enabled(w, e) && e.step.AddGrant?
    ensures !Granted(w.db.grants, e.step.principal, e.step.scope, e.step.environment)
  {
  }

  lemma {:induction false} UniqueActiveForever(run: Run, i: nat, j: nat)
    requires run.Legal() && i <= j < |run.worlds| && AllIssued(run.worlds[i]) && UniqueActive(run.worlds[i].db.grants)
    ensures UniqueActive(run.worlds[j].db.grants)
  {
    hide Apply, Enabled;
    if i < j {
      UniqueActiveForever(run, i, j - 1);
      AllIssuedThroughout(run, i, j - 1);
      UniqueActiveKept(run.worlds[j - 1], run.events[j - 1]);
    }
  }

  /** Every grant ever made is of a scope in the vocabulary. */
  ghost predicate InVocabulary(w: World) {
    forall id :: id in w.db.grants ==> w.db.grants[id].scope in w.vocabulary
  }

  lemma InVocabularyKept(w: World, e: Event)
    requires AllIssued(w) && Enabled(w, e) && InVocabulary(w)
    ensures InVocabulary(Apply(w, e))
  {
    hide Apply, Enabled;
    StepEvolves(w, e);
    forall id | id in Apply(w, e).db.grants
      ensures Apply(w, e).db.grants[id].scope in Apply(w, e).vocabulary
    {
      NewGrantScope(w, e, id);
    }
  }

  lemma NewGrantScope(w: World, e: Event, id: Id)
    requires Enabled(w, e) && id in Apply(w, e).db.grants
    ensures id in w.db.grants || Apply(w, e).db.grants[id].scope in w.vocabulary
    ensures id in w.db.grants ==> Apply(w, e).db.grants[id].scope == w.db.grants[id].scope || e.step.AddGrant?
    ensures id in w.db.grants && e.step.AddGrant? ==>
      Apply(w, e).db.grants[id].scope == w.db.grants[id].scope || Apply(w, e).db.grants[id].scope in w.vocabulary
  {
  }

  lemma {:induction false} InVocabularyForever(run: Run, i: nat, j: nat)
    requires run.Legal() && i <= j < |run.worlds| && AllIssued(run.worlds[i]) && InVocabulary(run.worlds[i])
    ensures InVocabulary(run.worlds[j]) && run.worlds[j].vocabulary == run.worlds[i].vocabulary
  {
    hide Apply, Enabled;
    if i < j {
      InVocabularyForever(run, i, j - 1);
      AllIssuedThroughout(run, i, j - 1);
      InVocabularyKept(run.worlds[j - 1], run.events[j - 1]);
      StepEvolves(run.worlds[j - 1], run.events[j - 1]);
    }
  }

  /** What a step does to the abstract set of triples. */
  function AbstractStep(w: World, step: Step): set<Triple> {
    var before := InForce(w.db.grants);
    match step
    case AddGrant(id, principal, scope, environment, _, _) => before + {Triple(principal, scope, environment)}
    case RevokeGrantRow(id, _, _) =>
      if id in w.db.grants && w.db.grants[id].revoked == None then before - {TripleOf(w.db.grants[id])} else before
    case DeletePrincipal(p) => set t | t in before && t.principal != p
    case _ => before
  }

  lemma InForceAfterRevoke(grants: map<Id, Grant>, id: Id, r: Revocation)
    requires UniqueActive(grants) && id in grants
    ensures InForce(grants[id := grants[id].(revoked := Some(r))])
         == InForce(grants) - (if grants[id].revoked == None then {TripleOf(grants[id])} else {})
  {
    var after := grants[id := grants[id].(revoked := Some(r))];
    var gone := if grants[id].revoked == None then {TripleOf(grants[id])} else {};
    forall t | t in InForce(grants) - gone ensures t in InForce(after) {
      var i :| i in grants && grants[i].revoked == None && TripleOf(grants[i]) == t;
      assert i != id && after[i] == grants[i];
    }
    forall t | t in InForce(after) ensures t in InForce(grants) - gone {
      var i :| i in after && after[i].revoked == None && TripleOf(after[i]) == t;
      assert i != id && after[i] == grants[i];
    }
  }

  lemma InForceAfterAdd(grants: map<Id, Grant>, id: Id, g: Grant)
    requires id !in grants && g.revoked == None
    ensures InForce(grants[id := g]) == InForce(grants) + {TripleOf(g)}
  {
    var after := grants[id := g];
    forall t | t in InForce(grants) + {TripleOf(g)} ensures t in InForce(after) {
      if t == TripleOf(g) {
        assert after[id] == g;
      } else {
        var i :| i in grants && grants[i].revoked == None && TripleOf(grants[i]) == t;
        assert after[i] == grants[i];
      }
    }
  }

  lemma InForceAfterDelete(grants: map<Id, Grant>, p: Id)
    ensures InForce(GrantsWithout(grants, p)) == set t | t in InForce(grants) && t.principal != p
  {
    var after := GrantsWithout(grants, p);
    forall t | t in InForce(grants) && t.principal != p ensures t in InForce(after) {
      var i :| i in grants && grants[i].revoked == None && TripleOf(grants[i]) == t;
      assert after[i] == grants[i];
    }
  }

  lemma AddGrantEffect(w: World, e: Event)
    requires AllIssued(w) && Enabled(w, e) && e.step.AddGrant?
    ensures var s := e.step;
      s.id !in w.issued && s.id !in w.db.grants && Apply(w, e).db.grants
        == w.db.grants[s.id := Grant(s.principal, s.scope, s.environment, s.grantor, Stamp(s.at), None)]
  {
  }

  lemma RevokeGrantEffect(w: World, e: Event)
    requires Enabled(w, e) && e.step.RevokeGrantRow?
    ensures var s := e.step;
      Apply(w, e).db.grants == if s.id in w.db.grants
        then w.db.grants[s.id := w.db.grants[s.id].(revoked := Some(Revocation(s.revoker, Stamp(s.at))))]
        else w.db.grants
  {
  }

  lemma DeletePrincipalEffect(w: World, e: Event)
    requires Enabled(w, e) && e.step.DeletePrincipal?
    ensures Apply(w, e).db.grants == GrantsWithout(w.db.grants, e.step.id)
  {
  }

  lemma OtherStepsKeepGrants(w: World, e: Event)
    requires Enabled(w, e)
    ensures e.step.AddGrant? || e.step.RevokeGrantRow? || e.step.DeletePrincipal?
      || Apply(w, e).db.grants == w.db.grants
  {
  }

  /** The row table refines the set of triples: granting adds one triple, revoking a row removes
      that row's triple if it is in force and nothing otherwise, deleting a principal removes its
      triples, and nothing else changes the set. */
  lemma GrantTableRefinesSet(w: World, e: Event)
    requires AllIssued(w) && Enabled(w, e) && UniqueActive(w.db.grants)
    ensures InForce(Apply(w, e).db.grants) == AbstractStep(w, e.step)
  {
    hide Apply, Enabled;
    if e.step.AddGrant? {
      AddGrantEffect(w, e);
      InForceAfterAdd(w.db.grants, e.step.id, Apply(w, e).db.grants[e.step.id]);
    } else if e.step.RevokeGrantRow? {
      RevokeGrantEffect(w, e);
      if e.step.id in w.db.grants {
        InForceAfterRevoke(w.db.grants, e.step.id, Revocation(e.step.revoker, Stamp(e.step.at)));
      }
    } else if e.step.DeletePrincipal? {
      DeletePrincipalEffect(w, e);
      InForceAfterDelete(w.db.grants, e.step.id);
    } else {
      OtherStepsKeepGrants(w, e);
    }
  }

  predicate GrantsTriple(step: Step, p: Id, scope: string, environment: string) {
    step.AddGrant? && step.principal == p && step.scope == scope && step.environment == environment
  }

  lemma NotGrantedStep(w: World, e: Event, p: Id, scope: string, environment: string)
    requires AllIssued(w) && Enabled(w, e) && !Granted(w.db.grants, p, scope, environment)
    ensures GrantsTriple(e.step, p, scope, environment) || !Granted(Apply(w, e).db.grants, p, scope, environment)
  {
    hide Apply, Enabled;
    var after := Apply(w, e).db.grants;
    StepGrantsEvolve(w, e);
    forall id | id in after && ActiveGrant(after[id], p, scope, environment)
      ensures GrantsTriple(e.step, p, scope, environment)
    {
      if id !in w.issued {
        NewGrantStep(w, e, id);
      }
    }
  }

  lemma NewGrantStep(w: World, e: Event, id: Id)
    requires AllIssued(w) && Enabled(w, e) && id in Apply(w, e).db.grants
    ensures id in w.issued || (e.step.AddGrant? && e.step.id == id && ActiveGrant(Apply(w, e).db.grants[id],
      e.step.principal, e.step.scope, e.step.environment))
  {
  }

  /** Only an explicit re-grant brings a triple back. */
  lemma {:induction false} NotGrantedUntilRegrant(run: Run, r: nat, i: nat, p: Id, scope: string, environment: string)
    requires run.Legal() && r <= i < |run.worlds| && AllIssued(run.worlds[r])
    requires !Granted(run.worlds[r].db.grants, p, scope, environment)
    requires forall k | r <= k < i :: !GrantsTriple(run.events[k].step, p, scope, environment)
    ensures !Granted(run.worlds[i].db.grants, p, scope, environment)
  {
    hide Apply, Enabled;
    if r < i {
      NotGrantedUntilRegrant(run, r, i - 1, p, scope, environment);
      AllIssuedThroughout(run, r, i - 1);
      NotGrantedStep(run.worlds[i - 1], run.events[i - 1], p, scope, environment);
    }
  }

  /** RevokeGrant's unguarded UPDATE, however delayed, never touches a grant made after its SELECT. */
  lemma DelayedRevokeSparesRegrant(run: Run, s: nat, k: nat, u: nat)
    requires run.Legal() && s <= k < u < |run.events| && AllIssued(run.worlds[s])
    requires run.events[u].step.RevokeGrantRow? && run.events[u].step.id in run.worlds[s].db.grants
    requires run.events[k].step.AddGrant? && run.events[k].step.id in run.worlds[u].db.grants
    ensures run.events[k].step.id in run.worlds[u + 1].db.grants
    ensures run.worlds[u + 1].db.grants[run.events[k].step.id] == run.worlds[u].db.grants[run.events[k].step.id]
  {
    hide Apply, Enabled;
    RunEvolves(run, s, k);
    AllIssuedThroughout(run, s, k);
    AddGrantEffect(run.worlds[k], run.events[k]);
    RevokeGrantEffect(run.worlds[u], run.events[u]);
  }

  lemma AttributionStep(w: World, e: Event, id: Id)
    requires AllIssued(w) && Enabled(w, e) && id in w.issued && id in Apply(w, e).db.grants
    ensures (e.step.RevokeGrantRow? && e.step.id == id)
      || (id in w.db.grants && Apply(w, e).db.grants[id] == w.db.grants[id])
  {
  }

  /** Revocation and its attribution stand until another UPDATE names the same row. */
  lemma {:induction false} AttributionStands(run: Run, i: nat, j: nat, id: Id)
    requires run.Legal() && i <= j < |run.worlds| && AllIssued(run.worlds[i])
    requires id in run.worlds[i].db.grants && run.worlds[i].db.grants[id].revoked.Some?
    requires forall k | i <= k < j :: !(run.events[k].step.RevokeGrantRow? && run.events[k].step.id == id)
    ensures id in run.worlds[j].db.grants ==> run.worlds[j].db.grants[id] == run.worlds[i].db.grants[id]
  {
    hide Apply, Enabled, GrantsEvolve;
    if i < j {
      AttributionStands(run, i, j - 1, id);
      AllIssuedThroughout(run, i, j - 1);
      RunEvolves(run, i, j - 1);
      if id in run.worlds[j].db.grants {
        AttributionStep(run.worlds[j - 1], run.events[j - 1], id);
      }
    }
  }

  /** A second revoker overwrites the first only when the two calls overlap: its SELECT, which
      must have seen the row active to reach the UPDATE, ran before the first call's UPDATE. */
  lemma RevokersOverlap(run: Run, u1: nat, s2: nat, id: Id)
    requires run.Legal() && u1 < |run.events| && s2 < |run.worlds| && AllIssued(run.worlds[0])
    requires run.events[u1].step.RevokeGrantRow? && run.events[u1].step.id == id && id in run.worlds[u1].db.grants
    requires id in run.worlds[s2].db.grants && run.worlds[s2].db.grants[id].revoked == None
    ensures s2 <= u1
  {
    hide Apply, Enabled;
    if u1 < s2 {
      AllIssuedThroughout(run, 0, u1);
      RevokeGrantEffect(run.worlds[u1], run.events[u1]);
      AllIssuedThroughout(run, 0, u1 + 1);
      RunEvolves(run, u1 + 1, s2);
    }
  }

  /** And when they do overlap, the second name replaces the first. */
  lemma OverlapOverwritesAttribution(w: World, id: Id, first: string, second: string) returns (run: Run)
    requires w.tx == None && id in w.db.grants && w.db.grants[id].revoked == None
    ensures run.Legal() && run.worlds[0] == w && |run.events| == 2
    ensures id in run.worlds[1].db.grants && id in run.worlds[2].db.grants
    ensures run.worlds[1].db.grants[id].revoked.Some? && run.worlds[1].db.grants[id].revoked.value.revoker == first
    ensures run.worlds[2].db.grants[id].revoked.Some? && run.worlds[2].db.grants[id].revoked.value.revoker == second
  {
    hide Apply, Enabled, Run.Legal;
    var e1, e2 := Event(1, RevokeGrantRow(id, first, w.now)), Event(2, RevokeGrantRow(id, second, w.now));
    StartIsLegal(w);
    run := Run([w], []);
    RevokeGrantStep(w, 1, id, first, w.now);
    RevokeGrantEffect(w, e1);
    ThenIsLegal(run, e1);
    run := run.Then(e1);
    RevokeGrantStep(run.Last(), 2, id, second, w.now);
    RevokeGrantEffect(run.Last(), e2);
    ThenIsLegal(run, e2);
    run := run.Then(e2);
  }
}
