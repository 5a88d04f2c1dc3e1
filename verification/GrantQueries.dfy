/** Reading the grants table: ListGrants with its four filters, and GetActiveScopes. */
module GrantQueries {
  import opened Wrappers
  import opened Schema
  import opened Scopes
  import opened Ordering
  import opened GrantRuns
  import opened TokenRuns

  /** The WHERE clause; an empty environment matches every environment. */
  predicate Selected(g: Grant, p: Id, environment: string, activeOnly: bool) {
    g.principal == p && (environment != "" ==> g.environment == environment) && (activeOnly ==> g.revoked == None)
  }

  /** Every selected row once, ORDER BY granted_at. */
  ghost predicate Listed(grants: map<Id, Grant>, p: Id, environment: string, activeOnly: bool, ids: seq<Id>) {
    && NoDuplicates(ids)
    && (forall id :: id in ids <==> id in grants && Selected(grants[id], p, environment, activeOnly))
    && (forall i, j | 0 <= i < j < |ids| :: grants[ids[i]].grantedAt <= grants[ids[j]].grantedAt)
  }

  method ListGrants(grants: map<Id, Grant>, p: Id, environment: string, activeOnly: bool) returns (ids: seq<Id>)
    ensures NoDuplicates(ids)
    ensures forall id :: id in ids <==>
      id in grants && grants[id].principal == p && (environment == "" || grants[id].environment == environment)
      && (activeOnly ==> grants[id].revoked == None)
    ensures forall i, j | 0 <= i < j < |ids| :: grants[ids[i]].grantedAt <= grants[ids[j]].grantedAt
  {
    var rows := set id | id in grants && Selected(grants[id], p, environment, activeOnly);
    ids := OrderBy(rows, map id | id in grants :: grants[id].grantedAt);
    assert forall i | 0 <= i < |ids| :: ids[i] in ids;
  }

  function ScopesOf(grants: map<Id, Grant>, ids: seq<Id>): (scopes: seq<string>)
    requires forall id :: id in ids ==> id in grants
    ensures |scopes| == |ids| && forall i | 0 <= i < |ids| :: scopes[i] == grants[ids[i]].scope
  {
    if ids == [] then [] else ScopesOf(grants, ids[..|ids| - 1]) + [grants[ids[|ids| - 1]].scope]
  }

  /** In a named environment the answer is exactly the scopes in force, each once. */
  lemma ActiveScopesExact(grants: map<Id, Grant>, p: Id, environment: string, ids: seq<Id>)
    requires UniqueActive(grants) && environment != "" && Listed(grants, p, environment, true, ids)
    ensures ScopesInForce(grants, p, environment, ScopesOf(grants, ids))
  {
    var scopes := ScopesOf(grants, ids);
    forall i, j | 0 <= i < j < |scopes| ensures scopes[i] != scopes[j] {
      assert ids[i] in ids && ids[j] in ids;
      assert TripleOf(grants[ids[i]]) == Triple(p, scopes[i], environment);
      assert TripleOf(grants[ids[j]]) == Triple(p, scopes[j], environment);
    }
    forall s ensures s in scopes <==> Granted(grants, p, s, environment) {
      if s in scopes {
        var i :| 0 <= i < |scopes| && scopes[i] == s;
        assert ids[i] in ids && ActiveGrant(grants[ids[i]], p, s, environment);
      }
      if Granted(grants, p, s, environment) {
        var id :| id in grants && ActiveGrant(grants[id], p, s, environment);
        assert id in ids;
        var i :| 0 <= i < |ids| && ids[i] == id;
        assert scopes[i] == s;
      }
    }
  }

  /** The loop of GetActiveScopes. */
  method ActiveScopes(grants: map<Id, Grant>, p: Id, environment: string) returns (scopes: seq<string>)
    requires UniqueActive(grants) && environment != ""
    ensures ScopesInForce(grants, p, environment, scopes) && NoDuplicates(scopes)
    ensures exists ids ::
      NoDuplicates(ids)
      && (forall id :: id in ids <==>
            id in grants && grants[id].principal == p && grants[id].environment == environment
            && grants[id].revoked == None)
      && |scopes| == |ids| && (forall i | 0 <= i < |ids| :: scopes[i] == grants[ids[i]].scope)
      && (forall i, j | 0 <= i < j < |ids| :: grants[ids[i]].grantedAt <= grants[ids[j]].grantedAt)
  {
    var ids := ListGrants(grants, p, environment, true);
    scopes := [];
    for i := 0 to |ids|
      invariant scopes == ScopesOf(grants, ids[..i])
    {
      assert ids[..i + 1][..i] == ids[..i];
      scopes := scopes + [grants[ids[i]].scope];
    }
    assert ids[..|ids|] == ids;
    ActiveScopesExact(grants, p, environment, ids);
  }

  /** With the environment left blank a scope can come back twice: the two rows are in force in
      different environments. Naming an environment is exactly what rules this out. */
  lemma BlankEnvironmentRepeats(p: Id, scope: string, e1: string, e2: string)
    returns (grants: map<Id, Grant>, ids: seq<Id>)
    requires e1 != e2
    ensures UniqueActive(grants) && Listed(grants, p, "", true, ids)
    ensures !NoDuplicates(ScopesOf(grants, ids))
  {
    grants := map["a" := Grant(p, scope, e1, "", 0, None), "b" := Grant(p, scope, e2, "", 0, None)];
    ids := ["a", "b"];
    var scopes := ScopesOf(grants, ids);
    assert scopes[0] == scopes[1];
    assert TripleOf(grants["a"]) != TripleOf(grants["b"]);
  }
}
