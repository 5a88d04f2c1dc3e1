/** The startup reconcile of the oidc_clients table with the committed manifest. */
module Reconcile {
  import opened Wrappers
  import opened Rfc3339
  import opened Schema
  import opened ClientKeys
  import opened Scopes

  datatype ManifestEntry = ManifestEntry(clientId: string, clientName: string, redirectUris: seq<string>)

  /** Parsing a URI and classifying its host is not modelled: any predicate will do. */
  type Loopback = string -> bool

  function Filtered(uris: seq<string>, environment: string, loopback: Loopback): (kept: seq<string>)
    ensures environment != "development" ==> forall uri :: uri in kept <==> uri in uris && !loopback(uri)
    ensures environment == "development" ==> kept == uris
  {
    if environment == "development" || uris == [] then uris
    else
      var n := |uris| - 1;
      Filtered(uris[..n], environment, loopback) + if loopback(uris[n]) then [] else [uris[n]]
  }

  method FilterRedirectURIsForEnvironment(redirectURIs: seq<string>, environment: string, loopback: Loopback)
    returns (filtered: seq<string>)
    ensures filtered == Filtered(redirectURIs, environment, loopback)
  {
    if environment == "development" {
      return redirectURIs;
    }
    filtered := [];
    for i := 0 to |redirectURIs|
      invariant filtered == Filtered(redirectURIs[..i], environment, loopback)
    {
      assert redirectURIs[..i + 1][..i] == redirectURIs[..i];
      if loopback(redirectURIs[i]) {
        continue;
      }
      filtered := filtered + [redirectURIs[i]];
    }
    assert redirectURIs[..|redirectURIs|] == redirectURIs;
  }

  /** What is fixed for one reconcile. */
  datatype Setting = Setting(secrets: map<string, string>, environment: string, loopback: Loopback)

  /** The entry has a secret, and the filter leaves it a redirect URI if it declares any. */
  predicate Eligible(e: ManifestEntry, s: Setting) {
    e.clientId in s.secrets && (e.redirectUris == [] || Filtered(e.redirectUris, s.environment, s.loopback) != [])
  }

  function RowFor(e: ManifestEntry, s: Setting, createdAt: int): Client
    requires e.clientId in s.secrets
  {
    Client(Digest(s.secrets[e.clientId]), Filtered(e.redirectUris, s.environment, s.loopback), e.clientName, createdAt)
  }

  function CreatedAt(rows: map<string, Client>, id: string, now: int): int {
    if id in rows then rows[id].createdAt else Stamp(now)
  }

  function Applied(rows: map<string, Client>, e: ManifestEntry, s: Setting, now: int): map<string, Client> {
    if Eligible(e, s) then rows[e.clientId := RowFor(e, s, CreatedAt(rows, e.clientId, now))] else rows
  }

  function Reconciled(rows: map<string, Client>, entries: seq<ManifestEntry>, s: Setting,
                      times: seq<int>): map<string, Client>
    requires |times| == |entries|
  {
    if entries == [] then rows
    else
      var n := |entries| - 1;
      var before, e := Reconciled(rows, entries[..n], s, times[..n]), entries[n];
      Applied(before, e, s, times[n])
  }

  /** What a reconcile is given: the manifest (None when the JSON does not parse), CLIENT_KEYS, the clock at
      each entry, and the entries whose upsert fails. */
  datatype Declaration = Declaration(manifest: Option<seq<ManifestEntry>>, clientKeysRaw: string, loopback: Loopback,
                                     times: seq<int>, fails: set<nat>)

  predicate Timed(d: Declaration) { d.manifest.Some? ==> |d.times| == |d.manifest.value| }

  /** The items whose upsert does not fail. */
  function Survivors<T>(items: seq<T>, fails: set<nat>): seq<T> {
    if items == [] then []
    else
      var n := |items| - 1;
      Survivors(items[..n], fails) + if n in fails then [] else [items[n]]
  }

  lemma {:induction false} SameSurvivors<T, U>(a: seq<T>, b: seq<U>, fails: set<nat>)
    requires |a| == |b|
    ensures |Survivors(a, fails)| == |Survivors(b, fails)|
  {
    if a != [] {
      SameSurvivors(a[..|a| - 1], b[..|b| - 1], fails);
    }
  }

  lemma SurvivorsNext<T>(items: seq<T>, fails: set<nat>, i: nat)
    requires i < |items|
    ensures Survivors(items[..i + 1], fails) == Survivors(items[..i], fails) + (if i in fails then [] else [items[i]])
    ensures i !in fails ==>
      Survivors(items[..i + 1], fails)[..|Survivors(items[..i + 1], fails)| - 1] == Survivors(items[..i], fails)
  {
    assert items[..i + 1][..i] == items[..i];
  }

  /** The table after the reconcile: the entries that reach the table are applied in order. */
  function RowsAfter(rows: map<string, Client>, d: Declaration, environment: string): map<string, Client>
    requires Timed(d)
  {
    if d.manifest.None? then rows
    else
      SameSurvivors(d.manifest.value, d.times, d.fails);
      Reconciled(rows, Survivors(d.manifest.value, d.fails), Setting(Parse(d.clientKeysRaw), environment, d.loopback),
                 Survivors(d.times, d.fails))
  }

  class ClientTable {
    var rows: map<string, Client>

    constructor (rows: map<string, Client>)
      ensures this.rows == rows
    {
      this.rows := rows;
    }

    method UpsertOIDCClient(id: string, secretHash: Digest, name: string, redirectUris: seq<string>, now: int)
      modifies this
      ensures rows == old(rows)[id := Client(secretHash, redirectUris, name, CreatedAt(old(rows), id, now))]
    {
      if id in rows {
        rows := rows[id := rows[id].(secretHash := secretHash, redirectUris := redirectUris, name := name)];
      } else {
        rows := rows[id := Client(secretHash, redirectUris, name, Stamp(now))];
      }
    }

    method ReconcileOIDCClients(d: Declaration, environment: string)
      requires Timed(d)
      modifies this
      ensures rows == RowsAfter(old(rows), d, environment)
      ensures d.manifest.None? ==> rows == old(rows)
    {
      hide Reconciled, Applied;
      ReconciledNone(rows, Setting(Parse(d.clientKeysRaw), environment, d.loopback));
      if d.manifest.None? {
        return;
      }
      var entries := d.manifest.value;
      if |entries| == 0 {
        assert Survivors(entries, d.fails) == [] && Survivors(d.times, d.fails) == [];
        return;
      }
      var secrets := ParseClientKeysBySystem(d.clientKeysRaw);
      ghost var s := Setting(secrets, environment, d.loopback);
      assert Survivors(entries[..0], d.fails) == [] && Survivors(d.times[..0], d.fails) == [];
      for i := 0 to |entries|
        invariant |Survivors(entries[..i], d.fails)| == |Survivors(d.times[..i], d.fails)|
        invariant rows == Reconciled(old(rows), Survivors(entries[..i], d.fails), s, Survivors(d.times[..i], d.fails))
      {
        ReconciledNext(old(rows), entries, s, d.times, d.fails, i);
        ReconcileEntry(entries[i], secrets, environment, d.loopback, d.times[i], i in d.fails);
      }
      assert entries[..|entries|] == entries && d.times[..|entries|] == d.times;
    }

    /** The loop body: no secret, no redirect URI left, a failing upsert, or the row. */
    method ReconcileEntry(entry: ManifestEntry, secrets: map<string, string>, environment: string, loopback: Loopback,
                          now: int, fails: bool)
      modifies this
      ensures rows == if fails then old(rows) else
        Applied(old(rows), entry, Setting(secrets, environment, loopback), now)
    {
      if entry.clientId !in secrets {
        return;
      }
      var redirectURIs := FilterRedirectURIsForEnvironment(entry.redirectUris, environment, loopback);
      if |entry.redirectUris| > 0 && |redirectURIs| == 0 {
        return;
      }
      if fails {
        return;
      }
      UpsertOIDCClient(entry.clientId, Digest(secrets[entry.clientId]), entry.clientName, redirectURIs, now);
    }
  }

  lemma ReconciledNone(rows: map<string, Client>, s: Setting)
    ensures Reconciled(rows, [], s, []) == rows
  {
  }

  lemma ReconciledNext(rows: map<string, Client>, entries: seq<ManifestEntry>, s: Setting, times: seq<int>,
                       fails: set<nat>, i: nat)
    requires |entries| == |times| && i < |entries|
    ensures |Survivors(entries[..i], fails)| == |Survivors(times[..i], fails)|
    ensures |Survivors(entries[..i + 1], fails)| == |Survivors(times[..i + 1], fails)|
    ensures var before := Reconciled(rows, Survivors(entries[..i], fails), s, Survivors(times[..i], fails));
      Reconciled(rows, Survivors(entries[..i + 1], fails), s, Survivors(times[..i + 1], fails))
      == if i in fails then before else Applied(before, entries[i], s, times[i])
  {
    hide Applied;
    SameSurvivors(entries[..i], times[..i], fails);
    SurvivorsNext(entries, fails, i);
    SurvivorsNext(times, fails, i);
    var a, b := Survivors(entries[..i], fails), Survivors(entries[..i + 1], fails);
    var ta, tb := Survivors(times[..i], fails), Survivors(times[..i + 1], fails);
    if i in fails {
      assert b == a && tb == ta;
    } else {
      assert b == a + [entries[i]] && tb == ta + [times[i]];
      assert b[..|b| - 1] == a && tb[..|tb| - 1] == ta;
    }
  }

  // ---- What the fold amounts to ----

  /** The i-th entry is the last eligible one for its client. */
  predicate LastEligible(entries: seq<ManifestEntry>, s: Setting, i: nat) {
    && i < |entries| && Eligible(entries[i], s)
    && forall j | i < j < |entries| && entries[j].clientId == entries[i].clientId :: !Eligible(entries[j], s)
  }

  /** The i-th entry is the first eligible one for its client. */
  predicate FirstEligible(entries: seq<ManifestEntry>, s: Setting, i: nat) {
    && i < |entries| && Eligible(entries[i], s)
    && forall j | 0 <= j < i && entries[j].clientId == entries[i].clientId :: !Eligible(entries[j], s)
  }

  predicate Touched(entries: seq<ManifestEntry>, s: Setting, id: string) {
    exists i | 0 <= i < |entries| :: entries[i].clientId == id && Eligible(entries[i], s)
  }

  /** Nothing is deleted, and a row without an eligible entry is not touched. */
  lemma {:induction false} NeverWipes(rows: map<string, Client>, entries: seq<ManifestEntry>, s: Setting,
                                      times: seq<int>, id: string)
    requires |times| == |entries|
    ensures id in rows ==> id in Reconciled(rows, entries, s, times)
    ensures id in Reconciled(rows, entries, s, times) <==> id in rows || Touched(entries, s, id)
    ensures id in rows && !Touched(entries, s, id) ==> Reconciled(rows, entries, s, times)[id] == rows[id]
  {
    hide Eligible, RowFor, CreatedAt, Touched;
    if entries == [] {
      NoneTouched(s, id);
    } else {
      var n := |entries| - 1;
      NeverWipes(rows, entries[..n], s, times[..n], id);
      TouchedNext(entries, s, id);
    }
  }

  lemma NoneTouched(s: Setting, id: string)
    ensures !Touched([], s, id)
  {
  }

  lemma TouchedNext(entries: seq<ManifestEntry>, s: Setting, id: string)
    requires entries != []
    ensures var n := |entries| - 1;
      Touched(entries, s, id) <==>
      Touched(entries[..n], s, id) || (entries[n].clientId == id && Eligible(entries[n], s))
  {
    hide Eligible;
    var n := |entries| - 1;
    if Touched(entries[..n], s, id) {
      var i :| 0 <= i < n && entries[..n][i].clientId == id && Eligible(entries[..n][i], s);
      assert entries[i].clientId == id && Eligible(entries[i], s);
    }
    if Touched(entries, s, id) && !(entries[n].clientId == id && Eligible(entries[n], s)) {
      var i :| 0 <= i < |entries| && entries[i].clientId == id && Eligible(entries[i], s);
      assert entries[..n][i].clientId == id && Eligible(entries[..n][i], s);
    }
  }

  /** A reconciled row is what the last eligible entry says; its created_at is the one it had, or
      the time of the first eligible entry if the client is new. */
  lemma {:induction false} RowIsLastEligible(rows: map<string, Client>, entries: seq<ManifestEntry>, s: Setting,
                                             times: seq<int>, first: nat, last: nat)
    requires |times| == |entries| && FirstEligible(entries, s, first) && LastEligible(entries, s, last)
    requires entries[first].clientId == entries[last].clientId
    ensures var id := entries[last].clientId; var out := Reconciled(rows, entries, s, times);
      id in out && out[id] == RowFor(entries[last], s, CreatedAt(rows, id, times[first]))
  {
    var n := |entries| - 1;
    var id := entries[last].clientId;
    if last < n {
      assert FirstEligible(entries[..n], s, first) && LastEligible(entries[..n], s, last);
      RowIsLastEligible(rows, entries[..n], s, times[..n], first, last);
    } else if first == n {
      NeverWipes(rows, entries[..n], s, times[..n], id);
    } else {
      var previous := LastBefore(entries[..n], s, id, first);
      assert FirstEligible(entries[..n], s, first);
      RowIsLastEligible(rows, entries[..n], s, times[..n], first, previous);
    }
  }

  lemma {:induction false} LastBefore(entries: seq<ManifestEntry>, s: Setting, id: string, first: nat)
    returns (last: nat)
    requires first < |entries| && entries[first].clientId == id && Eligible(entries[first], s)
    ensures LastEligible(entries, s, last) && entries[last].clientId == id
  {
    hide Eligible;
    var n := |entries| - 1;
    if entries[n].clientId == id && Eligible(entries[n], s) {
      last := n;
    } else {
      last := LastBefore(entries[..n], s, id, first);
      assert forall j | last < j < n :: entries[j] == entries[..n][j];
    }
  }

  lemma {:induction false} FirstBefore(entries: seq<ManifestEntry>, s: Setting, id: string) returns (first: nat)
    requires Touched(entries, s, id)
    ensures FirstEligible(entries, s, first) && entries[first].clientId == id
  {
    hide Eligible;
    var n := |entries| - 1;
    if Touched(entries[..n], s, id) {
      first := FirstBefore(entries[..n], s, id);
      assert forall j | 0 <= j < first :: entries[j] == entries[..n][j];
    } else {
      var i :| 0 <= i < |entries| && entries[i].clientId == id && Eligible(entries[i], s);
      first := n;
      assert forall j | 0 <= j < n :: entries[j] == entries[..n][j];
    }
  }

  /** The positions of the URIs that the filter keeps, in manifest order. */
  lemma {:induction false} KeptPositions(uris: seq<string>, environment: string, loopback: Loopback)
    returns (kept: seq<nat>)
    ensures |kept| == |Filtered(uris, environment, loopback)|
    ensures forall k | 0 <= k < |kept| ::
      kept[k] < |uris| && Filtered(uris, environment, loopback)[k] == uris[kept[k]]
    ensures forall j, k | 0 <= j < k < |kept| :: kept[j] < kept[k]
    ensures forall n: nat :: n in kept <==> n < |uris| && (environment == "development" || !loopback(uris[n]))
  {
    if environment == "development" {
      kept := AllPositions(|uris|);
    } else {
      kept := KeptOutside(uris, environment, loopback);
    }
  }

  lemma {:induction false} KeptOutside(uris: seq<string>, environment: string, loopback: Loopback)
    returns (kept: seq<nat>)
    requires environment != "development"
    ensures ItemsAt(Filtered(uris, environment, loopback), uris, kept)
    ensures forall n: nat :: n in kept <==> n < |uris| && !loopback(uris[n])
  {
    hide ItemsAt, Filtered;
    if uris == [] {
      kept := [];
      NothingAt(environment, loopback);
    } else {
      var n := |uris| - 1;
      var before := KeptOutside(uris[..n], environment, loopback);
      assert uris == uris[..n] + [uris[n]];
      ItemsAtSnoc(Filtered(uris[..n], environment, loopback), uris[..n], uris[n], before);
      FilteredSnoc(uris, environment, loopback);
      kept := if loopback(uris[n]) then before else before + [n];
    }
  }

  lemma FilteredSnoc(uris: seq<string>, environment: string, loopback: Loopback)
    requires environment != "development" && uris != []
    ensures var n, all, init := |uris| - 1, Filtered(uris, environment, loopback),
              Filtered(uris[..|uris| - 1], environment, loopback);
      if loopback(uris[n]) then all == init else all == init + [uris[n]]
  {
  }

  lemma NothingAt(environment: string, loopback: Loopback)
    ensures ItemsAt(Filtered([], environment, loopback), [], [])
  {
  }

  lemma AllPositions(n: nat) returns (all: seq<nat>)
    ensures |all| == n && forall k | 0 <= k < n :: all[k] == k
    ensures forall k: nat :: k in all <==> k < n
  {
    all := seq(n, k requires 0 <= k < n => k);
    forall k: nat | k < n ensures k in all { assert all[k] == k; }
  }

  lemma RowsSoFar(rows: map<string, Client>, d: Declaration, environment: string)
    requires Timed(d) && d.manifest.Some?
    ensures var m, s := d.manifest.value, Setting(Parse(d.clientKeysRaw), environment, d.loopback);
      && |Survivors(m[..0], d.fails)| == |Survivors(d.times[..0], d.fails)|
      && |Survivors(m[..|m|], d.fails)| == |Survivors(d.times[..|m|], d.fails)|
      && Reconciled(rows, Survivors(m[..0], d.fails), s, Survivors(d.times[..0], d.fails)) == rows
      && RowsAfter(rows, d, environment)
         == Reconciled(rows, Survivors(m[..|m|], d.fails), s, Survivors(d.times[..|m|], d.fails))
  {
    hide Parse, Reconciled, Survivors;
    var m, s := d.manifest.value, Setting(Parse(d.clientKeysRaw), environment, d.loopback);
    assert m[..0] == [] && d.times[..0] == [] && m[..|m|] == m && d.times[..|m|] == d.times;
    SameSurvivors(m, d.times, d.fails);
    NoSurvivors<ManifestEntry>(d.fails);
    NoSurvivors<int>(d.fails);
    ReconciledNone(rows, s);
  }

  lemma NoSurvivors<T>(fails: set<nat>)
    ensures Survivors<T>([], fails) == []
  {
  }

  /** The row of a client, column by column: entry i reaches the table, as it has a secret, a redirect URI
      is left if it declares any, and its upsert does not fail, and no later entry of that client does. */
  lemma ReconciledColumns(rows: map<string, Client>, d: Declaration, environment: string, i: nat)
    returns (kept: seq<nat>)
    requires Timed(d) && d.manifest.Some? && i < |d.manifest.value| && i !in d.fails
    requires d.manifest.value[i].clientId in Parse(d.clientKeysRaw)
    requires d.manifest.value[i].redirectUris == [] || exists uri ::
      uri in d.manifest.value[i].redirectUris && (environment == "development" || !d.loopback(uri))
    requires var m := d.manifest.value;
      forall j | i < j < |m| && j !in d.fails && m[j].clientId == m[i].clientId ::
        environment != "development" && m[j].redirectUris != []
        && forall uri :: uri in m[j].redirectUris ==> d.loopback(uri)
    ensures var e, out := d.manifest.value[i], RowsAfter(rows, d, environment);
      && e.clientId in out && out[e.clientId].secretHash == Digest(Parse(d.clientKeysRaw)[e.clientId])
      && out[e.clientId].name == e.clientName
      && (e.clientId in rows ==> out[e.clientId].createdAt == rows[e.clientId].createdAt)
      && |out[e.clientId].redirectUris| == |kept|
      && (forall k | 0 <= k < |kept| ::
            kept[k] < |e.redirectUris| && out[e.clientId].redirectUris[k] == e.redirectUris[kept[k]])
    ensures forall j, k | 0 <= j < k < |kept| :: kept[j] < kept[k]
    ensures var uris := d.manifest.value[i].redirectUris;
      forall n: nat :: n in kept <==> n < |uris| && (environment == "development" || !d.loopback(uris[n]))
  {
    hide Reconciled, Parse, RowsAfter, Survivors, Filtered, RowFor, CreatedAt;
    var m, s := d.manifest.value, Setting(Parse(d.clientKeysRaw), environment, d.loopback);
    var id := m[i].clientId;
    kept := KeptPositions(m[i].redirectUris, environment, d.loopback);
    RowsSoFar(rows, d, environment);
    for n := 0 to |m|
      invariant |Survivors(m[..n], d.fails)| == |Survivors(d.times[..n], d.fails)|
      invariant var out := Reconciled(rows, Survivors(m[..n], d.fails), s, Survivors(d.times[..n], d.fails));
        && (id in rows ==> id in out && out[id].createdAt == rows[id].createdAt)
        && (i < n ==> id in out && out[id].secretHash == Digest(s.secrets[id]) && out[id].name == m[i].clientName
                      && out[id].redirectUris == Filtered(m[i].redirectUris, environment, d.loopback))
    {
      ReconciledNext(rows, m, s, d.times, d.fails, n);
      var before := Reconciled(rows, Survivors(m[..n], d.fails), s, Survivors(d.times[..n], d.fails));
      if n == i {
        AppliedColumns(before, m[i], s, d.times[i]);
      } else if n > i && n !in d.fails && m[n].clientId == id {
        NoneKept(m[n].redirectUris, environment, d.loopback);
      } else if n !in d.fails {
        KeepsCreation(before, m[n], s, d.times[n], id);
      }
    }
  }

  lemma AppliedColumns(rows: map<string, Client>, e: ManifestEntry, s: Setting, now: int)
    requires e.clientId in s.secrets
    requires e.redirectUris == [] || exists uri ::
      uri in e.redirectUris && (s.environment == "development" || !s.loopback(uri))
    ensures var out, id := Applied(rows, e, s, now), e.clientId;
      && id in out && out[id].secretHash == Digest(s.secrets[id]) && out[id].name == e.clientName
      && out[id].redirectUris == Filtered(e.redirectUris, s.environment, s.loopback)
      && (id in rows ==> out[id].createdAt == rows[id].createdAt)
  {
    if e.redirectUris != [] && s.environment != "development" {
      var uri :| uri in e.redirectUris && !s.loopback(uri);
      assert uri in Filtered(e.redirectUris, s.environment, s.loopback);
    }
  }

  lemma KeepsCreation(rows: map<string, Client>, e: ManifestEntry, s: Setting, now: int, id: string)
    ensures id in rows ==> id in Applied(rows, e, s, now)
    ensures id in rows ==> Applied(rows, e, s, now)[id].createdAt == rows[id].createdAt
    ensures id != e.clientId && id in rows ==> Applied(rows, e, s, now)[id] == rows[id]
  {
  }

  lemma NoneKept(uris: seq<string>, environment: string, loopback: Loopback)
    requires environment != "development" && forall uri :: uri in uris ==> loopback(uri)
    ensures Filtered(uris, environment, loopback) == []
  {
    var kept := Filtered(uris, environment, loopback);
    assert forall i | 0 <= i < |kept| :: kept[i] in kept;
  }

  /** A client none of whose entries reaches the table keeps its row, or stays unregistered. */
  lemma ReconcileLeavesAlone(rows: map<string, Client>, d: Declaration, environment: string, id: string)
    requires Timed(d)
    requires d.manifest.Some? && id in Parse(d.clientKeysRaw) ==>
      var m := d.manifest.value;
      forall j | 0 <= j < |m| && j !in d.fails && m[j].clientId == id ::
        environment != "development" && m[j].redirectUris != []
        && forall uri :: uri in m[j].redirectUris ==> d.loopback(uri)
    ensures var out := RowsAfter(rows, d, environment);
      (id in out <==> id in rows) && (id in rows ==> out[id] == rows[id])
  {
    hide Reconciled, Parse, Survivors;
    if d.manifest.Some? {
      var m, s := d.manifest.value, Setting(Parse(d.clientKeysRaw), environment, d.loopback);
      RowsSoFar(rows, d, environment);
      for n := 0 to |m|
        invariant |Survivors(m[..n], d.fails)| == |Survivors(d.times[..n], d.fails)|
        invariant var out := Reconciled(rows, Survivors(m[..n], d.fails), s, Survivors(d.times[..n], d.fails));
          (id in out <==> id in rows) && (id in rows ==> out[id] == rows[id])
      {
        ReconciledNext(rows, m, s, d.times, d.fails, n);
        if n !in d.fails && m[n].clientId == id && id in s.secrets {
          NoneKept(m[n].redirectUris, environment, d.loopback);
        }
      }
    }
  }

  /** Outside development no reconcile writes a loopback URI. */
  lemma {:induction false} NoLoopbackOutsideDevelopment(rows: map<string, Client>, entries: seq<ManifestEntry>,
                                                        s: Setting,
                                                         times: seq<int>, id: string, uri: string)
    requires |times| == |entries| && s.environment != "development" && s.loopback(uri)
    requires Touched(entries, s, id)
    ensures id in Reconciled(rows, entries, s, times) && uri !in Reconciled(rows, entries, s, times)[id].redirectUris
  {
    var first := FirstBefore(entries, s, id);
    var last := LastBefore(entries, s, id, first);
    RowIsLastEligible(rows, entries, s, times, first, last);
  }

  /** Running twice is running once, whatever the clock says the second time. */
  lemma ReconcileIsIdempotent(rows: map<string, Client>, entries: seq<ManifestEntry>, s: Setting, times: seq<int>,
                              again: seq<int>)
    requires |times| == |entries| == |again|
    ensures Reconciled(Reconciled(rows, entries, s, times), entries, s, again) == Reconciled(rows, entries, s, times)
  {
    var once := Reconciled(rows, entries, s, times);
    var twice := Reconciled(once, entries, s, again);
    forall id
      ensures id in twice <==> id in once
      ensures id in once ==> twice[id] == once[id]
    {
      NeverWipes(rows, entries, s, times, id);
      NeverWipes(once, entries, s, again, id);
      if Touched(entries, s, id) {
        var first := FirstBefore(entries, s, id);
        var last := LastBefore(entries, s, id, first);
        RowIsLastEligible(rows, entries, s, times, first, last);
        RowIsLastEligible(once, entries, s, again, first, last);
      }
    }
    assert twice.Keys == once.Keys;
  }
}
