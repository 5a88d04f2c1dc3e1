/** MigrateSigningKeyEncryption (at startup) and RekeySigningKeys (service stopped): nothing else
    touches the signing_keys table while they run. A run can be cut short at any statement. */
module KeyMaintenance {
  import opened Wrappers
  import opened Schema
  import opened Scopes
  import opened World
  import opened KeyRuns

  // ---- What the table means, whatever form its blobs are in ----

  /** x509.ParsePKCS8PrivateKey succeeds exactly on raw keys. */
  function Der(kek: Kek, blob: Blob): Option<string> {
    if Open(kek, blob).Some? then Open(kek, blob) else if blob.Pkcs8? then Some(blob.der) else None
  }

  function Plaintext(rows: map<Id, KeyRow>): set<Id> { set id | id in rows && rows[id].blob.Pkcs8? }

  /** The same rows, all columns but the blob unchanged, and the same id-to-DER map. */
  ghost predicate SameKeys(kek: Kek, a: map<Id, KeyRow>, b: map<Id, KeyRow>) {
    a.Keys == b.Keys && forall id :: id in a ==>
      b[id] == a[id].(blob := b[id].blob) && Der(kek, b[id].blob) == Der(kek, a[id].blob)
  }

  /** Every row opens under the KEK. */
  ghost predicate AllSealed(kek: Kek, rows: map<Id, KeyRow>) {
    forall id :: id in rows ==> Open(kek, rows[id].blob).Some?
  }

  /** b is a under the new KEK: same rows, every column but the blob, and every plaintext. */
  ghost predicate Rekeyed(a: map<Id, KeyRow>, oldKek: Kek, b: map<Id, KeyRow>, newKek: Kek) {
    a.Keys == b.Keys && forall id :: id in a ==>
      b[id] == a[id].(blob := b[id].blob) && Open(oldKek, a[id].blob).Some? &&
      Open(newKek, b[id].blob) == Open(oldKek, a[id].blob)
  }

  /** The row now holds its old plaintext sealed under the KEK; nothing else in it changed. */
  ghost predicate SealedInPlace(kek: Kek, a: KeyRow, b: KeyRow) {
    a.blob.Pkcs8? && b == a.(blob := b.blob) && Open(kek, b.blob) == Some(a.blob.der)
  }

  /** What CutShort reports is what the table has received; the source returns an error and no count. */
  datatype Migration = Migrated(count: nat) | UnreadableRow(id: Id) | CutShort(updated: nat)

  datatype Queued = Queued(id: Id, raw: string)

  function Ids(queue: seq<Queued>): seq<Id> { seq(|queue|, i requires 0 <= i < |queue| => queue[i].id) }

  lemma {:induction false} DistinctCount(ids: seq<Id>)
    requires NoDuplicates(ids)
    ensures |set id | id in ids| == |ids|
  {
    if ids != [] {
      var init := ids[..|ids| - 1];
      DistinctCount(init);
      assert ids == init + [ids[|ids| - 1]];
      assert (set id | id in ids) == (set id | id in init) + {ids[|ids| - 1]};
      assert ids[|ids| - 1] !in init;
    }
  }

  /** A fault planned for position k of n actually happens. */
  predicate Strikes(fault: Option<nat>, n: nat) { fault.Some? && fault.value < n }

  /** Both blobs open, each under its own KEK, to the same plaintext. */
  ghost predicate Restated(oldKek: Kek, oldBlob: Blob, newKek: Kek, newBlob: Blob) {
    Open(oldKek, oldBlob).Some? && Open(newKek, newBlob) == Open(oldKek, oldBlob)
  }

  class SigningKeyTable {
    const kek: Kek
    var rows: map<Id, KeyRow>

    constructor (kek: Kek, rows: map<Id, KeyRow>)
      ensures this.kek == kek && this.rows == rows
    {
      this.kek, this.rows := kek, rows;
    }

    /** The read loop: skip what opens, queue what parses, stop at the first row that is neither. */
    method ReadPlaintext() returns (bad: Option<Id>, queue: seq<Queued>)
      ensures bad.Some? ==> bad.value in rows && Der(kek, rows[bad.value].blob) == None
      ensures bad.None? ==> forall id :: id in rows ==> Der(kek, rows[id].blob).Some?
      ensures bad.None? ==> NoDuplicates(Ids(queue)) && (forall id :: id in Ids(queue) <==> id in Plaintext(rows))
      ensures forall i | 0 <= i < |queue| :: queue[i].id in rows && rows[queue[i].id].blob == Pkcs8(queue[i].raw)
    {
      var left := rows.Keys;
      queue := [];
      while left != {}
        invariant left <= rows.Keys
        invariant forall id :: id in rows && id !in left ==> Der(kek, rows[id].blob).Some?
        invariant forall i | 0 <= i < |queue| ::
          queue[i].id in rows && queue[i].id !in left && rows[queue[i].id].blob == Pkcs8(queue[i].raw)
        invariant forall id :: id in rows && id !in left && rows[id].blob.Pkcs8? ==> id in Ids(queue)
        invariant NoDuplicates(Ids(queue))
        decreases left
      {
        var id :| id in left;
        left := left - {id};
        var blob := rows[id].blob;
        if Open(kek, blob).None? {
          if !blob.Pkcs8? {
            return Some(id), queue;
          }
          assert Ids(queue + [Queued(id, blob.der)]) == Ids(queue) + [id];
          queue := queue + [Queued(id, blob.der)];
        }
      }
      bad := None;
    }

    /** One UPDATE per queued row, outside any transaction; `cut` is the number of updates after
        which the process dies or a statement fails. */
    method UpdateQueued(queue: seq<Queued>, cut: Option<nat>) returns (done: nat)
      requires NoDuplicates(Ids(queue))
      requires forall i | 0 <= i < |queue| :: queue[i].id in rows && rows[queue[i].id].blob == Pkcs8(queue[i].raw)
      modifies this
      ensures done == if cut.Some? && cut.value < |queue| then cut.value else |queue|
      ensures rows.Keys == old(rows).Keys
      ensures forall id :: id in rows && id in Ids(queue)[..done] ==> SealedInPlace(kek, old(rows)[id], rows[id])
      ensures forall id :: id in rows && id !in Ids(queue)[..done] ==> rows[id] == old(rows)[id]
    {
      done := 0;
      ghost var ids := Ids(queue);
      while done < |queue| && cut != Some(done)
        invariant done <= |queue| && (cut.Some? && cut.value < |queue| ==> done <= cut.value)
        invariant rows.Keys == old(rows).Keys
        invariant forall id :: id in rows && id in ids[..done] ==> SealedInPlace(kek, old(rows)[id], rows[id])
        invariant forall id :: id in rows && id !in ids[..done] ==> rows[id] == old(rows)[id]
      {
        var nonce: string := *;
        var id := queue[done].id;
        assert ids[done] == id && ids[..done + 1] == ids[..done] + [id];
        rows := rows[id := rows[id].(blob := Sealed(kek, nonce, queue[done].raw))];
        done := done + 1;
      }
    }

    method MigrateSigningKeyEncryption(cut: Option<nat>) returns (r: Migration)
      modifies this
      ensures SameKeys(kek, old(rows), rows) && rows.Keys == old(rows).Keys
      ensures forall id :: id in rows ==>
        || rows[id] == old(rows)[id]
        || (old(rows)[id].blob.Pkcs8? && rows[id] == old(rows)[id].(blob := rows[id].blob)
            && Open(kek, rows[id].blob) == Some(old(rows)[id].blob.der))
      ensures r.UnreadableRow? <==> exists id ::
        id in old(rows) && !old(rows)[id].blob.Pkcs8? && Open(kek, old(rows)[id].blob) == None
      ensures r.UnreadableRow? ==> rows == old(rows) && r.id in rows && Der(kek, rows[r.id].blob) == None
      ensures r.Migrated? ==> forall id :: id in rows ==> Open(kek, rows[id].blob).Some?
      ensures r.Migrated? ==> Plaintext(rows) == {}
      ensures r.Migrated? ==> r.count == |set id | id in old(rows) && old(rows)[id].blob.Pkcs8?|
      ensures r.CutShort? ==> r.updated + |Plaintext(rows)| == |Plaintext(old(rows))|
      ensures cut.None? ==> !r.CutShort?
      ensures AllSealed(kek, old(rows)) ==> r == Migrated(0) && rows == old(rows)
    {
      var bad, queue := ReadPlaintext();
      if bad.Some? {
        return UnreadableRow(bad.value);
      }
      ghost var before := rows;
      var done := UpdateQueued(queue, cut);
      PlaintextLeft(kek, before, rows, Ids(queue), done);
      if AllSealed(kek, before) {
        MigratedHasNoPlaintext(kek, before);
      }
      r := if done < |queue| then CutShort(done) else Migrated(|queue|);
    }

    /** Restart after restart: however many attempts are cut short, the first that completes leaves
        every row sealed with the same keys, and the updates of all attempts add up to the
        plaintext rows there were at the start. */
    method MigrateAcrossCrashes(cuts: seq<nat>) returns (r: Migration, total: nat)
      requires forall id :: id in rows ==> Der(kek, rows[id].blob).Some?
      modifies this
      ensures SameKeys(kek, old(rows), rows) && AllSealed(kek, rows) && r.Migrated?
      ensures total == |Plaintext(old(rows))|
    {
      total := 0;
      for i := 0 to |cuts|
        invariant SameKeys(kek, old(rows), rows)
        invariant total + |Plaintext(rows)| == |Plaintext(old(rows))|
      {
        var attempt := MigrateSigningKeyEncryption(Some(cuts[i]));
        total := total + (if attempt.CutShort? then attempt.updated
          else if attempt.Migrated? then attempt.count else 0);
      }
      r := MigrateSigningKeyEncryption(None);
      total := total + (if r.Migrated? then r.count else 0);
    }

    /** Encrypts and verifies by decrypting again, as both steps precede any UPDATE. */
    method SealChecked(newKek: Kek, der: string) returns (blob: Option<Blob>)
      ensures blob.Some? && Open(newKek, blob.value) == Some(der)
    {
      var nonce: string := *;
      var sealed := Sealed(newKek, nonce, der);
      blob := if Open(newKek, sealed) == Some(der) then Some(sealed) else None;
    }

    /** Reads, decrypts, re-encrypts and checks every row in memory; `readFault` is a row whose
        scan fails. */
    method StageRekey(newKek: Kek, readFault: Option<nat>) returns (pending: Option<map<Id, Blob>>)
      ensures pending.Some? ==> pending.value.Keys == rows.Keys
      ensures pending.Some? ==> forall id :: id in rows ==> Restated(kek, rows[id].blob, newKek, pending.value[id])
      ensures pending.Some? <==> AllSealed(kek, rows) && !Strikes(readFault, |rows|)
    {
      var left, staged: map<Id, Blob>, n := rows.Keys, map[], 0;
      while left != {}
        invariant left <= rows.Keys && n + |left| == |rows|
        invariant forall id :: id in staged <==> id in rows && id !in left
        invariant !Strikes(readFault, n)
        invariant forall id :: id in staged ==> Restated(kek, rows[id].blob, newKek, staged[id])
        decreases left
      {
        if readFault == Some(n) {
          return None;
        }
        var id :| id in left;
        left := left - {id};
        n := n + 1;
        var der := Open(kek, rows[id].blob);
        if der.None? {
          return None;
        }
        var newBlob := SealChecked(newKek, der.value);
        if newBlob.None? {
          return None;
        }
        staged := staged[id := newBlob.value];
      }
      pending := Some(staged);
    }

    /** All or nothing. `updateFault` is an UPDATE that fails, `commitFault` a failing commit; the
        transaction works on a staged copy. */
    method RekeySigningKeys(newKek: Kek, readFault: Option<nat>, updateFault: Option<nat>, commitFault: bool)
      returns (r: Option<nat>)
      modifies this
      ensures newKek == kek ==> r == Some(0) && rows == old(rows)
      ensures newKek != kek && r.Some? ==> r.value == |rows| && Rekeyed(old(rows), kek, rows, newKek)
      ensures newKek != kek && r.Some? ==> rows.Keys == old(rows).Keys && forall id :: id in rows ==>
        rows[id] == old(rows)[id].(blob := rows[id].blob) && Open(kek, old(rows)[id].blob).Some?
        && Open(newKek, rows[id].blob) == Open(kek, old(rows)[id].blob)
      ensures r.None? ==> rows == old(rows)
      ensures newKek != kek ==> (r.Some? <==>
        && (forall id :: id in old(rows) ==> Open(kek, old(rows)[id].blob).Some?)
        && (readFault.None? || |old(rows)| <= readFault.value)
        && (updateFault.None? || |old(rows)| <= updateFault.value)
        && (commitFault ==> old(rows) == map[]))
    {
      if newKek == kek {
        return Some(0);
      }
      var staged := StageRekey(newKek, readFault);
      if staged.None? {
        return None;
      }
      if |staged.value| == 0 {
        assert rows.Keys == {};
        return Some(0);
      }
      assert rows.Keys != {};
      r := ApplyPending(staged.value, updateFault, commitFault);
    }

    method ApplyPending(pending: map<Id, Blob>, updateFault: Option<nat>, commitFault: bool) returns (r: Option<nat>)
      requires pending.Keys == rows.Keys
      modifies this
      ensures r.None? ==> rows == old(rows)
      ensures r.Some? ==> r.value == |rows| && rows == map id | id in old(rows) :: old(rows)[id].(blob := pending[id])
      ensures r.Some? <==> !Strikes(updateFault, |old(rows)|) && !commitFault
    {
      var staged, left, n := rows, pending.Keys, 0;
      while left != {}
        invariant left <= pending.Keys && n == |pending.Keys| - |left| && staged.Keys == rows.Keys
        invariant !Strikes(updateFault, n)
        invariant forall id ::
          id in rows ==> staged[id] == if id in left then rows[id] else rows[id].(blob := pending[id])
        decreases left
      {
        if updateFault == Some(n) {
          return None;
        }
        var id :| id in left;
        left := left - {id};
        n := n + 1;
        staged := staged[id := staged[id].(blob := pending[id])];
      }
      if commitFault {
        return None;
      }
      rows := staged;
      r := Some(|pending|);
    }
  }

  /** The queue lists the plaintext rows once each, so after `done` updates the rest are left. */
  lemma PlaintextLeft(kek: Kek, before: map<Id, KeyRow>, after: map<Id, KeyRow>, ids: seq<Id>, done: nat)
    requires NoDuplicates(ids) && done <= |ids| && forall id :: id in ids <==> id in Plaintext(before)
    requires forall id :: id in before ==> Der(kek, before[id].blob).Some?
    requires after.Keys == before.Keys
    requires forall id :: id in after && id in ids[..done] ==> SealedInPlace(kek, before[id], after[id])
    requires forall id :: id in after && id !in ids[..done] ==> after[id] == before[id]
    ensures SameKeys(kek, before, after)
    ensures |Plaintext(before)| == |ids| && |Plaintext(after)| == |ids| - done
    ensures done == |ids| ==> AllSealed(kek, after) && Plaintext(after) == {}
  {
    hide SealedInPlace, SameKeys, AllSealed;
    StillSameKeys(kek, before, after, ids[..done]);
    DistinctCount(ids);
    DistinctCount(ids[..done]);
    var sealed := set id | id in ids[..done];
    assert Plaintext(before) == set id | id in ids;
    StillPlaintext(kek, before, after, ids[..done]);
    assert sealed <= Plaintext(before) by {
      assert forall id :: id in ids[..done] ==> id in ids;
    }
    if done == |ids| {
      assert ids[..done] == ids;
      NoPlaintextLeft(kek, after);
    }
  }

  lemma StillSameKeys(kek: Kek, before: map<Id, KeyRow>, after: map<Id, KeyRow>, done: seq<Id>)
    requires forall id :: id in before ==> Der(kek, before[id].blob).Some?
    requires after.Keys == before.Keys
    requires forall id :: id in after && id in done ==> SealedInPlace(kek, before[id], after[id])
    requires forall id :: id in after && id !in done ==> after[id] == before[id]
    ensures SameKeys(kek, before, after) && forall id :: id in after ==> Der(kek, after[id].blob).Some?
  {
  }

  lemma StillPlaintext(kek: Kek, before: map<Id, KeyRow>, after: map<Id, KeyRow>, done: seq<Id>)
    requires after.Keys == before.Keys
    requires forall id :: id in after && id in done ==> SealedInPlace(kek, before[id], after[id])
    requires forall id :: id in after && id !in done ==> after[id] == before[id]
    ensures Plaintext(after) == Plaintext(before) - set id | id in done
  {
  }

  lemma NoPlaintextLeft(kek: Kek, rows: map<Id, KeyRow>)
    requires Plaintext(rows) == {} && forall id :: id in rows ==> Der(kek, rows[id].blob).Some?
    ensures AllSealed(kek, rows)
  {
    forall id | id in rows
      ensures Open(kek, rows[id].blob).Some?
    {
      assert id !in Plaintext(rows);
    }
  }

  /** A second run on a migrated table has nothing to do. */
  lemma MigratedHasNoPlaintext(kek: Kek, rows: map<Id, KeyRow>)
    requires AllSealed(kek, rows)
    ensures |Plaintext(rows)| == 0
  {
    assert Plaintext(rows) == {};
  }

  /** Rekeyings compose, so going to a new KEK and back restores every plaintext. */
  lemma RekeyComposes(a: map<Id, KeyRow>, k1: Kek, b: map<Id, KeyRow>, k2: Kek, c: map<Id, KeyRow>, k3: Kek)
    requires Rekeyed(a, k1, b, k2) && Rekeyed(b, k2, c, k3)
    ensures Rekeyed(a, k1, c, k3)
  {
  }

  /** What the two tools are for: a service started on a fully sealed table never meets a key it
      cannot open, in any run. */
  lemma {:induction false} KeysStayReadable(run: Run, i: nat, j: nat)
    requires run.Legal() && i <= j < |run.worlds| && AllIssued(run.worlds[i])
    requires AllSealed(run.worlds[i].kek, run.worlds[i].db.keys)
    ensures AllSealed(run.worlds[j].kek, run.worlds[j].db.keys)
  {
    hide Apply, Enabled;
    if i < j {
      KeysStayReadable(run, i, j - 1);
      AllIssuedThroughout(run, i, j - 1);
      SealedStep(run.worlds[j - 1], run.events[j - 1]);
    }
  }

  lemma SealedStep(w: World, e: Event)
    requires AllIssued(w) && Enabled(w, e) && AllSealed(w.kek, w.db.keys)
    ensures AllSealed(Apply(w, e).kek, Apply(w, e).db.keys)
  {
  }
}
