/** Signing keys over whole runs: exactly one active key, no gap between keys, and every key
    that may have signed a live token published in the JWKS. */
module KeyRuns {
  import opened Wrappers
  import opened Rfc3339
  import opened Schema
  import opened World
  import opened Steps

  // ---- Exactly one active key ----

  /** What main's startup sequence establishes before requests are served. */
  ghost predicate Serving(w: World) {
    OneActiveKey(w.db.keys) && forall a :: a in w.locals ==> w.locals[a] != CreatingKey
  }

  /** A rotation leaves exactly its new key active, whatever was active before. */
  lemma RotationLeavesOne(w: World, e: Event)
    requires Enabled(w, e) && e.step.CommitRotation?
    ensures OnlyActiveKey(Apply(w, e).db.keys, e.step.id)
  {
  }

  lemma ServingKept(w: World, e: Event)
    requires AllIssued(w) && Serving(w) && Enabled(w, e)
    ensures Serving(Apply(w, e))
  {
    if e.step.CommitRotation? {
      RotationLeavesOne(w, e);
    }
  }

  /** Although get-or-create is a SELECT and a separate INSERT, no interleaving of any requests,
      rotations and restarts that starts from a served world leaves zero or two active keys. */
  lemma {:induction false} OneActiveKeyForever(run: Run, i: nat, j: nat)
    requires run.Legal() && i <= j < |run.worlds| && AllIssued(run.worlds[i]) && Serving(run.worlds[i])
    ensures Serving(run.worlds[j])
  {
    hide Apply, Enabled;
    if i < j {
      OneActiveKeyForever(run, i, j - 1);
      AllIssuedThroughout(run, i, j - 1);
      ServingKept(run.worlds[j - 1], run.events[j - 1]);
    }
  }

  /** Every run from here has exactly one active key in every world (a run's prefixes are runs). */
  ghost predicate AlwaysOneActive(w: World) {
    forall run: Run | run.Legal() && run.worlds[0] == w :: OneActiveKey(run.Last().db.keys)
  }

  /** Being served is exactly what it takes. */
  lemma ServingIsExact(w: World)
    requires AllIssued(w)
    ensures Serving(w) <==> AlwaysOneActive(w)
  {
    hide Apply, Enabled;
    if Serving(w) {
      forall run: Run | run.Legal() && run.worlds[0] == w
        ensures OneActiveKey(run.Last().db.keys)
      {
        OneActiveThroughout(run);
      }
    } else {
      var run := UnservedRun(w);
      assert run.Legal() && run.worlds[0] == w;
    }
  }

  lemma OneActiveThroughout(run: Run)
    requires run.Legal() && AllIssued(run.worlds[0]) && Serving(run.worlds[0])
    ensures OneActiveKey(run.Last().db.keys)
  {
    OneActiveKeyForever(run, 0, |run.worlds| - 1);
  }

  lemma FreeConnection(w: World) returns (run: Run)
    ensures run.Legal() && |run.worlds| == |run.events| + 1 && run.worlds[0] == w && run.Last() == w.(tx := None)
  {
    hide Apply, Enabled, Run.Legal;
    StartIsLegal(w);
    run := Run([w], []);
    if w.tx.Some? {
      var e := Event(w.tx.value.owner, Rollback);
      RollbackStep(w, e);
      ThenIsLegal(run, e);
      run := run.Then(e);
    }
  }

  /** A request about to insert a key does so, once any transaction has ended. */
  lemma UnservedRun(w: World) returns (run: Run)
    requires AllIssued(w) && !Serving(w)
    ensures run.Legal() && |run.worlds| == |run.events| + 1 && run.worlds[0] == w && !OneActiveKey(run.Last().db.keys)
  {
    hide Apply, Enabled, Run.Legal, OneActiveKey, Stamp;
    run := FreeConnection(w);
    if OneActiveKey(w.db.keys) {
      var a :| a in w.locals && w.locals[a] == CreatingKey;
      run := InsertSecond(run, a);
    }
  }

  lemma InsertSecond(run: Run, a: nat) returns (longer: Run)
    requires run.Legal() && |run.worlds| == |run.events| + 1 && AllIssued(run.Last()) && run.Last().tx == None
    requires Holds(run.Last(), a, CreatingKey) && OneActiveKey(run.Last().db.keys)
    ensures longer.Legal() && |longer.worlds| == |longer.events| + 1 && longer.worlds[0] == run.worlds[0]
    ensures !OneActiveKey(longer.Last().db.keys)
  {
    hide Apply, Enabled, Run.Legal, OneActiveKey, Stamp;
    var v := run.Last();
    var id := NewString(v.issued);
    var blob := Sealed(v.kek, "", "");
    var e := Event(a, InsertKey(id, blob, v.now));
    InsertKeyStep(v, a, id, blob, v.now);
    ThenIsLegal(run, e);
    longer := run.Then(e);
    SecondKey(v.db.keys, id, KeyRow(blob, Active, Stamp(v.now), None));
  }

  lemma TwoAreNotOne(keys: map<Id, KeyRow>, k1: Id, k2: Id)
    requires k1 != k2 && ActiveKey(keys, k1) && ActiveKey(keys, k2)
    ensures !OneActiveKey(keys)
  {
  }

  lemma SecondKey(keys: map<Id, KeyRow>, id: Id, row: KeyRow)
    requires OneActiveKey(keys) && id !in keys && row.status == Active
    ensures !OneActiveKey(keys[id := row])
  {
    var first :| first in keys && OnlyActiveKey(keys, first);
    assert ActiveKey(keys[id := row], first) && ActiveKey(keys[id := row], id);
  }

  /** Without the startup sequence the two steps do race: two requests on an empty table. */
  lemma TwoActiveKeysWithoutStartup(w: World, k1: string, k2: string, blob: Blob)
    returns (run: Run)
    requires w.tx == None && w.db.keys == map[] && w.locals == map[]
    requires k1 != k2 && Fresh(w, k1) && Fresh(w, k2) && Open(w.kek, blob).Some?
    ensures run.Legal() && run.worlds[0] == w && |run.events| == 4
    ensures ActiveKey(run.Last().db.keys, k1) && ActiveKey(run.Last().db.keys, k2)
    ensures !OneActiveKey(run.Last().db.keys)
  {
    hide Apply, Enabled, Run.Legal, Stamp, OneActiveKey;
    StartIsLegal(w);
    run := Run([w], []);
    SelectNoActiveKeyStep(w, 1);
    ThenIsLegal(run, Event(1, SelectNoActiveKey));
    run := run.Then(Event(1, SelectNoActiveKey));
    SelectNoActiveKeyStep(run.Last(), 2);
    ThenIsLegal(run, Event(2, SelectNoActiveKey));
    run := run.Then(Event(2, SelectNoActiveKey));
    InsertKeyStep(run.Last(), 1, k1, blob, w.now);
    ThenIsLegal(run, Event(1, InsertKey(k1, blob, w.now)));
    run := run.Then(Event(1, InsertKey(k1, blob, w.now)));
    InsertKeyStep(run.Last(), 2, k2, blob, w.now);
    ThenIsLegal(run, Event(2, InsertKey(k2, blob, w.now)));
    run := run.Then(Event(2, InsertKey(k2, blob, w.now)));
    TwoAreNotOne(run.Last().db.keys, k1, k2);
  }

  /** A key seen retired is the same retired row for the rest of the run. */
  lemma RetiredForever(run: Run, i: nat, j: nat, kid: Id)
    requires run.Legal() && i <= j < |run.worlds| && AllIssued(run.worlds[i])
    requires kid in run.worlds[i].db.keys && run.worlds[i].db.keys[kid].status == Retired
    ensures kid in run.worlds[j].db.keys && run.worlds[j].db.keys[kid] == run.worlds[i].db.keys[kid]
  {
    RunEvolves(run, i, j);
  }

  // ---- No gap between successive keys ----

  predicate InService(k: KeyRow, t: int) {
    k.createdAt <= t && (k.status == Active || (k.retiredAt.Some? && t <= k.retiredAt.value))
  }

  /** Every instant from `since` on lies in some key's [created_at, retired_at] interval. */
  predicate CoveredAt(keys: map<Id, KeyRow>, t: int) {
    exists id :: id in keys && InService(keys[id], t)
  }

  ghost predicate Covered(keys: map<Id, KeyRow>, since: int) {
    forall t :: since <= t ==> CoveredAt(keys, t)
  }

  lemma ActiveKeyCovers(keys: map<Id, KeyRow>, id: Id)
    requires ActiveKey(keys, id)
    ensures Covered(keys, keys[id].createdAt)
  {
    forall t | keys[id].createdAt <= t ensures CoveredAt(keys, t) {
      assert InService(keys[id], t);
    }
  }

  lemma CoveredKept(w: World, e: Event, since: int)
    requires AllIssued(w) && Enabled(w, e) && Covered(w.db.keys, since)
    ensures Covered(Apply(w, e).db.keys, since)
  {
    var v := Apply(w, e);
    StepKeysEvolve(w, e);
    forall t | since <= t ensures CoveredAt(v.db.keys, t) {
      assert CoveredAt(w.db.keys, t);
      var id :| id in w.db.keys && InService(w.db.keys[id], t);
      if e.step.CommitRotation? {
        StampMonotone(e.step.created, e.step.retired);
        assert InService(v.db.keys[id], t) || InService(v.db.keys[e.step.id], t);
      } else {
        assert InService(v.db.keys[id], t);
      }
    }
  }

  lemma {:induction false} CoveredThroughout(run: Run, i: nat, j: nat, since: int)
    requires run.Legal() && i <= j < |run.worlds| && AllIssued(run.worlds[i]) && Covered(run.worlds[i].db.keys, since)
    ensures Covered(run.worlds[j].db.keys, since)
  {
    hide Apply, Enabled;
    if i < j {
      CoveredThroughout(run, i, j - 1, since);
      AllIssuedThroughout(run, i, j - 1);
      CoveredKept(run.worlds[j - 1], run.events[j - 1], since);
    }
  }

  /** From the creation of any key on, the stored intervals of that key and its successors leave no
      instant out, in every later world. */
  lemma NoGapForever(run: Run, i: nat, j: nat, kid: Id)
    requires run.Legal() && i <= j < |run.worlds| && AllIssued(run.worlds[i]) && ActiveKey(run.worlds[i].db.keys, kid)
    ensures Covered(run.worlds[j].db.keys, run.worlds[i].db.keys[kid].createdAt)
  {
    ActiveKeyCovers(run.worlds[i].db.keys, kid);
    CoveredThroughout(run, i, j, run.worlds[i].db.keys[kid].createdAt);
  }

  /** The key a step creates, and when. */
  predicate Creates(step: Step, kid: Id, at: int) {
    (step.InsertKey? && step.id == kid && step.at == at) ||
    (step.CommitRotation? && step.id == kid && step.created == at)
  }

  lemma CreatedActive(w: World, e: Event, kid: Id, at: int)
    requires Enabled(w, e) && Creates(e.step, kid, at)
    ensures ActiveKey(Apply(w, e).db.keys, kid) && Apply(w, e).db.keys[kid].createdAt == Stamp(at)
  {
  }

  /** So from the first key a run creates, on an empty table or not, there is never a gap. */
  lemma NoGapSinceCreation(run: Run, k: nat, j: nat, kid: Id, at: int)
    requires run.Legal() && k < j < |run.worlds| && AllIssued(run.worlds[0]) && Creates(run.events[k].step, kid, at)
    ensures Covered(run.worlds[j].db.keys, Stamp(at))
  {
    hide Apply, Enabled;
    CreatedActive(run.worlds[k], run.events[k], kid, at);
    AllIssuedThroughout(run, 0, k + 1);
    NoGapForever(run, k + 1, j, kid);
  }

  // ---- Publication ----

  /** ListVerificationKeys' WHERE clause on whole seconds. */
  predicate Published(k: KeyRow, clock: int) {
    k.status == Active || (k.retiredAt.Some? && Stamp(clock - VERIFICATION_WINDOW) <= k.retiredAt.value)
  }

  /** The same clause as SQLite evaluates it, on the two RFC 3339 texts. */
  predicate PublishedByText(k: KeyRow, clock: int)
    requires Representable(clock - VERIFICATION_WINDOW)
    requires k.retiredAt.Some? ==> Representable(k.retiredAt.value)
  {
    k.status == Active || (k.retiredAt.Some? && TextLeq(Text(clock - VERIFICATION_WINDOW), Text(k.retiredAt.value)))
  }

  lemma PublishedMatchesText(k: KeyRow, clock: int)
    requires Representable(clock - VERIFICATION_WINDOW)
    requires k.retiredAt.Some? ==> Representable(k.retiredAt.value) && k.retiredAt.value % SECOND == 0
    ensures PublishedByText(k, clock) <==> Published(k, clock)
  {
    if k.retiredAt.Some? {
      TextOrder(clock - VERIFICATION_WINDOW, k.retiredAt.value);
    }
  }

  lemma TxStep(w: World, e: Event)
    requires Enabled(w, e)
    ensures Apply(w, e).tx.Some? ==> Apply(w, e).tx == w.tx || Apply(w, e).tx.value.began == w.now
  {
  }

  /** A transaction open now, when none was open at `i`, began after `i`. */
  lemma {:induction false} TxBeganSince(run: Run, i: nat, j: nat)
    requires run.Legal() && i <= j < |run.worlds| && AllIssued(run.worlds[i]) && run.worlds[i].tx == None
    ensures run.worlds[j].tx.Some? ==> run.worlds[i].now <= run.worlds[j].tx.value.began
  {
    hide Apply, Enabled;
    if i < j {
      TxBeganSince(run, i, j - 1);
      TxStep(run.worlds[j - 1], run.events[j - 1]);
      RunEvolves(run, i, j - 1);
    }
  }

  lemma RetirementStep(w: World, e: Event, kid: Id)
    requires AllIssued(w) && Enabled(w, e) && kid in w.db.keys
    ensures kid in Apply(w, e).db.keys
    ensures Apply(w, e).db.keys[kid] == w.db.keys[kid] || (
      && e.step.CommitRotation? && w.tx.Some? && w.tx.value.began <= e.step.retired
      && w.db.keys[kid].status == Active
      && Apply(w, e).db.keys[kid] == w.db.keys[kid].(status := Retired, retiredAt := Some(Stamp(e.step.retired))))
  {
  }

  /** A key read as active is retired, if ever, with a timestamp no older than the read. */
  lemma {:induction false} RetiredAfterRead(run: Run, f: nat, q: nat, kid: Id)
    requires run.Legal() && f <= q < |run.worlds| && AllIssued(run.worlds[f])
    requires run.worlds[f].tx == None && ActiveKey(run.worlds[f].db.keys, kid)
    ensures kid in run.worlds[q].db.keys
    ensures var k := run.worlds[q].db.keys[kid];
      k.status == Active || (k.retiredAt.Some? && Stamp(run.worlds[f].now) <= k.retiredAt.value)
  {
    hide Apply, Enabled;
    if f < q {
      RetiredAfterRead(run, f, q - 1, kid);
      TxBeganSince(run, f, q - 1);
      AllIssuedThroughout(run, f, q - 1);
      RetirementStep(run.worlds[q - 1], run.events[q - 1], kid);
      if run.events[q - 1].step.CommitRotation? && run.worlds[f].now <= run.events[q - 1].step.retired {
        StampMonotone(run.worlds[f].now, run.events[q - 1].step.retired);
      }
    }
  }

  /** A key read as active at world `f`, at instant t, stamps a token at `m`, at most `delay` later;
      a listing computes its cutoff at `c`, up to `slack` after the token's expiry, and runs its
      query at `q`, once the key exists. */
  ghost predicate Uses(run: Run, f: nat, m: nat, c: nat, q: nat, kid: Id, t: int, delay: int, slack: int) {
    && run.Legal() && f <= m < |run.worlds| && c <= q < |run.worlds| && AllIssued(run.worlds[0])
    && run.worlds[f].now == t && run.worlds[f].tx == None && ActiveKey(run.worlds[f].db.keys, kid)
    && run.worlds[m].now <= t + delay
    && run.worlds[c].now <= run.worlds[m].now + TOKEN_TTL + slack
    && kid in run.worlds[q].db.keys
  }

  /** A key read as active is in every listing whose cutoff is, in whole seconds, no later than the read. */
  lemma ReadKeyListed(run: Run, f: nat, c: nat, q: nat, kid: Id)
    requires run.Legal() && f < |run.worlds| && c <= q < |run.worlds| && AllIssued(run.worlds[0])
    requires run.worlds[f].tx == None && ActiveKey(run.worlds[f].db.keys, kid) && kid in run.worlds[q].db.keys
    requires Stamp(run.worlds[c].now - VERIFICATION_WINDOW) <= Stamp(run.worlds[f].now)
    ensures Published(run.worlds[q].db.keys[kid], run.worlds[c].now)
  {
    hide Apply, Enabled, Stamp;
    if q < f {
      AllIssuedThroughout(run, 0, q);
      RunEvolves(run, q, f);
    } else {
      AllIssuedThroughout(run, 0, f);
      RetiredAfterRead(run, f, q, kid);
    }
  }

  /** The overlap theorem. A key used within `delay` of being read as active is in every listing up
      to `slack` past the token's expiry, if delay + slack <= 15 min. */
  lemma Overlap(run: Run, f: nat, m: nat, c: nat, q: nat, kid: Id, delay: int, slack: int)
    requires f < |run.worlds| && Uses(run, f, m, c, q, kid, run.worlds[f].now, delay, slack)
    requires delay + slack <= 15 * MINUTE
    ensures Published(run.worlds[q].db.keys[kid], run.worlds[c].now)
  {
    StampMonotone(run.worlds[c].now - VERIFICATION_WINDOW, run.worlds[f].now);
    ReadKeyListed(run, f, c, q, kid);
  }

  lemma OthersRetired(w: World, e: Event, kid: Id)
    requires Enabled(w, e) && e.step.CommitRotation? && ActiveKey(w.db.keys, kid) && kid != e.step.id
    ensures kid in Apply(w, e).db.keys
    ensures Apply(w, e).db.keys[kid] == w.db.keys[kid].(status := Retired, retiredAt := Some(Stamp(e.step.retired)))
  {
  }

  /** The `exp` claim of a token stamped at this instant: a JWT holds whole seconds. */
  function Expiry(at: int): int { Stamp(at + TOKEN_TTL) }

  /** As Uses, but only for the listings a verifier needs: those with a cutoff computed while a verifier
      that tolerates `slack` still takes the token for unexpired. */
  ghost predicate Needs(run: Run, f: nat, m: nat, c: nat, q: nat, kid: Id, t: int, delay: nat, slack: nat) {
    && run.Legal() && f <= m < |run.worlds| && c <= q < |run.worlds| && Sound(run.worlds[0])
    && run.worlds[f].now == t && run.worlds[f].tx == None && ActiveKey(run.worlds[f].db.keys, kid)
    && run.worlds[m].now <= t + delay
    && run.worlds[c].now < Expiry(run.worlds[m].now) + slack
    && kid in run.worlds[q].db.keys
  }

  /** Every key read at instant t is listed for as long as any verifier of its tokens needs it. */
  ghost predicate OverlapAt(t: int, delay: nat, slack: nat) {
    forall run: Run, f: nat, m: nat, c: nat, q: nat, kid: Id ::
      Needs(run, f, m, c, q, kid, t, delay, slack) ==> Published(run.worlds[q].db.keys[kid], run.worlds[c].now)
  }

  /** What whole-second timestamps leave of 15 minutes for a key read at instant t. */
  predicate FitsWindow(t: int, delay: nat, slack: nat) {
    Stamp(t + delay) + slack <= Stamp(t) + 15 * MINUTE + SECOND
  }

  lemma NeededKeyListed(run: Run, f: nat, m: nat, c: nat, q: nat, kid: Id, t: int, delay: nat, slack: nat)
    requires Needs(run, f, m, c, q, kid, t, delay, slack) && FitsWindow(t, delay, slack)
    ensures Published(run.worlds[q].db.keys[kid], run.worlds[c].now)
  {
    hide Apply, Enabled, Run.Legal;
    StampMonotone(run.worlds[m].now, t + delay);
    StampShifts(run.worlds[m].now, TOKEN_TTL);
    StampBelow(run.worlds[c].now - VERIFICATION_WINDOW, t);
    ReadKeyListed(run, f, c, q, kid);
  }

  lemma FitsIsEnough(t: int, delay: nat, slack: nat)
    requires FitsWindow(t, delay, slack)
    ensures OverlapAt(t, delay, slack)
  {
    hide Run.Legal, FitsWindow, Sound;
    forall run: Run, f: nat, m: nat, c: nat, q: nat, kid: Id | Needs(run, f, m, c, q, kid, t, delay, slack)
      ensures Published(run.worlds[q].db.keys[kid], run.worlds[c].now)
    {
      NeededKeyListed(run, f, m, c, q, kid, t, delay, slack);
    }
  }

  /** Otherwise the last instant of need is past the cutoff of a key retired at t. */
  lemma UnfitIsLate(t: int, delay: nat, slack: nat)
    requires !FitsWindow(t, delay, slack)
    ensures Stamp(t) < Stamp(Expiry(t + delay) + slack - 1 - VERIFICATION_WINDOW)
  {
    StampShifts(t + delay, TOKEN_TTL);
    StampBelow(Expiry(t + delay) + slack - 1 - VERIFICATION_WINDOW, t);
  }

  /** A service with one sealed key, created at this instant. */
  function OneKeyWorld(t: int, horizon: int): World {
    World("kek", horizon, {}, t, None, {"a"},
          Tables(map[], map[], map[], map["a" := KeyRow(Sealed("kek", "", "der"), Active, Stamp(t), None)],
                 map[], map[], map[]),
          map[], map[])
  }

  /** The latest need of key "a" there: read, rotated out at once, used to stamp a token after the
      whole delay, and looked for at the last instant at which a verifier still takes that token. */
  lemma LatestNeed(t: int, delay: nat, slack: nat) returns (run: Run)
    requires VERIFICATION_WINDOW <= t && Representable(t + delay + TOKEN_TTL + slack)
    ensures Needs(run, 0, 3, 4, 4, "a", t, delay, slack)
    ensures |run.worlds| == 5 && run.worlds[4].now == Expiry(t + delay) + slack - 1
    ensures run.worlds[4].db.keys["a"].status == Retired && run.worlds[4].db.keys["a"].retiredAt == Some(Stamp(t))
  {
    hide Apply, Enabled, Run.Legal, Stamp, Representable;
    var last := Expiry(t + delay) + slack - 1;
    RepresentableBelow(last, t + delay + TOKEN_TTL + slack);
    var w := OneKeyWorld(t, last);
    StartIsLegal(w);
    run := Run([w], []);
    BeginStep(w, 1);
    ThenIsLegal(run, Event(1, Begin));
    run := run.Then(Event(1, Begin));
    var rotate := Event(1, CommitRotation("b", Sealed("kek", "", "next"), t, t));
    CommitRotationStep(run.Last(), 1, "b", Sealed("kek", "", "next"), t, t);
    OthersRetired(run.Last(), rotate, "a");
    ThenIsLegal(run, rotate);
    run := run.Then(rotate);
    run := WaitUntil(run, t + delay);
    run := WaitUntil(run, last);
  }

  lemma WaitUntil(run: Run, to: int) returns (longer: Run)
    requires run.Legal() && |run.worlds| > 0 && run.Last().now <= to <= run.Last().horizon
    ensures longer.Legal() && |longer.worlds| == |run.worlds| + 1 && longer.worlds[..|run.worlds|] == run.worlds
    ensures longer.Last() == run.Last().(now := to)
  {
    hide Apply, Enabled, Run.Legal;
    TickStep(run.Last(), 1, to);
    ThenIsLegal(run, Event(1, Tick(to)));
    longer := run.Then(Event(1, Tick(to)));
  }

  /** The exact condition for a key read at instant t, as long as the clock's four-digit years reach the
      last need. */
  lemma OverlapAtIff(t: int, delay: nat, slack: nat)
    requires VERIFICATION_WINDOW <= t && Representable(t + delay + TOKEN_TTL + slack)
    ensures OverlapAt(t, delay, slack) <==> FitsWindow(t, delay, slack)
  {
    hide Run.Legal, Apply, Enabled, Representable, FitsWindow, Sound;
    if FitsWindow(t, delay, slack) {
      FitsIsEnough(t, delay, slack);
    } else {
      var run := LatestNeed(t, delay, slack);
      UnfitIsLate(t, delay, slack);
      assert !Published(run.worlds[4].db.keys["a"], run.worlds[4].now);
    }
  }

  /** A duration rounded up to whole seconds. */
  function CeilSecond(d: nat): int { Stamp(d + SECOND - 1) }

  /** A delay ends at most that many whole seconds after the second it began in, and exactly that many if
      it begins in the last nanosecond of it. */
  lemma LongestDelay(t: int, delay: nat)
    ensures Stamp(t + delay) <= Stamp(t) + CeilSecond(delay)
    ensures t == Stamp(t) + SECOND - 1 ==> Stamp(t + delay) == Stamp(t) + CeilSecond(delay)
  {
    StampMonotone(t + delay, Stamp(t) + (delay + SECOND - 1));
    StampShifts(delay + SECOND - 1, Stamp(t));
  }

  /** Over all instants the overlap is exactly this: the delay counts in whole seconds begun, as a read in
      the last nanosecond of a second shows, and flooring gives one second back. Some such read must leave
      the clock its four-digit years. */
  lemma OverlapIff(delay: nat, slack: nat)
    requires Representable(VERIFICATION_WINDOW + SECOND + delay + TOKEN_TTL + slack)
    ensures (forall t :: OverlapAt(t, delay, slack)) <==> CeilSecond(delay) + slack <= 15 * MINUTE + SECOND
  {
    hide OverlapAt, Representable;
    if CeilSecond(delay) + slack <= 15 * MINUTE + SECOND {
      forall t
        ensures OverlapAt(t, delay, slack)
      {
        LongestDelay(t, delay);
        FitsIsEnough(t, delay, slack);
      }
    } else {
      var t := VERIFICATION_WINDOW + SECOND - 1;
      RepresentableBelow(t + delay + TOKEN_TTL + slack, t + 1 + delay + TOKEN_TTL + slack);
      LongestDelay(t, delay);
      OverlapAtIff(t, delay, slack);
    }
  }

  lemma RotationRetires(w: World, e: Event, kid: Id)
    requires AllIssued(w) && Enabled(w, e) && e.step.CommitRotation? && ActiveKey(w.db.keys, kid)
    ensures kid in Apply(w, e).db.keys
    ensures Apply(w, e).db.keys[kid] == w.db.keys[kid].(status := Retired, retiredAt := Some(Stamp(e.step.retired)))
  {
    hide Apply;
    OthersRetired(w, e, kid);
  }

  /** A rotated-out key is listed exactly until its retirement second leaves the window, so it is
      still listed 30 minutes after retirement and gone one second later. */
  lemma RetiredKeyLeaves(run: Run, b: nat, c: nat, q: nat, kid: Id)
    requires run.Legal() && b < |run.events| && b < q < |run.worlds| && c <= q
    requires AllIssued(run.worlds[b]) && run.events[b].step.CommitRotation?
    requires ActiveKey(run.worlds[b].db.keys, kid)
    ensures kid in run.worlds[q].db.keys
    ensures var retired, clock := run.events[b].step.retired, run.worlds[c].now;
      && (clock <= retired + 30 * MINUTE ==> Published(run.worlds[q].db.keys[kid], clock))
      && (retired + 30 * MINUTE + SECOND <= clock ==> !Published(run.worlds[q].db.keys[kid], clock))
  {
    hide Apply, Enabled;
    var retired, clock := run.events[b].step.retired, run.worlds[c].now;
    RotationRetires(run.worlds[b], run.events[b], kid);
    AllIssuedKept(run.worlds[b], run.events[b]);
    RetiredForever(run, b + 1, q, kid);
    if clock <= retired + VERIFICATION_WINDOW {
      StampMonotone(clock - VERIFICATION_WINDOW, retired);
    } else if retired + VERIFICATION_WINDOW + SECOND <= clock {
      StampMonotone(retired + SECOND, clock - VERIFICATION_WINDOW);
      assert Stamp(retired + SECOND) == Stamp(retired) + SECOND;
    }
  }
}
