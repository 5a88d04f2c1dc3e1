/** The invite-gated enrolment protocol over every interleaving of begin, finish and revoke. */
module EnrolmentRuns {
  import opened Wrappers
  import opened Rfc3339
  import opened Schema
  import opened World
  import opened Steps

  // ---- One terminal event per invite ----

  /** The invite that a step ends: a successful finish or a successful revocation. */
  function Ends(w: World, e: Event): Option<Digest> {
    match e.step
    case UseInvite(invite, _) => Some(invite)
    case CommitReplace(_, _, _) => if CanReplace(w, e.actor) then Some(w.locals[e.actor].invite) else None
    case _ => None
  }

  lemma EndStep(w: World, e: Event, h: Digest)
    requires Enabled(w, e) && Ends(w, e) == Some(h)
    ensures h in w.db.invites && w.db.invites[h].usedAt == None
    ensures h in Apply(w, e).db.invites && Apply(w, e).db.invites[h].usedAt.Some?
  {
  }

  /** Finish and revoke race, begins repeat, ceremonies expire: an invite ends at most once. */
  lemma OneTerminalEvent(run: Run, i: nat, j: nat, h: Digest)
    requires run.Legal() && AllIssued(run.worlds[0]) && i < |run.events| && j < |run.events|
    requires Ends(run.worlds[i], run.events[i]) == Some(h) && Ends(run.worlds[j], run.events[j]) == Some(h)
    ensures i == j
  {
    hide Apply, Enabled, Ends;
    EndStep(run.worlds[i], run.events[i], h);
    EndStep(run.worlds[j], run.events[j], h);
    if i < j {
      AllIssuedThroughout(run, 0, i + 1);
      RunEvolves(run, i + 1, j);
    } else if j < i {
      AllIssuedThroughout(run, 0, j + 1);
      RunEvolves(run, j + 1, i);
    }
  }

  // ---- The passkey belongs to the invite's contact ----

  predicate InviteFor(w: World, h: Digest, contact: string) {
    h in w.db.invites && w.db.invites[h].contact == contact
  }

  ghost predicate LocalBound(w: World, l: Local) {
    match l
    case CreatingKey => true
    case InviteFound(h, contact, expiresAt) => InviteFor(w, h, contact) && w.db.invites[h].expiresAt == expiresAt
    case BeginningEnrolment(h, contact, checked) => (
      InviteFor(w, h, contact) && checked <= w.db.invites[h].expiresAt && checked <= w.now)
    case FinishingEnrolment(h, contact) => InviteFor(w, h, contact)
    case ReplacingPasskey(h, p) => (
      && h in w.db.invites && p in w.issued
      && (p in w.db.principals ==> w.db.principals[p] == Principal(Human, w.db.invites[h].contact)))
  }

  /** Every in-flight and pending ceremony still carries its invite's own contact, and a principal
      about to receive a passkey, while it exists, is that contact's human principal. */
  ghost predicate Bound(w: World) {
    (forall h :: h in w.pending ==> InviteFor(w, h, w.pending[h].contact))
    && (forall a :: a in w.locals ==> LocalBound(w, w.locals[a]))
  }

  lemma LocalStaysBound(w: World, e: Event, l: Local)
    requires AllIssued(w) && Enabled(w, e) && LocalBound(w, l)
    ensures LocalBound(Apply(w, e), l)
  {
    hide Apply, Enabled;
    StepInvitesEvolve(w, e);
    StepPrincipalsEvolve(w, e);
    StepEvolves(w, e);
  }

  lemma OtherLocalsKept(w: World, e: Event, a: nat)
    requires Enabled(w, e) && a in Apply(w, e).locals && a != e.actor
    ensures a in w.locals && Apply(w, e).locals[a] == w.locals[a]
  {
  }

  lemma OwnLocalBound(w: World, e: Event)
    requires AllIssued(w) && Bound(w) && Enabled(w, e) && e.actor in Apply(w, e).locals
    ensures LocalBound(w, Apply(w, e).locals[e.actor])
  {
  }

  /** A begin, its checks passed, puts its ceremony for invite h. */
  predicate Puts(w: World, e: Event, h: Digest) {
    e.step.PutEnrolment? && e.actor in w.locals && w.locals[e.actor].BeginningEnrolment?
    && w.locals[e.actor].invite == h
  }

  lemma PendingComesFrom(w: World, e: Event, h: Digest)
    requires Enabled(w, e) && h in Apply(w, e).pending
    ensures (h in w.pending && Apply(w, e).pending[h] == w.pending[h])
      || (Puts(w, e, h) && Apply(w, e).pending[h] == Pending(w.locals[e.actor].contact, w.now + CHALLENGE_TTL))
  {
  }

  lemma BoundKept(w: World, e: Event)
    requires AllIssued(w) && Bound(w) && Enabled(w, e)
    ensures Bound(Apply(w, e))
  {
    hide Apply, Enabled;
    var v := Apply(w, e);
    StepInvitesEvolve(w, e);
    forall h | h in v.pending ensures InviteFor(v, h, v.pending[h].contact) {
      PendingComesFrom(w, e, h);
    }
    forall a | a in v.locals ensures LocalBound(v, v.locals[a]) {
      if a == e.actor {
        OwnLocalBound(w, e);
      } else {
        OtherLocalsKept(w, e, a);
      }
      LocalStaysBound(w, e, v.locals[a]);
    }
  }

  lemma {:induction false} BoundThroughout(run: Run, i: nat, j: nat)
    requires run.Legal() && i <= j < |run.worlds| && AllIssued(run.worlds[i]) && Bound(run.worlds[i])
    ensures Bound(run.worlds[j])
  {
    hide Apply, Enabled;
    if i < j {
      BoundThroughout(run, i, j - 1);
      AllIssuedThroughout(run, i, j - 1);
      BoundKept(run.worlds[j - 1], run.events[j - 1]);
    }
  }

  predicate PasskeyOf(c: Credential, p: Id) { c.principal == p && c.kind == WebAuthn }

  /** What a successful finish does: the invite's human principal has exactly the new passkey, its
      machine keys and every other principal's credentials are untouched, one invite is used, and
      no other table changes. */
  ghost predicate Swapped(w: World, v: World, h: Digest, p: Id, id: Id, data: string, at: int) {
    && h in w.db.invites && w.db.invites[h].usedAt == None && id !in w.db.credentials
    && p in w.db.principals && w.db.principals[p] == Principal(Human, w.db.invites[h].contact)
    && (forall c :: c in v.db.credentials && PasskeyOf(v.db.credentials[c], p) <==> c == id)
    && id in v.db.credentials && v.db.credentials[id] == Credential(p, WebAuthn, data, Stamp(at), None)
    && (forall c :: c in w.db.credentials && !PasskeyOf(w.db.credentials[c], p) ==>
        c in v.db.credentials && v.db.credentials[c] == w.db.credentials[c])
    && (forall c :: c in v.db.credentials && c != id ==> c in w.db.credentials)
    && h in v.db.invites && v.db.invites[h].usedAt == Some(Stamp(at))
    && v.db == w.db.(credentials := v.db.credentials, invites := w.db.invites[h := v.db.invites[h]])
    && v.db.invites[h] == w.db.invites[h].(usedAt := v.db.invites[h].usedAt)
  }

  lemma ReplaceSwaps(w: World, e: Event)
    requires AllIssued(w) && Bound(w) && Enabled(w, e) && e.step.CommitReplace?
    ensures CanReplace(w, e.actor)
    ensures Swapped(w, Apply(w, e), w.locals[e.actor].invite, w.locals[e.actor].principal, e.step.id, e.step.data,
                    e.step.at)
    ensures var v, h, p, id := Apply(w, e), w.locals[e.actor].invite, w.locals[e.actor].principal, e.step.id;
      && h in w.db.invites && w.db.invites[h].usedAt == None
      && p in w.db.principals && w.db.principals[p] == Principal(Human, w.db.invites[h].contact)
      && (forall c :: c in v.db.credentials ==>
            c == id || (c in w.db.credentials && v.db.credentials[c] == w.db.credentials[c]))
      && (forall c :: c in w.db.credentials ==>
            c in v.db.credentials || (w.db.credentials[c].principal == p && w.db.credentials[c].kind == WebAuthn))
      && (forall c :: c in v.db.credentials && c != id ==>
            v.db.credentials[c].principal != p || v.db.credentials[c].kind != WebAuthn)
      && v.db.credentials[id] == Credential(p, WebAuthn, e.step.data, Stamp(e.step.at), None)
      && v.db == w.db.(credentials := v.db.credentials,
                       invites := w.db.invites[h := w.db.invites[h].(usedAt := Some(Stamp(e.step.at)))])
  {
    assert e.step.id !in w.db.credentials;
  }

  /** In any run, a passkey row that appears was put there by the finish of an invite whose contact
      is the row's own principal, and appeared together with the whole swap. */
  lemma PasskeysComeFromInvites(run: Run, i: nat, id: Id)
    requires run.Legal() && AllIssued(run.worlds[0]) && Bound(run.worlds[0]) && i < |run.events|
    requires id in run.worlds[i + 1].db.credentials && run.worlds[i + 1].db.credentials[id].kind == WebAuthn
    requires id !in run.worlds[i].db.credentials
    ensures run.events[i].step.CommitReplace? && run.events[i].step.id == id
    ensures CanReplace(run.worlds[i], run.events[i].actor)
    ensures Swapped(run.worlds[i], run.worlds[i + 1], run.worlds[i].locals[run.events[i].actor].invite,
                    run.worlds[i + 1].db.credentials[id].principal, id, run.events[i].step.data,
                    run.events[i].step.at)
  {
    hide Enabled, Apply, Swapped;
    AllIssuedThroughout(run, 0, i);
    BoundThroughout(run, 0, i);
    NewPasskeyStep(run.worlds[i], run.events[i], id);
    ReplaceSwaps(run.worlds[i], run.events[i]);
  }

  lemma NewPasskeyStep(w: World, e: Event, id: Id)
    requires Enabled(w, e) && id in Apply(w, e).db.credentials
    ensures id in w.db.credentials || Apply(w, e).db.credentials[id].kind == MachineKey
      || (e.step.CommitReplace? && e.step.id == id && e.actor in w.locals && w.locals[e.actor].ReplacingPasskey?
          && Apply(w, e).db.credentials[id].principal == w.locals[e.actor].principal)
  {
  }

  // ---- How long after the begin a swap can land ----

  /** A pending ceremony was put at an earlier event, and expires 60 seconds after it. */
  lemma {:induction false} PutBefore(run: Run, i: nat, h: Digest) returns (k: nat)
    requires run.Legal() && i < |run.worlds| && run.worlds[0].pending == map[] && h in run.worlds[i].pending
    ensures k < i && Puts(run.worlds[k], run.events[k], h)
    ensures run.worlds[i].pending[h] ==
      Pending(run.worlds[k].locals[run.events[k].actor].contact, run.worlds[k].now + CHALLENGE_TTL)
  {
    hide Apply, Enabled, Puts;
    PendingComesFrom(run.worlds[i - 1], run.events[i - 1], h);
    if h in run.worlds[i - 1].pending && run.worlds[i].pending[h] == run.worlds[i - 1].pending[h] {
      k := PutBefore(run, i - 1, h);
    } else {
      k := i - 1;
    }
  }

  /** The request is past taking the ceremony of invite h. */
  predicate Finishing(w: World, a: nat, h: Digest) {
    a in w.locals && (w.locals[a].FinishingEnrolment? || w.locals[a].ReplacingPasskey?) && w.locals[a].invite == h
  }

  lemma FinishingStep(w: World, e: Event, a: nat, h: Digest)
    requires Enabled(w, e) && Finishing(Apply(w, e), a, h)
    ensures Finishing(w, a, h) || (e == Event(a, TakeEnrolment(h)) && h in w.pending && w.now <= w.pending[h].expiresAt)
  {
  }

  lemma {:induction false} TakeBefore(run: Run, i: nat, a: nat, h: Digest) returns (t: nat)
    requires run.Legal() && i < |run.worlds| && run.worlds[0].locals == map[] && Finishing(run.worlds[i], a, h)
    ensures t < i && run.events[t] == Event(a, TakeEnrolment(h))
    ensures h in run.worlds[t].pending && run.worlds[t].now <= run.worlds[t].pending[h].expiresAt
  {
    hide Apply, Enabled;
    FinishingStep(run.worlds[i - 1], run.events[i - 1], a, h);
    if Finishing(run.worlds[i - 1], a, h) {
      t := TakeBefore(run, i - 1, a, h);
    } else {
      t := i - 1;
    }
  }

  /** One enrolment from begin to swap: a begin whose expiry check read the clock at `checked` puts the
      ceremony, a finish takes that ceremony in time, and the same finish commits the swap. */
  ghost predicate Ceremony(run: Run, put: nat, take: nat, swap: nat, h: Digest, checked: int) {
    && run.Legal() && put < take < swap < |run.events|
    && Puts(run.worlds[put], run.events[put], h) && run.worlds[put].locals[run.events[put].actor].checked == checked
    && run.events[take].step == TakeEnrolment(h) && h in run.worlds[take].pending
    && run.worlds[take].now <= run.worlds[take].pending[h].expiresAt == run.worlds[put].now + CHALLENGE_TTL
    && run.events[swap].actor == run.events[take].actor && run.events[swap].step.CommitReplace?
    && Ends(run.worlds[swap], run.events[swap]) == Some(h)
  }

  /** Time spent after the expiry check and before the put, and after the take and before the commit. */
  ghost predicate Delays(run: Run, put: nat, take: nat, swap: nat, checked: int, begin: int, finish: int) {
    && put < |run.worlds| && take < |run.worlds| && swap < |run.worlds|
    && run.worlds[put].now <= checked + begin && run.worlds[swap].now <= run.worlds[take].now + finish
  }

  /** Every swap of a run is the end of such a ceremony. */
  lemma SwapHasCeremony(run: Run, swap: nat, h: Digest) returns (put: nat, take: nat, checked: int)
    requires run.Legal() && swap < |run.events| && run.worlds[0].pending == map[] && run.worlds[0].locals == map[]
    requires run.events[swap].step.CommitReplace? && Ends(run.worlds[swap], run.events[swap]) == Some(h)
    ensures Ceremony(run, put, take, swap, h, checked)
  {
    hide Apply, Enabled;
    take := TakeBefore(run, swap, run.events[swap].actor, h);
    put := PutBefore(run, take, h);
    checked := run.worlds[put].locals[run.events[put].actor].checked;
  }

  /** The begin's check passed on the invite's expiry, so the swap lands at most 60 seconds and the two
      delays after the check, and as much after the invite's expiry. */
  lemma SwapDeadline(run: Run, put: nat, take: nat, swap: nat, h: Digest, checked: int, begin: int, finish: int)
    requires Ceremony(run, put, take, swap, h, checked) && Delays(run, put, take, swap, checked, begin, finish)
    requires AllIssued(run.worlds[0]) && Bound(run.worlds[0])
    ensures h in run.worlds[swap].db.invites && checked <= run.worlds[swap].db.invites[h].expiresAt
    ensures run.worlds[swap].now <= checked + begin + 60 * SECOND + finish
    ensures run.worlds[swap].now <= run.worlds[swap].db.invites[h].expiresAt + begin + 60 * SECOND + finish
  {
    hide Apply, Enabled;
    BoundThroughout(run, 0, put);
    assert LocalBound(run.worlds[put], run.worlds[put].locals[run.events[put].actor]);
    AllIssuedThroughout(run, 0, put);
    RunEvolves(run, put, swap);
  }

  // ---- Exactly when a begin is early enough ----

  /** No finish of a begin that checks the invite at this instant, in any run from here with these
      delays, lands after the invite's expiry. */
  ghost predicate AlwaysInTime(w: World, h: Digest, begin: nat, finish: nat)
    requires h in w.db.invites
  {
    forall run: Run, put: nat, take: nat, swap: nat ::
      Ceremony(run, put, take, swap, h, w.now) && run.worlds[0] == w
      && Delays(run, put, take, swap, w.now, begin, finish)
      ==> run.worlds[swap].now <= w.db.invites[h].expiresAt
  }

  /** An unused, unexpired invite for a contact that has a principal, and a free connection. */
  predicate Enrollable(w: World, h: Digest, p: Id) {
    && h in w.db.invites && w.db.invites[h].usedAt == None && w.now <= w.db.invites[h].expiresAt
    && p in w.db.principals && w.db.principals[p] == Principal(Human, w.db.invites[h].contact) && w.tx == None
  }

  /** From a valid invite: check it at once, wait out the delay, put the ceremony. */
  lemma LatestPut(w: World, me: nat, h: Digest, p: Id, begin: nat) returns (run: Run)
    requires Enrollable(w, h, p) && me !in w.locals && w.now + begin <= w.horizon
    ensures run.Legal() && |run.events| == 4 && |run.worlds| == 5
    ensures run.worlds[0] == w && run.worlds[3].now == w.now + begin
    ensures Puts(run.worlds[3], run.events[3], h) && run.worlds[3].locals[run.events[3].actor].checked == w.now
    ensures run.worlds[4] == w.(now := w.now + begin, pending := run.worlds[4].pending) && h in run.worlds[4].pending
    ensures run.worlds[4].pending[h] == Pending(w.db.invites[h].contact, w.now + begin + CHALLENGE_TTL)
  {
    hide Apply, Enabled, Run.Legal;
    var contact := w.db.invites[h].contact;
    StartIsLegal(w);
    run := Run([w], []);
    ReadInviteStep(w, me, h);
    run := Extended(run, Event(me, ReadInvite(h)));
    CheckInviteStep(run.Last(), me, h, contact, w.db.invites[h].expiresAt);
    run := Extended(run, Event(me, CheckInvite));
    TickStep(run.Last(), me, w.now + begin);
    run := Extended(run, Event(me, Tick(w.now + begin)));
    PutEnrolmentStep(run.Last(), me, h, contact, w.now);
    run := Extended(run, Event(me, PutEnrolment));
    assert run.Last().locals == w.locals;
  }

  /** Then take it at its last instant. */
  lemma LatestTake(w: World, me: nat, h: Digest, p: Id, begin: nat) returns (run: Run)
    requires Enrollable(w, h, p) && me !in w.locals && w.now + begin + CHALLENGE_TTL <= w.horizon
    ensures run.Legal() && |run.events| == 6 && |run.worlds| == 7
    ensures run.worlds[0] == w && run.worlds[3].now == w.now + begin
    ensures Puts(run.worlds[3], run.events[3], h) && run.worlds[3].locals[run.events[3].actor].checked == w.now
    ensures run.events[5] == Event(me, TakeEnrolment(h)) && h in run.worlds[5].pending
    ensures run.worlds[5].now == run.worlds[5].pending[h].expiresAt == w.now + begin + CHALLENGE_TTL
    ensures run.worlds[6] == w.(now := w.now + begin + CHALLENGE_TTL, pending := run.worlds[6].pending,
                                locals := w.locals[me := FinishingEnrolment(h, w.db.invites[h].contact)])
  {
    hide Apply, Enabled, Run.Legal, Puts;
    run := LatestPut(w, me, h, p, begin);
    TickStep(run.Last(), me, w.now + begin + CHALLENGE_TTL);
    run := Extended(run, Event(me, Tick(w.now + begin + CHALLENGE_TTL)));
    TakeEnrolmentStep(run.Last(), me, h);
    run := Extended(run, Event(me, TakeEnrolment(h)));
  }

  lemma Extended(run: Run, e: Event) returns (longer: Run)
    requires run.Legal() && |run.worlds| > 0 && Enabled(run.Last(), e)
    ensures longer.Legal() && run.Prefix(longer) && |longer.worlds| == |longer.events| + 1
    ensures |longer.events| == |run.events| + 1 && longer.events[|run.events|] == e
    ensures longer.Last() == Apply(run.Last(), e)
  {
    ThenIsLegal(run, e);
    longer := run.Then(e);
  }

  /** Then resolve, wait out the other delay, and begin the transaction. */
  lemma BeginAfter(took: Run, me: nat, h: Digest, p: Id, finish: nat) returns (run: Run)
    requires took.Legal() && |took.worlds| == |took.events| + 1 && took.Last().now + finish <= took.Last().horizon
    requires h in took.Last().db.invites && took.Last().tx == None
    requires Holds(took.Last(), me, FinishingEnrolment(h, took.Last().db.invites[h].contact))
    requires p in took.Last().db.principals
    requires took.Last().db.principals[p] == Principal(Human, took.Last().db.invites[h].contact)
    ensures run.Legal() && took.Prefix(run) && |run.worlds| == |run.events| + 1 && |run.events| == |took.events| + 3
    ensures var w, end := took.Last(), took.Last().now + finish;
      run.Last() == w.(now := end, tx := Some(Tx(me, end)), locals := w.locals[me := ReplacingPasskey(h, p)])
  {
    hide Apply, Enabled, Run.Legal;
    var w, end := took.Last(), took.Last().now + finish;
    run := took;
    ResolveEnrolmentStep(w, me, h, w.db.invites[h].contact, p);
    run := Extended(run, Event(me, ResolveEnrolment(p)));
    TickStep(run.Last(), me, end);
    run := Extended(run, Event(me, Tick(end)));
    BeginStep(run.Last(), me);
    run := Extended(run, Event(me, Begin));
  }

  /** And swap. */
  lemma SwapNow(run: Run, me: nat, h: Digest, p: Id) returns (longer: Run)
    requires run.Legal() && |run.worlds| == |run.events| + 1 && Owns(run.Last(), me)
    requires run.Last().tx.value.began <= run.Last().now && Holds(run.Last(), me, ReplacingPasskey(h, p))
    requires CanReplace(run.Last(), me)
    ensures longer.Legal() && run.Prefix(longer) && |longer.worlds| == |longer.events| + 1
    ensures |longer.events| == |run.events| + 1
    ensures var k := |run.events|;
      longer.events[k].actor == me && longer.events[k].step.CommitReplace?
      && Ends(longer.worlds[k], longer.events[k]) == Some(h) && longer.worlds[k] == run.Last()
  {
    hide Apply, Enabled, Run.Legal;
    var w := run.Last();
    var id := NewString(w.issued);
    CommitReplaceStep(w, me, id, "", w.now);
    longer := Extended(run, Event(me, CommitReplace(id, "", w.now)));
    assert longer.worlds[|run.events|] == run.worlds[|run.events|];
  }

  lemma LatestSwap(w: World, me: nat, h: Digest, p: Id, begin: nat, finish: nat) returns (run: Run)
    requires Enrollable(w, h, p) && me !in w.locals && w.now + begin + CHALLENGE_TTL + finish <= w.horizon
    ensures Ceremony(run, 3, 5, 9, h, w.now) && run.worlds[0] == w && Delays(run, 3, 5, 9, w.now, begin, finish)
    ensures run.worlds[9].now == w.now + begin + CHALLENGE_TTL + finish
  {
    hide Apply, Enabled, Run.Legal, Puts, Ends;
    var took := LatestTake(w, me, h, p, begin);
    ghost var begun := BeginAfter(took, me, h, p, finish);
    run := SwapNow(begun, me, h, p);
    assert begun.worlds[5] == run.worlds[5] && begun.worlds[3] == run.worlds[3] && begun.worlds[0] == run.worlds[0];
    assert begun.events[5] == run.events[5] && begun.events[3] == run.events[3];
    assert took.worlds[5] == run.worlds[5] && took.worlds[3] == run.worlds[3] && took.worlds[0] == run.worlds[0];
    assert took.events[5] == run.events[5] && took.events[3] == run.events[3];
    assert Ceremony(run, 3, 5, 9, h, w.now);
  }

  function From(actors: set<nat>, n: nat): set<nat> { set x | x in actors && n <= x }

  lemma NewActor(actors: set<nat>) returns (n: nat)
    ensures n !in actors
  {
    n := 0;
    while n in actors
      decreases |From(actors, n)|
    {
      StrictSubsetSmaller(From(actors, n + 1), From(actors, n), n);
      n := n + 1;
    }
  }

  /** A begin is early enough if and only if its check leaves 60 seconds and both delays before the
      invite's expiry. Otherwise a run from the valid invite consumes it too late, since the swap
      checks used_at and not the expiry. */
  lemma InTimeIff(w: World, h: Digest, p: Id, begin: nat, finish: nat)
    requires AllIssued(w) && Bound(w) && Enrollable(w, h, p) && w.now + begin + CHALLENGE_TTL + finish <= w.horizon
    ensures AlwaysInTime(w, h, begin, finish) <==> w.now + begin + 60 * SECOND + finish <= w.db.invites[h].expiresAt
  {
    hide Bound, AllIssued, Apply, Enabled;
    if w.now + begin + 60 * SECOND + finish <= w.db.invites[h].expiresAt {
      forall run: Run, put: nat, take: nat, swap: nat
        | Ceremony(run, put, take, swap, h, w.now) && run.worlds[0] == w
          && Delays(run, put, take, swap, w.now, begin, finish)
        ensures run.worlds[swap].now <= w.db.invites[h].expiresAt
      {
        SwapDeadline(run, put, take, swap, h, w.now, begin, finish);
      }
    } else {
      var me := NewActor(w.locals.Keys);
      var run := LatestSwap(w, me, h, p, begin, finish);
      assert Ceremony(run, 3, 5, 9, h, w.now);
    }
  }
}
