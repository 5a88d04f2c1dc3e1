/** The pending enrolments of the state machine are the enrolment map of the ceremony store: between
    two restarts they follow its operations, and so its history specification. */
module CeremonyRuns {
  import opened Schema
  import opened World
  import C = Ceremonies

  function Slots(pending: map<Digest, Pending>): map<string, C.Slot<string>> {
    map h | h in pending :: h.raw := C.Slot(pending[h].contact, pending[h].expiresAt)
  }

  /** The store operation a step performs. A take that finds the ceremony expired still deletes it. */
  function ActOf(w: World, e: Event): seq<C.Act<string>>
    requires Enabled(w, e)
  {
    match e.step
    case PutEnrolment => [C.Put(w.locals[e.actor].invite.raw, w.locals[e.actor].contact, w.now, w.now)]
    case TakeEnrolment(h) => [C.Take(h.raw, w.now)]
    case DropEnrolment(h) => [C.Take(h.raw, w.now)]
    case SweepEnrolments => [C.Sweep(w.now)]
    case _ => []
  }

  lemma SlotAt(pending: map<Digest, Pending>, h: Digest)
    ensures h.raw in Slots(pending) <==> h in pending
    ensures h in pending ==> Slots(pending)[h.raw] == C.Slot(pending[h].contact, pending[h].expiresAt)
  {
    if h.raw in Slots(pending) {
      var g :| g in pending && g.raw == h.raw;
      assert g == h;
    }
  }

  lemma SlotsOfSweep(pending: map<Digest, Pending>, now: int)
    ensures Slots(Unexpired(pending, now)) == C.Unexpired(Slots(pending), now)
  {
    hide Slots;
    forall raw: string
      ensures raw in Slots(Unexpired(pending, now)) <==> raw in C.Unexpired(Slots(pending), now)
      ensures raw in C.Unexpired(Slots(pending), now) ==>
        Slots(Unexpired(pending, now))[raw] == C.Unexpired(Slots(pending), now)[raw]
    {
      SlotAt(pending, Digest(raw));
      SlotAt(Unexpired(pending, now), Digest(raw));
    }
  }

  lemma SlotsOfPut(pending: map<Digest, Pending>, h: Digest, p: Pending)
    ensures Slots(pending[h := p]) == Slots(pending)[h.raw := C.Slot(p.contact, p.expiresAt)]
  {
    hide Slots;
    var a, b := Slots(pending[h := p]), Slots(pending)[h.raw := C.Slot(p.contact, p.expiresAt)];
    forall raw: string
      ensures raw in a <==> raw in b
      ensures raw in a ==> a[raw] == b[raw]
    {
      SlotAt(pending, Digest(raw));
      SlotAt(pending[h := p], Digest(raw));
    }
  }

  lemma SlotsOfTake(pending: map<Digest, Pending>, h: Digest)
    ensures Slots(pending - {h}) == Slots(pending) - {h.raw}
  {
    hide Slots;
    forall raw: string
      ensures raw in Slots(pending - {h}) <==> raw in Slots(pending) - {h.raw}
      ensures raw in Slots(pending - {h}) ==> Slots(pending - {h})[raw] == (Slots(pending) - {h.raw})[raw]
    {
      SlotAt(pending, Digest(raw));
      SlotAt(pending - {h}, Digest(raw));
    }
  }

  /** Each step does to the pending enrolments what its store operation does to the map. */
  lemma PendingStep(w: World, e: Event)
    requires Enabled(w, e) && e.step != Restart
    ensures Slots(PendingAfter(w, e))
         == if ActOf(w, e) == [] then Slots(w.pending) else C.SlotsAfter(Slots(w.pending), ActOf(w, e)[0])
  {
    hide Slots;
    match e.step
    case PutEnrolment =>
      var l := w.locals[e.actor];
      SlotsOfPut(w.pending, l.invite, Pending(l.contact, w.now + CHALLENGE_TTL));
      SlotsOfSweep(w.pending[l.invite := Pending(l.contact, w.now + CHALLENGE_TTL)], w.now);
    case TakeEnrolment(h) => SlotsOfTake(w.pending, h);
    case DropEnrolment(h) => SlotsOfTake(w.pending, h);
    case SweepEnrolments => SlotsOfSweep(w.pending, w.now);
    case _ =>
  }

  lemma ActTimes(w: World, e: Event)
    requires Enabled(w, e)
    ensures Apply(w, e).pending == PendingAfter(w, e) && w.now <= Apply(w, e).now
    ensures |ActOf(w, e)| <= 1
    ensures (ActOf(w, e) != [] ==> C.Begins(ActOf(w, e)[0]) == w.now == C.Finishes(ActOf(w, e)[0]))
  {
  }

  /** The store operations of a stretch of a run. */
  ghost function Acts(run: Run, i: nat, j: nat): seq<C.Act<string>>
    requires run.Legal() && i <= j < |run.worlds|
  {
    if i == j then [] else Acts(run, i, j - 1) + ActOf(run.worlds[j - 1], run.events[j - 1])
  }

  ghost predicate NoRestart(run: Run, i: nat, j: nat) {
    forall k | i <= k < j && k < |run.events| :: run.events[k].step != Restart
  }

  lemma {:induction false} PendingFollowsStore(run: Run, i: nat, j: nat)
    requires run.Legal() && i <= j < |run.worlds| && run.worlds[i].pending == map[] && NoRestart(run, i, j)
    ensures C.AgreesEverywhere(Slots(run.worlds[j].pending), Acts(run, i, j), run.worlds[j].now)
  {
    hide Apply, Enabled, ActOf, C.SlotsAfter, C.AgreesEverywhere, Slots, PendingAfter;
    if i == j {
      NothingPending(run.worlds[i].now);
    } else {
      var w, e := run.worlds[j - 1], run.events[j - 1];
      PendingFollowsStore(run, i, j - 1);
      PendingStep(w, e);
      ActTimes(w, e);
      var act := ActOf(w, e);
      if act != [] {
        C.AgreeStep(Slots(w.pending), Acts(run, i, j - 1), act[0], w.now);
        assert act == [act[0]];
      } else {
        assert Acts(run, i, j) == Acts(run, i, j - 1);
      }
      C.Later(Slots(run.worlds[j].pending), Acts(run, i, j), w.now, run.worlds[j].now);
    }
  }

  lemma NothingPending(now: int)
    ensures C.AgreesEverywhere(Slots(map[]), [], now)
  {
    assert Slots(map[]) == map[];
  }

  /** A finish finds contact v pending exactly when the last put of its invite's ceremony since the
      service started carried v, nothing has taken it since, and it is at most 60 seconds old. */
  lemma PendingIsDue(run: Run, i: nat, j: nat, h: Digest, v: string)
    requires run.Legal() && i <= j < |run.worlds| && run.worlds[i].pending == map[] && NoRestart(run, i, j)
    ensures var w := run.worlds[j];
      (h in w.pending && w.pending[h].contact == v && w.now <= w.pending[h].expiresAt)
      <==> C.Due(Acts(run, i, j), h.raw, w.now, v)
  {
    hide Apply, Enabled, C.Due;
    var w := run.worlds[j];
    PendingFollowsStore(run, i, j);
    assert C.Agrees(Slots(w.pending), Acts(run, i, j), h.raw, w.now);
    C.DueIsTheSlot(Slots(w.pending), Acts(run, i, j), h.raw, w.now, v);
    SlotAt(w.pending, h);
  }
}
