/** The in-memory store of pending WebAuthn ceremonies: two timed maps, one for logins and one for
    enrolments. Every operation runs under the mutex, so operations are totally ordered and the
    clock readings inside and between them never go back. */
module Ceremonies {
  import opened Wrappers
  import opened Rfc3339
  import opened Schema

  datatype Slot<V> = Slot(value: V, expiresAt: int)

  /** What an enrolment ceremony carries besides the library's session data. */
  datatype Enrolment<D> = Enrolment(data: D, contactId: string)

  /** One operation on one of the two maps. A put reads the clock twice: for the expiry, then for
      the opportunistic cleanup. */
  datatype Act<V> = Put(key: string, value: V, at: int, cleanedAt: int) | Take(key: string, at: int) | Sweep(at: int)

  /** One operation on the store. */
  datatype Call<D> = Login(login: Act<D>) | Enrol(enrol: Act<Enrolment<D>>) | SweepBoth(at: int)

  function Begins<V>(act: Act<V>): int { act.at }

  function Finishes<V>(act: Act<V>): int { if act.Put? then act.cleanedAt else act.at }

  function Starts<D>(call: Call<D>): int {
    match call
    case Login(a) => Begins(a)
    case Enrol(a) => Begins(a)
    case SweepBoth(at) => at
  }

  function Stops<D>(call: Call<D>): int {
    match call
    case Login(a) => Finishes(a)
    case Enrol(a) => Finishes(a)
    case SweepBoth(at) => at
  }

  // ---- The history specification: no sweeps, no cleanup, one map at a time ----

  /** The i-th act put `key`, and no later act put or took it. */
  ghost predicate LatestPut<V>(acts: seq<Act<V>>, key: string, i: nat) {
    && i < |acts| && acts[i].Put? && acts[i].key == key
    && forall j | i < j < |acts| :: !Touches(acts[j], key)
  }

  predicate Touches<V>(act: Act<V>, key: string) { !act.Sweep? && act.key == key }

  /** A take of `key` at `now` gets v exactly when v is the latest put under key, nothing has taken it
      since, and it is no more than 60 seconds old. */
  ghost predicate Due<V>(acts: seq<Act<V>>, key: string, now: int, v: V) {
    exists i: nat :: LatestPut(acts, key, i) && acts[i].value == v && now <= acts[i].at + CHALLENGE_TTL
  }

  function LoginPart<D>(call: Call<D>): seq<Act<D>> {
    match call case Login(a) => [a] case Enrol(_) => [] case SweepBoth(at) => [Sweep(at)]
  }

  function EnrolPart<D>(call: Call<D>): seq<Act<Enrolment<D>>> {
    match call case Login(_) => [] case Enrol(a) => [a] case SweepBoth(at) => [Sweep(at)]
  }

  function LoginActs<D>(calls: seq<Call<D>>): seq<Act<D>> {
    if calls == [] then [] else LoginActs(calls[..|calls| - 1]) + LoginPart(calls[|calls| - 1])
  }

  function EnrolActs<D>(calls: seq<Call<D>>): seq<Act<Enrolment<D>>> {
    if calls == [] then [] else EnrolActs(calls[..|calls| - 1]) + EnrolPart(calls[|calls| - 1])
  }

  // ---- One map, act by act ----

  function Unexpired<V>(slots: map<string, Slot<V>>, now: int): map<string, Slot<V>> {
    map k | k in slots && !(now > slots[k].expiresAt) :: slots[k]
  }

  function SlotsAfter<V>(slots: map<string, Slot<V>>, act: Act<V>): map<string, Slot<V>> {
    match act
    case Put(key, value, at, cleanedAt) => Unexpired(slots[key := Slot(value, at + CHALLENGE_TTL)], cleanedAt)
    case Take(key, _) => slots - {key}
    case Sweep(at) => Unexpired(slots, at)
  }

  /** The map agrees on `key` with the history up to a slot that has expired by `now`. */
  ghost predicate Agrees<V>(slots: map<string, Slot<V>>, acts: seq<Act<V>>, key: string, now: int) {
    && (key in slots ==> exists i: nat ::
        LatestPut(acts, key, i) && slots[key] == Slot(acts[i].value, acts[i].at + CHALLENGE_TTL))
    && (key !in slots ==> forall i: nat :: LatestPut(acts, key, i) ==> now > acts[i].at + CHALLENGE_TTL)
  }

  ghost predicate AgreesEverywhere<V>(slots: map<string, Slot<V>>, acts: seq<Act<V>>, now: int) {
    forall key :: Agrees(slots, acts, key, now)
  }

  lemma OneLatestPut<V>(acts: seq<Act<V>>, key: string, i: nat, j: nat)
    requires LatestPut(acts, key, i) && LatestPut(acts, key, j)
    ensures i == j
  {
    assert Touches(acts[i], key) && Touches(acts[j], key);
  }

  lemma LatestPutExtends<V>(acts: seq<Act<V>>, act: Act<V>, key: string, i: nat)
    ensures i < |acts| ==> (LatestPut(acts + [act], key, i) <==> LatestPut(acts, key, i) && !Touches(act, key))
    ensures i == |acts| ==> (LatestPut(acts + [act], key, i) <==> act.Put? && act.key == key)
    ensures i > |acts| ==> !LatestPut(acts + [act], key, i)
  {
    var longer := acts + [act];
    if i < |acts| {
      assert longer[|acts|] == act;
      if LatestPut(acts, key, i) && !Touches(act, key) {
        forall j | i < j < |longer|
          ensures !Touches(longer[j], key)
        {
          assert j < |acts| ==> longer[j] == acts[j];
        }
      }
      if LatestPut(longer, key, i) {
        assert forall j | i < j < |acts| :: longer[j] == acts[j];
      }
    }
  }

  /** One act keeps a map in agreement with the history, whatever it sweeps away. */
  lemma AgreesStep<V>(slots: map<string, Slot<V>>, acts: seq<Act<V>>, act: Act<V>, key: string, now: int, later: int)
    requires Agrees(slots, acts, key, now) && now <= Begins(act) <= Finishes(act) <= later
    ensures Agrees(SlotsAfter(slots, act), acts + [act], key, later)
  {
    forall i: nat
      ensures i < |acts| ==> (LatestPut(acts + [act], key, i) <==> LatestPut(acts, key, i) && !Touches(act, key))
      ensures i == |acts| ==> (LatestPut(acts + [act], key, i) <==> act.Put? && act.key == key)
      ensures i > |acts| ==> !LatestPut(acts + [act], key, i)
    {
      LatestPutExtends(acts, act, key, i);
    }
    if Touches(act, key) {
      assert act.Put? ==> LatestPut(acts + [act], key, |acts|) && (acts + [act])[|acts|] == act;
    } else if key in slots {
      var i: nat :| LatestPut(acts, key, i) && slots[key] == Slot(acts[i].value, acts[i].at + CHALLENGE_TTL);
      assert LatestPut(acts + [act], key, i) && (acts + [act])[i] == acts[i];
      forall j: nat | LatestPut(acts + [act], key, j)
        ensures j == i
      {
        OneLatestPut(acts + [act], key, i, j);
      }
    }
  }

  ghost predicate DueInMap<V>(slots: map<string, Slot<V>>, key: string, now: int, v: V) {
    key in slots && slots[key].value == v && now <= slots[key].expiresAt
  }

  lemma DueIsTheSlot<V>(slots: map<string, Slot<V>>, acts: seq<Act<V>>, key: string, now: int, v: V)
    requires Agrees(slots, acts, key, now)
    ensures Due(acts, key, now, v) <==> DueInMap(slots, key, now, v)
  {
    if key in slots {
      var i: nat :| LatestPut(acts, key, i) && slots[key] == Slot(acts[i].value, acts[i].at + CHALLENGE_TTL);
      forall j: nat | LatestPut(acts, key, j)
        ensures j == i
      {
        OneLatestPut(acts, key, i, j);
      }
    }
  }

  class CeremonyStore<D(!new)> {
    var entries: map<string, Slot<D>>
    var enrol: map<string, Slot<Enrolment<D>>>
    ghost var calls: seq<Call<D>>
    ghost var clock: int

    /** Both maps agree with their own half of the history, and no clock reading so far is later
        than `clock`. */
    ghost predicate Valid()
      reads this
    {
      AgreesEverywhere(entries, LoginActs(calls), clock) && AgreesEverywhere(enrol, EnrolActs(calls), clock)
    }

    constructor (now: int)
      ensures Valid() && calls == [] && clock == now
    {
      entries, enrol, calls, clock := map[], map[], [], now;
    }

    ghost method Record(call: Call<D>)
      requires Starts(call) <= Stops(call)
      modifies `calls, `clock
      ensures calls == old(calls) + [call] && clock == Stops(call)
      ensures LoginActs(calls) == LoginActs(old(calls)) + LoginPart(call)
      ensures EnrolActs(calls) == EnrolActs(old(calls)) + EnrolPart(call)
      ensures call.Enrol? ==> LoginActs(calls) == LoginActs(old(calls))
      ensures call.Login? ==> EnrolActs(calls) == EnrolActs(old(calls))
    {
      calls := calls + [call];
      clock := Stops(call);
      assert calls[..|calls| - 1] == old(calls);
    }

    method SweepExpired(now: int)
      requires Valid() && clock <= now
      modifies this
      ensures Valid() && calls == old(calls) + [SweepBoth(now)] && clock == now
      ensures forall k :: k in entries <==> k in old(entries) && now <= old(entries)[k].expiresAt
      ensures forall k :: k in enrol <==> k in old(enrol) && now <= old(enrol)[k].expiresAt
      ensures forall k :: k in entries ==> entries[k] == old(entries)[k]
      ensures forall k :: k in enrol ==> enrol[k] == old(enrol)[k]
    {
      hide AgreesEverywhere, LoginActs, EnrolActs, Due;
      entries := RemoveExpired(entries, now);
      enrol := RemoveExpired(enrol, now);
      AgreeStep(old(entries), LoginActs(calls), Sweep(now), clock);
      AgreeStep(old(enrol), EnrolActs(calls), Sweep(now), clock);
      Record(SweepBoth(now));
    }

    method Put(key: string, data: D, now: int, cleanedAt: int)
      requires Valid() && clock <= now <= cleanedAt
      modifies this
      ensures Valid() && calls == old(calls) + [Login(Act.Put(key, data, now, cleanedAt))] && clock == cleanedAt
      ensures entries == SlotsAfter(old(entries), Act.Put(key, data, now, cleanedAt)) && enrol == old(enrol)
    {
      hide AgreesEverywhere, LoginActs, EnrolActs, Due;
      AgreeStep(entries, LoginActs(calls), Act.Put(key, data, now, cleanedAt), clock);
      Later(enrol, EnrolActs(calls), clock, cleanedAt);
      entries := entries[key := Slot(data, now + CHALLENGE_TTL)];
      entries := RemoveExpired(entries, cleanedAt);
      Record(Login(Act.Put(key, data, now, cleanedAt)));
    }

    method Take(key: string, now: int) returns (data: Option<D>)
      requires Valid() && clock <= now
      modifies this
      ensures Valid() && calls == old(calls) + [Login(Act.Take(key, now))] && clock == now
      ensures forall v :: data == Some(v) <==> Due(LoginActs(old(calls)), key, now, v)
      ensures entries == old(entries) - {key} && enrol == old(enrol)
    {
      hide AgreesEverywhere, LoginActs, EnrolActs, Due;
      AgreeStep(entries, LoginActs(calls), Act.Take(key, now), clock);
      Later(enrol, EnrolActs(calls), clock, now);
      DueIsSlot(entries, LoginActs(calls), key, clock, now);
      Record(Login(Act.Take(key, now)));
      if key !in entries {
        assert entries - {key} == entries;
        return None;
      }
      var e := entries[key];
      entries := entries - {key};
      if now > e.expiresAt {
        return None;
      }
      return Some(e.value);
    }

    method PutEnrol(tokenHash: string, data: D, contactId: string, now: int, cleanedAt: int)
      requires Valid() && clock <= now <= cleanedAt
      modifies this
      ensures Valid() && calls == old(calls) + [Enrol(Act.Put(tokenHash, Enrolment(data, contactId), now, cleanedAt))]
      ensures clock == cleanedAt
      ensures enrol == SlotsAfter(old(enrol), Act.Put(tokenHash, Enrolment(data, contactId), now, cleanedAt))
      ensures entries == old(entries)
    {
      hide AgreesEverywhere, LoginActs, EnrolActs, Due;
      AgreeStep(enrol, EnrolActs(calls), Act.Put(tokenHash, Enrolment(data, contactId), now, cleanedAt), clock);
      Later(entries, LoginActs(calls), clock, cleanedAt);
      enrol := enrol[tokenHash := Slot(Enrolment(data, contactId), now + CHALLENGE_TTL)];
      enrol := RemoveExpired(enrol, cleanedAt);
      Record(Enrol(Act.Put(tokenHash, Enrolment(data, contactId), now, cleanedAt)));
    }

    method TakeEnrol(tokenHash: string, now: int) returns (r: Option<Enrolment<D>>)
      requires Valid() && clock <= now
      modifies this
      ensures Valid() && calls == old(calls) + [Enrol(Act.Take(tokenHash, now))] && clock == now
      ensures forall v :: r == Some(v) <==> Due(EnrolActs(old(calls)), tokenHash, now, v)
      ensures enrol == old(enrol) - {tokenHash} && entries == old(entries)
    {
      hide AgreesEverywhere, LoginActs, EnrolActs, Due;
      AgreeStep(enrol, EnrolActs(calls), Act.Take(tokenHash, now), clock);
      Later(entries, LoginActs(calls), clock, now);
      DueIsSlot(enrol, EnrolActs(calls), tokenHash, clock, now);
      Record(Enrol(Act.Take(tokenHash, now)));
      if tokenHash !in enrol {
        assert enrol - {tokenHash} == enrol;
        return None;
      }
      var e := enrol[tokenHash];
      enrol := enrol - {tokenHash};
      if now > e.expiresAt {
        return None;
      }
      return Some(e.value);
    }
  }

  /** The cleanup loop: visit the keys in any order, delete what has expired. */
  method RemoveExpired<V>(slots: map<string, Slot<V>>, now: int) returns (kept: map<string, Slot<V>>)
    ensures kept == Unexpired(slots, now)
  {
    kept := slots;
    var left := slots.Keys;
    while left != {}
      invariant left <= slots.Keys
      invariant forall k :: k in kept <==> k in slots && (k in left || !(now > slots[k].expiresAt))
      invariant forall k :: k in kept ==> kept[k] == slots[k]
      decreases left
    {
      var k :| k in left;
      if now > slots[k].expiresAt {
        kept := kept - {k};
      }
      left := left - {k};
    }
  }

  lemma AgreeStep<V>(slots: map<string, Slot<V>>, acts: seq<Act<V>>, act: Act<V>, clock: int)
    requires AgreesEverywhere(slots, acts, clock) && clock <= Begins(act) <= Finishes(act)
    ensures AgreesEverywhere(SlotsAfter(slots, act), acts + [act], Finishes(act))
  {
    forall key: string
      ensures Agrees(SlotsAfter(slots, act), acts + [act], key, Finishes(act))
    {
      AgreesStep(slots, acts, act, key, clock, Finishes(act));
    }
  }

  lemma Later<V>(slots: map<string, Slot<V>>, acts: seq<Act<V>>, clock: int, now: int)
    requires AgreesEverywhere(slots, acts, clock) && clock <= now
    ensures AgreesEverywhere(slots, acts, now)
  {
    forall key: string
      ensures Agrees(slots, acts, key, now)
    {
      assert Agrees(slots, acts, key, clock);
    }
  }

  lemma DueIsSlot<V(!new)>(slots: map<string, Slot<V>>, acts: seq<Act<V>>, key: string, clock: int, now: int)
    requires AgreesEverywhere(slots, acts, clock) && clock <= now
    ensures forall v :: Due(acts, key, now, v) <==> DueInMap(slots, key, now, v)
  {
    Later(slots, acts, clock, now);
    forall v: V
      ensures Due(acts, key, now, v) <==> DueInMap(slots, key, now, v)
    {
      DueIsTheSlot(slots, acts, key, now, v);
    }
  }

  /** Nothing is due at first; a put makes its own value due under its key, for 60 seconds; a take leaves
      nothing due under its key; and no other call on the store changes what a login will find. */
  lemma LoginHistory<D(!new)>(calls: seq<Call<D>>, call: Call<D>, key: string, now: int, v: D)
    ensures !Due(LoginActs<D>([]), key, now, v)
    ensures Due(LoginActs(calls + [call]), key, now, v) <==>
      match call
      case Login(Put(k, x, at, _)) =>
        if k == key then x == v && now <= at + 60 * SECOND else Due(LoginActs(calls), key, now, v)
      case Login(Take(k, _)) => k != key && Due(LoginActs(calls), key, now, v)
      case _ => Due(LoginActs(calls), key, now, v)
  {
    hide Due;
    assert (calls + [call])[..|calls|] == calls;
    NothingDue(LoginActs<D>([]), key, now, v);
    if !call.Enrol? {
      DueStep(LoginActs(calls), LoginPart(call)[0], key, now, v);
    } else {
      assert LoginActs(calls) + [] == LoginActs(calls);
    }
  }

  /** The same for enrolments, whose value carries the contact. */
  lemma EnrolHistory<D(!new)>(calls: seq<Call<D>>, call: Call<D>, key: string, now: int, v: Enrolment<D>)
    ensures !Due(EnrolActs<D>([]), key, now, v)
    ensures Due(EnrolActs(calls + [call]), key, now, v) <==>
      match call
      case Enrol(Put(k, x, at, _)) =>
        if k == key then x == v && now <= at + 60 * SECOND else Due(EnrolActs(calls), key, now, v)
      case Enrol(Take(k, _)) => k != key && Due(EnrolActs(calls), key, now, v)
      case _ => Due(EnrolActs(calls), key, now, v)
  {
    hide Due;
    assert (calls + [call])[..|calls|] == calls;
    NothingDue(EnrolActs<D>([]), key, now, v);
    if !call.Login? {
      DueStep(EnrolActs(calls), EnrolPart(call)[0], key, now, v);
    } else {
      assert EnrolActs(calls) + [] == EnrolActs(calls);
    }
  }

  lemma NothingDue<V(!new)>(acts: seq<Act<V>>, key: string, now: int, v: V)
    requires acts == []
    ensures !Due(acts, key, now, v)
  {
  }

  // ---- Sweeps are unobservable ----

  /** The acts without the sweeps, and without the clock reading a put cleans up at. */
  function Quiet<V>(acts: seq<Act<V>>): seq<Act<V>> {
    if acts == [] then []
    else
      var last := acts[|acts| - 1];
      Quiet(acts[..|acts| - 1]) +
        match last { case Put(k, v, at, _) => [Act.Put(k, v, at, at)] case Take(_, _) => [last] case Sweep(_) => [] }
  }

  lemma DueStep<V>(acts: seq<Act<V>>, act: Act<V>, key: string, now: int, v: V)
    ensures Due(acts + [act], key, now, v) <==>
      if !Touches(act, key) then Due(acts, key, now, v) else act.Put? && act.value == v && now <= act.at + CHALLENGE_TTL
  {
    var longer := acts + [act];
    forall i: nat
      ensures i < |acts| ==>
        (LatestPut(longer, key, i) <==> LatestPut(acts, key, i) && !Touches(act, key)) && longer[i] == acts[i]
      ensures i == |acts| ==> (LatestPut(longer, key, i) <==> act.Put? && act.key == key)
      ensures i > |acts| ==> !LatestPut(longer, key, i)
    {
      LatestPutExtends(acts, act, key, i);
    }
    if act.Put? && act.key == key {
      assert LatestPut(longer, key, |acts|) && longer[|acts|] == act;
    }
    if !Touches(act, key) && Due(acts, key, now, v) {
      var i: nat :| LatestPut(acts, key, i) && acts[i].value == v && now <= acts[i].at + CHALLENGE_TTL;
      assert LatestPut(longer, key, i) && longer[i] == acts[i];
    }
  }

  lemma {:induction false} DueIgnoresSweeps<V>(acts: seq<Act<V>>, key: string, now: int, v: V)
    ensures Due(acts, key, now, v) <==> Due(Quiet(acts), key, now, v)
  {
    if acts != [] {
      var before, last := acts[..|acts| - 1], acts[|acts| - 1];
      DueIgnoresSweeps(before, key, now, v);
      assert acts == before + [last];
      DueStep(before, last, key, now, v);
      match last
      case Put(k, x, at, _) => DueStep(Quiet(before), Act.Put(k, x, at, at), key, now, v);
      case Take(_, _) => DueStep(Quiet(before), last, key, now, v);
      case Sweep(_) => assert Quiet(acts) == Quiet(before);
    } else {
      assert Quiet(acts) == acts;
    }
  }

  /** Background sweeps and the cleanup inside a put change no take: the same puts and takes get the
      same answers. */
  lemma SweepsUnobservable<V>(one: seq<Act<V>>, other: seq<Act<V>>, key: string, now: int, v: V)
    requires Quiet(one) == Quiet(other)
    ensures Due(one, key, now, v) <==> Due(other, key, now, v)
  {
    DueIgnoresSweeps(one, key, now, v);
    DueIgnoresSweeps(other, key, now, v);
  }
}
