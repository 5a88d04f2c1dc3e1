/** The per-key fixed-window limiter. Each operation holds the mutex while it reads the clock, so
    operations are totally ordered and their clock readings never go back. */
module RateLimit {
  datatype Window = Window(count: nat, start: int)

  datatype Outcome = Outcome(allowed: bool, count: nat)

  datatype Op = Call(key: string, at: int) | Sweep(at: int)

  // ---- What a caller can know: the times of one key's own calls ----

  /** The window the last of these calls falls in. */
  function WindowAfter(window: int, times: seq<int>): (w: Window)
    requires times != []
    ensures w.count >= 1
  {
    var before, now := times[..|times| - 1], times[|times| - 1];
    if before == [] then Window(1, now)
    else
      var w := WindowAfter(window, before);
      if now - w.start > window then Window(1, now) else Window(w.count + 1, w.start)
  }

  /** The answer to the last of these calls: the first call of a window is never refused. */
  function Decision(limit: int, window: int, times: seq<int>): Outcome
    requires times != []
  {
    var w := WindowAfter(window, times);
    Outcome(w.count == 1 || w.count <= limit, w.count)
  }

  ghost predicate Ordered(times: seq<int>) { forall i, j | 0 <= i < j < |times| :: times[i] <= times[j] }

  function CallsIn(times: seq<int>, a: int, b: int): nat {
    if times == [] then 0
    else CallsIn(times[..|times| - 1], a, b) + if a <= times[|times| - 1] <= b then 1 else 0
  }

  function AllowedIn(limit: int, window: int, times: seq<int>, a: int, b: int): nat {
    if times == [] then 0
    else
      var now := times[|times| - 1];
      AllowedIn(limit, window, times[..|times| - 1], a, b)
      + if a <= now <= b && Decision(limit, window, times).allowed then 1 else 0
  }

  // ---- The map, operation by operation ----

  ghost predicate InOrder(ops: seq<Op>) { forall i, j | 0 <= i < j < |ops| :: ops[i].at <= ops[j].at }

  function CallTimes(ops: seq<Op>, key: string): seq<int> {
    if ops == [] then []
    else
      var last := ops[|ops| - 1];
      CallTimes(ops[..|ops| - 1], key) + if last.Call? && last.key == key then [last.at] else []
  }

  function Swept(entries: map<string, Window>, window: int, now: int): map<string, Window> {
    map k | k in entries && !(entries[k].start < now - window) :: entries[k]
  }

  function Counted(entries: map<string, Window>, window: int, key: string, now: int): Window {
    if key !in entries || now - entries[key].start > window then Window(1, now)
    else Window(entries[key].count + 1, entries[key].start)
  }

  function Entries(window: int, ops: seq<Op>): map<string, Window> {
    if ops == [] then map[]
    else
      var last, before := ops[|ops| - 1], Entries(window, ops[..|ops| - 1]);
      if last.Sweep? then Swept(before, window, last.at)
      else before[last.key := Counted(before, window, last.key, last.at)]
  }

  /** A swept map and the map nobody ever swept agree on a key up to entries that have expired. */
  ghost predicate Simulates(entries: map<string, Window>, window: int, key: string, times: seq<int>, now: int) {
    if times == [] then key !in entries
    else if key in entries then entries[key] == WindowAfter(window, times)
    else now - WindowAfter(window, times).start > window
  }

  class KeyedLimiter {
    const limit: int
    const window: int
    var entries: map<string, Window>
    ghost var trail: seq<Op>

    ghost predicate Valid()
      reads this
    {
      InOrder(trail) && entries == Entries(window, trail)
    }

    /** No clock reading so far is later than this one. */
    ghost predicate NotBefore(now: int)
      reads this
    {
      forall i | 0 <= i < |trail| :: trail[i].at <= now
    }

    constructor (limit: int, window: int)
      ensures Valid() && trail == [] && this.limit == limit && this.window == window
    {
      this.limit, this.window, entries, trail := limit, window, map[], [];
    }

    method Allow(key: string, now: int) returns (ok: bool, count: nat)
      requires Valid() && NotBefore(now)
      modifies this
      ensures Valid() && trail == old(trail) + [Call(key, now)]
      ensures Outcome(ok, count) == Decision(limit, window, CallTimes(old(trail), key) + [now])
    {
      hide InOrder, CallTimes, WindowAfter;
      Simulation(window, trail, key, now);
      AppendInOrder(trail, Call(key, now));
      AnswerFromEntry(entries, limit, window, key, CallTimes(trail, key), now);
      trail := trail + [Call(key, now)];
      assert trail[..|trail| - 1] == old(trail);
      if key !in entries || now - entries[key].start > window {
        entries := entries[key := Window(1, now)];
        return true, 1;
      }
      var e := entries[key];
      e := e.(count := e.count + 1);
      entries := entries[key := e];
      return e.count <= limit, e.count;
    }

    method SweepExpired(now: int)
      requires Valid() && NotBefore(now)
      modifies this
      ensures Valid() && trail == old(trail) + [Sweep(now)]
      ensures forall k :: k in entries <==> k in old(entries) && now - window <= old(entries)[k].start
      ensures forall k :: k in entries ==> entries[k] == old(entries)[k]
    {
      hide InOrder;
      AppendInOrder(trail, Sweep(now));
      var cutoff := now - window;
      var left := entries.Keys;
      while left != {}
        invariant forall k :: k in entries <==> k in old(entries) && (k in left || !(old(entries)[k].start < cutoff))
        invariant forall k :: k in entries ==> entries[k] == old(entries)[k]
        invariant forall k :: k in left ==> k in old(entries)
        invariant trail == old(trail)
        decreases left
      {
        var k :| k in left;
        if entries[k].start < cutoff {
          entries := entries - {k};
        }
        left := left - {k};
      }
      trail := trail + [Sweep(now)];
      assert trail[..|trail| - 1] == old(trail);
    }
  }

  /** A call with no earlier one, or none within the window before it, is allowed and counts as the first,
      whatever the limit. */
  lemma {:induction false} FreshWindow(limit: int, window: int, times: seq<int>)
    requires times != [] && forall i | 0 <= i < |times| - 1 :: times[|times| - 1] - times[i] > window
    ensures Decision(limit, window, times) == Outcome(true, 1)
  {
    if |times| > 1 {
      StartIsACall(window, times[..|times| - 1]);
    }
  }

  lemma {:induction false} StartIsACall(window: int, times: seq<int>)
    requires times != []
    ensures WindowAfter(window, times).start in times
  {
    if |times| > 1 {
      StartIsACall(window, times[..|times| - 1]);
    }
  }

  // ---- Sweeps and other keys are unobservable ----

  lemma {:induction false} Simulation(window: int, ops: seq<Op>, key: string, now: int)
    requires InOrder(ops) && forall i | 0 <= i < |ops| :: ops[i].at <= now
    ensures Simulates(Entries(window, ops), window, key, CallTimes(ops, key), now)
  {
    if ops != [] {
      var last, before := ops[|ops| - 1], ops[..|ops| - 1];
      assert last.at <= now;
      Simulation(window, before, key, last.at);
      if last.Call? && last.key == key {
        var times := CallTimes(before, key);
        assert (times + [last.at])[..|times|] == times;
      } else {
        assert CallTimes(ops, key) == CallTimes(before, key);
      }
    }
  }

  lemma AnswerFromEntry(entries: map<string, Window>, limit: int, window: int, key: string, times: seq<int>, now: int)
    requires Simulates(entries, window, key, times, now)
    ensures WindowAfter(window, times + [now]) == Counted(entries, window, key, now)
    ensures Decision(limit, window, times + [now]).count == Counted(entries, window, key, now).count
  {
    assert (times + [now])[..|times|] == times;
  }

  /** The times of one key's calls keep the order of the operations. */
  lemma {:induction false} CallTimesOrdered(ops: seq<Op>, key: string)
    requires InOrder(ops)
    ensures Ordered(CallTimes(ops, key))
    ensures forall i | 0 <= i < |CallTimes(ops, key)| :: CallTimes(ops, key)[i] <= ops[|ops| - 1].at
  {
    if ops != [] {
      CallTimesOrdered(ops[..|ops| - 1], key);
    }
  }

  /** The answer a map gives to a call. */
  function Answer(entries: map<string, Window>, limit: int, window: int, key: string, now: int): Outcome {
    var w := Counted(entries, window, key, now);
    Outcome(w.count == 1 || w.count <= limit, w.count)
  }

  /** Insert or remove sweeps anywhere, change the calls on other keys: as long as this key's own
      calls are the same, so is every answer it gets. */
  lemma SweepsAndOtherKeysUnobservable(limit: int, window: int, one: seq<Op>, other: seq<Op>, key: string, now: int)
    requires InOrder(one + [Call(key, now)]) && InOrder(other + [Call(key, now)])
    requires CallTimes(one, key) == CallTimes(other, key)
    ensures Answer(Entries(window, one), limit, window, key, now)
      == Answer(Entries(window, other), limit, window, key, now)
    ensures Answer(Entries(window, one), limit, window, key, now)
      == Decision(limit, window, CallTimes(one, key) + [now])
  {
    hide InOrder, Entries, CallTimes, WindowAfter, Simulates;
    PrefixInOrder(one, key, now);
    PrefixInOrder(other, key, now);
    Simulation(window, one, key, now);
    Simulation(window, other, key, now);
    AnswerFromEntry(Entries(window, one), limit, window, key, CallTimes(one, key), now);
    AnswerFromEntry(Entries(window, other), limit, window, key, CallTimes(other, key), now);
  }

  lemma AppendInOrder(ops: seq<Op>, op: Op)
    requires InOrder(ops) && forall i | 0 <= i < |ops| :: ops[i].at <= op.at
    ensures InOrder(ops + [op])
  {
  }

  lemma PrefixInOrder(ops: seq<Op>, key: string, now: int)
    requires InOrder(ops + [Call(key, now)])
    ensures InOrder(ops) && forall i | 0 <= i < |ops| :: ops[i].at <= now
  {
    var all := ops + [Call(key, now)];
    assert all[|ops|].at == now && forall i | 0 <= i < |ops| :: all[i] == ops[i];
  }

  // ---- The count, and the refusals ----

  lemma {:induction false} NoCallsAbove(times: seq<int>, a: int, b: int)
    requires forall i | 0 <= i < |times| :: times[i] < a
    ensures CallsIn(times, a, b) == 0
  {
    if times != [] {
      NoCallsAbove(times[..|times| - 1], a, b);
    }
  }

  /** The count is exactly the number of calls made since the window opened, which is at most one
      window ago. */
  lemma {:induction false} CountIsCallsInWindow(window: int, times: seq<int>)
    requires times != [] && Ordered(times) && window >= 0
    ensures var w := WindowAfter(window, times); var now := times[|times| - 1];
      w.start <= now <= w.start + window && w.count == CallsIn(times, w.start, w.start + window)
  {
    var before, now := times[..|times| - 1], times[|times| - 1];
    if before != [] {
      CountIsCallsInWindow(window, before);
      if now - WindowAfter(window, before).start > window {
        NoCallsAbove(before, now, now + window);
      }
    }
  }

  ghost predicate WithinLimit(limit: int, window: int, times: seq<int>) {
    forall a :: CallsFrom(times, a, window) <= limit
  }

  /** The calls in the closed interval of this length from a. */
  function CallsFrom(times: seq<int>, a: int, length: int): nat { CallsIn(times, a, a + length) }

  /** A refused call has more than `limit` calls in the closed window-long interval from its window's
      start, so a key that never makes that many is never refused. */
  lemma NeverRefusedWithinLimit(limit: int, window: int, times: seq<int>)
    requires times != [] && Ordered(times) && window >= 0
    requires WithinLimit(limit, window, times)
    ensures Decision(limit, window, times).allowed
  {
    CountIsCallsInWindow(window, times);
    var start := WindowAfter(window, times).start;
    assert CallsFrom(times, start, window) <= limit;
  }

  // ---- How many calls get through ----

  function AtLeastOne(limit: int): nat { if limit < 1 then 1 else limit }

  function Least(a: nat, b: nat): nat { if a < b then a else b }

  function OpenedIn(window: int, times: seq<int>, a: int, b: int): nat {
    if times == [] then 0
    else OpenedIn(window, times[..|times| - 1], a, b)
         + if a <= times[|times| - 1] <= b && WindowAfter(window, times).count == 1 then 1 else 0
  }

  /** Where the interval stands after these calls. Its current window opened before it, or opened
      in it; in the second case the calls let through beforehand may include some of a window that
      opened earlier, whose first call is then not among them. */
  ghost predicate Bounded(limit: int, window: int, times: seq<int>, a: int, b: int)
    requires times != []
  {
    var w, n, q := WindowAfter(window, times), AllowedIn(limit, window, times, a, b), OpenedIn(window, times, a, b);
    var lim := AtLeastOne(limit);
    if w.start < a then
      q == 0 && n + 1 <= Least(w.count, lim) + (if n == 0 then 1 else 0) && (n > 0 ==> a <= times[|times| - 1])
    else
      && q >= 1
      && (q - 1) * window <= w.start - a
      && (q >= 2 ==> (q - 1) * window < w.start - a)
      && (|| n <= lim * (q - 1) + Least(w.count, lim)
          || (n + 1 <= lim * q + Least(w.count, lim) && (q - 1) * window < w.start - a))
  }

  lemma {:induction false} BoundedThroughout(limit: int, window: int, times: seq<int>, a: int, b: int)
    requires times != [] && Ordered(times) && window > 0 && times[|times| - 1] <= b
    ensures Bounded(limit, window, times, a, b)
  {
    var before, now := times[..|times| - 1], times[|times| - 1];
    if before == [] {
      assert AllowedIn(limit, window, before, a, b) == 0 && OpenedIn(window, before, a, b) == 0;
    } else {
      BoundedThroughout(limit, window, before, a, b);
      CountIsCallsInWindow(window, before);
      BoundedStep(limit, window, times, a, b);
    }
  }

  lemma BoundedStep(limit: int, window: int, times: seq<int>, a: int, b: int)
    requires |times| >= 2 && Ordered(times) && window > 0 && times[|times| - 1] <= b
    requires Bounded(limit, window, times[..|times| - 1], a, b)
    requires var w := WindowAfter(window, times[..|times| - 1]);
      w.start <= times[|times| - 2] <= w.start + window && w.count >= 1
    ensures Bounded(limit, window, times, a, b)
  {
    var before, now := times[..|times| - 1], times[|times| - 1];
    var w, q, lim := WindowAfter(window, before), OpenedIn(window, before, a, b), AtLeastOne(limit);
    if now - w.start > window && w.start >= a {
      assert q * window == (q - 1) * window + window;
      assert lim * q == lim * (q - 1) + lim;
      assert lim * (q + 1) == lim * q + lim;
    }
  }

  /** L / W rounded up. */
  function Ceiling(length: nat, window: int): nat
    requires window > 0
  {
    (length + window - 1) / window
  }

  lemma CeilingCovers(q: nat, length: nat, window: int)
    requires window > 0 && (q - 1) * window < length
    ensures q <= Ceiling(length, window)
  {
    var c := Ceiling(length, window);
    assert length + window - 1 < c * window + window;
    if c < q {
      MulMono(c, q - 1, window);
      assert false;
    }
  }

  lemma MulMono(x: int, y: int, z: int)
    requires x <= y && z >= 0
    ensures x * z <= y * z
  {
    assert (y - x) * z >= 0;
  }

  /** In any closed interval of length L > 0 at most limit * (ceil(L / W) + 1) - 1 calls of a key get
      through; in a single instant at most limit. (A limit below one lets one call per window
      through, as a limit of one does.) */
  lemma {:induction false} RateBound(limit: int, window: int, times: seq<int>, a: int, length: nat)
    requires Ordered(times) && window > 0
    ensures length == 0 ==> AllowedIn(limit, window, times, a, a + length) <= AtLeastOne(limit)
    ensures length > 0 ==>
      AllowedIn(limit, window, times, a, a + length) + 1 <= AtLeastOne(limit) * (Ceiling(length, window) + 1)
  {
    var b := a + length;
    if times == [] {
      MulMono(1, Ceiling(length, window) + 1, AtLeastOne(limit));
    } else if times[|times| - 1] > b {
      RateBound(limit, window, times[..|times| - 1], a, length);
    } else {
      BoundedThroughout(limit, window, times, a, b);
      CountIsCallsInWindow(window, times);
      FromBounded(limit, window, times, a, length);
    }
  }

  /** Over any operations, sweeps and other keys included. */
  lemma RateBoundOverRuns(limit: int, window: int, ops: seq<Op>, key: string, a: int, length: nat)
    requires InOrder(ops) && window > 0
    ensures var n := AllowedIn(limit, window, CallTimes(ops, key), a, a + length);
      if length == 0 then n <= AtLeastOne(limit) else n + 1 <= AtLeastOne(limit) * (Ceiling(length, window) + 1)
  {
    CallTimesOrdered(ops, key);
    RateBound(limit, window, CallTimes(ops, key), a, length);
  }

  lemma FromBounded(limit: int, window: int, times: seq<int>, a: int, length: nat)
    requires times != [] && window > 0 && Bounded(limit, window, times, a, a + length)
    requires WindowAfter(window, times).start <= a + length
    ensures length == 0 ==> AllowedIn(limit, window, times, a, a + length) <= AtLeastOne(limit)
    ensures length > 0 ==>
      AllowedIn(limit, window, times, a, a + length) + 1 <= AtLeastOne(limit) * (Ceiling(length, window) + 1)
  {
    var b := a + length;
    var w, n, q := WindowAfter(window, times), AllowedIn(limit, window, times, a, b), OpenedIn(window, times, a, b);
    FromWindows(AtLeastOne(limit), window, n, q, w.start - a, Least(w.count, AtLeastOne(limit)), length);
  }

  /** The arithmetic of FromBounded: n calls in q windows, the last of them opened at offset s. */
  lemma FromWindows(lim: nat, window: int, n: nat, q: nat, s: int, least: nat, length: nat)
    requires lim >= 1 && window > 0 && least <= lim && s <= length
    requires s < 0 ==> n + 1 <= least + (if n == 0 then 1 else 0)
    requires s >= 0 ==> q >= 1 && (q - 1) * window <= s && (q >= 2 ==> (q - 1) * window < s)
    requires s >= 0 ==> n <= lim * (q - 1) + least || (n + 1 <= lim * q + least && (q - 1) * window < s)
    ensures length == 0 ==> n <= lim
    ensures length > 0 ==> n + 1 <= lim * (Ceiling(length, window) + 1)
  {
    var c := Ceiling(length, window);
    if length > 0 {
      CeilingCovers(1, length, window);
      Times(2, c + 1, lim);
      if s >= 0 && (q - 1) * window < length {
        CeilingCovers(q, length, window);
        Times(q + 1, c + 1, lim);
      }
    }
    if s >= 0 {
      Distribute(lim, q);
      if q == 1 {
        assert lim * (q - 1) == 0;
      } else {
        assert (q - 1) * window >= 0 by { MulMono(0, q - 1, window); }
      }
    }
  }

  lemma Times(x: int, y: int, lim: nat)
    requires x <= y
    ensures lim * x <= lim * y
  {
    MulMono(x, y, lim);
  }

  lemma Distribute(lim: nat, q: nat)
    ensures lim * (q + 1) == lim * q + lim && lim * q == lim * (q - 1) + lim
  {
  }

  function Repeat(t: int, n: nat): seq<int> { seq(n, i => t) }

  /** More calls at one instant of an open window, up to its limit, are all let through. */
  lemma {:induction false} MoreInWindow(limit: int, window: int, times: seq<int>, t: int, n: nat, a: int, b: int)
    requires times != [] && a <= t <= b
    requires var w := WindowAfter(window, times); t - w.start <= window && w.count + n <= limit
    ensures var w := WindowAfter(window, times);
      && times + Repeat(t, n) != []
      && WindowAfter(window, times + Repeat(t, n)) == Window(w.count + n, w.start)
      && AllowedIn(limit, window, times + Repeat(t, n), a, b) == AllowedIn(limit, window, times, a, b) + n
  {
    if n == 0 {
      assert times + Repeat(t, n) == times;
    } else {
      MoreInWindow(limit, window, times, t, n - 1, a, b);
      var longer, before := times + Repeat(t, n), times + Repeat(t, n - 1);
      assert longer[..|longer| - 1] == before && longer[|longer| - 1] == t;
    }
  }

  /** One call at 0, the rest of its window at the window's last instant, a full window right after. */
  function WorstCase(limit: int, window: int): seq<int>
    requires limit >= 1
  {
    [0] + Repeat(window, limit - 1) + Repeat(window + 1, limit)
  }

  /** The bound for one window, 2 * limit - 1, is reached for every limit and every window. */
  lemma RateBoundIsTight(limit: int, window: int)
    requires limit >= 1 && window >= 1
    ensures Ordered(WorstCase(limit, window))
    ensures AllowedIn(limit, window, WorstCase(limit, window), 1, 1 + window) == 2 * limit - 1
  {
    assert [0][..0] == [];
    var first := [0] + Repeat(window, limit - 1);
    MoreInWindow(limit, window, [0], window, limit - 1, 1, 1 + window);
    var reset := first + [window + 1];
    assert reset[..|reset| - 1] == first;
    MoreInWindow(limit, window, reset, window + 1, limit - 1, 1, 1 + window);
    assert reset + Repeat(window + 1, limit - 1) == WorstCase(limit, window);
  }
}
