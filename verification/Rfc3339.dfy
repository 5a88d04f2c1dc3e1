/** Time: nanosecond instants, the whole seconds that a stored timestamp keeps, and the
    fixed-width UTC text of section 5.1 of RFC 3339 that SQLite compares byte by byte. */
module Rfc3339 {
  import opened Wrappers

  const SECOND: int := 1_000_000_000
  const MINUTE: int := 60 * SECOND
  const HOUR: int := 60 * MINUTE

  /** What Format(time.RFC3339) keeps of an instant: the start of its second. */
  function Stamp(t: int): (s: int)
    ensures s <= t < s + SECOND && s % SECOND == 0
  {
    t - t % SECOND
  }

  lemma StampMonotone(s: int, t: int)
    requires s <= t
    ensures Stamp(s) <= Stamp(t)
  {
    assert s / SECOND <= t / SECOND;
    assert Stamp(s) == s / SECOND * SECOND && Stamp(t) == t / SECOND * SECOND;
  }

  lemma StampBelow(s: int, t: int)
    ensures Stamp(s) <= Stamp(t) <==> s < Stamp(t) + SECOND
  {
    if s < Stamp(t) + SECOND {
      StampMonotone(s, Stamp(t) + SECOND - 1);
      assert Stamp(Stamp(t) + SECOND - 1) == Stamp(t);
    }
  }

  /** Whole seconds pass through flooring. */
  lemma StampShifts(t: int, d: int)
    requires d % SECOND == 0
    ensures Stamp(t + d) == Stamp(t) + d
  {
  }

  // ---- The calendar, counted in days from Go's zero time, 0001-01-01 ----

  datatype Date = Date(year: nat, month: nat, day: nat)

  predicate Leap(year: nat) { year % 4 == 0 && (year % 100 != 0 || year % 400 == 0) }

  function MonthLength(year: nat, month: nat): nat {
    if month == 2 then (if Leap(year) then 29 else 28)
    else if month in {4, 6, 9, 11} then 30
    else 31
  }

  predicate ValidDate(d: Date) {
    1 <= d.year && 1 <= d.month <= 12 && 1 <= d.day <= MonthLength(d.year, d.month)
  }

  function NextDate(d: Date): (n: Date)
    requires ValidDate(d)
    ensures ValidDate(n) && Earlier(d, n) && PreviousDate(n) == d
  {
    if d.day < MonthLength(d.year, d.month) then Date(d.year, d.month, d.day + 1)
    else if d.month < 12 then Date(d.year, d.month + 1, 1)
    else Date(d.year + 1, 1, 1)
  }

  function PreviousDate(d: Date): Date
    requires ValidDate(d) && d != Date(1, 1, 1)
  {
    if d.day > 1 then Date(d.year, d.month, d.day - 1)
    else if d.month > 1 then Date(d.year, d.month - 1, MonthLength(d.year, d.month - 1))
    else Date(d.year - 1, 12, 31)
  }

  predicate Earlier(a: Date, b: Date) {
    a.year < b.year || (a.year == b.year && (a.month < b.month || (a.month == b.month && a.day < b.day)))
  }

  function DateOf(day: nat): (d: Date)
    ensures ValidDate(d)
  {
    if day == 0 then Date(1, 1, 1) else NextDate(DateOf(day - 1))
  }

  function DayNumber(d: Date): nat
    requires ValidDate(d)
    decreases d.year, d.month, d.day
  {
    if d == Date(1, 1, 1) then 0 else DayNumber(PreviousDate(d)) + 1
  }

  lemma {:induction false} DatesIncrease(m: nat, n: nat)
    requires m < n
    ensures Earlier(DateOf(m), DateOf(n))
  {
    if m < n - 1 {
      DatesIncrease(m, n - 1);
    }
  }

  lemma {:induction false} DayNumberInvertsDateOf(day: nat)
    ensures DayNumber(DateOf(day)) == day
  {
    if day > 0 {
      DayNumberInvertsDateOf(day - 1);
      assert DateOf(day) != Date(1, 1, 1) by { DatesIncrease(0, day); }
    }
  }

  // ---- Fixed-width text: two-digit groups, each followed by its separator ----

  const SECONDS_PER_DAY: nat := 86400

  /** Instants whose UTC year has the four digits RFC 3339 allows. */
  predicate Representable(t: int) {
    0 <= t && DateOf(t / SECOND / SECONDS_PER_DAY).year <= 9999
  }

  lemma RepresentableBelow(s: int, t: int)
    requires 0 <= s <= t && Representable(t)
    ensures Representable(s)
  {
    var m, n := s / SECOND / SECONDS_PER_DAY, t / SECOND / SECONDS_PER_DAY;
    assert m <= n;
    if m < n {
      DatesIncrease(m, n);
    }
  }

  function ClockFields(seconds: nat): (f: seq<nat>)
    ensures |f| == 7
    ensures DateOf(seconds / SECONDS_PER_DAY).year <= 9999 ==> forall i | 0 <= i < 7 :: f[i] < 100
  {
    var d := DateOf(seconds / SECONDS_PER_DAY);
    var r := seconds % SECONDS_PER_DAY;
    [d.year / 100, d.year % 100, d.month, d.day, r / 3600, r / 60 % 60, r % 60]
  }

  const SEPARATORS: seq<string> := ["", "-", "-", "T", ":", ":", "Z"]

  /** The shape SQLite's datetime('now') default writes. */
  const SQLITE_SEPARATORS: seq<string> := ["", "-", "-", " ", ":", ":", ""]

  function Digit(k: nat): (c: char)
    requires k < 10
    ensures '0' <= c <= '9'
  {
    (('0' as int) + k) as char
  }

  function Render(fields: seq<nat>, separators: seq<string>): string
    requires |fields| == |separators|
    requires forall i | 0 <= i < |fields| :: fields[i] < 100
  {
    if fields == [] then ""
    else [Digit(fields[0] / 10), Digit(fields[0] % 10)] + separators[0] + Render(fields[1..], separators[1..])
  }

  /** The stored text of an instant. */
  function Text(t: int): string
    requires Representable(t)
  {
    Render(ClockFields(t / SECOND), SEPARATORS)
  }

  /** SQLite's BINARY collation: byte-wise, a proper prefix first. */
  predicate TextLeq(a: string, b: string) {
    a == "" || (b != "" && (a[0] < b[0] || (a[0] == b[0] && TextLeq(a[1..], b[1..]))))
  }

  predicate FieldsLeq(a: seq<nat>, b: seq<nat>)
    requires |a| == |b|
  {
    a == [] || a[0] < b[0] || (a[0] == b[0] && FieldsLeq(a[1..], b[1..]))
  }

  lemma {:induction false} CommonPrefix(p: string, a: string, b: string)
    ensures TextLeq(p + a, p + b) <==> TextLeq(a, b)
  {
    if p == "" {
      assert p + a == a && p + b == b;
    } else {
      assert (p + a)[1..] == p[1..] + a && (p + b)[1..] == p[1..] + b;
      CommonPrefix(p[1..], a, b);
    }
  }

  lemma {:induction false} RenderOrder(a: seq<nat>, b: seq<nat>, separators: seq<string>)
    requires |a| == |b| == |separators|
    requires forall i | 0 <= i < |a| :: a[i] < 100
    requires forall i | 0 <= i < |b| :: b[i] < 100
    ensures TextLeq(Render(a, separators), Render(b, separators)) <==> FieldsLeq(a, b)
  {
    if a != [] {
      var ta, tb := Render(a, separators), Render(b, separators);
      var resta, restb := Render(a[1..], separators[1..]), Render(b[1..], separators[1..]);
      assert ta[0] == Digit(a[0] / 10) && tb[0] == Digit(b[0] / 10);
      assert ta[1..][0] == Digit(a[0] % 10) && tb[1..][0] == Digit(b[0] % 10);
      if a[0] == b[0] {
        var prefix := [Digit(a[0] / 10), Digit(a[0] % 10)] + separators[0];
        CommonPrefix(prefix, resta, restb);
        RenderOrder(a[1..], b[1..], separators[1..]);
      }
    }
  }

  predicate ClockLeq(r: nat, q: nat) {
    r / 3600 < q / 3600 || (r / 3600 == q / 3600 &&
    (r / 60 % 60 < q / 60 % 60 || (r / 60 % 60 == q / 60 % 60 && r % 60 <= q % 60)))
  }

  lemma ClockOrder(r: nat, q: nat)
    ensures ClockLeq(r, q) <==> r <= q
  {
    SixtyMinutes(r);
    SixtyMinutes(q);
  }

  lemma SixtyMinutes(r: nat)
    ensures r == r / 3600 * 3600 + r / 60 % 60 * 60 + r % 60
  {
    assert r / 60 / 60 == r / 3600;
  }

  lemma FieldsOrder(s: nat, t: nat)
    ensures FieldsLeq(ClockFields(s), ClockFields(t)) <==> s <= t
  {
    var ds, dt := s / SECONDS_PER_DAY, t / SECONDS_PER_DAY;
    var a, b := DateOf(ds), DateOf(dt);
    var r, q := s % SECONDS_PER_DAY, t % SECONDS_PER_DAY;
    assert FieldsLeq(ClockFields(s), ClockFields(t)) <==> Earlier(a, b) || (a == b && ClockLeq(r, q)) by {
      UnfoldFieldsLeq(ClockFields(s), ClockFields(t));
    }
    ClockOrder(r, q);
    if ds < dt {
      DatesIncrease(ds, dt);
    } else if dt < ds {
      DatesIncrease(dt, ds);
    }
  }

  lemma UnfoldFieldsLeq(a: seq<nat>, b: seq<nat>)
    requires |a| == |b| == 7
    ensures FieldsLeq(a, b) <==>
      a[0] < b[0] || (a[0] == b[0] && (a[1] < b[1] || (a[1] == b[1] && (a[2] < b[2] || (a[2] == b[2] &&
      (a[3] < b[3] || (a[3] == b[3] && (a[4] < b[4] || (a[4] == b[4] && (a[5] < b[5] || (a[5] == b[5] &&
      a[6] <= b[6])))))))))))
  {
    assert FieldsLeq(a[6..], b[6..]) <==> a[6] <= b[6];
    assert FieldsLeq(a[5..], b[5..]) <==> a[5] < b[5] || (a[5] == b[5] && FieldsLeq(a[6..], b[6..]));
    assert FieldsLeq(a[4..], b[4..]) <==> a[4] < b[4] || (a[4] == b[4] && FieldsLeq(a[5..], b[5..]));
    assert FieldsLeq(a[3..], b[3..]) <==> a[3] < b[3] || (a[3] == b[3] && FieldsLeq(a[4..], b[4..]));
    assert FieldsLeq(a[2..], b[2..]) <==> a[2] < b[2] || (a[2] == b[2] && FieldsLeq(a[3..], b[3..]));
    assert FieldsLeq(a[1..], b[1..]) <==> a[1] < b[1] || (a[1] == b[1] && FieldsLeq(a[2..], b[2..]));
  }

  /** The comparison SQLite makes on two stored timestamps is the comparison of their seconds. */
  lemma TextOrder(s: int, t: int)
    requires Representable(s) && Representable(t)
    ensures TextLeq(Text(s), Text(t)) <==> Stamp(s) <= Stamp(t)
  {
    RenderOrder(ClockFields(s / SECOND), ClockFields(t / SECOND), SEPARATORS);
    FieldsOrder(s / SECOND, t / SECOND);
    assert Stamp(s) == s / SECOND * SECOND && Stamp(t) == t / SECOND * SECOND;
  }

  // ---- Reading a stored timestamp back ----

  predicate IsDigit(c: char) { '0' <= c <= '9' }

  function DigitValue(c: char): nat
    requires IsDigit(c)
  {
    c as int - '0' as int
  }

  function ParseFields(text: string, separators: seq<string>): Option<seq<nat>>
    decreases |separators|
  {
    if separators == [] then (if text == "" then Some([]) else None)
    else
      var n := 2 + |separators[0]|;
      if |text| < n || !IsDigit(text[0]) || !IsDigit(text[1]) || text[2..n] != separators[0] then None
      else
        match ParseFields(text[n..], separators[1..])
        case None => None
        case Some(rest) => Some([DigitValue(text[0]) * 10 + DigitValue(text[1])] + rest)
  }

  function Assemble(f: seq<nat>): Option<int> {
    if |f| != 7 then None
    else
      var d := Date(f[0] * 100 + f[1], f[2], f[3]);
      if ValidDate(d) && f[4] < 24 && f[5] < 60 && f[6] < 60
      then Some((DayNumber(d) * SECONDS_PER_DAY + f[4] * 3600 + f[5] * 60 + f[6]) * SECOND)
      else None
  }

  /** parseTime: the RFC 3339 form first, then the form SQLite's own default writes. */
  function ParseTime(text: string): Option<int> {
    var first := match ParseFields(text, SEPARATORS) case None => None case Some(f) => Assemble(f);
    if first.Some? then first
    else match ParseFields(text, SQLITE_SEPARATORS) case None => None case Some(f) => Assemble(f)
  }

  lemma {:induction false} ParseInvertsRender(fields: seq<nat>, separators: seq<string>)
    requires |fields| == |separators|
    requires forall i | 0 <= i < |fields| :: fields[i] < 100
    ensures ParseFields(Render(fields, separators), separators) == Some(fields)
  {
    if fields != [] {
      ParseInvertsRender(fields[1..], separators[1..]);
      var rest := Render(fields[1..], separators[1..]);
      var text := Render(fields, separators);
      var n := 2 + |separators[0]|;
      assert text[2..n] == separators[0] && text[n..] == rest;
      assert fields == [fields[0]] + fields[1..];
    }
  }

  lemma {:induction false} WrongSeparator(fields: seq<nat>, written: seq<string>, read: seq<string>, k: nat)
    requires |fields| == |written| == |read| && k < |fields|
    requires forall i | 0 <= i < |fields| :: fields[i] < 100
    requires forall i | 0 <= i <= k :: |written[i]| == |read[i]|
    requires written[k] != read[k]
    ensures ParseFields(Render(fields, written), read) == None
  {
    var rest := Render(fields[1..], written[1..]);
    var text := Render(fields, written);
    var n := 2 + |read[0]|;
    assert text[2..n] == written[0] && text[n..] == rest;
    if k > 0 {
      WrongSeparator(fields[1..], written[1..], read[1..], k - 1);
    }
  }

  lemma AssembleInvertsFields(seconds: nat)
    ensures Assemble(ClockFields(seconds)) == Some(seconds * SECOND)
  {
    DayNumberInvertsDateOf(seconds / SECONDS_PER_DAY);
    SixtyMinutes(seconds % SECONDS_PER_DAY);
    var d := DateOf(seconds / SECONDS_PER_DAY);
    assert Date(d.year / 100 * 100 + d.year % 100, d.month, d.day) == d;
  }

  /** A timestamp read back is the instant written, less the fraction of its second, in both forms. */
  lemma StoredInstant(t: int)
    requires Representable(t)
    ensures ParseTime(Text(t)) == Some(Stamp(t))
    ensures ParseTime(Render(ClockFields(t / SECOND), SQLITE_SEPARATORS)) == Some(Stamp(t))
  {
    var f := ClockFields(t / SECOND);
    ParseInvertsRender(f, SEPARATORS);
    ParseInvertsRender(f, SQLITE_SEPARATORS);
    WrongSeparator(f, SQLITE_SEPARATORS, SEPARATORS, 3);
    AssembleInvertsFields(t / SECOND);
    assert Stamp(t) == t / SECOND * SECOND;
  }
}
