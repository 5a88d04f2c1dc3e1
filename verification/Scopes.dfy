/** OAuth2 scope strings (section 3.3 of RFC 6749): splitting, printing and narrowing. */
module Scopes {
  import opened Wrappers

  /** unicode.IsSpace, which strings.Fields and strings.TrimSpace use. */
  predicate IsSpace(c: char) {
    c in "\t\n\r " || c == '\U{000B}' || c == '\U{000C}' || c == '\U{0085}' || c == '\U{00A0}' || c == '\U{1680}'
    || '\U{2000}' <= c <= '\U{200A}' || c == '\U{2028}' || c == '\U{2029}' || c == '\U{202F}' || c == '\U{205F}'
    || c == '\U{3000}'
  }

  /** A scope token: non-empty and free of white space. */
  predicate IsToken(s: string) { s != "" && forall i | 0 <= i < |s| :: !IsSpace(s[i]) }

  predicate NoDuplicates<T(==)>(s: seq<T>) { forall i, j | 0 <= i < j < |s| :: s[i] != s[j] }

  // ---- strings.Fields ----

  function WordLength(s: string): (n: nat)
    ensures n <= |s|
    ensures forall i | 0 <= i < n :: !IsSpace(s[i])
    ensures n < |s| ==> IsSpace(s[n])
  {
    if s == "" || IsSpace(s[0]) then 0 else 1 + WordLength(s[1..])
  }

  function Fields(s: string): (words: seq<string>)
    ensures forall i | 0 <= i < |words| :: IsToken(words[i])
    decreases |s|
  {
    if s == "" then []
    else if IsSpace(s[0]) then Fields(s[1..])
    else var n := WordLength(s); [s[..n]] + Fields(s[n..])
  }

  /** strings.Join(words, " ") */
  function Join(words: seq<string>): string {
    if words == [] then "" else if |words| == 1 then words[0] else words[0] + " " + Join(words[1..])
  }

  lemma {:induction false} WordThenSpace(word: string, rest: string)
    requires forall i | 0 <= i < |word| :: !IsSpace(word[i])
    requires rest == "" || IsSpace(rest[0])
    ensures WordLength(word + rest) == |word|
  {
    if word == "" {
      assert word + rest == rest;
    } else {
      assert (word + rest)[1..] == word[1..] + rest;
      WordThenSpace(word[1..], rest);
    }
  }

  lemma {:induction false} FieldsOfJoin(words: seq<string>)
    requires forall i | 0 <= i < |words| :: IsToken(words[i])
    ensures Fields(Join(words)) == words
  {
    if |words| == 1 {
      assert words[0] + "" == words[0];
      WordThenSpace(words[0], "");
      assert words == [words[0]];
    } else if words != [] {
      var tail := " " + Join(words[1..]);
      assert Join(words) == words[0] + tail;
      WordThenSpace(words[0], tail);
      assert Join(words)[|words[0]|..] == tail && tail[1..] == Join(words[1..]);
      FieldsOfJoin(words[1..]);
    }
  }

  predicate IsRun(s: string, a: nat, b: nat) {
    && a < b <= |s| && (forall i | a <= i < b :: !IsSpace(s[i]))
    && (a == 0 || IsSpace(s[a - 1])) && (b == |s| || IsSpace(s[b]))
  }

  predicate Covered(runs: seq<(nat, nat)>, i: int) { exists k :: 0 <= k < |runs| && runs[k].0 <= i < runs[k].1 }

  /** The words are the maximal space-free runs of s from position i on, in order. */
  predicate RunsFrom(s: string, i: nat, words: seq<string>, runs: seq<(nat, nat)>) {
    && |runs| == |words|
    && (forall k | 0 <= k < |runs| ::
          i <= runs[k].0 && IsRun(s, runs[k].0, runs[k].1) && words[k] == s[runs[k].0..runs[k].1])
    && (forall j, k | 0 <= j < k < |runs| :: runs[j].1 < runs[k].0)
    && (forall j | i <= j < |s| && !IsSpace(s[j]) :: Covered(runs, j))
  }

  lemma RunsAfterSpace(s: string, i: nat, words: seq<string>, runs: seq<(nat, nat)>)
    requires i < |s| && IsSpace(s[i]) && RunsFrom(s, i + 1, words, runs)
    ensures RunsFrom(s, i, words, runs)
  {
    hide IsSpace, IsRun, Covered;
  }

  lemma CoveredAfterWord(s: string, i: nat, n: nat, runs: seq<(nat, nat)>, j: nat)
    requires i <= j < |s| && !IsSpace(s[j]) && (n <= j ==> Covered(runs, j))
    ensures Covered([(i, n)] + runs, j)
  {
    hide IsSpace;
    var longer := [(i, n)] + runs;
    if j < n {
      assert longer[0].0 <= j < longer[0].1;
    } else {
      var k :| 0 <= k < |runs| && runs[k].0 <= j < runs[k].1;
      assert longer[k + 1] == runs[k];
    }
  }

  /** A run that starts where another ends would make it longer, so a later one starts after a space. */
  lemma RunsApart(s: string, i: nat, n: nat, a: nat, b: nat)
    requires IsRun(s, i, n) && IsRun(s, a, b) && n <= a
    ensures n < a
  {
    hide IsSpace;
  }

  lemma RunsAfterWord(s: string, i: nat, n: nat, words: seq<string>, runs: seq<(nat, nat)>)
    requires IsRun(s, i, n) && RunsFrom(s, n, words, runs)
    ensures RunsFrom(s, i, [s[i..n]] + words, [(i, n)] + runs)
  {
    hide IsSpace, IsRun, Covered;
    var longer := [(i, n)] + runs;
    forall j | i <= j < |s| && !IsSpace(s[j])
      ensures Covered(longer, j)
    {
      CoveredAfterWord(s, i, n, runs, j);
    }
    forall k | 0 <= k < |runs|
      ensures n < runs[k].0
    {
      RunsApart(s, i, n, runs[k].0, runs[k].1);
    }
    IsRunIsForward(s, i, n);
  }

  lemma IsRunIsForward(s: string, a: nat, b: nat)
    requires IsRun(s, a, b)
    ensures a < b <= |s|
  {
  }

  lemma {:induction false} FieldRuns(s: string, i: nat) returns (runs: seq<(nat, nat)>)
    requires i <= |s| && (i == 0 || i == |s| || IsSpace(s[i - 1]) || IsSpace(s[i]))
    ensures RunsFrom(s, i, Fields(s[i..]), runs)
    decreases |s| - i
  {
    hide IsSpace, IsRun, RunsFrom;
    if i == |s| {
      runs := [];
      NoRuns(s);
    } else if IsSpace(s[i]) {
      runs := FieldRuns(s, i + 1);
      assert s[i..][1..] == s[i + 1..];
      RunsAfterSpace(s, i, Fields(s[i + 1..]), runs);
    } else {
      var n := i + WordLength(s[i..]);
      assert WordLength(s[i..]) > 0 && s[i..][..n - i] == s[i..n] && s[i..][n - i..] == s[n..];
      FirstWord(s, i, n);
      var rest := FieldRuns(s, n);
      RunsAfterWord(s, i, n, Fields(s[n..]), rest);
      runs := [(i, n)] + rest;
    }
  }

  lemma NoRuns(s: string)
    ensures RunsFrom(s, |s|, Fields(s[|s|..]), [])
  {
  }

  lemma FirstWord(s: string, i: nat, n: nat)
    requires i < |s| && !IsSpace(s[i]) && (i == 0 || IsSpace(s[i - 1])) && n == i + WordLength(s[i..])
    ensures IsRun(s, i, n)
  {
    hide IsSpace;
    forall j | i <= j < n ensures !IsSpace(s[j]) {
      assert s[i..][j - i] == s[j];
    }
    if n < |s| {
      assert s[i..][n - i] == s[n];
    }
  }

  /** On any string at all, the fields are its maximal runs of characters that are not white space, in
      order, and all of them. */
  lemma FieldsAreRuns(s: string) returns (runs: seq<(nat, nat)>)
    ensures |runs| == |Fields(s)|
    ensures forall k | 0 <= k < |runs| ::
      var (a, b) := runs[k];
      && a < b <= |s| && Fields(s)[k] == s[a..b] && (forall i | a <= i < b :: !IsSpace(s[i]))
      && (a == 0 || IsSpace(s[a - 1])) && (b == |s| || IsSpace(s[b]))
    ensures forall j, k | 0 <= j < k < |runs| :: runs[j].1 < runs[k].0
    ensures forall i | 0 <= i < |s| && !IsSpace(s[i]) :: exists k :: 0 <= k < |runs| && runs[k].0 <= i < runs[k].1
  {
    hide IsSpace, Fields;
    runs := FieldRuns(s, 0);
    assert s[0..] == s;
    forall k | 0 <= k < |runs|
      ensures IsRun(s, runs[k].0, runs[k].1) && Fields(s)[k] == s[runs[k].0..runs[k].1]
    {
    }
    forall i | 0 <= i < |s| && !IsSpace(s[i])
      ensures exists k :: 0 <= k < |runs| && runs[k].0 <= i < runs[k].1
    {
      assert Covered(runs, i);
    }
  }

  // ---- first occurrences, in order ----

  function FirstOccurrences(parts: seq<string>, seen: set<string>): seq<string> {
    if parts == [] then []
    else if parts[0] in seen then FirstOccurrences(parts[1..], seen)
    else [parts[0]] + FirstOccurrences(parts[1..], seen + {parts[0]})
  }

  function ParseScope(s: string): seq<string> { FirstOccurrences(Fields(s), {}) }

  lemma {:induction false} FirstOccurrencesElements(parts: seq<string>, seen: set<string>)
    ensures var out := FirstOccurrences(parts, seen);
      && NoDuplicates(out)
      && (forall x :: x in out <==> x in parts && x !in seen)
  {
    if parts != [] {
      if parts[0] in seen {
        FirstOccurrencesElements(parts[1..], seen);
        assert parts == [parts[0]] + parts[1..];
      } else {
        FirstOccurrencesElements(parts[1..], seen + {parts[0]});
        assert parts == [parts[0]] + parts[1..];
      }
    }
  }

  lemma {:induction false} FirstOccurrencesOfDistinct(parts: seq<string>, seen: set<string>)
    requires NoDuplicates(parts) && forall x | x in parts :: x !in seen
    ensures FirstOccurrences(parts, seen) == parts
  {
    if parts != [] {
      assert forall i | 0 <= i < |parts| - 1 :: parts[1..][i] == parts[i + 1] && parts[0] != parts[i + 1];
      FirstOccurrencesOfDistinct(parts[1..], seen + {parts[0]});
      assert parts == [parts[0]] + parts[1..];
    }
  }

  lemma {:induction false} FirstOccurrencesSplit(a: seq<string>, b: seq<string>, seen: set<string>)
    ensures FirstOccurrences(a + b, seen) == FirstOccurrences(a, seen) + FirstOccurrences(b, seen + (set x | x in a))
  {
    if a == [] {
      assert a + b == b && seen + (set x | x in a) == seen;
    } else {
      assert (a + b)[1..] == a[1..] + b;
      assert a == [a[0]] + a[1..];
      if a[0] in seen {
        FirstOccurrencesSplit(a[1..], b, seen);
        assert seen + (set x | x in a) == seen + (set x | x in a[1..]);
      } else {
        FirstOccurrencesSplit(a[1..], b, seen + {a[0]});
        assert seen + (set x | x in a) == seen + {a[0]} + (set x | x in a[1..]);
      }
    }
  }

  /** Order: when one scope is parsed out before another, its first occurrence came first. */
  lemma ParseKeepsOrder(s: string, i: nat, x: string, y: string)
    requires i < |Fields(s)| && x in Fields(s)[..i] && y in Fields(s)[i..] && y !in Fields(s)[..i]
    ensures exists m, n | 0 <= m < n < |ParseScope(s)| :: ParseScope(s)[m] == x && ParseScope(s)[n] == y
  {
    hide Fields, FirstOccurrences;
    var a, b := Fields(s)[..i], Fields(s)[i..];
    assert a + b == Fields(s);
    FirstOccurrencesSplit(a, b, {});
    FirstOccurrencesElements(a, {});
    FirstOccurrencesElements(b, {} + (set z | z in a));
    var front, back := FirstOccurrences(a, {}), FirstOccurrences(b, {} + (set z | z in a));
    var m :| 0 <= m < |front| && front[m] == x;
    var n :| 0 <= n < |back| && back[n] == y;
    assert ParseScope(s)[m] == x && ParseScope(s)[|front| + n] == y;
  }

  /** Any scope list that a parse can return prints and parses back to itself. */
  lemma ParseInvertsJoin(scopes: seq<string>)
    requires NoDuplicates(scopes) && forall i | 0 <= i < |scopes| :: IsToken(scopes[i])
    ensures ParseScope(Join(scopes)) == scopes
  {
    FieldsOfJoin(scopes);
    FirstOccurrencesOfDistinct(scopes, {});
  }

  /** On every string at all, a parse yields distinct tokens, so parsing is idempotent. */
  lemma ParseIdempotent(s: string)
    ensures NoDuplicates(ParseScope(s))
    ensures forall x :: x in ParseScope(s) <==> x in Fields(s)
    ensures ParseScope(Join(ParseScope(s))) == ParseScope(s)
  {
    FirstOccurrencesElements(Fields(s), {});
    forall i | 0 <= i < |ParseScope(s)| ensures IsToken(ParseScope(s)[i]) {
      assert ParseScope(s)[i] in Fields(s);
    }
    ParseInvertsJoin(ParseScope(s));
  }

  /** A scope list prints and parses back if and only if it is duplicate-free and made of tokens. */
  lemma ParseInvertsJoinIff(scopes: seq<string>)
    ensures ParseScope(Join(scopes)) == scopes <==>
      NoDuplicates(scopes) && forall i | 0 <= i < |scopes| :: IsToken(scopes[i])
  {
    hide Fields, FirstOccurrences;
    if ParseScope(Join(scopes)) == scopes {
      FirstOccurrencesElements(Fields(Join(scopes)), {});
      forall i | 0 <= i < |scopes|
        ensures IsToken(scopes[i])
      {
        assert scopes[i] in Fields(Join(scopes));
      }
    } else if NoDuplicates(scopes) && forall i | 0 <= i < |scopes| :: IsToken(scopes[i]) {
      ParseInvertsJoin(scopes);
      assert false;
    }
  }

  lemma NoOccurrences(seen: set<string>)
    ensures FirstOccurrences([], seen) == []
  {
  }

  lemma OccurrencesFrom(parts: seq<string>, i: nat, seen: set<string>)
    requires i < |parts|
    ensures FirstOccurrences(parts[i..], seen)
         == if parts[i] in seen then FirstOccurrences(parts[i + 1..], seen)
            else [parts[i]] + FirstOccurrences(parts[i + 1..], seen + {parts[i]})
  {
    assert parts[i..][0] == parts[i] && parts[i..][1..] == parts[i + 1..];
  }

  /** parseScopeParam; nil and the empty slice are both []. */
  method ParseScopeParam(s: string) returns (out: seq<string>)
    ensures out == ParseScope(s)
  {
    hide Fields, FirstOccurrences;
    var parts := Fields(s);
    if |parts| == 0 {
      NoOccurrences({});
      return [];
    }
    var seen: map<string, bool> := map[];
    out := [];
    assert parts[0..] == parts && seen.Keys == {};
    for i := 0 to |parts|
      invariant out + FirstOccurrences(parts[i..], seen.Keys) == ParseScope(s)
    {
      OccurrencesFrom(parts, i, seen.Keys);
      if parts[i] !in seen {
        ghost var rest := FirstOccurrences(parts[i + 1..], seen.Keys + {parts[i]});
        assert seen[parts[i] := true].Keys == seen.Keys + {parts[i]};
        assert out + ([parts[i]] + rest) == out + [parts[i]] + rest;
        seen := seen[parts[i] := true];
        out := out + [parts[i]];
      }
    }
    NoOccurrences(seen.Keys);
    assert parts[|parts|..] == [] && out + [] == out;
  }

  method ToSet(scopes: seq<string>) returns (m: map<string, bool>)
    ensures forall x :: x in m <==> x in scopes
    ensures forall x | x in m :: m[x]
  {
    m := map[];
    for i := 0 to |scopes|
      invariant forall x :: x in m <==> x in scopes[..i]
      invariant forall x | x in m :: m[x]
    {
      m := m[scopes[i] := true];
    }
    assert scopes[..|scopes|] == scopes;
  }

  // ---- subsequences ----

  /** `out` is the items at these positions, in order. */
  predicate ItemsAt<T(==)>(out: seq<T>, items: seq<T>, at: seq<nat>) {
    && |out| == |at| && (forall k | 0 <= k < |at| :: at[k] < |items| && out[k] == items[at[k]])
    && forall j, k | 0 <= j < k < |at| :: at[j] < at[k]
  }

  lemma ItemsAtSnoc<T>(out: seq<T>, items: seq<T>, last: T, at: seq<nat>)
    requires ItemsAt(out, items, at)
    ensures ItemsAt(out, items + [last], at) && ItemsAt(out + [last], items + [last], at + [|items|])
    ensures forall n: nat :: n in at + [|items|] <==> n in at || n == |items|
    ensures |items| !in at
  {
  }

  // ---- narrowing ----

  /** What of `requested` is granted, in the requested order. */
  function Narrow(requested: seq<string>, granted: seq<string>): seq<string> {
    if requested == [] then []
    else (if requested[0] in granted then [requested[0]] else []) + Narrow(requested[1..], granted)
  }

  lemma NarrowCons(requested: seq<string>, granted: seq<string>)
    ensures Narrow([], granted) == []
    ensures requested != [] ==>
      Narrow(requested, granted)
      == (if requested[0] in granted then [requested[0]] else []) + Narrow(requested[1..], granted)
  {
  }

  lemma {:induction false} NarrowSplit(a: seq<string>, b: seq<string>, granted: seq<string>)
    ensures Narrow(a + b, granted) == Narrow(a, granted) + Narrow(b, granted)
  {
    hide Narrow;
    NarrowCons(a, granted);
    if a == [] {
      assert a + b == b;
    } else {
      assert (a + b)[1..] == a[1..] + b;
      NarrowCons(a + b, granted);
      NarrowSplit(a[1..], b, granted);
    }
  }

  /** The ordered intersection: exactly the scopes both requested and granted, none twice. */
  lemma {:induction false} NarrowElements(requested: seq<string>, granted: seq<string>)
    requires NoDuplicates(requested)
    ensures NoDuplicates(Narrow(requested, granted))
    ensures forall x :: x in Narrow(requested, granted) <==> x in requested && x in granted
  {
    if requested != [] {
      assert forall i | 0 <= i < |requested| - 1 ::
        requested[1..][i] == requested[i + 1] && requested[0] != requested[i + 1];
      NarrowElements(requested[1..], granted);
      assert requested == [requested[0]] + requested[1..];
    }
  }

  /** And in the order of the request. */
  lemma NarrowKeepsOrder(requested: seq<string>, granted: seq<string>) returns (at: seq<nat>)
    ensures |at| == |Narrow(requested, granted)|
    ensures forall k | 0 <= k < |at| :: at[k] < |requested| && Narrow(requested, granted)[k] == requested[at[k]]
    ensures forall j, k | 0 <= j < k < |at| :: at[j] < at[k]
    ensures forall n: nat :: n in at <==> n < |requested| && requested[n] in granted
  {
    at := NarrowPositions(requested, granted);
  }

  lemma {:induction false} NarrowPositions(requested: seq<string>, granted: seq<string>) returns (at: seq<nat>)
    ensures ItemsAt(Narrow(requested, granted), requested, at)
    ensures forall n: nat :: n in at <==> n < |requested| && requested[n] in granted
  {
    hide ItemsAt, Narrow;
    if requested == [] {
      at := [];
      NoPositions(granted);
    } else {
      var n := |requested| - 1;
      var before := NarrowPositions(requested[..n], granted);
      NarrowSnoc(requested, granted);
      assert requested == requested[..n] + [requested[n]];
      ItemsAtSnoc(Narrow(requested[..n], granted), requested[..n], requested[n], before);
      at := if requested[n] in granted then before + [n] else before;
    }
  }

  lemma NoPositions(granted: seq<string>)
    ensures ItemsAt(Narrow([], granted), [], [])
  {
  }

  lemma NarrowSnoc(requested: seq<string>, granted: seq<string>)
    requires requested != []
    ensures var n, all, init := |requested| - 1, Narrow(requested, granted),
              Narrow(requested[..|requested| - 1], granted);
      if requested[n] in granted then all == init + [requested[n]] else all == init
  {
    var n := |requested| - 1;
    NarrowSplit(requested[..n], [requested[n]], granted);
    assert requested == requested[..n] + [requested[n]] && [requested[n]][1..] == [];
  }

  /** The loop of handleAuthCodeGrant that fills effectiveScopes (and, with the advertised
      OIDC scopes as `granted`, requestedOIDCScopes). */
  method IntersectScopes(requested: seq<string>, granted: seq<string>) returns (effective: seq<string>)
    ensures effective == Narrow(requested, granted)
  {
    var grantedSet := ToSet(granted);
    effective := [];
    for i := 0 to |requested|
      invariant effective == Narrow(requested[..i], granted)
    {
      NarrowSplit(requested[..i], [requested[i]], granted);
      assert requested[..i + 1] == requested[..i] + [requested[i]];
      if requested[i] in grantedSet {
        effective := effective + [requested[i]];
      }
    }
    assert requested[..|requested|] == requested;
  }

  /** The scope rule of handleClientCredentialsGrant: the full grant when the parameter is
      blank, otherwise the parsed request, refused as soon as one scope is not granted. */
  method ClientScopes(granted: seq<string>, parameter: string) returns (r: Result<seq<string>, string>)
    ensures r.Ok? <==> forall x | x in Fields(parameter) :: x in granted
    ensures r.Ok? ==> r.value == if Fields(parameter) == [] then granted else ParseScope(parameter)
    ensures r.Err? ==> exists k | 0 <= k < |ParseScope(parameter)| ::
      ParseScope(parameter)[k] == r.error && r.error !in granted
      && forall j | 0 <= j < k :: ParseScope(parameter)[j] in granted
  {
    var effective := granted;
    var requested := ParseScopeParam(parameter);
    ParseIdempotent(parameter);
    if |requested| > 0 {
      var grantedSet := ToSet(granted);
      for i := 0 to |requested|
        invariant forall j | 0 <= j < i :: requested[j] in granted
      {
        if requested[i] !in grantedSet {
          return Err(requested[i]);
        }
      }
      effective := requested;
    }
    if Fields(parameter) != [] {
      assert Fields(parameter)[0] in requested;
    }
    r := Ok(effective);
  }
}
