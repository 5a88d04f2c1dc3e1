/** The CLIENT_KEYS environment variable: "clientsystem:clientenv=secret[|scope];...". */
module ClientKeys {
  import opened Wrappers
  import opened Scopes

  // ---- strings.Split, strings.SplitN(_, _, 2) and strings.TrimSpace ----

  function IndexOf(s: string, sep: char): (i: nat)
    ensures i <= |s| && sep !in s[..i]
    ensures i < |s| ==> s[i] == sep
  {
    if s == "" || s[0] == sep then 0 else 1 + IndexOf(s[1..], sep)
  }

  function Split(s: string, sep: char): seq<string>
    decreases |s|
  {
    var i := IndexOf(s, sep);
    if i == |s| then [s] else [s[..i]] + Split(s[i + 1..], sep)
  }

  function Before(s: string, sep: char): string { s[..IndexOf(s, sep)] }

  function After(s: string, sep: char): string
    requires sep in s
  {
    s[IndexOf(s, sep) + 1..]
  }

  function TrimLeft(s: string): string {
    if s != "" && IsSpace(s[0]) then TrimLeft(s[1..]) else s
  }

  function TrimRight(s: string): string {
    if s != "" && IsSpace(s[|s| - 1]) then TrimRight(s[..|s| - 1]) else s
  }

  function TrimSpace(s: string): string { TrimRight(TrimLeft(s)) }

  // ---- One entry, and the fold over all of them ----

  datatype Pair = Pair(system: string, secret: string)

  function ParseEntry(rawEntry: string): Option<Pair> {
    var entry := TrimSpace(rawEntry);
    if '=' !in entry then None
    else if ':' !in Before(entry, '=') then None
    else
      var system := TrimSpace(Before(Before(entry, '='), ':'));
      var secret := TrimSpace(Before(After(entry, '='), '|'));
      if system == "" || secret == "" then None else Some(Pair(system, secret))
  }

  function ParseEntries(entries: seq<string>): map<string, string> {
    if entries == [] then map[]
    else
      var before, last := ParseEntries(entries[..|entries| - 1]), ParseEntry(entries[|entries| - 1]);
      if last.None? then before else before[last.value.system := last.value.secret]
  }

  function Parse(raw: string): map<string, string> { ParseEntries(Split(raw, ';')) }

  method ParseClientKeysBySystem(raw: string) returns (secrets: map<string, string>)
    ensures secrets == Parse(raw)
  {
    hide TrimSpace, Split, Before, After;
    secrets := map[];
    var entries := Split(raw, ';');
    for i := 0 to |entries|
      invariant secrets == ParseEntries(entries[..i])
    {
      assert entries[..i + 1][..i] == entries[..i];
      var rawEntry := TrimSpace(entries[i]);
      if rawEntry == "" {
        continue;
      }
      if '=' !in rawEntry {
        continue;
      }
      var left, right := Before(rawEntry, '='), After(rawEntry, '=');
      if ':' !in left {
        continue;
      }
      var clientSystem := TrimSpace(Before(left, ':'));
      var secret := TrimSpace(Before(right, '|'));
      if clientSystem == "" || secret == "" {
        continue;
      }
      secrets := secrets[clientSystem := secret];
    }
    assert entries[..|entries|] == entries;
  }

  // ---- Homomorphism: parse(a + ";" + b) is parse(a) overridden by parse(b) ----

  lemma {:induction false} FirstSeparator(s: string, rest: string, sep: char)
    requires sep !in s && (rest == "" || rest[0] == sep)
    ensures IndexOf(s + rest, sep) == |s|
  {
    if s == "" {
      assert s + rest == rest;
    } else {
      assert (s + rest)[1..] == s[1..] + rest;
      FirstSeparator(s[1..], rest, sep);
    }
  }

  /** Cutting at the first separator. */
  lemma CutAt(head: string, sep: char, tail: string)
    requires sep !in head
    ensures var s := head + [sep] + tail; sep in s && Before(s, sep) == head && After(s, sep) == tail
    ensures Split(head + [sep] + tail, sep) == [head] + Split(tail, sep)
    ensures Split(head, sep) == [head]
  {
    var s := head + [sep] + tail;
    assert s == head + ([sep] + tail) && s[|head|] == sep;
    FirstSeparator(head, [sep] + tail, sep);
    assert s[..|head|] == head && s[|head| + 1..] == tail;
    assert head + "" == head;
    FirstSeparator(head, "", sep);
  }

  lemma {:induction false} SplitConcat(a: string, b: string, sep: char)
    ensures Split(a + [sep] + b, sep) == Split(a, sep) + Split(b, sep)
    decreases |a|
  {
    hide Split;
    var i := IndexOf(a, sep);
    if i == |a| {
      assert a[..i] == a;
      CutAt(a, sep, b);
    } else {
      var head, tail := a[..i], a[i + 1..];
      assert a == head + [sep] + tail;
      CutAt(head, sep, tail);
      SplitConcat(tail, b, sep);
      CutAt(head, sep, tail + [sep] + b);
      assert a + [sep] + b == head + [sep] + (tail + [sep] + b);
      assert [head] + Split(tail, sep) + Split(b, sep) == [head] + (Split(tail, sep) + Split(b, sep));
    }
  }

  lemma {:induction false} ParseEntriesConcat(a: seq<string>, b: seq<string>)
    ensures ParseEntries(a + b) == ParseEntries(a) + ParseEntries(b)
  {
    if b == [] {
      assert a + b == a;
    } else {
      assert (a + b)[..|a + b| - 1] == a + b[..|b| - 1];
      ParseEntriesConcat(a, b[..|b| - 1]);
    }
  }

  lemma ParseConcat(a: string, b: string)
    ensures Parse(a + ";" + b) == Parse(a) + Parse(b)
  {
    SplitConcat(a, b, ';');
    ParseEntriesConcat(Split(a, ';'), Split(b, ';'));
  }

  // ---- Round trip: a rendered list parses back, the last entry of a system winning ----

  datatype Entry = Entry(system: string, environment: string, secret: string, scope: Option<string>)

  function Render(e: Entry): string {
    e.system + ":" + e.environment + "=" + e.secret + (if e.scope.Some? then "|" + e.scope.value else "")
  }

  /** strings.Join of the rendered entries with ";". */
  function RenderAll(entries: seq<Entry>): string
    requires entries != []
  {
    if |entries| == 1 then Render(entries[0])
    else RenderAll(entries[..|entries| - 1]) + ";" + Render(entries[|entries| - 1])
  }

  predicate Trimmed(s: string) { s != "" && !IsSpace(s[0]) && !IsSpace(s[|s| - 1]) }

  /** What the format allows: no field holds a separator that would end it early, the system and the
      secret are not blank. White space around them is not part of them. */
  predicate WellFormed(e: Entry) {
    && TrimSpace(e.system) != "" && ';' !in e.system && ':' !in e.system && '=' !in e.system
    && ';' !in e.environment && '=' !in e.environment
    && TrimSpace(e.secret) != "" && ';' !in e.secret && '|' !in e.secret
    && (e.scope.Some? ==> ';' !in e.scope.value)
  }

  function Secrets(entries: seq<Entry>): map<string, string> {
    if entries == [] then map[]
    else
      var last := entries[|entries| - 1];
      Secrets(entries[..|entries| - 1])[TrimSpace(last.system) := TrimSpace(last.secret)]
  }

  lemma {:induction false} TrimRightOfSuffix(s: string, tail: string)
    requires s != "" && !IsSpace(s[|s| - 1])
    ensures TrimRight(s + tail) == s + TrimRight(tail)
  {
    if tail == "" {
      assert s + tail == s;
    } else if IsSpace(tail[|tail| - 1]) {
      assert (s + tail)[..|s + tail| - 1] == s + tail[..|tail| - 1];
      TrimRightOfSuffix(s, tail[..|tail| - 1]);
    }
  }

  predicate AllSpace(s: string) { forall i | 0 <= i < |s| :: IsSpace(s[i]) }

  lemma {:induction false} TrimAllSpace(s: string)
    requires AllSpace(s)
    ensures TrimLeft(s) == "" && TrimRight(s) == ""
  {
    if s != "" {
      TrimAllSpace(s[1..]);
      TrimAllSpace(s[..|s| - 1]);
    }
  }

  lemma {:induction false} TrimLeftStops(s: string, rest: string)
    requires rest != "" && !IsSpace(rest[0])
    ensures TrimLeft(s + rest) == TrimLeft(s) + rest
    ensures forall c :: c in TrimLeft(s) ==> c in s
  {
    if s == "" {
      assert s + rest == rest;
    } else if IsSpace(s[0]) {
      assert (s + rest)[1..] == s[1..] + rest;
      TrimLeftStops(s[1..], rest);
    }
  }

  /** TrimSpace removes exactly the white space at both ends. */
  lemma TrimCore(front: string, core: string, back: string)
    requires AllSpace(front) && AllSpace(back) && (core == "" || Trimmed(core))
    ensures TrimSpace(front + core + back) == core
  {
    hide IsSpace, TrimLeft, TrimRight;
    if core == "" {
      assert front + core + back == front + back;
      TrimAllSpace(front + back);
      TrimAllSpace("");
    } else {
      assert front + core + back == front + (core + back);
      TrimLeftStops(front, core + back);
      TrimAllSpace(front);
      assert "" + (core + back) == core + back;
      TrimRightOfSuffix(core, back);
      TrimAllSpace(back);
    }
  }

  lemma {:induction false} Core(s: string) returns (front: string, core: string, back: string)
    ensures s == front + core + back && AllSpace(front) && AllSpace(back) && (core == "" || Trimmed(core))
  {
    if s == "" {
      front, core, back := "", "", "";
    } else if IsSpace(s[0]) {
      front, core, back := Core(s[1..]);
      front := [s[0]] + front;
      assert s == [s[0]] + s[1..];
    } else if IsSpace(s[|s| - 1]) {
      front, core, back := Core(s[..|s| - 1]);
      back := back + [s[|s| - 1]];
      assert s == s[..|s| - 1] + [s[|s| - 1]];
    } else {
      front, core, back := "", s, "";
    }
  }

  lemma TrimTwice(s: string)
    ensures TrimSpace(TrimLeft(s)) == TrimSpace(s) == TrimSpace(TrimRight(s))
  {
    hide IsSpace, TrimLeft, TrimRight, TrimSpace;
    var front, core, back := Core(s);
    TrimCore(front, core, back);
    TrimAllSpace("");
    if core == "" {
      assert AllSpace(s) && s == front + "" + back && "" + "" + "" == "";
      TrimAllSpace(s);
      TrimCore("", "", "");
    } else {
      TrimLeftStops(front, core + back);
      TrimAllSpace(front);
      TrimRightOfSuffix(front + core, back);
      TrimAllSpace(back);
      TrimCore("", core, back);
      TrimCore(front, core, "");
      assert front + core + back == front + (core + back) && "" + core + back == "" + (core + back);
      assert front + core + "" == front + core + "";
    }
  }

  /** Every entry with a ':' before its first '=', whatever white space is around its fields: the system is
      what precedes the first ':', the secret what follows the first '=' up to a '|', both trimmed, and the
      entry is dropped exactly when one of them is blank. */
  lemma EntryFields(system: string, environment: string, secret: string, tail: string)
    requires ':' !in system && '=' !in system && '=' !in environment && '|' !in secret
    requires tail == "" || tail[0] == '|'
    ensures var s, k := TrimSpace(system), TrimSpace(secret);
      ParseEntry(system + ":" + environment + "=" + secret + tail)
      == if s == "" || k == "" then None else Some(Pair(s, k))
  {
    hide IsSpace, TrimLeft, TrimRight, Before, After;
    var entry := system + ":" + environment + "=" + secret + tail;
    var rest := ":" + environment + "=" + secret + tail;
    assert entry == system + rest && !IsSpace(rest[0]) by { ColonIsNoSpace(); }
    TrimLeftStops(system, rest);
    var left := TrimLeft(system) + ":" + environment;
    assert TrimLeft(system) + rest == (left + "=") + (secret + tail);
    EqualsIsNoSpace();
    TrimRightOfSuffix(left + "=", secret + tail);
    assert left + "=" + TrimRight(secret + tail) == left + ['='] + TrimRight(secret + tail);
    CutAt(left, '=', TrimRight(secret + tail));
    assert left == TrimLeft(system) + [':'] + environment;
    CutAt(TrimLeft(system), ':', environment);
    TrimTwice(system);
    SecretPart(secret, tail);
  }

  lemma ColonIsNoSpace()
    ensures !IsSpace(':')
  {
  }

  lemma EqualsIsNoSpace()
    ensures !IsSpace('=') && !IsSpace('|')
  {
  }

  lemma SecretPart(secret: string, tail: string)
    requires '|' !in secret && (tail == "" || tail[0] == '|')
    ensures TrimSpace(Before(TrimRight(secret + tail), '|')) == TrimSpace(secret)
  {
    hide IsSpace, TrimLeft, TrimSpace;
    TrimTwice(secret);
    if tail == "" {
      assert secret + tail == secret;
      TrimRightChars(secret);
      SecretBefore(TrimRight(secret), "");
      assert TrimRight(secret) + "" == TrimRight(secret);
    } else {
      EqualsIsNoSpace();
      assert secret + tail == (secret + "|") + tail[1..];
      TrimRightOfSuffix(secret + "|", tail[1..]);
      assert (secret + "|") + TrimRight(tail[1..]) == secret + ("|" + TrimRight(tail[1..]));
      SecretBefore(secret, "|" + TrimRight(tail[1..]));
    }
  }

  lemma {:induction false} TrimRightChars(s: string)
    ensures forall c :: c in TrimRight(s) ==> c in s
  {
    if s != "" && IsSpace(s[|s| - 1]) {
      TrimRightChars(s[..|s| - 1]);
    }
  }

  /** Any other entry is dropped. */
  lemma EntryWithoutFields(entry: string)
    requires '=' !in entry || ':' !in entry[..IndexOf(entry, '=')]
    ensures ParseEntry(entry) == None
  {
    hide IsSpace, TrimLeft, TrimRight, TrimSpace, Before, After;
    var front, core, back := Core(entry);
    TrimCore(front, core, back);
    NoSpaceChars(front);
    if '=' in core {
      CoreBefore(front, core, back);
      assert forall k | 0 <= k < |Before(core, '=')| :: Before(core, '=')[k] == Before(entry, '=')[|front| + k];
    }
  }

  lemma CoreBefore(front: string, core: string, back: string)
    requires '=' !in front && '=' in core
    ensures Before(front + core + back, '=') == front + Before(core, '=')
    ensures Before(front + core + back, '=') == (front + core + back)[..IndexOf(front + core + back, '=')]
  {
    var i := IndexOf(core, '=');
    assert core == core[..i] + ['='] + core[i + 1..];
    assert front + core + back == (front + core[..i]) + ['='] + (core[i + 1..] + back);
    CutAt(front + core[..i], '=', core[i + 1..] + back);
  }

  lemma NoSpaceChars(s: string)
    requires AllSpace(s)
    ensures '=' !in s && ':' !in s
  {
    ColonIsNoSpace();
    EqualsIsNoSpace();
  }

  lemma ParseInvertsRender(e: Entry)
    requires WellFormed(e)
    ensures ParseEntry(Render(e)) == Some(Pair(TrimSpace(e.system), TrimSpace(e.secret)))
  {
    hide IsSpace, TrimSpace, ParseEntry;
    EntryFields(e.system, e.environment, e.secret, if e.scope.Some? then "|" + e.scope.value else "");
  }

  lemma SecretBefore(secret: string, tail: string)
    requires '|' !in secret && (tail == "" || tail[0] == '|')
    ensures Before(secret + tail, '|') == secret
  {
    FirstSeparator(secret, tail, '|');
  }

  /** A list of one rendered entry. */
  lemma ParseOne(e: Entry)
    requires WellFormed(e)
    ensures Parse(Render(e)) == map[TrimSpace(e.system) := TrimSpace(e.secret)]
  {
    hide ParseEntry;
    ParseInvertsRender(e);
    assert ';' !in Render(e);
    CutAt(Render(e), ';', "");
    assert [Render(e)][..0] == [];
    assert ParseEntries([]) == map[];
  }

  lemma {:induction false} ParseInvertsRenderAll(entries: seq<Entry>)
    requires entries != [] && forall i | 0 <= i < |entries| :: WellFormed(entries[i])
    ensures Parse(RenderAll(entries)) == Secrets(entries)
  {
    hide Parse, Render;
    var last := entries[|entries| - 1];
    ParseOne(last);
    if |entries| == 1 {
      assert entries[..0] == [];
    } else {
      ParseInvertsRenderAll(entries[..|entries| - 1]);
      ParseConcat(RenderAll(entries[..|entries| - 1]), Render(last));
    }
  }

  /** Secrets is what it should be: every system that has an entry, with the secret of its last one. */
  lemma {:induction false} LastEntryWins(entries: seq<Entry>, i: nat)
    requires i < |entries|
    requires forall j | i < j < |entries| :: TrimSpace(entries[j].system) != TrimSpace(entries[i].system)
    ensures TrimSpace(entries[i].system) in Secrets(entries)
    ensures Secrets(entries)[TrimSpace(entries[i].system)] == TrimSpace(entries[i].secret)
  {
    if i < |entries| - 1 {
      LastEntryWins(entries[..|entries| - 1], i);
    }
  }
}
