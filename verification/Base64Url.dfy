/** The browser's base64url helpers (section 5 of RFC 4648), over btoa and atob as the platform
    defines them. */
module Base64Url {
  import opened Wrappers

  newtype byte = x: int | 0 <= x < 256

  // ---- The base64 alphabet ----

  function Digit(v: int): (c: char)
    requires 0 <= v < 64
  {
    if v < 26 then ('A' as int + v) as char
    else if v < 52 then ('a' as int + v - 26) as char
    else if v < 62 then ('0' as int + v - 52) as char
    else if v == 62 then '+' else '/'
  }

  function Value(c: char): (v: Option<int>)
    ensures v.Some? ==> 0 <= v.value < 64
  {
    if 'A' <= c <= 'Z' then Some(c as int - 'A' as int)
    else if 'a' <= c <= 'z' then Some(c as int - 'a' as int + 26)
    else if '0' <= c <= '9' then Some(c as int - '0' as int + 52)
    else if c == '+' then Some(62) else if c == '/' then Some(63) else None
  }

  predicate UrlSafe(c: char) { 'A' <= c <= 'Z' || 'a' <= c <= 'z' || '0' <= c <= '9' || c == '-' || c == '_' }

  // ---- btoa and atob ----

  function Sextets(a: byte, b: byte, c: byte): (s: string)
    ensures |s| == 4
  {
    [Digit(a as int / 4), Digit(a as int % 4 * 16 + b as int / 16),
     Digit(b as int % 16 * 4 + c as int / 64), Digit(c as int % 64)]
  }

  function Btoa(bytes: seq<byte>): string {
    if bytes == [] then ""
    else if |bytes| == 1 then Sextets(bytes[0], 0, 0)[..2] + "=="
    else if |bytes| == 2 then Sextets(bytes[0], bytes[1], 0)[..3] + "="
    else Sextets(bytes[0], bytes[1], bytes[2]) + Btoa(bytes[3..])
  }

  predicate AsciiSpace(c: char) { c in "\t\n\r " || c == '\U{000C}' }

  function WithoutSpaces(s: string): string {
    if s == "" then "" else (if AsciiSpace(s[0]) then "" else [s[0]]) + WithoutSpaces(s[1..])
  }

  /** Up to two '=' at the end of a text whose length is a multiple of four. */
  function WithoutPadding(s: string): string {
    if |s| % 4 != 0 || s == "" || s[|s| - 1] != '=' then s
    else if |s| > 1 && s[|s| - 2] == '=' then s[..|s| - 2] else s[..|s| - 1]
  }

  function Octets(d: seq<int>): (o: seq<byte>)
    requires |d| == 4 && forall i | 0 <= i < 4 :: 0 <= d[i] < 64
    ensures |o| == 3
  {
    [(d[0] * 4 + d[1] / 16) as byte, (d[1] % 16 * 16 + d[2] / 4) as byte, (d[2] % 4 * 64 + d[3]) as byte]
  }

  /** The bits left over at the end are discarded. */
  function FromDigits(d: seq<int>): seq<byte>
    requires forall i | 0 <= i < |d| :: 0 <= d[i] < 64
    requires |d| % 4 != 1
  {
    if d == [] then []
    else if |d| == 2 then Octets(d + [0, 0])[..1]
    else if |d| == 3 then Octets(d + [0])[..2]
    else Octets(d[..4]) + FromDigits(d[4..])
  }

  function Values(s: string): seq<int>
    requires forall i | 0 <= i < |s| :: Value(s[i]).Some?
  {
    seq(|s|, i requires 0 <= i < |s| => Value(s[i]).value)
  }

  /** None is the exception atob throws. */
  function Atob(s: string): Option<seq<byte>> {
    var t := WithoutPadding(WithoutSpaces(s));
    if |t| % 4 == 1 || exists i | 0 <= i < |t| :: Value(t[i]).None? then None else Some(FromDigits(Values(t)))
  }

  // ---- String.prototype.replace with a global single-character pattern ----

  function Replaced(s: string, from: char, to: string): string {
    if s == "" then "" else (if s[0] == from then to else [s[0]]) + Replaced(s[1..], from, to)
  }

  function ToUrlAlphabet(s: string): string { Replaced(Replaced(Replaced(s, '+', "-"), '/', "_"), '=', "") }

  function FromUrlAlphabet(s: string): string { Replaced(Replaced(s, '-', "+"), '_', "/") }

  /** As many '=' as bring the length to a multiple of four. */
  function Padded(s: string): string {
    s + seq((4 - |s| % 4) % 4, i => '=')
  }

  method B64urlToBytes(b64url: string) returns (bytes: Option<seq<byte>>)
    ensures bytes == Atob(Padded(FromUrlAlphabet(b64url)))
  {
    ghost var start := FromUrlAlphabet(b64url);
    var b64 := Replaced(Replaced(b64url, '-', "+"), '_', "/");
    while |b64| % 4 != 0
      invariant |start| <= |b64| <= |Padded(start)| && b64 == Padded(start)[..|b64|]
      decreases |Padded(start)| - |b64|
    {
      b64 := b64 + "=";
    }
    assert b64 == Padded(start);
    var bin := Atob(b64);
    if bin.None? {
      return None;
    }
    var out: seq<byte> := [];
    for i := 0 to |bin.value|
      invariant out == bin.value[..i]
    {
      out := out + [bin.value[i]];
    }
    assert bin.value[..|bin.value|] == bin.value;
    bytes := Some(out);
  }

  /** `bin` is the binary string: one character per byte. */
  method BytesToB64url(buffer: seq<byte>) returns (b64url: string)
    ensures b64url == ToUrlAlphabet(Btoa(buffer))
  {
    var bin: seq<byte> := [];
    for i := 0 to |buffer|
      invariant bin == buffer[..i]
    {
      bin := bin + [buffer[i]];
    }
    assert buffer[..|buffer|] == buffer;
    b64url := Replaced(Replaced(Replaced(Btoa(bin), '+', "-"), '/', "_"), '=', "");
  }

  // ---- Laws ----

  /** Section 4 of RFC 4648: three bytes, read as one big-endian number, are four base-64 digits. */
  lemma GroupIsBigEndian(a: byte, b: byte, c: byte) returns (d: seq<int>)
    ensures |d| == 4 && forall i | 0 <= i < 4 :: 0 <= d[i] < 64 && Sextets(a, b, c)[i] == Digit(d[i])
    ensures ((d[0] * 64 + d[1]) * 64 + d[2]) * 64 + d[3] == (a as int * 256 + b as int) * 256 + c as int
  {
    SplitOctets(a as int, b as int, c as int);
    d := [a as int / 4, a as int % 4 * 16 + b as int / 16, b as int % 16 * 4 + c as int / 64, c as int % 64];
  }

  lemma DigitInverse(v: int)
    requires 0 <= v < 64
    ensures Value(Digit(v)) == Some(v)
  {
  }

  lemma {:induction false} ReplacedConcat(a: string, b: string, from: char, to: string)
    ensures Replaced(a + b, from, to) == Replaced(a, from, to) + Replaced(b, from, to)
  {
    if a == "" {
      assert a + b == b;
    } else {
      assert (a + b)[1..] == a[1..] + b;
      ReplacedConcat(a[1..], b, from, to);
    }
  }

  /** The URL alphabet, character by character: '-' for '+', '_' for '/', and no padding. */
  lemma UrlAlphabetStep(a: string, c: char)
    ensures ToUrlAlphabet("") == ""
    ensures ToUrlAlphabet(a + [c]) == ToUrlAlphabet(a) +
      (if c == '+' then "-" else if c == '/' then "_" else if c == '=' then "" else [c])
  {
    var b := Replaced([c], '+', "-");
    ReplacedConcat(a, [c], '+', "-");
    ReplacedConcat(Replaced(a, '+', "-"), b, '/', "_");
    ReplacedConcat(Replaced(Replaced(a, '+', "-"), '/', "_"), Replaced(b, '/', "_"), '=', "");
    assert Replaced("", '+', "-") == "" && [c][1..] == "" && b[1..] == "";
    assert b == if c == '+' then "-" else [c];
  }

  lemma {:induction false} ReplacedAbsent(s: string, from: char, to: string)
    requires from !in s
    ensures Replaced(s, from, to) == s
  {
    if s != "" {
      ReplacedAbsent(s[1..], from, to);
    }
  }

  lemma {:induction false} ReplacedGone(s: string, from: char, to: string)
    requires from !in to
    ensures from !in Replaced(s, from, to)
    ensures forall c :: c in Replaced(s, from, to) ==> c in s || c in to
  {
    if s != "" {
      ReplacedGone(s[1..], from, to);
    }
  }

  /** Replacing back undoes a replacement by a character the text did not contain. */
  lemma {:induction false} ReplacedBack(s: string, from: char, to: char)
    requires to !in s
    ensures Replaced(Replaced(s, from, [to]), to, [from]) == s
  {
    if s != "" {
      ReplacedBack(s[1..], from, to);
      var head := if s[0] == from then [to] else [s[0]];
      ReplacedConcat(head, Replaced(s[1..], from, [to]), to, [from]);
      assert head[1..] == "";
    }
  }

  predicate AllDigits(s: string) { forall i | 0 <= i < |s| :: Value(s[i]).Some? }

  /** The arithmetic of regrouping three octets as four sextets and back. */
  lemma SplitOctets(a: int, b: int, c: int)
    requires 0 <= a < 256 && 0 <= b < 256 && 0 <= c < 256
    ensures 0 <= a / 4 < 64 && 0 <= a % 4 * 16 + b / 16 < 64 && 0 <= b % 16 * 4 + c / 64 < 64 && 0 <= c % 64 < 64
    ensures a / 4 * 4 + (a % 4 * 16 + b / 16) / 16 == a
    ensures (a % 4 * 16 + b / 16) % 16 * 16 + (b % 16 * 4 + c / 64) / 4 == b
    ensures (b % 16 * 4 + c / 64) % 4 * 64 + c % 64 == c
  {
  }

  lemma SextetsInverse(a: byte, b: byte, c: byte)
    ensures AllDigits(Sextets(a, b, c)) && Octets(Values(Sextets(a, b, c))) == [a, b, c]
  {
    hide Digit, Value;
    SplitOctets(a as int, b as int, c as int);
    DigitInverse(a as int / 4);
    DigitInverse(a as int % 4 * 16 + b as int / 16);
    DigitInverse(b as int % 16 * 4 + c as int / 64);
    DigitInverse(c as int % 64);
  }

  lemma PaddedGroup(group: string, rest: string)
    requires |group| == 4
    ensures Padded(group + rest) == group + Padded(rest)
  {
    assert |group + rest| % 4 == |rest| % 4;
  }

  lemma OneByte(a: byte) returns (body: string)
    ensures Btoa([a]) == Padded(body) && |body| == 2 && AllDigits(body) && FromDigits(Values(body)) == [a]
  {
    hide Value, Digit;
    SextetsInverse(a, 0, 0);
    var all := Sextets(a, 0, 0);
    body := all[..2];
    assert seq((4 - |body| % 4) % 4, i => '=') == "==";
    DigitInverse(0);
    assert Values(body) + [0, 0] == Values(all);
  }

  lemma TwoBytes(a: byte, b: byte) returns (body: string)
    ensures Btoa([a, b]) == Padded(body) && |body| == 3 && AllDigits(body) && FromDigits(Values(body)) == [a, b]
  {
    hide Value, Digit;
    SextetsInverse(a, b, 0);
    var all := Sextets(a, b, 0);
    body := all[..3];
    assert seq((4 - |body| % 4) % 4, i => '=') == "=";
    DigitInverse(0);
    assert Values(body) + [0] == Values(all);
  }

  /** btoa's output is a body over the alphabet followed by the padding its length calls for. */
  lemma {:induction false} BtoaShape(bytes: seq<byte>) returns (body: string)
    ensures Btoa(bytes) == Padded(body) && |body| % 4 != 1
    ensures AllDigits(body) && FromDigits(Values(body)) == bytes
    decreases |bytes|
  {
    hide Value, Digit, Padded, Octets, Sextets;
    if bytes == [] {
      body := "";
      EmptyPadded();
    } else if |bytes| == 1 {
      body := OneByte(bytes[0]);
      assert bytes == [bytes[0]];
    } else if |bytes| == 2 {
      body := TwoBytes(bytes[0], bytes[1]);
      assert bytes == [bytes[0], bytes[1]];
    } else {
      var rest := BtoaShape(bytes[3..]);
      var group := Sextets(bytes[0], bytes[1], bytes[2]);
      SextetsInverse(bytes[0], bytes[1], bytes[2]);
      body := group + rest;
      PaddedGroup(group, rest);
      assert Values(body)[..4] == Values(group) && Values(body)[4..] == Values(rest);
      assert bytes == [bytes[0], bytes[1], bytes[2]] + bytes[3..];
    }
  }

  lemma EmptyPadded()
    ensures Padded("") == ""
  {
  }

  lemma {:induction false} NoSpaces(s: string)
    requires forall i | 0 <= i < |s| :: !AsciiSpace(s[i])
    ensures WithoutSpaces(s) == s
  {
    if s != "" {
      NoSpaces(s[1..]);
    }
  }

  lemma PaddedEnds(body: string)
    requires AllDigits(body)
    ensures |body| % 4 != 1 ==> WithoutPadding(Padded(body)) == body
    ensures |body| % 4 == 1 ==> WithoutPadding(Padded(body)) == body + "="
    ensures forall i | 0 <= i < |Padded(body)| :: !AsciiSpace(Padded(body)[i])
  {
    var s := Padded(body);
    assert forall i | 0 <= i < |body| :: s[i] == body[i] && Value(s[i]).Some?;
    assert forall i | |body| <= i < |s| :: s[i] == '=';
  }

  /** atob of a padded body is what the body's digits say, exactly when the body is not one
      character over a multiple of four. */
  lemma AtobOfPadded(body: string)
    requires AllDigits(body)
    ensures Atob(Padded(body)) == if |body| % 4 == 1 then None else Some(FromDigits(Values(body)))
  {
    hide Padded, WithoutPadding, WithoutSpaces, AsciiSpace, FromDigits;
    PaddedEnds(body);
    NoSpaces(Padded(body));
    if |body| % 4 == 1 {
      assert Value((body + "=")[|body|]).None?;
    }
  }

  /** The text with '+' and '/' replaced, before and after the padding is stripped. */
  lemma StrippedBody(body: string)
    requires AllDigits(body)
    ensures ToUrlAlphabet(Padded(body)) == Replaced(Replaced(body, '+', "-"), '/', "_")
    ensures forall c :: c in ToUrlAlphabet(Padded(body)) ==> UrlSafe(c)
  {
    hide Replaced;
    var pad := Padded(body)[|body|..];
    assert Padded(body) == body + pad && forall i | 0 <= i < |pad| :: pad[i] == '=';
    var dashed := Replaced(body, '+', "-");
    var safe := Replaced(dashed, '/', "_");
    ReplacedConcat(body, pad, '+', "-");
    ReplacedAbsent(pad, '+', "-");
    ReplacedConcat(dashed, pad, '/', "_");
    ReplacedAbsent(pad, '/', "_");
    SafeAlphabet(body);
    ReplacedConcat(safe, pad, '=', "");
    ReplacedAbsent(safe, '=', "");
    AllReplaced(pad, '=');
    assert safe + "" == safe;
  }

  lemma SafeAlphabet(body: string)
    requires AllDigits(body)
    ensures forall c :: c in Replaced(Replaced(body, '+', "-"), '/', "_") ==> UrlSafe(c)
  {
    hide Replaced;
    ReplacedGone(body, '+', "-");
    ReplacedGone(Replaced(body, '+', "-"), '/', "_");
    assert '-' != '+' && '_' != '/';
  }

  /** Undoing the two replacements, in the order the source does it. */
  lemma UrlAlphabetInverts(body: string)
    requires AllDigits(body)
    ensures FromUrlAlphabet(ToUrlAlphabet(Padded(body))) == body
    ensures forall c :: c in ToUrlAlphabet(Padded(body)) ==> UrlSafe(c)
  {
    hide Replaced, Padded;
    StrippedBody(body);
    var dashed := Replaced(body, '+', "-");
    ReplacedGone(body, '+', "-");
    SwapReplaced(Replaced(dashed, '/', "_"));
    ReplacedBack(dashed, '/', '_');
    ReplacedBack(body, '+', '-');
    assert "-" == ['-'] && "_" == ['_'] && "+" == ['+'] && "/" == ['/'];
  }

  /** Stripping the padding and changing the alphabet is undone: the loop restores exactly the '='
      characters that were stripped. */
  lemma PaddingRestored(bytes: seq<byte>)
    ensures Padded(FromUrlAlphabet(ToUrlAlphabet(Btoa(bytes)))) == Btoa(bytes)
    ensures forall c :: c in ToUrlAlphabet(Btoa(bytes)) ==> UrlSafe(c)
  {
    var body := BtoaShape(bytes);
    UrlAlphabetInverts(body);
  }

  lemma {:induction false} AllReplaced(s: string, c: char)
    requires forall i | 0 <= i < |s| :: s[i] == c
    ensures Replaced(s, c, "") == ""
  {
    if s != "" {
      AllReplaced(s[1..], c);
    }
  }

  lemma {:induction false} SwapReplaced(s: string)
    ensures Replaced(Replaced(s, '-', "+"), '_', "/") == Replaced(Replaced(s, '_', "/"), '-', "+")
  {
    if s != "" {
      SwapReplaced(s[1..]);
      var head := [s[0]];
      assert s == head + s[1..];
      ReplacedConcat(if s[0] == '-' then "+" else head, Replaced(s[1..], '-', "+"), '_', "/");
      ReplacedConcat(if s[0] == '_' then "/" else head, Replaced(s[1..], '_', "/"), '-', "+");
      assert forall c: char :: [c][1..] == "";
    }
  }

  /** Every byte sequence survives the round trip, in a text that needs no escaping in a URL. */
  lemma RoundTrip(bytes: seq<byte>)
    ensures Atob(Padded(FromUrlAlphabet(ToUrlAlphabet(Btoa(bytes))))) == Some(bytes)
  {
    PaddingRestored(bytes);
    var body := BtoaShape(bytes);
    AtobOfPadded(body);
  }

  // ---- Which texts decode, and which of those are what the encoder prints ----

  lemma FromUrlDigits(s: string)
    requires forall c :: c in s ==> UrlSafe(c)
    ensures AllDigits(FromUrlAlphabet(s)) && |FromUrlAlphabet(s)| == |s|
  {
    hide Replaced;
    ReplacedGone(s, '-', "+");
    ReplacedGone(Replaced(s, '-', "+"), '_', "/");
    ReplacedLength(s, '-', '+');
    ReplacedLength(Replaced(s, '-', "+"), '_', '/');
    assert "+" == ['+'] && "/" == ['/'];
    var t := FromUrlAlphabet(s);
    forall i | 0 <= i < |t|
      ensures Value(t[i]).Some?
    {
      assert t[i] in t && t[i] != '-' && t[i] != '_';
    }
  }

  lemma {:induction false} ReplacedLength(s: string, from: char, to: char)
    ensures |Replaced(s, from, [to])| == |s|
  {
    if s != "" {
      ReplacedLength(s[1..], from, to);
    }
  }

  /** A text over the URL alphabet decodes if and only if its length is not one over a multiple of
      four. */
  lemma DecodesIff(s: string)
    requires forall c :: c in s ==> UrlSafe(c)
    ensures Atob(Padded(FromUrlAlphabet(s))).Some? <==> |s| % 4 != 1
  {
    FromUrlDigits(s);
    AtobOfPadded(FromUrlAlphabet(s));
  }

  /** The bits the last character has left over are zero. */
  predicate NoLeftoverBits(body: string)
    requires AllDigits(body)
  {
    && (|body| % 4 == 2 ==> Value(body[|body| - 1]).value % 16 == 0)
    && (|body| % 4 == 3 ==> Value(body[|body| - 1]).value % 4 == 0)
  }

  lemma ValueInverse(c: char)
    requires Value(c).Some?
    ensures Digit(Value(c).value) == c
  {
  }

  lemma OctetsInverse(d: seq<int>)
    requires |d| == 4 && forall i | 0 <= i < 4 :: 0 <= d[i] < 64
    ensures var o := Octets(d); Sextets(o[0], o[1], o[2]) == [Digit(d[0]), Digit(d[1]), Digit(d[2]), Digit(d[3])]
  {
    hide Digit;
    var o := Octets(d);
    SplitSextets(d[0], d[1], d[2], d[3]);
    assert o[0] as int == d[0] * 4 + d[1] / 16;
    assert o[1] as int == d[1] % 16 * 16 + d[2] / 4;
    assert o[2] as int == d[2] % 4 * 64 + d[3];
  }

  lemma SplitSextets(a: int, b: int, c: int, d: int)
    requires 0 <= a < 64 && 0 <= b < 64 && 0 <= c < 64 && 0 <= d < 64
    ensures (a * 4 + b / 16) / 4 == a
    ensures (a * 4 + b / 16) % 4 * 16 + (b % 16 * 16 + c / 4) / 16 == b
    ensures (b % 16 * 16 + c / 4) % 16 * 4 + (c % 4 * 64 + d) / 64 == c
    ensures (c % 4 * 64 + d) % 64 == d
  {
  }

  lemma EncodesShort(body: string)
    requires AllDigits(body) && 2 <= |body| <= 3
    ensures Btoa(FromDigits(Values(body))) == Padded(body) <==> NoLeftoverBits(body)
  {
    hide Value, Digit;
    var d := Values(body);
    ValueInverse(body[0]);
    ValueInverse(body[1]);
    if |body| == 2 {
      assert FromDigits(d) == [(d[0] * 4 + d[1] / 16) as byte];
      assert Btoa(FromDigits(d)) == [Digit(d[0]), Digit(d[1] / 16 * 16)] + "==" by { Regroup(d[0], d[1] / 16 * 16); }
      DigitInverse(d[1] / 16 * 16);
      assert Padded(body) == [body[0], body[1]] + "==";
      assert Btoa(FromDigits(d))[1] == Digit(d[1] / 16 * 16) && Padded(body)[1] == body[1];
    } else {
      ValueInverse(body[2]);
      OctetsInverse([d[0], d[1], d[2] / 4 * 4, 0]);
      assert d + [0] == [d[0], d[1], d[2], 0];
      assert FromDigits(d) == Octets([d[0], d[1], d[2] / 4 * 4, 0])[..2];
      DigitInverse(d[2] / 4 * 4);
      assert Btoa(FromDigits(d)) == [Digit(d[0]), Digit(d[1]), Digit(d[2] / 4 * 4)] + "=";
      assert Padded(body) == [body[0], body[1], body[2]] + "=";
      assert Btoa(FromDigits(d))[2] == Digit(d[2] / 4 * 4) && Padded(body)[2] == body[2];
    }
  }

  lemma Regroup(a: int, b: int)
    requires 0 <= a < 64 && 0 <= b < 64 && b % 16 == 0
    ensures Sextets((a * 4 + b / 16) as byte, 0, 0)[..2] == [Digit(a), Digit(b)]
  {
  }

  /** Encoding what was decoded gives the same text back if and only if no bits were left over. */
  lemma {:induction false} EncodesBackIff(body: string)
    requires AllDigits(body) && |body| % 4 != 1
    ensures Btoa(FromDigits(Values(body))) == Padded(body) <==> NoLeftoverBits(body)
    decreases |body|
  {
    hide Value, Digit, Padded, Octets, Sextets;
    if body == "" {
      EmptyPadded();
    } else if |body| <= 3 {
      EncodesShort(body);
    } else {
      var group, rest := body[..4], body[4..];
      EncodesBackIff(rest);
      assert body == group + rest;
      PaddedGroup(group, rest);
      GroupEncodesBack(group, rest);
      var tail := Btoa(FromDigits(Values(rest)));
      assert (group + tail)[4..] == tail && (group + Padded(rest))[4..] == Padded(rest);
    }
  }

  lemma GroupEncodesBack(group: string, rest: string)
    requires |group| == 4 && AllDigits(group) && AllDigits(rest) && |rest| % 4 != 1
    ensures AllDigits(group + rest)
    ensures Btoa(FromDigits(Values(group + rest))) == group + Btoa(FromDigits(Values(rest)))
    ensures NoLeftoverBits(group + rest) <==> NoLeftoverBits(rest)
  {
    hide Value, Digit, Octets, Sextets;
    var d := Values(group);
    assert Values(group + rest)[..4] == d && Values(group + rest)[4..] == Values(rest);
    OctetsInverse(d);
    forall i | 0 <= i < 4
      ensures Digit(d[i]) == group[i]
    {
      ValueInverse(group[i]);
    }
    ThreeAtATime(Octets(d), FromDigits(Values(rest)));
    assert |group + rest| % 4 == |rest| % 4;
    assert rest != "" ==> (group + rest)[|group + rest| - 1] == rest[|rest| - 1];
  }

  lemma ThreeAtATime(o: seq<byte>, tail: seq<byte>)
    requires |o| == 3
    ensures Btoa(o + tail) == Sextets(o[0], o[1], o[2]) + Btoa(tail)
  {
    assert (o + tail)[3..] == tail;
  }
}
