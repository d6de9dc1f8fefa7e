/** The text of Telegram alerts (crates/rieko-alerts/src/telegram.rs): escaping,
    truncation to UTF-16 units, and the retry loop. */
module Telegram {
  import opened Numbers
  import opened Sequences
  import opened Wrappers
  import opened Findings
  import opened AlertCooldown

  // ---- Escaping ----

  // The order of `escape_markdown`, the backslash first.
  const METACHARACTERS: string := ['\\', '`', '*', '_', '[', ']', '(', ')']

  predicate IsMeta(c: char) { c in METACHARACTERS }

  // `str::replace(c, "\\c")`.
  function Replace(s: string, c: char): string {
    if s == [] then [] else (if s[0] == c then ['\\', c] else [s[0]]) + Replace(s[1..], c)
  }

  function ReplaceEach(s: string, cs: seq<char>): string {
    if cs == [] then s else Replace(ReplaceEach(s, cs[..|cs| - 1]), cs[|cs| - 1])
  }

  function EscapeMarkdown(s: string): string {
    var s := Replace(s, '\\');
    var s := Replace(s, '`');
    var s := Replace(s, '*');
    var s := Replace(s, '_');
    var s := Replace(s, '[');
    var s := Replace(s, ']');
    var s := Replace(s, '(');
    Replace(s, ')')
  }

  // One pass that puts a backslash before every character of `cs`.
  function Escaped(s: string, cs: seq<char>): string {
    if s == [] then [] else (if s[0] in cs then ['\\', s[0]] else [s[0]]) + Escaped(s[1..], cs)
  }

  lemma {:induction false} ReplaceConcat(a: string, b: string, c: char)
    ensures Replace(a + b, c) == Replace(a, c) + Replace(b, c)
  {
    if a == [] {
      assert a + b == b;
    } else {
      assert (a + b)[1..] == a[1..] + b;
      ReplaceConcat(a[1..], b, c);
    }
  }

  // A later replacement leaves the backslashes of earlier ones alone.
  lemma {:induction false} ReplaceExtendsThePass(s: string, cs: seq<char>, c: char)
    requires c !in cs && c != '\\'
    ensures Replace(Escaped(s, cs), c) == Escaped(s, cs + [c])
  {
    if s != [] {
      var unit := if s[0] in cs then ['\\', s[0]] else [s[0]];
      ReplaceExtendsThePass(s[1..], cs, c);
      ReplaceConcat(unit, Escaped(s[1..], cs), c);
      ReplaceUnit(s[0], cs, c);
    }
  }

  lemma ReplaceUnit(x: char, cs: seq<char>, c: char)
    requires c !in cs && c != '\\'
    ensures Replace(if x in cs then ['\\', x] else [x], c) == if x in cs + [c] then ['\\', x] else [x]
  {
    if x in cs {
      assert x != c && [x][1..] == [];
      assert Replace([x], c) == [x];
      assert ['\\', x][1..] == [x];
    } else {
      assert [x][1..] == [];
    }
  }

  lemma {:induction false} ReplaceIsThePass(s: string, c: char)
    ensures Replace(s, c) == Escaped(s, [c])
  {
    if s != [] {
      ReplaceIsThePass(s[1..], c);
    }
  }

  function Escape(s: string): string { Escaped(s, METACHARACTERS) }

  /** The eight replacements in sequence are one left-to-right pass. */
  lemma EscapeMarkdownIsOnePass(s: string)
    ensures EscapeMarkdown(s) == Escape(s)
  {
    ReplaceIsThePass(s, '\\');
    ReplaceExtendsThePass(s, ['\\'], '`');
    ReplaceExtendsThePass(s, ['\\', '`'], '*');
    ReplaceExtendsThePass(s, ['\\', '`', '*'], '_');
    ReplaceExtendsThePass(s, ['\\', '`', '*', '_'], '[');
    ReplaceExtendsThePass(s, ['\\', '`', '*', '_', '['], ']');
    ReplaceExtendsThePass(s, ['\\', '`', '*', '_', '[', ']'], '(');
    ReplaceExtendsThePass(s, ['\\', '`', '*', '_', '[', ']', '('], ')');
    assert ['\\'] + ['`'] == ['\\', '`'];
    assert ['\\', '`'] + ['*'] == ['\\', '`', '*'];
    assert ['\\', '`', '*'] + ['_'] == ['\\', '`', '*', '_'];
    assert ['\\', '`', '*', '_'] + ['['] == ['\\', '`', '*', '_', '['];
    assert ['\\', '`', '*', '_', '['] + [']'] == ['\\', '`', '*', '_', '[', ']'];
    assert ['\\', '`', '*', '_', '[', ']'] + ['('] == ['\\', '`', '*', '_', '[', ']', '('];
    assert ['\\', '`', '*', '_', '[', ']', '('] + [')'] == METACHARACTERS;
  }

  // Drops each escape backslash.
  function Unescape(t: string): string {
    if t == [] then []
    else if t[0] == '\\' && |t| >= 2 then [t[1]] + Unescape(t[2..])
    else [t[0]] + Unescape(t[1..])
  }

  // A sequence of plain characters and of metacharacters under a backslash.
  predicate WellEscaped(t: string) {
    if t == [] then true
    else if t[0] == '\\' then |t| >= 2 && IsMeta(t[1]) && WellEscaped(t[2..])
    else !IsMeta(t[0]) && WellEscaped(t[1..])
  }

  /** Escaping is undone by dropping the escapes, and its outputs are exactly the
      well-escaped texts. */
  lemma {:induction false} EscapeRoundTrip(s: string)
    ensures WellEscaped(Escape(s)) && Unescape(Escape(s)) == s
  {
    if s != [] {
      EscapeRoundTrip(s[1..]);
      if IsMeta(s[0]) {
        assert Escape(s)[2..] == Escape(s[1..]);
      } else {
        assert Escape(s)[1..] == Escape(s[1..]);
      }
    }
  }

  lemma {:induction false} WellEscapedIsEscaped(t: string)
    requires WellEscaped(t)
    ensures Escape(Unescape(t)) == t
  {
    if t != [] {
      if t[0] == '\\' {
        WellEscapedIsEscaped(t[2..]);
        assert t == t[..2] + t[2..];
      } else {
        WellEscapedIsEscaped(t[1..]);
      }
    }
  }

  // ---- Position by position ----

  // How many backslashes run up to position `i`.
  function Backslashes(t: string, i: nat): nat
    requires i <= |t|
  {
    if i == 0 || t[i - 1] != '\\' then 0 else 1 + Backslashes(t, i - 1)
  }

  lemma {:induction false} BackslashesAfterUnit(unit: string, rest: string, i: nat)
    requires |unit| <= i <= |unit| + |rest|
    requires Backslashes(unit, |unit|) % 2 == 0
    ensures Backslashes(unit + rest, i) % 2 == Backslashes(rest, i - |unit|) % 2
  {
    if i == |unit| {
      BackslashesOfPrefix(unit, rest, i);
    } else {
      assert (unit + rest)[i - 1] == rest[i - 1 - |unit|];
      if (unit + rest)[i - 1] == '\\' {
        BackslashesAfterUnit(unit, rest, i - 1);
      }
    }
  }

  lemma {:induction false} BackslashesOfPrefix(t: string, rest: string, i: nat)
    requires i <= |t|
    ensures Backslashes(t + rest, i) == Backslashes(t, i)
  {
    if i > 0 && t[i - 1] == '\\' {
      BackslashesOfPrefix(t, rest, i - 1);
    }
  }

  lemma UnitIsEven(x: char)
    requires x != '\\'
    ensures Backslashes([x], 1) == 0 && Backslashes(['\\', x], 2) == 0 && Backslashes(['\\', '\\'], 2) == 2
  {
    assert Backslashes(['\\', '\\'], 1) == 1;
  }

  /** In a well-escaped text a character other than the backslash stands under an
      escape exactly when it is a metacharacter. */
  lemma {:induction false} MetacharactersAreEscaped(t: string, i: nat)
    requires WellEscaped(t) && i < |t| && t[i] != '\\'
    ensures IsMeta(t[i]) <==> Backslashes(t, i) % 2 == 1
    decreases |t|
  {
    if t[0] == '\\' {
      var unit := t[..2];
      assert t == unit + t[2..] && unit == ['\\', t[1]];
      UnitIsEven(if t[1] == '\\' then 'a' else t[1]);
      if i >= 2 {
        BackslashesAfterUnit(unit, t[2..], i);
        MetacharactersAreEscaped(t[2..], i - 2);
      } else {
        assert Backslashes(t, 0) == 0;
      }
    } else {
      var unit := t[..1];
      assert t == unit + t[1..] && unit == [t[0]];
      UnitIsEven(t[0]);
      if i >= 1 {
        BackslashesAfterUnit(unit, t[1..], i);
        MetacharactersAreEscaped(t[1..], i - 1);
      }
    }
  }

  /** A cut leaves a well-escaped text exactly when it does not fall between a
      backslash and what it escapes. */
  lemma {:induction false} CutKeepsEscapesIff(t: string, n: nat)
    requires WellEscaped(t) && n <= |t|
    ensures WellEscaped(t[..n]) <==> Backslashes(t, n) % 2 == 0
    decreases |t|
  {
    if t == [] || n == 0 {
      assert t[..n] == [];
    } else if t[0] == '\\' {
      var unit := t[..2];
      assert t == unit + t[2..] && unit == ['\\', t[1]];
      UnitIsEven(if t[1] == '\\' then 'a' else t[1]);
      if n == 1 {
        assert t[..n] == ['\\'] && Backslashes(t, 0) == 0;
      } else {
        BackslashesAfterUnit(unit, t[2..], n);
        CutKeepsEscapesIff(t[2..], n - 2);
        DropOfTake(t, 2, n);
      }
    } else {
      var unit := t[..1];
      assert t == unit + t[1..] && unit == [t[0]];
      UnitIsEven(t[0]);
      BackslashesAfterUnit(unit, t[1..], n);
      CutKeepsEscapesIff(t[1..], n - 1);
      assert t[..n][1..] == t[1..][..n - 1];
    }
  }

  // ---- Truncation ----

  // `char::len_utf16`, as in section 3.9 of the Unicode Standard.
  function LenUtf16(c: char): (n: nat)
    ensures 1 <= n <= 2
  {
    if c as int < 0x1_0000 then 1 else 2
  }

  function Units(s: string): nat {
    if s == [] then 0 else Units(s[..|s| - 1]) + LenUtf16(s[|s| - 1])
  }

  const ELLIPSIS: char := '\U{2026}'

  // The longest prefix of whole characters within `target` units.
  ghost predicate LongestWithin(s: string, n: nat, target: nat) {
    n <= |s| && Units(s[..n]) <= target && (n < |s| ==> Units(s[..n + 1]) > target)
  }

  lemma UnitsStep(s: string, i: nat)
    requires i < |s|
    ensures Units(s[..i + 1]) == Units(s[..i]) + LenUtf16(s[i])
  {
    assert s[..i + 1][..i] == s[..i];
  }

  method TotalUnits(s: string) returns (total: nat)
    ensures total == Units(s)
  {
    total := 0;
    for i := 0 to |s|
      invariant total == Units(s[..i])
    {
      UnitsStep(s, i);
      total := total + LenUtf16(s[i]);
    }
    assert s[..|s|] == s;
  }

  // The first `n` characters and the ellipsis, which nothing at all goes without.
  function CutAt(s: string, n: nat): string
    requires n <= |s|
  {
    s[..n] + (if n > 0 then [ELLIPSIS] else [])
  }

  lemma {:induction false} CutFits(s: string, n: nat)
    requires n <= |s|
    ensures n <= Units(s[..n]) && Units(CutAt(s, n)) == if n == 0 then 0 else Units(s[..n]) + 1
  {
    if n > 0 {
      CutFits(s, n - 1);
      UnitsStep(s, n - 1);
      UnitsPush(s[..n], ELLIPSIS);
    }
  }

  /** What fits is returned as it is. Otherwise the result is the longest prefix
      that leaves room for the ellipsis, followed by it unless nothing is left. */
  method TruncateUtf16(s: string, maxUnits: nat) returns (out: string)
    ensures Units(s) <= maxUnits ==> out == s
    ensures Units(s) > maxUnits ==>
              exists n: nat :: LongestWithin(s, n, SaturatingPred(maxUnits)) && out == CutAt(s, n)
    ensures Units(out) <= maxUnits
  {
    var total := TotalUnits(s);
    if total <= maxUnits {
      return s;
    }
    var target := SaturatingPred(maxUnits);
    out := [];
    var units, i := 0, 0;
    while i < |s|
      invariant i <= |s| && out == s[..i] && units == Units(s[..i]) && units <= target
    {
      UnitsStep(s, i);
      var u := LenUtf16(s[i]);
      if units + u > target {
        break;
      }
      out := out + [s[i]];
      units := units + u;
      i := i + 1;
    }
    CutFits(s, i);
    assert LongestWithin(s, i, target);
    if units > 0 {
      out := out + [ELLIPSIS];
    }
    assert out == CutAt(s, i);
  }

  function SaturatingPred(n: nat): nat {
    if n == 0 then 0 else n - 1
  }

  lemma UnitsPush(s: string, c: char)
    ensures Units(s + [c]) == Units(s) + LenUtf16(c)
  {
    assert (s + [c])[..|s|] == s;
  }

  lemma {:induction false} LongerTakesMore(s: string, m: nat, n: nat)
    requires m <= n <= |s|
    ensures Units(s[..m]) + (n - m) <= Units(s[..n])
  {
    if m < n {
      LongerTakesMore(s, m, n - 1);
      assert s[..n][..n - 1] == s[..n - 1];
    }
  }

  /** There is one such prefix, and no longer one fits. */
  lemma LongestIsUnique(s: string, target: nat, m: nat, n: nat)
    requires LongestWithin(s, m, target) && n <= |s|
    ensures Units(s[..n]) <= target <==> n <= m
  {
    if n <= m {
      LongerTakesMore(s, n, m);
    } else {
      LongerTakesMore(s, m + 1, n);
    }
  }

  // ---- The message ----

  function Emoji(severity: Severity): string {
    match severity
    case Critical => ['\U{1F6A8}']
    case Warning => ['\U{26A0}', '\U{FE0F}']
    case Info => ['\U{2139}', '\U{FE0F}']
  }

  const MAX_MESSAGE_UTF16: nat := 4000
  const BREAK: string := ['\n', '\n']

  // The format of `build_text`.
  function Layout(emoji: string, title: string, message: string, key: string): string {
    emoji + [' '] + ['*'] + title + ['*'] + BREAK + message + BREAK + ['`'] + key + ['`']
  }

  // What `build_text` formats, before the cut.
  function Text(a: Alert): string {
    Layout(Emoji(a.severity), EscapeMarkdown(a.title), EscapeMarkdown(a.message), EscapeMarkdown(a.dedupKey))
  }

  // Splits at the first delimiter that is not under an escape.
  function Until(t: string, d: char): Option<(string, string)> {
    if t == [] then None
    else if t[0] == d then Some(([], t[1..]))
    else if t[0] == '\\' then
      if |t| < 2 then None
      else
        match Until(t[2..], d)
        case None => None
        case Some(p) => Some((t[..2] + p.0, p.1))
    else
      match Until(t[1..], d)
      case None => None
      case Some(p) => Some(([t[0]] + p.0, p.1))
  }

  lemma {:induction false} UntilFinds(e: string, d: char, rest: string)
    requires WellEscaped(e) && IsMeta(d) && d != '\\'
    ensures Until(e + [d] + rest, d) == Some((e, rest))
  {
    var t := e + [d] + rest;
    if e == [] {
      assert t == [d] + rest && t[1..] == rest;
    } else if e[0] == '\\' {
      UntilFinds(e[2..], d, rest);
      assert t[2..] == e[2..] + [d] + rest && t[..2] + e[2..] == e;
    } else {
      UntilFinds(e[1..], d, rest);
      assert t[1..] == e[1..] + [d] + rest && [t[0]] + e[1..] == e;
    }
  }

  lemma {:induction false} EscapeConcat(a: string, b: string)
    ensures Escape(a + b) == Escape(a) + Escape(b)
  {
    if a == [] {
      assert a + b == b;
    } else {
      assert (a + b)[1..] == a[1..] + b;
      EscapeConcat(a[1..], b);
    }
  }

  lemma {:induction false} PlainIsUnchanged(s: string)
    requires forall i | 0 <= i < |s| :: !IsMeta(s[i])
    ensures Escape(s) == s
  {
    if s != [] {
      PlainIsUnchanged(s[1..]);
    }
  }

  datatype Fields = Fields(header: string, title: string, body: string, key: string)

  // A reader that knows the layout and trusts only unescaped delimiters.
  function ReadKey(t: string): Option<string> {
    match Until(t, '`')
    case None => None
    case Some(key) => if key.1 == [] then Some(Unescape(key.0)) else None
  }

  function ReadBody(t: string): Option<(string, string)> {
    match Until(t, '`')
    case None => None
    case Some(body) =>
      match ReadKey(body.1)
      case None => None
      case Some(key) => Some((Unescape(body.0), key))
  }

  function ReadTitle(t: string): Option<(string, string, string)> {
    match Until(t, '*')
    case None => None
    case Some(title) =>
      match ReadBody(title.1)
      case None => None
      case Some(rest) => Some((Unescape(title.0), rest.0, rest.1))
  }

  function ReadBack(text: string): Option<Fields> {
    match Until(text, '*')
    case None => None
    case Some(header) =>
      match ReadTitle(header.1)
      case None => None
      case Some(rest) => Some(Fields(Unescape(header.0), rest.0, rest.1, rest.2))
  }

  lemma FieldIsRead(s: string, d: char, rest: string)
    requires IsMeta(d) && d != '\\'
    ensures Until(Escape(s) + [d] + rest, d) == Some((Escape(s), rest)) && Unescape(Escape(s)) == s
  {
    EscapeRoundTrip(s);
    UntilFinds(Escape(s), d, rest);
  }

  lemma Regroup(e: string, t: string, m: string, k: string)
    ensures Layout(e, t, m, k) ==
            e + [' '] + ['*'] + (t + ['*'] + ((BREAK + m + BREAK) + ['`'] + (k + ['`'] + [])))
  {}

  lemma BodyIsEscaped(message: string)
    ensures Escape(BREAK + message + BREAK) == BREAK + Escape(message) + BREAK
  {
    PlainIsUnchanged(BREAK);
    EscapeConcat(BREAK, message);
    EscapeConcat(BREAK + message, BREAK);
  }

  // The layout, as escaped fields between delimiters.
  lemma TextLayout(a: Alert)
    ensures Text(a) == Escape(Emoji(a.severity) + [' ']) + ['*'] +
                       (Escape(a.title) + ['*'] + (Escape(BREAK + a.message + BREAK) + ['`'] +
                                                   (Escape(a.dedupKey) + ['`'] + [])))
  {
    EscapeMarkdownIsOnePass(a.title);
    EscapeMarkdownIsOnePass(a.message);
    EscapeMarkdownIsOnePass(a.dedupKey);
    PlainIsUnchanged(Emoji(a.severity) + [' ']);
    BodyIsEscaped(a.message);
    Regroup(Emoji(a.severity), Escape(a.title), Escape(a.message), Escape(a.dedupKey));
  }

  lemma KeyIsRead(key: string)
    ensures ReadKey(Escape(key) + ['`'] + []) == Some(key)
  {
    FieldIsRead(key, '`', []);
  }

  lemma BodyIsRead(body: string, key: string)
    ensures ReadBody(Escape(body) + ['`'] + (Escape(key) + ['`'] + [])) == Some((body, key))
  {
    KeyIsRead(key);
    FieldIsRead(body, '`', Escape(key) + ['`'] + []);
  }

  lemma TitleIsRead(title: string, body: string, key: string)
    ensures ReadTitle(Escape(title) + ['*'] + (Escape(body) + ['`'] + (Escape(key) + ['`'] + [])))
            == Some((title, body, key))
  {
    BodyIsRead(body, key);
    FieldIsRead(title, '*', Escape(body) + ['`'] + (Escape(key) + ['`'] + []));
  }

  /** Untrusted fields cannot break the format: whatever they contain, a reader
      gets back exactly the title, the message and the key that went in. */
  lemma TextReadsBack(a: Alert)
    ensures ReadBack(Text(a)) ==
            Some(Fields(Emoji(a.severity) + [' '], a.title, BREAK + a.message + BREAK, a.dedupKey))
  {
    var header, body := Emoji(a.severity) + [' '], BREAK + a.message + BREAK;
    TextLayout(a);
    TitleIsRead(a.title, body, a.dedupKey);
    FieldIsRead(header, '*', Escape(a.title) + ['*'] + (Escape(body) + ['`'] + (Escape(a.dedupKey) + ['`'] + [])));
  }

  // ---- What a cut does to the layout ----

  predicate Tail(tail: string) { tail == [] || tail == [ELLIPSIS] }

  lemma {:induction false} CutFieldIsNotRead(e: string, n: nat, d: char, tail: string)
    requires WellEscaped(e) && n <= |e| && IsMeta(d) && d != '\\' && Tail(tail)
    ensures Until(e[..n] + tail, d) == None
    decreases |e|
  {
    var t := e[..n] + tail;
    if n == 0 {
      assert t == tail;
      assert tail != [] ==> tail[1..] == [];
    } else if e[0] == '\\' {
      if n == 1 {
        assert t == ['\\'] + tail;
        assert tail != [] ==> t[2..] == [];
      } else {
        CutFieldIsNotRead(e[2..], n - 2, d, tail);
        assert t[2..] == e[2..][..n - 2] + tail;
      }
    } else {
      CutFieldIsNotRead(e[1..], n - 1, d, tail);
      assert t[1..] == e[1..][..n - 1] + tail;
    }
  }

  lemma CutFieldRead(s: string, d: char, rest: string, n: nat, tail: string)
    requires IsMeta(d) && d != '\\' && n <= |Escape(s) + [d] + rest| && Tail(tail)
    ensures var e := Escape(s);
            Until((e + [d] + rest)[..n] + tail, d) ==
            if n <= |e| then None else Some((e, rest[..n - |e| - 1] + tail))
  {
    var e := Escape(s);
    EscapeRoundTrip(s);
    if n <= |e| {
      assert (e + [d] + rest)[..n] == e[..n];
      CutFieldIsNotRead(e, n, d, tail);
    } else {
      var m := n - |e| - 1;
      assert (e + [d] + rest)[..n] + tail == e + [d] + (rest[..m] + tail);
      UntilFinds(e, d, rest[..m] + tail);
    }
  }

  // From the last delimiter back to the first.
  lemma CutKey(key: string, n: nat, tail: string)
    requires Tail(tail) && n < |Escape(key) + ['`'] + []|
    ensures ReadKey((Escape(key) + ['`'] + [])[..n] + tail) == None
  {
    CutFieldRead(key, '`', [], n, tail);
  }

  lemma CutBody(body: string, key: string, n: nat, tail: string)
    requires Tail(tail) && n < |Escape(body) + ['`'] + (Escape(key) + ['`'] + [])|
    ensures ReadBody((Escape(body) + ['`'] + (Escape(key) + ['`'] + []))[..n] + tail) == None
  {
    CutFieldRead(body, '`', Escape(key) + ['`'] + [], n, tail);
    if n > |Escape(body)| {
      CutKey(key, n - |Escape(body)| - 1, tail);
    }
  }

  lemma CutTitle(title: string, body: string, key: string, n: nat, tail: string)
    requires Tail(tail) && n < |Escape(title) + ['*'] + (Escape(body) + ['`'] + (Escape(key) + ['`'] + []))|
    ensures ReadTitle((Escape(title) + ['*'] + (Escape(body) + ['`'] + (Escape(key) + ['`'] + [])))[..n] + tail)
            == None
  {
    CutFieldRead(title, '*', Escape(body) + ['`'] + (Escape(key) + ['`'] + []), n, tail);
    if n > |Escape(title)| {
      CutBody(body, key, n - |Escape(title)| - 1, tail);
    }
  }

  /** A text that has been cut never reads back: its last delimiter is gone. */
  lemma CutTextNeverReadsBack(a: Alert, n: nat, tail: string)
    requires n < |Text(a)| && Tail(tail)
    ensures ReadBack(Text(a)[..n] + tail) == None
  {
    var header, body := Emoji(a.severity) + [' '], BREAK + a.message + BREAK;
    var rest := Escape(a.title) + ['*'] + (Escape(body) + ['`'] + (Escape(a.dedupKey) + ['`'] + []));
    TextLayout(a);
    CutFieldRead(header, '*', rest, n, tail);
    if n > |Escape(header)| {
      CutTitle(a.title, body, a.dedupKey, n - |Escape(header)| - 1, tail);
    }
  }

  lemma LongestIsShort(s: string, n: nat)
    requires LongestWithin(s, n, SaturatingPred(MAX_MESSAGE_UTF16)) && Units(s) > MAX_MESSAGE_UTF16
    ensures n < |s|
  {
    assert s[..|s|] == s;
  }

  lemma TruncatedNeverReadsBack(a: Alert, text: string)
    requires Units(Text(a)) > MAX_MESSAGE_UTF16
    requires exists n: nat :: LongestWithin(Text(a), n, SaturatingPred(MAX_MESSAGE_UTF16)) && text == CutAt(Text(a), n)
    ensures ReadBack(text) == None
  {
    var n: nat :| LongestWithin(Text(a), n, SaturatingPred(MAX_MESSAGE_UTF16)) && text == CutAt(Text(a), n);
    LongestIsShort(Text(a), n);
    CutTextNeverReadsBack(a, n, if n > 0 then [ELLIPSIS] else []);
  }

  /** The message reads back exactly when it needed no cut. */
  method BuildText(a: Alert) returns (text: string)
    ensures Units(text) <= 4000
    ensures Units(Text(a)) <= 4000 ==> text == Text(a)
    ensures ReadBack(text).Some? <==> Units(Text(a)) <= 4000
  {
    text := TruncateUtf16(Text(a), MAX_MESSAGE_UTF16);
    if Units(Text(a)) <= MAX_MESSAGE_UTF16 {
      TextReadsBack(a);
    } else {
      TruncatedNeverReadsBack(a, text);
    }
  }

  lemma BodyDeterminesTheMessage(m: string, m': string)
    requires BREAK + m + BREAK == BREAK + m' + BREAK
    ensures m == m'
  {
    assert m == (BREAK + m + BREAK)[2..2 + |m|];
    assert m' == (BREAK + m' + BREAK)[2..2 + |m'|];
  }

  lemma EmojiDeterminesTheSeverity(s: Severity, s': Severity)
    requires Emoji(s) + [' '] == Emoji(s') + [' ']
    ensures s == s'
  {
    assert (Emoji(s) + [' '])[0] == (Emoji(s') + [' '])[0];
  }

  lemma TextDeterminesTheAlert(a: Alert, b: Alert)
    requires Text(a) == Text(b)
    ensures a == b
  {
    TextReadsBack(a);
    TextReadsBack(b);
    EmojiDeterminesTheSeverity(a.severity, b.severity);
    BodyDeterminesTheMessage(a.message, b.message);
  }

  // ---- Retries ----

  datatype Attempt = Delivered | Permanent | Retry

  // `(1u32 << i).min(1 << 30)`, whose shift a release build takes modulo 32.
  function Factor(i: nat): nat {
    var shift := i % 32;
    Pow2(if shift > 30 then 30 else shift)
  }

  function Pow2(n: nat): (p: nat)
    ensures p > 0
  {
    if n == 0 then 1 else 2 * Pow2(n - 1)
  }

  // `Duration::MAX`, in nanoseconds; multiplying past it panics.
  const LONGEST_WAIT: int := MAX_U64 * 1_000_000_000 + 999_999_999

  datatype SendOutcome = Sent | Refused | Panicked

  /** The attempts stop at the first answer that is not worth a retry, or at the
      configured number, or where the next wait would be too long to represent;
      there is one wait between two attempts. */
  method SendWithRetry(answer: nat -> Attempt, maxAttempts: nat, baseBackoff: nat)
    returns (outcome: SendOutcome, attempts: nat, waits: seq<nat>)
    ensures 1 <= attempts && (maxAttempts >= 1 ==> attempts <= maxAttempts)
    ensures forall i | 0 <= i < attempts - 1 :: answer(i).Retry? && baseBackoff * Factor(i) <= LONGEST_WAIT
    ensures outcome.Sent? <==> answer(attempts - 1).Delivered?
    ensures outcome.Refused? <==>
            answer(attempts - 1).Permanent? || (answer(attempts - 1).Retry? && attempts >= maxAttempts)
    ensures outcome.Panicked? ==> baseBackoff * Factor(attempts - 1) > LONGEST_WAIT
    ensures |waits| == attempts - 1 && forall i | 0 <= i < |waits| :: waits[i] == baseBackoff * Factor(i)
  {
    attempts, waits := 0, [];
    while true
      invariant |waits| == attempts && (attempts > 0 ==> attempts < maxAttempts)
      invariant forall i | 0 <= i < attempts :: answer(i).Retry? && baseBackoff * Factor(i) <= LONGEST_WAIT
      invariant forall i | 0 <= i < |waits| :: waits[i] == baseBackoff * Factor(i)
      decreases maxAttempts - attempts
    {
      attempts := attempts + 1;
      match answer(attempts - 1) {
        case Delivered =>
          return Sent, attempts, waits;
        case Permanent =>
          return Refused, attempts, waits;
        case Retry =>
          if attempts >= maxAttempts {
            return Refused, attempts, waits;
          }
          var delay := baseBackoff * Factor(attempts - 1);
          if delay > LONGEST_WAIT {
            return Panicked, attempts, waits;
          }
          waits := waits + [delay];
      }
    }
  }

  lemma {:induction false} Pow2Grows(m: nat, n: nat)
    requires m <= n
    ensures Pow2(m) <= Pow2(n) && (m < n ==> Pow2(m) < Pow2(n))
  {
    if m < n {
      Pow2Grows(m, n - 1);
    }
  }

  lemma FactorGrows(i: nat, j: nat)
    requires i <= j < 32
    ensures Factor(i) <= Factor(j)
  {
    assert i % 32 == i && j % 32 == j;
    Pow2Grows(if i > 30 then 30 else i, if j > 30 then 30 else j);
  }

  /** The wait doubles from one attempt to the next up to 2^30 times the base, stays
      there once, and after every 32 waits starts again. */
  lemma BackoffDoubles(i: nat)
    ensures Factor(0) == 1
    ensures i < 30 ==> Factor(i + 1) == 2 * Factor(i)
    ensures Factor(31) == Factor(30)
    ensures Factor(i + 32) == Factor(i)
  {
    assert (i + 32) % 32 == i % 32;
    if i < 30 {
      assert i % 32 == i && (i + 1) % 32 == i + 1;
    }
  }

  lemma FactorFallsBack()
    ensures Factor(32) < Factor(1)
  {
    Pow2Grows(0, 1);
  }

  /** The waits never shrink from one attempt to the next exactly as long as the
      shift stays within the word. */
  lemma BackoffNeverShrinksIff(waits: nat)
    ensures (forall i, j | 0 <= i < j < waits :: Factor(i) <= Factor(j)) <==> waits <= 32
  {
    if waits <= 32 {
      forall i: nat, j: nat | i < j < waits
        ensures Factor(i) <= Factor(j)
      {
        FactorGrows(i, j);
      }
    } else {
      FactorFallsBack();
    }
  }
}
