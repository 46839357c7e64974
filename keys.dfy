/** Pure string rules around hotkeys: turning a key event's text into the
    lookup string, formatting a binding as a `"key: sound"` listbox line, and
    recovering the key from such a line. */
module Keys {
  import opened Bindings

  const Quote: char := '\''

  /** `str(key).replace("'", "")`: the text of a key event with every single quote removed.
      The text `str(key)` itself comes from the keyboard library and is taken as given. */
  function Canonical(text: string): (key: string)
    ensures Quote !in key
    ensures |key| <= |text|
  {
    if text == [] then []
    else (if text[0] == Quote then [] else [text[0]]) + Canonical(text[1..])
  }

  /** The lookup key keeps exactly the characters of the text other than the quote. */
  lemma {:induction false} CanonicalChars(text: string)
    ensures forall c :: c in Canonical(text) <==> c in text && c != Quote
  {
    if text != [] {
      CanonicalChars(text[1..]);
      assert text == [text[0]] + text[1..];
    }
  }

  /** Canonicalising distributes over concatenation, so it acts character by character. */
  lemma {:induction false} CanonicalAppend(a: string, b: string)
    ensures Canonical(a + b) == Canonical(a) + Canonical(b)
  {
    if a == [] {
      assert a + b == b;
    } else {
      var head := if a[0] == Quote then [] else [a[0]];
      assert (a + b)[0] == a[0] && (a + b)[1..] == a[1..] + b;
      assert Canonical(a + b) == head + Canonical(a[1..] + b);
      CanonicalAppend(a[1..], b);
      assert Canonical(a) == head + Canonical(a[1..]);
    }
  }

  /** Text without quotes is already canonical. */
  lemma {:induction false} CanonicalUnquoted(text: string)
    requires Quote !in text
    ensures Canonical(text) == text
  {
    if text != [] {
      assert text == [text[0]] + text[1..];
      CanonicalUnquoted(text[1..]);
    }
  }

  /** Canonicalisation is idempotent: a canonical key maps to itself. */
  lemma CanonicalIdempotent(text: string)
    ensures Canonical(Canonical(text)) == Canonical(text)
  {
    CanonicalUnquoted(Canonical(text));
  }

  /** A character key whose text is the character between single quotes is looked up by that character. */
  lemma QuotedCharKey(c: char)
    requires c != Quote
    ensures Canonical([Quote, c, Quote]) == [c]
  {
    CanonicalAppend([Quote], [c, Quote]);
    CanonicalAppend([c], [Quote]);
  }

  /** Whitespace as Python's `str.strip()` with no argument understands it (`str.isspace`). */
  predicate IsSpace(c: char) {
    || c == ' ' || '\t' <= c <= '\r' || '\U{1C}' <= c <= '\U{1F}'
    || c == '\U{85}' || c == '\U{A0}' || c == '\U{1680}' || '\U{2000}' <= c <= '\U{200A}'
    || c == '\U{2028}' || c == '\U{2029}' || c == '\U{202F}' || c == '\U{205F}' || c == '\U{3000}'
  }

  /** Neither end of `s` is whitespace. */
  predicate Stripped(s: string) {
    s == [] || (!IsSpace(s[0]) && !IsSpace(s[|s| - 1]))
  }

  /** `s.lstrip()` */
  function StripLeft(s: string): string {
    if s != [] && IsSpace(s[0]) then StripLeft(s[1..]) else s
  }

  /** `s.rstrip()` */
  function StripRight(s: string): string {
    if s != [] && IsSpace(s[|s| - 1]) then StripRight(s[..|s| - 1]) else s
  }

  /** `s.strip()` */
  function Strip(s: string): string {
    StripRight(StripLeft(s))
  }

  /** `lstrip` removes exactly the leading whitespace. */
  lemma {:induction false} StripLeftSpec(s: string)
    ensures var r := StripLeft(s);
      && |r| <= |s| && r == s[|s| - |r|..]
      && (r == [] || !IsSpace(r[0]))
      && forall i :: 0 <= i < |s| - |r| ==> IsSpace(s[i])
  {
    if s != [] && IsSpace(s[0]) {
      var t := s[1..];
      StripLeftSpec(t);
      var r := StripLeft(t);
      assert StripLeft(s) == r;
      assert t[|t| - |r|..] == s[|s| - |r|..];
      forall i | 0 <= i < |s| - |r| ensures IsSpace(s[i]) {
        if i > 0 { assert s[i] == t[i - 1]; }
      }
    }
  }

  /** `rstrip` removes exactly the trailing whitespace. */
  lemma {:induction false} StripRightSpec(s: string)
    ensures var r := StripRight(s);
      && |r| <= |s| && r == s[..|r|]
      && (r == [] || !IsSpace(r[|r| - 1]))
      && forall i :: |r| <= i < |s| ==> IsSpace(s[i])
  {
    if s != [] && IsSpace(s[|s| - 1]) {
      var t := s[..|s| - 1];
      StripRightSpec(t);
      var r := StripRight(t);
      assert StripRight(s) == r;
      assert t[..|r|] == s[..|r|];
      forall i | |r| <= i < |s| ensures IsSpace(s[i]) {
        if i < |t| { assert s[i] == t[i]; }
      }
    }
  }

  /** `strip` leaves no whitespace at either end, and never lengthens the text. */
  lemma StripSpec(s: string)
    ensures Stripped(Strip(s)) && |Strip(s)| <= |s|
  {
    var l := StripLeft(s);
    StripLeftSpec(s);
    StripRightSpec(l);
    var r := StripRight(l);
    if r != [] {
      assert r[0] == l[0];
    }
  }

  /** Stripping text that has no surrounding whitespace changes nothing. */
  lemma StripStripped(s: string)
    requires Stripped(s)
    ensures Strip(s) == s
  {
  }

  /** `s.split(":")[0]`: the text before the first colon, or all of `s` when it has none. */
  function BeforeColon(s: string): (r: string)
    ensures ':' !in r
    ensures |r| <= |s| && r == s[..|r|]
    ensures |r| < |s| ==> s[|r|] == ':'
  {
    if s == [] || s[0] == ':' then [] else [s[0]] + BeforeColon(s[1..])
  }

  /** `f"{key}: {sound}"`, one line of the shortcut listboxes. */
  function FormatLine(key: string, sound: string): string {
    key + ": " + sound
  }

  /** `selected_shortcut.split(":")[0].strip()`: the key that the delete button reads off a line. */
  function ParseKey(line: string): string {
    Strip(BeforeColon(line))
  }

  /** The listbox contents: one line per binding, in dictionary order. The delete button
      reads each line back as its binding's key, when that key has no colon and no
      surrounding whitespace. */
  function ShortcutLines(h: Bindings): (lines: seq<string>)
    ensures |lines| == |h|
    ensures forall i :: 0 <= i < |h| && ':' !in h[i].0 && Stripped(h[i].0) ==> ParseKey(lines[i]) == h[i].0
  {
    var lines := seq(|h|, i requires 0 <= i < |h| => FormatLine(h[i].0, h[i].1));
    assert forall i :: 0 <= i < |h| && ':' !in h[i].0 && Stripped(h[i].0) ==> ParseKey(lines[i]) == h[i].0 by {
      forall i | 0 <= i < |h| && ':' !in h[i].0 && Stripped(h[i].0) ensures ParseKey(lines[i]) == h[i].0 {
        ParseFormatRoundTrip(h[i].0, h[i].1);
      }
    }
    lines
  }

  /** The text before the first colon of a formatted line is the key, when the key has no colon. */
  lemma {:induction false} BeforeColonFormat(key: string, sound: string)
    requires ':' !in key
    ensures BeforeColon(FormatLine(key, sound)) == key
  {
    var line := FormatLine(key, sound);
    if key != [] {
      assert line[1..] == FormatLine(key[1..], sound);
      BeforeColonFormat(key[1..], sound);
    } else {
      assert line[0] == ':';
    }
  }

  /** Round trip: parsing a formatted line recovers a key that has no colon and no surrounding whitespace. */
  lemma ParseFormatRoundTrip(key: string, sound: string)
    requires ':' !in key && Stripped(key)
    ensures ParseKey(FormatLine(key, sound)) == key
  {
    BeforeColonFormat(key, sound);
    StripStripped(key);
  }

  /** The round trip fails for the colon key: its line `":: sound"` parses to the empty key. */
  lemma ColonKeyParsesEmpty(sound: string)
    ensures ParseKey(FormatLine(":", sound)) == ""
  {
    assert FormatLine(":", sound)[0] == ':';
  }
}
