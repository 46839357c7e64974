/** The two `os.path` functions the engine relies on, with POSIX separators:
    `join` for building a sound's path and `splitext` for its extension. */
module Paths {

  const Sep: char := '/'

  /** Index of the last occurrence of `c` among the first `n` characters of `s`, or -1. */
  function LastIndexBefore(s: string, c: char, n: nat): (i: int)
    requires n <= |s|
    ensures -1 <= i < n
    ensures i >= 0 ==> s[i] == c
    ensures forall j :: i < j < n ==> s[j] != c
  {
    if n == 0 then -1
    else if s[n - 1] == c then n - 1
    else LastIndexBefore(s, c, n - 1)
  }

  /** Index of the last occurrence of `c` in `s`, or -1. */
  function LastIndexOf(s: string, c: char): (i: int)
    ensures -1 <= i < |s|
    ensures i >= 0 ==> s[i] == c
    ensures forall j :: i < j < |s| ==> s[j] != c
  {
    LastIndexBefore(s, c, |s|)
  }

  /** `os.path.join(a, b)`: an absolute `b` replaces `a`; otherwise one separator is put between them. */
  function Join(a: string, b: string): string {
    if |b| > 0 && b[0] == Sep then b
    else if a == [] || a[|a| - 1] == Sep then a + b
    else a + [Sep] + b
  }

  /** `os.path.basename(p)`: the text after the last separator. */
  function Basename(p: string): (name: string)
    ensures Sep !in name
  {
    p[LastIndexOf(p, Sep) + 1..]
  }

  /** A path joined onto a directory names the same file: its last component is the plain name. */
  lemma JoinBasename(dir: string, name: string)
    requires Sep !in name
    ensures Basename(Join(dir, name)) == name
  {
    var p := Join(dir, name);
    var k := |p| - |name|;
    assert p[k..] == name;
    assert k > 0 ==> p[k - 1] == Sep;
    var i := LastIndexOf(p, Sep);
    forall j | k <= j < |p| ensures p[j] != Sep {
      assert p[j] == name[j - k];
    }
    assert i >= k - 1;
  }

  predicate AllDots(s: string) {
    forall j :: 0 <= j < |s| ==> s[j] == '.'
  }

  /** `os.path.splitext(name)[1]` for a directory entry's name: from the last dot on,
      unless nothing but dots precedes that dot (so `".wav"` has no extension). */
  function Extension(name: string): string {
    var d := LastIndexOf(name, '.');
    if d >= 0 && !AllDots(name[..d]) then name[d..] else ""
  }

  /** The extension is a four-character suffix `e` starting with a dot, exactly when `e`
      has no other dot and the name before it is not all dots. */
  lemma ExtensionOfLength4(name: string, e: string)
    requires |e| == 4 && e[0] == '.' && '.' !in e[1..]
    ensures Extension(name) == e <==> (|name| >= 4 && name[|name| - 4..] == e && !AllDots(name[..|name| - 4]))
  {
    var d := LastIndexOf(name, '.');
    if Extension(name) == e {
      assert d >= 0 && name[d..] == e;
    }
    if |name| >= 4 && name[|name| - 4..] == e {
      var k := |name| - 4;
      assert name[k] == e[0];
      assert d >= k;
      forall j | k < j < |name| ensures name[j] != '.' {
        assert name[j] == e[j - k] == e[1..][j - k - 1];
      }
    }
  }
}
