/** Clip naming of `prepare`: the name is the clip's directory relative to the
    input root and its base name without extension, joined by the path
    separator; the file-system-safe variant replaces every separator by
    `"----"`. The separator is the POSIX one. */
module Naming {

  /** The platform path separator (`SEPARATOR`). */
  const Separator: char := '/'

  /** What each separator becomes in a file name (`SEPARATOR_KEY`). */
  const SeparatorKey: string := "----"

  /** `${rel.dir}${SEPARATOR}${rel.name}`: the clip's manifest key. */
  function ClipName(dir: string, base: string): string
  {
    dir + [Separator] + base
  }

  /** `name.replaceAll(SEPARATOR, SEPARATOR_KEY)`: the name used for the
      clip's files. */
  function Escape(s: string): (r: string)
    ensures Separator !in r
    ensures |r| >= |s|
  {
    if s == [] then []
    else (if s[0] == Separator then SeparatorKey else [s[0]]) + Escape(s[1..])
  }

  /** Turns every `"----"` back into a separator, scanning left to right. */
  function Unescape(t: string): string
  {
    if |t| >= 4 && t[..4] == SeparatorKey then [Separator] + Unescape(t[4..])
    else if t == [] then []
    else [t[0]] + Unescape(t[1..])
  }

  /** A name without a separator is its own safe name. */
  lemma {:induction false} EscapeKeepsPlainNames(s: string)
    requires Separator !in s
    ensures Escape(s) == s
  {
    if s != [] {
      EscapeKeepsPlainNames(s[1..]);
    }
  }

  /** The escape can be undone, but only for names that contain no `'-'`. */
  lemma {:induction false} UnescapeEscape(s: string)
    requires '-' !in s
    ensures Unescape(Escape(s)) == s
  {
    if s != [] {
      var rest := Escape(s[1..]);
      UnescapeEscape(s[1..]);
      if s[0] == Separator {
        assert Escape(s) == SeparatorKey + rest;
        assert (SeparatorKey + rest)[..4] == SeparatorKey;
        assert (SeparatorKey + rest)[4..] == rest;
      } else {
        assert Escape(s) == [s[0]] + rest;
        assert Escape(s)[0] != '-';
        assert Escape(s)[1..] == rest;
      }
    }
  }

  /** Escaping distributes over concatenation. */
  lemma {:induction false} EscapeAppend(a: string, b: string)
    ensures Escape(a + b) == Escape(a) + Escape(b)
  {
    if a != [] {
      assert (a + b)[0] == a[0];
      assert (a + b)[1..] == a[1..] + b;
      EscapeAppend(a[1..], b);
    } else {
      assert a + b == b;
    }
  }

  /** A directory `d/a` and a sibling directory literally named `d----a`
      give different manifest keys but the same safe name, hence the same
      output file for equal base names. */
  lemma EscapeCollision(d: string, a: string, b: string)
    ensures ClipName(d + [Separator] + a, b) != ClipName(d + SeparatorKey + a, b)
    ensures Escape(ClipName(d + [Separator] + a, b)) == Escape(ClipName(d + SeparatorKey + a, b))
  {
    var deep, flat := ClipName(d + [Separator] + a, b), ClipName(d + SeparatorKey + a, b);
    assert deep[|d|] != flat[|d|];
    var sep: string := [Separator];
    var tail := a + sep + b;
    assert deep == d + (sep + tail);
    assert flat == d + (SeparatorKey + tail);
    EscapeAppend(d, sep + tail);
    EscapeAppend(sep, tail);
    EscapeAppend(d, SeparatorKey + tail);
    EscapeAppend(SeparatorKey, tail);
    EscapeKeepsPlainNames(SeparatorKey);
  }

  /** Index of the last separator in `s`, or -1 if there is none: where
      `parse` splits a relative path into its directory and base name. */
  function LastSeparator(s: string): (k: int)
    ensures -1 <= k < |s|
    ensures k >= 0 ==> s[k] == Separator
    ensures forall j :: k < j < |s| ==> s[j] != Separator
  {
    if s == [] then -1
    else if s[|s| - 1] == Separator then |s| - 1
    else LastSeparator(s[..|s| - 1])
  }

  /** The separator inserted by `ClipName` is the last one in the name. */
  lemma {:induction false} LastSeparatorOfClipName(dir: string, base: string)
    requires Separator !in base
    ensures LastSeparator(ClipName(dir, base)) == |dir|
    decreases |base|
  {
    if base != [] {
      var init := base[..|base| - 1];
      assert ClipName(dir, base)[..|ClipName(dir, base)| - 1] == ClipName(dir, init);
      assert base[|base| - 1] in base;
      LastSeparatorOfClipName(dir, init);
    }
  }

  /** Since a base name never contains a separator, the name determines
      the directory and the base name it was built from. */
  lemma ClipNameInjective(d1: string, b1: string, d2: string, b2: string)
    requires Separator !in b1 && Separator !in b2
    ensures ClipName(d1, b1) == ClipName(d2, b2) <==> d1 == d2 && b1 == b2
  {
    var n1, n2 := ClipName(d1, b1), ClipName(d2, b2);
    if n1 == n2 {
      LastSeparatorOfClipName(d1, b1);
      LastSeparatorOfClipName(d2, b2);
      assert b1 == n1[|d1| + 1..];
      assert b2 == n2[|d2| + 1..];
      assert d1 == n1[..|d1|];
      assert d2 == n2[..|d2|];
    }
  }
}
