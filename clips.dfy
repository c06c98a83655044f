/** The tuple that `prepare` pushes for every clip and that `concat` and
    `intoHowler` consume: `[outfile, result, name]`. Durations are whole
    milliseconds. */
module Clips {

  /** `path` is the clip's output file, `ms` its re-measured duration and
      `name` its unescaped name (the manifest key). */
  datatype Clip = Clip(path: string, ms: nat, name: string)

  /** Total duration of a run of clips played back to back. */
  function TotalMs(s: seq<Clip>): nat
  {
    if s == [] then 0 else TotalMs(s[..|s| - 1]) + s[|s| - 1].ms
  }

  /** The output files of a run of clips, in the same order. */
  function Paths(s: seq<Clip>): seq<string>
  {
    seq(|s|, i requires 0 <= i < |s| => s[i].path)
  }

  /** The same clip with its output file moved under `dir`. */
  function Rebase(dir: string, c: Clip): Clip
  {
    Clip(dir + c.path, c.ms, c.name)
  }

  /** A run of clips with every output file moved under `dir`. */
  function Rebased(dir: string, s: seq<Clip>): seq<Clip>
  {
    seq(|s|, i requires 0 <= i < |s| => Rebase(dir, s[i]))
  }

  /** Adding one more clip to a prefix adds exactly its duration. */
  lemma TotalMsPrefix(s: seq<Clip>, i: nat)
    requires i < |s|
    ensures TotalMs(s[..i + 1]) == TotalMs(s[..i]) + s[i].ms
  {
    assert s[..i + 1][..i] == s[..i];
  }

  /** Prepending a clip adds its duration in front. */
  lemma {:induction false} TotalMsCons(c: Clip, s: seq<Clip>)
    ensures TotalMs([c] + s) == c.ms + TotalMs(s)
  {
    if s != [] {
      var init := s[..|s| - 1];
      assert ([c] + s)[..|s|] == [c] + init;
      TotalMsCons(c, init);
    }
  }

  /** A prefix plays for its first clip and then for the rest of it. */
  lemma TotalMsPrefixCons(s: seq<Clip>, i: nat)
    requires 0 < i <= |s|
    ensures TotalMs(s[..i]) == s[0].ms + TotalMs(s[1..][..i - 1])
  {
    assert s[..i] == [s[0]] + s[1..][..i - 1];
    TotalMsCons(s[0], s[1..][..i - 1]);
  }

  /** A longer prefix never plays for less time. */
  lemma {:induction false} TotalMsPrefixMonotone(s: seq<Clip>, i: nat, j: nat)
    requires i <= j <= |s|
    ensures TotalMs(s[..i]) <= TotalMs(s[..j])
    decreases j - i
  {
    if i < j {
      TotalMsPrefix(s, i);
      TotalMsPrefixMonotone(s, i + 1, j);
    }
  }
}
