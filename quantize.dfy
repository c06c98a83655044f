/** Duration quantization of `prepare`: the measured duration is rounded up to
    the next 0.1 s boundary, then the clip is padded with 0.1 s of silence and
    trimmed to exactly that length. Times are whole milliseconds. */
module Quantize {

  /** 0.1 s, the grid every clip length is rounded up to. */
  const Grain: nat := 100

  /** 0.1 s of silence appended by `pad 0 0.1` before trimming. */
  const PadMs: nat := 100

  /** A whole number of 0.1 s. */
  predicate OnGrid(ms: nat)
  {
    ms % Grain == 0
  }

  /** `Math.ceil(duration * 10) / 10`: the smallest multiple of 0.1 s that is
      not shorter than `ms`. */
  function Ceil(ms: nat): (r: nat)
    ensures OnGrid(r)
    ensures ms <= r < ms + Grain
  {
    (ms + Grain - 1) / Grain * Grain
  }

  /** No point of the grid lies between `ms` and its ceiling. */
  lemma CeilIsLeast(ms: nat, m: nat)
    requires OnGrid(m) && ms <= m
    ensures Ceil(ms) <= m
  {
  }

  /** A duration already on the grid is left as it is. */
  lemma CeilFixesGrid(ms: nat)
    requires OnGrid(ms)
    ensures Ceil(ms) == ms
  {
  }

  /** Longer clips never get a shorter slot. */
  lemma CeilMonotone(a: nat, b: nat)
    requires a <= b
    ensures Ceil(a) <= Ceil(b)
  {
  }

  /** Length of the file written by `pad 0 0.1 trim 0 <target>` from a clip
      of `ms`: the padded clip cut at `target`, or all of it if it is shorter. */
  function PadTrim(ms: nat, target: nat): (r: nat)
    ensures r <= target
    ensures r == target <==> target <= ms + PadMs
  {
    if ms + PadMs < target then ms + PadMs else target
  }

  /** 0.1 s of padding is always enough: padding and trimming a clip to its
      ceiling yields exactly the ceiling, so the re-measured length matches. */
  lemma PadTrimReachesCeil(ms: nat)
    ensures PadTrim(ms, Ceil(ms)) == Ceil(ms)
  {
  }

  /** Sums of grid-aligned durations stay on the grid. */
  lemma GridAdd(a: nat, b: nat)
    requires OnGrid(a) && OnGrid(b)
    ensures OnGrid(a + b)
  {
  }
}
