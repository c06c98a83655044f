/** The sprite assembler, `concat`: sort the prepared clips by output path,
    hand their paths in that order to the concatenation, and return the
    sorted list so that the manifest can be built in the same order. */
module Sprite {
  import opened Clips
  import opened Ordering

  /** One `sox <inputs> <output>` concatenation together with the sorted
      clip list `concat` returns. */
  datatype Concatenation = Concatenation(inputs: seq<string>, output: string, sorted: seq<Clip>)

  /** `concat(infiles, outfile)` without running the concatenation. The
      input list is a value, so `toSorted` leaving it unchanged is built in. */
  function Concat(infiles: seq<Clip>, outfile: string): (r: Concatenation)
    ensures SortedByPath(r.sorted)
    ensures multiset(r.sorted) == multiset(infiles)
    ensures r.output == outfile
    ensures |r.inputs| == |r.sorted|
    ensures forall i :: 0 <= i < |r.inputs| ==> r.inputs[i] == r.sorted[i].path
  {
    var sorted := SortByPath(infiles);
    Concatenation(Paths(sorted), outfile, sorted)
  }

  /** Concatenations of the same clips, found in any order and written to any
      target, play the same files in the same order, provided no two clips
      share an output path. */
  lemma ConcatOrderIsCanonical(p: seq<Clip>, q: seq<Clip>, out1: string, out2: string)
    requires multiset(p) == multiset(q)
    requires DistinctPaths(p)
    ensures Concat(p, out1).sorted == Concat(q, out2).sorted
    ensures Concat(p, out1).inputs == Concat(q, out2).inputs
  {
    SortIgnoresInputOrder(p, q);
  }

  /** A concatenation of clips moved under `dir` reads each clip's file
      under `dir`. */
  lemma InputsRebased(r: Concatenation, dir: string, s: seq<Clip>)
    requires |r.inputs| == |r.sorted| && r.sorted == Rebased(dir, s)
    requires forall i :: 0 <= i < |r.inputs| ==> r.inputs[i] == r.sorted[i].path
    ensures forall i :: 0 <= i < |r.inputs| ==>
      |dir| <= |r.inputs[i]| && r.inputs[i][..|dir|] == dir && r.inputs[i][|dir|..] == s[i].path
  {
    forall i | 0 <= i < |r.inputs|
      ensures |dir| <= |r.inputs[i]| && r.inputs[i][..|dir|] == dir && r.inputs[i][|dir|..] == s[i].path
    {
      assert r.inputs[i] == dir + s[i].path;
    }
  }
}
