/** `prepare` and `generate`: name, quantize and lay out every clip found
    under the input root, then build both sprites, each from its own sort of
    the tuples, and the manifest from the mp3 sprite's sorted list. The sox invocations are the black box `Engine`; the
    directory walk is its result, a list of `(rel.dir, rel.name, rel.ext)`
    triples. */
module Pipeline {
  import opened Clips
  import Naming
  import Quantize
  import opened Ordering
  import Sprite
  import Howler

  /** A clip found by the directory walk: its directory relative to the input
      root, its base name without extension, and its extension. Two files
      that differ only in extension are two clips with their own lengths. */
  datatype Found = Found(dir: string, base: string, ext: string)

  /** The two duration queries `prepare` makes through sox, in ms:
      `measure(f)` is the length of `f` once resampled, silence-trimmed,
      normalized and attenuated; `remeasure(f, target)` is the length of the
      file written by padding that with 0.1 s and trimming to `target`. */
  datatype Engine = Engine(measure: Found -> nat, remeasure: (Found, nat) -> nat)

  /** An engine that pads and trims exactly as asked. */
  ghost predicate ExactPadTrim(sox: Engine)
  {
    forall f: Found, target: nat :: sox.remeasure(f, target) == Quantize.PadTrim(sox.measure(f), target)
  }

  /** `join(outdir, `${name_safe}.wav`)`. */
  function OutPath(outdir: string, nameSafe: string): string
  {
    outdir + [Naming.Separator] + nameSafe + ".wav"
  }

  /** The tuple `prepare` pushes for one found clip: its name ignores the
      extension, and an exact engine gives it the rounded length. This is the
      value the loop body `PrepareOne` computes step by step. */
  function PrepareClip(outdir: string, f: Found, sox: Engine): (r: Clip)
    ensures r.name == Naming.ClipName(f.dir, f.base)
    ensures ExactPadTrim(sox) ==> r.ms == Quantize.Ceil(sox.measure(f))
  {
    Quantize.PadTrimReachesCeil(sox.measure(f));
    var name := Naming.ClipName(f.dir, f.base);
    var ceiled := Quantize.Ceil(sox.measure(f));
    Clip(OutPath(outdir, Naming.Escape(name)), sox.remeasure(f, ceiled), name)
  }

  /** The tuples of `prepare`, one per found clip, in walk order. */
  function Prepared(outdir: string, found: seq<Found>, sox: Engine): (r: seq<Clip>)
    ensures |r| == |found|
  {
    if found == [] then [] else [PrepareClip(outdir, found[0], sox)] + Prepared(outdir, found[1..], sox)
  }

  lemma {:induction false} PreparedAt(outdir: string, found: seq<Found>, sox: Engine, i: nat)
    requires i < |found|
    ensures Prepared(outdir, found, sox)[i] == PrepareClip(outdir, found[i], sox)
  {
    if i > 0 {
      PreparedAt(outdir, found[1..], sox, i - 1);
    }
  }

  /** A list holding, at every index, the tuple of the clip found there is
      the list of tuples. */
  lemma PreparedEach(outdir: string, found: seq<Found>, sox: Engine, outfiles: seq<Clip>)
    requires |outfiles| == |found|
    requires forall k :: 0 <= k < |found| ==> outfiles[k] == PrepareClip(outdir, found[k], sox)
    ensures outfiles == Prepared(outdir, found, sox)
  {
    forall k | 0 <= k < |found| ensures outfiles[k] == Prepared(outdir, found, sox)[k] {
      PreparedAt(outdir, found, sox, k);
    }
  }

  /** The body of the loop of `prepare` for one found clip: normalize and
      measure, round up, pad and trim to the rounded length, measure again,
      and check. `fired` says whether the non-fatal `console.assert` fires. */
  method PrepareOne(outdir: string, f: Found, sox: Engine) returns (outfile: Clip, fired: bool)
    ensures outfile == PrepareClip(outdir, f, sox)
    ensures fired <==> outfile.ms != Quantize.Ceil(sox.measure(f))
    ensures ExactPadTrim(sox) ==> !fired
  {
    var name := Naming.ClipName(f.dir, f.base);
    var nameSafe := Naming.Escape(name);
    var duration := sox.measure(f);
    var ceiled := Quantize.Ceil(duration);
    var path := OutPath(outdir, nameSafe);
    var result := sox.remeasure(f, ceiled);
    fired := result != ceiled;
    if fired && ExactPadTrim(sox) {
      Quantize.PadTrimReachesCeil(duration);
    }
    outfile := Clip(path, result, name);
  }

  /** `prepare(indir, outdir)` without the sox runs and the file system: the
      `for await` loop that pushes one tuple per clip. `mismatched` lists, in
      order, the clips for which the non-fatal `console.assert` fires. */
  method Prepare(outdir: string, found: seq<Found>, sox: Engine) returns (outfiles: seq<Clip>, mismatched: seq<nat>)
    ensures outfiles == Prepared(outdir, found, sox)
    ensures forall i :: 0 <= i < |found| ==>
      outfiles[i].name == Naming.ClipName(found[i].dir, found[i].base) &&
      outfiles[i].path == OutPath(outdir, Naming.Escape(outfiles[i].name)) &&
      outfiles[i].ms == sox.remeasure(found[i], Quantize.Ceil(sox.measure(found[i])))
    ensures forall k :: k in mismatched <==>
      0 <= k < |found| && outfiles[k].ms != Quantize.Ceil(sox.measure(found[k]))
    ensures forall a, b :: 0 <= a < b < |mismatched| ==> mismatched[a] < mismatched[b]
    ensures forall i :: 0 <= i < |found| && i !in mismatched ==>
      Quantize.OnGrid(outfiles[i].ms) &&
      sox.measure(found[i]) <= outfiles[i].ms < sox.measure(found[i]) + Quantize.Grain
    ensures ExactPadTrim(sox) ==> mismatched == []
  {
    outfiles, mismatched := [], [];
    var i := 0;
    while i < |found|
      invariant 0 <= i <= |found|
      invariant |outfiles| == i
      invariant forall k :: 0 <= k < i ==> outfiles[k] == PrepareClip(outdir, found[k], sox)
      invariant forall k :: k in mismatched <==>
        0 <= k < i && outfiles[k].ms != Quantize.Ceil(sox.measure(found[k]))
      invariant forall a, b :: 0 <= a < b < |mismatched| ==> mismatched[a] < mismatched[b]
      invariant forall a :: 0 <= a < |mismatched| ==> mismatched[a] < i
      invariant ExactPadTrim(sox) ==> mismatched == []
    {
      var outfile, fired := PrepareOne(outdir, found[i], sox);
      if fired {
        mismatched := mismatched + [i];
      }
      outfiles := outfiles + [outfile];
      i := i + 1;
    }
    PreparedEach(outdir, found, sox, outfiles);
    UnflaggedOnGrid(outdir, found, sox, outfiles, mismatched);
  }

  /** Helper for `Prepare`: every clip the assertion does not flag has the
      rounded length. */
  lemma UnflaggedOnGrid(outdir: string, found: seq<Found>, sox: Engine, outfiles: seq<Clip>, mismatched: seq<nat>)
    requires |outfiles| == |found|
    requires forall k :: 0 <= k < |found| ==> outfiles[k] == PrepareClip(outdir, found[k], sox)
    requires forall k :: k in mismatched <==>
      0 <= k < |found| && outfiles[k].ms != Quantize.Ceil(sox.measure(found[k]))
    ensures forall i :: 0 <= i < |found| ==>
      outfiles[i].name == Naming.ClipName(found[i].dir, found[i].base) &&
      outfiles[i].path == OutPath(outdir, Naming.Escape(outfiles[i].name)) &&
      outfiles[i].ms == sox.remeasure(found[i], Quantize.Ceil(sox.measure(found[i])))
    ensures forall i :: 0 <= i < |found| && i !in mismatched ==>
      Quantize.OnGrid(outfiles[i].ms) &&
      sox.measure(found[i]) <= outfiles[i].ms < sox.measure(found[i]) + Quantize.Grain
  {
    forall k | 0 <= k < |found| && k !in mismatched
      ensures Quantize.OnGrid(outfiles[k].ms)
      ensures sox.measure(found[k]) <= outfiles[k].ms < sox.measure(found[k]) + Quantize.Grain
    {
      assert outfiles[k].ms == Quantize.Ceil(sox.measure(found[k]));
    }
  }

  /** `generate(path)` without the temporary directory, the sox runs and the
      file writes: each concatenation sorts the tuples on its own, the two
      sorts agree because the sort depends only on its input, and the
      manifest is built from the mp3 concatenation's list, so entry `i`
      carries the name and length of the tuple whose path is input `i` of
      each sprite. */
  method Generate(outdir: string, found: seq<Found>, sox: Engine)
    returns (prepared: seq<Clip>, mismatched: seq<nat>, mp3: Sprite.Concatenation,
             ogg: Sprite.Concatenation, manifest: seq<Howler.Entry>, json: map<string, (nat, nat)>)
    ensures prepared == Prepared(outdir, found, sox)
    ensures forall k :: k in mismatched <==>
      0 <= k < |found| && prepared[k].ms != Quantize.Ceil(sox.measure(found[k]))
    ensures forall a, b :: 0 <= a < b < |mismatched| ==> mismatched[a] < mismatched[b]
    ensures mp3.output == "./sprite.mp3" && ogg.output == "./sprite.ogg"
    ensures mp3.inputs == ogg.inputs && mp3.sorted == ogg.sorted
    ensures SortedByPath(mp3.sorted) && multiset(mp3.sorted) == multiset(prepared)
    ensures mp3.sorted == SortByPath(prepared)
    ensures |manifest| == |mp3.inputs| == |mp3.sorted| == |found|
    ensures forall i :: 0 <= i < |manifest| ==>
      mp3.inputs[i] == mp3.sorted[i].path &&
      manifest[i].name == mp3.sorted[i].name &&
      manifest[i].offset == TotalMs(mp3.sorted[..i]) &&
      manifest[i].length == mp3.sorted[i].ms
    ensures json == Howler.ToObject(manifest)
  {
    prepared, mismatched := Prepare(outdir, found, sox);
    mp3 := Sprite.Concat(prepared, "./sprite.mp3");
    ogg := Sprite.Concat(prepared, "./sprite.ogg");
    manifest := Howler.IntoHowler(mp3.sorted);
    json := Howler.ToObject(manifest);
  }

  lemma {:induction false} PreparedAppend(outdir: string, a: seq<Found>, b: seq<Found>, sox: Engine)
    ensures Prepared(outdir, a + b, sox) == Prepared(outdir, a, sox) + Prepared(outdir, b, sox)
  {
    if a == [] {
      assert a + b == b;
    } else {
      assert (a + b)[0] == a[0];
      assert (a + b)[1..] == a[1..] + b;
      PreparedAppend(outdir, a[1..], b, sox);
    }
  }

  /** Preparing a walk with one clip taken out prepares the same tuples
      with that clip's tuple taken out. */
  lemma PreparedRemove(outdir: string, b: seq<Found>, k: nat, sox: Engine)
    requires k < |b|
    ensures multiset(Prepared(outdir, b, sox)) ==
      multiset(Prepared(outdir, b[..k] + b[k + 1..], sox)) + multiset{PrepareClip(outdir, b[k], sox)}
  {
    assert b == b[..k] + ([b[k]] + b[k + 1..]);
    PreparedAppend(outdir, b[..k], [b[k]] + b[k + 1..], sox);
    PreparedAppend(outdir, [b[k]], b[k + 1..], sox);
    PreparedAppend(outdir, b[..k], b[k + 1..], sox);
  }

  /** Taking the first clip out of `a` and an equal one out of `b` leaves
      permutations of each other. */
  lemma FoundTailsPermutation(a: seq<Found>, b: seq<Found>, k: nat)
    requires a != [] && k < |b| && b[k] == a[0]
    requires multiset(a) == multiset(b)
    ensures multiset(a[1..]) == multiset(b[..k] + b[k + 1..])
  {
    assert a == [a[0]] + a[1..];
    assert b == b[..k] + [b[k]] + b[k + 1..];
    assert multiset(b[..k] + b[k + 1..]) == multiset(b) - multiset{b[k]};
  }

  /** Putting an equal clip back in front of both sides of a permutation of
      prepared tuples keeps it a permutation. */
  lemma PermutationStep(outdir: string, a: seq<Found>, b: seq<Found>, k: nat, sox: Engine)
    requires a != [] && k < |b| && b[k] == a[0]
    requires multiset(Prepared(outdir, a[1..], sox)) == multiset(Prepared(outdir, b[..k] + b[k + 1..], sox))
    ensures multiset(Prepared(outdir, a, sox)) == multiset(Prepared(outdir, b, sox))
  {
    var c := PrepareClip(outdir, a[0], sox);
    var bRest := b[..k] + b[k + 1..];
    assert a[..0] + a[1..] == a[1..];
    PreparedRemove(outdir, a, 0, sox);
    assert multiset(Prepared(outdir, a, sox)) == multiset(Prepared(outdir, a[1..], sox)) + multiset{c};
    PreparedRemove(outdir, b, k, sox);
    assert multiset(Prepared(outdir, b, sox)) == multiset(Prepared(outdir, bRest, sox)) + multiset{c};
  }

  /** Finding the same clips in another order prepares the same tuples in
      another order. */
  lemma {:induction false} PreparedPermutation(outdir: string, a: seq<Found>, b: seq<Found>, sox: Engine)
    requires multiset(a) == multiset(b)
    ensures multiset(Prepared(outdir, a, sox)) == multiset(Prepared(outdir, b, sox))
    decreases |a|
  {
    if a == [] {
      assert |b| == |multiset(b)| == 0;
    } else {
      assert a[0] in multiset(b);
      var k :| 0 <= k < |b| && b[k] == a[0];
      FoundTailsPermutation(a, b, k);
      PreparedPermutation(outdir, a[1..], b[..k] + b[k + 1..], sox);
      PermutationStep(outdir, a, b, k, sox);
    }
  }

  /** Every clip's file is a `.wav` directly in `outdir`: escaping leaves no
      separator that would put it in a subdirectory. */
  lemma OutputInOutdir(outdir: string, f: Found, sox: Engine)
    ensures var path := PrepareClip(outdir, f, sox).path;
      |outdir| < |path| && path[..|outdir|] == outdir && path[|outdir|] == Naming.Separator &&
      Naming.Separator !in path[|outdir| + 1..] && path[|path| - 4..] == ".wav"
  {
    var nameSafe := Naming.Escape(Naming.ClipName(f.dir, f.base));
    var path := OutPath(outdir, nameSafe);
    assert path == outdir + [Naming.Separator] + (nameSafe + ".wav");
    assert path[|outdir| + 1..] == nameSafe + ".wav";
  }

  /** Preparing into `outdir` is preparing into the empty directory with
      every output file moved under `outdir`. */
  lemma PreparedRebased(outdir: string, found: seq<Found>, sox: Engine)
    ensures Prepared(outdir, found, sox) == Rebased(outdir, Prepared("", found, sox))
  {
    var p, q := Prepared(outdir, found, sox), Rebased(outdir, Prepared("", found, sox));
    forall k | 0 <= k < |found| ensures p[k] == q[k] {
      PreparedAt(outdir, found, sox, k);
      PreparedAt("", found, sox, k);
      PrepareClipRebased(outdir, found[k], sox);
    }
  }

  /** One clip's tuple for `outdir` is its tuple for the empty directory
      with its file moved under `outdir`. */
  lemma PrepareClipRebased(outdir: string, f: Found, sox: Engine)
    ensures PrepareClip(outdir, f, sox) == Rebase(outdir, PrepareClip("", f, sox))
  {
    var nameSafe := Naming.Escape(Naming.ClipName(f.dir, f.base));
    assert OutPath(outdir, nameSafe) == outdir + OutPath("", nameSafe);
  }

  /** Re-running on an unchanged input tree, into a fresh temporary
      directory, whatever order the walk lists the clips in, gives the same
      sprites and the same manifest, provided no two clips share an output
      file and sox is deterministic: the sprites read the same files, in the
      same order, relative to their run's directory. */
  lemma RerunIsDeterministic(outdir1: string, outdir2: string, found1: seq<Found>, found2: seq<Found>, sox: Engine)
    requires multiset(found1) == multiset(found2)
    requires DistinctPaths(Prepared(outdir1, found1, sox))
    ensures var a, b := Sprite.Concat(Prepared(outdir1, found1, sox), "./sprite.mp3"),
                        Sprite.Concat(Prepared(outdir2, found2, sox), "./sprite.mp3");
      |a.inputs| == |b.inputs| &&
      (forall i :: 0 <= i < |a.inputs| ==>
        |outdir1| <= |a.inputs[i]| && a.inputs[i][..|outdir1|] == outdir1 &&
        |outdir2| <= |b.inputs[i]| && b.inputs[i][..|outdir2|] == outdir2 &&
        a.inputs[i][|outdir1|..] == b.inputs[i][|outdir2|..]) &&
      Howler.Fold(a.sorted, 0) == Howler.Fold(b.sorted, 0) &&
      Howler.ToObject(Howler.Fold(a.sorted, 0)) == Howler.ToObject(Howler.Fold(b.sorted, 0))
  {
    RerunSorted(outdir1, outdir2, found1, found2, sox);
    var a, b := Sprite.Concat(Prepared(outdir1, found1, sox), "./sprite.mp3"),
                Sprite.Concat(Prepared(outdir2, found2, sox), "./sprite.mp3");
    SameRelativeRun(a, b, outdir1, outdir2, SortByPath(Prepared("", found1, sox)));
    var fa, fb := Howler.Fold(a.sorted, 0), Howler.Fold(b.sorted, 0);
    assert Howler.ToObject(fa) == Howler.ToObject(fb);
  }

  /** Helper: two concatenations of one sorted list, moved under two
      directories, read the same files relative to their directory and give
      the same manifest. */
  lemma SameRelativeRun(a: Sprite.Concatenation, b: Sprite.Concatenation, outdir1: string, outdir2: string, sorted: seq<Clip>)
    requires |a.inputs| == |a.sorted| && a.sorted == Rebased(outdir1, sorted)
    requires forall i :: 0 <= i < |a.inputs| ==> a.inputs[i] == a.sorted[i].path
    requires |b.inputs| == |b.sorted| && b.sorted == Rebased(outdir2, sorted)
    requires forall i :: 0 <= i < |b.inputs| ==> b.inputs[i] == b.sorted[i].path
    ensures |a.inputs| == |b.inputs|
    ensures forall i :: 0 <= i < |a.inputs| ==>
      |outdir1| <= |a.inputs[i]| && a.inputs[i][..|outdir1|] == outdir1 &&
      |outdir2| <= |b.inputs[i]| && b.inputs[i][..|outdir2|] == outdir2 &&
      a.inputs[i][|outdir1|..] == b.inputs[i][|outdir2|..]
    ensures Howler.Fold(a.sorted, 0) == Howler.Fold(b.sorted, 0)
  {
    Sprite.InputsRebased(a, outdir1, sorted);
    Sprite.InputsRebased(b, outdir2, sorted);
    Howler.FoldRebased(outdir1, sorted);
    Howler.FoldRebased(outdir2, sorted);
  }

  /** The two runs' sorted lists are one list with its files moved under
      each run's directory. */
  lemma RerunSorted(outdir1: string, outdir2: string, found1: seq<Found>, found2: seq<Found>, sox: Engine)
    requires multiset(found1) == multiset(found2)
    requires DistinctPaths(Prepared(outdir1, found1, sox))
    ensures var sorted := SortByPath(Prepared("", found1, sox));
      Sprite.Concat(Prepared(outdir1, found1, sox), "./sprite.mp3").sorted == Rebased(outdir1, sorted) &&
      Sprite.Concat(Prepared(outdir2, found2, sox), "./sprite.mp3").sorted == Rebased(outdir2, sorted)
  {
    var p1, p2 := Prepared("", found1, sox), Prepared("", found2, sox);
    PreparedRebased(outdir1, found1, sox);
    PreparedRebased(outdir2, found2, sox);
    DistinctPathsRebased(outdir1, p1);
    PreparedPermutation("", found1, found2, sox);
    SortIgnoresInputOrder(p1, p2);
    SortRebased(outdir1, p1);
    SortRebased(outdir2, p2);
  }

  /** Two files in one directory that differ only in extension share their
      name and their output file, so the second clip prepared overwrites the
      first one's file. */
  lemma SameStemSharesOutput(outdir: string, dir: string, base: string, ext1: string, ext2: string, sox: Engine)
    ensures var c1, c2 := PrepareClip(outdir, Found(dir, base, ext1), sox), PrepareClip(outdir, Found(dir, base, ext2), sox);
      c1.name == c2.name && c1.path == c2.path
  {
  }

  /** `d/x.wav` of 300 ms and `d/x.mp3` of 450 ms, both found, padded and
      trimmed exactly: the two tuples share `d/x` and one output file but keep
      their own lengths. */
  lemma SameStemPrepared(sox: Engine)
    requires sox.measure(Found("d", "x", ".wav")) == 300 && sox.remeasure(Found("d", "x", ".wav"), 300) == 300
    requires sox.measure(Found("d", "x", ".mp3")) == 450 && sox.remeasure(Found("d", "x", ".mp3"), 500) == 500
    ensures Prepared("o", [Found("d", "x", ".wav"), Found("d", "x", ".mp3")], sox) ==
      [Clip("o/d----x.wav", 300, "d/x"), Clip("o/d----x.wav", 500, "d/x")]
  {
    var wav, mp3 := Found("d", "x", ".wav"), Found("d", "x", ".mp3");
    SameStemOutput();
    assert Quantize.Ceil(300) == 300 && Quantize.Ceil(450) == 500;
    var c1, c2 := Clip("o/d----x.wav", 300, "d/x"), Clip("o/d----x.wav", 500, "d/x");
    assert PrepareClip("o", wav, sox) == c1;
    assert PrepareClip("o", mp3, sox) == c2;
    assert [wav, mp3][1..] == [mp3];
    assert Prepared("o", [mp3], sox) == [c2];
  }

  /** Helper for `SameStemPrepared`: the name and the output file of
      `d/x` in `o`. */
  lemma SameStemOutput()
    ensures Naming.ClipName("d", "x") == "d/x"
    ensures OutPath("o", Naming.Escape("d/x")) == "o/d----x.wav"
  {
    assert Naming.Escape("x") == "x";
    assert Naming.Escape("/x") == "----x";
    assert Naming.Escape("d/x") == "d----x";
  }

  /** Tuples that all share one name and one output file, such as the two
      of `SameStemPrepared`, in the sprite and the manifest: they stay in
      walk order, the concatenation reads their one file once per tuple, and
      the JSON gets one key, whose offset counts every tuple but the last and
      whose length is the last one's. */
  lemma SharedFileInManifest(s: seq<Clip>)
    requires s != []
    requires forall i :: 0 <= i < |s| ==> s[i].path == s[0].path && s[i].name == s[0].name
    ensures var mp3 := Sprite.Concat(s, "./sprite.mp3");
      mp3.sorted == s &&
      (forall i :: 0 <= i < |mp3.inputs| ==> mp3.inputs[i] == s[0].path) &&
      Howler.ToObject(Howler.Fold(mp3.sorted, 0)) == map[s[0].name := (TotalMs(s[..|s| - 1]), s[|s| - 1].ms)]
  {
    SortSamePath(s);
    Howler.OneNameManifest(s);
  }

  /** Every tuple of `prepare` is filed under its own escaped name, so clips
      with different output files have different names. */
  lemma NamesFollowPaths(outdir: string, found: seq<Found>, sox: Engine, sorted: seq<Clip>)
    requires multiset(sorted) == multiset(Prepared(outdir, found, sox))
    requires DistinctPaths(sorted)
    ensures forall i, j :: 0 <= i < j < |sorted| ==> sorted[i].name != sorted[j].name
  {
    var prepared := Prepared(outdir, found, sox);
    forall c | c in sorted ensures c.path == OutPath(outdir, Naming.Escape(c.name)) {
      assert c in multiset(prepared);
      var k :| 0 <= k < |prepared| && prepared[k] == c;
      PreparedAt(outdir, found, sox, k);
    }
    forall i, j | 0 <= i < j < |sorted| ensures sorted[i].name != sorted[j].name {
      assert sorted[i] in sorted && sorted[j] in sorted;
    }
  }

  /** When no two clips share an output file, the JSON manifest holds every
      clip under its name, with the offset at which its file starts in the
      sprite and its own length. */
  lemma JsonHasEveryClip(outdir: string, found: seq<Found>, sox: Engine)
    requires DistinctPaths(Prepared(outdir, found, sox))
    ensures var sorted := Sprite.Concat(Prepared(outdir, found, sox), "./sprite.mp3").sorted;
      forall i :: 0 <= i < |sorted| ==>
        Howler.ToObject(Howler.Fold(sorted, 0))[sorted[i].name] == (TotalMs(sorted[..i]), sorted[i].ms)
  {
    var prepared := Prepared(outdir, found, sox);
    var sorted := Sprite.Concat(prepared, "./sprite.mp3").sorted;
    DistinctPathsPermutation(prepared, sorted);
    NamesFollowPaths(outdir, found, sox, sorted);
    Howler.ObjectOfManifest(sorted);
  }
}
