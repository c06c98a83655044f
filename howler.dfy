/** The manifest builder, `intoHowler`: a cursor starting at 0 walks the
    clips in order; each clip gets the entry `name -> [offset, length]` (the
    Howler.js sprite convention, the second number is a length, not an end)
    and the cursor then moves on by the clip's length. `Object.fromEntries`
    turns the entries into the JSON object that is written out. */
module Howler {
  import opened Clips
  import Quantize

  /** One `[name, [prev, duration * 1000]]` pair, in milliseconds. */
  datatype Entry = Entry(name: string, offset: nat, length: nat)

  /** The `map` callback with its captured cursor, as a recursive fold:
      emit at `prev`, then advance by the clip's length. */
  function Fold(clips: seq<Clip>, prev: nat): (r: seq<Entry>)
    ensures |r| == |clips|
    ensures forall i :: 0 <= i < |r| ==> r[i].name == clips[i].name && r[i].length == clips[i].ms
  {
    if clips == [] then []
    else [Entry(clips[0].name, prev, clips[0].ms)] + Fold(clips[1..], prev + clips[0].ms)
  }

  /** Entry `i` of a fold started at `prev` is keyed by clip `i`'s name,
      starts after all earlier clips and is as long as clip `i`. */
  lemma {:induction false} FoldEntry(clips: seq<Clip>, prev: nat, i: nat)
    requires i < |clips|
    ensures Fold(clips, prev)[i] == Entry(clips[i].name, prev + TotalMs(clips[..i]), clips[i].ms)
  {
    var c, tail := clips[0], clips[1..];
    assert Fold(clips, prev) == [Entry(c.name, prev, c.ms)] + Fold(tail, prev + c.ms);
    if i == 0 {
      assert clips[..0] == [];
    } else {
      FoldEntry(tail, prev + c.ms, i - 1);
      TotalMsPrefixCons(clips, i);
    }
  }

  /** `intoHowler` without the file write: the loop over `infiles` with the
      mutable cursor `prev`. */
  method IntoHowler(infiles: seq<Clip>) returns (names: seq<Entry>)
    ensures |names| == |infiles|
    ensures forall i :: 0 <= i < |infiles| ==>
      names[i] == Entry(infiles[i].name, TotalMs(infiles[..i]), infiles[i].ms)
    ensures names == Fold(infiles, 0)
  {
    var prev: nat := 0;
    names := [];
    var i := 0;
    while i < |infiles|
      invariant 0 <= i <= |infiles|
      invariant |names| == i
      invariant prev == TotalMs(infiles[..i])
      invariant forall k :: 0 <= k < i ==>
        names[k] == Entry(infiles[k].name, TotalMs(infiles[..k]), infiles[k].ms)
    {
      var duration := infiles[i].ms;
      names := names + [Entry(infiles[i].name, prev, duration)];
      TotalMsPrefix(infiles, i);
      prev := prev + duration;
      i := i + 1;
    }
    FoldEach(infiles, names);
  }

  /** A list holding, at every index, the entry of the clip there with the
      running offset is the manifest. */
  lemma {:induction false} FoldEach(clips: seq<Clip>, entries: seq<Entry>)
    requires |entries| == |clips|
    requires forall k :: 0 <= k < |clips| ==>
      entries[k] == Entry(clips[k].name, TotalMs(clips[..k]), clips[k].ms)
    ensures entries == Fold(clips, 0)
  {
    forall k | 0 <= k < |clips| ensures entries[k] == Fold(clips, 0)[k] {
      FoldEntry(clips, 0, k);
    }
  }

  /** The manifest is gap-free: the first entry starts at 0 and every later
      entry starts where the previous one ends. */
  lemma Contiguous(clips: seq<Clip>)
    ensures var m := Fold(clips, 0);
      (|m| > 0 ==> m[0].offset == 0) &&
      forall i :: 0 < i < |m| ==> m[i].offset == m[i - 1].offset + m[i - 1].length
  {
    var m := Fold(clips, 0);
    if |m| > 0 {
      FoldEntry(clips, 0, 0);
    }
    forall i | 0 < i < |m| ensures m[i].offset == m[i - 1].offset + m[i - 1].length {
      FoldEntry(clips, 0, i);
      FoldEntry(clips, 0, i - 1);
      TotalMsPrefix(clips, i - 1);
    }
  }

  /** Entries never overlap: an entry ends no later than any later entry
      starts. */
  lemma NonOverlapping(clips: seq<Clip>, i: nat, j: nat)
    requires i < j < |clips|
    ensures Fold(clips, 0)[i].offset + Fold(clips, 0)[i].length <= Fold(clips, 0)[j].offset
  {
    FoldEntry(clips, 0, i);
    FoldEntry(clips, 0, j);
    TotalMsPrefix(clips, i);
    TotalMsPrefixMonotone(clips, i + 1, j);
  }

  /** Every entry lies inside the sum of all clip lengths, and the last one
      ends exactly there. */
  lemma WithinTrack(clips: seq<Clip>)
    ensures var m := Fold(clips, 0);
      (forall i :: 0 <= i < |m| ==> m[i].offset + m[i].length <= TotalMs(clips)) &&
      (|m| > 0 ==> m[|m| - 1].offset + m[|m| - 1].length == TotalMs(clips))
  {
    var m := Fold(clips, 0);
    forall i | 0 <= i < |m| ensures m[i].offset + m[i].length <= TotalMs(clips) {
      EntryWithin(clips, i);
    }
    if |m| > 0 {
      EntryEnd(clips, |m| - 1);
      assert clips[..|clips|] == clips;
    }
  }

  /** Helper: entry `i` ends where the first `i + 1` clips end. */
  lemma EntryEnd(clips: seq<Clip>, i: nat)
    requires i < |clips|
    ensures Fold(clips, 0)[i].offset + Fold(clips, 0)[i].length == TotalMs(clips[..i + 1])
  {
    FoldEntry(clips, 0, i);
    TotalMsPrefix(clips, i);
  }

  /** Helper: entry `i` ends no later than all the clips together. */
  lemma EntryWithin(clips: seq<Clip>, i: nat)
    requires i < |clips|
    ensures Fold(clips, 0)[i].offset + Fold(clips, 0)[i].length <= TotalMs(clips)
  {
    EntryEnd(clips, i);
    TotalMsPrefixMonotone(clips, i + 1, |clips|);
    assert clips[..|clips|] == clips;
  }

  /** When every clip is a whole number of 0.1 s, so is every offset and
      every length in the manifest. */
  lemma {:induction false} ManifestOnGrid(clips: seq<Clip>, prev: nat)
    requires Quantize.OnGrid(prev)
    requires forall k :: 0 <= k < |clips| ==> Quantize.OnGrid(clips[k].ms)
    ensures forall e | e in Fold(clips, prev) :: Quantize.OnGrid(e.offset) && Quantize.OnGrid(e.length)
  {
    if clips != [] {
      var next := prev + clips[0].ms;
      assert Fold(clips, prev) == [Entry(clips[0].name, prev, clips[0].ms)] + Fold(clips[1..], next);
      Quantize.GridAdd(prev, clips[0].ms);
      ManifestOnGrid(clips[1..], next);
    }
  }

  /** The manifest reads only the names and lengths of the clips, never
      their output files. */
  lemma {:induction false} FoldIgnoresPaths(a: seq<Clip>, b: seq<Clip>, prev: nat)
    requires |a| == |b|
    requires forall i :: 0 <= i < |a| ==> a[i].name == b[i].name && a[i].ms == b[i].ms
    ensures Fold(a, prev) == Fold(b, prev)
  {
    if a != [] {
      FoldIgnoresPaths(a[1..], b[1..], prev + a[0].ms);
    }
  }

  /** Moving every output file under one directory leaves the manifest as
      it is. */
  lemma FoldRebased(dir: string, clips: seq<Clip>)
    ensures Fold(Rebased(dir, clips), 0) == Fold(clips, 0)
  {
    FoldIgnoresPaths(Rebased(dir, clips), clips, 0);
  }

  /** Three clips of 300, 1000 and 250 ms give offsets 0, 300 and 1300, each
      paired with the clip's own length. */
  lemma ThreeClips()
    ensures Fold([Clip("a.wav", 300, "/a"), Clip("b.wav", 1000, "/b"), Clip("c.wav", 250, "/c")], 0)
      == [Entry("/a", 0, 300), Entry("/b", 300, 1000), Entry("/c", 1300, 250)]
  {
  }

  /** `Object.fromEntries(names)`: later entries overwrite earlier ones with
      the same name. */
  function ToObject(entries: seq<Entry>): (obj: map<string, (nat, nat)>)
    ensures obj.Keys == set e | e in entries :: e.name
  {
    if entries == [] then map[]
    else
      var init, last := entries[..|entries| - 1], entries[|entries| - 1];
      assert entries == init + [last];
      ToObject(init)[last.name := (last.offset, last.length)]
  }

  /** The JSON value stored under a name is the last entry with that name. */
  lemma {:induction false} ToObjectLastWins(entries: seq<Entry>, i: nat)
    requires i < |entries|
    requires forall j :: i < j < |entries| ==> entries[j].name != entries[i].name
    ensures ToObject(entries)[entries[i].name] == (entries[i].offset, entries[i].length)
  {
    if i < |entries| - 1 {
      ToObjectLastWins(entries[..|entries| - 1], i);
    }
  }

  /** Clips that all share one name give a JSON object with that one key,
      holding the last clip's offset and length. */
  lemma {:induction false} OneNameManifest(clips: seq<Clip>)
    requires clips != []
    requires forall i :: 0 <= i < |clips| ==> clips[i].name == clips[0].name
    ensures ToObject(Fold(clips, 0)) == map[clips[0].name := (TotalMs(clips[..|clips| - 1]), clips[|clips| - 1].ms)]
  {
    var m, last := Fold(clips, 0), |clips| - 1;
    forall i | 0 <= i < |m| ensures m[i].name == clips[0].name {
      assert m[i].name == clips[i].name;
    }
    FoldEntry(clips, 0, last);
    OneNameObject(m, clips[0].name, (TotalMs(clips[..last]), clips[last].ms));
  }

  /** Helper: entries that all share one name give the one-entry object
      holding the last entry. */
  lemma {:induction false} OneNameObject(entries: seq<Entry>, name: string, v: (nat, nat))
    requires entries != []
    requires forall i :: 0 <= i < |entries| ==> entries[i].name == name
    requires (entries[|entries| - 1].offset, entries[|entries| - 1].length) == v
    ensures ToObject(entries) == map[name := v]
  {
    ToObjectLastWins(entries, |entries| - 1);
    OneKey(entries, name);
    SingleKeyMap(ToObject(entries), name, v);
  }

  /** Helper: a map whose only key is `k` is the one-entry map at `k`. */
  lemma SingleKeyMap(obj: map<string, (nat, nat)>, k: string, v: (nat, nat))
    requires obj.Keys == {k} && obj[k] == v
    ensures obj == map[k := v]
  {
    assert obj.Keys == map[k := v].Keys;
  }

  /** Entries that all share one name give an object with that one key. */
  lemma OneKey(entries: seq<Entry>, name: string)
    requires entries != []
    requires forall i :: 0 <= i < |entries| ==> entries[i].name == name
    ensures ToObject(entries).Keys == {name}
  {
    forall x | x in ToObject(entries).Keys ensures x == name {
      var e :| e in entries && e.name == x;
    }
    assert entries[0] in entries;
  }

  /** With distinct names, the JSON object holds every entry unchanged. */
  lemma ToObjectKeepsDistinct(entries: seq<Entry>)
    requires forall i, j :: 0 <= i < j < |entries| ==> entries[i].name != entries[j].name
    ensures forall i :: 0 <= i < |entries| ==>
      ToObject(entries)[entries[i].name] == (entries[i].offset, entries[i].length)
  {
    forall i | 0 <= i < |entries|
      ensures ToObject(entries)[entries[i].name] == (entries[i].offset, entries[i].length)
    {
      ToObjectLastWins(entries, i);
    }
  }

  /** With distinct clip names, the JSON manifest maps each clip's name to
      its offset in the track and its length. */
  lemma {:induction false} ObjectOfManifest(clips: seq<Clip>)
    requires forall i, j :: 0 <= i < j < |clips| ==> clips[i].name != clips[j].name
    ensures forall i :: 0 <= i < |clips| ==>
      ToObject(Fold(clips, 0))[clips[i].name] == (TotalMs(clips[..i]), clips[i].ms)
  {
    var m := Fold(clips, 0);
    forall i | 0 <= i < |m| ensures m[i] == Entry(clips[i].name, TotalMs(clips[..i]), clips[i].ms) {
      FoldEntry(clips, 0, i);
    }
    ToObjectKeepsDistinct(m);
  }
}
