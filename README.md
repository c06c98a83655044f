# deno-audio-sprite, modelled in Dafny

`main.ts` builds an audio sprite. It walks an input directory for clips and
normalizes each clip with sox. It rounds each clip's length up to the next
0.1 s and pads and trims the clip to that length. It then concatenates all
clips into `sprite.mp3` and `sprite.ogg`. Last, it writes `sprite.json`, a
Howler.js sprite manifest that maps each clip's name to `[offset, length]` in
milliseconds.

This project models the deterministic core between those sox calls:

- **Clip naming** (`naming.dfy`, module `Naming`). A clip's name is
  `rel.dir + "/" + rel.name`. Its file-system-safe name replaces every `/` by
  `----`.
- **Duration quantization** (`quantize.dfy`, module `Quantize`). Lengths are
  rounded up to a multiple of 100 ms. The pad-then-trim step is modelled as
  arithmetic.
- **Ordering** (`ordering.dfy`, module `Ordering`; `sprite.dfy`, module
  `Sprite`). `concat` makes a stable sort by output path. It hands the sorted
  paths to the concatenation and returns the sorted list.
- **Manifest fold** (`howler.dfy`, module `Howler`). A cursor starts at 0.
  Each clip gets `[cursor, length]`, then the cursor moves on by that length.
  `Object.fromEntries` then builds the JSON object.
- **Wiring** (`pipeline.dfy`, module `Pipeline`). The directory walk's
  result is a list of `(rel.dir, rel.name, rel.ext)` triples. `prepare` is a
  loop that pushes one `[outfile, result, name]` tuple per clip. `generate` sorts
  once per sprite. The two sorts agree, because the sort depends only on its
  input, and the manifest is built from the mp3 sprite's sorted list.
- `clips.dfy` (module `Clips`) holds that tuple and the running sum of
  durations.

All times are whole milliseconds (`nat`). The sox engine is a value of type
`Pipeline.Engine`. It holds two functions: the length measured after
normalization, and the length measured after pad/trim to a target. Both
see the whole found file, extension included.

Four behaviours of the code are easy to misread. The model follows the code
in each:

- The manifest value is `[offset, length]`, the Howler.js convention. It is
  not `[start, end)`. `Howler.ThreeClips` shows this for clips of 300, 1000
  and 250 ms.
- The safe name is not reversible, because a literal `----` in a directory
  name is not escaped. `Naming.EscapeCollision` shows two clips, `d/a/b` and
  `d----a/b`, that get different manifest keys but the same output file.
  `Naming.UnescapeEscape` gives a round trip only for names without `-`.
- The name ignores the extension. `d/x.wav` and `d/x.mp3` are two clips with
  one name `d/x` and one output file, but each keeps its own measured length
  (`Pipeline.SameStemSharesOutput`, `Pipeline.SameStemPrepared`). The sprite
  reads the shared file once per clip, and the JSON keeps one key `d/x`
  (`Pipeline.SharedFileInManifest`).
- `pad 0 0.1` appends 0.1 s of silence at the end, not at the start.
  `Quantize.PadTrimReachesCeil` shows that this padding is always enough to
  reach the rounded length.

## Model

| member | source | states |
|---|---|---|
| `Naming.ClipName` | main.ts:33 | `${rel.dir}${SEPARATOR}${rel.name}`, a plain definition; its properties are `Naming.LastSeparatorOfClipName` and `Naming.ClipNameInjective` |
| `Naming.Escape` | main.ts:34 | the safe name contains no path separator, and it is never shorter than the name |
| `Naming.EscapeKeepsPlainNames` | main.ts:34 | a name without a separator is its own safe name |
| `Naming.UnescapeEscape` | main.ts:34 | turning every `----` back into `/` recovers the name, provided the name has no `-` |
| `Naming.EscapeAppend` | main.ts:34 | `replaceAll` works piece by piece: escaping a concatenation concatenates the escapes |
| `Naming.EscapeCollision` | main.ts:33-34 | directories `d/a` and `d----a` give different names for the same base name but equal safe names, so both clips write the same output file |
| `Naming.LastSeparator` | main.ts:30 | the index where `parse` splits directory from base: it holds a separator, and no later character does |
| `Naming.LastSeparatorOfClipName` | main.ts:30-33 | the separator that joins directory and base name is the last one in the name |
| `Naming.ClipNameInjective` | main.ts:30-33 | two names are equal if and only if their directories and base names are equal (base names hold no separator) |
| `Quantize.Ceil` | main.ts:48 | the rounded length is a multiple of 100 ms, at least the measured length, and less than 100 ms above it |
| `Quantize.CeilIsLeast` | main.ts:48 | no multiple of 100 ms lies between the measured length and the rounded one |
| `Quantize.CeilFixesGrid` | main.ts:48 | a length that is already a multiple of 100 ms is left unchanged |
| `Quantize.CeilMonotone` | main.ts:48 | a longer clip never gets a shorter rounded length |
| `Quantize.PadTrim` | main.ts:52 | `pad 0 0.1 trim 0 t` gives at most `t`, and exactly `t` if and only if the clip plus 100 ms reaches `t` |
| `Quantize.PadTrimReachesCeil` | main.ts:52-59 | padding by 0.1 s and trimming to the rounded length yields exactly the rounded length, which is what the assertion at line 56 expects |
| `Quantize.GridAdd` | main.ts:77 | helper for `Howler.ManifestOnGrid`: moving the cursor by a multiple of 100 ms keeps it on the 100 ms grid |
| `Ordering.LexLe` | main.ts:67 | `a.localeCompare(b) <= 0` as lexicographic order on characters, a plain definition; its properties are the `LexLe…` lemmas below |
| `Ordering.LexLeReflexive` | main.ts:67 | the path order puts each path at or below itself |
| `Ordering.LexLeTotal` | main.ts:67 | any two paths can be compared |
| `Ordering.LexLeAntisymmetric` | main.ts:67 | paths that compare both ways are equal |
| `Ordering.LexLeTransitive` | main.ts:67 | the path order is transitive |
| `Ordering.LexLePrefix` | main.ts:67 | paths in one directory compare as their file names do |
| `Ordering.HeadIsLeast` | main.ts:67 | the first clip of a sorted list has the smallest path |
| `Ordering.SortedCons` | main.ts:67 | a clip with a path no larger than every path of a sorted list can go in front of the list |
| `Ordering.Insert` | main.ts:67 | inserting into a sorted list keeps it sorted and adds exactly that one clip |
| `Ordering.SortByPath` | main.ts:67 | `toSorted` returns a list sorted ascending by path that is a permutation of its input |
| `Ordering.AtMostOnce` | main.ts:67 | helper for `Ordering.DistinctPathsPermutation`: a list with distinct paths holds each clip at most once |
| `Ordering.Twice` | main.ts:67 | helper for `Ordering.DistinctPathsPermutation`: a clip found at two positions of a list occurs at least twice in it |
| `Ordering.DistinctPathsPermutation` | main.ts:67 | reordering a list keeps its paths distinct |
| `Ordering.TailsPermutation` | main.ts:67 | helper for `Ordering.SortedPermutationUnique`: two permutations of each other with the same first clip still match after that clip is dropped |
| `Ordering.SameHead` | main.ts:67 | two sorted permutations of each other with distinct paths start with the same clip |
| `Ordering.SortedPermutationUnique` | main.ts:67 | two sorted lists of the same clips with distinct paths are equal |
| `Ordering.SortIgnoresInputOrder` | main.ts:67 | if no two clips share a path, the sorted list does not depend on the order the directory walk found the clips in |
| `Ordering.WithPath` | main.ts:67 | the clips with one given path, in list order, are all clips of the list |
| `Ordering.WithPathCons` | main.ts:67 | helper for `Ordering.InsertStable`: the clips with a path in a list with a first clip |
| `Ordering.WithPathSwap` | main.ts:67 | helper for `Ordering.InsertStable`: two clips with different paths can trade places |
| `Ordering.InsertPast` | main.ts:67 | helper: inserting after a first clip that sorts below the new one, whose path differs from it |
| `Ordering.InsertBefore` | main.ts:67 | helper: inserting in front of a first clip that does not sort below the new one |
| `Ordering.InsertStable` | main.ts:67 | an inserted clip goes before every clip with its own path |
| `Ordering.SharedPathKeepsInputOrder` | main.ts:67 | `toSorted` is stable: for every path, the clips with that path come out in the order they went in |
| `Ordering.SortSamePath` | main.ts:67 | clips that all share one path are left in the order given |
| `Ordering.SortedRebased` | main.ts:67 | moving every file under one directory keeps a sorted list sorted |
| `Ordering.DistinctPathsRebased` | main.ts:67 | files that are distinct once moved under one directory were distinct before |
| `Ordering.RebasedCons` | main.ts:51 | helper for `Ordering.InsertRebased`: moving the files of a list with a first clip |
| `Ordering.InsertRebased` | main.ts:67 | inserting commutes with moving every file under one directory |
| `Ordering.SortRebased` | main.ts:67 | the sorted order does not depend on the directory the files are written to |
| `Clips.Paths` | main.ts:68 | `sorted.map(([file]) => file)`, a plain definition; `Sprite.Concat` states that the concatenation's inputs are these paths in order |
| `Sprite.Concat` | main.ts:66-70 | the returned list is a sorted permutation of the input; the concatenation reads exactly that list's paths, in that order, and writes to the given target |
| `Sprite.ConcatOrderIsCanonical` | main.ts:89-90 | the mp3 and ogg concatenations of the same clips read the same paths in the same order, even when the clips were found in another order (paths distinct) |
| `Sprite.InputsRebased` | main.ts:68-69 | a concatenation of clips whose files were moved under a directory reads each file under that directory |
| `Clips.TotalMs` | main.ts:74-77 | the sum of the clips' lengths, where the cursor `prev` stands after them, a plain definition |
| `Clips.TotalMsPrefix` | main.ts:77 | moving the cursor past one more clip adds exactly that clip's length |
| `Clips.TotalMsCons` | main.ts:77 | putting a clip in front adds its length to the total |
| `Clips.TotalMsPrefixCons` | main.ts:77 | a prefix plays for its first clip and then for the rest of it |
| `Clips.TotalMsPrefixMonotone` | main.ts:77 | the cursor never moves backwards |
| `Howler.Fold` | main.ts:75-79 | one entry per tuple, in input order; each entry is keyed by its tuple's name and its length is that clip's length |
| `Howler.FoldEntry` | main.ts:74-78 | entry `i` starts at the sum of the lengths of clips `0..i-1` |
| `Howler.IntoHowler` | main.ts:73-79 | the loop with the mutable cursor `prev` emits `[name_i, [sum of earlier lengths, length_i]]` for every clip, the same as the fold |
| `Howler.FoldEach` | main.ts:74-78 | a list with the running-offset entry of every clip at its index is the fold |
| `Howler.Contiguous` | main.ts:74-78 | the first entry starts at 0, and each later entry starts where the previous one ends |
| `Howler.NonOverlapping` | main.ts:74-78 | an entry ends no later than any later entry starts |
| `Howler.WithinTrack` | main.ts:74-78 | every entry ends within the sum of all clip lengths, and the last one ends exactly there |
| `Howler.ManifestOnGrid` | main.ts:74-78 | when every clip is a multiple of 100 ms, so is every offset and every length in the manifest |
| `Howler.FoldIgnoresPaths` | main.ts:75-78 | the manifest depends only on the clips' names and lengths, not on their files |
| `Howler.FoldRebased` | main.ts:75-78 | moving every file under one directory leaves the manifest as it is |
| `Howler.ThreeClips` | main.ts:73-79 | clips of 300, 1000 and 250 ms give `[0, 300]`, `[300, 1000]` and `[1300, 250]` |
| `Howler.ToObject` | main.ts:82 | the JSON object's keys are exactly the entries' names |
| `Howler.ToObjectLastWins` | main.ts:82 | under a repeated name the object keeps the last entry with that name |
| `Howler.OneNameManifest` | main.ts:74-82 | clips that all share one name give one key, with the last clip's offset and length |
| `Howler.ToObjectKeepsDistinct` | main.ts:82 | with distinct names the object holds every entry unchanged |
| `Howler.ObjectOfManifest` | main.ts:75-82 | with distinct clip names the JSON maps each name to `[its offset, its length]` |
| `Pipeline.OutPath` | main.ts:51 | the output file `join(outdir, name_safe + ".wav")`, as concatenation with `/`, a plain definition; its property is `Pipeline.OutputInOutdir` |
| `Pipeline.PrepareClip` | main.ts:29-60 | the tuple pushed for one found file: its name ignores the extension, and an engine that pads and trims exactly gives it the rounded length |
| `Pipeline.PrepareOne` | main.ts:29-60 | one pass of the loop: it pushes the tuple `Pipeline.PrepareClip` describes, the assertion fires if and only if the re-measured length differs from the rounded one, and it never fires with an engine that pads and trims exactly |
| `Pipeline.OutputInOutdir` | main.ts:33-51 | every clip's output is a `.wav` file directly in the output directory: the safe name puts it in no subdirectory |
| `Pipeline.Prepared` | main.ts:21-61 | `prepare` emits exactly one tuple per clip found |
| `Pipeline.PreparedAt` | main.ts:21-61 | tuple `i` is built from found clip `i` alone |
| `Pipeline.PreparedEach` | main.ts:21-61 | a list with the tuple of every found clip at its index is what `prepare` returns |
| `Pipeline.Prepare` | main.ts:21-61 | each tuple holds the unescaped name, the output path from the escaped name, and the re-measured length (not the rounded one); the assertion fires exactly for the clips whose re-measured length differs from the rounded one, in walk order, and only logs; every other clip's length is a multiple of 100 ms less than 100 ms above the measured length; an engine that pads and trims exactly never fires it |
| `Pipeline.Generate` | main.ts:86-93 | the mp3 and ogg concatenations sort separately but read the same paths in the same order; that order is the stable sort of the prepared tuples by path, so tuples that share a path keep walk order; manifest entry `i` carries the name and length of the tuple whose path is input `i` and starts at the total length of tuples `0..i-1`; the JSON is built from those entries; the failed assertions are listed as `prepare` lists them |
| `Pipeline.PreparedAppend` | main.ts:21-61 | preparing two walks one after the other gives the two tuple lists one after the other |
| `Pipeline.PreparedRemove` | main.ts:21-61 | leaving one clip out of the walk leaves exactly its tuple out |
| `Pipeline.FoundTailsPermutation` | main.ts:21-61 | helper for `Pipeline.PreparedPermutation`: dropping matching clips from two permutations of each other leaves permutations of each other |
| `Pipeline.PermutationStep` | main.ts:21-61 | helper for `Pipeline.PreparedPermutation`: adding the same clip to two permuted walks keeps their tuple lists permutations of each other |
| `Pipeline.PreparedPermutation` | main.ts:21-61 | finding the same clips in another order prepares the same tuples in another order |
| `Pipeline.PrepareClipRebased` | main.ts:51 | a clip's tuple for an output directory is its tuple for the empty directory with the file moved under it |
| `Pipeline.PreparedRebased` | main.ts:21-61 | preparing into an output directory is preparing into the empty one with every file moved under it |
| `Pipeline.RerunSorted` | main.ts:87-89 | two runs into two temporary directories sort one list of clips, moved under each run's directory |
| `Pipeline.RerunIsDeterministic` | main.ts:86-91 | a rerun on the same input tree, into a fresh temporary directory and whatever order the walk takes, reads the same files in the same order relative to its directory and gives the same manifest and JSON, if no two clips share an output file |
| `Pipeline.SameStemSharesOutput` | main.ts:30-51 | two files that differ only in extension get one name and one output file |
| `Pipeline.SameStemPrepared` | main.ts:21-61 | `d/x.wav` of 300 ms and `d/x.mp3` of 450 ms give two tuples for `o/d----x.wav`, named `d/x`, of 300 and 500 ms |
| `Pipeline.SharedFileInManifest` | main.ts:66-82 | tuples that share one name and one file stay in walk order, the sprite reads that file once per tuple, and the JSON has one key holding the last tuple's offset and length |
| `Pipeline.NamesFollowPaths` | main.ts:34-60 | clips with different output files have different names |
| `Pipeline.JsonHasEveryClip` | main.ts:86-91 | if no two clips share an output file, the JSON holds every clip under its name, with the offset at which its file starts in the sprite and its own length |

## Left out

- The sox runs at lines 43, 47, 52, 55 and 69 are not modelled. They become the two length functions of `Pipeline.Engine`. The concatenation becomes the `inputs`/`output` pair of `Sprite.Concatenation`. A failing sox run, which aborts the script, is not modelled.
- `Pipeline.Generate`: on an empty walk the model returns an empty manifest and an empty JSON object. The code runs `sox  ./sprite.mp3` with no input file (lines 68-69), sox fails, and `generate` aborts before it writes `sprite.json`.
- `Howler.WithinTrack`: the sum of the tuples' lengths is the length of the concatenated track only when no two clips share an output file. When two do (`Naming.EscapeCollision`, or a `.wav` and an `.mp3` with one stem), the later sox run at line 52 overwrites the earlier clip's file, the concatenation reads the later file twice, and the model does not state the track's real length.
- Durations are whole milliseconds. The model leaves out float parsing and the IEEE rounding of `Math.ceil(duration * 10) / 10` and `duration * 1000` (lines 47-48, 76-77). A float length can also be a fraction of a millisecond.
- `localeCompare` (line 67) is modelled as lexicographic order on character codes. Locale collation is left out.
- The directory walk (lines 21-26) is left out. That includes its `exts` filter, where `"mp3"` has no leading dot, and symlink following. `resolve`, `relative` and `parse` (lines 29-30) are left out too. The model takes each clip as its `(rel.dir, rel.name, rel.ext)` triple.
- `join` (lines 37, 51) is modelled as plain concatenation with `/`, without path normalization. The temporary file path (line 37) is not modelled, because no modelled value depends on it.
- The separator is the POSIX `/`. On Windows `SEPARATOR` is `\`.
- The concatenation joins the paths with spaces into a raw command (line 68). A path that contains a space would split into several arguments. The model keeps the list of paths.
- These are file-system or process I/O and are not modelled: temporary directories (lines 20, 62, 87, 92), the JSON file write and `JSON.stringify` (lines 80-83), `console.info` (line 40), and command-line handling (lines 95-99). The temporary directory's name is a parameter, so `Pipeline.RerunIsDeterministic` compares two runs relative to their own directories.
- `Howler.ToObject` is a map, so the key order of the JSON object is not modelled. Every name contains `/`, so no key looks like an array index, and JavaScript keeps the keys in insertion order.
