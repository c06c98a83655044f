/** The order `concat` puts clips in: `toSorted` by output path. The
    comparison `localeCompare` is modelled as plain lexicographic order on
    character codes; `toSorted` is a stable sort that returns a new list. */
module Ordering {
  import opened Clips

  /** `a.localeCompare(b) <= 0`, as lexicographic order. */
  predicate LexLe(a: string, b: string)
    decreases |a|
  {
    |a| == 0 || (|b| > 0 && (a[0] < b[0] || (a[0] == b[0] && LexLe(a[1..], b[1..]))))
  }

  lemma {:induction false} LexLeReflexive(a: string)
    ensures LexLe(a, a)
  {
    if |a| > 0 {
      LexLeReflexive(a[1..]);
    }
  }

  /** Any two paths are comparable. */
  lemma {:induction false} LexLeTotal(a: string, b: string)
    ensures LexLe(a, b) || LexLe(b, a)
  {
    if |a| > 0 && |b| > 0 && a[0] == b[0] {
      LexLeTotal(a[1..], b[1..]);
    }
  }

  /** Paths that compare equal both ways are the same path. */
  lemma {:induction false} LexLeAntisymmetric(a: string, b: string)
    requires LexLe(a, b) && LexLe(b, a)
    ensures a == b
  {
    if |a| > 0 {
      LexLeAntisymmetric(a[1..], b[1..]);
      assert a == [a[0]] + a[1..];
      assert b == [b[0]] + b[1..];
    }
  }

  lemma {:induction false} LexLeTransitive(a: string, b: string, c: string)
    requires LexLe(a, b) && LexLe(b, c)
    ensures LexLe(a, c)
  {
    if |a| > 0 && a[0] == b[0] && b[0] == c[0] {
      LexLeTransitive(a[1..], b[1..], c[1..]);
    }
  }

  /** Putting the same directory in front of two paths does not change how
      they compare. */
  lemma {:induction false} LexLePrefix(dir: string, a: string, b: string)
    ensures LexLe(dir + a, dir + b) == LexLe(a, b)
  {
    if dir == [] {
      assert dir + a == a && dir + b == b;
    } else {
      assert (dir + a)[1..] == dir[1..] + a;
      assert (dir + b)[1..] == dir[1..] + b;
      LexLePrefix(dir[1..], a, b);
    }
  }

  /** Ascending by output path. */
  predicate SortedByPath(s: seq<Clip>)
  {
    forall i, j :: 0 <= i < j < |s| ==> LexLe(s[i].path, s[j].path)
  }

  /** No two clips share an output path. */
  predicate DistinctPaths(s: seq<Clip>)
  {
    forall i, j :: 0 <= i < j < |s| ==> s[i].path != s[j].path
  }

  /** A clip no later than every clip of a sorted list can go in front of it. */
  lemma SortedCons(h: Clip, rest: seq<Clip>)
    requires SortedByPath(rest)
    requires forall x | x in rest :: LexLe(h.path, x.path)
    ensures SortedByPath([h] + rest)
  {
  }

  /** The first clip of a sorted list is no later than any of its clips. */
  lemma HeadIsLeast(s: seq<Clip>, x: Clip)
    requires SortedByPath(s) && x in s
    ensures LexLe(s[0].path, x.path)
  {
    var k :| 0 <= k < |s| && s[k] == x;
    if k == 0 {
      LexLeReflexive(x.path);
    }
  }

  /** Places `c` before the first clip whose path is not below it. */
  function Insert(c: Clip, s: seq<Clip>): (r: seq<Clip>)
    requires SortedByPath(s)
    ensures SortedByPath(r)
    ensures multiset(r) == multiset(s) + multiset{c}
  {
    if s == [] then [c]
    else if LexLe(c.path, s[0].path) then
      SortedFront(c, s);
      [c] + s
    else
      var rest := Insert(c, s[1..]);
      assert s == [s[0]] + s[1..];
      SortedPast(c, s, rest);
      [s[0]] + rest
  }

  /** Helper for `Insert`: a clip no later than the first clip of a sorted
      list can go in front of it. */
  lemma SortedFront(c: Clip, s: seq<Clip>)
    requires SortedByPath(s) && s != [] && LexLe(c.path, s[0].path)
    ensures SortedByPath([c] + s)
  {
    forall x | x in s ensures LexLe(c.path, x.path) {
      HeadIsLeast(s, x);
      LexLeTransitive(c.path, s[0].path, x.path);
    }
    SortedCons(c, s);
  }

  /** Helper for `Insert`: the first clip of a sorted list, when `c` sorts
      after it, can go in front of the sorted rest with `c` inserted. */
  lemma SortedPast(c: Clip, s: seq<Clip>, rest: seq<Clip>)
    requires SortedByPath(s) && s != [] && !LexLe(c.path, s[0].path)
    requires SortedByPath(rest) && multiset(rest) == multiset(s[1..]) + multiset{c}
    ensures SortedByPath([s[0]] + rest)
  {
    assert s == [s[0]] + s[1..];
    LexLeTotal(c.path, s[0].path);
    forall x | x in rest ensures LexLe(s[0].path, x.path) {
      assert x in multiset(rest);
      if x != c {
        assert x in s;
        HeadIsLeast(s, x);
      }
    }
    SortedCons(s[0], rest);
  }

  /** `infiles.toSorted(([a], [b]) => a.localeCompare(b))`: insertion sort,
      stable because each clip goes before the equal ones that follow it. */
  function SortByPath(s: seq<Clip>): (r: seq<Clip>)
    ensures SortedByPath(r)
    ensures multiset(r) == multiset(s)
    ensures |r| == |s|
  {
    if s == [] then []
    else
      assert s == [s[0]] + s[1..];
      Insert(s[0], SortByPath(s[1..]))
  }

  /** A list without repeated paths holds each clip at most once. */
  lemma {:induction false} AtMostOnce(s: seq<Clip>, x: Clip)
    requires DistinctPaths(s)
    ensures multiset(s)[x] <= 1
  {
    if s != [] {
      assert s == [s[0]] + s[1..];
      AtMostOnce(s[1..], x);
      if s[0] == x {
        assert x !in s[1..];
      }
    }
  }

  /** A clip found at two positions occurs at least twice. */
  lemma Twice(s: seq<Clip>, i: nat, j: nat)
    requires i < j < |s| && s[i] == s[j]
    ensures multiset(s)[s[i]] >= 2
  {
    assert s == s[..j] + [s[j]] + s[j + 1..];
    assert s[i] in s[..j];
  }

  /** Reordering a list keeps its paths distinct. */
  lemma DistinctPathsPermutation(a: seq<Clip>, b: seq<Clip>)
    requires multiset(a) == multiset(b) && DistinctPaths(a)
    ensures DistinctPaths(b)
  {
    forall i, j | 0 <= i < j < |b| ensures b[i].path != b[j].path {
      if b[i].path == b[j].path {
        assert b[i] in multiset(a) && b[j] in multiset(a);
        var k :| 0 <= k < |a| && a[k] == b[i];
        var l :| 0 <= l < |a| && a[l] == b[j];
        assert k == l;
        Twice(b, i, j);
        AtMostOnce(a, b[i]);
        assert false;
      }
    }
  }

  /** Removing an equal first clip from two permutations of each other
      leaves permutations of each other. */
  lemma TailsPermutation(a: seq<Clip>, b: seq<Clip>)
    requires a != [] && b != [] && a[0] == b[0]
    requires multiset(a) == multiset(b)
    ensures multiset(a[1..]) == multiset(b[1..])
  {
    var ta, tb := multiset(a[1..]), multiset(b[1..]);
    assert a == [a[0]] + a[1..];
    assert b == [b[0]] + b[1..];
    assert multiset(a) == multiset{a[0]} + ta;
    assert multiset(b) == multiset{a[0]} + tb;
    forall x ensures ta[x] == tb[x] {
      assert (multiset{a[0]} + ta)[x] == (multiset{a[0]} + tb)[x];
    }
  }

  /** Two sorted permutations of each other with distinct paths start with
      the same clip. */
  lemma SameHead(a: seq<Clip>, b: seq<Clip>)
    requires a != [] && b != []
    requires SortedByPath(a) && SortedByPath(b)
    requires multiset(a) == multiset(b)
    requires DistinctPaths(a)
    ensures a[0] == b[0]
  {
    assert a[0] in multiset(b) && b[0] in multiset(a);
    HeadIsLeast(a, b[0]);
    HeadIsLeast(b, a[0]);
    LexLeAntisymmetric(a[0].path, b[0].path);
    var k :| 0 <= k < |a| && a[k] == b[0];
    assert k == 0;
  }

  /** There is only one way to sort a list of clips with distinct paths:
      two sorted lists holding the same clips are equal. */
  lemma {:induction false} SortedPermutationUnique(a: seq<Clip>, b: seq<Clip>)
    requires SortedByPath(a) && SortedByPath(b)
    requires multiset(a) == multiset(b)
    requires DistinctPaths(a)
    ensures a == b
  {
    assert |a| == |multiset(a)| == |multiset(b)| == |b|;
    if a != [] {
      SameHead(a, b);
      TailsPermutation(a, b);
      SortedPermutationUnique(a[1..], b[1..]);
      assert a == [a[0]] + a[1..];
      assert b == [b[0]] + b[1..];
    }
  }

  /** The sorted order depends only on which clips there are, not on the
      order the directory walk found them in, as long as paths are distinct. */
  lemma SortIgnoresInputOrder(p: seq<Clip>, q: seq<Clip>)
    requires multiset(p) == multiset(q)
    requires DistinctPaths(p)
    ensures SortByPath(p) == SortByPath(q)
  {
    DistinctPathsPermutation(p, SortByPath(p));
    SortedPermutationUnique(SortByPath(p), SortByPath(q));
  }

  /** The clips of `s` whose output path is `path`, in the order of `s`. */
  function WithPath(s: seq<Clip>, path: string): (r: seq<Clip>)
    ensures forall x | x in r :: x in s && x.path == path
  {
    if s == [] then []
    else (if s[0].path == path then [s[0]] else []) + WithPath(s[1..], path)
  }

  /** `WithPath` of a list with a first clip. */
  lemma WithPathCons(x: Clip, s: seq<Clip>, path: string)
    ensures WithPath([x] + s, path) == (if x.path == path then [x] else []) + WithPath(s, path)
  {
    assert ([x] + s)[1..] == s;
  }

  /** Two clips with different paths can trade places without changing
      the clips of any one path. */
  lemma WithPathSwap(h: Clip, c: Clip, t: seq<Clip>, path: string)
    requires h.path != c.path
    ensures WithPath([h] + ([c] + t), path) == WithPath([c] + ([h] + t), path)
  {
    WithPathCons(h, [c] + t, path);
    WithPathCons(c, t, path);
    WithPathCons(c, [h] + t, path);
    WithPathCons(h, t, path);
  }

  /** Inserting after a first clip that sorts below `c`. */
  lemma InsertPast(c: Clip, s: seq<Clip>)
    requires SortedByPath(s) && s != [] && !LexLe(c.path, s[0].path)
    ensures SortedByPath(s[1..])
    ensures Insert(c, s) == [s[0]] + Insert(c, s[1..])
    ensures c.path != s[0].path
  {
    LexLeReflexive(c.path);
  }

  /** Inserting a clip puts it after no clip with its own path, so among
      the clips sharing any one path it goes first. */
  lemma {:induction false} InsertStable(c: Clip, s: seq<Clip>, path: string)
    requires SortedByPath(s)
    ensures WithPath(Insert(c, s), path) == WithPath([c] + s, path)
  {
    if s != [] && !LexLe(c.path, s[0].path) {
      InsertPast(c, s);
      InsertStable(c, s[1..], path);
      WithPathPast(c, Insert(c, s[1..]), s, path);
    }
  }

  /** Helper for `InsertStable`: a first clip with another path than `c`,
      put in front of a list that keeps the clips of each path of `c`
      followed by the rest, keeps those of `c` followed by the whole list. */
  lemma WithPathPast(c: Clip, u: seq<Clip>, s: seq<Clip>, path: string)
    requires s != [] && s[0].path != c.path
    requires WithPath(u, path) == WithPath([c] + s[1..], path)
    ensures WithPath([s[0]] + u, path) == WithPath([c] + s, path)
  {
    var h, t := s[0], s[1..];
    assert [h] + t == s;
    WithPathCons(h, u, path);
    WithPathCons(h, [c] + t, path);
    WithPathSwap(h, c, t, path);
  }

  /** `toSorted` is stable: the clips that share an output path (a `.wav` and
      an `.mp3` with the same stem in one directory, or two directories that
      escape alike) come out in the order they went in. */
  lemma {:induction false} SharedPathKeepsInputOrder(s: seq<Clip>, path: string)
    ensures WithPath(SortByPath(s), path) == WithPath(s, path)
  {
    if s != [] {
      var rest := SortByPath(s[1..]);
      InsertStable(s[0], rest, path);
      assert ([s[0]] + rest)[1..] == rest;
      SharedPathKeepsInputOrder(s[1..], path);
    }
  }

  /** Clips that all share one output path are left in the order given. */
  lemma {:induction false} SortSamePath(s: seq<Clip>)
    requires forall i :: 0 <= i < |s| ==> s[i].path == s[0].path
    ensures SortByPath(s) == s
  {
    if s != [] {
      SortSamePath(s[1..]);
      LexLeReflexive(s[0].path);
      assert s == [s[0]] + s[1..];
    }
  }

  /** Moving every output file under `dir` keeps a sorted list sorted. */
  lemma SortedRebased(dir: string, s: seq<Clip>)
    requires SortedByPath(s)
    ensures SortedByPath(Rebased(dir, s))
  {
    forall i, j | 0 <= i < j < |s| ensures LexLe(dir + s[i].path, dir + s[j].path) {
      LexLePrefix(dir, s[i].path, s[j].path);
    }
  }

  /** Files that are distinct once moved under `dir` were distinct before. */
  lemma DistinctPathsRebased(dir: string, s: seq<Clip>)
    requires DistinctPaths(Rebased(dir, s))
    ensures DistinctPaths(s)
  {
    forall i, j | 0 <= i < j < |s| ensures s[i].path != s[j].path {
      assert Rebased(dir, s)[i].path == dir + s[i].path;
      assert Rebased(dir, s)[j].path == dir + s[j].path;
    }
  }

  /** `Rebased` of a list with a first clip. */
  lemma RebasedCons(dir: string, x: Clip, s: seq<Clip>)
    ensures Rebased(dir, [x] + s) == [Rebase(dir, x)] + Rebased(dir, s)
    ensures Rebased(dir, [x] + s)[1..] == Rebased(dir, s)
  {
  }

  /** Inserting in front of a first clip that does not sort below `c`. */
  lemma InsertBefore(c: Clip, s: seq<Clip>)
    requires SortedByPath(s) && s != [] && LexLe(c.path, s[0].path)
    ensures Insert(c, s) == [c] + s
  {
  }

  /** Inserting commutes with moving every output file under `dir`. */
  lemma {:induction false} InsertRebased(dir: string, c: Clip, s: seq<Clip>)
    requires SortedByPath(s)
    ensures SortedByPath(Rebased(dir, s))
    ensures Insert(Rebase(dir, c), Rebased(dir, s)) == Rebased(dir, Insert(c, s))
  {
    SortedRebased(dir, s);
    var t, rc := Rebased(dir, s), Rebase(dir, c);
    if s == [] {
      assert t == [];
      RebasedCons(dir, c, []);
      assert [c] + [] == [c];
    } else {
      LexLePrefix(dir, c.path, s[0].path);
      assert s == [s[0]] + s[1..];
      RebasedCons(dir, s[0], s[1..]);
      if LexLe(c.path, s[0].path) {
        InsertBefore(c, s);
        InsertBefore(rc, t);
        RebasedCons(dir, c, s);
      } else {
        InsertPast(c, s);
        InsertPast(rc, t);
        InsertRebased(dir, c, s[1..]);
        RebasedCons(dir, s[0], Insert(c, s[1..]));
      }
    }
  }

  /** Moving every output file under the same directory does not change the
      order in which `toSorted` puts the clips. */
  lemma {:induction false} SortRebased(dir: string, s: seq<Clip>)
    ensures SortByPath(Rebased(dir, s)) == Rebased(dir, SortByPath(s))
  {
    if s != [] {
      var t := Rebased(dir, s);
      assert t[1..] == Rebased(dir, s[1..]);
      SortRebased(dir, s[1..]);
      InsertRebased(dir, s[0], SortByPath(s[1..]));
    }
  }
}
