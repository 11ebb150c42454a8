/** The two representations internal/gcpdata/profiler.go makes of the same samples: the flat
    per-function scan and the call trie. */
module CallTree {

  type Name = string
  type Path = seq<Name>

  /** A line without a function is skipped by both. */
  datatype Line = NoFunction | Func(name: Name)

  datatype Sample = Sample(locations: seq<seq<Line>>, value: int)

  // ---- Paths, exactly as the trie walks them ----

  function Names(lines: seq<Line>): Path {
    if lines == [] then []
    else (if lines[0].Func? then [lines[0].name] else []) + Names(lines[1..])
  }

  lemma {:induction false} NamesSnoc(lines: seq<Line>, k: nat)
    requires k < |lines|
    ensures Names(lines[..k + 1]) == Names(lines[..k]) + if lines[k].Func? then [lines[k].name] else []
    ensures |Names(lines[..k + 1])| <= |Names(lines)|
  {
    if k > 0 {
      NamesSnoc(lines[1..], k - 1);
      assert lines[..k + 1][1..] == lines[1..][..k];
      assert lines[..k][1..] == lines[1..][..k - 1];
    } else {
      assert lines[..1][1..] == [];
    }
  }

  /** Locations last to first, lines of a location in slice order. */
  function PathOf(locations: seq<seq<Line>>): Path {
    if locations == [] then [] else PathOf(locations[1..]) + Names(locations[0])
  }

  /** The functions of location 0, which get the self cost. */
  function Leaf(locations: seq<seq<Line>>): Path {
    if locations == [] then [] else Names(locations[0])
  }

  function LeafStart(locations: seq<seq<Line>>): (n: nat)
    ensures n + |Leaf(locations)| == |PathOf(locations)|
    ensures PathOf(locations)[n..] == Leaf(locations)
  {
    if locations == [] then 0 else |PathOf(locations[1..])|
  }

  function Count(names: Path, f: Name): nat {
    if names == [] then 0 else (if names[0] == f then 1 else 0) + Count(names[1..], f)
  }

  // ---- What the numbers mean ----

  function Total(samples: seq<Sample>): int {
    if samples == [] then 0 else Total(samples[..|samples| - 1]) + samples[|samples| - 1].value
  }

  /** A function's flat cumulative cost: each sample once, however often the function recurs. */
  function FlatCumulative(samples: seq<Sample>, f: Name): int {
    if samples == [] then 0
    else
      var s := samples[|samples| - 1];
      FlatCumulative(samples[..|samples| - 1], f) + if f in PathOf(s.locations) then s.value else 0
  }

  function FlatSelf(samples: seq<Sample>, f: Name): int {
    if samples == [] then 0
    else
      var s := samples[|samples| - 1];
      FlatSelf(samples[..|samples| - 1], f) + s.value * Count(Leaf(s.locations), f)
  }

  /** A trie node's cumulative cost: the samples whose path starts with the node's path. */
  function NodeCumulative(samples: seq<Sample>, p: Path): int {
    if samples == [] then 0
    else
      var s := samples[|samples| - 1];
      NodeCumulative(samples[..|samples| - 1], p) + if p <= PathOf(s.locations) then s.value else 0
  }

  /** A trie node's self cost: those of them in which the node lies in the leaf location. */
  function NodeSelf(samples: seq<Sample>, p: Path): int {
    if samples == [] then 0
    else
      var s := samples[|samples| - 1];
      NodeSelf(samples[..|samples| - 1], p)
      + if p <= PathOf(s.locations) && |p| > LeafStart(s.locations) then s.value else 0
  }

  ghost predicate Visited(samples: seq<Sample>, p: Path) {
    exists i :: 0 <= i < |samples| && p <= PathOf(samples[i].locations)
  }

  // ---- Summing over nodes ----

  ghost function Tally(paths: seq<Path>, cost: Path -> int): int {
    if paths == [] then 0 else Tally(paths[..|paths| - 1], cost) + cost(paths[|paths| - 1])
  }

  ghost predicate Distinct(paths: seq<Path>) {
    forall i, j | 0 <= i < j < |paths| :: paths[i] != paths[j]
  }

  lemma {:induction false} TallyAdds(paths: seq<Path>, f: Path -> int, g: Path -> int, h: Path -> int)
    requires forall p | p in paths :: h(p) == f(p) + g(p)
    ensures Tally(paths, h) == Tally(paths, f) + Tally(paths, g)
  {
    if paths != [] {
      TallyAdds(paths[..|paths| - 1], f, g, h);
    }
  }

  lemma {:induction false} TallyOfNothing(paths: seq<Path>, f: Path -> int)
    requires forall p | p in paths :: f(p) == 0
    ensures Tally(paths, f) == 0
  {
    if paths != [] {
      TallyOfNothing(paths[..|paths| - 1], f);
    }
  }

  /** A cost carried by exactly one node. */
  lemma {:induction false} TallyOfOne(paths: seq<Path>, f: Path -> int, p: Path)
    requires Distinct(paths) && p in paths
    requires forall q | q in paths && q != p :: f(q) == 0
    ensures Tally(paths, f) == f(p)
  {
    var init, last := paths[..|paths| - 1], paths[|paths| - 1];
    if last == p {
      TallyOfNothing(init, f);
    } else {
      TallyOfOne(init, f, p);
    }
  }

  // ---- The agreement of the two representations ----

  /** An outermost occurrence of f: an f-node without an f ancestor. */
  predicate Outermost(p: Path, f: Name) {
    p != [] && p[|p| - 1] == f && f !in p[..|p| - 1]
  }

  predicate EndsIn(p: Path, f: Name) {
    p != [] && p[|p| - 1] == f
  }

  ghost function OutermostCost(samples: seq<Sample>, f: Name): Path -> int {
    p => if Outermost(p, f) then NodeCumulative(samples, p) else 0
  }

  ghost function SelfCost(samples: seq<Sample>, f: Name): Path -> int {
    p => if EndsIn(p, f) then NodeSelf(samples, p) else 0
  }

  function FirstIndex(path: Path, f: Name): (k: nat)
    requires f in path
    ensures k < |path| && path[k] == f && f !in path[..k]
  {
    if path[0] == f then 0
    else
      var k := FirstIndex(path[1..], f) + 1;
      assert path[..k] == [path[0]] + path[1..][..k - 1];
      k
  }

  ghost predicate HasPrefixes(paths: seq<Path>, path: Path) {
    forall k | 1 <= k <= |path| :: path[..k] in paths
  }

  lemma PrefixAtLength(p: Path, path: Path, k: nat)
    requires p <= path && |p| == k <= |path|
    ensures p == path[..k]
  {
  }

  /** One sample adds its value to exactly one outermost f-node if its path has f. */
  lemma OneSampleCumulative(paths: seq<Path>, path: Path, value: int, f: Name)
    requires Distinct(paths) && HasPrefixes(paths, path)
    ensures Tally(paths, p => if Outermost(p, f) && p <= path then value else 0) == if f in path then value else 0
  {
    var cost := (p: Path) => if Outermost(p, f) && p <= path then value else 0;
    if f in path {
      var k := FirstIndex(path, f);
      var p := path[..k + 1];
      assert Outermost(p, f) by {
        assert p[..|p| - 1] == path[..k];
      }
      forall q | q in paths && q != p
        ensures cost(q) == 0
      {
        if Outermost(q, f) && q <= path {
          OutermostPrefixIsUnique(path, f, q, k);
        }
      }
      TallyOfOne(paths, cost, p);
    } else {
      forall q | q in paths ensures cost(q) == 0 {
        if q != [] && q <= path {
          assert q[|q| - 1] == path[|q| - 1];
        }
      }
      TallyOfNothing(paths, cost);
    }
  }

  lemma NotBefore(path: Path, k: nat, f: Name, m: nat)
    requires m < k <= |path| && f !in path[..k]
    ensures path[m] != f
  {
    assert path[..k][m] == path[m];
  }

  lemma OutermostPrefixIsUnique(path: Path, f: Name, q: Path, k: nat)
    requires Outermost(q, f) && q <= path && k < |path| && path[k] == f && f !in path[..k]
    ensures q == path[..k + 1]
  {
    var m := |q| - 1;
    assert q[m] == path[m] == f;
    forall j | 0 <= j < k ensures path[j] != f { NotBefore(path, k, f, j); }
    forall j | 0 <= j < m ensures q[j] != f { NotBefore(q, m, f, j); }
  }

  /** The part of one sample's self cost that falls on nodes deeper than `lo`. */
  ghost function DeepSelf(path: Path, lo: nat, value: int, f: Name): Path -> int {
    p => if EndsIn(p, f) && p <= path && |p| > lo then value else 0
  }

  ghost function SelfAt(q: Path, value: int, f: Name): Path -> int {
    p => if p == q && EndsIn(p, f) then value else 0
  }

  lemma DeepSelfSplits(path: Path, lo: nat, value: int, f: Name, p: Path)
    requires lo < |path|
    ensures DeepSelf(path, lo, value, f)(p)
            == DeepSelf(path, lo + 1, value, f)(p) + SelfAt(path[..lo + 1], value, f)(p)
  {
    if p <= path && |p| == lo + 1 {
      PrefixAtLength(p, path, lo + 1);
    }
  }

  lemma SelfAtCounts(paths: seq<Path>, path: Path, lo: nat, value: int, f: Name)
    requires Distinct(paths) && HasPrefixes(paths, path) && lo < |path|
    ensures Tally(paths, SelfAt(path[..lo + 1], value, f)) == if path[lo] == f then value else 0
  {
    TallyOfOne(paths, SelfAt(path[..lo + 1], value, f), path[..lo + 1]);
  }

  lemma CountSplits(path: Path, lo: nat, f: Name, value: int)
    requires lo < |path|
    ensures value * Count(path[lo..], f) == value * Count(path[lo + 1..], f) + if path[lo] == f then value else 0
  {
    assert path[lo..] == [path[lo]] + path[lo + 1..];
  }

  /** One sample adds its value once for every occurrence of f from position `lo` on. */
  lemma {:induction false} OneSampleSelf(paths: seq<Path>, path: Path, lo: nat, value: int, f: Name)
    requires Distinct(paths) && HasPrefixes(paths, path) && lo <= |path|
    ensures Tally(paths, DeepSelf(path, lo, value, f)) == value * Count(path[lo..], f)
    decreases |path| - lo
  {
    if lo == |path| {
      TallyOfNothing(paths, DeepSelf(path, lo, value, f));
    } else {
      OneSampleSelf(paths, path, lo + 1, value, f);
      forall p | p in paths
        ensures DeepSelf(path, lo, value, f)(p)
                == DeepSelf(path, lo + 1, value, f)(p) + SelfAt(path[..lo + 1], value, f)(p)
      {
        DeepSelfSplits(path, lo, value, f, p);
      }
      TallyAdds(paths, DeepSelf(path, lo + 1, value, f), SelfAt(path[..lo + 1], value, f), DeepSelf(path, lo, value, f));
      SelfAtCounts(paths, path, lo, value, f);
      CountSplits(path, lo, f, value);
    }
  }

  /** For every function, samples of any sign and any recursion: the flat cumulative cost is the
      sum of the trie's cumulative cost over the f-nodes without an f ancestor. */
  lemma {:induction false} CumulativeAgrees(samples: seq<Sample>, paths: seq<Path>, f: Name)
    requires Distinct(paths)
    requires forall i | 0 <= i < |samples| :: HasPrefixes(paths, PathOf(samples[i].locations))
    ensures FlatCumulative(samples, f) == Tally(paths, OutermostCost(samples, f))
  {
    if samples == [] {
      TallyOfNothing(paths, OutermostCost(samples, f));
    } else {
      var init, s := samples[..|samples| - 1], samples[|samples| - 1];
      var path := PathOf(s.locations);
      CumulativeAgrees(init, paths, f);
      assert HasPrefixes(paths, path);
      OneSampleCumulative(paths, path, s.value, f);
      TallyAdds(paths, OutermostCost(init, f), p => if Outermost(p, f) && p <= path then s.value else 0,
                OutermostCost(samples, f));
    }
  }

  /** And the flat self cost is the sum of the trie's self cost over all f-nodes. */
  lemma {:induction false} SelfAgrees(samples: seq<Sample>, paths: seq<Path>, f: Name)
    requires Distinct(paths)
    requires forall i | 0 <= i < |samples| :: HasPrefixes(paths, PathOf(samples[i].locations))
    ensures FlatSelf(samples, f) == Tally(paths, SelfCost(samples, f))
  {
    if samples == [] {
      TallyOfNothing(paths, SelfCost(samples, f));
    } else {
      var init, s := samples[..|samples| - 1], samples[|samples| - 1];
      var path, lo := PathOf(s.locations), LeafStart(s.locations);
      SelfAgrees(init, paths, f);
      assert HasPrefixes(paths, path);
      OneSampleSelf(paths, path, lo, s.value, f);
      TallyAdds(paths, SelfCost(init, f), DeepSelf(path, lo, s.value, f), SelfCost(samples, f));
    }
  }
}
