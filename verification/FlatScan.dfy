/** scanFunctionCosts of internal/gcpdata/profiler.go: one pass over the samples that updates a
    map of per-function costs in place. */
module FlatScan {
  import opened CallTree

  datatype FuncCost = FuncCost(self: int, cumulative: int)

  type Costs = map<Name, FuncCost>

  predicate Contains(s: string, sub: string) {
    exists i | 0 <= i <= |s| :: sub <= s[i..]
  }

  /** Which functions are accumulated: the targets if there are any, else those matching the
      filter. */
  predicate Tracked(f: Name, filter: string, targets: set<Name>) {
    if targets != {} then f in targets else filter == "" || Contains(f, filter)
  }

  function SelfOf(costs: Costs, f: Name): int {
    if f in costs then costs[f].self else 0
  }

  function CumulativeOf(costs: Costs, f: Name): int {
    if f in costs then costs[f].cumulative else 0
  }

  ghost predicate Occurs(samples: seq<Sample>, f: Name) {
    exists i :: 0 <= i < |samples| && f in PathOf(samples[i].locations)
  }

  // ---- The order in which the scan meets the lines ----

  function Scanned(locations: seq<seq<Line>>, i: nat): Path
    requires i <= |locations|
  {
    if i == 0 then [] else Scanned(locations, i - 1) + Names(locations[i - 1])
  }

  lemma {:induction false} CountSnoc(names: Path, x: Name, f: Name)
    ensures Count(names + [x], f) == Count(names, f) + if x == f then 1 else 0
  {
    if names != [] {
      assert (names + [x])[1..] == names[1..] + [x];
      CountSnoc(names[1..], x, f);
    }
  }

  lemma {:induction false} OnPath(locations: seq<seq<Line>>, f: Name)
    ensures f in PathOf(locations) <==> exists j :: 0 <= j < |locations| && f in Names(locations[j])
  {
    if locations != [] {
      OnPath(locations[1..], f);
      assert forall j | 0 <= j < |locations[1..]| :: locations[1..][j] == locations[j + 1];
      if j :| 0 <= j < |locations| && f in Names(locations[j]) {
        if j > 0 {
          assert locations[1..][j - 1] == locations[j];
        }
      }
    }
  }

  lemma {:induction false} InScanned(locations: seq<seq<Line>>, i: nat, f: Name)
    requires i <= |locations|
    ensures f in Scanned(locations, i) <==> exists j :: 0 <= j < i && f in Names(locations[j])
  {
    if i > 0 {
      InScanned(locations, i - 1, f);
    }
  }

  /** The scan's order differs from the trie's, but it meets the same functions. */
  lemma ScannedIsPath(locations: seq<seq<Line>>)
    ensures forall f :: f in Scanned(locations, |locations|) <==> f in PathOf(locations)
  {
    forall f
      ensures f in Scanned(locations, |locations|) <==> f in PathOf(locations)
    {
      InScanned(locations, |locations|, f);
      OnPath(locations, f);
    }
  }

  // ---- One line, one sample, all samples ----

  /** The costs after the functions `done` of the current sample, of which `leaf` in its leaf. */
  ghost predicate Progress(before: Costs, now: Costs, done: Path, leaf: Path, value: int, filter: string, targets: set<Name>) {
    forall f :: AtFunction(before, now, done, leaf, value, Tracked(f, filter, targets), f)
  }

  ghost predicate AtFunction(before: Costs, now: Costs, done: Path, leaf: Path, value: int, tracked: bool, f: Name) {
    && (f in now <==> f in before || (tracked && f in done))
    && CumulativeOf(now, f) == CumulativeOf(before, f) + (if tracked && f in done then value else 0)
    && SelfOf(now, f) == SelfOf(before, f) + (if tracked then value * Count(leaf, f) else 0)
  }

  lemma OneMore(value: int, n: nat)
    ensures value * (n + 1) == value * n + value
  {
  }

  method ScanLine(costs: Costs, seen: set<Name>, name: Name, inLeaf: bool, value: int, filter: string, targets: set<Name>,
                  ghost before: Costs, ghost done: Path, ghost leaf: Path)
    returns (costs': Costs, seen': set<Name>)
    requires Progress(before, costs, done, leaf, value, filter, targets)
    requires forall f :: f in seen <==> Tracked(f, filter, targets) && f in done
    ensures Progress(before, costs', done + [name], if inLeaf then leaf + [name] else leaf, value, filter, targets)
    ensures forall f :: f in seen' <==> Tracked(f, filter, targets) && f in done + [name]
  {
    costs', seen' := costs, seen;
    if Tracked(name, filter, targets) {
      var c := if name in costs then costs[name] else FuncCost(0, 0);
      if inLeaf {
        c := c.(self := c.self + value);
      }
      if name !in seen {
        c := c.(cumulative := c.cumulative + value);
        seen' := seen + {name};
      }
      costs' := costs[name := c];
    }
    ghost var leaf' := if inLeaf then leaf + [name] else leaf;
    forall f
      ensures AtFunction(before, costs', done + [name], leaf', value, Tracked(f, filter, targets), f)
    {
      assert AtFunction(before, costs, done, leaf, value, Tracked(f, filter, targets), f);
      CountSnoc(leaf, name, f);
      OneMore(value, Count(leaf, f));
    }
  }

  method ScanSample(costs: Costs, s: Sample, filter: string, targets: set<Name>) returns (now: Costs)
    ensures Progress(costs, now, PathOf(s.locations), Leaf(s.locations), s.value, filter, targets)
  {
    now := costs;
    var seen: set<Name> := {};
    ghost var leaf: Path := [];
    for i := 0 to |s.locations|
      invariant leaf == if i == 0 then [] else Leaf(s.locations)
      invariant Progress(costs, now, Scanned(s.locations, i), leaf, s.value, filter, targets)
      invariant forall f :: f in seen <==> Tracked(f, filter, targets) && f in Scanned(s.locations, i)
    {
      var lines := s.locations[i];
      ghost var done := Scanned(s.locations, i);
      for k := 0 to |lines|
        invariant done == Scanned(s.locations, i) + Names(lines[..k])
        invariant leaf == if i == 0 then Names(lines[..k]) else Leaf(s.locations)
        invariant Progress(costs, now, done, leaf, s.value, filter, targets)
        invariant forall f :: f in seen <==> Tracked(f, filter, targets) && f in done
      {
        NamesSnoc(lines, k);
        if lines[k].Func? {
          now, seen := ScanLine(now, seen, lines[k].name, i == 0, s.value, filter, targets, costs, done, leaf);
          done := done + [lines[k].name];
          leaf := if i == 0 then leaf + [lines[k].name] else leaf;
        }
      }
      assert lines[..|lines|] == lines;
    }
    ScannedIsPath(s.locations);
    ghost var done := Scanned(s.locations, |s.locations|);
    forall f
      ensures AtFunction(costs, now, PathOf(s.locations), Leaf(s.locations), s.value, Tracked(f, filter, targets), f)
    {
      assert AtFunction(costs, now, done, leaf, s.value, Tracked(f, filter, targets), f);
    }
  }

  /** The whole scan: for exactly the tracked functions that occur, the flat self and cumulative
      cost, and the profile total. */
  method ScanFunctionCosts(samples: seq<Sample>, filter: string, targets: set<Name>) returns (costs: Costs, total: int)
    ensures total == Total(samples)
    ensures forall f :: f in costs <==> Tracked(f, filter, targets) && Occurs(samples, f)
    ensures forall f | f in costs ::
              costs[f].cumulative == FlatCumulative(samples, f) && costs[f].self == FlatSelf(samples, f)
  {
    costs, total := map[], 0;
    for i := 0 to |samples|
      invariant total == Total(samples[..i])
      invariant forall f :: f in costs <==> Tracked(f, filter, targets) && Occurs(samples[..i], f)
      invariant forall f | Tracked(f, filter, targets) ::
                  CumulativeOf(costs, f) == FlatCumulative(samples[..i], f) && SelfOf(costs, f) == FlatSelf(samples[..i], f)
    {
      var s := samples[i];
      total := total + s.value;
      ghost var before := costs;
      costs := ScanSample(costs, s, filter, targets);
      assert samples[..i + 1][..i] == samples[..i];
      forall f
        ensures f in costs <==> Tracked(f, filter, targets) && Occurs(samples[..i + 1], f)
        ensures Tracked(f, filter, targets) ==>
                  CumulativeOf(costs, f) == FlatCumulative(samples[..i + 1], f) && SelfOf(costs, f) == FlatSelf(samples[..i + 1], f)
      {
        assert AtFunction(before, costs, PathOf(s.locations), Leaf(s.locations), s.value, Tracked(f, filter, targets), f);
        OccursSnoc(samples, i, f);
      }
    }
    assert samples[..|samples|] == samples;
  }

  lemma OccursSnoc(samples: seq<Sample>, i: nat, f: Name)
    requires i < |samples|
    ensures Occurs(samples[..i + 1], f) <==> Occurs(samples[..i], f) || f in PathOf(samples[i].locations)
  {
    if Occurs(samples[..i], f) {
      var j :| 0 <= j < i && f in PathOf(samples[..i][j].locations);
      assert samples[..i + 1][j] == samples[..i][j];
    }
    if f in PathOf(samples[i].locations) {
      assert samples[..i + 1][i] == samples[i];
    }
    if Occurs(samples[..i + 1], f) {
      var j :| 0 <= j < i + 1 && f in PathOf(samples[..i + 1][j].locations);
      if j < i {
        assert samples[..i][j] == samples[..i + 1][j];
      }
    }
  }
}
