/** The call trie that flamegraph of internal/gcpdata/profiler.go grows in place.

    Nodes live in one sequence and point to their children by index, in place of Go pointers; a
    node is always created after its parent.  `paths` records each node's path from the root. */
module CallTrie {
  import opened CallTree

  datatype TrieNode = TrieNode(name: Name, self: int, cumulative: int, children: map<Name, nat>)

  function NewNode(name: Name): TrieNode {
    TrieNode(name, 0, 0, map[])
  }

  /** Children point forward, and every node but the root is a child of exactly one earlier one. */
  ghost predicate Shaped(nodes: seq<TrieNode>, paths: seq<Path>) {
    && |nodes| == |paths| > 0 && paths[0] == []
    && CallTree.Distinct(paths)
    && (forall i, f | 0 <= i < |nodes| && f in nodes[i].children :: ChildAt(nodes, paths, i, f))
    && (forall j | 0 < j < |nodes| :: HasParent(nodes, paths, j))
  }

  ghost predicate ChildAt(nodes: seq<TrieNode>, paths: seq<Path>, i: nat, f: Name)
    requires i < |nodes| == |paths| && f in nodes[i].children
  {
    var j := nodes[i].children[f];
    i < j < |nodes| && paths[j] == paths[i] + [f] && nodes[j].name == f
  }

  ghost predicate HasParent(nodes: seq<TrieNode>, paths: seq<Path>, j: nat)
    requires j < |nodes| == |paths|
  {
    && paths[j] != []
    && exists i :: 0 <= i < j && paths[j][|paths[j]| - 1] in nodes[i].children
                   && nodes[i].children[paths[j][|paths[j]| - 1]] == j
  }

  /** Each node carries the costs its path has in the samples; the nodes below the root are the
      visited paths. */
  ghost predicate Represents(nodes: seq<TrieNode>, paths: seq<Path>, samples: seq<Sample>) {
    && Shaped(nodes, paths)
    && (forall j | 0 < j < |nodes| ::
          && nodes[j].cumulative == NodeCumulative(samples, paths[j])
          && nodes[j].self == NodeSelf(samples, paths[j])
          && Visited(samples, paths[j]))
    && Covers(paths, samples)
    && nodes[0].self == 0 && nodes[0].cumulative == 0
  }

  /** The costs while a sample of value v is being added: `walked` of its path is done. */
  ghost predicate Midway(nodes: seq<TrieNode>, paths: seq<Path>, samples: seq<Sample>, walked: Path, leafStart: nat, v: int) {
    && Shaped(nodes, paths)
    && CostsBut(nodes, paths, samples, walked, leafStart, v, 0)
    && HasPrefixes(paths, walked)
    && Covers(paths, samples)
    && nodes[0].self == 0 && nodes[0].cumulative == 0
  }

  ghost predicate CostAt(node: TrieNode, p: Path, samples: seq<Sample>, walked: Path, leafStart: nat, v: int) {
    && node.cumulative == NodeCumulative(samples, p) + (if p <= walked then v else 0)
    && node.self == NodeSelf(samples, p) + (if p <= walked && |p| > leafStart then v else 0)
    && (Visited(samples, p) || p <= walked)
  }

  lemma VisitedBefore(samples: seq<Sample>, p: Path)
    requires samples != [] && Visited(samples[..|samples| - 1], p)
    ensures Visited(samples, p)
  {
    var init := samples[..|samples| - 1];
    var i :| 0 <= i < |init| && p <= PathOf(init[i].locations);
    assert samples[i] == init[i];
  }

  lemma {:induction false} UnvisitedCostsNothing(samples: seq<Sample>, p: Path)
    ensures Visited(samples, p) || (NodeCumulative(samples, p) == 0 && NodeSelf(samples, p) == 0)
  {
    if samples != [] {
      UnvisitedCostsNothing(samples[..|samples| - 1], p);
      if Visited(samples[..|samples| - 1], p) {
        VisitedBefore(samples, p);
      }
    }
  }

  lemma VisitedIsNode(paths: seq<Path>, samples: seq<Sample>, p: Path)
    requires forall i | 0 <= i < |samples| :: HasPrefixes(paths, PathOf(samples[i].locations))
    requires p != [] && Visited(samples, p)
    ensures p in paths
  {
    var i :| 0 <= i < |samples| && p <= PathOf(samples[i].locations);
    PrefixAtLength(p, PathOf(samples[i].locations), |p|);
  }

  lemma ParentOf(nodes: seq<TrieNode>, paths: seq<Path>, j: nat) returns (i: nat, f: Name)
    requires Shaped(nodes, paths) && 0 < j < |nodes|
    ensures i < j && f in nodes[i].children && nodes[i].children[f] == j && paths[j] == paths[i] + [f]
  {
    assert HasParent(nodes, paths, j);
    f := paths[j][|paths[j]| - 1];
    i :| 0 <= i < j && f in nodes[i].children && nodes[i].children[f] == j;
    assert ChildAt(nodes, paths, i, f);
  }

  lemma NodeIsChild(nodes: seq<TrieNode>, paths: seq<Path>, at: nat, f: Name)
    requires Shaped(nodes, paths) && at < |nodes| && paths[at] + [f] in paths
    ensures f in nodes[at].children
  {
    var j :| 0 <= j < |paths| && paths[j] == paths[at] + [f];
    var i, g := ParentOf(nodes, paths, j);
    assert g == paths[j][|paths[j]| - 1] == f;
    assert paths[i] == paths[j][..|paths[j]| - 1] == paths[at];
  }

  /** A node with a new child, which becomes the last node. */
  function Grown(nodes: seq<TrieNode>, at: nat, f: Name): seq<TrieNode>
    requires at < |nodes|
  {
    nodes[at := nodes[at].(children := nodes[at].children[f := |nodes|])] + [NewNode(f)]
  }

  lemma GrownChildren(nodes: seq<TrieNode>, paths: seq<Path>, at: nat, f: Name, i: nat, g: Name)
    requires Shaped(nodes, paths) && at < |nodes| && f !in nodes[at].children
    requires i < |Grown(nodes, at, f)| && g in Grown(nodes, at, f)[i].children
    ensures ChildAt(Grown(nodes, at, f), paths + [paths[at] + [f]], i, g)
  {
    if !(i == at && g == f) {
      assert g in nodes[i].children && ChildAt(nodes, paths, i, g);
    }
  }

  lemma GrownParents(nodes: seq<TrieNode>, paths: seq<Path>, at: nat, f: Name, j: nat)
    requires Shaped(nodes, paths) && at < |nodes| && f !in nodes[at].children
    requires 0 < j <= |nodes|
    ensures HasParent(Grown(nodes, at, f), paths + [paths[at] + [f]], j)
  {
    var nodes', paths' := Grown(nodes, at, f), paths + [paths[at] + [f]];
    if j < |nodes| {
      var i, g := ParentOf(nodes, paths, j);
      assert paths'[j][|paths'[j]| - 1] == g;
      assert g in nodes'[i].children && nodes'[i].children[g] == j;
    } else {
      assert paths'[j][|paths'[j]| - 1] == f;
      assert f in nodes'[at].children && nodes'[at].children[f] == j;
    }
  }

  lemma ShapedGrows(nodes: seq<TrieNode>, paths: seq<Path>, at: nat, f: Name)
    requires Shaped(nodes, paths) && at < |nodes| && f !in nodes[at].children
    ensures Shaped(Grown(nodes, at, f), paths + [paths[at] + [f]])
  {
    var nodes', paths' := Grown(nodes, at, f), paths + [paths[at] + [f]];
    assert paths[at] + [f] !in paths by {
      if paths[at] + [f] in paths {
        NodeIsChild(nodes, paths, at, f);
      }
    }
    forall i, g | 0 <= i < |nodes'| && g in nodes'[i].children ensures ChildAt(nodes', paths', i, g) {
      GrownChildren(nodes, paths, at, f, i, g);
    }
    forall j | 0 < j < |nodes'| ensures HasParent(nodes', paths', j) {
      GrownParents(nodes, paths, at, f, j);
    }
  }

  lemma ShapeIgnoresCosts(nodes: seq<TrieNode>, paths: seq<Path>, at: nat, node: TrieNode)
    requires Shaped(nodes, paths) && at < |nodes|
    requires node.children == nodes[at].children && node.name == nodes[at].name
    ensures Shaped(nodes[at := node], paths)
  {
    var nodes' := nodes[at := node];
    forall i, g | 0 <= i < |nodes'| && g in nodes'[i].children
      ensures ChildAt(nodes', paths, i, g)
    {
      assert ChildAt(nodes, paths, i, g);
    }
    forall j | 0 < j < |nodes'|
      ensures HasParent(nodes', paths, j)
    {
      var i, g := ParentOf(nodes, paths, j);
      assert paths[j][|paths[j]| - 1] == g;
      assert g in nodes'[i].children && nodes'[i].children[g] == j;
    }
  }

  // ---- One step of the walk ----

  ghost predicate CostsBut(nodes: seq<TrieNode>, paths: seq<Path>, samples: seq<Sample>, walked: Path, leafStart: nat, v: int,
                           child: nat)
    requires |nodes| == |paths|
  {
    forall j | 0 < j < |nodes| && j != child :: CostAt(nodes[j], paths[j], samples, walked, leafStart, v)
  }

  ghost predicate Uncharged(node: TrieNode, p: Path, samples: seq<Sample>) {
    node.cumulative == NodeCumulative(samples, p) && node.self == NodeSelf(samples, p)
  }

  ghost predicate Covers(paths: seq<Path>, samples: seq<Sample>) {
    forall i | 0 <= i < |samples| :: HasPrefixes(paths, PathOf(samples[i].locations))
  }

  lemma NewNodeUncharged(nodes: seq<TrieNode>, paths: seq<Path>, samples: seq<Sample>, at: nat, f: Name)
    requires Shaped(nodes, paths) && at < |nodes| && f !in nodes[at].children && Covers(paths, samples)
    ensures Uncharged(NewNode(f), paths[at] + [f], samples)
  {
    UnvisitedCostsNothing(samples, paths[at] + [f]);
    if Visited(samples, paths[at] + [f]) {
      VisitedIsNode(paths, samples, paths[at] + [f]);
      NodeIsChild(nodes, paths, at, f);
    }
  }

  lemma CoversGrows(paths: seq<Path>, samples: seq<Sample>, p: Path)
    requires Covers(paths, samples)
    ensures Covers(paths + [p], samples)
  {
    forall i | 0 <= i < |samples| ensures HasPrefixes(paths + [p], PathOf(samples[i].locations)) {
      assert HasPrefixes(paths, PathOf(samples[i].locations));
    }
  }

  /** Charging the child extends the walk by it. */
  lemma Charged(node: TrieNode, node': TrieNode, p: Path, samples: seq<Sample>, walked: Path, f: Name, leafStart: nat, v: int)
    requires if p == walked + [f] then Uncharged(node, p, samples) else CostAt(node, p, samples, walked, leafStart, v)
    requires node'.cumulative == node.cumulative + if p == walked + [f] then v else 0
    requires node'.self == node.self + if p == walked + [f] && |p| > leafStart then v else 0
    ensures CostAt(node', p, samples, walked + [f], leafStart, v)
  {
    if p != walked + [f] && p <= walked + [f] {
      PrefixAtLength(p, walked + [f], |p|);
      assert p == walked[..|p|];
    }
  }

  lemma PrefixesExtend(paths: seq<Path>, walked: Path, f: Name)
    requires HasPrefixes(paths, walked) && walked + [f] in paths
    ensures HasPrefixes(paths, walked + [f])
  {
    forall k | 1 <= k <= |walked + [f]| ensures (walked + [f])[..k] in paths {
      if k <= |walked| {
        assert (walked + [f])[..k] == walked[..k];
      } else {
        assert (walked + [f])[..k] == walked + [f];
      }
    }
  }

  lemma LongerIsNoPrefix(p: Path, walked: Path, f: Name)
    requires p == walked + [f]
    ensures !(p <= walked)
  {
  }

  // ---- A whole sample ----

  lemma {:induction false} PathsNest(locations: seq<seq<Line>>, i: nat)
    requires i <= |locations|
    ensures |PathOf(locations[i..])| <= |PathOf(locations)|
  {
    if i > 0 {
      PathsNest(locations[1..], i - 1);
      assert locations[1..][i - 1..] == locations[i..];
    }
  }

  lemma PathStep(locations: seq<seq<Line>>, i: nat)
    requires i < |locations|
    ensures PathOf(locations[i..]) == PathOf(locations[i + 1..]) + Names(locations[i])
  {
    assert locations[i..][1..] == locations[i + 1..];
  }

  /** The code's test for a leaf location, i == 0, is the path's: beyond LeafStart. */
  lemma LeafTest(locations: seq<seq<Line>>, i: nat, k: nat)
    requires i < |locations| && k < |locations[i]| && locations[i][k].Func?
    ensures i == 0 <==> |PathOf(locations[i + 1..]) + Names(locations[i][..k])| + 1 > LeafStart(locations)
  {
    NamesSnoc(locations[i], k);
    if i > 0 {
      PathsNest(locations[1..], i - 1);
      assert locations[1..][i - 1..] == locations[i..];
      PathStep(locations, i);
    }
  }

  /** A finished walk is one more sample. */
  lemma WalkedIsSampled(nodes: seq<TrieNode>, paths: seq<Path>, samples: seq<Sample>, s: Sample)
    requires Midway(nodes, paths, samples, PathOf(s.locations), LeafStart(s.locations), s.value)
    ensures Represents(nodes, paths, samples + [s])
  {
    var samples' := samples + [s];
    assert samples'[..|samples|] == samples;
    forall j | 0 < j < |nodes|
      ensures nodes[j].cumulative == NodeCumulative(samples', paths[j]) && nodes[j].self == NodeSelf(samples', paths[j])
      ensures Visited(samples', paths[j])
    {
      assert CostAt(nodes[j], paths[j], samples, PathOf(s.locations), LeafStart(s.locations), s.value);
      if Visited(samples, paths[j]) {
        VisitedBefore(samples', paths[j]);
      } else {
        assert samples'[|samples|] == s;
      }
    }
  }

  lemma NotYetWalked(nodes: seq<TrieNode>, paths: seq<Path>, samples: seq<Sample>, leafStart: nat, v: int)
    requires Represents(nodes, paths, samples)
    ensures Midway(nodes, paths, samples, [], leafStart, v)
  {
    forall j | 0 < j < |nodes|
      ensures CostAt(nodes[j], paths[j], samples, [], leafStart, v)
    {
      assert HasParent(nodes, paths, j);
    }
  }

  class Trie {
    var nodes: seq<TrieNode>
    ghost var paths: seq<Path>

    constructor ()
      ensures Represents(nodes, paths, [])
    {
      nodes := [NewNode("(root)")];
      paths := [[]];
    }

    /** The child for f, created if missing. */
    method Child(at: nat, f: Name, ghost samples: seq<Sample>, ghost leafStart: nat, ghost v: int) returns (child: nat)
      requires at < |nodes| == |paths| && Midway(nodes, paths, samples, paths[at], leafStart, v)
      modifies this
      ensures Shaped(nodes, paths) && 0 < child < |nodes| && Covers(paths, samples)
      ensures paths[child] == old(paths[at]) + [f] && HasPrefixes(paths, paths[child])
      ensures CostsBut(nodes, paths, samples, old(paths[at]), leafStart, v, child)
      ensures Uncharged(nodes[child], paths[child], samples)
      ensures nodes[0].self == 0 && nodes[0].cumulative == 0
    {
      ghost var walked := paths[at];
      if f in nodes[at].children {
        child := nodes[at].children[f];
        assert ChildAt(nodes, paths, at, f);
        assert CostAt(nodes[child], paths[child], samples, walked, leafStart, v);
        LongerIsNoPrefix(paths[child], walked, f);
      } else {
        child := |nodes|;
        NewNodeUncharged(nodes, paths, samples, at, f);
        ShapedGrows(nodes, paths, at, f);
        CoversGrows(paths, samples, walked + [f]);
        nodes := Grown(nodes, at, f);
        paths := paths + [walked + [f]];
      }
      PrefixesExtend(paths, walked, f);
    }

    method Enter(at: nat, f: Name, value: int, inLeaf: bool, ghost samples: seq<Sample>, ghost leafStart: nat) returns (child: nat)
      requires at < |nodes| == |paths| && Midway(nodes, paths, samples, paths[at], leafStart, value)
      requires inLeaf <==> |paths[at]| + 1 > leafStart
      modifies this
      ensures child < |nodes| == |paths| && paths[child] == old(paths[at]) + [f]
      ensures Midway(nodes, paths, samples, paths[child], leafStart, value)
    {
      ghost var walked := paths[at];
      child := Child(at, f, samples, leafStart, value);
      ghost var before := nodes;
      var node := nodes[child];
      node := node.(cumulative := node.cumulative + value);
      if inLeaf {
        node := node.(self := node.self + value);
      }
      ShapeIgnoresCosts(nodes, paths, child, node);
      nodes := nodes[child := node];
      forall j | 0 < j < |nodes|
        ensures CostAt(nodes[j], paths[j], samples, walked + [f], leafStart, value)
      {
        assert j != child ==> paths[j] != paths[child];
        Charged(before[j], nodes[j], paths[j], samples, walked, f, leafStart, value);
      }
    }

    /** The lines of one location, in slice order. */
    method AddLocation(at: nat, locations: seq<seq<Line>>, i: nat, value: int, ghost samples: seq<Sample>) returns (node: nat)
      requires i < |locations|
      requires at < |nodes| == |paths| && paths[at] == PathOf(locations[i + 1..])
      requires Midway(nodes, paths, samples, paths[at], LeafStart(locations), value)
      modifies this
      ensures node < |nodes| == |paths| && paths[node] == PathOf(locations[i..])
      ensures Midway(nodes, paths, samples, paths[node], LeafStart(locations), value)
    {
      var lines := locations[i];
      ghost var above := paths[at];
      node := at;
      for k := 0 to |lines|
        invariant node < |nodes| == |paths| && paths[node] == above + Names(lines[..k])
        invariant Midway(nodes, paths, samples, paths[node], LeafStart(locations), value)
      {
        NamesSnoc(lines, k);
        if lines[k].Func? {
          LeafTest(locations, i, k);
          node := Enter(node, lines[k].name, value, i == 0, samples, LeafStart(locations));
        }
      }
      PathStep(locations, i);
      assert lines[..|lines|] == lines;
    }

    /** One sample of flamegraph's loop: from the root, one child per function of the path. */
    method AddSample(s: Sample, ghost samples: seq<Sample>)
      requires Represents(nodes, paths, samples)
      modifies this
      ensures Represents(nodes, paths, samples + [s])
    {
      NotYetWalked(nodes, paths, samples, LeafStart(s.locations), s.value);
      var node: nat := 0;
      for i := |s.locations| downto 0
        invariant node < |nodes| == |paths| && paths[node] == PathOf(s.locations[i..])
        invariant Midway(nodes, paths, samples, paths[node], LeafStart(s.locations), s.value)
      {
        node := AddLocation(node, s.locations, i, s.value, samples);
      }
      assert s.locations[0..] == s.locations;
      WalkedIsSampled(nodes, paths, samples, s);
    }

    /** All samples, and the profile total. */
    method AddAll(samples: seq<Sample>) returns (total: int)
      requires Represents(nodes, paths, [])
      modifies this
      ensures Represents(nodes, paths, samples) && total == Total(samples)
    {
      total := 0;
      assert samples[..0] == [];
      for i := 0 to |samples|
        invariant Represents(nodes, paths, samples[..i]) && total == Total(samples[..i])
      {
        total := total + samples[i].value;
        AddSample(samples[i], samples[..i]);
        assert samples[..i + 1] == samples[..i] + [samples[i]];
      }
      assert samples[..|samples|] == samples;
    }
  }

  // ---- The trie against the flat scan ----

  /** The trie's own numbers summed over the f-nodes without an f ancestor, and over all f-nodes. */
  ghost function OutermostSum(nodes: seq<TrieNode>, paths: seq<Path>, f: Name): int
    requires |nodes| == |paths|
  {
    if nodes == [] then 0
    else
      var j := |nodes| - 1;
      OutermostSum(nodes[..j], paths[..j], f) + if Outermost(paths[j], f) then nodes[j].cumulative else 0
  }

  ghost function SelfSum(nodes: seq<TrieNode>, paths: seq<Path>, f: Name): int
    requires |nodes| == |paths|
  {
    if nodes == [] then 0
    else
      var j := |nodes| - 1;
      SelfSum(nodes[..j], paths[..j], f) + if nodes[j].name == f && j > 0 then nodes[j].self else 0
  }

  lemma {:induction false} SumsAreTallies(nodes: seq<TrieNode>, paths: seq<Path>, samples: seq<Sample>, f: Name)
    requires |nodes| == |paths| && (nodes != [] ==> paths[0] == [])
    requires forall j | 0 < j < |nodes| :: paths[j] != [] && paths[j][|paths[j]| - 1] == nodes[j].name
    requires forall j | 0 < j < |nodes| :: Uncharged(nodes[j], paths[j], samples)
    ensures OutermostSum(nodes, paths, f) == Tally(paths, OutermostCost(samples, f))
    ensures SelfSum(nodes, paths, f) == Tally(paths, SelfCost(samples, f))
  {
    if nodes != [] {
      SumsAreTallies(nodes[..|nodes| - 1], paths[..|nodes| - 1], samples, f);
    }
  }

  /** For every profile and function: the flat scan's cumulative cost is the trie's, summed over
      the outermost f-nodes, and its self cost the trie's summed over all nodes named f. */
  lemma TrieAgreesWithScan(nodes: seq<TrieNode>, paths: seq<Path>, samples: seq<Sample>, f: Name)
    requires Represents(nodes, paths, samples)
    ensures FlatCumulative(samples, f) == OutermostSum(nodes, paths, f)
    ensures FlatSelf(samples, f) == SelfSum(nodes, paths, f)
  {
    forall j | 0 < j < |nodes|
      ensures paths[j] != [] && paths[j][|paths[j]| - 1] == nodes[j].name
    {
      var i, g := ParentOf(nodes, paths, j);
      assert ChildAt(nodes, paths, i, g);
    }
    SumsAreTallies(nodes, paths, samples, f);
    CumulativeAgrees(samples, paths, f);
    SelfAgrees(samples, paths, f);
  }
}
