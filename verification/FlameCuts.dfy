/** What flamegraph of internal/gcpdata/profiler.go returns, told by the samples: which call paths,
    and in which order. */
module FlameCuts {
  import ByteOrder
  import opened CallTree
  import opened CallTrie
  import opened Flamegraph
  import Reals

  /** The samples that went through this path are a large enough share of all of them. */
  predicate Passes(samples: seq<Sample>, minPct: real, p: Path) {
    Reals.Abs(SafePercent(NodeCumulative(samples, p), Total(samples))) >= minPct
  }

  /** A path is within reach of the subtree's root: below it, not too deep, and nothing on the way
      falls short of the percentage. */
  ghost predicate Within(samples: seq<Sample>, minPct: real, root: Path, p: Path, levels: int) {
    && root <= p && |p| - |root| <= Max(0, levels)
    && forall k | |root| < k <= |p| :: Passes(samples, minPct, p[..k])
  }

  lemma EligibleIsPassing(nodes: seq<TrieNode>, paths: seq<Path>, samples: seq<Sample>, limits: Limits, j: nat)
    requires Represents(nodes, paths, samples) && limits.total == Total(samples) && 0 < j < |nodes|
    ensures Eligible(limits, nodes[j]) <==> Passes(samples, limits.minPct, paths[j])
  {
  }

  lemma RepresentsShape(nodes: seq<TrieNode>, paths: seq<Path>, samples: seq<Sample>)
    requires Represents(nodes, paths, samples)
    ensures Shaped(nodes, paths) && |nodes| == |paths|
  {
  }

  // ---- The trie nodes on the way to a node ----

  lemma {:induction false} PrefixIsNode(nodes: seq<TrieNode>, paths: seq<Path>, j: nat, k: nat) returns (i: nat)
    requires Shaped(nodes, paths) && j < |nodes| && k <= |paths[j]|
    ensures i < |nodes| && paths[i] == paths[j][..k]
    decreases |paths[j]|
  {
    if k == |paths[j]| {
      i := j;
    } else {
      var up, f := ParentOf(nodes, paths, j);
      i := PrefixIsNode(nodes, paths, up, k);
      assert paths[j][..k] == paths[up][..k];
    }
  }

  lemma KidTowards(nodes: seq<TrieNode>, paths: seq<Path>, idx: nat, j: nat) returns (c: nat)
    requires Shaped(nodes, paths) && Linked(nodes) && idx < |nodes| && j < |nodes| && paths[idx] < paths[j]
    ensures idx < c < |nodes| && c in KidsInOrder(nodes, idx) && paths[c] == paths[j][..|paths[idx]| + 1]
  {
    var n := |paths[idx]|;
    var i := PrefixIsNode(nodes, paths, j, n + 1);
    var f := paths[j][n];
    assert paths[j][..n + 1] == paths[idx] + [f];
    NodeIsChild(nodes, paths, idx, f);
    c := nodes[idx].children[f];
    assert ChildAt(nodes, paths, idx, f);
    hide Shaped, Linked;
    KidsAreSiblings(nodes, idx);
  }

  // ---- Which nodes are listed ----

  lemma {:induction false} ListedKid(nodes: seq<TrieNode>, limits: Limits, above: nat, kids: seq<nat>, depth: int, j: nat) returns (c: nat)
    requires Linked(nodes) && above < |nodes| && AreBelow(nodes, above, kids)
    requires j in UncutAll(nodes, limits, above, kids, depth)
    ensures c in kids && above < c < |nodes| && Eligible(limits, nodes[c]) && j in Uncut(nodes, limits, c, depth)
    decreases |kids|
  {
    hide Eligible, Uncut, Linked;
    var init, last := kids[..|kids| - 1], kids[|kids| - 1];
    assert kids == init + [last];
    if j in UncutAll(nodes, limits, above, init, depth) {
      c := ListedKid(nodes, limits, above, init, depth, j);
    } else {
      c := last;
    }
  }

  lemma {:induction false} KidListed(nodes: seq<TrieNode>, limits: Limits, above: nat, kids: seq<nat>, depth: int, i: nat, j: nat)
    requires Linked(nodes) && above < |nodes| && AreBelow(nodes, above, kids) && i < |kids|
    requires Eligible(limits, nodes[kids[i]]) && j in Uncut(nodes, limits, kids[i], depth)
    ensures j in UncutAll(nodes, limits, above, kids, depth)
    decreases |kids|
  {
    hide Eligible, Uncut, Linked;
    if i < |kids| - 1 {
      KidListed(nodes, limits, above, kids[..|kids| - 1], depth, i, j);
    }
  }

  lemma ListedBelow(nodes: seq<TrieNode>, limits: Limits, idx: nat, depth: int, j: nat) returns (c: nat)
    requires Linked(nodes) && idx < |nodes| && j in Uncut(nodes, limits, idx, depth) && j != idx
    ensures depth < limits.maxDepth && idx < c < |nodes| && c in KidsInOrder(nodes, idx)
    ensures Eligible(limits, nodes[c]) && j in Uncut(nodes, limits, c, depth + 1)
  {
    c := ListedKid(nodes, limits, idx, KidsInOrder(nodes, idx), depth + 1, j);
  }

  lemma KidOf(nodes: seq<TrieNode>, paths: seq<Path>, samples: seq<Sample>, idx: nat, c: nat)
    requires Represents(nodes, paths, samples) && Linked(nodes) && idx < |nodes| && c in KidsInOrder(nodes, idx)
    ensures idx < c < |nodes| == |paths| && paths[idx] <= paths[c] && |paths[c]| == |paths[idx]| + 1
  {
    KidsDoNotRepeat(nodes, paths, idx);
    KidsAreSiblings(nodes, idx);
  }

  lemma WithinItself(paths: seq<Path>, samples: seq<Sample>, minPct: real, nodes: seq<TrieNode>, idx: nat, levels: int)
    requires Represents(nodes, paths, samples) && idx < |nodes|
    ensures |nodes| == |paths| && Within(samples, minPct, paths[idx], paths[idx], levels)
  {
  }

  lemma WithinFromKid(samples: seq<Sample>, minPct: real, root: Path, kid: Path, p: Path, levels: int)
    requires root <= kid && |kid| == |root| + 1 && levels > 0 && Passes(samples, minPct, kid)
    requires Within(samples, minPct, kid, p, levels - 1)
    ensures Within(samples, minPct, root, p, levels)
  {
    hide Passes;
    assert p[..|root| + 1] == kid;
  }

  lemma {:induction false} ListedIsWithin(nodes: seq<TrieNode>, paths: seq<Path>, samples: seq<Sample>, limits: Limits, idx: nat, depth: int, j: nat)
    requires Represents(nodes, paths, samples) && Linked(nodes) && limits.total == Total(samples)
    requires idx < |nodes| && j in Uncut(nodes, limits, idx, depth)
    ensures j < |nodes| == |paths| && Within(samples, limits.minPct, paths[idx], paths[j], limits.maxDepth - depth)
    decreases |nodes| - idx
  {
    if j != idx {
      hide KidsInOrder, Linked, AreBelow, Uncut, Passes, Eligible, Within, NoRepeats, Represents;
      var c := ListedBelow(nodes, limits, idx, depth, j);
      KidOf(nodes, paths, samples, idx, c);
      ListedIsWithin(nodes, paths, samples, limits, c, depth + 1, j);
      EligibleIsPassing(nodes, paths, samples, limits, c);
      WithinFromKid(samples, limits.minPct, paths[idx], paths[c], paths[j], limits.maxDepth - depth);
    } else {
      WithinItself(paths, samples, limits.minPct, nodes, idx, limits.maxDepth - depth);
    }
  }

  lemma WithinKid(samples: seq<Sample>, minPct: real, root: Path, kid: Path, p: Path, levels: int)
    requires root < p && kid == p[..|root| + 1] && Within(samples, minPct, root, p, levels)
    ensures Passes(samples, minPct, kid) && levels > 0 && Within(samples, minPct, kid, p, levels - 1)
  {
    hide Passes;
  }

  lemma ListedThrough(nodes: seq<TrieNode>, limits: Limits, idx: nat, depth: int, c: nat, j: nat)
    requires Linked(nodes) && idx < c < |nodes| && depth < limits.maxDepth && c in KidsInOrder(nodes, idx)
    requires Eligible(limits, nodes[c]) && j in Uncut(nodes, limits, c, depth + 1)
    ensures j in Uncut(nodes, limits, idx, depth)
  {
    var kids := KidsInOrder(nodes, idx);
    var i :| 0 <= i < |kids| && kids[i] == c;
    hide Eligible, Linked, KidsInOrder;
    KidListed(nodes, limits, idx, kids, depth + 1, i, j);
  }

  lemma ListsItself(nodes: seq<TrieNode>, limits: Limits, idx: nat, depth: int)
    requires Linked(nodes) && idx < |nodes|
    ensures idx in Uncut(nodes, limits, idx, depth)
  {
  }

  lemma SameNode(nodes: seq<TrieNode>, paths: seq<Path>, i: nat, j: nat)
    requires Shaped(nodes, paths) && i < |paths| && j < |paths| && paths[i] == paths[j]
    ensures i == j
  {
  }

  lemma RootIsAbove(samples: seq<Sample>, minPct: real, root: Path, p: Path, levels: int)
    requires Within(samples, minPct, root, p, levels) && root != p
    ensures root < p
  {
  }

  lemma KidWithin(nodes: seq<TrieNode>, paths: seq<Path>, samples: seq<Sample>, limits: Limits, idx: nat, j: nat, levels: int) returns (c: nat)
    requires Represents(nodes, paths, samples) && Linked(nodes) && limits.total == Total(samples) && |nodes| == |paths|
    requires idx < |nodes| && j < |nodes| && Within(samples, limits.minPct, paths[idx], paths[j], levels) && paths[idx] != paths[j]
    ensures idx < c < |nodes| && levels > 0 && c in KidsInOrder(nodes, idx) && Eligible(limits, nodes[c])
    ensures Within(samples, limits.minPct, paths[c], paths[j], levels - 1)
  {
    hide Represents, Shaped, Linked, Within, KidsInOrder, Eligible, Passes, Total, AreBelow;
    RepresentsShape(nodes, paths, samples);
    RootIsAbove(samples, limits.minPct, paths[idx], paths[j], levels);
    c := KidTowards(nodes, paths, idx, j);
    WithinKid(samples, limits.minPct, paths[idx], paths[c], paths[j], levels);
    EligibleIsPassing(nodes, paths, samples, limits, c);
  }

  lemma {:induction false} WithinIsListed(nodes: seq<TrieNode>, paths: seq<Path>, samples: seq<Sample>, limits: Limits, idx: nat, depth: int, j: nat)
    requires Represents(nodes, paths, samples) && Linked(nodes) && limits.total == Total(samples) && |nodes| == |paths|
    requires idx < |nodes| && j < |nodes| && Within(samples, limits.minPct, paths[idx], paths[j], limits.maxDepth - depth)
    ensures j in Uncut(nodes, limits, idx, depth)
    decreases |nodes| - idx
  {
    hide Represents, Shaped, Linked, Within, Uncut, KidsInOrder, Eligible, Total, AreBelow;
    RepresentsShape(nodes, paths, samples);
    if paths[idx] == paths[j] {
      SameNode(nodes, paths, idx, j);
      ListsItself(nodes, limits, idx, depth);
    } else {
      var c := KidWithin(nodes, paths, samples, limits, idx, j, limits.maxDepth - depth);
      WithinIsListed(nodes, paths, samples, limits, c, depth + 1, j);
      ListedThrough(nodes, limits, idx, depth, c, j);
    }
  }

  // ---- In which order ----

  /** compareByCost between two paths: the larger cost in magnitude first, then the name. */
  predicate CostlierFirst(samples: seq<Sample>, p: Path, q: Path)
    requires p != [] && q != []
  {
    var a, b := Abs(NodeCumulative(samples, p)), Abs(NodeCumulative(samples, q));
    a > b || (a == b && ByteOrder.Less(p[|p| - 1], q[|q| - 1]))
  }

  /** Depth first: a path comes before those below it, and where two paths part, all below the
      costlier sibling comes before all below the other. */
  ghost predicate DepthFirst(samples: seq<Sample>, p: Path, q: Path) {
    || p < q
    || exists k: nat :: k < |p| && k < |q| && p[..k] == q[..k] && CostlierFirst(samples, p[..k + 1], q[..k + 1])
  }

  ghost predicate PairInOrder(paths: seq<Path>, samples: seq<Sample>, x: nat, y: nat) {
    x < |paths| && y < |paths| && DepthFirst(samples, paths[x], paths[y])
  }

  ghost predicate InDepthFirstOrder(paths: seq<Path>, samples: seq<Sample>, order: seq<nat>) {
    forall i, j | 0 <= i < j < |order| :: PairInOrder(paths, samples, order[i], order[j])
  }

  lemma SameLength(nodes: seq<TrieNode>, paths: seq<Path>, samples: seq<Sample>)
    requires Represents(nodes, paths, samples)
    ensures |nodes| == |paths|
  {
  }

  lemma SiblingsInOrder(nodes: seq<TrieNode>, paths: seq<Path>, samples: seq<Sample>, x: nat, y: nat)
    requires Represents(nodes, paths, samples) && 0 < x < |nodes| && 0 < y < |nodes| && Before(nodes[x], nodes[y])
    ensures |nodes| == |paths| && paths[x] != [] && paths[y] != [] && CostlierFirst(samples, paths[x], paths[y])
  {
    NameIsLast(nodes, paths, x);
    NameIsLast(nodes, paths, y);
  }

  lemma BelowSiblings(samples: seq<Sample>, above: Path, x: Path, y: Path, p: Path, q: Path)
    requires above <= x <= p && above <= y <= q && |x| == |y| == |above| + 1 && CostlierFirst(samples, x, y)
    ensures DepthFirst(samples, p, q)
  {
    hide CostlierFirst;
    var n := |above|;
    assert p[..n] == above == q[..n] && p[..n + 1] == x && q[..n + 1] == y;
  }

  lemma KidAbove(paths: seq<Path>, kids: seq<nat>, x: nat) returns (i: nat)
    requires Under(paths, kids, x)
    ensures i < |kids| && kids[i] < |paths| && x < |paths| && paths[kids[i]] <= paths[x]
  {
    var k :| k in kids && k < |paths| && x < |paths| && paths[k] <= paths[x];
    i :| 0 <= i < |kids| && kids[i] == k;
  }

  lemma KidsPart(nodes: seq<TrieNode>, paths: seq<Path>, samples: seq<Sample>, above: nat, kids: seq<nat>, a: nat, b: nat)
    requires Represents(nodes, paths, samples) && kids != [] && AreKids(paths, above, kids) && Flamegraph.Sorted(nodes, kids)
    requires Under(paths, kids[..|kids| - 1], a) && Under(paths, [kids[|kids| - 1]], b)
    ensures PairInOrder(paths, samples, a, b)
  {
    var last := |kids| - 1;
    var i := KidAbove(paths, kids[..last], a);
    var j := KidAbove(paths, [kids[last]], b);
    assert kids[i] in kids && kids[last] in kids;
    var x, y := kids[i], kids[last];
    SameLength(nodes, paths, samples);
    RootIsEmpty(nodes, paths, samples);
    hide Represents, DepthFirst, Before, CostlierFirst;
    SiblingsInOrder(nodes, paths, samples, x, y);
    BelowSiblings(samples, paths[above], paths[x], paths[y], paths[a], paths[b]);
  }

  lemma RootIsEmpty(nodes: seq<TrieNode>, paths: seq<Path>, samples: seq<Sample>)
    requires Represents(nodes, paths, samples)
    ensures |paths| > 0 && paths[0] == []
  {
  }

  lemma NameIsLast(nodes: seq<TrieNode>, paths: seq<Path>, j: nat)
    requires Shaped(nodes, paths) && 0 < j < |nodes|
    ensures paths[j] != [] && nodes[j].name == paths[j][|paths[j]| - 1]
  {
    var i, f := ParentOf(nodes, paths, j);
    assert ChildAt(nodes, paths, i, f);
  }

  lemma JoinInOrder(paths: seq<Path>, samples: seq<Sample>, a: seq<nat>, b: seq<nat>)
    requires InDepthFirstOrder(paths, samples, a) && InDepthFirstOrder(paths, samples, b)
    requires forall x, y | x in a && y in b :: PairInOrder(paths, samples, x, y)
    ensures InDepthFirstOrder(paths, samples, a + b)
  {
    hide PairInOrder;
    var s, n := a + b, |a|;
    forall i, j | 0 <= i < j < |s|
      ensures PairInOrder(paths, samples, s[i], s[j])
    {
      if j < n {
        assert s[i] == a[i] && s[j] == a[j];
      } else if i < n {
        assert s[i] == a[i] && s[j] == b[j - n];
        assert a[i] in a && b[j - n] in b;
      } else {
        assert s[i] == b[i - n] && s[j] == b[j - n];
      }
    }
  }

  lemma KidsSorted(nodes: seq<TrieNode>, idx: nat)
    requires Linked(nodes) && idx < |nodes|
    ensures Flamegraph.Sorted(nodes, KidsInOrder(nodes, idx))
  {
    KidsAreSiblings(nodes, idx);
    RankedIsSorted(nodes, Kids(nodes[idx]));
  }

  lemma RootBeforeBelow(paths: seq<Path>, samples: seq<Sample>, idx: nat, kids: seq<nat>, below: seq<nat>)
    requires idx < |paths| && AreKids(paths, idx, kids) && AllUnder(paths, kids, below)
    requires InDepthFirstOrder(paths, samples, below)
    ensures InDepthFirstOrder(paths, samples, [idx] + below)
  {
    forall x | x in below ensures x < |paths| && paths[idx] < paths[x] {
      var k :| k in kids && k < |paths| && paths[k] <= paths[x];
    }
    JoinInOrder(paths, samples, [idx], below);
  }

  lemma OneInOrder(paths: seq<Path>, samples: seq<Sample>)
    ensures InDepthFirstOrder(paths, samples, []) && forall i | 0 <= i < |paths| :: InDepthFirstOrder(paths, samples, [i])
  {
  }

  lemma {:induction false} UncutInOrder(nodes: seq<TrieNode>, paths: seq<Path>, samples: seq<Sample>, limits: Limits, idx: nat, depth: int)
    requires Represents(nodes, paths, samples) && Linked(nodes) && idx < |nodes|
    ensures InDepthFirstOrder(paths, samples, Uncut(nodes, limits, idx, depth))
    decreases |nodes| - idx, 1, 0
  {
    hide InDepthFirstOrder, KidsInOrder, Represents, Linked, NoRepeats;
    RepresentsShape(nodes, paths, samples);
    OneInOrder(paths, samples);
    if depth < limits.maxDepth {
      var kids := KidsInOrder(nodes, idx);
      var below := UncutAll(nodes, limits, idx, kids, depth + 1);
      KidsSorted(nodes, idx);
      KidsDoNotRepeat(nodes, paths, idx);
      UncutAllInOrder(nodes, paths, samples, limits, idx, kids, depth + 1);
      UncutAllListOnce(nodes, paths, limits, idx, kids, depth + 1);
      RootBeforeBelow(paths, samples, idx, kids, below);
    } else {
      assert Uncut(nodes, limits, idx, depth) == [idx];
    }
  }

  lemma {:induction false} UncutAllInOrder(nodes: seq<TrieNode>, paths: seq<Path>, samples: seq<Sample>, limits: Limits, above: nat,
                                           kids: seq<nat>, depth: int)
    requires Represents(nodes, paths, samples) && Linked(nodes) && above < |nodes| && AreBelow(nodes, above, kids)
    requires AreKids(paths, above, kids) && NoRepeats(kids) && Flamegraph.Sorted(nodes, kids)
    ensures InDepthFirstOrder(paths, samples, UncutAll(nodes, limits, above, kids, depth))
    decreases |nodes| - above, 0, |kids|
  {
    RepresentsShape(nodes, paths, samples);
    OneInOrder(paths, samples);
    hide InDepthFirstOrder, PairInOrder, Represents, Linked, Shaped;
    if kids != [] {
      var init, last := kids[..|kids| - 1], kids[|kids| - 1];
      var first := UncutAll(nodes, limits, above, init, depth);
      UncutAllInOrder(nodes, paths, samples, limits, above, init, depth);
      UncutAllListOnce(nodes, paths, limits, above, init, depth);
      if Eligible(limits, nodes[last]) {
        var second := Uncut(nodes, limits, last, depth);
        UncutInOrder(nodes, paths, samples, limits, last, depth);
        UncutListsOnce(nodes, paths, limits, last, depth);
        forall x, y | x in first && y in second
          ensures PairInOrder(paths, samples, x, y)
        {
          KidsPart(nodes, paths, samples, above, kids, x, y);
        }
        JoinInOrder(paths, samples, first, second);
      }
    }
  }

  // ---- What a caller gets ----

  lemma RootFirst(nodes: seq<TrieNode>, paths: seq<Path>, limits: Limits, idx: nat)
    requires Linked(nodes) && idx < |nodes|
    ensures Uncut(nodes, limits, idx, 0) != [] && Uncut(nodes, limits, idx, 0)[0] == idx
  {
  }

  lemma PrefixInOrder(paths: seq<Path>, samples: seq<Sample>, order: seq<nat>, uncut: seq<nat>)
    requires order <= uncut && InDepthFirstOrder(paths, samples, uncut)
    ensures InDepthFirstOrder(paths, samples, order)
  {
    forall i, j | 0 <= i < j < |order|
      ensures PairInOrder(paths, samples, order[i], order[j])
    {
      assert order[i] == uncut[i] && order[j] == uncut[j];
    }
  }

  lemma EarlierInOrder(paths: seq<Path>, samples: seq<Sample>, order: seq<nat>, uncut: seq<nat>, j: nat)
    requires order <= uncut && InDepthFirstOrder(paths, samples, uncut) && j in uncut && j !in order
    ensures |order| < |uncut|
    ensures forall i | i in order :: PairInOrder(paths, samples, i, j)
  {
    hide PairInOrder;
    var n :| 0 <= n < |uncut| && uncut[n] == j;
    assert n >= |order|;
    forall i | i in order ensures PairInOrder(paths, samples, i, j) {
      var m :| 0 <= m < |order| && order[m] == i;
      assert uncut[m] == i;
    }
  }

  /** The nodes returned, in preorder, are call paths in depth-first order.  While the budget is not
      spent they are exactly those within reach of the subtree's root; a spent budget returns the
      first ones of these. */
  lemma ReturnedPaths(nodes: seq<TrieNode>, paths: seq<Path>, samples: seq<Sample>, limits: Limits, idx: nat, fn: FlameNode,
                      order: seq<nat>, budget: nat)
    requires Represents(nodes, paths, samples) && limits.total == Total(samples)
    requires Returned(nodes, limits, idx, 0, fn, order, budget)
    ensures InDepthFirstOrder(paths, samples, order) && order != [] && order[0] == idx && |order| <= 1 + budget
    ensures forall j | j in order :: j < |paths| && Within(samples, limits.minPct, paths[idx], paths[j], limits.maxDepth)
    ensures forall j | 0 <= j < |paths| && j !in order && Within(samples, limits.minPct, paths[idx], paths[j], limits.maxDepth) ::
              |order| == 1 + budget && forall i | i in order :: DepthFirst(samples, paths[i], paths[j])
  {
    hide Represents, Linked, Uncut, Within, DepthFirst, InDepthFirstOrder, Copies, Preorder;
    SameLength(nodes, paths, samples);
    var uncut := Uncut(nodes, limits, idx, 0);
    UncutInOrder(nodes, paths, samples, limits, idx, 0);
    RootFirst(nodes, paths, limits, idx);
    PrefixInOrder(paths, samples, order, uncut);
    forall j | j in order ensures j < |paths| && Within(samples, limits.minPct, paths[idx], paths[j], limits.maxDepth) {
      ListedIsWithin(nodes, paths, samples, limits, idx, 0, j);
    }
    forall j | 0 <= j < |paths| && j !in order && Within(samples, limits.minPct, paths[idx], paths[j], limits.maxDepth)
      ensures |order| == 1 + budget && forall i | i in order :: DepthFirst(samples, paths[i], paths[j])
    {
      WithinIsListed(nodes, paths, samples, limits, idx, 0, j);
      EarlierInOrder(paths, samples, order, uncut, j);
    }
  }

  // ---- The returned tree itself ----

  /** A node of the returned tree, with the path its place in the tree spells. */
  datatype Placed = Placed(path: Path, self: int, cumulative: int, pct: real)

  /** The nodes in preorder. */
  function Walk(fn: FlameNode, path: Path): (w: seq<Placed>)
    decreases fn, 1, 0
  {
    [Placed(path, fn.self, fn.cumulative, fn.pct)] + WalkAll(fn.children, path)
  }

  function WalkAll(children: seq<FlameNode>, path: Path): (w: seq<Placed>)
    decreases children, 0, |children|
  {
    if children == [] then []
    else
      var last := children[|children| - 1];
      WalkAll(children[..|children| - 1], path) + Walk(last, path + [last.name])
  }

  /** What the samples say of a path; the root of everything has no cost of its own. */
  function Priced(samples: seq<Sample>, p: Path): Placed {
    var self, cumulative := if p == [] then 0 else NodeSelf(samples, p), if p == [] then 0 else NodeCumulative(samples, p);
    Placed(p, self, cumulative, SafePercent(cumulative, Total(samples)))
  }

  function PricedAll(samples: seq<Sample>, paths: seq<Path>, order: seq<nat>): (w: seq<Placed>)
    requires forall i | 0 <= i < |order| :: order[i] < |paths|
  {
    seq(|order|, i requires 0 <= i < |order| => Priced(samples, paths[order[i]]))
  }

  ghost predicate Indices(paths: seq<Path>, order: seq<nat>) {
    forall i | 0 <= i < |order| :: order[i] < |paths|
  }

  lemma PricedJoins(samples: seq<Sample>, paths: seq<Path>, a: seq<nat>, b: seq<nat>)
    requires Indices(paths, a) && Indices(paths, b)
    ensures Indices(paths, a + b) && PricedAll(samples, paths, a + b) == PricedAll(samples, paths, a) + PricedAll(samples, paths, b)
  {
  }

  lemma HeadIsPriced(nodes: seq<TrieNode>, paths: seq<Path>, samples: seq<Sample>, idx: nat, fn: FlameNode)
    requires Represents(nodes, paths, samples) && Linked(nodes) && idx < |nodes| && Copies(nodes, Total(samples), idx, fn)
    ensures idx < |paths| && Placed(paths[idx], fn.self, fn.cumulative, fn.pct) == Priced(samples, paths[idx])
  {
    if idx > 0 {
      NameIsLast(nodes, paths, idx);
    }
  }

  /** Every node of the returned tree carries the self cost, cumulative cost and percentage that the
      samples give to the path its place in the tree spells. */
  lemma {:induction false} ReturnedTree(nodes: seq<TrieNode>, paths: seq<Path>, samples: seq<Sample>, idx: nat, fn: FlameNode)
    requires Represents(nodes, paths, samples) && Linked(nodes) && idx < |nodes| && Copies(nodes, Total(samples), idx, fn)
    ensures var order := Preorder(nodes, Total(samples), idx, fn);
            idx < |paths| && Indices(paths, order) && Walk(fn, paths[idx]) == PricedAll(samples, paths, order)
    decreases fn, 1, 0
  {
    HeadIsPriced(nodes, paths, samples, idx, fn);
    ReturnedChildren(nodes, paths, samples, idx, fn.children);
    hide Represents, Linked, Copies, Priced;
    PricedJoins(samples, paths, [idx], PreorderAll(nodes, Total(samples), idx, fn.children));
  }

  lemma {:induction false} ReturnedChildren(nodes: seq<TrieNode>, paths: seq<Path>, samples: seq<Sample>, idx: nat, children: seq<FlameNode>)
    requires Represents(nodes, paths, samples) && Linked(nodes) && idx < |nodes| && CopiesAll(nodes, Total(samples), idx, children)
    ensures var order := PreorderAll(nodes, Total(samples), idx, children);
            idx < |paths| && Indices(paths, order) && WalkAll(children, paths[idx]) == PricedAll(samples, paths, order)
    decreases children, 0, |children|
  {
    SameLength(nodes, paths, samples);
    RepresentsShape(nodes, paths, samples);
    if children != [] {
      var init, last := children[..|children| - 1], children[|children| - 1];
      var c := nodes[idx].children[last.name];
      assert ChildAt(nodes, paths, idx, last.name);
      ReturnedChildren(nodes, paths, samples, idx, init);
      ReturnedTree(nodes, paths, samples, c, last);
      hide Represents, Linked, Copies, Priced, Shaped;
      PricedJoins(samples, paths, PreorderAll(nodes, Total(samples), idx, init), Preorder(nodes, Total(samples), c, last));
    }
  }

  // ---- Profiles without negative values ----

  ghost predicate NonNegative(samples: seq<Sample>) {
    forall i | 0 <= i < |samples| :: samples[i].value >= 0
  }

  lemma {:induction false} AncestorsCostMore(samples: seq<Sample>, p: Path, q: Path)
    requires NonNegative(samples) && p <= q
    ensures 0 <= NodeCumulative(samples, q) <= NodeCumulative(samples, p) <= Total(samples)
  {
    if samples != [] {
      AncestorsCostMore(samples[..|samples| - 1], p, q);
    }
  }

  lemma RoundGrows(x: real, y: real)
    requires 0.0 <= x <= y
    ensures 0 <= Round(x) <= Round(y)
  {
  }

  lemma ShareGrows(a: int, b: int, total: int)
    requires 0 <= a <= b && total > 0
    ensures 0.0 <= a as real / total as real * 10000.0 <= b as real / total as real * 10000.0
  {
    var t, x, y := total as real, a as real / total as real, b as real / total as real;
    assert x * t == a as real && y * t == b as real;
    assert 0.0 <= x by {
      if x < 0.0 {
        Reals.PositiveValue(-x, t, -(a as real));
      }
    }
    assert x <= y by {
      if x > y {
        Reals.PositiveValue(x - y, t, a as real - b as real);
      }
    }
  }

  /** Without negative values every ancestor of a path that passes the cut passes it too. */
  lemma AncestorsPass(samples: seq<Sample>, minPct: real, p: Path, q: Path)
    requires NonNegative(samples) && p <= q && Passes(samples, minPct, q)
    ensures Passes(samples, minPct, p)
  {
    AncestorsCostMore(samples, p, q);
    if Total(samples) > 0 {
      var a, b, total := NodeCumulative(samples, q), NodeCumulative(samples, p), Total(samples);
      ShareGrows(a, b, total);
      RoundGrows(a as real / total as real * 10000.0, b as real / total as real * 10000.0);
    }
  }

  /** So the cut is on the path's own share. */
  lemma CutByOwnShare(samples: seq<Sample>, minPct: real, root: Path, p: Path, levels: int)
    requires NonNegative(samples)
    ensures Within(samples, minPct, root, p, levels) <==>
            root <= p && |p| - |root| <= Max(0, levels) && (p == root || Passes(samples, minPct, p))
  {
    if root < p {
      assert p[..|p|] == p;
      if Passes(samples, minPct, p) {
        forall k | |root| < k <= |p| ensures Passes(samples, minPct, p[..k]) {
          AncestorsPass(samples, minPct, p[..k], p);
        }
      }
    }
  }
}
