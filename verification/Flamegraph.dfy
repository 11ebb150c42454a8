/** The pruning half of flamegraph in internal/gcpdata/profiler.go: a depth-first conversion that
    cuts by depth, by percentage and by a budget of returned nodes. */
module Flamegraph {
  import ByteOrder
  import opened CallTree
  import opened CallTrie
  import opened FlatScan
  import Reals

  datatype FlameNode = FlameNode(name: Name, self: int, cumulative: int, pct: real, children: seq<FlameNode>)

  datatype Limits = Limits(total: int, maxDepth: int, minPct: real)

  /** Every child link leads to a later node, stored under its own name. */
  ghost predicate Linked(nodes: seq<TrieNode>) {
    forall i, f | 0 <= i < |nodes| && f in nodes[i].children :: LinkAt(nodes, i, f)
  }

  ghost predicate LinkAt(nodes: seq<TrieNode>, i: nat, f: Name)
    requires i < |nodes| && f in nodes[i].children
  {
    i < nodes[i].children[f] < |nodes| && nodes[nodes[i].children[f]].name == f
  }

  lemma ShapedIsLinked(nodes: seq<TrieNode>, paths: seq<Path>)
    requires Shaped(nodes, paths)
    ensures Linked(nodes)
  {
    forall i, f | 0 <= i < |nodes| && f in nodes[i].children ensures LinkAt(nodes, i, f) {
      assert ChildAt(nodes, paths, i, f);
    }
  }

  // ---- safePercent ----

  /** math.Round: half away from zero. */
  function Round(x: real): int {
    if x >= 0.0 then (x + 0.5).Floor else -(-x + 0.5).Floor
  }

  function SafePercent(value: int, total: int): real {
    if total == 0 then 0.0 else Round(value as real / total as real * 10000.0) as real / 100.0
  }

  /** Rounded to the nearest hundredth of a percent. */
  lemma PercentIsRounded(value: int, total: int)
    requires total != 0
    ensures var exact := value as real / total as real * 100.0;
            exact - 0.005 <= SafePercent(value, total) <= exact + 0.005
  {
    var x := value as real / total as real * 10000.0;
    assert x - 0.5 <= Round(x) as real <= x + 0.5;
  }

  /** The nearest whole number, the one farther from zero of two. */
  lemma RoundsHalfAwayFromZero(x: real)
    ensures Reals.Abs(x - Round(x) as real) <= 0.5
    ensures Reals.Abs(x - Round(x) as real) == 0.5 ==> Reals.Abs(x) < Reals.Abs(Round(x) as real)
    ensures Round(-x) == -Round(x)
  {
  }

  function Abs(v: int): nat {
    if v < 0 then -v else v
  }

  predicate Eligible(limits: Limits, node: TrieNode) {
    Reals.Abs(SafePercent(node.cumulative, limits.total)) >= limits.minPct
  }

  // ---- sortedChildren ----

  /** compareByCost: descending absolute cumulative cost, then name. */
  predicate Before(a: TrieNode, b: TrieNode) {
    || Abs(a.cumulative) > Abs(b.cumulative)
    || (Abs(a.cumulative) == Abs(b.cumulative) && ByteOrder.Less(a.name, b.name))
  }

  lemma BeforeIsOrder(a: TrieNode, b: TrieNode, c: TrieNode)
    ensures Before(a, b) && Before(b, c) ==> Before(a, c)
    ensures !(Before(a, b) && Before(b, a))
    ensures a.name != b.name ==> Before(a, b) || Before(b, a)
  {
    ByteOrder.LessTotal(a.name, b.name);
    if Before(a, b) && Before(b, c) && ByteOrder.Less(a.name, b.name) && ByteOrder.Less(b.name, c.name) {
      ByteOrder.LessTransitive(a.name, b.name, c.name);
    }
  }

  ghost predicate Siblings(nodes: seq<TrieNode>, kids: set<nat>) {
    && (forall k | k in kids :: k < |nodes|)
    && (forall j, k | j in kids && k in kids && j != k :: nodes[j].name != nodes[k].name)
  }

  ghost predicate IsFirst(nodes: seq<TrieNode>, kids: set<nat>, c: nat)
    requires Siblings(nodes, kids)
  {
    c in kids && forall k | k in kids && k != c :: Before(nodes[c], nodes[k])
  }

  lemma {:induction false} FirstExists(nodes: seq<TrieNode>, kids: set<nat>)
    requires Siblings(nodes, kids) && kids != {}
    ensures exists c: nat :: IsFirst(nodes, kids, c)
    decreases |kids|
  {
    var k: nat :| k in kids;
    if kids == {k} {
      assert IsFirst(nodes, kids, k);
    } else {
      var rest := kids - {k};
      assert rest != {};
      FirstExists(nodes, rest);
      var c: nat :| IsFirst(nodes, rest, c);
      assert k in kids && c in kids;
      forall j | j in kids {
        BeforeIsOrder(nodes[k], nodes[c], nodes[j]);
      }
      if Before(nodes[k], nodes[c]) {
        assert IsFirst(nodes, kids, k);
      } else {
        assert IsFirst(nodes, kids, c);
      }
    }
  }

  lemma FirstIsUnique(nodes: seq<TrieNode>, kids: set<nat>, c: nat, d: nat)
    requires Siblings(nodes, kids) && IsFirst(nodes, kids, c) && IsFirst(nodes, kids, d)
    ensures c == d
  {
    BeforeIsOrder(nodes[c], nodes[d], nodes[c]);
  }

  /** The children in the one order compareByCost allows: each comes before all later ones. */
  ghost function Ranked(nodes: seq<TrieNode>, kids: set<nat>): (s: seq<nat>)
    requires Siblings(nodes, kids)
    ensures |s| == |kids| && forall k :: k in s <==> k in kids
  {
    if kids == {} then []
    else
      FirstExists(nodes, kids);
      var c: nat :| IsFirst(nodes, kids, c);
      [c] + Ranked(nodes, kids - {c})
  }

  ghost predicate Sorted(nodes: seq<TrieNode>, s: seq<nat>) {
    forall i, j | 0 <= i < j < |s| :: s[i] < |nodes| && s[j] < |nodes| && Before(nodes[s[i]], nodes[s[j]])
  }

  lemma RankedStep(nodes: seq<TrieNode>, kids: set<nat>) returns (c: nat)
    requires Siblings(nodes, kids) && kids != {}
    ensures IsFirst(nodes, kids, c) && Ranked(nodes, kids) == [c] + Ranked(nodes, kids - {c})
  {
    FirstExists(nodes, kids);
    c := Ranked(nodes, kids)[0];
  }

  lemma PrependSorted(nodes: seq<TrieNode>, c: nat, tail: seq<nat>)
    requires c < |nodes| && Sorted(nodes, tail)
    requires forall k | k in tail :: k < |nodes| && Before(nodes[c], nodes[k])
    ensures Sorted(nodes, [c] + tail)
  {
  }

  lemma {:induction false} RankedIsSorted(nodes: seq<TrieNode>, kids: set<nat>)
    requires Siblings(nodes, kids)
    ensures Sorted(nodes, Ranked(nodes, kids))
    decreases |kids|
  {
    if kids != {} {
      var c := RankedStep(nodes, kids);
      RankedIsSorted(nodes, kids - {c});
      PrependSorted(nodes, c, Ranked(nodes, kids - {c}));
    }
  }

  function Kids(node: TrieNode): set<nat> {
    set f | f in node.children :: node.children[f]
  }

  lemma KidsAreSiblings(nodes: seq<TrieNode>, idx: nat)
    requires Linked(nodes) && idx < |nodes|
    ensures Siblings(nodes, Kids(nodes[idx]))
    ensures forall k | k in Kids(nodes[idx]) ::
              idx < k < |nodes| && nodes[k].name in nodes[idx].children && nodes[idx].children[nodes[k].name] == k
    ensures |Kids(nodes[idx])| == |nodes[idx].children|
  {
    var children := nodes[idx].children;
    forall f | f in children ensures LinkAt(nodes, idx, f) {
    }
    InjectiveSize(children, Kids(nodes[idx]));
  }

  lemma {:induction false} InjectiveSize(m: map<Name, nat>, values: set<nat>)
    requires forall f, g | f in m && g in m && f != g :: m[f] != m[g]
    requires values == set f | f in m :: m[f]
    ensures |values| == |m|
    decreases |m|
  {
    if m != map[] {
      var f :| f in m;
      var m', values' := m - {f}, values - {m[f]};
      assert values' == set g | g in m' :: m'[g] by {
        forall v ensures v in values' <==> v in set g | g in m' :: m'[g] {
          if v in values' {
            var g :| g in m && m[g] == v;
            assert g in m' && m'[g] == v;
          }
        }
      }
      InjectiveSize(m', values');
    }
  }

  method First(nodes: seq<TrieNode>, kids: set<nat>) returns (c: nat)
    requires Siblings(nodes, kids) && kids != {}
    ensures IsFirst(nodes, kids, c)
  {
    FirstExists(nodes, kids);
    c :| c in kids && forall k | k in kids && k != c :: Before(nodes[c], nodes[k]);
  }

  lemma FirstTaken(nodes: seq<TrieNode>, rest: set<nat>, c: nat, s: seq<nat>, ranked: seq<nat>)
    requires Siblings(nodes, rest) && IsFirst(nodes, rest, c) && ranked == s + Ranked(nodes, rest)
    ensures Siblings(nodes, rest - {c}) && ranked == s + [c] + Ranked(nodes, rest - {c})
  {
    var first := RankedStep(nodes, rest);
    FirstIsUnique(nodes, rest, first, c);
  }

  method SortedByCost(nodes: seq<TrieNode>, kids: set<nat>) returns (s: seq<nat>)
    requires Siblings(nodes, kids)
    ensures s == Ranked(nodes, kids)
  {
    var rest := kids;
    s := [];
    while rest != {}
      invariant Siblings(nodes, rest)
      invariant Ranked(nodes, kids) == s + Ranked(nodes, rest)
      decreases |rest|
    {
      var c := First(nodes, rest);
      FirstTaken(nodes, rest, c, s, Ranked(nodes, kids));
      s, rest := s + [c], rest - {c};
    }
  }

  ghost predicate AreBelow(nodes: seq<TrieNode>, above: nat, kids: seq<nat>) {
    forall i | 0 <= i < |kids| :: above < kids[i] < |nodes|
  }

  ghost function KidsInOrder(nodes: seq<TrieNode>, idx: nat): (s: seq<nat>)
    requires Linked(nodes) && idx < |nodes|
    ensures AreBelow(nodes, idx, s) && |s| == |nodes[idx].children|
  {
    KidsAreSiblings(nodes, idx);
    var s := Ranked(nodes, Kids(nodes[idx]));
    assert forall i | 0 <= i < |s| :: s[i] in s;
    s
  }

  method SortedChildren(nodes: seq<TrieNode>, idx: nat) returns (s: seq<nat>)
    requires Linked(nodes) && idx < |nodes|
    ensures s == KidsInOrder(nodes, idx)
  {
    KidsAreSiblings(nodes, idx);
    s := SortedByCost(nodes, Kids(nodes[idx]));
  }

  // ---- The tree without a budget, and the tree returned ----

  /** The trie below idx cut by depth and percentage only, in preorder, children in rank order. */
  ghost function Uncut(nodes: seq<TrieNode>, limits: Limits, idx: nat, depth: int): (s: seq<nat>)
    requires Linked(nodes) && idx < |nodes|
    ensures |s| >= 1
    decreases |nodes| - idx, 1, 0
  {
    [idx] + if depth >= limits.maxDepth then [] else UncutAll(nodes, limits, idx, KidsInOrder(nodes, idx), depth + 1)
  }

  ghost function UncutAll(nodes: seq<TrieNode>, limits: Limits, above: nat, kids: seq<nat>, depth: int): seq<nat>
    requires Linked(nodes) && above < |nodes|
    requires AreBelow(nodes, above, kids)
    decreases |nodes| - above, 0, |kids|
  {
    if kids == [] then []
    else
      var init, last := kids[..|kids| - 1], kids[|kids| - 1];
      UncutAll(nodes, limits, above, init, depth)
      + if Eligible(limits, nodes[last]) then Uncut(nodes, limits, last, depth) else []
  }

  /** The returned tree copies trie nodes: child names lead back to the trie children. */
  ghost predicate Copies(nodes: seq<TrieNode>, total: int, idx: nat, fn: FlameNode)
    requires Linked(nodes) && idx < |nodes|
    decreases fn, 1, 0
  {
    && fn.name == nodes[idx].name && fn.self == nodes[idx].self && fn.cumulative == nodes[idx].cumulative
    && fn.pct == SafePercent(nodes[idx].cumulative, total)
    && CopiesAll(nodes, total, idx, fn.children)
  }

  ghost predicate CopiesAll(nodes: seq<TrieNode>, total: int, idx: nat, children: seq<FlameNode>)
    requires Linked(nodes) && idx < |nodes|
    decreases children, 0, |children|
  {
    children == []
    || var init, last := children[..|children| - 1], children[|children| - 1];
       && CopiesAll(nodes, total, idx, init)
       && last.name in nodes[idx].children
       && LinkAt(nodes, idx, last.name)
       && Copies(nodes, total, nodes[idx].children[last.name], last)
  }

  /** The trie nodes behind a returned tree, in preorder. */
  ghost function Preorder(nodes: seq<TrieNode>, total: int, idx: nat, fn: FlameNode): seq<nat>
    requires Linked(nodes) && idx < |nodes| && Copies(nodes, total, idx, fn)
    decreases fn, 1, 0
  {
    [idx] + PreorderAll(nodes, total, idx, fn.children)
  }

  ghost function PreorderAll(nodes: seq<TrieNode>, total: int, idx: nat, children: seq<FlameNode>): seq<nat>
    requires Linked(nodes) && idx < |nodes| && CopiesAll(nodes, total, idx, children)
    decreases children, 0, |children|
  {
    if children == [] then []
    else
      var init, last := children[..|children| - 1], children[|children| - 1];
      PreorderAll(nodes, total, idx, init) + Preorder(nodes, total, nodes[idx].children[last.name], last)
  }

  ghost function NodeCount(fn: FlameNode): nat
    decreases fn, 1, 0
  {
    1 + NodeCountAll(fn.children)
  }

  ghost function NodeCountAll(children: seq<FlameNode>): nat
    decreases children, 0, |children|
  {
    if children == [] then 0
    else NodeCountAll(children[..|children| - 1]) + NodeCount(children[|children| - 1])
  }

  function Max(a: int, b: int): int {
    if a > b then a else b
  }

  /** Edges on the longest way down. */
  ghost function Height(fn: FlameNode): nat
    decreases fn, 1, 0
  {
    HeightAll(fn.children)
  }

  ghost function HeightAll(children: seq<FlameNode>): nat
    decreases children, 0, |children|
  {
    if children == [] then 0
    else Max(HeightAll(children[..|children| - 1]), 1 + Height(children[|children| - 1]))
  }

  /** The trie children of the given nodes, all together. */
  ghost function Fanout(nodes: seq<TrieNode>, s: seq<nat>): nat {
    if s == [] then 0
    else
      var last := s[|s| - 1];
      Fanout(nodes, s[..|s| - 1]) + if last < |nodes| then |nodes[last].children| else 0
  }

  lemma {:induction false} FanoutAdds(nodes: seq<TrieNode>, a: seq<nat>, b: seq<nat>)
    ensures Fanout(nodes, a + b) == Fanout(nodes, a) + Fanout(nodes, b)
  {
    if b == [] {
      assert a + b == a;
    } else {
      FanoutAdds(nodes, a, b[..|b| - 1]);
      assert (a + b)[..|a + b| - 1] == a + b[..|b| - 1];
    }
  }

  lemma {:induction false} PreorderCounts(nodes: seq<TrieNode>, total: int, idx: nat, fn: FlameNode)
    requires Linked(nodes) && idx < |nodes| && Copies(nodes, total, idx, fn)
    ensures |Preorder(nodes, total, idx, fn)| == NodeCount(fn)
    decreases fn, 1, 0
  {
    PreorderAllCounts(nodes, total, idx, fn.children);
  }

  lemma {:induction false} PreorderAllCounts(nodes: seq<TrieNode>, total: int, idx: nat, children: seq<FlameNode>)
    requires Linked(nodes) && idx < |nodes| && CopiesAll(nodes, total, idx, children)
    ensures |PreorderAll(nodes, total, idx, children)| == NodeCountAll(children)
    decreases children, 0, |children|
  {
    if children != [] {
      var init, last := children[..|children| - 1], children[|children| - 1];
      PreorderAllCounts(nodes, total, idx, init);
      PreorderCounts(nodes, total, nodes[idx].children[last.name], last);
    }
  }

  function Take(s: seq<nat>, n: nat): seq<nat> {
    if n < |s| then s[..n] else s
  }

  lemma TakeMore(a: seq<nat>, b: seq<nat>, n: nat)
    requires |a| <= n
    ensures Take(a + b, n) == a + Take(b, n - |a|)
  {
  }

  lemma TakeNoMore(a: seq<nat>, b: seq<nat>, n: nat)
    requires |Take(a, n)| >= n
    ensures Take(a + b, n) == Take(a, n)
  {
  }

  // ---- No trie node is listed twice ----

  ghost predicate NoRepeats(s: seq<nat>) {
    forall i, j | 0 <= i < j < |s| :: s[i] != s[j]
  }

  /** Node x lies at or below one of the given nodes. */
  ghost predicate Under(paths: seq<Path>, tops: seq<nat>, x: nat) {
    x < |paths| && exists k | k in tops :: k < |paths| && paths[k] <= paths[x]
  }

  ghost predicate AllUnder(paths: seq<Path>, tops: seq<nat>, s: seq<nat>) {
    forall x | x in s :: Under(paths, tops, x)
  }

  ghost predicate AreKids(paths: seq<Path>, above: nat, kids: seq<nat>) {
    above < |paths| && forall k | k in kids :: k < |paths| && |paths[k]| == |paths[above]| + 1 && paths[above] <= paths[k]
  }

  lemma KidsDoNotRepeat(nodes: seq<TrieNode>, paths: seq<Path>, idx: nat)
    requires Shaped(nodes, paths) && Linked(nodes) && idx < |nodes|
    ensures AreKids(paths, idx, KidsInOrder(nodes, idx)) && NoRepeats(KidsInOrder(nodes, idx))
  {
    var kids := KidsInOrder(nodes, idx);
    KidsAreSiblings(nodes, idx);
    RankedIsSorted(nodes, Kids(nodes[idx]));
    forall i, j | 0 <= i < j < |kids| ensures kids[i] != kids[j] {
      BeforeIsOrder(nodes[kids[i]], nodes[kids[j]], nodes[kids[i]]);
    }
    forall k | k in kids ensures k < |paths| && |paths[k]| == |paths[idx]| + 1 && paths[idx] <= paths[k] {
      assert ChildAt(nodes, paths, idx, nodes[k].name);
    }
  }

  lemma JoinNoRepeats(a: seq<nat>, b: seq<nat>)
    requires NoRepeats(a) && NoRepeats(b) && forall x | x in a :: x !in b
    ensures NoRepeats(a + b)
  {
    forall i, j | 0 <= i < j < |a + b| ensures (a + b)[i] != (a + b)[j] {
      if i < |a| <= j {
        assert a[i] in a && b[j - |a|] in b;
      }
    }
  }

  lemma SamePrefix(p: Path, q: Path, r: Path)
    ensures p <= r && q <= r && |p| == |q| ==> p == q
  {
  }

  /** What lies under different kids is different. */
  lemma KidsApart(paths: seq<Path>, above: nat, kids: seq<nat>, x: nat)
    requires CallTree.Distinct(paths) && kids != [] && AreKids(paths, above, kids) && NoRepeats(kids)
    requires Under(paths, kids[..|kids| - 1], x)
    ensures !Under(paths, [kids[|kids| - 1]], x)
  {
    var last := kids[|kids| - 1];
    var k :| k in kids[..|kids| - 1] && k < |paths| && paths[k] <= paths[x];
    var i :| 0 <= i < |kids| - 1 && kids[i] == k;
    assert kids[i] in kids && last in kids;
    SamePrefix(paths[k], paths[last], paths[x]);
  }

  lemma UnderMore(paths: seq<Path>, a: seq<nat>, b: seq<nat>, s: seq<nat>)
    requires AllUnder(paths, a, s) && forall k | k in a :: k in b
    ensures AllUnder(paths, b, s)
  {
    forall x | x in s ensures Under(paths, b, x) {
      var k :| k in a && k < |paths| && paths[k] <= paths[x];
      assert k in b;
    }
  }

  lemma BelowKids(paths: seq<Path>, above: nat, kids: seq<nat>, s: seq<nat>)
    requires AreKids(paths, above, kids) && AllUnder(paths, kids, s)
    ensures AllUnder(paths, [above], s) && above !in s
  {
    forall x | x in s ensures Under(paths, [above], x) && x != above {
      var k :| k in kids && k < |paths| && paths[k] <= paths[x];
      assert above in [above];
    }
  }

  lemma {:induction false} UncutListsOnce(nodes: seq<TrieNode>, paths: seq<Path>, limits: Limits, idx: nat, depth: int)
    requires Shaped(nodes, paths) && Linked(nodes) && idx < |nodes|
    ensures NoRepeats(Uncut(nodes, limits, idx, depth)) && AllUnder(paths, [idx], Uncut(nodes, limits, idx, depth))
    decreases |nodes| - idx, 1, 0
  {
    if depth < limits.maxDepth {
      var kids := KidsInOrder(nodes, idx);
      var below := UncutAll(nodes, limits, idx, kids, depth + 1);
      KidsDoNotRepeat(nodes, paths, idx);
      UncutAllListOnce(nodes, paths, limits, idx, kids, depth + 1);
      BelowKids(paths, idx, kids, below);
      JoinNoRepeats([idx], below);
    }
  }

  lemma {:induction false} UncutAllListOnce(nodes: seq<TrieNode>, paths: seq<Path>, limits: Limits, above: nat, kids: seq<nat>, depth: int)
    requires Shaped(nodes, paths) && Linked(nodes) && above < |nodes| && AreBelow(nodes, above, kids)
    requires AreKids(paths, above, kids) && NoRepeats(kids)
    ensures NoRepeats(UncutAll(nodes, limits, above, kids, depth)) && AllUnder(paths, kids, UncutAll(nodes, limits, above, kids, depth))
    decreases |nodes| - above, 0, |kids|
  {
    if kids != [] {
      var init, last := kids[..|kids| - 1], kids[|kids| - 1];
      var first := UncutAll(nodes, limits, above, init, depth);
      UncutAllListOnce(nodes, paths, limits, above, init, depth);
      UnderMore(paths, init, kids, first);
      if Eligible(limits, nodes[last]) {
        var second := Uncut(nodes, limits, last, depth);
        UncutListsOnce(nodes, paths, limits, last, depth);
        UnderMore(paths, [last], kids, second);
        forall x | x in first ensures x !in second {
          KidsApart(paths, above, kids, x);
        }
        JoinNoRepeats(first, second);
      }
    }
  }

  /** A returned tree over a trie lists each of its nodes once. */
  lemma ReturnedOnce(nodes: seq<TrieNode>, paths: seq<Path>, limits: Limits, idx: nat, depth: int, fn: FlameNode,
                     order: seq<nat>, budget: nat)
    requires Shaped(nodes, paths) && Returned(nodes, limits, idx, depth, fn, order, budget)
    ensures NoRepeats(order)
  {
    UncutListsOnce(nodes, paths, limits, idx, depth);
  }

  // ---- convert ----

  /** The fields of a returned node besides its children. */
  predicate Header(fn: FlameNode, node: TrieNode, total: int) {
    fn.name == node.name && fn.self == node.self && fn.cumulative == node.cumulative
    && fn.pct == SafePercent(node.cumulative, total)
  }

  /** What convert has returned of the kids looked at so far: the first nodes of their uncut
      trees, as many as the budget allows. */
  ghost predicate Kept(nodes: seq<TrieNode>, limits: Limits, idx: nat, depth: int, kids: seq<nat>, children: seq<FlameNode>,
                       kept: seq<nat>, budget: nat)
  {
    && Linked(nodes) && idx < |nodes| && AreBelow(nodes, idx, kids)
    && CopiesAll(nodes, limits.total, idx, children)
    && kept == PreorderAll(nodes, limits.total, idx, children)
    && kept == Take(UncutAll(nodes, limits, idx, kids, depth), budget)
  }

  ghost predicate Returned(nodes: seq<TrieNode>, limits: Limits, idx: nat, depth: int, fn: FlameNode, order: seq<nat>, budget: nat)
  {
    && Linked(nodes) && idx < |nodes|
    && Copies(nodes, limits.total, idx, fn)
    && order == Preorder(nodes, limits.total, idx, fn)
    && order == Take(Uncut(nodes, limits, idx, depth), 1 + budget)
  }

  lemma KeptNone(nodes: seq<TrieNode>, limits: Limits, idx: nat, depth: int, budget: nat)
    requires Linked(nodes) && idx < |nodes|
    ensures Kept(nodes, limits, idx, depth, [], [], [], budget)
  {
  }

  /** A child dropped for its percentage, or because the budget is spent. */
  lemma KeptDrops(nodes: seq<TrieNode>, limits: Limits, idx: nat, depth: int, kids: seq<nat>, child: nat,
                  children: seq<FlameNode>, kept: seq<nat>, budget: nat)
    requires Kept(nodes, limits, idx, depth, kids, children, kept, budget) && idx < child < |nodes|
    requires !Eligible(limits, nodes[child]) || |kept| >= budget
    ensures Kept(nodes, limits, idx, depth, kids + [child], children, kept, budget)
  {
    var uncut := UncutAll(nodes, limits, idx, kids, depth);
    assert (kids + [child])[..|kids|] == kids;
    var more := if Eligible(limits, nodes[child]) then Uncut(nodes, limits, child, depth) else [];
    assert UncutAll(nodes, limits, idx, kids + [child], depth) == uncut + more;
    if Eligible(limits, nodes[child]) {
      TakeNoMore(uncut, more, budget);
    } else {
      assert uncut + more == uncut;
    }
  }

  lemma PreorderAllSnoc(nodes: seq<TrieNode>, total: int, idx: nat, children: seq<FlameNode>, child: nat, c: FlameNode)
    requires Linked(nodes) && idx < child < |nodes| && CopiesAll(nodes, total, idx, children)
    requires Copies(nodes, total, child, c)
    requires nodes[child].name in nodes[idx].children && nodes[idx].children[nodes[child].name] == child
    ensures CopiesAll(nodes, total, idx, children + [c])
    ensures PreorderAll(nodes, total, idx, children + [c]) == PreorderAll(nodes, total, idx, children) + Preorder(nodes, total, child, c)
  {
    assert (children + [c])[..|children|] == children;
    assert LinkAt(nodes, idx, nodes[child].name);
  }

  lemma UncutAllSnoc(nodes: seq<TrieNode>, limits: Limits, idx: nat, depth: int, kids: seq<nat>, child: nat)
    requires Linked(nodes) && idx < child < |nodes| && AreBelow(nodes, idx, kids) && Eligible(limits, nodes[child])
    ensures AreBelow(nodes, idx, kids + [child])
    ensures UncutAll(nodes, limits, idx, kids + [child], depth)
            == UncutAll(nodes, limits, idx, kids, depth) + Uncut(nodes, limits, child, depth)
  {
    assert (kids + [child])[..|kids|] == kids;
  }

  lemma KeptKeeps(nodes: seq<TrieNode>, limits: Limits, idx: nat, depth: int, kids: seq<nat>, child: nat,
                  children: seq<FlameNode>, kept: seq<nat>, budget: nat, c: FlameNode, order: seq<nat>, left: nat)
    requires Kept(nodes, limits, idx, depth, kids, children, kept, budget) && idx < child < |nodes|
    requires nodes[child].name in nodes[idx].children && nodes[idx].children[nodes[child].name] == child
    requires Eligible(limits, nodes[child]) && left == budget - |kept| - 1
    requires Returned(nodes, limits, child, depth, c, order, left)
    ensures Kept(nodes, limits, idx, depth, kids + [child], children + [c], kept + order, budget)
  {
    UncutAllSnoc(nodes, limits, idx, depth, kids, child);
    PreorderAllSnoc(nodes, limits.total, idx, children, child, c);
    TakeMore(UncutAll(nodes, limits, idx, kids, depth), Uncut(nodes, limits, child, depth), budget);
  }

  lemma KeptAll(nodes: seq<TrieNode>, limits: Limits, idx: nat, depth: int, fn: FlameNode, kids: seq<nat>, kept: seq<nat>, budget: nat)
    requires Kept(nodes, limits, idx, depth + 1, kids, fn.children, kept, budget)
    requires depth < limits.maxDepth && Header(fn, nodes[idx], limits.total)
    ensures kids == KidsInOrder(nodes, idx) ==> Returned(nodes, limits, idx, depth, fn, [idx] + kept, budget)
    ensures Fanout(nodes, [idx] + kept) == |nodes[idx].children| + Fanout(nodes, kept)
  {
    TakeMore([idx], UncutAll(nodes, limits, idx, kids, depth + 1), 1 + budget);
    FanoutAdds(nodes, [idx], kept);
  }

  lemma KeptLeaf(nodes: seq<TrieNode>, limits: Limits, idx: nat, depth: int, fn: FlameNode, budget: nat)
    requires Linked(nodes) && idx < |nodes| && depth >= limits.maxDepth
    requires Header(fn, nodes[idx], limits.total) && fn.children == []
    ensures Returned(nodes, limits, idx, depth, fn, [idx], budget)
    ensures Fanout(nodes, [idx]) == |nodes[idx].children|
  {
    FanoutAdds(nodes, [], [idx]);
  }

  lemma HeightAllSnoc(children: seq<FlameNode>, c: FlameNode)
    ensures HeightAll(children + [c]) == Max(HeightAll(children), 1 + Height(c))
  {
    assert (children + [c])[..|children|] == children;
  }

  lemma NextKid(nodes: seq<TrieNode>, idx: nat, kids: seq<nat>, k: nat)
    requires Linked(nodes) && idx < |nodes| && kids == KidsInOrder(nodes, idx) && k < |kids|
    ensures idx < kids[k] < |nodes| && kids[..k + 1] == kids[..k] + [kids[k]]
    ensures nodes[kids[k]].name in nodes[idx].children && nodes[idx].children[nodes[kids[k]].name] == kids[k]
  {
    KidInMap(nodes, idx, kids[k]);
    TakeNext(kids, k);
  }

  lemma TakeNext(kids: seq<nat>, k: nat)
    requires k < |kids|
    ensures kids[..k + 1] == kids[..k] + [kids[k]]
  {
  }

  lemma KidInMap(nodes: seq<TrieNode>, idx: nat, child: nat)
    requires Linked(nodes) && idx < |nodes| && child in KidsInOrder(nodes, idx)
    ensures idx < child < |nodes|
    ensures nodes[child].name in nodes[idx].children && nodes[idx].children[nodes[child].name] == child
  {
    KidsAreSiblings(nodes, idx);
  }

  lemma AllTaken(kids: seq<nat>)
    ensures kids[..|kids|] == kids
  {
  }

  /** The counters that convert captures and updates in place. */
  class Pruner {
    var remaining: int
    var pruned: int

    constructor (maxNodes: int)
      ensures remaining == maxNodes - 1 && pruned == 0
    {
      remaining := maxNodes - 1;
      pruned := 0;
    }

    /** Returns the first nodes of the uncut tree, as many as the budget allows, and accounts for
        every trie child of a returned node: returned or pruned.  `order` lists the trie nodes
        returned. */
    method Convert(nodes: seq<TrieNode>, limits: Limits, idx: nat, depth: int) returns (fn: FlameNode, ghost order: seq<nat>)
      requires Linked(nodes) && idx < |nodes|
      modifies this
      ensures Returned(nodes, limits, idx, depth, fn, order, Max(0, old(remaining)))
      ensures Height(fn) <= Max(0, limits.maxDepth - depth)
      ensures |order| >= 1 && remaining == old(remaining) - (|order| - 1)
      ensures |order| - 1 + pruned - old(pruned) == Fanout(nodes, order)
      decreases |nodes| - idx, 1
    {
      hide Kept, Returned, Linked, KidsInOrder;
      var node := nodes[idx];
      fn := FlameNode(node.name, node.self, node.cumulative, SafePercent(node.cumulative, limits.total), []);
      if depth >= limits.maxDepth {
        pruned := pruned + |node.children|;
        KeptLeaf(nodes, limits, idx, depth, fn, Max(0, remaining));
        return fn, [idx];
      }
      var kids := SortedChildren(nodes, idx);
      ghost var budget := Max(0, remaining);
      ghost var kept: seq<nat> := [];
      KeptNone(nodes, limits, idx, depth + 1, budget);
      for k := 0 to |kids|
        invariant Header(fn, node, limits.total) && HeightAll(fn.children) <= limits.maxDepth - depth
        invariant Kept(nodes, limits, idx, depth + 1, kids[..k], fn.children, kept, budget)
        invariant remaining == old(remaining) - |kept|
        invariant |kept| + pruned == old(pruned) + k + Fanout(nodes, kept)
      {
        NextKid(nodes, idx, kids, k);
        ghost var more;
        var c;
        c, more := Step(nodes, limits, idx, depth, kids[k], kids[..k], fn.children, kept, budget);
        fn := fn.(children := fn.children + c);
        kept := kept + more;
      }
      AllTaken(kids);
      KeptAll(nodes, limits, idx, depth, fn, kids, kept, budget);
      order := [idx] + kept;
    }

    /** One turn of convert's loop: the child's tree, or nothing. */
    method Step(nodes: seq<TrieNode>, limits: Limits, idx: nat, depth: int, child: nat,
                ghost kids: seq<nat>, ghost children: seq<FlameNode>, ghost kept: seq<nat>, ghost budget: nat)
      returns (c: seq<FlameNode>, ghost more: seq<nat>)
      requires Linked(nodes) && idx < child < |nodes| && depth < limits.maxDepth
      requires nodes[child].name in nodes[idx].children && nodes[idx].children[nodes[child].name] == child
      requires HeightAll(children) <= limits.maxDepth - depth
      requires Kept(nodes, limits, idx, depth + 1, kids, children, kept, budget)
      requires if remaining > 0 then |kept| + remaining == budget else |kept| >= budget
      modifies this
      ensures Kept(nodes, limits, idx, depth + 1, kids + [child], children + c, kept + more, budget)
      ensures HeightAll(children + c) <= limits.maxDepth - depth
      ensures remaining == old(remaining) - |more|
      ensures |kept + more| + pruned - Fanout(nodes, kept + more) == |kept| + old(pruned) - Fanout(nodes, kept) + 1
      decreases |nodes| - idx, 0
    {
      if remaining <= 0 || !Eligible(limits, nodes[child]) {
        pruned := pruned + 1;
        c, more := [], [];
        assert children + c == children && kept + more == kept;
        KeptDrops(nodes, limits, idx, depth + 1, kids, child, children, kept, budget);
      } else {
        remaining := remaining - 1;
        ghost var left := remaining;
        var t: FlameNode;
        t, more := Convert(nodes, limits, child, depth + 1);
        c := [t];
        KeptKeeps(nodes, limits, idx, depth + 1, kids, child, children, kept, budget, t, more, left);
        FanoutAdds(nodes, kept, more);
        HeightAllSnoc(children, t);
      }
    }
  }

  // ---- flamegraph ----

  /** The nodes below the root that a root_function can mean. */
  ghost predicate Candidate(nodes: seq<TrieNode>, name: Name, j: nat) {
    0 < j < |nodes| && Contains(nodes[j].name, name)
  }

  /** With several, their first ten names in cost order and how many more there are. */
  datatype Found = NoMatch | Unique(idx: nat) | Several(names: seq<Name>, more: nat)

  const MAX_NAMES := 10

  ghost predicate InCostOrder(nodes: seq<TrieNode>, s: seq<nat>) {
    && (forall i | 0 <= i < |s| :: s[i] < |nodes|)
    && (forall i, j | 0 <= i < j < |s| :: !Before(nodes[s[j]], nodes[s[i]]))
  }

  /** All candidates, each once, in cost order; equal cost and name in any order. */
  ghost predicate IsCandidates(nodes: seq<TrieNode>, name: Name, s: seq<nat>) {
    && (forall j: nat :: j in s <==> Candidate(nodes, name, j))
    && NoRepeats(s) && InCostOrder(nodes, s)
  }

  function NamesOf(nodes: seq<TrieNode>, s: seq<nat>): seq<Name>
    requires forall i | 0 <= i < |s| :: s[i] < |nodes|
  {
    seq(|s|, i requires 0 <= i < |s| => nodes[s[i]].name)
  }

  function FoundIn(nodes: seq<TrieNode>, s: seq<nat>): Found
    requires forall i | 0 <= i < |s| :: s[i] < |nodes|
  {
    if |s| == 0 then NoMatch
    else if |s| == 1 then Unique(s[0])
    else var shown := if |s| > MAX_NAMES then MAX_NAMES else |s|; Several(NamesOf(nodes, s[..shown]), |s| - shown)
  }

  lemma NotBeforeTransitive(a: TrieNode, b: TrieNode, c: TrieNode)
    requires !Before(b, a) && !Before(c, b)
    ensures !Before(c, a)
  {
    ByteOrder.LessTotal(a.name, b.name);
    ByteOrder.LessTotal(b.name, c.name);
    ByteOrder.LessTotal(a.name, c.name);
    if ByteOrder.Less(a.name, b.name) && ByteOrder.Less(b.name, c.name) {
      ByteOrder.LessTransitive(a.name, b.name, c.name);
    }
  }

  function InsertByCost(nodes: seq<TrieNode>, s: seq<nat>, x: nat): (r: seq<nat>)
    requires x < |nodes| && forall i | 0 <= i < |s| :: s[i] < |nodes|
  {
    if s == [] || !Before(nodes[x], nodes[s[|s| - 1]]) then s + [x]
    else InsertByCost(nodes, s[..|s| - 1], x) + [s[|s| - 1]]
  }

  lemma OrderSnoc(nodes: seq<TrieNode>, s: seq<nat>, x: nat)
    requires InCostOrder(nodes, s) && x < |nodes| && (s != [] ==> !Before(nodes[x], nodes[s[|s| - 1]]))
    ensures InCostOrder(nodes, s + [x])
  {
    forall i | 0 <= i < |s| ensures !Before(nodes[x], nodes[s[i]]) {
      if i < |s| - 1 {
        NotBeforeTransitive(nodes[s[i]], nodes[s[|s| - 1]], nodes[x]);
      }
    }
  }

  lemma {:induction false} InsertMembers(nodes: seq<TrieNode>, s: seq<nat>, x: nat)
    requires x < |nodes| && forall i | 0 <= i < |s| :: s[i] < |nodes|
    ensures forall j :: j in InsertByCost(nodes, s, x) <==> j in s || j == x
  {
    if s != [] && Before(nodes[x], nodes[s[|s| - 1]]) {
      InsertMembers(nodes, s[..|s| - 1], x);
      assert s == s[..|s| - 1] + [s[|s| - 1]];
    }
  }

  lemma {:induction false} InsertKeepsOrder(nodes: seq<TrieNode>, s: seq<nat>, x: nat)
    requires InCostOrder(nodes, s) && NoRepeats(s) && x < |nodes| && x !in s
    ensures InCostOrder(nodes, InsertByCost(nodes, s, x)) && NoRepeats(InsertByCost(nodes, s, x))
  {
    hide Before, NoRepeats;
    if s == [] || !Before(nodes[x], nodes[s[|s| - 1]]) {
      OrderSnoc(nodes, s, x);
      OneIsOnce(x);
      JoinNoRepeats(s, [x]);
    } else {
      var init, last := s[..|s| - 1], s[|s| - 1];
      InitKeeps(nodes, s);
      InsertKeepsOrder(nodes, init, x);
      InsertMembers(nodes, init, x);
      BeforeIsOrder(nodes[x], nodes[last], nodes[x]);
      var r := InsertByCost(nodes, init, x);
      assert r[|r| - 1] in r;
      OrderSnoc(nodes, r, last);
      OneIsOnce(last);
      JoinNoRepeats(r, [last]);
    }
  }

  lemma OneIsOnce(x: nat)
    ensures NoRepeats([x])
  {
  }

  lemma InitKeeps(nodes: seq<TrieNode>, s: seq<nat>)
    requires s != [] && InCostOrder(nodes, s) && NoRepeats(s)
    ensures var init, last := s[..|s| - 1], s[|s| - 1];
            && InCostOrder(nodes, init) && NoRepeats(init) && last !in init && last < |nodes|
            && forall i | i in init :: i < |nodes| && !Before(nodes[last], nodes[i])
  {
    hide Before;
  }

  method SortMatches(nodes: seq<TrieNode>, matches: seq<nat>) returns (s: seq<nat>)
    requires NoRepeats(matches) && forall i | 0 <= i < |matches| :: matches[i] < |nodes|
    ensures InCostOrder(nodes, s) && NoRepeats(s) && forall j :: j in s <==> j in matches
  {
    s := [];
    for k := 0 to |matches|
      invariant InCostOrder(nodes, s) && NoRepeats(s) && forall j :: j in s <==> j in matches[..k]
    {
      assert matches[..k + 1] == matches[..k] + [matches[k]];
      assert matches[k] !in matches[..k];
      InsertKeepsOrder(nodes, s, matches[k]);
      InsertMembers(nodes, s, matches[k]);
      s := InsertByCost(nodes, s, matches[k]);
    }
    assert matches[..|matches|] == matches;
  }

  /** findInTrie: the only matching node, or the reason there is none. */
  method FindInTrie(nodes: seq<TrieNode>, name: Name) returns (r: Found)
    requires nodes != []
    ensures exists s :: IsCandidates(nodes, name, s) && r == FoundIn(nodes, s)
  {
    var matches: seq<nat> := [];
    for k := 1 to |nodes|
      invariant forall j: nat :: j in matches <==> Candidate(nodes, name, j) && j < k
      invariant NoRepeats(matches)
    {
      if Contains(nodes[k].name, name) {
        assert k !in matches;
        JoinNoRepeats(matches, [k]);
        matches := matches + [k];
      }
    }
    assert forall i | 0 <= i < |matches| :: matches[i] in matches;
    var sorted := SortMatches(nodes, matches);
    assert IsCandidates(nodes, name, sorted);
    r := FoundIn(nodes, sorted);
  }

  datatype FlameResult = Tree(root: FlameNode, total: int, pruned: int) | NotFound | Ambiguous(names: seq<Name>, more: nat)

  /** What a caller of flamegraph can rely on. */
  ghost predicate Bounded(nodes: seq<TrieNode>, limits: Limits, idx: nat, maxNodes: int, r: FlameResult, order: seq<nat>) {
    && r.Tree?
    && Returned(nodes, limits, idx, 0, r.root, order, Max(0, maxNodes - 1))
    && NodeCount(r.root) == |order| <= Max(1, maxNodes)
    && NodeCount(r.root) - 1 + r.pruned == Fanout(nodes, order)
    && Height(r.root) <= Max(0, limits.maxDepth)
  }

  method Prune(nodes: seq<TrieNode>, limits: Limits, idx: nat, maxNodes: int) returns (r: FlameResult, ghost order: seq<nat>)
    requires Linked(nodes) && idx < |nodes|
    ensures Bounded(nodes, limits, idx, maxNodes, r, order) && r.total == limits.total
  {
    var p := new Pruner(maxNodes);
    var root: FlameNode;
    root, order := p.Convert(nodes, limits, idx, 0);
    PreorderCounts(nodes, limits.total, idx, root);
    r := Tree(root, limits.total, p.pruned);
  }

  method Flamegraph(samples: seq<Sample>, rootFunction: Name, maxDepth: int, maxNodes: int, minPct: real)
    returns (r: FlameResult, ghost nodes: seq<TrieNode>, ghost paths: seq<Path>, ghost order: seq<nat>)
    ensures Represents(nodes, paths, samples)
    ensures r.Tree? ==> r.total == Total(samples) && NoRepeats(order)
    ensures rootFunction == "" ==> Bounded(nodes, Limits(Total(samples), maxDepth, minPct), 0, maxNodes, r, order)
    ensures rootFunction != "" && r.Tree? ==>
              exists idx: nat ::
                && (forall j: nat :: Candidate(nodes, rootFunction, j) <==> j == idx)
                && Bounded(nodes, Limits(Total(samples), maxDepth, minPct), idx, maxNodes, r, order)
    ensures r.NotFound? ==> rootFunction != "" && forall j: nat :: !Candidate(nodes, rootFunction, j)
    ensures r.Ambiguous? ==> rootFunction != ""
                             && exists s :: IsCandidates(nodes, rootFunction, s) && |s| > 1 && FoundIn(nodes, s) == Several(r.names, r.more)
  {
    var trie := new Trie();
    var total := trie.AddAll(samples);
    nodes, paths, order := trie.nodes, trie.paths, [];
    ShapedIsLinked(trie.nodes, trie.paths);
    var idx: nat := 0;
    if rootFunction != "" {
      var found := FindInTrie(trie.nodes, rootFunction);
      ghost var candidates :| IsCandidates(trie.nodes, rootFunction, candidates) && found == FoundIn(trie.nodes, candidates);
      match found {
        case NoMatch => return NotFound, nodes, paths, [];
        case Several(names, more) => return Ambiguous(names, more), nodes, paths, [];
        case Unique(j) =>
          assert candidates == [j];
          idx := j;
      }
    }
    r, order := Prune(trie.nodes, Limits(total, maxDepth, minPct), idx, maxNodes);
    ReturnedOnce(nodes, paths, Limits(total, maxDepth, minPct), idx, 0, r.root, order, Max(0, maxNodes - 1));
  }
}
