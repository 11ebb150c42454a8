/** buildSpanTree of internal/gcpdata/traces.go: a tree from a flat list of spans whose parent
    links may dangle, repeat or form cycles. */
module SpanTree {
  import opened Options

  /** A span with its two IDs and the sort key of its formatted start time; parent 0 is none.  The
      other fields travel with the span's index. */
  datatype Span = Span(id: nat, parent: nat, start: int)

  datatype Node = Node(index: nat, start: int, children: seq<Node>)

  // ---- The parent relation ----

  /** The last span with this ID, as the index map keeps it. */
  function LastWith(spans: seq<Span>, id: nat): (r: Option<nat>)
    ensures r.Some? ==> r.value < |spans| && spans[r.value].id == id
                        && forall j | r.value < j < |spans| :: spans[j].id != id
    ensures r.None? ==> forall j | 0 <= j < |spans| :: spans[j].id != id
  {
    if spans == [] then None
    else if spans[|spans| - 1].id == id then Some(|spans| - 1)
    else LastWith(spans[..|spans| - 1], id)
  }

  /** The span a span hangs under, if any. */
  function ParentOf(spans: seq<Span>, s: Span): (r: Option<nat>)
    ensures r.Some? ==> r.value < |spans|
  {
    if s.parent == 0 then None else LastWith(spans, s.parent)
  }

  /** Each span's parent index, if it has a parent in the list. */
  type Parents = seq<Option<nat>>

  function ParentsOf(spans: seq<Span>): (par: Parents)
    ensures |par| == |spans| && InList(par)
  {
    seq(|spans|, i requires 0 <= i < |spans| => ParentOf(spans, spans[i]))
  }

  /** A span hangs under the last span that has its parent's ID, and is a root when it names no parent
      or one that is not in the list. */
  lemma ParentMeans(spans: seq<Span>, i: nat, p: nat)
    requires i < |spans|
    ensures ParentsOf(spans)[i] == Some(p) <==>
              && spans[i].parent != 0 && p < |spans| && spans[p].id == spans[i].parent
              && forall j | p < j < |spans| :: spans[j].id != spans[i].parent
    ensures ParentsOf(spans)[i] == None <==>
              spans[i].parent == 0 || forall j | 0 <= j < |spans| :: spans[j].id != spans[i].parent
  {
    var r := LastWith(spans, spans[i].parent);
    if r.Some? && r.value < p < |spans| {
      assert spans[p].id != spans[i].parent;
    }
  }

  predicate InList(par: Parents) {
    forall i | 0 <= i < |par| && par[i].Some? :: par[i].value < |par|
  }

  /** The parent chain of span i ends at a root after d steps. */
  ghost predicate Reaches(par: Parents, i: nat, d: nat)
    decreases d
  {
    i < |par| && if d == 0 then par[i].None? else par[i].Some? && Reaches(par, par[i].value, d - 1)
  }

  ghost predicate Rooted(par: Parents, i: nat) {
    exists d: nat :: Reaches(par, i, d)
  }

  lemma {:induction false} DepthIsUnique(par: Parents, i: nat, d: nat, e: nat)
    requires Reaches(par, i, d) && Reaches(par, i, e)
    ensures d == e
    decreases d
  {
    if d > 0 && e > 0 {
      DepthIsUnique(par, par[i].value, d - 1, e - 1);
    }
  }

  /** The spans on the way from i to its root. */
  ghost function Ancestors(par: Parents, i: nat, d: nat): (s: set<nat>)
    requires Reaches(par, i, d)
    decreases d
  {
    if d == 0 then {i} else {i} + Ancestors(par, par[i].value, d - 1)
  }

  ghost predicate Within(par: Parents, j: nat, d: nat) {
    exists e: nat :: e <= d && Reaches(par, j, e)
  }

  lemma WithinGrows(par: Parents, j: nat, d: nat)
    requires Within(par, j, d)
    ensures Within(par, j, d + 1)
  {
    var e: nat :| e <= d && Reaches(par, j, e);
    assert e <= d + 1;
  }

  lemma NotWithinLess(par: Parents, i: nat, d: nat)
    requires Reaches(par, i, d + 1)
    ensures !Within(par, i, d)
  {
    forall e: nat | e <= d ensures !Reaches(par, i, e) {
      if Reaches(par, i, e) {
        DepthIsUnique(par, i, d + 1, e);
      }
    }
  }

  lemma {:induction false} AncestorsWithin(par: Parents, i: nat, d: nat, j: nat)
    requires Reaches(par, i, d) && j in Ancestors(par, i, d)
    ensures Within(par, j, d)
    decreases d
  {
    if d > 0 && j != i {
      AncestorsWithin(par, par[i].value, d - 1, j);
      WithinGrows(par, j, d - 1);
    }
  }

  lemma NotOwnAncestor(par: Parents, i: nat, d: nat)
    requires Reaches(par, i, d + 1)
    ensures i !in Ancestors(par, par[i].value, d)
  {
    NotWithinLess(par, i, d);
    if i in Ancestors(par, par[i].value, d) {
      AncestorsWithin(par, par[i].value, d, i);
    }
  }

  lemma {:induction false} AncestorsCount(par: Parents, i: nat, d: nat)
    requires Reaches(par, i, d)
    ensures |Ancestors(par, i, d)| == d + 1
    decreases d
  {
    if d > 0 {
      AncestorsCount(par, par[i].value, d - 1);
      NotOwnAncestor(par, i, d - 1);
    }
  }

  lemma {:induction false} BoundedSet(s: set<nat>, n: nat)
    requires forall x | x in s :: x < n
    ensures |s| <= n
  {
    if n == 0 {
      assert s == {};
    } else {
      BoundedSet(s - {n - 1}, n - 1);
      assert |s| <= |s - {n - 1}| + 1;
    }
  }

  /** A chain that ends is shorter than the list: the recursion's bound. */
  lemma DepthIsBounded(par: Parents, i: nat, d: nat)
    requires Reaches(par, i, d)
    ensures d < |par|
  {
    AncestorsCount(par, i, d);
    forall j | j in Ancestors(par, i, d) ensures j < |par| {
      AncestorsWithin(par, i, d, j);
    }
    BoundedSet(Ancestors(par, i, d), |par|);
  }

  // ---- Child lists ----

  ghost predicate Increasing(s: seq<nat>) {
    forall k, l | 0 <= k < l < |s| :: s[k] < s[l]
  }

  /** The spans before n that hang under p, ascending; None asks for the roots. */
  function Under(par: Parents, p: Option<nat>, n: nat): seq<nat>
    requires n <= |par|
  {
    if n == 0 then [] else if par[n - 1] == p then Under(par, p, n - 1) + [n - 1] else Under(par, p, n - 1)
  }

  lemma {:induction false} UnderSound(par: Parents, p: Option<nat>, n: nat)
    requires n <= |par|
    ensures forall k | 0 <= k < |Under(par, p, n)| :: Under(par, p, n)[k] < n && par[Under(par, p, n)[k]] == p
    ensures Increasing(Under(par, p, n))
  {
    if n > 0 {
      UnderSound(par, p, n - 1);
    }
  }

  lemma {:induction false} UnderLists(par: Parents, n: nat, i: nat)
    requires i < n <= |par|
    ensures i in Under(par, par[i], n)
  {
    if i < n - 1 {
      UnderLists(par, n - 1, i);
    }
  }

  type ChildMap = map<nat, seq<nat>>

  function Listed(m: ChildMap, p: nat): seq<nat> {
    if p in m then m[p] else []
  }

  ghost predicate Indexes(idToIdx: map<nat, nat>, spans: seq<Span>) {
    forall id :: LastWith(spans, id) == if id in idToIdx then Some(idToIdx[id]) else None
  }

  /** The index map, the last span of an ID winning. */
  method IndexById(spans: seq<Span>) returns (idToIdx: map<nat, nat>)
    ensures Indexes(idToIdx, spans)
  {
    idToIdx := map[];
    for i := 0 to |spans|
      invariant Indexes(idToIdx, spans[..i])
    {
      idToIdx := idToIdx[spans[i].id := i];
      assert spans[..i + 1][..i] == spans[..i];
    }
    assert spans[..|spans|] == spans;
  }

  ghost predicate Links(childrenOf: ChildMap, roots: seq<nat>, par: Parents, n: nat)
    requires n <= |par|
  {
    && (forall p :: Listed(childrenOf, p) == Under(par, Some(p), n))
    && roots == Under(par, None, n)
  }

  lemma LinksChild(childrenOf: ChildMap, roots: seq<nat>, par: Parents, i: nat, p: nat)
    requires i < |par| && par[i] == Some(p) && Links(childrenOf, roots, par, i)
    ensures Links(childrenOf[p := Listed(childrenOf, p) + [i]], roots, par, i + 1)
  {
    var grown := childrenOf[p := Listed(childrenOf, p) + [i]];
    forall q ensures Listed(grown, q) == Under(par, Some(q), i + 1) {
      assert Listed(childrenOf, q) == Under(par, Some(q), i);
    }
  }

  lemma LinksRoot(childrenOf: ChildMap, roots: seq<nat>, par: Parents, i: nat)
    requires i < |par| && par[i] == None && Links(childrenOf, roots, par, i)
    ensures Links(childrenOf, roots + [i], par, i + 1)
  {
    forall q ensures Listed(childrenOf, q) == Under(par, Some(q), i + 1) {
      assert Listed(childrenOf, q) == Under(par, Some(q), i);
    }
  }

  lemma LookedUp(spans: seq<Span>, idToIdx: map<nat, nat>, i: nat)
    requires i < |spans| && Indexes(idToIdx, spans)
    ensures var pid := spans[i].parent;
            ParentsOf(spans)[i] == if pid != 0 && pid in idToIdx then Some(idToIdx[pid]) else None
  {
  }

  method LinkChildren(spans: seq<Span>) returns (childrenOf: ChildMap, roots: seq<nat>)
    ensures Links(childrenOf, roots, ParentsOf(spans), |spans|)
  {
    hide LastWith, ParentOf, ParentsOf, Indexes;
    var idToIdx := IndexById(spans);
    ghost var par := ParentsOf(spans);
    childrenOf, roots := map[], [];
    for i := 0 to |spans|
      invariant Links(childrenOf, roots, par, i)
    {
      LookedUp(spans, idToIdx, i);
      var pid := spans[i].parent;
      if pid != 0 && pid in idToIdx {
        LinksChild(childrenOf, roots, par, i, idToIdx[pid]);
        childrenOf := childrenOf[idToIdx[pid] := Listed(childrenOf, idToIdx[pid]) + [i]];
      } else {
        LinksRoot(childrenOf, roots, par, i);
        roots := roots + [i];
      }
    }
  }

  // ---- Sorting siblings ----

  ghost predicate InStartOrder(nodes: seq<Node>) {
    forall i, j | 0 <= i < j < |nodes| :: nodes[i].start <= nodes[j].start
  }

  /** Any sorting that orders siblings by start; ties may land in any order. */
  method SortByStart(nodes: seq<Node>) returns (sorted: seq<Node>)
    ensures InStartOrder(sorted) && multiset(sorted) == multiset(nodes)
  {
    sorted := [];
    for i := 0 to |nodes|
      invariant InStartOrder(sorted) && multiset(sorted) == multiset(nodes[..i])
    {
      assert nodes[..i + 1] == nodes[..i] + [nodes[i]];
      sorted := InsertByStart(sorted, nodes[i]);
    }
    assert nodes[..|nodes|] == nodes;
  }

  method InsertByStart(s: seq<Node>, x: Node) returns (r: seq<Node>)
    requires InStartOrder(s)
    ensures InStartOrder(r) && multiset(r) == multiset(s) + multiset{x}
  {
    var k: nat := |s|;
    while k > 0 && s[k - 1].start > x.start
      invariant k <= |s| && (k < |s| ==> s[k].start > x.start)
    {
      k := k - 1;
    }
    InsertedBag(s, x, k);
    InsertedInOrder(s, x, k);
    r := s[..k] + [x] + s[k..];
  }

  lemma InsertedBag(s: seq<Node>, x: Node, k: nat)
    requires k <= |s|
    ensures multiset(s[..k] + [x] + s[k..]) == multiset(s) + multiset{x}
  {
    assert s == s[..k] + s[k..];
  }

  lemma InsertedInOrder(s: seq<Node>, x: Node, k: nat)
    requires InStartOrder(s) && k <= |s|
    requires k > 0 ==> s[k - 1].start <= x.start
    requires k < |s| ==> s[k].start > x.start
    ensures InStartOrder(s[..k] + [x] + s[k..])
  {
    forall j | 0 <= j < k ensures s[j].start <= x.start {
    }
    forall j | k <= j < |s| ensures s[j].start > x.start {
    }
  }

  // ---- Occurrences in a tree ----

  function Times(t: Node, j: nat): nat
    decreases t, 1, 0
  {
    TimesAll(t.children, j) + if t.index == j then 1 else 0
  }

  function TimesAll(nodes: seq<Node>, j: nat): nat
    decreases nodes, 0, |nodes|
  {
    if nodes == [] then 0 else TimesAll(nodes[..|nodes| - 1], j) + Times(nodes[|nodes| - 1], j)
  }

  lemma TimesSnoc(nodes: seq<Node>, t: Node, j: nat)
    ensures TimesAll(nodes + [t], j) == TimesAll(nodes, j) + Times(t, j)
  {
    assert (nodes + [t])[..|nodes|] == nodes;
  }

  lemma {:induction false} TimesJoin(a: seq<Node>, b: seq<Node>, j: nat)
    ensures TimesAll(a + b, j) == TimesAll(a, j) + TimesAll(b, j)
  {
    if b == [] {
      assert a + b == a;
    } else {
      TimesJoin(a, b[..|b| - 1], j);
      assert (a + b)[..|a + b| - 1] == a + b[..|b| - 1];
    }
  }

  lemma Taken(s: seq<Node>, x: Node) returns (k: nat, rest: seq<Node>)
    requires x in s
    ensures k < |s| && s[k] == x && rest == s[..k] + s[k + 1..]
    ensures multiset(rest) == multiset(s) - multiset{x}
  {
    k :| 0 <= k < |s| && s[k] == x;
    rest := s[..k] + s[k + 1..];
    assert s == s[..k] + [x] + s[k + 1..];
  }

  lemma TimesTaken(s: seq<Node>, k: nat, j: nat)
    requires k < |s|
    ensures TimesAll(s, j) == TimesAll(s[..k] + s[k + 1..], j) + Times(s[k], j)
  {
    assert s == (s[..k] + [s[k]]) + s[k + 1..];
    TimesJoin(s[..k] + [s[k]], s[k + 1..], j);
    TimesSnoc(s[..k], s[k], j);
    TimesJoin(s[..k], s[k + 1..], j);
  }

  lemma LastTaken(a: seq<Node>)
    requires a != []
    ensures a[|a| - 1] in multiset(a) && multiset(a[..|a| - 1]) == multiset(a) - multiset{a[|a| - 1]}
  {
    assert a == a[..|a| - 1] + [a[|a| - 1]];
  }

  /** Sorting does not change how often a span occurs. */
  lemma {:induction false} TimesPermute(a: seq<Node>, b: seq<Node>, j: nat)
    requires multiset(a) == multiset(b)
    ensures TimesAll(a, j) == TimesAll(b, j)
    decreases |a|
  {
    if a == [] {
      assert |multiset(b)| == 0;
    } else {
      LastTaken(a);
      var x := a[|a| - 1];
      assert x in b by {
        assert x in multiset(b);
      }
      var k, rest := Taken(b, x);
      TimesPermute(a[..|a| - 1], rest, j);
      TimesTaken(b, k, j);
    }
  }

  // ---- Which spans belong under a span ----

  /** The ancestor of j at depth e. */
  ghost function Up(par: Parents, j: nat, d: nat, e: nat): (a: nat)
    requires Reaches(par, j, d) && e <= d
    ensures Reaches(par, a, e)
    decreases d
  {
    if e == d then j else Up(par, par[j].value, d - 1, e)
  }

  lemma {:induction false} UpStep(par: Parents, j: nat, d: nat, e: nat)
    requires Reaches(par, j, d) && e < d
    ensures par[Up(par, j, d, e + 1)] == Some(Up(par, j, d, e))
    decreases d
  {
    if e + 1 < d {
      UpStep(par, par[j].value, d - 1, e);
    }
  }

  /** j is i, or lies below it; i lies at depth e. */
  ghost predicate Below(par: Parents, i: nat, e: nat, j: nat) {
    exists d: nat :: e <= d && Reaches(par, j, d) && Up(par, j, d, e) == i
  }

  ghost function Expected(par: Parents, i: nat, e: nat, j: nat): nat {
    if Below(par, i, e, j) then 1 else 0
  }

  ghost function ExpectedAll(par: Parents, s: seq<nat>, e: nat, j: nat): nat {
    if s == [] then 0 else ExpectedAll(par, s[..|s| - 1], e, j) + Expected(par, s[|s| - 1], e, j)
  }

  lemma BelowIsUp(par: Parents, i: nat, e: nat, j: nat, d: nat)
    requires Reaches(par, j, d)
    ensures Below(par, i, e, j) <==> e <= d && Up(par, j, d, e) == i
  {
    forall f: nat | e <= f && Reaches(par, j, f) && Up(par, j, f, e) == i ensures f == d {
      DepthIsUnique(par, j, d, f);
    }
  }

  lemma BelowIsOnlyUp(par: Parents, e: nat, j: nat, d: nat)
    requires Reaches(par, j, d)
    ensures forall c: nat :: Below(par, c, e, j) <==> e <= d && Up(par, j, d, e) == c
  {
    forall c: nat ensures Below(par, c, e, j) <==> e <= d && Up(par, j, d, e) == c {
      BelowIsUp(par, c, e, j, d);
    }
  }

  lemma {:induction false} NoneExpected(par: Parents, s: seq<nat>, e: nat, j: nat)
    requires forall k | 0 <= k < |s| :: !Below(par, s[k], e, j)
    ensures ExpectedAll(par, s, e, j) == 0
  {
    if s != [] {
      NoneExpected(par, s[..|s| - 1], e, j);
    }
  }

  lemma {:induction false} OneExpected(par: Parents, s: seq<nat>, e: nat, j: nat, a: nat)
    requires Increasing(s) && a in s
    requires forall i: nat :: Below(par, i, e, j) <==> i == a
    ensures ExpectedAll(par, s, e, j) == 1
  {
    var init, last := s[..|s| - 1], s[|s| - 1];
    if last == a {
      NoneExpected(par, init, e, j);
    } else {
      assert s == init + [last];
      OneExpected(par, init, e, j, a);
    }
  }

  lemma UnderIfUp(par: Parents, i: nat, e: nat, j: nat, d: nat)
    requires Reaches(par, j, d) && e < d
    ensures Up(par, j, d, e + 1) in Under(par, Some(i), |par|) <==> Up(par, j, d, e) == i
  {
    var a := Up(par, j, d, e + 1);
    UpStep(par, j, d, e);
    UnderLists(par, |par|, a);
    UnderSound(par, Some(i), |par|);
  }

  /** The subtrees of the children of i hold everything below i but i itself, once each. */
  lemma BelowSplits(par: Parents, i: nat, e: nat, j: nat)
    requires Reaches(par, i, e)
    ensures Expected(par, i, e, j)
            == ExpectedAll(par, Under(par, Some(i), |par|), e + 1, j) + if i == j then 1 else 0
  {
    var kids := Under(par, Some(i), |par|);
    if Rooted(par, j) {
      var d: nat :| Reaches(par, j, d);
      BelowIsOnlyUp(par, e + 1, j, d);
      BelowIsUp(par, i, e, j, d);
      if i == j {
        DepthIsUnique(par, i, e, d);
      }
      if e < d {
        UnderIfUp(par, i, e, j, d);
        UnderSound(par, Some(i), |par|);
        if Up(par, j, d, e) == i {
          OneExpected(par, kids, e + 1, j, Up(par, j, d, e + 1));
        } else {
          NoneExpected(par, kids, e + 1, j);
        }
      } else {
        NoneExpected(par, kids, e + 1, j);
      }
    } else {
      NoneExpected(par, kids, e + 1, j);
    }
  }

  /** The trees of the roots hold every rooted span once, and no other. */
  lemma RootsHoldRooted(par: Parents, j: nat)
    ensures ExpectedAll(par, Under(par, None, |par|), 0, j) == if Rooted(par, j) then 1 else 0
  {
    var roots := Under(par, None, |par|);
    if Rooted(par, j) {
      var d: nat :| Reaches(par, j, d);
      var a := Up(par, j, d, 0);
      BelowIsOnlyUp(par, 0, j, d);
      UnderLists(par, |par|, a);
      UnderSound(par, None, |par|);
      OneExpected(par, roots, 0, j, a);
    } else {
      NoneExpected(par, roots, 0, j);
    }
  }

  // ---- buildSpanTree ----

  /** Every node carries its span, its children hang under it, and siblings are in start order. */
  ghost predicate Placed(spans: seq<Span>, par: Parents, t: Node)
    decreases t
  {
    && t.index < |spans| == |par| && t.start == spans[t.index].start
    && InStartOrder(t.children)
    && forall k | 0 <= k < |t.children| ::
         && t.children[k].index < |par| && par[t.children[k].index] == Some(t.index)
         && Placed(spans, par, t.children[k])
  }

  ghost predicate PlacedAll(spans: seq<Span>, par: Parents, nodes: seq<Node>, parent: Option<nat>) {
    forall t | t in nodes :: t.index < |par| && par[t.index] == parent && Placed(spans, par, t)
  }

  ghost predicate Counted(par: Parents, nodes: seq<Node>, s: seq<nat>, e: nat) {
    forall j: nat :: TimesAll(nodes, j) == ExpectedAll(par, s, e, j)
  }

  lemma CountedSnoc(par: Parents, nodes: seq<Node>, s: seq<nat>, e: nat, t: Node, i: nat)
    requires Counted(par, nodes, s, e) && forall j: nat :: Times(t, j) == Expected(par, i, e, j)
    ensures Counted(par, nodes + [t], s + [i], e)
  {
    forall j: nat ensures TimesAll(nodes + [t], j) == ExpectedAll(par, s + [i], e, j) {
      TimesSnoc(nodes, t, j);
      assert (s + [i])[..|s|] == s;
    }
  }

  lemma CountedSorted(par: Parents, nodes: seq<Node>, sorted: seq<Node>, s: seq<nat>, e: nat)
    requires Counted(par, nodes, s, e) && multiset(sorted) == multiset(nodes)
    ensures Counted(par, sorted, s, e)
  {
    forall j: nat ensures TimesAll(sorted, j) == ExpectedAll(par, s, e, j) {
      TimesPermute(sorted, nodes, j);
    }
  }

  lemma PlacedSorted(spans: seq<Span>, par: Parents, nodes: seq<Node>, sorted: seq<Node>, parent: Option<nat>)
    requires PlacedAll(spans, par, nodes, parent) && multiset(sorted) == multiset(nodes)
    ensures PlacedAll(spans, par, sorted, parent)
  {
    forall t | t in sorted ensures t in nodes {
      assert t in multiset(sorted);
    }
  }

  /** The recursion of buildSpanTree; d is the depth of span idx, which bounds it. */
  method Build(spans: seq<Span>, childrenOf: ChildMap, ghost par: Parents, ghost roots: seq<nat>, idx: nat, ghost d: nat) returns (t: Node)
    requires |spans| == |par| && Links(childrenOf, roots, par, |par|) && Reaches(par, idx, d)
    ensures t.index == idx && Placed(spans, par, t)
    ensures forall j: nat :: Times(t, j) == Expected(par, idx, d, j)
    decreases |spans| - d, 1
  {
    var children := BuildChildren(spans, childrenOf, par, roots, idx, d);
    t := Node(idx, spans[idx].start, children);
    forall j: nat ensures Times(t, j) == Expected(par, idx, d, j) {
      BelowSplits(par, idx, d, j);
    }
  }

  method BuildChildren(spans: seq<Span>, childrenOf: ChildMap, ghost par: Parents, ghost roots: seq<nat>, idx: nat, ghost d: nat) returns (sorted: seq<Node>)
    requires |spans| == |par| && Links(childrenOf, roots, par, |par|) && Reaches(par, idx, d)
    ensures InStartOrder(sorted) && PlacedAll(spans, par, sorted, Some(idx))
    ensures Counted(par, sorted, Under(par, Some(idx), |par|), d + 1)
    decreases |spans| - d, 0
  {
    var kids := Listed(childrenOf, idx);
    UnderSound(par, Some(idx), |par|);
    var children: seq<Node> := [];
    for k := 0 to |kids|
      invariant PlacedAll(spans, par, children, Some(idx)) && Counted(par, children, kids[..k], d + 1)
    {
      DepthIsBounded(par, kids[k], d + 1);
      var c := Build(spans, childrenOf, par, roots, kids[k], d + 1);
      CountedSnoc(par, children, kids[..k], d + 1, c, kids[k]);
      assert kids[..k + 1] == kids[..k] + [kids[k]];
      children := children + [c];
    }
    assert kids[..|kids|] == kids;
    sorted := SortByStart(children);
    CountedSorted(par, children, sorted, kids, d + 1);
    PlacedSorted(spans, par, children, sorted, Some(idx));
  }

  /** For any list of spans: every span whose parent chain ends is emitted exactly once, under its
      parent or among the roots, no other span is, and siblings are in start order. */
  method BuildSpanTree(spans: seq<Span>) returns (roots: seq<Node>)
    ensures forall j: nat :: TimesAll(roots, j) == if Rooted(ParentsOf(spans), j) then 1 else 0
    ensures PlacedAll(spans, ParentsOf(spans), roots, None) && InStartOrder(roots)
  {
    ghost var par := ParentsOf(spans);
    var childrenOf, rootIdxs := LinkChildren(spans);
    UnderSound(par, None, |par|);
    var trees: seq<Node> := [];
    for k := 0 to |rootIdxs|
      invariant PlacedAll(spans, par, trees, None) && Counted(par, trees, rootIdxs[..k], 0)
    {
      var t := Build(spans, childrenOf, par, rootIdxs, rootIdxs[k], 0);
      CountedSnoc(par, trees, rootIdxs[..k], 0, t, rootIdxs[k]);
      assert rootIdxs[..k + 1] == rootIdxs[..k] + [rootIdxs[k]];
      trees := trees + [t];
    }
    assert rootIdxs[..|rootIdxs|] == rootIdxs;
    roots := SortByStart(trees);
    CountedSorted(par, trees, roots, rootIdxs, 0);
    PlacedSorted(spans, par, trees, roots, None);
    forall j: nat ensures TimesAll(roots, j) == if Rooted(par, j) then 1 else 0 {
      RootsHoldRooted(par, j);
    }
  }

  // ---- The span count ----

  function Size(t: Node): nat
    decreases t, 1, 0
  {
    1 + SizeAll(t.children)
  }

  /** The nodes of the whole forest. */
  function SizeAll(nodes: seq<Node>): nat
    decreases nodes, 0, |nodes|
  {
    if nodes == [] then 0 else SizeAll(nodes[..|nodes| - 1]) + Size(nodes[|nodes| - 1])
  }

  /** How often the spans before n occur in the forest, and how many of them are rooted. */
  function TimesUpTo(nodes: seq<Node>, n: nat): nat {
    if n == 0 then 0 else TimesUpTo(nodes, n - 1) + TimesAll(nodes, n - 1)
  }

  ghost function RootedUpTo(par: Parents, n: nat): nat {
    if n == 0 then 0 else RootedUpTo(par, n - 1) + if Rooted(par, n - 1) then 1 else 0
  }

  lemma {:induction false} TimesUpToEmpty(n: nat)
    ensures TimesUpTo([], n) == 0
  {
    if n > 0 {
      TimesUpToEmpty(n - 1);
    }
  }

  lemma {:induction false} TimesUpToSplits(nodes: seq<Node>, n: nat)
    requires nodes != []
    ensures var t := nodes[|nodes| - 1];
            TimesUpTo(nodes, n) == TimesUpTo(nodes[..|nodes| - 1], n) + TimesUpTo(t.children, n) + if t.index < n then 1 else 0
  {
    if n > 0 {
      TimesUpToSplits(nodes, n - 1);
      var t := nodes[|nodes| - 1];
      assert TimesAll(nodes, n - 1) == TimesAll(nodes[..|nodes| - 1], n - 1) + Times(t, n - 1);
      assert Times(t, n - 1) == TimesAll(t.children, n - 1) + if t.index == n - 1 then 1 else 0;
    }
  }

  lemma {:induction false} SizeIsTimes(spans: seq<Span>, par: Parents, nodes: seq<Node>, parent: Option<nat>)
    requires |spans| == |par| && PlacedAll(spans, par, nodes, parent)
    ensures SizeAll(nodes) == TimesUpTo(nodes, |par|)
    decreases nodes, |nodes|
  {
    if nodes == [] {
      TimesUpToEmpty(|par|);
    } else {
      var init, t := nodes[..|nodes| - 1], nodes[|nodes| - 1];
      assert t in nodes && forall u | u in init :: u in nodes;
      SizeIsTimes(spans, par, init, parent);
      SizeIsTimes(spans, par, t.children, Some(t.index));
      TimesUpToSplits(nodes, |par|);
    }
  }

  lemma {:induction false} TimesAreRooted(par: Parents, nodes: seq<Node>, n: nat)
    requires forall j: nat :: TimesAll(nodes, j) == if Rooted(par, j) then 1 else 0
    ensures TimesUpTo(nodes, n) == RootedUpTo(par, n)
  {
    if n > 0 {
      TimesAreRooted(par, nodes, n - 1);
    }
  }

  lemma {:induction false} AllRootedIff(par: Parents, n: nat)
    ensures RootedUpTo(par, n) <= n
    ensures RootedUpTo(par, n) == n <==> forall j: nat | j < n :: Rooted(par, j)
  {
    if n > 0 {
      AllRootedIff(par, n - 1);
    }
  }

  // ---- Parent cycles ----

  /** k steps up from i stay in the list. */
  ghost predicate Climbs(par: Parents, i: nat, k: nat)
    decreases k
  {
    i < |par| && (k > 0 ==> par[i].Some? && Climbs(par, par[i].value, k - 1))
  }

  ghost function Climb(par: Parents, i: nat, k: nat): (a: nat)
    requires Climbs(par, i, k)
    ensures a < |par|
    decreases k
  {
    if k == 0 then i else Climb(par, par[i].value, k - 1)
  }

  ghost predicate OnCycle(par: Parents, i: nat) {
    exists k: nat :: k > 0 && Climbs(par, i, k) && Climb(par, i, k) == i
  }

  ghost predicate HasCycle(par: Parents) {
    exists i: nat :: OnCycle(par, i)
  }

  lemma {:induction false} ClimbDepth(par: Parents, i: nat, k: nat, d: nat)
    requires Climbs(par, i, k) && Reaches(par, i, d)
    ensures k <= d && Reaches(par, Climb(par, i, k), d - k)
    decreases k
  {
    if k > 0 {
      ClimbDepth(par, par[i].value, k - 1, d - 1);
    }
  }

  lemma CycleIsNotRooted(par: Parents, i: nat)
    requires OnCycle(par, i)
    ensures !Rooted(par, i)
  {
    var k: nat :| k > 0 && Climbs(par, i, k) && Climb(par, i, k) == i;
    forall d: nat ensures !Reaches(par, i, d) {
      if Reaches(par, i, d) {
        ClimbDepth(par, i, k, d);
        DepthIsUnique(par, i, d, d - k);
      }
    }
  }

  lemma {:induction false} UnrootedClimbs(par: Parents, i: nat, k: nat)
    requires InList(par) && i < |par| && !Rooted(par, i)
    ensures Climbs(par, i, k) && !Rooted(par, Climb(par, i, k))
    decreases k
  {
    if k > 0 {
      assert par[i].Some? by {
        assert !Reaches(par, i, 0);
      }
      var p := par[i].value;
      forall d: nat ensures !Reaches(par, p, d) {
        assert !Reaches(par, i, d + 1);
      }
      UnrootedClimbs(par, p, k - 1);
    }
  }

  lemma {:induction false} ClimbAdds(par: Parents, i: nat, k: nat, l: nat)
    requires Climbs(par, i, k + l)
    ensures Climbs(par, i, k) && Climbs(par, Climb(par, i, k), l) && Climb(par, Climb(par, i, k), l) == Climb(par, i, k + l)
    decreases k
  {
    if k > 0 {
      ClimbAdds(par, par[i].value, k - 1, l);
    }
  }

  /** Some value occurs twice among more than n values below n. */
  lemma {:induction false} Pigeonhole(s: seq<nat>, n: nat) returns (k: nat, l: nat)
    requires |s| > n && forall i | 0 <= i < |s| :: s[i] < n
    ensures k < l < |s| && s[k] == s[l]
    decreases n
  {
    assert s[0] < n;
    var top: nat := n - 1;
    if i, j :| 0 <= i < j < |s| && s[i] == top && s[j] == top {
      return i, j;
    }
    if i :| 0 <= i < |s| && s[i] == top {
      var rest := s[..i] + s[i + 1..];
      var a, b := Pigeonhole(rest, top);
      return if a < i then a else a + 1, if b < i then b else b + 1;
    }
    k, l := Pigeonhole(s, top);
  }

  lemma UnrootedMeetsCycle(par: Parents, i: nat)
    requires InList(par) && i < |par| && !Rooted(par, i)
    ensures HasCycle(par)
  {
    var n := |par|;
    forall k: nat ensures Climbs(par, i, k) {
      UnrootedClimbs(par, i, k);
    }
    var s := seq(n + 1, k requires 0 <= k <= n => Climb(par, i, k));
    var k, l := Pigeonhole(s, n);
    ClimbAdds(par, i, k, l - k);
    assert Climb(par, s[k], l - k) == s[k];
    assert OnCycle(par, s[k]);
  }

  /** The emitted nodes number as many as the spans exactly when no span is its own ancestor. */
  lemma CountMatchesIff(spans: seq<Span>, roots: seq<Node>)
    requires forall j: nat :: TimesAll(roots, j) == if Rooted(ParentsOf(spans), j) then 1 else 0
    requires PlacedAll(spans, ParentsOf(spans), roots, None)
    ensures SizeAll(roots) <= |spans|
    ensures SizeAll(roots) == |spans| <==> !HasCycle(ParentsOf(spans))
  {
    var par := ParentsOf(spans);
    SizeIsTimes(spans, par, roots, None);
    TimesAreRooted(par, roots, |par|);
    AllRootedIff(par, |par|);
    if HasCycle(par) {
      var i: nat :| OnCycle(par, i);
      CycleIsNotRooted(par, i);
    }
    if j: nat :| j < |par| && !Rooted(par, j) {
      UnrootedMeetsCycle(par, j);
    }
  }

  /** A span that is its own parent is counted and not emitted. */
  lemma SelfParentIsLost(roots: seq<Node>)
    requires var spans := [Span(1, 1, 0)];
             && (forall j: nat :: TimesAll(roots, j) == if Rooted(ParentsOf(spans), j) then 1 else 0)
             && PlacedAll(spans, ParentsOf(spans), roots, None)
    ensures HasCycle(ParentsOf([Span(1, 1, 0)])) && SizeAll(roots) == 0
  {
    var spans := [Span(1, 1, 0)];
    var par := ParentsOf(spans);
    assert par == [Some(0)];
    assert Climbs(par, 0, 1) && Climb(par, 0, 1) == 0;
    assert OnCycle(par, 0);
    CountMatchesIff(spans, roots);
  }
}
