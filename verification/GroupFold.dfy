/** The cross-group fold of internal/gcpdata/metrics.go: per-group series are combined bucket by
    bucket, with a bounded carry-forward.

    Values are reals; which reduced values count as finite is a parameter. */
module GroupFold {
  import Reals

  datatype Point = Point(timestamp: int, value: real)

  datatype Reducer = Sum | Max | Min | Mean

  const MAX_CARRY := 3

  // ---- applyReducer ----

  ghost predicate IsMax(values: seq<real>, m: real) {
    m in values && forall v | v in values :: v <= m
  }

  ghost predicate IsMin(values: seq<real>, m: real) {
    m in values && forall v | v in values :: v >= m
  }

  ghost predicate Reduces(values: seq<real>, reducer: Reducer, r: real) {
    match reducer
    case Sum => r == Reals.Sum(values)
    case Max => IsMax(values, r)
    case Min => IsMin(values, r)
    case Mean => r * |values| as real == Reals.Sum(values)
  }

  method ApplyReducer(values: seq<real>, reducer: Reducer) returns (r: real)
    requires values != []
    ensures Reduces(values, reducer, r)
  {
    match reducer {
      case Sum =>
        r := Summed(values);
      case Max =>
        r := values[0];
        for i := 1 to |values|
          invariant IsMax(values[..i], r)
        {
          if values[i] > r {
            r := values[i];
          }
          assert values[..i + 1] == values[..i] + [values[i]];
        }
        assert values[..|values|] == values;
      case Min =>
        r := values[0];
        for i := 1 to |values|
          invariant IsMin(values[..i], r)
        {
          if values[i] < r {
            r := values[i];
          }
          assert values[..i + 1] == values[..i] + [values[i]];
        }
        assert values[..|values|] == values;
      case Mean =>
        var sum := Summed(values);
        r := sum / |values| as real;
    }
  }

  method Summed(values: seq<real>) returns (sum: real)
    ensures sum == Reals.Sum(values)
  {
    sum := 0.0;
    for i := 0 to |values|
      invariant sum == Reals.Sum(values[..i])
    {
      sum := sum + values[i];
      assert values[..i + 1][..i] == values[..i];
    }
    assert values[..|values|] == values;
  }

  /** The specification of a reducer leaves one value. */
  lemma ReducesToOne(values: seq<real>, reducer: Reducer, r: real, q: real)
    requires values != [] && Reduces(values, reducer, r) && Reduces(values, reducer, q)
    ensures r == q
  {
    if reducer.Mean? {
      Cancels(r, q, |values| as real);
    }
  }

  lemma Cancels(r: real, q: real, n: real)
    requires n > 0.0 && r * n == q * n
    ensures r == q
  {
    assert (r - q) * n == 0.0;
  }

  // ---- Inputs ----

  /** The value a series has at each timestamp; a repeated timestamp keeps its last value. */
  function Index(points: seq<Point>): map<int, real> {
    if points == [] then map[]
    else Index(points[..|points| - 1])[points[|points| - 1].timestamp := points[|points| - 1].value]
  }

  /** Point i is the last one of its series at time t. */
  ghost predicate LastAt(points: seq<Point>, t: int, i: nat) {
    i < |points| && points[i].timestamp == t && forall j | i < j < |points| :: points[j].timestamp != t
  }

  lemma LastAtGrows(points: seq<Point>, p: Point, t: int, i: nat)
    requires LastAt(points, t, i) && p.timestamp != t
    ensures LastAt(points + [p], t, i)
  {
  }

  lemma {:induction false} IndexKeepsLast(points: seq<Point>, t: int)
    ensures t in Index(points) ==> exists i: nat :: LastAt(points, t, i) && points[i].value == Index(points)[t]
    ensures t !in Index(points) ==> forall i | 0 <= i < |points| :: points[i].timestamp != t
  {
    if points != [] {
      var init, p := points[..|points| - 1], points[|points| - 1];
      IndexKeepsLast(init, t);
      assert points == init + [p];
      if p.timestamp == t {
        assert LastAt(points, t, |init|);
      } else if t in Index(init) {
        var i: nat :| LastAt(init, t, i) && init[i].value == Index(init)[t];
        LastAtGrows(init, p, t, i);
      }
    }
  }

  method BuildIndex(points: seq<Point>) returns (m: map<int, real>)
    ensures m == Index(points)
  {
    m := map[];
    for i := 0 to |points|
      invariant m == Index(points[..i])
    {
      m := m[points[i].timestamp := points[i].value];
      assert points[..i + 1][..i] == points[..i];
    }
    assert points[..|points|] == points;
  }

  ghost predicate Occurs(index: seq<map<int, real>>, t: int) {
    exists i :: 0 <= i < |index| && t in index[i]
  }

  /** The distinct timestamps of all series, ascending. */
  ghost predicate Timestamps(index: seq<map<int, real>>, ts: seq<int>) {
    && (forall i, j | 0 <= i < j < |ts| :: ts[i] < ts[j])
    && (forall t :: t in ts <==> Occurs(index, t))
  }

  method SortedTimestamps(index: seq<map<int, real>>) returns (ts: seq<int>)
    ensures Timestamps(index, ts)
  {
    var rest: set<int> := {};
    for i := 0 to |index|
      invariant forall t :: t in rest <==> exists h :: 0 <= h < i && t in index[h]
    {
      rest := rest + index[i].Keys;
    }
    ts := [];
    while rest != {}
      invariant forall i, j | 0 <= i < j < |ts| :: ts[i] < ts[j]
      invariant forall i, u | 0 <= i < |ts| && u in rest :: ts[i] < u
      invariant forall t :: t in ts || t in rest <==> Occurs(index, t)
      decreases |rest|
    {
      var least := Least(rest);
      assert forall i | 0 <= i < |ts| :: ts[i] < least;
      ts, rest := ts + [least], rest - {least};
    }
  }

  lemma Inhabited(s: set<int>)
    ensures s == {} || exists t :: t in s
  {
    if forall t :: t !in s {
      assert s == {};
    }
  }

  method Least(s: set<int>) returns (m: int)
    requires s != {}
    ensures m in s
    ensures forall t | t in s :: m <= t
  {
    Inhabited(s);
    m :| m in s;
    var rest := s - {m};
    while rest != {}
      invariant rest <= s && m in s
      invariant forall t: int | t in s :: t in rest || m <= t
      decreases |rest|
    {
      Inhabited(rest);
      var t :| t in rest;
      rest := rest - {t};
      if t < m {
        m := t;
      }
    }
  }

  // ---- The closed form ----

  /** The latest of the first k buckets at which a series is fresh, or -1. */
  function LastFresh(m: map<int, real>, ts: seq<int>, k: nat): (j: int)
    requires k <= |ts|
    ensures -1 <= j < k
    ensures j >= 0 ==> ts[j] in m
    ensures forall h | j < h < k :: ts[h] !in m
  {
    if k == 0 then -1 else if ts[k - 1] in m then k - 1 else LastFresh(m, ts, k - 1)
  }

  /** Series m at bucket k: it counts with its latest fresh value while that is at most MAX_CARRY
      buckets old, is departed when it is older, and is left out before its first. */
  predicate Contributes(m: map<int, real>, ts: seq<int>, k: nat)
    requires k < |ts|
  {
    var j := LastFresh(m, ts, k + 1);
    j >= 0 && k - j <= MAX_CARRY
  }

  function Contribution(m: map<int, real>, ts: seq<int>, k: nat): real
    requires k < |ts| && Contributes(m, ts, k)
  {
    m[ts[LastFresh(m, ts, k + 1)]]
  }

  predicate Carries(m: map<int, real>, ts: seq<int>, k: nat)
    requires k < |ts|
  {
    Contributes(m, ts, k) && ts[k] !in m
  }

  predicate Departed(m: map<int, real>, ts: seq<int>, k: nat)
    requires k < |ts|
  {
    var j := LastFresh(m, ts, k + 1);
    j >= 0 && k - j > MAX_CARRY
  }

  function Values(index: seq<map<int, real>>, ts: seq<int>, k: nat, n: nat): seq<real>
    requires k < |ts| && n <= |index|
  {
    if n == 0 then []
    else
      Values(index, ts, k, n - 1)
      + if Contributes(index[n - 1], ts, k) then [Contribution(index[n - 1], ts, k)] else []
  }

  /** Some of the first n series carries, or has departed. */
  ghost predicate AnyCarries(index: seq<map<int, real>>, ts: seq<int>, k: nat, n: nat)
    requires k < |ts| && n <= |index|
  {
    exists i :: 0 <= i < n && Carries(index[i], ts, k)
  }

  ghost predicate AnyDeparted(index: seq<map<int, real>>, ts: seq<int>, k: nat, n: nat)
    requires k < |ts| && n <= |index|
  {
    exists i :: 0 <= i < n && Departed(index[i], ts, k)
  }

  lemma AnyStep(index: seq<map<int, real>>, ts: seq<int>, k: nat, n: nat)
    requires k < |ts| && n < |index|
    ensures AnyCarries(index, ts, k, n + 1) <==> AnyCarries(index, ts, k, n) || Carries(index[n], ts, k)
    ensures AnyDeparted(index, ts, k, n + 1) <==> AnyDeparted(index, ts, k, n) || Departed(index[n], ts, k)
  {
  }

  ghost predicate EverDeparted(m: map<int, real>, ts: seq<int>, k: nat)
    requires k <= |ts|
  {
    exists h :: 0 <= h < k && Departed(m, ts, h)
  }

  /** Fresh at bucket j and silent in all later buckets up to k, more than MAX_CARRY of them. */
  ghost predicate Gap(m: map<int, real>, ts: seq<int>, j: nat, k: nat) {
    j + MAX_CARRY < k < |ts| && ts[j] in m && forall h | j < h <= k :: ts[h] !in m
  }

  /** The series counted as departed are exactly those with a gap of more than MAX_CARRY buckets. */
  lemma DepartedMeansGap(m: map<int, real>, ts: seq<int>)
    ensures EverDeparted(m, ts, |ts|) <==> exists j: nat, k: nat :: Gap(m, ts, j, k)
  {
    if EverDeparted(m, ts, |ts|) {
      var k :| 0 <= k < |ts| && Departed(m, ts, k);
      assert Gap(m, ts, LastFresh(m, ts, k + 1), k);
    }
    forall j: nat, k: nat | Gap(m, ts, j, k) ensures EverDeparted(m, ts, |ts|) {
      assert LastFresh(m, ts, k + 1) == j;
      assert Departed(m, ts, k);
    }
  }

  /** Every bucket holds a fresh value of some series, so the guard against empty buckets never
      fires. */
  lemma BucketsAreNotEmpty(index: seq<map<int, real>>, ts: seq<int>, k: nat)
    requires Timestamps(index, ts) && k < |ts|
    ensures Values(index, ts, k, |index|) != []
  {
    assert ts[k] in ts;
    var i :| 0 <= i < |index| && ts[k] in index[i];
    assert Contributes(index[i], ts, k);
    ContributorCounts(index, ts, k, i, |index|);
  }

  /** Bucket j is the last one up to k at which the series is fresh. */
  ghost predicate LatestUpTo(m: map<int, real>, ts: seq<int>, j: nat, k: nat) {
    j <= k < |ts| && ts[j] in m && forall h | j < h <= k :: ts[h] !in m
  }

  lemma LatestIsLastFresh(m: map<int, real>, ts: seq<int>, j: nat, k: nat)
    requires k < |ts|
    ensures LatestUpTo(m, ts, j, k) <==> j == LastFresh(m, ts, k + 1)
  {
    if LatestUpTo(m, ts, j, k) {
      assert LastFresh(m, ts, k + 1) >= j;
    }
  }

  /** A series counts in a bucket with its latest value, for that bucket and the next three: in the
      fourth bucket of silence it is left out. */
  lemma ContributesExactly(m: map<int, real>, ts: seq<int>, k: nat)
    requires k < |ts|
    ensures Contributes(m, ts, k) <==> exists j: nat :: LatestUpTo(m, ts, j, k) && k <= j + 3
    ensures Contributes(m, ts, k) ==> forall j: nat | LatestUpTo(m, ts, j, k) :: Contribution(m, ts, k) == m[ts[j]]
    ensures Carries(m, ts, k) <==> exists j: nat :: LatestUpTo(m, ts, j, k) && j < k <= j + 3
    ensures Departed(m, ts, k) <==> exists j: nat :: LatestUpTo(m, ts, j, k) && k > j + 3
  {
    var last := LastFresh(m, ts, k + 1);
    if last >= 0 {
      LatestIsLastFresh(m, ts, last, k);
    }
    forall j: nat | LatestUpTo(m, ts, j, k) ensures j == last {
      LatestIsLastFresh(m, ts, j, k);
    }
  }

  /** The values of a bucket are those of the series that count in it, each once and in their order. */
  lemma {:induction false} ValuesAreContributions(index: seq<map<int, real>>, ts: seq<int>, k: nat, n: nat) returns (who: seq<nat>)
    requires k < |ts| && n <= |index|
    ensures forall i, j | 0 <= i < j < |who| :: who[i] < who[j]
    ensures forall i: nat :: i in who <==> i < n && Contributes(index[i], ts, k)
    ensures |Values(index, ts, k, n)| == |who|
    ensures forall i | 0 <= i < |who| :: who[i] < n && Contributes(index[who[i]], ts, k)
                                         && Values(index, ts, k, n)[i] == Contribution(index[who[i]], ts, k)
  {
    who := [];
    if n > 0 {
      who := ValuesAreContributions(index, ts, k, n - 1);
      if Contributes(index[n - 1], ts, k) {
        who := who + [n - 1];
      }
    }
  }

  lemma {:induction false} ContributorCounts(index: seq<map<int, real>>, ts: seq<int>, k: nat, i: nat, n: nat)
    requires i < n <= |index| && k < |ts| && Contributes(index[i], ts, k)
    ensures Values(index, ts, k, n) != []
  {
    if i < n - 1 {
      ContributorCounts(index, ts, k, i, n - 1);
    }
  }

  // ---- What becomes of a bucket ----

  datatype Kind = Dropped | WithDeparted | WithCarried | AllFresh

  type Finite = real -> bool

  ghost predicate IsBucket(index: seq<map<int, real>>, ts: seq<int>, reducer: Reducer, finite: Finite, k: nat, value: real, kind: Kind)
    requires k < |ts|
  {
    && Reduces(Values(index, ts, k, |index|), reducer, value)
    && kind == if !finite(value) then Dropped
               else if AnyDeparted(index, ts, k, |index|) then WithDeparted
               else if AnyCarries(index, ts, k, |index|) then WithCarried
               else AllFresh
  }

  function Number(kinds: seq<Kind>, kind: Kind): nat {
    if kinds == [] then 0
    else Number(kinds[..|kinds| - 1], kind) + if kinds[|kinds| - 1] == kind then 1 else 0
  }

  /** The points returned: one per bucket that is not dropped, in time order. */
  function Returned(ts: seq<int>, values: seq<real>, kinds: seq<Kind>, k: nat): seq<Point>
    requires k <= |ts| && k <= |values| && k <= |kinds|
  {
    if k == 0 then []
    else
      Returned(ts, values, kinds, k - 1) + if kinds[k - 1].Dropped? then [] else [Point(ts[k - 1], values[k - 1])]
  }

  /** What a returned bucket is counted as: with departed series when some series has been silent for
      more than three buckets, else with carried ones when some value is not fresh. */
  lemma KindMeans(index: seq<map<int, real>>, ts: seq<int>, reducer: Reducer, finite: Finite, k: nat, value: real, kind: Kind)
    requires k < |ts| && IsBucket(index, ts, reducer, finite, k, value, kind)
    ensures kind.Dropped? <==> !finite(value)
    ensures kind.WithDeparted? <==>
              finite(value) && exists i, j: nat :: 0 <= i < |index| && LatestUpTo(index[i], ts, j, k) && k > j + 3
    ensures kind.AllFresh? <==>
              finite(value) && forall i, j: nat | 0 <= i < |index| && LatestUpTo(index[i], ts, j, k) :: j == k
  {
    forall i | 0 <= i < |index|
      ensures Departed(index[i], ts, k) <==> exists j: nat :: LatestUpTo(index[i], ts, j, k) && k > j + 3
      ensures Carries(index[i], ts, k) <==> exists j: nat :: LatestUpTo(index[i], ts, j, k) && j < k <= j + 3
    {
      ContributesExactly(index[i], ts, k);
    }
  }

  /** The points returned are those of the buckets that are not dropped. */
  lemma {:induction false} ReturnedPoints(ts: seq<int>, values: seq<real>, kinds: seq<Kind>, k: nat, p: Point)
    requires k <= |ts| && k <= |values| && k <= |kinds|
    ensures p in Returned(ts, values, kinds, k) <==>
              exists h :: 0 <= h < k && !kinds[h].Dropped? && p == Point(ts[h], values[h])
  {
    if k > 0 {
      ReturnedPoints(ts, values, kinds, k - 1, p);
    }
  }

  lemma {:induction false} KindsPartition(kinds: seq<Kind>)
    ensures Number(kinds, Dropped) + Number(kinds, WithDeparted) + Number(kinds, WithCarried) + Number(kinds, AllFresh) == |kinds|
  {
    if kinds != [] {
      KindsPartition(kinds[..|kinds| - 1]);
    }
  }

  ghost predicate Chronological(points: seq<Point>) {
    forall i, j | 0 <= i < j < |points| :: points[i].timestamp < points[j].timestamp
  }

  ghost predicate UpTo(points: seq<Point>, t: int) {
    forall i | 0 <= i < |points| :: points[i].timestamp <= t
  }

  /** The output is strictly ascending, and together with the dropped buckets covers them all. */
  lemma {:induction false} ReturnedAscends(ts: seq<int>, values: seq<real>, kinds: seq<Kind>, k: nat)
    requires k <= |ts| && k <= |values| && k <= |kinds|
    requires forall i, j | 0 <= i < j < |ts| :: ts[i] < ts[j]
    ensures Chronological(Returned(ts, values, kinds, k))
    ensures if k == 0 then Returned(ts, values, kinds, k) == [] else UpTo(Returned(ts, values, kinds, k), ts[k - 1])
    ensures |Returned(ts, values, kinds, k)| + Number(kinds[..k], Dropped) == k
  {
    if k > 0 {
      ReturnedAscends(ts, values, kinds, k - 1);
      assert kinds[..k][..k - 1] == kinds[..k - 1];
    }
  }

  // ---- The streaming pass ----

  /** A series' place in the four parallel buffers of the pass. */
  datatype Slot = Slot(carried: real, started: bool, streak: nat, departed: bool)

  /** What the buffers hold for a series after the first k buckets. */
  ghost predicate After(m: map<int, real>, ts: seq<int>, k: nat, s: Slot)
    requires k <= |ts|
  {
    var j := LastFresh(m, ts, k);
    && (s.started <==> j >= 0)
    && (s.started ==> s.carried == m[ts[j]] && s.streak == if k - 1 - j > MAX_CARRY then MAX_CARRY else k - 1 - j)
    && (s.departed <==> EverDeparted(m, ts, k))
  }

  datatype Turn = Fresh(value: real) | Carried(value: real) | Gone | NotStarted

  /** What a series does in bucket k. */
  ghost predicate TurnOf(m: map<int, real>, ts: seq<int>, k: nat, turn: Turn)
    requires k < |ts|
  {
    && (turn.Fresh? || turn.Carried? <==> Contributes(m, ts, k))
    && (turn.Fresh? || turn.Carried? ==> turn.value == Contribution(m, ts, k))
    && (turn.Carried? <==> Carries(m, ts, k))
    && (turn.Gone? <==> Departed(m, ts, k))
  }

  lemma EverDepartedStep(m: map<int, real>, ts: seq<int>, k: nat)
    requires k < |ts|
    ensures EverDeparted(m, ts, k + 1) <==> EverDeparted(m, ts, k) || Departed(m, ts, k)
  {
  }

  class Warnings {
    var departedSeries: int
    var departedGroupBuckets: int
    var carryForwardBuckets: int
    var nonFinitePoints: int
    var totalBuckets: int
  }

  /** One series in one bucket. */
  method Visit(m: map<int, real>, ts: seq<int>, k: nat, slots: array<Slot>, i: nat, w: Warnings) returns (turn: Turn)
    requires i < slots.Length && k < |ts| && After(m, ts, k, slots[i])
    modifies slots, w`departedSeries
    ensures slots[..] == old(slots[..])[i := slots[i]]
    ensures After(m, ts, k + 1, slots[i]) && TurnOf(m, ts, k, turn)
    ensures w.departedSeries == old(w.departedSeries) + if slots[i].departed && !old(slots[i].departed) then 1 else 0
    ensures old(slots[i].departed) ==> slots[i].departed
  {
    EverDepartedStep(m, ts, k);
    var s := slots[i];
    if ts[k] in m {
      slots[i] := s.(carried := m[ts[k]], started := true, streak := 0);
      return Fresh(m[ts[k]]);
    }
    if !s.started {
      return NotStarted;
    }
    if s.streak >= MAX_CARRY {
      if !s.departed {
        slots[i] := s.(departed := true);
        w.departedSeries := w.departedSeries + 1;
      }
      return Gone;
    }
    slots[i] := s.(streak := s.streak + 1);
    return Carried(s.carried);
  }

  ghost predicate AllAfter(index: seq<map<int, real>>, ts: seq<int>, k: nat, slots: seq<Slot>, from: nat, to: nat)
    requires to <= |index| && to <= |slots| && k <= |ts|
  {
    forall h | from <= h < to :: After(index[h], ts, k, slots[h])
  }

  /** All series in one bucket; a departure is counted when it is first seen. */
  method FoldBucket(index: seq<map<int, real>>, ts: seq<int>, k: nat, slots: array<Slot>, w: Warnings)
    returns (values: seq<real>, carriedCount: nat, departedCount: nat)
    requires slots.Length == |index| && k < |ts| && AllAfter(index, ts, k, slots[..], 0, |index|)
    modifies slots, w`departedSeries
    ensures AllAfter(index, ts, k + 1, slots[..], 0, |index|)
    ensures values == Values(index, ts, k, |index|)
    ensures carriedCount > 0 <==> AnyCarries(index, ts, k, |index|)
    ensures departedCount > 0 <==> AnyDeparted(index, ts, k, |index|)
    ensures w.departedSeries - Gones(slots[..]) == old(w.departedSeries) - Gones(old(slots[..]))
  {
    values, carriedCount, departedCount := [], 0, 0;
    for i := 0 to |index|
      invariant AllAfter(index, ts, k + 1, slots[..], 0, i) && AllAfter(index, ts, k, slots[..], i, |index|)
      invariant values == Values(index, ts, k, i)
      invariant carriedCount > 0 <==> AnyCarries(index, ts, k, i)
      invariant departedCount > 0 <==> AnyDeparted(index, ts, k, i)
      invariant w.departedSeries - Gones(slots[..]) == old(w.departedSeries) - Gones(old(slots[..]))
    {
      var turn := FoldSeries(index, ts, k, slots, i, w);
      AnyStep(index, ts, k, i);
      values, carriedCount, departedCount := Account(turn, values, carriedCount, departedCount);
    }
  }

  /** One series' turn, with the other slots as they were. */
  method FoldSeries(index: seq<map<int, real>>, ts: seq<int>, k: nat, slots: array<Slot>, i: nat, w: Warnings) returns (turn: Turn)
    requires i < slots.Length == |index| && k < |ts|
    requires AllAfter(index, ts, k + 1, slots[..], 0, i) && AllAfter(index, ts, k, slots[..], i, |index|)
    modifies slots, w`departedSeries
    ensures AllAfter(index, ts, k + 1, slots[..], 0, i + 1) && AllAfter(index, ts, k, slots[..], i + 1, |index|)
    ensures TurnOf(index[i], ts, k, turn)
    ensures w.departedSeries - Gones(slots[..]) == old(w.departedSeries) - Gones(old(slots[..]))
  {
    ghost var before := slots[..];
    turn := Visit(index[i], ts, k, slots, i, w);
    AllAfterStep(index, ts, k, before, i, slots[i]);
    GonesAfter(before, i, slots[i]);
  }

  method Account(turn: Turn, values: seq<real>, carriedCount: nat, departedCount: nat)
    returns (values': seq<real>, carriedCount': nat, departedCount': nat)
    ensures values' == values + if turn.Fresh? || turn.Carried? then [turn.value] else []
    ensures carriedCount' == carriedCount + if turn.Carried? then 1 else 0
    ensures departedCount' == departedCount + if turn.Gone? then 1 else 0
  {
    values', carriedCount', departedCount' := values, carriedCount, departedCount;
    match turn {
      case Fresh(v) => values' := values + [v];
      case Carried(v) => values', carriedCount' := values + [v], carriedCount + 1;
      case Gone => departedCount' := departedCount + 1;
      case NotStarted =>
    }
  }

  lemma AllAfterStep(index: seq<map<int, real>>, ts: seq<int>, k: nat, slots: seq<Slot>, i: nat, s: Slot)
    requires i < |slots| == |index| && k < |ts|
    requires AllAfter(index, ts, k + 1, slots, 0, i) && AllAfter(index, ts, k, slots, i, |index|)
    requires After(index[i], ts, k + 1, s)
    ensures AllAfter(index, ts, k + 1, slots[i := s], 0, i + 1) && AllAfter(index, ts, k, slots[i := s], i + 1, |index|)
  {
  }

  function Gones(slots: seq<Slot>): nat {
    if slots == [] then 0 else Gones(slots[..|slots| - 1]) + if slots[|slots| - 1].departed then 1 else 0
  }

  lemma {:induction false} GonesAfter(slots: seq<Slot>, i: nat, s: Slot)
    requires i < |slots| && (slots[i].departed ==> s.departed)
    ensures Gones(slots[i := s]) == Gones(slots) + if s.departed && !slots[i].departed then 1 else 0
  {
    var n := |slots| - 1;
    if i == n {
      assert slots[i := s][..n] == slots[..n];
    } else {
      GonesAfter(slots[..n], i, s);
      assert slots[i := s][..n] == slots[..n][i := s];
    }
  }

  // ---- foldGroupSeries ----

  /** The series that were ever departed. */
  ghost function DepartedSeries(index: seq<map<int, real>>, ts: seq<int>, n: nat): nat
    requires n <= |index|
  {
    if n == 0 then 0 else DepartedSeries(index, ts, n - 1) + if EverDeparted(index[n - 1], ts, |ts|) then 1 else 0
  }

  lemma {:induction false} GonesAreDeparted(index: seq<map<int, real>>, ts: seq<int>, slots: seq<Slot>)
    requires |slots| <= |index| && AllAfter(index, ts, |ts|, slots, 0, |slots|)
    ensures Gones(slots) == DepartedSeries(index, ts, |slots|)
  {
    if slots != [] {
      var n := |slots| - 1;
      assert AllAfter(index, ts, |ts|, slots[..n], 0, n);
      GonesAreDeparted(index, ts, slots[..n]);
      assert After(index[n], ts, |ts|, slots[n]);
    }
  }

  lemma NoneDepartedYet(index: seq<map<int, real>>, ts: seq<int>, slots: seq<Slot>)
    requires |slots| == |index| && forall i | 0 <= i < |slots| :: !slots[i].started && !slots[i].departed
    ensures AllAfter(index, ts, 0, slots, 0, |slots|) && Gones(slots) == 0
  {
    if Gones(slots) > 0 {
      SomeGone(slots);
    }
  }

  lemma {:induction false} SomeGone(slots: seq<Slot>)
    ensures Gones(slots) == 0 || exists i :: 0 <= i < |slots| && slots[i].departed
  {
    if slots != [] {
      SomeGone(slots[..|slots| - 1]);
    }
  }

  /** The whole fold in closed form: every distinct timestamp is one bucket. */
  ghost predicate Folds(index: seq<map<int, real>>, ts: seq<int>, reducer: Reducer, finite: Finite,
                        values: seq<real>, kinds: seq<Kind>, k: nat)
  {
    && Timestamps(index, ts) && |values| == |kinds| == k <= |ts|
    && forall h | 0 <= h < k :: IsBucket(index, ts, reducer, finite, h, values[h], kinds[h])
  }

  /** Two ascending sequences with the same members are one. */
  lemma {:induction false} AscendingIsUnique(a: seq<int>, b: seq<int>)
    requires forall i, j | 0 <= i < j < |a| :: a[i] < a[j]
    requires forall i, j | 0 <= i < j < |b| :: b[i] < b[j]
    requires forall t :: t in a <==> t in b
    ensures a == b
  {
    if a == [] {
      if b != [] {
        FirstIsMember(b);
      }
    } else {
      FirstIsMember(a);
      assert a[0] in a && b[0] in b;
      assert a[0] == b[0];
      var x, y := a[1..], b[1..];
      forall t ensures t in x <==> t in y {
        RestMembers(a, t);
        RestMembers(b, t);
      }
      AscendingIsUnique(x, y);
      assert a == [a[0]] + x && b == [b[0]] + y;
    }
  }

  lemma FirstIsMember(s: seq<int>)
    requires s != []
    ensures s[0] in s
  {
  }

  lemma RestMembers(s: seq<int>, t: int)
    requires s != [] && forall i, j | 0 <= i < j < |s| :: s[i] < s[j]
    ensures t in s[1..] <==> t in s && t != s[0]
  {
    assert s == [s[0]] + s[1..];
  }

  /** The closed form leaves one result: the series fix the buckets, and each bucket its value and
      its kind. */
  lemma Determined(index: seq<map<int, real>>, reducer: Reducer, finite: Finite,
                   ts: seq<int>, values: seq<real>, kinds: seq<Kind>, ts': seq<int>, values': seq<real>, kinds': seq<Kind>)
    requires Folds(index, ts, reducer, finite, values, kinds, |ts|)
    requires Folds(index, ts', reducer, finite, values', kinds', |ts'|)
    ensures ts == ts' && values == values' && kinds == kinds'
    ensures Returned(ts, values, kinds, |ts|) == Returned(ts', values', kinds', |ts'|)
  {
    AscendingIsUnique(ts, ts');
    forall k | 0 <= k < |ts| ensures values[k] == values'[k] && kinds[k] == kinds'[k] {
      BucketsAreNotEmpty(index, ts, k);
      assert IsBucket(index, ts, reducer, finite, k, values[k], kinds[k]);
      ReducesToOne(Values(index, ts, k, |index|), reducer, values[k], values'[k]);
    }
  }

  lemma FoldsStep(index: seq<map<int, real>>, ts: seq<int>, reducer: Reducer, finite: Finite,
                  values: seq<real>, kinds: seq<Kind>, value: real, kind: Kind)
    requires |kinds| < |ts| && Folds(index, ts, reducer, finite, values, kinds, |kinds|)
    requires IsBucket(index, ts, reducer, finite, |kinds|, value, kind)
    ensures Folds(index, ts, reducer, finite, values + [value], kinds + [kind], |kinds| + 1)
  {
  }

  method BuildIndexes(series: seq<seq<Point>>) returns (index: seq<map<int, real>>)
    ensures |index| == |series| && forall i | 0 <= i < |series| :: index[i] == Index(series[i])
  {
    index := [];
    for i := 0 to |series|
      invariant |index| == i && forall h | 0 <= h < i :: index[h] == Index(series[h])
    {
      var m := BuildIndex(series[i]);
      index := index + [m];
    }
  }

  /** The counter a bucket goes to: a departure outranks a carry, a non-finite value both. */
  method Classify(isFinite: bool, carriedCount: nat, departedCount: nat, w: Warnings) returns (kind: Kind)
    modifies w`nonFinitePoints, w`departedGroupBuckets, w`carryForwardBuckets
    ensures kind == if !isFinite then Dropped else if departedCount > 0 then WithDeparted
                    else if carriedCount > 0 then WithCarried else AllFresh
    ensures w.nonFinitePoints == old(w.nonFinitePoints) + if kind.Dropped? then 1 else 0
    ensures w.departedGroupBuckets == old(w.departedGroupBuckets) + if kind.WithDeparted? then 1 else 0
    ensures w.carryForwardBuckets == old(w.carryForwardBuckets) + if kind.WithCarried? then 1 else 0
  {
    if !isFinite {
      w.nonFinitePoints := w.nonFinitePoints + 1;
      return Dropped;
    }
    if departedCount > 0 {
      w.departedGroupBuckets := w.departedGroupBuckets + 1;
      return WithDeparted;
    } else if carriedCount > 0 {
      w.carryForwardBuckets := w.carryForwardBuckets + 1;
      return WithCarried;
    }
    return AllFresh;
  }

  /** The turn of the outer loop for bucket k; the code's guard against an empty bucket never
      fires. */
  method FoldOne(index: seq<map<int, real>>, ts: seq<int>, reducer: Reducer, finite: Finite, slots: array<Slot>, w: Warnings,
                 points: seq<Point>, k: nat, ghost values: seq<real>, ghost kinds: seq<Kind>)
    returns (points': seq<Point>, value: real, kind: Kind)
    requires k == |kinds| < |ts| && Folds(index, ts, reducer, finite, values, kinds, k)
    requires slots.Length == |index| && AllAfter(index, ts, k, slots[..], 0, |index|)
    modifies slots, w
    ensures AllAfter(index, ts, k + 1, slots[..], 0, |index|)
    ensures Folds(index, ts, reducer, finite, values + [value], kinds + [kind], k + 1)
    ensures points' == points + if kind.Dropped? then [] else [Point(ts[k], value)]
    ensures w.departedSeries - Gones(slots[..]) == old(w.departedSeries) - Gones(old(slots[..]))
    ensures w.nonFinitePoints == old(w.nonFinitePoints) + if kind.Dropped? then 1 else 0
    ensures w.departedGroupBuckets == old(w.departedGroupBuckets) + if kind.WithDeparted? then 1 else 0
    ensures w.carryForwardBuckets == old(w.carryForwardBuckets) + if kind.WithCarried? then 1 else 0
    ensures w.totalBuckets == old(w.totalBuckets)
  {
    var bucket, carriedCount, departedCount := FoldBucket(index, ts, k, slots, w);
    BucketsAreNotEmpty(index, ts, k);
    value := ApplyReducer(bucket, reducer);
    kind := Classify(finite(value), carriedCount, departedCount, w);
    points' := points;
    if !kind.Dropped? {
      points' := points + [Point(ts[k], value)];
    }
    FoldsStep(index, ts, reducer, finite, values, kinds, value, kind);
  }

  /** The outer loop over all buckets. */
  method FoldBuckets(index: seq<map<int, real>>, ts: seq<int>, reducer: Reducer, finite: Finite, w: Warnings)
    returns (points: seq<Point>, ghost values: seq<real>, ghost kinds: seq<Kind>)
    requires Timestamps(index, ts)
    modifies w
    ensures Folds(index, ts, reducer, finite, values, kinds, |ts|)
    ensures points == Returned(ts, values, kinds, |ts|)
    ensures w.departedSeries == old(w.departedSeries) + DepartedSeries(index, ts, |index|)
    ensures w.departedGroupBuckets == old(w.departedGroupBuckets) + Number(kinds, WithDeparted)
    ensures w.carryForwardBuckets == old(w.carryForwardBuckets) + Number(kinds, WithCarried)
    ensures w.nonFinitePoints == old(w.nonFinitePoints) + Number(kinds, Dropped)
    ensures w.totalBuckets == old(w.totalBuckets)
  {
    points, values, kinds := [], [], [];
    var slots := new Slot[|index|](_ => Slot(0.0, false, 0, false));
    NoneDepartedYet(index, ts, slots[..]);
    for k := 0 to |ts|
      invariant AllAfter(index, ts, k, slots[..], 0, |index|)
      invariant Folds(index, ts, reducer, finite, values, kinds, k)
      invariant points == Returned(ts, values, kinds, k)
      invariant w.departedSeries == old(w.departedSeries) + Gones(slots[..])
      invariant w.departedGroupBuckets == old(w.departedGroupBuckets) + Number(kinds, WithDeparted)
      invariant w.carryForwardBuckets == old(w.carryForwardBuckets) + Number(kinds, WithCarried)
      invariant w.nonFinitePoints == old(w.nonFinitePoints) + Number(kinds, Dropped)
      invariant w.totalBuckets == old(w.totalBuckets)
    {
      var value, kind;
      points, value, kind := FoldOne(index, ts, reducer, finite, slots, w, points, k, values, kinds);
      ReturnedSnoc(ts, values, kinds, value, kind);
      NumberSnoc(kinds, kind);
      values, kinds := values + [value], kinds + [kind];
    }
    GonesAreDeparted(index, ts, slots[..]);
  }

  method FoldGroupSeries(series: seq<seq<Point>>, reducer: Reducer, finite: Finite, w: Warnings)
    returns (points: seq<Point>, ghost index: seq<map<int, real>>, ghost ts: seq<int>, ghost values: seq<real>, ghost kinds: seq<Kind>)
    modifies w
    ensures |index| == |series| && forall i | 0 <= i < |series| :: index[i] == Index(series[i])
    ensures Folds(index, ts, reducer, finite, values, kinds, |ts|)
    ensures points == Returned(ts, values, kinds, |ts|)
    ensures w.departedSeries == old(w.departedSeries) + DepartedSeries(index, ts, |index|)
    ensures w.departedGroupBuckets == old(w.departedGroupBuckets) + Number(kinds, WithDeparted)
    ensures w.carryForwardBuckets == old(w.carryForwardBuckets) + Number(kinds, WithCarried)
    ensures w.nonFinitePoints == old(w.nonFinitePoints) + Number(kinds, Dropped)
    ensures w.totalBuckets == if ts == [] then old(w.totalBuckets) else |points|
  {
    var ix := BuildIndexes(series);
    var stamps := SortedTimestamps(ix);
    index, ts := ix, stamps;
    if stamps == [] {
      NothingDeparts(index, ts, |index|);
      return [], index, ts, [], [];
    }
    points, values, kinds := FoldBuckets(ix, stamps, reducer, finite, w);
    w.totalBuckets := |points|;
  }

  lemma {:induction false} NothingDeparts(index: seq<map<int, real>>, ts: seq<int>, n: nat)
    requires ts == [] && n <= |index|
    ensures DepartedSeries(index, ts, n) == 0
  {
    if n > 0 {
      NothingDeparts(index, ts, n - 1);
    }
  }

  lemma {:induction false} ReturnedOfPrefix(ts: seq<int>, values: seq<real>, kinds: seq<Kind>, v: real, kind: Kind, k: nat)
    requires k <= |values| == |kinds| && k <= |ts|
    ensures Returned(ts, values + [v], kinds + [kind], k) == Returned(ts, values, kinds, k)
  {
    if k > 0 {
      ReturnedOfPrefix(ts, values, kinds, v, kind, k - 1);
    }
  }

  lemma ReturnedSnoc(ts: seq<int>, values: seq<real>, kinds: seq<Kind>, v: real, kind: Kind)
    requires |values| == |kinds| < |ts|
    ensures Returned(ts, values + [v], kinds + [kind], |kinds| + 1)
            == Returned(ts, values, kinds, |kinds|) + if kind.Dropped? then [] else [Point(ts[|kinds|], v)]
  {
    ReturnedOfPrefix(ts, values, kinds, v, kind, |kinds|);
  }

  lemma NumberSnoc(kinds: seq<Kind>, kind: Kind)
    ensures Number(kinds + [kind], Dropped) == Number(kinds, Dropped) + if kind.Dropped? then 1 else 0
    ensures Number(kinds + [kind], WithDeparted) == Number(kinds, WithDeparted) + if kind.WithDeparted? then 1 else 0
    ensures Number(kinds + [kind], WithCarried) == Number(kinds, WithCarried) + if kind.WithCarried? then 1 else 0
  {
    assert (kinds + [kind])[..|kinds|] == kinds;
  }

  /** What the counters promise, for every input: the returned points ascend strictly, returned
      and dropped buckets are all the distinct timestamps, and the carry-forward and departed
      buckets are different returned ones. */
  lemma CountersAgree(index: seq<map<int, real>>, ts: seq<int>, reducer: Reducer, finite: Finite, values: seq<real>, kinds: seq<Kind>)
    requires Folds(index, ts, reducer, finite, values, kinds, |ts|)
    ensures Chronological(Returned(ts, values, kinds, |ts|))
    ensures |Returned(ts, values, kinds, |ts|)| + Number(kinds, Dropped) == |ts|
    ensures Number(kinds, WithCarried) + Number(kinds, WithDeparted) <= |Returned(ts, values, kinds, |ts|)|
  {
    ReturnedAscends(ts, values, kinds, |ts|);
    assert kinds[..|ts|] == kinds;
    KindsPartition(kinds);
  }
}
