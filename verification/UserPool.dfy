/** The per-user assembly pool of internal/server/userpool.go before Close.

    Requests and janitor sweeps are program counters.  A section that runs under the pool lock
    is one step; what runs outside it (waiting, closing an evicted assembly, building, publishing
    the outcome, releasing) is a step of its own.  The evictors may pick any evictable entries,
    which covers the code's choice (least recently used, or idle past the limit) even when a
    release lands in the middle of its scan. */
module UserPool {

  type Key = nat
  type EntryId = nat
  type Thread = nat

  datatype Phase = Building | Ready | Failed

  datatype Entry = Entry(key: Key, phase: Phase, inflight: int, lastUsed: int, closes: nat)

  datatype PC =
    | Waiting(e: EntryId)                      // found in the map, waiting on its ready channel
    | Evicting(victim: EntryId, e: EntryId)    // inserted e; closing the entry taken out for it
    | Constructing(e: EntryId)                 // inside the builder
    | Failing(e: EntryId)                      // failure published; the map delete is still to come
    | Serving(e: EntryId)
    | Leaving(e: EntryId)                      // release is still to come
    | Sweeping(victims: seq<EntryId>)          // the janitor, after unlocking

  datatype Pool = Pool(maxUsers: nat, entries: map<Key, EntryId>, heap: map<EntryId, Entry>, threads: map<Thread, PC>)

  datatype Action =
    | Hit(r: Thread, key: Key, now: int)
    | Insert(r: Thread, key: Key, now: int, e: EntryId)
    | Replace(r: Thread, key: Key, now: int, e: EntryId, victimKey: Key)
    | CloseVictim(r: Thread)
    | Build(r: Thread, ok: bool)
    | DropFailed(r: Thread)
    | Wake(r: Thread)
    | Cancel(r: Thread)
    | Finish(r: Thread)
    | Release(r: Thread)
    | Sweep(r: Thread, keys: seq<Key>)
    | CloseSwept(r: Thread)

  /** userEntry.evictable: built successfully and unused. */
  predicate Evictable(e: Entry) {
    e.phase == Ready && e.inflight == 0
  }

  function IdsOf(p: Pool, keys: seq<Key>): (ids: seq<EntryId>)
    requires forall k <- keys :: k in p.entries
    ensures |ids| == |keys| && forall i | 0 <= i < |keys| :: ids[i] == p.entries[keys[i]]
  {
    seq(|keys|, i requires 0 <= i < |keys| => p.entries[keys[i]])
  }

  ghost predicate Enabled(p: Pool, a: Action) {
    match a
    case Hit(r, key, now) => r !in p.threads && key in p.entries && p.entries[key] in p.heap
    case Insert(r, key, now, e) =>
      r !in p.threads && key !in p.entries && e !in p.heap && |p.entries| < p.maxUsers
    case Replace(r, key, now, e, victimKey) =>
      && r !in p.threads && key !in p.entries && e !in p.heap && |p.entries| >= p.maxUsers
      && victimKey in p.entries && p.entries[victimKey] in p.heap && Evictable(p.heap[p.entries[victimKey]])
    case CloseVictim(r) => r in p.threads && p.threads[r].Evicting? && p.threads[r].victim in p.heap
    case Build(r, ok) => r in p.threads && p.threads[r].Constructing? && p.threads[r].e in p.heap
    case DropFailed(r) => r in p.threads && p.threads[r].Failing? && p.threads[r].e in p.heap
    case Wake(r) =>
      && r in p.threads && p.threads[r].Waiting? && p.threads[r].e in p.heap
      && p.heap[p.threads[r].e].phase != Building
    case Cancel(r) => r in p.threads && p.threads[r].Waiting?
    case Finish(r) => r in p.threads && p.threads[r].Serving?
    case Release(r) => r in p.threads && p.threads[r].Leaving? && p.threads[r].e in p.heap
    case Sweep(r, keys) =>
      && r !in p.threads
      && (forall i, j | 0 <= i < j < |keys| :: keys[i] != keys[j])
      && (forall k <- keys :: k in p.entries && p.entries[k] in p.heap && Evictable(p.heap[p.entries[k]]))
    case CloseSwept(r) =>
      && r in p.threads && p.threads[r].Sweeping? && p.threads[r].victims != []
      && p.threads[r].victims[0] in p.heap
  }

  function Touch(e: Entry, now: int): Entry {
    e.(inflight := e.inflight + 1, lastUsed := now)
  }

  function Closed(e: Entry): Entry {
    e.(closes := e.closes + 1)
  }

  function EntriesAfter(p: Pool, a: Action): map<Key, EntryId>
    requires a.DropFailed? ==> a.r in p.threads && !p.threads[a.r].Sweeping? && p.threads[a.r].e in p.heap
  {
    match a
    case Insert(_, key, _, e) => p.entries[key := e]
    case Replace(_, key, _, e, victimKey) => (p.entries - {victimKey})[key := e]
    case DropFailed(r) => p.entries - {p.heap[p.threads[r].e].key}
    case Sweep(_, keys) => p.entries - (set k | k in keys)
    case _ => p.entries
  }

  ghost function HeapAfter(p: Pool, a: Action): map<EntryId, Entry>
    requires Enabled(p, a)
  {
    match a
    case Hit(_, key, now) => p.heap[p.entries[key] := Touch(p.heap[p.entries[key]], now)]
    case Insert(_, key, now, e) => p.heap[e := Entry(key, Building, 1, now, 0)]
    case Replace(_, key, now, e, _) => p.heap[e := Entry(key, Building, 1, now, 0)]
    case CloseVictim(r) => p.heap[p.threads[r].victim := Closed(p.heap[p.threads[r].victim])]
    case Build(r, ok) =>
      p.heap[p.threads[r].e := p.heap[p.threads[r].e].(phase := if ok then Ready else Failed)]
    case Release(r) =>
      p.heap[p.threads[r].e := p.heap[p.threads[r].e].(inflight := p.heap[p.threads[r].e].inflight - 1)]
    case CloseSwept(r) => p.heap[p.threads[r].victims[0] := Closed(p.heap[p.threads[r].victims[0]])]
    case _ => p.heap
  }

  /** Where the acting thread goes; every action but Release leaves it somewhere. */
  ghost function NextPC(p: Pool, a: Action): PC
    requires Enabled(p, a) && !a.Release?
  {
    match a
    case Hit(_, key, _) => Waiting(p.entries[key])
    case Insert(_, _, _, e) => Constructing(e)
    case Replace(_, _, _, e, victimKey) => Evicting(p.entries[victimKey], e)
    case CloseVictim(r) => Constructing(p.threads[r].e)
    case Build(r, ok) => if ok then Serving(p.threads[r].e) else Failing(p.threads[r].e)
    case DropFailed(r) => Leaving(p.threads[r].e)
    case Wake(r) =>
      if p.heap[p.threads[r].e].phase == Failed then Leaving(p.threads[r].e) else Serving(p.threads[r].e)
    case Cancel(r) => Leaving(p.threads[r].e)
    case Finish(r) => Leaving(p.threads[r].e)
    case Sweep(_, keys) => Sweeping(IdsOf(p, keys))
    case CloseSwept(r) => Sweeping(p.threads[r].victims[1..])
  }

  ghost function Apply(p: Pool, a: Action): Pool
    requires Enabled(p, a)
  {
    Pool(p.maxUsers, EntriesAfter(p, a), HeapAfter(p, a),
         if a.Release? then p.threads - {a.r} else p.threads[a.r := NextPC(p, a)])
  }

  // ---- The invariant ----

  /** The entry a thread holds: it was counted in and has not been released. */
  predicate Holds(pc: PC, e: EntryId) {
    !pc.Sweeping? && pc.e == e
  }

  ghost function HoldersIn(threads: map<Thread, PC>, e: EntryId): set<Thread> {
    set r | r in threads && Holds(threads[r], e)
  }

  ghost function Holders(p: Pool, e: EntryId): set<Thread> {
    HoldersIn(p.threads, e)
  }

  /** The thread that must still publish, or take out of the map, the entry's build. */
  predicate Builds(pc: PC, e: EntryId) {
    (pc.Evicting? || pc.Constructing? || pc.Failing?) && pc.e == e
  }

  /** The thread that took an entry out of the map and must close it. */
  predicate Owns(pc: PC, v: EntryId) {
    (pc.Evicting? && pc.victim == v) || (pc.Sweeping? && v in pc.victims)
  }

  predicate InMap(p: Pool, e: EntryId)
    requires e in p.heap
  {
    p.heap[e].key in p.entries && p.entries[p.heap[e].key] == e
  }

  ghost predicate CountSound(p: Pool, e: EntryId)
    requires e in p.heap
  {
    p.heap[e].inflight == |Holders(p, e)|
  }

  /** Building entries are in the map; an evicted assembly is unused; nothing in the map was
      closed; nothing is closed twice. */
  ghost predicate PlaceSound(p: Pool, e: EntryId)
    requires e in p.heap
  {
    var x := p.heap[e];
    && (x.phase == Building ==> InMap(p, e))
    && (x.closes > 0 ==> x.phase == Ready && !InMap(p, e))
    && (x.phase == Ready && !InMap(p, e) ==> x.inflight == 0)
    && x.closes <= 1
  }

  /** Nothing is forgotten: an unclosed evicted assembly has an evictor, and a failed entry still
      in the map has the builder that will take it out. */
  ghost predicate DutySound(p: Pool, e: EntryId)
    requires e in p.heap
  {
    var x := p.heap[e];
    && (x.phase == Ready && !InMap(p, e) && x.closes == 0 ==> exists r :: r in p.threads && Owns(p.threads[r], e))
    && (x.phase == Failed && InMap(p, e) ==> exists r :: r in p.threads && p.threads[r] == Failing(e))
  }

  ghost predicate ThreadSound(p: Pool, pc: PC) {
    && (!pc.Sweeping? ==> pc.e in p.heap)
    && (pc.Evicting? || pc.Constructing? ==> p.heap[pc.e].phase == Building)
    && (pc.Failing? ==> p.heap[pc.e].phase == Failed && InMap(p, pc.e))
    && (pc.Serving? ==> p.heap[pc.e].phase == Ready)
    && (forall v | Owns(pc, v) ::
          v in p.heap && p.heap[v].phase == Ready && !InMap(p, v) && p.heap[v].closes == 0)
    && (pc.Sweeping? ==> forall i, j | 0 <= i < j < |pc.victims| :: pc.victims[i] != pc.victims[j])
  }

  ghost predicate MapSound(p: Pool) {
    && |p.entries| <= p.maxUsers
    && (forall k <- p.entries :: p.entries[k] in p.heap && p.heap[p.entries[k]].key == k)
  }

  ghost predicate EntriesSound(p: Pool) {
    forall e <- p.heap :: CountSound(p, e) && PlaceSound(p, e) && DutySound(p, e)
  }

  ghost predicate ThreadsSound(p: Pool) {
    forall r <- p.threads :: ThreadSound(p, p.threads[r])
  }

  ghost predicate OneBuilder(p: Pool) {
    forall r, q, e {:trigger Builds(p.threads[r], e), Builds(p.threads[q], e)} |
      r in p.threads && q in p.threads && Builds(p.threads[r], e) && Builds(p.threads[q], e) :: r == q
  }

  ghost predicate OneOwner(p: Pool) {
    forall r, q, v {:trigger Owns(p.threads[r], v), Owns(p.threads[q], v)} |
      r in p.threads && q in p.threads && Owns(p.threads[r], v) && Owns(p.threads[q], v) :: r == q
  }

  ghost predicate Inv(p: Pool) {
    MapSound(p) && EntriesSound(p) && ThreadsSound(p) && OneBuilder(p) && OneOwner(p)
  }

  // ---- Counting holders ----

  predicate HeldBy(threads: map<Thread, PC>, r: Thread, e: EntryId) {
    r in threads && Holds(threads[r], e)
  }

  lemma HoldersWithout(threads: map<Thread, PC>, r: Thread, e: EntryId)
    ensures |HoldersIn(threads, e)| == |HoldersIn(threads - {r}, e)| + (if HeldBy(threads, r, e) then 1 else 0)
  {
    var rest := HoldersIn(threads - {r}, e);
    if HeldBy(threads, r, e) {
      assert HoldersIn(threads, e) == rest + {r};
    } else {
      assert HoldersIn(threads, e) == rest;
    }
  }

  /** Only r moved, so the number of holders of e changes by r's own part. */
  lemma HoldersMoved(p: Pool, t: Pool, r: Thread, e: EntryId)
    requires t.threads - {r} == p.threads - {r}
    ensures |Holders(t, e)| == |Holders(p, e)| - (if HeldBy(p.threads, r, e) then 1 else 0)
                               + (if HeldBy(t.threads, r, e) then 1 else 0)
  {
    HoldersWithout(p.threads, r, e);
    HoldersWithout(t.threads, r, e);
  }

  // ---- Every step keeps the map sound ----

  lemma SmallerMap(m: map<Key, EntryId>, n: map<Key, EntryId>)
    requires n.Keys <= m.Keys
    ensures |n| <= |m|
  {
    assert m.Keys == n.Keys + (m.Keys - n.Keys);
  }

  lemma AddedSize(m: map<Key, EntryId>, k: Key, e: EntryId)
    requires k !in m
    ensures |m[k := e]| == |m| + 1
  {
    assert m[k := e].Keys == m.Keys + {k};
  }

  lemma RemovedSize(m: map<Key, EntryId>, k: Key)
    requires k in m
    ensures |m - {k}| == |m| - 1
  {
    assert m.Keys == (m - {k}).Keys + {k};
  }

  lemma StepKeepsSize(p: Pool, a: Action)
    requires |p.entries| <= p.maxUsers && Enabled(p, a)
    ensures |Apply(p, a).entries| <= Apply(p, a).maxUsers
  {
    if a.Insert? {
      AddedSize(p.entries, a.key, a.e);
    } else if a.Replace? {
      RemovedSize(p.entries, a.victimKey);
      AddedSize(p.entries - {a.victimKey}, a.key, a.e);
    } else {
      SmallerMap(p.entries, EntriesAfter(p, a));
    }
  }

  /** Entries never change key and never disappear from the heap. */
  lemma StepKeepsHeap(p: Pool, a: Action, e: EntryId)
    requires Enabled(p, a) && e in p.heap
    ensures e in HeapAfter(p, a) && HeapAfter(p, a)[e].key == p.heap[e].key
  {
  }

  lemma StepKeepsMap(p: Pool, a: Action)
    requires MapSound(p) && Enabled(p, a)
    ensures MapSound(Apply(p, a))
  {
    var t := Apply(p, a);
    StepKeepsSize(p, a);
    forall k <- t.entries
      ensures t.entries[k] in t.heap && t.heap[t.entries[k]].key == k
    {
      if k in p.entries && t.entries[k] == p.entries[k] {
        StepKeepsHeap(p, a, p.entries[k]);
      }
    }
  }

  // ---- Every step keeps the counts ----

  lemma OnlyActorMoves(p: Pool, a: Action)
    requires Enabled(p, a)
    ensures Apply(p, a).threads - {a.r} == p.threads - {a.r}
  {
    hide EntriesAfter, HeapAfter, NextPC, Enabled;
  }

  predicate Starts(a: Action) {
    a.Hit? || a.Insert? || a.Replace? || a.Sweep?
  }

  lemma ArrivalCounts(p: Pool, a: Action, e: EntryId)
    requires Enabled(p, a) && e in p.heap && Starts(a)
    ensures var t := Apply(p, a);
            && !HeldBy(p.threads, a.r, e)
            && e in t.heap
            && t.heap[e].inflight == p.heap[e].inflight + (if HeldBy(t.threads, a.r, e) then 1 else 0)
  {
  }

  lemma DepartureCounts(p: Pool, a: Action, e: EntryId)
    requires Enabled(p, a) && e in p.heap && a.Release?
    ensures var t := Apply(p, a);
            && !HeldBy(t.threads, a.r, e)
            && e in t.heap
            && t.heap[e].inflight == p.heap[e].inflight - (if HeldBy(p.threads, a.r, e) then 1 else 0)
  {
  }

  lemma InnerStepCounts(p: Pool, a: Action, e: EntryId)
    requires Enabled(p, a) && e in p.heap && !Starts(a) && !a.Release?
    ensures var t := Apply(p, a);
            && HeldBy(t.threads, a.r, e) == HeldBy(p.threads, a.r, e)
            && e in t.heap
            && t.heap[e].inflight == p.heap[e].inflight
  {
  }

  lemma NobodyHoldsNew(p: Pool, e: EntryId)
    requires ThreadsSound(p) && e !in p.heap
    ensures Holders(p, e) == {}
  {
    forall r | r in p.threads
      ensures !Holds(p.threads[r], e)
    {
      assert ThreadSound(p, p.threads[r]);
    }
  }

  lemma StepKeepsCount(p: Pool, a: Action, e: EntryId)
    requires Enabled(p, a) && e in Apply(p, a).heap
    requires if e in p.heap then CountSound(p, e) else Holders(p, e) == {}
    ensures CountSound(Apply(p, a), e)
  {
    var t := Apply(p, a);
    OnlyActorMoves(p, a);
    HoldersMoved(p, t, a.r, e);
    if e in p.heap {
      if Starts(a) {
        ArrivalCounts(p, a, e);
      } else if a.Release? {
        DepartureCounts(p, a, e);
      } else {
        InnerStepCounts(p, a, e);
      }
    }
  }

  // ---- Every step keeps entries in their place ----

  /** The step takes this entry out of the map. */
  ghost predicate TakesOut(p: Pool, a: Action, e: EntryId)
    requires Enabled(p, a) && e in p.heap
  {
    match a
    case Replace(_, _, _, _, victimKey) => p.entries[victimKey] == e
    case DropFailed(r) => p.threads[r].e == e
    case Sweep(_, keys) => p.heap[e].key in keys
    case _ => false
  }

  lemma StepInMap(p: Pool, a: Action, e: EntryId)
    requires Enabled(p, a) && MapSound(p) && e in p.heap
    requires a.DropFailed? ==> InMap(p, p.threads[a.r].e)
    ensures e in Apply(p, a).heap
    ensures InMap(Apply(p, a), e) <==> InMap(p, e) && !TakesOut(p, a, e)
  {
    StepKeepsHeap(p, a, e);
  }

  lemma NewInMap(p: Pool, a: Action, e: EntryId)
    requires Enabled(p, a) && e !in p.heap && e in Apply(p, a).heap
    ensures InMap(Apply(p, a), e)
    ensures var x := Apply(p, a).heap[e]; x.phase == Building && x.closes == 0
    ensures a.Insert? || a.Replace?
  {
  }

  lemma ArrivalKeepsPlace(p: Pool, a: Action, e: EntryId)
    requires Enabled(p, a) && MapSound(p) && e in p.heap && PlaceSound(p, e) && Starts(a)
    ensures e in Apply(p, a).heap && PlaceSound(Apply(p, a), e)
  {
    StepInMap(p, a, e);
  }

  lemma InnerStepKeepsPlace(p: Pool, a: Action, e: EntryId)
    requires Enabled(p, a) && MapSound(p) && e in p.heap && PlaceSound(p, e) && !Starts(a)
    requires ThreadSound(p, p.threads[a.r])
    ensures e in Apply(p, a).heap
    ensures a.Release? && p.threads[a.r].e == e ==> p.heap[e].inflight > 0 ==> PlaceSound(Apply(p, a), e)
    ensures !(a.Release? && p.threads[a.r].e == e) ==> PlaceSound(Apply(p, a), e)
  {
    StepInMap(p, a, e);
  }

  lemma StepKeepsPlace(p: Pool, a: Action, e: EntryId)
    requires Enabled(p, a) && MapSound(p) && e in p.heap
    requires PlaceSound(p, e) && CountSound(p, e)
    requires a.r in p.threads ==> ThreadSound(p, p.threads[a.r])
    ensures e in Apply(p, a).heap && PlaceSound(Apply(p, a), e)
  {
    if Starts(a) {
      ArrivalKeepsPlace(p, a, e);
    } else {
      InnerStepKeepsPlace(p, a, e);
      if a.Release? && p.threads[a.r].e == e {
        assert a.r in Holders(p, e);
      }
    }
  }

  // ---- Every step keeps the duties ----

  lemma TakenOutIsOwned(p: Pool, a: Action, e: EntryId)
    requires Enabled(p, a) && e in p.heap && InMap(p, e) && TakesOut(p, a, e) && !a.DropFailed?
    ensures a.r in Apply(p, a).threads && Owns(Apply(p, a).threads[a.r], e)
  {
    if a.Sweep? {
      var i :| 0 <= i < |a.keys| && a.keys[i] == p.heap[e].key;
      assert IdsOf(p, a.keys)[i] == e;
    }
  }

  /** A duty to close passes on until the close happens. */
  lemma OwnerSurvives(p: Pool, a: Action, e: EntryId, r: Thread)
    requires Enabled(p, a) && e in p.heap && r in p.threads && Owns(p.threads[r], e)
    requires e in Apply(p, a).heap && Apply(p, a).heap[e].closes == p.heap[e].closes
    ensures r in Apply(p, a).threads && Owns(Apply(p, a).threads[r], e)
  {
    if r == a.r && a.CloseSwept? {
      var victims := p.threads[r].victims;
      assert victims == [victims[0]] + victims[1..];
    }
  }

  lemma StepKeepsDuty(p: Pool, a: Action, e: EntryId)
    requires Enabled(p, a) && MapSound(p) && e in p.heap && PlaceSound(p, e) && DutySound(p, e)
    requires a.r in p.threads ==> ThreadSound(p, p.threads[a.r])
    ensures e in Apply(p, a).heap && DutySound(Apply(p, a), e)
  {
    var t := Apply(p, a);
    StepInMap(p, a, e);
    if t.heap[e].phase == Ready && !InMap(t, e) && t.heap[e].closes == 0 {
      if InMap(p, e) {
        TakenOutIsOwned(p, a, e);
      } else {
        var r :| r in p.threads && Owns(p.threads[r], e);
        OwnerSurvives(p, a, e, r);
      }
    }
    if t.heap[e].phase == Failed && InMap(t, e) {
      if p.heap[e].phase == Failed {
        var r :| r in p.threads && p.threads[r] == Failing(e);
        assert r in t.threads && t.threads[r] == Failing(e);
      } else {
        assert t.threads[a.r] == Failing(e);
      }
    }
  }

  // ---- Every step keeps the threads sound ----

  /** The only step that changes an entry's phase is its own build. */
  lemma PhaseStays(p: Pool, a: Action, e: EntryId)
    requires Enabled(p, a) && e in p.heap
    requires a.r in p.threads && p.threads[a.r].Constructing? ==> p.threads[a.r].e != e
    ensures e in HeapAfter(p, a) && HeapAfter(p, a)[e].phase == p.heap[e].phase
  {
  }

  /** The only steps that close an entry are those of the thread that owns it. */
  lemma ClosesStay(p: Pool, a: Action, v: EntryId)
    requires Enabled(p, a) && v in p.heap
    requires a.r in p.threads ==> !Owns(p.threads[a.r], v)
    ensures v in HeapAfter(p, a) && HeapAfter(p, a)[v].closes == p.heap[v].closes
  {
  }

  lemma BystandersEntryStays(p: Pool, a: Action, pc: PC)
    requires Enabled(p, a) && MapSound(p) && ThreadSound(p, pc) && !pc.Sweeping?
    requires a.r in p.threads ==> ThreadSound(p, p.threads[a.r])
    requires a.r in p.threads && Builds(pc, pc.e) ==> !Builds(p.threads[a.r], pc.e)
    ensures var t := Apply(p, a);
            && pc.e in t.heap
            && (pc.Evicting? || pc.Constructing? ==> t.heap[pc.e].phase == Building)
            && (pc.Failing? ==> t.heap[pc.e].phase == Failed && InMap(t, pc.e))
            && (pc.Serving? ==> t.heap[pc.e].phase == Ready)
  {
    StepInMap(p, a, pc.e);
    if Builds(pc, pc.e) || pc.Serving? {
      PhaseStays(p, a, pc.e);
    }
  }

  lemma BystandersVictimStays(p: Pool, a: Action, pc: PC, v: EntryId)
    requires Enabled(p, a) && MapSound(p) && ThreadSound(p, pc) && Owns(pc, v)
    requires a.r in p.threads ==> ThreadSound(p, p.threads[a.r]) && !Owns(p.threads[a.r], v)
    ensures var t := Apply(p, a);
            v in t.heap && t.heap[v].phase == Ready && !InMap(t, v) && t.heap[v].closes == 0
  {
    StepInMap(p, a, v);
    ClosesStay(p, a, v);
    PhaseStays(p, a, v);
  }

  lemma BystanderStaysSound(p: Pool, a: Action, q: Thread)
    requires MapSound(p) && ThreadsSound(p) && OneBuilder(p) && OneOwner(p)
    requires Enabled(p, a) && q in p.threads && q != a.r
    ensures ThreadSound(Apply(p, a), p.threads[q])
  {
    var t, pc := Apply(p, a), p.threads[q];
    if !pc.Sweeping? {
      assert Builds(pc, pc.e) && a.r in p.threads ==> !Builds(p.threads[a.r], pc.e);
      BystandersEntryStays(p, a, pc);
    }
    forall v | Owns(pc, v)
      ensures v in t.heap && t.heap[v].phase == Ready && !InMap(t, v) && t.heap[v].closes == 0
    {
      assert a.r in p.threads ==> !Owns(p.threads[a.r], v);
      BystandersVictimStays(p, a, pc, v);
    }
  }

  lemma ActorStaysSound(p: Pool, a: Action)
    requires Inv(p) && Enabled(p, a) && !a.Release?
    ensures ThreadSound(Apply(p, a), NextPC(p, a))
  {
    var t, pc := Apply(p, a), NextPC(p, a);
    assert a.r in p.threads ==> ThreadSound(p, p.threads[a.r]);
    if !pc.Sweeping? && pc.e in p.heap {
      StepInMap(p, a, pc.e);
    }
    forall v | Owns(pc, v)
      ensures v in t.heap && t.heap[v].phase == Ready && !InMap(t, v) && t.heap[v].closes == 0
    {
      OwnedNextIsOut(p, a, v);
    }
  }

  lemma OwnedNextIsOut(p: Pool, a: Action, v: EntryId)
    requires Inv(p) && Enabled(p, a) && !a.Release? && Owns(NextPC(p, a), v)
    ensures var t := Apply(p, a);
            v in t.heap && t.heap[v].phase == Ready && !InMap(t, v) && t.heap[v].closes == 0
  {
    if a.Replace? {
      assert PlaceSound(p, v);
      StepInMap(p, a, v);
    } else if a.Sweep? {
      var i :| 0 <= i < |a.keys| && p.entries[a.keys[i]] == v;
      assert PlaceSound(p, v);
      StepInMap(p, a, v);
    } else {
      assert ThreadSound(p, p.threads[a.r]);
      assert Owns(p.threads[a.r], v);
      StepInMap(p, a, v);
    }
  }

  // ---- One builder, one owner ----

  /** A thread newly responsible for a build has just allocated the entry. */
  lemma NewBuilderAllocated(p: Pool, a: Action, e: EntryId)
    requires Enabled(p, a) && !a.Release? && Builds(NextPC(p, a), e)
    ensures (a.r in p.threads && Builds(p.threads[a.r], e)) || e !in p.heap
  {
  }

  lemma StepKeepsOneBuilder(p: Pool, a: Action)
    requires ThreadsSound(p) && OneBuilder(p) && Enabled(p, a)
    ensures OneBuilder(Apply(p, a))
  {
    var t := Apply(p, a);
    forall r, q, e {:trigger Builds(t.threads[r], e), Builds(t.threads[q], e)} |
        r in t.threads && q in t.threads && Builds(t.threads[r], e) && Builds(t.threads[q], e)
      ensures r == q
    {
      if r != q && (r == a.r || q == a.r) {
        var other := if r == a.r then q else r;
        assert t.threads[other] == p.threads[other] && ThreadSound(p, p.threads[other]);
        NewBuilderAllocated(p, a, e);
      }
    }
  }

  /** A thread newly responsible for closing an entry has just taken it out of the map. */
  lemma NewOwnerTookItOut(p: Pool, a: Action, v: EntryId)
    requires Enabled(p, a) && MapSound(p) && !a.Release? && Owns(NextPC(p, a), v)
    ensures || (a.r in p.threads && Owns(p.threads[a.r], v))
            || (v in p.heap && InMap(p, v))
  {
    if a.Sweep? {
      var i :| 0 <= i < |a.keys| && p.entries[a.keys[i]] == v;
    }
  }

  lemma StepKeepsOneOwner(p: Pool, a: Action)
    requires MapSound(p) && ThreadsSound(p) && OneOwner(p) && Enabled(p, a)
    ensures OneOwner(Apply(p, a))
  {
    var t := Apply(p, a);
    forall r, q, v {:trigger Owns(t.threads[r], v), Owns(t.threads[q], v)} |
        r in t.threads && q in t.threads && Owns(t.threads[r], v) && Owns(t.threads[q], v)
      ensures r == q
    {
      if r != q && (r == a.r || q == a.r) {
        var other := if r == a.r then q else r;
        assert t.threads[other] == p.threads[other] && ThreadSound(p, p.threads[other]);
        NewOwnerTookItOut(p, a, v);
      }
    }
  }

  ghost predicate Init(p: Pool) {
    p.entries == map[] && p.heap == map[] && p.threads == map[]
  }

  lemma StepKeepsInv(p: Pool, a: Action)
    requires Inv(p) && Enabled(p, a)
    ensures Inv(Apply(p, a))
  {
    var t := Apply(p, a);
    StepKeepsMap(p, a);
    forall e <- t.heap
      ensures CountSound(t, e) && PlaceSound(t, e) && DutySound(t, e)
    {
      if e !in p.heap {
        NobodyHoldsNew(p, e);
      }
      StepKeepsCount(p, a, e);
      if e in p.heap {
        StepKeepsPlace(p, a, e);
        StepKeepsDuty(p, a, e);
      } else {
        NewInMap(p, a, e);
      }
    }
    forall r <- t.threads
      ensures ThreadSound(t, t.threads[r])
    {
      if r == a.r {
        ActorStaysSound(p, a);
      } else {
        BystanderStaysSound(p, a, r);
      }
    }
    StepKeepsOneBuilder(p, a);
    StepKeepsOneOwner(p, a);
  }

  // ---- Whole runs ----

  ghost predicate IsRun(run: seq<Pool>, acts: seq<Action>) {
    && |run| == |acts| + 1
    && Init(run[0])
    && forall i {:trigger acts[i]} | 0 <= i < |acts| ::
         Enabled(run[i], acts[i]) && run[i + 1] == Apply(run[i], acts[i])
  }

  lemma InitInv(p: Pool)
    requires Init(p)
    ensures Inv(p)
  {
  }

  lemma RunStep(run: seq<Pool>, acts: seq<Action>, i: nat)
    requires IsRun(run, acts) && i < |acts|
    ensures Enabled(run[i], acts[i]) && run[i + 1] == Apply(run[i], acts[i])
  {
  }

  lemma {:induction false} RunInv(run: seq<Pool>, acts: seq<Action>, i: nat)
    requires IsRun(run, acts) && i < |run|
    ensures Inv(run[i])
  {
    if i == 0 {
      InitInv(run[0]);
    } else {
      RunInv(run, acts, i - 1);
      RunStep(run, acts, i - 1);
      StepKeepsInv(run[i - 1], acts[i - 1]);
    }
  }

  /** The pool never holds more assemblies than its cap, and no key is being built twice. */
  lemma PoolBoundedAndSingleflight(run: seq<Pool>, acts: seq<Action>, i: nat)
    requires IsRun(run, acts) && i < |run|
    ensures |run[i].entries| <= run[i].maxUsers
    ensures forall d, e | d in run[i].heap && e in run[i].heap && run[i].heap[d].phase == Building
                          && run[i].heap[e].phase == Building && run[i].heap[d].key == run[i].heap[e].key :: d == e
  {
    RunInv(run, acts, i);
    var p := run[i];
    forall d, e | d in p.heap && e in p.heap && p.heap[d].phase == Building
                  && p.heap[e].phase == Building && p.heap[d].key == p.heap[e].key
      ensures d == e
    {
      assert PlaceSound(p, d) && PlaceSound(p, e);
    }
  }

  /** The assembly a step closes, if it closes one. */
  ghost predicate Closes(p: Pool, a: Action, v: EntryId) {
    Enabled(p, a) && ((a.CloseVictim? && p.threads[a.r].victim == v)
                      || (a.CloseSwept? && p.threads[a.r].victims[0] == v))
  }

  lemma ClosingStepOwns(p: Pool, a: Action, v: EntryId)
    requires Inv(p) && Closes(p, a, v)
    ensures v in p.heap && p.heap[v].phase == Ready && !InMap(p, v) && p.heap[v].closes == 0
    ensures Holders(p, v) == {}
  {
    assert ThreadSound(p, p.threads[a.r]) && Owns(p.threads[a.r], v);
    assert PlaceSound(p, v) && CountSound(p, v);
  }

  /** No assembly is closed while a request holds it, and none that was closed is ever held. */
  lemma NeverClosedInUse(run: seq<Pool>, acts: seq<Action>, i: nat, v: EntryId)
    requires IsRun(run, acts) && i < |acts| && v in run[i].heap
    ensures Closes(run[i], acts[i], v) ==> Holders(run[i], v) == {}
    ensures run[i].heap[v].closes > 0 ==> Holders(run[i], v) == {}
  {
    RunInv(run, acts, i);
    assert PlaceSound(run[i], v) && CountSound(run[i], v);
    if Closes(run[i], acts[i], v) {
      ClosingStepOwns(run[i], acts[i], v);
    }
  }

  lemma StepKeepsCloses(p: Pool, a: Action, v: EntryId)
    requires Enabled(p, a) && v in p.heap
    ensures v in Apply(p, a).heap && Apply(p, a).heap[v].closes >= p.heap[v].closes
  {
  }

  lemma {:induction false} ClosesAccumulate(run: seq<Pool>, acts: seq<Action>, i: nat, j: nat, v: EntryId)
    requires IsRun(run, acts) && i <= j < |run| && v in run[i].heap
    ensures v in run[j].heap && run[j].heap[v].closes >= run[i].heap[v].closes
  {
    if i < j {
      ClosesAccumulate(run, acts, i, j - 1, v);
      RunStep(run, acts, j - 1);
      StepKeepsCloses(run[j - 1], acts[j - 1], v);
    }
  }

  lemma ClosingCounts(p: Pool, a: Action, v: EntryId)
    requires Closes(p, a, v)
    ensures v in Apply(p, a).heap && Apply(p, a).heap[v].closes >= 1
  {
  }

  lemma ClosedStaysClosed(run: seq<Pool>, acts: seq<Action>, i: nat, j: nat, v: EntryId)
    requires IsRun(run, acts) && i < j < |run| && Closes(run[i], acts[i], v)
    ensures v in run[j].heap && run[j].heap[v].closes >= 1
  {
    RunStep(run, acts, i);
    ClosingCounts(run[i], acts[i], v);
    ClosesAccumulate(run, acts, i + 1, j, v);
  }

  /** Each assembly is closed at most once. */
  lemma ClosedOnce(run: seq<Pool>, acts: seq<Action>, i: nat, j: nat, v: EntryId)
    requires IsRun(run, acts) && i < j < |acts| && Closes(run[i], acts[i], v)
    ensures !Closes(run[j], acts[j], v)
  {
    ClosedStaysClosed(run, acts, i, j, v);
    RunInv(run, acts, j);
    if Closes(run[j], acts[j], v) {
      ClosingStepOwns(run[j], acts[j], v);
    }
  }

  /** Every built assembly is in exactly one place: in the map and open; out of the map with one
      evictor that is going to close it; or closed once. */
  lemma EveryAssemblyAccountedFor(run: seq<Pool>, acts: seq<Action>, i: nat, e: EntryId)
    requires IsRun(run, acts) && i < |run| && e in run[i].heap && run[i].heap[e].phase == Ready
    ensures var p := run[i];
            var owned := exists r :: r in p.threads && Owns(p.threads[r], e);
            && (forall r, q | r in p.threads && q in p.threads && Owns(p.threads[r], e) && Owns(p.threads[q], e) :: r == q)
            && (if InMap(p, e) then p.heap[e].closes == 0 && !owned
                else if owned then p.heap[e].closes == 0 && Holders(p, e) == {}
                else p.heap[e].closes == 1 && Holders(p, e) == {})
  {
    RunInv(run, acts, i);
    var p := run[i];
    assert CountSound(p, e) && PlaceSound(p, e) && DutySound(p, e);
    if r :| r in p.threads && Owns(p.threads[r], e) {
      assert ThreadSound(p, p.threads[r]);
    }
  }

  /** A failed build's map delete, which goes by key, removes its own entry, and a request being
      served has a built assembly that nobody has closed. */
  lemma DeleteIsItsOwn(run: seq<Pool>, acts: seq<Action>, i: nat)
    requires IsRun(run, acts) && i < |acts|
    ensures acts[i].DropFailed? ==>
              && Enabled(run[i], acts[i])
              && var e := run[i].threads[acts[i].r].e;
                 InMap(run[i], e) && e !in Apply(run[i], acts[i]).entries.Values
    ensures forall r | r in run[i].threads && run[i].threads[r].Serving? ::
              && run[i].threads[r].e in run[i].heap
              && run[i].heap[run[i].threads[r].e].phase == Ready
              && run[i].heap[run[i].threads[r].e].closes == 0
  {
    RunInv(run, acts, i);
    var p := run[i];
    assert Enabled(p, acts[i]);
    if acts[i].DropFailed? {
      var e := p.threads[acts[i].r].e;
      assert ThreadSound(p, p.threads[acts[i].r]);
      forall k | k in Apply(p, acts[i]).entries
        ensures Apply(p, acts[i]).entries[k] != e
      {
      }
    }
    forall r | r in p.threads && p.threads[r].Serving?
      ensures p.threads[r].e in p.heap && p.heap[p.threads[r].e].phase == Ready
      ensures p.heap[p.threads[r].e].closes == 0
    {
      var e := p.threads[r].e;
      assert ThreadSound(p, p.threads[r]);
      assert r in Holders(p, e);
      assert PlaceSound(p, e) && CountSound(p, e);
    }
  }
}
