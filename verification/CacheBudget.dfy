/** Many profile caches sharing the process-wide counter of internal/gcpdata/profiler_cache.go.

    Each cache runs one operation at a time under its own mutex, but the operations of different
    caches interleave at their atomic additions to the shared counter: a Put reserves its growth
    before it applies or rolls back, a Delete gives back after it spliced, a Close gives back
    before it clears. */
module CacheBudget {
  import opened ProfileCache

  /** What the cache's current operation has done so far. */
  datatype Pending =
    | Free
    | Reserved(next: seq<Entry>, delta: int)  // added to the counter, not yet to the cache
    | Rejected(delta: int)                    // added to the counter, to be taken off again
    | Spliced(size: int)                      // taken off the cache, not yet off the counter
    | Clearing                                // taken off the counter, not yet off the cache

  datatype CacheState =
    CacheState(entries: seq<Entry>, bytes: int, maxBytes: nat, closed: bool, pending: Pending)

  datatype Process = Process(counter: int, caches: seq<CacheState>)

  datatype Action =
    | Open(maxBytes: nat)
    | Touch(c: nat, key: Key)
    | PutReserve(c: nat, key: Key, data: Bytes, meta: Meta, keep: set<Key>)
    | PutApply(c: nat)
    | PutRollback(c: nat)
    | DeleteSplice(c: nat, key: Key)
    | DeleteRelease(c: nat)
    | CloseRelease(c: nat)
    | CloseClear(c: nat)

  // ---- Steps ----

  predicate Idle(p: Process, c: nat) {
    c < |p.caches| && p.caches[c].pending == Free
  }

  function NextEntries(s: CacheState, key: Key, data: Bytes, meta: Meta): seq<Entry>
    requires |data| <= s.maxBytes
  {
    var others := Without(s.entries, key);
    others[Surplus(others, |data|, s.maxBytes)..] + [Entry(key, data, meta)]
  }

  ghost predicate Enabled(p: Process, a: Action) {
    match a
    case Open(_) => true
    case Touch(c, key) => Idle(p, c) && Has(p.caches[c].entries, key)
    case PutReserve(c, key, data, meta, keep) =>
      && Idle(p, c) && 0 < |data| <= p.caches[c].maxBytes && !p.caches[c].closed
      && var others := Without(p.caches[c].entries, key);
         !Blocked(others[..Surplus(others, |data|, p.caches[c].maxBytes)], keep)
    case PutApply(c) => c < |p.caches| && p.caches[c].pending.Reserved?
    case PutRollback(c) => c < |p.caches| && p.caches[c].pending.Rejected?
    case DeleteSplice(c, key) => Idle(p, c) && Has(p.caches[c].entries, key)
    case DeleteRelease(c) => c < |p.caches| && p.caches[c].pending.Spliced?
    case CloseRelease(c) => Idle(p, c)
    case CloseClear(c) => c < |p.caches| && p.caches[c].pending.Clearing?
  }

  function Set(p: Process, c: nat, s: CacheState, counter: int): Process
    requires c < |p.caches|
  {
    Process(counter, p.caches[c := s])
  }

  ghost function Apply(p: Process, a: Action): Process
    requires Enabled(p, a)
  {
    match a
    case Open(maxBytes) => p.(caches := p.caches + [CacheState([], 0, maxBytes, false, Free)])
    case Touch(c, key) =>
      var s := p.caches[c];
      var e :| e in s.entries && e.key == key;
      Set(p, c, s.(entries := Without(s.entries, key) + [e]), p.counter)
    case PutReserve(c, key, data, meta, keep) =>
      var s := p.caches[c];
      var next := NextEntries(s, key, data, meta);
      var delta := Size(next) - s.bytes;
      var total := p.counter + delta;
      Set(p, c, s.(pending := if delta > 0 && total > PROCESS_BYTES then Rejected(delta) else Reserved(next, delta)), total)
    case PutApply(c) =>
      var s := p.caches[c];
      Set(p, c, s.(entries := s.pending.next, bytes := s.bytes + s.pending.delta, pending := Free), p.counter)
    case PutRollback(c) =>
      Set(p, c, p.caches[c].(pending := Free), p.counter - p.caches[c].pending.delta)
    case DeleteSplice(c, key) =>
      var s := p.caches[c];
      var rest := Without(s.entries, key);
      var size := Size(s.entries) - Size(rest);
      Set(p, c, s.(entries := rest, bytes := s.bytes - size, pending := Spliced(size)), p.counter)
    case DeleteRelease(c) =>
      Set(p, c, p.caches[c].(pending := Free), p.counter - p.caches[c].pending.size)
    case CloseRelease(c) =>
      Set(p, c, p.caches[c].(closed := true, pending := Clearing), p.counter - p.caches[c].bytes)
    case CloseClear(c) =>
      Set(p, c, p.caches[c].(entries := [], bytes := 0, pending := Free), p.counter)
  }

  // ---- The invariant ----

  /** What the counter holds for a cache beyond, or short of, its own byte count. */
  function Owed(s: CacheState): int {
    match s.pending
    case Free => 0
    case Reserved(_, delta) => delta
    case Rejected(delta) => delta
    case Spliced(size) => size
    case Clearing => -s.bytes
  }

  function ToRollBack(s: CacheState): int {
    if s.pending.Rejected? then s.pending.delta else 0
  }

  function SumBytes(cs: seq<CacheState>): int {
    if cs == [] then 0 else SumBytes(cs[..|cs| - 1]) + cs[|cs| - 1].bytes
  }

  function SumOwed(cs: seq<CacheState>): int {
    if cs == [] then 0 else SumOwed(cs[..|cs| - 1]) + Owed(cs[|cs| - 1])
  }

  function SumToRollBack(cs: seq<CacheState>): int {
    if cs == [] then 0 else SumToRollBack(cs[..|cs| - 1]) + ToRollBack(cs[|cs| - 1])
  }

  ghost predicate Sound(s: CacheState) {
    && Distinct(s.entries) && s.bytes == Size(s.entries) && s.bytes <= s.maxBytes
    && (s.closed && !s.pending.Clearing? ==> s.entries == [])
    && (s.pending.Reserved? ==>
          Distinct(s.pending.next) && Size(s.pending.next) == s.bytes + s.pending.delta <= s.maxBytes && !s.closed)
    && (s.pending.Rejected? ==> s.pending.delta > 0)
    && (s.pending.Clearing? ==> s.closed)
    && (s.pending.Spliced? ==> s.pending.size >= 0)
  }

  ghost predicate Inv(p: Process) {
    && (forall c | 0 <= c < |p.caches| :: Sound(p.caches[c]))
    && p.counter == SumBytes(p.caches) + SumOwed(p.caches)
    && p.counter - SumToRollBack(p.caches) <= PROCESS_BYTES
  }

  lemma {:induction false} SumsAfterSet(cs: seq<CacheState>, c: nat, s: CacheState)
    requires c < |cs|
    ensures SumBytes(cs[c := s]) == SumBytes(cs) - cs[c].bytes + s.bytes
    ensures SumOwed(cs[c := s]) == SumOwed(cs) - Owed(cs[c]) + Owed(s)
    ensures SumToRollBack(cs[c := s]) == SumToRollBack(cs) - ToRollBack(cs[c]) + ToRollBack(s)
  {
    var last := |cs| - 1;
    if c == last {
      assert cs[c := s][..last] == cs[..last];
    } else {
      assert cs[c := s][..last] == cs[..last][c := s];
      SumsAfterSet(cs[..last], c, s);
    }
  }

  lemma SumsAfterOpen(cs: seq<CacheState>, s: CacheState)
    requires s.bytes == 0 && s.pending == Free
    ensures SumBytes(cs + [s]) == SumBytes(cs) && SumOwed(cs + [s]) == SumOwed(cs)
    ensures SumToRollBack(cs + [s]) == SumToRollBack(cs)
  {
    assert (cs + [s])[..|cs|] == cs;
  }

  lemma {:induction false} RollBacksArePositive(cs: seq<CacheState>)
    requires forall c | 0 <= c < |cs| :: Sound(cs[c])
    ensures SumToRollBack(cs) >= 0
  {
    if cs != [] {
      RollBacksArePositive(cs[..|cs| - 1]);
    }
  }

  lemma WithoutOne(es: seq<Entry>, key: Key)
    requires Distinct(es) && Has(es, key)
    ensures Distinct(Without(es, key)) && Size(Without(es, key)) <= Size(es)
    ensures forall e | e in es && e.key == key ::
              && Distinct(Without(es, key) + [e])
              && Size(Without(es, key) + [e]) == Size(es)
  {
    var i :| 0 <= i < |es| && es[i].key == key;
    WithoutSplit(es, i);
    WithoutMembers(es, key);
    forall e | e in es && e.key == key
      ensures Distinct(Without(es, key) + [e]) && Size(Without(es, key) + [e]) == Size(es)
    {
      assert e == es[i];
      SizeAppend(Without(es, key), [e]);
      assert forall x | x in Without(es, key) :: x.key != e.key;
    }
  }

  lemma NextIsSound(s: CacheState, key: Key, data: Bytes, meta: Meta)
    requires Sound(s) && |data| <= s.maxBytes
    ensures Distinct(NextEntries(s, key, data, meta))
    ensures Size(NextEntries(s, key, data, meta)) <= s.maxBytes
  {
    var others := Without(s.entries, key);
    NextSound(s.entries, key, Surplus(others, |data|, s.maxBytes), Entry(key, data, meta));
  }

  /** One operation's step on its own cache. */
  lemma StepKeepsCacheSound(p: Process, a: Action)
    requires Enabled(p, a) && !a.Open?
    requires a.c < |p.caches| && Sound(p.caches[a.c])
    ensures Sound(Apply(p, a).caches[a.c])
  {
    var s := p.caches[a.c];
    if a.Touch? || a.DeleteSplice? {
      WithoutOne(s.entries, a.key);
    } else if a.PutReserve? {
      NextIsSound(s, a.key, a.data, a.meta);
    }
  }

  /** Only the acting cache changes, and the counter moves by exactly what is then owed. */
  lemma StepBalances(p: Process, a: Action)
    requires Enabled(p, a) && !a.Open? && Sound(p.caches[a.c])
    requires p.counter - SumToRollBack(p.caches) <= PROCESS_BYTES && SumToRollBack(p.caches) >= 0
    ensures var t := Apply(p, a);
            var s, s' := p.caches[a.c], t.caches[a.c];
            && t.caches == p.caches[a.c := s']
            && t.counter - p.counter == s'.bytes + Owed(s') - s.bytes - Owed(s)
            && t.counter - (SumToRollBack(p.caches) - ToRollBack(s) + ToRollBack(s')) <= PROCESS_BYTES
  {
  }

  lemma StepKeepsInv(p: Process, a: Action)
    requires Inv(p) && Enabled(p, a)
    ensures Inv(Apply(p, a))
  {
    if a.Open? {
      SumsAfterOpen(p.caches, CacheState([], 0, a.maxBytes, false, Free));
    } else {
      RollBacksArePositive(p.caches);
      StepKeepsCacheSound(p, a);
      StepBalances(p, a);
      SumsAfterSet(p.caches, a.c, Apply(p, a).caches[a.c]);
    }
  }

  // ---- Whole runs ----

  ghost predicate IsRun(run: seq<Process>, acts: seq<Action>) {
    && |run| == |acts| + 1
    && run[0] == Process(0, [])
    && forall i {:trigger acts[i]} | 0 <= i < |acts| ::
         Enabled(run[i], acts[i]) && run[i + 1] == Apply(run[i], acts[i])
  }

  /** For any number of caches and any interleaving: the counter is the bytes of all caches plus
      what running operations owe; net of reservations about to be rolled back it never exceeds
      the process budget; every cache stays within its own. */
  lemma {:induction false} BudgetHolds(run: seq<Process>, acts: seq<Action>, i: nat)
    requires IsRun(run, acts) && i < |run|
    ensures Inv(run[i])
  {
    if i > 0 {
      BudgetHolds(run, acts, i - 1);
      assert Enabled(run[i - 1], acts[i - 1]);
      StepKeepsInv(run[i - 1], acts[i - 1]);
    }
  }

  lemma {:induction false} NothingOwedWhenIdle(cs: seq<CacheState>)
    requires forall c | 0 <= c < |cs| :: cs[c].pending == Free
    ensures SumOwed(cs) == 0 && SumToRollBack(cs) == 0
  {
    if cs != [] {
      NothingOwedWhenIdle(cs[..|cs| - 1]);
    }
  }

  /** Between operations the counter is exact: no budget leaks, however many Puts were rejected,
      entries deleted or caches closed. */
  lemma NoBudgetLeaks(run: seq<Process>, acts: seq<Action>, i: nat)
    requires IsRun(run, acts) && i < |run|
    requires forall c | 0 <= c < |run[i].caches| :: run[i].caches[c].pending == Free
    ensures run[i].counter == SumBytes(run[i].caches) <= PROCESS_BYTES
    ensures forall c | 0 <= c < |run[i].caches| ::
              run[i].caches[c].bytes == Size(run[i].caches[c].entries) <= run[i].caches[c].maxBytes
    ensures forall c | 0 <= c < |run[i].caches| && run[i].caches[c].closed :: run[i].caches[c].bytes == 0
  {
    BudgetHolds(run, acts, i);
    NothingOwedWhenIdle(run[i].caches);
    forall c | 0 <= c < |run[i].caches|
      ensures run[i].caches[c].bytes == Size(run[i].caches[c].entries) <= run[i].caches[c].maxBytes
      ensures run[i].caches[c].closed ==> run[i].caches[c].bytes == 0
    {
      assert Sound(run[i].caches[c]);
    }
  }
}
