/** The operations of the profile cache class are the steps of CacheBudget: what a Put, Delete,
    Close or Get does to the cache and to the process counter is one, or two, of its steps on the
    cache's place among any others.  So the bounds proved there for every interleaving of those
    steps are bounds on these operations. */
module CacheSteps {
  import B = CacheBudget
  import opened ProfileCache

  /** Cache c of the process is this one, with no operation under way. */
  ghost predicate Abstracts(p: B.Process, c: nat, cache: Cache, process: ProcessCounter)
    reads cache, process
  {
    && c < |p.caches| && p.counter == process.total
    && p.caches[c] == B.CacheState(cache.entries, cache.bytes, cache.maxBytes, cache.closed, B.Free)
  }

  ghost predicate Runs(p: B.Process, acts: seq<B.Action>, q: B.Process)
    decreases |acts|
  {
    if acts == [] then q == p else B.Enabled(p, acts[0]) && Runs(B.Apply(p, acts[0]), acts[1..], q)
  }

  lemma RunsOne(p: B.Process, a: B.Action)
    requires B.Enabled(p, a)
    ensures Runs(p, [a], B.Apply(p, a))
  {
    assert [a][1..] == [];
  }

  lemma RunsTwo(p: B.Process, a: B.Action, b: B.Action)
    requires B.Enabled(p, a) && B.Enabled(B.Apply(p, a), b)
    ensures Runs(p, [a, b], B.Apply(B.Apply(p, a), b))
  {
    assert [a, b][1..] == [b];
    RunsOne(B.Apply(p, a), b);
  }

  /** A Put is a reservation and then its application or its rollback; a Put refused before the
      reservation is no step. */
  function PutActs(c: nat, key: Key, data: Bytes, meta: Meta, keep: set<Key>, reply: Reply): seq<B.Action> {
    match reply
    case Ok => [B.PutReserve(c, key, data, meta, keep), B.PutApply(c)]
    case ProcessFull => [B.PutReserve(c, key, data, meta, keep), B.PutRollback(c)]
    case _ => []
  }

  lemma SetTwice(caches: seq<B.CacheState>, c: nat, x: B.CacheState, y: B.CacheState)
    requires c < |caches|
    ensures caches[c := x][c := y] == caches[c := y] && caches[c := caches[c]] == caches
  {
  }

  lemma ApplyIs(p: B.Process, c: nat, s: B.CacheState, next: seq<Entry>, delta: int)
    requires c < |p.caches| && s.pending == B.Free
    ensures var mid := B.Process(p.counter + delta, p.caches[c := s.(pending := B.Reserved(next, delta))]);
            && B.Enabled(mid, B.PutApply(c))
            && B.Apply(mid, B.PutApply(c))
               == B.Process(p.counter + delta, p.caches[c := s.(entries := next, bytes := s.bytes + delta)])
  {
    SetTwice(p.caches, c, s.(pending := B.Reserved(next, delta)), s.(entries := next, bytes := s.bytes + delta));
  }

  lemma RollbackIs(p: B.Process, c: nat, delta: int)
    requires c < |p.caches| && p.caches[c].pending == B.Free
    ensures var mid := B.Process(p.counter + delta, p.caches[c := p.caches[c].(pending := B.Rejected(delta))]);
            B.Enabled(mid, B.PutRollback(c)) && B.Apply(mid, B.PutRollback(c)) == p
  {
    SetTwice(p.caches, c, p.caches[c].(pending := B.Rejected(delta)), p.caches[c]);
  }

  /** Whether a Put's growth is over the budget. */
  predicate OverBudget(p: B.Process, delta: int) {
    delta > 0 && p.counter + delta > PROCESS_BYTES
  }

  lemma ReserveIs(p: B.Process, c: nat, key: Key, data: Bytes, meta: Meta, keep: set<Key>, next: seq<Entry>, delta: int)
    requires B.Enabled(p, B.PutReserve(c, key, data, meta, keep))
    requires next == B.NextEntries(p.caches[c], key, data, meta) && delta == Size(next) - p.caches[c].bytes
    ensures B.Apply(p, B.PutReserve(c, key, data, meta, keep))
            == B.Process(p.counter + delta,
                         p.caches[c := p.caches[c].(pending := if OverBudget(p, delta) then B.Rejected(delta) else B.Reserved(next, delta))])
  {
    hide B.NextEntries;
  }

  /** What the two steps of a Put come to. */
  lemma ReserveThenFinish(p: B.Process, c: nat, key: Key, data: Bytes, meta: Meta, keep: set<Key>, next: seq<Entry>, delta: int)
    requires B.Enabled(p, B.PutReserve(c, key, data, meta, keep))
    requires c < |p.caches| && p.caches[c].pending == B.Free
    requires next == B.NextEntries(p.caches[c], key, data, meta) && delta == Size(next) - p.caches[c].bytes
    ensures var reserve, s := B.PutReserve(c, key, data, meta, keep), p.caches[c];
            if OverBudget(p, delta) then Runs(p, [reserve, B.PutRollback(c)], p)
            else Runs(p, [reserve, B.PutApply(c)],
                      B.Process(p.counter + delta, p.caches[c := s.(entries := next, bytes := s.bytes + delta)]))
  {
    hide Runs, B.NextEntries, B.Apply, B.Enabled;
    ReserveIs(p, c, key, data, meta, keep, next, delta);
    if OverBudget(p, delta) {
      RollbackIs(p, c, delta);
      RunsTwo(p, B.PutReserve(c, key, data, meta, keep), B.PutRollback(c));
    } else {
      ApplyIs(p, c, p.caches[c], next, delta);
      RunsTwo(p, B.PutReserve(c, key, data, meta, keep), B.PutApply(c));
    }
  }

  lemma CanReserve(p: B.Process, c: nat, key: Key, data: Bytes, meta: Meta, keep: set<Key>)
    requires B.Idle(p, c) && 0 < |data| <= p.caches[c].maxBytes && !p.caches[c].closed
    requires var others := Without(p.caches[c].entries, key);
             !Blocked(others[..Surplus(others, |data|, p.caches[c].maxBytes)], keep)
    ensures B.Enabled(p, B.PutReserve(c, key, data, meta, keep))
  {
  }

  method Put(cache: Cache, process: ProcessCounter, key: Key, data: Bytes, meta: Meta, keep: set<Key>, ghost p: B.Process, ghost c: nat)
    returns (reply: Reply, ghost q: B.Process)
    requires cache.Valid() && Abstracts(p, c, cache, process)
    modifies cache`entries, cache`bytes, process
    ensures cache.Valid() && Abstracts(q, c, cache, process)
    ensures Runs(p, PutActs(c, key, data, meta, keep, reply), q) && q.caches == p.caches[c := q.caches[c]]
  {
    hide Runs, B.Enabled, OverBudget, Surplus, Without, Size, Blocked, Distinct;
    q := p;
    ghost var s := p.caches[c];
    reply := cache.Put(key, data, meta, keep, process);
    SetTwice(p.caches, c, s, s);
    if reply != Ok && reply != ProcessFull {
      NoStep(p);
      return;
    }
    CanReserve(p, c, key, data, meta, keep);
    ghost var next := B.NextEntries(s, key, data, meta);
    ghost var delta := Size(next) - s.bytes;
    OverBudgetIs(p, delta);
    ReserveThenFinish(p, c, key, data, meta, keep, next, delta);
    if reply == Ok {
      q := B.Process(p.counter + delta, p.caches[c := s.(entries := next, bytes := s.bytes + delta)]);
    }
  }

  lemma OverBudgetIs(p: B.Process, delta: int)
    ensures OverBudget(p, delta) <==> delta > 0 && p.counter + delta > PROCESS_BYTES
  {
  }

  lemma NoStep(p: B.Process)
    ensures Runs(p, [], p)
  {
  }

  method Delete(cache: Cache, process: ProcessCounter, key: Key, ghost p: B.Process, ghost c: nat) returns (ghost q: B.Process)
    requires cache.Valid() && Abstracts(p, c, cache, process)
    modifies cache`entries, cache`bytes, process
    ensures cache.Valid() && Abstracts(q, c, cache, process) && q.caches == p.caches[c := q.caches[c]]
    ensures Runs(p, if Has(old(cache.entries), key) then [B.DeleteSplice(c, key), B.DeleteRelease(c)] else [], q)
  {
    ghost var had := Has(cache.entries, key);
    cache.Delete(key, process);
    q := p;
    if had {
      RunsTwo(p, B.DeleteSplice(c, key), B.DeleteRelease(c));
      q := B.Apply(B.Apply(p, B.DeleteSplice(c, key)), B.DeleteRelease(c));
    } else {
      WithoutAbsent(old(cache.entries), key);
    }
  }

  method Close(cache: Cache, process: ProcessCounter, ghost p: B.Process, ghost c: nat) returns (ghost q: B.Process)
    requires cache.Valid() && Abstracts(p, c, cache, process)
    modifies cache`entries, cache`bytes, cache`closed, process
    ensures cache.Valid() && Abstracts(q, c, cache, process) && q.caches == p.caches[c := q.caches[c]]
    ensures Runs(p, [B.CloseRelease(c), B.CloseClear(c)], q)
  {
    cache.Close(process);
    RunsTwo(p, B.CloseRelease(c), B.CloseClear(c));
    q := B.Apply(B.Apply(p, B.CloseRelease(c)), B.CloseClear(c));
  }

  method Get(cache: Cache, process: ProcessCounter, key: Key, ghost p: B.Process, ghost c: nat)
    returns (data: Bytes, meta: Meta, ok: bool, ghost q: B.Process)
    requires cache.Valid() && Abstracts(p, c, cache, process)
    modifies cache`entries
    ensures cache.Valid() && Abstracts(q, c, cache, process) && q.caches == p.caches[c := q.caches[c]]
    ensures Runs(p, if ok then [B.Touch(c, key)] else [], q)
  {
    data, meta, ok := cache.Get(key);
    q := p;
    if ok {
      RunsOne(p, B.Touch(c, key));
      q := B.Apply(p, B.Touch(c, key));
      OneEntry(old(cache.entries), Entry(key, data, meta));
    }
  }

  lemma OneEntry(es: seq<Entry>, e: Entry)
    requires Distinct(es) && e in es
    ensures forall d | d in es && d.key == e.key :: d == e
  {
  }

  /** What every operation keeps: a process within its budget stays so. */
  lemma {:induction false} RunsKeepInv(p: B.Process, acts: seq<B.Action>, q: B.Process)
    requires B.Inv(p) && Runs(p, acts, q)
    ensures B.Inv(q)
    decreases |acts|
  {
    if acts != [] {
      B.StepKeepsInv(p, acts[0]);
      RunsKeepInv(B.Apply(p, acts[0]), acts[1..], q);
    }
  }
}
