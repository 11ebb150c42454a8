/** The locked sections of PoolLock, on the mutable map and entries, are the steps of UserPool.  So
    what UserPool proves of every interleaving of its steps holds of the objects: their counts are
    the requests that hold them, and no closed or evicted one is in use. */
module PoolSteps {
  import opened PoolLock
  import U = UserPool

  /** The abstract entry each object stands for. */
  type Ids = map<UserEntry, U.EntryId>

  ghost predicate Matches(x: U.Entry, e: UserEntry)
    reads e
  {
    && x.phase == (if !e.ready then U.Building else if e.failed then U.Failed else U.Ready)
    && x.inflight == e.inflight && x.lastUsed == e.lastUsed
  }

  ghost predicate Named(p: U.Pool, entries: map<Key, UserEntry>, ids: Ids) {
    && p.entries.Keys == entries.Keys
    && (forall k <- entries :: entries[k] in ids && p.entries[k] == ids[entries[k]])
    && (forall d, e | d in ids && e in ids && d != e :: ids[d] != ids[e])
    && (forall e <- ids :: ids[e] in p.heap)
  }

  ghost predicate Abstracts(p: U.Pool, pool: LockedPool, ids: Ids)
    reads pool, ids.Keys
  {
    && p.maxUsers == pool.maxUsers && Named(p, pool.entries, ids)
    && (forall e <- ids :: ids[e] in p.heap && Matches(p.heap[ids[e]], e))
  }

  datatype Taken = Nothing | Took(a: U.Action)

  /** The step that entryFor's locked part is: none when the pool is full. */
  ghost predicate EnterIs(a: Taken, r: U.Thread, key: Key, now: int, id: U.EntryId, hit: bool, full: bool, evicted: bool, evictedKey: Key) {
    a == if full then Nothing
         else if hit then Took(U.Hit(r, key, now))
         else if evicted then Took(U.Replace(r, key, now, id, evictedKey))
         else Took(U.Insert(r, key, now, id))
  }

  ghost predicate Follows(p: U.Pool, a: Taken, q: U.Pool) {
    match a
    case Nothing => q == p
    case Took(step) => U.Enabled(p, step) && q == U.Apply(p, step)
  }

  ghost predicate AllMatch(p: U.Pool, ids: Ids)
    reads ids.Keys
  {
    forall e <- ids :: ids[e] in p.heap && Matches(p.heap[ids[e]], e)
  }

  lemma NamedHas(p: U.Pool, entries: map<Key, UserEntry>, ids: Ids, key: Key)
    requires Named(p, entries, ids)
    ensures key in entries ==> entries[key] in ids && p.entries.Keys == entries.Keys
    ensures forall d <- ids :: ids[d] in p.heap
  {
  }

  lemma HitIs(p: U.Pool, pool: LockedPool, ids: Ids, r: U.Thread, key: Key, now: int)
    requires p.maxUsers == pool.maxUsers && Named(p, pool.entries, ids) && r !in p.threads && key in pool.entries
    requires forall d <- ids :: d != pool.entries[key] ==> Matches(p.heap[ids[d]], d)
    requires Matches(U.Touch(p.heap[ids[pool.entries[key]]], now), pool.entries[key])
    ensures U.Enabled(p, U.Hit(r, key, now)) && Abstracts(U.Apply(p, U.Hit(r, key, now)), pool, ids)
  {
  }

  lemma InsertIs(p: U.Pool, pool: LockedPool, was: map<Key, UserEntry>, ids: Ids, r: U.Thread, key: Key, now: int, e: UserEntry, id: U.EntryId)
    requires p.maxUsers == pool.maxUsers && Named(p, was, ids) && r !in p.threads && AllMatch(p, ids)
    requires key !in was && pool.entries == was[key := e] && |was| < pool.maxUsers
    requires id !in p.heap && e !in ids && Matches(U.Entry(key, U.Building, 1, now, 0), e)
    ensures U.Enabled(p, U.Insert(r, key, now, id)) && Abstracts(U.Apply(p, U.Insert(r, key, now, id)), pool, ids[e := id])
  {
    SameSize(p.entries, was);
  }

  lemma ReplaceIs(p: U.Pool, pool: LockedPool, was: map<Key, UserEntry>, ids: Ids, r: U.Thread, key: Key, now: int, e: UserEntry,
                  id: U.EntryId, victimKey: Key)
    requires p.maxUsers == pool.maxUsers && Named(p, was, ids) && r !in p.threads && AllMatch(p, ids)
    requires key !in was && victimKey in was && was[victimKey].Evictable()
    requires pool.entries == (was - {victimKey})[key := e] && |was| == pool.maxUsers
    requires id !in p.heap && e !in ids && Matches(U.Entry(key, U.Building, 1, now, 0), e)
    ensures U.Enabled(p, U.Replace(r, key, now, id, victimKey))
    ensures Abstracts(U.Apply(p, U.Replace(r, key, now, id, victimKey)), pool, ids[e := id])
  {
    SameSize(p.entries, was);
  }

  lemma SameSize(m: map<Key, U.EntryId>, n: map<Key, UserEntry>)
    requires m.Keys == n.Keys
    ensures |m| == |n|
  {
  }

  method Enter(pool: LockedPool, key: Key, now: int, ghost p: U.Pool, ghost ids: Ids, ghost r: U.Thread, ghost id: U.EntryId)
    returns (e: UserEntry?, evictedKey: Key, evicted: UserEntry?, ghost q: U.Pool, ghost ids': Ids, ghost a: Taken)
    requires |pool.entries| <= pool.maxUsers && Abstracts(p, pool, ids) && r !in p.threads && id !in p.heap
    modifies pool`entries
    modifies if key in pool.entries then {pool.entries[key]} else {}
    ensures |pool.entries| <= pool.maxUsers && Abstracts(q, pool, ids') && Follows(p, a, q)
    ensures EnterIs(a, r, key, now, id, key in old(pool.entries), e == null, evicted != null, evictedKey)
    ensures U.Inv(p) ==> U.Inv(q)
  {
    hide U.Enabled, U.Apply, U.Inv, Named;
    NamedHas(p, pool.entries, ids, key);
    ghost var was := pool.entries;
    e, evictedKey, evicted := pool.Enter(key, now);
    q, ids', a := p, ids, Nothing;
    if e == null {
      return;
    }
    if key in was {
      a := Took(U.Hit(r, key, now));
      HitIs(p, pool, ids, r, key, now);
    } else {
      ids' := ids[e := id];
      ghost var step := MissIs(p, pool, was, ids, r, key, now, e, id, evicted != null, evictedKey);
      a := Took(step);
    }
    q := U.Apply(p, a.a);
    KeepsInv(p, a.a);
  }

  lemma MissIs(p: U.Pool, pool: LockedPool, was: map<Key, UserEntry>, ids: Ids, r: U.Thread, key: Key, now: int, e: UserEntry,
               id: U.EntryId, evicted: bool, victimKey: Key)
    returns (a: U.Action)
    requires p.maxUsers == pool.maxUsers && Named(p, was, ids) && r !in p.threads && AllMatch(p, ids) && key !in was
    requires if evicted then
               victimKey in was && was[victimKey].Evictable() && pool.entries == (was - {victimKey})[key := e] && |was| == pool.maxUsers
             else pool.entries == was[key := e] && |was| < pool.maxUsers
    requires id !in p.heap && e !in ids && Matches(U.Entry(key, U.Building, 1, now, 0), e)
    ensures a == if evicted then U.Replace(r, key, now, id, victimKey) else U.Insert(r, key, now, id)
    ensures U.Enabled(p, a) && Abstracts(U.Apply(p, a), pool, ids[e := id])
  {
    hide U.Enabled, U.Apply, Named, AllMatch, Matches;
    if evicted {
      a := U.Replace(r, key, now, id, victimKey);
      ReplaceIs(p, pool, was, ids, r, key, now, e, id, victimKey);
    } else {
      a := U.Insert(r, key, now, id);
      InsertIs(p, pool, was, ids, r, key, now, e, id);
    }
  }

  lemma KeepsInv(p: U.Pool, a: U.Action)
    requires U.Enabled(p, a)
    ensures U.Inv(p) ==> U.Inv(U.Apply(p, a))
  {
    if U.Inv(p) {
      U.StepKeepsInv(p, a);
    }
  }

  // ---- The sweep and the release ----

  function KeysOf(victims: seq<(Key, UserEntry)>): seq<Key> {
    seq(|victims|, i requires 0 <= i < |victims| => victims[i].0)
  }

  lemma SweepIs(p: U.Pool, pool: LockedPool, was: map<Key, UserEntry>, ids: Ids, r: U.Thread, keys: seq<Key>)
    requires p.maxUsers == pool.maxUsers && Named(p, was, ids) && r !in p.threads && AllMatch(p, ids)
    requires forall i, j | 0 <= i < j < |keys| :: keys[i] != keys[j]
    requires forall k <- keys :: k in was && was[k].Evictable()
    requires pool.entries == was - set k | k in keys
    ensures U.Enabled(p, U.Sweep(r, keys)) && Abstracts(U.Apply(p, U.Sweep(r, keys)), pool, ids)
  {
  }

  lemma LeftBySweep(entries: map<Key, UserEntry>, was: map<Key, UserEntry>, victims: seq<(Key, UserEntry)>)
    requires forall k | k in entries :: k in was && entries[k] == was[k]
    requires forall k | k in was && k !in entries :: (k, was[k]) in victims
    requires forall v | v in victims :: v.0 in was && v.0 !in entries
    ensures entries == was - set k | k in KeysOf(victims)
  {
    forall k | k in was ensures k in entries <==> k !in KeysOf(victims) {
      if k !in entries {
        var i :| 0 <= i < |victims| && victims[i] == (k, was[k]);
        assert KeysOf(victims)[i] == k;
      }
    }
    assert entries.Keys == (was - set k | k in KeysOf(victims)).Keys;
  }

  method TakeIdle(pool: LockedPool, cutoff: int, ghost p: U.Pool, ghost ids: Ids, ghost r: U.Thread)
    returns (victims: seq<(Key, UserEntry)>, ghost q: U.Pool)
    requires Abstracts(p, pool, ids) && r !in p.threads
    modifies pool`entries
    ensures Abstracts(q, pool, ids) && Follows(p, Took(U.Sweep(r, KeysOf(victims))), q)
    ensures U.Inv(p) ==> U.Inv(q)
  {
    hide U.Enabled, U.Apply, U.Inv, Named, Matches;
    ghost var was := pool.entries;
    victims := pool.TakeIdle(cutoff);
    ghost var keys := KeysOf(victims);
    LeftBySweep(pool.entries, was, victims);
    forall k | k in keys ensures k in was && was[k].Evictable() {
      ghost var i :| 0 <= i < |victims| && keys[i] == k;
      assert victims[i] in victims;
    }
    SweepIs(p, pool, was, ids, r, keys);
    q := U.Apply(p, U.Sweep(r, keys));
    KeepsInv(p, U.Sweep(r, keys));
  }

  /** The release, which runs outside the lock. */
  method Release(e: UserEntry, pool: LockedPool, ghost p: U.Pool, ghost ids: Ids, ghost r: U.Thread) returns (ghost q: U.Pool)
    requires Abstracts(p, pool, ids) && e in ids && r in p.threads && p.threads[r] == U.Leaving(ids[e])
    modifies e`inflight
    ensures Abstracts(q, pool, ids) && Follows(p, Took(U.Release(r)), q)
    ensures U.Inv(p) ==> U.Inv(q)
  {
    e.Release();
    q := U.Apply(p, U.Release(r));
    KeepsInv(p, U.Release(r));
  }

  /** So an object's count is the number of requests that hold it, an object in use is not closed,
      and the map is within its cap. */
  lemma CountsAreHolders(p: U.Pool, pool: LockedPool, ids: Ids)
    requires Abstracts(p, pool, ids) && U.Inv(p)
    ensures |pool.entries| <= pool.maxUsers
    ensures forall e <- ids ::
              && e.inflight == |U.Holders(p, ids[e])|
              && (p.heap[ids[e]].closes > 0 ==> e.inflight == 0 && e.ready && !e.failed)
  {
    SameSize(p.entries, pool.entries);
    forall e <- ids
      ensures e.inflight == |U.Holders(p, ids[e])|
      ensures p.heap[ids[e]].closes > 0 ==> e.inflight == 0 && e.ready && !e.failed
    {
      assert U.CountSound(p, ids[e]) && U.PlaceSound(p, ids[e]);
    }
  }
}
