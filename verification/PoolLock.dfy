/** The sections of internal/server/userpool.go that run under the pool lock, on the map and the
    entries they change in place. */
module PoolLock {

  type Key = nat

  class UserEntry {
    var ready: bool      // the ready channel is closed
    var failed: bool     // buildErr is set
    var inflight: int
    var lastUsed: int

    constructor (now: int)
      ensures !ready && !failed && inflight == 1 && lastUsed == now
    {
      ready, failed, inflight, lastUsed := false, false, 1, now;
    }

    predicate Evictable()
      reads this
    {
      ready && !failed && inflight == 0
    }

    method Finish()
      requires !ready
      modifies this`ready
      ensures ready
    {
      ready := true;
    }

    method Fail()
      requires !ready
      modifies this`ready, this`failed
      ensures ready && failed
    {
      failed := true;
      ready := true;
    }

    method Release()
      modifies this`inflight
      ensures inflight == old(inflight) - 1
    {
      inflight := inflight - 1;
    }
  }

  class LockedPool {
    var entries: map<Key, UserEntry>
    const maxUsers: nat

    constructor (maxUsers: nat)
      ensures entries == map[] && this.maxUsers == maxUsers
    {
      entries := map[];
      this.maxUsers := maxUsers;
    }

    /** The eviction choice: some evictable entry, none of the evictable ones used longer ago. */
    ghost predicate LeastRecentlyUsed(key: Key)
      reads this, entries.Values
    {
      && key in entries && entries[key].Evictable()
      && forall k | k in entries && entries[k].Evictable() :: entries[key].lastUsed <= entries[k].lastUsed
    }

    /** The victim leaves the map and is handed to the caller to close; without one, nothing
        changes and the answer is null. */
    method TakeOneEvictable() returns (oldestKey: Key, oldest: UserEntry?)
      modifies this`entries
      ensures oldest == null <==> forall k | k in old(entries) :: !old(entries)[k].Evictable()
      ensures oldest == null ==> entries == old(entries)
      ensures oldest != null ==> old(LeastRecentlyUsed(oldestKey)) && oldest == old(entries)[oldestKey]
      ensures oldest != null ==> entries == old(entries) - {oldestKey}
    {
      oldestKey, oldest := 0, null;
      var todo := entries.Keys;
      while todo != {}
        invariant todo <= entries.Keys && entries == old(entries)
        invariant oldest == null ==> forall k | k in entries.Keys - todo :: !entries[k].Evictable()
        invariant oldest != null ==> oldestKey in entries.Keys - todo && oldest == entries[oldestKey] && oldest.Evictable()
        invariant oldest != null ==>
                    forall k | k in entries.Keys - todo && entries[k].Evictable() :: oldest.lastUsed <= entries[k].lastUsed
        decreases todo
      {
        var k :| k in todo;
        todo := todo - {k};
        var e := entries[k];
        if !e.Evictable() {
          continue;
        }
        if oldest == null || e.lastUsed < oldest.lastUsed {
          oldestKey, oldest := k, e;
        }
      }
      if oldest == null {
        return;
      }
      entries := entries - {oldestKey};
    }

    /** The locked part of evictIdle: takes out exactly the evictable entries idle since before
        the cutoff, each once. */
    method TakeIdle(cutoff: int) returns (victims: seq<(Key, UserEntry)>)
      modifies this`entries
      ensures forall k | k in old(entries) ::
                k in entries <==> !(old(entries)[k].Evictable() && old(entries)[k].lastUsed < cutoff)
      ensures forall k | k in entries :: k in old(entries) && entries[k] == old(entries)[k]
      ensures forall k | k in old(entries) && k !in entries :: (k, old(entries)[k]) in victims
      ensures forall v | v in victims :: v.0 in old(entries) && v.0 !in entries && v.1 == old(entries)[v.0]
      ensures forall i, j | 0 <= i < j < |victims| :: victims[i].0 != victims[j].0
    {
      victims := [];
      var todo := entries.Keys;
      while todo != {}
        invariant todo <= entries.Keys <= old(entries).Keys
        invariant forall k | k in entries :: entries[k] == old(entries)[k]
        invariant forall k | k in old(entries).Keys - todo ::
                    k in entries <==> !(old(entries)[k].Evictable() && old(entries)[k].lastUsed < cutoff)
        invariant forall k | k in old(entries) && k !in entries :: (k, old(entries)[k]) in victims
        invariant forall v | v in victims :: v.0 in old(entries) && v.0 !in entries && v.1 == old(entries)[v.0]
        invariant forall i, j | 0 <= i < j < |victims| :: victims[i].0 != victims[j].0
        decreases todo
      {
        var k :| k in todo;
        todo := todo - {k};
        var e := entries[k];
        if e.Evictable() && e.lastUsed < cutoff {
          entries := entries - {k};
          victims := victims + [(k, e)];
        }
      }
    }

    /** The miss half of entryFor's locked part: inserts a building entry that already counts the
        caller, evicting first when the pool is at its cap; with nothing evictable the pool is
        full and nothing changes. */
    method Insert(key: Key, now: int) returns (e: UserEntry?, evictedKey: Key, evicted: UserEntry?)
      requires |entries| <= maxUsers && key !in entries
      modifies this`entries
      ensures |entries| <= maxUsers
      ensures e == null ==>
                && evicted == null && entries == old(entries) && |entries| == maxUsers
                && forall k | k in entries :: !old(entries)[k].Evictable()
      ensures e != null ==> fresh(e) && !e.ready && e.inflight == 1 && e.lastUsed == now
      ensures e != null && |old(entries)| < maxUsers ==>
                evicted == null && entries == old(entries)[key := e]
      ensures e != null && |old(entries)| == maxUsers ==>
                && old(LeastRecentlyUsed(evictedKey)) && evicted == old(entries)[evictedKey]
                && entries == (old(entries) - {evictedKey})[key := e]
    {
      e, evictedKey, evicted := null, 0, null;
      ghost var was := entries;
      if |entries| >= maxUsers {
        evictedKey, evicted := TakeOneEvictable();
        if evicted == null {
          return;
        }
        assert was.Keys == entries.Keys + {evictedKey};
      }
      e := new UserEntry(now);
      assert entries[key := e].Keys == entries.Keys + {key};
      entries := entries[key := e];
    }

    /** The locked part of entryFor.  A hit counts the caller in and touches the entry, building
        or not; a miss goes to Insert. */
    method Enter(key: Key, now: int) returns (e: UserEntry?, evictedKey: Key, evicted: UserEntry?)
      requires |entries| <= maxUsers
      modifies this`entries
      modifies if key in entries then {entries[key]} else {}
      ensures |entries| <= maxUsers
      ensures key in old(entries) ==>
                && evicted == null && e == old(entries)[key] && entries == old(entries)
                && old(entries)[key].inflight == old(entries[key].inflight) + 1
                && old(entries)[key].lastUsed == now
                && old(entries)[key].ready == old(entries[key].ready)
                && old(entries)[key].failed == old(entries[key].failed)
      ensures key !in old(entries) && e != null ==>
                fresh(e) && !e.ready && e.inflight == 1 && e.lastUsed == now
      ensures e == null ==>
                && evicted == null && entries == old(entries) && |entries| == maxUsers
                && forall k | k in entries :: !old(entries)[k].Evictable()
      ensures key !in old(entries) && e != null && |old(entries)| < maxUsers ==>
                evicted == null && entries == old(entries)[key := e]
      ensures key !in old(entries) && e != null && |old(entries)| == maxUsers ==>
                && old(LeastRecentlyUsed(evictedKey)) && evicted == old(entries)[evictedKey]
                && entries == (old(entries) - {evictedKey})[key := e]
    {
      if key in entries {
        e := entries[key];
        e.inflight := e.inflight + 1;
        e.lastUsed := now;
        return e, 0, null;
      }
      e, evictedKey, evicted := Insert(key, now);
    }
  }
}
