/** The byte-bounded profile LRU of internal/gcpdata/profiler_cache.go. */
module ProfileCache {

  const PROCESS_BYTES: int := 64 * 1024 * 1024

  type Key = string
  type Bytes = seq<bv8>
  type Meta = nat

  datatype Entry = Entry(key: Key, data: Bytes, meta: Meta)

  datatype Reply = Ok | Empty | TooLarge | CacheClosed | WouldEvict | ProcessFull

  // ---- The abstract LRU: a sequence of entries, least recently used first ----

  function Size(es: seq<Entry>): nat {
    if es == [] then 0 else |es[0].data| + Size(es[1..])
  }

  predicate Distinct(es: seq<Entry>) {
    forall i, j | 0 <= i < j < |es| :: es[i].key != es[j].key
  }

  predicate Has(es: seq<Entry>, key: Key) {
    exists i :: 0 <= i < |es| && es[i].key == key
  }

  /** The entries under other keys, in order. */
  function Without(es: seq<Entry>, key: Key): (r: seq<Entry>) {
    if es == [] then []
    else if es[0].key == key then Without(es[1..], key)
    else [es[0]] + Without(es[1..], key)
  }

  /** How many of the others, oldest first, have to go for `size` more bytes to fit: the least
      number that is enough. */
  function Surplus(others: seq<Entry>, size: nat, max: nat): (n: nat)
    requires size <= max
    ensures n <= |others|
    ensures Size(others[n..]) + size <= max
    ensures forall k | 0 <= k < n :: Size(others[k..]) + size > max
    decreases |others|
  {
    if Size(others) + size <= max then 0
    else
      var n := Surplus(others[1..], size, max) + 1;
      assert others[n..] == others[1..][n - 1..];
      assert forall k | 1 <= k < n :: others[k..] == others[1..][k - 1..];
      n
  }

  lemma {:induction false} SizeAppend(a: seq<Entry>, b: seq<Entry>)
    ensures Size(a + b) == Size(a) + Size(b)
  {
    if a == [] {
      assert a + b == b;
    } else {
      assert (a + b)[1..] == a[1..] + b;
      SizeAppend(a[1..], b);
    }
  }

  lemma SizeSplit(es: seq<Entry>, i: nat)
    requires i < |es|
    ensures Size(es) == Size(es[..i]) + |es[i].data| + Size(es[i + 1..])
  {
    assert es == es[..i] + ([es[i]] + es[i + 1..]);
    SizeAppend(es[..i], [es[i]] + es[i + 1..]);
    SizeAppend([es[i]], es[i + 1..]);
  }

  lemma {:induction false} WithoutAbsent(es: seq<Entry>, key: Key)
    requires !Has(es, key)
    ensures Without(es, key) == es
  {
    if es != [] {
      assert es[0].key != key;
      forall i | 0 <= i < |es[1..]| ensures es[1..][i].key != key {
        assert es[1..][i] == es[i + 1];
      }
      WithoutAbsent(es[1..], key);
    }
  }

  lemma {:induction false} WithoutAppend(a: seq<Entry>, b: seq<Entry>, key: Key)
    ensures Without(a + b, key) == Without(a, key) + Without(b, key)
  {
    if a == [] {
      assert a + b == b;
    } else {
      assert (a + b)[1..] == a[1..] + b;
      WithoutAppend(a[1..], b, key);
    }
  }

  lemma WithoutSplit(es: seq<Entry>, i: nat)
    requires Distinct(es) && i < |es|
    ensures Without(es, es[i].key) == es[..i] + es[i + 1..]
    ensures Size(Without(es, es[i].key)) == Size(es) - |es[i].data|
  {
    var key := es[i].key;
    assert es == es[..i] + ([es[i]] + es[i + 1..]);
    WithoutAppend(es[..i], [es[i]] + es[i + 1..], key);
    WithoutAppend([es[i]], es[i + 1..], key);
    WithoutAbsent(es[..i], key);
    WithoutAbsent(es[i + 1..], key);
    SizeSplit(es, i);
    SizeAppend(es[..i], es[i + 1..]);
  }

  lemma {:induction false} WithoutMembers(es: seq<Entry>, key: Key)
    ensures forall e :: e in Without(es, key) <==> e in es && e.key != key
    ensures Distinct(es) ==> Distinct(Without(es, key))
  {
    if es != [] {
      WithoutMembers(es[1..], key);
      assert es == [es[0]] + es[1..];
      if Distinct(es) {
        assert Distinct(es[1..]);
        forall e | e in Without(es[1..], key) ensures e.key != es[0].key {
          assert e in es[1..];
        }
      }
    }
  }

  lemma SizeOfSuffix(es: seq<Entry>, k: nat)
    requires k < |es|
    ensures Size(es[k..]) == |es[k].data| + Size(es[k + 1..])
  {
    assert es[k..] == [es[k]] + es[k + 1..];
  }

  /** Whether eviction would reach an entry the caller needs. */
  ghost predicate Blocked(evicted: seq<Entry>, keep: set<Key>) {
    exists e :: e in evicted && e.key in keep
  }

  // ---- The implementation ----

  /** The process-wide atomic counter. */
  class ProcessCounter {
    var total: int

    constructor ()
      ensures total == 0
    {
      total := 0;
    }

    method Add(delta: int) returns (now: int)
      modifies this
      ensures total == old(total) + delta && now == total
    {
      total := total + delta;
      now := total;
    }
  }

  class Cache {
    var entries: seq<Entry>
    var bytes: int
    var closed: bool
    const maxBytes: nat

    constructor (maxBytes: nat)
      ensures Valid() && entries == [] && !closed && this.maxBytes == maxBytes
    {
      entries, bytes, closed := [], 0, false;
      this.maxBytes := maxBytes;
    }

    ghost predicate Valid()
      reads this
    {
      Distinct(entries) && bytes == Size(entries) && bytes <= maxBytes && (closed ==> entries == [])
    }

    method Index(key: Key) returns (i: int)
      ensures -1 <= i < |entries|
      ensures i >= 0 ==> entries[i].key == key
      ensures i < 0 <==> !Has(entries, key)
    {
      i := 0;
      while i < |entries|
        invariant 0 <= i <= |entries|
        invariant forall j | 0 <= j < i :: entries[j].key != key
      {
        if entries[i].key == key {
          return;
        }
        i := i + 1;
      }
      i := -1;
    }

    /** Get through touch: a hit moves the entry to the most recently used end, and that is all. */
    method Get(key: Key) returns (data: Bytes, meta: Meta, ok: bool)
      requires Valid()
      modifies this`entries
      ensures Valid() && Size(entries) == old(Size(entries))
      ensures ok <==> Has(old(entries), key)
      ensures !ok ==> entries == old(entries)
      ensures ok ==> Entry(key, data, meta) in old(entries)
                     && entries == Without(old(entries), key) + [Entry(key, data, meta)]
    {
      var i := Index(key);
      if i < 0 {
        return [], 0, false;
      }
      var e := entries[i];
      WithoutSplit(entries, i);
      WithoutMembers(entries, key);
      SizeAppend(Without(entries, key), [e]);
      entries := entries[..i] + entries[i + 1..] + [e];
      return e.data, e.meta, true;
    }

    /** Put's eviction loop: walks the entries from the oldest, passing over the key's own, until
        the rest fits, and stops at a kept one.  It stays in bounds. */
    method PlanEviction(key: Key, at: int, size: nat, keep: set<Key>)
      returns (evict: nat, freed: nat, blocked: bool)
      requires Valid() && 0 < size <= maxBytes
      requires -1 <= at < |entries| && (at < 0 <==> !Has(entries, key)) && (at >= 0 ==> entries[at].key == key)
      ensures var others := Without(entries, key);
              var n := Surplus(others, size, maxBytes);
              && (blocked <==> Blocked(others[..n], keep))
              && (!blocked ==> evict <= |entries| && Passed(at, evict) == n && bytes - freed == Size(others[n..]))
    {
      ghost var others := Without(entries, key);
      ghost var n := Surplus(others, size, maxBytes);
      ghost var w := 0;
      OthersSize(entries, key, at);
      evict, freed, blocked := 0, if at >= 0 then |entries[at].data| else 0, false;
      while bytes - freed + size > maxBytes
        invariant 0 <= evict <= |entries| && w == Passed(at, evict)
        invariant w <= n && bytes - freed == Size(others[w..])
        invariant !Blocked(others[..w], keep)
        decreases |entries| - evict
      {
        StillSurplus(others, size, maxBytes, w);
        OtherAt(entries, key, at, evict);
        if evict == at {
          evict := evict + 1;
          continue;
        }
        if entries[evict].key in keep {
          BlockedBy(others, w, n, keep);
          return evict, freed, true;
        }
        SizeOfSuffix(others, w);
        StillUnblocked(others, w, keep);
        freed := freed + |entries[evict].data|;
        evict, w := evict + 1, w + 1;
      }
      SurplusIs(others, size, maxBytes, w);
    }

    /** Put refines the abstract LRU: it drops the shortest sufficient prefix of the other
        entries and appends the new one, never drops a kept entry, and leaves the cache and the
        process counter alone when it is rejected, for exactly the documented reason. */
    method Put(key: Key, data: Bytes, meta: Meta, keep: set<Key>, process: ProcessCounter) returns (reply: Reply)
      requires Valid()
      modifies this`entries, this`bytes, process
      ensures Valid()
      ensures reply == Empty <==> data == []
      ensures reply == TooLarge <==> data != [] && |data| > maxBytes
      ensures reply == CacheClosed <==> 0 < |data| <= maxBytes && closed
      ensures 0 < |data| <= maxBytes && !closed ==>
                var others := Without(old(entries), key);
                var n := Surplus(others, |data|, maxBytes);
                var next := others[n..] + [Entry(key, data, meta)];
                var delta := Size(next) - old(bytes);
                && (reply == WouldEvict <==> Blocked(others[..n], keep))
                && (reply == ProcessFull <==>
                      !Blocked(others[..n], keep) && delta > 0 && old(process.total) + delta > PROCESS_BYTES)
                && (reply == Ok ==> entries == next && process.total == old(process.total) + delta)
      ensures reply != Ok ==> entries == old(entries) && bytes == old(bytes) && process.total == old(process.total)
    {
      var size := |data|;
      if size == 0 {
        return Empty;
      }
      if size > maxBytes {
        return TooLarge;
      }
      if closed {
        return CacheClosed;
      }
      var at := Index(key);
      var evict, freed, blocked := PlanEviction(key, at, size, keep);
      if blocked {
        return WouldEvict;
      }
      ghost var others := Without(entries, key);
      ghost var n := Surplus(others, size, maxBytes);
      var entry := Entry(key, data, meta);
      NextSound(entries, key, n, entry);
      Spliced(entries, key, at, evict);
      var delta := size - freed;
      var total := process.Add(delta);
      if delta > 0 && total > PROCESS_BYTES {
        var _ := process.Add(-delta);
        return ProcessFull;
      }
      var kept := entries[evict..];
      if at >= evict {
        kept := kept[..at - evict] + kept[at - evict + 1..];
      }
      entries := kept + [entry];
      bytes := bytes + delta;
      return Ok;
    }

    /** Delete gives back exactly the entry's bytes. */
    method Delete(key: Key, process: ProcessCounter)
      requires Valid()
      modifies this`entries, this`bytes, process
      ensures Valid()
      ensures entries == Without(old(entries), key)
      ensures process.total - old(process.total) == bytes - old(bytes)
    {
      var i := Index(key);
      if i < 0 {
        WithoutAbsent(entries, key);
        return;
      }
      WithoutSplit(entries, i);
      WithoutMembers(entries, key);
      var size := |entries[i].data|;
      entries := entries[..i] + entries[i + 1..];
      bytes := bytes - size;
      var _ := process.Add(-size);
    }

    method Close(process: ProcessCounter)
      requires Valid()
      modifies this`entries, this`bytes, this`closed, process
      ensures Valid() && closed && entries == []
      ensures process.total == old(process.total) - old(Size(entries))
    {
      closed := true;
      var _ := process.Add(-bytes);
      entries := [];
      bytes := 0;
    }
  }

  /** How many of the other entries lie before position `evict`, when the key's own entry is at
      `at` (or nowhere, if negative). */
  function Passed(at: int, evict: nat): nat {
    if 0 <= at < evict then evict - 1 else evict
  }

  lemma OthersSize(es: seq<Entry>, key: Key, at: int)
    requires Distinct(es)
    requires -1 <= at < |es| && (at < 0 <==> !Has(es, key)) && (at >= 0 ==> es[at].key == key)
    ensures Size(Without(es, key)) == Size(es) - if at >= 0 then |es[at].data| else 0
    ensures |Without(es, key)| == |es| - if at >= 0 then 1 else 0
  {
    if at >= 0 {
      WithoutSplit(es, at);
    } else {
      WithoutAbsent(es, key);
    }
  }

  lemma OtherAt(es: seq<Entry>, key: Key, at: int, evict: nat)
    requires Distinct(es) && Passed(at, evict) < |Without(es, key)|
    requires -1 <= at < |es| && (at < 0 <==> !Has(es, key)) && (at >= 0 ==> es[at].key == key)
    ensures evict < |es|
    ensures evict != at ==> Without(es, key)[Passed(at, evict)] == es[evict]
  {
    if at >= 0 {
      WithoutSplit(es, at);
    } else {
      WithoutAbsent(es, key);
    }
  }

  lemma StillSurplus(others: seq<Entry>, size: nat, max: nat, w: nat)
    requires size <= max && w <= Surplus(others, size, max) && Size(others[w..]) + size > max
    ensures w < Surplus(others, size, max)
  {
  }

  lemma SurplusIs(others: seq<Entry>, size: nat, max: nat, w: nat)
    requires size <= max && w <= Surplus(others, size, max) && Size(others[w..]) + size <= max
    ensures w == Surplus(others, size, max)
  {
  }

  lemma BlockedBy(others: seq<Entry>, w: nat, n: nat, keep: set<Key>)
    requires w < n <= |others| && others[w].key in keep
    ensures Blocked(others[..n], keep)
  {
    assert others[..n][w] == others[w];
  }

  lemma StillUnblocked(others: seq<Entry>, w: nat, keep: set<Key>)
    requires w < |others| && !Blocked(others[..w], keep) && others[w].key !in keep
    ensures !Blocked(others[..w + 1], keep)
  {
    assert others[..w + 1] == others[..w] + [others[w]];
  }

  lemma CutBehind<T>(s: seq<T>, at: nat, cut: nat)
    requires at < cut <= |s|
    ensures (s[..at] + s[at + 1..])[cut - 1..] == s[cut..]
  {
  }

  lemma CutAhead<T>(s: seq<T>, at: nat, cut: nat)
    requires cut <= at < |s|
    ensures (s[..at] + s[at + 1..])[cut..] == s[cut..][..at - cut] + s[cut..][at - cut + 1..]
  {
  }

  /** The two slice deletions leave the other entries from the passed ones on. */
  lemma Spliced(es: seq<Entry>, key: Key, at: int, evict: nat)
    requires Distinct(es) && evict <= |es|
    requires -1 <= at < |es| && (at < 0 <==> !Has(es, key)) && (at >= 0 ==> es[at].key == key)
    ensures Passed(at, evict) <= |Without(es, key)|
    ensures var kept := es[evict..];
            (if at >= evict then kept[..at - evict] + kept[at - evict + 1..] else kept)
            == Without(es, key)[Passed(at, evict)..]
  {
    if at < 0 {
      WithoutAbsent(es, key);
    } else {
      WithoutSplit(es, at);
      if at < evict {
        CutBehind(es, at, evict);
      } else {
        CutAhead(es, at, evict);
      }
    }
  }

  /** The entries after an insert: distinct keys, and the sizes add up. */
  lemma NextSound(es: seq<Entry>, key: Key, n: nat, entry: Entry)
    requires Distinct(es) && n <= |Without(es, key)| && entry.key == key
    ensures var next := Without(es, key)[n..] + [entry];
            Distinct(next) && Size(next) == Size(Without(es, key)[n..]) + |entry.data|
  {
    var rest := Without(es, key)[n..];
    WithoutMembers(es, key);
    SizeAppend(rest, [entry]);
    forall e | e in rest ensures e.key != key {
      assert e in Without(es, key);
    }
  }

  /** An accepted insert keeps every other entry the caller asked to keep. */
  lemma KeptEntriesSurvive(es: seq<Entry>, key: Key, n: nat, keep: set<Key>, e: Entry)
    requires n <= |Without(es, key)| && !Blocked(Without(es, key)[..n], keep)
    requires e in es && e.key != key && e.key in keep
    ensures e in Without(es, key)[n..]
  {
    var others := Without(es, key);
    WithoutMembers(es, key);
    assert others == others[..n] + others[n..];
  }
}
