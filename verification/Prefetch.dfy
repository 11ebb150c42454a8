/** prefetchProfiles of internal/gcpdata/profiler.go: one scan of the listing that fills the
    profile cache with the wanted profiles and never evicts one of them.

    Nobody else uses the cache, or moves the process counter, while the scan runs.  PrefetchOne,
    which starts from any valid cache and any counter, is what holds otherwise: see NilKeepEvicts. */
module Prefetch {
  import opened ProfileCache

  const MAX_SCAN := 20_000

  /** A profile of the listing, under its cache key. */
  datatype Listed = Listed(key: Key, data: Bytes, meta: Meta)

  function EntryOf(p: Listed): Entry {
    Entry(p.key, p.data, p.meta)
  }

  /** How the scan ended early, if it did. */
  datatype Stop = NotStopped | CacheFull | BudgetFull

  datatype Result = Result(cached: nat, skipped: nat, stopped: Stop)

  /** Every wanted entry of the one cache is in the other. */
  ghost predicate KeepsWanted(before: seq<Entry>, after: seq<Entry>, wanted: set<Key>) {
    forall e | e in before && e.key in wanted :: e in after
  }

  lemma KeepsHas(before: seq<Entry>, after: seq<Entry>, wanted: set<Key>, k: Key)
    requires KeepsWanted(before, after, wanted) && k in wanted && Has(before, k)
    ensures Has(after, k)
  {
    var i :| 0 <= i < |before| && before[i].key == k;
    assert before[i] in before;
    HasMember(after, before[i]);
  }

  lemma HasMember(es: seq<Entry>, e: Entry)
    requires e in es
    ensures Has(es, e.key)
  {
  }

  /** A hit leaves the same entries. */
  lemma TouchKeeps(es: seq<Entry>, e: Entry)
    requires Distinct(es) && e in es
    ensures forall d :: d in Without(es, e.key) + [e] <==> d in es
  {
    WithoutMembers(es, e.key);
    OneUnderKey(es, e);
  }

  lemma OneUnderKey(es: seq<Entry>, e: Entry)
    requires Distinct(es) && e in es
    ensures forall d | d in es && d.key == e.key :: d == e
  {
  }

  /** An insert of a missing key keeps what is wanted and adds only its own entry. */
  lemma PutKeeps(es: seq<Entry>, n: nat, e: Entry, wanted: set<Key>)
    requires n <= |Without(es, e.key)| && !Blocked(Without(es, e.key)[..n], wanted) && !Has(es, e.key)
    ensures var after := Without(es, e.key)[n..] + [e];
            KeepsWanted(es, after, wanted) && e in after && forall d | d in after :: d == e || d in es
  {
    var others := Without(es, e.key);
    WithoutMembers(es, e.key);
    forall d | d in es && d.key in wanted ensures d in others[n..] {
      HasMember(es, d);
      KeptEntriesSurvive(es, e.key, n, wanted, d);
    }
    forall d | d in others[n..] ensures d in es {
      assert d in others;
    }
  }

  // ---- Why a profile is not cached ----

  /** No cache would take it: no data, too much of it, or the cache is closed. */
  predicate Unfit(p: Listed, maxBytes: nat, closed: bool) {
    p.data == [] || |p.data| > maxBytes || closed
  }

  /** The entries that have to go, oldest first, for the profile to fit. */
  ghost function Victims(es: seq<Entry>, maxBytes: nat, p: Listed): seq<Entry>
    requires |p.data| <= maxBytes
  {
    var others := Without(es, p.key);
    others[..Surplus(others, |p.data|, maxBytes)]
  }

  /** The entries once it is in. */
  ghost function NextFor(es: seq<Entry>, maxBytes: nat, p: Listed): seq<Entry> {
    if |p.data| > maxBytes then es
    else var others := Without(es, p.key); others[Surplus(others, |p.data|, maxBytes)..] + [EntryOf(p)]
  }

  /** One of them is wanted. */
  ghost predicate CacheIsFull(es: seq<Entry>, maxBytes: nat, p: Listed, wanted: set<Key>) {
    |p.data| <= maxBytes && Blocked(Victims(es, maxBytes, p), wanted)
  }

  /** The growth that is left takes the process over its budget. */
  ghost predicate BudgetIsFull(es: seq<Entry>, maxBytes: nat, total: int, p: Listed, wanted: set<Key>) {
    && |p.data| <= maxBytes && !Blocked(Victims(es, maxBytes, p), wanted)
    && var others := Without(es, p.key);
       var delta := Size(others[Surplus(others, |p.data|, maxBytes)..]) + |p.data| - Size(es);
       delta > 0 && total + delta > PROCESS_BYTES
  }

  lemma GrownBy(es: seq<Entry>, key: Key, n: nat, e: Entry)
    requires n <= |Without(es, key)|
    ensures Size(Without(es, key)[n..] + [e]) == Size(Without(es, key)[n..]) + |e.data|
  {
    SizeAppend(Without(es, key)[n..], [e]);
  }

  /** The answer to a Put of a missing key that asks to keep what is wanted. */
  ghost predicate Replies(es: seq<Entry>, maxBytes: nat, closed: bool, total: int, p: Listed, wanted: set<Key>, reply: Reply) {
    if Unfit(p, maxBytes, closed) then reply == Empty || reply == TooLarge || reply == CacheClosed
    else if CacheIsFull(es, maxBytes, p, wanted) then reply == WouldEvict
    else if BudgetIsFull(es, maxBytes, total, p, wanted) then reply == ProcessFull
    else reply == Ok
  }

  method PutWanted(p: Listed, wanted: set<Key>, cache: Cache, process: ProcessCounter) returns (reply: Reply)
    requires cache.Valid() && !Has(cache.entries, p.key)
    modifies cache`entries, cache`bytes, process
    ensures cache.Valid() && KeepsWanted(old(cache.entries), cache.entries, wanted)
    ensures Replies(old(cache.entries), cache.maxBytes, cache.closed, old(process.total), p, wanted, reply)
    ensures reply == Ok ==>
              && cache.entries == NextFor(old(cache.entries), cache.maxBytes, p) && EntryOf(p) in cache.entries
              && process.total == old(process.total) + Size(cache.entries) - Size(old(cache.entries))
              && forall e | e in cache.entries :: e in old(cache.entries) || e == EntryOf(p)
    ensures reply != Ok ==> cache.entries == old(cache.entries) && process.total == old(process.total)
  {
    ghost var others := Without(cache.entries, p.key);
    reply := cache.Put(p.key, p.data, p.meta, wanted, process);
    if !Unfit(p, cache.maxBytes, cache.closed) {
      ghost var n := Surplus(others, |p.data|, cache.maxBytes);
      GrownBy(old(cache.entries), p.key, n, EntryOf(p));
      if reply == Ok {
        PutKeeps(old(cache.entries), n, EntryOf(p), wanted);
      }
    }
  }

  /** The step for one wanted profile, from any valid cache: a hit or an insert counts it as cached;
      a full cache or process budget stops the scan; any other refusal skips the profile.  Nothing
      wanted goes, and nothing but the profile comes. */
  method PrefetchOne(p: Listed, wanted: set<Key>, cache: Cache, process: ProcessCounter) returns (reply: Reply)
    requires cache.Valid()
    modifies cache`entries, cache`bytes, process
    ensures cache.Valid() && KeepsWanted(old(cache.entries), cache.entries, wanted)
    ensures p.key in wanted ==>
              var t := TurnOf(p, wanted, old(cache.entries), cache.maxBytes, cache.closed, old(process.total));
              cache.entries == t.entries && process.total == t.total
    ensures forall e | e in cache.entries :: e in old(cache.entries) || (reply == Ok && e == EntryOf(p))
    ensures reply == Ok ==> if Has(old(cache.entries), p.key) then forall e :: e in cache.entries <==> e in old(cache.entries)
                            else EntryOf(p) in cache.entries
    ensures process.total - old(process.total) == cache.bytes - old(cache.bytes)
    ensures reply != Ok ==> cache.entries == old(cache.entries) && process.total == old(process.total)
    ensures if Has(old(cache.entries), p.key) then reply == Ok
            else Replies(old(cache.entries), cache.maxBytes, cache.closed, old(process.total), p, wanted, reply)
  {
    hide CacheIsFull, BudgetIsFull, Unfit, NextFor;
    var data, meta, hit := cache.Get(p.key);
    if hit {
      TouchKeeps(old(cache.entries), Entry(p.key, data, meta));
      EntryAtIs(old(cache.entries), Entry(p.key, data, meta));
      return Ok;
    }
    reply := PutWanted(p, wanted, cache, process);
  }

  // ---- The whole scan ----

  /** What became of a profile the scan looked at. */
  datatype Fate = NotWanted | Kept | Skipped | Stopping

  /** How many of the first n met this fate. */
  function Count(fates: seq<Fate>, n: nat, fate: Fate): nat
    requires n <= |fates|
  {
    if n == 0 then 0 else Count(fates, n - 1, fate) + if fates[n - 1] == fate then 1 else 0
  }

  lemma {:induction false} CountOfPrefix(fates: seq<Fate>, f: Fate, n: nat, fate: Fate)
    requires n <= |fates|
    ensures Count(fates + [f], n, fate) == Count(fates, n, fate)
  {
    if n > 0 {
      CountOfPrefix(fates, f, n - 1, fate);
    }
  }

  lemma CountSnoc(fates: seq<Fate>, f: Fate, fate: Fate)
    ensures Count(fates + [f], |fates| + 1, fate) == Count(fates, |fates|, fate) + if f == fate then 1 else 0
  {
    CountOfPrefix(fates, f, |fates|, fate);
  }

  /** The wanted profiles found among the first n looked at. */
  function Found(fates: seq<Fate>, n: nat): nat
    requires n <= |fates|
  {
    Count(fates, n, Kept) + Count(fates, n, Skipped)
  }

  /** Every profile looked at has its fate, in listing order, and is looked at only while a wanted
      one is missing. */
  ghost predicate Looked(listing: seq<Listed>, wanted: set<Key>, fates: seq<Fate>) {
    && |fates| <= |listing| && |fates| <= MAX_SCAN
    && (forall i | 0 <= i < |fates| :: fates[i].NotWanted? <==> listing[i].key !in wanted)
    && (forall i | 0 <= i < |fates| :: fates[i].Stopping? ==> i == |fates| - 1)
    && (forall i | 0 <= i < |fates| :: Found(fates, i) < |wanted|)
  }

  /** What the fates say about the cache: a kept profile is in it at the end, a skipped one is unfit
      and was not in it at the start, and nothing wanted was lost or anything else added. */
  ghost predicate Filled(listing: seq<Listed>, wanted: set<Key>, fates: seq<Fate>, before: seq<Entry>, after: seq<Entry>,
                         maxBytes: nat, closed: bool)
    requires |fates| <= |listing|
  {
    && KeepsWanted(before, after, wanted)
    && (forall i | 0 <= i < |fates| && fates[i].Kept? :: Has(after, listing[i].key))
    && (forall i | 0 <= i < |fates| && fates[i].Skipped? :: Unfit(listing[i], maxBytes, closed) && !Has(before, listing[i].key))
    && (forall i | 0 <= i < |fates| && fates[i].Stopping? :: !Has(before, listing[i].key))
    && (forall e | e in after :: e in before || KeptAs(listing, fates, e))
  }

  ghost predicate KeptAs(listing: seq<Listed>, fates: seq<Fate>, e: Entry)
    requires |fates| <= |listing|
  {
    exists i :: 0 <= i < |fates| && fates[i].Kept? && EntryOf(listing[i]) == e
  }

  /** The counts, and why the scan ended where it did. */
  ghost predicate Accounted(listing: seq<Listed>, wanted: set<Key>, fates: seq<Fate>, res: Result, after: seq<Entry>,
                            maxBytes: nat, total: int)
    requires |fates| <= |listing|
  {
    && res.cached == Count(fates, |fates|, Kept) && res.skipped == Count(fates, |fates|, Skipped)
    && (!res.stopped.NotStopped? <==> fates != [] && fates[|fates| - 1].Stopping?)
    && match res.stopped
       case NotStopped => |fates| == |listing| || |fates| == MAX_SCAN || Found(fates, |fates|) == |wanted|
       case CacheFull => fates != [] && CacheIsFull(after, maxBytes, listing[|fates| - 1], wanted)
       case BudgetFull => fates != [] && BudgetIsFull(after, maxBytes, total, listing[|fates| - 1], wanted)
  }

  lemma LookedMore(listing: seq<Listed>, wanted: set<Key>, fates: seq<Fate>, fate: Fate)
    requires Looked(listing, wanted, fates) && |fates| < |listing| && |fates| < MAX_SCAN
    requires forall i | 0 <= i < |fates| :: !fates[i].Stopping?
    requires Found(fates, |fates|) < |wanted| && (fate.NotWanted? <==> listing[|fates|].key !in wanted)
    ensures Looked(listing, wanted, fates + [fate])
    ensures Found(fates + [fate], |fates| + 1) == Found(fates, |fates|) + if fate.Kept? || fate.Skipped? then 1 else 0
  {
    var fates' := fates + [fate];
    CountSnoc(fates, fate, Kept);
    CountSnoc(fates, fate, Skipped);
    forall i | 0 <= i < |fates'| ensures Found(fates', i) < |wanted| {
      CountOfPrefix(fates, fate, i, Kept);
      CountOfPrefix(fates, fate, i, Skipped);
      assert Found(fates', i) == Found(fates, i);
    }
  }

  lemma FilledNothing(listing: seq<Listed>, wanted: set<Key>, es: seq<Entry>, maxBytes: nat, closed: bool)
    ensures Filled(listing, wanted, [], es, es, maxBytes, closed)
  {
  }

  lemma FilledMore(listing: seq<Listed>, wanted: set<Key>, fates: seq<Fate>, fate: Fate, first: seq<Entry>, before: seq<Entry>,
                   after: seq<Entry>, maxBytes: nat, closed: bool)
    requires |fates| < |listing| && Looked(listing, wanted, fates)
    requires Filled(listing, wanted, fates, first, before, maxBytes, closed)
    requires KeepsWanted(before, after, wanted)
    requires if fate.NotWanted? then after == before else listing[|fates|].key in wanted
    requires fate.Kept? ==> Has(after, listing[|fates|].key)
    requires fate.Skipped? || fate.Stopping? ==> after == before && !Has(before, listing[|fates|].key)
    requires fate.Skipped? ==> Unfit(listing[|fates|], maxBytes, closed)
    requires forall e | e in after :: e in before || (fate.Kept? && e == EntryOf(listing[|fates|]))
    ensures Filled(listing, wanted, fates + [fate], first, after, maxBytes, closed)
  {
    var fates' := fates + [fate];
    forall i | 0 <= i < |fates'| && fates'[i].Kept? ensures Has(after, listing[i].key) {
      if i < |fates| {
        assert Has(before, listing[i].key) && listing[i].key in wanted;
        KeepsHas(before, after, wanted, listing[i].key);
      }
    }
    forall i | 0 <= i < |fates'| && (fates'[i].Skipped? || fates'[i].Stopping?) ensures !Has(first, listing[i].key) {
      if i == |fates| && Has(first, listing[i].key) {
        KeepsHas(first, before, wanted, listing[i].key);
      }
    }
    forall e | e in after ensures e in first || KeptAs(listing, fates', e) {
      if e !in before {
        assert fates'[|fates|].Kept?;
      } else if KeptAs(listing, fates, e) {
        var i :| 0 <= i < |fates| && fates[i].Kept? && EntryOf(listing[i]) == e;
        assert fates'[i].Kept?;
      }
    }
  }

  // ---- What the input alone decides ----

  ghost function EntryAt(es: seq<Entry>, key: Key): Entry
    requires Has(es, key)
  {
    var i :| 0 <= i < |es| && es[i].key == key;
    es[i]
  }

  /** One turn: the profile's fate, and the cache and counter after it. */
  datatype Turn = Turn(fate: Fate, entries: seq<Entry>, total: int)

  ghost function TurnOf(p: Listed, wanted: set<Key>, es: seq<Entry>, maxBytes: nat, closed: bool, total: int): Turn {
    if p.key !in wanted then Turn(NotWanted, es, total)
    else if Has(es, p.key) then Turn(Kept, Without(es, p.key) + [EntryAt(es, p.key)], total)
    else if Unfit(p, maxBytes, closed) then Turn(Skipped, es, total)
    else if CacheIsFull(es, maxBytes, p, wanted) || BudgetIsFull(es, maxBytes, total, p, wanted) then Turn(Stopping, es, total)
    else
      var next := NextFor(es, maxBytes, p);
      Turn(Kept, next, total + Size(next) - Size(es))
  }

  /** The fates of the profiles from position i on, when `found` wanted ones were found before. */
  ghost function FatesFrom(listing: seq<Listed>, wanted: set<Key>, es: seq<Entry>, maxBytes: nat, closed: bool, total: int,
                           i: nat, found: nat): seq<Fate>
    decreases MAX_SCAN - i
  {
    if i >= MAX_SCAN || found >= |wanted| || i >= |listing| then []
    else
      var t := TurnOf(listing[i], wanted, es, maxBytes, closed, total);
      [t.fate] + if t.fate.Stopping? then []
                 else FatesFrom(listing, wanted, t.entries, maxBytes, closed, t.total, i + 1,
                                found + if t.fate.NotWanted? then 0 else 1)
  }

  lemma EntryAtIs(es: seq<Entry>, e: Entry)
    requires Distinct(es) && e in es
    ensures Has(es, e.key) && EntryAt(es, e.key) == e
  {
    HasMember(es, e);
    OneUnderKey(es, e);
    assert EntryAt(es, e.key) in es;
  }

  lemma Unwanted(p: Listed, wanted: set<Key>, es: seq<Entry>, maxBytes: nat, closed: bool, total: int)
    ensures p.key !in wanted ==> TurnOf(p, wanted, es, maxBytes, closed, total) == Turn(NotWanted, es, total)
    ensures KeepsWanted(es, es, wanted)
  {
  }

  lemma NoMoreFates(listing: seq<Listed>, wanted: set<Key>, es: seq<Entry>, maxBytes: nat, closed: bool, total: int, i: nat, found: nat)
    requires i >= MAX_SCAN || found >= |wanted| || i >= |listing|
    ensures FatesFrom(listing, wanted, es, maxBytes, closed, total, i, found) == []
  {
  }

  lemma OneTurn(listing: seq<Listed>, wanted: set<Key>, es: seq<Entry>, maxBytes: nat, closed: bool, total: int, i: nat, found: nat, t: Turn)
    requires i < MAX_SCAN && found < |wanted| && i < |listing|
    requires t == TurnOf(listing[i], wanted, es, maxBytes, closed, total)
    ensures FatesFrom(listing, wanted, es, maxBytes, closed, total, i, found)
            == [t.fate] + if t.fate.Stopping? then []
                          else FatesFrom(listing, wanted, t.entries, maxBytes, closed, t.total, i + 1,
                                         found + if t.fate.NotWanted? then 0 else 1)
  {
    hide TurnOf;
  }

  // ---- The scan's progress ----

  /** The cache and the counter at the start. */
  datatype Start = Start(entries: seq<Entry>, total: int)

  ghost function AllFates(listing: seq<Listed>, wanted: set<Key>, start: Start, maxBytes: nat, closed: bool): seq<Fate> {
    FatesFrom(listing, wanted, start.entries, maxBytes, closed, start.total, 0, 0)
  }

  /** The scan has looked at |fates| profiles without a stop, and the rest will give the other
      fates. */
  ghost predicate Progress(listing: seq<Listed>, wanted: set<Key>, start: Start, fates: seq<Fate>, es: seq<Entry>,
                           maxBytes: nat, closed: bool, total: int, found: nat)
  {
    && Looked(listing, wanted, fates) && Found(fates, |fates|) == found
    && (forall i | 0 <= i < |fates| :: !fates[i].Stopping?)
    && Filled(listing, wanted, fates, start.entries, es, maxBytes, closed)
    && fates + FatesFrom(listing, wanted, es, maxBytes, closed, total, |fates|, found)
       == AllFates(listing, wanted, start, maxBytes, closed)
  }

  lemma ProgressNone(listing: seq<Listed>, wanted: set<Key>, start: Start, maxBytes: nat, closed: bool)
    ensures Progress(listing, wanted, start, [], start.entries, maxBytes, closed, start.total, 0)
  {
    hide FatesFrom, Filled;
    FilledNothing(listing, wanted, start.entries, maxBytes, closed);
  }

  lemma TurnFacts(p: Listed, wanted: set<Key>, es: seq<Entry>, maxBytes: nat, closed: bool, total: int)
    ensures var t := TurnOf(p, wanted, es, maxBytes, closed, total);
            && (t.fate.NotWanted? <==> p.key !in wanted)
            && (t.fate.NotWanted? ==> t.entries == es)
            && (t.fate.Kept? ==> Has(t.entries, p.key))
            && (t.fate.Skipped? ==> t.entries == es && !Has(es, p.key) && Unfit(p, maxBytes, closed))
            && (t.fate.Stopping? ==> t.entries == es && !Has(es, p.key))
  {
    var t := TurnOf(p, wanted, es, maxBytes, closed, total);
    if t.fate.Kept? {
      assert t.entries[|t.entries| - 1].key == p.key;
    }
  }

  lemma ProgressMore(listing: seq<Listed>, wanted: set<Key>, start: Start, fates: seq<Fate>, es: seq<Entry>, maxBytes: nat,
                     closed: bool, total: int, found: nat, t: Turn)
    requires Progress(listing, wanted, start, fates, es, maxBytes, closed, total, found)
    requires |fates| < |listing| && |fates| < MAX_SCAN && found < |wanted|
    requires t == TurnOf(listing[|fates|], wanted, es, maxBytes, closed, total) && KeepsWanted(es, t.entries, wanted)
    requires forall e | e in t.entries :: e in es || (t.fate.Kept? && e == EntryOf(listing[|fates|]))
    ensures Looked(listing, wanted, fates + [t.fate])
    ensures Filled(listing, wanted, fates + [t.fate], start.entries, t.entries, maxBytes, closed)
    ensures if t.fate.Stopping? then fates + [t.fate] == AllFates(listing, wanted, start, maxBytes, closed)
            else Progress(listing, wanted, start, fates + [t.fate], t.entries, maxBytes, closed, t.total,
                          found + if t.fate.NotWanted? then 0 else 1)
  {
    hide TurnOf, FatesFrom, Looked, Filled, Has, Unfit, KeepsWanted, Found;
    TurnFacts(listing[|fates|], wanted, es, maxBytes, closed, total);
    OneTurn(listing, wanted, es, maxBytes, closed, total, |fates|, found, t);
    var rest := if t.fate.Stopping? then []
                else FatesFrom(listing, wanted, t.entries, maxBytes, closed, t.total, |fates| + 1,
                               found + if t.fate.NotWanted? then 0 else 1);
    assert fates + ([t.fate] + rest) == fates + [t.fate] + rest;
    LookedMore(listing, wanted, fates, t.fate);
    FilledMore(listing, wanted, fates, t.fate, start.entries, es, t.entries, maxBytes, closed);
  }

  lemma ProgressEnds(listing: seq<Listed>, wanted: set<Key>, start: Start, fates: seq<Fate>, es: seq<Entry>, maxBytes: nat,
                     closed: bool, total: int, found: nat)
    requires Progress(listing, wanted, start, fates, es, maxBytes, closed, total, found)
    requires |fates| >= MAX_SCAN || found >= |wanted| || |fates| >= |listing|
    ensures Looked(listing, wanted, fates) && Filled(listing, wanted, fates, start.entries, es, maxBytes, closed)
    ensures fates == AllFates(listing, wanted, start, maxBytes, closed) && Found(fates, |fates|) == found
    ensures forall i | 0 <= i < |fates| :: !fates[i].Stopping?
  {
    hide FatesFrom, Looked, Filled;
    NoMoreFates(listing, wanted, es, maxBytes, closed, total, |fates|, found);
  }

  /** The turn of the loop for a wanted profile. */
  method PrefetchWanted(p: Listed, wanted: set<Key>, cache: Cache, process: ProcessCounter) returns (fate: Fate, stopped: Stop)
    requires cache.Valid() && p.key in wanted
    modifies cache`entries, cache`bytes, process
    ensures cache.Valid() && KeepsWanted(old(cache.entries), cache.entries, wanted)
    ensures Turn(fate, cache.entries, process.total)
            == TurnOf(p, wanted, old(cache.entries), cache.maxBytes, cache.closed, old(process.total))
    ensures forall e | e in cache.entries :: e in old(cache.entries) || (fate.Kept? && e == EntryOf(p))
    ensures !fate.NotWanted? && (fate.Kept? ==> Has(cache.entries, p.key))
    ensures !fate.Kept? ==> cache.entries == old(cache.entries) && !Has(old(cache.entries), p.key)
    ensures fate.Skipped? ==> Unfit(p, cache.maxBytes, cache.closed)
    ensures fate.Stopping? <==> !stopped.NotStopped?
    ensures stopped.CacheFull? ==> CacheIsFull(cache.entries, cache.maxBytes, p, wanted)
    ensures stopped.BudgetFull? ==> BudgetIsFull(cache.entries, cache.maxBytes, process.total, p, wanted)
  {
    var reply := PrefetchOne(p, wanted, cache, process);
    match reply {
      case Ok => return Kept, NotStopped;
      case WouldEvict => return Stopping, CacheFull;
      case ProcessFull => return Stopping, BudgetFull;
      case _ => return Skipped, NotStopped;
    }
  }

  /** Why the scan stops at a profile. */
  ghost predicate Stopped(stopped: Stop, es: seq<Entry>, maxBytes: nat, total: int, p: Listed, wanted: set<Key>) {
    match stopped
    case NotStopped => false
    case CacheFull => CacheIsFull(es, maxBytes, p, wanted)
    case BudgetFull => BudgetIsFull(es, maxBytes, total, p, wanted)
  }

  /** The turn of the loop. */
  method LookAt(listing: seq<Listed>, wanted: set<Key>, cache: Cache, process: ProcessCounter, scanned: nat,
                ghost start: Start, ghost fates: seq<Fate>, ghost found: nat)
    returns (fate: Fate, stopped: Stop)
    requires cache.Valid() && scanned == |fates| < |listing| && scanned < MAX_SCAN && found < |wanted|
    requires Progress(listing, wanted, start, fates, cache.entries, cache.maxBytes, cache.closed, process.total, found)
    modifies cache`entries, cache`bytes, process
    ensures cache.Valid() && (fate.NotWanted? <==> listing[scanned].key !in wanted)
    ensures Looked(listing, wanted, fates + [fate])
    ensures Filled(listing, wanted, fates + [fate], start.entries, cache.entries, cache.maxBytes, cache.closed)
    ensures if fate.Stopping? then
              && fates + [fate] == AllFates(listing, wanted, start, cache.maxBytes, cache.closed)
              && Stopped(stopped, cache.entries, cache.maxBytes, process.total, listing[scanned], wanted)
            else Progress(listing, wanted, start, fates + [fate], cache.entries, cache.maxBytes, cache.closed, process.total,
                          found + if fate.NotWanted? then 0 else 1)
  {
    hide Progress, AllFates, TurnOf, Looked, Filled, KeepsWanted, Has, Unfit, CacheIsFull, BudgetIsFull;
    var p := listing[scanned];
    ghost var before, total := cache.entries, process.total;
    fate, stopped := NotWanted, NotStopped;
    if p.key in wanted {
      fate, stopped := PrefetchWanted(p, wanted, cache, process);
    } else {
      Unwanted(p, wanted, before, cache.maxBytes, cache.closed, total);
    }
    ProgressMore(listing, wanted, start, fates, before, cache.maxBytes, cache.closed, total, found,
                 Turn(fate, cache.entries, process.total));
  }

  /** The whole prefetch.  Nothing wanted is ever evicted, and every profile counted as cached is
      in the cache at the end; the scan stops early only at a profile that the cache could take
      only by evicting a wanted one, or the process budget could not take.  The fates, and so how
      far the scan looks, are a function of the input. */
  method PrefetchProfiles(listing: seq<Listed>, wanted: set<Key>, cache: Cache, process: ProcessCounter)
    returns (res: Result, ghost fates: seq<Fate>)
    requires cache.Valid()
    modifies cache`entries, cache`bytes, process
    ensures cache.Valid() && Looked(listing, wanted, fates)
    ensures fates == AllFates(listing, wanted, Start(old(cache.entries), old(process.total)), cache.maxBytes, cache.closed)
    ensures Filled(listing, wanted, fates, old(cache.entries), cache.entries, cache.maxBytes, cache.closed)
    ensures Accounted(listing, wanted, fates, res, cache.entries, cache.maxBytes, process.total)
  {
    hide Progress, AllFates, Looked, Filled, Accounted, Count, Found;
    ghost var start := Start(cache.entries, process.total);
    res, fates := Result(0, 0, NotStopped), [];
    ghost var found := 0;
    ProgressNone(listing, wanted, start, cache.maxBytes, cache.closed);
    CountNone();
    var remaining: nat := |wanted|;
    var scanned := 0;
    while scanned < MAX_SCAN && remaining > 0 && scanned < |listing|
      invariant scanned == |fates| <= |listing| && scanned <= MAX_SCAN && found + remaining == |wanted|
      invariant res.stopped.NotStopped? && cache.Valid()
      invariant Progress(listing, wanted, start, fates, cache.entries, cache.maxBytes, cache.closed, process.total, found)
      invariant res.cached == Count(fates, |fates|, Kept) && res.skipped == Count(fates, |fates|, Skipped)
      decreases |listing| - scanned
    {
      var fate, stopped := LookAt(listing, wanted, cache, process, scanned, start, fates, found);
      scanned := scanned + 1;
      CountSnoc(fates, fate, Kept);
      CountSnoc(fates, fate, Skipped);
      fates := fates + [fate];
      if fate.Stopping? {
        res := res.(stopped := stopped);
        StopAccounted(listing, wanted, fates, res, cache.entries, cache.maxBytes, process.total);
        return;
      }
      if !fate.NotWanted? {
        remaining, found := remaining - 1, found + 1;
        res := if fate.Kept? then res.(cached := res.cached + 1) else res.(skipped := res.skipped + 1);
      }
    }
    ProgressEnds(listing, wanted, start, fates, cache.entries, cache.maxBytes, cache.closed, process.total, found);
    EndAccounted(listing, wanted, fates, res, cache.entries, cache.maxBytes, process.total);
  }

  lemma CountNone()
    ensures Count([], 0, Kept) == 0 && Count([], 0, Skipped) == 0
  {
  }

  lemma StopAccounted(listing: seq<Listed>, wanted: set<Key>, fates: seq<Fate>, res: Result, after: seq<Entry>, maxBytes: nat, total: int)
    requires 0 < |fates| <= |listing| && fates[|fates| - 1].Stopping?
    requires res.cached == Count(fates, |fates|, Kept) && res.skipped == Count(fates, |fates|, Skipped)
    requires Stopped(res.stopped, after, maxBytes, total, listing[|fates| - 1], wanted)
    ensures Accounted(listing, wanted, fates, res, after, maxBytes, total)
  {
  }

  lemma EndAccounted(listing: seq<Listed>, wanted: set<Key>, fates: seq<Fate>, res: Result, after: seq<Entry>, maxBytes: nat, total: int)
    requires |fates| <= |listing| && forall i | 0 <= i < |fates| :: !fates[i].Stopping?
    requires res.cached == Count(fates, |fates|, Kept) && res.skipped == Count(fates, |fates|, Skipped) && res.stopped.NotStopped?
    requires |fates| == |listing| || |fates| == MAX_SCAN || Found(fates, |fates|) == |wanted|
    ensures Accounted(listing, wanted, fates, res, after, maxBytes, total)
  {
  }

  // ---- What the count of cached profiles means ----

  /** The keys of the kept profiles among the first n looked at. */
  ghost function KeptKeys(listing: seq<Listed>, fates: seq<Fate>, n: nat): set<Key>
    requires n <= |fates| <= |listing|
  {
    set i | 0 <= i < n && fates[i].Kept? :: listing[i].key
  }

  /** Two of them have the same key. */
  ghost predicate Repeats(listing: seq<Listed>, fates: seq<Fate>, n: nat)
    requires n <= |fates| <= |listing|
  {
    exists i, j :: 0 <= i < j < n && fates[i].Kept? && fates[j].Kept? && listing[i].key == listing[j].key
  }

  lemma {:induction false} KeptKeysCount(listing: seq<Listed>, fates: seq<Fate>, n: nat)
    requires n <= |fates| <= |listing|
    ensures |KeptKeys(listing, fates, n)| <= Count(fates, n, Kept)
    ensures |KeptKeys(listing, fates, n)| == Count(fates, n, Kept) <==> !Repeats(listing, fates, n)
  {
    hide KeptKeys, Repeats;
    if n == 0 {
      NoneKept(listing, fates);
    }
    if n > 0 {
      KeptKeysCount(listing, fates, n - 1);
      KeptKeysStep(listing, fates, n - 1);
      RepeatsStep(listing, fates, n - 1);
    }
  }

  lemma NoneKept(listing: seq<Listed>, fates: seq<Fate>)
    requires |fates| <= |listing|
    ensures KeptKeys(listing, fates, 0) == {} && !Repeats(listing, fates, 0)
  {
  }

  lemma KeptKeysStep(listing: seq<Listed>, fates: seq<Fate>, n: nat)
    requires n < |fates| <= |listing|
    ensures KeptKeys(listing, fates, n + 1) == KeptKeys(listing, fates, n) + if fates[n].Kept? then {listing[n].key} else {}
  {
  }

  lemma RepeatsStep(listing: seq<Listed>, fates: seq<Fate>, n: nat)
    requires n < |fates| <= |listing|
    ensures Repeats(listing, fates, n + 1) <==>
              Repeats(listing, fates, n) || (fates[n].Kept? && listing[n].key in KeptKeys(listing, fates, n))
  {
    if fates[n].Kept? && listing[n].key in KeptKeys(listing, fates, n) {
      var i :| 0 <= i < n && fates[i].Kept? && listing[i].key == listing[n].key;
    }
  }

  ghost predicate ListedIn(listing: seq<Listed>, n: nat, k: Key)
    requires n <= |listing|
  {
    exists i :: 0 <= i < n && listing[i].key == k
  }

  /** The wanted profiles that are in the cache. */
  ghost function WantedIn(wanted: set<Key>, es: seq<Entry>): set<Key> {
    set k | k in wanted && Has(es, k)
  }

  /** The wanted profiles that were in the cache already and that the scan did not come to. */
  ghost function Missed(listing: seq<Listed>, wanted: set<Key>, n: nat, before: seq<Entry>): set<Key>
    requires n <= |listing|
  {
    set k | k in wanted && Has(before, k) && !ListedIn(listing, n, k)
  }

  /** How many of the kept profiles the scan had kept before. */
  ghost function Doubles(listing: seq<Listed>, fates: seq<Fate>): nat
    requires |fates| <= |listing|
  {
    KeptKeysCount(listing, fates, |fates|);
    Count(fates, |fates|, Kept) - |KeptKeys(listing, fates, |fates|)|
  }

  ghost predicate ListsWantedTwice(listing: seq<Listed>, wanted: set<Key>) {
    exists i, j :: 0 <= i < j < |listing| && listing[i].key in wanted && listing[i].key == listing[j].key
  }

  lemma HasEntry(es: seq<Entry>, k: Key) returns (e: Entry)
    requires Has(es, k)
    ensures e in es && e.key == k
  {
    var i :| 0 <= i < |es| && es[i].key == k;
    e := es[i];
  }

  /** What is wanted and in the cache at the end was kept by the scan, or was there and missed. */
  lemma CachedSplits(listing: seq<Listed>, wanted: set<Key>, fates: seq<Fate>, before: seq<Entry>, after: seq<Entry>,
                     maxBytes: nat, closed: bool)
    requires Looked(listing, wanted, fates) && Filled(listing, wanted, fates, before, after, maxBytes, closed)
    ensures WantedIn(wanted, after) == KeptKeys(listing, fates, |fates|) + Missed(listing, wanted, |fates|, before)
    ensures KeptKeys(listing, fates, |fates|) !! Missed(listing, wanted, |fates|, before)
  {
    var kept, missed := KeptKeys(listing, fates, |fates|), Missed(listing, wanted, |fates|, before);
    forall k | k in WantedIn(wanted, after) ensures k in kept + missed {
      var e := HasEntry(after, k);
      if e in before {
        HasMember(before, e);
        if ListedIn(listing, |fates|, k) {
          var i :| 0 <= i < |fates| && listing[i].key == k;
          assert fates[i].Kept?;
        }
      } else {
        assert KeptAs(listing, fates, e);
      }
    }
    forall k | k in missed ensures k in WantedIn(wanted, after) {
      KeepsHas(before, after, wanted, k);
    }
    forall k | k in kept ensures k in WantedIn(wanted, after) && k !in missed {
      var i :| 0 <= i < |fates| && fates[i].Kept? && listing[i].key == k;
      assert ListedIn(listing, |fates|, k);
    }
  }

  lemma NoDoubles(listing: seq<Listed>, wanted: set<Key>, fates: seq<Fate>)
    requires Looked(listing, wanted, fates) && !ListsWantedTwice(listing, wanted)
    ensures Doubles(listing, fates) == 0
  {
    KeptKeysCount(listing, fates, |fates|);
  }

  /** The count against the wanted profiles in the cache at the end: short of it by those that were
      cached already and missed, over it by those counted again.  So it is exact if and only if as
      many are missed as counted again; when the listing gives no wanted profile twice, if and only
      if none is missed; and then certainly when no wanted profile was cached before the call.  How
      far the scan looks, and so what it misses, AllFates says of the input. */
  lemma CachedIsExactIff(listing: seq<Listed>, wanted: set<Key>, fates: seq<Fate>, res: Result, before: seq<Entry>,
                         after: seq<Entry>, maxBytes: nat, closed: bool, total: int)
    requires Looked(listing, wanted, fates) && Filled(listing, wanted, fates, before, after, maxBytes, closed)
    requires Accounted(listing, wanted, fates, res, after, maxBytes, total)
    ensures var cached, missed := |WantedIn(wanted, after)|, Missed(listing, wanted, |fates|, before);
            && res.cached + |missed| == cached + Doubles(listing, fates)
            && (res.cached == cached <==> |missed| == Doubles(listing, fates))
            && (!ListsWantedTwice(listing, wanted) ==> (res.cached == cached <==> missed == {}))
            && (!ListsWantedTwice(listing, wanted) && WantedIn(wanted, before) == {} ==> res.cached == cached)
  {
    CachedSplits(listing, wanted, fates, before, after, maxBytes, closed);
    if !ListsWantedTwice(listing, wanted) {
      NoDoubles(listing, wanted, fates);
    }
    assert Missed(listing, wanted, |fates|, before) <= WantedIn(wanted, before);
  }

  // ---- Inputs whose count is not exact ----

  /** A full cache that holds the wanted profile listed second: the first one ends the scan.  The
      cache stays as it was, so the count is 0 with one wanted profile in the cache. */
  lemma FullCacheIsNotCounted(a: Entry, b: Listed, maxBytes: nat, total: int)
    requires a.key != b.key && |a.data| == maxBytes && 0 < |b.data| <= maxBytes
    ensures var listing, wanted := [b, Listed(a.key, a.data, a.meta)], {a.key, b.key};
            && AllFates(listing, wanted, Start([a], total), maxBytes, false) == [Stopping]
            && TurnOf(b, wanted, [a], maxBytes, false, total) == Turn(Stopping, [a], total)
            && Count([Stopping], 1, Kept) == 0 && WantedIn(wanted, [a]) == {a.key}
  {
    var listing, wanted := [b, Listed(a.key, a.data, a.meta)], {a.key, b.key};
    assert [a][1..] == [];
    assert Without([a], b.key) == [a] && Surplus([a], |b.data|, maxBytes) == 1;
    assert a in Victims([a], maxBytes, b);
    assert TurnOf(b, wanted, [a], maxBytes, false, total) == Turn(Stopping, [a], total);
    assert [a][0].key == a.key;
    assert |wanted| == 2;
    OneTurn(listing, wanted, [a], maxBytes, false, total, 0, 0, Turn(Stopping, [a], total));
  }

  /** A wanted profile that is cached and not listed is not counted. */
  lemma UnlistedIsNotCounted(wanted: set<Key>, k: Key, es: seq<Entry>, maxBytes: nat, closed: bool, total: int)
    requires k in wanted && Has(es, k)
    ensures AllFates([], wanted, Start(es, total), maxBytes, closed) == [] && k in WantedIn(wanted, es)
  {
  }

  lemma HitTurn(p: Listed, wanted: set<Key>, es: seq<Entry>, maxBytes: nat, closed: bool, total: int)
    requires p.key in wanted && Has(es, p.key)
    ensures var t := TurnOf(p, wanted, es, maxBytes, closed, total);
            t.fate == Kept && t.total == total && forall k :: Has(t.entries, k) <==> Has(es, k)
  {
    var e := EntryAt(es, p.key);
    var after := Without(es, p.key) + [e];
    WithoutMembers(es, p.key);
    assert after[|after| - 1] == e;
    forall k ensures Has(after, k) <==> Has(es, k) {
      if Has(es, k) && k != p.key {
        var d := HasEntry(es, k);
        assert d in after;
        HasMember(after, d);
      }
      if Has(after, k) {
        var d := HasEntry(after, k);
        assert d in es || d == e;
        HasMember(es, if d in es then d else e);
      }
    }
  }

  /** A listing that repeats a cached profile: the scan counts it twice, takes all that is wanted
      for found and never looks at the other wanted one, which stays out of the cache. */
  lemma RepeatedProfileHidesAnother(a: Listed, b: Listed, es: seq<Entry>, maxBytes: nat, closed: bool, total: int)
    returns (after: seq<Entry>)
    requires a.key != b.key && Has(es, a.key) && !Has(es, b.key)
    ensures var listing, wanted := [a, a, b], {a.key, b.key};
            var mid := TurnOf(a, wanted, es, maxBytes, closed, total).entries;
            && AllFates(listing, wanted, Start(es, total), maxBytes, closed) == [Kept, Kept]
            && after == TurnOf(a, wanted, mid, maxBytes, closed, total).entries
            && Count([Kept, Kept], 2, Kept) == 2 && !Has(after, b.key)
  {
    var listing, wanted := [a, a, b], {a.key, b.key};
    var t := TurnOf(a, wanted, es, maxBytes, closed, total);
    HitTurn(a, wanted, es, maxBytes, closed, total);
    var u := TurnOf(a, wanted, t.entries, maxBytes, closed, total);
    HitTurn(a, wanted, t.entries, maxBytes, closed, total);
    after := u.entries;
    assert |wanted| == 2;
    hide TurnOf, Has;
    OneTurn(listing, wanted, es, maxBytes, closed, total, 0, 0, t);
    OneTurn(listing, wanted, t.entries, maxBytes, closed, total, 1, 1, u);
    NoMoreFates(listing, wanted, u.entries, maxBytes, closed, total, 2, 2);
    TwoKept();
  }

  lemma TwoKept()
    ensures Count([Kept, Kept], 2, Kept) == 2
  {
    assert Count([Kept, Kept], 1, Kept) == 1;
  }

  /** Why nobody else may use the cache meanwhile: an insert that asks to keep nothing, as the
      fetch of a single profile makes, evicts a profile the scan has cached. */
  lemma NilKeepEvicts(kept: Entry, other: Listed)
    requires |kept.data| == 1 && |other.data| == 1 && other.key != kept.key
    ensures var es := [kept];
            var next := Without(es, other.key)[Surplus(Without(es, other.key), 1, 1)..] + [Entry(other.key, other.data, other.meta)];
            && Has(es, kept.key) && !CacheIsFull(es, 1, other, {}) && CacheIsFull(es, 1, other, {kept.key})
            && !Has(next, kept.key)
  {
    var es := [kept];
    assert es[1..] == [];
    assert Without(es, other.key) == es;
    assert Surplus(es, 1, 1) == 1;
    assert kept in Victims(es, 1, other);
  }
}
